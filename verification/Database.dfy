/** The database the crons write to, with one method per pipeline function. Every method is proved to leave
    exactly what the functions of module Pipeline say. */
module Database {
  import opened Wrappers
  import opened Domain
  import opened Lifecycle
  import opened Grading
  import opened Pipeline

  class Store {
    const digest: Digest
    var receiverUrl: string
    var leagues: set<Id>
    var events: map<Id, Event>
    var markets: Markets
    var selections: Selections
    var quotes: map<(Id, Time), int>
    var deliveries: map<Key, Delivery>
    var bets: map<Id, Bet>

    constructor (digest: Digest, receiverUrl: string, leagues: set<Id>)
      ensures this.digest == digest && this.receiverUrl == receiverUrl
      ensures State() == Db(leagues, map[], map[], map[], map[], map[], map[])
    {
      this.digest, this.receiverUrl, this.leagues := digest, receiverUrl, leagues;
      events, markets, selections, quotes, deliveries, bets := map[], map[], map[], map[], map[], map[];
    }

    function State(): Db
      reads this
    {
      Db(leagues, events, markets, selections, quotes, deliveries, bets)
    }

    predicate Receives()
      reads this
    {
      receiverUrl != ""
    }

    // ---- settlement ----

    /** Stamps every row that received a result, and counts them. */
    method StampComputed(results: map<Id, Outcome>, now: Time) returns (total: nat)
      requires results.Keys <= selections.Keys
      modifies this`selections
      ensures selections == Stamped(old(selections), results, now)
      ensures total == |results.Keys|
    {
      total := 0;
      ghost var was := selections;
      var todo := results.Keys;
      while todo != {}
        invariant todo <= results.Keys && total + |todo| == |results.Keys|
        invariant selections.Keys == was.Keys
        invariant forall s <- was :: s !in results || s in todo ==> selections[s] == was[s]
        invariant forall s <- results :: s !in todo ==> selections[s] == Settle(was[s], results[s], Computed, now)
        decreases |todo|
      {
        var s :| s in todo;
        selections := selections[s := Settle(selections[s], results[s], Computed, now)];
        todo, total := todo - {s}, total + 1;
      }
    }

    /** Settles every touchable PENDING selection of the event from its scores, and counts them. */
    method SettleEvent(e: Id, now: Time) returns (total: nat)
      requires e in events
      modifies this`selections
      ensures selections == Pipeline.SettleEvent(events[e], markets, old(selections), e, now)
      ensures total == if events[e].status.Finished? then |Settleable(events[e], markets, old(selections), e)| else 0
    {
      total := 0;
      if events[e].status.Finished? {
        var settleable := Settleable(events[e], markets, selections, e);
        var results := map s | s in settleable :: ComputedFor(events[e], markets, selections, e, s).value;
        assert results.Keys == settleable;
        total := StampComputed(results, now);
      }
    }

    /** Grades every market of the payload; MANUAL rows are skipped. */
    method GradeEvent(e: Id, specs: seq<MarketSpec>, now: Time) returns (graded: nat)
      requires e in events
      modifies this`selections
      ensures selections == if events[e].isFinalized then GradeAll(old(selections), specs, now) else old(selections)
      ensures graded == if events[e].isFinalized then GradedIn(old(selections), specs) else 0
    {
      graded := 0;
      if !events[e].isFinalized { return; }
      for i := 0 to |specs|
        invariant selections == GradeAll(old(selections), specs[..i], now)
        invariant graded == GradedIn(old(selections), specs[..i])
      {
        assert specs[..i + 1][..i] == specs[..i];
        GradeAllKeepsTouchable(old(selections), specs[..i], now);
        SameTouchable(selections, old(selections), GradeMarket(specs[i]));
        var n := ApplyAll(GradeMarket(specs[i]), now);
        graded := graded + n;
      }
      assert specs[..|specs|] == specs;
    }

    // _apply_one for every graded pair of a market.
    method ApplyAll(pairs: Grades, now: Time) returns (graded: nat)
      modifies this`selections
      ensures selections == ApplyGrades(old(selections), pairs, now)
      ensures graded == Graded(old(selections), pairs)
    {
      graded := 0;
      for j := 0 to |pairs|
        invariant selections == ApplyGrades(old(selections), pairs[..j], now)
        invariant graded == Graded(old(selections), pairs[..j])
      {
        assert pairs[..j + 1][..j] == pairs[..j];
        ApplyGradesKeepsTouchable(old(selections), pairs[..j], now);
        var (id, o) := pairs[j];
        if id in selections && !selections[id].source.Manual? {
          selections := selections[id := Settle(selections[id], o, Provider, now)];
          graded := graded + 1;
        }
      }
      assert pairs[..|pairs|] == pairs;
    }

    method VoidRemainingPending(e: Id, now: Time)
      requires e in events
      modifies this`selections
      ensures selections == VoidRemaining(events[e], markets, old(selections), e, now)
    {
      if events[e].status.Finished? {
        selections := VoidPending(markets, selections, e, now);
      }
    }

    /** Settles the open moneyline bets of a finalized event. */
    method AutosettleBets(e: Id) returns (settled: nat)
      requires e in events
      modifies this`bets
      ensures bets == if events[e].isFinalized then SettleBets(old(bets), e, events[e].winnerCode) else old(bets)
    {
      settled := 0;
      if !events[e].isFinalized { return; }
      ghost var was := bets;
      ghost var target := SettleBets(was, e, events[e].winnerCode);
      var open := set b | b in bets && bets[b].event == e && bets[b].status.BetOpen?;
      while open != {}
        invariant open <= was.Keys && bets.Keys == was.Keys
        invariant forall b <- open :: was[b].event == e && was[b].status.BetOpen?
        invariant forall b <- was :: bets[b] == if b in open then was[b] else target[b]
        decreases |open|
      {
        var b :| b in open;
        open := open - {b};
        match BetOutcome(bets[b].kind, events[e].winnerCode) {
          case Some(st) =>
            bets := bets[b := bets[b].(status := st)];
            settled := settled + 1;
          case None =>
        }
      }
      assert bets == target;
    }

    // ---- ingest ----

    /** Upserts markets and selections in bulk and logs a quote for every moved price. */
    method WriteMarkets(e: Id, specs: seq<MarketSpec>, now: Time) returns (written: nat)
      modifies this`markets, this`selections, this`quotes
      ensures State() == Pipeline.WriteMarkets(old(State()), e, specs, now)
      ensures written == |RowsOf(specs)|
    {
      var rows := RowsOf(specs);
      if rows == [] { return 0; }
      var prior := selections;
      markets := UpsertMarkets(markets, e, specs);
      ghost var was := quotes;
      for i := 0 to |rows|
        invariant markets == UpsertMarkets(old(markets), e, specs)
        invariant selections == UpsertSelections(prior, rows[..i])
        invariant quotes == AppendQuotes(prior, was, rows[..i], now)
      {
        assert rows[..i + 1][..i] == rows[..i];
        var r := rows[i];
        selections := UpsertSelection(selections, r);
        if QuoteDue(prior, r) && (r.spec.id, now) !in quotes {
          quotes := quotes[(r.spec.id, now) := r.spec.price.value];
        }
      }
      assert rows[..|rows|] == rows;
      return |rows|;
    }

    /** Inserts a delivery for the current state of the event unless its key is already there. */
    method EnqueueForEvent(e: Id, t: Transition) returns (inserted: bool)
      requires e in events
      modifies this`deliveries
      ensures State() == Enqueue(digest, Receives(), old(State()), e, t)
      ensures inserted <==> deliveries != old(deliveries)
    {
      inserted := false;
      if t.NoTransition? || t.LifecycleChanged? || !Receives() { return; }
      var key := KeyOf(digest, State(), e);
      if key !in deliveries {
        deliveries := deliveries[key := Delivery(e, t, SnapshotOf(State(), e))];
        inserted := true;
        assert key in deliveries && key !in old(deliveries);
      }
    }

    method ForceEnqueueForEvent(e: Id, nonce: string)
      modifies this`deliveries
      ensures State() == ForceEnqueue(digest, Receives(), old(State()), e, nonce)
    {
      if e in events && Receives() {
        var t := Decide(None, StateOf(events[e]));
        var key := ManualKey(e, digest(SnapshotOf(State(), e)), nonce);
        if !t.LifecycleChanged? && key !in deliveries {
          deliveries := deliveries[key := Delivery(e, t, SnapshotOf(State(), e))];
        }
      }
    }

    /** Get-or-update of the event row; answers the state it had before. */
    method UpsertEventFromSpec(spec: EventSpec, now: Time) returns (previous: Option<EventState>)
      modifies this`events
      ensures State() == UpsertEvent(old(State()), spec, now)
      ensures previous == PreviousState(old(State()), spec.id)
    {
      previous := if spec.id in events then Some(StateOf(events[spec.id])) else None;
      events := events[spec.id := Event(
        spec.league, spec.status, spec.isFinalized, spec.homeScore, spec.awayScore, spec.winnerCode,
        Some(spec.startTime), spec.feedLocked, Some(now), now)];
    }

    method RunFinalizePasses(spec: EventSpec, now: Time)
      requires spec.id in events
      modifies this`selections, this`bets
      ensures State() == FinalizePasses(old(State()), spec, now)
    {
      if events[spec.id].isFinalized {
        var _ := GradeEvent(spec.id, spec.markets, now);
        var _ := SettleEvent(spec.id, now);
        VoidRemainingPending(spec.id, now);
        var _ := AutosettleBets(spec.id);
      }
    }

    method RunStable(r: Request) returns (result: IngestResult)
      requires r.receiver == Receives()
      modifies this`events, this`deliveries
      ensures (State(), result) == StableIngest(digest, old(State()), r)
    {
      var _ := UpsertEventFromSpec(r.spec, r.now);
      if HasDelivery(State(), r.spec.id) { return Ingested(NoTransition, false); }
      var sent := EnqueueForEvent(r.spec.id, Finalized);
      return Ingested(Finalized, sent);
    }

    method RunFull(r: Request) returns (result: IngestResult)
      requires r.receiver == Receives()
      modifies this`events, this`markets, this`selections, this`quotes, this`deliveries, this`bets
      ensures (State(), result) == FullIngest(digest, old(State()), r)
    {
      var previous := UpsertEventFromSpec(r.spec, r.now);
      var _ := WriteMarkets(r.spec.id, r.spec.markets, r.now);
      RunFinalizePasses(r.spec, r.now);
      var t := Decide(previous, SpecState(r.spec));
      var sent := EnqueueForEvent(r.spec.id, t);
      return Ingested(t, sent);
    }

    /** One call of ingest_event, with the savepoint that undoes a failed one. */
    method IngestEvent(r: Request) returns (result: IngestResult)
      requires r.receiver == Receives()
      modifies this`events, this`markets, this`selections, this`quotes, this`deliveries, this`bets
      ensures (State(), result) == Ingest(digest, old(State()), r)
    {
      if !Accepted(State(), r) {
        result := Dropped;
      } else if FinalizedStable(State(), r.spec) {
        result := RunStable(r);
      } else if !DistinctIds(r.spec.markets) {
        result := Failed;
      } else {
        result := RunFull(r);
      }
    }

    // The loop of the walk: remember the id, normalize, ingest, count.
    method WalkEvents(arrivals: seq<Arrival>) returns (seen: set<Id>, processed: nat, failed: nat, transitions: seq<Transition>)
      requires forall a <- arrivals :: a.Readable? ==> a.request.receiver == Receives()
      modifies this`events, this`markets, this`selections, this`quotes, this`deliveries, this`bets
      ensures State() == IngestAll(digest, old(State()), arrivals).0 && seen == SeenIds(arrivals)
      ensures (processed, failed, transitions) == Tally(IngestAll(digest, old(State()), arrivals).1)
    {
      seen, processed, failed, transitions := {}, 0, 0, [];
      ghost var was := State();
      for i := 0 to |arrivals|
        invariant State() == IngestAll(digest, was, arrivals[..i]).0 && seen == SeenIds(arrivals[..i])
        invariant (processed, failed, transitions) == Tally(IngestAll(digest, was, arrivals[..i]).1)
      {
        WalkStep(digest, was, arrivals, i);
        var id := arrivals[i].Name();
        if id != "" && id != "?" { seen := seen + {id}; }
        var result := ReceiveArrival(arrivals[i]);
        TallyStep(IngestAll(digest, was, arrivals[..i]).1, result);
        processed, failed, transitions := Count(processed, failed, transitions, result);
      }
      assert arrivals[..|arrivals|] == arrivals;
    }

    static method Count(processed: nat, failed: nat, transitions: seq<Transition>, result: IngestResult)
      returns (processed': nat, failed': nat, transitions': seq<Transition>)
      ensures (processed', failed', transitions') == Counted((processed, failed, transitions), result)
    {
      processed', failed', transitions' := processed, failed, transitions;
      match result {
        case Dropped =>
        case Failed => failed' := failed' + 1;
        case Ingested(t, _) => processed', transitions' := processed' + 1, transitions' + [t];
      }
    }

    method ReceiveArrival(a: Arrival) returns (result: IngestResult)
      requires a.Readable? ==> a.request.receiver == Receives()
      modifies this`events, this`markets, this`selections, this`quotes, this`deliveries, this`bets
      ensures (State(), result) == Receive(digest, old(State()), a)
    {
      match a {
        case Readable(r) => result := IngestEvent(r);
        case Unreadable(_, raises) => result := if raises then Failed else Dropped;
      }
    }

    /** The walk over one league: every payload in turn, then the reconcile pass over what was not seen. */
    method IngestLeague(league: Id, arrivals: seq<Arrival>, windowStart: Time, windowEnd: Time, now: Time)
      returns (processed: nat, failed: nat, transitions: seq<Transition>)
      requires forall a <- arrivals :: a.Readable? ==> a.request.receiver == Receives()
      modifies this`events, this`markets, this`selections, this`quotes, this`deliveries, this`bets
      ensures var (walked, results) := IngestAll(digest, old(State()), arrivals);
        && State() == Reconcile(walked, league, SeenIds(arrivals), windowStart, windowEnd, now)
        && (processed, failed, transitions) == Tally(results)
    {
      var seen: set<Id>;
      seen, processed, failed, transitions := WalkEvents(arrivals);
      var _ := ReconcileDisappeared(league, seen, windowStart, windowEnd, now);
    }

    /** Rolls back the clock of every open event of the league in the window that was not seen, and answers them. */
    method ReconcileDisappeared(league: Id, seen: set<Id>, windowStart: Time, windowEnd: Time, now: Time) returns (missing: set<Id>)
      modifies this`events
      ensures State() == Reconcile(old(State()), league, seen, windowStart, windowEnd, now)
      ensures missing !! seen && events.Keys == old(events.Keys)
      ensures forall e <- events :: e in missing <==> ReconcileTarget(State(), e, league, seen, windowStart, windowEnd)
      ensures forall e <- events :: e !in missing ==> events[e] == old(events)[e]
    {
      var pending := set e | e in events && ReconcileTarget(State(), e, league, {}, windowStart, windowEnd);
      missing := pending - seen;
      events := map e | e in events :: if e in missing then events[e].(lastSeen := Some(now - HOUR), updated := now) else events[e];
    }

    // ---- watchdog and backfill ----

    // ORDER BY clock LIMIT limit over the candidates of a scan.
    method TakeEarliest(candidates: set<Id>, clock: map<Id, Time>, limit: nat) returns (picked: seq<Id>)
      requires candidates <= clock.Keys
      ensures Earliest(candidates, clock, limit, picked)
    {
      picked := [];
      var rest := candidates;
      while rest != {} && |picked| < limit
        invariant |picked| <= limit && NoRepeats(picked) && (forall e <- picked :: e in candidates)
        invariant rest == set e | e in candidates && e !in picked
        invariant forall i, j :: 0 <= i < j < |picked| ==> clock[picked[i]] <= clock[picked[j]]
        invariant forall e <- rest :: forall p <- picked :: clock[p] <= clock[e]
        decreases |rest|
      {
        EarliestExists(clock, rest);
        var e :| e in rest && forall f <- rest :: clock[e] <= clock[f];
        picked := picked + [e];
        rest := rest - {e};
      }
    }

    /** The stale events, earliest start first, up to the limit. */
    method ScanStale(hours: int, now: Time, limit: nat) returns (picked: seq<Id>)
      ensures PicksStale(State(), picked, hours, now)
      ensures Earliest(StaleSet(State(), hours, now), StartClock(events), limit, picked)
      ensures forall e <- picked :: e in events && Overdue(events[e], hours, now)
      ensures forall e <- events :: Overdue(events[e], hours, now) ==>
        e in picked || (|picked| == limit && forall p <- picked :: events[p].startTime.value <= events[e].startTime.value)
      ensures forall i, j :: 0 <= i < j < |picked| ==> events[picked[i]].startTime.value <= events[picked[j]].startTime.value
    {
      picked := TakeEarliest(StaleSet(State(), hours, now), StartClock(events), limit);
    }

    /** The events the feed no longer returns, longest missing first, up to the limit. */
    method ScanDisappeared(hours: int, now: Time, limit: nat) returns (picked: seq<Id>)
      ensures PicksDisappeared(State(), picked, hours, now)
      ensures Earliest(DisappearedSet(State(), hours, now), SeenClock(events), limit, picked)
      ensures forall e <- picked :: e in events && Missing(events[e], hours, now)
      ensures forall e <- events :: Missing(events[e], hours, now) ==>
        e in picked || (|picked| == limit && forall p <- picked :: events[p].lastSeen.value <= events[e].lastSeen.value)
      ensures forall i, j :: 0 <= i < j < |picked| ==> events[picked[i]].lastSeen.value <= events[picked[j]].lastSeen.value
    {
      picked := TakeEarliest(DisappearedSet(State(), hours, now), SeenClock(events), limit);
    }

    method AutoVoidEvent(e: Id, now: Time)
      requires e in events
      modifies this`events, this`selections, this`deliveries
      ensures State() == AutoVoid(digest, Receives(), old(State()), e, now)
    {
      events := events[e := events[e].(status := Canceled, feedLocked := true, isFinalized := false, updated := now)];
      selections := VoidPending(markets, selections, e, now);
      var _ := EnqueueForEvent(e, Voided);
    }

    method AutoVoidPicked(picked: seq<Id>, now: Time)
      requires forall e <- picked :: e in events
      modifies this`events, this`selections, this`deliveries
      ensures State() == AutoVoidAll(digest, Receives(), old(State()), picked, now)
    {
      ghost var was := State();
      for i := 0 to |picked|
        invariant events.Keys == was.events.Keys
        invariant State() == AutoVoidAll(digest, Receives(), was, picked[..i], now)
      {
        assert picked[..i + 1][..i] == picked[..i];
        AutoVoidEvent(picked[i], now);
      }
      assert picked[..|picked|] == picked;
    }

    /** Disabled for hours <= 0; otherwise one watchdog step over the events the scan picked. */
    method AutoVoidStaleEvents(hours: int, now: Time, limit: nat) returns (ids: seq<Id>)
      modifies this`events, this`selections, this`deliveries
      ensures hours <= 0 ==> ids == [] && State() == old(State())
      ensures hours > 0 ==> PicksStale(old(State()), ids, hours, now)
      ensures hours > 0 ==> Earliest(StaleSet(old(State()), hours, now), StartClock(old(events)), limit, ids)
      ensures State() == AutoVoidAll(digest, Receives(), old(State()), ids, now)
    {
      ids := [];
      if hours > 0 {
        ids := ScanStale(hours, now, limit);
        AutoVoidPicked(ids, now);
      }
    }

    method AutoVoidDisappearedEvents(hours: int, now: Time, limit: nat) returns (ids: seq<Id>)
      modifies this`events, this`selections, this`deliveries
      ensures hours <= 0 ==> ids == [] && State() == old(State())
      ensures hours > 0 ==> PicksDisappeared(old(State()), ids, hours, now)
      ensures hours > 0 ==> Earliest(DisappearedSet(old(State()), hours, now), SeenClock(old(events)), limit, ids)
      ensures State() == AutoVoidAll(digest, Receives(), old(State()), ids, now)
    {
      ids := [];
      if hours > 0 {
        ids := ScanDisappeared(hours, now, limit);
        AutoVoidPicked(ids, now);
      }
    }

    /** One tick: the stale branch, then the disappearance branch on what it left. No event is voided by both, so the
        merged list repeats none. */
    method RunWatchdog(staleHours: int, disappearedHours: int, now: Time, limit: nat)
      returns (ids: seq<Id>, ghost stale: seq<Id>, ghost disappeared: seq<Id>)
      modifies this`events, this`selections, this`deliveries
      ensures if staleHours > 0 then PicksStale(old(State()), stale, staleHours, now) else stale == []
      ensures forall e <- stale :: e in old(events)
      ensures var middle := AutoVoidAll(digest, Receives(), old(State()), stale, now);
        && (if disappearedHours > 0 then PicksDisappeared(middle, disappeared, disappearedHours, now) else disappeared == [])
        && (forall e <- disappeared :: e in middle.events)
        && State() == AutoVoidAll(digest, Receives(), middle, disappeared, now)
      ensures ids == stale + disappeared && NoRepeats(ids)
    {
      var voidedIds := AutoVoidStaleEvents(staleHours, now, limit);
      stale := voidedIds;
      var more := AutoVoidDisappearedEvents(disappearedHours, now, limit);
      disappeared := more;
      NeverVoidedTwice(digest, Receives(), old(State()), stale, disappeared, disappearedHours, now);
      ids := Merge(voidedIds, more);
    }

    // voided_ids.extend(e for e in more if e not in voided_ids)
    method Merge(voidedIds: seq<Id>, more: seq<Id>) returns (ids: seq<Id>)
      requires NoRepeats(voidedIds) && NoRepeats(more) && forall e <- more :: e !in voidedIds
      ensures ids == voidedIds + more && NoRepeats(ids)
    {
      ids := voidedIds;
      for i := 0 to |more|
        invariant ids == voidedIds + more[..i] && NoRepeats(ids)
      {
        if more[i] !in voidedIds { ids := ids + [more[i]]; }
      }
    }

    /** Settles the finished events touched in the lookback window, then voids what is long dead. */
    method SettlePendingEvents(lookbackHours: int, now: Time) returns (selected: seq<Id>)
      modifies this`selections
      ensures PicksBackfill(old(State()), selected, lookbackHours, now)
      ensures State() == VoidLongDead(SettleEvents(old(State()), selected, now), now)
    {
      selected := [];
      ghost var was := State();
      var rest := set e | e in events && BackfillCandidate(State(), e, lookbackHours, now);
      while rest != {}
        invariant forall e <- rest :: e !in selected
        invariant NoRepeats(selected) && forall e :: e in selected || e in rest <==> BackfillCandidate(was, e, lookbackHours, now)
        invariant State() == SettleEvents(was, selected, now)
        decreases |rest|
      {
        var e :| e in rest;
        var _ := SettleEvent(e, now);
        assert (selected + [e])[..|selected|] == selected;
        selected, rest := selected + [e], rest - {e};
      }
      selections := VoidLongDead(State(), now).selections;
    }
  }

  // Open, and more than these hours past its start.
  predicate Overdue(row: Event, hours: int, now: Time) {
    && (row.status.NotStarted? || row.status.InProgress?)
    && row.startTime.Some? && now - row.startTime.value > hours * 3600
  }

  // Open, and not seen for more than these hours.
  predicate Missing(row: Event, hours: int, now: Time) {
    && (row.status.NotStarted? || row.status.InProgress?) && !row.isFinalized
    && row.lastSeen.Some? && now - row.lastSeen.value > hours * 3600
  }

  // ---- what PROVIDER counts ----

  // The rows a grade is written to.
  predicate Touchable(sels: Selections, s: Id) {
    s in sels && !sels[s].source.Manual?
  }

  function Graded(sels: Selections, gs: Grades): nat {
    if gs == [] then 0
    else Graded(sels, gs[..|gs| - 1]) + if Touchable(sels, gs[|gs| - 1].0) then 1 else 0
  }

  function GradedIn(sels: Selections, specs: seq<MarketSpec>): nat {
    if specs == [] then 0
    else GradedIn(sels, specs[..|specs| - 1]) + Graded(sels, GradeMarket(specs[|specs| - 1]))
  }

  lemma {:induction false} ApplyGradesKeepsTouchable(sels: Selections, gs: Grades, now: Time)
    ensures forall s :: Touchable(ApplyGrades(sels, gs, now), s) <==> Touchable(sels, s)
  {
    if gs != [] { ApplyGradesKeepsTouchable(sels, gs[..|gs| - 1], now); }
  }

  lemma {:induction false} GradeAllKeepsTouchable(sels: Selections, specs: seq<MarketSpec>, now: Time)
    ensures forall s :: Touchable(GradeAll(sels, specs, now), s) <==> Touchable(sels, s)
  {
    if specs != [] {
      var front := specs[..|specs| - 1];
      GradeAllKeepsTouchable(sels, front, now);
      ApplyGradesKeepsTouchable(GradeAll(sels, front, now), GradeMarket(specs[|specs| - 1]), now);
    }
  }

  lemma {:induction false} SameTouchable(a: Selections, b: Selections, gs: Grades)
    requires forall s :: Touchable(a, s) <==> Touchable(b, s)
    ensures Graded(a, gs) == Graded(b, gs)
  {
    if gs != [] { SameTouchable(a, b, gs[..|gs| - 1]); }
  }

  function StampedBy(sels: Selections, gs: Grades): set<Id> {
    set g | g in gs && Touchable(sels, g.0) :: g.0
  }

  lemma StampedByStep(sels: Selections, gs: Grades, g: (Id, Outcome))
    ensures StampedBy(sels, gs + [g]) == if Touchable(sels, g.0) then StampedBy(sels, gs) + {g.0} else StampedBy(sels, gs)
  {
    var all := gs + [g];
    assert all[|gs|] == g && forall x :: x in all <==> x in gs || x == g;
  }

  /** For grades of different selections the count is the number of rows that are stamped: the graded rows that are
      there and not MANUAL. */
  lemma {:induction false} GradedCountsRows(sels: Selections, gs: Grades)
    requires forall i, j :: 0 <= i < j < |gs| ==> gs[i].0 != gs[j].0
    ensures Graded(sels, gs) == |StampedBy(sels, gs)|
  {
    if gs != [] {
      var front, last := gs[..|gs| - 1], gs[|gs| - 1];
      GradedCountsRows(sels, front);
      assert gs == front + [last] && last.0 !in StampedBy(sels, front);
      StampedByStep(sels, front, last);
    }
  }

  /** A stamped row carries its grade, by PROVIDER, as of now; every other row is as it was. */
  lemma {:induction false} GradesStampRows(sels: Selections, gs: Grades, now: Time, s: Id)
    requires (forall i, j :: 0 <= i < j < |gs| ==> gs[i].0 != gs[j].0) && s in sels
    ensures var d := ApplyGrades(sels, gs, now);
      && s in d && (s !in StampedBy(sels, gs) ==> d[s] == sels[s])
      && (forall g <- gs :: g.0 == s && Touchable(sels, s) ==> d[s] == Settle(sels[s], g.1, Provider, now))
  {
    if gs != [] {
      var front, last := gs[..|gs| - 1], gs[|gs| - 1];
      GradesStampRows(sels, front, now, s);
      ApplyGradesKeepsTouchable(sels, front, now);
      assert forall g :: g in gs <==> g in front || g == last;
      if last.0 == s { assert s !in StampedBy(sels, front); }
    }
  }

  function Stamped(sels: Selections, results: map<Id, Outcome>, now: Time): Selections {
    map s | s in sels :: if s in results then Settle(sels[s], results[s], Computed, now) else sels[s]
  }

  function Settleable(ev: Event, ms: Markets, sels: Selections, e: Id): set<Id> {
    set s | s in sels && ComputedFor(ev, ms, sels, e, s).Some?
  }

  function StaleSet(db: Db, hours: int, now: Time): set<Id> {
    set e | e in db.events && StaleCandidate(db, e, hours, now)
  }

  function DisappearedSet(db: Db, hours: int, now: Time): set<Id> {
    set e | e in db.events && DisappearedCandidate(db, e, hours, now)
  }

  function StartClock(events: map<Id, Event>): map<Id, Time> {
    map e | e in events :: events[e].startTime.GetOr(0)
  }

  function SeenClock(events: map<Id, Event>): map<Id, Time> {
    map e | e in events :: events[e].lastSeen.GetOr(0)
  }

  // The first candidates by the clock, all of them if the limit allows.
  ghost predicate Earliest(candidates: set<Id>, clock: map<Id, Time>, limit: nat, picked: seq<Id>)
    requires candidates <= clock.Keys
  {
    && |picked| <= limit && NoRepeats(picked) && (forall e <- picked :: e in candidates)
    && (forall i, j :: 0 <= i < j < |picked| ==> clock[picked[i]] <= clock[picked[j]])
    && (forall e <- candidates :: e !in picked ==> |picked| == limit && forall p <- picked :: clock[p] <= clock[e])
  }

  lemma NeverVoidedTwice(h: Digest, receiver: bool, db: Db, stale: seq<Id>, disappeared: seq<Id>, hours: int, now: Time)
    requires forall e <- stale :: e in db.events
    requires var middle := AutoVoidAll(h, receiver, db, stale, now);
      if hours > 0 then PicksDisappeared(middle, disappeared, hours, now) else disappeared == []
    ensures forall e <- disappeared :: e !in stale
    ensures NoRepeats(disappeared)
  {
    forall e | e in disappeared ensures e !in stale {
      if e in stale { AutoVoidAllCancels(h, receiver, db, stale, now, e); }
    }
  }

  lemma {:induction false} AutoVoidAllCancels(h: Digest, receiver: bool, db: Db, picked: seq<Id>, now: Time, e: Id)
    requires (forall f <- picked :: f in db.events) && e in db.events && (e in picked || db.events[e].status.Canceled?)
    ensures AutoVoidAll(h, receiver, db, picked, now).events[e].status.Canceled?
  {
    if picked != [] && picked[|picked| - 1] != e {
      assert picked == picked[..|picked| - 1] + [picked[|picked| - 1]];
      AutoVoidAllCancels(h, receiver, db, picked[..|picked| - 1], now, e);
    }
  }

  function Counted(counts: (nat, nat, seq<Transition>), result: IngestResult): (nat, nat, seq<Transition>) {
    match result
    case Dropped => counts
    case Failed => (counts.0, counts.1 + 1, counts.2)
    case Ingested(t, _) => (counts.0 + 1, counts.1, counts.2 + [t])
  }

  function Tally(results: seq<IngestResult>): (nat, nat, seq<Transition>) {
    if results == [] then (0, 0, []) else Counted(Tally(results[..|results| - 1]), results[|results| - 1])
  }

  lemma TallyStep(results: seq<IngestResult>, result: IngestResult)
    ensures Tally(results + [result]) == Counted(Tally(results), result)
  {
    assert (results + [result])[..|results|] == results;
  }

  ghost predicate NoneFailed(results: seq<IngestResult>) {
    forall r <- results :: !r.Failed?
  }

  ghost predicate AllIngested(results: seq<IngestResult>) {
    forall r <- results :: r.Ingested?
  }

  lemma LastResult(results: seq<IngestResult>, last: IngestResult)
    ensures NoneFailed(results + [last]) <==> NoneFailed(results) && !last.Failed?
    ensures AllIngested(results + [last]) <==> AllIngested(results) && last.Ingested?
  {
    var all := results + [last];
    assert all[|results|] == last && forall i :: 0 <= i < |results| ==> all[i] == results[i];
    forall r ensures r in all <==> r in results || r == last {}
  }

  lemma {:induction false} TallyCounts(results: seq<IngestResult>)
    ensures var (processed, failed, transitions) := Tally(results);
      && |transitions| == processed && processed + failed <= |results|
      && (failed == 0 <==> NoneFailed(results)) && (processed == |results| <==> AllIngested(results))
  {
    if results != [] {
      var front, last := results[..|results| - 1], results[|results| - 1];
      assert results == front + [last];
      TallyCounts(front);
      LastResult(front, last);
      assert Tally(results) == Counted(Tally(front), last);
      assert AllIngested(results) <==> AllIngested(front) && last.Ingested?;
    }
  }

  lemma {:induction false} TallyReports(results: seq<IngestResult>, t: Transition)
    ensures
      var transitions := Tally(results).2;
      t in transitions <==> exists r <- results :: r.Ingested? && r.transition == t
  {
    if results != [] {
      var front, last := results[..|results| - 1], results[|results| - 1];
      TallyReports(front, t);
      assert t in Tally(results).2 <==> t in Tally(front).2 || (last.Ingested? && last.transition == t);
      if r :| r in front && r.Ingested? && r.transition == t { assert r in results; }
      if r :| r in results && r.Ingested? && r.transition == t { assert r in front || r == last; }
    }
  }

  lemma {:induction false} TallyInOrder(results: seq<IngestResult>, i: nat)
    requires i < |results| && Tally(results).0 == |results|
    ensures results[i].Ingested? && |Tally(results).2| == |results| && Tally(results).2[i] == results[i].transition
  {
    TallyCounts(results);
    TallyCounts(results[..|results| - 1]);
    assert results[i] in results;
    if i < |results| - 1 { TallyInOrder(results[..|results| - 1], i); }
  }

  /** The counts add up: every payload is processed, failed or dropped, each processed one reports its transition, in
      order, and none is failed or dropped exactly when all are processed. */
  lemma TallyAddsUp(results: seq<IngestResult>)
    ensures
      var (processed, failed, transitions) := Tally(results);
      && |transitions| == processed && 0 <= failed <= processed + failed <= |results|
      && (failed == 0 <==> forall r <- results :: !r.Failed?)
      && (processed == |results| <==> forall r <- results :: r.Ingested?)
      && (processed == |results| ==> forall i :: 0 <= i < |results| ==> results[i].Ingested? && results[i].transition == transitions[i])
      && (forall t :: t in transitions <==> exists r <- results :: r.Ingested? && r.transition == t)
  {
    TallyCounts(results);
    if Tally(results).0 == |results| {
      forall i | 0 <= i < |results| ensures results[i].Ingested? && results[i].transition == Tally(results).2[i] { TallyInOrder(results, i); }
    }
    forall t ensures t in Tally(results).2 <==> exists r <- results :: r.Ingested? && r.transition == t { TallyReports(results, t); }
  }

  lemma WalkStep(h: Digest, db: Db, arrivals: seq<Arrival>, i: nat)
    requires i < |arrivals|
    ensures
      var before, after := IngestAll(h, db, arrivals[..i]), IngestAll(h, db, arrivals[..i + 1]);
      var received := Receive(h, before.0, arrivals[i]);
      after.0 == received.0 && after.1 == before.1 + [received.1]
    ensures
      var id, seen := arrivals[i].Name(), SeenIds(arrivals[..i]);
      SeenIds(arrivals[..i + 1]) == if id != "" && id != "?" then seen + {id} else seen
  {
    assert arrivals[..i + 1][..i] == arrivals[..i];
    assert forall a :: a in arrivals[..i + 1] <==> a in arrivals[..i] || a == arrivals[i];
  }

  lemma {:induction false} EarliestExists(clock: map<Id, Time>, rest: set<Id>)
    requires rest != {} && rest <= clock.Keys
    ensures exists e <- rest :: forall f <- rest :: clock[e] <= clock[f]
    decreases |rest|
  {
    var x :| x in rest;
    if rest != {x} {
      EarliestExists(clock, rest - {x});
      var e :| e in rest - {x} && forall f <- rest - {x} :: clock[e] <= clock[f];
      var best := if clock[x] <= clock[e] then x else e;
      assert forall f <- rest :: f == x || f in rest - {x};
      assert forall f <- rest :: clock[best] <= clock[f];
    } else {
      assert forall f <- rest :: clock[x] <= clock[f];
    }
  }
}
