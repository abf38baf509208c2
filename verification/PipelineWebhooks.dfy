/** What the webhook queue promises: with a receiver configured every finished event is notified in its current
    state, the backstop repairs exactly the events without any delivery, and ingesting twice changes nothing. */
module PipelineWebhooks {
  import opened Wrappers
  import opened Domain
  import opened Lifecycle
  import opened Grading
  import opened Pipeline
  import opened PipelineSafety

  // An assignment of events to market and selection ids.
  datatype Owners = Owners(market: Id -> Id, selection: Id -> Id)

  ghost predicate Owned(own: Owners, db: Db) {
    && (forall m <- db.markets :: own.market(m) == db.markets[m].event)
    && (forall s <- db.selections ::
          db.selections[s].market in db.markets && own.selection(s) == db.markets[db.selections[s].market].event)
  }

  ghost predicate OwnedSpec(own: Owners, spec: EventSpec) {
    && (forall m :: Names(spec.markets, m) ==> own.market(m) == spec.id)
    && (forall s :: Lists(spec.markets, s) ==> own.selection(s) == spec.id)
  }

  // Rows owned by other events are the same before and after.
  ghost predicate OnlyTouches(own: Owners, a: Selections, b: Selections, e: Id) {
    forall s :: own.selection(s) != e ==> (s in a <==> s in b) && (s in a ==> a[s] == b[s])
  }

  lemma OwnedBelongs(own: Owners, db: Db, e: Id)
    requires Owned(own, db)
    ensures forall s :: Belongs(db.markets, db.selections, s, e) <==> s in db.selections && own.selection(s) == e
  {
  }

  lemma SnapshotKept(own: Owners, a: Db, b: Db, e: Id, f: Id)
    requires Owned(own, a) && Owned(own, b) && OnlyTouches(own, a.selections, b.selections, e) && f != e
    requires f in a.events && f in b.events && StateOf(a.events[f]) == StateOf(b.events[f])
    ensures SnapshotOf(a, f) == SnapshotOf(b, f)
  {
    OwnedBelongs(own, a, f);
    OwnedBelongs(own, b, f);
    assert SnapshotOf(a, f).outcomes == SnapshotOf(b, f).outcomes;
  }

  // ---- ownership is kept ----

  lemma UpsertMarketsOwned(own: Owners, ms: Markets, spec: EventSpec)
    requires OwnedSpec(own, spec) && forall m <- ms :: own.market(m) == ms[m].event
    ensures var r := UpsertMarkets(ms, spec.id, spec.markets);
      ms.Keys <= r.Keys && (forall m <- r :: own.market(m) == r[m].event) && forall row <- RowsOf(spec.markets) :: row.market in r
  {
    UpsertMarketsMerges(ms, spec.id, spec.markets);
    RowsAreNamedAll(spec.markets);
  }

  lemma WriteMarketsOwned(own: Owners, db: Db, spec: EventSpec, now: Time)
    requires Owned(own, db) && OwnedSpec(own, spec) && AllConsistent(db.selections)
    ensures var d := WriteMarkets(db, spec.id, spec.markets, now);
      Owned(own, d) && OnlyTouches(own, db.selections, d.selections, spec.id)
  {
    if RowsOf(spec.markets) != [] {
      UpsertSelectionsEffect(db.selections, RowsOf(spec.markets));
      UpsertMarketsOwned(own, db.markets, spec);
      RowsAreNamedAll(spec.markets);
    }
  }

  lemma PassKeepsOwned(own: Owners, db: Db, d: Db, e: Id)
    requires Owned(own, db) && d.markets == db.markets && Pass(db.markets, db.selections, d.selections, e)
    ensures Owned(own, d) && OnlyTouches(own, db.selections, d.selections, e)
  {
    forall s | s in d.selections ensures SameListing(db.selections[s], d.selections[s]) {}
    OwnedBelongs(own, db, e);
  }

  // ---- with a receiver, every finished event is notified ----

  ghost predicate Notified(h: Digest, db: Db) {
    forall e <- db.events :: db.events[e].status.Finished? ==> KeyOf(h, db, e) in db.deliveries
  }

  ghost predicate Tracked(h: Digest, own: Owners, db: Db) {
    Safe(db) && Owned(own, db) && Notified(h, db)
  }

  // b notifies whatever a notified about the events other than e.
  lemma OthersStayNotified(h: Digest, own: Owners, a: Db, b: Db, e: Id)
    requires Notified(h, a) && Owned(own, a) && Owned(own, b) && OnlyTouches(own, a.selections, b.selections, e)
    requires b.events.Keys == a.events.Keys + {e} && a.deliveries.Keys <= b.deliveries.Keys
    requires forall f <- a.events :: f != e ==> StateOf(a.events[f]) == StateOf(b.events[f])
    requires b.events[e].status.Finished? ==> KeyOf(h, b, e) in b.deliveries
    ensures Notified(h, b)
  {
    forall f | f in b.events && b.events[f].status.Finished? ensures KeyOf(h, b, f) in b.deliveries {
      if f != e { SnapshotKept(own, a, b, e, f); }
    }
  }

  lemma EnqueueKeeps(h: Digest, receiver: bool, db: Db, e: Id, t: Transition)
    requires e in db.events
    ensures var d := Enqueue(h, receiver, db, e, t);
      && d == db.(deliveries := d.deliveries) && db.deliveries.Keys <= d.deliveries.Keys
      && (receiver && (t.Finalized? || t.Voided?) ==> KeyOf(h, d, e) in d.deliveries)
  {
  }

  lemma IngestPassesOwned(own: Owners, db: Db, r: Request)
    requires AllConsistent(db.selections) && Owned(own, db) && OwnedSpec(own, r.spec) && r.spec.id in db.events
    ensures var done := FinalizePasses(WriteMarkets(db, r.spec.id, r.spec.markets, r.now), r.spec, r.now);
      && Owned(own, done) && OnlyTouches(own, db.selections, done.selections, r.spec.id)
      && done.events == db.events && done.deliveries == db.deliveries
  {
    var e := r.spec.id;
    var written := WriteMarkets(db, e, r.spec.markets, r.now);
    WriteMarketsOwned(own, db, r.spec, r.now);
    WriteMarketsEffect(db, e, r.spec.markets, r.now);
    FinalizePassesEffect(written, r.spec, r.now);
    PassKeepsOwned(own, written, FinalizePasses(written, r.spec, r.now), e);
  }

  lemma FullIngestNotifies(h: Digest, own: Owners, db: Db, r: Request)
    requires Tracked(h, own, db) && OwnedSpec(own, r.spec) && r.receiver
    requires Accepted(db, r) && !FinalizedStable(db, r.spec) && DistinctIds(r.spec.markets)
    ensures var d := Ingest(h, db, r).0; Owned(own, d) && Notified(h, d)
  {
    var e, up := r.spec.id, UpsertEvent(db, r.spec, r.now);
    IngestPassesOwned(own, up, r);
    var done := FinalizePasses(WriteMarkets(up, e, r.spec.markets, r.now), r.spec, r.now);
    EnqueueKeeps(h, true, done, e, Decide(PreviousState(db, e), SpecState(r.spec)));
    OthersStayNotified(h, own, db, Ingest(h, db, r).0, e);
  }

  lemma IngestNotifies(h: Digest, own: Owners, db: Db, r: Request)
    requires Tracked(h, own, db) && OwnedSpec(own, r.spec) && r.receiver && Coherent(IngestStep(r))
    ensures Tracked(h, own, Ingest(h, db, r).0)
  {
    IngestIsSafe(h, db, r);
    if Accepted(db, r) {
      if FinalizedStable(db, r.spec) {
        EnqueueKeeps(h, true, UpsertEvent(db, r.spec, r.now), r.spec.id, Finalized);
        BackstopExactly(h, db, r);
        OthersStayNotified(h, own, db, Ingest(h, db, r).0, r.spec.id);
      } else if DistinctIds(r.spec.markets) {
        FullIngestNotifies(h, own, db, r);
      }
    }
  }

  lemma AutoVoidNotifies(h: Digest, own: Owners, receiver: bool, db: Db, e: Id, now: Time)
    requires Tracked(h, own, db) && e in db.events
    ensures Tracked(h, own, AutoVoid(h, receiver, db, e, now))
  {
    VoidPendingEffect(db.markets, db.selections, e, now);
    AutoVoidIsSafe(h, receiver, db, e, now);
    var d := AutoVoid(h, receiver, db, e, now);
    PassKeepsOwned(own, db, d, e);
    OthersStayNotified(h, own, db, d, e);
  }

  lemma {:induction false} AutoVoidAllNotifies(h: Digest, own: Owners, receiver: bool, db: Db, picked: seq<Id>, now: Time)
    requires Tracked(h, own, db) && forall e <- picked :: e in db.events
    ensures Tracked(h, own, AutoVoidAll(h, receiver, db, picked, now))
  {
    if picked != [] {
      AutoVoidAllNotifies(h, own, receiver, db, picked[..|picked| - 1], now);
      AutoVoidNotifies(h, own, receiver, AutoVoidAll(h, receiver, db, picked[..|picked| - 1], now), picked[|picked| - 1], now);
    }
  }

  // The step changes neither the state nor the results of any finished event.
  ghost predicate Quiet(a: Db, b: Db) {
    && a.events.Keys == b.events.Keys && a.deliveries.Keys <= b.deliveries.Keys
    && (forall e <- a.events :: StateOf(a.events[e]) == StateOf(b.events[e]))
    && (forall e <- a.events :: a.events[e].status.Finished? ==> SnapshotOf(a, e) == SnapshotOf(b, e))
  }

  lemma QuietStaysNotified(h: Digest, a: Db, b: Db)
    requires Notified(h, a) && Quiet(a, b)
    ensures Notified(h, b)
  {
    forall e | e in b.events && b.events[e].status.Finished? ensures KeyOf(h, b, e) in b.deliveries {
      assert StateOf(a.events[e]) == StateOf(b.events[e]);
    }
  }

  lemma VoidLongDeadIsQuiet(db: Db, now: Time)
    ensures Quiet(db, VoidLongDead(db, now))
  {
    var d := VoidLongDead(db, now);
    forall e | e in db.events && db.events[e].status.Finished? ensures SnapshotOf(db, e) == SnapshotOf(d, e) {
      LongDeadSparesFinished(db, e, now);
    }
  }

  lemma LongDeadSparesFinished(db: Db, e: Id, now: Time)
    requires e in db.events && db.events[e].status.Finished?
    ensures OutcomesOf(db.markets, VoidLongDead(db, now).selections, e) == OutcomesOf(db.markets, db.selections, e)
  {
  }

  lemma ReconcileIsQuiet(db: Db, league: Id, seen: set<Id>, from: Time, to: Time, now: Time)
    ensures Quiet(db, Reconcile(db, league, seen, from, to, now))
  {
  }

  lemma ForceIsQuiet(h: Digest, receiver: bool, db: Db, e: Id, nonce: string)
    ensures Quiet(db, ForceEnqueue(h, receiver, db, e, nonce))
  {
  }

  lemma QuietStepsNotify(h: Digest, own: Owners, db: Db, step: Step)
    requires Tracked(h, own, db) && Enabled(db, step) && (step.ReconcileStep? || step.SettlePendingStep? || step.ForceStep?)
    ensures Tracked(h, own, Next(h, db, step))
  {
    NextIsSafe(h, db, step);
    match step
    case ReconcileStep(league, seen, from, to, now) => ReconcileIsQuiet(db, league, seen, from, to, now);
    case SettlePendingStep(selected, _, now) => SettleEventsIsIdle(db, selected, now); VoidLongDeadIsQuiet(db, now);
    case ForceStep(e, nonce, _, receiver) => ForceIsQuiet(h, receiver, db, e, nonce);
    QuietStaysNotified(h, db, Next(h, db, step));
  }

  lemma {:induction false} OwnedRunNotifies(h: Digest, own: Owners, dbs: seq<Db>, steps: seq<Step>, i: nat)
    requires Run(h, dbs, steps) && Tracked(h, own, dbs[0]) && i <= |steps|
    requires forall step <- steps :: Coherent(step) && OwnedStep(own, step) && step.Receives()
    ensures Tracked(h, own, dbs[i])
  {
    if i > 0 {
      OwnedRunNotifies(h, own, dbs, steps, i - 1);
      var db, step := dbs[i - 1], steps[i - 1];
      match step
      case IngestStep(r) =>
        assert step in steps && step.Receives() && OwnedStep(own, step);
        IngestNotifies(h, own, db, r);
      case StaleStep(hours, picked, now, receiver) => AutoVoidAllNotifies(h, own, receiver, db, picked, now);
      case DisappearedStep(hours, picked, now, receiver) => AutoVoidAllNotifies(h, own, receiver, db, picked, now);
      case _ => QuietStepsNotify(h, own, db, step);
    }
  }

  ghost predicate OwnedStep(own: Owners, step: Step) {
    step.IngestStep? ==> OwnedSpec(own, step.request.spec)
  }

  // The payload of the step names the market, or lists the selection.
  ghost predicate NamesMarket(step: Step, m: Id) {
    step.IngestStep? && Names(step.request.spec.markets, m)
  }

  ghost predicate ListsSelection(step: Step, s: Id) {
    step.IngestStep? && Lists(step.request.spec.markets, s)
  }

  /** Payloads of different events share no market id and no selection id. */
  ghost predicate Apart(steps: seq<Step>) {
    && (forall a <- steps, b <- steps, m ::
          NamesMarket(a, m) && NamesMarket(b, m) ==> a.request.spec.id == b.request.spec.id)
    && (forall a <- steps, b <- steps, s ::
          ListsSelection(a, s) && ListsSelection(b, s) ==> a.request.spec.id == b.request.spec.id)
  }

  /** Nor do they name the rows that another event has to begin with. */
  ghost predicate ApartFrom(db: Db, steps: seq<Step>) {
    && (forall s <- db.selections :: db.selections[s].market in db.markets)
    && (forall step <- steps, m <- db.markets :: NamesMarket(step, m) ==> db.markets[m].event == step.request.spec.id)
    && (forall step <- steps, s <- db.selections ::
          ListsSelection(step, s) ==> db.markets[db.selections[s].market].event == step.request.spec.id)
  }

  ghost function MarketOwner(db: Db, steps: seq<Step>, m: Id): Id {
    if m in db.markets then db.markets[m].event
    else if exists step <- steps :: NamesMarket(step, m) then
      var step :| step in steps && NamesMarket(step, m); step.request.spec.id
    else ""
  }

  ghost function SelectionOwner(db: Db, steps: seq<Step>, s: Id): Id {
    if s in db.selections && db.selections[s].market in db.markets then db.markets[db.selections[s].market].event
    else if exists step <- steps :: ListsSelection(step, s) then
      var step :| step in steps && ListsSelection(step, s); step.request.spec.id
    else ""
  }

  ghost function OwnersOf(db: Db, steps: seq<Step>): Owners {
    Owners(m => MarketOwner(db, steps, m), s => SelectionOwner(db, steps, s))
  }

  lemma ApartIsOwned(db: Db, steps: seq<Step>)
    requires Apart(steps) && ApartFrom(db, steps)
    ensures Owned(OwnersOf(db, steps), db)
    ensures forall step <- steps :: OwnedStep(OwnersOf(db, steps), step)
  {
    var own := OwnersOf(db, steps);
    forall step | step in steps && step.IngestStep? ensures OwnedSpec(own, step.request.spec) {
      var spec := step.request.spec;
      forall m | Names(spec.markets, m) ensures own.market(m) == spec.id { assert NamesMarket(step, m); }
      forall s | Lists(spec.markets, s) ensures own.selection(s) == spec.id { assert ListsSelection(step, s); }
    }
  }

  /** With a receiver configured throughout and ids that payloads of different events do not share, in every state of
      a run each finished event has a delivery keyed on its current status, scores and selection results. */
  lemma RunNotifies(h: Digest, dbs: seq<Db>, steps: seq<Step>, i: nat)
    requires Run(h, dbs, steps) && Safe(dbs[0]) && Notified(h, dbs[0]) && i <= |steps|
    requires Apart(steps) && ApartFrom(dbs[0], steps)
    requires forall step <- steps :: Coherent(step) && step.Receives()
    ensures Safe(dbs[i]) && Notified(h, dbs[i])
  {
    ApartIsOwned(dbs[0], steps);
    OwnedRunNotifies(h, OwnersOf(dbs[0], steps), dbs, steps, i);
  }

  // ---- the backstop ----

  /** Re-ingesting a finished event that did not change leaves a delivery for its current state exactly when one
      was there, or no delivery of the event existed at all and the receiver is now set. An older delivery of the
      event therefore hides a state that was never sent. */
  lemma BackstopExactly(h: Digest, db: Db, r: Request)
    requires Accepted(db, r) && FinalizedStable(db, r.spec)
    ensures var e, d := r.spec.id, Ingest(h, db, r).0;
      && SnapshotOf(d, e) == SnapshotOf(db, e)
      && (KeyOf(h, d, e) in d.deliveries <==>
            KeyOf(h, db, e) in db.deliveries || (r.receiver && forall k <- db.deliveries :: db.deliveries[k].event != e))
  {
    var e, d := r.spec.id, Ingest(h, db, r).0;
    var upserted := UpsertEvent(db, r.spec, r.now);
    assert HasDelivery(upserted, e) == HasDelivery(db, e);
    if HasDelivery(db, e) { assert d.deliveries == db.deliveries; }
  }

  // ---- idempotence ----

  ghost predicate KeyedByEvent(db: Db) {
    forall k <- db.deliveries :: db.deliveries[k].event == k.event
  }

  predicate Matches(sels: Selections, r: Row) {
    r.spec.id in sels && var row := sels[r.spec.id]; row.market == r.market && row.kind == r.spec.kind && row.price == r.spec.price
  }

  lemma {:induction false} UpsertMarketsStores(ms: Markets, e: Id, specs: seq<MarketSpec>)
    requires forall i, j :: 0 <= i < j < |specs| ==> specs[i].id != specs[j].id
    ensures var r := UpsertMarkets(ms, e, specs); forall spec <- specs :: spec.id in r && r[spec.id] == RowOf(e, spec)
  {
    if specs != [] {
      var front := specs[..|specs| - 1];
      UpsertMarketsStores(ms, e, front);
      assert specs == front + [specs[|specs| - 1]];
    }
  }

  lemma {:induction false} UpsertMarketsIdle(ms: Markets, e: Id, specs: seq<MarketSpec>)
    requires forall spec <- specs :: spec.id in ms && ms[spec.id] == RowOf(e, spec)
    ensures UpsertMarkets(ms, e, specs) == ms
  {
    if specs != [] { UpsertMarketsIdle(ms, e, specs[..|specs| - 1]); }
  }

  lemma {:induction false} UpsertSelectionsStores(sels: Selections, rows: seq<Row>)
    requires forall i, j :: 0 <= i < j < |rows| ==> rows[i].spec.id != rows[j].spec.id
    ensures forall r <- rows :: Matches(UpsertSelections(sels, rows), r)
  {
    if rows != [] {
      var front := rows[..|rows| - 1];
      UpsertSelectionsStores(sels, front);
      assert rows == front + [rows[|rows| - 1]];
    }
  }

  lemma {:induction false} UpsertSelectionsIdle(sels: Selections, quotes: map<(Id, Time), int>, rows: seq<Row>, now: Time)
    requires forall r <- rows :: Matches(sels, r)
    ensures UpsertSelections(sels, rows) == sels && AppendQuotes(sels, quotes, rows, now) == quotes
  {
    if rows != [] {
      UpsertSelectionsIdle(sels, quotes, rows[..|rows| - 1], now);
      assert Matches(sels, rows[|rows| - 1]);
    }
  }

  lemma {:induction false} GradesKeepListings(sels: Selections, gs: Grades, now: Time)
    ensures var d := ApplyGrades(sels, gs, now); d.Keys == sels.Keys && forall s <- sels :: SameListing(sels[s], d[s])
  {
    if gs != [] { GradesKeepListings(sels, gs[..|gs| - 1], now); }
  }

  lemma {:induction false} GradingKeepsListings(sels: Selections, specs: seq<MarketSpec>, now: Time)
    ensures var d := GradeAll(sels, specs, now); d.Keys == sels.Keys && forall s <- sels :: SameListing(sels[s], d[s])
  {
    if specs != [] {
      var front := GradeAll(sels, specs[..|specs| - 1], now);
      GradingKeepsListings(sels, specs[..|specs| - 1], now);
      GradesKeepListings(front, GradeMarket(specs[|specs| - 1]), now);
      forall s | s in sels ensures SameListing(sels[s], GradeAll(sels, specs, now)[s]) { assert SameListing(sels[s], front[s]); }
    }
  }

  // Writing the same markets again is idle, whatever was settled in between.
  lemma WriteMarketsTwice(a: Db, b: Db, e: Id, specs: seq<MarketSpec>, now: Time, later: Time)
    requires DistinctIds(specs)
    requires var w := WriteMarkets(a, e, specs, now);
      b.markets == w.markets && b.selections.Keys == w.selections.Keys
      && forall s <- w.selections :: SameListing(w.selections[s], b.selections[s])
    ensures WriteMarkets(b, e, specs, later) == b
  {
    var rows := RowsOf(specs);
    if rows != [] {
      UpsertMarketsStores(a.markets, e, specs);
      UpsertMarketsIdle(b.markets, e, specs);
      UpsertSelectionsStores(a.selections, rows);
      UpsertSelectionsIdle(b.selections, b.quotes, rows, later);
    }
  }

  lemma SettledBetsStay(bets: map<Id, Bet>, e: Id, winnerCode: Option<int>)
    ensures var once := SettleBets(bets, e, winnerCode); SettleBets(once, e, winnerCode) == once
  {
  }

  lemma StableIngestLeavesDelivery(h: Digest, db: Db, r: Request)
    requires KeyedByEvent(db) && FinalizedStable(db, r.spec) && r.receiver
    ensures HasDelivery(StableIngest(h, db, r).0, r.spec.id)
  {
    var e, d := r.spec.id, StableIngest(h, db, r).0;
    var upserted := UpsertEvent(db, r.spec, r.now);
    if !HasDelivery(upserted, e) {
      var k := KeyOf(h, upserted, e);
      assert k in d.deliveries && d.deliveries[k].event == e;
    }
  }

  // Before the delivery, the full branch has stored the event and added none.
  function Written(db: Db, r: Request): Db {
    FinalizePasses(WriteMarkets(UpsertEvent(db, r.spec, r.now), r.spec.id, r.spec.markets, r.now), r.spec, r.now)
  }

  lemma WrittenKeeps(db: Db, r: Request)
    ensures Written(db, r).deliveries == db.deliveries && Written(db, r).events == UpsertEvent(db, r.spec, r.now).events
  {
  }

  lemma EnqueueLeavesDelivery(h: Digest, db: Db, e: Id, t: Transition)
    requires KeyedByEvent(db) && e in db.events && (t.Finalized? || t.Voided?)
    ensures HasDelivery(Enqueue(h, true, db, e, t), e)
  {
    var d, k := Enqueue(h, true, db, e, t), KeyOf(h, db, e);
    assert k in d.deliveries && d.deliveries[k].event == e;
  }

  lemma FullIngestLeavesDelivery(h: Digest, db: Db, r: Request)
    requires KeyedByEvent(db) && !FinalizedStable(db, r.spec) && r.receiver && r.spec.status.Finished?
    ensures HasDelivery(FullIngest(h, db, r).0, r.spec.id)
  {
    var t := Decide(PreviousState(db, r.spec.id), SpecState(r.spec));
    WrittenKeeps(db, r);
    assert t.Finalized?;
    EnqueueLeavesDelivery(h, Written(db, r), r.spec.id, t);
  }

  lemma FinishedIngestLeavesDelivery(h: Digest, db: Db, r: Request)
    requires KeyedByEvent(db) && Accepted(db, r) && r.receiver && r.spec.status.Finished?
    requires Ingest(h, db, r).1.Ingested?
    ensures HasDelivery(Ingest(h, db, r).0, r.spec.id)
  {
    if FinalizedStable(db, r.spec) { StableIngestLeavesDelivery(h, db, r); } else { FullIngestLeavesDelivery(h, db, r); }
  }

  lemma FinishedTwice(h: Digest, db: Db, r: Request, later: Time)
    requires KeyedByEvent(db) && Accepted(db, r) && r.spec.status.Finished? && Ingest(h, db, r).1.Ingested?
    ensures var once, e := Ingest(h, db, r).0, r.spec.id;
      var again := Ingest(h, once, r.(now := later));
      && again.0 == UpsertEvent(once, r.spec, later)
      && again.1 == Ingested(if HasDelivery(once, e) then NoTransition else Finalized, false)
      && (r.receiver ==> HasDelivery(once, e))
  {
    var once, e := Ingest(h, db, r).0, r.spec.id;
    if r.receiver { FinishedIngestLeavesDelivery(h, db, r); }
    IngestStoresSpec(h, db, r);
    assert FinalizedStable(once, r.spec);
    assert HasDelivery(UpsertEvent(once, r.spec, later), e) == HasDelivery(once, e);
  }

  lemma FullIngestStores(h: Digest, db: Db, r: Request)
    ensures FullIngest(h, db, r).0.events == UpsertEvent(db, r.spec, r.now).events
  {
    WrittenKeeps(db, r);
  }

  lemma IngestStoresSpec(h: Digest, db: Db, r: Request)
    requires Accepted(db, r) && Ingest(h, db, r).1.Ingested?
    ensures Ingest(h, db, r).0.events == UpsertEvent(db, r.spec, r.now).events
  {
    if !FinalizedStable(db, r.spec) { FullIngestStores(h, db, r); }
  }

  // What the passes do for a payload that is not finished: when it is flagged finalized all the same, PROVIDER grades.
  function Unfinished(db: Db, spec: EventSpec, now: Time): Db {
    if spec.isFinalized
    then db.(selections := GradeAll(db.selections, spec.markets, now), bets := SettleBets(db.bets, spec.id, spec.winnerCode))
    else db
  }

  lemma UnfinishedPasses(db: Db, spec: EventSpec, now: Time)
    requires !spec.status.Finished?
    ensures var w := WriteMarkets(UpsertEvent(db, spec, now), spec.id, spec.markets, now);
      FinalizePasses(w, spec, now) == Unfinished(w, spec, now)
  {
  }

  lemma UnfinishedIngest(h: Digest, db: Db, r: Request)
    requires Accepted(db, r) && !r.spec.status.Finished? && DistinctIds(r.spec.markets)
    ensures
      var done := Unfinished(WriteMarkets(UpsertEvent(db, r.spec, r.now), r.spec.id, r.spec.markets, r.now), r.spec, r.now);
      var t := Decide(PreviousState(db, r.spec.id), SpecState(r.spec));
      var sent := Enqueue(h, r.receiver, done, r.spec.id, t);
      Ingest(h, db, r) == (sent, Ingested(t, sent.deliveries != done.deliveries))
  {
    UnfinishedPasses(db, r.spec, r.now);
  }

  // The rows after a second ingest: PROVIDER stamps its grades again where the payload is finalized but not finished.
  function Regraded(db: Db, spec: EventSpec, now: Time): Selections {
    if spec.isFinalized && !spec.status.Finished? then GradeAll(db.selections, spec.markets, now) else db.selections
  }

  lemma UnfinishedKeepsListings(db: Db, spec: EventSpec, now: Time)
    ensures var d := Unfinished(db, spec, now);
      && d.markets == db.markets && d.quotes == db.quotes && d.events == db.events
      && d.selections.Keys == db.selections.Keys && forall s <- db.selections :: SameListing(db.selections[s], d.selections[s])
  {
    GradingKeepsListings(db.selections, spec.markets, now);
  }

  // The markets of the payload are stored, and its bets settled.
  ghost predicate Stored(a: Db, db: Db, spec: EventSpec, now: Time) {
    var w := WriteMarkets(a, spec.id, spec.markets, now);
    && DistinctIds(spec.markets) && db.markets == w.markets && db.selections.Keys == w.selections.Keys
    && (forall s <- w.selections :: SameListing(w.selections[s], db.selections[s]))
    && (spec.isFinalized ==> SettleBets(db.bets, spec.id, spec.winnerCode) == db.bets)
  }

  lemma UnfinishedOnce(h: Digest, db: Db, r: Request)
    requires Accepted(db, r) && !r.spec.status.Finished? && Ingest(h, db, r).1.Ingested?
    ensures Stored(UpsertEvent(db, r.spec, r.now), Ingest(h, db, r).0, r.spec, r.now)
  {
    var w := WriteMarkets(UpsertEvent(db, r.spec, r.now), r.spec.id, r.spec.markets, r.now);
    UnfinishedIngest(h, db, r);
    UnfinishedKeepsListings(w, r.spec, r.now);
    SettledBetsStay(w.bets, r.spec.id, r.spec.winnerCode);
  }

  lemma UnfinishedAgain(h: Digest, a: Db, once: Db, r: Request, now: Time)
    requires Stored(a, once, r.spec, now) && Accepted(once, r) && !r.spec.status.Finished?
    requires PreviousState(once, r.spec.id) == Some(SpecState(r.spec))
    ensures Ingest(h, once, r) ==
      (UpsertEvent(once, r.spec, r.now).(selections := Regraded(once, r.spec, r.now)), Ingested(NoTransition, false))
  {
    UnfinishedIngest(h, once, r);
    WriteMarketsTwice(a, UpsertEvent(once, r.spec, r.now), r.spec.id, r.spec.markets, now, r.now);
  }

  lemma UnfinishedTwice(h: Digest, db: Db, r: Request, later: Time)
    requires Accepted(db, r) && !r.spec.status.Finished? && Ingest(h, db, r).1.Ingested?
    ensures var once := Ingest(h, db, r).0;
      Ingest(h, once, r.(now := later)) ==
        (UpsertEvent(once, r.spec, later).(selections := Regraded(once, r.spec, later)), Ingested(NoTransition, false))
  {
    UnfinishedOnce(h, db, r);
    IngestStoresSpec(h, db, r);
    UnfinishedAgain(h, UpsertEvent(db, r.spec, r.now), Ingest(h, db, r).0, r.(now := later), r.now);
  }

  /** Ingesting the same payload again changes nothing but the refresh timestamps of the event: no score, status, price,
      quote, delivery or bet, and no settlement either, except that PROVIDER grades again what is flagged finalized and
      not finished. It reports no transition, except that a finished event without any delivery is reported again, which
      a receiver rules out. */
  lemma IngestTwice(h: Digest, db: Db, r: Request, later: Time)
    requires KeyedByEvent(db)
    ensures var once := Ingest(h, db, r); var again := Ingest(h, once.0, r.(now := later)); var e := r.spec.id;
      if once.1.Ingested?
      then e in once.0.events
           && again.0 == once.0.(events := once.0.events[e := once.0.events[e].(lastSeen := Some(later), updated := later)],
                                 selections := Regraded(once.0, r.spec, later))
           && again.1 == Ingested(if Unnotified(once.0, r.spec) then Finalized else NoTransition, false)
           && (r.receiver ==> !Unnotified(once.0, r.spec))
      else again == once && once.0 == db
  {
    var once := Ingest(h, db, r);
    if once.1.Ingested? {
      IngestStoresSpec(h, db, r);
      if r.spec.status.Finished? { FinishedTwice(h, db, r, later); } else { UnfinishedTwice(h, db, r, later); }
    }
  }

  // A finished event without any delivery.
  ghost predicate Unnotified(db: Db, spec: EventSpec) {
    spec.status.Finished? && forall k <- db.deliveries :: db.deliveries[k].event != spec.id
  }
}
