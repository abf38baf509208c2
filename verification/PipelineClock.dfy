/** The disappearance clock and the price history over timed runs. */
module PipelineClock {
  import opened Wrappers
  import opened Domain
  import opened Lifecycle
  import opened Pipeline
  import opened PipelineSafety
  import opened PipelineWebhooks

  ghost predicate InOrder(steps: seq<Step>) {
    forall i, j :: 0 <= i < j < |steps| ==> steps[i].At() <= steps[j].At()
  }

  // The step refreshes or rolls back the clock of e: a successful upsert, or a reconcile pass that misses e.
  ghost predicate Touches(h: Digest, db: Db, step: Step, e: Id) {
    match step
    case IngestStep(r) => r.spec.id == e && Ingest(h, db, r).1.Ingested?
    case ReconcileStep(league, seen, from, to, _) => ReconcileTarget(db, e, league, seen, from, to)
    case _ => false
  }

  // What the clock reads after the touch: now for an upsert, an hour ago for a miss.
  function Reading(step: Step): Time {
    if step.ReconcileStep? then step.At() - HOUR else step.At()
  }

  lemma {:induction false} AutoVoidAllKeepsClock(h: Digest, receiver: bool, db: Db, picked: seq<Id>, now: Time, e: Id)
    requires (forall f <- picked :: f in db.events) && e in db.events
    ensures AutoVoidAll(h, receiver, db, picked, now).events[e].lastSeen == db.events[e].lastSeen
  {
    if picked != [] { AutoVoidAllKeepsClock(h, receiver, db, picked[..|picked| - 1], now, e); }
  }

  function ClockOf(db: Db, e: Id): Option<Time> {
    if e in db.events then db.events[e].lastSeen else None
  }

  lemma IngestClock(h: Digest, db: Db, r: Request, e: Id)
    ensures ClockOf(Ingest(h, db, r).0, e) ==
      if Touches(h, db, IngestStep(r), e) then Some(r.now) else ClockOf(db, e)
  {
    if Ingest(h, db, r).1.Ingested? { IngestStoresSpec(h, db, r); } else { DroppedChangesNothing(h, db, r); }
  }

  lemma DroppedChangesNothing(h: Digest, db: Db, r: Request)
    requires !Ingest(h, db, r).1.Ingested?
    ensures Ingest(h, db, r).0 == db
  {
  }

  lemma NextClock(h: Digest, db: Db, step: Step, e: Id)
    requires Enabled(db, step)
    ensures ClockOf(Next(h, db, step), e) == if Touches(h, db, step, e) then Some(Reading(step)) else ClockOf(db, e)
  {
    match step
    case IngestStep(r) => IngestClock(h, db, r, e);
    case StaleStep(_, picked, now, receiver) => if e in db.events { AutoVoidAllKeepsClock(h, receiver, db, picked, now, e); }
    case DisappearedStep(_, picked, now, receiver) => if e in db.events { AutoVoidAllKeepsClock(h, receiver, db, picked, now, e); }
    case _ =>
  }

  // The readings of one event along a run, and which steps touched it.
  ghost predicate ClockTrace(clock: seq<Option<Time>>, touched: seq<bool>, reading: seq<Time>) {
    |touched| == |reading| && |clock| == |touched| + 1 &&
    forall k :: 0 <= k < |touched| ==> clock[k + 1] == if touched[k] then Some(reading[k]) else clock[k]
  }

  ghost function TouchesOf(h: Digest, dbs: seq<Db>, steps: seq<Step>, e: Id): seq<bool>
    requires |dbs| == |steps| + 1
  {
    seq(|steps|, k requires 0 <= k < |steps| => Touches(h, dbs[k], steps[k], e))
  }

  function ClocksOf(dbs: seq<Db>, e: Id): seq<Option<Time>> {
    seq(|dbs|, k requires 0 <= k < |dbs| => ClockOf(dbs[k], e))
  }

  function ReadingsOf(steps: seq<Step>): seq<Time> {
    seq(|steps|, k requires 0 <= k < |steps| => Reading(steps[k]))
  }

  lemma RunClockTrace(h: Digest, dbs: seq<Db>, steps: seq<Step>, e: Id)
    requires Run(h, dbs, steps)
    ensures ClockTrace(ClocksOf(dbs, e), TouchesOf(h, dbs, steps, e), ReadingsOf(steps))
  {
    forall k | 0 <= k < |steps|
      ensures ClockOf(dbs[k + 1], e) == if Touches(h, dbs[k], steps[k], e) then Some(Reading(steps[k])) else ClockOf(dbs[k], e)
    {
      NextClock(h, dbs[k], steps[k], e);
    }
  }

  lemma {:induction false} LastTouchRemains(clock: seq<Option<Time>>, touched: seq<bool>, reading: seq<Time>, j: nat, i: nat)
    requires ClockTrace(clock, touched, reading) && j < i <= |touched| && touched[j]
    requires forall k :: j < k < i ==> !touched[k]
    ensures clock[i] == Some(reading[j])
  {
    if j < i - 1 { LastTouchRemains(clock, touched, reading, j, i - 1); }
  }

  lemma {:induction false} ReadingsStayRecent(clock: seq<Option<Time>>, touched: seq<bool>, reading: seq<Time>, j: nat, i: nat, floor: Time)
    requires ClockTrace(clock, touched, reading) && j < i <= |touched| && touched[j]
    requires forall k :: j <= k < i ==> reading[k] >= floor
    ensures clock[i].Some? && clock[i].value >= floor
  {
    if j < i - 1 { ReadingsStayRecent(clock, touched, reading, j, i - 1, floor); }
  }

  /** The clock reads the last touch: misses of successive cycles do not accumulate. */
  lemma ClockReadsLastTouch(h: Digest, dbs: seq<Db>, steps: seq<Step>, e: Id, j: nat, i: nat)
    requires Run(h, dbs, steps) && j < i <= |steps| && Touches(h, dbs[j], steps[j], e)
    requires forall k :: j < k < i ==> !Touches(h, dbs[k], steps[k], e)
    ensures ClockOf(dbs[i], e) == Some(Reading(steps[j]))
  {
    RunClockTrace(h, dbs, steps, e);
    LastTouchRemains(ClocksOf(dbs, e), TouchesOf(h, dbs, steps, e), ReadingsOf(steps), j, i);
  }

  /** A disappearance VOID at time t means that no upsert and no reconcile miss touched the event at or after
      t - hours + 1h. Reconciling a missing event at shorter gaps than hours - 1h keeps the branch from firing. */
  lemma RecentlyTouchedIsNotVoided(h: Digest, dbs: seq<Db>, steps: seq<Step>, e: Id, j: nat, i: nat)
    requires Run(h, dbs, steps) && InOrder(steps) && j < i < |steps| && Touches(h, dbs[j], steps[j], e)
    requires steps[i].DisappearedStep? && e in steps[i].picked
    ensures steps[j].At() < steps[i].now - steps[i].hours * HOUR + HOUR
  {
    RunClockTrace(h, dbs, steps, e);
    ReadingsStayRecent(ClocksOf(dbs, e), TouchesOf(h, dbs, steps, e), ReadingsOf(steps), j, i, steps[j].At() - HOUR);
    var hours, now := steps[i].hours, steps[i].now;
    assert Enabled(dbs[i], steps[i]);
    assert DisappearedCandidate(dbs[i], e, hours, now);
  }

  // A pass that reaches e: an upsert of it, or a reconcile of its league whose feed did not list it and whose window
  // holds its start.
  ghost predicate Reaches(h: Digest, db: Db, step: Step, e: Id) {
    match step
    case IngestStep(r) => r.spec.id == e && Ingest(h, db, r).1.Ingested?
    case ReconcileStep(league, seen, from, to, _) =>
      && e in db.events && e !in seen && db.events[e].league == league
      && db.events[e].startTime.Some? && from <= db.events[e].startTime.value <= to
    case _ => false
  }

  // The reconcile pass leaves these alone, and so does the disappearance branch.
  predicate Closed(db: Db, e: Id) {
    e in db.events && (db.events[e].isFinalized || db.events[e].status.Canceled? || db.events[e].status.Postponed?)
  }

  lemma {:induction false} AutoVoidAllKeepsClosed(h: Digest, receiver: bool, db: Db, picked: seq<Id>, now: Time, e: Id)
    requires (forall f <- picked :: f in db.events) && Closed(db, e)
    ensures Closed(AutoVoidAll(h, receiver, db, picked, now), e)
  {
    if picked != [] { AutoVoidAllKeepsClosed(h, receiver, db, picked[..|picked| - 1], now, e); }
  }

  lemma ClosedStays(h: Digest, db: Db, step: Step, e: Id)
    requires Enabled(db, step) && Closed(db, e) && !Touches(h, db, step, e)
    ensures Closed(Next(h, db, step), e)
  {
    match step
    case IngestStep(r) => if Ingest(h, db, r).1.Ingested? { IngestStoresSpec(h, db, r); } else { DroppedChangesNothing(h, db, r); }
    case StaleStep(_, picked, now, receiver) => AutoVoidAllKeepsClosed(h, receiver, db, picked, now, e);
    case DisappearedStep(_, picked, now, receiver) => AutoVoidAllKeepsClosed(h, receiver, db, picked, now, e);
    case _ =>
  }

  lemma ReachedAtOnce(h: Digest, db: Db, step: Step, e: Id)
    requires Enabled(db, step) && Reaches(h, db, step, e)
    ensures Touches(h, db, step, e) || Closed(Next(h, db, step), e)
  {
    if !Touches(h, db, step, e) {
      assert Closed(db, e);
      ClosedStays(h, db, step, e);
    }
  }

  lemma {:induction false} LastsUntilTouched(closed: seq<bool>, touched: seq<bool>, j: nat, i: nat)
    requires j <= i < |closed| && |touched| + 1 == |closed| && closed[j]
    requires forall k :: j <= k < i && closed[k] && !touched[k] ==> closed[k + 1]
    ensures closed[i] || exists k :: j <= k < i && touched[k]
  {
    if j < i { LastsUntilTouched(closed, touched, j, i - 1); }
  }

  // After a pass that reaches it an event has been touched, or it is closed.
  lemma ReachedIsTouchedOrClosed(h: Digest, dbs: seq<Db>, steps: seq<Step>, e: Id, j: nat, i: nat)
    requires Run(h, dbs, steps) && j < i <= |steps| && Reaches(h, dbs[j], steps[j], e)
    ensures Closed(dbs[i], e) || exists k :: j <= k < i && TouchesOf(h, dbs, steps, e)[k]
  {
    var touched, closed := TouchesOf(h, dbs, steps, e), seq(|dbs|, k requires 0 <= k < |dbs| => Closed(dbs[k], e));
    ReachedAtOnce(h, dbs[j], steps[j], e);
    assert touched[j] == Touches(h, dbs[j], steps[j], e) && closed[j + 1] == Closed(Next(h, dbs[j], steps[j]), e);
    if !touched[j] {
      forall k | j < k < i && closed[k] && !touched[k] ensures closed[k + 1] { ClosedStays(h, dbs[k], steps[k], e); }
      LastsUntilTouched(closed, touched, j + 1, i);
    }
  }

  // Steps ks, each at most gap after the one before.
  ghost predicate Every(steps: seq<Step>, ks: seq<nat>, gap: Time) {
    && (forall a :: 0 <= a < |ks| ==> ks[a] < |steps|)
    && (forall a :: 0 <= a < |ks| - 1 ==> ks[a] < ks[a + 1] && steps[ks[a + 1]].At() - steps[ks[a]].At() <= gap)
  }

  // The pass before step i, and so at most gap earlier.
  lemma {:induction false} PassBefore(steps: seq<Step>, ks: seq<nat>, gap: Time, i: nat) returns (j: nat)
    requires InOrder(steps) && Every(steps, ks, gap) && |ks| > 1 && ks[0] < i < ks[|ks| - 1]
    requires i !in ks
    ensures j in ks && j < i && steps[i].At() - steps[j].At() <= gap
  {
    j := ks[0];
    if i < ks[1] {
      assert steps[i].At() <= steps[ks[1]].At();
    } else {
      assert ks[1] in ks && i != ks[1];
      assert forall a :: 0 <= a < |ks| - 1 ==> ks[1..][a] == ks[a + 1];
      j := PassBefore(steps, ks[1..], gap, i);
    }
  }

  lemma PickedIsOpen(h: Digest, dbs: seq<Db>, steps: seq<Step>, e: Id, i: nat)
    requires Run(h, dbs, steps) && i < |steps| && steps[i].DisappearedStep? && e in steps[i].picked
    ensures !Closed(dbs[i], e)
  {
    assert Enabled(dbs[i], steps[i]);
    assert DisappearedCandidate(dbs[i], e, steps[i].hours, steps[i].now);
  }

  lemma OneTouchShields(h: Digest, dbs: seq<Db>, steps: seq<Step>, e: Id, j: nat, i: nat, hours: int)
    requires Run(h, dbs, steps) && InOrder(steps) && j < i < |steps| && Touches(h, dbs[j], steps[j], e)
    requires steps[i].DisappearedStep? && steps[i].hours >= hours && steps[i].At() - steps[j].At() <= (hours - 1) * HOUR
    ensures e !in steps[i].picked
  {
    if e in steps[i].picked { RecentlyTouchedIsNotVoided(h, dbs, steps, e, j, i); }
  }

  // The touch that a pass that reaches the event leaves behind, or a later one, unless the event is closed.
  lemma TouchSince(h: Digest, dbs: seq<Db>, steps: seq<Step>, e: Id, j: nat, i: nat) returns (k: nat)
    requires Run(h, dbs, steps) && InOrder(steps) && j < i < |steps| && Reaches(h, dbs[j], steps[j], e)
    ensures Closed(dbs[i], e) || (j <= k < i && Touches(h, dbs[k], steps[k], e) && steps[j].At() <= steps[k].At())
  {
    ReachedIsTouchedOrClosed(h, dbs, steps, e, j, i);
    k := j;
    if !Closed(dbs[i], e) { k :| j <= k < i && TouchesOf(h, dbs, steps, e)[k]; }
  }

  // A pass at most hours - 1h earlier shields the event from this tick.
  lemma OnePassShields(h: Digest, dbs: seq<Db>, steps: seq<Step>, e: Id, j: nat, i: nat, hours: int)
    requires Run(h, dbs, steps) && InOrder(steps) && j < i < |steps| && Reaches(h, dbs[j], steps[j], e)
    requires steps[i].DisappearedStep? && steps[i].hours >= hours && steps[i].At() - steps[j].At() <= (hours - 1) * HOUR
    ensures e !in steps[i].picked
  {
    var k := TouchSince(h, dbs, steps, e, j, i);
    if Closed(dbs[i], e) {
      if e in steps[i].picked { PickedIsOpen(h, dbs, steps, e, i); }
    } else {
      OneTouchShields(h, dbs, steps, e, k, i, hours);
    }
  }

  /** Feed passes that keep reaching an event, by refreshing it or by missing it, shield it: between the first and the
      last of a series of passes at gaps of at most hours - 1h, no tick of the disappearance branch with that many hours
      voids the event, however often and however long the feed has left it out. */
  lemma ReconcilingShields(h: Digest, dbs: seq<Db>, steps: seq<Step>, e: Id, ks: seq<nat>, hours: int, i: nat)
    requires Run(h, dbs, steps) && InOrder(steps) && |ks| > 1 && Every(steps, ks, (hours - 1) * HOUR)
    requires forall k <- ks :: Reaches(h, dbs[k], steps[k], e)
    requires ks[0] < i < ks[|ks| - 1] && steps[i].DisappearedStep? && steps[i].hours >= hours
    ensures e !in steps[i].picked
  {
    assert !Reaches(h, dbs[i], steps[i], e) && i !in ks;
    var j := PassBefore(steps, ks, (hours - 1) * HOUR, i);
    OnePassShields(h, dbs, steps, e, j, i, hours);
  }

  /** With j the last touch before i, a stuck event is up for a disappearance VOID exactly when the reading that
      the touch left behind is older than the threshold; the start time plays no part. */
  lemma DisappearsExactly(h: Digest, dbs: seq<Db>, steps: seq<Step>, e: Id, j: nat, i: nat, hours: int, now: Time)
    requires Run(h, dbs, steps) && j < i <= |steps| && Touches(h, dbs[j], steps[j], e)
    requires forall k :: j < k < i ==> !Touches(h, dbs[k], steps[k], e)
    ensures DisappearedCandidate(dbs[i], e, hours, now) <==>
      e in dbs[i].events && Stuck(dbs[i].events[e].status) && !dbs[i].events[e].isFinalized && Reading(steps[j]) < now - hours * HOUR
  {
    ClockReadsLastTouch(h, dbs, steps, e, j, i);
  }

  // ---- the stale branch ----

  function StartOf(db: Db, e: Id): Option<Time> {
    if e in db.events then db.events[e].startTime else None
  }

  // The step stores a payload of e.
  ghost predicate Stores(h: Digest, db: Db, step: Step, e: Id) {
    step.IngestStep? && step.request.spec.id == e && Ingest(h, db, step.request).1.Ingested?
  }

  lemma {:induction false} AutoVoidAllKeepsStart(h: Digest, receiver: bool, db: Db, picked: seq<Id>, now: Time, e: Id)
    requires (forall f <- picked :: f in db.events) && e in db.events
    ensures AutoVoidAll(h, receiver, db, picked, now).events[e].startTime == db.events[e].startTime
  {
    if picked != [] { AutoVoidAllKeepsStart(h, receiver, db, picked[..|picked| - 1], now, e); }
  }

  lemma IngestStart(h: Digest, db: Db, r: Request, e: Id)
    ensures StartOf(Ingest(h, db, r).0, e) == if Stores(h, db, IngestStep(r), e) then Some(r.spec.startTime) else StartOf(db, e)
  {
    if Ingest(h, db, r).1.Ingested? { IngestStoresSpec(h, db, r); } else { DroppedChangesNothing(h, db, r); }
  }

  lemma NextStart(h: Digest, db: Db, step: Step, e: Id)
    requires Enabled(db, step)
    ensures StartOf(Next(h, db, step), e) == if Stores(h, db, step, e) then Some(step.request.spec.startTime) else StartOf(db, e)
  {
    match step
    case IngestStep(r) => IngestStart(h, db, r, e);
    case StaleStep(_, picked, now, receiver) => if e in db.events { AutoVoidAllKeepsStart(h, receiver, db, picked, now, e); }
    case DisappearedStep(_, picked, now, receiver) => if e in db.events { AutoVoidAllKeepsStart(h, receiver, db, picked, now, e); }
    case _ =>
  }

  function StoredStart(step: Step): Time {
    if step.IngestStep? then step.request.spec.startTime else 0
  }

  ghost function StoresOf(h: Digest, dbs: seq<Db>, steps: seq<Step>, e: Id): seq<bool>
    requires |dbs| == |steps| + 1
  {
    seq(|steps|, k requires 0 <= k < |steps| => Stores(h, dbs[k], steps[k], e))
  }

  lemma RunStartTrace(h: Digest, dbs: seq<Db>, steps: seq<Step>, e: Id)
    requires Run(h, dbs, steps)
    ensures ClockTrace(seq(|dbs|, k requires 0 <= k < |dbs| => StartOf(dbs[k], e)), StoresOf(h, dbs, steps, e),
                       seq(|steps|, k requires 0 <= k < |steps| => StoredStart(steps[k])))
  {
    forall k | 0 <= k < |steps|
      ensures StartOf(dbs[k + 1], e) == if Stores(h, dbs[k], steps[k], e) then Some(StoredStart(steps[k])) else StartOf(dbs[k], e)
    {
      NextStart(h, dbs[k], steps[k], e);
    }
  }

  // The start of an event is that of the last payload stored.
  lemma StartIsLastStored(h: Digest, dbs: seq<Db>, steps: seq<Step>, e: Id, j: nat, i: nat)
    requires Run(h, dbs, steps) && j < i <= |steps| && Stores(h, dbs[j], steps[j], e)
    requires forall k :: j < k < i ==> !Stores(h, dbs[k], steps[k], e)
    ensures StartOf(dbs[i], e) == Some(steps[j].request.spec.startTime)
  {
    var starts := seq(|dbs|, k requires 0 <= k < |dbs| => StartOf(dbs[k], e));
    var stored := seq(|steps|, k requires 0 <= k < |steps| => StoredStart(steps[k]));
    RunStartTrace(h, dbs, steps, e);
    LastTouchRemains(starts, StoresOf(h, dbs, steps, e), stored, j, i);
  }

  /** With j the last payload of e that was stored before i, a tick of the stale branch may void e exactly when e is not
      started or in progress and more than the void hours have passed since the start in that payload. */
  lemma StaleExactly(h: Digest, dbs: seq<Db>, steps: seq<Step>, e: Id, j: nat, i: nat, hours: int, now: Time, receiver: bool)
    requires Run(h, dbs, steps) && j < i <= |steps| && Stores(h, dbs[j], steps[j], e)
    requires forall k :: j < k < i ==> !Stores(h, dbs[k], steps[k], e)
    ensures Enabled(dbs[i], StaleStep(hours, [e], now, receiver)) <==>
      hours > 0 && e in dbs[i].events && (dbs[i].events[e].status.NotStarted? || dbs[i].events[e].status.InProgress?)
      && now - steps[j].request.spec.startTime > hours * 3600
  {
    StartIsLastStored(h, dbs, steps, e, j, i);
    assert e in [e];
  }

  /** So along a run the stale branch voids no event before its start plus the void hours. */
  lemma StaleVoidIsLate(h: Digest, dbs: seq<Db>, steps: seq<Step>, e: Id, j: nat, i: nat)
    requires Run(h, dbs, steps) && j < i < |steps| && Stores(h, dbs[j], steps[j], e)
    requires forall k :: j < k < i ==> !Stores(h, dbs[k], steps[k], e)
    requires steps[i].StaleStep? && e in steps[i].picked
    ensures steps[i].now > steps[j].request.spec.startTime + steps[i].hours * 3600 && steps[i].hours > 0
  {
    StartIsLastStored(h, dbs, steps, e, j, i);
    assert Enabled(dbs[i], steps[i]);
  }

  // ---- the price history ----

  // t is the newest quote of s.
  ghost predicate Newest(quotes: map<(Id, Time), int>, s: Id, t: Time) {
    (s, t) in quotes && forall k <- quotes :: k.0 == s ==> k.1 <= t
  }

  ghost predicate QuotesCurrent(db: Db) {
    forall s <- db.selections :: db.selections[s].price.Some? ==>
      exists t :: Newest(db.quotes, s, t) && db.quotes[(s, t)] == db.selections[s].price.value
  }

  ghost predicate QuotedBefore(db: Db, now: Time) {
    forall k <- db.quotes :: k.1 < now
  }

  ghost predicate DueIn(prior: Selections, rows: seq<Row>, s: Id) {
    exists r <- rows :: r.spec.id == s && Moved(prior, r)
  }

  // The price is known, and not the one that is stored.
  predicate Moved(prior: Selections, r: Row) {
    r.spec.price.Some? && (r.spec.id in prior ==> prior[r.spec.id].price != r.spec.price)
  }

  /** A call appends a quote for exactly the selections whose known price differs from the stored one. */
  lemma {:induction false} AppendQuotesAt(prior: Selections, quotes: map<(Id, Time), int>, rows: seq<Row>, now: Time, s: Id, t: Time)
    requires (s, now) !in quotes
    requires forall i, j :: 0 <= i < j < |rows| ==> rows[i].spec.id != rows[j].spec.id
    ensures var q := AppendQuotes(prior, quotes, rows, now);
      && ((s, t) in q <==> (s, t) in quotes || (t == now && DueIn(prior, rows, s)))
      && ((s, t) in quotes ==> q[(s, t)] == quotes[(s, t)])
      && (t == now ==> forall r <- rows :: r.spec.id == s && Moved(prior, r) ==> q[(s, now)] == r.spec.price.value)
  {
    if rows != [] {
      var front, last := rows[..|rows| - 1], rows[|rows| - 1];
      AppendQuotesAt(prior, quotes, front, now, s, t);
      assert forall r :: r in rows <==> r in front || r == last;
      assert last.spec.id == s ==> forall r <- front :: r.spec.id != s;
    }
  }

  lemma WriteMarketsQuotes(db: Db, e: Id, specs: seq<MarketSpec>, now: Time)
    requires QuotesCurrent(db) && QuotedBefore(db, now) && DistinctIds(specs) && AllConsistent(db.selections)
    ensures QuotesCurrent(WriteMarkets(db, e, specs, now))
  {
    var rows, d := RowsOf(specs), WriteMarkets(db, e, specs, now);
    if rows != [] {
      UpsertSelectionsStores(db.selections, rows);
      forall s | s in d.selections && d.selections[s].price.Some?
        ensures exists t :: Newest(d.quotes, s, t) && d.quotes[(s, t)] == d.selections[s].price.value
      {
        UpsertSelectionsAt(db.selections, rows, s);
        forall t ensures (s, t) in d.quotes <==> (s, t) in db.quotes || (t == now && DueIn(db.selections, rows, s))
                 ensures (s, t) in db.quotes ==> d.quotes[(s, t)] == db.quotes[(s, t)]
        {
          AppendQuotesAt(db.selections, db.quotes, rows, now, s, t);
        }
        if DueIn(db.selections, rows, s) {
          AppendQuotesAt(db.selections, db.quotes, rows, now, s, now);
          var r :| r in rows && r.spec.id == s && Moved(db.selections, r);
          assert Matches(d.selections, r);
          assert Newest(d.quotes, s, now);
        } else {
          if r :| r in rows && r.spec.id == s { assert Matches(d.selections, r); }
          var t :| Newest(db.quotes, s, t) && db.quotes[(s, t)] == db.selections[s].price.value;
          assert Newest(d.quotes, s, t);
        }
      }
    }
  }

  lemma SamePricesStayCurrent(a: Db, b: Db)
    requires QuotesCurrent(a) && b.quotes == a.quotes && b.selections.Keys == a.selections.Keys
    requires forall s <- a.selections :: a.selections[s].price == b.selections[s].price
    ensures QuotesCurrent(b)
  {
  }

  lemma FullIngestQuotes(h: Digest, db: Db, r: Request)
    requires Safe(db) && QuotesCurrent(db) && QuotedBefore(db, r.now) && DistinctIds(r.spec.markets)
    ensures QuotesCurrent(FullIngest(h, db, r).0)
  {
    var up := UpsertEvent(db, r.spec, r.now);
    var written := WriteMarkets(up, r.spec.id, r.spec.markets, r.now);
    WriteMarketsQuotes(up, r.spec.id, r.spec.markets, r.now);
    WriteMarketsEffect(up, r.spec.id, r.spec.markets, r.now);
    FinalizePassesEffect(written, r.spec, r.now);
    var done := FinalizePasses(written, r.spec, r.now);
    assert forall s <- written.selections :: SameListing(written.selections[s], done.selections[s]);
    SamePricesStayCurrent(written, done);
    SamePricesStayCurrent(done, FullIngest(h, db, r).0);
  }

  lemma IngestQuotes(h: Digest, db: Db, r: Request)
    requires Safe(db) && QuotesCurrent(db) && QuotedBefore(db, r.now)
    ensures QuotesCurrent(Ingest(h, db, r).0)
  {
    if Accepted(db, r) {
      if FinalizedStable(db, r.spec) {
        SamePricesStayCurrent(db, StableIngest(h, db, r).0);
      } else if DistinctIds(r.spec.markets) {
        FullIngestQuotes(h, db, r);
      }
    }
  }

  // No step but ingest writes a price or a quote.
  lemma {:induction false} AutoVoidAllKeepsPrices(h: Digest, receiver: bool, db: Db, picked: seq<Id>, now: Time)
    requires forall e <- picked :: e in db.events
    ensures var d := AutoVoidAll(h, receiver, db, picked, now);
      && d.quotes == db.quotes && d.selections.Keys == db.selections.Keys
      && forall s <- db.selections :: d.selections[s].price == db.selections[s].price
  {
    if picked != [] { AutoVoidAllKeepsPrices(h, receiver, db, picked[..|picked| - 1], now); }
  }

  lemma NextQuotes(h: Digest, db: Db, step: Step)
    requires Safe(db) && Enabled(db, step) && QuotesCurrent(db) && (step.IngestStep? ==> QuotedBefore(db, step.At()))
    ensures QuotesCurrent(Next(h, db, step))
    ensures forall k <- Next(h, db, step).quotes :: k in db.quotes || k.1 == step.At()
  {
    match step
    case IngestStep(r) => IngestQuotes(h, db, r); IngestQuoteTimes(h, db, r);
    case StaleStep(_, picked, now, receiver) =>
      AutoVoidAllKeepsPrices(h, receiver, db, picked, now);
      SamePricesStayCurrent(db, Next(h, db, step));
    case DisappearedStep(_, picked, now, receiver) =>
      AutoVoidAllKeepsPrices(h, receiver, db, picked, now);
      SamePricesStayCurrent(db, Next(h, db, step));
    case ReconcileStep(league, seen, from, to, now) => SamePricesStayCurrent(db, Next(h, db, step));
    case SettlePendingStep(selected, _, now) =>
      SettleEventsIsIdle(db, selected, now);
      SamePricesStayCurrent(db, Next(h, db, step));
    case ForceStep(e, nonce, _, receiver) => SamePricesStayCurrent(db, Next(h, db, step));
  }

  lemma {:induction false} AppendQuotesTimes(prior: Selections, quotes: map<(Id, Time), int>, rows: seq<Row>, now: Time)
    ensures forall k <- AppendQuotes(prior, quotes, rows, now) :: k in quotes || k.1 == now
  {
    if rows != [] { AppendQuotesTimes(prior, quotes, rows[..|rows| - 1], now); }
  }

  lemma FullIngestWritesQuotes(h: Digest, db: Db, r: Request)
    ensures FullIngest(h, db, r).0.quotes == WriteMarkets(UpsertEvent(db, r.spec, r.now), r.spec.id, r.spec.markets, r.now).quotes
  {
  }

  lemma FullIngestQuoteTimes(h: Digest, db: Db, r: Request)
    ensures forall k <- FullIngest(h, db, r).0.quotes :: k in db.quotes || k.1 == r.now
  {
    var up := UpsertEvent(db, r.spec, r.now);
    AppendQuotesTimes(up.selections, up.quotes, RowsOf(r.spec.markets), r.now);
    FullIngestWritesQuotes(h, db, r);
  }

  lemma IngestQuoteTimes(h: Digest, db: Db, r: Request)
    ensures forall k <- Ingest(h, db, r).0.quotes :: k in db.quotes || k.1 == r.now
  {
    FullIngestQuoteTimes(h, db, r);
    assert StableIngest(h, db, r).0.quotes == db.quotes;
  }

  ghost predicate StrictlyInOrder(steps: seq<Step>) {
    forall i, j :: 0 <= i < j < |steps| ==> steps[i].At() < steps[j].At()
  }

  /** Replaying the quote log reproduces the prices: along a run at increasing times, the newest quote of every
      selection with a known price is that price. */
  lemma {:induction false} RunQuotes(h: Digest, dbs: seq<Db>, steps: seq<Step>, i: nat)
    requires Run(h, dbs, steps) && Safe(dbs[0]) && (forall step <- steps :: Coherent(step)) && i <= |steps|
    requires StrictlyInOrder(steps) && QuotesCurrent(dbs[0]) && (forall step <- steps :: QuotedBefore(dbs[0], step.At()))
    ensures QuotesCurrent(dbs[i])
    ensures forall k <- dbs[i].quotes :: k in dbs[0].quotes || exists j :: 0 <= j < i && k.1 == steps[j].At()
  {
    if i > 0 {
      RunQuotes(h, dbs, steps, i - 1);
      RunIsSafe(h, dbs, steps, i - 1);
      assert QuotedBefore(dbs[i - 1], steps[i - 1].At()) by {
        assert steps[i - 1] in steps;
      }
      NextQuotes(h, dbs[i - 1], steps[i - 1]);
    }
  }
}
