/** What every run of the pipeline keeps: settlements only advance, and a finished event has nothing PENDING. */
module PipelineSafety {
  import opened Wrappers
  import opened Domain
  import opened Lifecycle
  import opened Grading
  import opened Pipeline

  // PENDING, no source and no settlement time go together.
  predicate Consistent(row: Selection) {
    && (row.outcome.Pending? <==> row.source.Unset?)
    && (row.outcome.Pending? <==> row.settledAt.None?)
  }

  predicate SameSettlement(a: Selection, b: Selection) {
    a.outcome == b.outcome && a.source == b.source && a.settledAt == b.settledAt
  }

  predicate SameListing(a: Selection, b: Selection) {
    a.market == b.market && a.kind == b.kind && a.price == b.price
  }

  // The only ways a settlement moves: COMPUTED settles what is PENDING, PROVIDER grades what is not MANUAL.
  predicate Advances(a: Selection, b: Selection) {
    Consistent(b) &&
    (SameSettlement(a, b) || (a.outcome.Pending? && b.source.Computed?) || (!a.source.Manual? && b.source.Provider?))
  }

  ghost predicate AllConsistent(sels: Selections) {
    forall s <- sels :: Consistent(sels[s])
  }

  // Rows are never dropped, every old row advances, and new rows are consistent and not MANUAL.
  ghost predicate AdvancesAll(a: Selections, b: Selections) {
    && (forall s <- a :: s in b && Advances(a[s], b[s]))
    && (forall s <- b :: Consistent(b[s]) && (s !in a ==> !b[s].source.Manual?))
  }

  lemma AdvancesAllReflexive(a: Selections)
    requires AllConsistent(a)
    ensures AdvancesAll(a, a)
  {
  }

  lemma AdvancesAllTransitive(a: Selections, b: Selections, c: Selections)
    requires AllConsistent(a) && AdvancesAll(a, b) && AdvancesAll(b, c)
    ensures AdvancesAll(a, c)
  {
    forall s | s in a ensures s in c && Advances(a[s], c[s]) {
      assert Advances(a[s], b[s]) && Advances(b[s], c[s]);
    }
    forall s | s in c ensures Consistent(c[s]) && (s !in a ==> !c[s].source.Manual?) {
      if s in b { assert Advances(b[s], c[s]); }
    }
  }

  // ---- what the individual writes touch ----

  ghost predicate Names(specs: seq<MarketSpec>, m: Id) {
    exists spec <- specs :: spec.id == m
  }

  ghost predicate Lists(specs: seq<MarketSpec>, s: Id) {
    exists r <- RowsOf(specs) :: r.spec.id == s
  }

  lemma {:induction false} RowsAreNamed(specs: seq<MarketSpec>, r: Row)
    requires r in RowsOf(specs)
    ensures exists spec <- specs :: spec.id == r.market && r.spec in spec.selections
  {
    var last, front := specs[|specs| - 1], specs[..|specs| - 1];
    if r in RowsOf(front) {
      RowsAreNamed(front, r);
    } else {
      assert r in RowsOfMarket(last.id, last.selections) && last in specs;
    }
  }

  lemma {:induction false} MembersAreListed(specs: seq<MarketSpec>, m: MarketSpec, s: SelectionSpec)
    requires m in specs && s in m.selections
    ensures Row(m.id, s) in RowsOf(specs)
  {
    var last, front := specs[|specs| - 1], specs[..|specs| - 1];
    if m in front {
      MembersAreListed(front, m, s);
    } else {
      var i :| 0 <= i < |m.selections| && m.selections[i] == s;
      assert RowsOfMarket(last.id, last.selections)[i] == Row(m.id, s);
    }
  }

  lemma {:induction false} UpsertMarketsEffect(ms: Markets, e: Id, specs: seq<MarketSpec>, m: Id)
    ensures var r := UpsertMarkets(ms, e, specs);
      && (Names(specs, m) ==> m in r && r[m].event == e)
      && (!Names(specs, m) ==> (m in r <==> m in ms) && (m in r ==> r[m] == ms[m]))
  {
    if specs != [] {
      var last, front := specs[|specs| - 1], specs[..|specs| - 1];
      UpsertMarketsEffect(ms, e, front, m);
      assert specs == front + [last];
    }
  }

  lemma {:induction false} UpsertSelectionsAt(sels: Selections, rows: seq<Row>, s: Id)
    requires s in sels ==> Consistent(sels[s])
    ensures var r := UpsertSelections(sels, rows);
      && (s in r <==> s in sels || exists row <- rows :: row.spec.id == s)
      && (s in r ==> Consistent(r[s]) && (s in sels ==> SameSettlement(sels[s], r[s])) && (s !in sels ==> r[s].source.Unset?))
      && (s in r && (exists row <- rows :: row.spec.id == s) ==> exists row <- rows :: row.market == r[s].market)
      && (s in r && !(exists row <- rows :: row.spec.id == s) ==> r[s] == sels[s])
  {
    if rows != [] {
      var last, front := rows[|rows| - 1], rows[..|rows| - 1];
      UpsertSelectionsAt(sels, front, s);
      assert forall row :: row in rows <==> row in front || row == last;
      if s == last.spec.id { assert UpsertSelections(sels, rows)[s].market == last.market; }
    }
  }

  lemma UpsertSelectionsEffect(sels: Selections, rows: seq<Row>)
    requires AllConsistent(sels)
    ensures var r := UpsertSelections(sels, rows);
      && AdvancesAll(sels, r)
      && (forall s <- r :: if exists row <- rows :: row.spec.id == s then exists row <- rows :: row.market == r[s].market
                           else s in sels && r[s] == sels[s])
      && (forall row <- rows :: row.spec.id in r)
  {
    var r := UpsertSelections(sels, rows);
    forall s | s in r
      ensures Consistent(r[s]) && (s !in sels ==> !r[s].source.Manual?)
      ensures if exists row <- rows :: row.spec.id == s then exists row <- rows :: row.market == r[s].market
              else s in sels && r[s] == sels[s]
    {
      UpsertSelectionsAt(sels, rows, s);
    }
    forall s | s in sels ensures s in r && Advances(sels[s], r[s]) { UpsertSelectionsAt(sels, rows, s); }
    forall row | row in rows ensures row.spec.id in r { UpsertSelectionsAt(sels, rows, row.spec.id); }
  }

  // Rows of other events are left alone.
  ghost predicate OthersKept(ms: Markets, a: Selections, ms': Markets, b: Selections, e: Id) {
    forall s, f :: f != e && Belongs(ms', b, s, f) ==> Belongs(ms, a, s, f) && b[s] == a[s]
  }

  lemma RowsAreNamedAll(specs: seq<MarketSpec>)
    ensures forall r <- RowsOf(specs) :: Names(specs, r.market)
  {
    forall r | r in RowsOf(specs) ensures Names(specs, r.market) { RowsAreNamed(specs, r); }
  }

  ghost predicate MarketsMerged(ms: Markets, r: Markets, e: Id, specs: seq<MarketSpec>) {
    && (forall m :: Names(specs, m) ==> m in r && r[m].event == e)
    && (forall m :: !Names(specs, m) ==> (m in r <==> m in ms) && (m in r ==> r[m] == ms[m]))
  }

  lemma UpsertMarketsMerges(ms: Markets, e: Id, specs: seq<MarketSpec>)
    ensures MarketsMerged(ms, UpsertMarkets(ms, e, specs), e, specs)
  {
    forall m ensures var r := UpsertMarkets(ms, e, specs);
      && (Names(specs, m) ==> m in r && r[m].event == e)
      && (!Names(specs, m) ==> (m in r <==> m in ms) && (m in r ==> r[m] == ms[m]))
    {
      UpsertMarketsEffect(ms, e, specs, m);
    }
  }

  lemma OthersKeptTransitive(ms: Markets, a: Selections, ms': Markets, b: Selections, ms'': Markets, c: Selections, e: Id)
    requires OthersKept(ms, a, ms', b, e) && OthersKept(ms', b, ms'', c, e)
    ensures OthersKept(ms, a, ms'', c, e)
  {
  }

  lemma WriteMarketsEffect(db: Db, e: Id, specs: seq<MarketSpec>, now: Time)
    requires AllConsistent(db.selections)
    ensures var d := WriteMarkets(db, e, specs, now);
      && AdvancesAll(db.selections, d.selections)
      && OthersKept(db.markets, db.selections, d.markets, d.selections, e)
      && (forall s :: Lists(specs, s) ==> Belongs(d.markets, d.selections, s, e))
  {
    if RowsOf(specs) != [] {
      UpsertSelectionsEffect(db.selections, RowsOf(specs));
      UpsertMarketsMerges(db.markets, e, specs);
      RowsAreNamedAll(specs);
    }
  }

  lemma {:induction false} ApplyGradesEffect(sels: Selections, gs: Grades, now: Time)
    requires AllConsistent(sels) && forall g <- gs :: !g.1.Pending?
    ensures var r := ApplyGrades(sels, gs, now);
      && r.Keys == sels.Keys && AdvancesAll(sels, r)
      && (forall s <- sels :: SameListing(sels[s], r[s]) && ((forall g <- gs :: g.0 != s) ==> r[s] == sels[s]))
  {
    if gs != [] {
      var last, front := gs[|gs| - 1], gs[..|gs| - 1];
      var before := ApplyGrades(sels, front, now);
      ApplyGradesEffect(sels, front, now);
      assert forall g :: g in gs <==> g in front || g == last;
      GradeAdvances(before, last, now);
      AdvancesAllTransitive(sels, before, ApplyGrade(before, last, now));
    }
  }

  lemma GradeAdvances(sels: Selections, g: (Id, Outcome), now: Time)
    requires AllConsistent(sels) && !g.1.Pending?
    ensures var r := ApplyGrade(sels, g, now);
      && r.Keys == sels.Keys && AdvancesAll(sels, r)
      && (forall s <- sels :: SameListing(sels[s], r[s]) && (s != g.0 ==> r[s] == sels[s]))
  {
  }

  lemma ListedInFront(specs: seq<MarketSpec>, s: Id)
    requires specs != [] && Lists(specs[..|specs| - 1], s)
    ensures Lists(specs, s)
  {
    var r :| r in RowsOf(specs[..|specs| - 1]) && r.spec.id == s;
    assert r in RowsOf(specs);
  }

  lemma GradesAreListed(specs: seq<MarketSpec>, m: MarketSpec)
    requires m in specs
    ensures forall g <- GradeMarket(m) :: !g.1.Pending? && Lists(specs, g.0)
  {
    forall g | g in GradeMarket(m) ensures !g.1.Pending? && Lists(specs, g.0) {
      GradesAreOfMembers(m, g);
      var s :| s in m.selections && s.id == g.0;
      MembersAreListed(specs, m, s);
    }
  }

  lemma {:induction false} GradeAllEffect(sels: Selections, specs: seq<MarketSpec>, now: Time)
    requires AllConsistent(sels)
    ensures var r := GradeAll(sels, specs, now);
      && r.Keys == sels.Keys && AdvancesAll(sels, r)
      && (forall s <- sels :: SameListing(sels[s], r[s]) && (!Lists(specs, s) ==> r[s] == sels[s]))
  {
    if specs != [] {
      var last, front := specs[|specs| - 1], specs[..|specs| - 1];
      GradeAllEffect(sels, front, now);
      var before := GradeAll(sels, front, now);
      GradesAreListed(specs, last);
      ApplyGradesEffect(before, GradeMarket(last), now);
      var after := ApplyGrades(before, GradeMarket(last), now);
      AdvancesAllTransitive(sels, before, after);
      forall s | s in sels
        ensures SameListing(sels[s], after[s]) && (!Lists(specs, s) ==> after[s] == sels[s])
      {
        if Lists(front, s) { ListedInFront(specs, s); }
      }
    }
  }

  // ---- the finalize passes ----

  ghost predicate NonePending(ms: Markets, sels: Selections, e: Id) {
    forall s :: Belongs(ms, sels, s, e) ==> !sels[s].outcome.Pending?
  }

  // A settlement pass over the selections of e.
  ghost predicate Pass(ms: Markets, a: Selections, b: Selections, e: Id) {
    && AdvancesAll(a, b) && a.Keys == b.Keys
    && (forall s <- a :: SameListing(a[s], b[s]) && (!Belongs(ms, a, s, e) ==> a[s] == b[s]))
  }

  lemma PassTransitive(ms: Markets, a: Selections, b: Selections, c: Selections, e: Id)
    requires AllConsistent(a) && Pass(ms, a, b, e) && Pass(ms, b, c, e)
    ensures Pass(ms, a, c, e)
  {
    AdvancesAllTransitive(a, b, c);
    forall s | s in a ensures SameListing(a[s], c[s]) && (!Belongs(ms, a, s, e) ==> a[s] == c[s]) {
      assert SameListing(a[s], b[s]) && SameListing(b[s], c[s]);
    }
  }

  lemma PassKeepsOthers(ms: Markets, a: Selections, b: Selections, e: Id)
    requires Pass(ms, a, b, e)
    ensures forall s, f :: Belongs(ms, a, s, f) == Belongs(ms, b, s, f)
    ensures OthersKept(ms, a, ms, b, e)
  {
    forall s, f ensures Belongs(ms, a, s, f) == Belongs(ms, b, s, f) {
      if s in a { assert SameListing(a[s], b[s]); }
    }
  }

  lemma VoidPendingEffect(ms: Markets, sels: Selections, e: Id, now: Time)
    requires AllConsistent(sels)
    ensures var d := VoidPending(ms, sels, e, now); Pass(ms, sels, d, e) && NonePending(ms, d, e)
  {
  }

  lemma SettleEventEffect(ev: Event, ms: Markets, sels: Selections, e: Id, now: Time)
    requires AllConsistent(sels)
    ensures var d := SettleEvent(ev, ms, sels, e, now); Pass(ms, sels, d, e) && (NonePending(ms, sels, e) ==> d == sels)
  {
  }

  lemma GradingEffect(ms: Markets, sels: Selections, e: Id, specs: seq<MarketSpec>, now: Time)
    requires AllConsistent(sels) && forall s :: Lists(specs, s) ==> Belongs(ms, sels, s, e)
    ensures Pass(ms, sels, GradeAll(sels, specs, now), e)
  {
    GradeAllEffect(sels, specs, now);
  }

  lemma GradedSelectionsEffect(ev: Event, ms: Markets, sels: Selections, spec: EventSpec, now: Time)
    requires AllConsistent(sels) && forall s :: Lists(spec.markets, s) ==> Belongs(ms, sels, s, spec.id)
    ensures var d := GradedSelections(ev, ms, sels, spec, now);
      Pass(ms, sels, d, spec.id) && (ev.status.Finished? ==> NonePending(ms, d, spec.id))
  {
    var graded := GradeAll(sels, spec.markets, now);
    GradingEffect(ms, sels, spec.id, spec.markets, now);
    var settled := SettleEvent(ev, ms, graded, spec.id, now);
    SettleEventEffect(ev, ms, graded, spec.id, now);
    PassTransitive(ms, sels, graded, settled, spec.id);
    if ev.status.Finished? {
      VoidPendingEffect(ms, settled, spec.id, now);
      PassTransitive(ms, sels, settled, VoidPending(ms, settled, spec.id, now), spec.id);
    }
  }

  lemma FinalizePassesEffect(db: Db, spec: EventSpec, now: Time)
    requires AllConsistent(db.selections) && spec.id in db.events
    requires forall s :: Lists(spec.markets, s) ==> Belongs(db.markets, db.selections, s, spec.id)
    ensures var d := FinalizePasses(db, spec, now); var ev := db.events[spec.id];
      && d == db.(selections := d.selections, bets := d.bets)
      && Pass(db.markets, db.selections, d.selections, spec.id)
      && (ev.isFinalized && ev.status.Finished? ==> NonePending(db.markets, d.selections, spec.id))
  {
    if db.events[spec.id].isFinalized {
      GradedSelectionsEffect(db.events[spec.id], db.markets, db.selections, spec, now);
    } else {
      AdvancesAllReflexive(db.selections);
    }
  }

  // ---- the invariant ----

  ghost predicate Definitive(db: Db) {
    forall e <- db.events :: db.events[e].status.Finished? ==>
      db.events[e].isFinalized && NonePending(db.markets, db.selections, e)
  }

  predicate DefinitivePayload(p: Snapshot) {
    p.status.Finished? && forall s <- p.outcomes :: !p.outcomes[s].Pending?
  }

  ghost predicate DefinitiveDeliveries(db: Db) {
    forall k <- db.deliveries :: db.deliveries[k].name.Finalized? ==> DefinitivePayload(db.deliveries[k].payload)
  }

  ghost predicate Safe(db: Db) {
    AllConsistent(db.selections) && Definitive(db) && DefinitiveDeliveries(db)
  }

  // _derive_status_type answers finished only for payloads that are flagged finalized.
  predicate Coherent(step: Step) {
    step.IngestStep? && step.request.spec.status.Finished? ==> step.request.spec.isFinalized
  }

  lemma EnqueueIsSafe(h: Digest, receiver: bool, db: Db, e: Id, t: Transition)
    requires Safe(db) && e in db.events && (t.Finalized? ==> db.events[e].status.Finished?)
    ensures Safe(Enqueue(h, receiver, db, e, t))
  {
    assert t.Finalized? ==> NonePending(db.markets, db.selections, e);
  }

  // The writes of one event keep the others definitive.
  lemma StaysDefinitive(a: Db, b: Db, e: Id)
    requires Definitive(a) && b.events.Keys == a.events.Keys + {e}
    requires forall f <- a.events :: f != e ==> a.events[f] == b.events[f]
    requires OthersKept(a.markets, a.selections, b.markets, b.selections, e)
    requires b.events[e].status.Finished? ==> b.events[e].isFinalized && NonePending(b.markets, b.selections, e)
    ensures Definitive(b)
  {
    forall f | f in b.events && b.events[f].status.Finished?
      ensures b.events[f].isFinalized && NonePending(b.markets, b.selections, f)
    {
      if f != e { assert NonePending(a.markets, a.selections, f); }
    }
  }

  // Everything the full pipeline writes between the upsert and the enqueue.
  lemma PassesEffect(up: Db, r: Request)
    requires AllConsistent(up.selections) && r.spec.id in up.events
    ensures var e := r.spec.id; var d := FinalizePasses(WriteMarkets(up, e, r.spec.markets, r.now), r.spec, r.now);
      && AdvancesAll(up.selections, d.selections) && d.events == up.events && d.deliveries == up.deliveries
      && OthersKept(up.markets, up.selections, d.markets, d.selections, e)
      && (up.events[e].isFinalized && up.events[e].status.Finished? ==> NonePending(d.markets, d.selections, e))
  {
    var e, written := r.spec.id, WriteMarkets(up, r.spec.id, r.spec.markets, r.now);
    WriteMarketsEffect(up, e, r.spec.markets, r.now);
    FinalizePassesEffect(written, r.spec, r.now);
    var d := FinalizePasses(written, r.spec, r.now);
    AdvancesAllTransitive(up.selections, written.selections, d.selections);
    PassKeepsOthers(d.markets, written.selections, d.selections, e);
    OthersKeptTransitive(up.markets, up.selections, d.markets, written.selections, d.markets, d.selections, e);
  }

  lemma FullIngestIsSafe(db: Db, r: Request)
    requires Safe(db) && Coherent(IngestStep(r))
    ensures var e, up := r.spec.id, UpsertEvent(db, r.spec, r.now);
      var d := FinalizePasses(WriteMarkets(up, e, r.spec.markets, r.now), r.spec, r.now);
      Safe(d)
  {
    var e, up := r.spec.id, UpsertEvent(db, r.spec, r.now);
    PassesEffect(up, r);
    StaysDefinitive(db, FinalizePasses(WriteMarkets(up, e, r.spec.markets, r.now), r.spec, r.now), e);
  }

  lemma IngestIsSafe(h: Digest, db: Db, r: Request)
    requires Safe(db) && Coherent(IngestStep(r))
    ensures Safe(Ingest(h, db, r).0)
  {
    var e := r.spec.id;
    if Accepted(db, r) {
      var up := UpsertEvent(db, r.spec, r.now);
      if FinalizedStable(db, r.spec) {
        assert NonePending(db.markets, db.selections, e);
        StaysDefinitive(db, up, e);
        EnqueueIsSafe(h, r.receiver, up, e, Finalized);
      } else if DistinctIds(r.spec.markets) {
        FullIngestIsSafe(db, r);
        var done := FinalizePasses(WriteMarkets(up, e, r.spec.markets, r.now), r.spec, r.now);
        EnqueueIsSafe(h, r.receiver, done, e, Decide(PreviousState(db, e), SpecState(r.spec)));
      }
    }
  }

  lemma AutoVoidIsSafe(h: Digest, receiver: bool, db: Db, e: Id, now: Time)
    requires Safe(db) && e in db.events
    ensures Safe(AutoVoid(h, receiver, db, e, now))
  {
    VoidPendingEffect(db.markets, db.selections, e, now);
    PassKeepsOthers(db.markets, db.selections, VoidPending(db.markets, db.selections, e, now), e);
    var d := db.(
      events := db.events[e := db.events[e].(status := Canceled, feedLocked := true, isFinalized := false, updated := now)],
      selections := VoidPending(db.markets, db.selections, e, now));
    StaysDefinitive(db, d, e);
    EnqueueIsSafe(h, receiver, d, e, Voided);
  }

  lemma {:induction false} AutoVoidAllIsSafe(h: Digest, receiver: bool, db: Db, picked: seq<Id>, now: Time)
    requires Safe(db) && forall e <- picked :: e in db.events
    ensures Safe(AutoVoidAll(h, receiver, db, picked, now))
  {
    if picked != [] {
      var front := picked[..|picked| - 1];
      AutoVoidAllIsSafe(h, receiver, db, front, now);
      AutoVoidIsSafe(h, receiver, AutoVoidAll(h, receiver, db, front, now), picked[|picked| - 1], now);
    }
  }

  /** settle_event has nothing to do on finished events, however many the backfill selects. */
  lemma {:induction false} SettleEventsIsIdle(db: Db, es: seq<Id>, now: Time)
    requires Safe(db) && forall e <- es :: e in db.events && db.events[e].status.Finished?
    ensures SettleEvents(db, es, now) == db
  {
    if es != [] {
      SettleEventsIsIdle(db, es[..|es| - 1], now);
      var e := es[|es| - 1];
      assert NonePending(db.markets, db.selections, e);
      SettleEventEffect(db.events[e], db.markets, db.selections, e, now);
    }
  }

  lemma ReconcileIsSafe(db: Db, league: Id, seen: set<Id>, from: Time, to: Time, now: Time)
    requires Safe(db)
    ensures Safe(Reconcile(db, league, seen, from, to, now))
  {
  }

  lemma VoidLongDeadIsSafe(db: Db, now: Time)
    requires Safe(db)
    ensures Safe(VoidLongDead(db, now))
  {
    var d := VoidLongDead(db, now);
    forall e | e in d.events && d.events[e].status.Finished? ensures d.events[e].isFinalized && NonePending(d.markets, d.selections, e) {
      assert NonePending(db.markets, db.selections, e);
      assert forall s :: Belongs(d.markets, d.selections, s, e) ==> Belongs(db.markets, db.selections, s, e);
    }
  }

  lemma ForceIsSafe(h: Digest, receiver: bool, db: Db, e: Id, nonce: string)
    requires Safe(db)
    ensures Safe(ForceEnqueue(h, receiver, db, e, nonce))
  {
    if e in db.events && db.events[e].status.Finished? { assert NonePending(db.markets, db.selections, e); }
  }

  lemma NextIsSafe(h: Digest, db: Db, step: Step)
    requires Safe(db) && Enabled(db, step) && Coherent(step)
    ensures Safe(Next(h, db, step))
  {
    match step
    case IngestStep(r) => IngestIsSafe(h, db, r);
    case StaleStep(hours, picked, now, receiver) => AutoVoidAllIsSafe(h, receiver, db, picked, now);
    case DisappearedStep(hours, picked, now, receiver) => AutoVoidAllIsSafe(h, receiver, db, picked, now);
    case ReconcileStep(league, seen, from, to, now) => ReconcileIsSafe(db, league, seen, from, to, now);
    case SettlePendingStep(selected, _, now) =>
      SettleEventsIsIdle(db, selected, now);
      VoidLongDeadIsSafe(db, now);
    case ForceStep(e, nonce, _, receiver) => ForceIsSafe(h, receiver, db, e, nonce);
  }

  // ---- every run ----

  /** In every state of every run, a finished event has no PENDING selection and every FINALIZED delivery,
      whether from the pipeline, the stranded-event backstop or an operator, carries definitive results. */
  lemma {:induction false} RunIsSafe(h: Digest, dbs: seq<Db>, steps: seq<Step>, i: nat)
    requires Run(h, dbs, steps) && Safe(dbs[0]) && (forall step <- steps :: Coherent(step)) && i <= |steps|
    ensures Safe(dbs[i])
  {
    if i > 0 {
      RunIsSafe(h, dbs, steps, i - 1);
      NextIsSafe(h, dbs[i - 1], steps[i - 1]);
    }
  }

  // ---- every run, from any consistent rows ----

  lemma IngestAdvances(h: Digest, db: Db, r: Request)
    requires AllConsistent(db.selections)
    ensures AdvancesAll(db.selections, Ingest(h, db, r).0.selections)
  {
    AdvancesAllReflexive(db.selections);
    PassesEffect(UpsertEvent(db, r.spec, r.now), r);
    assert FullIngest(h, db, r).0.selections ==
      FinalizePasses(WriteMarkets(UpsertEvent(db, r.spec, r.now), r.spec.id, r.spec.markets, r.now), r.spec, r.now).selections;
  }

  lemma {:induction false} AutoVoidAllAdvances(h: Digest, receiver: bool, db: Db, picked: seq<Id>, now: Time)
    requires AllConsistent(db.selections) && forall e <- picked :: e in db.events
    ensures AdvancesAll(db.selections, AutoVoidAll(h, receiver, db, picked, now).selections)
  {
    if picked == [] {
      AdvancesAllReflexive(db.selections);
    } else {
      var front, e := picked[..|picked| - 1], picked[|picked| - 1];
      AutoVoidAllAdvances(h, receiver, db, front, now);
      var before := AutoVoidAll(h, receiver, db, front, now);
      VoidPendingEffect(before.markets, before.selections, e, now);
      AdvancesAllTransitive(db.selections, before.selections, VoidPending(before.markets, before.selections, e, now));
    }
  }

  lemma {:induction false} SettleEventsAdvances(db: Db, es: seq<Id>, now: Time)
    requires AllConsistent(db.selections) && forall e <- es :: e in db.events
    ensures AdvancesAll(db.selections, SettleEvents(db, es, now).selections)
  {
    if es == [] {
      AdvancesAllReflexive(db.selections);
    } else {
      var front, e := es[..|es| - 1], es[|es| - 1];
      SettleEventsAdvances(db, front, now);
      var before := SettleEvents(db, front, now);
      SettleEventEffect(before.events[e], before.markets, before.selections, e, now);
      AdvancesAllTransitive(db.selections, before.selections, SettleEvents(db, es, now).selections);
    }
  }

  lemma VoidLongDeadAdvances(db: Db, now: Time)
    requires AllConsistent(db.selections)
    ensures AdvancesAll(db.selections, VoidLongDead(db, now).selections)
  {
  }

  lemma NextAdvances(h: Digest, db: Db, step: Step)
    requires AllConsistent(db.selections) && Enabled(db, step)
    ensures AdvancesAll(db.selections, Next(h, db, step).selections)
  {
    match step
    case IngestStep(r) => IngestAdvances(h, db, r);
    case StaleStep(hours, picked, now, receiver) => AutoVoidAllAdvances(h, receiver, db, picked, now);
    case DisappearedStep(hours, picked, now, receiver) => AutoVoidAllAdvances(h, receiver, db, picked, now);
    case SettlePendingStep(selected, _, now) =>
      var settled := SettleEvents(db, selected, now);
      SettleEventsAdvances(db, selected, now);
      VoidLongDeadAdvances(settled, now);
      AdvancesAllTransitive(db.selections, settled.selections, VoidLongDead(settled, now).selections);
    case _ => AdvancesAllReflexive(db.selections);
  }

  lemma {:induction false} RunAdvances(h: Digest, dbs: seq<Db>, steps: seq<Step>, i: nat, j: nat)
    requires Run(h, dbs, steps) && AllConsistent(dbs[0].selections) && i <= j <= |steps|
    ensures AllConsistent(dbs[i].selections) && AdvancesAll(dbs[i].selections, dbs[j].selections)
    decreases j, i
  {
    if i < j {
      RunAdvances(h, dbs, steps, i, j - 1);
      NextAdvances(h, dbs[j - 1], steps[j - 1]);
      AdvancesAllTransitive(dbs[i].selections, dbs[j - 1].selections, dbs[j].selections);
    } else {
      if i > 0 { RunAdvances(h, dbs, steps, 0, i - 1); NextAdvances(h, dbs[i - 1], steps[i - 1]); }
      AdvancesAllReflexive(dbs[i].selections);
    }
  }

  function Rank(s: Source): nat {
    match s
    case Unset => 0
    case Computed => 1
    case Provider => 2
    case Manual => 3
  }

  /** Between any two states of a run a row is kept, its source never falls, a settled row never returns to
      PENDING, a MANUAL row is untouched, and a COMPUTED or PROVIDER result changes only by a PROVIDER grade. The rows and
      payloads may be any, backfills that settle included. */
  lemma SettlementOnlyRises(h: Digest, dbs: seq<Db>, steps: seq<Step>, i: nat, j: nat, s: Id)
    requires Run(h, dbs, steps) && AllConsistent(dbs[0].selections) && i <= j <= |steps|
    requires s in dbs[i].selections
    ensures s in dbs[j].selections
    ensures var a, b := dbs[i].selections[s], dbs[j].selections[s];
      && Rank(a.source) <= Rank(b.source)
      && (b.outcome.Pending? <==> b.source.Unset?) && (b.outcome.Pending? <==> b.settledAt.None?)
      && (a.source.Manual? ==> SameSettlement(a, b))
      && (!a.outcome.Pending? && !SameSettlement(a, b) ==> b.source.Provider? && !a.source.Manual?)
      && (b.outcome.Pending? ==> a.outcome.Pending?)
  {
    RunAdvances(h, dbs, steps, i, j);
    assert Consistent(dbs[i].selections[s]);
  }

  // The steps of a walk: one for each payload that normalizes.
  function StepsOf(arrivals: seq<Arrival>): seq<Step> {
    if arrivals == [] then []
    else
      var front, last := StepsOf(arrivals[..|arrivals| - 1]), arrivals[|arrivals| - 1];
      if last.Readable? then front + [IngestStep(last.request)] else front
  }

  lemma RunGrows(h: Digest, dbs: seq<Db>, steps: seq<Step>, step: Step)
    requires Run(h, dbs, steps) && Enabled(dbs[|steps|], step)
    ensures Run(h, dbs + [Next(h, dbs[|steps|], step)], steps + [step])
  {
  }

  /** The walk over a league is a run: each payload that normalizes is a step of its own. */
  lemma {:induction false} WalkIsRun(h: Digest, db: Db, arrivals: seq<Arrival>) returns (dbs: seq<Db>)
    ensures Run(h, dbs, StepsOf(arrivals)) && dbs[0] == db && dbs[|dbs| - 1] == IngestAll(h, db, arrivals).0
  {
    if arrivals == [] {
      dbs := [db];
    } else {
      var last, front := arrivals[|arrivals| - 1], StepsOf(arrivals[..|arrivals| - 1]);
      dbs := WalkIsRun(h, db, arrivals[..|arrivals| - 1]);
      if last.Readable? {
        var step := IngestStep(last.request);
        RunGrows(h, dbs, front, step);
        dbs := dbs + [Next(h, dbs[|front|], step)];
      }
    }
  }
}
