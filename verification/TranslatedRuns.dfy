/** Runs fed by the translator: from an empty database, every ingest is of a translated event, so everything the
    pipeline theorems ask of a payload holds. */
module TranslatedRuns {
  import opened Wrappers
  import opened Domain
  import opened Lifecycle
  import opened Grading
  import opened Pipeline
  import opened PipelineSafety
  import opened PipelineWebhooks
  import opened PipelineClock
  import opened PipelineResults
  import OddsTranslate
  import OddsCompiler
  import Normalize
  import opened EventTranslate

  ghost predicate FromFeed(r: Request) {
    exists e: RawEvent, books: seq<OddsTranslate.Book>, catalog: Catalog ::
      SpecOf(e, books, catalog) == Some(r.spec)
  }

  ghost predicate Fed(steps: seq<Step>) {
    forall step <- steps :: step.IngestStep? ==> FromFeed(step.request)
  }

  function EmptyDb(leagues: set<Id>): Db {
    Db(leagues, map[], map[], map[], map[], map[], map[])
  }

  lemma SpecMarkets(e: RawEvent, books: seq<OddsTranslate.Book>, catalog: Catalog) returns (sent: seq<OddsTranslate.Book>)
    requires SpecOf(e, books, catalog).Some?
    ensures OddsCompiler.FeedOrder(OddsTranslate.Translate(sent, catalog.sports[e.sport]))
    ensures var s := SpecOf(e, books, catalog).value;
      s.id == e.id && s.markets == Normalize.MarketSpecs(e.id, s.league, OddsTranslate.Translate(sent, catalog.sports[e.sport]))
  {
    sent := if e.status == "settled" then [] else books;
    OddsCompiler.TranslatedIdsAreDistinct(sent, catalog.sports[e.sport], e.id, "");
  }

  ghost predicate Guaranteed(spec: EventSpec) {
    && DistinctIds(spec.markets) && (spec.status.Finished? <==> spec.isFinalized)
    && (spec.isFinalized ==> spec.markets == []) && forall m <- spec.markets :: GradeMarket(m) == []
  }

  lemma SpecIsGuaranteed(e: RawEvent, books: seq<OddsTranslate.Book>, catalog: Catalog)
    requires SpecOf(e, books, catalog).Some?
    ensures Guaranteed(SpecOf(e, books, catalog).value)
  {
    var spec := SpecOf(e, books, catalog).value;
    StatusOfSpec(e, books, catalog);
    var sent := SpecMarkets(e, books, catalog);
    MarketsAreGuaranteed(sent, catalog.sports[e.sport], e.id, spec.league, spec.markets);
  }

  lemma MarketsAreGuaranteed(sent: seq<OddsTranslate.Book>, sport: string, event: Id, league: Id, specs: seq<MarketSpec>)
    requires OddsCompiler.FeedOrder(OddsTranslate.Translate(sent, sport))
    requires specs == Normalize.MarketSpecs(event, league, OddsTranslate.Translate(sent, sport))
    ensures DistinctIds(specs) && forall m <- specs :: GradeMarket(m) == []
  {
    OddsCompiler.TranslatedIdsAreDistinct(sent, sport, event, league);
    forall m | m in specs ensures GradeMarket(m) == [] {
      OddsCompiler.TranslatedMarketsAreUngraded(sent, sport, event, league, m);
    }
  }

  /** What the translator guarantees of every request: distinct ids, a status that is finished exactly when the
      payload is finalized, no markets then, and nothing for PROVIDER to grade. */
  lemma FeedGuarantees(r: Request)
    requires FromFeed(r)
    ensures Guaranteed(r.spec)
  {
    var e: RawEvent, books: seq<OddsTranslate.Book>, catalog: Catalog :| SpecOf(e, books, catalog) == Some(r.spec);
    SpecIsGuaranteed(e, books, catalog);
  }

  lemma FedIsCoherent(steps: seq<Step>)
    requires Fed(steps)
    ensures forall step <- steps :: Coherent(step)
  {
    forall step | step in steps ensures Coherent(step) {
      if step.IngestStep? { FeedGuarantees(step.request); }
    }
  }

  // The dict the markets of a request were made from.
  lemma SpecOdds(r: Request) returns (odds: OddsTranslate.Odds)
    requires FromFeed(r)
    ensures OddsCompiler.FeedOrder(odds) && r.spec.markets == Normalize.MarketSpecs(r.spec.id, r.spec.league, odds)
  {
    var e: RawEvent, books: seq<OddsTranslate.Book>, catalog: Catalog :| SpecOf(e, books, catalog) == Some(r.spec);
    var sent := SpecMarkets(e, books, catalog);
    odds := OddsTranslate.Translate(sent, catalog.sports[e.sport]);
  }

  /** Translated payloads of different events share no market id and no selection id, whatever their event ids. */
  lemma TranslatedIdsNeverMeet(a: Request, b: Request)
    requires FromFeed(a) && FromFeed(b) && a.spec.id != b.spec.id
    ensures forall m :: !(Names(a.spec.markets, m) && Names(b.spec.markets, m))
    ensures forall s :: !(Lists(a.spec.markets, s) && Lists(b.spec.markets, s))
  {
    var o := SpecOdds(a);
    var q := SpecOdds(b);
    forall m, n | m in a.spec.markets && n in b.spec.markets
      ensures m.id != n.id && forall s <- m.selections, t <- n.selections :: s.id != t.id
    {
      OddsCompiler.IdsNeverMeet(a.spec.id, a.spec.league, o, m, b.spec.id, b.spec.league, q, n);
    }
    forall s | Lists(a.spec.markets, s) && Lists(b.spec.markets, s) ensures false {
      var x :| x in RowsOf(a.spec.markets) && x.spec.id == s;
      var y :| y in RowsOf(b.spec.markets) && y.spec.id == s;
      RowsAreNamed(a.spec.markets, x);
      RowsAreNamed(b.spec.markets, y);
    }
  }

  lemma FedIsApart(steps: seq<Step>, leagues: set<Id>)
    requires Fed(steps)
    ensures Apart(steps) && ApartFrom(EmptyDb(leagues), steps)
  {
    forall a, b | a in steps && b in steps && a.IngestStep? && b.IngestStep? && a.request.spec.id != b.request.spec.id
      ensures forall m :: !(NamesMarket(a, m) && NamesMarket(b, m))
      ensures forall s :: !(ListsSelection(a, s) && ListsSelection(b, s))
    {
      TranslatedIdsNeverMeet(a.request, b.request);
    }
  }

  lemma EmptyDbIsSafe(h: Digest, leagues: set<Id>)
    ensures Safe(EmptyDb(leagues)) && Notified(h, EmptyDb(leagues)) && QuotesCurrent(EmptyDb(leagues)) && KeyedByEvent(EmptyDb(leagues))
  {
  }

  /** From an empty database, along every run of translated ingests, watchdog ticks, reconcile passes, settle-pending
      passes and forced enqueues: a finished event has no PENDING selection, every FINALIZED delivery carries none,
      and no ingest fails. */
  lemma TranslatedRunIsSafe(h: Digest, dbs: seq<Db>, steps: seq<Step>, leagues: set<Id>, i: nat)
    requires Run(h, dbs, steps) && dbs[0] == EmptyDb(leagues) && Fed(steps) && i <= |steps|
    ensures Safe(dbs[i])
    ensures i < |steps| && steps[i].IngestStep? ==> !Ingest(h, dbs[i], steps[i].request).1.Failed?
  {
    EmptyDbIsSafe(h, leagues);
    FedIsCoherent(steps);
    RunIsSafe(h, dbs, steps, i);
    if i < |steps| && steps[i].IngestStep? {
      assert steps[i] in steps;
      FeedGuarantees(steps[i].request);
    }
  }

  /** With a receiver configured throughout, every finished event of such a run has a delivery of its current state. */
  lemma TranslatedRunNotifies(h: Digest, dbs: seq<Db>, steps: seq<Step>, leagues: set<Id>, i: nat)
    requires Run(h, dbs, steps) && dbs[0] == EmptyDb(leagues) && Fed(steps) && i <= |steps|
    requires forall step <- steps :: step.Receives()
    ensures Notified(h, dbs[i])
  {
    EmptyDbIsSafe(h, leagues);
    FedIsCoherent(steps);
    FedIsApart(steps, leagues);
    RunNotifies(h, dbs, steps, i);
  }

  // ---- the same payload again ----

  lemma EnqueueIsKeyed(h: Digest, receiver: bool, db: Db, e: Id, t: Transition)
    requires KeyedByEvent(db) && e in db.events
    ensures KeyedByEvent(Enqueue(h, receiver, db, e, t))
  {
  }

  lemma IngestIsKeyed(h: Digest, db: Db, r: Request)
    requires KeyedByEvent(db)
    ensures KeyedByEvent(Ingest(h, db, r).0)
  {
    var e := r.spec.id;
    WrittenKeeps(db, r);
    EnqueueIsKeyed(h, r.receiver, Written(db, r), e, Decide(PreviousState(db, e), SpecState(r.spec)));
    assert KeyedByEvent(FullIngest(h, db, r).0);
    EnqueueIsKeyed(h, r.receiver, UpsertEvent(db, r.spec, r.now), e, Finalized);
    assert KeyedByEvent(StableIngest(h, db, r).0);
  }

  lemma {:induction false} AutoVoidAllIsKeyed(h: Digest, receiver: bool, db: Db, picked: seq<Id>, now: Time)
    requires KeyedByEvent(db) && forall e <- picked :: e in db.events
    ensures KeyedByEvent(AutoVoidAll(h, receiver, db, picked, now))
  {
    if picked != [] { AutoVoidAllIsKeyed(h, receiver, db, picked[..|picked| - 1], now); }
  }

  lemma {:induction false} SettleEventsIsKeyed(db: Db, es: seq<Id>, now: Time)
    requires KeyedByEvent(db) && forall e <- es :: e in db.events
    ensures KeyedByEvent(SettleEvents(db, es, now))
  {
    if es != [] { SettleEventsIsKeyed(db, es[..|es| - 1], now); }
  }

  /** Along every run a delivery is keyed on its own event. */
  lemma {:induction false} RunIsKeyed(h: Digest, dbs: seq<Db>, steps: seq<Step>, i: nat)
    requires Run(h, dbs, steps) && KeyedByEvent(dbs[0]) && i <= |steps|
    ensures KeyedByEvent(dbs[i])
  {
    if i > 0 {
      RunIsKeyed(h, dbs, steps, i - 1);
      match steps[i - 1]
      case IngestStep(r) => IngestIsKeyed(h, dbs[i - 1], r);
      case StaleStep(_, picked, now, receiver) => AutoVoidAllIsKeyed(h, receiver, dbs[i - 1], picked, now);
      case DisappearedStep(_, picked, now, receiver) => AutoVoidAllIsKeyed(h, receiver, dbs[i - 1], picked, now);
      case SettlePendingStep(selected, _, now) => SettleEventsIsKeyed(dbs[i - 1], selected, now);
      case _ =>
    }
  }

  /** In every state of such a run, ingesting a translated payload twice is ingesting it once, up to two timestamps. */
  lemma TranslatedIngestTwice(h: Digest, dbs: seq<Db>, steps: seq<Step>, leagues: set<Id>, i: nat, r: Request, later: Time)
    requires Run(h, dbs, steps) && dbs[0] == EmptyDb(leagues) && i <= |steps| && FromFeed(r)
    ensures var once := Ingest(h, dbs[i], r); var again := Ingest(h, once.0, r.(now := later)); var e := r.spec.id;
      if once.1.Ingested?
      then e in once.0.events && again.0 == once.0.(events := once.0.events[e := once.0.events[e].(lastSeen := Some(later), updated := later)])
      else again == once && once.0 == dbs[i]
  {
    EmptyDbIsSafe(h, leagues);
    RunIsKeyed(h, dbs, steps, i);
    FeedGuarantees(r);
    IngestTwice(h, dbs[i], r, later);
  }

  // ---- the result of a settled event ----

  lemma FeedResult(r: Request, home: int, away: int)
    requires FromFeed(r) && r.spec.status.Finished? && r.spec.homeScore == Some(home) && r.spec.awayScore == Some(away)
    ensures r.spec.isFinalized && r.spec.markets == [] && r.spec.winnerCode == Some(WinnerOf(home, away))
  {
    FeedGuarantees(r);
    var e: RawEvent, books: seq<OddsTranslate.Book>, catalog: Catalog :| SpecOf(e, books, catalog) == Some(r.spec);
    StatusOfSpec(e, books, catalog);
  }

  /** When the feed settles an event home to away, its open moneylines, spreads and totals are decided by COMPUTED, each by
      the scores: of a moneyline the side that is ahead has won and the other lost. */
  lemma TranslatedResults(h: Digest, db: Db, r: Request, s: Id, home: int, away: int)
    requires AllConsistent(db.selections) && FromFeed(r) && Ingest(h, db, r).1.Ingested? && !AlreadyStored(db, r.spec)
    requires r.spec.status.Finished? && r.spec.homeScore == Some(home) && r.spec.awayScore == Some(away)
    requires s in db.selections && db.selections[s].outcome.Pending? && db.selections[s].market in db.markets
    requires db.markets[db.selections[s].market].event == r.spec.id && Plain(db.markets[db.selections[s].market], db.selections[s].kind)
    ensures
      var row, m := Ingest(h, db, r).0.selections, db.markets[db.selections[s].market];
      && s in row && row[s].source.Computed? && row[s].settledAt == Some(r.now)
      && ByScore(row[s].kind, m.category, home, away, m.line, row[s].outcome)
      && (m.category.Moneyline? && row[s].kind.Home? ==> row[s].outcome == if home > away then Won else Lost)
  {
    FeedResult(r, home, away);
    ResultsByScore(h, db, r, s, home, away);
    SettledPayloadKeepsRows(h, db, r, s);
  }

  lemma SettledPayloadKeepsRows(h: Digest, db: Db, r: Request, s: Id)
    requires AllConsistent(db.selections) && r.spec.markets == [] && Ingest(h, db, r).1.Ingested? && !AlreadyStored(db, r.spec)
    requires s in db.selections
    ensures var d := Ingest(h, db, r).0; d.markets == db.markets && s in d.selections && SameListing(db.selections[s], d.selections[s])
  {
    var up := UpsertEvent(db, r.spec, r.now);
    StoredListings(h, db, r);
    PassesKeepListings(up, r.spec, r.now, s);
  }

  // ---- a state the backstop hides ----

  // A finished payload without markets that the pipeline accepts.
  predicate SettledPayload(db: Db, r: Request) {
    Accepted(db, r) && r.spec.status.Finished? && r.spec.isFinalized && r.spec.markets == []
  }

  function Scoreline(spec: EventSpec): Snapshot {
    Snapshot(spec.status, spec.homeScore, spec.awayScore, map[])
  }

  // The full branch on a database without selections.
  lemma ResultIsStored(h: Digest, db: Db, r: Request)
    requires db.selections == map[] && SettledPayload(db, r) && !FinalizedStable(db, r.spec)
    ensures var d, e := Ingest(h, db, r).0, r.spec.id;
      && d.selections == map[] && d.leagues == db.leagues && d.events == UpsertEvent(db, r.spec, r.now).events
      && SnapshotOf(d, e) == Scoreline(r.spec)
      && d.deliveries.Keys == if r.receiver then db.deliveries.Keys + {Auto(e, h(Scoreline(r.spec)))} else db.deliveries.Keys
  {
    var e, done := r.spec.id, Written(db, r);
    WrittenKeeps(db, r);
    assert Written(db, r).selections == map[];
    assert OutcomesOf(done.markets, done.selections, e) == map[];
    assert SnapshotOf(done, e) == Scoreline(r.spec);
  }

  lemma SecondIsUnsent(h: Digest, leagues: set<Id>, first: Request, second: Request) returns (before: Db, db: Db)
    requires SettledPayload(EmptyDb(leagues), first) && SettledPayload(EmptyDb(leagues), second) && first.spec.id == second.spec.id
    requires first.receiver && !second.receiver && h(Scoreline(first.spec)) != h(Scoreline(second.spec))
    ensures before == Ingest(h, EmptyDb(leagues), first).0 && db == Ingest(h, before, second).0
    ensures var e := first.spec.id; db.deliveries.Keys == {Auto(e, h(Scoreline(first.spec)))} && KeyedByEvent(db)
    ensures Accepted(db, second) && FinalizedStable(db, second.spec) && SnapshotOf(db, first.spec.id) == Scoreline(second.spec)
  {
    var e := first.spec.id;
    before := Ingest(h, EmptyDb(leagues), first).0;
    db := Ingest(h, before, second).0;
    ResultIsStored(h, EmptyDb(leagues), first);
    assert !FinalizedStable(before, second.spec);
    ResultIsStored(h, before, second);
    IngestIsKeyed(h, EmptyDb(leagues), first);
    IngestIsKeyed(h, before, second);
  }

  lemma UnsentStays(h: Digest, db: Db, r: Request, older: Key)
    requires KeyedByEvent(db) && Accepted(db, r) && FinalizedStable(db, r.spec)
    requires older in db.deliveries && older.event == r.spec.id && KeyOf(h, db, r.spec.id) !in db.deliveries
    ensures var d, e := Ingest(h, db, r).0, r.spec.id;
      e in d.events && SnapshotOf(d, e) == SnapshotOf(db, e) && KeyOf(h, d, e) !in d.deliveries
  {
    BackstopExactly(h, db, r);
  }

  lemma IngestedThrice(h: Digest, db: Db, a: Request, b: Request, c: Request)
    ensures var all := [Readable(a), Readable(b), Readable(c)];
      && IngestAll(h, db, all).0 == Ingest(h, Ingest(h, Ingest(h, db, a).0, b).0, c).0
      && StepsOf(all) == [IngestStep(a), IngestStep(b), IngestStep(c)]
  {
    var x, y, z := Readable(a), Readable(b), Readable(c);
    assert [x, y, z][..2] == [x, y] && [x, y][..1] == [x] && [x][..0] == [];
    assert IngestAll(h, db, [x]).0 == Ingest(h, db, a).0;
    assert StepsOf([x]) == StepsOf([]) + [IngestStep(a)] == [IngestStep(a)];
    assert StepsOf([x, y]) == [IngestStep(a), IngestStep(b)];
  }

  lemma SecondStaysUnsent(h: Digest, leagues: set<Id>, first: Request, second: Request)
    requires SettledPayload(EmptyDb(leagues), first) && SettledPayload(EmptyDb(leagues), second) && first.spec.id == second.spec.id
    requires first.receiver && !second.receiver && h(Scoreline(first.spec)) != h(Scoreline(second.spec))
    ensures var db, e := IngestAll(h, EmptyDb(leagues), [Readable(first), Readable(second), Readable(second.(receiver := true))]).0, first.spec.id;
      e in db.events && SnapshotOf(db, e) == Scoreline(second.spec) && KeyOf(h, db, e) !in db.deliveries
  {
    var again := second.(receiver := true);
    var db1, db2 := SecondIsUnsent(h, leagues, first, second);
    IngestedThrice(h, EmptyDb(leagues), first, second, again);
    UnsentStays(h, db2, again, Auto(first.spec.id, h(Scoreline(first.spec))));
  }

  /** A run in which the backstop hides a finished state, for any two results of one event that the digest tells apart:
      the first is sent, the second ingested while no receiver is set, and then ingested again with one. */
  lemma OlderDeliveryHides(h: Digest, leagues: set<Id>, first: Request, second: Request) returns (dbs: seq<Db>, steps: seq<Step>)
    requires SettledPayload(EmptyDb(leagues), first) && SettledPayload(EmptyDb(leagues), second) && first.spec.id == second.spec.id
    requires first.receiver && !second.receiver && h(Scoreline(first.spec)) != h(Scoreline(second.spec))
    ensures steps == [IngestStep(first), IngestStep(second), IngestStep(second.(receiver := true))]
    ensures Run(h, dbs, steps) && dbs[0] == EmptyDb(leagues)
    ensures var db, e := dbs[3], first.spec.id;
      e in db.events && SnapshotOf(db, e) == Scoreline(second.spec) && KeyOf(h, db, e) !in db.deliveries
  {
    var again := second.(receiver := true);
    var all := [Readable(first), Readable(second), Readable(again)];
    steps := StepsOf(all);
    dbs := WalkIsRun(h, EmptyDb(leagues), all);
    IngestedThrice(h, EmptyDb(leagues), first, second, again);
    SecondStaysUnsent(h, leagues, first, second);
  }

  // ---- who settles ----

  ghost predicate NeverProvider(sels: Selections) {
    forall s <- sels :: sels[s].source.Unset? || sels[s].source.Computed?
  }

  lemma {:induction false} NothingToGrade(sels: Selections, specs: seq<MarketSpec>, now: Time)
    requires forall m <- specs :: GradeMarket(m) == []
    ensures GradeAll(sels, specs, now) == sels
  {
    if specs != [] { NothingToGrade(sels, specs[..|specs| - 1], now); }
  }

  lemma {:induction false} UpsertKeepsSources(sels: Selections, rows: seq<Row>)
    requires NeverProvider(sels)
    ensures NeverProvider(UpsertSelections(sels, rows))
  {
    if rows != [] { UpsertKeepsSources(sels, rows[..|rows| - 1]); }
  }

  ghost predicate Ungraded(spec: EventSpec) {
    forall m <- spec.markets :: GradeMarket(m) == []
  }

  lemma FeedIsUngraded(r: Request)
    requires FromFeed(r)
    ensures Ungraded(r.spec)
  {
    FeedGuarantees(r);
  }

  lemma IngestKeepsSources(h: Digest, db: Db, r: Request)
    requires Ungraded(r.spec) && NeverProvider(db.selections)
    ensures NeverProvider(Ingest(h, db, r).0.selections)
  {
    FullIngestKeepsSources(h, db, r);
  }

  lemma FullIngestKeepsSources(h: Digest, db: Db, r: Request)
    requires Ungraded(r.spec) && NeverProvider(db.selections)
    ensures NeverProvider(FullIngest(h, db, r).0.selections)
  {
    var up := UpsertEvent(db, r.spec, r.now);
    UpsertKeepsSources(db.selections, RowsOf(r.spec.markets));
    var written := WriteMarkets(up, r.spec.id, r.spec.markets, r.now);
    NothingToGrade(written.selections, r.spec.markets, r.now);
    PassesKeepSources(written, r.spec, r.now);
  }

  lemma PassesKeepSources(db: Db, spec: EventSpec, now: Time)
    requires NeverProvider(db.selections) && spec.id in db.events && GradeAll(db.selections, spec.markets, now) == db.selections
    ensures NeverProvider(FinalizePasses(db, spec, now).selections)
  {
    var ev := db.events[spec.id];
    var settled := SettleEvent(ev, db.markets, db.selections, spec.id, now);
    assert NeverProvider(settled);
    assert NeverProvider(VoidRemaining(ev, db.markets, settled, spec.id, now));
  }

  lemma {:induction false} AutoVoidAllKeepsSources(h: Digest, receiver: bool, db: Db, picked: seq<Id>, now: Time)
    requires NeverProvider(db.selections) && forall e <- picked :: e in db.events
    ensures NeverProvider(AutoVoidAll(h, receiver, db, picked, now).selections)
  {
    if picked != [] { AutoVoidAllKeepsSources(h, receiver, db, picked[..|picked| - 1], now); }
  }

  lemma {:induction false} SettleEventsKeepsSources(db: Db, es: seq<Id>, now: Time)
    requires NeverProvider(db.selections) && forall e <- es :: e in db.events
    ensures NeverProvider(SettleEvents(db, es, now).selections)
  {
    if es != [] { SettleEventsKeepsSources(db, es[..|es| - 1], now); }
  }

  lemma NextKeepsSources(h: Digest, db: Db, step: Step)
    requires Enabled(db, step) && NeverProvider(db.selections) && (step.IngestStep? ==> FromFeed(step.request))
    ensures NeverProvider(Next(h, db, step).selections)
  {
    match step
    case IngestStep(r) => FeedIsUngraded(r); IngestKeepsSources(h, db, r);
    case StaleStep(_, picked, now, receiver) => AutoVoidAllKeepsSources(h, receiver, db, picked, now);
    case DisappearedStep(_, picked, now, receiver) => AutoVoidAllKeepsSources(h, receiver, db, picked, now);
    case ReconcileStep(_, _, _, _, _) =>
    case SettlePendingStep(selected, _, now) => SettleEventsKeepsSources(db, selected, now);
    case ForceStep(_, _, _, _) =>
  }

  /** No translated run ever settles a selection by PROVIDER: whatever the docs say of PROVIDER re-grading, an
      auto-voided row is not recovered by the feed. */
  lemma {:induction false} TranslatedRunNeverGrades(h: Digest, dbs: seq<Db>, steps: seq<Step>, leagues: set<Id>, i: nat)
    requires Run(h, dbs, steps) && dbs[0] == EmptyDb(leagues) && Fed(steps) && i <= |steps|
    ensures NeverProvider(dbs[i].selections)
  {
    if i > 0 {
      TranslatedRunNeverGrades(h, dbs, steps, leagues, i - 1);
      assert steps[i - 1] in steps;
      NextKeepsSources(h, dbs[i - 1], steps[i - 1]);
    }
  }
}
