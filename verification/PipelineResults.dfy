/** The results the pipeline reaches, row by row and without naming the passes that reach them: what an ingest does with
    a payload, how the selections and bets of a finished event end, what a backfill and an auto-void leave. */
module PipelineResults {
  import opened Wrappers
  import opened Domain
  import opened Lifecycle
  import opened Grading
  import opened Pipeline
  import opened PipelineSafety
  import opened PipelineWebhooks

  // ---- which payloads are ingested ----

  // The stored event is finished with the scores of the payload.
  predicate AlreadyStored(db: Db, spec: EventSpec) {
    && spec.id in db.events && db.events[spec.id].status.Finished? && spec.status.Finished?
    && db.events[spec.id].homeScore == spec.homeScore && db.events[spec.id].awayScore == spec.awayScore
  }

  // Two markets, or two selections of the payload, share an id.
  ghost predicate RepeatsAnId(specs: seq<MarketSpec>) {
    || (exists i, j :: 0 <= i < j < |specs| && specs[i].id == specs[j].id)
    || (exists i, j :: 0 <= i < j < |RowsOf(specs)| && RowsOf(specs)[i].spec.id == RowsOf(specs)[j].spec.id)
  }

  /** A payload is dropped exactly when a team or its league is missing, or its event is new and new events are not
      wanted, or not as terminal ones. Of the others exactly those that repeat an id fail, unless the event is already
      stored as finished with these scores. Neither writes anything. */
  lemma IngestedExactly(h: Digest, db: Db, r: Request)
    ensures
      var (d, result) := Ingest(h, db, r);
      var missing := r.spec.homeTeam == "" || r.spec.awayTeam == "" || r.spec.league !in db.leagues;
      var terminal := r.spec.status.Finished? || r.spec.status.Postponed? || r.spec.status.Canceled?;
      var unwanted := r.spec.id !in db.events && (!r.discoverNew || (r.skipNewTerminal && terminal));
      && (result.Dropped? <==> missing || unwanted)
      && (result.Failed? <==> !missing && !unwanted && !AlreadyStored(db, r.spec) && RepeatsAnId(r.spec.markets))
      && (!result.Ingested? ==> d == db)
  {
    assert RepeatsAnId(r.spec.markets) <==> !DistinctIds(r.spec.markets);
  }

  /** An ingest that counts leaves its event as the payload tells it, seen now, and no other event changes. */
  lemma EventIsStored(h: Digest, db: Db, r: Request)
    requires Ingest(h, db, r).1.Ingested?
    ensures var d, e := Ingest(h, db, r).0.events, r.spec.id;
      && d.Keys == db.events.Keys + {e} && (forall f <- db.events :: f != e ==> d[f] == db.events[f])
      && (d[e].league, d[e].status, d[e].isFinalized, d[e].feedLocked) == (r.spec.league, r.spec.status, r.spec.isFinalized, r.spec.feedLocked)
      && (d[e].homeScore, d[e].awayScore, d[e].winnerCode) == (r.spec.homeScore, r.spec.awayScore, r.spec.winnerCode)
      && d[e].startTime == Some(r.spec.startTime) && d[e].lastSeen == Some(r.now) && d[e].updated == r.now
  {
    IngestStoresSpec(h, db, r);
  }

  // ---- how a selection ends ----

  // The last grade for a selection.
  function LastOf(gs: Grades, s: Id): Option<Outcome> {
    if gs == [] then None
    else if gs[|gs| - 1].0 == s then Some(gs[|gs| - 1].1)
    else LastOf(gs[..|gs| - 1], s)
  }

  function GradeOf(specs: seq<MarketSpec>, s: Id): Option<Outcome> {
    if specs == [] then None
    else
      var last := LastOf(GradeMarket(specs[|specs| - 1]), s);
      if last.Some? then last else GradeOf(specs[..|specs| - 1], s)
  }

  predicate Settled(row: Selection, o: Outcome, source: Source, now: Time) {
    row.outcome == o && row.source == source && row.settledAt == Some(now)
  }

  function Graded(row: Selection, grade: Option<Outcome>, now: Time): Selection {
    if grade.Some? && !row.source.Manual? then row.(outcome := grade.value, source := Provider, settledAt := Some(now)) else row
  }

  lemma {:induction false} ApplyGradesAt(sels: Selections, gs: Grades, now: Time, s: Id)
    requires s in sels
    ensures var d := ApplyGrades(sels, gs, now); s in d && d[s] == Graded(sels[s], LastOf(gs, s), now)
  {
    if gs != [] { ApplyGradesAt(sels, gs[..|gs| - 1], now, s); }
  }

  lemma {:induction false} GradeAllAt(sels: Selections, specs: seq<MarketSpec>, now: Time, s: Id)
    requires s in sels
    ensures var d := GradeAll(sels, specs, now); s in d && d[s] == Graded(sels[s], GradeOf(specs, s), now)
  {
    if specs != [] {
      GradeAllAt(sels, specs[..|specs| - 1], now, s);
      ApplyGradesAt(GradeAll(sels, specs[..|specs| - 1], now), GradeMarket(specs[|specs| - 1]), now, s);
    }
  }

  // The settlement before the ingest; a row that is not there yet starts PENDING without a source.
  function Before(db: Db, s: Id): Selection {
    if s in db.selections then db.selections[s] else Selection("", Custom, None, Pending, Unset, None)
  }

  lemma {:induction false} UpsertKeepsSettlement(db: Db, rows: seq<Row>, s: Id)
    ensures var d := UpsertSelections(db.selections, rows);
      (s in db.selections ==> s in d) && (s in d ==> SameSettlement(Before(db, s), d[s]))
  {
    if rows != [] { UpsertKeepsSettlement(db, rows[..|rows| - 1], s); }
  }

  // How a row ends: with its grade; as it was, if it was settled; with its computed result; or else VOID.
  predicate Ends(was: Selection, row: Selection, grade: Option<Outcome>, computed: Option<Outcome>, now: Time) {
    if grade.Some? && !was.source.Manual? then Settled(row, grade.value, Provider, now)
    else if !was.outcome.Pending? then SameSettlement(was, row)
    else if computed.Some? then Settled(row, computed.value, Computed, now)
    else Settled(row, Void, Computed, now)
  }

  lemma PassesAt(ev: Event, ms: Markets, sels: Selections, spec: EventSpec, now: Time, s: Id)
    requires ev.status.Finished? && Belongs(ms, sels, s, spec.id) && Consistent(sels[s])
    ensures var d := GradedSelections(ev, ms, sels, spec, now);
      && s in d && SameListing(sels[s], d[s])
      && Ends(sels[s], d[s], GradeOf(spec.markets, s), ComputedOutcome(ev, ms[sels[s].market], sels[s].kind), now)
  {
    GradeAllAt(sels, spec.markets, now, s);
    if GradeOf(spec.markets, s).Some? { GradesSettle(spec.markets, s); }
  }

  lemma {:induction false} LastIsGiven(gs: Grades, s: Id)
    ensures LastOf(gs, s).Some? ==> (s, LastOf(gs, s).value) in gs
  {
    if gs != [] { LastIsGiven(gs[..|gs| - 1], s); }
  }

  lemma {:induction false} GradesSettle(specs: seq<MarketSpec>, s: Id)
    requires GradeOf(specs, s).Some?
    ensures !GradeOf(specs, s).value.Pending? && Lists(specs, s)
  {
    var front, last := specs[..|specs| - 1], specs[|specs| - 1];
    LastIsGiven(GradeMarket(last), s);
    if LastOf(GradeMarket(last), s).Some? {
      GradesAreListed(specs, last);
    } else {
      GradesSettle(front, s);
      ListedInFront(specs, s);
    }
  }

  // The full branch, as far as the selections are concerned.
  lemma FullIngestSelections(h: Digest, db: Db, r: Request)
    requires r.spec.status.Finished? && r.spec.isFinalized
    ensures
      var up := UpsertEvent(db, r.spec, r.now);
      var w := WriteMarkets(up, r.spec.id, r.spec.markets, r.now);
      var d := FullIngest(h, db, r).0;
      && d.events == up.events && d.markets == w.markets
      && d.selections == GradedSelections(up.events[r.spec.id], w.markets, w.selections, r.spec, r.now)
      && d.bets == SettleBets(db.bets, r.spec.id, r.spec.winnerCode)
  {
  }

  lemma WrittenSettlement(db: Db, e: Id, specs: seq<MarketSpec>, now: Time, s: Id)
    requires AllConsistent(db.selections)
    ensures var w := WriteMarkets(db, e, specs, now);
      s in w.selections ==> SameSettlement(Before(db, s), w.selections[s]) && Consistent(w.selections[s])
  {
    UpsertKeepsSettlement(db, RowsOf(specs), s);
    WriteMarketsEffect(db, e, specs, now);
  }

  /** Every selection of an event that an ingest finds finished ends definitively: a row the payload grades ends with its
      grade, by PROVIDER, unless it was MANUAL; a row that was settled stays; of the rest each ends as the scores compute
      it, by COMPUTED, and VOID exactly when they do not. */
  lemma FinishedResults(h: Digest, db: Db, r: Request, s: Id)
    requires AllConsistent(db.selections) && r.spec.status.Finished? && r.spec.isFinalized
    requires Ingest(h, db, r).1.Ingested? && !AlreadyStored(db, r.spec)
    ensures
      var d, e := Ingest(h, db, r).0, r.spec.id;
      && e in d.events && d.events[e].homeScore == r.spec.homeScore && d.events[e].awayScore == r.spec.awayScore
      && d.events[e].status.Finished? && d.events[e].winnerCode == r.spec.winnerCode
      && (s in d.selections && d.selections[s].market in d.markets && d.markets[d.selections[s].market].event == e ==>
            Ends(Before(db, s), d.selections[s], GradeOf(r.spec.markets, s),
                 ComputedOutcome(d.events[e], d.markets[d.selections[s].market], d.selections[s].kind), r.now))
  {
    var up, e := UpsertEvent(db, r.spec, r.now), r.spec.id;
    var w := WriteMarkets(up, e, r.spec.markets, r.now);
    FullIngestSelections(h, db, r);
    WrittenSettlement(up, e, r.spec.markets, r.now, s);
    WriteMarketsEffect(up, e, r.spec.markets, r.now);
    GradedSelectionsEffect(up.events[e], w.markets, w.selections, r.spec, r.now);
    if s in w.selections && Belongs(w.markets, w.selections, s, e) { PassesAt(up.events[e], w.markets, w.selections, r.spec, r.now, s); }
  }

  lemma OpenPasses(db: Db, spec: EventSpec, now: Time)
    requires !spec.isFinalized
    ensures var w := WriteMarkets(UpsertEvent(db, spec, now), spec.id, spec.markets, now); FinalizePasses(w, spec, now) == w
  {
  }

  lemma OpenIngest(h: Digest, db: Db, r: Request)
    requires !r.spec.isFinalized && !AlreadyStored(db, r.spec) && Ingest(h, db, r).1.Ingested?
    ensures var d := Ingest(h, db, r).0;
      d.bets == db.bets && d.selections == WriteMarkets(UpsertEvent(db, r.spec, r.now), r.spec.id, r.spec.markets, r.now).selections
  {
    OpenPasses(db, r.spec, r.now);
  }

  /** Without the flag nothing is settled, selection or bet. */
  lemma OpenPayloadsSettleNothing(h: Digest, db: Db, r: Request, s: Id)
    requires !r.spec.isFinalized && !AlreadyStored(db, r.spec) && Ingest(h, db, r).1.Ingested?
    ensures var d := Ingest(h, db, r).0;
      && d.bets == db.bets && (s in db.selections ==> s in d.selections)
      && (s in d.selections ==> SameSettlement(Before(db, s), d.selections[s]))
  {
    OpenIngest(h, db, r);
    UpsertKeepsSettlement(db, RowsOf(r.spec.markets), s);
  }

  // Ahead, behind or level with the line, on the side the selection is on.
  predicate ByScore(kind: SelectionType, category: Category, home: int, away: int, line: Option<real>, o: Outcome) {
    match category
    case Moneyline =>
      && (kind.Home? ==> o == if home > away then Won else Lost)
      && (kind.Away? ==> o == if away > home then Won else Lost)
      && (kind.Draw? ==> o == if home == away then Won else Lost)
    case Spread =>
      line.Some? ==>
        var margin := (home - away) as real + line.value;
        && (kind.Home? ==> o == if margin > 0.0 then Won else if margin < 0.0 then Lost else Push)
        && (kind.Away? ==> o == if margin < 0.0 then Won else if margin > 0.0 then Lost else Push)
    case Total =>
      line.Some? ==>
        var excess := (home + away) as real - line.value;
        && (kind.Over? ==> o == if excess > 0.0 then Won else if excess < 0.0 then Lost else Push)
        && (kind.Under? ==> o == if excess < 0.0 then Won else if excess > 0.0 then Lost else Push)
    case _ => true
  }

  // A selection of a kind its market is about, with the line that takes.
  predicate Plain(m: Market, kind: SelectionType) {
    match m.category
    case Moneyline => m.kind != "NHL_MATCH_WINNER_REG" && (kind.Home? || kind.Away? || kind.Draw?)
    case Spread => m.line.Some? && (kind.Home? || kind.Away?)
    case Total => m.line.Some? && (kind.Over? || kind.Under?)
    case _ => false
  }

  lemma ComputedByScore(e: Event, m: Market, kind: SelectionType, home: int, away: int)
    requires Decided(e, home, away) && Plain(m, kind)
    ensures var o := ComputedOutcome(e, m, kind); o.Some? && ByScore(kind, m.category, home, away, m.line, o.value)
  {
  }

  /** In scores: an open, ungraded moneyline, spread or total of an event that ends home to away is decided by COMPUTED,
      a moneyline by who is ahead, a spread by the margin with the stored line, a total by the sum against it. */
  lemma ResultsByScore(h: Digest, db: Db, r: Request, s: Id, home: int, away: int)
    requires AllConsistent(db.selections) && r.spec.status.Finished? && r.spec.isFinalized
    requires Ingest(h, db, r).1.Ingested? && !AlreadyStored(db, r.spec)
    requires r.spec.homeScore == Some(home) && r.spec.awayScore == Some(away) && r.spec.winnerCode == Some(WinnerOf(home, away))
    ensures
      var d := Ingest(h, db, r).0;
      s in d.selections && d.selections[s].market in d.markets
      && d.markets[d.selections[s].market].event == r.spec.id && Plain(d.markets[d.selections[s].market], d.selections[s].kind)
      && Before(db, s).outcome.Pending? && GradeOf(r.spec.markets, s).None? ==>
        var row, m := d.selections[s], d.markets[d.selections[s].market];
        row.source.Computed? && row.settledAt == Some(r.now) && ByScore(row.kind, m.category, home, away, m.line, row.outcome)
  {
    FinishedResults(h, db, r, s);
    var d := Ingest(h, db, r).0;
    if s in d.selections && d.selections[s].market in d.markets && Plain(d.markets[d.selections[s].market], d.selections[s].kind) {
      ComputedByScore(d.events[r.spec.id], d.markets[d.selections[s].market], d.selections[s].kind, home, away);
    }
  }

  // ---- what a payload stores ----

  lemma StoredListings(h: Digest, db: Db, r: Request)
    requires Ingest(h, db, r).1.Ingested? && !AlreadyStored(db, r.spec)
    ensures
      var w := WriteMarkets(UpsertEvent(db, r.spec, r.now), r.spec.id, r.spec.markets, r.now);
      var done := FinalizePasses(w, r.spec, r.now);
      var d := Ingest(h, db, r).0;
      d.markets == w.markets && done.markets == w.markets && d.selections == done.selections && DistinctIds(r.spec.markets)
  {
  }

  lemma WrittenRows(db: Db, e: Id, specs: seq<MarketSpec>, now: Time)
    requires DistinctIds(specs) && AllConsistent(db.selections)
    ensures
      var w := WriteMarkets(db, e, specs, now);
      && (RowsOf(specs) != [] ==> forall m <- specs :: m.id in w.markets && w.markets[m.id] == RowOf(e, m))
      && (forall row <- RowsOf(specs) :: Matches(w.selections, row))
      && (forall s <- w.selections :: s in db.selections || Lists(specs, s))
      && (forall s <- db.selections :: s in w.selections && (!Lists(specs, s) ==> w.selections[s] == db.selections[s]))
  {
    if RowsOf(specs) != [] {
      UpsertMarketsStores(db.markets, e, specs);
      UpsertSelectionsStores(db.selections, RowsOf(specs));
      UpsertSelectionsEffect(db.selections, RowsOf(specs));
    }
  }

  // The passes after the write settle rows of the event and leave the listings alone.
  lemma PassesKeepListings(w: Db, spec: EventSpec, now: Time, s: Id)
    requires AllConsistent(w.selections) && spec.id in w.events && s in w.selections
    requires forall x :: Lists(spec.markets, x) ==> Belongs(w.markets, w.selections, x, spec.id)
    ensures var d := FinalizePasses(w, spec, now);
      && d.markets == w.markets && d.selections.Keys == w.selections.Keys && SameListing(w.selections[s], d.selections[s])
      && (d.selections[s] == w.selections[s] || Belongs(d.markets, d.selections, s, spec.id))
  {
    FinalizePassesEffect(w, spec, now);
    PassKeepsOthers(w.markets, w.selections, FinalizePasses(w, spec, now).selections, spec.id);
  }

  // A selection of the payload has this id.
  ghost predicate Offers(specs: seq<MarketSpec>, s: Id) {
    exists m <- specs, x <- m.selections :: x.id == s
  }

  lemma OffersAreListed(specs: seq<MarketSpec>, s: Id)
    ensures Offers(specs, s) <==> Lists(specs, s)
  {
    if m, x :| m in specs && x in m.selections && x.id == s {
      MembersAreListed(specs, m, x);
      assert Row(m.id, x).spec.id == s;
    }
    if r :| r in RowsOf(specs) && r.spec.id == s { RowsAreNamed(specs, r); }
  }

  // The selection is stored under its market, with its type and price.
  predicate Stored(db: Db, market: Id, x: SelectionSpec) {
    x.id in db.selections
    && (db.selections[x.id].market, db.selections[x.id].kind, db.selections[x.id].price) == (market, x.kind, x.price)
  }

  lemma MemberIsStored(w: Db, spec: EventSpec, now: Time, m: MarketSpec, x: SelectionSpec)
    requires AllConsistent(w.selections) && spec.id in w.events && m in spec.markets && x in m.selections
    requires forall y :: Lists(spec.markets, y) ==> Belongs(w.markets, w.selections, y, spec.id)
    requires forall row <- RowsOf(spec.markets) :: Matches(w.selections, row)
    ensures Stored(FinalizePasses(w, spec, now), m.id, x)
  {
    MembersAreListed(spec.markets, m, x);
    assert Matches(w.selections, Row(m.id, x));
    PassesKeepListings(w, spec, now, x.id);
  }

  lemma RowsMeanSelections(specs: seq<MarketSpec>)
    ensures RowsOf(specs) == [] <==> forall m <- specs :: m.selections == []
  {
    if RowsOf(specs) != [] { RowsAreNamed(specs, RowsOf(specs)[0]); }
    if m :| m in specs && m.selections != [] { MembersAreListed(specs, m, m.selections[0]); }
  }

  /** After an ingest that is no cheap exit, the selections of the payload are stored under its markets, with their types
      and prices, and its markets, if any of them has a selection, under its event, with their lines. */
  lemma PayloadIsStored(h: Digest, db: Db, r: Request)
    requires AllConsistent(db.selections) && Ingest(h, db, r).1.Ingested? && !AlreadyStored(db, r.spec)
    ensures var d := Ingest(h, db, r).0;
      && (forall m <- r.spec.markets, x <- m.selections :: Stored(d, m.id, x))
      && ((exists m <- r.spec.markets :: m.selections != []) ==>
            forall m <- r.spec.markets :: m.id in d.markets && d.markets[m.id] == RowOf(r.spec.id, m))
  {
    var up, e := UpsertEvent(db, r.spec, r.now), r.spec.id;
    var w := WriteMarkets(up, e, r.spec.markets, r.now);
    StoredListings(h, db, r);
    WriteMarketsEffect(up, e, r.spec.markets, r.now);
    WrittenRows(up, e, r.spec.markets, r.now);
    RowsMeanSelections(r.spec.markets);
    forall m, x | m in r.spec.markets && x in m.selections ensures Stored(FinalizePasses(w, r.spec, r.now), m.id, x) {
      MemberIsStored(w, r.spec, r.now, m, x);
    }
  }

  /** No selection is there that was not before and that the payload does not offer, none is lost, and none of another
      event changes. */
  lemma OthersAreKept(h: Digest, db: Db, r: Request, s: Id)
    requires AllConsistent(db.selections) && Ingest(h, db, r).1.Ingested? && !AlreadyStored(db, r.spec)
    ensures var d := Ingest(h, db, r).0;
      && (s in d.selections <==> s in db.selections || Offers(r.spec.markets, s))
      && (s in db.selections ==>
            d.selections[s] == db.selections[s] || (d.selections[s].market in d.markets && d.markets[d.selections[s].market].event == r.spec.id))
  {
    var up, e := UpsertEvent(db, r.spec, r.now), r.spec.id;
    var w := WriteMarkets(up, e, r.spec.markets, r.now);
    StoredListings(h, db, r);
    WriteMarketsEffect(up, e, r.spec.markets, r.now);
    WrittenRows(up, e, r.spec.markets, r.now);
    OffersAreListed(r.spec.markets, s);
    FinalizePassesEffect(w, r.spec, r.now);
    if s in w.selections { PassesKeepListings(w, r.spec, r.now, s); }
  }

  /** No market but those of the payload is added, changed or lost, and a payload without selections writes none. */
  lemma MarketsAreKept(h: Digest, db: Db, r: Request, m: Id)
    requires Ingest(h, db, r).1.Ingested?
    requires AlreadyStored(db, r.spec) || (forall spec <- r.spec.markets :: spec.id != m) || (forall spec <- r.spec.markets :: spec.selections == [])
    ensures var d := Ingest(h, db, r).0; (m in d.markets <==> m in db.markets) && (m in db.markets ==> d.markets[m] == db.markets[m])
  {
    if AlreadyStored(db, r.spec) {
      assert Ingest(h, db, r).0.markets == db.markets;
    } else {
      StoredListings(h, db, r);
      RowsMeanSelections(r.spec.markets);
      UpsertMarketsEffect(db.markets, r.spec.id, r.spec.markets, m);
    }
  }

  // ---- what is reported ----

  // s is a selection of e with this result.
  predicate HasResult(db: Db, e: Id, s: Id, o: Outcome) {
    s in db.selections && db.selections[s].market in db.markets && db.markets[db.selections[s].market].event == e
    && db.selections[s].outcome == o
  }

  /** Two states of events are told apart by what a delivery reports: status, scores and the result of every selection,
      and by nothing else. */
  lemma SnapshotsAgreeExactly(a: Db, b: Db, e: Id, f: Id)
    requires e in a.events && f in b.events
    ensures SnapshotOf(a, e) == SnapshotOf(b, f) <==>
      var x, y := a.events[e], b.events[f];
      && (x.status, x.homeScore, x.awayScore) == (y.status, y.homeScore, y.awayScore)
      && forall s, o :: HasResult(a, e, s, o) <==> HasResult(b, f, s, o)
  {
    var p, q := SnapshotOf(a, e).outcomes, SnapshotOf(b, f).outcomes;
    forall s, o ensures HasResult(a, e, s, o) <==> s in p && p[s] == o {}
    forall s, o ensures HasResult(b, f, s, o) <==> s in q && q[s] == o {}
    if forall s, o :: HasResult(a, e, s, o) <==> HasResult(b, f, s, o) {
      forall s ensures s in p <==> s in q
               ensures s in p ==> p[s] == q[s]
      {
        if s in p { assert HasResult(a, e, s, p[s]); }
        if s in q { assert HasResult(b, f, s, q[s]); }
      }
      assert p == q;
    }
  }

  // The delivery tells the event as it is stored.
  ghost predicate Reports(sent: Delivery, db: Db, e: Id)
    requires e in db.events
  {
    && sent.event == e && sent.payload.status == db.events[e].status
    && sent.payload.homeScore == db.events[e].homeScore && sent.payload.awayScore == db.events[e].awayScore
    && forall s, o :: HasResult(db, e, s, o) <==> s in sent.payload.outcomes && sent.payload.outcomes[s] == o
  }

  // The payload brings no news: the event is stored with its status, and not as finished.
  predicate NoNews(db: Db, spec: EventSpec) {
    spec.id in db.events && db.events[spec.id].status == spec.status && !spec.status.Finished?
  }

  lemma PassesKeepQueue(db: Db, spec: EventSpec, now: Time)
    requires spec.id in db.events
    ensures var d := FinalizePasses(db, spec, now); d.events == db.events && d.deliveries == db.deliveries
  {
  }

  // The state an ingest enqueues from.
  lemma BeforeEnqueue(h: Digest, db: Db, r: Request) returns (done: Db)
    requires Ingest(h, db, r).1.Ingested? && !AlreadyStored(db, r.spec)
    ensures r.spec.id in done.events && done.deliveries == db.deliveries
    ensures
      var t := Decide(PreviousState(db, r.spec.id), SpecState(r.spec));
      var sent := Enqueue(h, r.receiver, done, r.spec.id, t);
      Ingest(h, db, r) == (sent, Ingested(t, sent.deliveries != done.deliveries))
  {
    var written := WriteMarkets(UpsertEvent(db, r.spec, r.now), r.spec.id, r.spec.markets, r.now);
    done := FinalizePasses(written, r.spec, r.now);
    PassesKeepQueue(written, r.spec, r.now);
  }

  lemma QueuedExactly(h: Digest, receiver: bool, db: Db, e: Id, t: Transition)
    requires e in db.events
    ensures
      var d := Enqueue(h, receiver, db, e, t);
      && e in d.events && KeyOf(h, d, e) == KeyOf(h, db, e) && SnapshotOf(d, e) == SnapshotOf(db, e)
      && d.deliveries ==
           if (t.Finalized? || t.Voided?) && receiver && KeyOf(h, db, e) !in db.deliveries
           then db.deliveries[KeyOf(h, db, e) := Delivery(e, t, SnapshotOf(db, e))] else db.deliveries
  {
  }

  lemma SentExactly(h: Digest, db: Db, r: Request)
    requires Ingest(h, db, r).1.Ingested? && !AlreadyStored(db, r.spec)
    ensures
      var (d, result) := Ingest(h, db, r);
      var t := Decide(PreviousState(db, r.spec.id), SpecState(r.spec));
      && r.spec.id in d.events && result.transition == t
      && result.enqueued == (d.deliveries != db.deliveries)
      && d.deliveries ==
           if (t.Finalized? || t.Voided?) && r.receiver && KeyOf(h, d, r.spec.id) !in db.deliveries
           then db.deliveries[KeyOf(h, d, r.spec.id) := Delivery(r.spec.id, t, SnapshotOf(d, r.spec.id))] else db.deliveries
  {
    var done := BeforeEnqueue(h, db, r);
    QueuedExactly(h, r.receiver, done, r.spec.id, Decide(PreviousState(db, r.spec.id), SpecState(r.spec)));
  }

  /** An ingest reports news exactly: a new event, another status, or other final scores. A terminal state is then in the
      queue, and if it was not there before, with what the event and its selections have become. Nothing else is queued. */
  lemma NewsIsReported(h: Digest, db: Db, r: Request)
    requires Ingest(h, db, r).1.Ingested? && !AlreadyStored(db, r.spec)
    ensures r.spec.id in Ingest(h, db, r).0.events
    ensures
      var (d, result) := Ingest(h, db, r);
      var key := KeyOf(h, d, r.spec.id);
      var terminal := r.spec.status.Finished? || r.spec.status.Postponed? || r.spec.status.Canceled?;
      && (result.transition.NoTransition? <==> NoNews(db, r.spec))
      && (result.transition.Finalized? <==> r.spec.status.Finished?)
      && (result.transition.Voided? <==> !NoNews(db, r.spec) && (r.spec.status.Postponed? || r.spec.status.Canceled?))
      && (key in d.deliveries <==> key in db.deliveries || (r.receiver && terminal && !NoNews(db, r.spec)))
      && (result.enqueued <==> key in d.deliveries && key !in db.deliveries)
      && (result.enqueued ==> Reports(d.deliveries[key], d, r.spec.id) && d.deliveries[key].name == result.transition)
      && (forall k <- db.deliveries :: k in d.deliveries && d.deliveries[k] == db.deliveries[k])
      && (forall k <- d.deliveries :: k in db.deliveries || k == key)
  {
    SentExactly(h, db, r);
    var d := Ingest(h, db, r).0;
    assert Reports(Delivery(r.spec.id, Finalized, SnapshotOf(d, r.spec.id)), d, r.spec.id);
    assert Reports(Delivery(r.spec.id, Voided, SnapshotOf(d, r.spec.id)), d, r.spec.id);
  }

  // ---- how a bet ends ----

  // The code of the result a moneyline bet is on: 1 home, 2 away, 3 draw.
  function CodeOf(kind: BetKind): int
    requires !kind.OtherBet?
  {
    match kind
    case MoneylineHome => 1
    case MoneylineAway => 2
    case MoneylineDraw => 3
  }

  predicate BetEnds(kind: BetKind, code: Option<int>, st: BetStatus)
    requires !kind.OtherBet?
  {
    if code == Some(CodeOf(kind)) then st.BetWon?
    else if code in {Some(1), Some(2)} then st.BetLost?
    else if code == Some(3) then st.BetPush?
    else st.BetVoid?
  }

  /** An ingest that finds an event finished settles exactly its open moneyline bets: won on the result, lost on another
      one, the stake back on a draw, void without a result. */
  lemma FinishedBets(h: Digest, db: Db, r: Request, b: Id)
    requires r.spec.status.Finished? && r.spec.isFinalized && Ingest(h, db, r).1.Ingested? && !AlreadyStored(db, r.spec)
    requires b in db.bets
    ensures
      var bet, bets := db.bets[b], Ingest(h, db, r).0.bets;
      && bets.Keys == db.bets.Keys
      && (bet.event == r.spec.id && bet.status.BetOpen? && !bet.kind.OtherBet? ==>
            bets[b] == bet.(status := bets[b].status) && BetEnds(bet.kind, r.spec.winnerCode, bets[b].status))
      && (!(bet.event == r.spec.id && bet.status.BetOpen? && !bet.kind.OtherBet?) ==> bets[b] == bet)
  {
    FullIngestSelections(h, db, r);
    assert Ingest(h, db, r).0.bets == SettleBets(db.bets, r.spec.id, r.spec.winnerCode);
    BetEndsSo(db.bets[b].kind, r.spec.winnerCode);
  }

  lemma BetEndsSo(kind: BetKind, code: Option<int>)
    ensures if kind.OtherBet? then BetOutcome(kind, code).None? else BetOutcome(kind, code).Some? && BetEnds(kind, code, BetOutcome(kind, code).value)
  {
  }

  // ---- what an auto-void leaves ----

  ghost predicate OfAny(db: Db, s: Id, es: seq<Id>) {
    s in db.selections && db.selections[s].market in db.markets && db.markets[db.selections[s].market].event in es
  }

  lemma OneVoid(h: Digest, receiver: bool, db: Db, e: Id, now: Time)
    requires e in db.events
    ensures
      var d := AutoVoid(h, receiver, db, e, now);
      && d == db.(events := d.events, selections := VoidPending(db.markets, db.selections, e, now), deliveries := d.deliveries)
      && d.events == db.events[e := db.events[e].(status := Canceled, feedLocked := true, isFinalized := false, updated := now)]
  {
  }

  /** The auto-void cancels, locks and reopens exactly the picked events, and touches neither markets nor bets nor
      quotes. */
  lemma {:induction false} EventsVoidExactly(h: Digest, receiver: bool, db: Db, picked: seq<Id>, now: Time, e: Id)
    requires (forall f <- picked :: f in db.events) && e in db.events
    ensures
      var d := AutoVoidAll(h, receiver, db, picked, now);
      && d == db.(events := d.events, selections := d.selections, deliveries := d.deliveries)
      && d.events[e] ==
           if e in picked then db.events[e].(status := Canceled, feedLocked := true, isFinalized := false, updated := now) else db.events[e]
  {
    if picked != [] {
      var front, last := picked[..|picked| - 1], picked[|picked| - 1];
      EventsVoidExactly(h, receiver, db, front, now, e);
      OneVoid(h, receiver, AutoVoidAll(h, receiver, db, front, now), last, now);
      assert picked == front + [last];
    }
  }

  function AsVoid(row: Selection, now: Time): Selection {
    row.(outcome := Void, source := Computed, settledAt := Some(now))
  }

  lemma OneVoidAt(h: Digest, receiver: bool, db: Db, e: Id, now: Time, s: Id)
    requires e in db.events && s in db.selections
    ensures
      var d, row := AutoVoid(h, receiver, db, e, now), db.selections[s];
      && d.markets == db.markets && d.selections.Keys == db.selections.Keys
      && d.selections[s] == if OfAny(db, s, [e]) && row.outcome.Pending? then AsVoid(row, now) else row
  {
    OneVoid(h, receiver, db, e, now);
  }

  /** And voids exactly their PENDING selections. */
  lemma {:induction false} SelectionsVoidExactly(h: Digest, receiver: bool, db: Db, picked: seq<Id>, now: Time, s: Id)
    requires (forall f <- picked :: f in db.events) && s in db.selections
    ensures
      var d, row := AutoVoidAll(h, receiver, db, picked, now), db.selections[s];
      && d.markets == db.markets && d.selections.Keys == db.selections.Keys
      && d.selections[s] == if OfAny(db, s, picked) && row.outcome.Pending? then AsVoid(row, now) else row
  {
    if picked != [] {
      var front, last := picked[..|picked| - 1], picked[|picked| - 1];
      SelectionsVoidExactly(h, receiver, db, front, now, s);
      OneVoidAt(h, receiver, AutoVoidAll(h, receiver, db, front, now), last, now, s);
      assert picked == front + [last];
    }
  }

  lemma VoidIsSent(h: Digest, db: Db, e: Id, now: Time)
    requires e in db.events
    ensures var d := AutoVoid(h, true, db, e, now); KeyOf(h, d, e) in d.deliveries
  {
    EnqueueKeeps(h, true, db.(
      events := db.events[e := db.events[e].(status := Canceled, feedLocked := true, isFinalized := false, updated := now)],
      selections := VoidPending(db.markets, db.selections, e, now)), e, Voided);
  }

  lemma SnapshotSpared(h: Digest, receiver: bool, db: Db, e: Id, f: Id, now: Time)
    requires e in db.events && f in db.events && e != f
    ensures var d := AutoVoid(h, receiver, db, f, now); SnapshotOf(d, e) == SnapshotOf(db, e) && db.deliveries.Keys <= d.deliveries.Keys
  {
    var d := AutoVoid(h, receiver, db, f, now);
    forall s ensures Belongs(d.markets, d.selections, s, e) == Belongs(db.markets, db.selections, s, e)
             ensures Belongs(db.markets, db.selections, s, e) ==> d.selections[s] == db.selections[s]
    {}
    assert SnapshotOf(d, e).outcomes == SnapshotOf(db, e).outcomes;
  }

  /** With a receiver every event the auto-void picked has a delivery of the state it leaves. */
  lemma {:induction false} VoidsAreSent(h: Digest, db: Db, picked: seq<Id>, now: Time, e: Id)
    requires (forall f <- picked :: f in db.events) && e in picked
    ensures var d := AutoVoidAll(h, true, db, picked, now); KeyOf(h, d, e) in d.deliveries
  {
    var front, last := picked[..|picked| - 1], picked[|picked| - 1];
    var before := AutoVoidAll(h, true, db, front, now);
    if last == e {
      VoidIsSent(h, before, e, now);
    } else {
      assert picked == front + [last];
      VoidsAreSent(h, db, front, now, e);
      SnapshotSpared(h, true, before, e, last, now);
    }
  }

  // ---- what a backfill leaves ----

  // The row is PENDING, with no source above COMPUTED, and its event is among these and finished.
  ghost predicate Owed(db: Db, s: Id, es: seq<Id>) {
    && OfAny(db, s, es) && db.selections[s].outcome.Pending? && (db.selections[s].source.Unset? || db.selections[s].source.Computed?)
    && db.markets[db.selections[s].market].event in db.events
    && db.events[db.markets[db.selections[s].market].event].status.Finished?
  }

  function ComputedAt(db: Db, s: Id): Option<Outcome>
    requires s in db.selections && db.selections[s].market in db.markets && db.markets[db.selections[s].market].event in db.events
  {
    var row := db.selections[s];
    ComputedOutcome(db.events[db.markets[row.market].event], db.markets[row.market], row.kind)
  }

  lemma {:induction false} SettleEventsAt(db: Db, es: seq<Id>, now: Time, s: Id)
    requires (forall e <- es :: e in db.events) && s in db.selections
    ensures var d := SettleEvents(db, es, now);
      && d == db.(selections := d.selections) && d.selections.Keys == db.selections.Keys
      && d.selections[s] ==
           if Owed(db, s, es) && ComputedAt(db, s).Some?
           then db.selections[s].(outcome := ComputedAt(db, s).value, source := Computed, settledAt := Some(now)) else db.selections[s]
  {
    if es != [] {
      var front, last := es[..|es| - 1], es[|es| - 1];
      SettleEventsAt(db, front, now, s);
      assert es == front + [last];
    }
  }

  // The row is of a postponed or canceled event that was to start more than seven days ago.
  predicate Abandoned(db: Db, s: Id, now: Time) {
    s in db.selections && db.selections[s].market in db.markets &&
    var e := db.markets[db.selections[s].market].event;
    e in db.events && (db.events[e].status.Postponed? || db.events[e].status.Canceled?)
    && db.events[e].startTime.Some? && now - db.events[e].startTime.value > 7 * 24 * 3600
  }

  /** The backfill selects every finished event written in the lookback hours. A selection of these that is PENDING and
      that COMPUTED may touch ends as it computes, if it does; a PENDING one of an abandoned event ends VOID; no other
      selection and nothing else changes. */
  lemma BackfillExactly(h: Digest, db: Db, selected: seq<Id>, lookbackHours: int, now: Time, s: Id)
    requires Enabled(db, SettlePendingStep(selected, lookbackHours, now)) && s in db.selections
    ensures forall e :: e in selected <==> e in db.events && db.events[e].status.Finished? && db.events[e].updated >= now - lookbackHours * 3600
    ensures
      var d, row := Next(h, db, SettlePendingStep(selected, lookbackHours, now)), db.selections[s];
      && d == db.(selections := d.selections) && d.selections.Keys == db.selections.Keys
      && d.selections[s] ==
           if Owed(db, s, selected) && ComputedAt(db, s).Some?
           then row.(outcome := ComputedAt(db, s).value, source := Computed, settledAt := Some(now))
           else if row.outcome.Pending? && Abandoned(db, s, now)
           then row.(outcome := Void, source := Computed, settledAt := Some(now))
           else row
  {
    SettleEventsAt(db, selected, now, s);
  }
}
