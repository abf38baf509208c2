/** One event of odds-api.io becomes a payload of the internal shape, and that an event spec. */
module EventTranslate {
  import opened Wrappers
  import opened Domain
  import opened Grading
  import opened OddsTranslate
  import opened OddsCompiler
  import opened Normalize

  // A date that is there but is no ISO date parses to nothing.
  datatype Date = NoDate | Garbled | At(time: Time)

  // A score that is null, that is there but not a number, or a number cut to an int.
  datatype RawScore = NoScore | NotNumeric | Numeric(value: int)

  // Absent, null and "" are "" here.
  datatype RawEvent = RawEvent(
    id: string, status: string, home: string, away: string, date: Date,
    sport: string, league: string, homeId: string, awayId: string, homeScore: RawScore, awayScore: RawScore)

  datatype Status = Status(startsAt: Date, ended: bool, finalized: bool, live: bool, cancelled: bool, delayed: bool)

  datatype Payload = Payload(
    event: Id, sport: Id, league: Id, homeTeam: Id, awayTeam: Id,
    homeScore: Option<int>, awayScore: Option<int>, status: Status, odds: Odds)

  datatype SchemaError = MissingField(name: string)

  // The maps of the catalog: sport slugs, and league slugs as match_league_slug resolves them.
  datatype Catalog = Catalog(sports: map<string, Id>, leagueOf: string -> Option<Id>)

  function MissingFields(e: RawEvent): seq<string> {
    (if e.id == "" then ["id"] else []) + (if e.status == "" then ["status"] else [])
    + (if e.home == "" then ["home"] else []) + (if e.away == "" then ["away"] else [])
    + (if e.date.NoDate? then ["date"] else [])
  }

  function Score(s: RawScore): Option<int> {
    match s
    case Numeric(n) => Some(n)
    case _ => None
  }

  // The feed never says live, ended without a final score, or delayed.
  function StatusOf(e: RawEvent): Status {
    if e.status != "settled" then Status(e.date, false, false, false, false, false)
    else if e.homeScore.NoScore? || e.awayScore.NoScore? then Status(e.date, true, false, false, true, false)
    else Status(e.date, true, true, false, false, false)
  }

  function PayloadWith(e: RawEvent, sport: Id, league: Id, status: Status, odds: Odds): Payload {
    Payload(e.id, sport, league, e.homeId, e.awayId, Score(e.homeScore), Score(e.awayScore), status, odds)
  }

  function ToPayload(e: RawEvent, books: seq<Book>, catalog: Catalog): Result<Option<Payload>, SchemaError> {
    if MissingFields(e) != [] then Failure(MissingField(MissingFields(e)[0]))
    else if e.status == "live" then Success(None)
    else if e.sport !in catalog.sports || catalog.leagueOf(e.league).None? then Success(None)
    else
      var sport, league := catalog.sports[e.sport], catalog.leagueOf(e.league).value;
      Success(Some(PayloadWith(e, sport, league, StatusOf(e), if e.status == "settled" then NO_ODDS else Translate(books, sport))))
  }

  // ---- the normalizer's side ----

  function DeriveStatus(s: Status): EventStatus {
    if s.cancelled then Canceled
    else if s.finalized && s.ended then Finished
    else if s.live then InProgress
    else if s.delayed then Postponed
    else NotStarted
  }

  function WinnerCode(p: Payload): Option<int> {
    if p.status.finalized && p.homeScore.Some? && p.awayScore.Some?
    then Some(WinnerOf(p.homeScore.value, p.awayScore.value)) else None
  }

  function StartTime(d: Date): Time {
    match d
    case At(t) => t
    case _ => 0
  }

  function ToSpec(p: Payload): Option<EventSpec>
    requires forall id <- p.odds.order :: id in p.odds.rows
  {
    if p.league == "" || p.sport == "" || p.event == "" then None
    else Some(EventSpec(
      p.event, p.league, p.homeTeam, p.awayTeam, DeriveStatus(p.status), p.status.finalized,
      p.homeScore, p.awayScore, WinnerCode(p), StartTime(p.status.startsAt), p.status.cancelled,
      MarketSpecs(p.event, p.league, p.odds)))
  }

  lemma PayloadOddsAreOrdered(e: RawEvent, books: seq<Book>, catalog: Catalog)
    ensures var r := ToPayload(e, books, catalog);
      r.Success? && r.value.Some? ==> forall id <- r.value.value.odds.order :: id in r.value.value.odds.rows
  {
    if e.sport in catalog.sports {
      TranslatedIdsAreDistinct(books, catalog.sports[e.sport], e.id, "");
    }
  }

  // The spec that one event of the feed is ingested as, if any.
  function SpecOf(e: RawEvent, books: seq<Book>, catalog: Catalog): Option<EventSpec> {
    PayloadOddsAreOrdered(e, books, catalog);
    match ToPayload(e, books, catalog)
    case Success(Some(p)) => ToSpec(p)
    case _ => None
  }

  // ---- what the composition promises ----

  predicate Known(e: RawEvent, catalog: Catalog) {
    e.sport in catalog.sports && catalog.sports[e.sport] != ""
    && catalog.leagueOf(e.league).Some? && catalog.leagueOf(e.league).value != ""
  }

  lemma MissingExactly(e: RawEvent)
    ensures MissingFields(e) == [] <==> e.id != "" && e.status != "" && e.home != "" && e.away != "" && !e.date.NoDate?
  {
  }

  /** The status of any payload: canceled when it says so, else finished when it is both ended and final, else in progress
      when live, else postponed when delayed, and otherwise not started. */
  lemma StatusExactly(s: Status)
    ensures var d := DeriveStatus(s);
      && (d.Canceled? <==> s.cancelled) && (d.Finished? <==> !s.cancelled && s.ended && s.finalized)
      && (d.InProgress? <==> !s.cancelled && !(s.ended && s.finalized) && s.live)
      && (d.Postponed? <==> !s.cancelled && !(s.ended && s.finalized) && !s.live && s.delayed)
      && (d.NotStarted? <==> !s.cancelled && !(s.ended && s.finalized) && !s.live && !s.delayed)
  {
  }

  /** An event is ingested exactly when no required field is missing, it is not live, and its sport and league are in
      the catalog. */
  lemma IngestedExactly(e: RawEvent, books: seq<Book>, catalog: Catalog)
    ensures SpecOf(e, books, catalog).Some? <==>
      e.id != "" && e.status != "" && e.home != "" && e.away != "" && !e.date.NoDate? && e.status != "live" && Known(e, catalog)
  {
    MissingExactly(e);
  }

  /** The feed knows three statuses. "settled" with both scores there is finished and finalized, with a winner when
      both are numbers; "settled" with a null score is canceled and locked; anything else is not started. */
  lemma StatusOfSpec(e: RawEvent, books: seq<Book>, catalog: Catalog)
    requires SpecOf(e, books, catalog).Some?
    ensures
      var s := SpecOf(e, books, catalog).value;
      var settled, scored := e.status == "settled", !e.homeScore.NoScore? && !e.awayScore.NoScore?;
      && s.status == (if settled then if scored then Finished else Canceled else NotStarted)
      && (s.isFinalized <==> s.status.Finished?) && (s.feedLocked <==> s.status.Canceled?)
      && (s.winnerCode.Some? <==> s.status.Finished? && s.homeScore.Some? && s.awayScore.Some?)
      && (s.winnerCode.Some? ==> Decided(Event(s.league, s.status, true, s.homeScore, s.awayScore, s.winnerCode, None, false, None, 0),
                                         s.homeScore.value, s.awayScore.value))
      && (settled ==> s.markets == [])
  {
  }

  lemma PayloadBehind(e: RawEvent, books: seq<Book>, catalog: Catalog) returns (p: Payload)
    requires SpecOf(e, books, catalog).Some?
    ensures ToPayload(e, books, catalog) == Success(Some(p)) && (forall id <- p.odds.order :: id in p.odds.rows)
    ensures SpecOf(e, books, catalog) == ToSpec(p)
  {
    PayloadOddsAreOrdered(e, books, catalog);
    p := ToPayload(e, books, catalog).value.value;
  }

  lemma PayloadCarriesEvent(e: RawEvent, books: seq<Book>, catalog: Catalog, p: Payload)
    requires ToPayload(e, books, catalog) == Success(Some(p))
    ensures p.event == e.id && Some(p.league) == catalog.leagueOf(e.league) && p.homeTeam == e.homeId && p.awayTeam == e.awayId
    ensures p.homeScore == Score(e.homeScore) && p.awayScore == Score(e.awayScore) && p.status.startsAt == e.date
  {
  }

  /** What identifies an event survives both translations: ids, teams on their own sides, league, start and the
      scores that are numbers. */
  lemma SpecCarriesEvent(e: RawEvent, books: seq<Book>, catalog: Catalog)
    requires SpecOf(e, books, catalog).Some?
    ensures
      var s := SpecOf(e, books, catalog).value;
      && s.id == e.id && Some(s.league) == catalog.leagueOf(e.league) && s.homeTeam == e.homeId && s.awayTeam == e.awayId
      && s.startTime == (if e.date.At? then e.date.time else 0)
      && s.homeScore == (if e.homeScore.Numeric? then Some(e.homeScore.value) else None)
      && s.awayScore == (if e.awayScore.Numeric? then Some(e.awayScore.value) else None)
  {
    var p := PayloadBehind(e, books, catalog);
    PayloadCarriesEvent(e, books, catalog, p);
  }
}
