/** The steps of the ingest pipeline as functions on the whole database: what one call of ingest_event, of the
    watchdog, of the reconcile pass, of settle_pending_events or of a forced enqueue leaves behind. */
module Pipeline {
  import opened Wrappers
  import opened Domain
  import opened Lifecycle
  import opened Grading

  // Everything the idempotency key covers, and the part of the payload that reports results.
  datatype Snapshot = Snapshot(
    status: EventStatus,
    homeScore: Option<int>,
    awayScore: Option<int>,
    outcomes: map<Id, Outcome>)

  // The digest of the canonical state blob: any function at all, collisions included.
  type Digest = Snapshot -> string

  datatype Key = Auto(event: Id, digest: string) | ManualKey(event: Id, digest: string, nonce: string)

  datatype Delivery = Delivery(event: Id, name: Transition, payload: Snapshot)

  datatype Db = Db(
    leagues: set<Id>,
    events: map<Id, Event>,
    markets: Markets,
    selections: Selections,
    quotes: map<(Id, Time), int>,
    deliveries: map<Key, Delivery>,
    bets: map<Id, Bet>)

  type Markets = map<Id, Market>
  type Selections = map<Id, Selection>

  predicate Belongs(ms: Markets, sels: Selections, s: Id, e: Id) {
    s in sels && sels[s].market in ms && ms[sels[s].market].event == e
  }

  function OutcomesOf(ms: Markets, sels: Selections, e: Id): map<Id, Outcome> {
    map s | s in sels && Belongs(ms, sels, s, e) :: sels[s].outcome
  }

  function SnapshotOf(db: Db, e: Id): Snapshot
    requires e in db.events
  {
    var row := db.events[e];
    Snapshot(row.status, row.homeScore, row.awayScore, OutcomesOf(db.markets, db.selections, e))
  }

  function KeyOf(h: Digest, db: Db, e: Id): Key
    requires e in db.events
  {
    Auto(e, h(SnapshotOf(db, e)))
  }

  // ---- settlement passes ----

  function Settle(row: Selection, o: Outcome, source: Source, now: Time): Selection {
    row.(outcome := o, source := source, settledAt := Some(now))
  }

  function VoidPending(ms: Markets, sels: Selections, e: Id, now: Time): Selections {
    map s | s in sels ::
      if Belongs(ms, sels, s, e) && sels[s].outcome.Pending? then Settle(sels[s], Void, Computed, now) else sels[s]
  }

  // What settle_event would write to a row: nothing unless it is PENDING with no source above COMPUTED.
  function ComputedFor(ev: Event, ms: Markets, sels: Selections, e: Id, s: Id): Option<Outcome> {
    if Belongs(ms, sels, s, e) && sels[s].outcome.Pending? && (sels[s].source.Unset? || sels[s].source.Computed?)
    then ComputedOutcome(ev, ms[sels[s].market], sels[s].kind)
    else None
  }

  function SettleEvent(ev: Event, ms: Markets, sels: Selections, e: Id, now: Time): Selections {
    if !ev.status.Finished? then sels
    else
      map s | s in sels ::
        match ComputedFor(ev, ms, sels, e, s)
        case Some(o) => Settle(sels[s], o, Computed, now)
        case None => sels[s]
  }

  function VoidRemaining(ev: Event, ms: Markets, sels: Selections, e: Id, now: Time): Selections {
    if ev.status.Finished? then VoidPending(ms, sels, e, now) else sels
  }

  function ApplyGrade(sels: Selections, g: (Id, Outcome), now: Time): Selections {
    if g.0 in sels && !sels[g.0].source.Manual? then sels[g.0 := Settle(sels[g.0], g.1, Provider, now)] else sels
  }

  function ApplyGrades(sels: Selections, gs: Grades, now: Time): Selections {
    if gs == [] then sels
    else ApplyGrade(ApplyGrades(sels, gs[..|gs| - 1], now), gs[|gs| - 1], now)
  }

  function GradeAll(sels: Selections, specs: seq<MarketSpec>, now: Time): Selections {
    if specs == [] then sels
    else ApplyGrades(GradeAll(sels, specs[..|specs| - 1], now), GradeMarket(specs[|specs| - 1]), now)
  }

  function BetOutcome(kind: BetKind, winnerCode: Option<int>): Option<BetStatus> {
    if kind.OtherBet? then None
    else if winnerCode.None? then Some(BetVoid)
    else
      var w := winnerCode.value;
      match kind
      case MoneylineHome => Some(if w == 1 then BetWon else if w == 2 then BetLost else if w == 3 then BetPush else BetVoid)
      case MoneylineAway => Some(if w == 2 then BetWon else if w == 1 then BetLost else if w == 3 then BetPush else BetVoid)
      case MoneylineDraw => Some(if w == 3 then BetWon else if w == 1 || w == 2 then BetLost else BetVoid)
  }

  // The selection a bet is on.
  function SideOfBet(kind: BetKind): SelectionType {
    match kind
    case MoneylineHome => Home
    case MoneylineAway => Away
    case MoneylineDraw => Draw
    case OtherBet => Custom
  }

  /** A moneyline bet settles as the moneyline selection it is on, with one exception: on a draw a bet on a side gets
      its stake back, while the selection is LOST. */
  lemma BetsFollowSelections(ev: Event, m: Market, kind: BetKind)
    requires m.category.Moneyline? && m.kind != "NHL_MATCH_WINNER_REG" && !kind.OtherBet?
    requires ev.winnerCode.Some? && 1 <= ev.winnerCode.value <= 3
    ensures
      var bet, selection := BetOutcome(kind, ev.winnerCode), ComputedOutcome(ev, m, SideOfBet(kind));
      if ev.winnerCode == Some(3) && !kind.MoneylineDraw? then bet == Some(BetPush) && selection == Some(Lost)
      else (bet, selection) in {(Some(BetWon), Some(Won)), (Some(BetLost), Some(Lost))}
  {
  }

  function SettleBets(bets: map<Id, Bet>, e: Id, winnerCode: Option<int>): map<Id, Bet> {
    map b | b in bets ::
      if bets[b].event == e && bets[b].status.BetOpen? then
        match BetOutcome(bets[b].kind, winnerCode)
        case Some(st) => bets[b].(status := st)
        case None => bets[b]
      else bets[b]
  }

  // ---- markets, selections, quotes ----

  datatype Row = Row(market: Id, spec: SelectionSpec)

  function RowsOfMarket(m: Id, sels: seq<SelectionSpec>): (rows: seq<Row>)
    ensures |rows| == |sels| && forall i :: 0 <= i < |rows| ==> rows[i] == Row(m, sels[i])
  {
    seq(|sels|, i requires 0 <= i < |sels| => Row(m, sels[i]))
  }

  function RowsOf(specs: seq<MarketSpec>): seq<Row> {
    if specs == [] then []
    else var last := specs[|specs| - 1]; RowsOf(specs[..|specs| - 1]) + RowsOfMarket(last.id, last.selections)
  }

  function UpsertMarkets(ms: Markets, e: Id, specs: seq<MarketSpec>): Markets {
    if specs == [] then ms
    else var last := specs[|specs| - 1]; UpsertMarkets(ms, e, specs[..|specs| - 1])[last.id := RowOf(e, last)]
  }

  // A new row starts PENDING with no source; an existing row keeps its settlement.
  function UpsertSelection(sels: Selections, r: Row): Selections {
    sels[r.spec.id :=
      if r.spec.id in sels then sels[r.spec.id].(market := r.market, kind := r.spec.kind, price := r.spec.price)
      else Selection(r.market, r.spec.kind, r.spec.price, Pending, Unset, None)]
  }

  function UpsertSelections(sels: Selections, rows: seq<Row>): Selections {
    if rows == [] then sels else UpsertSelection(UpsertSelections(sels, rows[..|rows| - 1]), rows[|rows| - 1])
  }

  // A quote is due when the new price is known and differs from the stored one.
  predicate QuoteDue(prior: Selections, r: Row) {
    r.spec.price.Some? && (r.spec.id in prior ==> prior[r.spec.id].price != r.spec.price)
  }

  // ON CONFLICT DO NOTHING on (selection, captured_at).
  function AppendQuotes(prior: Selections, quotes: map<(Id, Time), int>, rows: seq<Row>, now: Time): map<(Id, Time), int> {
    if rows == [] then quotes
    else
      var before := AppendQuotes(prior, quotes, rows[..|rows| - 1], now);
      var r := rows[|rows| - 1];
      if QuoteDue(prior, r) && (r.spec.id, now) !in before then before[(r.spec.id, now) := r.spec.price.value] else before
  }

  function WriteMarkets(db: Db, e: Id, specs: seq<MarketSpec>, now: Time): Db {
    var rows := RowsOf(specs);
    if rows == [] then db
    else db.(
      markets := UpsertMarkets(db.markets, e, specs),
      selections := UpsertSelections(db.selections, rows),
      quotes := AppendQuotes(db.selections, db.quotes, rows, now))
  }

  // A bulk upsert that names one row twice is an error, and the savepoint of the event is rolled back.
  predicate DistinctIds(specs: seq<MarketSpec>) {
    && (forall i, j :: 0 <= i < j < |specs| ==> specs[i].id != specs[j].id)
    && (forall i, j :: 0 <= i < j < |RowsOf(specs)| ==> RowsOf(specs)[i].spec.id != RowsOf(specs)[j].spec.id)
  }

  // ---- webhook deliveries ----

  function Enqueue(h: Digest, receiver: bool, db: Db, e: Id, t: Transition): Db
    requires e in db.events
  {
    if t.NoTransition? || t.LifecycleChanged? || !receiver || KeyOf(h, db, e) in db.deliveries then db
    else db.(deliveries := db.deliveries[KeyOf(h, db, e) := Delivery(e, t, SnapshotOf(db, e))])
  }

  function StateOf(ev: Event): EventState {
    EventState(ev.status, ev.homeScore, ev.awayScore)
  }

  function ForceEnqueue(h: Digest, receiver: bool, db: Db, e: Id, nonce: string): Db {
    if e !in db.events || !receiver then db
    else
      var t := Decide(None, StateOf(db.events[e]));
      var key := ManualKey(e, h(SnapshotOf(db, e)), nonce);
      // A repeated nonce would violate the unique key: the insert fails and nothing is written.
      if t.LifecycleChanged? || key in db.deliveries then db
      else db.(deliveries := db.deliveries[key := Delivery(e, t, SnapshotOf(db, e))])
  }

  predicate HasDelivery(db: Db, e: Id) {
    exists k | k in db.deliveries :: db.deliveries[k].event == e
  }

  // ---- ingest_event ----

  datatype Request = Request(
    spec: EventSpec, now: Time, receiver: bool, skipNewTerminal: bool, discoverNew: bool)

  datatype IngestResult = Dropped | Failed | Ingested(transition: Transition, enqueued: bool)

  function PreviousState(db: Db, e: Id): Option<EventState> {
    if e in db.events then Some(StateOf(db.events[e])) else None
  }

  function SpecState(spec: EventSpec): EventState {
    EventState(spec.status, spec.homeScore, spec.awayScore)
  }

  function UpsertEvent(db: Db, spec: EventSpec, now: Time): Db {
    db.(events := db.events[spec.id := Event(
      spec.league, spec.status, spec.isFinalized, spec.homeScore, spec.awayScore, spec.winnerCode,
      Some(spec.startTime), spec.feedLocked, Some(now), now)])
  }

  predicate Accepted(db: Db, r: Request) {
    && r.spec.homeTeam != "" && r.spec.awayTeam != "" && r.spec.league in db.leagues
    && (r.spec.id !in db.events ==> r.discoverNew && !(r.skipNewTerminal && Terminal(r.spec.status)))
  }

  predicate FinalizedStable(db: Db, spec: EventSpec) {
    var prev := PreviousState(db, spec.id);
    prev.Some? && prev.value.status.Finished? && spec.status.Finished?
    && prev.value.homeScore == spec.homeScore && prev.value.awayScore == spec.awayScore
  }

  // PROVIDER first, then COMPUTED for what it skipped, then VOID for what is left.
  function GradedSelections(ev: Event, ms: Markets, sels: Selections, spec: EventSpec, now: Time): Selections {
    var settled := SettleEvent(ev, ms, GradeAll(sels, spec.markets, now), spec.id, now);
    VoidRemaining(ev, ms, settled, spec.id, now)
  }

  function FinalizePasses(db: Db, spec: EventSpec, now: Time): Db
    requires spec.id in db.events
  {
    var ev := db.events[spec.id];
    if !ev.isFinalized then db
    else db.(
      selections := GradedSelections(ev, db.markets, db.selections, spec, now),
      bets := SettleBets(db.bets, spec.id, ev.winnerCode))
  }

  // The cheap exit: nothing but the freshness timestamps, and a delivery for an event that has none.
  function StableIngest(h: Digest, db: Db, r: Request): (Db, IngestResult) {
    var upserted := UpsertEvent(db, r.spec, r.now);
    if HasDelivery(upserted, r.spec.id) then (upserted, Ingested(NoTransition, false))
    else
      var sent := Enqueue(h, r.receiver, upserted, r.spec.id, Finalized);
      (sent, Ingested(Finalized, sent.deliveries != upserted.deliveries))
  }

  function FullIngest(h: Digest, db: Db, r: Request): (Db, IngestResult) {
    var written := WriteMarkets(UpsertEvent(db, r.spec, r.now), r.spec.id, r.spec.markets, r.now);
    var done := FinalizePasses(written, r.spec, r.now);
    var t := Decide(PreviousState(db, r.spec.id), SpecState(r.spec));
    var sent := Enqueue(h, r.receiver, done, r.spec.id, t);
    (sent, Ingested(t, sent.deliveries != done.deliveries))
  }

  function Ingest(h: Digest, db: Db, r: Request): (Db, IngestResult) {
    if !Accepted(db, r) then (db, Dropped)
    else if FinalizedStable(db, r.spec) then StableIngest(h, db, r)
    else if !DistinctIds(r.spec.markets) then (db, Failed)
    else FullIngest(h, db, r)
  }

  // ---- watchdog, reconcile, backfill ----

  predicate StaleCandidate(db: Db, e: Id, hours: int, now: Time) {
    e in db.events && ComputeStale(db.events[e].status, db.events[e].startTime, hours, now)
  }

  predicate DisappearedCandidate(db: Db, e: Id, hours: int, now: Time) {
    e in db.events && Stuck(db.events[e].status) && !db.events[e].isFinalized
    && db.events[e].lastSeen.Some? && db.events[e].lastSeen.value < now - hours * HOUR
  }

  function AutoVoid(h: Digest, receiver: bool, db: Db, e: Id, now: Time): Db
    requires e in db.events
  {
    var voided := db.(
      events := db.events[e := db.events[e].(status := Canceled, feedLocked := true, isFinalized := false, updated := now)],
      selections := VoidPending(db.markets, db.selections, e, now));
    Enqueue(h, receiver, voided, e, Voided)
  }

  function AutoVoidAll(h: Digest, receiver: bool, db: Db, picked: seq<Id>, now: Time): (r: Db)
    requires forall e <- picked :: e in db.events
    ensures r.events.Keys == db.events.Keys
  {
    if picked == [] then db
    else AutoVoid(h, receiver, AutoVoidAll(h, receiver, db, picked[..|picked| - 1], now), picked[|picked| - 1], now)
  }

  predicate ReconcileTarget(db: Db, e: Id, league: Id, seen: set<Id>, windowStart: Time, windowEnd: Time) {
    e in db.events && e !in seen &&
    var row := db.events[e];
    row.league == league && row.startTime.Some? && windowStart <= row.startTime.value <= windowEnd
    && !row.isFinalized && !row.status.Canceled? && !row.status.Postponed?
  }

  // The clock of a missing event is set to one hour ago; misses do not add up.
  function Reconcile(db: Db, league: Id, seen: set<Id>, windowStart: Time, windowEnd: Time, now: Time): Db {
    db.(events := map e | e in db.events ::
      if ReconcileTarget(db, e, league, seen, windowStart, windowEnd)
      then db.events[e].(lastSeen := Some(now - HOUR), updated := now) else db.events[e])
  }

  function SettleEvents(db: Db, es: seq<Id>, now: Time): (r: Db)
    requires forall e <- es :: e in db.events
    ensures r.events == db.events
  {
    if es == [] then db
    else
      var before, e := SettleEvents(db, es[..|es| - 1], now), es[|es| - 1];
      before.(selections := SettleEvent(before.events[e], before.markets, before.selections, e, now))
  }

  predicate LongDead(db: Db, e: Id, now: Time) {
    e in db.events && (db.events[e].status.Postponed? || db.events[e].status.Canceled?)
    && db.events[e].startTime.Some? && db.events[e].startTime.value < now - 7 * DAY
  }

  function VoidLongDead(db: Db, now: Time): Db {
    db.(selections := map s | s in db.selections ::
      var row := db.selections[s];
      if row.outcome.Pending? && row.market in db.markets && LongDead(db, db.markets[row.market].event, now)
      then Settle(row, Void, Computed, now) else row)
  }

  // ---- the league walk ----

  // A payload of the walk. One that does not normalize is dropped or, if normalizing it raises, failed; id is "" when
  // it has none.
  datatype Arrival = Readable(request: Request) | Unreadable(id: Id, raises: bool)
  {
    function Name(): Id {
      match this
      case Readable(r) => r.spec.id
      case Unreadable(id, _) => id
    }
  }

  function Receive(h: Digest, db: Db, a: Arrival): (Db, IngestResult) {
    match a
    case Readable(r) => Ingest(h, db, r)
    case Unreadable(_, raises) => (db, if raises then Failed else Dropped)
  }

  function IngestAll(h: Digest, db: Db, arrivals: seq<Arrival>): (Db, seq<IngestResult>) {
    if arrivals == [] then (db, [])
    else
      var (before, results) := IngestAll(h, db, arrivals[..|arrivals| - 1]);
      var (after, result) := Receive(h, before, arrivals[|arrivals| - 1]);
      (after, results + [result])
  }

  // Whatever becomes of a payload, its id was seen; "?" stands for a payload without one.
  function SeenIds(arrivals: seq<Arrival>): set<Id> {
    set a | a in arrivals && a.Name() != "" && a.Name() != "?" :: a.Name()
  }

  // ---- runs ----

  // picked is the outcome of the scan query, whose ORDER BY ... LIMIT may leave candidates for the next tick.
  datatype Step =
    | IngestStep(request: Request)
    | StaleStep(hours: int, picked: seq<Id>, now: Time, receiver: bool)
    | DisappearedStep(hours: int, picked: seq<Id>, now: Time, receiver: bool)
    | ReconcileStep(league: Id, seen: set<Id>, windowStart: Time, windowEnd: Time, now: Time)
    | SettlePendingStep(selected: seq<Id>, lookbackHours: int, now: Time)
    | ForceStep(event: Id, nonce: string, now: Time, receiver: bool)
  {
    function At(): Time {
      match this
      case IngestStep(r) => r.now
      case _ => now
    }

    predicate Receives() {
      match this
      case IngestStep(r) => r.receiver
      case StaleStep(_, _, _, rc) => rc
      case DisappearedStep(_, _, _, rc) => rc
      case ReconcileStep(_, _, _, _, _) => true
      case SettlePendingStep(_, _, _) => true
      case ForceStep(_, _, _, rc) => rc
    }
  }

  ghost predicate NoRepeats(picked: seq<Id>) {
    forall i, j :: 0 <= i < j < |picked| ==> picked[i] != picked[j]
  }

  ghost predicate PicksStale(db: Db, picked: seq<Id>, hours: int, now: Time) {
    NoRepeats(picked) && forall e <- picked :: StaleCandidate(db, e, hours, now)
  }

  ghost predicate PicksDisappeared(db: Db, picked: seq<Id>, hours: int, now: Time) {
    NoRepeats(picked) && forall e <- picked :: DisappearedCandidate(db, e, hours, now)
  }

  predicate BackfillCandidate(db: Db, e: Id, lookbackHours: int, now: Time) {
    e in db.events && db.events[e].status.Finished? && db.events[e].updated >= now - lookbackHours * HOUR
  }

  ghost predicate PicksBackfill(db: Db, picked: seq<Id>, lookbackHours: int, now: Time) {
    NoRepeats(picked) && forall e :: e in picked <==> BackfillCandidate(db, e, lookbackHours, now)
  }

  ghost predicate Enabled(db: Db, step: Step) {
    match step
    case IngestStep(_) => true
    case StaleStep(hours, picked, now, _) => hours > 0 && PicksStale(db, picked, hours, now)
    case DisappearedStep(hours, picked, now, _) => hours > 0 && PicksDisappeared(db, picked, hours, now)
    case ReconcileStep(_, _, _, _, _) => true
    case SettlePendingStep(selected, hours, now) => PicksBackfill(db, selected, hours, now)
    case ForceStep(_, _, _, _) => true
  }

  ghost function Next(h: Digest, db: Db, step: Step): Db
    requires Enabled(db, step)
  {
    match step
    case IngestStep(r) => Ingest(h, db, r).0
    case StaleStep(_, picked, now, receiver) => AutoVoidAll(h, receiver, db, picked, now)
    case DisappearedStep(_, picked, now, receiver) => AutoVoidAll(h, receiver, db, picked, now)
    case ReconcileStep(league, seen, from, to, now) => Reconcile(db, league, seen, from, to, now)
    case SettlePendingStep(selected, _, now) => VoidLongDead(SettleEvents(db, selected, now), now)
    case ForceStep(e, nonce, _, receiver) => ForceEnqueue(h, receiver, db, e, nonce)
  }

  /** dbs is a run: dbs[0] is where it starts and steps[i] leads from dbs[i] to dbs[i + 1]. */
  ghost predicate Run(h: Digest, dbs: seq<Db>, steps: seq<Step>) {
    |dbs| == |steps| + 1 &&
    forall i :: 0 <= i < |steps| ==> Enabled(dbs[i], steps[i]) && dbs[i + 1] == Next(h, dbs[i], steps[i])
  }
}
