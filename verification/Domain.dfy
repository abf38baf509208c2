/** Rows of the tables the ingest pipeline writes, and the specs the normalizer hands to it. */
module Domain {
  import opened Wrappers

  type Id = string

  // Points in time and durations, in seconds.
  type Time = int
  const HOUR: Time := 3600
  const DAY: Time := 24 * HOUR

  datatype EventStatus =
    | NotStarted | InProgress | Finished | Postponed | Canceled
    | OtherStatus(text: string)

  // settlement_status and settlement_source of a selection row.
  datatype Outcome = Pending | Won | Lost | Push | Void
  datatype Source = Unset | Computed | Provider | Manual

  datatype SelectionType =
    | Home | Away | Draw | Over | Under | Yes | No | Even | Odd
    | HomeOrDraw | DrawOrAway | HomeOrAway | NoGoal | Custom

  datatype Category = Moneyline | Spread | Total | PropsGame | PropsTeam

  datatype Event = Event(
    league: Id,
    status: EventStatus,
    isFinalized: bool,
    homeScore: Option<int>,
    awayScore: Option<int>,
    winnerCode: Option<int>,
    startTime: Option<Time>,
    feedLocked: bool,
    lastSeen: Option<Time>,
    updated: Time)

  datatype Market = Market(event: Id, category: Category, kind: string, line: Option<real>, side: string)

  // Prices are counted in ten-thousandths, the scale of the Numeric(8, 4) column.
  datatype Selection = Selection(
    market: Id,
    kind: SelectionType,
    price: Option<int>,
    outcome: Outcome,
    source: Source,
    settledAt: Option<Time>)

  datatype BetStatus = BetOpen | BetWon | BetLost | BetPush | BetVoid
  datatype BetKind = MoneylineHome | MoneylineAway | MoneylineDraw | OtherBet
  datatype Bet = Bet(event: Id, kind: BetKind, status: BetStatus)

  datatype SelectionSpec = SelectionSpec(
    id: Id,
    kind: SelectionType,
    price: Option<int>,
    rawEntity: string,
    rawSide: string,
    score: Option<real>)

  // SIDE_TO_SELECTION, with CUSTOM for every other side.
  function SelectionOfSide(side: string): SelectionType {
    if side == "home" then Home else if side == "away" then Away else if side == "draw" then Draw
    else if side == "over" then Over else if side == "under" then Under
    else if side == "yes" then Yes else if side == "no" then No
    else if side == "even" then Even else if side == "odd" then Odd
    else Custom
  }

  datatype MarketSpec = MarketSpec(
    id: Id,
    category: Category,
    kind: string,
    line: Option<real>,
    side: string,
    selections: seq<SelectionSpec>)

  datatype EventSpec = EventSpec(
    id: Id,
    league: Id,
    homeTeam: Id,
    awayTeam: Id,
    status: EventStatus,
    isFinalized: bool,
    homeScore: Option<int>,
    awayScore: Option<int>,
    winnerCode: Option<int>,
    startTime: Time,
    feedLocked: bool,
    markets: seq<MarketSpec>)

  // Rounding half away from zero, on a magnitude.
  function HalfUp(x: real): (n: int)
    ensures n as real - 0.5 <= x < n as real + 0.5
  {
    (x + 0.5).Floor
  }

  // The column line is Numeric(6, 2): PostgreSQL rounds halves away from zero.
  function RoundToCents(x: real): real {
    if x >= 0.0 then HalfUp(x * 100.0) as real / 100.0 else -(HalfUp(-x * 100.0) as real / 100.0)
  }

  function StoredLine(line: Option<real>): Option<real> {
    match line
    case None => None
    case Some(x) => Some(RoundToCents(x))
  }
}
