/** League standings: one pass over a season's events fills a bucket per team; two other functions recompute one team
    from its own events. */
module Standings {
  import opened Wrappers
  import opened Domain
  import opened Sorting
  import opened Text

  datatype Game = Game(
    id: Id, start: Option<Time>, home: Option<Id>, away: Option<Id>,
    homeScore: Option<int>, awayScore: Option<int>, winner: Option<int>)

  datatype Line = Line(played: int, wins: int, draws: int, losses: int, goalsFor: int, goalsAgainst: int) {
    function Plus(other: Line): Line {
      Line(played + other.played, wins + other.wins, draws + other.draws, losses + other.losses,
           goalsFor + other.goalsFor, goalsAgainst + other.goalsAgainst)
    }

    function Points(): int {
      3 * wins + draws
    }

    function GoalDifference(): int {
      goalsFor - goalsAgainst
    }
  }
  const ZERO := Line(0, 0, 0, 0, 0, 0)

  function One(b: bool): int {
    if b then 1 else 0
  }

  // ---- the table ----

  // A dict of buckets, its keys in insertion order.
  datatype Table = Table(order: seq<Id>, lines: map<Id, Line>)
  const EMPTY_TABLE := Table([], map[])

  function HomeLine(g: Game): Line {
    Line(1, One(g.winner == Some(1)), One(g.winner == Some(3)), One(g.winner == Some(2)), g.homeScore.GetOr(0), g.awayScore.GetOr(0))
  }

  function AwayLine(g: Game): Line {
    Line(1, One(g.winner == Some(2)), One(g.winner == Some(3)), One(g.winner == Some(1)), g.awayScore.GetOr(0), g.homeScore.GetOr(0))
  }

  function Credited(t: Table, team: Id, line: Line): Table {
    if team in t.lines then t.(lines := t.lines[team := t.lines[team].Plus(line)])
    else Table(t.order + [team], t.lines[team := line])
  }

  predicate Full(g: Game) {
    g.home.Some? && g.away.Some?
  }

  function Tallied(games: seq<Game>): Table {
    if games == [] then EMPTY_TABLE
    else
      var before, g := Tallied(games[..|games| - 1]), games[|games| - 1];
      if Full(g) then Credited(Credited(before, g.home.value, HomeLine(g)), g.away.value, AwayLine(g)) else before
  }

  datatype Row = Row(team: Id, name: string, line: Line)

  // Points, goal difference and goals for, descending; then the name.
  predicate RanksBefore(a: Row, b: Row) {
    var x, y := a.line, b.line;
    if x.Points() != y.Points() then x.Points() > y.Points()
    else if x.GoalDifference() != y.GoalDifference() then x.GoalDifference() > y.GoalDifference()
    else if x.goalsFor != y.goalsFor then x.goalsFor > y.goalsFor
    else TextLe(a.name, b.name)
  }

  function RowsOf(t: Table, order: seq<Id>, nameOf: Id -> string): seq<Row>
    requires forall team <- order :: team in t.lines
  {
    if order == [] then []
    else
      var last := order[|order| - 1];
      RowsOf(t, order[..|order| - 1], nameOf) + [Row(last, nameOf(last), t.lines[last])]
  }

  ghost predicate Proper(t: Table) {
    (forall team :: team in t.order <==> team in t.lines) && forall i, j :: 0 <= i < j < |t.order| ==> t.order[i] != t.order[j]
  }

  lemma CreditedKeys(t: Table, team: Id, line: Line)
    requires Proper(t)
    ensures Proper(Credited(t, team, line))
  {
  }

  lemma {:induction false} TalliedKeys(games: seq<Game>)
    ensures Proper(Tallied(games))
  {
    if games != [] {
      var before, g := Tallied(games[..|games| - 1]), games[|games| - 1];
      TalliedKeys(games[..|games| - 1]);
      if Full(g) {
        CreditedKeys(before, g.home.value, HomeLine(g));
        CreditedKeys(Credited(before, g.home.value, HomeLine(g)), g.away.value, AwayLine(g));
      }
    }
  }

  method ComputeStandings(games: seq<Game>, nameOf: Id -> string) returns (rows: seq<Row>)
    ensures forall team <- Tallied(games).order :: team in Tallied(games).lines
    ensures rows == Sort(RanksBefore, RowsOf(Tallied(games), Tallied(games).order, nameOf))
  {
    var order: seq<Id>, lines: map<Id, Line> := [], map[];
    for i := 0 to |games|
      invariant Table(order, lines) == Tallied(games[..i])
    {
      assert games[..i + 1][..i] == games[..i];
      var g := games[i];
      if g.home.None? || g.away.None? { continue; }
      order, lines := Credit(order, lines, g.home.value, HomeLine(g));
      order, lines := Credit(order, lines, g.away.value, AwayLine(g));
    }
    assert games[..|games|] == games;
    TalliedKeys(games);
    var unsorted: seq<Row> := [];
    for i := 0 to |order|
      invariant unsorted == RowsOf(Tallied(games), order[..i], nameOf)
    {
      assert order[..i + 1][..i] == order[..i];
      unsorted := unsorted + [Row(order[i], nameOf(order[i]), lines[order[i]])];
    }
    assert order[..|order|] == order;
    rows := Sort(RanksBefore, unsorted);
  }

  // The bucket of a team, made on first use, and what a game adds to it.
  method Credit(order: seq<Id>, lines: map<Id, Line>, team: Id, line: Line) returns (order': seq<Id>, lines': map<Id, Line>)
    ensures Table(order', lines') == Credited(Table(order, lines), team, line)
  {
    order', lines' := order, lines;
    if team !in lines' {
      order' := order' + [team];
      lines' := lines'[team := ZERO];
    }
    lines' := lines'[team := lines'[team].Plus(line)];
  }

  // ---- one team ----

  function TeamLine(team: Id, g: Game): Line {
    var isHome := g.home == Some(team);
    var own, other := if isHome then g.homeScore else g.awayScore, if isHome then g.awayScore else g.homeScore;
    var won := (g.winner == Some(1) && isHome) || (g.winner == Some(2) && g.away == Some(team));
    var lost := (g.winner == Some(1) && !isHome) || (g.winner == Some(2) && g.away != Some(team));
    Line(1, One(won), One(g.winner == Some(3)), One(lost), own.GetOr(0), other.GetOr(0))
  }

  function TeamStats(team: Id, games: seq<Game>): Line {
    if games == [] then ZERO else TeamStats(team, games[..|games| - 1]).Plus(TeamLine(team, games[|games| - 1]))
  }

  method TeamSeasonStats(team: Id, games: seq<Game>) returns (line: Line)
    ensures line == TeamStats(team, games)
  {
    var wins, draws, losses, goalsFor, goalsAgainst := 0, 0, 0, 0, 0;
    for i := 0 to |games|
      invariant Line(i, wins, draws, losses, goalsFor, goalsAgainst) == TeamStats(team, games[..i])
    {
      assert games[..i + 1][..i] == games[..i];
      var g := games[i];
      var isHome := g.home == Some(team);
      goalsFor := goalsFor + (if isHome then g.homeScore else g.awayScore).GetOr(0);
      goalsAgainst := goalsAgainst + (if isHome then g.awayScore else g.homeScore).GetOr(0);
      if g.winner == Some(3) {
        draws := draws + 1;
      } else if g.winner == Some(1) {
        if isHome { wins := wins + 1; } else { losses := losses + 1; }
      } else if g.winner == Some(2) {
        if g.away == Some(team) { wins := wins + 1; } else { losses := losses + 1; }
      }
    }
    assert games[..|games|] == games;
    return Line(|games|, wins, draws, losses, goalsFor, goalsAgainst);
  }

  function SideStats(team: Id, games: seq<Game>, atHome: bool): Line {
    if games == [] then ZERO
    else
      var before, g := SideStats(team, games[..|games| - 1], atHome), games[|games| - 1];
      if (g.home == Some(team)) == atHome then before.Plus(TeamLine(team, g)) else before
  }

  method TeamHomeAwaySplit(team: Id, games: seq<Game>) returns (home: Line, away: Line)
    ensures home == SideStats(team, games, true) && away == SideStats(team, games, false)
  {
    home, away := ZERO, ZERO;
    for i := 0 to |games|
      invariant home == SideStats(team, games[..i], true) && away == SideStats(team, games[..i], false)
    {
      assert games[..i + 1][..i] == games[..i];
      var line := TeamLine(team, games[i]);
      if games[i].home == Some(team) { home := home.Plus(line); } else { away := away.Plus(line); }
    }
    assert games[..|games|] == games;
  }

  // ---- before and after a match ----

  // (start, id) of g is before that of the target.
  predicate Precedes(g: Game, target: Game)
    requires g.start.Some? && target.start.Some?
  {
    g.start.value < target.start.value
    || (g.start.value == target.start.value && g.id != target.id && TextLe(g.id, target.id))
  }

  function GoingIn(games: seq<Game>, target: Game): seq<Game>
    requires target.start.Some?
  {
    if games == [] then []
    else
      var before, g := GoingIn(games[..|games| - 1], target), games[|games| - 1];
      if g.start.Some? && Precedes(g, target) then before + [g] else before
  }

  function Through(games: seq<Game>, target: Game): seq<Game>
    requires target.start.Some?
  {
    if games == [] then []
    else
      var before, g := Through(games[..|games| - 1], target), games[|games| - 1];
      if g.start.Some? && (Precedes(g, target) || g.id == target.id) then before + [g] else before
  }

  method SplitSeason(games: seq<Game>, target: Game) returns (goingIn: seq<Game>, through: seq<Game>)
    requires target.start.Some?
    ensures goingIn == GoingIn(games, target) && through == Through(games, target)
  {
    goingIn, through := [], [];
    for i := 0 to |games|
      invariant goingIn == GoingIn(games[..i], target) && through == Through(games[..i], target)
    {
      assert games[..i + 1][..i] == games[..i];
      var g := games[i];
      if g.start.None? { continue; }
      if Precedes(g, target) {
        goingIn := goingIn + [g];
        through := through + [g];
      } else if g.id == target.id {
        through := through + [g];
      }
    }
    assert games[..|games|] == games;
  }

  // The games a team has a part in.
  function GamesOf(team: Id, games: seq<Game>): seq<Game> {
    if games == [] then []
    else
      var before, g := GamesOf(team, games[..|games| - 1]), games[|games| - 1];
      if g.home == Some(team) || g.away == Some(team) then before + [g] else before
  }
}
