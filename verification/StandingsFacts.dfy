/** The table agrees with the per-team recomputations, conserves games, goals and results, and one match moves a
    team's points by 0, 1 or 3. */
module StandingsFacts {
  import opened Wrappers
  import opened Domain
  import opened Sorting
  import opened Text
  import opened Standings

  // Both sides are named, and they are two teams.
  predicate Regular(g: Game) {
    g.home.Some? && g.away.Some? && g.home != g.away
  }

  function LineOf(t: Table, team: Id): Line {
    if team in t.lines then t.lines[team] else ZERO
  }

  lemma CreditedLine(t: Table, team: Id, line: Line, other: Id)
    ensures LineOf(Credited(t, team, line), other) == if other == team then LineOf(t, other).Plus(line) else LineOf(t, other)
  {
  }

  // What a game adds to the table's line of a team.
  function Credit(g: Game, team: Id): Line {
    if !Full(g) then ZERO
    else (if g.home == Some(team) then HomeLine(g) else ZERO).Plus(if g.away == Some(team) then AwayLine(g) else ZERO)
  }

  lemma TalliedStep(games: seq<Game>, team: Id)
    requires games != []
    ensures LineOf(Tallied(games), team) == LineOf(Tallied(games[..|games| - 1]), team).Plus(Credit(games[|games| - 1], team))
  {
    var before, g := Tallied(games[..|games| - 1]), games[|games| - 1];
    if Full(g) {
      CreditedLine(before, g.home.value, HomeLine(g), team);
      CreditedLine(Credited(before, g.home.value, HomeLine(g)), g.away.value, AwayLine(g), team);
    }
  }

  lemma RegularCredit(g: Game, team: Id)
    requires Regular(g)
    ensures Credit(g, team) == if g.home == Some(team) || g.away == Some(team) then TeamLine(team, g) else ZERO
  {
  }

  predicate HasPart(team: Id, g: Game) {
    g.home == Some(team) || g.away == Some(team)
  }

  // A team's line, recomputed from its own games.
  function Own(games: seq<Game>, team: Id): Line {
    TeamStats(team, GamesOf(team, games))
  }

  lemma OwnAppend(games: seq<Game>, g: Game, team: Id)
    ensures GamesOf(team, games + [g]) == if HasPart(team, g) then GamesOf(team, games) + [g] else GamesOf(team, games)
    ensures Own(games + [g], team) == if HasPart(team, g) then Own(games, team).Plus(TeamLine(team, g)) else Own(games, team)
  {
    assert (games + [g])[..|games|] == games;
    var own := GamesOf(team, games);
    assert (own + [g])[..|own|] == own;
  }

  lemma OwnStep(games: seq<Game>, team: Id)
    requires games != []
    ensures var front, g := games[..|games| - 1], games[|games| - 1];
      Own(games, team) == if HasPart(team, g) then Own(front, team).Plus(TeamLine(team, g)) else Own(front, team)
  {
    OwnAppend(games[..|games| - 1], games[|games| - 1], team);
    assert games == games[..|games| - 1] + [games[|games| - 1]];
  }

  lemma TableStep(games: seq<Game>, team: Id)
    requires games != []
    ensures var front, g := games[..|games| - 1], games[|games| - 1];
      team in Tallied(games).lines <==> team in Tallied(front).lines || (Full(g) && HasPart(team, g))
  {
  }

  lemma {:induction false} InTable(games: seq<Game>, team: Id)
    requires forall g <- games :: Regular(g)
    ensures team in Tallied(games).lines <==> GamesOf(team, games) != []
  {
    if games != [] {
      assert games[|games| - 1] in games;
      InTable(games[..|games| - 1], team);
      TableStep(games, team);
    }
  }

  /** Where every game names two teams, the one-pass table lists exactly the teams that played, with the line that
      recomputing the team from its own games gives. */
  lemma {:induction false} TableAgreesWithTeams(games: seq<Game>, team: Id)
    requires forall g <- games :: Regular(g)
    ensures team in Tallied(games).lines <==> GamesOf(team, games) != []
    ensures LineOf(Tallied(games), team) == Own(games, team)
  {
    InTable(games, team);
    if games != [] {
      TableAgreesWithTeams(games[..|games| - 1], team);
      TalliedStep(games, team);
      OwnStep(games, team);
      RegularCredit(games[|games| - 1], team);
    }
  }

  /** The home and away halves of a team add up to its line, whatever the games. */
  lemma {:induction false} SplitAddsUp(team: Id, games: seq<Game>)
    ensures TeamStats(team, games) == SideStats(team, games, true).Plus(SideStats(team, games, false))
  {
    if games != [] { SplitAddsUp(team, games[..|games| - 1]); }
  }

  // The games the team hosts, or the others.
  function Hosted(team: Id, games: seq<Game>, atHome: bool): seq<Game> {
    if games == [] then []
    else
      var before, g := Hosted(team, games[..|games| - 1], atHome), games[|games| - 1];
      if atHome <==> g.home == Some(team) then before + [g] else before
  }

  /** The home half is the line of the games the team hosts, the away half that of the others. */
  lemma {:induction false} HalvesAreHosted(team: Id, games: seq<Game>, atHome: bool)
    ensures SideStats(team, games, atHome) == TeamStats(team, Hosted(team, games, atHome))
  {
    if games != [] {
      var before, g := Hosted(team, games[..|games| - 1], atHome), games[|games| - 1];
      HalvesAreHosted(team, games[..|games| - 1], atHome);
      assert (before + [g])[..|before|] == before;
    }
  }

  ghost predicate AllFull(games: seq<Game>, team: Id) {
    forall g <- GamesOf(team, games) :: g.home.Some? && g.away.Some?
  }

  lemma AllFullStep(games: seq<Game>, team: Id)
    requires games != []
    ensures var front, g := games[..|games| - 1], games[|games| - 1];
      AllFull(games, team) <==> AllFull(front, team) && (HasPart(team, g) ==> Full(g))
  {
    OwnAppend(games[..|games| - 1], games[|games| - 1], team);
    assert games == games[..|games| - 1] + [games[|games| - 1]];
    var own, g := GamesOf(team, games[..|games| - 1]), games[|games| - 1];
    assert forall x :: x in own + [g] <==> x in own || x == g;
  }

  lemma PlayedStep(games: seq<Game>, team: Id)
    requires games != [] && (Full(games[|games| - 1]) ==> games[|games| - 1].home != games[|games| - 1].away)
    ensures
      var front, g := games[..|games| - 1], games[|games| - 1];
      var line := if HasPart(team, g) then TeamLine(team, g) else ZERO;
      && Own(games, team) == Own(front, team).Plus(line)
      && LineOf(Tallied(games), team) == LineOf(Tallied(front), team).Plus(if Full(g) then line else ZERO)
  {
    TalliedStep(games, team);
    OwnStep(games, team);
    if Full(games[|games| - 1]) { RegularCredit(games[|games| - 1], team); }
  }

  // The games a table counts for a team are at most its own, and all of them only if none misses a side.
  lemma {:induction false} PlayedCounts(games: seq<Game>, team: Id)
    requires forall g <- games :: g.home.Some? ==> g.home != g.away
    ensures LineOf(Tallied(games), team).played <= Own(games, team).played
    ensures LineOf(Tallied(games), team).played == Own(games, team).played <==> AllFull(games, team)
    ensures AllFull(games, team) ==> LineOf(Tallied(games), team) == Own(games, team)
  {
    if games != [] {
      var front, g := games[..|games| - 1], games[|games| - 1];
      assert g in games;
      PlayedCounts(front, team);
      PlayedStep(games, team);
      AllFullStep(games, team);
    }
  }

  /** A game that misses a side is left out of the table and yet counted for the team it names: apart from teams that
      meet themselves, table and team agree exactly when every game of the team names both sides. */
  lemma TableAgreesExactly(games: seq<Game>, team: Id)
    requires forall g <- games :: g.home.Some? ==> g.home != g.away
    ensures LineOf(Tallied(games), team) == Own(games, team) <==> AllFull(games, team)
  {
    PlayedCounts(games, team);
  }

  // ---- conservation ----

  function Total(t: Table, order: seq<Id>): Line {
    if order == [] then ZERO else Total(t, order[..|order| - 1]).Plus(LineOf(t, order[|order| - 1]))
  }

  lemma {:induction false} TotalElsewhere(t: Table, order: seq<Id>, team: Id, line: Line)
    requires team !in order
    ensures Total(Credited(t, team, line), order) == Total(t, order)
  {
    if order != [] { TotalElsewhere(t, order[..|order| - 1], team, line); }
  }

  lemma {:induction false} TotalGrows(t: Table, order: seq<Id>, team: Id, line: Line)
    requires team in order && forall i, j :: 0 <= i < j < |order| ==> order[i] != order[j]
    ensures Total(Credited(t, team, line), order) == Total(t, order).Plus(line)
  {
    var front, last := order[..|order| - 1], order[|order| - 1];
    assert order == front + [last];
    CreditedLine(t, team, line, last);
    if last == team { TotalElsewhere(t, front, team, line); } else { TotalGrows(t, front, team, line); }
  }

  lemma CreditedTotal(t: Table, team: Id, line: Line)
    requires Proper(t)
    ensures var r := Credited(t, team, line); Proper(r) && Total(r, r.order) == Total(t, t.order).Plus(line)
  {
    var r := Credited(t, team, line);
    CreditedKeys(t, team, line);
    if team in t.lines {
      TotalGrows(t, t.order, team, line);
    } else {
      TotalElsewhere(t, t.order, team, line);
      assert r.order[..|t.order|] == t.order;
    }
  }

  function CountGames(games: seq<Game>): nat {
    if games == [] then 0
    else var g := games[|games| - 1]; CountGames(games[..|games| - 1]) + if g.home.Some? && g.away.Some? then 1 else 0
  }

  ghost predicate Conserves(total: Line, games: nat) {
    total.goalsFor == total.goalsAgainst && total.wins == total.losses && total.played == 2 * games
  }

  lemma BothCredited(t: Table, g: Game)
    requires Proper(t) && Full(g)
    ensures var r := Credited(Credited(t, g.home.value, HomeLine(g)), g.away.value, AwayLine(g));
      Total(r, r.order) == Total(t, t.order).Plus(HomeLine(g)).Plus(AwayLine(g))
  {
    CreditedTotal(t, g.home.value, HomeLine(g));
    CreditedTotal(Credited(t, g.home.value, HomeLine(g)), g.away.value, AwayLine(g));
  }

  function TotalOf(games: seq<Game>): Line {
    Total(Tallied(games), Tallied(games).order)
  }

  lemma TotalStep(games: seq<Game>)
    requires games != []
    ensures
      var before, g := TotalOf(games[..|games| - 1]), games[|games| - 1];
      TotalOf(games) == if Full(g) then before.Plus(HomeLine(g)).Plus(AwayLine(g)) else before
  {
    var front, g := games[..|games| - 1], games[|games| - 1];
    TalliedKeys(front);
    if Full(g) { BothCredited(Tallied(front), g); }
  }

  /** League-wide, goals for equal goals against, wins equal losses, and twice the games with both sides are played,
      even if a team meets itself. */
  lemma {:induction false} LeagueIsConserved(games: seq<Game>)
    ensures Conserves(TotalOf(games), CountGames(games))
  {
    if games != [] {
      LeagueIsConserved(games[..|games| - 1]);
      TotalStep(games);
    }
  }

  // ---- one more match ----

  function Added(line: Line, team: Id, g: Game): Line {
    if HasPart(team, g) then line.Plus(TeamLine(team, g)) else line
  }

  lemma SplitStep(games: seq<Game>, target: Game, team: Id)
    requires games != [] && target.start.Some?
    ensures
      var front, g := games[..|games| - 1], games[|games| - 1];
      var before, through := Own(GoingIn(front, target), team), Own(Through(front, target), team);
      && Own(GoingIn(games, target), team) == (if g.start.Some? && Precedes(g, target) then Added(before, team, g) else before)
      && Own(Through(games, target), team) ==
           (if g.start.Some? && (Precedes(g, target) || g.id == target.id) then Added(through, team, g) else through)
  {
    var front, g := games[..|games| - 1], games[|games| - 1];
    OwnAppend(GoingIn(front, target), g, team);
    OwnAppend(Through(front, target), g, team);
  }

  // The target is the one game with its id.
  ghost predicate OnlyTarget(games: seq<Game>, target: Game) {
    && (forall i, j :: 0 <= i < j < |games| ==> games[i].id != games[j].id)
    && (forall i :: 0 <= i < |games| && games[i].id == target.id ==> games[i] == target)
  }

  lemma LastIsTarget(games: seq<Game>, target: Game)
    requires games != [] && OnlyTarget(games, target)
    ensures OnlyTarget(games[..|games| - 1], target)
    ensures target in games <==> target in games[..|games| - 1] || games[|games| - 1] == target
    ensures games[|games| - 1].id == target.id ==> games[|games| - 1] == target && target !in games[..|games| - 1]
  {
    assert games == games[..|games| - 1] + [games[|games| - 1]];
  }

  // The step of the next lemma, on the lines alone: b and t are the lines before and after g.
  lemma JoinTarget(team: Id, g: Game, target: Game, inFront: bool, precedes: bool, b: Line, t: Line, b': Line, t': Line)
    requires (g.id == target.id ==> g == target && !inFront && !precedes)
    requires t == if inFront then Added(b, team, target) else b
    requires b' == if precedes then Added(b, team, g) else b
    requires t' == if precedes || (g == target && g.start.Some?) then Added(t, team, g) else t
    ensures t' == if inFront || (g == target && g.start.Some?) then Added(b', team, target) else b'
  {
  }

  // Through is going in, with the target somewhere in it.
  lemma {:induction false} ThroughAddsTarget(games: seq<Game>, target: Game, team: Id)
    requires target.start.Some? && OnlyTarget(games, target)
    ensures var before := Own(GoingIn(games, target), team);
      Own(Through(games, target), team) == if target in games then Added(before, team, target) else before
  {
    if games != [] {
      var front, g := games[..|games| - 1], games[|games| - 1];
      LastIsTarget(games, target);
      ThroughAddsTarget(front, target, team);
      SplitStep(games, target, team);
      JoinTarget(team, g, target, target in front, g.start.Some? && Precedes(g, target),
                 Own(GoingIn(front, target), team), Own(Through(front, target), team),
                 Own(GoingIn(games, target), team), Own(Through(games, target), team));
    }
  }

  // Three for a win, one for a draw.
  function PointsFor(team: Id, g: Game): int {
    if g.winner == Some(3) then 1
    else if (g.winner == Some(1) && g.home == Some(team)) || (g.winner == Some(2) && g.away == Some(team)) then 3
    else 0
  }

  lemma AddedPoints(line: Line, team: Id, g: Game)
    requires HasPart(team, g)
    ensures Added(line, team, g).Points() == line.Points() + PointsFor(team, g) && Added(line, team, g).played == line.played + 1
  {
  }

  /** Adding the target match changes the points of a team that plays in it by 3 if it won, by 1 if the match was
      drawn and by 0 otherwise, and changes no other team's line. */
  lemma PointsDelta(games: seq<Game>, target: Game, team: Id)
    requires target.start.Some? && target in games && OnlyTarget(games, target)
    ensures
      var before, after := Own(GoingIn(games, target), team), Own(Through(games, target), team);
      if HasPart(team, target) then after.Points() - before.Points() == PointsFor(team, target) && after.played == before.played + 1
      else after == before
  {
    ThroughAddsTarget(games, target, team);
    if HasPart(team, target) { AddedPoints(Own(GoingIn(games, target), team), team, target); }
  }

  // ---- the order of the rows ----

  lemma RankingOrders()
    ensures Orders(RanksBefore)
  {
    forall a: Row, b: Row ensures RanksBefore(a, b) || RanksBefore(b, a) { TextOrder(a.name, b.name, a.name); }
    forall a: Row, b: Row, c: Row | RanksBefore(a, b) && RanksBefore(b, c) ensures RanksBefore(a, c) { TextOrder(a.name, b.name, c.name); }
  }

  /** The rows come out ranked, and are the table's lines, one per team. */
  lemma RowsAreRanked(games: seq<Game>, nameOf: Id -> string)
    ensures forall team <- Tallied(games).order :: team in Tallied(games).lines
    ensures
      var t := Tallied(games);
      var rows := Sort(RanksBefore, RowsOf(t, t.order, nameOf));
      Sorted(RanksBefore, rows) && |rows| == |t.order|
      && forall team, line :: Standings.Row(team, nameOf(team), line) in rows <==> team in t.lines && t.lines[team] == line
  {
    var t := Tallied(games);
    TalliedKeys(games);
    RankingOrders();
    var unsorted := RowsOf(t, t.order, nameOf);
    SortSorts(RanksBefore, unsorted);
    RowsList(t, t.order, nameOf);
    var rows := Sort(RanksBefore, unsorted);
    forall r ensures r in rows <==> r in unsorted { assert r in multiset(rows) <==> r in multiset(unsorted); }
  }

  lemma {:induction false} RowsList(t: Table, order: seq<Id>, nameOf: Id -> string)
    requires forall team <- order :: team in t.lines
    ensures |RowsOf(t, order, nameOf)| == |order|
    ensures forall team, line ::
      Standings.Row(team, nameOf(team), line) in RowsOf(t, order, nameOf) <==> team in order && t.lines[team] == line
  {
    if order != [] {
      RowsList(t, order[..|order| - 1], nameOf);
      assert order == order[..|order| - 1] + [order[|order| - 1]];
    }
  }

  // x ranks above y: more points; on level points the better goal difference; then more goals; then the earlier name.
  predicate Above(x: Row, y: Row) {
    var p, q := 3 * x.line.wins + x.line.draws, 3 * y.line.wins + y.line.draws;
    var d, e := x.line.goalsFor - x.line.goalsAgainst, y.line.goalsFor - y.line.goalsAgainst;
    p > q || (p == q && (d > e || (d == e && (x.line.goalsFor > y.line.goalsFor
                                              || (x.line.goalsFor == y.line.goalsFor && TextLe(x.name, y.name))))))
  }

  /** From the top of the table down points do not rise, on level points goal difference does not, on level goal
      difference neither do goals for, and teams level on all of them stand by name. */
  lemma TopComesFirst(games: seq<Game>, nameOf: Id -> string, i: nat, j: nat)
    requires forall team <- Tallied(games).order :: team in Tallied(games).lines
    requires i < j < |RowsOf(Tallied(games), Tallied(games).order, nameOf)|
    ensures var rows := Sort(RanksBefore, RowsOf(Tallied(games), Tallied(games).order, nameOf)); Above(rows[i], rows[j])
  {
    RankingOrders();
    SortSorts(RanksBefore, RowsOf(Tallied(games), Tallied(games).order, nameOf));
    var rows := Sort(RanksBefore, RowsOf(Tallied(games), Tallied(games).order, nameOf));
    assert RanksBefore(rows[i], rows[j]);
  }

  // ---- one game, and one season before a game ----

  /** What one game is to a team in it: its own score for and the other against, missing scores as nothing, and a win, a
      draw or a defeat as the winner code tells, or none of them. */
  lemma OneGame(team: Id, g: Game)
    requires Regular(g) && HasPart(team, g)
    ensures
      var line, own := TeamLine(team, g), if g.home == Some(team) then 1 else 2;
      var (score, other) := if own == 1 then (g.homeScore, g.awayScore) else (g.awayScore, g.homeScore);
      && line.goalsFor == score.GetOr(0) && line.goalsAgainst == other.GetOr(0) && line.played == 1
      && line.wins == (if g.winner == Some(own) then 1 else 0) && line.losses == (if g.winner == Some(3 - own) then 1 else 0)
      && line.draws == if g.winner == Some(3) then 1 else 0
  {
  }

  // Strictly before the target, by start and then by id.
  predicate Sooner(g: Game, target: Game)
    requires target.start.Some?
  {
    g.start.Some? &&
    (g.start.value < target.start.value
     || (g.start.value == target.start.value && g.id != target.id && TextLe(g.id, target.id)))
  }

  /** Going into a match are exactly the dated games before it, as often as they are in the season; through it the target
      as well, and nothing later. */
  lemma {:induction false} GoingInExactly(games: seq<Game>, target: Game, g: Game)
    requires target.start.Some?
    ensures multiset(GoingIn(games, target))[g] == if Sooner(g, target) then multiset(games)[g] else 0
    ensures multiset(Through(games, target))[g] ==
      if Sooner(g, target) || (g.start.Some? && g.id == target.id) then multiset(games)[g] else 0
  {
    if games != [] {
      GoingInExactly(games[..|games| - 1], target, g);
      assert games == games[..|games| - 1] + [games[|games| - 1]];
    }
  }
}
