/** The two graders. PROVIDER reads the per-odd scores of the payload; COMPUTED reads the scores of the
    stored event. The module says when they agree and what a fully graded market looks like. */
module Grading {
  import opened Wrappers
  import opened Domain

  // ---- PROVIDER ----

  // by_side is a dict comprehension: a later selection of the same side replaces an earlier one.
  function BySide(sels: seq<SelectionSpec>, side: string): Option<SelectionSpec> {
    if sels == [] then None
    else
      var last := sels[|sels| - 1];
      if last.rawSide == side then Some(last) else BySide(sels[..|sels| - 1], side)
  }

  type Grades = seq<(Id, Outcome)>

  function ThreeGrades(home: SelectionSpec, away: SelectionSpec, draw: Option<SelectionSpec>, h: Outcome, a: Outcome, d: Outcome): Grades {
    if draw.Some? then [(home.id, h), (away.id, a), (draw.value.id, d)] else [(home.id, h), (away.id, a)]
  }

  function GradeMoneyline(m: MarketSpec): Grades {
    var home, away, draw := BySide(m.selections, "home"), BySide(m.selections, "away"), BySide(m.selections, "draw");
    if home.None? || away.None? || home.value.score.None? || away.value.score.None? then []
    else
      var h, a := home.value.score.value, away.value.score.value;
      if h > a then ThreeGrades(home.value, away.value, draw, Won, Lost, Lost)
      else if a > h then ThreeGrades(home.value, away.value, draw, Lost, Won, Lost)
      else ThreeGrades(home.value, away.value, draw, Lost, Lost, Won)
  }

  function GradeSpread(m: MarketSpec): Grades {
    var home, away := BySide(m.selections, "home"), BySide(m.selections, "away");
    if home.None? || away.None? || home.value.score.None? || away.value.score.None? || m.line.None? then []
    else
      var adjusted := home.value.score.value - away.value.score.value + m.line.value;
      if adjusted > 0.0 then [(home.value.id, Won), (away.value.id, Lost)]
      else if adjusted < 0.0 then [(home.value.id, Lost), (away.value.id, Won)]
      else [(home.value.id, Push), (away.value.id, Push)]
  }

  function GradeTotals(m: MarketSpec): Grades {
    var over, under := BySide(m.selections, "over"), BySide(m.selections, "under");
    if over.None? || under.None? then []
    else
      var score := if over.value.score.Some? then over.value.score else under.value.score;
      if score.None? || m.line.None? then []
      else if score.value > m.line.value then [(over.value.id, Won), (under.value.id, Lost)]
      else if score.value < m.line.value then [(over.value.id, Lost), (under.value.id, Won)]
      else [(over.value.id, Push), (under.value.id, Push)]
  }

  // int() truncates toward zero.
  function Truncate(x: real): int {
    if x >= 0.0 then x.Floor else -((-x).Floor)
  }

  function GradePropsSelection(s: SelectionSpec): Option<Outcome> {
    if s.score.None? then None
    else if s.rawSide == "yes" then Some(if Truncate(s.score.value) != 0 then Won else Lost)
    else if s.rawSide == "no" then Some(if Truncate(s.score.value) == 0 then Won else Lost)
    else if s.rawSide == "even" then Some(if Truncate(s.score.value) % 2 == 0 then Won else Lost)
    else if s.rawSide == "odd" then Some(if Truncate(s.score.value) % 2 != 0 then Won else Lost)
    else None
  }

  function GradePropsGame(sels: seq<SelectionSpec>): Grades {
    if sels == [] then []
    else
      var last := sels[|sels| - 1];
      var rest := GradePropsGame(sels[..|sels| - 1]);
      match GradePropsSelection(last)
      case Some(o) => rest + [(last.id, o)]
      case None => rest
  }

  function GradeMarket(m: MarketSpec): Grades {
    match m.category
    case Moneyline => GradeMoneyline(m)
    case Spread => GradeSpread(m)
    case Total => GradeTotals(m)
    case PropsTeam => GradeTotals(m)
    case PropsGame => GradePropsGame(m.selections)
  }

  // ---- COMPUTED ----

  function WinnerOf(home: int, away: int): int {
    if home > away then 1 else if away > home then 2 else 3
  }

  function OverUnder(kind: SelectionType, score: real, line: real): Option<Outcome> {
    if kind == Over then Some(if score > line then Won else if score < line then Lost else Push)
    else if kind == Under then Some(if score < line then Won else if score > line then Lost else Push)
    else None
  }

  function ComputedMoneyline(e: Event, m: Market, kind: SelectionType): Option<Outcome> {
    if m.kind == "NHL_MATCH_WINNER_REG" || e.winnerCode.None? || !(1 <= e.winnerCode.value <= 3) then None
    else
      var winner := if e.winnerCode.value == 1 then Home else if e.winnerCode.value == 2 then Away else Draw;
      if kind == winner then Some(Won) else if kind.Home? || kind.Away? || kind.Draw? then Some(Lost) else None
  }

  function ComputedTotal(e: Event, m: Market, kind: SelectionType): Option<Outcome> {
    if e.homeScore.None? || e.awayScore.None? || m.line.None? then None
    else OverUnder(kind, (e.homeScore.value + e.awayScore.value) as real, m.line.value)
  }

  function ComputedSpread(e: Event, m: Market, kind: SelectionType): Option<Outcome> {
    if e.homeScore.None? || e.awayScore.None? || m.line.None? then None
    else
      var adjusted := (e.homeScore.value - e.awayScore.value) as real + m.line.value;
      if kind == Home then Some(if adjusted > 0.0 then Won else if adjusted < 0.0 then Lost else Push)
      else if kind == Away then Some(if adjusted < 0.0 then Won else if adjusted > 0.0 then Lost else Push)
      else None
  }

  function ComputedPropsGame(e: Event, m: Market, kind: SelectionType): Option<Outcome> {
    if m.kind in {"SOCCER_BTTS", "NHL_BTTS"} then
      if e.homeScore.None? || e.awayScore.None? then None
      else
        var both := e.homeScore.value > 0 && e.awayScore.value > 0;
        if kind == Yes then Some(if both then Won else Lost)
        else if kind == No then Some(if both then Lost else Won)
        else None
    else if m.kind == "SOCCER_DOUBLE_CHANCE" then
      if e.winnerCode.None? then None
      else
        var w := e.winnerCode.value;
        if kind == HomeOrDraw then Some(if w in {1, 3} then Won else Lost)
        else if kind == DrawOrAway then Some(if w in {2, 3} then Won else Lost)
        else if kind == HomeOrAway then Some(if w in {1, 2} then Won else Lost)
        else None
    else if m.kind == "SOCCER_DRAW_NO_BET" then
      if e.winnerCode.None? then None
      else if e.winnerCode.value == 3 then if kind.Home? || kind.Away? then Some(Push) else None
      else
        var winner := if e.winnerCode.value == 1 then Home else Away;
        if kind == winner then Some(Won) else if kind.Home? || kind.Away? then Some(Lost) else None
    else None
  }

  function ComputedPropsTeam(e: Event, m: Market, kind: SelectionType): Option<Outcome> {
    if m.kind !in {"SOCCER_TEAM_TOTAL_GOALS", "NHL_TEAM_TOTAL_GOALS"} || m.line.None? then None
    else
      var score := if m.side == "HOME" then e.homeScore else if m.side == "AWAY" then e.awayScore else None;
      if score.None? then None else OverUnder(kind, score.value as real, m.line.value)
  }

  function ComputedOutcome(e: Event, m: Market, kind: SelectionType): (o: Option<Outcome>)
    ensures o != Some(Pending) && o != Some(Void)
  {
    match m.category
    case Moneyline => ComputedMoneyline(e, m, kind)
    case Total => ComputedTotal(e, m, kind)
    case Spread => ComputedSpread(e, m, kind)
    case PropsGame => ComputedPropsGame(e, m, kind)
    case PropsTeam => ComputedPropsTeam(e, m, kind)
  }

  // ---- agreement ----

  // The selection rows that the normalizer builds: ids name one side each.
  ghost predicate SidedSpec(m: MarketSpec) {
    && (forall i :: 0 <= i < |m.selections| ==> m.selections[i].kind == SelectionOfSide(m.selections[i].rawSide))
    && (forall i, j :: 0 <= i < j < |m.selections| ==> m.selections[i].id != m.selections[j].id)
  }

  // The per-odd scores repeat the scores of the event: each side carries its own goals, a total carries the sum.
  ghost predicate ScoresMatch(m: MarketSpec, home: int, away: int) {
    forall s <- m.selections :: s.score.Some? ==>
      match m.category
      case Total => s.score.value == (home + away) as real
      case _ => (s.rawSide == "home" ==> s.score.value == home as real) && (s.rawSide == "away" ==> s.score.value == away as real)
  }

  // Storing the line moves it across (or onto) no whole number; every line in quarter steps qualifies.
  predicate LineSurvives(line: Option<real>) {
    line.Some? ==>
      var stored := RoundToCents(line.value);
      stored.Floor as real != stored || stored == line.value
  }

  function RowOf(e: Id, m: MarketSpec): Market {
    Market(e, m.category, m.kind, StoredLine(m.line), m.side)
  }

  lemma {:induction false} BySideFinds(sels: seq<SelectionSpec>, side: string)
    ensures var r := BySide(sels, side);
      && (r.None? <==> forall s <- sels :: s.rawSide != side)
      && (r.Some? ==> r.value in sels && r.value.rawSide == side)
  {
    if sels != [] {
      BySideFinds(sels[..|sels| - 1], side);
      assert sels == sels[..|sels| - 1] + [sels[|sels| - 1]];
    }
  }

  lemma {:induction false} PropsGradesAreOfMembers(sels: seq<SelectionSpec>, g: (Id, Outcome))
    requires g in GradePropsGame(sels)
    ensures g.1.Won? || g.1.Lost?
    ensures exists s <- sels :: s.id == g.0
  {
    var last, front := sels[|sels| - 1], sels[..|sels| - 1];
    if g in GradePropsGame(front) {
      PropsGradesAreOfMembers(front, g);
      var s :| s in front && s.id == g.0;
      assert s in sels;
    } else {
      assert last in sels && last.id == g.0;
    }
  }

  /** Every grade settles, and names a selection of the market it was computed from. */
  lemma GradesAreOfMembers(m: MarketSpec, g: (Id, Outcome))
    requires g in GradeMarket(m)
    ensures g.1.Won? || g.1.Lost? || g.1.Push?
    ensures exists s <- m.selections :: s.id == g.0
  {
    BySideFinds(m.selections, "home");
    BySideFinds(m.selections, "away");
    BySideFinds(m.selections, "draw");
    BySideFinds(m.selections, "over");
    BySideFinds(m.selections, "under");
    if m.category.PropsGame? {
      PropsGradesAreOfMembers(m.selections, g);
    }
  }

  lemma HalfUpIsMonotone(x: real, y: real)
    requires x <= y
    ensures HalfUp(x) <= HalfUp(y)
  {
    var h, k := HalfUp(x), HalfUp(y);
    assert h as real < k as real + 1.0;
  }

  lemma RoundingIsMonotone(x: real, y: real)
    requires x <= y
    ensures RoundToCents(x) <= RoundToCents(y)
  {
    if x >= 0.0 {
      HalfUpIsMonotone(x * 100.0, y * 100.0);
    } else if y < 0.0 {
      HalfUpIsMonotone(-y * 100.0, -x * 100.0);
    } else {
      HalfUpIsMonotone(0.0, -x * 100.0);
      HalfUpIsMonotone(0.0, y * 100.0);
    }
  }

  lemma RoundingFixesIntegers(n: int)
    ensures RoundToCents(n as real) == n as real
  {
    HalfUpOfInteger(if n >= 0 then 100 * n else -100 * n);
    assert (if n >= 0 then n as real * 100.0 else -(n as real) * 100.0) == (if n >= 0 then 100 * n else -100 * n) as real;
  }

  lemma HalfUpOfInteger(n: int)
    ensures HalfUp(n as real) == n
  {
    var h := HalfUp(n as real);
    assert h as real - 0.5 <= n as real < h as real + 0.5;
    assert (h - n) as real == h as real - n as real;
  }

  // n compares with x as it compares with y.
  ghost predicate SameOrder(n: int, x: real, y: real) {
    (n as real < x <==> n as real < y) && (n as real > x <==> n as real > y)
  }

  lemma RoundingKeepsOrder(n: int, line: real)
    requires LineSurvives(Some(line))
    ensures SameOrder(n, line, RoundToCents(line))
  {
    var r := RoundToCents(line);
    if r != line {
      RoundingFixesIntegers(n);
      if n as real <= line { RoundingIsMonotone(n as real, line); } else { RoundingIsMonotone(line, n as real); }
      assert n as real != r by { assert (n as real).Floor == n; }
    }
  }

  /** Comparing a whole number with the stored line answers as comparing it with the line of the payload, for
      every whole number, exactly when the line survives. */
  lemma LineComparisonsSurvive(line: real)
    ensures LineSurvives(Some(line)) <==> forall n: int :: SameOrder(n, line, RoundToCents(line))
  {
    if LineSurvives(Some(line)) {
      forall n: int { RoundingKeepsOrder(n, line); }
    } else {
      assert !SameOrder(RoundToCents(line).Floor, line, RoundToCents(line));
    }
  }

  ghost predicate Decided(e: Event, home: int, away: int) {
    e.homeScore == Some(home) && e.awayScore == Some(away) && e.winnerCode == Some(WinnerOf(home, away))
  }

  ghost predicate Agreeable(e: Event, m: MarketSpec, home: int, away: int) {
    && Decided(e, home, away) && SidedSpec(m) && ScoresMatch(m, home, away) && LineSurvives(m.line)
    && m.category in {Moneyline, Spread, Total} && m.kind != "NHL_MATCH_WINNER_REG"
  }

  lemma SidedIdsAreUnique(m: MarketSpec, s: SelectionSpec, t: SelectionSpec)
    requires SidedSpec(m) && s in m.selections && t in m.selections && s.id == t.id
    ensures s == t && s.kind == SelectionOfSide(s.rawSide)
  {
    var i :| 0 <= i < |m.selections| && m.selections[i] == s;
    var j :| 0 <= j < |m.selections| && m.selections[j] == t;
    assert i == j;
  }

  lemma MoneylineAgrees(e: Event, id: Id, m: MarketSpec, home: int, away: int, s: SelectionSpec, o: Outcome)
    requires Agreeable(e, m, home, away) && m.category.Moneyline?
    requires s in m.selections && (s.id, o) in GradeMoneyline(m)
    ensures ComputedMoneyline(e, RowOf(id, m), s.kind) == Some(o)
  {
    BySideFinds(m.selections, "home");
    BySideFinds(m.selections, "away");
    BySideFinds(m.selections, "draw");
    var h, a, d := BySide(m.selections, "home").value, BySide(m.selections, "away").value, BySide(m.selections, "draw");
    assert h.score.value > a.score.value <==> home > away;
    assert h.score.value < a.score.value <==> home < away;
    if (s.id, o) == GradeMoneyline(m)[0] {
      SidedIdsAreUnique(m, s, h);
    } else if (s.id, o) == GradeMoneyline(m)[1] {
      SidedIdsAreUnique(m, s, a);
    } else {
      SidedIdsAreUnique(m, s, d.value);
    }
  }

  lemma SpreadAgrees(e: Event, id: Id, m: MarketSpec, home: int, away: int, s: SelectionSpec, o: Outcome)
    requires Agreeable(e, m, home, away) && m.category.Spread?
    requires s in m.selections && (s.id, o) in GradeSpread(m)
    ensures ComputedSpread(e, RowOf(id, m), s.kind) == Some(o)
  {
    BySideFinds(m.selections, "home");
    BySideFinds(m.selections, "away");
    forall t | t in m.selections && t.id == s.id { SidedIdsAreUnique(m, s, t); }
    RoundingKeepsOrder(away - home, m.line.value);
  }

  lemma TotalAgrees(e: Event, id: Id, m: MarketSpec, home: int, away: int, s: SelectionSpec, o: Outcome)
    requires Agreeable(e, m, home, away) && m.category.Total?
    requires s in m.selections && (s.id, o) in GradeTotals(m)
    ensures ComputedTotal(e, RowOf(id, m), s.kind) == Some(o)
  {
    BySideFinds(m.selections, "over");
    BySideFinds(m.selections, "under");
    forall t | t in m.selections && t.id == s.id { SidedIdsAreUnique(m, s, t); }
    RoundingKeepsOrder(home + away, m.line.value);
  }

  /** Whatever PROVIDER grades in a full-game moneyline, spread or total, COMPUTED would grade identically. */
  lemma GradersAgree(e: Event, id: Id, m: MarketSpec, home: int, away: int, s: SelectionSpec, o: Outcome)
    requires Agreeable(e, m, home, away)
    requires s in m.selections && (s.id, o) in GradeMarket(m)
    ensures ComputedOutcome(e, RowOf(id, m), s.kind) == Some(o)
  {
    match m.category
    case Moneyline => MoneylineAgrees(e, id, m, home, away, s, o);
    case Spread => SpreadAgrees(e, id, m, home, away, s, o);
    case Total => TotalAgrees(e, id, m, home, away, s, o);
  }

  /** A line that does not survive storage splits the two settlements: some score is a PUSH for COMPUTED only. */
  lemma LostLineSplitsGraders(e: Event, id: Id, m: MarketSpec, over: SelectionSpec, under: SelectionSpec)
    requires m.category.Total? && !LineSurvives(m.line) && m.selections == [over, under] && over.id != under.id
    requires over.rawSide == "over" && over.kind == Over && under.rawSide == "under"
    requires var n := RoundToCents(m.line.value).Floor; Decided(e, n, 0) && over.score == Some(n as real)
    ensures ComputedOutcome(e, RowOf(id, m), over.kind) == Some(Push)
    ensures exists o :: (over.id, o) in GradeMarket(m) && o != Push
  {
    assert m.selections[..1] == [over];
    assert BySide(m.selections, "over") == Some(over) by { assert BySide([over], "over") == Some(over); }
    assert BySide(m.selections, "under") == Some(under);
    var n := RoundToCents(m.line.value).Floor;
    assert n as real == RoundToCents(m.line.value) != m.line.value;
    assert GradeMarket(m)[0] in GradeMarket(m);
  }

  // The last selection of a side.
  ghost predicate LastOfSide(sels: seq<SelectionSpec>, side: string, s: SelectionSpec) {
    exists i :: 0 <= i < |sels| && sels[i] == s && s.rawSide == side && forall j :: i < j < |sels| ==> sels[j].rawSide != side
  }

  lemma {:induction false} BySideIsLast(sels: seq<SelectionSpec>, side: string)
    ensures BySide(sels, side).None? <==> forall s <- sels :: s.rawSide != side
    ensures BySide(sels, side).Some? ==> LastOfSide(sels, side, BySide(sels, side).value)
  {
    BySideFinds(sels, side);
    if sels != [] && sels[|sels| - 1].rawSide != side && BySide(sels, side).Some? {
      var front := sels[..|sels| - 1];
      BySideIsLast(front, side);
      var i :| 0 <= i < |front| && front[i] == BySide(front, side).value && forall j :: i < j < |front| ==> front[j].rawSide != side;
      assert sels[i] == BySide(sels, side).value && forall j :: i < j < |sels| ==> sels[j].rawSide != side;
    }
  }

  function Sign(x: real): Outcome {
    if x > 0.0 then Won else if x < 0.0 then Lost else Push
  }

  /** PROVIDER grades a result market exactly when both its sides are there with what the grade needs: home and away with
      their scores, and the line of a spread; over and under with a score on one of them, and the line. The grades are
      those of the score that is ahead, of the margin with the line, and of the score against the line. */
  lemma ProviderFollowsScores(m: MarketSpec, a: SelectionSpec, b: SelectionSpec)
    requires m.category in {Moneyline, Spread} ==>
      BySide(m.selections, "home") == Some(a) && BySide(m.selections, "away") == Some(b)
    requires m.category in {Total, PropsTeam} ==>
      BySide(m.selections, "over") == Some(a) && BySide(m.selections, "under") == Some(b)
    ensures m.category.Moneyline? && a.score.Some? && b.score.Some? ==>
      var margin, draw := a.score.value - b.score.value, BySide(m.selections, "draw");
      var sides := [(a.id, if margin > 0.0 then Won else Lost), (b.id, if margin < 0.0 then Won else Lost)];
      GradeMarket(m) == if draw.Some? then sides + [(draw.value.id, if margin == 0.0 then Won else Lost)] else sides
    ensures m.category.Spread? && a.score.Some? && b.score.Some? && m.line.Some? ==>
      var margin := a.score.value - b.score.value + m.line.value;
      GradeMarket(m) == [(a.id, Sign(margin)), (b.id, Sign(-margin))]
    ensures m.category in {Moneyline, Spread} && (a.score.None? || b.score.None?) ==> GradeMarket(m) == []
    ensures m.category in {Total, PropsTeam} ==>
      var score := if a.score.Some? then a.score else b.score;
      GradeMarket(m) ==
        if score.None? || m.line.None? then []
        else [(a.id, Sign(score.value - m.line.value)), (b.id, Sign(m.line.value - score.value))]
    ensures m.category.Spread? && m.line.None? ==> GradeMarket(m) == []
  {
  }

  /** And a result market that misses a side is not graded. */
  lemma MissingSideIsUngraded(m: MarketSpec, side: string)
    requires forall s <- m.selections :: s.rawSide != side
    requires (m.category in {Moneyline, Spread} && side in {"home", "away"}) || (m.category in {Total, PropsTeam} && side in {"over", "under"})
    ensures GradeMarket(m) == []
  {
    BySideFinds(m.selections, side);
  }

  /** Of the props every selection is graded on its own. */
  lemma {:induction false} PropsGradesAre(sels: seq<SelectionSpec>, id: Id, o: Outcome)
    ensures (id, o) in GradePropsGame(sels) <==> exists s <- sels :: s.id == id && GradePropsSelection(s) == Some(o)
  {
    if sels != [] {
      PropsGradesAre(sels[..|sels| - 1], id, o);
      assert sels == sels[..|sels| - 1] + [sels[|sels| - 1]];
    }
  }

  function CountWon(g: Grades): nat {
    if g == [] then 0 else (if g[0].1.Won? then 1 else 0) + CountWon(g[1..])
  }

  /** A graded two-sided spread or total is one WON and one LOST, or two PUSHes. */
  lemma TwoSidedBalance(m: MarketSpec)
    requires m.category in {Spread, Total, PropsTeam} && GradeMarket(m) != []
    ensures var g := GradeMarket(m); |g| == 2 && (g[0].1, g[1].1) in {(Won, Lost), (Lost, Won), (Push, Push)}
  {
  }

  /** A graded moneyline has exactly one WON, except that a two-way market on level scores has none: both lose. */
  lemma MoneylineHasOneWinner(m: MarketSpec)
    requires m.category.Moneyline? && GradeMarket(m) != []
    ensures
      var level := BySide(m.selections, "home").value.score == BySide(m.selections, "away").value.score;
      var twoWay := forall s <- m.selections :: s.rawSide != "draw";
      CountWon(GradeMarket(m)) == if level && twoWay then 0 else 1
  {
    BySideFinds(m.selections, "draw");
    var g := GradeMarket(m);
    assert CountWon(g[2..]) == if |g| == 3 && g[2].1.Won? then 1 else 0;
    assert g[1..][1..] == g[2..];
  }

  // ---- COMPUTED in terms of the scores ----

  // Won, lost or level, as a comparison tells it.
  predicate Tells(o: Option<Outcome>, won: bool, lost: bool) {
    o == Some(if won then Won else if lost then Lost else Push)
  }

  predicate TeamTotal(m: Market) {
    m.category.PropsTeam? && m.kind in {"SOCCER_TEAM_TOTAL_GOALS", "NHL_TEAM_TOTAL_GOALS"}
  }

  /** Whatever the winner code says, the result markets settle by the scores: a moneyline by who is ahead, a double
      chance by who is not behind, draw-no-bet with the stake back on a draw, both-teams-to-score by the two scores,
      a team total by the score of the marked side. */
  lemma ResultsFollowScores(e: Event, m: Market, home: int, away: int)
    requires Decided(e, home, away)
    ensures m.category.Moneyline? && m.kind != "NHL_MATCH_WINNER_REG" ==>
      && Tells(ComputedOutcome(e, m, Home), home > away, home <= away)
      && Tells(ComputedOutcome(e, m, Away), away > home, away <= home)
      && Tells(ComputedOutcome(e, m, Draw), home == away, home != away)
    ensures m.category.PropsGame? && m.kind == "SOCCER_DOUBLE_CHANCE" ==>
      && Tells(ComputedOutcome(e, m, HomeOrDraw), home >= away, home < away)
      && Tells(ComputedOutcome(e, m, DrawOrAway), away >= home, away < home)
      && Tells(ComputedOutcome(e, m, HomeOrAway), home != away, home == away)
    ensures m.category.PropsGame? && m.kind == "SOCCER_DRAW_NO_BET" ==>
      && Tells(ComputedOutcome(e, m, Home), home > away, home < away)
      && Tells(ComputedOutcome(e, m, Away), away > home, away < home)
    ensures m.category.PropsGame? && m.kind in {"SOCCER_BTTS", "NHL_BTTS"} ==>
      && Tells(ComputedOutcome(e, m, Yes), home > 0 && away > 0, home <= 0 || away <= 0)
      && Tells(ComputedOutcome(e, m, No), home <= 0 || away <= 0, home > 0 && away > 0)
    ensures TeamTotal(m) && m.line.Some? && m.side in {"HOME", "AWAY"} ==>
      var score := (if m.side == "HOME" then home else away) as real;
      && Tells(ComputedOutcome(e, m, Over), score > m.line.value, score < m.line.value)
      && Tells(ComputedOutcome(e, m, Under), score < m.line.value, score > m.line.value)
    ensures m.category.Total? && m.line.Some? ==>
      var sum := (home + away) as real;
      && Tells(ComputedOutcome(e, m, Over), sum > m.line.value, sum < m.line.value)
      && Tells(ComputedOutcome(e, m, Under), sum < m.line.value, sum > m.line.value)
    ensures m.category.Spread? && m.line.Some? ==>
      var margin := (home - away) as real + m.line.value;
      && Tells(ComputedOutcome(e, m, Home), margin > 0.0, margin < 0.0)
      && Tells(ComputedOutcome(e, m, Away), margin < 0.0, margin > 0.0)
  {
    var goals, chance, noBet := {"SOCCER_TEAM_TOTAL_GOALS", "NHL_TEAM_TOTAL_GOALS"}, "SOCCER_DOUBLE_CHANCE", "SOCCER_DRAW_NO_BET";
    assert |"SOCCER_BTTS"| == 11 && |"NHL_BTTS"| == 8 && |chance| == 20 && |noBet| == 18;
  }

  predicate Scored(e: Event) {
    e.homeScore.Some? && e.awayScore.Some?
  }

  /** What COMPUTED can decide, whatever is stored: a side of a moneyline with a winner code of 1 to 3; a side of a spread
      or total with line and both scores; both-teams-to-score with both scores; a double chance or draw-no-bet with any
      winner code; a team total with line and the score of its marked side. */
  lemma DecidesExactly(e: Event, m: Market, kind: SelectionType)
    ensures ComputedOutcome(e, m, kind).Some? <==>
      match m.category
      case Moneyline =>
        m.kind != "NHL_MATCH_WINNER_REG" && e.winnerCode in {Some(1), Some(2), Some(3)} && (kind.Home? || kind.Away? || kind.Draw?)
      case Spread => Scored(e) && m.line.Some? && (kind.Home? || kind.Away?)
      case Total => Scored(e) && m.line.Some? && (kind.Over? || kind.Under?)
      case PropsGame =>
        || (m.kind in {"SOCCER_BTTS", "NHL_BTTS"} && Scored(e) && (kind.Yes? || kind.No?))
        || (m.kind == "SOCCER_DOUBLE_CHANCE" && e.winnerCode.Some? && (kind.HomeOrDraw? || kind.DrawOrAway? || kind.HomeOrAway?))
        || (m.kind == "SOCCER_DRAW_NO_BET" && e.winnerCode.Some? && (kind.Home? || kind.Away?))
      case PropsTeam =>
        && m.kind in {"SOCCER_TEAM_TOTAL_GOALS", "NHL_TEAM_TOTAL_GOALS"} && m.line.Some? && (kind.Over? || kind.Under?)
        && ((m.side == "HOME" && e.homeScore.Some?) || (m.side == "AWAY" && e.awayScore.Some?))
  {
    assert |"SOCCER_BTTS"| == 11 && |"NHL_BTTS"| == 8 && |"SOCCER_DOUBLE_CHANCE"| == 20 && |"SOCCER_DRAW_NO_BET"| == 18;
  }

  lemma TruncateWhole(n: int)
    ensures Truncate(n as real) == n
  {
    if n < 0 { assert -(n as real) == (-n) as real; }
  }

  /** On both-teams-to-score a per-odd score of one or nothing grades as the two scores of the event compute. */
  lemma BothTeamsAgree(e: Event, id: Id, m: MarketSpec, home: int, away: int, s: SelectionSpec)
    requires Decided(e, home, away) && m.category.PropsGame? && m.kind in {"SOCCER_BTTS", "NHL_BTTS"}
    requires s.rawSide in {"yes", "no"} && s.kind == SelectionOfSide(s.rawSide)
    requires s.score == Some((if home > 0 && away > 0 then 1 else 0) as real)
    ensures GradePropsSelection(s) == ComputedOutcome(e, RowOf(id, m), s.kind)
  {
    TruncateWhole(if home > 0 && away > 0 then 1 else 0);
    ResultsFollowScores(e, RowOf(id, m), home, away);
  }

  /** Even and odd follow the parity of the whole score, negative ones included, and never both win. */
  lemma EvenOddFollowsScore(even: SelectionSpec, odd: SelectionSpec, score: int)
    requires even.rawSide == "even" && odd.rawSide == "odd" && even.score == odd.score == Some(score as real)
    ensures GradePropsSelection(even) == Some(if score % 2 == 0 then Won else Lost)
    ensures GradePropsSelection(odd) == Some(if score % 2 == 0 then Lost else Won)
  {
    TruncateWhole(score);
  }
}
