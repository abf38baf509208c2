/** What the ratings keep: their sum, their distance from the start, their season range, and independence of the
    order in which the events arrive. */
module EloFacts {
  import opened Wrappers
  import opened Domain
  import opened Sorting
  import opened Text
  import opened Elo

  // A logistic expectation lies strictly between losing and winning for certain.
  ghost predicate Logistic(f: Expected) {
    forall x: real, y: real :: 0.0 < f(x, y) < 1.0
  }

  ghost predicate DistinctTeams(order: seq<Id>) {
    forall i, j :: 0 <= i < j < |order| ==> order[i] != order[j]
  }

  ghost predicate Proper(s: State) {
    DistinctTeams(s.order) && forall team :: team in s.order <==> team in s.ratings
  }

  // ---- zero sum ----

  function Sum(order: seq<Id>, ratings: map<Id, Rating>): real
    requires forall team <- order :: team in ratings
  {
    if order == [] then 0.0 else Sum(order[..|order| - 1], ratings) + ratings[order[|order| - 1]].current
  }

  lemma {:induction false} SumElsewhere(order: seq<Id>, ratings: map<Id, Rating>, team: Id, r: Rating)
    requires team !in order && forall t <- order :: t in ratings
    ensures Sum(order, ratings[team := r]) == Sum(order, ratings)
  {
    if order != [] { SumElsewhere(order[..|order| - 1], ratings, team, r); }
  }

  lemma {:induction false} SumMoves(order: seq<Id>, ratings: map<Id, Rating>, team: Id, r: Rating)
    requires team in order && DistinctTeams(order) && forall t <- order :: t in ratings
    ensures Sum(order, ratings[team := r]) == Sum(order, ratings) + r.current - ratings[team].current
  {
    var front, last := order[..|order| - 1], order[|order| - 1];
    assert order == front + [last];
    if last == team { SumElsewhere(front, ratings, team, r); } else { SumMoves(front, ratings, team, r); }
  }

  ghost predicate Balanced(s: State) {
    Proper(s) && Sum(s.order, s.ratings) == INITIAL * |s.order| as real
  }

  lemma EnsuredBalances(s: State, team: Id)
    requires Balanced(s)
    ensures Balanced(Ensured(s, team))
  {
    if team !in s.ratings {
      SumElsewhere(s.order, s.ratings, team, NEWCOMER);
      assert (s.order + [team])[..|s.order|] == s.order;
    }
  }

  lemma MovedSum(s: State, team: Id, delta: real)
    requires Proper(s) && team in s.ratings
    ensures var r := Moved(s, team, delta); Proper(r) && r.order == s.order && Sum(r.order, r.ratings) == Sum(s.order, s.ratings) + delta
  {
    SumMoves(s.order, s.ratings, team, Updated(s.ratings[team], s.ratings[team].current + delta));
  }

  lemma MovedTwice(s: State, home: Id, away: Id, delta: real)
    requires Proper(s) && home in s.ratings && away in s.ratings
    ensures var r := Exchanged(s, home, away, delta); Proper(r) && r.order == s.order && Sum(r.order, r.ratings) == Sum(s.order, s.ratings)
  {
    MovedSum(s, home, delta);
    MovedSum(Moved(s, home, delta), away, -delta);
  }

  lemma ExchangeBalances(s: State, home: Id, away: Id, delta: real)
    requires Balanced(s) && home in s.ratings && away in s.ratings
    ensures Balanced(Exchanged(s, home, away, delta))
  {
    MovedTwice(s, home, away, delta);
  }

  lemma SettledBalances(f: Expected, s: State, m: Match)
    requires Balanced(s) && m.home in s.ratings && m.away in s.ratings
    ensures Balanced(Settled(f, s, m))
  {
    var home, away := s.ratings[m.home].current, s.ratings[m.away].current;
    ExchangeBalances(Remembered(s, m.id, home, away), m.home, m.away, Delta(f, home, away, m.winner));
  }

  lemma AppliedBalances(f: Expected, s: State, m: Match)
    requires Balanced(s)
    ensures Balanced(Applied(f, s, m))
  {
    if Counts(m) {
      EnsuredBalances(s, m.home);
      EnsuredBalances(Ensured(s, m.home), m.away);
      SettledBalances(f, Seated(s, m), m);
    }
  }

  /** After any list of events the ratings sum to 1500 times the number of teams, even if a team meets itself and
      whatever the expectation function. */
  lemma {:induction false} RatingsAreZeroSum(f: Expected, ms: seq<Match>)
    ensures Balanced(Played(f, ms))
  {
    if ms != [] {
      RatingsAreZeroSum(f, ms[..|ms| - 1]);
      AppliedBalances(f, Played(f, ms[..|ms| - 1]), ms[|ms| - 1]);
    }
  }

  // ---- bounds ----

  function Games(ms: seq<Match>, team: Id): nat {
    if ms == [] then 0
    else
      var m := ms[|ms| - 1];
      Games(ms[..|ms| - 1], team) + if m.home != "" && m.away != "" && (m.home == team || m.away == team) then 1 else 0
  }

  predicate InRange(r: Rating) {
    r.low <= r.current <= r.high && r.low <= INITIAL <= r.high
  }

  // The rating of a team, were it asked for now.
  function FullRating(s: State, team: Id): Rating {
    if team in s.ratings then s.ratings[team] else NEWCOMER
  }

  lemma DeltaIsSmall(f: Expected, home: real, away: real, winner: Option<int>)
    requires Logistic(f)
    ensures -K < Delta(f, home, away, winner) < K
    ensures winner == Some(1) ==> Delta(f, home, away, winner) > 0.0
    ensures winner == Some(2) ==> Delta(f, home, away, winner) < 0.0
  {
    assert 0.0 < f(home, away) < 1.0;
  }

  lemma AppliedWidens(f: Expected, s: State, m: Match, team: Id)
    requires InRange(FullRating(s, team))
    ensures
      var a, b := FullRating(s, team), FullRating(Applied(f, s, m), team);
      InRange(b) && b.low <= a.low && a.high <= b.high && (!(Counts(m) && (m.home == team || m.away == team)) ==> a == b)
  {
  }

  lemma AppliedMovesLittle(f: Expected, s: State, m: Match, team: Id)
    requires Logistic(f)
    ensures
      var a, b := FullRating(s, team), FullRating(Applied(f, s, m), team);
      if Counts(m) && (m.home == team || m.away == team) then -K <= b.current - a.current <= K else a == b
  {
    if Counts(m) {
      GainIsExact(f, s, m, team);
      DeltaIsSmall(f, RatingOf(s, m.home), RatingOf(s, m.away), m.winner);
    }
  }

  /** A rating is within 20 points a game of 1500, and between its season low and its season high. */
  lemma {:induction false} RatingStaysNear(f: Expected, ms: seq<Match>, team: Id)
    requires Logistic(f)
    ensures
      var r := FullRating(Played(f, ms), team);
      InRange(r) && -K * Games(ms, team) as real <= r.current - INITIAL <= K * Games(ms, team) as real
  {
    if ms != [] {
      RatingStaysNear(f, ms[..|ms| - 1], team);
      AppliedMovesLittle(f, Played(f, ms[..|ms| - 1]), ms[|ms| - 1], team);
      AppliedWidens(f, Played(f, ms[..|ms| - 1]), ms[|ms| - 1], team);
    }
  }

  /** A won match moves the winner up and the loser down by the same amount, less than 20; a draw moves them towards
      the expectation. */
  lemma WinnerGains(f: Expected, s: State, m: Match)
    requires Logistic(f) && m.home != "" && m.away != "" && m.home != m.away
    ensures
      var r := Applied(f, s, m);
      var home, away := RatingOf(r, m.home) - RatingOf(s, m.home), RatingOf(r, m.away) - RatingOf(s, m.away);
      && home == -away && -K < home < K
      && (m.winner == Some(1) ==> home > 0.0) && (m.winner == Some(2) ==> home < 0.0)
      && (m.winner == Some(3) ==> (home > 0.0 <==> f(RatingOf(s, m.home), RatingOf(s, m.away)) < 0.5))
  {
    var seated := Seated(s, m);
    assert seated.ratings[m.home].current == RatingOf(s, m.home) && seated.ratings[m.away].current == RatingOf(s, m.away);
    DeltaIsSmall(f, RatingOf(s, m.home), RatingOf(s, m.away), m.winner);
  }

  // What the result is worth to the home side: a win 1, a draw or no result a half, a defeat nothing.
  function Worth(winner: Option<int>): real {
    match winner
    case Some(1) => 1.0
    case Some(2) => 0.0
    case _ => 0.5
  }

  /** Exactly, for any expectation: the home side gains twenty times what the result is worth over what was expected of
      the two ratings before, the away side loses it, a team that meets itself ends where it was, every other team stays,
      and the ratings before are remembered for the match. A match that misses a side counts for nothing. */
  lemma GainIsExact(f: Expected, s: State, m: Match, team: Id)
    ensures m.home == "" || m.away == "" ==> Applied(f, s, m) == s
    ensures m.home != "" && m.away != "" ==>
      var r, home, away := Applied(f, s, m), RatingOf(s, m.home), RatingOf(s, m.away);
      var gain := 20.0 * (Worth(m.winner) - f(home, away));
      && RatingOf(r, team) == RatingOf(s, team) + (if team == m.home then gain else 0.0) - (if team == m.away then gain else 0.0)
      && m.id in r.preMatch && r.preMatch[m.id] == (home, away)
  {
    var seated := Seated(s, m);
    assert seated.ratings[m.home].current == RatingOf(s, m.home) && seated.ratings[m.away].current == RatingOf(s, m.away);
  }

  /** The season high and low of a team that never met itself are ratings it had. */
  lemma {:induction false} SeasonRangeIsReached(f: Expected, ms: seq<Match>, team: Id) returns (i: nat, j: nat)
    requires forall m <- ms :: m.home != "" ==> m.home != m.away
    ensures i <= |ms| && FullRating(Played(f, ms), team).high == FullRating(Played(f, ms[..i]), team).current
    ensures j <= |ms| && FullRating(Played(f, ms), team).low == FullRating(Played(f, ms[..j]), team).current
  {
    if ms == [] {
      i, j := 0, 0;
    } else {
      var front, last := ms[..|ms| - 1], ms[|ms| - 1];
      i, j := SeasonRangeIsReached(f, front, team);
      assert front[..i] == ms[..i] && front[..j] == ms[..j] && ms[..|ms|] == ms;
      assert last in ms;
      RangeWidens(f, Played(f, front), last, team);
      if FullRating(Played(f, ms), team).high != FullRating(Played(f, front), team).high { i := |ms|; }
      if FullRating(Played(f, ms), team).low != FullRating(Played(f, front), team).low { j := |ms|; }
    }
  }

  lemma RangeWidens(f: Expected, s: State, m: Match, team: Id)
    requires m.home != "" ==> m.home != m.away
    ensures
      var a, b := FullRating(s, team), FullRating(Applied(f, s, m), team);
      (b.high == a.high || b.high == b.current) && (b.low == a.low || b.low == b.current)
  {
  }

  // ---- order ----

  lemma ChronologyOrders()
    ensures Orders(EarlierOrSame)
  {
    forall a: Match, b: Match ensures EarlierOrSame(a, b) || EarlierOrSame(b, a) { TextOrder(a.id, b.id, a.id); }
    forall a: Match, b: Match, c: Match | EarlierOrSame(a, b) && EarlierOrSame(b, c) ensures EarlierOrSame(a, c) {
      TextOrder(a.id, b.id, c.id);
    }
  }

  ghost predicate DistinctIds(ms: seq<Match>) {
    forall i, j :: 0 <= i < j < |ms| ==> ms[i].id != ms[j].id
  }

  lemma {:induction false} DatedCount(ms: seq<Match>, m: Match)
    ensures multiset(Dated(ms))[m] == if m.start.Some? then multiset(ms)[m] else 0
  {
    if ms != [] {
      DatedCount(ms[1..], m);
      assert ms == [ms[0]] + ms[1..];
    }
  }

  lemma DatedForgetsOrder(a: seq<Match>, b: seq<Match>)
    requires multiset(a) == multiset(b)
    ensures multiset(Dated(a)) == multiset(Dated(b))
  {
    forall m ensures multiset(Dated(a))[m] == multiset(Dated(b))[m] {
      DatedCount(a, m);
      DatedCount(b, m);
    }
  }

  // No two different dated events share start and id.
  ghost predicate NoTies(ms: seq<Match>) {
    forall a <- ms, b <- ms :: a.start.Some? && a.start == b.start && a.id == b.id ==> a == b
  }

  lemma TiesAreSame(ms: seq<Match>, a: Match, b: Match)
    requires NoTies(ms) && a in ms && b in ms && a.start.Some? && b.start.Some? && EarlierOrSame(a, b) && EarlierOrSame(b, a)
    ensures a == b
  {
    TextOrder(a.id, b.id, a.id);
  }

  lemma DatedIn(ms: seq<Match>, m: Match)
    ensures m in Dated(ms) <==> m in ms && m.start.Some?
  {
    DatedCount(ms, m);
    assert m in Dated(ms) <==> multiset(Dated(ms))[m] > 0;
    assert m in ms <==> multiset(ms)[m] > 0;
  }

  lemma DatedIsStrict(ms: seq<Match>)
    requires NoTies(ms)
    ensures Strict(EarlierOrSame, Dated(ms))
  {
    forall a, b | a in Dated(ms) && b in Dated(ms) && EarlierOrSame(a, b) && EarlierOrSame(b, a) ensures a == b {
      DatedIn(ms, a);
      DatedIn(ms, b);
      TiesAreSame(ms, a, b);
    }
  }

  /** Any permutation of the events gives the same state, unless two different ones share start and id. */
  lemma ComputeForgetsOrder(f: Expected, a: seq<Match>, b: seq<Match>)
    requires NoTies(a) && multiset(a) == multiset(b)
    ensures Compute(f, a) == Compute(f, b)
  {
    ChronologyOrders();
    DatedIsStrict(a);
    DatedForgetsOrder(a, b);
    SortForgetsOrder(EarlierOrSame, Dated(a), Dated(b));
  }

  // By start, and by id on one start.
  predicate Earlier(a: Match, b: Match)
    requires a.start.Some? && b.start.Some?
  {
    a.start.value < b.start.value || (a.start.value == b.start.value && TextLe(a.id, b.id))
  }

  /** The season is the fold over all its dated events, each as often as it is there, in the order of start and id. */
  lemma SeasonIsChronological(f: Expected, ms: seq<Match>) returns (rows: seq<Match>)
    ensures Compute(f, ms) == Played(f, rows)
    ensures forall m :: multiset(rows)[m] == if m.start.Some? then multiset(ms)[m] else 0
    ensures forall i, j :: 0 <= i < j < |rows| ==> rows[i].start.Some? && rows[j].start.Some? && Earlier(rows[i], rows[j])
  {
    ChronologyOrders();
    SortSorts(EarlierOrSame, Dated(ms));
    rows := Sort(EarlierOrSame, Dated(ms));
    forall m ensures multiset(rows)[m] == if m.start.Some? then multiset(ms)[m] else 0 { DatedCount(ms, m); }
    forall i, j | 0 <= i < j < |rows| ensures rows[i].start.Some? && rows[j].start.Some? && Earlier(rows[i], rows[j]) {
      assert rows[i] in multiset(rows) && rows[j] in multiset(rows) && EarlierOrSame(rows[i], rows[j]);
    }
  }

  // ---- snapshots ----

  lemma {:induction false} SnapshotStays(f: Expected, rows: seq<Match>, i: nat, n: nat)
    requires i < n <= |rows| && Counts(rows[i]) && DistinctIds(rows)
    ensures rows[i].id in Played(f, rows[..n]).preMatch
    ensures var before := Played(f, rows[..i]);
      Played(f, rows[..n]).preMatch[rows[i].id] == (RatingOf(before, rows[i].home), RatingOf(before, rows[i].away))
    decreases n
  {
    assert rows[..n][..n - 1] == rows[..n - 1];
    if i < n - 1 { SnapshotStays(f, rows, i, n - 1); }
  }

  lemma DistinctStays(ms: seq<Match>, rows: seq<Match>)
    requires DistinctIds(ms) && (forall m <- rows :: m in ms) && forall m <- rows :: multiset(rows)[m] == 1
    ensures DistinctIds(rows)
  {
    forall i, j | 0 <= i < j < |rows| ensures rows[i].id != rows[j].id {
      if rows[i].id == rows[j].id {
        SameIdSame(ms, rows[i], rows[j]);
        Twice(rows, i, j);
      }
    }
  }

  lemma SameIdSame(ms: seq<Match>, a: Match, b: Match)
    requires DistinctIds(ms) && a in ms && b in ms && a.id == b.id
    ensures a == b
  {
    var i :| 0 <= i < |ms| && ms[i] == a;
    var j :| 0 <= j < |ms| && ms[j] == b;
    assert i == j;
  }

  lemma Twice<T>(xs: seq<T>, i: nat, j: nat)
    requires i < j < |xs| && xs[i] == xs[j]
    ensures multiset(xs)[xs[i]] >= 2
  {
    assert xs == xs[..i] + [xs[i]] + xs[i + 1..j] + [xs[j]] + xs[j + 1..];
  }

  lemma {:induction false} OnceEach(ms: seq<Match>, m: Match)
    requires DistinctIds(ms) && m in ms
    ensures multiset(ms)[m] == 1
  {
    assert ms == [ms[0]] + ms[1..];
    if m == ms[0] {
      assert m !in ms[1..];
    } else {
      OnceEach(ms[1..], m);
    }
  }

  lemma SortedRows(ms: seq<Match>) returns (rows: seq<Match>)
    requires DistinctIds(ms)
    ensures rows == Sort(EarlierOrSame, Dated(ms)) && Sorted(EarlierOrSame, rows) && DistinctIds(rows)
    ensures forall m :: m in rows <==> m in ms && m.start.Some?
  {
    ChronologyOrders();
    SortSorts(EarlierOrSame, Dated(ms));
    rows := Sort(EarlierOrSame, Dated(ms));
    forall m ensures m in rows <==> m in ms && m.start.Some? {
      assert m in rows <==> m in multiset(rows);
      DatedIn(ms, m);
    }
    forall m | m in rows ensures multiset(rows)[m] == 1 {
      DatedCount(ms, m);
      OnceEach(ms, m);
    }
    DistinctStays(ms, rows);
  }

  // The dated events before m, in order.
  ghost predicate EarlierThan(ms: seq<Match>, m: Match, earlier: seq<Match>)
    requires m.start.Some?
  {
    && (forall i, j :: 0 <= i < j < |earlier| ==> earlier[i].start.Some? && earlier[j].start.Some? && Earlier(earlier[i], earlier[j]))
    && (forall x :: x in earlier <==> x in ms && x.start.Some? && Earlier(x, m) && x != m)
  }

  lemma RowsBefore(ms: seq<Match>, rows: seq<Match>, i: nat)
    requires DistinctIds(ms) && i < |rows| && Sorted(EarlierOrSame, rows) && DistinctIds(rows) && rows[i].start.Some?
    requires forall m :: m in rows <==> m in ms && m.start.Some?
    ensures EarlierThan(ms, rows[i], rows[..i])
  {
    var earlier := rows[..i];
    forall x ensures x in earlier <==> x in ms && x.start.Some? && Earlier(x, rows[i]) && x != rows[i] {
      EarlierExactly(ms, rows, i, x);
    }
    forall j, k | 0 <= j < k < |earlier| ensures earlier[j].start.Some? && earlier[k].start.Some? && Earlier(earlier[j], earlier[k]) {
      assert earlier[j] in rows && earlier[k] in rows && EarlierOrSame(rows[j], rows[k]);
    }
  }

  /** The snapshot of a past match is the fold over exactly the dated events before it, in the order of start and id:
      events that kick off at the same time count as earlier when their id is smaller. */
  lemma SnapshotIsEarlierFold(f: Expected, ms: seq<Match>, m: Match) returns (earlier: seq<Match>)
    requires DistinctIds(ms) && m in ms && m.start.Some? && m.home != "" && m.away != "" && m.id != ""
    ensures EarlierThan(ms, m, earlier)
    ensures SnapshotAt(Compute(f, ms), m.id, m.home, m.away) == (RatingOf(Played(f, earlier), m.home), RatingOf(Played(f, earlier), m.away))
  {
    var rows := SortedRows(ms);
    var i :| 0 <= i < |rows| && rows[i] == m;
    earlier := rows[..i];
    SnapshotStays(f, rows, i, |rows|);
    assert rows[..|rows|] == rows;
    RowsBefore(ms, rows, i);
  }

  lemma EarlierExactly(ms: seq<Match>, rows: seq<Match>, i: nat, x: Match)
    requires DistinctIds(ms) && i < |rows| && Sorted(EarlierOrSame, rows) && DistinctIds(rows)
    requires forall m :: m in rows <==> m in ms && m.start.Some?
    ensures x in rows[..i] <==> x in ms && x.start.Some? && EarlierOrSame(x, rows[i]) && x != rows[i]
  {
    if x in rows[..i] {
      var j :| 0 <= j < i && rows[j] == x;
      assert EarlierOrSame(rows[j], rows[i]);
    } else if x in rows && x != rows[i] && EarlierOrSame(x, rows[i]) {
      var j :| 0 <= j < |rows| && rows[j] == x;
      assert rows[i] in rows && EarlierOrSame(rows[i], rows[j]);
      forall a, b | a in ms && b in ms && a.id == b.id ensures a == b { SameIdSame(ms, a, b); }
      TiesAreSame(ms, x, rows[i]);
    }
  }

  /** A match is remembered exactly when it was applied; the snapshot of any other match is the ratings now. */
  lemma {:induction false} RememberedExactly(f: Expected, ms: seq<Match>, id: Id, home: Id, away: Id)
    ensures var s := Played(f, ms);
      && (id in s.preMatch <==> exists m <- ms :: m.home != "" && m.away != "" && m.id == id)
      && ((id == "" || !exists m <- ms :: m.home != "" && m.away != "" && m.id == id) ==> SnapshotAt(s, id, home, away) == (RatingOf(s, home), RatingOf(s, away)))
  {
    if ms != [] {
      RememberedExactly(f, ms[..|ms| - 1], id, home, away);
      assert ms == ms[..|ms| - 1] + [ms[|ms| - 1]];
    }
  }
}
