/** Elo ratings of a league: every settled event moves its two teams' ratings by the same amount in opposite
    directions. The ratings are objects that the state shares out and updates in place. */
module Elo {
  import opened Wrappers
  import opened Domain
  import opened Sorting
  import opened Text

  const K := 20.0
  const INITIAL := 1500.0

  // The expected home score of two ratings: any function; the facts about it are hypotheses of the lemmas.
  type Expected = (real, real) -> real

  datatype Match = Match(id: Id, start: Option<Time>, home: Id, away: Id, winner: Option<int>)

  datatype Rating = Rating(current: real, high: real, low: real)
  const NEWCOMER := Rating(INITIAL, INITIAL, INITIAL)

  function Updated(r: Rating, v: real): Rating {
    Rating(v, if v > r.high then v else r.high, if v < r.low then v else r.low)
  }

  // A dict of ratings, its keys in insertion order, and the snapshots taken before each match.
  datatype State = State(order: seq<Id>, ratings: map<Id, Rating>, preMatch: map<Id, (real, real)>)
  const NO_RATINGS := State([], map[], map[])

  function Ensured(s: State, team: Id): State {
    if team in s.ratings then s else s.(order := s.order + [team], ratings := s.ratings[team := NEWCOMER])
  }

  function HomeScore(winner: Option<int>): real {
    if winner == Some(1) then 1.0 else if winner == Some(3) then 0.5 else if winner == Some(2) then 0.0 else 0.5
  }

  function Delta(f: Expected, home: real, away: real, winner: Option<int>): real {
    K * (HomeScore(winner) - f(home, away))
  }

  function Moved(s: State, team: Id, delta: real): State
    requires team in s.ratings
  {
    s.(ratings := s.ratings[team := Updated(s.ratings[team], s.ratings[team].current + delta)])
  }

  predicate Counts(m: Match) {
    m.home != "" && m.away != ""
  }

  function Seated(s: State, m: Match): (r: State)
    ensures m.home in r.ratings && m.away in r.ratings
  {
    Ensured(Ensured(s, m.home), m.away)
  }

  function Exchanged(s: State, home: Id, away: Id, delta: real): State
    requires home in s.ratings && away in s.ratings
  {
    Moved(Moved(s, home, delta), away, -delta)
  }

  function Remembered(s: State, id: Id, home: real, away: real): State {
    s.(preMatch := s.preMatch[id := (home, away)])
  }

  // The match played between two seated teams.
  function Settled(f: Expected, s: State, m: Match): State
    requires m.home in s.ratings && m.away in s.ratings
  {
    var home, away := s.ratings[m.home].current, s.ratings[m.away].current;
    Exchanged(Remembered(s, m.id, home, away), m.home, m.away, Delta(f, home, away, m.winner))
  }

  function Applied(f: Expected, s: State, m: Match): State {
    if Counts(m) then Settled(f, Seated(s, m), m) else s
  }

  function Played(f: Expected, ms: seq<Match>): State {
    if ms == [] then NO_RATINGS else Applied(f, Played(f, ms[..|ms| - 1]), ms[|ms| - 1])
  }

  // ---- chronological order ----

  predicate EarlierOrSame(a: Match, b: Match) {
    var x, y := a.start.GetOr(0), b.start.GetOr(0);
    x < y || (x == y && TextLe(a.id, b.id))
  }

  function Dated(ms: seq<Match>): seq<Match> {
    if ms == [] then [] else (if ms[0].start.Some? then [ms[0]] else []) + Dated(ms[1..])
  }

  function Compute(f: Expected, ms: seq<Match>): State {
    Played(f, Sort(EarlierOrSame, Dated(ms)))
  }

  function RatingOf(s: State, team: Id): real {
    if team in s.ratings then s.ratings[team].current else INITIAL
  }

  // elo_snapshot_at: the snapshot of a past match, the current ratings for any other.
  function SnapshotAt(s: State, id: Id, home: Id, away: Id): (real, real) {
    if id != "" && id in s.preMatch then s.preMatch[id] else (RatingOf(s, home), RatingOf(s, away))
  }

  // ---- the objects ----

  class TeamRating {
    const team: Id
    var current: real
    var high: real
    var low: real

    constructor (team: Id)
      ensures this.team == team && Contents() == NEWCOMER
    {
      this.team := team;
      current, high, low := INITIAL, INITIAL, INITIAL;
    }

    function Contents(): Rating
      reads this
    {
      Rating(current, high, low)
    }

    method Update(v: real)
      modifies this
      ensures Contents() == Updated(old(Contents()), v)
      ensures current == v && low <= v <= high && low <= old(low) && old(high) <= high
    {
      current := v;
      if v > high { high := v; }
      if v < low { low := v; }
    }
  }

  class EloLeagueState {
    var order: seq<Id>
    var ratings: map<Id, TeamRating>
    var preMatch: map<Id, (real, real)>

    constructor ()
      ensures Valid() && Contents() == NO_RATINGS && ratings == map[]
    {
      order, ratings, preMatch := [], map[], map[];
    }

    // No two teams share a rating object.
    ghost predicate Valid()
      reads this
    {
      forall a, b :: a in ratings && b in ratings && a != b ==> ratings[a] != ratings[b]
    }

    ghost function Contents(): State
      reads this, ratings.Values
    {
      State(order, map team | team in ratings :: ratings[team].Contents(), preMatch)
    }

    method RatingFor(team: Id) returns (r: TeamRating)
      requires Valid()
      modifies this
      ensures Valid() && team in ratings && r == ratings[team]
      ensures Contents() == Ensured(old(Contents()), team)
      ensures forall t <- old(ratings) :: t in ratings && ratings[t] == old(ratings)[t]
      ensures fresh(ratings.Values - old(ratings.Values))
    {
      if team !in ratings {
        var newcomer := new TeamRating(team);
        ratings := ratings[team := newcomer];
        order := order + [team];
      }
      r := ratings[team];
    }

    // r.update(r.current + delta) on a rating of this league.
    method Move(team: Id, delta: real)
      requires Valid() && team in ratings
      modifies ratings.Values
      ensures Valid() && Contents() == Moved(old(Contents()), team, delta)
    {
      var r := ratings[team];
      r.Update(r.current + delta);
    }

    method Remember(id: Id, home: real, away: real)
      requires Valid()
      modifies this`preMatch
      ensures Valid() && Contents() == Remembered(old(Contents()), id, home, away)
    {
      preMatch := preMatch[id := (home, away)];
    }

    method Seat(m: Match) returns (home: TeamRating, away: TeamRating)
      requires Valid()
      modifies this
      ensures Valid() && Contents() == Seated(old(Contents()), m)
      ensures m.home in ratings && m.away in ratings && home == ratings[m.home] && away == ratings[m.away]
      ensures fresh(ratings.Values - old(ratings.Values))
    {
      home := RatingFor(m.home);
      away := RatingFor(m.away);
    }

    // Both teams move by the same amount, the winner up and the loser down.
    method Exchange(m: Match, delta: real)
      requires Valid() && m.home in ratings && m.away in ratings
      modifies ratings.Values
      ensures Valid() && Contents() == Exchanged(old(Contents()), m.home, m.away, delta)
    {
      Move(m.home, delta);
      Move(m.away, -delta);
    }

    // The match between two seated teams, on the objects they share.
    method Meet(f: Expected, m: Match, home: TeamRating, away: TeamRating)
      requires Valid() && m.home in ratings && m.away in ratings && home == ratings[m.home] && away == ratings[m.away]
      modifies this`preMatch, ratings.Values
      ensures Valid() && Contents() == Settled(f, old(Contents()), m)
    {
      ghost var seated := Contents();
      var x, y := home.current, away.current;
      assert seated.ratings[m.home].current == x && seated.ratings[m.away].current == y;
      var delta := K * (HomeScore(m.winner) - f(x, y));
      Remember(m.id, x, y);
      assert Contents() == Remembered(seated, m.id, x, y);
      Exchange(m, delta);
    }

    method ApplyEvent(f: Expected, m: Match)
      requires Valid()
      modifies this, ratings.Values
      ensures Valid() && Contents() == Applied(f, old(Contents()), m)
      ensures fresh(ratings.Values - old(ratings.Values))
    {
      if m.home == "" || m.away == "" { return; }
      var home, away := Seat(m);
      Meet(f, m, home, away);
    }
  }

  method ComputeElo(f: Expected, ms: seq<Match>) returns (state: EloLeagueState)
    ensures fresh(state) && state.Valid() && state.Contents() == Compute(f, ms)
  {
    state := new EloLeagueState();
    var rows := Sort(EarlierOrSame, Dated(ms));
    for i := 0 to |rows|
      invariant state.Valid() && fresh(state.ratings.Values)
      invariant state.Contents() == Played(f, rows[..i])
    {
      assert rows[..i + 1][..i] == rows[..i];
      state.ApplyEvent(f, rows[i]);
    }
    assert rows[..|rows|] == rows;
  }
}
