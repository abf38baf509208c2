/** Where an odd ends up, said over oddIDs: which odds pass, which of them share a market, what the selection of each
    carries, and so what a pending event is ingested with. */
module OddsPlacement {
  import opened Wrappers
  import opened Domain
  import opened Text
  import opened Decimals
  import opened Prices
  import opened Taxonomy
  import opened OddsTranslate
  import opened OddsQuotes
  import opened Normalize
  import opened OddsCompiler
  import opened EventTranslate

  // ---- which odds pass ----

  // An id of five parts with a bet type, an entity and a period that the normalizer knows.
  predicate Passes(id: string, p: Parts) {
    && id == OddId(p) && '-' !in p.stat && '-' !in p.entity && '-' !in p.period && '-' !in p.betType && '-' !in p.side
    && p.betType in {"ml", "ml3way", "sp", "ou", "yn", "eo"} && p.entity in {"home", "away", "all", "draw"} && p.period in SCOPES
  }

  lemma {:induction false} JoinOfSplit(s: string, sep: char)
    ensures Join(Split(s, sep), sep) == s
  {
    if s != "" {
      var rest := Split(s[1..], sep);
      JoinOfSplit(s[1..], sep);
      assert s == [s[0]] + s[1..];
      if s[0] == sep {
        assert ([""] + rest)[1..] == rest;
      } else {
        assert ([[s[0]] + rest[0]] + rest[1..])[1..] == rest[1..];
        if |rest| > 1 {
          assert [s[0]] + rest[0] + [sep] + Join(rest[1..], sep) == [s[0]] + (rest[0] + [sep] + Join(rest[1..], sep));
        }
      }
    }
  }

  /** The filters let through exactly these odds. */
  lemma PassesExactly(id: string, p: Parts)
    ensures Admit(id) == Some(p) <==> Passes(id, p)
  {
    if Passes(id, p) {
      assert Free(Fields(p), '-');
      OddIdReadsBack(p);
    }
    if Admit(id) == Some(p) {
      JoinOfSplit(id, '-');
      SplitIsFree(id, '-');
      assert Split(id, '-') == Fields(p);
      assert p.stat in Fields(p) && p.entity in Fields(p) && p.period in Fields(p) && p.betType in Fields(p) && p.side in Fields(p);
    }
  }

  lemma {:induction false} MembersAre(order: seq<string>, rows: map<string, OddRow>, m: Member)
    requires forall id <- order :: id in rows
    ensures m in MembersOf(order, rows) <==>
      OddId(m.parts) in order && Passes(OddId(m.parts), m.parts) && m.odd == rows[OddId(m.parts)]
  {
    if order != [] {
      var front, last := order[..|order| - 1], order[|order| - 1];
      MembersAre(front, rows, m);
      assert order == front + [last];
      PassesExactly(last, m.parts);
      if Admit(last).Some? { PassesExactly(last, Admit(last).value); }
    }
  }

  lemma {:induction false} MembersAreDistinct(order: seq<string>, rows: map<string, OddRow>)
    requires Distinct(order) && forall id <- order :: id in rows
    ensures DistinctParts(MembersOf(order, rows))
  {
    if order != [] {
      var front, last := order[..|order| - 1], order[|order| - 1];
      MembersAreDistinct(front, rows);
      if Admit(last).Some? {
        PassesExactly(last, Admit(last).value);
        var ms := MembersOf(front, rows);
        forall i | 0 <= i < |ms| ensures ms[i].parts != Admit(last).value {
          MembersAre(front, rows, ms[i]);
          assert last !in front;
        }
      }
    }
  }

  // ---- the place of every odd ----

  // Position j of list i.
  predicate Spot(places: seq<seq<string>>, i: int, j: int) {
    0 <= i < |places| && 0 <= j < |places[i]|
  }

  // Two odds of one market: the same stat, period and bet type, for over-unders also the same entity and line text, for
  // yes-no and even-odd the same entity.
  predicate Together(p: Parts, x: OddRow, q: Parts, y: OddRow) {
    && p.stat == q.stat && p.period == q.period && p.betType == q.betType
    && (p.betType == "ou" ==> p.entity == q.entity && x.overUnder.First() == y.overUnder.First())
    && (p.betType == "yn" || p.betType == "eo" ==> p.entity == q.entity)
  }

  // What the market says of every odd in it.
  predicate Describes(m: MarketSpec, p: Parts) {
    var ofTeam := (p.betType == "ou" || p.betType == "yn") && (p.entity == "home" || p.entity == "away")
                  && (p.stat == "points" || p.stat == "goals" || p.stat == "runs");
    && (m.category.PropsTeam? <==> ofTeam)
    && m.side == (if !ofTeam then "" else if p.entity == "home" then "HOME" else "AWAY")
    && (m.category.Moneyline? <==> p.betType == "ml" || p.betType == "ml3way") && (m.category.Spread? <==> p.betType == "sp")
    && (m.category.Total? <==> p.betType == "ou" && !ofTeam)
  }

  // What the selection carries of its odd.
  predicate Carries(m: MarketSpec, s: SelectionSpec, p: Parts, row: OddRow) {
    && s.id == m.id + ":" + p.entity + "-" + p.side && s.rawEntity == p.entity && s.rawSide == p.side
    && (s.kind.Home? <==> p.side == "home") && (s.kind.Away? <==> p.side == "away") && (s.kind.Draw? <==> p.side == "draw")
    && (s.kind.Over? <==> p.side == "over") && (s.kind.Under? <==> p.side == "under")
    && (s.kind.Yes? <==> p.side == "yes") && (s.kind.No? <==> p.side == "no")
    && (s.kind.Even? <==> p.side == "even") && (s.kind.Odd? <==> p.side == "odd")
    && s.price == (if row.fairOdds.Some? && row.fairOdds.value != 0 then AmericanToDecimal(row.fairOdds.value)
                   else if row.bookOdds.Some? then AmericanToDecimal(row.bookOdds.value) else None)
    && s.score == row.score
    && (p.betType == "ou" ==> m.line == LineValueOf(LineFor(p, row)))
  }

  // The lists give the oddID of every selection.
  ghost predicate Fits(places: seq<seq<string>>, specs: seq<MarketSpec>) {
    |places| == |specs| && forall i :: 0 <= i < |specs| ==> |places[i]| == |specs[i].selections|
  }

  // Every odd that passes has one place, and nothing else has one.
  ghost predicate Placed(places: seq<seq<string>>, o: Odds) {
    && (forall i, j :: Spot(places, i, j) ==> places[i][j] in o.order && exists p :: Passes(places[i][j], p))
    && (forall id <- o.order :: (exists p :: Passes(id, p)) ==> exists i, j :: Spot(places, i, j) && places[i][j] == id)
    && (forall i, j, k, l :: Spot(places, i, j) && Spot(places, k, l) && places[i][j] == places[k][l] ==> i == k && j == l)
  }

  function IdsOfGroup(ms: seq<Member>): (ids: seq<string>)
    ensures |ids| == |ms| && forall j :: 0 <= j < |ms| ==> ids[j] == OddId(ms[j].parts)
  {
    seq(|ms|, j requires 0 <= j < |ms| => OddId(ms[j].parts))
  }

  function PlacesOf(g: Groups): (places: seq<seq<string>>)
    requires forall k <- g.order :: k in g.members
    ensures |places| == |g.order| && forall i :: 0 <= i < |places| ==> places[i] == IdsOfGroup(g.members[g.order[i]])
  {
    seq(|g.order|, i requires 0 <= i < |g.order| => IdsOfGroup(g.members[g.order[i]]))
  }

  // The member at a spot.
  function MemberAt(g: Groups, i: int, j: int): Member
    requires 0 <= i < |g.order| && g.order[i] in g.members && 0 <= j < |g.members[g.order[i]]|
  {
    g.members[g.order[i]][j]
  }

  // The groups of a payload, spot by spot.
  ghost predicate Grid(o: Odds, g: Groups)
    requires FeedOrder(o)
  {
    && (forall k <- g.order :: k in g.members) && Distinct(g.order)
    && (forall i, j :: Spot(PlacesOf(g), i, j) ==>
          var m := MemberAt(g, i, j); m in MembersOf(o.order, o.rows) && KeyOf(m) == g.order[i])
    && (forall m <- MembersOf(o.order, o.rows) :: exists i, j :: Spot(PlacesOf(g), i, j) && MemberAt(g, i, j) == m)
    && (forall i, j, l :: Spot(PlacesOf(g), i, j) && Spot(PlacesOf(g), i, l) && MemberAt(g, i, j).parts == MemberAt(g, i, l).parts ==> j == l)
  }

  lemma GroupsAreGrid(o: Odds)
    requires FeedOrder(o) && Distinct(o.order)
    ensures Grid(o, GroupAll(MembersOf(o.order, o.rows)))
  {
    var ms := MembersOf(o.order, o.rows);
    var g := GroupAll(ms);
    GroupsByKey(ms);
    MembersAreDistinct(o.order, o.rows);
    forall i, j | Spot(PlacesOf(g), i, j) ensures MemberAt(g, i, j) in ms && KeyOf(MemberAt(g, i, j)) == g.order[i] {
      OfKeyHolds(ms, g.order[i], MemberAt(g, i, j));
    }
    forall m | m in ms ensures exists i, j :: Spot(PlacesOf(g), i, j) && MemberAt(g, i, j) == m {
      var k := KeyOf(m);
      OfKeyHolds(ms, k, m);
      var i :| 0 <= i < |g.order| && g.order[i] == k;
      var j :| 0 <= j < |g.members[k]| && g.members[k][j] == m;
      assert Spot(PlacesOf(g), i, j) && MemberAt(g, i, j) == m;
    }
    forall i, j, l | Spot(PlacesOf(g), i, j) && Spot(PlacesOf(g), i, l) && MemberAt(g, i, j).parts == MemberAt(g, i, l).parts
      ensures j == l
    {
      OfKeyIsDistinct(ms, g.order[i]);
    }
  }

  // At every spot stands the oddID of a member.
  lemma SpotIs(o: Odds, g: Groups, i: int, j: int) returns (m: Member)
    requires FeedOrder(o) && Grid(o, g) && Spot(PlacesOf(g), i, j)
    ensures m == MemberAt(g, i, j) && KeyOf(m) == g.order[i] && PlacesOf(g)[i][j] == OddId(m.parts)
    ensures OddId(m.parts) in o.order && Passes(OddId(m.parts), m.parts) && m.odd == o.rows[OddId(m.parts)]
  {
    m := MemberAt(g, i, j);
    MembersAre(o.order, o.rows, m);
  }

  lemma PartsAreRead(id: string, p: Parts, q: Parts)
    requires Passes(id, p) && Passes(id, q)
    ensures p == q
  {
    PassesExactly(id, p);
    PassesExactly(id, q);
  }

  lemma OddHasSpot(o: Odds, g: Groups, id: string, p: Parts) returns (i: int, j: int)
    requires FeedOrder(o) && Grid(o, g) && id in o.order && Passes(id, p)
    ensures Spot(PlacesOf(g), i, j) && PlacesOf(g)[i][j] == id
  {
    var m := Member(p, o.rows[id]);
    MembersAre(o.order, o.rows, m);
    i, j :| Spot(PlacesOf(g), i, j) && MemberAt(g, i, j) == m;
  }

  lemma SpotsDiffer(o: Odds, g: Groups, i: int, j: int, k: int, l: int)
    requires FeedOrder(o) && Grid(o, g) && Spot(PlacesOf(g), i, j) && Spot(PlacesOf(g), k, l)
    requires PlacesOf(g)[i][j] == PlacesOf(g)[k][l]
    ensures i == k && j == l
  {
    var m := SpotIs(o, g, i, j);
    var n := SpotIs(o, g, k, l);
    PartsAreRead(PlacesOf(g)[i][j], m.parts, n.parts);
    assert m == n && g.order[i] == g.order[k];
  }

  lemma GridIsPlaced(o: Odds, g: Groups)
    requires FeedOrder(o) && Grid(o, g)
    ensures Placed(PlacesOf(g), o)
  {
    var places := PlacesOf(g);
    forall i, j | Spot(places, i, j) ensures places[i][j] in o.order && exists p :: Passes(places[i][j], p) {
      var m := SpotIs(o, g, i, j);
    }
    forall id | id in o.order && exists p :: Passes(id, p) ensures exists i, j :: Spot(places, i, j) && places[i][j] == id {
      var p :| Passes(id, p);
      var i, j := OddHasSpot(o, g, id, p);
    }
    forall i, j, k, l | Spot(places, i, j) && Spot(places, k, l) && places[i][j] == places[k][l] ensures i == k && j == l {
      SpotsDiffer(o, g, i, j, k, l);
    }
  }

  lemma KeysTellTogether(a: Member, b: Member)
    requires Passes(OddId(a.parts), a.parts) && Passes(OddId(b.parts), b.parts)
    ensures KeyOf(a) == KeyOf(b) <==> Together(a.parts, a.odd, b.parts, b.odd)
  {
  }

  // Two odds stand in one market exactly when they belong together.
  ghost predicate Shared(places: seq<seq<string>>, o: Odds)
    requires FeedOrder(o)
  {
    forall i, j, k, l, p, q ::
      Spot(places, i, j) && Spot(places, k, l) && Passes(places[i][j], p) && Passes(places[k][l], q)
      && places[i][j] in o.order && places[k][l] in o.order ==>
        (i == k <==> Together(p, o.rows[places[i][j]], q, o.rows[places[k][l]]))
  }

  // Every selection carries its odd, and its market describes it.
  ghost predicate Carried(places: seq<seq<string>>, specs: seq<MarketSpec>, o: Odds)
    requires Fits(places, specs) && FeedOrder(o)
  {
    forall i, j, p :: Spot(places, i, j) && Passes(places[i][j], p) && places[i][j] in o.order ==>
      Describes(specs[i], p) && Carries(specs[i], specs[i].selections[j], p, o.rows[places[i][j]])
  }

  lemma GridIsShared(o: Odds, g: Groups)
    requires FeedOrder(o) && Grid(o, g)
    ensures Shared(PlacesOf(g), o)
  {
    var places := PlacesOf(g);
    forall i, j, k, l, p, q |
      Spot(places, i, j) && Spot(places, k, l) && Passes(places[i][j], p) && Passes(places[k][l], q)
      && places[i][j] in o.order && places[k][l] in o.order
      ensures i == k <==> Together(p, o.rows[places[i][j]], q, o.rows[places[k][l]])
    {
      var m := SpotIs(o, g, i, j);
      var n := SpotIs(o, g, k, l);
      PartsAreRead(places[i][j], p, m.parts);
      PartsAreRead(places[k][l], q, n.parts);
      KeysTellTogether(m, n);
    }
  }

  lemma GroupDescribes(event: Id, league: Id, ms: seq<Member>, j: nat)
    requires Buildable(ms) && j < |ms| && KeyOf(ms[j]) == KeyOf(ms[0])
    requires Passes(OddId(ms[0].parts), ms[0].parts) && Passes(OddId(ms[j].parts), ms[j].parts)
    ensures Describes(MarketOf(event, league, ms), ms[j].parts)
  {
    KeysTellTogether(ms[j], ms[0]);
    LowerEntity(ms[0].parts.entity);
  }

  // All odds of an over-under have its line.
  lemma LineOfTotal(event: Id, league: Id, ms: seq<Member>, j: nat)
    requires Buildable(ms) && j < |ms| && ms[j].parts.betType == "ou" && forall m <- ms :: KeyOf(m) == KeyOf(ms[0])
    ensures MarketOf(event, league, ms).line == LineValueOf(LineFor(ms[j].parts, ms[j].odd))
  {
    LineOfMarket(event, league, ms);
    FirstLineIs(ms, "");
    assert ms[j] in ms && ms[0] in ms;
    forall m | m in ms ensures LineFor(m.parts, m.odd) == LineFor(ms[j].parts, ms[j].odd) { assert KeyOf(m) == KeyOf(ms[j]); }
  }

  lemma MemberCarries(market: MarketSpec, m: Member)
    requires m.parts.betType == "ou" ==> market.line == LineValueOf(LineFor(m.parts, m.odd))
    ensures Carries(market, SelectionOf(market.id, m), m.parts, m.odd)
  {
    assert market.id + ":" + SelectionTag(m.parts) == market.id + ":" + m.parts.entity + "-" + m.parts.side;
  }

  lemma SpotIsCarried(event: Id, league: Id, o: Odds, g: Groups, i: int, j: int, p: Parts)
    requires FeedOrder(o) && Grid(o, g) && Sound(g) && Spot(PlacesOf(g), i, j) && Passes(PlacesOf(g)[i][j], p)
    ensures var m := MarketsOf(event, league, g)[i];
      && j < |m.selections| && PlacesOf(g)[i][j] in o.rows
      && Describes(m, p) && Carries(m, m.selections[j], p, o.rows[PlacesOf(g)[i][j]])
  {
    var ms := g.members[g.order[i]];
    var m := SpotIs(o, g, i, j);
    assert Spot(PlacesOf(g), i, 0);
    var first := SpotIs(o, g, i, 0);
    PartsAreRead(PlacesOf(g)[i][j], p, m.parts);
    GroupDescribes(event, league, ms, j);
    if m.parts.betType == "ou" {
      forall a | a in ms ensures KeyOf(a) == KeyOf(ms[0]) { GroupKeys(o, g, i, a); }
      LineOfTotal(event, league, ms, j);
    }
    MemberCarries(MarketOf(event, league, ms), m);
  }

  lemma GroupKeys(o: Odds, g: Groups, i: int, a: Member)
    requires FeedOrder(o) && Grid(o, g) && 0 <= i < |g.order| && a in g.members[g.order[i]]
    ensures KeyOf(a) == g.order[i]
  {
    var ms := g.members[g.order[i]];
    var l :| 0 <= l < |ms| && ms[l] == a;
    assert Spot(PlacesOf(g), i, l) && MemberAt(g, i, l) == a;
  }

  // ---- the line of a spread ----

  // An odd on this side of a spread gives this line.
  ghost predicate LineOn(o: Odds, id: string, side: string, line: PlainDecimal) {
    && id in o.rows && o.rows[id].spread.First() != "" && Parse(o.rows[id].spread.First()) == Some(line)
    && exists p :: Passes(id, p) && p.betType == "sp" && p.side == side
  }

  ghost predicate FirstLineOn(o: Odds, ids: seq<string>, j: int, side: string, line: PlainDecimal) {
    0 <= j < |ids| && LineOn(o, ids[j], side, line) && forall l, x :: 0 <= l < j ==> !LineOn(o, ids[l], side, x)
  }

  ghost predicate NoLineOn(o: Odds, ids: seq<string>, side: string) {
    forall l, x :: 0 <= l < |ids| ==> !LineOn(o, ids[l], side, x)
  }

  // The first line on this side, if there is one.
  ghost predicate LeadsWith(o: Odds, ids: seq<string>, side: string, line: Option<PlainDecimal>) {
    match line
    case None => NoLineOn(o, ids, side)
    case Some(x) => exists j :: FirstLineOn(o, ids, j, side, x)
  }

  // The line is that of home, or else the negated one of away.
  predicate LineIs(line: Option<real>, home: Option<PlainDecimal>, away: Option<PlainDecimal>) {
    && (home.Some? ==> line == Some(Value(home.value)))
    && (home.None? && away.Some? ==> line == Some(-Value(away.value)))
    && (home.None? && away.None? ==> line.None?)
  }

  // The line of a spread is the first one on home, or else the negated first one on away.
  ghost predicate Lined(m: MarketSpec, ids: seq<string>, o: Odds) {
    m.category.Spread? ==>
      exists home, away :: LeadsWith(o, ids, "home", home) && LeadsWith(o, ids, "away", away) && LineIs(m.line, home, away)
  }

  /** The text of a line is the first of its four keys that is there: fair, book, open fair, open book. */
  lemma {:induction false} LineTextIsFirst(l: Lines)
    ensures
      var keys := [l.fair, l.book, l.openFair, l.openBook];
      if l.First() == "" then forall k <- keys :: k == ""
      else exists i :: 0 <= i < 4 && keys[i] == l.First() && forall j :: 0 <= j < i ==> keys[j] == ""
  {
    var keys := [l.fair, l.book, l.openFair, l.openBook];
    assert keys[0] == l.fair && keys[1] == l.book && keys[2] == l.openFair && keys[3] == l.openBook;
  }

  // The member on this side gives this line.
  predicate GivesLine(m: Member, side: string, line: PlainDecimal) {
    m.parts.side == side && LineFor(m.parts, m.odd) == Some(line)
  }

  lemma {:induction false} FirstLineAt(ms: seq<Member>, side: string) returns (j: int)
    requires side != ""
    ensures FirstLine(ms, side).None? ==> forall l, x :: 0 <= l < |ms| ==> !GivesLine(ms[l], side, x)
    ensures FirstLine(ms, side).Some? ==>
      0 <= j < |ms| && GivesLine(ms[j], side, FirstLine(ms, side).value) && forall l, x :: 0 <= l < j ==> !GivesLine(ms[l], side, x)
  {
    j := 0;
    if ms != [] {
      var k := FirstLineAt(ms[1..], side);
      forall l, x | 0 < l < |ms| ensures GivesLine(ms[l], side, x) == GivesLine(ms[1..][l - 1], side, x) {}
      if !(ms[0].parts.side == side && LineFor(ms[0].parts, ms[0].odd).Some?) {
        assert forall x :: !GivesLine(ms[0], side, x);
        j := k + 1;
      }
    }
  }

  lemma {:induction false} LineOnIsGiven(o: Odds, g: Groups, i: int, l: int, side: string, line: PlainDecimal)
    requires FeedOrder(o) && Grid(o, g) && Spot(PlacesOf(g), i, l) && MemberAt(g, i, l).parts.betType == "sp"
    ensures LineOn(o, PlacesOf(g)[i][l], side, line) <==> GivesLine(MemberAt(g, i, l), side, line)
  {
    var m := SpotIs(o, g, i, l);
    if p :| Passes(PlacesOf(g)[i][l], p) && p.betType == "sp" && p.side == side { PartsAreRead(PlacesOf(g)[i][l], p, m.parts); }
  }

  // What the first line on a side is, in the group and in the list of its ids.
  lemma {:induction false} FirstLineIsFound(o: Odds, g: Groups, i: int, side: string)
    requires FeedOrder(o) && Grid(o, g) && 0 <= i < |g.order| && side != "" && forall m <- g.members[g.order[i]] :: m.parts.betType == "sp"
    ensures LeadsWith(o, PlacesOf(g)[i], side, FirstLine(g.members[g.order[i]], side))
  {
    var ms, ids := g.members[g.order[i]], PlacesOf(g)[i];
    var k := FirstLineAt(ms, side);
    forall l, x | 0 <= l < |ids| ensures LineOn(o, ids[l], side, x) <==> GivesLine(ms[l], side, x) {
      assert Spot(PlacesOf(g), i, l);
      LineOnIsGiven(o, g, i, l, side, x);
    }
    if FirstLine(ms, side).Some? { assert FirstLineOn(o, ids, k, side, FirstLine(ms, side).value); }
  }

  lemma {:induction false} CanonicalIs(ms: seq<Member>)
    ensures LineIs(LineValueOf(CanonicalLine("sp", ms)), FirstLine(ms, "home"), FirstLine(ms, "away"))
  {
  }

  lemma {:induction false} SpreadLineIs(event: Id, league: Id, ms: seq<Member>)
    requires Buildable(ms) && ms[0].parts.betType == "sp"
    ensures LineIs(MarketOf(event, league, ms).line, FirstLine(ms, "home"), FirstLine(ms, "away"))
  {
    LineOfMarket(event, league, ms);
    CanonicalIs(ms);
  }

  lemma {:induction false} SpreadIsSp(event: Id, league: Id, ms: seq<Member>)
    requires Buildable(ms)
    ensures MarketOf(event, league, ms).category.Spread? ==> ms[0].parts.betType == "sp"
  {
  }

  lemma {:induction false} SpreadIsLined(event: Id, league: Id, o: Odds, g: Groups, i: int)
    requires FeedOrder(o) && Grid(o, g) && Sound(g) && 0 <= i < |g.order|
    ensures Lined(MarketsOf(event, league, g)[i], PlacesOf(g)[i], o)
  {
    var ms := g.members[g.order[i]];
    SpreadIsSp(event, league, ms);
    if ms[0].parts.betType == "sp" {
      SpreadLineIs(event, league, ms);
      GroupLines(o, g, i);
    }
  }

  lemma {:induction false} GroupLines(o: Odds, g: Groups, i: int)
    requires FeedOrder(o) && Grid(o, g) && Sound(g) && 0 <= i < |g.order| && g.members[g.order[i]][0].parts.betType == "sp"
    ensures LeadsWith(o, PlacesOf(g)[i], "home", FirstLine(g.members[g.order[i]], "home"))
    ensures LeadsWith(o, PlacesOf(g)[i], "away", FirstLine(g.members[g.order[i]], "away"))
  {
    forall a | a in g.members[g.order[i]] ensures a.parts.betType == "sp" { SpreadKeys(o, g, i, a); }
    FirstLineIsFound(o, g, i, "home");
    FirstLineIsFound(o, g, i, "away");
  }

  lemma {:induction false} SpreadKeys(o: Odds, g: Groups, i: int, a: Member)
    requires FeedOrder(o) && Grid(o, g) && Sound(g) && 0 <= i < |g.order|
    requires g.members[g.order[i]][0].parts.betType == "sp" && a in g.members[g.order[i]]
    ensures a.parts.betType == "sp"
  {
    GroupKeys(o, g, i, a);
    GroupKeys(o, g, i, g.members[g.order[i]][0]);
  }

  /** The markets of a payload, as lists of the oddIDs their selections come from: every odd that passes the filters has
      exactly one selection, and there is no other; two of them stand in one market exactly when they agree on stat, period
      and bet type and, for over-unders, on entity and line, for yes-no and even-odd on entity; and each selection carries
      entity, side, price and score of its odd under a market of its category, with the line of its kind. */
  lemma EveryOddIsPlaced(event: Id, league: Id, o: Odds) returns (places: seq<seq<string>>)
    requires FeedOrder(o) && Distinct(o.order)
    ensures Fits(places, MarketSpecs(event, league, o)) && Placed(places, o) && Shared(places, o)
    ensures Carried(places, MarketSpecs(event, league, o), o)
    ensures forall i :: 0 <= i < |places| ==> Lined(MarketSpecs(event, league, o)[i], places[i], o)
  {
    var ms := MembersOf(o.order, o.rows);
    var g := GroupAll(ms);
    AdmittedMembers(o.order, o.rows);
    GroupAllSound(ms);
    GroupsAreGrid(o);
    GridIsPlaced(o, g);
    GridIsShared(o, g);
    places := PlacesOf(g);
    forall i, j, p | Spot(places, i, j) && Passes(places[i][j], p) && places[i][j] in o.order
      ensures var m := MarketsOf(event, league, g)[i]; Describes(m, p) && Carries(m, m.selections[j], p, o.rows[places[i][j]])
    {
      SpotIsCarried(event, league, o, g, i, j, p);
    }
    forall i | 0 <= i < |places| ensures Lined(MarketsOf(event, league, g)[i], places[i], o) { SpreadIsLined(event, league, o, g, i); }
  }

  // ---- what a pending event is ingested with ----

  /** An event that is not settled carries what its books quote; a settled one carries nothing. */
  lemma MarketsOfSpec(e: RawEvent, books: seq<Book>, catalog: EventTranslate.Catalog)
    requires SpecOf(e, books, catalog).Some?
    ensures e.sport in catalog.sports && FeedOrder(Translate(books, catalog.sports[e.sport]))
    ensures
      var s := SpecOf(e, books, catalog).value;
      s.markets == if e.status == "settled" then [] else MarketSpecs(e.id, s.league, Translate(books, catalog.sports[e.sport]))
  {
    var p := PayloadBehind(e, books, catalog);
    TranslatedIdsAreDistinct(books, catalog.sports[e.sport], e.id, "");
  }

  // The selection sells the quote: side and price are its own, and its market is of its bet type and line.
  predicate Sells(m: MarketSpec, s: SelectionSpec, q: Quote) {
    && s.rawEntity == q.parts.entity && s.rawSide == q.parts.side && s.price == Normalized(q.price) && s.score.None?
    && (s.kind.Home? <==> q.parts.side == "home") && (s.kind.Away? <==> q.parts.side == "away") && (s.kind.Draw? <==> q.parts.side == "draw")
    && (s.kind.Over? <==> q.parts.side == "over") && (s.kind.Under? <==> q.parts.side == "under")
    && (m.category.Moneyline? <==> q.parts.betType in {"ml", "ml3way"}) && (m.category.Spread? <==> q.parts.betType == "sp")
    && (m.category.Total? <==> q.parts.betType == "ou") && (m.category.Total? ==> m.line == LineValueOf(q.line))
  }

  // The oddIDs the feed quotes are those of the lists, each once.
  ghost predicate Quoted(places: seq<seq<string>>, qs: seq<Quote>) {
    && (forall i, j :: Spot(places, i, j) ==> First(qs, places[i][j]).Some?)
    && (forall id :: First(qs, id).Some? ==> exists i, j :: Spot(places, i, j) && places[i][j] == id)
    && (forall i, j, k, l :: Spot(places, i, j) && Spot(places, k, l) && places[i][j] == places[k][l] ==> i == k && j == l)
  }

  // Each selection sells the first quote of its oddID.
  ghost predicate Sold(places: seq<seq<string>>, specs: seq<MarketSpec>, qs: seq<Quote>)
    requires Fits(places, specs)
  {
    forall i, j :: Spot(places, i, j) && First(qs, places[i][j]).Some? ==>
      Sells(specs[i], specs[i].selections[j], First(qs, places[i][j]).value)
  }

  // Two quotes stand in one market exactly when they are of one bet type and, for totals, of one line.
  ghost predicate Divided(places: seq<seq<string>>, qs: seq<Quote>) {
    forall i, j, k, l :: Spot(places, i, j) && Spot(places, k, l) && First(qs, places[i][j]).Some? && First(qs, places[k][l]).Some? ==>
      var q, r := First(qs, places[i][j]).value, First(qs, places[k][l]).value;
      i == k <==> q.parts.betType == r.parts.betType && (q.parts.betType == "ou" ==> q.line == r.line)
  }

  lemma QuotePasses(stat: string, o: Odds, qs: seq<Quote>, id: string) returns (p: Parts)
    requires Feed(stat, o, qs) && id in o.order
    ensures id in o.rows && Passes(id, p) && FromQuote(stat, qs, Member(p, o.rows[id])) && First(qs, id).Some? && First(qs, id).value.parts == p
  {
    OddIsAdmitted(stat, o, qs, id);
    p := Admit(id).value;
    PassesExactly(id, p);
  }

  lemma CarriedIsSold(stat: string, o: Odds, qs: seq<Quote>, id: string, m: MarketSpec, s: SelectionSpec)
    requires Feed(stat, o, qs) && id in o.order && id in o.rows
    requires forall p :: Passes(id, p) ==> Describes(m, p) && Carries(m, s, p, o.rows[id])
    ensures First(qs, id).Some? && Sells(m, s, First(qs, id).value)
  {
    var p := QuotePasses(stat, o, qs, id);
    PriceOfQuote(stat, qs, Member(p, o.rows[id]));
    LineReadsBack(stat, qs, Member(p, o.rows[id]));
    assert Describes(m, p) && Carries(m, s, p, o.rows[id]);
  }

  // The line text of an over-under tells its line.
  lemma SameTextSameLine(stat: string, qs: seq<Quote>, a: Member, b: Member)
    requires FromQuote(stat, qs, a) && FromQuote(stat, qs, b) && AllRegular(stat, qs) && a.parts.betType == "ou" && b.parts.betType == "ou"
    ensures
      a.odd.overUnder.First() == b.odd.overUnder.First() <==>
      First(qs, OddId(a.parts)).value.line == First(qs, OddId(b.parts)).value.line
  {
    LineReadsBack(stat, qs, a);
    LineReadsBack(stat, qs, b);
    RenderIsInjective(LineFor(a.parts, a.odd).value, LineFor(b.parts, b.odd).value);
  }

  // Of the ids the translator makes, those of one bet type and one line text belong together.
  lemma ShapesTogether(stat: string, p: Parts, x: OddRow, q: Parts, y: OddRow)
    requires Shape(stat, p) && Shape(stat, q)
    ensures Together(p, x, q, y) <==>
      p.betType == q.betType && (p.betType == "ou" ==> x.overUnder.First() == y.overUnder.First())
  {
  }

  lemma {:induction false} TogetherByLine(stat: string, qs: seq<Quote>, a: Member, b: Member)
    requires FromQuote(stat, qs, a) && FromQuote(stat, qs, b) && AllRegular(stat, qs)
    ensures
      var x, y := First(qs, OddId(a.parts)).value, First(qs, OddId(b.parts)).value;
      Together(a.parts, a.odd, b.parts, b.odd) <==> a.parts.betType == b.parts.betType && (a.parts.betType == "ou" ==> x.line == y.line)
  {
    ShapesTogether(stat, a.parts, a.odd, b.parts, b.odd);
    if a.parts.betType == "ou" && b.parts.betType == "ou" { SameTextSameLine(stat, qs, a, b); }
  }

  lemma {:induction false} TogetherByQuote(stat: string, o: Odds, qs: seq<Quote>, a: string, b: string, p: Parts, q: Parts)
    requires Feed(stat, o, qs) && a in o.order && b in o.order && a in o.rows && b in o.rows && Passes(a, p) && Passes(b, q)
    ensures First(qs, a).Some? && First(qs, b).Some?
    ensures
      var x, y := First(qs, a).value, First(qs, b).value;
      Together(p, o.rows[a], q, o.rows[b]) <==>
        x.parts.betType == y.parts.betType && (x.parts.betType == "ou" ==> x.line == y.line)
  {
    var p' := QuotePasses(stat, o, qs, a);
    var q' := QuotePasses(stat, o, qs, b);
    PartsAreRead(a, p, p');
    PartsAreRead(b, q, q');
    TogetherByLine(stat, qs, Member(p, o.rows[a]), Member(q, o.rows[b]));
  }

  lemma PlacedIsQuoted(stat: string, o: Odds, qs: seq<Quote>, places: seq<seq<string>>)
    requires Feed(stat, o, qs) && Placed(places, o)
    ensures Quoted(places, qs)
  {
    forall i, j | Spot(places, i, j) ensures First(qs, places[i][j]).Some? { var p := QuotePasses(stat, o, qs, places[i][j]); }
    forall id | First(qs, id).Some? ensures exists i, j :: Spot(places, i, j) && places[i][j] == id {
      assert id in o.order;
      var p := QuotePasses(stat, o, qs, id);
    }
  }

  lemma SharedIsDivided(stat: string, o: Odds, qs: seq<Quote>, places: seq<seq<string>>)
    requires Feed(stat, o, qs) && FeedOrder(o) && Placed(places, o) && Shared(places, o)
    ensures Divided(places, qs)
  {
    forall i, j, k, l | Spot(places, i, j) && Spot(places, k, l) && First(qs, places[i][j]).Some? && First(qs, places[k][l]).Some?
      ensures
        var q, r := First(qs, places[i][j]).value, First(qs, places[k][l]).value;
        i == k <==> q.parts.betType == r.parts.betType && (q.parts.betType == "ou" ==> q.line == r.line)
    {
      var p := QuotePasses(stat, o, qs, places[i][j]);
      var q := QuotePasses(stat, o, qs, places[k][l]);
      TogetherByQuote(stat, o, qs, places[i][j], places[k][l], p, q);
    }
  }

  /** An event that is not settled is ingested with everything its books quote and nothing else: every oddID that is
      quoted has exactly one selection, at the normalized price of its first quote; the sides of one moneyline, of one
      spread and of one line of a total stand in one market, and no others do. */
  lemma PendingCarriesQuotes(e: RawEvent, books: seq<Book>, catalog: EventTranslate.Catalog) returns (places: seq<seq<string>>)
    requires SpecOf(e, books, catalog).Some? && e.status != "settled"
    ensures e.sport in catalog.sports && Fits(places, SpecOf(e, books, catalog).value.markets)
    ensures var qs := QuotesOf(books, catalog.sports[e.sport]);
      Quoted(places, qs) && Sold(places, SpecOf(e, books, catalog).value.markets, qs) && Divided(places, qs)
  {
    MarketsOfSpec(e, books, catalog);
    var s, sport := SpecOf(e, books, catalog).value, catalog.sports[e.sport];
    var stat, o, qs := StatOf(sport), Translate(books, sport), QuotesOf(books, sport);
    TranslateCollects(books, sport);
    places := EveryOddIsPlaced(e.id, s.league, o);
    PlacedIsQuoted(stat, o, qs, places);
    SharedIsDivided(stat, o, qs, places);
    forall i, j | Spot(places, i, j) && First(qs, places[i][j]).Some?
      ensures Sells(s.markets[i], s.markets[i].selections[j], First(qs, places[i][j]).value)
    {
      CarriedIsSold(stat, o, qs, places[i][j], s.markets[i], s.markets[i].selections[j]);
    }
  }

  /** So the sides of a moneyline that are quoted stand together: home, draw and away of a three-way one in one market. */
  lemma SidesStandTogether(e: RawEvent, books: seq<Book>, catalog: EventTranslate.Catalog, a: string, b: string)
    requires SpecOf(e, books, catalog).Some? && e.status != "settled" && e.sport in catalog.sports
    requires var qs := QuotesOf(books, catalog.sports[e.sport]);
      && First(qs, a).Some? && First(qs, b).Some? && First(qs, a).value.parts.betType == First(qs, b).value.parts.betType
      && First(qs, a).value.parts.betType in {"ml", "ml3way", "sp"}
    ensures
      var qs, markets := QuotesOf(books, catalog.sports[e.sport]), SpecOf(e, books, catalog).value.markets;
      exists m <- markets, s <- m.selections, t <- m.selections :: Sells(m, s, First(qs, a).value) && Sells(m, t, First(qs, b).value)
  {
    var qs, markets := QuotesOf(books, catalog.sports[e.sport]), SpecOf(e, books, catalog).value.markets;
    var places := PendingCarriesQuotes(e, books, catalog);
    var i, j :| Spot(places, i, j) && places[i][j] == a;
    var k, l :| Spot(places, k, l) && places[k][l] == b;
    assert i == k;
    assert markets[i] in markets && markets[i].selections[j] in markets[i].selections && markets[i].selections[l] in markets[i].selections;
  }
}
