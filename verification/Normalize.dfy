/** The normalizer: an oddID-keyed dict of odds becomes markets with selections. It takes any dict, not only the
    translator's. */
module Normalize {
  import opened Wrappers
  import opened Domain
  import opened Text
  import opened Decimals
  import opened Prices
  import opened Taxonomy
  import opened OddsTranslate

  datatype Member = Member(parts: Parts, odd: OddRow)

  // The group key of a bet type; the fields a bet type does not use are "".
  datatype GroupKey = GroupKey(stat: string, period: string, kind: string, entity: string, line: string)

  // A dict of lists: its keys in insertion order, and the members of each.
  datatype Groups = Groups(order: seq<GroupKey>, members: map<GroupKey, seq<Member>>)
  const NO_GROUPS := Groups([], map[])

  // ---- filters and grouping ----

  function Admit(id: string): Option<Parts> {
    match ParseOddId(id)
    case None => None
    case Some(p) =>
      if CategoryOf(p.betType).Some? && p.entity in {"home", "away", "all", "draw"} && p.period in SCOPES then Some(p) else None
  }

  function KeyOf(m: Member): GroupKey {
    var p := m.parts;
    if p.betType == "ou" then GroupKey(p.stat, p.period, "ou", p.entity, m.odd.overUnder.First())
    else if p.betType == "yn" || p.betType == "eo" then GroupKey(p.stat, p.period, p.betType, p.entity, "")
    else GroupKey(p.stat, p.period, p.betType, "", "")
  }

  function Grouped(g: Groups, m: Member): Groups {
    var k := KeyOf(m);
    if k in g.members then g.(members := g.members[k := g.members[k] + [m]])
    else Groups(g.order + [k], g.members[k := [m]])
  }

  // The members that pass the filters, in payload order.
  function MembersOf(order: seq<string>, rows: map<string, OddRow>): seq<Member>
    requires forall id <- order :: id in rows
  {
    if order == [] then []
    else
      var front, last := MembersOf(order[..|order| - 1], rows), order[|order| - 1];
      match Admit(last)
      case Some(p) => front + [Member(p, rows[last])]
      case None => front
  }

  function GroupAll(ms: seq<Member>): Groups {
    if ms == [] then NO_GROUPS else Grouped(GroupAll(ms[..|ms| - 1]), ms[|ms| - 1])
  }

  // ---- one market ----

  function LineFor(p: Parts, odd: OddRow): Option<PlainDecimal> {
    var text := if p.betType == "sp" then odd.spread.First() else if p.betType == "ou" then odd.overUnder.First() else "";
    if text == "" then None else Parse(text)
  }

  function FirstLine(ms: seq<Member>, side: string): Option<PlainDecimal> {
    if ms == [] then None
    else if (side == "" || ms[0].parts.side == side) && LineFor(ms[0].parts, ms[0].odd).Some? then LineFor(ms[0].parts, ms[0].odd)
    else FirstLine(ms[1..], side)
  }

  // The home line of a spread, else the negated away line; the first line of a total.
  function CanonicalLine(betType: string, ms: seq<Member>): Option<PlainDecimal> {
    if betType == "sp" then
      if FirstLine(ms, "home").Some? then FirstLine(ms, "home")
      else match FirstLine(ms, "away")
        case Some(v) => Some(Negated(v))
        case None => None
    else if betType == "ou" then FirstLine(ms, "")
    else None
  }

  predicate TeamMarket(p: Parts) {
    p.betType in {"ou", "yn"} && p.entity in {"home", "away"} && p.stat in {"points", "goals", "runs"}
  }

  function SideMarker(p: Parts): string {
    if TeamMarket(p) then Upper(p.entity) else ""
  }

  function Present(s: string): seq<string> {
    if s == "" then [] else [s]
  }

  // What follows the event id in a market id.
  function IdTail(p: Parts, scope: string, line: Option<PlainDecimal>, side: string): (parts: seq<string>)
    ensures |parts| >= 2
  {
    [p.betType, ScopeSlug(scope)] + Present(Lower(p.stat)) + Present(Lower(p.entity))
    + (match line case Some(d) => [Slug(d)] case None => []) + Present(Lower(side))
  }

  function MarketId(event: Id, p: Parts, scope: string, line: Option<PlainDecimal>, side: string): Id {
    Join([event] + IdTail(p, scope, line, side), '-')
  }

  function SelectionTag(p: Parts): string {
    p.entity + "-" + p.side
  }

  function PriceOf(odd: OddRow): Option<int> {
    var fair := match odd.fairOdds case Some(n) => AmericanToDecimal(n) case None => None;
    if fair.Some? then fair else match odd.bookOdds case Some(n) => AmericanToDecimal(n) case None => None
  }

  function SelectionOf(market: Id, m: Member): SelectionSpec {
    SelectionSpec(market + ":" + SelectionTag(m.parts), SelectionOfSide(m.parts.side), PriceOf(m.odd),
                  m.parts.entity, m.parts.side, m.odd.score)
  }

  function SelectionsOf(market: Id, ms: seq<Member>): (sels: seq<SelectionSpec>)
    ensures |sels| == |ms| && forall i :: 0 <= i < |ms| ==> sels[i] == SelectionOf(market, ms[i])
  {
    seq(|ms|, i requires 0 <= i < |ms| => SelectionOf(market, ms[i]))
  }

  // The first member names the market.
  function MarketOf(event: Id, league: Id, ms: seq<Member>): MarketSpec
    requires ms != [] && CategoryOf(ms[0].parts.betType).Some? && ms[0].parts.period in SCOPES
  {
    var p := ms[0].parts;
    var line := CanonicalLine(p.betType, ms);
    var id := MarketId(event, p, SCOPES[p.period], line, SideMarker(p));
    MarketSpec(id, if TeamMarket(p) then PropsTeam else CategoryOf(p.betType).value, MarketType(p, league),
               match line case Some(d) => Some(Value(d)) case None => None, SideMarker(p), SelectionsOf(id, ms))
  }

  predicate Buildable(ms: seq<Member>) {
    ms != [] && CategoryOf(ms[0].parts.betType).Some? && ms[0].parts.period in SCOPES
  }

  ghost predicate Sound(g: Groups) {
    && (forall k :: k in g.order <==> k in g.members)
    && (forall k <- g.members :: Buildable(g.members[k]))
  }

  function MarketsOf(event: Id, league: Id, g: Groups): (specs: seq<MarketSpec>)
    requires Sound(g)
    ensures |specs| == |g.order|
    ensures forall i :: 0 <= i < |specs| ==> specs[i] == MarketOf(event, league, g.members[g.order[i]])
  {
    seq(|g.order|, i requires 0 <= i < |g.order| => MarketOf(event, league, g.members[g.order[i]]))
  }

  lemma {:induction false} AdmittedMembers(order: seq<string>, rows: map<string, OddRow>)
    requires forall id <- order :: id in rows
    ensures forall m <- MembersOf(order, rows) :: Buildable([m])
  {
    if order != [] { AdmittedMembers(order[..|order| - 1], rows); }
  }

  lemma {:induction false} GroupAllSound(ms: seq<Member>)
    requires forall m <- ms :: Buildable([m])
    ensures Sound(GroupAll(ms))
  {
    if ms != [] { GroupAllSound(ms[..|ms| - 1]); }
  }

  function MarketSpecs(event: Id, league: Id, odds: Odds): seq<MarketSpec>
    requires forall id <- odds.order :: id in odds.rows
  {
    AdmittedMembers(odds.order, odds.rows);
    GroupAllSound(MembersOf(odds.order, odds.rows));
    MarketsOf(event, league, GroupAll(MembersOf(odds.order, odds.rows)))
  }

  lemma MembersStep(order: seq<string>, rows: map<string, OddRow>, i: nat)
    requires (forall id <- order :: id in rows) && i < |order|
    ensures
      var front := MembersOf(order[..i], rows);
      MembersOf(order[..i + 1], rows) ==
        match Admit(order[i]) case Some(p) => front + [Member(p, rows[order[i]])] case None => front
  {
    assert order[..i + 1][..i] == order[..i];
  }

  lemma GroupStep(ms: seq<Member>, m: Member)
    ensures GroupAll(ms + [m]) == Grouped(GroupAll(ms), m)
  {
    assert (ms + [m])[..|ms|] == ms;
  }

  method GroupOdds(odds: Odds) returns (keys: seq<GroupKey>, groups: map<GroupKey, seq<Member>>)
    requires forall id <- odds.order :: id in odds.rows
    ensures Groups(keys, groups) == GroupAll(MembersOf(odds.order, odds.rows))
  {
    keys, groups := [], map[];
    var order := odds.order;
    for i := 0 to |order|
      invariant Groups(keys, groups) == GroupAll(MembersOf(order[..i], odds.rows))
    {
      MembersStep(order, odds.rows, i);
      var admitted := Filter(order[i]);
      if admitted.None? { continue; }
      var member := Member(admitted.value, odds.rows[order[i]]);
      GroupStep(MembersOf(order[..i], odds.rows), member);
      keys, groups := AddToGroup(keys, groups, member);
    }
    assert order[..|order|] == order;
  }

  method Filter(id: string) returns (admitted: Option<Parts>)
    ensures admitted == Admit(id)
  {
    var parts := ParseOddId(id);
    if parts.None? { return None; }
    var p := parts.value;
    if CategoryOf(p.betType).None? { return None; }
    if p.entity !in {"home", "away", "all", "draw"} { return None; }
    if p.period !in SCOPES { return None; }
    return Some(p);
  }

  // groups.setdefault(key, []).append(member)
  method AddToGroup(keys: seq<GroupKey>, groups: map<GroupKey, seq<Member>>, member: Member)
    returns (keys': seq<GroupKey>, groups': map<GroupKey, seq<Member>>)
    ensures Groups(keys', groups') == Grouped(Groups(keys, groups), member)
  {
    keys', groups' := keys, groups;
    var key := KeyOf(member);
    if key !in groups' {
      keys' := keys' + [key];
      groups' := groups'[key := []];
      assert [] + [member] == [member];
    }
    groups' := groups'[key := groups'[key] + [member]];
    assert key !in groups ==> groups' == groups[key := [member]];
  }

  lemma OneMore<T>(all: seq<T>, i: nat)
    requires i < |all|
    ensures all[..i + 1] == all[..i] + [all[i]]
  {
  }

  method BuildMarkets(event: Id, league: Id, g: Groups) returns (specs: seq<MarketSpec>)
    requires Sound(g)
    ensures specs == MarketsOf(event, league, g)
  {
    specs := [];
    for i := 0 to |g.order|
      invariant specs == MarketsOf(event, league, g)[..i]
    {
      OneMore(MarketsOf(event, league, g), i);
      var spec := BuildMarket(event, league, g, i);
      specs := specs + [spec];
    }
  }

  method BuildMarket(event: Id, league: Id, g: Groups, i: nat) returns (spec: MarketSpec)
    requires Sound(g) && i < |g.order|
    ensures spec == MarketsOf(event, league, g)[i]
  {
    spec := MarketOf(event, league, g.members[g.order[i]]);
  }

  method ComputeMarketSpecs(event: Id, league: Id, odds: Odds) returns (specs: seq<MarketSpec>)
    requires forall id <- odds.order :: id in odds.rows
    ensures specs == MarketSpecs(event, league, odds)
  {
    var keys, groups := GroupOdds(odds);
    AdmittedMembers(odds.order, odds.rows);
    GroupAllSound(MembersOf(odds.order, odds.rows));
    specs := BuildMarkets(event, league, Groups(keys, groups));
  }
}
