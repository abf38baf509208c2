/** The translator and the normalizer composed: what becomes of a quoted odd. */
module OddsCompiler {
  import opened Wrappers
  import opened Domain
  import opened Text
  import opened Decimals
  import opened Prices
  import opened Taxonomy
  import opened OddsTranslate
  import opened OddsQuotes
  import opened Normalize
  import opened Grading
  import Pipeline
  import PipelineSafety

  // ---- grouping partitions ----

  function OfKey(ms: seq<Member>, k: GroupKey): seq<Member> {
    if ms == [] then []
    else
      var front, last := OfKey(ms[..|ms| - 1], k), ms[|ms| - 1];
      if KeyOf(last) == k then front + [last] else front
  }

  function Concat(order: seq<GroupKey>, members: map<GroupKey, seq<Member>>): seq<Member>
    requires forall k <- order :: k in members
  {
    if order == [] then [] else Concat(order[..|order| - 1], members) + members[order[|order| - 1]]
  }

  ghost predicate Distinct<T>(xs: seq<T>) {
    forall i, j :: 0 <= i < j < |xs| ==> xs[i] != xs[j]
  }

  /** A group holds the admitted odds of its key, in payload order, and every odd's key has a group. */
  lemma {:induction false} GroupsByKey(ms: seq<Member>)
    ensures var g := GroupAll(ms);
      && Distinct(g.order) && (forall k :: k in g.order <==> k in g.members)
      && (forall k :: k in g.members <==> OfKey(ms, k) != [])
      && (forall k <- g.members :: g.members[k] == OfKey(ms, k))
  {
    if ms != [] {
      var front, last := ms[..|ms| - 1], ms[|ms| - 1];
      GroupsByKey(front);
      forall k ensures OfKey(ms, k) == if KeyOf(last) == k then OfKey(front, k) + [last] else OfKey(front, k) {}
    }
  }

  lemma {:induction false} OfKeyHolds(ms: seq<Member>, k: GroupKey, m: Member)
    ensures m in OfKey(ms, k) <==> m in ms && KeyOf(m) == k
  {
    if ms != [] {
      OfKeyHolds(ms[..|ms| - 1], k, m);
      assert ms == ms[..|ms| - 1] + [ms[|ms| - 1]];
    }
  }

  lemma {:induction false} ConcatKeeps(order: seq<GroupKey>, a: map<GroupKey, seq<Member>>, b: map<GroupKey, seq<Member>>)
    requires forall k <- order :: k in a && k in b && a[k] == b[k]
    ensures Concat(order, a) == Concat(order, b)
  {
    if order != [] { ConcatKeeps(order[..|order| - 1], a, b); }
  }

  lemma {:induction false} ConcatGrows(order: seq<GroupKey>, members: map<GroupKey, seq<Member>>, k: GroupKey, m: Member)
    requires Distinct(order) && k in order && forall q <- order :: q in members
    ensures multiset(Concat(order, members[k := members[k] + [m]])) == multiset(Concat(order, members)) + multiset{m}
  {
    var front, last, grown := order[..|order| - 1], order[|order| - 1], members[k := members[k] + [m]];
    assert order == front + [last];
    if last == k {
      ConcatKeeps(front, members, grown);
    } else {
      ConcatGrows(front, members, k, m);
    }
  }

  ghost predicate Keyed(g: Groups) {
    Distinct(g.order) && forall k :: k in g.order <==> k in g.members
  }

  lemma GroupedAdds(g: Groups, m: Member)
    requires Keyed(g)
    ensures var r := Grouped(g, m); Keyed(r) && multiset(Concat(r.order, r.members)) == multiset(Concat(g.order, g.members)) + multiset{m}
  {
    var k := KeyOf(m);
    if k in g.members {
      ConcatGrows(g.order, g.members, k, m);
    } else {
      ConcatKeeps(g.order, g.members, g.members[k := [m]]);
      assert (g.order + [k])[..|g.order|] == g.order;
    }
  }

  ghost predicate Partitions(g: Groups, ms: seq<Member>) {
    Keyed(g) && multiset(Concat(g.order, g.members)) == multiset(ms)
  }

  lemma PartitionGrows(ms: seq<Member>, m: Member)
    requires Partitions(GroupAll(ms), ms)
    ensures Partitions(GroupAll(ms + [m]), ms + [m])
  {
    GroupStep(ms, m);
    GroupedAdds(GroupAll(ms), m);
  }

  /** Grouping loses and duplicates nothing. */
  lemma {:induction false} GroupingPartitions(ms: seq<Member>)
    ensures Partitions(GroupAll(ms), ms)
  {
    if ms != [] {
      GroupingPartitions(ms[..|ms| - 1]);
      PartitionGrows(ms[..|ms| - 1], ms[|ms| - 1]);
      assert ms == ms[..|ms| - 1] + [ms[|ms| - 1]];
    }
  }

  // ---- the members of a translated payload ----

  ghost predicate Feed(stat: string, o: Odds, qs: seq<Quote>) {
    Stat(stat) && AllRegular(stat, qs) && Represents(o, qs)
  }

  predicate FromQuote(stat: string, qs: seq<Quote>, m: Member) {
    Shape(stat, m.parts)
    && First(qs, OddId(m.parts)).Some? && First(qs, OddId(m.parts)).value.parts == m.parts
    && m.odd == RowFrom(qs, OddId(m.parts))
  }

  lemma ShapesAreAdmitted(stat: string, p: Parts)
    requires Stat(stat) && Shape(stat, p)
    ensures Admit(OddId(p)) == Some(p)
  {
    ShapeReadsBack(stat, p);
  }

  /** Every odd of the translator parses and passes every filter of the normalizer. */
  lemma OddIsAdmitted(stat: string, o: Odds, qs: seq<Quote>, id: string)
    requires Feed(stat, o, qs) && id in o.order
    ensures id in o.rows && Admit(id).Some?
    ensures var p := Admit(id).value; OddId(p) == id && FromQuote(stat, qs, Member(p, o.rows[id]))
  {
    FirstIsMember(qs, id);
    ShapesAreAdmitted(stat, First(qs, id).value.parts);
  }

  lemma {:induction false} AllAdmitted(order: seq<string>, rows: map<string, OddRow>)
    requires forall id <- order :: id in rows && Admit(id).Some?
    ensures var ms := MembersOf(order, rows);
      |ms| == |order| && forall i :: 0 <= i < |ms| ==> ms[i] == Member(Admit(order[i]).value, rows[order[i]])
  {
    if order != [] {
      var front, last := order[..|order| - 1], order[|order| - 1];
      AllAdmitted(front, rows);
      assert last in order;
      assert MembersOf(order, rows) == MembersOf(front, rows) + [Member(Admit(last).value, rows[last])];
    }
  }

  lemma EveryOddIsAdmitted(stat: string, o: Odds, qs: seq<Quote>)
    requires Feed(stat, o, qs)
    ensures var ms := MembersOf(o.order, o.rows);
      |ms| == |o.order| && forall i :: 0 <= i < |ms| ==> FromQuote(stat, qs, ms[i]) && OddId(ms[i].parts) == o.order[i]
  {
    forall id | id in o.order ensures id in o.rows && Admit(id).Some? { OddIsAdmitted(stat, o, qs, id); }
    AllAdmitted(o.order, o.rows);
    var ms := MembersOf(o.order, o.rows);
    forall i | 0 <= i < |ms| ensures FromQuote(stat, qs, ms[i]) && OddId(ms[i].parts) == o.order[i] {
      OddIsAdmitted(stat, o, qs, o.order[i]);
    }
  }

  // The line of a translated odd is the line of its first quote.
  lemma LineReadsBack(stat: string, qs: seq<Quote>, m: Member)
    requires FromQuote(stat, qs, m) && AllRegular(stat, qs)
    ensures LineFor(m.parts, m.odd) == First(qs, OddId(m.parts)).value.line
    ensures LineFor(m.parts, m.odd).Some? <==> m.parts.betType in {"sp", "ou"}
    ensures m.parts.betType == "ou" ==> m.odd.overUnder.First() == LineText(LineFor(m.parts, m.odd))
  {
    var q := First(qs, OddId(m.parts)).value;
    FirstIsMember(qs, OddId(m.parts));
    if q.line.Some? {
      ParseOfRender(q.line.value);
      UnsignedIsPlain(q.line.value);
    }
  }

  // ---- ids, of arbitrary payloads ----

  lemma {:induction false} SplitIsFree(s: string, sep: char)
    ensures Free(Split(s, sep), sep)
  {
    if s != "" { SplitIsFree(s[1..], sep); }
  }

  // The parts of an odd that passed the filters.
  ghost predicate Passed(p: Parts) {
    exists id :: Admit(id) == Some(p)
  }

  // A group whose first member did.
  ghost predicate AdmittedGroup(ms: seq<Member>) {
    ms != [] && Passed(ms[0].parts)
  }

  lemma PassedIsFree(p: Parts)
    requires Passed(p)
    ensures CategoryOf(p.betType).Some? && p.period in SCOPES && p.entity in {"home", "away", "all", "draw"} && Free(Fields(p), '-')
  {
    var id :| Admit(id) == Some(p);
    SplitIsFree(id, '-');
  }

  // A scope slug is told apart from a bet type, an entity and a line by its first two characters and its length.
  predicate ScopeLike(s: string) {
    |s| >= 2 && '-' !in s
    && (s[0] in {'f', 'h', 'q', 'p', 'i'} || s in {"ot", "so"} || (s[0] == 'm' && s[1] in {'5', '1'}))
    && (|s| == 2 || s[0] in {'i', 'm'})
  }

  lemma ScopeSlugIsScopeLike(period: string)
    requires period in SCOPES
    ensures ScopeLike(ScopeSlug(SCOPES[period]))
  {
  }

  // The slug of a period: "ft" for the two names of a full game, the digit behind the letter for halves, quarters,
  // periods and innings.
  function PeriodSlug(period: string): string {
    if period == "game" || period == "reg" then "ft"
    else if period == "1st5" then "i1_5"
    else if period == "1st3" then "i1_3"
    else if period == "5min" then "m5"
    else if period == "10min" then "m10"
    else if |period| == 2 && '1' <= period[0] <= '9' then [period[1], period[0]]
    else period
  }

  lemma Innings(period: string)
    requires period in SCOPES && |period| == 2 && period[1] == 'i'
    ensures ScopeSlug(SCOPES[period]) == PeriodSlug(period) && '1' <= period[0] <= '9'
  {
  }

  lemma Quarters(period: string)
    requires period in SCOPES && |period| == 2 && period[1] == 'q'
    ensures ScopeSlug(SCOPES[period]) == PeriodSlug(period) && '1' <= period[0] <= '9'
  {
  }

  lemma Thirds(period: string)
    requires period in SCOPES && |period| == 2 && period[1] == 'p'
    ensures ScopeSlug(SCOPES[period]) == PeriodSlug(period) && '1' <= period[0] <= '9'
  {
  }

  lemma ShortPeriods(period: string)
    requires period in SCOPES && |period| == 2 && period[1] != 'i' && period[1] != 'q' && period[1] != 'p'
    ensures ScopeSlug(SCOPES[period]) == PeriodSlug(period)
    ensures period == "ot" || period == "so" || ('1' <= period[0] <= '9' && period[1] == 'h')
  {
  }

  lemma LongPeriods(period: string)
    requires period in SCOPES && |period| != 2 && period[0] == '1'
    ensures ScopeSlug(SCOPES[period]) == PeriodSlug(period) && period in {"1st5", "1st3", "10min"}
  {
  }

  lemma FullGameSlug()
    ensures "game" in SCOPES && ScopeSlug(SCOPES["game"]) == "ft" && "reg" in SCOPES && ScopeSlug(SCOPES["reg"]) == "ft"
  {
  }

  lemma Games(period: string)
    requires period in SCOPES && |period| == 4 && period[0] != '1' && period[0] != '5'
    ensures period == "game"
  {
  }

  lemma Regulation(period: string)
    requires period in SCOPES && |period| != 2 && |period| != 4 && period[0] != '1'
    ensures period == "reg"
  {
  }

  lemma FiveMinutes(period: string)
    requires period in SCOPES && |period| == 4 && period[0] == '5'
    ensures ScopeSlug(SCOPES[period]) == PeriodSlug(period) && period == "5min"
  {
  }

  lemma PeriodIs(period: string)
    requires period in SCOPES
    ensures ScopeSlug(SCOPES[period]) == PeriodSlug(period)
    ensures if |period| == 2 then period == "ot" || period == "so" || ('1' <= period[0] <= '9' && period[1] in {'h', 'q', 'p', 'i'})
            else period in {"1st5", "1st3", "10min", "game", "reg", "5min"}
  {
    FullGameSlug();
    if |period| == 2 {
      if period[1] == 'i' { Innings(period); }
      else if period[1] == 'q' { Quarters(period); }
      else if period[1] == 'p' { Thirds(period); }
      else { ShortPeriods(period); }
    } else {
      if period[0] == '1' { LongPeriods(period); }
      else if |period| != 4 { Regulation(period); }
      else if period[0] == '5' { FiveMinutes(period); }
      else { Games(period); }
    }
  }

  lemma SlugsTellPeriods(p: string, q: string)
    requires |p| == 2 ==> p == "ot" || p == "so" || ('1' <= p[0] <= '9' && p[1] in {'h', 'q', 'p', 'i'})
    requires |q| == 2 ==> q == "ot" || q == "so" || ('1' <= q[0] <= '9' && q[1] in {'h', 'q', 'p', 'i'})
    requires |p| != 2 ==> p in {"1st5", "1st3", "10min", "game", "reg", "5min"}
    requires |q| != 2 ==> q in {"1st5", "1st3", "10min", "game", "reg", "5min"}
    ensures PeriodSlug(p) == PeriodSlug(q) <==> p == q || (p in {"game", "reg"} && q in {"game", "reg"})
  {
    var s, t := PeriodSlug(p), PeriodSlug(q);
    if s == t && |p| == 2 && |q| == 2 {
      assert s[0] == t[0] && s[1] == t[1];
      assert p == [p[0], p[1]] && q == [q[0], q[1]];
    }
  }

  /** Two periods stand for one scope in a market id exactly when they are the same, or "game" and "reg". */
  lemma ScopesTellPeriods(p: string, q: string)
    requires p in SCOPES && q in SCOPES
    ensures ScopeSlug(SCOPES[p]) == ScopeSlug(SCOPES[q]) <==> p == q || (p in {"game", "reg"} && q in {"game", "reg"})
  {
    PeriodIs(p);
    PeriodIs(q);
    SlugsTellPeriods(p, q);
  }

  ghost function TailOf(ms: seq<Member>): seq<string>
    requires Buildable(ms)
  {
    var p := ms[0].parts;
    IdTail(p, SCOPES[p.period], CanonicalLine(p.betType, ms), SideMarker(p))
  }

  // The parts of a market that its id spells out.
  datatype Signature = Signature(kind: string, scope: string, stat: string, entity: string, line: Option<PlainDecimal>, side: string)

  function SignatureOf(ms: seq<Member>): Signature
    requires Buildable(ms)
  {
    var p := ms[0].parts;
    Signature(p.betType, ScopeSlug(SCOPES[p.period]), Lower(p.stat), p.entity, CanonicalLine(p.betType, ms), SideMarker(p))
  }

  function Spell(s: Signature): seq<string> {
    [s.kind, s.scope] + Present(s.stat) + [s.entity] + (match s.line case Some(d) => [Slug(d)] case None => []) + Present(Lower(s.side))
  }

  predicate Spellable(s: Signature) {
    && CategoryOf(s.kind).Some? && ScopeLike(s.scope) && '-' !in s.stat
    && s.entity in {"home", "away", "all", "draw"} && s.side in {"", "HOME", "AWAY"} && (s.side != "" ==> s.stat != "")
  }

  lemma TailIsSpelled(ms: seq<Member>)
    requires AdmittedGroup(ms)
    ensures Buildable(ms) && Spellable(SignatureOf(ms)) && TailOf(ms) == Spell(SignatureOf(ms))
  {
    var p := ms[0].parts;
    PassedIsFree(p);
    LowerEntity(p.entity);
    ScopeSlugIsScopeLike(p.period);
    assert p.stat in Fields(p) && '-' !in Lower(p.stat);
  }

  lemma LowerSide(side: string)
    requires side in {"", "HOME", "AWAY"}
    ensures Lower(side) in {"", "home", "away"} && (side == "" <==> Lower(side) == "") && (side == "HOME" <==> Lower(side) == "home")
  {
    assert Lower("HOME") == "home" && Lower("AWAY") == "away" && Lower("") == "";
  }

  lemma EntityIsPlain(entity: string)
    requires entity in {"home", "away", "all", "draw"}
    ensures '-' !in entity && ':' !in entity && !ScopeLike(entity)
  {
  }

  lemma KindIsPlain(kind: string)
    requires CategoryOf(kind).Some?
    ensures '-' !in kind && !ScopeLike(kind)
  {
  }

  lemma SpelledIsFree(s: Signature)
    requires Spellable(s)
    ensures Free(Spell(s), '-')
  {
    if s.line.Some? { SlugIsInjective(s.line.value, s.line.value); }
    LowerSide(s.side);
    KindIsPlain(s.kind);
    EntityIsPlain(s.entity);
    if s.side != "" { EntityIsPlain(Lower(s.side)); }
  }

  lemma LowerEntity(entity: string)
    requires entity in {"home", "away", "all", "draw"}
    ensures Lower(entity) == entity
    ensures entity in {"home", "away"} ==> Upper(entity) == (if entity == "home" then "HOME" else "AWAY") && Lower(Upper(entity)) == entity
  {
    assert Lower("home") == "home" && Lower("away") == "away" && Lower("draw") == "draw" && Lower("all") == "all";
    assert Upper("home") == "HOME" && Upper("away") == "AWAY" && Lower("HOME") == "home" && Lower("AWAY") == "away";
  }

  function EntityOnward(s: Signature): seq<string> {
    [s.entity] + (match s.line case Some(d) => [Slug(d)] case None => []) + Present(Lower(s.side))
  }

  lemma OnwardIsNoScope(s: Signature)
    requires Spellable(s)
    ensures forall part <- EntityOnward(s) :: !ScopeLike(part)
  {
    if s.line.Some? { SlugStart(s.line.value); }
    LowerSide(s.side);
    EntityIsPlain(s.entity);
    if s.side != "" { EntityIsPlain(Lower(s.side)); }
  }

  lemma OnwardIsInjective(a: Signature, b: Signature)
    requires Spellable(a) && Spellable(b) && EntityOnward(a) == EntityOnward(b)
    ensures a.entity == b.entity && a.line == b.line && a.side == b.side
  {
    var x, y := EntityOnward(a), EntityOnward(b);
    LowerSide(a.side);
    LowerSide(b.side);
    if a.line.Some? { SlugStart(a.line.value); }
    if b.line.Some? { SlugStart(b.line.value); }
    assert x[0] == y[0] && (|x| > 1 ==> x[1] == y[1]) && (|x| > 2 ==> x[2] == y[2]);
    if a.line.Some? && b.line.Some? { SlugIsInjective(a.line.value, b.line.value); }
  }

  lemma SpellSplits(s: Signature)
    ensures |Spell(s)| > 2 && Spell(s)[0] == s.kind && Spell(s)[1] == s.scope
    ensures Spell(s)[2..] == Present(s.stat) + EntityOnward(s)
    ensures Spell(s)[2] == if s.stat == "" then s.entity else s.stat
    ensures s.stat != "" ==> Spell(s)[3..] == EntityOnward(s)
  {
    assert Spell(s) == [s.kind, s.scope] + (Present(s.stat) + EntityOnward(s));
  }

  // What follows an entity is no entity, so a spelling without a stat is not one with a stat.
  lemma StatIsSpelled(a: Signature, b: Signature)
    requires Spellable(a) && Spellable(b) && EntityOnward(a) == Present(b.stat) + EntityOnward(b) && a.side == ""
    ensures b.stat == ""
  {
    LowerSide("");
    if a.line.Some? { SlugStart(a.line.value); }
    assert (Present(b.stat) + EntityOnward(b))[|Present(b.stat)|] == b.entity;
    assert EntityOnward(a) == [a.entity] + (match a.line case Some(d) => [Slug(d)] case None => []);
  }

  lemma SpellIsInjective(a: Signature, b: Signature)
    requires Spellable(a) && Spellable(b) && Spell(a) == Spell(b)
    ensures a == b
  {
    SpellSplits(a);
    SpellSplits(b);
    if a.stat == "" {
      StatIsSpelled(a, b);
    } else if b.stat == "" {
      StatIsSpelled(b, a);
    }
    OnwardIsInjective(a, b);
  }

  // Behind its scope a spelling holds a stat, an entity, a line and a side.
  lemma LaterPart(s: Signature, i: nat)
    requires Spellable(s) && 2 <= i < |Spell(s)|
    ensures var part := Spell(s)[i]; (i == 2 && part == s.stat) || !ScopeLike(part)
  {
    OnwardIsNoScope(s);
    SpellSplits(s);
    var n := |Present(s.stat)|;
    assert Spell(s)[i] == (Present(s.stat) + EntityOnward(s))[i - 2];
    if i >= 2 + n { assert Spell(s)[i] == EntityOnward(s)[i - 2 - n]; }
  }

  // A bet type is no scope.
  lemma SpellingStartsOnce(s: Signature, t: Signature, d: nat)
    requires Spellable(s) && Spellable(t) && 0 < d && d + 1 < |Spell(s)|
    ensures !(Spell(s)[d] == Spell(t)[0] && Spell(s)[d + 1] == Spell(t)[1])
  {
    LaterPart(s, d + 1);
    if d > 1 { LaterPart(s, d); }
  }

  lemma SpelledIdIsRead(e: Id, s: Signature, f: Id, t: Signature)
    requires Spellable(s) && Spellable(t) && |Spell(t)| <= |Spell(s)|
    requires Join([e] + Spell(s), '-') == Join([f] + Spell(t), '-')
    ensures e == f && s == t
  {
    var a, b := Spell(s), Spell(t);
    var d := |a| - |b|;
    SpelledIsFree(s);
    SpelledIsFree(t);
    JoinedEnds(e, a, f, b, '-');
    if d > 0 {
      assert b[0] == a[d] && b[1] == a[d + 1];
      SpellingStartsOnce(s, t, d);
      assert false;
    }
    assert a[0..] == a && a[..0] == [];
    SpellIsInjective(s, t);
  }

  /** In any payloads, translated or not, of any events, two groups get one market id exactly when the event is the
      same and they agree on bet type, scope, stat (up to case), first entity, line and side. The period is no part of
      it, only the scope it stands for. */
  lemma MarketsCollideExactly(e: Id, league: Id, ms: seq<Member>, f: Id, other: Id, ns: seq<Member>)
    requires AdmittedGroup(ms) && AdmittedGroup(ns)
    ensures Buildable(ms) && Buildable(ns)
    ensures MarketOf(e, league, ms).id == MarketOf(f, other, ns).id <==> e == f && SignatureOf(ms) == SignatureOf(ns)
  {
    TailIsSpelled(ms);
    TailIsSpelled(ns);
    var s, t := SignatureOf(ms), SignatureOf(ns);
    if MarketOf(e, league, ms).id == MarketOf(f, other, ns).id {
      if |Spell(t)| <= |Spell(s)| { SpelledIdIsRead(e, s, f, t); } else { SpelledIdIsRead(f, t, e, s); }
    }
  }

  lemma TwoMarks(m: string, entity: string, side: string, n: string, other: string, tail: string)
    requires ':' !in entity && ':' !in other && '-' !in side && '-' !in tail
    requires m + ":" + (entity + "-" + side) == n + ":" + (other + "-" + tail)
    ensures m == n && entity == other && side == tail
  {
    assert m + ":" + (entity + "-" + side) == m + [':'] + entity + ['-'] + side;
    assert n + ":" + (other + "-" + tail) == n + [':'] + other + ['-'] + tail;
    LastMark(m + [':'] + entity, side, n + [':'] + other, tail, '-');
    LastMark(m, entity, n, other, ':');
  }

  /** Selection ids carry the market id, the entity and the side, and nothing else. */
  lemma SelectionsCollideExactly(market: Id, a: Member, other: Id, b: Member)
    requires Passed(a.parts) && Passed(b.parts)
    ensures SelectionOf(market, a).id == SelectionOf(other, b).id <==>
      market == other && a.parts.entity == b.parts.entity && a.parts.side == b.parts.side
  {
    var p, q := a.parts, b.parts;
    PassedIsFree(p);
    PassedIsFree(q);
    assert p.side in Fields(p) && q.side in Fields(q);
    EntityIsPlain(p.entity);
    EntityIsPlain(q.entity);
    if SelectionOf(market, a).id == SelectionOf(other, b).id { TwoMarks(market, p.entity, p.side, other, q.entity, q.side); }
  }

  ghost predicate FeedOrder(o: Odds) {
    forall id <- o.order :: id in o.rows
  }

  function LineValueOf(line: Option<PlainDecimal>): Option<real> {
    match line case Some(d) => Some(Value(d)) case None => None
  }

  lemma {:induction false} MembersPassed(order: seq<string>, rows: map<string, OddRow>)
    requires forall id <- order :: id in rows
    ensures forall m <- MembersOf(order, rows) :: Passed(m.parts)
  {
    if order != [] { MembersPassed(order[..|order| - 1], rows); }
  }

  lemma {:induction false} MarketKey(event: Id, league: Id, g: Groups, m: MarketSpec) returns (k: GroupKey)
    requires Sound(g) && m in MarketsOf(event, league, g)
    ensures k in g.members && m == MarketOf(event, league, g.members[k])
  {
    var specs := MarketsOf(event, league, g);
    var i :| 0 <= i < |specs| && specs[i] == m;
    k := g.order[i];
    assert k in g.order && specs[i] == MarketOf(event, league, g.members[k]);
  }

  lemma LineOfMarket(event: Id, league: Id, ms: seq<Member>)
    requires Buildable(ms)
    ensures MarketOf(event, league, ms).line == LineValueOf(CanonicalLine(ms[0].parts.betType, ms))
  {
  }

  // The group behind a market of a payload.
  lemma GroupBehind(event: Id, league: Id, o: Odds, m: MarketSpec) returns (ms: seq<Member>)
    requires FeedOrder(o) && m in MarketSpecs(event, league, o)
    ensures ms != [] && (forall a <- ms :: Passed(a.parts)) && Buildable(ms) && m == MarketOf(event, league, ms)
  {
    var all := MembersOf(o.order, o.rows);
    MembersPassed(o.order, o.rows);
    AdmittedMembers(o.order, o.rows);
    GroupAllSound(all);
    GroupsByKey(all);
    var k := MarketKey(event, league, GroupAll(all), m);
    ms := OfKey(all, k);
    forall a | a in ms ensures Passed(a.parts) { OfKeyHolds(all, k, a); }
  }

  lemma GroupIdsNeverMeet(e: Id, league: Id, ms: seq<Member>, f: Id, other: Id, ns: seq<Member>)
    requires ms != [] && (forall a <- ms :: Passed(a.parts)) && ns != [] && (forall b <- ns :: Passed(b.parts)) && e != f
    requires Buildable(ms) && Buildable(ns)
    ensures var m, n := MarketOf(e, league, ms), MarketOf(f, other, ns);
      m.id != n.id && forall s <- m.selections, t <- n.selections :: s.id != t.id
  {
    MarketsCollideExactly(e, league, ms, f, other, ns);
    SelectionsNeverMeet(MarketOf(e, league, ms).id, ms, MarketOf(f, other, ns).id, ns);
  }

  lemma SelectionsNeverMeet(m: Id, ms: seq<Member>, n: Id, ns: seq<Member>)
    requires (forall a <- ms :: Passed(a.parts)) && (forall b <- ns :: Passed(b.parts)) && m != n
    ensures forall s <- SelectionsOf(m, ms), t <- SelectionsOf(n, ns) :: s.id != t.id
  {
    forall s, t | s in SelectionsOf(m, ms) && t in SelectionsOf(n, ns) ensures s.id != t.id {
      var i :| 0 <= i < |ms| && SelectionsOf(m, ms)[i] == s;
      var j :| 0 <= j < |ns| && SelectionsOf(n, ns)[j] == t;
      SelectionsCollideExactly(m, ms[i], n, ns[j]);
    }
  }

  /** Payloads of different events share no market id and no selection id, whatever the event ids and the odds. */
  lemma IdsNeverMeet(e: Id, league: Id, o: Odds, m: MarketSpec, f: Id, other: Id, q: Odds, n: MarketSpec)
    requires FeedOrder(o) && FeedOrder(q) && e != f
    requires m in MarketSpecs(e, league, o) && n in MarketSpecs(f, other, q)
    ensures m.id != n.id && forall s <- m.selections, t <- n.selections :: s.id != t.id
  {
    var ms := GroupBehind(e, league, o, m);
    var ns := GroupBehind(f, other, q, n);
    GroupIdsNeverMeet(e, league, ms, f, other, ns);
  }

  // ---- ids of translated payloads ----

  // What a translated group has in common.
  ghost predicate Grouping(stat: string, qs: seq<Quote>, k: GroupKey, ms: seq<Member>) {
    && ms != [] && (forall m <- ms :: FromQuote(stat, qs, m) && KeyOf(m) == k)
    && (forall i, j :: 0 <= i < j < |ms| ==> ms[i].parts != ms[j].parts)
  }

  lemma GroupOfTotals(stat: string, qs: seq<Quote>, k: GroupKey, ms: seq<Member>)
    requires Grouping(stat, qs, k, ms) && AllRegular(stat, qs) && k.kind == "ou"
    ensures CanonicalLine("ou", ms).Some? && Render(CanonicalLine("ou", ms).value) == k.line
  {
    assert ms[0] in ms;
    LineReadsBack(stat, qs, ms[0]);
  }

  lemma LowerShape(stat: string, p: Parts)
    requires Stat(stat) && Shape(stat, p)
    ensures Lower(p.stat) == p.stat && Lower(p.entity) == p.entity && SideMarker(p) == ""
  {
    assert Lower("runs") == "runs" && Lower("points") == "points" && Lower("goals") == "goals";
    assert Lower("home") == "home" && Lower("away") == "away" && Lower("draw") == "draw" && Lower("all") == "all";
  }

  lemma IdTailShape(stat: string, p: Parts, line: Option<PlainDecimal>)
    requires Stat(stat) && Shape(stat, p)
    ensures
      IdTail(p, "FULL_GAME", line, SideMarker(p)) ==
        [p.betType, "ft", stat, p.entity] + (match line case Some(d) => [Slug(d)] case None => [])
  {
    LowerShape(stat, p);
    assert Present(Lower(p.stat)) == [stat] && Present(Lower(p.entity)) == [p.entity];
    assert Lower("") == "";
  }

  lemma GroupIsBuildable(stat: string, qs: seq<Quote>, k: GroupKey, ms: seq<Member>)
    requires Grouping(stat, qs, k, ms)
    ensures Shape(stat, ms[0].parts) && ms[0].parts.betType == k.kind && k.stat == stat && k.period == "game"
    ensures Buildable(ms) && SCOPES[ms[0].parts.period] == "FULL_GAME"
  {
    assert ms[0] in ms;
  }

  lemma TailShape(stat: string, qs: seq<Quote>, k: GroupKey, ms: seq<Member>)
    requires Grouping(stat, qs, k, ms) && Stat(stat)
    ensures Buildable(ms)
    ensures
      var p, line := ms[0].parts, CanonicalLine(k.kind, ms);
      TailOf(ms) == [k.kind, "ft", stat, p.entity] + (match line case Some(d) => [Slug(d)] case None => [])
  {
    GroupIsBuildable(stat, qs, k, ms);
    IdTailShape(stat, ms[0].parts, CanonicalLine(k.kind, ms));
  }

  lemma SameTailSameKey(stat: string, qs: seq<Quote>, k: GroupKey, ms: seq<Member>, l: GroupKey, ns: seq<Member>)
    requires Grouping(stat, qs, k, ms) && Grouping(stat, qs, l, ns) && Stat(stat) && AllRegular(stat, qs)
    requires Buildable(ms) && Buildable(ns) && TailOf(ms) == TailOf(ns)
    ensures k == l
  {
    TailShape(stat, qs, k, ms);
    TailShape(stat, qs, l, ns);
    assert ms[0] in ms && ns[0] in ns;
    assert TailOf(ms)[0] == TailOf(ns)[0];
    if k.kind == "ou" {
      GroupOfTotals(stat, qs, k, ms);
      GroupOfTotals(stat, qs, l, ns);
      assert TailOf(ms)[4] == TailOf(ns)[4];
      SlugIsInjective(CanonicalLine("ou", ms).value, CanonicalLine("ou", ns).value);
    }
  }

  // ---- the markets of a translated payload ----

  ghost predicate DistinctParts(ms: seq<Member>) {
    forall i, j :: 0 <= i < j < |ms| ==> ms[i].parts != ms[j].parts
  }

  // What the normalizer receives from the translator, as members.
  ghost predicate Listing(stat: string, qs: seq<Quote>, ms: seq<Member>) {
    Stat(stat) && AllRegular(stat, qs) && DistinctParts(ms) && forall m <- ms :: FromQuote(stat, qs, m)
  }

  lemma FeedIsListing(stat: string, o: Odds, qs: seq<Quote>)
    requires Feed(stat, o, qs)
    ensures (forall id <- o.order :: id in o.rows) && Listing(stat, qs, MembersOf(o.order, o.rows))
  {
    EveryOddIsAdmitted(stat, o, qs);
    var ms := MembersOf(o.order, o.rows);
    forall i, j | 0 <= i < j < |ms| ensures ms[i].parts != ms[j].parts {
      assert OddId(ms[i].parts) == IdsOf(qs)[i] && OddId(ms[j].parts) == IdsOf(qs)[j];
    }
  }

  lemma {:induction false} OfKeyIsDistinct(ms: seq<Member>, k: GroupKey)
    requires DistinctParts(ms)
    ensures DistinctParts(OfKey(ms, k))
  {
    if ms != [] {
      var front, last := ms[..|ms| - 1], ms[|ms| - 1];
      var ns := OfKey(front, k);
      OfKeyIsDistinct(front, k);
      forall i | 0 <= i < |ns| ensures ns[i].parts != last.parts {
        OfKeyHolds(front, k, ns[i]);
      }
      assert DistinctParts(ns + [last]);
    }
  }

  lemma ListingGroups(stat: string, qs: seq<Quote>, ms: seq<Member>, k: GroupKey)
    requires Listing(stat, qs, ms) && k in GroupAll(ms).members
    ensures Grouping(stat, qs, k, GroupAll(ms).members[k])
  {
    GroupsByKey(ms);
    OfKeyIsDistinct(ms, k);
    forall m | m in OfKey(ms, k) ensures FromQuote(stat, qs, m) && KeyOf(m) == k { OfKeyHolds(ms, k, m); }
  }

  lemma ListingIsSound(stat: string, qs: seq<Quote>, ms: seq<Member>)
    requires Listing(stat, qs, ms)
    ensures Sound(GroupAll(ms)) && Keyed(GroupAll(ms))
  {
    GroupsByKey(ms);
    forall k | k in GroupAll(ms).members ensures Buildable(GroupAll(ms).members[k]) {
      ListingGroups(stat, qs, ms, k);
      GroupIsBuildable(stat, qs, k, GroupAll(ms).members[k]);
    }
  }

  lemma SameIdSameKey(stat: string, qs: seq<Quote>, event: Id, league: Id, k: GroupKey, ms: seq<Member>, l: GroupKey, ns: seq<Member>)
    requires Grouping(stat, qs, k, ms) && Grouping(stat, qs, l, ns) && Stat(stat) && AllRegular(stat, qs)
    requires Buildable(ms) && Buildable(ns) && MarketOf(event, league, ms).id == MarketOf(event, league, ns).id
    ensures k == l
  {
    assert ms[0] in ms && ns[0] in ns;
    ShapesAreAdmitted(stat, ms[0].parts);
    ShapesAreAdmitted(stat, ns[0].parts);
    MarketsCollideExactly(event, league, ms, event, league, ns);
    TailIsSpelled(ms);
    TailIsSpelled(ns);
    SameTailSameKey(stat, qs, k, ms, l, ns);
  }

  ghost predicate DistinctMarkets(specs: seq<MarketSpec>) {
    forall i, j :: 0 <= i < j < |specs| ==> specs[i].id != specs[j].id
  }

  /** Two markets of one payload never share an id, whatever the event id. */
  lemma MarketIdsAreDistinct(stat: string, qs: seq<Quote>, ms: seq<Member>, event: Id, league: Id)
    requires Listing(stat, qs, ms) && Sound(GroupAll(ms))
    ensures DistinctMarkets(MarketsOf(event, league, GroupAll(ms)))
  {
    var g := GroupAll(ms);
    var specs := MarketsOf(event, league, g);
    ListingIsSound(stat, qs, ms);
    forall i, j | 0 <= i < j < |specs| ensures specs[i].id != specs[j].id {
      var k, l := g.order[i], g.order[j];
      if specs[i].id == specs[j].id {
        ListingGroups(stat, qs, ms, k);
        ListingGroups(stat, qs, ms, l);
        SameIdSameKey(stat, qs, event, league, k, g.members[k], l, g.members[l]);
      }
    }
  }

  // ---- selections ----

  function TagOf(s: SelectionSpec): string {
    s.rawEntity + "-" + s.rawSide
  }

  // Selection ids are the market id, a colon and a tag of their own.
  ghost predicate Tagged(m: MarketSpec) {
    && (forall s <- m.selections :: s.id == m.id + ":" + TagOf(s) && ':' !in TagOf(s))
    && (forall i, j :: 0 <= i < j < |m.selections| ==> m.selections[i].id != m.selections[j].id)
  }

  lemma TaggedIdsDiffer(m: MarketSpec, s: SelectionSpec, n: MarketSpec, t: SelectionSpec)
    requires Tagged(m) && Tagged(n) && s in m.selections && t in n.selections && m.id != n.id
    ensures s.id != t.id
  {
    assert s.id == m.id + [':'] + TagOf(s) && t.id == n.id + [':'] + TagOf(t);
    if s.id == t.id { LastMark(m.id, TagOf(s), n.id, TagOf(t), ':'); }
  }

  lemma {:induction false} TaggedRowsDiffer(specs: seq<MarketSpec>)
    requires (forall m <- specs :: Tagged(m)) && DistinctMarkets(specs)
    ensures Pipeline.DistinctIds(specs)
  {
    if specs != [] {
      var front, last := specs[..|specs| - 1], specs[|specs| - 1];
      TaggedRowsDiffer(front);
      var rows, mine := Pipeline.RowsOf(front), Pipeline.RowsOfMarket(last.id, last.selections);
      forall i, j | 0 <= i < |rows| && 0 <= j < |mine| ensures rows[i].spec.id != mine[j].spec.id {
        PipelineSafety.RowsAreNamed(front, rows[i]);
        var m :| m in front && m.id == rows[i].market && rows[i].spec in m.selections;
        TaggedIdsDiffer(m, rows[i].spec, last, last.selections[j]);
      }
      assert Tagged(last) && Pipeline.RowsOf(specs) == rows + mine;
      forall i, j | 0 <= i < j < |rows + mine| ensures (rows + mine)[i].spec.id != (rows + mine)[j].spec.id {
        if j < |rows| {
          assert rows[i].spec.id != rows[j].spec.id;
        } else if i >= |rows| {
          assert last.selections[i - |rows|].id != last.selections[j - |rows|].id;
        }
      }
    }
  }

  lemma TagIsJoin(entity: string, side: string)
    ensures Join([entity, side], '-') == entity + "-" + side
  {
    assert [entity, side][1..] == [side];
  }

  lemma TagsDiffer(stat: string, market: Id, a: Parts, b: Parts)
    requires Shape(stat, a) && Shape(stat, b) && a.betType == b.betType && a != b
    ensures market + ":" + SelectionTag(a) != market + ":" + SelectionTag(b)
  {
    var x, y := market + ":" + SelectionTag(a), market + ":" + SelectionTag(b);
    assert x[|market| + 1..] == SelectionTag(a) && y[|market| + 1..] == SelectionTag(b);
    TagIsJoin(a.entity, a.side);
    TagIsJoin(b.entity, b.side);
    JoinIsInjective([a.entity, a.side], [b.entity, b.side], '-');
  }

  lemma TagHasNoColon(stat: string, p: Parts)
    requires Shape(stat, p)
    ensures ':' !in SelectionTag(p)
  {
  }

  lemma GroupIsTagged(stat: string, qs: seq<Quote>, event: Id, league: Id, k: GroupKey, ms: seq<Member>)
    requires Grouping(stat, qs, k, ms) && Buildable(ms)
    ensures Tagged(MarketOf(event, league, ms))
  {
    var m := MarketOf(event, league, ms);
    var id, sels := m.id, m.selections;
    assert sels == SelectionsOf(id, ms);
    forall s | s in sels ensures s.id == id + ":" + TagOf(s) && ':' !in TagOf(s) {
      var i :| 0 <= i < |sels| && sels[i] == s;
      assert ms[i] in ms;
      TagHasNoColon(stat, ms[i].parts);
    }
    forall i, j | 0 <= i < j < |sels| ensures sels[i].id != sels[j].id {
      assert ms[i] in ms && ms[j] in ms;
      TagsDiffer(stat, id, ms[i].parts, ms[j].parts);
    }
  }

  lemma ListingIsTagged(stat: string, qs: seq<Quote>, ms: seq<Member>, event: Id, league: Id)
    requires Listing(stat, qs, ms) && Sound(GroupAll(ms))
    ensures forall m <- MarketsOf(event, league, GroupAll(ms)) :: Tagged(m)
  {
    var g := GroupAll(ms);
    var specs := MarketsOf(event, league, g);
    forall m | m in specs ensures Tagged(m) {
      var i :| 0 <= i < |specs| && specs[i] == m;
      ListingGroups(stat, qs, ms, g.order[i]);
      GroupIsTagged(stat, qs, event, league, g.order[i], g.members[g.order[i]]);
    }
  }

  /** No market or selection of a translated payload repeats an id: the bulk upserts of its ingest never fail. */
  lemma TranslatedIdsAreDistinct(books: seq<Book>, sport: string, event: Id, league: Id)
    ensures var o := Translate(books, sport);
      (forall id <- o.order :: id in o.rows) && Pipeline.DistinctIds(MarketSpecs(event, league, o))
  {
    var stat, o, qs := StatOf(sport), Translate(books, sport), QuotesOf(books, sport);
    TranslateCollects(books, sport);
    FeedIsListing(stat, o, qs);
    ListingIsSound(stat, qs, MembersOf(o.order, o.rows));
    MarketIdsAreDistinct(stat, qs, MembersOf(o.order, o.rows), event, league);
    ListingIsTagged(stat, qs, MembersOf(o.order, o.rows), event, league);
    TaggedRowsDiffer(MarketSpecs(event, league, o));
  }

  // ---- every odd becomes one selection ----

  lemma PriceOfQuote(stat: string, qs: seq<Quote>, m: Member)
    requires FromQuote(stat, qs, m) && AllRegular(stat, qs)
    ensures var price := First(qs, OddId(m.parts)).value.price;
      price > 1.0 && PriceOf(m.odd) == Normalized(price) && Normalized(price).Some?
  {
    FirstIsMember(qs, OddId(m.parts));
    PriceErrorBound(First(qs, OddId(m.parts)).value.price);
  }

  /** Every oddID of a translated payload becomes exactly one selection: the markets list the members of the groups,
      the groups partition the odds, and a selection carries the normalized price of the first quote of its odd. */
  lemma EveryOddBecomesOneSelection(books: seq<Book>, sport: string, event: Id, league: Id)
    ensures
      var o, qs := Translate(books, sport), QuotesOf(books, sport);
      FeedOrder(o) &&
      var ms, specs := MembersOf(o.order, o.rows), MarketSpecs(event, league, o);
      var g := GroupAll(ms);
      && |ms| == |o.order| && (forall i :: 0 <= i < |ms| ==> OddId(ms[i].parts) == o.order[i])
      && Partitions(g, ms)
      && |specs| == |g.order|
      && (forall i :: 0 <= i < |specs| ==> specs[i].selections == SelectionsOf(specs[i].id, g.members[g.order[i]]))
      && (forall m <- ms :: First(qs, OddId(m.parts)).Some?
                            && PriceOf(m.odd) == Normalized(First(qs, OddId(m.parts)).value.price) != None)
  {
    var stat, o, qs := StatOf(sport), Translate(books, sport), QuotesOf(books, sport);
    TranslateCollects(books, sport);
    FeedIsListing(stat, o, qs);
    var ms := MembersOf(o.order, o.rows);
    EveryOddIsAdmitted(stat, o, qs);
    GroupingPartitions(ms);
    forall m | m in ms
      ensures First(qs, OddId(m.parts)).Some? && PriceOf(m.odd) == Normalized(First(qs, OddId(m.parts)).value.price) != None
    {
      PriceOfQuote(stat, qs, m);
    }
  }

  // ---- the line of a spread ----

  lemma {:induction false} FirstLineIs(ms: seq<Member>, side: string)
    ensures var l := FirstLine(ms, side);
      && (l.Some? ==> exists m <- ms :: (side == "" || m.parts.side == side) && LineFor(m.parts, m.odd) == l)
      && (l.None? ==> forall m <- ms :: side == "" || m.parts.side == side ==> LineFor(m.parts, m.odd).None?)
  {
    if ms != [] {
      FirstLineIs(ms[1..], side);
      assert ms == [ms[0]] + ms[1..];
    }
  }

  // The line the feed gave first on one side of the spread.
  function HandicapOn(qs: seq<Quote>, stat: string, side: string): Option<PlainDecimal> {
    match First(qs, SpreadId(stat, side))
    case Some(q) => q.line
    case None => None
  }

  ghost predicate Complete(qs: seq<Quote>, ms: seq<Member>) {
    forall id :: First(qs, id).Some? ==> exists m <- ms :: OddId(m.parts) == id
  }

  // Every member of a spread group carries the handicap first quoted on its side.
  lemma SpreadMember(stat: string, qs: seq<Quote>, m: Member)
    requires Stat(stat) && FromQuote(stat, qs, m) && AllRegular(stat, qs) && m.parts.betType == "sp"
    ensures m.parts == Parts(stat, m.parts.side, "game", "sp", m.parts.side)
    ensures LineFor(m.parts, m.odd) == HandicapOn(qs, stat, m.parts.side) != None
  {
    LineReadsBack(stat, qs, m);
  }

  lemma SpreadSide(stat: string, qs: seq<Quote>, ms: seq<Member>, k: GroupKey, side: string)
    requires Listing(stat, qs, ms) && Complete(qs, ms) && k == GroupKey(stat, "game", "sp", "", "") && side in {"home", "away"}
    ensures FirstLine(OfKey(ms, k), side) == HandicapOn(qs, stat, side)
  {
    var group := OfKey(ms, k);
    FirstLineIs(group, side);
    forall m | m in group ensures m.parts.betType == "sp" && LineFor(m.parts, m.odd) == HandicapOn(qs, stat, m.parts.side) != None {
      OfKeyHolds(ms, k, m);
      SpreadMember(stat, qs, m);
    }
    if HandicapOn(qs, stat, side).Some? {
      SpreadOddIsGrouped(stat, qs, ms, k, side);
    }
  }

  lemma SpreadOddIsGrouped(stat: string, qs: seq<Quote>, ms: seq<Member>, k: GroupKey, side: string)
    requires Listing(stat, qs, ms) && Complete(qs, ms) && k == GroupKey(stat, "game", "sp", "", "") && side in {"home", "away"}
    requires First(qs, SpreadId(stat, side)).Some?
    ensures exists m <- OfKey(ms, k) :: m.parts.side == side
  {
    var m :| m in ms && OddId(m.parts) == SpreadId(stat, side);
    ShapesAreKeyed(stat, m.parts, Parts(stat, side, "game", "sp", side));
    OfKeyHolds(ms, k, m);
  }

  lemma SpreadGroupLine(stat: string, qs: seq<Quote>, ms: seq<Member>, k: GroupKey, event: Id, league: Id)
    requires Listing(stat, qs, ms) && Complete(qs, ms) && k in GroupAll(ms).members
    requires Buildable(GroupAll(ms).members[k]) && MarketOf(event, league, GroupAll(ms).members[k]).category.Spread?
    ensures
      var home, away := HandicapOn(qs, stat, "home"), HandicapOn(qs, stat, "away");
      CanonicalLine("sp", GroupAll(ms).members[k]) == (if home.Some? then home else if away.Some? then Some(Negated(away.value)) else None)
    ensures HandicapOn(qs, stat, "home").Some? || HandicapOn(qs, stat, "away").Some?
    ensures GroupAll(ms).members[k][0].parts.betType == "sp"
  {
    GroupsByKey(ms);
    ListingGroups(stat, qs, ms, k);
    var group := OfKey(ms, k);
    GroupIsBuildable(stat, qs, k, group);
    var m := group[0];
    assert m in group && m.parts.betType == "sp";
    SpreadMember(stat, qs, m);
    SpreadSide(stat, qs, ms, k, "home");
    SpreadSide(stat, qs, ms, k, "away");
  }

  lemma FeedIsComplete(stat: string, o: Odds, qs: seq<Quote>)
    requires Feed(stat, o, qs)
    ensures FeedOrder(o) && Complete(qs, MembersOf(o.order, o.rows))
  {
    EveryOddIsAdmitted(stat, o, qs);
    var ms := MembersOf(o.order, o.rows);
    forall id | First(qs, id).Some? ensures exists m <- ms :: OddId(m.parts) == id {
      var i :| 0 <= i < |IdsOf(qs)| && IdsOf(qs)[i] == id;
      assert ms[i] in ms;
    }
  }

  // The handicap that settles a spread.
  function SpreadHandicap(qs: seq<Quote>, stat: string): Option<PlainDecimal> {
    var home, away := HandicapOn(qs, stat, "home"), HandicapOn(qs, stat, "away");
    if home.Some? then home else if away.Some? then Some(Negated(away.value)) else None
  }

  lemma SpreadLine(stat: string, qs: seq<Quote>, ms: seq<Member>, event: Id, league: Id, m: MarketSpec)
    requires Listing(stat, qs, ms) && Complete(qs, ms) && Sound(GroupAll(ms))
    requires m in MarketsOf(event, league, GroupAll(ms)) && m.category.Spread?
    ensures SpreadHandicap(qs, stat).Some? && m.line == LineValueOf(SpreadHandicap(qs, stat))
  {
    var k := MarketKey(event, league, GroupAll(ms), m);
    LineOfMarket(event, league, GroupAll(ms).members[k]);
    SpreadGroupLine(stat, qs, ms, k, event, league);
  }

  /** A spread market's line is the handicap first quoted on the home side, whatever book quoted it; only a feed that
      never prices the home side falls back to the handicap first quoted on the away side, negated. */
  lemma SpreadLineIsHomeHandicap(books: seq<Book>, sport: string, event: Id, league: Id, m: MarketSpec)
    requires FeedOrder(Translate(books, sport))
    requires m in MarketSpecs(event, league, Translate(books, sport)) && m.category.Spread?
    ensures
      var line := SpreadHandicap(QuotesOf(books, sport), StatOf(sport));
      line.Some? && m.line == LineValueOf(line)
  {
    var stat, o, qs := StatOf(sport), Translate(books, sport), QuotesOf(books, sport);
    TranslateCollects(books, sport);
    FeedIsListing(stat, o, qs);
    FeedIsComplete(stat, o, qs);
    ListingIsSound(stat, qs, MembersOf(o.order, o.rows));
    SpreadLine(stat, qs, MembersOf(o.order, o.rows), event, league, m);
  }

  // ---- settlement of translated markets ----

  // The sides of a stored spread settle by the scores and the handicap h on the home side.
  predicate Follows(e: Event, row: Market, h: real)
    requires Scored(e)
  {
    var home, away := e.homeScore.value as real, e.awayScore.value as real;
    && (ComputedSpread(e, row, Home) == Some(Won) <==> home + h > away)
    && (ComputedSpread(e, row, Home) == Some(Lost) <==> home + h < away)
    && (ComputedSpread(e, row, Away) == Some(Won) <==> home + h < away)
    && (ComputedSpread(e, row, Away) == Some(Lost) <==> home + h > away)
  }

  /** A spread settles HOME WON when home + hdp > away, LOST when below and PUSH on equality, for all scores, exactly
      when storing the handicap to two decimals moves it across (or onto) no whole number. */
  lemma SpreadSettlesByHandicap(row: Market, h: real)
    requires row.category.Spread? && row.line == StoredLine(Some(h))
    ensures LineSurvives(Some(h)) <==> forall e: Event :: Scored(e) ==> Follows(e, row, h)
  {
    LineComparisonsSurvive(h);
    if LineSurvives(Some(h)) {
      forall e: Event | Scored(e) ensures Follows(e, row, h) {
        RoundingKeepsOrder(e.awayScore.value - e.homeScore.value, h);
      }
    } else {
      var n :| !SameOrder(n, h, RoundToCents(h));
      var e := Event("", Finished, true, Some(0), Some(n), None, None, false, None, 0);
      assert Scored(e) && !Follows(e, row, h);
    }
  }

  lemma UnscoredSelections(sels: seq<SelectionSpec>)
    requires forall s <- sels :: s.score.None?
    ensures GradePropsGame(sels) == []
  {
    if sels != [] { UnscoredSelections(sels[..|sels| - 1]); }
  }

  lemma UnscoredMarket(m: MarketSpec)
    requires forall s <- m.selections :: s.score.None?
    ensures GradeMarket(m) == []
  {
    BySideFinds(m.selections, "home");
    BySideFinds(m.selections, "away");
    BySideFinds(m.selections, "over");
    BySideFinds(m.selections, "under");
    UnscoredSelections(m.selections);
  }

  /** No translated odd carries a score, so the PROVIDER grader finds nothing to grade in a translated payload. */
  lemma TranslatedMarketsAreUngraded(books: seq<Book>, sport: string, event: Id, league: Id, m: MarketSpec)
    requires FeedOrder(Translate(books, sport)) && m in MarketSpecs(event, league, Translate(books, sport))
    ensures GradeMarket(m) == []
  {
    var stat, o, qs := StatOf(sport), Translate(books, sport), QuotesOf(books, sport);
    TranslateCollects(books, sport);
    FeedIsListing(stat, o, qs);
    var ms := MembersOf(o.order, o.rows);
    ListingIsSound(stat, qs, ms);
    var k := MarketKey(event, league, GroupAll(ms), m);
    ListingGroups(stat, qs, ms, k);
    MembersUnscored(stat, qs, k, GroupAll(ms).members[k], event, league);
    UnscoredMarket(m);
  }

  lemma MembersUnscored(stat: string, qs: seq<Quote>, k: GroupKey, ms: seq<Member>, event: Id, league: Id)
    requires Grouping(stat, qs, k, ms) && Buildable(ms)
    ensures forall s <- MarketOf(event, league, ms).selections :: s.score.None?
  {
    var m := MarketOf(event, league, ms);
    forall s | s in m.selections ensures s.score.None? {
      var i :| 0 <= i < |m.selections| && m.selections[i] == s;
      assert ms[i] in ms;
    }
  }

  // ---- the market types the normalizer makes ----

  const LEGACY_TYPES := {
    "NHL_MATCH_WINNER_REG", "SOCCER_DOUBLE_CHANCE", "SOCCER_DRAW_NO_BET", "SOCCER_TEAM_TOTAL_GOALS", "NHL_TEAM_TOTAL_GOALS"}

  // Without an override a type ends as its bet type does.
  lemma TypeEnding(p: Parts, league: string)
    requires CategoryOf(p.betType).Some? && TypeOverride(p, league).None?
    ensures var t := MarketType(p, league); t != "" && t[|t| - 1] in {'L', 'Y', 'P', 'U', 'N', 'O'}
  {
    assert Upper("ml") == "ML" && Upper("ml3way") == "ML3WAY" && Upper("sp") == "SP" && Upper("ou") == "OU";
    assert Upper("yn") == "YN" && Upper("eo") == "EO";
    var t, bet := MarketType(p, league), Upper(p.betType);
    assert t[|t| - 1] == bet[|bet| - 1];
  }

  lemma NoLegacyType(p: Parts, league: string)
    requires CategoryOf(p.betType).Some?
    ensures MarketType(p, league) !in LEGACY_TYPES
  {
    var t := MarketType(p, league);
    var n := |t|;
    if TypeOverride(p, league).None? {
      TypeEnding(p, league);
    } else if t == league + "_BTTS" {
      assert t[n - 1] == 'S' && t[n - 2] == 'T';
    } else {
      assert n <= 13;
    }
  }

  lemma BttsTypes(p: Parts, league: string)
    requires CategoryOf(p.betType).Some? && MarketType(p, league) in {"SOCCER_BTTS", "NHL_BTTS"}
    ensures league in {"SOCCER", "NHL"} && MarketType(p, league) == league + "_BTTS"
  {
    var t := MarketType(p, league);
    assert t[|t| - 1] == 'S';
    if TypeOverride(p, league).None? { TypeEnding(p, league); }
    assert t == league + "_BTTS";
    assert league == t[..|t| - 5];
    assert "SOCCER_BTTS"[..6] == "SOCCER" && "NHL_BTTS"[..3] == "NHL";
  }

  lemma UnknownPropsStayOpen(e: Event, m: Market, kind: SelectionType)
    requires m.kind !in LEGACY_TYPES
    ensures m.category.PropsTeam? ==> ComputedOutcome(e, m, kind).None?
    ensures m.category.PropsGame? && ComputedOutcome(e, m, kind).Some? ==> m.kind in {"SOCCER_BTTS", "NHL_BTTS"} && Scored(e)
  {
  }

  /** Of the markets the normalizer makes, COMPUTED decides no team total, and of the game props only
      both-teams-to-score, and that only in a league whose id is SOCCER or NHL; the types its other branches ask for
      are never made, and no moneyline is exempt. What PROVIDER skips in the rest is voided. */
  lemma NormalizedPropsStayOpen(event: Id, league: Id, ms: seq<Member>, e: Event, kind: SelectionType)
    requires Buildable(ms)
    ensures
      var m := MarketOf(event, league, ms);
      && m.kind != "NHL_MATCH_WINNER_REG"
      && (m.category.PropsTeam? ==> ComputedOutcome(e, RowOf(event, m), kind).None?)
      && (m.category.PropsGame? && ComputedOutcome(e, RowOf(event, m), kind).Some? ==>
            league in {"SOCCER", "NHL"} && m.kind == league + "_BTTS" && Scored(e))
  {
    var p, m := ms[0].parts, MarketOf(event, league, ms);
    NoLegacyType(p, league);
    UnknownPropsStayOpen(e, RowOf(event, m), kind);
    if m.kind in {"SOCCER_BTTS", "NHL_BTTS"} { BttsTypes(p, league); }
  }

  // ---- collisions ----

  lemma TwoMembers(a: Parts, b: Parts, x: OddRow, y: OddRow)
    requires Admit(OddId(a)) == Some(a) && Admit(OddId(b)) == Some(b) && OddId(a) != OddId(b)
    ensures MembersOf([OddId(a), OddId(b)], map[OddId(a) := x, OddId(b) := y]) == [Member(a, x), Member(b, y)]
  {
    var rows := map[OddId(a) := x, OddId(b) := y];
    var order := [OddId(a), OddId(b)];
    MembersStep(order, rows, 0);
    MembersStep(order, rows, 1);
    assert order[..1] == [OddId(a)] && order[..2] == order && order[..0] == [];
  }

  lemma TwoMoneylines(a: Parts, b: Parts, x: OddRow, y: OddRow)
    requires a.betType == b.betType == "ml" && (a.stat, a.period) != (b.stat, b.period)
    requires Buildable([Member(a, x)]) && Buildable([Member(b, y)])
    ensures
      var g := GroupAll([Member(a, x), Member(b, y)]);
      Sound(g) && |g.order| == 2 && g.members[g.order[0]] == [Member(a, x)] && g.members[g.order[1]] == [Member(b, y)]
  {
    GroupStep([], Member(a, x));
    GroupStep([Member(a, x)], Member(b, y));
    assert [] + [Member(a, x)] == [Member(a, x)];
    assert [Member(a, x)] + [Member(b, y)] == [Member(a, x), Member(b, y)];
  }

  lemma GroupsCollide(event: Id, league: Id, g: Groups)
    requires Sound(g) && |g.order| > 1
    requires MarketOf(event, league, g.members[g.order[0]]).id == MarketOf(event, league, g.members[g.order[1]]).id
    ensures !Pipeline.DistinctIds(MarketsOf(event, league, g))
  {
    var specs := MarketsOf(event, league, g);
    assert specs[0].id == specs[1].id;
  }

  lemma SharedScopeCollides(event: Id, league: Id, a: Parts, b: Parts, x: OddRow, y: OddRow)
    requires Admit(OddId(a)) == Some(a) && Admit(OddId(b)) == Some(b) && OddId(a) != OddId(b)
    requires a.betType == b.betType == "ml" && a.period != b.period && (a.stat, a.entity) == (b.stat, b.entity)
    requires SCOPES[a.period] == SCOPES[b.period]
    ensures !Pipeline.DistinctIds(MarketSpecs(event, league, Odds([OddId(a), OddId(b)], map[OddId(a) := x, OddId(b) := y])))
  {
    TwoMembers(a, b, x, y);
    PassedIsFree(a);
    PassedIsFree(b);
    TwoMoneylines(a, b, x, y);
    MarketsCollideExactly(event, league, [Member(a, x)], event, league, [Member(b, y)]);
    GroupsCollide(event, league, GroupAll([Member(a, x), Member(b, y)]));
  }

  // The home side of a two-way moneyline on goals.
  lemma HomeMoneylineIsAdmitted(period: string)
    requires '-' !in period && period in SCOPES
    ensures var p := Parts("goals", "home", period, "ml", "home"); Admit(OddId(p)) == Some(p)
  {
    var p := Parts("goals", "home", period, "ml", "home");
    assert Free(Fields(p), '-') by { assert '-' !in "goals" && '-' !in "home" && '-' !in "ml"; }
    OddIdReadsBack(p);
  }

  /** A payload that quotes one moneyline for two periods of the same scope makes two markets with one id, which the
      bulk upsert refuses. */
  lemma PeriodsCollide(event: Id, league: Id, p: string, q: string, x: OddRow, y: OddRow)
    requires p in SCOPES && q in SCOPES && p != q && SCOPES[p] == SCOPES[q] && '-' !in p && '-' !in q
    ensures
      var a, b := OddId(Parts("goals", "home", p, "ml", "home")), OddId(Parts("goals", "home", q, "ml", "home"));
      !Pipeline.DistinctIds(MarketSpecs(event, league, Odds([a, b], map[a := x, b := y])))
  {
    var a, b := Parts("goals", "home", p, "ml", "home"), Parts("goals", "home", q, "ml", "home");
    HomeMoneylineIsAdmitted(p);
    HomeMoneylineIsAdmitted(q);
    assert Admit(OddId(a)) != Admit(OddId(b));
    SharedScopeCollides(event, league, a, b, x, y);
  }

  // "game" and "reg" are such periods: both are the full game.
  lemma GameAndRegulationShareScope() returns (game: string, reg: string)
    ensures game == "game" && reg == "reg" && game in SCOPES && reg in SCOPES && SCOPES[game] == SCOPES[reg]
    ensures '-' !in game && '-' !in reg && game != reg
  {
    game, reg := "game", "reg";
    assert |game| != |reg|;
  }

  /** So a payload that quotes the home moneyline for "game" and for "reg" fails. */
  lemma GameAndRegulationCollide(event: Id, league: Id, x: OddRow, y: OddRow) returns (game: string, reg: string)
    ensures game == "game" && reg == "reg"
    ensures
      var a, b := OddId(Parts("goals", "home", game, "ml", "home")), OddId(Parts("goals", "home", reg, "ml", "home"));
      !Pipeline.DistinctIds(MarketSpecs(event, league, Odds([a, b], map[a := x, b := y])))
  {
    game, reg := GameAndRegulationShareScope();
    PeriodsCollide(event, league, game, reg, x, y);
  }

  /** The side quoted first names a moneyline or a spread: the same odds in another order are another market. */
  lemma FirstSideNamesTheMarket(event: Id, league: Id, a: Member, b: Member)
    requires AdmittedGroup([a]) && AdmittedGroup([b]) && KeyOf(a) == KeyOf(b) && a.parts.entity != b.parts.entity
    ensures Buildable([a, b]) && Buildable([b, a])
    ensures MarketOf(event, league, [a, b]).id != MarketOf(event, league, [b, a]).id
  {
    assert [a, b][0] == a && [b, a][0] == b;
    MarketsCollideExactly(event, league, [a, b], event, league, [b, a]);
  }
}
