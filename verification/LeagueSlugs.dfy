/** Resolving a provider's league slug: the exact base slugs first, then an ordered scan of anchored patterns. */
module LeagueSlugs {
  import opened Wrappers
  import opened Domain

  const PHASES := [
    "playoffs", "postseason", "preseason", "finals", "knockout-stage",
    "group-stage", "qualification", "championship-round", "relegation-round", "main-round"]

  function Tail(i: nat): string
    requires i < |PHASES|
  {
    "-" + PHASES[i]
  }

  predicate EndsWith(s: string, tail: string) {
    |tail| <= |s| && s[|s| - |tail|..] == tail
  }

  function StripFrom(slug: string, i: nat): string
    requires i <= |PHASES|
    decreases |PHASES| - i
  {
    if i == |PHASES| then slug
    else if EndsWith(slug, Tail(i)) then slug[..|slug| - |Tail(i)|]
    else StripFrom(slug, i + 1)
  }

  function StripPhase(slug: string): string {
    StripFrom(slug, 0)
  }

  // ---- no phase tail is a suffix of another ----

  // Characters counted from the end; the three of them tell the tails apart.
  function Mark(s: string): (char, char, char) {
    var n := |s|;
    (if n >= 1 then s[n - 1] else ' ', if n >= 7 then s[n - 7] else ' ', if n >= 8 then s[n - 8] else ' ')
  }

  predicate Marked(i: nat, m: (char, char, char)) {
    match i
    case 0 => m.0 == 's' && m.1 == 'l'
    case 1 => m.0 == 'n' && m.1 == 't'
    case 2 => m.0 == 'n' && m.1 == 'e'
    case 3 => m.0 == 's' && m.1 == '-'
    case 4 => m.0 == 'e' && m.1 == 't'
    case 5 => m.0 == 'e' && m.1 == 'p'
    case 6 => m.0 == 'n' && m.1 == 'i'
    case 7 => m.0 == 'd' && m.1 == 'p'
    case 8 => m.0 == 'd' && m.1 == 'n' && m.2 == 'o'
    case 9 => m.0 == 'd' && m.1 == 'n' && m.2 == 'i'
    case _ => false
  }

  lemma TailLeavesMark(slug: string, i: nat)
    requires i < |PHASES| && EndsWith(slug, Tail(i))
    ensures Marked(i, Mark(slug)) && |Tail(i)| >= 7 && slug[|slug| - 1] != '\n'
  {
    var t, k := Tail(i), |slug| - |Tail(i)|;
    assert forall j :: 0 <= j < |t| ==> slug[k + j] == t[j];
  }

  /** A slug ends with at most one phase tail: none is a suffix of another. */
  lemma OnePhaseOnly(slug: string, i: nat, j: nat)
    requires i < |PHASES| && j < |PHASES| && EndsWith(slug, Tail(i)) && EndsWith(slug, Tail(j))
    ensures i == j
  {
    TailLeavesMark(slug, i);
    TailLeavesMark(slug, j);
  }

  lemma {:induction false} StripFromIs(slug: string, i: nat)
    requires i <= |PHASES|
    ensures
      var base := StripFrom(slug, i);
      || (base == slug && forall j :: i <= j < |PHASES| ==> !EndsWith(slug, Tail(j)))
      || exists j :: i <= j < |PHASES| && EndsWith(slug, Tail(j)) && base == slug[..|slug| - |Tail(j)|]
    decreases |PHASES| - i
  {
    if i < |PHASES| && !EndsWith(slug, Tail(i)) { StripFromIs(slug, i + 1); }
  }

  /** Stripping undoes appending any one phase, whichever comes first in the list. */
  lemma StripOfPhase(base: string, i: nat)
    requires i < |PHASES|
    ensures StripPhase(base + Tail(i)) == base
  {
    var slug := base + Tail(i);
    assert EndsWith(slug, Tail(i));
    StripFromIs(slug, 0);
    var j :| 0 <= j < |PHASES| && EndsWith(slug, Tail(j)) && StripPhase(slug) == slug[..|slug| - |Tail(j)|];
    OnePhaseOnly(slug, i, j);
  }

  // ---- the resolver ----

  datatype League = League(id: Id, base: string)

  // {v: k}: a later entry replaces an earlier one of the same base.
  function Exact(catalog: seq<League>, slug: string): Option<Id> {
    if catalog == [] then None
    else
      var last := catalog[|catalog| - 1];
      if last.base == slug then Some(last.id) else Exact(catalog[..|catalog| - 1], slug)
  }

  function Chomp(slug: string): string {
    if slug != "" && slug[|slug| - 1] == '\n' then slug[..|slug| - 1] else slug
  }

  predicate IsPhaseOf(base: string, slug: string, i: nat)
    requires i <= |PHASES|
    decreases |PHASES| - i
  {
    i < |PHASES| && (slug == base + Tail(i) || IsPhaseOf(base, slug, i + 1))
  }

  // The pattern ^base(?:-(?:phases))?$ on the start of the slug; $ also matches before a final newline.
  predicate Matches(base: string, slug: string) {
    slug == base || IsPhaseOf(base, slug, 0) || Chomp(slug) == base || IsPhaseOf(base, Chomp(slug), 0)
  }

  function Scan(catalog: seq<League>, slug: string): Option<Id> {
    if catalog == [] then None
    else if Matches(catalog[0].base, slug) then Some(catalog[0].id)
    else Scan(catalog[1..], slug)
  }

  function Match(catalog: seq<League>, slug: string): Option<Id> {
    if slug == "" then None
    else if Exact(catalog, slug).Some? then Exact(catalog, slug)
    else Scan(catalog, slug)
  }

  function Get(m: map<string, Id>, key: string): Option<Id> {
    if key in m then Some(m[key]) else None
  }

  // The inverse map, refilled from the catalog.
  method RebuildMaps(catalog: seq<League>) returns (direct: map<string, Id>)
    ensures forall s :: Get(direct, s) == Exact(catalog, s)
  {
    direct := map[];
    for i := 0 to |catalog|
      invariant forall s :: Get(direct, s) == Exact(catalog[..i], s)
    {
      assert catalog[..i + 1][..i] == catalog[..i];
      direct := direct[catalog[i].base := catalog[i].id];
    }
    assert catalog[..|catalog|] == catalog;
  }

  method MatchLeagueSlug(catalog: seq<League>, direct: map<string, Id>, slug: string) returns (id: Option<Id>)
    requires forall s :: Get(direct, s) == Exact(catalog, s)
    ensures id == Match(catalog, slug)
  {
    if slug == "" { return None; }
    assert Get(direct, slug) == Exact(catalog, slug);
    if slug in direct { return Some(direct[slug]); }
    for i := 0 to |catalog|
      invariant Scan(catalog, slug) == Scan(catalog[i..], slug)
    {
      if Matches(catalog[i].base, slug) { return Some(catalog[i].id); }
      assert catalog[i..][1..] == catalog[i + 1..];
    }
    return None;
  }

  // ---- the simple lookup ----

  ghost predicate DistinctBases(catalog: seq<League>) {
    forall i, j :: 0 <= i < j < |catalog| ==> catalog[i].base != catalog[j].base
  }

  function Lookup(catalog: seq<League>, slug: string): Option<Id> {
    if Exact(catalog, slug).Some? then Exact(catalog, slug) else Exact(catalog, StripPhase(slug))
  }

  lemma {:induction false} ExactFinds(catalog: seq<League>, slug: string)
    ensures var r := Exact(catalog, slug);
      && (r.None? <==> forall l <- catalog :: l.base != slug)
      && (r.Some? ==> League(r.value, slug) in catalog)
  {
    if catalog != [] {
      ExactFinds(catalog[..|catalog| - 1], slug);
      assert catalog == catalog[..|catalog| - 1] + [catalog[|catalog| - 1]];
    }
  }

  lemma {:induction false} ScanFinds(catalog: seq<League>, slug: string)
    ensures var r := Scan(catalog, slug);
      && (r.None? <==> forall l <- catalog :: !Matches(l.base, slug))
      && (r.Some? ==> exists l <- catalog :: l.id == r.value && Matches(l.base, slug))
  {
    if catalog != [] {
      ScanFinds(catalog[1..], slug);
      assert catalog == [catalog[0]] + catalog[1..];
    }
  }

  lemma {:induction false} PhaseOf(base: string, slug: string, i: nat)
    requires i <= |PHASES|
    ensures IsPhaseOf(base, slug, i) <==> exists j :: i <= j < |PHASES| && slug == base + Tail(j)
    decreases |PHASES| - i
  {
    if i < |PHASES| { PhaseOf(base, slug, i + 1); }
  }

  lemma PhaseStrips(base: string, slug: string)
    requires IsPhaseOf(base, slug, 0)
    ensures base == StripPhase(slug)
  {
    PhaseOf(base, slug, 0);
    var i :| 0 <= i < |PHASES| && slug == base + Tail(i);
    StripOfPhase(base, i);
  }

  lemma CutTail(s: string, tail: string)
    requires EndsWith(s, tail)
    ensures s == s[..|s| - |tail|] + tail
  {
  }

  lemma {:induction false} StrippedTail(slug: string, i: nat) returns (j: nat)
    requires i <= |PHASES| && StripFrom(slug, i) != slug
    ensures j < |PHASES| && slug == StripFrom(slug, i) + Tail(j)
    decreases |PHASES| - i
  {
    if EndsWith(slug, Tail(i)) {
      CutTail(slug, Tail(i));
      j := i;
    } else {
      j := StrippedTail(slug, i + 1);
    }
  }

  lemma StrippedIsPhase(slug: string)
    ensures StripPhase(slug) == slug || IsPhaseOf(StripPhase(slug), slug, 0)
  {
    if StripPhase(slug) != slug {
      var j := StrippedTail(slug, 0);
      PhaseOf(StripPhase(slug), slug, 0);
    }
  }

  // The bases a slug stands for: itself, and itself without its phase.
  lemma BaseExactly(base: string, slug: string)
    ensures base == slug || IsPhaseOf(base, slug, 0) <==> base == slug || base == StripPhase(slug)
  {
    if IsPhaseOf(base, slug, 0) { PhaseStrips(base, slug); }
    StrippedIsPhase(slug);
  }

  lemma NewlineHasNoPhase(slug: string)
    requires Chomp(slug) != slug
    ensures StripPhase(slug) == slug
  {
    StripFromIs(slug, 0);
    if j :| 0 <= j < |PHASES| && EndsWith(slug, Tail(j)) { TailLeavesMark(slug, j); }
  }

  lemma MatchesExactly(base: string, slug: string)
    ensures Matches(base, slug) <==> base in {slug, StripPhase(slug), Chomp(slug), StripPhase(Chomp(slug))}
  {
    BaseExactly(base, slug);
    BaseExactly(base, Chomp(slug));
  }

  lemma SameBaseSameLeague(catalog: seq<League>, a: League, b: League)
    requires DistinctBases(catalog) && a in catalog && b in catalog && a.base == b.base
    ensures a == b
  {
    var i :| 0 <= i < |catalog| && catalog[i] == a;
    var j :| 0 <= j < |catalog| && catalog[j] == b;
    assert i == j;
  }

  // When no base is the slug itself, the scan finds the base without the phase.
  lemma ScanFindsPhase(catalog: seq<League>, slug: string)
    requires DistinctBases(catalog) && Chomp(slug) == slug && Exact(catalog, slug).None?
    ensures Scan(catalog, slug) == Exact(catalog, StripPhase(slug))
  {
    ExactFinds(catalog, slug);
    ExactFinds(catalog, StripPhase(slug));
    ScanFinds(catalog, slug);
    forall l | l in catalog ensures Matches(l.base, slug) <==> l.base == StripPhase(slug) { MatchesExactly(l.base, slug); }
    if Scan(catalog, slug).Some? {
      var l :| l in catalog && l.id == Scan(catalog, slug).value && Matches(l.base, slug);
      SameBaseSameLeague(catalog, l, League(Exact(catalog, l.base).value, l.base));
    }
  }

  // Past a final newline the scan finds something exactly when the lookup does without it.
  lemma ScanPastNewline(catalog: seq<League>, slug: string)
    requires Chomp(slug) != slug && Exact(catalog, slug).None?
    ensures Scan(catalog, slug).Some? <==> Lookup(catalog, Chomp(slug)).Some?
  {
    var s := Chomp(slug);
    NewlineHasNoPhase(slug);
    ExactFinds(catalog, slug);
    ExactFinds(catalog, s);
    ExactFinds(catalog, StripPhase(s));
    ScanFinds(catalog, slug);
    forall l | l in catalog ensures Matches(l.base, slug) <==> l.base == s || l.base == StripPhase(s) { MatchesExactly(l.base, slug); }
  }

  // What $ lets through: a slug that ends in a newline, is no base itself and resolves without it.
  predicate SlipsPast(catalog: seq<League>, slug: string) {
    Chomp(slug) != slug && Exact(catalog, slug).None? && Lookup(catalog, Chomp(slug)).Some?
  }

  /** The ordered pattern scan is the two-step lookup "exact slug, else the slug without its phase" exactly when the
      slug does not slip past: then the lookup finds nothing and the scan something. No slug resolves to nothing. */
  lemma MatchIsLookup(catalog: seq<League>, slug: string)
    requires DistinctBases(catalog)
    ensures slug == "" ==> Match(catalog, slug).None?
    ensures slug != "" ==> (Match(catalog, slug) == Lookup(catalog, slug) <==> !SlipsPast(catalog, slug))
  {
    if Exact(catalog, slug).None? {
      if Chomp(slug) == slug {
        ScanFindsPhase(catalog, slug);
      } else {
        NewlineHasNoPhase(slug);
        ScanPastNewline(catalog, slug);
      }
    }
  }

  /** So in every catalog a base followed by a newline resolves, and the lookup knows no such slug: "usa-nba" and a
      newline is the NBA. */
  lemma NewlineSlipsPast(id: Id, base: string)
    ensures Match([League(id, base)], base + "\n") == Some(id) && Lookup([League(id, base)], base + "\n") == None
  {
    var catalog, slug := [League(id, base)], base + "\n";
    assert Chomp(slug) == base && Matches(base, slug);
    NewlineHasNoPhase(slug);
    assert Exact(catalog, slug) == None;
  }

  lemma ExactForgetsOrder(a: seq<League>, b: seq<League>, slug: string)
    requires DistinctBases(a) && DistinctBases(b) && multiset(a) == multiset(b)
    ensures Exact(a, slug) == Exact(b, slug)
  {
    ExactFinds(a, slug);
    ExactFinds(b, slug);
    forall l ensures l in a <==> l in b { assert l in multiset(a) <==> l in multiset(b); }
    if Exact(a, slug).Some? {
      SameBaseSameLeague(b, League(Exact(a, slug).value, slug), League(Exact(b, slug).value, slug));
    }
  }

  lemma LookupForgetsOrder(a: seq<League>, b: seq<League>, slug: string)
    requires DistinctBases(a) && DistinctBases(b) && multiset(a) == multiset(b)
    ensures Lookup(a, slug) == Lookup(b, slug)
  {
    ExactForgetsOrder(a, b, slug);
    ExactForgetsOrder(a, b, StripPhase(slug));
  }

  // ---- a slug that ends in a newline ----

  lemma ChompedMatches(base: string, s: string)
    ensures Matches(base, s + "\n") <==> base == s + "\n" || base == s || base == StripPhase(s)
  {
    assert Chomp(s + "\n") == s;
    NewlineHasNoPhase(s + "\n");
    MatchesExactly(base, s + "\n");
  }

  lemma {:induction false} ScanFirst(catalog: seq<League>, slug: string, i: nat)
    requires i < |catalog| && Matches(catalog[i].base, slug) && forall j :: 0 <= j < i ==> !Matches(catalog[j].base, slug)
    ensures Scan(catalog, slug) == Some(catalog[i].id)
  {
    if i > 0 {
      assert !Matches(catalog[0].base, slug);
      ScanFirst(catalog[1..], slug, i - 1);
    }
  }

  lemma ExactAt(catalog: seq<League>, i: nat)
    requires DistinctBases(catalog) && i < |catalog|
    ensures Exact(catalog, catalog[i].base) == Some(catalog[i].id)
  {
    ExactFinds(catalog, catalog[i].base);
    SameBaseSameLeague(catalog, catalog[i], League(Exact(catalog, catalog[i].base).value, catalog[i].base));
  }

  // The league of the stripped slug stands before the league of the slug itself.
  ghost predicate Shadowed(catalog: seq<League>, s: string) {
    exists i, j :: 0 <= i < j < |catalog| && catalog[i].base == StripPhase(s) && catalog[j].base == s
  }

  ghost predicate DistinctLeagues(catalog: seq<League>) {
    DistinctBases(catalog) && forall i, j :: 0 <= i < j < |catalog| ==> catalog[i].id != catalog[j].id
  }

  lemma ShadowedScan(catalog: seq<League>, s: string, i: nat, j: nat)
    requires DistinctBases(catalog) && Exact(catalog, s + "\n").None?
    requires i < j < |catalog| && catalog[i].base == StripPhase(s) && catalog[j].base == s
    ensures Match(catalog, s + "\n") == Some(catalog[i].id) && Lookup(catalog, s) == Some(catalog[j].id)
  {
    forall l | l in catalog ensures Matches(l.base, s + "\n") <==> l.base == s + "\n" || l.base == s || l.base == StripPhase(s) {
      ChompedMatches(l.base, s);
    }
    ExactFinds(catalog, s + "\n");
    assert forall k :: 0 <= k < |catalog| ==> catalog[k] in catalog;
    ScanFirst(catalog, s + "\n", i);
    ExactAt(catalog, j);
  }

  lemma UnshadowedScan(catalog: seq<League>, s: string)
    requires DistinctBases(catalog) && Exact(catalog, s + "\n").None? && !Shadowed(catalog, s)
    ensures Match(catalog, s + "\n") == Lookup(catalog, s)
  {
    var slug := s + "\n";
    forall l | l in catalog ensures Matches(l.base, slug) <==> l.base == slug || l.base == s || l.base == StripPhase(s) {
      ChompedMatches(l.base, s);
    }
    assert forall k :: 0 <= k < |catalog| ==> catalog[k] in catalog;
    ExactFinds(catalog, slug);
    ExactFinds(catalog, s);
    ExactFinds(catalog, StripPhase(s));
    ScanFinds(catalog, slug);
    if j :| 0 <= j < |catalog| && catalog[j].base == s {
      ExactAt(catalog, j);
      ScanFirst(catalog, slug, j);
    } else if i :| 0 <= i < |catalog| && catalog[i].base == StripPhase(s) {
      ExactAt(catalog, i);
      ScanFirst(catalog, slug, i);
    }
  }

  /** A slug with a final newline still resolves, because $ matches before it; but it resolves as the slug without the
      newline exactly when the catalog does not list the stripped league before the league of the slug itself. */
  lemma NewlineResolvesExactly(catalog: seq<League>, s: string)
    requires DistinctLeagues(catalog) && Exact(catalog, s + "\n").None?
    ensures Match(catalog, s + "\n") == Lookup(catalog, s) <==> !Shadowed(catalog, s)
  {
    if Shadowed(catalog, s) {
      var i, j :| 0 <= i < j < |catalog| && catalog[i].base == StripPhase(s) && catalog[j].base == s;
      ShadowedScan(catalog, s, i, j);
    } else {
      UnshadowedScan(catalog, s);
    }
  }
  // ---- the order of the catalog ----

  // Both the slug without its newline and that without its phase are bases, and different ones.
  predicate Ambiguous(catalog: seq<League>, slug: string) {
    var s := Chomp(slug);
    s != slug && Exact(catalog, slug).None? && StripPhase(s) != s && Exact(catalog, s).Some? && Exact(catalog, StripPhase(s)).Some?
  }

  // A catalog that lists a league and its own phase has such slugs.
  lemma ListedPhaseIsAmbiguous(x: Id, y: Id, base: string, i: nat)
    requires i < |PHASES|
    ensures Ambiguous([League(x, base), League(y, base + Tail(i))], base + Tail(i) + "\n")
  {
    var s := base + Tail(i);
    var catalog := [League(x, base), League(y, s)];
    assert Chomp(s + "\n") == s;
    StripOfPhase(base, i);
    ExactFinds(catalog, s + "\n");
    ExactFinds(catalog, s);
    ExactFinds(catalog, base);
    assert catalog[0] in catalog && catalog[1] in catalog;
  }

  lemma UnambiguousForgetsOrder(a: seq<League>, b: seq<League>, slug: string)
    requires DistinctBases(a) && DistinctBases(b) && multiset(a) == multiset(b) && !Ambiguous(a, slug)
    ensures Match(a, slug) == Match(b, slug)
  {
    var s := Chomp(slug);
    ExactForgetsOrder(a, b, slug);
    if slug != "" && Exact(a, slug).None? {
      if s == slug {
        MatchIsLookup(a, slug);
        MatchIsLookup(b, slug);
        LookupForgetsOrder(a, b, slug);
      } else {
        assert slug == s + "\n";
        ExactForgetsOrder(a, b, s);
        ExactForgetsOrder(a, b, StripPhase(s));
        UnambiguousIsUnshadowed(a, slug);
        UnambiguousIsUnshadowed(b, slug);
        UnshadowedScan(a, s);
        UnshadowedScan(b, s);
        LookupForgetsOrder(a, b, s);
      }
    }
  }

  lemma UnambiguousIsUnshadowed(catalog: seq<League>, slug: string)
    requires DistinctBases(catalog) && !Ambiguous(catalog, slug) && Chomp(slug) != slug && Exact(catalog, slug).None?
    ensures !Shadowed(catalog, Chomp(slug))
  {
    var s := Chomp(slug);
    if i, j :| 0 <= i < j < |catalog| && catalog[i].base == StripPhase(s) && catalog[j].base == s {
      ExactAt(catalog, i);
      ExactAt(catalog, j);
    }
  }

  // The catalog with two entries exchanged.
  function Swapped(a: seq<League>, i: nat, j: nat): seq<League>
    requires i < j < |a|
  {
    a[i := a[j]][j := a[i]]
  }

  lemma SwappedIsSame(a: seq<League>, i: nat, j: nat)
    requires i < j < |a| && DistinctBases(a)
    ensures multiset(Swapped(a, i, j)) == multiset(a) && DistinctBases(Swapped(a, i, j))
  {
  }

  lemma PlaceOf(catalog: seq<League>, base: string) returns (i: nat)
    requires Exact(catalog, base).Some?
    ensures i < |catalog| && catalog[i].base == base
  {
    ExactFinds(catalog, base);
    i :| i < |catalog| && catalog[i] == League(Exact(catalog, base).value, base);
  }

  // In one order the league of the stripped slug wins, in the other the league of the slug itself.
  lemma AmbiguousDependsOnOrder(a: seq<League>, slug: string) returns (b: seq<League>)
    requires DistinctLeagues(a) && Ambiguous(a, slug)
    ensures DistinctBases(b) && multiset(b) == multiset(a) && Match(b, slug) != Match(a, slug)
  {
    var s := Chomp(slug);
    assert slug == s + "\n";
    var i := PlaceOf(a, StripPhase(s));
    var j := PlaceOf(a, s);
    var first, second := if i < j then i else j, if i < j then j else i;
    b := Swapped(a, first, second);
    SwappedIsSame(a, first, second);
    ExactForgetsOrder(a, b, slug);
    ShadowedFirst(if i < j then a else b, if i < j then b else a, s, first, second);
  }

  lemma ShadowedFirst(a: seq<League>, b: seq<League>, s: string, i: nat, j: nat)
    requires DistinctLeagues(a) && DistinctBases(b) && multiset(a) == multiset(b) && Exact(a, s + "\n").None? && Exact(b, s + "\n").None?
    requires i < j < |a| && |a| == |b| && a[i].base == StripPhase(s) && a[j].base == s && b[i] == a[j] && b[j] == a[i]
    ensures Match(a, s + "\n") != Match(b, s + "\n")
  {
    ShadowedScan(a, s, i, j);
    assert !Shadowed(b, s);
    UnshadowedScan(b, s);
    LookupForgetsOrder(a, b, s);
  }

  /** The order of the catalog does not matter to a slug exactly when it is not ambiguous; no slug without a final
      newline is. */
  lemma MatchForgetsOrder(a: seq<League>, slug: string)
    requires DistinctLeagues(a)
    ensures !Ambiguous(a, slug) <==> forall b :: DistinctBases(b) && multiset(b) == multiset(a) ==> Match(b, slug) == Match(a, slug)
  {
    if Ambiguous(a, slug) {
      var b := AmbiguousDependsOnOrder(a, slug);
    } else {
      forall b | DistinctBases(b) && multiset(b) == multiset(a) ensures Match(b, slug) == Match(a, slug) {
        UnambiguousForgetsOrder(a, b, slug);
      }
    }
  }
}
