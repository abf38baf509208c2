/** What a built catalog keeps: every prior pair, a one-to-one naming of bases, short ids, and a sport for every
    listed league whose sport is known. */
module CatalogFacts {
  import opened Wrappers
  import opened Domain
  import opened Text
  import opened LeagueSlugs
  import opened CatalogBuild

  // seen and leagues are inverse to each other, as far as seen names a league for every base.
  ghost predicate Coupled(b: Leagues) {
    && (forall base <- b.seen :: b.seen[base] in b.leagues && b.leagues[b.seen[base]] == base)
    && (forall id <- b.leagues :: b.leagues[id] in b.seen)
  }

  ghost predicate OneToOne(m: map<Id, string>) {
    forall x, y :: x in m && y in m && m[x] == m[y] ==> x == y
  }

  // Nothing is lost or renamed, and what is new is short and adds no second name for a base.
  ghost predicate Extends(a: Leagues, b: Leagues) {
    && Coupled(b)
    && (forall id <- a.leagues :: id in b.leagues && b.leagues[id] == a.leagues[id])
    && (forall base <- a.seen :: base in b.seen && b.seen[base] == a.seen[base])
    && (forall id <- a.sportOf :: id in b.sportOf && (id in a.leagues ==> b.sportOf[id] == a.sportOf[id]))
    && (forall id <- b.leagues :: id in a.leagues || (|id| <= 48 && b.leagues[id] !in a.seen))
    && (OneToOne(a.leagues) ==> OneToOne(b.leagues))
  }

  lemma ExtendsTransitive(a: Leagues, b: Leagues, c: Leagues)
    requires Extends(a, b) && Extends(b, c)
    ensures Extends(a, c)
  {
  }

  // From a to b the leagues of these bases, and no other, were asked for.
  ghost predicate Took(a: Leagues, b: Leagues, bases: set<string>) {
    && Extends(a, b) && b.seen.Keys <= a.seen.Keys + bases
    && (forall base <- bases :: base in b.seen && b.seen[base] in b.sportOf)
  }

  lemma TookBoth(a: Leagues, b: Leagues, c: Leagues, x: set<string>, y: set<string>)
    requires Took(a, b, x) && Took(b, c, y)
    ensures Took(a, c, x + y)
  {
    ExtendsTransitive(a, b, c);
  }

  function BaseOf(slug: string): set<string> {
    if slug == "" then {} else {StripPhase(slug)}
  }

  function BasesOf(slugs: seq<string>): set<string> {
    if slugs == [] then {} else BasesOf(slugs[..|slugs| - 1]) + BaseOf(slugs[|slugs| - 1])
  }

  // The bases listed under the sports that have an id.
  function ListedBases(ids: map<string, Id>, ls: seq<Listing>): set<string> {
    if ls == [] then {}
    else
      var last := ls[|ls| - 1];
      ListedBases(ids, ls[..|ls| - 1]) + (if last.sport in ids then BasesOf(last.leagues) else {})
  }

  // A base that has no league gets an id that no league has.
  lemma NewIdIsFresh(h: Hash, known: map<string, Id>, b: Leagues, base: string)
    requires Coupled(b) && known.Keys <= b.seen.Keys && base !in b.seen
    ensures var r := NewId(h, known, b.leagues, base); r.Success? ==> r.value !in b.leagues && |r.value| <= 48
  {
    assert base !in known;
  }

  lemma NewLeagueExtends(b: Leagues, id: Id, base: string, sport: Id)
    requires Coupled(b) && base !in b.seen && id !in b.leagues && |id| <= 48
    ensures Extends(b, Leagues(b.leagues[id := base], b.sportOf[id := sport], b.seen[base := id]))
  {
  }

  lemma AddLeagueTakes(h: Hash, known: map<string, Id>, b: Leagues, sport: Id, slug: string)
    requires Coupled(b) && known.Keys <= b.seen.Keys
    ensures var r := AddLeague(h, known, b, sport, slug); r.Success? ==> Took(b, r.value, BaseOf(slug))
  {
    var base := StripPhase(slug);
    if slug != "" && base !in b.seen {
      NewIdIsFresh(h, known, b, base);
      var r := NewId(h, known, b.leagues, base);
      if r.Success? { NewLeagueExtends(b, r.value, base, sport); }
    }
  }

  lemma {:induction false} AddLeaguesTakes(h: Hash, known: map<string, Id>, b: Leagues, sport: Id, slugs: seq<string>)
    requires Coupled(b) && known.Keys <= b.seen.Keys
    ensures var r := AddLeagues(h, known, b, sport, slugs); r.Success? ==> Took(b, r.value, BasesOf(slugs))
  {
    if slugs != [] {
      var front, last := slugs[..|slugs| - 1], slugs[|slugs| - 1];
      AddLeaguesTakes(h, known, b, sport, front);
      var before := AddLeagues(h, known, b, sport, front);
      if before.Success? {
        AddLeagueTakes(h, known, before.value, sport, last);
        var r := AddLeague(h, known, before.value, sport, last);
        if r.Success? { TookBoth(b, before.value, r.value, BasesOf(front), BaseOf(last)); }
      }
    }
  }

  lemma {:induction false} AddListingsTakes(h: Hash, known: map<string, Id>, ids: map<string, Id>, b: Leagues, ls: seq<Listing>)
    requires Coupled(b) && known.Keys <= b.seen.Keys
    ensures var r := AddListings(h, known, ids, b, ls); r.Success? ==> Took(b, r.value, ListedBases(ids, ls))
  {
    if ls != [] {
      var front, last := ls[..|ls| - 1], ls[|ls| - 1];
      AddListingsTakes(h, known, ids, b, front);
      var before := AddListings(h, known, ids, b, front);
      if before.Success? && last.sport in ids {
        AddLeaguesTakes(h, known, before.value, ids[last.sport], last.leagues);
        var r := AddLeagues(h, known, before.value, ids[last.sport], last.leagues);
        if r.Success? { TookBoth(b, before.value, r.value, ListedBases(ids, front), BasesOf(last.leagues)); }
      }
    }
  }

  // ---- the sport of a new league ----

  ghost predicate NewFrom(a: Leagues, b: Leagues, sport: Id, bases: set<string>) {
    forall id <- b.leagues :: id in a.leagues || (id in b.sportOf && b.sportOf[id] == sport && b.leagues[id] in bases)
  }

  lemma {:induction false} NewLeaguesGetTheSport(h: Hash, known: map<string, Id>, b: Leagues, sport: Id, slugs: seq<string>)
    requires Coupled(b) && known.Keys <= b.seen.Keys
    ensures var r := AddLeagues(h, known, b, sport, slugs); r.Success? ==> NewFrom(b, r.value, sport, BasesOf(slugs))
  {
    if slugs != [] {
      var front, last := slugs[..|slugs| - 1], slugs[|slugs| - 1];
      NewLeaguesGetTheSport(h, known, b, sport, front);
      AddLeaguesTakes(h, known, b, sport, front);
      var before := AddLeagues(h, known, b, sport, front);
      if before.Success? {
        OneLeagueGetsTheSport(h, known, before.value, sport, last);
        AddLeagueTakes(h, known, before.value, sport, last);
      }
    }
  }

  lemma OneLeagueGetsTheSport(h: Hash, known: map<string, Id>, b: Leagues, sport: Id, slug: string)
    requires Coupled(b) && known.Keys <= b.seen.Keys
    ensures var r := AddLeague(h, known, b, sport, slug); r.Success? ==> NewFrom(b, r.value, sport, BaseOf(slug))
  {
    if slug != "" && StripPhase(slug) !in b.seen { NewIdIsFresh(h, known, b, StripPhase(slug)); }
  }

  // Every league that is not in a has the sport of a listing that names it.
  ghost predicate SportsFrom(a: Leagues, b: Leagues, ids: map<string, Id>, ls: seq<Listing>) {
    forall id <- b.leagues :: id in a.leagues || SportFrom(b, id, ids, ls)
  }

  ghost predicate SportFrom(b: Leagues, id: Id, ids: map<string, Id>, ls: seq<Listing>)
    requires id in b.leagues
  {
    id in b.sportOf && exists l <- ls :: l.sport in ids && b.sportOf[id] == ids[l.sport] && b.leagues[id] in BasesOf(l.leagues)
  }

  /** A league the prior catalog lacks gets the sport of a listing that names it. */
  lemma {:induction false} NewLeaguesAreSported(h: Hash, known: map<string, Id>, ids: map<string, Id>, b: Leagues, ls: seq<Listing>)
    requires Coupled(b) && known.Keys <= b.seen.Keys
    ensures var r := AddListings(h, known, ids, b, ls); r.Success? ==> SportsFrom(b, r.value, ids, ls)
  {
    if ls != [] {
      var front, last := ls[..|ls| - 1], ls[|ls| - 1];
      NewLeaguesAreSported(h, known, ids, b, front);
      AddListingsTakes(h, known, ids, b, front);
      var before := AddListings(h, known, ids, b, front);
      assert ls == front + [last];
      if before.Success? && last.sport in ids {
        AddLeaguesTakes(h, known, before.value, ids[last.sport], last.leagues);
        NewLeaguesGetTheSport(h, known, before.value, ids[last.sport], last.leagues);
        var r := AddLeagues(h, known, before.value, ids[last.sport], last.leagues);
        if r.Success? { SportsOneMore(b, before.value, r.value, ids, front, last); }
      } else if before.Success? {
        SportsOneMore(b, before.value, before.value, ids, front, last);
      }
    }
  }

  lemma SportsOneMore(a: Leagues, b: Leagues, c: Leagues, ids: map<string, Id>, ls: seq<Listing>, last: Listing)
    requires SportsFrom(a, b, ids, ls)
    requires b == c || (Extends(b, c) && last.sport in ids && NewFrom(b, c, ids[last.sport], BasesOf(last.leagues)))
    ensures SportsFrom(a, c, ids, ls + [last])
  {
    assert last in ls + [last] && forall l <- ls :: l in ls + [last];
    forall id | id in c.leagues && id !in a.leagues ensures SportFrom(c, id, ids, ls + [last]) {
      if id in b.leagues { assert SportFrom(b, id, ids, ls); }
    }
  }

  // ---- listings, slug by slug ----

  ghost predicate Listed(ids: map<string, Id>, ls: seq<Listing>, slug: string) {
    slug != "" && exists l <- ls :: l.sport in ids && slug in l.leagues
  }

  lemma {:induction false} BasesOfIs(slugs: seq<string>, base: string)
    ensures base in BasesOf(slugs) <==> exists slug <- slugs :: slug != "" && base == StripPhase(slug)
  {
    if slugs != [] {
      BasesOfIs(slugs[..|slugs| - 1], base);
      assert slugs == slugs[..|slugs| - 1] + [slugs[|slugs| - 1]];
    }
  }

  lemma {:induction false} ListedBasesAre(ids: map<string, Id>, ls: seq<Listing>, base: string)
    ensures base in ListedBases(ids, ls) <==> exists slug :: Listed(ids, ls, slug) && base == StripPhase(slug)
  {
    if ls != [] {
      var front, last := ls[..|ls| - 1], ls[|ls| - 1];
      ListedBasesAre(ids, front, base);
      BasesOfIs(last.leagues, base);
      forall slug ensures Listed(ids, ls, slug) <==> Listed(ids, front, slug) || (slug != "" && last.sport in ids && slug in last.leagues) {
        assert forall m :: m in ls <==> m in front || m == last;
      }
    }
  }

  // ---- the seed ----

  ghost predicate DistinctKeys(entries: seq<League>) {
    forall i, j :: 0 <= i < j < |entries| ==> entries[i].id != entries[j].id
  }

  lemma {:induction false} SeedIsCoupled(entries: seq<League>)
    requires DistinctKeys(entries)
    ensures forall id, base :: League(id, base) in entries <==> id in AsMap(entries) && AsMap(entries)[id] == base
    ensures forall base <- Inverse(entries) :: League(Inverse(entries)[base], base) in entries
    ensures forall l <- entries :: l.base in Inverse(entries)
  {
    if entries != [] {
      var front, last := entries[..|entries| - 1], entries[|entries| - 1];
      SeedIsCoupled(front);
      assert entries == front + [last];
      assert forall l <- front :: l.id != last.id;
    }
  }

  // ---- the catalog ----

  ghost predicate Keeps(prior: Prior, c: Catalog) {
    && (forall l <- prior.leagues :: l.id in c.leagues && c.leagues[l.id] == l.base)
    && (forall l <- prior.leagues :: l.id in prior.sportOf ==> l.id in c.sportOf && c.sportOf[l.id] == prior.sportOf[l.id])
  }

  ghost predicate Covers(ids: map<string, Id>, listings: seq<Listing>, c: Catalog) {
    forall slug :: Listed(ids, listings, slug) ==>
      exists id :: id in c.leagues && c.leagues[id] == StripPhase(slug) && id in c.sportOf
  }

  lemma SeedCouples(prior: Prior)
    requires DistinctKeys(prior.leagues)
    ensures Coupled(Seeded(prior)) && Inverse(prior.leagues).Keys <= Seeded(prior).seen.Keys
  {
    SeedIsCoupled(prior.leagues);
    var seed := Seeded(prior);
    forall id | id in seed.leagues ensures seed.leagues[id] in seed.seen { assert League(id, seed.leagues[id]) in prior.leagues; }
    forall base | base in seed.seen ensures seed.seen[base] in seed.leagues && seed.leagues[seed.seen[base]] == base {
      assert League(seed.seen[base], base) in prior.leagues;
    }
  }

  // Every base of the catalog is named by the prior catalog or by a listing.
  ghost predicate Sourced(prior: Prior, ids: map<string, Id>, listings: seq<Listing>, base: string) {
    (exists l <- prior.leagues :: l.base == base) || exists slug :: Listed(ids, listings, slug) && base == StripPhase(slug)
  }

  lemma CatalogTakes(h: Hash, sports: seq<string>, listings: seq<Listing>, prior: Prior) returns (b: Leagues)
    requires DistinctKeys(prior.leagues) && BuildSpec(h, sports, listings, prior).Success?
    ensures Took(Seeded(prior), b, ListedBases(AddSports(h, Inverse(prior.sports), sports).ids, listings))
    ensures var c := BuildSpec(h, sports, listings, prior).value; c.leagues == b.leagues && c.sportOf == b.sportOf
  {
    var seed, known, ids := Seeded(prior), Inverse(prior.leagues), AddSports(h, Inverse(prior.sports), sports).ids;
    SeedCouples(prior);
    AddListingsTakes(h, known, ids, seed, listings);
    b := AddListings(h, known, ids, seed, listings).value;
  }

  lemma NewIdsAreShort(seed: Leagues, b: Leagues)
    requires Extends(seed, b)
    ensures OneToOne(seed.leagues) <==> OneToOne(b.leagues)
    ensures forall id <- b.leagues :: id in seed.leagues || |id| <= 48
  {
  }

  /** A built catalog keeps every prior id, base and sport; stays one-to-one exactly if the prior catalog was; gives
      only ids of at most 48 characters; names a base only for a prior or a listed league; and gives every listed
      league of a known sport an id and a sport. */
  lemma CatalogIsSound(h: Hash, sports: seq<string>, listings: seq<Listing>, prior: Prior)
    requires DistinctKeys(prior.leagues) && BuildSpec(h, sports, listings, prior).Success?
    ensures
      var c, ids := BuildSpec(h, sports, listings, prior).value, AddSports(h, Inverse(prior.sports), sports).ids;
      && Keeps(prior, c) && Covers(ids, listings, c)
      && (OneToOne(AsMap(prior.leagues)) <==> OneToOne(c.leagues))
      && (forall id <- c.leagues :: id in AsMap(prior.leagues) || |id| <= 48)
      && (forall id <- c.leagues :: Sourced(prior, ids, listings, c.leagues[id]))
  {
    var seed, ids, c := Seeded(prior), AddSports(h, Inverse(prior.sports), sports).ids, BuildSpec(h, sports, listings, prior).value;
    var b := CatalogTakes(h, sports, listings, prior);
    SeedIsCoupled(prior.leagues);
    NewIdsAreShort(seed, b);
    assert Keeps(prior, c) by {
      forall l | l in prior.leagues ensures l.id in c.leagues && c.leagues[l.id] == l.base { assert l == League(l.id, l.base); }
    }
    forall slug | Listed(ids, listings, slug)
      ensures exists id :: id in c.leagues && c.leagues[id] == StripPhase(slug) && id in c.sportOf
    {
      ListedBasesAre(ids, listings, StripPhase(slug));
      assert b.seen[StripPhase(slug)] in c.leagues;
    }
    forall id | id in c.leagues ensures Sourced(prior, ids, listings, c.leagues[id]) {
      ListedBasesAre(ids, listings, c.leagues[id]);
      if c.leagues[id] in seed.seen { assert League(seed.seen[c.leagues[id]], c.leagues[id]) in prior.leagues; }
    }
  }

  // ---- when building succeeds ----

  /** A base that has no league gets its derived id if no league has that, else the mangled one if no league has that,
      and is refused exactly when both are taken. */
  lemma NewIdExactly(h: Hash, known: map<string, Id>, b: Leagues, base: string)
    requires Coupled(b) && known.Keys <= b.seen.Keys && base !in b.seen
    ensures
      var r, derived := NewId(h, known, b.leagues, base), DeriveId(h, base, 48);
      var mangled := Mangle(h, derived, base);
      && (derived !in b.leagues ==> r == Success(derived))
      && (derived in b.leagues && mangled !in b.leagues ==> r == Success(mangled))
      && (r.Failure? <==> derived in b.leagues && mangled in b.leagues)
  {
    assert base !in known;
    if DeriveId(h, base, 48) in b.leagues { assert b.leagues[DeriveId(h, base, 48)] in b.seen; }
    if Mangle(h, DeriveId(h, base, 48), base) in b.leagues { assert b.leagues[Mangle(h, DeriveId(h, base, 48), base)] in b.seen; }
  }

  // Letters without case, the dash as the underscore it becomes.
  function Folded(c: char): char {
    if 'a' <= c <= 'z' then c - 'a' + 'A' else if c == '-' then '_' else c
  }

  predicate FoldsTo(base: string, id: string) {
    |base| == |id| && forall i :: 0 <= i < |base| ==> id[i] == Folded(base[i])
  }

  lemma ReplacedFolds(base: string)
    ensures FoldsTo(base, Replace(Upper(base), '-', '_'))
  {
    var upper := Upper(base);
    forall i | 0 <= i < |base| ensures Replace(upper, '-', '_')[i] == Folded(base[i]) { assert upper[i] == UpperChar(base[i]); }
  }

  predicate SameFold(x: string, y: string) {
    |x| == |y| && forall i :: 0 <= i < |x| ==> Folded(x[i]) == Folded(y[i])
  }

  /** Two bases that fit the width of the column derive one id exactly when they differ in nothing but case and dash or
      underscore; two longer ones exactly when what is kept of them does and their short digests are one. */
  lemma DerivedClash(h: Hash, x: string, y: string, width: nat)
    requires width >= 7
    ensures |x| <= width && |y| <= width ==> (DeriveId(h, x, width) == DeriveId(h, y, width) <==> SameFold(x, y))
    ensures |x| > width && |y| > width ==>
      (DeriveId(h, x, width) == DeriveId(h, y, width) <==> SameFold(x[..width - 7], y[..width - 7]) && Short(h, x) == Short(h, y))
  {
    var p, q, n := Replace(Upper(x), '-', '_'), Replace(Upper(y), '-', '_'), width - 7;
    ReplacedFolds(x);
    ReplacedFolds(y);
    if |x| > width && |y| > width {
      var a, b := p[..n] + "_", q[..n] + "_";
      assert (a + Short(h, x))[..n + 1] == a && (b + Short(h, y))[..n + 1] == b;
      assert (a + Short(h, x))[n + 1..] == Short(h, x) && (b + Short(h, y))[n + 1..] == Short(h, y);
      assert a[..n] == p[..n] && b[..n] == q[..n];
    }
  }

  /** A mangled id starts as the id it replaces, and of one id two bases get the same only when their digests are one. */
  lemma MangledClash(h: Hash, id: Id, x: string, y: string)
    ensures (if |id| <= 41 then id else id[..41]) <= Mangle(h, id, x)
    ensures Mangle(h, id, x) == Mangle(h, id, y) <==> Short(h, x) == Short(h, y)
  {
    var front := (if |id| <= 41 then id else id[..41]) + "_";
    assert (front + Short(h, x))[|front|..] == Short(h, x) && (front + Short(h, y))[|front|..] == Short(h, y);
  }

  // The ids of the new ones of these bases are different, and no league of the seed has one of them.
  ghost predicate NoClash(idOf: string -> Id, seed: Leagues, bases: set<string>) {
    && (forall x, y :: x in bases && y in bases && x !in seed.seen && y !in seed.seen && idOf(x) == idOf(y) ==> x == y)
    && (forall x <- bases :: x !in seed.seen ==> idOf(x) !in seed.leagues)
  }

  // Every league that the seed lacks has the id of its base, which is one of these.
  ghost predicate Named(idOf: string -> Id, seed: Leagues, b: Leagues, bases: set<string>) {
    && Coupled(b) && seed.seen.Keys <= b.seen.Keys
    && (forall id <- b.leagues :: id in seed.leagues || (id == idOf(b.leagues[id]) && b.leagues[id] in bases && b.leagues[id] !in seed.seen))
  }

  // Adding one of the bases succeeds and names it so.
  ghost predicate Naming(h: Hash, known: map<string, Id>, idOf: string -> Id, seed: Leagues, bases: set<string>) {
    forall b, sport, slug :: Named(idOf, seed, b, bases) && BaseOf(slug) <= bases ==>
      AddLeague(h, known, b, sport, slug).Success? && Named(idOf, seed, AddLeague(h, known, b, sport, slug).value, bases)
  }

  lemma AddLeagueNames(h: Hash, known: map<string, Id>, idOf: string -> Id, seed: Leagues, b: Leagues, bases: set<string>, sport: Id, slug: string)
    requires NoClash(idOf, seed, bases) && Named(idOf, seed, b, bases) && known.Keys <= seed.seen.Keys && BaseOf(slug) <= bases
    requires idOf(StripPhase(slug)) == DeriveId(h, StripPhase(slug), 48)
    ensures var r := AddLeague(h, known, b, sport, slug); r.Success? && Named(idOf, seed, r.value, bases)
  {
    var base := StripPhase(slug);
    if slug != "" && base !in b.seen {
      assert base in BaseOf(slug);
      NewIdExactly(h, known, b, base);
    }
  }

  lemma {:induction false} AddLeaguesName(h: Hash, known: map<string, Id>, idOf: string -> Id, seed: Leagues, b: Leagues, bases: set<string>,
                                          sport: Id, slugs: seq<string>)
    requires Naming(h, known, idOf, seed, bases) && Named(idOf, seed, b, bases) && BasesOf(slugs) <= bases
    ensures var r := AddLeagues(h, known, b, sport, slugs); r.Success? && Named(idOf, seed, r.value, bases)
  {
    if slugs != [] { AddLeaguesName(h, known, idOf, seed, b, bases, sport, slugs[..|slugs| - 1]); }
  }

  lemma AddListingNames(h: Hash, known: map<string, Id>, ids: map<string, Id>, idOf: string -> Id, seed: Leagues, b: Leagues,
                        bases: set<string>, l: Listing)
    requires Naming(h, known, idOf, seed, bases) && Named(idOf, seed, b, bases) && (l.sport in ids ==> BasesOf(l.leagues) <= bases)
    ensures var r := AddListing(h, known, ids, b, l); r.Success? && Named(idOf, seed, r.value, bases)
  {
    if l.sport in ids { AddLeaguesName(h, known, idOf, seed, b, bases, ids[l.sport], l.leagues); }
  }

  // Adding a listing of these bases succeeds and names them so.
  ghost predicate NamingAll(h: Hash, known: map<string, Id>, ids: map<string, Id>, idOf: string -> Id, seed: Leagues, bases: set<string>) {
    forall b: Leagues, l: Listing :: Named(idOf, seed, b, bases) && (l.sport in ids ==> BasesOf(l.leagues) <= bases) ==>
      AddListing(h, known, ids, b, l).Success? && Named(idOf, seed, AddListing(h, known, ids, b, l).value, bases)
  }

  // All bases listed under sports with an id are among these.
  ghost predicate Among(ids: map<string, Id>, ls: seq<Listing>, bases: set<string>) {
    forall l <- ls :: l.sport in ids ==> BasesOf(l.leagues) <= bases
  }

  lemma {:induction false} ListedAreAmong(ids: map<string, Id>, ls: seq<Listing>)
    ensures Among(ids, ls, ListedBases(ids, ls))
  {
    if ls != [] {
      ListedAreAmong(ids, ls[..|ls| - 1]);
      assert ls == ls[..|ls| - 1] + [ls[|ls| - 1]];
    }
  }

  lemma {:induction false} AddListingsName(h: Hash, known: map<string, Id>, ids: map<string, Id>, idOf: string -> Id, seed: Leagues,
                                           bases: set<string>, ls: seq<Listing>)
    requires NamingAll(h, known, ids, idOf, seed, bases) && Named(idOf, seed, seed, bases) && Among(ids, ls, bases)
    ensures var r := AddListings(h, known, ids, seed, ls); r.Success? && Named(idOf, seed, r.value, bases)
  {
    if ls != [] {
      var front, last := ls[..|ls| - 1], ls[|ls| - 1];
      AddListingsName(h, known, ids, idOf, seed, bases, front);
      assert last in ls;
    }
  }

  function DerivedBy(h: Hash): string -> Id {
    base => DeriveId(h, base, 48)
  }

  /** When no two new bases derive one id, and none derives a prior one, building succeeds, and every league that the
      prior catalog lacks has the id derived from its base. */
  lemma BuildsWithoutClash(h: Hash, sports: seq<string>, listings: seq<Listing>, prior: Prior)
    requires DistinctKeys(prior.leagues)
    requires NoClash(DerivedBy(h), Seeded(prior), ListedBases(AddSports(h, Inverse(prior.sports), sports).ids, listings))
    ensures var r := BuildSpec(h, sports, listings, prior);
      r.Success? && forall id <- r.value.leagues :: id in AsMap(prior.leagues) || id == DeriveId(h, r.value.leagues[id], 48)
  {
    var seed, known, ids := Seeded(prior), Inverse(prior.leagues), AddSports(h, Inverse(prior.sports), sports).ids;
    var bases := ListedBases(ids, listings);
    SeedCouples(prior);
    forall b, sport, slug | Named(DerivedBy(h), seed, b, bases) && BaseOf(slug) <= bases
      ensures AddLeague(h, known, b, sport, slug).Success?
              && Named(DerivedBy(h), seed, AddLeague(h, known, b, sport, slug).value, bases)
    {
      AddLeagueNames(h, known, DerivedBy(h), seed, b, bases, sport, slug);
    }
    forall b: Leagues, l: Listing | Named(DerivedBy(h), seed, b, bases) && (l.sport in ids ==> BasesOf(l.leagues) <= bases)
      ensures AddListing(h, known, ids, b, l).Success? && Named(DerivedBy(h), seed, AddListing(h, known, ids, b, l).value, bases)
    {
      AddListingNames(h, known, ids, DerivedBy(h), seed, b, bases, l);
    }
    ListedAreAmong(ids, listings);
    AddListingsName(h, known, ids, DerivedBy(h), seed, bases, listings);
  }

  // ---- the catalog and the resolver ----

  // A reading of the catalog in some order.
  ghost predicate ReadsAs(c: Catalog, entries: seq<League>) {
    DistinctKeys(entries) && forall id, base :: League(id, base) in entries <==> id in c.leagues && c.leagues[id] == base
  }

  lemma OneToOneIsDistinct(c: Catalog, entries: seq<League>)
    requires ReadsAs(c, entries) && OneToOne(c.leagues)
    ensures DistinctBases(entries)
  {
    forall i, j | 0 <= i < j < |entries| ensures entries[i].base != entries[j].base {
      assert League(entries[i].id, entries[i].base) in entries && League(entries[j].id, entries[j].base) in entries;
    }
  }

  lemma ListedHasLeague(h: Hash, sports: seq<string>, listings: seq<Listing>, prior: Prior, slug: string) returns (id: Id)
    requires DistinctKeys(prior.leagues) && OneToOne(AsMap(prior.leagues)) && BuildSpec(h, sports, listings, prior).Success?
    requires Listed(AddSports(h, Inverse(prior.sports), sports).ids, listings, slug)
    ensures var c := BuildSpec(h, sports, listings, prior).value;
      OneToOne(c.leagues) && id in c.leagues && c.leagues[id] == StripPhase(slug)
  {
    CatalogIsSound(h, sports, listings, prior);
    var c := BuildSpec(h, sports, listings, prior).value;
    id :| id in c.leagues && c.leagues[id] == StripPhase(slug) && id in c.sportOf;
  }

  lemma EntryResolves(entries: seq<League>, slug: string, id: Id)
    requires DistinctBases(entries) && League(id, StripPhase(slug)) in entries && slug != ""
    ensures Match(entries, slug).Some? && Match(entries, slug) == Lookup(entries, slug)
  {
    MatchIsLookup(entries, slug);
    if Chomp(slug) != slug { NewlineHasNoPhase(slug); }
    ExactFinds(entries, StripPhase(slug));
  }

  /** Every slug the provider listed under a known sport resolves at run time, in whatever order the catalog is read. */
  lemma ListedSlugsResolve(h: Hash, sports: seq<string>, listings: seq<Listing>, prior: Prior, entries: seq<League>, slug: string)
    requires DistinctKeys(prior.leagues) && OneToOne(AsMap(prior.leagues)) && BuildSpec(h, sports, listings, prior).Success?
    requires ReadsAs(BuildSpec(h, sports, listings, prior).value, entries)
    requires Listed(AddSports(h, Inverse(prior.sports), sports).ids, listings, slug)
    ensures Match(entries, slug).Some? && Match(entries, slug) == Lookup(entries, slug)
  {
    var id := ListedHasLeague(h, sports, listings, prior, slug);
    OneToOneIsDistinct(BuildSpec(h, sports, listings, prior).value, entries);
    EntryResolves(entries, slug, id);
  }

  // ---- building again ----

  // Every base asked for has a league with a sport.
  ghost predicate Settled(b: Leagues, bases: set<string>) {
    forall base <- bases :: base in b.seen && b.seen[base] in b.sportOf
  }

  lemma {:induction false} AddLeaguesIdle(h: Hash, known: map<string, Id>, b: Leagues, sport: Id, slugs: seq<string>)
    requires Settled(b, BasesOf(slugs))
    ensures AddLeagues(h, known, b, sport, slugs) == Success(b)
  {
    if slugs != [] {
      var last := slugs[|slugs| - 1];
      AddLeaguesIdle(h, known, b, sport, slugs[..|slugs| - 1]);
      assert last != "" ==> StripPhase(last) in BaseOf(last);
    }
  }

  lemma {:induction false} AddListingsIdle(h: Hash, known: map<string, Id>, ids: map<string, Id>, b: Leagues, ls: seq<Listing>)
    requires Settled(b, ListedBases(ids, ls))
    ensures AddListings(h, known, ids, b, ls) == Success(b)
  {
    if ls != [] {
      var last := ls[|ls| - 1];
      AddListingsIdle(h, known, ids, b, ls[..|ls| - 1]);
      if last.sport in ids { AddLeaguesIdle(h, known, b, ids[last.sport], last.leagues); }
    }
  }

  lemma {:induction false} SportsOfSlugs(h: Hash, known: map<string, Id>, known': map<string, Id>, slugs: seq<string>)
    ensures AddSports(h, known, slugs).ids.Keys == AddSports(h, known', slugs).ids.Keys
  {
    if slugs != [] { SportsOfSlugs(h, known, known', slugs[..|slugs| - 1]); }
  }

  lemma {:induction false} SameSportsSameBases(ids: map<string, Id>, ids': map<string, Id>, ls: seq<Listing>)
    requires ids.Keys == ids'.Keys
    ensures ListedBases(ids, ls) == ListedBases(ids', ls)
  {
    if ls != [] {
      SameSportsSameBases(ids, ids', ls[..|ls| - 1]);
      assert ls[|ls| - 1].sport in ids.Keys <==> ls[|ls| - 1].sport in ids'.Keys;
    }
  }

  // Reading the catalog back gives its map, and names for each base the one league that has it.
  lemma ReadBack(c: Catalog, entries: seq<League>)
    requires ReadsAs(c, entries) && OneToOne(c.leagues)
    ensures AsMap(entries) == c.leagues
    ensures forall id <- c.leagues :: c.leagues[id] in Inverse(entries) && Inverse(entries)[c.leagues[id]] == id
  {
    SeedIsCoupled(entries);
    forall id | id in c.leagues ensures id in AsMap(entries) && AsMap(entries)[id] == c.leagues[id] {
      assert League(id, c.leagues[id]) in entries;
    }
    forall id | id in AsMap(entries) ensures id in c.leagues { assert League(id, AsMap(entries)[id]) in entries; }
    forall id | id in c.leagues ensures c.leagues[id] in Inverse(entries) && Inverse(entries)[c.leagues[id]] == id {
      assert League(id, c.leagues[id]) in entries;
      assert League(Inverse(entries)[c.leagues[id]], c.leagues[id]) in entries;
    }
  }

  lemma CoveredIsSettled(ids: map<string, Id>, listings: seq<Listing>, c: Catalog, b: Leagues)
    requires Covers(ids, listings, c) && b.sportOf == c.sportOf
    requires forall id <- c.leagues :: c.leagues[id] in b.seen && b.seen[c.leagues[id]] == id
    ensures Settled(b, ListedBases(ids, listings))
  {
    forall base | base in ListedBases(ids, listings) ensures base in b.seen && b.seen[base] in b.sportOf {
      ListedBasesAre(ids, listings, base);
      var slug :| Listed(ids, listings, slug) && base == StripPhase(slug);
      var id :| id in c.leagues && c.leagues[id] == base && id in c.sportOf;
    }
  }

  /** Building again from the catalog just built, with the same listings, changes no league: known leagues are never
      renamed, whatever the order in which the catalog is read back and whatever sports it is given. */
  lemma RebuildIsStable(h: Hash, sports: seq<string>, listings: seq<Listing>, prior: Prior, entries: seq<League>, known: seq<League>)
    requires DistinctKeys(prior.leagues) && OneToOne(AsMap(prior.leagues)) && BuildSpec(h, sports, listings, prior).Success?
    requires ReadsAs(BuildSpec(h, sports, listings, prior).value, entries)
    ensures
      var c := BuildSpec(h, sports, listings, prior).value;
      var again := BuildSpec(h, sports, listings, Prior(known, entries, c.sportOf));
      again.Success? && again.value.leagues == c.leagues && again.value.sportOf == c.sportOf
  {
    var c := BuildSpec(h, sports, listings, prior).value;
    var ids, ids' := AddSports(h, Inverse(prior.sports), sports).ids, AddSports(h, Inverse(known), sports).ids;
    var seed := Seeded(Prior(known, entries, c.sportOf));
    CatalogIsSound(h, sports, listings, prior);
    ReadBack(c, entries);
    SportsOfSlugs(h, Inverse(prior.sports), Inverse(known), sports);
    SameSportsSameBases(ids, ids', listings);
    CoveredIsSettled(ids, listings, c, seed);
    AddListingsIdle(h, Inverse(entries), ids', seed, listings);
  }

  // ---- sports ----

  lemma {:induction false} SportsNamed(h: Hash, known: map<string, Id>, slugs: seq<string>, slug: string)
    ensures var s := AddSports(h, known, slugs);
      && (slug in s.ids <==> slug in slugs && slug != "")
      && (slug in s.ids ==> s.ids[slug] == SportId(h, known, slug) && s.ids[slug] in s.slugs)
  {
    if slugs != [] {
      SportsNamed(h, known, slugs[..|slugs| - 1], slug);
      assert slugs == slugs[..|slugs| - 1] + [slugs[|slugs| - 1]];
    }
  }

  lemma {:induction false} InverseFinds(entries: seq<League>, l: League)
    requires DistinctBases(entries) && l in entries
    ensures l.base in Inverse(entries) && Inverse(entries)[l.base] == l.id
  {
    var front, last := entries[..|entries| - 1], entries[|entries| - 1];
    assert entries == front + [last];
    if l != last {
      InverseFinds(front, l);
      if l.base == last.base { SameBaseSameLeague(entries, l, last); }
    }
  }

  /** A listed sport of the prior catalog keeps its id, and any other gets the one derived from its slug. */
  lemma SportsKeepIds(h: Hash, prior: seq<League>, sports: seq<string>, slug: string)
    requires DistinctBases(prior) && slug in sports && slug != ""
    ensures
      var ids := AddSports(h, Inverse(prior), sports).ids;
      && slug in ids
      && (forall l <- prior :: l.base == slug && l.id != "" ==> ids[slug] == l.id)
      && ((forall l <- prior :: l.base != slug) ==> ids[slug] == DeriveId(h, slug, 32))
  {
    SportsNamed(h, Inverse(prior), sports, slug);
    forall l | l in prior && l.base == slug ensures slug in Inverse(prior) && Inverse(prior)[slug] == l.id { InverseFinds(prior, l); }
    if slug in Inverse(prior) { InverseNames(prior, slug); }
  }

  lemma {:induction false} InverseNames(entries: seq<League>, base: string)
    requires base in Inverse(entries)
    ensures exists l <- entries :: l.base == base
  {
    var front, last := entries[..|entries| - 1], entries[|entries| - 1];
    assert entries == front + [last];
    if base != last.base { InverseNames(front, base); }
  }

  // The last listed sport with this id keeps it.
  ghost predicate LastWith(h: Hash, known: map<string, Id>, slugs: seq<string>, slug: string) {
    exists i :: 0 <= i < |slugs| && slugs[i] == slug &&
      forall j :: i < j < |slugs| && slugs[j] != "" && slugs[j] != slug ==> SportId(h, known, slugs[j]) != SportId(h, known, slug)
  }

  lemma LastWithGrows(h: Hash, known: map<string, Id>, slugs: seq<string>, last: string, slug: string)
    ensures LastWith(h, known, slugs + [last], slug) <==>
      last == slug || (LastWith(h, known, slugs, slug) && (last == "" || SportId(h, known, last) != SportId(h, known, slug)))
  {
    var all := slugs + [last];
    assert forall i :: 0 <= i < |slugs| ==> all[i] == slugs[i];
    if last == slug { assert all[|slugs|] == slug; }
    if LastWith(h, known, all, slug) && last != slug {
      var i :| 0 <= i < |all| && all[i] == slug &&
        forall j :: i < j < |all| && all[j] != "" && all[j] != slug ==> SportId(h, known, all[j]) != SportId(h, known, slug);
      assert slugs[i] == slug && all[|slugs|] == last;
    }
  }

  /** Unlike leagues, sports have no guard: a sport keeps its id exactly when no different sport listed after it
      derives the same one ("a-b" and "a_b" do), and otherwise loses it silently. */
  lemma {:induction false} SportKeptExactly(h: Hash, known: map<string, Id>, slugs: seq<string>, slug: string)
    requires slug in slugs && slug != ""
    ensures var s := AddSports(h, known, slugs);
      SportId(h, known, slug) in s.slugs && (s.slugs[SportId(h, known, slug)] == slug <==> LastWith(h, known, slugs, slug))
  {
    var front, last := slugs[..|slugs| - 1], slugs[|slugs| - 1];
    assert slugs == front + [last];
    LastWithGrows(h, known, front, last, slug);
    SportsNamed(h, known, slugs, slug);
    if slug in front {
      SportsNamed(h, known, front, slug);
      SportKeptExactly(h, known, front, slug);
    } else {
      assert last == slug;
    }
  }
  /** A provider that lists "a-b" and "a_b" loses the first: both derive "A_B", and one sport is left. */
  lemma SportsCollide(h: Hash)
    ensures var s := AddSports(h, map[], ["a-b", "a_b"]);
      s.ids == map["a-b" := "A_B", "a_b" := "A_B"] && s.slugs == map["A_B" := "a_b"]
  {
    assert Upper("a-b") == "A-B" && Upper("a_b") == "A_B" && Replace("A-B", '-', '_') == "A_B" && Replace("A_B", '-', '_') == "A_B";
    assert ["a-b", "a_b"][..1] == ["a-b"];
    assert "a-b" != "a_b";
    assert AddSports(h, map[], ["a-b"]) == Sports(map["A_B" := "a-b"], map["a-b" := "A_B"]);
  }
}
