/** Building the catalog: provider listings become canonical ids, with two guards against derived ids that collide. */
module CatalogBuild {
  import opened Wrappers
  import opened Domain
  import opened Text
  import opened LeagueSlugs

  // The upper-case hexadecimal digest of a slug: any function, cut to six characters where it is used.
  type Hash = string -> string

  function Short(h: Hash, slug: string): (d: string)
    ensures |d| <= 6
  {
    if |h(slug)| <= 6 then h(slug) else h(slug)[..6]
  }

  function DeriveId(h: Hash, base: string, maxlen: nat): (id: Id)
    requires maxlen >= 7
    ensures |id| <= maxlen
  {
    var id := Replace(Upper(base), '-', '_');
    if |id| <= maxlen then id else id[..maxlen - 7] + "_" + Short(h, base)
  }

  function Mangle(h: Hash, id: Id, base: string): (mangled: Id)
    ensures |mangled| <= 48
  {
    (if |id| <= 41 then id else id[..41]) + "_" + Short(h, base)
  }

  // ---- sports ----

  datatype Sports = Sports(slugs: map<Id, string>, ids: map<string, Id>)

  function SportId(h: Hash, known: map<string, Id>, slug: string): Id {
    if slug in known && known[slug] != "" then known[slug] else DeriveId(h, slug, 32)
  }

  function AddSport(h: Hash, known: map<string, Id>, s: Sports, slug: string): Sports {
    if slug == "" then s
    else var id := SportId(h, known, slug); Sports(s.slugs[id := slug], s.ids[slug := id])
  }

  function AddSports(h: Hash, known: map<string, Id>, slugs: seq<string>): Sports {
    if slugs == [] then Sports(map[], map[])
    else AddSport(h, known, AddSports(h, known, slugs[..|slugs| - 1]), slugs[|slugs| - 1])
  }

  // ---- leagues ----

  // leagues: id to base; sportOf: id to sport; seen: base to id.
  datatype Leagues = Leagues(leagues: map<Id, string>, sportOf: map<Id, Id>, seen: map<string, Id>)

  datatype Collision = Collision(mangled: Id, existing: string, base: string)

  function NewId(h: Hash, known: map<string, Id>, leagues: map<Id, string>, base: string): Result<Id, Collision> {
    var id := if base in known && known[base] != "" then known[base] else DeriveId(h, base, 48);
    if id in leagues && leagues[id] != base then
      var mangled := Mangle(h, id, base);
      if mangled in leagues && leagues[mangled] != base then Failure(Collision(mangled, leagues[mangled], base))
      else Success(mangled)
    else Success(id)
  }

  function AddLeague(h: Hash, known: map<string, Id>, b: Leagues, sport: Id, slug: string): Result<Leagues, Collision> {
    if slug == "" then Success(b)
    else
      var base := StripPhase(slug);
      if base in b.seen then
        var id := b.seen[base];
        Success(if id in b.sportOf then b else b.(sportOf := b.sportOf[id := sport]))
      else
        match NewId(h, known, b.leagues, base)
        case Failure(c) => Failure(c)
        case Success(id) => Success(Leagues(b.leagues[id := base], b.sportOf[id := sport], b.seen[base := id]))
  }

  function AddLeagues(h: Hash, known: map<string, Id>, b: Leagues, sport: Id, slugs: seq<string>): Result<Leagues, Collision> {
    if slugs == [] then Success(b)
    else
      match AddLeagues(h, known, b, sport, slugs[..|slugs| - 1])
      case Failure(c) => Failure(c)
      case Success(before) => AddLeague(h, known, before, sport, slugs[|slugs| - 1])
  }

  datatype Listing = Listing(sport: string, leagues: seq<string>)

  function AddListing(h: Hash, known: map<string, Id>, ids: map<string, Id>, b: Leagues, l: Listing): Result<Leagues, Collision> {
    if l.sport in ids then AddLeagues(h, known, b, ids[l.sport], l.leagues) else Success(b)
  }

  function AddListings(h: Hash, known: map<string, Id>, ids: map<string, Id>, b: Leagues, ls: seq<Listing>): Result<Leagues, Collision> {
    if ls == [] then Success(b)
    else
      match AddListings(h, known, ids, b, ls[..|ls| - 1])
      case Failure(c) => Failure(c)
      case Success(before) => AddListing(h, known, ids, before, ls[|ls| - 1])
  }

  // ---- the catalog ----

  datatype Prior = Prior(sports: seq<League>, leagues: seq<League>, sportOf: map<Id, Id>)

  datatype Catalog = Catalog(sports: map<Id, string>, leagues: map<Id, string>, sportOf: map<Id, Id>)

  // A dict read in order; keys of a dict are distinct.
  function AsMap(entries: seq<League>): map<Id, string> {
    if entries == [] then map[] else AsMap(entries[..|entries| - 1])[entries[|entries| - 1].id := entries[|entries| - 1].base]
  }

  function Inverse(entries: seq<League>): map<string, Id> {
    if entries == [] then map[] else Inverse(entries[..|entries| - 1])[entries[|entries| - 1].base := entries[|entries| - 1].id]
  }

  function Seeded(prior: Prior): Leagues {
    Leagues(AsMap(prior.leagues), prior.sportOf, Inverse(prior.leagues))
  }

  function BuildSpec(h: Hash, sports: seq<string>, listings: seq<Listing>, prior: Prior): Result<Catalog, Collision> {
    var ss := AddSports(h, Inverse(prior.sports), sports);
    match AddListings(h, Inverse(prior.leagues), ss.ids, Seeded(prior), listings)
    case Failure(c) => Failure(c)
    case Success(b) => Success(Catalog(ss.slugs, b.leagues, b.sportOf))
  }

  method Invert(entries: seq<League>) returns (asMap: map<Id, string>, inverse: map<string, Id>)
    ensures asMap == AsMap(entries) && inverse == Inverse(entries)
  {
    asMap, inverse := map[], map[];
    for i := 0 to |entries|
      invariant asMap == AsMap(entries[..i]) && inverse == Inverse(entries[..i])
    {
      assert entries[..i + 1][..i] == entries[..i];
      asMap, inverse := asMap[entries[i].id := entries[i].base], inverse[entries[i].base := entries[i].id];
    }
    assert entries[..|entries|] == entries;
  }

  method NameSports(h: Hash, known: map<string, Id>, sports: seq<string>) returns (slugs: map<Id, string>, ids: map<string, Id>)
    ensures Sports(slugs, ids) == AddSports(h, known, sports)
  {
    slugs, ids := map[], map[];
    for i := 0 to |sports|
      invariant Sports(slugs, ids) == AddSports(h, known, sports[..i])
    {
      assert sports[..i + 1][..i] == sports[..i];
      if sports[i] == "" { continue; }
      var id := SportId(h, known, sports[i]);
      slugs := slugs[id := sports[i]];
      ids := ids[sports[i] := id];
    }
    assert sports[..|sports|] == sports;
  }

  lemma LeaguesStep(h: Hash, known: map<string, Id>, start: Leagues, sport: Id, slugs: seq<string>, i: nat, b: Leagues)
    requires i < |slugs| && AddLeagues(h, known, start, sport, slugs[..i]) == Success(b)
    ensures AddLeagues(h, known, start, sport, slugs[..i + 1]) == AddLeague(h, known, b, sport, slugs[i])
  {
    assert slugs[..i + 1][..i] == slugs[..i];
  }

  // One slug: a known base gets its sport, a new one an id that no other base has.
  method NameLeague(h: Hash, known: map<string, Id>, b: Leagues, sport: Id, slug: string) returns (r: Result<Leagues, Collision>)
    ensures r == AddLeague(h, known, b, sport, slug)
  {
    if slug == "" { return Success(b); }
    var leagues, sportOf, seen := b.leagues, b.sportOf, b.seen;
    var base := StripPhase(slug);
    if base in seen {
      var existing := seen[base];
      if existing !in sportOf { sportOf := sportOf[existing := sport]; }
      return Success(Leagues(leagues, sportOf, seen));
    }
    var id := if base in known && known[base] != "" then known[base] else DeriveId(h, base, 48);
    if id in leagues && leagues[id] != base {
      var mangled := Mangle(h, id, base);
      if mangled in leagues && leagues[mangled] != base { return Failure(Collision(mangled, leagues[mangled], base)); }
      id := mangled;
    }
    seen := seen[base := id];
    leagues := leagues[id := base];
    sportOf := sportOf[id := sport];
    return Success(Leagues(leagues, sportOf, seen));
  }

  method NameLeagues(h: Hash, known: map<string, Id>, start: Leagues, sport: Id, slugs: seq<string>)
    returns (r: Result<Leagues, Collision>)
    ensures r == AddLeagues(h, known, start, sport, slugs)
  {
    var b := start;
    for i := 0 to |slugs|
      invariant AddLeagues(h, known, start, sport, slugs[..i]) == Success(b)
    {
      LeaguesStep(h, known, start, sport, slugs, i, b);
      var named := NameLeague(h, known, b, sport, slugs[i]);
      if named.Failure? {
        FailureSticks(h, known, start, sport, slugs, i + 1);
        return named;
      }
      b := named.value;
    }
    assert slugs[..|slugs|] == slugs;
    return Success(b);
  }

  lemma {:induction false} FailureSticks(h: Hash, known: map<string, Id>, b: Leagues, sport: Id, slugs: seq<string>, i: nat)
    requires i <= |slugs| && AddLeagues(h, known, b, sport, slugs[..i]).Failure?
    ensures AddLeagues(h, known, b, sport, slugs) == AddLeagues(h, known, b, sport, slugs[..i])
  {
    if i == |slugs| {
      assert slugs[..i] == slugs;
    } else {
      assert slugs[..|slugs| - 1][..i] == slugs[..i];
      FailureSticks(h, known, b, sport, slugs[..|slugs| - 1], i);
    }
  }

  lemma {:induction false} ListingFailureSticks(h: Hash, known: map<string, Id>, ids: map<string, Id>, b: Leagues, ls: seq<Listing>, i: nat)
    requires i <= |ls| && AddListings(h, known, ids, b, ls[..i]).Failure?
    ensures AddListings(h, known, ids, b, ls) == AddListings(h, known, ids, b, ls[..i])
  {
    if i == |ls| {
      assert ls[..i] == ls;
    } else {
      assert ls[..|ls| - 1][..i] == ls[..i];
      ListingFailureSticks(h, known, ids, b, ls[..|ls| - 1], i);
    }
  }

  method BuildCatalog(h: Hash, sports: seq<string>, listings: seq<Listing>, prior: Prior) returns (r: Result<Catalog, Collision>)
    ensures r == BuildSpec(h, sports, listings, prior)
  {
    var _, knownSports := Invert(prior.sports);
    var leagues, known := Invert(prior.leagues);
    var slugs, ids := NameSports(h, knownSports, sports);
    var b := Leagues(leagues, prior.sportOf, known);
    for i := 0 to |listings|
      invariant AddListings(h, known, ids, Seeded(prior), listings[..i]) == Success(b)
    {
      assert listings[..i + 1][..i] == listings[..i];
      if listings[i].sport !in ids { continue; }
      var named := NameLeagues(h, known, b, ids[listings[i].sport], listings[i].leagues);
      if named.Failure? {
        ListingFailureSticks(h, known, ids, Seeded(prior), listings, i + 1);
        return Failure(named.error);
      }
      b := named.value;
    }
    assert listings[..|listings|] == listings;
    return Success(Catalog(slugs, b.leagues, b.sportOf));
  }
}
