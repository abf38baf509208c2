/** The walk over a league's events: settled events are translated at once, pending ones wait in a buffer and ask for
    odds ten at a time. */
module EventWalk {
  import opened Wrappers
  import opened Domain
  import opened OddsTranslate
  import opened EventTranslate

  // What the n-th odds call answers to these event ids; None is a call that failed.
  type Provider = (nat, seq<Id>) -> Option<map<Id, seq<Book>>>

  // Translating one event with the odds found for it, if any: at most one payload in the program, any function here
  // that yields nothing for an event without an id.
  type Translator = (RawEvent, Option<seq<Book>>) -> seq<Payload>

  ghost predicate SkipsNameless(t: Translator) {
    forall e: RawEvent, odds: Option<seq<Book>> :: e.id == "" ==> t(e, odds) == []
  }

  // _safe_translate: an event with a missing field is skipped.
  function Translated(e: RawEvent, odds: Option<seq<Book>>, catalog: Catalog): seq<Payload> {
    match ToPayload(e, odds.GetOr([]), catalog)
    case Success(Some(p)) => [p]
    case _ => []
  }

  function TranslatorOf(catalog: Catalog): Translator {
    (e, odds) => Translated(e, odds, catalog)
  }

  lemma TranslatorSkipsNameless(catalog: Catalog)
    ensures SkipsNameless(TranslatorOf(catalog))
  {
    forall e: RawEvent, odds: Option<seq<Book>> | e.id == "" ensures Translated(e, odds, catalog) == [] {
      assert MissingFields(e) != [];
    }
  }

  // ---- one batch ----

  function IdsOf(batch: seq<RawEvent>): seq<Id> {
    if batch == [] then [] else (if batch[0].id != "" then [batch[0].id] else []) + IdsOf(batch[1..])
  }

  function Lookup(odds: map<Id, seq<Book>>, id: Id): Option<seq<Book>> {
    if id in odds then Some(odds[id]) else None
  }

  function TranslatedAll(batch: seq<RawEvent>, odds: map<Id, seq<Book>>, t: Translator): seq<Payload> {
    if batch == [] then [] else t(batch[0], Lookup(odds, batch[0].id)) + TranslatedAll(batch[1..], odds, t)
  }

  // A failed call leaves every event of the batch without odds.
  function Answer(provider: Provider, n: nat, batch: seq<RawEvent>): map<Id, seq<Book>> {
    provider(n, IdsOf(batch)).GetOr(map[])
  }

  function Flushed(provider: Provider, n: nat, batch: seq<RawEvent>, t: Translator): seq<Payload> {
    if IdsOf(batch) == [] then [] else TranslatedAll(batch, Answer(provider, n, batch), t)
  }

  method FlushPending(provider: Provider, n: nat, batch: seq<RawEvent>, t: Translator) returns (out: seq<Payload>)
    ensures out == Flushed(provider, n, batch, t)
  {
    var ids := EventIds(batch);
    if ids == [] { return []; }
    var multi := provider(n, ids);
    var odds := if multi.Some? then multi.value else map[];
    out := [];
    for i := 0 to |batch|
      invariant out + TranslatedAll(batch[i..], odds, t) == TranslatedAll(batch, odds, t)
    {
      var translated := t(batch[i], Lookup(odds, batch[i].id));
      assert batch[i..][1..] == batch[i + 1..];
      Associative(out, translated, TranslatedAll(batch[i + 1..], odds, t));
      out := out + translated;
    }
  }

  lemma IdsStep(batch: seq<RawEvent>, i: nat)
    requires i < |batch|
    ensures IdsOf(batch[i..]) == (if batch[i].id != "" then [batch[i].id] else []) + IdsOf(batch[i + 1..])
  {
    assert batch[i..][1..] == batch[i + 1..];
  }

  method EventIds(batch: seq<RawEvent>) returns (ids: seq<Id>)
    ensures ids == IdsOf(batch)
  {
    ids := [];
    for i := 0 to |batch|
      invariant ids + IdsOf(batch[i..]) == IdsOf(batch)
    {
      IdsStep(batch, i);
      Associative(ids, if batch[i].id != "" then [batch[i].id] else [], IdsOf(batch[i + 1..]));
      if batch[i].id != "" { ids := ids + [batch[i].id]; }
    }
  }

  lemma Associative<T>(a: seq<T>, b: seq<T>, c: seq<T>)
    ensures (a + b) + c == a + (b + c)
  {
  }

  /** A batch asks for the ids its events have, and for no other. */
  lemma {:induction false} IdsAsked(batch: seq<RawEvent>, id: Id)
    ensures id in IdsOf(batch) <==> id != "" && exists e <- batch :: e.id == id
  {
    if batch != [] {
      IdsAsked(batch[1..], id);
      assert batch == [batch[0]] + batch[1..];
    }
  }

  // ---- the reference: one event at a time ----

  predicate Pending(e: RawEvent) {
    e.status != "live" && e.status != "settled"
  }

  function PendingOf(events: seq<RawEvent>): seq<RawEvent> {
    if events == [] then [] else (if Pending(events[0]) then [events[0]] else []) + PendingOf(events[1..])
  }

  function SettledOut(events: seq<RawEvent>, t: Translator): seq<Payload> {
    if events == [] then [] else (if events[0].status == "settled" then t(events[0], None) else []) + SettledOut(events[1..], t)
  }

  function FirstBatch(pending: seq<RawEvent>): (batch: seq<RawEvent>)
    ensures |batch| <= 10 && batch <= pending && (pending != [] ==> batch != [])
  {
    if |pending| <= 10 then pending else pending[..10]
  }

  // The pending events ten by ten from the n-th call on, each with the odds that the call of its batch answered.
  function PendingOut(provider: Provider, n: nat, pending: seq<RawEvent>, t: Translator): seq<Payload>
    decreases |pending|
  {
    if pending == [] then []
    else
      var batch := FirstBatch(pending);
      TranslatedAll(batch, Answer(provider, n, batch), t) + PendingOut(provider, n + 1, pending[|batch|..], t)
  }

  // ---- the walk ----

  // What a walk will have yielded: what is out, and what the buffer and the remaining events still give.
  ghost function Whole(provider: Provider, t: Translator, rest: seq<RawEvent>,
                       buffer: seq<RawEvent>, out: seq<Payload>, calls: nat): multiset<Payload>
  {
    multiset(out) + multiset(SettledOut(rest, t)) + multiset(PendingOut(provider, calls, buffer + PendingOf(rest), t))
  }

  lemma SettledStep(provider: Provider, t: Translator, ev: RawEvent, rest: seq<RawEvent>,
                    buffer: seq<RawEvent>, out: seq<Payload>, calls: nat)
    requires ev.status == "settled"
    ensures Whole(provider, t, [ev] + rest, buffer, out, calls) == Whole(provider, t, rest, buffer, out + t(ev, None), calls)
  {
    assert ([ev] + rest)[1..] == rest;
    assert [] + PendingOf(rest) == PendingOf(rest);
  }

  lemma LiveStep(provider: Provider, t: Translator, ev: RawEvent, rest: seq<RawEvent>,
                    buffer: seq<RawEvent>, out: seq<Payload>, calls: nat)
    requires ev.status == "live"
    ensures Whole(provider, t, [ev] + rest, buffer, out, calls) == Whole(provider, t, rest, buffer, out, calls)
  {
    assert ([ev] + rest)[1..] == rest;
    assert [] + PendingOf(rest) == PendingOf(rest) && [] + SettledOut(rest, t) == SettledOut(rest, t);
  }

  lemma PendingStep(provider: Provider, t: Translator, ev: RawEvent, rest: seq<RawEvent>,
                    buffer: seq<RawEvent>, out: seq<Payload>, calls: nat)
    requires Pending(ev)
    ensures Whole(provider, t, [ev] + rest, buffer, out, calls) == Whole(provider, t, rest, buffer + [ev], out, calls)
  {
    assert ([ev] + rest)[1..] == rest;
    Associative(buffer, [ev], PendingOf(rest));
    assert [] + SettledOut(rest, t) == SettledOut(rest, t);
  }

  lemma FlushStep(provider: Provider, t: Translator, rest: seq<RawEvent>, buffer: seq<RawEvent>, out: seq<Payload>, calls: nat)
    requires SkipsNameless(t) && buffer != [] && (|buffer| == 10 || (PendingOf(rest) == [] && |buffer| < 10))
    ensures Whole(provider, t, rest, buffer, out, calls) ==
      Whole(provider, t, rest, [], out + Flushed(provider, calls, buffer, t), calls + 1)
  {
    var waiting := buffer + PendingOf(rest);
    assert FirstBatch(waiting) == buffer && waiting[|buffer|..] == PendingOf(rest) == [] + PendingOf(rest);
    if IdsOf(buffer) == [] { NoIdsNoPayload(buffer, Answer(provider, calls, buffer), t); }
  }

  lemma {:induction false} NoIdsNoPayload(batch: seq<RawEvent>, odds: map<Id, seq<Book>>, t: Translator)
    requires IdsOf(batch) == [] && SkipsNameless(t)
    ensures TranslatedAll(batch, odds, t) == []
  {
    if batch != [] {
      NoIdsNoPayload(batch[1..], odds, t);
      assert t(batch[0], Lookup(odds, batch[0].id)) == [];
    }
  }

  // One turn of the walk.
  method WalkOne(ev: RawEvent, ghost rest: seq<RawEvent>, buffer: seq<RawEvent>, out: seq<Payload>, calls: nat,
                 provider: Provider, t: Translator)
    returns (buffer': seq<RawEvent>, out': seq<Payload>, calls': nat)
    requires SkipsNameless(t) && |buffer| < 10
    ensures Whole(provider, t, rest, buffer', out', calls') == Whole(provider, t, [ev] + rest, buffer, out, calls)
    ensures |buffer'| < 10 && 10 * calls' + |buffer'| == 10 * calls + |buffer| + if Pending(ev) then 1 else 0
  {
    if ev.status == "live" {
      LiveStep(provider, t, ev, rest, buffer, out, calls);
      return buffer, out, calls;
    }
    if ev.status == "settled" {
      SettledStep(provider, t, ev, rest, buffer, out, calls);
      return buffer, out + t(ev, None), calls;
    }
    PendingStep(provider, t, ev, rest, buffer, out, calls);
    buffer', out', calls' := buffer + [ev], out, calls;
    if |buffer'| >= 10 { out', calls' := Flush(rest, buffer', out, calls, provider, t); buffer' := []; }
  }

  method Flush(ghost rest: seq<RawEvent>, buffer: seq<RawEvent>, out: seq<Payload>, calls: nat, provider: Provider, t: Translator)
    returns (out': seq<Payload>, calls': nat)
    requires SkipsNameless(t) && buffer != [] && (|buffer| == 10 || (PendingOf(rest) == [] && |buffer| < 10))
    ensures Whole(provider, t, rest, [], out', calls') == Whole(provider, t, rest, buffer, out, calls)
    ensures calls' == calls + 1
  {
    FlushStep(provider, t, rest, buffer, out, calls);
    var flushed := FlushPending(provider, calls, buffer, t);
    out', calls' := out + flushed, calls + 1;
  }

  /** The walk yields, up to order, one payload for every event that is not live and translates: a settled one
      without odds, a pending one with the odds that the call of its batch of at most ten answered, or none if that
      call failed. Nothing is lost or repeated where batches meet, and no batch is asked for that is not needed. */
  method GetEvents(events: seq<RawEvent>, provider: Provider, t: Translator) returns (out: seq<Payload>, calls: nat)
    requires SkipsNameless(t)
    ensures multiset(out) == multiset(SettledOut(events, t)) + multiset(PendingOut(provider, 0, PendingOf(events), t))
    ensures |PendingOf(events)| <= 10 * calls < |PendingOf(events)| + 10
  {
    var buffer: seq<RawEvent> := [];
    out, calls := [], 0;
    ghost var whole := Whole(provider, t, events, [], [], 0);
    for i := 0 to |events|
      invariant |buffer| < 10 && 10 * calls + |buffer| + |PendingOf(events[i..])| == |PendingOf(events)|
      invariant Whole(provider, t, events[i..], buffer, out, calls) == whole
    {
      ghost var rest := events[i + 1..];
      assert events[i..] == [events[i]] + rest && events[i..][1..] == rest;
      buffer, out, calls := WalkOne(events[i], rest, buffer, out, calls, provider, t);
    }
    if buffer != [] { out, calls := Flush([], buffer, out, calls, provider, t); }
    WholeAtEnd(provider, t, events, out, calls);
  }

  lemma WholeAtEnd(provider: Provider, t: Translator, events: seq<RawEvent>, out: seq<Payload>, calls: nat)
    requires Whole(provider, t, [], [], out, calls) == Whole(provider, t, events, [], [], 0)
    ensures multiset(out) == multiset(SettledOut(events, t)) + multiset(PendingOut(provider, 0, PendingOf(events), t))
  {
    var none: seq<RawEvent>, nothing: seq<Payload> := [], [];
    assert none + PendingOf(none) == none;
    assert Whole(provider, t, none, none, out, calls) == multiset(out);
    assert none + PendingOf(events) == PendingOf(events);
    assert multiset(nothing) + multiset(SettledOut(events, t)) == multiset(SettledOut(events, t));
  }

  // ---- the batched walk refines the single lookup ----

  // What one event looked up alone gives.
  function Head(e: RawEvent, odds: map<Id, seq<Book>>, t: Translator): seq<Payload> {
    if e.status == "live" then [] else t(e, if Pending(e) then Lookup(odds, e.id) else None)
  }

  // _get_single_event, when the odds of an event do not depend on what they are asked for with.
  function SingleOut(events: seq<RawEvent>, odds: map<Id, seq<Book>>, t: Translator): seq<Payload> {
    if events == [] then [] else Head(events[0], odds, t) + SingleOut(events[1..], odds, t)
  }

  // Every call answers, for the ids it is given, from one table.
  ghost predicate Pointwise(provider: Provider, odds: map<Id, seq<Book>>) {
    forall n: nat, ids: seq<Id> :: provider(n, ids).Some? && forall id <- ids ::
      (id in provider(n, ids).value <==> id in odds) && (id in odds ==> provider(n, ids).value[id] == odds[id])
  }

  // A table that answers the ids of a batch as odds does.
  lemma {:induction false} AgreeingBatch(batch: seq<RawEvent>, answer: map<Id, seq<Book>>, odds: map<Id, seq<Book>>, t: Translator)
    requires SkipsNameless(t) && (forall e <- batch :: Pending(e))
    requires forall e <- batch :: e.id != "" ==> Lookup(answer, e.id) == Lookup(odds, e.id)
    ensures TranslatedAll(batch, answer, t) == SingleOut(batch, odds, t)
  {
    if batch != [] {
      var first := batch[0];
      AgreeingBatch(batch[1..], answer, odds, t);
      assert first.id == "" ==> t(first, Lookup(answer, first.id)) == [] == t(first, Lookup(odds, first.id));
    }
  }

  lemma {:induction false} SingleConcat(a: seq<RawEvent>, b: seq<RawEvent>, odds: map<Id, seq<Book>>, t: Translator)
    ensures SingleOut(a + b, odds, t) == SingleOut(a, odds, t) + SingleOut(b, odds, t)
  {
    if a == [] {
      assert a + b == b;
    } else {
      SingleConcat(a[1..], b, odds, t);
      assert (a + b)[1..] == a[1..] + b && (a + b)[0] == a[0];
      Associative(Head(a[0], odds, t), SingleOut(a[1..], odds, t), SingleOut(b, odds, t));
    }
  }

  lemma PointwiseBatch(provider: Provider, odds: map<Id, seq<Book>>, n: nat, batch: seq<RawEvent>, t: Translator)
    requires Pointwise(provider, odds) && SkipsNameless(t) && forall e <- batch :: Pending(e)
    ensures TranslatedAll(batch, Answer(provider, n, batch), t) == SingleOut(batch, odds, t)
  {
    assert provider(n, IdsOf(batch)).Some?;
    forall e | e in batch && e.id != "" ensures Lookup(Answer(provider, n, batch), e.id) == Lookup(odds, e.id) { IdsAsked(batch, e.id); }
    AgreeingBatch(batch, Answer(provider, n, batch), odds, t);
  }

  lemma {:induction false} PointwisePending(provider: Provider, odds: map<Id, seq<Book>>, n: nat, pending: seq<RawEvent>, t: Translator)
    requires Pointwise(provider, odds) && SkipsNameless(t) && forall e <- pending :: Pending(e)
    ensures PendingOut(provider, n, pending, t) == SingleOut(pending, odds, t)
    decreases |pending|
  {
    if pending != [] {
      var batch := FirstBatch(pending);
      var rest := pending[|batch|..];
      PointwisePending(provider, odds, n + 1, rest, t);
      PointwiseBatch(provider, odds, n, batch, t);
      SingleConcat(batch, rest, odds, t);
      assert batch + rest == pending;
    }
  }

  lemma {:induction false} SingleSplits(events: seq<RawEvent>, odds: map<Id, seq<Book>>, t: Translator)
    ensures forall e <- PendingOf(events) :: Pending(e)
    ensures multiset(SingleOut(events, odds, t)) ==
      multiset(SettledOut(events, t)) + multiset(SingleOut(PendingOf(events), odds, t))
  {
    if events != [] {
      var first, rest := events[0], PendingOf(events[1..]);
      SingleSplits(events[1..], odds, t);
      if Pending(first) { assert ([first] + rest)[1..] == rest; } else { assert [] + rest == rest; }
    }
  }

  /** So a provider that answers event by event makes the batched walk the per-event one. */
  lemma BatchingRefinesSingle(events: seq<RawEvent>, provider: Provider, odds: map<Id, seq<Book>>, t: Translator)
    requires Pointwise(provider, odds) && SkipsNameless(t)
    ensures multiset(SettledOut(events, t)) + multiset(PendingOut(provider, 0, PendingOf(events), t))
      == multiset(SingleOut(events, odds, t))
  {
    SingleSplits(events, odds, t);
    PointwisePending(provider, odds, 0, PendingOf(events), t);
  }

  // ---- any provider ----

  // The k-th call asks for the k-th ten of the pending events.
  function Ten(pending: seq<RawEvent>, k: nat): seq<RawEvent>
    requires 10 * k < |pending|
  {
    pending[10 * k..if 10 * k + 10 <= |pending| then 10 * k + 10 else |pending|]
  }

  // What is found for the k-th pending event when the calls are numbered from n: nothing when the call of its ten fails
  // or does not answer its id.
  function Found(provider: Provider, n: nat, pending: seq<RawEvent>, k: nat): Option<seq<Book>>
    requires k < |pending|
  {
    match provider(n + k / 10, IdsOf(Ten(pending, k / 10)))
    case None => None
    case Some(odds) => if pending[k].id in odds then Some(odds[pending[k].id]) else None
  }

  function FoundAll(provider: Provider, n: nat, pending: seq<RawEvent>): (found: seq<Option<seq<Book>>>)
    ensures |found| == |pending| && forall k :: 0 <= k < |pending| ==> found[k] == Found(provider, n, pending, k)
  {
    seq(|pending|, k requires 0 <= k < |pending| => Found(provider, n, pending, k))
  }

  // Every event with what is found for it.
  function EachOut(events: seq<RawEvent>, found: seq<Option<seq<Book>>>, t: Translator): seq<Payload>
    requires |events| == |found|
  {
    if events == [] then [] else t(events[0], found[0]) + EachOut(events[1..], found[1..], t)
  }

  lemma {:induction false} EachConcat(a: seq<RawEvent>, x: seq<Option<seq<Book>>>, b: seq<RawEvent>, y: seq<Option<seq<Book>>>, t: Translator)
    requires |a| == |x| && |b| == |y|
    ensures EachOut(a + b, x + y, t) == EachOut(a, x, t) + EachOut(b, y, t)
  {
    if a == [] {
      assert a + b == b && x + y == y;
    } else {
      EachConcat(a[1..], x[1..], b, y, t);
      assert (a + b)[1..] == a[1..] + b && (x + y)[1..] == x[1..] + y;
      Associative(t(a[0], x[0]), EachOut(a[1..], x[1..], t), EachOut(b, y, t));
    }
  }

  lemma {:induction false} EachLooksUp(batch: seq<RawEvent>, odds: map<Id, seq<Book>>, found: seq<Option<seq<Book>>>, t: Translator)
    requires |batch| == |found| && forall k :: 0 <= k < |batch| ==> found[k] == Lookup(odds, batch[k].id)
    ensures TranslatedAll(batch, odds, t) == EachOut(batch, found, t)
  {
    if batch != [] { EachLooksUp(batch[1..], odds, found[1..], t); }
  }

  lemma FoundInBatch(provider: Provider, n: nat, pending: seq<RawEvent>, k: nat)
    requires k < |FirstBatch(pending)|
    ensures var batch := FirstBatch(pending); Found(provider, n, pending, k) == Lookup(Answer(provider, n, batch), batch[k].id)
  {
    assert k / 10 == 0 && Ten(pending, 0) == FirstBatch(pending);
  }

  lemma TenLater(pending: seq<RawEvent>, c: nat)
    requires 10 * c + 10 < |pending|
    ensures Ten(pending[10..], c) == Ten(pending, c + 1)
  {
    assert 10 * (c + 1) == 10 * c + 10;
    var end := if 10 * c + 20 <= |pending| then 10 * c + 20 else |pending|;
    assert pending[10..][10 * c..end - 10] == pending[10 * c + 10..end];
  }

  lemma FoundLater(provider: Provider, n: nat, pending: seq<RawEvent>, k: nat)
    requires |pending| > 10 && k < |pending| - 10
    ensures Found(provider, n, pending, k + 10) == Found(provider, n + 1, pending[10..], k)
  {
    assert (k + 10) / 10 == k / 10 + 1;
    TenLater(pending, k / 10);
  }

  /** Whatever the provider answers, and whichever of its calls fail: the pending events come out in order, each one with
      the odds that the call of its ten answers under its id, and without odds if there are none. */
  lemma {:induction false} PendingExactly(provider: Provider, n: nat, pending: seq<RawEvent>, t: Translator)
    ensures PendingOut(provider, n, pending, t) == EachOut(pending, FoundAll(provider, n, pending), t)
    decreases |pending|
  {
    if pending != [] {
      var batch, found := FirstBatch(pending), FoundAll(provider, n, pending);
      var rest, later := pending[|batch|..], found[|batch|..];
      forall k | 0 <= k < |batch| ensures found[k] == Lookup(Answer(provider, n, batch), batch[k].id) { FoundInBatch(provider, n, pending, k); }
      EachLooksUp(batch, Answer(provider, n, batch), found[..|batch|], t);
      PendingExactly(provider, n + 1, rest, t);
      forall k | 0 <= k < |rest| ensures later[k] == Found(provider, n + 1, rest, k) { FoundLater(provider, n, pending, k); }
      assert later == FoundAll(provider, n + 1, rest);
      EachConcat(batch, found[..|batch|], rest, later, t);
      assert pending == batch + rest && found == found[..|batch|] + later;
    }
  }

  // ---- the translator of the program ----

  function BooksFor(odds: map<Id, seq<Book>>, e: RawEvent): seq<Book> {
    if e.id in odds then odds[e.id] else []
  }

  // A settled event is translated without odds, with or without a table.
  lemma SettledNeedsNoOdds(e: RawEvent, books: seq<Book>, catalog: Catalog)
    requires e.status == "settled"
    ensures ToPayload(e, books, catalog) == ToPayload(e, [], catalog)
  {
  }

  // The event translates to p, with its own odds.
  predicate Yields(e: RawEvent, odds: map<Id, seq<Book>>, catalog: Catalog, p: Payload) {
    ToPayload(e, BooksFor(odds, e), catalog) == Success(Some(p))
  }

  lemma OneHolds(e: RawEvent, odds: map<Id, seq<Book>>, catalog: Catalog, p: Payload)
    ensures p in SingleOut([e], odds, TranslatorOf(catalog)) <==> Yields(e, odds, catalog, p)
  {
    if e.status == "settled" { SettledNeedsNoOdds(e, BooksFor(odds, e), catalog); }
    var none: seq<RawEvent> := [e][1..];
    assert SingleOut(none, odds, TranslatorOf(catalog)) == [];
  }

  lemma {:induction false} SingleOutHolds(events: seq<RawEvent>, odds: map<Id, seq<Book>>, catalog: Catalog, p: Payload)
    ensures p in SingleOut(events, odds, TranslatorOf(catalog)) <==> exists e <- events :: Yields(e, odds, catalog, p)
  {
    if events != [] {
      var first, rest := events[0], events[1..];
      SingleOutHolds(rest, odds, catalog, p);
      OneHolds(first, odds, catalog, p);
      SingleConcat([first], rest, odds, TranslatorOf(catalog));
      assert events == [first] + rest;
      if e :| e in rest && Yields(e, odds, catalog, p) { assert e in events; }
    }
  }

  /** With the program's translator and such a provider, the walk yields what looking each event up alone yields, as
      often as it does, and a payload is out exactly when an event translates to it with its own odds. */
  lemma WalkIsPerEvent(events: seq<RawEvent>, provider: Provider, odds: map<Id, seq<Book>>, catalog: Catalog, out: seq<Payload>)
    requires Pointwise(provider, odds)
    requires var t := TranslatorOf(catalog);
      multiset(out) == multiset(SettledOut(events, t)) + multiset(PendingOut(provider, 0, PendingOf(events), t))
    ensures multiset(out) == multiset(SingleOut(events, odds, TranslatorOf(catalog)))
    ensures forall p :: p in out <==> exists e <- events :: Yields(e, odds, catalog, p)
  {
    var single := SingleOut(events, odds, TranslatorOf(catalog));
    TranslatorSkipsNameless(catalog);
    BatchingRefinesSingle(events, provider, odds, TranslatorOf(catalog));
    forall p ensures p in out <==> exists e <- events :: Yields(e, odds, catalog, p) {
      SingleOutHolds(events, odds, catalog, p);
      assert p in out <==> p in multiset(out);
      assert p in single <==> p in multiset(single);
    }
  }
}
