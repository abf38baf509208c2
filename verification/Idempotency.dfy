/** The idempotency key of a delivery: the canonical state it is derived from, and its text. */
module Idempotency {
  import opened Wrappers
  import opened Domain
  import opened Lifecycle
  import opened Sorting
  import opened Text
  import opened Pipeline

  // (selection id, settlement status), as the database returns them: in any order.
  type SelectionState = (Id, string)

  // The body that is dumped as JSON; its text, and the hash of the text, are functions of it.
  datatype Blob = Blob(status: EventStatus, homeScore: Option<int>, awayScore: Option<int>, selections: seq<SelectionState>)

  predicate TupleLe(a: SelectionState, b: SelectionState) {
    if a.0 == b.0 then TextLe(a.1, b.1) else TextLe(a.0, b.0)
  }

  function BlobOf(status: EventStatus, homeScore: Option<int>, awayScore: Option<int>, states: seq<SelectionState>): Blob {
    Blob(status, homeScore, awayScore, Sort(TupleLe, states))
  }

  lemma TuplesAreOrdered()
    ensures Orders(TupleLe)
  {
    forall a: SelectionState, b: SelectionState ensures TupleLe(a, b) || TupleLe(b, a) {
      TextOrder(a.0, b.0, a.0);
      TextOrder(a.1, b.1, a.1);
    }
    forall a: SelectionState, b: SelectionState, c: SelectionState | TupleLe(a, b) && TupleLe(b, c) ensures TupleLe(a, c) {
      TextOrder(a.0, b.0, c.0);
      TextOrder(b.0, c.0, a.0);
      TextOrder(a.1, b.1, c.1);
    }
  }

  lemma TuplesDoNotTie(states: seq<SelectionState>)
    ensures Strict(TupleLe, states)
  {
    forall a, b | a in states && b in states && TupleLe(a, b) && TupleLe(b, a) ensures a == b {
      TextOrder(a.0, b.0, a.0);
      TextOrder(a.1, b.1, a.1);
    }
  }

  /** Two states have one blob exactly when status, scores and selection states agree; the order in which the
      database returns the selections does not matter. */
  lemma BlobIsCanonical(s: EventStatus, h: Option<int>, a: Option<int>, xs: seq<SelectionState>,
                        t: EventStatus, k: Option<int>, b: Option<int>, ys: seq<SelectionState>)
    ensures BlobOf(s, h, a, xs) == BlobOf(t, k, b, ys) <==> (s, h, a) == (t, k, b) && multiset(xs) == multiset(ys)
  {
    if multiset(xs) == multiset(ys) {
      TuplesAreOrdered();
      TuplesDoNotTie(xs);
      SortForgetsOrder(TupleLe, xs, ys);
    }
  }

  // ---- the results of an event as a list ----

  function StatusText(o: Outcome): string {
    match o
    case Pending => "PENDING"
    case Won => "WON"
    case Lost => "LOST"
    case Push => "PUSH"
    case Void => "VOID"
  }

  // states lists these results, each selection once.
  ghost predicate Lists(states: seq<SelectionState>, outcomes: map<Id, Outcome>) {
    && (forall i, j :: 0 <= i < j < |states| ==> states[i].0 != states[j].0)
    && (forall s :: s in outcomes <==> exists x <- states :: x.0 == s)
    && (forall x <- states :: x.0 in outcomes && x.1 == StatusText(outcomes[x.0]))
  }

  lemma StatusTextIsInjective(a: Outcome, b: Outcome)
    ensures StatusText(a) == StatusText(b) ==> a == b
  {
    assert StatusText(a)[0] == StatusText(b)[0] ==> a == b || (a.Pending? && b.Push?) || (a.Push? && b.Pending?);
    assert |"PENDING"| != |"PUSH"|;
  }

  lemma {:induction false} CountOnce(states: seq<SelectionState>, x: SelectionState)
    requires forall i, j :: 0 <= i < j < |states| ==> states[i].0 != states[j].0
    ensures multiset(states)[x] == if x in states then 1 else 0
  {
    if states != [] {
      CountOnce(states[1..], x);
      assert states == [states[0]] + states[1..];
    }
  }

  lemma ListedSame(xs: seq<SelectionState>, ys: seq<SelectionState>, outcomes: map<Id, Outcome>)
    requires Lists(xs, outcomes) && Lists(ys, outcomes)
    ensures multiset(xs) == multiset(ys)
  {
    forall x ensures multiset(xs)[x] == multiset(ys)[x] {
      CountOnce(xs, x);
      CountOnce(ys, x);
      if x in xs {
        var y :| y in ys && y.0 == x.0;
        assert y == x;
      }
      if x in ys {
        var y :| y in xs && y.0 == x.0;
        assert y == x;
      }
    }
  }

  lemma ListedOutcome(xs: seq<SelectionState>, a: map<Id, Outcome>, ys: seq<SelectionState>, b: map<Id, Outcome>, s: Id)
    requires Lists(xs, a) && Lists(ys, b) && multiset(xs) == multiset(ys) && s in a
    ensures s in b && a[s] == b[s]
  {
    var x :| x in xs && x.0 == s;
    assert x in multiset(ys);
    StatusTextIsInjective(a[s], b[s]);
  }

  lemma SameListSame(xs: seq<SelectionState>, a: map<Id, Outcome>, ys: seq<SelectionState>, b: map<Id, Outcome>)
    requires Lists(xs, a) && Lists(ys, b) && multiset(xs) == multiset(ys)
    ensures a == b
  {
    forall s | s in a ensures s in b && a[s] == b[s] { ListedOutcome(xs, a, ys, b, s); }
    forall s | s in b ensures s in a { ListedOutcome(ys, b, xs, a, s); }
  }

  /** So a digest of the blob is a digest of the snapshot: events in one state, and only those, share a blob. */
  lemma BlobIsTheSnapshot(p: Snapshot, xs: seq<SelectionState>, q: Snapshot, ys: seq<SelectionState>)
    requires Lists(xs, p.outcomes) && Lists(ys, q.outcomes)
    ensures BlobOf(p.status, p.homeScore, p.awayScore, xs) == BlobOf(q.status, q.homeScore, q.awayScore, ys) <==> p == q
  {
    BlobIsCanonical(p.status, p.homeScore, p.awayScore, xs, q.status, q.homeScore, q.awayScore, ys);
    if p == q { ListedSame(xs, ys, p.outcomes); }
    if multiset(xs) == multiset(ys) { SameListSame(xs, p.outcomes, ys, q.outcomes); }
  }

  // ---- the key as text ----

  predicate Hex(s: string, length: nat) {
    |s| == length && forall i :: 0 <= i < |s| ==> '0' <= s[i] <= '9' || 'a' <= s[i] <= 'f'
  }

  // Sixteen digits of the state hash, eight of the nonce.
  predicate WellFormed(k: Key) {
    Hex(k.digest, 16) && (k.ManualKey? ==> Hex(k.nonce, 8))
  }

  function KeyText(k: Key): string {
    match k
    case Auto(e, d) => e + ":" + d
    case ManualKey(e, d, nonce) => e + ":" + d + ":manual:" + nonce
  }

  lemma SplitsAt(e: string, d: string, f: string, c: string)
    requires Hex(d, 16) && Hex(c, 16) && e + ":" + d == f + ":" + c
    ensures e == f && d == c
  {
    assert e + [':'] + d == f + [':'] + c;
    LastMark(e, d, f, c, ':');
  }

  // The last part of a key, after the last colon.
  lemma LastPart(k: Key) returns (front: string, last: string)
    requires WellFormed(k)
    ensures KeyText(k) == front + [':'] + last && Hex(last, if k.Auto? then 16 else 8)
    ensures front == match k case Auto(e, _) => e case ManualKey(e, d, _) => e + ":" + d + ":manual"
    ensures last == match k case Auto(_, d) => d case ManualKey(_, _, nonce) => nonce
  {
    match k
    case Auto(e, d) =>
      front, last := e, d;
      assert KeyText(k) == front + [':'] + last;
    case ManualKey(e, d, nonce) =>
      front, last := e + ":" + d + ":manual", nonce;
      assert ":manual" + ":" == ":manual:";
      assert KeyText(k) == front + [':'] + last;
  }

  /** The text of a key determines event, digest and nonce, whatever the event id; in particular no automatic key is a
      manual one. */
  lemma KeyTextIsInjective(k: Key, l: Key)
    requires WellFormed(k) && WellFormed(l) && KeyText(k) == KeyText(l)
    ensures k == l
  {
    var f, x := LastPart(k);
    var g, y := LastPart(l);
    LastMark(f, x, g, y, ':');
    if k.ManualKey? {
      var m := ":manual";
      assert (k.event + ":" + k.digest + m)[..|f| - |m|] == k.event + ":" + k.digest;
      assert (l.event + ":" + l.digest + m)[..|g| - |m|] == l.event + ":" + l.digest;
      SplitsAt(k.event, k.digest, l.event, l.digest);
    }
  }
}
