/** Strings as the sources use them: ASCII case, split and join on one character. */
module Text {

  function LowerChar(c: char): char {
    if 'A' <= c <= 'Z' then c - 'A' + 'a' else c
  }

  function UpperChar(c: char): char {
    if 'a' <= c <= 'z' then c - 'a' + 'A' else c
  }

  function Lower(s: string): string {
    seq(|s|, i requires 0 <= i < |s| => LowerChar(s[i]))
  }

  function Upper(s: string): string {
    seq(|s|, i requires 0 <= i < |s| => UpperChar(s[i]))
  }

  function Replace(s: string, from: char, to: char): string {
    seq(|s|, i requires 0 <= i < |s| => if s[i] == from then to else s[i])
  }

  predicate Contains(s: string, part: string) {
    part <= s || (s != "" && Contains(s[1..], part))
  }

  function Join(parts: seq<string>, sep: char): string {
    if parts == [] then "" else if |parts| == 1 then parts[0] else parts[0] + [sep] + Join(parts[1..], sep)
  }

  // str.split(sep): the empty string splits into one empty part.
  function Split(s: string, sep: char): (parts: seq<string>)
    ensures |parts| > 0
  {
    if s == "" then [""]
    else
      var rest := Split(s[1..], sep);
      if s[0] == sep then [""] + rest else [[s[0]] + rest[0]] + rest[1..]
  }

  ghost predicate Free(parts: seq<string>, sep: char) {
    forall part <- parts :: sep !in part
  }

  lemma {:induction false} SplitOfPrefix(s: string, t: string, sep: char)
    requires sep !in s
    ensures Split(s, sep) == [s]
    ensures Split(s + [sep] + t, sep) == [s] + Split(t, sep)
  {
    if s == "" {
      assert s + [sep] + t == [sep] + t;
      assert ([sep] + t)[1..] == t;
    } else {
      SplitOfPrefix(s[1..], t, sep);
      assert (s + [sep] + t)[1..] == s[1..] + [sep] + t;
      assert s == [s[0]] + s[1..];
    }
  }

  /** Splitting undoes joining, for parts that do not contain the separator. */
  lemma {:induction false} SplitOfJoin(parts: seq<string>, sep: char)
    requires parts != [] && Free(parts, sep)
    ensures Split(Join(parts, sep), sep) == parts
  {
    SplitOfPrefix(parts[0], Join(parts[1..], sep), sep);
    if |parts| > 1 {
      SplitOfJoin(parts[1..], sep);
      assert parts == [parts[0]] + parts[1..];
    } else {
      assert parts == [parts[0]];
    }
  }

  lemma JoinIsInjective(a: seq<string>, b: seq<string>, sep: char)
    requires a != [] && b != [] && Free(a, sep) && Free(b, sep)
    ensures Join(a, sep) == Join(b, sep) ==> a == b
  {
    SplitOfJoin(a, sep);
    SplitOfJoin(b, sep);
  }

  lemma LaterMark(a: string, x: string, b: string, y: string, mark: char)
    requires a + [mark] + x == b + [mark] + y && |a| < |b|
    ensures mark in x
  {
    var s, t := a + [mark] + x, b + [mark] + y;
    assert t[|b|] == mark;
    assert s[|b|] == x[|b| - |a| - 1];
  }

  /** Two texts that agree after appending a marked tail agree before it. */
  lemma LastMark(a: string, x: string, b: string, y: string, mark: char)
    requires mark !in x && mark !in y
    requires a + [mark] + x == b + [mark] + y
    ensures a == b && x == y
  {
    if |a| < |b| { LaterMark(a, x, b, y, mark); }
    if |b| < |a| { LaterMark(b, y, a, x, mark); }
    var s, t := a + [mark] + x, b + [mark] + y;
    assert a == s[..|a|] == t[..|b|] == b;
    assert x == s[|a| + 1..] == t[|b| + 1..] == y;
  }

  lemma {:induction false} JoinLast(parts: seq<string>, last: string, sep: char)
    requires parts != []
    ensures Join(parts + [last], sep) == Join(parts, sep) + [sep] + last
  {
    assert (parts + [last])[1..] == parts[1..] + [last];
    if |parts| > 1 {
      JoinLast(parts[1..], last, sep);
      Associative(parts[0] + [sep], Join(parts[1..], sep), [sep] + last);
      Associative(Join(parts[1..], sep), [sep], last);
      Associative(Join(parts, sep), [sep], last);
    }
  }

  lemma Associative(a: string, b: string, c: string)
    ensures a + b + c == a + (b + c)
  {
  }

  /** When two joins are one text, the free parts at their ends are the same ones. */
  lemma {:induction false} JoinedEnds(e: string, a: seq<string>, f: string, b: seq<string>, sep: char)
    requires Free(a, sep) && Free(b, sep) && |b| <= |a|
    requires Join([e] + a, sep) == Join([f] + b, sep)
    ensures b == a[|a| - |b|..] && f == Join([e] + a[..|a| - |b|], sep)
  {
    if b == [] {
      assert a[..|a|] == a && [f] + b == [f];
    } else {
      var x, y, front, rest := a[|a| - 1], b[|b| - 1], a[..|a| - 1], b[..|b| - 1];
      assert [e] + a == [e] + front + [x] && [f] + b == [f] + rest + [y];
      JoinLast([e] + front, x, sep);
      JoinLast([f] + rest, y, sep);
      LastMark(Join([e] + front, sep), x, Join([f] + rest, sep), y, sep);
      JoinedEnds(e, front, f, rest, sep);
      assert front[..|a| - |b|] == a[..|a| - |b|];
    }
  }

  // The order of strings by code point.
  predicate TextLe(a: string, b: string) {
    a == "" || (b != "" && (a[0] < b[0] || (a[0] == b[0] && TextLe(a[1..], b[1..]))))
  }

  lemma {:induction false} TextOrder(a: string, b: string, c: string)
    ensures TextLe(a, b) || TextLe(b, a)
    ensures TextLe(a, b) && TextLe(b, c) ==> TextLe(a, c)
    ensures TextLe(a, b) && TextLe(b, a) ==> a == b
    decreases |a|
  {
    if a != "" {
      TextOrder(a[1..], if b == "" then "" else b[1..], if c == "" then "" else c[1..]);
      assert b != "" ==> (a[0] == b[0] && a[1..] == b[1..] ==> a == [a[0]] + a[1..] == [b[0]] + b[1..] == b);
    }
  }

  // At k the texts first differ, and a has the smaller character.
  predicate LowerAt(a: string, b: string, k: nat) {
    k < |a| && k < |b| && a[..k] == b[..k] && a[k] < b[k]
  }

  /** A text comes before another when it is a beginning of it, or has the smaller character where they first differ. */
  lemma {:induction false} TextLeExactly(a: string, b: string)
    ensures TextLe(a, b) <==> a <= b || exists k :: LowerAt(a, b, k)
    decreases |a|
  {
    if a != "" && b != "" && a[0] == b[0] {
      var x, y := a[1..], b[1..];
      TextLeExactly(x, y);
      assert a == [a[0]] + x && b == [a[0]] + y;
      forall k: nat ensures LowerAt(x, y, k) <==> LowerAt(a, b, k + 1) {
        if k < |x| && k < |y| {
          assert a[..k + 1] == [a[0]] + x[..k] && b[..k + 1] == [a[0]] + y[..k];
          assert a[1..k + 1] == x[..k] && b[1..k + 1] == y[..k];
        }
      }
      if k: nat :| LowerAt(a, b, k) {
        assert k > 0;
        assert LowerAt(x, y, k - 1);
      }
    } else if a != "" && b != "" && a[0] < b[0] {
      assert LowerAt(a, b, 0);
    }
  }

  predicate StandsAt(s: string, part: string, k: nat) {
    k + |part| <= |s| && s[k..k + |part|] == part
  }

  lemma StandsLater(s: string, part: string, k: nat)
    requires s != ""
    ensures StandsAt(s[1..], part, k) <==> StandsAt(s, part, k + 1)
  {
    if k + 1 + |part| <= |s| {
      var x, y := s[1..][k..k + |part|], s[k + 1..k + 1 + |part|];
      assert |x| == |y| && forall i :: 0 <= i < |x| ==> x[i] == y[i];
      assert x == y;
    }
  }

  /** Searching a text finds a part exactly when the part stands somewhere in it. */
  lemma {:induction false} ContainsExactly(s: string, part: string)
    ensures Contains(s, part) <==> exists k :: StandsAt(s, part, k)
  {
    if part <= s {
      assert StandsAt(s, part, 0);
    } else if s == "" {
      assert forall k :: !StandsAt(s, part, k);
    } else {
      ContainsExactly(s[1..], part);
      assert !StandsAt(s, part, 0);
      forall k: nat ensures StandsAt(s[1..], part, k) <==> StandsAt(s, part, k + 1) { StandsLater(s, part, k); }
      if k: nat :| StandsAt(s, part, k) {
        assert k > 0;
        assert StandsAt(s[1..], part, k - 1);
      }
    }
  }
}
