/** Decimals in plain notation: a sign, the digits before the point and the digits after it. Trailing zeros are
    part of the value's identity, as they are of Python's Decimal. */
module Decimals {
  import opened Wrappers
  import opened Text

  datatype Decimal = Decimal(negative: bool, whole: string, frac: string)

  predicate IsDigit(c: char) {
    '0' <= c <= '9'
  }

  predicate AllDigits(s: string) {
    forall i :: 0 <= i < |s| ==> IsDigit(s[i])
  }

  predicate Plain(d: Decimal) {
    d.whole != "" && AllDigits(d.whole) && AllDigits(d.frac) && (d.whole[0] == '0' ==> |d.whole| == 1)
  }

  type PlainDecimal = d: Decimal | Plain(d) witness Decimal(false, "0", "")

  function DigitsValue(s: string): nat
    requires AllDigits(s)
  {
    if s == "" then 0 else 10 * DigitsValue(s[..|s| - 1]) + (s[|s| - 1] - '0') as int
  }

  function Power(n: nat): (p: nat)
    ensures p > 0
  {
    if n == 0 then 1 else 10 * Power(n - 1)
  }

  function Magnitude(d: Decimal): (x: real)
    requires Plain(d)
    ensures x >= 0.0
  {
    DigitsValue(d.whole) as real + DigitsValue(d.frac) as real / Power(|d.frac|) as real
  }

  function Value(d: Decimal): real
    requires Plain(d)
  {
    if d.negative then -Magnitude(d) else Magnitude(d)
  }

  // Unary minus: a zero comes out positive.
  function Negate(d: Decimal): Decimal
    requires Plain(d)
  {
    d.(negative := !d.negative && Magnitude(d) != 0.0)
  }

  lemma NegateNegates(d: Decimal)
    requires Plain(d)
    ensures Plain(Negate(d)) && Value(Negate(d)) == -Value(d)
  {
    assert Magnitude(Negate(d)) == Magnitude(d);
  }

  function Render(d: Decimal): string {
    (if d.negative then "-" else "") + d.whole + (if d.frac == "" then "" else "." + d.frac)
  }

  function StripZeros(s: string): (r: string)
    requires s != "" && AllDigits(s)
    ensures r != "" && AllDigits(r) && (r[0] == '0' ==> |r| == 1)
  {
    if |s| > 1 && s[0] == '0' then StripZeros(s[1..]) else s
  }

  function ParseUnsigned(negative: bool, s: string): Option<PlainDecimal> {
    var parts := Split(s, '.');
    if |parts| > 2 || parts[0] == "" || !AllDigits(parts[0]) then None
    else if |parts| == 1 then Some(Decimal(negative, StripZeros(parts[0]), ""))
    else if AllDigits(parts[1]) then Some(Decimal(negative, StripZeros(parts[0]), parts[1]))
    else None
  }

  // Decimal(text) on plain notation; every other text is refused.
  function Parse(s: string): Option<PlainDecimal> {
    if s != "" && s[0] == '-' then ParseUnsigned(true, s[1..]) else ParseUnsigned(false, s)
  }

  // format(line, "f") with the sign spelled out and the point replaced.
  function Slug(d: Decimal): string {
    var s := Render(d);
    if s != "" && s[0] == '-' then "neg" + Replace(s[1..], '.', '_') else Replace(s, '.', '_')
  }

  predicate PlainText(s: string) {
    forall i :: 0 <= i < |s| ==> IsDigit(s[i]) || s[i] == '.'
  }

  function Unsigned(d: Decimal): string {
    d.whole + (if d.frac == "" then "" else "." + d.frac)
  }

  lemma UnsignedIsPlain(d: Decimal)
    requires Plain(d)
    ensures Unsigned(d) != "" && PlainText(Unsigned(d)) && IsDigit(Unsigned(d)[0])
    ensures Render(d) == (if d.negative then "-" else "") + Unsigned(d)
    ensures Slug(d) == (if d.negative then "neg" else "") + Replace(Unsigned(d), '.', '_')
  {
    var u := Unsigned(d);
    assert u[0] == d.whole[0];
    if d.negative {
      assert Render(d) == "-" + u && Render(d)[1..] == u;
    } else {
      assert Render(d) == u && u[0] != '-';
    }
  }

  lemma ParseOfUnsigned(d: Decimal)
    requires Plain(d)
    ensures ParseUnsigned(d.negative, Unsigned(d)) == Some(d)
  {
    assert StripZeros(d.whole) == d.whole;
    SplitOfPrefix(d.whole, d.frac, '.');
    if d.frac == "" {
      assert Unsigned(d) == d.whole;
    } else {
      SplitOfPrefix(d.frac, "", '.');
      assert Unsigned(d) == d.whole + ['.'] + d.frac;
      assert [d.whole] + [d.frac] == [d.whole, d.frac];
    }
  }

  /** The text of a decimal reads back as the same decimal, sign and trailing zeros included. */
  lemma ParseOfRender(d: Decimal)
    requires Plain(d)
    ensures Parse(Render(d)) == Some(d)
  {
    UnsignedIsPlain(d);
    ParseOfUnsigned(d);
    assert d.negative ==> Render(d)[0] == '-' && Render(d)[1..] == Unsigned(d);
    assert !d.negative ==> Render(d) == Unsigned(d);
  }

  lemma RenderIsInjective(a: Decimal, b: Decimal)
    requires Plain(a) && Plain(b)
    ensures Render(a) == Render(b) ==> a == b
  {
    ParseOfRender(a);
    ParseOfRender(b);
  }

  lemma ReplaceIsInjective(a: string, b: string)
    requires PlainText(a) && PlainText(b)
    ensures Replace(a, '.', '_') == Replace(b, '.', '_') ==> a == b
  {
    var x, y := Replace(a, '.', '_'), Replace(b, '.', '_');
    if x == y {
      assert |a| == |x| == |b|;
      forall i | 0 <= i < |a| ensures a[i] == b[i] {
        assert x[i] == y[i];
      }
    }
  }

  /** The slug of a line identifies the line, and contains neither a dash nor a colon. */
  lemma SlugIsInjective(a: Decimal, b: Decimal)
    requires Plain(a) && Plain(b)
    ensures Slug(a) == Slug(b) ==> a == b
    ensures '-' !in Slug(a) && ':' !in Slug(a)
  {
    UnsignedIsPlain(a);
    UnsignedIsPlain(b);
    var x, y := Replace(Unsigned(a), '.', '_'), Replace(Unsigned(b), '.', '_');
    ReplaceIsInjective(Unsigned(a), Unsigned(b));
    if Slug(a) == Slug(b) {
      assert x[0] == Unsigned(a)[0] && y[0] == Unsigned(b)[0];
      assert Slug(a)[0] == if a.negative then 'n' else x[0];
      assert Slug(b)[0] == if b.negative then 'n' else y[0];
      assert x == (if a.negative then Slug(a)[3..] else Slug(a));
      assert y == (if b.negative then Slug(b)[3..] else Slug(b));
      RenderIsInjective(a, b);
    }
  }

  lemma SlugStart(d: Decimal)
    requires Plain(d)
    ensures Slug(d) != "" && (IsDigit(Slug(d)[0]) || Slug(d)[0] == 'n')
  {
    UnsignedIsPlain(d);
  }
}
