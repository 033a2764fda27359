/**
 * The few pieces of Python `str` behaviour the PLU list relies on:
 * the ordering `sort_values(by="Artikel")` uses on text (plain code-point
 * lexicographic order, no locale or diacritic folding), the decimal text
 * an f-string produces for an `int`, and, as their partners, reading a
 * decimal back and splitting a line at its first tab.
 */
module PyText {
  import opened Wrappers

  /** Python's `a <= b` on `str`: lexicographic order on code points. */
  predicate LessEq(a: string, b: string)
  {
    if a == [] then true
    else if b == [] then false
    else if a[0] != b[0] then a[0] < b[0]
    else LessEq(a[1..], b[1..])
  }

  lemma {:induction false} LessEqReflexive(a: string)
    ensures LessEq(a, a)
  {
    if a != [] {
      LessEqReflexive(a[1..]);
    }
  }

  lemma {:induction false} LessEqTotal(a: string, b: string)
    ensures LessEq(a, b) || LessEq(b, a)
  {
    if a != [] && b != [] && a[0] == b[0] {
      LessEqTotal(a[1..], b[1..]);
    }
  }

  lemma {:induction false} LessEqTransitive(a: string, b: string, c: string)
    requires LessEq(a, b) && LessEq(b, c)
    ensures LessEq(a, c)
  {
    if a != [] && b != [] && c != [] && a[0] == b[0] && b[0] == c[0] {
      LessEqTransitive(a[1..], b[1..], c[1..]);
    }
  }

  lemma {:induction false} LessEqAntisymmetric(a: string, b: string)
    requires LessEq(a, b) && LessEq(b, a)
    ensures a == b
  {
    if a != [] && b != [] {
      LessEqAntisymmetric(a[1..], b[1..]);
      assert a == [a[0]] + a[1..] && b == [b[0]] + b[1..];
    }
  }

  predicate IsDigit(c: char)
  {
    '0' <= c <= '9'
  }

  function DigitChar(d: nat): (c: char)
    requires d < 10
    ensures IsDigit(c)
  {
    ('0' as int + d) as char
  }

  function DigitValue(c: char): nat
    requires IsDigit(c)
  {
    c as int - '0' as int
  }

  /** The decimal digits of `n`, most significant first, without leading zeros. */
  function Digits(n: nat): (r: string)
    ensures |r| > 0 && forall i :: 0 <= i < |r| ==> IsDigit(r[i])
    ensures |r| > 1 ==> r[0] != '0'
  {
    if n < 10 then [DigitChar(n)] else Digits(n / 10) + [DigitChar(n % 10)]
  }

  /** Python's `str(n)` (and `f"{n}"`) for an `int`. */
  function Str(n: int): (r: string)
    ensures |r| > 0 && '\t' !in r
    ensures r[0] == '-' <==> n < 0
  {
    if n < 0 then "-" + Digits(-n) else Digits(n)
  }

  /** Reads a non-empty run of decimal digits. */
  function ParseDigits(s: string): Option<nat>
  {
    if s == [] || !IsDigit(s[|s| - 1]) then None
    else if |s| == 1 then Some(DigitValue(s[0]))
    else match ParseDigits(s[..|s| - 1])
      case None => None
      case Some(v) => Some(10 * v + DigitValue(s[|s| - 1]))
  }

  /** Python's `int(s)` restricted to an optional minus sign followed by digits. */
  function ParseInt(s: string): Option<int>
  {
    if |s| > 0 && s[0] == '-' then
      match ParseDigits(s[1..])
      case None => None
      case Some(v) => Some(-(v as int))
    else ParseDigits(s)
  }

  lemma {:induction false} DigitsRoundTrip(n: nat)
    ensures ParseDigits(Digits(n)) == Some(n)
  {
    if n >= 10 {
      var s := Digits(n);
      assert s[..|s| - 1] == Digits(n / 10);
      DigitsRoundTrip(n / 10);
    }
  }

  /** Reading back what `str` printed gives the same integer. */
  lemma StrRoundTrip(n: int)
    ensures ParseInt(Str(n)) == Some(n)
  {
    if n < 0 {
      assert Str(n)[1..] == Digits(-n);
      DigitsRoundTrip(-n);
    } else {
      DigitsRoundTrip(n);
    }
  }

  /** Position of the first tab in `t`, where a reader of a paragraph line splits it. */
  function TabIndex(t: string): (r: Option<nat>)
    ensures r.Some? ==> r.value < |t| && t[r.value] == '\t' && '\t' !in t[..r.value]
    ensures r.None? ==> '\t' !in t
  {
    if t == [] then None
    else if t[0] == '\t' then Some(0)
    else match TabIndex(t[1..])
      case None => None
      case Some(k) =>
        assert t[..k + 1] == [t[0]] + t[1..][..k];
        Some(k + 1)
  }

  /** The first tab of `u + "\t" + v` is the one after `u` when `u` has none. */
  lemma TabIndexAfter(u: string, v: string)
    requires '\t' !in u
    ensures TabIndex(u + "\t" + v) == Some(|u|)
  {
    var t := u + "\t" + v;
    assert t[|u|] == '\t';
  }
}
