/**
 * Amounts of money as integer cents. The pages hold amounts as JavaScript numbers,
 * print them with `toString()` into text fields and read them back with
 * `Number.parseFloat`; here `Format` is `toString()` for a value with at most two
 * decimals and `Parse` is `parseFloat` on the plain decimal forms, with `None`
 * standing for `NaN`.
 */
module Money {
  import opened Text
  import opened Options

  function Abs(x: int): (r: nat)
    ensures r == x || r == -x
  {
    if x < 0 then -x else x
  }

  /** The fractional part of `toString()`: nothing, one digit or two, with no trailing zero. */
  function Fraction(cents: nat): (r: string)
    requires cents < 100
  {
    if cents == 0 then ""
    else if cents % 10 == 0 then "." + [DigitChar(cents / 10)]
    else "." + TwoDigits(cents)
  }

  /** `(c / 100).toString()`. */
  function Format(c: int): string
  {
    (if c < 0 then "-" else "") + DecimalString(Abs(c) / 100) + Fraction(Abs(c) % 100)
  }

  /** The number of leading decimal digits of `s`. */
  function LeadingDigits(s: string): (n: nat)
    ensures n <= |s| && AllDigits(s[..n]) && (n < |s| ==> !IsDigit(s[n]))
  {
    if |s| == 0 || !IsDigit(s[0]) then 0
    else
      var k := LeadingDigits(s[1..]);
      assert s[..k + 1] == [s[0]] + s[1..][..k];
      k + 1
  }

  /** The cents a fractional part of at most two digits stands for. */
  function FractionValue(f: string): nat
    requires |f| <= 2 && AllDigits(f)
  {
    if |f| == 0 then 0 else if |f| == 1 then 10 * DigitValue(f[0]) else DigitsValue(f)
  }

  /** `parseFloat` of an unsigned amount `digits[.d[d]]`, in cents. */
  function ParseUnsigned(s: string): Option<nat>
  {
    var n := LeadingDigits(s);
    if n == 0 then None
    else if n == |s| then Some(100 * DigitsValue(s))
    else if s[n] == '.' && |s| - (n + 1) <= 2 && AllDigits(s[n + 1..]) then
      Some(100 * DigitsValue(s[..n]) + FractionValue(s[n + 1..]))
    else None
  }

  /** `Number.parseFloat(s)` in cents; `None` when the result would be `NaN` or is not a whole number of cents. */
  function Parse(s: string): Option<int>
  {
    if |s| > 0 && s[0] == '-' then
      match ParseUnsigned(s[1..])
      case None => None
      case Some(v) => Some(0 - v)
    else
      match ParseUnsigned(s)
      case None => None
      case Some(v) => Some(v)
  }

  lemma {:induction false} LeadingDigitsOfDigits(d: string, rest: string)
    requires AllDigits(d)
    requires |rest| == 0 || !IsDigit(rest[0])
    ensures LeadingDigits(d + rest) == |d|
  {
    if |d| > 0 {
      assert (d + rest)[1..] == d[1..] + rest;
      LeadingDigitsOfDigits(d[1..], rest);
    } else {
      assert d + rest == rest;
    }
  }

  lemma {:induction false} FractionRoundTrip(cents: nat)
    requires cents < 100
    ensures var f := Fraction(cents);
      |f| <= 3 && (|f| == 0 || (f[0] == '.' && AllDigits(f[1..]) && FractionValue(f[1..]) == cents))
  {
    if cents != 0 {
      var f := Fraction(cents);
      if cents % 10 == 0 {
        assert f[1..] == [DigitChar(cents / 10)];
      } else {
        assert f[1..] == TwoDigits(cents);
        TwoDigitsValue(cents);
      }
    }
  }

  /** A run of digits on its own reads as that many whole units. */
  lemma {:induction false} ParseWhole(d: string)
    requires |d| > 0 && AllDigits(d)
    ensures ParseUnsigned(d) == Some(100 * DigitsValue(d))
  {
    LeadingDigitsOfDigits(d, "");
    assert d + "" == d;
  }

  /** A text whose leading digits stop at a point followed by one or two digits. */
  lemma {:induction false} ParseAtPoint(s: string, n: nat)
    requires 0 < n < |s| && LeadingDigits(s) == n && s[n] == '.'
    requires |s| - (n + 1) <= 2 && AllDigits(s[n + 1..])
    ensures ParseUnsigned(s) == Some(100 * DigitsValue(s[..n]) + FractionValue(s[n + 1..]))
  {
  }

  /** Digits, a point and one or two digits read as units and cents. */
  lemma {:induction false} ParseWithFraction(d: string, g: string)
    requires |d| > 0 && AllDigits(d)
    requires 1 <= |g| <= 2 && AllDigits(g)
    ensures ParseUnsigned(d + "." + g) == Some(100 * DigitsValue(d) + FractionValue(g))
  {
    var s := d + "." + g;
    assert s == d + ("." + g);
    LeadingDigitsOfDigits(d, "." + g);
    assert s[..|d|] == d;
    assert s[|d| + 1..] == g;
    ParseAtPoint(s, |d|);
  }

  lemma {:induction false} UnsignedRoundTrip(a: nat)
    ensures ParseUnsigned(DecimalString(a / 100) + Fraction(a % 100)) == Some(a)
  {
    var d, f := DecimalString(a / 100), Fraction(a % 100);
    var s := d + f;
    assert 100 * (a / 100) + a % 100 == a;
    FractionRoundTrip(a % 100);
    DecimalStringValue(a / 100);
    if |f| > 0 {
      var g := f[1..];
      assert f == "." + g;
      assert s == d + "." + g;
      ParseWithFraction(d, g);
    } else {
      assert s == d;
      ParseWhole(d);
    }
  }

  /** A minus sign in front of an unsigned amount negates it. */
  lemma {:induction false} ParseNegated(body: string, v: nat)
    requires ParseUnsigned(body) == Some(v)
    ensures Parse("-" + body) == Some(0 - v)
  {
    assert ("-" + body)[1..] == body;
  }

  /** An unsigned amount that starts with a digit reads as itself. */
  lemma {:induction false} ParsePlain(body: string, v: nat)
    requires ParseUnsigned(body) == Some(v) && |body| > 0 && IsDigit(body[0])
    ensures Parse(body) == Some(v)
  {
  }

  /** Reading back what `toString()` printed gives the same amount: an unedited field saves the value it showed. */
  lemma {:induction false} ParseFormat(c: int)
    ensures Parse(Format(c)) == Some(c)
  {
    var d := DecimalString(Abs(c) / 100);
    var body := d + Fraction(Abs(c) % 100);
    UnsignedRoundTrip(Abs(c));
    if c < 0 {
      assert Format(c) == "-" + body;
      ParseNegated(body, Abs(c));
    } else {
      assert Format(c) == body;
      assert body[0] == d[0];
      ParsePlain(body, Abs(c));
    }
  }
}
