/** The text-to-number conversions the screens apply to live input: JavaScript's
    `parseFloat` and `parseInt`, both of which read the longest numeric prefix of
    the text and give `NaN` when there is none. `NaN` is `None` here. The source
    calls `parseInt` without a radix; its inputs are number fields and decimal
    ids, which it reads in base 10 just as an explicit radix 10 would. */
module Parsing {
  import opened Wrappers

  predicate IsDigit(c: char) {
    '0' <= c <= '9'
  }

  predicate AllDigits(s: string) {
    forall i :: 0 <= i < |s| ==> IsDigit(s[i])
  }

  function DigitValue(c: char): (d: nat)
    requires IsDigit(c)
    ensures d < 10
  {
    (c as int - '0' as int) as nat
  }

  function DigitChar(d: nat): (c: char)
    requires d < 10
    ensures IsDigit(c) && DigitValue(c) == d
  {
    (d + '0' as int) as char
  }

  /** Length of the run of decimal digits that starts the text. */
  function DigitRun(s: string): (n: nat)
    ensures n <= |s|
    ensures n == |s| || !IsDigit(s[n])
  {
    if |s| == 0 || !IsDigit(s[0]) then 0 else 1 + DigitRun(s[1..])
  }

  /** The run `DigitRun` measures is made of digits. */
  lemma {:induction false} DigitRunIsDigits(s: string)
    ensures AllDigits(s[..DigitRun(s)])
  {
    if |s| > 0 && IsDigit(s[0]) {
      DigitRunIsDigits(s[1..]);
      var n := DigitRun(s);
      assert forall i :: 1 <= i < n ==> s[..n][i] == s[1..][..n - 1][i - 1];
    }
  }

  /** The natural number a digit string denotes, most significant digit first. */
  function DigitsToNat(d: string): nat
    requires AllDigits(d)
  {
    if |d| == 0 then 0 else DigitsToNat(d[..|d| - 1]) * 10 + DigitValue(d[|d| - 1])
  }

  /** The value of the digits after a decimal point: "25" is 0.25. */
  function FractionValue(d: string): (r: real)
    requires AllDigits(d)
    ensures 0.0 <= r < 1.0
  {
    if |d| == 0 then 0.0 else (DigitValue(d[0]) as real + FractionValue(d[1..])) / 10.0
  }

  /** Decimal representation of a natural number, no leading zeros. */
  function NatToDigits(n: nat): (s: string)
    ensures |s| > 0 && AllDigits(s)
  {
    if n < 10 then [DigitChar(n)] else NatToDigits(n / 10) + [DigitChar(n % 10)]
  }

  /** Splits an optional leading sign off the text. */
  function SplitSign(s: string): (r: (bool, string))
    ensures |r.1| <= |s|
    ensures r.0 ==> s == "-" + r.1
    ensures !r.0 ==> s == r.1 || s == "+" + r.1
  {
    if |s| > 0 && s[0] == '-' then (true, s[1..])
    else if |s| > 0 && s[0] == '+' then (false, s[1..])
    else (false, s)
  }

  /** The unsigned decimal at the start of the text: digits, optionally a point
      and more digits, with at least one digit on either side of the point. */
  function UnsignedDecimalPrefix(s: string): (r: Option<real>)
    ensures r.Some? <==> (|s| > 0 && IsDigit(s[0])) || (|s| > 1 && s[0] == '.' && IsDigit(s[1]))
    ensures r.Some? ==> r.value >= 0.0
  {
    var i := DigitRun(s);
    DigitRunIsDigits(s);
    if i < |s| && s[i] == '.' then PointedDecimal(s[..i], s[i + 1..])
    else if i == 0 then None
    else Some(DigitsToNat(s[..i]) as real)
  }

  /** The value of `whole`, a point, and the digits that start `afterPoint`;
      nothing when there are digits on neither side of the point. */
  function PointedDecimal(whole: string, afterPoint: string): (r: Option<real>)
    requires AllDigits(whole)
    ensures r.Some? <==> |whole| > 0 || (|afterPoint| > 0 && IsDigit(afterPoint[0]))
    ensures r.Some? ==> r.value >= 0.0
  {
    var j := DigitRun(afterPoint);
    DigitRunIsDigits(afterPoint);
    if |whole| == 0 && j == 0 then None
    else Some(DigitsToNat(whole) as real + FractionValue(afterPoint[..j]))
  }

  /** `parseFloat(s)`: an optional sign, then an unsigned decimal prefix. */
  function ParseFloat(s: string): (r: Option<real>)
    ensures r.Some? <==> UnsignedDecimalPrefix(SplitSign(s).1).Some?
    ensures r.Some? && SplitSign(s).0 ==> r.value == -UnsignedDecimalPrefix(SplitSign(s).1).value
    ensures r.Some? && !SplitSign(s).0 ==> r.value == UnsignedDecimalPrefix(SplitSign(s).1).value
  {
    var (negative, rest) := SplitSign(s);
    match UnsignedDecimalPrefix(rest)
    case None => None
    case Some(v) => Some(if negative then -v else v)
  }

  /** `parseInt(s)` on decimal text: an optional sign, then the leading digit run. */
  function ParseInt(s: string): (r: Option<int>)
    ensures r.Some? <==> |SplitSign(s).1| > 0 && IsDigit(SplitSign(s).1[0])
    ensures r.Some? && !SplitSign(s).0 ==> r.value >= 0
    ensures r.Some? && SplitSign(s).0 ==> r.value <= 0
  {
    var (negative, rest) := SplitSign(s);
    var i := DigitRun(rest);
    DigitRunIsDigits(rest);
    if i == 0 then None
    else
      var n: int := DigitsToNat(rest[..i]);
      Some(if negative then -n else n)
  }

  lemma {:induction false} DigitsToNatOfNatToDigits(n: nat)
    ensures DigitsToNat(NatToDigits(n)) == n
  {
    if n >= 10 {
      var d := NatToDigits(n);
      var front := NatToDigits(n / 10);
      assert d == front + [DigitChar(n % 10)];
      assert d[..|d| - 1] == front;
      DigitsToNatOfNatToDigits(n / 10);
    }
  }

  /** A digit run followed by anything that does not continue it ends where the
      digits end. */
  lemma {:induction false} DigitRunOfDigitsThen(d: string, t: string)
    requires AllDigits(d)
    requires |t| == 0 || !IsDigit(t[0])
    ensures DigitRun(d + t) == |d|
  {
    if |d| > 0 {
      assert (d + t)[1..] == d[1..] + t;
      DigitRunOfDigitsThen(d[1..], t);
    } else {
      assert d + t == t;
    }
  }

  /** `parseInt` reads back what `toString` writes for an integer, and ignores
      whatever non-digit text follows it. */
  lemma ParseIntOfIntText(n: nat, t: string)
    requires |t| == 0 || !IsDigit(t[0])
    ensures ParseInt(NatToDigits(n) + t) == Some(n)
    ensures ParseInt("-" + NatToDigits(n) + t) == Some(-(n as int))
  {
    var d := NatToDigits(n);
    DigitRunOfDigitsThen(d, t);
    assert (d + t)[..|d|] == d;
    DigitsToNatOfNatToDigits(n);
    assert SplitSign(d + t) == (false, d + t);
    assert ("-" + d + t)[1..] == d + t;
    assert SplitSign("-" + d + t) == (true, d + t);
  }

  /** `parseFloat` reads back the text of a whole number. */
  lemma ParseFloatOfIntText(n: nat)
    ensures ParseFloat(NatToDigits(n)) == Some(n as real)
    ensures ParseFloat("-" + NatToDigits(n)) == Some(-(n as real))
  {
    var d := NatToDigits(n);
    DigitRunOfDigitsThen(d, "");
    assert d + "" == d;
    assert d[..|d|] == d;
    DigitsToNatOfNatToDigits(n);
    assert SplitSign(d) == (false, d);
    assert SplitSign("-" + d) == (true, d);
  }

  /** Digits, a point and more digits, followed by a non-digit, read as the
      whole part plus the fraction. */
  lemma UnsignedOfDecimalText(d: string, f: string, tail: string, whole: nat, fraction: real)
    requires AllDigits(d) && |d| > 0 && AllDigits(f) && |f| > 0
    requires |tail| == 0 || !IsDigit(tail[0])
    requires whole == DigitsToNat(d) && fraction == FractionValue(f)
    ensures UnsignedDecimalPrefix(d + ("." + (f + tail))) == Some(whole as real + fraction)
  {
    var after := "." + (f + tail);
    var s := d + after;
    DigitRunOfDigitsThen(d, after);
    assert s[..|d|] == d;
    assert s[|d|] == '.';
    assert s[|d| + 1..] == f + tail;
    assert UnsignedDecimalPrefix(s) == PointedDecimal(d, f + tail);
    PointedDecimalOfDigitsText(d, f, tail, whole, fraction);
  }

  lemma PointedDecimalOfDigitsText(d: string, f: string, tail: string, whole: nat, fraction: real)
    requires AllDigits(d) && AllDigits(f) && |f| > 0
    requires |tail| == 0 || !IsDigit(tail[0])
    requires whole == DigitsToNat(d) && fraction == FractionValue(f)
    ensures PointedDecimal(d, f + tail) == Some(whole as real + fraction)
  {
    FractionDigitsThen(f, tail);
  }

  /** The digit run after a point is exactly the fraction digits. */
  lemma FractionDigitsThen(f: string, tail: string)
    requires AllDigits(f)
    requires |tail| == 0 || !IsDigit(tail[0])
    ensures DigitRun(f + tail) == |f|
    ensures (f + tail)[..DigitRun(f + tail)] == f
  {
    DigitRunOfDigitsThen(f, tail);
    assert (f + tail)[..|f|] == f;
  }

  /** Text that does not start with a sign reads as its unsigned prefix, and a
      leading minus negates that. */
  lemma ParseFloatOfSignedText(s: string, v: real)
    requires |s| > 0 && s[0] != '-' && s[0] != '+'
    requires UnsignedDecimalPrefix(s) == Some(v)
    ensures ParseFloat(s) == Some(v)
    ensures ParseFloat("-" + s) == Some(-v)
  {
    assert SplitSign(s) == (false, s);
    assert ("-" + s)[1..] == s;
    assert SplitSign("-" + s) == (true, s);
  }

  /** `parseFloat` reads a decimal with a fractional part as its whole part plus
      the fraction its digits denote, ignoring whatever non-digit text follows:
      "99.5" is 99.5 and "-0.25kg" is -0.25. */
  lemma {:induction false} ParseFloatOfDecimalText(w: nat, f: string, tail: string)
    requires AllDigits(f) && |f| > 0
    requires |tail| == 0 || !IsDigit(tail[0])
    ensures ParseFloat(NatToDigits(w) + ("." + (f + tail))) == Some(w as real + FractionValue(f))
    ensures ParseFloat("-" + (NatToDigits(w) + ("." + (f + tail)))) == Some(-(w as real + FractionValue(f)))
  {
    var d := NatToDigits(w);
    var fraction := FractionValue(f);
    var s := d + ("." + (f + tail));
    assert s[0] == d[0];
    DigitsToNatOfNatToDigits(w);
    UnsignedOfDecimalText(d, f, tail, w, fraction);
    ParseFloatOfSignedText(s, w as real + fraction);
  }
  /** A point with no digits before it reads as the fraction alone. */
  lemma UnsignedOfPointText(f: string, tail: string, fraction: real)
    requires AllDigits(f) && |f| > 0
    requires |tail| == 0 || !IsDigit(tail[0])
    requires fraction == FractionValue(f)
    ensures UnsignedDecimalPrefix("." + (f + tail)) == Some(fraction)
  {
    PointTextIsPointed(f + tail);
    PointedDecimalOfDigitsText("", f, tail, 0, fraction);
  }

  /** Text that starts with a point has an empty whole part. */
  lemma PointTextIsPointed(a: string)
    ensures UnsignedDecimalPrefix("." + a) == PointedDecimal("", a)
  {
    var s := "." + a;
    assert DigitRun(s) == 0;
    assert s[..0] == "";
    assert s[1..] == a;
  }

  /** Any non-empty digit run, leading zeros included, reads as its number. */
  lemma UnsignedOfDigitsText(d: string, whole: nat)
    requires AllDigits(d) && |d| > 0
    requires whole == DigitsToNat(d)
    ensures UnsignedDecimalPrefix(d) == Some(whole as real)
  {
    DigitRunOfDigitsThen(d, "");
    assert d + "" == d;
    assert d[..|d|] == d;
  }

  lemma DigitLiterals()
    ensures FractionValue("5") == 0.5
    ensures DigitsToNat("05") == 5
    ensures DigitsToNat("007") == 7
  {
    assert "5"[1..] == "";
    assert "05"[..1] == "0" && "0"[..0] == "";
    assert "007"[..2] == "00" && "00"[..1] == "0";
  }

  /** A bare fraction, as a number field may hold it. */
  lemma PointTextExample()
    ensures ParseFloat(".5") == Some(0.5)
    ensures ParseFloat("-.5") == Some(-0.5)
  {
    DigitLiterals();
    UnsignedOfPointText("5", "", 0.5);
    assert "." + ("5" + "") == ".5";
    assert "-" + ".5" == "-.5";
    ParseFloatOfSignedText(".5", 0.5);
  }

  /** A whole number written with a leading zero. */
  lemma LeadingZeroExample()
    ensures ParseFloat("05") == Some(5.0)
  {
    DigitLiterals();
    UnsignedOfDigitsText("05", 5);
    ParseFloatOfSignedText("05", 5.0);
  }

  /** A decimal written with leading zeros. */
  lemma LeadingZerosDecimalExample()
    ensures ParseFloat("007.5") == Some(7.5)
  {
    DigitLiterals();
    UnsignedOfDecimalText("007", "5", "", 7, 0.5);
    assert "007" + ("." + ("5" + "")) == "007.5";
    ParseFloatOfSignedText("007.5", 7.5);
  }

  lemma ParseFloatOfEmpty()
    ensures ParseFloat("") == None
    ensures ParseFloat("-") == None
    ensures ParseFloat(".") == None
  {
  }
}
