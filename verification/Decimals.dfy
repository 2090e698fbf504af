/** Decimal text of measurement values: printing with a fixed number of decimals, and atof. */
module Decimals {

  const DIGITS := "0123456789"

  function Digit(d: nat): char
    requires d < 10
  {
    DIGITS[d]
  }

  predicate IsDigit(c: char) {
    '0' <= c <= '9'
  }

  function DigitValue(c: char): (d: nat)
    requires IsDigit(c)
    ensures d < 10 && Digit(d) == c
  {
    c as int - '0' as int
  }

  predicate AllDigits(s: string) {
    forall i :: 0 <= i < |s| ==> IsDigit(s[i])
  }

  function Pow10(k: nat): (p: nat)
    ensures p > 0
  {
    if k == 0 then 1 else 10 * Pow10(k - 1)
  }

  /** The integer part: no leading zeros. */
  function Natural(n: nat): (s: string)
    ensures s != [] && AllDigits(s)
  {
    if n < 10 then [Digit(n)] else Natural(n / 10) + [Digit(n % 10)]
  }

  /** Exactly `k` digits, the low ones of `n`. */
  function Padded(n: nat, k: nat): (s: string)
    ensures |s| == k && AllDigits(s)
  {
    if k == 0 then [] else Padded(n / 10, k - 1) + [Digit(n % 10)]
  }

  function Integer(n: int): string {
    if n < 0 then "-" + Natural(-n) else Natural(n)
  }

  function Quotient(n: nat, p: nat): nat
    requires p > 0
  {
    n / p
  }

  function Remainder(n: nat, p: nat): (r: nat)
    requires p > 0
    ensures r < p
  {
    n % p
  }

  lemma QuotientRemainder(n: nat, p: nat)
    requires p > 0
    ensures Quotient(n, p) * p + Remainder(n, p) == n
  {
  }

  /** `n` units of 10^-k. */
  function FixedPoint(n: nat, k: nat): string
    requires k > 0
  {
    Natural(Quotient(n, Pow10(k))) + "." + Padded(Remainder(n, Pow10(k)), k)
  }

  /** n / p. */
  function Ratio(n: int, p: nat): real
    requires p > 0
  {
    n as real / p as real
  }

  /** The value that is `n` units of 10^-k, for any sign. */
  function Units(n: int, k: nat): real {
    Ratio(n, Pow10(k))
  }

  function Abs(v: real): (a: real)
    ensures a >= 0.0
  {
    if v < 0.0 then -v else v
  }

  /** The nearest integer, ties to even: how printf rounds the exact value. */
  function Nearest(x: real): (n: nat)
    requires x >= 0.0
    ensures Abs(x - n as real) <= 0.5
    ensures Abs(x - n as real) == 0.5 ==> n % 2 == 0
  {
    var f := x.Floor;
    var d := x - f as real;
    if d < 0.5 || (d == 0.5 && f % 2 == 0) then f else f + 1
  }

  function Scale(a: real, p: nat): (x: real)
    requires a >= 0.0
    ensures x >= 0.0
  {
    a * p as real
  }

  /** printf "%.<k>f". */
  function Print(v: real, k: nat): string
    requires k > 0
  {
    (if v < 0.0 then "-" else "") + FixedPoint(Nearest(Scale(Abs(v), Pow10(k))), k)
  }

  function ParseNatural(s: string): nat
    requires AllDigits(s)
  {
    if s == [] then 0 else ParseNatural(s[..|s| - 1]) * 10 + DigitValue(s[|s| - 1])
  }

  predicate IsSpace(c: char) {
    c == ' ' || '\t' <= c <= '\r'
  }

  /** The longest prefix of digits. */
  function DigitRun(s: string): (r: string)
    ensures r <= s && AllDigits(r)
    ensures |r| < |s| ==> !IsDigit(s[|r|])
  {
    if s == [] || !IsDigit(s[0]) then [] else [s[0]] + DigitRun(s[1..])
  }

  function ScaleByTen(v: real, e: int): real
    decreases if e < 0 then -e else e
  {
    if e == 0 then v else if e > 0 then ScaleByTen(v * 10.0, e - 1) else ScaleByTen(v / 10.0, e + 1)
  }

  /** An exponent suffix; 0 when the text does not continue with one. */
  function Exponent(s: string): int {
    if |s| < 2 || (s[0] != 'e' && s[0] != 'E') then 0
    else if s[1] == '-' then -(ParseNatural(DigitRun(s[2..])) as int)
    else if s[1] == '+' then ParseNatural(DigitRun(s[2..]))
    else ParseNatural(DigitRun(s[1..]))
  }

  /** digits [. digits] [exponent]; 0 when there is no digit at all. */
  function ReadUnsigned(s: string): real {
    var whole := DigitRun(s);
    var rest := s[|whole|..];
    var fraction := if rest != [] && rest[0] == '.' then DigitRun(rest[1..]) else [];
    var tail := if rest != [] && rest[0] == '.' then rest[1 + |fraction|..] else rest;
    var mantissa := Units(ParseNatural(whole + fraction), |fraction|);
    if whole + fraction == [] then 0.0 else ScaleByTen(mantissa, Exponent(tail))
  }

  /** atof on decimal text. */
  function Atof(s: string): real {
    if s != [] && IsSpace(s[0]) then Atof(s[1..])
    else if s != [] && s[0] == '-' then -ReadUnsigned(s[1..])
    else if s != [] && s[0] == '+' then ReadUnsigned(s[1..])
    else ReadUnsigned(s)
  }

  // ---------- reading back what was printed ----------

  lemma {:induction false} ReadNatural(n: nat)
    ensures ParseNatural(Natural(n)) == n
  {
    if n >= 10 {
      ReadNatural(n / 10);
      assert Natural(n)[..|Natural(n)| - 1] == Natural(n / 10);
    }
  }

  /** v with k zeros behind it. */
  function Shifted(v: nat, k: nat): nat {
    if k == 0 then v else 10 * Shifted(v, k - 1)
  }

  lemma {:induction false} ShiftedIs(v: nat, k: nat)
    ensures Shifted(v, k) == v * Pow10(k)
  {
    if k > 0 {
      ShiftedIs(v, k - 1);
      TenTimes(v, Pow10(k - 1));
    }
  }

  lemma TenTimes(v: nat, p: nat)
    ensures 10 * (v * p) == v * (10 * p)
  {
  }

  lemma AppendDigit(s: string, d: nat)
    requires AllDigits(s) && d < 10
    ensures AllDigits(s + [Digit(d)]) && ParseNatural(s + [Digit(d)]) == ParseNatural(s) * 10 + d
  {
    assert (s + [Digit(d)])[..|s|] == s;
  }

  lemma {:induction false} ReadPadded(s: string, n: nat, k: nat)
    requires AllDigits(s) && n < Pow10(k)
    ensures ParseNatural(s + Padded(n, k)) == Shifted(ParseNatural(s), k) + n
  {
    if k == 0 {
      assert s + Padded(n, k) == s;
    } else {
      ReadPadded(s, n / 10, k - 1);
      AppendDigit(s + Padded(n / 10, k - 1), n % 10);
      assert s + Padded(n, k) == s + Padded(n / 10, k - 1) + [Digit(n % 10)];
    }
  }

  lemma {:induction false} DigitRunOf(d: string, rest: string)
    requires AllDigits(d) && (rest == [] || !IsDigit(rest[0]))
    ensures DigitRun(d + rest) == d
  {
    if d == [] {
      assert d + rest == rest;
    } else {
      DigitRunOf(d[1..], rest);
      assert (d + rest)[1..] == d[1..] + rest;
    }
  }

  /** The pieces that ReadUnsigned cuts out of a fixed-point text. */
  lemma CutParts(whole: string, fraction: string)
    requires AllDigits(whole) && AllDigits(fraction)
    ensures var s := whole + "." + fraction;
            && DigitRun(s) == whole && s[|whole|..] == "." + fraction
            && DigitRun(s[|whole|..][1..]) == fraction
  {
    var s := whole + "." + fraction;
    assert s == whole + ("." + fraction);
    DigitRunOf(whole, "." + fraction);
    assert s[|whole|..] == "." + fraction && s[|whole|..][1..] == fraction;
    DigitRunOf(fraction, []);
    assert fraction + [] == fraction;
  }

  lemma ReadParts(whole: string, fraction: string)
    requires AllDigits(whole) && AllDigits(fraction) && whole != []
    ensures ReadUnsigned(whole + "." + fraction) == Units(ParseNatural(whole + fraction), |fraction|)
  {
    CutParts(whole, fraction);
    assert Exponent([]) == 0;
    assert (whole + "." + fraction)[|whole|..][1 + |fraction|..] == [];
  }

  /** The digits printed for n spell n. */
  lemma ReadDigits(n: nat, k: nat)
    ensures ParseNatural(Natural(Quotient(n, Pow10(k))) + Padded(Remainder(n, Pow10(k)), k)) == n
  {
    ReadPadded(Natural(Quotient(n, Pow10(k))), Remainder(n, Pow10(k)), k);
    ReadNatural(Quotient(n, Pow10(k)));
    ShiftedIs(Quotient(n, Pow10(k)), k);
    QuotientRemainder(n, Pow10(k));
  }

  /** The fixed-point text of n units of 10^-k is read back as n / 10^k. */
  lemma ReadFixedPoint(n: nat, k: nat)
    requires k > 0
    ensures ReadUnsigned(FixedPoint(n, k)) == Units(n, k)
  {
    ReadParts(Natural(Quotient(n, Pow10(k))), Padded(Remainder(n, Pow10(k)), k));
    ReadDigits(n, k);
  }

  lemma NearestOfInteger(n: nat)
    ensures Nearest(n as real) == n
  {
    assert (n as real).Floor == n;
  }

  lemma RatioFacts(m: int, p: nat)
    requires p > 0 && m >= 0
    ensures Ratio(m, p) >= 0.0
    ensures Scale(Ratio(m, p), p) == m as real
    ensures Ratio(-m, p) == -Ratio(m, p)
    ensures m > 0 ==> Ratio(m, p) > 0.0
  {
    var x, y := m as real, p as real;
    assert (-m) as real == -x;
    assert (-x) / y == -(x / y);
  }

  function Magnitude(n: int): nat {
    if n < 0 then -n else n
  }

  lemma AbsUnits(n: int, k: nat)
    ensures Units(n, k) < 0.0 <==> n < 0
    ensures Scale(Abs(Units(n, k)), Pow10(k)) == Magnitude(n) as real
  {
    RatioFacts(Magnitude(n), Pow10(k));
  }

  /** printf of a value that has at most k decimals is exact. */
  lemma PrintUnits(n: int, k: nat)
    requires k > 0
    ensures Print(Units(n, k), k) == (if n < 0 then "-" else "") + FixedPoint(Magnitude(n), k)
  {
    AbsUnits(n, k);
    NearestOfInteger(Magnitude(n));
  }

  lemma AtofSigned(negative: bool, u: string)
    requires u != [] && IsDigit(u[0])
    ensures Atof((if negative then "-" else "") + u) == if negative then -ReadUnsigned(u) else ReadUnsigned(u)
  {
    if negative {
      AtofMinus("-" + u);
      assert ("-" + u)[1..] == u;
    } else {
      AtofPlain(u);
      assert "" + u == u;
    }
  }

  lemma AtofMinus(s: string)
    requires s != [] && s[0] == '-'
    ensures Atof(s) == -ReadUnsigned(s[1..])
  {
  }

  lemma AtofPlain(s: string)
    requires s != [] && IsDigit(s[0])
    ensures Atof(s) == ReadUnsigned(s)
  {
  }

  /** atof inverts printf on every value that has at most k decimals. */
  lemma ReadPrinted(n: int, k: nat)
    requires k > 0
    ensures Atof(Print(Units(n, k), k)) == Units(n, k)
  {
    var u := FixedPoint(Magnitude(n), k);
    assert u[0] == Natural(Quotient(Magnitude(n), Pow10(k)))[0];
    PrintUnits(n, k);
    AtofSigned(n < 0, u);
    ReadFixedPoint(Magnitude(n), k);
    RatioFacts(Magnitude(n), Pow10(k));
  }

  /** More decimals print the same value: a hundredth is a hundred units of 10^-4. */
  lemma HundredthsAsUnits(h: int)
    ensures Units(h, 2) == Units(100 * h, 4)
  {
    assert Pow10(2) == 100 && Pow10(4) == 10000 by {
      assert Pow10(1) == 10;
      assert Pow10(3) == 1000;
    }
  }

  /** Printing never uses a separator of the list formats. */
  lemma PrintCharacters(v: real, k: nat)
    requires k > 0
    ensures forall i :: 0 <= i < |Print(v, k)| ==> IsDigit(Print(v, k)[i]) || Print(v, k)[i] == '-' || Print(v, k)[i] == '.'
    ensures |Print(v, k)| >= 2
  {
  }

  lemma {:induction false} IntegerReads(n: int)
    ensures n >= 0 ==> AllDigits(Integer(n)) && ParseNatural(Integer(n)) == n
    ensures n < 0 ==> Integer(n)[0] == '-' && AllDigits(Integer(n)[1..]) && ParseNatural(Integer(n)[1..]) == -n
  {
    if n >= 0 {
      ReadNatural(n);
    } else {
      ReadNatural(-n);
      assert Integer(n)[1..] == Natural(-n);
    }
  }

  // ---------- rounding, and text that printf does not produce ----------

  function Signed(negative: bool, v: real): real {
    if negative then -v else v
  }

  /** printf prints a value with k decimals that is nearest to the given one, the even one on a tie. */
  lemma PrintRounds(v: real, k: nat)
    requires k > 0
    ensures exists n: nat ::
              && Atof(Print(v, k)) == Signed(v < 0.0, Units(n, k))
              && Abs(Scale(Abs(v), Pow10(k)) - n as real) <= 0.5
              && (Abs(Scale(Abs(v), Pow10(k)) - n as real) == 0.5 ==> n % 2 == 0)
  {
    var n := Nearest(Scale(Abs(v), Pow10(k)));
    var u := FixedPoint(n, k);
    assert u[0] == Natural(Quotient(n, Pow10(k)))[0];
    AtofSigned(v < 0.0, u);
    ReadFixedPoint(n, k);
    assert Atof(Print(v, k)) == Signed(v < 0.0, Units(n, k));
  }

  predicate Tail(s: string) {
    s == [] || !IsDigit(s[0])
  }

  lemma CutTail(whole: string, fraction: string, tail: string)
    requires AllDigits(whole) && AllDigits(fraction) && Tail(tail)
    ensures var s := whole + ("." + (fraction + tail));
            && DigitRun(s) == whole && s[|whole|..] == "." + (fraction + tail)
            && DigitRun(s[|whole|..][1..]) == fraction && s[|whole|..][1 + |fraction|..] == tail
  {
    var s := whole + ("." + (fraction + tail));
    DigitRunOf(whole, "." + (fraction + tail));
    assert s[|whole|..] == "." + (fraction + tail) && s[|whole|..][1..] == fraction + tail;
    DigitRunOf(fraction, tail);
    assert s[|whole|..][1 + |fraction|..] == tail;
  }

  lemma {:induction false} ScaledUp(v: real, e: nat)
    ensures ScaleByTen(v, e) == v * Pow10(e) as real
    decreases e
  {
    if e > 0 {
      ScaledUp(v * 10.0, e - 1);
      TenfoldReal(v, Pow10(e - 1));
    }
  }

  lemma TenfoldReal(v: real, p: nat)
    ensures v * 10.0 * p as real == v * (10 * p) as real
  {
    assert (10 * p) as real == 10.0 * p as real;
  }

  lemma {:induction false} ScaledDown(v: real, e: nat)
    ensures ScaleByTen(v, -(e as int)) * Pow10(e) as real == v
    decreases e
  {
    if e > 0 {
      ScaledDown(v / 10.0, e - 1);
      TenfoldReal(ScaleByTen(v / 10.0, -(e as int) + 1), Pow10(e - 1));
    }
  }

  lemma UnsignedWithTail(whole: string, fraction: string, tail: string)
    requires AllDigits(whole) && AllDigits(fraction) && whole != [] && Tail(tail)
    ensures ReadUnsigned(whole + ("." + (fraction + tail)))
         == ScaleByTen(Units(ParseNatural(whole + fraction), |fraction|), Exponent(tail))
  {
    CutTail(whole, fraction, tail);
  }

  lemma AtofOfDigits(whole: string, rest: string)
    requires AllDigits(whole) && whole != []
    ensures Atof(whole + rest) == ReadUnsigned(whole + rest)
  {
    assert (whole + rest)[0] == whole[0];
    AtofPlain(whole + rest);
  }

  /** atof on digits, a point, digits and anything else: an exponent scales the value, other text is
      ignored. */
  lemma ReadWithTail(whole: string, fraction: string, tail: string)
    requires AllDigits(whole) && AllDigits(fraction) && whole != [] && Tail(tail)
    ensures Atof(whole + ("." + (fraction + tail)))
         == ScaleByTen(Units(ParseNatural(whole + fraction), |fraction|), Exponent(tail))
  {
    AtofOfDigits(whole, "." + (fraction + tail));
    UnsignedWithTail(whole, fraction, tail);
  }

  lemma ExponentReads(e: nat)
    ensures Exponent("e" + Natural(e)) == e && Exponent("E" + Natural(e)) == e
    ensures Exponent("e-" + Natural(e)) == -(e as int) && Exponent("e+" + Natural(e)) == e
  {
    ReadNatural(e);
    DigitRunOf(Natural(e), []);
    assert Natural(e) + [] == Natural(e);
    assert ("e" + Natural(e))[1..] == Natural(e) && ("E" + Natural(e))[1..] == Natural(e);
    assert ("e-" + Natural(e))[2..] == Natural(e) && ("e+" + Natural(e))[2..] == Natural(e);
    assert Natural(e)[0] != '-' && Natural(e)[0] != '+';
  }

  /** v times the x-th power of ten. */
  ghost predicate Scaled(r: real, v: real, x: int) {
    if x >= 0 then r == v * Pow10(x) as real else r * Pow10(-x) as real == v
  }

  lemma ScaledIs(v: real, x: int)
    ensures Scaled(ScaleByTen(v, x), v, x)
  {
    if x >= 0 {
      ScaledUp(v, x);
    } else {
      ScaledDown(v, -x);
    }
  }

  /** An exponent behind a number scales it by that power of ten; the texts of exponents are those of
      ExponentReads. */
  lemma AtofScales(whole: string, fraction: string, tail: string)
    requires AllDigits(whole) && AllDigits(fraction) && whole != [] && Tail(tail)
    ensures Scaled(Atof(whole + ("." + (fraction + tail))),
                   Units(ParseNatural(whole + fraction), |fraction|), Exponent(tail))
  {
    var v := Units(ParseNatural(whole + fraction), |fraction|);
    ReadWithTail(whole, fraction, tail);
    ScaledIs(v, Exponent(tail));
  }

  /** Other text after a number is ignored. */
  lemma AtofIgnores(whole: string, fraction: string, rest: string)
    requires AllDigits(whole) && AllDigits(fraction) && whole != []
    requires rest == [] || (!IsDigit(rest[0]) && rest[0] != 'e' && rest[0] != 'E')
    ensures Atof(whole + ("." + (fraction + rest))) == Units(ParseNatural(whole + fraction), |fraction|)
  {
    ReadWithTail(whole, fraction, rest);
  }

  /** Text without a number reads as 0. */
  lemma AtofNothing(s: string)
    requires s == [] || (!IsDigit(s[0]) && !IsSpace(s[0]) && s[0] != '-' && s[0] != '+' && s[0] != '.')
    ensures Atof(s) == 0.0
  {
    assert DigitRun(s) == [];
  }
}
