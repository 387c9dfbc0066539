/** Conversions between numbers and strings with the semantics of the
    JavaScript built-ins the dashboard calls: `n.toString()` for integers,
    `parseInt(s)` (no radix), `parseFloat(s)` and `Number(s)`. Values are
    exact: floating-point rounding is not modelled. */
module Numbers {
  import opened Wrappers
  import Text

  /** The value of `c` as a digit in base `radix` (10 or 16), if it is one. */
  function DigitValue(c: char, radix: nat): Option<nat> {
    var v: int :=
      if '0' <= c <= '9' then c as int - '0' as int
      else if 'a' <= c <= 'z' then c as int - 'a' as int + 10
      else if 'A' <= c <= 'Z' then c as int - 'A' as int + 10
      else -1;
    if 0 <= v < radix then Some(v) else None
  }

  predicate AllDigits(s: string, radix: nat) {
    forall i :: 0 <= i < |s| ==> DigitValue(s[i], radix).Some?
  }

  /** Length of the longest prefix of `s` made of digits of `radix`. */
  function DigitRun(s: string, radix: nat): (n: nat)
    ensures n <= |s| && AllDigits(s[..n], radix)
    ensures n < |s| ==> DigitValue(s[n], radix).None?
  {
    if |s| == 0 || DigitValue(s[0], radix).None? then
      0
    else
      var n := 1 + DigitRun(s[1..], radix);
      assert forall i :: 1 <= i < n ==> s[..n][i] == s[1..][..n - 1][i - 1];
      n
  }

  /** A string of digits takes its full length as its digit run. */
  lemma {:induction false} DigitRunAll(s: string, radix: nat)
    requires AllDigits(s, radix)
    ensures DigitRun(s, radix) == |s|
    decreases |s|
  {
    if |s| > 0 {
      assert AllDigits(s[1..], radix);
      DigitRunAll(s[1..], radix);
    }
  }

  /** The digit run of digits followed by a non-digit ends at the non-digit. */
  lemma {:induction false} DigitRunPrefix(a: string, b: string, radix: nat)
    requires AllDigits(a, radix)
    requires |b| == 0 || DigitValue(b[0], radix).None?
    ensures DigitRun(a + b, radix) == |a|
    decreases |a|
  {
    if |a| > 0 {
      assert (a + b)[1..] == a[1..] + b;
      DigitRunPrefix(a[1..], b, radix);
    }
  }

  /** The number a run of digits denotes, most significant digit first. */
  function RunValue(s: string, radix: nat): nat
    requires AllDigits(s, radix)
    decreases |s|
  {
    if |s| == 0 then 0
    else
      assert AllDigits(s[..|s| - 1], radix);
      RunValue(s[..|s| - 1], radix) * radix + DigitValue(s[|s| - 1], radix).value
  }

  // ---------------------------------------------------------------------
  // Integer to decimal string
  // ---------------------------------------------------------------------

  function DigitChar(d: nat): (c: char)
    requires d < 10
    ensures DigitValue(c, 10) == Some(d)
  {
    ('0' as int + d) as char
  }

  /** The decimal digits of `n`, without leading zeros. */
  function NatToString(n: nat): (r: string)
    ensures 0 < |r| && AllDigits(r, 10)
    ensures RunValue(r, 10) == n
    ensures r[0] == '0' ==> n == 0 && |r| == 1
  {
    if n < 10 then
      [DigitChar(n)]
    else
      var front := NatToString(n / 10);
      var r := front + [DigitChar(n % 10)];
      assert r[..|r| - 1] == front;
      r
  }

  /** `n.toString()` for an integer `n`. */
  function IntToString(n: int): (r: string)
  {
    if n < 0 then "-" + NatToString(-n) else NatToString(n)
  }

  // ---------------------------------------------------------------------
  // parseInt
  // ---------------------------------------------------------------------

  /** `parseInt(s)` with no radix: leading white space is skipped, then an
      optional sign, then an optional `0x`/`0X` prefix selecting base 16,
      then the longest run of digits; NaN (`None`) when that run is empty. */
  function ParseInt(s: string): Option<int> {
    var t := Text.TrimStart(s);
    var neg := |t| > 0 && t[0] == '-';
    var u := if |t| > 0 && (t[0] == '-' || t[0] == '+') then t[1..] else t;
    var hex := |u| >= 2 && u[0] == '0' && (u[1] == 'x' || u[1] == 'X');
    var radix := if hex then 16 else 10;
    var body := if hex then u[2..] else u;
    var n := DigitRun(body, radix);
    if n == 0 then None
    else
      var v: int := RunValue(body[..n], radix);
      Some(if neg then -v else v)
  }

  /** No digit where the digits must start: NaN. */
  lemma ParseIntNoDigits(s: string)
    requires var t := Text.TrimStart(s);
             var u := if |t| > 0 && (t[0] == '-' || t[0] == '+') then t[1..] else t;
             |u| == 0 || (DigitValue(u[0], 10).None? && u[0] != '0')
    ensures ParseInt(s) == None
  {
  }

  lemma TrimStartKeeps(s: string)
    requires |s| > 0 && !Text.IsWhite(s[0])
    ensures Text.TrimStart(s) == s
  {
  }

  /** Reading back the decimal string of an integer gives the integer. */
  lemma ParseIntRoundTrip(n: int)
    ensures ParseInt(IntToString(n)) == Some(n)
  {
    var s := IntToString(n);
    var digits := NatToString(if n < 0 then -n else n);
    TrimStartKeeps(s);
    DigitRunAll(digits, 10);
    if n < 0 {
      assert s[1..] == digits;
    }
    assert digits[..|digits|] == digits;
  }

  // ---------------------------------------------------------------------
  // parseFloat and Number
  // ---------------------------------------------------------------------

  function Pow10(n: nat): (r: real)
    ensures r >= 1.0
  {
    if n == 0 then 1.0 else 10.0 * Pow10(n - 1)
  }

  /** Multiplies `x` by ten to the power `e`, one factor of ten at a time. */
  function ScaleByPow10(x: real, e: int): real
    decreases if e >= 0 then e else -e
  {
    if e == 0 then x
    else if e > 0 then ScaleByPow10(x, e - 1) * 10.0
    else ScaleByPow10(x, e + 1) / 10.0
  }

  /** Scaling is multiplication or division by the power of ten. */
  lemma {:induction false} ScaleByPow10Spec(x: real, e: int)
    ensures e >= 0 ==> ScaleByPow10(x, e) == x * Pow10(e)
    ensures e < 0 ==> ScaleByPow10(x, e) == x / Pow10(-e)
    decreases if e >= 0 then e else -e
  {
    if e > 0 {
      ScaleByPow10Spec(x, e - 1);
      assert Pow10(e) == 10.0 * Pow10(e - 1);
      assert x * Pow10(e) == (x * Pow10(e - 1)) * 10.0;
    } else if e < 0 {
      ScaleByPow10Spec(x, e + 1);
      var p := Pow10(-e - 1);
      assert Pow10(-e) == 10.0 * p;
      if e + 1 == 0 {
        assert ScaleByPow10(x, e) == x / 10.0;
      } else {
        assert ScaleByPow10(x, e) == (x / p) / 10.0;
        assert (x / p) / 10.0 == x / (10.0 * p);
      }
    }
  }

  /** The value of `whole.fraction` where the fraction has `f` digits. */
  function Mantissa(whole: nat, frac: nat, f: nat): real {
    if f == 0 then whole as real else whole as real + ScaleByPow10(frac as real, -(f as int))
  }

  /** An exponent part `(e|E) [+|-] digits` at the front of `u`: its value
      and length, or `(0, 0)` when there is none. */
  function ScanExponent(u: string): (r: (int, nat))
    ensures r.1 <= |u|
  {
    if |u| == 0 || (u[0] != 'e' && u[0] != 'E') then
      (0, 0)
    else
      var signed := |u| > 1 && (u[1] == '+' || u[1] == '-');
      var start := if signed then 2 else 1;
      var n := DigitRun(u[start..], 10);
      if n == 0 then (0, 0)
      else
        var v: int := RunValue(u[start..][..n], 10);
        (if signed && u[1] == '-' then -v else v, start + n)
  }

  /** The longest prefix of `u` that reads as an unsigned decimal literal
      `digits [. [digits]] [exponent]` or `. digits [exponent]`: its value
      and length, `None` when there is none. */
  function ScanUnsignedDecimal(u: string): (r: Option<(real, nat)>)
    ensures r.Some? ==> 0 < r.value.1 <= |u|
  {
    var i := DigitRun(u, 10);
    var hasDot := i < |u| && u[i] == '.';
    var f := if hasDot then DigitRun(u[i + 1..], 10) else 0;
    if i == 0 && f == 0 then None
    else
      var whole := RunValue(u[..i], 10);
      var frac := if hasDot then RunValue(u[i + 1..][..f], 10) else 0;
      var mantissa := Mantissa(whole, frac, f);
      var m := if hasDot then i + 1 + f else i;
      var exp := ScanExponent(u[m..]);
      Some((ScaleByPow10(mantissa, exp.0), m + exp.1))
  }

  /** A signed decimal literal at the front of `t`. */
  function ScanDecimal(t: string): (r: Option<(real, nat)>)
    ensures r.Some? ==> 0 < r.value.1 <= |t|
  {
    var signed := |t| > 0 && (t[0] == '-' || t[0] == '+');
    var u := if signed then t[1..] else t;
    match ScanUnsignedDecimal(u)
    case None => None
    case Some((v, n)) =>
      Some((if signed && t[0] == '-' then -v else v, if signed then n + 1 else n))
  }

  /** `parseFloat(s)`: leading white space is skipped and the longest decimal
      literal prefix is read; NaN (`None`) when there is none. */
  function ParseFloat(s: string): Option<real> {
    match ScanDecimal(Text.TrimStart(s))
    case None => None
    case Some((v, _)) => Some(v)
  }

  /** `Number(s)` for a string: white space around is ignored, the empty
      string is 0, otherwise the whole rest must be one decimal literal. */
  function StringToNumber(s: string): Option<real> {
    var t := Text.Trim(s);
    if |t| == 0 then Some(0.0)
    else
      match ScanDecimal(t)
      case Some((v, n)) => if n == |t| then Some(v) else None
      case None => None
  }

  lemma ScanDigitsOnly(u: string)
    requires |u| > 0 && AllDigits(u, 10)
    ensures ScanUnsignedDecimal(u) == Some((RunValue(u, 10) as real, |u|))
  {
    DigitRunAll(u, 10);
    assert u[..|u|] == u;
    assert u[|u|..] == "";
    assert ScanExponent("") == (0, 0);
  }

  lemma ScanIntString(n: int)
    ensures ScanDecimal(IntToString(n)) == Some((n as real, |IntToString(n)|))
  {
    var s := IntToString(n);
    var digits := NatToString(if n < 0 then -n else n);
    ScanDigitsOnly(digits);
    DigitNotWhite(digits[0]);
    if n < 0 {
      assert s[0] == '-' && s[1..] == digits;
      assert ScanDecimal(s) == Some((-(RunValue(digits, 10) as real), |digits| + 1));
    } else {
      assert s == digits;
      assert ScanDecimal(s) == Some((RunValue(digits, 10) as real, |digits|));
    }
  }

  /** A literal `digits.digits` that fills `u` reads as its whole part plus
      its fraction. */
  lemma ScanPointBody(u: string, i: nat, f: nat)
    requires DigitRun(u, 10) == i && i < |u| && u[i] == '.'
    requires DigitRun(u[i + 1..], 10) == f && 0 < f && i + 1 + f == |u|
    ensures ScanUnsignedDecimal(u) == Some((Mantissa(RunValue(u[..i], 10), RunValue(u[i + 1..][..f], 10), f), |u|))
  {
    var x := Mantissa(RunValue(u[..i], 10), RunValue(u[i + 1..][..f], 10), f);
    var e := ScanExponent(u[i + 1 + f..]);
    assert e == (0, 0) by {
      assert u[i + 1 + f..] == "";
    }
    assert ScaleByPow10(x, e.0) == x;
  }

  /** `digits.digits` with no exponent reads as the whole part plus the
      fraction. */
  lemma ScanPointNumber(u: string, a: string, b: string)
    requires AllDigits(a, 10) && AllDigits(b, 10) && |b| > 0
    requires |u| == |a| + 1 + |b| && u[..|a|] == a && u[|a|] == '.' && u[|a| + 1..] == b
    ensures ScanUnsignedDecimal(u) == Some((Mantissa(RunValue(a, 10), RunValue(b, 10), |b|), |u|))
  {
    var i := |a|;
    assert DigitRun(u, 10) == i by {
      assert u == a + u[i..];
      DigitRunPrefix(a, u[i..], 10);
    }
    assert DigitRun(u[i + 1..], 10) == |b| && u[i + 1..][..|b|] == b by {
      DigitRunAll(b, 10);
    }
    ScanPointBody(u, i, |b|);
  }

  /** `parseFloat` of a string that starts with a digit is the value of the
      longest unsigned decimal literal at its front. */
  lemma ParseFloatUnsigned(s: string, v: real, n: nat)
    requires |s| > 0 && DigitValue(s[0], 10).Some?
    requires ScanUnsignedDecimal(s) == Some((v, n))
    ensures ParseFloat(s) == Some(v)
  {
    DigitNotWhite(s[0]);
    TrimStartKeeps(s);
    assert ScanDecimal(s) == Some((v, n));
  }

  /** `parseFloat` reads the decimal string of an integer back exactly. */
  lemma ParseFloatRoundTrip(n: int)
    ensures ParseFloat(IntToString(n)) == Some(n as real)
  {
    TrimStartKeeps(IntToString(n));
    ScanIntString(n);
  }

  /** A decimal digit is not white space. */
  lemma DigitNotWhite(c: char)
    requires DigitValue(c, 10).Some?
    ensures '0' <= c <= '9' && !Text.IsWhite(c)
  {
  }

  /** The decimal string of an integer starts with a sign or a digit and
      ends with a digit, so `trim` leaves it alone. */
  lemma IntToStringTrimmed(n: int)
    ensures Text.IsTrimmed(IntToString(n))
  {
    var s := IntToString(n);
    var digits := NatToString(if n < 0 then -n else n);
    DigitNotWhite(digits[|digits| - 1]);
    if n < 0 {
      assert s[|s| - 1] == digits[|digits| - 1];
    } else {
      DigitNotWhite(digits[0]);
    }
  }

  /** `Number` reads the decimal string of an integer back exactly. */
  lemma StringToNumberRoundTrip(n: int)
    ensures StringToNumber(IntToString(n)) == Some(n as real)
  {
    var s := IntToString(n);
    IntToStringTrimmed(n);
    Text.TrimTrimmed(s);
    ScanIntString(n);
    assert Text.Trim(s) == s && |s| > 0;
  }
}

/** JavaScript number arithmetic where the dashboard divides without a
    guard: a quotient by zero is an infinity or NaN rather than an error. */
module Stats {
  import Seqs

  /** A JavaScript number: finite (an exact real), an infinity, or NaN. */
  datatype Num = Finite(value: real) | PosInf | NegInf | NaN {

    /** `this > c`: false for NaN, as every comparison with NaN is. */
    predicate Above(c: real) {
      match this
      case Finite(v) => v > c
      case PosInf => true
      case NegInf => false
      case NaN => false
    }
  }

  /** `a / b`. */
  function Div(a: real, b: real): (r: Num)
    ensures b != 0.0 <==> r.Finite?
    ensures r == NaN <==> a == 0.0 && b == 0.0
    ensures r.Finite? ==> r.value * b == a
  {
    if b != 0.0 then Finite(a / b)
    else if a > 0.0 then PosInf
    else if a < 0.0 then NegInf
    else NaN
  }

  /** `x * k` for a positive constant `k`. */
  function Scale(x: Num, k: real): (r: Num)
    requires k > 0.0
    ensures x.Finite? <==> r.Finite?
    ensures x.Finite? ==> r.value == x.value * k
    ensures !x.Finite? ==> r == x
  {
    match x
    case Finite(v) => Finite(v * k)
    case _ => x
  }

  /** `Math.min(x, m)`: NaN stays NaN, +Infinity gives `m`. */
  function Min(x: Num, m: real): (r: Num)
    ensures r.Finite? ==> r.value <= m
    ensures r == NaN <==> x == NaN
    ensures r == NegInf <==> x == NegInf
  {
    match x
    case Finite(v) => Finite(if v < m then v else m)
    case PosInf => Finite(m)
    case NegInf => NegInf
    case NaN => NaN
  }

  /** `(part / total) * 100`. */
  function Percentage(part: int, total: int): (r: Num)
    ensures total != 0 <==> r.Finite?
    ensures r.Finite? ==> r.value * total as real == part as real * 100.0
  {
    Scale(Div(part as real, total as real), 100.0)
  }

  /** `values.reduce((sum, x) => sum + f(x), 0) / values.length`. */
  function Mean<T>(values: seq<T>, f: T -> real): (r: Num)
    ensures |values| > 0 <==> r.Finite?
    ensures |values| == 0 ==> r == NaN
    ensures r.Finite? ==> r.value * |values| as real == Seqs.SumReal(values, f)
  {
    Div(Seqs.SumReal(values, f), |values| as real)
  }

  /** `(part / total) * 100` for a non-zero total, as a real. */
  function ShareOf(part: int, total: int): (r: real)
    requires total != 0
    ensures r * total as real == part as real * 100.0
  {
    Percentage(part, total).value
  }

  /** Percentage shares of a total add up to the percentage share of the
      sum of the parts. */
  lemma {:induction false} SumOfShares<T>(s: seq<T>, f: T -> int, share: T -> real, total: int)
    requires total != 0
    requires forall i :: 0 <= i < |s| ==> share(s[i]) == ShareOf(f(s[i]), total)
    ensures Seqs.SumReal(s, share) * total as real == Seqs.Sum(s, f) as real * 100.0
    decreases |s|
  {
    if |s| > 0 {
      var front := s[..|s| - 1];
      assert forall i :: 0 <= i < |front| ==> front[i] == s[i];
      SumOfShares(front, f, share, total);
      var a := Seqs.SumReal(front, share);
      var b := share(s[|s| - 1]);
      assert b * total as real == f(s[|s| - 1]) as real * 100.0;
      assert (a + b) * total as real == a * total as real + b * total as real;
    }
  }

  /** A non-zero factor cancels from both sides of an equation. */
  lemma Cancel(a: real, b: real, t: real)
    requires t != 0.0 && a * t == b * t
    ensures a == b
  {
    assert (a - b) * t == 0.0;
  }

  /** When the parts make up the total, the shares add up to 100. */
  lemma SharesSumTo100<T>(s: seq<T>, f: T -> int, share: T -> real, total: int)
    requires total == Seqs.Sum(s, f) && total != 0
    requires forall i :: 0 <= i < |s| ==> share(s[i]) == ShareOf(f(s[i]), total)
    ensures Seqs.SumReal(s, share) == 100.0
  {
    SumOfShares(s, f, share, total);
    var r := Seqs.SumReal(s, share);
    var t := total as real;
    assert Seqs.Sum(s, f) as real == t;
    Cancel(r, 100.0, t);

  }
}
