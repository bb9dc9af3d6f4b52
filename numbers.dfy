// Numeric text on both ends of the pipeline: Arduino `String(float, places)`
// (which calls `dtostrf`) on the devices, Python `float()` and `int()` on the
// server. Values are exact reals; IEEE single/double rounding is not modelled.
// Scaling by powers of ten is written as repeated multiplication or division by
// 10, which keeps every proof in linear arithmetic.
module Numbers {
  import opened Base
  import opened Text

  function Pow10(p: nat): (r: nat)
    ensures r >= 1
  {
    if p == 0 then 1 else 10 * Pow10(p - 1)
  }

  /** v * 10^k. */
  function ScaleUp(v: real, k: nat): real
  {
    if k == 0 then v else 10.0 * ScaleUp(v, k - 1)
  }

  /** v / 10^k. */
  function ScaleDown(v: real, k: nat): real
  {
    if k == 0 then v else ScaleDown(v, k - 1) / 10.0
  }

  /** Scaling up by k + 1 places is scaling the tenfold value up by k. */
  lemma {:induction false} ScaleUpShift(v: real, k: nat)
    requires k >= 1
    ensures ScaleUp(v, k) == ScaleUp(10.0 * v, k - 1)
  {
    if k > 1 {
      ScaleUpShift(v, k - 1);
    }
  }

  lemma {:induction false} ScaleUpDown(v: real, k: nat)
    ensures ScaleUp(ScaleDown(v, k), k) == v
  {
    if k > 0 {
      ScaleUpDown(v, k - 1);
      ScaleUpShift(ScaleDown(v, k), k);
      ScaleUpDownShift(v, k);
    }
  }

  lemma {:induction false} ScaleUpDownShift(v: real, k: nat)
    requires k >= 1
    ensures 10.0 * ScaleDown(v, k) == ScaleDown(v, k - 1)
  {
  }

  lemma {:induction false} ScaleUpLinear(a: real, b: real, k: nat)
    ensures ScaleUp(a + b, k) == ScaleUp(a, k) + ScaleUp(b, k)
    ensures ScaleUp(a - b, k) == ScaleUp(a, k) - ScaleUp(b, k)
  {
    if k > 0 {
      ScaleUpLinear(a, b, k - 1);
    }
  }

  lemma {:induction false} ScaleUpNonNegative(v: real, k: nat)
    requires v >= 0.0
    ensures ScaleUp(v, k) >= 0.0
  {
    if k > 0 {
      ScaleUpNonNegative(v, k - 1);
    }
  }

  /** Exactly `width` decimal digits of `n`, zero-padded on the left. */
  function FixedDigits(n: nat, width: nat): (s: string)
    requires n < Pow10(width)
    ensures |s| == width && AllDigits(s)
  {
    if width == 0 then [] else FixedDigits(n / 10, width - 1) + [DigitChar(n % 10)]
  }

  lemma {:induction false} ParseNatFixedDigits(n: nat, width: nat)
    requires n < Pow10(width)
    ensures ParseNat(FixedDigits(n, width)) == n
  {
    if width > 0 {
      var s := FixedDigits(n, width);
      assert s[..|s| - 1] == FixedDigits(n / 10, width - 1);
      ParseNatFixedDigits(n / 10, width - 1);
    }
  }

  function Abs(x: real): (m: real)
    ensures m >= 0.0 && (m == x || m == -x)
  {
    if x < 0.0 then -x else x
  }

  function Signed(negative: bool, v: real): real
  {
    if negative then -v else v
  }

  /** |x| * 10^places rounded half up: the digit string `dtostrf` prints, read as one integer. */
  function Scaled(x: real, places: nat): nat
  {
    var y := ScaleUp(Abs(x), places) + 0.5;
    assert y >= 0.0 by { ScaleUpNonNegative(Abs(x), places); }
    y.Floor
  }

  /** `n` split at the 10^places position into (n / 10^places, n % 10^places), one decimal digit at a time. */
  function Shift(n: nat, places: nat): (qr: (nat, nat))
    ensures qr.1 < Pow10(places)
  {
    if places == 0 then (n, 0)
    else
      var (q, r) := Shift(n / 10, places - 1);
      (q, r * 10 + n % 10)
  }

  /** The two parts of `Shift` recombine to the number. */
  lemma {:induction false} ShiftValue(n: nat, places: nat)
    ensures n as real == ScaleUp(Shift(n, places).0 as real, places) + Shift(n, places).1 as real
  {
    if places > 0 {
      ShiftValue(n / 10, places - 1);
      var q := Shift(n, places).0 as real;
      assert ScaleUp(q, places) == 10.0 * ScaleUp(q, places - 1);
    }
  }

  /**
   * The number `Fmt(x, places)` denotes: x rounded half away from zero to `places` decimals,
   * as its integer part plus its fraction digits.
   */
  function Rounded(x: real, places: nat): real
  {
    var (q, r) := Shift(Scaled(x, places), places);
    Signed(x < 0.0, q as real + ScaleDown(r as real, places))
  }

  /** Characters `dtostrf` can emit for a finite value: digits, one point, a leading minus. */
  predicate NumeralChars(s: string)
  {
    forall i :: 0 <= i < |s| ==> IsDigit(s[i]) || s[i] == '.' || (i == 0 && s[i] == '-')
  }

  /** `q + r / 10^places` written with `places` decimals: integer digits, a point, fraction digits. */
  function Numeral(q: nat, r: nat, places: nat): string
    requires places >= 1 && r < Pow10(places)
  {
    Digits(q) + "." + FixedDigits(r, places)
  }

  /** A numeral starts and ends with a digit and holds only digits and its point. */
  lemma {:induction false} NumeralShape(q: nat, r: nat, places: nat)
    requires places >= 1 && r < Pow10(places)
    ensures var s := Numeral(q, r, places);
      3 <= |s| && IsDigit(s[0]) && IsDigit(s[|s| - 1]) && '.' in s
      && forall i :: 0 <= i < |s| ==> IsDigit(s[i]) || s[i] == '.'
  {
    var d, f := Digits(q), FixedDigits(r, places);
    var s := d + "." + f;
    assert s[|s| - 1] == f[places - 1];
    assert s[|d|] == '.';
  }

  /**
   * Arduino `String(x, places)`, i.e. `dtostrf(x, places + 2, places, buf)`, in exact
   * arithmetic: a minus sign when x is negative, then |x| + 0.5 * 10^-places truncated to
   * `places` decimals. With `places + 2` as the width no padding is ever emitted.
   * `String(x)` for a float is `String(x, 2)`.
   */
  function Fmt(x: real, places: nat): string
    requires places >= 1
  {
    var (q, r) := Shift(Scaled(x, places), places);
    SignText(x < 0.0) + Numeral(q, r, places)
  }

  /** `Fmt` text: at least "d.d", digits and one point after an optional minus, a digit last; the minus exactly for negatives. */
  lemma {:induction false} FmtShape(x: real, places: nat)
    requires places >= 1
    ensures var s := Fmt(x, places);
      3 <= |s| && NumeralChars(s) && '.' in s
      && IsDigit(s[|s| - 1]) && (IsDigit(s[0]) || s[0] == '-')
      && (s[0] == '-' <==> x < 0.0)
  {
    var (q, r) := Shift(Scaled(x, places), places);
    var u := Numeral(q, r, places);
    NumeralShape(q, r, places);
    var s := SignText(x < 0.0) + u;
    assert s[|s| - 1] == u[|u| - 1];
    assert x < 0.0 ==> s[1..] == u;
  }

  /** `Fmt` text holds nothing but digits, the point and a minus sign. */
  lemma {:induction false} FmtAvoids(x: real, places: nat, c: char)
    requires places >= 1 && !IsDigit(c) && c != '.' && c != '-'
    ensures c !in Fmt(x, places)
  {
    FmtShape(x, places);
  }

  /** Text made of digits, points and a leading minus holds no other character. */
  lemma {:induction false} NumeralAvoids(s: string, c: char)
    requires NumeralChars(s) && !IsDigit(c) && c != '.' && c != '-'
    ensures c !in s
  {
  }

  /** `IntText` is a numeral too: digits after an optional minus. */
  lemma {:induction false} IntTextNumeral(i: int)
    ensures NumeralChars(IntText(i))
  {
    if i < 0 {
      var s := IntText(i);
      forall k | 0 <= k < |s|
        ensures IsDigit(s[k]) || s[k] == '.' || (k == 0 && s[k] == '-')
      {
        if k > 0 {
          assert s[k] == Digits(-i)[k - 1];
        }
      }
    }
  }

  function SignText(negative: bool): string
  {
    if negative then "-" else ""
  }

  /** An optional leading sign split off: whether it was '-', and the rest. */
  function SignSplit(t: string): (r: (bool, string))
    ensures r.1 == t || (|t| > 0 && r.1 == t[1..])
  {
    if |t| > 0 && (t[0] == '-' || t[0] == '+') then (t[0] == '-', t[1..]) else (false, t)
  }

  /** Integer digits and fraction digits around a point, at least one digit in all. */
  function ParsePointParts(whole: string, frac: string): (r: Option<real>)
  {
    if AllDigits(whole) && AllDigits(frac) && |whole| + |frac| >= 1
    then Some(ParseNat(whole) as real + ScaleDown(ParseNat(frac) as real, |frac|))
    else None
  }

  /** Digits with at most one '.', at least one digit in all: the unsigned decimal value. */
  function ParseUnsignedDecimal(body: string): (r: Option<real>)
  {
    var point := Find(body, '.');
    if point.None? then
      if body != [] && AllDigits(body) then Some(ParseNat(body) as real) else None
    else
      ParsePointParts(body[..point.value], body[point.value + 1..])
  }

  /**
   * Python `float(s)` restricted to plain decimal text: surrounding whitespace, an optional
   * sign, ASCII digits and at most one '.', with at least one digit. None stands for the
   * ValueError Python raises; exponents, `inf`, `nan` and `_` are not modelled.
   */
  function ParseDecimal(s: string): (r: Option<real>)
  {
    var (negative, body) := SignSplit(Strip(s));
    match ParseUnsignedDecimal(body)
    case None => None
    case Some(v) => Some(Signed(negative, v))
  }

  /**
   * Python `int(s)` restricted to plain decimal text: surrounding whitespace, an optional
   * sign and at least one ASCII digit. None stands for the ValueError Python raises.
   */
  function ParseInteger(s: string): (r: Option<int>)
  {
    var (negative, body) := SignSplit(Strip(s));
    if body != [] && AllDigits(body) then Some(if negative then -(ParseNat(body) as int) else ParseNat(body)) else None
  }

  // ---------------------------------------------------------------- properties

  /** In a numeral with a point, the point follows the integer digits. */
  lemma {:induction false} FindPoint(d: string, f: string)
    requires AllDigits(d)
    ensures Find(d + "." + f, '.') == Some(|d|)
  {
    var body := d + "." + f;
    assert body[|d|] == '.';
    assert forall i :: 0 <= i < |d| ==> body[i] == d[i];
  }

  lemma {:induction false} ParsePointed(d: string, f: string)
    requires AllDigits(d) && AllDigits(f) && |d| >= 1
    ensures ParseUnsignedDecimal(d + "." + f) == ParsePointParts(d, f)
  {
    var body := d + "." + f;
    FindPoint(d, f);
    assert body[..|d|] == d;
    assert body[|d| + 1..] == f;
  }

  lemma {:induction false} ParsePointedValue(d: string, f: string, q: nat, r: nat, places: nat)
    requires AllDigits(d) && AllDigits(f) && |d| >= 1 && ParseNat(d) == q && ParseNat(f) == r && |f| == places
    ensures ParseUnsignedDecimal(d + "." + f) == Some(q as real + ScaleDown(r as real, places))
  {
    ParsePointed(d, f);
  }

  lemma {:induction false} ParseDigitsPoint(q: nat, r: nat, places: nat)
    requires places >= 1 && r < Pow10(places)
    ensures ParseUnsignedDecimal(Digits(q) + "." + FixedDigits(r, places)) == Some(q as real + ScaleDown(r as real, places))
  {
    ParseNatDigits(q);
    ParseNatFixedDigits(r, places);
    ParsePointedValue(Digits(q), FixedDigits(r, places), q, r, places);
  }

  /** The numeral `Numeral(q, r, places)` reads back as q + r / 10^places. */
  lemma {:induction false} ParseNumeral(q: nat, r: nat, places: nat)
    requires places >= 1 && r < Pow10(places)
    ensures ParseUnsignedDecimal(Numeral(q, r, places)) == Some(q as real + ScaleDown(r as real, places))
  {
    ParseDigitsPoint(q, r, places);
  }

  /** The integer part and fraction digits behind `Fmt` and `Rounded`. */
  lemma {:induction false} FmtDigits(x: real, places: nat) returns (q: nat, r: nat)
    requires places >= 1
    ensures r < Pow10(places)
    ensures Fmt(x, places) == SignText(x < 0.0) + Numeral(q, r, places)
    ensures Rounded(x, places) == Signed(x < 0.0, q as real + ScaleDown(r as real, places))
  {
    var qr := Shift(Scaled(x, places), places);
    q, r := qr.0, qr.1;
  }

  lemma {:induction false} SignSplitSigned(negative: bool, u: string)
    requires |u| >= 1 && IsDigit(u[0])
    ensures SignSplit(SignText(negative) + u) == (negative, u)
  {
    var s := SignText(negative) + u;
    if negative {
      assert s[1..] == u;
    } else {
      assert s == u;
    }
  }

  lemma {:induction false} StripSignSplit(s: string)
    requires |s| >= 1 && !IsSpace(s[0]) && !IsSpace(s[|s| - 1])
    ensures SignSplit(Strip(s)) == SignSplit(s)
  {
    StripUnchanged(s);
  }

  /** A sign and a numeral starting and ending in a digit survive `strip()` and split apart again. */
  lemma {:induction false} SignedParts(negative: bool, u: string)
    requires |u| >= 1 && IsDigit(u[0]) && IsDigit(u[|u| - 1])
    ensures SignSplit(Strip(SignText(negative) + u)) == (negative, u)
  {
    var s := SignText(negative) + u;
    assert s[|s| - 1] == u[|u| - 1];
    assert s[0] == '-' || s[0] == u[0];
    StripSignSplit(s);
    SignSplitSigned(negative, u);
  }

  /** `float()` of text whose stripped form is a sign and an unsigned numeral of known value. */
  lemma {:induction false} ParseSigned(s: string, negative: bool, body: string, v: real)
    requires SignSplit(Strip(s)) == (negative, body) && ParseUnsignedDecimal(body) == Some(v)
    ensures ParseDecimal(s) == Some(Signed(negative, v))
  {
  }

  /** Text that starts and ends with a digit and that `float()` reads, unsigned, as `v`. */
  predicate UnsignedNumeral(body: string, v: real)
  {
    |body| >= 1 && IsDigit(body[0]) && IsDigit(body[|body| - 1]) && ParseUnsignedDecimal(body) == Some(v)
  }

  /** A digit-delimited unsigned decimal `v` behind an optional minus reads back as `w`, its signed value. */
  lemma {:induction false} ParseSignedBody(s: string, negative: bool, body: string, v: real, w: real)
    requires s == SignText(negative) + body && UnsignedNumeral(body, v) && w == Signed(negative, v)
    ensures ParseDecimal(s) == Some(w)
  {
    SignedParts(negative, body);
    ParseSigned(s, negative, body, v);
  }

  /** What reading a sign in front needs of the numeral: digits at both ends, and its unsigned value. */
  lemma {:induction false} NumeralBody(q: nat, r: nat, places: nat)
    requires places >= 1 && r < Pow10(places)
    ensures UnsignedNumeral(Numeral(q, r, places), q as real + ScaleDown(r as real, places))
  {
    NumeralShape(q, r, places);
    ParseNumeral(q, r, places);
  }

  /** What the devices print is what the server reads: `float(String(x, p))` is x rounded to p places. */
  lemma {:induction false} ParseFmt(x: real, places: nat)
    requires places >= 1
    ensures ParseDecimal(Fmt(x, places)) == Some(Rounded(x, places))
  {
    var q, r := FmtDigits(x, places);
    ParseSignedNumeral(Fmt(x, places), x < 0.0, q, r, places, Rounded(x, places));
  }

  /** Text that is a sign and a numeral reads back as the numeral's signed value `w`. */
  lemma {:induction false} ParseSignedNumeral(s: string, negative: bool, q: nat, r: nat, places: nat, w: real)
    requires places >= 1 && r < Pow10(places)
    requires s == SignText(negative) + Numeral(q, r, places)
    requires w == Signed(negative, q as real + ScaleDown(r as real, places))
    ensures ParseDecimal(s) == Some(w)
  {
    NumeralBody(q, r, places);
    ParseSignedBody(s, negative, Numeral(q, r, places), q as real + ScaleDown(r as real, places), w);
  }

  /** `Rounded` read back at 10^places scale is the integer `Scaled` produced. */
  lemma {:induction false} RoundedScaled(x: real, places: nat)
    ensures ScaleUp(Abs(Rounded(x, places)), places) == Scaled(x, places) as real
  {
    var n := Scaled(x, places);
    var qr := Shift(n, places);
    var v := qr.0 as real + ScaleDown(qr.1 as real, places);
    assert v >= 0.0 by { ScaleDownNonNegative(qr.1 as real, places); }
    assert Abs(Rounded(x, places)) == v;
    ShiftValue(n, places);
    ScaleUpLinear(qr.0 as real, ScaleDown(qr.1 as real, places), places);
    ScaleUpDown(qr.1 as real, places);
  }

  lemma {:induction false} ScaleDownNonNegative(v: real, k: nat)
    requires v >= 0.0
    ensures ScaleDown(v, k) >= 0.0
  {
    if k > 0 {
      ScaleDownNonNegative(v, k - 1);
    }
  }

  /**
   * Rounding to p places moves a value by at most half a unit in the last place, and
   * never changes its sign.
   */
  lemma {:induction false} RoundedError(x: real, places: nat)
    ensures -0.5 <= ScaleUp(Abs(Rounded(x, places)) - Abs(x), places) <= 0.5
    ensures Rounded(x, places) == 0.0 || (Rounded(x, places) < 0.0 <==> x < 0.0)
  {
    var qr := Shift(Scaled(x, places), places);
    ScaleDownNonNegative(qr.1 as real, places);
    RoundedScaled(x, places);
    ScaleUpLinear(Abs(Rounded(x, places)), Abs(x), places);
  }

  /** The sign and digits of `IntText(i)`, as `float()` and `int()` see them after stripping. */
  lemma {:induction false} IntTextParts(i: int)
    ensures SignSplit(Strip(IntText(i))) == (i < 0, Digits(if i < 0 then -i else i))
  {
    var s := IntText(i);
    StripUnchanged(s);
    if i < 0 {
      assert s[1..] == Digits(-i);
    }
  }

  /** Decimal integer text round-trips through Python `int()`. */
  lemma {:induction false} ParseIntText(i: int)
    ensures ParseInteger(IntText(i)) == Some(i)
  {
    IntTextParts(i);
    ParseNatDigits(if i < 0 then -i else i);
  }

  /** A plain run of digits reads as the integer it spells. */
  lemma {:induction false} ParseWhole(d: string)
    requires AllDigits(d) && |d| >= 1
    ensures ParseUnsignedDecimal(d) == Some(ParseNat(d) as real)
  {
    assert forall i :: 0 <= i < |d| ==> d[i] != '.';
    assert Find(d, '.').None?;
  }

  /** Decimal integer text round-trips through Python `float()` as well. */
  lemma {:induction false} ParseDecimalIntText(i: int)
    ensures ParseDecimal(IntText(i)) == Some(i as real)
  {
    var k := if i < 0 then -i else i;
    IntTextParts(i);
    ParseWhole(Digits(k));
    ParseNatDigits(k);
  }

  /** Text whose first character cannot start a number is rejected by `float()`. */
  lemma {:induction false} ParseDecimalRejects(s: string)
    requires |s| > 0 && !IsSpace(s[0]) && !IsDigit(s[0]) && s[0] !in "+-."
    ensures ParseDecimal(s) == None
  {
    var t := Strip(s);
    assert StripLeft(s) == s;
    StripRightSpec(s);
    if |t| > 0 {
      assert t[0] == s[0];
      assert SignSplit(t) == (false, t);
      match Find(t, '.')
      case None =>
      case Some(k) =>
        assert t[..k][0] == s[0];
    }
  }
}
