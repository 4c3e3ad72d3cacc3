/**
  std::to_string(double), that is "%f" (section 7.21.6.1 of ISO C11): finite values, taken as exact
  reals, with six decimals, ties to even, and the others by name.  Next to it, an independent reader
  for JSON numbers (section 6 of RFC 8259, without exponents).
 */
module Numerals {
  import opened Wrappers

  // ---------- Decimal digits ----------

  predicate IsDigit(c: char) {
    '0' <= c <= '9'
  }

  predicate AllDigits(s: string) {
    forall i :: 0 <= i < |s| ==> IsDigit(s[i])
  }

  function DigitChar(d: nat): (c: char)
    requires d < 10
    ensures IsDigit(c) && c as int - '0' as int == d
  {
    "0123456789"[d]
  }

  function Value(s: string): nat
    requires AllDigits(s)
  {
    if s == "" then 0 else 10 * Value(s[..|s|-1]) + (s[|s|-1] as int - '0' as int)
  }

  function Pow10(k: nat): (r: nat)
    ensures r >= 1
  {
    if k == 0 then 1 else 10 * Pow10(k - 1)
  }

  /** The numeral of `n` without leading zeros. */
  function Digits(n: nat): (s: string)
    ensures AllDigits(s) && s != "" && (|s| > 1 ==> s[0] != '0')
    ensures n > 0 ==> s[0] != '0'
    ensures Value(s) == n
  {
    if n < 10 then [DigitChar(n)] else Digits(n / 10) + [DigitChar(n % 10)]
  }

  /** The last `width` digits of `n`. */
  function Padded(n: nat, width: nat): (s: string)
    ensures AllDigits(s) && |s| == width
    ensures n < Pow10(width) ==> Value(s) == n
  {
    if width == 0 then "" else Padded(n / 10, width - 1) + [DigitChar(n % 10)]
  }

  // ---------- Six-decimal rendering ----------

  function Abs(x: real): (a: real)
    ensures a >= 0.0 && (a == x || a == -x)
  {
    if x < 0.0 then -x else x
  }

  function RoundHalfEven(a: real): (n: nat)
    requires a >= 0.0
    ensures -0.5 <= n as real - a <= 0.5
    ensures n as real - a == 0.5 || n as real - a == -0.5 ==> n % 2 == 0
  {
    var f := a.Floor;
    var part := a - f as real;
    if part < 0.5 || (part == 0.5 && f % 2 == 0) then f else f + 1
  }

  /** The number of millionths that is printed. */
  function Millionths(x: real): nat {
    RoundHalfEven(Abs(x) * 1000000.0)
  }

  /** The text of `n` millionths, and the number this text denotes. */
  function MicroText(minus: bool, n: nat): string {
    (if minus then "-" else "") + Digits(n / 1000000) + "." + Padded(n % 1000000, 6)
  }

  function MicroValue(minus: bool, n: nat): real {
    if minus then -(n as real / 1000000.0) else n as real / 1000000.0
  }

  function Render(x: real): string {
    MicroText(x < 0.0, Millionths(x))
  }

  /** The number that the printed text denotes. */
  function Stored(x: real): real {
    MicroValue(x < 0.0, Millionths(x))
  }

  lemma {:induction false} RoundMonotone(a: real, b: real)
    requires 0.0 <= a <= b
    ensures RoundHalfEven(a) <= RoundHalfEven(b)
  {
    if a.Floor < b.Floor {
      assert RoundHalfEven(a) <= a.Floor + 1 <= b.Floor;
    }
  }

  lemma {:induction false} TextParts(sign: string, whole: string, frac: string)
    requires whole != "" && |frac| == 6
    ensures var s := sign + whole + "." + frac;
            && |s| == |sign| + |whole| + 7
            && s[..|sign|] == sign && s[|sign|..|s|-7] == whole && s[|sign|] == whole[0]
            && s[|s|-7] == '.' && s[|s|-6..] == frac
  {
  }

  /** The text: a minus exactly for negative numbers, an integer without superfluous zeros, a dot and
      exactly six digits. */
  lemma {:induction false} RenderShape(x: real)
    ensures var s := Render(x);
            var sign := if x < 0.0 then 1 else 0;
            && |s| > sign + 7
            && (s[0] == '-' <==> x < 0.0)
            && AllDigits(s[sign..|s|-7]) && (s[sign] == '0' ==> |s| == sign + 8)
            && s[|s|-7] == '.' && AllDigits(s[|s|-6..])
  {
    var n := Millionths(x);
    TextParts(if x < 0.0 then "-" else "", Digits(n / 1000000), Padded(n % 1000000, 6));
  }

  /** Storing a number moves it by at most half a millionth. */
  lemma {:induction false} StoredError(x: real)
    ensures -0.0000005 <= Stored(x) - x <= 0.0000005
  {
    var n := Millionths(x);
    assert -0.5 <= n as real - Abs(x) * 1000000.0 <= 0.5;
    assert -0.0000005 <= n as real / 1000000.0 - Abs(x) <= 0.0000005;
  }

  /** Storing keeps the order of numbers. */
  lemma {:induction false} StoredMonotone(x: real, y: real)
    requires x <= y
    ensures Stored(x) <= Stored(y)
  {
    if x >= 0.0 {
      RoundMonotone(x * 1000000.0, y * 1000000.0);
    } else if y < 0.0 {
      RoundMonotone(-y * 1000000.0, -x * 1000000.0);
    }
  }

  predicate WholeMillionths(x: real) {
    (Abs(x) * 1000000.0).Floor as real == Abs(x) * 1000000.0
  }

  lemma {:induction false} RoundExact(a: real)
    requires a >= 0.0
    ensures RoundHalfEven(a) as real == a <==> a.Floor as real == a
  {
  }

  /** Storing keeps exactly the numbers that are whole multiples of one millionth. */
  lemma {:induction false} StoredExact(x: real)
    ensures Stored(x) == x <==> WholeMillionths(x)
  {
    RoundExact(Abs(x) * 1000000.0);
    assert Stored(x) == x <==> Millionths(x) as real / 1000000.0 == Abs(x);
  }

  // ---------- Reading numbers ----------

  /** Length of the longest run of digits at the start of `s`. */
  function DigitSpan(s: string): (n: nat)
    ensures n <= |s| && AllDigits(s[..n]) && (n < |s| ==> !IsDigit(s[n]))
  {
    if s == "" || !IsDigit(s[0]) then 0
    else
      var n := DigitSpan(s[1..]);
      assert s[..n+1] == [s[0]] + s[1..][..n];
      n + 1
  }

  /** An optional minus, an integer without superfluous zeros, an optional fraction. */
  function ReadNumber(s: string): (r: Option<(real, string)>)
    ensures r.Some? ==> |r.value.1| < |s|
  {
    if s != "" && s[0] == '-' then
      match ReadUnsigned(s[1..])
      case None => None
      case Some((v, rest)) => Some((-v, rest))
    else
      ReadUnsigned(s)
  }

  function ReadUnsigned(s: string): (r: Option<(real, string)>)
    ensures r.Some? ==> |r.value.1| < |s|
  {
    var i := DigitSpan(s);
    if i == 0 || (i > 1 && s[0] == '0') then None else ReadFraction(Value(s[..i]), s[i..])
  }

  /** The number with integer part `whole` and fraction digits `frac`. */
  function Decimal(whole: nat, frac: string): real
    requires AllDigits(frac)
  {
    (whole * Pow10(|frac|) + Value(frac)) as real / Pow10(|frac|) as real
  }

  /** What follows the integer part `whole`. */
  function ReadFraction(whole: nat, s: string): (r: Option<(real, string)>)
    ensures r.Some? ==> |r.value.1| <= |s|
  {
    if s == "" || s[0] != '.' then Some((whole as real, s))
    else
      var j := DigitSpan(s[1..]);
      if j == 0 then None
      else Some((Decimal(whole, s[1..][..j]), s[1..][j..]))
  }

  lemma {:induction false} DigitSpanOf(d: string, rest: string)
    requires AllDigits(d) && (rest == "" || !IsDigit(rest[0]))
    ensures DigitSpan(d + rest) == |d|
  {
    if d == "" {
      assert d + rest == rest;
    } else {
      assert (d + rest)[1..] == d[1..] + rest;
      DigitSpanOf(d[1..], rest);
    }
  }

  lemma {:induction false} ReadFractionOf(whole: nat, frac: string, rest: string)
    requires AllDigits(frac) && frac != "" && (rest == "" || !IsDigit(rest[0]))
    ensures ReadFraction(whole, "." + (frac + rest)) == Some((Decimal(whole, frac), rest))
  {
    var s := "." + (frac + rest);
    DigitSpanOf(frac, rest);
    assert s[1..] == frac + rest;
    assert s[1..][..|frac|] == frac && s[1..][|frac|..] == rest;
  }

  lemma {:induction false} ReadUnsignedOf(whole: string, tail: string)
    requires AllDigits(whole) && whole != "" && (|whole| > 1 ==> whole[0] != '0')
    requires tail != "" && !IsDigit(tail[0])
    ensures ReadUnsigned(whole + tail) == ReadFraction(Value(whole), tail)
  {
    DigitSpanOf(whole, tail);
    assert (whole + tail)[..|whole|] == whole && (whole + tail)[|whole|..] == tail;
  }

  lemma {:induction false} SixDecimals()
    ensures Pow10(6) == 1000000
  {
    assert Pow10(3) == 1000;
  }

  lemma {:induction false} MillionthsDecimal(n: nat)
    ensures Decimal(n / 1000000, Padded(n % 1000000, 6)) == n as real / 1000000.0
  {
    var whole, frac := n / 1000000, Padded(n % 1000000, 6);
    SixDecimals();
    assert Value(frac) == n % 1000000;
    assert whole * Pow10(|frac|) + Value(frac) == n;
  }

  /** The printed text of `n` millionths without its sign, followed by `rest`. */
  function Body(n: nat, rest: string): (s: string)
    ensures s != "" && IsDigit(s[0])
  {
    Digits(n / 1000000) + ("." + (Padded(n % 1000000, 6) + rest))
  }

  lemma {:induction false} ReadMillionths(n: nat, rest: string)
    requires rest == "" || !IsDigit(rest[0])
    ensures ReadUnsigned(Body(n, rest)) == Some((n as real / 1000000.0, rest))
  {
    var frac := Padded(n % 1000000, 6);
    ReadUnsignedOf(Digits(n / 1000000), "." + (frac + rest));
    ReadFractionOf(n / 1000000, frac, rest);
    MillionthsDecimal(n);
  }

  lemma {:induction false} MicroTextThen(minus: bool, n: nat, rest: string)
    ensures MicroText(minus, n) + rest == (if minus then "-" else "") + Body(n, rest)
  {
  }

  lemma {:induction false} ReadSigned(minus: bool, s: string)
    requires s != "" && IsDigit(s[0]) && ReadUnsigned(s).Some?
    ensures var (v, rest) := ReadUnsigned(s).value;
            ReadNumber((if minus then "-" else "") + s) == Some((if minus then -v else v, rest))
  {
    if minus {
      assert ("-" + s)[0] == '-' && ("-" + s)[1..] == s;
    } else {
      assert "" + s == s;
    }
  }

  lemma {:induction false} ReadMicroText(minus: bool, n: nat, rest: string)
    requires rest == "" || !IsDigit(rest[0])
    ensures ReadNumber(MicroText(minus, n) + rest) == Some((MicroValue(minus, n), rest))
  {
    MicroTextThen(minus, n, rest);
    ReadMillionths(n, rest);
    ReadSigned(minus, Body(n, rest));
  }

  /** Reading a printed number gives the stored number back, and nothing more is consumed. */
  lemma {:induction false} ReadRendered(x: real, rest: string)
    requires rest == "" || !IsDigit(rest[0])
    ensures ReadNumber(Render(x) + rest) == Some((Stored(x), rest))
  {
    ReadMicroText(x < 0.0, Millionths(x), rest);
  }

  // ---------- Doubles ----------

  /** A double; the finite ones are exact reals. */
  datatype Double = Finite(x: real) | Infinite(minus: bool) | NaN(minus: bool)

  /** std::to_string. */
  function ToString(v: Double): (s: string)
    ensures !v.Finite? ==> s == (if v.minus then "-" else "") + (if v.Infinite? then "inf" else "nan")
  {
    match v
    case Finite(x) => Render(x)
    case Infinite(minus) => if minus then "-inf" else "inf"
    case NaN(minus) => if minus then "-nan" else "nan"
  }

  /** What the text keeps of a double. */
  function Kept(v: Double): Double {
    match v
    case Finite(x) => Finite(Stored(x))
    case _ => v
  }

  /** The names of the other values are not numbers. */
  lemma {:induction false} NotANumber(v: Double, rest: string)
    requires !v.Finite?
    ensures ReadNumber(ToString(v) + rest).None?
  {
    var s := ToString(v) + rest;
    if v.minus {
      assert s[0] == '-' && (s[1] == 'i' || s[1] == 'n');
      assert DigitSpan(s[1..]) == 0;
    } else {
      assert s[0] == 'i' || s[0] == 'n';
    }
  }

  /** A number text starts a JSON number exactly when the value is finite, and then denotes what is kept. */
  lemma {:induction false} ReadDouble(v: Double, rest: string)
    requires rest == "" || !IsDigit(rest[0])
    ensures ReadNumber(ToString(v) + rest) == if v.Finite? then Some((Stored(v.x), rest)) else None
  {
    if v.Finite? {
      ReadRendered(v.x, rest);
    } else {
      NotANumber(v, rest);
    }
  }
}
