/** Exact-arithmetic stand-ins for the Python numeric built-ins the core applies to
    prices, sizes and configuration values: `round(x, d)`, `int(x)` on a float and
    `float(s)` on a string. Binary floating point is not modelled: every value is an
    exact `real`, and `round` is stated as round-half-to-even on that exact value. */
module Numbers {
  import opened Wrappers
  import Text

  function Pow10(d: nat): (p: nat)
    ensures p >= 1
  {
    if d == 0 then 1 else 10 * Pow10(d - 1)
  }

  /** The integer nearest to `y`, ties going to the even neighbour. */
  function RoundToInteger(y: real): (n: int)
    ensures -0.5 <= n as real - y <= 0.5
    ensures n as real - y == 0.5 ==> n % 2 == 0
    ensures y - n as real == 0.5 ==> n % 2 == 0
  {
    var f := y.Floor;
    var frac := y - f as real;
    if frac < 0.5 then f
    else if frac > 0.5 then f + 1
    else if f % 2 == 0 then f
    else f + 1
  }

  /** An integer is its own nearest integer. */
  lemma RoundToIntegerOfInteger(n: int)
    ensures RoundToInteger(n as real) == n
  {
  }

  /** The number of 10^-d steps `round(x, d)` lands on. */
  function RoundSteps(x: real, d: nat): int {
    RoundToInteger(x * Pow10(d) as real)
  }

  /** Python's `round(x, d)`: the multiple of 10^-d nearest to `x`, ties to even. */
  function Round(x: real, d: nat): real {
    RoundSteps(x, d) as real / Pow10(d) as real
  }

  lemma RoundScaled(x: real, d: nat)
    ensures Round(x, d) * Pow10(d) as real == RoundSteps(x, d) as real
  {
    DivThenMul(RoundSteps(x, d) as real, Pow10(d) as real);
  }

  lemma DivThenMul(a: real, p: real)
    requires p != 0.0
    ensures (a / p) * p == a
  {
  }

  /** Measured in steps of 10^-d, `round(x, d)` is a whole number of steps within
      half a step of `x`. */
  lemma RoundIsNearestStep(x: real, d: nat)
    ensures Round(x, d) * Pow10(d) as real == RoundSteps(x, d) as real
    ensures -0.5 <= RoundSteps(x, d) as real - x * Pow10(d) as real <= 0.5
  {
    RoundScaled(x, d);
    var y := x * Pow10(d) as real;
    var n := RoundToInteger(y);
    assert RoundSteps(x, d) == n;
    assert -0.5 <= n as real - y <= 0.5;
  }

  /** A value equal to a whole number `n` within half of `y` is its own floor and lies
      within half of `y`. */
  lemma WholeStepNearby(scaled: real, n: int, y: real)
    requires scaled == n as real && -0.5 <= n as real - y <= 0.5
    ensures scaled.Floor as real == scaled && -0.5 <= scaled - y <= 0.5
  {
    assert (n as real).Floor == n;
  }

  /** Rounding an already rounded value changes nothing. */
  lemma RoundIdempotent(x: real, d: nat)
    ensures Round(Round(x, d), d) == Round(x, d)
  {
    RoundScaled(x, d);
    RoundToIntegerOfInteger(RoundSteps(x, d));
    assert RoundSteps(Round(x, d), d) == RoundSteps(x, d);
  }

  /** Python's `int(x)` on a float: truncation toward zero. */
  function Trunc(x: real): (n: int)
    ensures x >= 0.0 ==> 0.0 <= x - n as real < 1.0
    ensures x < 0.0 ==> 0.0 <= n as real - x < 1.0
  {
    if x >= 0.0 then x.Floor else -((-x).Floor)
  }

  predicate IsSpace(c: char) {
    c == ' ' || c == '\t' || c == '\n' || c == '\r' || c == 11 as char || c == 12 as char
  }

  /** `s.strip()` for ASCII whitespace. */
  function Strip(s: string): (r: string)
    ensures |r| <= |s|
    decreases |s|
  {
    if s != [] && IsSpace(s[0]) then Strip(s[1..])
    else if s != [] && IsSpace(s[|s| - 1]) then Strip(s[..|s| - 1])
    else s
  }

  predicate AllDigits(s: string) {
    forall i :: 0 <= i < |s| ==> '0' <= s[i] <= '9'
  }

  /** The value of a string of decimal digits, read left to right. */
  function DigitsValue(ds: string): nat
    requires AllDigits(ds)
  {
    if ds == [] then 0
    else DigitsValue(ds[..|ds| - 1]) * 10 + (ds[|ds| - 1] as int - '0' as int)
  }

  /** The value written `whole.frac`: the whole digits plus the fraction digits scaled
      down by their count. */
  function Decimal(whole: string, frac: string): real
    requires AllDigits(whole) && AllDigits(frac)
  {
    DigitsValue(whole) as real + DigitsValue(frac) as real / Pow10(|frac|) as real
  }

  /** The decimal notation of an unsigned mantissa: digits, optionally a point
      and more digits, at least one digit in all. */
  function ParseMantissa(t: string): Option<real> {
    var parts := Text.Split(t, '.');
    if |parts| == 1 then
      if t != "" && AllDigits(t) then Some(DigitsValue(t) as real) else None
    else if |parts| == 2 then
      var whole, frac := parts[0], parts[1];
      if (whole != "" || frac != "") && AllDigits(whole) && AllDigits(frac)
      then Some(Decimal(whole, frac))
      else None
    else None
  }

  /** Python's `float(s)` on a plain decimal: surrounding whitespace, an optional sign
      and a mantissa. `None` stands for the `ValueError` Python raises otherwise. */
  function ParseFloat(s: string): Option<real> {
    var t := Strip(s);
    if t != [] && t[0] == '-' then
      match ParseMantissa(t[1..])
      case Some(v) => Some(-v)
      case None => None
    else if t != [] && t[0] == '+' then ParseMantissa(t[1..])
    else ParseMantissa(t)
  }

  /** A mantissa that splits at its point into two digit strings. */
  lemma MantissaOfParts(t: string, whole: string, frac: string)
    requires Text.Split(t, '.') == [whole, frac]
    requires AllDigits(whole) && AllDigits(frac) && (whole != "" || frac != "")
    ensures ParseMantissa(t) == Some(Decimal(whole, frac))
  {
    var parts := Text.Split(t, '.');
    assert parts[0] == whole && parts[1] == frac;
  }

  /** The mantissa `w.f` reads as the decimal it writes. */
  lemma ParseMantissaDecimal(whole: string, frac: string)
    requires AllDigits(whole) && AllDigits(frac) && (whole != "" || frac != "")
    ensures ParseMantissa(whole + "." + frac) == Some(Decimal(whole, frac))
  {
    assert Text.Lacks(whole, '.') && Text.Lacks(frac, '.');
    Text.SplitAfterPiece(whole, '.', frac);
    Text.SplitWithoutSeparator(frac, '.');
    assert whole + "." + frac == whole + ['.'] + frac;
    MantissaOfParts(whole + "." + frac, whole, frac);
  }

  /** A string with nothing to strip and no sign is read as a plain mantissa, and one
      with a leading `-` as the negated mantissa after it. */
  lemma ParseUnstripped(s: string)
    requires s != [] && !IsSpace(s[0]) && !IsSpace(s[|s| - 1]) && s[0] != '+'
    ensures s[0] != '-' ==> ParseFloat(s) == ParseMantissa(s)
    ensures s[0] == '-' && ParseMantissa(s[1..]).Some? ==> ParseFloat(s) == Some(-ParseMantissa(s[1..]).value)
  {
    assert Strip(s) == s;
  }

  /** `float("w.f")` and `float("-w.f")`. */
  lemma ParseDecimal(negative: bool, whole: string, frac: string)
    requires AllDigits(whole) && AllDigits(frac) && (whole != "" || frac != "")
    ensures ParseFloat((if negative then "-" else "") + whole + "." + frac)
      == Some(if negative then -Decimal(whole, frac) else Decimal(whole, frac))
  {
    var m := whole + "." + frac;
    ParseMantissaDecimal(whole, frac);
    var s := (if negative then "-" else "") + whole + "." + frac;
    assert s == (if negative then "-" else "") + m;
    assert m[0] == '.' || '0' <= m[0] <= '9';
    assert m[|m| - 1] == '.' || '0' <= m[|m| - 1] <= '9';
    if negative {
      assert s[1..] == m;
      assert s[0] == '-';
    } else {
      assert s == m;
    }
    assert s[|s| - 1] == m[|m| - 1];
    ParseUnstripped(s);
  }

  function DigitChar(k: nat): (c: char)
    requires k < 10
    ensures '0' <= c <= '9'
  {
    ('0' as int + k) as char
  }

  /** `str(n)` for a natural number. */
  function ShowNat(n: nat): (s: string)
    ensures s != [] && AllDigits(s)
  {
    if n < 10 then [DigitChar(n)] else ShowNat(n / 10) + [DigitChar(n % 10)]
  }

  lemma {:induction false} DigitsValueShowNat(n: nat)
    ensures DigitsValue(ShowNat(n)) == n
  {
    if n >= 10 {
      DigitsValueShowNat(n / 10);
      var s := ShowNat(n);
      assert s[..|s| - 1] == ShowNat(n / 10);
    }
  }

  /** `float(str(n)) == n`: the parser reads back what `str` writes for a natural number. */
  lemma ParseShowNat(n: nat)
    ensures ParseFloat(ShowNat(n)) == Some(n as real)
  {
    var s := ShowNat(n);
    assert Text.Lacks(s, '.');
    Text.SplitWithoutSeparator(s, '.');
    assert !IsSpace(s[0]) && !IsSpace(s[|s| - 1]);
    assert Strip(s) == s;
    DigitsValueShowNat(n);
  }
}
