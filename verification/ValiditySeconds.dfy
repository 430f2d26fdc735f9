/**
  How the seconds of an antenna's validity bound become a double, and that no
  precision is lost but in the one rounding (`validity_seconds` in
  native/sidereon_nif/src/antex.rs).

  Doubles are binary64 data (sections 3.4 and 4.3.1 of IEEE 754-2019). All
  comparisons are between integers: a finite double is a whole number of units of
  2^-1074, and a decimal is a numerator over a power of ten.
*/
module ValiditySeconds {
  import opened Wrappers
  import opened Numerals
  import opened Binary64

  // ---------------------------------------------------------------------
  // Rounding
  // ---------------------------------------------------------------------

  function Abs(x: int): nat { if x < 0 then -x else x }

  /** How far `d` is from num/den, in units of 2^-1074 / den. */
  function Distance(num: nat, den: nat, d: Double): nat {
    Abs(num * Pow(2, 1074) - Units(d) * den)
  }

  /** `d` is num/den rounded to nearest, ties to even. */
  ghost predicate NearestEven(num: nat, den: nat, d: Double) {
    && Finite(d)
    && forall e: Double :: Finite(e) ==>
         && Distance(num, den, d) <= Distance(num, den, e)
         && (Distance(num, den, d) == Distance(num, den, e) && Units(d) != Units(e) ==> d.fraction % 2 == 0)
  }

  /** Rounding depends on the number, not on how its fraction is written. */
  lemma {:induction false} SameNumber(num: nat, den: nat, c: nat, d: Double)
    requires c > 0
    ensures NearestEven(num * c, den * c, d) <==> NearestEven(num, den, d)
  {
    forall e: Double
      ensures Distance(num * c, den * c, e) == Distance(num, den, e) * c
    {
      var x := num * Pow(2, 1074) - Units(e) * den;
      Rearrange(num, Pow(2, 1074), Units(e), den, c);
      AbsTimes(x, c);
    }
    forall e: Double
      ensures Distance(num, den, d) * c <= Distance(num, den, e) * c <==> Distance(num, den, d) <= Distance(num, den, e)
      ensures Distance(num, den, d) * c == Distance(num, den, e) * c <==> Distance(num, den, d) == Distance(num, den, e)
    {
      Cancel(Distance(num, den, d), Distance(num, den, e), c);
    }
  }

  lemma {:induction false} Rearrange(num: int, two: int, units: int, den: int, c: int)
    ensures (num * c) * two - units * (den * c) == (num * two - units * den) * c
  {
    assert (num * c) * two == (num * two) * c;
    assert units * (den * c) == (units * den) * c;
  }

  lemma {:induction false} AbsTimes(x: int, c: nat)
    ensures Abs(x * c) == Abs(x) * c
  {
    assert x >= 0 ==> x * c >= 0;
    assert x < 0 ==> (-x) * c >= 0 && (-x) * c == -(x * c);
  }

  lemma {:induction false} Cancel(a: nat, b: nat, c: nat)
    requires c > 0
    ensures a * c <= b * c <==> a <= b
    ensures a * c == b * c <==> a == b
  {
    assert b * c - a * c == (b - a) * c;
    assert b > a ==> (b - a) * c > 0;
    assert a > b ==> (a - b) * c > 0;
  }

  /** The numerator of second + digits / den. */
  function Mixed(second: nat, den: nat, digits: nat): nat {
    second * den + digits
  }

  // ---------------------------------------------------------------------
  // Whole seconds
  // ---------------------------------------------------------------------

  /** The bit length of a byte, less one. */
  function Top(n: nat): nat
    requires 0 < n < 256
  {
    if n >= 128 then 7 else if n >= 64 then 6 else if n >= 32 then 5 else if n >= 16 then 4
    else if n >= 8 then 3 else if n >= 4 then 2 else if n >= 2 then 1 else 0
  }

  /** `f64::from` of a byte. */
  function FromByte(n: nat): Double
    requires n < 256
  {
    if n == 0 then Double(false, 0, 0)
    else
      var k := Top(n);
      Double(false, 1023 + k, if n >= Pow(2, k) then (n - Pow(2, k)) * Pow(2, 52 - k) else 0)
  }

  lemma {:induction false} SmallPowers()
    ensures Pow(2, 0) == 1 && Pow(2, 1) == 2 && Pow(2, 2) == 4 && Pow(2, 3) == 8
    ensures Pow(2, 4) == 16 && Pow(2, 5) == 32 && Pow(2, 6) == 64 && Pow(2, 7) == 128
  {
  }

  lemma {:induction false} LargePowers()
    ensures Pow(2, 52) == TWO52 && Pow(2, 64) == 0x1_0000_0000_0000_0000
  {
    SmallPowers();
    PowSum(2, 4, 4);
    PowSum(2, 8, 8);
    PowSum(2, 16, 16);
    PowSum(2, 32, 32);
    PowSum(2, 4, 16);
    PowSum(2, 20, 32);
  }

  lemma {:induction false} Scaled(n: nat, low: nat, high: nat, q: nat)
    requires low <= n < 2 * low && high > 0
    ensures (n - low) * high < low * high
    ensures (low * high + (n - low) * high) * q == n * (high * q)
  {
    assert low * high - (n - low) * high == (2 * low - n) * high;
    assert low * high + (n - low) * high == n * high;
    assert (n * high) * q == n * (high * q);
  }

  lemma {:induction false} TopBounds(n: nat)
    requires 0 < n < 256
    ensures Pow(2, Top(n)) <= n < 2 * Pow(2, Top(n))
  {
    SmallPowers();
  }

  lemma {:induction false} PowersMeet(k: nat)
    requires k <= 7
    ensures Pow(2, k) * Pow(2, 52 - k) == TWO52
    ensures Pow(2, 52 - k) * Pow(2, 1022 + k) == Pow(2, 1074)
  {
    LargePowers();
    PowSum(2, k, 52 - k);
    PowSum(2, 52 - k, 1022 + k);
  }

  lemma {:induction false} FromByteIsExact(n: nat)
    requires n < 256
    ensures Finite(FromByte(n)) && Units(FromByte(n)) == n * Pow(2, 1074)
  {
    if n > 0 {
      var k := Top(n);
      TopBounds(n);
      PowersMeet(k);
      Scaled(n, Pow(2, k), Pow(2, 52 - k), Pow(2, 1022 + k));
    }
  }

  /** Nothing but `d` itself is as near to num/den. */
  ghost predicate StrictlyNearest(num: nat, den: nat, d: Double) {
    && Finite(d)
    && forall e: Double :: Finite(e) && Units(e) != Units(d) ==> Distance(num, den, d) < Distance(num, den, e)
  }

  lemma {:induction false} StrictRounds(num: nat, den: nat, d: Double, e: Double)
    requires StrictlyNearest(num, den, d)
    ensures NearestEven(num, den, d)
    ensures NearestEven(num, den, e) && e.negative == d.negative ==> e == d
  {
    if NearestEven(num, den, e) && e.negative == d.negative {
      assert Distance(num, den, e) <= Distance(num, den, d);
      UnitsDetermine(d, e);
    }
  }

  lemma {:induction false} TimesBelow(a: nat, b: nat, u: nat)
    requires a < b && u > 0
    ensures a * u < b * u
  {
    assert (b - a) * u > 0;
  }

  /** 10^scale outweighs twice any `width`-bit digit string times 2^k. */
  lemma {:induction false} BelowHalf(digits: nat, width: nat, k: nat, scale: nat)
    requires digits < Pow(2, width) && width + k + 1 <= 3 * scale
    ensures 2 * (digits * Pow(2, k)) < Pow(10, scale)
  {
    calc {
      2 * (digits * Pow(2, k));
    <  { TimesBelow(digits, Pow(2, width), Pow(2, k)); }
      2 * (Pow(2, width) * Pow(2, k));
    == { PowSum(2, width, k); }
      2 * Pow(2, width + k);
    ==
      Pow(2, width + k + 1);
    <= { PowGrows(2, width + k + 1, 3 * scale); }
      Pow(2, 3 * scale);
    <= { EightBelowTen(scale); }
      Pow(10, scale);
    }
  }

  lemma {:induction false} EightBelowTen(n: nat)
    ensures Pow(2, 3 * n) <= Pow(10, n)
  {
    if n > 0 {
      EightBelowTen(n - 1);
      PowSum(2, 3, 3 * (n - 1));
      SmallPowers();
    }
  }

  lemma {:induction false} Apart(whole: int, digits: nat, unit: nat, ten: nat, units: int)
    requires 2 * (digits * unit) < ten
    requires units != whole * unit
    ensures Abs((whole * ten + digits) * unit - units * ten) > digits * unit
  {
    var gap := units - whole * unit;
    var near := digits * unit;
    assert (whole * ten + digits) * unit == (whole * unit) * ten + near;
    assert (whole * ten + digits) * unit - units * ten == near - gap * ten by {
      assert units * ten - (whole * unit) * ten == gap * ten;
    }
    if gap > 0 {
      assert (gap - 1) * ten >= 0;
      assert gap * ten >= ten;
    } else {
      assert (-gap - 1) * ten >= 0;
      assert gap * ten <= 0 - ten;
    }
  }

  lemma {:induction false} AtWhole(whole: nat, digits: nat, unit: nat, ten: nat)
    ensures (whole * ten + digits) * unit - (whole * unit) * ten == digits * unit
  {
    assert (whole * ten + digits) * unit == (whole * ten) * unit + digits * unit;
    assert (whole * ten) * unit == (whole * unit) * ten;
  }

  lemma {:induction false} Farther(second: nat, digits: nat, num: nat, ten: nat, d: Double, e: Double)
    requires num == Mixed(second, ten, digits)
    requires Units(d) == second * Pow(2, 1074) && Units(e) != Units(d)
    requires 2 * (digits * Pow(2, 1074)) < ten
    ensures Distance(num, ten, d) < Distance(num, ten, e)
  {
    AtWhole(second, digits, Pow(2, 1074), ten);
    Apart(second, digits, Pow(2, 1074), ten, Units(e));
  }

  lemma {:induction false} BelowHalfUnit(digits: nat, scale: nat)
    requires digits < 0x1_0000_0000_0000_0000
    requires scale > 400 || digits == 0
    ensures 2 * (digits * Pow(2, 1074)) < Pow(10, scale)
  {
    if digits > 0 {
      LargePowers();
      BelowHalf(digits, 64, 1074, scale);
    }
  }

  /** A fraction below half a unit leaves its whole second the only nearest double. */
  lemma {:induction false} WholeIsNearest(second: nat, digits: nat, num: nat, ten: nat, d: Double)
    requires num == Mixed(second, ten, digits)
    requires Finite(d) && Units(d) == second * Pow(2, 1074)
    requires 2 * (digits * Pow(2, 1074)) < ten
    ensures StrictlyNearest(num, ten, d)
  {
    forall e: Double | Finite(e) && Units(e) != Units(d)
      ensures Distance(num, ten, d) < Distance(num, ten, e)
    {
      Farther(second, digits, num, ten, d, e);
    }
  }

  /** Past 400 decimal places a fraction of 64-bit digits is below half the
      spacing of doubles, whatever the second: the whole second is nearest. */
  lemma {:induction false} NegligibleFraction(second: nat, digits: nat, scale: nat)
    requires second < 256 && digits < 0x1_0000_0000_0000_0000
    requires scale > 400 || digits == 0
    ensures StrictlyNearest(Mixed(second, Pow(10, scale), digits), Pow(10, scale), FromByte(second))
  {
    FromByteIsExact(second);
    BelowHalfUnit(digits, scale);
    WholeIsNearest(second, digits, Mixed(second, Pow(10, scale), digits), Pow(10, scale), FromByte(second));
  }

  // ---------------------------------------------------------------------
  // The text, and the call
  // ---------------------------------------------------------------------

  /** Digits, a point at `k`, digits. */
  predicate IsDecimal(t: string, k: nat) {
    && 0 < k < |t| - 1 && t[k] == '.'
    && AllDigits(t[..k]) && AllDigits(t[k + 1..])
  }

  /** The number such a text denotes is its digits over a power of ten. */
  function Numerator(t: string, k: nat): nat
    requires IsDecimal(t, k)
  {
    ValueOf(t[..k] + t[k + 1..])
  }

  function Text(second: nat, digits: nat, scale: nat): string {
    Print(second) + "." + Pad(digits, scale)
  }

  /** The padded text denotes exactly second + digits / 10^scale. */
  lemma {:induction false} TextIsExact(second: nat, digits: nat, scale: nat)
    requires scale > 0 && digits < Pow(10, scale)
    ensures var t, k := Text(second, digits, scale), |Print(second)|;
            && IsDecimal(t, k)
            && |t| - k - 1 == scale
            && ValueOf(t[..k]) == second
            && Numerator(t, k) == Mixed(second, Pow(10, scale), digits)
  {
    var t, k := Text(second, digits, scale), |Print(second)|;
    PadDenotes(digits, scale);
    PrintDenotes(second);
    assert t[..k] == Print(second) && t[k + 1..] == Pad(digits, scale);
    ValueOfConcat(Print(second), Pad(digits, scale));
  }

  /** The correctly rounded `f64` parser, on texts of that form whose whole part is
      that of a byte; a text past the largest double would be read as infinity. */
  ghost predicate RoundsCorrectly(parse: string -> Option<Double>) {
    forall t, k :: IsDecimal(t, k) && ValueOf(t[..k]) < 256 ==>
      && parse(t).Some? && !parse(t).value.negative
      && NearestEven(Numerator(t, k), Pow(10, |t| - k - 1), parse(t).value)
  }

  /** `SecondFraction::new`: refuses what is not below one second, and otherwise
      keeps the number, possibly with trailing zeros dropped. */
  ghost predicate KeepsFraction(fraction: (nat, nat) -> Option<(nat, nat)>) {
    forall digits: nat, scale: nat ::
      match fraction(digits, scale)
      case None => digits >= Pow(10, scale)
      case Some((d, s)) => digits < Pow(10, scale) && s <= scale && d * Pow(10, scale - s) == digits
  }

  function Seconds(fraction: (nat, nat) -> Option<(nat, nat)>, parse: string -> Option<Double>,
                   second: nat, digits: nat, scale: nat): Option<Double>
    requires second < 256
  {
    match fraction(digits, scale)
    case None => None
    case Some((d, s)) =>
      if d == 0 || s > 400 then Some(FromByte(second)) else parse(Text(second, d, s))
  }

  lemma {:induction false} FractionBelowOne(d: nat, s: nat, digits: nat, scale: nat)
    requires s <= scale && d * Pow(10, scale - s) == digits < Pow(10, scale)
    ensures d <= digits && d < Pow(10, s)
  {
    var c := Pow(10, scale - s);
    PowSum(10, s, scale - s);
    assert d * (c - 1) >= 0;
    Cancel(Pow(10, s), d, c);
  }

  /** The call, once the fraction has been accepted as d / 10^s. */
  lemma {:induction false} RoundsAccepted(parse: string -> Option<Double>, second: nat, d: nat, s: nat)
    requires RoundsCorrectly(parse)
    requires second < 256 && d < 0x1_0000_0000_0000_0000 && d < Pow(10, s)
    ensures var r := if d == 0 || s > 400 then Some(FromByte(second)) else parse(Text(second, d, s));
            r.Some? && !r.value.negative && NearestEven(Mixed(second, Pow(10, s), d), Pow(10, s), r.value)
  {
    if d == 0 || s > 400 {
      NegligibleFraction(second, d, s);
      StrictRounds(Mixed(second, Pow(10, s), d), Pow(10, s), FromByte(second), FromByte(second));
    } else {
      assert s > 0;
      TextIsExact(second, d, s);
    }
  }

  lemma {:induction false} Widen(second: nat, d: nat, s: nat, digits: nat, scale: nat)
    requires s <= scale && d * Pow(10, scale - s) == digits
    ensures Pow(10, s) * Pow(10, scale - s) == Pow(10, scale)
    ensures Mixed(second, Pow(10, s), d) * Pow(10, scale - s) == Mixed(second, Pow(10, scale), digits)
  {
    var den, c := Pow(10, s), Pow(10, scale - s);
    PowSum(10, s, scale - s);
    assert (second * den + d) * c == (second * den) * c + d * c;
    assert (second * den) * c == second * (den * c);
  }

  lemma {:induction false} RoundsWidened(second: nat, d: nat, s: nat, digits: nat, scale: nat, v: Double)
    requires s <= scale && d * Pow(10, scale - s) == digits
    requires NearestEven(Mixed(second, Pow(10, s), d), Pow(10, s), v)
    ensures NearestEven(Mixed(second, Pow(10, scale), digits), Pow(10, scale), v)
  {
    Widen(second, d, s, digits, scale);
    SameNumber(Mixed(second, Pow(10, s), d), Pow(10, s), Pow(10, scale - s), v);
  }

  /** For every byte of seconds and 64-bit fraction: refused exactly when the
      fraction is not below one second, and otherwise the double nearest to
      second + digits / 10^scale, ties to even. */
  lemma {:induction false} CorrectlyRounded(fraction: (nat, nat) -> Option<(nat, nat)>, parse: string -> Option<Double>,
                         second: nat, digits: nat, scale: nat)
    requires KeepsFraction(fraction) && RoundsCorrectly(parse)
    requires second < 256 && digits < 0x1_0000_0000_0000_0000
    ensures var r := Seconds(fraction, parse, second, digits, scale);
            && (r.None? <==> digits >= Pow(10, scale))
            && (r.Some? ==> !r.value.negative)
            && (r.Some? ==> NearestEven(Mixed(second, Pow(10, scale), digits), Pow(10, scale), r.value))
  {
    var accepted := fraction(digits, scale);
    assert accepted.None? <==> digits >= Pow(10, scale);
    if accepted.Some? {
      var (d, s) := accepted.value;
      FractionBelowOne(d, s, digits, scale);
      RoundsAccepted(parse, second, d, s);
      RoundsWidened(second, d, s, digits, scale, Seconds(fraction, parse, second, digits, scale).value);
    }
  }

  /** Where the shortcut is taken, the parser would have given the same double, bit for bit. */
  lemma {:induction false} ShortcutAgrees(parse: string -> Option<Double>, second: nat, digits: nat, scale: nat)
    requires RoundsCorrectly(parse)
    requires second < 256 && digits < 0x1_0000_0000_0000_0000 && 0 < scale && digits < Pow(10, scale)
    requires digits == 0 || scale > 400
    ensures parse(Text(second, digits, scale)) == Some(FromByte(second))
  {
    TextIsExact(second, digits, scale);
    NegligibleFraction(second, digits, scale);
    var d := parse(Text(second, digits, scale)).value;
    StrictRounds(Mixed(second, Pow(10, scale), digits), Pow(10, scale), FromByte(second), d);
  }
}
