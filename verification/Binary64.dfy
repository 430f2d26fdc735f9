/**
  Doubles as binary64 data (sections 3.4 and 4.3.1 of IEEE 754-2019): bit patterns,
  their sign, exponent and fraction, and the whole number of units of 2^-1074 that
  a finite one denotes.
*/
module Binary64 {
  import opened Numerals

  type Bits = b: nat | b < 0x1_0000_0000_0000_0000

  const TWO52: nat := 0x10_0000_0000_0000

  datatype Double = Double(negative: bool, exponent: nat, fraction: nat)

  predicate Finite(d: Double) { d.exponent < 0x7FF && d.fraction < TWO52 }

  function Significand(d: Double): nat {
    if d.exponent == 0 then d.fraction else TWO52 + d.fraction
  }

  function Shift(d: Double): nat {
    if d.exponent == 0 then 0 else d.exponent - 1
  }

  /** The magnitude of a double, in units of 2^-1074. */
  function Size(d: Double): nat {
    Significand(d) * Pow(2, Shift(d))
  }

  function Units(d: Double): int {
    if d.negative then -(Size(d) as int) else Size(d)
  }

  lemma {:induction false} LargerExponent(d: Double, e: Double)
    requires Finite(d) && Finite(e) && d.exponent < e.exponent
    ensures Size(d) < Size(e)
  {
    var p, q := Pow(2, Shift(d)), Pow(2, Shift(e));
    assert Size(e) >= TWO52 * q by {
      assert e.fraction * q >= 0;
      assert (TWO52 + e.fraction) * q == TWO52 * q + e.fraction * q;
    }
    if d.exponent == 0 {
      assert p == 1;
      assert TWO52 * q >= TWO52;
    } else {
      PowGrows(2, Shift(d) + 1, Shift(e));
      assert 2 * p <= q;
      assert (TWO52 + d.fraction) * p < (2 * TWO52) * p by {
        assert (TWO52 - d.fraction) * p > 0;
        assert (2 * TWO52) * p - (TWO52 + d.fraction) * p == (TWO52 - d.fraction) * p;
      }
      assert (2 * TWO52) * p == TWO52 * (2 * p);
      assert TWO52 * (2 * p) <= TWO52 * q;
    }
  }

  /** A finite double is determined by its sign bit and its value. */
  lemma {:induction false} UnitsDetermine(d: Double, e: Double)
    requires Finite(d) && Finite(e) && d.negative == e.negative && Units(d) == Units(e)
    ensures d == e
  {
    if d.exponent < e.exponent { LargerExponent(d, e); }
    if e.exponent < d.exponent { LargerExponent(e, d); }
    var p := Pow(2, Shift(d));
    assert Significand(d) * p == Significand(e) * p;
    SameFactor(Significand(d), Significand(e), p);
  }

  lemma {:induction false} SameFactor(a: nat, b: nat, p: nat)
    requires p > 0 && a * p == b * p
    ensures a == b
  {
    assert (a - b) * p == 0;
  }

  // ---------------------------------------------------------------------
  // Bit patterns
  // ---------------------------------------------------------------------

  /** The sign, the exponent and the fraction of a pattern. */
  function Unpack(b: Bits): Double {
    Double(b >= 0x8000_0000_0000_0000, (b / 0x10_0000_0000_0000) % 0x800, b % 0x10_0000_0000_0000)
  }

  /** A pattern is its sign bit, its eleven exponent bits and its fifty-two fraction bits. */
  lemma {:induction false} PatternIsItsParts(b: Bits)
    ensures var d := Unpack(b);
            && d.exponent < 0x800 && d.fraction < 0x10_0000_0000_0000
            && b == (if d.negative then 0x8000_0000_0000_0000 else 0) + d.exponent * 0x10_0000_0000_0000 + d.fraction
  {
  }

  const NEGATIVE_ZERO: Bits := 0x8000_0000_0000_0000

  lemma {:induction false} UnpackIsInjective(a: Bits, b: Bits)
    requires Unpack(a) == Unpack(b)
    ensures a == b
  {
  }

  lemma {:induction false} OnlyZerosVanish(b: Bits)
    ensures Size(Unpack(b)) == 0 <==> b == 0 || b == NEGATIVE_ZERO
  {
    var d := Unpack(b);
    var scale := Pow(2, Shift(d));
    if Significand(d) > 0 { assert Significand(d) * scale > 0; }
  }
}
