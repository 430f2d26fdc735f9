/**
  Decimal numerals as the boundary prints and reads them: Rust's `Display` of an
  integer, its zero-padded form, and `str::parse` of the integer types.
*/
module Numerals {
  import opened Wrappers

  function Pow(b: nat, n: nat): (r: nat)
    ensures b > 0 ==> r > 0
  {
    if n == 0 then 1 else b * Pow(b, n - 1)
  }

  lemma {:induction false} Associative(x: int, y: int, z: int)
    ensures x * (y * z) == (x * y) * z
  {
  }

  lemma {:induction false} PowSum(b: nat, m: nat, n: nat)
    ensures Pow(b, m + n) == Pow(b, m) * Pow(b, n)
  {
    if m > 0 {
      PowSum(b, m - 1, n);
      Associative(b, Pow(b, m - 1), Pow(b, n));
    }
  }

  lemma {:induction false} PowGrows(b: nat, m: nat, n: nat)
    requires b > 0 && m <= n
    ensures Pow(b, m) <= Pow(b, n)
  {
    PowSum(b, m, n - m);
    var x, y := Pow(b, m), Pow(b, n - m);
    assert x * y >= x by { assert x * (y - 1) >= 0; }
  }

  // ---------------------------------------------------------------------
  // Digits
  // ---------------------------------------------------------------------

  predicate IsDigit(c: char) { '0' <= c <= '9' }

  predicate AllDigits(s: string) { forall i :: 0 <= i < |s| ==> IsDigit(s[i]) }

  /** The number an all-digit text denotes. */
  function ValueOf(s: string): nat
    requires AllDigits(s)
  {
    if s == "" then 0 else ValueOf(s[..|s| - 1]) * 10 + (s[|s| - 1] - '0') as nat
  }

  function Digit(d: nat): (c: char)
    requires d < 10
    ensures IsDigit(c) && (c - '0') as nat == d
  {
    '0' + d as char
  }

  /** `Display` of a natural number: no leading zero but for zero itself. */
  function Print(n: nat): (s: string)
    ensures s != "" && AllDigits(s)
  {
    if n < 10 then [Digit(n)] else Print(n / 10) + [Digit(n % 10)]
  }

  lemma {:induction false} PrintDenotes(n: nat)
    ensures ValueOf(Print(n)) == n
  {
    var s := Print(n);
    if n < 10 {
      assert s[..0] == "";
    } else {
      PrintDenotes(n / 10);
      assert s[..|s| - 1] == Print(n / 10);
    }
  }

  /** The one numeral of `n` without a sign or a leading zero. */
  predicate IsNumeral(s: string, n: nat) {
    s != "" && AllDigits(s) && ValueOf(s) == n && (|s| > 1 ==> s[0] != '0')
  }

  lemma {:induction false} PrintIsNumeral(n: nat)
    ensures IsNumeral(Print(n), n) && (n > 0 ==> Print(n)[0] != '0')
  {
    PrintDenotes(n);
    if n >= 10 { PrintIsNumeral(n / 10); }
  }

  /** A number has just one such numeral, the printed one. */
  lemma {:induction false} OneNumeral(s: string, n: nat)
    ensures IsNumeral(s, n) <==> s == Print(n)
  {
    PrintIsNumeral(n);
    if IsNumeral(s, n) { NumeralIsPrinted(s); }
  }

  lemma {:induction false} NumeralIsPrinted(s: string)
    requires s != "" && AllDigits(s) && (|s| > 1 ==> s[0] != '0')
    ensures s == Print(ValueOf(s)) && (s[0] != '0' ==> ValueOf(s) > 0)
  {
    var k := |s| - 1;
    var front, last := s[..k], (s[k] - '0') as nat;
    if k == 0 {
      assert front == "" && ValueOf(s) == last;
    } else {
      NumeralIsPrinted(front);
      assert ValueOf(s) == ValueOf(front) * 10 + last;
      assert ValueOf(s) / 10 == ValueOf(front) && ValueOf(s) % 10 == last;
      assert s == front + [s[k]];
    }
  }

  lemma {:induction false} Regroup(x: nat, p: nat)
    ensures (x * p) * 10 == x * (10 * p)
  {
  }

  lemma {:induction false} ValueOfConcat(a: string, b: string)
    requires AllDigits(a) && AllDigits(b)
    ensures ValueOf(a + b) == ValueOf(a) * Pow(10, |b|) + ValueOf(b)
  {
    if b == "" {
      assert a + b == a;
    } else {
      var n := |b| - 1;
      var front, last := b[..n], b[n];
      ValueOfConcat(a, front);
      var s := a + b;
      assert s[..|s| - 1] == a + front && s[|s| - 1] == last;
      Regroup(ValueOf(a), Pow(10, n));
    }
  }

  /** A number has at most `width` digits exactly when it is below `10^width`. */
  lemma {:induction false} PrintWidth(n: nat, width: nat)
    requires width > 0
    ensures |Print(n)| <= width <==> n < Pow(10, width)
  {
    if n < 10 {
      PowGrows(10, 1, width);
    } else if width == 1 {
      assert Pow(10, 1) == 10 * Pow(10, 0);
    } else {
      PrintWidth(n / 10, width - 1);
      assert n < 10 * Pow(10, width - 1) <==> n / 10 < Pow(10, width - 1);
    }
  }

  function Zeros(n: nat): (s: string)
    ensures |s| == n && AllDigits(s)
  {
    if n == 0 then "" else Zeros(n - 1) + "0"
  }

  lemma {:induction false} ZerosDenote(n: nat)
    ensures ValueOf(Zeros(n)) == 0
  {
    if n > 0 {
      ZerosDenote(n - 1);
      assert Zeros(n)[..n - 1] == Zeros(n - 1);
    }
  }

  /** `{:0width$}`: zeros in front, up to `width` characters. */
  function Pad(n: nat, width: nat): (s: string)
    ensures s != "" && AllDigits(s)
  {
    Zeros(if |Print(n)| < width then width - |Print(n)| else 0) + Print(n)
  }

  lemma {:induction false} PadDenotes(n: nat, width: nat)
    requires width > 0 && n < Pow(10, width)
    ensures |Pad(n, width)| == width && ValueOf(Pad(n, width)) == n
  {
    PrintWidth(n, width);
    PrintDenotes(n);
    var zeros, s := Zeros(width - |Print(n)|), Print(n);
    assert Pad(n, width) == zeros + s;
    ZerosDenote(width - |s|);
    ValueOfConcat(zeros, s);
    assert 0 * Pow(10, |s|) == 0;
  }

  // ---------------------------------------------------------------------
  // str::parse of the integer types
  // ---------------------------------------------------------------------

  /** The magnitude after an optional sign: one digit at least, nothing but digits. */
  function Magnitude(s: string): Option<nat> {
    if s != "" && AllDigits(s) then Some(ValueOf(s)) else None
  }

  /** An unsigned type up to `max`: a leading `+` is read, a `-` is not. */
  function ParseUnsigned(s: string, max: nat): (r: Option<nat>)
    ensures r.Some? ==> r.value <= max
  {
    match Magnitude(if s != "" && s[0] == '+' then s[1..] else s)
    case Some(n) => if n <= max then Some(n) else None
    case None => None
  }

  /** A signed type from `min` to `max`. */
  function ParseSigned(s: string, min: int, max: int): (r: Option<int>)
    ensures r.Some? ==> min <= r.value <= max
  {
    var negative := s != "" && s[0] == '-';
    match Magnitude(if negative || (s != "" && s[0] == '+') then s[1..] else s)
    case Some(n) =>
      var v: int := if negative then 0 - n else n;
      if min <= v <= max then Some(v) else None
    case None => None
  }

  function PrintSigned(n: int): string {
    if n < 0 then "-" + Print(-n) else Print(n)
  }

  /** The same for any integer: a minus sign before a negative one, and no plus sign. */
  predicate IsSignedNumeral(s: string, n: int) {
    if n < 0 then s != "" && s[0] == '-' && IsNumeral(s[1..], 0 - n) else IsNumeral(s, n)
  }

  lemma {:induction false} PrintSignedIsNumeral(n: int)
    ensures IsSignedNumeral(PrintSigned(n), n)
  {
    PrintIsNumeral(if n < 0 then 0 - n else n);
    if n < 0 { assert PrintSigned(n)[1..] == Print(0 - n); }
  }

  /** A printed number reads back as itself, and is never empty. */
  lemma {:induction false} PrintParses(n: nat, max: nat)
    ensures ParseUnsigned(Print(n), max) == if n <= max then Some(n) else None
  {
    PrintDenotes(n);
  }

  lemma {:induction false} PrintSignedParses(n: int, min: int, max: int)
    ensures ParseSigned(PrintSigned(n), min, max) == if min <= n <= max then Some(n) else None
  {
    PrintDenotes(if n < 0 then -n else n);
    if n < 0 { assert PrintSigned(n)[1..] == Print(-n); }
  }

  /** The spellings a numeral is read from: leading zeros and a plus sign change
      nothing, a minus sign is for signed types only, and a sign alone is no numeral. */
  lemma {:induction false} Spellings(s: string, min: int, max: nat)
    requires s != "" && AllDigits(s)
    ensures ParseUnsigned(s, max) == if ValueOf(s) <= max then Some(ValueOf(s)) else None
    ensures ParseUnsigned("0" + s, max) == ParseUnsigned(s, max) == ParseUnsigned("+" + s, max)
    ensures ParseSigned(s, min, max) == ParseSigned("0" + s, min, max) == ParseSigned("+" + s, min, max)
    ensures ParseSigned("-" + s, min, max) == if min <= 0 - ValueOf(s) <= max then Some(0 - ValueOf(s)) else None
    ensures ParseUnsigned("-" + s, max) == None
    ensures ParseUnsigned("", max) == ParseUnsigned("+", max) == None
    ensures ParseSigned("", min, max) == ParseSigned("+", min, max) == ParseSigned("-", min, max) == None
  {
    ValueOfConcat("0", s);
    assert "0"[..0] == "";
    assert ("+" + s)[1..] == s && ("-" + s)[1..] == s && ("0" + s)[0] == '0';
    assert "+"[1..] == "" && "-"[1..] == "";
    assert !IsDigit(("-" + s)[0]);
    assert IsDigit(s[0]);
  }
}
