/**
  Doubles crossing the boundary where they may be NaN or infinite
  (`TransportF64` and its readers in native/sidereon_nif/src/iono.rs).

  A double is its binary64 pattern (section 3.4 of IEEE 754-2019). A term is any
  Erlang term; an Erlang float is always finite, which `Proper` states.
*/
module Transport {
  import opened Wrappers
  import opened Binary64

  datatype Term =
    | Float(bits: Bits)
    | Integer(n: int)
    | Atom(name: string)
    | Tuple(items: seq<Term>)
    | Opaque(id: nat)                   // maps, lists, binaries, references

  predicate Proper(term: Term) {
    match term
    case Float(bits) => Finite(Unpack(bits))
    case Tuple(items) => forall i :: 0 <= i < |items| ==> Proper(items[i])
    case _ => true
  }

  /** The field a refused term was read for. */
  type Field = string

  function Encode(x: Bits): (t: Term)
    ensures Proper(t)
  {
    if Finite(Unpack(x)) then Float(x) else Tuple([Atom("nonfinite"), Integer(x)])
  }

  function Decode(t: Term, field: Field): Result<Bits, Field> {
    match t
    case Float(bits) => Ok(bits)
    case Tuple(items) =>
      if && |items| == 2 && items[0].Atom? && items[1].Integer?
         && 0 <= items[1].n < 0x1_0000_0000_0000_0000
         && items[0].name == "nonfinite" && !Finite(Unpack(items[1].n))
      then Ok(items[1].n) else Err(field)
    case _ => Err(field)
  }

  datatype Xyz = Xyz(x: Bits, y: Bits, z: Bits)

  function EncodeXyz(v: Xyz): (t: Term) {
    Tuple([Encode(v.x), Encode(v.y), Encode(v.z)])
  }

  /** Reads three transported doubles, naming `whole` where there are not three
      terms and otherwise the name of the first component refused. */
  function DecodeTriple(t: Term, whole: Field, first: Field, second: Field, third: Field): Result<Xyz, Field> {
    if !t.Tuple? || |t.items| != 3 then Err(whole)
    else
      match Decode(t.items[0], first)
      case Err(f) => Err(f)
      case Ok(x) =>
        match Decode(t.items[1], second)
        case Err(f) => Err(f)
        case Ok(y) =>
          match Decode(t.items[2], third)
          case Err(f) => Err(f)
          case Ok(z) => Ok(Xyz(x, y, z))
  }

  function DecodeXyz(t: Term, field: Field): Result<Xyz, Field> {
    DecodeTriple(t, field, field, field, field)
  }

  /** A converter's answer, `{lon_deg, lat_deg, alt}`. */
  function DecodeConversion(t: Term): Result<Xyz, Field> {
    DecodeTriple(t, "lonlatalt", "lon_deg", "lat_deg", "alt")
  }

  /** Every pattern survives the crossing, and every term that is read at all is
      the one that crossing writes: no double has a second spelling. */
  lemma {:induction false} Canonical(x: Bits, t: Term, field: Field)
    requires Proper(t)
    ensures Decode(Encode(x), field) == Ok(x)
    ensures Decode(t, field) == Ok(x) <==> t == Encode(x)
  {
    if Decode(t, field) == Ok(x) && t.Tuple? {
      assert t.items == [Atom("nonfinite"), Integer(x)];
    }
  }

  lemma {:induction false} CanonicalTriple(v: Xyz, t: Term, whole: Field, first: Field, second: Field, third: Field)
    requires Proper(t)
    ensures DecodeTriple(EncodeXyz(v), whole, first, second, third) == Ok(v)
    ensures DecodeTriple(t, whole, first, second, third) == Ok(v) <==> t == EncodeXyz(v)
  {
    Canonical(v.x, Encode(v.x), first);
    Canonical(v.y, Encode(v.y), second);
    Canonical(v.z, Encode(v.z), third);
    if DecodeTriple(t, whole, first, second, third) == Ok(v) {
      Canonical(v.x, t.items[0], first);
      Canonical(v.y, t.items[1], second);
      Canonical(v.z, t.items[2], third);
      assert t.items == [Encode(v.x), Encode(v.y), Encode(v.z)];
    }
  }

  /** The patterns with an all-ones exponent are two intervals, one for each sign:
      the infinities at their lower ends and the NaNs above them. */
  lemma {:induction false} NonfinitePatterns(b: Bits)
    ensures !Finite(Unpack(b)) <==>
            0x7FF0_0000_0000_0000 <= b < 0x8000_0000_0000_0000 || 0xFFF0_0000_0000_0000 <= b
  {
  }

  /** The terms that are doubles: any float, and the tag with the pattern of a NaN or
      an infinity. A finite double has no tagged form. */
  predicate IsDouble(t: Term) {
    || t.Float?
    || (t.Tuple? && |t.items| == 2 && t.items[0] == Atom("nonfinite") && t.items[1].Integer?
        && 0 <= t.items[1].n < 0x1_0000_0000_0000_0000 && !Finite(Unpack(t.items[1].n)))
  }

  /** The pattern such a term carries, as it stands. */
  function Pattern(t: Term): Bits
    requires IsDouble(t)
  {
    if t.Float? then t.bits else t.items[1].n
  }

  /** One double is read from exactly those terms, as the pattern they carry. */
  lemma {:induction false} Doubles(t: Term, field: Field)
    ensures Decode(t, field) == if IsDouble(t) then Ok(Pattern(t)) else Err(field)
  {
  }

  /** An answer is read in the order longitude, latitude, altitude, from exactly the
      term written in that order. */
  lemma {:induction false} ConversionInOrder(lon: Bits, lat: Bits, alt: Bits, t: Term)
    requires Proper(t)
    ensures DecodeConversion(t) == Ok(Xyz(lon, lat, alt)) <==> t == Tuple([Encode(lon), Encode(lat), Encode(alt)])
  {
    CanonicalTriple(Xyz(lon, lat, alt), t, "lonlatalt", "lon_deg", "lat_deg", "alt");
  }

  /** The same for a position, in the order x, y, z; it is refused under one name. */
  lemma {:induction false} PositionInOrder(x: Bits, y: Bits, z: Bits, t: Term, field: Field)
    requires Proper(t)
    ensures DecodeXyz(t, field) == Ok(Xyz(x, y, z)) <==> t == Tuple([Encode(x), Encode(y), Encode(z)])
    ensures DecodeXyz(t, field).Err? ==> DecodeXyz(t, field) == Err(field)
  {
    CanonicalTriple(Xyz(x, y, z), t, field, field, field, field);
  }

  /** A refused answer is refused under the name of its first component that is no
      double, or as a whole where it is not three terms. */
  lemma {:induction false} ConversionRefusals(t: Term)
    ensures DecodeConversion(t) ==
            if !t.Tuple? || |t.items| != 3 then Err("lonlatalt")
            else if !IsDouble(t.items[0]) then Err("lon_deg")
            else if !IsDouble(t.items[1]) then Err("lat_deg")
            else if !IsDouble(t.items[2]) then Err("alt")
            else Ok(Xyz(Pattern(t.items[0]), Pattern(t.items[1]), Pattern(t.items[2])))
  {
    if t.Tuple? && |t.items| == 3 {
      Doubles(t.items[0], "lon_deg");
      Doubles(t.items[1], "lat_deg");
      Doubles(t.items[2], "alt");
    }
  }
}
