/**
  TEC grid samples and their mapping-function declaration as terms
  (native/sidereon_nif/src/iono.rs). The fields both conversions copy unchanged
  are one value of type `H`; what is modelled is what they do not: the mapping
  function, the exponent's width, and optional maps carried as possibly empty lists.
*/
module GridSamples {
  import opened Wrappers

  type I32 = n: int | -0x8000_0000 <= n < 0x8000_0000
  type I64 = n: int | -0x8000_0000_0000_0000 <= n < 0x8000_0000_0000_0000

  datatype Mapping = NoMapping | CosZ | QFactor | Other(code: string)

  /** The field as a caller may state it. */
  datatype MappingTerm = Unstated | Atom(name: string) | Text(code: string) | OtherTerm

  function DecodeMapping(t: MappingTerm): Result<Option<Mapping>, string> {
    match t
    case Unstated => Ok(None)
    case Atom(name) =>
      if name == "nil" || name == "absent" then Ok(None)
      else if name == "none" then Ok(Some(NoMapping))
      else if name == "cosz" then Ok(Some(CosZ))
      else if name == "qfac" then Ok(Some(QFactor))
      else Err("unknown mapping function atom")
    case Text(code) =>
      Ok(Some(if code == "NONE" then NoMapping else if code == "COSZ" then CosZ
              else if code == "QFAC" then QFactor else Other(code)))
    case OtherTerm => Err("invalid mapping function format")
  }

  function EncodeMapping(m: Option<Mapping>): MappingTerm {
    match m
    case None => Atom("nil")
    case Some(NoMapping) => Atom("none")
    case Some(CosZ) => Atom("cosz")
    case Some(QFactor) => Atom("qfac")
    case Some(Other(code)) => Text(code)
  }

  /** An `Other` that spells one of the three named codes. */
  predicate Misspelled(m: Option<Mapping>) {
    m.Some? && m.value.Other? && (m.value.code == "NONE" || m.value.code == "COSZ" || m.value.code == "QFAC")
  }

  /** What a declaration comes back as: a named code spelled out becomes its variant. */
  function Named(m: Option<Mapping>): Option<Mapping> {
    if !Misspelled(m) then m
    else Some(if m.value.code == "NONE" then NoMapping else if m.value.code == "COSZ" then CosZ else QFactor)
  }

  // `M` is one map of nodes, in which a node may be missing.
  datatype Samples<H, M> = Samples(
    rest: H, mapping: Option<Mapping>, exponent: I32, rmsMaps: seq<M>, heightMaps: seq<M>)

  datatype SamplesTerm<H, M> = SamplesTerm(
    rest: H, mapping: MappingTerm, exponent: I64, rmsMaps: Option<seq<M>>, heightMaps: Option<seq<M>>)

  function FromTerm<H, M>(t: SamplesTerm<H, M>): Result<Samples<H, M>, string> {
    var mapping :- DecodeMapping(t.mapping);
    if !(-0x8000_0000 <= t.exponent < 0x8000_0000) then Err("exponent out of range")
    else Ok(Samples(t.rest, mapping, t.exponent, OrNone(t.rmsMaps), OrNone(t.heightMaps)))
  }

  function OrNone<M>(maps: Option<seq<M>>): seq<M> {
    if maps.Some? then maps.value else []
  }

  function Stated<M>(maps: seq<M>): Option<seq<M>> {
    if |maps| == 0 then None else Some(maps)
  }

  function ToTerm<H, M>(s: Samples<H, M>): SamplesTerm<H, M> {
    SamplesTerm(s.rest, EncodeMapping(s.mapping), s.exponent, Stated(s.rmsMaps), Stated(s.heightMaps))
  }

  /** Samples survive the crossing but for a misspelled mapping code, which becomes
      its named variant; so they survive exactly when they have none. */
  lemma {:induction false} SamplesRoundTrip<H, M>(s: Samples<H, M>)
    ensures FromTerm(ToTerm(s)) == Ok(s.(mapping := Named(s.mapping)))
    ensures FromTerm(ToTerm(s)) == Ok(s) <==> !Misspelled(s.mapping)
  {
    assert DecodeMapping(EncodeMapping(s.mapping)) == Ok(Named(s.mapping));
    assert OrNone(Stated(s.rmsMaps)) == s.rmsMaps && OrNone(Stated(s.heightMaps)) == s.heightMaps;
  }

  /** A declared code that spells a named one comes back under its name. */
  lemma {:induction false} SpelledOutIsNamed<H, M>(s: Samples<H, M>)
    ensures FromTerm(ToTerm(s.(mapping := Some(Other("NONE"))))) == Ok(s.(mapping := Some(NoMapping)))
    ensures FromTerm(ToTerm(s.(mapping := Some(Other("COSZ"))))) == Ok(s.(mapping := Some(CosZ)))
    ensures FromTerm(ToTerm(s.(mapping := Some(Other("QFAC"))))) == Ok(s.(mapping := Some(QFactor)))
  {
    SamplesRoundTrip(s.(mapping := Some(Other("NONE"))));
    SamplesRoundTrip(s.(mapping := Some(Other("COSZ"))));
    SamplesRoundTrip(s.(mapping := Some(Other("QFAC"))));
  }

  /** The mapping function's terms one by one: no declaration has three spellings, each
      named function an atom and a code, and any other code is kept as it is written. */
  lemma {:induction false} MappingTerms(t: MappingTerm)
    ensures DecodeMapping(t) ==
            if t == Unstated || t == Atom("nil") || t == Atom("absent") then Ok(None)
            else if t == Atom("none") || t == Text("NONE") then Ok(Some(NoMapping))
            else if t == Atom("cosz") || t == Text("COSZ") then Ok(Some(CosZ))
            else if t == Atom("qfac") || t == Text("QFAC") then Ok(Some(QFactor))
            else if t.Text? then Ok(Some(Other(t.code)))
            else if t.Atom? then Err("unknown mapping function atom")
            else Err("invalid mapping function format")
  {
  }

  /** Every field of the samples is written to its own place: no declaration as `nil`, a
      named function as its atom, any other code as its text, and no maps as none. */
  lemma {:induction false} WrittenInPlace<H, M>(s: Samples<H, M>)
    ensures var t := ToTerm(s);
            && t.rest == s.rest && t.exponent == s.exponent
            && t.mapping == (if s.mapping == None then Atom("nil")
                             else if s.mapping == Some(NoMapping) then Atom("none")
                             else if s.mapping == Some(CosZ) then Atom("cosz")
                             else if s.mapping == Some(QFactor) then Atom("qfac")
                             else Text(s.mapping.value.code))
            && (if s.rmsMaps == [] then t.rmsMaps == None else t.rmsMaps == Some(s.rmsMaps))
            && (if s.heightMaps == [] then t.heightMaps == None else t.heightMaps == Some(s.heightMaps))
  {
  }

  /** Every field of the samples is read from its own place in the term; an exponent
      past 32 bits is refused, after an unreadable mapping function. */
  lemma {:induction false} FieldsStayPut<H, M>(t: SamplesTerm<H, M>)
    ensures match FromTerm(t)
            case Ok(s) =>
              && s.rest == t.rest && DecodeMapping(t.mapping) == Ok(s.mapping) && s.exponent == t.exponent
              && s.rmsMaps == (if t.rmsMaps.Some? then t.rmsMaps.value else [])
              && s.heightMaps == (if t.heightMaps.Some? then t.heightMaps.value else [])
            case Err(message) =>
              if DecodeMapping(t.mapping).Err? then message == DecodeMapping(t.mapping).error
              else message == "exponent out of range" && !(-0x8000_0000 <= t.exponent <= 0x7FFF_FFFF)
  {
  }

  /** The term a readable term comes back as. */
  function Normal<H, M>(t: SamplesTerm<H, M>): Result<SamplesTerm<H, M>, string> {
    var s :- FromTerm(t);
    Ok(ToTerm(s))
  }

  /** Reading and writing back is a normalizer, and two readable terms have the
      same normal form exactly when they are read as the same samples. */
  lemma {:induction false} NormalIsIdempotent<H, M>(t: SamplesTerm<H, M>, u: SamplesTerm<H, M>)
    requires FromTerm(t).Ok? && FromTerm(u).Ok?
    ensures Normal(Normal(t).value) == Normal(t)
    ensures Normal(t) == Normal(u) <==> FromTerm(t) == FromTerm(u)
  {
    SamplesRoundTrip(FromTerm(t).value);
    SamplesRoundTrip(FromTerm(u).value);
  }

  /** No two samples share a term: no declaration and a declared blank code stay
      apart, and so do no maps and maps whose nodes are all missing. */
  lemma {:induction false} TermsTellApart<H, M>(a: Samples<H, M>, b: Samples<H, M>)
    ensures ToTerm(a) == ToTerm(b) <==> a == b
  {
    assert Stated(a.rmsMaps) == Stated(b.rmsMaps) <==> a.rmsMaps == b.rmsMaps;
    assert Stated(a.heightMaps) == Stated(b.heightMaps) <==> a.heightMaps == b.heightMaps;
  }
}
