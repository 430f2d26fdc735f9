/**
  One client's evaluation from its own side: the stage objects of
  native/sidereon_nif/src/iono.rs, and the loop of
  lib/sidereon/gnss/ionosphere/tec_grid.ex that converts, checks the answer,
  resumes, and goes on with the stage handed back.
*/
module XyzClient {
  import opened Wrappers
  import opened Numerals
  import opened Binary64
  import opened Transport
  import opened XyzStages

  class XyzStage<C, G> {
    const grid: G
    var conversion: Option<C>

    constructor (grid: G, c: C)
      ensures this.grid == grid && conversion == Some(c)
    {
      this.grid := grid;
      conversion := Some(c);
    }

    /** Hands over whatever the slot holds; nobody gets it a second time. */
    method TakeConversion() returns (c: Option<C>)
      modifies this
      ensures c == old(conversion) && conversion == None
    {
      c := conversion;
      conversion := None;
    }
  }

  /** Answers one stage: refused before the slot is touched, consumed, or one core
      step. A further request names the stage object `next`, not a stage number. */
  method ResumeStage<C, G, V, E>(core: Core<C, G, V, E>, stage: XyzStage<C, G>, answer: Term)
    returns (reply: Reply<V, E>, next: Option<XyzStage<C, G>>)
    modifies stage
    ensures match DecodeConversion(answer)
            case Err(field) => reply == Invalid(field) && stage.conversion == old(stage.conversion) && next == None
            case Ok(xyz) =>
              && stage.conversion == None
              && match old(stage.conversion)
                 case None => reply == Consumed && next == None
                 case Some(c) =>
                   match core.resume(c, stage.grid, xyz)
                   case Convert(c') =>
                     && reply.Ask? && reply.xyz == EncodeXyz(core.xyz(c'))
                     && next.Some? && fresh(next.value)
                     && next.value.grid == stage.grid && next.value.conversion == Some(c')
                   case Complete(v) => reply == Done(v) && next == None
                   case Refused(e) => reply == Failed(e) && next == None
  {
    next := None;
    match DecodeConversion(answer)
    case Err(field) => reply := Invalid(field);
    case Ok(xyz) =>
      var taken := stage.TakeConversion();
      match taken
      case None => reply := Consumed;
      case Some(c) =>
        match core.resume(c, stage.grid, xyz)
        case Convert(c') =>
          var made := new XyzStage(stage.grid, c');
          next := Some(made);
          reply := Ask(0, EncodeXyz(core.xyz(c')));
        case Complete(v) => reply := Done(v);
        case Refused(e) => reply := Failed(e);
  }

  // ---------------------------------------------------------------------
  // The check of a converter's answer
  // ---------------------------------------------------------------------

  /** Why the client refuses an answer before any stage is resumed. */
  datatype Rejection = InvalidConversion(answer: Term) | ValueOutOfRange(field: Field, n: int)

  /** The bound up to which an integer has a double. */
  function FloatMax(): nat {
    (Pow(2, 53) - 1) * Pow(2, 971)
  }

  /** Division by 1.0 gives a float for every integer up to that size. */
  ghost predicate DividesFinitely(divide: int -> Bits) {
    forall n :: 0 - FloatMax() <= n <= FloatMax() ==> Finite(Unpack(divide(n)))
  }

  /** One double of an answer as the boundary carries it: floats and tagged
      non-finite patterns as they are, integers as the double they divide to. */
  function Component(divide: int -> Bits, t: Term, field: Field, answer: Term): Result<Term, Rejection> {
    match t
    case Float(_) => Ok(t)
    case Integer(n) =>
      if 0 - FloatMax() <= n <= FloatMax() then Ok(Float(divide(n))) else Err(ValueOutOfRange(field, n))
    case Tuple(items) =>
      if && |items| == 2 && items[0] == Atom("nonfinite") && items[1].Integer?
         && 0 <= items[1].n < 0x1_0000_0000_0000_0000 && !Finite(Unpack(items[1].n))
      then Ok(t) else Err(InvalidConversion(answer))
    case _ => Err(InvalidConversion(answer))
  }

  function Conversion(divide: int -> Bits, answer: Term): Result<Term, Rejection> {
    if !answer.Tuple? || |answer.items| != 3 then Err(InvalidConversion(answer))
    else
      var lon :- Component(divide, answer.items[0], "lon_deg", answer);
      var lat :- Component(divide, answer.items[1], "lat_deg", answer);
      var alt :- Component(divide, answer.items[2], "alt", answer);
      Ok(Tuple([lon, lat, alt]))
  }

  lemma {:induction false} ComponentDecodes(divide: int -> Bits, t: Term, field: Field, answer: Term)
    ensures Component(divide, t, field, answer).Ok? ==>
              Decode(Component(divide, t, field, answer).value, field).Ok?
    ensures Decode(t, field).Ok? ==> Component(divide, t, field, answer) == Ok(t)
  {
    if t.Tuple? && Decode(t, field).Ok? {
      assert t.items[0] == Atom("nonfinite");
    }
  }

  /** What the check lets through the boundary reads, so the boundary's own refusal
      of an answer is never seen; and what the boundary would read the check leaves
      as it is. */
  lemma {:induction false} CheckedDecodes(divide: int -> Bits, answer: Term)
    ensures Conversion(divide, answer).Ok? ==> DecodeConversion(Conversion(divide, answer).value).Ok?
    ensures DecodeConversion(answer).Ok? ==> Conversion(divide, answer) == Ok(answer)
  {
    if answer.Tuple? && |answer.items| == 3 {
      ComponentDecodes(divide, answer.items[0], "lon_deg", answer);
      ComponentDecodes(divide, answer.items[1], "lat_deg", answer);
      ComponentDecodes(divide, answer.items[2], "alt", answer);
      assert answer.items == [answer.items[0], answer.items[1], answer.items[2]];
    }
  }

  /** The doubles the client accepts: those the boundary reads, and integers that have one. */
  predicate Accepted(t: Term) {
    IsDouble(t) || (t.Integer? && 0 - FloatMax() <= t.n <= FloatMax())
  }

  /** The pattern that reaches the core: an integer's quotient by 1.0, any other double as it is. */
  function Reaches(divide: int -> Bits, t: Term): Bits
    requires Accepted(t)
  {
    if t.Integer? then divide(t.n) else Pattern(t)
  }

  /** Why a component that is not accepted is refused. */
  function Complaint(t: Term, field: Field, answer: Term): Rejection {
    if t.Integer? then ValueOutOfRange(field, t.n) else InvalidConversion(answer)
  }

  /** What becomes of every answer: the first component that is not accepted is
      complained of, by its name where it is an integer no double holds; otherwise
      longitude, latitude and altitude reach the core, in that order. */
  lemma {:induction false} AnswersSpelledOut(divide: int -> Bits, answer: Term)
    ensures if !answer.Tuple? || |answer.items| != 3 then Conversion(divide, answer) == Err(InvalidConversion(answer))
            else
              var lon, lat, alt := answer.items[0], answer.items[1], answer.items[2];
              if !Accepted(lon) then Conversion(divide, answer) == Err(Complaint(lon, "lon_deg", answer))
              else if !Accepted(lat) then Conversion(divide, answer) == Err(Complaint(lat, "lat_deg", answer))
              else if !Accepted(alt) then Conversion(divide, answer) == Err(Complaint(alt, "alt", answer))
              else
                && Conversion(divide, answer).Ok?
                && DecodeConversion(Conversion(divide, answer).value) ==
                   Ok(Xyz(Reaches(divide, lon), Reaches(divide, lat), Reaches(divide, alt)))
  {
    if answer.Tuple? && |answer.items| == 3 {
      ComponentReaches(divide, answer.items[0], "lon_deg", answer);
      ComponentReaches(divide, answer.items[1], "lat_deg", answer);
      ComponentReaches(divide, answer.items[2], "alt", answer);
    }
  }

  lemma {:induction false} ComponentReaches(divide: int -> Bits, t: Term, field: Field, answer: Term)
    ensures var r := Component(divide, t, field, answer);
            if Accepted(t) then r.Ok? && Decode(r.value, field) == Ok(Reaches(divide, t))
            else r == Err(Complaint(t, field, answer))
  {
  }

  /** The bound on integers is the largest finite double, exactly. */
  lemma {:induction false} LargestDouble(d: Double)
    ensures var largest := Double(false, 0x7FE, 0xF_FFFF_FFFF_FFFF);
            && Finite(largest) && Units(largest) == FloatMax() * Pow(2, 1074)
            && (Finite(d) ==> Units(d) <= Units(largest))
  {
    LargestUnits();
    var largest := Double(false, 0x7FE, 0xF_FFFF_FFFF_FFFF);
    if Finite(d) && d.exponent < 0x7FE { LargerExponent(d, largest); }
    if Finite(d) && d.exponent == 0x7FE { SameExponent(d, largest); }
  }

  lemma {:induction false} SameExponent(d: Double, e: Double)
    requires d.exponent == e.exponent && d.fraction <= e.fraction
    ensures Size(d) <= Size(e)
  {
    var p := Pow(2, Shift(d));
    assert (Significand(e) - Significand(d)) * p >= 0;
  }

  lemma {:induction false} LargestUnits()
    ensures Units(Double(false, 0x7FE, 0xF_FFFF_FFFF_FFFF)) == FloatMax() * Pow(2, 1074)
  {
    PowerOf53();
    PowSum(2, 971, 1074);
    Associative(Pow(2, 53) - 1, Pow(2, 971), Pow(2, 1074));
  }

  lemma {:induction false} PowerOf53()
    ensures Pow(2, 53) == 0x20_0000_0000_0000
  {
    PowSum(2, 1, 1);
    PowSum(2, 2, 2);
    PowSum(2, 4, 4);
    PowSum(2, 8, 8);
    PowSum(2, 16, 16);
    PowSum(2, 4, 1);
    PowSum(2, 16, 5);
    PowSum(2, 32, 21);
  }

  /** A term the check passes on is one Erlang can hold: its floats are finite. */
  lemma {:induction false} CheckedIsProper(divide: int -> Bits, answer: Term)
    requires DividesFinitely(divide) && Proper(answer)
    ensures Conversion(divide, answer).Ok? ==> Proper(Conversion(divide, answer).value)
  {
  }

  // ---------------------------------------------------------------------
  // The loop
  // ---------------------------------------------------------------------

  datatype Outcome<V, E> = Evaluated(value: V) | Refusal(error: E) | Rejected(why: Rejection)

  /** The whole evaluation as one recursive function. */
  ghost function Evaluation<C(!new), G(!new), V(!new), E(!new)>(
    core: Core<C, G, V, E>, divide: int -> Bits, convert: Xyz -> Term, grid: G, c: C): Outcome<V, E>
    requires Progress(core)
    decreases core.remaining(c)
  {
    var answer := convert(core.xyz(c));
    match Conversion(divide, answer)
    case Err(why) => Rejected(why)
    case Ok(checked) =>
      CheckedDecodes(divide, answer);
      match core.resume(c, grid, DecodeConversion(checked).value)
      case Convert(next) => Evaluation(core, divide, convert, grid, next)
      case Complete(v) => Evaluated(v)
      case Refused(e) => Refusal(e)
  }

  /** The converter with its answers as the check leaves them. */
  function Checked(divide: int -> Bits, convert: Xyz -> Term): Xyz -> Term {
    (xyz: Xyz) => match Conversion(divide, convert(xyz)) case Ok(t) => t case Err(_) => convert(xyz)
  }

  /** The client's evaluation is the boundary's direct evaluation of the checked
      converter; it rejects exactly where the boundary would have refused. */
  lemma {:induction false} EvaluationIsDirect<C(!new), G(!new), V(!new), E(!new)>(
    core: Core<C, G, V, E>, divide: int -> Bits, convert: Xyz -> Term, grid: G, c: C)
    requires Progress(core)
    ensures var direct := Direct(core, Checked(divide, convert), grid, c);
            match Evaluation(core, divide, convert, grid, c)
            case Evaluated(v) => direct == Value(v)
            case Refusal(e) => direct == Error(e)
            case Rejected(_) => direct.BadAnswer?
    decreases core.remaining(c)
  {
    var answer := convert(core.xyz(c));
    CheckedDecodes(divide, answer);
    match Conversion(divide, answer)
    case Err(_) =>
    case Ok(checked) =>
      var step := core.resume(c, grid, DecodeConversion(checked).value);
      if step.Convert? { EvaluationIsDirect(core, divide, convert, grid, step.next); }
  }

  /** Reads the position a request asks for, converts it and checks the answer. */
  method AnswerRequest(divide: int -> Bits, convert: Xyz -> Term, request: Term, ghost xyz: Xyz)
    returns (checked: Result<Term, Rejection>)
    requires request == EncodeXyz(xyz)
    ensures checked == Conversion(divide, convert(xyz))
    ensures checked.Ok? ==> DecodeConversion(checked.value).Ok?
  {
    CanonicalTriple(xyz, request, "xyz", "xyz", "xyz", "xyz");
    var answer := convert(DecodeXyz(request, "xyz").value);
    CheckedDecodes(divide, answer);
    checked := Conversion(divide, answer);
  }

  /** The loop ends, and with what the evaluation ends with. Its own stages are never
      refused as consumed, and its checked answers never as malformed. */
  method Drive<C(!new), G(!new), V(!new), E(!new)>(
    core: Core<C, G, V, E>, divide: int -> Bits, convert: Xyz -> Term, grid: G, c: C) returns (r: Outcome<V, E>)
    requires Progress(core)
    ensures r == Evaluation(core, divide, convert, grid, c)
  {
    var stage := new XyzStage(grid, c);
    var request := EncodeXyz(core.xyz(c));
    ghost var pending := c;
    while true
      invariant stage.grid == grid && stage.conversion == Some(pending)
      invariant fresh(stage)
      invariant request == EncodeXyz(core.xyz(pending))
      invariant Evaluation(core, divide, convert, grid, pending) == Evaluation(core, divide, convert, grid, c)
      decreases core.remaining(pending)
    {
      var checked := AnswerRequest(divide, convert, request, core.xyz(pending));
      if checked.Err? { return Rejected(checked.error); }
      var reply, next := ResumeStage(core, stage, checked.value);
      match reply
      case Done(v) => return Evaluated(v);
      case Failed(e) => return Refusal(e);
      case Ask(_, xyz) =>
        stage := next.value;
        request := xyz;
        pending := stage.conversion.value;
      case Consumed => assert false;
      case Invalid(_) => assert false;
    }
  }
}
