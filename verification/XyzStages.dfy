/**
  Staged XYZ evaluation of a TEC grid (native/sidereon_nif/src/iono.rs): the
  evaluation stops whenever it needs an ECEF position converted, hands out a
  stage, and continues when a resume call answers that stage.

  The TEC and the group-delay evaluation differ only in the core they call, so
  both are this machine, with `Core` as the parameter. The core's own arithmetic
  is not modelled; its contract is that the number of conversions it may still
  ask for goes down each time it asks (`Progress`).
*/
module XyzStages {
  import opened Wrappers
  import opened Binary64
  import opened Transport

  datatype CoreStep<C, V, E> = Convert(next: C) | Complete(value: V) | Refused(error: E)

  datatype Core<!C, !G, V, E> = Core(
    xyz: C -> Xyz,
    resume: (C, G, Xyz) -> CoreStep<C, V, E>,
    remaining: C -> nat)

  ghost predicate Progress<C(!new), G(!new), V(!new), E(!new)>(core: Core<C, G, V, E>) {
    forall c, g, a :: core.resume(c, g, a).Convert? ==>
      core.remaining(core.resume(c, g, a).next) < core.remaining(c)
  }

  /** How an evaluation ends: with a value, a refusal of the core, or an answer
      of the converter that is not three transported doubles. */
  datatype Finish<V, E> = Value(value: V) | Error(error: E) | BadAnswer(field: Field)

  /** The evaluation as one recursive function that calls the converter itself. */
  ghost function Direct<C(!new), G(!new), V(!new), E(!new)>(
    core: Core<C, G, V, E>, convert: Xyz -> Term, grid: G, c: C): Finish<V, E>
    requires Progress(core)
    decreases core.remaining(c)
  {
    match DecodeConversion(convert(core.xyz(c)))
    case Err(field) => BadAnswer(field)
    case Ok(answer) =>
      match core.resume(c, grid, answer)
      case Convert(next) => Direct(core, convert, grid, next)
      case Complete(v) => Value(v)
      case Refused(e) => Error(e)
  }

  // ---------------------------------------------------------------------
  // The machine
  // ---------------------------------------------------------------------

  /** A stage resource: its grid, its single-use slot, and (for stating what it
      was asked) the conversion the slot was made with. */
  datatype Stage<C, G> = Stage(grid: G, slot: Option<C>, issued: C)

  datatype Prepared<C, E> = Ready(conversion: C) | NotReady(error: E)

  datatype Call<C, G, E> =
    | Prepare(grid: G, made: Prepared<C, E>)
    | Resume(stage: nat, answer: Term)

  datatype Reply<V, E> =
    | Ask(stage: nat, xyz: Term)        // {:ok, {:convert, stage, xyz}}
    | Done(value: V)                    // {:ok, {:complete, evaluation}}
    | Failed(error: E)
    | Consumed                          // {:error, :conversion_consumed}
    | Invalid(field: Field)             // {:error, {:invalid_transport, field}}

  datatype Phase<C, V, E> =
    | Entered
    | Decoded(xyz: Xyz)
    | Taken(conversion: C, xyz: Xyz)
    | Returned(reply: Reply<V, E>)

  datatype Thread<C, G, V, E> = Thread(call: Call<C, G, E>, phase: Phase<C, V, E>)

  datatype State<C, G, V, E> = State(stages: seq<Stage<C, G>>, threads: seq<Thread<C, G, V, E>>)

  datatype Step<C, G, E> = Enter(call: Call<C, G, E>) | Advance(p: nat)

  predicate Enabled<C, G, V, E>(s: State<C, G, V, E>, step: Step<C, G, E>) {
    match step
    case Enter(call) => call.Resume? ==> call.stage < |s.stages|
    case Advance(p) =>
      && p < |s.threads| && !s.threads[p].phase.Returned?
      && (s.threads[p].call.Resume? ==> s.threads[p].call.stage < |s.stages|)
      && (s.threads[p].call.Prepare? ==> s.threads[p].phase.Entered?)
  }

  /** A new stage for `c` on `grid`, and the request that names it. */
  function Issue<C, G, V, E>(core: Core<C, G, V, E>, stages: seq<Stage<C, G>>, grid: G, c: C):
    (seq<Stage<C, G>>, Phase<C, V, E>)
  {
    (stages + [Stage(grid, Some(c), c)], Returned(Ask(|stages|, EncodeXyz(core.xyz(c)))))
  }

  function StepOf<C, G, V, E>(core: Core<C, G, V, E>, s: State<C, G, V, E>, p: nat): (seq<Stage<C, G>>, Phase<C, V, E>)
    requires Enabled(s, Advance(p))
  {
    var t := s.threads[p];
    match t.call
    case Prepare(grid, made) =>
      (match made
       case Ready(c) => Issue(core, s.stages, grid, c)
       case NotReady(e) => (s.stages, Returned(Failed(e))))
    case Resume(i, answer) =>
      match t.phase
      case Entered =>
        (match DecodeConversion(answer)
         case Ok(xyz) => (s.stages, Decoded(xyz))
         case Err(field) => (s.stages, Returned(Invalid(field))))
      case Decoded(xyz) =>
        if s.stages[i].slot.None? then (s.stages, Returned(Consumed))
        else (s.stages[i := s.stages[i].(slot := None)], Taken(s.stages[i].slot.value, xyz))
      case Taken(c, xyz) =>
        (match core.resume(c, s.stages[i].grid, xyz)
         case Convert(next) => Issue(core, s.stages, s.stages[i].grid, next)
         case Complete(v) => (s.stages, Returned(Done(v)))
         case Refused(e) => (s.stages, Returned(Failed(e))))
  }

  function Next<C, G, V, E>(core: Core<C, G, V, E>, s: State<C, G, V, E>, step: Step<C, G, E>): State<C, G, V, E>
    requires Enabled(s, step)
  {
    match step
    case Enter(call) => s.(threads := s.threads + [Thread(call, Entered)])
    case Advance(p) =>
      var r := StepOf(core, s, p);
      State(r.0, s.threads[p := s.threads[p].(phase := r.1)])
  }

  /** Runs begin with no stage and no call, and may take any enabled step at any time. */
  predicate Feasible<C, G, V, E>(core: Core<C, G, V, E>, steps: seq<Step<C, G, E>>)
    decreases |steps|, 0
  {
    steps == [] ||
    var n := |steps| - 1;
    Feasible(core, steps[..n]) && Enabled(After(core, steps[..n]), steps[n])
  }

  function After<C, G, V, E>(core: Core<C, G, V, E>, steps: seq<Step<C, G, E>>): State<C, G, V, E>
    requires Feasible(core, steps)
    decreases |steps|, 1
  {
    if steps == [] then State([], [])
    else Next(core, After(core, steps[..|steps| - 1]), steps[|steps| - 1])
  }

  // ---------------------------------------------------------------------
  // What every step keeps
  // ---------------------------------------------------------------------

  /** The thread's resume got its stage's conversion. */
  predicate Took<C, G, V, E>(t: Thread<C, G, V, E>) {
    && t.call.Resume?
    && (t.phase.Taken? || (t.phase.Returned? && !t.phase.reply.Consumed? && !t.phase.reply.Invalid?))
  }

  /** A full slot holds what the stage was made for and nobody has taken it; no
      two resumes ever take the same stage. */
  ghost predicate StagesOk<C, G, V, E>(s: State<C, G, V, E>) {
    && (forall i :: 0 <= i < |s.stages| && s.stages[i].slot.Some? ==> s.stages[i].slot.value == s.stages[i].issued)
    && (forall p :: 0 <= p < |s.threads| && Took(s.threads[p]) ==>
          s.threads[p].call.stage < |s.stages| && s.stages[s.threads[p].call.stage].slot.None?)
    && (forall p, q :: 0 <= p < q < |s.threads| && Took(s.threads[p]) && Took(s.threads[q]) ==>
          s.threads[p].call.stage != s.threads[q].call.stage)
  }

  /** A request names a stage on `grid` that was made for `c`. */
  ghost predicate AsksFor<C, G, V, E>(
    core: Core<C, G, V, E>, stages: seq<Stage<C, G>>, reply: Reply<V, E>, grid: G, c: C)
  {
    && reply.Ask? && reply.stage < |stages|
    && stages[reply.stage].grid == grid && stages[reply.stage].issued == c
    && reply.xyz == EncodeXyz(core.xyz(c))
  }

  /** What a thread knows is what its stage was asked, on its stage's own grid. */
  ghost predicate ThreadOk<C, G, V, E>(core: Core<C, G, V, E>, stages: seq<Stage<C, G>>, t: Thread<C, G, V, E>) {
    match t.call
    case Prepare(grid, made) =>
      && (t.phase.Entered? || t.phase.Returned?)
      && (t.phase.Returned? ==>
            match made
            case Ready(c) => AsksFor(core, stages, t.phase.reply, grid, c)
            case NotReady(e) => t.phase.reply == Failed(e))
    case Resume(i, answer) =>
      && i < |stages|
      && match t.phase
         case Entered => true
         case Decoded(xyz) => DecodeConversion(answer) == Ok(xyz)
         case Taken(c, xyz) => DecodeConversion(answer) == Ok(xyz) && c == stages[i].issued
         case Returned(reply) =>
           match DecodeConversion(answer)
           case Err(field) => reply == Invalid(field)
           case Ok(xyz) =>
             || reply == Consumed
             || match core.resume(stages[i].issued, stages[i].grid, xyz)
                case Convert(next) => AsksFor(core, stages, reply, stages[i].grid, next)
                case Complete(v) => reply == Done(v)
                case Refused(e) => reply == Failed(e)
  }

  ghost predicate Inv<C, G, V, E>(core: Core<C, G, V, E>, s: State<C, G, V, E>) {
    && StagesOk(s)
    && forall p :: 0 <= p < |s.threads| ==> ThreadOk(core, s.stages, s.threads[p])
  }

  /** Stages are only ever added; a stage keeps its grid and what it was made for. */
  ghost predicate Extends<C, G>(stages: seq<Stage<C, G>>, later: seq<Stage<C, G>>) {
    && |stages| <= |later|
    && forall i :: 0 <= i < |stages| ==>
         later[i].grid == stages[i].grid && later[i].issued == stages[i].issued
  }

  lemma {:induction false} StepExtends<C, G, V, E>(core: Core<C, G, V, E>, s: State<C, G, V, E>, step: Step<C, G, E>)
    requires Enabled(s, step)
    ensures Extends(s.stages, Next(core, s, step).stages)
  {
  }

  lemma {:induction false} StepKeepsThreads<C, G, V, E>(core: Core<C, G, V, E>, s: State<C, G, V, E>, p: nat, q: nat)
    requires Inv(core, s) && Enabled(s, Advance(p)) && q < |s.threads|
    ensures ThreadOk(core, Next(core, s, Advance(p)).stages, Next(core, s, Advance(p)).threads[q])
  {
    StepExtends(core, s, Advance(p));
    assert ThreadOk(core, s.stages, s.threads[q]);
  }

  lemma {:induction false} StepKeepsStages<C, G, V, E>(core: Core<C, G, V, E>, s: State<C, G, V, E>, p: nat)
    requires Inv(core, s) && Enabled(s, Advance(p))
    ensures StagesOk(Next(core, s, Advance(p)))
  {
    var s' := Next(core, s, Advance(p));
    var t, t' := s.threads[p], s'.threads[p];
    assert ThreadOk(core, s.stages, t);
    if Took(t') && !Took(t) {
      assert t.call.Resume? && s.stages[t.call.stage].slot.Some?;
    }
  }

  lemma {:induction false} StepKeepsInv<C, G, V, E>(core: Core<C, G, V, E>, s: State<C, G, V, E>, step: Step<C, G, E>)
    requires Inv(core, s) && Enabled(s, step)
    ensures Inv(core, Next(core, s, step))
  {
    if step.Advance? {
      StepKeepsStages(core, s, step.p);
      forall q | 0 <= q < |s.threads|
        ensures ThreadOk(core, Next(core, s, step).stages, Next(core, s, step).threads[q])
      {
        StepKeepsThreads(core, s, step.p, q);
      }
    }
  }
}
