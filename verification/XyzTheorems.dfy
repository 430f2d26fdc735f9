/**
  What holds of every run of prepare and resume calls: a stage is answered once,
  requests are conserved, and a converter driven through stages reaches what the
  direct evaluation reaches, whatever else runs in between.
*/
module XyzTheorems {
  import opened Wrappers
  import opened Sequences
  import opened Schedules
  import opened Binary64
  import opened Transport
  import opened XyzStages

  lemma {:induction false} RunsKeepInv<C, G, V, E>(core: Core<C, G, V, E>, steps: seq<Step<C, G, E>>)
    requires Feasible(core, steps)
    ensures Inv(core, After(core, steps))
    decreases |steps|
  {
    if steps != [] {
      var n := |steps| - 1;
      RunsKeepInv(core, steps[..n]);
      StepKeepsInv(core, After(core, steps[..n]), steps[n]);
    }
  }

  // ---------------------------------------------------------------------
  // Conservation
  // ---------------------------------------------------------------------

  function One(counts: bool): nat {
    if counts then 1 else 0
  }

  predicate Asked<C, G, V, E>(t: Thread<C, G, V, E>) {
    t.phase.Returned? && t.phase.reply.Ask?
  }

  function Asking<C, G, V, E>(): Thread<C, G, V, E> -> nat {
    (t: Thread<C, G, V, E>) => One(Asked(t))
  }

  function Taking<C, G, V, E>(): Thread<C, G, V, E> -> nat {
    (t: Thread<C, G, V, E>) => One(Took(t))
  }

  function Waiting<C, G>(): Stage<C, G> -> nat {
    (st: Stage<C, G>) => One(st.slot.Some?)
  }

  /** Convert requests handed out so far. */
  function Issued<C, G, V, E>(s: State<C, G, V, E>): nat {
    Sum(s.threads, Asking())
  }

  /** Resumes that got their stage's conversion so far. */
  function Answered<C, G, V, E>(s: State<C, G, V, E>): nat {
    Sum(s.threads, Taking())
  }

  /** Stages that still wait for their answer. */
  function Unanswered<C, G, V, E>(s: State<C, G, V, E>): nat {
    Sum(s.stages, Waiting())
  }

  /** A step of a call hands out one request for one new stage, or takes one
      waiting stage, or does neither. */
  lemma {:induction false} StepKinds<C, G, V, E>(core: Core<C, G, V, E>, s: State<C, G, V, E>, p: nat)
    requires Inv(core, s) && Enabled(s, Advance(p))
    ensures var s' := Next(core, s, Advance(p));
            var t, t' := s.threads[p], s'.threads[p];
            && !Asked(t) && (Took(t) ==> Took(t'))
            && (if Asked(t') then
                  && |s'.stages| == |s.stages| + 1 && s'.stages[..|s.stages|] == s.stages
                  && s'.stages[|s.stages|].slot.Some? && (Took(t) <==> Took(t'))
                else if Took(t') && !Took(t) then
                  var i := t.call.stage;
                  && i < |s.stages| && s.stages[i].slot.Some? && s'.stages == s.stages[i := s.stages[i].(slot := None)]
                else s'.stages == s.stages)
  {
    assert ThreadOk(core, s.stages, s.threads[p]);
  }

  lemma {:induction false} StepConserves<C, G, V, E>(core: Core<C, G, V, E>, s: State<C, G, V, E>, p: nat)
    requires Inv(core, s) && Enabled(s, Advance(p))
    requires Issued(s) == |s.stages| == Answered(s) + Unanswered(s)
    ensures var s' := Next(core, s, Advance(p));
            Issued(s') == |s'.stages| == Answered(s') + Unanswered(s')
  {
    var s' := Next(core, s, Advance(p));
    var t, t' := s.threads[p], s'.threads[p];
    StepKinds(core, s, p);
    SumUpdate(s.threads, p, t', Asking());
    SumUpdate(s.threads, p, t', Taking());
    if Asked(t') {
      SumPush(s.stages, s'.stages[|s.stages|], Waiting());
      assert s'.stages == s.stages + [s'.stages[|s.stages|]];
    } else if Took(t') && !Took(t) {
      SumUpdate(s.stages, t.call.stage, s'.stages[t.call.stage], Waiting());
    }
  }

  lemma {:induction false} NewcomerCounts<C, G, V, E>(threads: seq<Thread<C, G, V, E>>, t: Thread<C, G, V, E>)
    requires t.phase.Entered?
    ensures Sum(threads + [t], Asking()) == Sum(threads, Asking())
    ensures Sum(threads + [t], Taking()) == Sum(threads, Taking())
  {
    SumPush(threads, t, Asking());
    SumPush(threads, t, Taking());
  }

  lemma {:induction false} EnterConserves<C, G, V, E>(
    s: State<C, G, V, E>, s': State<C, G, V, E>, t: Thread<C, G, V, E>)
    requires s'.stages == s.stages && s'.threads == s.threads + [t] && t.phase.Entered?
    requires Issued(s) == |s.stages| == Answered(s) + Unanswered(s)
    ensures Issued(s') == |s'.stages| == Answered(s') + Unanswered(s')
  {
    NewcomerCounts(s.threads, t);
  }

  /** Always: requests issued = stages made = resumes that took one + stages unanswered. */
  lemma {:induction false} Conservation<C, G, V, E>(core: Core<C, G, V, E>, steps: seq<Step<C, G, E>>)
    requires Feasible(core, steps)
    ensures var s := After(core, steps);
            Issued(s) == |s.stages| == Answered(s) + Unanswered(s)
    decreases |steps|
  {
    if steps != [] {
      var n := |steps| - 1;
      Conservation(core, steps[..n]);
      RunsKeepInv(core, steps[..n]);
      match steps[n]
      case Enter(call) => EnterConserves(After(core, steps[..n]), After(core, steps), Thread(call, Entered));
      case Advance(p) => StepConserves(core, After(core, steps[..n]), p);
    }
  }

  // ---------------------------------------------------------------------
  // Single use
  // ---------------------------------------------------------------------

  /** An emptied stage has a resume that took it, and a resume is refused as
      consumed only on an emptied stage. */
  ghost predicate EmptiedByATaker<C, G, V, E>(s: State<C, G, V, E>) {
    && (forall i :: 0 <= i < |s.stages| && s.stages[i].slot.None? ==>
          exists q :: 0 <= q < |s.threads| && Took(s.threads[q]) && s.threads[q].call.stage == i)
    && (forall p :: 0 <= p < |s.threads| && s.threads[p].call.Resume? && s.threads[p].phase == Returned(Consumed) ==>
          s.threads[p].call.stage < |s.stages| && s.stages[s.threads[p].call.stage].slot.None?)
  }

  /** Over one step, takers stay takers, and a slot that is empty afterwards was
      empty before or is the one the step took. */
  lemma {:induction false} StepTakes<C, G, V, E>(core: Core<C, G, V, E>, s: State<C, G, V, E>, p: nat)
    requires Inv(core, s) && Enabled(s, Advance(p))
    ensures var s' := Next(core, s, Advance(p));
            && (forall q :: 0 <= q < |s.threads| ==>
                  s'.threads[q].call == s.threads[q].call && (Took(s.threads[q]) ==> Took(s'.threads[q])))
            && (forall i :: 0 <= i < |s'.stages| && s'.stages[i].slot.None? ==>
                  || (i < |s.stages| && s.stages[i].slot.None?)
                  || (Took(s'.threads[p]) && s'.threads[p].call.stage == i))
            && (forall i :: 0 <= i < |s.stages| && s.stages[i].slot.None? ==> s'.stages[i].slot.None?)
            && (s'.threads[p].phase == Returned(Consumed) ==>
                  && s.threads[p].call.Resume? && s.threads[p].call.stage < |s.stages|
                  && s.stages[s.threads[p].call.stage].slot.None?)
  {
    assert ThreadOk(core, s.stages, s.threads[p]);
  }

  lemma {:induction false} StepKeepsTakers<C, G, V, E>(core: Core<C, G, V, E>, s: State<C, G, V, E>, p: nat)
    requires Inv(core, s) && Enabled(s, Advance(p)) && EmptiedByATaker(s)
    ensures EmptiedByATaker(Next(core, s, Advance(p)))
  {
    var s' := Next(core, s, Advance(p));
    StepTakes(core, s, p);
    StepExtends(core, s, Advance(p));
    forall i | 0 <= i < |s'.stages| && s'.stages[i].slot.None?
      ensures exists q :: 0 <= q < |s'.threads| && Took(s'.threads[q]) && s'.threads[q].call.stage == i
    {
      if i < |s.stages| && s.stages[i].slot.None? {
        var q :| 0 <= q < |s.threads| && Took(s.threads[q]) && s.threads[q].call.stage == i;
        assert Took(s'.threads[q]);
      } else {
        assert Took(s'.threads[p]);
      }
    }
  }

  lemma {:induction false} EnterKeepsTakers<C, G, V, E>(
    core: Core<C, G, V, E>, s: State<C, G, V, E>, call: Call<C, G, E>)
    requires Enabled(s, Enter(call)) && EmptiedByATaker(s)
    ensures EmptiedByATaker(Next(core, s, Enter(call)))
  {
    var s' := Next(core, s, Enter(call));
    forall i | 0 <= i < |s'.stages| && s'.stages[i].slot.None?
      ensures exists q :: 0 <= q < |s'.threads| && Took(s'.threads[q]) && s'.threads[q].call.stage == i
    {
      var q :| 0 <= q < |s.threads| && Took(s.threads[q]) && s.threads[q].call.stage == i;
      assert Took(s'.threads[q]);
    }
  }

  lemma {:induction false} RunsKeepTakers<C, G, V, E>(core: Core<C, G, V, E>, steps: seq<Step<C, G, E>>)
    requires Feasible(core, steps)
    ensures EmptiedByATaker(After(core, steps))
    decreases |steps|
  {
    if steps != [] {
      var n := |steps| - 1;
      RunsKeepInv(core, steps[..n]);
      RunsKeepTakers(core, steps[..n]);
      match steps[n]
      case Enter(call) => EnterKeepsTakers(core, After(core, steps[..n]), call);
      case Advance(p) => StepKeepsTakers(core, After(core, steps[..n]), p);
    }
  }

  /** At most one resume of a stage gets its conversion; every other one that is
      well formed is refused as consumed, and only because some resume got it; a
      malformed one never gets it. */
  lemma {:induction false} SingleUse<C, G, V, E>(core: Core<C, G, V, E>, steps: seq<Step<C, G, E>>)
    requires Feasible(core, steps)
    ensures var s := After(core, steps);
            && EmptiedByATaker(s)
            && (forall p, q :: 0 <= p < q < |s.threads| && Took(s.threads[p]) && Took(s.threads[q]) ==>
                  s.threads[p].call.stage != s.threads[q].call.stage)
            && (forall p :: 0 <= p < |s.threads| && s.threads[p].call.Resume? && s.threads[p].phase.Returned? ==>
                  RepliesAsTaken(s.threads[p]))
  {
    RunsKeepInv(core, steps);
    RunsKeepTakers(core, steps);
    var s := After(core, steps);
    forall p | 0 <= p < |s.threads| && s.threads[p].call.Resume? && s.threads[p].phase.Returned?
      ensures RepliesAsTaken(s.threads[p])
    {
      assert ThreadOk(core, s.stages, s.threads[p]);
    }
  }

  /** A finished resume is refused as invalid exactly when its answer does not
      decode, and as consumed exactly when it decodes and the stage was not its own. */
  ghost predicate RepliesAsTaken<C, G, V, E>(t: Thread<C, G, V, E>)
    requires t.call.Resume? && t.phase.Returned?
  {
    && (DecodeConversion(t.call.answer).Err? <==> t.phase.reply.Invalid?)
    && (DecodeConversion(t.call.answer).Ok? && !Took(t) <==> t.phase.reply == Consumed)
  }

  /** A malformed answer leaves every stage as it was. */
  lemma {:induction false} MalformedLeavesStages<C, G, V, E>(core: Core<C, G, V, E>, steps: seq<Step<C, G, E>>, p: nat)
    requires Feasible(core, steps) && Enabled(After(core, steps), Advance(p))
    requires After(core, steps).threads[p].call.Resume?
    requires DecodeConversion(After(core, steps).threads[p].call.answer).Err?
    ensures Next(core, After(core, steps), Advance(p)).stages == After(core, steps).stages
    ensures Next(core, After(core, steps), Advance(p)).threads[p].phase.Returned?
  {
    RunsKeepInv(core, steps);
    assert ThreadOk(core, After(core, steps).stages, After(core, steps).threads[p]);
  }

  // ---------------------------------------------------------------------
  // The trampoline
  // ---------------------------------------------------------------------

  /** The answer a client gives to a request: its converter on the position asked for. */
  function AnswerTo(convert: Xyz -> Term, request: Term): Term {
    match DecodeXyz(request, "xyz")
    case Ok(xyz) => convert(xyz)
    case Err(_) => request
  }

  /** `chain` is one client's evaluation: a prepare call, then for each request
      the resume that answers it with the client's converter. */
  ghost predicate Drives<C, G, V, E>(s: State<C, G, V, E>, convert: Xyz -> Term, chain: seq<nat>) {
    && chain != []
    && (forall k :: 0 <= k < |chain| ==> chain[k] < |s.threads| && s.threads[chain[k]].phase.Returned?)
    && s.threads[chain[0]].call.Prepare?
    && forall k :: 0 < k < |chain| ==> Follows(s, convert, chain[k - 1], chain[k])
  }

  /** Call `q` answers, with the client's converter, the request that call `p` returned. */
  ghost predicate Follows<C, G, V, E>(s: State<C, G, V, E>, convert: Xyz -> Term, p: nat, q: nat) {
    && p < |s.threads| && q < |s.threads|
    && s.threads[p].phase.Returned? && s.threads[p].phase.reply.Ask?
    && s.threads[q].call == Resume(s.threads[p].phase.reply.stage, AnswerTo(convert, s.threads[p].phase.reply.xyz))
  }

  /** The reply says how the evaluation `r` ends, or asks for a stage whose own
      evaluation, on the same grid, is still `r`. */
  ghost predicate LeadsTo<C(!new), G(!new), V(!new), E(!new)>(
    core: Core<C, G, V, E>, convert: Xyz -> Term, stages: seq<Stage<C, G>>, grid: G, reply: Reply<V, E>,
    r: Finish<V, E>)
    requires Progress(core)
  {
    match reply
    case Ask(i, xyz) =>
      && i < |stages| && stages[i].grid == grid
      && xyz == EncodeXyz(core.xyz(stages[i].issued))
      && Direct(core, convert, grid, stages[i].issued) == r
    case Done(v) => r == Value(v)
    case Failed(e) => r == Error(e)
    case Invalid(field) => r == BadAnswer(field)
    case Consumed => true
  }

  /** One link of a client's evaluation: answering the request with the converter keeps the outcome. */
  lemma {:induction false} Link<C(!new), G(!new), V(!new), E(!new)>(
    core: Core<C, G, V, E>, convert: Xyz -> Term, stages: seq<Stage<C, G>>, grid: G,
    asked: Reply<V, E>, t: Thread<C, G, V, E>, r: Finish<V, E>)
    requires Progress(core) && asked.Ask? && LeadsTo(core, convert, stages, grid, asked, r)
    requires ThreadOk(core, stages, t) && t.phase.Returned?
    requires t.call == Resume(asked.stage, AnswerTo(convert, asked.xyz))
    ensures LeadsTo(core, convert, stages, grid, t.phase.reply, r)
  {
    var c := stages[asked.stage].issued;
    CanonicalTriple(core.xyz(c), EncodeXyz(core.xyz(c)), "xyz", "xyz", "xyz", "xyz");
    assert t.call.answer == convert(core.xyz(c));
  }

  /** Driving the stages reaches what the direct evaluation reaches, on the grid
      the evaluation was prepared on, in any run and whatever other calls do. */
  lemma {:induction false} Trampoline<C(!new), G(!new), V(!new), E(!new)>(
    core: Core<C, G, V, E>, steps: seq<Step<C, G, E>>, convert: Xyz -> Term, chain: seq<nat>)
    requires Progress(core) && Feasible(core, steps)
    requires Drives(After(core, steps), convert, chain)
    requires After(core, steps).threads[chain[0]].call.made.Ready?
    ensures var s := After(core, steps);
            var first, last := s.threads[chain[0]].call, s.threads[chain[|chain| - 1]];
            LeadsTo(core, convert, s.stages, first.grid, last.phase.reply,
                    Direct(core, convert, first.grid, first.made.conversion))
    decreases |chain|
  {
    var s := After(core, steps);
    var n := |chain| - 1;
    RunsKeepInv(core, steps);
    var last := s.threads[chain[n]];
    assert ThreadOk(core, s.stages, last);
    if n > 0 {
      assert Follows(s, convert, chain[n - 1], chain[n]);
      assert Drives(s, convert, chain[..n]);
      Trampoline(core, steps, convert, chain[..n]);
      var first := s.threads[chain[0]].call;
      Link(core, convert, s.stages, first.grid, s.threads[chain[n - 1]].phase.reply, last,
           Direct(core, convert, first.grid, first.made.conversion));
    }
  }

  /** A chain that still asks has used up one of the core's remaining conversions
      with each answer; so no chain is longer than those, the prepare call and one
      last answer, and a chain of that length has its end. */
  lemma {:induction false} ChainIsBounded<C(!new), G(!new), V(!new), E(!new)>(
    core: Core<C, G, V, E>, steps: seq<Step<C, G, E>>, convert: Xyz -> Term, chain: seq<nat>)
    requires Progress(core) && Feasible(core, steps)
    requires Drives(After(core, steps), convert, chain)
    requires After(core, steps).threads[chain[0]].call.made.Ready?
    ensures var s := After(core, steps);
            var first, reply := s.threads[chain[0]].call.made.conversion, s.threads[chain[|chain| - 1]].phase.reply;
            && (reply.Ask? ==>
                  && reply.stage < |s.stages|
                  && core.remaining(s.stages[reply.stage].issued) + |chain| - 1 <= core.remaining(first))
            && |chain| <= core.remaining(first) + 2
            && (|chain| == core.remaining(first) + 2 ==> !reply.Ask?)
    decreases |chain|
  {
    var s := After(core, steps);
    var n := |chain| - 1;
    RunsKeepInv(core, steps);
    assert ThreadOk(core, s.stages, s.threads[chain[n]]);
    if n > 0 {
      assert Follows(s, convert, chain[n - 1], chain[n]);
      assert Drives(s, convert, chain[..n]);
      ChainIsBounded(core, steps, convert, chain[..n]);
    }
  }

  /** A reply asks, on `grid`, for conversion `c`, and spells its position. */
  ghost predicate Requests<C, G, V, E>(
    core: Core<C, G, V, E>, stages: seq<Stage<C, G>>, reply: Reply<V, E>, grid: G, c: C)
  {
    && reply.Ask? && reply.stage < |stages|
    && stages[reply.stage].grid == grid && stages[reply.stage].issued == c
    && reply.xyz == Tuple([Encode(core.xyz(c).x), Encode(core.xyz(c).y), Encode(core.xyz(c).z)])
  }

  /** What the answer to a prepare has to be. */
  ghost predicate PrepareSays<C, G, V, E>(
    core: Core<C, G, V, E>, stages: seq<Stage<C, G>>, call: Call<C, G, E>, reply: Reply<V, E>)
    requires call.Prepare?
  {
    match call.made
    case NotReady(e) => reply == Failed(e)
    case Ready(c) => Requests(core, stages, reply, call.grid, c)
  }

  /** What the answer to a resume has to be that took its stage with (lon, lat, alt). */
  ghost predicate ResumeSays<C, G, V, E>(
    core: Core<C, G, V, E>, stages: seq<Stage<C, G>>, i: nat, reply: Reply<V, E>, lon: Bits, lat: Bits, alt: Bits)
    requires i < |stages|
  {
    match core.resume(stages[i].issued, stages[i].grid, Xyz(lon, lat, alt))
    case Convert(next) => Requests(core, stages, reply, stages[i].grid, next)
    case Complete(v) => reply == Done(v)
    case Refused(e) => reply == Failed(e)
  }

  lemma {:induction false} ResumeReply<C, G, V, E>(
    core: Core<C, G, V, E>, stages: seq<Stage<C, G>>, t: Thread<C, G, V, E>, lon: Bits, lat: Bits, alt: Bits)
    requires ThreadOk(core, stages, t) && t.call.Resume? && t.phase.Returned? && Took(t)
    requires DecodeConversion(t.call.answer) == Ok(Xyz(lon, lat, alt))
    ensures t.call.stage < |stages| && ResumeSays(core, stages, t.call.stage, t.phase.reply, lon, lat, alt)
  {
  }

  /** What each answered call of every run says, in terms of the core alone: a prepare
      that was refused says so, and one that was not asks for its conversion's position;
      a resume that took its stage, answered with longitude, latitude and altitude, says
      what the core says to that conversion, on the stage's grid, and that answer in that
      order; an unreadable answer is refused under its own name. */
  lemma {:induction false} RepliesOfTheCore<C, G, V, E>(
    core: Core<C, G, V, E>, steps: seq<Step<C, G, E>>, p: nat, lon: Bits, lat: Bits, alt: Bits)
    requires Feasible(core, steps) && p < |After(core, steps).threads|
    requires After(core, steps).threads[p].phase.Returned?
    ensures var s := After(core, steps);
            var t := s.threads[p];
            if t.call.Prepare? then PrepareSays(core, s.stages, t.call, t.phase.reply)
            else
              && t.call.stage < |s.stages|
              && (DecodeConversion(t.call.answer).Err? ==>
                    t.phase.reply == Invalid(DecodeConversion(t.call.answer).error))
              && (Took(t) && t.call.answer == Tuple([Encode(lon), Encode(lat), Encode(alt)]) ==>
                    ResumeSays(core, s.stages, t.call.stage, t.phase.reply, lon, lat, alt))
  {
    RunsKeepInv(core, steps);
    var s := After(core, steps);
    var t := s.threads[p];
    assert ThreadOk(core, s.stages, t);
    var answer := Tuple([Encode(lon), Encode(lat), Encode(alt)]);
    ConversionInOrder(lon, lat, alt, answer);
    if t.call.Resume? && Took(t) && t.call.answer == answer {
      ResumeReply(core, s.stages, t, lon, lat, alt);
    }
  }

  /** The one way a client is turned away is that another resume answered its stage. */
  lemma {:induction false} TurnedAway<C, G, V, E>(
    core: Core<C, G, V, E>, steps: seq<Step<C, G, E>>, p: nat) returns (q: nat)
    requires Feasible(core, steps) && p < |After(core, steps).threads|
    requires After(core, steps).threads[p].call.Resume?
    requires After(core, steps).threads[p].phase == Returned(Consumed)
    ensures var s := After(core, steps);
            q < |s.threads| && q != p && Took(s.threads[q]) && s.threads[q].call.stage == s.threads[p].call.stage
  {
    SingleUse(core, steps);
    var s := After(core, steps);
    q :| 0 <= q < |s.threads| && Took(s.threads[q]) && s.threads[q].call.stage == s.threads[p].call.stage;
  }

  // ---------------------------------------------------------------------
  // Every call returns
  // ---------------------------------------------------------------------

  predicate AllReturned<C, G, V, E>(s: State<C, G, V, E>) {
    forall p :: 0 <= p < |s.threads| ==> s.threads[p].phase.Returned?
  }

  /** No call ever waits for another. */
  lemma {:induction false} NeverBlocked<C, G, V, E>(core: Core<C, G, V, E>, s: State<C, G, V, E>, p: nat)
    requires Inv(core, s) && p < |s.threads|
    ensures Enabled(s, Advance(p)) <==> !s.threads[p].phase.Returned?
  {
    assert ThreadOk(core, s.stages, s.threads[p]);
  }

  function StepsLeft<C, G, V, E>(t: Thread<C, G, V, E>): nat {
    match t.phase
    case Entered => 3
    case Decoded(_) => 2
    case Taken(_, _) => 1
    case Returned(_) => 0
  }

  function Left<C, G, V, E>(): Thread<C, G, V, E> -> nat {
    (t: Thread<C, G, V, E>) => StepsLeft(t)
  }

  function Measure<C, G, V, E>(s: State<C, G, V, E>): (nat, nat) {
    (0, Sum(s.threads, Left()))
  }

  lemma {:induction false} StepDescends<C, G, V, E>(core: Core<C, G, V, E>, s: State<C, G, V, E>, p: nat)
    requires Enabled(s, Advance(p))
    ensures Below(Measure(Next(core, s, Advance(p))), Measure(s))
  {
    SumUpdate(s.threads, p, Next(core, s, Advance(p)).threads[p], Left());
  }

  /** Some call that was entered steps. */
  ghost predicate Moves<C, G, V, E>(core: Core<C, G, V, E>, s: State<C, G, V, E>, s': State<C, G, V, E>) {
    exists p: nat :: Enabled(s, Advance(p)) && s' == Next(core, s, Advance(p))
  }

  lemma {:induction false} MovesDescend<C, G, V, E>(
    core: Core<C, G, V, E>, s: State<C, G, V, E>, s': State<C, G, V, E>)
    requires Inv(core, s) && Moves(core, s, s')
    ensures Inv(core, s') && Below(Measure(s'), Measure(s))
  {
    var p: nat :| Enabled(s, Advance(p)) && s' == Next(core, s, Advance(p));
    StepKeepsInv(core, s, Advance(p));
    StepDescends(core, s, p);
  }

  /** Under every schedule of the calls entered so far, every call returns. */
  lemma {:induction false} EveryCallReturns<C(!new), G(!new), V(!new), E(!new)>(
    core: Core<C, G, V, E>, behaviour: nat -> State<C, G, V, E>, from: nat) returns (n: nat)
    requires Schedule(behaviour, s => Inv(core, s), s => AllReturned(s), (s, s') => Moves(core, s, s'))
    requires Inv(core, behaviour(from))
    ensures n >= from && AllReturned(behaviour(n))
  {
    var good, done := (s: State<C, G, V, E>) => Inv(core, s), (s: State<C, G, V, E>) => AllReturned(s);
    var moves := (s: State<C, G, V, E>, s': State<C, G, V, E>) => Moves(core, s, s');
    var measure := (s: State<C, G, V, E>) => Measure(s);
    forall s, s' | good(s) && moves(s, s')
      ensures good(s') && Below(measure(s'), measure(s))
    {
      MovesDescend(core, s, s');
    }
    n := EveryScheduleEnds(behaviour, good, done, moves, measure, from);
  }
}
