/**
  What holds of every run of concurrent fusion calls: it is linearizable, it
  never deadlocks, it ends under every scheduler, and poison stays where it fell.
*/
module FusionTheorems {
  import opened Sequences
  import opened Schedules
  import opened FusionCalls
  import opened FusionMachine
  import opened FusionRefinement

  // ---------------------------------------------------------------------
  // Runs
  // ---------------------------------------------------------------------

  predicate Feasible<F, B, Op, R>(core: Core<F, B, Op, R>, s: State<F, B, Op, R>, steps: seq<Step<F, Op, R>>)
    decreases |steps|, 0
  {
    if steps == [] then Inv(core, s)
    else
      var n := |steps| - 1;
      Feasible(core, s, steps[..n]) && Enabled(After(core, s, steps[..n]), steps[n])
  }

  function After<F, B, Op, R>(core: Core<F, B, Op, R>, s: State<F, B, Op, R>, steps: seq<Step<F, Op, R>>):
    (s': State<F, B, Op, R>)
    requires Feasible(core, s, steps)
    ensures Inv(core, s')
    decreases |steps|, 1
  {
    if steps == [] then s
    else
      var n := |steps| - 1;
      var before := After(core, s, steps[..n]);
      StepKeepsInv(core, before, steps[n]);
      Next(core, before, steps[n])
  }

  /** The calls of a run, in the order in which they take effect. */
  function CommitOrder<F, B, Op, R>(core: Core<F, B, Op, R>, s: State<F, B, Op, R>, steps: seq<Step<F, Op, R>>):
    (log: seq<nat>)
    requires Feasible(core, s, steps)
    decreases |steps|
  {
    if steps == [] then []
    else
      var n := |steps| - 1;
      var before := After(core, s, steps[..n]);
      CommitOrder(core, s, steps[..n]) +
      (if steps[n].Advance? && CommitsNow(core, before, steps[n].p) then [steps[n].p] else [])
  }

  function CallsOf<F, B, Op, R>(s: State<F, B, Op, R>, log: seq<nat>): (calls: seq<Call<F, Op, R>>)
    requires forall k :: 0 <= k < |log| ==> log[k] < |s.threads|
    ensures |calls| == |log|
  {
    seq(|log|, k requires 0 <= k < |log| => s.threads[log[k]].call)
  }

  predicate Decided<F, B, Op, R>(t: Thread<F, B, Op, R>) {
    t.phase.Unlocking? || t.phase.Returned?
  }

  predicate AllReturned<F, B, Op, R>(s: State<F, B, Op, R>) {
    forall p :: 0 <= p < |s.threads| ==> s.threads[p].phase.Returned?
  }

  // ---------------------------------------------------------------------
  // Linearizability
  // ---------------------------------------------------------------------

  /** `log` lists exactly the calls that have decided, each once. */
  predicate ListsDecided<F, B, Op, R>(s: State<F, B, Op, R>, log: seq<nat>) {
    && Distinct(log)
    && (forall k :: 0 <= k < |log| ==> log[k] < |s.threads|)
    && (forall p :: 0 <= p < |s.threads| ==> (Decided(s.threads[p]) <==> p in log))
  }

  /** The calls in `log` have these replies, in this order, and none is refused as a bad argument. */
  ghost predicate Replied<F, B, Op, R>(s: State<F, B, Op, R>, log: seq<nat>, replies: seq<Reply<R>>) {
    && |replies| == |log|
    && forall k :: 0 <= k < |log| ==>
         && log[k] < |s.threads| && Decided(s.threads[log[k]])
         && s.threads[log[k]].phase.reply == replies[k] != BadArg
  }

  /** `log` is a one-at-a-time explanation of state `s`, begun in `slots`. */
  ghost predicate Explains<F, B, Op, R>(
    core: Core<F, B, Op, R>, slots: seq<Slot<F, B>>, s: State<F, B, Op, R>, log: seq<nat>)
  {
    && ListsDecided(s, log)
    && var alone := Replay(core, slots, CallsOf(s, log));
    && View(s) == alone.0
    && Replied(s, log, alone.1)
  }

  /** From `s` to `s'` no call but possibly `p` changes what it has decided, and no call changes its arguments. */
  ghost predicate OnlyDecides<F, B, Op, R>(s: State<F, B, Op, R>, s': State<F, B, Op, R>, p: nat) {
    && |s.threads| <= |s'.threads|
    && (forall q :: 0 <= q < |s.threads| ==>
          && s'.threads[q].call == s.threads[q].call
          && (q != p ==> Decided(s'.threads[q]) == Decided(s.threads[q]))
          && (Decided(s.threads[q]) ==>
                Decided(s'.threads[q]) && s'.threads[q].phase.reply == s.threads[q].phase.reply))
    && (forall q :: |s.threads| <= q < |s'.threads| ==> !Decided(s'.threads[q]))
  }

  lemma {:induction false} ExplainsQuiet<F, B, Op, R>(
    core: Core<F, B, Op, R>, slots: seq<Slot<F, B>>, s: State<F, B, Op, R>, s': State<F, B, Op, R>, log: seq<nat>)
    requires Explains(core, slots, s, log) && OnlyDecides(s, s', |s.threads|) && View(s') == View(s)
    ensures Explains(core, slots, s', log)
  {
    assert CallsOf(s', log) == CallsOf(s, log);
  }

  /** Appending a call that had not decided keeps the log a list of exactly the decided ones. */
  lemma {:induction false} LogGrows<F, B, Op, R>(s: State<F, B, Op, R>, s': State<F, B, Op, R>, log: seq<nat>, p: nat)
    requires OnlyDecides(s, s', p) && |s'.threads| == |s.threads|
    requires p < |s.threads| && !Decided(s.threads[p]) && Decided(s'.threads[p])
    requires ListsDecided(s, log)
    ensures ListsDecided(s', log + [p])
  {
    assert p !in log;
    assert forall q :: q in log + [p] <==> q in log || q == p;
  }

  /** The order with call `p` after it replays as before, and then as `p` alone. */
  lemma {:induction false} ReplayCommit<F, B, Op, R>(
    core: Core<F, B, Op, R>, slots: seq<Slot<F, B>>, s: State<F, B, Op, R>, s': State<F, B, Op, R>, log: seq<nat>,
    p: nat)
    requires |s'.threads| == |s.threads| && p < |s.threads|
    requires forall q :: 0 <= q < |s.threads| ==> s'.threads[q].call == s.threads[q].call
    requires forall k :: 0 <= k < |log| ==> log[k] < |s.threads|
    ensures var before := Replay(core, slots, CallsOf(s, log));
            var last := Serve(core, before.0, s.threads[p].call);
            Replay(core, slots, CallsOf(s', log + [p])) == (last.0, before.1 + [last.1])
  {
    var calls, calls' := CallsOf(s, log), CallsOf(s', log + [p]);
    assert calls'[..|log|] == calls && calls'[|log|] == s.threads[p].call;
  }

  lemma {:induction false} ExplainsCommit<F, B, Op, R>(
    core: Core<F, B, Op, R>, slots: seq<Slot<F, B>>, s: State<F, B, Op, R>, s': State<F, B, Op, R>, log: seq<nat>,
    p: nat)
    requires Explains(core, slots, s, log) && OnlyDecides(s, s', p) && |s'.threads| == |s.threads|
    requires p < |s.threads| && !Decided(s.threads[p]) && Decided(s'.threads[p])
    requires Serve(core, View(s), s.threads[p].call) == (View(s'), s'.threads[p].phase.reply)
    requires s'.threads[p].phase.reply != BadArg
    ensures Explains(core, slots, s', log + [p])
  {
    LogGrows(s, s', log, p);
    ReplayCommit(core, slots, s, s', log, p);
    RepliesGrow(s, s', log, Replay(core, slots, CallsOf(s, log)).1, p);
  }

  lemma {:induction false} RepliesGrow<F, B, Op, R>(s: State<F, B, Op, R>, s': State<F, B, Op, R>, log: seq<nat>,
                                                    replies: seq<Reply<R>>, p: nat)
    requires Replied(s, log, replies) && OnlyDecides(s, s', p)
    requires p < |s.threads| && Decided(s'.threads[p]) && s'.threads[p].phase.reply != BadArg
    ensures Replied(s', log + [p], replies + [s'.threads[p].phase.reply])
  {
  }

  lemma {:induction false} StepDecides<F, B, Op, R>(core: Core<F, B, Op, R>, s: State<F, B, Op, R>, p: nat)
    requires Inv(core, s) && Enabled(s, Advance(p))
    ensures var s' := Next(core, s, Advance(p));
            && OnlyDecides(s, s', p)
            && (if CommitsNow(core, s, p) then !Decided(s.threads[p]) && Decided(s'.threads[p])
                else Decided(s'.threads[p]) == Decided(s.threads[p]))
  {
    assert ThreadOk(core, s.cells, s.threads[p]);
  }

  lemma {:induction false} ExplainsStep<F, B, Op, R>(
    core: Core<F, B, Op, R>, slots: seq<Slot<F, B>>, s: State<F, B, Op, R>, log: seq<nat>, step: Step<F, Op, R>)
    requires Inv(core, s) && Enabled(s, step) && Explains(core, slots, s, log)
    ensures var commits := step.Advance? && CommitsNow(core, s, step.p);
            Explains(core, slots, Next(core, s, step), log + if commits then [step.p] else [])
  {
    var s' := Next(core, s, step);
    match step
    case Invoke(call) =>
      InvokeIsInvisible(core, s, call);
      ExplainsQuiet(core, slots, s, s', log);
      assert log + [] == log;
    case Advance(p) =>
      StepDecides(core, s, p);
      if CommitsNow(core, s, p) {
        ViewFits(core, s, p);
        if s.threads[p].phase.Locking? { PoisonStep(core, s, p); } else { EndStep(core, s, p); }
        ExplainsCommit(core, slots, s, s', log, p);
      } else {
        QuietStep(core, s, p);
        ExplainsQuiet(core, slots, s, s', log);
        assert log + [] == log;
      }
  }

  lemma {:induction false} InvokeIsInvisible<F, B, Op, R>(
    core: Core<F, B, Op, R>, s: State<F, B, Op, R>, call: Call<F, Op, R>)
    requires Inv(core, s) && Enabled(s, Invoke(call))
    ensures View(Next(core, s, Invoke(call))) == View(s)
  {
  }

  /** Every run gives the states and replies of running its calls one at a time, in commit order. */
  lemma {:induction false} Linearizable<F, B, Op, R>(
    core: Core<F, B, Op, R>, s: State<F, B, Op, R>, steps: seq<Step<F, Op, R>>)
    requires Initial(s) && Feasible(core, s, steps)
    ensures Explains(core, View(s), After(core, s, steps), CommitOrder(core, s, steps))
    decreases |steps|
  {
    if steps == [] {
      assert CallsOf(s, []) == [];
    } else {
      var n := |steps| - 1;
      Linearizable(core, s, steps[..n]);
      ExplainsStep(core, View(s), After(core, s, steps[..n]), CommitOrder(core, s, steps[..n]), steps[n]);
    }
  }

  lemma {:induction false} NothingHeld<F, B, Op, R>(core: Core<F, B, Op, R>, s: State<F, B, Op, R>)
    requires Inv(core, s) && AllReturned(s)
    ensures forall i :: 0 <= i < |s.cells| ==>
              s.cells[i].holder == Free && View(s)[i] == Slot(s.cells[i].content, s.cells[i].poisoned)
  {
    forall i | 0 <= i < |s.cells|
      ensures s.cells[i].holder == Free
    {
      assert forall p :: 0 <= p < |s.threads| ==> !Holds(s.threads[p], i);
    }
  }

  /** Once no call is in flight, the mutexes themselves hold what the calls leave
      one at a time, and every call has its place in the order. */
  lemma {:induction false} QuiescentState<F, B, Op, R>(
    core: Core<F, B, Op, R>, s: State<F, B, Op, R>, steps: seq<Step<F, Op, R>>)
    requires Initial(s) && Feasible(core, s, steps) && AllReturned(After(core, s, steps))
    ensures var s' := After(core, s, steps);
            var log := CommitOrder(core, s, steps);
            && Explains(core, View(s), s', log)
            && (forall p :: 0 <= p < |s'.threads| ==> p in log)
            && forall i :: 0 <= i < |s'.cells| ==>
                 && s'.cells[i].holder == Free
                 && Replay(core, View(s), CallsOf(s', log)).0[i] == Slot(s'.cells[i].content, s'.cells[i].poisoned)
  {
    Linearizable(core, s, steps);
    NothingHeld(core, After(core, s, steps));
  }

  /** A run is the run so far and then the rest of it. */
  lemma {:induction false} Prefixes<F, B, Op, R>(
    core: Core<F, B, Op, R>, s: State<F, B, Op, R>, steps: seq<Step<F, Op, R>>, i: nat)
    requires Feasible(core, s, steps) && i <= |steps|
    ensures Feasible(core, s, steps[..i])
    ensures CommitOrder(core, s, steps[..i]) <= CommitOrder(core, s, steps)
    decreases |steps|
  {
    if i == |steps| {
      assert steps[..i] == steps;
    } else {
      var n := |steps| - 1;
      Prefixes(core, s, steps[..n], i);
      assert steps[..n][..i] == steps[..i];
    }
  }

  /** Commit order respects real time: a call that returned before another was
      entered takes effect before it. */
  lemma {:induction false} RealTimeOrder<F, B, Op, R>(
    core: Core<F, B, Op, R>, s: State<F, B, Op, R>, steps: seq<Step<F, Op, R>>, i: nat, p: nat, j: nat, k: nat)
    requires Initial(s) && Feasible(core, s, steps) && i <= |steps| && Feasible(core, s, steps[..i])
    ensures var seen, log := After(core, s, steps[..i]), CommitOrder(core, s, steps);
            && p < |seen.threads| && seen.threads[p].phase.Returned?
            && j < |log| && log[j] == p
            && k < |log| && log[k] >= |seen.threads|
            ==> j < k
  {
    Linearizable(core, s, steps);
    Linearizable(core, s, steps[..i]);
    Prefixes(core, s, steps, i);
    var seen, log, early := After(core, s, steps[..i]), CommitOrder(core, s, steps), CommitOrder(core, s, steps[..i]);
    if p < |seen.threads| && seen.threads[p].phase.Returned? && j < |log| && log[j] == p
       && k < |log| && log[k] >= |seen.threads| {
      PrefixFirst(early, log, |seen.threads|, j, k);
    }
  }

  lemma {:induction false} ReplayPush<F, B, Op, R>(core: Core<F, B, Op, R>, slots: seq<Slot<F, B>>,
                                                   calls: seq<Call<F, Op, R>>, call: Call<F, Op, R>)
    ensures var before := Replay(core, slots, calls);
            var last := Serve(core, before.0, call);
            Replay(core, slots, calls + [call]) == (last.0, before.1 + [last.1])
  {
    assert (calls + [call])[..|calls|] == calls;
  }

  /** Call `k` of a replay is served on what the calls before it left. */
  lemma {:induction false} ReplayAt<F, B, Op, R>(core: Core<F, B, Op, R>, slots: seq<Slot<F, B>>,
                                                 calls: seq<Call<F, Op, R>>, k: nat)
    requires k < |calls|
    ensures var served := Serve(core, Replay(core, slots, calls[..k]).0, calls[k]);
            && Replay(core, slots, calls[..k + 1]).0 == served.0
            && Replay(core, slots, calls).1[k] == served.1
    decreases |calls|
  {
    var n := |calls| - 1;
    var front := calls[..n];
    assert calls == front + [calls[n]];
    ReplayPush(core, slots, front, calls[n]);
    if k < n {
      ReplayAt(core, slots, front, k);
      assert front[..k] == calls[..k] && front[..k + 1] == calls[..k + 1] && front[k] == calls[k];
    } else {
      assert calls[..k + 1] == calls;
    }
  }

  /** The slots as the first `k` calls of a run, in commit order, leave them one at a time. */
  function WholeCalls<F, B, Op, R>(core: Core<F, B, Op, R>, s: State<F, B, Op, R>, steps: seq<Step<F, Op, R>>, k: nat):
    seq<Slot<F, B>>
    requires Initial(s) && Feasible(core, s, steps) && k <= |CommitOrder(core, s, steps)|
  {
    Linearizable(core, s, steps);
    Replay(core, View(s), CallsOf(After(core, s, steps), CommitOrder(core, s, steps))[..k]).0
  }

  /** The call at place `k` in the commit order of a run. */
  function CallAt<F, B, Op, R>(core: Core<F, B, Op, R>, s: State<F, B, Op, R>, steps: seq<Step<F, Op, R>>, k: nat):
    Thread<F, B, Op, R>
    requires Initial(s) && Feasible(core, s, steps) && k < |CommitOrder(core, s, steps)|
  {
    Linearizable(core, s, steps);
    After(core, s, steps).threads[CommitOrder(core, s, steps)[k]]
  }

  /** In every run, each call in the commit order is one whole call on what the
      whole calls before it left; and the mutexes show what the last one left. */
  lemma {:induction false} ServedWhole<F, B, Op, R>(core: Core<F, B, Op, R>, s: State<F, B, Op, R>,
                                                    steps: seq<Step<F, Op, R>>, k: nat)
    requires Initial(s) && Feasible(core, s, steps) && k < |CommitOrder(core, s, steps)|
    ensures var t := CallAt(core, s, steps, k);
            && Decided(t) && t.phase.reply != BadArg
            && Serve(core, WholeCalls(core, s, steps, k), t.call) == (WholeCalls(core, s, steps, k + 1), t.phase.reply)
    ensures WholeCalls(core, s, steps, |CommitOrder(core, s, steps)|) == View(After(core, s, steps))
  {
    Linearizable(core, s, steps);
    var calls := CallsOf(After(core, s, steps), CommitOrder(core, s, steps));
    ReplayAt(core, View(s), calls, k);
    assert calls[..|calls|] == calls;
  }

  /** A history is finished from what the whole calls before it left in the
      builder, never from half a recorded call, and finishing changes no content. */
  lemma {:induction false} FinishSeesWholeCalls<F, B, Op, R>(core: Core<F, B, Op, R>, s: State<F, B, Op, R>,
                                                             steps: seq<Step<F, Op, R>>, k: nat)
    requires Initial(s) && Feasible(core, s, steps) && k < |CommitOrder(core, s, steps)|
    requires CallAt(core, s, steps, k).call.Finish?
    ensures var t := CallAt(core, s, steps, k);
            var before, after := WholeCalls(core, s, steps, k), WholeCalls(core, s, steps, k + 1);
            var b := t.call.b;
            && Decided(t) && |after| == |before|
            && b < |before| && before[b].content.BuilderOf?
            && t.phase.reply == (if before[b].poisoned then PoisonedResource
                                 else Finished(core.finish(before[b].content.builder)))
            && forall i :: 0 <= i < |before| ==> after[i].content == before[i].content
  {
    ServedWhole(core, s, steps, k);
    FinishAlone(core, WholeCalls(core, s, steps, k), CallAt(core, s, steps, k).call.b);
  }

  /** In every run: a recorded call that meets a poisoned filter or builder changes
      no mutex and is refused; otherwise its filter and its builder, and no other
      mutex, move together to what one core call leaves, and a panic poisons both. */
  lemma {:induction false} RecordIsAllOrNothing<F, B, Op, R>(core: Core<F, B, Op, R>, s: State<F, B, Op, R>,
                                                             steps: seq<Step<F, Op, R>>, k: nat)
    requires Initial(s) && Feasible(core, s, steps) && k < |CommitOrder(core, s, steps)|
    requires CallAt(core, s, steps, k).call.Record?
    ensures var t := CallAt(core, s, steps, k);
            var before, after := WholeCalls(core, s, steps, k), WholeCalls(core, s, steps, k + 1);
            var f, b := t.call.f, t.call.b;
            && Decided(t)
            && f < |before| && before[f].content.FilterOf? && b < |before| && before[b].content.BuilderOf? && f != b
            && if before[f].poisoned || before[b].poisoned then after == before && t.phase.reply == PoisonedResource
               else
                 var w := core.record(t.call.op, before[f].content.filter, before[b].content.builder);
                 && after == before[f := Slot(FilterOf(w.end.0), w.outcome.Panicked?)]
                                   [b := Slot(BuilderOf(w.end.1), w.outcome.Panicked?)]
                 && t.phase.reply == Finished(w.outcome)
  {
    ServedWhole(core, s, steps, k);
    var call, before := CallAt(core, s, steps, k).call, WholeCalls(core, s, steps, k);
    assert Locks(call)[0] == call.f && Locks(call)[1] == call.b;
    assert WantsFilter(call, 0) && !WantsFilter(call, 1);
    RecordMeetsPoison(core, before, call.f, call.b, call.op);
  }

  // ---------------------------------------------------------------------
  // Poison
  // ---------------------------------------------------------------------

  lemma {:induction false} PoisonStepStays<F, B, Op, R>(
    core: Core<F, B, Op, R>, s: State<F, B, Op, R>, step: Step<F, Op, R>, i: nat)
    requires Inv(core, s) && Enabled(s, step) && i < |s.cells| && s.cells[i].poisoned
    ensures i < |Next(core, s, step).cells|
    ensures Next(core, s, step).cells[i].poisoned && Next(core, s, step).cells[i].content == s.cells[i].content
    ensures step.Advance? && i in Locks(s.threads[step.p].call) && !Decided(s.threads[step.p])
            && Decided(Next(core, s, step).threads[step.p])
            ==> Next(core, s, step).threads[step.p].phase.reply == PoisonedResource
  {
    if step.Advance? {
      var t := s.threads[step.p];
      assert ThreadOk(core, s.cells, t);
      assert Holds(t, i) <==> s.cells[i].holder == HeldBy(step.p);
      assert t.phase.Running? && i in Locks(t.call) ==> Holds(t, i);
      if s.cells[i].holder != HeldBy(step.p) && !Takes(s, t, i) { StepFrame(core, s, step.p, i); }
    }
  }

  /** Seen from `s`, in which mutex `i` was poisoned: it still is, with the same content,
      and every call on it that has decided since is answered `poisoned_resource`. */
  ghost predicate Contained<F, B, Op, R>(s: State<F, B, Op, R>, s': State<F, B, Op, R>, i: nat)
    requires i < |s.cells|
  {
    && i < |s'.cells| && s'.cells[i].poisoned && s'.cells[i].content == s.cells[i].content
    && |s.threads| <= |s'.threads|
    && forall p :: 0 <= p < |s'.threads| && i in Locks(s'.threads[p].call) && Decided(s'.threads[p])
                   && (p < |s.threads| ==> !Decided(s.threads[p]))
         ==> s'.threads[p].phase.reply == PoisonedResource
  }

  lemma {:induction false} ContainedStep<F, B, Op, R>(
    core: Core<F, B, Op, R>, s: State<F, B, Op, R>, s': State<F, B, Op, R>, step: Step<F, Op, R>, i: nat)
    requires i < |s.cells| && Contained(s, s', i) && Inv(core, s') && Enabled(s', step)
    ensures Contained(s, Next(core, s', step), i)
  {
    PoisonStepStays(core, s', step, i);
    if step.Advance? { StepDecides(core, s', step.p); }
  }

  /** Once a mutex is poisoned its content never changes again, and every call on
      it that had not decided by then is answered `poisoned_resource`. */
  lemma {:induction false} PoisonContained<F, B, Op, R>(
    core: Core<F, B, Op, R>, s: State<F, B, Op, R>, steps: seq<Step<F, Op, R>>, i: nat)
    requires Inv(core, s) && Feasible(core, s, steps) && i < |s.cells| && s.cells[i].poisoned
    ensures Contained(s, After(core, s, steps), i)
    decreases |steps|
  {
    if steps != [] {
      var n := |steps| - 1;
      PoisonContained(core, s, steps[..n], i);
      ContainedStep(core, s, After(core, s, steps[..n]), steps[n], i);
    }
  }

  /** A call that has not run the core, or has turned back without unwinding,
      steps without changing any content or poisoning any mutex. */
  lemma {:induction false} TurningBackTouchesNothing<F, B, Op, R>(
    core: Core<F, B, Op, R>, s: State<F, B, Op, R>, p: nat)
    requires Inv(core, s) && Enabled(s, Advance(p))
    requires s.threads[p].phase.Locking? || (s.threads[p].phase.Unlocking? && !s.threads[p].phase.unwinding)
    ensures var cells := Next(core, s, Advance(p)).cells;
            && |cells| == |s.cells|
            && forall i :: 0 <= i < |cells| ==>
                 cells[i].content == s.cells[i].content && cells[i].poisoned == s.cells[i].poisoned
  {
    assert ThreadOk(core, s.cells, s.threads[p]);
  }

  // ---------------------------------------------------------------------
  // Deadlock freedom and termination
  // ---------------------------------------------------------------------

  /** A holder of a builder waits for nothing, and a thread that waits for a lock
      while holding another waits for a builder and holds just its filter. */
  lemma {:induction false} WaitingOrder<F, B, Op, R>(core: Core<F, B, Op, R>, s: State<F, B, Op, R>, p: nat, i: nat)
    requires Inv(core, s) && p < |s.threads| && i < |s.cells|
    requires s.cells[i].holder == HeldBy(p) && Blocked(s, p)
    ensures s.cells[i].content.FilterOf?
    ensures s.threads[p].call.Record? && i == s.threads[p].call.f && s.threads[p].phase == Locking(1)
  {
    var t := s.threads[p];
    assert ThreadOk(core, s.cells, t);
    assert Holds(t, i);
    assert WantsFilter(t.call, 0);
    assert s.cells[Locks(t.call)[0]].content.FilterOf? == WantsFilter(t.call, 0);
  }

  /** While a call is unfinished some call can step: itself, the holder it waits
      for, or the holder that one waits for. */
  lemma {:induction false} NoDeadlock<F, B, Op, R>(
    core: Core<F, B, Op, R>, s: State<F, B, Op, R>, p: nat) returns (q: nat)
    requires Inv(core, s) && p < |s.threads| && !s.threads[p].phase.Returned?
    ensures Enabled(s, Advance(q))
  {
    q := p;
    if Blocked(s, p) {
      var i := Locks(s.threads[p].call)[s.threads[p].phase.held];
      q := s.cells[i].holder.thread;
      assert Holds(s.threads[q], i);
      if Blocked(s, q) {
        WaitingOrder(core, s, q, i);
        var t := s.threads[q];
        assert ThreadOk(core, s.cells, t);
        var b := Locks(t.call)[1];
        assert s.cells[b].content.FilterOf? == WantsFilter(t.call, 1);
        q := s.cells[b].holder.thread;
        assert Holds(s.threads[q], b);
        if Blocked(s, q) {
          WaitingOrder(core, s, q, b);
        }
      }
    }
  }

  function Unstarted<F, B, Op, R>(t: Thread<F, B, Op, R>): nat {
    if t.phase.Locking? then 1 else 0
  }

  function StepsLeft<F, B, Op, R>(core: Core<F, B, Op, R>, t: Thread<F, B, Op, R>): nat {
    match t.phase
    case Locking(k) => if k <= |Locks(t.call)| then |Locks(t.call)| - k else 0
    case Running(n, entry) =>
      if Fits(t.call, entry) && n <= |Execute(core, t.call, entry).scratch|
      then |Execute(core, t.call, entry).scratch| - n + |Locks(t.call)| + 2 else 0
    case Unlocking(k, _, _) => k + 1
    case Returned(_) => 0
  }

  function StillLocking<F, B, Op, R>(): Thread<F, B, Op, R> -> nat {
    (t: Thread<F, B, Op, R>) => Unstarted(t)
  }

  function Left<F, B, Op, R>(core: Core<F, B, Op, R>): Thread<F, B, Op, R> -> nat {
    (t: Thread<F, B, Op, R>) => StepsLeft(core, t)
  }

  /** The calls still locking, and the steps all calls have left. */
  function Measure<F, B, Op, R>(core: Core<F, B, Op, R>, s: State<F, B, Op, R>): (nat, nat) {
    (Sum(s.threads, StillLocking()),
     Sum(s.threads, Left(core)))
  }

  /** Every step of a call uses up the measure: fewer calls still locking, or as
      many and fewer steps left. */
  lemma {:induction false} StepDescends<F, B, Op, R>(core: Core<F, B, Op, R>, s: State<F, B, Op, R>, p: nat)
    requires Inv(core, s) && Enabled(s, Advance(p))
    ensures Below(Measure(core, Next(core, s, Advance(p))), Measure(core, s))
  {
    assert ThreadOk(core, s.cells, s.threads[p]);
    var t' := Next(core, s, Advance(p)).threads[p];
    SumUpdate(s.threads, p, t', StillLocking());
    SumUpdate(s.threads, p, t', Left(core));
  }

  /** Some call that was entered steps. */
  ghost predicate Moves<F, B, Op, R>(core: Core<F, B, Op, R>, s: State<F, B, Op, R>, s': State<F, B, Op, R>) {
    Inv(core, s) && exists p: nat :: Enabled(s, Advance(p)) && s' == Next(core, s, Advance(p))
  }

  lemma {:induction false} MovesDescend<F, B, Op, R>(
    core: Core<F, B, Op, R>, s: State<F, B, Op, R>, s': State<F, B, Op, R>)
    requires Moves(core, s, s')
    ensures Inv(core, s') && Below(Measure(core, s'), Measure(core, s))
  {
    var p: nat :| Enabled(s, Advance(p)) && s' == Next(core, s, Advance(p));
    StepKeepsInv(core, s, Advance(p));
    StepDescends(core, s, p);
  }

  /** Under every schedule of the calls entered so far, every call returns. */
  lemma {:induction false} EveryCallReturns<F(!new), B(!new), Op(!new), R(!new)>(
    core: Core<F, B, Op, R>, behaviour: nat -> State<F, B, Op, R>, from: nat) returns (n: nat)
    requires Schedule(behaviour, s => Inv(core, s), s => AllReturned(s), (s, s') => Moves(core, s, s'))
    requires Inv(core, behaviour(from))
    ensures n >= from && AllReturned(behaviour(n))
  {
    var good, done := (s: State<F, B, Op, R>) => Inv(core, s), (s: State<F, B, Op, R>) => AllReturned(s);
    var moves := (s: State<F, B, Op, R>, s': State<F, B, Op, R>) => Moves(core, s, s');
    var measure := (s: State<F, B, Op, R>) => Measure(core, s);
    forall s, s' | good(s) && moves(s, s')
      ensures good(s') && Below(measure(s'), measure(s))
    {
      MovesDescend(core, s, s');
    }
    n := EveryScheduleEnds(behaviour, good, done, moves, measure, from);
  }
}
