/**
  What holds of every run of concurrent calls on a single-flight owner or an open
  cache: it is linearizable, the owner is a linear token, the guard is there while
  publish and cleanup work, and every call returns. For read it is said exactly
  when the guard is sure to stay.
*/
module CacheTheorems {
  import opened Wrappers
  import opened Sequences
  import opened Schedules
  import opened CacheLock

  // ---------------------------------------------------------------------
  // Linearizability
  // ---------------------------------------------------------------------

  /** One call run alone: the slot and the poison it leaves, and its reply. */
  function Alone<T, R>(call: Call, slot: Option<T>, poisoned: bool, result: CoreResult<R>):
    (Option<T>, bool, Reply<R>)
  {
    if poisoned then (slot, true, if call.Read? then Closed else Poisoned)
    else if slot.None? then (None, false, if call.Abandon? || call.Close? then Done else Closed)
    else
      match AccessOf(call)
      case Borrow => (slot, result.Panicked?, Told(call, result))
      case Take => (None, false, if call.Close? then Done else Told(call, result))
      case Peek => (slot, false, Told(call, result))
  }

  /** The seven calls one by one: what each leaves in the slot, whether it poisons the
      mutex, and what it answers. */
  lemma {:induction false} CallsSpelledOut<T, R>(slot: Option<T>, poisoned: bool, result: CoreResult<R>)
    ensures Alone(Heartbeat, slot, poisoned, result) ==
            if poisoned then (slot, true, Poisoned) else if slot.None? then (slot, false, Closed)
            else if result.Panicked? then (slot, true, NifPanic) else (slot, false, Answer(result.term))
    ensures Alone(OwnerPublish, slot, poisoned, result) ==
            if poisoned then (slot, true, Poisoned) else if slot.None? then (None, false, Closed)
            else if result.Panicked? then (None, false, NifPanic) else (None, false, Answer(result.term))
    ensures Alone(Abandon, slot, poisoned, result) ==
            if poisoned then (slot, true, Poisoned) else if slot.None? then (None, false, Done)
            else if result.Panicked? then (None, false, NifPanic) else (None, false, Done)
    ensures Alone(Read, slot, poisoned, result) ==
            if poisoned || slot.None? then (slot, poisoned, Closed)
            else if result.Panicked? then (slot, false, NifPanic) else (slot, false, Answer(result.term))
    ensures Alone(Publish, slot, poisoned, result) == Alone(Heartbeat, slot, poisoned, result)
    ensures Alone(Cleanup, slot, poisoned, result) == Alone(Heartbeat, slot, poisoned, result)
    ensures Alone(Close, slot, poisoned, result) == if poisoned then (slot, true, Poisoned) else (None, false, Done)
  {
  }

  /** Calls one after the other, each with what the core says to it. */
  function Replay<T, R>(slot: Option<T>, calls: seq<(Call, CoreResult<R>)>): (r: (Option<T>, bool, seq<Reply<R>>))
    ensures |r.2| == |calls|
  {
    if calls == [] then (slot, false, [])
    else
      var n := |calls| - 1;
      var before := Replay(slot, calls[..n]);
      var last := Alone(calls[n].0, before.0, before.1, calls[n].1);
      (last.0, last.1, before.2 + [last.2])
  }

  /** The step in which a call takes effect: it takes, looks or is refused, or the
      core ends its work under the lock. */
  predicate CommitsNow<T, R>(s: State<T, R>, p: nat)
    requires p < |s.threads|
  {
    var t := s.threads[p];
    || t.phase.Borrowing?
    || (t.phase.Entered? && (!AccessOf(t.call).Borrow? || s.poisoned || s.slot.None?))
  }

  predicate InEffect<R>(t: Thread<R>) {
    !t.phase.Entered? && !t.phase.Borrowing?
  }

  /** The calls of a run, in the order in which they take effect. */
  function CommitOrder<T, R>(s: State<T, R>, steps: seq<Step<R>>): seq<nat>
    requires Feasible(s, steps)
  {
    if steps == [] then []
    else
      var n := |steps| - 1;
      var before := After(s, steps[..n]);
      CommitOrder(s, steps[..n]) +
      (if steps[n].Advance? && CommitsNow(before, steps[n].p) then [steps[n].p] else [])
  }

  /** `says` gives each call what the core has told it. */
  ghost predicate Heard<T, R>(s: State<T, R>, says: nat -> CoreResult<R>) {
    forall p :: 0 <= p < |s.threads| && s.threads[p].said.Some? ==> says(p) == s.threads[p].said.value
  }

  function CallsOf<T, R>(s: State<T, R>, order: seq<nat>, says: nat -> CoreResult<R>): (r: seq<(Call, CoreResult<R>)>)
    requires forall k :: 0 <= k < |order| ==> order[k] < |s.threads|
    ensures |r| == |order|
  {
    seq(|order|, k requires 0 <= k < |order| => (s.threads[order[k]].call, says(order[k])))
  }

  /** The reply a call in effect has decided on, or will when the core has spoken. */
  function Due<R>(t: Thread<R>, result: CoreResult<R>): Reply<R>
    requires InEffect(t)
  {
    if Decided(t) then t.phase.reply else Told(t.call, result)
  }

  ghost predicate ListsEffects<T, R>(s: State<T, R>, order: seq<nat>) {
    && Distinct(order)
    && (forall k :: 0 <= k < |order| ==> order[k] < |s.threads| && InEffect(s.threads[order[k]]))
    && (forall p :: 0 <= p < |s.threads| && InEffect(s.threads[p]) ==> p in order)
  }

  /** `order` is a one-at-a-time explanation of state `s`: it lists the calls that have
      taken effect, and running them alone gives the slot, the poison and every reply. */
  ghost predicate Explains<T, R>(slot: Option<T>, s: State<T, R>, order: seq<nat>, says: nat -> CoreResult<R>) {
    && ListsEffects(s, order)
    && var alone := Replay(slot, CallsOf(s, order, says));
    && s.slot == alone.0 && s.poisoned == alone.1
    && forall k :: 0 <= k < |order| ==> alone.2[k] == Due(s.threads[order[k]], says(order[k]))
  }

  /** From `s` to `s'` no call changes what it asks for or, but for `p`, what is due to it. */
  ghost predicate OnlyMoves<T, R>(s: State<T, R>, s': State<T, R>, p: nat, says: nat -> CoreResult<R>) {
    && |s.threads| <= |s'.threads|
    && (forall q :: 0 <= q < |s.threads| ==>
          && s'.threads[q].call == s.threads[q].call
          && (InEffect(s.threads[q]) ==>
                InEffect(s'.threads[q]) && Due(s'.threads[q], says(q)) == Due(s.threads[q], says(q)))
          && (q != p ==> InEffect(s'.threads[q]) == InEffect(s.threads[q])))
    && (forall q :: |s.threads| <= q < |s'.threads| ==> !InEffect(s'.threads[q]))
  }

  lemma {:induction false} ExplainsQuiet<T, R>(
    slot: Option<T>, s: State<T, R>, s': State<T, R>, order: seq<nat>, says: nat -> CoreResult<R>)
    requires Explains(slot, s, order, says) && OnlyMoves(s, s', |s.threads|, says)
    requires s'.slot == s.slot && s'.poisoned == s.poisoned
    ensures Explains(slot, s', order, says)
  {
    assert CallsOf(s', order, says) == CallsOf(s, order, says);
  }

  lemma {:induction false} EffectsGrow<T, R>(
    s: State<T, R>, s': State<T, R>, order: seq<nat>, p: nat, says: nat -> CoreResult<R>)
    requires ListsEffects(s, order) && OnlyMoves(s, s', p, says) && |s'.threads| == |s.threads|
    requires p < |s.threads| && !InEffect(s.threads[p]) && InEffect(s'.threads[p])
    ensures ListsEffects(s', order + [p])
  {
    var longer := order + [p];
    assert forall k :: 0 <= k < |order| ==> longer[k] == order[k] && order[k] != p;
    assert forall q :: q in longer <==> q in order || q == p;
  }

  lemma {:induction false} ExplainsCommit<T, R>(
    slot: Option<T>, s: State<T, R>, s': State<T, R>, order: seq<nat>, p: nat, says: nat -> CoreResult<R>)
    requires Explains(slot, s, order, says) && OnlyMoves(s, s', p, says) && |s'.threads| == |s.threads|
    requires p < |s.threads| && !InEffect(s.threads[p]) && InEffect(s'.threads[p])
    requires (s'.slot, s'.poisoned, Due(s'.threads[p], says(p))) ==
             Alone(s.threads[p].call, s.slot, s.poisoned, says(p))
    ensures Explains(slot, s', order + [p], says)
  {
    EffectsGrow(s, s', order, p, says);
    var calls, calls' := CallsOf(s, order, says), CallsOf(s', order + [p], says);
    assert calls'[..|order|] == calls && calls'[|order|] == (s.threads[p].call, says(p));
  }

  lemma {:induction false} StepMoves<T, R>(s: State<T, R>, p: nat, result: CoreResult<R>, says: nat -> CoreResult<R>)
    requires Inv(s) && Enabled(s, Advance(p, result)) && Heard(Next(s, Advance(p, result)), says)
    ensures OnlyMoves(s, Next(s, Advance(p, result)), p, says)
    ensures InEffect(Next(s, Advance(p, result)).threads[p]) <==> InEffect(s.threads[p]) || CommitsNow(s, p)
  {
    assert ThreadOk(s, p);
  }

  /** A step that takes effect does to the slot, the poison and the reply due what the
      call does alone. */
  lemma {:induction false} CommitIsAlone<T, R>(
    s: State<T, R>, p: nat, result: CoreResult<R>, says: nat -> CoreResult<R>)
    requires Inv(s) && Enabled(s, Advance(p, result)) && CommitsNow(s, p)
    requires Heard(Next(s, Advance(p, result)), says)
    ensures var s' := Next(s, Advance(p, result));
            && !InEffect(s.threads[p]) && InEffect(s'.threads[p])
            && (s'.slot, s'.poisoned, Due(s'.threads[p], says(p))) ==
               Alone(s.threads[p].call, s.slot, s.poisoned, says(p))
  {
    assert ThreadOk(s, p);
  }

  lemma {:induction false} QuietStep<T, R>(s: State<T, R>, p: nat, result: CoreResult<R>, says: nat -> CoreResult<R>)
    requires Inv(s) && Enabled(s, Advance(p, result)) && !CommitsNow(s, p)
    requires Heard(Next(s, Advance(p, result)), says)
    ensures var s' := Next(s, Advance(p, result));
            s'.slot == s.slot && s'.poisoned == s.poisoned && OnlyMoves(s, s', |s.threads|, says)
  {
    assert ThreadOk(s, p);
    StepMoves(s, p, result, says);
  }

  lemma {:induction false} ExplainsStep<T, R>(
    slot: Option<T>, s: State<T, R>, order: seq<nat>, step: Step<R>, says: nat -> CoreResult<R>)
    requires Inv(s) && Enabled(s, step) && Explains(slot, s, order, says) && Heard(Next(s, step), says)
    ensures var commits := step.Advance? && CommitsNow(s, step.p);
            Explains(slot, Next(s, step), order + (if commits then [step.p] else []), says)
  {
    var s' := Next(s, step);
    assert order + [] == order;
    match step
    case Enter(call) => ExplainsQuiet(slot, s, s', order, says);
    case Advance(p, result) =>
      if CommitsNow(s, p) {
        StepMoves(s, p, result, says);
        CommitIsAlone(s, p, result, says);
        ExplainsCommit(slot, s, s', order, p, says);
      } else {
        QuietStep(s, p, result, says);
        ExplainsQuiet(slot, s, s', order, says);
      }
  }

  lemma {:induction false} StepHeard<T, R>(s: State<T, R>, step: Step<R>, says: nat -> CoreResult<R>)
    requires Inv(s) && Enabled(s, step) && Heard(Next(s, step), says)
    ensures Heard(s, says)
  {
    var s' := Next(s, step);
    forall q | 0 <= q < |s.threads| && s.threads[q].said.Some?
      ensures says(q) == s.threads[q].said.value
    {
      assert ThreadOk(s, q);
      assert s'.threads[q].said == s.threads[q].said;
    }
  }

  lemma {:induction false} ExplainsRun<T, R>(value: T, steps: seq<Step<R>>, says: nat -> CoreResult<R>)
    requires Feasible(Opened<T, R>(value), steps) && Heard(After(Opened<T, R>(value), steps), says)
    ensures Explains(Some(value), After(Opened<T, R>(value), steps), CommitOrder(Opened<T, R>(value), steps), says)
    decreases |steps|
  {
    var s0 := Opened<T, R>(value);
    if steps == [] {
      assert CallsOf(s0, [], says) == [];
    } else {
      var n := |steps| - 1;
      var s := After(s0, steps[..n]);
      RunsKeepInv(s0, steps[..n]);
      StepHeard(s, steps[n], says);
      ExplainsRun<T, R>(value, steps[..n], says);
      ExplainsStep(Some(value), s, CommitOrder(s0, steps[..n]), steps[n], says);
    }
  }

  /** What the core has told each call, and a panic where it has said nothing yet. */
  function Words<T, R>(s: State<T, R>): nat -> CoreResult<R> {
    (p: nat) => if p < |s.threads| && s.threads[p].said.Some? then s.threads[p].said.value else Panicked
  }

  /** Every run leaves the slot, the poison and the replies that its calls leave when
      they run alone, one at a time, in the order in which they take effect. */
  lemma {:induction false} Linearizable<T, R>(value: T, steps: seq<Step<R>>)
    requires Feasible(Opened<T, R>(value), steps)
    ensures var s := After(Opened<T, R>(value), steps);
            Explains(Some(value), s, CommitOrder(Opened<T, R>(value), steps), Words(s))
  {
    ExplainsRun<T, R>(value, steps, Words(After(Opened<T, R>(value), steps)));
  }

  lemma {:induction false} OrderGrows<T, R>(s: State<T, R>, steps: seq<Step<R>>, i: nat)
    requires Feasible(s, steps) && i <= |steps| && Feasible(s, steps[..i])
    ensures CommitOrder(s, steps[..i]) <= CommitOrder(s, steps)
    decreases |steps|
  {
    if i == |steps| {
      assert steps[..i] == steps;
    } else {
      var n := |steps| - 1;
      assert steps[..n][..i] == steps[..i];
      OrderGrows(s, steps[..n], i);
    }
  }

  /** That order respects real time: a call answered before another was entered comes before it. */
  lemma {:induction false} RealTimeOrder<T, R>(value: T, steps: seq<Step<R>>, i: nat, j: nat, k: nat)
    requires Feasible(Opened<T, R>(value), steps) && i <= |steps| && Feasible(Opened<T, R>(value), steps[..i])
    ensures var seen, order := After(Opened<T, R>(value), steps[..i]), CommitOrder(Opened<T, R>(value), steps);
            && j < |order| && order[j] < |seen.threads| && seen.threads[order[j]].phase.Returned?
            && k < |order| && order[k] >= |seen.threads|
            ==> j < k
  {
    var s0 := Opened<T, R>(value);
    Linearizable<T, R>(value, steps);
    Linearizable<T, R>(value, steps[..i]);
    OrderGrows(s0, steps, i);
    var seen, order, early := After(s0, steps[..i]), CommitOrder(s0, steps), CommitOrder(s0, steps[..i]);
    if && j < |order| && order[j] < |seen.threads| && seen.threads[order[j]].phase.Returned?
       && k < |order| && order[k] >= |seen.threads|
    {
      PrefixFirst(early, order, |seen.threads|, j, k);
    }
  }

  // ---------------------------------------------------------------------
  // What calls answer
  // ---------------------------------------------------------------------

  /** The calls the core works for under the lock. */
  predicate UnderLock(call: Call) {
    call.Heartbeat? || call.Publish? || call.Cleanup?
  }

  /** The reply of a call and what the core told it agree with what the mutex holds. */
  ghost predicate Candid<T, R>(s: State<T, R>, t: Thread<R>) {
    match t.said
    case Some(Answered(x)) =>
      && Decided(t) && !t.call.Close?
      && t.phase.reply == if t.call.Abandon? then Done else Answer(x)
    case Some(Panicked) =>
      && Decided(t) && !t.call.Close? && t.phase.reply == NifPanic
      && (UnderLock(t.call) ==> s.poisoned)
    case None =>
      Decided(t) ==>
        match t.phase.reply
        case Done => (t.call.Close? || t.call.Abandon?) && s.slot.None? && (t.got ==> t.call.Close?)
        case Closed => !t.call.Close? && !t.call.Abandon? && !t.got && (s.slot.None? || (t.call.Read? && s.poisoned))
        case Poisoned => !t.call.Read? && !t.got && s.poisoned
        case _ => false
  }

  lemma {:induction false} CandidStep<T, R>(s: State<T, R>, step: Step<R>, q: nat)
    requires Inv(s) && Enabled(s, step) && q < |Next(s, step).threads|
    requires q < |s.threads| ==> Candid(s, s.threads[q])
    ensures Candid(Next(s, step), Next(s, step).threads[q])
  {
    if q < |s.threads| { assert ThreadOk(s, q); }
    if step.Advance? { assert ThreadOk(s, step.p); }
  }

  /** In every run: a call the core answered passes that answer on as it is, a call
      whose core panicked says so, and has poisoned its mutex if it was under the
      lock; a taken owner that was dropped and a taken guard are answered `:ok`; and a
      call is refused only for the slot or the mutex being as the refusal says. */
  lemma {:induction false} RepliesAreCandid<T, R>(value: T, steps: seq<Step<R>>, p: nat)
    requires Feasible(Opened<T, R>(value), steps) && p < |After(Opened<T, R>(value), steps).threads|
    ensures Candid(After(Opened<T, R>(value), steps), After(Opened<T, R>(value), steps).threads[p])
    decreases |steps|
  {
    var n := |steps| - 1;
    var before := After(Opened<T, R>(value), steps[..n]);
    RunsKeepInv(Opened<T, R>(value), steps[..n]);
    if p < |before.threads| { RepliesAreCandid<T, R>(value, steps[..n], p); }
    CandidStep(before, steps[n], p);
  }

  // ---------------------------------------------------------------------
  // The linear token
  // ---------------------------------------------------------------------

  predicate CoreAtWork<R>(t: Thread<R>) {
    t.phase.Borrowing? || (t.got && t.phase.Working?)
  }

  /** In every run: the value is in its slot exactly when no call has taken it, at
      most one call ever takes it, so publish and abandon never both get it; no
      publish starts or is answered by the core without it, so at most one ever is;
      and the core never works on the value for two calls at once. */
  lemma {:induction false} LinearToken<T, R>(value: T, steps: seq<Step<R>>)
    requires Feasible(Opened(value), steps)
    ensures var s := After(Opened<T, R>(value), steps);
            && (s.slot.Some? <==> forall p :: 0 <= p < |s.threads| ==> !s.threads[p].got)
            && (forall p, q :: 0 <= p < q < |s.threads| ==> !(s.threads[p].got && s.threads[q].got))
            && (forall p, q :: 0 <= p < q < |s.threads| ==> !(CoreAtWork(s.threads[p]) && CoreAtWork(s.threads[q])))
            && (forall p :: 0 <= p < |s.threads| && AccessOf(s.threads[p].call).Take? ==>
                  s.threads[p].phase.Outside? || s.threads[p].phase.Working? ==> s.threads[p].got)
            && (forall p :: 0 <= p < |s.threads| && s.threads[p].call.OwnerPublish? && Decided(s.threads[p]) ==>
                  (s.threads[p].got <==> CoreReplied(s.threads[p].phase.reply)))
  {
    RunsKeepInv(Opened<T, R>(value), steps);
    var s := After(Opened<T, R>(value), steps);
    forall p | 0 <= p < |s.threads|
      ensures ThreadOk(s, p) && (s.threads[p].got ==> s.slot.None?)
    {
      assert ThreadOk(s, p);
      if s.threads[p].got { OneTaker(s, p, p); }
    }
    forall p, q | 0 <= p < q < |s.threads|
      ensures !(s.threads[p].got && s.threads[q].got)
    {
      if s.threads[p].got { OneTaker(s, p, q); }
    }
    if forall p :: 0 <= p < |s.threads| ==> !s.threads[p].got {
      SumNothing(s.threads, Getting());
    }
  }

  predicate Undecided<R>(threads: seq<Thread<R>>, p: nat) {
    p < |threads| ==> threads[p].phase.Entered?
  }

  /** Seen from `s`, in which the value had been taken: it is still gone, nothing
      borrows it, nobody else got it, and a call that had not locked by then has
      not locked yet or is told so. */
  ghost predicate Gone<T, R>(s: State<T, R>, s': State<T, R>) {
    && s'.slot.None? && !s'.poisoned && |s.threads| <= |s'.threads|
    && (forall p :: 0 <= p < |s'.threads| ==> !s'.threads[p].phase.Borrowing?)
    && (forall p :: 0 <= p < |s'.threads| && s'.threads[p].got ==> p < |s.threads| && s.threads[p].got)
    && (forall p :: 0 <= p < |s'.threads| && Undecided(s.threads, p) && !s'.threads[p].phase.Entered? ==>
          && Decided(s'.threads[p])
          && s'.threads[p].phase.reply ==
             if s'.threads[p].call.Abandon? || s'.threads[p].call.Close? then Done else Closed)
  }

  lemma {:induction false} GoneStep<T, R>(s: State<T, R>, s': State<T, R>, step: Step<R>)
    requires Inv(s') && Gone(s, s') && Enabled(s', step)
    ensures Gone(s, Next(s', step))
  {
    if step.Advance? {
      assert ThreadOk(s', step.p);
    }
  }

  /** Once the value has been taken (a failed publish included) it is gone for
      good: no borrowing core call (heartbeat; cache publish, cleanup) runs or
      ever starts again, no other call gets it, and every call that had not
      locked yet is told so. */
  lemma {:induction false} TakenForGood<T, R>(s: State<T, R>, steps: seq<Step<R>>)
    requires Inv(s) && Feasible(s, steps) && s.slot.None?
    ensures Gone(s, After(s, steps))
    decreases |steps|
  {
    if steps == [] {
      forall p | 0 <= p < |s.threads|
        ensures !s.threads[p].phase.Borrowing?
      {
        assert ThreadOk(s, p);
      }
    } else {
      var n := |steps| - 1;
      TakenForGood(s, steps[..n]);
      RunsKeepInv(s, steps[..n]);
      GoneStep(s, After(s, steps[..n]), steps[n]);
    }
  }

  /** Seen from `s`, in which the mutex was poisoned: the value is still in its
      slot, nothing works on it, and a call that had not locked by then has not
      locked yet or is refused. */
  ghost predicate Stranded<T, R>(s: State<T, R>, s': State<T, R>) {
    && s'.poisoned && s'.slot == s.slot && |s.threads| <= |s'.threads|
    && (forall p :: 0 <= p < |s'.threads| ==> !s'.threads[p].phase.Borrowing? && !s'.threads[p].got)
    && (forall p :: 0 <= p < |s'.threads| && Undecided(s.threads, p) && !s'.threads[p].phase.Entered? ==>
          && Decided(s'.threads[p])
          && s'.threads[p].phase.reply == if s'.threads[p].call.Read? then Closed else Poisoned)
  }

  lemma {:induction false} StrandedStep<T, R>(s: State<T, R>, s': State<T, R>, step: Step<R>)
    requires Inv(s') && Stranded(s, s') && Enabled(s', step)
    ensures Stranded(s, Next(s', step))
  {
    if step.Advance? {
      assert ThreadOk(s', step.p);
    }
  }

  /** A core call that panics under the lock strands the value: it stays in its
      slot for good, no core call on it starts again, close and abandon included,
      and every call that had not locked yet is refused. */
  lemma {:induction false} PoisonStrands<T, R>(s: State<T, R>, steps: seq<Step<R>>)
    requires Inv(s) && Feasible(s, steps) && s.poisoned
    ensures Stranded(s, After(s, steps))
    decreases |steps|
  {
    if steps == [] {
      forall p | 0 <= p < |s.threads|
        ensures !s.threads[p].phase.Borrowing? && !s.threads[p].got
      {
        assert ThreadOk(s, p);
        if s.threads[p].got { OneTaker(s, p, p); }
      }
    } else {
      var n := |steps| - 1;
      PoisonStrands(s, steps[..n]);
      RunsKeepInv(s, steps[..n]);
      StrandedStep(s, After(s, steps[..n]), steps[n]);
    }
  }

  // ---------------------------------------------------------------------
  // The guarded cache
  // ---------------------------------------------------------------------

  /** Whenever a core publish or cleanup of the open cache, or a heartbeat, is past its
      lock and not decided, the value is in place and the mutex is that call's. */
  lemma {:induction false} GuardedWork<T, R>(value: T, steps: seq<Step<R>>, p: nat)
    requires Feasible(Opened(value), steps)
    requires p < |After(Opened<T, R>(value), steps).threads|
    requires UnderLock(After(Opened<T, R>(value), steps).threads[p].call)
    requires !After(Opened<T, R>(value), steps).threads[p].phase.Entered?
    requires !Decided(After(Opened<T, R>(value), steps).threads[p])
    ensures After(Opened<T, R>(value), steps).slot == Some(value)
    ensures After(Opened<T, R>(value), steps).holder == Some(p)
  {
    RunsKeepInv(Opened<T, R>(value), steps);
    assert ThreadOk(After(Opened<T, R>(value), steps), p);
    SlotIsValue(value, steps);
  }

  /** The core works or has worked for this call. */
  predicate ReachedCore<R>(t: Thread<R>) {
    t.phase.Outside? || t.phase.Working? || (Decided(t) && CoreReplied(t.phase.reply))
  }

  /** A read reaches the core only from a look that finds the guard. */
  lemma {:induction false} LookFindsGuard<T, R>(s: State<T, R>, step: Step<R>, p: nat)
    requires Inv(s) && Enabled(s, step) && p < |Next(s, step).threads|
    requires Next(s, step).threads[p].call.Read? && ReachedCore(Next(s, step).threads[p])
    ensures p < |s.threads| && s.threads[p].call.Read?
    ensures ReachedCore(s.threads[p]) || (s.threads[p].phase.Entered? && s.slot.Some? && !s.poisoned)
  {
    if p < |s.threads| { assert ThreadOk(s, p); }
  }

  /** A read that reached the core, answered by now or not, had at some moment
      after it was entered the guard in place. */
  lemma {:induction false} ReadSawGuard<T, R>(value: T, steps: seq<Step<R>>, p: nat) returns (i: nat)
    requires Feasible(Opened(value), steps)
    requires p < |After(Opened<T, R>(value), steps).threads|
    requires After(Opened<T, R>(value), steps).threads[p].call.Read?
    requires ReachedCore(After(Opened<T, R>(value), steps).threads[p])
    ensures i < |steps| && Feasible(Opened(value), steps[..i])
    ensures var seen := After(Opened<T, R>(value), steps[..i]);
            p < |seen.threads| && seen.threads[p].phase.Entered? && seen.slot == Some(value) && !seen.poisoned
    decreases |steps|
  {
    var n := |steps| - 1;
    var before := After(Opened<T, R>(value), steps[..n]);
    RunsKeepInv(Opened<T, R>(value), steps[..n]);
    LookFindsGuard(before, steps[n], p);
    if ReachedCore(before.threads[p]) {
      i := ReadSawGuard(value, steps[..n], p);
      assert steps[..n][..i] == steps[..i];
    } else {
      SlotIsValue(value, steps[..n]);
      i := n;
    }
  }

  /** The calls on an open cache, as against those on a single-flight owner. */
  predicate OnCache(call: Call) {
    call.Read? || call.Publish? || call.Cleanup? || call.Close?
  }

  /** A run of an open cache: nothing but its calls is entered. */
  predicate CacheRun<R>(steps: seq<Step<R>>) {
    forall i :: 0 <= i < |steps| && steps[i].Enter? ==> OnCache(steps[i].call)
  }

  predicate CacheCalls<T, R>(s: State<T, R>) {
    forall p :: 0 <= p < |s.threads| ==> OnCache(s.threads[p].call)
  }

  predicate NoClose<T, R>(s: State<T, R>) {
    forall p :: 0 <= p < |s.threads| ==> !s.threads[p].call.Close?
  }

  /** A close that is past the lock has emptied the slot, has found it empty, or was
      refused for poison; it says `:ok` in the first two cases only. */
  predicate ClosesTell<T, R>(s: State<T, R>) {
    forall p :: 0 <= p < |s.threads| && s.threads[p].call.Close? && !s.threads[p].phase.Entered? ==>
      && Decided(s.threads[p])
      && (if s.threads[p].phase.reply == Done then s.slot.None?
          else s.threads[p].phase.reply == Poisoned && s.poisoned)
  }

  lemma {:induction false} ClosesTellStep<T, R>(s: State<T, R>, step: Step<R>)
    requires Inv(s) && Enabled(s, step) && ClosesTell(s)
    ensures ClosesTell(Next(s, step))
  {
    if step.Advance? { assert ThreadOk(s, step.p); }
  }

  lemma {:induction false} ClosesTellRun<T, R>(value: T, steps: seq<Step<R>>)
    requires Feasible(Opened<T, R>(value), steps)
    ensures ClosesTell(After(Opened<T, R>(value), steps))
    decreases |steps|
  {
    if steps != [] {
      var n := |steps| - 1;
      ClosesTellRun<T, R>(value, steps[..n]);
      RunsKeepInv(Opened<T, R>(value), steps[..n]);
      ClosesTellStep(After(Opened<T, R>(value), steps[..n]), steps[n]);
    }
  }

  lemma {:induction false} CacheCallsRun<T, R>(s: State<T, R>, steps: seq<Step<R>>)
    requires Feasible(s, steps) && CacheRun(steps) && CacheCalls(s)
    ensures CacheCalls(After(s, steps))
    decreases |steps|
  {
    if steps != [] { CacheCallsRun(s, steps[..|steps| - 1]); }
  }

  predicate CloseTook<R>(t: Thread<R>) {
    t.call.Close? && t.got
  }

  lemma {:induction false} TakenByClose<T, R>(s: State<T, R>)
    requires Inv(s) && CacheCalls(s)
    ensures s.slot.None? <==> exists p :: 0 <= p < |s.threads| && CloseTook(s.threads[p])
  {
    if forall p :: 0 <= p < |s.threads| ==> !s.threads[p].got {
      SumNothing(s.threads, Getting());
    } else {
      var p :| 0 <= p < |s.threads| && s.threads[p].got;
      assert ThreadOk(s, p) && OnCache(s.threads[p].call);
      assert CloseTook(s.threads[p]);
      OneTaker(s, p, p);
    }
  }

  /** The guard is there or gone; it is gone if and only if a close has taken it, at
      the latest once any close has been answered `:ok`, and not while none is entered. */
  ghost predicate GuardTells<T, R>(s: State<T, R>, value: T) {
    && (s.slot == Some(value) || s.slot == None)
    && (s.slot == None <==> exists p :: 0 <= p < |s.threads| && CloseTook(s.threads[p]))
    && (forall p :: 0 <= p < |s.threads| && s.threads[p].call.Close? && s.threads[p].phase == Returned(Done) ==>
          s.slot == None)
    && (NoClose(s) ==> s.slot == Some(value))
  }

  lemma {:induction false} ClosesTellGuard<T, R>(s: State<T, R>, value: T)
    requires Inv(s) && CacheCalls(s) && ClosesTell(s) && (s.slot.Some? ==> s.slot.value == value)
    ensures GuardTells(s, value)
  {
    TakenByClose(s);
  }

  /** So it is in every run of a cache, at every moment, and while any read works. */
  lemma {:induction false} GuardUntilTaken<T, R>(value: T, steps: seq<Step<R>>)
    requires Feasible(Opened<T, R>(value), steps) && CacheRun(steps)
    ensures GuardTells(After(Opened<T, R>(value), steps), value)
  {
    SlotIsValue<T, R>(value, steps);
    ClosesTellRun<T, R>(value, steps);
    CacheCallsRun(Opened<T, R>(value), steps);
    RunsKeepInv(Opened<T, R>(value), steps);
    ClosesTellGuard(After(Opened<T, R>(value), steps), value);
  }

  lemma {:induction false} NoneEntered<T, R>(value: T, steps: seq<Step<R>>)
    requires Feasible(Opened<T, R>(value), steps)
    requires forall i :: 0 <= i < |steps| ==> steps[i] != Enter(Close)
    ensures NoClose(After(Opened<T, R>(value), steps))
    decreases |steps|
  {
    if steps != [] { NoneEntered<T, R>(value, steps[..|steps| - 1]); }
  }

  /** What a caller can arrange: if no close has been entered by the time its read
      returns, the guard was in place throughout, for the whole of the core's read. */
  lemma {:induction false} ReadUnderGuard<T, R>(value: T, steps: seq<Step<R>>, i: nat)
    requires Feasible(Opened<T, R>(value), steps) && CacheRun(steps) && i <= |steps|
    requires forall j :: 0 <= j < |steps| ==> steps[j] != Enter(Close)
    ensures Feasible(Opened<T, R>(value), steps[..i]) && After(Opened<T, R>(value), steps[..i]).slot == Some(value)
  {
    Earlier(Opened<T, R>(value), steps, i);
    NoneEntered<T, R>(value, steps[..i]);
    GuardUntilTaken<T, R>(value, steps[..i]);
  }

  // ---------------------------------------------------------------------
  // When the guard is sure to stay
  // ---------------------------------------------------------------------

  /** Whatever the calls that have been entered do, the guard is in place. */
  ghost predicate GuardStays<T(!new), R(!new)>(s: State<T, R>, value: T) {
    forall more: seq<Step<R>> :: (forall i :: 0 <= i < |more| ==> more[i].Advance?) && Feasible(s, more) ==>
      After(s, more).slot == Some(value)
  }

  lemma {:induction false} NobodyTakes<T, R>(s: State<T, R>, more: seq<Step<R>>)
    requires Feasible(s, more) && CacheCalls(s) && NoClose(s)
    requires forall i :: 0 <= i < |more| ==> more[i].Advance?
    ensures var s' := After(s, more);
            s'.slot == s.slot && CacheCalls(s') && NoClose(s')
    decreases |more|
  {
    if more != [] { NobodyTakes(s, more[..|more| - 1]); }
  }

  lemma {:induction false} OneMore<T, R>(s: State<T, R>, steps: seq<Step<R>>, step: Step<R>)
    requires Feasible(s, steps) && Enabled(After(s, steps), step)
    ensures Feasible(s, steps + [step]) && After(s, steps + [step]) == Next(After(s, steps), step)
  {
    assert (steps + [step])[..|steps|] == steps;
  }

  /** A holder the core answers lets go and changes nothing else. */
  lemma {:induction false} HolderLetsGo<T, R>(s: State<T, R>, q: nat, p: nat, term: R)
    requires Inv(s) && s.holder == Some(q) && p < |s.threads| && s.threads[p].phase.Entered?
    ensures Enabled(s, Advance(q, Answered(term)))
    ensures var s' := Next(s, Advance(q, Answered(term)));
            s'.holder == None && s'.slot == s.slot && !s'.poisoned && |s'.threads| == |s.threads|
            && s'.threads[p] == s.threads[p]
  {
    assert ThreadOk(s, q);
  }

  lemma {:induction false} FreeCloseTakes<T, R>(s: State<T, R>, p: nat, result: CoreResult<R>)
    requires s.slot.Some? && !s.poisoned && s.holder.None?
    requires p < |s.threads| && s.threads[p].call.Close? && s.threads[p].phase.Entered?
    ensures Enabled(s, Advance(p, result)) && Next(s, Advance(p, result)).slot == None
  {
  }

  /** A pending close can take the guard: at once, or after the holder is done. */
  lemma {:induction false} CloseCanTake<T, R>(s: State<T, R>, p: nat, term: R) returns (more: seq<Step<R>>)
    requires Inv(s) && s.slot.Some? && !s.poisoned
    requires p < |s.threads| && s.threads[p].call.Close? && s.threads[p].phase.Entered?
    ensures forall i :: 0 <= i < |more| ==> more[i].Advance?
    ensures Feasible(s, more) && After(s, more).slot == None
  {
    var take: Step<R> := Advance(p, Answered(term));
    if s.holder.None? {
      FreeCloseTakes(s, p, Answered(term));
      OneMore(s, [], take);
      more := [] + [take];
    } else {
      var q := s.holder.value;
      var free: Step<R> := Advance(q, Answered(term));
      HolderLetsGo(s, q, p, term);
      OneMore(s, [], free);
      FreeCloseTakes(After(s, [] + [free]), p, Answered(term));
      OneMore(s, [] + [free], take);
      more := [] + [free] + [take];
    }
  }

  lemma {:induction false} SureToStay<T(!new), R(!new)>(s: State<T, R>, value: T)
    requires Inv(s) && CacheCalls(s) && s.slot == Some(value) && (s.poisoned || NoClose(s))
    ensures GuardStays(s, value)
  {
    forall more: seq<Step<R>> | (forall i :: 0 <= i < |more| ==> more[i].Advance?) && Feasible(s, more)
      ensures After(s, more).slot == Some(value)
    {
      if s.poisoned { PoisonStrands(s, more); } else { NobodyTakes(s, more); }
    }
  }

  lemma {:induction false} NotSureToStay<T(!new), R(!new)>(s: State<T, R>, value: T, term: R)
    requires Inv(s) && ClosesTell(s) && (s.slot.None? || (!s.poisoned && !NoClose(s)))
    ensures !GuardStays(s, value)
  {
    var more: seq<Step<R>> := [];
    if s.slot.Some? {
      var p :| 0 <= p < |s.threads| && s.threads[p].call.Close?;
      more := CloseCanTake(s, p, term);
    }
    assert Feasible(s, more) && After(s, more).slot == None;
  }

  /** The guard is sure to stay in place, whatever the calls entered so far do next, if
      and only if it is there now and either its mutex is poisoned or no close has
      been entered. (`term` is any term at all the core could answer with.) */
  lemma {:induction false} GuardIsSafe<T(!new), R(!new)>(value: T, steps: seq<Step<R>>, term: R)
    requires Feasible(Opened<T, R>(value), steps) && CacheRun(steps)
    ensures var s := After(Opened<T, R>(value), steps);
            GuardStays(s, value) <==> s.slot.Some? && (s.poisoned || NoClose(s))
  {
    var s := After(Opened<T, R>(value), steps);
    RunsKeepInv(Opened<T, R>(value), steps);
    SlotIsValue<T, R>(value, steps);
    CacheCallsRun(Opened<T, R>(value), steps);
    ClosesTellRun<T, R>(value, steps);
    if s.slot.Some? && (s.poisoned || NoClose(s)) { SureToStay(s, value); } else { NotSureToStay(s, value, term); }
  }

  /** Two ways for a core read to work without the guard: a close slips in between
      the look and the read, and is answered, or is still to be answered. */
  lemma {:induction false} ReadCanOutliveGuard<T, R>(value: T, r: R, answered: bool)
    ensures var go := Answered(r);
            var steps := [Enter(Read), Advance(0, go), Enter(Close), Advance(1, go), Advance(0, go)]
                         + (if answered then [Advance(1, go)] else []);
            && CacheRun(steps) && Feasible(Opened<T, R>(value), steps)
            && var s := After(Opened<T, R>(value), steps);
            && |s.threads| == 2 && s.threads[0].call.Read? && s.threads[0].phase.Working? && s.slot.None?
            && (if answered then s.threads[1].phase == Returned(Done) else s.threads[1].phase == Leaving(Done))
  {
    var go := Answered(r);
    var s0 := Opened<T, R>(value);
    var a: seq<Step<R>> := [Enter(Read)];
    OneMore(s0, [], Enter(Read));
    assert [] + a == a;
    OneMore(s0, a, Advance(0, go));
    var b := a + [Advance(0, go)];
    OneMore(s0, b, Enter(Close));
    var c := b + [Enter(Close)];
    OneMore(s0, c, Advance(1, go));
    var d := c + [Advance(1, go)];
    OneMore(s0, d, Advance(0, go));
    var e := d + [Advance(0, go)];
    assert e == [Enter(Read), Advance(0, go), Enter(Close), Advance(1, go), Advance(0, go)];
    if answered { OneMore(s0, e, Advance(1, go)); } else { assert e + [] == e; }
  }

  // ---------------------------------------------------------------------
  // Every call returns
  // ---------------------------------------------------------------------

  predicate AllReturned<T, R>(s: State<T, R>) {
    forall p :: 0 <= p < |s.threads| ==> s.threads[p].phase.Returned?
  }

  /** While a call is unfinished some call can step, whatever the core says to it:
      the call itself, or the holder it waits for. */
  lemma {:induction false} NoDeadlock<T, R>(s: State<T, R>, p: nat, result: CoreResult<R>) returns (q: nat)
    requires Inv(s) && p < |s.threads| && !s.threads[p].phase.Returned?
    ensures Enabled(s, Advance(q, result))
  {
    q := p;
    if s.threads[p].phase.Entered? && s.holder.Some? {
      q := s.holder.value;
      assert ThreadOk(s, q);
    }
  }

  function StepsLeft<R>(t: Thread<R>): nat {
    match t.phase
    case Entered => 4
    case Outside => 3
    case Borrowing => 2
    case Working => 2
    case Leaving(_) => 1
    case Returned(_) => 0
  }

  function Left<R>(): Thread<R> -> nat {
    (t: Thread<R>) => StepsLeft(t)
  }

  function Measure<T, R>(s: State<T, R>): (nat, nat) {
    (0, Sum(s.threads, Left()))
  }

  /** Some call that was entered steps. */
  ghost predicate Moves<T(!new), R(!new)>(s: State<T, R>, s': State<T, R>) {
    exists p: nat, result :: Enabled(s, Advance(p, result)) && s' == Next(s, Advance(p, result))
  }

  lemma {:induction false} StepDescends<T, R>(s: State<T, R>, p: nat, result: CoreResult<R>)
    requires Enabled(s, Advance(p, result))
    ensures Below(Measure(Next(s, Advance(p, result))), Measure(s))
  {
    SumUpdate(s.threads, p, Next(s, Advance(p, result)).threads[p], Left());
  }

  lemma {:induction false} MovesDescend<T(!new), R(!new)>(s: State<T, R>, s': State<T, R>)
    requires Inv(s) && Moves(s, s')
    ensures Inv(s') && Below(Measure(s'), Measure(s))
  {
    var p: nat, result :| Enabled(s, Advance(p, result)) && s' == Next(s, Advance(p, result));
    StepKeepsInv(s, Advance(p, result));
    StepDescends(s, p, result);
  }

  /** Under every schedule, whatever the core says, every call returns. */
  lemma {:induction false} EveryCallReturns<T(!new), R(!new)>(behaviour: nat -> State<T, R>, from: nat)
    returns (n: nat)
    requires Schedule(behaviour, s => Inv(s), s => AllReturned(s), (s, s') => Moves(s, s'))
    requires Inv(behaviour(from))
    ensures n >= from && AllReturned(behaviour(n))
  {
    var good, done, moves := (s: State<T, R>) => Inv(s), (s: State<T, R>) => AllReturned(s),
                             (s: State<T, R>, s': State<T, R>) => Moves(s, s');
    var measure := (s: State<T, R>) => Measure(s);
    forall s, s' | good(s) && moves(s, s')
      ensures good(s') && Below(measure(s'), measure(s))
    {
      MovesDescend(s, s');
    }
    n := EveryScheduleEnds(behaviour, good, done, moves, measure, from);
  }

  // ---------------------------------------------------------------------
  // A call on an idle resource
  // ---------------------------------------------------------------------

  /** How far a lone call has come, entered on an idle resource in state `s`. */
  ghost predicate Progressed<T, R>(s: State<T, R>, s': State<T, R>, call: Call, result: CoreResult<R>) {
    var p := |s.threads|;
    && |s'.threads| == p + 1 && s'.threads[..p] == s.threads && s'.threads[p].call == call
    && var r := Alone(call, s.slot, s.poisoned, result);
    match s'.threads[p].phase
    case Entered => s'.slot == s.slot && s'.poisoned == s.poisoned && s'.holder.None?
    case Borrowing => AccessOf(call).Borrow? && s.slot.Some? && !s.poisoned
                      && s'.slot == s.slot && s'.holder == Some(p) && !s'.poisoned
    case Leaving(reply) => s'.slot == r.0 && s'.poisoned == r.1 && s'.holder.None? && reply == r.2
    case Returned(reply) => s'.slot == r.0 && s'.poisoned == r.1 && s'.holder.None? && reply == r.2
    case _ => !AccessOf(call).Borrow? && !call.Close? && s.slot.Some? && !s.poisoned
              && s'.slot == r.0 && !s'.poisoned && s'.holder.None?
  }

  lemma {:induction false} LoneStep<T, R>(s: State<T, R>, s': State<T, R>, call: Call, result: CoreResult<R>)
    requires Progressed(s, s', call, result) && !s'.threads[|s.threads|].phase.Returned?
    ensures Enabled(s', Advance(|s.threads|, result))
    ensures var s'' := Next(s', Advance(|s.threads|, result));
            && Progressed(s, s'', call, result)
            && StepsLeft(s''.threads[|s.threads|]) < StepsLeft(s'.threads[|s.threads|])
  {
  }

  /** On an idle resource the machine runs a lone call to exactly the end `Alone` gives. */
  lemma {:induction false} RunsAlone<T, R>(s: State<T, R>, call: Call, result: CoreResult<R>)
    returns (steps: seq<Step<R>>)
    requires Inv(s) && s.holder.None?
    ensures Feasible(s, steps)
    ensures var s' := After(s, steps);
            Progressed(s, s', call, result) && s'.threads[|s.threads|].phase.Returned?
  {
    OneMore(s, [], Enter(call));
    steps := [] + [Enter(call)];
    while !After(s, steps).threads[|s.threads|].phase.Returned?
      invariant Feasible(s, steps) && Progressed(s, After(s, steps), call, result)
      decreases StepsLeft(After(s, steps).threads[|s.threads|])
    {
      LoneStep(s, After(s, steps), call, result);
      OneMore(s, steps, Advance(|s.threads|, result));
      steps := steps + [Advance(|s.threads|, result)];
    }
  }
}
