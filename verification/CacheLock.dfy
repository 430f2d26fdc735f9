/**
  The exact-product cache's single-flight owner and its open-cache guard as a
  transition system (native/sidereon_nif/src/cache_lock.rs).

  Both resources are one `Mutex<Option<_>>` that starts full. A call uses it in
  one of three ways: it borrows the value and keeps the mutex locked while the
  core works (owner heartbeat; cache publish and cleanup), it takes the value out
  and works after unlocking (owner publish and abandon) or drops it at once (cache
  close), or it only looks whether the value is there and works after unlocking
  (cache read). What a call does under the lock and what it answers are separate
  steps, with any other call's steps in between. What the core answers is decided
  outside, so each step carries it.
*/
module CacheLock {
  import opened Wrappers
  import opened Sequences

  datatype Call = Heartbeat | OwnerPublish | Abandon | Read | Publish | Cleanup | Close

  datatype Access = Borrow | Take | Peek

  function AccessOf(call: Call): Access {
    match call
    case Heartbeat => Borrow
    case OwnerPublish => Take
    case Abandon => Take
    case Read => Peek
    case Publish => Borrow
    case Cleanup => Borrow
    case Close => Take
  }

  datatype CoreResult<R> = Answered(term: R) | Panicked

  datatype Reply<R> =
    | Answer(term: R)
    | Done                // :ok with nothing left to do
    | Closed              // "... is closed"
    | Poisoned            // "... was poisoned"
    | NifPanic

  datatype Phase<R> =
    | Entered                  // about to lock
    | Borrowing                // core at work, mutex locked
    | Outside                  // mutex unlocked, core not begun
    | Working                  // core at work, mutex unlocked
    | Leaving(reply: Reply<R>) // done, not answered yet
    | Returned(reply: Reply<R>)

  /** `got`: this call took the value out of the slot. `said`: what the core told it. */
  datatype Thread<R> = Thread(call: Call, phase: Phase<R>, got: bool, said: Option<CoreResult<R>>)

  datatype State<T, R> = State(slot: Option<T>, poisoned: bool, holder: Option<nat>, threads: seq<Thread<R>>)

  datatype Step<R> = Enter(call: Call) | Advance(p: nat, result: CoreResult<R>)

  predicate Enabled<T, R>(s: State<T, R>, step: Step<R>) {
    match step
    case Enter(_) => true
    case Advance(p, _) =>
      && p < |s.threads| && !s.threads[p].phase.Returned?
      && (s.threads[p].phase.Entered? ==> s.holder.None?)
  }

  /** Abandon only drops what it took, so it has nothing to report but `:ok`. */
  function Told<R>(call: Call, result: CoreResult<R>): Reply<R> {
    if result.Panicked? then NifPanic else if call.Abandon? then Done else Answer(result.term)
  }

  /** The state but for `threads[p]`, and the thread call `p` becomes. */
  function StepOf<T, R>(s: State<T, R>, p: nat, result: CoreResult<R>): (State<T, R>, Thread<R>)
    requires Enabled(s, Advance(p, result))
  {
    var t := s.threads[p];
    match t.phase
    case Entered =>
      (match AccessOf(t.call)
       case Borrow =>
         if s.poisoned then (s, t.(phase := Leaving(Poisoned)))
         else if s.slot.None? then (s, t.(phase := Leaving(Closed)))
         else (s.(holder := Some(p)), t.(phase := Borrowing))
       case Take =>
         if s.poisoned then (s, t.(phase := Leaving(Poisoned)))
         else if s.slot.None? then (s, t.(phase := Leaving(if t.call.OwnerPublish? then Closed else Done)))
         else (s.(slot := None), t.(phase := if t.call.Close? then Leaving(Done) else Outside, got := true))
       case Peek =>
         if s.poisoned || s.slot.None? then (s, t.(phase := Leaving(Closed)))
         else (s, t.(phase := Outside)))
    case Borrowing =>
      (s.(holder := None, poisoned := result.Panicked?),
       t.(phase := Leaving(Told(t.call, result)), said := Some(result)))
    case Outside => (s, t.(phase := Working))
    case Working => (s, t.(phase := Leaving(Told(t.call, result)), said := Some(result)))
    case Leaving(reply) => (s, t.(phase := Returned(reply)))
  }

  function Next<T, R>(s: State<T, R>, step: Step<R>): State<T, R>
    requires Enabled(s, step)
  {
    match step
    case Enter(call) => s.(threads := s.threads + [Thread(call, Entered, false, None)])
    case Advance(p, result) =>
      var r := StepOf(s, p, result);
      r.0.(threads := s.threads[p := r.1])
  }

  function Opened<T, R>(value: T): State<T, R> {
    State(Some(value), false, None, [])
  }

  predicate Feasible<T, R>(s: State<T, R>, steps: seq<Step<R>>)
    decreases |steps|, 0
  {
    steps == [] ||
    var n := |steps| - 1;
    Feasible(s, steps[..n]) && Enabled(After(s, steps[..n]), steps[n])
  }

  function After<T, R>(s: State<T, R>, steps: seq<Step<R>>): State<T, R>
    requires Feasible(s, steps)
    decreases |steps|, 1
  {
    if steps == [] then s else Next(After(s, steps[..|steps| - 1]), steps[|steps| - 1])
  }

  // ---------------------------------------------------------------------
  // What every step keeps
  // ---------------------------------------------------------------------

  function GotOne<R>(t: Thread<R>): nat {
    if t.got then 1 else 0
  }

  function Getting<R>(): Thread<R> -> nat {
    (t: Thread<R>) => GotOne(t)
  }

  /** How many calls have taken the value out. */
  function Takers<R>(threads: seq<Thread<R>>): nat {
    Sum(threads, Getting())
  }

  predicate Decided<R>(t: Thread<R>) {
    t.phase.Leaving? || t.phase.Returned?
  }

  /** The reply is the core's own word, or its panic. */
  predicate CoreReplied<R>(reply: Reply<R>) {
    reply.Answer? || reply.NifPanic?
  }

  predicate ThreadOk<T, R>(s: State<T, R>, p: nat)
    requires p < |s.threads|
  {
    var t := s.threads[p];
    && (t.phase.Borrowing? <==> s.holder == Some(p))
    && (t.phase.Borrowing? ==> AccessOf(t.call).Borrow? && s.slot.Some? && !s.poisoned)
    && (t.phase.Outside? || t.phase.Working? ==>
          !t.call.Close? && if AccessOf(t.call).Take? then t.got else AccessOf(t.call).Peek?)
    && (t.got ==> AccessOf(t.call).Take? && !t.phase.Entered?)
    && (t.call.OwnerPublish? && Decided(t) ==> (t.got <==> CoreReplied(t.phase.reply)))
    && (t.said.Some? ==> Decided(t))
  }

  /** The value is in exactly one place: its slot, or the one call that took it. */
  predicate Inv<T, R>(s: State<T, R>) {
    && Takers(s.threads) + (if s.slot.Some? then 1 else 0) == 1
    && (forall p :: 0 <= p < |s.threads| ==> ThreadOk(s, p))
    && (s.poisoned ==> s.slot.Some? && s.holder.None?)
    && (s.holder.Some? ==> s.holder.value < |s.threads|)
  }

  lemma {:induction false} EnterKeepsInv<T, R>(s: State<T, R>, call: Call)
    requires Inv(s)
    ensures Inv(Next(s, Enter(call)))
  {
    var s' := Next(s, Enter(call));
    SumPush(s.threads, Thread(call, Entered, false, None), Getting());
    forall q | 0 <= q < |s'.threads|
      ensures ThreadOk(s', q)
    {
      assert q < |s.threads| ==> ThreadOk(s, q) && s'.threads[q] == s.threads[q];
    }
  }

  lemma {:induction false} StepKeepsThread<T, R>(s: State<T, R>, p: nat, result: CoreResult<R>, q: nat)
    requires Inv(s) && Enabled(s, Advance(p, result)) && q < |s.threads|
    ensures ThreadOk(Next(s, Advance(p, result)), q)
  {
    assert ThreadOk(s, p) && ThreadOk(s, q);
    if q != p && s.threads[p].phase.Borrowing? {
      assert s.holder == Some(p);
    }
  }

  lemma {:induction false} StepKeepsCount<T, R>(s: State<T, R>, p: nat, result: CoreResult<R>)
    requires Inv(s) && Enabled(s, Advance(p, result))
    ensures var s' := Next(s, Advance(p, result));
            Takers(s'.threads) + (if s'.slot.Some? then 1 else 0) == 1
  {
    assert ThreadOk(s, p);
    SumUpdate(s.threads, p, Next(s, Advance(p, result)).threads[p], Getting());
  }

  lemma {:induction false} StepKeepsInv<T, R>(s: State<T, R>, step: Step<R>)
    requires Inv(s) && Enabled(s, step)
    ensures Inv(Next(s, step))
  {
    match step
    case Enter(call) => EnterKeepsInv(s, call);
    case Advance(p, result) =>
      assert ThreadOk(s, p);
      StepKeepsCount(s, p, result);
      forall q | 0 <= q < |s.threads|
        ensures ThreadOk(Next(s, step), q)
      {
        StepKeepsThread(s, p, result, q);
      }
  }

  lemma {:induction false} RunsKeepInv<T, R>(s: State<T, R>, steps: seq<Step<R>>)
    requires Inv(s) && Feasible(s, steps)
    ensures Inv(After(s, steps))
    decreases |steps|
  {
    if steps != [] {
      RunsKeepInv(s, steps[..|steps| - 1]);
      StepKeepsInv(After(s, steps[..|steps| - 1]), steps[|steps| - 1]);
    }
  }

  /** A call that took the value is the only one, and the slot is empty. */
  lemma {:induction false} OneTaker<T, R>(s: State<T, R>, p: nat, q: nat)
    requires Inv(s) && p < |s.threads| && q < |s.threads| && s.threads[p].got
    ensures s.slot.None?
    ensures s.threads[q].got ==> q == p
  {
    var weight := Getting<R>();
    SumParts(s.threads, p, p, weight);
    if p < q { SumParts(s.threads, p, q, weight); }
    if q < p { SumParts(s.threads, q, p, weight); }
  }

  /** A run begins as it began, with fewer calls, and what was answered stays answered. */
  lemma {:induction false} Earlier<T, R>(s: State<T, R>, steps: seq<Step<R>>, i: nat)
    requires Feasible(s, steps) && i <= |steps|
    ensures Feasible(s, steps[..i])
    ensures |After(s, steps[..i]).threads| <= |After(s, steps).threads|
    ensures forall p :: 0 <= p < |After(s, steps[..i]).threads| ==>
              After(s, steps).threads[p].call == After(s, steps[..i]).threads[p].call
    decreases |steps|
  {
    if i == |steps| {
      assert steps[..i] == steps;
    } else {
      var n := |steps| - 1;
      Earlier(s, steps[..n], i);
      assert steps[..n][..i] == steps[..i];
    }
  }

  lemma {:induction false} SlotIsValue<T, R>(value: T, steps: seq<Step<R>>)
    requires Feasible(Opened<T, R>(value), steps)
    ensures var s := After(Opened<T, R>(value), steps);
            s.slot.Some? ==> s.slot.value == value
    decreases |steps|
  {
    if steps != [] { SlotIsValue<T, R>(value, steps[..|steps| - 1]); }
  }
}
