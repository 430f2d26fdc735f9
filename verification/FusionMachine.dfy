/**
  Concurrent fusion calls as a transition system.

  Any number of calls run at once over any number of mutexes. A call takes its
  locks one by one, blocking where another call holds the next one; it then runs
  the core, which writes the locked contents piece by piece; it then drops its
  guards, last taken first. A guard dropped while its call unwinds poisons its
  mutex. A call that finds a mutex poisoned gets its guard inside the error, and
  turns back: it holds that mutex until it has dropped its guards, core untouched.
*/
module FusionMachine {
  import opened FusionCalls

  datatype Holder = Free | HeldBy(thread: nat)

  datatype Cell<F, B> = Cell(content: Content<F, B>, poisoned: bool, holder: Holder)

  datatype Phase<F, B, R> =
    | Locking(held: nat)
    | Running(at: nat, entry: seq<Content<F, B>>)
    | Unlocking(held: nat, unwinding: bool, reply: Reply<R>)
    | Returned(reply: Reply<R>)

  datatype Thread<F, B, Op, R> = Thread(call: Call<F, Op, R>, phase: Phase<F, B, R>)

  datatype State<F, B, Op, R> = State(cells: seq<Cell<F, B>>, threads: seq<Thread<F, B, Op, R>>)

  /** A process enters a call, or call `p` takes one step. */
  datatype Step<F, Op, R> = Invoke(call: Call<F, Op, R>) | Advance(p: nat)

  predicate Initial<F, B, Op, R>(s: State<F, B, Op, R>) {
    && s.threads == []
    && forall i :: 0 <= i < |s.cells| ==> s.cells[i].holder == Free
  }

  // ---------------------------------------------------------------------
  // Steps
  // ---------------------------------------------------------------------

  function HeldCount<F, B, Op, R>(t: Thread<F, B, Op, R>): nat {
    match t.phase
    case Locking(k) => k
    case Running(_, _) => |Locks(t.call)|
    case Unlocking(k, _, _) => k
    case Returned(_) => 0
  }

  predicate CallFits<F, B, Op, R>(cells: seq<Cell<F, B>>, call: Call<F, Op, R>) {
    forall j :: 0 <= j < |Locks(call)| ==>
      && Locks(call)[j] < |cells|
      && cells[Locks(call)[j]].content.FilterOf? == WantsFilter(call, j)
  }

  predicate ThreadOk<F, B, Op, R>(core: Core<F, B, Op, R>, cells: seq<Cell<F, B>>, t: Thread<F, B, Op, R>) {
    && CallFits(cells, t.call)
    && HeldCount(t) <= |Locks(t.call)|
    && (t.phase.Running? ==>
          && Fits(t.call, t.phase.entry)
          && t.phase.at <= |Execute(core, t.call, t.phase.entry).scratch|)
  }

  /** A thread holds the locks it has taken so far; it takes and drops them like a stack. */
  predicate Holds<F, B, Op, R>(t: Thread<F, B, Op, R>, i: nat) {
    var ls := Locks(t.call);
    || (HeldCount(t) > 0 && |ls| > 0 && ls[0] == i)
    || (HeldCount(t) > 1 && |ls| > 1 && ls[1] == i)
  }

  /** The holder recorded in a cell is exactly the thread that holds it. */
  predicate HoldsMatch<F, B, Op, R>(s: State<F, B, Op, R>) {
    && (forall i :: 0 <= i < |s.cells| && s.cells[i].holder.HeldBy? ==>
          s.cells[i].holder.thread < |s.threads|)
    && (forall p, i :: 0 <= p < |s.threads| && 0 <= i < |s.cells| ==>
          (Holds(s.threads[p], i) <==> s.cells[i].holder == HeldBy(p)))
  }

  /** A poisoned mutex is held only by a call on its way out. */
  predicate PoisonIdle<F, B, Op, R>(s: State<F, B, Op, R>) {
    forall i :: 0 <= i < |s.cells| && s.cells[i].poisoned && s.cells[i].holder.HeldBy? ==>
      && s.cells[i].holder.thread < |s.threads|
      && s.threads[s.cells[i].holder.thread].phase.Unlocking?
  }

  predicate Inv<F, B, Op, R>(core: Core<F, B, Op, R>, s: State<F, B, Op, R>) {
    && (forall p :: 0 <= p < |s.threads| ==> ThreadOk(core, s.cells, s.threads[p]))
    && HoldsMatch(s)
    && PoisonIdle(s)
  }

  predicate Blocked<F, B, Op, R>(s: State<F, B, Op, R>, p: nat)
    requires p < |s.threads|
  {
    var t := s.threads[p];
    && t.phase.Locking?
    && t.phase.held < |Locks(t.call)|
    && Locks(t.call)[t.phase.held] < |s.cells|
    && s.cells[Locks(t.call)[t.phase.held]].holder.HeldBy?
  }

  predicate Enabled<F, B, Op, R>(s: State<F, B, Op, R>, step: Step<F, Op, R>) {
    match step
    case Invoke(call) => CallFits(s.cells, call)
    case Advance(p) => p < |s.threads| && !s.threads[p].phase.Returned? && !Blocked(s, p)
  }

  function Write<F, B>(cells: seq<Cell<F, B>>, ls: seq<nat>, values: seq<Content<F, B>>): (r: seq<Cell<F, B>>)
    requires |values| == |ls| <= 2
    ensures |r| == |cells|
  {
    seq(|cells|, i requires 0 <= i < |cells| =>
      if i in ls then cells[i].(content := values[IndexOf(ls, i)]) else cells[i])
  }

  function Spawn<F, B, R>(ending: Ending<F, B, R>): (r: seq<Cell<F, B>>) {
    if ending.Makes? then [Cell(ending.content, false, Free)] else []
  }

  function ReadOut<F, B, Op, R>(cells: seq<Cell<F, B>>, call: Call<F, Op, R>): (held: seq<Content<F, B>>)
    requires CallFits(cells, call)
    ensures Fits(call, held)
  {
    seq(|Locks(call)|, j requires 0 <= j < |Locks(call)| => cells[Locks(call)[j]].content)
  }

  /** One step of call `p`: the cells and the phase it leaves. */
  function StepOf<F, B, Op, R>(core: Core<F, B, Op, R>, s: State<F, B, Op, R>, p: nat):
    (r: (seq<Cell<F, B>>, Phase<F, B, R>))
    requires Inv(core, s) && Enabled(s, Advance(p))
    ensures |s.cells| <= |r.0|
  {
    var call := s.threads[p].call;
    var ls := Locks(call);
    match s.threads[p].phase
    case Locking(k) =>
      if k == |ls| then (s.cells, Running(0, ReadOut(s.cells, call)))
      else
        (s.cells[ls[k] := s.cells[ls[k]].(holder := HeldBy(p))],
         if s.cells[ls[k]].poisoned then Unlocking(k + 1, false, PoisonedResource) else Locking(k + 1))
    case Running(n, entry) =>
      var e := Execute(core, call, entry);
      if n < |e.scratch| then (Write(s.cells, ls, e.scratch[n]), Running(n + 1, entry))
      else (Write(s.cells, ls, e.end) + Spawn(e.ending),
            Unlocking(|ls|, e.ending.Unwinds?, Spoken(e.ending, |s.cells|)))
    case Unlocking(k, unwinding, reply) =>
      if k == 0 then (s.cells, Returned(reply))
      else
        var c := s.cells[ls[k - 1]];
        (s.cells[ls[k - 1] := c.(holder := Free, poisoned := c.poisoned || unwinding)],
         Unlocking(k - 1, unwinding, reply))
  }

  function Next<F, B, Op, R>(core: Core<F, B, Op, R>, s: State<F, B, Op, R>, step: Step<F, Op, R>): State<F, B, Op, R>
    requires Inv(core, s) && Enabled(s, step)
  {
    match step
    case Invoke(call) => s.(threads := s.threads + [Thread(call, Locking(0))])
    case Advance(p) =>
      var r := StepOf(core, s, p);
      State(r.0, s.threads[p := s.threads[p].(phase := r.1)])
  }

  // ---------------------------------------------------------------------
  // What every step keeps
  // ---------------------------------------------------------------------

  predicate SameKinds<F, B>(cells: seq<Cell<F, B>>, later: seq<Cell<F, B>>) {
    && |cells| <= |later|
    && forall i :: 0 <= i < |cells| ==> later[i].content.FilterOf? == cells[i].content.FilterOf?
  }

  /** A filter handle and a builder handle never name the same mutex. */
  lemma {:induction false} LocksDiffer<F, B, Op, R>(cells: seq<Cell<F, B>>, call: Call<F, Op, R>)
    requires CallFits(cells, call)
    ensures |Locks(call)| == 2 ==> Locks(call)[0] != Locks(call)[1]
  {
    if |Locks(call)| == 2 {
      assert WantsFilter(call, 0) && !WantsFilter(call, 1);
    }
  }

  lemma {:induction false} StepKeepsKinds<F, B, Op, R>(core: Core<F, B, Op, R>, s: State<F, B, Op, R>, p: nat)
    requires Inv(core, s) && Enabled(s, Advance(p))
    ensures SameKinds(s.cells, StepOf(core, s, p).0)
  {
    var t := s.threads[p];
    assert ThreadOk(core, s.cells, t);
    var r := StepOf(core, s, p);
    if t.phase.Running? {
      var e := Execute(core, t.call, t.phase.entry);
      var values := if t.phase.at < |e.scratch| then e.scratch[t.phase.at] else e.end;
      assert Fits(t.call, values);
      forall i | 0 <= i < |s.cells|
        ensures r.0[i].content.FilterOf? == s.cells[i].content.FilterOf?
      {
        if i in Locks(t.call) {
          var j := IndexOf(Locks(t.call), i);
          assert values[j].FilterOf? == WantsFilter(t.call, j);
          assert s.cells[Locks(t.call)[j]].content.FilterOf? == WantsFilter(t.call, j);
        }
      }
    }
  }

  lemma {:induction false} StepKeepsThreads<F, B, Op, R>(core: Core<F, B, Op, R>, s: State<F, B, Op, R>, p: nat)
    requires Inv(core, s) && Enabled(s, Advance(p))
    ensures var s' := Next(core, s, Advance(p));
            forall q :: 0 <= q < |s'.threads| ==> ThreadOk(core, s'.cells, s'.threads[q])
  {
    var s' := Next(core, s, Advance(p));
    StepKeepsKinds(core, s, p);
    forall q | 0 <= q < |s'.threads|
      ensures ThreadOk(core, s'.cells, s'.threads[q])
    {
      assert ThreadOk(core, s.cells, s.threads[q]);
      assert s'.threads[q].call == s.threads[q].call;
    }
  }

  /** The lock a thread takes or drops in its next step, if it does either. */
  predicate Takes<F, B, Op, R>(s: State<F, B, Op, R>, t: Thread<F, B, Op, R>, i: nat) {
    && t.phase.Locking? && t.phase.held < |Locks(t.call)| && i == Locks(t.call)[t.phase.held]
    && i < |s.cells|
  }

  predicate Drops<F, B, Op, R>(t: Thread<F, B, Op, R>, i: nat) {
    t.phase.Unlocking? && 0 < t.phase.held <= |Locks(t.call)| && i == Locks(t.call)[t.phase.held - 1]
  }

  lemma {:induction false} StepHolders<F, B, Op, R>(core: Core<F, B, Op, R>, s: State<F, B, Op, R>, p: nat)
    requires Inv(core, s) && Enabled(s, Advance(p))
    ensures var cells := StepOf(core, s, p).0;
            forall i :: 0 <= i < |cells| ==>
              cells[i].holder ==
                if i >= |s.cells| then Free
                else if Takes(s, s.threads[p], i) then HeldBy(p)
                else if Drops(s.threads[p], i) then Free
                else s.cells[i].holder
  {
    assert ThreadOk(core, s.cells, s.threads[p]);
  }

  lemma {:induction false} StepHolds<F, B, Op, R>(core: Core<F, B, Op, R>, s: State<F, B, Op, R>, p: nat, i: nat)
    requires Inv(core, s) && Enabled(s, Advance(p))
    ensures var t' := Next(core, s, Advance(p)).threads[p];
            Holds(t', i) <==> Takes(s, s.threads[p], i) || (Holds(s.threads[p], i) && !Drops(s.threads[p], i))
  {
    var t := s.threads[p];
    assert ThreadOk(core, s.cells, t);
    LocksDiffer(s.cells, t.call);
  }

  lemma {:induction false} HoldsCell<F, B, Op, R>(
    core: Core<F, B, Op, R>, s: State<F, B, Op, R>, p: nat, q: nat, i: nat)
    requires Inv(core, s) && Enabled(s, Advance(p)) && q < |s.threads| && i < |s.cells|
    ensures var s' := Next(core, s, Advance(p));
            Holds(s'.threads[q], i) <==> s'.cells[i].holder == HeldBy(q)
  {
    var t := s.threads[p];
    StepHolders(core, s, p);
    StepHolds(core, s, p, i);
    assert ThreadOk(core, s.cells, t);
    assert Holds(s.threads[q], i) <==> s.cells[i].holder == HeldBy(q);
    assert Holds(t, i) <==> s.cells[i].holder == HeldBy(p);
    assert Drops(t, i) ==> Holds(t, i);
  }

  lemma {:induction false} StepKeepsHolds<F, B, Op, R>(core: Core<F, B, Op, R>, s: State<F, B, Op, R>, p: nat)
    requires Inv(core, s) && Enabled(s, Advance(p))
    ensures HoldsMatch(Next(core, s, Advance(p)))
  {
    var s' := Next(core, s, Advance(p));
    StepHolders(core, s, p);
    StepKeepsThreads(core, s, p);
    forall q, i | 0 <= q < |s'.threads| && 0 <= i < |s'.cells|
      ensures Holds(s'.threads[q], i) <==> s'.cells[i].holder == HeldBy(q)
    {
      if i < |s.cells| {
        HoldsCell(core, s, p, q, i);
      } else {
        assert ThreadOk(core, s.cells, s.threads[q]);
        assert ThreadOk(core, s'.cells, s'.threads[q]);
      }
    }
  }

  lemma {:induction false} StepKeepsPoisonIdle<F, B, Op, R>(core: Core<F, B, Op, R>, s: State<F, B, Op, R>, p: nat)
    requires Inv(core, s) && Enabled(s, Advance(p))
    ensures PoisonIdle(Next(core, s, Advance(p)))
  {
    assert ThreadOk(core, s.cells, s.threads[p]);
    StepHolders(core, s, p);
  }

  lemma {:induction false} InvokeKeepsInv<F, B, Op, R>(
    core: Core<F, B, Op, R>, s: State<F, B, Op, R>, call: Call<F, Op, R>)
    requires Inv(core, s) && Enabled(s, Invoke(call))
    ensures Inv(core, Next(core, s, Invoke(call)))
  {
  }

  lemma {:induction false} StepKeepsInv<F, B, Op, R>(
    core: Core<F, B, Op, R>, s: State<F, B, Op, R>, step: Step<F, Op, R>)
    requires Inv(core, s) && Enabled(s, step)
    ensures Inv(core, Next(core, s, step))
  {
    match step
    case Invoke(call) => InvokeKeepsInv(core, s, call);
    case Advance(p) =>
      StepKeepsThreads(core, s, p);
      StepKeepsHolds(core, s, p);
      StepKeepsPoisonIdle(core, s, p);
  }
}
