/**
  Every step of the concurrent machine is either invisible or one whole call.

  `View` is what the mutexes hold as far as finished calls are concerned: a
  content that a running call is still writing shows as it was when the call
  began, and a content whose call unwinds shows as poisoned from the moment the
  core call ended.
*/
module FusionRefinement {
  import opened FusionCalls
  import opened FusionMachine

  function ViewAt<F, B, Op, R>(s: State<F, B, Op, R>, i: nat): Slot<F, B>
    requires i < |s.cells|
  {
    var c := s.cells[i];
    if c.holder.Free? || c.holder.thread >= |s.threads| then Slot(c.content, c.poisoned)
    else
      var t := s.threads[c.holder.thread];
      match t.phase
      case Running(_, entry) =>
        if i in Locks(t.call) && |entry| == |Locks(t.call)|
        then Slot(entry[IndexOf(Locks(t.call), i)], false)
        else Slot(c.content, false)
      case Unlocking(_, unwinding, _) => Slot(c.content, c.poisoned || unwinding)
      case _ => Slot(c.content, c.poisoned)
  }

  function View<F, B, Op, R>(s: State<F, B, Op, R>): (slots: seq<Slot<F, B>>)
    ensures |slots| == |s.cells|
    ensures forall i :: 0 <= i < |slots| ==> slots[i] == ViewAt(s, i)
  {
    seq(|s.cells|, i requires 0 <= i < |s.cells| => ViewAt(s, i))
  }

  /** The step in which call `p` takes effect: it meets a poisoned mutex, or its core call ends. */
  predicate CommitsNow<F, B, Op, R>(core: Core<F, B, Op, R>, s: State<F, B, Op, R>, p: nat)
    requires Inv(core, s) && Enabled(s, Advance(p))
  {
    var t := s.threads[p];
    match t.phase
    case Locking(k) => k < |Locks(t.call)| && s.cells[Locks(t.call)[k]].poisoned
    case Running(n, entry) => n == |Execute(core, t.call, entry).scratch|
    case _ => false
  }

  lemma {:induction false} ViewFits<F, B, Op, R>(core: Core<F, B, Op, R>, s: State<F, B, Op, R>, p: nat)
    requires Inv(core, s) && p < |s.threads|
    ensures Handles(View(s), s.threads[p].call)
  {
    var call := s.threads[p].call;
    assert ThreadOk(core, s.cells, s.threads[p]);
    forall j | 0 <= j < |Locks(call)|
      ensures View(s)[Locks(call)[j]].content.FilterOf? == WantsFilter(call, j)
    {
      var i := Locks(call)[j];
      assert s.cells[i].content.FilterOf? == WantsFilter(call, j);
      var h := s.cells[i].holder;
      if h.HeldBy? && s.threads[h.thread].phase.Running? {
        var t := s.threads[h.thread];
        assert ThreadOk(core, s.cells, t);
        assert Holds(t, i);
        var m := IndexOf(Locks(t.call), i);
        assert s.cells[Locks(t.call)[m]].content.FilterOf? == WantsFilter(t.call, m);
      }
    }
  }

  /** A step touches no cell but the ones its thread holds or takes. */
  lemma {:induction false} StepFrame<F, B, Op, R>(core: Core<F, B, Op, R>, s: State<F, B, Op, R>, p: nat, i: nat)
    requires Inv(core, s) && Enabled(s, Advance(p))
    requires i < |s.cells| && s.cells[i].holder != HeldBy(p) && !Takes(s, s.threads[p], i)
    ensures StepOf(core, s, p).0[i] == s.cells[i]
  {
    var t := s.threads[p];
    assert ThreadOk(core, s.cells, t);
    assert !Holds(t, i);
  }

  /** A thread that takes no effect in this step shows nothing of it. */
  lemma {:induction false} QuietStep<F, B, Op, R>(core: Core<F, B, Op, R>, s: State<F, B, Op, R>, p: nat)
    requires Inv(core, s) && Enabled(s, Advance(p)) && !CommitsNow(core, s, p)
    ensures View(Next(core, s, Advance(p))) == View(s)
  {
    var s' := Next(core, s, Advance(p));
    assert ThreadOk(core, s.cells, s.threads[p]);
    assert |s'.cells| == |s.cells|;
    forall i | 0 <= i < |s.cells|
      ensures ViewAt(s', i) == ViewAt(s, i)
    {
      QuietCell(core, s, p, i);
    }
  }

  lemma {:induction false} QuietCell<F, B, Op, R>(core: Core<F, B, Op, R>, s: State<F, B, Op, R>, p: nat, i: nat)
    requires Inv(core, s) && Enabled(s, Advance(p)) && !CommitsNow(core, s, p)
    requires i < |s.cells|
    ensures ViewAt(Next(core, s, Advance(p)), i) == ViewAt(s, i)
  {
    var t := s.threads[p];
    assert ThreadOk(core, s.cells, t);
    if s.cells[i].holder != HeldBy(p) && !Takes(s, t, i) {
      StepFrame(core, s, p, i);
    } else {
      assert Holds(t, i) <==> s.cells[i].holder == HeldBy(p);
      LocksDiffer(s.cells, t.call);
      match t.phase
      case Locking(k) =>
        if k == |Locks(t.call)| {
          var j := IndexOf(Locks(t.call), i);
          assert ReadOut(s.cells, t.call)[j] == s.cells[i].content;
        }
      case Running(n, entry) =>
      case Unlocking(k, unwinding, reply) =>
    }
  }

  lemma {:induction false} PoisonStep<F, B, Op, R>(core: Core<F, B, Op, R>, s: State<F, B, Op, R>, p: nat)
    requires Inv(core, s) && Enabled(s, Advance(p)) && CommitsNow(core, s, p) && s.threads[p].phase.Locking?
    ensures View(Next(core, s, Advance(p))) == View(s)
    ensures Serve(core, View(s), s.threads[p].call) == (View(s), PoisonedResource)
  {
    var s' := Next(core, s, Advance(p));
    var t := s.threads[p];
    ViewFits(core, s, p);
    var i := Locks(t.call)[t.phase.held];
    assert View(s)[i].poisoned;
    assert MeetsPoison(View(s), t.call);
    assert View(s') == View(s);
  }

  /** While call `p` runs, its locks show what it found there. */
  lemma {:induction false} RunningView<F, B, Op, R>(core: Core<F, B, Op, R>, s: State<F, B, Op, R>, p: nat)
    requires Inv(core, s) && p < |s.threads| && s.threads[p].phase.Running?
    ensures Handles(View(s), s.threads[p].call)
    ensures Contents(View(s), s.threads[p].call) == s.threads[p].phase.entry
    ensures !MeetsPoison(View(s), s.threads[p].call)
  {
    var t := s.threads[p];
    var ls := Locks(t.call);
    ViewFits(core, s, p);
    assert ThreadOk(core, s.cells, t);
    LocksDiffer(s.cells, t.call);
    forall j | 0 <= j < |ls|
      ensures View(s)[ls[j]] == Slot(t.phase.entry[j], false)
    {
      assert Holds(t, ls[j]);
      assert s.cells[ls[j]].holder == HeldBy(p);
    }
  }

  lemma {:induction false} EndCell<F, B, Op, R>(core: Core<F, B, Op, R>, s: State<F, B, Op, R>, p: nat, i: nat)
    requires Inv(core, s) && Enabled(s, Advance(p)) && CommitsNow(core, s, p) && s.threads[p].phase.Running?
    requires i < |Next(core, s, Advance(p)).cells|
    ensures var t := s.threads[p];
            var e := Execute(core, t.call, t.phase.entry);
            var slots := Store(View(s), Locks(t.call), e.end, e.ending.Unwinds?) + Made(e.ending);
            i < |slots| && ViewAt(Next(core, s, Advance(p)), i) == slots[i]
  {
    var t := s.threads[p];
    assert ThreadOk(core, s.cells, t);
    if i < |s.cells| {
      assert Holds(t, i) <==> s.cells[i].holder == HeldBy(p);
      assert i in Locks(t.call) <==> Holds(t, i);
    }
  }

  lemma {:induction false} EndStep<F, B, Op, R>(core: Core<F, B, Op, R>, s: State<F, B, Op, R>, p: nat)
    requires Inv(core, s) && Enabled(s, Advance(p)) && CommitsNow(core, s, p) && s.threads[p].phase.Running?
    ensures var s' := Next(core, s, Advance(p));
            && s'.threads[p].phase.Unlocking?
            && Serve(core, View(s), s.threads[p].call) == (View(s'), s'.threads[p].phase.reply)
  {
    var s' := Next(core, s, Advance(p));
    var t := s.threads[p];
    RunningView(core, s, p);
    assert ThreadOk(core, s.cells, t);
    var e := Execute(core, t.call, t.phase.entry);
    var slots := Store(View(s), Locks(t.call), e.end, e.ending.Unwinds?) + Made(e.ending);
    assert |slots| == |s'.cells|;
    forall i | 0 <= i < |s'.cells|
      ensures ViewAt(s', i) == slots[i]
    {
      EndCell(core, s, p, i);
    }
    assert View(s') == slots;
  }
}
