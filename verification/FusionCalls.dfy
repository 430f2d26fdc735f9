/**
  The calls a process can make on fusion filters and RTS-history builders
  (native/sidereon_nif/src/fusion.rs), and what they mean when they run one at
  a time.

  Every filter and every builder lives in a mutex of its own. A mutex is a
  numbered slot here, so a handle is a slot number, and the slot's content says
  which kind of resource it is. The numerical core is the parameter `Core`: all
  that is known about it is its type, and that each call on it ends.
*/
module FusionCalls {

  datatype Content<F, B> = FilterOf(filter: F) | BuilderOf(builder: B)

  /** How a core call ends: with a term for the caller, or by unwinding. */
  datatype Outcome<R> = Answered(term: R) | Panicked

  /** One core call on a state it holds by `&mut`: the states it writes on the
      way, the state it leaves behind, and how it ends. */
  datatype Work<S, R> = Work(scratch: seq<S>, end: S, outcome: Outcome<R>)

  /** `FusionRtsHistoryBuilder::from_filter`: a builder, an error, or a panic. */
  datatype Build<B, R> = Built(builder: B) | Refused(error: R) | BuildPanicked

  datatype Core<!F, !B, !Op, R> = Core(
    update: (Op, F) -> Work<F, R>,
    record: (Op, F, B) -> Work<(F, B), R>,
    fromFilter: F -> Build<B, R>,
    finish: B -> Outcome<R>,
    empty: B)

  datatype Call<F, Op, R> =
    | Undecodable(error: R)             // refused before any lock is taken
    | NewFilter(filter: F)
    | NewBuilder
    | Update(f: nat, op: Op)            // every call that goes through with_filter
    | Record(f: nat, b: nat, op: Op)    // every *_recorded call
    | FromFilter(f: nat)
    | Finish(b: nat)

  datatype Reply<R> =
    | Answer(term: R)
    | Handle(slot: nat)                 // {:ok, resource}
    | PoisonedResource                  // {:error, :poisoned_resource}
    | NifPanic                          // the panic, as the wrapper raises it
    | BadArg                            // a handle that is no resource of the right kind

  /** The mutexes a call locks, in the order it locks them. */
  function Locks<F, Op, R>(call: Call<F, Op, R>): (ls: seq<nat>)
    ensures |ls| <= 2
  {
    match call
    case Undecodable(_) => []
    case NewFilter(_) => []
    case NewBuilder => []
    case Update(f, _) => [f]
    case Record(f, b, _) => [f, b]
    case FromFilter(f) => [f]
    case Finish(b) => [b]
  }

  /** A call's only filter is the first thing it locks; the rest are builders. */
  predicate WantsFilter<F, Op, R>(call: Call<F, Op, R>, j: nat) {
    j == 0 && !call.Finish?
  }

  /** The contents found behind a call's locks are of the kinds its handles promise. */
  predicate Fits<F, B, Op, R>(call: Call<F, Op, R>, held: seq<Content<F, B>>) {
    && |held| == |Locks(call)|
    && forall j :: 0 <= j < |held| ==> held[j].FilterOf? == WantsFilter(call, j)
  }

  datatype Ending<F, B, R> = Says(term: R) | Makes(content: Content<F, B>) | Unwinds

  datatype Effect<F, B, R> = Effect(
    scratch: seq<seq<Content<F, B>>>,
    end: seq<Content<F, B>>,
    ending: Ending<F, B, R>)

  function Close<F, B, R>(outcome: Outcome<R>): Ending<F, B, R> {
    if outcome.Answered? then Says(outcome.term) else Unwinds
  }

  /** What the body of a call does to the contents it holds locked. `FromFilter`
      reads through a shared reference and `Finish` consumes a clone, so both
      leave what they hold as it is. */
  function Execute<F, B, Op, R>(core: Core<F, B, Op, R>, call: Call<F, Op, R>,
                                held: seq<Content<F, B>>): (e: Effect<F, B, R>)
    requires Fits(call, held)
    ensures Fits(call, e.end)
    ensures forall n :: 0 <= n < |e.scratch| ==> Fits(call, e.scratch[n])
  {
    match call
    case Undecodable(error) => Effect([], [], Says(error))
    case NewFilter(filter) => Effect([], [], Makes(FilterOf(filter)))
    case NewBuilder => Effect([], [], Makes(BuilderOf(core.empty)))
    case Update(_, op) =>
      var w := core.update(op, held[0].filter);
      Effect(seq(|w.scratch|, n requires 0 <= n < |w.scratch| => [FilterOf(w.scratch[n])]),
             [FilterOf(w.end)], Close(w.outcome))
    case Record(_, _, op) =>
      var w := core.record(op, held[0].filter, held[1].builder);
      Effect(seq(|w.scratch|, n requires 0 <= n < |w.scratch| =>
                 [FilterOf(w.scratch[n].0), BuilderOf(w.scratch[n].1)]),
             [FilterOf(w.end.0), BuilderOf(w.end.1)], Close(w.outcome))
    case FromFilter(_) =>
      Effect([], held,
             match core.fromFilter(held[0].filter)
             case Built(b) => Makes(BuilderOf(b))
             case Refused(error) => Says(error)
             case BuildPanicked => Unwinds)
    case Finish(_) => Effect([], held, Close(core.finish(held[0].builder)))
  }

  // ---------------------------------------------------------------------
  // Calls one at a time
  // ---------------------------------------------------------------------

  /** A mutex nobody holds: what is in it, and whether a panic poisoned it. */
  datatype Slot<F, B> = Slot(content: Content<F, B>, poisoned: bool)

  predicate Handles<F, B, Op, R>(slots: seq<Slot<F, B>>, call: Call<F, Op, R>) {
    forall j :: 0 <= j < |Locks(call)| ==>
      && Locks(call)[j] < |slots|
      && slots[Locks(call)[j]].content.FilterOf? == WantsFilter(call, j)
  }

  predicate MeetsPoison<F, B, Op, R>(slots: seq<Slot<F, B>>, call: Call<F, Op, R>)
    requires Handles(slots, call)
  {
    exists j :: 0 <= j < |Locks(call)| && slots[Locks(call)[j]].poisoned
  }

  function Contents<F, B, Op, R>(slots: seq<Slot<F, B>>, call: Call<F, Op, R>): (held: seq<Content<F, B>>)
    requires Handles(slots, call)
    ensures Fits(call, held)
  {
    seq(|Locks(call)|, j requires 0 <= j < |Locks(call)| => slots[Locks(call)[j]].content)
  }

  function IndexOf(ls: seq<nat>, i: nat): (j: nat)
    requires |ls| <= 2 && i in ls
    ensures j < |ls| && ls[j] == i
  {
    if ls[0] == i then 0 else 1
  }

  function Store<F, B>(
    slots: seq<Slot<F, B>>, ls: seq<nat>, values: seq<Content<F, B>>, poison: bool): (r: seq<Slot<F, B>>)
    requires |values| == |ls| <= 2
    ensures |r| == |slots|
  {
    seq(|slots|, i requires 0 <= i < |slots| =>
      if i in ls then Slot(values[IndexOf(ls, i)], poison) else slots[i])
  }

  function Made<F, B, R>(ending: Ending<F, B, R>): (r: seq<Slot<F, B>>) {
    if ending.Makes? then [Slot(ending.content, false)] else []
  }

  /** The reply of a finished body, where `next` is the number of the resource it makes. */
  function Spoken<F, B, R>(ending: Ending<F, B, R>, next: nat): Reply<R> {
    match ending
    case Says(term) => Answer(term)
    case Makes(_) => Handle(next)
    case Unwinds => NifPanic
  }

  /** One call, run alone from start to end. */
  function Serve<F, B, Op, R>(core: Core<F, B, Op, R>, slots: seq<Slot<F, B>>, call: Call<F, Op, R>):
    (r: (seq<Slot<F, B>>, Reply<R>))
    ensures |slots| <= |r.0|
  {
    if !Handles(slots, call) then (slots, BadArg)
    else if MeetsPoison(slots, call) then (slots, PoisonedResource)
    else
      var e := Execute(core, call, Contents(slots, call));
      (Store(slots, Locks(call), e.end, e.ending.Unwinds?) + Made(e.ending), Spoken(e.ending, |slots|))
  }

  /** Many calls, one after the other: the slots they leave and their replies in order. */
  function Replay<F, B, Op, R>(core: Core<F, B, Op, R>, slots: seq<Slot<F, B>>, calls: seq<Call<F, Op, R>>):
    (r: (seq<Slot<F, B>>, seq<Reply<R>>))
    ensures |r.1| == |calls|
  {
    if calls == [] then (slots, [])
    else
      var before := Replay(core, slots, calls[..|calls| - 1]);
      var last := Serve(core, before.0, calls[|calls| - 1]);
      (last.0, before.1 + [last.1])
  }

  // ---------------------------------------------------------------------
  // What each call leaves and says
  // ---------------------------------------------------------------------

  function Finished<R>(outcome: Outcome<R>): Reply<R> {
    if outcome.Answered? then Answer(outcome.term) else NifPanic
  }

  /** Finishing works on a clone: it answers from the builder and changes no content. */
  lemma {:induction false} FinishAlone<F, B, Op, R>(core: Core<F, B, Op, R>, slots: seq<Slot<F, B>>, b: nat)
    requires Serve(core, slots, Call<F, Op, R>.Finish(b)).1 != BadArg
    ensures b < |slots| && slots[b].content.BuilderOf?
    ensures var r := Serve(core, slots, Finish(b));
            && r.1 == (if slots[b].poisoned then PoisonedResource else Finished(core.finish(slots[b].content.builder)))
            && |r.0| == |slots|
            && forall i :: 0 <= i < |slots| ==>
                 && r.0[i].content == slots[i].content
                 && (r.0[i].poisoned ==> slots[i].poisoned || (i == b && r.1 == NifPanic))
  {
    var call: Call<F, Op, R> := Finish(b);
    assert Locks(call)[0] == b && !WantsFilter(call, 0);
    assert MeetsPoison(slots, call) <==> slots[b].poisoned;
  }

  /** A recorded call that meets a poisoned mutex leaves its filter and its builder
      unchanged and unpoisoned; otherwise both move together, and a panic poisons both. */
  lemma {:induction false} RecordMeetsPoison<F, B, Op, R>(
    core: Core<F, B, Op, R>, slots: seq<Slot<F, B>>, f: nat, b: nat, op: Op)
    requires Handles(slots, Call<F, Op, R>.Record(f, b, op))
    ensures f < |slots| && b < |slots| && f != b
    ensures var r := Serve(core, slots, Record(f, b, op));
            if slots[f].poisoned || slots[b].poisoned then r == (slots, PoisonedResource)
            else
              var w := core.record(op, slots[f].content.filter, slots[b].content.builder);
              && r.0 == slots[f := Slot(FilterOf(w.end.0), w.outcome.Panicked?)]
                            [b := Slot(BuilderOf(w.end.1), w.outcome.Panicked?)]
              && r.1 == (if w.outcome.Panicked? then NifPanic else Answer(w.outcome.term))
  {
    var call: Call<F, Op, R> := Record(f, b, op);
    assert Locks(call)[0] == f && Locks(call)[1] == b;
    assert WantsFilter(call, 0) && !WantsFilter(call, 1);
    assert MeetsPoison(slots, call) <==> slots[f].poisoned || slots[b].poisoned;
    if !MeetsPoison(slots, call) {
      var w := core.record(op, slots[f].content.filter, slots[b].content.builder);
      assert Serve(core, slots, call).0 ==
             slots[f := Slot(FilterOf(w.end.0), w.outcome.Panicked?)]
                  [b := Slot(BuilderOf(w.end.1), w.outcome.Panicked?)];
    }
  }

  /** A call through `with_filter` replaces its own filter and nothing else. */
  lemma {:induction false} UpdateAlone<F, B, Op, R>(core: Core<F, B, Op, R>, slots: seq<Slot<F, B>>, f: nat, op: Op)
    requires f < |slots| && slots[f].content.FilterOf?
    ensures var r := Serve(core, slots, Update(f, op));
            if slots[f].poisoned then r == (slots, PoisonedResource)
            else
              var w := core.update(op, slots[f].content.filter);
              && r.0 == slots[f := Slot(FilterOf(w.end), w.outcome.Panicked?)]
              && r.1 == Finished(w.outcome)
  {
    var call: Call<F, Op, R> := Update(f, op);
    assert Locks(call)[0] == f && WantsFilter(call, 0);
    assert MeetsPoison(slots, call) <==> slots[f].poisoned;
    var w := core.update(op, slots[f].content.filter);
    if !slots[f].poisoned {
      assert Serve(core, slots, call).0 == slots[f := Slot(FilterOf(w.end), w.outcome.Panicked?)];
    }
  }

  /** Seeding a builder leaves its filter as it is. */
  lemma {:induction false} FromFilterAlone<F, B, Op, R>(core: Core<F, B, Op, R>, slots: seq<Slot<F, B>>, f: nat)
    requires f < |slots| && slots[f].content.FilterOf?
    ensures var r := Serve(core, slots, Call<F, Op, R>.FromFilter(f));
            if slots[f].poisoned then r == (slots, PoisonedResource)
            else match core.fromFilter(slots[f].content.filter)
                 case Built(b) => r == (slots + [Slot(BuilderOf(b), false)], Handle(|slots|))
                 case Refused(e) => r == (slots, Answer(e))
                 case BuildPanicked => r == (slots[f := slots[f].(poisoned := true)], NifPanic)
  {
    var call: Call<F, Op, R> := FromFilter(f);
    assert Locks(call)[0] == f && WantsFilter(call, 0);
    assert MeetsPoison(slots, call) <==> slots[f].poisoned;
    if !slots[f].poisoned {
      var e := Execute(core, call, Contents(slots, call));
      assert Store(slots, Locks(call), e.end, e.ending.Unwinds?) ==
             slots[f := slots[f].(poisoned := e.ending.Unwinds?)];
      assert slots[f := slots[f].(poisoned := false)] == slots;
      var marked := slots[f := slots[f].(poisoned := true)];
      assert slots + [] == slots && marked + [] == marked;
    }
  }

  /** A call without locks adds a resource at most. */
  lemma {:induction false} UnlockedAlone<F, B, Op, R>(
    core: Core<F, B, Op, R>, slots: seq<Slot<F, B>>, call: Call<F, Op, R>)
    requires Locks(call) == []
    ensures Serve(core, slots, call) ==
            if call.Undecodable? then (slots, Answer(call.error))
            else (slots + [Slot(if call.NewFilter? then FilterOf(call.filter) else BuilderOf(core.empty), false)],
                  Handle(|slots|))
  {
    assert Store(slots, [], [], false) == slots && slots + [] == slots;
  }
}
