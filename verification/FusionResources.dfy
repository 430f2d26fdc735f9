/**
  The fusion resources as objects (native/sidereon_nif/src/fusion.rs): a filter
  and a builder, each behind its own mutex, and the calls on them run one at a
  time. Each method leaves what `Serve` of the same call leaves in the slots, so
  the concurrent theorems are about these calls.
*/
module FusionResources {
  import opened Wrappers
  import opened FusionCalls

  class FilterResource<F> {
    var filter: F
    var poisoned: bool

    constructor (filter: F)
      ensures this.filter == filter && !poisoned
    {
      this.filter, poisoned := filter, false;
    }

    ghost function AsSlot<B>(): Slot<F, B>
      reads this
    {
      Slot(FilterOf(filter), poisoned)
    }
  }

  class BuilderResource<B> {
    var builder: B
    var poisoned: bool

    constructor (builder: B)
      ensures this.builder == builder && !poisoned
    {
      this.builder, poisoned := builder, false;
    }

    ghost function AsSlot<F>(): Slot<F, B>
      reads this
    {
      Slot(BuilderOf(builder), poisoned)
    }
  }

  /** `fusion_new` and `fusion_from_state_bytes`: what the caller states is decoded
      first, and a resource is made only of a filter. */
  method NewFilterResource<F, B, Op, R>(core: Core<F, B, Op, R>, decoded: Result<F, R>)
    returns (reply: Reply<R>, made: FilterResource?<F>)
    ensures made != null ==> fresh(made)
    ensures var call: Call<F, Op, R> := if decoded.Ok? then NewFilter(decoded.value) else Undecodable(decoded.error);
            && (if made == null then [] else [made.AsSlot()]) == Serve(core, [], call).0
            && reply == Serve(core, [], call).1
  {
    ghost var call: Call<F, Op, R> := if decoded.Ok? then NewFilter(decoded.value) else Undecodable(decoded.error);
    UnlockedAlone(core, [], call);
    made := null;
    match decoded
    case Ok(filter) =>
      made := new FilterResource(filter);
      reply := Handle(0);
    case Err(error) => reply := Answer(error);
  }

  /** `fusion_rts_history_builder_new`. */
  method NewBuilderResource<F, B, Op, R>(core: Core<F, B, Op, R>) returns (reply: Reply<R>, made: BuilderResource<B>)
    ensures fresh(made)
    ensures [made.AsSlot()] == Serve(core, [], Call<F, Op, R>.NewBuilder).0
    ensures reply == Serve(core, [], Call<F, Op, R>.NewBuilder).1
  {
    UnlockedAlone(core, [], Call<F, Op, R>.NewBuilder);
    made := new BuilderResource(core.empty);
    reply := Handle(0);
  }

  /** `with_filter` around one core update. */
  method WithFilter<F, B, Op, R>(core: Core<F, B, Op, R>, handle: FilterResource<F>, op: Op) returns (reply: Reply<R>)
    modifies handle
    ensures [handle.AsSlot()] == old(Serve(core, [handle.AsSlot()], Update(0, op))).0
    ensures reply == old(Serve(core, [handle.AsSlot()], Update(0, op))).1
  {
    UpdateAlone(core, [handle.AsSlot()], 0, op);
    if handle.poisoned { return PoisonedResource; }
    var w := core.update(op, handle.filter);
    handle.filter := w.end;
    match w.outcome {
      case Answered(term) => reply := Answer(term);
      case Panicked =>
        handle.poisoned := true;
        reply := NifPanic;
    }
  }

  /** Every `*_recorded` call: the filter's lock, then the builder's, then one core call on both. */
  method Recorded<F, B, Op, R>(core: Core<F, B, Op, R>, handle: FilterResource<F>, history: BuilderResource<B>, op: Op)
    returns (reply: Reply<R>)
    modifies handle, history
    ensures [handle.AsSlot(), history.AsSlot()] ==
            old(Serve(core, [handle.AsSlot(), history.AsSlot()], Record(0, 1, op))).0
    ensures reply == old(Serve(core, [handle.AsSlot(), history.AsSlot()], Record(0, 1, op))).1
  {
    ghost var slots: seq<Slot<F, B>> := [handle.AsSlot(), history.AsSlot()];
    assert Handles(slots, Call<F, Op, R>.Record(0, 1, op));
    RecordMeetsPoison(core, slots, 0, 1, op);
    if handle.poisoned { return PoisonedResource; }
    if history.poisoned { return PoisonedResource; }
    var w := core.record(op, handle.filter, history.builder);
    handle.filter, history.builder := w.end.0, w.end.1;
    match w.outcome {
      case Answered(term) => reply := Answer(term);
      case Panicked =>
        handle.poisoned, history.poisoned := true, true;
        reply := NifPanic;
    }
  }

  /** `fusion_rts_history_builder_from_filter`: a new builder resource, made while the filter is locked. */
  method BuilderFromFilter<F, B, Op, R>(core: Core<F, B, Op, R>, handle: FilterResource<F>)
    returns (reply: Reply<R>, made: BuilderResource?<B>)
    modifies handle`poisoned
    ensures reply == old(Serve(core, [handle.AsSlot()], Call<F, Op, R>.FromFilter(0))).1
    ensures made != null ==> fresh(made)
    ensures [handle.AsSlot<B>()] + (if made == null then [] else [made.AsSlot()]) ==
            old(Serve(core, [handle.AsSlot()], Call<F, Op, R>.FromFilter(0))).0
  {
    FromFilterAlone(core, [handle.AsSlot()], 0);
    made := null;
    if handle.poisoned { return PoisonedResource, null; }
    match core.fromFilter(handle.filter) {
      case Built(b) =>
        made := new BuilderResource(b);
        reply := Handle(1);
      case Refused(error) => reply := Answer(error);
      case BuildPanicked =>
        handle.poisoned := true;
        reply := NifPanic;
    }
  }

  /** `fusion_rts_history_builder_finish`: a clone is finished, the builder stays. */
  method FinishBuilder<F, B, Op, R>(core: Core<F, B, Op, R>, history: BuilderResource<B>) returns (reply: Reply<R>)
    modifies history`poisoned
    ensures [history.AsSlot<F>()] == old(Serve(core, [history.AsSlot<F>()], Call<F, Op, R>.Finish(0))).0
    ensures reply == old(Serve(core, [history.AsSlot<F>()], Call<F, Op, R>.Finish(0))).1
  {
    ghost var slots: seq<Slot<F, B>> := [history.AsSlot()];
    assert Handles(slots, Call<F, Op, R>.Finish(0));
    FinishAlone(core, slots, 0);
    if history.poisoned { return PoisonedResource; }
    var clone := history.builder;
    match core.finish(clone) {
      case Answered(term) => reply := Answer(term);
      case Panicked =>
        history.poisoned := true;
        reply := NifPanic;
    }
    assert [history.AsSlot()] == Serve(core, slots, Call<F, Op, R>.Finish(0)).0;
  }
}
