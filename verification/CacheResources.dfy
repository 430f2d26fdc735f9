/**
  The cache's resources as objects (native/sidereon_nif/src/cache_lock.rs): an
  acquired owner and an open cache, each call run to its end. Each method leaves
  what `Alone` leaves, and every concurrent run is such calls one after the other
  (`CacheTheorems.Linearizable`).
*/
module CacheResources {
  import opened Wrappers
  import opened CacheLock
  import opened CacheTheorems

  class ExactCacheOwnerResource<T> {
    var owner: Option<T>
    var poisoned: bool

    constructor (acquired: T)
      ensures owner == Some(acquired) && !poisoned
    {
      owner, poisoned := Some(acquired), false;
    }

    method HeartbeatCall<R>(result: CoreResult<R>) returns (reply: Reply<R>)
      modifies this
      ensures (owner, poisoned, reply) == old(Alone(Heartbeat, owner, poisoned, result))
      ensures owner == old(owner)
      ensures poisoned == old(poisoned || (owner.Some? && result.Panicked?))
      ensures reply == if old(poisoned) then Poisoned else if owner.None? then Closed
                       else if result.Panicked? then NifPanic else Answer(result.term)
    {
      if poisoned { return Poisoned; }
      if owner.None? { return Closed; }
      if result.Panicked? { poisoned := true; return NifPanic; }
      reply := Answer(result.term);
    }

    method PublishCall<R>(result: CoreResult<R>) returns (reply: Reply<R>)
      modifies this
      ensures (owner, poisoned, reply) == old(Alone(OwnerPublish, owner, poisoned, result))
      ensures owner == old(if poisoned then owner else None) && poisoned == old(poisoned)
      ensures reply == if poisoned then Poisoned else if old(owner).None? then Closed
                       else if result.Panicked? then NifPanic else Answer(result.term)
    {
      if poisoned { return Poisoned; }
      var taken := owner;
      owner := None;
      if taken.None? { return Closed; }
      reply := if result.Panicked? then NifPanic else Answer(result.term);
    }

    method AbandonCall<R>(result: CoreResult<R>) returns (reply: Reply<R>)
      modifies this
      ensures (owner, poisoned, reply) == old(Alone(Abandon, owner, poisoned, result))
      ensures owner == old(if poisoned then owner else None) && poisoned == old(poisoned)
      ensures reply == if poisoned then Poisoned
                       else if old(owner).Some? && result.Panicked? then NifPanic else Done
    {
      if poisoned { return Poisoned; }
      var taken := owner;
      owner := None;
      reply := if taken.Some? && result.Panicked? then NifPanic else Done;
    }
  }

  class ExactCacheResource<T> {
    var guard: Option<T>
    var poisoned: bool

    constructor (locked: T)
      ensures guard == Some(locked) && !poisoned
    {
      guard, poisoned := Some(locked), false;
    }

    /** Reads after the check has let go of the mutex; a poisoned mutex counts as closed. */
    method ReadCall<R>(result: CoreResult<R>) returns (reply: Reply<R>)
      ensures (guard, poisoned, reply) == Alone(Read, guard, poisoned, result)
      ensures reply == if poisoned || guard.None? then Closed
                       else if result.Panicked? then NifPanic else Answer(result.term)
    {
      var open := !poisoned && guard.Some?;
      if !open { return Closed; }
      reply := if result.Panicked? then NifPanic else Answer(result.term);
    }

    /** Publish and cleanup hold the guard's mutex for as long as the core works. */
    method GuardedCall<R>(cleanup: bool, result: CoreResult<R>) returns (reply: Reply<R>)
      modifies this
      ensures (guard, poisoned, reply) == old(Alone(if cleanup then Cleanup else Publish, guard, poisoned, result))
      ensures guard == old(guard)
      ensures poisoned == old(poisoned || (guard.Some? && result.Panicked?))
      ensures reply == if old(poisoned) then Poisoned else if guard.None? then Closed
                       else if result.Panicked? then NifPanic else Answer(result.term)
    {
      if poisoned { return Poisoned; }
      if guard.None? { return Closed; }
      if result.Panicked? { poisoned := true; return NifPanic; }
      reply := Answer(result.term);
    }

    method CloseCall<R>(result: CoreResult<R>) returns (reply: Reply<R>)
      modifies this
      ensures (guard, poisoned, reply) == old(Alone(Close, guard, poisoned, result))
      ensures guard == old(if poisoned then guard else None) && poisoned == old(poisoned)
      ensures reply == if poisoned then Poisoned else Done
    {
      if poisoned { return Poisoned; }
      guard := None;
      reply := Done;
    }
  }
}
