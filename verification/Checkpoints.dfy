/**
  Collapsing same-epoch checkpoints before a filter state is serialized
  (`dedupe_same_epoch_checkpoints` in native/sidereon_nif/src/fusion.rs).

  Epochs are compared by their bit patterns, so the collapse is over runs of
  equal bits; the payload of a checkpoint is not looked at.
*/
module Checkpoints {
  import opened Wrappers
  import opened Binary64

  datatype Checkpoint<D> = Checkpoint(bits: Bits, payload: D)

  type History<D> = seq<Checkpoint<D>>

  /** The last checkpoint of each maximal run of equal epoch bits, in order. */
  function RunEnds<D>(h: History<D>): (r: History<D>) {
    if h == [] then []
    else if |h| > 1 && h[0].bits == h[1].bits then RunEnds(h[1..])
    else [h[0]] + RunEnds(h[1..])
  }

  predicate NoRepeats<D>(h: History<D>) {
    forall i :: 0 < i < |h| ==> h[i - 1].bits != h[i].bits
  }

  /** The last checkpoint whose epoch a predicate accepts: what every lookup by epoch finds. */
  function LastWhere<D>(h: History<D>, accept: Bits -> bool): (r: Option<Checkpoint<D>>)
    ensures r.Some? ==> r.value in h && accept(r.value.bits)
    ensures r.None? ==> forall c :: c in h ==> !accept(c.bits)
  {
    if h == [] then None
    else
      var n := |h| - 1;
      if accept(h[n].bits) then Some(h[n]) else LastWhere(h[..n], accept)
  }

  /** One more checkpoint after a collapsed history: it overwrites an equal epoch. */
  function Push<D>(collapsed: History<D>, c: Checkpoint<D>): History<D> {
    var n := |collapsed|;
    if n > 0 && collapsed[n - 1].bits == c.bits then collapsed[n - 1 := c] else collapsed + [c]
  }

  lemma {:induction false} RunEndsPush<D>(h: History<D>, c: Checkpoint<D>)
    ensures RunEnds(h + [c]) == Push(RunEnds(h), c)
    ensures h != [] ==> RunEnds(h) != [] && RunEnds(h)[|RunEnds(h)| - 1] == h[|h| - 1]
  {
    if h == [] {
      assert h + [c] == [c] && RunEnds([c]) == [c] + RunEnds([]);
    } else {
      RunEndsPush(h[1..], c);
      assert (h + [c])[1..] == h[1..] + [c];
      assert |h| == 1 ==> RunEnds(h[1..]) == [];
    }
  }

  class TimeSyncState<D> {
    var checkpoints: History<D>

    constructor (history: History<D>)
      ensures checkpoints == history
    {
      checkpoints := history;
    }

    /** Keeps exactly the last checkpoint of each run of equal epoch bits. */
    method Dedupe()
      modifies this
      ensures checkpoints == RunEnds(old(checkpoints))
    {
      var pending := checkpoints;
      checkpoints := [];
      var deduped: History<D> := [];
      var i := 0;
      while i < |pending|
        invariant 0 <= i <= |pending|
        invariant deduped == RunEnds(pending[..i])
      {
        RunEndsPush(pending[..i], pending[i]);
        assert pending[..i + 1] == pending[..i] + [pending[i]];
        var last := |deduped| - 1;
        if |deduped| > 0 && deduped[last].bits == pending[i].bits {
          deduped := deduped[last := pending[i]];
        } else {
          deduped := deduped + [pending[i]];
        }
        i := i + 1;
      }
      assert pending[..i] == pending;
      checkpoints := deduped;
    }
  }

  /** No lookup by epoch can tell the collapsed history from the whole one. */
  lemma {:induction false} LookupsKept<D>(h: History<D>, accept: Bits -> bool)
    ensures LastWhere(RunEnds(h), accept) == LastWhere(h, accept)
  {
    if h != [] {
      var n := |h| - 1;
      LookupsKept(h[..n], accept);
      RunEndsPush(h[..n], h[n]);
      assert h == h[..n] + [h[n]];
      var r, before := RunEnds(h), RunEnds(h[..n]);
      assert r[|r| - 1] == h[n];
      if before != [] && before[|before| - 1].bits == h[n].bits {
        assert r[..|r| - 1] == before[..|before| - 1];
      } else {
        assert r[..|r| - 1] == before;
      }
    }
  }

  lemma {:induction false} RunEndsHasNoRepeats<D>(h: History<D>)
    ensures NoRepeats(RunEnds(h))
  {
    if h != [] {
      var n := |h| - 1;
      RunEndsHasNoRepeats(h[..n]);
      RunEndsPush(h[..n], h[n]);
      assert h == h[..n] + [h[n]];
    }
  }

  lemma {:induction false} NothingToCollapse<D>(h: History<D>)
    requires NoRepeats(h)
    ensures RunEnds(h) == h
  {
    if h != [] {
      NothingToCollapse(h[1..]);
      assert forall i :: 0 < i < |h[1..]| ==> h[1..][i] == h[i + 1];
    }
  }

  /** A history is left alone exactly when no two neighbours share their epoch bits. */
  lemma {:induction false} FixedPoints<D>(h: History<D>)
    ensures RunEnds(h) == h <==> NoRepeats(h)
    ensures RunEnds(RunEnds(h)) == RunEnds(h)
  {
    RunEndsHasNoRepeats(h);
    NothingToCollapse(RunEnds(h));
    if NoRepeats(h) { NothingToCollapse(h); }
  }

  /** Collapsing early or late is the same: a collapsed history can be extended and collapsed again. */
  lemma {:induction false} Incremental<D>(a: History<D>, b: History<D>)
    ensures RunEnds(a + b) == RunEnds(RunEnds(a) + b)
    decreases |b|
  {
    if b == [] {
      assert a + b == a && RunEnds(a) + b == RunEnds(a);
      FixedPoints(a);
    } else {
      var n := |b| - 1;
      Incremental(a, b[..n]);
      assert a + b == (a + b[..n]) + [b[n]];
      assert RunEnds(a) + b == (RunEnds(a) + b[..n]) + [b[n]];
      RunEndsPush(a + b[..n], b[n]);
      RunEndsPush(RunEnds(a) + b[..n], b[n]);
    }
  }

  // ---------------------------------------------------------------------
  // Epoch order
  // ---------------------------------------------------------------------

  predicate InOrder<D>(h: History<D>, epoch: Bits -> real) {
    forall i :: 0 < i < |h| ==> epoch(h[i - 1].bits) <= epoch(h[i].bits)
  }

  predicate StrictlyInOrder<D>(h: History<D>, epoch: Bits -> real) {
    forall i :: 0 < i < |h| ==> epoch(h[i - 1].bits) < epoch(h[i].bits)
  }

  /** Neighbours whose patterns differ denote different epochs (no `-0.0` next to `0.0`). */
  predicate PatternsTellEpochs<D>(h: History<D>, epoch: Bits -> real) {
    forall i :: 0 < i < |h| && h[i - 1].bits != h[i].bits ==> epoch(h[i - 1].bits) != epoch(h[i].bits)
  }

  lemma {:induction false} StrictPush<D>(d: History<D>, c: Checkpoint<D>, epoch: Bits -> real)
    requires d != []
    ensures StrictlyInOrder(Push(d, c), epoch) <==>
            StrictlyInOrder(d, epoch) && (d[|d| - 1].bits == c.bits || epoch(d[|d| - 1].bits) < epoch(c.bits))
  {
    var r := Push(d, c);
    assert forall i :: 0 <= i < |d| ==> r[i].bits == d[i].bits;
    if StrictlyInOrder(r, epoch) {
      assert forall i :: 0 < i < |d| ==> epoch(r[i - 1].bits) < epoch(r[i].bits);
      if d[|d| - 1].bits != c.bits {
        assert epoch(r[|d| - 1].bits) < epoch(r[|d|].bits);
      }
    }
  }

  lemma {:induction false} PatternsPush<D>(h: History<D>, c: Checkpoint<D>, epoch: Bits -> real)
    requires h != []
    ensures PatternsTellEpochs(h + [c], epoch) <==>
            PatternsTellEpochs(h, epoch) && (h[|h| - 1].bits == c.bits || epoch(h[|h| - 1].bits) != epoch(c.bits))
  {
    var r := h + [c];
    assert forall i :: 0 <= i < |h| ==> r[i] == h[i];
    if PatternsTellEpochs(r, epoch) {
      assert forall i :: 0 < i < |h| && r[i - 1].bits != r[i].bits ==> epoch(r[i - 1].bits) != epoch(r[i].bits);
      assert r[|h| - 1].bits != r[|h|].bits ==> epoch(r[|h| - 1].bits) != epoch(r[|h|].bits);
    }
  }

  /** An ordered history collapses to a strictly ordered one exactly when
      neighbouring patterns that differ denote different epochs. */
  lemma {:induction false} CollapseOrders<D>(h: History<D>, epoch: Bits -> real)
    requires InOrder(h, epoch)
    ensures StrictlyInOrder(RunEnds(h), epoch) <==> PatternsTellEpochs(h, epoch)
  {
    if |h| > 1 {
      var n := |h| - 1;
      assert h == h[..n] + [h[n]] && InOrder(h[..n], epoch) && epoch(h[n - 1].bits) <= epoch(h[n].bits);
      CollapseOrders(h[..n], epoch);
      PushOrders(h[..n], h[n], epoch);
    } else {
      assert |RunEnds(h)| == |h|;
    }
  }

  lemma {:induction false} PushOrders<D>(h: History<D>, c: Checkpoint<D>, epoch: Bits -> real)
    requires h != [] && epoch(h[|h| - 1].bits) <= epoch(c.bits)
    requires StrictlyInOrder(RunEnds(h), epoch) <==> PatternsTellEpochs(h, epoch)
    ensures StrictlyInOrder(RunEnds(h + [c]), epoch) <==> PatternsTellEpochs(h + [c], epoch)
  {
    RunEndsPush(h, c);
    StrictPush(RunEnds(h), c, epoch);
    PatternsPush(h, c, epoch);
  }

  // ---------------------------------------------------------------------
  // Epochs that are doubles
  // ---------------------------------------------------------------------

  /** The number a finite pattern denotes, in units of 2^-1074. */
  function EpochOf(b: Bits): real {
    Units(Unpack(b)) as real
  }

  predicate TheTwoZeros(a: Bits, b: Bits) {
    (a == 0 && b == NEGATIVE_ZERO) || (a == NEGATIVE_ZERO && b == 0)
  }

  /** Two finite patterns denote one number only if they are one pattern or the two zeros. */
  lemma {:induction false} SameEpoch(a: Bits, b: Bits)
    requires Finite(Unpack(a)) && Finite(Unpack(b))
    ensures EpochOf(a) == EpochOf(b) <==> a == b || TheTwoZeros(a, b)
  {
    OnlyZerosVanish(a);
    OnlyZerosVanish(b);
    if EpochOf(a) == EpochOf(b) && Unpack(a).negative == Unpack(b).negative {
      UnitsDetermine(Unpack(a), Unpack(b));
      UnpackIsInjective(a, b);
    }
  }

  /** An ordered history of finite epochs collapses to a strictly increasing one if
      and only if the two zeros are never neighbours in it. */
  lemma {:induction false} CollapseOrdersDoubles<D>(h: History<D>)
    requires InOrder(h, EpochOf) && forall i :: 0 <= i < |h| ==> Finite(Unpack(h[i].bits))
    ensures StrictlyInOrder(RunEnds(h), EpochOf) <==>
            forall i :: 0 < i < |h| ==> !TheTwoZeros(h[i - 1].bits, h[i].bits)
  {
    CollapseOrders(h, EpochOf);
    forall i | 0 < i < |h|
      ensures h[i - 1].bits != h[i].bits && EpochOf(h[i - 1].bits) == EpochOf(h[i].bits)
              <==> TheTwoZeros(h[i - 1].bits, h[i].bits)
    {
      SameEpoch(h[i - 1].bits, h[i].bits);
    }
  }

  /** The smallest history that stays in order but not strictly. */
  lemma {:induction false} ZerosStay<D>(first: D, second: D)
    ensures var h := [Checkpoint(0, first), Checkpoint(NEGATIVE_ZERO, second)];
            && InOrder(h, EpochOf) && RunEnds(h) == h && !StrictlyInOrder(RunEnds(h), EpochOf)
  {
    var h := [Checkpoint(0, first), Checkpoint(NEGATIVE_ZERO, second)];
    SameEpoch(0, NEGATIVE_ZERO);
    NothingToCollapse(h);
    assert EpochOf(h[0].bits) == EpochOf(h[1].bits);
  }
}
