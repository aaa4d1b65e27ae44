/** Batch assembly (`prep_minibatch`): a sampled batch of transitions
    unzipped into aligned columns, the non-final mask, the list of present
    next states and the flag for a batch whose every entry is terminal. */
module Batch {
  import opened Experience

  /** Number of true entries of a mask. */
  function CountTrue(m: seq<bool>): nat
  {
    if m == [] then 0 else CountTrue(m[..|m| - 1]) + (if m[|m| - 1] then 1 else 0)
  }

  /** The rank of position i among the true positions of m: how many true
      entries come before it. */
  function Rank(m: seq<bool>, i: nat): nat
    requires i <= |m|
  {
    CountTrue(m[..i])
  }

  lemma RankStep(m: seq<bool>, i: nat)
    requires i < |m|
    ensures Rank(m, i + 1) == Rank(m, i) + (if m[i] then 1 else 0)
  {
    assert m[..i + 1][..i] == m[..i];
  }

  lemma {:induction false} RankBounded(m: seq<bool>, i: nat)
    requires i <= |m|
    ensures Rank(m, i) <= CountTrue(m)
    ensures i < |m| && m[i] ==> Rank(m, i) < CountTrue(m)
    decreases |m| - i
  {
    if i == |m| {
      assert m[..i] == m;
    } else {
      RankStep(m, i);
      RankBounded(m, i + 1);
    }
  }

  /** A mask has no true entry exactly when it counts zero. */
  lemma {:induction false} CountTrueZero(m: seq<bool>)
    ensures CountTrue(m) == 0 <==> forall i :: 0 <= i < |m| ==> !m[i]
  {
    if m != [] {
      CountTrueZero(m[..|m| - 1]);
      if CountTrue(m) == 0 {
        forall i | 0 <= i < |m| ensures !m[i] {
          if i < |m| - 1 {
            assert m[i] == m[..|m| - 1][i];
          }
        }
      }
    }
  }

  /** `non_final_mask`: entry i is true when batch entry i has a next state. */
  function NonFinalMask(batch: seq<Transition>): (m: seq<bool>)
    ensures |m| == |batch|
  {
    seq(|batch|, i requires 0 <= i < |batch| => batch[i].next.Some?)
  }

  lemma NonFinalMaskPrefix(batch: seq<Transition>, i: nat)
    requires i <= |batch|
    ensures NonFinalMask(batch)[..i] == NonFinalMask(batch[..i])
  {
  }

  /** `[s for s in batch_next_state if s is not None]`: one element per
      true entry of the non-final mask. */
  function NonFinalNextStates(batch: seq<Transition>): (r: seq<State>)
    ensures |r| == CountTrue(NonFinalMask(batch))
  {
    if batch == [] then []
    else
      var last := batch[|batch| - 1];
      NonFinalMaskPrefix(batch, |batch| - 1);
      NonFinalNextStates(batch[..|batch| - 1]) + (if last.next.Some? then [last.next.value] else [])
  }

  /** The filtered list keeps the present next states in their original
      order: the present next state of entry i sits at i's rank among the
      true mask positions. */
  lemma {:induction false} NonFinalNextStatesAt(batch: seq<Transition>, i: nat)
    requires i < |batch| && batch[i].next.Some?
    ensures Rank(NonFinalMask(batch), i) < |NonFinalNextStates(batch)|
    ensures NonFinalNextStates(batch)[Rank(NonFinalMask(batch), i)] == batch[i].next.value
  {
    var n := |batch|;
    var init := batch[..n - 1];
    NonFinalMaskPrefix(batch, i);
    NonFinalMaskPrefix(batch, n - 1);
    if i == n - 1 {
    } else {
      assert init[..i] == batch[..i];
      NonFinalMaskPrefix(init, i);
      NonFinalNextStatesAt(init, i);
      assert Rank(NonFinalMask(batch), i) == Rank(NonFinalMask(init), i);
    }
  }

  /** Every entry is terminal exactly when the filtered list is empty. */
  lemma AllTerminalIffNoNextStates(batch: seq<Transition>)
    ensures NonFinalNextStates(batch) == [] <==> forall i :: 0 <= i < |batch| ==> batch[i].next.None?
  {
    var m := NonFinalMask(batch);
    CountTrueZero(m);
    forall i | 0 <= i < |batch| ensures m[i] == batch[i].next.Some? {
    }
    assert NonFinalNextStates(batch) == [] <==> CountTrue(m) == 0;
  }

  /** The tensors `prep_minibatch` returns, as sequences. The next states
      are absent (`None`) exactly when `emptyNextStateValues` is set. */
  datatype Minibatch = Minibatch(
    states: seq<State>,
    actions: seq<nat>,
    rewards: seq<real>,
    nonFinalNextStates: Option<seq<State>>,
    nonFinalMask: seq<bool>,
    emptyNextStateValues: bool)

  /** The shape facts `prep_minibatch` guarantees and the target computation
      relies on. */
  predicate Consistent(mb: Minibatch)
  {
    |mb.actions| == |mb.states| && |mb.rewards| == |mb.states| && |mb.nonFinalMask| == |mb.states| &&
    (mb.emptyNextStateValues <==> mb.nonFinalNextStates.None?) &&
    (mb.nonFinalNextStates.Some? ==> |mb.nonFinalNextStates.value| == CountTrue(mb.nonFinalMask)) &&
    (mb.emptyNextStateValues ==> CountTrue(mb.nonFinalMask) == 0)
  }

  /** `prep_minibatch` on an already sampled batch. Building a tensor from
      an empty list of next states fails, and the source turns that failure
      into the empty flag. An empty sample is refused: unzipping it yields
      nothing to unpack into the four columns. */
  function PrepMinibatch(batch: seq<Transition>): (mb: Minibatch)
    requires |batch| > 0
    ensures Consistent(mb) && |mb.states| == |batch|
    ensures forall i :: 0 <= i < |batch| ==>
      mb.states[i] == batch[i].state && mb.actions[i] == batch[i].action && mb.rewards[i] == batch[i].reward
    ensures forall i :: 0 <= i < |batch| ==> (mb.nonFinalMask[i] <==> batch[i].next.Some?)
    ensures mb.emptyNextStateValues <==> forall i :: 0 <= i < |batch| ==> batch[i].next.None?
    ensures !mb.emptyNextStateValues ==> mb.nonFinalNextStates == Some(NonFinalNextStates(batch))
  {
    var present := NonFinalNextStates(batch);
    var empty := present == [];
    AllTerminalIffNoNextStates(batch);
    Minibatch(
      seq(|batch|, i requires 0 <= i < |batch| => batch[i].state),
      seq(|batch|, i requires 0 <= i < |batch| => batch[i].action),
      seq(|batch|, i requires 0 <= i < |batch| => batch[i].reward),
      if empty then None else Some(present),
      NonFinalMask(batch),
      empty)
  }
}
