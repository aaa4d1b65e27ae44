/** The bootstrap target of `compute_loss`: the target network's best value
    for each present next state, scattered back into a zero vector at the
    non-final positions, then `reward + gamma**nsteps * value`. */
module Targets {
  import opened Experience
  import opened Batch

  /** The index `max(dim=1)[1]` picks: a maximal entry, the first one among
      equal maxima. */
  function ArgMax(vs: seq<real>): (k: nat)
    requires |vs| > 0
    ensures k < |vs|
    ensures forall j :: 0 <= j < |vs| ==> vs[j] <= vs[k]
    ensures forall j :: 0 <= j < k ==> vs[j] < vs[k]
  {
    if |vs| == 1 then 0
    else
      var k := ArgMax(vs[..|vs| - 1]);
      if vs[|vs| - 1] > vs[k] then |vs| - 1 else k
  }

  /** The value one present next state contributes: the action is chosen by
      `get_max_next_state_action`, which asks the TARGET network, and that
      action is then evaluated by the same target network. */
  function MaxNextValue(net: Network, target: Params, s: State): (v: real)
    requires |net(target, s)| > 0
    ensures forall a :: 0 <= a < |net(target, s)| ==> net(target, s)[a] <= v
    ensures exists a :: 0 <= a < |net(target, s)| && net(target, s)[a] == v
  {
    var vs := net(target, s);
    vs[ArgMax(vs)]
  }

  /** The target network gives every listed state at least one action value. */
  predicate Evaluable(net: Network, target: Params, states: seq<State>)
  {
    forall j :: 0 <= j < |states| ==> |net(target, states[j])| > 0
  }

  /** `target_model(non_final_next_states).gather(1, max_next_action)`. */
  function BootstrapValues(net: Network, target: Params, states: seq<State>): (r: seq<real>)
    requires Evaluable(net, target, states)
    ensures |r| == |states|
  {
    seq(|states|, j requires 0 <= j < |states| => MaxNextValue(net, target, states[j]))
  }

  /** `x[mask] = values`: the j-th value lands on the j-th true position of
      the mask; every other position keeps its old entry. */
  function MaskedAssign(base: seq<real>, mask: seq<bool>, values: seq<real>): (r: seq<real>)
    requires |mask| == |base| && |values| == CountTrue(mask)
    ensures |r| == |base|
  {
    seq(|base|, i requires 0 <= i < |base| =>
      if mask[i] then RankBounded(mask, i); values[Rank(mask, i)] else base[i])
  }

  /** `x[mask]` read back: the entries at the true positions, in order. */
  function Gather(xs: seq<real>, mask: seq<bool>): seq<real>
    requires |mask| == |xs|
  {
    if xs == [] then []
    else
      var n := |xs|;
      Gather(xs[..n - 1], mask[..n - 1]) + (if mask[n - 1] then [xs[n - 1]] else [])
  }

  /** Reading the masked positions back after a masked assignment gives
      exactly the assigned values, whatever the vector held before. */
  lemma {:induction false} GatherMaskedAssign(base: seq<real>, mask: seq<bool>, values: seq<real>)
    requires |mask| == |base| && |values| == CountTrue(mask)
    ensures Gather(MaskedAssign(base, mask, values), mask) == values
  {
    var n := |base|;
    if n > 0 {
      var m := mask[..n - 1];
      var c := CountTrue(m);
      var vs := values[..c];
      var r := MaskedAssign(base, mask, values);
      var r' := MaskedAssign(base[..n - 1], m, vs);
      forall i | 0 <= i < n - 1 ensures r[..n - 1][i] == r'[i] {
        assert m[..i] == mask[..i];
        if mask[i] {
          RankBounded(m, i);
        }
      }
      assert r[..n - 1] == r';
      GatherMaskedAssign(base[..n - 1], m, vs);
      assert Rank(mask, n - 1) == c;
      if mask[n - 1] {
        assert values == vs + [values[c]];
      } else {
        assert values == vs;
      }
    }
  }

  /** The in-place masked assignment `max_next_q_values[non_final_mask] = ...`. */
  method MaskedAssignInPlace(a: array<real>, mask: seq<bool>, values: seq<real>)
    requires a.Length == |mask| && |values| == CountTrue(mask)
    modifies a
    ensures a[..] == MaskedAssign(old(a[..]), mask, values)
  {
    ghost var before := a[..];
    ghost var want := MaskedAssign(before, mask, values);
    var i, j := 0, 0;
    while i < a.Length
      invariant 0 <= i <= a.Length
      invariant j == Rank(mask, i)
      invariant forall k :: 0 <= k < i ==> a[k] == want[k]
      invariant forall k :: i <= k < a.Length ==> a[k] == before[k]
    {
      RankStep(mask, i);
      if mask[i] {
        RankBounded(mask, i);
        a[i] := values[j];
        j := j + 1;
      }
      i := i + 1;
    }
    assert a[..] == want;
  }

  /** A vector of zeros, `torch.zeros(n)`. */
  function Zeros(n: nat): (z: seq<real>)
    ensures |z| == n
  {
    seq(n, _ => 0.0)
  }

  /** The next-state value of each batch entry: zero throughout when the
      empty flag is set (the network is not consulted), otherwise the
      bootstrap values scattered into zeros at the non-final positions. */
  function NextValues(mb: Minibatch, net: Network, target: Params): (v: seq<real>)
    requires Consistent(mb)
    requires mb.nonFinalNextStates.Some? ==> Evaluable(net, target, mb.nonFinalNextStates.value)
    ensures |v| == |mb.nonFinalMask|
    ensures mb.emptyNextStateValues ==> v == Zeros(|mb.nonFinalMask|)
  {
    var zeros := Zeros(|mb.nonFinalMask|);
    if mb.emptyNextStateValues then zeros
    else MaskedAssign(zeros, mb.nonFinalMask, BootstrapValues(net, target, mb.nonFinalNextStates.value))
  }

  /** One entry of the target formula: `r + gamma**nsteps * v`. A zero
      next-state value (a terminal entry) leaves the reward as it is, and so
      does a zero discount over a positive horizon. */
  function Bootstrapped(reward: real, gamma: real, nsteps: nat, value: real): (y: real)
    ensures value == 0.0 ==> y == reward
    ensures gamma == 0.0 && nsteps > 0 ==> y == reward
  {
    reward + Pow(gamma, nsteps) * value
  }

  /** `batch_reward + gamma**nsteps * max_next_q_values` on given next-state
      values, entry by entry. */
  function Expected(rewards: seq<real>, gamma: real, nsteps: nat, next: seq<real>): (y: seq<real>)
    requires |next| == |rewards|
    ensures |y| == |rewards|
    ensures forall i :: 0 <= i < |y| && next[i] == 0.0 ==> y[i] == rewards[i]
  {
    seq(|rewards|, i requires 0 <= i < |rewards| => Bootstrapped(rewards[i], gamma, nsteps, next[i]))
  }

  /** `expected_q_values` of a minibatch: the target formula on the
      next-state values of `NextValues`. */
  function ExpectedValues(mb: Minibatch, gamma: real, nsteps: nat, net: Network, target: Params): (y: seq<real>)
    requires Consistent(mb)
    requires mb.nonFinalNextStates.Some? ==> Evaluable(net, target, mb.nonFinalNextStates.value)
    ensures |y| == |mb.rewards|
    ensures mb.emptyNextStateValues ==> y == mb.rewards
  {
    Expected(mb.rewards, gamma, nsteps, NextValues(mb, net, target))
  }

  /** The target network can evaluate every present next state of a batch. */
  predicate NextStatesEvaluable(net: Network, target: Params, batch: seq<Transition>)
  {
    forall k :: 0 <= k < |batch| && batch[k].next.Some? ==> |net(target, batch[k].next.value)| > 0
  }

  lemma NextStatesEvaluableFiltered(net: Network, target: Params, batch: seq<Transition>)
    requires NextStatesEvaluable(net, target, batch)
    ensures Evaluable(net, target, NonFinalNextStates(batch))
  {
    forall j | 0 <= j < |NonFinalNextStates(batch)|
      ensures |net(target, NonFinalNextStates(batch)[j])| > 0
    {
      var i := RankPosition(batch, j);
      NonFinalNextStatesAt(batch, i);
    }
  }

  /** The batch position whose rank among the non-final positions is j. */
  lemma {:induction false} RankPosition(batch: seq<Transition>, j: nat) returns (i: nat)
    requires j < CountTrue(NonFinalMask(batch))
    ensures i < |batch| && batch[i].next.Some? && Rank(NonFinalMask(batch), i) == j
  {
    var n := |batch|;
    var m := NonFinalMask(batch);
    NonFinalMaskPrefix(batch, n - 1);
    if j < CountTrue(m[..n - 1]) {
      i := RankPosition(batch[..n - 1], j);
      NonFinalMaskPrefix(batch, i);
      NonFinalMaskPrefix(batch[..n - 1], i);
      assert batch[..n - 1][..i] == batch[..i];
    } else {
      i := n - 1;
      assert m[..n] == m;
    }
  }

  /** The next-state value of batch entry i: zero for a terminal entry,
      the target network's largest action value at its next state otherwise. */
  lemma NextValuesAt(batch: seq<Transition>, net: Network, target: Params, i: nat)
    requires NextStatesEvaluable(net, target, batch)
    requires i < |batch|
    ensures Evaluable(net, target, NonFinalNextStates(batch))
    ensures |NextValues(PrepMinibatch(batch), net, target)| == |batch|
    ensures NextValues(PrepMinibatch(batch), net, target)[i] ==
      if batch[i].next.Some? then MaxNextValue(net, target, batch[i].next.value) else 0.0
  {
    NextStatesEvaluableFiltered(net, target, batch);
    var mb := PrepMinibatch(batch);
    var v := NextValues(mb, net, target);
    if batch[i].next.Some? {
      assert !mb.emptyNextStateValues;
      var states := NonFinalNextStates(batch);
      assert mb.nonFinalNextStates == Some(states);
      NonFinalNextStatesAt(batch, i);
      var b := BootstrapValues(net, target, states);
      assert v == MaskedAssign(Zeros(|batch|), mb.nonFinalMask, b);
      assert v[i] == b[Rank(mb.nonFinalMask, i)];
    } else if !mb.emptyNextStateValues {
      assert !mb.nonFinalMask[i];
    }
  }

  lemma ExpectedValuesEntry(mb: Minibatch, gamma: real, nsteps: nat, net: Network, target: Params, i: nat)
    requires Consistent(mb)
    requires mb.nonFinalNextStates.Some? ==> Evaluable(net, target, mb.nonFinalNextStates.value)
    requires i < |mb.rewards|
    ensures ExpectedValues(mb, gamma, nsteps, net, target)[i] ==
      Bootstrapped(mb.rewards[i], gamma, nsteps, NextValues(mb, net, target)[i])
  {
  }

  /** The bootstrap target of every batch entry: a terminal entry's target
      is exactly its reward; a non-terminal entry's target is its reward
      plus `gamma**nsteps` times the target network's largest action value
      at its own next state. */
  lemma ExpectedValuesAt(batch: seq<Transition>, gamma: real, nsteps: nat, net: Network, target: Params, i: nat)
    requires NextStatesEvaluable(net, target, batch)
    requires i < |batch|
    ensures Evaluable(net, target, NonFinalNextStates(batch))
    ensures |ExpectedValues(PrepMinibatch(batch), gamma, nsteps, net, target)| == |batch|
    ensures batch[i].next.None? ==>
      ExpectedValues(PrepMinibatch(batch), gamma, nsteps, net, target)[i] == batch[i].reward
    ensures batch[i].next.Some? ==>
      ExpectedValues(PrepMinibatch(batch), gamma, nsteps, net, target)[i] ==
        Bootstrapped(batch[i].reward, gamma, nsteps, MaxNextValue(net, target, batch[i].next.value))
  {
    NextValuesAt(batch, net, target, i);
    var mb := PrepMinibatch(batch);
    var v := NextValues(mb, net, target);
    var y := ExpectedValues(mb, gamma, nsteps, net, target);
    ExpectedValuesEntry(mb, gamma, nsteps, net, target, i);
    assert mb.rewards[i] == batch[i].reward;
    if batch[i].next.None? {
      assert y[i] == Bootstrapped(batch[i].reward, gamma, nsteps, 0.0);
    } else {
      assert y[i] == Bootstrapped(batch[i].reward, gamma, nsteps, MaxNextValue(net, target, batch[i].next.value));
    }
  }

  /** A batch whose every entry is terminal: the empty flag is set, there
      are no next states to stack, and every target is the entry's reward,
      whatever the networks are. */
  lemma AllTerminalBatch(batch: seq<Transition>, gamma: real, nsteps: nat, net: Network, target: Params)
    requires |batch| > 0
    requires forall i :: 0 <= i < |batch| ==> batch[i].next.None?
    ensures PrepMinibatch(batch).emptyNextStateValues
    ensures PrepMinibatch(batch).nonFinalNextStates == None && NonFinalNextStates(batch) == []
    ensures forall i :: 0 <= i < |batch| ==> ExpectedValues(PrepMinibatch(batch), gamma, nsteps, net, target)[i] == batch[i].reward
  {
    AllTerminalIffNoNextStates(batch);
    forall i | 0 <= i < |batch|
      ensures ExpectedValues(PrepMinibatch(batch), gamma, nsteps, net, target)[i] == batch[i].reward
    {
      ExpectedValuesAt(batch, gamma, nsteps, net, target, i);
    }
  }
}
