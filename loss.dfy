/** The loss of `compute_loss`: the Huber function of the source, the
    per-sample losses handed to a prioritized memory, and their mean. */
module Loss {
  import opened Experience
  import opened Batch
  import opened Targets

  function Abs(x: real): real
  {
    if x < 0.0 then -x else x
  }

  /** The source's `huber`: with `cond` the 0/1 value of `x < 1.0`, the sum
      `0.5 * x**2 * cond + (|x| - 0.5) * (1 - cond)`. The test is on `x`,
      not on `|x|`, so every negative input takes the quadratic branch. */
  function Huber(x: real): (y: real)
    ensures x < 1.0 ==> y == 0.5 * x * x
    ensures x >= 1.0 ==> y == x - 0.5
    ensures y >= 0.0
  {
    var cond := if x < 1.0 then 1.0 else 0.0;
    0.5 * x * x * cond + (Abs(x) - 0.5) * (1.0 - cond)
  }

  /** The values at the boundary and beyond it on both sides; at -2 a test
      on `|x|` would have given 1.5. */
  lemma HuberExamples()
    ensures Huber(1.0) == 0.5
    ensures Huber(2.0) == 1.5
    ensures Huber(-2.0) == 2.0
  {
  }

  /** The sum of a sequence; non-negative entries give a non-negative sum. */
  function Sum(xs: seq<real>): (s: real)
    ensures (forall i :: 0 <= i < |xs| ==> xs[i] >= 0.0) ==> s >= 0.0
  {
    if xs == [] then 0.0
    else
      assert forall i :: 0 <= i < |xs| - 1 ==> xs[1..][i] == xs[i + 1];
      xs[0] + Sum(xs[1..])
  }

  /** `loss.mean()`; the mean of non-negative values is non-negative. */
  function Mean(xs: seq<real>): (m: real)
    requires |xs| > 0
    ensures (forall i :: 0 <= i < |xs| ==> xs[i] >= 0.0) ==> m >= 0.0
  {
    Sum(xs) / (|xs| as real)
  }

  /** Each taken action indexes into the online network's output for its
      state, as `gather(1, batch_action)` needs. */
  predicate ActionsInRange(net: Network, online: Params, mb: Minibatch)
  {
    |mb.actions| == |mb.states| &&
    forall i :: 0 <= i < |mb.states| ==> mb.actions[i] < |net(online, mb.states[i])|
  }

  /** `model(batch_state).gather(1, batch_action)`. */
  function CurrentValues(net: Network, online: Params, mb: Minibatch): (q: seq<real>)
    requires ActionsInRange(net, online, mb)
    ensures |q| == |mb.states|
  {
    seq(|mb.states|, i requires 0 <= i < |mb.states| => net(online, mb.states[i])[mb.actions[i]])
  }

  /** Everything `compute_loss` needs of a minibatch and the two networks. */
  predicate LossDefined(mb: Minibatch, net: Network, online: Params, target: Params)
  {
    Consistent(mb) && ActionsInRange(net, online, mb) &&
    (mb.nonFinalNextStates.Some? ==> Evaluable(net, target, mb.nonFinalNextStates.value))
  }

  /** `huber(diff)` of the target values `y` minus the estimates `q`, entry
      by entry. */
  function HuberLosses(y: seq<real>, q: seq<real>): (l: seq<real>)
    requires |q| == |y|
    ensures |l| == |y|
    ensures forall i :: 0 <= i < |l| ==> l[i] >= 0.0
    ensures forall i :: 0 <= i < |l| && y[i] - q[i] < 1.0 ==> l[i] == 0.5 * (y[i] - q[i]) * (y[i] - q[i])
    ensures forall i :: 0 <= i < |l| && y[i] - q[i] >= 1.0 ==> l[i] == y[i] - q[i] - 0.5
  {
    seq(|y|, i requires 0 <= i < |y| => Huber(y[i] - q[i]))
  }

  /** `huber(expected_q_values - current_q_values)` of a minibatch, one value
      per sample: what a prioritized memory receives in `update_priorities`. */
  function PerSampleLoss(mb: Minibatch, gamma: real, nsteps: nat, net: Network, online: Params, target: Params): (l: seq<real>)
    requires LossDefined(mb, net, online, target)
    ensures |l| == |mb.states|
    ensures forall i :: 0 <= i < |l| ==> l[i] >= 0.0
  {
    HuberLosses(ExpectedValues(mb, gamma, nsteps, net, target), CurrentValues(net, online, mb))
  }

  /** `loss = loss*weights` under prioritized replay, then `loss.mean()`. The
      result is non-negative for non-negative losses when replay is uniform
      or the weights are non-negative too. */
  function Reduce(l: seq<real>, weights: seq<real>, prioritized: bool): (r: real)
    requires |l| > 0
    requires prioritized ==> |weights| == |l|
    ensures (forall i :: 0 <= i < |l| ==> l[i] >= 0.0) ==>
      (prioritized ==> forall i :: 0 <= i < |weights| ==> weights[i] >= 0.0) ==> r >= 0.0
  {
    if prioritized then Mean(seq(|l|, i requires 0 <= i < |l| => l[i] * weights[i])) else Mean(l)
  }

  /** The scalar loss of `compute_loss`: the per-sample losses reduced by
      `Reduce`. It is never negative under uniform replay, nor under
      prioritized replay with non-negative importance weights. */
  function LossValue(mb: Minibatch, weights: seq<real>, prioritized: bool, gamma: real, nsteps: nat,
                     net: Network, online: Params, target: Params): (r: real)
    requires LossDefined(mb, net, online, target) && |mb.states| > 0
    requires prioritized ==> |weights| == |mb.states|
    ensures (prioritized ==> forall i :: 0 <= i < |weights| ==> weights[i] >= 0.0) ==> r >= 0.0
  {
    Reduce(PerSampleLoss(mb, gamma, nsteps, net, online, target), weights, prioritized)
  }
}
