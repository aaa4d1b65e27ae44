/** The agent object: the n-step buffer it owns, the replay memory as a log
    of pushed transitions, the two parameter snapshots and the target-sync
    counter, with the learning step that ties them together. */
module Agent {
  import opened Experience
  import opened NStep
  import opened Batch
  import opened Targets
  import opened Loss
  import opened TargetSync

  class Model {
    // Hyperparameters and collaborators fixed at construction.
    const nsteps: nat
    const gamma: real
    const targetNetUpdateFreq: nat
    const learnStart: int
    const batchSize: nat
    const staticPolicy: bool
    const noisy: bool
    const priorityReplay: bool
    const numActions: nat
    /** The architecture both networks share. */
    const net: Network

    /** Parameters of `self.model` and `self.target_model`. */
    var online: Params
    var target: Params
    var updateCount: nat
    /** The pending single-step transitions, oldest first. */
    var nstepBuffer: seq<Transition>
    /** Every transition pushed to the replay memory, in push order. */
    ghost var memory: seq<Transition>
    /** Number of `update_target_model` calls since construction. */
    ghost var updateCalls: nat

    ghost predicate Valid()
      reads this
    {
      Bounded(nstepBuffer, nsteps) &&
      if targetNetUpdateFreq > 0 then updateCount == updateCalls % targetNetUpdateFreq
      else updateCount == 0 && updateCalls == 0
    }

    /** `__init__`: both networks start from the same parameters (the target
        loads the online network's state dict), the counter is 0 and the
        buffer and memory are empty. */
    constructor (nsteps: nat, gamma: real, targetNetUpdateFreq: nat, learnStart: int, batchSize: nat,
                 staticPolicy: bool, noisy: bool, priorityReplay: bool, numActions: nat,
                 net: Network, initial: Params)
      ensures Valid()
      ensures this.nsteps == nsteps && this.gamma == gamma && this.targetNetUpdateFreq == targetNetUpdateFreq
      ensures this.learnStart == learnStart && this.batchSize == batchSize && this.staticPolicy == staticPolicy
      ensures this.noisy == noisy && this.priorityReplay == priorityReplay && this.numActions == numActions
      ensures this.net == net
      ensures online == initial && target == initial
      ensures updateCount == 0 && updateCalls == 0 && nstepBuffer == [] && memory == []
    {
      this.nsteps := nsteps;
      this.gamma := gamma;
      this.targetNetUpdateFreq := targetNetUpdateFreq;
      this.learnStart := learnStart;
      this.batchSize := batchSize;
      this.staticPolicy := staticPolicy;
      this.noisy := noisy;
      this.priorityReplay := priorityReplay;
      this.numActions := numActions;
      this.net := net;
      online := initial;
      target := initial;
      updateCount := 0;
      updateCalls := 0;
      nstepBuffer := [];
      memory := [];
    }

    /** `append_to_replay`. */
    method AppendToReplay(s: State, a: nat, r: real, next: Option<State>)
      requires Valid()
      modifies this`nstepBuffer, this`memory
      ensures Valid()
      ensures nstepBuffer == Append(old(nstepBuffer), Transition(s, a, r, next), nsteps, gamma).buffer
      ensures memory == old(memory) + Append(old(nstepBuffer), Transition(s, a, r, next), nsteps, gamma).pushed
    {
      AppendKeepsBound(nstepBuffer, Transition(s, a, r, next), nsteps, gamma);
      nstepBuffer := nstepBuffer + [Transition(s, a, r, next)];
      if |nstepBuffer| < nsteps {
        return;
      }
      var R := DiscountedSum(nstepBuffer, nsteps, gamma);
      var oldest := nstepBuffer[0];
      nstepBuffer := nstepBuffer[1..];
      memory := memory + [Transition(oldest.state, oldest.action, R, next)];
    }

    /** `finish_nstep`: drains the buffer at the end of an episode. */
    method FinishNstep()
      requires Valid()
      modifies this`nstepBuffer, this`memory
      ensures Valid()
      ensures nstepBuffer == []
      ensures memory == old(memory) + Drained(old(nstepBuffer), gamma)
    {
      while |nstepBuffer| > 0
        invariant memory + Drained(nstepBuffer, gamma) == old(memory) + Drained(old(nstepBuffer), gamma)
        decreases |nstepBuffer|
      {
        var R := DiscountedSum(nstepBuffer, |nstepBuffer|, gamma);
        var oldest := nstepBuffer[0];
        ghost var rest := Drained(nstepBuffer[1..], gamma);
        assert Drained(nstepBuffer, gamma) == [Transition(oldest.state, oldest.action, R, None)] + rest;
        nstepBuffer := nstepBuffer[1..];
        memory := memory + [Transition(oldest.state, oldest.action, R, None)];
      }
    }

    /** `update_target_model`: counts the call modulo the sync frequency and
        copies the online parameters into the target exactly when the count
        wraps to 0, that is on calls number f, 2f, 3f, ... since
        construction. */
    method UpdateTargetModel()
      requires Valid() && targetNetUpdateFreq > 0
      modifies this`updateCount, this`target, this`updateCalls
      ensures Valid()
      ensures updateCalls == old(updateCalls) + 1
      ensures updateCount < targetNetUpdateFreq
      ensures updateCalls % targetNetUpdateFreq == 0 ==> target == online
      ensures updateCalls % targetNetUpdateFreq != 0 ==> target == old(target)
    {
      CounterStep(updateCalls, targetNetUpdateFreq);
      updateCount := updateCount + 1;
      updateCount := updateCount % targetNetUpdateFreq;
      updateCalls := updateCalls + 1;
      if updateCount == 0 {
        target := online;
      }
    }

    /** `compute_loss`: the scalar loss and the per-sample Huber values (what
        a prioritized memory receives in `update_priorities`). The target
        vector starts as zeros and is written in place at the non-final
        positions. */
    method ComputeLoss(mb: Minibatch, weights: seq<real>) returns (loss: real, priorities: seq<real>)
      requires LossDefined(mb, net, online, target)
      requires |mb.states| == batchSize && batchSize > 0
      requires priorityReplay ==> |weights| == |mb.states|
      ensures priorities == PerSampleLoss(mb, gamma, nsteps, net, online, target)
      ensures loss == LossValue(mb, weights, priorityReplay, gamma, nsteps, net, online, target)
    {
      var current := CurrentValues(net, online, mb);
      var maxNext := new real[batchSize](_ => 0.0);
      assert maxNext[..] == Zeros(batchSize);
      if !mb.emptyNextStateValues {
        var values := BootstrapValues(net, target, mb.nonFinalNextStates.value);
        MaskedAssignInPlace(maxNext, mb.nonFinalMask, values);
      }
      var v := maxNext[..];
      assert v == NextValues(mb, net, target);
      var expected := Expected(mb.rewards, gamma, nsteps, v);
      priorities := HuberLosses(expected, current);
      loss := Reduce(priorities, weights, priorityReplay);
    }

    /** `update`: nothing at all under a static policy; otherwise the
        transition goes through the n-step buffer, and from frame
        `learnStart` on one learning step follows on the given sample: the
        loss, the optimiser's new online parameters, the target sync. */
    method Update(s: State, a: nat, r: real, next: Option<State>, frame: int,
                  batch: seq<Transition>, weights: seq<real>, trained: Params) returns (loss: Option<real>)
      requires Valid()
      requires !staticPolicy && frame >= learnStart ==>
        targetNetUpdateFreq > 0 && |batch| == batchSize && batchSize > 0 &&
        LossDefined(PrepMinibatch(batch), net, online, target) &&
        (priorityReplay ==> |weights| == |batch|)
      modifies this
      ensures Valid()
      ensures staticPolicy ==>
        loss == None && nstepBuffer == old(nstepBuffer) && memory == old(memory) &&
        updateCount == old(updateCount) && updateCalls == old(updateCalls) &&
        online == old(online) && target == old(target)
      ensures !staticPolicy ==>
        nstepBuffer == Append(old(nstepBuffer), Transition(s, a, r, next), nsteps, gamma).buffer &&
        memory == old(memory) + Append(old(nstepBuffer), Transition(s, a, r, next), nsteps, gamma).pushed
      ensures !staticPolicy && frame < learnStart ==>
        loss == None && updateCount == old(updateCount) && updateCalls == old(updateCalls) &&
        online == old(online) && target == old(target)
      ensures !staticPolicy && frame >= learnStart ==>
        loss == Some(LossValue(PrepMinibatch(batch), weights, priorityReplay, gamma, nsteps, net, old(online), old(target))) &&
        online == trained && updateCalls == old(updateCalls) + 1 &&
        updateCount == updateCalls % targetNetUpdateFreq &&
        target == (if updateCount == 0 then trained else old(target))
    {
      if staticPolicy {
        return None;
      }
      AppendToReplay(s, a, r, next);
      if frame < learnStart {
        return None;
      }
      var mb := PrepMinibatch(batch);
      var l, priorities := ComputeLoss(mb, weights);
      // The optimiser step itself is not modelled: its result is `trained`.
      online := trained;
      UpdateTargetModel();
      loss := Some(l);
    }

    /** `get_action`: the greedy action of the online network when the
        policy is static, the network is noisy or the uniform draw is at
        least `eps`; otherwise the uniformly drawn action. */
    function GetAction(s: State, eps: real, draw: real, randomAction: nat): (a: nat)
      reads this
      requires draw >= eps || staticPolicy || noisy ==> |net(online, s)| > 0
      requires randomAction < numActions
      ensures draw >= eps || staticPolicy || noisy ==>
        a < |net(online, s)| && forall j :: 0 <= j < |net(online, s)| ==> net(online, s)[j] <= net(online, s)[a]
      ensures !(draw >= eps || staticPolicy || noisy) ==> a == randomAction && a < numActions
    {
      if draw >= eps || staticPolicy || noisy then ArgMax(net(online, s)) else randomAction
    }
  }
}
