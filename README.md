# DQN agent bookkeeping, modelled in Dafny

This project models the learning-agent bookkeeping of `agents/DQN.py` (class `Model`) from the DeepRL-Tutorials repository. The neural networks, the optimiser and the replay store are abstract collaborators. The model has four parts:

- **N-step accumulator** (`NStep`, `Agent.Model.AppendToReplay`, `Agent.Model.FinishNstep`). The agent owns a FIFO list of pending single-step transitions. Once `nsteps` of them are pending, it pushes one n-step transition. That transition has the oldest state and action, the discounted sum of the pending rewards and the *latest* next state. At the end of an episode it drains the list: each pushed transition has a shorter horizon than the one before, and none has a next state. The replay memory is a ghost log of every pushed transition. Rewards and γ are `real`.
- **Target-sync counter** (`TargetSync`, `Agent.Model.UpdateTargetModel`). `update_count` counts calls modulo `target_net_update_freq`. The target parameters become a copy of the online parameters exactly when the counter wraps to 0.
- **Batch assembly and target computation** (`Batch`, `Targets`, `Loss`, `Agent.Model.ComputeLoss`). This covers:
  - the non-final mask;
  - the list of present next states, in order, and the "empty" flag for an all-terminal batch;
  - the bootstrap values, written in place into a zero vector at the mask positions;
  - the target `r + γ^nsteps · v`, the Huber loss and its mean.

  A network is an uninterpreted function from parameters and a state to a sequence of per-action values (`Experience.Network`).
- **Small rules**. These are `huber`, the gating of `update` on `static_policy` and `learn_start`, and the branch choice of `get_action`. The random draws are passed in as parameters.

The files are `experience.dfy` (types), `nstep.dfy`, `batch.dfy`, `targets.dfy`, `loss.dfy`, `sync.dfy` and `agent.dfy` (the class). Where the code departs from textbook DQN, the model follows the code:

- **Huber.** `huber` tests `x < 1.0`, not `|x| < 1` as a textbook smooth-L1 loss does. So every negative difference takes the quadratic branch: `huber(-2.0) = 2.0`, where a test on `|x|` would give 1.5.
- **Bootstrap action.** It is selected by `get_max_next_state_action`, which asks the *target* network (`agents/DQN.py:170`). The same target network then evaluates it (`agents/DQN.py:118`). There is no double-Q decoupling. For non-noisy networks, every bootstrap value is therefore the target network's largest action value at that next state. With noisy networks the source draws fresh target noise between selection and evaluation (`agents/DQN.py:117`), which the model does not capture (see "Left out").
- **First sync.** The counter starts at 0 and the copy happens when it wraps to 0, so the first sync happens on call number `freq`, not on the first call.

## Model

| member | source | states |
|---|---|---|
| `NStep.DiscountedSum` | agents/DQN.py:65 | The n-step reward sum of the first `n` entries. For one entry it is that entry's reward, and if all of the first `n` rewards are zero it is zero. |
| `NStep.DiscountedSumShift` | agents/DQN.py:65 | The left-to-right sum `Σ_{i<n} r_i·γ^i` equals the first reward plus γ times the same sum over the rest of the buffer. |
| `NStep.DiscountedSumIsReturn` | agents/DQN.py:174 | The reward comprehension over the whole buffer equals the recursively defined discounted return `r_0 + γ·R(rest)`. |
| `NStep.Append` | agents/DQN.py:59-76 | One `append_to_replay` on the buffer alone. Nothing is pushed iff the buffer plus the new entry is still shorter than `nsteps`, and every entry is either kept pending or pushed: new buffer length plus pushes is the old length plus one. |
| `NStep.AppendBelowThreshold` | agents/DQN.py:59-63 | With fewer than `nsteps` entries after appending, nothing is pushed and the buffer is the old buffer plus the new entry. |
| `NStep.AppendAtThreshold` | agents/DQN.py:65-76 | When the buffer reaches `nsteps`, exactly one transition is pushed and `nsteps - 1` entries stay. The pushed transition has the oldest entry's state and action, the discounted return of the pending rewards in buffer order, and the just-appended next state (None if that is None). |
| `NStep.AppendKeepsBound` | agents/DQN.py:59-76 | Between calls the buffer holds fewer than `nsteps` entries (or none when `nsteps` is 0), and a call pushes at most one transition. |
| `NStep.Drained` | agents/DQN.py:172-181 | What `finish_nstep` pushes, in order. Draining a buffer of length L pushes exactly L transitions. |
| `NStep.DrainedAt` | agents/DQN.py:172-181 | The k-th drained transition has entry k's state and action, the discounted sum over entries k..L-1 (horizon L-k, strictly shrinking) and no next state. |
| `NStep.DrainedRewardsRecurrence` | agents/DQN.py:174-175 | Consecutive drained rewards satisfy `R_k = r_k + γ·R_{k+1}`, and the last one is the last entry's reward alone. |
| `Agent.Model.constructor` | agents/DQN.py:30-53 | Both parameter sets start equal (the target loads the online state dict), `update_count` is 0, and the buffer and memory are empty. |
| `Agent.Model.AppendToReplay` | agents/DQN.py:59-76 | The new buffer and the transitions pushed to memory are those of `NStep.Append`. The buffer bound is preserved. |
| `Agent.Model.FinishNstep` | agents/DQN.py:172-181 | The `while` loop empties the buffer and appends `NStep.Drained(old buffer)` to memory. |
| `TargetSync.CounterStep` | agents/DQN.py:164-166 | Incrementing the stored remainder and reducing it modulo `freq` gives the remainder of one more call. It wraps to 0 exactly after remainder `freq - 1`. |
| `Agent.Model.UpdateTargetModel` | agents/DQN.py:163-167 | Given `freq > 0`, after every call `0 ≤ update_count < freq` and `update_count` equals the number of calls since construction modulo `freq`. The target becomes the online parameters exactly on calls freq, 2·freq, … and is unchanged on all other calls. |
| `Batch.NonFinalMask` | agents/DQN.py:95 | The mask has one entry per batch entry. |
| `Batch.NonFinalNextStates` | agents/DQN.py:97 | The filtered list of present next states has one element per true mask entry. |
| `Batch.NonFinalNextStatesAt` | agents/DQN.py:95-97 | Entry i's present next state sits at position rank(i) of the filtered list, where rank(i) is the number of true mask entries before i. So the original order is kept. |
| `Batch.CountTrueZero` | agents/DQN.py:96-101 | A mask counts zero true entries iff none of its entries is true. |
| `Batch.AllTerminalIffNoNextStates` | agents/DQN.py:96-101 | The filtered list is empty iff every batch entry is terminal. |
| `Batch.PrepMinibatch` | agents/DQN.py:87-103 | Defined for a non-empty sample (an empty one fails to unpack at line 87). The columns are the batch's states, actions and rewards, aligned. `mask[i]` holds iff entry i has a next state. The empty flag is set iff every entry is terminal, and otherwise the next states are exactly the filtered list. |
| `Targets.ArgMax` | agents/DQN.py:170 | The index `max(dim=1)[1]` picks is in range and maximal, and it is the first among equal maxima. |
| `Targets.MaxNextValue` | agents/DQN.py:116-118 | The bootstrap value for one next state is the target network's largest action value there: at least every entry, and equal to one. |
| `Targets.BootstrapValues` | agents/DQN.py:116-118 | There is one bootstrap value per present next state. |
| `Targets.MaskedAssign` | agents/DQN.py:118 | The masked assignment keeps the vector's length. |
| `Targets.GatherMaskedAssign` | agents/DQN.py:118 | Reading the mask positions back after `x[mask] = values` gives exactly `values`, whatever `x` held before. |
| `Targets.MaskedAssignInPlace` | agents/DQN.py:114-118 | The in-place loop over the array leaves it equal to `MaskedAssign(old contents, mask, values)`. |
| `Targets.NextValues` | agents/DQN.py:114-118 | There is one next-state value per batch entry. When the empty flag is set they are all zero, whatever the networks are. |
| `Targets.NextValuesAt` | agents/DQN.py:114-118 | An entry's next-state value is 0 where the mask is false. Where it is true, it is the target network's largest action value at that entry's own next state. |
| `Targets.Bootstrapped` | agents/DQN.py:119 | One entry of the target formula. A zero next-state value leaves the reward unchanged, and so does a discount of 0 over a positive horizon. |
| `Targets.Expected` | agents/DQN.py:119 | There is one target per reward, and every entry whose next-state value is zero has its reward as its target. |
| `Targets.ExpectedValues` | agents/DQN.py:114-119 | There is one target per reward. When the empty flag is set, the targets are exactly the rewards. |
| `Targets.ExpectedValuesAt` | agents/DQN.py:114-119 | A terminal entry's target is exactly its reward. A non-terminal entry's target is `reward + γ^nsteps · max_a Q_target(next, a)`. |
| `Targets.AllTerminalBatch` | agents/DQN.py:96-119 | For a non-empty all-terminal batch the empty flag is set, there are no next states, and every target is the entry's reward, for any networks. |
| `Loss.Huber` | agents/DQN.py:183-185 | `0.5·x²` when `x < 1` (every negative x included) and `x - 0.5` otherwise. The result is never negative. |
| `Loss.HuberExamples` | agents/DQN.py:183-185 | `huber(1.0) = 0.5`, `huber(2.0) = 1.5` and `huber(-2.0) = 2.0`. |
| `Loss.CurrentValues` | agents/DQN.py:110 | There is one current estimate per sample. |
| `Loss.HuberLosses` | agents/DQN.py:121-122 | One value per sample, each non-negative. It is `0.5·d²` where the difference d = target − estimate is below 1 and `d - 0.5` otherwise. |
| `Loss.PerSampleLoss` | agents/DQN.py:121-124 | There is one Huber value per sample, each non-negative. These are the values handed to `update_priorities`. |
| `Loss.Sum` | agents/DQN.py:126 | Non-negative entries have a non-negative sum. |
| `Loss.Mean` | agents/DQN.py:126 | Non-negative entries have a non-negative mean. |
| `Loss.Reduce` | agents/DQN.py:123-126 | The weighted mean under prioritized replay or the plain mean otherwise. It is non-negative for non-negative losses when replay is uniform or the weights are non-negative. |
| `Loss.LossValue` | agents/DQN.py:121-126 | The mean loss is non-negative for uniform replay, or for prioritized replay with non-negative weights. |
| `Agent.Model.ComputeLoss` | agents/DQN.py:105-128 | The returned per-sample values are `PerSampleLoss`, and the loss is their mean, each value first multiplied by its weight under prioritized replay. The targets are built by writing the bootstrap values in place into a zero array. |
| `Agent.Model.Update` | agents/DQN.py:130-151 | Under `static_policy` it returns None and changes nothing. Below `learn_start` it only performs the n-step append and returns None, with counter and parameters unchanged. Otherwise it returns the loss on the old parameters, installs the optimiser's parameters and performs one target-sync step. |
| `Agent.Model.GetAction` | agents/DQN.py:154-161 | Under a static policy, a noisy network, or a draw ≥ ε, it returns a maximal action of the online network. Otherwise it returns the drawn random action. |

## Left out

- Tensors, `.view`/`.squeeze` reshaping and device placement are not modelled. Batches are sequences, and a state wrapped as `[state]` is the state itself. This is framework plumbing.
- Network forward passes, `DQN_simple`, `sample_noise` and `eval`/`train` modes are not modelled. The network is an arbitrary function `(Params, State) -> seq<real>`, and initial parameters are a constructor argument. These are external collaborators.
- The Adam optimiser, `zero_grad`, `backward` and `step` are not modelled. `Update` receives the parameters the step produces as `trained`. These are foreign numerical library calls.
- The replay memory is a ghost log of pushes. Not modelled: its capacity, FIFO eviction, sampling, β-annealing, importance-weight computation and `update_priorities`. The sampled batch and the importance weights are parameters, and the model does not state that the batch came from the log. Their implementation is not part of this model.
- `np.random.random()` and `np.random.randint` are the `draw` and `randomAction` parameters of `GetAction`. Randomness is outside a deterministic model.
- Floating-point rounding is not modelled. Rewards, discounting, targets and Huber are exact `real` arithmetic.
- Hyperparameter imports and the environment object are constructor arguments. They are configuration.
- Agent.Model.UpdateTargetModel: requires `target_net_update_freq > 0`. With 0 the source's `%` raises ZeroDivisionError, and that error path is not modelled.
- Agent.Model.ComputeLoss: requires a non-empty batch whose length is `batch_size`. An empty sample already fails at `agents/DQN.py:87`. The method also requires taken actions and next states the networks can index. Otherwise the source fails inside torch (shape mismatch, index out of range), and those failures are not modelled.
- Targets.MaxNextValue: the model uses one fixed function of the target parameters for both selecting and evaluating the bootstrap action. With noisy networks the source resamples the target's noise between the two (`agents/DQN.py:117`), so its bootstrap value is then not the maximum the contract states. Noise is outside the model.
- Targets.ArgMax: ties are broken towards the first maximal index. The source leaves tie-breaking to `torch.max`.
- Batch.PrepMinibatch: the source's bare `except` sets the empty flag for any failure of building the next-state tensor. The model sets it exactly when the list of present next states is empty, the all-terminal case the comment names. Other failures (ragged states) are not modelled.
