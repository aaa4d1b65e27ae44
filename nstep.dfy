/** The n-step accumulator: how pending single-step transitions become the
    multi-step transitions that reach the replay memory. */
module NStep {
  import opened Experience

  /** `sum([buf[i].reward * gamma**i for i in range(n)])`, added up from the
      left as Python's `sum` does. */
  function DiscountedSum(buf: seq<Transition>, n: nat, gamma: real): (r: real)
    requires n <= |buf|
    ensures n == 1 ==> r == buf[0].reward
    ensures (forall i :: 0 <= i < n ==> buf[i].reward == 0.0) ==> r == 0.0
  {
    if n == 0 then 0.0 else DiscountedSum(buf, n - 1, gamma) + buf[n - 1].reward * Pow(gamma, n - 1)
  }

  /** The discounted return of a reward sequence by its recursive
      characterisation: the first reward plus gamma times the return of the
      rest. */
  function Return(buf: seq<Transition>, gamma: real): real
  {
    if buf == [] then 0.0 else buf[0].reward + gamma * Return(buf[1..], gamma)
  }

  /** Peeling off the first reward of a discounted sum. */
  lemma {:induction false} DiscountedSumShift(buf: seq<Transition>, n: nat, gamma: real)
    requires 1 <= n <= |buf|
    ensures DiscountedSum(buf, n, gamma) == buf[0].reward + gamma * DiscountedSum(buf[1..], n - 1, gamma)
  {
    if n > 1 {
      DiscountedSumShift(buf, n - 1, gamma);
      var a := DiscountedSum(buf[1..], n - 2, gamma);
      var x := buf[n - 1].reward;
      assert buf[1..][n - 2] == buf[n - 1];
      assert Pow(gamma, n - 1) == gamma * Pow(gamma, n - 2);
      calc {
        DiscountedSum(buf, n, gamma);
        buf[0].reward + gamma * a + x * (gamma * Pow(gamma, n - 2));
        buf[0].reward + gamma * (a + x * Pow(gamma, n - 2));
        buf[0].reward + gamma * DiscountedSum(buf[1..], n - 1, gamma);
      }
    }
  }

  /** The comprehension the source sums over the whole buffer is the
      discounted return of that buffer. */
  lemma {:induction false} DiscountedSumIsReturn(buf: seq<Transition>, gamma: real)
    ensures DiscountedSum(buf, |buf|, gamma) == Return(buf, gamma)
  {
    if buf != [] {
      DiscountedSumShift(buf, |buf|, gamma);
      DiscountedSumIsReturn(buf[1..], gamma);
    }
  }

  /** The result of one `append_to_replay` on the buffer alone: the new
      buffer contents and what is pushed to memory (nothing or one
      transition). */
  datatype Step = Step(buffer: seq<Transition>, pushed: seq<Transition>)

  /** `append_to_replay`: append; below `nsteps` pending entries stop there;
      otherwise emit the oldest state and action with the discounted sum of
      the first `nsteps` rewards and the latest next state, and pop the
      oldest entry. */
  function Append(buf: seq<Transition>, t: Transition, nsteps: nat, gamma: real): (st: Step)
    ensures st.pushed == [] <==> |buf| + 1 < nsteps
    ensures |st.buffer| + |st.pushed| == |buf| + 1
  {
    var b := buf + [t];
    if |b| < nsteps then Step(b, [])
    else Step(b[1..], [Transition(b[0].state, b[0].action, DiscountedSum(b, nsteps, gamma), t.next)])
  }

  /** The bound the buffer keeps between calls: fewer than `nsteps` pending
      entries (or none at all, when `nsteps` is 0). */
  predicate Bounded(buf: seq<Transition>, nsteps: nat)
  {
    |buf| < nsteps || buf == []
  }

  /** Below the threshold nothing is pushed and the buffer grows by exactly
      the appended entry. */
  lemma AppendBelowThreshold(buf: seq<Transition>, t: Transition, nsteps: nat, gamma: real)
    requires |buf| + 1 < nsteps
    ensures Append(buf, t, nsteps, gamma).pushed == []
    ensures Append(buf, t, nsteps, gamma).buffer == buf + [t]
  {
  }

  /** At the threshold exactly one transition is pushed: the oldest entry's
      state and action, the n-step return of the pending rewards, the newest
      next state; the buffer drops back to `nsteps - 1` entries. */
  lemma {:induction false} AppendAtThreshold(buf: seq<Transition>, t: Transition, nsteps: nat, gamma: real)
    requires |buf| + 1 == nsteps
    ensures var st := Append(buf, t, nsteps, gamma);
      |st.pushed| == 1 && |st.buffer| == nsteps - 1 &&
      st.buffer == (buf + [t])[1..] &&
      st.pushed[0] == Transition((buf + [t])[0].state, (buf + [t])[0].action, Return(buf + [t], gamma), t.next)
  {
    DiscountedSumIsReturn(buf + [t], gamma);
  }

  /** Every call keeps the buffer within its bound, and pushes at most one
      transition. */
  lemma AppendKeepsBound(buf: seq<Transition>, t: Transition, nsteps: nat, gamma: real)
    requires Bounded(buf, nsteps)
    ensures Bounded(Append(buf, t, nsteps, gamma).buffer, nsteps)
    ensures |Append(buf, t, nsteps, gamma).pushed| <= 1
  {
  }

  /** `finish_nstep`: what the draining loop pushes, in order. Each round
      sums the rewards of the whole remaining buffer, pops the oldest entry
      and pushes it with no next state, so a buffer of length L yields
      exactly L transitions. */
  function Drained(buf: seq<Transition>, gamma: real): (d: seq<Transition>)
    ensures |d| == |buf|
  {
    if buf == [] then []
    else [Transition(buf[0].state, buf[0].action, DiscountedSum(buf, |buf|, gamma), None)] + Drained(buf[1..], gamma)
  }

  /** The k-th drained transition takes the state and action of entry k, the
      discounted sum over entries k..L-1 (a horizon of L - k, shrinking with
      k), and no next state. */
  lemma {:induction false} DrainedAt(buf: seq<Transition>, gamma: real, k: nat)
    requires k < |buf|
    ensures |Drained(buf, gamma)| == |buf|
    ensures Drained(buf, gamma)[k] ==
      Transition(buf[k].state, buf[k].action, DiscountedSum(buf[k..], |buf| - k, gamma), None)
  {
    if k > 0 {
      DrainedAt(buf[1..], gamma, k - 1);
      assert buf[1..][k - 1..] == buf[k..];
    }
  }

  /** Consecutive drained rewards satisfy the return recursion: each is its
      own entry's reward plus gamma times the next drained reward, and the
      last is the last entry's reward alone. */
  lemma DrainedRewardsRecurrence(buf: seq<Transition>, gamma: real, k: nat)
    requires k < |buf|
    ensures |Drained(buf, gamma)| == |buf|
    ensures Drained(buf, gamma)[k].reward ==
      buf[k].reward + (if k + 1 < |buf| then gamma * Drained(buf, gamma)[k + 1].reward else 0.0)
  {
    DrainedAt(buf, gamma, k);
    DiscountedSumShift(buf[k..], |buf| - k, gamma);
    if k + 1 < |buf| {
      DrainedAt(buf, gamma, k + 1);
      assert buf[k..][1..] == buf[k + 1..];
    }
  }
}
