/** Values that flow through the learning agent: observations, parameter
    snapshots, the network as an abstract forward pass, and transitions. */
module Experience {

  /** An observation vector as the environment hands it over. */
  type State = seq<real>

  /** A snapshot of one network's parameters (what `state_dict()` returns). */
  type Params = seq<real>

  /** A network's forward pass on one state: one estimated value per action.
      The architecture is fixed; only the parameters differ between the
      online and the target network. */
  type Network = (Params, State) -> seq<real>

  datatype Option<+T> = None | Some(value: T)

  /** One transition `(s, a, r, s_)`; `next` is None when the episode ended
      on this step. The same shape is used for the raw single-step entries of
      the n-step buffer and for the n-step transitions pushed to memory. */
  datatype Transition = Transition(state: State, action: nat, reward: real, next: Option<State>)

  /** `base ** n` for a natural exponent. */
  function Pow(base: real, n: nat): real
  {
    if n == 0 then 1.0 else base * Pow(base, n - 1)
  }
}
