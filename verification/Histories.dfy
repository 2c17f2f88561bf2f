/** One run of a state machine, written down from its last state backward. */
module Histories {
  datatype History<S, X> = Begin(s: S) | Then(before: History<S, X>, step: X, s: S)

  function FirstState<S, X>(h: History<S, X>): (s: S) {
    match h
    case Begin(s) => s
    case Then(before, _, _) => FirstState(before)
  }
}
