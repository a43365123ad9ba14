/** The failure-carrying values and the sequence helper shared by all modules. */
module Outcomes {

  datatype Option<+T> = None | Some(value: T)

  datatype Result<+T> = Success(value: T) | Failure

  /** The last `n` elements, or all of them. */
  function Tail<T>(xs: seq<T>, n: nat): seq<T> { if |xs| <= n then xs else xs[|xs| - n..] }
}
