/** Sequence building blocks shared by the wrappers. */
module Sequences {

  /** `n` copies of `x`. */
  function Repeat<T>(x: T, n: nat): seq<T>
  {
    seq(n, _ => x)
  }
}
