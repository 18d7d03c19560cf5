/** Counters of ticks. */
module Counters {

  /** One tick off what is left, if anything is. */
  function Down(n: nat): nat {
    if n > 0 then n - 1 else 0
  }
}
