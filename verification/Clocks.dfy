/** A clock as the stream of its readings. */
module Clocks {

  type Clock = nat -> int

  /** The clock never runs backwards. */
  ghost predicate Monotone(now: Clock) {
    forall i: nat, j: nat :: i <= j ==> now(i) <= now(j)
  }
}
