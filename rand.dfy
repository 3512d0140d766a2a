/** The C library's random source, made explicit.
    Every variant of the solver draws its randomness from `rand()` and
    reduces it with `%`. The model replaces the hidden generator state by an
    arbitrary stream of non-negative values and a count of the values already
    taken, so each random choice is a deterministic function of its inputs. */
module Rand {

  /** The successive results of `rand()`: the k-th call returns `rand(k)`. */
  type Stream = nat -> nat

  /** `rand() % bound` taken as the k-th call on the stream. */
  function Draw(rand: Stream, k: nat, bound: int): (r: int)
    requires bound > 0
    ensures 0 <= r < bound
  {
    rand(k) % bound
  }
}
