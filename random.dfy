/**
 * The random source, injected instead of Python's global generator: a fixed
 * stream of draws in [0, 1) and a position that every call advances by one.
 * `random.random()` returns the next draw; `random.choice(xs)` reads the
 * next draw as 53 random bits and selects xs[bits mod |xs|].
 */
module Randomness {

  /** One draw of `random.random()`. */
  type Unit = x: real | 0.0 <= x < 1.0

  type Stream = nat -> Unit

  /** A draw carries 53 random bits, as a double in [0, 1) does. */
  const Resolution: nat := 0x20_0000_0000_0000

  /** The bits of draw u. */
  function Bits(u: Unit): (b: nat)
    ensures b < Resolution
  {
    (u * Resolution as real).Floor
  }

  /** b reduced into [0, n) by repeated subtraction. */
  function Below(b: nat, n: nat): (k: nat)
    requires n > 0
    ensures k < n
    decreases b
  {
    if b < n then b else Below(b - n, n)
  }

  /** The index that draw u selects among n items. */
  function Pick(u: Unit, n: nat): (k: nat)
    requires n > 0
    ensures k < n
  {
    Below(Bits(u), n)
  }

  class RandomSource {
    const stream: Stream
    var position: nat

    constructor (stream: Stream)
      ensures this.stream == stream && position == 0
    {
      this.stream := stream;
      position := 0;
    }

    /** `random.random()` */
    method Random() returns (u: Unit)
      modifies this
      ensures u == stream(old(position)) && position == old(position) + 1
    {
      u := stream(position);
      position := position + 1;
    }

    /** The index `random.choice` takes from a sequence of n items. */
    method Choice(n: nat) returns (k: nat)
      requires n > 0
      modifies this
      ensures k == Pick(stream(old(position)), n) && k < n
      ensures position == old(position) + 1
    {
      k := Pick(stream(position), n);
      position := position + 1;
    }
  }
}
