/** The random source behind Math.random(), modelled as an oracle: an
    arbitrary, fixed stream of naturals read one value per call.  Any
    sequence of in-range results is produced by some stream, so the model
    covers every run of the program; the distribution is not modelled. */
module Entropy {

  class Source {
    /** The raw values, one per call, in the order they are consumed. */
    const values: nat -> nat
    /** Position of the next value to be read. */
    var next: nat

    constructor (values: nat -> nat)
      ensures this.values == values && next == 0
    {
      this.values := values;
      next := 0;
    }

    /** Math.floor(Math.random() * n): an integer in [0, n). */
    method Below(n: nat) returns (v: nat)
      requires n > 0
      modifies this
      ensures v < n
      ensures v == values(old(next)) % n
      ensures next == old(next) + 1
    {
      v := values(next) % n;
      next := next + 1;
    }
  }
}
