/** SingleThreadedSequenceClaimStrategy: a second, stand-alone single-producer counter. */
module SequenceClaimStrategies {
  import opened ClaimStrategies

  class SingleThreadedSequenceClaimStrategy {
    /** The next sequence to hand out; a Java long field starts at 0. */
    var sequence: int
    /** The values handed out since the counter was created or last set. */
    ghost var handedOut: seq<int>

    ghost predicate Valid()
      reads this
    {
      Consecutive(handedOut, sequence)
    }

    constructor ()
      ensures Valid()
      ensures sequence == 0 && handedOut == []
    {
      sequence := 0;
      handedOut := [];
    }

    /** Returns the counter and then advances it by one. */
    method GetAndIncrement() returns (claimed: int)
      requires Valid()
      modifies this
      ensures Valid()
      ensures claimed == old(sequence) && sequence == old(sequence) + 1
      ensures handedOut == old(handedOut) + [claimed]
    {
      claimed := sequence;
      sequence := sequence + 1;
      handedOut := handedOut + [claimed];
    }

    /** Overwrites the counter, whatever it held. */
    method SetSequence(sequence: int)
      modifies this
      ensures Valid()
      ensures this.sequence == sequence && handedOut == []
    {
      this.sequence := sequence;
      handedOut := [];
    }
  }

  /** Setting the counter to 7 makes the next two claims 7 and 8. */
  method ShouldSetThenIncrement() returns (first: int, second: int)
    ensures first == 7 && second == 8
  {
    var strategy := new SingleThreadedSequenceClaimStrategy();
    strategy.SetSequence(7);
    first := strategy.GetAndIncrement();
    second := strategy.GetAndIncrement();
  }

  /** Setting the same value twice leaves the same counter as setting it once. */
  method SetTwiceIsSetOnce(value: int) returns (once: int, twice: int)
    ensures once == twice == value
  {
    var a := new SingleThreadedSequenceClaimStrategy();
    a.SetSequence(value);
    once := a.GetAndIncrement();
    var b := new SingleThreadedSequenceClaimStrategy();
    b.SetSequence(value);
    b.SetSequence(value);
    twice := b.GetAndIncrement();
  }
}
