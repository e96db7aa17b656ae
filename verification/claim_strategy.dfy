/**
 * ClaimStrategy: how producers are handed sequence numbers. Only the
 * single-threaded strategy exists in this code base.
 */
module ClaimStrategies {

  /** The values lo, lo + 1, ..., hi - 1. */
  function Range(lo: int, hi: int): (r: seq<int>)
    decreases hi - lo
  {
    if hi <= lo then [] else Range(lo, hi - 1) + [hi - 1]
  }

  /**
   * The values handed out since the counter was last set, when the counter now
   * stands at next: each one more than the one before, the last one next - 1.
   */
  ghost predicate Consecutive(handedOut: seq<int>, next: int)
  {
    forall i :: 0 <= i < |handedOut| ==> handedOut[i] == next - |handedOut| + i
  }

  /** The handed-out values are exactly a range of integers ending just below the counter. */
  lemma {:induction false} ConsecutiveIsRange(handedOut: seq<int>, next: int)
    ensures Consecutive(handedOut, next) <==> handedOut == Range(next - |handedOut|, next)
    decreases |handedOut|
  {
    if handedOut != [] {
      var init := handedOut[..|handedOut| - 1];
      ConsecutiveIsRange(init, next - 1);
      assert handedOut == init + [handedOut[|handedOut| - 1]];
      if Consecutive(handedOut, next) {
        assert Consecutive(init, next - 1);
      }
      if handedOut == Range(next - |handedOut|, next) {
        assert init == Range(next - |handedOut|, next - 1);
        assert Consecutive(init, next - 1);
        forall i | 0 <= i < |handedOut|
          ensures handedOut[i] == next - |handedOut| + i
        {
          if i < |init| {
            assert handedOut[i] == init[i];
          }
        }
      }
    }
  }

  /** Handed-out values strictly increase and leave no gaps. */
  lemma ConsecutiveIsGapFree(handedOut: seq<int>, next: int)
    requires Consecutive(handedOut, next)
    ensures forall i, j :: 0 <= i < j < |handedOut| ==> handedOut[i] < handedOut[j]
    ensures forall i :: 0 <= i < |handedOut| - 1 ==> handedOut[i + 1] == handedOut[i] + 1
  {
  }

  /** The strategy for a single producer thread: a plain counter. */
  class SingleThreadedStrategy {
    /** The next sequence to hand out. */
    var sequence: int
    /** The values handed out since the counter was created or last set. */
    ghost var handedOut: seq<int>

    ghost predicate Valid()
      reads this
    {
      Consecutive(handedOut, sequence)
    }

    constructor ()
      ensures Valid()
      ensures sequence == 0 && handedOut == []
    {
      sequence := 0;
      handedOut := [];
    }

    /** Returns the counter and then advances it by one. */
    method GetAndIncrement() returns (claimed: int)
      requires Valid()
      modifies this
      ensures Valid()
      ensures claimed == old(sequence) && sequence == old(sequence) + 1
      ensures handedOut == old(handedOut) + [claimed]
    {
      claimed := sequence;
      sequence := sequence + 1;
      handedOut := handedOut + [claimed];
    }

    /** Overwrites the counter, whatever it held. */
    method SetSequence(sequence: int)
      modifies this
      ensures Valid()
      ensures this.sequence == sequence && handedOut == []
    {
      this.sequence := sequence;
      handedOut := [];
    }

    /**
     * Waiting for the cursor to reach a sequence is not needed with one
     * producer: nothing happens. The ring buffer is any type here, as nothing
     * of it is used.
     */
    method WaitForCursor<R>(sequence: int, ringBuffer: R)
      ensures unchanged(this)
    {
    }
  }

  /** ClaimStrategy.Option: the threading policies a ring buffer can be built with. */
  datatype Option = SingleThreaded

  /** Option.newInstance: a fresh strategy for the policy. */
  method NewInstance(option: Option) returns (strategy: SingleThreadedStrategy)
    ensures fresh(strategy)
    ensures strategy.Valid() && strategy.sequence == 0 && strategy.handedOut == []
  {
    match option
    case SingleThreaded =>
      strategy := new SingleThreadedStrategy();
  }

  /** A fresh counter hands out 0, then 1. */
  method FirstClaimsOfFreshStrategy() returns (first: int, second: int)
    ensures first == 0 && second == 1
  {
    var strategy := NewInstance(SingleThreaded);
    first := strategy.GetAndIncrement();
    second := strategy.GetAndIncrement();
  }

  /** After the counter is set to a value, the next claims are that value and the one after. */
  method SetThenClaim(value: int) returns (first: int, second: int)
    ensures first == value && second == value + 1
  {
    var strategy := NewInstance(SingleThreaded);
    var ignored := strategy.GetAndIncrement();
    strategy.SetSequence(value);
    first := strategy.GetAndIncrement();
    second := strategy.GetAndIncrement();
  }
}
