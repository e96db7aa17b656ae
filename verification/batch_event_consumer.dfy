/**
 * The progress state of a batch event consumer: the sequence it has consumed up
 * to, whether it is still running, and the barrier it waits on. The type of the
 * barrier is a parameter so that the ring buffer, whose barriers track
 * consumers, can be declared after this module.
 */
module BatchConsumers {

  class BatchEventConsumer<B> {
    /** Sequence of the last entry this consumer has finished with; -1 before any. */
    var sequence: int
    var running: bool
    const barrier: B

    constructor (barrier: B)
      ensures this.barrier == barrier
      ensures sequence == -1 && running
    {
      this.barrier := barrier;
      sequence := -1;
      running := true;
    }

    method GetSequence() returns (s: int)
      ensures s == sequence
    {
      s := sequence;
    }

    /** Asks the consumer to stop; only the running flag changes. */
    method Halt()
      modifies this`running
      ensures !running
    {
      running := false;
    }

    method GetBarrier() returns (b: B)
      ensures b == barrier
    {
      b := barrier;
    }
  }

  /**
   * The callback a progress-reporting handler receives: it lets the handler
   * publish the consumer's sequence itself.
   */
  class ProgressTrackerCallback<B> {
    const consumer: BatchEventConsumer<B>

    constructor (consumer: BatchEventConsumer<B>)
      ensures this.consumer == consumer
    {
      this.consumer := consumer;
    }

    method OnCompleted(sequence: int)
      modifies consumer`sequence
      ensures consumer.sequence == sequence
    {
      consumer.sequence := sequence;
    }
  }

  /** The sequences of the given consumers, in order. */
  function SequencesOf<B>(consumers: seq<BatchEventConsumer<B>>): (r: seq<int>)
    reads consumers
    ensures |r| == |consumers|
    ensures forall i :: 0 <= i < |consumers| ==> r[i] == consumers[i].sequence
  {
    if consumers == [] then []
    else SequencesOf(consumers[..|consumers| - 1]) + [consumers[|consumers| - 1].sequence]
  }

  /** Halting twice leaves the consumer as halting once does: stopped, its sequence still -1. */
  method HaltIsIdempotent<B>(barrier: B) returns (runningOnce: bool, runningTwice: bool, sequence: int)
    ensures !runningOnce && runningTwice == runningOnce && sequence == -1
  {
    var consumer := new BatchEventConsumer(barrier);
    consumer.Halt();
    runningOnce := consumer.running;
    consumer.Halt();
    runningTwice := consumer.running;
    sequence := consumer.GetSequence();
  }

  /** What a handler reports through the callback is what getSequence then returns. */
  method OnCompletedIsReported<B>(barrier: B, reported: int) returns (sequence: int, stillRunning: bool)
    ensures sequence == reported && stillRunning
  {
    var consumer := new BatchEventConsumer(barrier);
    var callback := new ProgressTrackerCallback(consumer);
    callback.OnCompleted(reported);
    sequence := consumer.GetSequence();
    stillRunning := consumer.running;
  }

  /** getBarrier gives back the barrier the consumer was built with. */
  method GetBarrierReturnsConstructorArgument<B>(barrier: B) returns (got: B)
    ensures got == barrier
  {
    var consumer := new BatchEventConsumer(barrier);
    got := consumer.GetBarrier();
  }
}
