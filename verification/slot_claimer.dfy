/**
 * Backpressure slot claimers. A claimer holds the ring buffer, a reserve
 * (bufferReverseThreshold) and the gating consumers; it lets a producer claim
 * a slot only while the producer is less than capacity - reserve ahead of the
 * consumed sequence, the least of the cursor and the consumers' sequences.
 * The busy-spin and the yielding claimer differ only in what they do while
 * they wait, which in one thread is nothing: their wait loops become the
 * preconditions CanClaimNext and CanClaimSequence.
 */
module SlotClaimers {
  import opened Util
  import opened Entries
  import opened ClaimStrategies
  import opened BatchConsumers
  import opened Errors
  import opened RingBuffers

  /** The state and the queries both claimers share. */
  class AbstractSlotClaimer {
    const bufferReverseThreshold: int
    const ringBuffer: RingBuffer
    const gatingEventConsumers: seq<Consumer>

    ghost predicate Valid()
      reads this, ringBuffer, ringBuffer.entries, ringBuffer.claimStrategy
    {
      ringBuffer.Valid() && IsInt(bufferReverseThreshold) && |gatingEventConsumers| > 0
    }

    constructor (bufferReverseThreshold: int, ringBuffer: RingBuffer, gatingEventConsumers: seq<Consumer>)
      requires ringBuffer.Valid() && IsInt(bufferReverseThreshold) && |gatingEventConsumers| > 0
      ensures Valid()
      ensures this.bufferReverseThreshold == bufferReverseThreshold
      ensures this.ringBuffer == ringBuffer && this.gatingEventConsumers == gatingEventConsumers
    {
      this.bufferReverseThreshold := bufferReverseThreshold;
      this.ringBuffer := ringBuffer;
      this.gatingEventConsumers := gatingEventConsumers;
    }

    /**
     * The constructor's checks: a missing ring buffer is a NullPointerException,
     * checked first; no gating consumers is an IllegalArgumentException.
     */
    static method Create(bufferReverseThreshold: int, ringBuffer: RingBuffer?, gatingEventConsumers: seq<Consumer>)
      returns (r: Result<AbstractSlotClaimer>)
      requires ringBuffer != null ==> ringBuffer.Valid()
      requires IsInt(bufferReverseThreshold)
      ensures ringBuffer == null <==> r == Err(NullPointerException)
      ensures ringBuffer != null && gatingEventConsumers == [] <==> r == Err(IllegalArgumentException)
      ensures r.Ok? <==> ringBuffer != null && gatingEventConsumers != []
      ensures r.Ok? ==> (fresh(r.value) && r.value.Valid() && r.value.bufferReverseThreshold == bufferReverseThreshold &&
                         r.value.ringBuffer == ringBuffer && r.value.gatingEventConsumers == gatingEventConsumers)
    {
      if ringBuffer == null {
        return Err(NullPointerException);
      }
      if |gatingEventConsumers| == 0 {
        return Err(IllegalArgumentException);
      }
      var claimer := new AbstractSlotClaimer(bufferReverseThreshold, ringBuffer, gatingEventConsumers);
      return Ok(claimer);
    }

    method GetRingBuffer() returns (ring: RingBuffer)
      ensures ring == ringBuffer
    {
      ring := ringBuffer;
    }

    method GetBufferReverseThreshold() returns (threshold: int)
      ensures threshold == bufferReverseThreshold
    {
      threshold := bufferReverseThreshold;
    }

    /**
     * What getConsumedEventSequence computes: the least of the cursor and the
     * gating consumers' sequences, which is the cursor or one of them.
     */
    ghost function ConsumedSequence(): (consumed: int)
      reads this, ringBuffer, gatingEventConsumers
      ensures consumed <= ringBuffer.cursor
      ensures forall i :: 0 <= i < |gatingEventConsumers| ==> consumed <= gatingEventConsumers[i].sequence
      ensures consumed == ringBuffer.cursor ||
        exists i :: 0 <= i < |gatingEventConsumers| && consumed == gatingEventConsumers[i].sequence
    {
      var all := SequencesOf(gatingEventConsumers);
      MinFromIsLowerBound(ringBuffer.cursor, all);
      MinFromIsAttained(ringBuffer.cursor, all);
      MinFrom(ringBuffer.cursor, all)
    }

    /**
     * Folds the consumers' sequences into the cursor; it is at most the cursor
     * and at most every consumer, and it is the cursor or one of them.
     */
    method GetConsumedEventSequence() returns (minimum: int)
      ensures minimum == ConsumedSequence()
      ensures minimum <= ringBuffer.cursor
      ensures forall i :: 0 <= i < |gatingEventConsumers| ==> minimum <= gatingEventConsumers[i].sequence
      ensures minimum == ringBuffer.cursor || exists i :: 0 <= i < |gatingEventConsumers| && minimum == gatingEventConsumers[i].sequence
    {
      ghost var all := SequencesOf(gatingEventConsumers);
      minimum := ringBuffer.GetCursor();
      for i := 0 to |gatingEventConsumers|
        invariant minimum == MinFrom(ringBuffer.cursor, all[..i])
      {
        var sequence := gatingEventConsumers[i].GetSequence();
        assert all[..i + 1][..i] == all[..i];
        minimum := if minimum < sequence then minimum else sequence;
      }
      assert all[..|gatingEventConsumers|] == all;
      MinFromIsLowerBound(ringBuffer.cursor, all);
      MinFromIsAttained(ringBuffer.cursor, all);
    }

    /** capacity - bufferReverseThreshold, a Java int subtraction. */
    function Threshold(): (threshold: int)
      reads this, ringBuffer, ringBuffer.entries, ringBuffer.claimStrategy
      requires Valid()
      ensures IsInt(threshold)
      ensures IsInt(ringBuffer.GetCapacity() - bufferReverseThreshold) ==>
        threshold == ringBuffer.GetCapacity() - bufferReverseThreshold
    {
      Int32(ringBuffer.GetCapacity() - bufferReverseThreshold)
    }

    /**
     * The claimNext wait loop is over: the cursor is less than the threshold
     * ahead of the consumed sequence, that is, of itself and of every consumer.
     */
    ghost predicate CanClaimNext(): (open: bool)
      reads this, ringBuffer, ringBuffer.entries, ringBuffer.claimStrategy, gatingEventConsumers
      requires Valid()
      ensures open <==> (0 < Threshold() &&
        forall i :: 0 <= i < |gatingEventConsumers| ==> ringBuffer.cursor - gatingEventConsumers[i].sequence < Threshold())
    {
      ringBuffer.cursor - ConsumedSequence() < Threshold()
    }

    /**
     * The claimSequence wait loop is over: the sequence is less than the
     * threshold ahead of the cursor and of every consumer.
     */
    ghost predicate CanClaimSequence(sequence: int): (open: bool)
      reads this, ringBuffer, ringBuffer.entries, ringBuffer.claimStrategy, gatingEventConsumers
      requires Valid()
      ensures open <==> (sequence - ringBuffer.cursor < Threshold() &&
        forall i :: 0 <= i < |gatingEventConsumers| ==> sequence - gatingEventConsumers[i].sequence < Threshold())
    {
      sequence - ConsumedSequence() < Threshold()
    }
  }

  /** The claimer that spins on its gate. */
  class BusySpinSlotClaimer {
    const base: AbstractSlotClaimer

    constructor (base: AbstractSlotClaimer)
      ensures this.base == base
    {
      this.base := base;
    }

    /** The constructor's checks, as AbstractSlotClaimer.Create. */
    static method Create(bufferReverseThreshold: int, ringBuffer: RingBuffer?, gatingEventConsumers: seq<Consumer>)
      returns (r: Result<BusySpinSlotClaimer>)
      requires ringBuffer != null ==> ringBuffer.Valid()
      requires IsInt(bufferReverseThreshold)
      ensures ringBuffer == null <==> r == Err(NullPointerException)
      ensures ringBuffer != null && gatingEventConsumers == [] <==> r == Err(IllegalArgumentException)
      ensures r.Ok? <==> ringBuffer != null && gatingEventConsumers != []
      ensures r.Ok? ==> (fresh(r.value) && fresh(r.value.base) && r.value.base.Valid() &&
                         r.value.base.bufferReverseThreshold == bufferReverseThreshold &&
                         r.value.base.ringBuffer == ringBuffer &&
                         r.value.base.gatingEventConsumers == gatingEventConsumers)
    {
      var b := AbstractSlotClaimer.Create(bufferReverseThreshold, ringBuffer, gatingEventConsumers);
      match b {
        case Err(e) => r := Err(e);
        case Ok(claimer) =>
          var c := new BusySpinSlotClaimer(claimer);
          r := Ok(c);
      }
    }

    /** Once the gate is open, claims the ring's next sequence and stamps its slot. */
    method ClaimNext() returns (entry: Entry)
      requires base.Valid() && base.CanClaimNext()
      modifies base.ringBuffer.claimStrategy,
        base.ringBuffer.entries[base.ringBuffer.claimStrategy.sequence % base.ringBuffer.entries.Length]
      ensures base.Valid()
      ensures base.ringBuffer.claimStrategy.sequence == old(base.ringBuffer.claimStrategy.sequence) + 1
      ensures base.ringBuffer.claimStrategy.handedOut ==
        old(base.ringBuffer.claimStrategy.handedOut) + [old(base.ringBuffer.claimStrategy.sequence)]
      ensures entry == base.ringBuffer.entries[old(base.ringBuffer.claimStrategy.sequence) % base.ringBuffer.entries.Length]
      ensures entry.sequence == old(base.ringBuffer.claimStrategy.sequence)
    {
      var ring := base.GetRingBuffer();
      var reserve := base.GetBufferReverseThreshold();
      var threshold := Int32(ring.GetCapacity() - reserve);
      var consumed := base.GetConsumedEventSequence();
      assert ring.GetCursor() - consumed < threshold;
      entry := ring.ClaimNext();
    }

    /** Once the gate is open for the sequence, stamps that sequence's slot with it. */
    method ClaimSequence(sequence: int) returns (entry: Entry)
      requires base.Valid() && sequence >= 0 && base.CanClaimSequence(sequence)
      modifies base.ringBuffer.entries[sequence % base.ringBuffer.entries.Length]
      ensures base.Valid()
      ensures entry == base.ringBuffer.entries[sequence % base.ringBuffer.entries.Length]
      ensures entry.sequence == sequence
    {
      var ring := base.GetRingBuffer();
      var reserve := base.GetBufferReverseThreshold();
      var threshold := Int32(ring.GetCapacity() - reserve);
      var consumed := base.GetConsumedEventSequence();
      assert sequence - consumed < threshold;
      entry := ring.ClaimSequence(sequence);
    }
  }

  /** The claimer that yields its thread while its gate is closed. */
  class YieldingSlotClaimer {
    const base: AbstractSlotClaimer

    constructor (base: AbstractSlotClaimer)
      ensures this.base == base
    {
      this.base := base;
    }

    /** The constructor's checks, as AbstractSlotClaimer.Create. */
    static method Create(bufferReverseThreshold: int, ringBuffer: RingBuffer?, gatingEventConsumers: seq<Consumer>)
      returns (r: Result<YieldingSlotClaimer>)
      requires ringBuffer != null ==> ringBuffer.Valid()
      requires IsInt(bufferReverseThreshold)
      ensures ringBuffer == null <==> r == Err(NullPointerException)
      ensures ringBuffer != null && gatingEventConsumers == [] <==> r == Err(IllegalArgumentException)
      ensures r.Ok? <==> ringBuffer != null && gatingEventConsumers != []
      ensures r.Ok? ==> (fresh(r.value) && fresh(r.value.base) && r.value.base.Valid() &&
                         r.value.base.bufferReverseThreshold == bufferReverseThreshold &&
                         r.value.base.ringBuffer == ringBuffer &&
                         r.value.base.gatingEventConsumers == gatingEventConsumers)
    {
      var b := AbstractSlotClaimer.Create(bufferReverseThreshold, ringBuffer, gatingEventConsumers);
      match b {
        case Err(e) => r := Err(e);
        case Ok(claimer) =>
          var c := new YieldingSlotClaimer(claimer);
          r := Ok(c);
      }
    }

    /** Once the gate is open, claims the ring's next sequence and stamps its slot. */
    method ClaimNext() returns (entry: Entry)
      requires base.Valid() && base.CanClaimNext()
      modifies base.ringBuffer.claimStrategy,
        base.ringBuffer.entries[base.ringBuffer.claimStrategy.sequence % base.ringBuffer.entries.Length]
      ensures base.Valid()
      ensures base.ringBuffer.claimStrategy.sequence == old(base.ringBuffer.claimStrategy.sequence) + 1
      ensures base.ringBuffer.claimStrategy.handedOut ==
        old(base.ringBuffer.claimStrategy.handedOut) + [old(base.ringBuffer.claimStrategy.sequence)]
      ensures entry == base.ringBuffer.entries[old(base.ringBuffer.claimStrategy.sequence) % base.ringBuffer.entries.Length]
      ensures entry.sequence == old(base.ringBuffer.claimStrategy.sequence)
    {
      var ring := base.GetRingBuffer();
      var reserve := base.GetBufferReverseThreshold();
      var threshold := Int32(ring.GetCapacity() - reserve);
      var consumed := base.GetConsumedEventSequence();
      assert ring.GetCursor() - consumed < threshold;
      entry := ring.ClaimNext();
    }

    /** Once the gate is open for the sequence, stamps that sequence's slot with it. */
    method ClaimSequence(sequence: int) returns (entry: Entry)
      requires base.Valid() && sequence >= 0 && base.CanClaimSequence(sequence)
      modifies base.ringBuffer.entries[sequence % base.ringBuffer.entries.Length]
      ensures base.Valid()
      ensures entry == base.ringBuffer.entries[sequence % base.ringBuffer.entries.Length]
      ensures entry.sequence == sequence
    {
      var ring := base.GetRingBuffer();
      var reserve := base.GetBufferReverseThreshold();
      var threshold := Int32(ring.GetCapacity() - reserve);
      var consumed := base.GetConsumedEventSequence();
      assert sequence - consumed < threshold;
      entry := ring.ClaimSequence(sequence);
    }
  }

  /**
   * The consumed sequence is the lesser of the cursor and getMinimumSequence
   * of the consumers (Long.MAX_VALUE bounds every long cursor).
   */
  lemma ConsumedIsCursorOrMinimum(cursor: int, sequences: seq<int>)
    requires cursor <= LONG_MAX
    ensures MinFrom(cursor, sequences) == Lesser(cursor, MinFrom(LONG_MAX, sequences))
  {
    MinFromLowerStart(cursor, LONG_MAX, sequences);
  }

  /**
   * When every claim is committed (the next claim is cursor + 1) and the
   * reserve is not negative, an open claimNext gate means any earlier
   * sequence in the claimed slot has been consumed by every gating consumer.
   */
  lemma ClaimNextGateKeepsRingSafe(claimer: AbstractSlotClaimer, earlier: int)
    requires claimer.Valid() && claimer.CanClaimNext()
    requires 0 <= claimer.bufferReverseThreshold
    requires claimer.ringBuffer.claimStrategy.sequence == claimer.ringBuffer.cursor + 1
    requires earlier < claimer.ringBuffer.claimStrategy.sequence
    requires earlier % claimer.ringBuffer.entries.Length ==
      claimer.ringBuffer.claimStrategy.sequence % claimer.ringBuffer.entries.Length
    ensures forall i :: 0 <= i < |claimer.gatingEventConsumers| ==> earlier <= claimer.gatingEventConsumers[i].sequence
  {
    var ring := claimer.ringBuffer;
    var capacity := ring.entries.Length;
    SameSlotIsCapacityApart(earlier, ring.claimStrategy.sequence, capacity);
    MinFromIsLowerBound(ring.cursor, SequencesOf(claimer.gatingEventConsumers));
  }

  /**
   * Without the committed-claims hypothesis the claimNext gate does not keep the
   * ring safe, because it reads the cursor and not the claim counter. On a ring
   * of two with no reserve and a consumer still at -1, three claims without a
   * commit all find the gate open, and the third restamps slot 0, which holds
   * sequence 0, with sequence 2.
   */
  method ClaimNextWithoutCommitOverwrites() returns (sameSlot: bool, stamp: int, consumed: int)
    ensures sameSlot && stamp == 2 && consumed == -1
  {
    var claimer, consumer := NewStalledTwoSlotClaimer();
    var first := claimer.ClaimNext();
    var third := ClaimTwiceMore(claimer, consumer);
    sameSlot := first == third;
    stamp := first.GetSequence();
    consumed := consumer.GetSequence();
  }

  /** Claims sequences 1 and 2 on the stalled claimer and returns the entry stamped 2. */
  method ClaimTwiceMore(claimer: BusySpinSlotClaimer, consumer: Consumer) returns (third: Entry)
    requires claimer.base.Valid() && claimer.base.bufferReverseThreshold == 0
    requires claimer.base.ringBuffer.entries.Length == 2
    requires claimer.base.gatingEventConsumers == [consumer] && consumer.sequence == -1
    requires claimer.base.ringBuffer.cursor == INITIAL_CURSOR_VALUE
    requires claimer.base.ringBuffer.claimStrategy.sequence == 1
    modifies claimer.base.ringBuffer.claimStrategy, claimer.base.ringBuffer.entries[0], claimer.base.ringBuffer.entries[1]
    ensures third == claimer.base.ringBuffer.entries[0] && third.sequence == 2
  {
    GateStaysOpen(claimer.base, consumer);
    var second := claimer.ClaimNext();
    GateStaysOpen(claimer.base, consumer);
    third := claimer.ClaimNext();
  }

  /** A busy-spin claimer with no reserve over a fresh two-slot ring and one consumer at -1. */
  method NewStalledTwoSlotClaimer() returns (claimer: BusySpinSlotClaimer, consumer: Consumer)
    ensures fresh(consumer) && claimer.base.Valid()
    ensures fresh(claimer.base.ringBuffer.claimStrategy)
    ensures claimer.base.gatingEventConsumers == [consumer] && consumer.sequence == -1
    ensures claimer.base.bufferReverseThreshold == 0
    ensures claimer.base.ringBuffer.entries.Length == 2
    ensures forall i :: 0 <= i < 2 ==> fresh(claimer.base.ringBuffer.entries[i])
    ensures claimer.base.ringBuffer.cursor == INITIAL_CURSOR_VALUE
    ensures claimer.base.ringBuffer.claimStrategy.sequence == 0
  {
    var ring := NewTwoSlotRing();
    var barrier := new ThresholdBarrier(ring, []);
    consumer := new BatchEventConsumer(barrier);
    var r := BusySpinSlotClaimer.Create(0, ring, [consumer]);
    claimer := r.value;
  }

  /** The stalled claimer's gate: the cursor and the consumer both stay at -1, so it is open. */
  lemma GateStaysOpen(claimer: AbstractSlotClaimer, consumer: Consumer)
    requires claimer.Valid() && claimer.bufferReverseThreshold == 0 && claimer.ringBuffer.entries.Length == 2
    requires claimer.gatingEventConsumers == [consumer] && consumer.sequence == -1
    requires claimer.ringBuffer.cursor == INITIAL_CURSOR_VALUE
    ensures claimer.CanClaimNext()
  {
    assert claimer.Threshold() == 2;
  }

  /**
   * With a reserve that is not negative, an open claimSequence gate means any
   * earlier sequence in the claimed slot has been consumed by every gating
   * consumer.
   */
  lemma ClaimSequenceGateKeepsRingSafe(claimer: AbstractSlotClaimer, sequence: int, earlier: int)
    requires claimer.Valid() && claimer.CanClaimSequence(sequence)
    requires 0 <= claimer.bufferReverseThreshold
    requires earlier < sequence
    requires earlier % claimer.ringBuffer.entries.Length == sequence % claimer.ringBuffer.entries.Length
    ensures forall i :: 0 <= i < |claimer.gatingEventConsumers| ==> earlier < claimer.gatingEventConsumers[i].sequence
  {
    var ring := claimer.ringBuffer;
    SameSlotIsCapacityApart(earlier, sequence, ring.entries.Length);
    MinFromIsLowerBound(ring.cursor, SequencesOf(claimer.gatingEventConsumers));
  }

  /** A ring of 100 (rounded to 128) with one consumer that has consumed sequence 0. */
  method NewRingWithConsumerAtZero() returns (ring: RingBuffer, consumer: Consumer)
    ensures fresh(ring) && fresh(ring.entries) && fresh(ring.claimStrategy) && fresh(consumer)
    ensures ring.Valid() && ring.entries.Length == 128
    ensures ring.cursor == INITIAL_CURSOR_VALUE && ring.claimStrategy.sequence == 0
    ensures forall i :: 0 <= i < ring.entries.Length ==> fresh(ring.entries[i])
    ensures consumer.sequence == 0
  {
    var size := 100;
    assert IsPowerOfTwo(128);
    CeilingIsUnique(size, 128);
    ring := new RingBuffer(size, SingleThreaded);
    var barrier := new ThresholdBarrier(ring, []);
    consumer := new BatchEventConsumer(barrier);
    var callback := new ProgressTrackerCallback(consumer);
    callback.OnCompleted(0);
  }

  /** A busy-spin claimer with no reserve hands out sequence 0 first. */
  method BusySpinShouldClaimFirstSlot() returns (sequence: int)
    ensures sequence == 0
  {
    var ring, consumer := NewRingWithConsumerAtZero();
    var r := BusySpinSlotClaimer.Create(0, ring, [consumer]);
    var claimer := r.value;
    assert SequencesOf([consumer]) == [0];
    assert [0][..0] == [];
    var entry := claimer.ClaimNext();
    sequence := entry.GetSequence();
  }

  /** A busy-spin claimer with reserve 20 stamps sequence 15 into its slot. */
  method BusySpinShouldClaimSequence() returns (sequence: int)
    ensures sequence == 15
  {
    var ring, consumer := NewRingWithConsumerAtZero();
    var r := BusySpinSlotClaimer.Create(20, ring, [consumer]);
    var claimer := r.value;
    assert SequencesOf([consumer]) == [0];
    assert [0][..0] == [];
    var entry := claimer.ClaimSequence(15);
    sequence := entry.GetSequence();
  }

  /** A yielding claimer with no reserve hands out sequence 0 first. */
  method YieldingShouldClaimFirstSlot() returns (sequence: int)
    ensures sequence == 0
  {
    var ring, consumer := NewRingWithConsumerAtZero();
    var r := YieldingSlotClaimer.Create(0, ring, [consumer]);
    var claimer := r.value;
    assert SequencesOf([consumer]) == [0];
    assert [0][..0] == [];
    var entry := claimer.ClaimNext();
    sequence := entry.GetSequence();
  }

  /** A yielding claimer with reserve 20 stamps sequence 15 into its slot. */
  method YieldingShouldClaimSequence() returns (sequence: int)
    ensures sequence == 15
  {
    var ring, consumer := NewRingWithConsumerAtZero();
    var r := YieldingSlotClaimer.Create(20, ring, [consumer]);
    var claimer := r.value;
    assert SequencesOf([consumer]) == [0];
    assert [0][..0] == [];
    var entry := claimer.ClaimSequence(15);
    sequence := entry.GetSequence();
  }

  /** The getters give back what the claimer was built with. */
  method GettersReturnConstructorArguments() returns (same: bool)
    ensures same
  {
    var ring, consumer := NewRingWithConsumerAtZero();
    var r := AbstractSlotClaimer.Create(7, ring, [consumer]);
    var claimer := r.value;
    var gotRing := claimer.GetRingBuffer();
    var gotReserve := claimer.GetBufferReverseThreshold();
    same := gotRing == ring && gotReserve == 7;
  }

  /** A new consumer of the ring that has consumed up to the given sequence. */
  method NewConsumerAt(ring: RingBuffer, sequence: int) returns (consumer: Consumer)
    ensures fresh(consumer) && consumer.sequence == sequence
  {
    var barrier := new ThresholdBarrier(ring, []);
    consumer := new BatchEventConsumer(barrier);
    var callback := new ProgressTrackerCallback(consumer);
    callback.OnCompleted(sequence);
  }

  /** A ring of 128 whose producer has claimed and committed the given sequence. */
  method NewCommittedRing(sequence: int) returns (ring: RingBuffer)
    requires sequence >= 0
    ensures fresh(ring) && ring.Valid() && ring.cursor == sequence
  {
    var consumer;
    ring, consumer := NewRingWithConsumerAtZero();
    var producer := new ProducerBarrier(ring, [consumer]);
    var entry := ring.ClaimSequence(sequence);
    producer.Commit(entry);
  }

  /** A claimer over a ring committed at 2384378, gated on consumers at 3, 86 and 2384378. */
  method NewClaimerOverWorkers() returns (claimer: AbstractSlotClaimer)
    ensures claimer.ringBuffer.cursor == 2384378
    ensures SequencesOf(claimer.gatingEventConsumers) == [3, 86, 2384378]
  {
    var ring := NewCommittedRing(2384378);
    var first := NewConsumerAt(ring, 3);
    var second := NewConsumerAt(ring, 86);
    var third := NewConsumerAt(ring, 2384378);
    var r := AbstractSlotClaimer.Create(0, ring, [first, second, third]);
    claimer := r.value;
    assert SequencesOf([first, second, third]) == [3, 86, 2384378];
  }

  /**
   * With the cursor committed at 2384378 and consumers at 3, 86 and 2384378,
   * the consumed sequence is 3.
   */
  method ShouldGetMinOffWorkers() returns (consumed: int)
    ensures consumed == 3
  {
    var claimer := NewClaimerOverWorkers();
    consumed := claimer.GetConsumedEventSequence();
    MinOfWorkers();
  }

  /** The fold behind ShouldGetMinOffWorkers. */
  lemma MinOfWorkers()
    ensures MinFrom(2384378, [3, 86, 2384378]) == 3
  {
    assert [3, 86, 2384378][..2] == [3, 86] && [3, 86][..1] == [3] && [3][..0] == [];
  }
}
