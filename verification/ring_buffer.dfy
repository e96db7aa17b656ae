/**
 * The ring buffer: a power-of-two array of pre-allocated entries, the cursor of
 * the last committed sequence, and the claim counter; with the consumer-side
 * threshold barrier (slot lookup and the alert flag) and the producer-side
 * barrier (gated claims and commits). The spin and yield loops of the source
 * become preconditions: in one thread a closed gate would never open.
 */
module RingBuffers {
  import opened Util
  import opened Entries
  import opened ClaimStrategies
  import opened BatchConsumers
  import opened Errors

  /** The cursor of an empty ring buffer. */
  const INITIAL_CURSOR_VALUE: int := -1

  /** The consumers a barrier tracks. */
  type Consumer = BatchEventConsumer<ThresholdBarrier>

  class RingBuffer {
    /** The last committed sequence. */
    var cursor: int
    const entries: array<Entry?>
    const ringModMask: int
    const claimStrategy: SingleThreadedStrategy

    ghost predicate Valid()
      reads this, entries, claimStrategy
    {
      IsPowerOfTwo(entries.Length) && entries.Length <= MAX_ROUNDABLE &&
      ringModMask == entries.Length - 1 &&
      (forall i :: 0 <= i < entries.Length ==> entries[i] != null) &&
      (forall i, j :: 0 <= i < j < entries.Length ==> entries[i] != entries[j]) &&
      claimStrategy.Valid() && claimStrategy.sequence >= 0
    }

    /**
     * The size is rounded up to a power of two, every slot gets its own new
     * entry, and the cursor starts at -1. Sizes up to 0 give one slot; sizes
     * above 2^30 would make the int rounding negative and the array allocation
     * throw, so they are excluded.
     */
    constructor (size: int, claimStrategyOption: Option)
      requires INT_MIN < size <= MAX_ROUNDABLE
      ensures Valid()
      ensures entries.Length == CeilingNextPowerOfTwo(size)
      ensures ringModMask == entries.Length - 1
      ensures cursor == INITIAL_CURSOR_VALUE
      ensures fresh(entries) && fresh(claimStrategy)
      ensures claimStrategy.sequence == 0 && claimStrategy.handedOut == []
      ensures forall i :: 0 <= i < entries.Length ==> fresh(entries[i]) && entries[i].sequence == 0
    {
      var sizeAsPowerOfTwo := CeilingNextPowerOfTwo(size);
      PowerOfTwoIntIsRoundable(sizeAsPowerOfTwo);
      ringModMask := sizeAsPowerOfTwo - 1;
      entries := new Entry?[sizeAsPowerOfTwo];
      var strategy := NewInstance(claimStrategyOption);
      claimStrategy := strategy;
      cursor := INITIAL_CURSOR_VALUE;
      new;
      Fill();
    }

    /** Puts a distinct new entry into every slot. */
    method Fill()
      modifies entries
      ensures forall i :: 0 <= i < entries.Length ==> entries[i] != null && fresh(entries[i]) && entries[i].sequence == 0
      ensures forall i, j :: 0 <= i < j < entries.Length ==> entries[i] != entries[j]
    {
      for i := 0 to entries.Length
        invariant forall j :: 0 <= j < i ==> entries[j] != null && fresh(entries[j]) && entries[j].sequence == 0
        invariant forall j, k :: 0 <= j < k < i ==> entries[j] != entries[k]
      {
        entries[i] := new Entry();
      }
    }

    function GetCapacity(): (capacity: int)
      reads this, entries, claimStrategy
      requires Valid()
      ensures IsPowerOfTwo(capacity) && capacity <= MAX_ROUNDABLE && capacity == ringModMask + 1
    {
      entries.Length
    }

    /** The last committed sequence, as a consumer or a slot claimer reads it. */
    function GetCursor(): (current: int)
      reads this
      ensures current == cursor
    {
      cursor
    }

    /** The slot of a sequence, sequence & ringModMask: the sequence modulo the capacity. */
    function SlotIndex(sequence: int): (index: int)
      reads this, entries, claimStrategy
      requires Valid() && sequence >= 0
      ensures 0 <= index < entries.Length
      ensures index == sequence % entries.Length
    {
      MaskIsMod(sequence, entries.Length);
      BitAnd(sequence, ringModMask)
    }

    /**
     * Stamps the slot of the given sequence with it and returns that slot;
     * the claim counter and the other slots are left alone.
     */
    method ClaimSequence(sequence: int) returns (entry: Entry)
      requires Valid() && sequence >= 0
      modifies entries[sequence % entries.Length]
      ensures Valid()
      ensures entry == entries[sequence % entries.Length] && entry.sequence == sequence
      ensures forall i :: 0 <= i < entries.Length && i != sequence % entries.Length ==>
        entries[i].sequence == old(entries[i].sequence)
    {
      var index := SlotIndex(sequence);
      entry := entries[index];
      entry.SetSequence(sequence);
    }

    /** Claims the next sequence from the counter and stamps its slot, without any gate. */
    method ClaimNext() returns (entry: Entry)
      requires Valid()
      modifies claimStrategy, entries[claimStrategy.sequence % entries.Length]
      ensures Valid()
      ensures claimStrategy.sequence == old(claimStrategy.sequence) + 1
      ensures claimStrategy.handedOut == old(claimStrategy.handedOut) + [old(claimStrategy.sequence)]
      ensures entry == entries[old(claimStrategy.sequence) % entries.Length]
      ensures entry.sequence == old(claimStrategy.sequence)
      ensures forall i :: 0 <= i < entries.Length && i != old(claimStrategy.sequence) % entries.Length ==>
        entries[i].sequence == old(entries[i].sequence)
    {
      var sequence := claimStrategy.GetAndIncrement();
      entry := ClaimSequence(sequence);
    }
  }

  /** The barrier consumers wait at: slot lookup, the cursor and the alert flag. */
  class ThresholdBarrier {
    const ring: RingBuffer
    const eventConsumers: seq<Consumer>
    var alerted: bool

    constructor (ring: RingBuffer, eventConsumers: seq<Consumer>)
      ensures this.ring == ring && this.eventConsumers == eventConsumers
      ensures !alerted
    {
      this.ring := ring;
      this.eventConsumers := eventConsumers;
      alerted := false;
    }

    /** The entry in the slot of the sequence, which is the sequence modulo the capacity. */
    method GetEntry(sequence: int) returns (entry: Entry)
      requires ring.Valid() && sequence >= 0
      ensures entry == ring.entries[sequence % ring.entries.Length]
    {
      entry := ring.entries[ring.SlotIndex(sequence)];
    }

    method GetCursor() returns (cursor: int)
      ensures cursor == ring.cursor
    {
      cursor := ring.cursor;
    }

    method IsAlerted() returns (isAlerted: bool)
      ensures isAlerted == alerted
    {
      isAlerted := alerted;
    }

    /** Raises the alert; it stays raised until cleared. */
    method Alert()
      modifies this`alerted
      ensures alerted
    {
      alerted := true;
    }

    method CleanAlert()
      modifies this`alerted
      ensures !alerted
    {
      alerted := false;
    }
  }

  /** The barrier producers claim and commit through, gated on the slowest consumer. */
  class ProducerBarrier {
    const ring: RingBuffer
    const eventConsumers: seq<Consumer>

    ghost predicate Valid()
      reads this, ring, ring.entries, ring.claimStrategy
    {
      ring.Valid() && |eventConsumers| > 0
    }

    constructor (ring: RingBuffer, eventConsumers: seq<Consumer>)
      requires ring.Valid() && |eventConsumers| > 0
      ensures Valid()
      ensures this.ring == ring && this.eventConsumers == eventConsumers
    {
      this.ring := ring;
      this.eventConsumers := eventConsumers;
    }

    /** The constructor's check: there must be a consumer to keep the ring from wrapping. */
    static method Create(ring: RingBuffer, eventConsumers: seq<Consumer>) returns (r: Result<ProducerBarrier>)
      requires ring.Valid()
      ensures r.Err? <==> |eventConsumers| == 0
      ensures r.Err? ==> r.error == IllegalArgumentException
      ensures r.Ok? ==> (fresh(r.value) && r.value.Valid() &&
                         r.value.ring == ring && r.value.eventConsumers == eventConsumers)
    {
      if |eventConsumers| == 0 {
        r := Err(IllegalArgumentException);
      } else {
        var barrier := new ProducerBarrier(ring, eventConsumers);
        r := Ok(barrier);
      }
    }

    /**
     * Whether the gate of ensureConsumersAreInRange is open for a claimed
     * sequence: it is less than a capacity ahead of every consumer, and, for
     * consumers at long sequences, that is all it takes.
     */
    ghost predicate InRange(sequence: int): (open: bool)
      reads this, ring, eventConsumers
      ensures open ==> forall i :: 0 <= i < |eventConsumers| ==> sequence - eventConsumers[i].sequence < ring.entries.Length
      ensures (|eventConsumers| > 0 && forall i :: 0 <= i < |eventConsumers| ==> eventConsumers[i].sequence <= LONG_MAX) ==>
        ((forall i :: 0 <= i < |eventConsumers| ==> sequence - eventConsumers[i].sequence < ring.entries.Length) ==> open)
    {
      MinFromIsLowerBound(LONG_MAX, SequencesOf(eventConsumers));
      MinFromIsAttained(LONG_MAX, SequencesOf(eventConsumers));
      sequence - MinFrom(LONG_MAX, SequencesOf(eventConsumers)) < ring.entries.Length
    }

    /**
     * One test of the spin condition of ensureConsumersAreInRange: whether the
     * sequence is less than a capacity ahead of the slowest consumer.
     */
    method ConsumersAreInRange(sequence: int) returns (inRange: bool)
      ensures inRange <==> sequence - MinFrom(LONG_MAX, SequencesOf(eventConsumers)) < ring.entries.Length
    {
      var minimum := GetMinimumSequence(eventConsumers);
      inRange := sequence - minimum < ring.entries.Length;
    }

    /**
     * Claims the next sequence, passes the consumer gate (required open, as it
     * would otherwise spin forever) and stamps the slot.
     */
    method NextEntry() returns (entry: Entry)
      requires Valid()
      requires InRange(ring.claimStrategy.sequence)
      modifies ring.claimStrategy, ring.entries[ring.claimStrategy.sequence % ring.entries.Length]
      ensures Valid()
      ensures ring.claimStrategy.sequence == old(ring.claimStrategy.sequence) + 1
      ensures ring.claimStrategy.handedOut == old(ring.claimStrategy.handedOut) + [old(ring.claimStrategy.sequence)]
      ensures entry == ring.entries[old(ring.claimStrategy.sequence) % ring.entries.Length]
      ensures entry.sequence == old(ring.claimStrategy.sequence)
      ensures forall i :: 0 <= i < ring.entries.Length && i != old(ring.claimStrategy.sequence) % ring.entries.Length ==>
        ring.entries[i].sequence == old(ring.entries[i].sequence)
    {
      var sequence := ring.claimStrategy.GetAndIncrement();
      var inRange := ConsumersAreInRange(sequence);
      assert inRange;
      entry := ring.ClaimSequence(sequence);
    }

    /** Publishes an entry: the cursor becomes its sequence; the slots are not touched. */
    method Commit(entry: Entry)
      modifies ring`cursor
      ensures ring.cursor == entry.sequence
    {
      var sequence := entry.GetSequence();
      ring.claimStrategy.WaitForCursor(sequence - 1, ring);
      ring.cursor := sequence;
    }
  }

  /** Two sequences in the same slot lie a whole number of capacities apart. */
  lemma SameSlotIsCapacityApart(earlier: int, sequence: int, capacity: int)
    requires capacity > 0 && earlier < sequence
    requires earlier % capacity == sequence % capacity
    ensures earlier <= sequence - capacity
  {
    DivMod(earlier, capacity);
    DivMod(sequence, capacity);
    var d := sequence / capacity - earlier / capacity;
    assert sequence - earlier == capacity * d;
    MulAtLeast(capacity, d);
  }

  /** A sequence a whole number of capacities later uses the same slot. */
  lemma SameSlotAfterWrap(sequence: int, laps: nat, capacity: int)
    requires capacity > 0
    ensures (sequence + laps * capacity) % capacity == sequence % capacity
  {
    DivMod(sequence, capacity);
    var q := sequence / capacity;
    assert sequence + laps * capacity == capacity * (q + laps) + sequence % capacity;
    ModUnique(sequence + laps * capacity, capacity, q + laps, sequence % capacity);
  }

  /**
   * The gate of nextEntry keeps the ring from wrapping: every earlier sequence
   * in the slot being claimed is behind every gating consumer.
   */
  lemma NextEntryGateKeepsRingSafe(sequence: int, earlier: int, capacity: int, consumed: seq<int>)
    requires capacity > 0
    requires sequence - MinFrom(LONG_MAX, consumed) < capacity
    requires 0 <= earlier < sequence && earlier % capacity == sequence % capacity
    ensures forall i :: 0 <= i < |consumed| ==> earlier < consumed[i]
  {
    SameSlotIsCapacityApart(earlier, sequence, capacity);
    MinFromIsLowerBound(LONG_MAX, consumed);
  }

  /** A fresh ring of 20 has 32 slots and cursor -1; one claim gets 0, and committing it moves the cursor to 0. */
  method ShouldClaimAndGet() returns (capacity: int, initialCursor: int, claimed: int, readBack: bool, finalCursor: int)
    ensures capacity == 32 && initialCursor == INITIAL_CURSOR_VALUE
    ensures claimed == 0 && readBack && finalCursor == 0
  {
    var size := 20;
    CeilingIsUnique(size, 32);
    var ring := new RingBuffer(size, SingleThreaded);
    capacity := ring.GetCapacity();
    initialCursor := ring.GetCursor();
    var barrier := new ThresholdBarrier(ring, []);
    var consumer := new BatchEventConsumer(barrier);
    var producer := new ProducerBarrier(ring, [consumer]);
    var entry := ring.ClaimNext();
    claimed := entry.GetSequence();
    producer.Commit(entry);
    var read := barrier.GetEntry(claimed);
    readBack := read == entry;
    finalCursor := ring.GetCursor();
  }

  /** Claiming sequence 5 directly and committing it makes 5 the cursor and the entry readable at 5. */
  method ShouldSetAtSpecificSequence() returns (readBack: bool, stamped: int, finalCursor: int)
    ensures readBack && stamped == 5 && finalCursor == 5
  {
    var ring := new RingBuffer(20, SingleThreaded);
    var barrier := new ThresholdBarrier(ring, []);
    var consumer := new BatchEventConsumer(barrier);
    var producer := new ProducerBarrier(ring, [consumer]);
    var entry := ring.ClaimSequence(5);
    producer.Commit(entry);
    var read := barrier.GetEntry(5);
    readBack := read == entry;
    stamped := read.GetSequence();
    finalCursor := ring.GetCursor();
  }

  /** A fresh two-slot ring buffer, as the constructor builds it for size 2. */
  method NewTwoSlotRing() returns (ring: RingBuffer)
    ensures fresh(ring) && fresh(ring.entries) && fresh(ring.claimStrategy)
    ensures ring.Valid() && ring.entries.Length == 2 && ring.cursor == INITIAL_CURSOR_VALUE
    ensures ring.claimStrategy.sequence == 0
    ensures forall i :: 0 <= i < 2 ==> fresh(ring.entries[i]) && ring.entries[i].sequence == 0
  {
    var size := 2;
    CeilingOfPowerOfTwo(size);
    ring := new RingBuffer(size, SingleThreaded);
  }

  /**
   * On a ring of two slots, the third claim reuses the first slot: reading
   * sequence 0 or 2 gives the same entry, stamped 2, and slot 1 still holds 1.
   */
  method ShouldWrap() returns (sameSlot: bool, latest: int, other: int)
    ensures sameSlot && latest == 2 && other == 1
  {
    var ring := NewTwoSlotRing();
    var barrier := new ThresholdBarrier(ring, []);
    var e0 := ring.ClaimNext();
    var e1 := ring.ClaimNext();
    var e2 := ring.ClaimNext();
    var atZero := barrier.GetEntry(0);
    var atTwo := barrier.GetEntry(2);
    sameSlot := atZero == atTwo;
    latest := atZero.GetSequence();
    var atOne := barrier.GetEntry(1);
    other := atOne.GetSequence();
  }

  /**
   * With a ring of two slots and a consumer stalled at -1, the producer gets
   * sequence 0 but the gate for sequence 1 is closed until the consumer reports 0.
   */
  method StalledConsumerBlocksProducer() returns (claimed: int, openWhileStalled: bool, openAfterProgress: bool)
    ensures claimed == 0 && !openWhileStalled && openAfterProgress
  {
    var ring := NewTwoSlotRing();
    var barrier := new ThresholdBarrier(ring, []);
    var consumer := new BatchEventConsumer(barrier);
    var producer := new ProducerBarrier(ring, [consumer]);
    assert SequencesOf([consumer]) == [-1];
    var entry := producer.NextEntry();
    claimed := entry.GetSequence();
    assert SequencesOf([consumer]) == [-1];
    openWhileStalled := producer.ConsumersAreInRange(ring.claimStrategy.sequence);
    var callback := new ProgressTrackerCallback(consumer);
    callback.OnCompleted(0);
    openAfterProgress := producer.ConsumersAreInRange(ring.claimStrategy.sequence);
  }

  /** The alert flag starts lowered, is raised by alert and lowered again by cleanAlert. */
  method AlertLifecycle() returns (initially: bool, afterAlert: bool, afterClean: bool)
    ensures !initially && afterAlert && !afterClean
  {
    var ring := new RingBuffer(20, SingleThreaded);
    var barrier := new ThresholdBarrier(ring, []);
    initially := barrier.IsAlerted();
    barrier.Alert();
    afterAlert := barrier.IsAlerted();
    barrier.CleanAlert();
    afterClean := barrier.IsAlerted();
  }

  /** Building a producer barrier over no consumers fails with IllegalArgumentException. */
  method ProducerBarrierNeedsConsumers() returns (r: Result<ProducerBarrier>)
    ensures r == Err(IllegalArgumentException)
  {
    var ring := new RingBuffer(20, SingleThreaded);
    r := ProducerBarrier.Create(ring, []);
  }
}
