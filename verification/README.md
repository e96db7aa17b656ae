# Disruptor-clone ring buffer, modelled in Dafny

This project models the sequential core of a Disruptor-style ring buffer.
The ring buffer pre-allocates a power-of-two array of entries. Producers
claim monotonically increasing sequence numbers, stamp the slot
`sequence & (capacity - 1)` with the claimed sequence, and commit it, which
moves the ring's cursor. Consumers record the last sequence they have
consumed. The producer barrier's `nextEntry` gates the sequence it claims on
the slowest consumer, so it never overwrites a slot a consumer still needs
(`NextEntryGateKeepsRingSafe`). The slot claimers' `claimNext` gates on the
cursor instead of the sequence it claims. It keeps the ring safe only while
every claim has been committed (`ClaimNextGateKeepsRingSafe`). A producer that
claims without committing can overwrite a slot no consumer has read
(`ClaimNextWithoutCommitOverwrites`).

Modules (one file each):

- `Errors` (`errors.dfy`): the two exceptions the constructors throw, with a `Result` type.
- `Util` (`util.dfy`): `ceilingNextPowerOfTwo` over Java `int` arithmetic, made explicit: `Int32` wrap-around, `Integer.numberOfLeadingZeros`, and `<<` with its distance taken modulo 32.
  - `getMinimumSequence` as a loop, proved against a fold `MinFrom`.
  - Bitwise `&` on naturals, proved equal to `%` for power-of-two masks.
- `Entries` (`abstract_entry.dfy`): `AbstractEntry`'s sequence stamp.
- `BatchConsumers` (`batch_event_consumer.dfy`): the consumer's `sequence`/`running` state, `halt`, and the progress callback.
- `ClaimStrategies` (`claim_strategy.dfy`): `ClaimStrategy.SingleThreadedStrategy` and its `Option` factory.
  - A ghost log `handedOut` of the values handed out since the counter was last set.
  - The invariant that these are consecutive and end just below the counter.
- `SequenceClaimStrategies` (`sequence_claim_strategy.dfy`): `SingleThreadedSequenceClaimStrategy`, with the same log.
- `RingBuffers` (`ring_buffer.dfy`): `RingBuffer`, its consumer-side `ConsumerTrackingThresholdBarrier` (here `ThresholdBarrier`) and its `ConsumerTrackingProducerBarrier` (here `ProducerBarrier`).
- `SlotClaimers` (`slot_claimer.dfy`): `AbstractSlotClaimer`, `BusySpinSlotClaimer` and `YieldingSlotClaimer`.

How the Java is represented:

- **Object state.** Every Java object whose fields change is a Dafny `class`. `RingBuffer.entries` is an `array<Entry?>` filled in a loop, as `fill` does.
- **Spin and yield loops.** In a single thread a closed gate never opens, so each `while` loop a producer spins or yields in becomes a precondition: `ProducerBarrier.InRange`, `AbstractSlotClaimer.CanClaimNext` and `AbstractSlotClaimer.CanClaimSequence`. The method then proves that the gate it evaluates is open.
- **Constructors that throw.** These become a `static method Create` that returns `Err(NullPointerException)` or `Err(IllegalArgumentException)` in the same order as the Java checks. The bare constructor requires the checks to pass.
- **Abstract base class.** `AbstractSlotClaimer` is the shared part of the two claimers. Each claimer holds it as `base`.
- **Tests as scenarios.** The repository's unit tests become methods that build fresh objects and state the expected values in their `ensures`.

Two behaviours worth noting:

- A requested size ≤ 0 does not fail. `ceilingNextPowerOfTwo` maps every size in (Integer.MIN_VALUE, 0] to 1, so the ring gets one slot.
- `RingBuffer.java` defines no `claimSequence`. The model's `RingBuffer.ClaimSequence` stamps the slot and leaves the claim counter alone. This is a modelling choice: no code path calls `ClaimStrategy.setSequence`.

## Model

| member | source | states |
|---|---|---|
| Util.NumberOfLeadingZeros | disruptor-clone/src/main/java/org/garry/disruptor_clone/Util.java:18 | The result lies in 0..32. It is 32 minus the bit length for a non-negative int and 0 for a negative one. |
| Util.CeilingNextPowerOfTwo | disruptor-clone/src/main/java/org/garry/disruptor_clone/Util.java:10-19 | The result is always an int. For 1 ≤ x ≤ 2^30 it is a power of two r with x ≤ r < 2x, so it is at least x and at most twice x. Every x in (Integer.MIN_VALUE, 0] gives 1. |
| Util.CeilingIsUnique | disruptor-clone/src/main/java/org/garry/disruptor_clone/Util.java:10-19 | Any power of two p with x ≤ p < 2x is the result, so the result is the least power of two ≥ x. |
| Util.CeilingOfPowerOfTwo | disruptor-clone/src/test/java/org/garry/disruptor_clone/UntilTest.java:17-20 | A power of two in range rounds to itself. |
| Util.CeilingExamples | disruptor-clone/src/test/java/org/garry/disruptor_clone/UntilTest.java:10-20 | 1000 rounds to 1024 and 1024 to 1024. The ring sizes the tests use, 100 and 20, round to 128 and 32. |
| Util.CeilingOutOfRange | disruptor-clone/src/main/java/org/garry/disruptor_clone/Util.java:16-19 | Above 2^30, and at Integer.MIN_VALUE (where x - 1 wraps), the shift distance is 31 and the result is Integer.MIN_VALUE. |
| Util.MaskIsMod | disruptor-clone/src/main/java/org/garry/disruptor_clone/RingBuffer.java:93-95 | For s ≥ 0 and a power of two c, s & (c - 1) equals s mod c. |
| Util.MinFromIsLowerBound | disruptor-clone/src/main/java/org/garry/disruptor_clone/Util.java:26-34 | The fold of the minimum loop is ≤ its start and ≤ every sequence. |
| Util.MinFromIsAttained | disruptor-clone/src/main/java/org/garry/disruptor_clone/Util.java:26-34 | The fold equals its start or one of the sequences. |
| Util.MinFromIgnoresOrder | disruptor-clone/src/main/java/org/garry/disruptor_clone/Util.java:26-34 | Two orderings of the same consumer sequences give the same minimum. |
| Util.MinFromLowerStart | disruptor-clone/src/main/java/org/garry/disruptor_clone/AbstractSlotClaimer.java:35-45 | Starting the fold from a lower value is taking the lesser of that value and the fold from a higher start. |
| Util.MinimumSequenceOfNonEmpty | disruptor-clone/src/main/java/org/garry/disruptor_clone/Util.java:24-34 | For a non-empty array of longs, the minimum from Long.MAX_VALUE is one of the sequences and ≤ each of them. |
| Util.GetMinimumSequence | disruptor-clone/src/main/java/org/garry/disruptor_clone/Util.java:24-34 | The loop returns the fold from Long.MAX_VALUE of the consumers' sequences, and Long.MAX_VALUE for no consumers. |
| Entries.Entry.constructor | disruptor-clone/src/main/java/org/garry/disruptor_clone/AbstractEntry.java:8 | A new entry's sequence is 0, the default of a long field. |
| Entries.Entry.GetSequence | disruptor-clone/src/main/java/org/garry/disruptor_clone/AbstractEntry.java:14-17 | Returns the stamp. |
| Entries.Entry.SetSequence | disruptor-clone/src/main/java/org/garry/disruptor_clone/AbstractEntry.java:23-26 | The stamp becomes the argument. Only the `sequence` field may change. |
| Entries.LaterSetOverwrites | disruptor-clone/src/main/java/org/garry/disruptor_clone/AbstractEntry.java:23-26 | After two stamps, getSequence returns the later one. |
| Entries.SetTwiceIsSetOnce | disruptor-clone/src/main/java/org/garry/disruptor_clone/AbstractEntry.java:23-26 | Stamping the same value twice reads back as stamping it once. |
| BatchConsumers.BatchEventConsumer.constructor | disruptor-clone/src/main/java/org/garry/disruptor_clone/BatchEventConsumer.java:5-18 | The sequence starts at -1 and running at true. The barrier is the one given. |
| BatchConsumers.BatchEventConsumer.GetSequence | disruptor-clone/src/main/java/org/garry/disruptor_clone/BatchEventConsumer.java:22-25 | Returns the consumer's sequence. |
| BatchConsumers.BatchEventConsumer.Halt | disruptor-clone/src/main/java/org/garry/disruptor_clone/BatchEventConsumer.java:29-32 | running becomes false. Nothing else, the sequence included, may change. |
| BatchConsumers.BatchEventConsumer.GetBarrier | disruptor-clone/src/main/java/org/garry/disruptor_clone/BatchEventConsumer.java:34-37 | Returns the barrier. |
| BatchConsumers.ProgressTrackerCallback.constructor | disruptor-clone/src/main/java/org/garry/disruptor_clone/BatchEventConsumer.java:44-50 | The callback is bound to its consumer. |
| BatchConsumers.ProgressTrackerCallback.OnCompleted | disruptor-clone/src/main/java/org/garry/disruptor_clone/BatchEventConsumer.java:46-49 | The consumer's sequence becomes the reported one. Only that field may change. |
| BatchConsumers.HaltIsIdempotent | disruptor-clone/src/main/java/org/garry/disruptor_clone/BatchEventConsumer.java:29-32 | Halting twice leaves the same state as halting once: stopped, with the sequence still -1. |
| BatchConsumers.OnCompletedIsReported | disruptor-clone/src/main/java/org/garry/disruptor_clone/BatchEventConsumer.java:22-49 | After onCompleted(s), getSequence returns s. The consumer is still running. |
| BatchConsumers.GetBarrierReturnsConstructorArgument | disruptor-clone/src/main/java/org/garry/disruptor_clone/BatchEventConsumer.java:13-37 | getBarrier returns the barrier given to the constructor. |
| ClaimStrategies.ConsecutiveIsRange | disruptor-clone/src/main/java/org/garry/disruptor_clone/ClaimStrategy.java:56-64 | The consecutive-log invariant holds exactly when the values handed out are the range of integers ending just below the counter. |
| ClaimStrategies.ConsecutiveIsGapFree | disruptor-clone/src/main/java/org/garry/disruptor_clone/ClaimStrategy.java:56-59 | Values handed out since the last set strictly increase by one each. |
| ClaimStrategies.SingleThreadedStrategy.constructor | disruptor-clone/src/main/java/org/garry/disruptor_clone/ClaimStrategy.java:52-54 | The counter starts at 0 with nothing handed out. |
| ClaimStrategies.SingleThreadedStrategy.GetAndIncrement | disruptor-clone/src/main/java/org/garry/disruptor_clone/ClaimStrategy.java:56-59 | Returns the old counter and adds exactly one. The value is appended to the log, so the consecutive invariant is kept. |
| ClaimStrategies.SingleThreadedStrategy.SetSequence | disruptor-clone/src/main/java/org/garry/disruptor_clone/ClaimStrategy.java:61-64 | The counter becomes the argument whatever it held. The log starts afresh. |
| ClaimStrategies.SingleThreadedStrategy.WaitForCursor | disruptor-clone/src/main/java/org/garry/disruptor_clone/ClaimStrategy.java:66-69 | Changes neither the strategy nor any other existing object. |
| ClaimStrategies.NewInstance | disruptor-clone/src/main/java/org/garry/disruptor_clone/ClaimStrategy.java:32-40 | SINGLE_THREADED yields a fresh strategy at 0. |
| ClaimStrategies.FirstClaimsOfFreshStrategy | disruptor-clone/src/main/java/org/garry/disruptor_clone/ClaimStrategy.java:54-59 | A fresh strategy hands out 0 and then 1. |
| ClaimStrategies.SetThenClaim | disruptor-clone/src/main/java/org/garry/disruptor_clone/ClaimStrategy.java:56-64 | After setSequence(v), whatever came before, the next claims are v and v + 1. |
| SequenceClaimStrategies.SingleThreadedSequenceClaimStrategy.constructor | disruptor-clone/src/main/java/org/garry/disruptor_clone/SingleThreadedSequenceClaimStrategy.java:5 | The counter starts at 0. |
| SequenceClaimStrategies.SingleThreadedSequenceClaimStrategy.GetAndIncrement | disruptor-clone/src/main/java/org/garry/disruptor_clone/SingleThreadedSequenceClaimStrategy.java:7-10 | Returns the old counter and adds one. The consecutive invariant is kept. |
| SequenceClaimStrategies.SingleThreadedSequenceClaimStrategy.SetSequence | disruptor-clone/src/main/java/org/garry/disruptor_clone/SingleThreadedSequenceClaimStrategy.java:12-16 | Overwrites the counter whatever its prior value. |
| SequenceClaimStrategies.ShouldSetThenIncrement | disruptor-clone/src/test/java/org/garry/disruptor_clone/SingleThreadedSequenceClaimStrategyTest.java:13-16 | setSequence(7) and then two claims give 7 and 8. |
| SequenceClaimStrategies.SetTwiceIsSetOnce | disruptor-clone/src/main/java/org/garry/disruptor_clone/SingleThreadedSequenceClaimStrategy.java:12-16 | Setting a value twice gives the same next claim as setting it once: that value. |
| RingBuffers.RingBuffer.constructor | disruptor-clone/src/main/java/org/garry/disruptor_clone/RingBuffer.java:38-55 | The capacity is ceilingNextPowerOfTwo(size) and the mask is capacity - 1. The cursor is -1 and the claim strategy is fresh at 0. Every slot holds its own fresh entry, stamped 0. |
| RingBuffers.RingBuffer.Fill | disruptor-clone/src/main/java/org/garry/disruptor_clone/RingBuffer.java:57-61 | Every slot gets a new entry, and no two slots share one. |
| RingBuffers.RingBuffer.GetCapacity | disruptor-clone/src/main/java/org/garry/disruptor_clone/RingBuffer.java:67-69 | The capacity is a power of two, at most 2^30, and one more than the mask. |
| RingBuffers.RingBuffer.GetCursor | disruptor-clone/src/main/java/org/garry/disruptor_clone/RingBuffer.java:75-77 | Returns the last committed sequence, which Commit sets and the claimers' gates read. |
| RingBuffers.RingBuffer.SlotIndex | disruptor-clone/src/main/java/org/garry/disruptor_clone/RingBuffer.java:93-95 | sequence & ringModMask is in bounds and equals the sequence modulo the capacity. |
| RingBuffers.RingBuffer.ClaimSequence | disruptor-clone/src/test/java/org/garry/disruptor_clone/RingBufferTest.java:127-140 | Returns the slot of the sequence, stamped with it. Every other slot keeps its stamp. |
| RingBuffers.RingBuffer.ClaimNext | disruptor-clone/src/test/java/org/garry/disruptor_clone/RingBufferTest.java:28-44 | Claims the counter's value, which then goes up by one. Returns that value's slot stamped with it, and every other slot keeps its stamp. |
| RingBuffers.ThresholdBarrier.constructor | disruptor-clone/src/main/java/org/garry/disruptor_clone/RingBuffer.java:83-90 | Keeps the consumers. The alert starts lowered. |
| RingBuffers.ThresholdBarrier.GetEntry | disruptor-clone/src/main/java/org/garry/disruptor_clone/RingBuffer.java:92-95 | Returns the entry in slot sequence mod capacity. |
| RingBuffers.ThresholdBarrier.GetCursor | disruptor-clone/src/main/java/org/garry/disruptor_clone/RingBuffer.java:107-110 | Returns the ring's cursor. |
| RingBuffers.ThresholdBarrier.IsAlerted | disruptor-clone/src/main/java/org/garry/disruptor_clone/RingBuffer.java:112-115 | Returns the alert flag. |
| RingBuffers.ThresholdBarrier.Alert | disruptor-clone/src/main/java/org/garry/disruptor_clone/RingBuffer.java:117-121 | Raises the flag. Only the flag changes. |
| RingBuffers.ThresholdBarrier.CleanAlert | disruptor-clone/src/main/java/org/garry/disruptor_clone/RingBuffer.java:123-126 | Lowers the flag. Only the flag changes. |
| RingBuffers.ProducerBarrier.constructor | disruptor-clone/src/main/java/org/garry/disruptor_clone/RingBuffer.java:140-148 | Keeps the ring and the consumers, of which there is at least one. The barrier is valid from construction on. |
| RingBuffers.ProducerBarrier.Create | disruptor-clone/src/main/java/org/garry/disruptor_clone/RingBuffer.java:140-148 | Over a valid ring, fails exactly when the consumer array is empty, and then with IllegalArgumentException. Otherwise it builds a fresh, valid barrier. |
| RingBuffers.ProducerBarrier.ConsumersAreInRange | disruptor-clone/src/main/java/org/garry/disruptor_clone/RingBuffer.java:175-181 | True exactly when the sequence minus getMinimumSequence of the consumers is below the capacity. |
| RingBuffers.ProducerBarrier.InRange | disruptor-clone/src/main/java/org/garry/disruptor_clone/RingBuffer.java:175-181 | The spin condition's negation, sequence - getMinimumSequence < capacity. When open, the sequence is less than a capacity ahead of every consumer. Conversely, that suffices for a non-empty array of consumers at long sequences. |
| RingBuffers.ProducerBarrier.NextEntry | disruptor-clone/src/main/java/org/garry/disruptor_clone/RingBuffer.java:150-158 | Claims s from the counter, which goes up by one. The gate is open for s. Returns slot s & mask stamped with s, and every other slot keeps its stamp. |
| RingBuffers.ProducerBarrier.Commit | disruptor-clone/src/main/java/org/garry/disruptor_clone/RingBuffer.java:160-168 | The cursor becomes the entry's sequence. Only the cursor may change. |
| RingBuffers.SameSlotIsCapacityApart | disruptor-clone/src/main/java/org/garry/disruptor_clone/RingBuffer.java:93-95 | Two different sequences that share a slot are at least one capacity apart. |
| RingBuffers.SameSlotAfterWrap | disruptor-clone/src/main/java/org/garry/disruptor_clone/RingBuffer.java:93-95 | A sequence a whole number of capacities later maps to the same slot. |
| RingBuffers.NextEntryGateKeepsRingSafe | disruptor-clone/src/main/java/org/garry/disruptor_clone/RingBuffer.java:175-181 | When the nextEntry gate is open for s, every earlier sequence in s's slot is below every consumer's sequence. |
| RingBuffers.ShouldClaimAndGet | disruptor-clone/src/test/java/org/garry/disruptor_clone/RingBufferTest.java:28-44 | A ring of 20 has 32 slots and cursor -1. The first claim is 0. After commit, sequence 0 reads back the same entry and the cursor is 0. |
| RingBuffers.ShouldSetAtSpecificSequence | disruptor-clone/src/test/java/org/garry/disruptor_clone/RingBufferTest.java:127-140 | Claiming and committing 5 makes 5 the cursor, and sequence 5 reads back the entry stamped 5. |
| RingBuffers.ShouldWrap | disruptor-clone/src/test/java/org/garry/disruptor_clone/RingBufferTest.java:106-124 | On a ring of two, the third claim reuses slot 0: sequences 0 and 2 read the same entry, stamped 2, while slot 1 still holds 1. |
| RingBuffers.StalledConsumerBlocksProducer | disruptor-clone/src/main/java/org/garry/disruptor_clone/RingBuffer.java:175-181 | On a ring of two with a consumer at -1, the gate opens for 0 but not for 1, until the consumer reports 0. |
| RingBuffers.AlertLifecycle | disruptor-clone/src/main/java/org/garry/disruptor_clone/RingBuffer.java:86-126 | The alert starts false, alert makes it true and cleanAlert makes it false. |
| RingBuffers.ProducerBarrierNeedsConsumers | disruptor-clone/src/main/java/org/garry/disruptor_clone/RingBuffer.java:142-145 | A producer barrier over no consumers is an IllegalArgumentException. |
| SlotClaimers.AbstractSlotClaimer.constructor | disruptor-clone/src/main/java/org/garry/disruptor_clone/AbstractSlotClaimer.java:9-25 | Keeps the reserve, the ring and the consumers. The claimer is valid from construction on. |
| SlotClaimers.AbstractSlotClaimer.Create | disruptor-clone/src/main/java/org/garry/disruptor_clone/AbstractSlotClaimer.java:9-25 | A null ring is a NullPointerException, checked first. Otherwise an empty consumer array is an IllegalArgumentException. It succeeds exactly when neither applies, and then the claimer is valid and keeps its arguments. |
| SlotClaimers.AbstractSlotClaimer.GetRingBuffer | disruptor-clone/src/main/java/org/garry/disruptor_clone/AbstractSlotClaimer.java:29-32 | Returns the ring. |
| SlotClaimers.AbstractSlotClaimer.GetBufferReverseThreshold | disruptor-clone/src/main/java/org/garry/disruptor_clone/AbstractSlotClaimer.java:47-49 | Returns the reserve. |
| SlotClaimers.AbstractSlotClaimer.GetConsumedEventSequence | disruptor-clone/src/main/java/org/garry/disruptor_clone/AbstractSlotClaimer.java:34-45 | The loop gives the fold of the consumers' sequences into the cursor. The result is ≤ the cursor and ≤ every consumer, and it equals the cursor or some consumer's sequence. It changes nothing. |
| SlotClaimers.AbstractSlotClaimer.ConsumedSequence | disruptor-clone/src/main/java/org/garry/disruptor_clone/AbstractSlotClaimer.java:34-45 | The value getConsumedEventSequence computes. It is ≤ the cursor and ≤ every consumer, and it is the cursor or one consumer's sequence. |
| SlotClaimers.AbstractSlotClaimer.CanClaimNext | disruptor-clone/src/main/java/org/garry/disruptor_clone/BusySpinSlotClaimer.java:19 | The negation of the claimNext spin condition (the same at YieldingSlotClaimer.java:16). It holds exactly when the threshold is positive and the cursor is less than the threshold ahead of every consumer. |
| SlotClaimers.AbstractSlotClaimer.CanClaimSequence | disruptor-clone/src/main/java/org/garry/disruptor_clone/BusySpinSlotClaimer.java:33 | The negation of the claimSequence spin condition (the same at YieldingSlotClaimer.java:28). It holds exactly when the sequence is less than the threshold ahead of the cursor and of every consumer. |
| SlotClaimers.AbstractSlotClaimer.Threshold | disruptor-clone/src/main/java/org/garry/disruptor_clone/BusySpinSlotClaimer.java:18 | capacity - reserve as an int. It is exactly that difference whenever it fits. |
| SlotClaimers.ConsumedIsCursorOrMinimum | disruptor-clone/src/main/java/org/garry/disruptor_clone/AbstractSlotClaimer.java:35-45 | The consumed sequence is min(cursor, getMinimumSequence(consumers)). |
| SlotClaimers.BusySpinSlotClaimer.Create | disruptor-clone/src/main/java/org/garry/disruptor_clone/BusySpinSlotClaimer.java:9-13 | The base constructor's checks, with the same errors in the same order. |
| SlotClaimers.BusySpinSlotClaimer.ClaimNext | disruptor-clone/src/main/java/org/garry/disruptor_clone/BusySpinSlotClaimer.java:15-25 | Requires cursor - consumed < threshold, and evaluates that gate as open. Then it is the ring's claimNext: the counter goes up by one and the old value's slot is stamped with it. |
| SlotClaimers.BusySpinSlotClaimer.ClaimSequence | disruptor-clone/src/main/java/org/garry/disruptor_clone/BusySpinSlotClaimer.java:27-38 | Requires s - consumed < threshold, and evaluates that gate as open. Then it returns slot s stamped with s. |
| SlotClaimers.YieldingSlotClaimer.Create | disruptor-clone/src/main/java/org/garry/disruptor_clone/YieldingSlotClaimer.java:5-9 | The base constructor's checks, with the same errors in the same order. |
| SlotClaimers.YieldingSlotClaimer.ClaimNext | disruptor-clone/src/main/java/org/garry/disruptor_clone/YieldingSlotClaimer.java:11-21 | As the busy-spin claimNext: the same gate, then the ring's claimNext. |
| SlotClaimers.YieldingSlotClaimer.ClaimSequence | disruptor-clone/src/main/java/org/garry/disruptor_clone/YieldingSlotClaimer.java:23-33 | As the busy-spin claimSequence: the same gate, then slot s stamped with s. |
| SlotClaimers.ClaimNextGateKeepsRingSafe | disruptor-clone/src/main/java/org/garry/disruptor_clone/BusySpinSlotClaimer.java:15-25 | Take a reserve ≥ 0 and a ring where every claim is committed (the next claim is cursor + 1). If the claimNext gate is open, every earlier sequence in the claimed slot is ≤ every consumer's sequence, so it has been consumed. |
| SlotClaimers.ClaimNextWithoutCommitOverwrites | disruptor-clone/src/main/java/org/garry/disruptor_clone/BusySpinSlotClaimer.java:15-25 | Take a two-slot ring with no reserve and one consumer at -1. Three claimNext calls without a commit all pass the gate. The third restamps slot 0, which held sequence 0, with 2, while the consumer is still at -1. |
| SlotClaimers.ClaimSequenceGateKeepsRingSafe | disruptor-clone/src/main/java/org/garry/disruptor_clone/BusySpinSlotClaimer.java:27-38 | With a reserve ≥ 0, an open claimSequence gate for s means every earlier sequence in s's slot is below every consumer's sequence. |
| SlotClaimers.BusySpinShouldClaimFirstSlot | disruptor-clone/src/test/java/org/garry/disruptor_clone/BusySpinSlotClaimerTest.java:10-21 | A ring of 100 with one consumer at 0 and no reserve: the first claimNext is 0. |
| SlotClaimers.BusySpinShouldClaimSequence | disruptor-clone/src/test/java/org/garry/disruptor_clone/BusySpinSlotClaimerTest.java:23-36 | With reserve 20, claimSequence(15) returns an entry stamped 15. |
| SlotClaimers.YieldingShouldClaimFirstSlot | disruptor-clone/src/test/java/org/garry/disruptor_clone/YieldingSlotClaimerTest.java:10-21 | As the busy-spin test: the first claimNext is 0. |
| SlotClaimers.YieldingShouldClaimSequence | disruptor-clone/src/test/java/org/garry/disruptor_clone/YieldingSlotClaimerTest.java:23-37 | As the busy-spin test: claimSequence(15) is stamped 15. |
| SlotClaimers.GettersReturnConstructorArguments | disruptor-clone/src/main/java/org/garry/disruptor_clone/AbstractSlotClaimer.java:22-49 | getRingBuffer and getBufferReverseThreshold return the constructor's arguments. |
| SlotClaimers.ShouldGetMinOffWorkers | disruptor-clone/src/test/java/org/garry/disruptor_clone/ThresholdBarrierTest.java:42-61 | Cursor 2384378 and consumers at 3, 86 and 2384378 give the consumed sequence 3. |

## Left out

- Threads, `volatile` and memory visibility, `Thread.yield` and the cache-line padding fields. Everything is sequential, and the spin and yield loops are preconditions: NextEntry and the claimers' ClaimNext and ClaimSequence require their gate to be open instead of waiting for it.
- `WaitStrategy`, the `waitFor` delegation of the threshold barrier, and the `signalAll` calls in `alert` and `commit`. The wait strategy is not part of this model, and a notification has no effect in one thread.
- The `ThresholdBarrier` interface's `getProcessedEventSequence` and `checkForAlert`. `ConsumerTrackingThresholdBarrier` does not implement them. The processed sequence the interface describes is the slot claimers' consumed sequence, modelled by `GetConsumedEventSequence`. An `AlertException` is the `alerted` flag.
- `RingBuffer.claimNext`, `claimSequence`, `get`, `createBarrier` and `Entry.commit` are called by the tests, but `RingBuffer.java` does not define them. They are modelled as follows:
  - `RingBuffer.ClaimNext` and `RingBuffer.ClaimSequence` stamp a slot without any gate;
  - `ThresholdBarrier.GetEntry` reads a slot;
  - building a `ThresholdBarrier` stands in for `createBarrier`;
  - `ProducerBarrier.Commit` stands in for committing an entry.
- RingBuffers.RingBuffer.ClaimSequence: does not change the claim counter. `RingBuffer.java` defines no `claimSequence`, and no code path calls `ClaimStrategy.setSequence`, so the model leaves the counter alone.
- RingBuffers.ProducerBarrier.Create: a null consumer array is not modelled. Java throws NullPointerException at `eventConsumers.length` (RingBuffer.java:142), but a Dafny `seq` cannot be null.
- SlotClaimers.AbstractSlotClaimer.Create: a null consumer array is not modelled, for the same reason. Java throws NullPointerException at `gatingEventConsumers.length` (AbstractSlotClaimer.java:18). The same holds for the two claimers' Create.
- RingBuffers.ProducerBarrier.Create and SlotClaimers.AbstractSlotClaimer.Create: require the ring to be valid. A Java ring buffer satisfies that invariant from its constructor on.
- `Factory`: slots are filled with `new Entry()`. Entry payloads (`setValue`, `copy`) are not modelled.
- RingBuffers.RingBuffer.constructor: sizes are limited to Integer.MIN_VALUE < size ≤ 2^30. Above that, and at Integer.MIN_VALUE, the rounding is Integer.MIN_VALUE (proved in `CeilingOutOfRange`), and Java's array allocation would throw. The wait-strategy option argument is dropped.
- RingBuffers.RingBuffer.SlotIndex: requires sequence ≥ 0. Java's `sequence & ringModMask` of a negative long is not modelled.
- RingBuffers.ThresholdBarrier.GetEntry: requires sequence ≥ 0, for the same reason.
- RingBuffers.RingBuffer.ClaimSequence: requires sequence ≥ 0, for the same reason.
- SlotClaimers.BusySpinSlotClaimer.ClaimSequence: requires sequence ≥ 0, for the same reason.
- SlotClaimers.YieldingSlotClaimer.ClaimSequence: requires sequence ≥ 0, for the same reason.
- Sequences, cursors and counters are unbounded integers. Java `long` overflow after 2^63 claims is not modelled. `ceilingNextPowerOfTwo`, the capacity and the slot claimers' threshold do model `int` wrap-around.
- `BatchEventConsumer.run` is empty and is left out. The consumer's `handler` and `noProgressTracker` fields are never read. The consumer's barrier is a type parameter, so that the consumer module does not depend on the ring buffer module.
- The claimers' Java inheritance from `AbstractSlotClaimer` is modelled as a `base` field, because the model uses no traits. The interfaces (`Entry`, `EventConsumer`, `EventHandler`, `SlotClaimer`, `ThresholdBarrier`, `ConsumerBarrier`, `Factory`, `ProgressReportingEventHandler`) have no logic and are not modelled.
- `Bakery` is a concurrency demonstration and is not modelled.
- `FatalEventExceptionHandler` (logging) is not modelled.
- `SequenceClaimThreadingStrategy` and the multi-threaded claim strategy it builds are not modelled.
- The top-level `ConsumerTrackingProducerBarrier` stub is not modelled.
- `Util.main` prints and is left out.
