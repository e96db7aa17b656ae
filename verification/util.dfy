/**
 * Capacity rounding and minimum-sequence computation, over Java's 32-bit int
 * and 64-bit long, written out on unbounded integers.
 */
module Util {
  import opened BatchConsumers

  const INT_MIN: int := -0x8000_0000
  const INT_MAX: int := 0x7fff_ffff
  const LONG_MAX: int := 0x7fff_ffff_ffff_ffff
  /** The largest argument for which rounding up to a power of two stays a positive int. */
  const MAX_ROUNDABLE: int := 0x4000_0000

  predicate IsInt(v: int) { INT_MIN <= v <= INT_MAX }

  /** Two's-complement wrap-around of an integer into the 32-bit int range. */
  function Int32(v: int): (r: int)
    ensures IsInt(r)
    ensures IsInt(v) ==> r == v
  {
    (v - INT_MIN) % 0x1_0000_0000 + INT_MIN
  }

  function Pow2(k: nat): (r: nat)
    ensures r >= 1
  {
    if k == 0 then 1 else 2 * Pow2(k - 1)
  }

  predicate IsPowerOfTwo(n: int)
    decreases if n > 0 then n else 0
  {
    n >= 1 && (n == 1 || (n % 2 == 0 && IsPowerOfTwo(n / 2)))
  }

  /** Number of binary digits of v, without leading zeros; 0 for 0. */
  function BitLength(v: nat): nat
  {
    if v == 0 then 0 else 1 + BitLength(v / 2)
  }

  lemma {:induction false} BitLengthBounds(v: nat)
    ensures v < Pow2(BitLength(v))
    ensures v > 0 ==> Pow2(BitLength(v) - 1) <= v
  {
    if v > 0 {
      BitLengthBounds(v / 2);
    }
  }

  lemma {:induction false} BitLengthAtMost(v: nat, k: nat)
    requires v < Pow2(k)
    ensures BitLength(v) <= k
  {
    if v > 0 {
      BitLengthAtMost(v / 2, k - 1);
    }
  }

  lemma {:induction false} BitLengthAtLeast(v: nat, k: nat)
    requires Pow2(k) <= v
    ensures k < BitLength(v)
  {
    if k > 0 {
      BitLengthAtLeast(v / 2, k - 1);
    }
  }

  /**
   * Integer.numberOfLeadingZeros: the zero bits above the highest one bit of the
   * 32-bit two's-complement form of i (32 for 0, 0 for a negative i).
   */
  function NumberOfLeadingZeros(i: int): (r: int)
    requires IsInt(i)
    ensures 0 <= r <= 32
    ensures i >= 0 ==> r == 32 - BitLength(i)
    ensures i < 0 ==> r == 0
  {
    if i < 0 then 0
    else
      Pow2Values();
      BitLengthAtMost(i, 31);
      32 - BitLength(i)
  }

  /** The Java int shift value << distance: the distance is taken modulo 32 and the result wraps. */
  function ShiftLeft(value: int, distance: int): (r: int)
    requires IsInt(value)
    ensures IsInt(r)
  {
    Int32(value * Pow2(distance % 32))
  }

  /**
   * Util.ceilingNextPowerOfTwo: 1 << (32 - numberOfLeadingZeros(x - 1)) in int
   * arithmetic. For 1 <= x <= 2^30 it is the least power of two that is >= x;
   * every x <= 0 above Integer.MIN_VALUE rounds to 1.
   */
  function CeilingNextPowerOfTwo(x: int): (r: int)
    requires IsInt(x)
    ensures IsInt(r)
    ensures 1 <= x <= MAX_ROUNDABLE ==> IsPowerOfTwo(r) && x <= r && r < 2 * x
    ensures INT_MIN < x <= 0 ==> r == 1
  {
    var d := 32 - NumberOfLeadingZeros(Int32(x - 1));
    if 1 <= x <= MAX_ROUNDABLE then
      Pow2Values();
      BitLengthBounds(x - 1);
      BitLengthAtMost(x - 1, 30);
      Pow2Monotonic(d, 30);
      Pow2IsPowerOfTwo(d);
      ShiftLeft(1, d)
    else
      ShiftLeft(1, d)
  }

  /**
   * Above 2^30, and at Integer.MIN_VALUE where x - 1 wraps to Integer.MAX_VALUE,
   * the shift distance is 31 and the result is Integer.MIN_VALUE, a negative size.
   */
  lemma CeilingOutOfRange(x: int)
    requires IsInt(x) && (x == INT_MIN || MAX_ROUNDABLE < x)
    ensures CeilingNextPowerOfTwo(x) == INT_MIN
  {
    var v := Int32(x - 1);
    assert MAX_ROUNDABLE <= v;
    Pow2Values();
    BitLengthAtLeast(v, 30);
    BitLengthAtMost(v, 31);
    assert NumberOfLeadingZeros(v) == 1;
    assert ShiftLeft(1, 31) == INT_MIN;
  }

  lemma {:induction false} Pow2IsPowerOfTwo(k: nat)
    ensures IsPowerOfTwo(Pow2(k))
  {
    if k > 0 {
      Pow2IsPowerOfTwo(k - 1);
    }
  }

  lemma {:induction false} Pow2Monotonic(j: nat, k: nat)
    requires j <= k
    ensures Pow2(j) <= Pow2(k)
  {
    if j < k {
      Pow2Monotonic(j, k - 1);
    }
  }

  /** Two powers of two each less than twice the other are equal. */
  lemma {:induction false} PowersOfTwoClose(a: int, b: int)
    requires IsPowerOfTwo(a) && IsPowerOfTwo(b)
    requires a < 2 * b && b < 2 * a
    ensures a == b
    decreases a
  {
    if a != 1 && b != 1 {
      PowersOfTwoClose(a / 2, b / 2);
    }
  }

  /** A power of two that is an int is at most 2^30. */
  lemma PowerOfTwoIntIsRoundable(n: int)
    requires IsPowerOfTwo(n) && n <= INT_MAX
    ensures n <= MAX_ROUNDABLE
  {
    if n > MAX_ROUNDABLE {
      Pow2Values();
      Pow2IsPowerOfTwo(30);
      PowersOfTwoClose(n, MAX_ROUNDABLE);
    }
  }

  /** A power of two p with x <= p < 2x is the rounding of x. */
  lemma CeilingIsUnique(x: int, p: int)
    requires 1 <= x <= MAX_ROUNDABLE
    requires IsPowerOfTwo(p) && x <= p < 2 * x
    ensures CeilingNextPowerOfTwo(x) == p
  {
    PowersOfTwoClose(CeilingNextPowerOfTwo(x), p);
  }

  /** A power of two within range is its own rounding. */
  lemma CeilingOfPowerOfTwo(x: int)
    requires 1 <= x <= MAX_ROUNDABLE && IsPowerOfTwo(x)
    ensures CeilingNextPowerOfTwo(x) == x
  {
    CeilingIsUnique(x, x);
  }

  lemma CeilingExamples()
    ensures CeilingNextPowerOfTwo(1000) == 1024
    ensures CeilingNextPowerOfTwo(1024) == 1024
    ensures CeilingNextPowerOfTwo(100) == 128
    ensures CeilingNextPowerOfTwo(20) == 32
  {
    assert IsPowerOfTwo(1024) && IsPowerOfTwo(128) && IsPowerOfTwo(32);
    CeilingIsUnique(1000, 1024);
    CeilingOfPowerOfTwo(1024);
    CeilingIsUnique(100, 128);
    CeilingIsUnique(20, 32);
  }

  /** Java's & on two non-negative operands, bit by bit from the lowest. */
  function BitAnd(a: nat, b: nat): nat
  {
    if a == 0 || b == 0 then 0
    else 2 * BitAnd(a / 2, b / 2) + (if a % 2 == 1 && b % 2 == 1 then 1 else 0)
  }

  lemma {:induction false} Pow2Add(a: nat, b: nat)
    ensures Pow2(a + b) == Pow2(a) * Pow2(b)
  {
    if a > 0 {
      Pow2Add(a - 1, b);
    }
  }

  lemma Pow2Values()
    ensures Pow2(30) == MAX_ROUNDABLE
    ensures Pow2(31) == INT_MAX + 1
  {
    assert Pow2(5) == 32;
    Pow2Add(5, 5);
    Pow2Add(10, 10);
    Pow2Add(20, 10);
    Pow2Add(30, 1);
  }

  lemma {:induction false} MulAtLeast(c: nat, d: int)
    requires d >= 1
    ensures c * d >= c
  {
    if d > 1 {
      MulAtLeast(c, d - 1);
    }
  }

  /** Division with remainder has only one solution. */
  lemma ModUnique(s: int, c: int, q: int, rem: int)
    requires c > 0 && s == c * q + rem && 0 <= rem < c
    ensures s % c == rem
  {
    var q', r' := s / c, s % c;
    assert s == c * q' + r';
    assert c * q - c * q' == c * (q - q');
    if q > q' {
      MulAtLeast(c, q - q');
    } else if q < q' {
      MulAtLeast(c, q' - q);
    }
  }

  /** Masking with capacity - 1 is reduction modulo the capacity, for a power-of-two capacity. */
  lemma {:induction false} MaskIsMod(s: nat, c: int)
    requires IsPowerOfTwo(c)
    ensures BitAnd(s, c - 1) == s % c
    decreases c
  {
    if c > 1 {
      MaskIsMod(s / 2, c / 2);
      MaskStep(s, c / 2);
    }
  }

  /** One bit more: if masking s / 2 with h - 1 reduces it modulo h, masking s with 2h - 1 reduces it modulo 2h. */
  lemma MaskStep(s: nat, h: int)
    requires h >= 1 && BitAnd(s / 2, h - 1) == (s / 2) % h
    ensures BitAnd(s, 2 * h - 1) == s % (2 * h)
  {
    var q := s / 2;
    var m, r := q / h, q % h;
    DivMod(q, h);
    BitAndOddMask(s, h);
    assert BitAnd(s, 2 * h - 1) == 2 * r + s % 2;
    HalvedRemainder(s, h, m, r);
  }

  lemma DivMod(q: int, h: int)
    requires h > 0
    ensures q == h * (q / h) + q % h && 0 <= q % h < h
  {
  }

  /** Masking with 2h - 1 keeps the lowest bit and masks the rest with h - 1. */
  lemma BitAndOddMask(s: nat, h: int)
    requires h >= 1
    ensures BitAnd(s, 2 * h - 1) == 2 * BitAnd(s / 2, h - 1) + s % 2
  {
    assert (2 * h - 1) / 2 == h - 1 && (2 * h - 1) % 2 == 1;
  }

  /** Regrouping s = 2 (h m + r) + s % 2 as a division by 2h. */
  lemma HalvedRemainder(s: nat, h: int, m: int, r: int)
    requires h > 0 && s / 2 == h * m + r && 0 <= r < h
    ensures s % (2 * h) == 2 * r + s % 2
  {
    var b := s % 2;
    assert s == 2 * (s / 2) + b;
    assert s == 2 * (h * m) + (2 * r + b);
    assert 2 * (h * m) == (2 * h) * m;
    ModUnique(s, 2 * h, m, 2 * r + b);
  }

  /** The Java ternary minimum < sequence ? minimum : sequence. */
  function Lesser(minimum: int, sequence: int): int
  {
    if minimum < sequence then minimum else sequence
  }

  /** The loop of getMinimumSequence as a fold from the left, starting at start. */
  function MinFrom(start: int, sequences: seq<int>): int
    decreases |sequences|
  {
    if sequences == [] then start
    else Lesser(MinFrom(start, sequences[..|sequences| - 1]), sequences[|sequences| - 1])
  }

  lemma {:induction false} MinFromIsLowerBound(start: int, sequences: seq<int>)
    ensures MinFrom(start, sequences) <= start
    ensures forall i :: 0 <= i < |sequences| ==> MinFrom(start, sequences) <= sequences[i]
    decreases |sequences|
  {
    if sequences != [] {
      MinFromIsLowerBound(start, sequences[..|sequences| - 1]);
    }
  }

  lemma {:induction false} MinFromIsAttained(start: int, sequences: seq<int>)
    ensures MinFrom(start, sequences) == start || MinFrom(start, sequences) in sequences
    decreases |sequences|
  {
    if sequences != [] {
      var init := sequences[..|sequences| - 1];
      MinFromIsAttained(start, init);
      assert forall v :: v in init ==> v in sequences;
    }
  }

  /** The fold does not depend on the order of the sequences. */
  lemma MinFromIgnoresOrder(start: int, s: seq<int>, t: seq<int>)
    requires multiset(s) == multiset(t)
    ensures MinFrom(start, s) == MinFrom(start, t)
  {
    var a, b := MinFrom(start, s), MinFrom(start, t);
    MinFromIsLowerBound(start, s);
    MinFromIsLowerBound(start, t);
    MinFromIsAttained(start, s);
    MinFromIsAttained(start, t);
    if b != start {
      assert b in multiset(s);
      var i :| 0 <= i < |s| && s[i] == b;
    }
    if a != start {
      assert a in multiset(t);
      var i :| 0 <= i < |t| && t[i] == a;
    }
  }

  /** Starting lower is taking the lesser of the start and the fold from a higher start. */
  lemma {:induction false} MinFromLowerStart(low: int, high: int, sequences: seq<int>)
    requires low <= high
    ensures MinFrom(low, sequences) == Lesser(low, MinFrom(high, sequences))
    decreases |sequences|
  {
    if sequences != [] {
      MinFromLowerStart(low, high, sequences[..|sequences| - 1]);
    }
  }

  /** For a non-empty array of long sequences the result is one of them and at most each of them. */
  lemma MinimumSequenceOfNonEmpty(sequences: seq<int>)
    requires |sequences| > 0
    requires forall i :: 0 <= i < |sequences| ==> sequences[i] <= LONG_MAX
    ensures MinFrom(LONG_MAX, sequences) in sequences
    ensures forall i :: 0 <= i < |sequences| ==> MinFrom(LONG_MAX, sequences) <= sequences[i]
  {
    MinFromIsLowerBound(LONG_MAX, sequences);
    MinFromIsAttained(LONG_MAX, sequences);
  }

  /**
   * Util.getMinimumSequence: the least sequence of the consumers, or
   * Long.MAX_VALUE when there are none.
   */
  method GetMinimumSequence<B>(eventConsumers: seq<BatchEventConsumer<B>>) returns (minimum: int)
    ensures minimum == MinFrom(LONG_MAX, SequencesOf(eventConsumers))
    ensures eventConsumers == [] ==> minimum == LONG_MAX
  {
    ghost var all := SequencesOf(eventConsumers);
    minimum := LONG_MAX;
    for i := 0 to |eventConsumers|
      invariant minimum == MinFrom(LONG_MAX, all[..i])
    {
      var sequence := eventConsumers[i].GetSequence();
      assert all[..i + 1][..i] == all[..i];
      minimum := if minimum < sequence then minimum else sequence;
    }
    assert all[..|eventConsumers|] == all;
  }
}
