/** The sequence stamp every ring-buffer slot carries (AbstractEntry). */
module Entries {

  class Entry {
    /** The sequence this slot was last claimed for; a Java long field starts at 0. */
    var sequence: int

    constructor ()
      ensures sequence == 0
    {
      sequence := 0;
    }

    method GetSequence() returns (s: int)
      ensures s == sequence
    {
      s := sequence;
    }

    /** Overwrites the stamp, whatever it held before; nothing else changes. */
    method SetSequence(sequence: int)
      modifies this`sequence
      ensures this.sequence == sequence
    {
      this.sequence := sequence;
    }
  }

  /** A later stamp overwrites an earlier one. */
  method LaterSetOverwrites(earlier: int, later: int) returns (got: int)
    ensures got == later
  {
    var entry := new Entry();
    entry.SetSequence(earlier);
    entry.SetSequence(later);
    got := entry.GetSequence();
  }

  /** Stamping the same value twice leaves the entry as stamping it once does. */
  method SetTwiceIsSetOnce(value: int) returns (once: int, twice: int)
    ensures once == value && twice == once
  {
    var entry := new Entry();
    entry.SetSequence(value);
    once := entry.GetSequence();
    entry.SetSequence(value);
    twice := entry.GetSequence();
  }
}
