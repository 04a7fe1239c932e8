/** The 33-bit presentation time stamps of the audio, kept in two words. */
module Timestamps {

  const WORD: nat := 0x1_0000_0000

  /** Ticks that one callback of 256 samples lasts, at 90000 ticks and 48000 samples a second. */
  const AMIXER_CB_INCR_CLOCKS: nat := 90000 * 256 / 48000

  type uint32 = x: int | 0 <= x < WORD

  datatype Timestamp = Timestamp(upper: uint32, lower: uint32) {
    /** A time of 33 bits. */
    predicate Valid() { upper < 2 }

    function Value(): nat { upper * WORD + lower }
  }

  /** Adds to the lower word as the machine does, and carries into one bit of the upper if that wrapped. */
  function Increment(t: Timestamp): Timestamp {
    var lower: uint32 := (t.lower as int + AMIXER_CB_INCR_CLOCKS) % WORD;
    Timestamp(if lower < t.lower then (t.upper as int + 1) % 2 else t.upper, lower)
  }

  function IncrementTimes(t: Timestamp, n: nat): Timestamp
    decreases n
  {
    if n == 0 then t else IncrementTimes(Increment(t), n - 1)
  }

  lemma IncrementAdds(t: Timestamp)
    requires t.Valid()
    ensures Increment(t).Valid()
    ensures Increment(t).Value() == (t.Value() + 480) % (2 * WORD)
  {
    assert AMIXER_CB_INCR_CLOCKS == 480;
  }

  lemma AddModulo(a: nat, b: nat)
    ensures (a % 0x2_0000_0000 + b) % 0x2_0000_0000 == (a + b) % 0x2_0000_0000
  {
    var q, r := a / 0x2_0000_0000, a % 0x2_0000_0000;
    assert a + b == q * 0x2_0000_0000 + (r + b);
  }

  /** Any number of callbacks adds 480 ticks each, modulo 2 to the 33, from any time stamp. */
  lemma {:induction false} IncrementsAdd(t: Timestamp, n: nat)
    requires t.Valid()
    ensures IncrementTimes(t, n).Valid()
    ensures IncrementTimes(t, n).Value() == (t.Value() + 480 * n) % 0x2_0000_0000
    decreases n
  {
    hide Increment;
    if n > 0 {
      IncrementAdds(t);
      IncrementsAdd(Increment(t), n - 1);
      AddModulo(t.Value() + 480, 480 * (n - 1));
    }
  }
}
