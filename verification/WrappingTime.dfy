/** Deadlines on a wrapping 32-bit millisecond counter, as both the network
    registry and the audio annunciator of the brainstem compare them
    (crates/pete-brainstem/src/network_registry.rs, audio.rs). */
module WrappingTime {
  import opened Machine

  /** `u32::MAX / 2`. */
  const HALF := 0x7fff_ffff

  /** `now.wrapping_sub(deadline) < u32::MAX / 2`. */
  predicate TimeReached(now: int, deadline: int) { (now - deadline) % TWO_TO_THE_32 < HALF }

  function After(now: int, ms: int): u32 { (now + ms) % TWO_TO_THE_32 }

  /** The milliseconds until a deadline, as a wrapping difference. */
  function Remaining(now: int, deadline: int): u32 { (deadline - now) % TWO_TO_THE_32 }

  lemma Wrap(a: int, q: int)
    ensures (a + q * TWO_TO_THE_32) % TWO_TO_THE_32 == a % TWO_TO_THE_32
  {
    var d := a / TWO_TO_THE_32;
    assert a + q * TWO_TO_THE_32 == (d + q) * TWO_TO_THE_32 + a % TWO_TO_THE_32;
  }

  /** A deadline `ms` ahead has not been reached at the times in [now, now + ms),
      has been reached for the following 2^31 - 1 milliseconds, and then, if the
      counter has not come round first, seems not to be reached again. */
  lemma DeadlineWindow(now: u32, ms: int, d: int)
    requires 0 <= ms <= 0x8000_0001 && 0 <= d < TWO_TO_THE_32
    ensures !TimeReached(After(now, d), After(now, ms)) <==> d < ms || d >= ms + 0x7fff_ffff
  {
    var a, b := (now + d) / TWO_TO_THE_32, (now + ms) / TWO_TO_THE_32;
    assert After(now, d) - After(now, ms) == (d - ms) + (b - a) * TWO_TO_THE_32;
    Wrap(d - ms, b - a);
    if d < ms {
      Wrap(d - ms, 1);
      assert (d - ms) % TWO_TO_THE_32 == d - ms + TWO_TO_THE_32;
    } else {
      assert (d - ms) % TWO_TO_THE_32 == d - ms;
    }
  }
}
