/** Millisecond ticks as the scheduler stores them: unsigned 32-bit, read from a
    clock that wraps, and added with 32-bit arithmetic before being widened. */
module Ticks {

  const TICK_MODULUS: int := 0x1_0000_0000

  /** A DWORD / uint32_t value. */
  type Tick = t: int | 0 <= t < TICK_MODULUS

  /** The due tick of a task armed at cached tick `now` with delay `after`. It is
      not earlier than `now` exactly when the 32-bit sum does not wrap. */
  function DueTick(now: Tick, after: Tick): (due: Tick)
    ensures now <= due <==> now + after < TICK_MODULUS
    ensures now <= due ==> due - now == after
    ensures due < now ==> now - due == TICK_MODULUS - after
  {
    (now + after) % TICK_MODULUS
  }
}
