/**
 * MicroPython's wrapping millisecond tick counter (`utime.ticks_ms`,
 * `ticks_add`, `ticks_diff`). On the 32-bit ports the counter runs modulo
 * 2^30; `ticks_add` wraps the sum into the period and `ticks_diff` returns
 * the signed distance in [-2^29, 2^29), which is only the true distance when
 * the two ticks are less than half a period apart.
 */
module Ticks {

  const PERIOD: int := 0x4000_0000
  const HALF: int := PERIOD / 2

  /** A value of `ticks_ms()`. */
  type Tick = t: int | 0 <= t < PERIOD

  /** `ticks_ms()` at `now` milliseconds after boot. */
  function TicksMs(now: nat): (t: Tick)
    ensures now < PERIOD ==> t == now
  {
    now % PERIOD
  }

  /** `ticks_add(t, delta)`: the sum, wrapped into the period. */
  function TicksAdd(t: Tick, delta: int): (r: Tick)
    ensures (r - (t + delta)) % PERIOD == 0
    ensures 0 <= t + delta < PERIOD ==> r == t + delta
  {
    (t + delta) % PERIOD
  }

  /** `ticks_diff(a, b)`: the signed distance from `b` to `a`, modulo the period. */
  function TicksDiff(a: Tick, b: Tick): (d: int)
    ensures -HALF <= d < HALF
    ensures (d - (a - b)) % PERIOD == 0
  {
    ((a - b + HALF) % PERIOD) - HALF
  }

  /** When two ticks are less than half a period apart, `ticks_diff` is their exact difference. */
  lemma DiffExact(a: Tick, b: Tick)
    requires -HALF <= a - b < HALF
    ensures TicksDiff(a, b) == a - b
  {
    assert 0 <= a - b + HALF < PERIOD;
  }

  /** `ticks_diff` undoes `ticks_add` for any step shorter than half a period. */
  lemma DiffOfAdd(t: Tick, delta: int)
    requires -HALF <= delta < HALF
    ensures TicksDiff(TicksAdd(t, delta), t) == delta
  {
    var r := TicksAdd(t, delta);
    var q := (t + delta) / PERIOD;
    assert t + delta == q * PERIOD + r;
    assert r - t + HALF == delta + HALF - q * PERIOD;
    assert 0 <= delta + HALF < PERIOD;
    ModShift(delta + HALF, -q);
  }

  /** Adding whole periods does not change a remainder. */
  lemma {:induction false} ModShift(x: int, k: int)
    requires 0 <= x < PERIOD
    ensures (x + k * PERIOD) % PERIOD == x
  {
  }

  /** Ticks in the lower half period compare like the numbers they are. */
  lemma DiffSmall(a: Tick, b: Tick)
    requires a < HALF && b < HALF
    ensures TicksDiff(a, b) == a - b
    ensures TicksDiff(a, b) < 0 <==> a < b
  {
    DiffExact(a, b);
  }

  /** A tick in the upper half period looks earlier than 0: `ticks_diff(t, 0) < 0`. */
  lemma UpperHalfLooksEarlier(t: Tick)
    requires t >= HALF
    ensures TicksDiff(t, 0) < 0
  {
    assert TicksDiff(t, 0) == t - PERIOD;
  }
}
