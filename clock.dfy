/** The fixed-step clock that host.mjs (`update`) and public/src/client.mjs (`processInput`)
    both run: whole 16 ms ticks are taken off the time elapsed since the clock's reading,
    and the reading advances by exactly those ticks. */
module Clock {
  import opened Js

  /** The length of one simulation tick, in milliseconds. */
  const TICK: real := 16.0

  /** The clock's new reading and the number of whole ticks it advanced by (negative when
      `now` lies before the reading). */
  datatype Quantum = Quantum(time: real, ticks: int)

  /** `ticks = Math.floor((now - time) / TICK); time += ticks * TICK`. The new reading is
      never ahead of `now` and trails it by less than one tick, and it moves by exactly
      the whole ticks counted, forward exactly when `now` is not before the old reading. */
  function Quantise(time: real, now: real): (r: Quantum)
    ensures r.time <= now < r.time + TICK
    ensures r.time == time + (r.ticks as real) * TICK
    ensures r.ticks >= 0 <==> now >= time
  {
    var ticks := Floor((now - time) / TICK);
    WholeTicks(now - time, ticks);
    Quantum(time + (ticks as real) * TICK, ticks)
  }

  lemma WholeTicks(elapsed: real, ticks: int)
    requires ticks as real <= elapsed / TICK < ticks as real + 1.0
    ensures (ticks as real) * TICK <= elapsed < (ticks as real) * TICK + TICK
  {
    assert (elapsed / TICK) * TICK == elapsed;
  }

  /** A reading that is already within one tick of `now` stays where it is. */
  lemma QuantiseSettled(time: real, now: real)
    requires time <= now < time + TICK
    ensures Quantise(time, now) == Quantum(time, 0)
  {
    var r := Quantise(time, now);
    if r.ticks != 0 {
      assert false;
    }
  }
}
