// `Clock` (clock.rs): a level that flips on every tick and a tick count.
// The broadcast of each tick to subscribers is not part of this model.
module Clocks {
  import opened Signal
  import opened Errors

  /** The largest `u64`; the tick counter must stay at or below it. */
  const U64_MAX: nat := 0xFFFF_FFFF_FFFF_FFFF

  /** The level after n ticks from reset: HIGH exactly after an odd count. */
  function LevelAfter(n: nat): (x: Voltage)
    ensures x == HIGH <==> n % 2 == 1
    ensures x == LOW <==> n % 2 == 0
  {
    if n % 2 == 1 then HIGH else LOW
  }

  /** A tick moves the level of n ticks to that of n + 1. */
  lemma {:induction false} TickFlips(n: nat)
    ensures LevelAfter(n + 1) == Flip(LevelAfter(n))
  {
  }

  class Clock {
    var level: Voltage
    var ticks: nat

    /** The level always reflects the parity of the tick count. */
    predicate Valid()
      reads this
    {
      ticks <= U64_MAX && level == LevelAfter(ticks)
    }

    /** `Clock::new`: LOW, no ticks. */
    constructor()
      ensures Valid() && level == LOW && ticks == 0
    {
      level := LOW;
      ticks := 0;
    }

    /** `tick`: one more tick and the level flips. The engine's `u64`
      * counter would overflow past `U64_MAX`. */
    method Tick() returns (r: Result<()>)
      requires Valid() && ticks < U64_MAX
      modifies this
      ensures Valid() && r == Ok(())
      ensures ticks == old(ticks) + 1 && level == Flip(old(level))
    {
      ticks := ticks + 1;
      level := if level == LOW then HIGH else LOW;
      r := Ok(());
    }

    /** `reset`: back to LOW and no ticks. */
    method Reset()
      modifies this
      ensures Valid() && level == LOW && ticks == 0
    {
      level := LOW;
      ticks := 0;
    }

    /** `level()`. */
    function Level(): (x: Voltage)
      requires Valid()
      reads this
      ensures x == HIGH <==> ticks % 2 == 1
    {
      level
    }

    /** `ticks()`. */
    function Ticks(): (n: nat)
      requires Valid()
      reads this
      ensures n <= U64_MAX
    {
      ticks
    }
  }
}
