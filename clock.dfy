/**
 * The cycle counter of Emulation/Clock.cs: a running count of cycles, a frequency, and the
 * number of cycles the processor spends starting up.
 */
module Clocks {

  /** `ProgramCycles`: the cycles spent on program instructions, startup excluded. */
  function ProgramCycles(cycles: int, startupCycles: int): (p: int)
    ensures p + startupCycles == cycles
  {
    cycles - startupCycles
  }

  class Clock {
    /** Milliseconds per tick; 0 runs at full speed. */
    var frequency: int
    var startupCycles: int
    var cycles: int

    /** `Clock()`: no startup cycles, full speed. */
    constructor ()
      ensures startupCycles == 0 && frequency == 0 && cycles == 0
    {
      startupCycles, frequency, cycles := 0, 0, 0;
    }

    /** `Clock(frequency)`. */
    constructor WithFrequency(f: int)
      ensures startupCycles == 0 && frequency == f && cycles == 0
    {
      startupCycles, frequency, cycles := 0, f, 0;
    }

    /** `Clock(startupCycles, frequency)`. */
    constructor WithStartup(s: int, f: int)
      ensures startupCycles == s && frequency == f && cycles == 0
    {
      startupCycles, frequency, cycles := s, f, 0;
    }

    /** `ProgramCycles`, read from the object. */
    function Program(): (p: int)
      reads this
      ensures p == ProgramCycles(cycles, startupCycles)
    {
      cycles - startupCycles
    }

    /** `Tick(n)`: the count grows by exactly n; for n >= 0 it never goes down. */
    method Tick(n: int)
      modifies this
      ensures cycles == old(cycles) + n
      ensures n >= 0 ==> cycles >= old(cycles)
      ensures startupCycles == old(startupCycles) && frequency == old(frequency)
      ensures Program() == old(Program()) + n
    {
      cycles := cycles + n;
    }

    /** `Reset`: the count goes back to 0. */
    method Reset()
      modifies this
      ensures cycles == 0
      ensures startupCycles == old(startupCycles) && frequency == old(frequency)
      ensures Program() == -startupCycles
    {
      cycles := 0;
    }
  }
}
