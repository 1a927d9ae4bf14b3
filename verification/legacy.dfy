/**
 * The older revision of the machine, apps/chip8/chip8.c: `had_error`,
 * `load`, `tick` and the clock-driven `step`. Its `execute` is the one of
 * apps/chip8/vm.c except that a fault is recorded in `error_type` instead
 * of being returned, so the shared `Cpu` does the work and this revision
 * adds the error record and its own clock fields.
 *
 * `clock()` is the parameter `now`, `CLOCKS_PER_SEC` a constructor
 * parameter, `rand()` the byte `rnd`, and the ROM file the byte sequence
 * `program` (its length is the file length).
 */
module Chip8Legacy {
  import opened Chip8Types
  import opened Decoder
  import opened Machine

  /** CPU speed and timer rate of this revision, in Hz. */
  const TICKS_PER_SEC: nat := 500
  const COUNTS_PER_SEC: nat := 60

  /** `Chip8ErrorType`, in the order of its C declaration. */
  datatype ErrorType =
    | NoError
    | FileError
    | UnknownOpcodeError
    | StackOverflowError

  /** The VM record of this revision as a value: the shared core, the error
      record, the clock reading of the last timer tick and the CPU ticks
      run since then. */
  datatype LegacyState = LegacyState(core: Core, errorType: ErrorType, lastClock: int, ticks: u64)

  /** `had_error` */
  predicate HadError(s: LegacyState)
  {
    s.errorType != NoError
  }

  /** `CLOCKS_PER_TICK` and `CLOCKS_PER_COUNT` (C integer division). */
  function ClocksPerTick(clocksPerSec: nat): nat { clocksPerSec / TICKS_PER_SEC }
  function ClocksPerCount(clocksPerSec: nat): nat { clocksPerSec / COUNTS_PER_SEC }

  /** An integer converted to `uint64_t`: its residue modulo 2^64. */
  function Wrap64(x: int): (r: u64)
    ensures 0 <= x < 0x1_0000_0000_0000_0000 ==> r == x
    ensures -0x1_0000_0000_0000_0000 <= x < 0 ==> r == x + 0x1_0000_0000_0000_0000
  {
    x % 0x1_0000_0000_0000_0000
  }

  /** The program `load` copies: the bytes from PROG_START on replaced by it. */
  function Loaded(memory: seq<byte>, program: seq<byte>): (r: seq<byte>)
    requires |memory| == MEMORY_SIZE && PROG_START + |program| < MEMORY_SIZE
    ensures |r| == MEMORY_SIZE
    ensures forall j :: 0 <= j < |program| ==> r[PROG_START + j] == program[j]
    ensures forall a :: 0 <= a < PROG_START ==> r[a] == memory[a]
    ensures forall a :: PROG_START + |program| <= a < MEMORY_SIZE ==> r[a] == memory[a]
  {
    memory[..PROG_START] + program + memory[PROG_START + |program|..]
  }

  /** `load`: the reset of registers, stack, keys, screen and the memory
      below PROG_START, the clock anchored at `now`; then the program copied
      to PROG_START, or a file error when it would reach the end of memory
      (a file of 0xE00 bytes or more), in which case nothing is copied. */
  function LoadState(s: LegacyState, program: seq<byte>, now: int): (r: LegacyState)
    requires WellFormed(s.core)
    ensures WellFormed(r.core)
  {
    var c := ResetState(s.core, PROG_START);
    if |program| + PROG_START >= MEMORY_SIZE then LegacyState(c, ErrorType.FileError, now, 0)
    else LegacyState(c.(memory := Loaded(c.memory, program)), NoError, now, 0)
  }

  /** The error a fault status is recorded as; any other status keeps the old record. */
  function Record(e: ErrorType, status: Status): ErrorType
  {
    match status
    case UnknownOpcodeError => ErrorType.UnknownOpcodeError
    case StackOverflowError => ErrorType.StackOverflowError
    case _ => e
  }

  /** `tick`: fetch and execute one instruction, recording a fault; the
      flag says the model stopped where the C code would leave its arrays. */
  function TickState(s: LegacyState, rnd: byte): (r: (LegacyState, bool))
    requires WellFormed(s.core)
    ensures WellFormed(r.0.core)
  {
    match TickCore(s.core, rnd)
    case OutOfRange(c1) => (s.(core := c1), true)
    case Ran(c1, status) => (s.(core := c1, errorType := Record(s.errorType, status)), false)
  }

  /** The CPU test of `step`. `CLOCKS_PER_TICK * ticks` has type `uint64_t`,
      so the signed clock difference is compared as an unsigned 64-bit value. */
  predicate TickDue(s: LegacyState, now: int, clocksPerSec: nat)
  {
    Wrap64(now - s.lastClock) > Wrap64(ClocksPerTick(clocksPerSec) * s.ticks)
  }

  /** The timer part of `step`: once more than a timer period has passed
      since the anchor, restart the tick count, re-anchor the clock at `now`
      and count both timers down once. `clock_t` is taken as a signed
      integer here, so a reading behind the anchor keeps it. */
  function TimerStep(s: LegacyState, now: int, clocksPerSec: nat): (r: LegacyState)
  {
    if now - s.lastClock > ClocksPerCount(clocksPerSec) then
      s.(core := CountDown(s.core), lastClock := now, ticks := 0)
    else s
  }

  /** `step`: a pending key-wait is resolved and nothing else happens;
      otherwise at most one instruction runs, when it is due, and its tick
      is counted whether or not it faulted; then the timer part. */
  function StepState(s: LegacyState, now: int, rnd: byte, clocksPerSec: nat): (r: (LegacyState, bool))
    requires WellFormed(s.core)
    ensures WellFormed(r.0.core)
  {
    if s.core.waiting then (s.(core := ResolveWait(s.core)), false)
    else if TickDue(s, now, clocksPerSec) then
      var (s1, stuck) := TickState(s, rnd);
      if stuck then (s1, true)
      else (TimerStep(s1.(ticks := Wrap64(s.ticks + 1)), now, clocksPerSec), false)
    else (TimerStep(s, now, clocksPerSec), false)
  }

  class LegacyVM {
    const cpu: Cpu
    /** `CLOCKS_PER_SEC` of the C library. */
    const clocksPerSec: nat
    var errorType: ErrorType
    /** `clock_t last_clock` */
    var lastClock: int
    var ticks: u64

    ghost predicate Valid()
      reads this, cpu
    {
      cpu.Valid()
    }

    /** The record as a value. */
    ghost function State(): (s: LegacyState)
      reads this, cpu, cpu.memory, cpu.v, cpu.stack, cpu.isKeyPressed, cpu.screen
      requires Valid()
      ensures WellFormed(s.core)
    {
      LegacyState(cpu.Abs(), errorType, lastClock, ticks)
    }

    constructor (clocksPerSec: nat)
      ensures Valid() && this.clocksPerSec == clocksPerSec
      ensures fresh(cpu) && fresh(cpu.memory) && fresh(cpu.v) && fresh(cpu.stack)
      ensures fresh(cpu.isKeyPressed) && fresh(cpu.screen)
    {
      cpu := new Cpu();
      this.clocksPerSec := clocksPerSec;
      errorType := NoError;
      lastClock := 0;
      ticks := 0;
    }

    /** `had_error` */
    method HadErrorNow() returns (b: bool)
      requires Valid()
      ensures b == HadError(State())
    {
      b := errorType != NoError;
    }

    /** `load` */
    method Load(program: seq<byte>, now: int)
      requires Valid()
      modifies this, cpu, cpu.memory, cpu.v, cpu.stack, cpu.isKeyPressed, cpu.screen
      ensures Valid()
      ensures State() == LoadState(old(State()), program, now)
    {
      errorType := NoError;
      cpu.Reset(PROG_START);
      lastClock := now;
      ticks := 0;
      if |program| + PROG_START >= MEMORY_SIZE {
        errorType := ErrorType.FileError;
      } else {
        CopyProgram(program);
      }
    }

    /** The copy loop of `load`. */
    method CopyProgram(program: seq<byte>)
      requires Valid() && PROG_START + |program| < MEMORY_SIZE
      modifies cpu.memory
      ensures cpu.memory[..] == Loaded(old(cpu.memory[..]), program)
    {
      for j := 0 to |program|
        invariant forall a :: 0 <= a < PROG_START ==> cpu.memory[a] == old(cpu.memory[a])
        invariant forall p :: 0 <= p < j ==> cpu.memory[PROG_START + p] == program[p]
        invariant forall a :: PROG_START + j <= a < MEMORY_SIZE ==> cpu.memory[a] == old(cpu.memory[a])
      {
        cpu.memory[PROG_START + j] := program[j];
      }
      assert cpu.memory[..] == Loaded(old(cpu.memory[..]), program);
    }

    /** `tick` */
    method Tick(rnd: byte) returns (outOfBounds: bool)
      requires Valid()
      modifies this, cpu, cpu.memory, cpu.v, cpu.stack, cpu.screen
      ensures Valid()
      ensures (State(), outOfBounds) == TickState(old(State()), rnd)
    {
      var status;
      status, outOfBounds := cpu.Tick(rnd);
      if !outOfBounds {
        if status == Status.UnknownOpcodeError {
          errorType := ErrorType.UnknownOpcodeError;
        } else if status == Status.StackOverflowError {
          errorType := ErrorType.StackOverflowError;
        }
      }
    }

    /** `step` */
    method Step(now: int, rnd: byte) returns (outOfBounds: bool)
      requires Valid()
      modifies this, cpu, cpu.memory, cpu.v, cpu.stack, cpu.screen
      ensures Valid()
      ensures (State(), outOfBounds) == StepState(old(State()), now, rnd, clocksPerSec)
    {
      if cpu.isWaitingForKey {
        cpu.ResolveKeyWait();
        return false;
      }
      var delta := now - lastClock;
      if delta % 0x1_0000_0000_0000_0000 > (ClocksPerTick(clocksPerSec) * ticks) % 0x1_0000_0000_0000_0000 {
        outOfBounds := Tick(rnd);
        if outOfBounds {
          return;
        }
        ticks := (ticks + 1) % 0x1_0000_0000_0000_0000;
      }
      if delta > ClocksPerCount(clocksPerSec) {
        ticks := 0;
        lastClock := now;
        cpu.CountDownTimers();
      }
      outOfBounds := false;
    }
  }
}
