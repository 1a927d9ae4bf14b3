/**
 * The current revision of the machine, apps/chip8/vm.c: `init`,
 * `reset_time` and the time-driven scheduler `update`. A millisecond
 * timestamp is measured against the epoch `init_timestamp`; every 2 ms of
 * it is one CPU tick and every 16 ms one timer tick, and `update` catches
 * up on the ticks that are due, all CPU ticks first and then all timer ticks.
 *
 * `rand()` is an oracle `rng` indexed by the CPU tick count.
 */
module Chip8Vm {
  import opened Chip8Types
  import opened Decoder
  import opened Machine

  /** The VM record as a value: the shared core plus the clock fields. */
  datatype VmState = VmState(core: Core, initTimestamp: u32, cpuTicks: nat, timerTicks: nat)

  /** The tick counters stay within what a 32-bit millisecond delta can
      demand, so the 64-bit counters never wrap. */
  predicate Good(s: VmState)
  {
    WellFormed(s.core) && s.cpuTicks <= 0x8000_0000 && s.timerTicks <= 0x1000_0000
  }

  /** `init`, after the NULL check. */
  function InitState(s: VmState, timestamp: u32): (r: VmState)
    requires WellFormed(s.core)
    ensures Good(r)
  {
    VmState(ResetState(s.core, MEMORY_SIZE), timestamp, 0, 0)
  }

  /** `reset_time` */
  function ResetTimeState(s: VmState, timestamp: u32): (r: VmState)
  {
    s.(initTimestamp := timestamp, cpuTicks := 0, timerTicks := 0)
  }

  /** How the CPU loop of `update` ends. */
  datatype CpuOutcome =
    | Finished
    | Faulted(status: Status)
      /** An instruction would have left the C arrays. */
    | Stuck

  /** The smallest tick count whose time reaches delta, or ticks if that is more:
      max(ticks, ceil(delta / period)). */
  function CatchUp(ticks: nat, delta: nat, period: nat): nat
    requires period > 0
  {
    if delta <= ticks * period then ticks else (delta + period - 1) / period
  }

  /** The CPU loop of `update`: fetch and execute while `delta > cpu_ticks * 2`. */
  function RunCpu(c: Core, ticks: nat, delta: nat, rng: nat -> byte): (r: (Core, nat, CpuOutcome))
    requires WellFormed(c)
    ensures WellFormed(r.0) && r.1 >= ticks
    decreases delta - ticks * MS_PER_CPU_TICK
  {
    if delta <= ticks * MS_PER_CPU_TICK then (c, ticks, Finished)
    else match TickCore(c, rng(ticks))
      case OutOfRange(c1) => (c1, ticks, Stuck)
      case Ran(c1, status) =>
        if status != OK then (c1, ticks, Faulted(status))
        else RunCpu(c1, ticks + 1, delta, rng)
  }

  /** One turn of the CPU loop, as the loop body sees it: `c1`, `ticks1`,
      `status` and `stuck` are what the turn left. */
  lemma {:induction false} RunCpuStep(c: Core, ticks: nat, delta: nat, rng: nat -> byte,
                                      c1: Core, ticks1: nat, status: Status, stuck: bool)
    requires WellFormed(c) && WellFormed(c1) && delta > ticks * MS_PER_CPU_TICK
    requires TickCore(c, rng(ticks)) == if stuck then OutOfRange(c1) else Ran(c1, status)
    requires stuck ==> status == OK
    requires ticks1 == if !stuck && status == OK then ticks + 1 else ticks
    ensures stuck ==> RunCpu(c, ticks, delta, rng) == (c1, ticks1, Stuck)
    ensures !stuck && IsError(status) ==> RunCpu(c, ticks, delta, rng) == (c1, ticks1, Faulted(status))
    ensures !stuck && !IsError(status) ==> RunCpu(c, ticks, delta, rng) == RunCpu(c1, ticks1, delta, rng)
  {
  }

  /** The CPU loop ends once no tick is due. */
  lemma {:induction false} RunCpuDone(c: Core, ticks: nat, delta: nat, rng: nat -> byte)
    requires WellFormed(c) && delta <= ticks * MS_PER_CPU_TICK
    ensures RunCpu(c, ticks, delta, rng) == (c, ticks, Finished)
  {
  }

  /** A CPU tick that is due within a 32-bit delta leaves room for one more. */
  lemma DueTickBound(ticks: nat, delta: u32)
    requires delta > ticks * MS_PER_CPU_TICK
    ensures ticks < 0x8000_0000
  {
  }

  /** The timer loop of `update`: count down while `delta > timer_ticks * 16`. */
  function RunTimers(c: Core, ticks: nat, delta: nat): (r: (Core, nat))
    requires WellFormed(c)
    ensures WellFormed(r.0) && r.1 >= ticks
    decreases delta - ticks * MS_PER_TIMER_TICK
  {
    if delta <= ticks * MS_PER_TIMER_TICK then (c, ticks)
    else RunTimers(CountDown(c), ticks + 1, delta)
  }

  /** `update`, after the NULL check: the new state, the returned status,
      and whether the model stopped where the C code would leave its arrays. */
  function UpdateState(s: VmState, timestamp: u32, rng: nat -> byte): (r: (VmState, Status, bool))
    requires WellFormed(s.core)
    ensures WellFormed(r.0.core)
  {
    var s1 := if timestamp < s.initTimestamp then ResetTimeState(s, timestamp) else s;
    var delta := timestamp - s1.initTimestamp;
    if s1.core.waiting then (s1.(core := ResolveWait(s1.core)), OK, false)
    else CatchUpState(s1, delta, rng)
  }

  /** `update` after its clock check: the key-wait resolution or the two loops. */
  lemma UpdateSplits(s0: VmState, s1: VmState, timestamp: u32, rng: nat -> byte)
    requires WellFormed(s0.core)
    requires s1 == if timestamp < s0.initTimestamp then ResetTimeState(s0, timestamp) else s0
    ensures timestamp >= s1.initTimestamp
    ensures s1.core.waiting ==> UpdateState(s0, timestamp, rng) == (s1.(core := ResolveWait(s1.core)), OK, false)
    ensures !s1.core.waiting ==> UpdateState(s0, timestamp, rng) == CatchUpState(s1, timestamp - s1.initTimestamp, rng)
  {
  }

  /** The two loops of `update`: the CPU ticks due by `delta`, then, unless
      an instruction faulted, the timer ticks due by it. */
  function CatchUpState(s: VmState, delta: nat, rng: nat -> byte): (r: (VmState, Status, bool))
    requires WellFormed(s.core)
    ensures WellFormed(r.0.core)
  {
    var (c2, t2, outcome) := RunCpu(s.core, s.cpuTicks, delta, rng);
    match outcome
    case Faulted(status) => (s.(core := c2, cpuTicks := t2), status, false)
    case Stuck => (s.(core := c2, cpuTicks := t2), OK, true)
    case Finished =>
      var (c3, t3) := RunTimers(c2, s.timerTicks, delta);
      (VmState(c3, s.initTimestamp, t2, t3), OK, false)
  }

  class VM {
    const cpu: Cpu
    var initTimestamp: u32
    var cpuTicks: u64
    var timerTicks: u64

    ghost predicate Valid()
      reads this, cpu
    {
      cpu.Valid() && cpuTicks <= 0x8000_0000 && timerTicks <= 0x1000_0000
    }

    /** The record as a value. */
    ghost function State(): (s: VmState)
      reads this, cpu, cpu.memory, cpu.v, cpu.stack, cpu.isKeyPressed, cpu.screen
      requires Valid()
      ensures Good(s)
    {
      VmState(cpu.Abs(), initTimestamp, cpuTicks, timerTicks)
    }

    constructor ()
      ensures Valid() && fresh(cpu) && fresh(cpu.memory) && fresh(cpu.v) && fresh(cpu.stack)
      ensures fresh(cpu.isKeyPressed) && fresh(cpu.screen)
    {
      cpu := new Cpu();
      initTimestamp := 0;
      cpuTicks := 0;
      timerTicks := 0;
    }

    /** `init` */
    method Init(timestamp: u32) returns (status: Status)
      requires Valid()
      modifies this, cpu, cpu.memory, cpu.v, cpu.stack, cpu.isKeyPressed, cpu.screen
      ensures Valid()
      ensures status == OK && State() == InitState(old(State()), timestamp)
    {
      cpu.Reset(MEMORY_SIZE);
      initTimestamp := timestamp;
      cpuTicks := 0;
      timerTicks := 0;
      status := OK;
    }

    /** `reset_time` */
    method ResetTime(timestamp: u32)
      requires Valid()
      modifies this
      ensures Valid()
      ensures State() == ResetTimeState(old(State()), timestamp)
    {
      initTimestamp := timestamp;
      cpuTicks := 0;
      timerTicks := 0;
    }

    /** `update` */
    method Update(timestamp: u32, rng: nat -> byte) returns (status: Status, outOfBounds: bool)
      requires Valid()
      modifies this, cpu, cpu.memory, cpu.v, cpu.stack, cpu.screen
      ensures Valid()
      ensures (State(), status, outOfBounds) == UpdateState(old(State()), timestamp, rng)
    {
      ghost var s0 := State();
      if timestamp < initTimestamp {
        ResetTime(timestamp);
      }
      UpdateSplits(s0, State(), timestamp, rng);
      var delta: u32 := timestamp - initTimestamp;
      if cpu.isWaitingForKey {
        cpu.ResolveKeyWait();
        return OK, false;
      }
      status, outOfBounds := CatchUpTicks(delta, rng);
    }

    /** The two loops of `update`. */
    method CatchUpTicks(delta: u32, rng: nat -> byte) returns (status: Status, outOfBounds: bool)
      requires Valid()
      modifies this, cpu, cpu.memory, cpu.v, cpu.stack, cpu.screen
      ensures Valid()
      ensures (State(), status, outOfBounds) == CatchUpState(old(State()), delta, rng)
    {
      status, outOfBounds := RunCpuLoop(delta, rng);
      if outOfBounds || IsError(status) {
        return;
      }
      RunTimerLoop(delta);
    }

    /** The CPU loop of `update`: fetch and execute while `delta > cpu_ticks * 2`. */
    method RunCpuLoop(delta: u32, rng: nat -> byte) returns (status: Status, outOfBounds: bool)
      requires Valid()
      modifies this, cpu, cpu.memory, cpu.v, cpu.stack, cpu.screen
      ensures Valid() && initTimestamp == old(initTimestamp) && timerTicks == old(timerTicks)
      ensures outOfBounds ==> status == OK
      ensures RunCpu(old(cpu.Abs()), old(cpuTicks), delta, rng)
        == (cpu.Abs(), cpuTicks as nat, if outOfBounds then Stuck else if status != OK then Faulted(status) else Finished)
    {
      ghost var run := RunCpu(cpu.Abs(), cpuTicks, delta, rng);
      while delta > cpuTicks * MS_PER_CPU_TICK
        invariant Valid() && initTimestamp == old(initTimestamp) && timerTicks == old(timerTicks)
        invariant RunCpu(cpu.Abs(), cpuTicks, delta, rng) == run
        decreases delta - cpuTicks * MS_PER_CPU_TICK
      {
        ghost var ticks := cpuTicks;
        var st, stuck := CpuTurn(delta, rng);
        if stuck {
          return OK, true;
        }
        if IsError(st) {
          return st, false;
        }
        assert cpuTicks * MS_PER_CPU_TICK == ticks * MS_PER_CPU_TICK + 2;
      }
      RunCpuDone(cpu.Abs(), cpuTicks, delta, rng);
      return OK, false;
    }

    /** One turn of the CPU loop: fetch, execute and count the tick unless
        the instruction faulted. */
    method CpuTurn(delta: u32, rng: nat -> byte) returns (status: Status, outOfBounds: bool)
      requires Valid() && delta > cpuTicks * MS_PER_CPU_TICK
      modifies this, cpu, cpu.memory, cpu.v, cpu.stack, cpu.screen
      ensures Valid() && initTimestamp == old(initTimestamp) && timerTicks == old(timerTicks)
      ensures outOfBounds ==> status == OK
      ensures outOfBounds ==> RunCpu(old(cpu.Abs()), old(cpuTicks), delta, rng) == (cpu.Abs(), cpuTicks as nat, Stuck)
      ensures !outOfBounds && IsError(status) ==>
        RunCpu(old(cpu.Abs()), old(cpuTicks), delta, rng) == (cpu.Abs(), cpuTicks as nat, Faulted(status))
      ensures !outOfBounds && !IsError(status) ==>
        cpuTicks == old(cpuTicks) + 1 && RunCpu(old(cpu.Abs()), old(cpuTicks), delta, rng) == RunCpu(cpu.Abs(), cpuTicks, delta, rng)
    {
      ghost var c0, t0 := cpu.Abs(), cpuTicks as nat;
      DueTickBound(cpuTicks, delta);
      status, outOfBounds := cpu.Tick(rng(cpuTicks));
      if !outOfBounds && status == OK {
        cpuTicks := cpuTicks + 1;
      }
      RunCpuStep(c0, t0, delta, rng, cpu.Abs(), cpuTicks as nat, status, outOfBounds);
    }

    method RunTimerLoop(delta: u32)
      requires Valid()
      modifies this, cpu
      ensures Valid() && initTimestamp == old(initTimestamp) && cpuTicks == old(cpuTicks)
      ensures (cpu.Abs(), timerTicks as nat) == RunTimers(old(cpu.Abs()), old(timerTicks), delta)
    {
      ghost var timers := RunTimers(cpu.Abs(), timerTicks, delta);
      while delta > timerTicks * MS_PER_TIMER_TICK
        invariant Valid() && initTimestamp == old(initTimestamp) && cpuTicks == old(cpuTicks)
        invariant RunTimers(cpu.Abs(), timerTicks, delta) == timers
        decreases delta - timerTicks * MS_PER_TIMER_TICK
      {
        cpu.CountDownTimers();
        timerTicks := timerTicks + 1;
      }
    }
  }
}
