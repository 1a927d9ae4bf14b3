/**
 * What `init` and `update` of apps/chip8/vm.c promise about time, proved
 * about their value semantics in module Chip8Vm.
 */
module VmProperties {
  import opened Chip8Types
  import opened Decoder
  import opened Machine
  import opened Chip8Vm
  import MachineProperties

  /** A timer after k periods of counting down: max(0, t - k). */
  function Drained(t: byte, k: nat): byte
  {
    if t >= k then t - k else 0
  }

  /** `init`: the reset fields, the font and zeroed memory up to the top,
      a blank screen, the epoch at the timestamp and both counters at 0. */
  lemma {:induction false} InitFacts(s: VmState, timestamp: u32)
    requires WellFormed(s.core)
    ensures var r := InitState(s, timestamp);
      && r.initTimestamp == timestamp && r.cpuTicks == 0 && r.timerTicks == 0
      && r.core.pc == PROG_START && r.core.i == 0 && r.core.sp == 0
      && r.core.delayTimer == 0 && r.core.soundTimer == 0 && !r.core.waiting
      && (forall k :: 0 <= k < NUM_REGISTERS ==> r.core.v[k] == 0)
      && (forall k :: 0 <= k < STACK_SIZE ==> r.core.stack[k] == 0)
      && (forall k :: 0 <= k < NUM_KEYS ==> !r.core.keys[k])
      && (forall k :: 0 <= k < SCREEN_CELLS ==> !r.core.screen[k])
      && (forall k :: 0 <= k < FONT_SIZE ==> r.core.memory[k] == HEX_DIGITS[k])
      && (forall k :: FONT_SIZE <= k < MEMORY_SIZE ==> r.core.memory[k] == 0)
  {
    MachineProperties.ResetLayout(s.core, MEMORY_SIZE);
  }

  /** While a tick is due, counting it does not move the catch-up point,
      which lies beyond the current count. */
  lemma CatchUpNext(ticks: nat, delta: nat, period: nat)
    requires period == MS_PER_CPU_TICK || period == MS_PER_TIMER_TICK
    requires delta > ticks * period
    ensures ticks < CatchUp(ticks, delta, period) == CatchUp(ticks + 1, delta, period)
  {
    if period == MS_PER_CPU_TICK {
      CatchUpNextCpu(ticks, delta);
    } else {
      CatchUpNextTimer(ticks, delta);
    }
  }

  lemma CatchUpNextCpu(ticks: nat, delta: nat)
    requires delta > ticks * 2
    ensures ticks < CatchUp(ticks, delta, 2) == CatchUp(ticks + 1, delta, 2)
  {
  }

  lemma CatchUpNextTimer(ticks: nat, delta: nat)
    requires delta > ticks * 16
    ensures ticks < CatchUp(ticks, delta, 16) == CatchUp(ticks + 1, delta, 16)
  {
  }

  /** The CPU loop counts one tick per instruction that completed; it never
      passes the catch-up point max(ticks, ceil(delta / 2)), reaches it
      exactly when it finishes, and stops short of it on a fault. */
  lemma {:induction false} RunCpuTicks(c: Core, ticks: nat, delta: nat, rng: nat -> byte)
    requires WellFormed(c)
    ensures var r := RunCpu(c, ticks, delta, rng);
      && ticks <= r.1 <= CatchUp(ticks, delta, MS_PER_CPU_TICK)
      && (r.2 == Finished <==> r.1 == CatchUp(ticks, delta, MS_PER_CPU_TICK))
      && (r.2 == Finished <==> delta <= r.1 * MS_PER_CPU_TICK)
    decreases delta - ticks * MS_PER_CPU_TICK
  {
    if delta > ticks * MS_PER_CPU_TICK {
      match TickCore(c, rng(ticks))
      case OutOfRange(_) =>
      case Ran(c1, status) =>
        CatchUpNext(ticks, delta, MS_PER_CPU_TICK);
        if status == OK {
          RunCpuTicks(c1, ticks + 1, delta, rng);
        }
    }
  }

  /** The timer loop ends at max(ticks, ceil(delta / 16)) and lowers each
      timer once per period, never below zero; nothing else changes. */
  lemma {:induction false} RunTimersEffect(c: Core, ticks: nat, delta: nat)
    requires WellFormed(c)
    ensures var r := RunTimers(c, ticks, delta);
      && r.1 == CatchUp(ticks, delta, MS_PER_TIMER_TICK)
      && r.0 == c.(delayTimer := Drained(c.delayTimer, r.1 - ticks),
                   soundTimer := Drained(c.soundTimer, r.1 - ticks))
    decreases delta - ticks * MS_PER_TIMER_TICK
  {
    if delta > ticks * MS_PER_TIMER_TICK {
      CatchUpNext(ticks, delta, MS_PER_TIMER_TICK);
      RunTimersEffect(CountDown(c), ticks + 1, delta);
    }
  }

  /** Without a pending key-wait and with the clock at or after the epoch,
      `update` is the two loops run for the time since the epoch. */
  lemma UpdateRunsLoops(s: VmState, timestamp: u32, rng: nat -> byte)
    requires WellFormed(s.core) && !s.core.waiting && timestamp >= s.initTimestamp
    ensures UpdateState(s, timestamp, rng) == CatchUpState(s, timestamp - s.initTimestamp, rng)
  {
    assert !(timestamp < s.initTimestamp);
  }

  /** The two loops, when nothing faults: both counters reach their
      catch-up points and the timers count down once per timer tick run. */
  lemma {:induction false} LoopsCatchUp(s: VmState, delta: nat, rng: nat -> byte)
    requires WellFormed(s.core)
    ensures var r := CatchUpState(s, delta, rng);
      var after := RunCpu(s.core, s.cpuTicks, delta, rng).0;
      var k := r.0.timerTicks - s.timerTicks;
      r.1 == OK && !r.2 ==>
        && r.0.initTimestamp == s.initTimestamp
        && r.0.cpuTicks == CatchUp(s.cpuTicks, delta, MS_PER_CPU_TICK)
        && r.0.timerTicks == CatchUp(s.timerTicks, delta, MS_PER_TIMER_TICK)
        && r.0.core == after.(delayTimer := Drained(after.delayTimer, k), soundTimer := Drained(after.soundTimer, k))
  {
    var run := RunCpu(s.core, s.cpuTicks, delta, rng);
    RunCpuTicks(s.core, s.cpuTicks, delta, rng);
    FaultStatus(s.core, s.cpuTicks, delta, rng);
    if run.2 == Finished {
      var timers := RunTimers(run.0, s.timerTicks, delta);
      assert CatchUpState(s, delta, rng) == (VmState(timers.0, s.initTimestamp, run.1, timers.1), OK, false);
      RunTimersEffect(run.0, s.timerTicks, delta);
    }
  }

  /** `update` when not waiting and nothing faults: both counters catch up
      with the time since the epoch and the timers count down once per
      timer tick that was due. */
  lemma {:induction false} UpdateCatchesUp(s: VmState, timestamp: u32, rng: nat -> byte)
    requires WellFormed(s.core) && !s.core.waiting && timestamp >= s.initTimestamp
    ensures var r := UpdateState(s, timestamp, rng);
      var delta := timestamp - s.initTimestamp;
      var after := RunCpu(s.core, s.cpuTicks, delta, rng).0;
      var k := r.0.timerTicks - s.timerTicks;
      r.1 == OK && !r.2 ==>
        && r.0.initTimestamp == s.initTimestamp
        && r.0.cpuTicks == CatchUp(s.cpuTicks, delta, MS_PER_CPU_TICK)
        && r.0.timerTicks == CatchUp(s.timerTicks, delta, MS_PER_TIMER_TICK)
        && r.0.core == after.(delayTimer := Drained(after.delayTimer, k), soundTimer := Drained(after.soundTimer, k))
  {
    UpdateRunsLoops(s, timestamp, rng);
    LoopsCatchUp(s, timestamp - s.initTimestamp, rng);
  }

  /** The two loops, when an instruction faults: they stop with its status,
      short of the CPU catch-up point, with no timer tick run. */
  lemma {:induction false} LoopsStopAtFault(s: VmState, delta: nat, rng: nat -> byte)
    requires WellFormed(s.core)
    ensures var r := CatchUpState(s, delta, rng);
      r.1 != OK ==>
        && (r.1 == UnknownOpcodeError || r.1 == StackOverflowError)
        && !r.2
        && r.0.cpuTicks * MS_PER_CPU_TICK < delta
        && r.0.timerTicks == s.timerTicks
  {
    var run := RunCpu(s.core, s.cpuTicks, delta, rng);
    RunCpuTicks(s.core, s.cpuTicks, delta, rng);
    FaultStatus(s.core, s.cpuTicks, delta, rng);
  }

  /** An instruction that faults ends `update` at once with its status: its
      tick is not counted and no timer tick runs. */
  lemma {:induction false} UpdateStopsAtFault(s: VmState, timestamp: u32, rng: nat -> byte)
    requires WellFormed(s.core) && !s.core.waiting && timestamp >= s.initTimestamp
    ensures var r := UpdateState(s, timestamp, rng);
      var delta := timestamp - s.initTimestamp;
      r.1 != OK ==>
        && (r.1 == UnknownOpcodeError || r.1 == StackOverflowError)
        && !r.2
        && r.0.cpuTicks * MS_PER_CPU_TICK < delta
        && r.0.timerTicks == s.timerTicks
  {
    UpdateRunsLoops(s, timestamp, rng);
    LoopsStopAtFault(s, timestamp - s.initTimestamp, rng);
  }

  /** The status of a fault is one of the two executor faults. */
  lemma {:induction false} FaultStatus(c: Core, ticks: nat, delta: nat, rng: nat -> byte)
    requires WellFormed(c)
    ensures var r := RunCpu(c, ticks, delta, rng);
      r.2.Faulted? ==> r.2.status == UnknownOpcodeError || r.2.status == StackOverflowError
    decreases delta - ticks * MS_PER_CPU_TICK
  {
    if delta > ticks * MS_PER_CPU_TICK {
      match TickCore(c, rng(ticks))
      case OutOfRange(_) =>
      case Ran(c1, status) =>
        if status == OK {
          FaultStatus(c1, ticks + 1, delta, rng);
        }
    }
  }

  /** The catch-up point covers the time it was computed for. */
  lemma {:induction false} CatchUpCovers(ticks: nat, delta: nat, period: nat)
    requires period > 0
    ensures delta <= CatchUp(ticks, delta, period) * period
  {
    if delta > ticks * period {
      var q := (delta + period - 1) / period;
      assert q * period + (delta + period - 1) % period == delta + period - 1;
    }
  }

  /** A second `update` with the same timestamp changes nothing after a
      first one that ended without a fault and left no key-wait to resolve:
      either no wait is pending afterwards, or one is pending with no key
      pressed and none was resolved in that call. This covers a first call
      whose timestamp was before the epoch. A first call that ends a wait is
      left out because it runs no tick, so the second call catches up. */
  lemma {:induction false} UpdateIdempotent(s: VmState, timestamp: u32, rng: nat -> byte)
    requires WellFormed(s.core)
    ensures var r := UpdateState(s, timestamp, rng);
      && r.1 == OK && !r.2
      && (s.core.waiting || r.0.core.waiting ==> r.0.core.waiting && forall j :: 0 <= j < NUM_KEYS ==> !r.0.core.keys[j])
      ==> UpdateState(r.0, timestamp, rng) == (r.0, OK, false)
  {
    var s1 := if timestamp < s.initTimestamp then ResetTimeState(s, timestamp) else s;
    UpdateSplits(s, s1, timestamp, rng);
    var r := UpdateState(s, timestamp, rng);
    if r.1 == OK && !r.2 && (s.core.waiting || r.0.core.waiting ==> r.0.core.waiting && forall j :: 0 <= j < NUM_KEYS ==> !r.0.core.keys[j]) {
      if s1.core.waiting {
        MachineProperties.WaitWithoutKeyIsIdle(s1.core);
        UpdateSplits(r.0, r.0, timestamp, rng);
      } else if r.0.core.waiting {
        UpdateCatchesUp(s1, timestamp, rng);
        MachineProperties.WaitWithoutKeyIsIdle(r.0.core);
        UpdateSplits(r.0, r.0, timestamp, rng);
      } else {
        CaughtUpIsIdle(s1, timestamp, rng);
      }
    }
  }

  /** The case of UpdateIdempotent with no wait before or after. */
  lemma {:induction false} CaughtUpIsIdle(s: VmState, timestamp: u32, rng: nat -> byte)
    requires WellFormed(s.core) && !s.core.waiting && timestamp >= s.initTimestamp
    ensures var r := UpdateState(s, timestamp, rng);
      r.1 == OK && !r.2 && !r.0.core.waiting ==> UpdateState(r.0, timestamp, rng) == (r.0, OK, false)
  {
    var r := UpdateState(s, timestamp, rng);
    var delta := timestamp - s.initTimestamp;
    if r.1 == OK && !r.2 && !r.0.core.waiting {
      UpdateCatchesUp(s, timestamp, rng);
      CatchUpCovers(s.cpuTicks, delta, MS_PER_CPU_TICK);
      CatchUpCovers(s.timerTicks, delta, MS_PER_TIMER_TICK);
      assert RunCpu(r.0.core, r.0.cpuTicks, delta, rng) == (r.0.core, r.0.cpuTicks, Finished);
      assert RunTimers(r.0.core, r.0.timerTicks, delta) == (r.0.core, r.0.timerTicks);
    }
  }

  /** A timestamp before the epoch moves the epoch back to it and zeroes both
      counters; with no key-wait pending nothing else happens in that call,
      since no time has passed since the new epoch. */
  lemma {:induction false} BackwardsClockResets(s: VmState, timestamp: u32, rng: nat -> byte)
    requires WellFormed(s.core) && timestamp < s.initTimestamp
    ensures var r := UpdateState(s, timestamp, rng);
      && r.1 == OK && !r.2
      && r.0.initTimestamp == timestamp && r.0.cpuTicks == 0 && r.0.timerTicks == 0
      && (!s.core.waiting ==> r.0.core == s.core)
  {
    if !s.core.waiting {
      assert RunCpu(s.core, 0, 0, rng) == (s.core, 0, Finished);
      assert RunTimers(s.core, 0, 0) == (s.core, 0);
    }
  }

  /** While the machine waits for a key, `update` runs no instruction and no
      timer tick and leaves the counters alone. With a key pressed it stores
      the lowest one and stops waiting; PendingWaitIsIdle is the case with
      none pressed. */
  lemma {:induction false} WaitingFreezes(s: VmState, timestamp: u32, rng: nat -> byte, key: nat)
    requires WellFormed(s.core) && s.core.waiting && timestamp >= s.initTimestamp
    requires key < NUM_KEYS && s.core.keys[key] && forall j :: 0 <= j < key ==> !s.core.keys[j]
    ensures var r := UpdateState(s, timestamp, rng);
      && r.1 == OK && !r.2
      && r.0.initTimestamp == s.initTimestamp && r.0.cpuTicks == s.cpuTicks && r.0.timerTicks == s.timerTicks
      && r.0.core == s.core.(v := s.core.v[s.core.waitIndex := key as byte], waiting := false)
  {
    MachineProperties.WaitStoresLowestKey(s.core, key);
  }

  /** While a key-wait is pending and no key is pressed, `update` changes
      nothing: no instruction, no timer tick, and the epoch and counters stay. */
  lemma {:induction false} PendingWaitIsIdle(s: VmState, timestamp: u32, rng: nat -> byte)
    requires WellFormed(s.core) && s.core.waiting && timestamp >= s.initTimestamp
    requires forall j :: 0 <= j < NUM_KEYS ==> !s.core.keys[j]
    ensures UpdateState(s, timestamp, rng) == (s, OK, false)
  {
    MachineProperties.WaitWithoutKeyIsIdle(s.core);
  }
}
