/**
 * What `load`, `tick` and `step` of apps/chip8/chip8.c promise, proved
 * about their value semantics in module Chip8Legacy.
 */
module LegacyProperties {
  import opened Chip8Types
  import opened Decoder
  import opened Machine
  import opened Chip8Legacy
  import MachineProperties
  import DecoderProperties

  /** `load` reports a file error exactly for a program of 0xE00 bytes or
      more, restarts the clock, leaves the font and zeros below PROG_START,
      and copies an accepted program byte for byte to PROG_START; memory
      after the program, and all of it from PROG_START on after a refused
      one, keeps its old contents. */
  lemma {:induction false} LoadFacts(s: LegacyState, program: seq<byte>, now: int)
    requires WellFormed(s.core)
    ensures var r := LoadState(s, program, now);
      && (HadError(r) <==> |program| >= MEMORY_SIZE - PROG_START)
      && (HadError(r) ==> r.errorType == ErrorType.FileError)
      && r.lastClock == now && r.ticks == 0
      && r.core.pc == PROG_START && r.core.i == 0 && r.core.sp == 0 && !r.core.waiting
      && (forall k :: 0 <= k < FONT_SIZE ==> r.core.memory[k] == HEX_DIGITS[k])
      && (forall k :: FONT_SIZE <= k < PROG_START ==> r.core.memory[k] == 0)
      && (!HadError(r) ==> forall j :: 0 <= j < |program| ==> r.core.memory[PROG_START + j] == program[j])
      && (!HadError(r) ==> forall k :: PROG_START + |program| <= k < MEMORY_SIZE ==> r.core.memory[k] == s.core.memory[k])
      && (HadError(r) ==> forall k :: PROG_START <= k < MEMORY_SIZE ==> r.core.memory[k] == s.core.memory[k])
  {
    MachineProperties.ResetLayout(s.core, PROG_START);
  }

  /** After a successful `load` the first instruction fetched is the
      program's first two bytes, high byte first. */
  lemma {:induction false} LoadedProgramRunsFirst(s: LegacyState, program: seq<byte>, now: int)
    requires WellFormed(s.core) && 2 <= |program| < MEMORY_SIZE - PROG_START
    ensures var r := LoadState(s, program, now);
      r.core.pc + 1 < MEMORY_SIZE && Fetched(r.core) == program[0] as int * 0x100 + program[1]
  {
    var r := LoadState(s, program, now);
    LoadFacts(s, program, now);
    MachineProperties.FetchBigEndian(r.core);
  }

  /** `tick` records an unknown opcode and a stack overflow in the error
      field, and leaves the field as it was for every other instruction:
      a recorded error is never cleared by running. */
  lemma {:induction false} TickRecordsFault(s: LegacyState, rnd: byte)
    requires WellFormed(s.core) && s.core.pc + 1 < MEMORY_SIZE
    ensures var op, r := Fetched(s.core), TickState(s, rnd);
      !r.1 ==>
        && (!DecoderProperties.Decoded(op) ==> r.0.errorType == ErrorType.UnknownOpcodeError)
        && (DecoderProperties.Decoded(op) && Family(op) == 2 && s.core.sp == STACK_SIZE ==> r.0.errorType == ErrorType.StackOverflowError)
        && (DecoderProperties.Decoded(op) && !(Family(op) == 2 && s.core.sp == STACK_SIZE) ==> r.0.errorType == s.errorType)
  {
    var op := Fetched(s.core);
    var c1 := s.core.(pc := s.core.pc + 2);
    if Defined(c1, op) {
      DecoderProperties.ExecStatus(c1, op, rnd);
    }
  }

  /** Once an error is recorded, no `step` clears it. */
  lemma {:induction false} ErrorsPersist(s: LegacyState, now: int, rnd: byte, clocksPerSec: nat)
    requires WellFormed(s.core) && HadError(s)
    ensures HadError(StepState(s, now, rnd, clocksPerSec).0)
  {
  }

  /** `step` runs at most one instruction, and only when it is due: the new
      core is the old one or the one after a single `tick`, possibly with
      one timer count-down applied. */
  lemma {:induction false} StepRunsAtMostOne(s: LegacyState, now: int, rnd: byte, clocksPerSec: nat)
    requires WellFormed(s.core) && !s.core.waiting
    ensures var r, t := StepState(s, now, rnd, clocksPerSec), TickCore(s.core, rnd).core;
      && (TickDue(s, now, clocksPerSec) ==> r.0.core == t || r.0.core == CountDown(t))
      && (!TickDue(s, now, clocksPerSec) ==> r.0.core == s.core || r.0.core == CountDown(s.core))
  {
  }

  /** The tick count of `step`: one more after an instruction that ran,
      faulted or not, unless more than a timer period has passed, in which
      case the count restarts at zero with the clock anchored at `now`. */
  lemma {:induction false} StepCountsTicks(s: LegacyState, now: int, rnd: byte, clocksPerSec: nat)
    requires WellFormed(s.core) && !s.core.waiting && s.ticks + 1 < 0x1_0000_0000_0000_0000
    ensures var r := StepState(s, now, rnd, clocksPerSec);
      var ran := TickDue(s, now, clocksPerSec);
      !r.1 ==>
        && (now - s.lastClock > ClocksPerCount(clocksPerSec) ==> r.0.ticks == 0 && r.0.lastClock == now)
        && (now - s.lastClock <= ClocksPerCount(clocksPerSec) ==>
              r.0.lastClock == s.lastClock && r.0.ticks == if ran then s.ticks + 1 else s.ticks)
  {
  }

  /** Each timer goes down by one, never below zero, in a `step` that re-anchors the clock. */
  lemma {:induction false} StepCountsDownTimers(s: LegacyState, now: int, rnd: byte, clocksPerSec: nat)
    requires WellFormed(s.core) && !s.core.waiting
    requires now - s.lastClock > ClocksPerCount(clocksPerSec)
    ensures var r, c := StepState(s, now, rnd, clocksPerSec), (if TickDue(s, now, clocksPerSec) then TickCore(s.core, rnd).core else s.core);
      !r.1 ==>
        && r.0.core.delayTimer == (if c.delayTimer > 0 then c.delayTimer - 1 else 0)
        && r.0.core.soundTimer == (if c.soundTimer > 0 then c.soundTimer - 1 else 0)
  {
  }

  /** An instruction is not due while the time since the anchor is still
      within `CLOCKS_PER_TICK * ticks`. */
  lemma {:induction false} NotDueWhileOnSchedule(s: LegacyState, now: int, clocksPerSec: nat)
    requires 0 <= now - s.lastClock <= ClocksPerTick(clocksPerSec) * s.ticks < 0x1_0000_0000_0000_0000
    ensures !TickDue(s, now, clocksPerSec)
  {
  }

  /** As written, a clock reading before the anchor still runs an
      instruction: the negative difference turns into a large unsigned one. */
  lemma {:induction false} ClockBehindStillTicks(s: LegacyState, now: int, clocksPerSec: nat)
    requires -0x8000_0000_0000_0000 <= now - s.lastClock < 0
    requires ClocksPerTick(clocksPerSec) * s.ticks < 0x8000_0000_0000_0000
    ensures TickDue(s, now, clocksPerSec)
  {
  }

  /** While waiting for a key, `step` runs nothing and leaves the clock
      fields and the error alone. With a key pressed it stores the lowest one
      and stops waiting; StepPendingWaitIsIdle is the case with none pressed. */
  lemma {:induction false} StepWhileWaiting(s: LegacyState, now: int, rnd: byte, clocksPerSec: nat, key: nat)
    requires WellFormed(s.core) && s.core.waiting
    requires key < NUM_KEYS && s.core.keys[key] && forall j :: 0 <= j < key ==> !s.core.keys[j]
    ensures var r := StepState(s, now, rnd, clocksPerSec);
      && !r.1
      && r.0.errorType == s.errorType && r.0.lastClock == s.lastClock && r.0.ticks == s.ticks
      && r.0.core == s.core.(v := s.core.v[s.core.waitIndex := key as byte], waiting := false)
  {
    MachineProperties.WaitStoresLowestKey(s.core, key);
  }

  /** While a key-wait is pending and no key is pressed, `step` changes
      nothing: no instruction, no timer count-down, and the clock fields and
      the error record stay. */
  lemma {:induction false} StepPendingWaitIsIdle(s: LegacyState, now: int, rnd: byte, clocksPerSec: nat)
    requires WellFormed(s.core) && s.core.waiting
    requires forall j :: 0 <= j < NUM_KEYS ==> !s.core.keys[j]
    ensures StepState(s, now, rnd, clocksPerSec) == (s, false)
  {
    MachineProperties.WaitWithoutKeyIsIdle(s.core);
  }
}
