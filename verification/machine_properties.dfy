/**
 * What the reset of `init` / `load` and the key-wait resolution of `update` /
 * `step` promise (apps/chip8/vm.c:43-69, 261-270; apps/chip8/chip8.c:105-130,
 * 333-342), proved about their value semantics in module Machine.
 */
module MachineProperties {
  import opened Chip8Types
  import opened Decoder
  import opened Machine

  /** The fields the reset sets, and the memory layout it leaves: the font
      below 80, zeros from 80 to zeroEnd, the old bytes from zeroEnd on. */
  lemma {:induction false} ResetLayout(c: Core, zeroEnd: nat)
    requires WellFormed(c) && FONT_SIZE <= zeroEnd <= MEMORY_SIZE
    ensures var r := ResetState(c, zeroEnd);
      && r.pc == PROG_START && r.i == 0 && r.sp == 0
      && r.delayTimer == 0 && r.soundTimer == 0
      && !r.waiting && r.drawPending
      && (forall k :: 0 <= k < NUM_REGISTERS ==> r.v[k] == 0)
      && (forall k :: 0 <= k < STACK_SIZE ==> r.stack[k] == 0)
      && (forall k :: 0 <= k < NUM_KEYS ==> !r.keys[k])
      && (forall k :: 0 <= k < SCREEN_CELLS ==> !r.screen[k])
      && (forall k :: 0 <= k < FONT_SIZE ==> r.memory[k] == HEX_DIGITS[k])
      && (forall k :: FONT_SIZE <= k < zeroEnd ==> r.memory[k] == 0)
      && (forall k :: zeroEnd <= k < MEMORY_SIZE ==> r.memory[k] == c.memory[k])
  {
    var r := ResetState(c, zeroEnd);
    var zeros := seq(zeroEnd - FONT_SIZE, _ => 0);
    assert r.memory == HEX_DIGITS + zeros + c.memory[zeroEnd..];
    forall k | FONT_SIZE <= k < zeroEnd
      ensures r.memory[k] == 0
    {
      assert r.memory[k] == zeros[k - FONT_SIZE];
    }
    forall k | zeroEnd <= k < MEMORY_SIZE
      ensures r.memory[k] == c.memory[k]
    {
      assert r.memory[k] == c.memory[zeroEnd..][k - zeroEnd];
    }
  }

  /** `init` forgets everything: two machines that differ in anything but
      the register index of a finished key-wait are equal after it. */
  lemma {:induction false} InitForgetsState(c1: Core, c2: Core)
    requires WellFormed(c1) && WellFormed(c2) && c1.waitIndex == c2.waitIndex
    ensures ResetState(c1, MEMORY_SIZE) == ResetState(c2, MEMORY_SIZE)
  {
    assert c1.memory[MEMORY_SIZE..] == c2.memory[MEMORY_SIZE..] == [];
  }

  /** The reset of `load` keeps the program area and forgets the rest. */
  lemma {:induction false} LoadResetKeepsProgramArea(c1: Core, c2: Core)
    requires WellFormed(c1) && WellFormed(c2) && c1.waitIndex == c2.waitIndex
    requires c1.memory[PROG_START..] == c2.memory[PROG_START..]
    ensures ResetState(c1, PROG_START) == ResetState(c2, PROG_START)
  {}

  /** Resetting twice is resetting once. */
  lemma {:induction false} ResetIdempotent(c: Core, zeroEnd: nat)
    requires WellFormed(c) && FONT_SIZE <= zeroEnd <= MEMORY_SIZE
    ensures ResetState(ResetState(c, zeroEnd), zeroEnd) == ResetState(c, zeroEnd)
  {
    var r := ResetState(c, zeroEnd);
    ResetLayout(c, zeroEnd);
    ResetLayout(r, zeroEnd);
    assert ResetState(r, zeroEnd).memory == r.memory;
  }

  /** A key-wait with some key pressed stores the lowest pressed key in the
      waiting register and ends the wait; nothing else changes. */
  lemma {:induction false} WaitStoresLowestKey(c: Core, key: nat)
    requires WellFormed(c) && c.waiting
    requires key < NUM_KEYS && c.keys[key]
    ensures var r := ResolveWait(c);
      && !r.waiting
      && r.v[c.waitIndex] <= key
      && c.keys[r.v[c.waitIndex]]
      && (forall j :: 0 <= j < r.v[c.waitIndex] ==> !c.keys[j])
      && (forall j :: 0 <= j < NUM_REGISTERS && j != c.waitIndex ==> r.v[j] == c.v[j])
      && r == c.(v := r.v, waiting := false)
  {
    var k := LowestPressed(c.keys, 0);
    assert k <= key;
  }

  /** A key-wait with no key pressed changes nothing. */
  lemma {:induction false} WaitWithoutKeyIsIdle(c: Core)
    requires WellFormed(c) && c.waiting
    requires forall j :: 0 <= j < NUM_KEYS ==> !c.keys[j]
    ensures ResolveWait(c) == c
  {
  }

  /** `fetch` is `join(memory[pc + 1], memory[pc])`: the byte at pc is the
      high byte of the opcode and the byte after it the low byte. */
  lemma {:induction false} FetchBigEndian(c: Core)
    requires WellFormed(c) && c.pc + 1 < MEMORY_SIZE
    ensures Fetched(c) == Join(c.memory[c.pc + 1], c.memory[c.pc])
  {
  }
}
