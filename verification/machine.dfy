/**
 * The part of the VM record that both revisions of the CHIP-8 machine share
 * (apps/chip8/vm.h:24-45, apps/chip8/chip8.c:66-89), as a class whose arrays
 * and fields the instructions update in place. Its methods are the shared
 * routines `clear_display`, `fetch` and `execute`, the reset at the head of
 * `init` and `load`, and the key-wait resolution at the head of `update` and
 * `step`; each is proved against the value semantics of module Decoder.
 */
module Machine {
  import opened Chip8Types
  import opened Decoder
  import Sprite

  // ---------------------------------------------------------------------------
  // Value semantics of the routines outside `execute`

  /** `fetch`: the opcode at pc, high byte first (see FetchBigEndian for
      its agreement with `join`). */
  function Fetched(c: Core): (op: word)
    requires WellFormed(c) && c.pc + 1 < MEMORY_SIZE
    ensures op / 0x100 == c.memory[c.pc] && op % 0x100 == c.memory[c.pc + 1]
  {
    c.memory[c.pc] as int * 0x100 + c.memory[c.pc + 1]
  }

  /**
   * The common reset of `init` (zeroEnd = MEMORY_SIZE) and `load`
   * (zeroEnd = PROG_START): registers, stack, keys and screen cleared, the
   * font at the bottom of memory and zeros after it up to zeroEnd. Memory
   * from zeroEnd on, and the register index of a finished key-wait, are
   * left as they were.
   */
  function ResetState(c: Core, zeroEnd: nat): (r: Core)
    requires WellFormed(c) && FONT_SIZE <= zeroEnd <= MEMORY_SIZE
    ensures WellFormed(r)
  {
    Core(
      memory := HEX_DIGITS + seq(zeroEnd - FONT_SIZE, _ => 0) + c.memory[zeroEnd..],
      pc := PROG_START,
      i := 0,
      v := seq(NUM_REGISTERS, _ => 0),
      stack := seq(STACK_SIZE, _ => 0),
      sp := 0,
      delayTimer := 0,
      soundTimer := 0,
      keys := seq(NUM_KEYS, _ => false),
      waiting := false,
      waitIndex := c.waitIndex,
      drawPending := true,
      screen := seq(SCREEN_CELLS, _ => false))
  }

  /** The lowest-numbered pressed key at or after `from`, or |keys| when none is. */
  function LowestPressed(keys: seq<bool>, from: nat): (k: nat)
    requires from <= |keys|
    ensures from <= k <= |keys|
    ensures k < |keys| ==> keys[k]
    ensures forall j :: from <= j < k ==> !keys[j]
    decreases |keys| - from
  {
    if from == |keys| then |keys|
    else if keys[from] then from
    else LowestPressed(keys, from + 1)
  }

  /** The key-wait of `Fx0A` ends with the lowest pressed key stored in the
      waiting register; with no key pressed nothing happens. */
  function ResolveWait(c: Core): (r: Core)
    requires WellFormed(c) && c.waiting
    ensures WellFormed(r)
  {
    var k := LowestPressed(c.keys, 0);
    if k < NUM_KEYS then c.(v := c.v[c.waitIndex := k], waiting := false) else c
  }

  /** One timer period: each timer that is not yet zero goes down by one. */
  function CountDown(c: Core): (r: Core)
  {
    c.(delayTimer := if c.delayTimer > 0 then c.delayTimer - 1 else 0,
       soundTimer := if c.soundTimer > 0 then c.soundTimer - 1 else 0)
  }

  /** The result of a fetch followed by an execute. */
  datatype TickResult =
    | Ran(core: Core, status: Status)
      /** The fetch or the instruction would leave the C arrays; `core` is
          the state at that point. */
    | OutOfRange(core: Core)

  /** A fetch followed by an execute, stopped where the C code would leave its arrays. */
  function TickCore(c: Core, rnd: byte): (r: TickResult)
    requires WellFormed(c)
    ensures WellFormed(r.core)
  {
    if c.pc + 1 >= MEMORY_SIZE then OutOfRange(c)
    else
      var op := Fetched(c);
      var c1 := c.(pc := c.pc + 2);
      if !Defined(c1, op) then OutOfRange(c1)
      else
        var r := Exec(c1, op, rnd);
        Ran(r.0, r.1)
  }

  // ---------------------------------------------------------------------------
  // The machine record

  class Cpu {
    const memory: array<byte>
    var pc: word
    var i: word
    const v: array<byte>
    const stack: array<word>
    var sp: byte
    var delayTimer: byte
    var soundTimer: byte
    const isKeyPressed: array<bool>
    var isWaitingForKey: bool
    var waitingForKeyIndex: byte
    var isDrawPending: bool
    /** `bool screen[64][32]`, flattened: pixel (x, y) is at x * 32 + y. */
    const screen: array<bool>

    /** The C array sizes, distinct arrays, and a key-wait naming a register. */
    ghost predicate Valid()
      reads this
    {
      && memory.Length == MEMORY_SIZE
      && v.Length == NUM_REGISTERS
      && stack.Length == STACK_SIZE
      && isKeyPressed.Length == NUM_KEYS
      && screen.Length == SCREEN_CELLS
      && memory != v
      && isKeyPressed != screen
      && (isWaitingForKey ==> waitingForKeyIndex < NUM_REGISTERS)
    }

    /** The record as a value. */
    ghost function Abs(): (c: Core)
      reads this, memory, v, stack, isKeyPressed, screen
      requires Valid()
      ensures WellFormed(c)
    {
      Core(memory[..], pc, i, v[..], stack[..], sp, delayTimer, soundTimer,
           isKeyPressed[..], isWaitingForKey, waitingForKeyIndex, isDrawPending, screen[..])
    }

    /** A record with zeroed arrays; the C code leaves its allocation to the caller. */
    constructor ()
      ensures Valid() && fresh(memory) && fresh(v) && fresh(stack) && fresh(isKeyPressed) && fresh(screen)
      ensures !isWaitingForKey
    {
      memory := new byte[MEMORY_SIZE](_ => 0);
      v := new byte[NUM_REGISTERS](_ => 0);
      stack := new word[STACK_SIZE](_ => 0);
      isKeyPressed := new bool[NUM_KEYS](_ => false);
      screen := new bool[SCREEN_CELLS](_ => false);
      pc := PROG_START;
      i := 0;
      sp := 0;
      delayTimer := 0;
      soundTimer := 0;
      isWaitingForKey := false;
      waitingForKeyIndex := 0;
      isDrawPending := false;
    }

    /** `clear_display` */
    method ClearDisplay()
      requires Valid()
      modifies this, screen
      ensures Valid()
      ensures Abs() == ClearScreen(old(Abs()))
    {
      for j := 0 to SCREEN_WIDTH
        modifies screen
        invariant forall p :: 0 <= p < j * SCREEN_HEIGHT ==> !screen[p]
      {
        for k := 0 to SCREEN_HEIGHT
          modifies screen
          invariant forall p :: 0 <= p < j * SCREEN_HEIGHT + k ==> !screen[p]
        {
          screen[j * SCREEN_HEIGHT + k] := false;
        }
      }
      isDrawPending := true;
      assert screen[..] == seq(SCREEN_CELLS, _ => false);
    }

    /** `fetch`: the opcode at pc, with pc advanced past it. */
    method Fetch() returns (op: word)
      requires Valid() && pc + 1 < MEMORY_SIZE
      modifies this
      ensures Valid()
      ensures op == Fetched(old(Abs()))
      ensures Abs() == old(Abs()).(pc := old(pc) + 2)
    {
      var hi := memory[pc];
      pc := pc + 1;
      var lo := memory[pc];
      pc := pc + 1;
      op := Join(lo, hi);
    }

    /** The reset at the head of `init` and `load`. */
    method Reset(zeroEnd: nat)
      requires Valid() && FONT_SIZE <= zeroEnd <= MEMORY_SIZE
      modifies this, memory, v, stack, isKeyPressed, screen
      ensures Valid()
      ensures Abs() == ResetState(old(Abs()), zeroEnd)
    {
      pc := PROG_START;
      i := 0;
      sp := 0;
      delayTimer := 0;
      soundTimer := 0;
      isWaitingForKey := false;
      ClearRegisters();
      ResetMemory(zeroEnd);
      ClearDisplay();
    }

    /** The register, stack and key loops of `init` and `load`. */
    method ClearRegisters()
      requires Valid()
      modifies v, stack, isKeyPressed
      ensures v[..] == seq(NUM_REGISTERS, _ => 0)
      ensures stack[..] == seq(STACK_SIZE, _ => 0)
      ensures isKeyPressed[..] == seq(NUM_KEYS, _ => false)
    {
      for j := 0 to NUM_REGISTERS
        modifies v
        invariant forall p :: 0 <= p < j ==> v[p] == 0
      {
        v[j] := 0;
      }
      for j := 0 to STACK_SIZE
        modifies stack
        invariant forall p :: 0 <= p < j ==> stack[p] == 0
      {
        stack[j] := 0;
      }
      for j := 0 to NUM_KEYS
        modifies isKeyPressed
        invariant forall p :: 0 <= p < j ==> !isKeyPressed[p]
      {
        isKeyPressed[j] := false;
      }
      assert v[..] == seq(NUM_REGISTERS, _ => 0);
      assert stack[..] == seq(STACK_SIZE, _ => 0);
    }

    /** The font copy and the zero fill of `init` and `load`. */
    method ResetMemory(zeroEnd: nat)
      requires Valid() && FONT_SIZE <= zeroEnd <= MEMORY_SIZE
      modifies memory
      ensures memory[..] == HEX_DIGITS + seq(zeroEnd - FONT_SIZE, _ => 0) + old(memory[zeroEnd..])
    {
      ghost var expected := HEX_DIGITS + seq(zeroEnd - FONT_SIZE, _ => 0) + old(memory[zeroEnd..]);
      for j := 0 to FONT_SIZE
        invariant forall p :: 0 <= p < j ==> memory[p] == expected[p]
        invariant forall p :: zeroEnd <= p < MEMORY_SIZE ==> memory[p] == expected[p]
      {
        memory[j] := HEX_DIGITS[j];
      }
      for j := FONT_SIZE to zeroEnd
        invariant forall p :: 0 <= p < j ==> memory[p] == expected[p]
        invariant forall p :: zeroEnd <= p < MEMORY_SIZE ==> memory[p] == expected[p]
      {
        memory[j] := 0;
      }
      assert memory[..] == expected;
    }

    /** The key-wait resolution at the head of `update` and `step`. */
    method ResolveKeyWait()
      requires Valid() && isWaitingForKey
      modifies this, v
      ensures Valid()
      ensures Abs() == ResolveWait(old(Abs()))
    {
      for key := 0 to NUM_KEYS
        invariant forall j :: 0 <= j < key ==> !isKeyPressed[j]
      {
        if isKeyPressed[key] {
          assert LowestPressed(isKeyPressed[..], 0) == key;
          v[waitingForKeyIndex] := key;
          isWaitingForKey := false;
          return;
        }
      }
      assert LowestPressed(isKeyPressed[..], 0) == NUM_KEYS;
    }

    // -------------------------------------------------------------------------
    // `execute`, one inner switch per method

    /** `Dxyn`: draw the sprite, then set VF to the collision flag. */
    method DrawSprite(x: nat, y: nat, n: nat)
      requires Valid() && x < NUM_REGISTERS && y < NUM_REGISTERS && n < 0x10 && i + n <= MEMORY_SIZE
      modifies this, v, screen
      ensures Valid()
      ensures Abs() == Draw(old(Abs()), x, y, n)
    {
      var collision := DrawCells(x, y, n);
      v[0xF] := if collision then 1 else 0;
      isDrawPending := true;
    }

    /** The nested draw loop of `Dxyn` over sprite columns and rows. */
    method DrawCells(x: nat, y: nat, n: nat) returns (collision: bool)
      requires Valid() && x < NUM_REGISTERS && y < NUM_REGISTERS && n < 0x10 && i + n <= MEMORY_SIZE
      modifies screen
      ensures screen[..] == Sprite.DrawScreen(old(screen[..]), memory[i .. i + n], v[x], v[y])
      ensures collision == Sprite.Collides(old(screen[..]), memory[i .. i + n], v[x], v[y])
    {
      ghost var s0 := screen[..];
      ghost var rows := memory[i .. i + n];
      var vx, vy := v[x], v[y];
      collision := false;
      Sprite.PartialDrawStart(s0, rows, vx, vy);
      for xline := 0 to 8
        invariant screen[..] == Sprite.PartialDraw(s0, rows, vx, vy, xline, 0)
        invariant collision == Sprite.CollidesBefore(s0, rows, vx, vy, xline, 0)
      {
        collision := DrawColumn(vx, vy, n, xline, collision, s0, rows);
        Sprite.PartialDrawNextColumn(s0, rows, vx, vy, xline);
      }
      Sprite.PartialDrawDone(s0, rows, vx, vy);
    }

    /** The inner loop of `Dxyn` for sprite column `xline`: rows 0..n-1. */
    method DrawColumn(vx: byte, vy: byte, n: nat, xline: nat, collision0: bool,
                      ghost s0: seq<bool>, ghost rows: seq<byte>)
      returns (collision: bool)
      requires Valid() && n < 0x10 && i + n <= MEMORY_SIZE && rows == memory[i .. i + n]
      requires xline < 8 && |s0| == SCREEN_CELLS
      requires screen[..] == Sprite.PartialDraw(s0, rows, vx, vy, xline, 0)
      requires collision0 == Sprite.CollidesBefore(s0, rows, vx, vy, xline, 0)
      modifies screen
      ensures screen[..] == Sprite.PartialDraw(s0, rows, vx, vy, xline, n)
      ensures collision == Sprite.CollidesBefore(s0, rows, vx, vy, xline, n)
    {
      collision := collision0;
      for yline := 0 to n
        invariant screen[..] == Sprite.PartialDraw(s0, rows, vx, vy, xline, yline)
        invariant collision == Sprite.CollidesBefore(s0, rows, vx, vy, xline, yline)
      {
        collision := DrawPixel(vx, vy, n, xline, yline, collision, s0, rows);
      }
    }

    /** One turn of the row loop: the bit of row `yline`, column `xline` XORed
        onto its cell and added to the collision test. */
    method DrawPixel(vx: byte, vy: byte, n: nat, xline: nat, yline: nat, collision0: bool,
                     ghost s0: seq<bool>, ghost rows: seq<byte>)
      returns (collision: bool)
      requires Valid() && n < 0x10 && i + n <= MEMORY_SIZE && rows == memory[i .. i + n]
      requires xline < 8 && yline < n && |s0| == SCREEN_CELLS
      requires screen[..] == Sprite.PartialDraw(s0, rows, vx, vy, xline, yline)
      requires collision0 == Sprite.CollidesBefore(s0, rows, vx, vy, xline, yline)
      modifies screen
      ensures screen[..] == Sprite.PartialDraw(s0, rows, vx, vy, xline, yline + 1)
      ensures collision == Sprite.CollidesBefore(s0, rows, vx, vy, xline, yline + 1)
    {
      var col := (vx + xline) % SCREEN_WIDTH;
      var row := (vy + yline) % SCREEN_HEIGHT;
      var cell := col * SCREEN_HEIGHT + row;
      assert cell == Sprite.Cell(vx, vy, xline, yline);
      var next := Sprite.SpriteBit(memory[i + yline], xline);
      assert memory[i + yline] == rows[yline];
      Sprite.PartialDrawStep(s0, rows, vx, vy, xline, yline);
      var hit := FlipCell(cell, next);
      collision := collision0 || hit;
    }

    /** The XOR of one sprite bit into one screen cell; `hit` says it erased a lit cell. */
    method FlipCell(cell: nat, bit: bool) returns (hit: bool)
      requires Valid() && cell < SCREEN_CELLS
      modifies screen
      ensures hit == (old(screen[..])[cell] && bit)
      ensures screen[..] == old(screen[..])[cell := old(screen[..])[cell] != bit]
    {
      hit := screen[cell] && bit;
      screen[cell] := screen[cell] != bit;
    }

    /** `0nnn`: CLS and RET. As written, RET does not check for an empty stack. */
    method ExecuteSystem(op: word) returns (status: Status)
      requires Valid() && Defined(Abs(), op) && Family(op) == 0
      modifies this, screen
      ensures Valid()
      ensures (Abs(), status) == ExecSystem(old(Abs()), op)
    {
      if op == 0x00E0 {
        ClearDisplay();
        status := OK;
      } else if op == 0x00EE {
        sp := sp - 1;
        pc := stack[sp];
        status := OK;
      } else {
        status := UnknownOpcodeError;
      }
    }

    /** `2nnn`: refuses a call on a full stack. */
    method ExecuteCall(op: word) returns (status: Status)
      requires Valid() && Family(op) == 2
      modifies this, stack
      ensures Valid()
      ensures (Abs(), status) == ExecCall(old(Abs()), op)
    {
      if sp == STACK_SIZE {
        return StackOverflowError;
      }
      stack[sp] := pc;
      sp := sp + 1;
      pc := Nnn(op);
      status := OK;
    }

    /** `8xyk`: the flag is written before the result. */
    method ExecuteAlu(op: word) returns (status: Status)
      requires Valid() && Family(op) == 8
      modifies v
      ensures Valid()
      ensures (Abs(), status) == ExecAlu(old(Abs()), op)
    {
      var x, y := X(op), Y(op);
      status := OK;
      match N(op)
      case 0x0 =>
        v[x] := v[y];
      case 0x1 =>
        v[x] := Or8(v[x], v[y]);
      case 0x2 =>
        v[x] := And8(v[x], v[y]);
      case 0x3 =>
        v[x] := Xor8(v[x], v[y]);
      case _ =>
        status := ExecuteFlagged(op);
    }

    /** The cases of the 8xyn switch that also write the flag register v[F]. */
    method ExecuteFlagged(op: word) returns (status: Status)
      requires Valid() && Family(op) == 8 && N(op) > 3
      modifies v
      ensures Valid()
      ensures (Abs(), status) == ExecAlu(old(Abs()), op)
    {
      var x, y := X(op), Y(op);
      status := OK;
      match N(op)
      case 0x4 =>
        v[0xF] := if v[x] > 0xFF - v[y] then 1 else 0;
        v[x] := (v[x] as int + v[y]) % 0x100;
      case 0x5 =>
        v[0xF] := if v[x] > v[y] then 1 else 0;
        v[x] := (v[x] as int - v[y]) % 0x100;
      case 0x6 =>
        v[0xF] := v[x] % 2;
        v[x] := v[x] / 2;
      case 0x7 =>
        // As written: the flag tests v[x] > v[y].
        v[0xF] := if v[x] > v[y] then 1 else 0;
        v[x] := (v[y] as int - v[x]) % 0x100;
      case 0xE =>
        v[0xF] := v[x] / 0x80;
        v[x] := (v[x] as int * 2) % 0x100;
      case _ =>
        status := UnknownOpcodeError;
    }

    /** `Ex9E` / `ExA1` */
    method ExecuteKeySkip(op: word) returns (status: Status)
      requires Valid() && Defined(Abs(), op) && Family(op) == 0xE
      modifies this
      ensures Valid()
      ensures (Abs(), status) == ExecKeySkip(old(Abs()), op)
    {
      var x := X(op);
      if Kk(op) == 0x9E {
        if isKeyPressed[v[x]] {
          pc := (pc + 2) % 0x1_0000;
        }
        status := OK;
      } else if Kk(op) == 0xA1 {
        if !isKeyPressed[v[x]] {
          pc := (pc + 2) % 0x1_0000;
        }
        status := OK;
      } else {
        status := UnknownOpcodeError;
      }
    }

    /** `Fx55`: the copy loop from the registers into memory at i. */
    method StoreRegisterBlock(x: nat)
      requires Valid() && x < NUM_REGISTERS && i + x < MEMORY_SIZE
      modifies memory
      ensures Abs() == StoreRegisters(old(Abs()), x)
    {
      for j := 0 to x + 1
        invariant forall k :: 0 <= k < MEMORY_SIZE ==>
          memory[k] == if i <= k < i + j then v[k - i] else old(memory[k])
      {
        memory[i + j] := v[j];
      }
      assert memory[..] == StoreRegisters(old(Abs()), x).memory;
    }

    /** `Fx65`: the copy loop from memory at i into the registers. */
    method LoadRegisterBlock(x: nat)
      requires Valid() && x < NUM_REGISTERS && i + x < MEMORY_SIZE
      modifies v
      ensures Abs() == LoadRegisters(old(Abs()), x)
    {
      for j := 0 to x + 1
        invariant forall k :: 0 <= k < NUM_REGISTERS ==>
          v[k] == if k < j then memory[i + k] else old(v[k])
      {
        v[j] := memory[i + j];
      }
      assert v[..] == LoadRegisters(old(Abs()), x).v;
    }

    /** `Fxkk` */
    method ExecuteMisc(op: word) returns (status: Status)
      requires Valid() && Defined(Abs(), op) && Family(op) == 0xF
      modifies this, memory, v
      ensures Valid()
      ensures (Abs(), status) == ExecMisc(old(Abs()), op)
    {
      var x := X(op);
      status := OK;
      match Kk(op)
      case 0x07 =>
        v[x] := delayTimer;
      case 0x0A =>
        isWaitingForKey := true;
        waitingForKeyIndex := x;
      case 0x15 =>
        delayTimer := v[x];
      case 0x18 =>
        soundTimer := v[x];
      case 0x1E =>
        // As written: `i & v[x]`, not the textbook `i + v[x]`.
        i := And16(i, v[x]);
      case 0x29 =>
        i := 5 * v[x] as int;
      case 0x33 =>
        var vx := v[x];
        memory[i] := vx / 100;
        memory[i + 1] := (vx % 100) / 10;
        memory[i + 2] := vx % 10;
      case 0x55 =>
        StoreRegisterBlock(x);
      case 0x65 =>
        LoadRegisterBlock(x);
      case _ =>
        status := UnknownOpcodeError;
    }

    /** `execute`: one instruction, pc already past it. */
    method Execute(op: word, rnd: byte) returns (status: Status)
      requires Valid() && Defined(Abs(), op)
      modifies this, memory, v, stack, screen
      ensures Valid()
      ensures (Abs(), status) == Exec(old(Abs()), op, rnd)
    {
      var x, y, kk := X(op), Y(op), Kk(op);
      status := OK;
      match Family(op)
      case 0x0 =>
        status := ExecuteSystem(op);
      case 0x1 =>
        pc := Nnn(op);
      case 0x2 =>
        status := ExecuteCall(op);
      case 0x3 =>
        if v[x] == kk { pc := (pc + 2) % 0x1_0000; }
      case 0x4 =>
        if v[x] != kk { pc := (pc + 2) % 0x1_0000; }
      case 0x5 =>
        if v[x] == v[y] { pc := (pc + 2) % 0x1_0000; }
      case 0x6 =>
        v[x] := kk;
      case 0x7 =>
        v[x] := (v[x] as int + kk) % 0x100;
      case 0x8 =>
        status := ExecuteAlu(op);
      case 0x9 =>
        if v[x] != v[y] { pc := (pc + 2) % 0x1_0000; }
      case 0xA =>
        i := Nnn(op);
      case 0xB =>
        pc := Nnn(op) as int + v[0];
      case 0xC =>
        v[x] := And8(rnd, kk);
      case 0xD =>
        DrawSprite(x, y, N(op));
      case 0xE =>
        status := ExecuteKeySkip(op);
      case _ =>
        status := ExecuteMisc(op);
    }

    /**
     * Whether `execute` of op stays inside the C arrays. The C code makes
     * no such check; the schedulers of the model stop where it would
     * read or write out of bounds.
     */
    method CheckDefined(op: word) returns (ok: bool)
      requires Valid()
      ensures ok == Defined(Abs(), op)
    {
      var x := X(op);
      ok := && (op != 0x00EE || sp > 0)
            && (Family(op) != 0xD || i + N(op) <= MEMORY_SIZE)
            && (Family(op) != 0xE || (Kk(op) != 0x9E && Kk(op) != 0xA1) || v[x] < NUM_KEYS)
            && (Family(op) != 0xF || Kk(op) != 0x33 || i + 2 < MEMORY_SIZE)
            && (Family(op) != 0xF || (Kk(op) != 0x55 && Kk(op) != 0x65) || i + x < MEMORY_SIZE);
    }

    /** A fetch and an execute (`tick` of chip8.c, the loop body of `update`). */
    method Tick(rnd: byte) returns (status: Status, outOfBounds: bool)
      requires Valid()
      modifies this, memory, v, stack, screen
      ensures Valid()
      ensures outOfBounds ==> status == OK
      ensures TickCore(old(Abs()), rnd) == if outOfBounds then OutOfRange(Abs()) else Ran(Abs(), status)
    {
      if pc + 1 >= MEMORY_SIZE {
        return OK, true;
      }
      var op := Fetch();
      var ok := CheckDefined(op);
      if !ok {
        return OK, true;
      }
      status := Execute(op, rnd);
      outOfBounds := false;
    }

    /** One timer period. */
    method CountDownTimers()
      requires Valid()
      modifies this
      ensures Valid()
      ensures Abs() == CountDown(old(Abs()))
    {
      if delayTimer > 0 {
        delayTimer := delayTimer - 1;
      }
      if soundTimer > 0 {
        soundTimer := soundTimer - 1;
      }
    }
  }
}
