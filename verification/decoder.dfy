/**
 * The CHIP-8 instruction set as the `execute` functions of apps/chip8/vm.c
 * and apps/chip8/chip8.c implement it, as a pure function on a value of the
 * machine state. The two C revisions decode opcode for opcode alike; they
 * differ only in how a fault is reported (a returned status against a
 * recorded `error_type`), which the two VM classes add on top.
 *
 * Deviations of the code from the textbook instruction set are kept and
 * marked "as written" below.
 */
module Decoder {
  import opened Chip8Types
  import Sprite

  /** The part of the VM record that `execute` reads and writes. */
  datatype Core = Core(
    memory: seq<byte>,
    pc: word,
    i: word,
    v: seq<byte>,
    stack: seq<word>,
    sp: byte,
    delayTimer: byte,
    soundTimer: byte,
    keys: seq<bool>,
    waiting: bool,
    waitIndex: byte,
    drawPending: bool,
    screen: seq<bool>)

  /** The fixed array sizes of the VM record; a key-wait always names a register. */
  predicate WellFormed(c: Core)
  {
    && |c.memory| == MEMORY_SIZE
    && |c.v| == NUM_REGISTERS
    && |c.stack| == STACK_SIZE
    && |c.keys| == NUM_KEYS
    && |c.screen| == SCREEN_CELLS
    && (c.waiting ==> c.waitIndex < NUM_REGISTERS)
  }

  // ---------------------------------------------------------------------------
  // Opcode fields

  /** `opcode & 0x0FFF` */
  function Nnn(op: word): word { op % 0x1000 }
  /** `opcode & 0xFF` */
  function Kk(op: word): byte { op % 0x100 }
  /** `opcode & 0x0F` */
  function N(op: word): nat { op % 0x10 }
  /** `(opcode & 0x0F00) >> 8` */
  function X(op: word): nat { (op / 0x100) % 0x10 }
  /** `(opcode & 0x00F0) >> 4` */
  function Y(op: word): nat { (op / 0x10) % 0x10 }
  /** `(opcode & 0xF000) >> 12`, the case of the outer switch. */
  function Family(op: word): nat { op / 0x1000 }

  /** The opcode is the big-endian pair (hi, lo): `join(lo, hi)`. */
  function Join(lo: byte, hi: byte): (op: word)
    ensures op / 0x100 == hi && op % 0x100 == lo
  {
    hi * 0x100 + lo
  }

  /**
   * The C code indexes its arrays without checks. These are the conditions
   * under which `execute` stays inside them: a return needs a non-empty
   * stack, a key skip a key number below 16, and the draw, BCD and block
   * copies the bytes from `i` on that they touch.
   */
  predicate Defined(c: Core, op: word)
    requires WellFormed(c)
  {
    && (op == 0x00EE ==> c.sp > 0)
    && (Family(op) == 0xD ==> c.i + N(op) <= MEMORY_SIZE)
    && (Family(op) == 0xE && (Kk(op) == 0x9E || Kk(op) == 0xA1) ==> c.v[X(op)] < NUM_KEYS)
    && (Family(op) == 0xF && Kk(op) == 0x33 ==> c.i + 2 < MEMORY_SIZE)
    && (Family(op) == 0xF && (Kk(op) == 0x55 || Kk(op) == 0x65) ==> c.i + X(op) < MEMORY_SIZE)
  }

  // ---------------------------------------------------------------------------
  // Pieces of the semantics

  /** `pc += 2` on a 16-bit word. */
  function Skip(c: Core): Core
  {
    c.(pc := (c.pc + 2) % 0x1_0000)
  }

  /** `clear_display`: every pixel off, a redraw pending. */
  function ClearScreen(c: Core): Core
  {
    c.(screen := seq(SCREEN_CELLS, _ => false), drawPending := true)
  }

  /** `Dxyn` */
  function Draw(c: Core, x: nat, y: nat, n: nat): (r: Core)
    requires WellFormed(c) && x < NUM_REGISTERS && y < NUM_REGISTERS && c.i + n <= MEMORY_SIZE
    ensures WellFormed(r)
  {
    var rows := c.memory[c.i .. c.i + n];
    var collision := Sprite.Collides(c.screen, rows, c.v[x], c.v[y]);
    c.(screen := Sprite.DrawScreen(c.screen, rows, c.v[x], c.v[y]),
       v := c.v[0xF := if collision then 1 else 0],
       drawPending := true)
  }

  /** `Fx55`: memory[i + j] := v[j] for j in 0..x. */
  function StoreRegisters(c: Core, x: nat): (r: Core)
    requires WellFormed(c) && x < NUM_REGISTERS && c.i + x < MEMORY_SIZE
    ensures WellFormed(r)
  {
    c.(memory := seq(MEMORY_SIZE, k requires 0 <= k < MEMORY_SIZE =>
         if c.i <= k <= c.i + x then c.v[k - c.i] else c.memory[k]))
  }

  /** `Fx65`: v[j] := memory[i + j] for j in 0..x. */
  function LoadRegisters(c: Core, x: nat): (r: Core)
    requires WellFormed(c) && x < NUM_REGISTERS && c.i + x < MEMORY_SIZE
    ensures WellFormed(r)
  {
    c.(v := seq(NUM_REGISTERS, j requires 0 <= j < NUM_REGISTERS =>
         if j <= x then c.memory[c.i + j] else c.v[j]))
  }

  /** `Fx33`: hundreds, tens and units of v[x] at memory[i], [i+1], [i+2]. */
  function StoreBcd(c: Core, x: nat): (r: Core)
    requires WellFormed(c) && x < NUM_REGISTERS && c.i + 2 < MEMORY_SIZE
    ensures WellFormed(r)
  {
    var vx := c.v[x];
    c.(memory := c.memory[c.i := vx / 100][c.i + 1 := (vx % 100) / 10][c.i + 2 := vx % 10])
  }

  // ---------------------------------------------------------------------------
  // The decoder, one function per inner switch

  /**
   * What every instruction promises: the state stays well formed, the
   * status is OK or one of the two executor faults, a fault changes
   * nothing, the keys are only read, and a key-wait is only ever started.
   */
  predicate Sound(c: Core, r: (Core, Status))
  {
    && WellFormed(r.0)
    && (r.1 == OK || r.1 == UnknownOpcodeError || r.1 == StackOverflowError)
    && (r.1 != OK ==> r.0 == c)
    && r.0.keys == c.keys
    && (r.0.waiting != c.waiting ==> r.0.waiting)
  }

  /** `0nnn`: only 00E0 (CLS) and 00EE (RET) are decoded. */
  function ExecSystem(c: Core, op: word): (r: (Core, Status))
    requires WellFormed(c) && Defined(c, op) && Family(op) == 0
    ensures Sound(c, r)
  {
    if op == 0x00E0 then (ClearScreen(c), OK)
    // As written: no underflow check; Defined demands sp > 0.
    else if op == 0x00EE then (c.(sp := c.sp - 1, pc := c.stack[c.sp - 1]), OK)
    else (c, UnknownOpcodeError)
  }

  /** `2nnn`: push the (already advanced) pc unless the stack is full. */
  function ExecCall(c: Core, op: word): (r: (Core, Status))
    requires WellFormed(c)
    ensures Sound(c, r)
  {
    if c.sp == STACK_SIZE then (c, StackOverflowError)
    else (c.(stack := c.stack[c.sp := c.pc], sp := c.sp + 1, pc := Nnn(op)), OK)
  }

  /**
   * `8xyk`. Each flag-setting case writes v[F] first and then computes the
   * result from the registers as they are after that write, so with x = F
   * the result replaces the flag, and with y = F the flag is the operand.
   */
  function ExecAlu(c: Core, op: word): (r: (Core, Status))
    requires WellFormed(c) && Family(op) == 8
    ensures Sound(c, r)
  {
    var x, y, v := X(op), Y(op), c.v;
    match N(op)
    case 0x0 => (c.(v := v[x := v[y]]), OK)
    case 0x1 => (c.(v := v[x := Or8(v[x], v[y])]), OK)
    case 0x2 => (c.(v := v[x := And8(v[x], v[y])]), OK)
    case 0x3 => (c.(v := v[x := Xor8(v[x], v[y])]), OK)
    case 0x4 =>
      var w := v[0xF := if v[x] > 0xFF - v[y] then 1 else 0];
      (c.(v := w[x := (w[x] as int + w[y]) % 0x100]), OK)
    case 0x5 =>
      var w := v[0xF := if v[x] > v[y] then 1 else 0];
      (c.(v := w[x := (w[x] as int - w[y]) % 0x100]), OK)
    case 0x6 =>
      var w := v[0xF := v[x] % 2];
      (c.(v := w[x := w[x] / 2]), OK)
    case 0x7 =>
      // As written: the flag tests v[x] > v[y], the textbook SUBN tests v[y] > v[x].
      var w := v[0xF := if v[x] > v[y] then 1 else 0];
      (c.(v := w[x := (w[y] as int - w[x]) % 0x100]), OK)
    case 0xE =>
      var w := v[0xF := v[x] / 0x80];
      (c.(v := w[x := (w[x] as int * 2) % 0x100]), OK)
    case _ => (c, UnknownOpcodeError)
  }

  /** `Ex9E` / `ExA1`: skip if key v[x] is / is not pressed. */
  function ExecKeySkip(c: Core, op: word): (r: (Core, Status))
    requires WellFormed(c) && Defined(c, op) && Family(op) == 0xE
    ensures Sound(c, r)
  {
    var x := X(op);
    if Kk(op) == 0x9E then (if c.keys[c.v[x]] then Skip(c) else c, OK)
    else if Kk(op) == 0xA1 then (if !c.keys[c.v[x]] then Skip(c) else c, OK)
    else (c, UnknownOpcodeError)
  }

  /** `Fxkk`: timers, key wait, index register and memory transfers. */
  function ExecMisc(c: Core, op: word): (r: (Core, Status))
    requires WellFormed(c) && Defined(c, op) && Family(op) == 0xF
    ensures Sound(c, r)
  {
    var x := X(op);
    match Kk(op)
    case 0x07 => (c.(v := c.v[x := c.delayTimer]), OK)
    case 0x0A => (c.(waiting := true, waitIndex := x), OK)
    case 0x15 => (c.(delayTimer := c.v[x]), OK)
    case 0x18 => (c.(soundTimer := c.v[x]), OK)
    // As written: `i & v[x]`; the textbook ADD I, Vx is `i + v[x]`.
    case 0x1E => (c.(i := And16(c.i, c.v[x])), OK)
    case 0x29 => (c.(i := 5 * c.v[x] as int), OK)
    case 0x33 => (StoreBcd(c, x), OK)
    case 0x55 => (StoreRegisters(c, x), OK)
    case 0x65 => (LoadRegisters(c, x), OK)
    case _ => (c, UnknownOpcodeError)
  }

  /**
   * `execute`: one instruction, the pc already advanced past it. A fault
   * (unknown opcode, full stack) changes nothing.
   */
  function Exec(c: Core, op: word, rnd: byte): (r: (Core, Status))
    requires WellFormed(c) && Defined(c, op)
    ensures Sound(c, r)
  {
    var x, y, kk, nnn := X(op), Y(op), Kk(op), Nnn(op);
    match Family(op)
    case 0x0 => ExecSystem(c, op)
    case 0x1 => (c.(pc := nnn), OK)
    case 0x2 => ExecCall(c, op)
    case 0x3 => (if c.v[x] == kk then Skip(c) else c, OK)
    case 0x4 => (if c.v[x] != kk then Skip(c) else c, OK)
    // As in the C switch, only the top nibble is tested for 5xy0 and 9xy0.
    case 0x5 => (if c.v[x] == c.v[y] then Skip(c) else c, OK)
    case 0x6 => (c.(v := c.v[x := kk]), OK)
    case 0x7 => (c.(v := c.v[x := (c.v[x] as int + kk) % 0x100]), OK)
    case 0x8 => ExecAlu(c, op)
    case 0x9 => (if c.v[x] != c.v[y] then Skip(c) else c, OK)
    case 0xA => (c.(i := nnn), OK)
    case 0xB => (c.(pc := nnn as int + c.v[0]), OK)
    case 0xC => (c.(v := c.v[x := And8(rnd, kk)]), OK)
    case 0xD => (Draw(c, x, y, N(op)), OK)
    case 0xE => ExecKeySkip(c, op)
    case _ => ExecMisc(c, op)
  }
}
