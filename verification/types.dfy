/**
 * Sizes, rates, integer widths and status codes shared by the CHIP-8 virtual
 * machine (apps/chip8/vm.h, apps/chip8/vm.c and the older apps/chip8/chip8.c).
 */
module Chip8Types {

  /** Address of the first program byte. */
  const PROG_START: nat := 0x200
  /** Bytes of addressable memory. */
  const MEMORY_SIZE: nat := 0x1000
  /** Number of return-address slots; `sp` may reach this value but never exceed it. */
  const STACK_SIZE: nat := 0xFF
  const SCREEN_WIDTH: nat := 64
  const SCREEN_HEIGHT: nat := 32
  /** Pixels of the screen, stored column-major as in `bool screen[64][32]`. */
  const SCREEN_CELLS: nat := SCREEN_WIDTH * SCREEN_HEIGHT
  const NUM_REGISTERS: nat := 0x10
  const NUM_KEYS: nat := 0x10
  /** Length of the built-in hexadecimal font (16 glyphs of 5 rows). */
  const FONT_SIZE: nat := 5 * 16

  /** CPU speed in Hz, and the derived periods in ms (C integer division). */
  const CPU_TICKS_PER_SEC: nat := 500
  const TIMER_TICKS_PER_SEC: nat := 60
  const MS_PER_CPU_TICK: nat := 1000 / CPU_TICKS_PER_SEC
  const MS_PER_TIMER_TICK: nat := 1000 / TIMER_TICKS_PER_SEC

  /** The C integer types of the VM record. */
  type byte = b: int | 0 <= b < 0x100
  type word = w: int | 0 <= w < 0x1_0000
  type u32 = n: int | 0 <= n < 0x1_0000_0000
  type u64 = n: int | 0 <= n < 0x1_0000_0000_0000_0000

  /** `Chip8Status`, in the order of its C declaration. */
  datatype Status =
    | OK
    | FileError
    | UnknownOpcodeError
    | StackOverflowError
    | UninitializedVM

  /** `is_error`: every status but OK is an error. */
  function IsError(s: Status): (r: bool)
    ensures r <==> s != OK
  {
    match s
    case OK => false
    case _ => true
  }

  /** The constants fit together: the program area lies inside memory, and
      the derived tick periods are 2 ms and 16 ms (so the timers really run
      at 62.5 Hz, not 60 Hz). */
  lemma LayoutAndRates()
    ensures PROG_START < MEMORY_SIZE && FONT_SIZE <= PROG_START
    ensures SCREEN_CELLS == 2048 && STACK_SIZE < 0x100
    ensures MS_PER_CPU_TICK == 2 && MS_PER_TIMER_TICK == 16
  {}

  /** Bitwise operators of C on bytes and words. */
  function Or8(a: byte, b: byte): byte { ((a as bv8) | (b as bv8)) as int }
  function And8(a: byte, b: byte): byte { ((a as bv8) & (b as bv8)) as int }
  function Xor8(a: byte, b: byte): byte { ((a as bv8) ^ (b as bv8)) as int }
  /** `word & byte`, the byte zero-extended. */
  function And16(a: word, b: byte): word { ((a as bv16) & (b as bv16)) as int }

  /** `HEX_DIGITS`: the 5-row glyphs of 0..F. */
  const HEX_DIGITS: seq<byte> := [
    0xF0, 0x90, 0x90, 0x90, 0xF0, // 0
    0x20, 0x60, 0x20, 0x20, 0x70, // 1
    0xF0, 0x10, 0xF0, 0x80, 0xF0, // 2
    0xF0, 0x10, 0xF0, 0x10, 0xF0, // 3
    0x90, 0x90, 0xF0, 0x10, 0x10, // 4
    0xF0, 0x80, 0xF0, 0x10, 0xF0, // 5
    0xF0, 0x80, 0xF0, 0x90, 0xF0, // 6
    0xF0, 0x10, 0x20, 0x40, 0x40, // 7
    0xF0, 0x90, 0xF0, 0x90, 0xF0, // 8
    0xF0, 0x90, 0xF0, 0x10, 0xF0, // 9
    0xF0, 0x90, 0xF0, 0x90, 0x90, // A
    0xE0, 0x90, 0xE0, 0x90, 0xE0, // B
    0xF0, 0x80, 0x80, 0x80, 0xF0, // C
    0xE0, 0x90, 0x90, 0x90, 0xE0, // D
    0xF0, 0x80, 0xF0, 0x80, 0xF0, // E
    0xF0, 0x80, 0xF0, 0x80, 0x80  // F
  ]

  lemma FontSize()
    ensures |HEX_DIGITS| == FONT_SIZE
  {}
}
