/**
 * What the instructions of apps/chip8/vm.c:81-241 promise, proved about
 * the decoder `Decoder.Exec`.
 */
module DecoderProperties {
  import opened Chip8Types
  import opened Decoder
  import Sprite

  /** An 8xyk opcode whose flag is not its target or operand. */
  predicate AluOn(op: word, k: nat)
  {
    Family(op) == 8 && N(op) == k && X(op) != 0xF && Y(op) != 0xF
  }

  // ---------------------------------------------------------------------------
  // Which opcodes are decoded, and which statuses they give

  /** The opcode patterns the decoder knows, written as masks. */
  predicate Decoded(op: word)
  {
    || op == 0x00E0 || op == 0x00EE
    || (0x1 <= Family(op) <= 0x7) || (0x9 <= Family(op) <= 0xD)
    || (Family(op) == 0x8 && (N(op) <= 0x7 || N(op) == 0xE))
    || (Family(op) == 0xE && (Kk(op) == 0x9E || Kk(op) == 0xA1))
    || (Family(op) == 0xF && Kk(op) in {0x07, 0x0A, 0x15, 0x18, 0x1E, 0x29, 0x33, 0x55, 0x65})
  }

  /** An opcode faults as unknown exactly when it is not decoded, and as a
      stack overflow exactly when it is a CALL on a full stack. */
  lemma {:induction false} ExecStatus(c: Core, op: word, rnd: byte)
    requires WellFormed(c) && Defined(c, op)
    ensures Exec(c, op, rnd).1 == UnknownOpcodeError <==> !Decoded(op)
    ensures Exec(c, op, rnd).1 == StackOverflowError <==> Family(op) == 2 && c.sp == STACK_SIZE
  {
    var f := Family(op);
    if f == 0 {
    } else if f == 8 {
      assert Exec(c, op, rnd) == ExecAlu(c, op);
    } else if f == 0xE {
    } else if f == 0xF {
      assert Exec(c, op, rnd) == ExecMisc(c, op);
    }
  }

  // ---------------------------------------------------------------------------
  // Arithmetic and logic (8xyk)

  /** 8xy4: sum mod 256, v[F] = 1 iff the unsigned sum carries. */
  lemma {:induction false} AddSetsCarry(c: Core, op: word, rnd: byte)
    requires WellFormed(c) && AluOn(op, 4)
    ensures var r, x, y := Exec(c, op, rnd), X(op), Y(op);
      && r.1 == OK
      && r.0.v[x] == (c.v[x] as int + c.v[y]) % 0x100
      && r.0.v[0xF] == (if c.v[x] as int + c.v[y] > 0xFF then 1 else 0)
      && (forall j :: 0 <= j < NUM_REGISTERS && j != x && j != 0xF ==> r.0.v[j] == c.v[j])
      && r.0 == c.(v := r.0.v)
  {
    assert Exec(c, op, rnd) == ExecAlu(c, op);
  }

  /** 8xy5: difference mod 256, v[F] = 1 iff v[x] > v[y] (no borrow). */
  lemma {:induction false} SubSetsNoBorrow(c: Core, op: word, rnd: byte)
    requires WellFormed(c) && AluOn(op, 5)
    ensures var r, x, y := Exec(c, op, rnd), X(op), Y(op);
      && r.1 == OK
      && r.0.v[x] == (c.v[x] as int - c.v[y]) % 0x100
      && r.0.v[0xF] == (if c.v[x] > c.v[y] then 1 else 0)
      && (forall j :: 0 <= j < NUM_REGISTERS && j != x && j != 0xF ==> r.0.v[j] == c.v[j])
      && r.0 == c.(v := r.0.v)
  {
    assert Exec(c, op, rnd) == ExecAlu(c, op);
  }

  /** 8xy7 as written: v[x] = v[y] - v[x] mod 256, but v[F] = 1 iff v[x] > v[y],
      which is exactly when that subtraction borrows. */
  lemma {:induction false} SubnFlagAsWritten(c: Core, op: word, rnd: byte)
    requires WellFormed(c) && AluOn(op, 7)
    ensures var r, x, y := Exec(c, op, rnd), X(op), Y(op);
      && r.1 == OK
      && r.0.v[x] == (c.v[y] as int - c.v[x]) % 0x100
      && r.0.v[0xF] == (if c.v[x] > c.v[y] then 1 else 0)
      && (r.0.v[0xF] == 1 <==> c.v[y] as int - c.v[x] < 0)
      && (forall j :: 0 <= j < NUM_REGISTERS && j != x && j != 0xF ==> r.0.v[j] == c.v[j])
      && r.0 == c.(v := r.0.v)
  {
    assert Exec(c, op, rnd) == ExecAlu(c, op);
  }

  /** 8xy6 and 8xyE: the bit shifted out goes to v[F]. */
  lemma {:induction false} ShiftsSetShiftedOutBit(c: Core, op: word, rnd: byte)
    requires WellFormed(c) && Family(op) == 8 && (N(op) == 6 || N(op) == 0xE) && X(op) != 0xF
    ensures var r, x := Exec(c, op, rnd), X(op);
      && r.1 == OK
      && (N(op) == 6 ==> r.0.v[0xF] == c.v[x] % 2 && r.0.v[x] as int * 2 + r.0.v[0xF] == c.v[x])
      && (N(op) == 0xE ==> r.0.v[0xF] == c.v[x] / 0x80 && r.0.v[0xF] as int * 0x100 + r.0.v[x] == c.v[x] as int * 2)
      && (forall j :: 0 <= j < NUM_REGISTERS && j != x && j != 0xF ==> r.0.v[j] == c.v[j])
      && r.0 == c.(v := r.0.v)
  {
    var x, w := X(op), Exec(c, op, rnd).0.v;
    assert Exec(c, op, rnd) == ExecAlu(c, op);
    if N(op) == 6 {
      assert w[0xF] == c.v[x] % 2 && w[x] == c.v[x] / 2;
    } else {
      assert w[0xF] == c.v[x] / 0x80 && w[x] == (c.v[x] as int * 2) % 0x100;
    }
  }

  /** The flag-setting 8xyk: ADD, SUB, SHR, SUBN and SHL. */
  predicate FlagSetting(op: word)
  {
    Family(op) == 8 && N(op) in {4, 5, 6, 7, 0xE}
  }

  /** The flag a flag-setting 8xyk computes from a = v[x] and b = v[y]. */
  function AluFlag(k: nat, a: byte, b: byte): byte
  {
    if k == 4 then (if a as int + b > 0xFF then 1 else 0)
    else if k == 5 || k == 7 then (if a > b then 1 else 0)
    else if k == 6 then a % 2
    else a / 0x80
  }

  /** The result it stores in v[x], from a = v[x] and b = v[y]. */
  function AluResult(k: nat, a: byte, b: byte): byte
  {
    if k == 4 then (a as int + b) % 0x100
    else if k == 5 then (a as int - b) % 0x100
    else if k == 7 then (b as int - a) % 0x100
    else if k == 6 then a / 2
    else (a as int * 2) % 0x100
  }

  /** Every flag-setting 8xyk, for every x and y including F, is two
      assignments in order: v[F] := the flag of the old registers, then
      v[x] := the result of the registers as that first write left them. */
  lemma {:induction false} FlagWrittenFirst(c: Core, op: word, rnd: byte)
    requires WellFormed(c) && FlagSetting(op)
    ensures var x, y := X(op), Y(op);
      var w := c.v[0xF := AluFlag(N(op), c.v[x], c.v[y])];
      Exec(c, op, rnd) == (c.(v := w[x := AluResult(N(op), w[x], w[y])]), OK)
  {
    assert Exec(c, op, rnd) == ExecAlu(c, op);
  }

  /** With x = F the flag is overwritten by the result, which is computed
      from the flag: 8Fy4 leaves (carry + v[y]) mod 256 in v[F], 8Fy6 always
      leaves 0 and 8FyE leaves 0 or 2. */
  lemma {:induction false} FlagTargetIsOverwritten(c: Core, op: word, rnd: byte)
    requires WellFormed(c) && FlagSetting(op) && X(op) == 0xF
    ensures var r, y, k := Exec(c, op, rnd), Y(op), N(op);
      var f := AluFlag(k, c.v[0xF], c.v[y]);
      && r.1 == OK
      && r.0.v[0xF] == AluResult(k, f, if y == 0xF then f else c.v[y])
      && (k == 4 && y != 0xF ==> r.0.v[0xF] == (f as int + c.v[y]) % 0x100)
      && (k == 6 ==> r.0.v[0xF] == 0)
      && (k == 0xE ==> r.0.v[0xF] == 2 * (c.v[0xF] / 0x80))
      && (forall j :: 0 <= j < 0xF ==> r.0.v[j] == c.v[j])
      && r.0 == c.(v := r.0.v)
  {
    FlagWrittenFirst(c, op, rnd);
  }

  /** With y = F (and x another register) the operand is the new flag, not
      the old v[F]: 8xF4 adds its own carry, v[x] + (v[x] + v[F] > 255). */
  lemma {:induction false} FlagOperandIsNew(c: Core, op: word, rnd: byte)
    requires WellFormed(c) && FlagSetting(op) && Y(op) == 0xF && X(op) != 0xF
    ensures var r, x, k := Exec(c, op, rnd), X(op), N(op);
      var f := AluFlag(k, c.v[x], c.v[0xF]);
      && r.1 == OK
      && r.0.v[0xF] == f
      && r.0.v[x] == AluResult(k, c.v[x], f)
      && (k == 4 ==> r.0.v[x] == (c.v[x] as int + (if c.v[x] as int + c.v[0xF] > 0xFF then 1 else 0)) % 0x100)
      && (forall j :: 0 <= j < NUM_REGISTERS && j != x && j != 0xF ==> r.0.v[j] == c.v[j])
      && r.0 == c.(v := r.0.v)
  {
    FlagWrittenFirst(c, op, rnd);
  }

  /** 8xy1..8xy3 leave v[F] alone (unless it is the target). */
  lemma {:induction false} LogicLeavesFlag(c: Core, op: word, rnd: byte)
    requires WellFormed(c) && Family(op) == 8 && 1 <= N(op) <= 3 && X(op) != 0xF
    ensures Exec(c, op, rnd).0.v[0xF] == c.v[0xF]
  {
    assert Exec(c, op, rnd) == ExecAlu(c, op);
  }

  // ---------------------------------------------------------------------------
  // Calls and returns

  /** 2nnn on a stack with room pushes the current pc and jumps. */
  lemma {:induction false} CallPushes(c: Core, op: word, rnd: byte)
    requires WellFormed(c) && Family(op) == 2 && c.sp < STACK_SIZE
    ensures var r := Exec(c, op, rnd);
      && r.1 == OK && r.0.sp == c.sp + 1 && r.0.pc == Nnn(op)
      && r.0.stack[c.sp] == c.pc
      && (forall j :: 0 <= j < STACK_SIZE && j != c.sp ==> r.0.stack[j] == c.stack[j])
  {
    assert Exec(c, op, rnd) == ExecCall(c, op);
  }

  /** A CALL followed by a RET comes back to the pc and sp before the call. */
  lemma {:induction false} CallThenReturn(c: Core, op: word, rnd: byte)
    requires WellFormed(c) && Family(op) == 2 && c.sp < STACK_SIZE
    ensures var called := Exec(c, op, rnd).0;
      && Defined(called, 0x00EE)
      && Exec(called, 0x00EE, rnd).1 == OK
      && Exec(called, 0x00EE, rnd).0.pc == c.pc
      && Exec(called, 0x00EE, rnd).0.sp == c.sp
  {
    CallPushes(c, op, rnd);
    var called := Exec(c, op, rnd).0;
    assert Exec(called, 0x00EE, rnd) == ExecSystem(called, 0x00EE);
  }

  /** The stack discipline the full-stack guard of 2nnn keeps: only a CALL
      with room raises sp, by one; a CALL on a full stack faults and changes
      nothing; only a RET lowers sp, by one; every other opcode leaves sp
      and the stack alone. */
  lemma {:induction false} StackDiscipline(c: Core, op: word, rnd: byte)
    requires WellFormed(c) && Defined(c, op)
    ensures var r := Exec(c, op, rnd);
      && (Family(op) == 2 && c.sp < STACK_SIZE ==> r.1 == OK && r.0.sp == c.sp + 1)
      && (Family(op) == 2 && c.sp == STACK_SIZE ==> r.1 == StackOverflowError && r.0 == c)
      && (op == 0x00EE ==> r.1 == OK && r.0.sp == c.sp - 1 && r.0.stack == c.stack)
      && (Family(op) != 2 && op != 0x00EE ==> r.0.sp == c.sp && r.0.stack == c.stack)
  {
    var f := Family(op);
    if f == 0 {
      assert Exec(c, op, rnd) == ExecSystem(c, op);
    } else if f == 2 {
      assert Exec(c, op, rnd) == ExecCall(c, op);
    } else if f == 8 {
      assert Exec(c, op, rnd) == ExecAlu(c, op);
    } else if f == 0xE {
      assert Exec(c, op, rnd) == ExecKeySkip(c, op);
    } else if f == 0xF {
      MiscKeepsStack(c, op);
    }
  }

  lemma {:induction false} MiscKeepsStack(c: Core, op: word)
    requires WellFormed(c) && Defined(c, op) && Family(op) == 0xF
    ensures ExecMisc(c, op).0.sp == c.sp && ExecMisc(c, op).0.stack == c.stack
  {
  }

  /** 00E0 turns every pixel off and requests a redraw; nothing else changes. */
  lemma {:induction false} ClearTurnsPixelsOff(c: Core, rnd: byte)
    requires WellFormed(c)
    ensures Defined(c, 0x00E0)
    ensures var r := Exec(c, 0x00E0, rnd);
      && r.1 == OK && r.0.drawPending
      && (forall k :: 0 <= k < SCREEN_CELLS ==> !r.0.screen[k])
      && r.0 == c.(screen := r.0.screen, drawPending := true)
  {
    assert Exec(c, 0x00E0, rnd) == ExecSystem(c, 0x00E0);
  }

  // ---------------------------------------------------------------------------
  // Drawing

  /** A Dxyn opcode whose registers can be addressed. */
  predicate DrawOn(c: Core, op: word)
    requires WellFormed(c)
  {
    Family(op) == 0xD && c.i + N(op) <= MEMORY_SIZE
  }

  /** The sprite cell (col, row) of a Dxyn in state c, and its sampled bit. */
  function DrawCell(c: Core, op: word, col: nat, row: nat): nat
    requires WellFormed(c)
  {
    Sprite.Cell(c.v[X(op)], c.v[Y(op)], col, row)
  }

  predicate DrawBit(c: Core, op: word, col: nat, row: nat)
    requires WellFormed(c) && DrawOn(c, op) && col < 8 && row < N(op)
  {
    Sprite.SpriteBit(c.memory[c.i + row], col)
  }

  /** Dxyn: every one of the 8 x n sprite cells is XOR-ed with its sampled bit. */
  lemma {:induction false} DrawFlipsCells(c: Core, op: word, rnd: byte)
    requires WellFormed(c) && DrawOn(c, op)
    ensures forall col: nat, row: nat :: col < 8 && row < N(op) ==>
      Exec(c, op, rnd).0.screen[DrawCell(c, op, col, row)]
        == (c.screen[DrawCell(c, op, col, row)] != DrawBit(c, op, col, row))
  {
    var rows := c.memory[c.i .. c.i + N(op)];
    assert Exec(c, op, rnd).0 == Draw(c, X(op), Y(op), N(op));
    forall col: nat, row: nat | col < 8 && row < N(op)
      ensures Exec(c, op, rnd).0.screen[DrawCell(c, op, col, row)]
           == (c.screen[DrawCell(c, op, col, row)] != DrawBit(c, op, col, row))
    {
      Sprite.DrawFlipsSpriteCells(c.screen, rows, c.v[X(op)], c.v[Y(op)], col, row);
    }
  }

  /** Cell k is none of the 8 x n cells a Dxyn covers. */
  predicate Untouched(c: Core, op: word, k: nat)
    requires WellFormed(c)
  {
    forall col: nat, row: nat :: col < 8 && row < N(op) ==> k != DrawCell(c, op, col, row)
  }

  /** Dxyn: every other cell keeps its value, and a redraw is requested. */
  lemma {:induction false} DrawKeepsCells(c: Core, op: word, rnd: byte)
    requires WellFormed(c) && DrawOn(c, op)
    ensures forall k :: 0 <= k < SCREEN_CELLS && Untouched(c, op, k) ==> Exec(c, op, rnd).0.screen[k] == c.screen[k]
    ensures Exec(c, op, rnd).0.drawPending
  {
    var rows := c.memory[c.i .. c.i + N(op)];
    assert Exec(c, op, rnd).0 == Draw(c, X(op), Y(op), N(op));
    forall k | 0 <= k < SCREEN_CELLS && Untouched(c, op, k)
      ensures Exec(c, op, rnd).0.screen[k] == c.screen[k]
    {
      forall col: nat, row: nat | col < 8 && row < |rows|
        ensures k != Sprite.Cell(c.v[X(op)], c.v[Y(op)], col, row)
      {
        assert k != DrawCell(c, op, col, row);
      }
      Sprite.DrawKeepsOtherCells(c.screen, rows, c.v[X(op)], c.v[Y(op)], k);
    }
  }

  /** Dxyn: v[F] = 1 iff some sampled bit was set on a cell that was already on. */
  lemma {:induction false} DrawReportsCollision(c: Core, op: word, rnd: byte)
    requires WellFormed(c) && DrawOn(c, op)
    ensures Exec(c, op, rnd).0.v[0xF] == 1 <==>
      exists col: nat, row: nat :: col < 8 && row < N(op) && c.screen[DrawCell(c, op, col, row)] && DrawBit(c, op, col, row)
    ensures Exec(c, op, rnd).0.v[0xF] <= 1
  {
    var rows := c.memory[c.i .. c.i + N(op)];
    assert Exec(c, op, rnd).0 == Draw(c, X(op), Y(op), N(op));
    if Sprite.Collides(c.screen, rows, c.v[X(op)], c.v[Y(op)]) {
      var col: nat, row: nat :| col < 8 && row < |rows|
        && c.screen[Sprite.Cell(c.v[X(op)], c.v[Y(op)], col, row)] && Sprite.SpriteBit(rows[row], col);
      assert rows[row] == c.memory[c.i + row];
      assert c.screen[DrawCell(c, op, col, row)] && DrawBit(c, op, col, row);
    } else {
      forall col: nat, row: nat | col < 8 && row < N(op)
        ensures !(c.screen[DrawCell(c, op, col, row)] && DrawBit(c, op, col, row))
      {
        assert rows[row] == c.memory[c.i + row];
      }
    }
  }

  /** Executing the same Dxyn twice (x, y other than F) restores the screen. */
  lemma {:induction false} DrawTwiceRestoresScreen(c: Core, op: word, rnd: byte)
    requires WellFormed(c) && Defined(c, op) && Family(op) == 0xD && X(op) != 0xF && Y(op) != 0xF
    ensures var once := Exec(c, op, rnd).0;
      Defined(once, op) && Exec(once, op, rnd).0.screen == c.screen
  {
    var once := Exec(c, op, rnd).0;
    ExecDraw(c, op, rnd);
    assert once.v[X(op)] == c.v[X(op)] && once.v[Y(op)] == c.v[Y(op)];
    ExecDraw(once, op, rnd);
    Sprite.DrawTwiceRestores(c.screen, c.memory[c.i .. c.i + N(op)], c.v[X(op)], c.v[Y(op)]);
  }

  /** A Dxyn opcode executes as Draw. */
  lemma ExecDraw(c: Core, op: word, rnd: byte)
    requires WellFormed(c) && Family(op) == 0xD && c.i + N(op) <= MEMORY_SIZE
    ensures Defined(c, op) && Exec(c, op, rnd) == (Draw(c, X(op), Y(op), N(op)), OK)
  {
  }

  // ---------------------------------------------------------------------------
  // Memory transfers

  /** An Fxkk opcode. */
  predicate MiscOn(op: word, kk: byte)
  {
    Family(op) == 0xF && Kk(op) == kk
  }

  /** Fx33: three decimal digits of v[x] at i, i+1, i+2; nothing else changes. */
  lemma {:induction false} BcdDigits(c: Core, op: word, rnd: byte)
    requires WellFormed(c) && MiscOn(op, 0x33) && c.i + 2 < MEMORY_SIZE
    ensures var r := Exec(c, op, rnd).0;
      var a, b, d := r.memory[c.i], r.memory[c.i + 1], r.memory[c.i + 2];
      && a <= 9 && b <= 9 && d <= 9
      && 100 * a + 10 * b + d == c.v[X(op)]
      && (forall k :: 0 <= k < MEMORY_SIZE && !(c.i <= k <= c.i + 2) ==> r.memory[k] == c.memory[k])
      && r == c.(memory := r.memory)
  {
    assert Exec(c, op, rnd) == ExecMisc(c, op);
    assert Exec(c, op, rnd).0 == StoreBcd(c, X(op));
  }

  /** Fx55 copies v[0..x] to memory[i..i+x] and changes nothing else. */
  lemma {:induction false} StoreCopiesRegisters(c: Core, op: word, rnd: byte)
    requires WellFormed(c) && MiscOn(op, 0x55) && c.i + X(op) < MEMORY_SIZE
    ensures var r := Exec(c, op, rnd).0;
      && (forall j :: 0 <= j <= X(op) ==> r.memory[c.i + j] == c.v[j])
      && (forall k :: 0 <= k < MEMORY_SIZE && !(c.i <= k <= c.i + X(op)) ==> r.memory[k] == c.memory[k])
      && r == c.(memory := r.memory)
  {
    assert Exec(c, op, rnd) == ExecMisc(c, op);
    assert Exec(c, op, rnd).0 == StoreRegisters(c, X(op));
  }

  /** Fx65 copies memory[i..i+x] to v[0..x] and changes nothing else. */
  lemma {:induction false} LoadCopiesMemory(c: Core, op: word, rnd: byte)
    requires WellFormed(c) && MiscOn(op, 0x65) && c.i + X(op) < MEMORY_SIZE
    ensures var r := Exec(c, op, rnd).0;
      && (forall j :: 0 <= j <= X(op) ==> r.v[j] == c.memory[c.i + j])
      && (forall j :: X(op) < j < NUM_REGISTERS ==> r.v[j] == c.v[j])
      && r == c.(v := r.v)
  {
    assert Exec(c, op, rnd) == ExecMisc(c, op);
    assert Exec(c, op, rnd).0 == LoadRegisters(c, X(op));
  }

  /** Fx55 then Fx65 over the same registers gives the state after the store back. */
  lemma {:induction false} StoreThenLoad(c: Core, store: word, load: word, rnd: byte)
    requires WellFormed(c) && MiscOn(store, 0x55) && MiscOn(load, 0x65) && X(store) == X(load)
    requires c.i + X(store) < MEMORY_SIZE
    ensures var stored := Exec(c, store, rnd).0;
      Defined(stored, load) && Exec(stored, load, rnd).0 == stored
  {
    var stored := Exec(c, store, rnd).0;
    StoreCopiesRegisters(c, store, rnd);
    LoadCopiesMemory(stored, load, rnd);
    var loaded := Exec(stored, load, rnd).0;
    assert loaded.v == stored.v;
  }

  /** Fx65 then Fx55 over the same registers leaves memory as it was. */
  lemma {:induction false} LoadThenStore(c: Core, load: word, store: word, rnd: byte)
    requires WellFormed(c) && MiscOn(store, 0x55) && MiscOn(load, 0x65) && X(store) == X(load)
    requires c.i + X(store) < MEMORY_SIZE
    ensures var loaded := Exec(c, load, rnd).0;
      Defined(loaded, store) && Exec(loaded, store, rnd).0.memory == c.memory
  {
    var loaded := Exec(c, load, rnd).0;
    LoadCopiesMemory(c, load, rnd);
    StoreCopiesRegisters(loaded, store, rnd);
    var stored := Exec(loaded, store, rnd).0;
    assert stored.memory == c.memory;
  }

  /** Fx1E as written: `i & v[x]`, so a zero v[x] clears i instead of keeping it. */
  lemma {:induction false} IndexAddAsWritten(c: Core, op: word, rnd: byte)
    requires WellFormed(c) && MiscOn(op, 0x1E)
    ensures var r := Exec(c, op, rnd);
      && r.1 == OK && r.0.i == And16(c.i, c.v[X(op)])
      && r.0 == c.(i := r.0.i)
    ensures c.v[X(op)] == 0 ==> Exec(c, op, rnd).0.i == 0
  {
    assert Exec(c, op, rnd) == ExecMisc(c, op);
  }
}
