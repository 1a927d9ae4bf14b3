# CHIP-8 virtual machine of the Flipper Zero CHIP-8 app, in Dafny

This project models the CHIP-8 interpreter of the Flipper Zero CHIP-8
application and proves what its routines promise.

The model covers these parts of the code:

- **The current machine**, `apps/chip8/vm.c` with its record in `apps/chip8/vm.h`:
  - `init` resets the machine;
  - `fetch` reads a big-endian opcode;
  - `execute` decodes one CHIP-8 instruction;
  - `update` is the time-driven scheduler. It turns a millisecond timestamp, measured from an epoch, into 2 ms CPU ticks and 16 ms timer ticks and runs the ticks that are due. It also resolves a pending `Fx0A` key-wait and restarts the epoch when the clock goes backwards.
- **The older machine**, `apps/chip8/chip8.c`: `had_error`, `load`, `tick` and the clock-driven `step`. It decodes the same instruction set, but records a fault in `error_type` instead of returning a status.
- **The button-to-key table** of `apps/chip8-app/button_config.c` and `apps/chip8/game.c`:
  - the fold that turns one button event into a 16-bit key mask;
  - the default table;
  - the table `game_start` sets up;
  - the config file's line format (`"%X -> <name>\n"`) and its parser.

## Structure

| module (file) | contents |
|---|---|
| `Chip8Types` (types.dfy) | Sizes, rates, integer widths, `Chip8Status`, `HEX_DIGITS`. |
| `Sprite` (sprite.dfy) | The `Dxyn` sprite draw as a function of screen, sprite rows and position, and the loop's partial states. |
| `Decoder` (decoder.dfy) | The value datatype `Core` (the part of the VM record that `execute` touches) and `Exec`, the semantics of `execute` as a pure function. |
| `Machine` (machine.dfy) | Class `Cpu` holds that record with its arrays. Its methods are `clear_display`, `fetch`, `execute` (one method per inner switch), the reset of `init`/`load`, and the key-wait resolution. Each is proved equal to the value semantics through `Abs()`. |
| `Chip8Vm` (vm.dfy) | Class `VM` of `vm.c`, with its `init`, `reset_time` and `update` and their value semantics. |
| `Chip8Legacy` (legacy.dfy) | Class `LegacyVM` of `chip8.c`, with its `had_error`, `load`, `tick` and `step`. |
| `KeyMap` (keymap.dfy) | Class `InputKeyMap`, the `bool [InputKeyMAX][VM_NUM_KEYS]` table, with connect, map-to-keys, the default table and the game table. |
| `ButtonConfig` (button_config.dfy) | The config file's line format, its parser, and the read and write loops. |
| `*Properties` | Lemmas that state what the routines promise. |

### How the C code is represented

- Unchecked array accesses:
  - Inside `execute`, these become the precondition `Decoder.Defined`:
    - `sp > 0` for `00EE`;
    - `v[x] < 16` for `Ex9E`/`ExA1`;
    - `i + n <= 0x1000` for `Dxyn`;
    - `i + 2 < 0x1000` for `Fx33`;
    - `i + x < 0x1000` for `Fx55`/`Fx65`.
  - `fetch` requires `pc + 1 < 0x1000`.
  - The schedulers run arbitrary programs, so they check these conditions before each instruction. Where the C code would leave its arrays, they stop and report it in the out-parameter `outOfBounds`.
- Fixed-width arithmetic is written out:
  - bytes and words wrap modulo 256 and 65536;
  - `step` compares its clock difference as a `uint64_t`.

### Deviations from the textbook instruction set

The model keeps these deviations as they are written in the code:

| deviation | where the model states it |
|---|---|
| `Fx1E` computes `i & v[x]` | `IndexAddAsWritten` |
| `Dxyn` samples bit `8 - col`, so column 0 is never drawn and bit 0 is never read | `Sprite.SpriteBit`, `ColumnZeroIsBlank` |
| the `8xy7` flag tests `v[x] > v[y]` | `SubnFlagAsWritten` |
| `00EE` has no underflow check | — |
| the flag of a flag-setting `8xyk` is written before the result, so with x = F the result replaces it and with y = F it is the operand | `FlagWrittenFirst`, `FlagTargetIsOverwritten`, `FlagOperandIsNew` |
| `init` zeroes the program area | `InitFacts` |
| `update` keeps running instructions after an `Fx0A` in the same call | `RunCpu` ignores the wait flag |
| timers are frozen while a key-wait is pending | `PendingWaitIsIdle`, `StepPendingWaitIsIdle`, `WaitingFreezes`, `StepWhileWaiting` |
| the config parser never reads back a line saved for the Back button | `BackLineIgnored`, `BackIsLost` |

## Model

| member | source | states |
|---|---|---|
| Chip8Types.IsError | apps/chip8/vm.c:249-251 | `is_error` holds exactly for the statuses other than OK |
| Chip8Types.LayoutAndRates | apps/chip8/vm.h:6-11 | the program area lies inside memory above the font; the screen has 2048 cells; 500 Hz and 60 Hz give 2 ms and 16 ms ticks by integer division |
| Chip8Types.FontSize | apps/chip8/vm.c:14-31 | the font is 16 glyphs of 5 bytes |
| Sprite.Cell | apps/chip8/vm.c:176-177 | a sprite cell wrapped onto the 64x32 screen is a valid screen index |
| Sprite.ColumnZeroIsBlank | apps/chip8/vm.c:178 | as written, sprite column 0 tests bit 8, which no byte has |
| Sprite.DrawFlipsSpriteCells | apps/chip8/vm.c:176-180 | each of the 8 x n wrapped sprite cells becomes its old value XOR its sampled bit |
| Sprite.DrawKeepsOtherCells | apps/chip8/vm.c:174-182 | a screen cell that no sprite cell lands on keeps its value |
| Sprite.DrawTwiceRestores | apps/chip8/vm.c:180 | drawing the same sprite at the same place twice gives back the screen |
| Sprite.RedrawCollides | apps/chip8/vm.c:179 | the second of two identical draws collides exactly where a set bit lands on a cell that was off before the first |
| Sprite.CollidesBeforeMeans | apps/chip8/vm.c:179 | the accumulated collision flag holds iff some cell handled so far is a set bit on a lit cell |
| Sprite.PartialDrawStart | apps/chip8/vm.c:173-174 | before the loop nothing is drawn and nothing has collided |
| Sprite.PartialDrawStep | apps/chip8/vm.c:176-180 | handling one cell XORs its bit into that cell alone and or-s its hit into the flag |
| Sprite.PartialDrawNextColumn | apps/chip8/vm.c:174-175 | the end of one column is the start of the next |
| Sprite.PartialDrawDone | apps/chip8/vm.c:174-183 | after 8 columns the loop has drawn the whole sprite and its flag is the collision predicate |
| Decoder.Join | apps/chip8/vm.c:71-73 | the word's high byte is `hi` and its low byte `lo` |
| Decoder.ExecSystem | apps/chip8/vm.c:89-98 | the 0nnn family is sound: only CLS and RET succeed, any fault changes nothing, keys are only read |
| Decoder.ExecCall | apps/chip8/vm.c:102-108 | CALL is sound: a full stack faults with nothing changed |
| Decoder.ExecAlu | apps/chip8/vm.c:124-159 | the 8xyk family is sound: an unknown k faults with nothing changed |
| Decoder.ExecKeySkip | apps/chip8/vm.c:186-199 | the Exkk family is sound and only reads the keys |
| Decoder.ExecMisc | apps/chip8/vm.c:200-238 | the Fxkk family is sound; a key-wait is only ever started |
| Decoder.Exec | apps/chip8/vm.c:81-241 | every instruction keeps the record well formed, returns OK or one of the two executor faults, changes nothing on a fault and never writes the keys |
| DecoderProperties.ExecStatus | apps/chip8/vm.c:81-241 | an opcode faults as unknown iff it matches no decoded pattern, and as a stack overflow iff it is a CALL on a full stack |
| DecoderProperties.AddSetsCarry | apps/chip8/vm.c:138-141 | 8xy4 gives the sum mod 256, with v[F] = 1 iff v[x] > 255 - v[y] |
| DecoderProperties.SubSetsNoBorrow | apps/chip8/vm.c:142-145 | 8xy5 gives the difference mod 256, with v[F] = 1 iff v[x] > v[y] |
| DecoderProperties.SubnFlagAsWritten | apps/chip8/vm.c:150-153 | as written, 8xy7 gives v[y] - v[x] mod 256 with the flag set iff v[x] > v[y], which is when that subtraction borrows; the other registers and the rest of the record are unchanged |
| DecoderProperties.ShiftsSetShiftedOutBit | apps/chip8/vm.c:146-157 | 8xy6 and 8xyE put the bit shifted out into v[F] and halve or double v[x] mod 256; the other registers and the rest of the record are unchanged |
| DecoderProperties.FlagWrittenFirst | apps/chip8/vm.c:138-157 | every flag-setting 8xyk, for any x and y including F, is v[F] := the flag of the old registers followed by v[x] := the result of the registers after that write |
| DecoderProperties.FlagTargetIsOverwritten | apps/chip8/vm.c:138-157 | with x = F the result, computed from the new flag, replaces it: 8Fy4 leaves (carry + v[y]) mod 256, 8Fy6 always 0, 8FyE 0 or 2; v[0]..v[E] and the rest of the record are unchanged |
| DecoderProperties.FlagOperandIsNew | apps/chip8/vm.c:138-157 | with y = F the operand is the new flag, not the old v[F]: 8xF4 gives v[x] + (v[x] + v[F] > 255) mod 256; the other registers and the rest of the record are unchanged |
| DecoderProperties.LogicLeavesFlag | apps/chip8/vm.c:129-137 | OR, AND and XOR leave v[F] alone unless it is the target |
| DecoderProperties.CallPushes | apps/chip8/vm.c:102-108 | CALL with room pushes the advanced pc at sp, increments sp, jumps to nnn and leaves the other stack slots alone |
| DecoderProperties.CallThenReturn | apps/chip8/vm.c:94-108 | a CALL followed by a RET gives back the pc and sp from before the call |
| DecoderProperties.StackDiscipline | apps/chip8/vm.c:94-108 | only a CALL with sp < STACK_SIZE raises sp, by one; a CALL on a full stack faults and changes nothing; only a RET lowers sp, by one, keeping the stack; every other opcode leaves sp and the stack unchanged |
| DecoderProperties.ClearTurnsPixelsOff | apps/chip8/vm.c:34-41 | CLS turns every pixel off, requests a redraw and changes nothing else |
| DecoderProperties.DrawFlipsCells | apps/chip8/vm.c:172-185 | Dxyn XORs each of its 8 x n wrapped cells with the sampled bit |
| DecoderProperties.DrawKeepsCells | apps/chip8/vm.c:172-185 | Dxyn leaves every other cell alone and sets the redraw flag |
| DecoderProperties.DrawReportsCollision | apps/chip8/vm.c:173-183 | after Dxyn, v[F] is 0 or 1, and it is 1 iff some sampled bit was set on a cell that was already on |
| DecoderProperties.DrawTwiceRestoresScreen | apps/chip8/vm.c:172-185 | running the same Dxyn twice gives back the screen |
| DecoderProperties.ExecDraw | apps/chip8/vm.c:172-185 | a Dxyn inside memory is defined and executes as the declarative draw |
| DecoderProperties.BcdDigits | apps/chip8/vm.c:221-226 | Fx33 writes three digits a, b, c, each at most 9, with 100a + 10b + c = v[x], and changes nothing else |
| DecoderProperties.StoreCopiesRegisters | apps/chip8/vm.c:227-231 | Fx55 copies v[0..x] to memory[i..i+x] and changes nothing else |
| DecoderProperties.LoadCopiesMemory | apps/chip8/vm.c:232-236 | Fx65 copies memory[i..i+x] to v[0..x] and changes nothing else |
| DecoderProperties.StoreThenLoad | apps/chip8/vm.c:227-236 | Fx65 after Fx55 over the same registers leaves the state the store made |
| DecoderProperties.LoadThenStore | apps/chip8/vm.c:227-236 | Fx55 after Fx65 over the same registers leaves memory as it was |
| DecoderProperties.IndexAddAsWritten | apps/chip8/vm.c:215-217 | as written, Fx1E sets i to `i & v[x]`, so a zero v[x] clears i; the status is OK and nothing else changes |
| Machine.Fetched | apps/chip8/vm.c:75-79 | the opcode's high byte is memory[pc] and its low byte memory[pc+1] |
| Machine.LowestPressed | apps/chip8/vm.c:262-268 | the result is a pressed key with no pressed key below it, or 16 when none is pressed |
| Machine.TickCore | apps/chip8/vm.c:274-275 | a fetch and an execute keep the record well formed |
| Machine.Cpu.constructor | apps/chip8/vm.h:24-45 | a record whose arrays have the sizes of the C declaration |
| Machine.Cpu.Abs | apps/chip8/vm.h:24-45 | the record as a value is well formed |
| Machine.Cpu.ClearDisplay | apps/chip8/vm.c:34-41 | the new state is the old one with every pixel off and a redraw pending |
| Machine.Cpu.Fetch | apps/chip8/vm.c:75-79 | returns the big-endian opcode at pc and advances pc by exactly 2 |
| Machine.Cpu.Reset | apps/chip8/vm.c:46-66 | the new state is the reset of `init` (zeroEnd = 0x1000) or of `load` (zeroEnd = 0x200) |
| Machine.Cpu.ClearRegisters | apps/chip8/vm.c:57-61 | every register, stack slot and key flag is zero or false |
| Machine.Cpu.ResetMemory | apps/chip8/vm.c:63-64 | memory is the font, then zeros up to zeroEnd, then its old bytes |
| Machine.Cpu.ResolveKeyWait | apps/chip8/vm.c:261-270 | the new state is the key-wait resolution of the old one |
| Machine.Cpu.DrawSprite | apps/chip8/vm.c:172-185 | the new state is the declarative draw of the old one |
| Machine.Cpu.DrawCells | apps/chip8/vm.c:173-182 | the loop leaves the screen drawn and returns the collision predicate |
| Machine.Cpu.DrawColumn | apps/chip8/vm.c:175-181 | one column of the loop advances the partial draw and flag by n cells |
| Machine.Cpu.DrawPixel | apps/chip8/vm.c:176-180 | one cell of the loop advances the partial draw and flag by one cell |
| Machine.Cpu.FlipCell | apps/chip8/vm.c:179-180 | the hit is the old cell and the bit; the cell is XOR-ed with the bit |
| Machine.Cpu.ExecuteSystem | apps/chip8/vm.c:89-98 | the new state and status are those of ExecSystem |
| Machine.Cpu.ExecuteCall | apps/chip8/vm.c:102-108 | the new state and status are those of ExecCall |
| Machine.Cpu.ExecuteAlu | apps/chip8/vm.c:124-159 | the new state and status are those of ExecAlu |
| Machine.Cpu.ExecuteFlagged | apps/chip8/vm.c:138-157 | the flag-setting 8xyk cases agree with ExecAlu |
| Machine.Cpu.ExecuteKeySkip | apps/chip8/vm.c:186-199 | the new state and status are those of ExecKeySkip |
| Machine.Cpu.StoreRegisterBlock | apps/chip8/vm.c:227-231 | the copy loop of Fx55 leaves the state StoreRegisters describes |
| Machine.Cpu.LoadRegisterBlock | apps/chip8/vm.c:232-236 | the copy loop of Fx65 leaves the state LoadRegisters describes |
| Machine.Cpu.ExecuteMisc | apps/chip8/vm.c:200-238 | the new state and status are those of ExecMisc |
| Machine.Cpu.Execute | apps/chip8/vm.c:81-241 | the new state and status are those of `Exec`, so every property of DecoderProperties holds of the class |
| Machine.Cpu.CheckDefined | apps/chip8/vm.c:81-241 | answers exactly whether the instruction stays inside the C arrays |
| Machine.Cpu.Tick | apps/chip8/vm.c:274-275 | a fetch and an execute, or a report of where the C code would leave its arrays, as TickCore |
| Machine.Cpu.CountDownTimers | apps/chip8/vm.c:286-287 | each nonzero timer goes down by one |
| MachineProperties.ResetLayout | apps/chip8/vm.c:46-66 | the reset fields and the memory layout: font below 80, zeros up to zeroEnd, old bytes after |
| MachineProperties.InitForgetsState | apps/chip8/vm.c:43-69 | two machines are equal after `init` whatever they held before |
| MachineProperties.LoadResetKeepsProgramArea | apps/chip8/chip8.c:104-130 | the reset of `load` keeps the program area and forgets the rest |
| MachineProperties.ResetIdempotent | apps/chip8/vm.c:43-69 | resetting twice is resetting once |
| MachineProperties.WaitStoresLowestKey | apps/chip8/vm.c:261-268 | a key-wait with a key pressed stores the lowest pressed key in the waiting register and ends the wait, nothing else |
| MachineProperties.WaitWithoutKeyIsIdle | apps/chip8/vm.c:269 | a key-wait with no key pressed changes nothing |
| MachineProperties.FetchBigEndian | apps/chip8/vm.c:71-79 | the fetched opcode is `join(memory[pc + 1], memory[pc])`, as `fetch` computes it, so the byte at pc is its high byte |
| Chip8Vm.InitState | apps/chip8/vm.c:43-69 | `init` leaves a record whose tick counters are in range |
| Chip8Vm.RunCpu | apps/chip8/vm.c:273-282 | the CPU loop keeps the record well formed and never lowers the tick count |
| Chip8Vm.RunCpuStep | apps/chip8/vm.c:273-282 | one turn of the CPU loop: it stops when an instruction faults or leaves the arrays, and otherwise continues with one more tick |
| Chip8Vm.DueTickBound | apps/chip8/vm.c:273 | a due CPU tick within a 32-bit delta is below 2^31, so the 64-bit counter does not wrap |
| Chip8Vm.RunTimers | apps/chip8/vm.c:285-291 | the timer loop keeps the record well formed and never lowers the tick count |
| Chip8Vm.UpdateState | apps/chip8/vm.c:253-294 | `update` keeps the record well formed |
| Chip8Vm.UpdateSplits | apps/chip8/vm.c:256-270 | after the clock check, `update` is either the key-wait resolution or the two loops over the delta since the epoch |
| Chip8Vm.CatchUpState | apps/chip8/vm.c:272-291 | the two loops keep the record well formed |
| Chip8Vm.VM.constructor | apps/chip8/vm.h:24-45 | a fresh record with the counters in range |
| Chip8Vm.VM.Init | apps/chip8/vm.c:43-69 | returns OK and leaves the state InitState describes |
| Chip8Vm.VM.ResetTime | apps/chip8/vm.c:243-247 | the epoch is the timestamp and both counters are 0; nothing else changes |
| Chip8Vm.VM.Update | apps/chip8/vm.c:253-294 | the new state, status and out-of-range report are those of UpdateState |
| Chip8Vm.VM.CatchUpTicks | apps/chip8/vm.c:272-291 | the two loops leave what CatchUpState describes |
| Chip8Vm.VM.RunCpuLoop | apps/chip8/vm.c:273-282 | the CPU loop ends where RunCpu ends, with its outcome |
| Chip8Vm.VM.CpuTurn | apps/chip8/vm.c:274-280 | one turn counts its tick unless the instruction faulted, and takes RunCpu one step |
| Chip8Vm.VM.RunTimerLoop | apps/chip8/vm.c:285-291 | the timer loop ends where RunTimers ends |
| VmProperties.InitFacts | apps/chip8/vm.c:43-69 | after `init`: pc 0x200, i, sp and timers 0, not waiting, registers, stack and keys cleared, font then zeros up to 0x1000, blank screen, epoch at the timestamp, counters 0 |
| VmProperties.CatchUpNext | apps/chip8/vm.c:273-290 | while a tick is due, counting it does not move the catch-up point |
| VmProperties.RunCpuTicks | apps/chip8/vm.c:273-282 | the CPU loop ends at max(ticks, ceil(delta / 2)) when it finishes, and short of it on a fault |
| VmProperties.RunTimersEffect | apps/chip8/vm.c:285-291 | the timer loop ends at max(ticks, ceil(delta / 16)) and lowers each timer once per period it ran, never below 0 |
| VmProperties.UpdateRunsLoops | apps/chip8/vm.c:256-282 | with no key-wait and the clock at or after the epoch, `update` is the two loops over the delta |
| VmProperties.LoopsCatchUp | apps/chip8/vm.c:272-291 | when nothing faults, both counters reach their catch-up points and the timers count down once per timer tick run |
| VmProperties.UpdateCatchesUp | apps/chip8/vm.c:253-294 | a successful `update` leaves cpu_ticks at max(old, ceil(delta / 2)) and timer_ticks at max(old, ceil(delta / 16)) |
| VmProperties.LoopsStopAtFault | apps/chip8/vm.c:273-278 | a fault stops the loops with its status, short of the CPU catch-up point and with no timer tick |
| VmProperties.UpdateStopsAtFault | apps/chip8/vm.c:273-278 | a faulting instruction makes `update` return its status at once, without counting its tick |
| VmProperties.FaultStatus | apps/chip8/vm.c:275-277 | the status a fault stops the loop with is an unknown opcode or a stack overflow |
| VmProperties.CatchUpCovers | apps/chip8/vm.c:273 | the catch-up point covers the delta |
| VmProperties.UpdateIdempotent | apps/chip8/vm.c:253-294 | a second `update` with the same timestamp changes nothing after a first one that ended without a fault and left no wait to resolve (none pending, or one pending with no key pressed and none resolved), including a first call before the epoch |
| VmProperties.BackwardsClockResets | apps/chip8/vm.c:257-258 | a timestamp before the epoch moves the epoch to it and zeroes both counters, so no tick runs |
| VmProperties.WaitingFreezes | apps/chip8/vm.c:261-270 | while waiting with a key pressed, `update` stores the lowest pressed key, runs no instruction and no timer tick, and keeps the clock fields |
| VmProperties.PendingWaitIsIdle | apps/chip8/vm.c:261-270 | while a key-wait is pending and no key is pressed, `update` returns OK and leaves the whole record unchanged |
| Chip8Legacy.Wrap64 | apps/chip8/chip8.c:347 | the conversion to `uint64_t` is the identity on its range and adds 2^64 to a negative value |
| Chip8Legacy.Loaded | apps/chip8/chip8.c:146-148 | byte j of the program lands at 0x200 + j and every other byte is kept |
| Chip8Legacy.LoadState | apps/chip8/chip8.c:104-151 | `load` keeps the record well formed |
| Chip8Legacy.TickState | apps/chip8/chip8.c:327-330 | `tick` keeps the record well formed |
| Chip8Legacy.StepState | apps/chip8/chip8.c:332-358 | `step` keeps the record well formed |
| Chip8Legacy.LegacyVM.constructor | apps/chip8/chip8.c:66-89 | a fresh record with no error |
| Chip8Legacy.LegacyVM.HadErrorNow | apps/chip8/chip8.c:91-93 | true exactly when an error is recorded |
| Chip8Legacy.LegacyVM.Load | apps/chip8/chip8.c:104-151 | the new state is that of LoadState |
| Chip8Legacy.LegacyVM.CopyProgram | apps/chip8/chip8.c:146-148 | the copy loop leaves memory as Loaded describes |
| Chip8Legacy.LegacyVM.Tick | apps/chip8/chip8.c:327-330 | the new state is that of TickState: a fault is recorded in the error field |
| Chip8Legacy.LegacyVM.Step | apps/chip8/chip8.c:332-358 | the core, error record, clock anchor and tick count after the call, with the out-of-range report, equal StepState of the record before it |
| LegacyProperties.LoadFacts | apps/chip8/chip8.c:104-149 | a file error iff the program has 0xE00 bytes or more; the reset fields, font and zeros below 0x200; an accepted program copied byte for byte; nothing copied from a refused one |
| LegacyProperties.LoadedProgramRunsFirst | apps/chip8/chip8.c:146-161 | after a successful `load` the first fetch reads the program's first two bytes |
| LegacyProperties.TickRecordsFault | apps/chip8/chip8.c:163-325 | an undecoded opcode records UnknownOpcodeError, a CALL on a full stack records StackOverflowError, anything else keeps the record |
| LegacyProperties.ErrorsPersist | apps/chip8/chip8.c:91-93 | no `step` clears a recorded error |
| LegacyProperties.StepRunsAtMostOne | apps/chip8/chip8.c:344-350 | `step` runs at most one instruction, and only when it is due |
| LegacyProperties.StepCountsTicks | apps/chip8/chip8.c:344-354 | the tick count goes up by one after an instruction ran, or restarts at 0 with the clock anchored at now after a timer period |
| LegacyProperties.StepCountsDownTimers | apps/chip8/chip8.c:352-357 | once a timer period has passed, each timer goes down by one, never below 0 |
| LegacyProperties.NotDueWhileOnSchedule | apps/chip8/chip8.c:347 | no instruction is due while the elapsed clocks are within CLOCKS_PER_TICK * ticks |
| LegacyProperties.ClockBehindStillTicks | apps/chip8/chip8.c:344-347 | as written, a clock reading before the anchor still runs an instruction, because the comparison is unsigned |
| LegacyProperties.StepWhileWaiting | apps/chip8/chip8.c:333-342 | while waiting with a key pressed, `step` stores the lowest pressed key, ends the wait and changes no clock field or error |
| LegacyProperties.StepPendingWaitIsIdle | apps/chip8/chip8.c:333-342 | while a key-wait is pending and no key is pressed, `step` leaves the whole record unchanged and reports no out-of-range access |
| KeyMap.InputKey.Id | apps/chip8-app/button_config.c:17 | a button's number is below InputKeyMAX |
| KeyMap.InputOf | apps/chip8-app/button_config.c:26 | the cast back gives the button with that number |
| KeyMap.Cell | apps/chip8-app/button_config.c:10 | a (button, key) pair lies inside the flattened table |
| KeyMap.CellParts | apps/chip8-app/button_config.c:10 | a cell's position gives back its button and key |
| KeyMap.MaskStep | apps/chip8-app/button_config.c:143-146 | one turn of the fold adds the key's bit |
| KeyMap.InputKeyMap.constructor | apps/chip8-app/button_config.c:62 | a fresh table, taken to start all-false |
| KeyMap.InputKeyMap.Connect | apps/chip8-app/button_config.c:13-19 | the new table is the old one with the one cell set (also `game_data_connect_input_to_key`, apps/chip8/game.c:167-170) |
| KeyMap.InputKeyMap.MapInputToKeys | apps/chip8-app/button_config.c:139-148 | returns the mask built from the button's row of the table (also `game_data_map_input_to_keys`, apps/chip8/game.c:65-74) |
| KeyMap.InputKeyMap.ConnectDefaults | apps/chip8-app/button_config.c:87-105 | each key gets its default button added |
| KeyMap.InputKeyMap.GameStart | apps/chip8/game.c:177-185 | the table ends up as exactly Up to 2, Down to 8 and Ok to 5 |
| KeyMapProperties.KeyMaskBit | apps/chip8-app/button_config.c:143-146 | after keys 0..k-1, bit j is set iff j < k, the event is a press and the button is connected to key j |
| KeyMapProperties.MaskIsPressedRow | apps/chip8-app/button_config.c:139-148 | bit k of the mask is set iff the event is a press and the button is connected to key k |
| KeyMapProperties.NonPressGivesNoKeys | apps/chip8-app/button_config.c:140-145 | an event other than a press gives the empty mask |
| KeyMapProperties.MaskDependsOnRowOnly | apps/chip8-app/button_config.c:139-148 | two tables give the same mask for a press iff they agree on the button's row |
| KeyMapProperties.ConnectSetsOneCell | apps/chip8-app/button_config.c:13-19 | connecting sets its cell and leaves every other cell alone |
| KeyMapProperties.DefaultsOneButtonPerKey | apps/chip8-app/button_config.c:87-105 | the default table connects every key to exactly one button, never Back: 5 Up, 7 Left, 8 Down, 9 Right, the rest Ok |
| KeyMapProperties.GameTableCells | apps/chip8/game.c:183-185 | the game table connects exactly Up to 2, Down to 8 and Ok to 5 |
| KeyMapProperties.GameMaskBit | apps/chip8/game.c:183-185 | the expected game mask has bit j iff the game table connects the button to key j |
| KeyMapProperties.GameKeys | apps/chip8/game.c:65-74 | in the game, pressing Up gives mask 0x0004, Down 0x0100, Ok 0x0020, and the other buttons none |
| ButtonConfig.HexValue | apps/chip8-app/button_config.c:42-58 | a digit's value is below 16 |
| ButtonConfig.KeyIdOf | apps/chip8-app/button_config.c:38-58 | a key id read from a line is below 16 |
| ButtonConfig.FirstSuffix | apps/chip8-app/button_config.c:25-31 | a button read from a line is one of the first five |
| ButtonConfig.Strip | apps/chip8-app/button_config.c:71-72 | the stripped line holds no carriage return and no line feed |
| ButtonConfig.MatchKeyId | apps/chip8-app/button_config.c:34-59 | finds a key id exactly when KeyIdOf does, and returns it |
| ButtonConfig.MatchInputKey | apps/chip8-app/button_config.c:21-32 | finds a button exactly when FirstSuffix does, and returns it |
| ButtonConfig.ReadConfig | apps/chip8-app/button_config.c:69-82 | the read loop leaves the table ParseLines describes |
| ButtonConfig.Alloc | apps/chip8-app/button_config.c:61-111 | the table read from the config file, or the default table when the file cannot be opened |
| ButtonConfig.SaveConfig | apps/chip8-app/button_config.c:118-127 | the lines written are those Saved describes, key by key |
| ButtonConfig.SaveKey | apps/chip8-app/button_config.c:120-126 | the lines written for one key are those SavedKey describes |
| KeyMapProperties.KeyIdOfDigit | apps/chip8-app/button_config.c:38-58 | a line names key v iff it starts with the upper- or lower-case hex digit of v; an empty line names none |
| KeyMapProperties.FirstSuffixIsFirst | apps/chip8-app/button_config.c:25-31 | the parser reads button i iff i < 5, the name of i ends the line and no lower button's name does |
| KeyMapProperties.StrippedLine | apps/chip8-app/button_config.c:71-72 | a written line with its line feed stripped is the digit, the arrow and the name |
| KeyMapProperties.LineRoundTrip | apps/chip8-app/button_config.c:123-124 | a line written for key k and one of the first five buttons reads back as exactly that connection |
| KeyMapProperties.BackLineIgnored | apps/chip8-app/button_config.c:25 | as written, a line saved for Back is ignored when read |
| KeyMapProperties.ParseLinesAppend | apps/chip8-app/button_config.c:70 | reading a file in two parts is reading the second part after the first |
| KeyMapProperties.SavedKeyReadsBack | apps/chip8-app/button_config.c:120-126 | the lines saved for one key's first n buttons read back as those cells |
| KeyMapProperties.SavedReadsBack | apps/chip8-app/button_config.c:119-127 | the lines of keys 0..n-1 read back as the cells of those keys |
| KeyMapProperties.ConfigRoundTrip | apps/chip8-app/button_config.c:113-127 | the saved file of a table that connects nothing to Back reads back as the same table |
| KeyMapProperties.DefaultsRoundTrip | apps/chip8-app/button_config.c:87-105 | the default table survives a save and a read |
| KeyMapProperties.ReadNeverSetsBack | apps/chip8-app/button_config.c:25-31 | reading never connects anything to Back |
| KeyMapProperties.BackIsLost | apps/chip8-app/button_config.c:25 | as written, a table that connects a key to Back does not survive a save and a read |
| KeyMapProperties.FlipperNamesUnambiguous | apps/chip8-app/button_config.c:27 | the firmware's button names meet the round trip's condition |

## Left out

- Timing inputs: the clock (`clock()`, `furi_get_tick()`) is a parameter.
- Randomness:
  - `rand()` is the byte `rnd` for one instruction.
  - In `update` it is an oracle `rng` indexed by the CPU tick count.
- The NULL checks of `init` and `update`, which return `Chip8StatusUninitializedVM`, are not modelled, because the receiver of a method is never null.
- Undefined behaviour: where the C code would read or write outside its arrays, the schedulers stop with `outOfBounds` set. Inside `execute`, a precondition excludes these accesses. What the C program would then do is not modelled.
- File I/O is not modelled:
  - the `fopen`, `fseek`, `ftell` and `fread` of `load`, including its use of a NULL handle;
  - the stream open, read and write of `button_config_alloc` and `button_config_free`;
  - `game_data_load`.
  - A ROM is its byte sequence, and a config file is its sequence of lines.
- `free` of the config record and the logging calls are not modelled.
- Chip8Vm.VM.Update: the counters are bounded by 2^31 and 2^28, far below 2^64. So the wrap-around resets after `cpu_ticks++` and `timer_ticks++` cannot happen and are not modelled.
- Chip8Legacy.LegacyVM.Step: `clock_t` is taken as a signed, unbounded integer (as in glibc), so an overflow of `curr_clock - last_clock` is not modelled, and the timer test `delta_clocks > CLOCKS_PER_COUNT` is a signed comparison. With newlib's unsigned `clock_t` a reading behind the anchor would wrap to a large difference and re-anchor and count the timers down; the model keeps the anchor instead. `CLOCKS_PER_SEC` is a constructor parameter.
- KeyMap.InputKeyMap.constructor: the table that `malloc` returns is indeterminate in C. The model assumes it starts all-false.
- ButtonConfig.MatchKeyId: does not state what `key_id` holds when no key is found.
- ButtonConfig.MatchInputKey: does not state what `input_key` holds when no button is found.
- Button names:
  - The firmware's `input_get_key_name` is the parameter `names`.
  - The round trip assumes the names are unambiguous: no blank or line break, and none ending another.
  - The firmware's names are taken to be Up, Down, Right, Left, OK and Back, in the firmware's `InputKey` order.
- The rest of `game.c` is not part of this model: the view, the callbacks, the speaker and the thread.
- The GUI of apps/chip8-app, the file browser and the sound thread are not part of this model.
- The `vm_*` API (`vm_alloc`, `vm_start`, `vm_set_keys` and the others) is not part of this model, because no implementation of it is in the repository's chip8 sources.
- chip-8/vm/vm.c is not part of this model. It is an earlier revision, superseded by apps/chip8/vm.c.
- apps/chip8-test is not part of this model.
- The consumer of `is_draw_pending`, which would reset it, is not part of this model.
