/**
 * What the key table of apps/chip8-app/button_config.c and apps/chip8/game.c
 * promises: the key mask of an event, the default and game tables, and the
 * config file's save/read round trip.
 */
module KeyMapProperties {
  import opened KeyMap
  import opened ButtonConfig

  // ---------------------------------------------------------------------------
  // The key mask

  /** Bit j of a single shifted bit is set exactly at its position. */
  lemma ShiftedBit(b: bv16, k: bv4, j: bv4)
    requires b == 0 || b == 1
    ensures ((b << k) >> j) & 1 == 1 <==> j == k && b == 1
  {
  }

  /** Bit j of an or is set when it is set in either operand. */
  lemma OrBit(a: bv16, b: bv16, j: bv4)
    ensures ((a | b) >> j) & 1 == 1 <==> (a >> j) & 1 == 1 || (b >> j) & 1 == 1
  {
  }

  /** Key numbers below 16 keep their identity as shift amounts. */
  lemma ShiftAmounts(a: nat, b: nat)
    requires a < VM_NUM_KEYS && b < VM_NUM_KEYS
    ensures a as bv4 == b as bv4 <==> a == b
  {
  }

  /** Or-ing in `(bool) << k` sets bit k when the bool holds and changes no other bit. */
  lemma MaskBitStep(m: bv16, b: bool, k: nat, j: nat)
    requires k < VM_NUM_KEYS && j < VM_NUM_KEYS
    ensures Bit(m | BitFor(b, k), j) <==> Bit(m, j) || (j == k && b)
  {
    ShiftedBit(if b then 1 else 0, k as bv4, j as bv4);
    OrBit(m, BitFor(b, k), j as bv4);
    ShiftAmounts(k, j);
  }

  lemma KeyMaskNext(t: Table, ev: InputEvent, k: nat)
    requires k < VM_NUM_KEYS
    ensures KeyMask(t, ev, k + 1) == KeyMask(t, ev, k) | BitFor(ev.kind == Press && t[Cell(ev.key.Id(), k)], k)
  {
  }

  /** Bit j of the mask after keys 0 .. k-1 is set exactly when j < k, the
      event is a press, and the button is connected to key j. */
  lemma {:induction false} KeyMaskBit(t: Table, ev: InputEvent, k: nat, j: nat)
    requires k <= VM_NUM_KEYS && j < VM_NUM_KEYS
    ensures Bit(KeyMask(t, ev, k), j) <==> j < k && ev.kind == Press && t[Cell(ev.key.Id(), j)]
  {
    if k > 0 {
      var pressed := ev.kind == Press && t[Cell(ev.key.Id(), k - 1)];
      KeyMaskNext(t, ev, k - 1);
      KeyMaskBit(t, ev, k - 1, j);
      MaskBitStep(KeyMask(t, ev, k - 1), pressed, k - 1, j);
    }
  }

  /** `map_input_to_keys`: bit k of the mask is set exactly when the event
      is a press and the button is connected to key k. */
  lemma MaskIsPressedRow(t: Table, ev: InputEvent)
    ensures forall j :: 0 <= j < VM_NUM_KEYS ==>
      (Bit(KeyMask(t, ev, VM_NUM_KEYS), j) <==> ev.kind == Press && t[Cell(ev.key.Id(), j)])
  {
    forall j | 0 <= j < VM_NUM_KEYS
      ensures Bit(KeyMask(t, ev, VM_NUM_KEYS), j) <==> ev.kind == Press && t[Cell(ev.key.Id(), j)]
    {
      KeyMaskBit(t, ev, VM_NUM_KEYS, j);
    }
  }

  /** Bit k of a mask, with the shift amount already four bits wide. */
  predicate BitAt(keys: bv16, k: bv4)
  {
    (keys >> k) & 1 == 1
  }

  lemma SixteenBits(a: bv16, b: bv16)
    requires BitAt(a, 0) == BitAt(b, 0) && BitAt(a, 1) == BitAt(b, 1) && BitAt(a, 2) == BitAt(b, 2) && BitAt(a, 3) == BitAt(b, 3)
    requires BitAt(a, 4) == BitAt(b, 4) && BitAt(a, 5) == BitAt(b, 5) && BitAt(a, 6) == BitAt(b, 6) && BitAt(a, 7) == BitAt(b, 7)
    requires BitAt(a, 8) == BitAt(b, 8) && BitAt(a, 9) == BitAt(b, 9) && BitAt(a, 10) == BitAt(b, 10) && BitAt(a, 11) == BitAt(b, 11)
    requires BitAt(a, 12) == BitAt(b, 12) && BitAt(a, 13) == BitAt(b, 13) && BitAt(a, 14) == BitAt(b, 14) && BitAt(a, 15) == BitAt(b, 15)
    ensures a == b
  {
  }

  /** Two masks with the same 16 bits are equal. */
  lemma SameBits(a: bv16, b: bv16)
    requires forall j :: 0 <= j < VM_NUM_KEYS ==> (Bit(a, j) <==> Bit(b, j))
    ensures a == b
  {
    forall j: bv4
      ensures BitAt(a, j) == BitAt(b, j)
    {
      var n := j as nat;
      assert n as bv4 == j;
      assert Bit(a, n) <==> Bit(b, n);
    }
    SixteenBits(a, b);
  }

  /** An event other than a press gives the empty mask. */
  lemma NonPressGivesNoKeys(t: Table, ev: InputEvent)
    requires ev.kind != Press
    ensures KeyMask(t, ev, VM_NUM_KEYS) == 0
  {
    MaskIsPressedRow(t, ev);
    SameBits(KeyMask(t, ev, VM_NUM_KEYS), 0);
  }

  /** The mask of a press is the button's row read as a 16-bit number:
      it is the same for two tables exactly when the rows agree. */
  lemma MaskDependsOnRowOnly(t1: Table, t2: Table, ev: InputEvent)
    requires ev.kind == Press
    ensures KeyMask(t1, ev, VM_NUM_KEYS) == KeyMask(t2, ev, VM_NUM_KEYS)
      <==> forall j :: 0 <= j < VM_NUM_KEYS ==> t1[Cell(ev.key.Id(), j)] == t2[Cell(ev.key.Id(), j)]
  {
    MaskIsPressedRow(t1, ev);
    MaskIsPressedRow(t2, ev);
    if forall j :: 0 <= j < VM_NUM_KEYS ==> t1[Cell(ev.key.Id(), j)] == t2[Cell(ev.key.Id(), j)] {
      SameBits(KeyMask(t1, ev, VM_NUM_KEYS), KeyMask(t2, ev, VM_NUM_KEYS));
    }
  }

  // ---------------------------------------------------------------------------
  // The tables

  /** `connect_input_to_key` sets its cell and leaves every other cell alone. */
  lemma ConnectSetsOneCell(t: Table, input: nat, key: nat)
    requires input < INPUT_KEY_MAX && key < VM_NUM_KEYS
    ensures var r := Connected(t, input, key);
      && r[Cell(input, key)]
      && (forall i, k :: 0 <= i < INPUT_KEY_MAX && 0 <= k < VM_NUM_KEYS && (i, k) != (input, key) ==> r[Cell(i, k)] == t[Cell(i, k)])
  {
    forall i, k | 0 <= i < INPUT_KEY_MAX && 0 <= k < VM_NUM_KEYS && (i, k) != (input, key)
      ensures Cell(i, k) != Cell(input, key)
    {
      CellParts(i, k);
      CellParts(input, key);
    }
  }

  /** The default table connects every key to exactly one button, which is
      never Back: 5 to Up, 7 to Left, 8 to Down, 9 to Right, the rest to Ok. */
  lemma DefaultsOneButtonPerKey()
    ensures forall i, k :: 0 <= i < INPUT_KEY_MAX && 0 <= k < VM_NUM_KEYS ==>
      (WithDefaults(EMPTY_TABLE)[Cell(i, k)] <==> i == DefaultButton(k).Id())
    ensures forall k :: 0 <= k < VM_NUM_KEYS ==> DefaultButton(k) != Back
  {
    forall i, k | 0 <= i < INPUT_KEY_MAX && 0 <= k < VM_NUM_KEYS
      ensures WithDefaults(EMPTY_TABLE)[Cell(i, k)] <==> i == DefaultButton(k).Id()
    {
      CellParts(i, k);
    }
  }

  /** The game table connects exactly Up to key 2, Down to key 8 and Ok to key 5. */
  lemma GameTableCells()
    ensures forall i, k :: 0 <= i < INPUT_KEY_MAX && 0 <= k < VM_NUM_KEYS ==>
      (GAME_TABLE[Cell(i, k)] <==> (i, k) == (Up.Id(), 2) || (i, k) == (Down.Id(), 8) || (i, k) == (Ok.Id(), 5))
  {
    forall i, k | 0 <= i < INPUT_KEY_MAX && 0 <= k < VM_NUM_KEYS
      ensures GAME_TABLE[Cell(i, k)] <==> (i, k) == (Up.Id(), 2) || (i, k) == (Down.Id(), 8) || (i, k) == (Ok.Id(), 5)
    {
      CellParts(i, k);
    }
  }

  /** The key mask each button should give in the game: Up key 2, Down key 8,
      Ok key 5, the others none. */
  function GameMask(key: InputKey): bv16
  {
    match key
    case Up => 0x0004
    case Down => 0x0100
    case Ok => 0x0020
    case _ => 0
  }

  /** Bit j of the expected mask is the game table's cell for the button and j. */
  lemma GameMaskBit(key: InputKey, j: nat)
    requires j < VM_NUM_KEYS
    ensures Bit(GameMask(key), j) <==> GAME_TABLE[Cell(key.Id(), j)]
  {
    GameTableCells();
    assert j in {0, 1, 2, 3, 4, 5, 6, 7, 8, 9, 10, 11, 12, 13, 14, 15};
  }

  /** In the game, pressing Up presses key 2 (mask 0x0004), Down key 8
      (0x0100) and Ok key 5 (0x0020); every other button presses nothing. */
  lemma GameKeys(key: InputKey)
    ensures KeyMask(GAME_TABLE, InputEvent(key, Press), VM_NUM_KEYS) == GameMask(key)
  {
    var ev := InputEvent(key, Press);
    MaskIsPressedRow(GAME_TABLE, ev);
    forall j | 0 <= j < VM_NUM_KEYS
      ensures Bit(KeyMask(GAME_TABLE, ev, VM_NUM_KEYS), j) <==> Bit(GameMask(key), j)
    {
      GameMaskBit(key, j);
    }
    SameBits(KeyMask(GAME_TABLE, ev, VM_NUM_KEYS), GameMask(key));
  }

  // ---------------------------------------------------------------------------
  // Reading the config file

  /** The lower-case hex digits the parser also accepts. */
  const HEX_LOWER: string := "0123456789abcdef"

  /** `match_key_id` reads key v exactly from a line starting with the
      upper- or lower-case hex digit of v; an empty line names no key. */
  lemma {:induction false} KeyIdOfDigit(line: string, v: nat)
    requires v < VM_NUM_KEYS
    ensures KeyIdOf([]) == None
    ensures KeyIdOf(line) == Some(v) <==> |line| > 0 && (line[0] == HEX_UPPER[v] || line[0] == HEX_LOWER[v])
  {
    if |line| > 0 {
      var ch := line[0];
      if v < 10 {
        assert HEX_UPPER[v] as int == '0' as int + v && HEX_LOWER[v] as int == '0' as int + v by {
          assert v in {0, 1, 2, 3, 4, 5, 6, 7, 8, 9};
        }
      } else {
        assert HEX_UPPER[v] as int == 'A' as int + v - 10 && HEX_LOWER[v] as int == 'a' as int + v - 10 by {
          assert v in {10, 11, 12, 13, 14, 15};
        }
      }
    }
  }

  /** `match_input_key` reads button i exactly when i < 5, the name of i
      ends the line, and no name of a lower button does. */
  lemma {:induction false} FirstSuffixIsFirst(line: string, names: seq<string>, from: nat, i: nat)
    requires |names| == INPUT_KEY_MAX && from <= PARSED_INPUTS
    ensures FirstSuffix(line, names, from) == Some(i) <==>
      from <= i < PARSED_INPUTS && EndsWith(line, names[i]) && forall j :: from <= j < i ==> !EndsWith(line, names[j])
    decreases PARSED_INPUTS - from
  {
    if from < PARSED_INPUTS && !EndsWith(line, names[from]) {
      FirstSuffixIsFirst(line, names, from + 1, i);
    }
  }

  /** Stripping keeps every character but carriage returns and line feeds. */
  lemma {:induction false} StripAppend(a: string, b: string)
    ensures Strip(a + b) == Strip(a) + Strip(b)
    decreases |a|
  {
    if |a| > 0 {
      assert (a + b)[1..] == a[1..] + b;
      StripAppend(a[1..], b);
    } else {
      assert a + b == b;
    }
  }

  lemma {:induction false} StripKeeps(s: string)
    requires forall j :: 0 <= j < |s| ==> s[j] != '\r' && s[j] != '\n'
    ensures Strip(s) == s
    decreases |s|
  {
    if |s| > 0 {
      StripKeeps(s[1..]);
      assert s == [s[0]] + s[1..];
    }
  }

  /** A written line, its line feed stripped, is the hex digit, the arrow and the name. */
  lemma StrippedLine(key: nat, name: string)
    requires key < VM_NUM_KEYS && NoSeparator(name)
    ensures Strip(FormatLine(key, name)) == [HEX_UPPER[key]] + ARROW + name
  {
    var body := [HEX_UPPER[key]] + ARROW + name;
    assert FormatLine(key, name) == body + NEWLINE;
    StripAppend(body, NEWLINE);
    assert Strip(NEWLINE) == [] by {
      assert NEWLINE[1..] == [];
    }
    StripKeeps(body);
  }

  /** A name without blanks that does not end another name does not end
      the line written for that other name either. */
  lemma NotASuffixOfLine(digit: char, name: string, other: string)
    requires NoSeparator(other) && !EndsWith(name, other)
    ensures !EndsWith([digit] + ARROW + name, other)
  {
    var line := [digit] + ARROW + name;
    if |other| <= |name| {
      assert line[|line| - |other|..] == name[|name| - |other|..];
    } else if |other| <= |line| {
      assert line[|line| - |name| - 1] == ' ';
      assert line[|line| - |other|..][|other| - |name| - 1] == ' ';
    }
  }

  /** A line written for key k < 16 and one of the first five buttons reads
      back as a connection of exactly that button and key. */
  lemma LineRoundTrip(t: Table, key: nat, input: nat, names: seq<string>)
    requires Unambiguous(names) && key < VM_NUM_KEYS && input < PARSED_INPUTS
    ensures ParseLine(t, FormatLine(key, names[input]), names) == Connected(t, input, key)
  {
    var l := [HEX_UPPER[key]] + ARROW + names[input];
    StrippedLine(key, names[input]);
    KeyIdOfDigit(l, key);
    assert EndsWith(l, names[input]);
    forall j | 0 <= j < input
      ensures !EndsWith(l, names[j])
    {
      NotASuffixOfLine(HEX_UPPER[key], names[input], names[j]);
    }
    FirstSuffixIsFirst(l, names, 0, input);
  }

  /** As written, a line saved for the Back button is ignored when read: the
      parser only tries the first five buttons. */
  lemma BackLineIgnored(t: Table, key: nat, names: seq<string>)
    requires Unambiguous(names) && key < VM_NUM_KEYS
    ensures ParseLine(t, FormatLine(key, names[Back.Id()]), names) == t
  {
    var l := [HEX_UPPER[key]] + ARROW + names[Back.Id()];
    StrippedLine(key, names[Back.Id()]);
    forall j | 0 <= j < PARSED_INPUTS
      ensures !EndsWith(l, names[j])
    {
      NotASuffixOfLine(HEX_UPPER[key], names[Back.Id()], names[j]);
    }
    forall i | 0 <= i < PARSED_INPUTS
      ensures FirstSuffix(l, names, 0) != Some(i)
    {
      FirstSuffixIsFirst(l, names, 0, i);
    }
  }

  /** Reading a file in two parts is reading the second after the first. */
  lemma {:induction false} ParseLinesAppend(t: Table, a: seq<string>, b: seq<string>, names: seq<string>)
    requires |names| == INPUT_KEY_MAX
    ensures ParseLines(t, a + b, names) == ParseLines(ParseLines(t, a, names), b, names)
    decreases |a|
  {
    if |a| > 0 {
      assert (a + b)[0] == a[0] && (a + b)[1..] == a[1..] + b;
      ParseLinesAppend(ParseLine(t, a[0], names), a[1..], b, names);
    } else {
      assert a + b == b;
    }
  }

  /** The cells of t written before the button `input` of key `key`. */
  function Upto(t: Table, key: nat, input: nat): Table
  {
    seq(TABLE_CELLS, p requires 0 <= p < TABLE_CELLS =>
      t[p] && (p % VM_NUM_KEYS < key || (p % VM_NUM_KEYS == key && p / VM_NUM_KEYS < input)))
  }

  /** A table connecting no key to Back. */
  predicate NoBack(t: Table)
  {
    forall k :: 0 <= k < VM_NUM_KEYS ==> !t[Cell(Back.Id(), k)]
  }

  /** Every cell position is the cell of its row and column. */
  lemma CellOf(p: nat)
    requires p < TABLE_CELLS
    ensures p / VM_NUM_KEYS < INPUT_KEY_MAX && p == Cell(p / VM_NUM_KEYS, p % VM_NUM_KEYS)
  {
  }

  /** One more button of the same key: its cell is added when set. */
  lemma UptoNextInput(t: Table, key: nat, n: nat)
    requires key < VM_NUM_KEYS && n < INPUT_KEY_MAX
    ensures Upto(t, key, n + 1) == if t[Cell(n, key)] then Connected(Upto(t, key, n), n, key) else Upto(t, key, n)
  {
    CellParts(n, key);
    if t[Cell(n, key)] {
      forall q | 0 <= q < TABLE_CELLS
        ensures Upto(t, key, n + 1)[q] == Connected(Upto(t, key, n), n, key)[q]
      {
        CellOf(q);
      }
    } else {
      forall q | 0 <= q < TABLE_CELLS
        ensures Upto(t, key, n + 1)[q] == Upto(t, key, n)[q]
      {
        CellOf(q);
      }
    }
  }

  /** All buttons of one key are all cells before the next key. */
  lemma UptoNextKey(t: Table, key: nat)
    requires key < VM_NUM_KEYS
    ensures Upto(t, key, INPUT_KEY_MAX) == Upto(t, key + 1, 0)
  {
    forall q | 0 <= q < TABLE_CELLS
      ensures Upto(t, key, INPUT_KEY_MAX)[q] == Upto(t, key + 1, 0)[q]
    {
      CellOf(q);
    }
  }

  lemma UptoEnds(t: Table)
    ensures Upto(t, 0, 0) == EMPTY_TABLE && Upto(t, VM_NUM_KEYS, 0) == t
  {
  }

  /** Reading one line is reading a file of that line alone. */
  lemma ParseSingle(t: Table, line: string, names: seq<string>)
    requires |names| == INPUT_KEY_MAX
    ensures ParseLines(t, [line], names) == ParseLine(t, line, names)
  {
    assert [line][1..] == [];
  }

  /** Reading the line saved for cell (n, key), if it is set, adds that cell. */
  lemma ReadsSavedCell(t: Table, names: seq<string>, key: nat, n: nat)
    requires Unambiguous(names) && NoBack(t) && key < VM_NUM_KEYS && n < INPUT_KEY_MAX
    ensures ParseLines(Upto(t, key, n), if t[Cell(n, key)] then [FormatLine(key, names[n])] else [], names) == Upto(t, key, n + 1)
  {
    UptoNextInput(t, key, n);
    if t[Cell(n, key)] {
      assert n != Back.Id();
      LineRoundTrip(Upto(t, key, n), key, n, names);
      ParseSingle(Upto(t, key, n), FormatLine(key, names[n]), names);
    }
  }

  lemma {:induction false} SavedKeyReadsBack(t: Table, names: seq<string>, key: nat, n: nat)
    requires Unambiguous(names) && NoBack(t) && key < VM_NUM_KEYS && n <= INPUT_KEY_MAX
    ensures ParseLines(Upto(t, key, 0), SavedKey(t, names, key, n), names) == Upto(t, key, n)
  {
    if n > 0 {
      var before := SavedKey(t, names, key, n - 1);
      var added := if t[Cell(n - 1, key)] then [FormatLine(key, names[n - 1])] else [];
      assert SavedKey(t, names, key, n) == before + added;
      SavedKeyReadsBack(t, names, key, n - 1);
      ParseLinesAppend(Upto(t, key, 0), before, added, names);
      ReadsSavedCell(t, names, key, n - 1);
    }
  }

  /** The lines saved for key `key`, read after the cells of the keys
      before it, give all cells before the next key. */
  predicate KeyReadBack(t: Table, names: seq<string>, key: nat)
    requires |names| == INPUT_KEY_MAX && key < VM_NUM_KEYS
  {
    ParseLines(Upto(t, key, 0), SavedKey(t, names, key, INPUT_KEY_MAX), names) == Upto(t, key + 1, 0)
  }

  /** The lines saved for one key read back as all cells before the next key. */
  lemma KeyLinesReadBack(t: Table, names: seq<string>, key: nat)
    requires Unambiguous(names) && NoBack(t) && key < VM_NUM_KEYS
    ensures KeyReadBack(t, names, key)
  {
    SavedKeyReadsBack(t, names, key, INPUT_KEY_MAX);
    UptoNextKey(t, key);
  }

  /** The lines of keys 0 .. n-1, read from the empty table `Upto(t, 0, 0)`,
      give all cells before key n. */
  predicate PrefixReadBack(t: Table, names: seq<string>, n: nat)
    requires |names| == INPUT_KEY_MAX && n <= VM_NUM_KEYS
  {
    ParseLines(Upto(t, 0, 0), Saved(t, names, n), names) == Upto(t, n, 0)
  }

  /** Given that each key's lines read back (KeyLinesReadBack), so do those
      of keys 0 .. n-1. */
  lemma {:induction false} SavedReadsBack(t: Table, names: seq<string>, n: nat)
    requires |names| == INPUT_KEY_MAX && n <= VM_NUM_KEYS
    requires forall key :: 0 <= key < n ==> KeyReadBack(t, names, key)
    ensures PrefixReadBack(t, names, n)
  {
    if n > 0 {
      SavedReadsBack(t, names, n - 1);
      SavedStep(t, names, n);
    }
  }

  /** Reading the lines of key n-1 after those of keys 0 .. n-2. */
  lemma SavedStep(t: Table, names: seq<string>, n: nat)
    requires |names| == INPUT_KEY_MAX && 0 < n <= VM_NUM_KEYS
    requires PrefixReadBack(t, names, n - 1)
    requires KeyReadBack(t, names, n - 1)
    ensures PrefixReadBack(t, names, n)
  {
    ParseLinesAppend(Upto(t, 0, 0), Saved(t, names, n - 1), SavedKey(t, names, n - 1, INPUT_KEY_MAX), names);
  }

  /** The saved file of a table that connects nothing to Back reads back,
      from the all-false start of `button_config_alloc`, as the same table. */
  lemma ConfigRoundTrip(t: Table, names: seq<string>)
    requires Unambiguous(names) && NoBack(t)
    ensures ParseLines(EMPTY_TABLE, Saved(t, names, VM_NUM_KEYS), names) == t
  {
    forall key | 0 <= key < VM_NUM_KEYS
      ensures KeyReadBack(t, names, key)
    {
      KeyLinesReadBack(t, names, key);
    }
    SavedReadsBack(t, names, VM_NUM_KEYS);
    UptoEnds(t);
  }

  /** In particular the default table survives a save and a read. */
  lemma DefaultsRoundTrip(names: seq<string>)
    requires Unambiguous(names)
    ensures ParseLines(EMPTY_TABLE, Saved(WithDefaults(EMPTY_TABLE), names, VM_NUM_KEYS), names) == WithDefaults(EMPTY_TABLE)
  {
    DefaultsOneButtonPerKey();
    ConfigRoundTrip(WithDefaults(EMPTY_TABLE), names);
  }

  /** Reading never connects anything to Back. */
  lemma {:induction false} ReadNeverSetsBack(t: Table, lines: seq<string>, names: seq<string>)
    requires |names| == INPUT_KEY_MAX && NoBack(t)
    ensures NoBack(ParseLines(t, lines, names))
    decreases |lines|
  {
    if |lines| > 0 {
      var t1 := ParseLine(t, lines[0], names);
      forall k | 0 <= k < VM_NUM_KEYS
        ensures !t1[Cell(Back.Id(), k)]
      {
        var l := Strip(lines[0]);
        if KeyIdOf(l).Some? && FirstSuffix(l, names, 0).Some? {
          ConnectSetsOneCell(t, FirstSuffix(l, names, 0).value, KeyIdOf(l).value);
        }
      }
      ReadNeverSetsBack(t1, lines[1..], names);
    }
  }

  /** As written, so a table that connects some key to Back does not
      survive a save and a read. */
  lemma BackIsLost(t: Table, names: seq<string>, key: nat)
    requires |names| == INPUT_KEY_MAX && key < VM_NUM_KEYS && t[Cell(Back.Id(), key)]
    ensures ParseLines(EMPTY_TABLE, Saved(t, names, VM_NUM_KEYS), names) != t
  {
    ReadNeverSetsBack(EMPTY_TABLE, Saved(t, names, VM_NUM_KEYS), names);
  }

  const FLIPPER_NAMES: seq<string> := ["Up", "Down", "Right", "Left", "OK", "Back"]

  /** The firmware's button names satisfy the condition of the round trip. */
  lemma FlipperNamesUnambiguous()
    ensures Unambiguous(FLIPPER_NAMES)
  {
    forall i | 0 <= i < INPUT_KEY_MAX
      ensures NoSeparator(FLIPPER_NAMES[i])
    {
      assert i in {0, 1, 2, 3, 4, 5};
    }
    forall i, j | 0 <= i < INPUT_KEY_MAX && 0 <= j < INPUT_KEY_MAX && i != j
      ensures !EndsWith(FLIPPER_NAMES[i], FLIPPER_NAMES[j])
    {
      var a, b := FLIPPER_NAMES[i], FLIPPER_NAMES[j];
      assert i in {0, 1, 2, 3, 4, 5} && j in {0, 1, 2, 3, 4, 5};
      if a[|a| - 1] != b[|b| - 1] {
        EndsDiffer(a, b, 1);
      } else {
        EndsDiffer(a, b, 2);
      }
    }
  }

  /** Two strings whose k-th characters from the end differ do not end each other. */
  lemma EndsDiffer(s: string, suffix: string, k: nat)
    requires 0 < k <= |s| && k <= |suffix| && s[|s| - k] != suffix[|suffix| - k]
    ensures !EndsWith(s, suffix)
  {
    if |suffix| <= |s| {
      assert s[|s| - |suffix|..][|suffix| - k] == s[|s| - k];
    }
  }
}
