/**
 * The config file of apps/chip8-app/button_config.c: one line per
 * connection, written as `"%X -> %s\n"` (the key id as an upper-case hex
 * digit, then the button's name), and read back by taking the key id from
 * the first character and the button from the first name, among the first
 * five buttons, that ends the line.
 *
 * The file is a sequence of lines (each as `stream_read_line` returns it);
 * opening, reading and writing the stream is not modelled. The button names
 * of the firmware's `input_get_key_name` are the parameter `names`.
 */
module ButtonConfig {
  import opened KeyMap

  datatype Option<T> = None | Some(value: T)

  /** The parser tries the buttons 0 .. 4, so Back is never read back. */
  const PARSED_INPUTS: nat := 5

  /** The upper-case digits `%X` writes for 0 .. 15. */
  const HEX_UPPER: string := "0123456789ABCDEF"

  /** The value of a hexadecimal digit of either case. */
  function HexValue(ch: char): (r: Option<nat>)
    ensures r.Some? ==> r.value < VM_NUM_KEYS
  {
    if '0' <= ch <= '9' then Some(ch as int - '0' as int)
    else if 'A' <= ch <= 'F' then Some(ch as int - 'A' as int + 10)
    else if 'a' <= ch <= 'f' then Some(ch as int - 'a' as int + 10)
    else None
  }

  /** The key id `match_key_id` reads: the value of the first character,
      none for an empty line. */
  function KeyIdOf(line: string): (r: Option<nat>)
    ensures r.Some? ==> r.value < VM_NUM_KEYS
  {
    if |line| == 0 then None else HexValue(line[0])
  }

  predicate EndsWith(s: string, suffix: string)
  {
    |suffix| <= |s| && s[|s| - |suffix|..] == suffix
  }

  /** A button name holds no blank and no line break. */
  predicate NoSeparator(name: string)
  {
    forall j :: 0 <= j < |name| ==> name[j] != ' ' && name[j] != '\r' && name[j] != '\n'
  }

  /** Names that a saved line can be read back by: six of them, none with a
      blank or a line break, and none ending another. */
  predicate Unambiguous(names: seq<string>)
  {
    && |names| == INPUT_KEY_MAX
    && (forall i :: 0 <= i < INPUT_KEY_MAX ==> NoSeparator(names[i]))
    && (forall i, j :: 0 <= i < INPUT_KEY_MAX && 0 <= j < INPUT_KEY_MAX && i != j ==> !EndsWith(names[i], names[j]))
  }

  /** The button `match_input_key` reads: the first of buttons from .. 4
      whose name ends the line. */
  function FirstSuffix(line: string, names: seq<string>, from: nat): (r: Option<nat>)
    requires |names| == INPUT_KEY_MAX && from <= PARSED_INPUTS
    ensures r.Some? ==> from <= r.value < PARSED_INPUTS
    decreases PARSED_INPUTS - from
  {
    if from == PARSED_INPUTS then None
    else if EndsWith(line, names[from]) then Some(from)
    else FirstSuffix(line, names, from + 1)
  }

  /** The line with every carriage return and line feed removed. */
  function Strip(line: string): (r: string)
    ensures forall j :: 0 <= j < |r| ==> r[j] != '\r' && r[j] != '\n'
  {
    if |line| == 0 then []
    else (if line[0] == '\r' || line[0] == '\n' then [] else [line[0]]) + Strip(line[1..])
  }

  /** The separator and the terminator of a config line. */
  const ARROW: string := " -> "
  const NEWLINE: string := "\n"

  /** The line `button_config_free` writes for one connection. */
  function FormatLine(key: nat, name: string): string
    requires key < VM_NUM_KEYS
  {
    [HEX_UPPER[key]] + ARROW + name + NEWLINE
  }

  /** One line of `button_config_alloc`'s read loop: connect the button and
      key it names, if it names both. */
  function ParseLine(t: Table, line: string, names: seq<string>): Table
    requires |names| == INPUT_KEY_MAX
  {
    var l := Strip(line);
    match KeyIdOf(l)
    case None => t
    case Some(key) =>
      match FirstSuffix(l, names, 0)
      case None => t
      case Some(input) => Connected(t, input, key)
  }

  /** The read loop over the whole file. */
  function ParseLines(t: Table, lines: seq<string>, names: seq<string>): Table
    requires |names| == INPUT_KEY_MAX
    decreases |lines|
  {
    if |lines| == 0 then t else ParseLines(ParseLine(t, lines[0], names), lines[1..], names)
  }

  /** The lines `button_config_free` writes for key `key` and buttons 0 .. n-1. */
  function SavedKey(t: Table, names: seq<string>, key: nat, n: nat): seq<string>
    requires |names| == INPUT_KEY_MAX && key < VM_NUM_KEYS && n <= INPUT_KEY_MAX
  {
    if n == 0 then []
    else SavedKey(t, names, key, n - 1) + (if t[Cell(n - 1, key)] then [FormatLine(key, names[n - 1])] else [])
  }

  /** The lines `button_config_free` writes for keys 0 .. n-1, key by key. */
  function Saved(t: Table, names: seq<string>, n: nat): seq<string>
    requires |names| == INPUT_KEY_MAX && n <= VM_NUM_KEYS
  {
    if n == 0 then [] else Saved(t, names, n - 1) + SavedKey(t, names, n - 1, INPUT_KEY_MAX)
  }

  /** `button_config_match_key_id` */
  method MatchKeyId(line: string) returns (found: bool, keyId: nat)
    ensures found == KeyIdOf(line).Some?
    ensures found ==> keyId == KeyIdOf(line).value
  {
    keyId := 0;
    if |line| == 0 {
      return false, keyId;
    }
    var start := line[0];
    for i := 0 to 10
      invariant !('0' as int <= start as int < '0' as int + i)
    {
      if start as int == '0' as int + i {
        return true, i;
      }
    }
    for i := 0 to 6
      invariant !('A' as int <= start as int < 'A' as int + i) && !('a' as int <= start as int < 'a' as int + i)
    {
      if start as int == 'A' as int + i || start as int == 'a' as int + i {
        return true, 10 + i;
      }
    }
    return false, keyId;
  }

  /** `button_config_match_input_key`; `input` is the last button tried. */
  method MatchInputKey(line: string, names: seq<string>) returns (found: bool, input: InputKey)
    requires |names| == INPUT_KEY_MAX
    ensures found == FirstSuffix(line, names, 0).Some?
    ensures found ==> input.Id() == FirstSuffix(line, names, 0).value
  {
    input := Up;
    for i := 0 to PARSED_INPUTS
      invariant FirstSuffix(line, names, 0) == FirstSuffix(line, names, i)
    {
      input := InputOf(i);
      if EndsWith(line, names[i]) {
        return true, input;
      }
    }
    return false, input;
  }

  /** The read loop of `button_config_alloc`. */
  method ReadConfig(m: InputKeyMap, lines: seq<string>, names: seq<string>)
    requires m.Valid() && |names| == INPUT_KEY_MAX
    modifies m.cells
    ensures m.Contents() == ParseLines(old(m.Contents()), lines, names)
  {
    for n := 0 to |lines|
      invariant ParseLines(m.Contents(), lines[n..], names) == ParseLines(old(m.Contents()), lines, names)
    {
      assert lines[n..][1..] == lines[n + 1..];
      var line := Strip(lines[n]);
      var foundKey, keyId := MatchKeyId(line);
      if foundKey {
        var foundInput, input := MatchInputKey(line, names);
        if foundInput {
          m.Connect(input, keyId);
        }
      }
    }
  }

  /** `button_config_alloc`: the table read from the config file when it can
      be opened (`config` holds its lines), the default table otherwise. */
  method Alloc(config: Option<seq<string>>, names: seq<string>) returns (m: InputKeyMap)
    requires |names| == INPUT_KEY_MAX
    ensures fresh(m) && fresh(m.cells) && m.Valid()
    ensures config.Some? ==> m.Contents() == ParseLines(EMPTY_TABLE, config.value, names)
    ensures config.None? ==> m.Contents() == WithDefaults(EMPTY_TABLE)
  {
    m := new InputKeyMap();
    if config.Some? {
      ReadConfig(m, config.value, names);
    } else {
      m.ConnectDefaults();
    }
  }

  /** The write loop of `button_config_free`: one line per connected cell,
      key by key and, within a key, button by button. */
  method SaveConfig(m: InputKeyMap, names: seq<string>) returns (lines: seq<string>)
    requires m.Valid() && |names| == INPUT_KEY_MAX
    ensures lines == Saved(m.Contents(), names, VM_NUM_KEYS)
  {
    lines := [];
    for keyId := 0 to VM_NUM_KEYS
      invariant lines == Saved(m.Contents(), names, keyId)
    {
      var keyLines := SaveKey(m, names, keyId);
      lines := lines + keyLines;
    }
  }

  /** The inner loop of `button_config_free`, over the buttons of one key. */
  method SaveKey(m: InputKeyMap, names: seq<string>, keyId: nat) returns (lines: seq<string>)
    requires m.Valid() && |names| == INPUT_KEY_MAX && keyId < VM_NUM_KEYS
    ensures lines == SavedKey(m.Contents(), names, keyId, INPUT_KEY_MAX)
  {
    lines := [];
    for inputId := 0 to INPUT_KEY_MAX
      invariant lines == SavedKey(m.Contents(), names, keyId, inputId)
    {
      if m.cells[Cell(inputId, keyId)] {
        lines := lines + [FormatLine(keyId, names[inputId])];
      }
    }
  }
}
