/**
 * The button-to-key table shared by apps/chip8-app/button_config.c and
 * apps/chip8/game.c: a `bool [InputKeyMAX][VM_NUM_KEYS]` table saying which
 * of the 16 CHIP-8 keys each Flipper button presses, and the fold that turns
 * one button event into a 16-bit key mask.
 */
module KeyMap {

  /** The Flipper buttons, in the order of the firmware's `InputKey`. */
  datatype InputKey = Up | Down | Right | Left | Ok | Back
  {
    /** The `(size_t)` value of the enum constant. */
    function Id(): (r: nat)
      ensures r < INPUT_KEY_MAX
    {
      match this
      case Up => 0
      case Down => 1
      case Right => 2
      case Left => 3
      case Ok => 4
      case Back => 5
    }
  }

  /** The button with a given `(InputKey)` value. */
  function InputOf(id: nat): (k: InputKey)
    requires id < INPUT_KEY_MAX
    ensures k.Id() == id
  {
    if id == 0 then Up
    else if id == 1 then Down
    else if id == 2 then Right
    else if id == 3 then Left
    else if id == 4 then Ok
    else Back
  }

  /** The firmware's `InputType`; only `Press` sets keys. */
  datatype InputType = Press | Release | Short | Long | Repeat

  datatype InputEvent = InputEvent(key: InputKey, kind: InputType)

  /** `InputKeyMAX` and `VM_NUM_KEYS`. */
  const INPUT_KEY_MAX: nat := 6
  const VM_NUM_KEYS: nat := 16
  const TABLE_CELLS: nat := INPUT_KEY_MAX * VM_NUM_KEYS

  /** The table flattened row by row: cell (input, key) is at input * 16 + key. */
  type Table = t: seq<bool> | |t| == TABLE_CELLS witness seq(TABLE_CELLS, _ => false)

  function Cell(input: nat, key: nat): (p: nat)
    requires input < INPUT_KEY_MAX && key < VM_NUM_KEYS
    ensures p < TABLE_CELLS
  {
    input * VM_NUM_KEYS + key
  }

  /** A cell's position gives back its button and key. */
  lemma CellParts(input: nat, key: nat)
    requires input < INPUT_KEY_MAX && key < VM_NUM_KEYS
    ensures Cell(input, key) / VM_NUM_KEYS == input && Cell(input, key) % VM_NUM_KEYS == key
  {
  }

  const EMPTY_TABLE: Table := seq(TABLE_CELLS, _ => false)

  /** `connect_input_to_key`: one cell set to true. */
  function Connected(t: Table, input: nat, key: nat): (r: Table)
    requires input < INPUT_KEY_MAX && key < VM_NUM_KEYS
  {
    t[Cell(input, key) := true]
  }

  /** Bit k of a 16-bit mask (a shift by less than 16 fits in four bits). */
  predicate Bit(keys: bv16, k: nat)
    requires k < VM_NUM_KEYS
  {
    (keys >> (k as bv4)) & 1 == 1
  }

  /** The contribution of key k to the mask: its bit, set when the event is
      a press of a button connected to k. */
  function KeyBit(t: Table, ev: InputEvent, k: nat): bv16
    requires k < VM_NUM_KEYS
  {
    BitFor(ev.kind == Press && t[Cell(ev.key.Id(), k)], k)
  }

  /** `(bool) << k`: bit k when b holds, no bit otherwise. */
  function BitFor(b: bool, k: nat): bv16
    requires k < VM_NUM_KEYS
  {
    (if b then 1 else 0) << (k as bv4)
  }

  /** The mask `map_input_to_keys` has built after keys 0 .. k-1 of the
      button's row. */
  function KeyMask(t: Table, ev: InputEvent, k: nat): bv16
    requires k <= VM_NUM_KEYS
  {
    if k == 0 then 0 else KeyMask(t, ev, k - 1) | KeyBit(t, ev, k - 1)
  }

  /** One turn of the loop of `map_input_to_keys` adds key k's bit. */
  lemma MaskStep(t: Table, ev: InputEvent, k: nat, keys: bv16, pressed: bool)
    requires k < VM_NUM_KEYS && keys == KeyMask(t, ev, k) && pressed == (ev.kind == Press && t[Cell(ev.key.Id(), k)])
    ensures keys | BitFor(pressed, k) == KeyMask(t, ev, k + 1)
  {
  }

  /** The default button of each key when no config file can be read. */
  function DefaultButton(key: nat): InputKey
  {
    if key == 5 then Up
    else if key == 7 then Left
    else if key == 8 then Down
    else if key == 9 then Right
    else Ok
  }

  /** The default table added to `t`, as the default loop of `button_config_alloc` does. */
  function WithDefaults(t: Table): (r: Table)
  {
    seq(TABLE_CELLS, p requires 0 <= p < TABLE_CELLS =>
      t[p] || p / VM_NUM_KEYS == DefaultButton(p % VM_NUM_KEYS).Id())
  }

  /** The table `game_start` builds: Up presses key 2, Down key 8, Ok key 5. */
  const GAME_TABLE: Table := EMPTY_TABLE[Cell(Up.Id(), 2) := true][Cell(Down.Id(), 8) := true][Cell(Ok.Id(), 5) := true]

  /** The `input_to_key_map` of `ButtonConfig` and of `GameData`. */
  class InputKeyMap {
    /** `bool input_to_key_map[InputKeyMAX][VM_NUM_KEYS]`, flattened. */
    const cells: array<bool>

    ghost predicate Valid()
      reads this
    {
      cells.Length == TABLE_CELLS
    }

    /** The table as a value. */
    ghost function Contents(): (t: Table)
      reads this, cells
      requires Valid()
    {
      cells[..]
    }

    /** The record of `button_config_alloc`, whose table is taken to start
        all-false (malloc leaves it indeterminate). */
    constructor ()
      ensures Valid() && fresh(cells) && Contents() == EMPTY_TABLE
    {
      cells := new bool[TABLE_CELLS](_ => false);
    }

    /** `button_config_connect_input_to_key`, `game_data_connect_input_to_key` */
    method Connect(input: InputKey, key: nat)
      requires Valid() && key < VM_NUM_KEYS
      modifies cells
      ensures Contents() == Connected(old(Contents()), input.Id(), key)
    {
      cells[Cell(input.Id(), key)] := true;
    }

    /** `button_config_map_input_to_keys`, `game_data_map_input_to_keys` */
    method MapInputToKeys(ev: InputEvent) returns (keys: bv16)
      requires Valid()
      ensures keys == KeyMask(Contents(), ev, VM_NUM_KEYS)
    {
      var isKeyPressed := ev.kind == Press;
      var inputId := ev.key.Id();
      ghost var t := Contents();
      keys := 0;
      for keyId := 0 to VM_NUM_KEYS
        invariant keys == KeyMask(t, ev, keyId)
      {
        var pressed := isKeyPressed && cells[Cell(inputId, keyId)];
        MaskStep(t, ev, keyId, keys, pressed);
        keys := keys | BitFor(pressed, keyId);
      }
    }

    /** The default loop of `button_config_alloc`: every key connected to
        its default button. */
    method ConnectDefaults()
      requires Valid()
      modifies cells
      ensures Contents() == WithDefaults(old(Contents()))
    {
      for keyId := 0 to VM_NUM_KEYS
        invariant forall p :: 0 <= p < TABLE_CELLS && p % VM_NUM_KEYS >= keyId ==> cells[p] == old(cells[p])
        invariant forall p :: 0 <= p < TABLE_CELLS && p % VM_NUM_KEYS < keyId ==> cells[p] == WithDefaults(old(Contents()))[p]
      {
        if keyId == 5 {
          Connect(Up, keyId);
        } else if keyId == 7 {
          Connect(Left, keyId);
        } else if keyId == 8 {
          Connect(Down, keyId);
        } else if keyId == 9 {
          Connect(Right, keyId);
        } else {
          Connect(Ok, keyId);
        }
      }
      assert Contents() == WithDefaults(old(Contents()));
    }

    /** The table set-up of `game_start`: every cell cleared, then Up, Down
        and Ok connected. */
    method GameStart()
      requires Valid()
      modifies cells
      ensures Contents() == GAME_TABLE
    {
      for inputId := 0 to INPUT_KEY_MAX
        invariant forall p :: 0 <= p < inputId * VM_NUM_KEYS ==> !cells[p]
      {
        for keyId := 0 to VM_NUM_KEYS
          invariant forall p :: 0 <= p < inputId * VM_NUM_KEYS + keyId ==> !cells[p]
        {
          cells[Cell(inputId, keyId)] := false;
        }
      }
      assert Contents() == EMPTY_TABLE;
      Connect(Up, 0x02);
      Connect(Down, 0x08);
      Connect(Ok, 0x05);
    }
  }
}
