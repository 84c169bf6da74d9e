/** The menu cursor and the three button handlers, as functions on the state
    they touch: the cursor, the settings (indexed by EEPROM address) and the
    EEPROM contents. */
module MenuMachine {
  import opened Bytes
  import opened MenuTable
  import opened ParameterStore

  /** `menusPos`, `subMenuPos` and `subMenu`. */
  datatype Cursor = Cursor(menusPos: byte, subMenuPos: byte, subMenu: bool)

  /** The cursor at power-up and after a factory reset. */
  const HOME: Cursor := Cursor(0, 0, false)

  /** The buttons, as `currentButton` numbers them. */
  const MENU_BUTTON: byte := 0
  const PLUS_BUTTON: byte := 1
  const MINUS_BUTTON: byte := 2

  /** The cursor designates a menu, and inside a sub-menu an entry of it:
      what the handlers' table lookups need. */
  predicate InTable(c: Cursor) {
    c.menusPos < |MENUS| && (c.subMenu ==> c.subMenuPos < Length(c.menusPos))
  }

  /** The cursor invariant: in the table, and back on entry 0 whenever the
      cursor is at the top level. */
  predicate CursorOk(c: Cursor) {
    InTable(c) && (!c.subMenu ==> c.subMenuPos == 0)
  }

  datatype Machine = Machine(cursor: Cursor, settings: seq<byte>, eeprom: seq<byte>)

  predicate WellFormed(m: Machine) {
    |m.settings| == NUM_SETTINGS <= |m.eeprom| && CursorOk(m.cursor)
  }

  /** `handleButtonMenu`: the next menu, or the next entry of the open
      sub-menu, wrapping to the first. */
  function MenuButton(c: Cursor): (r: Cursor)
    requires InTable(c)
    ensures InTable(r) && r.subMenu == c.subMenu
    ensures c.subMenu ==> r.menusPos == c.menusPos
    ensures !c.subMenu ==> r.subMenuPos == c.subMenuPos
  {
    if !c.subMenu then
      var p := Inc8(c.menusPos);
      c.(menusPos := if p >= |MENUS| then 0 else p)
    else
      var q := Inc8(c.subMenuPos);
      c.(subMenuPos := if q >= Length(c.menusPos) then 0 else q)
  }

  /** `resetParameters`. */
  function Reset(m: Machine): (r: Machine)
    ensures CursorOk(r.cursor) && r.eeprom == m.eeprom
    ensures |r.settings| == NUM_SETTINGS
    ensures forall a :: 0 <= a < NUM_SETTINGS ==> r.settings[a] == if 7 <= a <= 10 then 50 else 0
  {
    Machine(HOME, FactoryDefaults(), m.eeprom)
  }

  /** A factory reset puts the cursor home, sets every ON/OFF flag, time
      field and `limit` to 0 and every zone threshold to 50, leaves EEPROM
      alone, and is idempotent. */
  lemma ResetState(m: Machine)
    ensures var r := Reset(m);
      && r.cursor == HOME && r.eeprom == m.eeprom && |r.settings| == NUM_SETTINGS
      && (forall z :: 1 <= z <= NUM_ZONES ==> r.settings[ZoneAddr(z)] == 0 && r.settings[SensorZoneAddr(z)] == 50)
      && r.settings[PUMP_ADDR] == r.settings[VALVE_ADDR] == r.settings[WATER_SENSOR_ADDR] == 0
      && r.settings[HOUR_ADDR] == r.settings[MINUTES_ADDR] == 0
      && r.settings[CLOCK_HOUR_ADDR] == r.settings[CLOCK_MINUTES_ADDR] == r.settings[CLOCK_STATE_ADDR] == 0
      && r.settings[LIMIT_ADDR] == 0
      && (NUM_SETTINGS <= |m.eeprom| ==> WellFormed(r))
      && Reset(r) == r
  {
  }

  /** The new value of the setting bound to a non-Back entry, given its kind:
      numeric bytes count up with wrap-around, ON/OFF bytes are negated. */
  function Bump(kind: Kind, v: byte): byte {
    if kind == Numeric then Inc8(v) else LogicalNot(v)
  }

  /** `handleButtonPlus`. `nullReads` feeds the save loop's NULL reads. */
  function Plus(m: Machine, nullReads: seq<byte>): (r: Machine)
    requires InTable(m.cursor) && |m.settings| == NUM_SETTINGS <= |m.eeprom| && |nullReads| == |MENUS|
    ensures |r.settings| == NUM_SETTINGS && |r.eeprom| == |m.eeprom|
    ensures CursorOk(m.cursor) ==> CursorOk(r.cursor)
    ensures r.eeprom != m.eeprom ==> !m.cursor.subMenu && m.cursor.menusPos == SAVE_MENU
    ensures r.settings != m.settings ==> m.cursor.subMenu || m.cursor.menusPos == RESET_MENU
  {
    MenuSizes(m.cursor.menusPos);
    var c := m.cursor;
    if c.subMenu then
      if c.subMenuPos == 0 then
        m.(cursor := c.(subMenu := false))
      else
        var a := Target(c.menusPos, c.subMenuPos);
        var kind := MENUS[c.menusPos].entries[c.subMenuPos].kind;
        m.(settings := m.settings[a := Bump(kind, m.settings[a])])
    else if c.menusPos == SAVE_MENU then
      m.(eeprom := SaveImage(m.eeprom, m.settings, nullReads))
    else if c.menusPos == RESET_MENU then
      Reset(m)
    else
      m.(cursor := c.(subMenu := true))
  }

  /** `handleButtonMinus`, which its caller runs only on a non-Back entry of
      an open sub-menu. */
  function Minus(m: Machine): (r: Machine)
    requires InTable(m.cursor) && |m.settings| == NUM_SETTINGS
    requires m.cursor.subMenu && m.cursor.subMenuPos != 0
    ensures r.cursor == m.cursor && r.eeprom == m.eeprom && |r.settings| == NUM_SETTINGS
    ensures forall a :: 0 <= a < NUM_SETTINGS && a != MENUS[m.cursor.menusPos].entries[m.cursor.subMenuPos].address ==>
      r.settings[a] == m.settings[a]
  {
    var c := m.cursor;
    var a := Target(c.menusPos, c.subMenuPos);
    var v := m.settings[a];
    var kind := MENUS[c.menusPos].entries[c.subMenuPos].kind;
    m.(settings := m.settings[a := if kind == Numeric then Dec8(v) else LogicalNot(v)])
  }

  /** Whether `handleInput` calls a handler for `button` at cursor `c`. */
  predicate Dispatches(c: Cursor, button: byte) {
    button == MENU_BUTTON || button == PLUS_BUTTON
    || (button == MINUS_BUTTON && c.subMenu && c.subMenuPos != 0)
  }

  /** `handleInput` for the pending `button`. */
  function Input(m: Machine, button: byte, nullReads: seq<byte>): (r: Machine)
    requires InTable(m.cursor) && |m.settings| == NUM_SETTINGS <= |m.eeprom| && |nullReads| == |MENUS|
    ensures |r.settings| == NUM_SETTINGS && |r.eeprom| == |m.eeprom|
    ensures !Dispatches(m.cursor, button) ==> r == m
  {
    if button == MENU_BUTTON then m.(cursor := MenuButton(m.cursor))
    else if button == PLUS_BUTTON then Plus(m, nullReads)
    else if Dispatches(m.cursor, button) then Minus(m)
    else m
  }

  // ---------------------------------------------------------------------------
  // The cursor invariant
  // ---------------------------------------------------------------------------

  /** Inside a sub-menu the cursor is on one of the six settings menus,
      never on Save or Reset. */
  lemma SubMenuOnlyInSettingsMenus(c: Cursor)
    requires CursorOk(c) && c.subMenu
    ensures c.menusPos < SAVE_MENU
    ensures c.subMenuPos < Length(c.menusPos)
  {
    MenuSizes(c.menusPos);
  }

  /** Every handler keeps the cursor invariant and the sizes of the settings
      and of EEPROM. */
  lemma InputKeepsWellFormed(m: Machine, button: byte, nullReads: seq<byte>)
    requires WellFormed(m) && |nullReads| == |MENUS|
    ensures WellFormed(Input(m, button, nullReads))
  {
    MenuSizes(m.cursor.menusPos);
  }

  /** The machine after handling a sequence of presses. */
  function Run(m: Machine, buttons: seq<byte>, nullReads: seq<byte>): (r: Machine)
    requires WellFormed(m) && |nullReads| == |MENUS|
    ensures WellFormed(r)
    decreases |buttons|
  {
    if buttons == [] then m
    else
      InputKeepsWellFormed(m, buttons[0], nullReads);
      Run(Input(m, buttons[0], nullReads), buttons[1..], nullReads)
  }

  /** From power-up, after any sequence of presses: `menusPos < 8`; while a
      sub-menu is open, `menusPos < 6` and `subMenuPos` is within its menu;
      at the top level `subMenuPos == 0`. */
  lemma CursorBoundsAfterAnyPresses(settings: seq<byte>, eeprom: seq<byte>, buttons: seq<byte>, nullReads: seq<byte>)
    requires |settings| == NUM_SETTINGS <= |eeprom| && |nullReads| == |MENUS|
    ensures var c := Run(Machine(HOME, settings, eeprom), buttons, nullReads).cursor;
      && c.menusPos < |MENUS|
      && (c.subMenu ==> c.menusPos < SAVE_MENU && c.subMenuPos < Length(c.menusPos))
      && (!c.subMenu ==> c.subMenuPos == 0)
  {
    var c := Run(Machine(HOME, settings, eeprom), buttons, nullReads).cursor;
    if c.subMenu {
      SubMenuOnlyInSettingsMenus(c);
    }
  }

  // ---------------------------------------------------------------------------
  // The Plus button
  // ---------------------------------------------------------------------------

  /** Opening a sub-menu lands on its Back entry. */
  lemma EnterLandsOnBack(m: Machine, nullReads: seq<byte>)
    requires WellFormed(m) && |nullReads| == |MENUS|
    requires !m.cursor.subMenu && m.cursor.menusPos < SAVE_MENU
    ensures var c := Plus(m, nullReads).cursor;
      c.subMenu && c.menusPos == m.cursor.menusPos && MENUS[c.menusPos].entries[c.subMenuPos] == BACK_ENTRY
  {
    MenuSizes(m.cursor.menusPos);
    EntryLayout(m.cursor.menusPos, 0);
  }

  /** Plus inside a sub-menu: on Back it leaves the sub-menu; on a numeric
      entry it adds 1 modulo 256 to the setting at that entry's address; on
      an ON/OFF entry it sets 1 if the setting was 0 and 0 otherwise. No
      other setting, cursor field or EEPROM byte changes. */
  lemma PlusInSubMenu(m: Machine, nullReads: seq<byte>)
    requires WellFormed(m) && |nullReads| == |MENUS| && m.cursor.subMenu
    ensures m.cursor.subMenuPos == 0 ==> Plus(m, nullReads) == m.(cursor := m.cursor.(subMenu := false))
    ensures m.cursor.subMenuPos != 0 ==>
      var entry := MENUS[m.cursor.menusPos].entries[m.cursor.subMenuPos];
      var v := m.settings[entry.address];
      && entry.kind != Back
      && Plus(m, nullReads) == m.(settings := m.settings[entry.address :=
           if entry.kind == Numeric then (v as int + 1) % 256 else if v == 0 then 1 else 0])
  {
    if m.cursor.subMenuPos != 0 {
      EntryLayout(m.cursor.menusPos, m.cursor.subMenuPos);
    }
  }

  /** Minus on a setting entry of an open sub-menu: on a numeric entry it
      subtracts 1 modulo 256 from the setting at that entry's address; on an
      ON/OFF entry it sets 1 if the setting was 0 and 0 otherwise, so any
      other byte (such as 255 loaded from erased EEPROM) becomes 0. No other
      setting, cursor field or EEPROM byte changes. */
  lemma MinusInSubMenu(m: Machine)
    requires WellFormed(m) && m.cursor.subMenu && m.cursor.subMenuPos != 0
    ensures var entry := MENUS[m.cursor.menusPos].entries[m.cursor.subMenuPos];
      var v := m.settings[entry.address];
      && entry.kind != Back
      && Minus(m) == m.(settings := m.settings[entry.address :=
           if entry.kind == Numeric then (v as int - 1) % 256 else if v == 0 then 1 else 0])
  {
    EntryLayout(m.cursor.menusPos, m.cursor.subMenuPos);
  }

  /** Plus at the top level: on Save it writes EEPROM and nothing else; on
      Reset it restores the factory state; elsewhere it only opens the
      sub-menu. */
  lemma PlusAtTopLevel(m: Machine, nullReads: seq<byte>)
    requires WellFormed(m) && |nullReads| == |MENUS| && !m.cursor.subMenu
    ensures m.cursor.menusPos == SAVE_MENU ==>
      Plus(m, nullReads) == m.(eeprom := SaveImage(m.eeprom, m.settings, nullReads))
    ensures m.cursor.menusPos == RESET_MENU ==>
      Plus(m, nullReads) == Machine(HOME, FactoryDefaults(), m.eeprom)
    ensures m.cursor.menusPos < SAVE_MENU ==>
      Plus(m, nullReads) == m.(cursor := m.cursor.(subMenu := true))
  {
  }

  /** Minus undoes Plus on a numeric entry, for every value including the
      255/0 wrap; on an ON/OFF entry it only restores values 0 and 1, since
      negation maps every non-zero byte to 0. */
  lemma MinusUndoesPlus(m: Machine, nullReads: seq<byte>)
    requires WellFormed(m) && |nullReads| == |MENUS|
    requires m.cursor.subMenu && m.cursor.subMenuPos != 0
    ensures var entry := MENUS[m.cursor.menusPos].entries[m.cursor.subMenuPos];
      var v := m.settings[entry.address];
      && (entry.kind == Numeric ==> Minus(Plus(m, nullReads)) == m)
      && (entry.kind == OnOff ==>
            Minus(Plus(m, nullReads)) == m.(settings := m.settings[entry.address := if v == 0 then 0 else 1]))
  {
    var a := Target(m.cursor.menusPos, m.cursor.subMenuPos);
    var entry := MENUS[m.cursor.menusPos].entries[m.cursor.subMenuPos];
    if entry.kind == Numeric {
      assert Minus(Plus(m, nullReads)).settings == m.settings[a := Dec8(Inc8(m.settings[a]))];
    }
  }

  /** `handleInput` runs exactly one handler, chosen by the button number;
      Minus runs only on a non-Back entry of an open sub-menu, and any other
      press changes nothing. */
  lemma InputDispatch(m: Machine, button: byte, nullReads: seq<byte>)
    requires WellFormed(m) && |nullReads| == |MENUS|
    ensures button == MENU_BUTTON ==> Input(m, button, nullReads) == m.(cursor := MenuButton(m.cursor))
    ensures button == PLUS_BUTTON ==> Input(m, button, nullReads) == Plus(m, nullReads)
    ensures button == MINUS_BUTTON && m.cursor.subMenu && m.cursor.subMenuPos != 0 ==>
      Input(m, button, nullReads) == Minus(m)
    ensures !Dispatches(m.cursor, button) ==> Input(m, button, nullReads) == m
  {
  }

  /** The Menu button moves the cursor only: to the next menu modulo 8 at
      the top level, or to the next entry modulo the sub-menu's length. */
  lemma MenuButtonSteps(c: Cursor)
    requires CursorOk(c)
    ensures !c.subMenu ==> MenuButton(c) == c.(menusPos := (c.menusPos + 1) % |MENUS|)
    ensures c.subMenu ==> MenuButton(c) == c.(subMenuPos := (c.subMenuPos + 1) % Length(c.menusPos))
  {
    MenuSizes(c.menusPos);
  }
}
