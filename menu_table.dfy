/** The two-level menu table of the controller: eight top-level menus, the
    first six of which list settings, each setting bound to a one-byte slot
    whose index is its EEPROM address. */
module MenuTable {
  import opened Bytes

  /** The type tag of a sub-menu entry: 0 is a numeric value, 1 an ON/OFF
      value, 2 the "Back..." navigation entry. */
  datatype Kind = Numeric | OnOff | Back

  /** The `byte *value` of an entry: NULL, or the setting variable stored
      at EEPROM address `slot`. */
  datatype Ref = Null | To(slot: nat)

  datatype Entry = Entry(address: byte, name: string, kind: Kind, value: Ref)

  /** A top-level menu; `Save` and `Reset` have no entries (a NULL table of
      length 0). */
  datatype Menu = Menu(name: string, entries: seq<Entry>)

  /** The setting variables, by EEPROM address. */
  const PUMP_ADDR: nat := 0
  const WATER_SENSOR_ADDR: nat := 1
  const VALVE_ADDR: nat := 2
  const ZONE1_ADDR: nat := 3
  const ZONE2_ADDR: nat := 4
  const ZONE3_ADDR: nat := 5
  const ZONE4_ADDR: nat := 6
  const SENSOR_ZONE1_ADDR: nat := 7
  const SENSOR_ZONE2_ADDR: nat := 8
  const SENSOR_ZONE3_ADDR: nat := 9
  const SENSOR_ZONE4_ADDR: nat := 10
  const HOUR_ADDR: nat := 11
  const MINUTES_ADDR: nat := 12
  const CLOCK_HOUR_ADDR: nat := 13
  const CLOCK_MINUTES_ADDR: nat := 14
  const CLOCK_STATE_ADDR: nat := 15
  const LIMIT_ADDR: nat := 16
  const NUM_SETTINGS: nat := 17

  const NUM_ZONES: nat := 4

  /** Address of the ON/OFF flag `zone<z>`, for zones 1 to 4. */
  function ZoneAddr(z: nat): (a: nat)
    requires 1 <= z <= NUM_ZONES
    ensures 3 <= a <= 6
  {
    2 + z
  }

  /** Address of the moisture threshold `sensorZone<z>`, for zones 1 to 4. */
  function SensorZoneAddr(z: nat): (a: nat)
    requires 1 <= z <= NUM_ZONES
    ensures 7 <= a <= 10
  {
    6 + z
  }

  /** Positions of the two action menus. */
  const SAVE_MENU: nat := 6
  const RESET_MENU: nat := 7

  /** The Back entry that opens every settings menu: address NULL, value NULL. */
  const BACK_ENTRY: Entry := Entry(0, "Back...", Back, Null)

  const MENUS: seq<Menu> := [
    Menu("Hardwares", [BACK_ENTRY,
                       Entry(0, "Pump", OnOff, To(0)),
                       Entry(1, "Water sensor", OnOff, To(1)),
                       Entry(2, "Valve", OnOff, To(2))]),
    Menu("Zones", [BACK_ENTRY,
                   Entry(3, "Zone 1", OnOff, To(3)),
                   Entry(4, "Zone 2", OnOff, To(4)),
                   Entry(5, "Zone 3", OnOff, To(5)),
                   Entry(6, "Zone 4", OnOff, To(6))]),
    Menu("Sensors", [BACK_ENTRY,
                     Entry(7, "Zone 1", Numeric, To(7)),
                     Entry(8, "Zone 2", Numeric, To(8)),
                     Entry(9, "Zone 3", Numeric, To(9)),
                     Entry(10, "Zone 4", Numeric, To(10))]),
    Menu("Time", [BACK_ENTRY,
                  Entry(11, "Hour", Numeric, To(11)),
                  Entry(12, "Minutes", Numeric, To(12))]),
    Menu("Clock", [BACK_ENTRY,
                   Entry(13, "Hour", Numeric, To(13)),
                   Entry(14, "Minutes", Numeric, To(14)),
                   Entry(15, "State", OnOff, To(15))]),
    Menu("Delay", [BACK_ENTRY,
                   Entry(16, "Limit", Numeric, To(16))]),
    Menu("Save", []),
    Menu("Reset", [])
  ]

  /** The `length` field of menu `i`. */
  function Length(i: nat): nat
    requires i < |MENUS|
  {
    |MENUS[i].entries|
  }

  /** The address of the first setting listed in menu `i`; the settings
      are laid out in address order, menu after menu. */
  function FirstSlot(i: nat): (a: nat)
    requires i <= |MENUS|
    ensures a <= NUM_SETTINGS
  {
    if i == 0 then 0
    else if i == 1 then 3
    else if i == 2 then 7
    else if i == 3 then 11
    else if i == 4 then 13
    else if i == 5 then 16
    else NUM_SETTINGS
  }

  /** The sizes 4, 5, 5, 3, 4, 2, 0, 0: each settings menu lists its
      settings plus the Back entry, and the two action menus are empty. */
  lemma MenuSizes(i: nat)
    requires i < |MENUS|
    ensures i < SAVE_MENU ==> Length(i) == FirstSlot(i + 1) - FirstSlot(i) + 1 >= 2
    ensures i >= SAVE_MENU ==> Length(i) == 0
  {
    if i == 0 {
    } else if i == 1 {
    } else if i == 2 {
    } else if i == 3 {
    } else if i == 4 {
    } else if i == 5 {
    } else if i == 6 {
    } else {
    }
  }

  /** The shape of every entry: position 0 is the Back entry (address NULL,
      value NULL) and position j > 0 is the setting at address
      FirstSlot(i) + j - 1, whose pointer refers to that same setting. */
  lemma EntryLayout(i: nat, j: nat)
    requires i < |MENUS| && j < Length(i)
    ensures (MENUS[i].entries[j].kind == Back) <==> j == 0
    ensures j == 0 ==> MENUS[i].entries[j] == BACK_ENTRY
    ensures j > 0 ==> MENUS[i].entries[j].address == FirstSlot(i) + j - 1 < NUM_SETTINGS
    ensures j > 0 ==> MENUS[i].entries[j].value == To(FirstSlot(i) + j - 1)
  {
    MenuSizes(i);
    if i == 0 {
    } else if i == 1 {
    } else if i == 2 {
    } else if i == 3 {
    } else if i == 4 {
    } else {
    }
  }

  /** Every setting has exactly one entry: the EEPROM addresses 0 to 16
      are keyed by one entry each, and no two entries share one. */
  lemma AddressesUnique(i: nat, j: nat, i': nat, j': nat)
    requires i < |MENUS| && 0 < j < Length(i)
    requires i' < |MENUS| && 0 < j' < Length(i')
    requires MENUS[i].entries[j].address == MENUS[i'].entries[j'].address
    ensures i == i' && j == j'
  {
    EntryLayout(i, j);
    EntryLayout(i', j');
    MenuSizes(i);
    MenuSizes(i');
  }

  /** The entry bound to a setting address, for every address. */
  lemma AddressCovered(a: nat)
    requires a < NUM_SETTINGS
    ensures exists i, j :: 0 <= i < |MENUS| && 0 < j < Length(i) && MENUS[i].entries[j].address == a
  {
    var i := if a < 3 then 0 else if a < 7 then 1 else if a < 11 then 2
             else if a < 13 then 3 else if a < 16 then 4 else 5;
    MenuSizes(i);
    EntryLayout(i, a - FirstSlot(i) + 1);
  }

  /** The setting slot that the pointer of entry `j` of menu `i` refers to. */
  function Target(i: nat, j: nat): (a: nat)
    requires i < |MENUS| && 0 < j < Length(i)
    ensures a < NUM_SETTINGS
    ensures MENUS[i].entries[j].value == To(a) && MENUS[i].entries[j].address == a
  {
    EntryLayout(i, j);
    MENUS[i].entries[j].value.slot
  }
}
