/** The parameter store: the seventeen one-byte settings, their factory
    defaults, and the two table-driven loops that copy them to and from
    EEPROM. Settings and EEPROM are given as sequences indexed by address;
    the functions here follow the loops entry by entry, and the lemmas give
    the state they leave behind. */
module ParameterStore {
  import opened Bytes
  import opened MenuTable

  /** The menu that holds the last Back entry the save loop visits. */
  const LAST_BACK_MENU: nat := 5

  /** Factory values: every zone threshold 50, every other setting 0. */
  function FactoryDefaults(): (d: seq<byte>)
    ensures |d| == NUM_SETTINGS
    ensures forall z :: 1 <= z <= NUM_ZONES ==> d[SensorZoneAddr(z)] == 50
    ensures forall a :: 0 <= a < NUM_SETTINGS && !(7 <= a <= 10) ==> d[a] == 0
  {
    [0, 0, 0, 0, 0, 0, 0, 50, 50, 50, 50, 0, 0, 0, 0, 0, 0]
  }

  /** A settings table holding 0 everywhere but 50 in the four thresholds
      is the factory table. */
  lemma FactoryDefaultsPointwise(s: seq<byte>)
    requires |s| == NUM_SETTINGS
    requires s[0] == s[1] == s[2] == s[3] == s[4] == s[5] == s[6] == 0
    requires s[7] == s[8] == s[9] == s[10] == 50
    requires s[11] == s[12] == s[13] == s[14] == s[15] == s[16] == 0
    ensures s == FactoryDefaults()
  {
  }

  /** `*value` for an entry's pointer. Reading through NULL yields whatever
      byte sits at data address 0 at that moment, which is `junk`. */
  function Deref(r: Ref, s: seq<byte>, junk: byte): byte
    requires r.To? ==> r.slot < |s|
  {
    match r
    case Null => junk
    case To(a) => s[a]
  }

  // ---------------------------------------------------------------------------
  // saveParameters
  // ---------------------------------------------------------------------------

  /** One iteration of the inner save loop: `EEPROM.update(address, *value)`
      unless the entry's address is 2. `nullReads[i]` is what the NULL
      pointer of menu i's Back entry yields. */
  function SaveEntry(e: seq<byte>, s: seq<byte>, nullReads: seq<byte>, i: nat, j: nat): (r: seq<byte>)
    requires |s| == NUM_SETTINGS <= |e| && |nullReads| == |MENUS|
    requires i < |MENUS| && j < Length(i)
    ensures |r| == |e|
    ensures forall a :: 0 <= a < |e| && a != MENUS[i].entries[j].address ==> r[a] == e[a]
    ensures MENUS[i].entries[j].address == VALVE_ADDR ==> r == e
    ensures j > 0 && MENUS[i].entries[j].address != VALVE_ADDR ==>
      r[MENUS[i].entries[j].address] == s[MENUS[i].entries[j].address]
  {
    EntryLayout(i, j);
    var entry := MENUS[i].entries[j];
    if entry.address != VALVE_ADDR then e[entry.address := Deref(entry.value, s, nullReads[i])] else e
  }

  /** EEPROM after the inner save loop has handled the first `j` entries of menu `i`. */
  function SaveEntries(e: seq<byte>, s: seq<byte>, nullReads: seq<byte>, i: nat, j: nat): (r: seq<byte>)
    requires |s| == NUM_SETTINGS <= |e| && |nullReads| == |MENUS|
    requires i < |MENUS| && j <= Length(i)
    ensures |r| == |e|
    decreases j
  {
    if j == 0 then e else SaveEntry(SaveEntries(e, s, nullReads, i, j - 1), s, nullReads, i, j - 1)
  }

  /** EEPROM after the outer save loop has handled the first `i` menus. */
  function SaveMenus(e: seq<byte>, s: seq<byte>, nullReads: seq<byte>, i: nat): (r: seq<byte>)
    requires |s| == NUM_SETTINGS <= |e| && |nullReads| == |MENUS|
    requires i <= |MENUS|
    ensures |r| == |e|
  {
    if i == 0 then e else SaveEntries(SaveMenus(e, s, nullReads, i - 1), s, nullReads, i - 1, Length(i - 1))
  }

  /** EEPROM after `saveParameters`. */
  function SaveImage(e: seq<byte>, s: seq<byte>, nullReads: seq<byte>): (r: seq<byte>)
    requires |s| == NUM_SETTINGS <= |e| && |nullReads| == |MENUS|
    ensures |r| == |e|
  {
    SaveMenus(e, s, nullReads, |MENUS|)
  }

  /** The settings handled once menu `i` has been processed up to entry `j`
      are those with addresses below `Progress(i, j)`. */
  function Progress(i: nat, j: nat): nat
    requires i < |MENUS|
  {
    FirstSlot(i) + if j == 0 then 0 else j - 1
  }

  lemma {:induction false} SaveEntriesContents(e: seq<byte>, s: seq<byte>, nullReads: seq<byte>, i: nat, j: nat)
    requires |s| == NUM_SETTINGS <= |e| && |nullReads| == |MENUS|
    requires i < |MENUS| && j <= Length(i)
    ensures var r := SaveEntries(e, s, nullReads, i, j);
      && (forall a :: 1 <= a < |e| ==>
            r[a] == if a != VALVE_ADDR && FirstSlot(i) <= a < Progress(i, j) then s[a] else e[a])
      && r[0] == if j == 0 then e[0] else if i == 0 && j >= 2 then s[0] else nullReads[i]
  {
    MenuSizes(i);
    if j > 0 {
      SaveEntriesContents(e, s, nullReads, i, j - 1);
      EntryLayout(i, j - 1);
    }
  }

  lemma {:induction false} SaveMenusContents(e: seq<byte>, s: seq<byte>, nullReads: seq<byte>, i: nat)
    requires |s| == NUM_SETTINGS <= |e| && |nullReads| == |MENUS|
    requires i <= |MENUS|
    ensures var r := SaveMenus(e, s, nullReads, i);
      && (forall a :: 1 <= a < |e| ==> r[a] == if a != VALVE_ADDR && a < FirstSlot(i) then s[a] else e[a])
      && r[0] == if i == 0 then e[0] else if i == 1 then s[0] else if i <= SAVE_MENU then nullReads[i - 1] else nullReads[LAST_BACK_MENU]
  {
    if i > 0 {
      var before := SaveMenus(e, s, nullReads, i - 1);
      SaveMenusContents(e, s, nullReads, i - 1);
      SaveEntriesContents(before, s, nullReads, i - 1, Length(i - 1));
      MenuSizes(i - 1);
      assert SaveMenus(e, s, nullReads, i) == SaveEntries(before, s, nullReads, i - 1, Length(i - 1));
      assert Progress(i - 1, Length(i - 1)) == FirstSlot(i);
    }
  }

  /** What `saveParameters` leaves in EEPROM: every setting at address 1 or
      3..16 is written; slot 2 (Valve) keeps its old byte because of the
      `address != 2` guard; slot 0 ends with the byte read through the NULL
      pointer of the last Back entry, which overwrites Pump; the rest of
      EEPROM is untouched. */
  lemma SaveImageContents(e: seq<byte>, s: seq<byte>, nullReads: seq<byte>)
    requires |s| == NUM_SETTINGS <= |e| && |nullReads| == |MENUS|
    ensures var r := SaveImage(e, s, nullReads);
      && r[PUMP_ADDR] == nullReads[LAST_BACK_MENU]
      && r[VALVE_ADDR] == e[VALVE_ADDR]
      && (forall a :: 0 < a < NUM_SETTINGS && a != VALVE_ADDR ==> r[a] == s[a])
      && (forall a :: NUM_SETTINGS <= a < |e| ==> r[a] == e[a])
  {
    SaveMenusContents(e, s, nullReads, |MENUS|);
  }

  // ---------------------------------------------------------------------------
  // loadParameters
  // ---------------------------------------------------------------------------

  /** One iteration of the inner load loop: `*value = EEPROM.read(address)`
      unless the entry is a Back entry. */
  function LoadEntry(s: seq<byte>, e: seq<byte>, i: nat, j: nat): (r: seq<byte>)
    requires |s| == NUM_SETTINGS <= |e|
    requires i < |MENUS| && j < Length(i)
    ensures |r| == NUM_SETTINGS
    ensures forall a :: 0 <= a < NUM_SETTINGS && a != MENUS[i].entries[j].address ==> r[a] == s[a]
    ensures j == 0 ==> r == s
    ensures j > 0 ==> r[MENUS[i].entries[j].address] == e[MENUS[i].entries[j].address]
  {
    EntryLayout(i, j);
    var entry := MENUS[i].entries[j];
    if entry.kind != Back then s[entry.value.slot := e[entry.address]] else s
  }

  /** Settings after the inner load loop has handled the first `j` entries of menu `i`. */
  function LoadEntries(s: seq<byte>, e: seq<byte>, i: nat, j: nat): (r: seq<byte>)
    requires |s| == NUM_SETTINGS <= |e|
    requires i < |MENUS| && j <= Length(i)
    ensures |r| == NUM_SETTINGS
    decreases j
  {
    if j == 0 then s else LoadEntry(LoadEntries(s, e, i, j - 1), e, i, j - 1)
  }

  /** Settings after the outer load loop has handled the first `i` menus. */
  function LoadMenus(s: seq<byte>, e: seq<byte>, i: nat): (r: seq<byte>)
    requires |s| == NUM_SETTINGS <= |e|
    requires i <= |MENUS|
    ensures |r| == NUM_SETTINGS
  {
    if i == 0 then s else LoadEntries(LoadMenus(s, e, i - 1), e, i - 1, Length(i - 1))
  }

  /** Settings after `loadParameters`. */
  function LoadImage(s: seq<byte>, e: seq<byte>): (r: seq<byte>)
    requires |s| == NUM_SETTINGS <= |e|
    ensures |r| == NUM_SETTINGS
  {
    LoadMenus(s, e, |MENUS|)
  }

  lemma {:induction false} LoadEntriesContents(s: seq<byte>, e: seq<byte>, i: nat, j: nat)
    requires |s| == NUM_SETTINGS <= |e|
    requires i < |MENUS| && j <= Length(i)
    ensures var r := LoadEntries(s, e, i, j);
      forall a :: 0 <= a < NUM_SETTINGS ==> r[a] == if FirstSlot(i) <= a < Progress(i, j) then e[a] else s[a]
  {
    MenuSizes(i);
    if j > 0 {
      LoadEntriesContents(s, e, i, j - 1);
      EntryLayout(i, j - 1);
    }
  }

  lemma {:induction false} LoadMenusContents(s: seq<byte>, e: seq<byte>, i: nat)
    requires |s| == NUM_SETTINGS <= |e|
    requires i <= |MENUS|
    ensures var r := LoadMenus(s, e, i);
      forall a :: 0 <= a < NUM_SETTINGS ==> r[a] == if a < FirstSlot(i) then e[a] else s[a]
  {
    if i > 0 {
      LoadMenusContents(s, e, i - 1);
      LoadEntriesContents(LoadMenus(s, e, i - 1), e, i - 1, Length(i - 1));
      MenuSizes(i - 1);
    }
  }

  /** What `loadParameters` leaves in the settings: every setting, 0 to 16,
      holds the EEPROM byte at its own address, whatever it held before. */
  lemma LoadImageContents(s: seq<byte>, e: seq<byte>)
    requires |s| == NUM_SETTINGS <= |e|
    ensures LoadImage(s, e) == e[..NUM_SETTINGS]
  {
    LoadMenusContents(s, e, |MENUS|);
  }

  /** Saving and then loading restores every setting at address 1 or 3..16;
      Valve comes back as the EEPROM byte that was there before the save,
      and Pump as the byte read through the last NULL pointer. */
  lemma SaveLoadRoundTrip(e: seq<byte>, s: seq<byte>, s': seq<byte>, nullReads: seq<byte>)
    requires |s| == |s'| == NUM_SETTINGS <= |e| && |nullReads| == |MENUS|
    ensures var r := LoadImage(s', SaveImage(e, s, nullReads));
      && (forall a :: 0 < a < NUM_SETTINGS && a != VALVE_ADDR ==> r[a] == s[a])
      && r[VALVE_ADDR] == e[VALVE_ADDR]
      && r[PUMP_ADDR] == nullReads[LAST_BACK_MENU]
  {
    SaveImageContents(e, s, nullReads);
    LoadImageContents(s', SaveImage(e, s, nullReads));
  }

  /** Saving twice in a row writes the same bytes as saving once, as long as
      the last NULL read is the same. */
  lemma SaveIdempotent(e: seq<byte>, s: seq<byte>, nullReads: seq<byte>, nullReads': seq<byte>)
    requires |s| == NUM_SETTINGS <= |e| && |nullReads| == |nullReads'| == |MENUS|
    requires nullReads[LAST_BACK_MENU] == nullReads'[LAST_BACK_MENU]
    ensures SaveImage(SaveImage(e, s, nullReads), s, nullReads') == SaveImage(e, s, nullReads)
  {
    var once := SaveImage(e, s, nullReads);
    SaveImageContents(e, s, nullReads);
    SaveImageContents(once, s, nullReads');
    assert forall a :: 0 <= a < |e| ==> SaveImage(once, s, nullReads')[a] == once[a];
  }
}
