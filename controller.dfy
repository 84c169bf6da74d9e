/** The sketch's global state and its functions, as one object. The setting
    variables live in `settings`, indexed by their EEPROM address, so that
    the menu entries' `byte *value` pointers become indices into it. Each
    method is proved against the matching function of MenuMachine,
    ParameterStore, Watering or Debounce, or states its new state directly
    where there is none. */
module Irrigation {
  import opened Bytes
  import opened MenuTable
  import opened ParameterStore
  import opened MenuMachine
  import opened Watering
  import opened Debounce

  class Controller {
    /** pump, waterSensor, valve, zone1..4, sensorZone1..4, hour, minutes,
        clockHour, clockMinutes, clockState, limit, by EEPROM address. */
    const settings: array<byte>
    /** The EEPROM; `EEPROM.update` is a write, `EEPROM.read` a read. */
    const eeprom: array<byte>
    /** The levels last written to the pump and valve pins; LOW is on. */
    const outputs: array<Level>

    var warningLed: Level
    var warningLedStart: u32
    var menusPos: byte
    var subMenuPos: byte
    var subMenu: bool
    var buttonPressed: bool
    var currentButton: byte
    var lastInterruptTime: u32
    /** When the display was last refreshed; the backlight goes off 20 s later. */
    var backlightStart: u32

    function Cursor(): MenuMachine.Cursor
      reads this
    {
      MenuMachine.Cursor(menusPos, subMenuPos, subMenu)
    }

    /** The part of the state the menu handlers work on. */
    function State(): Machine
      reads this, settings, eeprom
    {
      Machine(Cursor(), settings[..], eeprom[..])
    }

    function Edge(): Debounced
      reads this
    {
      Debounced(buttonPressed, currentButton, lastInterruptTime)
    }

    function Warning(): Indicator
      reads this
    {
      Indicator(warningLed, warningLedStart)
    }

    ghost predicate Valid()
      reads this, outputs
    {
      && settings.Length == NUM_SETTINGS <= eeprom.Length
      && settings != eeprom
      && outputs.Length == NUM_OUTPUTS
      && CursorOk(Cursor())
      && PumpCoversValves(outputs[..])
    }

    /** `setup`: the globals start at zero, the warning LED and all outputs
        are switched off, and the settings are loaded from EEPROM, whose
        contents survive from before the power-up. */
    constructor Setup(persisted: seq<byte>, now: u32)
      requires NUM_SETTINGS <= |persisted|
      ensures Valid() && fresh(settings) && fresh(eeprom) && fresh(outputs)
      ensures eeprom[..] == persisted
      ensures settings[..] == persisted[..NUM_SETTINGS]
      ensures Cursor() == HOME && outputs[..] == ALL_OFF && warningLed == Low && warningLedStart == 0
      ensures Edge() == Debounced(false, 0, 0) && backlightStart == now
    {
      settings := new byte[NUM_SETTINGS];
      eeprom := new byte[|persisted|](i requires 0 <= i < |persisted| => persisted[i]);
      outputs := new Level[NUM_OUTPUTS];
      warningLed, warningLedStart := Low, 0;
      menusPos, subMenuPos, subMenu := 0, 0, false;
      buttonPressed, currentButton, lastInterruptTime := false, 0, 0;
      backlightStart := 0;
      new;
      assert eeprom[..] == persisted;
      StopAll();
      ghost var zeroed := settings[..];
      LoadParameters();
      LoadImageContents(zeroed, eeprom[..]);
      DisplayScreen(now);
    }

    /** `readButtons`, run on every LOW level of the interrupt pin. */
    method ReadButtons(now: u32, menuPin: Level, plusPin: Level, minusPin: Level)
      modifies this`buttonPressed, this`currentButton, this`lastInterruptTime
      ensures Edge() == Step(old(Edge()), RawEdge(now, menuPin, plusPin, minusPin))
    {
      if Elapsed(lastInterruptTime, now) > DEBOUNCE_MS {
        buttonPressed := true;
        currentButton := if menuPin == Low then 0 else currentButton;
        currentButton := if plusPin == Low then 1 else currentButton;
        currentButton := if minusPin == Low then 2 else currentButton;
      }
      lastInterruptTime := now;
    }

    /** `displayScreen`, whose drawing is not modelled: it restarts the
        backlight timer. */
    method DisplayScreen(now: u32)
      modifies this`backlightStart
      ensures backlightStart == now
    {
      backlightStart := now;
    }

    /** `handleButtonMenu`. */
    method HandleButtonMenu(now: u32)
      requires Valid()
      modifies this`menusPos, this`subMenuPos, this`backlightStart
      ensures Valid()
      ensures Cursor() == MenuButton(old(Cursor()))
      ensures backlightStart == now
    {
      if !subMenu {
        menusPos := Inc8(menusPos);
        if menusPos >= |MENUS| {
          menusPos := 0;
        }
      } else {
        subMenuPos := Inc8(subMenuPos);
        if subMenuPos >= Length(menusPos) {
          subMenuPos := 0;
        }
      }
      DisplayScreen(now);
    }

    /** `handleButtonPlus`. */
    method HandleButtonPlus(now: u32, nullReads: seq<byte>)
      requires Valid() && |nullReads| == |MENUS|
      modifies this`menusPos, this`subMenuPos, this`subMenu, this`backlightStart, settings, eeprom
      ensures Valid()
      ensures State() == Plus(old(State()), nullReads)
      ensures backlightStart == now
    {
      ghost var m := State();
      InputKeepsWellFormed(m, PLUS_BUTTON, nullReads);
      if subMenu {
        if subMenuPos == 0 {
          subMenu := false;
        } else {
          var a := Target(menusPos, subMenuPos);
          if MENUS[menusPos].entries[subMenuPos].kind == Numeric {
            settings[a] := Inc8(settings[a]);
          } else {
            settings[a] := LogicalNot(settings[a]);
          }
        }
      } else {
        if menusPos == SAVE_MENU {
          SaveParameters(nullReads);
        } else if menusPos == RESET_MENU {
          ResetParameters();
        } else {
          subMenu := true;
        }
      }
      DisplayScreen(now);
    }

    /** `handleButtonMinus`, which `handleInput` calls only on a non-Back
        entry of an open sub-menu. */
    method HandleButtonMinus(now: u32)
      requires Valid() && subMenu && subMenuPos != 0
      modifies this`backlightStart, settings
      ensures Valid()
      ensures State() == Minus(old(State()))
      ensures backlightStart == now
    {
      var a := Target(menusPos, subMenuPos);
      if MENUS[menusPos].entries[subMenuPos].kind == Numeric {
        settings[a] := Dec8(settings[a]);
      } else {
        settings[a] := LogicalNot(settings[a]);
      }
      DisplayScreen(now);
    }

    /** `handleInput`: take the pending press and run its handler. */
    method HandleInput(now: u32, nullReads: seq<byte>)
      requires Valid() && |nullReads| == |MENUS|
      modifies this`buttonPressed, this`menusPos, this`subMenuPos, this`subMenu, this`backlightStart, settings, eeprom
      ensures Valid() && !buttonPressed
      ensures State() == Input(old(State()), currentButton, nullReads)
      ensures backlightStart == if Dispatches(old(Cursor()), currentButton) then now else old(backlightStart)
    {
      buttonPressed := false;
      if currentButton == MENU_BUTTON {
        HandleButtonMenu(now);
      }
      if currentButton == PLUS_BUTTON {
        HandleButtonPlus(now, nullReads);
      }
      if currentButton == MINUS_BUTTON && subMenu && subMenuPos != 0 {
        HandleButtonMinus(now);
      }
    }

    /** `resetParameters`. */
    method ResetParameters()
      requires Valid()
      modifies this`menusPos, this`subMenuPos, this`subMenu, settings
      ensures Valid()
      ensures State() == Reset(old(State()))
    {
      menusPos := 0;
      subMenuPos := 0;
      subMenu := false;

      settings[PUMP_ADDR] := 0;
      settings[VALVE_ADDR] := 0;
      settings[WATER_SENSOR_ADDR] := 0;
      settings[ZONE1_ADDR] := 0;
      settings[ZONE2_ADDR] := 0;
      settings[ZONE3_ADDR] := 0;
      settings[ZONE4_ADDR] := 0;
      settings[SENSOR_ZONE1_ADDR] := 50;
      settings[SENSOR_ZONE2_ADDR] := 50;
      settings[SENSOR_ZONE3_ADDR] := 50;
      settings[SENSOR_ZONE4_ADDR] := 50;
      settings[HOUR_ADDR] := 0;
      settings[MINUTES_ADDR] := 0;
      settings[CLOCK_HOUR_ADDR] := 0;
      settings[CLOCK_MINUTES_ADDR] := 0;
      settings[CLOCK_STATE_ADDR] := 0;
      settings[LIMIT_ADDR] := 0;
      FactoryDefaultsPointwise(settings[..]);
    }

    /** `saveParameters`: every entry of every menu, Back entries included,
        is written to EEPROM at its address unless that address is 2; a
        Back entry's value is read through its NULL pointer, which yields
        `nullReads[i]` in menu i. */
    method SaveParameters(nullReads: seq<byte>)
      requires Valid() && |nullReads| == |MENUS|
      modifies eeprom
      ensures Valid()
      ensures eeprom[..] == SaveImage(old(eeprom[..]), settings[..], nullReads)
    {
      ghost var e0 := eeprom[..];
      for i := 0 to |MENUS|
        invariant eeprom[..] == SaveMenus(e0, settings[..], nullReads, i)
      {
        for j := 0 to Length(i)
          invariant eeprom[..] == SaveEntries(SaveMenus(e0, settings[..], nullReads, i), settings[..], nullReads, i, j)
        {
          EntryLayout(i, j);
          var entry := MENUS[i].entries[j];
          if entry.address != VALVE_ADDR {
            var v := match entry.value
              case Null => nullReads[i]
              case To(a) => settings[a];
            eeprom[entry.address] := v;
          }
        }
      }
    }

    /** `loadParameters`: every entry that is not a Back entry gets the
        EEPROM byte at its address. */
    method LoadParameters()
      requires Valid()
      modifies settings
      ensures Valid()
      ensures settings[..] == LoadImage(old(settings[..]), eeprom[..])
    {
      ghost var s0 := settings[..];
      for i := 0 to |MENUS|
        invariant settings[..] == LoadMenus(s0, eeprom[..], i)
      {
        for j := 0 to Length(i)
          invariant settings[..] == LoadEntries(LoadMenus(s0, eeprom[..], i), eeprom[..], i, j)
        {
          EntryLayout(i, j);
          var entry := MENUS[i].entries[j];
          if entry.kind != Back {
            settings[entry.value.slot] := eeprom[entry.address];
          }
        }
      }
    }

    /** `handleWater`, given the four moisture measures and the level of
        the water-level pin as read on this pass. */
    method HandleWater(measures: seq<byte>, waterLevel: Level, now: u32)
      requires Valid() && |measures| == NUM_ZONES
      modifies outputs, this`warningLed, this`warningLedStart
      ensures Valid()
      ensures outputs[..] == WaterOutputs(old(outputs[..]), settings[..], measures, waterLevel)
      ensures Warning() == WarningLed(old(Warning()), settings[..], waterLevel, now)
    {
      WaterKeepsPumpCoversValves(outputs[..], settings[..], measures, waterLevel);
      if waterLevel == High || settings[WATER_SENSOR_ADDR] == 0 {
        warningLed := Low;

        if settings[ZoneAddr(1)] == 1 && measures[0] < settings[SensorZoneAddr(1)] {
          outputs[PUMP_OUT] := Low;
          outputs[1] := Low;
        } else if settings[ZoneAddr(2)] == 1 && measures[1] < settings[SensorZoneAddr(2)] {
          outputs[PUMP_OUT] := Low;
          outputs[2] := Low;
        } else if settings[ZoneAddr(3)] == 1 && measures[2] < settings[SensorZoneAddr(3)] {
          outputs[PUMP_OUT] := Low;
          outputs[3] := Low;
        } else if settings[ZoneAddr(4)] == 1 && measures[3] < settings[SensorZoneAddr(4)] {
          outputs[PUMP_OUT] := Low;
          outputs[4] := Low;
        } else {
          StopAll();
        }
      } else {
        if Elapsed(warningLedStart, now) > BLINK_MS {
          warningLed := Toggle(warningLed);
          warningLedStart := now;
        }
        StopAll();
      }
    }

    /** `stopAll`. */
    method StopAll()
      requires outputs.Length == NUM_OUTPUTS
      modifies outputs
      ensures outputs[..] == ALL_OFF
    {
      outputs[PUMP_OUT] := High;
      outputs[1] := High;
      outputs[2] := High;
      outputs[3] := High;
      outputs[4] := High;
    }

    /** One pass of `loop`: handle a pending press, then decide the outputs
        (the backlight timeout only concerns the display). */
    method Loop(now: u32, measures: seq<byte>, waterLevel: Level, nullReads: seq<byte>)
      requires Valid() && |measures| == NUM_ZONES && |nullReads| == |MENUS|
      modifies this`buttonPressed, this`menusPos, this`subMenuPos, this`subMenu, this`backlightStart, settings, eeprom
      modifies outputs, this`warningLed, this`warningLedStart
      ensures Valid() && !buttonPressed
      ensures State() == if old(buttonPressed) then Input(old(State()), currentButton, nullReads) else old(State())
      ensures outputs[..] == WaterOutputs(old(outputs[..]), settings[..], measures, waterLevel)
      ensures Warning() == WarningLed(old(Warning()), settings[..], waterLevel, now)
      ensures backlightStart == if old(buttonPressed) && Dispatches(old(Cursor()), currentButton) then now else old(backlightStart)
    {
      if buttonPressed {
        HandleInput(now, nullReads);
      }
      HandleWater(measures, waterLevel, now);
    }
  }
}
