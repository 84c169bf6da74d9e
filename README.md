# Garden watering controller: verified model of the sketch's core

The sketch `main.cpp` runs a four-zone garden watering system on an Arduino.
Three buttons drive a two-level menu on a character LCD. Seventeen one-byte
settings are stored in EEPROM. On every pass of the main loop the sketch
decides which of five active-low outputs to drive: the pump and valves 1 to 4.

This project models the core of the sketch in Dafny and proves properties of
it:

- **Menu table** (`menu_table.dfy`, module `MenuTable`). There are eight
  top-level menus: Hardwares, Zones, Sensors, Time, Clock, Delay, Save and
  Reset. Their entry counts are 4, 5, 5, 3, 4, 2, 0 and 0. Entry 0 of each
  settings menu is "Back...", whose address and value pointer are both NULL.
  Entry j > 0 is bound to the setting whose EEPROM address is
  `FirstSlot(i) + j - 1`. Every address 0..16 is bound to exactly one entry.
- **Parameter store** (`parameter_store.dfy`, module `ParameterStore`).
  This module holds the factory defaults. It also follows the two nested
  table loops `saveParameters` and `loadParameters` entry by entry, and
  proves in closed form what they leave behind.
- **Menu state machine** (`menu_machine.dfy`, module `MenuMachine`). It
  models the Menu, Plus and Minus handlers and the dispatch in
  `handleInput`, as functions on the cursor, the settings and EEPROM. The
  module proves the cursor invariant over any sequence of presses, and the
  effect of each handler.
- **Watering decision** (`watering.dfy`, module `Watering`). It models the
  if/else-if chain of `handleWater`, `stopAll` and the 1 s blink of the
  warning LED.
- **Debounce** (`debounce.dfy`, module `Debounce`). It models the interrupt
  handler `readButtons` as a step on (pending flag, button, last interrupt
  time), using unsigned 32-bit subtraction.
- **The controller object** (`controller.dfy`, class
  `Irrigation.Controller`). The sketch's globals become the fields of this
  class:
  - `settings`: the 17 setting bytes, in an array indexed by EEPROM address;
  - `eeprom`: the EEPROM, as a byte array;
  - `outputs`: the five outputs;
  - the cursor fields, the debounce fields and the timers.

  Each sketch function is a method that updates these fields in place:
  `setup`, `readButtons`, the three handlers, `handleInput`,
  `resetParameters`, `saveParameters`, `loadParameters`, `handleWater`,
  `stopAll` and `loop`. Each method is proved against the matching function
  of the modules above. The invariant `Valid()` holds the cursor bounds and
  "a valve is open only while the pump runs". `Setup` establishes it. The
  handlers, `handleInput`, the reset, save, load and water methods and
  `loop` require it and keep it. `ReadButtons` and `DisplayScreen` change
  only the debounce fields and the backlight timer. `StopAll` leaves all
  outputs off.

Integers are written out at their machine width. Settings and cursor fields
are bytes, so `+= 1` and `-= 1` wrap modulo 256. Times are 32-bit
`millis()` values, so `now - last` is taken modulo 2^32. The C expression
`!v` on a byte stores 1 when `v` is 0, and 0 otherwise.

Behaviours of the code that the model keeps exactly:

- `saveParameters` skips entries whose address is 2. It does not skip
  "Back..." entries. As a result:
  - Valve (slot 2) is never saved.
  - Each Back entry writes the byte read through its NULL pointer to
    slot 0. The last such write comes after Pump's, so Pump is not
    persisted either.

  The model takes the NULL reads as a parameter, `nullReads`: one
  arbitrary byte per menu. `loadParameters` skips only type-2 entries and
  reloads all 17 settings.
- A zone's flag counts as ON only when it equals exactly 1 (`zone1 == true`).
- Only the first eligible zone, in the order 1 to 4, is served. The chain
  never closes a valve it does not name, so a valve opened on an earlier
  pass can stay open for a zone that no longer asks for water. The
  `pump`, `valve` and `limit` settings are never consulted.
- An interrupt is accepted only when more than 200 ms have passed since the
  previous one. The timer restarts on every interrupt, rejected ones
  included. Among the pins reading LOW, Minus wins over Plus, and Plus over
  Menu.

Where the system's design description and the code disagree, the model
follows the code:

- The debounce window is strict: more than 200 ms, not "at least 200 ms".
- Navigation entries are written to EEPROM.
- Valves that are not served are left as they were, not closed.

## Model

| member | source | states |
|---|---|---|
| `MenuTable.MenuSizes` | main.cpp:93-100 | the eight menus have 4, 5, 5, 3, 4, 2, 0, 0 entries; each settings menu holds its settings plus Back |
| `MenuTable.EntryLayout` | main.cpp:60-82 | entry 0 of each menu is the Back entry (type 2, address NULL, value NULL); entry j > 0 is the setting at address FirstSlot(i)+j-1, and its pointer refers to that same setting |
| `MenuTable.AddressesUnique` | main.cpp:60-82 | no two setting entries share an EEPROM address |
| `MenuTable.AddressCovered` | main.cpp:60-82 | every address 0..16 is keyed by some setting entry |
| `MenuTable.Target` | main.cpp:52-58 | the `value` pointer of a non-Back entry designates the setting whose index is the entry's own address, below 17 |
| `Bytes.Inc8` | main.cpp:214 | `+= 1` on a byte: v+1, with 255 wrapping to 0 |
| `Bytes.Dec8` | main.cpp:233 | `-= 1` on a byte: v-1, with 0 wrapping to 255 |
| `Bytes.LogicalNot` | main.cpp:216 | `v = !v` stores 1 exactly when v was 0, and 0 otherwise |
| `Bytes.Elapsed` | main.cpp:117-120 | unsigned 32-bit `now - last`: the true difference, or that difference plus 2^32 after a counter wrap |
| `ParameterStore.FactoryDefaults` | main.cpp:321-337 | the factory table: 50 for each zone threshold, 0 for every other setting |
| `ParameterStore.SaveEntry` | main.cpp:348-352 | one inner save iteration writes at most the entry's own address; it writes nothing for address 2, and the bound setting for a non-Back entry (cumulative effect: `SaveEntriesContents`) |
| `ParameterStore.SaveImage` | main.cpp:345-354 | the EEPROM after `saveParameters`; its length is kept and its contents are stated by `SaveImageContents`, `SaveLoadRoundTrip` and `SaveIdempotent` |
| `ParameterStore.LoadEntry` | main.cpp:360-364 | one inner load iteration changes at most the entry's own setting; a Back entry changes nothing, and any other entry takes the EEPROM byte at its address (cumulative effect: `LoadEntriesContents`) |
| `ParameterStore.LoadImage` | main.cpp:357-366 | the settings after `loadParameters`; their contents are stated by `LoadImageContents` and `SaveLoadRoundTrip` |
| `ParameterStore.FactoryDefaultsPointwise` | main.cpp:321-337 | a table with 50 at addresses 7..10 and 0 elsewhere is the factory table |
| `ParameterStore.SaveEntriesContents` | main.cpp:348-352 | closed form of `SaveEntries`: the inner save loop, after j entries of menu i, has written exactly the settings with addresses below Progress(i, j) (slot 2 excepted), and slot 0 holds the last value written there |
| `ParameterStore.SaveMenusContents` | main.cpp:347-353 | closed form of `SaveMenus`: the outer save loop, after i menus, has written exactly the settings below FirstSlot(i) (slot 2 excepted); slot 0 holds Pump after menu 0 and the NULL read of menu i-1 after that |
| `ParameterStore.SaveImageContents` | main.cpp:345-354 | after a save, EEPROM holds every setting at address 1 or 3..16; slot 2 keeps its old byte; slot 0 holds the NULL read of the last Back entry; bytes beyond 16 are untouched |
| `ParameterStore.LoadEntriesContents` | main.cpp:360-364 | closed form of `LoadEntries`: the inner load loop, after j entries of menu i, has loaded exactly the settings with addresses in [FirstSlot(i), Progress(i, j)) |
| `ParameterStore.LoadMenusContents` | main.cpp:359-365 | closed form of `LoadMenus`: the outer load loop, after i menus, has loaded exactly the settings below FirstSlot(i) |
| `ParameterStore.LoadImageContents` | main.cpp:357-366 | after a load, every setting 0..16 equals the EEPROM byte at its address, whatever it held before |
| `ParameterStore.SaveLoadRoundTrip` | main.cpp:345-366 | save then load restores every setting at address 1 or 3..16; Valve comes back as the old EEPROM byte and Pump as the last NULL read |
| `ParameterStore.SaveIdempotent` | main.cpp:345-354 | saving twice writes the same EEPROM as saving once, when the last NULL read is the same |
| `MenuMachine.MenuButton` | main.cpp:193-204 | the Menu handler keeps the cursor in the table, never opens or closes a sub-menu, and moves along one axis only (the exact step: `MenuButtonSteps`) |
| `MenuMachine.Plus` | main.cpp:209-226 | the Plus handler keeps the sizes and the cursor invariant; it writes EEPROM only from the Save menu, and changes settings only inside a sub-menu or from the Reset menu (per case: `PlusInSubMenu`, `PlusAtTopLevel`, `EnterLandsOnBack`) |
| `MenuMachine.Minus` | main.cpp:231-236 | the Minus handler moves no cursor, writes no EEPROM and changes only the setting bound to the current entry (its value: `MinusInSubMenu`; inverse of Plus: `MinusUndoesPlus`) |
| `MenuMachine.Input` | main.cpp:241-256 | `handleInput` keeps the sizes and changes nothing when no handler is called (dispatch: `InputDispatch`; invariant: `InputKeepsWellFormed`) |
| `MenuMachine.Reset` | main.cpp:314-338 | the reset keeps EEPROM, leaves the cursor valid, and gives 50 at addresses 7..10 and 0 elsewhere (home cursor and idempotence: `ResetState`) |
| `MenuMachine.ResetState` | main.cpp:314-338 | a factory reset puts the cursor at 0/0/out of sub-menu; it sets every ON/OFF flag, time field and limit to 0 and every threshold to 50; it leaves EEPROM alone and is idempotent |
| `MenuMachine.SubMenuOnlyInSettingsMenus` | main.cpp:218-226 | under the cursor invariant, a sub-menu is open only on menus 0..5 and subMenuPos is within that menu |
| `MenuMachine.InputKeepsWellFormed` | main.cpp:193-256 | every handled press keeps the cursor invariant (in the table; subMenuPos 0 at top level) and the table sizes |
| `MenuMachine.Run` | main.cpp:241-256 | any sequence of handled presses keeps the machine well formed |
| `MenuMachine.CursorBoundsAfterAnyPresses` | main.cpp:193-226 | from power-up, after any presses: menusPos < 8; in a sub-menu menusPos < 6 and subMenuPos < its length; at top level subMenuPos == 0 |
| `MenuMachine.EnterLandsOnBack` | main.cpp:218-226 | Plus on a settings menu opens it on its Back entry |
| `MenuMachine.PlusInSubMenu` | main.cpp:209-217 | in a sub-menu, Plus on Back leaves the sub-menu; on a numeric entry it sets the bound byte to (v+1) mod 256; on an ON/OFF entry it sets 1 if v was 0, else 0; nothing else changes |
| `MenuMachine.PlusAtTopLevel` | main.cpp:218-226 | at top level, Plus on Save writes EEPROM only, Plus on Reset gives the factory state, and anywhere else it only opens the sub-menu |
| `MenuMachine.MinusInSubMenu` | main.cpp:231-236 | on a setting entry of an open sub-menu, Minus sets the bound byte to (v-1) mod 256 if numeric, or to 1 if v was 0 and 0 otherwise if ON/OFF (so 255 from erased EEPROM becomes 0); nothing else changes |
| `MenuMachine.MinusUndoesPlus` | main.cpp:209-237 | Minus after Plus restores a numeric setting for every value, 255 included; on an ON/OFF entry it restores only 0 and 1, since any non-zero byte comes back as 1 |
| `MenuMachine.InputDispatch` | main.cpp:241-256 | handleInput runs exactly one handler, chosen by button 0 (Menu), 1 (Plus) or 2 (Minus); Minus runs only on a non-Back entry of an open sub-menu; any other press changes nothing |
| `MenuMachine.MenuButtonSteps` | main.cpp:193-204 | Menu moves to the next menu modulo 8 at top level, or to the next entry modulo the sub-menu's length, and changes nothing else |
| `Watering.FirstEligibleZone` | main.cpp:384-397 | the served zone is the least zone whose flag equals 1 and whose measure is below its threshold, or none |
| `Watering.WaterOutputs` | main.cpp:377-407 | the outputs after `handleWater`: the pump is off only when all five outputs are off; otherwise no closed valve of an ineligible zone opens (exact levels: `WateringDecision`, `ValveOpenIff`) |
| `Watering.WateringDecision` | main.cpp:377-407 | if the tank is empty and the water sensor is on, or no zone is eligible, all five outputs end HIGH; otherwise pump and the first eligible zone's valve are LOW and the other valves keep their level |
| `Watering.ValveOpenIff` | main.cpp:381-398 | a valve ends open exactly when watering is allowed, some zone is eligible, and the valve either is the served one or was already open |
| `Watering.ZoneFlagGatesValve` | main.cpp:384-395 | a closed valve whose zone flag is not 1 stays closed; the first eligible zone's valve is opened when the tank check passes |
| `Watering.WaterKeepsPumpCoversValves` | main.cpp:377-429 | after any decision a valve is open only while the pump runs, if that held before |
| `Watering.DecisionReadsOnlyZoneSettings` | main.cpp:381-395 | the decision depends only on the water-sensor flag, the zone flags and the thresholds; pump, valve, limit and the time settings are not consulted |
| `Watering.WarningLed` | main.cpp:381-404 | the warning LED is LOW while watering is allowed; during a halt it toggles and restarts its timer only once more than 1000 ms have elapsed |
| `Watering.NoToggleWithinBlinkPeriod` | main.cpp:399-405 | during a halt, any number of passes each at most 1000 ms after the last toggle leave the LED and its timer unchanged |
| `Watering.LedSteadyWhileWatering` | main.cpp:381-382 | while watering is allowed, the LED is LOW after any non-empty run of passes and its timer keeps the last toggle time |
| `Debounce.Step` | main.cpp:114-135 | a press is flagged iff more than 200 ms (mod 2^32) have elapsed; the button then follows Minus > Plus > Menu among LOW pins and is otherwise unchanged; the last time becomes now on every call |
| `Debounce.BouncesRegisterNothing` | main.cpp:116-134 | a train of interrupts each at most 200 ms after the previous one leaves flag and button unchanged, however long it lasts, and moves the recorded time to the last interrupt |
| `Debounce.DoubleTap` | main.cpp:114-135 | two interrupts 50 ms apart give one press; two 250 ms apart give two |
| `Debounce.AcceptedAcrossWrap` | main.cpp:117-120 | an interrupt 250 ms after one just before the 32-bit counter wraps is accepted |
| `Irrigation.Controller.Setup` | main.cpp:137-169 | after setup all outputs and the LED are off, the blink timer is 0, the cursor is home, the debounce state is cleared, the backlight timer is restarted, and the settings equal the persisted EEPROM bytes 0..16 |
| `Irrigation.Controller.ReadButtons` | main.cpp:114-135 | updates the pending flag, button and last interrupt time exactly as `Debounce.Step`, and nothing else |
| `Irrigation.Controller.DisplayScreen` | main.cpp:267-270 | restarts the backlight timer |
| `Irrigation.Controller.HandleButtonMenu` | main.cpp:193-206 | moves the cursor as `MenuButton`, keeps the invariant, restarts the backlight timer |
| `Irrigation.Controller.HandleButtonPlus` | main.cpp:209-228 | changes cursor, settings and EEPROM exactly as `Plus` and keeps the invariant |
| `Irrigation.Controller.HandleButtonMinus` | main.cpp:231-238 | changes the settings exactly as `Minus` and keeps the invariant |
| `Irrigation.Controller.HandleInput` | main.cpp:241-256 | clears the pending flag, changes the state exactly as `Input`, and restarts the backlight timer only when a handler ran |
| `Irrigation.Controller.ResetParameters` | main.cpp:314-338 | leaves the cursor home and the settings equal to the factory table, EEPROM untouched |
| `Irrigation.Controller.SaveParameters` | main.cpp:345-354 | leaves EEPROM equal to `SaveImage` of the old EEPROM and the settings |
| `Irrigation.Controller.LoadParameters` | main.cpp:357-366 | leaves the settings equal to `LoadImage` of the old settings and EEPROM |
| `Irrigation.Controller.HandleWater` | main.cpp:377-407 | sets the five outputs to `WaterOutputs` of their old levels and the LED as `WarningLed`; keeps the invariant |
| `Irrigation.Controller.StopAll` | main.cpp:423-429 | drives all five outputs HIGH |
| `Irrigation.Controller.Loop` | main.cpp:172-186 | handles a pending press as `Input`, restarting the backlight timer only when a handler ran; then decides the outputs and the LED from the settings as they stand afterwards |

## Left out

- LCD rendering (`displayScreen`, `handleMenus`, `handleSubMenus`, the 20 s backlight switch-off in `loop`): display output only. Of `displayScreen`, only the restart of the backlight timer is modelled.
- `readMoistureSensors` and `readWaterLevelSensor`: these are hardware reads. The four measures and the pin level are parameters of `HandleWater`, and a measure may be any byte (the `map` of the sketch yields 0..100).
- `setup` plumbing: `Serial`, the pin modes, `attachInterrupt` and LCD initialisation are not modelled. `Setup` models the zeroed globals, the switch-off and the load.
- Concurrency: `readButtons` runs in an interrupt and can race with `handleInput` on `buttonPressed` and `currentButton`. The model treats both as plain sequential steps.
- `EEPROM.update` writes only when the byte differs. The model treats it as a plain write, which leaves the same contents; EEPROM wear is not modelled.
- Irrigation.Controller.Loop: one time value `now` stands for every `millis()` call of a pass. That covers the backlight restart in a handler's `displayScreen` and the two calls in the blink branch of `handleWater` (Irrigation.Controller.HandleWater likewise uses one value for both). The sketch reads the clock afresh each time, so those readings can differ by the few milliseconds a pass takes.
- MenuMachine.Run: every Save within one sequence of presses sees the same NULL reads. Per-call reads are modelled by the methods, which take them as a parameter.
- Watering session time limit, daily alarm, RTC, fan/vent control, self-test, monitor mode and sleep: the sketch has no code for them. `limit`, `hour`, `minutes` and the `clock*` settings are only stored and edited.
