/** The watering decision taken on every pass of the main loop: which of the
    five active-low outputs (pump, valves 1 to 4) to drive, and the warning
    LED that blinks while the water tank is empty. */
module Watering {
  import opened Bytes
  import opened MenuTable

  /** Output positions: the pump, then valve z at position z. */
  const PUMP_OUT: nat := 0
  const NUM_OUTPUTS: nat := 5

  /** The warning LED blinks with a half-period above this many milliseconds. */
  const BLINK_MS: nat := 1000

  /** `stopAll`: every output HIGH, that is, off. */
  const ALL_OFF: seq<Level> := [High, High, High, High, High]

  /** Watering is suppressed: the water-level pin reads LOW and the water
      sensor setting is non-zero. */
  predicate SafetyHalt(s: seq<byte>, waterLevel: Level)
    requires |s| == NUM_SETTINGS
  {
    waterLevel == Low && s[WATER_SENSOR_ADDR] != 0
  }

  /** Zone z asks for water: its flag byte is exactly 1 (`zone == true`) and
      its measure is below its threshold. */
  predicate Eligible(s: seq<byte>, measures: seq<byte>, z: nat)
    requires |s| == NUM_SETTINGS && |measures| == NUM_ZONES && 1 <= z <= NUM_ZONES
  {
    s[ZoneAddr(z)] == 1 && measures[z - 1] < s[SensorZoneAddr(z)]
  }

  /** The zone the if/else-if chain serves: the first eligible zone in the
      order 1 to 4, or 0 when none is. */
  function FirstEligibleZone(s: seq<byte>, measures: seq<byte>): (k: nat)
    requires |s| == NUM_SETTINGS && |measures| == NUM_ZONES
    ensures k <= NUM_ZONES
    ensures k == 0 <==> forall z :: 1 <= z <= NUM_ZONES ==> !Eligible(s, measures, z)
    ensures k != 0 ==> Eligible(s, measures, k) && forall z :: 1 <= z < k ==> !Eligible(s, measures, z)
  {
    if Eligible(s, measures, 1) then 1
    else if Eligible(s, measures, 2) then 2
    else if Eligible(s, measures, 3) then 3
    else if Eligible(s, measures, 4) then 4
    else 0
  }

  /** The five outputs after `handleWater`, from their levels before it. */
  function WaterOutputs(prev: seq<Level>, s: seq<byte>, measures: seq<byte>, waterLevel: Level): (out: seq<Level>)
    requires |prev| == NUM_OUTPUTS && |s| == NUM_SETTINGS && |measures| == NUM_ZONES
    ensures |out| == NUM_OUTPUTS
    ensures out[PUMP_OUT] == High ==> out == ALL_OFF
    ensures out != ALL_OFF ==> forall z :: 1 <= z <= NUM_ZONES && prev[z] == High && !Eligible(s, measures, z) ==> out[z] == High
  {
    var k := FirstEligibleZone(s, measures);
    if SafetyHalt(s, waterLevel) || k == 0 then ALL_OFF
    else prev[PUMP_OUT := Low][k := Low]
  }

  /** The pump runs whenever a valve is open. */
  predicate PumpCoversValves(out: seq<Level>)
    requires |out| == NUM_OUTPUTS
  {
    out[PUMP_OUT] == High ==> forall z :: 1 <= z <= NUM_ZONES ==> out[z] == High
  }

  /** The outputs after one decision: all off when the tank is empty (and
      the water sensor is enabled) or when no zone is eligible; otherwise
      the pump and the valve of the first eligible zone are on, and every
      other valve keeps its previous level. */
  lemma WateringDecision(prev: seq<Level>, s: seq<byte>, measures: seq<byte>, waterLevel: Level)
    requires |prev| == NUM_OUTPUTS && |s| == NUM_SETTINGS && |measures| == NUM_ZONES
    ensures var out := WaterOutputs(prev, s, measures, waterLevel);
      var k := FirstEligibleZone(s, measures);
      && (SafetyHalt(s, waterLevel) ==> out == ALL_OFF)
      && (k == 0 ==> out == ALL_OFF)
      && (!SafetyHalt(s, waterLevel) && k != 0 ==>
            && out[PUMP_OUT] == Low && out[k] == Low
            && forall z :: 1 <= z <= NUM_ZONES && z != k ==> out[z] == prev[z])
  {
  }

  /** A valve is open after the decision exactly when the tank check passes,
      some zone is eligible, and the valve is either the first eligible
      zone's or was already open: the chain never closes a valve it does not
      serve, so a valve can stay open for a zone that no longer asks. */
  lemma ValveOpenIff(prev: seq<Level>, s: seq<byte>, measures: seq<byte>, waterLevel: Level, z: nat)
    requires |prev| == NUM_OUTPUTS && |s| == NUM_SETTINGS && |measures| == NUM_ZONES
    requires 1 <= z <= NUM_ZONES
    ensures var out := WaterOutputs(prev, s, measures, waterLevel);
      var k := FirstEligibleZone(s, measures);
      out[z] == Low <==> !SafetyHalt(s, waterLevel) && k != 0 && (z == k || prev[z] == Low)
  {
  }

  /** A closed valve whose zone flag is not 1 stays closed; and an eligible
      zone's valve is opened whenever the tank check passes. */
  lemma ZoneFlagGatesValve(prev: seq<Level>, s: seq<byte>, measures: seq<byte>, waterLevel: Level, z: nat)
    requires |prev| == NUM_OUTPUTS && |s| == NUM_SETTINGS && |measures| == NUM_ZONES
    requires 1 <= z <= NUM_ZONES
    ensures s[ZoneAddr(z)] != 1 && prev[z] == High ==> WaterOutputs(prev, s, measures, waterLevel)[z] == High
    ensures Eligible(s, measures, z) && !SafetyHalt(s, waterLevel) && (forall y :: 1 <= y < z ==> !Eligible(s, measures, y))
      ==> WaterOutputs(prev, s, measures, waterLevel)[z] == Low
  {
  }

  /** Every decision keeps "a valve open implies the pump on". */
  lemma WaterKeepsPumpCoversValves(prev: seq<Level>, s: seq<byte>, measures: seq<byte>, waterLevel: Level)
    requires |prev| == NUM_OUTPUTS && |s| == NUM_SETTINGS && |measures| == NUM_ZONES
    requires PumpCoversValves(prev)
    ensures PumpCoversValves(WaterOutputs(prev, s, measures, waterLevel))
  {
  }

  /** Only the water-sensor flag, the four zone flags and the four thresholds
      are consulted: `pump`, `valve`, `limit` and the time settings play no
      part in the decision. */
  lemma DecisionReadsOnlyZoneSettings(prev: seq<Level>, s: seq<byte>, s': seq<byte>, measures: seq<byte>, waterLevel: Level)
    requires |prev| == NUM_OUTPUTS && |s| == |s'| == NUM_SETTINGS && |measures| == NUM_ZONES
    requires s[WATER_SENSOR_ADDR] == s'[WATER_SENSOR_ADDR]
    requires forall z :: 1 <= z <= NUM_ZONES ==> s[ZoneAddr(z)] == s'[ZoneAddr(z)] && s[SensorZoneAddr(z)] == s'[SensorZoneAddr(z)]
    ensures WaterOutputs(prev, s, measures, waterLevel) == WaterOutputs(prev, s', measures, waterLevel)
  {
    assert forall z :: 1 <= z <= NUM_ZONES ==> (Eligible(s, measures, z) <==> Eligible(s', measures, z));
  }

  /** The warning LED and the time of its last toggle. */
  datatype Indicator = Indicator(led: Level, since: u32)

  /** The warning LED after `handleWater`: LOW while watering is allowed;
      during a safety halt it toggles, and restarts its timer, once more
      than a second has elapsed since the last toggle. */
  function WarningLed(ind: Indicator, s: seq<byte>, waterLevel: Level, now: u32): (r: Indicator)
    requires |s| == NUM_SETTINGS
    ensures !SafetyHalt(s, waterLevel) ==> r == ind.(led := Low)
    ensures SafetyHalt(s, waterLevel) && Elapsed(ind.since, now) > BLINK_MS ==> r.led != ind.led && r.since == now
    ensures SafetyHalt(s, waterLevel) && Elapsed(ind.since, now) <= BLINK_MS ==> r == ind
  {
    if !SafetyHalt(s, waterLevel) then ind.(led := Low)
    else if Elapsed(ind.since, now) > BLINK_MS then Indicator(Toggle(ind.led), now)
    else ind
  }

  /** The warning LED after `handleWater` has run at each of `times`, the
      settings and the water level staying as they are. */
  function LedAfter(ind: Indicator, s: seq<byte>, waterLevel: Level, times: seq<u32>): Indicator
    requires |s| == NUM_SETTINGS
    decreases |times|
  {
    if times == [] then ind else LedAfter(WarningLed(ind, s, waterLevel, times[0]), s, waterLevel, times[1..])
  }

  /** During a halt the LED never changes faster than the blink period: as
      long as every pass comes at most 1000 ms after the last toggle, however
      many passes there are, the LED and its timer stay as they were. */
  lemma {:induction false} NoToggleWithinBlinkPeriod(ind: Indicator, s: seq<byte>, waterLevel: Level, times: seq<u32>)
    requires |s| == NUM_SETTINGS && SafetyHalt(s, waterLevel)
    requires forall k :: 0 <= k < |times| ==> Elapsed(ind.since, times[k]) <= BLINK_MS
    ensures LedAfter(ind, s, waterLevel, times) == ind
    decreases |times|
  {
    if times != [] {
      assert forall k :: 0 <= k < |times[1..]| ==> times[1..][k] == times[k + 1];
      NoToggleWithinBlinkPeriod(ind, s, waterLevel, times[1..]);
    }
  }

  /** While watering is allowed the LED is LOW after any pass, and its timer
      keeps the time of the last toggle. */
  lemma {:induction false} LedSteadyWhileWatering(ind: Indicator, s: seq<byte>, waterLevel: Level, times: seq<u32>)
    requires |s| == NUM_SETTINGS && !SafetyHalt(s, waterLevel) && times != []
    ensures LedAfter(ind, s, waterLevel, times) == ind.(led := Low)
    decreases |times|
  {
    if |times| > 1 {
      LedSteadyWhileWatering(ind.(led := Low), s, waterLevel, times[1..]);
    }
  }
}
