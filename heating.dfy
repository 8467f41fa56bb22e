/**
 * The heater's hysteresis rule (controller.py:507-551) and the set-points it
 * commands (controller.py:490-497), as functions of the state record. The
 * controller's `EvaluateHeatNeeds` method runs the zone loop and is proved
 * against `StepZones`; the properties of the rule are lemmas here.
 */
module Heating {
  import opened Common
  import opened Strings
  import opened DeviceModel

  /** The fixed dead band around a target, in degrees. */
  const Hysteresis: real := 0.2

  /** `_parse_temperature_value`: the text stripped, a `°C` unit dropped, a decimal
      comma read as a point; the `--.-` placeholder and unparsable text give `None`. */
  function ParseTemperature(raw: string): Option<real> {
    var text := ReplaceAll(ReplaceAll(Strip(raw), "°C", ""), ",", ".");
    if text == "--.-" then None else ParseReal(text)
  }

  /** `bool(states.get(zone))`: an absent zone counts as off. */
  function IsOn(states: map<string, bool>, zone: string): bool {
    zone in states && states[zone]
  }

  /** `float(targets.get(zone, 0) or 0)`. */
  function ZoneTarget(targets: map<string, real>, zone: string): real {
    Get(targets, zone).GetOr(0.0)
  }

  /** The zones the rule visits, in order, with the reading each one uses. */
  function ZoneReadings(s: DeviceState): seq<(string, string)> {
    [("water", s.readings.tw), ("reserve", s.readings.tx)]
  }

  /** The state a zone should be in, as a reference for the loop body: off without
      a positive target or a reading, on below the band, off above it, and left
      as it is inside the band. */
  function Desired(on: bool, target: real, temp: Option<real>): bool {
    if target <= 0.0 || temp.None? then false
    else if temp.value < target - Hysteresis then true
    else if temp.value > target + Hysteresis then false
    else on
  }

  /** The loop body of `_evaluate_heat_needs` for one zone: the new copy of the
      state map and whether this zone flipped. */
  function ZoneStep(states: map<string, bool>, zone: string, target: real, temp: Option<real>)
    : (map<string, bool>, bool)
  {
    if target <= 0.0 || temp.None? then
      if IsOn(states, zone) then (states[zone := false], true) else (states, false)
    else if temp.value < target - Hysteresis then
      if !IsOn(states, zone) then (states[zone := true], true) else (states, false)
    else if temp.value > target + Hysteresis then
      if IsOn(states, zone) then (states[zone := false], true) else (states, false)
    else (states, false)
  }

  /** One zone's step leaves the zone in the desired state, flips it exactly when
      it was not already there, and touches no other zone. */
  lemma ZoneStepDesired(states: map<string, bool>, zone: string, target: real, temp: Option<real>)
    ensures var (m, flipped) := ZoneStep(states, zone, target, temp);
      && IsOn(m, zone) == Desired(IsOn(states, zone), target, temp)
      && (flipped <==> Desired(IsOn(states, zone), target, temp) != IsOn(states, zone))
      && (flipped <==> m != states)
      && (forall z :: z != zone ==> (z in m <==> z in states) && (z in m ==> m[z] == states[z]))
  {
    var (m, flipped) := ZoneStep(states, zone, target, temp);
    if flipped {
      assert IsOn(m, zone) != IsOn(states, zone);
    }
  }

  /** No positive target, or no usable reading, forces the zone off. */
  lemma ForcedOff(states: map<string, bool>, zone: string, target: real, temp: Option<real>)
    requires target <= 0.0 || temp.None?
    ensures !IsOn(ZoneStep(states, zone, target, temp).0, zone)
  {
  }

  /** Below the band the zone is switched on, above it switched off. */
  lemma OutsideBand(states: map<string, bool>, zone: string, target: real, t: real)
    requires target > 0.0
    ensures t < target - Hysteresis ==> IsOn(ZoneStep(states, zone, target, Some(t)).0, zone)
    ensures t > target + Hysteresis ==> !IsOn(ZoneStep(states, zone, target, Some(t)).0, zone)
  {
  }

  /** Inside the band `[target - 0.2, target + 0.2]` nothing changes. */
  lemma DeadBand(states: map<string, bool>, zone: string, target: real, t: real)
    requires target > 0.0 && target - Hysteresis <= t <= target + Hysteresis
    ensures ZoneStep(states, zone, target, Some(t)) == (states, false)
  {
  }

  /** The zone loop over `zones[..]`, defined from the last zone: the copied state
      map after the loop and the `updated` flag. */
  function StepZones(states: map<string, bool>, zones: seq<(string, string)>, targets: map<string, real>)
    : (map<string, bool>, bool)
    decreases |zones|
  {
    if zones == [] then (states, false)
    else
      var (m, updated) := StepZones(states, zones[..|zones| - 1], targets);
      var (zone, raw) := zones[|zones| - 1];
      var (m2, flipped) := ZoneStep(m, zone, ZoneTarget(targets, zone), ParseTemperature(raw));
      (m2, updated || flipped)
  }

  /** One more zone: the loop's result after zone `i` is its step applied to the
      result before it. */
  lemma StepZonesNext(states: map<string, bool>, zones: seq<(string, string)>, targets: map<string, real>, i: nat)
    requires i < |zones|
    ensures var (m, updated) := StepZones(states, zones[..i], targets);
      var (m2, flipped) := ZoneStep(m, zones[i].0, ZoneTarget(targets, zones[i].0), ParseTemperature(zones[i].1));
      StepZones(states, zones[..i + 1], targets) == (m2, updated || flipped)
  {
    assert zones[..i + 1][..i] == zones[..i];
  }

  /** `any(states.values())`. */
  predicate AnyOn(states: map<string, bool>) {
    exists z :: z in states && states[z]
  }

  /** `_evaluate_heat_needs` on the state record: nothing in manual mode; otherwise
      the zone loop, whose result is written back (with `heat_enabled` recomputed)
      only when some zone flipped. */
  function EvaluateHeat(s: DeviceState): DeviceState {
    if !s.heatAuto then s
    else
      var (m, updated) := StepZones(s.heatState, ZoneReadings(s), s.heatTargets);
      if updated then s.(heatState := m, heatEnabled := AnyOn(m)) else s
  }

  /** Whether `_evaluate_heat_needs` writes back: its `updated` flag. */
  function HeatUpdated(s: DeviceState): bool {
    s.heatAuto && StepZones(s.heatState, ZoneReadings(s), s.heatTargets).1
  }

  /** In automatic mode the rule is the zone loop's result written back when flagged. */
  lemma EvaluateHeatBy(s: DeviceState, m: map<string, bool>, updated: bool)
    requires s.heatAuto && StepZones(s.heatState, ZoneReadings(s), s.heatTargets) == (m, updated)
    ensures HeatUpdated(s) == updated
    ensures EvaluateHeat(s) == if updated then s.(heatState := m, heatEnabled := AnyOn(m)) else s
  {
  }

  /** Manual mode: the rule does nothing. */
  lemma ManualModeUnchanged(s: DeviceState)
    requires !s.heatAuto
    ensures EvaluateHeat(s) == s && !HeatUpdated(s)
  {
  }

  /** The loop over two distinct zones leaves each in its desired state and flags
      an update exactly when the map changed. */
  lemma StepTwoZones(states: map<string, bool>, z1: string, r1: string, z2: string, r2: string,
                     targets: map<string, real>)
    requires z1 != z2
    ensures var (m, updated) := StepZones(states, [(z1, r1), (z2, r2)], targets);
      && IsOn(m, z1) == Desired(IsOn(states, z1), ZoneTarget(targets, z1), ParseTemperature(r1))
      && IsOn(m, z2) == Desired(IsOn(states, z2), ZoneTarget(targets, z2), ParseTemperature(r2))
      && (updated <==> m != states)
  {
    var zones := [(z1, r1), (z2, r2)];
    assert zones[..1] == [(z1, r1)] && zones[..1][..0] == [];
    var t1, p1 := ZoneTarget(targets, z1), ParseTemperature(r1);
    var t2, p2 := ZoneTarget(targets, z2), ParseTemperature(r2);
    var (m1, f1) := ZoneStep(states, z1, t1, p1);
    ZoneStepDesired(states, z1, t1, p1);
    var (m2, f2) := ZoneStep(m1, z2, t2, p2);
    ZoneStepDesired(m1, z2, t2, p2);
    assert StepZones(states, zones[..1], targets) == (m1, f1);
    assert StepZones(states, zones, targets) == (m2, f1 || f2);
    if f1 {
      assert IsOn(m2, z1) == IsOn(m1, z1) != IsOn(states, z1);
    } else if f2 {
      assert m1 == states;
    }
  }

  /** In automatic mode each zone ends in its desired state, computed from its own
      target and reading: the water zone from `tw`, the reserve zone from `tx`. */
  lemma EvaluateHeatZones(s: DeviceState)
    requires s.heatAuto
    ensures IsOn(EvaluateHeat(s).heatState, "water")
      == Desired(IsOn(s.heatState, "water"), ZoneTarget(s.heatTargets, "water"), ParseTemperature(s.readings.tw))
    ensures IsOn(EvaluateHeat(s).heatState, "reserve")
      == Desired(IsOn(s.heatState, "reserve"), ZoneTarget(s.heatTargets, "reserve"), ParseTemperature(s.readings.tx))
  {
    StepTwoZones(s.heatState, "water", s.readings.tw, "reserve", s.readings.tx, s.heatTargets);
  }

  /** The heater entries are rewritten exactly when some zone flipped, and then
      `heat_enabled` is whether any zone is on. */
  lemma EvaluateHeatWriteBack(s: DeviceState)
    ensures HeatUpdated(s) <==> EvaluateHeat(s).heatState != s.heatState
    ensures HeatUpdated(s) ==> EvaluateHeat(s).heatEnabled == AnyOn(EvaluateHeat(s).heatState)
    ensures !HeatUpdated(s) ==> EvaluateHeat(s) == s
  {
    if s.heatAuto {
      var (m, updated) := StepZones(s.heatState, ZoneReadings(s), s.heatTargets);
      StepTwoZones(s.heatState, "water", s.readings.tw, "reserve", s.readings.tx, s.heatTargets);
      assert updated <==> m != s.heatState;
      if updated {
        assert EvaluateHeat(s) == s.(heatState := m, heatEnabled := AnyOn(m));
      } else {
        assert EvaluateHeat(s) == s;
      }
    }
  }

  /** `_update_heater_outputs`: a zone that is on is sent its target (0.0 if it has
      none), a zone that is off is sent 0.0. */
  function HeaterCommands(s: DeviceState): (real, real) {
    (if IsOn(s.heatState, "water") then ZoneTarget(s.heatTargets, "water") else 0.0,
     if IsOn(s.heatState, "reserve") then ZoneTarget(s.heatTargets, "reserve") else 0.0)
  }

  /** After the rule has run, a zone without a positive target or a reading, or
      read above its band, is commanded 0.0, and a zone read below its band is
      commanded its target. */
  lemma CommandsAfterEvaluation(s: DeviceState)
    requires s.heatAuto
    ensures var c := HeaterCommands(EvaluateHeat(s));
      var tw, gw := ParseTemperature(s.readings.tw), ZoneTarget(s.heatTargets, "water");
      var tx, gx := ParseTemperature(s.readings.tx), ZoneTarget(s.heatTargets, "reserve");
      && (tw.None? || gw <= 0.0 || (tw.Some? && tw.value > gw + Hysteresis) ==> c.0 == 0.0)
      && (tx.None? || gx <= 0.0 || (tx.Some? && tx.value > gx + Hysteresis) ==> c.1 == 0.0)
      && (tw.Some? && gw > 0.0 && tw.value < gw - Hysteresis ==> c.0 == gw)
      && (tx.Some? && gx > 0.0 && tx.value < gx - Hysteresis ==> c.1 == gx)
  {
    EvaluateHeatZones(s);
  }
}
