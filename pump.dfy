/**
 * The dosing pumps: the low-level interlock, the `PUMP` command a run sends
 * (controller.py:679-692), the motor-off delay (controller.py:694-700), the
 * default profiles (controller.py:237-247) and the profile edits of
 * `update_pump_config` (controller.py:705-715).
 */
module Pumps {
  import opened Common
  import opened Strings
  import opened DeviceModel

  /** The low-level sensor readings that block a pump while protection is on. */
  predicate IsLowLevel(low: string) {
    low == "1" || low == "LOW" || low == "true"
  }

  /** The interlock: protection on and the low-level sensor reporting low water. */
  predicate PumpBlocked(s: DeviceState) {
    s.protect && IsLowLevel(s.readings.lvlLow)
  }

  const BlockedMessage: string := "Niveau bas - pompe bloquée"

  /** The slowest speed a run is sent with. */
  const MinPumpSpeed: int := 50

  /** `state["speed"] or global_speed`: a speed of 0 falls back to the global speed;
      the command then uses that speed, raised to `MinPumpSpeed` when it is slower. */
  function EffectiveSpeed(speed: int, globalSpeed: int): (r: int)
    ensures r >= MinPumpSpeed
    ensures speed != 0 && speed >= MinPumpSpeed ==> r == speed
    ensures speed == 0 && globalSpeed >= MinPumpSpeed ==> r == globalSpeed
    ensures r == MinPumpSpeed || r == (if speed != 0 then speed else globalSpeed)
  {
    var chosen := if speed != 0 then speed else globalSpeed;
    if chosen > MinPumpSpeed then chosen else MinPumpSpeed
  }

  /** The step count a run is sent: negative when running backwards. */
  function SignedSteps(steps: int, backwards: bool): int {
    if backwards then -steps else steps
  }

  /** `PUMP <AXIS> <signed steps> <speed>`, the axis upper-cased. */
  function PumpCommand(axis: string, signedSteps: int, speed: int): string {
    "PUMP" + " " + (Upper(axis) + " " + (IntToString(signedSteps) + " " + IntToString(speed)))
  }

  /** The command splits on blanks into its four fields: the firmware receives the
      axis, the signed step count and the speed as separate words. */
  lemma PumpCommandFields(axis: string, signedSteps: int, speed: int)
    requires ' ' !in axis
    ensures Split(PumpCommand(axis, signedSteps, speed), ' ')
      == ["PUMP", Upper(axis), IntToString(signedSteps), IntToString(speed)]
  {
    UpperKeepsOthers(axis, ' ');
    IntTextOnly(signedSteps, ' ');
    IntTextOnly(speed, ' ');
    FourFields("PUMP", Upper(axis), IntToString(signedSteps), IntToString(speed), ' ');
  }

  /** The two numeric fields read back, with `int()`, as the steps and the speed sent. */
  lemma PumpCommandReadsBack(axis: string, signedSteps: int, speed: int)
    requires ' ' !in axis
    ensures var fields := Split(PumpCommand(axis, signedSteps, speed), ' ');
      |fields| == 4 && ParseInt(fields[2]) == Some(signedSteps) && ParseInt(fields[3]) == Some(speed)
  {
    PumpCommandFields(axis, signedSteps, speed);
    IntRoundTrip(signedSteps);
    IntRoundTrip(speed);
  }

  lemma ConsWords(a: string, b: string, c: string, d: string)
    ensures [c] + [d] == [c, d] && [b] + [c, d] == [b, c, d] && [a] + [b, c, d] == [a, b, c, d]
  {
  }

  /** Four separator-free words joined by the separator split back into those words. */
  lemma FourFields(a: string, b: string, c: string, d: string, sep: char)
    requires sep !in a && sep !in b && sep !in c && sep !in d
    ensures Split(a + [sep] + (b + [sep] + (c + [sep] + d)), sep) == [a, b, c, d]
  {
    var t3 := c + [sep] + d;
    SplitCons(c, sep, d);
    assert Split(d, sep) == [d];
    ConsWords(a, b, c, d);
    var t2 := b + [sep] + t3;
    SplitCons(b, sep, t3);
    var t1 := a + [sep] + t2;
    SplitCons(a, sep, t2);
  }

  /** Running backwards sends the opposite step count with the same magnitude. */
  lemma BackwardsOpposite(steps: int)
    ensures SignedSteps(steps, true) == -SignedSteps(steps, false)
    ensures Abs(SignedSteps(steps, true)) == Abs(steps)
  {
  }

  function Abs(n: int): nat {
    if n < 0 then -n else n
  }

  /** `_auto_motor_off_delay`'s wait in seconds: twice the run's duration at one
      microsecond per step and unit of speed, plus half a second. */
  function MotorOffDelay(steps: nat, speed: nat): (seconds: real)
    ensures seconds >= 0.5
  {
    (steps * speed * 2) as real / 1000000.0 + 0.5
  }

  /** A longer run waits at least as long before the motors are switched off. */
  lemma MotorOffDelayMonotone(steps1: nat, steps2: nat, speed: nat)
    requires steps1 <= steps2
    ensures MotorOffDelay(steps1, speed) <= MotorOffDelay(steps2, speed)
  {
    assert steps1 * speed <= steps2 * speed;
  }

  // ---------- profiles ----------

  /** The profile a new axis gets from `update_pump_config`: named after the axis. */
  function NewProfile(axis: string): PumpProfile {
    PumpProfile(axis, 10.0, 1)
  }

  /** The four factory profiles `_ensure_pump_defaults` offers, in order. */
  const DefaultProfiles: seq<(string, PumpProfile)> := [
    ("X", PumpProfile("Eau osmosée (X)", 10.0, 1)),
    ("Y", PumpProfile("Vidange (Y)", 10.0, 1)),
    ("Z", PumpProfile("Additifs (Z)", 10.0, 1)),
    ("E", PumpProfile("Nourrisseur (E)", 10.0, 1))]

  /** `_ensure_pump_defaults` on the profile map. */
  function EnsureProfiles(cfg: map<string, PumpProfile>): map<string, PumpProfile> {
    SetDefaults(cfg, DefaultProfiles)
  }

  /** After the defaults every axis X, Y, Z and E has a profile: the configured one
      when there was one, the factory one otherwise; no other axis is added. */
  lemma EnsureProfilesEffect(cfg: map<string, PumpProfile>, i: nat)
    requires i < |DefaultProfiles|
    ensures DefaultProfiles[i].0 in EnsureProfiles(cfg)
    ensures DefaultProfiles[i].0 in cfg ==> EnsureProfiles(cfg)[DefaultProfiles[i].0] == cfg[DefaultProfiles[i].0]
    ensures DefaultProfiles[i].0 !in cfg ==> EnsureProfiles(cfg)[DefaultProfiles[i].0] == DefaultProfiles[i].1
  {
    var k := DefaultProfiles[i].0;
    if k in cfg {
      SetDefaultsKeeps(cfg, DefaultProfiles, k);
    } else {
      SetDefaultsFirst(cfg, DefaultProfiles, i);
    }
  }

  /** Every factory axis has a profile after the defaults. */
  lemma EnsureProfilesHasAxes(cfg: map<string, PumpProfile>)
    ensures forall i :: 0 <= i < |DefaultProfiles| ==> DefaultProfiles[i].0 in EnsureProfiles(cfg)
  {
    forall i | 0 <= i < |DefaultProfiles| ensures DefaultProfiles[i].0 in EnsureProfiles(cfg) {
      EnsureProfilesEffect(cfg, i);
    }
  }

  /** Only the four factory axes can be added. */
  lemma EnsureProfilesAddsOnlyDefaults(cfg: map<string, PumpProfile>, k: string)
    ensures k in EnsureProfiles(cfg) <==> k in cfg || k == "X" || k == "Y" || k == "Z" || k == "E"
  {
    SetDefaultsDomain(cfg, DefaultProfiles, k);
    if k == "X" { assert DefaultProfiles[0].0 == k; }
    if k == "Y" { assert DefaultProfiles[1].0 == k; }
    if k == "Z" { assert DefaultProfiles[2].0 == k; }
    if k == "E" { assert DefaultProfiles[3].0 == k; }
  }

  /** Running the defaults twice is running them once. */
  lemma EnsureProfilesIdempotent(cfg: map<string, PumpProfile>)
    ensures EnsureProfiles(EnsureProfiles(cfg)) == EnsureProfiles(cfg)
  {
    var once := EnsureProfiles(cfg);
    forall i | 0 <= i < |DefaultProfiles| ensures DefaultProfiles[i].0 in once {
      EnsureProfilesEffect(cfg, i);
    }
    SetDefaultsPresent(once, DefaultProfiles);
  }

  /** Offering only keys the map already has changes nothing. */
  lemma {:induction false} SetDefaultsPresent<V>(m: map<string, V>, defaults: seq<(string, V)>)
    requires forall i :: 0 <= i < |defaults| ==> defaults[i].0 in m
    ensures SetDefaults(m, defaults) == m
    decreases |defaults|
  {
    if defaults != [] {
      var init := defaults[..|defaults| - 1];
      assert forall i :: 0 <= i < |init| ==> init[i] == defaults[i];
      SetDefaultsPresent(m, init);
    }
  }

  /** `update_pump_config(axis, name, volume_ml, direction)` on the profile map: the
      axis upper-cased, a new axis starting from `NewProfile`, the name set only when
      non-empty, the volume whenever given, the direction only when it is 1 or -1. */
  function UpdateProfile(cfg: map<string, PumpProfile>, axis: string, name: Option<string>,
                         volumeMl: Option<real>, direction: Option<int>): map<string, PumpProfile>
  {
    var key := Upper(axis);
    var p := if key in cfg then cfg[key] else NewProfile(key);
    var p1 := if name.Some? && name.value != "" then p.(name := name.value) else p;
    var p2 := if volumeMl.Some? then p1.(volumeMl := volumeMl.value) else p1;
    var p3 := if direction.Some? && (direction.value == 1 || direction.value == -1) then p2.(direction := direction.value) else p2;
    cfg[key := p3]
  }

  /** What an edit leaves: the upper-cased axis present, each field the given value
      or the previous one, and every other axis untouched. */
  lemma UpdateProfileEffect(cfg: map<string, PumpProfile>, axis: string, name: Option<string>,
                            volumeMl: Option<real>, direction: Option<int>)
    ensures var key := Upper(axis);
      var before := if key in cfg then cfg[key] else NewProfile(key);
      var r := UpdateProfile(cfg, axis, name, volumeMl, direction);
      && r.Keys == cfg.Keys + {key}
      && (forall k :: k in cfg && k != key ==> r[k] == cfg[k])
      && r[key].name == (if name.Some? && name.value != "" then name.value else before.name)
      && r[key].volumeMl == (if volumeMl.Some? then volumeMl.value else before.volumeMl)
      && r[key].direction == (if direction == Some(1) || direction == Some(-1) then direction.value else before.direction)
  {
  }

  /** A stored direction stays 1 or -1: no edit can store another value. */
  lemma UpdateProfileKeepsDirection(cfg: map<string, PumpProfile>, axis: string, name: Option<string>,
                                    volumeMl: Option<real>, direction: Option<int>)
    requires forall k :: k in cfg ==> cfg[k].direction == 1 || cfg[k].direction == -1
    ensures var r := UpdateProfile(cfg, axis, name, volumeMl, direction);
      forall k :: k in r ==> r[k].direction == 1 || r[k].direction == -1
  {
  }

  /** The axis is case-insensitive, and repeating an edit changes nothing more. */
  lemma UpdateProfileLaws(cfg: map<string, PumpProfile>, axis: string, name: Option<string>,
                          volumeMl: Option<real>, direction: Option<int>)
    ensures UpdateProfile(cfg, Upper(axis), name, volumeMl, direction) == UpdateProfile(cfg, axis, name, volumeMl, direction)
    ensures var once := UpdateProfile(cfg, axis, name, volumeMl, direction);
      UpdateProfile(once, axis, name, volumeMl, direction) == once
  {
    UpperIdempotent(axis);
  }
}
