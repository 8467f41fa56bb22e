/**
 * The controller's state dictionary (controller.py:131-162) as a record value,
 * together with the dosing-pump profiles and the weekly light schedule it holds.
 * The controller class keeps one of these in a field and replaces it field by
 * field, as the source mutates its dictionary under `state_lock`.
 */
module DeviceModel {

  /** The schedule's day keys, Monday first: index 5 and 6 are the weekend. */
  const DayKeys: seq<string> := ["monday", "tuesday", "wednesday", "thursday", "friday", "saturday", "sunday"]

  /** One day of the light schedule as stored: normally `{"on": "HH:MM", "off": "HH:MM"}`,
      but a document read from disk may lack either key or carry others. */
  type DayEntry = map<string, string>

  /** The weekly light schedule, keyed by lower-case day name (or, in a legacy
      document, by `workdays` and `weekend`). */
  type Schedule = map<string, DayEntry>

  /** A dosing-pump profile: display name, volume per run and direction (+1 / -1). */
  datatype PumpProfile = PumpProfile(name: string, volumeMl: real, direction: int)

  /** The entries of the state dictionary that the firmware's reports write: the
      readings as text, and the fan, servo, motor-power and set-point values the
      controller board echoes back. */
  datatype Readings = Readings(
    tw: string,                 // water temperature, as reported (text)
    ta: string,                 // air temperature
    tx: string,                 // auxiliary (reserve) temperature
    tsetWater: real,
    tsetRes: real,
    autoThresh: real,
    fan: int,
    lvlLow: string,             // level sensors, as reported (text)
    lvlHigh: string,
    lvlAlert: string,
    servoAngle: int,
    motorsPowered: bool)

  /** The whole state dictionary: the reported entries, then the settings the
      controller itself owns. */
  datatype DeviceState = DeviceState(
    readings: Readings,
    autoFan: bool,
    protect: bool,              // low-level interlock for the dosing pumps
    steps: int,
    speed: int,
    mtrAutoOff: bool,
    pumpConfig: map<string, PumpProfile>,
    lightState: bool,
    lightAuto: bool,
    lightSchedule: Schedule,
    heatTargets: map<string, real>,
    heatAuto: bool,
    heatEnabled: bool,
    heatState: map<string, bool>)

  /** The window a day gets when nothing else is configured. */
  const DefaultWindow: DayEntry := map["on" := "08:00", "off" := "20:00"]

  function DefaultSchedule(): (s: Schedule)
    ensures forall d :: d in s <==> d in DayKeys
  {
    map d | d in DayKeys :: DefaultWindow
  }

  /** The dictionary as the constructor first builds it, before any file is read. */
  function InitialState(): DeviceState {
    DeviceState(
      readings := Readings(
        tw := "--.-", ta := "--.-", tx := "--.-",
        tsetWater := 25.0, tsetRes := 30.0, autoThresh := 28.0, fan := 0,
        lvlLow := "?", lvlHigh := "?", lvlAlert := "?",
        servoAngle := 10, motorsPowered := false),
      autoFan := true,
      protect := true, steps := 3200, speed := 300, mtrAutoOff := true,
      pumpConfig := map[],
      lightState := false, lightAuto := true, lightSchedule := DefaultSchedule(),
      heatTargets := map["water" := 25.0, "reserve" := 30.0],
      heatAuto := true, heatEnabled := true,
      heatState := map["water" := true, "reserve" := true])
  }
}
