/**
 * `ReefController` (controller.py:123-763): the state dictionary, the link to the
 * controller board and the actions the web layer calls. Each method changes the
 * fields the source changes and is specified by the functions of the other
 * modules; writes to files, the light relay, the serial port and the motor-off
 * timer thread are recorded, in order, in `effects`.
 */
module Controller {
  import opened Common
  import opened Strings
  import opened DeviceModel
  import opened StatusParser
  import opened Heating
  import opened LightSchedule
  import opened Pumps

  /** A line sent to the board. Heater set-points are kept as numbers: the
      two-decimal formatting of `HEATW`/`HEATR` is not modelled. */
  datatype Command = Line(text: string) | HeatWater(celsius: real) | HeatReserve(celsius: real)

  /** A terminal reply waiting in the response queue. */
  datatype Reply = OkAck | ErrAck(err: ErrorPayload)

  /** The outside effects of the controller, in the order they happen. */
  datatype Effect =
    | Sent(command: Command)
    | SavedPumpConfig
    | SavedLightSchedule
    | SavedHeatConfig
    | DroveLight(on: bool)
    | MotorOffTimer(steps: nat, speed: int, seconds: real)

  const NotConnected: string := "Non connecté"
  const NoReply: string := "Commande sans réponse"
  const CannotDisableInAuto: string := "Désactiver impossible en mode automatique"

  /** The queue entry a terminal reply line adds. */
  function ReplyOf(k: LineKind): Reply
    requires k.IsReply()
  {
    if k.OkReply? then OkAck else ErrAck(k.err)
  }

  /** `_send_command`'s wait once the command is written: the oldest queued reply is
      taken; none raises `Commande sans réponse`; `OK` clears the last error and an
      error reply raises its message. Gives the outcome, the queue left and the last error. */
  function Await(replies: seq<Reply>, lastError: Option<ErrorPayload>): (seq<Reply>, Option<ErrorPayload>, Outcome) {
    if replies == [] then ([], lastError, Raised(NoReply))
    else match replies[0]
      case OkAck => (replies[1..], None, Done)
      case ErrAck(e) => (replies[1..], lastError, Raised(e.message))
  }

  /** Each command consumes exactly the oldest reply: it succeeds exactly when that
      reply is `OK`, fails with the board's message on an error reply, and only a
      success clears the last error. */
  lemma AwaitTakesOldest(replies: seq<Reply>, lastError: Option<ErrorPayload>)
    ensures var (q, e, r) := Await(replies, lastError);
      && (replies == [] ==> q == [] && e == lastError && r == Raised(NoReply))
      && (replies != [] ==> q == replies[1..] && (r == Done <==> replies[0] == OkAck))
      && (replies != [] && replies[0].ErrAck? ==> r == Raised(replies[0].err.message) && e == lastError)
      && (r == Done ==> e == None)
      && (r != Done ==> e == lastError)
  {
  }

  /** Replies are answered first in, first out: a reply queued behind others is the
      one the command after them receives. */
  lemma {:induction false} AwaitInOrder(older: seq<Reply>, reply: Reply, lastError: Option<ErrorPayload>)
    ensures AwaitAll(older + [reply], lastError).0 == [reply]
    decreases |older|
  {
    if older != [] {
      assert (older + [reply])[1..] == older[1..] + [reply];
      AwaitInOrder(older[1..], reply, Await(older + [reply], lastError).1);
    }
  }

  /** The queue left after `|older|` commands have each taken one reply. */
  function AwaitAll(replies: seq<Reply>, lastError: Option<ErrorPayload>): (seq<Reply>, Option<ErrorPayload>)
    requires replies != []
    decreases |replies|
  {
    if |replies| == 1 then (replies, lastError)
    else
      var (q, e, _) := Await(replies, lastError);
      AwaitAll(q, e)
  }

  /** The queue and last error after the two heater commands have waited in turn. */
  function AwaitTwice(replies: seq<Reply>, lastError: Option<ErrorPayload>): (seq<Reply>, Option<ErrorPayload>) {
    var (q1, e1, _) := Await(replies, lastError);
    var (q2, e2, _) := Await(q1, e1);
    (q2, e2)
  }

  /** The commands `_update_heater_outputs` sends, water first. */
  function HeaterSends(s: DeviceState): seq<Effect> {
    var c := HeaterCommands(s);
    [Sent(HeatWater(c.0)), Sent(HeatReserve(c.1))]
  }

  /** The effects, the queue and the last error after `_evaluate_heat_needs` has run
      on state `s`: unchanged unless a zone flipped; otherwise the heater
      configuration is saved and, when connected, the two set-points are sent and
      each waits for its reply. */
  function AfterHeatEvaluation(s: DeviceState, connected: bool, effects: seq<Effect>, replies: seq<Reply>,
                               lastError: Option<ErrorPayload>): (seq<Effect>, seq<Reply>, Option<ErrorPayload>)
  {
    if !HeatUpdated(s) then (effects, replies, lastError)
    else if !connected then (effects + [SavedHeatConfig], replies, lastError)
    else
      var (q, e) := AwaitTwice(replies, lastError);
      (effects + [SavedHeatConfig] + HeaterSends(EvaluateHeat(s)), q, e)
  }

  /** Every day key has a light window. */
  predicate DaysPresent(s: DeviceState) {
    forall d :: d in DayKeys ==> d in s.lightSchedule
  }

  /** Every factory pump axis has a profile. */
  predicate AxesPresent(s: DeviceState) {
    forall i :: 0 <= i < |DefaultProfiles| ==> DefaultProfiles[i].0 in s.pumpConfig
  }

  /** The day keys and the factory pump axes are present: the constructor's default
      passes establish it and every state-changing method keeps it. */
  predicate WellFormed(s: DeviceState) {
    DaysPresent(s) && AxesPresent(s)
  }

  class ReefController {
    var state: DeviceState
    var connected: bool
    var lastError: Option<ErrorPayload>
    /** The response queue, oldest reply first. */
    var replies: seq<Reply>
    var globalSpeed: int
    var stepsPerJob: int
    var effects: seq<Effect>

    predicate Valid()
      reads this
    {
      WellFormed(state)
    }

    /** `__init__`: the initial dictionary, the pump profiles and light schedule read
        from disk (`None` when a file is missing or unreadable), then the defaults. */
    constructor (pumpFile: Option<map<string, PumpProfile>>, scheduleFile: Option<Schedule>)
      ensures Valid()
      ensures state == InitialState().(
        pumpConfig := EnsureProfiles(pumpFile.GetOr(map[])),
        lightSchedule := EnsureScheduleDefaults(scheduleFile.GetOr(DefaultSchedule())))
      ensures !connected && lastError == None && replies == [] && effects == []
      ensures globalSpeed == 300 && stepsPerJob == 1000
    {
      state := InitialState().(pumpConfig := pumpFile.GetOr(map[]), lightSchedule := scheduleFile.GetOr(DefaultSchedule()));
      connected := false;
      lastError := None;
      replies := [];
      globalSpeed := 300;
      stepsPerJob := 1000;
      effects := [];
      new;
      EnsurePumpDefaults();
      EnsureLightScheduleDefaults();
    }

    /** `_ensure_pump_defaults`: `setdefault` of each factory profile. */
    method EnsurePumpDefaults()
      modifies this
      ensures state == old(state).(pumpConfig := EnsureProfiles(old(state).pumpConfig))
      ensures AxesPresent(state) && (old(Valid()) ==> Valid())
      ensures connected == old(connected) && lastError == old(lastError) && replies == old(replies)
      ensures globalSpeed == old(globalSpeed) && stepsPerJob == old(stepsPerJob) && effects == old(effects)
    {
      var cfg := FillProfiles(state.pumpConfig);
      EnsureProfilesHasAxes(old(state).pumpConfig);
      state := state.(pumpConfig := cfg);
    }

    /** The `setdefault` loop of `_ensure_pump_defaults`: the profile map after each
        factory axis is offered in turn. */
    static method FillProfiles(start: map<string, PumpProfile>) returns (cfg: map<string, PumpProfile>)
      ensures cfg == EnsureProfiles(start)
    {
      cfg := start;
      var i := 0;
      while i < |DefaultProfiles|
        invariant 0 <= i <= |DefaultProfiles|
        invariant cfg == SetDefaults(start, DefaultProfiles[..i])
      {
        var (axis, profile) := DefaultProfiles[i];
        assert DefaultProfiles[..i + 1][..i] == DefaultProfiles[..i];
        if axis !in cfg {
          cfg := cfg[axis := profile];
        }
        i := i + 1;
      }
      assert DefaultProfiles[..i] == DefaultProfiles;
    }

    /** `_ensure_light_schedule_defaults`: a legacy document copied day by day and its
        two keys dropped, then every missing day given the default window. */
    method EnsureLightScheduleDefaults()
      modifies this
      ensures state == old(state).(lightSchedule := EnsureScheduleDefaults(old(state).lightSchedule))
      ensures DaysPresent(state) && (old(Valid()) ==> Valid())
      ensures connected == old(connected) && lastError == old(lastError) && replies == old(replies)
      ensures globalSpeed == old(globalSpeed) && stepsPerJob == old(stepsPerJob) && effects == old(effects)
    {
      var sched := state.lightSchedule;
      if "workdays" in sched || "weekend" in sched {
        sched := CopyLegacyDays(sched, Workdays(sched), Weekend(sched));
        sched := sched - {"workdays", "weekend"};
      }
      sched := FillDefaultDays(sched);
      state := state.(lightSchedule := sched);
      EnsureDefaultsKeys(old(state).lightSchedule);
    }

    /** `_send_command`: refused when disconnected; otherwise the command is written
        and the oldest reply decides the outcome (see `Await`). */
    method SendCommand(cmd: Command) returns (r: Outcome)
      modifies this
      ensures !old(connected) ==>
        (r == Raised(NotConnected) && replies == old(replies) && lastError == old(lastError) && effects == old(effects))
      ensures old(connected) ==>
        ((replies, lastError, r) == Await(old(replies), old(lastError)) && effects == old(effects) + [Sent(cmd)])
      ensures state == old(state) && connected == old(connected)
      ensures globalSpeed == old(globalSpeed) && stepsPerJob == old(stepsPerJob)
    {
      if !connected {
        return Raised(NotConnected);
      }
      effects := effects + [Sent(cmd)];
      var (q, e, outcome) := Await(replies, lastError);
      replies, lastError, r := q, e, outcome;
    }

    /** `_update_heater_outputs`: when connected, the water then the reserve set-point
        is sent; a failed command is only logged. */
    method UpdateHeaterOutputs()
      modifies this
      ensures old(connected) ==>
        (effects == old(effects) + HeaterSends(old(state)) && (replies, lastError) == AwaitTwice(old(replies), old(lastError)))
      ensures !old(connected) ==> effects == old(effects) && replies == old(replies) && lastError == old(lastError)
      ensures state == old(state) && connected == old(connected)
      ensures globalSpeed == old(globalSpeed) && stepsPerJob == old(stepsPerJob)
    {
      if !connected {
        return;
      }
      var c := HeaterCommands(state);
      var _ := SendCommand(HeatWater(c.0));
      var _ := SendCommand(HeatReserve(c.1));
    }

    /** `_evaluate_heat_needs`: the zone loop over a copy of the heater states; when a
        zone flipped, the copy is written back, saved and sent to the board. */
    method EvaluateHeatNeeds()
      modifies this
      ensures state == EvaluateHeat(old(state))
      ensures (effects, replies, lastError) ==
        AfterHeatEvaluation(old(state), old(connected), old(effects), old(replies), old(lastError))
      ensures connected == old(connected) && globalSpeed == old(globalSpeed) && stepsPerJob == old(stepsPerJob)
    {
      if !state.heatAuto {
        ManualModeUnchanged(state);
        return;
      }
      var states, updated := ZoneLoop(state.heatState, ZoneReadings(state), state.heatTargets);
      EvaluateHeatBy(state, states, updated);
      if updated {
        WriteBackHeat(states);
      }
    }

    /** The write-back of `_evaluate_heat_needs` when a zone changed: the states and
        the enabled flag stored, the configuration saved, the heaters driven. */
    method WriteBackHeat(states: map<string, bool>)
      modifies this
      ensures state == old(state).(heatState := states, heatEnabled := AnyOn(states))
      ensures old(connected) ==>
        (effects == old(effects) + [SavedHeatConfig] + HeaterSends(state)
         && (replies, lastError) == AwaitTwice(old(replies), old(lastError)))
      ensures !old(connected) ==>
        (effects == old(effects) + [SavedHeatConfig] && replies == old(replies) && lastError == old(lastError))
      ensures connected == old(connected) && globalSpeed == old(globalSpeed) && stepsPerJob == old(stepsPerJob)
    {
      state := state.(heatState := states, heatEnabled := AnyOn(states));
      effects := effects + [SavedHeatConfig];
      UpdateHeaterOutputs();
    }

    /** The loop of `_evaluate_heat_needs` over the zones and their readings, on a
        copy of the heater states. */
    static method ZoneLoop(heatState: map<string, bool>, zones: seq<(string, string)>, targets: map<string, real>)
      returns (states: map<string, bool>, updated: bool)
      ensures (states, updated) == StepZones(heatState, zones, targets)
    {
      states := heatState;
      updated := false;
      var i := 0;
      while i < |zones|
        invariant 0 <= i <= |zones|
        invariant (states, updated) == StepZones(heatState, zones[..i], targets)
      {
        var (zone, raw) := zones[i];
        StepZonesNext(heatState, zones, targets, i);
        var (next, flipped) := ZoneStep(states, zone, ZoneTarget(targets, zone), ParseTemperature(raw));
        states, updated := next, updated || flipped;
        i := i + 1;
      }
      assert zones[..i] == zones;
    }

    /** `_apply_status_line`: each entry of the block applied in turn. */
    method ApplyStatusLine(payload: string)
      modifies this
      requires Valid()
      ensures Valid()
      ensures state == old(state).(readings := ApplyStatusPayload(old(state).readings, payload))
      ensures connected == old(connected) && lastError == old(lastError) && replies == old(replies)
      ensures globalSpeed == old(globalSpeed) && stepsPerJob == old(stepsPerJob) && effects == old(effects)
    {
      var readings := ApplyEntries(state.readings, StatusEntries(payload));
      state := state.(readings := readings);
    }

    /** The entry loop of `_apply_status_line`: each entry applied in turn. */
    static method ApplyEntries(start: Readings, entries: seq<string>) returns (readings: Readings)
      ensures readings == ApplyStatusEntries(start, entries)
    {
      readings := start;
      var i := 0;
      while i < |entries|
        invariant 0 <= i <= |entries|
        invariant readings == ApplyStatusEntries(start, entries[..i])
      {
        assert entries[..i + 1][..i] == entries[..i];
        readings := ApplyStatusEntry(readings, entries[i]);
        i := i + 1;
      }
      assert entries[..i] == entries;
    }

    /** The `label<sep>value` tokens gathered into a dictionary, a later label
        overriding an earlier one. */
    static method GatherLabels(tokens: seq<string>, sep: char) returns (vals: map<string, string>)
      ensures vals == Labels(tokens, sep)
    {
      ghost var es := LabelEntries(tokens, sep);
      vals := map[];
      var i := 0;
      while i < |tokens|
        invariant 0 <= i <= |tokens|
        invariant vals == Collect(es[..i])
      {
        var token := tokens[i];
        CollectNext(es, i);
        assert es[i] == LabelOf(token, sep);
        if sep in token {
          vals := vals[LabelKey(token, sep) := LabelValue(token, sep)];
        }
        i := i + 1;
      }
      assert es[..i] == es;
    }

    /** `_apply_temp_line`: the three temperature texts updated from the report's
        labels, then the heater rule run on them. */
    method ApplyTempLine(line: string)
      modifies this
      requires Valid()
      ensures Valid()
      ensures var mid := old(state).(readings := ApplyTemperatures(old(state).readings, TempLabels(line)));
        && state == EvaluateHeat(mid)
        && (effects, replies, lastError) == AfterHeatEvaluation(mid, old(connected), old(effects), old(replies), old(lastError))
      ensures connected == old(connected) && globalSpeed == old(globalSpeed) && stepsPerJob == old(stepsPerJob)
    {
      var vals := GatherLabels(Split(ReplaceAll(line, "C", ""), '|'), ':');
      state := state.(readings := ApplyTemperatures(state.readings, vals));
      EvaluateHeatNeeds();
    }

    /** `_apply_level_line`: the three level texts updated from the report's labels. */
    method ApplyLevelLine(line: string)
      modifies this
      requires Valid()
      ensures Valid()
      ensures state == old(state).(readings := ApplyLevels(old(state).readings, LevelLabels(line)))
      ensures connected == old(connected) && lastError == old(lastError) && replies == old(replies)
      ensures globalSpeed == old(globalSpeed) && stepsPerJob == old(stepsPerJob) && effects == old(effects)
    {
      var kv := GatherLabels(Words(ReplaceAll(line, "|", " ")), '=');
      state := state.(readings := ApplyLevels(state.readings, kv));
    }

    /** `_handle_line`: terminal replies are queued (an error reply also becomes the
        last error), reports update the state, anything else is ignored. */
    method HandleLine(raw: string)
      modifies this
      requires Valid()
      ensures Valid()
      ensures var k := ClassifyLine(raw);
        && (k.IsReply() ==> replies == old(replies) + [ReplyOf(k)] && state == old(state) && effects == old(effects))
        && (!k.IsReply() && !k.TempReport? ==> replies == old(replies) && lastError == old(lastError) && effects == old(effects))
        && (k.OkReply? ==> lastError == old(lastError))
        && (k.ErrReply? ==> lastError == Some(k.err))
        && ((k.Blank? || k.Unrecognized?) ==> state == old(state))
        && ((k.Hello? || k.Status?) ==> state == old(state).(readings := ApplyStatusPayload(old(state).readings, k.payload)))
        && (k.TempReport? ==>
              var mid := old(state).(readings := ApplyTemperatures(old(state).readings, TempLabels(k.text)));
              && state == EvaluateHeat(mid)
              && (effects, replies, lastError) == AfterHeatEvaluation(mid, old(connected), old(effects), old(replies), old(lastError)))
        && (k.LevelReport? ==> state == old(state).(readings := ApplyLevels(old(state).readings, LevelLabels(k.text))))
      ensures connected == old(connected) && globalSpeed == old(globalSpeed) && stepsPerJob == old(stepsPerJob)
    {
      HandleKind(ClassifyLine(raw));
    }

    /** The dispatch of `_handle_line` once the line is classified. */
    method HandleKind(k: LineKind)
      modifies this
      requires Valid()
      ensures Valid()
      ensures
        && (k.IsReply() ==> replies == old(replies) + [ReplyOf(k)] && state == old(state) && effects == old(effects))
        && (!k.IsReply() && !k.TempReport? ==> replies == old(replies) && lastError == old(lastError) && effects == old(effects))
        && (k.OkReply? ==> lastError == old(lastError))
        && (k.ErrReply? ==> lastError == Some(k.err))
        && ((k.Blank? || k.Unrecognized?) ==> state == old(state))
        && ((k.Hello? || k.Status?) ==> state == old(state).(readings := ApplyStatusPayload(old(state).readings, k.payload)))
        && (k.TempReport? ==>
              var mid := old(state).(readings := ApplyTemperatures(old(state).readings, TempLabels(k.text)));
              && state == EvaluateHeat(mid)
              && (effects, replies, lastError) == AfterHeatEvaluation(mid, old(connected), old(effects), old(replies), old(lastError)))
        && (k.LevelReport? ==> state == old(state).(readings := ApplyLevels(old(state).readings, LevelLabels(k.text))))
      ensures connected == old(connected) && globalSpeed == old(globalSpeed) && stepsPerJob == old(stepsPerJob)
    {
      match k
      case Blank =>
      case Unrecognized =>
      case OkReply =>
        replies := replies + [OkAck];
      case ErrReply(e) =>
        lastError := Some(e);
        replies := replies + [ErrAck(e)];
      case Hello(p) =>
        ApplyStatusLine(p);
      case Status(p) =>
        ApplyStatusLine(p);
      case TempReport(text) =>
        ApplyTempLine(text);
      case LevelReport(text) =>
        ApplyLevelLine(text);
    }

    /** `toggle_light`: the relay set as asked (or flipped) and driven; a text
        argument arrives here as `TextRequest(text)`. */
    method ToggleLight(req: LightRequest)
      modifies this
      requires Valid()
      ensures Valid()
      ensures state == old(state).(lightState := RequestedLight(old(state).lightState, req))
      ensures effects == old(effects) + [DroveLight(state.lightState)]
      ensures connected == old(connected) && lastError == old(lastError) && replies == old(replies)
      ensures globalSpeed == old(globalSpeed) && stepsPerJob == old(stepsPerJob)
    {
      var next := RequestedLight(state.lightState, req);
      state := state.(lightState := next);
      effects := effects + [DroveLight(next)];
    }

    /** `_tick_light_schedule` at the given local time: the relay is switched only
        when the day's window disagrees with it. */
    method TickLightSchedule(wday: nat, hour: nat, minute: nat)
      modifies this
      requires Valid()
      ensures Valid()
      ensures var d := TickDecision(old(state), wday, hour, minute);
        && (d.None? ==> state == old(state) && effects == old(effects))
        && (d.Some? ==> state == old(state).(lightState := d.value) && effects == old(effects) + [DroveLight(d.value)])
      ensures connected == old(connected) && lastError == old(lastError) && replies == old(replies)
      ensures globalSpeed == old(globalSpeed) && stepsPerJob == old(stepsPerJob)
    {
      var d := TickDecision(state, wday, hour, minute);
      if d.Some? {
        ToggleLight(SetTo(d.value));
      }
    }

    /** `update_light_schedule`: the edit applied and saved, or the error raised with
        nothing changed. */
    method UpdateLightSchedule(day: Option<string>, on: Option<string>, off: Option<string>) returns (r: Outcome)
      modifies this
      requires Valid()
      ensures Valid()
      ensures var u := UpdateSchedule(old(state).lightSchedule, day, on, off);
        && (u.Fail? ==> r == Raised(u.message) && state == old(state) && effects == old(effects))
        && (u.Ok? ==> r == Done && state == old(state).(lightSchedule := u.value) && effects == old(effects) + [SavedLightSchedule])
      ensures connected == old(connected) && lastError == old(lastError) && replies == old(replies)
      ensures globalSpeed == old(globalSpeed) && stepsPerJob == old(stepsPerJob)
    {
      var u := UpdateSchedule(state.lightSchedule, day, on, off);
      if u.Fail? {
        return Raised(u.message);
      }
      state := state.(lightSchedule := u.value);
      effects := effects + [SavedLightSchedule];
      r := Done;
    }

    /** `update_pump_config`: the profile edit applied and saved. */
    method UpdatePumpConfig(axis: string, name: Option<string>, volumeMl: Option<real>, direction: Option<int>)
      modifies this
      requires Valid()
      ensures Valid()
      ensures state == old(state).(pumpConfig := UpdateProfile(old(state).pumpConfig, axis, name, volumeMl, direction))
      ensures effects == old(effects) + [SavedPumpConfig]
      ensures connected == old(connected) && lastError == old(lastError) && replies == old(replies)
      ensures globalSpeed == old(globalSpeed) && stepsPerJob == old(stepsPerJob)
    {
      state := state.(pumpConfig := UpdateProfile(state.pumpConfig, axis, name, volumeMl, direction));
      effects := effects + [SavedPumpConfig];
    }

    /** `pump`: refused while the interlock holds; otherwise one run of
        `steps_per_job` steps is commanded and, if it was accepted and the motors
        switch off automatically, the motor-off timer is started. */
    method Pump(axis: string, backwards: bool) returns (r: Outcome)
      modifies this
      requires Valid()
      ensures Valid()
      ensures PumpBlocked(old(state)) ==>
        (r == Raised(BlockedMessage) && effects == old(effects) && replies == old(replies) && lastError == old(lastError))
      ensures !PumpBlocked(old(state)) ==>
        var speed := EffectiveSpeed(old(state).speed, old(globalSpeed));
        var cmd := Line(PumpCommand(axis, SignedSteps(old(stepsPerJob), backwards), speed));
        var timer := MotorOffTimer(Abs(old(stepsPerJob)), speed, MotorOffDelay(Abs(old(stepsPerJob)), speed));
        && (!old(connected) ==> r == Raised(NotConnected) && effects == old(effects) && replies == old(replies) && lastError == old(lastError))
        && (old(connected) ==> (replies, lastError, r) == Await(old(replies), old(lastError)))
        && (old(connected) && (r.Raised? || !old(state).mtrAutoOff) ==> effects == old(effects) + [Sent(cmd)])
        && (old(connected) && r == Done && old(state).mtrAutoOff ==> effects == old(effects) + [Sent(cmd), timer])
      ensures state == old(state) && connected == old(connected)
      ensures globalSpeed == old(globalSpeed) && stepsPerJob == old(stepsPerJob)
    {
      if PumpBlocked(state) {
        return Raised(BlockedMessage);
      }
      var speed := EffectiveSpeed(state.speed, globalSpeed);
      var steps := stepsPerJob;
      r := SendCommand(Line(PumpCommand(axis, SignedSteps(steps, backwards), speed)));
      if r == Done && state.mtrAutoOff {
        effects := effects + [MotorOffTimer(Abs(steps), speed, MotorOffDelay(Abs(steps), speed))];
      }
    }

    /** `set_heat_power`: refused in automatic mode when asked to switch off;
        otherwise both zones and the global flag take the requested value, which is
        saved and sent. */
    method SetHeatPower(enable: bool) returns (r: Outcome)
      modifies this
      requires Valid()
      ensures Valid()
      ensures old(state).heatAuto && !enable ==>
        (r == Raised(CannotDisableInAuto) && state == old(state)
         && effects == old(effects) && replies == old(replies) && lastError == old(lastError))
      ensures !(old(state).heatAuto && !enable) ==>
        (r == Done
         && state == old(state).(heatEnabled := enable, heatState := old(state).heatState["water" := enable]["reserve" := enable])
         && (old(connected) ==>
               effects == old(effects) + [SavedHeatConfig] + HeaterSends(state)
               && (replies, lastError) == AwaitTwice(old(replies), old(lastError)))
         && (!old(connected) ==>
               effects == old(effects) + [SavedHeatConfig] && replies == old(replies) && lastError == old(lastError)))
      ensures connected == old(connected) && globalSpeed == old(globalSpeed) && stepsPerJob == old(stepsPerJob)
    {
      if state.heatAuto && !enable {
        return Raised(CannotDisableInAuto);
      }
      state := state.(heatEnabled := enable, heatState := state.heatState["water" := enable]["reserve" := enable]);
      effects := effects + [SavedHeatConfig];
      UpdateHeaterOutputs();
      r := Done;
    }
  }
}
