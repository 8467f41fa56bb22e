# ReefControl core, modelled in Dafny

ReefControl runs an aquarium. A Python process (`ReefController`) talks to a
microcontroller over a serial line, keeps one state dictionary of readings,
set-points and schedules, and decides when to switch the heaters, the light relay
and the dosing pumps. A second part (`analysis.py`) summarises the telemetry stored
in InfluxDB and asks a local or a cloud language model to comment on it. A third
part (`ai_config.py`) stores which language-model engines are configured.

This project models the sequential core of these three files and proves what the
code promises about it.

- **Controller (`controller.dfy`, class `ReefController`).** The fields are the state
  dictionary (a `DeviceState` record, `device_state.dfy`), the connection flag, the
  last board error, the reply queue, `global_speed`, `steps_per_job` and an `effects`
  log. The log records serial writes, file saves, light-relay drives and motor-off
  timers, in order, instead of performing them. Each public method changes exactly
  the fields the source changes, except that status lines follow the corrected
  entry rule of "## Findings" (see "## Left out"). The invariant `Valid()` says
  every day key and every factory pump axis is present. The constructor
  establishes it, and every state-changing method requires it and keeps it. Each
  method is specified by the pure functions of the modules below:
  - `status_parser.dfy`: line classification, `ERR` decoding, `STATUS;` entries,
    temperature and level reports;
  - `heating.dfy`: the 0.2 hysteresis rule and the heater set-points;
  - `light_schedule.dfy`: the daily light window, schedule edits, the legacy
    `workdays`/`weekend` migration and the relay request;
  - `pump.dfy`: the low-water interlock, the `PUMP` command, default profiles and
    profile edits.
- **Telemetry history (`history.dfy`, `summaries.dfy`).**
  - `history.dfy`: validation of saved Flux queries; `fetch_history`'s grouping
    by measurement and its earliest time.
  - `summaries.dfy`: the peristaltic volume and activation counts; bucket
    truncation; per-bucket event counts sorted by bucket key.
- **AI providers (`providers.dfy`).** Which engines a configuration makes available,
  how a reply's content is read, the order `call_llm` tries engines in, and its
  attempt loop with the error aggregation.
- **AI configuration (`ai_config.dfy`).** The merge over the defaults and the edit
  rules of `save_ai_config`.
- **Shared modules.**
  - `common.dfy`: `Option`, `Result`, `Outcome`, and `setdefault` over a list of
    defaults.
  - `values.dfy`: JSON-shaped values with Python truth testing, `str()` and
    `dict.get`.
  - `strings.dfy`: the ASCII `str` operations the code uses (`strip`, `lower`,
    `upper`, `split`, `replace`, `join`, ordering, `int()`, `float()`).

Choices the model makes:

- **Parameters instead of I/O.** A query's rows (`run`), an HTTP reply
  (`transport`), `datetime.fromisoformat`/`isoformat`, the clock reading, the
  stored pump-profile and light-schedule files and the legacy key file are all
  parameters. The heat configuration file is not loaded (see "## Left out").
- **Loops are methods.** Python loops that build dicts or lists are methods with
  loop invariants, proved equal to a recursive specification function, whose
  properties are lemmas. These include the status-entry loop, the heater zone
  loop, the legacy migration, the summarisers, the bucket sort, the provider
  attempt loop, the default merge and the save loops.
- **The rules are the ones `controller.py` has.**
  - The heater band is the constant 0.2 (controller.py:528).
  - A single `heat_auto` flag governs both zones.
  - There is no fan hysteresis loop and no feeder or dosing schedule in the
    controller, so the model has none.
- **An unreachable branch.** In `_parse_error` (controller.py:391-394), the
  `UNKNOWN` code of the `ERR|` branch cannot occur. A line that starts with `ERR|`
  always has a second field.

## Model

| member | source | states |
|---|---|---|
| Controller.AwaitTakesOldest | controller.py:482-488 | A command's wait takes the oldest reply: `OK` succeeds and clears `last_error`; an `ERR` raises its message; an empty queue raises "no reply"; on failure `last_error` is untouched |
| Controller.AwaitInOrder | controller.py:369-375 | Replies queued behind older ones are consumed in arrival order: after consuming the older ones, exactly the newest reply is left |
| Controller.ReefController.constructor | controller.py:124-168 | The initial dictionary and counters with the loaded pump profiles and light schedule after both default passes; `Valid()` holds: every day key and every factory axis is present. |
| Controller.ReefController.EnsurePumpDefaults | controller.py:237-247 | The pump configuration becomes `EnsureProfiles` of the old one, which holds every factory axis; nothing else changes |
| Controller.ReefController.FillProfiles | controller.py:237-247 | Offering the four factory profiles in turn, each added only when its axis is missing, gives `EnsureProfiles` of the starting map |
| Controller.ReefController.EnsureLightScheduleDefaults | controller.py:249-265 | The schedule becomes `EnsureScheduleDefaults` of the old one, which holds every day key; nothing else changes |
| Controller.ReefController.SendCommand | controller.py:477-488 | Disconnected: raises "Non connecté" with no write; connected: logs the write, then consumes one reply as `Await` says |
| Controller.ReefController.UpdateHeaterOutputs | controller.py:490-505 | Connected: sends the two heater set-points and consumes two replies, failures swallowed; disconnected: nothing happens |
| Controller.ReefController.EvaluateHeatNeeds | controller.py:518-551 | The state becomes `EvaluateHeat` of the old one. The effects, the reply queue and the last error are as `AfterHeatEvaluation` says: unchanged unless a zone flipped; otherwise the heater config is saved and, when connected, both set-points are sent and each consumes a reply |
| Controller.ReefController.ZoneLoop | controller.py:528-545 | The `for zone, temp_raw` loop over the water and reserve readings returns exactly the zone states and `updated` flag of the step-by-step zone fold `StepZones` |
| Controller.ReefController.WriteBackHeat | controller.py:546-551 | Stores the new zone states with `heat_enabled` set to whether any zone is on, saves, then sends the outputs if connected |
| Controller.ReefController.ApplyStatusLine | controller.py:403-449 | The readings become the status payload applied entry by entry; nothing else changes |
| Controller.ReefController.ApplyEntries | controller.py:406-449 | The loop over the entries ends with the readings the entries give when applied in order (`ApplyStatusEntries`) |
| Controller.ReefController.GatherLabels | controller.py:454-471 | The dictionary loops of `_apply_temp_line` and `_apply_level_line` give `Labels`. Each token holding the separator binds its stripped, lower-cased label to its stripped value, and a later label overrides an earlier one (`CollectDomain`, `CollectLast`) |
| Controller.ReefController.ApplyTempLine | controller.py:451-463 | The three temperatures are updated from the labels present, then the heaters are re-evaluated on that state, with the save, sends and consumed replies of `AfterHeatEvaluation` |
| Controller.ReefController.ApplyLevelLine | controller.py:465-475 | The three level readings are updated from the labels present; nothing else changes |
| Controller.ReefController.HandleLine | controller.py:364-388 | Only `OK`/`ERR` lines enqueue a reply; `ERR` also sets `last_error`; status, hello, temperature and level lines update the state as their parsers say; only a temperature line has effects or consumes replies, as `AfterHeatEvaluation` says; blank and other lines change nothing |
| Controller.ReefController.HandleKind | controller.py:366-388 | The dispatch on the classified line, with the same per-kind contract as `HandleLine` |
| Controller.ReefController.ToggleLight | controller.py:732-740 | The relay is flipped or set as requested and the new state is driven |
| Controller.ReefController.TickLightSchedule | controller.py:321-361 | The relay is switched, and driven, only when the day's window asks for a different state than the current one |
| Controller.ReefController.UpdateLightSchedule | controller.py:717-730 | An invalid day raises with nothing changed; otherwise the edited schedule is stored and saved |
| Controller.ReefController.UpdatePumpConfig | controller.py:705-715 | The profile edit is applied and the pump configuration saved |
| Controller.ReefController.Pump | controller.py:679-692 | Blocked by the interlock: raises before any write; otherwise sends `PUMP <AXIS> <±steps> <max(speed,50)>` and starts the motor-off timer only when auto-off is set and the command succeeded |
| Controller.ReefController.SetHeatPower | controller.py:642-650 | Switching off in automatic mode raises with nothing changed; otherwise both zones and `heat_enabled` take the value and the config is saved; if connected, both set-points are sent and two replies consumed, and otherwise the queue and last error are untouched |
| Common.SetDefaultsKeeps | controller.py:245-247 | A `setdefault` loop never overwrites an existing entry |
| Common.SetDefaultsDomain | controller.py:245-247 | After a `setdefault` loop, a key is present iff it was already present or was offered |
| Common.SetDefaultsFirst | controller.py:245-247 | A missing key gets the value of its first offer |
| DeviceModel.DefaultSchedule | controller.py:154-157 | The initial schedule has exactly the seven day keys |
| Heating.ZoneStepDesired | controller.py:530-545 | One zone step sets the zone to the desired state; it reports a flip iff the state changed; other zones are untouched |
| Heating.ForcedOff | controller.py:533-537 | A target ≤ 0 or an unparsable temperature leaves the zone off |
| Heating.OutsideBand | controller.py:538-545 | Below target − 0.2 the zone is on; above target + 0.2 it is off |
| Heating.DeadBand | controller.py:528-545 | Inside [target − 0.2, target + 0.2] the zone map is unchanged and no flip is reported |
| Heating.StepZonesNext | controller.py:530-545 | The zone loop extended by one zone is one more zone step, with `updated` or-ed with that step's flip |
| Heating.EvaluateHeatBy | controller.py:518-551 | In automatic mode the evaluation is the zone loop's result written back when it reports a change, and the old state otherwise |
| Heating.ManualModeUnchanged | controller.py:520-521 | With `heat_auto` off, evaluation changes nothing |
| Heating.StepTwoZones | controller.py:523-545 | Over the two distinct zones, each ends in its desired state, and "updated" means the map changed |
| Heating.EvaluateHeatZones | controller.py:523-545 | After evaluation, water follows the `tw` reading and reserve follows the `tx` reading by the hysteresis rule |
| Heating.EvaluateHeatWriteBack | controller.py:546-549 | The zone states are rewritten iff some zone changed, and then `heat_enabled` is whether any zone is on |
| Heating.CommandsAfterEvaluation | controller.py:490-551 | After evaluation, each zone with no parsable temperature, no positive target or a reading above its band is commanded 0.0, and each zone read below its band is commanded its target |
| Pumps.EffectiveSpeed | controller.py:683-690 | The speed sent is the state's speed, or the global speed when that is 0, raised to exactly 50 when it is slower: at least 50, and either 50 or the chosen speed |
| Pumps.PumpCommandFields | controller.py:690 | The command splits on blanks into exactly `PUMP`, the upper-cased axis, the signed steps and the speed |
| Pumps.PumpCommandReadsBack | controller.py:689-690 | The command's step and speed fields parse back to the integers sent |
| Pumps.BackwardsOpposite | controller.py:689 | Running backwards negates the steps and keeps their magnitude |
| Pumps.MotorOffDelay | controller.py:695-696 | The motor-off delay is at least 0.5 s |
| Pumps.MotorOffDelayMonotone | controller.py:695-696 | More steps never shorten the delay |
| Pumps.EnsureProfilesEffect | controller.py:237-247 | Each default axis ends up present; an existing profile is kept; a missing one gets the default |
| Pumps.EnsureProfilesAddsOnlyDefaults | controller.py:237-247 | The keys afterwards are the old keys plus X, Y, Z and E |
| Pumps.EnsureProfilesIdempotent | controller.py:237-247 | Ensuring the defaults twice is ensuring them once |
| Pumps.SetDefaultsPresent | controller.py:245-247 | `setdefault` of keys already present changes nothing |
| Pumps.UpdateProfileEffect | controller.py:705-714 | Only the upper-cased axis is touched, created from a fresh profile if missing; name changes only if truthy; volume only if given; direction only if ±1 |
| Pumps.UpdateProfileKeepsDirection | controller.py:713-714 | If every stored direction is ±1, it still is after an edit |
| Pumps.UpdateProfileLaws | controller.py:706-714 | The axis case does not matter, and repeating an edit changes nothing |
| Values.NormalizeStr | ai_config.py:79-80 | `str(v or "").strip()` of a string is its stripped text; falsy values give `""` |
| Values.DictGetBinding | analysis.py:518 | `dict.get` finds a key iff some entry binds it, and the value found is one of its bindings |
| Values.DictKeysBound | analysis.py:109 | The dict's keys are exactly the bound keys, each listed once |
| Values.DictItemsView | analysis.py:109 | `d.items()` lists each key once, with the value of its last binding |
| Values.DictItemsKeys | analysis.py:109 | A key is among the items exactly when some entry binds it |
| StatusParser.ParseError | controller.py:390-401 | The raw line is kept; a line with neither `ERR\|` nor `ERR:` gives code `UNKNOWN` and the stripped whole line |
| StatusParser.ErrorRoundTrip | controller.py:391-394 | `ERR\|C\|m` decodes to code `C` and message `m` stripped, with `\|` allowed in `m` |
| StatusParser.ErrorBareCode | controller.py:391-394 | `ERR\|C` decodes to code `C` and an empty message |
| StatusParser.ErrorColonText | controller.py:395-397 | `ERR:m` decodes to code `MEGA` and message `m` stripped |
| StatusParser.ReplyLines | controller.py:364-376 | After stripping, a line is a reply iff it is `OK` or starts with `ERR`; an `ERR` reply carries `_parse_error` of the line; blank iff empty |
| StatusParser.StatusLineDispatch | controller.py:380-382 | `STATUS;p` is handled as a status block with payload `p` |
| StatusParser.EntrySplit | controller.py:407-409 | `k=v` with `=` not in `k` splits into exactly `k` and `v` |
| StatusParser.EntryWithoutEqualsSkipped | controller.py:407-408 | An entry without `=` changes nothing |
| StatusParser.EntryKeyCaseInsensitive | controller.py:410 | A key and its lower-case spelling have the same effect |
| StatusParser.MotorEntry | controller.py:411-412 | `mtr=v` sets the motors-powered flag iff `v` is `1`, `ON` or `TRUE` |
| StatusParser.EntryDecodes | controller.py:409-449 | An entry is the update its lower-cased key decodes to |
| StatusParser.IntegerTextConverts | controller.py:415 | The text of an integer of at most 2^53 in magnitude passes `int(float(...))` as that integer |
| StatusParser.FanIntegerEntry | controller.py:413-415 | A fan value reported as an integer of at most 2^53 in magnitude is stored as that integer |
| StatusParser.UnconvertedIntKept | controller.py:413-417 | A fan or servo value that does not convert keeps the previous value |
| StatusParser.UnparsableRealKept | controller.py:418-432 | A threshold or set-point that `float()` rejects keeps the previous value |
| StatusParser.UnknownKeyIgnored | controller.py:409-449 | A key decodes to "ignored" iff it is none of the handled keys, and then nothing changes |
| StatusParser.CollectNext | controller.py:455-458 | The label dictionary built one token further is one more assignment, or none for a token without a label |
| StatusParser.CollectDomain | controller.py:455-458 | A label is in the dictionary iff some token assigns it |
| StatusParser.CollectLast | controller.py:455-458 | A label's value is the one its last token assigned |
| StatusParser.LabelEntries | controller.py:455-458 | Each token gives its own label entry, if any, in order |
| StatusParser.ApplyTemperatures | controller.py:459-462 | Only `tw`, `ta` and `tx` change, each to its label's value when present |
| StatusParser.ApplyLevels | controller.py:472-475 | Only the three level readings change, each to its label's value when present |
| StatusParser.AsWrittenAgreesOtherwise | controller.py:413-449 | The as-written and the corrected entry rules agree on every entry except a fan or servo value that overflows: an infinity spelling or a decimal at least 2^1024 - 2^970 in magnitude |
| StatusParser.InfiniteFanCounterexample | controller.py:413-417 | On `fan_val=inf`, the code as written raises out of the status parser, while the corrected rule keeps the old value |
| StatusParser.InfinityTextOverflows | controller.py:415 | An infinity spelling makes `int(float(...))` overflow instead of being rejected |
| StatusParser.NonFiniteFanKept | controller.py:445-449 | The corrected rule keeps the old fan or servo value on an overflowing value; the as-written rule fails |
| Strings.StripIdempotent | controller.py:365 | `strip()` of stripped text changes nothing |
| Strings.StripBorders | controller.py:365 | Stripped text neither starts nor ends with whitespace |
| Strings.TrimLeftDropsSpace | controller.py:365 | `lstrip()` removes only leading whitespace |
| Strings.TrimRightDropsSpace | controller.py:365 | `rstrip()` removes only trailing whitespace |
| Strings.TrimRightChar | analysis.py:503 | `rstrip("/")` removes exactly the trailing run of `/` |
| Strings.LowerIdempotent | controller.py:410 | Lower-casing twice is lower-casing once |
| Strings.LowerHasNoUpper | controller.py:410 | Lower-cased text has no upper-case letter |
| Strings.UpperIdempotent | controller.py:680 | Upper-casing twice is upper-casing once |
| Strings.Split | controller.py:404 | `split(sep)` gives pieces without `sep` that join back to the text |
| Strings.SplitOnce | controller.py:409 | `split(sep, 1)` gives the text before the first `sep` and the rest |
| Strings.SplitCons | controller.py:404 | Splitting `a + sep + b` with `sep` not in `a` gives `a` then the pieces of `b` |
| Strings.Words | controller.py:466 | `split()` gives non-empty pieces without whitespace |
| Strings.ReplaceCharAt | controller.py:466 | Replacing one character by another changes exactly its occurrences |
| Strings.RemoveChar | controller.py:452 | Removing a character leaves the text without it, otherwise in order |
| Strings.LexIrreflexive | analysis.py:158 | String `<` is irreflexive |
| Strings.LexTransitive | analysis.py:158 | String `<` is transitive |
| Strings.LexTotal | analysis.py:451 | Distinct strings are ordered one way or the other |
| Strings.LexAsymmetric | analysis.py:451 | String `<` is asymmetric |
| Strings.NatToStringValue | controller.py:690 | The decimal text of a natural number reads back as it |
| Strings.IntRoundTrip | controller.py:690 | `int(str(n)) == n` |
| Strings.IntTextOnly | controller.py:690 | `str(n)` holds only a sign and digits |
| Strings.UnsignedOfDigits | controller.py:415 | `float()` of digits is their decimal value |
| Strings.NotADecimal | controller.py:415 | Text starting with anything but a digit, a point or an exponent mark is no decimal literal |
| Strings.RealOfIntText | controller.py:415 | `float(str(n)) == n` |
| Strings.Trunc | controller.py:415 | `int(x)` for a float truncates toward zero |
| LightSchedule.Pad2Value | controller.py:339-342 | A zero-padded two-digit field parses back to its number |
| LightSchedule.ToMinutesSplits | controller.py:341-342 | `to_minutes` splits at the first colon |
| LightSchedule.ToMinutesOfParts | controller.py:341-342 | `HH:MM` with parsable parts gives `HH*60+MM` |
| LightSchedule.ClockOfParsed | controller.py:342 | Two parsed fields give hour × 60 + minute |
| LightSchedule.ToMinutesOfClock | controller.py:339-342 | A zero-padded `HH:MM` clock time reads as its minute of the day |
| LightSchedule.ToMinutesNeedsColon | controller.py:341-344 | Text without a colon gives no time |
| LightSchedule.WindowReference | controller.py:352-355 | Within a day, the on/off rule equals "minutes since `on` are fewer than the window's length, modulo a day" |
| LightSchedule.WindowBoundaries | controller.py:352-355 | The window includes `on` unless it is empty, excludes `off`, and an equal on/off is never on |
| LightSchedule.MidnightWrap | controller.py:354-355 | When off < on, the light is on from `on` through midnight to `off`, and off between them |
| LightSchedule.TickFollowsWindow | controller.py:321-361 | The tick acts iff automatic mode is on, the day has a parsable window, and the window disagrees with the relay; it then asks for the window's state |
| LightSchedule.TickSettles | controller.py:357-361 | Once the tick has switched the relay, the same tick at the same time does nothing |
| LightSchedule.EditWindowEffect | controller.py:725-729 | A given on or off time is written; a `None` leaves that field as it was |
| LightSchedule.UpdateScheduleDays | controller.py:720-725 | A valid day edits only its lower-cased stripped key, adding it if missing; other days are unchanged |
| LightSchedule.UpdateScheduleEffect | controller.py:720-729 | The edited day's on/off equal the given times, or keep the old or default ones for `None` |
| LightSchedule.UpdateScheduleErrors | controller.py:718-722 | A missing or empty day raises "Jour manquant"; an unknown one raises "Jour inconnu: <day>"; a known one succeeds |
| LightSchedule.CopyLegacyDays | controller.py:254-260 | The migration loop computes the legacy copy over the seven days |
| LightSchedule.FillDefaultDays | controller.py:263-264 | The default loop computes the default fill over the seven days |
| LightSchedule.DayKeysDistinct | controller.py:23-31 | The seven day keys are distinct and differ from `workdays` and `weekend` |
| LightSchedule.CopyLegacyOther | controller.py:254-260 | Keys the migration has not reached are unchanged |
| LightSchedule.CopyLegacyCopied | controller.py:254-260 | A day whose legacy source is non-empty gets that source's on/off, defaulting to 08:00/20:00 |
| LightSchedule.CopyLegacyKept | controller.py:254-260 | A day whose legacy source is empty is left as it was |
| LightSchedule.FillDefaultsAt | controller.py:263-264 | After the fill each listed key is present, existing entries are kept, and new ones hold the default window |
| LightSchedule.EnsureDefaultsKeys | controller.py:249-264 | Afterwards there is no `workdays` or `weekend` key and all seven days exist |
| LightSchedule.LegacyDaysCopied | controller.py:251-260 | In a legacy schedule, days at index ≥ 5 come from `weekend` and the others from `workdays` |
| LightSchedule.CurrentFormKept | controller.py:249-264 | A schedule without legacy keys keeps every entry it has |
| LightSchedule.OnWords | controller.py:734 | The on-words are exactly `1`, `true` and `on` |
| LightSchedule.RequestedLightLaws | controller.py:736-739 | Flipping twice restores the relay; setting twice is setting once |
| LightSchedule.TextRequestNormalised | controller.py:733-734 | A text asks for the same state as its stripped lower-cased form, whatever the current state |
| LightSchedule.StripLowerCommute | controller.py:734 | Stripping lower-cased stripped text changes nothing |
| History.SaveAnalysisQueries | analysis.py:106-115 | The check loop over the dict's items returns those items or the first error, as `ValidateQueries` says |
| History.FirstErrorNone | analysis.py:109-113 | No error iff every key is a known period and every value is a non-blank string |
| History.FirstErrorClear | analysis.py:109-113 | No error iff no entry has one |
| History.FirstErrorIsFirst | analysis.py:109-113 | The error reported is the one of the first offending entry |
| History.QueriesAccepted | analysis.py:106-115 | Accepted iff the payload is a dict every key of which is a period whose value (its last binding) is a non-blank string; then the dict's items are returned; a non-dict raises "Format de requêtes invalide." |
| History.EarliestNext | analysis.py:154-159 | One more row updates the earliest time only when it has a time before the current minimum |
| History.GroupNext | analysis.py:166-169 | One more row is appended to its own measurement's group only |
| History.EarliestTime | analysis.py:153-159 | The loop computes `Earliest` of the rows |
| History.GroupRows | analysis.py:160-169 | Exactly the four measurement groups, each holding `Group` of the rows |
| History.FetchHistory | analysis.py:148-173 | An unknown period raises "Période inconnue"; otherwise the groups and earliest time of the query's rows |
| History.EarliestIsMinimum | analysis.py:153-159 | `None` iff no row has a time; otherwise it is some row's time and no row's time is smaller |
| History.GroupMembers | analysis.py:166-169 | A row is in a group iff it is among the rows and has that measurement |
| History.FilterSnoc | analysis.py:166-169 | Filtering rows plus one more row adds that row only when its measurement matches |
| History.GroupIsFilter | analysis.py:166-169 | Each group is the rows with that measurement, in order |
| Summaries.AddVolumeCases | analysis.py:273-282 | A pump row with a parsable volume adds it to its axis; any other row adds nothing |
| Summaries.PeristalticNext | analysis.py:272-284 | One more row is one more volume step and one more activation step |
| Summaries.CountPumpRow | analysis.py:273-284 | The loop body performs one volume step and one activation step |
| Summaries.SummarizePeristaltic | analysis.py:269-285 | The loop computes `Volumes` and `Activations` of the rows |
| Summaries.ActivationsCount | analysis.py:283-284 | An axis is counted iff some pump state row names it, and its count is the number of such rows |
| Summaries.AddVolumeAt | analysis.py:276-282 | After one row, an axis has a volume iff it had one or the row adds to it, and the total grows by the row's share |
| Summaries.VolumesPresent | analysis.py:277-280 | An axis has a volume iff some row adds a volume to it |
| Summaries.VolumesHaveRow | analysis.py:277-280 | An axis has a volume iff some row, scanned from the end, adds one |
| Summaries.AnyRowExists | analysis.py:272 | The scan from the end finds a row iff one exists |
| Summaries.VolumesSum | analysis.py:277-280 | A present axis's volume is the sum of its rows' volumes; an absent axis has sum 0 |
| Summaries.TruncateFields | analysis.py:468-476 | `6h` keeps the day and drops to hour `(h//6)*6`; `1d` goes to midnight; `1mo` to day 1 at midnight; otherwise to the top of the hour |
| Summaries.TruncateBucket | analysis.py:468-476 | The bucket start is a valid instant, not after the time, and truncating again changes nothing |
| Summaries.SameBucketSameKey | analysis.py:462-477 | Two parsable times in the same bucket get the same, present key |
| Summaries.SumCountsAt | analysis.py:449 | The sum of per-type counts splits off any one type |
| Summaries.SumCountsBump | analysis.py:449 | Counting one more event of a type adds one to the sum |
| Summaries.BucketTotals | analysis.py:444-449 | Each bucket's total is the sum of its per-type counts, and is positive |
| Summaries.BucketCounts | analysis.py:440-449 | A bucket exists iff some row falls in it, and its total is the number of such rows |
| Summaries.BucketsNext | analysis.py:440-449 | One more row adds one event to its bucket and type, or nothing if it has no key |
| Summaries.Least | analysis.py:451 | The least key of a non-empty set |
| Summaries.SortedKeys | analysis.py:451 | `sorted(keys)`: exactly the keys, strictly increasing |
| Summaries.CountBuckets | analysis.py:439-449 | The counting loop computes `Buckets` of the rows |
| Summaries.AggregateDeviceEventBuckets | analysis.py:438-459 | One result per bucket, carrying its total and per-type counts, in increasing key order |
| Providers.Texts | analysis.py:493-498 | The six settings read as `(v or "").strip()`, each as its own text when none raises |
| Providers.TextsFailure | analysis.py:493-498 | A failure is the error of the first setting that raises |
| Providers.TextsOk | analysis.py:493-498 | When no setting raises, reading them succeeds |
| Providers.ProviderEligibility | analysis.py:492-514 | Local is available iff it has a base URL and a model; cloud iff it has URL, model and key; the trailing `/` is removed |
| Providers.ProviderSettingRaises | analysis.py:493-498 | A truthy non-string setting makes `.strip()` raise |
| Providers.ProvidersWellFormed | analysis.py:499-513 | An available provider carries its mode, a non-empty model and a base URL without a trailing `/` |
| Providers.ChunkTexts | analysis.py:522-528 | The chunk texts are non-empty and no more than the chunks |
| Providers.ChunkTextsAppend | analysis.py:523-528 | The chunk texts of two lists are the texts of each, in order |
| Providers.ChunkTextsOne | analysis.py:524-528 | One chunk contributes its text when it is a dict with a truthy `text`, otherwise nothing |
| Providers.ExtractCases | analysis.py:517-530 | String content is returned unchanged; list content is the stripped newline-join of the chunk texts; anything else gives `""` |
| Providers.ExtractSkipsChunks | analysis.py:524-525 | A chunk without text can be removed without changing the result |
| Providers.CallProvider | analysis.py:548-562 | A successful reply has non-empty content; a transport error is re-raised as a runtime error with its message |
| Providers.CallProviderText | analysis.py:555-562 | A reply whose first choice's message has string content `s` succeeds with `s`, or fails with "Contenu IA indisponible." when `s` is empty |
| Providers.CallProviderNoChoices | analysis.py:555-557 | A reply without choices fails with "Réponse vide du modèle." |
| Providers.Fallback | analysis.py:596 | The fallback mode is the other valid mode |
| Providers.PlanWellFormed | analysis.py:583-598 | An order holds one or two available valid modes, without duplicates |
| Providers.PlanForced | analysis.py:583-591 | A forced mode outside local/cloud raises `ValueError`; an unavailable cloud raises the missing-key error; an unavailable local raises the incomplete-config error; otherwise the order is that one mode |
| Providers.PlanPreferred | analysis.py:592-598 | The preferred mode comes first iff available; the fallback is included iff allowed and available; nothing else; empty iff neither |
| Providers.PlanEmpty | analysis.py:600-603 | An empty order raises the missing-key error for cloud and "Aucun moteur IA disponible." otherwise |
| Providers.TryProviders | analysis.py:605-630 | The attempt loop computes `Attempts` over the order |
| Providers.AttemptsAllFail | analysis.py:625-630 | If every attempt fails, the error is "Echec appel IA - " followed by each `mode: msg`, in order, joined by ` \| ` |
| Providers.AttemptsFirstSuccess | analysis.py:610-620 | The first success is returned with `mode_used` set to its mode |
| Providers.AttemptsReraise | analysis.py:621-624 | A cloud missing-key error stops the loop and is re-raised |
| Providers.AttemptsAnswerFrom | analysis.py:606-620 | An answer comes from an available mode of the order, and is that provider's successful reply |
| Providers.BuildOrder | analysis.py:578-603 | The order-building code computes `PlanOrder` |
| Providers.CallWithConfig | analysis.py:577-630 | Preparing the providers, planning and trying computes `ConfiguredAnswer` |
| Providers.CallLlm | analysis.py:565-630 | `call_llm` computes `LlmAnswer`, raising on invalid messages |
| Providers.AnswerModeUsed | analysis.py:583-620 | The mode used is valid and available; it is the forced mode when one is forced, and the configured mode when fallback is off |
| Providers.NoFallbackTriesConfigured | analysis.py:592-630 | Without fallback only the configured engine is tried, and its outcome decides the answer |
| Providers.FallbackAnswers | analysis.py:594-620 | When the preferred engine fails and the fallback succeeds, the fallback's answer is returned |
| Providers.LlmModeUsed | analysis.py:574-620 | Any answer's mode is valid, and is the forced mode when one is forced |
| AiSettings.KeyOf | ai_config.py:46-48 | A recognised name is the name of its key |
| AiSettings.KeyOfName | ai_config.py:9-17 | Every default key's name is recognised as that key |
| AiSettings.WithField | ai_config.py:50-52 | Writing one key sets it and leaves the others |
| AiSettings.Overlay | ai_config.py:45-52 | Every key takes its raw value, normalised, when present, and its default otherwise |
| AiSettings.CoerceMode | ai_config.py:56-59 | The mode is always `local` or `cloud` |
| AiSettings.MergeWithDefaults | ai_config.py:44-65 | The merge loop and fix-ups compute `Merged` |
| AiSettings.OverlayLoop | ai_config.py:45-52 | The overwrite loop computes `Overlay` |
| AiSettings.OverlayStep | ai_config.py:46-52 | One raw key more: an unknown key changes nothing, and a known one takes its normalised value |
| AiSettings.MergedSetting | ai_config.py:46-52 | A URL or model setting is its raw value, stripped if a string, or the default when absent |
| AiSettings.ModeOfNonString | ai_config.py:56-58 | A non-string mode becomes `cloud` |
| AiSettings.MergedMode | ai_config.py:56-59 | The mode is the lower-cased raw mode when that is `local` or `cloud`, and `cloud` otherwise |
| AiSettings.MergedModeIs | ai_config.py:56-59 | The merged mode is the coercion of the overlaid mode |
| AiSettings.PickedMode | ai_config.py:56-59 | The coercion of the overlaid mode is `cloud` unless the raw mode reads as `local` or `cloud` |
| AiSettings.MergedSecrets | ai_config.py:53-62 | Without secrets both keys are `""`; with them, the legacy key fills a falsy cloud key only |
| AiSettings.MergedFlags | ai_config.py:63-64 | The has-key flags reflect the raw keys and the legacy key, not the blanked ones |
| AiSettings.SaveNames | ai_config.py:88-97 | The save loops cover exactly the four URL/model keys and the two secret keys |
| AiSettings.EditsEffect | ai_config.py:88-103 | After a save loop, a key it writes holds the normalised payload value, and every other key is kept |
| AiSettings.EditEffect | ai_config.py:94-103 | One loop step writes its key unless the payload lacks it or, for a secret, gives `None` |
| AiSettings.EditsNext | ai_config.py:88-103 | The loop over one more key is one more step |
| AiSettings.SaveSettings | ai_config.py:88-95 | The first save loop computes the URL/model edits |
| AiSettings.SaveSecrets | ai_config.py:97-103 | The second save loop computes the secret edits, keeping stored keys given as `None` |
| AiSettings.SaveAiConfig | ai_config.py:73-106 | An invalid payload raises; otherwise the merged file is written and returned, read back without secrets |
| AiSettings.SaveErrors | ai_config.py:74-85 | A non-dict is rejected; a dict fails iff its `ai_mode` is not `local`/`cloud` after normalising |
| AiSettings.SaveEditsEffect | ai_config.py:82-103 | Each given URL/model key, and each given non-`None` secret, is written normalised; all else is kept |
| AiSettings.SaveEffect | ai_config.py:82-103 | The same per key, with the mode lower-cased |
| AiSettings.SaveKeepsOthers | ai_config.py:77-103 | Keys outside the defaults are preserved by a save |
| AiSettings.SaveThenLoadSetting | ai_config.py:73-106 | A URL or model saved as `s` loads back as `s` stripped |
| AiSettings.SavedSetting | ai_config.py:94-95 | A URL or model saved as `s` is stored as `s` stripped |
| AiSettings.LoadSetting | ai_config.py:46-52 | A stored string setting loads as its stripped text |
| AiSettings.ValidModeFixed | ai_config.py:83-86 | A valid lower-cased mode is unchanged by a second normalisation |
| AiSettings.SaveThenLoadMode | ai_config.py:82-106 | A saved mode loads back as the mode given |
| AiSettings.SaveHidesSecrets | ai_config.py:60-62 | The configuration a save returns shows both API keys as `""` |

## Left out

- **Serial link and threads.** The serial client, its reader thread and handshake, the telemetry and light-scheduler loops, `time.sleep`, and `state_lock` are left out. They are concurrency and blocking I/O. The motor-off timer thread is an entry in `effects`.
- **Hardware and files.** GPIO, and the JSON files (`_load_configs`, `_save_*`, `_load_heat_config`), are left out as hardware and file I/O. The pump-profile and light-schedule files are constructor parameters. The heat configuration file is not read (`_load_heat_config`, controller.py:168, 206-221): the heat targets, `heat_auto`, `heat_enabled` and `heat_state` always start from the built-in initial state. Saves are entries in `effects`.
- **Network and InfluxDB.** InfluxDB (`run_flux_query`, `_record_to_dict`) is the parameter `run`.
- **HTTP.** The HTTP request of `_call_provider` is the parameter `transport`. The request's payload, headers, `temperature`, `max_tokens` and timeout are not modelled, and `messages` is only checked, not sent.
- **Logging.** Logging is left out.
- **Floating point.**
  - `float()` is modelled for decimal and exponent notation on exact reals. Underscores in numbers are not accepted.
  - Dafny reals are exact, so no rounding is modelled: a decimal beyond the range of a double is kept as its exact value, except in `int(float(...))`, where `StatusParser.IntOfFloatText` makes it overflow as the source does.
  - `_basic_stats` and the float summaries are not modelled.
- Heating.ParseTemperature: reads `nan`, `inf` and `-inf` as no temperature, so the zone is forced off. In the source, `float()` parses them (controller.py:514). A NaN reading fails every comparison at controller.py:538-545, so an on zone stays on. `-inf` turns the zone on and `inf` turns it off.
- StatusParser.UnparsableRealKept: an `auto_thresh`, `pidw_tgt` or `pidr_tgt` value of `nan` or `inf` keeps the old value. The source stores the NaN or the infinity (controller.py:418-432).
- Summaries.RowVolume: skips a `volume_ml` of `nan` or `inf`. The source adds it to the axis total (analysis.py:277-281).
- StatusParser.IntegerTextConverts: stated only for integers of at most 2^53 in magnitude. A double holds those exactly; larger ones are rounded by `float()` in the source (not modelled).
- **Text formatting.**
  - The `HEATW`/`HEATR` `%.2f` command text is not modelled: the commanded values are.
  - Unicode case mapping and Unicode whitespace are not modelled: ASCII only.
- **Time.**
  - `datetime.fromisoformat`, the UTC conversion and `isoformat` are parameters.
  - The `ts` (`time.time()`) stamp that `_parse_error` adds to an error payload (controller.py:401) is not modelled: `ErrorPayload` holds the code, the message and the raw line.
  - Instants check field ranges but not the length of each month.
  - The clock reading is a parameter of `TickLightSchedule`.
- **Python values.**
  - `str()` of a list or dict is given only its opening bracket.
  - Floats are absent from the JSON value type.
  - A dict is its list of entries. `d.get` reads a key's last binding. Iterating a dict walks `Values.DictItems`: each key once, in the order of its first binding, with its last value.
  - A non-object stored config file is not modelled: the stored file is always a dict.
- **Error messages.** The messages of Python's own exceptions (for example `int()` on bad text inside `to_minutes`) are not modelled; only the fact that an error occurred is.
- **Not part of this model.**
  - `pidw`/`pidr` tuples, the fan state, `servo_angle` commands and pH are not modelled.
  - Actions outside the core (`set_water`, `set_fan_manual`, `set_steps_speed`, `raw`, `get_state`, …) are not modelled.
  - reef_web.py, the GUI and the firmware pages are not modelled.
- **Serial write errors.** A failing serial write is not modelled: `SendCommand` only fails for a missing connection, a missing reply or an `ERR` reply.
- Controller.ReefController.ApplyStatusLine: applies every entry with the corrected rule of the "## Findings" row. On a fan or servo value that reads as an infinity (`inf`, `1e309`), the source raises after the earlier entries. The later entries are not applied, and the reader thread logs the error and stops (controller.py:117-120). The model keeps the old value and applies the rest. The as-written rule is `StatusParser.ApplyStatusEntryAsWritten`.
- Controller.ReefController.HandleLine: a status or hello line goes through `ApplyStatusLine`, so it inherits that method's corrected rule. Stopping the reader thread is not modelled.
- Controller.ReefController.ToggleLight: takes the argument after the source's string coercion. A text argument is passed as `TextRequest(text)`, whose rule is the separate function `LightSchedule.TextRequest`.
- Controller.ReefController.SendCommand: does not model the timeout. A missing reply is an empty queue at the moment of the wait.

## Findings

| source | as written | input that shows it | evidently intended | confidence | as-written member | corrected member |
|---|---|---|---|---|---|---|
| controller.py:413-417 | `int(float(value))` is guarded by `except ValueError`, but `int(float("inf"))` raises `OverflowError`, which escapes `_apply_status_line` and the reader thread's line handler | a status line `STATUS;fan_val=inf`, or `STATUS;fan_val=1e309`, which `float()` rounds to infinity (likewise `servo=inf`, controller.py:445-449) | a value that is not a finite number keeps the previous fan value, like any other unparsable value | not executed | StatusParser.InfiniteFanCounterexample | StatusParser.NonFiniteFanKept |
