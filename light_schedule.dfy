/**
 * The light relay's daily window (controller.py:321-361), the edits of the
 * weekly schedule (controller.py:717-730), the legacy `workdays`/`weekend`
 * migration (controller.py:249-265) and the requested relay state of
 * `toggle_light` (controller.py:732-740). The clock's reading is a parameter.
 */
module LightSchedule {
  import opened Common
  import opened Strings
  import opened DeviceModel

  const MinutesPerDay: int := 1440

  /** `to_minutes`: `HH:MM` split at the first colon, both halves read by `int()`;
      any failure gives `None`. Neither half is range-checked. */
  function ToMinutes(val: string): Option<int> {
    if ':' !in val then None else ClockOf(SplitOnce(val, ':'))
  }

  /** The hour and minute halves read by `int()` and combined into minutes since
      midnight, when both are integers. */
  function ClockOf(parts: (string, string)): Option<int> {
    match (ParseInt(parts.0), ParseInt(parts.1))
    case (Some(h), Some(m)) => Some(h * 60 + m)
    case _ => None
  }

  /** Two digits, zero-padded, as the schedule stores hours and minutes. */
  function Pad2(n: nat): (r: string)
    requires n < 100
    ensures |r| == 2 && IsDigit(r[0]) && IsDigit(r[1])
    ensures ':' !in r
  {
    [DigitChar(n / 10), DigitChar(n % 10)]
  }

  lemma Pad2Value(n: nat)
    requires n < 100
    ensures ParseInt(Pad2(n)) == Some(n)
  {
    var p := Pad2(n);
    StripNothing(p);
    assert p[0] != '+' && p[0] != '-' && AllDigits(p);
    assert DigitValue(p[0]) == n / 10 && DigitValue(p[1]) == n % 10;
    assert p[..1] == [p[0]] && p[..1][..0] == [];
    assert DigitsValue(p[..1]) == n / 10;
    assert DigitsValue(p) == DigitsValue(p[..1]) * 10 + DigitValue(p[1]);
  }

  /** A colon-free hour text, a colon and a minute text: the two halves are read. */
  lemma ToMinutesSplits(a: string, b: string)
    requires ':' !in a
    ensures ToMinutes(a + ":" + b) == ClockOf((a, b))
  {
    assert a + ":" + b == a + [':'] + b;
    SplitAtFirst(a, ':', b);
  }

  /** Both halves read by `int()` give the hour times sixty plus the minute. */
  lemma ToMinutesOfParts(a: string, b: string, h: int, m: int)
    requires ':' !in a && ParseInt(a) == Some(h) && ParseInt(b) == Some(m)
    ensures ToMinutes(a + ":" + b) == Some(h * 60 + m)
  {
    ClockOfParsed(a, b, h, m);
    ToMinutesSplits(a, b);
  }

  lemma ClockOfParsed(a: string, b: string, h: int, m: int)
    requires ParseInt(a) == Some(h) && ParseInt(b) == Some(m)
    ensures ClockOf((a, b)) == Some(h * 60 + m)
  {
  }

  /** An `HH:MM` text written with two-digit fields reads back as its minute of the day. */
  lemma ToMinutesOfClock(h: nat, m: nat)
    requires h < 24 && m < 60
    ensures ToMinutes(Pad2(h) + ":" + Pad2(m)) == Some(h * 60 + m)
  {
    var hh, mm := Pad2(h), Pad2(m);
    Pad2Value(h);
    Pad2Value(m);
    ToMinutesOfParts(hh, mm, h, m);
  }

  /** A text without a colon is not a time. */
  lemma ToMinutesNeedsColon(val: string)
    requires ':' !in val
    ensures ToMinutes(val).None?
  {
  }

  /** The window test: a same-day window `[on, off)`, or, when the off time comes
      first, a window that wraps past midnight. */
  function ShouldBeOn(on: int, off: int, now: int): bool {
    if on <= off then on <= now < off else now >= on || now < off
  }

  /** Reference definition: the light is on when fewer minutes have passed since
      the on time than the window lasts, both counted modulo a day. */
  lemma WindowReference(on: int, off: int, now: int)
    requires 0 <= on < MinutesPerDay && 0 <= off < MinutesPerDay && 0 <= now < MinutesPerDay
    ensures ShouldBeOn(on, off, now) <==> (now - on) % MinutesPerDay < (off - on) % MinutesPerDay
  {
    if now >= on {
      assert (now - on) % MinutesPerDay == now - on;
    } else {
      assert (now - on) % MinutesPerDay == now - on + MinutesPerDay;
    }
    if off >= on {
      assert (off - on) % MinutesPerDay == off - on;
    } else {
      assert (off - on) % MinutesPerDay == off - on + MinutesPerDay;
    }
  }

  /** The window includes its on minute (unless it is empty) and excludes its off
      minute; equal times make an empty window. */
  lemma WindowBoundaries(on: int, off: int)
    ensures ShouldBeOn(on, off, on) <==> on != off
    ensures !ShouldBeOn(on, off, off)
    ensures !ShouldBeOn(on, on, on)
  {
  }

  /** Across midnight: with `on > off` the light is on late in the day and early
      the next morning, and off in between. */
  lemma MidnightWrap(on: int, off: int, now: int)
    requires off < on
    ensures now >= on ==> ShouldBeOn(on, off, now)
    ensures now < off ==> ShouldBeOn(on, off, now)
    ensures off <= now < on ==> !ShouldBeOn(on, off, now)
  {
  }

  /** The entry `zone.get(key)` when it is a non-empty text (Python's truthiness). */
  function NonEmpty(zone: DayEntry, key: string): Option<string> {
    if key in zone && zone[key] != "" then Some(zone[key]) else None
  }

  /** One run of `_tick_light_schedule` at weekday `wday` (Monday is 0) and
      `hour:minute`: the state `toggle_light` is then asked for, or `None` when it
      is not called (manual mode, no entry for the day, a missing or unparsable
      time, or the relay already in the wanted state). */
  function TickDecision(s: DeviceState, wday: nat, hour: nat, minute: nat): Option<bool> {
    if !s.lightAuto then None
    else
      var day := DayKeys[wday % |DayKeys|];
      if day !in s.lightSchedule || s.lightSchedule[day] == map[] then None
      else
        var zone := s.lightSchedule[day];
        match (NonEmpty(zone, "on"), NonEmpty(zone, "off"))
        case (Some(onText), Some(offText)) =>
          (match (ToMinutes(onText), ToMinutes(offText))
           case (Some(onMin), Some(offMin)) =>
             var should := ShouldBeOn(onMin, offMin, hour * 60 + minute);
             if should != s.lightState then Some(should) else None
           case _ => None)
        case _ => None
  }

  /** The window a day's entry describes, when both times are present and parse. */
  function DayWindow(s: DeviceState, wday: nat): Option<(int, int)> {
    var day := DayKeys[wday % |DayKeys|];
    if day !in s.lightSchedule || s.lightSchedule[day] == map[] then None
    else
      var zone := s.lightSchedule[day];
      match (NonEmpty(zone, "on"), NonEmpty(zone, "off"))
      case (Some(onText), Some(offText)) =>
        (match (ToMinutes(onText), ToMinutes(offText))
         case (Some(onMin), Some(offMin)) => Some((onMin, offMin))
         case _ => None)
      case _ => None
  }

  /** The scheduler acts exactly when automatic mode is on, the day has a usable
      window, and the relay disagrees with it; it then asks for the window's state. */
  lemma TickFollowsWindow(s: DeviceState, wday: nat, hour: nat, minute: nat)
    ensures TickDecision(s, wday, hour, minute).Some? <==>
      s.lightAuto && DayWindow(s, wday).Some?
      && ShouldBeOn(DayWindow(s, wday).value.0, DayWindow(s, wday).value.1, hour * 60 + minute) != s.lightState
    ensures TickDecision(s, wday, hour, minute).Some? ==>
      TickDecision(s, wday, hour, minute).value
        == ShouldBeOn(DayWindow(s, wday).value.0, DayWindow(s, wday).value.1, hour * 60 + minute)
  {
  }

  /** Once the relay has been set as asked, the same tick asks for nothing more. */
  lemma TickSettles(s: DeviceState, wday: nat, hour: nat, minute: nat)
    requires TickDecision(s, wday, hour, minute).Some?
    ensures TickDecision(s.(lightState := TickDecision(s, wday, hour, minute).value), wday, hour, minute).None?
  {
    TickFollowsWindow(s, wday, hour, minute);
    var t := s.(lightState := TickDecision(s, wday, hour, minute).value);
    assert DayWindow(t, wday) == DayWindow(s, wday);
    TickFollowsWindow(t, wday, hour, minute);
  }

  // ---------- schedule edits ----------

  /** `update_light_schedule(day, on, off)` on the schedule: the day is required
      (`Jour manquant`) and must be a day name once stripped and lower-cased
      (`Jour inconnu: <day>`); a missing entry starts from the default window, and
      a time given as `None` is left as it was. */
  function UpdateSchedule(sched: Schedule, day: Option<string>, on: Option<string>, off: Option<string>)
    : Result<Schedule>
  {
    if day.None? || day.value == "" then Fail("Jour manquant")
    else
      var key := Lower(Strip(day.value));
      if key !in DayKeys then Fail("Jour inconnu: " + day.value)
      else
        var entry := if key in sched then sched[key] else DefaultWindow;
        Ok(sched[key := EditWindow(entry, on, off)])
  }

  /** A day's window with the given times written over it. */
  function EditWindow(entry: DayEntry, on: Option<string>, off: Option<string>): DayEntry {
    var entry1 := if on.Some? then entry["on" := on.value] else entry;
    if off.Some? then entry1["off" := off.value] else entry1
  }

  /** Each given time is set; a time passed as `None` keeps its previous value. */
  lemma EditWindowEffect(entry: DayEntry, on: Option<string>, off: Option<string>)
    ensures var e := EditWindow(entry, on, off);
      && (on.Some? ==> "on" in e && e["on"] == on.value)
      && (on.None? ==> Get(e, "on") == Get(entry, "on"))
      && (off.Some? ==> "off" in e && e["off"] == off.value)
      && (off.None? ==> Get(e, "off") == Get(entry, "off"))
  {
    assert "on" != "off";
  }

  /** An accepted edit writes that day only: the other days keep their windows. */
  lemma UpdateScheduleDays(sched: Schedule, day: string, on: Option<string>, off: Option<string>)
    requires day != "" && Lower(Strip(day)) in DayKeys
    ensures var key := Lower(Strip(day));
      var r := UpdateSchedule(sched, Some(day), on, off);
      && r.Ok?
      && key in r.value && r.value.Keys == sched.Keys + {key}
      && (forall d :: d in sched && d != key ==> r.value[d] == sched[d])
  {
    var key := Lower(Strip(day));
    var w := EditWindow(if key in sched then sched[key] else DefaultWindow, on, off);
    assert UpdateSchedule(sched, Some(day), on, off) == Ok(sched[key := w]);
    WriteDay(sched, key, w);
  }

  /** Writing one day's window adds that day and leaves the others alone. */
  lemma WriteDay(sched: Schedule, key: string, w: DayEntry)
    ensures var r := sched[key := w];
      key in r && r.Keys == sched.Keys + {key} && forall d :: d in sched && d != key ==> r[d] == sched[d]
  {
  }

  /** The window an accepted edit writes: the given times over the previous window
      (or the default for a new entry); a time passed as `None` keeps its value. */
  lemma UpdateScheduleEffect(sched: Schedule, day: string, on: Option<string>, off: Option<string>)
    requires day != "" && Lower(Strip(day)) in DayKeys
    ensures var key := Lower(Strip(day));
      var before := if key in sched then sched[key] else DefaultWindow;
      var r := UpdateSchedule(sched, Some(day), on, off);
      && r.Ok? && key in r.value
      && (on.Some? ==> "on" in r.value[key] && r.value[key]["on"] == on.value)
      && (on.None? ==> Get(r.value[key], "on") == Get(before, "on"))
      && (off.Some? ==> "off" in r.value[key] && r.value[key]["off"] == off.value)
      && (off.None? ==> Get(r.value[key], "off") == Get(before, "off"))
  {
    var key := Lower(Strip(day));
    var entry := if key in sched then sched[key] else DefaultWindow;
    assert UpdateSchedule(sched, Some(day), on, off) == Ok(sched[key := EditWindow(entry, on, off)]);
    EditWindowEffect(entry, on, off);
  }

  /** The two rejections, and nothing else fails. */
  lemma UpdateScheduleErrors(sched: Schedule, day: Option<string>, on: Option<string>, off: Option<string>)
    ensures (day.None? || day == Some("")) ==> UpdateSchedule(sched, day, on, off) == Fail("Jour manquant")
    ensures day.Some? && day.value != "" && Lower(Strip(day.value)) !in DayKeys
      ==> UpdateSchedule(sched, day, on, off) == Fail("Jour inconnu: " + day.value)
    ensures day.Some? && day.value != "" && Lower(Strip(day.value)) in DayKeys
      ==> UpdateSchedule(sched, day, on, off).Ok?
  {
  }

  // ---------- legacy migration ----------

  /** A legacy document names its two windows `workdays` and `weekend`. */
  predicate IsLegacy(sched: Schedule) {
    "workdays" in sched || "weekend" in sched
  }

  /** The window a day copies from a legacy source, with the defaults for a missing time. */
  function LegacyWindow(source: DayEntry): DayEntry {
    map["on" := Get(source, "on").GetOr("08:00"), "off" := Get(source, "off").GetOr("20:00")]
  }

  /** The legacy source of day `idx`: `weekend` for Saturday and Sunday, `workdays` otherwise. */
  function SourceFor(idx: nat, work: DayEntry, week: DayEntry): DayEntry {
    if idx >= 5 then week else work
  }

  /** The copying loop after `n` days: each day whose source is non-empty gets the
      source's window, defined from the last day. */
  function CopyLegacy(sched: Schedule, work: DayEntry, week: DayEntry, n: nat): Schedule
    requires n <= |DayKeys|
  {
    if n == 0 then sched
    else
      var m := CopyLegacy(sched, work, week, n - 1);
      var source := SourceFor(n - 1, work, week);
      if source != map[] then m[DayKeys[n - 1] := LegacyWindow(source)] else m
  }

  /** The default-filling loop over the days `keys`: a day without an entry gets
      the default window. */
  function FillDefaults(sched: Schedule, keys: seq<string>): Schedule
    decreases |keys|
  {
    if keys == [] then sched
    else
      var m := FillDefaults(sched, keys[..|keys| - 1]);
      var d := keys[|keys| - 1];
      if d in m then m else m[d := DefaultWindow]
  }

  /** The copying loop of `_ensure_light_schedule_defaults`: each day takes the
      window of its legacy source when that source is non-empty. */
  method CopyLegacyDays(sched: Schedule, work: DayEntry, week: DayEntry) returns (r: Schedule)
    ensures r == CopyLegacy(sched, work, week, |DayKeys|)
  {
    r := sched;
    for idx := 0 to |DayKeys|
      invariant r == CopyLegacy(sched, work, week, idx)
    {
      var source := if idx >= 5 then week else work;
      if source != map[] {
        r := r[DayKeys[idx] := LegacyWindow(source)];
      }
    }
  }

  /** The default-filling loop of `_ensure_light_schedule_defaults`: each missing
      day gets the default window. */
  method FillDefaultDays(sched: Schedule) returns (r: Schedule)
    ensures r == FillDefaults(sched, DayKeys)
  {
    r := sched;
    for i := 0 to |DayKeys|
      invariant r == FillDefaults(sched, DayKeys[..i])
    {
      assert DayKeys[..i + 1][..i] == DayKeys[..i];
      if DayKeys[i] !in r {
        r := r[DayKeys[i] := DefaultWindow];
      }
    }
    assert DayKeys[..|DayKeys|] == DayKeys;
  }

  /** The legacy sources, `sched.get("workdays", {})` and `sched.get("weekend", {})`. */
  function Workdays(sched: Schedule): DayEntry {
    Get(sched, "workdays").GetOr(map[])
  }

  function Weekend(sched: Schedule): DayEntry {
    Get(sched, "weekend").GetOr(map[])
  }

  /** After the copying loop, before the defaults: the legacy keys removed. */
  function Migrated(sched: Schedule): Schedule {
    if IsLegacy(sched) then CopyLegacy(sched, Workdays(sched), Weekend(sched), |DayKeys|) - {"workdays", "weekend"}
    else sched
  }

  /** `_ensure_light_schedule_defaults` on the schedule. */
  function EnsureScheduleDefaults(sched: Schedule): Schedule {
    FillDefaults(Migrated(sched), DayKeys)
  }

  lemma DayKeysDistinct()
    ensures forall i, j :: 0 <= i < j < |DayKeys| ==> DayKeys[i] != DayKeys[j]
    ensures "workdays" !in DayKeys && "weekend" !in DayKeys
  {
  }

  /** Two positions of the week name two days. */
  lemma DayKeysDiffer(i: nat, j: nat)
    requires i < j < |DayKeys|
    ensures DayKeys[i] != DayKeys[j]
  {
    DayKeysDistinct();
  }

  /** A day does not occur before its own position. */
  lemma DayNotEarlier(j: nat)
    requires j < |DayKeys|
    ensures DayKeys[j] !in DayKeys[..j]
  {
    DayKeysDistinct();
  }

  /** The copying loop leaves a key it never visits as it was. */
  lemma {:induction false} CopyLegacyOther(sched: Schedule, work: DayEntry, week: DayEntry, n: nat, k: string)
    requires n <= |DayKeys| && k !in DayKeys[..n]
    ensures var r := CopyLegacy(sched, work, week, n);
      (k in r <==> k in sched) && (k in sched ==> r[k] == sched[k])
  {
    if n > 0 {
      assert DayKeys[..n] == DayKeys[..n - 1] + [DayKeys[n - 1]];
      CopyLegacyOther(sched, work, week, n - 1, k);
    }
  }

  /** After the copying loop has visited day `j`, a day with a non-empty source
      holds that source's window. */
  lemma {:induction false} CopyLegacyCopied(sched: Schedule, work: DayEntry, week: DayEntry, n: nat, j: nat)
    requires j < n <= |DayKeys| && SourceFor(j, work, week) != map[]
    ensures DayKeys[j] in CopyLegacy(sched, work, week, n)
    ensures CopyLegacy(sched, work, week, n)[DayKeys[j]] == LegacyWindow(SourceFor(j, work, week))
  {
    if j < n - 1 {
      CopyLegacyCopied(sched, work, week, n - 1, j);
      DayKeysDiffer(j, n - 1);
    }
  }

  /** A day whose source is empty is left as it was. */
  lemma {:induction false} CopyLegacyKept(sched: Schedule, work: DayEntry, week: DayEntry, n: nat, j: nat)
    requires j < n <= |DayKeys| && SourceFor(j, work, week) == map[]
    ensures var r := CopyLegacy(sched, work, week, n);
      (DayKeys[j] in r <==> DayKeys[j] in sched) && (DayKeys[j] in sched ==> r[DayKeys[j]] == sched[DayKeys[j]])
  {
    if j == n - 1 {
      DayNotEarlier(j);
      CopyLegacyOther(sched, work, week, n - 1, DayKeys[j]);
    } else {
      CopyLegacyKept(sched, work, week, n - 1, j);
      DayKeysDiffer(j, n - 1);
    }
  }

  /** What the default-filling loop leaves: every day of `keys` present, existing
      entries kept, and only those days added. */
  lemma {:induction false} FillDefaultsAt(sched: Schedule, keys: seq<string>)
    ensures forall j :: 0 <= j < |keys| ==> keys[j] in FillDefaults(sched, keys)
    ensures forall k :: k in sched ==> k in FillDefaults(sched, keys) && FillDefaults(sched, keys)[k] == sched[k]
    ensures forall k :: k in FillDefaults(sched, keys) && k !in sched ==> k in keys && FillDefaults(sched, keys)[k] == DefaultWindow
    decreases |keys|
  {
    if keys != [] {
      var init := keys[..|keys| - 1];
      var d := keys[|keys| - 1];
      FillDefaultsAt(sched, init);
      var m := FillDefaults(sched, init);
      var r := FillDefaults(sched, keys);
      assert r == if d in m then m else m[d := DefaultWindow];
      assert keys == init + [d];
      forall k | k in sched
        ensures k in r && r[k] == sched[k]
      {
        assert k in m && m[k] == sched[k];
      }
      forall j | 0 <= j < |keys|
        ensures keys[j] in r
      {
        if j < |init| {
          assert keys[j] == init[j];
        }
      }
      forall k | k in r && k !in sched
        ensures k in keys && r[k] == DefaultWindow
      {
        if k != d || d in m {
          assert k in m;
        }
      }
    }
  }

  /** After the migration the legacy keys are gone and all seven days exist. */
  lemma EnsureDefaultsKeys(sched: Schedule)
    ensures "workdays" !in EnsureScheduleDefaults(sched) && "weekend" !in EnsureScheduleDefaults(sched)
    ensures forall d :: d in DayKeys ==> d in EnsureScheduleDefaults(sched)
  {
    DayKeysDistinct();
    var base := Migrated(sched);
    assert "workdays" !in base && "weekend" !in base;
    FillDefaultsAt(base, DayKeys);
    assert DayKeys[..|DayKeys|] == DayKeys;
    forall d | d in DayKeys ensures d in EnsureScheduleDefaults(sched) {
      var j :| 0 <= j < |DayKeys| && DayKeys[j] == d;
    }
  }

  /** In a legacy document, Saturday and Sunday take the `weekend` window and the
      other days the `workdays` window, whenever that source is non-empty. */
  lemma LegacyDaysCopied(sched: Schedule, j: nat)
    requires IsLegacy(sched) && j < |DayKeys|
    requires SourceFor(j, Workdays(sched), Weekend(sched)) != map[]
    ensures DayKeys[j] in EnsureScheduleDefaults(sched)
    ensures EnsureScheduleDefaults(sched)[DayKeys[j]]
      == LegacyWindow(if j >= 5 then Weekend(sched) else Workdays(sched))
  {
    DayKeysDistinct();
    var work, week := Workdays(sched), Weekend(sched);
    CopyLegacyCopied(sched, work, week, |DayKeys|, j);
    var base := Migrated(sched);
    assert DayKeys[j] in base && base[DayKeys[j]] == LegacyWindow(SourceFor(j, work, week));
    FillDefaultsAt(base, DayKeys);
  }

  /** A document already in the weekly form keeps every entry it has. */
  lemma CurrentFormKept(sched: Schedule)
    requires !IsLegacy(sched)
    ensures forall k :: k in sched ==> k in EnsureScheduleDefaults(sched) && EnsureScheduleDefaults(sched)[k] == sched[k]
  {
    FillDefaultsAt(sched, DayKeys);
  }

  // ---------- the relay ----------

  /** What `toggle_light` acts on once its argument is a boolean or nothing. */
  datatype LightRequest = Flip | SetTo(on: bool)

  /** A text from the web form is first read as a boolean: whether it is `1`,
      `true` or `on` after stripping and lower-casing. */
  function TextRequest(t: string): LightRequest {
    SetTo(OnWord(Lower(Strip(t))))
  }

  /** The relay state `toggle_light` stores: the current state flipped, or the
      boolean given. */
  function RequestedLight(current: bool, req: LightRequest): bool {
    match req
    case Flip => !current
    case SetTo(b) => b
  }

  /** The words the web form uses for "on", spelled out letter by letter; `OnWords`
      states that this is membership in the set of the three words. */
  predicate OnWord(w: string) {
    || (|w| == 1 && w[0] == '1')
    || (|w| == 4 && w[0] == 't' && w[1] == 'r' && w[2] == 'u' && w[3] == 'e')
    || (|w| == 2 && w[0] == 'o' && w[1] == 'n')
  }

  lemma OnWords(w: string)
    ensures OnWord(w) <==> w in {"1", "true", "on"}
  {
    if OnWord(w) {
      if |w| == 1 {
        assert w == "1";
      } else if |w| == 4 {
        assert w == "true";
      } else {
        assert w == "on";
      }
    }
  }

  /** Flipping twice restores the relay; setting is idempotent. */
  lemma RequestedLightLaws(current: bool, b: bool)
    ensures RequestedLight(RequestedLight(current, Flip), Flip) == current
    ensures RequestedLight(RequestedLight(current, SetTo(b)), SetTo(b)) == b
  {
  }

  /** A text differing only in case and surrounding blanks asks for the same
      state, and that state does not depend on the current one. */
  lemma TextRequestNormalised(current: bool, t: string)
    ensures TextRequest(t) == TextRequest(Lower(Strip(t)))
    ensures RequestedLight(current, TextRequest(t)) == RequestedLight(!current, TextRequest(t))
  {
    var w := Lower(Strip(t));
    StripLowerCommute(t);
    LowerIdempotent(Strip(t));
    assert Lower(Strip(w)) == w;
  }

  /** Stripping a lower-cased text is lower-casing a stripped one (ASCII blanks
      are not letters). */
  lemma StripLowerCommute(t: string)
    ensures Strip(Lower(Strip(t))) == Lower(Strip(t))
  {
    var u := Strip(t);
    if u != [] {
      StripBorders(t);
      var l := Lower(u);
      var first, last := u[0], u[|u| - 1];
      assert l[0] == LowerChar(first) && l[|l| - 1] == LowerChar(last);
      LowerCharSpace(first);
      LowerCharSpace(last);
      StripNothing(l);
    }
  }

  /** Case mapping neither makes nor removes whitespace. */
  lemma LowerCharSpace(c: char)
    ensures IsSpace(LowerChar(c)) <==> IsSpace(c)
  {
  }
}
