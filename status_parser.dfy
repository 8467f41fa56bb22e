/**
 * Decoding of the lines the microcontroller sends (controller.py:364-475):
 * terminal replies (`OK`, `ERR|CODE|message`, `ERR:message`), `STATUS;k=v;...`
 * blocks, `T_WATER:..C|T_AIR:..C|...` temperature reports and
 * `LEVEL low=.. high=.. alert=..` level reports. Everything here is a pure
 * function of the line and the previous state record.
 */
module StatusParser {
  import opened Common
  import opened Strings
  import opened DeviceModel

  // ---------- error replies ----------

  /** The decoded `ERR` reply (the source also stamps it with the clock time, not modelled). */
  datatype ErrorPayload = ErrorPayload(code: string, message: string, raw: string)

  /** `_parse_error`: `ERR|CODE|message` gives the text between the first two bars as
      the code and the stripped rest as the message; `ERR:message` gives code MEGA;
      any other line gives code UNKNOWN and the whole stripped line as the message. */
  function ParseError(line: string): (e: ErrorPayload)
    ensures e.raw == line
    ensures !StartsWith(line, "ERR|") && !StartsWith(line, "ERR:") ==>
      e.code == "UNKNOWN" && e.message == Strip(line)
  {
    if StartsWith(line, "ERR|") then
      // "ERR" holds no bar, so the first field of `split("|", 2)` is "ERR" and the
      // second always exists: the UNKNOWN fallback of that branch cannot be taken.
      var rest := line[4..];
      if '|' in rest then
        var (code, message) := SplitOnce(rest, '|');
        ErrorPayload(code, Strip(message), line)
      else
        ErrorPayload(rest, "", line)
    else if StartsWith(line, "ERR:") then
      ErrorPayload("MEGA", Strip(SplitOnce(line, ':').1), line)
    else
      ErrorPayload("UNKNOWN", Strip(line), line)
  }

  /** The device's `ERR|CODE|message` reply decodes back to its code and its
      stripped message, whatever bars the message itself holds. */
  lemma ErrorRoundTrip(code: string, message: string)
    requires '|' !in code
    ensures ParseError("ERR|" + code + "|" + message) == ErrorPayload(code, Strip(message), "ERR|" + code + "|" + message)
  {
    var line := "ERR|" + code + "|" + message;
    assert line[..4] == "ERR|";
    var rest := line[4..];
    assert rest == code + "|" + message;
    SplitAtFirst(code, '|', message);
  }

  /** A short `ERR|CODE` reply carries an empty message. */
  lemma ErrorBareCode(code: string)
    requires '|' !in code
    ensures ParseError("ERR|" + code) == ErrorPayload(code, "", "ERR|" + code)
  {
    var line := "ERR|" + code;
    assert line[..4] == "ERR|";
    assert line[4..] == code;
  }

  /** `ERR:text` maps to code MEGA with the stripped text as its message. */
  lemma ErrorColonText(text: string)
    ensures ParseError("ERR:" + text) == ErrorPayload("MEGA", Strip(text), "ERR:" + text)
  {
    var line := "ERR:" + text;
    var head: string := "ERR";
    assert line == head + [':'] + text;
    assert line[..4] == "ERR:" && line[3] != '|';
    SplitAtFirst(head, ':', text);
  }

  // ---------- line dispatch ----------

  /** The shapes of inbound line `_handle_line` tells apart, in its order of tests. */
  datatype LineKind =
    | Blank
    | OkReply
    | ErrReply(err: ErrorPayload)
    | Hello(payload: string)
    | Status(payload: string)
    | TempReport(text: string)
    | LevelReport(text: string)
    | Unrecognized
  {
    /** Terminal replies: the only lines that answer a pending command. */
    predicate IsReply() { OkReply? || ErrReply? }
  }

  /** `_handle_line`'s dispatch on the stripped line. */
  function ClassifyLine(raw: string): LineKind {
    var line := Strip(raw);
    if line == "" then Blank
    else if line == "OK" then OkReply
    else if StartsWith(line, "ERR") then ErrReply(ParseError(line))
    else if StartsWith(line, "HELLO OK") then Hello(if ';' in line then SplitOnce(line, ';').1 else "")
    // "STATUS" holds no semicolon: `split(";", 1)[1]` is the text after the prefix.
    else if StartsWith(line, "STATUS;") then Status(line[7..])
    else if StartsWith(line, "T_WATER") then TempReport(line)
    else if StartsWith(line, "LEVEL") then LevelReport(line)
    else Unrecognized
  }

  /** A line is a terminal reply exactly when, once stripped, it is `OK` or starts with `ERR`;
      an `ERR` line carries the decoded error of the stripped line. */
  lemma ReplyLines(raw: string)
    ensures ClassifyLine(raw).IsReply() <==> Strip(raw) == "OK" || StartsWith(Strip(raw), "ERR")
    ensures ClassifyLine(raw).ErrReply? ==> ClassifyLine(raw).err == ParseError(Strip(raw))
    ensures ClassifyLine(raw).Blank? <==> Strip(raw) == ""
  {
    var line := Strip(raw);
    if line == "OK" { assert !StartsWith(line, "ERR"); }
  }

  /** `STATUS;` followed by a payload is dispatched as a status block carrying that
      payload (less any trailing whitespace, which the line's stripping removes). */
  lemma StatusLineDispatch(payload: string)
    ensures ClassifyLine("STATUS;" + payload) == Status(TrimRight(payload))
  {
    var raw := "STATUS;" + payload;
    assert raw[0] == 'S';
    assert TrimLeft(raw) == raw;
    var t := TrimRight(payload);
    TrimRightAppend("STATUS;", payload);
    var line := Strip(raw);
    assert line == "STATUS;" + t;
    assert line[0] == 'S' && |line| >= 7;
    FirstCharDiffers(line, "OK");
    FirstCharDiffers(line, "ERR");
    FirstCharDiffers(line, "HELLO OK");
    assert line[..7] == "STATUS;";
    assert line[7..] == t;
  }

  /** A text whose first character differs from a prefix's does not start with it. */
  lemma FirstCharDiffers(s: string, p: string)
    requires s != [] && p != [] && s[0] != p[0]
    ensures !StartsWith(s, p) && s != p
  {
    assert |p| <= |s| ==> s[..|p|][0] == s[0];
  }

  /** Right-stripping a text that ends with a non-blank prefix stops at that prefix. */
  lemma {:induction false} TrimRightAppend(p: string, s: string)
    requires p != [] && !IsSpace(p[|p| - 1])
    ensures TrimRight(p + s) == p + TrimRight(s)
    decreases |s|
  {
    if s == [] {
      assert p + s == p;
      assert TrimRight(p) == p;
    } else if IsSpace(s[|s| - 1]) {
      assert (p + s)[..|p + s| - 1] == p + s[..|s| - 1];
      TrimRightAppend(p, s[..|s| - 1]);
    } else {
      assert TrimRight(s) == s;
    }
  }

  // ---------- numeric text ----------

  /** What `int(float(text))` does: a value, a ValueError, or (for an infinity) an OverflowError. */
  datatype Conversion = Converted(n: int) | Rejected | Overflows

  /** The least magnitude `float()` rounds to infinity: halfway between the largest
      double, (2 - 2^-52) * 2^1023, and 2^1024, a tie going to the even neighbour
      2^1024; it is 2^1024 - 2^970. */
  const FloatInfinityBound: real := 179769313486231580793728971405303415079934132710037826936173778980444968292764750946649017977587207096330286416692887910946555547851940402630657488671505820681908902000708383676273854845817711531764475730270069855571366959622842914819860834936475292719074168444365510704342711559699508093042880177904174497792.0

  /** Text `float()` reads as an infinity: `inf` or `infinity` in any case, signed or not. */
  predicate IsInfinityText(text: string) {
    Lower(Unsigned(Strip(text))) in {"inf", "infinity"}
  }

  /** `int(float(text))`; a NaN spelling and everything unparsable raise ValueError,
      while an infinity, spelled out or a decimal too large for a double, overflows. */
  function IntOfFloatText(text: string): Conversion {
    match ParseReal(text)
    case Some(r) => if r <= -FloatInfinityBound || FloatInfinityBound <= r then Overflows else Converted(Trunc(r))
    case None => if IsInfinityText(text) then Overflows else Rejected
  }

  // ---------- STATUS; blocks ----------

  /** The `;`-separated entries of a status payload (none for an empty payload). */
  function StatusEntries(payload: string): seq<string> {
    if payload == "" then [] else Split(payload, ';')
  }

  /** The keys a status entry can update (after lower-casing). */
  const StatusKeys: set<string> := {"mtr", "fan_val", "auto_thresh", "pidw_tgt", "pidr_tgt", "level_low",
    "level_high", "level_alert", "tempw", "tempa", "tempaux", "servo"}

  /** `mtr` reads as powered only for these exact spellings. */
  const MotorOnValues: set<string> := {"1", "ON", "TRUE"}

  /** One status entry, as the loop body of `_apply_status_line` applies it, with the
      fan and servo conversions catching the overflow of an infinite value as well
      as the ValueError the source catches (see `ApplyStatusEntryAsWritten`). */
  function ApplyStatusEntry(s: Readings, entry: string): Readings {
    if '=' !in entry then s
    else
      var (rawKey, value) := SplitOnce(entry, '=');
      ApplyUpdate(s, DecodeStatusValue(Lower(rawKey), value))
  }

  /** What one status entry asks for, once its key is known and its value converted. */
  datatype StatusUpdate =
    | Motors(on: bool)
    | Fan(c: Conversion)
    | FanThreshold(r: Option<real>)
    | WaterTarget(r: Option<real>)
    | ReserveTarget(r: Option<real>)
    | LevelLow(text: string)
    | LevelHigh(text: string)
    | LevelAlert(text: string)
    | WaterTemp(text: string)
    | AirTemp(text: string)
    | AuxTemp(text: string)
    | Servo(c: Conversion)
    | Ignored

  /** The keys `_apply_status_line` tells apart, in its order of tests. */
  datatype StatusKey =
    | MtrKey | FanKey | ThresholdKey | WaterTargetKey | ReserveTargetKey | LowKey | HighKey
    | AlertKey | WaterTempKey | AirTempKey | AuxTempKey | ServoKey | OtherKey

  /** The key dispatch of `_apply_status_line`. */
  function KeyOf(key: string): StatusKey {
    if key == "mtr" then MtrKey
    else if key == "fan_val" then FanKey
    else if key == "auto_thresh" then ThresholdKey
    else if key == "pidw_tgt" then WaterTargetKey
    else if key == "pidr_tgt" then ReserveTargetKey
    else if key == "level_low" then LowKey
    else if key == "level_high" then HighKey
    else if key == "level_alert" then AlertKey
    else if key == "tempw" then WaterTempKey
    else if key == "tempa" then AirTempKey
    else if key == "tempaux" then AuxTempKey
    else if key == "servo" then ServoKey
    else OtherKey
  }

  /** The key each of the known spellings dispatches to. */
  lemma KnownKeys()
    ensures KeyOf("fan_val") == FanKey && KeyOf("servo") == ServoKey
    ensures KeyOf("auto_thresh") == ThresholdKey && KeyOf("pidw_tgt") == WaterTargetKey
    ensures KeyOf("pidr_tgt") == ReserveTargetKey
  {
  }

  /** Each key's value converted as that key demands. */
  function DecodeStatusValue(key: string, value: string): StatusUpdate {
    match KeyOf(key)
    case MtrKey => Motors(value in MotorOnValues)
    case FanKey => Fan(IntOfFloatText(value))
    case ThresholdKey => FanThreshold(ParseReal(value))
    case WaterTargetKey => WaterTarget(ParseReal(value))
    case ReserveTargetKey => ReserveTarget(ParseReal(value))
    case LowKey => LevelLow(value)
    case HighKey => LevelHigh(value)
    case AlertKey => LevelAlert(value)
    case WaterTempKey => WaterTemp(value)
    case AirTempKey => AirTemp(value)
    case AuxTempKey => AuxTemp(value)
    case ServoKey => Servo(IntOfFloatText(value))
    case OtherKey => Ignored
  }

  /** The state field each update writes; a value that did not convert writes nothing. */
  function ApplyUpdate(s: Readings, u: StatusUpdate): Readings {
    match u
    case Motors(on) => s.(motorsPowered := on)
    case Fan(c) => if c.Converted? then s.(fan := c.n) else s
    case FanThreshold(r) => if r.Some? then s.(autoThresh := r.value) else s
    case WaterTarget(r) => if r.Some? then s.(tsetWater := r.value) else s
    case ReserveTarget(r) => if r.Some? then s.(tsetRes := r.value) else s
    case LevelLow(v) => s.(lvlLow := v)
    case LevelHigh(v) => s.(lvlHigh := v)
    case LevelAlert(v) => s.(lvlAlert := v)
    case WaterTemp(v) => s.(tw := v)
    case AirTemp(v) => s.(ta := v)
    case AuxTemp(v) => s.(tx := v)
    case Servo(c) => if c.Converted? then s.(servoAngle := c.n) else s
    case Ignored => s
  }

  /** The entries applied in order; defined from the last entry so that it follows
      the loop of `_apply_status_line` one iteration at a time. */
  function ApplyStatusEntries(s: Readings, entries: seq<string>): Readings
    decreases |entries|
  {
    if entries == [] then s
    else ApplyStatusEntry(ApplyStatusEntries(s, entries[..|entries| - 1]), entries[|entries| - 1])
  }

  /** `_apply_status_line(payload)`. */
  function ApplyStatusPayload(s: Readings, payload: string): Readings {
    ApplyStatusEntries(s, StatusEntries(payload))
  }

  lemma EntrySplit(k: string, v: string)
    requires '=' !in k
    ensures '=' in k + "=" + v && SplitOnce(k + "=" + v, '=') == (k, v)
  {
    SplitAtFirst(k, '=', v);
  }

  /** An entry without `=` is skipped. */
  lemma EntryWithoutEqualsSkipped(s: Readings, entry: string)
    requires '=' !in entry
    ensures ApplyStatusEntry(s, entry) == s
  {
  }

  /** Keys are matched case-insensitively: `KEY=v` acts as `key=v`. */
  lemma EntryKeyCaseInsensitive(s: Readings, k: string, v: string)
    requires '=' !in k
    ensures '=' !in Lower(k)
    ensures ApplyStatusEntry(s, k + "=" + v) == ApplyStatusEntry(s, Lower(k) + "=" + v)
  {
    assert '=' !in Lower(k) by {
      forall i | 0 <= i < |k| ensures Lower(k)[i] != '=' {
        assert k[i] != '=';
      }
    }
    EntrySplit(k, v);
    EntrySplit(Lower(k), v);
    LowerIdempotent(k);
  }

  /** `mtr` sets the motor-power flag, true exactly for `1`, `ON` and `TRUE`. */
  lemma MotorEntry(s: Readings, k: string, v: string)
    requires '=' !in k && Lower(k) == "mtr"
    ensures ApplyStatusEntry(s, k + "=" + v) == s.(motorsPowered := v == "1" || v == "ON" || v == "TRUE")
  {
    EntrySplit(k, v);
  }

  /** A `key=value` entry is the update its lower-cased key decodes to. */
  lemma EntryDecodes(s: Readings, k: string, v: string)
    requires '=' !in k
    ensures ApplyStatusEntry(s, k + "=" + v) == ApplyUpdate(s, DecodeStatusValue(Lower(k), v))
  {
    EntrySplit(k, v);
  }

  /** A fan or servo value that `int(float(...))` does not convert keeps the previous value. */
  lemma UnconvertedIntKept(s: Readings, key: string, v: string)
    requires (key == "fan_val" || key == "servo") && !IntOfFloatText(v).Converted?
    ensures ApplyUpdate(s, DecodeStatusValue(key, v)) == s
  {
    IntKeyDecodes(key, v);
    UnconvertedWritesNothing(s, IntOfFloatText(v));
  }

  /** Neither integer field takes a value that did not convert. */
  lemma UnconvertedWritesNothing(s: Readings, c: Conversion)
    requires !c.Converted?
    ensures ApplyUpdate(s, Fan(c)) == s && ApplyUpdate(s, Servo(c)) == s
  {
  }

  /** The fan and servo keys carry the `int(float(...))` conversion of their value. */
  lemma IntKeyDecodes(key: string, v: string)
    requires key == "fan_val" || key == "servo"
    ensures DecodeStatusValue(key, v) == if key == "fan_val" then Fan(IntOfFloatText(v)) else Servo(IntOfFloatText(v))
  {
    KnownKeys();
  }

  /** The text of an integer a double holds exactly (at most 2^53 in magnitude)
      converts to that integer: `int(float(str(n))) == n`. */
  lemma IntegerTextConverts(v: string, n: int)
    requires v == IntToString(n) && -0x20_0000_0000_0000 <= n <= 0x20_0000_0000_0000
    ensures IntOfFloatText(v) == Converted(n)
  {
    RealOfIntText(n);
  }

  /** A fan value reported as an integer (one a double holds exactly) is stored as that integer. */
  lemma FanIntegerEntry(s: Readings, k: string, n: int)
    requires '=' !in k && Lower(k) == "fan_val" && -0x20_0000_0000_0000 <= n <= 0x20_0000_0000_0000
    ensures ApplyStatusEntry(s, k + "=" + IntToString(n)) == s.(fan := n)
  {
    var v := IntToString(n);
    EntryDecodes(s, k, v);
    IntKeyDecodes(Lower(k), v);
    IntegerTextConverts(v, n);
  }

  /** A threshold or set-point value that `float()` rejects keeps the previous value. */
  lemma UnparsableRealKept(s: Readings, key: string, v: string)
    requires key == "auto_thresh" || key == "pidw_tgt" || key == "pidr_tgt"
    requires ParseReal(v).None?
    ensures ApplyUpdate(s, DecodeStatusValue(key, v)) == s
  {
    RealKeyDecodes(key, v);
    UnparsedWritesNothing(s, ParseReal(v));
  }

  /** None of the real-valued fields takes a value that did not parse. */
  lemma UnparsedWritesNothing(s: Readings, r: Option<real>)
    requires r.None?
    ensures ApplyUpdate(s, FanThreshold(r)) == s && ApplyUpdate(s, WaterTarget(r)) == s
    ensures ApplyUpdate(s, ReserveTarget(r)) == s
  {
  }

  /** The threshold and set-point keys carry the `float()` conversion of their value. */
  lemma RealKeyDecodes(key: string, v: string)
    requires key == "auto_thresh" || key == "pidw_tgt" || key == "pidr_tgt"
    ensures DecodeStatusValue(key, v) ==
      if key == "auto_thresh" then FanThreshold(ParseReal(v))
      else if key == "pidw_tgt" then WaterTarget(ParseReal(v))
      else ReserveTarget(ParseReal(v))
  {
    KnownKeys();
  }

  /** Exactly the twelve known keys do something; any other key changes nothing. */
  lemma UnknownKeyIgnored(s: Readings, key: string, v: string)
    ensures DecodeStatusValue(key, v) == Ignored <==> key !in StatusKeys
    ensures key !in StatusKeys ==> ApplyUpdate(s, DecodeStatusValue(key, v)) == s
  {
    OtherKeys(key);
  }

  /** The dispatch falls through exactly for the keys outside the known twelve. */
  lemma OtherKeys(key: string)
    ensures KeyOf(key) == OtherKey <==> key !in StatusKeys
  {
  }

  // ---------- labelled reports ----------

  /** A token `label<sep>value` and what it contributes: the label stripped and
      lower-cased, the value stripped. */
  function LabelKey(token: string, sep: char): string
    requires sep in token
  {
    Lower(Strip(SplitOnce(token, sep).0))
  }

  function LabelValue(token: string, sep: char): string
    requires sep in token
  {
    Strip(SplitOnce(token, sep).1)
  }

  /** What one token contributes to the dictionary, if it holds the separator. */
  function LabelOf(token: string, sep: char): Option<(string, string)> {
    if sep in token then Some((LabelKey(token, sep), LabelValue(token, sep))) else None
  }

  /** The dictionary a loop of `d[k] = v` assignments builds, skipping the `None`
      entries; defined from the last entry so that a later key overrides an earlier one. */
  function Collect<K, V>(entries: seq<Option<(K, V)>>): map<K, V>
    decreases |entries|
  {
    if entries == [] then map[]
    else
      var m := Collect(entries[..|entries| - 1]);
      match entries[|entries| - 1]
      case None => m
      case Some(kv) => m[kv.0 := kv.1]
  }

  /** One more entry for the dictionary. */
  lemma CollectNext<K, V>(entries: seq<Option<(K, V)>>, i: nat)
    requires i < |entries|
    ensures Collect(entries[..i + 1]) ==
      match entries[i]
      case None => Collect(entries[..i])
      case Some(kv) => Collect(entries[..i])[kv.0 := kv.1]
  {
    assert entries[..i + 1][..i] == entries[..i];
  }

  ghost predicate Assigns<K, V>(e: Option<(K, V)>, k: K) {
    e.Some? && e.value.0 == k
  }

  /** A key is present exactly when some entry assigns it. */
  lemma {:induction false} CollectDomain<K, V>(entries: seq<Option<(K, V)>>, k: K)
    ensures k in Collect(entries) <==> exists i :: 0 <= i < |entries| && Assigns(entries[i], k)
    decreases |entries|
  {
    if entries != [] {
      var n := |entries| - 1;
      var init := entries[..n];
      CollectDomain(init, k);
      if k in Collect(init) {
        var i :| 0 <= i < n && Assigns(init[i], k);
        assert entries[i] == init[i];
      }
      if exists i :: 0 <= i < n && Assigns(entries[i], k) {
        var i :| 0 <= i < n && Assigns(entries[i], k);
        assert init[i] == entries[i];
      }
    }
  }

  /** The value of a key is the one the last entry assigning it carries. */
  lemma {:induction false} CollectLast<K, V>(entries: seq<Option<(K, V)>>, k: K, i: nat)
    requires i < |entries| && Assigns(entries[i], k)
    requires forall j :: i < j < |entries| ==> !Assigns(entries[j], k)
    ensures k in Collect(entries) && Collect(entries)[k] == entries[i].value.1
    decreases |entries|
  {
    var n := |entries| - 1;
    if i < n {
      var init := entries[..n];
      assert init[i] == entries[i];
      forall j | i < j < n ensures !Assigns(init[j], k) {
        assert init[j] == entries[j];
      }
      CollectLast(init, k, i);
      assert !Assigns(entries[n], k);
    }
  }

  /** The entries a token list yields, one per token. */
  function LabelEntries(tokens: seq<string>, sep: char): (es: seq<Option<(string, string)>>)
    ensures |es| == |tokens| && forall i :: 0 <= i < |tokens| ==> es[i] == LabelOf(tokens[i], sep)
  {
    seq(|tokens|, i requires 0 <= i < |tokens| => LabelOf(tokens[i], sep))
  }

  /** The dictionary the report parsers build: one entry per token holding the
      separator, a later token overriding an earlier one with the same label. */
  function Labels(tokens: seq<string>, sep: char): map<string, string> {
    Collect(LabelEntries(tokens, sep))
  }

  /** The temperature report's labels: every `C` removed, `|`-separated `label:value` tokens. */
  function TempLabels(line: string): map<string, string> {
    Labels(Split(ReplaceAll(line, "C", ""), '|'), ':')
  }

  /** The level report's labels: `|` read as a blank, blank-separated `label=value` tokens. */
  function LevelLabels(line: string): map<string, string> {
    Labels(Words(ReplaceAll(line, "|", " ")), '=')
  }

  /** `_apply_temp_line`'s write-back: a label that is absent keeps the previous text. */
  function ApplyTemperatures(s: Readings, vals: map<string, string>): (t: Readings)
    ensures t == s.(tw := t.tw, ta := t.ta, tx := t.tx)
    ensures t.tw == (if "t_water" in vals then vals["t_water"] else s.tw)
    ensures t.ta == (if "t_air" in vals then vals["t_air"] else s.ta)
    ensures t.tx == (if "t_aux" in vals then vals["t_aux"] else s.tx)
  {
    s.(tw := Get(vals, "t_water").GetOr(s.tw), ta := Get(vals, "t_air").GetOr(s.ta), tx := Get(vals, "t_aux").GetOr(s.tx))
  }

  /** `_apply_level_line`'s write-back: a label that is absent keeps the previous text. */
  function ApplyLevels(s: Readings, kv: map<string, string>): (t: Readings)
    ensures t == s.(lvlLow := t.lvlLow, lvlHigh := t.lvlHigh, lvlAlert := t.lvlAlert)
    ensures t.lvlLow == (if "low" in kv then kv["low"] else s.lvlLow)
    ensures t.lvlHigh == (if "high" in kv then kv["high"] else s.lvlHigh)
    ensures t.lvlAlert == (if "alert" in kv then kv["alert"] else s.lvlAlert)
  {
    s.(lvlLow := Get(kv, "low").GetOr(s.lvlLow), lvlHigh := Get(kv, "high").GetOr(s.lvlHigh),
       lvlAlert := Get(kv, "alert").GetOr(s.lvlAlert))
  }

  // ---------- the source as written ----------

  /** `_apply_status_line`'s loop body as the source writes it: the fan and servo
      conversions catch only ValueError, so the OverflowError that `int()` raises
      on an infinite float leaves the loop, and the line handler, as an exception. */
  function ApplyStatusEntryAsWritten(s: Readings, entry: string): Result<Readings> {
    if '=' in entry
       && (Lower(SplitOnce(entry, '=').0) == "fan_val" || Lower(SplitOnce(entry, '=').0) == "servo")
       && IntOfFloatText(SplitOnce(entry, '=').1).Overflows?
    then Fail("cannot convert float infinity to integer")
    else Ok(ApplyStatusEntry(s, entry))
  }

  /** The two agree on every entry except a fan or servo value that reads as an
      infinity (`inf`, or a decimal such as `1e309` beyond the range of a double). */
  lemma AsWrittenAgreesOtherwise(s: Readings, entry: string)
    requires !('=' in entry && (Lower(SplitOnce(entry, '=').0) == "fan_val" || Lower(SplitOnce(entry, '=').0) == "servo")
               && IntOfFloatText(SplitOnce(entry, '=').1).Overflows?)
    ensures ApplyStatusEntryAsWritten(s, entry) == Ok(ApplyStatusEntry(s, entry))
  {
  }

  /** `STATUS;fan_val=inf`: the source raises out of the status parser (the reader
      thread then logs the error and stops reading), where the corrected entry rule
      keeps the previous fan value as it does for any other unparsable number. */
  lemma InfiniteFanCounterexample(s: Readings, entry: string)
    requires entry == "fan_val=inf"
    ensures ApplyStatusEntryAsWritten(s, entry).Fail?
    ensures ApplyStatusEntry(s, entry) == s
  {
    var k: string, v: string := "fan_val", "inf";
    assert entry == k + "=" + v;
    FanKeyLower();
    InfSpelled(v);
    InfinityTextOverflows(v);
    NonFiniteFanKept(s, k, v);
  }

  /** A spelling of infinity is no decimal literal, so `int(float(...))` overflows on it. */
  lemma InfinityTextOverflows(v: string)
    requires IsInfinityText(v)
    ensures IntOfFloatText(v).Overflows?
  {
    var t := Unsigned(Strip(v));
    assert |Lower(t)| > 0 && Lower(t)[0] == 'i';
    assert t[0] == 'i' || t[0] == 'I';
    NotADecimal(t);
  }

  /** `inf` is one of the infinity spellings. */
  lemma InfSpelled(v: string)
    requires v == "inf"
    ensures IsInfinityText(v)
  {
    StripNothing(v);
    assert Unsigned(v) == v;
    assert Lower(v) == v by {
      assert forall j :: 0 <= j < |v| ==> Lower(v)[j] == v[j];
    }
  }

  /** The fan key is already lower case. */
  lemma FanKeyLower()
    ensures '=' !in "fan_val" && Lower("fan_val") == "fan_val"
  {
  }

  /** The intended behaviour: a fan or servo value that is not a finite number never
      interrupts the block; it leaves the previous value. */
  lemma NonFiniteFanKept(s: Readings, k: string, v: string)
    requires '=' !in k && (Lower(k) == "fan_val" || Lower(k) == "servo") && IntOfFloatText(v).Overflows?
    ensures ApplyStatusEntry(s, k + "=" + v) == s
    ensures ApplyStatusEntryAsWritten(s, k + "=" + v).Fail?
  {
    EntrySplit(k, v);
    EntryDecodes(s, k, v);
    UnconvertedIntKept(s, Lower(k), v);
  }
}
