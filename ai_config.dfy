/**
 * The AI configuration (ai_config.py): the merge of the stored configuration
 * over the defaults (`_merge_with_defaults`, ai_config.py:44-65) and the edit
 * rules of `save_ai_config` (ai_config.py:73-106). The JSON file is the stored
 * object passed in and the one returned to be written; the legacy key file is
 * its text, `None` when it is missing or unreadable.
 */
module AiSettings {
  import opened Common
  import opened Strings
  import opened Values

  /** A stored configuration object, as read from or written to the file. */
  type Config = map<string, Value>

  /** The seven keys of the default configuration. */
  datatype Key = AiMode | LocalBaseUrl | LocalModel | LocalApiKey | CloudBaseUrl | CloudModel | CloudApiKey

  /** The key's name in the JSON object. */
  function Name(k: Key): string {
    match k
    case AiMode => "ai_mode"
    case LocalBaseUrl => "local_ai_base_url"
    case LocalModel => "local_ai_model"
    case LocalApiKey => "local_ai_api_key"
    case CloudBaseUrl => "cloud_ai_base_url"
    case CloudModel => "cloud_ai_model"
    case CloudApiKey => "cloud_ai_api_key"
  }

  /** The default key a name denotes, `None` for a name outside the defaults. */
  function KeyOf(name: string): (r: Option<Key>)
    ensures r.Some? ==> Name(r.value) == name
  {
    if name == "ai_mode" then Some(AiMode)
    else if name == "local_ai_base_url" then Some(LocalBaseUrl)
    else if name == "local_ai_model" then Some(LocalModel)
    else if name == "local_ai_api_key" then Some(LocalApiKey)
    else if name == "cloud_ai_base_url" then Some(CloudBaseUrl)
    else if name == "cloud_ai_model" then Some(CloudModel)
    else if name == "cloud_ai_api_key" then Some(CloudApiKey)
    else None
  }

  /** The names are distinct: each one reads back as its own key. */
  lemma KeyOfName(k: Key)
    ensures KeyOf(Name(k)) == Some(k)
  {
  }

  /** The seven settings of the default configuration, each holding whatever
      value the merge left under its key. */
  datatype Settings = Settings(
    aiMode: Value,
    localBaseUrl: Value, localModel: Value, localApiKey: Value,
    cloudBaseUrl: Value, cloudModel: Value, cloudApiKey: Value)

  /** A merged configuration: the settings and the two `*_has_key` flags. */
  datatype AiConfig = AiConfig(settings: Settings, cloudHasKey: bool, localHasKey: bool)

  const DefaultSettings: Settings := Settings(
    VStr("cloud"),
    VStr("http://127.0.0.1:1234/v1"), VStr("lmstudio-community/gpt4all"), VStr(""),
    VStr("https://api.openai.com/v1"), VStr("gpt-4o-mini"), VStr(""))

  /** `config[key]`. */
  function Field(c: Settings, k: Key): Value {
    match k
    case AiMode => c.aiMode
    case LocalBaseUrl => c.localBaseUrl
    case LocalModel => c.localModel
    case LocalApiKey => c.localApiKey
    case CloudBaseUrl => c.cloudBaseUrl
    case CloudModel => c.cloudModel
    case CloudApiKey => c.cloudApiKey
  }

  /** `config[key] = v`. */
  function WithField(c: Settings, k: Key, v: Value): (r: Settings)
    ensures Field(r, k) == v
    ensures forall j :: j != k ==> Field(r, j) == Field(c, j)
  {
    match k
    case AiMode => c.(aiMode := v)
    case LocalBaseUrl => c.(localBaseUrl := v)
    case LocalModel => c.(localModel := v)
    case LocalApiKey => c.(localApiKey := v)
    case CloudBaseUrl => c.(cloudBaseUrl := v)
    case CloudModel => c.(cloudModel := v)
    case CloudApiKey => c.(cloudApiKey := v)
  }

  /** Two settings records that read alike under every key are the same record: the
      step of `OverlayLoop`'s proof that turns the per-key invariant into equality. */
  lemma FieldsDetermine(a: Settings, b: Settings)
    requires forall k :: Field(a, k) == Field(b, k)
    ensures a == b
  {
    assert Field(a, AiMode) == Field(b, AiMode);
    assert Field(a, LocalBaseUrl) == Field(b, LocalBaseUrl);
    assert Field(a, LocalModel) == Field(b, LocalModel);
    assert Field(a, LocalApiKey) == Field(b, LocalApiKey);
    assert Field(a, CloudBaseUrl) == Field(b, CloudBaseUrl);
    assert Field(a, CloudModel) == Field(b, CloudModel);
    assert Field(a, CloudApiKey) == Field(b, CloudApiKey);
  }

  const InvalidConfig: string := "Configuration IA invalide."
  const InvalidMode: string := "Mode IA invalide (local ou cloud)."

  /** `_load_legacy_openai_key`: the file's text stripped; `""` stands for `None`. */
  function LegacyKey(legacyFile: Option<string>): string {
    if legacyFile.Some? then Strip(legacyFile.value) else ""
  }

  /** What the merge loop stores for a stored entry: a string stripped, anything else as is. */
  function Normalized(v: Value): Value {
    if v.VStr? then VStr(Strip(v.s)) else v
  }

  /** One setting after the merge loop has seen the stored names `done`. */
  function PickFrom(raw: Config, done: set<string>, k: Key): Value {
    if Name(k) in raw && Name(k) in done then Normalized(raw[Name(k)]) else Field(DefaultSettings, k)
  }

  /** One setting after the merge loop: the stored value, normalised, or the default. */
  function Pick(raw: Config, k: Key): Value {
    PickFrom(raw, raw.Keys, k)
  }

  /** The merge of a whole stored object over the defaults. */
  function Overlay(raw: Config): (c: Settings)
    ensures forall k :: Field(c, k) == Pick(raw, k)
  {
    Settings(
      Pick(raw, AiMode),
      Pick(raw, LocalBaseUrl), Pick(raw, LocalModel), Pick(raw, LocalApiKey),
      Pick(raw, CloudBaseUrl), Pick(raw, CloudModel), Pick(raw, CloudApiKey))
  }

  /** `raw.get(k)`, `None` when absent. */
  function RawGet(raw: Config, k: string): Value {
    if k in raw then raw[k] else VNone
  }

  /** `str(config.get("ai_mode") or "").lower()`, then anything but `local` or
      `cloud` coerced to `cloud`. */
  function CoerceMode(v: Value): (m: string)
    ensures m == "local" || m == "cloud"
  {
    var m := Lower(if Truthy(v) then StrOf(v) else "");
    if m == "local" || m == "cloud" then m else "cloud"
  }

  /** `_merge_with_defaults(raw, include_secrets)` with the legacy key file's text. */
  function Merged(raw: Config, includeSecrets: bool, legacyFile: Option<string>): AiConfig {
    var legacy := LegacyKey(legacyFile);
    var c := Overlay(raw);
    var c1 := if !Truthy(c.cloudApiKey) && legacy != "" then c.(cloudApiKey := VStr(legacy)) else c;
    var c2 := c1.(aiMode := VStr(CoerceMode(c1.aiMode)));
    var c3 := if includeSecrets then c2 else c2.(cloudApiKey := VStr(""), localApiKey := VStr(""));
    AiConfig(c3, Truthy(RawGet(raw, "cloud_ai_api_key")) || legacy != "", Truthy(RawGet(raw, "local_ai_api_key")))
  }

  /** `_merge_with_defaults`: the defaults copied, the stored entries written over
      them one by one (names outside the defaults skipped), then the legacy key,
      the mode, the secrets and the two flags. */
  method MergeWithDefaults(raw: Config, includeSecrets: bool, legacyFile: Option<string>)
    returns (config: AiConfig)
    ensures config == Merged(raw, includeSecrets, legacyFile)
  {
    var c := OverlayLoop(raw);
    var legacy := LegacyKey(legacyFile);
    if !Truthy(c.cloudApiKey) && legacy != "" {
      c := c.(cloudApiKey := VStr(legacy));
    }
    var mode := Lower(if Truthy(c.aiMode) then StrOf(c.aiMode) else "");
    if mode != "local" && mode != "cloud" {
      mode := "cloud";
    }
    c := c.(aiMode := VStr(mode));
    if !includeSecrets {
      c := c.(cloudApiKey := VStr(""));
      c := c.(localApiKey := VStr(""));
    }
    config := AiConfig(c, Truthy(RawGet(raw, "cloud_ai_api_key")) || legacy != "",
                       Truthy(RawGet(raw, "local_ai_api_key")));
  }

  /** The merge loop of `_merge_with_defaults`: the defaults copied, then each
      stored entry whose name is a default key written over its default. */
  method OverlayLoop(raw: Config) returns (c: Settings)
    ensures c == Overlay(raw)
  {
    c := DefaultSettings;
    var pending := raw.Keys;
    while pending != {}
      invariant pending <= raw.Keys
      invariant forall k :: Field(c, k) == PickFrom(raw, raw.Keys - pending, k)
      decreases pending
    {
      var name :| name in pending;
      ghost var before := c;
      ghost var done := raw.Keys - pending;
      pending := pending - {name};
      assert raw.Keys - pending == done + {name};
      var key := KeyOf(name);
      if key.Some? {
        var value := raw[name];
        if value.VStr? {
          c := WithField(c, key.value, VStr(Strip(value.s)));
        } else {
          c := WithField(c, key.value, value);
        }
      }
      OverlayStep(raw, done, name, before, c);
    }
    FieldsDetermine(c, Overlay(raw));
  }

  /** One pass of the merge loop: writing the entry named `name` over its default
      key, or skipping it when the name is no default key, extends the merge to it. */
  lemma OverlayStep(raw: Config, done: set<string>, name: string, before: Settings, after: Settings)
    requires name in raw && name !in done
    requires forall k :: Field(before, k) == PickFrom(raw, done, k)
    requires KeyOf(name).None? ==> after == before
    requires KeyOf(name).Some? ==> after == WithField(before, KeyOf(name).value, Normalized(raw[name]))
    ensures forall k :: Field(after, k) == PickFrom(raw, done + {name}, k)
  {
    forall k ensures Field(after, k) == PickFrom(raw, done + {name}, k) {
      KeyOfName(k);
      if Name(k) == name {
        assert KeyOf(name) == Some(k);
      } else {
        assert Field(after, k) == Field(before, k);
      }
    }
  }

  /** The URL and model settings, which the merge and the save treat as plain text. */
  predicate IsSetting(k: Key) {
    k == LocalBaseUrl || k == LocalModel || k == CloudBaseUrl || k == CloudModel
  }

  /** A URL or model setting is the stored value, a string stripped, or the default:
      a stored name outside the defaults reaches no setting. */
  lemma MergedSetting(raw: Config, includeSecrets: bool, legacyFile: Option<string>, k: Key)
    requires IsSetting(k)
    ensures var r := Field(Merged(raw, includeSecrets, legacyFile).settings, k);
      && r == (if Name(k) in raw then Normalized(raw[Name(k)]) else Field(DefaultSettings, k))
      && (Name(k) in raw && raw[Name(k)].VStr? ==> r == VStr(Strip(raw[Name(k)].s)))
  {
    assert Field(Overlay(raw), k) == Pick(raw, k);
  }

  /** Text a mode can read as: letters only when it came from a string. */
  lemma ModeOfNonString(v: Value)
    requires !v.VStr?
    ensures CoerceMode(v) == "cloud"
  {
    if Truthy(v) {
      var t := StrOf(v);
      assert t != [] && LowerChar(t[0]) != 'l' && LowerChar(t[0]) != 'c' by {
        match v
        case VBool(b) =>
        case VInt(i) =>
          var ds := NatToString(if i < 0 then -i else i);
          assert IsDigit(ds[0]);
          if i < 0 {
            assert t == "-" + ds;
          }
        case VList(_) =>
        case VDict(_) =>
      }
      assert Lower(t)[0] == LowerChar(t[0]);
    }
  }

  /** The mode is always `local` or `cloud`: the stored string stripped and
      lower-cased when it is one of them, `cloud` otherwise and when absent. */
  lemma MergedMode(raw: Config, includeSecrets: bool, legacyFile: Option<string>)
    ensures var m := Merged(raw, includeSecrets, legacyFile).settings.aiMode;
      && (m == VStr("local") || m == VStr("cloud"))
      && ("ai_mode" !in raw || !raw["ai_mode"].VStr? ==> m == VStr("cloud"))
      && ("ai_mode" in raw && raw["ai_mode"].VStr? ==>
            var t := Lower(Strip(raw["ai_mode"].s));
            m == VStr(if t == "local" || t == "cloud" then t else "cloud"))
  {
    MergedModeIs(raw, includeSecrets, legacyFile);
    PickedMode(raw);
  }

  /** The merged mode is the coercion of the mode the merge loop picked. */
  lemma MergedModeIs(raw: Config, includeSecrets: bool, legacyFile: Option<string>)
    ensures Merged(raw, includeSecrets, legacyFile).settings.aiMode == VStr(CoerceMode(Pick(raw, AiMode)))
  {
    assert Overlay(raw).aiMode == Pick(raw, AiMode);
  }

  /** The coercion of the picked mode: `cloud` for an absent or non-string entry,
      the stripped and lower-cased text when that is a valid mode. */
  lemma PickedMode(raw: Config)
    ensures var m := CoerceMode(Pick(raw, AiMode));
      && ("ai_mode" !in raw || !raw["ai_mode"].VStr? ==> m == "cloud")
      && ("ai_mode" in raw && raw["ai_mode"].VStr? ==>
            var t := Lower(Strip(raw["ai_mode"].s));
            m == if t == "local" || t == "cloud" then t else "cloud")
  {
    assert Name(AiMode) == "ai_mode";
    if "ai_mode" !in raw {
      assert Pick(raw, AiMode) == VStr("cloud");
      assert Lower("cloud") == "cloud";
    } else if !raw["ai_mode"].VStr? {
      assert Pick(raw, AiMode) == raw["ai_mode"];
      ModeOfNonString(raw["ai_mode"]);
    } else {
      var t := Strip(raw["ai_mode"].s);
      assert Pick(raw, AiMode) == VStr(t);
      assert t == "" ==> Lower(t) == "";
    }
  }

  /** Without secrets both keys read `""`; with them the local key is the stored one
      and the cloud key falls back to the legacy key only when the merge left it empty. */
  lemma MergedSecrets(raw: Config, includeSecrets: bool, legacyFile: Option<string>)
    ensures var r := Merged(raw, includeSecrets, legacyFile).settings;
      var local := Pick(raw, LocalApiKey);
      var cloud := Pick(raw, CloudApiKey);
      && (!includeSecrets ==> r.cloudApiKey == VStr("") && r.localApiKey == VStr(""))
      && (includeSecrets ==> r.localApiKey == local)
      && (includeSecrets ==>
            r.cloudApiKey == if !Truthy(cloud) && LegacyKey(legacyFile) != "" then VStr(LegacyKey(legacyFile)) else cloud)
  {
  }

  /** The flags report the stored keys before blanking, and the legacy key for the cloud. */
  lemma MergedFlags(raw: Config, includeSecrets: bool, legacyFile: Option<string>)
    ensures var r := Merged(raw, includeSecrets, legacyFile);
      && r.cloudHasKey == (Truthy(RawGet(raw, "cloud_ai_api_key")) || LegacyKey(legacyFile) != "")
      && r.localHasKey == Truthy(RawGet(raw, "local_ai_api_key"))
  {
  }

  // ---------- save_ai_config ----------

  /** The URL and model names `save_ai_config` normalises. */
  const SettingNames: seq<string> := ["local_ai_base_url", "local_ai_model", "cloud_ai_base_url", "cloud_ai_model"]

  /** The secrets: a save given `None` for one of them keeps the stored value. */
  const ApiKeyNames: seq<string> := ["local_ai_api_key", "cloud_ai_api_key"]

  /** The two name lists are the names of the settings and of the secrets. */
  lemma SaveNames(k: Key)
    ensures Name(k) in SettingNames <==> IsSetting(k)
    ensures Name(k) in ApiKeyNames <==> k == LocalApiKey || k == CloudApiKey
    ensures "ai_mode" !in SettingNames && "ai_mode" !in ApiKeyNames
  {
  }

  /** One key of a save: absent from the payload, nothing; given `None` where that
      keeps the stored value, nothing; otherwise the value normalised to text. */
  function Edit(c: Config, es: seq<(string, Value)>, n: string, keepOnNone: bool): Config {
    match DictGet(es, n)
    case None => c
    case Some(v) => if keepOnNone && v.VNone? then c else c[n := VStr(NormalizeStr(v))]
  }

  /** The loop over `names`, defined from the last name. */
  function Edits(c: Config, es: seq<(string, Value)>, names: seq<string>, keepOnNone: bool): Config
    decreases |names|
  {
    if names == [] then c
    else Edit(Edits(c, es, names[..|names| - 1], keepOnNone), es, names[|names| - 1], keepOnNone)
  }

  /** Whether a save writes the name `n`: it is one of `names`, the payload has it,
      and its value is not a `None` that keeps the stored one. */
  predicate Writes(es: seq<(string, Value)>, names: seq<string>, n: string, keepOnNone: bool) {
    var v := DictGet(es, n);
    n in names && v.Some? && !(keepOnNone && v.value.VNone?)
  }

  /** A loop of edits writes each name it is given by the payload, as normalised
      text, and leaves every other name as it was. */
  lemma {:induction false} EditsEffect(c: Config, es: seq<(string, Value)>, names: seq<string>, keepOnNone: bool, n: string)
    ensures var r := Edits(c, es, names, keepOnNone);
      if Writes(es, names, n, keepOnNone) then n in r && r[n] == VStr(NormalizeStr(DictGet(es, n).value))
      else (n in r <==> n in c) && (n in c ==> r[n] == c[n])
    decreases |names|
  {
    if names != [] {
      var init := names[..|names| - 1];
      var last := names[|names| - 1];
      var mid := Edits(c, es, init, keepOnNone);
      assert Edits(c, es, names, keepOnNone) == Edit(mid, es, last, keepOnNone);
      EditsEffect(c, es, init, keepOnNone, n);
      EditEffect(mid, es, last, keepOnNone, n);
      assert names == init + [last];
      if n != last {
        assert n in names <==> n in init;
        assert Writes(es, names, n, keepOnNone) == Writes(es, init, n, keepOnNone);
      } else {
        assert n in names;
      }
    }
  }

  /** One edit writes its own name when the payload gives it (and it is not a kept
      `None`), and leaves every other name as it was. */
  lemma EditEffect(c: Config, es: seq<(string, Value)>, m: string, keepOnNone: bool, n: string)
    ensures var r := Edit(c, es, m, keepOnNone);
      var v := DictGet(es, m);
      if n == m && v.Some? && !(keepOnNone && v.value.VNone?) then n in r && r[n] == VStr(NormalizeStr(v.value))
      else (n in r <==> n in c) && (n in c ==> r[n] == c[n])
  {
  }

  /** One more name: the loop over `names[..i + 1]` is the loop over `names[..i]`
      followed by the edit of `names[i]`. */
  lemma EditsNext(c: Config, es: seq<(string, Value)>, names: seq<string>, keepOnNone: bool, i: nat)
    requires i < |names|
    ensures Edits(c, es, names[..i + 1], keepOnNone) == Edit(Edits(c, es, names[..i], keepOnNone), es, names[i], keepOnNone)
  {
    assert names[..i + 1][..i] == names[..i];
  }

  /** The two modes a save accepts. */
  predicate ValidMode(m: string) {
    m == "local" || m == "cloud"
  }

  /** The mode a payload gives, normalised and lower-cased. */
  function GivenMode(es: seq<(string, Value)>): Option<string> {
    match DictGet(es, "ai_mode")
    case None => None
    case Some(v) => Some(Lower(NormalizeStr(v)))
  }

  /** The stored object with the given mode written over it. */
  function WithMode(current: Config, mode: Option<string>): Config {
    if mode.Some? then current["ai_mode" := VStr(mode.value)] else current
  }

  /** Both edit loops of a save: the settings, then the secrets. */
  function SaveEdits(c: Config, es: seq<(string, Value)>): Config {
    Edits(Edits(c, es, SettingNames, false), es, ApiKeyNames, true)
  }

  /** `save_ai_config`'s merge of a payload into the stored object. */
  function SaveMerge(current: Config, payload: Value): Result<Config> {
    if !payload.VDict? then Fail(InvalidConfig)
    else
      var mode := GivenMode(payload.entries);
      if mode.Some? && !ValidMode(mode.value) then Fail(InvalidMode)
      else Ok(SaveEdits(WithMode(current, mode), payload.entries))
  }

  /** The first loop of `save_ai_config`: each URL and model the payload gives is
      written as normalised text. */
  method SaveSettings(c: Config, es: seq<(string, Value)>) returns (merged: Config)
    ensures merged == Edits(c, es, SettingNames, false)
  {
    merged := c;
    for i := 0 to |SettingNames|
      invariant merged == Edits(c, es, SettingNames[..i], false)
    {
      EditsNext(c, es, SettingNames, false, i);
      var key := SettingNames[i];
      var v := DictGet(es, key);
      if v.Some? {
        merged := merged[key := VStr(NormalizeStr(v.value))];
      }
    }
    assert SettingNames[..|SettingNames|] == SettingNames;
  }

  /** The second loop: a secret absent from the payload or given as `None` keeps
      its stored value; any other is written as normalised text. */
  method SaveSecrets(c: Config, es: seq<(string, Value)>) returns (merged: Config)
    ensures merged == Edits(c, es, ApiKeyNames, true)
  {
    merged := c;
    for i := 0 to |ApiKeyNames|
      invariant merged == Edits(c, es, ApiKeyNames[..i], true)
    {
      EditsNext(c, es, ApiKeyNames, true, i);
      var key := ApiKeyNames[i];
      var v := DictGet(es, key);
      if v.None? || v.value.VNone? {
        continue;
      }
      merged := merged[key := VStr(NormalizeStr(v.value))];
    }
    assert ApiKeyNames[..|ApiKeyNames|] == ApiKeyNames;
  }

  /** `save_ai_config(payload)`: the object written back to the file and the
      configuration returned, which is the written one merged without secrets. */
  method SaveAiConfig(payload: Value, current: Config, legacyFile: Option<string>)
    returns (r: Result<(Config, AiConfig)>)
    ensures SaveMerge(current, payload).Fail? ==> r == Fail(SaveMerge(current, payload).message)
    ensures SaveMerge(current, payload).Ok? ==>
      (r.Ok? && r.value.0 == SaveMerge(current, payload).value && r.value.1 == Merged(r.value.0, false, legacyFile))
  {
    if !payload.VDict? {
      return Fail(InvalidConfig);
    }
    var es := payload.entries;
    var merged := current;
    var mode := GivenMode(es);
    if mode.Some? {
      if !ValidMode(mode.value) {
        return Fail(InvalidMode);
      }
      merged := merged["ai_mode" := VStr(mode.value)];
    }
    merged := SaveSettings(merged, es);
    merged := SaveSecrets(merged, es);
    var view := MergeWithDefaults(merged, false, legacyFile);
    return Ok((merged, view));
  }

  /** The save rejects a payload that is not an object, and a mode that is not
      `local` or `cloud` once normalised and lower-cased; nothing else. */
  lemma SaveErrors(current: Config, payload: Value)
    ensures !payload.VDict? ==> SaveMerge(current, payload) == Fail(InvalidConfig)
    ensures payload.VDict? ==> (SaveMerge(current, payload).Fail? <==>
      var m := DictGet(payload.entries, "ai_mode");
      m.Some? && !ValidMode(Lower(NormalizeStr(m.value))))
    ensures payload.VDict? && SaveMerge(current, payload).Fail? ==> SaveMerge(current, payload) == Fail(InvalidMode)
  {
    if payload.VDict? {
      var m := DictGet(payload.entries, "ai_mode");
      var mode := GivenMode(payload.entries);
      assert mode.Some? <==> m.Some?;
      assert m.Some? ==> mode.value == Lower(NormalizeStr(m.value));
    }
  }

  /** Both loops together: a setting given by the payload, or a secret given as
      something other than `None`, is written as normalised text; any other name
      keeps the value it had. */
  lemma SaveEditsEffect(c: Config, es: seq<(string, Value)>, n: string)
    ensures var w := SaveEdits(c, es);
      var v := DictGet(es, n);
      && (v.Some? && (n in SettingNames || (n in ApiKeyNames && !v.value.VNone?)) ==>
            n in w && w[n] == VStr(NormalizeStr(v.value)))
      && (!(v.Some? && (n in SettingNames || (n in ApiKeyNames && !v.value.VNone?))) ==>
            (n in w <==> n in c) && (n in c ==> w[n] == c[n]))
  {
    EditsEffect(c, es, SettingNames, false, n);
    EditsEffect(Edits(c, es, SettingNames, false), es, ApiKeyNames, true, n);
  }

  /** What a successful save writes under a default key: the mode normalised, a
      setting given as normalised text, a secret likewise unless given as `None`;
      a key the payload does not give keeps its stored value. */
  lemma SaveEffect(current: Config, payload: Value, k: Key)
    requires SaveMerge(current, payload).Ok?
    ensures var w := SaveMerge(current, payload).value;
      var n := Name(k);
      var v := DictGet(payload.entries, n);
      && (v.Some? && (k == AiMode || IsSetting(k) || !v.value.VNone?) ==>
            n in w && w[n] == VStr(if k == AiMode then Lower(NormalizeStr(v.value)) else NormalizeStr(v.value)))
      && (v.None? || (k != AiMode && !IsSetting(k) && v.value.VNone?) ==>
            (n in w <==> n in current) && (n in current ==> w[n] == current[n]))
  {
    var es := payload.entries;
    var c0 := WithMode(current, GivenMode(es));
    SaveNames(k);
    SaveEditsEffect(c0, es, Name(k));
  }

  /** A successful save leaves every name outside the defaults as it was stored. */
  lemma SaveKeepsOthers(current: Config, payload: Value, n: string)
    requires SaveMerge(current, payload).Ok? && KeyOf(n).None?
    ensures var w := SaveMerge(current, payload).value;
      (n in w <==> n in current) && (n in current ==> w[n] == current[n])
  {
    var es := payload.entries;
    var c0 := WithMode(current, GivenMode(es));
    OutsideDefaults(n);
    SaveEditsEffect(c0, es, n);
  }

  /** A name outside the defaults is neither the mode nor in either name list. */
  lemma OutsideDefaults(n: string)
    requires KeyOf(n).None?
    ensures n != "ai_mode" && n !in SettingNames && n !in ApiKeyNames
  {
  }

  /** A save's settings are what a later load reads back: a string given for a
      URL or a model loads as that string stripped. */
  lemma SaveThenLoadSetting(current: Config, payload: Value, legacyFile: Option<string>, k: Key, s: string)
    requires IsSetting(k) && SaveMerge(current, payload).Ok?
    requires DictGet(payload.entries, Name(k)) == Some(VStr(s))
    ensures Field(Merged(SaveMerge(current, payload).value, true, legacyFile).settings, k) == VStr(Strip(s))
  {
    var w := SaveMerge(current, payload).value;
    SavedSetting(current, payload, k, s);
    LoadSetting(w, legacyFile, k, Strip(s));
    StripIdempotent(s);
  }

  /** A string given for a URL or a model is stored stripped. */
  lemma SavedSetting(current: Config, payload: Value, k: Key, s: string)
    requires IsSetting(k) && SaveMerge(current, payload).Ok?
    requires DictGet(payload.entries, Name(k)) == Some(VStr(s))
    ensures var w := SaveMerge(current, payload).value;
      Name(k) in w && w[Name(k)] == VStr(Strip(s))
  {
    SaveEffect(current, payload, k);
  }

  /** A URL or a model stored as a string loads as that string stripped. */
  lemma LoadSetting(w: Config, legacyFile: Option<string>, k: Key, t: string)
    requires IsSetting(k) && Name(k) in w && w[Name(k)] == VStr(t)
    ensures Field(Merged(w, true, legacyFile).settings, k) == VStr(Strip(t))
  {
    MergedSetting(w, true, legacyFile, k);
  }

  /** A valid mode text is left as it is by the load's strip and lower-casing. */
  lemma ValidModeFixed(given: string)
    requires ValidMode(Lower(given))
    ensures Lower(Strip(Lower(given))) == Lower(given)
  {
    if Lower(given) == "local" {
      StripNothing("local");
    } else {
      StripNothing("cloud");
    }
    LowerIdempotent(given);
  }

  /** A save given a mode loads with that mode. */
  lemma SaveThenLoadMode(current: Config, payload: Value, legacyFile: Option<string>)
    requires SaveMerge(current, payload).Ok? && DictHas(payload.entries, "ai_mode")
    ensures Merged(SaveMerge(current, payload).value, true, legacyFile).settings.aiMode
      == VStr(GivenMode(payload.entries).value)
  {
    var w := SaveMerge(current, payload).value;
    var given := NormalizeStr(DictGet(payload.entries, "ai_mode").value);
    SaveEffect(current, payload, AiMode);
    assert w["ai_mode"] == VStr(Lower(given));
    MergedMode(w, true, legacyFile);
    ValidModeFixed(given);
  }

  /** A configuration returned by a save never carries a secret. */
  lemma SaveHidesSecrets(current: Config, payload: Value, legacyFile: Option<string>)
    requires SaveMerge(current, payload).Ok?
    ensures var view := Merged(SaveMerge(current, payload).value, false, legacyFile);
      view.settings.cloudApiKey == VStr("") && view.settings.localApiKey == VStr("")
  {
    MergedSecrets(SaveMerge(current, payload).value, false, legacyFile);
  }
}
