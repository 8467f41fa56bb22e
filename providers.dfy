/**
 * The AI provider selection of analysis.py: which engines a configuration makes
 * available (`_prepare_provider_configs`), how a reply is read
 * (`_extract_message_content` and the checks of `_call_provider`), the order
 * `call_llm` tries them in, and its attempt loop with the error aggregation.
 * The HTTP request itself is a parameter: `transport` gives, for a provider,
 * either the decoded JSON body of its reply or the message of the
 * `RuntimeError` the request raised.
 */
module Providers {
  import opened Common
  import opened Strings
  import opened Values
  import opened AiSettings

  const KeyMissing: string := "OPENAI_API_KEY_MISSING"
  const NoEngine: string := "Aucun moteur IA disponible."
  const LocalIncomplete: string := "Configuration IA locale incomplète."
  const UnknownMode: string := "Mode IA inconnu."
  const InvalidMessages: string := "Messages IA invalides."
  const EmptyReply: string := "Réponse vide du modèle."
  const NoContent: string := "Contenu IA indisponible."
  const CallFailed: string := "Echec appel IA - "

  /** One engine's connection settings. */
  datatype Provider = Provider(mode: string, baseUrl: string, model: string, apiKey: string)

  /** The `{"local": ..., "cloud": ...}` dict, `None` for an unavailable engine. */
  datatype Providers = Providers(local: Option<Provider>, cloud: Option<Provider>)

  /** `providers.get(mode)`. */
  function ProviderFor(ps: Providers, mode: string): Option<Provider> {
    if mode == "local" then ps.local else if mode == "cloud" then ps.cloud else None
  }

  /** `_mode_available(mode)`. */
  predicate Available(ps: Providers, mode: string) {
    ProviderFor(ps, mode).Some?
  }

  // ----- _prepare_provider_configs -----

  /** `(v or "").strip()`: a falsy value reads as `""`, a string is stripped, and any
      other value raises the `AttributeError` of `.strip`. */
  function Setting(v: Value): Result<string> {
    if !Truthy(v) then Ok("")
    else if v.VStr? then Ok(Strip(v.s))
    else Fail(NoAttribute(v, "strip"))
  }

  /** The settings read one after the other: the first one that raises stops the
      reading with its message. */
  function Texts(vs: seq<Value>): (r: Result<seq<string>>)
    ensures r.Ok? ==> |r.value| == |vs| && forall i :: 0 <= i < |vs| ==> Setting(vs[i]) == Ok(r.value[i])
    decreases |vs|
  {
    if vs == [] then Ok([])
    else
      match Setting(vs[0])
      case Fail(msg) => Fail(msg)
      case Ok(t) =>
        match Texts(vs[1..])
        case Fail(msg) => Fail(msg)
        case Ok(ts) =>
          assert forall i :: 1 <= i < |vs| ==> vs[i] == vs[1..][i - 1];
          Ok([t] + ts)
  }

  /** Setting `i` is the first that raises. */
  predicate FirstFailure(vs: seq<Value>, i: nat)
    requires i < |vs|
  {
    Setting(vs[i]).Fail? && forall j :: 0 <= j < i ==> Setting(vs[j]).Ok?
  }

  /** A reading fails with the message of the first setting that raises. */
  lemma {:induction false} TextsFailure(vs: seq<Value>)
    requires Texts(vs).Fail?
    ensures exists i :: 0 <= i < |vs| && FirstFailure(vs, i) && Setting(vs[i]) == Fail(Texts(vs).message)
    decreases |vs|
  {
    if Setting(vs[0]).Fail? {
      assert FirstFailure(vs, 0);
    } else {
      TextsFailure(vs[1..]);
      var i :| 0 <= i < |vs[1..]| && FirstFailure(vs[1..], i) && Setting(vs[1..][i]) == Fail(Texts(vs[1..]).message);
      forall j | 0 <= j < i + 1
        ensures Setting(vs[j]).Ok?
      {
        if j > 0 {
          assert vs[j] == vs[1..][j - 1];
        }
      }
      assert FirstFailure(vs, i + 1);
    }
  }

  /** Settings that all read give their texts. */
  lemma {:induction false} TextsOk(vs: seq<Value>)
    requires forall i :: 0 <= i < |vs| ==> Setting(vs[i]).Ok?
    ensures Texts(vs).Ok?
    decreases |vs|
  {
    if vs != [] {
      assert forall i :: 0 <= i < |vs[1..]| ==> vs[1..][i] == vs[i + 1];
      TextsOk(vs[1..]);
    }
  }

  /** The six settings `_prepare_provider_configs` reads, in its order. */
  function ProviderSettings(c: Settings): seq<Value> {
    [c.localBaseUrl, c.localModel, c.localApiKey, c.cloudBaseUrl, c.cloudModel, c.cloudApiKey]
  }

  /** `_prepare_provider_configs(config)`: local needs a base URL and a model, cloud
      a base URL, a model and a key; base URLs lose their trailing slashes. */
  function PrepareProviderConfigs(c: Settings): Result<Providers> {
    match Texts(ProviderSettings(c))
    case Fail(msg) => Fail(msg)
    case Ok(t) =>
      var local := if t[0] != "" && t[1] != "" then Some(Provider("local", TrimRightChar(t[0], '/'), t[1], t[2])) else None;
      var cloud := if t[3] != "" && t[4] != "" && t[5] != "" then Some(Provider("cloud", TrimRightChar(t[3], '/'), t[4], t[5])) else None;
      Ok(Providers(local, cloud))
  }

  /** The engines a configuration makes available: local exactly when its URL and
      model are set, cloud exactly when its URL, model and key are set, each with
      the stripped settings and the URL's trailing `/` removed. */
  lemma ProviderEligibility(c: Settings, lb: string, lm: string, lk: string, cb: string, cm: string, ck: string)
    requires Setting(c.localBaseUrl) == Ok(lb) && Setting(c.localModel) == Ok(lm) && Setting(c.localApiKey) == Ok(lk)
    requires Setting(c.cloudBaseUrl) == Ok(cb) && Setting(c.cloudModel) == Ok(cm) && Setting(c.cloudApiKey) == Ok(ck)
    ensures PrepareProviderConfigs(c).Ok?
    ensures var ps := PrepareProviderConfigs(c).value;
      && (ps.local.Some? <==> lb != "" && lm != "")
      && (ps.cloud.Some? <==> cb != "" && cm != "" && ck != "")
      && (ps.local.Some? ==> ps.local.value == Provider("local", TrimRightChar(lb, '/'), lm, lk))
      && (ps.cloud.Some? ==> ps.cloud.value == Provider("cloud", TrimRightChar(cb, '/'), cm, ck))
  {
    var vs := ProviderSettings(c);
    TextsOk(vs);
    var t := Texts(vs);
    assert Setting(vs[0]) == Ok(t.value[0]) && Setting(vs[1]) == Ok(t.value[1]) && Setting(vs[2]) == Ok(t.value[2]);
    assert Setting(vs[3]) == Ok(t.value[3]) && Setting(vs[4]) == Ok(t.value[4]) && Setting(vs[5]) == Ok(t.value[5]);
  }

  /** A setting that is neither falsy nor a string makes the preparation raise. */
  lemma ProviderSettingRaises(c: Settings, i: nat)
    requires i < 6 && Truthy(ProviderSettings(c)[i]) && !ProviderSettings(c)[i].VStr?
    ensures PrepareProviderConfigs(c).Fail?
  {
    assert Setting(ProviderSettings(c)[i]).Fail?;
  }

  /** Every available provider carries its own mode and a base URL with no trailing `/`. */
  lemma ProvidersWellFormed(c: Settings, mode: string)
    requires PrepareProviderConfigs(c).Ok? && Available(PrepareProviderConfigs(c).value, mode)
    ensures var p := ProviderFor(PrepareProviderConfigs(c).value, mode).value;
      p.mode == mode && ValidMode(mode) && p.model != "" && (p.baseUrl != [] ==> p.baseUrl[|p.baseUrl| - 1] != '/')
  {
  }

  // ----- _extract_message_content -----

  /** The text of one chunk of a list content: a dict chunk with a truthy `text`
      gives `str(text)`; any other chunk gives nothing. */
  function ChunkText(chunk: Value): Option<string> {
    match chunk
    case VDict(es) =>
      var text := DictGet(es, "text").GetOr(VNone);
      if Truthy(text) then Some(StrOf(text)) else None
    case _ => None
  }

  /** The `parts` the loop over the chunks collects, in order. */
  function ChunkTexts(chunks: seq<Value>): (parts: seq<string>)
    ensures |parts| <= |chunks|
    ensures forall i :: 0 <= i < |parts| ==> parts[i] != ""
    decreases |chunks|
  {
    if chunks == [] then []
    else
      var rest := ChunkTexts(chunks[1..]);
      match ChunkText(chunks[0])
      case None => rest
      case Some(t) =>
        assert t != "" by {
          var text := DictGet(chunks[0].entries, "text").GetOr(VNone);
          if text.VInt? {
            assert t == IntToString(text.i);
          }
        }
        [t] + rest
  }

  /** The chunks are read independently: the parts of a concatenation are the
      parts of each half, and a chunk contributes its own text or nothing. */
  lemma {:induction false} ChunkTextsAppend(a: seq<Value>, b: seq<Value>)
    ensures ChunkTexts(a + b) == ChunkTexts(a) + ChunkTexts(b)
    decreases |a|
  {
    if a != [] {
      assert (a + b)[0] == a[0];
      assert (a + b)[1..] == a[1..] + b;
      ChunkTextsAppend(a[1..], b);
      match ChunkText(a[0])
      case None =>
        assert ChunkTexts(a + b) == ChunkTexts(a[1..] + b);
        assert ChunkTexts(a) == ChunkTexts(a[1..]);
      case Some(t) =>
        assert ChunkTexts(a + b) == [t] + ChunkTexts(a[1..] + b);
        assert ChunkTexts(a) == [t] + ChunkTexts(a[1..]);
        assert [t] + (ChunkTexts(a[1..]) + ChunkTexts(b)) == [t] + ChunkTexts(a[1..]) + ChunkTexts(b);
    } else {
      assert a + b == b;
    }
  }

  /** One chunk contributes exactly its text, if it has one. */
  lemma ChunkTextsOne(chunk: Value)
    ensures ChunkTexts([chunk]) == if ChunkText(chunk).Some? then [ChunkText(chunk).value] else []
  {
    assert [chunk][1..] == [];
  }

  /** `_extract_message_content(message)` on a dict message. */
  function ExtractMessageContent(message: seq<(string, Value)>): string {
    match DictGet(message, "content").GetOr(VNone)
    case VStr(s) => s
    case VList(chunks) => Strip(Join(ChunkTexts(chunks), "\n"))
    case _ => ""
  }

  /** String content is returned unchanged; list content is the newline-joined
      texts of its chunks, stripped; anything else gives `""`. */
  lemma ExtractCases(message: seq<(string, Value)>)
    ensures var content := DictGet(message, "content");
      && (content.Some? && content.value.VStr? ==> ExtractMessageContent(message) == content.value.s)
      && (content.Some? && content.value.VList? ==>
            ExtractMessageContent(message) == Strip(Join(ChunkTexts(content.value.items), "\n")))
      && (content.None? || !(content.value.VStr? || content.value.VList?) ==> ExtractMessageContent(message) == "")
  {
  }

  /** Chunks that are not dicts, or whose text is falsy, add nothing to the content. */
  lemma ExtractSkipsChunks(before: seq<Value>, chunk: Value, after: seq<Value>)
    requires ChunkText(chunk).None?
    ensures ChunkTexts(before + [chunk] + after) == ChunkTexts(before + after)
  {
    ChunkTextsAppend(before + [chunk], after);
    ChunkTextsAppend(before, [chunk]);
    ChunkTextsOne(chunk);
    ChunkTextsAppend(before, after);
  }

  // ----- _call_provider, after the request -----

  /** What the request gave: the decoded body, or the message of the
      `RuntimeError` a connection failure or an HTTP status of 400 or more raised. */
  datatype Reply = Response(data: Value) | TransportError(message: string)

  /** A provider call: the content and the raw body, or the exception raised, with
      whether it is a `RuntimeError`. */
  datatype CallResult = Success(content: string, raw: Value) | CallErr(runtime: bool, message: string)

  /** `choices[0]` applied to a truthy `choices` that is not a list of dicts, and
      the `.get` that follows: the exception Python raises. */
  function BadChoices(choices: Value): string
    requires Truthy(choices)
  {
    match choices
    case VStr(_) => NoAttribute(VStr(""), "get")
    case VDict(_) => "0"
    case VList(items) => NoAttribute(items[0], "get")
    case _ => "'" + TypeName(choices) + "' object is not subscriptable"
  }

  /** The checks `_call_provider` applies to a reply: no choices is a
      `RuntimeError`, an empty content another; a body of the wrong shape raises
      what its `.get` or subscript raises. */
  function CallProvider(reply: Reply): (r: CallResult)
    ensures r.Success? ==> r.content != ""
    ensures reply.TransportError? ==> r == CallErr(true, reply.message)
  {
    match reply
    case TransportError(msg) => CallErr(true, msg)
    case Response(data) =>
      if !data.VDict? then CallErr(false, NoAttribute(data, "get"))
      else
        var choices := Or(DictGet(data.entries, "choices").GetOr(VNone), VList([]));
        if !Truthy(choices) then CallErr(true, EmptyReply)
        else if !choices.VList? || !choices.items[0].VDict? then CallErr(false, BadChoices(choices))
        else
          var message := Or(DictGet(choices.items[0].entries, "message").GetOr(VNone), VDict([]));
          if !message.VDict? then CallErr(false, NoAttribute(message, "get"))
          else
            var content := ExtractMessageContent(message.entries);
            if content == "" then CallErr(true, NoContent) else Success(content, data)
  }

  /** A reply whose first choice's message has string content succeeds with that
      content exactly when it is not empty. */
  lemma CallProviderText(es: seq<(string, Value)>, first: seq<(string, Value)>, rest: seq<Value>, msg: seq<(string, Value)>, s: string)
    requires DictGet(es, "choices") == Some(VList([VDict(first)] + rest))
    requires DictGet(first, "message") == Some(VDict(msg)) && msg != []
    requires DictGet(msg, "content") == Some(VStr(s))
    ensures CallProvider(Response(VDict(es))) == if s == "" then CallErr(true, NoContent) else Success(s, VDict(es))
  {
    assert ExtractMessageContent(msg) == s;
  }

  /** A reply without choices raises `Réponse vide du modèle.`. */
  lemma CallProviderNoChoices(es: seq<(string, Value)>)
    requires DictGet(es, "choices").None? || !Truthy(DictGet(es, "choices").value)
    ensures CallProvider(Response(VDict(es))) == CallErr(true, EmptyReply)
  {
  }

  // ----- the order of call_llm -----

  /** Why `call_llm` gives no answer: the exception it raises. */
  datatype Failure = ValueErr(message: string) | RuntimeErr(message: string) | OtherErr(message: string)

  /** The order of modes to try, or the exception raised before any call. */
  datatype Plan = Order(modes: seq<string>) | Refused(failure: Failure)

  /** The mode tried after `preferred`. */
  function Fallback(preferred: string): (r: string)
    ensures r != preferred && ValidMode(r)
  {
    if preferred == "local" then "cloud" else "local"
  }

  /** Whether `force_mode` is given: a non-empty string. */
  predicate Forced(force: Option<string>) {
    force.Some? && force.value != ""
  }

  /** The order `call_llm` builds, with `mode` the configuration's `ai_mode`. */
  function PlanOrder(mode: string, ps: Providers, allowFallback: bool, force: Option<string>): Plan {
    if Forced(force) then
      var m := Lower(force.value);
      if !ValidMode(m) then Refused(ValueErr(UnknownMode))
      else if !Available(ps, m) then Refused(RuntimeErr(if m == "cloud" then KeyMissing else LocalIncomplete))
      else Order([m])
    else
      var first := if Available(ps, mode) then [mode] else [];
      var fallback := Fallback(mode);
      var order := if allowFallback && Available(ps, fallback) && fallback !in first then first + [fallback] else first;
      if order == [] then Refused(RuntimeErr(if mode == "cloud" then KeyMissing else NoEngine))
      else Order(order)
  }

  /** Every planned order is one or two available modes with no repetition. */
  lemma PlanWellFormed(mode: string, ps: Providers, allowFallback: bool, force: Option<string>)
    requires PlanOrder(mode, ps, allowFallback, force).Order?
    ensures var ms := PlanOrder(mode, ps, allowFallback, force).modes;
      && 1 <= |ms| <= 2
      && (forall i :: 0 <= i < |ms| ==> Available(ps, ms[i]) && ValidMode(ms[i]))
      && (|ms| == 2 ==> ms[0] != ms[1])
  {
  }

  /** A forced mode must be `local` or `cloud` once lower-cased, and available; it
      is then the only mode tried. */
  lemma PlanForced(mode: string, ps: Providers, allowFallback: bool, force: Option<string>)
    requires Forced(force)
    ensures var m := Lower(force.value);
      PlanOrder(mode, ps, allowFallback, force) ==
        if !ValidMode(m) then Refused(ValueErr(UnknownMode))
        else if !Available(ps, m) && m == "cloud" then Refused(RuntimeErr(KeyMissing))
        else if !Available(ps, m) then Refused(RuntimeErr(LocalIncomplete))
        else Order([m])
  {
  }

  /** Without a forced mode: the preferred mode comes first when it is available,
      the other mode is tried exactly when fallback is allowed and it is
      available, and nothing else is tried. */
  lemma PlanPreferred(mode: string, ps: Providers, allowFallback: bool)
    ensures var p := PlanOrder(mode, ps, allowFallback, None);
      && (p.Order? ==> (p.modes[0] == mode <==> Available(ps, mode)))
      && (p.Order? ==> (Fallback(mode) in p.modes <==> allowFallback && Available(ps, Fallback(mode))))
      && (p.Order? ==> forall i :: 0 <= i < |p.modes| ==> p.modes[i] == mode || p.modes[i] == Fallback(mode))
      && (p.Refused? <==> !Available(ps, mode) && !(allowFallback && Available(ps, Fallback(mode))))
  {
  }

  /** An empty order raises the missing-key error when the configured mode is
      cloud, and `Aucun moteur IA disponible.` otherwise. */
  lemma PlanEmpty(mode: string, ps: Providers, allowFallback: bool)
    requires !Available(ps, mode) && !(allowFallback && Available(ps, Fallback(mode)))
    ensures PlanOrder(mode, ps, allowFallback, None)
      == Refused(RuntimeErr(if mode == "cloud" then KeyMissing else NoEngine))
  {
  }

  // ----- the attempt loop of call_llm -----

  /** `call_llm`'s result: the content, the raw body and `mode_used`, or the exception. */
  datatype Answer = Answered(content: string, raw: Value, modeUsed: string) | Failed(failure: Failure)

  /** Whether a call's error is the cloud's missing key, which is re-raised at once. */
  predicate Reraised(mode: string, r: CallResult) {
    r.CallErr? && r.runtime && mode == "cloud" && r.message == KeyMissing
  }

  /** `_call_provider` over the HTTP exchange `transport`. */
  function Call(transport: Provider -> Reply): Provider -> CallResult {
    (p: Provider) => CallProvider(transport(p))
  }

  /** The loop over `order` with the errors collected so far, from the front. */
  function Attempts(order: seq<string>, ps: Providers, call: Provider -> CallResult, errors: seq<string>): Answer
    decreases |order|
  {
    if order == [] then Failed(RuntimeErr(CallFailed + Join(errors, " | ")))
    else
      var mode := order[0];
      match ProviderFor(ps, mode)
      case None => Attempts(order[1..], ps, call, errors)
      case Some(p) =>
        var r := call(p);
        if r.Success? then Answered(r.content, r.raw, mode)
        else if Reraised(mode, r) then Failed(RuntimeErr(r.message))
        else Attempts(order[1..], ps, call, errors + [mode + ": " + r.message])
  }

  /** The loop of `call_llm`: each mode of the order in turn, the first success
      returned with its mode, the cloud's missing key re-raised, every other
      failure recorded as `mode: message`. */
  method TryProviders(order: seq<string>, ps: Providers, call: Provider -> CallResult) returns (a: Answer)
    ensures a == Attempts(order, ps, call, [])
  {
    var errors: seq<string> := [];
    for i := 0 to |order|
      invariant Attempts(order, ps, call, []) == Attempts(order[i..], ps, call, errors)
    {
      assert order[i..][1..] == order[i + 1..];
      var mode := order[i];
      var provider := ProviderFor(ps, mode);
      if provider.None? {
        continue;
      }
      var result := call(provider.value);
      if result.Success? {
        return Answered(result.content, result.raw, mode);
      }
      if result.runtime && mode == "cloud" && result.message == KeyMissing {
        return Failed(RuntimeErr(result.message));
      }
      errors := errors + [mode + ": " + result.message];
    }
    return Failed(RuntimeErr(CallFailed + Join(errors, " | ")));
  }

  /** Whether trying `mode` fails without stopping the loop. */
  predicate FailsOn(ps: Providers, call: Provider -> CallResult, mode: string) {
    match ProviderFor(ps, mode)
    case None => true
    case Some(p) => call(p).CallErr? && !Reraised(mode, call(p))
  }

  /** The `mode: message` lines the failures of `order` contribute, in order. */
  function ErrorLines(order: seq<string>, ps: Providers, call: Provider -> CallResult): seq<string>
    decreases |order|
  {
    if order == [] then []
    else
      var rest := ErrorLines(order[1..], ps, call);
      match ProviderFor(ps, order[0])
      case None => rest
      case Some(p) =>
        var r := call(p);
        if r.CallErr? then [order[0] + ": " + r.message] + rest else rest
  }

  /** When every mode fails, the error lists each failure as `mode: message`, in
      order, joined by ` | `. */
  lemma {:induction false} AttemptsAllFail(order: seq<string>, ps: Providers, call: Provider -> CallResult, errors: seq<string>)
    requires forall i :: 0 <= i < |order| ==> FailsOn(ps, call, order[i])
    ensures Attempts(order, ps, call, errors)
      == Failed(RuntimeErr(CallFailed + Join(errors + ErrorLines(order, ps, call), " | ")))
    decreases |order|
  {
    if order != [] {
      var rest := order[1..];
      assert forall i :: 0 <= i < |rest| ==> rest[i] == order[i + 1];
      match ProviderFor(ps, order[0])
      case None =>
        AttemptsAllFail(rest, ps, call, errors);
        assert ErrorLines(order, ps, call) == ErrorLines(rest, ps, call);
      case Some(p) =>
        var line := order[0] + ": " + call(p).message;
        assert FailsOn(ps, call, order[0]);
        assert Attempts(order, ps, call, errors) == Attempts(rest, ps, call, errors + [line]);
        AttemptsAllFail(rest, ps, call, errors + [line]);
        assert ErrorLines(order, ps, call) == [line] + ErrorLines(rest, ps, call);
        assert errors + [line] + ErrorLines(rest, ps, call) == errors + ([line] + ErrorLines(rest, ps, call));
    } else {
      assert errors + ErrorLines(order, ps, call) == errors;
    }
  }

  /** The first mode that succeeds, after modes that all failed, gives the answer,
      with `mode_used` set to it. */
  lemma {:induction false} AttemptsFirstSuccess(order: seq<string>, ps: Providers, call: Provider -> CallResult,
                                                errors: seq<string>, i: nat)
    requires i < |order| && Available(ps, order[i])
    requires call(ProviderFor(ps, order[i]).value).Success?
    requires forall j :: 0 <= j < i ==> FailsOn(ps, call, order[j])
    ensures var r := call(ProviderFor(ps, order[i]).value);
      Attempts(order, ps, call, errors) == Answered(r.content, r.raw, order[i])
    decreases i
  {
    if i > 0 {
      var rest := order[1..];
      assert forall j :: 0 <= j < |rest| ==> rest[j] == order[j + 1];
      match ProviderFor(ps, order[0])
      case None =>
        AttemptsFirstSuccess(rest, ps, call, errors, i - 1);
      case Some(p) =>
        AttemptsFirstSuccess(rest, ps, call, errors + [order[0] + ": " + call(p).message], i - 1);
    }
  }

  /** The cloud's missing key, after modes that all failed, is re-raised as it is. */
  lemma {:induction false} AttemptsReraise(order: seq<string>, ps: Providers, call: Provider -> CallResult,
                                           errors: seq<string>, i: nat)
    requires i < |order| && Available(ps, order[i])
    requires Reraised(order[i], call(ProviderFor(ps, order[i]).value))
    requires forall j :: 0 <= j < i ==> FailsOn(ps, call, order[j])
    ensures Attempts(order, ps, call, errors) == Failed(RuntimeErr(KeyMissing))
    decreases i
  {
    if i > 0 {
      var rest := order[1..];
      assert forall j :: 0 <= j < |rest| ==> rest[j] == order[j + 1];
      match ProviderFor(ps, order[0])
      case None =>
        AttemptsReraise(rest, ps, call, errors, i - 1);
      case Some(p) =>
        AttemptsReraise(rest, ps, call, errors + [order[0] + ": " + call(p).message], i - 1);
    }
  }

  /** An answer always comes from a mode of the order whose provider replied with it. */
  lemma {:induction false} AttemptsAnswerFrom(order: seq<string>, ps: Providers, call: Provider -> CallResult, errors: seq<string>)
    requires Attempts(order, ps, call, errors).Answered?
    ensures var a := Attempts(order, ps, call, errors);
      && a.modeUsed in order && Available(ps, a.modeUsed)
      && call(ProviderFor(ps, a.modeUsed).value) == Success(a.content, a.raw)
    decreases |order|
  {
    var a := Attempts(order, ps, call, errors);
    match ProviderFor(ps, order[0])
    case None =>
      AttemptsAnswerFrom(order[1..], ps, call, errors);
    case Some(p) =>
      var r := call(p);
      if !r.Success? {
        AttemptsAnswerFrom(order[1..], ps, call, errors + [order[0] + ": " + r.message]);
      }
  }

  // ----- call_llm -----

  /** The order built by `call_llm`'s appends: the forced mode checked, or the
      preferred mode and the fallback. */
  method BuildOrder(configured: string, ps: Providers, allowFallback: bool, force: Option<string>) returns (plan: Plan)
    ensures plan == PlanOrder(configured, ps, allowFallback, force)
  {
    var order: seq<string> := [];
    if force.Some? && force.value != "" {
      var m := Lower(force.value);
      if !ValidMode(m) {
        return Refused(ValueErr(UnknownMode));
      }
      if !Available(ps, m) {
        if m == "cloud" {
          return Refused(RuntimeErr(KeyMissing));
        }
        return Refused(RuntimeErr(LocalIncomplete));
      }
      order := [m];
    } else {
      var preferred := configured;
      if Available(ps, preferred) {
        order := order + [preferred];
      }
      var fallback := if preferred == "local" then "cloud" else "local";
      if allowFallback && Available(ps, fallback) && fallback !in order {
        order := order + [fallback];
      }
    }
    if order == [] {
      if configured == "cloud" {
        return Refused(RuntimeErr(KeyMissing));
      }
      return Refused(RuntimeErr(NoEngine));
    }
    return Order(order);
  }

  /** `call_llm` once the configuration is loaded: the providers prepared, the
      order planned and tried. */
  function ConfiguredAnswer(c: Settings, allowFallback: bool, force: Option<string>, transport: Provider -> Reply): Answer
    requires c.aiMode.VStr?
  {
    match PrepareProviderConfigs(c)
    case Fail(msg) => Failed(OtherErr(msg))
    case Ok(ps) => AnswerWith(c.aiMode.s, ps, allowFallback, force, transport)
  }

  /** The order planned from the configured mode and tried. */
  function AnswerWith(mode: string, ps: Providers, allowFallback: bool, force: Option<string>,
                      transport: Provider -> Reply): Answer
  {
    match PlanOrder(mode, ps, allowFallback, force)
    case Refused(f) => Failed(f)
    case Order(ms) => Attempts(ms, ps, Call(transport), [])
  }

  /** `call_llm(messages, allow_fallback=..., force_mode=...)` on the stored
      configuration and the legacy key file: the messages checked, then the
      configuration loaded with its secrets. */
  function LlmAnswer(messages: Value, raw: Config, legacyFile: Option<string>, allowFallback: bool,
                     force: Option<string>, transport: Provider -> Reply): Answer
  {
    if !messages.VList? || messages.items == [] then Failed(ValueErr(InvalidMessages))
    else
      MergedMode(raw, true, legacyFile);
      ConfiguredAnswer(Merged(raw, true, legacyFile).settings, allowFallback, force, transport)
  }

  /** The part of `call_llm` after `load_ai_config`. */
  method CallWithConfig(c: Settings, allowFallback: bool, force: Option<string>, transport: Provider -> Reply)
    returns (a: Answer)
    requires c.aiMode.VStr?
    ensures a == ConfiguredAnswer(c, allowFallback, force, transport)
  {
    var prepared := PrepareProviderConfigs(c);
    if prepared.Fail? {
      return Failed(OtherErr(prepared.message));
    }
    var ps := prepared.value;
    var plan := BuildOrder(c.aiMode.s, ps, allowFallback, force);
    if plan.Refused? {
      return Failed(plan.failure);
    }
    a := TryProviders(plan.modes, ps, Call(transport));
  }

  /** `call_llm`. */
  method CallLlm(messages: Value, raw: Config, legacyFile: Option<string>, allowFallback: bool,
                 force: Option<string>, transport: Provider -> Reply) returns (a: Answer)
    ensures a == LlmAnswer(messages, raw, legacyFile, allowFallback, force, transport)
  {
    if !messages.VList? || |messages.items| == 0 {
      return Failed(ValueErr(InvalidMessages));
    }
    var config := MergeWithDefaults(raw, true, legacyFile);
    MergedMode(raw, true, legacyFile);
    a := CallWithConfig(config.settings, allowFallback, force, transport);
  }

  /** Whatever the configuration and the replies, an answer names the mode that
      gave it: `local` or `cloud`, available, the forced mode when one is forced,
      and the configured mode when fallback is off. */
  lemma AnswerModeUsed(c: Settings, allowFallback: bool, force: Option<string>, transport: Provider -> Reply)
    requires c.aiMode.VStr? && ConfiguredAnswer(c, allowFallback, force, transport).Answered?
    ensures var a := ConfiguredAnswer(c, allowFallback, force, transport);
      && ValidMode(a.modeUsed)
      && Available(PrepareProviderConfigs(c).value, a.modeUsed)
      && (Forced(force) ==> a.modeUsed == Lower(force.value))
      && (!Forced(force) && !allowFallback ==> a.modeUsed == c.aiMode.s)
  {
    var ps := PrepareProviderConfigs(c).value;
    var plan := PlanOrder(c.aiMode.s, ps, allowFallback, force);
    PlanWellFormed(c.aiMode.s, ps, allowFallback, force);
    AttemptsAnswerFrom(plan.modes, ps, Call(transport), []);
    if !Forced(force) {
      PlanPreferred(c.aiMode.s, ps, allowFallback);
    }
  }

  /** With fallback off and no forced mode, the configured mode is the only one
      tried: the answer is its provider's reply, or the error that reply raised. */
  lemma NoFallbackTriesConfigured(mode: string, ps: Providers, transport: Provider -> Reply)
    requires Available(ps, mode)
    ensures var r := CallProvider(transport(ProviderFor(ps, mode).value));
      AnswerWith(mode, ps, false, None, transport) ==
        if r.Success? then Answered(r.content, r.raw, mode)
        else if Reraised(mode, r) then Failed(RuntimeErr(KeyMissing))
        else Failed(RuntimeErr(CallFailed + mode + ": " + r.message))
  {
    assert PlanOrder(mode, ps, false, None) == Order([mode]);
    var r := CallProvider(transport(ProviderFor(ps, mode).value));
    if !r.Success? && !Reraised(mode, r) {
      var line := mode + ": " + r.message;
      assert Attempts([mode], ps, Call(transport), []) == Attempts([], ps, Call(transport), [line]);
      assert [] + [line] == [line] && Join([line], " | ") == line;
      assert CallFailed + line == CallFailed + mode + ": " + r.message;
    }
  }

  /** With both engines available and fallback on, a failed preferred engine is
      followed by the other one, whose answer is then the result. */
  lemma FallbackAnswers(mode: string, ps: Providers, transport: Provider -> Reply)
    requires Available(ps, mode) && Available(ps, Fallback(mode))
    requires FailsOn(ps, Call(transport), mode)
    requires CallProvider(transport(ProviderFor(ps, Fallback(mode)).value)).Success?
    ensures var r := CallProvider(transport(ProviderFor(ps, Fallback(mode)).value));
      AnswerWith(mode, ps, true, None, transport) == Answered(r.content, r.raw, Fallback(mode))
  {
    var order := [mode, Fallback(mode)];
    assert PlanOrder(mode, ps, true, None) == Order(order);
    AttemptsFirstSuccess(order, ps, Call(transport), [], 1);
  }

  /** The loaded configuration always has a string mode, so every answer of
      `call_llm` names `local` or `cloud`. */
  lemma LlmModeUsed(messages: Value, raw: Config, legacyFile: Option<string>, allowFallback: bool,
                    force: Option<string>, transport: Provider -> Reply)
    requires LlmAnswer(messages, raw, legacyFile, allowFallback, force, transport).Answered?
    ensures var a := LlmAnswer(messages, raw, legacyFile, allowFallback, force, transport);
      ValidMode(a.modeUsed) && (Forced(force) ==> a.modeUsed == Lower(force.value))
  {
    MergedMode(raw, true, legacyFile);
    AnswerModeUsed(Merged(raw, true, legacyFile).settings, allowFallback, force, transport);
  }
}
