/**
 * The JSON-shaped values the AI configuration, the HTTP payloads and the model
 * replies carry, with the Python operations the code applies to them: truth
 * testing, `str()`, the `str(v or "").strip()` normalisation and `dict.get`.
 * A dict is its list of entries in insertion order; a key bound twice reads as
 * its last binding, as `json.loads` does.
 */
module Values {
  import opened Common
  import opened Strings

  datatype Value =
    | VNone
    | VBool(b: bool)
    | VInt(i: int)
    | VStr(s: string)
    | VList(items: seq<Value>)
    | VDict(entries: seq<(string, Value)>)

  /** Python's truth test: `None`, `False`, `0` and empty containers are false. */
  predicate Truthy(v: Value) {
    match v
    case VNone => false
    case VBool(b) => b
    case VInt(i) => i != 0
    case VStr(s) => s != ""
    case VList(xs) => xs != []
    case VDict(es) => es != []
  }

  /** `str(v)` for the scalars; a list or a dict is given only the opening
      bracket its `repr` starts with. */
  function StrOf(v: Value): string {
    match v
    case VNone => "None"
    case VBool(b) => if b then "True" else "False"
    case VInt(i) => IntToString(i)
    case VStr(s) => s
    case VList(_) => "["
    case VDict(_) => "{"
  }

  /** The Python type name an `AttributeError` message quotes. */
  function TypeName(v: Value): string {
    match v
    case VNone => "NoneType"
    case VBool(_) => "bool"
    case VInt(_) => "int"
    case VStr(_) => "str"
    case VList(_) => "list"
    case VDict(_) => "dict"
  }

  /** The message of the `AttributeError` raised by `v.<attr>` on a value without it. */
  function NoAttribute(v: Value, attr: string): string {
    "'" + TypeName(v) + "' object has no attribute '" + attr + "'"
  }

  /** Python's `v or d`. */
  function Or(v: Value, d: Value): Value {
    if Truthy(v) then v else d
  }

  /** `str(v or "").strip()`. */
  function NormalizeStr(v: Value): (r: string)
    ensures v.VStr? ==> r == Strip(v.s)
    ensures !Truthy(v) ==> r == ""
  {
    Strip(if Truthy(v) then StrOf(v) else "")
  }

  /** `d.get(k)` on a dict's entries: the last binding of `k`. */
  function DictGet(es: seq<(string, Value)>, k: string): Option<Value>
    decreases |es|
  {
    if es == [] then None
    else if es[|es| - 1].0 == k then Some(es[|es| - 1].1)
    else DictGet(es[..|es| - 1], k)
  }

  /** `d.get(k)` finds a value exactly when some entry has the key `k`, and then
      the value it finds is bound to `k` by one of the entries. */
  lemma {:induction false} DictGetBinding(es: seq<(string, Value)>, k: string)
    ensures DictGet(es, k).Some? <==> exists i :: 0 <= i < |es| && es[i].0 == k
    ensures DictGet(es, k).Some? ==> exists i :: 0 <= i < |es| && es[i] == (k, DictGet(es, k).value)
    decreases |es|
  {
    if es != [] && es[|es| - 1].0 != k {
      var init := es[..|es| - 1];
      DictGetBinding(init, k);
      assert forall i :: 0 <= i < |init| ==> init[i] == es[i];
      if exists i :: 0 <= i < |es| && es[i].0 == k {
        var i :| 0 <= i < |es| && es[i].0 == k;
        assert i < |init| && init[i].0 == k;
      }
    } else if es != [] {
      assert es[|es| - 1] == (k, DictGet(es, k).value);
    }
  }

  /** `k in d`. */
  predicate DictHas(es: seq<(string, Value)>, k: string) {
    DictGet(es, k).Some?
  }

  /** The keys of the dict the entries build, each once, in the order of their
      first binding (a rebinding keeps a key's place). */
  function DictKeys(es: seq<(string, Value)>): seq<string>
    decreases |es|
  {
    if es == [] then []
    else
      var ks := DictKeys(es[..|es| - 1]);
      var k := es[|es| - 1].0;
      if k in ks then ks else ks + [k]
  }

  /** `d.items()`: each key once, in the order of its first binding, with the value
      of its last binding. */
  function DictItems(es: seq<(string, Value)>): seq<(string, Value)> {
    var ks := DictKeys(es);
    seq(|ks|, i requires 0 <= i < |ks| => (ks[i], DictGet(es, ks[i]).GetOr(VNone)))
  }

  /** The key list holds exactly the bound keys, and no key twice. */
  lemma {:induction false} DictKeysBound(es: seq<(string, Value)>, k: string)
    ensures k in DictKeys(es) <==> exists i :: 0 <= i < |es| && es[i].0 == k
    ensures var ks := DictKeys(es); forall i, j :: 0 <= i < j < |ks| ==> ks[i] != ks[j]
    decreases |es|
  {
    if es != [] {
      var init := es[..|es| - 1];
      DictKeysBound(init, k);
      assert forall i :: 0 <= i < |init| ==> init[i] == es[i];
      if exists i :: 0 <= i < |es| && es[i].0 == k {
        var i :| 0 <= i < |es| && es[i].0 == k;
        if i < |init| {
          assert init[i].0 == k;
        }
      }
    }
  }

  /** The items view lists each bound key exactly once, with the value `d.get`
      reads for it: the last binding. */
  lemma DictItemsView(es: seq<(string, Value)>)
    ensures var its := DictItems(es);
      && (forall i, j :: 0 <= i < j < |its| ==> its[i].0 != its[j].0)
      && (forall i :: 0 <= i < |its| ==> DictGet(es, its[i].0) == Some(its[i].1))
  {
    var its := DictItems(es);
    var ks := DictKeys(es);
    DictKeysBound(es, "");
    forall i | 0 <= i < |its|
      ensures DictGet(es, its[i].0) == Some(its[i].1)
    {
      DictKeysBound(es, ks[i]);
      DictGetBinding(es, ks[i]);
    }
  }

  /** A key is listed by the items view exactly when some entry binds it. */
  lemma DictItemsKeys(es: seq<(string, Value)>, k: string)
    ensures DictHas(es, k) <==> exists i :: 0 <= i < |DictItems(es)| && DictItems(es)[i].0 == k
  {
    var ks := DictKeys(es);
    DictKeysBound(es, k);
    DictGetBinding(es, k);
    if k in ks {
      var i :| 0 <= i < |ks| && ks[i] == k;
      assert DictItems(es)[i].0 == k;
    }
  }
}
