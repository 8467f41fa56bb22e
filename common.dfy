/** Small wrapper types shared by every module of the model. */
module Common {

  /** The conventional optional value; `None` plays the part of Python's `None`. */
  datatype Option<T> = None | Some(value: T) {
    function GetOr(default: T): T {
      match this
      case Some(v) => v
      case None => default
    }
  }

  /** The outcome of an operation that may raise: `Fail` carries the exception's message. */
  datatype Result<T> = Ok(value: T) | Fail(message: string)

  /** The outcome of an operation run for its effect: `Raised` carries the message
      of the exception it raises. */
  datatype Outcome = Done | Raised(message: string)

  /** Looks a key up in a map, `m.get(k)` in the source. */
  function Get<K, V>(m: map<K, V>, k: K): Option<V> {
    if k in m then Some(m[k]) else None
  }

  /** A run of `m.setdefault(k, v)` calls over `defaults`, in order; defined from the
      last pair so that it follows the loop one iteration at a time. */
  function SetDefaults<K, V>(m: map<K, V>, defaults: seq<(K, V)>): map<K, V>
    decreases |defaults|
  {
    if defaults == [] then m
    else
      var r := SetDefaults(m, defaults[..|defaults| - 1]);
      var (k, v) := defaults[|defaults| - 1];
      if k in r then r else r[k := v]
  }

  /** `setdefault` never overwrites: every existing entry survives. */
  lemma {:induction false} SetDefaultsKeeps<K, V>(m: map<K, V>, defaults: seq<(K, V)>, k: K)
    requires k in m
    ensures k in SetDefaults(m, defaults) && SetDefaults(m, defaults)[k] == m[k]
    decreases |defaults|
  {
    if defaults != [] {
      SetDefaultsKeeps(m, defaults[..|defaults| - 1], k);
    }
  }

  /** A key the loop offers ends up present; a key it does not offer and the map
      lacks stays absent. */
  lemma {:induction false} SetDefaultsDomain<K, V>(m: map<K, V>, defaults: seq<(K, V)>, k: K)
    ensures k in SetDefaults(m, defaults) <==> k in m || exists i :: 0 <= i < |defaults| && defaults[i].0 == k
    decreases |defaults|
  {
    if defaults != [] {
      var n := |defaults| - 1;
      var init := defaults[..n];
      SetDefaultsDomain(m, init, k);
      if exists i :: 0 <= i < n && init[i].0 == k {
        var i :| 0 <= i < n && init[i].0 == k;
        assert defaults[i] == init[i];
      }
      if exists i :: 0 <= i < n && defaults[i].0 == k {
        var i :| 0 <= i < n && defaults[i].0 == k;
        assert init[i] == defaults[i];
      }
    }
  }

  /** A key the map lacks gets the value of its first offer (later offers find it set). */
  lemma {:induction false} SetDefaultsFirst<K, V>(m: map<K, V>, defaults: seq<(K, V)>, i: nat)
    requires i < |defaults| && defaults[i].0 !in m
    requires forall j :: 0 <= j < i ==> defaults[j].0 != defaults[i].0
    ensures defaults[i].0 in SetDefaults(m, defaults) && SetDefaults(m, defaults)[defaults[i].0] == defaults[i].1
    decreases |defaults|
  {
    var n := |defaults| - 1;
    var init := defaults[..n];
    var k := defaults[i].0;
    if i < n {
      assert init[i] == defaults[i];
      forall j | 0 <= j < i ensures init[j].0 != init[i].0 {
        assert init[j] == defaults[j];
      }
      SetDefaultsFirst(m, init, i);
    } else {
      SetDefaultsDomain(m, init, k);
      assert forall j :: 0 <= j < n ==> init[j].0 != k;
    }
  }
}
