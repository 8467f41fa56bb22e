/**
 * The analysis history of analysis.py: the validation of the saved Flux queries
 * (`save_analysis_queries`) and `fetch_history`'s earliest time and grouping of
 * the rows by measurement. Running a query against InfluxDB is a parameter
 * `run` from the query text to the rows it returns.
 */
module History {
  import opened Common
  import opened Strings
  import opened Values

  /** One row of a query's result, with the parts the analysis reads: its time
      (absent for a record without one), its measurement, its field and its tags. */
  datatype Row = Row(time: Option<string>, measurement: string, field: string, tags: map<string, string>)

  /** The periods of `DEFAULT_QUERIES`. */
  const Periods: seq<string> := ["last_3_days", "last_week", "last_month", "last_year"]

  const InvalidQueries: string := "Format de requêtes invalide."

  function UnknownPeriod(period: string): string {
    "Période inconnue: " + period
  }

  function EmptyQuery(period: string): string {
    "Requête vide pour " + period
  }

  // ----- save_analysis_queries -----

  /** The error one entry of the payload raises, if any: a period outside the
      known periods `ps` (the defaults' `Periods`), or a query that is not a string
      or is blank. */
  function EntryError(ps: seq<string>, period: string, query: Value): Option<string> {
    if period !in ps then Some(UnknownPeriod(period))
    else if !query.VStr? || Strip(query.s) == "" then Some(EmptyQuery(period))
    else None
  }

  /** The error of the first offending entry, in the payload's order. */
  function FirstError(ps: seq<string>, es: seq<(string, Value)>): Option<string>
    decreases |es|
  {
    if es == [] then None
    else
      match EntryError(ps, es[0].0, es[0].1)
      case Some(msg) => Some(msg)
      case None => FirstError(ps, es[1..])
  }

  /** The outcome of `save_analysis_queries(payload)`: the payload dict's items
      (each key once, with its last binding), written back, or the `ValueError`
      raised by the first offending item. */
  function ValidateQueries(payload: Value): Result<seq<(string, Value)>> {
    if !payload.VDict? then Fail(InvalidQueries)
    else
      var items := DictItems(payload.entries);
      match FirstError(Periods, items)
      case Some(msg) => Fail(msg)
      case None => Ok(items)
  }

  /** `save_analysis_queries`: the items checked in order, the first offender
      raising; the file write is left out. */
  method SaveAnalysisQueries(payload: Value) returns (r: Result<seq<(string, Value)>>)
    ensures r == ValidateQueries(payload)
  {
    if !payload.VDict? {
      return Fail(InvalidQueries);
    }
    var es := DictItems(payload.entries);
    for i := 0 to |es|
      invariant FirstError(Periods, es) == FirstError(Periods, es[i..])
    {
      assert es[i..][1..] == es[i + 1..];
      var (period, query) := es[i];
      if period !in Periods {
        return Fail(UnknownPeriod(period));
      }
      if !query.VStr? || Strip(query.s) == "" {
        return Fail(EmptyQuery(period));
      }
    }
    assert es[|es|..] == [];
    return Ok(es);
  }

  /** No entry offends exactly when every entry is a period of `ps` with a query
      that is a non-blank string. */
  lemma FirstErrorNone(ps: seq<string>, es: seq<(string, Value)>)
    ensures FirstError(ps, es).None? <==>
      forall i :: 0 <= i < |es| ==> es[i].0 in ps && es[i].1.VStr? && Strip(es[i].1.s) != ""
  {
    FirstErrorClear(ps, es);
    forall i | 0 <= i < |es|
      ensures EntryError(ps, es[i].0, es[i].1).None? <==> es[i].0 in ps && es[i].1.VStr? && Strip(es[i].1.s) != ""
    {
    }
  }

  /** No entry offends exactly when no entry has an error of its own. */
  lemma {:induction false} FirstErrorClear(ps: seq<string>, es: seq<(string, Value)>)
    ensures FirstError(ps, es).None? <==> forall i :: 0 <= i < |es| ==> EntryError(ps, es[i].0, es[i].1).None?
    decreases |es|
  {
    if es != [] {
      var rest := es[1..];
      FirstErrorClear(ps, rest);
      assert forall i :: 1 <= i < |es| ==> es[i] == rest[i - 1];
      if EntryError(ps, es[0].0, es[0].1).None? {
        assert FirstError(ps, es) == FirstError(ps, rest);
      } else {
        assert FirstError(ps, es).Some?;
      }
    }
  }

  /** The error raised is the one of the first offending entry. */
  lemma {:induction false} FirstErrorIsFirst(ps: seq<string>, es: seq<(string, Value)>)
    requires FirstError(ps, es).Some?
    ensures exists i :: 0 <= i < |es| && FirstOffender(ps, es, i) && EntryError(ps, es[i].0, es[i].1) == FirstError(ps, es)
    decreases |es|
  {
    if EntryError(ps, es[0].0, es[0].1).None? {
      var rest := es[1..];
      assert FirstError(ps, es) == FirstError(ps, rest);
      FirstErrorIsFirst(ps, rest);
      var i :| 0 <= i < |rest| && FirstOffender(ps, rest, i) && EntryError(ps, rest[i].0, rest[i].1) == FirstError(ps, rest);
      OffenderShift(ps, es, i);
    } else {
      assert FirstOffender(ps, es, 0);
    }
  }

  /** Behind an entry that passes, the first offender of the rest is the first offender. */
  lemma OffenderShift(ps: seq<string>, es: seq<(string, Value)>, i: nat)
    requires 0 < |es| && i < |es| - 1 && EntryError(ps, es[0].0, es[0].1).None? && FirstOffender(ps, es[1..], i)
    ensures FirstOffender(ps, es, i + 1) && es[i + 1] == es[1..][i]
  {
    var rest := es[1..];
    forall j | 0 <= j < i + 1
      ensures EntryError(ps, es[j].0, es[j].1).None?
    {
      if j > 0 {
        assert es[j] == rest[j - 1];
      }
    }
  }

  /** Entry `i` is the first that offends. */
  predicate FirstOffender(ps: seq<string>, es: seq<(string, Value)>, i: nat)
    requires i < |es|
  {
    EntryError(ps, es[i].0, es[i].1).Some? && forall j :: 0 <= j < i ==> EntryError(ps, es[j].0, es[j].1).None?
  }

  /** A period and its query pass the check: a default period with a non-blank string. */
  predicate QueryOk(period: string, query: Value) {
    period in Periods && query.VStr? && Strip(query.s) != ""
  }

  /** The save accepts a payload exactly when it is a dict whose every key is a
      default period whose value (its last binding) is a non-blank query; it then
      returns the dict's items. A rejected earlier binding of a key that is bound
      again does not matter. */
  lemma QueriesAccepted(payload: Value)
    ensures ValidateQueries(payload).Ok? <==> (payload.VDict? &&
      forall k :: DictHas(payload.entries, k) ==> QueryOk(k, DictGet(payload.entries, k).value))
    ensures ValidateQueries(payload).Ok? ==> ValidateQueries(payload).value == DictItems(payload.entries)
    ensures !payload.VDict? ==> ValidateQueries(payload) == Fail(InvalidQueries)
  {
    if payload.VDict? {
      var es := payload.entries;
      var its := DictItems(es);
      FirstErrorNone(Periods, its);
      DictItemsView(es);
      if FirstError(Periods, its).None? {
        forall k | DictHas(es, k)
          ensures QueryOk(k, DictGet(es, k).value)
        {
          DictItemsKeys(es, k);
          var i :| 0 <= i < |its| && its[i].0 == k;
        }
      } else {
        var i :| 0 <= i < |its| && !QueryOk(its[i].0, its[i].1);
        assert DictHas(es, its[i].0);
      }
    }
  }

  // ----- fetch_history -----

  /** The four groups of `fetch_history`, in order. */
  const Measurements: seq<string> := ["sensor_readings", "device_events", "settings", "water_quality_manual"]

  /** `fetch_history`'s result: the rows by group and the earliest time. */
  datatype Fetched = Fetched(series: map<string, seq<Row>>, earliest: Option<string>)

  /** Whether a row has a time: `row.get("time")` is truthy. */
  predicate HasTime(r: Row) {
    r.time.Some? && r.time.value != ""
  }

  /** The earliest-time loop over `rows`, defined from the last row: a row with a
      time replaces the running value when there is none or its time is smaller. */
  function Earliest(rows: seq<Row>): Option<string>
    decreases |rows|
  {
    if rows == [] then None
    else
      var e := Earliest(rows[..|rows| - 1]);
      var r := rows[|rows| - 1];
      if !HasTime(r) then e
      else if e.None? || LexLess(r.time.value, e.value) then Some(r.time.value)
      else e
  }

  /** The rows of measurement `m`, in order, as the grouping loop appends them. */
  function Group(rows: seq<Row>, m: string): seq<Row>
    decreases |rows|
  {
    if rows == [] then []
    else
      var g := Group(rows[..|rows| - 1], m);
      if rows[|rows| - 1].measurement == m then g + [rows[|rows| - 1]] else g
  }

  /** One more row for the earliest time. */
  lemma EarliestNext(rows: seq<Row>, i: nat)
    requires i < |rows|
    ensures var e := Earliest(rows[..i]);
      Earliest(rows[..i + 1]) ==
        if !HasTime(rows[i]) then e
        else if e.None? || LexLess(rows[i].time.value, e.value) then Some(rows[i].time.value)
        else e
  {
    assert rows[..i + 1][..i] == rows[..i];
  }

  /** One more row for each group. */
  lemma GroupNext(rows: seq<Row>, i: nat)
    requires i < |rows|
    ensures forall m :: Group(rows[..i + 1], m) == if rows[i].measurement == m then Group(rows[..i], m) + [rows[i]] else Group(rows[..i], m)
  {
    assert rows[..i + 1][..i] == rows[..i];
  }

  /** The loop of `fetch_history` over the rows that keeps the earliest time. */
  method EarliestTime(rows: seq<Row>) returns (earliest: Option<string>)
    ensures earliest == Earliest(rows)
  {
    earliest := None;
    for i := 0 to |rows|
      invariant earliest == Earliest(rows[..i])
    {
      EarliestNext(rows, i);
      var ts := rows[i].time;
      if ts.None? || ts.value == "" {
        continue;
      }
      if earliest.None? || LexLess(ts.value, earliest.value) {
        earliest := ts;
      }
    }
    assert rows[..|rows|] == rows;
  }

  /** The loop of `fetch_history` that appends each row to its measurement's series. */
  method GroupRows(rows: seq<Row>) returns (grouped: map<string, seq<Row>>)
    ensures forall m :: m in grouped <==> m in Measurements
    ensures forall m :: m in grouped ==> grouped[m] == Group(rows, m)
  {
    grouped := map["sensor_readings" := [], "device_events" := [], "settings" := [], "water_quality_manual" := []];
    assert rows[..0] == [];
    assert grouped.Keys == set m | m in Measurements;
    for i := 0 to |rows|
      invariant grouped.Keys == set m | m in Measurements
      invariant forall m :: m in grouped ==> grouped[m] == Group(rows[..i], m)
    {
      GroupNext(rows, i);
      var measurement := rows[i].measurement;
      if measurement in grouped {
        grouped := grouped[measurement := grouped[measurement] + [rows[i]]];
      }
    }
    assert rows[..|rows|] == rows;
  }

  /** `fetch_history(period)` with the stored queries and the query runner: an
      unknown period raises; otherwise the rows of the period's query give the
      earliest time and the four groups. */
  method FetchHistory(queries: map<string, string>, period: string, run: string -> seq<Row>) returns (r: Result<Fetched>)
    ensures period !in queries ==> r == Fail(UnknownPeriod(period))
    ensures period in queries ==> r.Ok?
    ensures r.Ok? ==> period in queries && r.value.earliest == Earliest(run(queries[period]))
    ensures r.Ok? ==> forall m :: m in r.value.series <==> m in Measurements
    ensures r.Ok? ==> forall m :: m in r.value.series ==> r.value.series[m] == Group(run(queries[period]), m)
  {
    if period !in queries {
      return Fail(UnknownPeriod(period));
    }
    var rows := run(queries[period]);
    var earliest := EarliestTime(rows);
    var grouped := GroupRows(rows);
    return Ok(Fetched(grouped, earliest));
  }

  /** The earliest time is a time some row has, and no row's time is smaller;
      there is none exactly when no row has a time. */
  lemma {:induction false} EarliestIsMinimum(rows: seq<Row>)
    ensures Earliest(rows).None? <==> forall i :: 0 <= i < |rows| ==> !HasTime(rows[i])
    ensures Earliest(rows).Some? ==>
      (exists i :: 0 <= i < |rows| && HasTime(rows[i]) && rows[i].time.value == Earliest(rows).value)
    ensures Earliest(rows).Some? ==>
      forall i :: 0 <= i < |rows| && HasTime(rows[i]) ==> !LexLess(rows[i].time.value, Earliest(rows).value)
    decreases |rows|
  {
    if rows != [] {
      var n := |rows| - 1;
      var init := rows[..n];
      EarliestIsMinimum(init);
      assert forall i :: 0 <= i < n ==> rows[i] == init[i];
      var e := Earliest(init);
      var r := rows[n];
      if HasTime(r) && e.Some? {
        var t := r.time.value;
        if LexLess(t, e.value) {
          forall i | 0 <= i < |rows| && HasTime(rows[i])
            ensures !LexLess(rows[i].time.value, t)
          {
            if i < n {
              var u := rows[i].time.value;
              if LexLess(u, t) {
                LexTransitive(u, t, e.value);
              }
            } else {
              LexIrreflexive(t);
            }
          }
        } else {
          if t != e.value {
            LexTotal(t, e.value);
            LexAsymmetric(e.value, t);
          }
        }
      } else if HasTime(r) {
        LexIrreflexive(r.time.value);
      }
    }
  }

  /** A row is in the group of `m` exactly when it is one of the rows and its
      measurement is `m`: each row lands in the group its measurement names, and
      rows of any other measurement are in no group. */
  lemma {:induction false} GroupMembers(rows: seq<Row>, m: string, r: Row)
    ensures r in Group(rows, m) <==> r in rows && r.measurement == m
    decreases |rows|
  {
    if rows != [] {
      var init := rows[..|rows| - 1];
      GroupMembers(init, m, r);
      assert rows == init + [rows[|rows| - 1]];
    }
  }

  /** The rows of measurement `m`, filtered from the front. */
  function OfMeasurement(rows: seq<Row>, m: string): seq<Row>
    decreases |rows|
  {
    if rows == [] then []
    else (if rows[0].measurement == m then [rows[0]] else []) + OfMeasurement(rows[1..], m)
  }

  /** Filtering a row added at the end adds it at the end when it matches. */
  lemma {:induction false} FilterSnoc(rows: seq<Row>, r: Row, m: string)
    ensures OfMeasurement(rows + [r], m) == OfMeasurement(rows, m) + (if r.measurement == m then [r] else [])
    decreases |rows|
  {
    if rows == [] {
      assert [r][1..] == [];
      assert OfMeasurement([r], m) == (if r.measurement == m then [r] else []) + OfMeasurement([], m);
    } else {
      var head := if rows[0].measurement == m then [rows[0]] else [];
      var tail := if r.measurement == m then [r] else [];
      assert (rows + [r])[0] == rows[0];
      assert (rows + [r])[1..] == rows[1..] + [r];
      assert OfMeasurement(rows + [r], m) == head + OfMeasurement(rows[1..] + [r], m);
      FilterSnoc(rows[1..], r, m);
      assert head + (OfMeasurement(rows[1..], m) + tail) == (head + OfMeasurement(rows[1..], m)) + tail;
    }
  }

  /** The grouping loop keeps the rows' order and loses none: each group is the
      rows of its measurement, filtered in order. */
  lemma {:induction false} GroupIsFilter(rows: seq<Row>, m: string)
    ensures Group(rows, m) == OfMeasurement(rows, m)
    decreases |rows|
  {
    if rows != [] {
      var init := rows[..|rows| - 1];
      GroupIsFilter(init, m);
      FilterSnoc(init, rows[|rows| - 1], m);
      assert init + [rows[|rows| - 1]] == rows;
    }
  }
}
