/**
 * The counting summaries of analysis.py over device-event rows: the
 * peristaltic pump volumes and activations (`_summarize_peristaltic`), the
 * truncation of a time to its bucket (`_bucket_key`) and the per-bucket event
 * counts (`_aggregate_device_event_buckets`). `datetime.fromisoformat` (with
 * the conversion to UTC) and `isoformat` are parameters.
 */
module Summaries {
  import opened Common
  import opened Strings
  import opened History

  // ----- _summarize_peristaltic -----

  /** A row of the dosing pumps: `device_type` is `pump` or `peristaltic_power`. */
  predicate IsPumpRow(r: Row) {
    "device_type" in r.tags && (r.tags["device_type"] == "pump" || r.tags["device_type"] == "peristaltic_power")
  }

  /** `tags.get("axis") or tags.get("device_id", "unknown")`. */
  function Axis(r: Row): string {
    var axis := Get(r.tags, "axis").GetOr("");
    if axis != "" then axis else Get(r.tags, "device_id").GetOr("unknown")
  }

  /** `float(tags["volume_ml"])` when the tag is there and parses. */
  function RowVolume(r: Row): Option<real> {
    if "volume_ml" in r.tags then ParseReal(r.tags["volume_ml"]) else None
  }

  /** A row that counts as an activation: its field is `state` or `state_int`. */
  predicate IsActivation(r: Row) {
    r.field == "state" || r.field == "state_int"
  }

  /** One row, whose `volume_ml` reads as `volume`, added to `volume_per_axis`. */
  function AddVolume(v: map<string, real>, r: Row, volume: Option<real>): map<string, real> {
    if IsPumpRow(r) && volume.Some? then v[Axis(r) := Get(v, Axis(r)).GetOr(0.0) + volume.value] else v
  }

  /** One row added to `activations`. */
  function AddActivation(a: map<string, nat>, r: Row): map<string, nat> {
    if IsPumpRow(r) && IsActivation(r) then a[Axis(r) := Get(a, Axis(r)).GetOr(0) + 1] else a
  }

  /** The two ways a row changes `volume_per_axis`. */
  lemma AddVolumeCases(v: map<string, real>, r: Row, volume: Option<real>)
    ensures AddVolume(v, r, volume) ==
      if IsPumpRow(r) && volume.Some? then v[Axis(r) := Get(v, Axis(r)).GetOr(0.0) + volume.value] else v
  {
  }

  /** `volume_per_axis` after the loop over `rows`, from the last row. */
  function Volumes(rows: seq<Row>): map<string, real>
    decreases |rows|
  {
    if rows == [] then map[] else AddVolume(Volumes(rows[..|rows| - 1]), rows[|rows| - 1], RowVolume(rows[|rows| - 1]))
  }

  /** `activations` after the loop over `rows`, from the last row. */
  function Activations(rows: seq<Row>): map<string, nat>
    decreases |rows|
  {
    if rows == [] then map[] else AddActivation(Activations(rows[..|rows| - 1]), rows[|rows| - 1])
  }

  /** One more row for both tallies. */
  lemma PeristalticNext(rows: seq<Row>, i: nat)
    requires i < |rows|
    ensures Volumes(rows[..i + 1]) == AddVolume(Volumes(rows[..i]), rows[i], RowVolume(rows[i]))
    ensures Activations(rows[..i + 1]) == AddActivation(Activations(rows[..i]), rows[i])
  {
    assert rows[..i + 1][..i] == rows[..i];
  }

  /** The body of the loop of `_summarize_peristaltic`: one row, whose `volume_ml`
      reads as `volume`, counted. */
  method CountPumpRow(volumes: map<string, real>, activations: map<string, nat>, row: Row, volume: Option<real>)
    returns (volumes': map<string, real>, activations': map<string, nat>)
    ensures volumes' == AddVolume(volumes, row, volume) && activations' == AddActivation(activations, row)
  {
    volumes', activations' := volumes, activations;
    AddVolumeCases(volumes, row, volume);
    if !IsPumpRow(row) {
      return;
    }
    var axis := Axis(row);
    if volume.Some? {
      volumes' := volumes'[axis := Get(volumes', axis).GetOr(0.0) + volume.value];
    }
    if IsActivation(row) {
      activations' := activations'[axis := Get(activations', axis).GetOr(0) + 1];
    }
  }

  /** `_summarize_peristaltic(rows)`: the volume per axis and the activations per axis. */
  method SummarizePeristaltic(rows: seq<Row>) returns (volumes: map<string, real>, activations: map<string, nat>)
    ensures volumes == Volumes(rows) && activations == Activations(rows)
  {
    volumes := map[];
    activations := map[];
    for i := 0 to |rows|
      invariant volumes == Volumes(rows[..i]) && activations == Activations(rows[..i])
    {
      PeristalticNext(rows, i);
      volumes, activations := CountPumpRow(volumes, activations, rows[i], RowVolume(rows[i]));
    }
    assert rows[..|rows|] == rows;
  }

  /** A row contributes to the volume of `axis`: a pump row of that axis whose
      volume parses. */
  predicate AddsVolume(r: Row, axis: string) {
    IsPumpRow(r) && Axis(r) == axis && RowVolume(r).Some?
  }

  /** The number of activations of `axis` among `rows`, counted one row at a time. */
  function ActivationCount(rows: seq<Row>, axis: string): nat
    decreases |rows|
  {
    if rows == [] then 0
    else
      var r := rows[|rows| - 1];
      ActivationCount(rows[..|rows| - 1], axis) + if IsPumpRow(r) && IsActivation(r) && Axis(r) == axis then 1 else 0
  }

  /** What one row, whose `volume_ml` reads as `volume`, adds to the volume of `axis`. */
  function Contribution(r: Row, axis: string, volume: Option<real>): real {
    if IsPumpRow(r) && Axis(r) == axis && volume.Some? then volume.value else 0.0
  }

  /** The sum of the volumes the rows of `axis` contribute. */
  function VolumeSum(rows: seq<Row>, axis: string): real
    decreases |rows|
  {
    if rows == [] then 0.0
    else
      var r := rows[|rows| - 1];
      VolumeSum(rows[..|rows| - 1], axis) + Contribution(r, axis, RowVolume(r))
  }

  /** An axis has an activation count exactly when one of its pump rows is a
      state change, and the count is the number of those rows; other rows count
      nothing. */
  lemma {:induction false} ActivationsCount(rows: seq<Row>, axis: string)
    ensures axis in Activations(rows) <==> ActivationCount(rows, axis) > 0
    ensures axis in Activations(rows) ==> Activations(rows)[axis] == ActivationCount(rows, axis)
    decreases |rows|
  {
    if rows != [] {
      ActivationsCount(rows[..|rows| - 1], axis);
    }
  }

  /** What one row does to the volume of one axis. */
  lemma AddVolumeAt(v: map<string, real>, r: Row, volume: Option<real>, axis: string)
    ensures axis in AddVolume(v, r, volume) <==> axis in v || (IsPumpRow(r) && Axis(r) == axis && volume.Some?)
    ensures axis in AddVolume(v, r, volume) ==>
      AddVolume(v, r, volume)[axis] == Get(v, axis).GetOr(0.0) + Contribution(r, axis, volume)
  {
  }

  /** An axis has a volume exactly when one of its pump rows carries a parsable
      `volume_ml`. */
  lemma VolumesPresent(rows: seq<Row>, axis: string)
    ensures axis in Volumes(rows) <==> exists i :: 0 <= i < |rows| && AddsVolume(rows[i], axis)
  {
    var adds := (r: Row) => AddsVolume(r, axis);
    VolumesHaveRow(rows, axis);
    AnyRowExists(rows, adds);
    assert forall i :: 0 <= i < |rows| ==> (adds(rows[i]) <==> AddsVolume(rows[i], axis));
  }

  /** Some row of `rows` satisfies `p`, asked from the last row. */
  predicate AnyRow(rows: seq<Row>, p: Row -> bool)
    decreases |rows|
  {
    rows != [] && (AnyRow(rows[..|rows| - 1], p) || p(rows[|rows| - 1]))
  }

  /** The axes with a volume are those with a row that adds to them. */
  lemma {:induction false} VolumesHaveRow(rows: seq<Row>, axis: string)
    ensures axis in Volumes(rows) <==> AnyRow(rows, (r: Row) => AddsVolume(r, axis))
    decreases |rows|
  {
    if rows != [] {
      var init := rows[..|rows| - 1];
      var last := rows[|rows| - 1];
      VolumesHaveRow(init, axis);
      AddVolumeAt(Volumes(init), last, RowVolume(last), axis);
    }
  }

  /** The recursive form says the same as the existential one. */
  lemma {:induction false} AnyRowExists(rows: seq<Row>, p: Row -> bool)
    ensures AnyRow(rows, p) <==> exists i :: 0 <= i < |rows| && p(rows[i])
    decreases |rows|
  {
    if rows != [] {
      var init := rows[..|rows| - 1];
      AnyRowExists(init, p);
      assert forall i :: 0 <= i < |init| ==> rows[i] == init[i];
      if p(rows[|rows| - 1]) {
        assert 0 <= |rows| - 1 < |rows|;
      }
    }
  }

  /** The volume of an axis is the sum of what its rows contribute, and an axis
      without a volume sums to nothing. */
  lemma {:induction false} VolumesSum(rows: seq<Row>, axis: string)
    ensures axis in Volumes(rows) ==> Volumes(rows)[axis] == VolumeSum(rows, axis)
    ensures axis !in Volumes(rows) ==> VolumeSum(rows, axis) == 0.0
    decreases |rows|
  {
    if rows != [] {
      var n := |rows| - 1;
      var init := rows[..n];
      var last := rows[n];
      var volume := RowVolume(last);
      VolumesSum(init, axis);
      assert Volumes(rows) == AddVolume(Volumes(init), last, volume);
      assert VolumeSum(rows, axis) == VolumeSum(init, axis) + Contribution(last, axis, volume);
      AddVolumeAt(Volumes(init), last, volume, axis);
    }
  }

  // ----- _bucket_key -----

  /** A UTC date and time, as `datetime` holds it. */
  datatype Instant = Instant(year: int, month: int, day: int, hour: int, minute: int, second: int, micro: int)

  /** The ranges `datetime` keeps its fields in (the day's bound by month is not modelled). */
  predicate ValidInstant(t: Instant) {
    1 <= t.month <= 12 && 1 <= t.day <= 31 && 0 <= t.hour < 24 && 0 <= t.minute < 60
    && 0 <= t.second < 60 && 0 <= t.micro < 1000000
  }

  /** Chronological order on instants. */
  predicate NotAfter(a: Instant, b: Instant) {
    (a.year, a.month, a.day, a.hour, a.minute, a.second, a.micro) == (b.year, b.month, b.day, b.hour, b.minute, b.second, b.micro)
    || a.year < b.year
    || (a.year == b.year && a.month < b.month)
    || (a.year == b.year && a.month == b.month && a.day < b.day)
    || (a.year == b.year && a.month == b.month && a.day == b.day && a.hour < b.hour)
    || (a.year == b.year && a.month == b.month && a.day == b.day && a.hour == b.hour && a.minute < b.minute)
    || (a.year == b.year && a.month == b.month && a.day == b.day && a.hour == b.hour && a.minute == b.minute
        && (a.second, a.micro) != (b.second, b.micro) && (a.second < b.second || (a.second == b.second && a.micro < b.micro)))
  }

  /** The `replace` calls of `_bucket_key`: six-hour blocks, days, months, or hours. */
  function Truncate(t: Instant, granularity: string): Instant {
    if granularity == "6h" then t.(hour := (t.hour / 6) * 6, minute := 0, second := 0, micro := 0)
    else if granularity == "1d" then t.(hour := 0, minute := 0, second := 0, micro := 0)
    else if granularity == "1mo" then t.(day := 1, hour := 0, minute := 0, second := 0, micro := 0)
    else t.(minute := 0, second := 0, micro := 0)
  }

  /** What each granularity keeps: `6h` the date and the hour rounded down to a
      multiple of six, `1d` the date, `1mo` the year and month, anything else the
      date and the hour; every finer field is zero (the day one for `1mo`). */
  lemma TruncateFields(t: Instant, granularity: string)
    requires ValidInstant(t)
    ensures var b := Truncate(t, granularity);
      && b.year == t.year && b.month == t.month && b.minute == 0 && b.second == 0 && b.micro == 0
      && (granularity == "6h" ==> b.day == t.day && b.hour % 6 == 0 && b.hour <= t.hour < b.hour + 6)
      && (granularity == "1d" ==> b.day == t.day && b.hour == 0)
      && (granularity == "1mo" ==> b.day == 1 && b.hour == 0)
      && (granularity !in ["6h", "1d", "1mo"] ==> b.day == t.day && b.hour == t.hour)
  {
  }

  /** A bucket start is a valid time no later than the time, and truncating it
      again changes nothing. */
  lemma TruncateBucket(t: Instant, granularity: string)
    requires ValidInstant(t)
    ensures ValidInstant(Truncate(t, granularity))
    ensures NotAfter(Truncate(t, granularity), t)
    ensures Truncate(Truncate(t, granularity), granularity) == Truncate(t, granularity)
  {
  }

  /** `_parse_time`: a trailing `Z` read as `+00:00`, then `fromisoformat` (with the
      conversion to UTC), which the parameter stands for. */
  function ParseTime(s: string, fromIso: string -> Option<Instant>): Option<Instant> {
    fromIso(if s != [] && s[|s| - 1] == 'Z' then s[..|s| - 1] + "+00:00" else s)
  }

  /** `_bucket_key(time, granularity)`: no key without a time or when it does not
      parse; otherwise the bucket's start, formatted. */
  function BucketKey(time: Option<string>, granularity: string, fromIso: string -> Option<Instant>,
                     isoformat: Instant -> string): Option<string>
  {
    if time.None? || time.value == "" then None
    else
      match ParseTime(time.value, fromIso)
      case None => None
      case Some(t) => Some(isoformat(Truncate(t, granularity)))
  }

  /** Two times in the same bucket get the same key, whatever the formatting. */
  lemma SameBucketSameKey(a: string, b: string, granularity: string, fromIso: string -> Option<Instant>,
                          isoformat: Instant -> string)
    requires a != "" && b != ""
    requires ParseTime(a, fromIso).Some? && ParseTime(b, fromIso).Some?
    requires Truncate(ParseTime(a, fromIso).value, granularity) == Truncate(ParseTime(b, fromIso).value, granularity)
    ensures BucketKey(Some(a), granularity, fromIso, isoformat) == BucketKey(Some(b), granularity, fromIso, isoformat)
    ensures BucketKey(Some(a), granularity, fromIso, isoformat).Some?
  {
  }

  // ----- _aggregate_device_event_buckets -----

  /** One bucket of the map: `total_events` and `per_type`. */
  datatype Bucket = Bucket(total: nat, perType: map<string, nat>)

  /** One entry of the result list. */
  datatype BucketRow = BucketRow(bucketStart: string, total: nat, perType: map<string, nat>)

  /** `tags.get("device_type", "unknown")`. */
  function DeviceType(r: Row): string {
    Get(r.tags, "device_type").GetOr("unknown")
  }

  /** The key a row is counted under, if it has a usable one. */
  function RowKey(r: Row, granularity: string, fromIso: string -> Option<Instant>, isoformat: Instant -> string): Option<string> {
    var k := BucketKey(r.time, granularity, fromIso, isoformat);
    if k.Some? && k.value != "" then k else None
  }

  /** One row counted into a bucket: its total and its device type's count go up by one. */
  function Count(b: Bucket, dtype: string): Bucket {
    Bucket(b.total + 1, b.perType[dtype := Get(b.perType, dtype).GetOr(0) + 1])
  }

  /** `bucket_map` after the loop over `rows`, from the last row. */
  function Buckets(rows: seq<Row>, granularity: string, fromIso: string -> Option<Instant>, isoformat: Instant -> string)
    : map<string, Bucket>
    decreases |rows|
  {
    if rows == [] then map[]
    else
      var m := Buckets(rows[..|rows| - 1], granularity, fromIso, isoformat);
      var r := rows[|rows| - 1];
      match RowKey(r, granularity, fromIso, isoformat)
      case None => m
      case Some(k) => m[k := Count(Get(m, k).GetOr(Bucket(0, map[])), DeviceType(r))]
  }

  /** The sum of the counts of a `per_type` map. */
  ghost function SumCounts(m: map<string, nat>): nat
    decreases |m.Keys|
  {
    if m == map[] then 0
    else
      var k :| k in m;
      m[k] + SumCounts(m - {k})
  }

  /** The sum can be split at any key. */
  lemma {:induction false} SumCountsAt(m: map<string, nat>, k: string)
    requires k in m
    ensures SumCounts(m) == m[k] + SumCounts(m - {k})
    decreases |m.Keys|
  {
    var j :| j in m && SumCounts(m) == m[j] + SumCounts(m - {j});
    if j != k {
      SumCountsAt(m - {j}, k);
      SumCountsAt(m - {k}, j);
      assert m - {j} - {k} == m - {k} - {j};
    }
  }

  /** Counting one more event of a type raises the sum by one. */
  lemma SumCountsBump(m: map<string, nat>, d: string)
    ensures SumCounts(m[d := Get(m, d).GetOr(0) + 1]) == SumCounts(m) + 1
  {
    var m2 := m[d := Get(m, d).GetOr(0) + 1];
    SumCountsAt(m2, d);
    assert m2 - {d} == m - {d};
    if d in m {
      SumCountsAt(m, d);
    } else {
      assert m - {d} == m;
    }
  }

  /** Every bucket's `total_events` is the sum of its `per_type` counts. */
  lemma {:induction false} BucketTotals(rows: seq<Row>, granularity: string, fromIso: string -> Option<Instant>,
                                        isoformat: Instant -> string, k: string)
    requires k in Buckets(rows, granularity, fromIso, isoformat)
    ensures var b := Buckets(rows, granularity, fromIso, isoformat)[k];
      b.total == SumCounts(b.perType) && b.total > 0
    decreases |rows|
  {
    var init := rows[..|rows| - 1];
    var m := Buckets(init, granularity, fromIso, isoformat);
    var r := rows[|rows| - 1];
    var key := RowKey(r, granularity, fromIso, isoformat);
    if key.Some? && key.value == k {
      var e := Get(m, k).GetOr(Bucket(0, map[]));
      if k in m {
        BucketTotals(init, granularity, fromIso, isoformat, k);
      } else {
        assert SumCounts(e.perType) == 0;
      }
      SumCountsBump(e.perType, DeviceType(r));
    } else {
      BucketTotals(init, granularity, fromIso, isoformat, k);
    }
  }

  /** The number of rows counted under key `k`. */
  function EventCount(rows: seq<Row>, granularity: string, fromIso: string -> Option<Instant>,
                      isoformat: Instant -> string, k: string): nat
    decreases |rows|
  {
    if rows == [] then 0
    else
      EventCount(rows[..|rows| - 1], granularity, fromIso, isoformat, k)
        + if RowKey(rows[|rows| - 1], granularity, fromIso, isoformat) == Some(k) then 1 else 0
  }

  /** A bucket exists exactly for the keys some row has, and its total is the
      number of those rows; rows without a key are in no bucket. */
  lemma {:induction false} BucketCounts(rows: seq<Row>, granularity: string, fromIso: string -> Option<Instant>,
                                        isoformat: Instant -> string, k: string)
    ensures k in Buckets(rows, granularity, fromIso, isoformat) <==> EventCount(rows, granularity, fromIso, isoformat, k) > 0
    ensures k in Buckets(rows, granularity, fromIso, isoformat) ==>
      Buckets(rows, granularity, fromIso, isoformat)[k].total == EventCount(rows, granularity, fromIso, isoformat, k)
    decreases |rows|
  {
    if rows != [] {
      BucketCounts(rows[..|rows| - 1], granularity, fromIso, isoformat, k);
    }
  }

  /** One more row for the bucket map. */
  lemma BucketsNext(rows: seq<Row>, granularity: string, fromIso: string -> Option<Instant>, isoformat: Instant -> string, i: nat)
    requires i < |rows|
    ensures var m := Buckets(rows[..i], granularity, fromIso, isoformat);
      Buckets(rows[..i + 1], granularity, fromIso, isoformat) ==
        match RowKey(rows[i], granularity, fromIso, isoformat)
        case None => m
        case Some(k) => m[k := Count(Get(m, k).GetOr(Bucket(0, map[])), DeviceType(rows[i]))]
  {
    assert rows[..i + 1][..i] == rows[..i];
  }

  /** The least of a non-empty set of strings under Python's ordering. */
  method Least(s: set<string>) returns (m: string)
    requires s != {}
    ensures m in s && forall x :: x in s && x != m ==> LexLess(m, x)
  {
    m :| m in s;
    var rest := s - {m};
    while rest != {}
      invariant rest <= s && m in s && m !in rest
      invariant forall x :: x in s && x !in rest && x != m ==> LexLess(m, x)
      decreases rest
    {
      var x :| x in rest;
      if LexLess(x, m) {
        forall y | y in s && y !in rest && y != x
          ensures LexLess(x, y)
        {
          if y != m {
            LexTransitive(x, m, y);
          }
        }
        m := x;
      } else {
        LexTotal(x, m);
      }
      rest := rest - {x};
    }
  }

  /** `sorted(keys)`: the keys in increasing order. */
  method SortedKeys(s: set<string>) returns (r: seq<string>)
    ensures forall x :: x in r <==> x in s
    ensures forall i, j :: 0 <= i < j < |r| ==> LexLess(r[i], r[j])
  {
    r := [];
    var rest := s;
    while rest != {}
      invariant rest <= s
      invariant forall x :: x in s <==> x in r || x in rest
      invariant forall i, j :: 0 <= i < j < |r| ==> LexLess(r[i], r[j])
      invariant forall i, y :: 0 <= i < |r| && y in rest ==> LexLess(r[i], y)
      decreases rest
    {
      var m := Least(rest);
      r := r + [m];
      rest := rest - {m};
    }
  }

  /** The first loop of `_aggregate_device_event_buckets`: `bucket_map`. */
  method CountBuckets(rows: seq<Row>, granularity: string, fromIso: string -> Option<Instant>, isoformat: Instant -> string)
    returns (bucketMap: map<string, Bucket>)
    ensures bucketMap == Buckets(rows, granularity, fromIso, isoformat)
  {
    bucketMap := map[];
    for i := 0 to |rows|
      invariant bucketMap == Buckets(rows[..i], granularity, fromIso, isoformat)
    {
      BucketsNext(rows, granularity, fromIso, isoformat, i);
      var key := BucketKey(rows[i].time, granularity, fromIso, isoformat);
      if key.None? || key.value == "" {
        continue;
      }
      var entry := if key.value in bucketMap then bucketMap[key.value] else Bucket(0, map[]);
      var dtype := if "device_type" in rows[i].tags then rows[i].tags["device_type"] else "unknown";
      var perType := entry.perType[dtype := (if dtype in entry.perType then entry.perType[dtype] else 0) + 1];
      bucketMap := bucketMap[key.value := Bucket(entry.total + 1, perType)];
    }
    assert rows[..|rows|] == rows;
  }

  /** `_aggregate_device_event_buckets(rows, granularity)`: the rows counted per
      bucket, then one entry per bucket in increasing key order. */
  method AggregateDeviceEventBuckets(rows: seq<Row>, granularity: string, fromIso: string -> Option<Instant>,
                                     isoformat: Instant -> string)
    returns (results: seq<BucketRow>)
    ensures var m := Buckets(rows, granularity, fromIso, isoformat);
      && (forall k :: k in m <==> exists i :: 0 <= i < |results| && results[i].bucketStart == k)
      && (forall i :: 0 <= i < |results| ==>
            (results[i].bucketStart in m
             && results[i].total == m[results[i].bucketStart].total && results[i].perType == m[results[i].bucketStart].perType))
      && (forall i, j :: 0 <= i < j < |results| ==> LexLess(results[i].bucketStart, results[j].bucketStart))
  {
    var bucketMap := CountBuckets(rows, granularity, fromIso, isoformat);
    var keys := SortedKeys(bucketMap.Keys);
    results := [];
    for i := 0 to |keys|
      invariant |results| == i
      invariant forall j :: 0 <= j < i ==> results[j] == BucketRow(keys[j], bucketMap[keys[j]].total, bucketMap[keys[j]].perType)
    {
      results := results + [BucketRow(keys[i], bucketMap[keys[i]].total, bucketMap[keys[i]].perType)];
    }
    forall k | k in bucketMap
      ensures exists i :: 0 <= i < |results| && results[i].bucketStart == k
    {
      var i :| 0 <= i < |keys| && keys[i] == k;
      assert results[i].bucketStart == k;
    }
  }
}
