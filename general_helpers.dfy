/** Time and forecast list utilities (general_helpers.py): stepping through
    timestamps, pruning forecasts outside a requested window and replacing
    a forecast's first value by a measurement. Timestamps are whole seconds
    and steps a whole number of seconds. */
module GeneralHelpers {
  import opened Common

  // ---------------------------------------------------------------------
  // iter_dt
  // ---------------------------------------------------------------------

  /** The timestamps `first, first + delta, ...` that do not pass `last`. */
  function Steps(first: int, last: int, delta: int): seq<int>
    requires delta > 0
    decreases last - first + delta
  {
    if first > last then [] else [first] + Steps(first + delta, last, delta)
  }

  /** `iter_dt`, drained into a list: advances from `first` by `delta` while
      the current timestamp does not pass `last`. */
  method IterDt(first: int, last: int, delta: int) returns (items: seq<int>)
    requires delta > 0
    ensures items == Steps(first, last, delta)
  {
    items := [];
    var curr := first;
    while curr <= last
      invariant items + Steps(curr, last, delta) == Steps(first, last, delta)
      decreases last - curr + delta
    {
      items := items + [curr];
      curr := curr + delta;
    }
  }

  /** The i-th timestamp is `first + i * delta` and none passes `last`. */
  lemma {:induction false} StepsValues(first: int, last: int, delta: int)
    requires delta > 0
    ensures forall i :: 0 <= i < |Steps(first, last, delta)| ==> Steps(first, last, delta)[i] == first + i * delta
    ensures forall i :: 0 <= i < |Steps(first, last, delta)| ==> Steps(first, last, delta)[i] <= last
    decreases last - first + delta
  {
    if first <= last {
      StepsValues(first + delta, last, delta);
      var rest := Steps(first + delta, last, delta);
      assert Steps(first, last, delta) == [first] + rest;
      forall i | 1 <= i < |Steps(first, last, delta)|
        ensures Steps(first, last, delta)[i] == first + i * delta
      {
        assert Steps(first, last, delta)[i] == rest[i - 1];
        assert first + delta + (i - 1) * delta == first + i * delta;
      }
    }
  }

  /** There is one more timestamp than the whole steps that fit in the
      span, and `last` itself is reached exactly when the span is a whole
      number of steps. */
  lemma {:induction false} StepsCount(first: int, last: int, delta: int)
    requires delta > 0
    ensures first <= last ==> |Steps(first, last, delta)| == (last - first) / delta + 1
    ensures first > last ==> |Steps(first, last, delta)| == 0
    ensures last in Steps(first, last, delta) <==> (first <= last && (last - first) % delta == 0)
    decreases last - first + delta
  {
    if first <= last {
      StepsCount(first + delta, last, delta);
      assert Steps(first, last, delta) == [first] + Steps(first + delta, last, delta);
      var span := last - first;
      if first + delta <= last {
        DivModStep(span, delta);
      } else {
        assert span / delta == 0 && span % delta == span;
      }
    }
  }

  lemma {:induction false} DivModStep(span: int, delta: int)
    requires delta > 0 && span >= delta
    ensures span / delta == (span - delta) / delta + 1
    ensures span % delta == (span - delta) % delta
  {
    var q := (span - delta) / delta;
    var m := (span - delta) % delta;
    assert (q + 1) * delta == q * delta + delta;
    DivModUnique(span, delta, q + 1, m);
  }

  /** Euclidean division has one quotient and remainder. */
  lemma {:induction false} DivModUnique(a: int, d: int, q: int, m: int)
    requires d > 0 && 0 <= m < d && a == q * d + m
    ensures a / d == q && a % d == m
  {
    var q' := a / d;
    var m' := a % d;
    assert a == q' * d + m';
    assert (q - q') * d == m' - m;
    if q > q' {
      assert (q - q') * d >= d by { ScaleAtLeast(q - q', d); }
    } else if q < q' {
      assert (q' - q) * d >= d by { ScaleAtLeast(q' - q, d); }
    }
  }

  lemma {:induction false} ScaleAtLeast(k: int, d: int)
    requires k >= 1 && d > 0
    ensures k * d >= d
  {
    assert k * d == (k - 1) * d + d;
    assert (k - 1) * d >= 0;
  }

  /** A day of hourly steps has 25 timestamps, from midnight to midnight. */
  lemma {:induction false} DayOfHours()
    ensures |Steps(0, 86400, 3600)| == 25
    ensures Steps(0, 86400, 3600)[0] == 0 && Steps(0, 86400, 3600)[24] == 86400
    ensures Steps(0, 86400, 3600)[1] - Steps(0, 86400, 3600)[0] == 3600
  {
    StepsValues(0, 86400, 3600);
    StepsCount(0, 86400, 3600);
  }

  // ---------------------------------------------------------------------
  // remove_out_of_range
  // ---------------------------------------------------------------------

  /** One forecast record: its timestamp and its forecast value. */
  datatype Forecast = Forecast(datetime: int, value: real)

  predicate InWindow(f: Forecast, start: int, end: int)
  {
    start <= f.datetime <= end
  }

  /** The forecasts inside the window `[start, end]`, in their order. */
  function InRange(s: seq<Forecast>, start: int, end: int): (r: seq<Forecast>)
    ensures |r| <= |s|
  {
    if |s| == 0 then []
    else if InWindow(s[|s| - 1], start, end) then InRange(s[..|s| - 1], start, end) + [s[|s| - 1]]
    else InRange(s[..|s| - 1], start, end)
  }

  /** The list without its first element equal to `f` (Python's
      `list.remove`), or unchanged when there is none. */
  function RemoveFirst(s: seq<Forecast>, f: Forecast): (r: seq<Forecast>)
  {
    if |s| == 0 then []
    else if s[0] == f then s[1..]
    else [s[0]] + RemoveFirst(s[1..], f)
  }

  /** A mutable list of forecasts. */
  class Forecasts {
    var entries: seq<Forecast>

    constructor (entries: seq<Forecast>)
      ensures this.entries == entries
    {
      this.entries := entries;
    }

    /** `list.remove`: drops the first entry equal to `f`. */
    method Remove(f: Forecast)
      modifies this
      ensures entries == RemoveFirst(old(entries), f)
    {
      entries := RemoveFirst(entries, f);
    }
  }

  /** `remove_out_of_range`: walks a copy of the list and removes from the
      list itself every forecast outside `[start, end]`; the same list (or
      no list) is returned. */
  method RemoveOutOfRange(forecasts: Forecasts?, start: int, end: int) returns (r: Forecasts?)
    modifies forecasts
    ensures r == forecasts
    ensures forecasts != null ==> forecasts.entries == InRange(old(forecasts.entries), start, end)
  {
    if forecasts != null {
      var checkList := forecasts.entries;
      for i := 0 to |checkList|
        invariant forecasts.entries == InRange(checkList[..i], start, end) + checkList[i..]
      {
        var f := checkList[i];
        if end < f.datetime || start > f.datetime {
          PruneDrops(checkList, i, start, end);
          forecasts.Remove(f);
        } else {
          PruneKeeps(checkList, i, start, end);
        }
      }
      assert checkList[..|checkList|] == checkList;
    }
    return forecasts;
  }

  /** A forecast outside the window is the first of its kind after the
      pruned prefix, so removing it advances the pruning by one. */
  lemma PruneDrops(s: seq<Forecast>, i: int, start: int, end: int)
    requires 0 <= i < |s| && !InWindow(s[i], start, end)
    ensures RemoveFirst(InRange(s[..i], start, end) + s[i..], s[i]) == InRange(s[..i + 1], start, end) + s[i + 1..]
  {
    assert s[..i + 1][..i] == s[..i];
    InRangeAllInWindow(s[..i], start, end);
    RemoveAfterPrefix(InRange(s[..i], start, end), s[i..], s[i]);
    assert s[i..][1..] == s[i + 1..];
  }

  /** A forecast inside the window stays where it is. */
  lemma PruneKeeps(s: seq<Forecast>, i: int, start: int, end: int)
    requires 0 <= i < |s| && InWindow(s[i], start, end)
    ensures InRange(s[..i], start, end) + s[i..] == InRange(s[..i + 1], start, end) + s[i + 1..]
  {
    assert s[..i + 1][..i] == s[..i];
    assert s[i..] == [s[i]] + s[i + 1..];
  }

  lemma {:induction false} InRangeAllInWindow(s: seq<Forecast>, start: int, end: int)
    ensures forall f :: f in InRange(s, start, end) ==> InWindow(f, start, end)
  {
    if |s| > 0 {
      InRangeAllInWindow(s[..|s| - 1], start, end);
    }
  }

  lemma {:induction false} RemoveAfterPrefix(prefix: seq<Forecast>, rest: seq<Forecast>, f: Forecast)
    requires f !in prefix && |rest| > 0 && rest[0] == f
    ensures RemoveFirst(prefix + rest, f) == prefix + rest[1..]
  {
    if |prefix| > 0 {
      assert (prefix + rest)[1..] == prefix[1..] + rest;
      RemoveAfterPrefix(prefix[1..], rest, f);
    } else {
      assert prefix + rest == rest;
    }
  }

  /** Every remaining forecast lies in the window, every forecast in the
      window remains, and pruning keeps the order: pruning a concatenation
      prunes each part. */
  lemma {:induction false} InRangeMeaning(s: seq<Forecast>, t: seq<Forecast>, start: int, end: int)
    ensures forall f :: f in InRange(s, start, end) ==> InWindow(f, start, end)
    ensures forall f :: f in s && InWindow(f, start, end) ==> f in InRange(s, start, end)
    ensures InRange(s + t, start, end) == InRange(s, start, end) + InRange(t, start, end)
    decreases |t|
  {
    InRangeAllInWindow(s, start, end);
    InRangeKeeps(s, start, end);
    if |t| > 0 {
      InRangeMeaning(s, t[..|t| - 1], start, end);
      assert (s + t)[..|s + t| - 1] == s + t[..|t| - 1];
    } else {
      assert s + t == s;
    }
  }

  lemma {:induction false} InRangeKeeps(s: seq<Forecast>, start: int, end: int)
    ensures forall f :: f in s && InWindow(f, start, end) ==> f in InRange(s, start, end)
  {
    if |s| > 0 {
      InRangeKeeps(s[..|s| - 1], start, end);
      assert s == s[..|s| - 1] + [s[|s| - 1]];
    }
  }

  /** A forecast for 2023 is kept and one for 2024 dropped from a one-hour
      window opening at the 2023 timestamp. */
  lemma {:induction false} PruneExample()
    ensures InRange([Forecast(1672531200, 0.0), Forecast(1704067200, 0.0)], 1672531200, 1672534800) ==
      [Forecast(1672531200, 0.0)]
  {
    var s := [Forecast(1672531200, 0.0), Forecast(1704067200, 0.0)];
    assert s[..1] == [Forecast(1672531200, 0.0)];
    assert s[..1][..0] == [];
  }

  // ---------------------------------------------------------------------
  // substitute_by_measure
  // ---------------------------------------------------------------------

  /** One measurement record: its identifier fields (`peer_id`, `upac_id`)
      and its measured values by key. */
  datatype Measure = Measure(ids: map<string, string>, values: map<string, real>)

  /** The identifier key that goes with a measurement group. */
  function IdKey(substructKey: string): string
  {
    if substructKey == "peer_measures" then "peer_id" else "upac_id"
  }

  predicate Matches(m: Measure, idKey: string, uniqueId: string)
  {
    idKey in m.ids && m.ids[idKey] == uniqueId
  }

  /** Record `i` is the first one whose identifier matches. */
  predicate FirstMatchAt(measures: seq<Measure>, i: int, idKey: string, uniqueId: string)
  {
    0 <= i < |measures| && Matches(measures[i], idKey, uniqueId) &&
    forall j :: 0 <= j < i ==> !Matches(measures[j], idKey, uniqueId)
  }

  /** The first measurement whose identifier matches. */
  function FirstMatch(measures: seq<Measure>, idKey: string, uniqueId: string): (r: Option<Measure>)
    ensures r.Some? <==> exists i :: 0 <= i < |measures| && Matches(measures[i], idKey, uniqueId)
    ensures r.Some? ==> exists i :: FirstMatchAt(measures, i, idKey, uniqueId) && measures[i] == r.value
  {
    if |measures| == 0 then None
    else if Matches(measures[0], idKey, uniqueId) then
      assert FirstMatchAt(measures, 0, idKey, uniqueId);
      Some(measures[0])
    else
      var r := FirstMatch(measures[1..], idKey, uniqueId);
      assert forall i :: 1 <= i < |measures| ==> measures[i] == measures[1..][i - 1];
      if r.Some? then
        var i :| FirstMatchAt(measures[1..], i, idKey, uniqueId) && measures[1..][i] == r.value;
        assert FirstMatchAt(measures, i + 1, idKey, uniqueId) by {
          forall j | 0 <= j < i + 1 ensures !Matches(measures[j], idKey, uniqueId) {
            if j > 0 {
              assert measures[j] == measures[1..][j - 1];
            }
          }
        }
        r
      else r
  }

  /** The measurement that replaces the first forecast, if any: the value
      under `measureKey` of the first record of the group whose identifier
      matches, when that value is present and not zero. */
  function MeasureFor(uniqueId: string, inputData: map<string, seq<Measure>>, substructKey: string, measureKey: string)
    : Option<real>
  {
    if substructKey !in inputData then None
    else
      match FirstMatch(inputData[substructKey], IdKey(substructKey), uniqueId)
      case None => None
      case Some(m) =>
        if measureKey in m.values && m.values[measureKey] != 0.0 then Some(m.values[measureKey]) else None
  }

  /** Why `substitute_by_measure` raises: the list it writes into is empty. */
  datatype SubstituteError = EmptyForecastList

  /** A mutable list of forecast values. */
  class Series {
    var values: seq<real>

    constructor (values: seq<real>)
      ensures this.values == values
    {
      this.values := values;
    }

    /** `substitute_by_measure`: overwrites the first value by the matching
        measurement, if there is one. */
    method SubstituteByMeasure(uniqueId: string, inputData: map<string, seq<Measure>>, substructKey: string,
                               measureKey: string)
      returns (r: Result<(), SubstituteError>)
      modifies this
      ensures MeasureFor(uniqueId, inputData, substructKey, measureKey).None? ==> r.Ok? && values == old(values)
      ensures MeasureFor(uniqueId, inputData, substructKey, measureKey).Some? && |old(values)| == 0 ==>
        r == Err(EmptyForecastList) && values == old(values)
      ensures MeasureFor(uniqueId, inputData, substructKey, measureKey).Some? && |old(values)| > 0 ==>
        r.Ok? && values == old(values)[0 := MeasureFor(uniqueId, inputData, substructKey, measureKey).value]
    {
      var idKey := IdKey(substructKey);
      if substructKey in inputData {
        var found := FirstMatch(inputData[substructKey], idKey, uniqueId);
        if found.Some? {
          var m := found.value;
          if measureKey in m.values && m.values[measureKey] != 0.0 {
            if |values| == 0 {
              return Err(EmptyForecastList);
            }
            values := values[0 := m.values[measureKey]];
          }
        }
      }
      return Ok(());
    }
  }

  /** The substituted value is the measurement of the first matching record
      of the group; nothing is substituted when the group is missing, no
      record matches or the measurement is missing or zero. */
  lemma {:induction false} MeasureForMeaning(uniqueId: string, inputData: map<string, seq<Measure>>, substructKey: string, measureKey: string)
    ensures MeasureFor(uniqueId, inputData, substructKey, measureKey).Some? ==>
      (substructKey in inputData &&
       exists i :: FirstMatchAt(inputData[substructKey], i, IdKey(substructKey), uniqueId) &&
         measureKey in inputData[substructKey][i].values &&
         inputData[substructKey][i].values[measureKey] == MeasureFor(uniqueId, inputData, substructKey, measureKey).value &&
         MeasureFor(uniqueId, inputData, substructKey, measureKey).value != 0.0)
    ensures substructKey !in inputData ==> MeasureFor(uniqueId, inputData, substructKey, measureKey).None?
    ensures (substructKey in inputData &&
             forall i :: 0 <= i < |inputData[substructKey]| ==> !Matches(inputData[substructKey][i], IdKey(substructKey), uniqueId))
      ==> MeasureFor(uniqueId, inputData, substructKey, measureKey).None?
  {
  }

  /** Peer A's first forecast 10 becomes its measurement 5; the second
      forecast stays. */
  lemma {:induction false} SubstituteExample()
    ensures MeasureFor("A", map["peer_measures" := [Measure(map["peer_id" := "A"], map["measure" := 5.0]),
                                                   Measure(map["peer_id" := "B"], map["measure" := 6.0])]],
                       "peer_measures", "measure") == Some(5.0)
    ensures MeasureFor("A", map["upac_measures" := [Measure(map["upac_id" := "A"], map["measure" := 5.0]),
                                                   Measure(map["upac_id" := "B"], map["measure" := 6.0])]],
                       "upac_measures", "measure") == Some(5.0)
  {
  }
}
