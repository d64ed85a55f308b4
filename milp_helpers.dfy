/** Small builders used around the optimisation models: counting the time
    steps of a horizon and preparing empty or per-meter lists
    (milp_helpers.py). */
module MilpHelpers {
  import opened Common

  /** Why `time_intervals` raises. */
  datatype TimeError = InvalidMethod | DivisionByZero

  /** Python's `math.floor` of a real. */
  function FloorOf(x: real): (r: int)
    ensures r as real <= x < r as real + 1.0
  {
    x.Floor
  }

  /** Python's `math.ceil` of a real. */
  function CeilOf(x: real): (r: int)
    ensures r as real - 1.0 < x <= r as real
  {
    -((-x).Floor)
  }

  /** Python's `int` of a real: truncation toward zero. */
  function TruncOf(x: real): (r: int)
    ensures x >= 0.0 ==> r as real <= x < r as real + 1.0
    ensures x < 0.0 ==> r as real - 1.0 < x <= r as real
  {
    if x >= 0.0 then FloorOf(x) else CeilOf(x)
  }

  /** `time_intervals`: the number of `deltaT`-long steps in `horizon`,
      rounded by `func` ("ceil", "floor" or "int"); the method name is
      checked before the division is made. */
  function TimeIntervals(horizon: real, deltaT: real, func: string): Result<int, TimeError>
  {
    if func == "ceil" then
      if deltaT == 0.0 then Err(DivisionByZero) else Ok(CeilOf(horizon / deltaT))
    else if func == "floor" then
      if deltaT == 0.0 then Err(DivisionByZero) else Ok(FloorOf(horizon / deltaT))
    else if func == "int" then
      if deltaT == 0.0 then Err(DivisionByZero) else Ok(TruncOf(horizon / deltaT))
    else Err(InvalidMethod)
  }

  /** The default rounding of `time_intervals`. */
  const DefaultRounding: string := "int"

  /** Each rounding method brackets the exact quotient as its name says,
      and any other method name is refused. */
  lemma {:induction false} TimeIntervalsRounding(horizon: real, deltaT: real, func: string)
    requires deltaT != 0.0
    ensures func == "ceil" ==> (TimeIntervals(horizon, deltaT, func).Ok? &&
      TimeIntervals(horizon, deltaT, func).value as real - 1.0 < horizon / deltaT <= TimeIntervals(horizon, deltaT, func).value as real)
    ensures func == "floor" ==> (TimeIntervals(horizon, deltaT, func).Ok? &&
      TimeIntervals(horizon, deltaT, func).value as real <= horizon / deltaT < TimeIntervals(horizon, deltaT, func).value as real + 1.0)
    ensures func == "int" ==> (TimeIntervals(horizon, deltaT, func).Ok? &&
      Abs(TimeIntervals(horizon, deltaT, func).value as real) <= Abs(horizon / deltaT) < Abs(TimeIntervals(horizon, deltaT, func).value as real) + 1.0)
    ensures TimeIntervals(horizon, deltaT, func).Ok? <==> func == "ceil" || func == "floor" || func == "int"
  {
  }

  /** A zero step fails the division for every valid method. */
  lemma {:induction false} TimeIntervalsZeroStep(horizon: real, func: string)
    ensures TimeIntervals(horizon, 0.0, func).Err?
    ensures TimeIntervals(horizon, 0.0, func) == Err(DivisionByZero) <==>
      func == "ceil" || func == "floor" || func == "int"
  {
  }

  /** For a non-negative quotient, truncation is the floor. */
  lemma {:induction false} TruncIsFloorWhenNonNegative(horizon: real, deltaT: real)
    requires deltaT != 0.0 && horizon / deltaT >= 0.0
    ensures TimeIntervals(horizon, deltaT, "int") == TimeIntervals(horizon, deltaT, "floor")
  {
  }

  /** The ceiling and the floor agree exactly when the steps fill the
      horizon a whole number of times. */
  lemma {:induction false} CeilIsFloorWhenWhole(horizon: real, deltaT: real)
    requires deltaT != 0.0
    ensures TimeIntervals(horizon, deltaT, "ceil") == TimeIntervals(horizon, deltaT, "floor") <==>
      (horizon / deltaT).Floor as real == horizon / deltaT
  {
    var x := horizon / deltaT;
    if x.Floor as real == x {
      assert (-x).Floor == -x.Floor;
    }
  }

  /** Two hours in 45-minute steps: 3 rounded up, 2 rounded down or
      truncated; in 15-minute steps, 8 whichever way. */
  lemma {:induction false} TimeIntervalsExamples()
    ensures TimeIntervals(2.0, 0.75, "ceil") == Ok(3)
    ensures TimeIntervals(2.0, 0.75, "floor") == Ok(2)
    ensures TimeIntervals(2.0, 0.75, "int") == Ok(2)
    ensures TimeIntervals(2.0, 0.25, "ceil") == Ok(8)
    ensures TimeIntervals(2.0, 0.25, "floor") == Ok(8)
    ensures TimeIntervals(2.0, 0.25, "int") == Ok(8)
  {
    assert 2.0 / 0.75 == 8.0 / 3.0;
    assert 2.0 / 0.25 == 8.0;
    assert FloorOf(8.0 / 3.0) == 2;
    assert CeilOf(8.0 / 3.0) == 3;
    assert FloorOf(8.0) == 8;
    assert CeilOf(8.0) == 8;
  }

  /** Why `numpy.empty` refuses to build a list. */
  datatype DimensionError = NegativeDimension

  /** A list entry that is either a number or NaN (`None` stored into a
      float array). */
  type MaybeNumber = Option<real>

  /** `none_lists`: a list of `m` NaN entries. */
  function NoneLists(m: int): (r: Result<seq<MaybeNumber>, DimensionError>)
    ensures m < 0 <==> r.Err?
    ensures r.Ok? ==> |r.value| == m && forall i :: 0 <= i < |r.value| ==> r.value[i].None?
  {
    if m < 0 then Err(NegativeDimension) else Ok(seq(m, _ => None))
  }

  /** The keys of a list in first-occurrence order, each once (the keys of
      a dictionary built from that list). */
  function Dedup(keys: seq<string>): (r: seq<string>)
  {
    if |keys| == 0 then []
    else
      var rest := Dedup(keys[..|keys| - 1]);
      if keys[|keys| - 1] in rest then rest else rest + [keys[|keys| - 1]]
  }

  /** `dict_none_lists`: each designation, once and in order, mapped to a
      fresh list of `m` NaN entries. The comprehension calls `none_lists`
      only per designation, so no designations give an empty dictionary
      whatever `m` is. */
  function DictNoneLists(m: int, designations: seq<string>): Result<seq<(string, seq<MaybeNumber>)>, DimensionError>
  {
    if |designations| == 0 then Ok([])
    else if m < 0 then Err(NegativeDimension)
    else
      var keys := Dedup(designations);
      Ok(seq(|keys|, i requires 0 <= i < |keys| => (keys[i], NoneLists(m).value)))
  }

  /** The deduplicated keys are exactly the designations, without repeats,
      and a list without repeats is its own key list. */
  lemma {:induction false} DedupKeys(keys: seq<string>)
    ensures forall k :: k in Dedup(keys) <==> k in keys
    ensures forall i, j :: 0 <= i < j < |Dedup(keys)| ==> Dedup(keys)[i] != Dedup(keys)[j]
    ensures (forall i, j :: 0 <= i < j < |keys| ==> keys[i] != keys[j]) ==> Dedup(keys) == keys
  {
    if |keys| > 0 {
      var init := keys[..|keys| - 1];
      DedupKeys(init);
      assert keys == init + [keys[|keys| - 1]];
      if forall i, j :: 0 <= i < j < |keys| ==> keys[i] != keys[j] {
        assert keys[|keys| - 1] !in init by {
          forall i | 0 <= i < |init| ensures init[i] != keys[|keys| - 1] {
            assert init[i] == keys[i];
          }
        }
        assert forall i, j :: 0 <= i < j < |init| ==> init[i] != init[j] by {
          forall i, j | 0 <= i < j < |init| ensures init[i] != init[j] {
            assert init[i] == keys[i] && init[j] == keys[j];
          }
        }
      }
    }
  }

  /** The dictionary fails to build if and only if some designation needs
      a list of negative length; with no designations it is empty. */
  lemma {:induction false} DictNoneListsFails(m: int, designations: seq<string>)
    ensures DictNoneLists(m, designations).Err? <==> m < 0 && |designations| > 0
    ensures |designations| == 0 ==> DictNoneLists(m, designations) == Ok([])
  {
  }

  /** The dictionary holds every designation once, in order, each with a
      list of `m` NaN entries. */
  lemma {:induction false} DictNoneListsShape(m: int, designations: seq<string>)
    requires m >= 0
    ensures DictNoneLists(m, designations).Ok?
    ensures forall d :: d in designations <==>
      exists i :: 0 <= i < |DictNoneLists(m, designations).value| && DictNoneLists(m, designations).value[i].0 == d
    ensures forall i :: 0 <= i < |DictNoneLists(m, designations).value| ==>
      |DictNoneLists(m, designations).value[i].1| == m &&
      forall j :: 0 <= j < m ==> DictNoneLists(m, designations).value[i].1[j].None?
    ensures (forall i, j :: 0 <= i < j < |designations| ==> designations[i] != designations[j]) ==>
      |DictNoneLists(m, designations).value| == |designations| &&
      forall i :: 0 <= i < |designations| ==> DictNoneLists(m, designations).value[i].0 == designations[i]
  {
    DedupKeys(designations);
    var keys := Dedup(designations);
    var r := DictNoneLists(m, designations).value;
    forall i | 0 <= i < |r|
      ensures |r[i].1| == m && forall j :: 0 <= j < m ==> r[i].1[j].None?
    {
      assert r[i].1 == NoneLists(m).value;
    }
    forall d | d in designations
      ensures exists i :: 0 <= i < |r| && r[i].0 == d
    {
      var i :| 0 <= i < |keys| && keys[i] == d;
      assert r[i].0 == d;
    }
  }

  /** `dict_per_param`: every meter, in order, mapped to its entry under
      `valuesId`, or to None where it has none. */
  function DictPerParam<V>(meters: seq<(MemberId, map<string, V>)>, valuesId: string): (r: seq<(MemberId, Option<V>)>)
    ensures |r| == |meters|
    ensures forall i :: 0 <= i < |meters| ==> r[i].0 == meters[i].0
    ensures forall i :: 0 <= i < |meters| ==> (r[i].1.None? <==> valuesId !in meters[i].1)
    ensures forall i :: 0 <= i < |meters| && valuesId in meters[i].1 ==> r[i].1.value == meters[i].1[valuesId]
  {
    seq(|meters|, i requires 0 <= i < |meters| =>
      (meters[i].0, if valuesId in meters[i].1 then Some(meters[i].1[valuesId]) else None))
  }
}
