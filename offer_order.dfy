/** The two orderings `_cumsum_offers` asks of Python's stable `sorted`:
    sell offers ascending by `value + increment`, buy offers descending by
    `value - increment` (`reverse=True`, which keeps equal keys in their
    original order). Both are written as stable insertion sorts. */
module OfferOrder {
  import opened Common

  /** Ascending by value, as every sorted sell list is. */
  ghost predicate Ascending(s: seq<Offer>) {
    forall i, j :: 0 <= i < j < |s| ==> s[i].value <= s[j].value
  }

  /** Descending by value, as every sorted buy list is. */
  ghost predicate Descending(s: seq<Offer>) {
    forall i, j :: 0 <= i < j < |s| ==> s[i].value >= s[j].value
  }

  /** Places `x` in front of the first element whose key is not smaller,
      so an element that came earlier stays before equal keys. */
  function InsertAsc(x: Offer, t: seq<Offer>, shift: real): (r: seq<Offer>)
    ensures |r| == |t| + 1
  {
    if t == [] then [x]
    else if x.value + shift <= t[0].value + shift then [x] + t
    else [t[0]] + InsertAsc(x, t[1..], shift)
  }

  /** `sorted(s, key=lambda o: o['value'] + shift)`. */
  function SortAsc(s: seq<Offer>, shift: real): (r: seq<Offer>)
    ensures |r| == |s|
  {
    if s == [] then []
    else InsertAsc(s[0], SortAsc(s[1..], shift), shift)
  }

  function InsertDesc(x: Offer, t: seq<Offer>, shift: real): (r: seq<Offer>)
    ensures |r| == |t| + 1
  {
    if t == [] then [x]
    else if x.value - shift >= t[0].value - shift then [x] + t
    else [t[0]] + InsertDesc(x, t[1..], shift)
  }

  /** `sorted(s, key=lambda o: o['value'] - shift, reverse=True)`. */
  function SortDesc(s: seq<Offer>, shift: real): (r: seq<Offer>)
    ensures |r| == |s|
  {
    if s == [] then []
    else InsertDesc(s[0], SortDesc(s[1..], shift), shift)
  }

  lemma {:induction false} InsertAscKeepsOrder(x: Offer, t: seq<Offer>, shift: real)
    requires Ascending(t)
    ensures Ascending(InsertAsc(x, t, shift))
    ensures |t| > 0 ==> InsertAsc(x, t, shift)[0] == x || InsertAsc(x, t, shift)[0] == t[0]
  {
    if t != [] && x.value + shift > t[0].value + shift {
      var tail := t[1..];
      assert Ascending(tail) by {
        forall i, j | 0 <= i < j < |tail| ensures tail[i].value <= tail[j].value {
          assert tail[i] == t[i + 1] && tail[j] == t[j + 1];
        }
      }
      InsertAscKeepsOrder(x, tail, shift);
      InsertAscPerm(x, tail, shift);
      var rest := InsertAsc(x, tail, shift);
      assert forall k :: 0 <= k < |tail| ==> t[0].value <= tail[k].value by {
        forall k | 0 <= k < |tail| ensures t[0].value <= tail[k].value {
          assert tail[k] == t[k + 1];
        }
      }
      MembersAbove(t[0].value, x, tail, rest);
      ConsAscending(t[0], rest);
    }
  }

  lemma {:induction false} InsertDescKeepsOrder(x: Offer, t: seq<Offer>, shift: real)
    requires Descending(t)
    ensures Descending(InsertDesc(x, t, shift))
  {
    if t != [] && x.value - shift < t[0].value - shift {
      var tail := t[1..];
      assert Descending(tail) by {
        forall i, j | 0 <= i < j < |tail| ensures tail[i].value >= tail[j].value {
          assert tail[i] == t[i + 1] && tail[j] == t[j + 1];
        }
      }
      InsertDescKeepsOrder(x, tail, shift);
      InsertDescPerm(x, tail, shift);
      var rest := InsertDesc(x, tail, shift);
      assert forall k :: 0 <= k < |tail| ==> tail[k].value <= t[0].value by {
        forall k | 0 <= k < |tail| ensures tail[k].value <= t[0].value {
          assert tail[k] == t[k + 1];
        }
      }
      MembersBelow(t[0].value, x, tail, rest);
      ConsDescending(t[0], rest);
    }
  }

  /** Every element of a permutation of `t` plus `x` is at least a bound
      that `x` and every element of `t` reach. */
  lemma {:induction false} MembersAbove(lo: real, x: Offer, t: seq<Offer>, rest: seq<Offer>)
    requires multiset(rest) == multiset(t) + multiset{x}
    requires lo <= x.value && forall k :: 0 <= k < |t| ==> lo <= t[k].value
    ensures forall k :: 0 <= k < |rest| ==> lo <= rest[k].value
  {
    forall k | 0 <= k < |rest| ensures lo <= rest[k].value {
      assert rest[k] in multiset(rest);
      if rest[k] in multiset(t) {
        var j :| 0 <= j < |t| && t[j] == rest[k];
      }
    }
  }

  /** ... and at most a bound that `x` and every element of `t` stay under. */
  lemma {:induction false} MembersBelow(hi: real, x: Offer, t: seq<Offer>, rest: seq<Offer>)
    requires multiset(rest) == multiset(t) + multiset{x}
    requires x.value <= hi && forall k :: 0 <= k < |t| ==> t[k].value <= hi
    ensures forall k :: 0 <= k < |rest| ==> rest[k].value <= hi
  {
    forall k | 0 <= k < |rest| ensures rest[k].value <= hi {
      assert rest[k] in multiset(rest);
      if rest[k] in multiset(t) {
        var j :| 0 <= j < |t| && t[j] == rest[k];
      }
    }
  }

  lemma {:induction false} ConsAscending(y: Offer, rest: seq<Offer>)
    requires Ascending(rest) && forall k :: 0 <= k < |rest| ==> y.value <= rest[k].value
    ensures Ascending([y] + rest)
  {
    var r := [y] + rest;
    forall i, j | 0 <= i < j < |r| ensures r[i].value <= r[j].value {
      assert r[j] == rest[j - 1];
      if i > 0 {
        assert r[i] == rest[i - 1];
      }
    }
  }

  lemma {:induction false} ConsDescending(y: Offer, rest: seq<Offer>)
    requires Descending(rest) && forall k :: 0 <= k < |rest| ==> rest[k].value <= y.value
    ensures Descending([y] + rest)
  {
    var r := [y] + rest;
    forall i, j | 0 <= i < j < |r| ensures r[i].value >= r[j].value {
      assert r[j] == rest[j - 1];
      if i > 0 {
        assert r[i] == rest[i - 1];
      }
    }
  }

  lemma {:induction false} InsertAscPerm(x: Offer, t: seq<Offer>, shift: real)
    ensures multiset(InsertAsc(x, t, shift)) == multiset(t) + multiset{x}
  {
    if t != [] && x.value + shift > t[0].value + shift {
      InsertAscPerm(x, t[1..], shift);
      assert t == [t[0]] + t[1..];
    }
  }

  lemma {:induction false} InsertDescPerm(x: Offer, t: seq<Offer>, shift: real)
    ensures multiset(InsertDesc(x, t, shift)) == multiset(t) + multiset{x}
  {
    if t != [] && x.value - shift < t[0].value - shift {
      InsertDescPerm(x, t[1..], shift);
      assert t == [t[0]] + t[1..];
    }
  }

  /** The sell ordering is ascending and a permutation of its input. */
  lemma {:induction false} SortAscSorted(s: seq<Offer>, shift: real)
    ensures Ascending(SortAsc(s, shift))
    ensures multiset(SortAsc(s, shift)) == multiset(s)
  {
    SortAscOrdered(s, shift);
    SortAscPerm(s, shift);
  }

  lemma {:induction false} SortAscOrdered(s: seq<Offer>, shift: real)
    ensures Ascending(SortAsc(s, shift))
  {
    if s != [] {
      SortAscOrdered(s[1..], shift);
      InsertAscKeepsOrder(s[0], SortAsc(s[1..], shift), shift);
    }
  }

  lemma {:induction false} SortAscPerm(s: seq<Offer>, shift: real)
    ensures multiset(SortAsc(s, shift)) == multiset(s)
  {
    if s != [] {
      SortAscPerm(s[1..], shift);
      InsertAscPerm(s[0], SortAsc(s[1..], shift), shift);
      assert s == [s[0]] + s[1..];
    }
  }

  /** The buy ordering is descending and a permutation of its input. */
  lemma {:induction false} SortDescSorted(s: seq<Offer>, shift: real)
    ensures Descending(SortDesc(s, shift))
    ensures multiset(SortDesc(s, shift)) == multiset(s)
  {
    SortDescOrdered(s, shift);
    SortDescPerm(s, shift);
  }

  lemma {:induction false} SortDescOrdered(s: seq<Offer>, shift: real)
    ensures Descending(SortDesc(s, shift))
  {
    if s != [] {
      SortDescOrdered(s[1..], shift);
      InsertDescKeepsOrder(s[0], SortDesc(s[1..], shift), shift);
    }
  }

  lemma {:induction false} SortDescPerm(s: seq<Offer>, shift: real)
    ensures multiset(SortDesc(s, shift)) == multiset(s)
  {
    if s != [] {
      SortDescPerm(s[1..], shift);
      InsertDescPerm(s[0], SortDesc(s[1..], shift), shift);
      assert s == [s[0]] + s[1..];
    }
  }

  /** A uniform shift of every key cannot reorder a list: the increment
      that `_cumsum_offers` adds to the keys never changes the order. */
  lemma {:induction false} SortAscShiftFree(s: seq<Offer>, shift: real)
    ensures SortAsc(s, shift) == SortAsc(s, 0.0)
  {
    if s != [] {
      SortAscShiftFree(s[1..], shift);
      InsertAscShiftFree(s[0], SortAsc(s[1..], 0.0), shift);
    }
  }

  lemma {:induction false} InsertAscShiftFree(x: Offer, t: seq<Offer>, shift: real)
    ensures InsertAsc(x, t, shift) == InsertAsc(x, t, 0.0)
  {
    if t != [] {
      InsertAscShiftFree(x, t[1..], shift);
    }
  }

  lemma {:induction false} SortDescShiftFree(s: seq<Offer>, shift: real)
    ensures SortDesc(s, shift) == SortDesc(s, 0.0)
  {
    if s != [] {
      SortDescShiftFree(s[1..], shift);
      InsertDescShiftFree(s[0], SortDesc(s[1..], 0.0), shift);
    }
  }

  lemma {:induction false} InsertDescShiftFree(x: Offer, t: seq<Offer>, shift: real)
    ensures InsertDesc(x, t, shift) == InsertDesc(x, t, 0.0)
  {
    if t != [] {
      InsertDescShiftFree(x, t[1..], shift);
    }
  }

  /** A list already in ascending order comes back unchanged. */
  lemma {:induction false} SortAscStable(s: seq<Offer>, shift: real)
    requires Ascending(s)
    ensures SortAsc(s, shift) == s
  {
    if s != [] {
      assert Ascending(s[1..]);
      SortAscStable(s[1..], shift);
      if |s| > 1 {
        assert s[1..] == [s[1]] + s[2..];
      }
    }
  }

  /** A list already in descending order comes back unchanged. */
  lemma {:induction false} SortDescStable(s: seq<Offer>, shift: real)
    requires Descending(s)
    ensures SortDesc(s, shift) == s
  {
    if s != [] {
      assert Descending(s[1..]);
      SortDescStable(s[1..], shift);
      if |s| > 1 {
        assert s[1..] == [s[1]] + s[2..];
      }
    }
  }

  /** The offers of `s` priced at `v`, in the order `s` lists them. */
  function WithValue(s: seq<Offer>, v: real): (r: seq<Offer>)
    ensures |r| <= |s|
    ensures forall k :: 0 <= k < |r| ==> r[k].value == v
  {
    if s == [] then []
    else (if s[0].value == v then [s[0]] else []) + WithValue(s[1..], v)
  }

  /** Inserting `x` puts it in front of every offer of its own price. */
  lemma {:induction false} InsertAscWithValue(x: Offer, t: seq<Offer>, shift: real, v: real)
    ensures WithValue(InsertAsc(x, t, shift), v) == (if x.value == v then [x] else []) + WithValue(t, v)
  {
    if t != [] {
      if x.value + shift <= t[0].value + shift {
        assert ([x] + t)[1..] == t;
      } else {
        InsertAscWithValue(x, t[1..], shift, v);
        assert ([t[0]] + InsertAsc(x, t[1..], shift))[1..] == InsertAsc(x, t[1..], shift);
      }
    }
  }

  lemma {:induction false} InsertDescWithValue(x: Offer, t: seq<Offer>, shift: real, v: real)
    ensures WithValue(InsertDesc(x, t, shift), v) == (if x.value == v then [x] else []) + WithValue(t, v)
  {
    if t != [] {
      if x.value - shift >= t[0].value - shift {
        assert ([x] + t)[1..] == t;
      } else {
        InsertDescWithValue(x, t[1..], shift, v);
        assert ([t[0]] + InsertDesc(x, t[1..], shift))[1..] == InsertDesc(x, t[1..], shift);
      }
    }
  }

  /** Stability of the sell ordering: the offers of any one price come out
      in the order the caller listed them. */
  lemma {:induction false} SortAscKeepsTies(s: seq<Offer>, shift: real, v: real)
    ensures WithValue(SortAsc(s, shift), v) == WithValue(s, v)
  {
    if s != [] {
      SortAscKeepsTies(s[1..], shift, v);
      InsertAscWithValue(s[0], SortAsc(s[1..], shift), shift, v);
    }
  }

  /** Stability of the buy ordering (`reverse=True` keeps equal keys in
      their original order): the offers of any one price come out in the
      order the caller listed them. */
  lemma {:induction false} SortDescKeepsTies(s: seq<Offer>, shift: real, v: real)
    ensures WithValue(SortDesc(s, shift), v) == WithValue(s, v)
  {
    if s != [] {
      SortDescKeepsTies(s[1..], shift, v);
      InsertDescWithValue(s[0], SortDesc(s[1..], shift), shift, v);
    }
  }

  /** Every element of a sorted copy is an element of the original. */
  lemma {:induction false} SortedFrom(s: seq<Offer>, r: seq<Offer>, k: int)
    requires multiset(r) == multiset(s)
    requires 0 <= k < |r|
    ensures exists j :: 0 <= j < |s| && s[j] == r[k]
  {
    assert r[k] in multiset(r);
    assert r[k] in multiset(s);
  }

  /** A permutation has the same length and every original element. */
  lemma {:induction false} PermutationHas(s: seq<Offer>, r: seq<Offer>, i: int)
    requires multiset(r) == multiset(s)
    requires 0 <= i < |s|
    ensures |r| == |s|
    ensures exists k :: 0 <= k < |r| && r[k] == s[i]
  {
    assert |r| == |multiset(r)| == |multiset(s)| == |s|;
    assert s[i] in multiset(r);
  }

  /** In a permutation sorted ascending the least value comes first. */
  lemma {:induction false} AscendingHeadIsMin(s: seq<Offer>, r: seq<Offer>)
    requires |s| > 0 && multiset(r) == multiset(s) && Ascending(r)
    ensures |r| == |s| && r[0].value == MinValue(s)
  {
    var i :| 0 <= i < |s| && s[i].value == MinValue(s);
    PermutationHas(s, r, i);
    var k :| 0 <= k < |r| && r[k] == s[i];
    SortedFrom(s, r, 0);
    var j :| 0 <= j < |s| && s[j] == r[0];
    assert MinValue(s) <= s[j].value;
    assert k == 0 || r[0].value <= r[k].value;
  }

  /** In a permutation sorted ascending the greatest value comes last. */
  lemma {:induction false} AscendingLastIsMax(s: seq<Offer>, r: seq<Offer>)
    requires |s| > 0 && multiset(r) == multiset(s) && Ascending(r)
    ensures |r| == |s| && r[|r| - 1].value == MaxValue(s)
  {
    var i :| 0 <= i < |s| && s[i].value == MaxValue(s);
    PermutationHas(s, r, i);
    var k :| 0 <= k < |r| && r[k] == s[i];
    SortedFrom(s, r, |r| - 1);
    var j :| 0 <= j < |s| && s[j] == r[|r| - 1];
    assert s[j].value <= MaxValue(s);
    assert k == |r| - 1 || r[k].value <= r[|r| - 1].value;
  }

  /** In a permutation sorted descending the greatest value comes first. */
  lemma {:induction false} DescendingHeadIsMax(s: seq<Offer>, r: seq<Offer>)
    requires |s| > 0 && multiset(r) == multiset(s) && Descending(r)
    ensures |r| == |s| && r[0].value == MaxValue(s)
  {
    var i :| 0 <= i < |s| && s[i].value == MaxValue(s);
    PermutationHas(s, r, i);
    var k :| 0 <= k < |r| && r[k] == s[i];
    SortedFrom(s, r, 0);
    var j :| 0 <= j < |s| && s[j] == r[0];
    assert s[j].value <= MaxValue(s);
    assert k == 0 || r[0].value >= r[k].value;
  }

  /** In a permutation sorted descending the least value comes last. */
  lemma {:induction false} DescendingLastIsMin(s: seq<Offer>, r: seq<Offer>)
    requires |s| > 0 && multiset(r) == multiset(s) && Descending(r)
    ensures |r| == |s| && r[|r| - 1].value == MinValue(s)
  {
    var i :| 0 <= i < |s| && s[i].value == MinValue(s);
    PermutationHas(s, r, i);
    var k :| 0 <= k < |r| && r[k] == s[i];
    SortedFrom(s, r, |r| - 1);
    var j :| 0 <= j < |s| && s[j] == r[|r| - 1];
    assert MinValue(s) <= s[j].value;
    assert k == |r| - 1 || r[k].value >= r[|r| - 1].value;
  }

  /** The cheapest sell offer heads the ascending list, the dearest ends it. */
  lemma {:induction false} SortAscEnds(s: seq<Offer>, shift: real)
    requires |s| > 0
    ensures SortAsc(s, shift)[0].value == MinValue(s)
    ensures SortAsc(s, shift)[|s| - 1].value == MaxValue(s)
  {
    SortAscSorted(s, shift);
    AscendingHeadIsMin(s, SortAsc(s, shift));
    AscendingLastIsMax(s, SortAsc(s, shift));
  }

  /** The dearest buy offer heads the descending list, the cheapest ends it. */
  lemma {:induction false} SortDescEnds(s: seq<Offer>, shift: real)
    requires |s| > 0
    ensures SortDesc(s, shift)[0].value == MaxValue(s)
    ensures SortDesc(s, shift)[|s| - 1].value == MinValue(s)
  {
    SortDescSorted(s, shift);
    DescendingHeadIsMax(s, SortDesc(s, shift));
    DescendingLastIsMin(s, SortDesc(s, shift));
  }
}
