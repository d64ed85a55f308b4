/** What the pricing rules of one market session guarantee: the shape of
    the cumulated offer lists, which offers the screening accepts, where the
    crossing value, the MMR and the SDR fall relative to the bids and asks,
    and the convergence test's distance. */
module PricingProperties {
  import opened Common
  import opened OfferOrder
  import opened PricingMechanisms

  // ---------------------------------------------------------------------
  // Cumulated lists
  // ---------------------------------------------------------------------

  /** Normalising sell amounts leaves every price as it was. */
  lemma {:induction false} AbsAmountsValues(s: seq<Offer>)
    ensures Values(AbsAmounts(s)) == Values(s)
  {
  }

  /** Lists with the same prices have the same least and greatest price. */
  lemma {:induction false} SameValuesSameBounds(a: seq<Offer>, b: seq<Offer>)
    requires |a| > 0 && Values(a) == Values(b)
    ensures MinValue(a) == MinValue(b) && MaxValue(a) == MaxValue(b)
  {
    assert MinValue(a) == MinValue(b) by {
      var i :| 0 <= i < |a| && MinValue(a) == a[i].value;
      var j :| 0 <= j < |b| && MinValue(b) == b[j].value;
      assert Values(a)[i] == Values(b)[i] && Values(a)[j] == Values(b)[j];
    }
    assert MaxValue(a) == MaxValue(b) by {
      var k :| 0 <= k < |a| && MaxValue(a) == a[k].value;
      var l :| 0 <= l < |b| && MaxValue(b) == b[l].value;
      assert Values(a)[k] == Values(b)[k] && Values(a)[l] == Values(b)[l];
    }
  }

  /** A total of non-negative amounts grows along the list: the running
      sums of a list without negative amounts never decrease. */
  lemma {:induction false} SumAmountsPrefixGrows(s: seq<Offer>, i: nat, j: nat)
    requires i <= j <= |s|
    requires forall k :: 0 <= k < |s| ==> s[k].amount >= 0.0
    ensures SumAmounts(s[..i]) <= SumAmounts(s[..j])
    decreases j - i
  {
    if i < j {
      SumAmountsPrefixGrows(s, i, j - 1);
      assert s[..j][..j - 1] == s[..j - 1];
    }
  }

  /** The running total of the last offer is the total amount offered. */
  lemma {:induction false} CumulateLastIsTotal(s: seq<Offer>)
    requires |s| > 0
    ensures Cumulate(s)[|s| - 1].amount == SumAmounts(s)
    ensures Values(Cumulate(s)) == Values(s)
  {
    var c := Cumulate(s);
    CumulateAt(s, |s| - 1);
    assert s[..|s|] == s;
    CumulateKeepsOffers(s);
  }

  /** Normalised sell amounts add up to a non-negative supply. */
  lemma {:induction false} SupplyNonNegative(s: seq<Offer>)
    ensures SumAmounts(AbsAmounts(s)) >= 0.0
  {
    if s != [] {
      SupplyNonNegative(s[..|s| - 1]);
      assert AbsAmounts(s)[..|s| - 1] == AbsAmounts(s[..|s| - 1]);
    }
  }

  /** The increment added to the sort keys never changes `_cumsum_offers`. */
  lemma {:induction false} CumsumIncrementFree(buys: seq<Offer>, sells: seq<Offer>, increment: real)
    ensures Cumsum(buys, sells, increment) == Cumsum(buys, sells, 0.0)
  {
    SortDescShiftFree(buys, increment);
    SortAscShiftFree(AbsAmounts(sells), increment);
  }

  /** The cumulated buyers run from the dearest bid down to the cheapest,
      the cumulated sellers from the cheapest ask up to the dearest, and
      the last seller's running total is the whole supply offered. */
  lemma {:induction false} CumsumShape(buys: seq<Offer>, sells: seq<Offer>, increment: real)
    requires |buys| > 0 && |sells| > 0
    ensures Descending(Cumsum(buys, sells, increment).0)
    ensures Ascending(Cumsum(buys, sells, increment).1)
    ensures Cumsum(buys, sells, increment).0[0].value == MaxValue(buys)
    ensures Cumsum(buys, sells, increment).0[|buys| - 1].value == MinValue(buys)
    ensures Cumsum(buys, sells, increment).1[0].value == MinValue(sells)
    ensures Cumsum(buys, sells, increment).1[|sells| - 1].value == MaxValue(sells)
    ensures Cumsum(buys, sells, increment).1[|sells| - 1].amount == SumAmounts(AbsAmounts(sells))
  {
    var sortedBuys := SortDesc(buys, increment);
    var sortedSells := SortAsc(AbsAmounts(sells), increment);
    SortDescSorted(buys, increment);
    SortAscSorted(AbsAmounts(sells), increment);
    SortDescEnds(buys, increment);
    SortAscEnds(AbsAmounts(sells), increment);
    AbsAmountsValues(sells);
    SameValuesSameBounds(AbsAmounts(sells), sells);
    CumulateLastIsTotal(sortedSells);
    CumulateKeepsOffers(sortedBuys);
    CumulateKeepsOffers(sortedSells);
    assert multiset(sortedSells) == multiset(AbsAmounts(sells));
    assert SumAmounts(sortedSells) == SumAmounts(AbsAmounts(sells)) by {
      SumAmountsPermutation(sortedSells, AbsAmounts(sells));
    }
  }

  /** The total of a list does not depend on the order of its offers. */
  lemma {:induction false} SumAmountsPermutation(a: seq<Offer>, b: seq<Offer>)
    requires multiset(a) == multiset(b)
    ensures SumAmounts(a) == SumAmounts(b)
    decreases |a|
  {
    if a != [] {
      var x := a[|a| - 1];
      assert x in b by {
        assert x in multiset(a);
      }
      var k :| 0 <= k < |b| && b[k] == x;
      var a' := a[..|a| - 1];
      var b' := b[..k] + b[k + 1..];
      assert multiset(a') == multiset(b') by {
        MultisetRemoveAt(b, k);
        MultisetRemoveAt(a, |a| - 1);
        assert a[..|a| - 1] + a[|a|..] == a';
      }
      SumAmountsPermutation(a', b');
      SumAmountsRemove(b, k);
    }
  }

  lemma {:induction false} MultisetRemoveAt(s: seq<Offer>, k: nat)
    requires k < |s|
    ensures multiset(s[..k] + s[k + 1..]) == multiset(s) - multiset{s[k]}
  {
    assert s == s[..k] + [s[k]] + s[k + 1..];
  }

  /** Taking one offer out of a list lowers its total by that offer's amount. */
  lemma {:induction false} SumAmountsRemove(s: seq<Offer>, k: nat)
    requires k < |s|
    ensures SumAmounts(s) == SumAmounts(s[..k] + s[k + 1..]) + s[k].amount
    decreases |s|
  {
    var n := |s|;
    if k < n - 1 {
      var init := s[..n - 1];
      SumAmountsRemove(init, k);
      assert init[..k] == s[..k];
      assert init[k + 1..] + [s[n - 1]] == s[k + 1..];
      var rest := s[..k] + s[k + 1..];
      assert rest[..|rest| - 1] == init[..k] + init[k + 1..];
      assert rest[|rest| - 1] == s[n - 1];
    } else {
      assert s[..k] + s[k + 1..] == s[..n - 1];
    }
  }

  // ---------------------------------------------------------------------
  // Screening
  // ---------------------------------------------------------------------

  /** Counts `r` of accepted bids and asks end on a pair that trades: none
      accepted, or the last accepted ask is not dearer than the last
      accepted bid. */
  predicate Crossing(buyers: seq<Offer>, sellers: seq<Offer>, r: (nat, nat))
    requires r.0 <= |buyers| && r.1 <= |sellers|
  {
    (r.0 == 0 && r.1 == 0) || (r.0 >= 1 && r.1 >= 1 && sellers[r.1 - 1].value <= buyers[r.0 - 1].value)
  }

  /** The screening walk only moves forward, and whatever it accepts ends
      in a bid/ask pair that still trades: the last accepted ask is not
      dearer than the last accepted bid. */
  lemma {:induction false} ScreenCrosses(buyers: seq<Offer>, sellers: seq<Offer>, s: nat, b: nat, last: Rescued)
    requires s <= |sellers| && b <= |buyers|
    requires last == Buy ==> s < |sellers| && b >= 1 && sellers[s].value <= buyers[b - 1].value
    requires last == Sell ==> b < |buyers| && s >= 1 && sellers[s - 1].value <= buyers[b].value
    requires last == Both ==>
      (s == 0 && b == 0) || (s >= 1 && b >= 1 && sellers[s - 1].value <= buyers[b - 1].value)
    ensures Screen(buyers, sellers, s, b, last).0 >= b
    ensures Screen(buyers, sellers, s, b, last).1 >= s
    ensures Crossing(buyers, sellers, Screen(buyers, sellers, s, b, last))
    decreases |sellers| - s + |buyers| - b
  {
    if s < |sellers| && b < |buyers| && sellers[s].value <= buyers[b].value {
      if buyers[b].amount < sellers[s].amount {
        ScreenCrosses(buyers, sellers, s, b + 1, Buy);
      } else if sellers[s].amount < buyers[b].amount {
        ScreenCrosses(buyers, sellers, s + 1, b, Sell);
      } else {
        ScreenCrosses(buyers, sellers, s + 1, b + 1, Both);
      }
    }
  }

  /** The walk accepts something exactly when the first ask is not dearer
      than the first bid, and then it accepts offers on both sides. */
  lemma {:induction false} ScreenStart(buyers: seq<Offer>, sellers: seq<Offer>)
    requires |buyers| > 0 && |sellers| > 0
    ensures Screen(buyers, sellers, 0, 0, Both).0 > 0 <==> sellers[0].value <= buyers[0].value
    ensures Screen(buyers, sellers, 0, 0, Both).1 > 0 <==> sellers[0].value <= buyers[0].value
    ensures Screen(buyers, sellers, 0, 0, Both).0 > 0 ==>
      sellers[Screen(buyers, sellers, 0, 0, Both).1 - 1].value <= buyers[Screen(buyers, sellers, 0, 0, Both).0 - 1].value
  {
    ScreenCrosses(buyers, sellers, 0, 0, Both);
    if sellers[0].value <= buyers[0].value {
      if buyers[0].amount < sellers[0].amount {
        ScreenCrosses(buyers, sellers, 0, 1, Buy);
      } else if sellers[0].amount < buyers[0].amount {
        ScreenCrosses(buyers, sellers, 1, 0, Sell);
      } else {
        ScreenCrosses(buyers, sellers, 1, 1, Both);
      }
    }
  }

  /** With no bids or no asks nothing is accepted. */
  lemma {:induction false} AcceptedOneSided(buys: seq<Offer>, sells: seq<Offer>)
    requires |buys| == 0 || |sells| == 0
    ensures Accepted(buys, sells) == ([], [])
    ensures AcceptedSorted(buys, sells) == ([], [])
  {
  }

  /** The screening accepts bids exactly when it accepts asks, and it
      accepts any exactly when the cheapest ask is not dearer than the
      dearest bid. */
  lemma {:induction false} AcceptedBothOrNeither(buys: seq<Offer>, sells: seq<Offer>)
    ensures (|Accepted(buys, sells).0| > 0) == (|Accepted(buys, sells).1| > 0)
    ensures |Accepted(buys, sells).0| > 0 <==>
      |buys| > 0 && |sells| > 0 && MinValue(sells) <= MaxValue(buys)
  {
    if |buys| > 0 && |sells| > 0 {
      CumsumShape(buys, sells, 0.0);
      var (buyers, sellers) := Cumsum(buys, sells, 0.0);
      ScreenStart(buyers, sellers);
    }
  }

  /** In the corrected screening every accepted bid is at least every
      accepted ask: the accepted offers all trade with each other. */
  lemma {:induction false} AcceptedSortedCrosses(buys: seq<Offer>, sells: seq<Offer>)
    ensures forall i, j :: 0 <= i < |AcceptedSorted(buys, sells).0| && 0 <= j < |AcceptedSorted(buys, sells).1| ==>
      AcceptedSorted(buys, sells).1[j].value <= AcceptedSorted(buys, sells).0[i].value
  {
    if |buys| > 0 && |sells| > 0 {
      var sortedBuys := SortDesc(buys, 0.0);
      var sortedSells := SortAsc(AbsAmounts(sells), 0.0);
      var buyers := Cumulate(sortedBuys);
      var sellers := Cumulate(sortedSells);
      var r := Screen(buyers, sellers, 0, 0, Both);
      assert forall i, j :: 0 <= i < r.0 && 0 <= j < r.1 ==> sellers[j].value <= buyers[i].value by {
        ScreenStart(buyers, sellers);
        CumsumShape(buys, sells, 0.0);
        SortedPrefixesCross(buyers, sellers, r.0, r.1);
      }
      var acc := AcceptedSorted(buys, sells);
      assert acc == (sortedBuys[..r.0], sortedSells[..r.1]) && r.0 <= |buyers| && r.1 <= |sellers| by {
        AcceptedSortedCounts(buys, sells);
      }
      CumulateKeepsOffers(sortedBuys);
      CumulateKeepsOffers(sortedSells);
      forall i, j | 0 <= i < |acc.0| && 0 <= j < |acc.1|
        ensures acc.1[j].value <= acc.0[i].value
      {
        assert acc.1[j].value == sellers[j].value && acc.0[i].value == buyers[i].value;
      }
    }
  }

  /** With bids and asks on both sides, the screening keeps as many offers
      as the walk over the cumulated sorted lists passes. */
  lemma {:induction false} AcceptedSortedCounts(buys: seq<Offer>, sells: seq<Offer>)
    requires |buys| > 0 && |sells| > 0
    ensures var r := Screen(Cumulate(SortDesc(buys, 0.0)), Cumulate(SortAsc(AbsAmounts(sells), 0.0)), 0, 0, Both);
      |Accepted(buys, sells).0| == r.0 && |Accepted(buys, sells).1| == r.1 &&
      AcceptedSorted(buys, sells) == (SortDesc(buys, 0.0)[..r.0], SortAsc(AbsAmounts(sells), 0.0)[..r.1])
  {
  }

  lemma {:induction false} SortedPrefixesCross(sortedBuys: seq<Offer>, sortedSells: seq<Offer>, nb: nat, ns: nat)
    requires Descending(sortedBuys) && Ascending(sortedSells)
    requires nb <= |sortedBuys| && ns <= |sortedSells|
    requires nb > 0 && ns > 0 ==> sortedSells[ns - 1].value <= sortedBuys[nb - 1].value
    ensures forall i, j :: 0 <= i < nb && 0 <= j < ns ==> sortedSells[j].value <= sortedBuys[i].value
  {
    forall i, j | 0 <= i < nb && 0 <= j < ns
      ensures sortedSells[j].value <= sortedBuys[i].value
    {
      assert sortedSells[j].value <= sortedSells[ns - 1].value;
      assert sortedBuys[nb - 1].value <= sortedBuys[i].value;
    }
  }

  /** When the caller already lists bids dearest first and asks cheapest
      first, `get_accepted_offers` as written and the corrected screening
      agree. */
  lemma {:induction false} AcceptedInSortedOrder(buys: seq<Offer>, sells: seq<Offer>)
    requires Descending(buys) && Ascending(sells)
    ensures Accepted(buys, sells) == AcceptedSorted(buys, sells)
  {
    SortDescStable(buys, 0.0);
    assert Ascending(AbsAmounts(sells));
    SortAscStable(AbsAmounts(sells), 0.0);
  }

  /** Two bids listed cheapest first and one ask between them. */
  const MisorderedBuys: seq<Offer> := [Offer("a", 100.0, 1.0), Offer("b", 100.0, 50.0)]
  const OneSell: seq<Offer> := [Offer("c", -100.0, 10.0)]

  lemma {:induction false} MisorderedSorts()
    ensures SortDesc(MisorderedBuys, 0.0) == [MisorderedBuys[1], MisorderedBuys[0]]
    ensures SortAsc(AbsAmounts(OneSell), 0.0) == [Offer("c", 100.0, 10.0)]
  {
    assert MisorderedBuys[1..] == [MisorderedBuys[1]];
    assert AbsAmounts(OneSell) == [Offer("c", 100.0, 10.0)];
  }

  lemma {:induction false} MisorderedWalk()
    ensures Screen(Cumulate([MisorderedBuys[1], MisorderedBuys[0]]),
                   Cumulate([Offer("c", 100.0, 10.0)]), 0, 0, Both) == (1, 1)
  {
    var sortedBuys := [MisorderedBuys[1], MisorderedBuys[0]];
    var sellers := [Offer("c", 100.0, 10.0)];
    assert sortedBuys[..1] == [MisorderedBuys[1]];
    assert sellers[..1] == sellers;
    assert SumAmounts([MisorderedBuys[1]]) == 100.0 by {
      assert [MisorderedBuys[1]][..0] == [];
    }
    assert SumAmounts(sellers) == 100.0 by {
      assert sellers[..0] == [];
    }
    assert Cumulate(sortedBuys)[0] == Offer("b", 100.0, 50.0);
    assert Cumulate(sellers)[0] == Offer("c", 100.0, 10.0);
  }

  /** `get_accepted_offers` as written: a bid listed before a dearer one is
      accepted in the dearer one's place, although it is below the ask;
      the corrected screening accepts the dearer bid. */
  lemma {:induction false} AcceptedCallerOrderCounterexample()
    ensures Accepted(MisorderedBuys, OneSell) == ([Offer("a", 100.0, 1.0)], [Offer("c", 100.0, 10.0)])
    ensures Offer("a", 100.0, 1.0).value < Offer("c", 100.0, 10.0).value
    ensures AcceptedSorted(MisorderedBuys, OneSell) == ([Offer("b", 100.0, 50.0)], [Offer("c", 100.0, 10.0)])
  {
    MisorderedSorts();
    MisorderedWalk();
    AcceptedSortedCounts(MisorderedBuys, OneSell);
    assert MisorderedBuys[..1] == [Offer("a", 100.0, 1.0)];
    assert [MisorderedBuys[1], MisorderedBuys[0]][..1] == [Offer("b", 100.0, 50.0)];
    assert AbsAmounts(OneSell)[..1] == [Offer("c", 100.0, 10.0)];
    assert SortAsc(AbsAmounts(OneSell), 0.0)[..1] == [Offer("c", 100.0, 10.0)];
    assert SortDesc(MisorderedBuys, 0.0)[..1] == [Offer("b", 100.0, 50.0)];
  }
}
