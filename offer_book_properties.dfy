/** What `make_offers` promises about the offers it builds. */
module OfferBookProperties {
  import opened Common
  import opened PricingHelpers

  /** The outcome is an error exactly when some series is not one entry per
      session, and the market tariffs are checked first; otherwise there is
      one buy list and one sell list per session. */
  lemma {:induction false} OfferBookShape(meters: Meters, n: int, lMarketBuy: seq<real>, lMarketSell: seq<real>)
    ensures OfferBook(meters, n, lMarketBuy, lMarketSell).Ok? <==>
      (|lMarketBuy| == n && |lMarketSell| == n && Shaped(meters, n))
    ensures |lMarketBuy| != n ==> OfferBook(meters, n, lMarketBuy, lMarketSell) == Err(MarketBuyLength)
    ensures |lMarketBuy| == n && |lMarketSell| != n ==>
      OfferBook(meters, n, lMarketBuy, lMarketSell) == Err(MarketSellLength)
    ensures OfferBook(meters, n, lMarketBuy, lMarketSell).Ok? ==>
      |OfferBook(meters, n, lMarketBuy, lMarketSell).value.0| == n &&
      |OfferBook(meters, n, lMarketBuy, lMarketSell).value.1| == n
  {
  }

  /** A session's buy list holds exactly the consuming meters' offers: each
      for the meter's net load, at the lower of its retail cost and the
      market tariff. */
  lemma {:induction false} SessionBuysMembers(meters: Meters, t: int, lMarketBuy: seq<real>)
    requires Shaped(meters, |lMarketBuy|) && 0 <= t < |lMarketBuy|
    ensures forall o :: o in SessionBuys(meters, t, lMarketBuy) <==>
      exists k :: 0 <= k < |meters| && meters[k].0 == o.origin && meters[k].1.eMet[t] > 0.0 &&
        o.amount == meters[k].1.eMet[t] && o.value == Min(meters[k].1.lBuy[t], lMarketBuy[t])
  {
    if |meters| > 0 {
      var prefix := meters[..|meters| - 1];
      SessionBuysMembers(prefix, t, lMarketBuy);
      forall o
        ensures o in SessionBuys(meters, t, lMarketBuy) <==>
          exists k :: 0 <= k < |meters| && meters[k].0 == o.origin && meters[k].1.eMet[t] > 0.0 &&
            o.amount == meters[k].1.eMet[t] && o.value == Min(meters[k].1.lBuy[t], lMarketBuy[t])
      {
        SessionBuysStep(meters, prefix, t, lMarketBuy, o);
      }
    }
  }

  /** One meter more: `o` is in the longer list exactly when it is in the
      shorter one or is the new meter's offer. */
  lemma SessionBuysStep(meters: Meters, prefix: Meters, t: int, lMarketBuy: seq<real>, o: Offer)
    requires Shaped(meters, |lMarketBuy|) && 0 <= t < |lMarketBuy| && |meters| > 0
    requires prefix == meters[..|meters| - 1] && Shaped(prefix, |lMarketBuy|)
    requires o in SessionBuys(prefix, t, lMarketBuy) <==>
      exists k :: 0 <= k < |prefix| && prefix[k].0 == o.origin && prefix[k].1.eMet[t] > 0.0 &&
        o.amount == prefix[k].1.eMet[t] && o.value == Min(prefix[k].1.lBuy[t], lMarketBuy[t])
    ensures o in SessionBuys(meters, t, lMarketBuy) <==>
      exists k :: 0 <= k < |meters| && meters[k].0 == o.origin && meters[k].1.eMet[t] > 0.0 &&
        o.amount == meters[k].1.eMet[t] && o.value == Min(meters[k].1.lBuy[t], lMarketBuy[t])
  {
    var last := meters[|meters| - 1];
    var own := OptionSeq(BuyOffer(last.0, last.1, t, lMarketBuy));
    assert SessionBuys(meters, t, lMarketBuy) == SessionBuys(prefix, t, lMarketBuy) + own;
    if o in SessionBuys(prefix, t, lMarketBuy) {
      var k :| 0 <= k < |prefix| && prefix[k].0 == o.origin && prefix[k].1.eMet[t] > 0.0 &&
        o.amount == prefix[k].1.eMet[t] && o.value == Min(prefix[k].1.lBuy[t], lMarketBuy[t]);
      assert meters[k] == prefix[k];
    }
    if o in own {
      var offer := BuyOffer(last.0, last.1, t, lMarketBuy);
      assert offer.Some? && o == offer.value;
      var k := |meters| - 1;
      assert meters[k].0 == o.origin && meters[k].1.eMet[t] > 0.0 &&
        o.amount == meters[k].1.eMet[t] && o.value == Min(meters[k].1.lBuy[t], lMarketBuy[t]);
    }
    if exists k :: 0 <= k < |meters| && meters[k].0 == o.origin && meters[k].1.eMet[t] > 0.0 &&
        o.amount == meters[k].1.eMet[t] && o.value == Min(meters[k].1.lBuy[t], lMarketBuy[t]) {
      var k :| 0 <= k < |meters| && meters[k].0 == o.origin && meters[k].1.eMet[t] > 0.0 &&
        o.amount == meters[k].1.eMet[t] && o.value == Min(meters[k].1.lBuy[t], lMarketBuy[t]);
      if k < |meters| - 1 {
        assert prefix[k] == meters[k];
      } else {
        assert o == Offer(last.0, last.1.eMet[t], Min(last.1.lBuy[t], lMarketBuy[t]));
      }
    }
  }


  /** A session's sell list holds exactly the injecting meters' offers: each
      for the size of the meter's injection, at the higher of its retail
      selling cost and the market tariff. */
  lemma {:induction false} SessionSellsMembers(meters: Meters, t: int, lMarketSell: seq<real>)
    requires Shaped(meters, |lMarketSell|) && 0 <= t < |lMarketSell|
    ensures forall o :: o in SessionSells(meters, t, lMarketSell) <==>
      exists k :: 0 <= k < |meters| && meters[k].0 == o.origin && meters[k].1.eMet[t] < 0.0 &&
        o.amount == -meters[k].1.eMet[t] && o.value == Max(meters[k].1.lSell[t], lMarketSell[t])
  {
    if |meters| > 0 {
      var prefix := meters[..|meters| - 1];
      SessionSellsMembers(prefix, t, lMarketSell);
      forall o
        ensures o in SessionSells(meters, t, lMarketSell) <==>
          exists k :: 0 <= k < |meters| && meters[k].0 == o.origin && meters[k].1.eMet[t] < 0.0 &&
            o.amount == -meters[k].1.eMet[t] && o.value == Max(meters[k].1.lSell[t], lMarketSell[t])
      {
        SessionSellsStep(meters, prefix, t, lMarketSell, o);
      }
    }
  }

  /** One meter more: `o` is in the longer list exactly when it is in the
      shorter one or is the new meter's offer. */
  lemma SessionSellsStep(meters: Meters, prefix: Meters, t: int, lMarketSell: seq<real>, o: Offer)
    requires Shaped(meters, |lMarketSell|) && 0 <= t < |lMarketSell| && |meters| > 0
    requires prefix == meters[..|meters| - 1] && Shaped(prefix, |lMarketSell|)
    requires o in SessionSells(prefix, t, lMarketSell) <==>
      exists k :: 0 <= k < |prefix| && prefix[k].0 == o.origin && prefix[k].1.eMet[t] < 0.0 &&
        o.amount == -prefix[k].1.eMet[t] && o.value == Max(prefix[k].1.lSell[t], lMarketSell[t])
    ensures o in SessionSells(meters, t, lMarketSell) <==>
      exists k :: 0 <= k < |meters| && meters[k].0 == o.origin && meters[k].1.eMet[t] < 0.0 &&
        o.amount == -meters[k].1.eMet[t] && o.value == Max(meters[k].1.lSell[t], lMarketSell[t])
  {
    var last := meters[|meters| - 1];
    var own := OptionSeq(SellOffer(last.0, last.1, t, lMarketSell));
    assert SessionSells(meters, t, lMarketSell) == SessionSells(prefix, t, lMarketSell) + own;
    if o in SessionSells(prefix, t, lMarketSell) {
      var k :| 0 <= k < |prefix| && prefix[k].0 == o.origin && prefix[k].1.eMet[t] < 0.0 &&
        o.amount == -prefix[k].1.eMet[t] && o.value == Max(prefix[k].1.lSell[t], lMarketSell[t]);
      assert meters[k] == prefix[k];
    }
    if o in own {
      var offer := SellOffer(last.0, last.1, t, lMarketSell);
      assert offer.Some? && o == offer.value;
      var k := |meters| - 1;
      assert meters[k].0 == o.origin && meters[k].1.eMet[t] < 0.0 &&
        o.amount == -meters[k].1.eMet[t] && o.value == Max(meters[k].1.lSell[t], lMarketSell[t]);
    }
    if exists k :: 0 <= k < |meters| && meters[k].0 == o.origin && meters[k].1.eMet[t] < 0.0 &&
        o.amount == -meters[k].1.eMet[t] && o.value == Max(meters[k].1.lSell[t], lMarketSell[t]) {
      var k :| 0 <= k < |meters| && meters[k].0 == o.origin && meters[k].1.eMet[t] < 0.0 &&
        o.amount == -meters[k].1.eMet[t] && o.value == Max(meters[k].1.lSell[t], lMarketSell[t]);
      if k < |meters| - 1 {
        assert prefix[k] == meters[k];
      } else {
        assert o == Offer(last.0, Abs(last.1.eMet[t]), Max(last.1.lSell[t], lMarketSell[t]));
      }
    }
  }


  /** Every offer is for a strictly positive amount of energy. */
  lemma {:induction false} OfferAmountsPositive(meters: Meters, t: int, lMarketBuy: seq<real>, lMarketSell: seq<real>)
    requires |lMarketBuy| == |lMarketSell| && Shaped(meters, |lMarketBuy|) && 0 <= t < |lMarketBuy|
    ensures forall o :: o in SessionBuys(meters, t, lMarketBuy) ==> o.amount > 0.0
    ensures forall o :: o in SessionSells(meters, t, lMarketSell) ==> o.amount > 0.0
  {
    SessionBuysMembers(meters, t, lMarketBuy);
    SessionSellsMembers(meters, t, lMarketSell);
  }

  /** A meter whose net load is zero in a session makes no offer in it. */
  lemma {:induction false} IdleMeterOffersNothing(meters: Meters, t: int, lMarketBuy: seq<real>, lMarketSell: seq<real>, k: int)
    requires |lMarketBuy| == |lMarketSell| && Shaped(meters, |lMarketBuy|) && 0 <= t < |lMarketBuy|
    requires DistinctIds(meters)
    requires 0 <= k < |meters| && meters[k].1.eMet[t] == 0.0
    ensures forall o :: o in SessionBuys(meters, t, lMarketBuy) ==> o.origin != meters[k].0
    ensures forall o :: o in SessionSells(meters, t, lMarketSell) ==> o.origin != meters[k].0
  {
    SessionBuysMembers(meters, t, lMarketBuy);
    SessionSellsMembers(meters, t, lMarketSell);
  }

  /** With one entry per meter, no meter appears twice among a session's
      buy offers. */
  lemma {:induction false} OneBuyPerMeter(meters: Meters, t: int, lMarketBuy: seq<real>)
    requires Shaped(meters, |lMarketBuy|) && 0 <= t < |lMarketBuy|
    requires DistinctIds(meters)
    ensures forall i, j :: 0 <= i < j < |SessionBuys(meters, t, lMarketBuy)| ==>
      SessionBuys(meters, t, lMarketBuy)[i].origin != SessionBuys(meters, t, lMarketBuy)[j].origin
  {
    if |meters| > 0 {
      var prefix := meters[..|meters| - 1];
      var last := meters[|meters| - 1];
      assert DistinctIds(prefix);
      OneBuyPerMeter(prefix, t, lMarketBuy);
      SessionBuysMembers(prefix, t, lMarketBuy);
      var buys := SessionBuys(meters, t, lMarketBuy);
      var earlier := SessionBuys(prefix, t, lMarketBuy);
      assert buys == earlier + OptionSeq(BuyOffer(last.0, last.1, t, lMarketBuy));
      forall i, j | 0 <= i < j < |buys|
        ensures buys[i].origin != buys[j].origin
      {
        if j >= |earlier| {
          assert buys[j].origin == last.0;
          assert buys[i] in earlier;
          var k :| 0 <= k < |prefix| && prefix[k].0 == buys[i].origin && prefix[k].1.eMet[t] > 0.0 &&
            buys[i].amount == prefix[k].1.eMet[t] && buys[i].value == Min(prefix[k].1.lBuy[t], lMarketBuy[t]);
          assert prefix[k] == meters[k];
        } else {
          assert buys[i] == earlier[i] && buys[j] == earlier[j];
        }
      }
    }
  }

  /** With one entry per meter, no meter appears twice among a session's
      sell offers. */
  lemma {:induction false} OneSellPerMeter(meters: Meters, t: int, lMarketSell: seq<real>)
    requires Shaped(meters, |lMarketSell|) && 0 <= t < |lMarketSell|
    requires DistinctIds(meters)
    ensures forall i, j :: 0 <= i < j < |SessionSells(meters, t, lMarketSell)| ==>
      SessionSells(meters, t, lMarketSell)[i].origin != SessionSells(meters, t, lMarketSell)[j].origin
  {
    if |meters| > 0 {
      var prefix := meters[..|meters| - 1];
      var last := meters[|meters| - 1];
      assert DistinctIds(prefix);
      OneSellPerMeter(prefix, t, lMarketSell);
      SessionSellsMembers(prefix, t, lMarketSell);
      var sells := SessionSells(meters, t, lMarketSell);
      var earlier := SessionSells(prefix, t, lMarketSell);
      assert sells == earlier + OptionSeq(SellOffer(last.0, last.1, t, lMarketSell));
      forall i, j | 0 <= i < j < |sells|
        ensures sells[i].origin != sells[j].origin
      {
        if j >= |earlier| {
          assert sells[j].origin == last.0;
          assert sells[i] in earlier;
          var k :| 0 <= k < |prefix| && prefix[k].0 == sells[i].origin && prefix[k].1.eMet[t] < 0.0 &&
            sells[i].amount == -prefix[k].1.eMet[t] && sells[i].value == Max(prefix[k].1.lSell[t], lMarketSell[t]);
          assert prefix[k] == meters[k];
        } else {
          assert sells[i] == earlier[i] && sells[j] == earlier[j];
        }
      }
    }
  }

  /** A buy offer comes from a meter that consumes in that session. */
  lemma {:induction false} BuyerConsumes(meters: Meters, t: int, lMarketBuy: seq<real>, o: Offer) returns (k: int)
    requires Shaped(meters, |lMarketBuy|) && 0 <= t < |lMarketBuy|
    requires o in SessionBuys(meters, t, lMarketBuy)
    ensures 0 <= k < |meters| && meters[k].0 == o.origin && meters[k].1.eMet[t] > 0.0
  {
    SessionBuysMembers(meters, t, lMarketBuy);
    k :| 0 <= k < |meters| && meters[k].0 == o.origin && meters[k].1.eMet[t] > 0.0 &&
      o.amount == meters[k].1.eMet[t] && o.value == Min(meters[k].1.lBuy[t], lMarketBuy[t]);
  }

  /** A sell offer comes from a meter that injects in that session. */
  lemma {:induction false} SellerInjects(meters: Meters, t: int, lMarketSell: seq<real>, o: Offer) returns (k: int)
    requires Shaped(meters, |lMarketSell|) && 0 <= t < |lMarketSell|
    requires o in SessionSells(meters, t, lMarketSell)
    ensures 0 <= k < |meters| && meters[k].0 == o.origin && meters[k].1.eMet[t] < 0.0
  {
    SessionSellsMembers(meters, t, lMarketSell);
    k :| 0 <= k < |meters| && meters[k].0 == o.origin && meters[k].1.eMet[t] < 0.0 &&
      o.amount == -meters[k].1.eMet[t] && o.value == Max(meters[k].1.lSell[t], lMarketSell[t]);
  }

  /** With one entry per meter, no meter both buys and sells in the same
      session. */
  lemma {:induction false} OneSidePerMeter(meters: Meters, t: int, lMarketBuy: seq<real>, lMarketSell: seq<real>)
    requires |lMarketBuy| == |lMarketSell| && Shaped(meters, |lMarketBuy|) && 0 <= t < |lMarketBuy|
    requires DistinctIds(meters)
    ensures forall b, s :: b in SessionBuys(meters, t, lMarketBuy) && s in SessionSells(meters, t, lMarketSell) ==>
      b.origin != s.origin
  {
    forall b, s | b in SessionBuys(meters, t, lMarketBuy) && s in SessionSells(meters, t, lMarketSell)
      ensures b.origin != s.origin
    {
      var i := BuyerConsumes(meters, t, lMarketBuy, b);
      var j := SellerInjects(meters, t, lMarketSell, s);
      assert i != j;
    }
  }

  /** Two meters over four sessions: Meter#1 sells, buys, idles and buys;
      Meter#2 buys, sells, idles and buys. */
  const ExampleMeters: Meters := [
    ("Meter#1", MeterData([-1.0, 1.0, 0.0, 1.0], [1.9, 1.9, 1.9, 1.5], [1.1, 1.1, 1.1, 1.2])),
    ("Meter#2", MeterData([1.0, -1.0, 0.0, 1.0], [3.0, 3.0, 3.0, 1.4], [0.0, 0.0, 0.0, 1.3]))
  ]

  /** In the two-meter scenario a session holds Meter#1's offer followed by
      Meter#2's. */
  lemma {:induction false} ExampleSessions(t: int, lMarketBuy: seq<real>, lMarketSell: seq<real>)
    requires |lMarketBuy| == 4 && |lMarketSell| == 4 && 0 <= t < 4
    ensures SessionBuys(ExampleMeters, t, lMarketBuy) ==
      OptionSeq(BuyOffer(ExampleMeters[0].0, ExampleMeters[0].1, t, lMarketBuy)) +
      OptionSeq(BuyOffer(ExampleMeters[1].0, ExampleMeters[1].1, t, lMarketBuy))
    ensures SessionSells(ExampleMeters, t, lMarketSell) ==
      OptionSeq(SellOffer(ExampleMeters[0].0, ExampleMeters[0].1, t, lMarketSell)) +
      OptionSeq(SellOffer(ExampleMeters[1].0, ExampleMeters[1].1, t, lMarketSell))
  {
    var first := ExampleMeters[..1];
    assert first[..0] == [] && first[0] == ExampleMeters[0];
    assert ExampleMeters[..2 - 1] == first;
    assert SessionBuys(first, t, lMarketBuy) ==
      OptionSeq(BuyOffer(ExampleMeters[0].0, ExampleMeters[0].1, t, lMarketBuy));
    assert SessionSells(first, t, lMarketSell) ==
      OptionSeq(SellOffer(ExampleMeters[0].0, ExampleMeters[0].1, t, lMarketSell));
  }

  /** The buy lists of the two-meter scenario against a flat market tariff
      of 2.0. */
  lemma {:induction false} ExampleBuys()
    ensures seq(4, t requires 0 <= t < 4 => SessionBuys(ExampleMeters, t, [2.0, 2.0, 2.0, 2.0])) ==
      [[Offer("Meter#2", 1.0, 2.0)],
       [Offer("Meter#1", 1.0, 1.9)],
       [],
       [Offer("Meter#1", 1.0, 1.5), Offer("Meter#2", 1.0, 1.4)]]
  {
    var lMarketBuy := [2.0, 2.0, 2.0, 2.0];
    var buys := seq(4, t requires 0 <= t < 4 => SessionBuys(ExampleMeters, t, lMarketBuy));
    ExampleSessions(0, lMarketBuy, lMarketBuy);
    ExampleSessions(1, lMarketBuy, lMarketBuy);
    ExampleSessions(2, lMarketBuy, lMarketBuy);
    ExampleSessions(3, lMarketBuy, lMarketBuy);
    assert buys[0] == [Offer("Meter#2", 1.0, 2.0)];
    assert buys[1] == [Offer("Meter#1", 1.0, 1.9)];
    assert buys[2] == [];
    assert buys[3] == [Offer("Meter#1", 1.0, 1.5), Offer("Meter#2", 1.0, 1.4)];
    FourSessions(buys, buys[0], buys[1], buys[2], buys[3]);
  }

  /** The sell lists of the two-meter scenario against a flat market tariff
      of 1.0. */
  lemma {:induction false} ExampleSells()
    ensures seq(4, t requires 0 <= t < 4 => SessionSells(ExampleMeters, t, [1.0, 1.0, 1.0, 1.0])) ==
      [[Offer("Meter#1", 1.0, 1.1)], [Offer("Meter#2", 1.0, 1.0)], [], []]
  {
    var lMarketSell := [1.0, 1.0, 1.0, 1.0];
    var sells := seq(4, t requires 0 <= t < 4 => SessionSells(ExampleMeters, t, lMarketSell));
    ExampleSessions(0, lMarketSell, lMarketSell);
    ExampleSessions(1, lMarketSell, lMarketSell);
    ExampleSessions(2, lMarketSell, lMarketSell);
    ExampleSessions(3, lMarketSell, lMarketSell);
    assert sells[0] == [Offer("Meter#1", 1.0, 1.1)];
    assert sells[1] == [Offer("Meter#2", 1.0, 1.0)];
    assert sells[2] == [] && sells[3] == [];
    FourSessions(sells, sells[0], sells[1], sells[2], sells[3]);
  }

  lemma FourSessions(s: seq<seq<Offer>>, a: seq<Offer>, b: seq<Offer>, c: seq<Offer>, d: seq<Offer>)
    requires |s| == 4 && s[0] == a && s[1] == b && s[2] == c && s[3] == d
    ensures s == [a, b, c, d]
  {
  }

  /** The two-meter scenario: buys at the cheaper of retail and market
      (2.0 against 3.0, 1.9, 1.5 and 1.4), sells at the dearer (1.1 against
      1.0, and 1.0 against 0.0), nothing in the idle session, and both
      meters' buys in meter order in the last session. */
  lemma {:induction false} ExampleOfferBook()
    ensures OfferBook(ExampleMeters, 4, [2.0, 2.0, 2.0, 2.0], [1.0, 1.0, 1.0, 1.0]) ==
      Ok(([[Offer("Meter#2", 1.0, 2.0)],
           [Offer("Meter#1", 1.0, 1.9)],
           [],
           [Offer("Meter#1", 1.0, 1.5), Offer("Meter#2", 1.0, 1.4)]],
          [[Offer("Meter#1", 1.0, 1.1)],
           [Offer("Meter#2", 1.0, 1.0)],
           [],
           []]))
  {
    assert ShapeCheck(ExampleMeters, 4, [2.0, 2.0, 2.0, 2.0], [1.0, 1.0, 1.0, 1.0]) == None by {
      assert ExampleMeters[1..][1..] == [];
    }
    ExampleBuys();
    ExampleSells();
  }
}
