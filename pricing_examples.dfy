/** The sessions of the pricing library's own examples: three bids of
    500 kWh at 45, 40 and 35 against three asks, with the prices
    `compute_mmr`, `compute_sdr`, their pruned forms and
    `compute_crossing_value` give them. */
module PricingExamples {
  import opened Common
  import opened OfferOrder
  import opened PricingMechanisms
  import opened PricingProperties
  import opened PriceProperties

  const Bids: seq<Offer> := [Offer("1", 500.0, 45.0), Offer("2", 500.0, 40.0), Offer("3", 500.0, 35.0)]

  /** Asks below every bid, for the MMR. */
  const MmrAsks: seq<Offer> := [Offer("4", -500.0, 0.0), Offer("5", -600.0, 10.0), Offer("6", -500.0, 15.0)]
  /** The same asks with the dearest above every bid. */
  const MmrCrossAsks: seq<Offer> := [Offer("4", -500.0, 0.0), Offer("5", -600.0, 10.0), Offer("6", -500.0, 50.0)]

  /** Asks for the SDR: a supply of 1400 kWh against a demand of 1500 kWh. */
  const SdrAsks: seq<Offer> := [Offer("4", -500.0, 0.0), Offer("5", -400.0, 10.0), Offer("6", -500.0, 15.0)]
  const SdrCrossAsks: seq<Offer> := [Offer("4", -500.0, 0.0), Offer("5", -500.0, 10.0), Offer("6", -500.0, 50.0)]
  /** A supply of 2000 kWh, above the demand. */
  const ExcessAsks: seq<Offer> := [Offer("4", -500.0, 0.0), Offer("5", -500.0, 10.0), Offer("6", -1000.0, 15.0)]
  /** A supply of 1250 kWh, below the demand. */
  const DeficitAsks: seq<Offer> := [Offer("4", -500.0, 0.0), Offer("5", -500.0, 10.0), Offer("6", -250.0, 15.0)]

  /** The pool of `vanilla_crossing_value`'s example. */
  const PoolBids: seq<Offer> :=
    [Offer("1", 500.0, 45.0), Offer("2", 1000.0, 35.0), Offer("3", 1000.0, 25.0), Offer("4", 500.0, 15.0)]
  const PoolAsks: seq<Offer> := [Offer("5", -1000.0, 0.0), Offer("6", -1000.0, 10.0), Offer("7", -1000.0, 20.0)]

  /** The running totals of three offers. */
  lemma {:induction false} CumulateThree(a: Offer, b: Offer, c: Offer)
    ensures SumAmounts([a, b, c]) == a.amount + b.amount + c.amount
    ensures Cumulate([a, b, c]) ==
      [a.(amount := a.amount), b.(amount := a.amount + b.amount), c.(amount := a.amount + b.amount + c.amount)]
  {
    assert [a, b, c][..2] == [a, b];
    assert [a, b][..1] == [a];
    assert [a][..0] == [];
    assert SumAmounts([a]) == a.amount;
    assert SumAmounts([a, b]) == a.amount + b.amount;
    assert Cumulate([a]) == [a.(amount := a.amount)];
    assert Cumulate([a, b]) == [a.(amount := a.amount), b.(amount := a.amount + b.amount)];
  }

  /** The running totals of four offers. */
  lemma {:induction false} CumulateFour(a: Offer, b: Offer, c: Offer, d: Offer)
    ensures Cumulate([a, b, c, d]) ==
      [a.(amount := a.amount), b.(amount := a.amount + b.amount), c.(amount := a.amount + b.amount + c.amount),
       d.(amount := a.amount + b.amount + c.amount + d.amount)]
  {
    assert [a, b, c, d][..3] == [a, b, c];
    CumulateThree(a, b, c);
  }

  /** Bids listed dearest first and asks listed cheapest first are
      cumulated in the order given. */
  lemma {:induction false} CumsumInOrder(buys: seq<Offer>, sells: seq<Offer>, increment: real)
    requires |buys| > 0 && Descending(buys) && Ascending(sells)
    ensures Cumsum(buys, sells, increment) == (Cumulate(buys), Cumulate(AbsAmounts(sells)))
  {
    SortDescStable(buys, increment);
    assert Ascending(AbsAmounts(sells));
    SortAscStable(AbsAmounts(sells), increment);
  }

  /** The crossing walk over the example bids and the crossing asks. */
  lemma {:induction false} CrossAsksCross(asks: seq<Offer>, middle: real)
    requires asks == [Offer("4", -500.0, 0.0), Offer("5", -middle, 10.0), Offer("6", -500.0, 50.0)]
    requires 500.0 <= middle < 1000.0
    ensures CrossingValue(Bids, asks, DefaultIncrement) == 10.0
  {
    CumsumInOrder(Bids, asks, DefaultIncrement);
    assert AbsAmounts(asks) == [Offer("4", 500.0, 0.0), Offer("5", middle, 10.0), Offer("6", 500.0, 50.0)];
    CumulateThree(Bids[0], Bids[1], Bids[2]);
    CumulateThree(Offer("4", 500.0, 0.0), Offer("5", middle, 10.0), Offer("6", 500.0, 50.0));
    var (buyers, sellers) := Cumsum(Bids, asks, DefaultIncrement);
    assert sellers[1].amount == 500.0 + middle;
    assert CrossStep(buyers, sellers, 2, 2, 10.0) == 10.0;
    assert CrossStep(buyers, sellers, 1, 2, 10.0) == 10.0;
    assert CrossStep(buyers, sellers, 1, 1, 0.0) == 10.0;
    assert CrossStep(buyers, sellers, 0, 1, 0.0) == 10.0;
    assert CrossStep(buyers, sellers, 0, 0, 0.0) == 10.0;
  }

  /** `compute_mmr`: the mid-market rate (35 + 15) / 2 = 25, the
      intermediary rate (35 + 15) / 3 with divisor 3, and the crossing
      value 10 when the dearest ask is above the cheapest bid. */
  lemma {:induction false} MmrExamples()
    ensures Mmr(Bids, MmrAsks, 2.0) == Price(25.0)
    ensures Mmr(Bids, MmrAsks, 3.0) == Price(50.0 / 3.0)
    ensures Mmr(Bids, MmrCrossAsks, 2.0) == Price(10.0)
  {
    assert MinValue(Bids) == 35.0 by { assert Bids[2].value == 35.0; }
    assert MaxValue(MmrAsks) == 15.0 by { assert MmrAsks[2].value == 15.0; }
    assert MaxValue(MmrCrossAsks) == 50.0 by { assert MmrCrossAsks[2].value == 50.0; }
    CrossAsksCross(MmrCrossAsks, 600.0);
  }

  /** The closing formula of `compute_sdr` on the example bids: a supply of
      1400 kWh against 1500 kWh prices at 1575/101 (15.594) without
      compensation and at 2625/103 (25.485) with half the spread; a supply
      of 2000 kWh pays the dearest ask, 15; a supply of 1250 kWh prices at
      315/19 (16.579). */
  lemma {:induction false} SdrExamples()
    ensures Sdr(Bids, SdrAsks, 0.0) == Price(1575.0 / 101.0)
    ensures Sdr(Bids, SdrAsks, 0.5) == Price(2625.0 / 103.0)
    ensures Sdr(Bids, ExcessAsks, 0.0) == Price(15.0)
    ensures Sdr(Bids, DeficitAsks, 0.0) == Price(315.0 / 19.0)
    ensures Sdr(Bids, SdrCrossAsks, 0.0) == Price(10.0)
  {
    SdrClosingExample(SdrAsks, 1400.0, 0.0);
    SdrClosingExample(SdrAsks, 1400.0, 0.5);
    SdrClosingExample(ExcessAsks, 2000.0, 0.0);
    SdrClosingExample(DeficitAsks, 1250.0, 0.0);
    SdrFormulaValues();
    assert MinValue(Bids) == 35.0 by { assert Bids[2].value == 35.0; }
    assert MaxValue(SdrCrossAsks) == 50.0 by { assert SdrCrossAsks[2].value == 50.0; }
    CrossAsksCross(SdrCrossAsks, 500.0);
  }

  /** The closing formula for a demand of 1500 kWh, the cheapest bid at
      35 and the dearest ask at 15. */
  lemma {:induction false} SdrFormulaValues()
    ensures SdrFormula(1400.0, 1500.0, 35.0, 15.0, 0.0) == Price(1575.0 / 101.0)
    ensures SdrFormula(1400.0, 1500.0, 35.0, 15.0, 0.5) == Price(2625.0 / 103.0)
    ensures SdrFormula(2000.0, 1500.0, 35.0, 15.0, 0.0) == Price(15.0)
    ensures SdrFormula(1250.0, 1500.0, 35.0, 15.0, 0.0) == Price(315.0 / 19.0)
  {
    assert 1400.0 / 1500.0 == 14.0 / 15.0;
    SdrFormulaDeficit(1400.0, 1500.0, 35.0, 15.0, 0.0, 0.0, 14.0 / 15.0);
    assert (35.0 * 15.0) / (20.0 * (14.0 / 15.0) + 15.0) == 1575.0 / 101.0;
    SdrFormulaDeficit(1400.0, 1500.0, 35.0, 15.0, 0.5, 10.0, 14.0 / 15.0);
    assert (35.0 * 25.0) / (10.0 * (14.0 / 15.0) + 25.0) == 2625.0 / 103.0;
    assert 2000.0 / 1500.0 == 4.0 / 3.0;
    SdrFormulaSurplus(2000.0, 1500.0, 35.0, 15.0, 0.0, 0.0);
    assert 0.0 / (4.0 / 3.0) == 0.0;
    assert 1250.0 / 1500.0 == 5.0 / 6.0;
    SdrFormulaDeficit(1250.0, 1500.0, 35.0, 15.0, 0.0, 0.0, 5.0 / 6.0);
    assert (35.0 * 15.0) / (20.0 * (5.0 / 6.0) + 15.0) == 315.0 / 19.0;
  }

  /** One closing-formula session on the example bids: asks at 0, 10 and
      15 with the given supply. */
  lemma {:induction false} SdrClosingExample(asks: seq<Offer>, supply: real, compensation: real)
    requires |asks| == 3 && asks[0].value == 0.0 && asks[1].value == 10.0 && asks[2].value == 15.0
    requires Abs(asks[0].amount) + Abs(asks[1].amount) + Abs(asks[2].amount) == supply
    requires 0.0 <= compensation <= 1.0
    ensures Sdr(Bids, asks, compensation) == SdrFormula(supply, 1500.0, 35.0, 15.0, compensation)
  {
    assert MinValue(Bids) == 35.0 by { assert Bids[2].value == 35.0; }
    assert SumAmounts(Bids) == 1500.0 by { CumulateThree(Bids[0], Bids[1], Bids[2]); }
    assert MaxValue(asks) == 15.0 by { LastIsMax(asks); }
    assert SumAmounts(AbsAmounts(asks)) == supply by {
      var abs := AbsAmounts(asks);
      assert abs == [abs[0], abs[1], abs[2]];
      CumulateThree(abs[0], abs[1], abs[2]);
    }
    SdrNoCross(Bids, asks, compensation);
  }

  /** Three offers whose last is the dearest. */
  lemma {:induction false} LastIsMax(s: seq<Offer>)
    requires |s| == 3 && s[0].value <= s[2].value && s[1].value <= s[2].value
    ensures MaxValue(s) == s[2].value
  {
    var i :| 0 <= i < |s| && MaxValue(s) == s[i].value;
  }

  /** The screening walk over the example bids and the crossing asks:
      the bid and ask at 500 kWh clear together, the bid at 40 is rescued
      by the ask at 10, which the bid at 35 rescues in turn, and the ask at
      50 stops the walk. */
  lemma {:induction false} PrunedMmrWalk()
    ensures Accepted(Bids, MmrCrossAsks) == (Bids, AbsAmounts(MmrCrossAsks)[..2])
  {
    CumsumInOrder(Bids, MmrCrossAsks, 0.0);
    var abs := AbsAmounts(MmrCrossAsks);
    assert abs == [Offer("4", 500.0, 0.0), Offer("5", 600.0, 10.0), Offer("6", 500.0, 50.0)];
    CumulateThree(Bids[0], Bids[1], Bids[2]);
    CumulateThree(abs[0], abs[1], abs[2]);
    var (buyers, sellers) := Cumsum(Bids, MmrCrossAsks, 0.0);
    assert Screen(buyers, sellers, 2, 2, Sell) == (3, 2);
    assert Screen(buyers, sellers, 1, 2, Buy) == (3, 2);
    assert Screen(buyers, sellers, 1, 1, Both) == (3, 2);
    assert Screen(buyers, sellers, 0, 0, Both) == (3, 2);
    assert Bids[..3] == Bids;
  }

  /** `compute_pruned_mmr` as written on the crossing asks: the screening
      keeps the three bids and the asks at 0 and 10, which no longer
      cross, so the pruned rate is (35 + 10) / 2 = 22.5. */
  lemma {:induction false} PrunedMmrExample()
    ensures Accepted(Bids, MmrCrossAsks) == (Bids, AbsAmounts(MmrCrossAsks)[..2])
    ensures PrunedMmr(Bids, MmrCrossAsks, 2.0) == Price(22.5)
  {
    PrunedMmrWalk();
    var kept := AbsAmounts(MmrCrossAsks)[..2];
    assert kept == [Offer("4", 500.0, 0.0), Offer("5", 600.0, 10.0)];
    assert MaxValue(kept) == 10.0 by { assert kept[1].value == 10.0; }
    assert MinValue(Bids) == 35.0 by { assert Bids[2].value == 35.0; }
  }

  /** The screening walk over the example bids and the SDR asks accepts
      every offer: the last ask is rescued by the bid at 35, and the walk
      ends rescuing that bid. */
  lemma {:induction false} PrunedSdrWalk()
    ensures Accepted(Bids, SdrAsks) == (Bids, AbsAmounts(SdrAsks))
  {
    CumsumInOrder(Bids, SdrAsks, 0.0);
    var abs := AbsAmounts(SdrAsks);
    assert abs == [Offer("4", 500.0, 0.0), Offer("5", 400.0, 10.0), Offer("6", 500.0, 15.0)];
    CumulateThree(Bids[0], Bids[1], Bids[2]);
    CumulateThree(abs[0], abs[1], abs[2]);
    var (buyers, sellers) := Cumsum(Bids, SdrAsks, 0.0);
    assert Screen(buyers, sellers, 3, 2, Sell) == (3, 3);
    assert Screen(buyers, sellers, 2, 2, Buy) == (3, 3);
    assert Screen(buyers, sellers, 2, 1, Sell) == (3, 3);
    assert Screen(buyers, sellers, 1, 1, Both) == (3, 3);
    assert Screen(buyers, sellers, 0, 0, Both) == (3, 3);
    assert Bids[..3] == Bids && abs[..3] == abs;
  }

  /** `compute_pruned_sdr` as written on the SDR asks: every offer is
      accepted, so the pruned SDR is the SDR, 1575/101 (15.594) without
      compensation and 2625/103 (25.485) with half the spread. */
  lemma {:induction false} PrunedSdrExample()
    ensures PrunedSdr(Bids, SdrAsks, 0.0) == Price(1575.0 / 101.0)
    ensures PrunedSdr(Bids, SdrAsks, 0.5) == Price(2625.0 / 103.0)
  {
    PrunedSdrWalk();
    SdrClosingExample(AbsAmounts(SdrAsks), 1400.0, 0.0);
    SdrClosingExample(AbsAmounts(SdrAsks), 1400.0, 0.5);
    SdrFormulaValues();
  }

  /** `vanilla_crossing_value` without increment: the walk passes the asks
      at 0 and 10 and settles on the ask at 20. */
  lemma {:induction false} CrossingValueExample()
    ensures CrossingValue(PoolBids, PoolAsks, 0.0) == 20.0
  {
    CumsumInOrder(PoolBids, PoolAsks, 0.0);
    var abs := AbsAmounts(PoolAsks);
    assert abs == [Offer("5", 1000.0, 0.0), Offer("6", 1000.0, 10.0), Offer("7", 1000.0, 20.0)];
    CumulateFour(PoolBids[0], PoolBids[1], PoolBids[2], PoolBids[3]);
    CumulateThree(abs[0], abs[1], abs[2]);
  }

  /** The price vectors of the convergence test: the last session moves by
      0.2, or by 0.0000000001. */
  const OldPrices: seq<real> := [0.1, 0.2, 0.3, 0.4, 0.5]
  const ContinuePrices: seq<real> := [0.1, 0.2, 0.3, 0.4, 0.7]
  const StopPrices: seq<real> := [0.1, 0.2, 0.3, 0.4, 0.5000000001]

  /** `stop_criterion` on the test's vectors: a move of 0.2 goes on with the
      distance 0.2 (squared 0.04); a move of 0.0000000001 stops, with a
      distance that rounds to 0.000. */
  lemma {:induction false} StopCriterionExample()
    ensures StopCriterion(OldPrices, ContinuePrices) == (false, 0.04)
    ensures StopCriterion(OldPrices, StopPrices) == (true, 0.0000000001 * 0.0000000001)
  {
    var same := OldPrices[..4];
    assert ContinuePrices[..4] == same && StopPrices[..4] == same;
    SquaredDistanceSelf(same);
    assert SquaredDistance(OldPrices, ContinuePrices) == SquaredDistance(same, same) + (0.5 - 0.7) * (0.5 - 0.7);
    assert SquaredDistance(OldPrices, StopPrices) == SquaredDistance(same, same) + (0.5 - 0.5000000001) * (0.5 - 0.5000000001);
  }
}
