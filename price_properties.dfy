/** Where the session prices land: the crossing value, the MMR, the SDR and
    their pruned forms, relative to the bids and asks they are computed
    from; and what the convergence test's distance measures. */
module PriceProperties {
  import opened Common
  import opened OfferOrder
  import opened PricingMechanisms
  import opened PricingProperties

  // ---------------------------------------------------------------------
  // Crossing value
  // ---------------------------------------------------------------------

  /** Every step of the crossing walk keeps the price between the least ask
      `lo` and the greater of `lo` and the dearest bid `hi`. */
  lemma {:induction false} CrossStepBounds(buyers: seq<Offer>, sellers: seq<Offer>, s: nat, b: nat,
                                           last: real, lo: real, hi: real)
    requires s < |sellers| && b < |buyers|
    requires forall k :: 0 <= k < |sellers| ==> lo <= sellers[k].value
    requires forall k :: 0 <= k < |buyers| ==> buyers[k].value <= hi
    requires lo <= last <= Max(hi, lo)
    ensures lo <= CrossStep(buyers, sellers, s, b, last) <= Max(hi, lo)
    decreases |sellers| - s + |buyers| - b
  {
    if sellers[s].value < buyers[b].value {
      if buyers[b].amount > sellers[s].amount {
        if s + 1 < |sellers| {
          CrossStepBounds(buyers, sellers, s + 1, b, sellers[s].value, lo, hi);
        }
      } else if b + 1 < |buyers| {
        CrossStepBounds(buyers, sellers, s, b + 1, sellers[s].value, lo, hi);
      }
    }
  }

  /** The crossing walk only ever reports a price some offer made. */
  lemma {:induction false} CrossStepOffered(buyers: seq<Offer>, sellers: seq<Offer>, s: nat, b: nat, last: real)
    requires s < |sellers| && b < |buyers|
    requires exists k :: 0 <= k < |sellers| && sellers[k].value == last
    ensures (exists k :: 0 <= k < |sellers| && sellers[k].value == CrossStep(buyers, sellers, s, b, last)) ||
            (exists k :: 0 <= k < |buyers| && buyers[k].value == CrossStep(buyers, sellers, s, b, last))
    decreases |sellers| - s + |buyers| - b
  {
    if sellers[s].value < buyers[b].value {
      if buyers[b].amount > sellers[s].amount {
        if s + 1 < |sellers| {
          CrossStepOffered(buyers, sellers, s + 1, b, sellers[s].value);
        }
      } else if b + 1 < |buyers| {
        CrossStepOffered(buyers, sellers, s, b + 1, sellers[s].value);
      }
    }
  }

  /** Facts about the cumulated lists the crossing walk runs over. */
  lemma {:induction false} CumulatedBounds(buys: seq<Offer>, sells: seq<Offer>)
    requires |buys| > 0 && |sells| > 0
    ensures var (buyers, sellers) := Cumsum(buys, sells, 0.0);
      (forall k :: 0 <= k < |sellers| ==> MinValue(sells) <= sellers[k].value) &&
      (forall k :: 0 <= k < |buyers| ==> buyers[k].value <= MaxValue(buys)) &&
      sellers[0].value == MinValue(sells) && buyers[0].value == MaxValue(buys)
  {
    CumsumShape(buys, sells, 0.0);
    var (buyers, sellers) := Cumsum(buys, sells, 0.0);
    forall k | 0 <= k < |sellers|
      ensures MinValue(sells) <= sellers[k].value
    {
      if k > 0 { assert sellers[0].value <= sellers[k].value; }
    }
    forall k | 0 <= k < |buyers|
      ensures buyers[k].value <= MaxValue(buys)
    {
      if k > 0 { assert buyers[0].value >= buyers[k].value; }
    }
  }

  /** The crossing value never falls below the cheapest ask, and never
      rises above the dearest bid unless no trade at all is possible. */
  lemma {:induction false} CrossingValueBounds(buys: seq<Offer>, sells: seq<Offer>, increment: real)
    requires |buys| > 0 && |sells| > 0
    ensures MinValue(sells) <= CrossingValue(buys, sells, increment) <= Max(MaxValue(buys), MinValue(sells))
  {
    CumsumIncrementFree(buys, sells, increment);
    CumulatedBounds(buys, sells);
    var (buyers, sellers) := Cumsum(buys, sells, 0.0);
    CrossStepBounds(buyers, sellers, 0, 0, sellers[0].value, MinValue(sells), MaxValue(buys));
  }

  /** The increment only reorders keys uniformly, so it never changes the
      crossing value. */
  lemma {:induction false} CrossingValueIncrementFree(buys: seq<Offer>, sells: seq<Offer>, increment: real)
    ensures CrossingValue(buys, sells, increment) == CrossingValue(buys, sells, 0.0)
  {
    CumsumIncrementFree(buys, sells, increment);
  }

  /** When the dearest bid does not reach the cheapest ask, the crossing
      value is the cheapest ask. */
  lemma {:induction false} CrossingValueNoTrade(buys: seq<Offer>, sells: seq<Offer>, increment: real)
    requires |buys| > 0 && |sells| > 0 && MaxValue(buys) <= MinValue(sells)
    ensures CrossingValue(buys, sells, increment) == MinValue(sells)
  {
    CrossingValueBounds(buys, sells, increment);
  }

  /** With offers on one side only, the crossing value is the best of them:
      the dearest bid, or the cheapest ask. */
  lemma {:induction false} CrossingValueOneSided(buys: seq<Offer>, sells: seq<Offer>, increment: real)
    ensures |buys| > 0 && |sells| == 0 ==> CrossingValue(buys, sells, increment) == MaxValue(buys)
    ensures |buys| == 0 && |sells| > 0 ==> CrossingValue(buys, sells, increment) == MinValue(sells)
    ensures |buys| == 0 && |sells| == 0 ==> CrossingValue(buys, sells, increment) == 0.0
  {
    if |buys| > 0 && |sells| == 0 {
      SortDescEnds(buys, increment);
      CumulateKeepsOffers(SortDesc(buys, increment));
    } else if |buys| == 0 && |sells| > 0 {
      SortAscEnds(AbsAmounts(sells), increment);
      CumulateKeepsOffers(SortAsc(AbsAmounts(sells), increment));
      AbsAmountsValues(sells);
      SameValuesSameBounds(AbsAmounts(sells), sells);
    }
  }

  /** The crossing value is a price one of the offers was made at. */
  lemma {:induction false} CrossingValueOffered(buys: seq<Offer>, sells: seq<Offer>, increment: real)
    requires |buys| > 0 || |sells| > 0
    ensures (exists j :: 0 <= j < |buys| && buys[j].value == CrossingValue(buys, sells, increment)) ||
            (exists j :: 0 <= j < |sells| && sells[j].value == CrossingValue(buys, sells, increment))
  {
    var r := CrossingValue(buys, sells, increment);
    CrossingValueOneSided(buys, sells, increment);
    if |buys| > 0 && |sells| > 0 {
      CumsumIncrementFree(buys, sells, increment);
      var sortedBuys := SortDesc(buys, 0.0);
      var sortedSells := SortAsc(AbsAmounts(sells), 0.0);
      var buyers := Cumulate(sortedBuys);
      var sellers := Cumulate(sortedSells);
      assert Cumsum(buys, sells, 0.0) == (buyers, sellers);
      SortDescSorted(buys, 0.0);
      SortAscSorted(AbsAmounts(sells), 0.0);
      CumulateKeepsOffers(sortedBuys);
      CumulateKeepsOffers(sortedSells);
      CrossStepOffered(buyers, sellers, 0, 0, sellers[0].value);
      if k :| 0 <= k < |sellers| && sellers[k].value == r {
        assert sortedSells[k].value == r;
        SortedFrom(AbsAmounts(sells), sortedSells, k);
        var j :| 0 <= j < |sells| && AbsAmounts(sells)[j] == sortedSells[k];
        assert sells[j].value == r;
      } else {
        var k :| 0 <= k < |buyers| && buyers[k].value == r;
        assert sortedBuys[k].value == r;
        SortedFrom(buys, sortedBuys, k);
      }
    }
  }

  // ---------------------------------------------------------------------
  // Whether offers cross
  // ---------------------------------------------------------------------

  /** `do_offers_cross` compares the cheapest bid with the dearest ask, and
      fails when exactly one side is empty. */
  lemma {:induction false} DoOffersCrossMeaning(buys: seq<Offer>, sells: seq<Offer>)
    ensures |buys| > 0 && |sells| > 0 ==>
      DoOffersCross(buys, sells) == Ok(MinValue(buys) < MaxValue(sells))
    ensures (|buys| == 0) != (|sells| == 0) ==> DoOffersCross(buys, sells) == Err(EmptySide)
    ensures |buys| == 0 && |sells| == 0 ==> DoOffersCross(buys, sells) == Ok(false)
  {
    if |buys| > 0 && |sells| > 0 {
      CumsumShape(buys, sells, 0.0);
    }
  }

  // ---------------------------------------------------------------------
  // Mid-market rate
  // ---------------------------------------------------------------------

  /** With offers on one side only the MMR is the best offer on that side:
      a bid no other bid exceeds, or an ask no other ask undercuts. */
  lemma {:induction false} MmrOneSided(buys: seq<Offer>, sells: seq<Offer>, divisor: real)
    ensures |buys| > 0 && |sells| == 0 ==> (
      Mmr(buys, sells, divisor).Price? &&
      (forall i :: 0 <= i < |buys| ==> buys[i].value <= Mmr(buys, sells, divisor).value) &&
      (exists i :: 0 <= i < |buys| && buys[i].value == Mmr(buys, sells, divisor).value))
    ensures |buys| == 0 && |sells| > 0 ==> (
      Mmr(buys, sells, divisor).Price? &&
      (forall i :: 0 <= i < |sells| ==> Mmr(buys, sells, divisor).value <= sells[i].value) &&
      (exists i :: 0 <= i < |sells| && sells[i].value == Mmr(buys, sells, divisor).value))
    ensures |buys| == 0 && |sells| == 0 ==> Mmr(buys, sells, divisor) == Price(0.0)
  {
  }

  /** The MMR falls back on the crossing value exactly when
      `do_offers_cross` reports crossing offers, and the increment the
      fallback uses plays no part. */
  lemma {:induction false} MmrCrossingFallback(buys: seq<Offer>, sells: seq<Offer>, divisor: real)
    requires DoOffersCross(buys, sells) == Ok(true)
    ensures Mmr(buys, sells, divisor) == Price(CrossingValue(buys, sells, 0.0))
    ensures MinValue(sells) <= Mmr(buys, sells, divisor).value <= Max(MaxValue(buys), MinValue(sells))
  {
    DoOffersCrossMeaning(buys, sells);
    CrossingValueIncrementFree(buys, sells, DefaultIncrement);
    CrossingValueBounds(buys, sells, 0.0);
  }

  /** Without crossing offers and with the default divisor 2, the MMR is
      the midpoint between the dearest ask and the cheapest bid. */
  lemma {:induction false} MmrMidpoint(buys: seq<Offer>, sells: seq<Offer>)
    requires |buys| > 0 && |sells| > 0 && DoOffersCross(buys, sells) == Ok(false)
    ensures Mmr(buys, sells, 2.0).Price?
    ensures MaxValue(sells) <= Mmr(buys, sells, 2.0).value <= MinValue(buys)
    ensures Mmr(buys, sells, 2.0).value - MaxValue(sells) == MinValue(buys) - Mmr(buys, sells, 2.0).value
  {
    DoOffersCrossMeaning(buys, sells);
  }

  /** The MMR is never a non-finite number except through a zero divisor
      applied to offers that do not cross. */
  lemma {:induction false} MmrFinite(buys: seq<Offer>, sells: seq<Offer>, divisor: real)
    ensures Mmr(buys, sells, divisor) == NonFinite <==>
      |buys| > 0 && |sells| > 0 && MinValue(buys) >= MaxValue(sells) && divisor == 0.0
    ensures !Mmr(buys, sells, divisor).Raised?
  {
  }

  // ---------------------------------------------------------------------
  // Supply/demand ratio
  // ---------------------------------------------------------------------

  /** The compensation share is checked before anything else: the SDR
      raises its error exactly when the share is outside [0, 1]. */
  lemma {:induction false} SdrCompensationChecked(buys: seq<Offer>, sells: seq<Offer>, compensation: real)
    ensures Sdr(buys, sells, compensation) == Raised(CompensationOutOfRange) <==>
      !(0.0 <= compensation <= 1.0)
  {
  }

  /** With crossing offers the SDR is the crossing value, as the MMR is. */
  lemma {:induction false} SdrCrossingFallback(buys: seq<Offer>, sells: seq<Offer>, compensation: real)
    requires 0.0 <= compensation <= 1.0 && DoOffersCross(buys, sells) == Ok(true)
    ensures Sdr(buys, sells, compensation) == Mmr(buys, sells, 2.0)
  {
    DoOffersCrossMeaning(buys, sells);
  }

  lemma {:induction false} ProductNonNegative(x: real, y: real)
    requires x >= 0.0 && y >= 0.0
    ensures x * y >= 0.0
  {
  }

  lemma {:induction false} SquareNonNegative(x: real)
    ensures x * x >= 0.0
  {
    if x < 0.0 {
      ProductNonNegative(-x, -x);
      assert (-x) * (-x) == x * x;
    }
  }

  lemma {:induction false} ProductPositive(x: real, y: real)
    requires x > 0.0 && y > 0.0
    ensures x * y > 0.0
  {
  }

  /** Multiplying by a positive factor keeps a strict inequality. */
  lemma {:induction false} ScaleKeepsStrictOrder(a: real, b: real, c: real)
    requires a > 0.0 && b < c
    ensures a * b < a * c
  {
    ProductPositive(a, c - b);
    assert a * c - a * b == a * (c - b);
  }

  /** The compensation price is a share of the spread. */
  lemma {:induction false} CompensationInSpread(minBuy: real, maxSell: real, compensation: real)
    requires maxSell <= minBuy && 0.0 <= compensation <= 1.0
    ensures 0.0 <= (minBuy - maxSell) * compensation
    ensures (minBuy - maxSell) * compensation <= minBuy - maxSell
  {
    ProductNonNegative(minBuy - maxSell, compensation);
    ProductNonNegative(minBuy - maxSell, 1.0 - compensation);
    assert (minBuy - maxSell) - (minBuy - maxSell) * compensation == (minBuy - maxSell) * (1.0 - compensation);
  }

  /** Supply covers demand exactly when their ratio is at least 1. */
  lemma {:induction false} RatioAtLeastOne(eQ: real, dQ: real)
    requires dQ > 0.0
    ensures eQ / dQ >= 1.0 <==> eQ >= dQ
  {
    var ratio := eQ / dQ;
    assert eQ == dQ * ratio;
    if ratio >= 1.0 {
      ScaleKeepsOrder(dQ, 1.0, ratio);
    } else {
      ScaleKeepsStrictOrder(dQ, ratio, 1.0);
    }
  }

  /** Dividing a compensation by a ratio of at least 1 shrinks it. */
  lemma {:induction false} ShareShrinks(lComp: real, ratio: real)
    requires lComp >= 0.0 && ratio >= 1.0
    ensures 0.0 <= lComp / ratio <= lComp
  {
    var q := lComp / ratio;
    assert lComp == ratio * q;
    if q < 0.0 {
      ScaleKeepsStrictOrder(ratio, q, 0.0);
    }
    ScaleKeepsOrder(q, 1.0, ratio);
  }

  /** A quotient is at most `m` when its numerator is at most `m` times
      its positive denominator. */
  lemma {:induction false} QuotientAtMost(n: real, d: real, m: real)
    requires d > 0.0 && n <= d * m
    ensures n / d <= m
  {
    var q := n / d;
    assert d * q == n;
    if q > m {
      ScaleKeepsStrictOrder(d, m, q);
    }
  }

  /** A quotient is at least `m` when its numerator is at least `m` times
      its positive denominator. */
  lemma {:induction false} QuotientAtLeast(n: real, d: real, m: real)
    requires d > 0.0 && d * m <= n
    ensures m <= n / d
  {
    var q := n / d;
    assert d * q == n;
    if q < m {
      ScaleKeepsStrictOrder(d, q, m);
    }
  }

  /** A quotient `q` of `minBuy * base` by a denominator between `base`
      and `minBuy` is at least `base`. */
  lemma {:induction false} QuotientAboveBase(minBuy: real, base: real, den: real, q: real)
    requires 0.0 < base <= den <= minBuy && den * q == minBuy * base
    ensures base <= q
  {
    if q < base {
      ScaleKeepsStrictOrder(den, q, base);
      ScaleKeepsOrder(base, den, minBuy);
    }
  }

  /** ... and at most `minBuy`. */
  lemma {:induction false} QuotientBelowBid(minBuy: real, base: real, den: real, q: real)
    requires 0.0 < base <= den <= minBuy && den * q == minBuy * base
    ensures q <= minBuy
  {
    if q > minBuy {
      ScaleKeepsStrictOrder(den, minBuy, q);
      ScaleKeepsOrder(minBuy, base, den);
    }
  }

  /** The deficit denominator lies between the compensated ask and the bid. */
  lemma {:induction false} DenominatorBounds(minBuy: real, base: real, ratio: real)
    requires base <= minBuy && 0.0 <= ratio < 1.0
    ensures base <= (minBuy - base) * ratio + base <= minBuy
  {
    var spread := minBuy - base;
    FractionOfWhole(spread, ratio);
    var share := spread * ratio;
    assert base <= share + base <= minBuy;
    assert (minBuy - base) * ratio + base == share + base;
  }

  /** A fraction in [0, 1] of a non-negative whole lies between 0 and it. */
  lemma {:induction false} FractionOfWhole(whole: real, fraction: real)
    requires whole >= 0.0 && 0.0 <= fraction <= 1.0
    ensures 0.0 <= whole * fraction <= whole
  {
    ProductNonNegative(whole, fraction);
    ProductNonNegative(whole, 1.0 - fraction);
    assert whole * (1.0 - fraction) == whole - whole * fraction;
  }

  /** With supply covering demand the compensated ask shrinks towards
      the dearest ask. */
  lemma {:induction false} SurplusPriceBounds(maxSell: real, lComp: real, ratio: real)
    requires lComp >= 0.0 && ratio >= 1.0
    ensures maxSell <= maxSell + lComp / ratio <= maxSell + lComp
  {
    ShareShrinks(lComp, ratio);
  }

  /** With demand exceeding supply the price moves from the compensated
      ask towards the cheapest bid. */
  lemma {:induction false} DeficitPriceBounds(minBuy: real, maxSell: real, lComp: real, ratio: real)
    requires 0.0 < maxSell && 0.0 <= lComp <= minBuy - maxSell && 0.0 <= ratio < 1.0
    ensures (minBuy - maxSell - lComp) * ratio + maxSell + lComp > 0.0
    ensures maxSell + lComp <= (minBuy * (maxSell + lComp)) / ((minBuy - maxSell - lComp) * ratio + maxSell + lComp)
    ensures (minBuy * (maxSell + lComp)) / ((minBuy - maxSell - lComp) * ratio + maxSell + lComp) <= minBuy
  {
    var base := maxSell + lComp;
    var den := (minBuy - maxSell - lComp) * ratio + maxSell + lComp;
    assert den == (minBuy - base) * ratio + base;
    DenominatorBounds(minBuy, base, ratio);
    var q := (minBuy * (maxSell + lComp)) / den;
    assert den * q == minBuy * base;
    QuotientAboveBase(minBuy, base, den, q);
    QuotientBelowBid(minBuy, base, den, q);
  }

  /** A non-negative supply over a positive demand gives a non-negative ratio. */
  lemma {:induction false} RatioNonNegative(eQ: real, dQ: real)
    requires eQ >= 0.0 && dQ > 0.0
    ensures eQ / dQ >= 0.0
  {
    var ratio := eQ / dQ;
    assert eQ == dQ * ratio;
    if ratio < 0.0 {
      ScaleKeepsStrictOrder(dQ, ratio, 0.0);
    }
  }

  lemma {:induction false} SdrFormulaSurplus(eQ: real, dQ: real, minBuy: real, maxSell: real, compensation: real, lComp: real)
    requires lComp == (minBuy - maxSell) * compensation
    requires dQ != 0.0 && eQ / dQ >= 1.0
    ensures SdrFormula(eQ, dQ, minBuy, maxSell, compensation) == Price(maxSell + lComp / (eQ / dQ))
  {
  }

  lemma {:induction false} SdrFormulaDeficit(eQ: real, dQ: real, minBuy: real, maxSell: real, compensation: real, lComp: real,
                                             ratio: real)
    requires lComp == (minBuy - maxSell) * compensation
    requires dQ != 0.0 && ratio == eQ / dQ && 0.0 <= ratio < 1.0
    requires (minBuy - maxSell - lComp) * ratio + maxSell + lComp != 0.0
    ensures SdrFormula(eQ, dQ, minBuy, maxSell, compensation) ==
      Price((minBuy * (maxSell + lComp)) / ((minBuy - maxSell - lComp) * ratio + maxSell + lComp))
  {
  }

  /** The closing SDR formula keeps the price inside the bid-ask spread:
      with more supply than demand it lies between the dearest ask and the
      compensated ask, otherwise between the compensated ask and the
      cheapest bid. */
  lemma {:induction false} SdrFormulaBounds(eQ: real, dQ: real, minBuy: real, maxSell: real, compensation: real)
    requires eQ >= 0.0 && dQ > 0.0
    requires 0.0 < maxSell <= minBuy && 0.0 <= compensation <= 1.0
    ensures SdrFormula(eQ, dQ, minBuy, maxSell, compensation).Price?
    ensures eQ >= dQ ==>
      SdrFormula(eQ, dQ, minBuy, maxSell, compensation).value <= maxSell + (minBuy - maxSell) * compensation
    ensures eQ < dQ ==>
      maxSell + (minBuy - maxSell) * compensation <= SdrFormula(eQ, dQ, minBuy, maxSell, compensation).value
    ensures maxSell <= SdrFormula(eQ, dQ, minBuy, maxSell, compensation).value
    ensures SdrFormula(eQ, dQ, minBuy, maxSell, compensation).value <= minBuy
  {
    CompensationInSpread(minBuy, maxSell, compensation);
    if eQ >= dQ {
      SdrSurplusBounds(eQ, dQ, minBuy, maxSell, compensation);
    } else {
      SdrDeficitBounds(eQ, dQ, minBuy, maxSell, compensation);
    }
  }

  /** With supply covering demand the formula lies between the dearest ask
      and the compensated ask. */
  lemma {:induction false} SdrSurplusBounds(eQ: real, dQ: real, minBuy: real, maxSell: real, compensation: real)
    requires dQ > 0.0 && eQ >= dQ
    requires maxSell <= minBuy && 0.0 <= compensation <= 1.0
    ensures SdrFormula(eQ, dQ, minBuy, maxSell, compensation).Price?
    ensures maxSell <= SdrFormula(eQ, dQ, minBuy, maxSell, compensation).value
    ensures SdrFormula(eQ, dQ, minBuy, maxSell, compensation).value <= maxSell + (minBuy - maxSell) * compensation
  {
    var lComp := (minBuy - maxSell) * compensation;
    CompensationInSpread(minBuy, maxSell, compensation);
    RatioAtLeastOne(eQ, dQ);
    var ratio := eQ / dQ;
    SurplusPriceBounds(maxSell, lComp, ratio);
    SdrFormulaSurplus(eQ, dQ, minBuy, maxSell, compensation, lComp);
  }

  /** With demand exceeding supply the formula lies between the compensated
      ask and the cheapest bid. */
  lemma {:induction false} SdrDeficitBounds(eQ: real, dQ: real, minBuy: real, maxSell: real, compensation: real)
    requires dQ > 0.0 && 0.0 <= eQ < dQ
    requires 0.0 < maxSell <= minBuy && 0.0 <= compensation <= 1.0
    ensures SdrFormula(eQ, dQ, minBuy, maxSell, compensation).Price?
    ensures maxSell + (minBuy - maxSell) * compensation <= SdrFormula(eQ, dQ, minBuy, maxSell, compensation).value
    ensures SdrFormula(eQ, dQ, minBuy, maxSell, compensation).value <= minBuy
  {
    var lComp := (minBuy - maxSell) * compensation;
    var ratio := eQ / dQ;
    assert 0.0 <= lComp <= minBuy - maxSell by { CompensationInSpread(minBuy, maxSell, compensation); }
    assert 0.0 <= ratio < 1.0 by { RatioAtLeastOne(eQ, dQ); RatioNonNegative(eQ, dQ); }
    DeficitPriceBounds(minBuy, maxSell, lComp, ratio);
    SdrFormulaDeficit(eQ, dQ, minBuy, maxSell, compensation, lComp, ratio);
  }

  /** Without crossing offers the SDR is its closing formula applied to the
      supply, the demand, the cheapest bid, the dearest ask and the
      compensation's share of the spread. */
  lemma {:induction false} SdrNoCross(buys: seq<Offer>, sells: seq<Offer>, compensation: real)
    requires |buys| > 0 && |sells| > 0 && 0.0 <= compensation <= 1.0
    requires MaxValue(sells) <= MinValue(buys)
    ensures Sdr(buys, sells, compensation) == SdrClosing(buys, sells, compensation)
  {
  }

  /** Without crossing offers, with positive prices and a positive demand,
      the closing formula prices the session inside the bid-ask spread,
      whatever the compensation. */
  lemma {:induction false} SdrClosingWithinSpread(buys: seq<Offer>, sells: seq<Offer>, compensation: real)
    requires |buys| > 0 && |sells| > 0
    requires 0.0 <= compensation <= 1.0
    requires 0.0 < MaxValue(sells) <= MinValue(buys)
    requires SumAmounts(buys) > 0.0
    ensures SdrClosing(buys, sells, compensation).Price?
    ensures MaxValue(sells) <= SdrClosing(buys, sells, compensation).value
    ensures SdrClosing(buys, sells, compensation).value <= MinValue(buys)
  {
    SupplyNonNegative(sells);
    SdrFormulaBounds(SumAmounts(AbsAmounts(sells)), SumAmounts(buys), MinValue(buys), MaxValue(sells), compensation);
  }

  /** Closing sessions (no crossing) are priced inside the spread between
      the dearest ask and the cheapest bid, whatever the compensation. */
  lemma {:induction false} SdrWithinSpread(buys: seq<Offer>, sells: seq<Offer>, compensation: real)
    requires |buys| > 0 && |sells| > 0
    requires 0.0 <= compensation <= 1.0
    requires 0.0 < MaxValue(sells) <= MinValue(buys)
    requires SumAmounts(buys) > 0.0
    ensures Sdr(buys, sells, compensation).Price?
    ensures MaxValue(sells) <= Sdr(buys, sells, compensation).value
    ensures Sdr(buys, sells, compensation).value <= MinValue(buys)
  {
    SdrNoCross(buys, sells, compensation);
    SdrClosingWithinSpread(buys, sells, compensation);
  }

  /** Without compensation, a supply that covers the demand is paid exactly
      the dearest ask. */
  lemma {:induction false} SdrSurplusPaysAsk(buys: seq<Offer>, sells: seq<Offer>)
    requires |buys| > 0 && |sells| > 0 && MaxValue(sells) <= MinValue(buys)
    requires SumAmounts(AbsAmounts(sells)) >= SumAmounts(buys) > 0.0
    ensures Sdr(buys, sells, 0.0) == Price(MaxValue(sells))
  {
    SdrNoCross(buys, sells, 0.0);
    SdrFormulaUncompensated(SumAmounts(AbsAmounts(sells)), SumAmounts(buys), MinValue(buys), MaxValue(sells));
  }

  lemma {:induction false} SdrFormulaUncompensated(eQ: real, dQ: real, minBuy: real, maxSell: real)
    requires eQ >= dQ > 0.0
    ensures SdrFormula(eQ, dQ, minBuy, maxSell, 0.0) == Price(maxSell)
  {
    RatioAtLeastOne(eQ, dQ);
    assert (minBuy - maxSell) * 0.0 == 0.0;
    SdrFormulaSurplus(eQ, dQ, minBuy, maxSell, 0.0, 0.0);
    assert 0.0 / (eQ / dQ) == 0.0;
  }

  /** A positive supply meeting a zero total demand makes the ratio
      infinite, which the SDR prices at 0. */
  lemma {:induction false} SdrZeroDemand(buys: seq<Offer>, sells: seq<Offer>, compensation: real)
    requires |buys| > 0 && |sells| > 0 && MaxValue(sells) <= MinValue(buys)
    requires 0.0 <= compensation <= 1.0
    requires SumAmounts(buys) == 0.0 && SumAmounts(AbsAmounts(sells)) > 0.0
    ensures Sdr(buys, sells, compensation) == Price(0.0)
  {
  }

  // ---------------------------------------------------------------------
  // Pruned prices
  // ---------------------------------------------------------------------

  /** When nothing can trade (an empty side, or every ask above every bid)
      the pruned prices are 0, with the screening as written and with the
      corrected one alike. */
  lemma {:induction false} PrunedNoTrade(buys: seq<Offer>, sells: seq<Offer>, divisor: real, compensation: real)
    requires |buys| == 0 || |sells| == 0 || MaxValue(buys) < MinValue(sells)
    requires 0.0 <= compensation <= 1.0
    ensures PrunedMmr(buys, sells, divisor) == Price(0.0)
    ensures PrunedSdr(buys, sells, compensation) == Price(0.0)
    ensures CorrectedPrunedMmr(buys, sells, divisor) == Price(0.0)
    ensures CorrectedPrunedSdr(buys, sells, compensation) == Price(0.0)
  {
    AcceptedBothOrNeither(buys, sells);
  }

  /** When the caller lists bids dearest first and asks cheapest first,
      `compute_pruned_mmr` and `compute_pruned_sdr` as written price as the
      corrected screening does. */
  lemma {:induction false} PrunedInSortedOrder(buys: seq<Offer>, sells: seq<Offer>, divisor: real, compensation: real)
    requires Descending(buys) && Ascending(sells)
    ensures PrunedMmr(buys, sells, divisor) == CorrectedPrunedMmr(buys, sells, divisor)
    ensures PrunedSdr(buys, sells, compensation) == CorrectedPrunedSdr(buys, sells, compensation)
  {
    AcceptedInSortedOrder(buys, sells);
  }

  /** `compute_pruned_mmr` and `compute_pruned_sdr` as written on bids
      listed cheapest first (Findings, row 1): the screening keeps the bid
      below the ask, the kept offers cross and both fall back on the crossing
      value 10.0, where the corrected screening prices the dearer bid at
      (50 + 10) / 2 = 30.0 and, with half the spread as compensation, at
      10 + 40 * 0.5 = 30.0. */
  lemma {:induction false} MisorderedPrunedPrices()
    ensures PrunedMmr(MisorderedBuys, OneSell, 2.0) == Price(10.0)
    ensures PrunedSdr(MisorderedBuys, OneSell, 0.5) == Price(10.0)
    ensures CorrectedPrunedMmr(MisorderedBuys, OneSell, 2.0) == Price(30.0)
    ensures CorrectedPrunedSdr(MisorderedBuys, OneSell, 0.5) == Price(30.0)
  {
    AcceptedCallerOrderCounterexample();
    var a := [Offer("a", 100.0, 1.0)];
    var c := [Offer("c", 100.0, 10.0)];
    assert CrossingValue(a, c, DefaultIncrement) == 10.0 by {
      assert MaxValue(a) == 1.0 && MinValue(c) == 10.0;
      CrossingValueNoTrade(a, c, DefaultIncrement);
    }
    assert Mmr(a, c, 2.0) == Price(10.0);
    assert Sdr(a, c, 0.5) == Price(10.0);
    var b := [Offer("b", 100.0, 50.0)];
    assert Mmr(b, c, 2.0) == Price(30.0);
    assert SumAmounts(AbsAmounts(c)) == 100.0 && SumAmounts(b) == 100.0 by {
      assert AbsAmounts(c) == c;
      assert c[..0] == [] && b[..0] == [];
    }
    assert SdrFormula(100.0, 100.0, 50.0, 10.0, 0.5) == Price(30.0);
  }

  /** With the corrected screening the pruned offers never cross, so the
      pruned MMR never falls back on the crossing value: it is always the
      closed-form rate of the least accepted bid and the greatest accepted
      ask. */
  lemma {:induction false} CorrectedPrunedMmrClosedForm(buys: seq<Offer>, sells: seq<Offer>, divisor: real)
    requires |AcceptedSorted(buys, sells).0| > 0 && divisor != 0.0
    ensures var (acceptedBuys, acceptedSells) := AcceptedSorted(buys, sells);
      |acceptedSells| > 0 &&
      MaxValue(acceptedSells) <= MinValue(acceptedBuys) &&
      CorrectedPrunedMmr(buys, sells, divisor) ==
        Price((MinValue(acceptedBuys) + MaxValue(acceptedSells)) / divisor)
  {
    var (acceptedBuys, acceptedSells) := AcceptedSorted(buys, sells);
    assert |acceptedSells| > 0 by {
      AcceptedBothOrNeither(buys, sells);
      assert |acceptedBuys| == |Accepted(buys, sells).0| && |acceptedSells| == |Accepted(buys, sells).1|;
    }
    assert MaxValue(acceptedSells) <= MinValue(acceptedBuys) by {
      AcceptedSortedCrosses(buys, sells);
      AllCrossBounds(acceptedBuys, acceptedSells);
    }
    MmrNoCross(acceptedBuys, acceptedSells, divisor);
  }

  /** With the corrected screening, positive asks and a positive accepted
      demand, the pruned SDR is a finite price inside the spread of the
      accepted offers, whatever the compensation. */
  lemma {:induction false} CorrectedPrunedSdrWithinSpread(buys: seq<Offer>, sells: seq<Offer>, compensation: real)
    requires 0.0 <= compensation <= 1.0
    requires |AcceptedSorted(buys, sells).0| > 0 && |AcceptedSorted(buys, sells).1| > 0
    requires 0.0 < MaxValue(AcceptedSorted(buys, sells).1)
    requires SumAmounts(AcceptedSorted(buys, sells).0) > 0.0
    ensures var (acceptedBuys, acceptedSells) := AcceptedSorted(buys, sells);
      var r := CorrectedPrunedSdr(buys, sells, compensation);
      r.Price? && MaxValue(acceptedSells) <= r.value <= MinValue(acceptedBuys)
  {
    var (acceptedBuys, acceptedSells) := AcceptedSorted(buys, sells);
    assert MaxValue(acceptedSells) <= MinValue(acceptedBuys) by {
      AcceptedSortedCrosses(buys, sells);
      AllCrossBounds(acceptedBuys, acceptedSells);
    }
    SdrWithinSpread(acceptedBuys, acceptedSells, compensation);
  }

  /** When every ask is at most every bid, so is the dearest ask at most
      the cheapest bid. */
  lemma AllCrossBounds(buys: seq<Offer>, sells: seq<Offer>)
    requires |buys| > 0 && |sells| > 0
    requires forall i, j :: 0 <= i < |buys| && 0 <= j < |sells| ==> sells[j].value <= buys[i].value
    ensures MaxValue(sells) <= MinValue(buys)
  {
    var i :| 0 <= i < |buys| && buys[i].value == MinValue(buys);
    var j :| 0 <= j < |sells| && sells[j].value == MaxValue(sells);
    assert sells[j].value <= buys[i].value;
  }

  /** Without crossing offers and with a non-zero divisor the MMR is the
      closed-form rate. */
  lemma {:induction false} MmrNoCross(buys: seq<Offer>, sells: seq<Offer>, divisor: real)
    requires |buys| > 0 && |sells| > 0 && MaxValue(sells) <= MinValue(buys) && divisor != 0.0
    ensures Mmr(buys, sells, divisor) == Price((MinValue(buys) + MaxValue(sells)) / divisor)
  {
    assert !(MinValue(buys) < MaxValue(sells));
  }

  // ---------------------------------------------------------------------
  // Convergence test
  // ---------------------------------------------------------------------

  lemma {:induction false} SquaredDistanceBelow(a: seq<real>, b: seq<real>, i: nat)
    requires |a| == |b| && i < |a|
    ensures 0.0 <= (a[i] - b[i]) * (a[i] - b[i]) <= SquaredDistance(a, b)
    decreases |a|
  {
    var n := |a|;
    var (a', b') := (a[..n - 1], b[..n - 1]);
    var d := a[n - 1] - b[n - 1];
    assert SquaredDistance(a, b) == SquaredDistance(a', b') + d * d;
    SquaredDistanceNonNegative(a', b');
    SquareNonNegative(d);
    if i < n - 1 {
      SquaredDistanceBelow(a', b', i);
      assert a'[i] == a[i] && b'[i] == b[i];
    }
  }

  lemma {:induction false} SquaredDistanceNonNegative(a: seq<real>, b: seq<real>)
    requires |a| == |b|
    ensures SquaredDistance(a, b) >= 0.0
  {
    if a != [] {
      SquaredDistanceNonNegative(a[..|a| - 1], b[..|b| - 1]);
    }
  }

  lemma {:induction false} SquaredDistanceSymmetric(a: seq<real>, b: seq<real>)
    requires |a| == |b|
    ensures SquaredDistance(a, b) == SquaredDistance(b, a)
  {
    if a != [] {
      SquaredDistanceSymmetric(a[..|a| - 1], b[..|b| - 1]);
    }
  }

  lemma {:induction false} SquaredDistanceSelf(a: seq<real>)
    ensures SquaredDistance(a, a) == 0.0
  {
    if a != [] {
      SquaredDistanceSelf(a[..|a| - 1]);
    }
  }

  /** The convergence test is symmetric, stops on identical vectors, and
      stops only when every session's price moved by less than 0.01. */
  lemma {:induction false} StopCriterionMeaning(oldPrices: seq<real>, newPrices: seq<real>)
    requires |oldPrices| == |newPrices|
    ensures StopCriterion(oldPrices, newPrices) == StopCriterion(newPrices, oldPrices)
    ensures StopCriterion(oldPrices, oldPrices) == (true, 0.0)
    ensures StopCriterion(oldPrices, newPrices).1 >= 0.0
    ensures StopCriterion(oldPrices, newPrices).0 ==>
      forall i :: 0 <= i < |oldPrices| ==> -0.01 < oldPrices[i] - newPrices[i] < 0.01
  {
    SquaredDistanceSymmetric(oldPrices, newPrices);
    SquaredDistanceSelf(oldPrices);
    SquaredDistanceNonNegative(oldPrices, newPrices);
    if StopCriterion(oldPrices, newPrices).0 {
      forall i | 0 <= i < |oldPrices|
        ensures -0.01 < oldPrices[i] - newPrices[i] < 0.01
      {
        SquaredDistanceBelow(oldPrices, newPrices, i);
      }
    }
  }
}
