/** The individual cost of one meter after delivery (IndividualCost.py):
    each slot's net load is bought from, or sold to, whichever of the
    retailer and the market-indexed tariff is better for the meter, the
    power above the contracted maximum is penalised, and the slot costs
    are summed. */
module IndividualCost {
  import opened Common

  /** Where one slot's net load goes: energy bought from the retailer or at
      the market-indexed tariff, energy sold to the retailer or at the
      market-indexed tariff. */
  datatype Route = Route(supRetail: real, supMarket: real, surRetail: real, surMarket: real)

  /** Which length assertion of `calculate_individual_cost` fails. */
  datatype IndCostError = SellTariffLength | MarketBuyLength | MarketSellLength | NetLoadLength

  /** What `calculate_individual_cost` returns. */
  datatype IndCostOutputs = IndCostOutputs(
    cInd: real,
    meterId: MemberId,
    eSupMarket: seq<real>,
    eSupRetail: seq<real>,
    eSurMarket: seq<real>,
    eSurRetail: seq<real>,
    pExtra: seq<real>)

  /** The routing rule: a consumption goes to the market only when the
      retailer is strictly dearer; a surplus goes to the retailer unless
      the market pays strictly more. */
  function RouteSlot(netLoad: real, lBuy: real, lSell: real, lMarketBuy: real, lMarketSell: real): Route
  {
    if netLoad >= 0.0 then
      if lBuy > lMarketBuy then Route(0.0, netLoad, 0.0, 0.0) else Route(netLoad, 0.0, 0.0, 0.0)
    else if lSell >= lMarketSell then Route(0.0, 0.0, -netLoad, 0.0)
    else Route(0.0, 0.0, 0.0, -netLoad)
  }

  /** The energy exchanged at the meter: supply minus surplus. */
  function NetFlow(r: Route): real
  {
    r.supRetail + r.supMarket - r.surRetail - r.surMarket
  }

  /** The power above the contracted maximum, or zero. */
  function ExtraPower(r: Route, deltaT: real, maxP: real): real
    requires deltaT != 0.0
  {
    Max(Abs(NetFlow(r)) / deltaT - maxP, 0.0)
  }

  /** What the slot's energy costs (sales count negatively). */
  function EnergyCost(r: Route, lBuy: real, lSell: real, lMarketBuy: real, lMarketSell: real): real
  {
    r.supRetail * lBuy - r.surRetail * lSell + r.supMarket * lMarketBuy - r.surMarket * lMarketSell
  }

  /** The post-delivery data of one meter (the backpack): settlement
      duration, retail and market-indexed tariffs, maximum power, the cost
      of exceeding it, net load per slot and the meter's identifier. */
  datatype Backpack = Backpack(
    deltaT: real,
    lBuy: seq<real>,
    lSell: seq<real>,
    lMarketBuy: seq<real>,
    lMarketSell: seq<real>,
    maxP: real,
    lExtra: real,
    eMet: seq<real>,
    id: MemberId)

  /** Every series has as many entries as `l_buy`. */
  predicate Aligned(b: Backpack)
  {
    |b.lSell| == |b.lBuy| && |b.lMarketBuy| == |b.lBuy| && |b.lMarketSell| == |b.lBuy| && |b.eMet| == |b.lBuy|
  }

  function RouteAt(b: Backpack, t: int): Route
    requires Aligned(b) && 0 <= t < |b.lBuy|
  {
    RouteSlot(b.eMet[t], b.lBuy[t], b.lSell[t], b.lMarketBuy[t], b.lMarketSell[t])
  }

  function ExtraAt(b: Backpack, t: int): real
    requires Aligned(b) && b.deltaT != 0.0 && 0 <= t < |b.lBuy|
  {
    ExtraPower(RouteAt(b, t), b.deltaT, b.maxP)
  }

  /** The cost of slot `t`: its energy plus the penalty on excess power. */
  function CostAt(b: Backpack, t: int): real
    requires Aligned(b) && b.deltaT != 0.0 && 0 <= t < |b.lBuy|
  {
    EnergyCost(RouteAt(b, t), b.lBuy[t], b.lSell[t], b.lMarketBuy[t], b.lMarketSell[t]) + ExtraAt(b, t) * b.lExtra
  }

  /** The cost of the first `k` slots. */
  function CostUpTo(b: Backpack, k: int): real
    requires Aligned(b) && b.deltaT != 0.0 && 0 <= k <= |b.lBuy|
  {
    if k == 0 then 0.0 else CostUpTo(b, k - 1) + CostAt(b, k - 1)
  }

  /** The outputs for aligned series. */
  function Outputs(b: Backpack): IndCostOutputs
    requires Aligned(b) && b.deltaT != 0.0
  {
    var n := |b.lBuy|;
    IndCostOutputs(
      CostUpTo(b, n), b.id,
      seq(n, t requires 0 <= t < n => RouteAt(b, t).supMarket),
      seq(n, t requires 0 <= t < n => RouteAt(b, t).supRetail),
      seq(n, t requires 0 <= t < n => RouteAt(b, t).surMarket),
      seq(n, t requires 0 <= t < n => RouteAt(b, t).surRetail),
      seq(n, t requires 0 <= t < n => ExtraAt(b, t)))
  }

  /** `calculate_individual_cost` as a value: the first failing length
      assertion (every series is measured against `l_buy`), or the
      outputs. */
  function IndividualCostOf(b: Backpack): Result<IndCostOutputs, IndCostError>
    requires b.deltaT != 0.0
  {
    if |b.lSell| != |b.lBuy| then Err(SellTariffLength)
    else if |b.lMarketBuy| != |b.lBuy| then Err(MarketBuyLength)
    else if |b.lMarketSell| != |b.lBuy| then Err(MarketSellLength)
    else if |b.eMet| != |b.lBuy| then Err(NetLoadLength)
    else Ok(Outputs(b))
  }

  /** `calculate_individual_cost`: checks the series lengths, routes every
      slot, then derives the excess power and sums the slot costs. */
  method CalculateIndividualCost(b: Backpack) returns (r: Result<IndCostOutputs, IndCostError>)
    requires b.deltaT != 0.0
    ensures r == IndividualCostOf(b)
  {
    var n := |b.lBuy|;
    if |b.lSell| != n {
      return Err(SellTariffLength);
    }
    if |b.lMarketBuy| != n {
      return Err(MarketBuyLength);
    }
    if |b.lMarketSell| != n {
      return Err(MarketSellLength);
    }
    if |b.eMet| != n {
      return Err(NetLoadLength);
    }
    var supRetail, supMarket, surRetail, surMarket := RouteFlows(b);
    var pExtra, cInd := SettleSlots(b, supRetail, supMarket, surRetail, surMarket);
    assert Outputs(b) == IndCostOutputs(cInd, b.id, supMarket, supRetail, surMarket, surRetail, pExtra);
    return Ok(IndCostOutputs(cInd, b.id, supMarket, supRetail, surMarket, surRetail, pExtra));
  }

  /** The routing loop: each slot's net load is written into one of four
      zero-initialised flow arrays. */
  method RouteFlows(b: Backpack) returns (supRetail: seq<real>, supMarket: seq<real>, surRetail: seq<real>, surMarket: seq<real>)
    requires Aligned(b)
    ensures supRetail == seq(|b.lBuy|, t requires 0 <= t < |b.lBuy| => RouteAt(b, t).supRetail)
    ensures supMarket == seq(|b.lBuy|, t requires 0 <= t < |b.lBuy| => RouteAt(b, t).supMarket)
    ensures surRetail == seq(|b.lBuy|, t requires 0 <= t < |b.lBuy| => RouteAt(b, t).surRetail)
    ensures surMarket == seq(|b.lBuy|, t requires 0 <= t < |b.lBuy| => RouteAt(b, t).surMarket)
  {
    var n := |b.lBuy|;
    var eSupRetail := new real[n](_ => 0.0);
    var eSurRetail := new real[n](_ => 0.0);
    var eSupMarket := new real[n](_ => 0.0);
    var eSurMarket := new real[n](_ => 0.0);
    for pos := 0 to n
      invariant forall t :: 0 <= t < pos ==> Route(eSupRetail[t], eSupMarket[t], eSurRetail[t], eSurMarket[t]) == RouteAt(b, t)
      invariant forall t :: pos <= t < n ==>
        eSupRetail[t] == 0.0 && eSupMarket[t] == 0.0 && eSurRetail[t] == 0.0 && eSurMarket[t] == 0.0
    {
      var netLoad := b.eMet[pos];
      if netLoad >= 0.0 {
        if b.lBuy[pos] > b.lMarketBuy[pos] {
          eSupMarket[pos] := netLoad;
        } else {
          eSupRetail[pos] := netLoad;
        }
      } else {
        if b.lSell[pos] >= b.lMarketSell[pos] {
          eSurRetail[pos] := -netLoad;
        } else {
          eSurMarket[pos] := -netLoad;
        }
      }
    }
    supRetail, supMarket, surRetail, surMarket := eSupRetail[..], eSupMarket[..], eSurRetail[..], eSurMarket[..];
  }

  /** The element-wise tail of the computation: the excess power of every
      slot and the sum of the slot costs. */
  method SettleSlots(b: Backpack, supRetail: seq<real>, supMarket: seq<real>, surRetail: seq<real>, surMarket: seq<real>)
    returns (pExtra: seq<real>, cInd: real)
    requires Aligned(b) && b.deltaT != 0.0
    requires |supRetail| == |b.lBuy| && |supMarket| == |b.lBuy| && |surRetail| == |b.lBuy| && |surMarket| == |b.lBuy|
    requires forall t :: 0 <= t < |b.lBuy| ==> Route(supRetail[t], supMarket[t], surRetail[t], surMarket[t]) == RouteAt(b, t)
    ensures pExtra == seq(|b.lBuy|, t requires 0 <= t < |b.lBuy| => ExtraAt(b, t))
    ensures cInd == CostUpTo(b, |b.lBuy|)
  {
    pExtra := [];
    cInd := 0.0;
    for t := 0 to |b.lBuy|
      invariant |pExtra| == t
      invariant forall u :: 0 <= u < t ==> pExtra[u] == ExtraAt(b, u)
      invariant cInd == CostUpTo(b, t)
    {
      var route := Route(supRetail[t], supMarket[t], surRetail[t], surMarket[t]);
      assert route == RouteAt(b, t);
      var extra := ExtraPower(route, b.deltaT, b.maxP);
      var energy := EnergyCost(route, b.lBuy[t], b.lSell[t], b.lMarketBuy[t], b.lMarketSell[t]);
      pExtra := pExtra + [extra];
      cInd := cInd + (energy + extra * b.lExtra);
    }
  }

  /** At most one of a slot's four flows is non-zero. */
  predicate SingleChannel(r: Route)
  {
    (r.supRetail == 0.0 && r.supMarket == 0.0 && r.surRetail == 0.0) ||
    (r.supRetail == 0.0 && r.supMarket == 0.0 && r.surMarket == 0.0) ||
    (r.supRetail == 0.0 && r.surRetail == 0.0 && r.surMarket == 0.0) ||
    (r.supMarket == 0.0 && r.surRetail == 0.0 && r.surMarket == 0.0)
  }

  /** Routing never loses energy: every flow is non-negative, at most one is
      used, supply minus surplus is the net load, consumption is bought and
      surplus sold, and the market is used exactly when the tie-break rule
      says so. */
  lemma {:induction false} RouteSlotMeaning(netLoad: real, lBuy: real, lSell: real, lMarketBuy: real, lMarketSell: real)
    ensures var r := RouteSlot(netLoad, lBuy, lSell, lMarketBuy, lMarketSell);
      r.supRetail >= 0.0 && r.supMarket >= 0.0 && r.surRetail >= 0.0 && r.surMarket >= 0.0 &&
      SingleChannel(r) &&
      NetFlow(r) == netLoad &&
      (netLoad >= 0.0 ==> r.surRetail == 0.0 && r.surMarket == 0.0) &&
      (netLoad <= 0.0 ==> r.supRetail == 0.0 && r.supMarket == 0.0) &&
      (netLoad > 0.0 ==> (r.supMarket > 0.0 <==> lBuy > lMarketBuy)) &&
      (netLoad < 0.0 ==> (r.surRetail > 0.0 <==> lSell >= lMarketSell))
  {
    if netLoad >= 0.0 {
      if lBuy > lMarketBuy {
        assert RouteSlot(netLoad, lBuy, lSell, lMarketBuy, lMarketSell) == Route(0.0, netLoad, 0.0, 0.0);
      } else {
        assert RouteSlot(netLoad, lBuy, lSell, lMarketBuy, lMarketSell) == Route(netLoad, 0.0, 0.0, 0.0);
      }
    } else if lSell >= lMarketSell {
      assert RouteSlot(netLoad, lBuy, lSell, lMarketBuy, lMarketSell) == Route(0.0, 0.0, -netLoad, 0.0);
    } else {
      assert RouteSlot(netLoad, lBuy, lSell, lMarketBuy, lMarketSell) == Route(0.0, 0.0, 0.0, -netLoad);
    }
  }

  /** The routing is the cheaper of the two channels: a consumption costs no
      more than buying it all from the retailer or all at the market, and a
      surplus earns no less than selling it all to either. */
  lemma {:induction false} RouteSlotCheapest(netLoad: real, lBuy: real, lSell: real, lMarketBuy: real, lMarketSell: real)
    ensures netLoad >= 0.0 ==>
      EnergyCost(RouteSlot(netLoad, lBuy, lSell, lMarketBuy, lMarketSell), lBuy, lSell, lMarketBuy, lMarketSell) <= netLoad * lBuy
    ensures netLoad >= 0.0 ==>
      EnergyCost(RouteSlot(netLoad, lBuy, lSell, lMarketBuy, lMarketSell), lBuy, lSell, lMarketBuy, lMarketSell) <= netLoad * lMarketBuy
    ensures netLoad < 0.0 ==>
      EnergyCost(RouteSlot(netLoad, lBuy, lSell, lMarketBuy, lMarketSell), lBuy, lSell, lMarketBuy, lMarketSell) <= netLoad * lSell
    ensures netLoad < 0.0 ==>
      EnergyCost(RouteSlot(netLoad, lBuy, lSell, lMarketBuy, lMarketSell), lBuy, lSell, lMarketBuy, lMarketSell) <= netLoad * lMarketSell
  {
    var r := RouteSlot(netLoad, lBuy, lSell, lMarketBuy, lMarketSell);
    if netLoad >= 0.0 {
      if lBuy > lMarketBuy {
        assert EnergyCost(r, lBuy, lSell, lMarketBuy, lMarketSell) == netLoad * lMarketBuy;
        ScaleKeepsOrder(netLoad, lMarketBuy, lBuy);
      } else {
        assert EnergyCost(r, lBuy, lSell, lMarketBuy, lMarketSell) == netLoad * lBuy;
        ScaleKeepsOrder(netLoad, lBuy, lMarketBuy);
      }
    } else {
      if lSell >= lMarketSell {
        assert EnergyCost(r, lBuy, lSell, lMarketBuy, lMarketSell) == netLoad * lSell;
        ScaleKeepsOrder(-netLoad, lMarketSell, lSell);
      } else {
        assert EnergyCost(r, lBuy, lSell, lMarketBuy, lMarketSell) == netLoad * lMarketSell;
        ScaleKeepsOrder(-netLoad, lSell, lMarketSell);
      }
    }
  }

  /** The excess power depends on the net load alone: it is the part of
      `|e_met| / delta_t` above `max_p`. */
  lemma {:induction false} ExtraPowerOfNetLoad(b: Backpack, t: int)
    requires Aligned(b) && b.deltaT != 0.0 && 0 <= t < |b.lBuy|
    ensures ExtraAt(b, t) == Max(Abs(b.eMet[t]) / b.deltaT - b.maxP, 0.0)
  {
    NetFlowOfRoute(b.eMet[t], b.lBuy[t], b.lSell[t], b.lMarketBuy[t], b.lMarketSell[t]);
    ExtraPowerOfFlow(RouteAt(b, t), b.deltaT, b.maxP, b.eMet[t]);
  }

  lemma {:induction false} NetFlowOfRoute(netLoad: real, lBuy: real, lSell: real, lMarketBuy: real, lMarketSell: real)
    ensures NetFlow(RouteSlot(netLoad, lBuy, lSell, lMarketBuy, lMarketSell)) == netLoad
  {
  }

  lemma {:induction false} ExtraPowerOfFlow(r: Route, deltaT: real, maxP: real, e: real)
    requires deltaT != 0.0 && NetFlow(r) == e
    ensures ExtraPower(r, deltaT, maxP) == Max(Abs(e) / deltaT - maxP, 0.0)
  {
  }

  /** The excess power is never negative, and positive exactly when the
      slot's power exceeds `max_p`. */
  lemma {:induction false} ExtraPowerSign(b: Backpack, t: int)
    requires Aligned(b) && b.deltaT != 0.0 && 0 <= t < |b.lBuy|
    ensures ExtraAt(b, t) >= 0.0
    ensures ExtraAt(b, t) > 0.0 <==> Abs(b.eMet[t]) / b.deltaT > b.maxP
  {
    ExtraPowerOfNetLoad(b, t);
    PositivePart(Abs(b.eMet[t]) / b.deltaT, b.maxP);
  }

  lemma {:induction false} PositivePart(power: real, maxP: real)
    ensures Max(power - maxP, 0.0) >= 0.0
    ensures Max(power - maxP, 0.0) > 0.0 <==> power > maxP
  {
  }

  /** The function fails exactly when a series is misaligned with `l_buy`,
      naming the first one in the order the assertions are written;
      otherwise every output list has one entry per slot and the flows
      rebuild the net load. */
  lemma {:induction false} IndividualCostShape(b: Backpack)
    requires b.deltaT != 0.0
    ensures IndividualCostOf(b).Ok? <==> Aligned(b)
    ensures |b.lSell| != |b.lBuy| ==> IndividualCostOf(b) == Err(SellTariffLength)
    ensures IndividualCostOf(b).Ok? ==>
      var o := IndividualCostOf(b).value;
      |o.eSupMarket| == |b.lBuy| && |o.eSupRetail| == |b.lBuy| && |o.eSurMarket| == |b.lBuy| &&
      |o.eSurRetail| == |b.lBuy| && |o.pExtra| == |b.lBuy| && o.meterId == b.id &&
      forall t :: 0 <= t < |b.lBuy| ==>
        o.eSupRetail[t] + o.eSupMarket[t] - o.eSurRetail[t] - o.eSurMarket[t] == b.eMet[t] && o.pExtra[t] >= 0.0
  {
    if Aligned(b) {
      var o := IndividualCostOf(b).value;
      forall t | 0 <= t < |b.lBuy|
        ensures o.eSupRetail[t] + o.eSupMarket[t] - o.eSurRetail[t] - o.eSurMarket[t] == b.eMet[t] && o.pExtra[t] >= 0.0
      {
        RouteSlotMeaning(b.eMet[t], b.lBuy[t], b.lSell[t], b.lMarketBuy[t], b.lMarketSell[t]);
        ExtraPowerSign(b, t);
      }
    }
  }

  /** The reference meter: 1.275 kWh bought at the market, 0.5 kWh sold to
      the retailer and 0.5 kWh bought from the retailer in quarter-hour
      slots, with 0.1 kW above the 5 kW limit in the first slot, costs
      2.525. */
  lemma {:induction false} ReferenceMeter()
    ensures var b := Backpack(0.25, [2.0, 2.0, 1.0], [0.5, 0.5, 0.5], [1.0, 1.0, 2.0], [0.1, 0.1, 1.0], 5.0, 10.0,
                              [1.275, -0.5, 0.5], "Meter#1");
      IndividualCostOf(b) == Ok(IndCostOutputs(2.525, "Meter#1", [1.275, 0.0, 0.0], [0.0, 0.0, 0.5], [0.0, 0.0, 0.0],
                                               [0.0, 0.5, 0.0], [0.1, 0.0, 0.0]))
  {
    var b := Backpack(0.25, [2.0, 2.0, 1.0], [0.5, 0.5, 0.5], [1.0, 1.0, 2.0], [0.1, 0.1, 1.0], 5.0, 10.0,
                      [1.275, -0.5, 0.5], "Meter#1");
    assert RouteAt(b, 0) == Route(0.0, 1.275, 0.0, 0.0);
    assert RouteAt(b, 1) == Route(0.0, 0.0, 0.5, 0.0);
    assert RouteAt(b, 2) == Route(0.5, 0.0, 0.0, 0.0);
    assert ExtraAt(b, 0) == 0.1;
    assert ExtraAt(b, 1) == 0.0;
    assert ExtraAt(b, 2) == 0.0;
    assert CostAt(b, 0) == 2.275;
    assert CostAt(b, 1) == -0.25;
    assert CostAt(b, 2) == 0.5;
    assert CostUpTo(b, 3) == 2.525;
    var o := Outputs(b);
    assert o.eSupMarket == [1.275, 0.0, 0.0];
    assert o.eSupRetail == [0.0, 0.0, 0.5];
    assert o.eSurMarket == [0.0, 0.0, 0.0];
    assert o.eSurRetail == [0.0, 0.5, 0.0];
    assert o.pExtra == [0.1, 0.0, 0.0];
    assert o.cInd == 2.525;
  }
}
