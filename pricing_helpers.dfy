/** The offer model of the local energy market: every community member
    (meter) turns its net load in each market session into at most one buy
    or sell offer, priced at the better of its retail opportunity cost and
    the market-indexed tariff (`make_offers` in pricing_helpers.py). */
module PricingHelpers {
  import opened Common

  /** The forecast series of one meter: net load (positive = consuming),
      retail buying and retail selling opportunity costs, one entry per
      market session. */
  datatype MeterData = MeterData(eMet: seq<real>, lBuy: seq<real>, lSell: seq<real>)

  /** The meters dictionary, in its insertion (iteration) order. */
  type Meters = seq<(MemberId, MeterData)>

  /** A dictionary holds every key once. */
  predicate DistinctIds(meters: Meters)
  {
    forall i, j :: 0 <= i < j < |meters| ==> meters[i].0 != meters[j].0
  }

  /** Which length assertion of `make_offers` fails. */
  datatype ShapeError =
    | MarketBuyLength
    | MarketSellLength
    | NetLoadLength(meter: MemberId)
    | BuyCostLength(meter: MemberId)
    | SellCostLength(meter: MemberId)

  /** Every series of every meter has one entry per session. */
  predicate Shaped(meters: Meters, n: int)
  {
    forall k :: 0 <= k < |meters| ==>
      |meters[k].1.eMet| == n && |meters[k].1.lBuy| == n && |meters[k].1.lSell| == n
  }

  /** The first meter assertion that fails, in dictionary order. */
  function MeterShapeError(meters: Meters, n: int): (r: Option<ShapeError>)
    ensures r.None? <==> Shaped(meters, n)
  {
    if |meters| == 0 then None
    else
      var (id, m) := meters[0];
      if |m.eMet| != n then Some(NetLoadLength(id))
      else if |m.lBuy| != n then Some(BuyCostLength(id))
      else if |m.lSell| != n then Some(SellCostLength(id))
      else
        var rest := MeterShapeError(meters[1..], n);
        assert Shaped(meters, n) <==> Shaped(meters[1..], n) by {
          if Shaped(meters[1..], n) {
            forall k | 0 <= k < |meters|
              ensures |meters[k].1.eMet| == n && |meters[k].1.lBuy| == n && |meters[k].1.lSell| == n
            {
              if k > 0 {
                assert meters[k] == meters[1..][k - 1];
              }
            }
          }
        }
        rest
  }

  /** The first assertion of `make_offers` that fails, if any. */
  function ShapeCheck(meters: Meters, n: int, lMarketBuy: seq<real>, lMarketSell: seq<real>): Option<ShapeError>
  {
    if |lMarketBuy| != n then Some(MarketBuyLength)
    else if |lMarketSell| != n then Some(MarketSellLength)
    else MeterShapeError(meters, n)
  }

  /** The buy offer meter `id` makes in session `t`: its consumption, at the
      lower of its retail buying cost and the market buying tariff. */
  function BuyOffer(id: MemberId, m: MeterData, t: int, lMarketBuy: seq<real>): Option<Offer>
    requires 0 <= t < |m.eMet| && t < |m.lBuy| && t < |lMarketBuy|
  {
    if m.eMet[t] > 0.0 then Some(Offer(id, m.eMet[t], Min(m.lBuy[t], lMarketBuy[t]))) else None
  }

  /** The sell offer meter `id` makes in session `t`: its injection, at the
      higher of its retail selling cost and the market selling tariff. */
  function SellOffer(id: MemberId, m: MeterData, t: int, lMarketSell: seq<real>): Option<Offer>
    requires 0 <= t < |m.eMet| && t < |m.lSell| && t < |lMarketSell|
  {
    if m.eMet[t] < 0.0 then Some(Offer(id, Abs(m.eMet[t]), Max(m.lSell[t], lMarketSell[t]))) else None
  }

  function OptionSeq(o: Option<Offer>): seq<Offer>
  {
    if o.Some? then [o.value] else []
  }

  /** The buy offers of session `t`, in meter order. */
  function SessionBuys(meters: Meters, t: int, lMarketBuy: seq<real>): seq<Offer>
    requires Shaped(meters, |lMarketBuy|) && 0 <= t < |lMarketBuy|
  {
    if |meters| == 0 then []
    else
      var last := meters[|meters| - 1];
      SessionBuys(meters[..|meters| - 1], t, lMarketBuy) + OptionSeq(BuyOffer(last.0, last.1, t, lMarketBuy))
  }

  /** The sell offers of session `t`, in meter order. */
  function SessionSells(meters: Meters, t: int, lMarketSell: seq<real>): seq<Offer>
    requires Shaped(meters, |lMarketSell|) && 0 <= t < |lMarketSell|
  {
    if |meters| == 0 then []
    else
      var last := meters[|meters| - 1];
      SessionSells(meters[..|meters| - 1], t, lMarketSell) + OptionSeq(SellOffer(last.0, last.1, t, lMarketSell))
  }

  /** What `make_offers` returns: the buy and the sell offers of every
      session, or the assertion it fails. */
  function OfferBook(meters: Meters, n: int, lMarketBuy: seq<real>, lMarketSell: seq<real>)
    : Result<(seq<seq<Offer>>, seq<seq<Offer>>), ShapeError>
  {
    match ShapeCheck(meters, n, lMarketBuy, lMarketSell)
    case Some(e) => Err(e)
    case None =>
      Ok((seq(n, t requires 0 <= t < n => SessionBuys(meters, t, lMarketBuy)),
          seq(n, t requires 0 <= t < n => SessionSells(meters, t, lMarketSell))))
  }

  /** The length assertions of `make_offers`, in the order it makes them:
      the market tariffs first, then each meter's three series. */
  method CheckShapes(meters: Meters, n: int, lMarketBuy: seq<real>, lMarketSell: seq<real>) returns (e: Option<ShapeError>)
    ensures e == ShapeCheck(meters, n, lMarketBuy, lMarketSell)
  {
    if |lMarketBuy| != n {
      return Some(MarketBuyLength);
    }
    if |lMarketSell| != n {
      return Some(MarketSellLength);
    }
    for k := 0 to |meters|
      invariant MeterShapeError(meters, n) == MeterShapeError(meters[k..], n)
    {
      var (id, m) := meters[k];
      if |m.eMet| != n {
        return Some(NetLoadLength(id));
      }
      if |m.lBuy| != n {
        return Some(BuyCostLength(id));
      }
      if |m.lSell| != n {
        return Some(SellCostLength(id));
      }
      assert meters[k..][1..] == meters[k + 1..];
    }
    assert meters[|meters|..] == [];
    return None;
  }

  /** One meter's pass over the sessions: its offer, if any, joins the end
      of that session's buy or sell list. */
  method AddMeterOffers(id: MemberId, m: MeterData, n: int, lMarketBuy: seq<real>, lMarketSell: seq<real>,
                        buys: seq<seq<Offer>>, sells: seq<seq<Offer>>)
    returns (newBuys: seq<seq<Offer>>, newSells: seq<seq<Offer>>)
    requires |buys| == n && |sells| == n && |lMarketBuy| == n && |lMarketSell| == n
    requires |m.eMet| == n && |m.lBuy| == n && |m.lSell| == n
    ensures |newBuys| == n && |newSells| == n
    ensures forall t :: 0 <= t < n ==> newBuys[t] == buys[t] + OptionSeq(BuyOffer(id, m, t, lMarketBuy))
    ensures forall t :: 0 <= t < n ==> newSells[t] == sells[t] + OptionSeq(SellOffer(id, m, t, lMarketSell))
  {
    newBuys, newSells := buys, sells;
    for t := 0 to n
      invariant |newBuys| == n && |newSells| == n
      invariant forall u :: 0 <= u < t ==> newBuys[u] == buys[u] + OptionSeq(BuyOffer(id, m, u, lMarketBuy))
      invariant forall u :: 0 <= u < t ==> newSells[u] == sells[u] + OptionSeq(SellOffer(id, m, u, lMarketSell))
      invariant forall u :: t <= u < n ==> newBuys[u] == buys[u] && newSells[u] == sells[u]
    {
      var eMet := m.eMet[t];
      if eMet > 0.0 {
        newBuys := newBuys[t := newBuys[t] + [Offer(id, eMet, Min(m.lBuy[t], lMarketBuy[t]))]];
      } else if eMet < 0.0 {
        newSells := newSells[t := newSells[t] + [Offer(id, Abs(eMet), Max(m.lSell[t], lMarketSell[t]))]];
      }
    }
  }

  /** `make_offers`: checks every series length, then walks the meters and,
      for each, the sessions, appending the meter's offer to that session's
      buy or sell list. */
  method MakeOffers(meters: Meters, n: int, lMarketBuy: seq<real>, lMarketSell: seq<real>)
    returns (r: Result<(seq<seq<Offer>>, seq<seq<Offer>>), ShapeError>)
    ensures r == OfferBook(meters, n, lMarketBuy, lMarketSell)
  {
    var shape := CheckShapes(meters, n, lMarketBuy, lMarketSell);
    if shape.Some? {
      return Err(shape.value);
    }
    var buys: seq<seq<Offer>> := seq(n, _ => []);
    var sells: seq<seq<Offer>> := seq(n, _ => []);
    assert meters[..0] == [];
    for k := 0 to |meters|
      invariant |buys| == n && |sells| == n
      invariant forall t :: 0 <= t < n ==> buys[t] == SessionBuys(meters[..k], t, lMarketBuy)
      invariant forall t :: 0 <= t < n ==> sells[t] == SessionSells(meters[..k], t, lMarketSell)
    {
      var (id, m) := meters[k];
      assert meters[..k + 1][..k] == meters[..k] && meters[..k + 1][k] == (id, m);
      buys, sells := AddMeterOffers(id, m, n, lMarketBuy, lMarketSell, buys, sells);
    }
    assert meters[..|meters|] == meters;
    assert buys == seq(n, t requires 0 <= t < n => SessionBuys(meters, t, lMarketBuy));
    assert sells == seq(n, t requires 0 <= t < n => SessionSells(meters, t, lMarketSell));
    return Ok((buys, sells));
  }
}
