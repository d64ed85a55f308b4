/** Auction pricing for one market session of the local energy market:
    running sums of sorted offers, offer screening, the double-auction
    crossing value, the mid-market rate (MMR), the supply/demand ratio (SDR)
    and the convergence test of the iterative loop.

    Offer lists the source mutates are `array<Offer>`; everything a
    function or lemma needs is also given as a function over `seq<Offer>`. */
module PricingMechanisms {
  import opened Common
  import opened OfferOrder

  // ---------------------------------------------------------------------
  // Running sums of sorted offers (_cumsum_offers)
  // ---------------------------------------------------------------------

  /** The sell list after `sell['amount'] = abs(sell['amount'])`. */
  function AbsAmounts(s: seq<Offer>): (r: seq<Offer>)
    ensures |r| == |s|
    ensures forall i :: 0 <= i < |s| ==> r[i] == s[i].(amount := Abs(s[i].amount))
  {
    seq(|s|, i requires 0 <= i < |s| => s[i].(amount := Abs(s[i].amount)))
  }

  /** Total amount of a list of offers. */
  function SumAmounts(s: seq<Offer>): real
  {
    if s == [] then 0.0 else SumAmounts(s[..|s| - 1]) + s[|s| - 1].amount
  }

  /** Every offer's amount replaced by the total amount up to and including it. */
  function Cumulate(s: seq<Offer>): (r: seq<Offer>)
    ensures |r| == |s|
  {
    if s == [] then [] else Cumulate(s[..|s| - 1]) + [s[|s| - 1].(amount := SumAmounts(s))]
  }

  /** The cumulated offer at position i keeps its price and carries the
      total amount of the offers up to and including it. */
  lemma {:induction false} CumulateAt(s: seq<Offer>, i: nat)
    requires i < |s|
    ensures Cumulate(s)[i] == s[i].(amount := SumAmounts(s[..i + 1]))
  {
    if i == |s| - 1 {
      assert s[..i + 1] == s;
    } else {
      CumulateAt(s[..|s| - 1], i);
      assert s[..|s| - 1][..i + 1] == s[..i + 1];
    }
  }

  /** Cumulating changes amounts only: every offer keeps its origin and price. */
  lemma {:induction false} CumulateKeepsOffers(s: seq<Offer>)
    ensures forall k :: 0 <= k < |s| ==>
      Cumulate(s)[k].value == s[k].value && Cumulate(s)[k].origin == s[k].origin
  {
    forall k | 0 <= k < |s|
      ensures Cumulate(s)[k].value == s[k].value && Cumulate(s)[k].origin == s[k].origin
    {
      CumulateAt(s, k);
    }
  }

  /** What `_cumsum_offers` returns: (buyers, sellers). */
  function Cumsum(buys: seq<Offer>, sells: seq<Offer>, increment: real): (r: (seq<Offer>, seq<Offer>))
    ensures |r.0| == |buys| && |r.1| == |sells|
  {
    if |buys| == 0 && |sells| == 0 then (buys, sells)
    else (Cumulate(SortDesc(buys, increment)), Cumulate(SortAsc(AbsAmounts(sells), increment)))
  }

  /** The prefix-sum loop over a freshly sorted copy. */
  method PrefixSums(sorted: seq<Offer>) returns (acc: seq<Offer>)
    ensures acc == Cumulate(sorted)
  {
    acc := sorted;
    var i := 0;
    while i < |acc|
      invariant 0 <= i <= |acc| == |sorted|
      invariant forall k :: 0 <= k < i ==> acc[k] == sorted[k].(amount := SumAmounts(sorted[..k + 1]))
      invariant forall k :: i <= k < |acc| ==> acc[k] == sorted[k]
    {
      if i > 0 {
        assert sorted[..i + 1][..i] == sorted[..i];
        assert SumAmounts(sorted[..i + 1]) == SumAmounts(sorted[..i]) + sorted[i].amount;
        assert acc[i - 1].amount == SumAmounts(sorted[..i]);
        acc := acc[i := acc[i].(amount := acc[i].amount + acc[i - 1].amount)];
      } else {
        assert sorted[..1][..0] == [];
        assert SumAmounts(sorted[..1]) == sorted[0].amount;
      }
      i := i + 1;
    }
    forall k | 0 <= k < |sorted|
      ensures acc[k] == Cumulate(sorted)[k]
    {
      CumulateAt(sorted, k);
    }
  }

  /** `_cumsum_offers`: normalises the caller's sell amounts in place, then
      returns cumulated copies, buys descending and sells ascending. */
  method CumsumOffers(buys: seq<Offer>, sells: array<Offer>, increment: real)
    returns (buyers: seq<Offer>, sellers: seq<Offer>)
    modifies sells
    ensures sells[..] == AbsAmounts(old(sells[..]))
    ensures (buyers, sellers) == Cumsum(buys, old(sells[..]), increment)
  {
    if |buys| == 0 && sells.Length == 0 {
      return buys, sells[..];
    }
    for i := 0 to sells.Length
      invariant forall k :: 0 <= k < i ==> sells[k] == AbsAmounts(old(sells[..]))[k]
      invariant forall k :: i <= k < sells.Length ==> sells[k] == old(sells[k])
    {
      sells[i] := sells[i].(amount := Abs(sells[i].amount));
    }
    assert sells[..] == AbsAmounts(old(sells[..]));
    sellers := PrefixSums(SortAsc(sells[..], increment));
    buyers := PrefixSums(SortDesc(buys, increment));
  }

  // ---------------------------------------------------------------------
  // Offer screening (get_accepted_offers)
  // ---------------------------------------------------------------------

  /** Which side the last step of the screening walk advanced. */
  datatype Rescued = Buy | Sell | Both

  /** The screening walk from positions (s, b) of the cumulated lists;
      yields how many buy and sell offers are accepted. */
  function Screen(buyers: seq<Offer>, sellers: seq<Offer>, s: nat, b: nat, last: Rescued): (r: (nat, nat))
    requires s <= |sellers| && b <= |buyers|
    requires last == Buy ==> s < |sellers|
    requires last == Sell ==> b < |buyers|
    ensures r.0 <= |buyers| && r.1 <= |sellers|
    decreases |sellers| - s + |buyers| - b
  {
    if s < |sellers| && b < |buyers| && sellers[s].value <= buyers[b].value then
      if buyers[b].amount < sellers[s].amount then Screen(buyers, sellers, s, b + 1, Buy)
      else if sellers[s].amount < buyers[b].amount then Screen(buyers, sellers, s + 1, b, Sell)
      else Screen(buyers, sellers, s + 1, b + 1, Both)
    else
      match last
      case Buy => (b, s + 1)
      case Sell => (b + 1, s)
      case Both => (b, s)
  }

  /** What `get_accepted_offers` returns. The walk runs over the sorted
      copies but takes the offers it keeps from the caller's lists at the
      same positions, so the result is a prefix of each caller list. */
  function Accepted(buys: seq<Offer>, sells: seq<Offer>): (r: (seq<Offer>, seq<Offer>))
    ensures |r.0| <= |buys| && |r.1| <= |sells|
    ensures r.0 == buys[..|r.0|]
    ensures r.1 == AbsAmounts(sells)[..|r.1|]
  {
    if |buys| == 0 && |sells| == 0 then ([], [])
    else
      var (buyers, sellers) := Cumsum(buys, sells, 0.0);
      if |sellers| == 0 || |buyers| == 0 then ([], [])
      else
        var (nb, ns) := Screen(buyers, sellers, 0, 0, Both);
        (buys[..nb], AbsAmounts(sells)[..ns])
  }

  /** The screening with the positions the walk finds applied to the sorted
      lists it walked (buys dearest first, sells cheapest first), keeping each
      offer's own amount. `CorrectedPrunedMmr` and `CorrectedPrunedSdr`
      price with this form. */
  function AcceptedSorted(buys: seq<Offer>, sells: seq<Offer>): (r: (seq<Offer>, seq<Offer>))
    ensures |r.0| <= |buys| && |r.1| <= |sells|
    ensures r.0 == SortDesc(buys, 0.0)[..|r.0|]
    ensures r.1 == SortAsc(AbsAmounts(sells), 0.0)[..|r.1|]
  {
    var (acceptedBuys, acceptedSells) := Accepted(buys, sells);
    (SortDesc(buys, 0.0)[..|acceptedBuys|], SortAsc(AbsAmounts(sells), 0.0)[..|acceptedSells|])
  }

  /** The two-pointer walk of `get_accepted_offers` over the cumulated
      lists, collecting the caller's offers at the positions it passes. */
  method ScreenWalk(buyers: seq<Offer>, sellers: seq<Offer>, buys: seq<Offer>, sells: seq<Offer>)
    returns (screenedBuys: seq<Offer>, screenedSells: seq<Offer>)
    requires |buyers| == |buys| && |sellers| == |sells|
    ensures screenedBuys == buys[..Screen(buyers, sellers, 0, 0, Both).0]
    ensures screenedSells == sells[..Screen(buyers, sellers, 0, 0, Both).1]
  {
    screenedBuys, screenedSells := [], [];
    ghost var goal := Screen(buyers, sellers, 0, 0, Both);
    var s, b := 0, 0;
    var last := Both;
    while s < |sellers| && b < |buyers|
      invariant s <= |sellers| && b <= |buyers|
      invariant last == Buy ==> s < |sellers|
      invariant last == Sell ==> b < |buyers|
      invariant Screen(buyers, sellers, s, b, last) == goal
      invariant screenedBuys == buys[..b] && screenedSells == sells[..s]
    {
      if sellers[s].value > buyers[b].value {
        break;
      } else if buyers[b].amount < sellers[s].amount {
        assert buys[..b + 1] == buys[..b] + [buys[b]];
        screenedBuys := screenedBuys + [buys[b]];
        b := b + 1;
        last := Buy;
      } else if sellers[s].amount < buyers[b].amount {
        assert sells[..s + 1] == sells[..s] + [sells[s]];
        screenedSells := screenedSells + [sells[s]];
        s := s + 1;
        last := Sell;
      } else {
        assert buys[..b + 1] == buys[..b] + [buys[b]];
        assert sells[..s + 1] == sells[..s] + [sells[s]];
        screenedBuys := screenedBuys + [buys[b]];
        screenedSells := screenedSells + [sells[s]];
        b := b + 1;
        s := s + 1;
        last := Both;
      }
    }
    if last == Buy {
      assert sells[..s + 1] == sells[..s] + [sells[s]];
      screenedSells := screenedSells + [sells[s]];
    } else if last == Sell {
      assert buys[..b + 1] == buys[..b] + [buys[b]];
      screenedBuys := screenedBuys + [buys[b]];
    }
  }

  /** `get_accepted_offers`: normalises the caller's sell amounts in place
      and returns the accepted prefixes of both lists. */
  method GetAcceptedOffers(buys: seq<Offer>, sells: array<Offer>)
    returns (screenedBuys: seq<Offer>, screenedSells: seq<Offer>)
    modifies sells
    ensures |buys| + sells.Length > 0 ==> sells[..] == AbsAmounts(old(sells[..]))
    ensures |buys| + sells.Length == 0 ==> sells[..] == old(sells[..])
    ensures (screenedBuys, screenedSells) == Accepted(buys, old(sells[..]))
  {
    if |buys| == 0 && sells.Length == 0 {
      return [], [];
    }
    var buyers, sellers := CumsumOffers(buys, sells, 0.0);
    if |sellers| == 0 || |buyers| == 0 {
      return [], [];
    }
    screenedBuys, screenedSells := ScreenWalk(buyers, sellers, buys, sells[..]);
  }

  // ---------------------------------------------------------------------
  // Crossing value (compute_crossing_value)
  // ---------------------------------------------------------------------

  /** The crossing walk from positions (s, b), both still inside their
      lists, with `last` the last sold position. Its value is what the
      loop's last assignment to `crossing_value` stores. */
  function CrossStep(buyers: seq<Offer>, sellers: seq<Offer>, s: nat, b: nat, last: real): real
    requires s < |sellers| && b < |buyers|
    decreases |sellers| - s + |buyers| - b
  {
    if sellers[s].value >= buyers[b].value then last
    else if buyers[b].amount > sellers[s].amount then
      if s + 1 < |sellers| then CrossStep(buyers, sellers, s + 1, b, sellers[s].value)
      else buyers[b].value
    else
      if b + 1 < |buyers| then CrossStep(buyers, sellers, s, b + 1, sellers[s].value)
      else sellers[s].value
  }

  /** What `compute_crossing_value` returns. */
  function CrossingValue(buys: seq<Offer>, sells: seq<Offer>, increment: real): real
  {
    if |buys| == 0 && |sells| == 0 then 0.0
    else
      var (buyers, sellers) := Cumsum(buys, sells, increment);
      if |sellers| == 0 then buyers[0].value
      else if |buyers| == 0 then sellers[0].value
      else CrossStep(buyers, sellers, 0, 0, sellers[0].value)
  }

  /** `compute_crossing_value`: the empty case, the cumulated lists, the
      one-sided cases, then the two-pointer walk. */
  method ComputeCrossingValue(buys: seq<Offer>, sells: array<Offer>, increment: real)
    returns (price: real)
    modifies sells
    ensures |buys| + sells.Length > 0 ==> sells[..] == AbsAmounts(old(sells[..]))
    ensures |buys| + sells.Length == 0 ==> sells[..] == old(sells[..])
    ensures price == CrossingValue(buys, old(sells[..]), increment)
  {
    if |buys| == 0 && sells.Length == 0 {
      return 0.0;
    }
    var buyers, sellers := CumsumOffers(buys, sells, increment);
    if |sellers| == 0 {
      price := buyers[0].value;
    } else if |buyers| == 0 {
      price := sellers[0].value;
    } else {
      price := CrossingWalk(buyers, sellers);
    }
  }

  /** The walk of `compute_crossing_value` as a loop. It starts with no
      crossing value and assigns one on every pass, so with both sides
      non-empty a value is always found. */
  method CrossingWalk(buyers: seq<Offer>, sellers: seq<Offer>) returns (price: real)
    requires |buyers| > 0 && |sellers| > 0
    ensures price == CrossStep(buyers, sellers, 0, 0, sellers[0].value)
  {
    ghost var goal := CrossStep(buyers, sellers, 0, 0, sellers[0].value);
    var crossing: Option<real> := None;
    var lastSold := sellers[0].value;
    var s, b := 0, 0;
    while s < |sellers| && b < |buyers|
      invariant s <= |sellers| && b <= |buyers|
      invariant s < |sellers| && b < |buyers| ==> CrossStep(buyers, sellers, s, b, lastSold) == goal
      invariant !(s < |sellers| && b < |buyers|) ==> crossing == Some(goal)
    {
      if sellers[s].value >= buyers[b].value {
        crossing := Some(lastSold);
        break;
      } else {
        lastSold := sellers[s].value;
        if buyers[b].amount > sellers[s].amount {
          crossing := Some(buyers[b].value);
          s := s + 1;
        } else {
          crossing := Some(sellers[s].value);
          b := b + 1;
        }
      }
    }
    price := crossing.value;
  }

  // ---------------------------------------------------------------------
  // Closed-form prices (compute_mmr, compute_sdr and their pruned forms)
  // ---------------------------------------------------------------------

  /** Errors the pricing functions raise. */
  datatype PricingError =
    | CompensationOutOfRange   // the assertion on `compensation`
    | NegativeRatio            // "A negative SDR was computed"
    | DividerOutOfRange        // the wrappers' assertion on `divider`
    | EmptySide                // `buyers[-1]` / `sellers[-1]` on an empty list
    | UnexpectedKeyword        // a keyword argument the function does not declare

  /** A price, a division by zero that numpy turns into inf or nan
      (no exception, no finite price), or a raised error. */
  datatype PriceResult = Price(value: real) | NonFinite | Raised(error: PricingError)

  /** The increment `compute_crossing_value` uses when called without one. */
  const DefaultIncrement: real := 0.001

  /** What `compute_mmr` returns. */
  function Mmr(buys: seq<Offer>, sells: seq<Offer>, divisor: real): PriceResult
  {
    if |sells| == 0 && |buys| > 0 then Price(MaxValue(buys))
    else if |buys| == 0 && |sells| > 0 then Price(MinValue(sells))
    else if |buys| == 0 || |sells| == 0 then Price(0.0)
    else if MinValue(buys) < MaxValue(sells) then Price(CrossingValue(buys, sells, DefaultIncrement))
    else if divisor == 0.0 then NonFinite
    else Price((MinValue(buys) + MaxValue(sells)) / divisor)
  }

  /** What `compute_pruned_mmr` returns: the MMR of the offers
      `get_accepted_offers` keeps, as written (prefixes of the caller's
      lists). */
  function PrunedMmr(buys: seq<Offer>, sells: seq<Offer>, divisor: real): PriceResult
  {
    var (acceptedBuys, acceptedSells) := Accepted(buys, sells);
    Mmr(acceptedBuys, acceptedSells, divisor)
  }

  /** The pruned MMR over the corrected screening, which keeps the offers
      at the accepted positions of the sorted lists. */
  function CorrectedPrunedMmr(buys: seq<Offer>, sells: seq<Offer>, divisor: real): PriceResult
  {
    var (acceptedBuys, acceptedSells) := AcceptedSorted(buys, sells);
    Mmr(acceptedBuys, acceptedSells, divisor)
  }

  /** The closing branch of `compute_sdr` for supply `eQ`, demand `dQ`,
      lowest bid `minBuy`, highest ask `maxSell` and compensation share
      `compensation`; the compensation price `lComp` is that share of the
      spread. */
  function SdrFormula(eQ: real, dQ: real, minBuy: real, maxSell: real, compensation: real): PriceResult
  {
    var lComp := (minBuy - maxSell) * compensation;
    if dQ == 0.0 then
      // e_q / 0 is inf for e_q > 0 (price 0) and nan for e_q == 0, which no branch accepts
      if eQ > 0.0 then Price(0.0) else Raised(NegativeRatio)
    else
      var ratio := eQ / dQ;
      if ratio >= 1.0 then Price(maxSell + lComp / ratio)
      else if 0.0 <= ratio then
        var denominator := (minBuy - maxSell - lComp) * ratio + maxSell + lComp;
        if denominator == 0.0 then NonFinite
        else Price((minBuy * (maxSell + lComp)) / denominator)
      else Raised(NegativeRatio)
  }

  /** What `compute_sdr` returns. */
  function Sdr(buys: seq<Offer>, sells: seq<Offer>, compensation: real): PriceResult
  {
    if !(0.0 <= compensation <= 1.0) then Raised(CompensationOutOfRange)
    else if |sells| == 0 && |buys| > 0 then Price(MaxValue(buys))
    else if |buys| == 0 && |sells| > 0 then Price(MinValue(sells))
    else if |buys| == 0 && |sells| == 0 then Price(0.0)
    else if MinValue(buys) < MaxValue(sells) then Price(CrossingValue(buys, sells, DefaultIncrement))
    else SdrClosing(buys, sells, compensation)
  }

  /** The closing formula applied to a session's offers: supply over
      demand, cheapest bid, dearest ask and the compensation's share of
      the spread. */
  function SdrClosing(buys: seq<Offer>, sells: seq<Offer>, compensation: real): PriceResult
    requires |buys| > 0 && |sells| > 0
  {
    SdrFormula(SumAmounts(AbsAmounts(sells)), SumAmounts(buys), MinValue(buys), MaxValue(sells), compensation)
  }

  /** What `compute_pruned_sdr` returns: the SDR of the offers
      `get_accepted_offers` keeps, as written. */
  function PrunedSdr(buys: seq<Offer>, sells: seq<Offer>, compensation: real): PriceResult
  {
    var (acceptedBuys, acceptedSells) := Accepted(buys, sells);
    Sdr(acceptedBuys, acceptedSells, compensation)
  }

  /** The pruned SDR over the corrected screening. */
  function CorrectedPrunedSdr(buys: seq<Offer>, sells: seq<Offer>, compensation: real): PriceResult
  {
    var (acceptedBuys, acceptedSells) := AcceptedSorted(buys, sells);
    Sdr(acceptedBuys, acceptedSells, compensation)
  }

  /** What `do_offers_cross` returns: whether the last (cheapest) bid is
      below the last (dearest) ask of the sorted lists. */
  function DoOffersCross(buys: seq<Offer>, sells: seq<Offer>): Result<bool, PricingError>
  {
    if |buys| == 0 && |sells| == 0 then Ok(false)
    else
      var (buyers, sellers) := Cumsum(buys, sells, 0.0);
      if |buyers| == 0 || |sellers| == 0 then Err(EmptySide)
      else Ok(buyers[|buyers| - 1].value < sellers[|sellers| - 1].value)
  }

  // ---------------------------------------------------------------------
  // Convergence test (stop_criterion)
  // ---------------------------------------------------------------------

  /** Sum of squared differences of two price vectors. */
  function SquaredDistance(a: seq<real>, b: seq<real>): real
    requires |a| == |b|
  {
    if a == [] then 0.0
    else
      var d := a[|a| - 1] - b[|b| - 1];
      SquaredDistance(a[..|a| - 1], b[..|b| - 1]) + d * d
  }

  /** The stopping threshold 0.01 on the distance, squared. */
  const SquaredTolerance: real := 0.0001

  /** `stop_criterion`: whether two price vectors are closer than 0.01 in
      Euclidean distance, with the distance reported as its square. */
  function StopCriterion(oldPrices: seq<real>, newPrices: seq<real>): (r: (bool, real))
    requires |oldPrices| == |newPrices|
  {
    var d := SquaredDistance(oldPrices, newPrices);
    (d < SquaredTolerance, d)
  }
}
