/** The entry points of the pricing library (pricing_mechanisms_functions.py):
    single-session prices behind parameter checks, and the iterative loop
    that alternates pricing every session of the horizon with a collective
    schedule optimisation until the prices settle. The optimiser is a
    parameter: a function from the session prices to an objective value and
    a new net load per meter, or no solution. */
module PricingFunctions {
  import opened Common
  import opened PricingMechanisms
  import opened PricingHelpers
  import opened MilpHelpers
  import opened PricingProperties

  // ---------------------------------------------------------------------
  // Single-session entry points
  // ---------------------------------------------------------------------

  /** `accepted_offers`: the offers a market pool would accept, as
      `get_accepted_offers` screens them: a leading part of the bids and of
      the (made absolute) asks, bids kept exactly when asks are, and any kept
      exactly when both sides are present and the cheapest ask is not dearer
      than the dearest bid. */
  function AcceptedOffers(buys: seq<Offer>, sells: seq<Offer>): (r: (seq<Offer>, seq<Offer>))
    ensures |r.0| <= |buys| && r.0 == buys[..|r.0|]
    ensures |r.1| <= |sells| && r.1 == AbsAmounts(sells)[..|r.1|]
    ensures (|r.0| > 0) == (|r.1| > 0)
    ensures |r.0| > 0 <==> |buys| > 0 && |sells| > 0 && MinValue(sells) <= MaxValue(buys)
  {
    AcceptedBothOrNeither(buys, sells);
    Accepted(buys, sells)
  }

  /** `vanilla_mmr`: the divider is checked to lie in [0, 1], then handed to
      the (pruned) mid-market rate as its divisor. */
  function VanillaMmr(buys: seq<Offer>, sells: seq<Offer>, pruned: bool, divider: real): PriceResult
  {
    if !(0.0 <= divider <= 1.0) then Raised(DividerOutOfRange)
    else if pruned then PrunedMmr(buys, sells, divider)
    else Mmr(buys, sells, divider)
  }

  /** `vanilla_sdr`: the compensation is checked to lie in [0, 1], then the
      (pruned) supply and demand ratio is computed. */
  function VanillaSdr(buys: seq<Offer>, sells: seq<Offer>, pruned: bool, compensation: real): PriceResult
  {
    if !(0.0 <= compensation <= 1.0) then Raised(CompensationOutOfRange)
    else if pruned then PrunedSdr(buys, sells, compensation)
    else Sdr(buys, sells, compensation)
  }

  /** The increment `vanilla_crossing_value` uses when called without one. */
  const VanillaIncrement: real := 0.0

  /** `vanilla_crossing_value`: the pool crossing value. */
  function VanillaCrossingValue(buys: seq<Offer>, sells: seq<Offer>, increment: real): real
  {
    CrossingValue(buys, sells, increment)
  }

  // ---------------------------------------------------------------------
  // Loop data
  // ---------------------------------------------------------------------

  /** One meter of the loop's input: consumption and generation forecasts
      and its retail buying and selling opportunity costs. */
  datatype LoopMeter = LoopMeter(eC: seq<real>, eG: seq<real>, lBuy: seq<real>, lSell: seq<real>)

  /** What the optimiser returns: the objective value (the community's
      operating cost) and the scheduled net load of each meter. */
  datatype Solution = Solution(objective: real, netLoads: seq<(MemberId, seq<real>)>)

  /** A price rule for one session's buy and sell offers. */
  type PricingRule = (seq<Offer>, seq<Offer>) -> PriceResult

  /** The collective schedule optimisation, as a function of the prices. */
  type Optimizer = seq<real> -> Option<Solution>

  /** Why the loop stops without a result. */
  datatype LoopError =
    | BadSessions(timeError: TimeError)                  // `time_intervals` raised
    | BadOffers(shapeError: ShapeError)                  // an assertion of `make_offers`
    | PricingFailed(session: int, outcome: PriceResult)  // no finite price for a session
    | SolverFailed                                       // the optimiser found no schedule
    | UnknownMeter(meter: MemberId)                      // a scheduled meter not in `meters`
    | Rejected(guard: PricingError)                      // a wrapper's parameter assertion

  /** What `_common_loop` returns: the best prices, the convergence distance
      (squared) when the loop converged, the iterations run and the best
      optimiser solution. */
  datatype LoopOutcome = LoopOutcome(prices: seq<real>, criterion: Option<real>, iterations: int, solution: Option<Solution>)

  /** What `_common_highway` returns: the final prices and the solution. */
  datatype HighwayOutcome = HighwayOutcome(prices: seq<real>, solution: Solution)

  /** The data the loop reads; only the prices handed to the optimiser
      (`backpack['l_lem']`) change. */
  class LoopBackpack {
    const meters: seq<(MemberId, LoopMeter)>
    const horizon: real
    const deltaT: real
    const lMarketBuy: seq<real>
    const lMarketSell: seq<real>
    var lLem: seq<real>

    constructor (meters: seq<(MemberId, LoopMeter)>, horizon: real, deltaT: real, lMarketBuy: seq<real>,
                 lMarketSell: seq<real>)
      ensures this.meters == meters && this.horizon == horizon && this.deltaT == deltaT
      ensures this.lMarketBuy == lMarketBuy && this.lMarketSell == lMarketSell && this.lLem == []
    {
      this.meters := meters;
      this.horizon := horizon;
      this.deltaT := deltaT;
      this.lMarketBuy := lMarketBuy;
      this.lMarketSell := lMarketSell;
      this.lLem := [];
    }
  }

  /** Consumption minus generation, pairwise; `zip` stops at the shorter
      series. */
  function NetLoad(eC: seq<real>, eG: seq<real>): (r: seq<real>)
    ensures |r| <= |eC| && |r| <= |eG| && (|r| == |eC| || |r| == |eG|)
    ensures forall i :: 0 <= i < |r| ==> r[i] == eC[i] - eG[i]
  {
    var n := if |eC| < |eG| then |eC| else |eG|;
    seq(n, i requires 0 <= i < n => eC[i] - eG[i])
  }

  /** The meters the first offers are built from: each meter's net load and
      opportunity costs. */
  function InitialMeters(meters: seq<(MemberId, LoopMeter)>): (r: Meters)
    ensures |r| == |meters|
    ensures forall k :: 0 <= k < |meters| ==> r[k].0 == meters[k].0
  {
    seq(|meters|, k requires 0 <= k < |meters| =>
      (meters[k].0, MeterData(NetLoad(meters[k].1.eC, meters[k].1.eG), meters[k].1.lBuy, meters[k].1.lSell)))
  }

  /** The far-fetched starting price of every session. */
  const InitialPrice: real := 10.0

  /** The starting prices: one per session. */
  function InitialPrices(n: int): (r: seq<real>)
    ensures |r| == if n > 0 then n else 0
    ensures forall t :: 0 <= t < |r| ==> r[t] == InitialPrice
  {
    if n > 0 then seq(n, t requires 0 <= t < n => InitialPrice) else []
  }

  /** The iteration cap. */
  const MaxIterations: int := 20

  /** The objective value the loop starts from. */
  const InitialObjective: real := 1000000.0

  /** The best objective value the loop starts from: a solution is kept only
      if its objective is below it. */
  const BestSentinel: real := 100000.0

  // ---------------------------------------------------------------------
  // One pass: offers, prices, optimisation, new net loads
  // ---------------------------------------------------------------------

  /** The prices of the first `k` sessions, or the first session whose rule
      gives no finite price. */
  function PricesUpTo(price: PricingRule, buys: seq<seq<Offer>>, sells: seq<seq<Offer>>, k: int)
    : (r: Result<seq<real>, LoopError>)
    requires 0 <= k <= |buys| && |sells| == |buys|
    ensures r.Ok? ==> |r.value| == k && forall t :: 0 <= t < k ==> price(buys[t], sells[t]) == Price(r.value[t])
    ensures r.Ok? <==> forall t :: 0 <= t < k ==> price(buys[t], sells[t]).Price?
    ensures r.Err? ==> exists t :: (0 <= t < k && r.error == PricingFailed(t, price(buys[t], sells[t])) &&
      !price(buys[t], sells[t]).Price? && forall u :: 0 <= u < t ==> price(buys[u], sells[u]).Price?)
  {
    if k == 0 then Ok([])
    else
      match PricesUpTo(price, buys, sells, k - 1)
      case Err(e) => Err(e)
      case Ok(ps) =>
        var p := price(buys[k - 1], sells[k - 1]);
        if p.Price? then Ok(ps + [p.value]) else Err(PricingFailed(k - 1, p))
  }

  /** The prices of every session with offers. */
  function SessionPrices(price: PricingRule, buys: seq<seq<Offer>>, sells: seq<seq<Offer>>): Result<seq<real>, LoopError>
    requires |sells| == |buys|
  {
    PricesUpTo(price, buys, sells, |buys|)
  }

  /** `[pricing_func(buys[t], sells[t]) for t in range(nr_sessions)]`: the
      first session without a finite price stops the computation. */
  method PriceSessions(price: PricingRule, buys: seq<seq<Offer>>, sells: seq<seq<Offer>>)
    returns (r: Result<seq<real>, LoopError>)
    requires |sells| == |buys|
    ensures r == SessionPrices(price, buys, sells)
  {
    var prices: seq<real> := [];
    for t := 0 to |buys|
      invariant PricesUpTo(price, buys, sells, t) == Ok(prices)
    {
      var p := price(buys[t], sells[t]);
      if !p.Price? {
        return Err(PricingFailed(t, p));
      }
      prices := prices + [p.value];
    }
    return Ok(prices);
  }

  /** The meters' identifiers, in order. */
  function Ids(state: Meters): (r: seq<MemberId>)
    ensures |r| == |state| && forall k :: 0 <= k < |state| ==> r[k] == state[k].0
  {
    seq(|state|, k requires 0 <= k < |state| => state[k].0)
  }

  /** The meters with meter `id`'s net load replaced by `data`. */
  function SetNetLoad(state: Meters, id: MemberId, data: seq<real>): (r: Meters)
    ensures |r| == |state|
    ensures forall k :: 0 <= k < |state| ==> r[k].0 == state[k].0
  {
    seq(|state|, k requires 0 <= k < |state| => if state[k].0 == id then (id, state[k].1.(eMet := data)) else state[k])
  }

  /** The meters after each scheduled net load has been written back, in the
      optimiser's order; a scheduled meter that is not a known meter
      raises. */
  function UpdateNetLoads(state: Meters, netLoads: seq<(MemberId, seq<real>)>): (r: Result<Meters, LoopError>)
    ensures r.Ok? ==> Ids(r.value) == Ids(state)
  {
    if |netLoads| == 0 then Ok(state)
    else
      match UpdateNetLoads(state, netLoads[..|netLoads| - 1])
      case Err(e) => Err(e)
      case Ok(s) =>
        var (id, data) := netLoads[|netLoads| - 1];
        if id in Ids(s) then Ok(SetNetLoad(s, id, data)) else Err(UnknownMeter(id))
  }

  /** The loop that writes the optimiser's net loads back into `meters`. */
  method WriteNetLoads(state: Meters, netLoads: seq<(MemberId, seq<real>)>) returns (r: Result<Meters, LoopError>)
    ensures r == UpdateNetLoads(state, netLoads)
  {
    var current := state;
    for i := 0 to |netLoads|
      invariant UpdateNetLoads(state, netLoads[..i]) == Ok(current)
    {
      assert netLoads[..i + 1][..i] == netLoads[..i];
      var (id, data) := netLoads[i];
      if id !in Ids(current) {
        UpdateNetLoadsErrSticks(state, netLoads, i + 1);
        return Err(UnknownMeter(id));
      }
      current := SetNetLoad(current, id, data);
    }
    assert netLoads[..|netLoads|] == netLoads;
    return Ok(current);
  }

  /** Once a prefix of the scheduled net loads names an unknown meter, the
      whole write-back fails with that meter. */
  lemma {:induction false} UpdateNetLoadsErrSticks(state: Meters, netLoads: seq<(MemberId, seq<real>)>, k: int)
    requires 0 <= k <= |netLoads| && UpdateNetLoads(state, netLoads[..k]).Err?
    ensures UpdateNetLoads(state, netLoads) == UpdateNetLoads(state, netLoads[..k])
    decreases |netLoads| - k
  {
    if k < |netLoads| {
      assert netLoads[..k + 1][..k] == netLoads[..k];
      UpdateNetLoadsErrSticks(state, netLoads, k + 1);
    } else {
      assert netLoads[..k] == netLoads;
    }
  }

  /** The session prices the meters' offers give. */
  function PricesOf(price: PricingRule, n: int, lMarketBuy: seq<real>, lMarketSell: seq<real>, state: Meters)
    : Result<seq<real>, LoopError>
  {
    match OfferBook(state, n, lMarketBuy, lMarketSell)
    case Err(e) => Err(BadOffers(e))
    case Ok(book) => SessionPrices(price, book.0, book.1)
  }

  /** The optimiser's solution for the prices and the meters with its net
      loads written back. */
  function Schedule(optimize: Optimizer, prices: seq<real>, state: Meters): Result<(Solution, Meters), LoopError>
  {
    match optimize(prices)
    case None => Err(SolverFailed)
    case Some(sol) =>
      match UpdateNetLoads(state, sol.netLoads)
      case Err(e) => Err(e)
      case Ok(next) => Ok((sol, next))
  }

  /** One pass of the loop from the meters' current net loads: the session
      prices, the optimiser's solution for them and the meters with the
      scheduled net loads written back. */
  function Pass(price: PricingRule, optimize: Optimizer, n: int, lMarketBuy: seq<real>, lMarketSell: seq<real>,
                state: Meters): Result<(seq<real>, Solution, Meters), LoopError>
  {
    match PricesOf(price, n, lMarketBuy, lMarketSell, state)
    case Err(e) => Err(e)
    case Ok(prices) =>
      match Schedule(optimize, prices, state)
      case Err(e) => Err(e)
      case Ok((sol, next)) => Ok((prices, sol, next))
  }

  /** The optimiser call followed by the loop writing its net loads back. */
  method RunSchedule(optimize: Optimizer, prices: seq<real>, state: Meters) returns (r: Result<(Solution, Meters), LoopError>)
    ensures r == Schedule(optimize, prices, state)
  {
    var solution := optimize(prices);
    if solution.None? {
      return Err(SolverFailed);
    }
    var next := WriteNetLoads(state, solution.value.netLoads);
    if next.Err? {
      return Err(next.error);
    }
    return Ok((solution.value, next.value));
  }

  /** `make_offers` followed by the session prices. */
  method OfferPrices(price: PricingRule, n: int, lMarketBuy: seq<real>, lMarketSell: seq<real>, state: Meters)
    returns (r: Result<seq<real>, LoopError>)
    ensures r == PricesOf(price, n, lMarketBuy, lMarketSell, state)
  {
    var offers := MakeOffers(state, n, lMarketBuy, lMarketSell);
    if offers.Err? {
      return Err(BadOffers(offers.error));
    }
    r := PriceSessions(price, offers.value.0, offers.value.1);
  }

  // ---------------------------------------------------------------------
  // Convergence test against the history and best-so-far tracking
  // ---------------------------------------------------------------------

  /** Two price vectors of the same length within 0.01 of each other. */
  predicate Close(a: seq<real>, b: seq<real>)
  {
    |a| == |b| && StopCriterion(a, b).0
  }

  /** The first earlier price vector the current one is close to. */
  function FirstStop(history: seq<seq<real>>, prices: seq<real>): (r: Option<int>)
    ensures r.Some? ==> 0 <= r.value < |history| && Close(history[r.value], prices)
    ensures r.Some? ==> forall j :: 0 <= j < r.value ==> !Close(history[j], prices)
    ensures r.None? <==> forall j :: 0 <= j < |history| ==> !Close(history[j], prices)
  {
    if |history| == 0 then None
    else
      var init := history[..|history| - 1];
      var earlier := FirstStop(init, prices);
      assert forall j :: 0 <= j < |init| ==> init[j] == history[j];
      if earlier.Some? then earlier
      else if Close(history[|history| - 1], prices) then Some(|history| - 1)
      else None
  }

  /** The history loop of `_common_loop`: compares the current prices with
      every earlier vector in order and stops at the first close one,
      reporting its (squared) distance. */
  method CheckHistory(history: seq<seq<real>>, prices: seq<real>) returns (r: Option<(int, real)>)
    requires forall j :: 0 <= j < |history| ==> |history[j]| == |prices|
    ensures FirstStop(history, prices).None? ==> r.None?
    ensures FirstStop(history, prices).Some? ==>
      r == Some((FirstStop(history, prices).value, SquaredDistance(history[FirstStop(history, prices).value], prices)))
  {
    for j := 0 to |history|
      invariant forall i :: 0 <= i < j ==> !Close(history[i], prices)
    {
      var (stop, criterion) := StopCriterion(history[j], prices);
      if stop {
        return Some((j, criterion));
      }
    }
    return None;
  }

  /** The solution `best_milp_results` holds after every objective in
      order has been compared, strictly, with the best so far (which starts
      at the sentinel). */
  function BestIndex(sols: seq<Solution>): (r: Option<int>)
    ensures r.Some? ==> 0 <= r.value < |sols| && sols[r.value].objective < BestSentinel
    ensures r.Some? ==> forall j :: 0 <= j < |sols| ==> sols[r.value].objective <= sols[j].objective
    ensures r.Some? ==> forall j :: 0 <= j < r.value ==> sols[r.value].objective < sols[j].objective
    ensures r.None? <==> forall j :: 0 <= j < |sols| ==> sols[j].objective >= BestSentinel
  {
    if |sols| == 0 then None
    else
      var init := sols[..|sols| - 1];
      var prev := BestIndex(init);
      assert forall j :: 0 <= j < |init| ==> init[j] == sols[j];
      var bound := if prev.Some? then sols[prev.value].objective else BestSentinel;
      if sols[|sols| - 1].objective < bound then Some(|sols| - 1) else prev
  }

  // ---------------------------------------------------------------------
  // _common_loop
  // ---------------------------------------------------------------------

  /** The loop's fixed inputs: the number of sessions, the market prices,
      the pricing rule, the optimiser and the meters it starts from. */
  datatype Setup = Setup(n: int, lMarketBuy: seq<real>, lMarketSell: seq<real>, price: PricingRule,
                         optimize: Optimizer, init: Meters)

  /** The pass function of a setup. */
  function PassOf(c: Setup, state: Meters): Result<(seq<real>, Solution, Meters), LoopError>
  {
    Pass(c.price, c.optimize, c.n, c.lMarketBuy, c.lMarketSell, state)
  }

  /** The passes that were run: `trail[0]` holds the starting prices and,
      for every pass `j`, `trail[j + 1]`, `sols[j]` and `states[j + 1]` are
      the prices, solution and meters pass `j` produced from `states[j]`. */
  ghost predicate Traced(c: Setup, trail: seq<seq<real>>, sols: seq<Solution>, states: seq<Meters>)
  {
    |trail| == |sols| + 1 && |states| == |sols| + 1 && trail[0] == InitialPrices(c.n) && states[0] == c.init &&
    forall j :: 0 <= j < |sols| ==> PassOf(c, states[j]) == Ok((trail[j + 1], sols[j], states[j + 1]))
  }

  /** No price vector before the `k`-th was close to an earlier one. */
  ghost predicate NoStopBefore(trail: seq<seq<real>>, k: int)
    requires 0 <= k <= |trail|
  {
    forall m :: 0 <= m < k ==> FirstStop(trail[..m], trail[m]).None?
  }

  /** What a finished loop returns after `|sols|` passes: it converged on the
      last prices or ran out of iterations, and returns the best solution
      with the prices it was computed for (or the starting prices and no
      solution when none beat the sentinel). */
  ghost predicate Finished(o: LoopOutcome, trail: seq<seq<real>>, sols: seq<Solution>)
    requires |trail| == |sols| + 1
  {
    var k := |sols|;
    1 <= k <= MaxIterations && o.iterations == k && NoStopBefore(trail, k) &&
    (o.criterion.Some? <==> FirstStop(trail[..k], trail[k]).Some?) &&
    (o.criterion.None? ==> k == MaxIterations) &&
    (o.criterion.Some? ==> o.criterion.value == SquaredDistance(trail[FirstStop(trail[..k], trail[k]).value], trail[k])) &&
    (BestIndex(sols).None? ==> o.prices == trail[0] && o.solution.None?) &&
    (BestIndex(sols).Some? ==> o.prices == trail[BestIndex(sols).value + 1] && o.solution == Some(sols[BestIndex(sols).value]))
  }

  /** A run of the loop from a setup: the passes it ran, then either the
      pass that failed (before any stop and within the cap) or a finished
      outcome. */
  ghost predicate RunFrom(c: Setup, r: Result<LoopOutcome, LoopError>, trail: seq<seq<real>>, sols: seq<Solution>,
                          states: seq<Meters>)
  {
    Traced(c, trail, sols, states) &&
    (r.Err? ==> |sols| < MaxIterations && NoStopBefore(trail, |sols| + 1) && PassOf(c, states[|sols|]) == Err(r.error)) &&
    (r.Ok? ==> Finished(r.value, trail, sols))
  }

  /** The whole run of `_common_loop` on the given inputs. */
  ghost predicate LoopRun(meters: seq<(MemberId, LoopMeter)>, horizon: real, deltaT: real, lMarketBuy: seq<real>,
                          lMarketSell: seq<real>, price: PricingRule, optimize: Optimizer,
                          r: Result<LoopOutcome, LoopError>, trail: seq<seq<real>>, sols: seq<Solution>, states: seq<Meters>)
  {
    match TimeIntervals(horizon, deltaT, DefaultRounding)
    case Err(e) => r == Err(BadSessions(e)) && trail == [] && sols == [] && states == []
    case Ok(n) => RunFrom(Setup(n, lMarketBuy, lMarketSell, price, optimize, InitialMeters(meters)), r, trail, sols, states)
  }

  /** The body of a pass of `_common_loop`: the offers and their session
      prices, which become the backpack's prices, then the optimiser's
      schedule written back into the meters. */
  method RunPass(bp: LoopBackpack, price: PricingRule, optimize: Optimizer, n: int, meters: Meters)
    returns (r: Result<(seq<real>, Solution, Meters), LoopError>)
    modifies bp
    ensures r == Pass(price, optimize, n, bp.lMarketBuy, bp.lMarketSell, meters)
    ensures r.Ok? ==> bp.lLem == r.value.0 && |r.value.0| == n && n >= 0
  {
    var prices := OfferPrices(price, n, bp.lMarketBuy, bp.lMarketSell, meters);
    if prices.Err? {
      return Err(prices.error);
    }
    PassLengths(price, n, bp.lMarketBuy, bp.lMarketSell, meters, prices.value);
    bp.lLem := prices.value;
    var scheduled := RunSchedule(optimize, prices.value, meters);
    if scheduled.Err? {
      return Err(scheduled.error);
    }
    return Ok((prices.value, scheduled.value.0, scheduled.value.1));
  }

  /** The best-so-far variables hold the best of the first `k` solutions:
      the first one with the least objective below the sentinel, with the
      prices it was computed for, or the sentinel and the starting prices
      when none is below it. */
  ghost predicate BestHolds(sols: seq<Solution>, k: int, trail: seq<seq<real>>, bestOf2: real, bestLLem: seq<real>,
                            bestMilpResults: Option<Solution>)
    requires 0 <= k <= |sols| && |trail| == |sols| + 1
  {
    match BestIndex(sols[..k])
    case None => bestOf2 == BestSentinel && bestLLem == trail[0] && bestMilpResults.None?
    case Some(j) => bestOf2 == sols[j].objective && bestLLem == trail[j + 1] && bestMilpResults == Some(sols[j])
  }

  /** The variables of `_common_loop` at the head of a pass. */
  datatype LoopVars = LoopVars(history: seq<seq<real>>, lLem: seq<real>, it: int, of2: real,
                               milpResults: Option<Solution>, bestOf2: real, bestLLem: seq<real>,
                               bestMilpResults: Option<Solution>, meters: Meters)

  /** The variables after the head of a pass has kept a strictly better
      solution. */
  function Head(v: LoopVars): (r: LoopVars)
    ensures r.bestOf2 <= v.bestOf2 && r.bestOf2 <= v.of2
    ensures r.history == v.history && r.lLem == v.lLem && r.it == v.it && r.meters == v.meters
  {
    if v.of2 < v.bestOf2 then v.(bestOf2 := v.of2, bestLLem := v.lLem, bestMilpResults := v.milpResults) else v
  }

  /** The variables after a pass that ran: the prices join the history,
      and the new prices, solution and meters become current. */
  function Next(v: LoopVars, prices: seq<real>, sol: Solution, next: Meters): (r: LoopVars)
    ensures r.history == v.history + [v.lLem] && r.it == v.it + 1 && r.lLem == prices && r.meters == next
  {
    var h := Head(v);
    LoopVars(v.history + [v.lLem], prices, v.it + 1, sol.objective, Some(sol), h.bestOf2, h.bestLLem, h.bestMilpResults, next)
  }

  /** The passes recorded so far and the lengths of the price vectors. */
  ghost predicate LoopShape(c: Setup, v: LoopVars, sols: seq<Solution>, states: seq<Meters>)
  {
    0 <= v.it <= MaxIterations && |v.history| == v.it && |sols| == v.it &&
    Traced(c, v.history + [v.lLem], sols, states) && v.meters == states[v.it] &&
    (c.n >= 0 ==> |v.lLem| == c.n) && (v.it > 0 ==> c.n >= 0) &&
    (forall j :: 0 <= j < |v.history| ==> |v.history[j]| == c.n)
  }

  /** No stop so far, the latest objective, and the best of the solutions
      before the latest one. */
  ghost predicate LoopProgress(v: LoopVars, sols: seq<Solution>)
  {
    0 <= v.it && |v.history| == v.it && |sols| == v.it &&
    NoStopBefore(v.history + [v.lLem], v.it) &&
    (v.it == 0 ==> v.of2 == InitialObjective && v.milpResults.None?) &&
    (v.it > 0 ==> v.of2 == sols[v.it - 1].objective && v.milpResults == Some(sols[v.it - 1])) &&
    BestHolds(sols, if v.it == 0 then 0 else v.it - 1, v.history + [v.lLem], v.bestOf2, v.bestLLem, v.bestMilpResults)
  }

  /** The invariant of `_common_loop` at the head of a pass, after `v.it`
      passes. */
  ghost predicate LoopInv(c: Setup, v: LoopVars, sols: seq<Solution>, states: seq<Meters>)
  {
    LoopShape(c, v, sols, states) && LoopProgress(v, sols)
  }

  /** One pass of `_common_loop` from the variables `v` at the head of the
      pass: a pass that fails ends the run with its error; one that runs
      leaves the invariant holding for the variables after it. */
  method LoopPass(bp: LoopBackpack, price: PricingRule, optimize: Optimizer, n: int, meters: Meters,
                  ghost c: Setup, ghost v: LoopVars, ghost sols: seq<Solution>, ghost states: seq<Meters>)
    returns (pass: Result<(seq<real>, Solution, Meters), LoopError>)
    requires c == Setup(n, bp.lMarketBuy, bp.lMarketSell, price, optimize, c.init) && meters == v.meters
    requires LoopInv(c, v, sols, states) && v.it < MaxIterations && FirstStop(v.history, v.lLem).None?
    modifies bp
    ensures pass.Err? ==> RunFrom(c, Err(pass.error), v.history + [v.lLem], sols, states)
    ensures pass.Ok? ==> bp.lLem == pass.value.0
    ensures pass.Ok? ==> LoopInv(c, Next(v, pass.value.0, pass.value.1, pass.value.2), sols + [pass.value.1],
                                 states + [pass.value.2])
  {
    pass := RunPass(bp, price, optimize, n, meters);
    if pass.Err? {
      LoopFails(c, v, sols, states, pass.error);
    } else {
      LoopAdvances(c, v, sols, states, pass.value.0, pass.value.1, pass.value.2);
    }
  }

  /** `_common_loop`: starting from prices of 10 and the meters' forecast net
      loads, repeatedly keeps the best solution so far, stops when the
      current prices are close to any earlier ones or after 20 passes, and
      otherwise prices every session from the meters' offers, hands the
      prices to the optimiser and writes the scheduled net loads back. */
  method CommonLoop(bp: LoopBackpack, price: PricingRule, optimize: Optimizer)
    returns (r: Result<LoopOutcome, LoopError>, ghost trail: seq<seq<real>>, ghost sols: seq<Solution>,
             ghost states: seq<Meters>)
    modifies bp
    ensures LoopRun(bp.meters, bp.horizon, bp.deltaT, bp.lMarketBuy, bp.lMarketSell, price, optimize, r, trail, sols, states)
    ensures r.Ok? ==> bp.lLem == trail[|trail| - 1]
  {
    var nrSessions := TimeIntervals(bp.horizon, bp.deltaT, DefaultRounding);
    if nrSessions.Err? {
      return Err(BadSessions(nrSessions.error)), [], [], [];
    }
    var n := nrSessions.value;
    ghost var c := Setup(n, bp.lMarketBuy, bp.lMarketSell, price, optimize, InitialMeters(bp.meters));
    r, trail, sols, states := PassLoop(bp, price, optimize, n, c);
  }

  /** The loop of `_common_loop` over `n` sessions, from the starting prices
      and the meters' forecast net loads. */
  method PassLoop(bp: LoopBackpack, price: PricingRule, optimize: Optimizer, n: int, ghost c: Setup)
    returns (r: Result<LoopOutcome, LoopError>, ghost trail: seq<seq<real>>, ghost sols: seq<Solution>,
             ghost states: seq<Meters>)
    requires c == Setup(n, bp.lMarketBuy, bp.lMarketSell, price, optimize, InitialMeters(bp.meters))
    modifies bp
    ensures RunFrom(c, r, trail, sols, states)
    ensures r.Ok? ==> bp.lLem == trail[|trail| - 1]
  {
    var meters := InitialMeters(bp.meters);
    var lLem := InitialPrices(n);
    var history: seq<seq<real>> := [];
    var it := 0;
    var of2 := InitialObjective;
    var bestOf2 := BestSentinel;
    var bestLLem := lLem;
    var criterion: Option<real> := None;
    var milpResults: Option<Solution> := None;
    var bestMilpResults: Option<Solution> := None;
    sols, states := [], [meters];
    LoopStarts(c);
    ghost var stopped := false;
    ghost var cur := LoopVars(history, lLem, it, of2, milpResults, bestOf2, bestLLem, bestMilpResults, meters);
    ghost var last := cur;
    while true
      invariant cur == LoopVars(history, lLem, it, of2, milpResults, bestOf2, bestLLem, bestMilpResults, meters)
      invariant 0 <= it <= MaxIterations && |history| == it && !stopped
      invariant LoopInv(c, cur, sols, states)
      invariant it > 0 ==> bp.lLem == lLem
      decreases MaxIterations - it
    {
      ghost var v := cur;
      var stop;
      bestOf2, bestLLem, bestMilpResults, stop :=
        LoopHead(history, lLem, of2, milpResults, bestOf2, bestLLem, bestMilpResults, c, v, sols, states);
      if stop.Some? {
        assert it > 0 by {
          assert FirstStop(history, lLem).Some?;
        }
        history := history + [lLem];
        criterion := Some(stop.value.1);
        stopped, last := true, v;
        assert bp.lLem == history[|history| - 1];
        break;
      }

      it := it + 1;
      if it > MaxIterations {
        history := history + [lLem];
        last := v;
        assert bp.lLem == history[|history| - 1];
        break;
      }

      var pass := LoopPass(bp, price, optimize, n, meters, c, v, sols, states);
      if pass.Err? {
        return Err(pass.error), v.history + [v.lLem], sols, states;
      }
      var (prices, solution, next) := pass.value;
      cur := Next(v, prices, solution, next);
      history := history + [lLem];
      lLem := prices;
      meters := next;
      of2 := solution.objective;
      milpResults := Some(solution);
      sols, states := sols + [solution], states + [meters];
    }
    var iterations := if it <= MaxIterations then it else MaxIterations;
    criterion := if it <= MaxIterations then criterion else None;
    r := Ok(LoopOutcome(bestLLem, criterion, iterations, bestMilpResults));
    trail := history;
    LoopLeaves(c, last, sols, states, stopped, r, trail);
  }

  /** The head of a pass of `_common_loop`: the best-so-far variables take
      the current objective, prices and solution on a strict improvement,
      then the current prices are compared with every earlier vector. */
  method LoopHead(history: seq<seq<real>>, lLem: seq<real>, of2: real, milpResults: Option<Solution>, bestOf2: real,
                  bestLLem: seq<real>, bestMilpResults: Option<Solution>,
                  ghost c: Setup, ghost v: LoopVars, ghost sols: seq<Solution>, ghost states: seq<Meters>)
    returns (newBestOf2: real, newBestLLem: seq<real>, newBestMilpResults: Option<Solution>, stop: Option<(int, real)>)
    requires LoopInv(c, v, sols, states)
    requires v.history == history && v.lLem == lLem && v.of2 == of2 && v.milpResults == milpResults
    requires v.bestOf2 == bestOf2 && v.bestLLem == bestLLem && v.bestMilpResults == bestMilpResults
    ensures newBestOf2 == Head(v).bestOf2 && newBestLLem == Head(v).bestLLem && newBestMilpResults == Head(v).bestMilpResults
    ensures FirstStop(history, lLem).None? ==> stop.None?
    ensures FirstStop(history, lLem).Some? ==>
      stop == Some((FirstStop(history, lLem).value, SquaredDistance(history[FirstStop(history, lLem).value], lLem)))
  {
    newBestOf2, newBestLLem, newBestMilpResults := bestOf2, bestLLem, bestMilpResults;
    if of2 < bestOf2 {
      newBestOf2 := of2;
      newBestLLem := lLem;
      newBestMilpResults := milpResults;
    }
    HistoryLengths(c, v, sols, states);
    stop := CheckHistory(history, lLem);
  }

  /** Leaving the loop, by a convergence stop or past the cap, returns the
      best of all passes, the distance (none past the cap) and the capped
      iteration count. */
  lemma {:induction false} LoopLeaves(c: Setup, v: LoopVars, sols: seq<Solution>, states: seq<Meters>, stopped: bool,
                                      r: Result<LoopOutcome, LoopError>, trail: seq<seq<real>>)
    requires LoopInv(c, v, sols, states) && trail == v.history + [v.lLem]
    requires r.Ok? && r.value.prices == Head(v).bestLLem && r.value.solution == Head(v).bestMilpResults
    requires stopped ==> FirstStop(v.history, v.lLem).Some? && r.value.iterations == v.it &&
                         r.value.criterion == Some(SquaredDistance(v.history[FirstStop(v.history, v.lLem).value], v.lLem))
    requires !stopped ==> FirstStop(v.history, v.lLem).None? && v.it == MaxIterations &&
                          r.value.iterations == MaxIterations && r.value.criterion == None
    ensures RunFrom(c, r, trail, sols, states)
  {
    if stopped {
      var d := r.value.criterion.value;
      assert r == Ok(LoopOutcome(Head(v).bestLLem, Some(d), v.it, Head(v).bestMilpResults));
      LoopStops(c, v, sols, states, d);
    } else {
      assert r == Ok(LoopOutcome(Head(v).bestLLem, None, MaxIterations, Head(v).bestMilpResults));
      LoopCaps(c, v, sols, states);
    }
  }

  /** The loop starts with no passes, the starting prices and the
      sentinel. */
  lemma {:induction false} LoopStarts(c: Setup)
    ensures LoopInv(c, LoopVars([], InitialPrices(c.n), 0, InitialObjective, None, BestSentinel, InitialPrices(c.n), None, c.init),
                    [], [c.init])
  {
    assert ([] + [InitialPrices(c.n)])[..0] == [];
  }

  /** Every earlier price vector has as many sessions as the current one. */
  lemma {:induction false} HistoryLengths(c: Setup, v: LoopVars, sols: seq<Solution>, states: seq<Meters>)
    requires LoopInv(c, v, sols, states)
    ensures forall j :: 0 <= j < |v.history| ==> |v.history[j]| == |v.lLem|
  {
  }

  /** The head of a pass leaves the best-so-far variables holding the best
      of every solution found so far. */
  lemma {:induction false} HeadProgress(v: LoopVars, sols: seq<Solution>)
    requires LoopProgress(v, sols)
    ensures BestHolds(sols, v.it, v.history + [v.lLem], Head(v).bestOf2, Head(v).bestLLem, Head(v).bestMilpResults)
  {
    var trail := v.history + [v.lLem];
    if v.it > 0 {
      assert trail[v.it] == v.lLem;
      BestStep(sols, v.it - 1, trail, v.bestOf2, v.bestLLem, v.bestMilpResults,
               Head(v).bestOf2, Head(v).bestLLem, Head(v).bestMilpResults);
    }
  }

  /** A pass that runs keeps the invariant. */
  lemma {:induction false} LoopAdvances(c: Setup, v: LoopVars, sols: seq<Solution>, states: seq<Meters>, prices: seq<real>, sol: Solution,
                     next: Meters)
    requires LoopInv(c, v, sols, states) && v.it < MaxIterations && FirstStop(v.history, v.lLem).None?
    requires PassOf(c, v.meters) == Ok((prices, sol, next))
    ensures LoopInv(c, Next(v, prices, sol, next), sols + [sol], states + [next])
  {
    ShapeAdvances(c, v, sols, states, prices, sol, next);
    ProgressAdvances(v, sols, prices, sol, next);
  }

  lemma {:induction false} ShapeAdvances(c: Setup, v: LoopVars, sols: seq<Solution>, states: seq<Meters>, prices: seq<real>, sol: Solution,
                      next: Meters)
    requires LoopShape(c, v, sols, states) && v.it < MaxIterations
    requires PassOf(c, v.meters) == Ok((prices, sol, next))
    ensures LoopShape(c, Next(v, prices, sol, next), sols + [sol], states + [next])
  {
    var trail := v.history + [v.lLem];
    var v' := Next(v, prices, sol, next);
    assert v'.history + [v'.lLem] == trail + [prices];
    PassParts(c, v.meters, prices, sol, next);
    AppendLengths(v.history, v.lLem, c.n);
    TracedExtend(c, trail, sols, states, prices, sol, next);
  }

  lemma {:induction false} ProgressAdvances(v: LoopVars, sols: seq<Solution>, prices: seq<real>, sol: Solution, next: Meters)
    requires LoopProgress(v, sols) && FirstStop(v.history, v.lLem).None?
    ensures LoopProgress(Next(v, prices, sol, next), sols + [sol])
  {
    var trail := v.history + [v.lLem];
    var v' := Next(v, prices, sol, next);
    assert v'.history + [v'.lLem] == trail + [prices];
    assert trail[..v.it] == v.history && trail[v.it] == v.lLem;
    HeadProgress(v, sols);
    NoStopStep(trail, v.it);
    NoStopExtend(trail, v.it + 1, prices);
    BestExtend(sols, trail, sol, prices, Head(v).bestOf2, Head(v).bestLLem, Head(v).bestMilpResults);
  }

  /** A pass that runs produced its prices and then its schedule; the
      prices cover every session. */
  lemma {:induction false} PassParts(c: Setup, state: Meters, prices: seq<real>, sol: Solution, next: Meters)
    requires PassOf(c, state) == Ok((prices, sol, next))
    ensures PricesOf(c.price, c.n, c.lMarketBuy, c.lMarketSell, state) == Ok(prices)
    ensures Schedule(c.optimize, prices, state) == Ok((sol, next))
    ensures |prices| == c.n && c.n >= 0
  {
    PassLengths(c.price, c.n, c.lMarketBuy, c.lMarketSell, state, prices);
  }

  lemma {:induction false} AppendLengths(h: seq<seq<real>>, x: seq<real>, n: int)
    requires forall j :: 0 <= j < |h| ==> |h[j]| == n
    requires |x| == n
    ensures forall j :: 0 <= j < |h + [x]| ==> |(h + [x])[j]| == n
  {
  }

  /** The loop's setup is the one `LoopRun` derives from the backpack. */
  ghost predicate SetupFor(bp: LoopBackpack, c: Setup)
  {
    TimeIntervals(bp.horizon, bp.deltaT, DefaultRounding) == Ok(c.n) &&
    c == Setup(c.n, bp.lMarketBuy, bp.lMarketSell, c.price, c.optimize, InitialMeters(bp.meters))
  }

  /** A pass that fails ends the run with its error, reached without an
      earlier stop. */
  lemma {:induction false} LoopFails(c: Setup, v: LoopVars, sols: seq<Solution>, states: seq<Meters>, e: LoopError)
    requires LoopInv(c, v, sols, states) && v.it < MaxIterations && FirstStop(v.history, v.lLem).None?
    requires PassOf(c, v.meters) == Err(e)
    ensures RunFrom(c, Err(e), v.history + [v.lLem], sols, states)
  {
    var trail := v.history + [v.lLem];
    assert trail[..v.it] == v.history && trail[v.it] == v.lLem;
    NoStopStep(trail, v.it);
  }

  /** Leaving on convergence returns the best of all passes with the
      distance to the first close earlier vector. */
  lemma {:induction false} LoopStops(c: Setup, v: LoopVars, sols: seq<Solution>, states: seq<Meters>, d: real)
    requires LoopInv(c, v, sols, states) && FirstStop(v.history, v.lLem).Some?
    requires d == SquaredDistance(v.history[FirstStop(v.history, v.lLem).value], v.lLem)
    ensures RunFrom(c, Ok(LoopOutcome(Head(v).bestLLem, Some(d), v.it, Head(v).bestMilpResults)), v.history + [v.lLem], sols, states)
  {
    var trail := v.history + [v.lLem];
    assert trail[..v.it] == v.history && trail[v.it] == v.lLem;
    HeadProgress(v, sols);
    LoopEnds(LoopOutcome(Head(v).bestLLem, Some(d), v.it, Head(v).bestMilpResults), trail, sols, true, Head(v).bestOf2);
  }

  /** Leaving after the last allowed pass returns the best of all passes
      and no distance. */
  lemma {:induction false} LoopCaps(c: Setup, v: LoopVars, sols: seq<Solution>, states: seq<Meters>)
    requires LoopInv(c, v, sols, states) && v.it == MaxIterations && FirstStop(v.history, v.lLem).None?
    ensures RunFrom(c, Ok(LoopOutcome(Head(v).bestLLem, None, MaxIterations, Head(v).bestMilpResults)), v.history + [v.lLem], sols, states)
  {
    var trail := v.history + [v.lLem];
    assert trail[..v.it] == v.history && trail[v.it] == v.lLem;
    HeadProgress(v, sols);
    LoopEnds(LoopOutcome(Head(v).bestLLem, None, MaxIterations, Head(v).bestMilpResults), trail, sols, false, Head(v).bestOf2);
  }

  /** What the loop holds when it leaves: after a convergence stop or after
      the last allowed pass, with the best-so-far variables over every
      solution. */
  lemma {:induction false} LoopEnds(o: LoopOutcome, trail: seq<seq<real>>, sols: seq<Solution>, stopped: bool, bestOf2: real)
    requires |trail| == |sols| + 1 && 1 <= |sols| <= MaxIterations && NoStopBefore(trail, |sols|)
    requires stopped ==> (FirstStop(trail[..|sols|], trail[|sols|]).Some? && o.iterations == |sols| &&
      o.criterion == Some(SquaredDistance(trail[FirstStop(trail[..|sols|], trail[|sols|]).value], trail[|sols|])))
    requires !stopped ==> (FirstStop(trail[..|sols|], trail[|sols|]).None? && |sols| == MaxIterations &&
      o.iterations == MaxIterations && o.criterion.None?)
    requires BestHolds(sols, |sols|, trail, bestOf2, o.prices, o.solution)
    ensures Finished(o, trail, sols)
  {
    assert sols[..|sols|] == sols;
  }

  /** The update at the head of a pass takes the latest solution into the
      best-so-far variables exactly when it is strictly better. */
  lemma {:induction false} BestStep(sols: seq<Solution>, k: int, trail: seq<seq<real>>, bestOf2: real, bestLLem: seq<real>,
                 bestMilpResults: Option<Solution>, newBestOf2: real, newBestLLem: seq<real>, newBestMilpResults: Option<Solution>)
    requires 0 <= k < |sols| && |trail| == |sols| + 1
    requires BestHolds(sols, k, trail, bestOf2, bestLLem, bestMilpResults)
    requires sols[k].objective < bestOf2 ==>
      (newBestOf2 == sols[k].objective && newBestLLem == trail[k + 1] && newBestMilpResults == Some(sols[k]))
    requires !(sols[k].objective < bestOf2) ==>
      (newBestOf2 == bestOf2 && newBestLLem == bestLLem && newBestMilpResults == bestMilpResults)
    ensures BestHolds(sols, k + 1, trail, newBestOf2, newBestLLem, newBestMilpResults)
  {
    assert sols[..k + 1][..k] == sols[..k];
    assert sols[..k + 1][k] == sols[k];
  }

  /** Appending a pass keeps what the best-so-far variables say about the
      earlier passes. */
  lemma {:induction false} BestExtend(sols: seq<Solution>, trail: seq<seq<real>>, sol: Solution, prices: seq<real>, bestOf2: real,
                   bestLLem: seq<real>, bestMilpResults: Option<Solution>)
    requires |trail| == |sols| + 1
    requires BestHolds(sols, |sols|, trail, bestOf2, bestLLem, bestMilpResults)
    ensures BestHolds(sols + [sol], |sols|, trail + [prices], bestOf2, bestLLem, bestMilpResults)
  {
    assert (sols + [sol])[..|sols|] == sols[..|sols|];
  }

  lemma {:induction false} NoStopStep(trail: seq<seq<real>>, k: int)
    requires 0 <= k < |trail| && NoStopBefore(trail, k) && FirstStop(trail[..k], trail[k]).None?
    ensures NoStopBefore(trail, k + 1)
  {
  }

  lemma {:induction false} NoStopExtend(trail: seq<seq<real>>, k: int, prices: seq<real>)
    requires 0 <= k <= |trail| && NoStopBefore(trail, k)
    ensures NoStopBefore(trail + [prices], k)
  {
    forall m | 0 <= m < k
      ensures FirstStop((trail + [prices])[..m], (trail + [prices])[m]).None?
    {
      assert (trail + [prices])[..m] == trail[..m];
    }
  }

  lemma {:induction false} TracedExtend(c: Setup, trail: seq<seq<real>>, sols: seq<Solution>, states: seq<Meters>,
                     prices: seq<real>, sol: Solution, next: Meters)
    requires Traced(c, trail, sols, states)
    requires PassOf(c, states[|sols|]) == Ok((prices, sol, next))
    ensures Traced(c, trail + [prices], sols + [sol], states + [next])
  {
    var trail', sols', states' := trail + [prices], sols + [sol], states + [next];
    forall j | 0 <= j < |sols'|
      ensures PassOf(c, states'[j]) == Ok((trail'[j + 1], sols'[j], states'[j + 1]))
    {
      if j < |sols| {
        assert states'[j] == states[j] && trail'[j + 1] == trail[j + 1] && sols'[j] == sols[j] && states'[j + 1] == states[j + 1];
      }
    }
  }

  /** A pass that produces prices produces one per session. */
  lemma {:induction false} PassLengths(price: PricingRule, n: int, lMarketBuy: seq<real>, lMarketSell: seq<real>, state: Meters,
                    prices: seq<real>)
    requires PricesOf(price, n, lMarketBuy, lMarketSell, state) == Ok(prices)
    ensures |prices| == n && n >= 0
  {
  }

  // ---------------------------------------------------------------------
  // _common_highway
  // ---------------------------------------------------------------------

  /** The setup the backpack describes, or why its sessions cannot be
      counted. */
  function BackpackSetup(bp: LoopBackpack, price: PricingRule, optimize: Optimizer): (r: Result<Setup, LoopError>)
    ensures r.Ok? <==> TimeIntervals(bp.horizon, bp.deltaT, DefaultRounding).Ok?
    ensures r.Ok? ==> SetupFor(bp, r.value) && r.value.price == price && r.value.optimize == optimize
  {
    match TimeIntervals(bp.horizon, bp.deltaT, DefaultRounding)
    case Err(e) => Err(BadSessions(e))
    case Ok(n) => Ok(Setup(n, bp.lMarketBuy, bp.lMarketSell, price, optimize, InitialMeters(bp.meters)))
  }

  /** What `_common_highway` returns for a setup: one pass from the starting
      meters, then the prices of the offers the scheduled net loads give,
      with the pass's solution. */
  function Highway(c: Setup): Result<HighwayOutcome, LoopError>
  {
    match PassOf(c, c.init)
    case Err(e) => Err(e)
    case Ok((first, sol, next)) =>
      match PricesOf(c.price, c.n, c.lMarketBuy, c.lMarketSell, next)
      case Err(e) => Err(e)
      case Ok(prices) => Ok(HighwayOutcome(prices, sol))
  }

  /** `_common_highway`: prices the meters' forecast offers, hands the prices
      to the optimiser, writes the scheduled net loads back, prices the new
      offers and stops, returning those prices and the solution. */
  method CommonHighway(bp: LoopBackpack, price: PricingRule, optimize: Optimizer) returns (r: Result<HighwayOutcome, LoopError>)
    modifies bp
    ensures BackpackSetup(bp, price, optimize).Err? ==> r == Err(BackpackSetup(bp, price, optimize).error)
    ensures BackpackSetup(bp, price, optimize).Ok? ==> r == Highway(BackpackSetup(bp, price, optimize).value)
    ensures r.Ok? ==> (BackpackSetup(bp, price, optimize).Ok? &&
      PassOf(BackpackSetup(bp, price, optimize).value, BackpackSetup(bp, price, optimize).value.init).Ok? &&
      bp.lLem == PassOf(BackpackSetup(bp, price, optimize).value, BackpackSetup(bp, price, optimize).value.init).value.0)
  {
    var nrSessions := TimeIntervals(bp.horizon, bp.deltaT, DefaultRounding);
    if nrSessions.Err? {
      return Err(BadSessions(nrSessions.error));
    }
    var n := nrSessions.value;
    ghost var c := Setup(n, bp.lMarketBuy, bp.lMarketSell, price, optimize, InitialMeters(bp.meters));
    assert BackpackSetup(bp, price, optimize) == Ok(c);
    var meters := InitialMeters(bp.meters);
    var end := false;
    var milpResults: Option<Solution> := None;
    var lLem: seq<real> := [];
    while true
      invariant !end ==> meters == c.init
      invariant end ==> milpResults.Some? && PassOf(c, c.init) == Ok((bp.lLem, milpResults.value, meters))
      decreases if end then 0 else 1
    {
      var prices := OfferPrices(price, n, bp.lMarketBuy, bp.lMarketSell, meters);
      if prices.Err? {
        return Err(prices.error);
      }
      lLem := prices.value;
      if end {
        break;
      }
      bp.lLem := lLem;
      var scheduled := RunSchedule(optimize, lLem, meters);
      if scheduled.Err? {
        return Err(scheduled.error);
      }
      milpResults := Some(scheduled.value.0);
      meters := scheduled.value.1;
      end := true;
    }
    return Ok(HighwayOutcome(lLem, milpResults.value));
  }

  // ---------------------------------------------------------------------
  // The loop_pre_* and loop_post_* wrappers
  // ---------------------------------------------------------------------

  /** The name a numeric parameter is passed or declared under. */
  datatype Keyword = Divider | Divisor | Compensation | SmallIncrement

  /** The market mechanism a wrapper prices every session with. */
  datatype Mechanism = MmrRule(pruned: bool) | SdrRule(pruned: bool) | CrossingRule

  /** The name of the parameter the mechanism's function declares:
      `divisor` for `compute_mmr` and `compute_pruned_mmr`, `compensation`
      for the SDR functions, `small_increment` for `compute_crossing_value`. */
  function DeclaredKeyword(m: Mechanism): Keyword
  {
    match m
    case MmrRule(_) => Divisor
    case SdrRule(_) => Compensation
    case CrossingRule => SmallIncrement
  }

  /** The keyword the wrappers pass their parameter under: the MMR wrappers
      pass `divider`. */
  function WrapperKeyword(m: Mechanism): Keyword
  {
    match m
    case MmrRule(_) => Divider
    case SdrRule(_) => Compensation
    case CrossingRule => SmallIncrement
  }

  /** `pricing_func(buys, sells, **{keyword: value})`: a keyword the function
      does not declare raises on the call; otherwise the mechanism's price. */
  function KeywordRule(m: Mechanism, keyword: Keyword, value: real): PricingRule
  {
    if keyword != DeclaredKeyword(m) then (buys: seq<Offer>, sells: seq<Offer>) => Raised(UnexpectedKeyword)
    else
      match m
      case MmrRule(pruned) =>
        (buys: seq<Offer>, sells: seq<Offer>) => if pruned then PrunedMmr(buys, sells, value) else Mmr(buys, sells, value)
      case SdrRule(pruned) =>
        (buys: seq<Offer>, sells: seq<Offer>) => if pruned then PrunedSdr(buys, sells, value) else Sdr(buys, sells, value)
      case CrossingRule => (buys: seq<Offer>, sells: seq<Offer>) => Price(CrossingValue(buys, sells, value))
  }

  /** The rule the wrappers' loops price with as written. */
  function WrittenLoopRule(m: Mechanism, value: real): PricingRule
  {
    KeywordRule(m, WrapperKeyword(m), value)
  }

  /** The rule the wrappers evidently intend: the parameter handed over
      under the name the function declares, as `vanilla_mmr` does. */
  function LoopRule(m: Mechanism, value: real): PricingRule
  {
    KeywordRule(m, DeclaredKeyword(m), value)
  }

  /** The wrappers' assertion on their parameter: `divider` and
      `compensation` in [0, 1]; the crossing value takes any increment. */
  function Guard(m: Mechanism, value: real): (r: Option<PricingError>)
    ensures r.None? <==> m.CrossingRule? || 0.0 <= value <= 1.0
  {
    match m
    case MmrRule(_) => if 0.0 <= value <= 1.0 then None else Some(DividerOutOfRange)
    case SdrRule(_) => if 0.0 <= value <= 1.0 then None else Some(CompensationOutOfRange)
    case CrossingRule => None
  }

  /** `loop_pre_pool_*` and `loop_pre_bilateral_*` as written (the pool and
      bilateral forms differ only in the optimiser): the parameter
      assertion, then `_common_loop` with the rule the wrapper builds, which
      for the MMR hands the divider over as `divider`. */
  method LoopPre(bp: LoopBackpack, m: Mechanism, value: real, optimize: Optimizer)
    returns (r: Result<LoopOutcome, LoopError>, ghost trail: seq<seq<real>>, ghost sols: seq<Solution>,
             ghost states: seq<Meters>)
    modifies bp
    ensures Guard(m, value).Some? ==> r == Err(Rejected(Guard(m, value).value)) && bp.lLem == old(bp.lLem)
    ensures Guard(m, value).None? ==>
      LoopRun(bp.meters, bp.horizon, bp.deltaT, bp.lMarketBuy, bp.lMarketSell, WrittenLoopRule(m, value), optimize, r, trail, sols, states)
    ensures Guard(m, value).None? && r.Ok? ==> bp.lLem == trail[|trail| - 1]
  {
    var guard := Guard(m, value);
    if guard.Some? {
      return Err(Rejected(guard.value)), [], [], [];
    }
    r, trail, sols, states := CommonLoop(bp, WrittenLoopRule(m, value), optimize);
  }

  /** `loop_pre_*` with the parameter handed over under the name the pricing
      function declares (Findings, row 2). */
  method CorrectedLoopPre(bp: LoopBackpack, m: Mechanism, value: real, optimize: Optimizer)
    returns (r: Result<LoopOutcome, LoopError>, ghost trail: seq<seq<real>>, ghost sols: seq<Solution>,
             ghost states: seq<Meters>)
    modifies bp
    ensures Guard(m, value).Some? ==> r == Err(Rejected(Guard(m, value).value)) && bp.lLem == old(bp.lLem)
    ensures Guard(m, value).None? ==>
      LoopRun(bp.meters, bp.horizon, bp.deltaT, bp.lMarketBuy, bp.lMarketSell, LoopRule(m, value), optimize, r, trail, sols, states)
    ensures Guard(m, value).None? && r.Ok? ==> bp.lLem == trail[|trail| - 1]
  {
    var guard := Guard(m, value);
    if guard.Some? {
      return Err(Rejected(guard.value)), [], [], [];
    }
    r, trail, sols, states := CommonLoop(bp, LoopRule(m, value), optimize);
  }

  /** `loop_post_pool_*` and `loop_post_bilateral_*` as written: the
      parameter assertion, then `_common_highway` with the rule the wrapper
      builds. */
  method LoopPost(bp: LoopBackpack, m: Mechanism, value: real, optimize: Optimizer) returns (r: Result<HighwayOutcome, LoopError>)
    modifies bp
    ensures Guard(m, value).Some? ==> r == Err(Rejected(Guard(m, value).value)) && bp.lLem == old(bp.lLem)
    ensures Guard(m, value).None? && BackpackSetup(bp, WrittenLoopRule(m, value), optimize).Err? ==>
      r == Err(BackpackSetup(bp, WrittenLoopRule(m, value), optimize).error)
    ensures Guard(m, value).None? && BackpackSetup(bp, WrittenLoopRule(m, value), optimize).Ok? ==>
      r == Highway(BackpackSetup(bp, WrittenLoopRule(m, value), optimize).value)
  {
    var guard := Guard(m, value);
    if guard.Some? {
      return Err(Rejected(guard.value));
    }
    r := CommonHighway(bp, WrittenLoopRule(m, value), optimize);
  }

  /** `loop_post_*` with the parameter handed over under the name the
      pricing function declares. */
  method CorrectedLoopPost(bp: LoopBackpack, m: Mechanism, value: real, optimize: Optimizer)
    returns (r: Result<HighwayOutcome, LoopError>)
    modifies bp
    ensures Guard(m, value).Some? ==> r == Err(Rejected(Guard(m, value).value)) && bp.lLem == old(bp.lLem)
    ensures Guard(m, value).None? && BackpackSetup(bp, LoopRule(m, value), optimize).Err? ==>
      r == Err(BackpackSetup(bp, LoopRule(m, value), optimize).error)
    ensures Guard(m, value).None? && BackpackSetup(bp, LoopRule(m, value), optimize).Ok? ==>
      r == Highway(BackpackSetup(bp, LoopRule(m, value), optimize).value)
  {
    var guard := Guard(m, value);
    if guard.Some? {
      return Err(Rejected(guard.value));
    }
    r := CommonHighway(bp, LoopRule(m, value), optimize);
  }
}
