/** Properties of the pricing library's entry points: the single-session
    wrappers, one pass of the loop, the iterative loop as a whole, the
    two-pass highway and the parameter hand-over of the loop wrappers. */
module LoopProperties {
  import opened Common
  import opened PricingMechanisms
  import opened PricingHelpers
  import opened MilpHelpers
  import opened PriceProperties
  import opened PricingFunctions

  // ---------------------------------------------------------------------
  // Single-session wrappers
  // ---------------------------------------------------------------------

  /** `vanilla_mmr` raises its assertion exactly when the divider lies
      outside [0, 1]; the mid-market rate itself never raises. */
  lemma {:induction false} VanillaMmrGuard(buys: seq<Offer>, sells: seq<Offer>, pruned: bool, divider: real)
    ensures VanillaMmr(buys, sells, pruned, divider).Raised? <==> !(0.0 <= divider <= 1.0)
    ensures VanillaMmr(buys, sells, pruned, divider).Raised? ==> VanillaMmr(buys, sells, pruned, divider).error == DividerOutOfRange
  {
  }

  /** `vanilla_sdr` raises the compensation assertion exactly when the
      compensation lies outside [0, 1]. */
  lemma {:induction false} VanillaSdrGuard(buys: seq<Offer>, sells: seq<Offer>, pruned: bool, compensation: real)
    ensures VanillaSdr(buys, sells, pruned, compensation) == Raised(CompensationOutOfRange) <==> !(0.0 <= compensation <= 1.0)
  {
    if pruned {
      var (acceptedBuys, acceptedSells) := Accepted(buys, sells);
      SdrCompensationChecked(acceptedBuys, acceptedSells, compensation);
    } else {
      SdrCompensationChecked(buys, sells, compensation);
    }
  }

  /** `vanilla_crossing_value` without an increment clears at the same
      value as `compute_crossing_value` with its own default increment: the
      increment only breaks ties in the ordering. */
  lemma {:induction false} VanillaCrossingDefault(buys: seq<Offer>, sells: seq<Offer>)
    ensures VanillaCrossingValue(buys, sells, VanillaIncrement) == CrossingValue(buys, sells, DefaultIncrement)
  {
    CrossingValueIncrementFree(buys, sells, DefaultIncrement);
  }

  // ---------------------------------------------------------------------
  // One pass
  // ---------------------------------------------------------------------

  /** The prices of a pass: a shape error of the offers, or one price per
      session exactly when the rule gives a finite price for every
      session's offers. */
  lemma {:induction false} PricesOfMeaning(price: PricingRule, n: int, lMarketBuy: seq<real>, lMarketSell: seq<real>, state: Meters)
    ensures OfferBook(state, n, lMarketBuy, lMarketSell).Err? ==>
      PricesOf(price, n, lMarketBuy, lMarketSell, state) == Err(BadOffers(OfferBook(state, n, lMarketBuy, lMarketSell).error))
    ensures OfferBook(state, n, lMarketBuy, lMarketSell).Ok? ==> (
      var book := OfferBook(state, n, lMarketBuy, lMarketSell).value;
      var r := PricesOf(price, n, lMarketBuy, lMarketSell, state);
      |book.0| == n && |book.1| == n &&
      (r.Ok? <==> forall t :: 0 <= t < n ==> price(book.0[t], book.1[t]).Price?) &&
      (r.Ok? ==> |r.value| == n && forall t :: 0 <= t < n ==> price(book.0[t], book.1[t]) == Price(r.value[t])))
  {
  }

  /** A rule that gives no finite price for the first session's offers
      fails the pass at session 0. */
  lemma {:induction false} FirstSessionFails(price: PricingRule, n: int, lMarketBuy: seq<real>, lMarketSell: seq<real>, state: Meters)
    requires OfferBook(state, n, lMarketBuy, lMarketSell).Ok? && n > 0
    requires !price(OfferBook(state, n, lMarketBuy, lMarketSell).value.0[0], OfferBook(state, n, lMarketBuy, lMarketSell).value.1[0]).Price?
    ensures PricesOf(price, n, lMarketBuy, lMarketSell, state) ==
      Err(PricingFailed(0, price(OfferBook(state, n, lMarketBuy, lMarketSell).value.0[0], OfferBook(state, n, lMarketBuy, lMarketSell).value.1[0])))
  {
    var book := OfferBook(state, n, lMarketBuy, lMarketSell).value;
    var r := PricesUpTo(price, book.0, book.1, n);
    assert r.Err?;
    var t :| 0 <= t < n && r.error == PricingFailed(t, price(book.0[t], book.1[t])) &&
      !price(book.0[t], book.1[t]).Price? && forall u :: 0 <= u < t ==> price(book.0[u], book.1[u]).Price?;
    assert t == 0;
  }

  /** The last net load the optimiser scheduled for a meter, if any. */
  function LastLoad(netLoads: seq<(MemberId, seq<real>)>, id: MemberId): Option<seq<real>>
  {
    if |netLoads| == 0 then None
    else if netLoads[|netLoads| - 1].0 == id then Some(netLoads[|netLoads| - 1].1)
    else LastLoad(netLoads[..|netLoads| - 1], id)
  }

  /** Writing the scheduled net loads back succeeds exactly when every
      scheduled meter is known; then each meter's net load is the last one
      scheduled for it (or unchanged) and nothing else changes. */
  lemma {:induction false} UpdateNetLoadsMeaning(state: Meters, netLoads: seq<(MemberId, seq<real>)>)
    ensures UpdateNetLoads(state, netLoads).Ok? <==> forall i :: 0 <= i < |netLoads| ==> netLoads[i].0 in Ids(state)
    ensures UpdateNetLoads(state, netLoads).Ok? ==> (
      var s := UpdateNetLoads(state, netLoads).value;
      |s| == |state| &&
      forall k :: 0 <= k < |state| ==>
        s[k].0 == state[k].0 && s[k].1.lBuy == state[k].1.lBuy && s[k].1.lSell == state[k].1.lSell &&
        s[k].1.eMet == (if LastLoad(netLoads, state[k].0).Some? then LastLoad(netLoads, state[k].0).value else state[k].1.eMet))
  {
    if |netLoads| > 0 {
      var init := netLoads[..|netLoads| - 1];
      var (id, data) := netLoads[|netLoads| - 1];
      UpdateNetLoadsMeaning(state, init);
      assert forall i :: 0 <= i < |init| ==> init[i] == netLoads[i];
      match UpdateNetLoads(state, init)
      case Err(_) => {
        var i :| 0 <= i < |init| && init[i].0 !in Ids(state);
        assert netLoads[i].0 !in Ids(state);
      }
      case Ok(s) => {
        assert Ids(s) == Ids(state);
        if id !in Ids(s) {
          assert netLoads[|netLoads| - 1].0 !in Ids(state);
        }
      }
    }
  }

  // ---------------------------------------------------------------------
  // The loop
  // ---------------------------------------------------------------------

  /** A run calls the optimiser at most 20 times, and a finished run
      reports its passes and has either converged or used all 20. */
  lemma {:induction false} LoopBounds(c: Setup, r: Result<LoopOutcome, LoopError>, trail: seq<seq<real>>, sols: seq<Solution>,
                   states: seq<Meters>)
    requires RunFrom(c, r, trail, sols, states)
    ensures |sols| <= MaxIterations && |trail| == |sols| + 1 && |states| == |sols| + 1 && trail[0] == InitialPrices(c.n)
    ensures r.Err? ==> |sols| < MaxIterations
    ensures r.Ok? ==> 1 <= r.value.iterations == |sols| && (r.value.criterion.None? ==> r.value.iterations == MaxIterations)
  {
  }

  /** A converged run stopped on prices whose squared distance to the
      first close earlier vector is below 0.0001, and no earlier prices
      were close to any vector before them. */
  lemma {:induction false} LoopStopMeaning(c: Setup, r: Result<LoopOutcome, LoopError>, trail: seq<seq<real>>, sols: seq<Solution>,
                        states: seq<Meters>)
    requires RunFrom(c, r, trail, sols, states) && r.Ok? && r.value.criterion.Some?
    ensures 0.0 <= r.value.criterion.value < SquaredTolerance
    ensures exists j :: (0 <= j < |sols| && |trail[j]| == |trail[|sols|]| &&
      SquaredDistance(trail[j], trail[|sols|]) == r.value.criterion.value &&
      forall i :: 0 <= i < j ==> !Close(trail[i], trail[|sols|]))
    ensures forall m, i :: 0 <= i < m < |sols| ==> !Close(trail[i], trail[m])
  {
    var k := |sols|;
    var j := FirstStop(trail[..k], trail[k]).value;
    assert trail[..k][j] == trail[j];
    StopCriterionMeaning(trail[j], trail[k]);
    forall i | 0 <= i < j
      ensures !Close(trail[i], trail[k])
    {
      assert trail[..k][i] == trail[i];
    }
    forall m, i | 0 <= i < m < k
      ensures !Close(trail[i], trail[m])
    {
      assert FirstStop(trail[..m], trail[m]).None?;
      assert trail[..m][i] == trail[i];
    }
  }

  /** A finished run returns the first solution with the least objective
      below 100000 together with the prices it was optimised for, or the
      starting prices and no solution when none was below 100000. */
  lemma {:induction false} LoopBestMeaning(c: Setup, r: Result<LoopOutcome, LoopError>, trail: seq<seq<real>>, sols: seq<Solution>,
                        states: seq<Meters>)
    requires RunFrom(c, r, trail, sols, states) && r.Ok?
    ensures r.value.solution.Some? ==> (
      var s := r.value.solution.value;
      s.objective < BestSentinel && (forall j :: 0 <= j < |sols| ==> s.objective <= sols[j].objective) &&
      c.optimize(r.value.prices) == Some(s) &&
      exists j :: (0 <= j < |sols| && sols[j] == s && trail[j + 1] == r.value.prices &&
        forall i :: 0 <= i < j ==> s.objective < sols[i].objective))
    ensures r.value.solution.None? ==>
      (r.value.prices == InitialPrices(c.n) && forall j :: 0 <= j < |sols| ==> sols[j].objective >= BestSentinel)
  {
    if r.value.solution.Some? {
      LoopBestFound(c, r.value, trail, sols, states);
    } else {
      assert r.value.prices == trail[0];
    }
  }

  /** The solution a finished run returns is the one of the best pass, and
      the optimiser gave it for the prices returned with it. */
  lemma {:induction false} LoopBestFound(c: Setup, o: LoopOutcome, trail: seq<seq<real>>, sols: seq<Solution>,
                                         states: seq<Meters>)
    requires Traced(c, trail, sols, states) && Finished(o, trail, sols) && o.solution.Some?
    ensures c.optimize(o.prices) == Some(o.solution.value)
    ensures exists j :: (0 <= j < |sols| && sols[j] == o.solution.value && trail[j + 1] == o.prices &&
      forall i :: 0 <= i < j ==> o.solution.value.objective < sols[i].objective)
  {
    var j := BestIndex(sols).value;
    assert o.solution == Some(sols[j]) && o.prices == trail[j + 1];
    assert PassOf(c, states[j]) == Ok((trail[j + 1], sols[j], states[j + 1]));
    PassParts(c, states[j], trail[j + 1], sols[j], states[j + 1]);
  }

  /** The passes of two runs from the same setup agree as far as both
      go. */
  lemma {:induction false} TracedAgree(c: Setup, trail1: seq<seq<real>>, sols1: seq<Solution>, states1: seq<Meters>,
                                       trail2: seq<seq<real>>, sols2: seq<Solution>, states2: seq<Meters>, k: int)
    requires Traced(c, trail1, sols1, states1) && Traced(c, trail2, sols2, states2)
    requires 0 <= k <= |sols1| && k <= |sols2|
    ensures trail1[..k + 1] == trail2[..k + 1] && sols1[..k] == sols2[..k] && states1[..k + 1] == states2[..k + 1]
  {
    if k > 0 {
      TracedAgree(c, trail1, sols1, states1, trail2, sols2, states2, k - 1);
      assert states1[k - 1] == states1[..k][k - 1] == states2[..k][k - 1] == states2[k - 1];
      assert trail1[..k + 1] == trail1[..k] + [trail1[k]];
      assert trail2[..k + 1] == trail2[..k] + [trail2[k]];
      assert sols1[..k] == sols1[..k - 1] + [sols1[k - 1]];
      assert sols2[..k] == sols2[..k - 1] + [sols2[k - 1]];
      assert states1[..k + 1] == states1[..k] + [states1[k]];
      assert states2[..k + 1] == states2[..k] + [states2[k]];
    }
  }

  /** A run does not stop before another run from the same setup: every
      pass of the longer one succeeded, was not a stop, and was within the
      cap. */
  lemma {:induction false} NotShorter(c: Setup, r1: Result<LoopOutcome, LoopError>, trail1: seq<seq<real>>, sols1: seq<Solution>,
                   states1: seq<Meters>, r2: Result<LoopOutcome, LoopError>, trail2: seq<seq<real>>,
                   sols2: seq<Solution>, states2: seq<Meters>)
    requires RunFrom(c, r1, trail1, sols1, states1) && RunFrom(c, r2, trail2, sols2, states2)
    ensures |sols1| >= |sols2|
  {
    var k := if |sols1| < |sols2| then |sols1| else |sols2|;
    assert states1[k] == states2[k] && trail1[k] == trail2[k] && trail1[..k] == trail2[..k] by {
      TracedAgree(c, trail1, sols1, states1, trail2, sols2, states2, k);
      assert states1[k] == states1[..k + 1][k] == states2[..k + 1][k] == states2[k];
      assert trail1[k] == trail1[..k + 1][k] == trail2[..k + 1][k] == trail2[k];
      assert trail1[..k] == trail1[..k + 1][..k] == trail2[..k + 1][..k] == trail2[..k];
    }
    RunEnds(c, r1, trail1, sols1, states1);
    RunContinues(c, r2, trail2, sols2, states2, k);
  }

  /** A run ends after its last pass because the next pass failed, the
      prices were close to earlier ones, or the cap was reached. */
  lemma {:induction false} RunEnds(c: Setup, r: Result<LoopOutcome, LoopError>, trail: seq<seq<real>>, sols: seq<Solution>,
                                   states: seq<Meters>)
    requires RunFrom(c, r, trail, sols, states)
    ensures |sols| <= MaxIterations && |trail| == |sols| + 1 && |states| == |sols| + 1
    ensures |sols| == MaxIterations || PassOf(c, states[|sols|]).Err? ||
            FirstStop(trail[..|sols|], trail[|sols|]).Some?
  {
  }

  /** Every pass before the end of a run succeeded, was not a stop and
      was within the cap. */
  lemma {:induction false} RunContinues(c: Setup, r: Result<LoopOutcome, LoopError>, trail: seq<seq<real>>, sols: seq<Solution>,
                                        states: seq<Meters>, m: int)
    requires RunFrom(c, r, trail, sols, states) && 0 <= m
    ensures m < |sols| ==> PassOf(c, states[m]).Ok? && FirstStop(trail[..m], trail[m]).None? && m < MaxIterations
  {
    if m < |sols| {
      assert PassOf(c, states[m]) == Ok((trail[m + 1], sols[m], states[m + 1]));
      var k := if r.Err? then |sols| + 1 else |sols|;
      assert NoStopBefore(trail, k);
    }
  }

  /** `_common_loop` is determined by its setup: two runs from the same
      setup have the same passes and the same result. */
  lemma {:induction false} LoopRunUnique(c: Setup, r1: Result<LoopOutcome, LoopError>, trail1: seq<seq<real>>, sols1: seq<Solution>,
                      states1: seq<Meters>, r2: Result<LoopOutcome, LoopError>, trail2: seq<seq<real>>,
                      sols2: seq<Solution>, states2: seq<Meters>)
    requires RunFrom(c, r1, trail1, sols1, states1) && RunFrom(c, r2, trail2, sols2, states2)
    ensures r1 == r2 && trail1 == trail2 && sols1 == sols2 && states1 == states2
  {
    NotShorter(c, r1, trail1, sols1, states1, r2, trail2, sols2, states2);
    NotShorter(c, r2, trail2, sols2, states2, r1, trail1, sols1, states1);
    var k := |sols1|;
    TracedAgree(c, trail1, sols1, states1, trail2, sols2, states2, k);
    assert trail1 == trail1[..k + 1] && trail2 == trail2[..k + 1];
    assert sols1 == sols1[..k] && sols2 == sols2[..k];
    assert states1 == states1[..k + 1] && states2 == states2[..k + 1];
    assert r1.Err? ==> FirstStop(trail1[..k], trail1[k]).None?;
    assert r2.Err? ==> FirstStop(trail2[..k], trail2[k]).None?;
  }

  // ---------------------------------------------------------------------
  // The highway
  // ---------------------------------------------------------------------

  /** The highway's result is the loop's second prices with its first
      solution: it runs the loop's first pass and prices what follows. */
  lemma {:induction false} HighwayFollowsLoop(c: Setup, trail: seq<seq<real>>, sols: seq<Solution>, states: seq<Meters>)
    requires Traced(c, trail, sols, states) && |sols| >= 2
    ensures Highway(c) == Ok(HighwayOutcome(trail[2], sols[0]))
  {
    PassParts(c, states[0], trail[1], sols[0], states[1]);
    PassParts(c, states[1], trail[2], sols[1], states[2]);
  }

  /** A highway result has one price per session, and its solution is the
      optimiser's answer to the first prices. */
  lemma {:induction false} HighwayMeaning(c: Setup)
    ensures Highway(c).Ok? ==> (
      PassOf(c, c.init).Ok? && |Highway(c).value.prices| == c.n &&
      Highway(c).value.solution == PassOf(c, c.init).value.1 &&
      c.optimize(PassOf(c, c.init).value.0) == Some(Highway(c).value.solution))
  {
    if Highway(c).Ok? {
      var (first, sol, next) := PassOf(c, c.init).value;
      PassParts(c, c.init, first, sol, next);
      PassLengths(c.price, c.n, c.lMarketBuy, c.lMarketSell, next, Highway(c).value.prices);
    }
  }

  // ---------------------------------------------------------------------
  // The loop wrappers' parameter
  // ---------------------------------------------------------------------

  /** The MMR wrappers' rule as written raises on any offers. */
  lemma {:induction false} WrittenMmrRuleRaises(pruned: bool, divider: real, buys: seq<Offer>, sells: seq<Offer>)
    ensures WrittenLoopRule(MmrRule(pruned), divider)(buys, sells) == Raised(UnexpectedKeyword)
  {
  }

  /** On no offers at all the written rule raises where the mid-market rate
      prices the session at 0. */
  lemma {:induction false} WrittenMmrRuleDiffers(divider: real)
    ensures WrittenLoopRule(MmrRule(false), divider)([], []) == Raised(UnexpectedKeyword)
    ensures LoopRule(MmrRule(false), divider)([], []) == Price(0.0)
  {
  }

  /** The SDR and crossing-value wrappers hand their parameter over under
      the declared name, so as written they price with the intended rule;
      only the MMR wrappers' rule differs from it. */
  lemma {:induction false} WrittenRuleDiffersOnlyForMmr(m: Mechanism, value: real)
    ensures WrittenLoopRule(m, value) == LoopRule(m, value) <==> !m.MmrRule?
  {
    if m.MmrRule? {
      WrittenMmrRuleRaises(m.pruned, value, [], []);
      assert LoopRule(m, value)([], []) == Price(0.0);
    } else {
      assert WrapperKeyword(m) == DeclaredKeyword(m);
    }
  }

  /** A loop whose first pass fails returns that pass's error without
      ever calling the optimiser successfully. */
  lemma {:induction false} FailedFirstPass(c: Setup, r: Result<LoopOutcome, LoopError>, trail: seq<seq<real>>, sols: seq<Solution>,
                        states: seq<Meters>, e: LoopError)
    requires RunFrom(c, r, trail, sols, states) && PassOf(c, c.init) == Err(e)
    ensures r == Err(e) && sols == []
  {
    TracedFirstPass(c, trail, sols, states);
  }

  /** A run that passed at least once passed from the starting meters. */
  lemma {:induction false} TracedFirstPass(c: Setup, trail: seq<seq<real>>, sols: seq<Solution>, states: seq<Meters>)
    requires Traced(c, trail, sols, states)
    ensures |sols| > 0 ==> PassOf(c, c.init) == Ok((trail[1], sols[0], states[1]))
  {
    if |sols| > 0 {
      assert PassOf(c, states[0]) == Ok((trail[1], sols[0], states[1]));
    }
  }

  /** As written, an MMR loop wrapper on well-shaped meters with at least
      one session fails on the first session of its first pass. */
  lemma {:induction false} WrittenMmrLoopFails(meters: seq<(MemberId, LoopMeter)>, horizon: real, deltaT: real, lMarketBuy: seq<real>,
                            lMarketSell: seq<real>, pruned: bool, divider: real, optimize: Optimizer, n: int,
                            r: Result<LoopOutcome, LoopError>, trail: seq<seq<real>>, sols: seq<Solution>, states: seq<Meters>)
    requires TimeIntervals(horizon, deltaT, DefaultRounding) == Ok(n) && n > 0
    requires OfferBook(InitialMeters(meters), n, lMarketBuy, lMarketSell).Ok?
    requires LoopRun(meters, horizon, deltaT, lMarketBuy, lMarketSell, WrittenLoopRule(MmrRule(pruned), divider), optimize,
                     r, trail, sols, states)
    ensures r == Err(PricingFailed(0, Raised(UnexpectedKeyword))) && sols == []
  {
    var c := Setup(n, lMarketBuy, lMarketSell, WrittenLoopRule(MmrRule(pruned), divider), optimize, InitialMeters(meters));
    var book := OfferBook(c.init, n, lMarketBuy, lMarketSell).value;
    WrittenMmrRuleRaises(pruned, divider, book.0[0], book.1[0]);
    FirstSessionFails(c.price, n, lMarketBuy, lMarketSell, c.init);
    FailedFirstPass(c, r, trail, sols, states, PricingFailed(0, Raised(UnexpectedKeyword)));
  }

  /** As written, an MMR highway wrapper on well-shaped meters with at
      least one session fails on the first session. */
  lemma {:induction false} WrittenMmrHighwayFails(c: Setup, pruned: bool, divider: real)
    requires c.price == WrittenLoopRule(MmrRule(pruned), divider) && c.n > 0
    requires OfferBook(c.init, c.n, c.lMarketBuy, c.lMarketSell).Ok?
    ensures Highway(c) == Err(PricingFailed(0, Raised(UnexpectedKeyword)))
  {
    var book := OfferBook(c.init, c.n, c.lMarketBuy, c.lMarketSell).value;
    WrittenMmrRuleRaises(pruned, divider, book.0[0], book.1[0]);
    FirstSessionFails(c.price, c.n, c.lMarketBuy, c.lMarketSell, c.init);
  }

  /** The single-session price a mechanism's `vanilla_*` wrapper gives. */
  function VanillaPrice(m: Mechanism, value: real, buys: seq<Offer>, sells: seq<Offer>): PriceResult
  {
    match m
    case MmrRule(pruned) => VanillaMmr(buys, sells, pruned, value)
    case SdrRule(pruned) => VanillaSdr(buys, sells, pruned, value)
    case CrossingRule => Price(VanillaCrossingValue(buys, sells, value))
  }

  /** With the parameter handed over under its declared name, every price
      a loop computes in every pass is the `vanilla_*` price of that
      session's offers. */
  lemma {:induction false} LoopPricesAreVanilla(c: Setup, m: Mechanism, value: real, trail: seq<seq<real>>, sols: seq<Solution>,
                             states: seq<Meters>, j: int)
    requires c.price == LoopRule(m, value) && Guard(m, value).None?
    requires Traced(c, trail, sols, states) && 0 <= j < |sols|
    ensures OfferBook(states[j], c.n, c.lMarketBuy, c.lMarketSell).Ok?
    ensures |trail[j + 1]| == c.n
    ensures forall t :: 0 <= t < c.n ==>
      VanillaPrice(m, value, OfferBook(states[j], c.n, c.lMarketBuy, c.lMarketSell).value.0[t],
                   OfferBook(states[j], c.n, c.lMarketBuy, c.lMarketSell).value.1[t]) == Price(trail[j + 1][t])
  {
    PassParts(c, states[j], trail[j + 1], sols[j], states[j + 1]);
    PricesOfMeaning(c.price, c.n, c.lMarketBuy, c.lMarketSell, states[j]);
  }
}
