# Local energy market pricing of rec-operation, in Dafny

This project models the market-clearing core of the INESCTEC `rec-operation`
library, the part that prices the local energy market of a renewable energy
community. It covers four things:

- **Auction rules for one market session** (`PricingMechanisms.py`):
  - the running sums over sorted offers;
  - the screening of accepted offers;
  - the pool crossing value;
  - the mid-market rate (MMR) and the supply/demand ratio (SDR), each with its pruned variant;
  - the crossing test and the convergence test.
- **The offer model** (`pricing_helpers.py`). Every member's signed net load becomes at most one buy or sell offer per session.
- **The orchestration** (`pricing_mechanisms_functions.py`):
  - the fixed-point loop `_common_loop`, which alternates pricing with a collective schedule optimisation;
  - the two-pass `_common_highway`;
  - the single-session `vanilla_*` entry points;
  - the parameter guards of the `loop_*` wrappers.
- **The utilities around them**:
  - a meter's individual cost after delivery (`IndividualCost.py`);
  - time-step counting and list and dictionary builders (`milp_helpers.py`);
  - timestamp iteration, forecast pruning and measurement substitution (`general_helpers.py`).

Prices and amounts are `real`. Offers are the `Offer(origin, amount, value)`
datatype, which has the shape of `OfferDict`.

The form of the model follows the source:
- Code that loops or updates state is a `method`, proved against a specification function:
  - the running sums, the screening walk and the crossing walk;
  - `make_offers`, the history check and the write-back of the scheduled net loads;
  - the loop and the highway;
  - the slot routing of the individual cost;
  - `iter_dt`, `list.remove` and the first-element substitution.
- Code made of expressions is a `function`, and lemmas state its properties.

Some of the source's in-place updates are modelled directly:
- the caller's sell list, whose amounts `_cumsum_offers` overwrites, is an `array<Offer>` in `CumsumOffers`, `GetAcceptedOffers` and `ComputeCrossingValue`;
- `backpack['l_lem']` is a field of the `LoopBackpack` class;
- a forecast list is a `Forecasts` object that `remove_out_of_range` changes;
- a forecast series is a `Series` object that `substitute_by_measure` changes.

The pricing rule and the optimiser of the loop are function-valued parameters:
- a rule maps a session's buy and sell offers to a price, a non-finite number (numpy's `inf`/`nan` from a division by zero) or a raised error;
- the optimiser maps the price vector to an optional solution, which holds the objective value and the scheduled net load of each meter.

A run of the loop is described by the ghost predicate `LoopRun`. It records:
- `trail`: the price vectors, that is, the history list plus the final prices;
- `sols`: the optimiser's solutions;
- `states`: the meters' net loads before each pass.

The properties are stated over these records.

## Model

Paths are relative to the repository root.

| member | source | states |
|---|---|---|
| Common.MinValue | rec_op_lem_prices/pricing_mechanisms/module/PricingMechanisms.py:141 | the least offer value of a non-empty list is at most every value and is one of them |
| Common.MaxValue | rec_op_lem_prices/pricing_mechanisms/module/PricingMechanisms.py:142 | the greatest offer value of a non-empty list is at least every value and is one of them |
| OfferOrder.SortAsc | rec_op_lem_prices/pricing_mechanisms/module/PricingMechanisms.py:42 | `sorted` by `value + small_increment`: an insertion sort that puts each offer before the first one that is not cheaper, keeping the length (properties: SortAscSorted, SortAscKeepsTies, SortAscShiftFree, SortAscEnds) |
| OfferOrder.SortDesc | rec_op_lem_prices/pricing_mechanisms/module/PricingMechanisms.py:43 | `sorted` by `value - small_increment` with `reverse=True`: the mirror insertion sort, keeping the length (properties: SortDescSorted, SortDescKeepsTies, SortDescShiftFree, SortDescEnds) |
| OfferOrder.SortAscSorted | rec_op_lem_prices/pricing_mechanisms/module/PricingMechanisms.py:42 | the sell ordering is ascending by value and a permutation of its input |
| OfferOrder.SortDescSorted | rec_op_lem_prices/pricing_mechanisms/module/PricingMechanisms.py:43 | the buy ordering (reverse=True) is descending by value and a permutation of its input |
| OfferOrder.SortAscShiftFree | rec_op_lem_prices/pricing_mechanisms/module/PricingMechanisms.py:42 | adding `small_increment` to every sell key gives the same order as no increment |
| OfferOrder.SortDescShiftFree | rec_op_lem_prices/pricing_mechanisms/module/PricingMechanisms.py:43 | subtracting `small_increment` from every buy key gives the same order as no increment |
| OfferOrder.SortAscStable | rec_op_lem_prices/pricing_mechanisms/module/PricingMechanisms.py:42 | a list already ascending comes back unchanged |
| OfferOrder.SortAscKeepsTies | rec_op_lem_prices/pricing_mechanisms/module/PricingMechanisms.py:42 | the sort is stable: for every price, the sell offers at that price come out in the order the caller listed them |
| OfferOrder.SortDescStable | rec_op_lem_prices/pricing_mechanisms/module/PricingMechanisms.py:43 | a list already descending comes back unchanged by the reversed sort |
| OfferOrder.SortDescKeepsTies | rec_op_lem_prices/pricing_mechanisms/module/PricingMechanisms.py:43 | `reverse=True` keeps the sort stable: for every price, the buy offers at that price come out in the order the caller listed them |
| OfferOrder.SortAscEnds | rec_op_lem_prices/pricing_mechanisms/module/PricingMechanisms.py:42 | the sorted sells start at the cheapest ask and end at the dearest |
| OfferOrder.SortDescEnds | rec_op_lem_prices/pricing_mechanisms/module/PricingMechanisms.py:43 | the sorted buys start at the dearest bid and end at the cheapest |
| PricingMechanisms.AbsAmounts | rec_op_lem_prices/pricing_mechanisms/module/PricingMechanisms.py:36-37 | every sell offer keeps its origin and value and gets the absolute value of its amount |
| PricingMechanisms.Cumsum | rec_op_lem_prices/pricing_mechanisms/module/PricingMechanisms.py:13-54 | the cumulated buyers and sellers have as many entries as the bids and asks |
| PricingMechanisms.PrefixSums | rec_op_lem_prices/pricing_mechanisms/module/PricingMechanisms.py:46-51 | the in-place prefix-sum loop replaces each amount by the running total up to it |
| PricingMechanisms.CumsumOffers | rec_op_lem_prices/pricing_mechanisms/module/PricingMechanisms.py:13-54 | the caller's sell array is left with absolute amounts; the result is the sorted, cumulated (buyers, sellers) |
| PricingMechanisms.Screen | rec_op_lem_prices/pricing_mechanisms/module/PricingMechanisms.py:337-360 | the two-pointer screening walk stops at counts within both lists |
| PricingMechanisms.Accepted | rec_op_lem_prices/pricing_mechanisms/module/PricingMechanisms.py:303-363 | the screened buys are a prefix of the caller's buys and the screened sells a prefix of the caller's (absolute-amount) sells |
| PricingMechanisms.AcceptedSorted | rec_op_lem_prices/pricing_mechanisms/module/PricingMechanisms.py:337-360 | the corrected screening: prefixes of the bids sorted dearest first and the asks sorted cheapest first |
| PricingMechanisms.ScreenWalk | rec_op_lem_prices/pricing_mechanisms/module/PricingMechanisms.py:337-360 | the `while` loop with the `last_rescued` rescue appends exactly the first counts the walk finds |
| PricingMechanisms.GetAcceptedOffers | rec_op_lem_prices/pricing_mechanisms/module/PricingMechanisms.py:303-363 | returns `Accepted` of the caller's lists; mutates the sell amounts to their absolute values unless both lists are empty |
| PricingMechanisms.ComputeCrossingValue | rec_op_lem_prices/pricing_mechanisms/module/PricingMechanisms.py:366-422 | returns the crossing value of the caller's lists; mutates the sell amounts as `_cumsum_offers` does unless both lists are empty |
| PricingMechanisms.CrossingWalk | rec_op_lem_prices/pricing_mechanisms/module/PricingMechanisms.py:404-419 | the `while` loop over both cumulated lists ends with the crossing value the walk specifies, never None |
| PricingMechanisms.CrossingValue | rec_op_lem_prices/pricing_mechanisms/module/PricingMechanisms.py:366-422 | the pool crossing value: 0 without offers, the dearest bid or the cheapest ask when only one side offers, else the last price the walk trades at (properties: CrossingValueBounds, CrossingValueOneSided, CrossingValueOffered, CrossingValueIncrementFree) |
| PricingMechanisms.Mmr | rec_op_lem_prices/pricing_mechanisms/module/PricingMechanisms.py:104-156 | `compute_mmr`: the one-sided and empty cases, the crossing-value fallback when the cheapest bid is below the dearest ask, else (cheapest bid + dearest ask) / divisor, non-finite for divisor 0 (properties: MmrOneSided, MmrCrossingFallback, MmrMidpoint, MmrFinite, MmrExamples) |
| PricingMechanisms.PrunedMmr | rec_op_lem_prices/pricing_mechanisms/module/PricingMechanisms.py:159-178 | `compute_pruned_mmr` as written: the MMR of what `get_accepted_offers` keeps, which are prefixes of the caller's lists (properties: PrunedNoTrade, PrunedInSortedOrder, MisorderedPrunedPrices, PrunedMmrExample) |
| PricingMechanisms.SdrFormula | rec_op_lem_prices/pricing_mechanisms/module/PricingMechanisms.py:252-263 | the closing branch: a ratio of `inf` prices 0, a ratio of at least 1 takes the surplus formula, a ratio in [0, 1) the deficit formula, and a negative or `nan` ratio raises (properties: SdrFormulaSurplus, SdrFormulaDeficit, SdrFormulaBounds) |
| PricingMechanisms.SdrClosing | rec_op_lem_prices/pricing_mechanisms/module/PricingMechanisms.py:233-263 | the closing formula on the session's total supply, total demand, cheapest bid and dearest ask (properties: SdrNoCross, SdrClosingWithinSpread) |
| PricingMechanisms.Sdr | rec_op_lem_prices/pricing_mechanisms/module/PricingMechanisms.py:198-268 | `compute_sdr`: the compensation assertion, the one-sided and empty cases, the crossing-value fallback, else the closing formula (properties: SdrCompensationChecked, SdrCrossingFallback, SdrWithinSpread, SdrZeroDemand, SdrExamples) |
| PricingMechanisms.PrunedSdr | rec_op_lem_prices/pricing_mechanisms/module/PricingMechanisms.py:181-195 | `compute_pruned_sdr` as written: the SDR of what `get_accepted_offers` keeps (properties: PrunedNoTrade, PrunedInSortedOrder, MisorderedPrunedPrices, PrunedSdrExample) |
| PricingMechanisms.DoOffersCross | rec_op_lem_prices/pricing_mechanisms/module/PricingMechanisms.py:271-300 | `do_offers_cross`: False without offers, an error with one side empty, else whether the cheapest bid is below the dearest ask (property: DoOffersCrossMeaning) |
| PricingMechanisms.SquaredDistance | rec_op_lem_prices/pricing_mechanisms/module/PricingMechanisms.py:439 | the sum of the squared differences of two price vectors (properties: SquaredDistanceNonNegative, SquaredDistanceSymmetric, SquaredDistanceSelf) |
| PricingMechanisms.StopCriterion | rec_op_lem_prices/pricing_mechanisms/module/PricingMechanisms.py:425-443 | the squared distance, and whether it is below 0.0001, that is, whether the distance is below 0.01 (property: StopCriterionMeaning) |
| PricingProperties.AbsAmountsValues | rec_op_lem_prices/pricing_mechanisms/module/PricingMechanisms.py:36-37 | normalising the sell amounts leaves every price as it was |
| PricingProperties.SumAmountsPrefixGrows | rec_op_lem_prices/pricing_mechanisms/module/PricingMechanisms.py:46-51 | running totals of non-negative amounts never decrease along the list |
| PricingProperties.CumulateLastIsTotal | rec_op_lem_prices/pricing_mechanisms/module/PricingMechanisms.py:46-51 | the last running total is the whole amount offered, and prices are untouched |
| PricingProperties.SupplyNonNegative | rec_op_lem_prices/pricing_mechanisms/module/PricingMechanisms.py:233-236 | the total of the normalised sell amounts is non-negative |
| PricingProperties.SumAmountsPermutation | rec_op_lem_prices/pricing_mechanisms/module/PricingMechanisms.py:236-237 | a total amount does not depend on the order of the offers |
| PricingProperties.CumsumIncrementFree | rec_op_lem_prices/pricing_mechanisms/module/PricingMechanisms.py:42-43 | the increment never changes what `_cumsum_offers` returns |
| PricingProperties.CumsumShape | rec_op_lem_prices/pricing_mechanisms/module/PricingMechanisms.py:36-51 | buyers descend from the dearest to the cheapest bid, sellers ascend from the cheapest to the dearest ask, and the last seller's running total is the whole supply |
| PricingProperties.ScreenCrosses | rec_op_lem_prices/pricing_mechanisms/module/PricingMechanisms.py:340-360 | the walk only moves forward, and its last accepted ask is no dearer than its last accepted bid |
| PricingProperties.ScreenStart | rec_op_lem_prices/pricing_mechanisms/module/PricingMechanisms.py:341-342 | the walk accepts something if and only if the cheapest ask is not dearer than the dearest bid |
| PricingProperties.AcceptedOneSided | rec_op_lem_prices/pricing_mechanisms/module/PricingMechanisms.py:325-334 | with no bids or no asks the screening returns ([], []) |
| PricingProperties.AcceptedBothOrNeither | rec_op_lem_prices/pricing_mechanisms/module/PricingMechanisms.py:337-360 | bids are accepted if and only if asks are, and if and only if both sides exist and the cheapest ask is at most the dearest bid |
| PricingProperties.AcceptedSortedCrosses | rec_op_lem_prices/pricing_mechanisms/module/PricingMechanisms.py:337-360 | in the corrected screening every accepted ask is at most every accepted bid |
| PricingProperties.AcceptedSortedCounts | rec_op_lem_prices/pricing_mechanisms/module/PricingMechanisms.py:337-360 | the as-written and the corrected screenings keep the same numbers of bids and asks |
| PricingProperties.AcceptedInSortedOrder | rec_op_lem_prices/pricing_mechanisms/module/PricingMechanisms.py:344-360 | when the caller lists bids dearest first and asks cheapest first, the as-written screening equals the corrected one |
| PricingProperties.AcceptedCallerOrderCounterexample | rec_op_lem_prices/pricing_mechanisms/module/PricingMechanisms.py:344 | bids [1.0, 50.0] and an ask at 10.0: as written the bid at 1.0 is accepted against the ask at 10.0; corrected, the bid at 50.0 is |
| PriceProperties.CrossingValueBounds | rec_op_lem_prices/pricing_mechanisms/module/PricingMechanisms.py:404-419 | with both sides present the crossing value lies between the cheapest ask and the larger of the dearest bid and the cheapest ask |
| PriceProperties.CrossingValueIncrementFree | rec_op_lem_prices/pricing_mechanisms/module/PricingMechanisms.py:390 | the crossing value does not depend on `small_increment` |
| PriceProperties.CrossingValueNoTrade | rec_op_lem_prices/pricing_mechanisms/module/PricingMechanisms.py:405-411 | when no bid reaches the cheapest ask the crossing value is that ask |
| PriceProperties.CrossingValueOneSided | rec_op_lem_prices/pricing_mechanisms/module/PricingMechanisms.py:386-401 | only bids: the dearest bid; only asks: the cheapest ask; no offers: 0 |
| PriceProperties.CrossingValueOffered | rec_op_lem_prices/pricing_mechanisms/module/PricingMechanisms.py:404-419 | with at least one offer, the crossing value is the price of one of the offers, never a value shifted by the increment |
| PriceProperties.DoOffersCrossMeaning | rec_op_lem_prices/pricing_mechanisms/module/PricingMechanisms.py:271-300 | offers cross if and only if the cheapest bid is below the dearest ask; no offers gives False; exactly one empty side raises |
| PriceProperties.MmrOneSided | rec_op_lem_prices/pricing_mechanisms/module/PricingMechanisms.py:125-138 | only bids: the dearest bid; only asks: the cheapest ask; no offers: 0 |
| PriceProperties.MmrCrossingFallback | rec_op_lem_prices/pricing_mechanisms/module/PricingMechanisms.py:146-151 | when offers cross, the MMR is the crossing value with the default increment, and it lies in the crossing value's bounds |
| PriceProperties.MmrMidpoint | rec_op_lem_prices/pricing_mechanisms/module/PricingMechanisms.py:153 | without crossing and with divisor 2, the MMR is the midpoint of the dearest ask and the cheapest bid |
| PriceProperties.MmrFinite | rec_op_lem_prices/pricing_mechanisms/module/PricingMechanisms.py:153 | the MMR is non-finite if and only if both sides exist, they do not cross and the divisor is 0; it never raises |
| PriceProperties.SdrCompensationChecked | rec_op_lem_prices/pricing_mechanisms/module/PricingMechanisms.py:211 | the SDR raises the compensation assertion if and only if the compensation lies outside [0, 1] |
| PriceProperties.SdrCrossingFallback | rec_op_lem_prices/pricing_mechanisms/module/PricingMechanisms.py:245-250 | with a valid compensation and crossing offers, the SDR equals the MMR with divisor 2, since both fall back to the crossing value |
| PriceProperties.SdrFormulaSurplus | rec_op_lem_prices/pricing_mechanisms/module/PricingMechanisms.py:259-260 | a ratio of at least 1 prices at the dearest ask plus `l_comp` (the compensated share of the spread) divided by the ratio |
| PriceProperties.SdrFormulaDeficit | rec_op_lem_prices/pricing_mechanisms/module/PricingMechanisms.py:261-263 | a ratio in [0, 1) prices by the deficit formula |
| PriceProperties.SdrFormulaBounds | rec_op_lem_prices/pricing_mechanisms/module/PricingMechanisms.py:252-263 | with positive prices and demand the closing price lies between the dearest ask and the cheapest bid, below the compensated ask in surplus and above it in deficit |
| PriceProperties.SdrNoCross | rec_op_lem_prices/pricing_mechanisms/module/PricingMechanisms.py:235-263 | without crossing the SDR is the closing formula on total supply, total demand, cheapest bid and dearest ask |
| PriceProperties.SdrClosingWithinSpread | rec_op_lem_prices/pricing_mechanisms/module/PricingMechanisms.py:252-263 | the closing formula on a session's offers is a price inside the bid-ask spread |
| PriceProperties.SdrWithinSpread | rec_op_lem_prices/pricing_mechanisms/module/PricingMechanisms.py:198-268 | without crossing, with positive prices and demand, the SDR is a finite price between the dearest ask and the cheapest bid |
| PriceProperties.SdrSurplusPaysAsk | rec_op_lem_prices/pricing_mechanisms/module/PricingMechanisms.py:259-260 | without compensation, a supply covering the demand is paid exactly the dearest ask |
| PriceProperties.SdrZeroDemand | rec_op_lem_prices/pricing_mechanisms/module/PricingMechanisms.py:256-258 | a positive supply against zero demand (ratio `inf`) prices at 0 |
| PriceProperties.PrunedNoTrade | rec_op_lem_prices/pricing_mechanisms/module/PricingMechanisms.py:159-195 | when one side is empty or no bid reaches an ask, the pruned MMR and the pruned SDR are 0, both as written and corrected |
| PriceProperties.PrunedInSortedOrder | rec_op_lem_prices/pricing_mechanisms/module/PricingMechanisms.py:159-195 | when the caller lists bids dearest first and asks cheapest first, the pruned MMR and SDR as written equal the corrected ones |
| PriceProperties.MisorderedPrunedPrices | rec_op_lem_prices/pricing_mechanisms/module/PricingMechanisms.py:159-195 | bids at 1.0 then 50.0 and one ask at 10.0: as written, the pruned MMR (divisor 2) and the pruned SDR (compensation 0.5) fall back on the crossing value 10.0; corrected, both are 30.0 |
| PriceProperties.CorrectedPrunedMmrClosedForm | rec_op_lem_prices/pricing_mechanisms/module/PricingMechanisms.py:159-178 | for the corrected screening (Findings, row 1), not the code as written: the accepted offers never cross, so the pruned MMR is (cheapest accepted bid + dearest accepted ask) / divisor |
| PriceProperties.CorrectedPrunedSdrWithinSpread | rec_op_lem_prices/pricing_mechanisms/module/PricingMechanisms.py:181-195 | for the corrected screening, not the code as written: with a positive dearest accepted ask and positive accepted demand, the pruned SDR is a finite price between the dearest accepted ask and the cheapest accepted bid |
| PriceProperties.SquaredDistanceNonNegative | rec_op_lem_prices/pricing_mechanisms/module/PricingMechanisms.py:439 | the squared distance of two price vectors is non-negative |
| PriceProperties.SquaredDistanceSymmetric | rec_op_lem_prices/pricing_mechanisms/module/PricingMechanisms.py:439 | the squared distance is symmetric |
| PriceProperties.SquaredDistanceSelf | rec_op_lem_prices/pricing_mechanisms/module/PricingMechanisms.py:439 | a vector is at distance 0 from itself |
| PriceProperties.StopCriterionMeaning | rec_op_lem_prices/pricing_mechanisms/module/PricingMechanisms.py:425-443 | the test is symmetric, gives (True, 0) on identical vectors and a non-negative distance, and stopping puts every session within 0.01 |
| PricingExamples.MmrExamples | tests/test_pricing_mechanisms.py:16-43 | the test's bids and asks give 25.0, then 50/3 (16.67) with divisor 3, and the crossing value 10.0 when the dearest ask is 50 |
| PricingExamples.SdrFormulaValues | rec_op_lem_prices/pricing_mechanisms/module/PricingMechanisms.py:252-263 | the closing formula's exact values for the supplies, demand, cheapest bid and dearest ask of the test sessions |
| PricingExamples.SdrExamples | tests/test_pricing_mechanisms.py:118-157 | the test's sessions give 1575/101 (15.594), 2625/103 (25.485) with compensation 0.5, 15.0 in surplus, 315/19 (16.579) in deficit, and the crossing value 10.0 |
| PricingExamples.PrunedMmrWalk | tests/test_pricing_mechanisms.py:46-73 | the screening keeps every bid and the asks at 0 and 10 of the crossing session |
| PricingExamples.PrunedMmrExample | tests/test_pricing_mechanisms.py:46-73 | the pruned MMR of the crossing session is 22.5 |
| PricingExamples.PrunedSdrWalk | tests/test_pricing_mechanisms.py:76-109 | the screening keeps every offer of the test session |
| PricingExamples.PrunedSdrExample | tests/test_pricing_mechanisms.py:76-109 | the pruned SDR is 15.594 without compensation and 25.485 with compensation 0.5 |
| PricingExamples.CrossingValueExample | tests/test_pricing_mechanisms_functions.py:109-118 | the four bids and three asks, without increment, cross at 20.0 |
| PricingExamples.StopCriterionExample | tests/test_pricing_mechanisms.py:247-256 | the test's vectors: a move of 0.2 in the last session goes on with the distance 0.2 (squared 0.04); a move of 0.0000000001 stops, with a distance that rounds to 0.000 |
| PricingHelpers.MeterShapeError | rec_op_lem_prices/pricing_mechanisms/helpers/pricing_helpers.py:38-41 | no meter assertion fails if and only if every meter's series has one entry per session |
| PricingHelpers.CheckShapes | rec_op_lem_prices/pricing_mechanisms/helpers/pricing_helpers.py:36-42 | the assertion loop reports exactly the first failing length assertion, market tariffs before meters, or none |
| PricingHelpers.AddMeterOffers | rec_op_lem_prices/pricing_mechanisms/helpers/pricing_helpers.py:52-67 | one meter's session loop appends its buy or sell offer, if any, to the end of each session's list and changes nothing else |
| PricingHelpers.MakeOffers | rec_op_lem_prices/pricing_mechanisms/helpers/pricing_helpers.py:6-71 | the nested meter-by-session loop builds exactly the offer book (or the first failed length assertion) |
| PricingHelpers.SessionBuys | rec_op_lem_prices/pricing_mechanisms/helpers/pricing_helpers.py:51-60 | the buy offers of one session in meter order: each meter with a positive net load offers it at the lower of its retail buying price and the market buying tariff (properties: SessionBuysMembers, OneBuyPerMeter, BuyerConsumes) |
| PricingHelpers.SessionSells | rec_op_lem_prices/pricing_mechanisms/helpers/pricing_helpers.py:61-67 | the sell offers of one session in meter order: each meter with a negative net load offers its injection at the higher of its retail selling cost and the market selling tariff (properties: SessionSellsMembers, OneSellPerMeter, SellerInjects) |
| PricingHelpers.OfferBook | rec_op_lem_prices/pricing_mechanisms/helpers/pricing_helpers.py:6-71 | `make_offers`: the first failed length assertion, or one buy list and one sell list per session (properties: OfferBookShape, ExampleOfferBook; method: MakeOffers) |
| OfferBookProperties.OfferBookShape | rec_op_lem_prices/pricing_mechanisms/helpers/pricing_helpers.py:36-46 | the offers are built if and only if every series has `nr_sessions` entries; the market-series errors come first; both outer lists have `nr_sessions` entries |
| OfferBookProperties.SessionBuysMembers | rec_op_lem_prices/pricing_mechanisms/helpers/pricing_helpers.py:51-60 | a session's buy offers are exactly the consuming meters' loads at the cheaper of retail and market price |
| OfferBookProperties.SessionSellsMembers | rec_op_lem_prices/pricing_mechanisms/helpers/pricing_helpers.py:61-67 | a session's sell offers are exactly the injecting meters' absolute loads at the dearer of retail and market price |
| OfferBookProperties.OfferAmountsPositive | rec_op_lem_prices/pricing_mechanisms/helpers/pricing_helpers.py:53-67 | every offer is for a strictly positive amount |
| OfferBookProperties.IdleMeterOffersNothing | rec_op_lem_prices/pricing_mechanisms/helpers/pricing_helpers.py:53-67 | a meter with zero net load makes no offer in that session |
| OfferBookProperties.OneBuyPerMeter | rec_op_lem_prices/pricing_mechanisms/helpers/pricing_helpers.py:51-60 | no meter appears twice among a session's buy offers |
| OfferBookProperties.OneSellPerMeter | rec_op_lem_prices/pricing_mechanisms/helpers/pricing_helpers.py:61-67 | no meter appears twice among a session's sell offers |
| OfferBookProperties.BuyerConsumes | rec_op_lem_prices/pricing_mechanisms/helpers/pricing_helpers.py:54-60 | every buy offer comes from a meter consuming in that session |
| OfferBookProperties.SellerInjects | rec_op_lem_prices/pricing_mechanisms/helpers/pricing_helpers.py:61-67 | every sell offer comes from a meter injecting in that session |
| OfferBookProperties.OneSidePerMeter | rec_op_lem_prices/pricing_mechanisms/helpers/pricing_helpers.py:53-67 | no meter both buys and sells in the same session |
| OfferBookProperties.ExampleSessions | rec_op_lem_prices/pricing_mechanisms/helpers/pricing_helpers.py:51-67 | in the two-meter scenario, a session's offers appear in meter order |
| OfferBookProperties.ExampleOfferBook | tests/test_pricing_helpers.py:20-33 | the two-meter, four-session scenario gives exactly the expected buy and sell lists |
| MilpHelpers.TimeIntervals | rec_op_lem_prices/optimization/helpers/milp_helpers.py:43-62 | `time_intervals`: the number of `delta_t` steps in the horizon, rounded by `func` ("ceil", "floor" or "int"); an unknown `func` or a zero step is an error (properties: TimeIntervalsRounding, TimeIntervalsZeroStep, TimeIntervalsExamples) |
| MilpHelpers.FloorOf | rec_op_lem_prices/optimization/helpers/milp_helpers.py:58 | `math.floor` brackets its argument from below |
| MilpHelpers.CeilOf | rec_op_lem_prices/optimization/helpers/milp_helpers.py:56 | `math.ceil` brackets its argument from above |
| MilpHelpers.TruncOf | rec_op_lem_prices/optimization/helpers/milp_helpers.py:60 | `int` truncates toward zero |
| MilpHelpers.TimeIntervalsRounding | rec_op_lem_prices/optimization/helpers/milp_helpers.py:43-62 | 'ceil', 'floor' and 'int' bracket horizon/delta_t as named, and any other method raises |
| MilpHelpers.TimeIntervalsZeroStep | rec_op_lem_prices/optimization/helpers/milp_helpers.py:55-62 | a zero step fails: a division error for a valid method, the method error otherwise |
| MilpHelpers.TruncIsFloorWhenNonNegative | rec_op_lem_prices/optimization/helpers/milp_helpers.py:57-61 | for a non-negative quotient 'int' and 'floor' agree |
| MilpHelpers.CeilIsFloorWhenWhole | rec_op_lem_prices/optimization/helpers/milp_helpers.py:55-58 | 'ceil' and 'floor' agree if and only if the steps fill the horizon exactly |
| MilpHelpers.TimeIntervalsExamples | tests/test_milp_helpers.py:64-72 | 2 h in 0.75 h steps gives 3, 2, 2; in 0.25 h steps gives 8 for every method |
| MilpHelpers.NoneLists | rec_op_lem_prices/optimization/helpers/milp_helpers.py:11-20 | a list of exactly m NaN entries, and an error if and only if m is negative |
| MilpHelpers.DedupKeys | rec_op_lem_prices/optimization/helpers/milp_helpers.py:30 | the dictionary's keys are exactly the designations, each once, in first-occurrence order |
| MilpHelpers.DictNoneLists | rec_op_lem_prices/optimization/helpers/milp_helpers.py:23-30 | `dict_none_lists`: an empty dictionary when there are no designations, an error for a negative m when there is at least one, else each distinct designation, in order, with a NaN list of length m (properties: DictNoneListsFails, DictNoneListsShape, DedupKeys) |
| MilpHelpers.DictNoneListsFails | rec_op_lem_prices/optimization/helpers/milp_helpers.py:23-30 | the dictionary fails to build if and only if m is negative and there is at least one designation, because the comprehension calls `none_lists` only per designation; no designations give an empty dictionary for every m |
| MilpHelpers.DictNoneListsShape | rec_op_lem_prices/optimization/helpers/milp_helpers.py:23-30 | every designation is a key, each mapped to m NaN entries; distinct designations keep their order |
| MilpHelpers.DictPerParam | rec_op_lem_prices/optimization/helpers/milp_helpers.py:33-40 | every meter in order, mapped to its entry under the key, or None exactly when the key is absent |
| GeneralHelpers.IterDt | rec_op_lem_prices/optimization/helpers/general_helpers.py:8-20 | the generator's loop yields exactly the steps from `first` by `delta` up to `last` |
| GeneralHelpers.Steps | rec_op_lem_prices/optimization/helpers/general_helpers.py:8-20 | the timestamps `iter_dt` yields: from `first` by `delta`, while they do not pass `last` (properties: StepsValues, StepsCount; method: IterDt) |
| GeneralHelpers.StepsValues | rec_op_lem_prices/optimization/helpers/general_helpers.py:17-20 | the i-th timestamp is first + i*delta, and none passes `last` |
| GeneralHelpers.StepsCount | rec_op_lem_prices/optimization/helpers/general_helpers.py:17-20 | there are (last-first)/delta + 1 timestamps, and `last` is included if and only if it is reachable |
| GeneralHelpers.DayOfHours | tests/test_general_helpers.py:9-17 | a day of hourly steps gives 25 timestamps, from midnight to midnight, an hour apart |
| GeneralHelpers.Forecasts.Remove | rec_op_lem_prices/optimization/helpers/general_helpers.py:39 | `list.remove` drops the first equal entry |
| GeneralHelpers.RemoveOutOfRange | rec_op_lem_prices/optimization/helpers/general_helpers.py:23-40 | returns the same list object, None stays None, and the list is left holding the in-window forecasts in order |
| GeneralHelpers.InRange | rec_op_lem_prices/optimization/helpers/general_helpers.py:35-39 | the forecasts inside the window, in order (properties: InRangeAllInWindow, InRangeMeaning, InRangeKeeps; method: RemoveOutOfRange) |
| GeneralHelpers.InRangeAllInWindow | rec_op_lem_prices/optimization/helpers/general_helpers.py:35-39 | every remaining forecast lies in [start, end] |
| GeneralHelpers.InRangeMeaning | rec_op_lem_prices/optimization/helpers/general_helpers.py:35-39 | a forecast remains if and only if it lies in the window, and filtering preserves relative order across concatenation |
| GeneralHelpers.InRangeKeeps | rec_op_lem_prices/optimization/helpers/general_helpers.py:35-39 | every in-window forecast remains |
| GeneralHelpers.PruneExample | tests/test_general_helpers.py:20-28 | the 2023 forecast is kept and the 2024 one dropped |
| GeneralHelpers.FirstMatch | rec_op_lem_prices/optimization/helpers/general_helpers.py:58-60 | the first record whose identifier matches, found if and only if one matches |
| GeneralHelpers.Series.SubstituteByMeasure | rec_op_lem_prices/optimization/helpers/general_helpers.py:43-64 | only index 0 changes, to the matching measurement; nothing changes when there is none; an empty list raises |
| GeneralHelpers.MeasureFor | rec_op_lem_prices/optimization/helpers/general_helpers.py:56-62 | the value under the measure key of the first record whose identifier matches, when that value is present and not zero (property: MeasureForMeaning) |
| GeneralHelpers.MeasureForMeaning | rec_op_lem_prices/optimization/helpers/general_helpers.py:56-62 | a substitution is the non-zero measurement of the first matching record; a missing group or no match gives none |
| GeneralHelpers.SubstituteExample | tests/test_general_helpers.py:31-40 | peer and UPAC 'A' both get the measurement 5 |
| IndividualCost.CalculateIndividualCost | rec_op_lem_prices/optimization/module/IndividualCost.py:13-90 | checks the series lengths, then computes exactly the specified outputs |
| IndividualCost.RouteFlows | rec_op_lem_prices/optimization/module/IndividualCost.py:50-64 | the `for pos` loop writes each slot's load into the flow the routing rule chooses |
| IndividualCost.SettleSlots | rec_op_lem_prices/optimization/module/IndividualCost.py:66-78 | the excess power of every slot and the summed cost of energy plus excess |
| IndividualCost.RouteSlot | rec_op_lem_prices/optimization/module/IndividualCost.py:54-64 | how one slot is settled: a consumption is bought on the market only when the retailer is strictly dearer, a surplus goes to the retailer unless the market pays strictly more (properties: RouteSlotMeaning, RouteSlotCheapest) |
| IndividualCost.IndividualCostOf | rec_op_lem_prices/optimization/module/IndividualCost.py:13-90 | `calculate_individual_cost`: the first failed length assertion, with every series measured against `l_buy`, else the routed and settled slots (properties: IndividualCostShape, ExtraPowerOfNetLoad, ExtraPowerSign, ReferenceMeter; method: CalculateIndividualCost) |
| IndividualCost.RouteSlotMeaning | rec_op_lem_prices/optimization/module/IndividualCost.py:54-64 | all flows are non-negative with at most one non-zero; supply minus surplus is the net load; market supply if and only if l_buy > l_market_buy; retail surplus if and only if l_sell >= l_market_sell |
| IndividualCost.RouteSlotCheapest | rec_op_lem_prices/optimization/module/IndividualCost.py:54-64 | the chosen channel costs no more than either channel |
| IndividualCost.ExtraPowerOfNetLoad | rec_op_lem_prices/optimization/module/IndividualCost.py:67-71 | p_extra[t] = max(abs(e_met[t])/delta_t - max_p, 0) |
| IndividualCost.ExtraPowerSign | rec_op_lem_prices/optimization/module/IndividualCost.py:67-71 | p_extra is non-negative, and positive if and only if the power exceeds max_p |
| IndividualCost.IndividualCostShape | rec_op_lem_prices/optimization/module/IndividualCost.py:41-72 | succeeds if and only if every series matches l_buy (the l_sell check first); outputs have one entry per slot and reconstruct e_met |
| IndividualCost.ReferenceMeter | rec_op_lem_prices/optimization/structures/I_O_individual_cost.py:1-21 | the reference meter costs 2.525 with p_extra [0.1, 0, 0] |
| PricingFunctions.AcceptedOffers | rec_op_lem_prices/pricing_mechanisms_functions.py:47-63 | the accepted bids are a prefix of the caller's bids and the accepted asks a prefix of the caller's asks with absolute amounts; either both sides are non-empty or both are empty, and they are non-empty if and only if both sides offer and the cheapest ask is at most the dearest bid |
| PricingFunctions.VanillaMmr | rec_op_lem_prices/pricing_mechanisms_functions.py:67-97 | `vanilla_mmr`: the [0, 1] check of the divider, then `compute_pruned_mmr` or `compute_mmr` with the divider as divisor (property: VanillaMmrGuard) |
| PricingFunctions.VanillaSdr | rec_op_lem_prices/pricing_mechanisms_functions.py:100-130 | `vanilla_sdr`: the [0, 1] check of the compensation, then the pruned or plain SDR (property: VanillaSdrGuard) |
| PricingFunctions.VanillaCrossingValue | rec_op_lem_prices/pricing_mechanisms_functions.py:133-151 | `vanilla_crossing_value`: the crossing value with the given increment (property: VanillaCrossingDefault) |
| PricingFunctions.NetLoad | rec_op_lem_prices/pricing_mechanisms_functions.py:419 | consumption minus generation, pairwise, as long as the shorter series |
| PricingFunctions.InitialMeters | rec_op_lem_prices/pricing_mechanisms_functions.py:417-419 | one entry per meter, in order, with its identifier |
| PricingFunctions.InitialPrices | rec_op_lem_prices/pricing_mechanisms_functions.py:423 | one far-fetched price of 10 per session |
| PricingFunctions.PricesUpTo | rec_op_lem_prices/pricing_mechanisms_functions.py:485-491 | the session prices exist if and only if every session's rule gives a finite price; otherwise the first failing session |
| PricingFunctions.PriceSessions | rec_op_lem_prices/pricing_mechanisms_functions.py:485 | the list comprehension prices the sessions in order |
| PricingFunctions.Ids | rec_op_lem_prices/pricing_mechanisms_functions.py:505-506 | the meters' identifiers in dictionary order |
| PricingFunctions.SetNetLoad | rec_op_lem_prices/pricing_mechanisms_functions.py:506 | assigning a net load keeps the meters and their order |
| PricingFunctions.UpdateNetLoads | rec_op_lem_prices/pricing_mechanisms_functions.py:505-506 | a write-back that succeeds keeps the same meters in the same order |
| PricingFunctions.WriteNetLoads | rec_op_lem_prices/pricing_mechanisms_functions.py:505-506 | the write-back loop computes the specified meters, stopping at an unknown meter |
| PricingFunctions.OfferPrices | rec_op_lem_prices/pricing_mechanisms_functions.py:478-491 | `make_offers` followed by the session prices |
| PricingFunctions.RunSchedule | rec_op_lem_prices/pricing_mechanisms_functions.py:502-510 | the optimiser call followed by the write-back of its net loads |
| PricingFunctions.FirstStop | rec_op_lem_prices/pricing_mechanisms_functions.py:454-465 | the first earlier price vector within 0.01 of the current one, none if and only if no earlier vector is |
| PricingFunctions.CheckHistory | rec_op_lem_prices/pricing_mechanisms_functions.py:454-465 | the history loop stops at the first close vector with its distance, or runs through |
| PricingFunctions.BestIndex | rec_op_lem_prices/pricing_mechanisms_functions.py:446-449 | the first solution with the least objective, provided it is below the 1E5 sentinel; none if and only if none is below |
| PricingFunctions.RunPass | rec_op_lem_prices/pricing_mechanisms_functions.py:478-510 | one pass: offers, prices (stored in `backpack['l_lem']`), optimiser and write-back; the prices have one entry per session |
| PricingFunctions.Head | rec_op_lem_prices/pricing_mechanisms_functions.py:446-449 | the best objective never increases at the head of a pass, and the other variables are untouched |
| PricingFunctions.Next | rec_op_lem_prices/pricing_mechanisms_functions.py:469-510 | a pass appends the current prices to the history, counts one iteration and installs the new prices and net loads |
| PricingFunctions.CommonLoop | rec_op_lem_prices/pricing_mechanisms_functions.py:381-519 | the loop's result and passes are the run `LoopRun` describes, and `backpack['l_lem']` holds the last prices |
| PricingFunctions.LoopStarts | rec_op_lem_prices/pricing_mechanisms_functions.py:423-436 | the loop starts with prices of 10, an empty history, no passes and the sentinels 1E6 and 1E5 |
| PricingFunctions.LoopHead | rec_op_lem_prices/pricing_mechanisms_functions.py:446-465 | the head of a pass keeps a strictly better objective's prices and solution, and reports the first earlier price vector within 0.01 with its distance |
| PricingFunctions.HistoryLengths | rec_op_lem_prices/pricing_mechanisms_functions.py:456 | every vector compared by the history check has one price per session |
| PricingFunctions.LoopAdvances | rec_op_lem_prices/pricing_mechanisms_functions.py:444-510 | a pass that runs keeps the loop invariant |
| PricingFunctions.LoopFails | rec_op_lem_prices/pricing_mechanisms_functions.py:485-502 | a pass whose pricing or optimisation fails ends the run with that error |
| PricingFunctions.LoopStops | rec_op_lem_prices/pricing_mechanisms_functions.py:458-465 | leaving on convergence returns the best prices, the distance found and the iteration count |
| PricingFunctions.LoopCaps | rec_op_lem_prices/pricing_mechanisms_functions.py:469-473 | leaving after 20 passes returns the best prices, no criterion and 20 iterations |
| PricingFunctions.BestStep | rec_op_lem_prices/pricing_mechanisms_functions.py:446-449 | replacing the best only on a strict improvement keeps the best of the passes so far |
| PricingFunctions.PassParts | rec_op_lem_prices/pricing_mechanisms_functions.py:478-510 | a pass that runs priced every session and then scheduled |
| PricingFunctions.PassLengths | rec_op_lem_prices/pricing_mechanisms_functions.py:491 | the prices of a pass have exactly `nr_sessions` entries |
| PricingFunctions.BackpackSetup | rec_op_lem_prices/pricing_mechanisms_functions.py:415-420 | the sessions are counted if and only if `time_intervals` succeeds, and the setup is the backpack's |
| PricingFunctions.LoopRun | rec_op_lem_prices/pricing_mechanisms_functions.py:381-519 | a complete run of `_common_loop`: the price trail, the solutions and the meter states pass by pass, ending at the first stop, failure or the iteration cap (properties: LoopRunUnique, LoopBounds, LoopStopMeaning, LoopBestMeaning; method: CommonLoop) |
| PricingFunctions.PassLoop | rec_op_lem_prices/pricing_mechanisms_functions.py:444-519 | the `while` loop of `_common_loop`: its outcome, trail, solutions and states form the run that the setup specifies, and on success `l_lem` holds the final prices |
| PricingFunctions.Highway | rec_op_lem_prices/pricing_mechanisms_functions.py:1115-1204 | `_common_highway`: one pass from the starting meters, then the prices of the offers that the scheduled net loads give, with that pass's solution (properties: HighwayFollowsLoop, HighwayMeaning; method: CommonHighway) |
| PricingFunctions.CommonHighway | rec_op_lem_prices/pricing_mechanisms_functions.py:1115-1204 | the two-pass loop returns `Highway` of the backpack's setup, and `backpack['l_lem']` holds the first prices |
| PricingFunctions.Guard | rec_op_lem_prices/pricing_mechanisms_functions.py:604 | the wrappers reject a divider or compensation outside [0, 1]; crossing-value wrappers check nothing |
| PricingFunctions.KeywordRule | rec_op_lem_prices/pricing_mechanisms_functions.py:485 | the rule `pricing_func(buys[t], sells[t], **kwargs)` applies: the mechanism's pricing function with the parameter under the given keyword, which raises when the function does not declare it (property: WrittenMmrRuleRaises) |
| PricingFunctions.WrittenLoopRule | rec_op_lem_prices/pricing_mechanisms_functions.py:605-620 | the rule the wrappers build: the parameter under the keyword the wrapper passes, `divider` for the MMR (properties: WrittenMmrRuleDiffers, WrittenRuleDiffersOnlyForMmr) |
| PricingFunctions.LoopRule | rec_op_lem_prices/pricing_mechanisms_functions.py:605-620 | the corrected rule: the parameter under the keyword the pricing function declares (property: LoopPricesAreVanilla) |
| PricingFunctions.LoopPre | rec_op_lem_prices/pricing_mechanisms_functions.py:522-620 | as written: a rejected parameter fails before any pricing, leaving the backpack as it was; otherwise the loop runs with the rule the wrapper builds, which for the MMR passes `divider=` and so raises on the first session |
| PricingFunctions.CorrectedLoopPre | rec_op_lem_prices/pricing_mechanisms_functions.py:522-620 | the same guard, with the loop run on the rule that hands the parameter over as the pricing function's own argument (Findings, row 2) |
| PricingFunctions.LoopPost | rec_op_lem_prices/pricing_mechanisms_functions.py:1207-1280 | as written: a rejected parameter fails before any pricing; otherwise the highway runs with the rule the wrapper builds, including the MMR's `divider=` |
| PricingFunctions.CorrectedLoopPost | rec_op_lem_prices/pricing_mechanisms_functions.py:1207-1280 | the same guard, with the highway run on the corrected rule (Findings, row 2) |
| LoopProperties.VanillaMmrGuard | rec_op_lem_prices/pricing_mechanisms_functions.py:67-97 | `vanilla_mmr` raises if and only if the divider lies outside [0, 1] |
| LoopProperties.VanillaSdrGuard | rec_op_lem_prices/pricing_mechanisms_functions.py:100-130 | `vanilla_sdr` raises the compensation error if and only if the compensation lies outside [0, 1] |
| LoopProperties.VanillaCrossingDefault | rec_op_lem_prices/pricing_mechanisms_functions.py:133-151 | the default increment 0.0 clears at the same price as the library default 0.001 |
| LoopProperties.PricesOfMeaning | rec_op_lem_prices/pricing_mechanisms_functions.py:478-491 | a pass's prices are the rule's price of each session's offers, one per session, or the offers' shape error |
| LoopProperties.FirstSessionFails | rec_op_lem_prices/pricing_mechanisms_functions.py:485 | a rule without a price for the first session fails the pass on session 0 |
| LoopProperties.UpdateNetLoadsMeaning | rec_op_lem_prices/pricing_mechanisms_functions.py:505-506 | the write-back succeeds if and only if every scheduled meter exists; each meter gets its last scheduled net load and keeps its tariffs |
| LoopProperties.LoopBounds | rec_op_lem_prices/pricing_mechanisms_functions.py:469-473 | at most 20 optimiser calls, at least one iteration when finished, and no criterion only at the cap |
| LoopProperties.LoopStopMeaning | rec_op_lem_prices/pricing_mechanisms_functions.py:454-465 | a converged run stopped on the first history vector within 0.01, and no earlier vector was close to any earlier one |
| LoopProperties.LoopBestMeaning | rec_op_lem_prices/pricing_mechanisms_functions.py:446-449 | the returned solution is the first with the least objective, below 1E5, for the returned prices; if none is below 1E5 the prices are the initial 10s |
| LoopProperties.LoopRunUnique | rec_op_lem_prices/pricing_mechanisms_functions.py:444-519 | two runs from the same setup have the same result and passes |
| LoopProperties.HighwayFollowsLoop | rec_op_lem_prices/pricing_mechanisms_functions.py:1156-1204 | the highway returns the loop's second prices with its first solution |
| LoopProperties.HighwayMeaning | rec_op_lem_prices/pricing_mechanisms_functions.py:1156-1204 | a highway result has one price per session, and its solution is the optimiser's for the first prices |
| LoopProperties.WrittenMmrRuleRaises | rec_op_lem_prices/pricing_mechanisms_functions.py:619 | passing `divider=` to a function that declares `divisor` raises on any offers |
| LoopProperties.WrittenMmrRuleDiffers | rec_op_lem_prices/pricing_mechanisms_functions.py:619 | on empty sessions the as-written rule raises where the intended one prices 0 |
| LoopProperties.WrittenRuleDiffersOnlyForMmr | rec_op_lem_prices/pricing_mechanisms_functions.py:605-620 | the written rule equals the corrected rule if and only if the mechanism is not the MMR |
| LoopProperties.WrittenMmrLoopFails | rec_op_lem_prices/pricing_mechanisms_functions.py:615-620 | as written, an MMR loop fails on session 0 of its first pass and never calls the optimiser |
| LoopProperties.WrittenMmrHighwayFails | rec_op_lem_prices/pricing_mechanisms_functions.py:1279 | as written, an MMR highway fails on session 0 |
| LoopProperties.LoopPricesAreVanilla | rec_op_lem_prices/pricing_mechanisms_functions.py:615-620 | with the parameter under its declared name, every loop price is the matching `vanilla_*` price of that session's offers |

## Left out

- Logging, plotting and parsing (`_parsing`, `_plot_pool`) are left out. They have no effect on the results.
- The solver name is left out. It only selects the external solver.
- The MILP models, `optimization_functions.py`, `dual_pre_pool` and `dual_post_pool` are not part of this model.
  - The MILPs are foreign solver calls.
  - The loop takes the optimiser as a function of the prices instead.
  - The pool and the bilateral wrappers differ only in that optimiser, so one model covers both.
- `vanilla_*_plus` is not part of this model. It calls functions that the library does not define.
- `round_up` is left out. It depends on binary floating-point rounding.
- Floating point is modelled as exact reals.
  - `stop_criterion` compares the squared distance with 0.0001 instead of taking a square root. `PricingMechanisms.StopCriterion` returns the squared distance.
  - `round(criterion, 3)` is presentation only.
  - A numpy division by zero is a `NonFinite` outcome. The loop treats a non-finite price as a failed pass, although the source's `isinstance` check accepts it (a numpy float64 is a float) and passes it to the optimiser.
- The loop does not model the shallow copy of `backpack['meters']`. Through it, the source's write-back also changes the caller's meter dictionaries.
- `PricingFunctions.CommonLoop` and `PricingFunctions.CommonHighway` report the optimiser's schedule as one solution. The rest of the MILP output structure is not modelled.
- `PricingMechanisms.StopCriterion` assumes vectors of equal length. numpy broadcasting of a length-1 vector is not modelled.
- `GeneralHelpers.IterDt` requires a positive step. With a zero or negative step the generator never ends.
- `GeneralHelpers.IterDt` uses integer timestamps instead of datetimes.
- `GeneralHelpers.RemoveOutOfRange` works on integer timestamps and the `datetime` key only. The `dt_key` parameter is not modelled.
- `IndividualCost.CalculateIndividualCost`, `IndividualCost.IndividualCostOf` and `IndividualCost.Outputs` require `delta_t != 0`. With zero, numpy divides into `inf` and `nan`.
- `compute_mmr` is modelled as written: (min_buy + max_sell) / divisor. `vanilla_mmr` passes its [0, 1] divider positionally as that divisor.
  - The test values of `test_vanilla_mmr` presume another convention. This model does not reconcile the two.
- `compute_sdr` with zero supply and zero demand follows the code. `0/0` is `nan`, which no branch accepts, so it raises.
- `compute_pruned_mmr`, `compute_pruned_sdr`, the `vanilla_*` entry points and the loop rules screen offers as written (Findings, row 1). The corrected pricing is `PricingMechanisms.CorrectedPrunedMmr` and `PricingMechanisms.CorrectedPrunedSdr`; the closed form and the spread bound of the pruned prices are proved for those only.
- The pruned SDR tests with a crossing, an excess and a deficit session are covered through the unpruned examples only; `PricingExamples` checks the pruned SDR on the first test session.
- `PricingMechanisms.Mmr`, `PricingMechanisms.PrunedMmr`, `PricingMechanisms.Sdr`, `PricingMechanisms.PrunedSdr`, `PricingMechanisms.DoOffersCross`, `PricingFunctions.VanillaMmr`, `PricingFunctions.VanillaSdr` and `PricingFunctions.VanillaCrossingValue` take the offers as values. They do not model that `_cumsum_offers` (PricingMechanisms.py:36-37) overwrites the caller's sell amounts with their absolute values on their crossing-test, screening and crossing-value paths. That change is modelled only in `CumsumOffers`, `GetAcceptedOffers` and `ComputeCrossingValue`. The loop's results do not depend on it, because `make_offers` rebuilds the offers on every pass.
- `OfferOrder.SortAsc` sorts reals. Python compares the float keys, which can tie differently after adding the increment.

## Findings

| source | as written | input that shows it | evidently intended | confidence | as-written member | corrected member |
|---|---|---|---|---|---|---|
| rec_op_lem_prices/pricing_mechanisms/module/PricingMechanisms.py:344 | `get_accepted_offers` appends `buys[b]` and `sells[s]`, the caller's unsorted lists, at the positions of the sorted walk | bids at 1.0 and 50.0 (100 kWh each, in that order) and one ask at 10.0 for 100 kWh: the bid at 1.0 is returned as accepted against an ask at 10.0, so `compute_pruned_mmr` and `compute_pruned_sdr` fall back on the crossing value 10.0 where the corrected screening gives 30.0 (PriceProperties.MisorderedPrunedPrices) | take the offers at the walk's positions from the sorted lists, each with its own amount rather than the running totals of lines 46-51, so that every accepted bid reaches every accepted ask (`PricingMechanisms.AcceptedSorted`, priced by `CorrectedPrunedMmr` and `CorrectedPrunedSdr`) | high (not executed) | PricingProperties.AcceptedCallerOrderCounterexample | PricingProperties.AcceptedSortedCrosses |
| rec_op_lem_prices/pricing_mechanisms_functions.py:619 | the MMR loop wrappers pass `divider=divider` (also at lines 914, 1279 and 1498) to `compute_mmr`/`compute_pruned_mmr`, which declare `divisor` | any backpack with at least one session and well-shaped meters: the first session's pricing raises a TypeError, so the optimiser is never called | hand the parameter over as the functions' `divisor`, as `vanilla_mmr` does | high (not executed) | LoopProperties.WrittenMmrLoopFails | LoopProperties.LoopPricesAreVanilla |
