# Charlie: a verified model of the allocator's discrete core

Charlie computes Kelly-criterion portfolio allocations. An investor describes candidate companies. Each company has a market cap and a few scenarios, and each scenario has an intrinsic value and a probability. Charlie validates this input and enumerates every joint outcome of the scenarios. It then sets up one equation system per on/off pattern of the inequality constraints, and picks the best viable solution.

This project models in Dafny the discrete, statable logic around the numerical solver, and proves what it promises:

- **Exploration script** (`InvestmentCombinations`): the Cartesian product of per-asset return lists, the sorted canonical key of a combination, and the two counts the script prints.
- **Analysis** (`Analysis`, on top of `MixedRadix`):
  - the outcome count and its cap of 50000;
  - the ordering by ticker;
  - the odometer enumeration of scenario indices;
  - each outcome's return and probability;
  - the expected return;
  - the worst-case outcome.
- **Kelly allocator** (`KellyAllocation`):
  - the four builders with their "already set" flags;
  - the pre-checks of `allocate` and their error codes;
  - decoding constraint activity from the bits of the system index;
  - the viability filter;
  - the choice of the best viable solution.
- **Validators**: one module per record of `src/model` (`ModelScenario`, `ModelCompany`, `ModelCapitalLoss`, `ModelPortfolio`), over the result type of `Validation`.
- **Constraints**: one module per file of `src/constraints`, each with its constructor guards, derivative vector and function value. `Constraint` holds what they share.
- **First revision of the constructors** (`LegacyScenario`, `LegacyCompany`): these panic instead of reporting.
- **Library glue** (`Lib`): the validation gate, the positive-expected-return filter, and the mapping of the allocated portfolio to the response.
- **Command line** (`CharlieCli`): the action parser, Rust's `Path::extension` on `/`-separated paths, and the extension warning.

Conventions:

- `f64` is `real`. The tolerance `1e-10` is an exact real constant.
- A market cap that a formula divides by is required to be positive.
- `usize` arithmetic that can overflow is modelled as a release build runs it: modulo `2^64` (`Common.USIZE_MODULUS`). A debug build would panic there instead.
- A Rust panic is the `Panics(reason)` case of `Common.Outcome`. An `Err` return is `Common.Result`'s `Err(Error(code))`.
- `ValidationResult::PROBLEM` keeps its code and severity. It also keeps the string arguments its message interpolates (names, tickers, the joined ticker list).
- A `HashMap` or `HashSet` the code iterates over is the sequence of its elements in iteration order. Every property that should not depend on that order is proved for all reorderings.

The source files come from different revisions that do not compile together. Each module follows the types of its own file.

## Model

| member | source | states |
|---|---|---|
| InvestmentCombinations.ProductLength | investment_combinations.py:16-17 | the product has as many tuples as the product of the list lengths, duplicates included |
| InvestmentCombinations.ProductMembership | investment_combinations.py:16 | a tuple is in the product iff it has one entry per asset and entry i is one of asset i's returns |
| InvestmentCombinations.Sort | investment_combinations.py:19 | the canonical key `sorted(p)` is ascending and a permutation of the combination |
| InvestmentCombinations.SortedUnique | investment_combinations.py:19 | two ascending sequences with the same elements are equal, so the key is unique |
| InvestmentCombinations.SameKeyIffPermutation | investment_combinations.py:19 | two combinations share a key iff they are permutations of each other |
| InvestmentCombinations.KeySetMembership | investment_combinations.py:19 | `set(map(...))` holds exactly the keys of the listed combinations |
| InvestmentCombinations.KeysCharacterized | investment_combinations.py:16-19 | a key is in the set iff it is the sorted form of some combination of the assets |
| InvestmentCombinations.UniqueAtMostCombinations | investment_combinations.py:16-20 | the number of distinct outcomes never exceeds the number of combinations |
| InvestmentCombinations.NoAssets | investment_combinations.py:16-20 | no asset lists give one combination, the empty tuple, and one outcome |
| InvestmentCombinations.AssetWithoutOutcomes | investment_combinations.py:16-20 | one empty asset list makes both counts 0 |
| InvestmentCombinations.ProductOfLengthsPermutation | investment_combinations.py:16-17 | the combination count depends only on the multiset of asset lists |
| InvestmentCombinations.Rearrange | investment_combinations.py:16 | a combination for one order of the assets can be rearranged into one for any other order |
| InvestmentCombinations.ReorderingInvariant | investment_combinations.py:16-20 | reordering the asset lists changes neither printed count |
| InvestmentCombinations.HardCodedCombinations | investment_combinations.py:8-17 | the hard-coded five stocks with three returns each give 243 combinations |
| InvestmentCombinations.HardCodedLifetime | investment_combinations.py:23-33 | 50 years with 2 rebalancings a year give 100 allocations |
| MixedRadix.Digits | src/analysis.rs:42-46 | the little-endian digits of a number in the mixed radix of the scenario counts, one per company |
| MixedRadix.Increment | src/analysis.rs:73-84 | one odometer step keeps the number of indices |
| MixedRadix.DigitsBijective | src/analysis.rs:49-85 | numbers below the product of the radices and valid index tuples correspond one to one |
| MixedRadix.ValueOfDigits | src/analysis.rs:49-85 | the value of the digits of k is k |
| MixedRadix.DigitsOfValue | src/analysis.rs:49-85 | the digits of the value of a valid index tuple are that tuple |
| MixedRadix.IncrementDigits | src/analysis.rs:73-84 | the odometer step turns the digits of k into the digits of k + 1 |
| MixedRadix.IncrementWraps | src/analysis.rs:73-84 | from the last tuple the odometer wraps back to all zeros |
| MixedRadix.DigitsOfZero | src/analysis.rs:42 | the starting index tuple, all zeros, is the digits of 0 |
| MixedRadix.ProdZero | src/analysis.rs:16-20 | the product of the counts is 0 iff some count is 0 |
| MixedRadix.ValueBelowProd | src/analysis.rs:49-85 | every valid index tuple numbers an outcome below the product of the counts |
| Analysis.SortByTicker | src/analysis.rs:31-35 | the entries sorted by `sorted_by` on the ticker are ascending and a permutation of the input |
| Analysis.InsertByTickerSorted | src/analysis.rs:34 | inserting into an ascending list by ticker keeps it ascending |
| Analysis.SortedByTickerUnique | src/analysis.rs:31-35 | with distinct tickers there is only one ascending order of the entries |
| Analysis.SortIndependentOfOrder | src/analysis.rs:30-35 | the sorted entries do not depend on the map's iteration order |
| Analysis.DistinctTickersPermutation | src/analysis.rs:31-35 | reordering the entries keeps their tickers distinct |
| Analysis.UsizeOutcomes | src/analysis.rs:16-20 | the `usize` count is below `2^64` and at most the number of outcomes, and equals it whenever that number is below `2^64` |
| Analysis.SixtyFourCoinFlipsWrap | src/analysis.rs:16-28 | 64 two-scenario companies have `2^64` outcomes, which the `usize` count wraps to 0, so the 50000 cap does not fire |
| Analysis.NumberOfOutcomesZero | src/analysis.rs:16-20 | the outcome count is 0 iff the portfolio is empty or some company has no scenarios |
| Analysis.NumberOfOutcomesCoinFlips | src/analysis.rs:16-20 | n companies with two scenarios each have 2^n outcomes |
| Analysis.SixteenCoinFlipsTooMany | src/analysis.rs:22-28 | 16 two-scenario companies give 65536 outcomes, over the cap of 50000 |
| Analysis.NumberOfOutcomesPermutation | src/analysis.rs:16-20 | the outcome count does not depend on the iteration order |
| Analysis.ContributionIsWeighted | src/analysis.rs:64-65 | a scenario adds the fraction times its probability-weighted return to the outcome's return |
| Analysis.OutcomeAtExtend | src/analysis.rs:52-67 | folding in one more company adds its chosen scenario's contribution and multiplies in its probability |
| Analysis.ComputeOutcome | src/analysis.rs:52-67 | the loop building one outcome yields the outcome of the chosen index tuple |
| Analysis.AdvanceIndices | src/analysis.rs:73-84 | the index loop performs exactly the odometer step: leading maxima reset to 0, the first other index grows by 1 |
| Analysis.IncrementAt | src/analysis.rs:73-84 | the step resets the leading maxima, raises the first index that is not at its maximum and keeps the rest |
| Analysis.IncrementAllMaxima | src/analysis.rs:73-78 | when every index is at its maximum the step resets them all |
| Analysis.Enumerate | src/analysis.rs:39-87 | the while loop collects exactly `n` outcomes, for any `n` up to the number of outcomes, outcome k being that of the digits of k |
| Analysis.EnumerationComplete | src/analysis.rs:49-85 | each scenario combination appears at exactly one position, with the first company's scenario changing fastest |
| Analysis.AllOutcomes | src/analysis.rs:14-88 | panics iff the `usize` count exceeds 50000; otherwise returns that many outcomes, the first of the enumeration of the entries sorted by ticker, which is all of them when the number of outcomes is below `2^64` |
| Analysis.HoldingContribution | src/analysis.rs:91-100 | a company's term in the expected return is its fraction times its own expected return |
| Analysis.ScenarioContributionsWeighted | src/analysis.rs:94-99 | the per-company sum equals the fraction times the company's probability-weighted returns summed |
| Analysis.ExpectedReturnAppend | src/analysis.rs:91-100 | the expected return of two groups of entries is the sum of theirs |
| Analysis.ExpectedReturnRemove | src/analysis.rs:91-100 | the expected return is any one entry's term plus that of the others |
| Analysis.ExpectedReturnPermutation | src/analysis.rs:91-100 | the expected return does not depend on the map's iteration order |
| Analysis.WorstCaseOutcome | src/analysis.rs:111-115 | panics on no outcomes; otherwise the first outcome with the smallest return |
| KellyAllocation.New | src/kelly_allocation.rs:50-60 | a new allocator has no constraints and no flag set |
| KellyAllocation.WithLongOnlyConstraints | src/kelly_allocation.rs:64-101 | panics iff the flag is set or there are no candidates; otherwise sets only its flag and appends one long-only constraint per candidate index, in order |
| KellyAllocation.WithMaximumTotalLeverageConstraint | src/kelly_allocation.rs:105-146 | panics iff the flag is set, there are no candidates or the ratio is negative; otherwise sets only its flag and appends exactly one constraint |
| KellyAllocation.WithMaximumIndividualAllocationConstraint | src/kelly_allocation.rs:150-194 | panics iff the flag is set, there are no candidates or the maximum is negative; otherwise appends one constraint per candidate index |
| KellyAllocation.WithMaximumPermanentLossConstraint | src/kelly_allocation.rs:199-233 | panics iff the flag is set or the bound −(fraction × probability) is outside [−1, 0]; otherwise appends that one constraint |
| KellyAllocation.ValidLossIsAccepted | src/kelly_allocation.rs:199-233 | a loss whose fraction and probability lie in [0, 1] never makes the builder panic |
| KellyAllocation.ActivityBit | src/kelly_allocation.rs:312-320 | constraint c is active in system `index` iff bit c of the index, least significant first, is 1 |
| KellyAllocation.ActivityBijective | src/kelly_allocation.rs:250-320 | the systems 0 .. 2^n − 1 visit every activity pattern exactly once |
| KellyAllocation.ViableSolutionsCharacterized | src/kelly_allocation.rs:342-358 | a solution is kept iff its system solved and no inactive constraint's slack is below the tolerance |
| KellyAllocation.BestSolution | src/kelly_allocation.rs:378-387 | the kept solution with the largest expected return, the last of equal ones |
| KellyAllocation.NoViableSolution | src/kelly_allocation.rs:389-408 | nothing is kept iff no system below the bound is viable |
| KellyAllocation.SolveAll | src/kelly_allocation.rs:312-368 | the loop over the systems keeps exactly the viable solutions, in system order |
| KellyAllocation.SystemCount | src/kelly_allocation.rs:251 | `pow(2, n)` as a `usize` is `2^n` up to 22 constraints, above `2^22` from 23 to 63, and 0 from 64 on |
| KellyAllocation.SolveAndChoose | src/kelly_allocation.rs:312-409 | fails with the no-solution code iff no system is viable; otherwise returns a viable solution at least as good as every other |
| KellyAllocation.Allocate | src/kelly_allocation.rs:241-420 | the loss-without-long-only code comes first, then the 2^22-system limit (23 to 63 constraints), then the outcome error, then the solving; from 64 constraints the wrapped count of 0 systems gives the no-solution code |
| ModelScenario.EqualityByThesis | src/model/scenario.rs:17-31 | scenarios are equal, and hash alike, iff their theses are |
| ModelScenario.ScenarioReturn | src/model/scenario.rs:41-44 | the return r satisfies market cap × (1 + r) = intrinsic value |
| ModelScenario.ProbabilityWeightedReturn | src/model/scenario.rs:46-49 | the weighted return times the market cap is the probability times (intrinsic value − market cap) |
| ModelScenario.WeightedReturnSign | src/model/scenario.rs:46-49 | with a positive probability the weighted return is negative iff the intrinsic value is below the market cap |
| ModelScenario.ValidateProbabilityBounds | src/model/scenario.rs:51-76 | OK iff 0 ≤ p ≤ 1; a negative probability is reported before the check against 1 |
| ModelScenario.Validate | src/model/scenario.rs:33-37 | a single result, a problem iff the probability is out of bounds |
| ModelCompany.EqualityByTicker | src/model/company.rs:25-41 | companies are equal, and hash alike, iff their tickers are |
| ModelCompany.ValidateAtLeastOneScenario | src/model/company.rs:59-73 | an ERROR naming the company iff it has no scenarios |
| ModelCompany.ValidateAllScenariosUnique | src/model/company.rs:75-92 | an ERROR iff two scenarios share a thesis |
| ModelCompany.ValidateProbabilitiesSumUpToOne | src/model/company.rs:94-111 | OK iff the probabilities sum to 1 within 1e-10 |
| ModelCompany.ValidateNegativeExpectedReturn | src/model/company.rs:113-136 | a WARNING iff the expected return is strictly negative |
| ModelCompany.ValidateNoDownsideScenario | src/model/company.rs:138-160 | a WARNING iff every scenario's weighted return is above −1e-10, vacuously so without scenarios |
| ModelCompany.ValidateAllScenarios | src/model/company.rs:162-171 | exactly the scenarios' own results |
| ModelCompany.ExpectedReturnScaled | src/model/company.rs:115-120 | the expected return times the market cap is the weighted intrinsic value less the market cap times the probability sum |
| ModelCompany.Validate | src/model/company.rs:43-56 | the union of the five checks and every scenario's results |
| ModelCompany.ValidateReportsNoScenarios | src/model/company.rs:43-73 | the union reports a missing scenario iff there is none |
| ModelCompany.ValidateReportsNotUnique | src/model/company.rs:43-92 | the union reports duplicate theses iff there are some |
| ModelCompany.ValidateReportsSum | src/model/company.rs:43-111 | the union reports the sum iff it is off by more than the tolerance |
| ModelCompany.ValidateReportsNegativeReturn | src/model/company.rs:43-136 | the union reports a negative expected return iff there is one |
| ModelCompany.ValidateReportsNoDownside | src/model/company.rs:43-160 | the union reports a missing downside iff there is none |
| ModelCapitalLoss.ValidateProbabilityOfLossBounds | src/model/capital_loss.rs:31-56 | OK iff 1e-10 ≤ probability ≤ 1; the lower bound is checked first |
| ModelCapitalLoss.ValidateFractionOfCapitalBounds | src/model/capital_loss.rs:58-87 | OK iff 1e-10 ≤ fraction ≤ 1; the lower bound is checked first |
| ModelCapitalLoss.Validate | src/model/capital_loss.rs:18-27 | one or two results, a problem iff either bound fails, every problem an ERROR |
| ModelPortfolio.ValidateCandidates | src/model/portfolio.rs:48-51 | every candidate's results are included |
| ModelPortfolio.CandidateResultsHaveSource | src/model/portfolio.rs:48-51 | and nothing else: every result comes from some candidate |
| ModelPortfolio.ValidateUniqueTickers | src/model/portfolio.rs:53-70 | an ERROR iff two candidates share a ticker, listing the tickers in input order joined by ", " |
| ModelPortfolio.ValidateCapitalLoss | src/model/portfolio.rs:72-80 | the capital loss's results are included iff one is given |
| ModelPortfolio.ValidateLossNeedsLongOnly | src/model/portfolio.rs:82-92 | an ERROR iff a capital loss is given and long-only is not `Some(true)` |
| ModelPortfolio.ValidateMaxIndividualAllocation | src/model/portfolio.rs:94-106 | an ERROR iff a maximum is given and negative |
| ModelPortfolio.ValidateMaxTotalLeverageRatio | src/model/portfolio.rs:108-120 | an ERROR iff a ratio is given and negative |
| ModelPortfolio.Validate | src/model/portfolio.rs:43-123 | includes every candidate's and the capital loss's results |
| ModelPortfolio.InputReports | src/model/portfolio.rs:53-120 | the input-level checks report a code iff its condition holds |
| ModelPortfolio.ValidateReportsDuplicateTickers | src/model/portfolio.rs:53-70 | the whole validation reports duplicate tickers iff two candidates share one |
| ModelPortfolio.ValidateReportsLossWithoutLongOnly | src/model/portfolio.rs:82-92 | the whole validation reports a loss without long-only iff that is the input |
| ModelPortfolio.ValidateReportsNegativeIndividualAllocation | src/model/portfolio.rs:94-106 | the whole validation reports a negative maximum allocation iff there is one |
| ModelPortfolio.ValidateReportsNegativeLeverage | src/model/portfolio.rs:108-120 | the whole validation reports a negative leverage ratio iff there is one |
| ModelPortfolio.ValidateReportsCapitalLoss | src/model/portfolio.rs:72-80 | the whole validation reports a capital-loss code iff a capital loss is given and reports it |
| Validation.ReportsEither | src/model/portfolio.rs:46-51 | a union of result sets reports a code iff one of the parts does |
| Constraint.WorstWeightedReturn | src/constraints/capital_loss_constraint.rs:23-34 | the minimum of a company's weighted returns, absent iff it has no scenarios |
| Constraint.WorstWeightedReturns | src/constraints/capital_loss_constraint.rs:17-38 | each company's worst weighted return, or a panic naming the first company without scenarios |
| LongOnlyConstraint.New | src/constraints/long_only_constraint.rs:15-24 | panics iff the index is not below the number of companies |
| LongOnlyConstraint.Derivative | src/constraints/long_only_constraint.rs:30-34 | one entry per company, −1 at the index and 0 elsewhere |
| LongOnlyConstraint.ValueIsLinear | src/constraints/long_only_constraint.rs:30-38 | the function value is the derivative's linear form in the fractions plus the slack |
| LongOnlyConstraint.SatisfiedIffNotShort | src/constraints/long_only_constraint.rs:5-6 | with no slack the value is at most 0 iff the fraction is not negative |
| MaximumIndividualAllocationConstraint.New | src/constraints/maximum_individual_allocation_constraint.rs:18-40 | panics on a negative maximum first, then on an index out of range |
| MaximumIndividualAllocationConstraint.Derivative | src/constraints/maximum_individual_allocation_constraint.rs:46-50 | one entry per company, +1 at the index and 0 elsewhere |
| MaximumIndividualAllocationConstraint.ValueIsLinear | src/constraints/maximum_individual_allocation_constraint.rs:46-55 | the value is the linear form plus the slack minus the maximum |
| MaximumIndividualAllocationConstraint.SatisfiedIffWithinMaximum | src/constraints/maximum_individual_allocation_constraint.rs:5-6 | with no slack the value is at most 0 iff the fraction is at most the maximum |
| MaximumTotalLeverageConstraint.New | src/constraints/maximum_total_leverage_constraint.rs:15-24 | panics iff the ratio is negative; 0 is accepted |
| MaximumTotalLeverageConstraint.Derivative | src/constraints/maximum_total_leverage_constraint.rs:30-32 | all ones, one per company |
| MaximumTotalLeverageConstraint.ValueIsTotalExposure | src/constraints/maximum_total_leverage_constraint.rs:34-43 | the value is the sum of the fractions plus the slack less the ratio less 1 |
| MaximumTotalLeverageConstraint.SatisfiedIffWithinLeverage | src/constraints/maximum_total_leverage_constraint.rs:8 | with no slack the value is at most 0 iff the total exposure is at most 1 plus the ratio |
| MaximumCapitalLossConstraint.New | src/constraints/maximum_capital_loss_constraint.rs:18-38 | accepted iff the bound is in [−1, 0]; a positive bound is reported first |
| MaximumCapitalLossConstraint.Derivative | src/constraints/maximum_capital_loss_constraint.rs:44-65 | the negated worst weighted return of each company, or the panic for one without scenarios |
| MaximumCapitalLossConstraint.FunctionValue | src/constraints/maximum_capital_loss_constraint.rs:67-75 | panics exactly when the derivative does |
| MaximumCapitalLossConstraint.SatisfiedIffWorstCaseAboveBound | src/constraints/maximum_capital_loss_constraint.rs:6-8 | with no slack the value is at most 0 iff the fraction-weighted worst case is at least the bound |
| NoShortingConstraint.Derivative | src/constraints/no_shorting_constraint.rs:16-20 | one entry per company, −1 at the index and 0 elsewhere |
| NoShortingConstraint.ValueIsLinear | src/constraints/no_shorting_constraint.rs:16-24 | the value is the linear form plus the slack |
| NoShortingConstraint.AgreesWithLongOnly | src/constraints/no_shorting_constraint.rs:16-24 | the derivative and value equal the long-only constraint's for the same index |
| CapitalLossConstraint.Derivative | src/constraints/capital_loss_constraint.rs:17-38 | each company's worst weighted return, not negated, or a panic |
| CapitalLossConstraint.FunctionValue | src/constraints/capital_loss_constraint.rs:40-48 | panics exactly when the derivative does |
| CapitalLossConstraint.FunctionValueDefined | src/constraints/capital_loss_constraint.rs:40-48 | otherwise it is the linear form less probability × fraction, plus the slack |
| CapitalLossConstraint.IsSatisfied | src/constraints/capital_loss_constraint.rs:50-52 | satisfied iff the value without slack is at most 0 |
| CapitalLossConstraint.SatisfiedIffWithinTolerance | src/constraints/capital_loss_constraint.rs:40-52 | satisfied iff the fraction-weighted worst case is at most probability × fraction |
| LegacyScenario.EqualityByThesis | src/scenario.rs:14-28 | scenarios are equal, and hash alike, iff their theses are |
| LegacyScenario.CheckIntrinsicValue | src/scenario.rs:58-68 | panics iff the intrinsic value is below 100000 |
| LegacyScenario.CheckProbabilityBounds | src/scenario.rs:46-56 | panics iff the probability is outside [0, 1], a negative one first |
| LegacyScenario.New | src/scenario.rs:30-44 | returns the given fields iff both checks pass; the intrinsic value is checked first |
| LegacyScenario.NewAgreesWithValidation | src/scenario.rs:48-56 | the panic on the probability agrees with the later revision's validation result |
| LegacyScenario.ExpectedPanics | src/scenario.rs:103-134 | the panics the unit tests expect, and the equality of two scenarios with one thesis |
| LegacyCompany.EqualityByTicker | src/company.rs:17-34 | companies are equal, and hash alike, iff their tickers are |
| LegacyCompany.CheckAtLeastOneScenario | src/company.rs:64-73 | panics iff there are no scenarios |
| LegacyCompany.CheckProbabilitiesAsWritten | src/company.rs:77-82 | panics iff the sum lies strictly within the tolerance of 1 |
| LegacyCompany.CheckProbabilities | src/company.rs:75 | panics iff the sum is further than the tolerance from 1 |
| LegacyCompany.NewAsWritten | src/company.rs:36-82 | returns the company iff it has scenarios and the sum is not strictly within the tolerance of 1 |
| LegacyCompany.New | src/company.rs:36-75 | returns the company iff it has scenarios and the sum is 1 within the tolerance; no scenarios is reported first |
| LegacyCompany.CertainScenarioRejected | src/company.rs:77-82 | as written, a single certain scenario panics, while the corrected check accepts it |
| LegacyCompany.AsWrittenInvertsCheck | src/company.rs:75-82 | away from the tolerance boundary, the written check accepts exactly what the documented one rejects |
| LegacyCompany.NewIndependentOfOrder | src/company.rs:77-82 | the set's iteration order does not affect whether the company is built |
| LegacyCompany.ProbabilitiesPermutation | src/company.rs:78 | reordered scenarios have the same probability sum |
| Lib.UnionHasProblem | src/lib.rs:59-71 | the union of the candidates' results has a problem iff some candidate's results do |
| Lib.Gate | src/lib.rs:36-46 | panics with every result iff some candidate has a problem of any severity; otherwise passes the candidates on unchanged |
| Lib.NegativeExpectedReturnStopsGate | src/lib.rs:66-71 | a negative expected return stops the gate, although it is only a warning |
| Lib.FilterPositive | src/lib.rs:76-87 | keeps exactly the candidates whose expected return is strictly positive |
| Lib.FilterAppend | src/lib.rs:76-87 | the filter keeps the input order |
| Lib.FilterCounts | src/lib.rs:76-87 | a kept candidate appears as often as in the input, a dropped one not at all |
| Lib.GateDropsOnlyBreakEven | src/lib.rs:59-87 | once the gate has passed, only candidates with an expected return of exactly 0 are dropped |
| Lib.Allocations | src/lib.rs:95-104 | one ticker and fraction per portfolio company, in order |
| Lib.AllocationsColumns | src/lib.rs:95-104 | the allocations' columns are the portfolio's tickers and fractions |
| Lib.Allocate | src/lib.rs:57-117 | panics iff the gate does; otherwise allocates the filtered candidates and reports an all-zero analysis |
| CharlieCli.ParseAction | src/bin/charlie_cli.rs:31-40 | "allocate" and "analyze" parse to their actions, and any other text is an invalid-input error |
| CharlieCli.ParseWord | src/bin/charlie_cli.rs:31-40 | parsing an action's name gives the action back, and a parsed text is that name |
| CharlieCli.OtherSpellingsRejected | src/bin/charlie_cli.rs:35-39 | other capitalisation, spacing or spelling is rejected |
| CharlieCli.JoinSplit | src/bin/charlie_cli.rs:83-85 | splitting a path at '/' and joining the pieces gives the path back |
| CharlieCli.SplitJoin | src/bin/charlie_cli.rs:83-85 | joining pieces without '/' and splitting gives the pieces back |
| CharlieCli.FileName | src/bin/charlie_cli.rs:85 | the last normal component of the path, absent if there is none or it is ".." |
| CharlieCli.FileNameInDirectory | src/bin/charlie_cli.rs:85 | the file name of a name inside a directory is that name |
| CharlieCli.Extension | src/bin/charlie_cli.rs:85-91 | the text after the last '.' of the file name; absent without a file name, without a dot, or for a hidden file |
| CharlieCli.ExtensionOfFileName | src/bin/charlie_cli.rs:85-91 | the extension of stem.ext is ext |
| CharlieCli.ExtensionWarning | src/bin/charlie_cli.rs:85-98 | no warning iff the extension is exactly "yaml", and a missing-extension warning iff there is none |
| CharlieCli.YmlWarns | src/bin/charlie_cli.rs:91-98 | "input.yml" gets the not-yaml warning |
| CharlieCli.UpperCaseYamlWarns | src/bin/charlie_cli.rs:91-98 | "input.YAML" gets the not-yaml warning |
| CharlieCli.HiddenYamlWarns | src/bin/charlie_cli.rs:85-90 | ".yaml" has no extension and warns as such |
| CharlieCli.YamlFileInDirectoryAccepted | src/bin/charlie_cli.rs:85-98 | a ".yaml" file in any directory gets no warning |
| CharlieCli.YamlDirectoryDoesNotCount | src/bin/charlie_cli.rs:85-90 | a file inside a directory named "inputs.yaml" has no extension |
| CharlieCli.Main | src/bin/charlie_cli.rs:79-114 | a bad action is rejected; otherwise at most one warning, then the file read, then the action, and a warning never stops the run |

## Left out

- The Newton–Raphson solver (`solve_system`, `criterion` and `criterion_jacobian` in src/kelly_allocation.rs) is floating-point numerics over nalgebra matrices. `KellyAllocation.Allocate` takes it as a function from the activity pattern to a solution vector or an error.
- KellyAllocation.Allocate: the uniform starting guess 1/n and the `expected_return`/`worst_case_outcome` calls after the choice only feed the solver and the log. The outcomes (this revision's `all_outcomes` returns a `Result`) are a parameter whose `Err` is passed on.
- KellyAllocation.BestSolution: `OrderedFloat` ordering of NaN is not modelled, because `real` has no NaN.
- `Lib.Allocate` takes `kelly_allocate` as a parameter, together with its `MAX_ITER`.
- HTTP (Rocket attributes), YAML/JSON (serde) parsing, schema generation, logging and file reading are I/O or foreign libraries. In `CharlieCli.Main` the file read is a step, not a read. `allocate_action` and `analyze_action` are left out.
- CharlieCli.Main: clap's exit on a bad action is modelled as the `Rejected` result.
- CharlieCli.Extension: paths are `/`-separated Unix paths, without platform prefixes and without non-UTF-8 names.
- Error and panic messages and their float formatting are not modelled. Codes, severities and the interpolated strings are.
- `f64` rounding, NaN and infinities: all arithmetic is exact over `real`. The tolerance tests use the exact constant 1e-10.
- The `usize` underflow of `n_companies - 1` is stated as a precondition (at least one company) of `LongOnlyConstraint.New` and `MaximumIndividualAllocationConstraint.New`.
- Analysis.AllOutcomes: follows a release build, whose `usize` product wraps modulo `2^64`. A debug build panics on that overflow instead, which the model does not describe. The product is reduced once at the end; wrapping after each multiplication gives the same value.
- KellyAllocation.Allocate: follows a release build, whose `pow(2, n)` wraps to 0 from 64 constraints. A debug build panics on that overflow instead, which the model does not describe.
- LongOnlyConstraint.Derivative: like `NoShortingConstraint`'s operations, it requires an index below the number of companies, where Rust would panic on an out-of-range index.
- Analysis.AllOutcomes: the companies must have positive market caps, because each scenario's return divides by the market cap.
- Analysis.SortIndependentOfOrder: it is proved for entries with distinct tickers, which `Company`'s `Eq` guarantees for the keys of a `HashMap`.
- LegacyCompany.New: the `HashSet<Scenario>` is the sequence of its elements. A sequence with two equal theses stands for no set the source can build, and is not excluded.
- InvestmentCombinations.UniqueAtMostCombinations: the unique count of the hard-coded configuration (45 by hand) is not proved, because evaluating it is too expensive for the verifier. Only the bound and the count 243 are proved.
- Printing in the script is replaced by returning the counts.
- `analyse` and the other helpers of src/lib.rs, src/allocation.rs, src/main.rs, src/env.rs and src/utils.rs are not part of this model.

## Findings

| source | as written | input that shows it | evidently intended | confidence | as-written member | corrected member |
|---|---|---|---|---|---|---|
| src/company.rs:77-82 | `Company::new` panics when the probability sum is strictly within 1e-10 of 1 (`< PROBABILITY_TOLERANCE`) | one scenario with probability 1.0 | panic when the sum is further than 1e-10 from 1, as the comment on line 75 says | not executed | LegacyCompany.CertainScenarioRejected | LegacyCompany.New |
