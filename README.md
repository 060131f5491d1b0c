# Test-effort estimator: labour-hour model

This project models the estimation core of a small test-engineering effort
estimator. The estimator holds a fixed, ordered table of fifteen process
steps, such as "NDA", "Creation of UUT" and "Test Execution". Each step has:
- a fixed number of hours;
- a number of hours per sample (unit under test);
- a multiplier table keyed by complexity tier (Easy, Medium or High);
- optionally, a list of substeps.

All substeps share one configuration. An item's cost is
`(base + per_sample * samples) * multipliers[tier]`. The user selects steps
and, for steps with a substep list, some substeps. The total is the sum, in
table order, of each selected step's own cost plus one shared substep cost per
selected substep. Each selected step's displayed cost is its own cost plus its
substep costs.

The model is in three modules:

- `CostModel` (`cost_model.dfy`) holds the static configuration. It has the
  tier type, the configuration record of one costed item, the two substep name
  lists, the multiplier presets `DefaultMults` and `ComplexMults`, the shared
  `SubstepConfig` and the ordered `ProjectSteps` table. A configuration record
  keeps both key spellings the source accepts as optional fields: `base` or
  `base_hours`, `per_sample` or `hours_per_sample`, and `multipliers` or
  `complexity_multipliers`. This lets the source's key-fallback rule be
  stated.
- `Estimation` (`estimation.dfy`) holds the engine. It has the key
  resolution, the hours formula (`Formula`, `CalculateHours`), the substep
  selection made by the multiselect widget, the cost of one step, and the
  specification of the running total and the displayed rows (`Total`, `Rows`).
  It also has the imperative `Estimate` method with its two loops, and
  lemmas about all of these.
- `ShippedModel` (`shipped.dfy`) holds facts about the shipped tables and the
  worked examples.

Looking up a tier that a multiplier table lacks raises a KeyError in the
source. The model returns `Result.MissingTier` instead. The source computes
the own cost of every step, selected or not, before it reads the checkbox. So
a faulty table aborts the estimate even for an unselected step. A substep cost
is computed only when a substep is selected. The model keeps both behaviours.
With the shipped tables no lookup fails (`ShippedModel.ShippedNeverFails`).

Hours are `real`. Every constant in the tables (0.5, 1.2, 1.25, 1.5) is
exact in `real`.

Three facts about the code shape the model:

- The shared substep configuration's Medium factor is 1.25 (app.py:14). With
  four samples at Medium and two substeps, "Test Execution" therefore costs
  2.4 + 2 × 2.5 = 7.4 hours (`ShippedModel.ExampleTestExecution`).
- The formula has no guard on the sample count. Only the input widget
  enforces a minimum of 1 (app.py:116), so `Estimate` requires
  `samples >= 1`, while `CalculateHours` has no precondition.
- Steps are iterated (app.py:128) and never looked up by name, so an unknown
  step name cannot raise an error. Names in the selection that are not in the
  table are simply never consulted (`TotalReadsOnlyListedSteps`).

The constants of `CostModel` transcribe the source's tables:
`SubstepConfig` is app.py:9-17, `ExecutionSubsteps` and `AtpSubsteps` are
app.py:20-28, `DefaultMults` and `ComplexMults` are app.py:38 and 40, and
`ProjectSteps` is app.py:42-89. The lemmas of `ShippedModel` state what is
proved about them.

## Model

| member | source | states |
|---|---|---|
| `CostModel.Rank` | app.py:117 | the selector offers exactly three tiers, Easy first and High last |
| `Estimation.ResolvedBase` | app.py:97 | the fixed hours are `base` if present, else `base_hours` if present, else 0 |
| `Estimation.ResolvedPerSample` | app.py:98 | the per-sample hours are `per_sample`, else `hours_per_sample`, else 0 |
| `Estimation.ResolvedMultipliers` | app.py:99 | the table is `multipliers`, else `complexity_multipliers`, else the no-effect default table |
| `Estimation.CalculateHours` | app.py:95-104 | fails, naming the tier, exactly when the resolved table lacks the tier; otherwise `(base + per_sample * n) * multipliers[tier]` over the resolved values |
| `Estimation.FormulaNonNegative` | app.py:101-103 | with non-negative fixed hours, rate, count and factor, the formula is non-negative |
| `Estimation.FormulaMonotoneInSamples` | app.py:101-103 | the formula never decreases in the sample count, and strictly increases when the rate and the factor are positive |
| `Estimation.FormulaMonotoneInFactor` | app.py:101-103 | with non-negative parameters, a larger factor never gives fewer hours |
| `Estimation.FormulaZeroIff` | app.py:101-103 | with at least one sample, the hours are zero exactly when fixed and per-sample hours are both zero or the factor is zero |
| `Estimation.ItemNonNegative` | app.py:95-104 | a well-formed item never fails and its hours are non-negative |
| `Estimation.ItemMonotoneInSamples` | app.py:95-104 | an item's hours never decrease in the sample count and strictly increase when its per-sample rate and factor are positive |
| `Estimation.ItemMonotoneInTier` | app.py:95-104 | for a fixed count, a tier with a larger factor never gives fewer hours |
| `Estimation.ItemZeroIff` | app.py:95-104 | with at least one sample, an item costs nothing exactly when its fixed and per-sample hours are zero or its factor is zero |
| `Estimation.SelectedSubs` | app.py:144-148 | the multiselect returns no more names than the step offers |
| `Estimation.SelectedSubsMembers` | app.py:144-148 | a name is returned exactly when it is one of the step's options and the user chose it |
| `Estimation.SelectedSubsIgnoresStale` | app.py:144-148 | chosen names that are not options of the step change nothing |
| `Estimation.SelectedSubsCount` | app.py:144-152 | for a list without duplicates, the number of substep costs added equals the number of chosen names in the list |
| `Estimation.SubstepCount` | app.py:143-152 | a step whose `substeps` is `None` or empty adds no substep cost; otherwise at most one per option |
| `Estimation.SubstepsCostClosed` | app.py:152-155 | adding k shared substep costs one at a time gives k times one substep's hours; with k ≥ 1 it fails exactly when the shared table lacks the tier |
| `Estimation.StepCostClosed` | app.py:131-155 | a selected step's displayed cost is its own hours plus the substep count times one substep's hours |
| `Estimation.NoSubstepsIgnoresChoice` | app.py:143 | a step without a substep list costs its own hours whatever substep choice is held for it |
| `Estimation.SubstepsCostMonotone` | app.py:152-155 | sums of substep costs compare as the single substep costs do |
| `Estimation.SubstepsCostNonNegative` | app.py:152-155 | a sum of non-negative substep costs is non-negative |
| `Estimation.StepCostMonotone` | app.py:131-155 | displayed step costs compare as the step's own hours and the substep hours do |
| `Estimation.StepCostMonotoneInSamples` | app.py:131-155 | a well-formed step's displayed cost never decreases in the sample count |
| `Estimation.StepCostMonotoneInTier` | app.py:131-155 | a well-formed step's displayed cost never decreases when both its table and the substep table grow with the tier |
| `Estimation.StepCostNonNegative` | app.py:131-155 | a well-formed step's displayed cost never fails and is non-negative |
| `Estimation.Contribution` | app.py:128-140 | an unselected step adds nothing, yet its own lookup is still made and can fail |
| `Estimation.RowsSumToTotal` | app.py:125-160 | the displayed costs exist exactly when the total does; there is one per selected step, in table order, and they add up to the total |
| `Estimation.TotalFailurePersists` | app.py:128-131 | a failed lookup at some step aborts the whole estimate with that failure |
| `Estimation.TotalSucceeds` | app.py:125-155 | when every step table and the substep table define the tier, the total and the rows are produced |
| `Estimation.EmptySelectionIsZero` | app.py:125-140 | with no step selected, the total is exactly 0.0 and nothing is displayed |
| `Estimation.TotalMonotone` | app.py:125-155 | totals compare as the steps' contributions do |
| `Estimation.TotalReadsOnlyListedSteps` | app.py:128-148 | stale step names and the substep choices of unselected steps change neither the total nor the rows |
| `Estimation.TotalMonotoneInSamples` | app.py:125-155 | over a well-formed table, more samples never lower the total |
| `Estimation.TotalMonotoneInTier` | app.py:125-155 | over a well-formed table whose multipliers grow with the tier, a higher tier never lowers the total |
| `Estimation.TotalMonotoneInSelection` | app.py:125-155 | over a well-formed table, selecting more steps never lowers the total |
| `Estimation.TotalNonNegative` | app.py:125-155 | over a well-formed table, the total never fails and is non-negative |
| `CostModel.GetOr` | app.py:97-99 | a present key yields its value and an absent key the default, as `dict.get` does |
| `Estimation.Formula` | app.py:101-103 | the hours formula `(base + per_sample * n) * factor`; its properties are the `Formula*` lemmas |
| `Estimation.HasSubsteps` | app.py:143 | the truth value of the `substeps` entry: neither `None` nor an empty list |
| `Estimation.Chosen` | app.py:144-148 | the substep names held for a step, none when the widget holds no entry for it |
| `Estimation.SubstepsCost` | app.py:152-155 | adding no substep costs gives exactly 0.0; a failure names the requested tier |
| `Estimation.StepCost` | app.py:131-155 | a failing own lookup is the step's failure, computed before any substep; any failure names the requested tier |
| `Estimation.Total` | app.py:125-155 | the running total in table order; a failure names the requested tier |
| `Estimation.Rows` | app.py:157-160 | at most one displayed cost per step; a failure names the requested tier |
| `Estimation.Estimate` | app.py:125-155 | the loop fails exactly when the specification does; otherwise its accumulated total equals `Total` and its displayed per-step costs equal `Rows` |
| `ShippedModel.SubstepConfigResolves` | app.py:9-17 | the shared substep configuration resolves through its alternate keys to base 0.0, 0.5 per sample and its own table, whose Medium factor 1.25 differs from the preset's 1.2 |
| `ShippedModel.StepsUsePresets` | app.py:42-89 | every step uses one of the two presets, with fixed hours at least 1 and non-negative per-sample hours |
| `ShippedModel.ShippedTablesOrdered` | app.py:9-40 | every shipped table defines all three tiers with factors at least 1.0, ordered Easy ≤ Medium ≤ High |
| `ShippedModel.ShippedWellFormed` | app.py:9-89 | the shipped steps and substep configuration are well formed |
| `ShippedModel.ShippedNeverFails` | app.py:103 | with the shipped tables the tier lookup never fails, so the total and the rows always exist |
| `ShippedModel.ShippedEmptySelection` | app.py:125-140 | with the shipped tables an empty selection totals exactly 0.0, whatever the count, tier or substep choice |
| `ShippedModel.ShippedTotalMonotone` | app.py:125-155 | with the shipped tables the total is non-negative and never drops when the count, the tier or the selection grows |
| `ShippedModel.ShippedSubstepStrictlyMonotone` | app.py:9-17 | each extra sample strictly raises the shared substep cost |
| `ShippedModel.ShippedStepsStrictlyMonotone` | app.py:42-89 | exactly the three steps with a positive per-sample rate get strictly dearer with each extra sample; the own hours of every other step do not change |
| `ShippedModel.ShippedStepNamesDistinct` | app.py:42-89 | the step table has fifteen entries with distinct names |
| `ShippedModel.ShippedSubstepCount` | app.py:20-82 | exactly Pre-ATP, Test Execution and Post-ATP have substeps, and each adds one substep cost per chosen name in its list |
| `ShippedModel.ExampleNda` | app.py:55-57 | "NDA" with 5 samples at Medium costs 1.0 hours |
| `ShippedModel.ExampleCreationOfUut` | app.py:46-48 | "Creation of UUT" with 3 samples at High costs 7.5 hours |
| `ShippedModel.ExecutionChoice` | app.py:20-23 | choosing "Vibration" and "Salt Fog" selects exactly those two execution substeps, in list order |
| `ShippedModel.ExampleTestExecution` | app.py:76-79 | "Test Execution" with 4 samples at Medium and two substeps costs 2.4 + 2 × 2.5 = 7.4 hours |

## Left out

- The Streamlit calls and the view are not modelled. These are the title,
  sidebar, columns, checkbox, multiselect, caption, metric and progress calls.
  The widgets become the fields of `Inputs`: the selected step names, the
  chosen substep names per step, the sample count and the tier.
- The integer sample input's minimum of 1 is a precondition of `Estimate`.
  The selectbox's closed set of tiers is the `Tier` type. An unknown tier
  string therefore cannot be expressed, and a missing tier shows up only as a
  table that lacks it.
- The order in which the user picks substeps is not modelled. The model takes
  the options in list order. The sum is the same, since every substep has the
  same cost.
- Floating-point rounding is not modelled; hours are exact reals. The `:.1f`
  and `:.2f` formatting of the displayed values is also left out.
- The progress bar `min(total / 200, 1.0)` is not modelled. It is only a
  display hint.
- Session-state widget keys are not modelled. They are framework-managed.
- When a lookup fails part-way, the source has already drawn the captions of
  the earlier steps. The model only reports the failure.
- A cost key (`base`, `base_hours`, `per_sample`, `hours_per_sample`,
  `multipliers`, `complexity_multipliers`) that is present but holds Python's
  `None` is not modelled: in the model a present cost key carries a number or
  a table. A `substeps` entry holding `None` is modelled, and twelve shipped
  steps have one.
- A step dictionary without a `substeps` key is not modelled. Reading
  `config["substeps"]` at app.py:143 raises a KeyError for such a step once
  it is selected. The model has no field for an absent `substeps` key, so it
  treats that step like one whose entry is `None` and adds no substep cost.
  Every shipped step has the key (app.py:42-89), so none of the shipped
  results is affected.
- TotalSucceeds, TotalNonNegative, Estimate: over a custom table with a
  selected step that lacks the `substeps` key, these promise a result where
  the source raises a KeyError, for the reason given in the line above.
- Repeating a computation gives the same result. This holds for every Dafny
  function by construction, so no lemma states it.
