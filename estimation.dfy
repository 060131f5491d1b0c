/** The estimation engine: the hours formula of one costed item, the cost of
    one step with its selected substeps, the running total over the step
    table, and the loop that computes the total and the per-step displayed
    costs from the user's selection. */
module Estimation {
  import opened CostModel

  /** The outcome of a computation that may look up a tier its multiplier
      table does not hold (the source's KeyError). */
  datatype Result<T> = Ok(value: T) | MissingTier(tier: Tier)

  /** What the view supplies: the checked step names, the chosen substep names
      per step name, the sample count and the complexity tier. */
  datatype Inputs = Inputs(
    selected: set<string>,
    substepChoice: map<string, set<string>>,
    samples: int,
    tier: Tier)

  /** One displayed cost: a selected step and its hours, substeps included. */
  datatype Row = Row(name: string, hours: real)

  /** What the estimate produces: the total and the displayed costs of the
      selected steps in table order. */
  datatype Report = Report(total: real, rows: seq<Row>)

  // ---------------------------------------------------------------------
  // Key resolution and the hours formula of one item
  // ---------------------------------------------------------------------

  /** `base`, else `base_hours`, else 0. */
  function ResolvedBase(c: ItemConfig): (r: real)
    ensures c.base.Some? ==> r == c.base.value
    ensures c.base.None? && c.baseHours.Some? ==> r == c.baseHours.value
    ensures c.base.None? && c.baseHours.None? ==> r == 0.0
  {
    GetOr(c.base, GetOr(c.baseHours, 0.0))
  }

  /** `per_sample`, else `hours_per_sample`, else 0. */
  function ResolvedPerSample(c: ItemConfig): (r: real)
    ensures c.perSample.Some? ==> r == c.perSample.value
    ensures c.perSample.None? && c.hoursPerSample.Some? ==> r == c.hoursPerSample.value
    ensures c.perSample.None? && c.hoursPerSample.None? ==> r == 0.0
  {
    GetOr(c.perSample, GetOr(c.hoursPerSample, 0.0))
  }

  /** `multipliers`, else `complexity_multipliers`, else DefaultMults. */
  function ResolvedMultipliers(c: ItemConfig): (r: Multipliers)
    ensures c.multipliers.Some? ==> r == c.multipliers.value
    ensures c.multipliers.None? && c.complexityMultipliers.Some? ==> r == c.complexityMultipliers.value
    ensures c.multipliers.None? && c.complexityMultipliers.None? ==> r == DefaultMults
  {
    GetOr(c.multipliers, GetOr(c.complexityMultipliers, DefaultMults))
  }

  /** The source's formula: fixed time plus time per sample times the number
      of samples, scaled by a complexity factor. */
  function Formula(base: real, perSample: real, samples: int, factor: real): real {
    (base + perSample * samples as real) * factor
  }

  /** The hours of one item: the formula over the resolved parameters and the
      resolved table's factor for the tier. Fails exactly when the resolved
      table has no entry for the tier (the source's KeyError). */
  function CalculateHours(c: ItemConfig, samples: int, t: Tier): (r: Result<real>)
    ensures r.MissingTier? <==> t !in ResolvedMultipliers(c)
    ensures r.MissingTier? ==> r.tier == t
    ensures r.Ok? ==> r.value == Formula(ResolvedBase(c), ResolvedPerSample(c), samples, ResolvedMultipliers(c)[t])
  {
    var mults := ResolvedMultipliers(c);
    if t in mults then
      Ok(Formula(ResolvedBase(c), ResolvedPerSample(c), samples, mults[t]))
    else
      MissingTier(t)
  }

  /** A table that defines every tier. */
  predicate TotalTable(m: Multipliers) {
    forall t: Tier :: t in m
  }

  /** A table whose factors grow with the tier. */
  predicate OrderedTable(m: Multipliers)
    requires TotalTable(m)
  {
    m[Easy] <= m[Medium] <= m[High]
  }

  /** A configuration whose cost parameters are non-negative and whose
      multiplier table defines every tier with a non-negative factor. */
  predicate WellFormed(c: ItemConfig) {
    var m := ResolvedMultipliers(c);
    ResolvedBase(c) >= 0.0 && ResolvedPerSample(c) >= 0.0
    && TotalTable(m) && forall t: Tier :: m[t] >= 0.0
  }

  lemma MulMonotone(x: real, y: real, k: real)
    requires x <= y && k >= 0.0
    ensures x * k <= y * k && k * x <= k * y
  {
  }

  lemma MulPositive(x: real, y: real)
    requires x > 0.0 && y > 0.0
    ensures x * y > 0.0
  {
  }

  /** With non-negative inputs the formula is non-negative. */
  lemma FormulaNonNegative(b: real, p: real, n: int, m: real)
    requires b >= 0.0 && p >= 0.0 && n >= 0 && m >= 0.0
    ensures Formula(b, p, n, m) >= 0.0
  {
    MulMonotone(0.0, n as real, p);
    MulMonotone(0.0, b + p * n as real, m);
  }

  /** The formula grows with the sample count, strictly when the per-sample
      rate and the factor are positive. */
  lemma FormulaMonotoneInSamples(b: real, p: real, n1: int, n2: int, m: real)
    requires p >= 0.0 && m >= 0.0 && n1 <= n2
    ensures Formula(b, p, n1, m) <= Formula(b, p, n2, m)
    ensures n1 < n2 && p > 0.0 && m > 0.0 ==> Formula(b, p, n1, m) < Formula(b, p, n2, m)
  {
    var raw1, raw2 := b + p * n1 as real, b + p * n2 as real;
    MulMonotone(n1 as real, n2 as real, p);
    MulMonotone(raw1, raw2, m);
    if n1 < n2 && p > 0.0 && m > 0.0 {
      var d := (n2 - n1) as real;
      MulPositive(p, d);
      MulPositive(p * d, m);
      assert raw2 == raw1 + p * d;
      assert raw2 * m == raw1 * m + (p * d) * m;
    }
  }

  /** With non-negative parameters the formula grows with the factor. */
  lemma FormulaMonotoneInFactor(b: real, p: real, n: int, m1: real, m2: real)
    requires b >= 0.0 && p >= 0.0 && n >= 0 && m1 <= m2
    ensures Formula(b, p, n, m1) <= Formula(b, p, n, m2)
  {
    MulMonotone(0.0, n as real, p);
    MulMonotone(m1, m2, b + p * n as real);
  }

  /** With non-negative inputs and at least one sample, the formula is zero
      exactly when both time parameters are zero or the factor is. */
  lemma FormulaZeroIff(b: real, p: real, n: int, m: real)
    requires b >= 0.0 && p >= 0.0 && n >= 1 && m >= 0.0
    ensures Formula(b, p, n, m) == 0.0 <==> (b == 0.0 && p == 0.0) || m == 0.0
  {
    var raw := b + p * n as real;
    MulMonotone(1.0, n as real, p);
    assert raw >= b + p;
    if raw > 0.0 && m > 0.0 {
      MulPositive(raw, m);
    }
  }

  /** With non-negative parameters and factor, an item's hours are
      non-negative. */
  lemma ItemNonNegative(c: ItemConfig, samples: int, t: Tier)
    requires WellFormed(c) && samples >= 0
    ensures CalculateHours(c, samples, t).Ok?
    ensures CalculateHours(c, samples, t).value >= 0.0
  {
    FormulaNonNegative(ResolvedBase(c), ResolvedPerSample(c), samples, ResolvedMultipliers(c)[t]);
  }

  /** More samples never cost less; when the per-sample rate and the factor are
      positive, strictly more. */
  lemma ItemMonotoneInSamples(c: ItemConfig, n1: int, n2: int, t: Tier)
    requires WellFormed(c) && 0 <= n1 <= n2
    ensures CalculateHours(c, n1, t).Ok? && CalculateHours(c, n2, t).Ok?
    ensures CalculateHours(c, n1, t).value <= CalculateHours(c, n2, t).value
    ensures n1 < n2 && ResolvedPerSample(c) > 0.0 && ResolvedMultipliers(c)[t] > 0.0
            ==> CalculateHours(c, n1, t).value < CalculateHours(c, n2, t).value
  {
    FormulaMonotoneInSamples(ResolvedBase(c), ResolvedPerSample(c), n1, n2, ResolvedMultipliers(c)[t]);
  }

  /** For a fixed sample count, a larger factor never costs less. */
  lemma ItemMonotoneInTier(c: ItemConfig, samples: int, t1: Tier, t2: Tier)
    requires WellFormed(c) && samples >= 0
    requires ResolvedMultipliers(c)[t1] <= ResolvedMultipliers(c)[t2]
    ensures CalculateHours(c, samples, t1).Ok? && CalculateHours(c, samples, t2).Ok?
    ensures CalculateHours(c, samples, t1).value <= CalculateHours(c, samples, t2).value
  {
    var m := ResolvedMultipliers(c);
    FormulaMonotoneInFactor(ResolvedBase(c), ResolvedPerSample(c), samples, m[t1], m[t2]);
  }

  /** With non-negative parameters and at least one sample, an item costs
      nothing exactly when it has neither fixed nor per-sample time or its
      factor is zero. */
  lemma ItemZeroIff(c: ItemConfig, samples: int, t: Tier)
    requires WellFormed(c) && samples >= 1
    ensures CalculateHours(c, samples, t).Ok?
    ensures CalculateHours(c, samples, t).value == 0.0
            <==> (ResolvedBase(c) == 0.0 && ResolvedPerSample(c) == 0.0) || ResolvedMultipliers(c)[t] == 0.0
  {
    FormulaZeroIff(ResolvedBase(c), ResolvedPerSample(c), samples, ResolvedMultipliers(c)[t]);
  }

  // ---------------------------------------------------------------------
  // Substeps and the cost of one step
  // ---------------------------------------------------------------------

  /** The substep names the multiselect returns: the step's options that the
      user has chosen, in option order. */
  function SelectedSubs(options: seq<string>, chosen: set<string>): (r: seq<string>)
    ensures |r| <= |options|
  {
    if options == [] then []
    else if options[0] in chosen then [options[0]] + SelectedSubs(options[1..], chosen)
    else SelectedSubs(options[1..], chosen)
  }

  /** The multiselect yields exactly the options that are chosen. */
  lemma {:induction false} SelectedSubsMembers(options: seq<string>, chosen: set<string>, x: string)
    ensures x in SelectedSubs(options, chosen) <==> x in options && x in chosen
  {
    if options != [] {
      SelectedSubsMembers(options[1..], chosen, x);
      assert options == [options[0]] + options[1..];
    }
  }

  /** The truth value of the step's `substeps` entry: neither `None` nor an
      empty list. */
  predicate HasSubsteps(c: ItemConfig) {
    c.substeps.Some? && c.substeps.value != []
  }

  /** The substep names chosen for a step; a step with no entry has none. */
  function Chosen(choice: map<string, set<string>>, name: string): (r: set<string>)
    ensures name in choice ==> r == choice[name]
    ensures name !in choice ==> r == {}
  {
    if name in choice then choice[name] else {}
  }

  /** How many substep costs a selected step adds: one per selected option,
      none when the step has no substep list. */
  function SubstepCount(c: ItemConfig, chosen: set<string>): (k: nat)
    ensures !HasSubsteps(c) ==> k == 0
    ensures HasSubsteps(c) ==> k <= |c.substeps.value|
  {
    if HasSubsteps(c) then |SelectedSubs(c.substeps.value, chosen)| else 0
  }

  /** The hours of `k` substeps, each costed with the shared substep
      configuration and added one at a time. */
  function SubstepsCost(sub: ItemConfig, k: nat, samples: int, t: Tier): (r: Result<real>)
    ensures k == 0 ==> r == Ok(0.0)
    ensures r.MissingTier? ==> r.tier == t
  {
    if k == 0 then Ok(0.0)
    else
      match SubstepsCost(sub, k - 1, samples, t)
      case MissingTier(e) => MissingTier(e)
      case Ok(acc) =>
        match CalculateHours(sub, samples, t)
        case MissingTier(e) => MissingTier(e)
        case Ok(v) => Ok(acc + v)
  }

  /** Adding `k` equal substep costs gives `k` times that cost; it fails, on
      the tier, exactly when there is at least one substep and the shared
      table lacks the tier. */
  lemma {:induction false} SubstepsCostClosed(sub: ItemConfig, k: nat, samples: int, t: Tier)
    ensures k >= 1 && CalculateHours(sub, samples, t).MissingTier? ==> SubstepsCost(sub, k, samples, t) == MissingTier(t)
    ensures CalculateHours(sub, samples, t).Ok?
            ==> SubstepsCost(sub, k, samples, t).Ok?
                && SubstepsCost(sub, k, samples, t).value == k as real * CalculateHours(sub, samples, t).value
  {
    if k > 0 {
      SubstepsCostClosed(sub, k - 1, samples, t);
    }
  }

  /** The displayed cost of a selected step: its own hours plus one shared
      substep cost per selected substep. The step's own hours are computed
      first. */
  function StepCost(s: Step, sub: ItemConfig, chosen: set<string>, samples: int, t: Tier): (r: Result<real>)
    ensures CalculateHours(s.config, samples, t).MissingTier? ==> r == CalculateHours(s.config, samples, t)
    ensures r.MissingTier? ==> r.tier == t
  {
    match CalculateHours(s.config, samples, t)
    case MissingTier(e) => MissingTier(e)
    case Ok(own) =>
      match SubstepsCost(sub, SubstepCount(s.config, chosen), samples, t)
      case MissingTier(e) => MissingTier(e)
      case Ok(extra) => Ok(own + extra)
  }

  /** A step without a substep list costs its own hours, whatever substep
      choice is held for it. */
  lemma NoSubstepsIgnoresChoice(s: Step, sub: ItemConfig, chosen: set<string>, samples: int, t: Tier)
    requires !HasSubsteps(s.config)
    ensures StepCost(s, sub, chosen, samples, t) == CalculateHours(s.config, samples, t)
  {
  }

  /** A step costs its own hours plus the number of its selected substeps
      times one substep's hours. */
  lemma StepCostClosed(s: Step, sub: ItemConfig, chosen: set<string>, samples: int, t: Tier)
    requires CalculateHours(s.config, samples, t).Ok? && CalculateHours(sub, samples, t).Ok?
    ensures StepCost(s, sub, chosen, samples, t).Ok?
    ensures StepCost(s, sub, chosen, samples, t).value
            == CalculateHours(s.config, samples, t).value + SubstepCount(s.config, chosen) as real * CalculateHours(sub, samples, t).value
  {
    SubstepsCostClosed(sub, SubstepCount(s.config, chosen), samples, t);
  }

  /** Stale names in a substep choice (names that are not options of the step)
      change nothing. */
  lemma {:induction false} SelectedSubsIgnoresStale(options: seq<string>, chosen: set<string>, stale: set<string>)
    requires forall x :: x in stale ==> x !in options
    ensures SelectedSubs(options, chosen + stale) == SelectedSubs(options, chosen)
  {
    if options != [] {
      SelectedSubsIgnoresStale(options[1..], chosen, stale);
    }
  }

  /** A list in which no name occurs twice. */
  predicate NoDuplicates(s: seq<string>)
    decreases |s|
  {
    s == [] || (s[0] !in s[1..] && NoDuplicates(s[1..]))
  }

  /** For a list of distinct options, the multiselect yields one name per
      chosen option, so a step adds one substep cost per chosen option. */
  lemma {:induction false} SelectedSubsCount(options: seq<string>, chosen: set<string>)
    requires NoDuplicates(options)
    ensures |SelectedSubs(options, chosen)| == |chosen * (set x | x in options)|
  {
    if options != [] {
      var rest := options[1..];
      SelectedSubsCount(rest, chosen);
      var all := chosen * (set x | x in options);
      var tail := chosen * (set x | x in rest);
      assert (set x | x in options) == {options[0]} + (set x | x in rest) by {
        assert options == [options[0]] + rest;
      }
      assert options[0] !in tail;
      if options[0] in chosen {
        assert all == {options[0]} + tail;
      } else {
        assert all == tail;
      }
    }
  }

  // ---------------------------------------------------------------------
  // Aggregation over the step table
  // ---------------------------------------------------------------------

  /** What one step adds to the total: its displayed cost when selected,
      nothing otherwise. Its own hours are computed in both cases, so a table
      lacking the tier fails even for an unselected step. */
  function Contribution(s: Step, sub: ItemConfig, inp: Inputs): (r: Result<real>)
    ensures s.name !in inp.selected && r.Ok? ==> r.value == 0.0
    ensures s.name !in inp.selected && CalculateHours(s.config, inp.samples, inp.tier).Ok? ==> r == Ok(0.0)
    ensures CalculateHours(s.config, inp.samples, inp.tier).MissingTier? ==> r.MissingTier?
    ensures r.MissingTier? ==> r.tier == inp.tier
  {
    if s.name in inp.selected then
      StepCost(s, sub, Chosen(inp.substepChoice, s.name), inp.samples, inp.tier)
    else
      match CalculateHours(s.config, inp.samples, inp.tier)
      case MissingTier(e) => MissingTier(e)
      case Ok(_) => Ok(0.0)
  }

  /** The running total over the steps, in table order; the first failing step
      ends it with its missing tier. */
  function Total(steps: seq<Step>, sub: ItemConfig, inp: Inputs): (r: Result<real>)
    ensures r.MissingTier? ==> r.tier == inp.tier
    decreases |steps|
  {
    if steps == [] then Ok(0.0)
    else
      match Total(steps[..|steps| - 1], sub, inp)
      case MissingTier(e) => MissingTier(e)
      case Ok(acc) =>
        match Contribution(steps[|steps| - 1], sub, inp)
        case MissingTier(e) => MissingTier(e)
        case Ok(c) => Ok(acc + c)
  }

  /** The displayed costs of the selected steps, in table order. */
  function Rows(steps: seq<Step>, sub: ItemConfig, inp: Inputs): (r: Result<seq<Row>>)
    ensures r.Ok? ==> |r.value| <= |steps|
    ensures r.MissingTier? ==> r.tier == inp.tier
    decreases |steps|
  {
    if steps == [] then Ok([])
    else
      var last := steps[|steps| - 1];
      match Rows(steps[..|steps| - 1], sub, inp)
      case MissingTier(e) => MissingTier(e)
      case Ok(rows) =>
        match Contribution(last, sub, inp)
        case MissingTier(e) => MissingTier(e)
        case Ok(c) => Ok(if last.name in inp.selected then rows + [Row(last.name, c)] else rows)
  }

  function SumHours(rows: seq<Row>): real
    decreases |rows|
  {
    if rows == [] then 0.0 else SumHours(rows[..|rows| - 1]) + rows[|rows| - 1].hours
  }

  /** The names of the selected steps, in table order. */
  function SelectedNames(steps: seq<Step>, selected: set<string>): seq<string>
    decreases |steps|
  {
    if steps == [] then []
    else
      var last := steps[|steps| - 1];
      SelectedNames(steps[..|steps| - 1], selected) + (if last.name in selected then [last.name] else [])
  }

  function RowNames(rows: seq<Row>): seq<string>
    decreases |rows|
  {
    if rows == [] then [] else RowNames(rows[..|rows| - 1]) + [rows[|rows| - 1].name]
  }

  /** The displayed costs exist exactly when the total does; they are one per
      selected step, in table order, and they add up to the total. */
  lemma {:induction false} RowsSumToTotal(steps: seq<Step>, sub: ItemConfig, inp: Inputs)
    ensures Rows(steps, sub, inp).Ok? <==> Total(steps, sub, inp).Ok?
    ensures Rows(steps, sub, inp).Ok? ==>
              SumHours(Rows(steps, sub, inp).value) == Total(steps, sub, inp).value
              && RowNames(Rows(steps, sub, inp).value) == SelectedNames(steps, inp.selected)
  {
    if steps != [] {
      var init := steps[..|steps| - 1];
      var last := steps[|steps| - 1];
      RowsSumToTotal(init, sub, inp);
      if Rows(steps, sub, inp).Ok? && last.name in inp.selected {
        var rows := Rows(init, sub, inp).value;
        var all := Rows(steps, sub, inp).value;
        assert all[..|all| - 1] == rows;
      }
    }
  }

  /** A failure in a prefix of the table is the failure of the whole table. */
  lemma {:induction false} TotalFailurePersists(steps: seq<Step>, k: nat, sub: ItemConfig, inp: Inputs)
    requires k <= |steps|
    requires Total(steps[..k], sub, inp).MissingTier?
    ensures Total(steps, sub, inp) == Total(steps[..k], sub, inp)
  {
    if k < |steps| {
      assert steps[..|steps| - 1][..k] == steps[..k];
      TotalFailurePersists(steps[..|steps| - 1], k, sub, inp);
    } else {
      assert steps[..k] == steps;
    }
  }

  /** A table whose every step, and the shared substep configuration, defines
      the tier never fails. */
  predicate Covers(steps: seq<Step>, sub: ItemConfig, t: Tier) {
    t in ResolvedMultipliers(sub) && forall i :: 0 <= i < |steps| ==> t in ResolvedMultipliers(steps[i].config)
  }

  /** A well-formed table: every step and the substep configuration well
      formed. */
  predicate WellFormedModel(steps: seq<Step>, sub: ItemConfig) {
    WellFormed(sub) && forall i :: 0 <= i < |steps| ==> WellFormed(steps[i].config)
  }

  lemma {:induction false} TotalSucceeds(steps: seq<Step>, sub: ItemConfig, inp: Inputs)
    requires Covers(steps, sub, inp.tier)
    ensures Total(steps, sub, inp).Ok? && Rows(steps, sub, inp).Ok?
  {
    if steps != [] {
      var init := steps[..|steps| - 1];
      assert Covers(init, sub, inp.tier) by {
        forall i | 0 <= i < |init| ensures inp.tier in ResolvedMultipliers(init[i].config) { assert init[i] == steps[i]; }
      }
      TotalSucceeds(init, sub, inp);
      RowsSumToTotal(steps, sub, inp);
      var last := steps[|steps| - 1];
      SubstepsCostClosed(sub, SubstepCount(last.config, Chosen(inp.substepChoice, last.name)), inp.samples, inp.tier);
    }
  }

  /** With nothing selected the total is exactly zero (when no table fails). */
  lemma {:induction false} EmptySelectionIsZero(steps: seq<Step>, sub: ItemConfig, inp: Inputs)
    requires inp.selected == {}
    requires Covers(steps, sub, inp.tier)
    ensures Total(steps, sub, inp) == Ok(0.0)
    ensures Rows(steps, sub, inp) == Ok([])
  {
    if steps != [] {
      var init := steps[..|steps| - 1];
      assert Covers(init, sub, inp.tier) by {
        forall i | 0 <= i < |init| ensures inp.tier in ResolvedMultipliers(init[i].config) { assert init[i] == steps[i]; }
      }
      EmptySelectionIsZero(init, sub, inp);
    }
  }

  /** The estimate: walks the steps in table order, adds each selected step's
      hours and then one shared substep cost per selected substep to the
      running total and to the step's displayed cost. The own hours of every
      step, selected or not, are computed, so a table lacking the tier aborts
      the estimate. */
  method Estimate(steps: seq<Step>, sub: ItemConfig, inp: Inputs) returns (r: Result<Report>)
    requires inp.samples >= 1
    ensures r.Ok? <==> Total(steps, sub, inp).Ok?
    ensures r.Ok? ==> Total(steps, sub, inp).value == r.value.total && Rows(steps, sub, inp) == Ok(r.value.rows)
    ensures r.MissingTier? ==> Total(steps, sub, inp) == MissingTier(r.tier)
  {
    var total := 0.0;
    var rows: seq<Row> := [];
    var i := 0;
    while i < |steps|
      invariant 0 <= i <= |steps|
      invariant Total(steps[..i], sub, inp) == Ok(total)
      invariant Rows(steps[..i], sub, inp) == Ok(rows)
    {
      var step := steps[i];
      assert steps[..i + 1][..i] == steps[..i];
      var own := CalculateHours(step.config, inp.samples, inp.tier);
      if own.MissingTier? {
        TotalFailurePersists(steps, i + 1, sub, inp);
        return MissingTier(own.tier);
      }
      var stepCost := own.value;
      if step.name in inp.selected {
        ghost var before := total;
        total := total + stepCost;
        if HasSubsteps(step.config) {
          var subs := SelectedSubs(step.config.substeps.value, Chosen(inp.substepChoice, step.name));
          var j := 0;
          while j < |subs|
            invariant 0 <= j <= |subs|
            invariant SubstepsCost(sub, j, inp.samples, inp.tier) == Ok(stepCost - own.value)
            invariant total == before + stepCost
          {
            var subCost := CalculateHours(sub, inp.samples, inp.tier);
            if subCost.MissingTier? {
              SubstepsCostClosed(sub, |subs|, inp.samples, inp.tier);
              TotalFailurePersists(steps, i + 1, sub, inp);
              return MissingTier(subCost.tier);
            }
            total := total + subCost.value;
            stepCost := stepCost + subCost.value;
            j := j + 1;
          }
        }
        rows := rows + [Row(step.name, stepCost)];
      }
      i := i + 1;
    }
    assert steps[..i] == steps;
    r := Ok(Report(total, rows));
  }

  // ---------------------------------------------------------------------
  // How the total responds to its inputs
  // ---------------------------------------------------------------------

  /** Both computations succeed and the first is no larger. */
  predicate AtMost(x: Result<real>, y: Result<real>) {
    x.Ok? && y.Ok? && x.value <= y.value
  }

  /** Totals compare as their steps' contributions do. */
  lemma {:induction false} TotalMonotone(steps: seq<Step>, sub: ItemConfig, a: Inputs, b: Inputs)
    requires forall i :: 0 <= i < |steps| ==> AtMost(Contribution(steps[i], sub, a), Contribution(steps[i], sub, b))
    ensures AtMost(Total(steps, sub, a), Total(steps, sub, b))
  {
    if steps != [] {
      var init := steps[..|steps| - 1];
      assert forall i :: 0 <= i < |init| ==> init[i] == steps[i];
      TotalMonotone(init, sub, a, b);
      assert AtMost(Contribution(steps[|steps| - 1], sub, a), Contribution(steps[|steps| - 1], sub, b));
    }
  }

  /** The total reads the selection only through the listed steps: stale step
      names, and substep choices of steps that are not selected, change
      nothing. */
  lemma {:induction false} TotalReadsOnlyListedSteps(steps: seq<Step>, sub: ItemConfig, a: Inputs, b: Inputs)
    requires a.samples == b.samples && a.tier == b.tier
    requires forall i :: 0 <= i < |steps| ==> (steps[i].name in a.selected <==> steps[i].name in b.selected)
    requires forall i :: 0 <= i < |steps| && steps[i].name in a.selected
               ==> Chosen(a.substepChoice, steps[i].name) == Chosen(b.substepChoice, steps[i].name)
    ensures Total(steps, sub, a) == Total(steps, sub, b)
    ensures Rows(steps, sub, a) == Rows(steps, sub, b)
  {
    if steps != [] {
      var init := steps[..|steps| - 1];
      assert forall i :: 0 <= i < |init| ==> init[i] == steps[i];
      TotalReadsOnlyListedSteps(init, sub, a, b);
      var last := steps[|steps| - 1];
      assert Contribution(last, sub, a) == Contribution(last, sub, b);
    }
  }

  /** Substep sums compare as the single substep costs do. */
  lemma {:induction false} SubstepsCostMonotone(sub: ItemConfig, k: nat, n1: int, t1: Tier, n2: int, t2: Tier)
    requires AtMost(CalculateHours(sub, n1, t1), CalculateHours(sub, n2, t2))
    ensures AtMost(SubstepsCost(sub, k, n1, t1), SubstepsCost(sub, k, n2, t2))
  {
    if k > 0 {
      SubstepsCostMonotone(sub, k - 1, n1, t1, n2, t2);
    }
  }

  /** A sum of non-negative substep costs is non-negative. */
  lemma {:induction false} SubstepsCostNonNegative(sub: ItemConfig, k: nat, samples: int, t: Tier)
    requires CalculateHours(sub, samples, t).Ok? && CalculateHours(sub, samples, t).value >= 0.0
    ensures SubstepsCost(sub, k, samples, t).Ok? && SubstepsCost(sub, k, samples, t).value >= 0.0
  {
    if k > 0 {
      SubstepsCostNonNegative(sub, k - 1, samples, t);
    }
  }

  /** Displayed step costs compare as the step's own hours and the substep
      hours do, for the same substep choice. */
  lemma StepCostMonotone(s: Step, sub: ItemConfig, chosen: set<string>, n1: int, t1: Tier, n2: int, t2: Tier)
    requires AtMost(CalculateHours(s.config, n1, t1), CalculateHours(s.config, n2, t2))
    requires AtMost(CalculateHours(sub, n1, t1), CalculateHours(sub, n2, t2))
    ensures AtMost(StepCost(s, sub, chosen, n1, t1), StepCost(s, sub, chosen, n2, t2))
  {
    SubstepsCostMonotone(sub, SubstepCount(s.config, chosen), n1, t1, n2, t2);
  }

  /** A well-formed step's displayed cost grows with the sample count. */
  lemma StepCostMonotoneInSamples(s: Step, sub: ItemConfig, chosen: set<string>, n1: int, n2: int, t: Tier)
    requires WellFormed(s.config) && WellFormed(sub) && 0 <= n1 <= n2
    ensures AtMost(StepCost(s, sub, chosen, n1, t), StepCost(s, sub, chosen, n2, t))
  {
    ItemMonotoneInSamples(s.config, n1, n2, t);
    ItemMonotoneInSamples(sub, n1, n2, t);
    StepCostMonotone(s, sub, chosen, n1, t, n2, t);
  }

  /** A well-formed step's displayed cost grows with the tier when the step's
      table and the substep table grow with it. */
  lemma StepCostMonotoneInTier(s: Step, sub: ItemConfig, chosen: set<string>, samples: int, t1: Tier, t2: Tier)
    requires WellFormed(s.config) && WellFormed(sub) && samples >= 0
    requires ResolvedMultipliers(s.config)[t1] <= ResolvedMultipliers(s.config)[t2]
    requires ResolvedMultipliers(sub)[t1] <= ResolvedMultipliers(sub)[t2]
    ensures AtMost(StepCost(s, sub, chosen, samples, t1), StepCost(s, sub, chosen, samples, t2))
  {
    ItemMonotoneInTier(s.config, samples, t1, t2);
    ItemMonotoneInTier(sub, samples, t1, t2);
    StepCostMonotone(s, sub, chosen, samples, t1, samples, t2);
  }

  /** A well-formed step's displayed cost is non-negative. */
  lemma StepCostNonNegative(s: Step, sub: ItemConfig, chosen: set<string>, samples: int, t: Tier)
    requires WellFormed(s.config) && WellFormed(sub) && samples >= 0
    ensures StepCost(s, sub, chosen, samples, t).Ok? && StepCost(s, sub, chosen, samples, t).value >= 0.0
  {
    ItemNonNegative(s.config, samples, t);
    ItemNonNegative(sub, samples, t);
    SubstepsCostNonNegative(sub, SubstepCount(s.config, chosen), samples, t);
  }

  /** Over a well-formed table, more samples never lower the total. */
  lemma TotalMonotoneInSamples(steps: seq<Step>, sub: ItemConfig, inp: Inputs, more: int)
    requires WellFormedModel(steps, sub) && 0 <= inp.samples <= more
    ensures AtMost(Total(steps, sub, inp), Total(steps, sub, inp.(samples := more)))
  {
    var big := inp.(samples := more);
    forall i | 0 <= i < |steps|
      ensures AtMost(Contribution(steps[i], sub, inp), Contribution(steps[i], sub, big))
    {
      StepCostMonotoneInSamples(steps[i], sub, Chosen(inp.substepChoice, steps[i].name), inp.samples, more, inp.tier);
    }
    TotalMonotone(steps, sub, inp, big);
  }

  /** Over a well-formed table whose every multiplier table, the substep one
      included, grows with the tier, a higher tier never lowers the total. */
  lemma TotalMonotoneInTier(steps: seq<Step>, sub: ItemConfig, inp: Inputs, higher: Tier)
    requires WellFormedModel(steps, sub) && inp.samples >= 0 && Rank(inp.tier) <= Rank(higher)
    requires OrderedTable(ResolvedMultipliers(sub))
    requires forall i :: 0 <= i < |steps| ==> OrderedTable(ResolvedMultipliers(steps[i].config))
    ensures AtMost(Total(steps, sub, inp), Total(steps, sub, inp.(tier := higher)))
  {
    var up := inp.(tier := higher);
    forall i | 0 <= i < |steps|
      ensures AtMost(Contribution(steps[i], sub, inp), Contribution(steps[i], sub, up))
    {
      assert WellFormed(steps[i].config) && OrderedTable(ResolvedMultipliers(steps[i].config));
      StepCostMonotoneInTier(steps[i], sub, Chosen(inp.substepChoice, steps[i].name), inp.samples, inp.tier, higher);
    }
    TotalMonotone(steps, sub, inp, up);
  }

  /** Over a well-formed table, selecting more steps never lowers the total. */
  lemma TotalMonotoneInSelection(steps: seq<Step>, sub: ItemConfig, inp: Inputs, more: set<string>)
    requires WellFormedModel(steps, sub) && inp.samples >= 0 && inp.selected <= more
    ensures AtMost(Total(steps, sub, inp), Total(steps, sub, inp.(selected := more)))
  {
    var big := inp.(selected := more);
    forall i | 0 <= i < |steps|
      ensures AtMost(Contribution(steps[i], sub, inp), Contribution(steps[i], sub, big))
    {
      ItemNonNegative(steps[i].config, inp.samples, inp.tier);
      StepCostNonNegative(steps[i], sub, Chosen(inp.substepChoice, steps[i].name), inp.samples, inp.tier);
    }
    TotalMonotone(steps, sub, inp, big);
  }

  /** Over a well-formed table the total is never negative. */
  lemma TotalNonNegative(steps: seq<Step>, sub: ItemConfig, inp: Inputs)
    requires WellFormedModel(steps, sub) && inp.samples >= 0
    ensures Total(steps, sub, inp).Ok? && Total(steps, sub, inp).value >= 0.0
  {
    var none := inp.(selected := {});
    assert Covers(steps, sub, inp.tier) by {
      forall i | 0 <= i < |steps| ensures inp.tier in ResolvedMultipliers(steps[i].config) {
        assert WellFormed(steps[i].config);
      }
    }
    EmptySelectionIsZero(steps, sub, none);
    TotalMonotoneInSelection(steps, sub, none, inp.selected);
    assert none.(selected := inp.selected) == inp;
  }
}
