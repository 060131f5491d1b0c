/** Facts about the tables the estimator ships with: every multiplier table
    is total and ordered, the shared substep configuration resolves through
    its alternate keys, the estimate never fails and responds monotonically
    to its inputs, and the worked examples come out as the tables say. */
module ShippedModel {
  import opened CostModel
  import opened Estimation

  /** The shared substep configuration, written with the alternate keys,
      resolves to no fixed time, half an hour per sample and its own table. */
  lemma SubstepConfigResolves()
    ensures ResolvedBase(SubstepConfig) == 0.0
    ensures ResolvedPerSample(SubstepConfig) == 0.5
    ensures ResolvedMultipliers(SubstepConfig) == map[Easy := 1.0, Medium := 1.25, High := 1.5]
    ensures ResolvedMultipliers(SubstepConfig)[Medium] != ComplexMults[Medium]
  {
  }

  /** A multiplier table as shipped: every tier present, factors at least 1
      and growing with the tier. */
  predicate ShippedTable(m: Multipliers) {
    TotalTable(m) && OrderedTable(m) && m[Easy] >= 1.0
  }

  /** Every step of the table uses one of the two presets and non-negative
      fixed and per-sample hours, all under the primary keys. */
  lemma {:induction false} StepsUsePresets(i: int)
    requires 0 <= i < |ProjectSteps|
    ensures ResolvedMultipliers(ProjectSteps[i].config) in {DefaultMults, ComplexMults}
    ensures ResolvedBase(ProjectSteps[i].config) >= 1.0
    ensures ResolvedPerSample(ProjectSteps[i].config) >= 0.0
  {
  }

  /** Every shipped table defines all three tiers with factors at least 1,
      ordered Easy <= Medium <= High. */
  lemma ShippedTablesOrdered()
    ensures ShippedTable(DefaultMults) && ShippedTable(ComplexMults)
    ensures ShippedTable(ResolvedMultipliers(SubstepConfig))
    ensures forall i :: 0 <= i < |ProjectSteps| ==> ShippedTable(ResolvedMultipliers(ProjectSteps[i].config))
  {
    forall t: Tier
      ensures t in DefaultMults && t in ComplexMults && t in ResolvedMultipliers(SubstepConfig)
    {
      match t
      case Easy =>
      case Medium =>
      case High =>
    }
    forall i | 0 <= i < |ProjectSteps| ensures ShippedTable(ResolvedMultipliers(ProjectSteps[i].config)) {
      StepsUsePresets(i);
    }
  }

  /** The shipped model is well formed. */
  lemma ShippedWellFormed()
    ensures WellFormedModel(ProjectSteps, SubstepConfig)
  {
    ShippedTablesOrdered();
    forall i | 0 <= i < |ProjectSteps| ensures WellFormed(ProjectSteps[i].config) {
      StepsUsePresets(i);
    }
  }

  /** With the shipped tables no tier lookup fails, so the estimate always
      produces a total and its displayed costs. */
  lemma ShippedNeverFails(inp: Inputs)
    ensures Total(ProjectSteps, SubstepConfig, inp).Ok?
    ensures Rows(ProjectSteps, SubstepConfig, inp).Ok?
  {
    ShippedWellFormed();
    TotalSucceeds(ProjectSteps, SubstepConfig, inp);
  }

  /** With the shipped tables an empty selection costs exactly nothing. */
  lemma ShippedEmptySelection(samples: int, t: Tier, choice: map<string, set<string>>)
    ensures Total(ProjectSteps, SubstepConfig, Inputs({}, choice, samples, t)) == Ok(0.0)
  {
    ShippedWellFormed();
    EmptySelectionIsZero(ProjectSteps, SubstepConfig, Inputs({}, choice, samples, t));
  }

  /** With the shipped tables the total is non-negative and never drops when
      the sample count, the tier or the selection grows. */
  lemma ShippedTotalMonotone(inp: Inputs, samples: int, t: Tier, selected: set<string>)
    requires 1 <= inp.samples <= samples && Rank(inp.tier) <= Rank(t) && inp.selected <= selected
    ensures Total(ProjectSteps, SubstepConfig, inp).Ok? && Total(ProjectSteps, SubstepConfig, inp).value >= 0.0
    ensures AtMost(Total(ProjectSteps, SubstepConfig, inp), Total(ProjectSteps, SubstepConfig, inp.(samples := samples)))
    ensures AtMost(Total(ProjectSteps, SubstepConfig, inp), Total(ProjectSteps, SubstepConfig, inp.(tier := t)))
    ensures AtMost(Total(ProjectSteps, SubstepConfig, inp), Total(ProjectSteps, SubstepConfig, inp.(selected := selected)))
  {
    ShippedWellFormed();
    ShippedTablesOrdered();
    TotalNonNegative(ProjectSteps, SubstepConfig, inp);
    TotalMonotoneInSamples(ProjectSteps, SubstepConfig, inp, samples);
    TotalMonotoneInTier(ProjectSteps, SubstepConfig, inp, t);
    TotalMonotoneInSelection(ProjectSteps, SubstepConfig, inp, selected);
  }

  /** Each extra sample strictly raises the shared substep cost. */
  lemma ShippedSubstepStrictlyMonotone(n1: int, n2: int, t: Tier)
    requires 0 <= n1 < n2
    ensures CalculateHours(SubstepConfig, n1, t).value < CalculateHours(SubstepConfig, n2, t).value
  {
    ShippedWellFormed();
    ShippedTablesOrdered();
    ItemMonotoneInSamples(SubstepConfig, n1, n2, t);
  }

  /** Exactly "Creation of UUT", "UUT Conformity" and "Test Reporting" have a
      positive per-sample rate; each extra sample strictly raises their own
      hours and leaves the own hours of every other step unchanged. */
  lemma ShippedStepsStrictlyMonotone(i: int, n1: int, n2: int, t: Tier)
    requires 0 <= i < |ProjectSteps| && 0 <= n1 < n2
    ensures ResolvedPerSample(ProjectSteps[i].config) > 0.0 <==> i in {1, 7, 13}
    ensures i in {1, 7, 13}
            ==> CalculateHours(ProjectSteps[i].config, n1, t).value < CalculateHours(ProjectSteps[i].config, n2, t).value
    ensures i !in {1, 7, 13}
            ==> CalculateHours(ProjectSteps[i].config, n1, t) == CalculateHours(ProjectSteps[i].config, n2, t)
  {
    ShippedWellFormed();
    ShippedTablesOrdered();
    ItemMonotoneInSamples(ProjectSteps[i].config, n1, n2, t);
  }

  /** The step table has fifteen entries with distinct names, as the keys of a
      dictionary are. */
  lemma ShippedStepNamesDistinct()
    ensures |ProjectSteps| == 15
    ensures forall i, j :: 0 <= i < j < |ProjectSteps| ==> ProjectSteps[i].name != ProjectSteps[j].name
  {
  }

  /** The two substep lists have six distinct names each, so a selected step
      with a list adds one substep cost per chosen name of its list. */
  lemma ShippedSubstepCount(i: int, chosen: set<string>)
    requires 0 <= i < |ProjectSteps|
    ensures !HasSubsteps(ProjectSteps[i].config) <==> i !in {8, 11, 12}
    ensures HasSubsteps(ProjectSteps[i].config)
            ==> SubstepCount(ProjectSteps[i].config, chosen) == |chosen * (set x | x in ProjectSteps[i].config.substeps.value)|
  {
    if HasSubsteps(ProjectSteps[i].config) {
      SelectedSubsCount(ProjectSteps[i].config.substeps.value, chosen);
    }
  }

  /** "NDA" with five samples at Medium costs its one fixed hour. */
  lemma ExampleNda()
    ensures ProjectSteps[4].name == "NDA"
    ensures StepCost(ProjectSteps[4], SubstepConfig, {}, 5, Medium) == Ok(1.0)
  {
  }

  /** "Creation of UUT" with three samples at High costs (2 + 3) * 1.5. */
  lemma ExampleCreationOfUut()
    ensures ProjectSteps[1].name == "Creation of UUT"
    ensures StepCost(ProjectSteps[1], SubstepConfig, {}, 3, High) == Ok(7.5)
  {
  }

  /** Choosing "Vibration" and "Salt Fog" among the execution substeps selects
      exactly those two, in list order. */
  lemma ExecutionChoice()
    ensures SelectedSubs(ExecutionSubsteps, {"Vibration", "Salt Fog"}) == ["Vibration", "Salt Fog"]
  {
    var chosen: set<string> := {"Vibration", "Salt Fog"};
    var o := ExecutionSubsteps;
    assert o[0] !in chosen by {
      assert |o[0]| == 29;
    }
    assert SelectedSubs(o[5..], chosen) == [] by {
      assert o[5..][1..] == [];
    }
    assert SelectedSubs(o[4..], chosen) == [] by {
      assert o[4..][1..] == o[5..];
    }
    assert SelectedSubs(o[3..], chosen) == ["Salt Fog"] by {
      assert o[3..][1..] == o[4..];
    }
    assert SelectedSubs(o[2..], chosen) == ["Salt Fog"] by {
      assert o[2..][1..] == o[3..];
    }
    assert SelectedSubs(o[1..], chosen) == ["Vibration", "Salt Fog"] by {
      assert o[1..][1..] == o[2..];
    }
  }

  /** "Test Execution" with four samples at Medium and two of its substeps
      costs 2 * 1.2 for itself plus 2 * (0.5 * 4 * 1.25) for the substeps. */
  lemma ExampleTestExecution()
    ensures ProjectSteps[11].name == "Test Execution"
    ensures StepCost(ProjectSteps[11], SubstepConfig, {"Vibration", "Salt Fog"}, 4, Medium) == Ok(7.4)
  {
    var chosen: set<string> := {"Vibration", "Salt Fog"};
    ExecutionChoice();
    assert SubstepCount(ProjectSteps[11].config, chosen) == 2;
    StepCostClosed(ProjectSteps[11], SubstepConfig, chosen, 4, Medium);
  }
}
