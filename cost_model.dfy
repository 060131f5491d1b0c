/** The static cost model of the test estimator: complexity tiers, the
    configuration record of one costed item, the substep name lists, the
    multiplier presets and the ordered table of project steps. */
module CostModel {

  /** The three values the complexity selector offers. */
  datatype Tier = Easy | Medium | High

  /** Position of a tier in the selector, Easy first. */
  function Rank(t: Tier): (r: nat)
    ensures r <= 2
    ensures t == Easy <==> r == 0
    ensures t == High <==> r == 2
  {
    match t
    case Easy => 0
    case Medium => 1
    case High => 2
  }

  datatype Option<T> = None | Some(value: T)

  /** A dictionary lookup with a default, like Python's `dict.get(key, default)`:
      a present key yields its value, an absent one the default. */
  function GetOr<T>(o: Option<T>, default: T): (r: T)
    ensures o.Some? ==> r == o.value
    ensures o.None? ==> r == default
  {
    match o
    case Some(v) => v
    case None => default
  }

  /** A multiplier table keyed by tier. A table need not contain every tier:
      looking up an absent tier is the source's KeyError. */
  type Multipliers = map<Tier, real>

  /** The configuration dictionary of one costed item. Each cost parameter may
      appear under its primary key (`base`, `per_sample`, `multipliers`) or
      under its alternate key (`base_hours`, `hours_per_sample`,
      `complexity_multipliers`); `None` means the key is absent. The `substeps`
      key is always present: its value is the step's substep list, and `None`
      is Python's `None`. */
  datatype ItemConfig = ItemConfig(
    base: Option<real>,
    baseHours: Option<real>,
    perSample: Option<real>,
    hoursPerSample: Option<real>,
    multipliers: Option<Multipliers>,
    complexityMultipliers: Option<Multipliers>,
    substeps: Option<seq<string>>)

  /** One entry of the ordered step table: its name (the dictionary key) and
      its configuration. */
  datatype Step = Step(name: string, config: ItemConfig)

  /** Multipliers with no effect; also the fallback table of the formula. */
  const DefaultMults: Multipliers := map[Easy := 1.0, Medium := 1.0, High := 1.0]

  /** Multipliers of steps that complexity affects strongly. */
  const ComplexMults: Multipliers := map[Easy := 1.0, Medium := 1.2, High := 1.5]

  /** The one configuration shared by every substep of every step. Its keys are
      the alternate names, and its Medium factor (1.25) differs from
      ComplexMults. */
  const SubstepConfig: ItemConfig := ItemConfig(
    None, Some(0.0),
    None, Some(0.5),
    None, Some(map[Easy := 1.0, Medium := 1.25, High := 1.5]),
    None)

  const ExecutionSubsteps: seq<string> := [
    "Thermal Cycling/Thermal Shock", "Vibration", "Fluid Susceptibility",
    "Salt Fog", "Seal Integrity", "Discontinuity Monitoring System"
  ]

  const AtpSubsteps: seq<string> := [
    "Visual Inspection", "Partial Discharge", "Insulation Resistance",
    "Dielectric Withstanding Voltage", "Electrical Bonding Resistance", "Tear Down Inspection"
  ]

  /** A step configuration written with the primary keys, as every entry of
      the step table is. */
  function StepConfig(base: real, perSample: real, mults: Multipliers, subs: Option<seq<string>>): (c: ItemConfig)
    ensures c.base == Some(base) && c.perSample == Some(perSample)
    ensures c.multipliers == Some(mults) && c.substeps == subs
  {
    ItemConfig(Some(base), None, Some(perSample), None, Some(mults), None, subs)
  }

  /** The step table, in its display and evaluation order. */
  const ProjectSteps: seq<Step> := [
    Step("Conformity Delegation", StepConfig(2.0, 0.0, DefaultMults, None)),
    Step("Creation of UUT", StepConfig(2.0, 1.0, ComplexMults, None)),
    Step("Creation of Test Plan", StepConfig(4.0, 0.0, ComplexMults, None)),
    Step("Test Facility Selection", StepConfig(2.0, 0.0, DefaultMults, None)),
    Step("NDA", StepConfig(1.0, 0.0, DefaultMults, None)),
    Step("Subcontract", StepConfig(2.0, 0.0, DefaultMults, None)),
    Step("TRR 1", StepConfig(3.0, 0.0, DefaultMults, None)),
    Step("UUT Conformity", StepConfig(1.0, 0.5, DefaultMults, None)),
    Step("Pre-ATP", StepConfig(1.0, 0.0, ComplexMults, Some(AtpSubsteps))),
    Step("Test Set-up", StepConfig(4.0, 0.0, ComplexMults, None)),
    Step("TRR 2", StepConfig(2.0, 0.0, DefaultMults, None)),
    Step("Test Execution", StepConfig(2.0, 0.0, ComplexMults, Some(ExecutionSubsteps))),
    Step("Post-ATP", StepConfig(1.0, 0.0, ComplexMults, Some(AtpSubsteps))),
    Step("Test Reporting", StepConfig(4.0, 1.0, DefaultMults, None)),
    Step("Archiving", StepConfig(1.0, 0.0, DefaultMults, None))
  ]
}
