/** Simulation parameters and the measure policies that read the history of
    compartment values (src/data_structures/params.rs). Values are `real`;
    f32 rounding is not modelled. */
module Params {
  import opened Wrappers

  /** A measure policy. The source keeps boxed closures of one signature;
      here each policy is a tag and `Evaluate` dispatches on it. */
  datatype Measure = HandWashing | SocialDistancing

  /** `SimulationParameters`: the counts are `usize`, the rates `f32`. */
  datatype SimulationParameters = SimulationParameters(
    timeSpanInDays: nat,
    initialPopulation: nat,
    initialSpreaders: nat,
    naturalBirthRate: real,
    naturalDeathRate: real,
    sicknessPeriodInDays: nat,
    incubationPeriodInDays: nat,
    mortalityRate: real,
    rNaught: real,
    hospitalizationRate: real,
    maxHospitalCapacity: nat,
    measures: seq<Measure>)

  /** The panics of a measure: the delayed row index is past either end of
      the history, or the row is too short for the columns read. */
  datatype MeasureError = RowOutOfBounds | ColumnOutOfBounds

  /** Column of a history row holding the infected count. */
  const InfectedColumn: nat := 2
  /** Column of a history row holding the population. */
  const PopulationColumn: nat := 5

  /** The reduction `hand_washing` reports once it triggers. */
  const HandWashingReduction: real := 0.1

  /** The incubation period measured in steps of size `h`, rounded down, as
      the cast of the non-negative quotient to `usize` does. */
  function DelaySteps(incubation: nat, h: real): (d: nat)
    requires h > 0.0
    ensures d as real <= incubation as real / h < (d + 1) as real
  {
    QuotientNonNegative(incubation as real, h);
    (incubation as real / h).Floor
  }

  /** A non-negative amount divided by a positive step is non-negative. */
  lemma QuotientNonNegative(x: real, h: real)
    requires x >= 0.0 && h > 0.0
    ensures x / h >= 0.0
  {
  }

  /** The history row a measure reads: `d` rows back from the end, where `d`
      is the incubation period in steps. `None` stands for the panic on an
      index past either end; for `h <= 0` the quotient is not positive or not
      finite and the index never lands inside the history. */
  function DelayedRow(len: nat, incubation: nat, h: real): (r: Option<nat>)
    ensures r.Some? ==> h > 0.0 && r.value < len
    ensures r.Some? ==> (len - r.value) as real <= incubation as real / h < (len - r.value + 1) as real
  {
    if h <= 0.0 then None
    else
      var d := DelaySteps(incubation, h);
      if 1 <= d <= len then Some(len - d) else None
  }

  /** `hand_washing`: reads the infected and population columns of the
      delayed row and reports a 0.1 reduction when more than one percent of
      the population was infected then, and 0.0 otherwise. */
  function HandWashingMeasure(parameters: SimulationParameters, previous: seq<real>, previousData: seq<seq<real>>, time: real, h: real)
    : (r: Result<real, MeasureError>)
    ensures r.Ok? ==> r.value == HandWashingReduction || r.value == 0.0
    ensures r.Ok? <==>
      var row := DelayedRow(|previousData|, parameters.incubationPeriodInDays, h);
      row.Some? && |previousData[row.value]| > PopulationColumn
  {
    match DelayedRow(|previousData|, parameters.incubationPeriodInDays, h)
    case None => Err(RowOutOfBounds)
    case Some(row) =>
      if |previousData[row]| <= PopulationColumn then Err(ColumnOutOfBounds)
      else
        var delayedPopulation := previousData[row][PopulationColumn];
        var delayedInfected := previousData[row][InfectedColumn];
        if delayedInfected > delayedPopulation / 100.0 then Ok(HandWashingReduction) else Ok(0.0)
  }

  /** `social_distancing`: no reduction, whatever the inputs. */
  function SocialDistancingMeasure(parameters: SimulationParameters, previous: seq<real>, previousData: seq<seq<real>>, time: real, h: real)
    : (r: Result<real, MeasureError>)
    ensures r == Ok(0.0)
  {
    Ok(0.0)
  }

  /** Calls the policy a measure stands for, with the closure's arguments. */
  function Evaluate(measure: Measure, parameters: SimulationParameters, previous: seq<real>, previousData: seq<seq<real>>, time: real, h: real)
    : (r: Result<real, MeasureError>)
    ensures r.Ok? ==> 0.0 <= r.value <= HandWashingReduction
  {
    match measure
    case HandWashing => HandWashingMeasure(parameters, previous, previousData, time, h)
    case SocialDistancing => SocialDistancingMeasure(parameters, previous, previousData, time, h)
  }

  /** The delayed row lies inside the history exactly when the step size is
      positive and the incubation period spans at least one step and fewer
      than `len + 1` steps. */
  lemma DelayedRowInBounds(len: nat, incubation: nat, h: real)
    ensures DelayedRow(len, incubation, h).Some? <==>
      h > 0.0 && 1.0 <= incubation as real / h < (len + 1) as real
  {
  }

  /** `hand_washing` reports the reduction exactly when the delayed row can be
      read and its infected count exceeds one percent of its population. */
  lemma HandWashingFires(parameters: SimulationParameters, previous: seq<real>, previousData: seq<seq<real>>, time: real, h: real)
    ensures HandWashingMeasure(parameters, previous, previousData, time, h) == Ok(HandWashingReduction) <==>
      var row := DelayedRow(|previousData|, parameters.incubationPeriodInDays, h);
      && row.Some?
      && |previousData[row.value]| > PopulationColumn
      && previousData[row.value][InfectedColumn] > previousData[row.value][PopulationColumn] / 100.0
  {
  }

  /** The result of `hand_washing` depends neither on the current state
      vector nor on the current time. */
  lemma HandWashingIgnoresStateAndTime(parameters: SimulationParameters, previousData: seq<seq<real>>, h: real,
                                       previous: seq<real>, time: real, previous': seq<real>, time': real)
    ensures HandWashingMeasure(parameters, previous, previousData, time, h) ==
            HandWashingMeasure(parameters, previous', previousData, time', h)
  {
  }

  /** No measure ever reports a negative reduction, and social distancing
      never panics. */
  lemma MeasuresNonNegative(measure: Measure, parameters: SimulationParameters, previous: seq<real>, previousData: seq<seq<real>>, time: real, h: real)
    ensures var r := Evaluate(measure, parameters, previous, previousData, time, h);
            r.Ok? ==> r.value >= 0.0
    ensures measure == SocialDistancing ==> Evaluate(measure, parameters, previous, previousData, time, h) == Ok(0.0)
  {
  }

  /** A five-day incubation period with steps of two days reads the row two
      back from the end: with 3 infected out of 200 the measure triggers. */
  lemma HandWashingExample(parameters: SimulationParameters)
    requires parameters.incubationPeriodInDays == 5
    ensures HandWashingMeasure(parameters, [], [[], [0.0, 0.0, 3.0, 0.0, 0.0, 200.0], []], 0.0, 2.0) == Ok(HandWashingReduction)
  {
    assert DelaySteps(5, 2.0) == 2;
  }
}
