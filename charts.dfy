/**
 * The chart panel: which series the selected run contributes to each chart,
 * the chart titles, and the acceptance-probability series derived from the
 * temperature and energy-delta series of a simulated-annealing run.
 */
module Charts {
  import opened Wrappers
  import opened Runs

  /** `hillRun` / `simRun` / `geneticRun`: the run seen through a view, when its flag and its tag agree. */
  predicate ShowsHill(run: Option<SolverRun>, f: Flags) { f.isHill && IsHillRun(run) }
  predicate ShowsSimulated(run: Option<SolverRun>, f: Flags) { f.isSimulated && IsSimulatedRun(run) }
  predicate ShowsGenetic(run: Option<SolverRun>, f: Flags) { f.isGenetic && IsGeneticRun(run) }

  /**
   * The series of the objective chart: the run's objective trace when some
   * view shows the run (the best-per-generation trace for a genetic run),
   * else nothing.
   */
  function ObjectiveSeries(run: Option<SolverRun>, f: Flags): (r: seq<real>)
    ensures ShowsHill(run, f) || ShowsSimulated(run, f) || ShowsGenetic(run, f) ==> r == ScoreSeries(run.value)
    ensures !(ShowsHill(run, f) || ShowsSimulated(run, f) || ShowsGenetic(run, f)) ==> r == []
  {
    if ShowsHill(run, f) then run.value.hill.objectiveOverIteration
    else if ShowsSimulated(run, f) then run.value.sim.objectiveOverIteration
    else if ShowsGenetic(run, f) then run.value.gen.objectiveBestOverIteration
    else []
  }

  /** A non-empty objective chart ends at the value the metrics and the table report as final. */
  lemma ObjectiveChartEndsAtFinal(run: Option<SolverRun>, f: Flags)
    ensures var s := ObjectiveSeries(run, f);
      s != [] ==> run.Some? && FinalObjective(run.value) == Finite(s[|s| - 1])
  {
    var s := ObjectiveSeries(run, f);
    if s != [] {
      assert s == ScoreSeries(run.value);
    }
  }

  /** The title of the objective chart. */
  function ObjectiveChartTitle(f: Flags): (t: string)
    ensures f.isGenetic ==> t == "Best Objective vs Generasi"
    ensures !f.isGenetic ==> t == "Objective vs Iterasi"
  {
    if f.isGenetic then "Best Objective vs Generasi" else "Objective vs Iterasi"
  }

  /** The average-objective chart's series; shown only for a genetic run with a non-empty trace. */
  function AverageSeries(run: Option<SolverRun>, f: Flags): (r: seq<real>)
    ensures ShowsGenetic(run, f) ==> r == run.value.gen.objectiveAvgOverIteration
    ensures !ShowsGenetic(run, f) ==> r == []
  {
    if ShowsGenetic(run, f) then run.value.gen.objectiveAvgOverIteration else []
  }

  predicate ShowsAverageChart(run: Option<SolverRun>, f: Flags)
  {
    f.isGenetic && |AverageSeries(run, f)| > 0
  }

  function TemperatureSeries(run: Option<SolverRun>, f: Flags): seq<real>
  {
    if ShowsSimulated(run, f) then run.value.sim.temperatureOverIteration else []
  }

  function DeltaSeries(run: Option<SolverRun>, f: Flags): seq<real>
  {
    if ShowsSimulated(run, f) then run.value.sim.deltaEnergyOverIteration else []
  }

  /** `temperatureSeries[idx] ?? 1`: a missing temperature counts as 1. */
  function TemperatureAt(temps: seq<real>, i: nat): real
  {
    if i < |temps| then temps[i] else 1.0
  }

  /**
   * The probability of accepting a move of energy change `delta` at
   * temperature `temp`: 0 when the temperature is not positive, 1 for a
   * move that does not worsen, else exp(-delta/temp). `exp` is the
   * exponential, supplied by the caller.
   */
  function Acceptance(delta: real, temp: real, exp: real -> real): (p: real)
    ensures temp <= 0.0 ==> p == 0.0
    ensures temp > 0.0 && delta <= 0.0 ==> p == 1.0
    ensures temp > 0.0 && delta > 0.0 ==> p == exp(-delta / temp)
  {
    if temp <= 0.0 then 0.0
    else if delta <= 0.0 then 1.0
    else exp(-delta / temp)
  }

  /** The acceptance chart's series: one value per recorded energy delta. */
  function AcceptanceSeries(run: Option<SolverRun>, f: Flags, exp: real -> real): (r: seq<real>)
    ensures |r| == |DeltaSeries(run, f)|
    ensures !ShowsSimulated(run, f) ==> r == []
    ensures forall i :: 0 <= i < |r| ==>
      r[i] == Acceptance(DeltaSeries(run, f)[i], TemperatureAt(TemperatureSeries(run, f), i), exp)
  {
    var deltas := DeltaSeries(run, f);
    var temps := TemperatureSeries(run, f);
    seq(|deltas|, i requires 0 <= i < |deltas| => Acceptance(deltas[i], TemperatureAt(temps, i), exp))
  }

  /**
   * Given an exponential that maps negative arguments into (0, 1), every
   * point of the acceptance chart is a probability, and it is strictly
   * below 1 exactly for the worsening moves at a positive temperature.
   */
  lemma AcceptanceIsProbability(run: Option<SolverRun>, f: Flags, exp: real -> real, i: nat)
    requires forall x: real :: x < 0.0 ==> 0.0 < exp(x) < 1.0
    requires i < |AcceptanceSeries(run, f, exp)|
    ensures var p := AcceptanceSeries(run, f, exp)[i];
      var t := TemperatureAt(TemperatureSeries(run, f), i);
      && 0.0 <= p <= 1.0
      && (p < 1.0 <==> t <= 0.0 || DeltaSeries(run, f)[i] > 0.0)
  {
    var d := DeltaSeries(run, f)[i];
    var t := TemperatureAt(TemperatureSeries(run, f), i);
    if t > 0.0 && d > 0.0 {
      assert -d / t < 0.0;
    }
  }

  /** Past the end of the temperature trace the acceptance is that of temperature 1. */
  lemma MissingTemperatureCountsAsOne(run: Option<SolverRun>, f: Flags, exp: real -> real, i: nat)
    requires |TemperatureSeries(run, f)| <= i < |DeltaSeries(run, f)|
    ensures var d := DeltaSeries(run, f)[i];
      AcceptanceSeries(run, f, exp)[i] == if d <= 0.0 then 1.0 else exp(-d)
  {
    var d := DeltaSeries(run, f)[i];
    assert -d / 1.0 == -d;
  }

  predicate ShowsTemperatureChart(run: Option<SolverRun>, f: Flags)
  {
    f.isSimulated && |TemperatureSeries(run, f)| > 0
  }

  predicate ShowsAcceptanceChart(run: Option<SolverRun>, f: Flags, exp: real -> real)
  {
    f.isSimulated && |AcceptanceSeries(run, f, exp)| > 0
  }

  /** The simulated-annealing charts appear only for a simulated run, the average chart only for a genetic one. */
  lemma ChartsMatchKind(run: Option<SolverRun>, f: Flags, exp: real -> real)
    ensures ShowsTemperatureChart(run, f) || ShowsAcceptanceChart(run, f, exp) ==> run.Some? && run.value.Simulated?
    ensures ShowsAverageChart(run, f) ==> run.Some? && run.value.Genetic?
  {
  }
}
