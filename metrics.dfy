/**
 * The four metric cards shown for the selected run: final objective,
 * duration, the iteration card and the kind-specific secondary metric.
 */
module Metrics {
  import opened Wrappers
  import opened Text
  import opened Runs
  import opened Charts
  import ResultsTable

  /** `bestScore`: the run's final objective, or 0 when nothing is selected. */
  function BestScore(run: Option<SolverRun>): (n: Number)
    ensures run.None? ==> n == Finite(0.0)
    ensures run.Some? ==> n == FinalObjective(run.value)
  {
    if run.Some? then FinalObjective(run.value) else Finite(0.0)
  }

  /** `duration`: the run's search time in seconds, or 0. */
  function Duration(run: Option<SolverRun>): (d: real)
    ensures run.Some? ==> d == run.value.common.searchTime
    ensures run.None? ==> d == 0.0
  {
    if run.Some? then run.value.common.searchTime else 0.0
  }

  /** The third card: its title and its integer value. */
  datatype IterationCard = IterationCard(title: string, value: int)

  /**
   * For the hill-climbing view the card shows the iteration at which the
   * local optimum was reached (falling back to the iteration count), else
   * the iteration count; the title names generations for the genetic view.
   */
  function IterationMetric(run: Option<SolverRun>, f: Flags): (c: IterationCard)
    ensures c.title == (if f.isGenetic then "Generations" else "Iterations")
    ensures run.None? ==> c.value == 0
    ensures run.Some? && !f.isHill ==> c.value == run.value.common.iteration
    ensures f.isHill && ShowsHill(run, f) && run.value.hill.localOptimaIteration.Some? ==>
      c.value == run.value.hill.localOptimaIteration.value
    ensures run.Some? && f.isHill && !(ShowsHill(run, f) && run.value.hill.localOptimaIteration.Some?) ==>
      c.value == run.value.common.iteration
  {
    var iterationCount := if run.Some? then run.value.common.iteration else 0;
    var localOpt := if ShowsHill(run, f) then run.value.hill.localOptimaIteration.GetOr(iterationCount) else iterationCount;
    IterationCard(if f.isGenetic then "Generations" else "Iterations",
                  if f.isHill then localOpt else iterationCount)
  }

  /** The fourth card before formatting: title, value (absent only without a run) and unit suffix. */
  datatype SecondaryMetric = SecondaryMetric(title: string, value: Option<int>, suffix: string)

  /**
   * The kind-specific metric: sideways moves or restart count for those
   * hill-climbing variants (0 when the record leaves them out or sends `null`), the total
   * iterations for the other hill-climbing variants, the stuck count for
   * simulated annealing, the population size for the genetic algorithm,
   * and the run's iteration count when no view applies.
   */
  function SecondaryMetricOf(run: Option<SolverRun>, lastVariant: Option<string>, f: Flags): (m: SecondaryMetric)
    ensures m.value.None? <==> run.None?
    ensures ShowsHill(run, f) && lastVariant == Some("sideways") ==>
      m == SecondaryMetric("Sideways Moves", Some(run.value.hill.sidewaysMoves.OrElse(0)), "moves")
    ensures ShowsHill(run, f) && lastVariant == Some("random_restart") ==>
      m == SecondaryMetric("Restart Count", Some(run.value.hill.restartCount.OrElse(0)), "restarts")
    ensures ShowsHill(run, f) && lastVariant != Some("sideways") && lastVariant != Some("random_restart") ==>
      m == SecondaryMetric("Total Iterations", Some(run.value.common.iteration), "")
    ensures !ShowsHill(run, f) && ShowsSimulated(run, f) ==>
      m == SecondaryMetric("Stuck Count", Some(run.value.sim.localOptimaStuckCount), "")
    ensures !ShowsHill(run, f) && !ShowsSimulated(run, f) && ShowsGenetic(run, f) ==>
      m == SecondaryMetric("Population Size", Some(run.value.gen.populationSize), "")
    ensures !ShowsHill(run, f) && !ShowsSimulated(run, f) && !ShowsGenetic(run, f) ==>
      m.title == "Total Iterations" && m.suffix == "" &&
      (run.Some? ==> m.value == Some(run.value.common.iteration))
  {
    var fallback := SecondaryMetric("Total Iterations",
      if run.Some? then Some(run.value.common.iteration) else None, "");
    if ShowsHill(run, f) then
      if lastVariant == Some("sideways") then
        SecondaryMetric("Sideways Moves", Some(run.value.hill.sidewaysMoves.OrElse(0)), "moves")
      else if lastVariant == Some("random_restart") then
        SecondaryMetric("Restart Count", Some(run.value.hill.restartCount.OrElse(0)), "restarts")
      else
        SecondaryMetric("Total Iterations", Some(run.value.common.iteration), "")
    else if ShowsSimulated(run, f) then
      SecondaryMetric("Stuck Count", Some(run.value.sim.localOptimaStuckCount), "")
    else if ShowsGenetic(run, f) then
      SecondaryMetric("Population Size", Some(run.value.gen.populationSize), "")
    else fallback
  }

  /** `localMetricDisplay`: "-" for no value, else the number formatted; an integer reads back as itself. */
  function MetricDisplay(value: Option<int>, toFixed: (real, nat) -> string): (s: string)
    ensures value.None? <==> s == "-"
    ensures value.Some? ==> ParseInt(s) == value.value
  {
    if value.None? then "-"
    else
      var v := value.value as real;
      var decimals := if -1.0 < v < 1.0 then 3 else 2;
      assert IsInteger(Finite(v)) && Finite(v).value.Floor == value.value;
      FormatNumber(Finite(v), decimals, toFixed)
  }

  /** The secondary card shows "-" exactly when no run is selected. */
  lemma SecondaryDashIffNoRun(run: Option<SolverRun>, lastVariant: Option<string>, f: Flags, toFixed: (real, nat) -> string)
    ensures MetricDisplay(SecondaryMetricOf(run, lastVariant, f).value, toFixed) == "-" <==> run.None?
  {
  }

  /**
   * The cards and the results-table row of the selected run agree: the same
   * final objective and duration text, and the iteration card reads the
   * number the local-optimum column shows in the hill-climbing view and the
   * iterations column shows otherwise. The sideways-move and restart cards
   * agree with their columns on a number; on a `null` the card shows 0
   * while the column is empty.
   */
  lemma CardsAgreeWithTableRow(id: string, run: SolverRun, idx: nat, selectedId: Option<string>,
                               lastVariant: Option<string>, f: Flags, toFixed: (real, nat) -> string)
    ensures var row := ResultsTable.RowOf(id, run, idx, selectedId, toFixed);
      && FormatNumber(BestScore(Some(run)), 2, toFixed) == row.bestObjective
      && FormatNumber(Finite(Duration(Some(run))), 3, toFixed) == row.duration
      && (f.isHill ==> IterationMetric(Some(run), f).value == ParseInt(row.localOptimaIteration))
      && (!f.isHill ==> IterationMetric(Some(run), f).value == ParseInt(row.iterations))
    ensures var row := ResultsTable.RowOf(id, run, idx, selectedId, toFixed);
      var m := SecondaryMetricOf(Some(run), lastVariant, f);
      && (ShowsHill(Some(run), f) && lastVariant == Some("sideways") ==>
            (run.hill.sidewaysMoves.Int? ==> m.value == Some(ParseInt(row.sidewaysMoves))) &&
            (run.hill.sidewaysMoves.Null? ==> m.value == Some(0) && row.sidewaysMoves == ""))
      && (ShowsHill(Some(run), f) && lastVariant == Some("random_restart") ==>
            (run.hill.restartCount.Int? ==> m.value == Some(ParseInt(row.restarts))) &&
            (run.hill.restartCount.Null? ==> m.value == Some(0) && row.restarts == ""))
  {
    ResultsTable.LocalOptimaColumn(id, run, idx, selectedId, toFixed);
    IntToStringRoundTrip(run.common.iteration);
  }

  /** The Final Objective card is the last point of a non-empty objective chart. */
  lemma FinalCardIsChartEnd(run: Option<SolverRun>, f: Flags)
    ensures var s := ObjectiveSeries(run, f);
      s != [] ==> BestScore(run) == Finite(s[|s| - 1])
  {
    ObjectiveChartEndsAtFinal(run, f);
  }

  /**
   * The iteration card and the objective chart name generations together:
   * both do exactly in the genetic view, and so both do whenever the
   * average-objective chart is shown.
   */
  lemma TitlesAgree(run: Option<SolverRun>, f: Flags)
    ensures IterationMetric(run, f).title == "Generations" <==> ObjectiveChartTitle(f) == "Best Objective vs Generasi"
    ensures ShowsAverageChart(run, f) ==>
      IterationMetric(run, f).title == "Generations" && ObjectiveChartTitle(f) == "Best Objective vs Generasi"
  {
  }

  /** Without a selected run the cards read 0, 0 s, 0 and "-". */
  lemma NoRunCards(lastVariant: Option<string>, f: Flags, toFixed: (real, nat) -> string)
    ensures FormatNumber(BestScore(None), 2, toFixed) == "0"
    ensures FormatNumber(Finite(Duration(None)), 3, toFixed) == "0"
    ensures IterationMetric(None, f).value == 0
    ensures MetricDisplay(SecondaryMetricOf(None, lastVariant, f).value, toFixed) == "-"
  {
  }
}
