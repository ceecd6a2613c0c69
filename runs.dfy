/**
 * The run-result model of the web front end: the three kinds of solver run
 * as one tagged union, the type guards, the final objective of a run, the
 * mapping from the algorithm selector's labels to a kind and variant, and
 * the branch structure of `formatNumber`.
 */
module Runs {
  import opened Wrappers
  import opened Text

  /** One meeting of a class in a room, as the solver reports it. */
  datatype SlotEntry = SlotEntry(classCode: string, day: string, startHour: int, endHour: int)

  /** Room code to the meetings held in that room. */
  type Allocation = map<string, seq<SlotEntry>>

  /** Fields every run carries, whatever its kind. */
  datatype Common = Common(
    initialAllocation: Allocation,   // alokasi_ruangan_awal
    finalAllocation: Allocation,     // alokasi_ruangan
    searchTime: real,
    iteration: int)

  /**
   * An optional integer field as the JSON decoder hands it over: left out
   * of the record (`undefined`), sent as `null` (a Python `None`), or a
   * number. The page tells the first two apart in some places and not in
   * others.
   */
  datatype JsonInt = Missing | Null | Int(value: int) {
    /** TypeScript's `??`: the number, or `default` for both `undefined` and `null`. */
    function OrElse(default: int): int {
      if Int? then value else default
    }
  }

  datatype HillFields = HillFields(
    objectiveOverIteration: seq<real>,
    localOptimaIteration: Option<int>,
    sidewaysMoves: JsonInt,
    maxSideways: JsonInt,
    restartCount: JsonInt,
    iterationsPerRestart: Option<seq<int>>)

  datatype SimulatedFields = SimulatedFields(
    objectiveOverIteration: seq<real>,
    localOptimaStuckCount: int,
    deltaEnergyOverIteration: seq<real>,
    temperatureOverIteration: seq<real>)

  datatype GeneticFields = GeneticFields(
    populationSize: int,
    objectiveBestOverIteration: seq<real>,
    objectiveAvgOverIteration: seq<real>,
    params: seq<(string, real)>)   // in the order the record lists them

  /** The `type` discriminant: "hill", "simulated" or "genetic". */
  datatype Kind = HillKind | SimulatedKind | GeneticKind

  /** A solver run: a record of one of three shapes, tagged by its kind. */
  datatype SolverRun =
    | Hill(common: Common, hill: HillFields)
    | Simulated(common: Common, sim: SimulatedFields)
    | Genetic(common: Common, gen: GeneticFields)

  function TypeOf(run: SolverRun): Kind
  {
    match run
    case Hill(_, _) => HillKind
    case Simulated(_, _) => SimulatedKind
    case Genetic(_, _) => GeneticKind
  }

  /** Which kind-specific view the page shows for the selected run; at most one is set. */
  datatype Flags = Flags(isHill: bool, isSimulated: bool, isGenetic: bool)

  /** A JavaScript number: the finite values, the two infinities and NaN. */
  datatype Number = Finite(value: real) | PosInfinity | NegInfinity | NaN

  predicate IsFinite(n: Number)
  {
    n.Finite?
  }

  predicate IsInteger(n: Number)
  {
    n.Finite? && n.value == n.value.Floor as real
  }

  /** JavaScript's `<` on numbers: false whenever NaN is involved. */
  predicate Less(a: Number, b: Number)
  {
    match (a, b)
    case (Finite(x), Finite(y)) => x < y
    case (Finite(_), PosInfinity) => true
    case (NegInfinity, Finite(_)) => true
    case (NegInfinity, PosInfinity) => true
    case _ => false
  }

  /**
   * `formatNumber(value, decimals)`: "-" for a non-finite number, the plain
   * integer for an integral one, otherwise `toFixed(decimals)`, which is
   * left abstract as the parameter `toFixed`.
   */
  function FormatNumber(value: Number, decimals: nat, toFixed: (real, nat) -> string): (r: string)
    ensures !IsFinite(value) ==> r == "-"
    ensures IsInteger(value) ==> r != "-" && ParseInt(r) == value.value.Floor
  {
    if !IsFinite(value) then "-"
    else if IsInteger(value) then
      IntToStringRoundTrip(value.value.Floor);
      IntToString(value.value.Floor)
    else toFixed(value.value, decimals)
  }

  /** `isHillRun`: true exactly for a defined run whose type is "hill". */
  predicate IsHillRun(run: Option<SolverRun>)
  {
    run.Some? && TypeOf(run.value) == HillKind
  }

  predicate IsSimulatedRun(run: Option<SolverRun>)
  {
    run.Some? && TypeOf(run.value) == SimulatedKind
  }

  predicate IsGeneticRun(run: Option<SolverRun>)
  {
    run.Some? && TypeOf(run.value) == GeneticKind
  }

  /** For a defined run exactly one guard holds, the one its type names; for no run none does. */
  lemma GuardsPartition(run: Option<SolverRun>)
    ensures run.None? ==> !IsHillRun(run) && !IsSimulatedRun(run) && !IsGeneticRun(run)
    ensures run.Some? ==>
      (IsHillRun(run) <==> run.value.Hill?) &&
      (IsSimulatedRun(run) <==> run.value.Simulated?) &&
      (IsGeneticRun(run) <==> run.value.Genetic?)
    ensures run.Some? ==>
      (if IsHillRun(run) then 1 else 0) + (if IsSimulatedRun(run) then 1 else 0)
        + (if IsGeneticRun(run) then 1 else 0) == 1
  {
  }

  /** The series whose last entry is the run's final objective. */
  function ScoreSeries(run: SolverRun): seq<real>
  {
    match run
    case Hill(_, h) => h.objectiveOverIteration
    case Simulated(_, s) => s.objectiveOverIteration
    case Genetic(_, g) => g.objectiveBestOverIteration
  }

  /**
   * `finalObjective`: the last objective value of the run, +Infinity when
   * the run recorded none. Lower is better.
   */
  function FinalObjective(run: SolverRun): (r: Number)
    ensures r.Finite? || r.PosInfinity?
    ensures run.Genetic? ==>
      if run.gen.objectiveBestOverIteration == [] then r == PosInfinity
      else r == Finite(run.gen.objectiveBestOverIteration[|run.gen.objectiveBestOverIteration| - 1])
    ensures run.Hill? ==>
      if run.hill.objectiveOverIteration == [] then r == PosInfinity
      else r == Finite(run.hill.objectiveOverIteration[|run.hill.objectiveOverIteration| - 1])
    ensures run.Simulated? ==>
      if run.sim.objectiveOverIteration == [] then r == PosInfinity
      else r == Finite(run.sim.objectiveOverIteration[|run.sim.objectiveOverIteration| - 1])
  {
    var s := ScoreSeries(run);
    if s == [] then PosInfinity else Finite(s[|s| - 1])
  }

  /** Strict `<` is a strict total order on the values FinalObjective can take. */
  lemma ObjectiveOrder(a: Number, b: Number, c: Number)
    requires (a.Finite? || a.PosInfinity?) && (b.Finite? || b.PosInfinity?) && (c.Finite? || c.PosInfinity?)
    ensures !Less(a, a)
    ensures a != b ==> Less(a, b) || Less(b, a)
    ensures Less(a, b) && Less(b, c) ==> Less(a, c)
    ensures Less(a, b) ==> !Less(b, a)
  {
  }

  datatype HillVariant = Steepest | Stochastic | Sideways | RandomRestart

  /** The variant's name as the query string and the metrics panel spell it. */
  function VariantName(v: HillVariant): string
  {
    match v
    case Steepest => "steepest"
    case Stochastic => "stochastic"
    case Sideways => "sideways"
    case RandomRestart => "random_restart"
  }

  datatype Selection = HillSelection(variant: HillVariant) | SimulatedSelection | GeneticSelection

  function SelectionKind(s: Selection): Kind
  {
    match s
    case HillSelection(_) => HillKind
    case SimulatedSelection => SimulatedKind
    case GeneticSelection => GeneticKind
  }

  /** The values the algorithm selector offers, in its order. */
  const SelectorLabels: seq<string> := [
    "Steepest Ascent Hill-Climbing",
    "Stochastic Hill-Climbing",
    "Sideways Move Hill-Climbing",
    "Random Restart Hill-Climbing",
    "Simulated Annealing",
    "Genetic Algorithm"
  ]

  /** `resolveAlgorithm`: the kind (and hill-climbing variant) a selector label stands for. */
  function ResolveAlgorithm(name: string): (r: Option<Selection>)
    ensures r.Some? <==> name in SelectorLabels
    ensures r.Some? && r.value.HillSelection? <==> name in SelectorLabels[..4]
  {
    match name
    case "Steepest Ascent Hill-Climbing" => Some(HillSelection(Steepest))
    case "Stochastic Hill-Climbing" => Some(HillSelection(Stochastic))
    case "Sideways Move Hill-Climbing" => Some(HillSelection(Sideways))
    case "Random Restart Hill-Climbing" => Some(HillSelection(RandomRestart))
    case "Simulated Annealing" => Some(SimulatedSelection)
    case "Genetic Algorithm" => Some(GeneticSelection)
    case _ => None
  }

  /** Every selector label resolves, and the four hill-climbing labels to four different variants. */
  lemma SelectorLabelsResolve()
    ensures forall i :: 0 <= i < |SelectorLabels| ==> ResolveAlgorithm(SelectorLabels[i]).Some?
    ensures forall i, j :: 0 <= i < j < 4 ==>
      ResolveAlgorithm(SelectorLabels[i]).value.HillSelection? &&
      ResolveAlgorithm(SelectorLabels[i]).value != ResolveAlgorithm(SelectorLabels[j]).value
    ensures ResolveAlgorithm(SelectorLabels[4]) == Some(SimulatedSelection)
    ensures ResolveAlgorithm(SelectorLabels[5]) == Some(GeneticSelection)
  {
  }
}
