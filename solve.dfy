/**
 * The scheduler page's own logic: checking the solver parameters before a
 * request, tagging the returned records with their kind, picking the best
 * run, the success and failure transitions of the page state, and the three
 * repair rules that keep the selected run and room valid.
 */
module Solve {
  import opened Wrappers
  import opened Text
  import opened Runs

  // ---------------------------------------------------------------------
  // Parameter validation
  // ---------------------------------------------------------------------

  /**
   * A form field after `trim()` and `Number.parseInt`/`parseFloat`: blank,
   * a parse that gives NaN or an infinity, or a finite number.
   */
  datatype Field<T> = Blank | NotFinite | Value(v: T)

  datatype HillParams = HillParams(maxSideways: Field<int>, maxRestart: Field<int>, maxIterPerRestart: Field<int>)
  datatype SimParams = SimParams(initialTemp: Field<real>, decay: Field<real>)
  datatype GaParams = GaParams(
    populationSize: Field<int>, maxGenerations: Field<int>,
    crossoverRate: Field<real>, mutationRate: Field<real>,
    tournamentK: Field<int>, elitism: Field<int>)

  /** The query parameters sent with a solve request; an absent option is not sent. */
  datatype Query =
    | HillQuery(variant: HillVariant, maxSideways: Option<int>, maxRestart: Option<int>,
                maxIterationsPerRestart: Option<int>)
    | SimQuery(initialTemp: Option<real>, decay: Option<real>)
    | GaQuery(populationSize: int, maxGenerations: int, crossoverRate: real,
              mutationRate: real, tournamentK: int, elitism: int)

  function QueryKind(q: Query): Kind
  {
    match q
    case HillQuery(_, _, _, _) => HillKind
    case SimQuery(_, _) => SimulatedKind
    case GaQuery(_, _, _, _, _, _) => GeneticKind
  }

  /** Which check rejected the parameters (each one raises its own alert). */
  datatype ParamError =
    | BadMaxSideways | BadMaxRestart | BadMaxIterPerRestart
    | BadInitialTemp | BadDecay
    | BadPopulation | BadGenerations | BadCrossover | BadMutation | BadTournamentK | BadElitism

  /** An optional integer field: blank is omitted, anything else must be a number >= lo. */
  predicate OptionalIntOk(f: Field<int>, lo: int)
  {
    f.Blank? || (f.Value? && f.v >= lo)
  }

  function OptionalValue<T>(f: Field<T>): Option<T>
  {
    if f.Value? then Some(f.v) else None
  }

  predicate HillAccepted(variant: HillVariant, p: HillParams)
  {
    && (variant == Sideways ==> OptionalIntOk(p.maxSideways, 0))
    && (variant == RandomRestart ==> OptionalIntOk(p.maxRestart, 1) && OptionalIntOk(p.maxIterPerRestart, 1))
  }

  predicate SimAccepted(p: SimParams)
  {
    && (p.initialTemp.Blank? || (p.initialTemp.Value? && p.initialTemp.v > 0.0))
    && (p.decay.Blank? || (p.decay.Value? && 0.0 < p.decay.v < 1.0))
  }

  predicate GaAccepted(p: GaParams)
  {
    && p.populationSize.Value? && p.populationSize.v >= 1
    && p.maxGenerations.Value? && p.maxGenerations.v >= 1
    && p.crossoverRate.Value? && 0.0 <= p.crossoverRate.v <= 1.0
    && p.mutationRate.Value? && 0.0 <= p.mutationRate.v <= 1.0
    && p.tournamentK.Value? && 1 <= p.tournamentK.v <= p.populationSize.v
    && p.elitism.Value? && p.elitism.v >= 0
  }

  /** The parameters of the selected algorithm pass every check. */
  predicate Accepted(selection: Selection, hill: HillParams, sim: SimParams, ga: GaParams)
  {
    match selection
    case HillSelection(variant) => HillAccepted(variant, hill)
    case SimulatedSelection => SimAccepted(sim)
    case GeneticSelection => GaAccepted(ga)
  }

  /** The algorithm whose form a rejected field belongs to. */
  function ErrorKind(e: ParamError): Kind
  {
    match e
    case BadMaxSideways => HillKind
    case BadMaxRestart => HillKind
    case BadMaxIterPerRestart => HillKind
    case BadInitialTemp => SimulatedKind
    case BadDecay => SimulatedKind
    case _ => GeneticKind
  }

  /**
   * The alert the checks raise: the first field, in the order the form is
   * checked, that fails its check, or none when the parameters are accepted.
   */
  function FirstParamError(selection: Selection, hill: HillParams, sim: SimParams, ga: GaParams): (e: Option<ParamError>)
    ensures e.None? <==> Accepted(selection, hill, sim, ga)
    ensures e.Some? ==> ErrorKind(e.value) == SelectionKind(selection)
    // a later field is blamed only when every earlier one of its form is valid
    ensures e == Some(BadMaxIterPerRestart) ==> OptionalIntOk(hill.maxRestart, 1)
    ensures e == Some(BadDecay) ==> sim.initialTemp.Blank? || (sim.initialTemp.Value? && sim.initialTemp.v > 0.0)
    ensures e.Some? && ErrorKind(e.value) == GeneticKind && e.value != BadPopulation ==>
      ga.populationSize.Value? && ga.populationSize.v >= 1
    ensures e == Some(BadElitism) ==>
      && ga.maxGenerations.Value? && ga.maxGenerations.v >= 1
      && ga.crossoverRate.Value? && 0.0 <= ga.crossoverRate.v <= 1.0
      && ga.mutationRate.Value? && 0.0 <= ga.mutationRate.v <= 1.0
      && ga.tournamentK.Value? && 1 <= ga.tournamentK.v <= ga.populationSize.v
  {
    match selection
    case HillSelection(variant) =>
      if variant == Sideways && !OptionalIntOk(hill.maxSideways, 0) then Some(BadMaxSideways)
      else if variant == RandomRestart && !OptionalIntOk(hill.maxRestart, 1) then Some(BadMaxRestart)
      else if variant == RandomRestart && !OptionalIntOk(hill.maxIterPerRestart, 1) then Some(BadMaxIterPerRestart)
      else None
    case SimulatedSelection =>
      if !(sim.initialTemp.Blank? || (sim.initialTemp.Value? && sim.initialTemp.v > 0.0)) then Some(BadInitialTemp)
      else if !(sim.decay.Blank? || (sim.decay.Value? && 0.0 < sim.decay.v < 1.0)) then Some(BadDecay)
      else None
    case GeneticSelection =>
      if !(ga.populationSize.Value? && ga.populationSize.v >= 1) then Some(BadPopulation)
      else if !(ga.maxGenerations.Value? && ga.maxGenerations.v >= 1) then Some(BadGenerations)
      else if !(ga.crossoverRate.Value? && 0.0 <= ga.crossoverRate.v <= 1.0) then Some(BadCrossover)
      else if !(ga.mutationRate.Value? && 0.0 <= ga.mutationRate.v <= 1.0) then Some(BadMutation)
      else if !(ga.tournamentK.Value? && 1 <= ga.tournamentK.v <= ga.populationSize.v) then Some(BadTournamentK)
      else if !(ga.elitism.Value? && ga.elitism.v >= 0) then Some(BadElitism)
      else None
  }

  /**
   * The checks `handleSolve` runs before it sets the loading flag or sends
   * anything, in source order, each returning at its first failure.
   */
  method ValidateParams(selection: Selection, hill: HillParams, sim: SimParams, ga: GaParams)
    returns (r: Result<Query, ParamError>)
    ensures r.Failure? <==> FirstParamError(selection, hill, sim, ga).Some?
    ensures r.Failure? ==> r.error == FirstParamError(selection, hill, sim, ga).value
    ensures r.Success? ==> QueryKind(r.value) == SelectionKind(selection)
    ensures selection.HillSelection? ==>
      (r.Success? <==> HillAccepted(selection.variant, hill)) &&
      (r.Success? ==> r.value == HillQuery(selection.variant,
          if selection.variant == Sideways then OptionalValue(hill.maxSideways) else None,
          if selection.variant == RandomRestart then OptionalValue(hill.maxRestart) else None,
          if selection.variant == RandomRestart then OptionalValue(hill.maxIterPerRestart) else None))
    ensures selection.SimulatedSelection? ==>
      (r.Success? <==> SimAccepted(sim)) &&
      (r.Success? ==> r.value == SimQuery(OptionalValue(sim.initialTemp), OptionalValue(sim.decay)))
    ensures selection.GeneticSelection? ==>
      (r.Success? <==> GaAccepted(ga)) &&
      (r.Success? ==>
        && r.value.populationSize == ga.populationSize.v
        && r.value.maxGenerations == ga.maxGenerations.v
        && r.value.crossoverRate == ga.crossoverRate.v
        && r.value.mutationRate == ga.mutationRate.v
        && r.value.tournamentK == ga.tournamentK.v
        // elitism is clamped below the population size
        && 0 <= r.value.elitism < r.value.populationSize
        && r.value.elitism == if ga.elitism.v >= ga.populationSize.v then ga.populationSize.v - 1 else ga.elitism.v)
    // the population is checked before the tournament size that is bounded by it
    ensures r.Failure? && r.error == BadTournamentK ==>
      ga.populationSize.Value? && ga.populationSize.v >= 1 && ga.maxGenerations.Value? &&
      ga.crossoverRate.Value? && ga.mutationRate.Value?
  {
    match selection
    case HillSelection(variant) =>
      var maxSideways: Option<int> := None;
      var maxRestart: Option<int> := None;
      var maxIter: Option<int> := None;
      if variant == Sideways {
        if !hill.maxSideways.Blank? {
          if !hill.maxSideways.Value? || hill.maxSideways.v < 0 {
            return Failure(BadMaxSideways);
          }
          maxSideways := Some(hill.maxSideways.v);
        }
      }
      if variant == RandomRestart {
        if !hill.maxRestart.Blank? {
          if !hill.maxRestart.Value? || hill.maxRestart.v < 1 {
            return Failure(BadMaxRestart);
          }
          maxRestart := Some(hill.maxRestart.v);
        }
        if !hill.maxIterPerRestart.Blank? {
          if !hill.maxIterPerRestart.Value? || hill.maxIterPerRestart.v < 1 {
            return Failure(BadMaxIterPerRestart);
          }
          maxIter := Some(hill.maxIterPerRestart.v);
        }
      }
      r := Success(HillQuery(variant, maxSideways, maxRestart, maxIter));
    case SimulatedSelection =>
      var temp: Option<real> := None;
      var decay: Option<real> := None;
      if !sim.initialTemp.Blank? {
        if !sim.initialTemp.Value? || sim.initialTemp.v <= 0.0 {
          return Failure(BadInitialTemp);
        }
        temp := Some(sim.initialTemp.v);
      }
      if !sim.decay.Blank? {
        if !sim.decay.Value? || sim.decay.v <= 0.0 || sim.decay.v >= 1.0 {
          return Failure(BadDecay);
        }
        decay := Some(sim.decay.v);
      }
      r := Success(SimQuery(temp, decay));
    case GeneticSelection =>
      // a blank field parses to NaN, so every GA field is required
      if !ga.populationSize.Value? || ga.populationSize.v < 1 {
        return Failure(BadPopulation);
      }
      var popVal := ga.populationSize.v;
      if !ga.maxGenerations.Value? || ga.maxGenerations.v < 1 {
        return Failure(BadGenerations);
      }
      if !ga.crossoverRate.Value? || ga.crossoverRate.v < 0.0 || ga.crossoverRate.v > 1.0 {
        return Failure(BadCrossover);
      }
      if !ga.mutationRate.Value? || ga.mutationRate.v < 0.0 || ga.mutationRate.v > 1.0 {
        return Failure(BadMutation);
      }
      if !ga.tournamentK.Value? || ga.tournamentK.v < 1 || ga.tournamentK.v > popVal {
        return Failure(BadTournamentK);
      }
      if !ga.elitism.Value? || ga.elitism.v < 0 {
        return Failure(BadElitism);
      }
      var elitVal := ga.elitism.v;
      if elitVal >= popVal {
        elitVal := if popVal - 1 > 0 then popVal - 1 else 0;
      }
      r := Success(GaQuery(popVal, ga.maxGenerations.v, ga.crossoverRate.v, ga.mutationRate.v,
                           ga.tournamentK.v, elitVal));
  }

  // ---------------------------------------------------------------------
  // Tagging the response and choosing the best run
  // ---------------------------------------------------------------------

  /** The `run` mapping of a response, in enumeration order, as each endpoint types it. */
  datatype Response =
    | HillRuns(hillRuns: seq<(string, (Common, HillFields))>)
    | SimulatedRuns(simRuns: seq<(string, (Common, SimulatedFields))>)
    | GeneticRuns(genRuns: seq<(string, (Common, GeneticFields))>)

  function ResponseKind(resp: Response): Kind
  {
    match resp
    case HillRuns(_) => HillKind
    case SimulatedRuns(_) => SimulatedKind
    case GeneticRuns(_) => GeneticKind
  }

  function ResponseIds(resp: Response): seq<string>
  {
    match resp
    case HillRuns(rs) => seq(|rs|, i requires 0 <= i < |rs| => rs[i].0)
    case SimulatedRuns(rs) => seq(|rs|, i requires 0 <= i < |rs| => rs[i].0)
    case GeneticRuns(rs) => seq(|rs|, i requires 0 <= i < |rs| => rs[i].0)
  }

  function Ids(runs: seq<(string, SolverRun)>): seq<string>
  {
    seq(|runs|, i requires 0 <= i < |runs| => runs[i].0)
  }

  predicate DistinctIds(ids: seq<string>)
  {
    forall i, j :: 0 <= i < j < |ids| ==> ids[i] != ids[j]
  }

  /** Attaches the `type` tag of the endpoint that answered to every record, keeping ids and order. */
  function Tag(resp: Response): (r: seq<(string, SolverRun)>)
    ensures Ids(r) == ResponseIds(resp)
    ensures forall i :: 0 <= i < |r| ==> TypeOf(r[i].1) == ResponseKind(resp)
    ensures resp.HillRuns? ==> forall i :: 0 <= i < |r| ==>
      r[i].1 == Hill(resp.hillRuns[i].1.0, resp.hillRuns[i].1.1)
    ensures resp.SimulatedRuns? ==> forall i :: 0 <= i < |r| ==>
      r[i].1 == Simulated(resp.simRuns[i].1.0, resp.simRuns[i].1.1)
    ensures resp.GeneticRuns? ==> forall i :: 0 <= i < |r| ==>
      r[i].1 == Genetic(resp.genRuns[i].1.0, resp.genRuns[i].1.1)
  {
    match resp
    case HillRuns(rs) => seq(|rs|, i requires 0 <= i < |rs| => (rs[i].0, Hill(rs[i].1.0, rs[i].1.1)))
    case SimulatedRuns(rs) => seq(|rs|, i requires 0 <= i < |rs| => (rs[i].0, Simulated(rs[i].1.0, rs[i].1.1)))
    case GeneticRuns(rs) => seq(|rs|, i requires 0 <= i < |rs| => (rs[i].0, Genetic(rs[i].1.0, rs[i].1.1)))
  }

  function Score(runs: seq<(string, SolverRun)>, i: nat): Number
    requires i < |runs|
  {
    FinalObjective(runs[i].1)
  }

  /** Entry k has the least final objective, and every earlier entry's is strictly larger. */
  predicate IsFirstMinimal(runs: seq<(string, SolverRun)>, k: nat)
  {
    && k < |runs|
    && (forall j :: 0 <= j < |runs| ==> !Less(Score(runs, j), Score(runs, k)))
    && (forall j :: 0 <= j < k ==> Less(Score(runs, k), Score(runs, j)))
  }

  /**
   * The `reduce` of `handleSolve` from entry `next` on, `best` being the
   * accumulator: the current entry replaces it only when strictly smaller.
   */
  function ReduceBest(runs: seq<(string, SolverRun)>, best: nat, next: nat): (r: nat)
    requires best < next <= |runs|
    requires forall j :: 0 <= j < next ==> !Less(Score(runs, j), Score(runs, best))
    requires forall j :: 0 <= j < best ==> Less(Score(runs, best), Score(runs, j))
    ensures IsFirstMinimal(runs, r)
    decreases |runs| - next
  {
    if next == |runs| then best
    else if Less(Score(runs, next), Score(runs, best)) then
      forall j | 0 <= j < next + 1
        ensures !Less(Score(runs, j), Score(runs, next)) && (j < next ==> Less(Score(runs, next), Score(runs, j)))
      {
        ObjectiveOrder(Score(runs, j), Score(runs, next), Score(runs, best));
        ObjectiveOrder(Score(runs, next), Score(runs, best), Score(runs, j));
        ObjectiveOrder(Score(runs, next), Score(runs, j), Score(runs, best));
      }
      ReduceBest(runs, next, next + 1)
    else
      ObjectiveOrder(Score(runs, next), Score(runs, best), Score(runs, best));
      ReduceBest(runs, best, next + 1)
  }

  /** `entries.reduce(...)`: the index of the best run; defined only for a non-empty collection. */
  function BestIndex(runs: seq<(string, SolverRun)>): (k: nat)
    requires |runs| > 0
    ensures IsFirstMinimal(runs, k)
  {
    ObjectiveOrder(Score(runs, 0), Score(runs, 0), Score(runs, 0));
    ReduceBest(runs, 0, 1)
  }

  /** At most one entry is the first minimal one: the choice is deterministic. */
  lemma FirstMinimalUnique(runs: seq<(string, SolverRun)>, a: nat, b: nat)
    requires IsFirstMinimal(runs, a) && IsFirstMinimal(runs, b)
    ensures a == b
  {
    ObjectiveOrder(Score(runs, a), Score(runs, b), Score(runs, a));
  }

  /** `lastVariant` after a successful solve. */
  function LastVariant(s: Selection): string
  {
    match s
    case HillSelection(v) => VariantName(v)
    case SimulatedSelection => "simulated"
    case GeneticSelection => "genetic"
  }

  // ---------------------------------------------------------------------
  // Repair rules (the three effects)
  // ---------------------------------------------------------------------

  /** `runs[id]`: the record stored under an id. */
  function Lookup(runs: seq<(string, SolverRun)>, id: string): (r: Option<SolverRun>)
    ensures r.Some? <==> id in Ids(runs)
    ensures r.Some? ==> exists i :: 0 <= i < |runs| && runs[i] == (id, r.value)
  {
    if runs == [] then None
    else if runs[0].0 == id then
      assert Ids(runs)[0] == runs[0].0;
      Some(runs[0].1)
    else
      var r := Lookup(runs[1..], id);
      assert Ids(runs) == [runs[0].0] + Ids(runs[1..]);
      if r.Some? then
        var i :| 0 <= i < |runs[1..]| && runs[1..][i] == (id, r.value);
        assert runs[i + 1] == (id, r.value);
        r
      else r
  }

  /** A selected id counts only when it is a non-empty string naming a current run. */
  predicate Selects(runs: seq<(string, SolverRun)>, sel: Option<string>)
  {
    sel.Some? && sel.value != "" && sel.value in Ids(runs)
  }

  /** The selected-run repair: none without runs, else kept if valid, else the first entry. */
  function RepairedRunId(runs: seq<(string, SolverRun)>, sel: Option<string>): (r: Option<string>)
    ensures runs == [] <==> r.None?
    ensures r.Some? ==> r.value in Ids(runs)
    ensures runs != [] && Selects(runs, sel) ==> r == sel
    ensures runs != [] && !Selects(runs, sel) ==> r == Some(runs[0].0)
  {
    if |runs| == 0 then None
    else if sel.None? || sel.value == "" || sel.value !in Ids(runs) then
      assert Ids(runs)[0] == runs[0].0;
      Some(runs[0].0)
    else sel
  }

  /** The room codes of a run: the keys of its initial and its final allocation together. */
  function RoomsOf(run: SolverRun): set<string>
  {
    run.common.initialAllocation.Keys + run.common.finalAllocation.Keys
  }

  /** `Array.from(rooms).sort()`: the rooms as a strictly increasing sequence. */
  method SortRooms(rooms: set<string>) returns (sorted: seq<string>)
    ensures StrictlySorted(sorted)
    ensures forall x :: x in sorted <==> x in rooms
  {
    sorted := [];
    var rest := rooms;
    while rest != {}
      invariant StrictlySorted(sorted)
      invariant forall x :: x in sorted <==> x in rooms && x !in rest
      invariant rest <= rooms
      decreases rest
    {
      var x :| x in rest;
      sorted := Insert(x, sorted);
      rest := rest - {x};
    }
  }

  /** The selected-room repair: kept if non-empty and still offered, else the first room, or "". */
  function RepairedRoom(rooms: seq<string>, prev: string): (r: string)
    ensures rooms == [] ==> r == ""
    ensures rooms != [] ==> r in rooms
    ensures rooms != [] && prev != "" && prev in rooms ==> r == prev
    ensures rooms != [] && (prev == "" || prev !in rooms) ==> r == rooms[0]
  {
    if |rooms| > 0 then (if prev != "" && prev in rooms then prev else rooms[0]) else ""
  }

  /** `selectedRun`: the record under the selected id, when the id is a non-empty string. */
  function SelectedRun(runs: seq<(string, SolverRun)>, sel: Option<string>): (r: Option<SolverRun>)
    ensures r.Some? <==> Selects(runs, sel)
  {
    if sel.Some? && sel.value != "" then Lookup(runs, sel.value) else None
  }

  /** `isHill`, `isSimulated`, `isGenetic`: the run's own tag must agree with the recorded kind. */
  function DerivedFlags(run: Option<SolverRun>, kind: Option<Kind>): (f: Flags)
    ensures f.isHill <==> run.Some? && run.value.Hill? && kind == Some(HillKind)
    ensures f.isSimulated <==> run.Some? && run.value.Simulated? && kind == Some(SimulatedKind)
    ensures f.isGenetic <==> run.Some? && run.value.Genetic? && kind == Some(GeneticKind)
    ensures !(f.isHill && f.isSimulated) && !(f.isHill && f.isGenetic) && !(f.isSimulated && f.isGenetic)
  {
    Flags(IsHillRun(run) && kind == Some(HillKind),
          IsSimulatedRun(run) && kind == Some(SimulatedKind),
          IsGeneticRun(run) && kind == Some(GeneticKind))
  }

  /**
   * When every run carries the recorded kind (as after a successful solve),
   * a selected run raises exactly the flag of its own kind.
   */
  lemma {:induction false} FlagsFollowKind(runs: seq<(string, SolverRun)>, sel: Option<string>, kind: Kind)
    requires forall i :: 0 <= i < |runs| ==> TypeOf(runs[i].1) == kind
    ensures var run := SelectedRun(runs, sel);
      var f := DerivedFlags(run, Some(kind));
      run.Some? ==>
        && (f.isHill <==> kind == HillKind)
        && (f.isSimulated <==> kind == SimulatedKind)
        && (f.isGenetic <==> kind == GeneticKind)
  {
    var run := SelectedRun(runs, sel);
    if run.Some? {
      var i :| 0 <= i < |runs| && runs[i] == (sel.value, run.value);
      assert TypeOf(run.value) == kind;
    }
  }

  // ---------------------------------------------------------------------
  // The page state
  // ---------------------------------------------------------------------

  /** The state fields of the scheduler page that the solve flow and the repairs update. */
  class Scheduler {
    var runs: seq<(string, SolverRun)>
    var selectedRunId: Option<string>
    var availableRooms: seq<string>
    var selectedRoom: string
    var lastVariant: Option<string>
    var solverKind: Option<Kind>
    var error: Option<string>
    var isLoading: bool

    /**
     * Runs come from one response (distinct ids, one kind, the kind and the
     * variant recorded together), and the selection points into them.
     */
    predicate Valid()
      reads this
    {
      && DistinctIds(Ids(runs))
      && (runs == [] <==> solverKind.None?)
      && (solverKind.None? <==> lastVariant.None?)
      && (solverKind.Some? ==> forall i :: 0 <= i < |runs| ==> TypeOf(runs[i].1) == solverKind.value)
      && (selectedRunId.Some? ==> selectedRunId.value in Ids(runs))
    }

    constructor ()
      ensures Valid()
      ensures runs == [] && selectedRunId == None && availableRooms == [] && selectedRoom == ""
      ensures lastVariant == None && solverKind == None && error == None && !isLoading
    {
      runs, selectedRunId, availableRooms, selectedRoom := [], None, [], "";
      lastVariant, solverKind, error, isLoading := None, None, None, false;
    }

    /** The failure transition: every piece of run state is cleared together. */
    method Fail(message: string)
      modifies this
      ensures runs == [] && selectedRunId == None && availableRooms == [] && selectedRoom == ""
      ensures solverKind == None && lastVariant == None && error == Some(message)
      ensures isLoading == old(isLoading)
      ensures Valid()
    {
      error := Some(message);
      runs := [];
      selectedRunId := None;
      availableRooms := [];
      selectedRoom := "";
      solverKind := None;
      lastVariant := None;
    }

    /** The success transition: the runs are replaced as a whole and the best one selected. */
    method Succeed(entries: seq<(string, SolverRun)>, kind: Kind, variant: string)
      requires |entries| > 0 && DistinctIds(Ids(entries))
      requires forall i :: 0 <= i < |entries| ==> TypeOf(entries[i].1) == kind
      modifies this
      ensures runs == entries && selectedRunId == Some(entries[BestIndex(entries)].0)
      ensures solverKind == Some(kind) && lastVariant == Some(variant)
      ensures error == old(error) && isLoading == old(isLoading)
      ensures availableRooms == old(availableRooms) && selectedRoom == old(selectedRoom)
      ensures Valid()
    {
      var best := BestIndex(entries);
      runs := entries;
      selectedRunId := Some(entries[best].0);
      assert Ids(entries)[best] == entries[best].0;
      solverKind := Some(kind);
      lastVariant := Some(variant);
    }

    /**
     * `handleSolve`, after the payload has been parsed: resolve the
     * algorithm, check its parameters, send the query (the answer is
     * `server(query)`, an error text or the endpoint's response), then
     * replace the runs as a whole or clear them.
     */
    method HandleSolve(algorithm: string, hill: HillParams, sim: SimParams, ga: GaParams,
                       server: Query -> Result<Response, string>)
      returns (sent: Option<Query>)
      requires Valid()
      requires forall q :: server(q).Success? ==>
        ResponseKind(server(q).value) == QueryKind(q) && DistinctIds(ResponseIds(server(q).value))
      modifies this
      ensures Valid()
      // an unknown algorithm or a rejected parameter stops before any state change or request
      ensures sent.None? ==> unchanged(this)
      ensures sent.Some? ==>
        var selection := ResolveAlgorithm(algorithm);
        && selection.Some?
        && QueryKind(sent.value) == SelectionKind(selection.value)
        && !isLoading
        && match server(sent.value)
           case Failure(msg) =>
             && runs == [] && selectedRunId == None && availableRooms == [] && selectedRoom == ""
             && solverKind == None && lastVariant == None
             && error == Some(if msg == "" then "Gagal menjalankan solver" else msg)
           case Success(resp) =>
             if Tag(resp) == [] then
               && runs == [] && selectedRunId == None && availableRooms == [] && selectedRoom == ""
               && solverKind == None && lastVariant == None
               && error == Some("Respons solver kosong")
             else
               && runs == Tag(resp)
               && selectedRunId == Some(runs[BestIndex(runs)].0)
               && solverKind == Some(SelectionKind(selection.value))
               && lastVariant == Some(LastVariant(selection.value))
               && error == None
               && availableRooms == old(availableRooms) && selectedRoom == old(selectedRoom)
    {
      var selection := ResolveAlgorithm(algorithm);
      if selection.None? {
        return None;
      }
      var checked := ValidateParams(selection.value, hill, sim, ga);
      if checked.Failure? {
        return None;
      }
      var query := checked.value;
      sent := Some(query);
      isLoading := true;
      error := None;
      var answer := server(query);
      if answer.Failure? {
        Fail(if answer.error == "" then "Gagal menjalankan solver" else answer.error);
      } else {
        var entries := Tag(answer.value);
        if |entries| == 0 {
          Fail("Respons solver kosong");
        } else {
          Succeed(entries, SelectionKind(selection.value), LastVariant(selection.value));
        }
      }
      isLoading := false;
    }

    /** First effect: repair the selected run id after the runs or the selection change. */
    method RepairSelectedRun()
      requires Valid()
      modifies this`selectedRunId
      ensures Valid()
      ensures selectedRunId == RepairedRunId(runs, old(selectedRunId))
    {
      if |runs| == 0 {
        selectedRunId := None;
        return;
      }
      if selectedRunId.None? || selectedRunId.value == "" || selectedRunId.value !in Ids(runs) {
        selectedRunId := Some(runs[0].0);
        assert Ids(runs)[0] == runs[0].0;
      }
    }

    /** Second effect: the rooms offered are the sorted union of the selected run's allocation keys. */
    method RepairRooms()
      modifies this`availableRooms
      ensures selectedRunId.Some? && selectedRunId.value != "" && Lookup(runs, selectedRunId.value).Some? ==>
        StrictlySorted(availableRooms) &&
        forall x :: x in availableRooms <==> x in RoomsOf(Lookup(runs, selectedRunId.value).value)
      ensures !(selectedRunId.Some? && selectedRunId.value != "" && Lookup(runs, selectedRunId.value).Some?) ==>
        availableRooms == []
    {
      if selectedRunId.Some? && selectedRunId.value != "" {
        var run := Lookup(runs, selectedRunId.value);
        if run.Some? {
          availableRooms := SortRooms(RoomsOf(run.value));
          return;
        }
      }
      availableRooms := [];
    }

    /** Third effect: keep the selected room if still offered, else take the first, or "". */
    method RepairSelectedRoom()
      modifies this`selectedRoom
      ensures selectedRoom == RepairedRoom(availableRooms, old(selectedRoom))
    {
      if |availableRooms| > 0 {
        if !(selectedRoom != "" && selectedRoom in availableRooms) {
          selectedRoom := availableRooms[0];
        }
      } else {
        selectedRoom := "";
      }
    }
  }
}
