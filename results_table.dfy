/**
 * The results table: one row per run, in the order the runs are listed,
 * with the run label, the highlighted selected row and the columns that
 * only some kinds of run fill in.
 */
module ResultsTable {
  import opened Wrappers
  import opened Text
  import opened Runs
  import Solve

  /** One table row, every cell as the text it shows. */
  datatype Row = Row(
    key: string,
    name: string,             // "Run 1", "Run 2", ...
    highlighted: bool,
    bestObjective: string,
    avgObjective: string,
    duration: string,
    iterations: string,
    localOptimaIteration: string,
    stuckCount: string,
    sidewaysMoves: string,
    restarts: string,
    maxSideways: string,
    iterationsPerRestart: string,
    population: string,
    params: string)

  /**
   * An optional integer column: "-" only when the record leaves the field
   * out (the test is `!== undefined`), an empty cell when it is `null`
   * (React renders nothing for it), otherwise the number.
   */
  function OptionalCell(v: JsonInt): (s: string)
    ensures v.Missing? <==> s == "-"
    ensures v.Null? <==> s == ""
    ensures v.Int? ==> ParseInt(s) == v.value
  {
    match v
    case Int(n) => IntToStringRoundTrip(n); NotDashPrefix(n); IntToString(n)
    case Null => ""
    case Missing => "-"
  }

  /** No decimal text of an integer is a prefix of "-" (a negative one is longer). */
  lemma NotDashPrefix(n: int)
    ensures !(IntToString(n) <= "-")
  {
    if n >= 0 {
      assert IntToString(n)[0] != '-';
    } else {
      assert |IntToString(n)| > 1;
    }
  }

  /** The display of the iterations-per-restart list: the counts joined by ", ", or "-". */
  function IterationsPerRestartCell(counts: Option<seq<int>>): (s: string)
    ensures s == "-" <==> counts.None? || counts.value == []
    ensures counts.Some? && counts.value != [] ==> IntToString(counts.value[0]) <= s
  {
    if counts.Some? && |counts.value| > 0 then
      var items := seq(|counts.value|, i requires 0 <= i < |counts.value| => IntToString(counts.value[i]));
      var s := Join(items, ", ");
      assert items[0] <= s;
      NotDashPrefix(counts.value[0]);
      s
    else "-"
  }

  /** A parameter value: an integer as its decimal text, anything else through `formatNumber`. */
  function ParamValue(v: real, toFixed: (real, nat) -> string): (s: string)
    ensures v.Floor as real == v ==> ParseInt(s) == v.Floor
  {
    if v.Floor as real == v then IntToStringRoundTrip(v.Floor); IntToString(v.Floor)
    else FormatNumber(Finite(v), if -1.0 < v < 1.0 then 3 else 2, toFixed)
  }

  /** The params column: `key=value` pairs joined by ", ", or "-" when there are none. */
  function ParamsCell(params: seq<(string, real)>, toFixed: (real, nat) -> string): (s: string)
    ensures s == "-" <==> params == []
    ensures params != [] ==> params[0].0 + "=" <= s
  {
    if params == [] then "-"
    else
      var items := seq(|params|, i requires 0 <= i < |params| =>
        params[i].0 + "=" + ParamValue(params[i].1, toFixed));
      var s := Join(items, ", ");
      assert items[0] <= s;
      assert items[0][|params[0].0|] == '=';
      s
  }

  /** The row of entry `idx`, whose id is `id`. */
  function RowOf(id: string, run: SolverRun, idx: nat, selectedId: Option<string>,
                 toFixed: (real, nat) -> string): Row
  {
    var isHillRow := run.Hill?;
    var isSimRow := run.Simulated?;
    var isGenRow := run.Genetic?;
    var avg := if isGenRow && run.gen.objectiveAvgOverIteration != [] then
      FormatNumber(Finite(run.gen.objectiveAvgOverIteration[|run.gen.objectiveAvgOverIteration| - 1]), 2, toFixed)
      else "-";
    var localOpt := if isHillRow then run.hill.localOptimaIteration.GetOr(run.common.iteration) else run.common.iteration;
    Row(
      id,
      "Run " + IntToString(idx + 1),
      selectedId == Some(id),
      FormatNumber(FinalObjective(run), 2, toFixed),
      avg,
      FormatNumber(Finite(run.common.searchTime), 3, toFixed),
      IntToString(run.common.iteration),
      IntToString(localOpt),
      if isSimRow then IntToString(run.sim.localOptimaStuckCount) else "-",
      OptionalCell(if isHillRow then run.hill.sidewaysMoves else Missing),
      OptionalCell(if isHillRow then run.hill.restartCount else Missing),
      OptionalCell(if isHillRow then run.hill.maxSideways else Missing),
      IterationsPerRestartCell(if isHillRow then run.hill.iterationsPerRestart else None),
      if isGenRow then IntToString(run.gen.populationSize) else "-",
      if isGenRow then ParamsCell(run.gen.params, toFixed) else "-")
  }

  /** The table body: one row per entry, labelled by position, keyed by id, selected row highlighted. */
  function Rows(entries: seq<(string, SolverRun)>, selectedId: Option<string>,
                toFixed: (real, nat) -> string): (rows: seq<Row>)
    ensures |rows| == |entries|
    ensures forall i :: 0 <= i < |rows| ==>
      && rows[i].key == entries[i].0
      && rows[i].name == "Run " + IntToString(i + 1)
      && (rows[i].highlighted <==> selectedId == Some(entries[i].0))
  {
    seq(|entries|, i requires 0 <= i < |entries| => RowOf(entries[i].0, entries[i].1, i, selectedId, toFixed))
  }

  /** Distinct positions get distinct labels. */
  lemma RowNamesDistinct(entries: seq<(string, SolverRun)>, selectedId: Option<string>,
                         toFixed: (real, nat) -> string, i: nat, j: nat)
    requires i < j < |entries|
    ensures Rows(entries, selectedId, toFixed)[i].name != Rows(entries, selectedId, toFixed)[j].name
  {
    var rows := Rows(entries, selectedId, toFixed);
    if rows[i].name == rows[j].name {
      assert IntToString(i + 1) == rows[i].name[4..];
      assert IntToString(j + 1) == rows[j].name[4..];
      IntToStringInjective(i + 1, j + 1);
    }
  }

  /** With distinct ids, a selected id present in the table highlights exactly one row. */
  lemma ExactlyOneHighlighted(entries: seq<(string, SolverRun)>, selectedId: Option<string>,
                              toFixed: (real, nat) -> string)
    requires Solve.DistinctIds(Solve.Ids(entries))
    ensures var rows := Rows(entries, selectedId, toFixed);
      && (forall i, j :: 0 <= i < j < |rows| && rows[i].highlighted ==> !rows[j].highlighted)
      && (selectedId.Some? && selectedId.value in Solve.Ids(entries) ==>
            exists i :: 0 <= i < |rows| && rows[i].highlighted)
  {
    var rows := Rows(entries, selectedId, toFixed);
    forall i, j | 0 <= i < j < |rows| && rows[i].highlighted
      ensures !rows[j].highlighted
    {
      assert Solve.Ids(entries)[i] == entries[i].0 && Solve.Ids(entries)[j] == entries[j].0;
    }
    if selectedId.Some? && selectedId.value in Solve.Ids(entries) {
      var i :| 0 <= i < |entries| && Solve.Ids(entries)[i] == selectedId.value;
      assert rows[i].highlighted;
    }
  }

  /**
   * The kind-specific columns: a hill-climbing row shows "-" for stuck
   * count, population, params and average; a simulated-annealing row for
   * every hill-climbing and genetic column; a genetic row for every
   * hill-climbing and simulated-annealing column.
   */
  lemma ColumnsOfOtherKindsAreDashes(id: string, run: SolverRun, idx: nat, selectedId: Option<string>,
                                     toFixed: (real, nat) -> string)
    ensures var r := RowOf(id, run, idx, selectedId, toFixed);
      && (!run.Simulated? ==> r.stuckCount == "-")
      && (!run.Genetic? ==> r.population == "-" && r.params == "-" && r.avgObjective == "-")
      && (!run.Hill? ==> r.sidewaysMoves == "-" && r.restarts == "-" && r.maxSideways == "-"
                          && r.iterationsPerRestart == "-")
      && (run.Simulated? ==> r.stuckCount != "-")
      && (run.Genetic? ==> r.population != "-")
  {
    var r := RowOf(id, run, idx, selectedId, toFixed);
    if run.Simulated? {
      NotDashPrefix(run.sim.localOptimaStuckCount);
    }
    if run.Genetic? {
      NotDashPrefix(run.gen.populationSize);
    }
  }

  /** The local-optimum column reads back as the recorded iteration, falling back to the iteration count. */
  lemma LocalOptimaColumn(id: string, run: SolverRun, idx: nat, selectedId: Option<string>,
                          toFixed: (real, nat) -> string)
    ensures var r := RowOf(id, run, idx, selectedId, toFixed);
      ParseInt(r.localOptimaIteration) ==
        if run.Hill? && run.hill.localOptimaIteration.Some? then run.hill.localOptimaIteration.value
        else run.common.iteration
  {
    var v := if run.Hill? then run.hill.localOptimaIteration.GetOr(run.common.iteration) else run.common.iteration;
    IntToStringRoundTrip(v);
  }
}
