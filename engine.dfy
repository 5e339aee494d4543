/**
 * What `CompileCtx` in mupyter/compile.py computes, stated on values: how a
 * cell's nodes are split into a statement block and a trailing expression,
 * which units run in which mode, how their outputs are assembled, and how a
 * cell is named. The class in module Compile is proved to compute exactly
 * these functions.
 */
module Engine {
  import opened Wrappers
  import opened Python
  import Decimal

  /** A cell's top-level nodes with a trailing bare expression popped off. */
  datatype Split = Split(block: seq<Node>, tail: Option<Node>)

  function TailSeq(t: Option<Node>): (r: seq<Node>)
    ensures |r| <= 1
  {
    if t.Some? then [t.value] else []
  }

  /** The first steps of `run_nodes`: `nodelist[-1]` raises on an empty list,
      and a trailing `ast.Expr` is popped. */
  function SplitCell(nodes: seq<Node>): (r: Result<Split, PyError>)
    ensures r.Err? <==> nodes == []
    ensures r.Err? ==> r.error == IndexError
    ensures r.Ok? ==> r.value.block + TailSeq(r.value.tail) == nodes
    ensures r.Ok? ==> (r.value.tail.Some? <==> nodes[|nodes| - 1].isExpr)
  {
    if nodes == [] then Err(IndexError)
    else if nodes[|nodes| - 1].isExpr then Ok(Split(nodes[..|nodes| - 1], Some(nodes[|nodes| - 1])))
    else Ok(Split(nodes, None))
  }

  /** The outcome of one unit and the namespace after it. */
  datatype UnitRun = UnitRun(out: Result<string, PyError>, ns: Namespace)

  /** `_run_node`: compile (which may raise before anything runs), execute,
      and return the captured text unless execution raised. */
  function ExecuteUnit(rt: Runtime, code: Code, ns: Namespace): (r: UnitRun)
    ensures r.out.Ok? <==> rt.compile(code).None? && rt.exec(code, ns).raised.None?
    ensures r.out.Ok? ==> r.out.value == rt.exec(code, ns).written
    ensures rt.compile(code).Some? ==> r.ns == ns
    ensures rt.compile(code).None? ==> r.ns == rt.exec(code, ns).after
    ensures rt.compile(code).Some? ==> r.out == Err(rt.compile(code).value)
    ensures rt.compile(code).None? && rt.exec(code, ns).raised.Some? ==> r.out == Err(rt.exec(code, ns).raised.value)
  {
    match rt.compile(code)
    case Some(e) => UnitRun(Err(e), ns)
    case None =>
      var x := rt.exec(code, ns);
      UnitRun(if x.raised.Some? then Err(x.raised.value) else Ok(x.written), x.after)
  }

  /** The outcome of a whole cell and the namespace after it. */
  datatype CellRun = CellRun(result: Result<seq<string>, PyError>, ns: Namespace)

  /** Captured text is collected only when it is non-empty. */
  function Keep(out: string): (r: seq<string>)
    ensures r == [] <==> out == []
    ensures r != [] ==> r == [out]
  {
    if out == "" then [] else [out]
  }

  /** `run_nodes`: the block (if any nodes remain) in `'exec'` mode, then the
      tail (if any) alone in `'single'` mode; the first exception aborts. */
  function ExecuteNodes(rt: Runtime, nodes: seq<Node>, name: string, ns: Namespace): (r: CellRun)
    ensures r.result.Ok? ==> |r.result.value| <= 2 && forall i :: 0 <= i < |r.result.value| ==> r.result.value[i] != []
  {
    match SplitCell(nodes)
    case Err(e) => CellRun(Err(e), ns)
    case Ok(split) =>
      var block :=
        if split.block != [] then ExecuteUnit(rt, Code(Module(split.block), name, ExecMode), ns)
        else UnitRun(Ok(""), ns);
      if block.out.Err? then CellRun(Err(block.out.error), block.ns)
      else if split.tail.None? then CellRun(Ok(Keep(block.out.value)), block.ns)
      else
        var tail := ExecuteUnit(rt, Code(Interactive([split.tail.value]), name, SingleMode), block.ns);
        if tail.out.Err? then CellRun(Err(tail.out.error), tail.ns)
        else CellRun(Ok(Keep(block.out.value) + Keep(tail.out.value)), tail.ns)
  }

  // ---------------------------------------------------------------------
  // A reference reading of run_nodes: a plan of units, run in order.

  /** The units a split cell runs, in order. */
  function Plan(split: Split, name: string): (plan: seq<Code>)
    ensures |plan| <= 2
  {
    (if split.block == [] then [] else [Code(Module(split.block), name, ExecMode)])
    + (if split.tail.None? then [] else [Code(Interactive([split.tail.value]), name, SingleMode)])
  }

  /** Runs units in order against a threaded namespace; the first exception
      aborts with that exception (earlier namespace changes persist); otherwise
      the non-empty outputs, in execution order. */
  function RunPlan(rt: Runtime, plan: seq<Code>, ns: Namespace): (r: CellRun)
    decreases |plan|
  {
    if plan == [] then CellRun(Ok([]), ns)
    else
      var u := ExecuteUnit(rt, plan[0], ns);
      if u.out.Err? then CellRun(Err(u.out.error), u.ns)
      else
        var rest := RunPlan(rt, plan[1..], u.ns);
        if rest.result.Err? then rest
        else CellRun(Ok(Keep(u.out.value) + rest.result.value), rest.ns)
  }

  /** The nodes of a sequence of units, concatenated. */
  function Bodies(plan: seq<Code>): (nodes: seq<Node>)
    decreases |plan|
  {
    if plan == [] then [] else plan[0].ast.body + Bodies(plan[1..])
  }

  /** run_nodes is the plan of its split cell, run in order. */
  lemma ExecuteNodesFollowsPlan(rt: Runtime, nodes: seq<Node>, name: string, ns: Namespace)
    requires nodes != []
    ensures ExecuteNodes(rt, nodes, name, ns) == RunPlan(rt, Plan(SplitCell(nodes).value, name), ns)
  {
    var split := SplitCell(nodes).value;
    var blockCode := Code(Module(split.block), name, ExecMode);
    if split.tail.Some? {
      var tailCode := Code(Interactive([split.tail.value]), name, SingleMode);
      if split.block != [] {
        assert Plan(split, name) == [blockCode, tailCode];
        RunTwoUnits(rt, blockCode, tailCode, ns);
      } else {
        assert Plan(split, name) == [tailCode];
        RunLoneUnit(rt, tailCode, ns);
        var t := ExecuteUnit(rt, tailCode, ns);
        assert t.out.Ok? ==> Keep("") + Keep(t.out.value) == Keep(t.out.value);
      }
    } else {
      assert Plan(split, name) == [blockCode];
      RunLoneUnit(rt, blockCode, ns);
    }
  }

  /** A plan of two units runs the second on the first's namespace unless the
      first raised, and keeps both outputs if non-empty. */
  lemma RunTwoUnits(rt: Runtime, first: Code, second: Code, ns: Namespace)
    ensures var u := ExecuteUnit(rt, first, ns);
      var v := ExecuteUnit(rt, second, u.ns);
      RunPlan(rt, [first, second], ns) ==
        if u.out.Err? then CellRun(Err(u.out.error), u.ns)
        else if v.out.Err? then CellRun(Err(v.out.error), v.ns)
        else CellRun(Ok(Keep(u.out.value) + Keep(v.out.value)), v.ns)
  {
    assert [first, second][1..] == [second];
    var u := ExecuteUnit(rt, first, ns);
    RunLoneUnit(rt, second, u.ns);
  }

  /** A plan of one unit runs that unit and keeps its output if non-empty. */
  lemma RunLoneUnit(rt: Runtime, code: Code, ns: Namespace)
    ensures var u := ExecuteUnit(rt, code, ns);
      RunPlan(rt, [code], ns) ==
        if u.out.Err? then CellRun(Err(u.out.error), u.ns) else CellRun(Ok(Keep(u.out.value)), u.ns)
  {
    assert [code][1..] == [];
    var u := ExecuteUnit(rt, code, ns);
    if u.out.Ok? {
      assert Keep(u.out.value) + [] == Keep(u.out.value);
    }
  }

  /** Every node of a non-empty cell runs exactly once and in order, in one or
      two units, each tagged with the cell's name and never empty. */
  lemma EveryNodeRunsOnce(nodes: seq<Node>, name: string)
    requires nodes != []
    ensures var plan := Plan(SplitCell(nodes).value, name);
      && 1 <= |plan| <= 2
      && Bodies(plan) == nodes
      && forall i :: 0 <= i < |plan| ==> plan[i].name == name && plan[i].ast.body != []
  {
    var split := SplitCell(nodes).value;
    var plan := Plan(split, name);
    if split.block != [] && split.tail.Some? {
      assert plan[1..][1..] == [];
      assert Bodies(plan[1..]) == [split.tail.value] + [];
    } else if split.block != [] {
      assert plan[1..] == [];
      assert Bodies(plan) == split.block + [];
    } else {
      assert plan[1..] == [];
    }
  }

  /** A trailing bare expression runs last and alone, in `'single'` mode; every
      other node, earlier bare expressions included, runs in one `'exec'`
      block, and that block runs only when such nodes exist. */
  lemma TailRunsLastAlone(nodes: seq<Node>, name: string)
    requires nodes != [] && nodes[|nodes| - 1].isExpr
    ensures var plan := Plan(SplitCell(nodes).value, name);
      && plan[|plan| - 1] == Code(Interactive([nodes[|nodes| - 1]]), name, SingleMode)
      && (|nodes| == 1 ==> |plan| == 1)
      && (|nodes| > 1 ==> plan == [Code(Module(nodes[..|nodes| - 1]), name, ExecMode), plan[1]])
  {
  }

  /** Without a trailing bare expression the whole cell is one `'exec'` block:
      nothing is displayed. */
  lemma NoTailNoDisplay(nodes: seq<Node>, name: string)
    requires nodes != [] && !nodes[|nodes| - 1].isExpr
    ensures Plan(SplitCell(nodes).value, name) == [Code(Module(nodes), name, ExecMode)]
  {
  }

  /** A successful run of a plan returns only non-empty outputs, at most one per unit. */
  lemma {:induction false} RunPlanOutputs(rt: Runtime, plan: seq<Code>, ns: Namespace)
    ensures var r := RunPlan(rt, plan, ns).result;
      r.Ok? ==> |r.value| <= |plan| && forall i :: 0 <= i < |r.value| ==> r.value[i] != ""
    decreases |plan|
  {
    if plan != [] {
      var u := ExecuteUnit(rt, plan[0], ns);
      if u.out.Ok? {
        RunPlanOutputs(rt, plan[1..], u.ns);
      }
    }
  }

  /** A block that succeeds and a tail that succeeds give the block's output
      (if non-empty) followed by the tail's (if non-empty). */
  lemma BlockOutputBeforeTail(rt: Runtime, nodes: seq<Node>, name: string, ns: Namespace)
    requires |nodes| >= 2 && nodes[|nodes| - 1].isExpr
    ensures var b := ExecuteUnit(rt, Code(Module(nodes[..|nodes| - 1]), name, ExecMode), ns);
      var t := ExecuteUnit(rt, Code(Interactive([nodes[|nodes| - 1]]), name, SingleMode), b.ns);
      b.out.Ok? && t.out.Ok? ==>
        ExecuteNodes(rt, nodes, name, ns) == CellRun(Ok(Keep(b.out.value) + Keep(t.out.value)), t.ns)
  {
  }

  /** An empty cell raises rather than returning no outputs. */
  lemma EmptyCellRaises(rt: Runtime, name: string, ns: Namespace)
    ensures ExecuteNodes(rt, [], name, ns) == CellRun(Err(IndexError), ns)
  {
  }

  // ---------------------------------------------------------------------
  // run_cell

  /** The file name `run_cell` synthesizes from the context's counter. */
  function CellFileName(count: nat): (name: string)
    ensures |name| > |"<mupyter-input-"| + 1
    ensures name[..|"<mupyter-input-"|] == "<mupyter-input-" && name[|name| - 1] == '>'
    ensures forall i :: |"<mupyter-input-"| <= i < |name| - 1 ==> '0' <= name[i] <= '9'
    ensures Decimal.Parse(name[|"<mupyter-input-"|..|name| - 1]) == count
    ensures name[|"<mupyter-input-"|..|name| - 1] == Decimal.ToString(count)
  {
    var digits := Decimal.ToString(count);
    Decimal.ParseToString(count);
    assert ("<mupyter-input-" + digits + ">")[|"<mupyter-input-"|..|"<mupyter-input-"| + |digits|] == digits;
    "<mupyter-input-" + digits + ">"
  }

  /** `filename or f"<mupyter-input-{count}>"`: a given name is used unless it
      is None or empty. */
  function UnitName(filename: Option<string>, count: nat): (name: string)
    ensures name != []
    ensures filename.Some? && filename.value != [] ==> name == filename.value
    ensures filename.None? || filename.value == [] ==> name == CellFileName(count)
  {
    if filename.Some? && filename.value != [] then filename.value else CellFileName(count)
  }

  /** The outcome of `run_cell` and the context's counter afterwards. */
  datatype CellStep = CellStep(run: CellRun, count: nat)

  /** `run_cell`: choose the name, advance the counter, parse, run the nodes.
      The counter advances by exactly one on every call, a parse failure
      included; a parse failure raises the parser's error without touching
      the namespace; a parsed cell runs under the chosen name. */
  function ExecuteCell(rt: Runtime, count: nat, src: string, filename: Option<string>, ns: Namespace): (r: CellStep)
    ensures r.count == count + 1
    ensures var p := rt.parse(src, UnitName(filename, count));
      && (p.Err? ==> r.run == CellRun(Err(p.error), ns))
      && (p.Ok? ==> r.run == ExecuteNodes(rt, p.value, UnitName(filename, count), ns))
  {
    var name := UnitName(filename, count);
    match rt.parse(src, name)
    case Err(e) => CellStep(CellRun(Err(e), ns), count + 1)
    case Ok(nodes) => CellStep(ExecuteNodes(rt, nodes, name, ns), count + 1)
  }

  /** Synthesized names of different counter values differ. */
  lemma CellFileNamesDistinct(m: nat, n: nat)
    requires m != n
    ensures CellFileName(m) != CellFileName(n)
  {
  }

  /** Two cells run one after the other without a file name get different
      synthesized names. */
  lemma ConsecutiveCellsNamedApart(rt: Runtime, count: nat, src: string, ns: Namespace)
    ensures var next := ExecuteCell(rt, count, src, None, ns);
      UnitName(None, count) != UnitName(None, next.count)
  {
    CellFileNamesDistinct(count, count + 1);
  }
}
