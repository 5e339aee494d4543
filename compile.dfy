/**
 * The objects of mupyter/compile.py: the process's standard output, the
 * capture that swaps it for a buffer, and the compilation context that runs
 * cells. Each method of CompileCtx is proved to compute the matching function
 * of module Engine, and to leave `sys.stdout` as it found it.
 */
module Compile {
  import opened Wrappers
  import opened Python
  import Engine

  /** A text stream: the process's real standard output or an `io.StringIO`. */
  class Stream {
    var contents: string

    constructor ()
      ensures contents == []
    {
      contents := [];
    }

    method Write(s: string)
      modifies this
      ensures contents == old(contents) + s
    {
      contents := contents + s;
    }
  }

  /** The running interpreter: `sys.stdout`, which code may reassign, and the
      builtins that parse, compile and execute. */
  class Process {
    var stdout: Stream?
    const runtime: Runtime

    constructor (out: Stream, rt: Runtime)
      ensures stdout == out && runtime == rt
    {
      stdout := out;
      runtime := rt;
    }
  }

  /** `StdoutCapture`: redirects `sys.stdout` into a private buffer between
      `Enter` and `Exit`. */
  class StdoutCapture {
    var trueStdout: Stream?
    const fakeStdout: Stream

    constructor ()
      ensures trueStdout == null && fresh(fakeStdout) && fakeStdout.contents == []
    {
      trueStdout := null;
      fakeStdout := new Stream();
    }

    /** `__enter__`: remember the current stream, install the buffer. */
    method Enter(sys: Process)
      modifies this`trueStdout, sys`stdout
      ensures trueStdout == old(sys.stdout) && sys.stdout == fakeStdout
    {
      trueStdout := sys.stdout;
      sys.stdout := fakeStdout;
    }

    /** `__exit__`: put back exactly the remembered stream. */
    method Exit(sys: Process)
      modifies sys`stdout
      ensures sys.stdout == trueStdout
    {
      sys.stdout := trueStdout;
    }
  }

  /** A Python list of nodes, shared by reference with the caller. */
  class NodeList {
    var items: seq<Node>

    constructor (nodes: seq<Node>)
      ensures items == nodes
    {
      items := nodes;
    }
  }

  /** `CompileCtx`: one namespace (`global_scope`/`local_scope`) and the
      counter of compiled cells. */
  class CompileCtx {
    var ns: Namespace
    var compileCount: nat

    constructor ()
      ensures ns == map[] && compileCount == 0
    {
      ns := map[];
      compileCount := 0;
    }

    /** `_run_node`: compile, then execute with standard output captured.
        Whatever the unit writes goes to the buffer, which is what is returned
        on success; `sys.stdout` is restored on both the normal and the
        exceptional path, and the real stream receives nothing. */
    method RunNode(ast: Ast, name: string, mode: Mode, sys: Process) returns (r: Result<string, PyError>)
      modifies this`ns, sys`stdout
      ensures var u := Engine.ExecuteUnit(sys.runtime, Code(ast, name, mode), old(ns));
        r == u.out && ns == u.ns
      ensures r.Ok? ==> r.value == sys.runtime.exec(Code(ast, name, mode), old(ns)).written
      ensures sys.stdout == old(sys.stdout)
      ensures sys.stdout != null ==> sys.stdout.contents == old(sys.stdout.contents)
    {
      var code := Code(ast, name, mode);
      var failure := sys.runtime.compile(code);
      if failure.Some? {
        return Err(failure.value);
      }
      var cap := new StdoutCapture();
      cap.Enter(sys);
      var x := sys.runtime.exec(code, ns);
      sys.stdout.Write(x.written);
      assert cap.fakeStdout.contents == x.written by {
        assert [] + x.written == x.written;
      }
      ns := x.after;
      cap.Exit(sys);
      if x.raised.Some? {
        return Err(x.raised.value);
      }
      r := Ok(cap.fakeStdout.contents);
    }

    /** `run_nodes`: pops a trailing bare expression off the caller's list,
        runs what remains as one `'exec'` block, then the expression alone in
        `'single'` mode, keeping only non-empty outputs. */
    method RunNodes(nodelist: NodeList, cellId: string, sys: Process) returns (r: Result<seq<string>, PyError>)
      modifies this`ns, nodelist, sys`stdout
      ensures var run := Engine.ExecuteNodes(sys.runtime, old(nodelist.items), cellId, old(ns));
        r == run.result && ns == run.ns
      ensures var before := old(nodelist.items);
        nodelist.items == if before != [] && before[|before| - 1].isExpr then before[..|before| - 1] else before
      ensures sys.stdout == old(sys.stdout)
      ensures sys.stdout != null ==> sys.stdout.contents == old(sys.stdout.contents)
    {
      var res: seq<string> := [];
      var finalExpr: Option<Node> := None;
      if nodelist.items == [] {
        return Err(IndexError);
      }
      ghost var split := Engine.SplitCell(nodelist.items).value;
      ghost var expected := Engine.ExecuteNodes(sys.runtime, nodelist.items, cellId, ns);
      if nodelist.items[|nodelist.items| - 1].isExpr {
        finalExpr := Some(nodelist.items[|nodelist.items| - 1]);
        nodelist.items := nodelist.items[..|nodelist.items| - 1];
      }
      assert nodelist.items == split.block && finalExpr == split.tail;
      ghost var block := Engine.UnitRun(Ok(""), ns);
      if nodelist.items != [] {
        block := Engine.ExecuteUnit(sys.runtime, Code(Module(split.block), cellId, ExecMode), ns);
        var out := RunNode(Module(nodelist.items), cellId, ExecMode, sys);
        assert out == block.out && ns == block.ns;
        if out.Err? {
          assert expected == Engine.CellRun(Err(out.error), ns);
          return Err(out.error);
        }
        if out.value != [] {
          res := res + [out.value];
        }
      }
      assert res == Engine.Keep(block.out.value) && ns == block.ns;
      if finalExpr.Some? {
        ghost var tail := Engine.ExecuteUnit(sys.runtime, Code(Interactive([split.tail.value]), cellId, SingleMode), ns);
        var out := RunNode(Interactive([finalExpr.value]), cellId, SingleMode, sys);
        assert out == tail.out && ns == tail.ns;
        if out.Err? {
          assert expected == Engine.CellRun(Err(out.error), ns);
          return Err(out.error);
        }
        if out.value != [] {
          res := res + [out.value];
        }
        assert res == Engine.Keep(block.out.value) + Engine.Keep(out.value);
        assert expected == Engine.CellRun(Ok(res), ns);
      } else {
        assert expected == Engine.CellRun(Ok(res), ns);
      }
      r := Ok(res);
    }

    /** `run_cell`: picks the unit name, advances the counter (before parsing,
        so a parse failure still counts), parses and runs the nodes. */
    method RunCell(cellCode: string, filename: Option<string>, sys: Process) returns (r: Result<seq<string>, PyError>)
      modifies this, sys`stdout
      ensures var step := Engine.ExecuteCell(sys.runtime, old(compileCount), cellCode, filename, old(ns));
        r == step.run.result && ns == step.run.ns && compileCount == step.count
      ensures compileCount == old(compileCount) + 1
      ensures sys.stdout == old(sys.stdout)
      ensures sys.stdout != null ==> sys.stdout.contents == old(sys.stdout.contents)
    {
      var name := Engine.UnitName(filename, compileCount);
      compileCount := compileCount + 1;
      var parsed := sys.runtime.parse(cellCode, name);
      if parsed.Err? {
        return Err(parsed.error);
      }
      var body := new NodeList(parsed.value);
      r := RunNodes(body, name, sys);
    }
  }
}
