# mupyter kernel core, modelled in Dafny

mupyter is a small Python execution kernel behind a JSON REST API. A client
creates a kernel, posts "cells" of Python source to it, and gets back the text
the cell printed. A trailing bare expression is echoed REPL-style. Each kernel
owns a `CompileCtx`, whose namespace persists from cell to cell.

This project models the bookkeeping around Python's `exec`:

- `wrappers.dfy` (module `Wrappers`): `Option` and `Result`.
- `python.dfy` (module `Python`): the parts of the runtime that the kernel
  calls but does not implement. These are parsing, `codeop.Compile` and `exec`.
  They are uninterpreted functions in a `Runtime` value, and every result below
  holds for every runtime. An executed unit reports the text it wrote, the
  exception it raised (if any) and the namespace afterwards.
- `engine.dfy` (module `Engine`): the computation of `CompileCtx` on values.
  It covers splitting off the trailing expression, the units run and their
  modes, the assembly of outputs and the naming of cells. `Plan`/`RunPlan`
  gives an independent reading: the units run in order and the first exception
  aborts. `ExecuteNodesFollowsPlan` proves that this reading agrees with
  `run_nodes`.
- `compile.py`'s objects (module `Compile`, `compile.dfy`): `sys.stdout`
  (`Process`), `io.StringIO` (`Stream`), `StdoutCapture`, the caller's node
  list (`NodeList`) and `CompileCtx`. Each method of `CompileCtx` is proved to
  compute the matching `Engine` function and to leave `sys.stdout` as it
  found it.
- `api.py`'s registry (module `Api`, `api.dfy`): `Kernel` and `KernelAPI`.
  `KernelAPI` has the `_kernels` dict, kept as a map plus its insertion order.
  Its handlers are create, list, info, delete and process.

Three behaviours of the code shape the model:

- An empty cell raises `IndexError` at `nodelist[-1]` in `run_nodes`.
- `kernel_process` catches only `Exception`. A `SystemExit` or
  `KeyboardInterrupt` raised by a cell escapes the handler, and `processed`
  is not incremented. The context's own counter has still advanced.
- A cell run without a file name is named `<mupyter-input-{n}>`, where `n` is
  the context's counter before the call.

## Model

| member | source | states |
|---|---|---|
| Engine.SplitCell | mupyter/compile.py:76-79 | An empty node list fails with IndexError. Otherwise the block followed by the popped tail is exactly the original list, and a tail exists iff the last node is an `ast.Expr`. |
| Engine.ExecuteUnit | mupyter/compile.py:57-63 | A unit succeeds iff it compiles and its execution raises nothing. On success the result is exactly the text the unit wrote. On failure the result is the compiler's error, or else the exception `exec` raised, unchanged. A compile error leaves the namespace untouched; otherwise the namespace is the one execution left, even when it raised. |
| Engine.Keep | mupyter/compile.py:85-86 | A unit's output is collected iff it is non-empty, and then it is collected as it is. |
| Engine.ExecuteNodes | mupyter/compile.py:65-93 | A successful cell returns at most two outputs, all non-empty. |
| Engine.ExecuteNodesFollowsPlan | mupyter/compile.py:75-93 | `run_nodes` on a non-empty list is its plan of units run in order. The first exception aborts with that exception, and namespace changes made before it persist. Otherwise the non-empty outputs are returned in execution order. |
| Engine.EveryNodeRunsOnce | mupyter/compile.py:79-92 | A non-empty cell runs one or two units. Their bodies, concatenated, are exactly the cell's nodes in order. Each unit is non-empty and tagged with the cell's name. |
| Engine.TailRunsLastAlone | mupyter/compile.py:78-92 | A trailing `ast.Expr` runs last and alone, in `'single'` mode. All earlier nodes, including earlier `Expr`s, run in one `'exec'` block. That block runs only if such nodes exist, so a lone expression runs only the interactive unit. |
| Engine.NoTailNoDisplay | mupyter/compile.py:78-86 | Without a trailing `Expr`, the whole cell is a single `'exec'` unit and nothing runs in interactive mode. |
| Engine.RunPlanOutputs | mupyter/compile.py:85-93 | A successful run returns at most one output per unit, and none of them is empty. |
| Engine.BlockOutputBeforeTail | mupyter/compile.py:80-93 | When both the block and the tail succeed, the result is the block's output followed by the tail's, each kept only if non-empty. The namespace is the one left by the tail. |
| Engine.EmptyCellRaises | mupyter/compile.py:78 | An empty cell raises IndexError and leaves the namespace as it was. |
| Engine.UnitName | mupyter/compile.py:102 | A given file name is used unless it is None or empty, in which case the name is `<mupyter-input-{count}>`. The chosen name is never empty. |
| Engine.CellFileName | mupyter/compile.py:102 | The synthesized name starts with `<mupyter-input-` and ends with `>`. What lies between is the counter's decimal rendering (no leading zero) and reads back as the counter. |
| Engine.ExecuteCell | mupyter/compile.py:95-105 | `run_cell` advances the counter by exactly one on every call. A parse failure still advances it, raises the parser's error and leaves the namespace untouched. A parsed cell runs its nodes under the chosen name. |
| Engine.CellFileNamesDistinct | mupyter/compile.py:102 | `<mupyter-input-{m}>` and `<mupyter-input-{n}>` differ whenever m and n differ. |
| Engine.ConsecutiveCellsNamedApart | mupyter/compile.py:102-103 | Two cells run in sequence without a file name get different synthesized names. |
| Compile.Stream.Write | mupyter/compile.py:30 | A write appends its text to what the stream already holds. |
| Compile.NodeList.constructor | mupyter/compile.py:79 | The list holds exactly the given nodes. |
| Compile.StdoutCapture.constructor | mupyter/compile.py:28-30 | No stream is saved yet, and the buffer is a new, empty `StringIO`. |
| Compile.StdoutCapture.Enter | mupyter/compile.py:32-35 | Saves the current `sys.stdout` and installs the buffer. |
| Compile.StdoutCapture.Exit | mupyter/compile.py:37-38 | Sets `sys.stdout` back to exactly the saved stream. |
| Compile.CompileCtx.constructor | mupyter/compile.py:51-55 | A new context has an empty namespace and a zero counter. |
| Compile.CompileCtx.RunNode | mupyter/compile.py:57-63 | On success, returns exactly the text the unit wrote while captured. A compile or execution error is returned instead of output. `sys.stdout` is restored on both paths, and the real stream receives nothing. |
| Compile.CompileCtx.RunNodes | mupyter/compile.py:65-93 | Computes `ExecuteNodes` on the caller's list and the namespace. As a side effect, it removes a trailing `Expr` from the caller's list. `sys.stdout` is unchanged. |
| Compile.CompileCtx.RunCell | mupyter/compile.py:95-105 | Computes `ExecuteCell` from the old counter, source, file name and namespace. The counter goes up by exactly one, and `sys.stdout` is unchanged. |
| Decimal.ToString | mupyter/compile.py:102 | The rendering of a counter is a non-empty string of decimal digits with no leading zero; 0 is rendered as `0`. |
| Decimal.ParseToString | mupyter/compile.py:102 | Reading back the decimal rendering of a counter gives that counter. |
| Decimal.ToStringInjective | mupyter/compile.py:102 | Different counters render as different decimal strings. |
| Api.Kernel.Create | mupyter/api.py:32-37 | A new kernel has a fresh, empty context, `processed == 0` and the given creation time. |
| Api.KernelAPI.constructor | mupyter/api.py:46-48 | The registry starts empty. |
| Api.KernelAPI.CreateKernel | mupyter/api.py:50-55 | The key becomes stored, with a fresh kernel whose `processed` is 0. Every other entry is unchanged. The key is appended to the listing order unless it was already stored. |
| Api.KernelAPI.ListKernels | mupyter/api.py:78-91 | Returns exactly one entry per stored key, in insertion order and without repeats, as many entries as keys. Each entry carries that kernel's `created_at` and `processed`. |
| Api.KernelAPI.Info | mupyter/api.py:103-113 | Returns NotFound iff the key is not stored. Otherwise it returns that kernel's `created_at` and `processed`. |
| Api.KernelAPI.DeleteKernel | mupyter/api.py:116-126 | Returns what `Info` returned before the call. The key is removed, other keys keep their kernels, and a later lookup is NotFound. An unknown key changes nothing. |
| Api.KernelAPI.KernelProcess | mupyter/api.py:133-161 | An unknown key gives NotFound and changes nothing. Otherwise the cell runs in the kernel's context under `"{first segment}-input-{processed}"`. `processed` grows by exactly one whether the run returned or raised an `Exception`; other exceptions escape uncounted. No other kernel changes. |
| Api.Reply | mupyter/api.py:143-159 | `ok` holds iff the run succeeded, iff `error` is null. On success the output is the run's output list. On failure the error carries `str(err)` as `msg` and the exception's type name as `type`, and the output is the traceback lines. |
| Api.FirstSegment | mupyter/api.py:140 | Returns the prefix of the key before its first '-', or the whole key when it has no '-'. |
| Api.KernelUnitName | mupyter/api.py:140-141 | The unit name is the key's first segment, then `-input-`, then the decimal rendering of `processed` (no leading zero), which reads back as `processed`. |
| Api.KernelUnitNamesDistinct | mupyter/api.py:140-141 | Runs of one kernel with different `processed` values get different unit names. |
| Api.KernelNameIsUsed | mupyter/api.py:141 | The name `kernel_process` passes is never empty, so `run_cell` uses it rather than synthesizing one. |
| Api.Remove | mupyter/api.py:119 | Popping a key keeps exactly the other keys, without repeats; popping a key that is not there changes nothing. |
| Api.RemoveKeepsOrder | mupyter/api.py:119 | Popping a key that occurs once leaves the keys before it and after it in their order. |
| Api.RegistryRoundTrip | mupyter/api.py:30-149 | Using only the handlers' contracts: a new kernel has processed 0. Each process call adds one unless an exception escaped. After delete, the kernel's last metadata is returned and a lookup is NotFound. |

## Left out

- The semantics of Python parsing, `codeop.Compile` and `exec` are not modelled. They are uninterpreted functions of a `Runtime` value. `codeop.Compile` also remembers `__future__` flags between calls, and that state is not modelled.
- The display hook in `'single'` mode is not modelled separately. The text it prints is part of what the runtime reports as written by the unit.
- `global_scope` and `local_scope` are one abstract namespace. Only its persistence across cells matters here.
- FastAPI routing, CORS middleware, pydantic models, `_links_for_kernel`, the `GET /` static page and the `create_kernel` wrapper (which only adds `_links`) are transport glue.
- `uuid.uuid4()` and `dt.datetime.now()` are parameters (`key`, `now`) of `CreateKernel`.
- `traceback.format_tb` and logging are not modelled. Traceback lines come from the runtime as a field of the error. The IndexError that the model raises itself carries no lines.
- The `main()` console REPL of compile.py is console I/O.
- Effects of `exec` outside the context's namespace are not modelled: shared modules, builtins, `sys` and `app._kernels` itself. Neither is its non-determinism (clock, randomness, I/O), since `exec` is a function of the code and the namespace. The isolation of kernels from each other holds only under that assumption.
- Concurrency is out of scope. The code has no lock, and the process-wide `sys.stdout` swap is unsafe under concurrent requests.
- `io.StringIO` is modelled only as a string that writes append to.
