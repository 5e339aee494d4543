/**
 * The kernel registry of mupyter/api.py: a table from kernel key to kernel,
 * each kernel owning one compilation context and a `processed` counter. The
 * HTTP layer is reduced to its data: a response is either the payload or
 * NotFound (the 404 "No such kernel").
 */
module Api {
  import opened Wrappers
  import opened Python
  import Engine
  import Compile
  import Decimal

  /** `dt.datetime.now()` at creation, opaque to the model. */
  type Timestamp = nat

  /** `Kernel`: metadata around one compilation context. */
  class Kernel {
    const ctx: Compile.CompileCtx
    const createdAt: Timestamp
    var processed: nat

    /** `Kernel.create`: a new, empty context and a zero counter. */
    constructor Create(now: Timestamp)
      ensures fresh(ctx) && ctx.ns == map[] && ctx.compileCount == 0
      ensures createdAt == now && processed == 0
    {
      ctx := new Compile.CompileCtx();
      createdAt := now;
      processed := 0;
    }
  }

  /** A handler's outcome: its payload, the 404 "No such kernel", or an
      exception that escaped the handler. */
  datatype Response<+T> = Found(body: T) | NotFound | Uncaught(error: PyError)

  /** One element of the `GET /kernels` list. */
  datatype KernelEntry = KernelEntry(key: string, createdAt: Timestamp, processed: nat)

  /** The body of `GET /kernels/{key}`, and of `DELETE` (which also says `deleted: true`). */
  datatype KernelInfo = KernelInfo(createdAt: Timestamp, processed: nat)

  datatype ErrorInfo = ErrorInfo(msg: string, typeName: string)

  /** The body of `POST /kernels/{key}/process`. */
  datatype ProcessReply = ProcessReply(ok: bool, error: Option<ErrorInfo>, output: seq<string>)

  /** The reply for a cell's outcome: its outputs, or the exception's message,
      type name and traceback lines. */
  function Reply(result: Result<seq<string>, PyError>): (reply: ProcessReply)
    ensures reply.ok <==> result.Ok?
    ensures reply.ok <==> reply.error.None?
    ensures result.Ok? ==> reply.output == result.value
    ensures result.Err? ==> reply.error.value == ErrorInfo(result.error.message, result.error.typeName)
    ensures result.Err? ==> reply.output == result.error.traceback
  {
    match result
    case Ok(out) => ProcessReply(true, None, out)
    case Err(e) => ProcessReply(false, Some(ErrorInfo(e.message, e.typeName)), e.traceback)
  }

  /** `kid, *_ = key.split("-")`: the text before the first '-', or the whole
      key when it has none. */
  function FirstSegment(key: string): (kid: string)
    ensures kid <= key
    ensures '-' !in kid
    ensures kid == key || key[|kid|] == '-'
    decreases |key|
  {
    if key == [] || key[0] == '-' then [] else [key[0]] + FirstSegment(key[1..])
  }

  /** The unit name `kernel_process` hands to `run_cell`. */
  function KernelUnitName(key: string, processed: nat): (name: string)
    ensures var pre := FirstSegment(key) + "-input-";
      && |name| > |pre|
      && name[..|pre|] == pre
      && (forall i :: |pre| <= i < |name| ==> '0' <= name[i] <= '9')
      && Decimal.Parse(name[|pre|..]) == processed
    ensures name[|FirstSegment(key) + "-input-"|..] == Decimal.ToString(processed)
  {
    var pre := FirstSegment(key) + "-input-";
    var digits := Decimal.ToString(processed);
    Decimal.ParseToString(processed);
    assert (pre + digits)[|pre|..] == digits;
    pre + digits
  }

  /** Successive runs of one kernel get different unit names. */
  lemma KernelUnitNamesDistinct(key: string, m: nat, n: nat)
    requires m != n
    ensures KernelUnitName(key, m) != KernelUnitName(key, n)
  {
  }

  /** The kernel's name is never empty, so `run_cell` uses it rather than a
      synthesized one. */
  lemma KernelNameIsUsed(key: string, processed: nat, count: nat)
    ensures Engine.UnitName(Some(KernelUnitName(key, processed)), count) == KernelUnitName(key, processed)
  {
  }

  predicate Distinct(s: seq<string>)
  {
    forall i, j :: 0 <= i < j < |s| ==> s[i] != s[j]
  }

  /** A list with one key taken out, as `dict.pop` leaves the insertion order. */
  function Remove(s: seq<string>, x: string): (r: seq<string>)
    ensures forall k :: k in r <==> k in s && k != x
    ensures Distinct(s) ==> Distinct(r)
    ensures x !in s ==> r == s
    decreases |s|
  {
    if s == [] then []
    else if s[0] == x then Remove(s[1..], x)
    else
      HeadNotInTail(s);
      [s[0]] + Remove(s[1..], x)
  }

  /** Removing a key that occurs once leaves the others in their order. */
  lemma {:induction false} RemoveKeepsOrder(s: seq<string>, x: string, i: nat)
    requires Distinct(s) && i < |s| && s[i] == x
    ensures Remove(s, x) == s[..i] + s[i + 1..]
    decreases |s|
  {
    HeadNotInTail(s);
    if i == 0 {
      assert x !in s[1..];
    } else {
      RemoveKeepsOrder(s[1..], x, i - 1);
      assert s[1..][..i - 1] == s[1..i];
      assert s[1..][i..] == s[i + 1..];
      assert [s[0]] + s[1..i] == s[..i];
    }
  }

  lemma HeadNotInTail(s: seq<string>)
    requires s != []
    ensures Distinct(s) ==> s[0] !in s[1..] && Distinct(s[1..])
  {
  }

  /** A list without repetitions has as many elements as the set of its elements. */
  lemma {:induction false} DistinctSize(s: seq<string>)
    requires Distinct(s)
    ensures |set k | k in s| == |s|
    decreases |s|
  {
    if s != [] {
      var rest := s[1..];
      HeadNotInTail(s);
      DistinctSize(rest);
      assert (set k | k in s) == (set k | k in rest) + {s[0]};
    }
  }

  /** `KernelAPI`: the table `_kernels`, with its insertion order. */
  class KernelAPI {
    var kernels: map<string, Kernel>
    var order: seq<string>

    ghost function Contexts(): (objs: set<object>)
      reads this
    {
      set k | k in kernels :: kernels[k].ctx as object
    }

    /** The table's invariant: the order lists each key once; no two kernels
        share a context; and no kernel has counted more runs than its
        context has started. */
    ghost predicate Valid()
      reads this, kernels.Values, Contexts()
    {
      && Distinct(order)
      && (forall k :: k in kernels <==> k in order)
      && (forall k1, k2 :: k1 in kernels && k2 in kernels && k1 != k2 ==> kernels[k1].ctx != kernels[k2].ctx)
      && (forall k :: k in kernels ==> kernels[k].processed <= kernels[k].ctx.compileCount)
    }

    constructor ()
      ensures Valid() && kernels == map[] && order == []
    {
      kernels := map[];
      order := [];
    }

    /** `_create_kernel_impl` behind `PUT /kernels`: store a new kernel under
        `key` (the `uuid4` string); the dict assignment would replace a kernel
        already stored under that key. */
    method CreateKernel(key: string, now: Timestamp) returns (k: string)
      requires Valid()
      modifies this
      ensures Valid()
      ensures k == key && kernels.Keys == old(kernels.Keys) + {key}
      ensures fresh(kernels[key]) && fresh(kernels[key].ctx)
      ensures kernels[key].processed == 0 && kernels[key].createdAt == now
      ensures kernels[key].ctx.ns == map[] && kernels[key].ctx.compileCount == 0
      ensures forall other :: other in old(kernels) && other != key ==> kernels[other] == old(kernels[other])
      ensures order == if key in old(kernels) then old(order) else old(order) + [key]
    {
      var kern := new Kernel.Create(now);
      kernels := kernels[key := kern];
      if key !in order {
        order := order + [key];
      }
      k := key;
    }

    function Entries(keys: seq<string>): (es: seq<KernelEntry>)
      requires forall k :: k in keys ==> k in kernels
      reads this, kernels.Values
      ensures |es| == |keys|
      ensures forall i :: 0 <= i < |keys| ==>
        es[i] == KernelEntry(keys[i], kernels[keys[i]].createdAt, kernels[keys[i]].processed)
      decreases |keys|
    {
      if keys == [] then []
      else
        var kern := kernels[keys[0]];
        [KernelEntry(keys[0], kern.createdAt, kern.processed)] + Entries(keys[1..])
    }

    /** `get_kernels`: one entry per stored key, in insertion order, with that
        kernel's creation time and counter. */
    function ListKernels(): (es: seq<KernelEntry>)
      requires Valid()
      reads this, kernels.Values, Contexts()
      ensures |es| == |kernels|
      ensures forall k :: k in kernels <==> exists i :: 0 <= i < |es| && es[i].key == k
      ensures forall i, j :: 0 <= i < j < |es| ==> es[i].key != es[j].key
      ensures |es| == |order| && forall i :: 0 <= i < |es| ==> es[i].key == order[i]
      ensures forall i :: 0 <= i < |es| ==>
        && es[i].key in kernels
        && es[i].createdAt == kernels[es[i].key].createdAt
        && es[i].processed == kernels[es[i].key].processed
    {
      DistinctSize(order);
      assert kernels.Keys == set k | k in order;
      Entries(order)
    }

    /** `kernel_info`: the kernel's metadata, or NotFound for an unknown key. */
    function Info(key: string): (r: Response<KernelInfo>)
      reads this, kernels.Values
      ensures r.NotFound? <==> key !in kernels
      ensures key in kernels ==> r == Found(KernelInfo(kernels[key].createdAt, kernels[key].processed))
    {
      if key in kernels then Found(KernelInfo(kernels[key].createdAt, kernels[key].processed)) else NotFound
    }

    /** `delete_kernel`: remove the kernel and return its metadata, or
        NotFound (and no change) for an unknown key. */
    method DeleteKernel(key: string) returns (r: Response<KernelInfo>)
      requires Valid()
      modifies this
      ensures Valid()
      ensures r == old(Info(key))
      ensures kernels == old(kernels) - {key}
      ensures order == Remove(old(order), key)
      ensures key !in old(kernels) ==> kernels == old(kernels) && order == old(order)
      ensures Info(key) == NotFound
    {
      if key !in kernels {
        return NotFound;
      }
      var kern := kernels[key];
      kernels := kernels - {key};
      order := Remove(order, key);
      r := Found(KernelInfo(kern.createdAt, kern.processed));
    }

    /** The objects running a cell on `key` may change. */
    ghost function KernelObjects(key: string): (objs: set<object>)
      reads this
    {
      if key in kernels then {kernels[key] as object, kernels[key].ctx as object} else {}
    }

    /** `kernel_process`: run the cell in the kernel's context under the name
        `"{first segment of key}-input-{processed}"`, then count the attempt
        whether the run returned or raised an `Exception`. Any other
        `BaseException` escapes `except Exception` uncounted. */
    method KernelProcess(key: string, code: string, sys: Compile.Process) returns (r: Response<ProcessReply>)
      requires Valid()
      modifies KernelObjects(key), sys`stdout
      ensures Valid()
      ensures kernels == old(kernels) && order == old(order)
      ensures key !in kernels ==> r == NotFound
      ensures key in kernels ==>
        var kern := kernels[key];
        var step := Engine.ExecuteCell(sys.runtime, old(kern.ctx.compileCount), code,
          Some(KernelUnitName(key, old(kern.processed))), old(kern.ctx.ns));
        && kern.ctx.ns == step.run.ns
        && kern.ctx.compileCount == old(kern.ctx.compileCount) + 1
        && if step.run.result.Err? && !step.run.result.error.isException
           then r == Uncaught(step.run.result.error) && kern.processed == old(kern.processed)
           else r == Found(Reply(step.run.result)) && kern.processed == old(kern.processed) + 1
      ensures forall k :: k in kernels && k != key ==>
        kernels[k].processed == old(kernels[k].processed) && kernels[k].ctx.ns == old(kernels[k].ctx.ns)
      ensures sys.stdout == old(sys.stdout)
    {
      if key !in kernels {
        return NotFound;
      }
      var kern := kernels[key];
      var kid := FirstSegment(key);
      var output := kern.ctx.RunCell(code, Some(kid + "-input-" + Decimal.ToString(kern.processed)), sys);
      if output.Err? && !output.error.isException {
        return Uncaught(output.error);
      }
      kern.processed := kern.processed + 1;
      r := Found(Reply(output));
    }
  }

  /** How much a `kernel_process` reply adds to the kernel's counter. */
  function Counted(r: Response<ProcessReply>): (n: nat)
    ensures n <= 1
  {
    if r.Found? then 1 else 0
  }

  /** A client of the registry: a new kernel has run nothing; each attempt is
      counted, whether the cell returned or raised an `Exception`; a deleted
      kernel is gone. */
  method RegistryRoundTrip(sys: Compile.Process, key: string, now: Timestamp, first: string, second: string)
    returns (created: Response<KernelInfo>, r1: Response<ProcessReply>, afterOne: Response<KernelInfo>,
             r2: Response<ProcessReply>, afterTwo: Response<KernelInfo>,
             deleted: Response<KernelInfo>, gone: Response<KernelInfo>)
    modifies sys`stdout
    ensures created == Found(KernelInfo(now, 0))
    ensures r1.Found? || r1.Uncaught?
    ensures afterOne == Found(KernelInfo(now, Counted(r1)))
    ensures afterTwo == Found(KernelInfo(now, Counted(r1) + Counted(r2)))
    ensures deleted == afterTwo && gone == NotFound
  {
    var api := new KernelAPI();
    var k := api.CreateKernel(key, now);
    var kern := api.kernels[k];
    created := api.Info(k);
    r1 := api.KernelProcess(k, first, sys);
    assert kern.processed == Counted(r1) && api.kernels[k] == kern;
    afterOne := api.Info(k);
    r2 := api.KernelProcess(k, second, sys);
    assert kern.processed == Counted(r1) + Counted(r2) && api.kernels[k] == kern;
    afterTwo := api.Info(k);
    deleted := api.DeleteKernel(k);
    gone := api.Info(k);
  }
}
