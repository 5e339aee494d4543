/**
 * The parts of the Python runtime that the kernel calls but does not implement:
 * parsing a cell (`compile(..., PyCF_ONLY_AST)`), compiling a syntax tree
 * (`codeop.Compile`) and executing code (`exec`). They are not modelled; a
 * `Runtime` value carries them as uninterpreted total functions, and every
 * property of the model holds for every such runtime.
 */
module Python {
  import opened Wrappers

  /** A top-level statement node of a parsed cell. Only whether it is a bare
      expression statement (`ast.Expr`) matters to the kernel; `source` stands
      for everything else about the node. */
  datatype Node = Node(isExpr: bool, source: string)

  /** The compile modes the kernel uses: `'exec'` and `'single'` (interactive). */
  datatype Mode = ExecMode | SingleMode

  /** The two tree roots the kernel builds: `ast.Module(nodes, [])` and `ast.Interactive(nodes)`. */
  datatype Ast = Module(body: seq<Node>) | Interactive(body: seq<Node>)

  /** What `compile` is asked to compile: a tree, the unit name (the traceback
      file name) and the mode. */
  datatype Code = Code(ast: Ast, name: string, mode: Mode)

  /** A raised Python exception: `type(err).__name__`, `str(err)`, its
      formatted traceback lines, and whether it is an `Exception` (false for
      the other `BaseException`s: `SystemExit`, `KeyboardInterrupt`, ...). */
  datatype PyError = PyError(typeName: string, message: string, traceback: seq<string>, isException: bool)

  /** A runtime value, known to the model only by its representation. */
  datatype Value = Value(repr: string)

  /** The namespace a context executes against. */
  type Namespace = map<string, Value>

  /** The effect of executing one compiled unit: the text it wrote to
      `sys.stdout` (for a `'single'` unit this includes what the display hook
      printed), the exception it raised if any, and the namespace afterwards
      (mutations made before a failure persist). */
  datatype Execution = Execution(written: string, raised: Option<PyError>, after: Namespace)

  datatype Runtime = Runtime(
    parse: (string, string) -> Result<seq<Node>, PyError>, // source text, file name
    compile: Code -> Option<PyError>,                       // Some(err): compilation raised
    exec: (Code, Namespace) -> Execution)

  /** What `nodelist[-1]` raises on an empty list. */
  const IndexError := PyError("IndexError", "list index out of range", [], true)
}
