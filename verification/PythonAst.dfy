/**
  The part of Python's abstract syntax that pipeline/dedup.py looks at. Every other node class is
  Other: `tag` stands for the class and all its fields that hold no node (operators, attribute and
  keyword names, the length of each list field), `children` for its nodes in field order.
 */
module PythonAst {
  datatype Ctx = Load | Store | Del

  datatype Const =
    | NoneConst
    | BoolConst(b: bool)
    | Number(text: string)
    | Str(text: string)
    | Bytes(text: string)
    | EllipsisConst

  /** `shape` stands for the lengths of the list fields but the body, and for the fields that hold no node but the name. */
  datatype DefKind = FunctionDef(shape: string) | AsyncFunctionDef(shape: string) | ClassDef(shape: string)

  datatype Node =
    | Name(id: string, ctx: Ctx)
    | Arg(arg: string, annotation: seq<Node>)
    | Def(kind: DefKind, name: string, before: seq<Node>, body: seq<Node>, after: seq<Node>)
    | Module(body: seq<Node>)
    | Constant(value: Const)
    | ExprStmt(expr: Node)
    | Other(tag: string, children: seq<Node>)

  predicate IsDocstring(n: Node) {
    n.ExprStmt? && n.expr.Constant? && n.expr.value.Str?
  }

  /** _strip_docstring: a leading docstring goes, and only one. */
  function StripDocstring(body: seq<Node>): seq<Node> {
    if body != [] && IsDocstring(body[0]) then body[1..] else body
  }

  /** The names _NameCollector gathers: stored or deleted names, parameters, functions and classes. */
  function Bound(n: Node): set<string> {
    match n
    case Name(x, ctx) => if ctx.Load? then {} else {x}
    case Arg(x, annotation) => {x} + BoundAll(annotation)
    case Def(_, x, before, body, after) => {x} + BoundAll(before) + BoundAll(body) + BoundAll(after)
    case Module(body) => BoundAll(body)
    case Constant(_) => {}
    case ExprStmt(e) => Bound(e)
    case Other(_, children) => BoundAll(children)
  }

  function BoundAll(ns: seq<Node>): set<string> {
    if ns == [] then {} else Bound(ns[0]) + BoundAll(ns[1..])
  }

  /** Every identifier that occurs in a tree. */
  function Names(n: Node): set<string> {
    match n
    case Name(x, _) => {x}
    case Arg(x, annotation) => {x} + NamesAll(annotation)
    case Def(_, x, before, body, after) => {x} + NamesAll(before) + NamesAll(body) + NamesAll(after)
    case Module(body) => NamesAll(body)
    case Constant(_) => {}
    case ExprStmt(e) => Names(e)
    case Other(_, children) => NamesAll(children)
  }

  function NamesAll(ns: seq<Node>): set<string> {
    if ns == [] then {} else Names(ns[0]) + NamesAll(ns[1..])
  }

  /** The identifiers that occur inside argument annotations. */
  function AnnotationNames(n: Node): set<string> {
    match n
    case Name(_, _) => {}
    case Arg(_, annotation) => NamesAll(annotation)
    case Def(_, _, before, body, after) =>
      AnnotationNamesAll(before) + AnnotationNamesAll(body) + AnnotationNamesAll(after)
    case Module(body) => AnnotationNamesAll(body)
    case Constant(_) => {}
    case ExprStmt(e) => AnnotationNames(e)
    case Other(_, children) => AnnotationNamesAll(children)
  }

  function AnnotationNamesAll(ns: seq<Node>): set<string> {
    if ns == [] then {} else AnnotationNames(ns[0]) + AnnotationNamesAll(ns[1..])
  }

  /** No argument annotation binds a name. */
  predicate PlainAnnotations(n: Node) {
    match n
    case Arg(_, annotation) => BoundAll(annotation) == {}
    case Def(_, _, before, body, after) =>
      PlainAnnotationsAll(before) && PlainAnnotationsAll(body) && PlainAnnotationsAll(after)
    case Module(body) => PlainAnnotationsAll(body)
    case ExprStmt(e) => PlainAnnotations(e)
    case Other(_, children) => PlainAnnotationsAll(children)
    case _ => true
  }

  predicate PlainAnnotationsAll(ns: seq<Node>) {
    ns == [] || (PlainAnnotations(ns[0]) && PlainAnnotationsAll(ns[1..]))
  }

  // ---------------------------------------------------------------- the same program, renamed

  type Renaming = map<string, string>

  ghost predicate Injective(r: Renaming) {
    forall x, y :: x in r && y in r && r[x] == r[y] ==> x == y
  }

  /** A bound name turns into its image; any other name stays and is not captured. */
  predicate SameName(r: Renaming, x: string, y: string) {
    if x in r then y == r[x] else x == y && y !in r.Values
  }

  predicate SameConst(c: Const, d: Const) {
    if c.Number? then d.Number?
    else if c.Str? then d.Str?
    else if c.Bytes? then d.Bytes?
    else c == d
  }

  /**
    b is a with its bound names renamed by r. Unless `exact` (inside annotations), literals may
    differ within their kind and a leading docstring does not matter.
   */
  predicate Same(r: Renaming, exact: bool, a: Node, b: Node)
    decreases a, 1
  {
    match (a, b)
    case (Name(x, c), Name(y, d)) => c == d && SameName(r, x, y)
    case (Arg(x, m), Arg(y, n)) => SameName(r, x, y) && SameAll(r, true, m, n)
    case (Def(k, x, before, body, after), Def(l, y, before', body', after')) =>
      && k == l && SameName(r, x, y)
      && SameAll(r, exact, before, before') && SameAll(r, exact, after, after')
      && SameAll(r, exact, if exact then body else StripDocstring(body), if exact then body' else StripDocstring(body'))
    case (Module(body), Module(body')) =>
      SameAll(r, exact, if exact then body else StripDocstring(body), if exact then body' else StripDocstring(body'))
    case (Constant(c), Constant(d)) => if exact then c == d else SameConst(c, d)
    case (ExprStmt(e), ExprStmt(f)) => Same(r, exact, e, f)
    case (Other(t, cs), Other(u, ds)) => t == u && SameAll(r, exact, cs, ds)
    case _ => false
  }

  predicate SameAll(r: Renaming, exact: bool, a: seq<Node>, b: seq<Node>)
    decreases a, 0
  {
    if a == [] || b == [] then a == b
    else Same(r, exact, a[0], b[0]) && SameAll(r, exact, a[1..], b[1..])
  }

  /** a and b are one program up to a bijection of their bound names, literals and docstrings. */
  ghost predicate Equivalent(r: Renaming, a: Node, b: Node) {
    && Injective(r) && r.Keys == Bound(a) && r.Values == Bound(b)
    && Same(r, false, a, b)
  }
}
