/** AST-normalised deduplication (pipeline/dedup.py). */
module Dedup {
  import opened Basics
  import opened DecimalText
  import opened PythonAst

  /** f"_id{i}" */
  function IdName(i: nat): string {
    "_id" + ToText(i)
  }

  lemma IdNameInjective(i: nat, j: nat)
    requires IdName(i) == IdName(j)
    ensures i == j
  {
    assert IdName(i)[3..] == ToText(i) && IdName(j)[3..] == ToText(j);
    ToTextInjective(i, j);
  }

  // ---------------------------------------------------------------- names in order of first visit

  predicate NoDuplicates(s: seq<string>) {
    forall i, j :: 0 <= i < j < |s| ==> s[i] != s[j]
  }

  function Position(s: seq<string>, x: string): (i: nat)
    ensures i <= |s| && (i < |s| <==> x in s)
    ensures i < |s| ==> s[i] == x
  {
    if s == [] || s[0] == x then 0 else 1 + Position(s[1..], x)
  }

  lemma PositionUnique(s: seq<string>, x: string, i: nat)
    requires NoDuplicates(s) && i < |s| && s[i] == x
    ensures Position(s, x) == i
  {
  }

  /** _name_map after _canonical(x), written as the names in the order they were numbered. */
  function See(seen: seq<string>, x: string): seq<string> {
    if x in seen then seen else seen + [x]
  }

  /** _canonical(x) */
  function Canonical(seen: seq<string>, x: string): string {
    IdName(Position(See(seen, x), x))
  }

  // ---------------------------------------------------------------- the transformer as a function

  function NormConst(c: Const): Const {
    match c
    case Number(_) => Number("0")
    case Str(_) => Str("_LIT")
    case Bytes(_) => Bytes("_LIT")
    case _ => c
  }

  /** visit(n): the rewritten node and the name map it leaves. */
  function Norm(u: set<string>, seen: seq<string>, n: Node): (Node, seq<string>)
    decreases n, 1
  {
    match n
    case Name(x, c) => if x in u then (Name(Canonical(seen, x), c), See(seen, x)) else (n, seen)
    case Arg(x, annotation) => (Arg(Canonical(seen, x), annotation), See(seen, x))
    case Def(k, x, before, body, after) =>
      var (before', s1) := NormAll(u, See(seen, x), before);
      var (body', s2) := NormAll(u, s1, body);
      var (after', s3) := NormAll(u, s2, after);
      (Def(k, Canonical(seen, x), before', StripDocstring(body'), after'), s3)
    case Module(body) =>
      var (body', s1) := NormAll(u, seen, body);
      (Module(StripDocstring(body')), s1)
    case Constant(c) => (Constant(NormConst(c)), seen)
    case ExprStmt(e) =>
      var (e', s1) := Norm(u, seen, e);
      (ExprStmt(e'), s1)
    case Other(t, children) =>
      var (children', s1) := NormAll(u, seen, children);
      (Other(t, children'), s1)
  }

  function NormAll(u: set<string>, seen: seq<string>, ns: seq<Node>): (r: (seq<Node>, seq<string>))
    ensures |r.0| == |ns|
    decreases ns, 0
  {
    if ns == [] then ([], seen)
    else
      var (n', s1) := Norm(u, seen, ns[0]);
      var (ns', s2) := NormAll(u, s1, ns[1..]);
      ([n'] + ns', s2)
  }

  function NormalForm(n: Node): Node {
    Norm(Bound(n), [], n).0
  }

  // ---------------------------------------------------------------- docstrings and visiting order

  lemma NormDocstring(u: set<string>, seen: seq<string>, n: Node)
    ensures IsDocstring(Norm(u, seen, n).0) <==> IsDocstring(n)
    ensures IsDocstring(n) ==> Norm(u, seen, n).1 == seen
  {
  }

  /** Stripping after the visit is visiting the stripped body. */
  lemma StripCommutes(u: set<string>, seen: seq<string>, body: seq<Node>)
    ensures NormAll(u, seen, StripDocstring(body))
         == (StripDocstring(NormAll(u, seen, body).0), NormAll(u, seen, body).1)
  {
    if body != [] {
      NormDocstring(u, seen, body[0]);
      var (n', s1) := Norm(u, seen, body[0]);
      var (ns', _) := NormAll(u, s1, body[1..]);
      assert ([n'] + ns')[1..] == ns';
    }
  }

  lemma {:induction false} NormGrows(u: set<string>, seen: seq<string>, n: Node)
    requires NoDuplicates(seen)
    ensures seen <= Norm(u, seen, n).1 && NoDuplicates(Norm(u, seen, n).1)
    decreases n, 1
  {
    match n
    case Def(_, _, _, _, _) => DefStages(u, seen, n);
    case Module(body) => NormAllGrows(u, seen, body);
    case ExprStmt(e) => NormGrows(u, seen, e);
    case Other(_, children) => NormAllGrows(u, seen, children);
    case _ =>
  }

  /** The name map grows from field to field. */
  lemma {:induction false} DefStages(u: set<string>, seen: seq<string>, n: Node)
    requires NoDuplicates(seen) && n.Def?
    ensures var s0 := See(seen, n.name);
            var s1 := NormAll(u, s0, n.before).1;
            var s2 := NormAll(u, s1, n.body).1;
            var s3 := NormAll(u, s2, n.after).1;
            && seen <= s0 <= s1 <= s2 <= s3 && s3 == Norm(u, seen, n).1
            && NoDuplicates(s0) && NoDuplicates(s1) && NoDuplicates(s2) && NoDuplicates(s3)
    decreases n, 0
  {
    var s0 := See(seen, n.name);
    var s1 := NormAll(u, s0, n.before).1;
    NormAllGrows(u, s0, n.before);
    NormAllGrows(u, s1, n.body);
    NormAllGrows(u, NormAll(u, s1, n.body).1, n.after);
  }

  lemma {:induction false} NormAllGrows(u: set<string>, seen: seq<string>, ns: seq<Node>)
    requires NoDuplicates(seen)
    ensures seen <= NormAll(u, seen, ns).1 && NoDuplicates(NormAll(u, seen, ns).1)
    decreases ns, 0
  {
    if ns != [] {
      NormGrows(u, seen, ns[0]);
      NormAllGrows(u, Norm(u, seen, ns[0]).1, ns[1..]);
    }
  }

  // ---------------------------------------------------------------- equivalent programs

  /** Two name maps in step: the i-th name of one is the i-th name of the other, renamed. */
  predicate InStep(r: Renaming, s: seq<string>, t: seq<string>) {
    |s| == |t| && forall i :: 0 <= i < |s| ==> s[i] in r && t[i] == r[s[i]]
  }

  lemma SameMembers(r: Renaming, s: seq<string>, t: seq<string>, x: string)
    requires Injective(r) && InStep(r, s, t) && x in r
    ensures x in s <==> r[x] in t
  {
    if x in s { assert t[Position(s, x)] == r[x]; }
    if r[x] in t { assert s[Position(t, r[x])] in r; }
  }

  lemma SamePosition(r: Renaming, s: seq<string>, t: seq<string>, x: string)
    requires Injective(r) && NoDuplicates(s) && InStep(r, s, t) && x in s && x in r
    ensures Position(t, r[x]) == Position(s, x)
  {
    forall i, j | 0 <= i < j < |t| ensures t[i] != t[j] {
      assert s[i] != s[j];
    }
    PositionUnique(t, r[x], Position(s, x));
  }

  lemma SeeInStep(r: Renaming, s: seq<string>, t: seq<string>, x: string)
    requires Injective(r) && NoDuplicates(s) && InStep(r, s, t) && x in r
    ensures InStep(r, See(s, x), See(t, r[x])) && NoDuplicates(See(s, x))
    ensures Canonical(s, x) == Canonical(t, r[x])
  {
    SameMembers(r, s, t, x);
    assert See(s, x)[if x in s then Position(s, x) else |s|] == x;
    SamePosition(r, See(s, x), See(t, r[x]), x);
  }

  /** r changes none of these names. */
  ghost predicate Fixes(r: Renaming, names: set<string>) {
    forall x :: x in names && x in r ==> r[x] == x
  }

  lemma FixesUnion(r: Renaming, s: set<string>, t: set<string>)
    ensures Fixes(r, s + t) <==> Fixes(r, s) && Fixes(r, t)
  {
  }

  lemma ConsEqual<T>(x: T, xs: seq<T>, y: T, ys: seq<T>)
    ensures [x] + xs == [y] + ys <==> x == y && xs == ys
  {
    assert ([x] + xs)[0] == x && ([x] + xs)[1..] == xs;
    assert ([y] + ys)[0] == y && ([y] + ys)[1..] == ys;
  }

  /** A tree copied exactly but for renaming is the same tree iff none of its names changes. */
  lemma {:induction false} ExactCopy(r: Renaming, a: Node, b: Node)
    requires Same(r, true, a, b)
    ensures a == b <==> Fixes(r, Names(a))
  {
    match (a, b)
    case (Arg(x, m), Arg(y, n)) =>
      ExactCopyAll(r, m, n);
      FixesUnion(r, {x}, NamesAll(m));
    case (Def(k, x, before, body, after), Def(l, y, before', body', after')) =>
      ExactCopyAll(r, before, before');
      ExactCopyAll(r, body, body');
      ExactCopyAll(r, after, after');
      FixesUnion(r, {x}, NamesAll(before));
      FixesUnion(r, {x} + NamesAll(before), NamesAll(body));
      FixesUnion(r, {x} + NamesAll(before) + NamesAll(body), NamesAll(after));
    case (Module(body), Module(body')) => ExactCopyAll(r, body, body');
    case (ExprStmt(e), ExprStmt(f)) => ExactCopy(r, e, f);
    case (Other(t, cs), Other(u, ds)) => ExactCopyAll(r, cs, ds);
    case _ =>
  }

  lemma {:induction false} ExactCopyAll(r: Renaming, a: seq<Node>, b: seq<Node>)
    requires SameAll(r, true, a, b)
    ensures a == b <==> Fixes(r, NamesAll(a))
  {
    if a != [] && b != [] {
      ExactCopy(r, a[0], b[0]);
      ExactCopyAll(r, a[1..], b[1..]);
      FixesUnion(r, Names(a[0]), NamesAll(a[1..]));
      ConsEqual(a[0], a[1..], b[0], b[1..]);
      assert a == [a[0]] + a[1..] && b == [b[0]] + b[1..];
    }
  }

  lemma StripKeepsNames(body: seq<Node>)
    ensures BoundAll(StripDocstring(body)) == BoundAll(body)
    ensures AnnotationNamesAll(StripDocstring(body)) == AnnotationNamesAll(body)
  {
    if body != [] && IsDocstring(body[0]) {
      assert Bound(body[0].expr) == {} && AnnotationNames(body[0].expr) == {};
    }
  }

  /** What the two visits of a and b leave behind. */
  ghost predicate Lockstep(r: Renaming, s: seq<string>, t: seq<string>, a: Node, b: Node) {
    var (a', s'), (b', t') := Norm(r.Keys, s, a), Norm(r.Values, t, b);
    InStep(r, s', t') && NoDuplicates(s') && (a' == b' <==> Fixes(r, AnnotationNames(a)))
  }

  ghost predicate LockstepAll(r: Renaming, s: seq<string>, t: seq<string>, a: seq<Node>, b: seq<Node>) {
    var (a', s'), (b', t') := NormAll(r.Keys, s, a), NormAll(r.Values, t, b);
    InStep(r, s', t') && NoDuplicates(s') && (a' == b' <==> Fixes(r, AnnotationNamesAll(a)))
  }

  lemma {:induction false} VisitsInStep(r: Renaming, s: seq<string>, t: seq<string>, a: Node, b: Node)
    requires Injective(r) && NoDuplicates(s) && InStep(r, s, t)
    requires Same(r, false, a, b) && Bound(a) <= r.Keys
    ensures Lockstep(r, s, t, a, b)
    decreases a, 1
  {
    match (a, b)
    case (Name(x, _), Name(y, _)) =>
      if x in r { SeeInStep(r, s, t, x); }
    case (Arg(x, m), Arg(y, n)) =>
      SeeInStep(r, s, t, x);
      ExactCopyAll(r, m, n);
    case (Def(_, _, _, _, _), Def(_, _, _, _, _)) => DefInStep(r, s, t, a, b);
    case (Module(body), Module(body')) => BodyInStep(r, s, t, body, body');
    case (ExprStmt(e), ExprStmt(f)) => VisitsInStep(r, s, t, e, f);
    case (Other(_, cs), Other(_, ds)) => VisitsAllInStep(r, s, t, cs, ds);
    case _ =>
  }

  lemma {:induction false} DefInStep(r: Renaming, s: seq<string>, t: seq<string>, a: Node, b: Node)
    requires Injective(r) && NoDuplicates(s) && InStep(r, s, t)
    requires a.Def? && b.Def? && Same(r, false, a, b) && Bound(a) <= r.Keys
    ensures Lockstep(r, s, t, a, b)
    decreases a, 0
  {
    SeeInStep(r, s, t, a.name);
    var s0, t0 := See(s, a.name), See(t, b.name);
    VisitsAllInStep(r, s0, t0, a.before, b.before);
    var s1, t1 := NormAll(r.Keys, s0, a.before).1, NormAll(r.Values, t0, b.before).1;
    BodyInStep(r, s1, t1, a.body, b.body);
    var s2, t2 := NormAll(r.Keys, s1, a.body).1, NormAll(r.Values, t1, b.body).1;
    VisitsAllInStep(r, s2, t2, a.after, b.after);
    FixesUnion(r, AnnotationNamesAll(a.before), AnnotationNamesAll(a.body));
    FixesUnion(r, AnnotationNamesAll(a.before) + AnnotationNamesAll(a.body), AnnotationNamesAll(a.after));
  }

  lemma {:induction false} BodyInStep(r: Renaming, s: seq<string>, t: seq<string>, a: seq<Node>, b: seq<Node>)
    requires Injective(r) && NoDuplicates(s) && InStep(r, s, t)
    requires SameAll(r, false, StripDocstring(a), StripDocstring(b)) && BoundAll(a) <= r.Keys
    ensures InStep(r, NormAll(r.Keys, s, a).1, NormAll(r.Values, t, b).1) && NoDuplicates(NormAll(r.Keys, s, a).1)
    ensures StripDocstring(NormAll(r.Keys, s, a).0) == StripDocstring(NormAll(r.Values, t, b).0)
       <==> Fixes(r, AnnotationNamesAll(a))
    decreases a, 1
  {
    StripCommutes(r.Keys, s, a);
    StripCommutes(r.Values, t, b);
    StripKeepsNames(a);
    VisitsAllInStep(r, s, t, StripDocstring(a), StripDocstring(b));
  }

  lemma {:induction false} VisitsAllInStep(r: Renaming, s: seq<string>, t: seq<string>, a: seq<Node>, b: seq<Node>)
    requires Injective(r) && NoDuplicates(s) && InStep(r, s, t)
    requires SameAll(r, false, a, b) && BoundAll(a) <= r.Keys
    ensures LockstepAll(r, s, t, a, b)
    decreases a, 0
  {
    if a != [] && b != [] {
      VisitsInStep(r, s, t, a[0], b[0]);
      var (a', s1) := Norm(r.Keys, s, a[0]);
      var (b', t1) := Norm(r.Values, t, b[0]);
      VisitsAllInStep(r, s1, t1, a[1..], b[1..]);
      ConsEqual(a', NormAll(r.Keys, s1, a[1..]).0, b', NormAll(r.Values, t1, b[1..]).0);
      FixesUnion(r, AnnotationNames(a[0]), AnnotationNamesAll(a[1..]));
    }
  }

  /**
    Completeness, exactly: equivalent programs have one normal form if and only if the renaming
    changes no name inside an argument annotation, which visit_arg leaves as it is.
   */
  lemma EquivalentProgramsCollide(r: Renaming, a: Node, b: Node)
    requires Equivalent(r, a, b)
    ensures NormalForm(a) == NormalForm(b) <==> Fixes(r, AnnotationNames(a))
  {
    VisitsInStep(r, [], [], a, b);
  }

  // ---------------------------------------------------------------- equal normal forms

  /** Where k names are numbered, a bound name of a program with m of them may have to be written so. */
  ghost predicate Captured(m: nat, k: nat, x: string) {
    exists i: nat :: i < m && i <= k && x == IdName(i)
  }

  /** No free name outside annotations stands where the canonical name it is spelled like may have to stand. */
  ghost predicate NoCapture(u: set<string>, m: nat, seen: seq<string>, n: Node)
    decreases n, 1
  {
    match n
    case Name(x, _) => x in u || !Captured(m, |seen|, x)
    case Arg(_, _) => true
    case Def(_, x, before, body, after) =>
      var s0 := See(seen, x);
      var s1 := NormAll(u, s0, before).1;
      && NoCaptureAll(u, m, s0, before) && NoCaptureAll(u, m, s1, body)
      && NoCaptureAll(u, m, NormAll(u, s1, body).1, after)
    case Module(body) => NoCaptureAll(u, m, seen, body)
    case Constant(_) => true
    case ExprStmt(e) => NoCapture(u, m, seen, e)
    case Other(_, children) => NoCaptureAll(u, m, seen, children)
  }

  ghost predicate NoCaptureAll(u: set<string>, m: nat, seen: seq<string>, ns: seq<Node>)
    decreases ns, 0
  {
    ns == [] || (NoCapture(u, m, seen, ns[0]) && NoCaptureAll(u, m, Norm(u, seen, ns[0]).1, ns[1..]))
  }

  lemma StripKeepsCapture(u: set<string>, m: nat, seen: seq<string>, body: seq<Node>)
    ensures NoCaptureAll(u, m, seen, StripDocstring(body)) <==> NoCaptureAll(u, m, seen, body)
  {
    if body != [] && IsDocstring(body[0]) {
      assert NoCapture(u, m, seen, body[0].expr);
      NormDocstring(u, seen, body[0]);
    }
  }

  /** A canonical name stands where it may have to. */
  lemma CanonicalIsCaptured(B: seq<string>, t: seq<string>, y: string)
    requires See(t, y) <= B
    ensures Captured(|B|, |t|, Canonical(t, y))
  {
    var j := Position(See(t, y), y);
    assert See(t, y)[if y in t then Position(t, y) else |t|] == y;
    assert j <= |t| by {
      if y in t { assert See(t, y) == t; }
    }
    assert Canonical(t, y) == IdName(j);
  }

  lemma {:induction false} BoundAreNames(n: Node)
    ensures Bound(n) <= Names(n)
  {
    match n
    case Arg(_, annotation) => BoundAreNamesAll(annotation);
    case Def(_, _, before, body, after) =>
      BoundAreNamesAll(before);
      BoundAreNamesAll(body);
      BoundAreNamesAll(after);
    case Module(body) => BoundAreNamesAll(body);
    case ExprStmt(e) => BoundAreNames(e);
    case Other(_, children) => BoundAreNamesAll(children);
    case _ =>
  }

  lemma {:induction false} BoundAreNamesAll(ns: seq<Node>)
    ensures BoundAll(ns) <= NamesAll(ns)
  {
    if ns != [] {
      BoundAreNames(ns[0]);
      BoundAreNamesAll(ns[1..]);
    }
  }

  ghost predicate Visited(u: set<string>, seen: seq<string>, bound: set<string>, seen': seq<string>) {
    && (forall x :: x in bound ==> x in seen')
    && (forall x :: x in seen' ==> x in seen || x in u)
  }

  /** A visit numbers every bound name, and bound names only. */
  lemma {:induction false} VisitNumbersBound(u: set<string>, seen: seq<string>, n: Node)
    requires NoDuplicates(seen) && Bound(n) <= u && PlainAnnotations(n)
    ensures Visited(u, seen, Bound(n), Norm(u, seen, n).1)
    decreases n, 1
  {
    match n
    case Def(_, _, _, _, _) => DefNumbersBound(u, seen, n);
    case Module(body) => VisitNumbersBoundAll(u, seen, body);
    case ExprStmt(e) => VisitNumbersBound(u, seen, e);
    case Other(_, children) => VisitNumbersBoundAll(u, seen, children);
    case _ =>
  }

  lemma {:induction false} DefNumbersBound(u: set<string>, seen: seq<string>, n: Node)
    requires NoDuplicates(seen) && n.Def? && Bound(n) <= u && PlainAnnotations(n)
    ensures Visited(u, seen, Bound(n), Norm(u, seen, n).1)
    decreases n, 0
  {
    var s0 := See(seen, n.name);
    var s1 := NormAll(u, s0, n.before).1;
    var s2 := NormAll(u, s1, n.body).1;
    DefStages(u, seen, n);
    VisitNumbersBoundAll(u, s0, n.before);
    VisitNumbersBoundAll(u, s1, n.body);
    VisitNumbersBoundAll(u, s2, n.after);
    var s3 := NormAll(u, s2, n.after).1;
    VisitedThen(u, seen, {n.name}, s0, BoundAll(n.before), s1);
    VisitedThen(u, seen, {n.name} + BoundAll(n.before), s1, BoundAll(n.body), s2);
    VisitedThen(u, seen, {n.name} + BoundAll(n.before) + BoundAll(n.body), s2, BoundAll(n.after), s3);
  }

  lemma VisitedThen(u: set<string>, s: seq<string>, xs: set<string>, t: seq<string>, ys: set<string>, v: seq<string>)
    requires Visited(u, s, xs, t) && Visited(u, t, ys, v) && t <= v
    ensures Visited(u, s, xs + ys, v)
  {
  }

  lemma {:induction false} VisitNumbersBoundAll(u: set<string>, seen: seq<string>, ns: seq<Node>)
    requires NoDuplicates(seen) && BoundAll(ns) <= u && PlainAnnotationsAll(ns)
    ensures Visited(u, seen, BoundAll(ns), NormAll(u, seen, ns).1)
    decreases ns, 0
  {
    if ns != [] {
      VisitNumbersBound(u, seen, ns[0]);
      NormGrows(u, seen, ns[0]);
      var s1 := Norm(u, seen, ns[0]).1;
      VisitNumbersBoundAll(u, s1, ns[1..]);
      NormAllGrows(u, s1, ns[1..]);
      VisitedThen(u, seen, Bound(ns[0]), s1, BoundAll(ns[1..]), NormAll(u, s1, ns[1..]).1);
    }
  }

  /** Annotations that hold no bound name bind none. */
  lemma {:induction false} TameIsPlain(u: set<string>, n: Node)
    requires Bound(n) <= u && AnnotationNames(n) !! u
    ensures PlainAnnotations(n)
  {
    match n
    case Arg(_, annotation) => BoundAreNamesAll(annotation);
    case Def(_, _, before, body, after) =>
      TameArePlain(u, before);
      TameArePlain(u, body);
      TameArePlain(u, after);
    case Module(body) => TameArePlain(u, body);
    case ExprStmt(e) => TameIsPlain(u, e);
    case Other(_, children) => TameArePlain(u, children);
    case _ =>
  }

  lemma {:induction false} TameArePlain(u: set<string>, ns: seq<Node>)
    requires BoundAll(ns) <= u && AnnotationNamesAll(ns) !! u
    ensures PlainAnnotationsAll(ns)
  {
    if ns != [] {
      TameIsPlain(u, ns[0]);
      TameArePlain(u, ns[1..]);
    }
  }

  /** The bound names of a normal form are the canonical names of those of the program. */
  ghost predicate Named(A: seq<string>, bound: set<string>, canonical: set<string>) {
    && (forall j :: 0 <= j < |A| && A[j] in bound ==> IdName(j) in canonical)
    && (forall y :: y in canonical ==> exists j: nat :: j < |A| && y == IdName(j))
  }

  lemma NamedUnion(A: seq<string>, xs: set<string>, ys: set<string>, xs': set<string>, ys': set<string>)
    requires Named(A, xs, ys) && Named(A, xs', ys')
    ensures Named(A, xs + xs', ys + ys')
  {
  }

  /** The number of a name toward a finished name map is its position there. */
  lemma NumberToward(A: seq<string>, s: seq<string>, x: string)
    requires NoDuplicates(A) && See(s, x) <= A
    ensures x in A && Position(A, x) <= |s| && Canonical(s, x) == IdName(Position(A, x))
    ensures |See(s, x)| == Max(|s|, Position(A, x) + 1)
    ensures Named(A, {x}, {Canonical(s, x)})
  {
    var i := if x in s then Position(s, x) else |s|;
    assert See(s, x)[i] == x == A[i];
    PositionUnique(A, x, i);
    PrefixNoDuplicates(See(s, x), A);
    PositionUnique(See(s, x), x, i);
    forall j | 0 <= j < |A| && A[j] in {x} ensures j == i {
      PositionUnique(A, x, j);
    }
  }

  lemma {:induction false} FormBinds(u: set<string>, A: seq<string>, s: seq<string>, n: Node)
    requires NoDuplicates(A) && s <= A && Norm(u, s, n).1 <= A && Bound(n) <= u && PlainAnnotations(n)
    ensures Named(A, Bound(n), Bound(Norm(u, s, n).0))
    decreases n, 1
  {
    match n
    case Name(x, c) => if x in u { NumberToward(A, s, x); }
    case Arg(x, annotation) => NumberToward(A, s, x);
    case Def(_, _, _, _, _) => DefBinds(u, A, s, n);
    case Module(body) =>
      FormBindsAll(u, A, s, body);
      StripKeepsNames(NormAll(u, s, body).0);
    case ExprStmt(e) => FormBinds(u, A, s, e);
    case Other(_, children) => FormBindsAll(u, A, s, children);
    case Constant(_) =>
  }

  lemma {:induction false} DefBinds(u: set<string>, A: seq<string>, s: seq<string>, n: Node)
    requires NoDuplicates(A) && s <= A && Norm(u, s, n).1 <= A && n.Def? && Bound(n) <= u && PlainAnnotations(n)
    ensures Named(A, Bound(n), Bound(Norm(u, s, n).0))
    decreases n, 0
  {
    var s0 := See(s, n.name);
    var (before', s1) := NormAll(u, s0, n.before);
    var (body', s2) := NormAll(u, s1, n.body);
    var (after', s3) := NormAll(u, s2, n.after);
    PrefixNoDuplicates(s, A);
    DefStages(u, s, n);
    NumberToward(A, s, n.name);
    FormBindsAll(u, A, s0, n.before);
    FormBindsAll(u, A, s1, n.body);
    FormBindsAll(u, A, s2, n.after);
    StripKeepsNames(body');
    NamedUnion(A, {n.name}, {Canonical(s, n.name)}, BoundAll(n.before), BoundAll(before'));
    NamedUnion(A, {n.name} + BoundAll(n.before), {Canonical(s, n.name)} + BoundAll(before'), BoundAll(n.body), BoundAll(body'));
    NamedUnion(A, {n.name} + BoundAll(n.before) + BoundAll(n.body), {Canonical(s, n.name)} + BoundAll(before') + BoundAll(body'),
               BoundAll(n.after), BoundAll(after'));
  }

  lemma {:induction false} FormBindsAll(u: set<string>, A: seq<string>, s: seq<string>, ns: seq<Node>)
    requires NoDuplicates(A) && s <= A && NormAll(u, s, ns).1 <= A && BoundAll(ns) <= u && PlainAnnotationsAll(ns)
    ensures Named(A, BoundAll(ns), BoundAll(NormAll(u, s, ns).0))
    decreases ns, 0
  {
    if ns != [] {
      var (n', s1) := Norm(u, s, ns[0]);
      var (ns', s2) := NormAll(u, s1, ns[1..]);
      PrefixNoDuplicates(s, A);
      NormGrows(u, s, ns[0]);
      NormAllGrows(u, s1, ns[1..]);
      FormBinds(u, A, s, ns[0]);
      FormBindsAll(u, A, s1, ns[1..]);
      assert ([n'] + ns')[1..] == ns';
      NamedUnion(A, Bound(ns[0]), Bound(n'), BoundAll(ns[1..]), BoundAll(ns'));
    }
  }

  /** Programs with one normal form have as many bound names: those of the form are numbered without a gap. */
  lemma NoFewerNames(A: seq<string>, B: seq<string>, bound: set<string>, bound': set<string>, canonical: set<string>)
    requires Named(A, bound, canonical) && Named(B, bound', canonical)
    requires forall x :: x in B ==> x in bound'
    ensures |B| <= |A|
  {
    if |A| < |B| {
      assert B[|A|] in bound' && IdName(|A|) in canonical;
      var j: nat :| j < |A| && IdName(|A|) == IdName(j);
      IdNameInjective(|A|, j);
      assert false;
    }
  }

  /** r sends the i-th name of one finished name map to the i-th name of the other. */
  ghost predicate Pairing(r: Renaming, A: seq<string>, B: seq<string>) {
    && NoDuplicates(A) && NoDuplicates(B)
    && (forall i :: 0 <= i < |A| && i < |B| ==> A[i] in r && r[A[i]] == B[i])
  }

  /** Two finished visits, of programs whose bound names are u and v. */
  datatype Ends = Ends(r: Renaming, u: set<string>, v: set<string>, A: seq<string>, B: seq<string>)

  /** Two visits in progress that end so. */
  ghost predicate Toward(f: Ends, s: seq<string>, t: seq<string>) {
    && Pairing(f.r, f.A, f.B) && f.r.Keys <= f.u && f.r.Values <= f.v
    && s <= f.A && t <= f.B && |s| == |t| && |f.A| == |f.B|
  }

  lemma PrefixNoDuplicates(s: seq<string>, A: seq<string>)
    requires NoDuplicates(A) && s <= A
    ensures NoDuplicates(s)
  {
  }

  /** Equal canonical names in two visits toward A and B belong to paired names. */
  lemma RecoverName(r: Renaming, A: seq<string>, B: seq<string>, s: seq<string>, t: seq<string>, x: string, y: string)
    requires Pairing(r, A, B) && |s| == |t| && See(s, x) <= A && See(t, y) <= B
    requires Canonical(s, x) == Canonical(t, y)
    ensures SameName(r, x, y) && |See(s, x)| == |See(t, y)|
  {
    var i, j := Position(See(s, x), x), Position(See(t, y), y);
    assert See(s, x)[if x in s then Position(s, x) else |s|] == x;
    assert See(t, y)[if y in t then Position(t, y) else |t|] == y;
    IdNameInjective(i, j);
    assert A[i] == x && B[i] == y;
    PrefixNoDuplicates(See(s, x), A);
    PrefixNoDuplicates(See(t, y), B);
    assert x in s ==> See(s, x) == s && i < |s|;
    assert y in t ==> See(t, y) == t && j < |t|;
    assert x !in s ==> See(s, x)[|s|] == x && Position(See(s, x), x) == |s| by {
      if x !in s { PositionUnique(See(s, x), x, |s|); }
    }
    assert y !in t ==> See(t, y)[|t|] == y && Position(See(t, y), y) == |t| by {
      if y !in t { PositionUnique(See(t, y), y, |t|); }
    }
  }

  /** A tree none of whose names is renamed or an image is its own exact copy. */
  lemma {:induction false} ExactSelf(r: Renaming, a: Node)
    requires Names(a) !! r.Keys && Names(a) !! r.Values
    ensures Same(r, true, a, a)
  {
    match a
    case Name(x, _) => assert x in Names(a);
    case Arg(x, m) =>
      assert x in Names(a);
      ExactSelfAll(r, m);
    case Def(_, x, before, body, after) =>
      assert x in Names(a);
      ExactSelfAll(r, before);
      ExactSelfAll(r, body);
      ExactSelfAll(r, after);
    case Module(body) => ExactSelfAll(r, body);
    case ExprStmt(e) => ExactSelf(r, e);
    case Other(_, cs) => ExactSelfAll(r, cs);
    case Constant(_) =>
  }

  lemma {:induction false} ExactSelfAll(r: Renaming, a: seq<Node>)
    requires NamesAll(a) !! r.Keys && NamesAll(a) !! r.Values
    ensures SameAll(r, true, a, a)
  {
    if a != [] {
      ExactSelf(r, a[0]);
      ExactSelfAll(r, a[1..]);
    }
  }

  /** Nothing captures, from here on, and no bound name stands in an annotation. */
  ghost predicate TameFrom(u: set<string>, m: nat, s: seq<string>, n: Node) {
    NoCapture(u, m, s, n) && AnnotationNames(n) !! u
  }

  ghost predicate TameAllFrom(u: set<string>, m: nat, s: seq<string>, ns: seq<Node>) {
    NoCaptureAll(u, m, s, ns) && AnnotationNamesAll(ns) !! u
  }

  /** Equal canonical forms of two names mean that both are bound or neither is. */
  lemma BothBound(f: Ends, s: seq<string>, t: seq<string>, x: string, y: string, c: Ctx)
    requires Toward(f, s, t) && TameFrom(f.u, |f.A|, s, Name(x, c)) && TameFrom(f.v, |f.A|, t, Name(y, c))
    requires Norm(f.u, s, Name(x, c)).0 == Norm(f.v, t, Name(y, c)).0
    requires Norm(f.u, s, Name(x, c)).1 <= f.A && Norm(f.v, t, Name(y, c)).1 <= f.B
    ensures x in f.u <==> y in f.v
  {
    if x in f.u { CanonicalIsCaptured(f.A, s, x); }
    if y in f.v { CanonicalIsCaptured(f.B, t, y); }
  }

  lemma {:induction false} Recover(f: Ends, s: seq<string>, t: seq<string>, a: Node, b: Node)
    requires Toward(f, s, t) && TameFrom(f.u, |f.A|, s, a) && TameFrom(f.v, |f.A|, t, b)
    requires Norm(f.u, s, a).0 == Norm(f.v, t, b).0
    requires Norm(f.u, s, a).1 <= f.A && Norm(f.v, t, b).1 <= f.B
    ensures Same(f.r, false, a, b) && |Norm(f.u, s, a).1| == |Norm(f.v, t, b).1|
    decreases a, 1
  {
    match (a, b)
    case (Name(x, c), Name(y, _)) =>
      BothBound(f, s, t, x, y, c);
      if x in f.u {
        RecoverName(f.r, f.A, f.B, s, t, x, y);
      }
    case (Arg(x, m), Arg(y, n)) =>
      RecoverName(f.r, f.A, f.B, s, t, x, y);
      ExactSelfAll(f.r, m);
    case (Def(_, _, _, _, _), Def(_, _, _, _, _)) =>
      DefIsReady(f, s, t, a, b);
      RecoverDef(f, s, t, a, b);
    case (Module(body), Module(body')) => RecoverBody(f, s, t, body, body');
    case (ExprStmt(d), ExprStmt(e)) => Recover(f, s, t, d, e);
    case (Other(_, cs), Other(_, ds)) => RecoverAll(f, s, t, cs, ds);
    case _ =>
  }

  /** Two definitions of one form, part by part. */
  ghost predicate DefReady(f: Ends, s: seq<string>, t: seq<string>, a: Node, b: Node)
    requires a.Def? && b.Def?
  {
    var s0, t0 := See(s, a.name), See(t, b.name);
    var (before, s1) := NormAll(f.u, s0, a.before);
    var (before', t1) := NormAll(f.v, t0, b.before);
    var (body, s2) := NormAll(f.u, s1, a.body);
    var (body', t2) := NormAll(f.v, t1, b.body);
    var (after, s3) := NormAll(f.u, s2, a.after);
    var (after', t3) := NormAll(f.v, t2, b.after);
    && s0 <= s1 <= s2 <= s3 <= f.A && t0 <= t1 <= t2 <= t3 <= f.B
    && a.kind == b.kind && Canonical(s, a.name) == Canonical(t, b.name)
    && before == before' && StripDocstring(body) == StripDocstring(body') && after == after'
    && TameAllFrom(f.u, |f.A|, s0, a.before) && TameAllFrom(f.v, |f.A|, t0, b.before)
    && TameAllFrom(f.u, |f.A|, s1, a.body) && TameAllFrom(f.v, |f.A|, t1, b.body)
    && TameAllFrom(f.u, |f.A|, s2, a.after) && TameAllFrom(f.v, |f.A|, t2, b.after)
  }

  lemma DefIsReady(f: Ends, s: seq<string>, t: seq<string>, a: Node, b: Node)
    requires Toward(f, s, t) && TameFrom(f.u, |f.A|, s, a) && TameFrom(f.v, |f.A|, t, b) && a.Def? && b.Def?
    requires Norm(f.u, s, a).0 == Norm(f.v, t, b).0
    requires Norm(f.u, s, a).1 <= f.A && Norm(f.v, t, b).1 <= f.B
    ensures DefReady(f, s, t, a, b)
  {
    PrefixNoDuplicates(s, f.A);
    PrefixNoDuplicates(t, f.B);
    DefStages(f.u, s, a);
    DefStages(f.v, t, b);
  }

  ghost predicate DefRecovered(f: Ends, s: seq<string>, t: seq<string>, a: Node, b: Node)
    requires a.Def? && b.Def?
  {
    var s2 := NormAll(f.u, NormAll(f.u, See(s, a.name), a.before).1, a.body).1;
    var t2 := NormAll(f.v, NormAll(f.v, See(t, b.name), b.before).1, b.body).1;
    && a.kind == b.kind && SameName(f.r, a.name, b.name)
    && SameAll(f.r, false, a.before, b.before)
    && SameAll(f.r, false, StripDocstring(a.body), StripDocstring(b.body))
    && SameAll(f.r, false, a.after, b.after)
    && |NormAll(f.u, s2, a.after).1| == |NormAll(f.v, t2, b.after).1|
  }

  lemma {:induction false} RecoverDef(f: Ends, s: seq<string>, t: seq<string>, a: Node, b: Node)
    requires Toward(f, s, t) && a.Def? && b.Def? && DefReady(f, s, t, a, b)
    ensures DefRecovered(f, s, t, a, b)
    decreases a, 0
  {
    var s0, t0 := See(s, a.name), See(t, b.name);
    var s1, t1 := NormAll(f.u, s0, a.before).1, NormAll(f.v, t0, b.before).1;
    var s2, t2 := NormAll(f.u, s1, a.body).1, NormAll(f.v, t1, b.body).1;
    RecoverName(f.r, f.A, f.B, s, t, a.name, b.name);
    RecoverAll(f, s0, t0, a.before, b.before);
    RecoverBody(f, s1, t1, a.body, b.body);
    RecoverAll(f, s2, t2, a.after, b.after);
  }

  lemma {:induction false} RecoverBody(f: Ends, s: seq<string>, t: seq<string>,
                                       a: seq<Node>, b: seq<Node>)
    requires Toward(f, s, t) && TameAllFrom(f.u, |f.A|, s, a) && TameAllFrom(f.v, |f.A|, t, b)
    requires StripDocstring(NormAll(f.u, s, a).0) == StripDocstring(NormAll(f.v, t, b).0)
    requires NormAll(f.u, s, a).1 <= f.A && NormAll(f.v, t, b).1 <= f.B
    ensures SameAll(f.r, false, StripDocstring(a), StripDocstring(b))
    ensures |NormAll(f.u, s, a).1| == |NormAll(f.v, t, b).1|
    decreases a, 1
  {
    StripCommutes(f.u, s, a);
    StripCommutes(f.v, t, b);
    StripKeepsCapture(f.u, |f.A|, s, a);
    StripKeepsCapture(f.v, |f.A|, t, b);
    StripKeepsNames(a);
    StripKeepsNames(b);
    RecoverAll(f, s, t, StripDocstring(a), StripDocstring(b));
  }

  lemma {:induction false} RecoverAll(f: Ends, s: seq<string>, t: seq<string>,
                                      a: seq<Node>, b: seq<Node>)
    requires Toward(f, s, t) && TameAllFrom(f.u, |f.A|, s, a) && TameAllFrom(f.v, |f.A|, t, b)
    requires NormAll(f.u, s, a).0 == NormAll(f.v, t, b).0
    requires NormAll(f.u, s, a).1 <= f.A && NormAll(f.v, t, b).1 <= f.B
    ensures SameAll(f.r, false, a, b) && |NormAll(f.u, s, a).1| == |NormAll(f.v, t, b).1|
    decreases a, 0
  {
    assert |a| == |b|;
    if a != [] {
      var (a', s1) := Norm(f.u, s, a[0]);
      var (b', t1) := Norm(f.v, t, b[0]);
      PrefixNoDuplicates(s, f.A);
      PrefixNoDuplicates(t, f.B);
      NormGrows(f.u, s, a[0]);
      NormGrows(f.v, t, b[0]);
      NormAllGrows(f.u, s1, a[1..]);
      NormAllGrows(f.v, t1, b[1..]);
      ConsEqual(a', NormAll(f.u, s1, a[1..]).0, b', NormAll(f.v, t1, b[1..]).0);
      Recover(f, s, t, a[0], b[0]);
      RecoverAll(f, s1, t1, a[1..], b[1..]);
    }
  }

  /**
    The programs the normal form is sound for: no bound name stands inside an argument annotation, and no
    free name _idi stands where at least i bound names have been visited, of more than i in all.
   */
  ghost predicate Tame(n: Node) {
    TameFrom(Bound(n), |Bound(n)|, [], n)
  }

  /**
    The normal form is canonical. For tame programs equal normal forms mean exactly: one program up to a
    bijection of bound names, literals within a kind and leading docstrings.
   */
  lemma NormalFormIsCanonical(a: Node, b: Node)
    requires Tame(a) && Tame(b)
    ensures NormalForm(a) == NormalForm(b) <==> exists r :: Equivalent(r, a, b)
  {
    if NormalForm(a) == NormalForm(b) {
      var r := RecoverRenaming(a, b);
    }
    forall r | Equivalent(r, a, b) ensures NormalForm(a) == NormalForm(b) {
      EquivalentProgramsCollide(r, a, b);
    }
  }

  /** The names numbered alike, as far as both maps go. */
  function PairUp(A: seq<string>, B: seq<string>): (r: Renaming) {
    map x | x in A && Position(A, x) < |B| :: B[Position(A, x)]
  }

  lemma PairUpPairs(A: seq<string>, B: seq<string>)
    requires NoDuplicates(A) && NoDuplicates(B)
    ensures Pairing(PairUp(A, B), A, B) && Injective(PairUp(A, B))
    ensures forall y :: y in PairUp(A, B).Values ==> y in B
  {
    var r := PairUp(A, B);
    forall i | 0 <= i < |A| && i < |B| ensures A[i] in r && r[A[i]] == B[i] {
      PositionUnique(A, A[i], i);
    }
    forall x, y | x in r && y in r && r[x] == r[y] ensures x == y {
      assert A[Position(A, x)] == x && A[Position(A, y)] == y;
    }
  }

  lemma PairUpCovers(A: seq<string>, B: seq<string>)
    requires NoDuplicates(A) && |A| == |B|
    ensures forall x :: x in A ==> x in PairUp(A, B)
    ensures forall y :: y in B ==> y in PairUp(A, B).Values
  {
    forall y | y in B ensures y in PairUp(A, B).Values {
      var i := Position(B, y);
      PositionUnique(A, A[i], i);
      assert PairUp(A, B)[A[i]] == y;
    }
  }

  lemma {:induction false} CountNames(A: seq<string>, names: set<string>)
    requires NoDuplicates(A) && forall x :: x in A <==> x in names
    ensures |A| == |names|
  {
    if A == [] {
      assert names == {};
    } else {
      var rest, last := A[..|A| - 1], A[|A| - 1];
      assert A == rest + [last];
      CountNames(rest, names - {last});
    }
  }

  /** The finished name map holds the bound names, each once. */
  lemma NumbersExactlyBound(n: Node)
    requires PlainAnnotations(n)
    ensures NoDuplicates(Norm(Bound(n), [], n).1) && |Norm(Bound(n), [], n).1| == |Bound(n)|
    ensures forall x :: x in Norm(Bound(n), [], n).1 <==> x in Bound(n)
  {
    NormGrows(Bound(n), [], n);
    VisitNumbersBound(Bound(n), [], n);
    CountNames(Norm(Bound(n), [], n).1, Bound(n));
  }

  lemma SameCount(a: Node, b: Node)
    requires PlainAnnotations(a) && PlainAnnotations(b) && NormalForm(a) == NormalForm(b)
    ensures |Bound(a)| == |Bound(b)|
  {
    var A, B := Norm(Bound(a), [], a).1, Norm(Bound(b), [], b).1;
    NumbersExactlyBound(a);
    NumbersExactlyBound(b);
    FormBinds(Bound(a), A, [], a);
    FormBinds(Bound(b), B, [], b);
    NoFewerNames(A, B, Bound(a), Bound(b), Bound(NormalForm(a)));
    NoFewerNames(B, A, Bound(b), Bound(a), Bound(NormalForm(a)));
  }

  lemma RecoverRenaming(a: Node, b: Node) returns (r: Renaming)
    requires Tame(a) && Tame(b) && NormalForm(a) == NormalForm(b)
    ensures Equivalent(r, a, b)
  {
    var A, B := Norm(Bound(a), [], a).1, Norm(Bound(b), [], b).1;
    r := PairUp(A, B);
    TameIsPlain(Bound(a), a);
    TameIsPlain(Bound(b), b);
    NumbersExactlyBound(a);
    NumbersExactlyBound(b);
    SameCount(a, b);
    PairUpPairs(A, B);
    var f := Ends(r, Bound(a), Bound(b), A, B);
    assert Toward(f, [], []);
    Recover(f, [], [], a, b);
    PairUpCovers(A, B);
    assert r.Keys == Bound(a) && r.Values == Bound(b);
  }
}
