/**
  Which programs the normal form of pipeline/dedup.py is sound for: for any other, a program that is not
  equivalent has the same normal form.
 */
module DedupCollisions {
  import opened Basics
  import opened DecimalText
  import opened PythonAst
  import opened Dedup

  // ---------------------------------------------------------------- fresh names

  function Fresh(n: nat, i: nat): string {
    seq(n, _ => '_') + ToText(i)
  }

  lemma FreshApart(n: nat, i: nat, j: nat)
    requires Fresh(n, i) == Fresh(n, j)
    ensures i == j
  {
    assert Fresh(n, i)[n..] == ToText(i) && Fresh(n, j)[n..] == ToText(j);
    ToTextInjective(i, j);
  }

  lemma {:induction false} LengthBound(names: set<string>) returns (n: nat)
    ensures forall x :: x in names ==> |x| <= n
    decreases |names|
  {
    if names == {} {
      n := 0;
    } else {
      var x :| x in names;
      var rest := LengthBound(names - {x});
      n := Max(rest, |x|);
    }
  }

  /** As many distinct names as wanted, none of them in use. */
  lemma FreshNames(used: set<string>, m: nat) returns (F: seq<string>)
    ensures |F| == m && NoDuplicates(F) && forall x :: x in F ==> x !in used
  {
    var n := LengthBound(used);
    F := seq(m, i requires 0 <= i => Fresh(n, i));
    forall i, j | 0 <= i < j < |F| ensures F[i] != F[j] {
      if F[i] == F[j] { FreshApart(n, i, j); }
    }
  }

  // ---------------------------------------------------------------- another program of the same form

  /**
    A program's bound names u in the order A of their numbers, and the names v, in order F, that are to
    take their places.
   */
  datatype Swap = Swap(u: set<string>, v: set<string>, A: seq<string>, F: seq<string>)

  ghost predicate SwapOk(w: Swap) {
    && NoDuplicates(w.A) && NoDuplicates(w.F) && |w.A| == |w.F|
    && (forall x :: x in w.A <==> x in w.u) && (forall x :: x in w.F <==> x in w.v)
  }

  /** The number under which a name shows in the normal form, where k names are numbered. */
  ghost function Number(w: Swap, k: nat, x: string): (i: nat)
    requires x in w.A || Captured(|w.A|, k, x)
    ensures i < |w.A|
    ensures if x in w.A then i == Position(w.A, x) else i <= k && x == IdName(i)
  {
    if x in w.A then Position(w.A, x)
    else
      var i: nat :| i < |w.A| && i <= k && x == IdName(i);
      i
  }

  /** The name in its place, and how many names are numbered then. */
  ghost function Replace(w: Swap, k: nat, x: string): (string, nat)
    requires |w.A| == |w.F|
  {
    if x in w.A || Captured(|w.A|, k, x) then (w.F[Number(w, k, x)], Max(k, Number(w, k, x) + 1)) else (x, k)
  }

  /** The tree with every name outside annotations that is bound, or is captured, replaced. */
  ghost function Rewrite(w: Swap, k: nat, n: Node): (Node, nat)
    requires |w.A| == |w.F|
    decreases n, 1
  {
    match n
    case Name(x, c) =>
      var (y, k1) := Replace(w, k, x);
      (Name(y, c), k1)
    case Arg(x, annotation) =>
      var (y, k1) := Replace(w, k, x);
      (Arg(y, annotation), k1)
    case Def(kind, x, before, body, after) =>
      var (y, k0) := Replace(w, k, x);
      var (before', k1) := RewriteAll(w, k0, before);
      var (body', k2) := RewriteAll(w, k1, body);
      var (after', k3) := RewriteAll(w, k2, after);
      (Def(kind, y, before', body', after'), k3)
    case Module(body) =>
      var (body', k1) := RewriteAll(w, k, body);
      (Module(body'), k1)
    case Constant(_) => (n, k)
    case ExprStmt(e) =>
      var (e', k1) := Rewrite(w, k, e);
      (ExprStmt(e'), k1)
    case Other(t, children) =>
      var (children', k1) := RewriteAll(w, k, children);
      (Other(t, children'), k1)
  }

  ghost function RewriteAll(w: Swap, k: nat, ns: seq<Node>): (seq<Node>, nat)
    requires |w.A| == |w.F|
    decreases ns, 0
  {
    if ns == [] then ([], k)
    else
      var (n', k1) := Rewrite(w, k, ns[0]);
      var (ns', k2) := RewriteAll(w, k1, ns[1..]);
      ([n'] + ns', k2)
  }

  /** Numbering the name of number i after k names, when i does not run ahead of them. */
  lemma SeePrefix(F: seq<string>, k: nat, i: nat)
    requires NoDuplicates(F) && i <= k <= |F| && i < |F|
    ensures See(F[..k], F[i]) == F[..Max(k, i + 1)] && Canonical(F[..k], F[i]) == IdName(i)
  {
    if i < k {
      assert F[..k][i] == F[i];
    } else {
      assert F[..k] + [F[k]] == F[..k + 1];
    }
    assert F[..Max(k, i + 1)][i] == F[i];
    PositionUnique(F[..Max(k, i + 1)], F[i], i);
  }

  /** What a replaced name is to the visit of the rewritten tree. */
  ghost predicate Replaced(w: Swap, s: seq<string>, k: nat, x: string) {
    && SwapOk(w) && |s| <= k <= |w.F| && (x in w.A || Captured(|w.A|, k, x))
    && var (y, k') := Replace(w, k, x);
       && k <= k' <= |w.F| && y in w.v
       && See(w.F[..k], y) == w.F[..k']
       && Canonical(w.F[..k], y) == (if x in w.A then Canonical(s, x) else x)
       && (x in w.A ==> |See(s, x)| <= k' && (k == |s| ==> k' == |See(s, x)|))
  }

  lemma ReplacedIs(w: Swap, s: seq<string>, k: nat, x: string)
    requires SwapOk(w) && s <= w.A && |s| <= k <= |w.F|
    requires if x in w.A then See(s, x) <= w.A else Captured(|w.A|, k, x)
    ensures Replaced(w, s, k, x)
  {
    var i := Number(w, k, x);
    if x in w.A {
      NumberToward(w.A, s, x);
    }
    SeePrefix(w.F, k, i);
    assert w.F[i] in w.F;
  }

  /** The bound names of the rewritten tree are those in the places of the bound names. */
  ghost predicate Swapped(w: Swap, bound: set<string>, bound': set<string>)
    requires |w.A| == |w.F|
  {
    bound' <= w.v && forall j :: 0 <= j < |w.A| ==> (w.A[j] in bound <==> w.F[j] in bound')
  }

  lemma SwappedOne(w: Swap, k: nat, x: string)
    requires SwapOk(w) && x in w.A
    ensures Swapped(w, {x}, {Replace(w, k, x).0})
  {
    var i := Position(w.A, x);
    forall j | 0 <= j < |w.A| ensures w.A[j] in {x} <==> w.F[j] in {w.F[i]} {
      if j != i { assert w.A[j] != w.A[i] && w.F[j] != w.F[i]; }
    }
    assert w.F[i] in w.F;
  }

  lemma SwappedUnion(w: Swap, xs: set<string>, xs': set<string>, ys: set<string>, ys': set<string>)
    requires |w.A| == |w.F| && Swapped(w, xs, xs') && Swapped(w, ys, ys')
    ensures Swapped(w, xs + ys, xs' + ys')
  {
  }

  /** What the rewriting asks of a tree. */
  ghost predicate Rewritable(w: Swap, s: seq<string>, s': seq<string>, k: nat, bound: set<string>, names: set<string>) {
    SwapOk(w) && s <= w.A && s' <= w.A && |s| <= k <= |w.F| && bound <= w.u && names !! w.v
  }

  /** The rewritten tree has the same form, captures nothing, and binds the new names. */
  ghost predicate Rewritten(w: Swap, s: seq<string>, k: nat, n: Node)
    requires |w.A| == |w.F| && k <= |w.F|
  {
    var (b, k') := Rewrite(w, k, n);
    && |Norm(w.u, s, n).1| <= k' <= |w.F| && k <= k'
    && Norm(w.v, w.F[..k], b) == (Norm(w.u, s, n).0, w.F[..k'])
    && NoCapture(w.v, |w.F|, w.F[..k], b)
    && AnnotationNames(b) == AnnotationNames(n)
    && Swapped(w, Bound(n), Bound(b))
  }

  ghost predicate RewrittenAll(w: Swap, s: seq<string>, k: nat, ns: seq<Node>)
    requires |w.A| == |w.F| && k <= |w.F|
  {
    var (bs, k') := RewriteAll(w, k, ns);
    && |NormAll(w.u, s, ns).1| <= k' <= |w.F| && k <= k'
    && NormAll(w.v, w.F[..k], bs) == (NormAll(w.u, s, ns).0, w.F[..k'])
    && NoCaptureAll(w.v, |w.F|, w.F[..k], bs)
    && AnnotationNamesAll(bs) == AnnotationNamesAll(ns)
    && Swapped(w, BoundAll(ns), BoundAll(bs))
  }

  lemma {:induction false} RewriteKeepsForm(w: Swap, s: seq<string>, k: nat, n: Node)
    requires Rewritable(w, s, Norm(w.u, s, n).1, k, Bound(n), Names(n)) && PlainAnnotations(n)
    ensures Rewritten(w, s, k, n)
    decreases n, 1
  {
    match n
    case Name(x, c) => NameKeepsForm(w, s, k, n);
    case Arg(x, annotation) =>
      assert x in Bound(n);
      ReplacedIs(w, s, k, x);
      SwappedOne(w, k, x);
    case Def(_, _, _, _, _) =>
      DefParts(w, s, k, n);
      DefForm(w, s, k, n);
      DefNames(w, s, k, n);
    case Module(body) => RewriteAllKeepsForm(w, s, k, body);
    case ExprStmt(e) => RewriteKeepsForm(w, s, k, e);
    case Other(_, children) => RewriteAllKeepsForm(w, s, k, children);
    case Constant(_) =>
  }

  lemma NameKeepsForm(w: Swap, s: seq<string>, k: nat, n: Node)
    requires n.Name? && Rewritable(w, s, Norm(w.u, s, n).1, k, Bound(n), Names(n))
    ensures Rewritten(w, s, k, n)
  {
    if n.id in w.A {
      ReplacedIs(w, s, k, n.id);
      SwappedOne(w, k, n.id);
    } else if Captured(|w.A|, k, n.id) {
      ReplacedIs(w, s, k, n.id);
    } else {
      assert n.id in Names(n);
    }
  }

  /** The four parts of a definition, one after the other. */
  ghost predicate DefRewritten(w: Swap, s: seq<string>, k: nat, n: Node)
    requires n.Def? && |w.A| == |w.F|
  {
    var s0 := See(s, n.name);
    var s1 := NormAll(w.u, s0, n.before).1;
    var s2 := NormAll(w.u, s1, n.body).1;
    var k0 := Replace(w, k, n.name).1;
    var k1 := RewriteAll(w, k0, n.before).1;
    var k2 := RewriteAll(w, k1, n.body).1;
    && Replaced(w, s, k, n.name) && n.name in w.A
    && k0 <= |w.F| && RewrittenAll(w, s0, k0, n.before)
    && k1 <= |w.F| && RewrittenAll(w, s1, k1, n.body)
    && k2 <= |w.F| && RewrittenAll(w, s2, k2, n.after)
  }

  lemma {:induction false} DefParts(w: Swap, s: seq<string>, k: nat, n: Node)
    requires n.Def? && Rewritable(w, s, Norm(w.u, s, n).1, k, Bound(n), Names(n)) && PlainAnnotations(n)
    ensures DefRewritten(w, s, k, n)
    decreases n, 0
  {
    var s0 := See(s, n.name);
    var s1 := NormAll(w.u, s0, n.before).1;
    var k0 := Replace(w, k, n.name).1;
    PrefixNoDuplicates(s, w.A);
    DefStages(w.u, s, n);
    assert n.name in Bound(n);
    ReplacedIs(w, s, k, n.name);
    RewriteAllKeepsForm(w, s0, k0, n.before);
    var k1 := RewriteAll(w, k0, n.before).1;
    RewriteAllKeepsForm(w, s1, k1, n.body);
    RewriteAllKeepsForm(w, NormAll(w.u, s1, n.body).1, RewriteAll(w, k1, n.body).1, n.after);
  }

  lemma DefForm(w: Swap, s: seq<string>, k: nat, n: Node)
    requires n.Def? && |w.A| == |w.F| && k <= |w.F| && DefRewritten(w, s, k, n)
    ensures var (b, k') := Rewrite(w, k, n);
            && |Norm(w.u, s, n).1| <= k' <= |w.F| && k <= k'
            && Norm(w.v, w.F[..k], b) == (Norm(w.u, s, n).0, w.F[..k'])
            && NoCapture(w.v, |w.F|, w.F[..k], b)
  {
  }

  lemma DefNames(w: Swap, s: seq<string>, k: nat, n: Node)
    requires n.Def? && |w.A| == |w.F| && k <= |w.F| && DefRewritten(w, s, k, n)
    ensures var b := Rewrite(w, k, n).0; AnnotationNames(b) == AnnotationNames(n) && Swapped(w, Bound(n), Bound(b))
  {
    var b := Rewrite(w, k, n).0;
    SwappedOne(w, k, n.name);
    SwappedUnion(w, {n.name}, {b.name}, BoundAll(n.before), BoundAll(b.before));
    SwappedUnion(w, {n.name} + BoundAll(n.before), {b.name} + BoundAll(b.before), BoundAll(n.body), BoundAll(b.body));
    SwappedUnion(w, {n.name} + BoundAll(n.before) + BoundAll(n.body), {b.name} + BoundAll(b.before) + BoundAll(b.body),
                 BoundAll(n.after), BoundAll(b.after));
  }

  lemma {:induction false} RewriteAllKeepsForm(w: Swap, s: seq<string>, k: nat, ns: seq<Node>)
    requires Rewritable(w, s, NormAll(w.u, s, ns).1, k, BoundAll(ns), NamesAll(ns)) && PlainAnnotationsAll(ns)
    ensures RewrittenAll(w, s, k, ns)
    decreases ns, 0
  {
    if ns != [] {
      var s1 := Norm(w.u, s, ns[0]).1;
      PrefixNoDuplicates(s, w.A);
      NormGrows(w.u, s, ns[0]);
      NormAllGrows(w.u, s1, ns[1..]);
      RewriteKeepsForm(w, s, k, ns[0]);
      var (n', k1) := Rewrite(w, k, ns[0]);
      RewriteAllKeepsForm(w, s1, k1, ns[1..]);
      var (ns', k2) := RewriteAll(w, k1, ns[1..]);
      assert ([n'] + ns')[1..] == ns';
      SwappedUnion(w, Bound(ns[0]), Bound(n'), BoundAll(ns[1..]), BoundAll(ns'));
    }
  }

  // ---------------------------------------------------------------- it is another program

  lemma OwnImage(r: Renaming, x: string)
    requires SameName(r, x, x)
    ensures x in r ==> x in r.Values
  {
    if x in r { assert r[x] in r.Values; }
  }

  ghost predicate Images(r: Renaming, names: set<string>) {
    forall x :: x in names && x in r ==> x in r.Values
  }

  /** In an annotation that is its own exact copy a name that is renamed is an image too. */
  lemma {:induction false} OwnCopy(r: Renaming, n: Node)
    requires Same(r, true, n, n)
    ensures Images(r, Names(n))
  {
    match n
    case Name(x, _) => OwnImage(r, x);
    case Arg(x, m) =>
      OwnImage(r, x);
      OwnCopyAll(r, m);
    case Def(_, x, before, body, after) =>
      OwnImage(r, x);
      OwnCopyAll(r, before);
      OwnCopyAll(r, body);
      OwnCopyAll(r, after);
    case Module(body) => OwnCopyAll(r, body);
    case ExprStmt(e) => OwnCopy(r, e);
    case Other(_, cs) => OwnCopyAll(r, cs);
    case Constant(_) =>
  }

  lemma {:induction false} OwnCopyAll(r: Renaming, ns: seq<Node>)
    requires SameAll(r, true, ns, ns)
    ensures Images(r, NamesAll(ns))
  {
    if ns != [] {
      OwnCopy(r, ns[0]);
      OwnCopyAll(r, ns[1..]);
    }
  }

  lemma RewriteDocstring(w: Swap, k: nat, n: Node)
    requires |w.A| == |w.F|
    ensures IsDocstring(Rewrite(w, k, n).0) <==> IsDocstring(n)
    ensures IsDocstring(n) ==> Rewrite(w, k, n) == (n, k)
  {
    if n.ExprStmt? {
      var e' := Rewrite(w, k, n.expr).0;
      assert Rewrite(w, k, n).0 == ExprStmt(e');
    }
  }

  lemma RewriteCommutes(w: Swap, k: nat, body: seq<Node>)
    requires |w.A| == |w.F|
    ensures RewriteAll(w, k, StripDocstring(body)) == (StripDocstring(RewriteAll(w, k, body).0), RewriteAll(w, k, body).1)
  {
    if body != [] {
      var (n', k1) := Rewrite(w, k, body[0]);
      var (ns', k2) := RewriteAll(w, k1, body[1..]);
      assert ([n'] + ns')[1..] == ns';
      RewriteDocstring(w, k, body[0]);
    }
  }

  /** The rewritten tree is the program renamed only if nothing was captured and no annotation holds a bound name. */
  ghost predicate OnlyRenamed(w: Swap, s: seq<string>, n: Node)
    requires |w.A| == |w.F|
  {
    TameFrom(w.u, |w.A|, s, n) && Rewrite(w, |s|, n).1 == |Norm(w.u, s, n).1|
  }

  ghost predicate OnlyRenamedAll(w: Swap, s: seq<string>, ns: seq<Node>)
    requires |w.A| == |w.F|
  {
    TameAllFrom(w.u, |w.A|, s, ns) && RewriteAll(w, |s|, ns).1 == |NormAll(w.u, s, ns).1|
  }

  ghost predicate Renames(w: Swap, r: Renaming) {
    r.Keys == w.u && r.Values == w.v
  }

  lemma {:induction false} RenamedMeansTame(w: Swap, r: Renaming, s: seq<string>, n: Node)
    requires Rewritable(w, s, Norm(w.u, s, n).1, |s|, Bound(n), Names(n)) && Renames(w, r)
    requires Same(r, false, n, Rewrite(w, |s|, n).0)
    ensures OnlyRenamed(w, s, n)
    decreases n, 1
  {
    match n
    case Name(x, c) =>
      assert x in Names(n);
      if x in w.A || Captured(|w.A|, |s|, x) { ReplacedIs(w, s, |s|, x); }
    case Arg(x, annotation) =>
      assert x in Bound(n);
      ReplacedIs(w, s, |s|, x);
      OwnCopyAll(r, annotation);
    case Def(_, _, _, _, _) =>
      DefIsToRename(w, r, s, n);
      DefMeansTame(w, r, s, n);
      DefThen(w, s, n);
    case Module(body) => BodyMeansTame(w, r, s, body);
    case ExprStmt(e) => RenamedMeansTame(w, r, s, e);
    case Other(_, children) => AllMeansTame(w, r, s, children);
    case Constant(_) =>
  }

  /** The parts of a definition are each only renamed. */
  ghost predicate DefOnlyRenamed(w: Swap, s: seq<string>, n: Node)
    requires n.Def? && |w.A| == |w.F|
  {
    var s0 := See(s, n.name);
    var s1 := NormAll(w.u, s0, n.before).1;
    var s2 := NormAll(w.u, s1, n.body).1;
    && Replace(w, |s|, n.name).1 == |s0|
    && OnlyRenamedAll(w, s0, n.before) && OnlyRenamedAll(w, s1, n.body) && OnlyRenamedAll(w, s2, n.after)
  }

  /** A definition that is only renamed, and what its parts then meet. */
  ghost predicate DefToRename(w: Swap, r: Renaming, s: seq<string>, n: Node)
    requires n.Def? && |w.A| == |w.F|
  {
    var s0 := See(s, n.name);
    var s1 := NormAll(w.u, s0, n.before).1;
    var s2 := NormAll(w.u, s1, n.body).1;
    var (before', k1) := RewriteAll(w, |s0|, n.before);
    var (body', k2) := RewriteAll(w, k1, n.body);
    && Replace(w, |s|, n.name).1 == |s0|
    && Rewritable(w, s0, s1, |s0|, BoundAll(n.before), NamesAll(n.before))
    && Rewritable(w, s1, s2, |s1|, BoundAll(n.body), NamesAll(n.body))
    && Rewritable(w, s2, NormAll(w.u, s2, n.after).1, |s2|, BoundAll(n.after), NamesAll(n.after))
    && SameAll(r, false, n.before, before')
    && SameAll(r, false, StripDocstring(n.body), StripDocstring(body'))
    && SameAll(r, false, n.after, RewriteAll(w, k2, n.after).0)
  }

  lemma DefIsToRename(w: Swap, r: Renaming, s: seq<string>, n: Node)
    requires n.Def? && Rewritable(w, s, Norm(w.u, s, n).1, |s|, Bound(n), Names(n))
    requires Same(r, false, n, Rewrite(w, |s|, n).0)
    ensures DefToRename(w, r, s, n)
  {
    PrefixNoDuplicates(s, w.A);
    DefStages(w.u, s, n);
    assert n.name in Bound(n);
    ReplacedIs(w, s, |s|, n.name);
  }

  lemma {:induction false} DefMeansTame(w: Swap, r: Renaming, s: seq<string>, n: Node)
    requires n.Def? && |w.A| == |w.F| && Renames(w, r) && DefToRename(w, r, s, n)
    ensures DefOnlyRenamed(w, s, n)
    decreases n, 0
  {
    var s0 := See(s, n.name);
    var s1 := NormAll(w.u, s0, n.before).1;
    AllMeansTame(w, r, s0, n.before);
    BodyMeansTame(w, r, s1, n.body);
    AllMeansTame(w, r, NormAll(w.u, s1, n.body).1, n.after);
  }

  lemma DefThen(w: Swap, s: seq<string>, n: Node)
    requires n.Def? && |w.A| == |w.F| && DefOnlyRenamed(w, s, n)
    ensures OnlyRenamed(w, s, n)
  {
  }

  lemma {:induction false} BodyMeansTame(w: Swap, r: Renaming, s: seq<string>, body: seq<Node>)
    requires Rewritable(w, s, NormAll(w.u, s, body).1, |s|, BoundAll(body), NamesAll(body)) && Renames(w, r)
    requires SameAll(r, false, StripDocstring(body), StripDocstring(RewriteAll(w, |s|, body).0))
    ensures OnlyRenamedAll(w, s, body)
    decreases body, 1
  {
    RewriteCommutes(w, |s|, body);
    StripCommutes(w.u, s, body);
    StripKeepsNames(body);
    StripKeepsCapture(w.u, |w.A|, s, body);
    AllMeansTame(w, r, s, StripDocstring(body));
  }

  lemma {:induction false} AllMeansTame(w: Swap, r: Renaming, s: seq<string>, ns: seq<Node>)
    requires Rewritable(w, s, NormAll(w.u, s, ns).1, |s|, BoundAll(ns), NamesAll(ns)) && Renames(w, r)
    requires SameAll(r, false, ns, RewriteAll(w, |s|, ns).0)
    ensures OnlyRenamedAll(w, s, ns)
    decreases ns, 0
  {
    if ns != [] {
      var s1 := Norm(w.u, s, ns[0]).1;
      PrefixNoDuplicates(s, w.A);
      NormGrows(w.u, s, ns[0]);
      NormAllGrows(w.u, s1, ns[1..]);
      var (n', k1) := Rewrite(w, |s|, ns[0]);
      var (ns', k2) := RewriteAll(w, k1, ns[1..]);
      assert ([n'] + ns')[0] == n' && ([n'] + ns')[1..] == ns';
      RenamedMeansTame(w, r, s, ns[0]);
      AllMeansTame(w, r, s1, ns[1..]);
    }
  }

  // ---------------------------------------------------------------- exactly

  /** A tame program of the same normal form, equivalent only if the program was tame itself. */
  lemma Rival(a: Node) returns (b: Node)
    requires PlainAnnotations(a)
    ensures Tame(b) && NormalForm(a) == NormalForm(b)
    ensures (exists r :: Equivalent(r, a, b)) ==> Tame(a)
  {
    var u, A := Bound(a), Norm(Bound(a), [], a).1;
    NumbersExactlyBound(a);
    var F := FreshNames(Names(a), |A|);
    var v := set x | x in F;
    var w := Swap(u, v, A, F);
    RewriteKeepsForm(w, [], 0, a);
    b := Rewrite(w, 0, a).0;
    SwappedAll(w, Bound(b));
    CountNames(F, v);
    AnnotationNamesAreNames(a);
    assert F[..0] == [];
    forall r | Equivalent(r, a, b) ensures Tame(a) {
      RenamedMeansTame(w, r, [], a);
    }
  }

  lemma SwappedAll(w: Swap, bound: set<string>)
    requires SwapOk(w) && Swapped(w, w.u, bound)
    ensures bound == w.v
  {
    forall y | y in w.v ensures y in bound {
      var j := Position(w.F, y);
      assert w.A[j] in w.A;
    }
  }

  lemma {:induction false} AnnotationNamesAreNames(n: Node)
    ensures AnnotationNames(n) <= Names(n)
  {
    match n
    case Def(_, _, before, body, after) =>
      AnnotationNamesAreNamesAll(before);
      AnnotationNamesAreNamesAll(body);
      AnnotationNamesAreNamesAll(after);
    case Module(body) => AnnotationNamesAreNamesAll(body);
    case ExprStmt(e) => AnnotationNamesAreNames(e);
    case Other(_, children) => AnnotationNamesAreNamesAll(children);
    case _ =>
  }

  lemma {:induction false} AnnotationNamesAreNamesAll(ns: seq<Node>)
    ensures AnnotationNamesAll(ns) <= NamesAll(ns)
  {
    if ns != [] {
      AnnotationNamesAreNames(ns[0]);
      AnnotationNamesAreNamesAll(ns[1..]);
    }
  }

  /**
    Soundness, exactly. A program is tame if and only if no argument annotation of it binds a name and
    every tame program with its normal form is equivalent to it.
   */
  lemma SoundExactlyWhenTame(a: Node)
    ensures Tame(a) <==>
              && PlainAnnotations(a)
              && forall b :: Tame(b) && NormalForm(a) == NormalForm(b) ==> exists r :: Equivalent(r, a, b)
  {
    if Tame(a) {
      TameIsPlain(Bound(a), a);
      forall b | Tame(b) && NormalForm(a) == NormalForm(b) ensures exists r :: Equivalent(r, a, b) {
        NormalFormIsCanonical(a, b);
      }
    } else if PlainAnnotations(a) {
      var b := Rival(a);
      assert !exists r :: Equivalent(r, a, b);
    }
  }

  // ---------------------------------------------------------------- the least collision

  /** x += y */
  function Increment(x: string, y: string): Node {
    Other("AugAssign/Add", [Name(x, Store), Name(y, Load)])
  }

  lemma NormPair(u: set<string>, s: seq<string>, ns: seq<Node>)
    requires |ns| == 2
    ensures var (m', s1) := Norm(u, s, ns[0]);
            var (n', s2) := Norm(u, s1, ns[1]);
            NormAll(u, s, ns) == ([m', n'], s2)
  {
    var (m', s1) := Norm(u, s, ns[0]);
    var (n', s2) := Norm(u, s1, ns[1]);
    var rest := ns[1..];
    assert rest[0] == ns[1] && rest[1..] == [];
    assert NormAll(u, s2, rest[1..]) == ([], s2);
    assert NormAll(u, s1, rest) == ([n'] + [], s2);
    assert NormAll(u, s, ns) == ([m'] + ([n'] + []), s2);
    assert [m'] + ([n'] + []) == [m', n'];
  }

  lemma IncrementForm(y: string)
    ensures Bound(Increment("x", y)) == {"x"}
    ensures NormalForm(Increment("x", y)) == Increment("_id0", if y == "x" then "_id0" else y)
  {
    var cs := [Name("x", Store), Name(y, Load)];
    assert cs[1..][0] == Name(y, Load) && cs[1..][1..] == [];
    assert BoundAll(cs[1..][1..]) == {};
    assert BoundAll(cs[1..]) == {};
    assert BoundAll(cs) == {"x"};
    var s := See([], "x");
    assert ToText(0) == "0" && "_id" + "0" == "_id0" && s == ["x"] && Position(s, "x") == 0;
    var u := Bound(Increment("x", y));
    assert u == BoundAll(cs);
    NormPair(u, [], cs);
  }

  lemma IncrementSame(r: Renaming, y: string, z: string)
    requires Same(r, false, Increment("x", y), Increment("x", z))
    ensures SameName(r, "x", "x") && SameName(r, y, z)
  {
    var cs, ds := [Name("x", Store), Name(y, Load)], [Name("x", Store), Name(z, Load)];
    assert Same(r, false, cs[0], ds[0]) && SameAll(r, false, cs[1..], ds[1..]);
    assert Same(r, false, cs[1..][0], ds[1..][0]);
  }

  /** A free _id0 is taken for the first bound name: two different programs share a normal form. */
  lemma FreeCanonicalNameCollides()
    ensures NormalForm(Increment("x", "x")) == NormalForm(Increment("x", "_id0"))
    ensures !exists r :: Equivalent(r, Increment("x", "x"), Increment("x", "_id0"))
  {
    IncrementForm("x");
    IncrementForm("_id0");
    forall r ensures !Equivalent(r, Increment("x", "x"), Increment("x", "_id0")) {
      if Same(r, false, Increment("x", "x"), Increment("x", "_id0")) {
        IncrementSame(r, "x", "_id0");
      }
    }
  }
}
