/** The two visitors of pipeline/dedup.py and normalize_ast, with the state they update. */
module DedupVisitors {
  import opened DecimalText
  import opened PythonAst
  import opened Dedup

  class NameCollector {
    var userNames: set<string>

    constructor ()
      ensures userNames == {}
    {
      userNames := {};
    }

    method Visit(n: Node)
      modifies this
      ensures userNames == old(userNames) + Bound(n)
      decreases n, 1
    {
      match n
      case Name(x, ctx) =>
        if !ctx.Load? { userNames := userNames + {x}; }
      case Arg(x, annotation) =>
        userNames := userNames + {x};
        VisitAll(annotation);
      case Def(_, x, before, body, after) =>
        userNames := userNames + {x};
        VisitAll(before);
        VisitAll(body);
        VisitAll(after);
      case Module(body) => VisitAll(body);
      case Constant(_) =>
      case ExprStmt(e) => Visit(e);
      case Other(_, children) => VisitAll(children);
    }

    method VisitAll(ns: seq<Node>)
      modifies this
      ensures userNames == old(userNames) + BoundAll(ns)
      decreases ns, 0
    {
      if ns != [] {
        Visit(ns[0]);
        VisitAll(ns[1..]);
      }
    }
  }

  class NormalizingTransformer {
    const userNames: set<string>
    var nameMap: map<string, string>
    /** The keys of nameMap in the order they were added. */
    ghost var seen: seq<string>

    constructor (userNames: set<string>)
      ensures this.userNames == userNames && Valid() && seen == []
    {
      this.userNames := userNames;
      nameMap := map[];
      seen := [];
    }

    /** nameMap numbers the names in the order they were seen. */
    ghost predicate Valid()
      reads this
    {
      Numbers(nameMap, seen)
    }

    method CanonicalName(original: string) returns (c: string)
      requires Valid()
      modifies this
      ensures Valid() && seen == See(old(seen), original) && c == Canonical(old(seen), original)
    {
      if original !in nameMap {
        NumbersPush(nameMap, seen, original);
        nameMap := nameMap[original := IdName(|nameMap|)];
        seen := seen + [original];
      }
      c := nameMap[original];
      NumbersAt(nameMap, seen, original);
    }

    method Visit(n: Node) returns (n': Node)
      requires Valid()
      modifies this
      ensures Valid() && (n', seen) == Norm(userNames, old(seen), n)
      decreases n, 1
    {
      match n
      case Name(x, ctx) =>
        n' := n;
        if x in userNames {
          var c := CanonicalName(x);
          n' := Name(c, ctx);
        }
      case Arg(x, annotation) =>
        var c := CanonicalName(x);
        n' := Arg(c, annotation);
      case Def(k, x, before, body, after) =>
        var c := CanonicalName(x);
        var before' := VisitAll(before);
        var body' := VisitAll(body);
        var after' := VisitAll(after);
        n' := Def(k, c, before', StripDocstring(body'), after');
      case Module(body) =>
        var body' := VisitAll(body);
        n' := Module(StripDocstring(body'));
      case Constant(c) => n' := Constant(NormConst(c));
      case ExprStmt(e) =>
        var e' := Visit(e);
        n' := ExprStmt(e');
      case Other(t, children) =>
        var children' := VisitAll(children);
        n' := Other(t, children');
    }

    method VisitAll(ns: seq<Node>) returns (ns': seq<Node>)
      requires Valid()
      modifies this
      ensures Valid() && (ns', seen) == NormAll(userNames, old(seen), ns)
      decreases ns, 0
    {
      if ns == [] {
        ns' := [];
      } else {
        var n' := Visit(ns[0]);
        var rest := VisitAll(ns[1..]);
        ns' := [n'] + rest;
      }
    }
  }

  /** The map numbers these names in their order. */
  ghost predicate Numbers(m: map<string, string>, seen: seq<string>) {
    && NoDuplicates(seen) && |m| == |seen|
    && (forall x :: x in m <==> x in seen)
    && (forall i :: 0 <= i < |seen| ==> m[seen[i]] == IdName(i))
  }

  lemma NumbersPush(m: map<string, string>, seen: seq<string>, x: string)
    requires Numbers(m, seen) && x !in m
    ensures Numbers(m[x := IdName(|m|)], seen + [x])
  {
    var more := seen + [x];
    assert forall i :: 0 <= i < |seen| ==> more[i] == seen[i] && more[i] != x;
    assert more[|seen|] == x;
  }

  lemma NumbersAt(m: map<string, string>, seen: seq<string>, x: string)
    requires Numbers(m, seen) && x in m
    ensures m[x] == IdName(Position(seen, x)) && See(seen, x) == seen
  {
    assert seen[Position(seen, x)] == x;
  }

  /** normalize_ast up to parsing and unparsing. */
  method NormalizeAst(tree: Node) returns (normalized: Node)
    ensures normalized == NormalForm(tree)
  {
    var collector := new NameCollector();
    collector.Visit(tree);
    assert collector.userNames == Bound(tree);
    var transformer := new NormalizingTransformer(collector.userNames);
    normalized := transformer.Visit(tree);
  }

  /** content_hash, for any digest of the normal form. */
  function ContentHash(digest: Node -> string, tree: Node): string {
    digest(NormalForm(tree))
  }

  method IsDuplicate(digest: Node -> string, code: Node, livePoolHashes: set<string>) returns (duplicate: bool)
    ensures duplicate <==> ContentHash(digest, code) in livePoolHashes
  {
    var form := NormalizeAst(code);
    duplicate := digest(form) in livePoolHashes;
  }

  /**
    With a digest that does not collide, a candidate's hash is in the pool exactly when some program
    of the pool is the candidate up to bound names, literals and docstrings.
   */
  lemma InPoolMeansEquivalent(digest: Node -> string, code: Node, pool: set<Node>, livePoolHashes: set<string>)
    requires forall m, n :: digest(m) == digest(n) ==> m == n
    requires Tame(code) && forall p :: p in pool ==> Tame(p)
    requires livePoolHashes == set p | p in pool :: ContentHash(digest, p)
    ensures ContentHash(digest, code) in livePoolHashes
       <==> exists p, r :: p in pool && Equivalent(r, code, p)
  {
    if ContentHash(digest, code) in livePoolHashes {
      var p :| p in pool && ContentHash(digest, p) == ContentHash(digest, code);
      NormalFormIsCanonical(code, p);
    }
    forall p, r | p in pool && Equivalent(r, code, p) ensures ContentHash(digest, code) in livePoolHashes {
      NormalFormIsCanonical(code, p);
      assert ContentHash(digest, p) in livePoolHashes;
    }
  }
}
