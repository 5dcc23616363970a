/**
  What becomes of every draft (pipeline/orchestrator.py, _run_lineage and _resolve_spec): told from the
  oracle's answers alone, a draft that passes every gate and is new to the pool is never lost, and a
  repair that may be asked for is asked for.
 */
module GenerationStories {
  import opened Basics
  import opened Generation
  import opened GenerationLaws

  /** A draft as it was judged; no verdict against it means that it survived. */
  datatype Judged = Judged(draft: Draft, tick: nat, against: Option<Rejection>)

  predicate Acceptable(o: Oracle, pool: set<nat>, j: Judged) {
    o.gates(j.tick, j.draft).AllPass? && j.draft.hash !in pool
  }

  /** The first check that failed, or none did. */
  predicate FirstFailure(checks: seq<Check>, name: string) {
    if forall i :: 0 <= i < |checks| ==> checks[i].passed then name == "unknown"
    else exists i :: 0 <= i < |checks| && !checks[i].passed && checks[i].name == name && forall k :: 0 <= k < i ==> checks[k].passed
  }

  /** Why the gates, or the pool, refuse a draft. */
  predicate Reason(o: Oracle, pool: set<nat>, j: Judged, r: Rejection) {
    match o.gates(j.tick, j.draft)
    case StaticRefuses => r == Rejection("static_gate", "static_gate", true)
    case SandboxRefuses(checks) =>
      && r.stage == "sandbox_gate" && FirstFailure(checks, r.check)
      && (r.repairable <==>
            && (exists i :: 0 <= i < |checks| && !checks[i].passed)
            && forall i :: 0 <= i < |checks| && !checks[i].passed ==> checks[i].name in REPAIRABLE_CHECKS)
    case SemanticRefuses(gate) => r == Rejection("semantic_gate", gate, false)
    case AllPass(_) => j.draft.hash in pool && r == Rejection("dedup", "dedup", false)
  }

  predicate Fair(o: Oracle, pool: set<nat>, j: Judged) {
    match j.against
    case None => Acceptable(o, pool, j)
    case Some(r) => !Acceptable(o, pool, j) && Reason(o, pool, j, r)
  }

  /** A repair may be asked for: enabled, of a repairable rejection, of a check not repaired before, with rounds and calls left. */
  predicate MayRepair(pol: Policy, used: nat, fixes: seq<Rejection>, r: Rejection) {
    && pol.repairEnabled && r.repairable && |fixes| < pol.maxRounds && used < pol.maxAttempts
    && forall i :: 0 <= i < |fixes| ==> fixes[i].check != r.check
  }

  /** The story of a lineage from a draft on: judged, repaired as long as a repair may be asked for, to its end. */
  ghost predicate Told(o: Oracle, pol: Policy, pool: set<nat>, tick: nat, used: nat, fixes: seq<Rejection>, d: Draft,
                       story: seq<Judged>, survivor: Option<Survivor>)
    decreases |story|
  {
    && story != [] && story[0].draft == d && story[0].tick == tick && Fair(o, pool, story[0])
    && match story[0].against
       case None => |story| == 1 && survivor == Some(Survivor(d, o.gates(tick, d).score, tick, fixes != []))
       case Some(r) =>
         var repaired := if MayRepair(pol, used, fixes, r) then o.repair(tick + 1, d, r) else None;
         match repaired
         case None => |story| == 1 && survivor.None?
         case Some(d') => Told(o, pol, pool, tick + 2, used + 1, fixes + [r], d', story[1..], survivor)
  }

  function Listed<T>(x: Option<T>): seq<T> {
    match x case None => [] case Some(v) => [v]
  }

  /** The rejections of a story, in order. */
  function Receipts(story: seq<Judged>): seq<Rejection> {
    if story == [] then [] else Listed(story[0].against) + Receipts(story[1..])
  }

  lemma FailurePush(checks: seq<Check>, name: string)
    requires checks != [] && checks[0].passed && FirstFailure(checks[1..], name)
    ensures FirstFailure(checks, name)
  {
    var rest := checks[1..];
    if forall i :: 0 <= i < |rest| ==> rest[i].passed {
      assert forall i :: 0 < i < |checks| ==> checks[i] == rest[i - 1];
    } else {
      var i :| 0 <= i < |rest| && !rest[i].passed && rest[i].name == name && forall k :: 0 <= k < i ==> rest[k].passed;
      assert checks[i + 1] == rest[i] && forall k :: 0 < k < i + 1 ==> checks[k] == rest[k - 1];
    }
  }

  lemma {:induction false} FirstFailing(checks: seq<Check>)
    ensures FirstFailure(checks, if Failing(checks) == [] then "unknown" else Failing(checks)[0])
  {
    if checks != [] {
      FirstFailing(checks[1..]);
      if checks[0].passed {
        assert Failing(checks) == [] + Failing(checks[1..]);
        FailurePush(checks, if Failing(checks) == [] then "unknown" else Failing(checks)[0]);
      } else {
        assert Failing(checks)[0] == checks[0].name;
      }
    }
  }

  /** The evaluation of a draft, told by the gates and the pool. */
  function JudgedBy(o: Oracle, tick: nat, d: Draft, pool: set<nat>): Judged {
    Judged(d, tick, match Evaluate(o, tick, d, pool) case Survived(_) => None case Rejected(r) => Some(r))
  }

  lemma EvaluateIsFair(o: Oracle, tick: nat, d: Draft, pool: set<nat>)
    ensures Fair(o, pool, JudgedBy(o, tick, d, pool))
    ensures match Evaluate(o, tick, d, pool)
            case Survived(s) => s == Survivor(d, o.gates(tick, d).score, tick, false)
            case Rejected(_) => true
  {
    match o.gates(tick, d)
    case StaticRefuses => StaticIsRepairable();
    case SandboxRefuses(checks) =>
      SandboxRepairableIff(checks);
      FirstFailing(checks);
    case _ =>
  }

  lemma StaticIsRepairable()
    ensures "static_gate" in REPAIRABLE_CHECKS
  {
  }

  lemma StopIsMayNot(pol: Policy, st: State, l: Line, r: Rejection)
    ensures Stop(pol, st, l, r).None? <==> MayRepair(pol, st.used, l.fixes, r)
    ensures Stop(pol, st, l, r).Some? ==> Stop(pol, st, l, r).value.rejected == st.report.rejected
  {
  }

  /** What a lineage reports and where it ends, by its story. */
  ghost predicate Recorded(st: State, e: Ending, story: seq<Judged>) {
    e.st.report.rejected == st.report.rejected + Receipts(story) && e.st.tick > st.tick
  }

  /** A lineage that ends with this turn. */
  lemma EndTold(o: Oracle, pol: Policy, pool: set<nat>, st: State, l: Line, story: seq<Judged>)
    requires LineOk(l) && story == [JudgedBy(o, st.tick, l.current, pool)]
    requires TakeTurn(o, pol, pool, st, l).Ended?
    ensures var e := TakeTurn(o, pol, pool, st, l).ending;
            Told(o, pol, pool, st.tick, st.used, l.fixes, l.current, story, e.survivor) && Recorded(st, e, story)
  {
    EvaluateIsFair(o, st.tick, l.current, pool);
    assert story[1..] == [];
    match Evaluate(o, st.tick, l.current, pool)
    case Survived(s) =>
    case Rejected(r) => StopIsMayNot(pol, Noted(st, l, r), l, r);
  }

  /** A lineage that repairs and goes on. */
  lemma GoTold(o: Oracle, pol: Policy, pool: set<nat>, st: State, l: Line, rest: seq<Judged>, e: Ending)
    requires LineOk(l) && TakeTurn(o, pol, pool, st, l).Goes?
    requires var t := TakeTurn(o, pol, pool, st, l);
             Told(o, pol, pool, t.st.tick, t.st.used, t.line.fixes, t.line.current, rest, e.survivor) && Recorded(t.st, e, rest)
    ensures var story := [JudgedBy(o, st.tick, l.current, pool)] + rest;
            Told(o, pol, pool, st.tick, st.used, l.fixes, l.current, story, e.survivor) && Recorded(st, e, story)
  {
    var j := JudgedBy(o, st.tick, l.current, pool);
    EvaluateIsFair(o, st.tick, l.current, pool);
    var r := Evaluate(o, st.tick, l.current, pool).rejection;
    StopIsMayNot(pol, Noted(st, l, r), l, r);
    assert ([j] + rest)[1..] == rest;
  }

  lemma {:induction false} LineageTold(o: Oracle, pol: Policy, pool: set<nat>, st: State, l: Line) returns (story: seq<Judged>)
    requires LineOk(l)
    ensures var e := Lineage(o, pol, pool, st, l);
            Told(o, pol, pool, st.tick, st.used, l.fixes, l.current, story, e.survivor) && Recorded(st, e, story)
    decreases pol.maxRounds - |l.fixes|
  {
    story := [JudgedBy(o, st.tick, l.current, pool)];
    match TakeTurn(o, pol, pool, st, l)
    case Ended(_) => EndTold(o, pol, pool, st, l, story);
    case Goes(st', l') =>
      var rest := LineageTold(o, pol, pool, st', l');
      GoTold(o, pol, pool, st, l, rest, Lineage(o, pol, pool, st', l'));
      story := story + rest;
  }

  // ---------------------------------------------------------------- a whole spec

  /** One generation call and the lineage it began. */
  datatype Attempt = Attempt(tick: nat, used: nat, draft: Option<Draft>, story: seq<Judged>, survivor: Option<Survivor>)

  ghost predicate Honest(o: Oracle, pol: Policy, pool: set<nat>, a: Attempt) {
    && a.used < pol.maxAttempts && a.draft == o.generate(a.tick)
    && match a.draft
       case None => a.story == [] && a.survivor.None?
       case Some(d) => Told(o, pol, pool, a.tick + 1, a.used + 1, [], d, a.story, a.survivor)
  }

  function Survivors(attempts: seq<Attempt>): seq<Survivor> {
    if attempts == [] then [] else Listed(attempts[0].survivor) + Survivors(attempts[1..])
  }

  function AllReceipts(attempts: seq<Attempt>): seq<Rejection> {
    if attempts == [] then [] else Receipts(attempts[0].story) + AllReceipts(attempts[1..])
  }

  /** Each call comes after the lineage of the one before. */
  predicate InOrder(tick: nat, used: nat, attempts: seq<Attempt>) {
    && (forall i :: 0 <= i < |attempts| ==> tick <= attempts[i].tick && used <= attempts[i].used)
    && (forall i, k :: 0 <= i < k < |attempts| ==> attempts[i].tick < attempts[k].tick && attempts[i].used < attempts[k].used)
  }

  lemma OrderFirst(a: Attempt, tick: nat, used: nat, rest: seq<Attempt>)
    requires InOrder(tick, used, rest) && a.tick < tick && a.used < used
    ensures InOrder(a.tick, a.used, [a] + rest)
  {
  }

  /** The attempts made for a spec. */
  ghost predicate AllHonest(o: Oracle, pol: Policy, pool: set<nat>, attempts: seq<Attempt>) {
    forall i :: 0 <= i < |attempts| ==> Honest(o, pol, pool, attempts[i])
  }

  /** The attempts from a state on, the survivors they add to those before, and their receipts. */
  predicate Comes(st: State, before: seq<Survivor>, after: State, collected: seq<Survivor>, attempts: seq<Attempt>) {
    && InOrder(st.tick, st.used, attempts)
    && collected == before + Survivors(attempts)
    && after.report.rejected == st.report.rejected + AllReceipts(attempts)
  }

  lemma ListsFirst(a: Attempt, rest: seq<Attempt>)
    ensures Survivors([a] + rest) == Listed(a.survivor) + Survivors(rest)
    ensures AllReceipts([a] + rest) == Receipts(a.story) + AllReceipts(rest)
  {
    assert ([a] + rest)[1..] == rest;
  }

  lemma HonestFirst(o: Oracle, pol: Policy, pool: set<nat>, a: Attempt, rest: seq<Attempt>)
    requires Honest(o, pol, pool, a) && AllHonest(o, pol, pool, rest)
    ensures AllHonest(o, pol, pool, [a] + rest)
  {
  }

  /** One attempt before the others. */
  lemma ComesFirst(st: State, before: seq<Survivor>, a: Attempt, next: State, after: State, collected: seq<Survivor>,
                   rest: seq<Attempt>)
    requires a.tick == st.tick < next.tick && a.used == st.used < next.used
    requires next.report.rejected == st.report.rejected + Receipts(a.story)
    requires Comes(next, before + Listed(a.survivor), after, collected, rest)
    ensures Comes(st, before, after, collected, [a] + rest)
  {
    OrderFirst(a, next.tick, next.used, rest);
    ListsFirst(a, rest);
  }

  /** No attempt more. */
  lemma ComesLast(st: State, before: seq<Survivor>)
    ensures Comes(st, before, st, before, [])
  {
  }

  lemma {:induction false} CollectTold(o: Oracle, pol: Policy, pool: set<nat>, covered: int, st: State, before: seq<Survivor>)
    returns (attempts: seq<Attempt>)
    ensures var (after, collected) := Collect(o, pol, pool, covered, st, before);
            Comes(st, before, after, collected, attempts) && AllHonest(o, pol, pool, attempts)
    decreases pol.maxAttempts - st.used
  {
    if st.used >= pol.maxAttempts {
      ComesLast(st, before);
      attempts := [];
    } else {
      var (after, collected) := Collect(o, pol, pool, covered, st, before);
      var a, next := FirstAttempt(o, pol, pool, st);
      var more := before + Listed(a.survivor);
      var rest := [];
      if a.survivor.None? || (pol.bestOfN && WantMore(pol, more, covered, next.used)) {
        rest := CollectTold(o, pol, pool, covered, next, more);
        assert a.survivor.None? ==> more == before;
      } else {
        ComesLast(next, more);
      }
      ComesFirst(st, before, a, next, after, collected, rest);
      HonestFirst(o, pol, pool, a, rest);
      attempts := [a] + rest;
    }
  }

  /** The next generation call with its lineage, and the state after it. */
  lemma FirstAttempt(o: Oracle, pol: Policy, pool: set<nat>, st: State) returns (a: Attempt, next: State)
    requires st.used < pol.maxAttempts
    ensures Honest(o, pol, pool, a) && a.tick == st.tick < next.tick && a.used == st.used < next.used
    ensures next.report.rejected == st.report.rejected + Receipts(a.story)
    ensures match o.generate(st.tick)
            case None => a.survivor.None? && next == Generated(st, false)
            case Some(d) =>
              var e := Lineage(o, pol, pool, Generated(st, true), Line(d, [], false));
              a.survivor == e.survivor && next == e.st
  {
    match o.generate(st.tick)
    case None =>
      a, next := Attempt(st.tick, st.used, None, [], None), Generated(st, false);
    case Some(d) =>
      var begun := Generated(st, true);
      var story := LineageTold(o, pol, pool, begun, Line(d, [], false));
      var e := Lineage(o, pol, pool, begun, Line(d, [], false));
      a, next := Attempt(st.tick, st.used, Some(d), story, e.survivor), e.st;
  }

  // ---------------------------------------------------------------- nothing is lost

  /** Only the last draft of a lineage can be acceptable, and then it is the survivor. */
  lemma {:induction false} AcceptableSurvives(o: Oracle, pol: Policy, pool: set<nat>, tick: nat, used: nat, fixes: seq<Rejection>,
                                              d: Draft, story: seq<Judged>, survivor: Option<Survivor>, k: nat)
    requires Told(o, pol, pool, tick, used, fixes, d, story, survivor) && k < |story|
    ensures Fair(o, pool, story[k])
    ensures Acceptable(o, pool, story[k]) ==> survivor.Some? && survivor.value.draft == story[k].draft && survivor.value.at == story[k].tick
    decreases |story|
  {
    if k > 0 {
      var r := story[0].against.value;
      var d' := o.repair(tick + 1, d, r).value;
      AcceptableSurvives(o, pol, pool, tick + 2, used + 1, fixes + [r], d', story[1..], survivor, k - 1);
    }
  }

  lemma {:induction false} SurvivorListed(attempts: seq<Attempt>, i: nat)
    requires i < |attempts| && attempts[i].survivor.Some?
    ensures attempts[i].survivor.value in Survivors(attempts)
  {
    if i > 0 {
      SurvivorListed(attempts[1..], i - 1);
    }
  }

  /** What befalls each draft of a lineage. */
  ghost predicate Kept(o: Oracle, pool: set<nat>, a: Attempt, survivors: seq<Survivor>) {
    forall k :: 0 <= k < |a.story| ==>
      && Fair(o, pool, a.story[k])
      && (Acceptable(o, pool, a.story[k]) ==> Holds(survivors, a.story[k]))
  }

  lemma LineageKept(o: Oracle, pol: Policy, pool: set<nat>, attempts: seq<Attempt>, i: nat)
    requires i < |attempts| && Honest(o, pol, pool, attempts[i])
    ensures Kept(o, pool, attempts[i], Survivors(attempts))
  {
    var a := attempts[i];
    if a.survivor.Some? { SurvivorListed(attempts, i); }
    forall k | 0 <= k < |a.story|
      ensures Fair(o, pool, a.story[k]) && (Acceptable(o, pool, a.story[k]) ==> Holds(Survivors(attempts), a.story[k]))
    {
      AcceptableSurvives(o, pol, pool, a.tick + 1, a.used + 1, [], a.draft.value, a.story, a.survivor, k);
    }
  }

  predicate Holds(survivors: seq<Survivor>, j: Judged) {
    exists s :: s in survivors && s.draft == j.draft && s.at == j.tick
  }

  /**
    Nothing acceptable is lost. For every spec there are the generation calls it made, each with the story
    of its lineage: every draft judged fairly by the gates and the pool, a repair asked for exactly when one
    may be. The survivors collected are exactly those of these lineages, every draft that passed all gates
    and was new to the pool among them; and the receipts are exactly the rejections of the stories.
   */
  lemma SpecLosesNothing(o: Oracle, pol: Policy, b: Batch, spec: nat) returns (attempts: seq<Attempt>)
    ensures var (st', survivors) := Collected(o, pol, b, spec);
            && AllHonest(o, pol, b.pool, attempts) && InOrder(b.st.tick, 0, attempts)
            && survivors == Survivors(attempts)
            && (forall i :: 0 <= i < |attempts| ==> Kept(o, b.pool, attempts[i], survivors))
            && ResolveSpec(o, pol, b, spec).st.report.rejected == b.st.report.rejected + AllReceipts(attempts)
  {
    var st := State(b.st.report.(sampled := b.st.report.sampled + 1), 0, b.st.tick);
    attempts := CollectTold(o, pol, b.pool, CoverageOf(b.coverage, spec), st, []);
    forall i | 0 <= i < |attempts| ensures Kept(o, b.pool, attempts[i], Survivors(attempts)) {
      LineageKept(o, pol, b.pool, attempts, i);
    }
  }
}
