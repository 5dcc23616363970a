/**
  The generate, repair and best-of-N loop (pipeline/orchestrator.py, pipeline/repair.py). The models and
  the gates are an oracle: any answer to any call, which may depend on when the call is made.
 */
module Generation {
  import opened Basics

  /** A generated candidate, by the hash of its normalised code and whatever else it is. */
  datatype Draft = Draft(hash: nat, content: nat)

  datatype Check = Check(name: string, passed: bool)

  /** What the gates say, before dedup: the first gate that refuses, or a quality score. */
  datatype Gates =
    | StaticRefuses
    | SandboxRefuses(checks: seq<Check>)
    | SemanticRefuses(gate: string)
    | AllPass(score: int)

  datatype Rejection = Rejection(stage: string, check: string, repairable: bool)

  datatype Oracle = Oracle(generate: nat -> Option<Draft>, repair: (nat, Draft, Rejection) -> Option<Draft>,
                           gates: (nat, Draft) -> Gates)

  /** A candidate that passed the whole chain, and when. */
  datatype Survivor = Survivor(draft: Draft, score: int, at: nat, viaRepair: bool)

  datatype Evaluation = Survived(survivor: Survivor) | Rejected(rejection: Rejection)

  datatype Policy = Policy(maxAttempts: nat, repairEnabled: bool, maxRounds: nat,
                           bestOfN: bool, maxSurvivors: nat, scoreThreshold: int, coverageThreshold: int)

  /** The report's counters; the `...By` ones are the counters kept per check. */
  datatype Report = Report(
    generated: nat, discarded: nat, passed: nat, rejected: seq<Rejection>,
    attempted: nat, succeeded: nat, failed: nat,
    attemptedBy: multiset<string>, succeededBy: multiset<string>, failedBy: multiset<string>,
    stoppedRounds: nat, stoppedSame: nat, stoppedBudget: nat,
    pursued: nat, extra: nat, selectedBetter: nat,
    published: seq<Survivor>, viaRepair: nat, firstTry: nat, sampled: nat, exhausted: nat)

  const NEW_REPORT := Report(0, 0, 0, [], 0, 0, 0, multiset{}, multiset{}, multiset{}, 0, 0, 0, 0, 0, 0, [], 0, 0, 0, 0)

  /** The report, the calls charged to the spec in hand, and the time. */
  datatype State = State(report: Report, used: nat, tick: nat)

  // ---------------------------------------------------------------- classification

  const REPAIRABLE_CHECKS := {
    "static_gate", "buggy_fails_test", "fixed_passes_test", "stb_claim_matches_execution", "captured_output_matches_claim"}

  function Classify(stage: string, check: string): Rejection {
    Rejection(stage, check, check in REPAIRABLE_CHECKS)
  }

  function Failing(checks: seq<Check>): seq<string> {
    if checks == [] then []
    else (if checks[0].passed then [] else [checks[0].name]) + Failing(checks[1..])
  }

  function ClassifySandbox(checks: seq<Check>): Rejection {
    var failing := Failing(checks);
    if failing == [] then Classify("sandbox_gate", "unknown")
    else
      var rejection := Classify("sandbox_gate", failing[0]);
      if forall i :: 0 <= i < |failing| ==> failing[i] in REPAIRABLE_CHECKS then rejection
      else rejection.(repairable := false)
  }

  lemma {:induction false} FailingIs(checks: seq<Check>)
    ensures forall n :: n in Failing(checks) <==> exists i :: 0 <= i < |checks| && checks[i] == Check(n, false)
  {
    if checks != [] {
      FailingIs(checks[1..]);
      var rest := checks[1..];
      forall n ensures n in Failing(checks) <==> exists i :: 0 <= i < |checks| && checks[i] == Check(n, false) {
        if exists i :: 0 <= i < |checks| && checks[i] == Check(n, false) {
          var i :| 0 <= i < |checks| && checks[i] == Check(n, false);
          if i > 0 {
            assert rest[i - 1] == Check(n, false);
          }
        }
        if n in Failing(rest) {
          var i :| 0 <= i < |rest| && rest[i] == Check(n, false);
          assert checks[i + 1] == Check(n, false);
        }
      }
    }
  }

  /** A sandbox rejection may be repaired exactly when something failed and everything that failed is repairable. */
  lemma SandboxRepairableIff(checks: seq<Check>)
    ensures ClassifySandbox(checks).repairable <==>
            && (exists i :: 0 <= i < |checks| && !checks[i].passed)
            && (forall i :: 0 <= i < |checks| && !checks[i].passed ==> checks[i].name in REPAIRABLE_CHECKS)
    ensures ClassifySandbox(checks).repairable ==> ClassifySandbox(checks).check in REPAIRABLE_CHECKS
  {
    FailingIs(checks);
    var failing := Failing(checks);
    forall i | 0 <= i < |checks| && !checks[i].passed ensures checks[i].name in failing {
      assert checks[i] == Check(checks[i].name, false);
    }
    forall k | 0 <= k < |failing| ensures exists i :: 0 <= i < |checks| && checks[i] == Check(failing[k], false) {
      assert failing[k] in failing;
    }
    if forall i :: 0 <= i < |checks| && !checks[i].passed ==> checks[i].name in REPAIRABLE_CHECKS {
      forall k | 0 <= k < |failing| ensures failing[k] in REPAIRABLE_CHECKS {
        var i :| 0 <= i < |checks| && checks[i] == Check(failing[k], false);
      }
    }
    if failing != [] {
      var i :| 0 <= i < |checks| && checks[i] == Check(failing[0], false);
      assert !checks[i].passed;
    }
    assert "unknown" !in REPAIRABLE_CHECKS by {
      assert |"unknown"| == 7 && |"static_gate"| == 11 && |"buggy_fails_test"| == 16 && |"fixed_passes_test"| == 17
             && |"stb_claim_matches_execution"| == 27 && |"captured_output_matches_claim"| == 29;
    }
  }

  function Evaluate(o: Oracle, tick: nat, d: Draft, pool: set<nat>): Evaluation {
    match o.gates(tick, d)
    case StaticRefuses => Rejected(Classify("static_gate", "static_gate"))
    case SandboxRefuses(checks) => Rejected(ClassifySandbox(checks))
    case SemanticRefuses(gate) => Rejected(Rejection("semantic_gate", gate, false))
    case AllPass(score) =>
      if d.hash in pool then Rejected(Rejection("dedup", "dedup", false))
      else Survived(Survivor(d, score, tick, false))
  }

  // ---------------------------------------------------------------- one lineage

  /** Where a lineage stands: the draft in hand, the rejections repaired so far, and whether the last repair is still open. */
  datatype Line = Line(current: Draft, fixes: seq<Rejection>, open: bool)

  /** How a lineage ends. */
  datatype Ending = Ending(st: State, survivor: Option<Survivor>, fixes: seq<Rejection>)

  predicate Triggered(fixes: seq<Rejection>, check: string) {
    exists i :: 0 <= i < |fixes| && fixes[i].check == check
  }

  function LastCheck(l: Line): string
    requires l.open && l.fixes != []
  {
    l.fixes[|l.fixes| - 1].check
  }

  predicate LineOk(l: Line) {
    l.open ==> l.fixes != []
  }

  function Succeed(r: Report, l: Line): Report
    requires LineOk(l)
  {
    if l.open then r.(succeeded := r.succeeded + 1, succeededBy := r.succeededBy + multiset{LastCheck(l)}) else r
  }

  function Fail(r: Report, l: Line): Report
    requires LineOk(l)
  {
    if l.open then r.(failed := r.failed + 1, failedBy := r.failedBy + multiset{LastCheck(l)}) else r
  }

  function Receipt(r: Report, rejection: Rejection): Report {
    r.(rejected := r.rejected + [rejection])
  }

  function Stop(pol: Policy, st: State, l: Line, rejection: Rejection): Option<Report> {
    var r := st.report;
    if !pol.repairEnabled || !rejection.repairable then Some(r)
    else if |l.fixes| >= pol.maxRounds then Some(r.(stoppedRounds := r.stoppedRounds + 1))
    else if Triggered(l.fixes, rejection.check) then Some(r.(stoppedSame := r.stoppedSame + 1))
    else if st.used >= pol.maxAttempts then Some(r.(stoppedBudget := r.stoppedBudget + 1))
    else None
  }

  function Charge(st: State, rejection: Rejection): State {
    State(st.report.(attempted := st.report.attempted + 1,
                     attemptedBy := st.report.attemptedBy + multiset{rejection.check}),
          st.used + 1, st.tick + 1)
  }

  /** A rejection noted, and with it the failure of a repair still open. */
  function Noted(st: State, l: Line, rejection: Rejection): State
    requires LineOk(l)
  {
    st.(report := Fail(Receipt(st.report, rejection), l), tick := st.tick + 1)
  }

  /** A candidate that survived, and with it the success of a repair still open. */
  function Cleared(st: State, l: Line): State
    requires LineOk(l)
  {
    st.(report := Succeed(st.report, l), tick := st.tick + 1)
  }

  datatype Turn = Ended(ending: Ending) | Goes(st: State, line: Line)

  /** One turn of the loop: evaluate, and on a repairable rejection ask for a repair. */
  function TakeTurn(o: Oracle, pol: Policy, pool: set<nat>, st: State, l: Line): (t: Turn)
    requires LineOk(l)
    ensures t.Goes? ==> LineOk(t.line) && t.line.fixes != []
  {
    match Evaluate(o, st.tick, l.current, pool)
    case Survived(s) => Ended(Ending(Cleared(st, l), Some(s.(viaRepair := l.fixes != [])), l.fixes))
    case Rejected(rejection) =>
      var st2 := Noted(st, l, rejection);
      match Stop(pol, st2, l, rejection)
      case Some(r) => Ended(Ending(st2.(report := r), None, l.fixes))
      case None =>
        var st3, fixes := Charge(st2, rejection), l.fixes + [rejection];
        match o.repair(st2.tick, l.current, rejection)
        case None => Ended(Ending(Discarded(st3, Line(l.current, fixes, true)), None, fixes))
        case Some(d) => Goes(st3, Line(d, fixes, true))
  }

  function Discarded(st: State, l: Line): State
    requires LineOk(l)
  {
    st.(report := Fail(st.report, l))
  }

  /** _run_lineage from any point on. */
  function Lineage(o: Oracle, pol: Policy, pool: set<nat>, st: State, l: Line): (e: Ending)
    requires LineOk(l)
    ensures e.st.used >= st.used
    decreases pol.maxRounds - |l.fixes|
  {
    match TakeTurn(o, pol, pool, st, l)
    case Ended(e) => e
    case Goes(st', l') => Lineage(o, pol, pool, st', l')
  }

  // ---------------------------------------------------------------- one spec

  /** The first survivor of the highest score. */
  function Best(survivors: seq<Survivor>): (b: nat)
    requires survivors != []
    ensures b < |survivors|
  {
    if |survivors| == 1 then 0
    else
      var b := Best(survivors[..|survivors| - 1]);
      if survivors[|survivors| - 1].score > survivors[b].score then |survivors| - 1 else b
  }

  predicate WantMore(pol: Policy, survivors: seq<Survivor>, covered: int, used: nat)
    requires survivors != []
  {
    && |survivors| < pol.maxSurvivors && used < pol.maxAttempts
    && (survivors[Best(survivors)].score < pol.scoreThreshold || covered < pol.coverageThreshold)
  }

  function Generated(st: State, passed: bool): State {
    var r := st.report.(generated := st.report.generated + 1);
    State(if passed then r.(passed := r.passed + 1) else r.(discarded := r.discarded + 1), st.used + 1, st.tick + 1)
  }

  /** The survivors collected for a spec. */
  function Collect(o: Oracle, pol: Policy, pool: set<nat>, covered: int, st: State, survivors: seq<Survivor>)
    : (State, seq<Survivor>)
    decreases pol.maxAttempts - st.used
  {
    if st.used >= pol.maxAttempts then (st, survivors)
    else match o.generate(st.tick)
      case None => Collect(o, pol, pool, covered, Generated(st, false), survivors)
      case Some(d) =>
        var e := Lineage(o, pol, pool, Generated(st, true), Line(d, [], false));
        match e.survivor
        case None => Collect(o, pol, pool, covered, e.st, survivors)
        case Some(s) =>
          var more := survivors + [s];
          if pol.bestOfN && WantMore(pol, more, covered, e.st.used)
          then Collect(o, pol, pool, covered, e.st, more)
          else (e.st, more)
  }

  function Publish(r: Report, survivors: seq<Survivor>): Report
    requires survivors != []
  {
    var b := Best(survivors);
    var noted := if |survivors| == 1 then r
                 else r.(pursued := r.pursued + 1, extra := r.extra + |survivors| - 1,
                         selectedBetter := r.selectedBetter + if b != 0 then 1 else 0);
    var via := survivors[b].viaRepair;
    noted.(published := noted.published + [survivors[b]],
           viaRepair := noted.viaRepair + (if via then 1 else 0), firstTry := noted.firstTry + if via then 0 else 1)
  }

  // ---------------------------------------------------------------- a batch

  type Coverage = map<nat, int>

  datatype Batch = Batch(st: State, pool: set<nat>, coverage: Coverage)

  function CoverageOf(c: Coverage, spec: nat): int {
    if spec in c then c[spec] else 0
  }

  /** What became of a spec: its best survivor published and counted as covered, or the spec exhausted. */
  function Finish(b: Batch, spec: nat, after: State, survivors: seq<Survivor>): Batch {
    if survivors == [] then b.(st := after.(report := after.report.(exhausted := after.report.exhausted + 1)))
    else Batch(after.(report := Publish(after.report, survivors)),
               b.pool + {survivors[Best(survivors)].draft.hash},
               b.coverage[spec := CoverageOf(b.coverage, spec) + 1])
  }

  /** One spec, named by its (type, concept). */
  function ResolveSpec(o: Oracle, pol: Policy, b: Batch, spec: nat): Batch {
    var st := State(b.st.report.(sampled := b.st.report.sampled + 1), 0, b.st.tick);
    var (after, survivors) := Collect(o, pol, b.pool, CoverageOf(b.coverage, spec), st, []);
    Finish(b, spec, after, survivors)
  }

  function RunBatch(o: Oracle, pol: Policy, b: Batch, specs: seq<nat>): Batch
    decreases |specs|
  {
    if specs == [] then b else RunBatch(o, pol, ResolveSpec(o, pol, b, specs[0]), specs[1..])
  }
}
