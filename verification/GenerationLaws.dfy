/** What holds of every batch, whatever the models and the gates answer (pipeline/orchestrator.py). */
module GenerationLaws {
  import opened Basics
  import opened Generation

  // ---------------------------------------------------------------- one lineage

  /** The rejections a lineage repaired: all repairable, none twice for one check, no more than the rounds allowed. */
  predicate FixesOk(pol: Policy, fixes: seq<Rejection>) {
    && |fixes| <= pol.maxRounds
    && (forall i :: 0 <= i < |fixes| ==> fixes[i].repairable && fixes[i].check in REPAIRABLE_CHECKS)
    && (forall i, j :: 0 <= i < j < |fixes| ==> fixes[i].check != fixes[j].check)
  }

  /** Every repair is settled, in total and per check, but for the one still open. */
  predicate Books(r: Report, open: multiset<string>) {
    && r.attempted == r.succeeded + r.failed + |open|
    && r.attemptedBy == r.succeededBy + r.failedBy + open
    && r.attempted == |r.attemptedBy|
  }

  function OpenCheck(l: Line): multiset<string>
    requires LineOk(l)
  {
    if l.open then multiset{LastCheck(l)} else multiset{}
  }

  /** What a lineage never touches. */
  predicate SameOutside(r: Report, r': Report) {
    && r'.generated == r.generated && r'.discarded == r.discarded && r'.passed == r.passed
    && r'.published == r.published && r'.viaRepair == r.viaRepair && r'.firstTry == r.firstTry
    && r'.sampled == r.sampled && r'.exhausted == r.exhausted
    && r'.pursued == r.pursued && r'.extra == r.extra && r'.selectedBetter == r.selectedBetter
  }

  /** The candidate, as it is, passed every gate when it was judged, and is new to the pool. */
  ghost predicate Vetted(o: Oracle, pool: set<nat>, s: Survivor) {
    o.gates(s.at, s.draft) == AllPass(s.score) && s.draft.hash !in pool
  }

  lemma RejectionsKnown(o: Oracle, tick: nat, d: Draft, pool: set<nat>)
    ensures match Evaluate(o, tick, d, pool)
            case Survived(s) => Vetted(o, pool, s) && s.draft == d
            case Rejected(r) => r.repairable ==> r.check in REPAIRABLE_CHECKS
  {
    match o.gates(tick, d)
    case SandboxRefuses(checks) => SandboxRepairableIff(checks);
    case _ =>
  }

  /** One repair more: still no check twice. */
  lemma FixesPush(pol: Policy, fixes: seq<Rejection>, r: Rejection)
    requires FixesOk(pol, fixes) && |fixes| < pol.maxRounds
    requires r.repairable && r.check in REPAIRABLE_CHECKS && !Triggered(fixes, r.check)
    ensures FixesOk(pol, fixes + [r])
  {
  }

  lemma SucceedBooks(r: Report, l: Line)
    requires LineOk(l) && Books(r, OpenCheck(l))
    ensures Books(Succeed(r, l), multiset{}) && SameOutside(r, Succeed(r, l)) && Succeed(r, l).attempted == r.attempted
  {
  }

  lemma FailBooks(r: Report, l: Line)
    requires LineOk(l) && Books(r, OpenCheck(l))
    ensures Books(Fail(r, l), multiset{}) && SameOutside(r, Fail(r, l)) && Fail(r, l).attempted == r.attempted
  {
  }

  lemma ChargeBooks(st: State, r: Rejection)
    requires Books(st.report, multiset{})
    ensures Books(Charge(st, r).report, multiset{r.check}) && SameOutside(st.report, Charge(st, r).report)
  {
  }

  /** What a lineage leaves, seen from any point of it. */
  ghost predicate LineageOk(o: Oracle, pol: Policy, pool: set<nat>, st: State, l: Line, e: Ending) {
    && l.fixes <= e.fixes && FixesOk(pol, e.fixes)
    && Books(e.st.report, multiset{}) && SameOutside(st.report, e.st.report)
    && e.st.used == st.used + |e.fixes| - |l.fixes| && e.st.used <= pol.maxAttempts
    && e.st.report.attempted == st.report.attempted + |e.fixes| - |l.fixes|
    && (e.survivor.Some? ==> Vetted(o, pool, e.survivor.value) && (e.survivor.value.viaRepair <==> e.fixes != []))
  }

  lemma NotedBooks(st: State, l: Line, rejection: Rejection)
    requires LineOk(l) && Books(st.report, OpenCheck(l))
    ensures var st2 := Noted(st, l, rejection);
            Books(st2.report, multiset{}) && SameOutside(st.report, st2.report) && st2.report.attempted == st.report.attempted
  {
    FailBooks(Receipt(st.report, rejection), l);
  }

  lemma SurvivedOk(o: Oracle, pol: Policy, pool: set<nat>, st: State, l: Line, s: Survivor)
    requires LineOk(l) && FixesOk(pol, l.fixes) && Books(st.report, OpenCheck(l)) && st.used <= pol.maxAttempts
    requires Evaluate(o, st.tick, l.current, pool) == Survived(s)
    ensures LineageOk(o, pol, pool, st, l, Ending(Cleared(st, l), Some(s.(viaRepair := l.fixes != [])), l.fixes))
  {
    RejectionsKnown(o, st.tick, l.current, pool);
    SucceedBooks(st.report, l);
  }

  lemma StopBooks(pol: Policy, st: State, l: Line, rejection: Rejection)
    requires Books(st.report, multiset{}) && Stop(pol, st, l, rejection).Some?
    ensures var r := Stop(pol, st, l, rejection).value;
            Books(r, multiset{}) && SameOutside(st.report, r) && r.attempted == st.report.attempted
  {
  }

  lemma StoppedOk(o: Oracle, pol: Policy, pool: set<nat>, st: State, l: Line, rejection: Rejection)
    requires LineOk(l) && FixesOk(pol, l.fixes) && Books(st.report, OpenCheck(l)) && st.used <= pol.maxAttempts
    requires Stop(pol, Noted(st, l, rejection), l, rejection).Some?
    ensures var st2 := Noted(st, l, rejection);
            LineageOk(o, pol, pool, st, l, Ending(st2.(report := Stop(pol, st2, l, rejection).value), None, l.fixes))
  {
    NotedBooks(st, l, rejection);
    var st2 := Noted(st, l, rejection);
    StopBooks(pol, st2, l, rejection);
    SameOutsideTwice(st.report, st2.report, Stop(pol, st2, l, rejection).value);
  }

  /** A turn that ends the lineage leaves it in order. */
  lemma EndedOk(o: Oracle, pol: Policy, pool: set<nat>, st: State, l: Line)
    requires LineOk(l) && FixesOk(pol, l.fixes) && Books(st.report, OpenCheck(l)) && st.used <= pol.maxAttempts
    requires var t := TakeTurn(o, pol, pool, st, l); t.Ended? && t.ending.fixes == l.fixes
    ensures LineageOk(o, pol, pool, st, l, TakeTurn(o, pol, pool, st, l).ending)
  {
    match Evaluate(o, st.tick, l.current, pool)
    case Survived(s) => SurvivedOk(o, pol, pool, st, l, s);
    case Rejected(rejection) => StoppedOk(o, pol, pool, st, l, rejection);
  }

  /** The charge for a repair: one call, one more attempt, and its check open. */
  lemma ChargedOk(o: Oracle, pol: Policy, pool: set<nat>, st: State, l: Line, rejection: Rejection)
    requires LineOk(l) && FixesOk(pol, l.fixes) && Books(st.report, OpenCheck(l)) && st.used <= pol.maxAttempts
    requires Evaluate(o, st.tick, l.current, pool) == Rejected(rejection)
    requires Stop(pol, Noted(st, l, rejection), l, rejection).None?
    ensures var st3 := Charge(Noted(st, l, rejection), rejection);
            && FixesOk(pol, l.fixes + [rejection]) && Books(st3.report, multiset{rejection.check})
            && SameOutside(st.report, st3.report)
            && st3.used == st.used + 1 <= pol.maxAttempts && st3.report.attempted == st.report.attempted + 1
  {
    RejectionsKnown(o, st.tick, l.current, pool);
    NotedBooks(st, l, rejection);
    FixesPush(pol, l.fixes, rejection);
    var st2 := Noted(st, l, rejection);
    ChargeBooks(st2, rejection);
    SameOutsideTwice(st.report, st2.report, Charge(st2, rejection).report);
  }

  /** A line that repairs and goes on is in order if the rest of it is. */
  lemma RepairedOk(o: Oracle, pol: Policy, pool: set<nat>, st: State, l: Line, st3: State, l3: Line, e: Ending)
    requires LineageOk(o, pol, pool, st3, l3, e)
    requires SameOutside(st.report, st3.report) && st3.used == st.used + 1 && st3.report.attempted == st.report.attempted + 1
    requires l.fixes <= l3.fixes && |l3.fixes| == |l.fixes| + 1
    ensures LineageOk(o, pol, pool, st, l, e)
  {
    SameOutsideTwice(st.report, st3.report, e.st.report);
  }

  /** A repair whose answer was discarded. */
  lemma DiscardedOk(o: Oracle, pol: Policy, pool: set<nat>, st3: State, l3: Line)
    requires LineOk(l3) && FixesOk(pol, l3.fixes) && st3.used <= pol.maxAttempts && Books(st3.report, OpenCheck(l3))
    ensures LineageOk(o, pol, pool, st3, l3, Ending(Discarded(st3, l3), None, l3.fixes))
  {
    FailBooks(st3.report, l3);
  }

  lemma {:induction false} LineageKeeps(o: Oracle, pol: Policy, pool: set<nat>, st: State, l: Line)
    requires LineOk(l) && FixesOk(pol, l.fixes) && Books(st.report, OpenCheck(l)) && st.used <= pol.maxAttempts
    ensures LineageOk(o, pol, pool, st, l, Lineage(o, pol, pool, st, l))
    decreases pol.maxRounds - |l.fixes|
  {
    var t := TakeTurn(o, pol, pool, st, l);
    if t.Ended? && t.ending.fixes == l.fixes {
      EndedOk(o, pol, pool, st, l);
    } else {
      var rejection := Evaluate(o, st.tick, l.current, pool).rejection;
      ChargedOk(o, pol, pool, st, l, rejection);
      var st3 := Charge(Noted(st, l, rejection), rejection);
      var l3 := if t.Goes? then t.line else Line(l.current, l.fixes + [rejection], true);
      if t.Goes? {
        LineageKeeps(o, pol, pool, st3, l3);
      } else {
        DiscardedOk(o, pol, pool, st3, l3);
      }
      RepairedOk(o, pol, pool, st, l, st3, l3, Lineage(o, pol, pool, st, l));
    }
  }

  lemma SameOutsideTwice(a: Report, b: Report, c: Report)
    requires SameOutside(a, b) && SameOutside(b, c)
    ensures SameOutside(a, c)
  {
  }

  // ---------------------------------------------------------------- one spec

  /** best = max(survivors): no score is higher, and no earlier one is as high. */
  lemma {:induction false} BestIsFirstMaximum(survivors: seq<Survivor>)
    requires survivors != []
    ensures var b := Best(survivors);
            && (forall k :: 0 <= k < |survivors| ==> survivors[k].score <= survivors[b].score)
            && (forall k :: 0 <= k < b ==> survivors[k].score < survivors[b].score)
  {
    if |survivors| > 1 {
      var rest := survivors[..|survivors| - 1];
      BestIsFirstMaximum(rest);
      assert forall k :: 0 <= k < |rest| ==> rest[k] == survivors[k];
    }
  }

  /** Nothing published yet, and every call charged. */
  predicate SameSpec(r: Report, r': Report) {
    && r'.published == r.published && r'.viaRepair == r.viaRepair && r'.firstTry == r.firstTry
    && r'.sampled == r.sampled && r'.exhausted == r.exhausted
    && r'.pursued == r.pursued && r'.extra == r.extra && r'.selectedBetter == r.selectedBetter
  }

  ghost predicate AllVetted(o: Oracle, pool: set<nat>, survivors: seq<Survivor>) {
    forall i :: 0 <= i < |survivors| ==> Vetted(o, pool, survivors[i])
  }

  /** The survivors so far leave something to wish for. */
  predicate Wanting(pol: Policy, survivors: seq<Survivor>, covered: int)
    requires survivors != []
  {
    survivors[Best(survivors)].score < pol.scoreThreshold || covered < pol.coverageThreshold
  }

  /** Another survivor is pursued only in best-of-N and only while those before leave something to wish for. */
  predicate Pursued(pol: Policy, covered: int, from: nat, collected: seq<Survivor>) {
    forall n :: from < n < |collected| ==> pol.bestOfN && Wanting(pol, collected[..n], covered)
  }

  /** Calls are left over only when nothing was wanting any more, or the number of survivors was reached. */
  predicate Satisfied(pol: Policy, covered: int, collected: seq<Survivor>) {
    collected != [] && (pol.bestOfN && |collected| < pol.maxSurvivors ==> !Wanting(pol, collected, covered))
  }

  ghost predicate CollectOk(o: Oracle, pol: Policy, pool: set<nat>, covered: int, st: State, survivors: seq<Survivor>,
                            after: State, collected: seq<Survivor>) {
    && Pursued(pol, covered, |survivors|, collected)
    && (after.used < pol.maxAttempts ==> Satisfied(pol, covered, collected))
    && Books(after.report, multiset{}) && SameSpec(st.report, after.report)
    && after.used <= pol.maxAttempts
    && after.used - st.used ==
         (after.report.generated - st.report.generated) + (after.report.attempted - st.report.attempted)
    && after.report.generated - st.report.generated ==
         (after.report.passed - st.report.passed) + (after.report.discarded - st.report.discarded)
    && survivors <= collected && AllVetted(o, pool, collected)
    && |collected| <= Max(1, pol.maxSurvivors)
  }

  lemma {:induction false} CollectKeeps(o: Oracle, pol: Policy, pool: set<nat>, covered: int, st: State,
                                        survivors: seq<Survivor>)
    requires Books(st.report, multiset{}) && st.used <= pol.maxAttempts
    requires AllVetted(o, pool, survivors) && |survivors| < Max(1, pol.maxSurvivors)
    ensures var (after, collected) := Collect(o, pol, pool, covered, st, survivors);
            CollectOk(o, pol, pool, covered, st, survivors, after, collected)
    decreases pol.maxAttempts - st.used
  {
    if st.used < pol.maxAttempts {
      match o.generate(st.tick)
      case None => CollectKeeps(o, pol, pool, covered, Generated(st, false), survivors);
      case Some(d) =>
        var l := Line(d, [], false);
        LineageKeeps(o, pol, pool, Generated(st, true), l);
        var e := Lineage(o, pol, pool, Generated(st, true), l);
        match e.survivor
        case None => CollectKeeps(o, pol, pool, covered, e.st, survivors);
        case Some(s) =>
          var more := survivors + [s];
          if pol.bestOfN && WantMore(pol, more, covered, e.st.used) {
            CollectKeeps(o, pol, pool, covered, e.st, more);
            PursuedFrom(pol, covered, more, Collect(o, pol, pool, covered, e.st, more).1);
          }
    }
  }

  lemma PursuedFrom(pol: Policy, covered: int, more: seq<Survivor>, collected: seq<Survivor>)
    requires more != [] && more <= collected && pol.bestOfN && Wanting(pol, more, covered)
    requires Pursued(pol, covered, |more|, collected)
    ensures Pursued(pol, covered, |more| - 1, collected)
  {
    assert collected[..|more|] == more;
  }

  // ---------------------------------------------------------------- the batch

  predicate Fresh(pool: set<nat>, published: seq<Survivor>) {
    && (forall i :: 0 <= i < |published| ==> published[i].draft.hash !in pool)
    && (forall i, j :: 0 <= i < j < |published| ==> published[i].draft.hash != published[j].draft.hash)
  }

  function Hashes(published: seq<Survivor>): set<nat> {
    set i | 0 <= i < |published| :: published[i].draft.hash
  }

  ghost predicate Passed(o: Oracle, published: seq<Survivor>) {
    forall i :: 0 <= i < |published| ==> o.gates(published[i].at, published[i].draft) == AllPass(published[i].score)
  }

  /** After some specs, from an initial pool. */
  ghost predicate BatchOk(o: Oracle, pol: Policy, pool: set<nat>, b: Batch, specs: nat) {
    var r := b.st.report;
    && Books(r, multiset{})
    && Fresh(pool, r.published) && Passed(o, r.published) && b.pool == pool + Hashes(r.published)
    && r.firstTry + r.viaRepair == |r.published|
    && |r.published| + r.exhausted == r.sampled == specs
    && r.generated == r.passed + r.discarded
    && r.generated + r.attempted <= specs * pol.maxAttempts
  }

  lemma PublishKeeps(o: Oracle, pool: set<nat>, now: set<nat>, r: Report, survivors: seq<Survivor>)
    requires survivors != [] && AllVetted(o, now, survivors)
    requires Fresh(pool, r.published) && Passed(o, r.published) && now == pool + Hashes(r.published)
    ensures var r', best := Publish(r, survivors), survivors[Best(survivors)];
            && r'.published == r.published + [best]
            && Fresh(pool, r'.published) && Passed(o, r'.published)
            && now + {best.draft.hash} == pool + Hashes(r'.published)
            && r'.firstTry + r'.viaRepair == r.firstTry + r.viaRepair + 1
  {
    var best := survivors[Best(survivors)];
    var more := r.published + [best];
    assert Vetted(o, now, best);
    assert forall i :: 0 <= i < |r.published| ==> more[i] == r.published[i];
    assert forall i :: 0 <= i < |r.published| ==> r.published[i].draft.hash in Hashes(r.published);
    assert more[|r.published|] == best;
    assert Hashes(more) == Hashes(r.published) + {best.draft.hash} by {
      forall h | h in Hashes(r.published) ensures h in Hashes(more) {
        var i :| 0 <= i < |r.published| && r.published[i].draft.hash == h;
        assert more[i].draft.hash == h;
      }
      assert more[|r.published|].draft.hash in Hashes(more);
    }
  }

  lemma BudgetStep(calls: int, more: int, specs: nat, max: nat)
    requires calls <= specs * max && more <= max
    ensures calls + more <= (specs + 1) * max
  {
    assert (specs + 1) * max == specs * max + max;
  }

  /** The books after the candidates of a spec are in. */
  ghost predicate CollectedOk(o: Oracle, pol: Policy, pool: set<nat>, now: set<nat>, r: Report, specs: nat) {
    && Books(r, multiset{})
    && Fresh(pool, r.published) && Passed(o, r.published) && now == pool + Hashes(r.published)
    && r.firstTry + r.viaRepair == |r.published|
    && |r.published| + r.exhausted + 1 == r.sampled == specs
    && r.generated == r.passed + r.discarded
    && r.generated + r.attempted <= specs * pol.maxAttempts
  }

  lemma CollectedKeeps(o: Oracle, pol: Policy, pool: set<nat>, covered: int, b: Batch, st: State, after: State,
                       survivors: seq<Survivor>, specs: nat)
    requires BatchOk(o, pol, pool, b, specs)
    requires st == State(b.st.report.(sampled := b.st.report.sampled + 1), 0, b.st.tick)
    requires CollectOk(o, pol, b.pool, covered, st, [], after, survivors)
    ensures CollectedOk(o, pol, pool, b.pool, after.report, specs + 1)
  {
    var r, r' := b.st.report, after.report;
    BudgetStep(r.generated + r.attempted, (r'.generated - r.generated) + (r'.attempted - r.attempted), specs, pol.maxAttempts);
  }

  lemma ResolveKeeps(o: Oracle, pol: Policy, pool: set<nat>, b: Batch, spec: nat, specs: nat)
    requires BatchOk(o, pol, pool, b, specs)
    ensures BatchOk(o, pol, pool, ResolveSpec(o, pol, b, spec), specs + 1)
  {
    var st := State(b.st.report.(sampled := b.st.report.sampled + 1), 0, b.st.tick);
    var covered := CoverageOf(b.coverage, spec);
    CollectKeeps(o, pol, b.pool, covered, st, []);
    var (after, survivors) := Collect(o, pol, b.pool, covered, st, []);
    CollectedKeeps(o, pol, pool, covered, b, st, after, survivors, specs);
    FinishKeeps(o, pol, pool, b, spec, after, survivors, specs + 1);
  }

  lemma FinishKeeps(o: Oracle, pol: Policy, pool: set<nat>, b: Batch, spec: nat, after: State,
                    survivors: seq<Survivor>, specs: nat)
    requires CollectedOk(o, pol, pool, b.pool, after.report, specs) && AllVetted(o, b.pool, survivors)
    ensures BatchOk(o, pol, pool, Finish(b, spec, after, survivors), specs)
  {
    if survivors != [] {
      PublishKeeps(o, pool, b.pool, after.report, survivors);
    }
  }

  /**
    Whatever the models and gates answer, over a whole batch: every repair attempted either succeeded or
    failed, in total and for each check; generation and repair calls stay within max_attempts_per_spec for
    each spec; every published candidate passed the whole gate chain as published, repaired or not; and the
    published hashes are pairwise distinct and were not in the pool before.
   */
  lemma {:induction false} BatchKeeps(o: Oracle, pol: Policy, pool: set<nat>, b: Batch, done: nat, specs: seq<nat>)
    requires BatchOk(o, pol, pool, b, done)
    ensures BatchOk(o, pol, pool, RunBatch(o, pol, b, specs), done + |specs|)
    decreases |specs|
  {
    if specs != [] {
      ResolveKeeps(o, pol, pool, b, specs[0], done);
      BatchKeeps(o, pol, pool, ResolveSpec(o, pol, b, specs[0]), done + 1, specs[1..]);
    }
  }

  lemma NewBatch(o: Oracle, pol: Policy, pool: set<nat>, coverage: Coverage, specs: seq<nat>)
    ensures BatchOk(o, pol, pool, RunBatch(o, pol, Batch(State(NEW_REPORT, 0, 0), pool, coverage), specs), |specs|)
  {
    BatchKeeps(o, pol, pool, Batch(State(NEW_REPORT, 0, 0), pool, coverage), 0, specs);
  }

  /** The survivors this spec's calls come to, as the batch stands. */
  function Collected(o: Oracle, pol: Policy, b: Batch, spec: nat): (State, seq<Survivor>) {
    var st := State(b.st.report.(sampled := b.st.report.sampled + 1), 0, b.st.tick);
    Collect(o, pol, b.pool, CoverageOf(b.coverage, spec), st, [])
  }

  /** k is the first of the highest scores. */
  predicate FirstMaximum(survivors: seq<Survivor>, k: nat) {
    && k < |survivors|
    && (forall j :: 0 <= j < |survivors| ==> survivors[j].score <= survivors[k].score)
    && (forall j :: 0 <= j < k ==> survivors[j].score < survivors[k].score)
  }

  /** Survivor k is published and counted: the pool and the spec's coverage grow by it, and a choice among several is told. */
  ghost predicate Credited(b: Batch, spec: nat, after: Batch, survivors: seq<Survivor>, k: nat) {
    var r, r' := b.st.report, after.st.report;
    && k < |survivors|
    && r'.published == r.published + [survivors[k]] && after.pool == b.pool + {survivors[k].draft.hash}
    && r'.viaRepair == r.viaRepair + (if survivors[k].viaRepair then 1 else 0)
    && r'.firstTry == r.firstTry + (if survivors[k].viaRepair then 0 else 1)
    && r'.pursued == r.pursued + (if |survivors| > 1 then 1 else 0) && r'.extra == r.extra + |survivors| - 1
    && r'.selectedBetter == r.selectedBetter + (if k > 0 then 1 else 0)
    && forall other :: CoverageOf(after.coverage, other) == CoverageOf(b.coverage, other) + if other == spec then 1 else 0
  }

  /**
    One spec: within its own budget; every survivor its calls came to passed the gates; another is pursued
    only as long as those before leave something to wish for, and calls are left over only when none does.
    Of exactly these survivors the first of maximal score is published; there is nothing to publish only
    when the budget is spent, and then the spec is given up and nothing is published.
   */
  lemma SpecPublishesBest(o: Oracle, pol: Policy, pool: set<nat>, b: Batch, done: nat, spec: nat)
    requires BatchOk(o, pol, pool, b, done)
    ensures var r, after := b.st.report, ResolveSpec(o, pol, b, spec);
            var r' := after.st.report;
            var (st', survivors) := Collected(o, pol, b, spec);
            var covered := CoverageOf(b.coverage, spec);
            && (r'.generated - r.generated) + (r'.attempted - r.attempted) == after.st.used == st'.used <= pol.maxAttempts
            && |survivors| <= Max(1, pol.maxSurvivors) && AllVetted(o, b.pool, survivors)
            && Pursued(pol, covered, 0, survivors)
            && (st'.used < pol.maxAttempts ==> Satisfied(pol, covered, survivors))
            && (r'.published == r.published <==> survivors == [])
            && r'.exhausted == r.exhausted + (if survivors == [] then 1 else 0)
            && (survivors == [] ==> st'.used == pol.maxAttempts)
            && (survivors != [] ==> exists k: nat :: FirstMaximum(survivors, k) && Credited(b, spec, after, survivors, k))
            && (survivors == [] ==> after.pool == b.pool && after.coverage == b.coverage)
  {
    var st := State(b.st.report.(sampled := b.st.report.sampled + 1), 0, b.st.tick);
    CollectKeeps(o, pol, b.pool, CoverageOf(b.coverage, spec), st, []);
    var (after, survivors) := Collected(o, pol, b, spec);
    if survivors != [] {
      BestIsFirstMaximum(survivors);
      assert FirstMaximum(survivors, Best(survivors));
      assert Credited(b, spec, ResolveSpec(o, pol, b, spec), survivors, Best(survivors));
    }
  }

  /** No lineage repairs a fundamental rejection, or one check twice, or more often than there are repairable checks. */
  lemma LineageRepairs(o: Oracle, pol: Policy, pool: set<nat>, st: State, d: Draft)
    requires Books(st.report, multiset{}) && st.used <= pol.maxAttempts
    ensures var e := Lineage(o, pol, pool, st, Line(d, [], false));
            && FixesOk(pol, e.fixes) && |e.fixes| <= |REPAIRABLE_CHECKS|
            && |e.fixes| == e.st.report.attempted - st.report.attempted
  {
    LineageKeeps(o, pol, pool, st, Line(d, [], false));
    var fixes := Lineage(o, pol, pool, st, Line(d, [], false)).fixes;
    DistinctWithin(fixes, REPAIRABLE_CHECKS);
  }

  lemma {:induction false} DistinctWithin(fixes: seq<Rejection>, within: set<string>)
    requires forall i :: 0 <= i < |fixes| ==> fixes[i].check in within
    requires forall i, j :: 0 <= i < j < |fixes| ==> fixes[i].check != fixes[j].check
    ensures |fixes| <= |within|
  {
    if fixes != [] {
      var last := fixes[|fixes| - 1];
      DistinctWithin(fixes[..|fixes| - 1], within - {last.check});
    }
  }
}
