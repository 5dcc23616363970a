/**
  The loops of pipeline/orchestrator.py as they run, updating the report, the shared budget and the dedup
  pool in place; each is proved equal to its specification in Generation.
 */
module GenerationRun {
  import opened Basics
  import G = Generation
  import opened Generation

  class Orchestrator {
    var report: Report
    var used: nat
    var tick: nat
    var dedupPoolHashes: set<nat>
    var coverage: Coverage

    constructor (pool: set<nat>, coverage: Coverage)
      ensures Value() == Batch(State(NEW_REPORT, 0, 0), pool, coverage)
    {
      report, used, tick := NEW_REPORT, 0, 0;
      dedupPoolHashes := pool;
      this.coverage := coverage;
    }

    function St(): State
      reads this
    {
      State(report, used, tick)
    }

    function Value(): Batch
      reads this
    {
      Batch(St(), dedupPoolHashes, coverage)
    }

    method RecordSuccess(lastRepairCheck: Option<string>, ghost l: Line)
      requires LineOk(l) && lastRepairCheck == if l.open then Some(LastCheck(l)) else None
      modifies `report
      ensures report == Succeed(old(report), l)
    {
      if lastRepairCheck.Some? {
        report := report.(succeeded := report.succeeded + 1,
                          succeededBy := report.succeededBy + multiset{lastRepairCheck.value});
      }
    }

    method RecordFailure(lastRepairCheck: Option<string>, ghost l: Line)
      requires LineOk(l) && lastRepairCheck == if l.open then Some(LastCheck(l)) else None
      modifies `report
      ensures report == Fail(old(report), l)
    {
      if lastRepairCheck.Some? {
        report := report.(failed := report.failed + 1, failedBy := report.failedBy + multiset{lastRepairCheck.value});
      }
    }

    /** The guards that end a lineage after a rejection; each keeps its own count. */
    method StopsHere(pol: Policy, rejection: Rejection, repairRounds: nat, checksTriggered: set<string>, ghost l: Line)
      returns (stop: bool)
      requires repairRounds == |l.fixes| && forall c :: c in checksTriggered <==> Triggered(l.fixes, c)
      modifies `report
      ensures match Stop(pol, old(St()), l, rejection)
              case Some(r) => stop && report == r
              case None => !stop && report == old(report)
    {
      if !pol.repairEnabled || !rejection.repairable {
        return true;
      }
      if repairRounds >= pol.maxRounds {
        report := report.(stoppedRounds := report.stoppedRounds + 1);
        return true;
      }
      if rejection.check in checksTriggered {
        report := report.(stoppedSame := report.stoppedSame + 1);
        return true;
      }
      if used >= pol.maxAttempts {
        report := report.(stoppedBudget := report.stoppedBudget + 1);
        return true;
      }
      return false;
    }

    /** Every rejection leaves a receipt, settles a repair still open, and may end the lineage. */
    method TakeRejection(pol: Policy, rejection: Rejection, lastRepairCheck: Option<string>, repairRounds: nat,
                         checksTriggered: set<string>, ghost l: Line)
      returns (stop: bool)
      requires LineOk(l) && lastRepairCheck == if l.open then Some(LastCheck(l)) else None
      requires repairRounds == |l.fixes| && forall c :: c in checksTriggered <==> Triggered(l.fixes, c)
      modifies `report, `tick
      ensures var noted := Noted(old(St()), l, rejection);
              match Stop(pol, noted, l, rejection)
              case Some(r) => stop && St() == noted.(report := r)
              case None => !stop && St() == noted
    {
      tick := tick + 1;
      report := Receipt(report, rejection);
      RecordFailure(lastRepairCheck, l);
      stop := StopsHere(pol, rejection, repairRounds, checksTriggered, l);
    }

    method AskForRepair(o: Oracle, current: Draft, rejection: Rejection) returns (outcome: Option<Draft>)
      modifies `report, `used, `tick
      ensures St() == Charge(old(St()), rejection)
      ensures outcome == o.repair(old(tick), current, rejection)
    {
      report := report.(attempted := report.attempted + 1, attemptedBy := report.attemptedBy + multiset{rejection.check});
      outcome := o.repair(tick, current, rejection);
      tick := tick + 1;
      used := used + 1;
    }

    method RunLineage(o: Oracle, pol: Policy, candidate: Draft) returns (survivor: Option<Survivor>)
      modifies `report, `used, `tick
      ensures var e := Lineage(o, pol, dedupPoolHashes, old(St()), Line(candidate, [], false));
              St() == e.st && survivor == e.survivor
    {
      var current := candidate;
      var usedRepair := false;
      var repairRounds := 0;
      var checksTriggered: set<string> := {};
      var lastRepairCheck: Option<string> := None;
      ghost var l := Line(candidate, [], false);
      while true
        invariant l.current == current && LineOk(l)
        invariant repairRounds == |l.fixes| && (usedRepair <==> l.fixes != [])
        invariant forall c :: c in checksTriggered <==> Triggered(l.fixes, c)
        invariant lastRepairCheck == if l.open then Some(LastCheck(l)) else None
        invariant Lineage(o, pol, dedupPoolHashes, St(), l)
               == Lineage(o, pol, dedupPoolHashes, old(St()), Line(candidate, [], false))
        decreases pol.maxRounds - repairRounds
      {
        ghost var turn := TakeTurn(o, pol, dedupPoolHashes, St(), l);
        var evaluation := Evaluate(o, tick, current, dedupPoolHashes);
        if evaluation.Survived? {
          tick := tick + 1;
          RecordSuccess(lastRepairCheck, l);
          return Some(evaluation.survivor.(viaRepair := usedRepair));
        }
        var rejection := evaluation.rejection;
        var stop := TakeRejection(pol, rejection, lastRepairCheck, repairRounds, checksTriggered, l);
        if stop {
          return None;
        }
        TriggeredPush(l.fixes, rejection);
        checksTriggered := checksTriggered + {rejection.check};
        var outcome := AskForRepair(o, current, rejection);
        repairRounds := repairRounds + 1;
        usedRepair := true;
        lastRepairCheck := Some(rejection.check);
        l := Line(current, l.fixes + [rejection], true);
        if outcome.None? {
          RecordFailure(lastRepairCheck, l);
          return None;
        }
        current := outcome.value;
        l := l.(current := current);
        assert turn == Goes(St(), l);
      }
    }

    /** max(survivors, key=score): the first of the highest. */
    method PickBest(survivors: seq<Survivor>) returns (best: nat)
      requires survivors != []
      ensures best == Best(survivors)
    {
      best := 0;
      for i := 1 to |survivors|
        invariant best == Best(survivors[..i])
      {
        assert survivors[..i + 1][..i] == survivors[..i];
        if survivors[i].score > survivors[best].score {
          best := i;
        }
      }
      assert survivors[..|survivors|] == survivors;
    }

    method GenerateFresh(o: Oracle) returns (outcome: Option<Draft>)
      modifies `report, `used, `tick
      ensures outcome == o.generate(old(tick)) && St() == Generated(old(St()), outcome.Some?)
    {
      outcome := o.generate(tick);
      tick := tick + 1;
      used := used + 1;
      report := report.(generated := report.generated + 1);
      if outcome.None? {
        report := report.(discarded := report.discarded + 1);
      } else {
        report := report.(passed := report.passed + 1);
      }
    }

    /** Fresh candidates, each with its lineage, while the budget lasts and more survivors are wanted. */
    method CollectSurvivors(o: Oracle, pol: Policy, spec: nat) returns (survivors: seq<Survivor>)
      modifies `report, `used, `tick
      ensures (St(), survivors) ==
              Collect(o, pol, dedupPoolHashes, CoverageOf(coverage, spec), old(St()), [])
    {
      survivors := [];
      while used < pol.maxAttempts
        invariant Collect(o, pol, dedupPoolHashes, CoverageOf(coverage, spec), St(), survivors)
               == Collect(o, pol, dedupPoolHashes, CoverageOf(coverage, spec), old(St()), [])
        decreases pol.maxAttempts - used
      {
        var outcome := GenerateFresh(o);
        if outcome.None? {
          continue;
        }
        var survivor := RunLineage(o, pol, outcome.value);
        if survivor.Some? {
          survivors := survivors + [survivor.value];
          if !(pol.bestOfN && WantMore(pol, survivors, CoverageOf(coverage, spec), used)) {
            return;
          }
        }
      }
    }

    method PublishSurvivor(survivors: seq<Survivor>)
      requires survivors != []
      modifies `report, `dedupPoolHashes
      ensures report == Publish(old(report), survivors)
      ensures dedupPoolHashes == old(dedupPoolHashes) + {survivors[Best(survivors)].draft.hash}
    {
      var best := PickBest(survivors);
      if |survivors| > 1 {
        report := report.(pursued := report.pursued + 1, extra := report.extra + |survivors| - 1);
        if best != 0 {
          report := report.(selectedBetter := report.selectedBetter + 1);
        }
      }
      dedupPoolHashes := dedupPoolHashes + {survivors[best].draft.hash};
      report := report.(published := report.published + [survivors[best]]);
      if survivors[best].viaRepair {
        report := report.(viaRepair := report.viaRepair + 1);
      } else {
        report := report.(firstTry := report.firstTry + 1);
      }
    }

    method ResolveSpec(o: Oracle, pol: Policy, spec: nat)
      modifies this
      ensures Value() == G.ResolveSpec(o, pol, old(Value()), spec)
    {
      report := report.(sampled := report.sampled + 1);
      used := 0;
      var survivors := CollectSurvivors(o, pol, spec);
      if survivors == [] {
        report := report.(exhausted := report.exhausted + 1);
      } else {
        PublishSurvivor(survivors);
        coverage := coverage[spec := CoverageOf(coverage, spec) + 1];
      }
    }

    method RunBatch(o: Oracle, pol: Policy, specs: seq<nat>)
      modifies this
      ensures Value() == G.RunBatch(o, pol, old(Value()), specs)
    {
      for i := 0 to |specs|
        invariant G.RunBatch(o, pol, Value(), specs[i..]) == G.RunBatch(o, pol, old(Value()), specs)
      {
        assert specs[i..][1..] == specs[i + 1..];
        ResolveSpec(o, pol, specs[i]);
      }
    }
  }

  lemma TriggeredPush(fixes: seq<Rejection>, r: Rejection)
    ensures forall c :: Triggered(fixes + [r], c) <==> Triggered(fixes, c) || c == r.check
  {
    var more := fixes + [r];
    assert forall i :: 0 <= i < |fixes| ==> more[i] == fixes[i];
    assert more[|fixes|] == r;
    forall c | Triggered(fixes, c) ensures Triggered(more, c) {
      var i :| 0 <= i < |fixes| && fixes[i].check == c;
      assert more[i].check == c;
    }
  }
}
