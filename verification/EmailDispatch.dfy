/**
  run_sweep of backend/app/email/dispatch.py, step by step, against the transition system of
  SendOnce: between any two of its own steps any other workers may run. What comes back from the
  database, the renderer and the provider is nondeterministic.
 */
module EmailDispatch {
  import opened Basics
  import opened EmailDeliveries
  import opened SendOnce

  datatype Outcome = NotClaimed | ClaimError | Accepted | NothingToSend | SendFailed | Unhandled

  /** The candidate consumed one unit of the per-tick send budget. */
  predicate Attempted(o: Outcome) {
    !o.NotClaimed? && !o.ClaimError?
  }

  predicate IsAccepted(o: Outcome) { o.Accepted? }

  predicate IsNothingToSend(o: Outcome) { o.NothingToSend? }

  predicate IsNotClaimed(o: Outcome) { o.NotClaimed? }

  predicate IsFailure(o: Outcome) { o.ClaimError? || o.SendFailed? || o.Unhandled? }

  /** A failure of which the ledger holds no verdict. */
  predicate IsUnknown(o: Outcome) { o.ClaimError? || o.Unhandled? }

  function Count(outcomes: seq<Outcome>, which: Outcome -> bool): (n: nat)
    ensures n <= |outcomes|
  {
    if outcomes == [] then 0
    else Count(outcomes[..|outcomes| - 1], which) + (if which(outcomes[|outcomes| - 1]) then 1 else 0)
  }

  lemma CountAppend(outcomes: seq<Outcome>, o: Outcome, which: Outcome -> bool)
    ensures Count(outcomes + [o], which) == Count(outcomes, which) + if which(o) then 1 else 0
  {
    assert (outcomes + [o])[..|outcomes|] == outcomes;
  }

  class SweepResult {
    var considered: nat
    var sent: nat
    var skipped: nat
    var failed: nat
    var notClaimed: nat
    var deferred: nat

    constructor (candidates: nat)
      ensures considered == candidates
      ensures sent == skipped == failed == notClaimed == deferred == 0
    {
      considered := candidates;
      sent, skipped, failed, notClaimed, deferred := 0, 0, 0, 0, 0;
    }

    /** The counters say what became of the candidates, each counted once. */
    ghost predicate Tallies(outcomes: seq<Outcome>)
      reads this
    {
      && sent == Count(outcomes, IsAccepted)
      && skipped == Count(outcomes, IsNothingToSend)
      && failed == Count(outcomes, IsFailure)
      && notClaimed == Count(outcomes, IsNotClaimed)
      && sent + skipped + failed + notClaimed == |outcomes|
    }

    method Add(o: Outcome, ghost outcomes: seq<Outcome>)
      requires Tallies(outcomes)
      modifies this`sent, this`skipped, this`failed, this`notClaimed
      ensures Tallies(outcomes + [o])
    {
      match o {
        case Accepted => sent := sent + 1;
        case NothingToSend => skipped := skipped + 1;
        case NotClaimed => notClaimed := notClaimed + 1;
        case _ => failed := failed + 1;
      }
      CountAppend(outcomes, o, IsAccepted);
      CountAppend(outcomes, o, IsNothingToSend);
      CountAppend(outcomes, o, IsFailure);
      CountAppend(outcomes, o, IsNotClaimed);
    }
  }

  // ---------------------------------------------------------------- what a worker did, read off the log

  /** A claim the row admitted or refused, and a row turned from claimed to another status. */
  datatype Mark = Took(key: DeliveryKey) | Refused(key: DeliveryKey) | Turned(key: DeliveryKey, to: Status)

  /** The mark an event of this worker leaves in the ledger. */
  function MarkOf(p: Params, s: State, e: Event, w: nat): seq<Mark> {
    if e.Tick? || e.w != w then []
    else if e.Claim? then
      if Live(s, w) || !WellFormed(e.key) then []
      else if Claimable(RowOf(s, e.key), s.now, p.maxAttempts, p.window) then [Took(e.key)]
      else [Refused(e.key)]
    else if Live(s, w) then TurnOf(PcOf(s, w).key, RowOf(s, PcOf(s, w).key), RowOf(Step(p, s, e), PcOf(s, w).key))
    else []
  }

  function TurnOf(k: DeliveryKey, before: Option<Row>, after: Option<Row>): seq<Mark> {
    if before.Some? && before.value.status == Claimed && after.Some? && after.value.status != Claimed
    then [Turned(k, after.value.status)]
    else []
  }

  /** A worker's marks over a whole log. */
  function Trace(p: Params, es: seq<Event>, w: nat): seq<Mark> {
    if es == [] then []
    else Trace(p, es[..|es| - 1], w) + MarkOf(p, Exec(p, Start, es[..|es| - 1]), es[|es| - 1], w)
  }

  lemma TracePush(p: Params, es: seq<Event>, e: Event, w: nat)
    ensures Trace(p, es + [e], w) == Trace(p, es, w) + MarkOf(p, Exec(p, Start, es), e, w)
  {
    assert (es + [e])[..|es|] == es;
  }

  lemma {:induction false} OthersLeaveNoMark(p: Params, es: seq<Event>, fs: seq<Event>, w: nat)
    requires forall i :: 0 <= i < |fs| ==> ByOther(fs[i], w)
    ensures Trace(p, es + fs, w) == Trace(p, es, w)
    decreases |fs|
  {
    if fs == [] {
      assert es + fs == es;
    } else {
      var rest, last := fs[..|fs| - 1], fs[|fs| - 1];
      assert es + fs == es + rest + [last];
      TracePush(p, es + rest, last, w);
      OthersLeaveNoMark(p, es, rest, w);
    }
  }

  /** How often the worker turned a row to this status, and how often a claim of its was refused. */
  function Turns(marks: seq<Mark>, to: Status): nat {
    if marks == [] then 0
    else Turns(marks[..|marks| - 1], to) + if marks[|marks| - 1].Turned? && marks[|marks| - 1].to == to then 1 else 0
  }

  function Refusals(marks: seq<Mark>): nat {
    if marks == [] then 0
    else Refusals(marks[..|marks| - 1]) + if marks[|marks| - 1].Refused? then 1 else 0
  }

  lemma {:induction false} CountsJoin(a: seq<Mark>, b: seq<Mark>)
    ensures forall to :: Turns(a + b, to) == Turns(a, to) + Turns(b, to)
    ensures Refusals(a + b) == Refusals(a) + Refusals(b)
  {
    if b == [] {
      assert a + b == a;
    } else {
      var rest, last := b[..|b| - 1], b[|b| - 1];
      assert a + b == a + rest + [last] && (a + b)[..|a + b| - 1] == a + rest;
      CountsJoin(a, rest);
    }
  }

  /** What is reported of a candidate is what the worker did to its row, and nothing else. */
  predicate Tells(k: DeliveryKey, o: Outcome, marks: seq<Mark>) {
    match o
    case NotClaimed => marks == [Refused(k)]
    case ClaimError => marks == [] || marks == [Took(k)]
    case Accepted => marks == [Took(k), Turned(k, Sent)]
    case NothingToSend => marks == [Took(k), Turned(k, Skipped)]
    case SendFailed => marks == [Took(k), Turned(k, Failed)]
    case Unhandled => marks == [Took(k)]
  }

  lemma TellsCounts(k: DeliveryKey, o: Outcome, marks: seq<Mark>)
    requires Tells(k, o, marks)
    ensures Turns(marks, Sent) == if o.Accepted? then 1 else 0
    ensures Turns(marks, Skipped) == if o.NothingToSend? then 1 else 0
    ensures Turns(marks, Failed) == if o.SendFailed? then 1 else 0
    ensures Refusals(marks) == if o.NotClaimed? then 1 else 0
  {
    if |marks| == 2 {
      assert marks[..1] == [marks[0]] && marks[..1][..0] == [];
    } else if |marks| == 1 {
      assert marks[..0] == [];
    }
  }

  function Joined(parts: seq<seq<Mark>>): seq<Mark> {
    if parts == [] then [] else Joined(parts[..|parts| - 1]) + parts[|parts| - 1]
  }

  lemma JoinedPush(parts: seq<seq<Mark>>, part: seq<Mark>)
    ensures Joined(parts + [part]) == Joined(parts) + part
  {
    assert (parts + [part])[..|parts|] == parts;
  }

  /** The worker's marks, counted, are the outcomes, counted. */
  predicate Balanced(outcomes: seq<Outcome>, marks: seq<Mark>) {
    && Turns(marks, Sent) == Count(outcomes, IsAccepted)
    && Turns(marks, Skipped) == Count(outcomes, IsNothingToSend)
    && Refusals(marks) == Count(outcomes, IsNotClaimed)
    && Turns(marks, Failed) + Count(outcomes, IsUnknown) == Count(outcomes, IsFailure)
  }

  lemma BalancedPush(outcomes: seq<Outcome>, marks: seq<Mark>, k: DeliveryKey, o: Outcome, part: seq<Mark>)
    requires Balanced(outcomes, marks) && Tells(k, o, part)
    ensures Balanced(outcomes + [o], marks + part)
  {
    CountsJoin(marks, part);
    TellsCounts(k, o, part);
    CountAppend(outcomes, o, IsAccepted);
    CountAppend(outcomes, o, IsNothingToSend);
    CountAppend(outcomes, o, IsNotClaimed);
    CountAppend(outcomes, o, IsUnknown);
    CountAppend(outcomes, o, IsFailure);
  }

  /** Every outcome so far is told by its part of the worker's marks. */
  predicate Told(candidates: seq<DeliveryKey>, outcomes: seq<Outcome>, parts: seq<seq<Mark>>) {
    && |parts| == |outcomes| <= |candidates|
    && (forall i :: 0 <= i < |parts| ==> Tells(candidates[i], outcomes[i], parts[i]))
    && Balanced(outcomes, Joined(parts))
  }

  lemma ToldPush(candidates: seq<DeliveryKey>, outcomes: seq<Outcome>, parts: seq<seq<Mark>>, o: Outcome, part: seq<Mark>)
    requires Told(candidates, outcomes, parts) && |outcomes| < |candidates| && Tells(candidates[|outcomes|], o, part)
    ensures Told(candidates, outcomes + [o], parts + [part])
  {
    JoinedPush(parts, part);
    BalancedPush(outcomes, Joined(parts), candidates[|outcomes|], o, part);
  }

  /** The ledger accounts for the sweep's counters. */
  ghost predicate Accounts(result: SweepResult, outcomes: seq<Outcome>, marks: seq<Mark>)
    reads result
  {
    && result.sent == Turns(marks, Sent) && result.skipped == Turns(marks, Skipped)
    && result.notClaimed == Refusals(marks)
    && result.failed == Turns(marks, Failed) + Count(outcomes, IsUnknown)
  }

  predicate ByOther(e: Event, w: nat) {
    e.Tick? || e.w != w
  }

  lemma {:induction false} OthersRun(p: Params, s: State, es: seq<Event>, w: nat)
    requires forall i :: 0 <= i < |es| ==> ByOther(es[i], w)
    ensures PcOf(Exec(p, s, es), w) == PcOf(s, w)
    decreases |es|
  {
    if es != [] {
      OthersStay(p, s, es[0], w);
      OthersRun(p, Step(p, s, es[0]), es[1..], w);
    }
  }

  /** Nobody holds an abandoned row, and nobody will. */
  lemma AbandonSettles(p: Params, s: State, w: nat)
    requires Inv(p, s) && Live(s, w) && PcOf(s, w).key in s.slots && WorkerOk(s, w)
    ensures var t, k := Step(p, s, Crash(w)), PcOf(s, w).key;
            && !Live(t, w) && Settled(t, k) && t.slots[k].row.status == Claimed
            && MarkOf(p, s, Crash(w), w) == []
  {
    var t, k := Step(p, s, Crash(w)), PcOf(s, w).key;
    forall v: nat | Live(t, v) ensures PcOf(t, v).key != k {
      if v != w { OthersStay(p, s, Crash(w), v); }
    }
  }

  /** The row says what the sweep reported of it. */
  ghost predicate Reported(s: State, k: DeliveryKey, o: Outcome) {
    && (o.Accepted? ==> k in s.slots && s.slots[k].row.status == Sent)
    && (o.NothingToSend? ==> k in s.slots && s.slots[k].row.status == Skipped)
    && (o.Unhandled? ==> Settled(s, k) && s.slots[k].row.status == Claimed)
  }

  ghost predicate AllReported(s: State, candidates: seq<DeliveryKey>, outcomes: seq<Outcome>) {
    |outcomes| <= |candidates| && forall i :: 0 <= i < |outcomes| ==> Reported(s, candidates[i], outcomes[i])
  }

  lemma ReportedPush(s: State, candidates: seq<DeliveryKey>, outcomes: seq<Outcome>, o: Outcome)
    requires AllReported(s, candidates, outcomes) && |outcomes| < |candidates| && Reported(s, candidates[|outcomes|], o)
    ensures AllReported(s, candidates, outcomes + [o])
  {
  }

  class Mailroom {
    const p: Params
    var sys: State
    ghost var log: seq<Event>

    constructor (p: Params)
      ensures this.p == p && Valid() && log == []
    {
      this.p := p;
      sys := Start;
      log := [];
    }

    /** The shared state is what the logged events make of an empty ledger. */
    ghost predicate Valid()
      reads this
    {
      sys == Exec(p, Start, log)
    }

    /** What this worker did to the ledger so far. */
    ghost function Marks(w: nat): seq<Mark>
      reads this
    {
      Trace(p, log, w)
    }

    method Do(e: Event)
      requires Valid()
      modifies this`sys, this`log
      ensures Valid() && sys == Step(p, old(sys), e) && log == old(log) + [e]
      ensures !e.Tick? ==> Marks(e.w) == old(Marks(e.w)) + MarkOf(p, old(sys), e, e.w)
    {
      if !e.Tick? { TracePush(p, log, e, e.w); }
      ExecAppend(p, Start, log, [e]);
      assert Exec(p, sys, [e]) == Exec(p, Step(p, sys, e), [e][1..]);
      sys := Step(p, sys, e);
      log := log + [e];
    }

    /** Other workers and the clock run for a while. */
    method Yield(w: nat)
      requires Valid()
      modifies this`sys, this`log
      ensures Valid() && old(log) <= log && PcOf(sys, w) == PcOf(old(sys), w)
      ensures Marks(w) == old(Marks(w))
    {
      var es: seq<Event> := *;
      if forall i :: 0 <= i < |es| ==> ByOther(es[i], w) {
        OthersRun(p, sys, es, w);
        OthersLeaveNoMark(p, log, es, w);
        ExecAppend(p, Start, log, es);
        sys := Exec(p, sys, es);
        log := log + es;
      }
    }

    /** The same, seen by a worker that holds a claim: its row is still its own. */
    method Pause(w: nat)
      requires Valid() && Live(sys, w)
      modifies this`sys, this`log
      ensures Valid() && old(log) <= log && PcOf(sys, w) == PcOf(old(sys), w)
      ensures WorkerOk(sys, w) && Marks(w) == old(Marks(w))
    {
      Yield(w);
      ReachableInv(p, log);
    }

    /** One step of work on the claimed row. */
    method Advancing(e: Event)
      requires Valid() && !e.Tick? && !e.Claim? && !e.Post? && Live(sys, e.w) && PcOf(sys, e.w).key in sys.slots
      requires Advance(PcOf(sys, e.w), sys.slots[PcOf(sys, e.w).key], e).Some?
      modifies this`sys, this`log
      ensures Valid() && log == old(log) + [e]
      ensures var k := PcOf(old(sys), e.w).key;
              k in sys.slots
              && Some((PcOf(sys, e.w), sys.slots[k])) == Advance(PcOf(old(sys), e.w), old(sys).slots[k], e)
              && Marks(e.w) == old(Marks(e.w)) + TurnOf(k, RowOf(old(sys), k), RowOf(sys, k))
    {
      Do(e);
    }

    /** The worker is gone, its claim stays. */
    method Abandon(w: nat)
      requires Valid() && Live(sys, w) && PcOf(sys, w).key in sys.slots && WorkerOk(sys, w)
      modifies this`sys, this`log
      ensures Valid() && !Live(sys, w) && log == old(log) + [Crash(w)] && Marks(w) == old(Marks(w))
      ensures var k := PcOf(old(sys), w).key; Settled(sys, k) && sys.slots[k].row.status == Claimed
    {
      ReachableInv(p, log);
      AbandonSettles(p, sys, w);
      Do(Crash(w));
    }

    /** Claim, render or reload, send and record one candidate. */
    method Process(w: nat, k: DeliveryKey) returns (o: Outcome, ghost part: seq<Mark>)
      requires Valid() && !Live(sys, w) && WellFormed(k)
      modifies this`sys, this`log
      ensures Valid() && !Live(sys, w) && old(log) <= log
      ensures Reported(sys, k, o)
      ensures Marks(w) == old(Marks(w)) + part && Tells(k, o, part)
    {
      Yield(w);
      var claimFails: bool := *;
      if claimFails {
        o, part := FailToClaim(w, k);
        return;
      }
      var claimed := Claimable(RowOf(sys, k), sys.now, p.maxAttempts, p.window);
      Do(Claim(w, k));
      if !claimed {
        return NotClaimed, [Refused(k)];
      }
      ghost var rest;
      o, rest := Work(w, k);
      part := [Took(k)] + rest;
    }

    /** An exception at the claim; the claim may have been committed all the same. */
    method FailToClaim(w: nat, k: DeliveryKey) returns (o: Outcome, ghost part: seq<Mark>)
      requires Valid() && !Live(sys, w) && WellFormed(k)
      modifies this`sys, this`log
      ensures Valid() && !Live(sys, w) && old(log) <= log && o == ClaimError
      ensures Marks(w) == old(Marks(w)) + part && Tells(k, o, part)
    {
      var committed: bool := *;
      part := [];
      if committed && Claimable(RowOf(sys, k), sys.now, p.maxAttempts, p.window) {
        Do(Claim(w, k));
        part := [Took(k)];
        ReachableInv(p, log);
        Abandon(w);
      }
      o := ClaimError;
    }

    /** The work session of a claimed candidate; an unexpected exception leaves the row claimed. */
    method Work(w: nat, k: DeliveryKey) returns (o: Outcome, ghost rest: seq<Mark>)
      requires Valid() && PcOf(sys, w).Owned? && PcOf(sys, w).key == k
      modifies this`sys, this`log
      ensures Valid() && !Live(sys, w) && old(log) <= log
      ensures Reported(sys, k, o) && Attempted(o)
      ensures Marks(w) == old(Marks(w)) + rest && Tells(k, o, [Took(k)] + rest)
    {
      Pause(w);
      var raises: bool := *;
      if raises {
        Abandon(w);
        return Unhandled, [];
      }
      var ready := ReadOrBuild(w, k);
      if !ready {
        return NothingToSend, [Turned(k, Skipped)];
      }
      o, rest := Send(w, k);
    }

    /** The stored message, or one rendered and stored now, or nothing to report and the period closed. */
    method ReadOrBuild(w: nat, k: DeliveryKey) returns (ready: bool)
      requires Valid() && PcOf(sys, w).Owned? && PcOf(sys, w).key == k && WorkerOk(sys, w)
      modifies this`sys, this`log
      ensures Valid() && old(log) <= log
      ensures if ready then PcOf(sys, w).Ready? && PcOf(sys, w).key == k && Marks(w) == old(Marks(w))
              else !Live(sys, w) && Reported(sys, k, NothingToSend) && Marks(w) == old(Marks(w)) + [Turned(k, Skipped)]
    {
      if sys.slots[k].row.payload.Some? {
        Advancing(Load(w));
        return true;
      }
      var message: Option<OutboundEmail> := *;
      Advancing(Build(w, message));
      Pause(w);
      match message {
        case None =>
          Advancing(Skip(w));
          return false;
        case Some(_) =>
          Advancing(Store(w));
          return true;
      }
    }

    method Send(w: nat, k: DeliveryKey) returns (o: Outcome, ghost rest: seq<Mark>)
      requires Valid() && PcOf(sys, w).Ready? && PcOf(sys, w).key == k
      modifies this`sys, this`log
      ensures Valid() && !Live(sys, w) && old(log) <= log
      ensures Reported(sys, k, o) && Attempted(o)
      ensures Marks(w) == old(Marks(w)) + rest && Tells(k, o, [Took(k)] + rest)
    {
      Pause(w);
      CallProvider(w);
      Pause(w);
      var raises: bool := *;
      if raises {
        Abandon(w);
        return Unhandled, [];
      }
      var ok := PcOf(sys, w).ok;
      Advancing(Record(w));
      return if ok then Accepted else SendFailed, [Turned(k, if ok then Sent else Failed)];
    }

    /** sender.send: refused by our own guards, or a POST with any outcome. */
    method CallProvider(w: nat)
      requires Valid() && PcOf(sys, w).Ready? && PcOf(sys, w).key in sys.slots
      modifies this`sys, this`log
      ensures Valid() && old(log) <= log
      ensures PcOf(sys, w).Answered? && PcOf(sys, w).key == PcOf(old(sys), w).key
      ensures Marks(w) == old(Marks(w))
    {
      var refused: bool, accepts: bool, forgets: bool, confirmed: bool := *, *, *, *;
      if refused {
        Advancing(Refuse(w));
      } else {
        Do(Post(w, accepts, forgets, confirmed));
      }
    }

    /** The next candidate; what was reported of the others still holds after it. */
    method ProcessNext(w: nat, candidates: seq<DeliveryKey>, outcomes: seq<Outcome>,
                       ghost before: seq<Mark>, ghost parts: seq<seq<Mark>>)
      returns (o: Outcome, ghost more: seq<seq<Mark>>)
      requires Valid() && !Live(sys, w) && |outcomes| < |candidates| && WellFormed(candidates[|outcomes|])
      requires AllReported(sys, candidates, outcomes) && Told(candidates, outcomes, parts)
      requires Marks(w) == before + Joined(parts)
      modifies this`sys, this`log
      ensures Valid() && !Live(sys, w) && old(log) <= log
      ensures AllReported(sys, candidates, outcomes + [o]) && Told(candidates, outcomes + [o], more)
      ensures Marks(w) == before + Joined(more)
    {
      ghost var soFar, part := log, [];
      o, part := Process(w, candidates[|outcomes|]);
      StillReported(soFar, candidates, outcomes);
      ReportedPush(sys, candidates, outcomes, o);
      ToldPush(candidates, outcomes, parts, o, part);
      more := parts + [part];
      JoinedPush(parts, part);
    }

    /**
      One sweep: every candidate is counted exactly once and at most `cap` of them are attempted. What the
      worker did to the ledger falls into one part per candidate, and what is reported of a candidate is
      exactly what was done to its row; so `sent` is the number of rows this worker turned to sent,
      `skipped` those it closed, `notClaimed` its refused claims. What is reported as sent, skipped or
      abandoned is so in the ledger at the end, and the sweep is a run of the transition system, so every
      theorem about runs holds of it.
     */
    method RunSweep(w: nat, cap: int, candidates: seq<DeliveryKey>)
      returns (result: SweepResult, outcomes: seq<Outcome>, ghost parts: seq<seq<Mark>>)
      requires Valid() && !Live(sys, w)
      requires forall i :: 0 <= i < |candidates| ==> WellFormed(candidates[i])
      modifies this`sys, this`log
      ensures fresh(result)
      ensures Valid() && !Live(sys, w) && old(log) <= log
      ensures result.Tallies(outcomes) && |outcomes| + result.deferred == |candidates|
      ensures result.considered
           == result.sent + result.skipped + result.failed + result.notClaimed + result.deferred
      ensures Count(outcomes, Attempted) <= Max(0, cap)
      ensures result.deferred > 0 ==> Count(outcomes, Attempted) >= cap
      ensures AllReported(sys, candidates, outcomes)
      ensures Marks(w) == old(Marks(w)) + Joined(parts) && Told(candidates, outcomes, parts)
      ensures Accounts(result, outcomes, Joined(parts))
    {
      ghost var before := Marks(w);
      result := new SweepResult(|candidates|);
      outcomes := [];
      parts := [];
      var attempted := 0;
      var index := 0;
      while index < |candidates|
        invariant 0 <= index <= |candidates| && |outcomes| == index
        invariant Valid() && !Live(sys, w) && old(log) <= log
        invariant fresh(result) && result.considered == |candidates| && result.deferred == 0
        invariant result.Tallies(outcomes)
        invariant attempted == Count(outcomes, Attempted) <= Max(0, cap)
        invariant AllReported(sys, candidates, outcomes)
        invariant Told(candidates, outcomes, parts) && Marks(w) == before + Joined(parts)
      {
        if attempted >= cap {
          result.deferred := |candidates| - index;
          break;
        }
        var o;
        o, parts := ProcessNext(w, candidates, outcomes, before, parts);
        result.Add(o, outcomes);
        CountAppend(outcomes, o, Attempted);
        outcomes := outcomes + [o];
        if Attempted(o) {
          attempted := attempted + 1;
        }
        index := index + 1;
      }
    }

    /** What was reported stays true: sent, skipped and abandoned rows are settled for good. */
    lemma StillReported(soFar: seq<Event>, candidates: seq<DeliveryKey>, outcomes: seq<Outcome>)
      requires Valid() && soFar <= log && |outcomes| <= |candidates|
      requires AllReported(Exec(p, Start, soFar), candidates, outcomes)
      ensures AllReported(sys, candidates, outcomes)
    {
      var s := Exec(p, Start, soFar);
      var es := log[|soFar|..];
      assert log == soFar + es;
      ExecAppend(p, Start, soFar, es);
      ReachableInv(p, soFar);
      forall i | 0 <= i < |outcomes| ensures Reported(sys, candidates[i], outcomes[i]) {
        assert Reported(s, candidates[i], outcomes[i]);
        if outcomes[i].Accepted? || outcomes[i].NothingToSend? || outcomes[i].Unhandled? {
          SettledForever(p, s, es, candidates[i]);
        }
      }
    }
  }
}
