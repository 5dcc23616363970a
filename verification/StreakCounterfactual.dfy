/**
  A streak repair beside the run in which the reset had been an extension
  (backend/app/streak/service.py, repair_streak).
 */
module StreakCounterfactual {
  import opened Basics
  import opened Streak
  import opened StreakRepair

  // ---------------------------------------------------------------- resets, and runs after one

  /** The reset before the last one. */
  function PriorReset(l: Ledger): Option<StreakEvent> {
    if l == [] then None
    else if l[|l| - 1].kind.Reset? then LastReset(l[..|l| - 1])
    else PriorReset(l[..|l| - 1])
  }

  function Day(e: Option<StreakEvent>): Option<int> {
    match e case None => None case Some(row) => Some(row.date)
  }

  /** Later events, from a last active date and a moment on: submissions that do not step back, outage fills and grants. */
  predicate LaterEvents(d: int, from: int, ts: seq<Timed>)
    decreases |ts|
  {
    ts == [] ||
    var t := ts[0];
    && from <= t.now
    && match t.op
       case DoSubmit(today) => d <= today && LaterEvents(today, t.now, ts[1..])
       case DoOutage(_) => LaterEvents(d, t.now, ts[1..])
       case DoGrant(_) => LaterEvents(d, t.now, ts[1..])
       case _ => false
  }

  predicate Extends(c: Settings, a: Account, today: int, now: int) {
    a.lastActive == Some(today) || Bridge(c, a, today, now).Some?
  }

  /** No submission of the run resets the streak. */
  predicate NeverResets(c: Settings, a: Account, ts: seq<Timed>)
    decreases |ts|
  {
    ts == []
    || ((ts[0].op.DoSubmit? ==> Extends(c, a, ts[0].op.today, ts[0].now))
        && NeverResets(c, Apply(c, a, ts[0]), ts[1..]))
  }

  /** What every run without a step back leaves. */
  ghost predicate Settled(c: Settings, initial: int, a: Account) {
    Safe(c, initial, a) && Tidy(false, a) && Anchored(a)
  }

  /** Such an account, last active on a day, with no row later than a moment. */
  ghost predicate Active(c: Settings, initial: int, a: Account, d: int, from: int) {
    Settled(c, initial, a) && a.lastActive == Some(d) && RowsBy(a, from)
  }

  predicate RowsBy(a: Account, from: int) {
    a.ledger != [] ==> a.ledger[|a.ledger| - 1].createdAt <= from
  }

  function DayAfter(d: int, t: Timed): int {
    if t.op.DoSubmit? then t.op.today else d
  }

  /** The resets the ledger holds, seen through any other row but a repair. */
  predicate SameResets(l: Ledger, m: Ledger) {
    LastReset(m) == LastReset(l) && PriorReset(m) == PriorReset(l)
  }

  /** The ledger facts a repair reads, seen through bookkeeping rows. */
  ghost predicate SameAnswers(l: Ledger, m: Ledger) {
    && SameResets(l, m) && LastTransition(m) == LastTransition(l)
    && forall id :: AlreadyRepaired(m, id) == AlreadyRepaired(l, id)
  }

  lemma BookkeepingAnswers(l: Ledger, e: StreakEvent)
    requires !IsTransition(e) && !e.kind.Repaired?
    ensures SameAnswers(l, l + [e])
  {
    assert (l + [e])[..|l|] == l;
  }

  lemma {:induction false} SpendAnswers(a: Account, days: seq<int>, now: int)
    ensures SameAnswers(a.ledger, SpendOn(a, days, now).ledger)
    decreases |days|
  {
    if days != [] {
      var b := Append(a, FreezeUsed, a.current, a.current, days[0], Spent(days[0]), now);
      BookkeepingAnswers(a.ledger, b.ledger[|a.ledger|]);
      SpendAnswers(b, days[1..], now);
    }
  }

  lemma BridgeAnswers(c: Settings, a: Account, today: int, now: int)
    requires Bridge(c, a, today, now).Some?
    ensures SameAnswers(a.ledger, Bridge(c, a, today, now).value.ledger)
  {
    if a.lastActive.Some? && a.lastActive.value != today - 1 {
      var uncovered := Uncovered(a.ledger, MissedDates(a.lastActive.value, today));
      SpendAnswers(a.(freezes := a.freezes - |uncovered|), uncovered, now);
    }
  }

  /** A transition to a value on a day, by a row that repairs nothing. */
  ghost predicate Moves(l: Ledger, b: Account, today: int) {
    && b.lastActive == Some(today)
    && LastTransition(b.ledger).Some?
    && LastTransition(b.ledger).value.toValue == b.current && LastTransition(b.ledger).value.date == today
    && forall id :: AlreadyRepaired(b.ledger, id) == AlreadyRepaired(l, id)
  }

  lemma AdvanceAnswers(a: Account, kind: Kind, toValue: nat, today: int, now: int)
    requires kind.Extended? || kind.Reset?
    ensures var b := Advance(a, kind, toValue, today, now);
            && Moves(a.ledger, b, today)
            && (kind.Extended? ==> SameResets(a.ledger, b.ledger))
            && (kind.Reset? ==> PriorReset(b.ledger) == LastReset(a.ledger)
                                && LastReset(b.ledger) == Some(StreakEvent(a.nextId, Reset, a.current, toValue, today, Blank, now)))
  {
    var b := Advance(a, kind, toValue, today, now);
    assert b.ledger[..|a.ledger|] == a.ledger;
  }

  lemma ExtendAnswers(c: Settings, a: Account, today: int, now: int)
    ensures var b := Extend(c, a, today, now);
            && b.current == a.current + 1 && b.longest == Max(a.longest, b.current)
            && Moves(a.ledger, b, today) && SameResets(a.ledger, b.ledger)
  {
    var m := Advance(a, Extended, a.current + 1, today, now);
    AdvanceAnswers(a, Extended, a.current + 1, today, now);
    BookkeepingAnswers(m.ledger, StreakEvent(m.nextId, Adjusted, m.current, m.current, today, Earned, now));
  }

  /** What a submission on a new day does to the values a repair is computed from. */
  ghost predicate Moved(c: Settings, a: Account, today: int, now: int, b: Account) {
    && Moves(a.ledger, b, today)
    && if Bridge(c, a, today, now).Some?
       then b.current == a.current + 1 && b.longest == Max(a.longest, b.current) && SameResets(a.ledger, b.ledger)
       else
         && b.current == 1 && PriorReset(b.ledger) == LastReset(a.ledger)
         && LastReset(b.ledger) == Some(StreakEvent(a.nextId, Reset, a.current, 1, today, Blank, now))
  }

  lemma SubmitAnswers(c: Settings, initial: int, a: Account, today: int, now: int)
    requires Safe(c, initial, a) && Tidy(false, a) && Forward(a, Timed(DoSubmit(today), now))
    requires a.lastActive != Some(today)
    ensures Submit(c, a, today, now).Some? && Moved(c, a, today, now, Submit(c, a, today, now).value)
  {
    NoLaterTransition(a.ledger, today);
    match Bridge(c, a, today, now)
    case Some(b) =>
      BridgeAnswers(c, a, today, now);
      BridgeKeeps(c, initial, a, today, now);
      ExtendAnswers(c, b, today, now);
    case None =>
      AdvanceAnswers(a, Reset, 1, today, now);
  }

  /** An outage fill or a grant changes nothing a repair reads. */
  lemma NoteAnswers(c: Settings, a: Account, t: Timed)
    requires t.op.DoOutage? || t.op.DoGrant?
    ensures var b := Apply(c, a, t);
            && SameAnswers(a.ledger, b.ledger)
            && b.current == a.current && b.longest == a.longest && b.lastActive == a.lastActive
  {
    var b := Apply(c, a, t);
    if b.ledger != a.ledger { BookkeepingAnswers(a.ledger, b.ledger[|a.ledger|]); }
  }

  lemma StepTimes(c: Settings, a: Account, t: Timed)
    requires RowsBy(a, t.now) && (t.op.DoSubmit? || t.op.DoOutage? || t.op.DoGrant?)
    ensures RowsBy(Apply(c, a, t), t.now)
  {
  }

  /** A later event leaves a state the next can build on. */
  lemma StepActive(c: Settings, initial: int, a: Account, d: int, from: int, ts: seq<Timed>)
    requires ts != [] && Active(c, initial, a, d, from) && LaterEvents(d, from, ts)
    ensures Active(c, initial, Apply(c, a, ts[0]), DayAfter(d, ts[0]), ts[0].now)
    ensures LaterEvents(DayAfter(d, ts[0]), ts[0].now, ts[1..])
  {
    var t := ts[0];
    ApplyKeeps(c, initial, a, t);
    ApplyKeepsTidy(false, c, initial, a, t);
    ApplyAnchored(c, a, t);
    StepTimes(c, a, t);
    if t.op.DoSubmit? && a.lastActive != Some(t.op.today) {
      SubmitAnswers(c, initial, a, t.op.today, t.now);
    }
    if !t.op.DoSubmit? { NoteAnswers(c, a, t); }
  }

  // ---------------------------------------------------------------- what one run does to the resets

  predicate ResetBy(r: Option<StreakEvent>, d: int) {
    r.Some? ==> r.value.date <= d
  }

  predicate ResetAfter(r: Option<StreakEvent>, d: int) {
    r.Some? && r.value.date > d
  }

  /** What a run of later events leaves, according to whether any submission resets. */
  ghost predicate Outcome(kept: bool, a: Account, d: int, b: Account) {
    if kept
    then SameResets(a.ledger, b.ledger) && b.current >= a.current && b.longest == Max(a.longest, b.current)
    else
      && ResetAfter(LastReset(b.ledger), d)
      && (PriorReset(b.ledger) == LastReset(a.ledger) || ResetAfter(PriorReset(b.ledger), d))
  }

  /** The submission of a new day that finds no bridge. */
  predicate Resets(c: Settings, a: Account, t: Timed) {
    t.op.DoSubmit? && !Extends(c, a, t.op.today, t.now)
  }

  lemma StepOutcome(c: Settings, initial: int, a: Account, d: int, from: int, ts: seq<Timed>)
    requires ts != [] && Active(c, initial, a, d, from) && LaterEvents(d, from, ts)
    ensures Outcome(!Resets(c, a, ts[0]), a, d, Apply(c, a, ts[0])) && DayAfter(d, ts[0]) >= d
  {
    var t := ts[0];
    if t.op.DoSubmit? {
      if a.lastActive != Some(t.op.today) { SubmitAnswers(c, initial, a, t.op.today, t.now); }
    } else {
      NoteAnswers(c, a, t);
    }
  }

  lemma OutcomeThen(a: Account, d: int, kept: bool, b: Account, d': int, kept': bool, e: Account)
    requires Outcome(kept, a, d, b) && Outcome(kept', b, d', e) && d <= d' && a.longest >= a.current
    ensures Outcome(kept && kept', a, d, e)
  {
  }

  lemma {:induction false} RunResets(c: Settings, initial: int, a: Account, d: int, from: int, ts: seq<Timed>)
    requires Active(c, initial, a, d, from) && LaterEvents(d, from, ts)
    ensures Outcome(NeverResets(c, a, ts), a, d, Exec(c, a, ts))
    decreases |ts|
  {
    if ts != [] {
      var t, b := ts[0], Apply(c, a, ts[0]);
      StepActive(c, initial, a, d, from, ts);
      StepOutcome(c, initial, a, d, from, ts);
      RunResets(c, initial, b, DayAfter(d, t), t.now, ts[1..]);
      OutcomeThen(a, d, !Resets(c, a, t), b, DayAfter(d, t), NeverResets(c, b, ts[1..]), Exec(c, b, ts[1..]));
    }
  }

  // ---------------------------------------------------------------- the run as it went beside the unbroken one

  /** The last reset, of `since` or later, can still be repaired, and the run since is the current streak. */
  ghost predicate Repairable(a: Account, since: int) {
    && LastReset(a.ledger).Some? && LastTransition(a.ledger).Some?
    && var reset := LastReset(a.ledger).value;
       && reset.createdAt >= since && reset.fromValue > 0 && !AlreadyRepaired(a.ledger, reset.id)
       && LastTransition(a.ledger).value.toValue == a.current && LastTransition(a.ledger).value.date >= reset.date
  }

  function RestoredValue(a: Account): nat {
    match LastReset(a.ledger) case None => a.current case Some(reset) => reset.fromValue + a.current
  }

  /** Streaks are equal exactly when they began at one place: a repair takes a streak back to the reset before the last. */
  predicate Aligned(a: Account, b: Account, d: int) {
    && LastReset(a.ledger).Some?
    && ResetBy(LastReset(a.ledger), d) && ResetBy(PriorReset(a.ledger), d) && ResetBy(LastReset(b.ledger), d)
    && (RestoredValue(a) == b.current <==> Day(PriorReset(a.ledger)) == Day(LastReset(b.ledger)))
    && (a.current == b.current <==> Day(LastReset(a.ledger)) == Day(LastReset(b.ledger)))
  }

  /** The account as it went beside the one without the reset of `since`. */
  ghost predicate Beside(c: Settings, initial: int, a: Account, b: Account, d: int, from: int, since: int) {
    && Active(c, initial, a, d, from) && Active(c, initial, b, d, from)
    && Repairable(a, since) && Aligned(a, b, d)
  }

  lemma StepRepairable(c: Settings, initial: int, a: Account, d: int, from: int, since: int, ts: seq<Timed>)
    requires ts != [] && Active(c, initial, a, d, from) && LaterEvents(d, from, ts) && since <= from
    requires Repairable(a, since)
    ensures Repairable(Apply(c, a, ts[0]), since)
  {
    var t := ts[0];
    if t.op.DoSubmit? {
      if a.lastActive != Some(t.op.today) {
        SubmitAnswers(c, initial, a, t.op.today, t.now);
        FreshIdUnrepaired(a.ledger, a.nextId, a.nextId);
      }
    } else {
      NoteAnswers(c, a, t);
    }
  }

  lemma MovedAligned(c: Settings, a: Account, b: Account, d: int, today: int, now: int, a': Account, b': Account)
    requires Aligned(a, b, d) && d < today && a.current > 0 && b.current > 0
    requires Moved(c, a, today, now, a') && Moved(c, b, today, now, b')
    ensures Aligned(a', b', today)
  {
  }

  lemma StepBeside(c: Settings, initial: int, a: Account, b: Account, d: int, from: int, since: int, ts: seq<Timed>)
    requires ts != [] && Beside(c, initial, a, b, d, from, since) && LaterEvents(d, from, ts) && since <= from
    ensures Beside(c, initial, Apply(c, a, ts[0]), Apply(c, b, ts[0]), DayAfter(d, ts[0]), ts[0].now, since)
  {
    var t := ts[0];
    var a', b' := Apply(c, a, t), Apply(c, b, t);
    StepActive(c, initial, a, d, from, ts);
    StepActive(c, initial, b, d, from, ts);
    StepRepairable(c, initial, a, d, from, since, ts);
    assert Aligned(a', b', DayAfter(d, t)) by {
      if t.op.DoSubmit? {
        if d != t.op.today {
          SubmitAnswers(c, initial, a, t.op.today, t.now);
          SubmitAnswers(c, initial, b, t.op.today, t.now);
          MovedAligned(c, a, b, d, t.op.today, t.now, a', b');
        }
      } else {
        NoteAnswers(c, a, t);
        NoteAnswers(c, b, t);
      }
    }
  }

  lemma {:induction false} RunBeside(c: Settings, initial: int, a: Account, b: Account, d: int, from: int, since: int,
                                     ts: seq<Timed>)
    requires Beside(c, initial, a, b, d, from, since) && LaterEvents(d, from, ts) && since <= from
    ensures exists last, end :: Beside(c, initial, Exec(c, a, ts), Exec(c, b, ts), last, end, since)
    decreases |ts|
  {
    if ts == [] {
      assert Beside(c, initial, Exec(c, a, ts), Exec(c, b, ts), d, from, since);
    } else {
      StepActive(c, initial, a, d, from, ts);
      StepBeside(c, initial, a, b, d, from, since, ts);
      var a', b' := Apply(c, a, ts[0]), Apply(c, b, ts[0]);
      RunBeside(c, initial, a', b', DayAfter(d, ts[0]), ts[0].now, since, ts[1..]);
      var last, end :| Beside(c, initial, Exec(c, a', ts[1..]), Exec(c, b', ts[1..]), last, end, since);
      assert Exec(c, a, ts) == Exec(c, a', ts[1..]) && Exec(c, b, ts) == Exec(c, b', ts[1..]);
    }
  }

  /** Day d's submission resets the streak. */
  predicate Breaks(c: Settings, a: Account, d: int, now: int) {
    && Forward(a, Timed(DoSubmit(d), now)) && a.lastActive.Some? && a.lastActive.value < d
    && Bridge(c, a, d, now).None?
  }

  lemma {:induction false} ResetIsTransition(l: Ledger)
    requires Ordered(l) && LastReset(l).Some?
    ensures LastTransition(l).Some? && LastReset(l).value.date <= LastTransition(l).value.date
  {
    if !l[|l| - 1].kind.Reset? {
      ResetIsTransition(l[..|l| - 1]);
    }
  }

  /** The account after day d's submission as it went, and the one in which it had been an extension. */
  function Broken(c: Settings, a: Account, d: int, now: int): Account {
    Apply(c, a, Timed(DoSubmit(d), now))
  }

  lemma BothActive(c: Settings, initial: int, a: Account, d: int, now: int)
    requires Settled(c, initial, a) && Breaks(c, a, d, now)
    ensures Active(c, initial, Broken(c, a, d, now), d, now) && Active(c, initial, Extend(c, a, d, now), d, now)
  {
    var t := Timed(DoSubmit(d), now);
    SubmitAnswers(c, initial, a, d, now);
    ApplyKeeps(c, initial, a, t);
    ApplyKeepsTidy(false, c, initial, a, t);
    ApplyAnchored(c, a, t);
    StepTimes(c, a, t);
    NoLaterTransition(a.ledger, d);
    ExtendKeeps(c, initial, a, d, now);
    ExtendKeepsTidy(false, c, a, d, now);
    ExtendAnchored(c, a, d, now);
  }

  lemma ResetBegins(c: Settings, initial: int, a: Account, d: int, now: int)
    requires Settled(c, initial, a) && Breaks(c, a, d, now)
    ensures Beside(c, initial, Broken(c, a, d, now), Extend(c, a, d, now), d, now, now)
    ensures var a1, b1 := Broken(c, a, d, now), Extend(c, a, d, now);
            && a1.current == 1 && a1.longest == Max(a.longest, 1)
            && b1.current == a.current + 1 && b1.longest == Max(a.longest, b1.current)
            && LastReset(a1.ledger) == Some(StreakEvent(a.nextId, Reset, a.current, 1, d, Blank, now))
            && PriorReset(a1.ledger) == LastReset(a.ledger) == LastReset(b1.ledger) && ResetBy(LastReset(a.ledger), d - 1)
  {
    BothActive(c, initial, a, d, now);
    SubmitAnswers(c, initial, a, d, now);
    FreshIdUnrepaired(a.ledger, a.nextId, a.nextId);
    ExtendAnswers(c, a, d, now);
    if LastReset(a.ledger).Some? { ResetIsTransition(a.ledger); }
  }

  /** Inside the window a repair is accepted, and restores the value lost at the last reset plus the run since. */
  lemma RepairValue(c: Settings, a: Account, since: int, today: int, lead: string, now: int)
    requires Ordered(a.ledger) && Repairable(a, since) && now - c.repairWindow <= since
    ensures var r := Repair(c, a, today, lead, now);
            && r.Some? && r.value.current == RestoredValue(a) > a.current
            && r.value.longest == Max(a.longest, RestoredValue(a))
  {
    LatestResetIsLast(a.ledger, now - c.repairWindow);
    LatestTransitionIsLast(a.ledger, LastReset(a.ledger).value.date);
  }

  /** The repair beside the unbroken run, with no hypothesis on how either went on. */
  ghost predicate Compares(actual: Account, unbroken: Account, repaired: Option<Account>) {
    && repaired.Some? && LastReset(actual.ledger).Some?
    && repaired.value.current == LastReset(actual.ledger).value.fromValue + actual.current > actual.current
    && repaired.value.longest == Max(actual.longest, repaired.value.current)
    && (repaired.value.current == unbroken.current <==>
          Day(PriorReset(actual.ledger)) == Day(LastReset(unbroken.ledger)))
  }

  lemma RepairFromState(c: Settings, initial: int, a: Account, d: int, now: int, after: seq<Timed>,
                        today: int, lead: string, repairedAt: int)
    requires Settled(c, initial, a) && Breaks(c, a, d, now) && LaterEvents(d, now, after)
    requires repairedAt - c.repairWindow <= now
    ensures var actual := Exec(c, Broken(c, a, d, now), after);
            Compares(actual, Exec(c, Extend(c, a, d, now), after), Repair(c, actual, today, lead, repairedAt))
  {
    ResetBegins(c, initial, a, d, now);
    RunBeside(c, initial, Broken(c, a, d, now), Extend(c, a, d, now), d, now, now, after);
    RepairValue(c, Exec(c, Broken(c, a, d, now), after), now, today, lead, repairedAt);
  }

  /** With the runs told apart by whether any later submission reset them. */
  ghost predicate Keeps(a: Account, keptActual: bool, keptUnbroken: bool, actual: Account, unbroken: Account,
                        repaired: Option<Account>) {
    && repaired.Some?
    && (keptActual ==>
          && repaired.value.current == a.current + actual.current
          && repaired.value.longest == Max(a.longest, repaired.value.current))
    && (keptActual || keptUnbroken ==> (repaired.value.current == unbroken.current <==> keptActual && keptUnbroken))
    && (keptActual && keptUnbroken ==> repaired.value.longest == unbroken.longest)
  }

  lemma KeptFromState(c: Settings, initial: int, a: Account, d: int, now: int, after: seq<Timed>,
                      today: int, lead: string, repairedAt: int)
    requires Settled(c, initial, a) && Breaks(c, a, d, now) && LaterEvents(d, now, after)
    requires repairedAt - c.repairWindow <= now
    ensures var a1, b1 := Broken(c, a, d, now), Extend(c, a, d, now);
            var actual := Exec(c, a1, after);
            Keeps(a, NeverResets(c, a1, after), NeverResets(c, b1, after), actual, Exec(c, b1, after),
                  Repair(c, actual, today, lead, repairedAt))
  {
    ResetBegins(c, initial, a, d, now);
    RepairFromState(c, initial, a, d, now, after, today, lead, repairedAt);
    RunResets(c, initial, Broken(c, a, d, now), d, now, after);
    RunResets(c, initial, Extend(c, a, d, now), d, now, after);
  }

  lemma RunSettles(c: Settings, born: Account, before: seq<Timed>)
    requires Fresh(c, born) && ForwardRun(c, born, before) && CleanOps(before)
    ensures Settled(c, born.freezes, Exec(c, born, before))
  {
    RunKeepsTidy(false, c, born.freezes, born, before);
    RunAnchored(c, born, before);
  }

  /**
    Repair against the unbroken counterfactual, exactly. From any state a run can reach, when day d's
    submission resets the streak, and whatever submissions, outage fills and grants follow: a repair
    inside the window is accepted, restores the value lost at the last reset plus the run since, and
    gives the streak of the run in which d had been an extension if and only if the last reset but one
    of the run as it went is the last reset of that other run.
   */
  lemma RepairIsCounterfactual(c: Settings, born: Account, before: seq<Timed>, d: int, now: int, after: seq<Timed>,
                               today: int, lead: string, repairedAt: int)
    requires Fresh(c, born) && ForwardRun(c, born, before) && CleanOps(before)
    requires Breaks(c, Exec(c, born, before), d, now) && LaterEvents(d, now, after)
    requires repairedAt - c.repairWindow <= now
    ensures var a := Exec(c, born, before);
            var actual, unbroken := Exec(c, Broken(c, a, d, now), after), Exec(c, Extend(c, a, d, now), after);
            var repaired := Repair(c, actual, today, lead, repairedAt);
            && repaired.Some? && LastReset(actual.ledger).Some?
            && repaired.value.current == LastReset(actual.ledger).value.fromValue + actual.current > actual.current
            && repaired.value.longest == Max(actual.longest, repaired.value.current)
            && (repaired.value.current == unbroken.current <==>
                  Day(PriorReset(actual.ledger)) == Day(LastReset(unbroken.ledger)))
  {
    RunSettles(c, born, before);
    RepairFromState(c, born.freezes, Exec(c, born, before), d, now, after, today, lead, repairedAt);
  }

  /**
    Seen from the submissions: if none resets the run as it went, the repair gives the value lost plus that
    run; and if one of the two runs is never reset, the repair gives the unbroken streak if and only if the
    other is not either, and then the record too.
   */
  lemma RepairWhenKept(c: Settings, born: Account, before: seq<Timed>, d: int, now: int, after: seq<Timed>,
                       today: int, lead: string, repairedAt: int)
    requires Fresh(c, born) && ForwardRun(c, born, before) && CleanOps(before)
    requires Breaks(c, Exec(c, born, before), d, now) && LaterEvents(d, now, after)
    requires repairedAt - c.repairWindow <= now
    ensures var a := Exec(c, born, before);
            var a1, b1 := Broken(c, a, d, now), Extend(c, a, d, now);
            var actual := Exec(c, a1, after);
            Keeps(a, NeverResets(c, a1, after), NeverResets(c, b1, after), actual, Exec(c, b1, after),
                  Repair(c, actual, today, lead, repairedAt))
  {
    RunSettles(c, born, before);
    KeptFromState(c, born.freezes, Exec(c, born, before), d, now, after, today, lead, repairedAt);
  }

  // ---------------------------------------------------------------- daily submissions

  /** One submission a day from day d + 1 on, at these times. */
  function Daily(d: int, times: seq<int>): seq<Timed>
    decreases |times|
  {
    if times == [] then [] else [Timed(DoSubmit(d + 1), times[0])] + Daily(d + 1, times[1..])
  }

  /** Times that do not step back, from a moment on. */
  predicate Onward(from: int, times: seq<int>)
    decreases |times|
  {
    times == [] || (from <= times[0] && Onward(times[0], times[1..]))
  }

  lemma {:induction false} DailyIsLater(d: int, from: int, times: seq<int>)
    requires Onward(from, times)
    ensures LaterEvents(d, from, Daily(d, times)) && CleanOps(Daily(d, times))
    decreases |times|
  {
    if times != [] {
      assert Daily(d, times)[0] == Timed(DoSubmit(d + 1), times[0]) && Daily(d, times)[1..] == Daily(d + 1, times[1..]);
      DailyIsLater(d + 1, times[0], times[1..]);
      assert forall i :: 0 < i < |Daily(d, times)| ==> Daily(d, times)[i] == Daily(d, times)[1..][i - 1];
    }
  }

  /** Day d + 1 can extend without a bridge: d was active, or nothing was yet. */
  ghost predicate UpTo(a: Account, d: int) {
    (a.lastActive.None? || a.lastActive == Some(d)) && forall day :: day > d ==> !HasTransition(a.ledger, day)
  }

  lemma DailyStep(c: Settings, a: Account, d: int, now: int)
    requires UpTo(a, d)
    ensures var b := Apply(c, a, Timed(DoSubmit(d + 1), now));
            && b == Extend(c, a, d + 1, now) && b.current == a.current + 1
            && b.lastActive == Some(d + 1) && UpTo(b, d + 1)
  {
    var m := Advance(a, Extended, a.current + 1, d + 1, now);
    QueriesAppend(a.ledger, m.ledger[|a.ledger|]);
    QueriesAppend(m.ledger, StreakEvent(m.nextId, Adjusted, m.current, m.current, d + 1, Earned, now));
  }

  /** Each of the daily submissions extends, whatever the balance. */
  lemma {:induction false} DailyCounts(c: Settings, a: Account, d: int, times: seq<int>)
    requires UpTo(a, d)
    ensures NeverResets(c, a, Daily(d, times))
    ensures var b := Exec(c, a, Daily(d, times));
            && b.current == a.current + |times| && UpTo(b, d + |times|)
            && (times != [] || a.lastActive.Some? ==> b.lastActive == Some(d + |times|))
    decreases |times|
  {
    if times != [] {
      DailyStep(c, a, d, times[0]);
      assert Daily(d, times)[0] == Timed(DoSubmit(d + 1), times[0]) && Daily(d, times)[1..] == Daily(d + 1, times[1..]);
      DailyCounts(c, Apply(c, a, Timed(DoSubmit(d + 1), times[0])), d + 1, times[1..]);
    }
  }

  lemma DailyFromState(c: Settings, initial: int, a: Account, d: int, now: int, times: seq<int>,
                       today: int, lead: string, repairedAt: int)
    requires Settled(c, initial, a) && Breaks(c, a, d, now) && Onward(now, times) && repairedAt - c.repairWindow <= now
    ensures var actual := Exec(c, Broken(c, a, d, now), Daily(d, times));
            Restores(a, actual, |times|, Repair(c, actual, today, lead, repairedAt))
  {
    var a1 := Broken(c, a, d, now);
    ResetBegins(c, initial, a, d, now);
    forall day | day > d ensures !HasTransition(a1.ledger, day) {
      NoLaterTransition(a1.ledger, day);
    }
    DailyCounts(c, a1, d, times);
    DailyIsLater(d, now, times);
    KeptFromState(c, initial, a, d, now, Daily(d, times), today, lead, repairedAt);
  }

  /** The repair after daily submissions gives the streak of the run without the gap. */
  predicate Restores(a: Account, actual: Account, days: nat, repaired: Option<Account>) {
    && repaired.Some?
    && actual.current == 1 + days
    && repaired.value.current == a.current + 1 + days
    && repaired.value.longest == Max(a.longest, a.current + 1 + days)
  }

  /**
    From any state a run can reach, a reset on day d, a submission on each of the next k days and a repair
    inside the window restore exactly what the streak would be had the gap never been.
   */
  lemma RepairAfterDailySubmissions(c: Settings, born: Account, before: seq<Timed>, d: int, now: int, times: seq<int>,
                                    today: int, lead: string, repairedAt: int)
    requires Fresh(c, born) && ForwardRun(c, born, before) && CleanOps(before)
    requires Breaks(c, Exec(c, born, before), d, now)
    requires Onward(now, times) && repairedAt - c.repairWindow <= now
    ensures var a := Exec(c, born, before);
            var actual := Exec(c, Broken(c, a, d, now), Daily(d, times));
            Restores(a, actual, |times|, Repair(c, actual, today, lead, repairedAt))
  {
    RunSettles(c, born, before);
    DailyFromState(c, born.freezes, Exec(c, born, before), d, now, times, today, lead, repairedAt);
  }

  // ---------------------------------------------------------------- where the two part

  /** config.py: two freezes at most, one more every ten days, repairs for 48 hours. */
  const SHIPPED := Settings(2, 2, 10, 48)

  /** Below the first milestone daily submissions leave an empty balance empty. */
  lemma {:induction false} DailyEarnsNothing(a: Account, d: int, times: seq<int>)
    requires UpTo(a, d) && a.freezes == 0 && a.current + |times| < 10
    requires forall day :: !Covered(a.ledger, day)
    ensures var b := Exec(SHIPPED, a, Daily(d, times)); b.freezes == 0 && forall day :: !Covered(b.ledger, day)
    decreases |times|
  {
    if times != [] {
      DailyStep(SHIPPED, a, d, times[0]);
      MultipleIsModulo(a.current + 1, 10);
      var m := Advance(a, Extended, a.current + 1, d + 1, times[0]);
      QueriesAppend(a.ledger, m.ledger[|a.ledger|]);
      assert Daily(d, times)[0] == Timed(DoSubmit(d + 1), times[0]) && Daily(d, times)[1..] == Daily(d + 1, times[1..]);
      DailyEarnsNothing(m, d + 1, times[1..]);
    }
  }

  /** One missed day is bridged exactly when there is a freeze for it. */
  lemma OneDayGap(a: Account, today: int, now: int)
    requires a.lastActive == Some(today - 2) && !Covered(a.ledger, today - 1)
    ensures Bridge(SHIPPED, a, today, now).Some? <==> a.freezes >= 1
  {
    var missed := MissedDates(today - 2, today);
    assert missed == [today - 1] && missed[..0] == [];
    assert Uncovered(a.ledger, missed[..0]) == [];
    assert Uncovered(a.ledger, missed) == [today - 1];
  }

  lemma {:induction false} DailyIsForward(c: Settings, a: Account, d: int, from: int, times: seq<int>)
    requires UpTo(a, d) && RowsBy(a, from) && Onward(from, times)
    ensures ForwardRun(c, a, Daily(d, times))
    ensures forall upto :: from <= upto && (forall i :: 0 <= i < |times| ==> times[i] <= upto) ==>
              RowsBy(Exec(c, a, Daily(d, times)), upto)
    decreases |times|
  {
    if times != [] {
      var first := Timed(DoSubmit(d + 1), times[0]);
      DailyStep(c, a, d, times[0]);
      StepTimes(c, a, first);
      assert Daily(d, times)[0] == first && Daily(d, times)[1..] == Daily(d + 1, times[1..]);
      DailyIsForward(c, Apply(c, a, first), d + 1, times[0], times[1..]);
    }
  }

  /** A row from before freezes were granted. */
  const BORN := Account(0, 0, None, 0, [], 0)

  lemma NineDaysAre(times: seq<int>, now: int)
    requires |times| == 9 && Onward(0, times) && 0 <= now && forall i :: 0 <= i < |times| ==> times[i] <= now
    ensures var a := Exec(SHIPPED, BORN, Daily(0, times));
            && Settled(SHIPPED, 0, a) && RowsBy(a, now)
            && a.current == 9 && a.freezes == 0 && a.lastActive == Some(9) && forall day :: !Covered(a.ledger, day)
  {
    DailyCounts(SHIPPED, BORN, 0, times);
    DailyEarnsNothing(BORN, 0, times);
    DailyIsLater(0, 0, times);
    DailyIsForward(SHIPPED, BORN, 0, 0, times);
    RunSettles(SHIPPED, BORN, Daily(0, times));
  }

  lemma EachGap(a: Account, now: int)
    requires Settled(SHIPPED, 0, a) && Breaks(SHIPPED, a, 11, now)
    requires a.current == 9 && a.freezes == 0 && forall day :: !Covered(a.ledger, day)
    ensures !Extends(SHIPPED, Broken(SHIPPED, a, 11, now), 13, now + 48)
    ensures Extends(SHIPPED, Extend(SHIPPED, a, 11, now), 13, now + 48)
  {
    var a1, b1 := Broken(SHIPPED, a, 11, now), Extend(SHIPPED, a, 11, now);
    NoLaterTransition(a.ledger, 11);
    QueriesAppend(a.ledger, StreakEvent(a.nextId, Reset, a.current, 1, 11, Blank, now));
    OneDayGap(a1, 13, now + 48);
    MultipleIsModulo(10, 10);
    var m := Advance(a, Extended, 10, 11, now);
    QueriesAppend(a.ledger, m.ledger[|a.ledger|]);
    QueriesAppend(m.ledger, StreakEvent(m.nextId, Adjusted, 10, 10, 11, Earned, now));
    OneDayGap(b1, 13, now + 48);
  }

  lemma PartWays(a: Account, now: int, lead: string)
    requires Settled(SHIPPED, 0, a) && RowsBy(a, now) && a.lastActive == Some(9)
    requires a.current == 9 && a.freezes == 0 && forall day :: !Covered(a.ledger, day)
    ensures Breaks(SHIPPED, a, 11, now)
    ensures var actual := Apply(SHIPPED, Broken(SHIPPED, a, 11, now), Timed(DoSubmit(13), now + 48));
            var repaired := Repair(SHIPPED, actual, 13, lead, now + 48);
            repaired.Some? && repaired.value.current == 2
    ensures Apply(SHIPPED, Extend(SHIPPED, a, 11, now), Timed(DoSubmit(13), now + 48)).current == 11
  {
    var t := Timed(DoSubmit(13), now + 48);
    OneDayGap(a, 11, now);
    EachGap(a, now);
    ResetBegins(SHIPPED, 0, a, 11, now);
    var a1, b1 := Broken(SHIPPED, a, 11, now), Extend(SHIPPED, a, 11, now);
    SubmitAnswers(SHIPPED, 0, a1, 13, now + 48);
    SubmitAnswers(SHIPPED, 0, b1, 13, now + 48);
    ExecOne(a1, t);
    RepairFromState(SHIPPED, 0, a, 11, now, [t], 13, lead, now + 48);
  }

  lemma ExecOne(a: Account, t: Timed)
    ensures Exec(SHIPPED, a, [t]) == Apply(SHIPPED, a, t)
  {
    assert [t][1..] == [];
  }

  /**
    The two can part. Nine days in a row from an empty balance, day 10 missed, day 12 missed: had day 11
    extended, it would have earned the freeze that bridges day 12, and day 13 would make eleven; as it went
    day 13 resets again, and the repair restores two.
   */
  lemma FreezesDiverge(times: seq<int>, now: int, lead: string)
    requires |times| == 9 && Onward(0, times) && 0 <= now && forall i :: 0 <= i < |times| ==> times[i] <= now
    ensures var a, t := Exec(SHIPPED, BORN, Daily(0, times)), Timed(DoSubmit(13), now + 48);
            var actual := Apply(SHIPPED, Broken(SHIPPED, a, 11, now), t);
            var repaired := Repair(SHIPPED, actual, 13, lead, now + 48);
            && Breaks(SHIPPED, a, 11, now)
            && repaired.Some? && repaired.value.current == 2
            && Apply(SHIPPED, Extend(SHIPPED, a, 11, now), t).current == 11
  {
    NineDaysAre(times, now);
    PartWays(Exec(SHIPPED, BORN, Daily(0, times)), now, lead);
  }
}
