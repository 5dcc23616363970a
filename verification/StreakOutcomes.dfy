/**
  What each writer of a streak comes to, in days and rows (backend/app/streak/service.py,
  backend/app/attempts/service.py, backend/app/jobs/streak_recon.py).
 */
module StreakOutcomes {
  import opened Basics
  import opened Streak
  import opened StreakRepair

  /** Some row of the ledger froze this day. */
  predicate Frozen(l: Ledger, day: int) {
    exists k :: 0 <= k < |l| && l[k].kind.FreezeUsed? && l[k].date == day
  }

  /** Some row of the ledger moved the streak on this day. */
  predicate MovedOn(l: Ledger, day: int) {
    exists k :: 0 <= k < |l| && IsTransition(l[k]) && l[k].date == day
  }

  lemma {:induction false} CoveredIsFrozen(l: Ledger, day: int)
    ensures Covered(l, day) <==> Frozen(l, day)
    ensures HasTransition(l, day) <==> MovedOn(l, day)
  {
    if l != [] {
      var rest := l[..|l| - 1];
      CoveredIsFrozen(rest, day);
      assert forall k :: 0 <= k < |rest| ==> rest[k] == l[k];
    }
  }

  /** The days strictly between that no row froze. */
  function Unfrozen(l: Ledger, lastActive: int, today: int): set<int> {
    set d: int | lastActive < d < today && !Frozen(l, d)
  }

  lemma {:induction false} CountDays(days: seq<int>, s: set<int>)
    requires Distinct(days) && forall d :: d in days <==> d in s
    ensures |days| == |s|
  {
    if days == [] {
      forall d ensures d !in s { assert d in days <==> d in s; }
    } else {
      var rest, last := days[..|days| - 1], days[|days| - 1];
      assert days == rest + [last];
      CountDays(rest, s - {last});
    }
  }

  lemma UncoveredAreUnfrozen(l: Ledger, lastActive: int, today: int)
    ensures |Uncovered(l, MissedDates(lastActive, today))| == |Unfrozen(l, lastActive, today)|
  {
    var missed := MissedDates(lastActive, today);
    UncoveredDistinct(l, missed);
    forall d ensures Covered(l, d) <==> Frozen(l, d) { CoveredIsFrozen(l, d); }
    CountDays(Uncovered(l, missed), Unfrozen(l, lastActive, today));
  }

  /** The gap between two days can be paid for: every unfrozen day in it takes a freeze, and there are that many. */
  predicate CanPay(c: Settings, a: Account, lastActive: int, today: int) {
    |Unfrozen(a.ledger, lastActive, today)| <= a.freezes && |Unfrozen(a.ledger, lastActive, today)| <= c.max
  }

  /** A gap is covered exactly when there is one and its unfrozen days are within the balance and the cap; each costs one freeze. */
  lemma CoveredExactlyWhen(c: Settings, a: Account, lastActive: int, today: int, now: int)
    ensures TryCoverGap(c, a, lastActive, today, now).Some? <==> lastActive < today - 1 && CanPay(c, a, lastActive, today)
    ensures TryCoverGap(c, a, lastActive, today, now).Some? ==>
              var b := TryCoverGap(c, a, lastActive, today, now).value;
              b.current == a.current && b.freezes == a.freezes - |Unfrozen(a.ledger, lastActive, today)|
  {
    UncoveredAreUnfrozen(a.ledger, lastActive, today);
    var missed := MissedDates(lastActive, today);
    assert missed == [] <==> today <= lastActive + 1 by {
      if lastActive + 1 < today { assert lastActive + 1 in missed; }
    }
    var uncovered := Uncovered(a.ledger, missed);
    SpendLeaves(a.(freezes := a.freezes - |uncovered|), uncovered, now);
  }

  /** Today goes on from the last active day: there was none, it was yesterday, or the gap can be paid for. */
  predicate GoesOn(c: Settings, a: Account, today: int) {
    match a.lastActive
    case None => true
    case Some(d) => d == today - 1 || (d < today - 1 && CanPay(c, a, d, today))
  }

  /** The freezes a submission pays. */
  function Price(a: Account, today: int): int {
    match a.lastActive
    case None => 0
    case Some(d) => if d < today - 1 then |Unfrozen(a.ledger, d, today)| else 0
  }

  /** A milestone reached, with room in the balance. */
  predicate Milestone(c: Settings, streak: nat, balance: int) {
    c.earnEvery > 0 && streak % c.earnEvery == 0 && balance < c.max
  }

  predicate WroteTransition(a: Account, b: Account, kind: Kind, toValue: nat, today: int) {
    a.ledger <= b.ledger
    && exists k :: |a.ledger| <= k < |b.ledger|
         && b.ledger[k].kind == kind && b.ledger[k].date == today
         && b.ledger[k].fromValue == a.current && b.ledger[k].toValue == toValue
  }

  /**
    What a submission does, whole. On a day already active it does nothing; on a day that has its
    transition it is refused; else it extends the streak by one exactly when today goes on from the last
    active day, paying one freeze per unfrozen day between and earning one at a milestone, and otherwise
    resets it to one and leaves the balance alone.
   */
  lemma SubmitComesTo(c: Settings, a: Account, today: int, now: int)
    ensures a.lastActive == Some(today) ==> Submit(c, a, today, now) == Some(a)
    ensures a.lastActive != Some(today) ==> (Submit(c, a, today, now).None? <==> MovedOn(a.ledger, today))
    ensures a.lastActive != Some(today) && !MovedOn(a.ledger, today) ==>
              var b := Submit(c, a, today, now).value;
              && b.lastActive == Some(today) && b.longest == Max(a.longest, b.current)
              && if GoesOn(c, a, today)
                 then
                   && b.current == a.current + 1 && WroteTransition(a, b, Extended, a.current + 1, today)
                   && b.freezes == a.freezes - Price(a, today)
                      + (if Milestone(c, a.current + 1, a.freezes - Price(a, today)) then 1 else 0)
                 else b.current == 1 && WroteTransition(a, b, Reset, 1, today) && b.freezes == a.freezes
  {
    CoveredIsFrozen(a.ledger, today);
    if a.lastActive != Some(today) && !MovedOn(a.ledger, today) {
      if a.lastActive.Some? { CoveredExactlyWhen(c, a, a.lastActive.value, today, now); }
      match Bridge(c, a, today, now)
      case None =>
        var b := Advance(a, Reset, 1, today, now);
        assert b.ledger[|a.ledger|].kind.Reset?;
      case Some(m) =>
        BridgeOnlyPays(c, a, today, now);
        ExtendComesTo(c, a, m, today, now);
    }
  }

  lemma {:induction false} SpendGrows(a: Account, days: seq<int>, now: int)
    ensures a.ledger <= SpendOn(a, days, now).ledger
    decreases |days|
  {
    if days != [] {
      SpendGrows(Append(a, FreezeUsed, a.current, a.current, days[0], Spent(days[0]), now), days[1..], now);
    }
  }

  lemma BridgeOnlyPays(c: Settings, a: Account, today: int, now: int)
    requires Bridge(c, a, today, now).Some?
    ensures var b := Bridge(c, a, today, now).value;
            b == a.(freezes := b.freezes, ledger := b.ledger, nextId := b.nextId) && a.ledger <= b.ledger
  {
    if a.lastActive.Some? && a.lastActive.value != today - 1 {
      var uncovered := Uncovered(a.ledger, MissedDates(a.lastActive.value, today));
      SpendLeaves(a.(freezes := a.freezes - |uncovered|), uncovered, now);
      SpendGrows(a.(freezes := a.freezes - |uncovered|), uncovered, now);
    }
  }

  lemma ExtendComesTo(c: Settings, a: Account, m: Account, today: int, now: int)
    requires m == a.(freezes := m.freezes, ledger := m.ledger, nextId := m.nextId) && a.ledger <= m.ledger
    ensures var b := Extend(c, m, today, now);
            && b.lastActive == Some(today) && b.current == a.current + 1 && b.longest == Max(a.longest, b.current)
            && WroteTransition(a, b, Extended, a.current + 1, today)
            && b.freezes == m.freezes + if Milestone(c, a.current + 1, m.freezes) then 1 else 0
  {
    var b := Extend(c, m, today, now);
    if c.earnEvery > 0 { MultipleIsModulo(a.current + 1, c.earnEvery); }
    assert b.ledger[|m.ledger|] == StreakEvent(m.nextId, Extended, a.current, a.current + 1, today, Blank, now);
  }

  // ---------------------------------------------------------------- the other writers

  /** A free row for an active user's unfrozen date, and only then; the date is frozen after, the balance never touched. */
  lemma OutageComesTo(a: Account, date: int, now: int)
    ensures var b := OutageFreeze(a, date, now);
            && b == a.(ledger := b.ledger, nextId := b.nextId)
            && (b != a <==> a.lastActive.Some? && !Frozen(a.ledger, date))
            && (a.lastActive.Some? ==> Frozen(b.ledger, date))
            && (b != a ==> b.ledger == a.ledger + [StreakEvent(a.nextId, FreezeUsed, a.current, a.current, date, Outage, now)])
  {
    CoveredIsFrozen(a.ledger, date);
    var b := OutageFreeze(a, date, now);
    if b != a {
      assert b.ledger[|a.ledger|].date == date;
    }
  }

  /** The one-time grant: given exactly when none was and the balance is below it, and then the balance is it. */
  lemma GrantComesTo(c: Settings, a: Account, date: int, now: int)
    ensures var b := GrantInitial(c, a, date, now);
            var granted := exists k :: 0 <= k < |a.ledger| && a.ledger[k].kind.Adjusted? && a.ledger[k].note.InitialGrant?;
            && b == a.(freezes := b.freezes, ledger := b.ledger, nextId := b.nextId)
            && (b != a <==> a.freezes < Min(c.start, c.max) && !granted)
            && b.freezes == (if granted then a.freezes else Max(a.freezes, Min(c.start, c.max)))
  {
    var b := GrantInitial(c, a, date, now);
    assert b != a ==> |b.ledger| == |a.ledger| + 1;
  }

  /** The clamp: the last active date is never later than the new local date, and moves only if it was. */
  lemma ReconcileComesTo(a: Account, newToday: int, text: string, now: int)
    ensures var b := Reconcile(a, newToday, text, now);
            && b == a.(lastActive := b.lastActive, ledger := b.ledger, nextId := b.nextId)
            && b.lastActive == (match a.lastActive case None => None case Some(d) => Some(Min(d, newToday)))
            && (b.ledger != a.ledger <==> b.lastActive != a.lastActive)
  {
    var b := Reconcile(a, newToday, text, now);
    assert b != a ==> |b.ledger| == |a.ledger| + 1;
  }

  // ---------------------------------------------------------------- the repair window

  lemma {:induction false} LatestResetInWindow(l: Ledger, cutoff: int)
    ensures LatestReset(l, cutoff).Some? <==> exists k :: 0 <= k < |l| && l[k].kind.Reset? && l[k].createdAt >= cutoff
  {
    if l != [] {
      var rest := l[..|l| - 1];
      LatestResetInWindow(rest, cutoff);
      assert forall k :: 0 <= k < |rest| ==> rest[k] == l[k];
    }
  }

  /** Outside the window there is nothing to repair: without a reset in the last repairWindow, every repair is refused. */
  lemma RepairNeedsWindow(c: Settings, a: Account, today: int, lead: string, now: int)
    requires forall k :: 0 <= k < |a.ledger| && a.ledger[k].kind.Reset? ==> a.ledger[k].createdAt < now - c.repairWindow
    ensures Repair(c, a, today, lead, now).None?
  {
    LatestResetInWindow(a.ledger, now - c.repairWindow);
  }

  /** A reset repaired once is refused from then on. */
  lemma RepairedIsRefused(c: Settings, a: Account, today: int, lead: string, now: int, k: nat)
    requires Ordered(a.ledger) && LastReset(a.ledger).Some? && k < |a.ledger|
    requires a.ledger[k].kind.Repaired? && a.ledger[k].note.RepairOf? && Bracketless(a.ledger[k].note.lead)
    requires a.ledger[k].note.resetId == LastReset(a.ledger).value.id
    ensures Repair(c, a, today, lead, now).None?
  {
    LatestResetIsLast(a.ledger, now - c.repairWindow);
    AnchorSeen(a.ledger, k, a.ledger[k].note.resetId);
  }
}
