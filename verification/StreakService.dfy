/**
  The methods of backend/app/streak/service.py, the streak half of backend/app/attempts/service.py and
  the clamp of backend/app/jobs/streak_recon.py, updating one user's stats row and ledger in place.
  Each is proved equal to its specification in Streak.
 */
module StreakService {
  import opened Basics
  import S = Streak
  import opened Streak

  datatype StreakInfo = StreakInfo(current: nat, event: Kind)

  datatype Outcome = AlreadyActive | Moved(info: StreakInfo) | IntegrityError

  class UserStats {
    var currentStreak: nat
    var longestStreak: nat
    var lastActiveLocalDate: Option<int>
    var streakFreezes: int
    var streakEvents: Ledger
    var nextId: nat

    constructor (c: Settings)
      ensures Fresh(c, Acc()) && Acc().freezes == c.start
    {
      currentStreak, longestStreak, lastActiveLocalDate := 0, 0, None;
      streakFreezes, streakEvents, nextId := c.start, [], 0;
    }

    function Acc(): Account
      reads this
    {
      Account(currentStreak, longestStreak, lastActiveLocalDate, streakFreezes, streakEvents, nextId)
    }

    method AddEvent(kind: Kind, fromValue: nat, toValue: nat, date: int, note: Note, now: int)
      modifies `streakEvents, `nextId
      ensures Acc() == Append(old(Acc()), kind, fromValue, toValue, date, note, now)
    {
      streakEvents := streakEvents + [StreakEvent(nextId, kind, fromValue, toValue, date, note, now)];
      nextId := nextId + 1;
    }

    /** The missed days for which covered_dates finds no row. */
    method UncoveredDays(missed: seq<int>) returns (uncovered: seq<int>)
      ensures uncovered == Uncovered(streakEvents, missed)
    {
      uncovered := [];
      for i := 0 to |missed|
        invariant uncovered == Uncovered(streakEvents, missed[..i])
      {
        assert missed[..i + 1][..i] == missed[..i];
        if !Covered(streakEvents, missed[i]) {
          uncovered := uncovered + [missed[i]];
        }
      }
      assert missed[..|missed|] == missed;
    }

    method AddFreezeRows(days: seq<int>, now: int)
      modifies `streakEvents, `nextId
      ensures Acc() == SpendOn(old(Acc()), days, now)
    {
      for i := 0 to |days|
        invariant SpendOn(Acc(), days[i..], now) == SpendOn(old(Acc()), days, now)
      {
        AddEvent(FreezeUsed, currentStreak, currentStreak, days[i], Spent(days[i]), now);
        assert days[i..][1..] == days[i + 1..];
      }
    }

    /** All or nothing: a gap is paid for in full, or nothing at all is written or spent. */
    method TryCoverGap(c: Settings, lastActive: int, today: int, now: int) returns (covered: bool)
      modifies `streakFreezes, `streakEvents, `nextId
      ensures match S.TryCoverGap(c, old(Acc()), lastActive, today, now)
              case Some(paid) => covered && Acc() == paid
              case None => !covered && Acc() == old(Acc())
    {
      var missed := MissedDates(lastActive, today);
      if missed == [] {
        return false;
      }
      var uncovered := UncoveredDays(missed);
      if |uncovered| > Min(streakFreezes, c.max) {
        return false;
      }
      streakFreezes := streakFreezes - |uncovered|;
      AddFreezeRows(uncovered, now);
      return true;
    }

    method AccrueFreezeIfEarned(c: Settings, today: int, now: int) returns (granted: bool)
      modifies `streakFreezes, `streakEvents, `nextId
      ensures granted == EarnsFreeze(c, old(Acc()))
      ensures Acc() == Accrue(c, old(Acc()), today, now)
    {
      if c.earnEvery <= 0 || currentStreak <= 0 {
        return false;
      }
      MultipleIsModulo(currentStreak, c.earnEvery);
      if currentStreak % c.earnEvery != 0 || streakFreezes >= c.max {
        return false;
      }
      streakFreezes := streakFreezes + 1;
      AddEvent(Adjusted, currentStreak, currentStreak, today, Earned, now);
      return true;
    }

    /** Whether today's submission extends the streak, paying for a gap if it has to. */
    method Extends(c: Settings, today: int, now: int) returns (unbroken: bool)
      modifies `streakFreezes, `streakEvents, `nextId
      ensures match Bridge(c, old(Acc()), today, now)
              case Some(bridged) => unbroken && Acc() == bridged
              case None => !unbroken && Acc() == old(Acc())
      ensures HasTransition(streakEvents, today) == old(HasTransition(streakEvents, today))
    {
      match lastActiveLocalDate {
        case None => return true;
        case Some(last) =>
          if last == today - 1 {
            return true;
          }
          ghost var before := Acc();
          unbroken := TryCoverGap(c, last, today, now);
          if unbroken { GapLeaves(c, before, last, today, now); }
      }
    }

    method Transition(c: Settings, event: Kind, toValue: nat, today: int, now: int)
      requires event.Extended? || event.Reset?
      modifies this
      ensures var moved := Advance(old(Acc()), event, toValue, today, now);
              Acc() == if event.Extended? then Accrue(c, moved, today, now) else moved
      ensures currentStreak == toValue
    {
      var fromValue := currentStreak;
      currentStreak := toValue;
      longestStreak := Max(longestStreak, toValue);
      lastActiveLocalDate := Some(today);
      AddEvent(event, fromValue, toValue, today, Blank, now);
      if event == Extended {
        var _ := AccrueFreezeIfEarned(c, today, now);
      }
    }

    /**
      The transition of a submission. The unique index is checked when the row is flushed: a refusal
      raises and the transaction, including any freezes just spent, is rolled back.
     */
    method UpdateStreak(c: Settings, today: int, now: int) returns (r: Outcome)
      modifies this
      ensures match Submit(c, old(Acc()), today, now)
              case Some(after) => Acc() == after && !r.IntegrityError?
              case None => Acc() == old(Acc()) && r.IntegrityError?
      ensures r.AlreadyActive? <==> old(lastActiveLocalDate) == Some(today)
      ensures r.Moved? ==>
                r.info == StreakInfo(currentStreak, if Bridge(c, old(Acc()), today, now).Some? then Extended else Reset)
    {
      if lastActiveLocalDate == Some(today) {
        return AlreadyActive;
      }
      var savedFreezes, savedEvents, savedId := streakFreezes, streakEvents, nextId;
      var unbroken := Extends(c, today, now);
      if HasTransition(streakEvents, today) {
        streakFreezes, streakEvents, nextId := savedFreezes, savedEvents, savedId;
        return IntegrityError;
      }
      var event := if unbroken then Extended else Reset;
      var toValue := if unbroken then currentStreak + 1 else 1;
      Transition(c, event, toValue, today, now);
      return Moved(StreakInfo(toValue, event));
    }

    method OutageFreeze(date: int, now: int) returns (inserted: bool)
      modifies this
      ensures Acc() == S.OutageFreeze(old(Acc()), date, now) && inserted == (Acc() != old(Acc()))
    {
      inserted := lastActiveLocalDate.Some? && !Covered(streakEvents, date);
      if inserted {
        AddEvent(FreezeUsed, currentStreak, currentStreak, date, Outage, now);
      }
    }

    method GrantInitialFreezes(c: Settings, date: int, now: int) returns (granted: bool)
      modifies this
      ensures Acc() == GrantInitial(c, old(Acc()), date, now) && granted == (Acc() != old(Acc()))
    {
      var grant := Min(c.start, c.max);
      granted := streakFreezes < grant && !Granted(streakEvents);
      if granted {
        streakFreezes := grant;
        AddEvent(Adjusted, currentStreak, currentStreak, date, InitialGrant(grant), now);
      }
    }

    method ReconcileForTimezoneChange(newToday: int, text: string, now: int)
      modifies this
      ensures Acc() == Reconcile(old(Acc()), newToday, text, now)
    {
      match lastActiveLocalDate {
        case None =>
        case Some(last) =>
          if newToday < last {
            lastActiveLocalDate := Some(newToday);
            AddEvent(Repaired, currentStreak, currentStreak, newToday, ZoneChange(text), now);
          }
      }
    }

    /** false is the 409. */
    method RepairStreak(c: Settings, today: int, lead: string, now: int) returns (repaired: bool)
      modifies this
      ensures match Repair(c, old(Acc()), today, lead, now)
              case Some(after) => repaired && Acc() == after
              case None => !repaired && Acc() == old(Acc())
    {
      match Restorable(c, Acc(), now) {
        case None => return false;
        case Some((reset, restored)) =>
          if restored <= currentStreak {
            return false;
          }
          var before := currentStreak;
          currentStreak := restored;
          longestStreak := Max(longestStreak, restored);
          AddEvent(Repaired, before, restored, today, RepairOf(lead, reset.id), now);
          return true;
      }
    }
  }

  lemma GapLeaves(c: Settings, a: Account, lastActive: int, today: int, now: int)
    requires S.TryCoverGap(c, a, lastActive, today, now).Some?
    ensures var b := S.TryCoverGap(c, a, lastActive, today, now).value;
            && b == a.(freezes := b.freezes, ledger := b.ledger, nextId := b.nextId)
            && (HasTransition(b.ledger, today) <==> HasTransition(a.ledger, today))
  {
    var uncovered := Uncovered(a.ledger, MissedDates(lastActive, today));
    SpendLeaves(a.(freezes := a.freezes - |uncovered|), uncovered, now);
  }
}
