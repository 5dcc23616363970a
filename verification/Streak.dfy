/**
  One user's streak as the code computes it from the user_stats row and the streak_events ledger:
  backend/app/streak/service.py, the transition of backend/app/attempts/service.py and the clamp of
  backend/app/jobs/streak_recon.py. Local dates are day numbers, times are ticks.
 */
module Streak {
  import opened Basics
  import opened DecimalText

  datatype Settings = Settings(start: nat, max: nat, earnEvery: int, repairWindow: nat)

  datatype Kind = Extended | Reset | FreezeUsed | Repaired | Adjusted

  /** Why a row was written; RepairOf and ZoneChange are read back as text. */
  datatype Note =
    | Blank
    | Spent(day: int)
    | Outage
    | Earned
    | InitialGrant(balance: nat)
    | RepairOf(lead: string, resetId: nat)
    | ZoneChange(text: string)

  datatype StreakEvent = StreakEvent(
    id: nat, kind: Kind, fromValue: nat, toValue: nat, date: int, note: Note, createdAt: int)

  type Ledger = seq<StreakEvent>

  datatype Account = Account(
    current: nat, longest: nat, lastActive: Option<int>, freezes: int, ledger: Ledger, nextId: nat)

  predicate IsTransition(e: StreakEvent) {
    e.kind.Extended? || e.kind.Reset?
  }

  function Append(a: Account, kind: Kind, fromValue: nat, toValue: nat, date: int, note: Note, now: int): Account {
    a.(ledger := a.ledger + [StreakEvent(a.nextId, kind, fromValue, toValue, date, note, now)],
       nextId := a.nextId + 1)
  }

  // ---------------------------------------------------------------- covering a gap

  /** missed_dates: the dates strictly between. */
  function MissedDates(lastActive: int, today: int): (days: seq<int>)
    ensures forall d :: d in days <==> lastActive < d < today
    ensures forall i, j :: 0 <= i < j < |days| ==> days[i] < days[j]
  {
    var days := seq(Max(0, today - lastActive - 1), i => lastActive + 1 + i);
    assert forall d :: lastActive < d < today ==> d in days by {
      forall d | lastActive < d < today ensures d in days {
        assert days[d - lastActive - 1] == d;
      }
    }
    days
  }

  /** Some freeze_used row is for this day. */
  predicate Covered(l: Ledger, day: int) {
    l != [] && ((l[|l| - 1].kind.FreezeUsed? && l[|l| - 1].date == day) || Covered(l[..|l| - 1], day))
  }

  function Uncovered(l: Ledger, days: seq<int>): seq<int> {
    if days == [] then []
    else
      var rest, day := Uncovered(l, days[..|days| - 1]), days[|days| - 1];
      if Covered(l, day) then rest else rest + [day]
  }

  /** The freeze_used rows try_cover_gap adds for the days it pays for. */
  function SpendOn(a: Account, days: seq<int>, now: int): Account
    decreases |days|
  {
    if days == [] then a
    else SpendOn(Append(a, FreezeUsed, a.current, a.current, days[0], Spent(days[0]), now), days[1..], now)
  }

  /** try_cover_gap: the account with the gap paid for, or None when it cannot be. */
  function TryCoverGap(c: Settings, a: Account, lastActive: int, today: int, now: int): Option<Account> {
    var missed := MissedDates(lastActive, today);
    var uncovered := Uncovered(a.ledger, missed);
    if missed == [] || |uncovered| > Min(a.freezes, c.max) then None
    else Some(SpendOn(a.(freezes := a.freezes - |uncovered|), uncovered, now))
  }

  // ---------------------------------------------------------------- a submission

  /** streak % every == 0, by repeated subtraction. */
  predicate Multiple(streak: nat, every: nat)
    requires every > 0
  {
    streak == 0 || (streak >= every && Multiple(streak - every, every))
  }

  lemma ScaledBounds(e: int, k: int)
    requires e > 0
    ensures k >= 1 ==> e * k >= e
    ensures k <= -1 ==> e * k <= -e
  {
  }

  lemma QuotientUnique(e: int, q: int, r: int, q': int, r': int)
    requires e * q + r == e * q' + r' && 0 <= r < e && 0 <= r' < e
    ensures q == q' && r == r'
  {
    var k := q - q';
    assert e * k == r' - r;
    ScaledBounds(e, k);
  }

  lemma {:induction false} MultipleIsModulo(streak: nat, every: nat)
    requires every > 0
    ensures Multiple(streak, every) <==> streak % every == 0
  {
    if streak >= every {
      MultipleIsModulo(streak - every, every);
      var q, r := (streak - every) / every, (streak - every) % every;
      assert every * (q + 1) == every * q + every;
      QuotientUnique(every, q + 1, r, streak / every, streak % every);
    } else {
      QuotientUnique(every, 0, streak, streak / every, streak % every);
    }
  }

  predicate EarnsFreeze(c: Settings, a: Account) {
    c.earnEvery > 0 && a.current > 0 && Multiple(a.current, c.earnEvery) && a.freezes < c.max
  }

  function Accrue(c: Settings, a: Account, today: int, now: int): Account {
    if EarnsFreeze(c, a) then Append(a.(freezes := a.freezes + 1), Adjusted, a.current, a.current, today, Earned, now)
    else a
  }

  function Advance(a: Account, kind: Kind, toValue: nat, today: int, now: int): Account {
    Append(a.(current := toValue, longest := Max(a.longest, toValue), lastActive := Some(today)),
           kind, a.current, toValue, today, Blank, now)
  }

  function Extend(c: Settings, a: Account, today: int, now: int): Account {
    Accrue(c, Advance(a, Extended, a.current + 1, today, now), today, now)
  }

  /** The state in which today's submission extends the streak, if it does. */
  function Bridge(c: Settings, a: Account, today: int, now: int): Option<Account> {
    if a.lastActive.None? || a.lastActive.value == today - 1 then Some(a)
    else TryCoverGap(c, a, a.lastActive.value, today, now)
  }

  /** The unique index on (user_id, local_date) over extended and reset rows. */
  predicate HasTransition(l: Ledger, day: int) {
    l != [] && ((IsTransition(l[|l| - 1]) && l[|l| - 1].date == day) || HasTransition(l[..|l| - 1], day))
  }

  /** The streak part of a submission; None when the index refuses the row and the transaction fails. */
  function Submit(c: Settings, a: Account, today: int, now: int): Option<Account> {
    if a.lastActive == Some(today) then Some(a)
    else if HasTransition(a.ledger, today) then None
    else match Bridge(c, a, today, now)
      case Some(b) => Some(Extend(c, b, today, now))
      case None => Some(Advance(a, Reset, 1, today, now))
  }

  // ---------------------------------------------------------------- the other writers

  function OutageFreeze(a: Account, date: int, now: int): Account {
    if a.lastActive.Some? && !Covered(a.ledger, date)
    then Append(a, FreezeUsed, a.current, a.current, date, Outage, now)
    else a
  }

  predicate Granted(l: Ledger) {
    exists i :: 0 <= i < |l| && l[i].kind.Adjusted? && l[i].note.InitialGrant?
  }

  function GrantInitial(c: Settings, a: Account, date: int, now: int): Account {
    var grant := Min(c.start, c.max);
    if a.freezes < grant && !Granted(a.ledger)
    then Append(a.(freezes := grant), Adjusted, a.current, a.current, date, InitialGrant(grant), now)
    else a
  }

  /** reconcile_streak_for_timezone_change, for a new local date of today. */
  function Reconcile(a: Account, newToday: int, text: string, now: int): Account {
    if a.lastActive.Some? && newToday < a.lastActive.value
    then Append(a.(lastActive := Some(newToday)), Repaired, a.current, a.current, newToday, ZoneChange(text), now)
    else a
  }

  // ---------------------------------------------------------------- repair

  const ANCHOR := "[repair:anchor="

  function AnchorMarker(resetId: nat): string {
    ANCHOR + ToText(resetId) + "]"
  }

  function NoteText(n: Note): string {
    match n
    case RepairOf(lead, id) => lead + AnchorMarker(id)
    case ZoneChange(text) => text
    case _ => ""
  }

  /** note LIKE '%' || part || '%', for a part without wildcards. */
  predicate Like(text: string, part: string) {
    exists i :: 0 <= i <= |text| && part <= text[i..]
  }

  /** Some repaired row's note holds this reset's anchor. */
  predicate AlreadyRepaired(l: Ledger, resetId: nat) {
    l != [] && (
      (l[|l| - 1].kind.Repaired? && Like(NoteText(l[|l| - 1].note), AnchorMarker(resetId)))
      || AlreadyRepaired(l[..|l| - 1], resetId))
  }

  /** The most recent reset by (created_at, id) that is not older than the cutoff. */
  function LatestReset(l: Ledger, cutoff: int): Option<StreakEvent> {
    if l == [] then None
    else
      var best, e := LatestReset(l[..|l| - 1], cutoff), l[|l| - 1];
      if e.kind.Reset? && e.createdAt >= cutoff
         && (best.Some? ==>
               best.value.createdAt < e.createdAt || (best.value.createdAt == e.createdAt && best.value.id < e.id))
      then Some(e) else best
  }

  /** The last transition by (local_date, id) on or after a date. */
  function LatestTransition(l: Ledger, since: int): Option<StreakEvent> {
    if l == [] then None
    else
      var best, e := LatestTransition(l[..|l| - 1], since), l[|l| - 1];
      if IsTransition(e) && e.date >= since
         && (best.Some? ==> (best.value.date < e.date || (best.value.date == e.date && best.value.id < e.id)))
      then Some(e) else best
  }

  /** _load_restorable: the reset that can still be repaired and the value a repair restores. */
  function Restorable(c: Settings, a: Account, now: int): Option<(StreakEvent, nat)> {
    match LatestReset(a.ledger, now - c.repairWindow)
    case None => None
    case Some(reset) =>
      var run := LatestTransition(a.ledger, reset.date);
      if AlreadyRepaired(a.ledger, reset.id) || run.None? then None
      else Some((reset, reset.fromValue + run.value.toValue))
  }

  /** repair_streak; None is the 409. */
  function Repair(c: Settings, a: Account, today: int, lead: string, now: int): Option<Account> {
    match Restorable(c, a, now)
    case None => None
    case Some((reset, restored)) =>
      if restored <= a.current then None
      else Some(Append(a.(current := restored, longest := Max(a.longest, restored)),
                       Repaired, a.current, restored, today, RepairOf(lead, reset.id), now))
  }

  // ---------------------------------------------------------------- runs

  datatype Op =
    | DoSubmit(today: int)
    | DoOutage(date: int)
    | DoGrant(date: int)
    | DoReconcile(newToday: int, text: string)
    | DoRepair(today: int, lead: string)

  datatype Timed = Timed(op: Op, now: int)

  function Apply(c: Settings, a: Account, t: Timed): Account {
    match t.op
    case DoSubmit(today) => (match Submit(c, a, today, t.now) case Some(b) => b case None => a)
    case DoOutage(date) => OutageFreeze(a, date, t.now)
    case DoGrant(date) => GrantInitial(c, a, date, t.now)
    case DoReconcile(newToday, text) => Reconcile(a, newToday, text, t.now)
    case DoRepair(today, lead) => (match Repair(c, a, today, lead, t.now) case Some(b) => b case None => a)
  }

  function Exec(c: Settings, a: Account, ts: seq<Timed>): Account
    decreases |ts|
  {
    if ts == [] then a else Exec(c, Apply(c, a, ts[0]), ts[1..])
  }

  /** A user_stats row as it is created: with the starting balance, or with none before A1. */
  predicate Fresh(c: Settings, a: Account) {
    && a.current == 0 && a.longest == 0 && a.lastActive.None? && a.ledger == []
    && (a.freezes == c.start || a.freezes == 0)
  }

  // ---------------------------------------------------------------- safety over every run

  /** The balance the ledger accounts for. */
  function Balance(initial: int, l: Ledger): int {
    if l == [] then initial
    else
      var b := Balance(initial, l[..|l| - 1]);
      match l[|l| - 1].note
      case Spent(_) => b - 1
      case Earned => b + 1
      case InitialGrant(grant) => grant
      case _ => b
  }

  /** At most one freeze_used row and at most one extended or reset row per date. */
  predicate OncePerDay(l: Ledger) {
    l == [] ||
    var rest, e := l[..|l| - 1], l[|l| - 1];
    && OncePerDay(rest)
    && (e.kind.FreezeUsed? ==> !Covered(rest, e.date))
    && (IsTransition(e) ==> !HasTransition(rest, e.date))
  }

  predicate NoTransitions(l: Ledger) {
    l == [] || (!IsTransition(l[|l| - 1]) && NoTransitions(l[..|l| - 1]))
  }

  predicate Safe(c: Settings, initial: int, a: Account) {
    && a.current <= a.longest
    && (a.lastActive.None? ==> NoTransitions(a.ledger))
    && (a.current == 0 <==> a.lastActive.None?)
    && 0 <= a.freezes <= Max(c.start, c.max)
    && a.freezes == Balance(initial, a.ledger)
    && OncePerDay(a.ledger)
  }

  lemma BalanceAppend(initial: int, l: Ledger, e: StreakEvent)
    ensures Balance(initial, l + [e]) ==
            match e.note
            case Spent(_) => Balance(initial, l) - 1
            case Earned => Balance(initial, l) + 1
            case InitialGrant(grant) => grant as int
            case _ => Balance(initial, l)
  {
    assert (l + [e])[..|l|] == l;
  }

  /** What one more row means to the queries over the ledger. */
  lemma QueriesAppend(l: Ledger, e: StreakEvent)
    ensures forall d :: Covered(l + [e], d) <==> Covered(l, d) || (e.kind.FreezeUsed? && e.date == d)
    ensures forall d :: HasTransition(l + [e], d) <==> HasTransition(l, d) || (IsTransition(e) && e.date == d)
    ensures OncePerDay(l + [e]) <==>
              && OncePerDay(l)
              && (e.kind.FreezeUsed? ==> !Covered(l, e.date))
              && (IsTransition(e) ==> !HasTransition(l, e.date))
    ensures NoTransitions(l + [e]) <==> NoTransitions(l) && !IsTransition(e)
  {
    assert (l + [e])[..|l|] == l;
  }

  predicate Distinct(days: seq<int>) {
    forall i, j :: 0 <= i < j < |days| ==> days[i] != days[j]
  }

  lemma {:induction false} UncoveredDistinct(l: Ledger, days: seq<int>)
    requires Distinct(days)
    ensures var r := Uncovered(l, days);
            && Distinct(r)
            && (forall d :: d in r <==> d in days && !Covered(l, d))
  {
    if days != [] {
      var rest, day := days[..|days| - 1], days[|days| - 1];
      UncoveredDistinct(l, rest);
      assert days == rest + [day] && day !in rest;
    }
  }

  /** Paying for days writes rows and nothing else, and never a transition. */
  lemma {:induction false} SpendLeaves(a: Account, days: seq<int>, now: int)
    ensures var b := SpendOn(a, days, now);
            && b == a.(ledger := b.ledger, nextId := b.nextId)
            && (forall d :: HasTransition(b.ledger, d) <==> HasTransition(a.ledger, d))
    decreases |days|
  {
    if days != [] {
      var b := Append(a, FreezeUsed, a.current, a.current, days[0], Spent(days[0]), now);
      QueriesAppend(a.ledger, b.ledger[|a.ledger|]);
      SpendLeaves(b, days[1..], now);
    }
  }

  /** Paying for uncovered days: what changes and what does not. */
  lemma {:induction false} SpendKeeps(initial: int, a: Account, days: seq<int>, now: int)
    requires OncePerDay(a.ledger)
    requires Distinct(days) && forall d :: d in days ==> !Covered(a.ledger, d)
    ensures var b := SpendOn(a, days, now);
            && OncePerDay(b.ledger)
            && Balance(initial, b.ledger) == Balance(initial, a.ledger) - |days|
            && b == a.(ledger := b.ledger, nextId := b.nextId)
            && a.ledger <= b.ledger
            && (forall d :: Covered(b.ledger, d) <==> Covered(a.ledger, d) || d in days)
            && (forall d :: HasTransition(b.ledger, d) <==> HasTransition(a.ledger, d))
            && NoTransitions(b.ledger) == NoTransitions(a.ledger)
    decreases |days|
  {
    if days != [] {
      var e := StreakEvent(a.nextId, FreezeUsed, a.current, a.current, days[0], Spent(days[0]), now);
      var a' := a.(ledger := a.ledger + [e], nextId := a.nextId + 1);
      QueriesAppend(a.ledger, e);
      BalanceAppend(initial, a.ledger, e);
      SpendKeeps(initial, a', days[1..], now);
    }
  }

  /** A covered gap: exactly the uncovered missed days are paid for, one freeze each. */
  lemma CoverKeeps(c: Settings, initial: int, a: Account, lastActive: int, today: int, now: int)
    requires Safe(c, initial, a) && TryCoverGap(c, a, lastActive, today, now).Some?
    ensures var b := TryCoverGap(c, a, lastActive, today, now).value;
            && Safe(c, initial, b)
            && b == a.(freezes := b.freezes, ledger := b.ledger, nextId := b.nextId)
            && a.ledger <= b.ledger
            && (forall d :: lastActive < d < today ==> Covered(b.ledger, d))
            && (forall d :: HasTransition(b.ledger, d) <==> HasTransition(a.ledger, d))
            && a.freezes - b.freezes == |Uncovered(a.ledger, MissedDates(lastActive, today))| <= c.max
  {
    var missed := MissedDates(lastActive, today);
    var uncovered := Uncovered(a.ledger, missed);
    assert Distinct(missed);
    UncoveredDistinct(a.ledger, missed);
    SpendKeeps(initial, a.(freezes := a.freezes - |uncovered|), uncovered, now);
    var b := TryCoverGap(c, a, lastActive, today, now).value;
    forall d | lastActive < d < today ensures Covered(b.ledger, d) {
      assert missed[d - lastActive - 1] == d;
      assert d in missed;
    }
  }

  /** One more row: the balance follows it, and a fresh day keeps rows once per day. */
  lemma AppendKeeps(initial: int, a: Account, kind: Kind, fromValue: nat, toValue: nat, date: int, note: Note, now: int)
    requires OncePerDay(a.ledger)
    requires kind.FreezeUsed? ==> !Covered(a.ledger, date)
    requires kind.Extended? || kind.Reset? ==> !HasTransition(a.ledger, date)
    ensures var b := Append(a, kind, fromValue, toValue, date, note, now);
            && OncePerDay(b.ledger)
            && NoTransitions(b.ledger) == (NoTransitions(a.ledger) && !(kind.Extended? || kind.Reset?))
            && Balance(initial, b.ledger) ==
               match note
               case Spent(_) => Balance(initial, a.ledger) - 1
               case Earned => Balance(initial, a.ledger) + 1
               case InitialGrant(grant) => grant as int
               case _ => Balance(initial, a.ledger)
  {
    var e := StreakEvent(a.nextId, kind, fromValue, toValue, date, note, now);
    QueriesAppend(a.ledger, e);
    BalanceAppend(initial, a.ledger, e);
  }

  lemma AccrueKeeps(c: Settings, initial: int, a: Account, today: int, now: int)
    requires Safe(c, initial, a)
    ensures Safe(c, initial, Accrue(c, a, today, now))
  {
    AppendKeeps(initial, a, Adjusted, a.current, a.current, today, Earned, now);
  }

  lemma AdvanceKeeps(c: Settings, initial: int, a: Account, kind: Kind, toValue: nat, today: int, now: int)
    requires Safe(c, initial, a) && (kind.Extended? || kind.Reset?) && toValue > 0 && !HasTransition(a.ledger, today)
    ensures Safe(c, initial, Advance(a, kind, toValue, today, now))
  {
    AppendKeeps(initial, a, kind, a.current, toValue, today, Blank, now);
  }

  lemma BridgeKeeps(c: Settings, initial: int, a: Account, today: int, now: int)
    requires Safe(c, initial, a) && Bridge(c, a, today, now).Some?
    ensures var b := Bridge(c, a, today, now).value;
            && Safe(c, initial, b)
            && b == a.(freezes := b.freezes, ledger := b.ledger, nextId := b.nextId)
            && HasTransition(b.ledger, today) == HasTransition(a.ledger, today)
  {
    if a.lastActive.Some? && a.lastActive.value != today - 1 {
      CoverKeeps(c, initial, a, a.lastActive.value, today, now);
    }
  }

  lemma ExtendKeeps(c: Settings, initial: int, a: Account, today: int, now: int)
    requires Safe(c, initial, a) && !HasTransition(a.ledger, today)
    ensures Safe(c, initial, Extend(c, a, today, now))
  {
    var b := Advance(a, Extended, a.current + 1, today, now);
    AdvanceKeeps(c, initial, a, Extended, a.current + 1, today, now);
    AccrueKeeps(c, initial, b, today, now);
    assert Extend(c, a, today, now) == Accrue(c, b, today, now);
  }

  lemma SubmitKeeps(c: Settings, initial: int, a: Account, today: int, now: int)
    requires Safe(c, initial, a) && Submit(c, a, today, now).Some?
    ensures Safe(c, initial, Submit(c, a, today, now).value)
  {
    if a.lastActive != Some(today) {
      match Bridge(c, a, today, now)
      case Some(b) =>
        BridgeKeeps(c, initial, a, today, now);
        ExtendKeeps(c, initial, b, today, now);
      case None =>
        AdvanceKeeps(c, initial, a, Reset, 1, today, now);
    }
  }

  /** A reset to repair is a transition of the ledger. */
  lemma LatestResetIsRow(l: Ledger, cutoff: int)
    ensures LatestReset(l, cutoff).Some? ==> !NoTransitions(l)
  {
    if l != [] {
      LatestResetIsRow(l[..|l| - 1], cutoff);
    }
  }

  lemma ApplyKeeps(c: Settings, initial: int, a: Account, t: Timed)
    requires Safe(c, initial, a)
    ensures Safe(c, initial, Apply(c, a, t))
  {
    match t.op
    case DoSubmit(today) =>
      if Submit(c, a, today, t.now).Some? { SubmitKeeps(c, initial, a, today, t.now); }
    case DoOutage(date) =>
      if !Covered(a.ledger, date) {
        AppendKeeps(initial, a, FreezeUsed, a.current, a.current, date, Outage, t.now);
      }
    case DoGrant(date) =>
      AppendKeeps(initial, a, Adjusted, a.current, a.current, date, InitialGrant(Min(c.start, c.max)), t.now);
    case DoReconcile(newToday, text) =>
      AppendKeeps(initial, a, Repaired, a.current, a.current, newToday, ZoneChange(text), t.now);
    case DoRepair(today, lead) =>
      match Restorable(c, a, t.now)
      case None =>
      case Some((reset, restored)) =>
        LatestResetIsRow(a.ledger, t.now - c.repairWindow);
        AppendKeeps(initial, a, Repaired, a.current, restored, today, RepairOf(lead, reset.id), t.now);

  }

  lemma {:induction false} RunKeeps(c: Settings, initial: int, a: Account, ts: seq<Timed>)
    requires Safe(c, initial, a)
    ensures Safe(c, initial, Exec(c, a, ts))
    decreases |ts|
  {
    if ts != [] {
      ApplyKeeps(c, initial, a, ts[0]);
      RunKeeps(c, initial, Apply(c, a, ts[0]), ts[1..]);
    }
  }

  lemma DateOnce(l: Ledger, i: int, j: int)
    requires OncePerDay(l) && 0 <= i < j < |l|
    ensures l[i].kind.FreezeUsed? && l[j].kind.FreezeUsed? ==> l[i].date != l[j].date
    ensures IsTransition(l[i]) && IsTransition(l[j]) ==> l[i].date != l[j].date
  {
    var n := |l| - 1;
    if j < n {
      DateOnce(l[..n], i, j);
    } else {
      HeldBefore(l[..n], i);
    }
  }

  lemma HeldBefore(l: Ledger, i: nat)
    requires i < |l|
    ensures l[i].kind.FreezeUsed? ==> Covered(l, l[i].date)
    ensures IsTransition(l[i]) ==> HasTransition(l, l[i].date)
  {
    if i < |l| - 1 {
      HeldBefore(l[..|l| - 1], i);
    }
  }

  /**
    Whatever submissions, outage fills, grants, time zone clamps and repairs come in whatever order
    and on whatever dates: the streak never exceeds the record, the balance stays in bounds and is
    what the ledger rows add up to, and no date is frozen twice or carries two transitions.
   */
  lemma LedgerSafety(c: Settings, a: Account, ts: seq<Timed>)
    requires Fresh(c, a)
    ensures var b := Exec(c, a, ts);
            && b.current <= b.longest
            && 0 <= b.freezes <= Max(c.start, c.max)
            && b.freezes == Balance(a.freezes, b.ledger)
            && (forall i, j :: 0 <= i < j < |b.ledger| && b.ledger[i].date == b.ledger[j].date ==>
                  && !(b.ledger[i].kind.FreezeUsed? && b.ledger[j].kind.FreezeUsed?)
                  && !(IsTransition(b.ledger[i]) && IsTransition(b.ledger[j])))
  {
    RunKeeps(c, a.freezes, a, ts);
    var l := Exec(c, a, ts).ledger;
    forall i, j | 0 <= i < j < |l| && l[i].date == l[j].date
      ensures !(l[i].kind.FreezeUsed? && l[j].kind.FreezeUsed?) && !(IsTransition(l[i]) && IsTransition(l[j]))
    {
      DateOnce(l, i, j);
    }
  }

  // ---------------------------------------------------------------- runs whose dates do not decrease

  function LastTransition(l: Ledger): Option<StreakEvent> {
    if l == [] then None
    else if IsTransition(l[|l| - 1]) then Some(l[|l| - 1])
    else LastTransition(l[..|l| - 1])
  }

  /** Rows come in the order of their ids and times; transitions also in the order of their dates. */
  predicate Ordered(l: Ledger) {
    l == [] ||
    var rest, e := l[..|l| - 1], l[|l| - 1];
    && Ordered(rest)
    && (rest != [] ==> rest[|rest| - 1].id < e.id && rest[|rest| - 1].createdAt <= e.createdAt)
    && (IsTransition(e) && LastTransition(rest).Some? ==> LastTransition(rest).value.date < e.date)
  }

  predicate AllCovered(l: Ledger, after: int, before: int) {
    forall d :: after < d < before ==> Covered(l, d)
  }

  /** Every day between an extended transition and the one before it has a freeze_used row. */
  predicate GapsCovered(l: Ledger) {
    l == [] ||
    var rest, e := l[..|l| - 1], l[|l| - 1];
    && GapsCovered(rest)
    && (e.kind.Extended? && LastTransition(rest).Some? ==>
          AllCovered(rest, LastTransition(rest).value.date, e.date))
  }

  /** The event does not step back in local date or in time. */
  predicate Forward(a: Account, t: Timed) {
    && (a.ledger != [] ==> a.ledger[|a.ledger| - 1].createdAt <= t.now)
    && match t.op
       case DoSubmit(today) => a.lastActive.Some? ==> a.lastActive.value <= today
       case DoReconcile(newToday, _) => a.lastActive.Some? ==> a.lastActive.value <= newToday
       case _ => true
  }

  predicate ForwardRun(c: Settings, a: Account, ts: seq<Timed>)
    decreases |ts|
  {
    ts == [] || (Forward(a, ts[0]) && ForwardRun(c, Apply(c, a, ts[0]), ts[1..]))
  }

  /** The ledger is in order and agrees with last_active; when `gapless`, no gap went uncovered. */
  predicate Tidy(gapless: bool, a: Account) {
    && Ordered(a.ledger)
    && (a.ledger != [] ==> a.ledger[|a.ledger| - 1].id < a.nextId)
    && (gapless ==> GapsCovered(a.ledger))
    && match LastTransition(a.ledger)
       case None => a.lastActive.None?
       case Some(e) => a.lastActive == Some(e.date)
  }

  lemma OrderAppend(l: Ledger, e: StreakEvent)
    ensures LastTransition(l + [e]) == if IsTransition(e) then Some(e) else LastTransition(l)
    ensures Ordered(l + [e]) <==>
              && Ordered(l)
              && (l != [] ==> l[|l| - 1].id < e.id && l[|l| - 1].createdAt <= e.createdAt)
              && (IsTransition(e) && LastTransition(l).Some? ==> LastTransition(l).value.date < e.date)
    ensures GapsCovered(l + [e]) <==>
              && GapsCovered(l)
              && (e.kind.Extended? && LastTransition(l).Some? ==>
                    AllCovered(l, LastTransition(l).value.date, e.date))
  {
    assert (l + [e])[..|l|] == l;
  }

  /** A bookkeeping row leaves the order of transitions alone. */
  lemma NoteKeepsTidy(gapless: bool, a: Account, b: Account, kind: Kind, fromValue: nat, toValue: nat, date: int,
                      note: Note, now: int)
    requires Tidy(gapless, a) && b.ledger == a.ledger && b.nextId == a.nextId && b.lastActive == a.lastActive
    requires !kind.Extended? && !kind.Reset?
    requires a.ledger != [] ==> a.ledger[|a.ledger| - 1].createdAt <= now
    ensures Tidy(gapless, Append(b, kind, fromValue, toValue, date, note, now))
  {
    OrderAppend(a.ledger, StreakEvent(a.nextId, kind, fromValue, toValue, date, note, now));
  }

  lemma {:induction false} SpendKeepsTidy(gapless: bool, a: Account, days: seq<int>, now: int)
    requires Tidy(gapless, a) && (a.ledger != [] ==> a.ledger[|a.ledger| - 1].createdAt <= now)
    ensures var b := SpendOn(a, days, now);
            && Tidy(gapless, b) && LastTransition(b.ledger) == LastTransition(a.ledger)
            && (b.ledger != [] ==> b.ledger[|b.ledger| - 1].createdAt <= now)
    decreases |days|
  {
    if days != [] {
      NoteKeepsTidy(gapless, a, a, FreezeUsed, a.current, a.current, days[0], Spent(days[0]), now);
      var b := Append(a, FreezeUsed, a.current, a.current, days[0], Spent(days[0]), now);
      OrderAppend(a.ledger, b.ledger[|a.ledger|]);
      SpendKeepsTidy(gapless, b, days[1..], now);
    }
  }

  lemma AdvanceKeepsTidy(gapless: bool, a: Account, kind: Kind, toValue: nat, today: int, now: int)
    requires Tidy(gapless, a) && (kind.Extended? || kind.Reset?)
    requires a.ledger != [] ==> a.ledger[|a.ledger| - 1].createdAt <= now
    requires a.lastActive.Some? ==> a.lastActive.value < today
    requires gapless && kind.Extended? && a.lastActive.Some? ==> AllCovered(a.ledger, a.lastActive.value, today)
    ensures Tidy(gapless, Advance(a, kind, toValue, today, now))
  {
    OrderAppend(a.ledger, StreakEvent(a.nextId, kind, a.current, toValue, today, Blank, now));
  }

  /** With dates that do not decrease the index never refuses a transition. */
  lemma NoLaterTransition(l: Ledger, today: int)
    requires Ordered(l) && (LastTransition(l).Some? ==> LastTransition(l).value.date < today)
    ensures !HasTransition(l, today)
  {
    if l != [] {
      NoLaterTransition(l[..|l| - 1], today);
    }
  }

  lemma BridgeCovers(c: Settings, initial: int, a: Account, today: int, now: int)
    requires Safe(c, initial, a) && Bridge(c, a, today, now).Some?
    ensures var b := Bridge(c, a, today, now).value;
            b.lastActive.Some? ==> AllCovered(b.ledger, b.lastActive.value, today)
  {
    if a.lastActive.Some? && a.lastActive.value != today - 1 {
      CoverKeeps(c, initial, a, a.lastActive.value, today, now);
    }
  }

  lemma BridgeKeepsTidy(gapless: bool, c: Settings, a: Account, today: int, now: int)
    requires Tidy(gapless, a) && Forward(a, Timed(DoSubmit(today), now)) && Bridge(c, a, today, now).Some?
    ensures var b := Bridge(c, a, today, now).value;
            && Tidy(gapless, b) && b.lastActive == a.lastActive
            && (b.ledger != [] ==> b.ledger[|b.ledger| - 1].createdAt <= now)
  {
    if a.lastActive.Some? && a.lastActive.value != today - 1 {
      var uncovered := Uncovered(a.ledger, MissedDates(a.lastActive.value, today));
      SpendKeepsTidy(gapless, a.(freezes := a.freezes - |uncovered|), uncovered, now);
      SpendLeaves(a.(freezes := a.freezes - |uncovered|), uncovered, now);
    }
  }

  lemma AccrueKeepsTidy(gapless: bool, c: Settings, a: Account, today: int, now: int)
    requires Tidy(gapless, a) && (a.ledger != [] ==> a.ledger[|a.ledger| - 1].createdAt <= now)
    ensures Tidy(gapless, Accrue(c, a, today, now))
  {
    NoteKeepsTidy(gapless, a, a.(freezes := a.freezes + 1), Adjusted, a.current, a.current, today, Earned, now);
  }

  lemma ExtendKeepsTidy(gapless: bool, c: Settings, a: Account, today: int, now: int)
    requires Tidy(gapless, a) && (a.ledger != [] ==> a.ledger[|a.ledger| - 1].createdAt <= now)
    requires a.lastActive.Some? ==> a.lastActive.value < today
    requires gapless && a.lastActive.Some? ==> AllCovered(a.ledger, a.lastActive.value, today)
    ensures Tidy(gapless, Extend(c, a, today, now))
  {
    var b := Advance(a, Extended, a.current + 1, today, now);
    AdvanceKeepsTidy(gapless, a, Extended, a.current + 1, today, now);
    assert b.ledger[|b.ledger| - 1].createdAt == now;
    AccrueKeepsTidy(gapless, c, b, today, now);
    assert Extend(c, a, today, now) == Accrue(c, b, today, now);
  }

  lemma SubmitKeepsTidy(gapless: bool, c: Settings, initial: int, a: Account, today: int, now: int)
    requires Safe(c, initial, a) && Tidy(gapless, a) && Forward(a, Timed(DoSubmit(today), now))
    ensures Submit(c, a, today, now).Some? && Tidy(gapless, Submit(c, a, today, now).value)
  {
    if a.lastActive != Some(today) {
      NoLaterTransition(a.ledger, today);
      match Bridge(c, a, today, now)
      case Some(b) =>
        BridgeCovers(c, initial, a, today, now);
        BridgeKeepsTidy(gapless, c, a, today, now);
        ExtendKeepsTidy(gapless, c, b, today, now);
      case None =>
        AdvanceKeepsTidy(gapless, a, Reset, 1, today, now);
    }
  }

  lemma ApplyKeepsTidy(gapless: bool, c: Settings, initial: int, a: Account, t: Timed)
    requires Safe(c, initial, a) && Tidy(gapless, a) && Forward(a, t)
    ensures Tidy(gapless, Apply(c, a, t))
  {
    match t.op
    case DoSubmit(today) => SubmitKeepsTidy(gapless, c, initial, a, today, t.now);
    case DoOutage(date) => NoteKeepsTidy(gapless, a, a, FreezeUsed, a.current, a.current, date, Outage, t.now);
    case DoGrant(date) =>
      var grant := Min(c.start, c.max);
      NoteKeepsTidy(gapless, a, a.(freezes := grant), Adjusted, a.current, a.current, date, InitialGrant(grant), t.now);
    case DoReconcile(newToday, text) =>
    case DoRepair(today, lead) =>
      match Restorable(c, a, t.now)
      case None =>
      case Some((reset, v)) =>
        NoteKeepsTidy(gapless, a, a.(current := v, longest := Max(a.longest, v)),
                      Repaired, a.current, v, today, RepairOf(lead, reset.id), t.now);
  }

  lemma {:induction false} RunKeepsTidy(gapless: bool, c: Settings, initial: int, a: Account, ts: seq<Timed>)
    requires Safe(c, initial, a) && Tidy(gapless, a) && ForwardRun(c, a, ts)
    ensures Tidy(gapless, Exec(c, a, ts)) && Safe(c, initial, Exec(c, a, ts))
    decreases |ts|
  {
    if ts != [] {
      ApplyKeeps(c, initial, a, ts[0]);
      ApplyKeepsTidy(gapless, c, initial, a, ts[0]);
      RunKeepsTidy(gapless, c, initial, Apply(c, a, ts[0]), ts[1..]);
    }
  }

  /**
    In every run whose dates do not decrease: no submission is ever refused by the index, the last
    active date is that of the last transition, and every day an extended transition skipped over
    had a freeze_used row when it was written.
   */
  lemma ForwardRuns(c: Settings, a: Account, ts: seq<Timed>, today: int, now: int)
    requires Fresh(c, a) && ForwardRun(c, a, ts) && Forward(Exec(c, a, ts), Timed(DoSubmit(today), now))
    ensures var b := Exec(c, a, ts);
            && Submit(c, b, today, now).Some?
            && GapsCovered(b.ledger) && Ordered(b.ledger)
            && b.lastActive == match LastTransition(b.ledger) case None => None case Some(e) => Some(e.date)
  {
    RunKeepsTidy(true, c, a.freezes, a, ts);
    SubmitKeepsTidy(true, c, a.freezes, Exec(c, a, ts), today, now);
  }

  // ---------------------------------------------------------------- when the index refuses a submission

  lemma {:induction false} ExecLast(c: Settings, a: Account, ts: seq<Timed>)
    requires ts != []
    ensures Exec(c, a, ts) == Apply(c, Exec(c, a, ts[..|ts| - 1]), ts[|ts| - 1])
    decreases |ts|
  {
    if |ts| > 1 {
      ExecLast(c, Apply(c, a, ts[0]), ts[1..]);
      assert ts[1..][..|ts| - 2] == ts[..|ts| - 1][1..];
    }
  }

  /** A submission on this day that does not find it active already: it writes the day's transition, or there is one. */
  predicate Claims(a: Account, t: Timed, day: int) {
    t.op == DoSubmit(day) && a.lastActive != Some(day)
  }

  lemma ExtendTransitions(c: Settings, a: Account, today: int, now: int, day: int)
    ensures HasTransition(Extend(c, a, today, now).ledger, day) <==> HasTransition(a.ledger, day) || day == today
  {
    var m := Advance(a, Extended, a.current + 1, today, now);
    QueriesAppend(a.ledger, m.ledger[|a.ledger|]);
    QueriesAppend(m.ledger, StreakEvent(m.nextId, Adjusted, m.current, m.current, today, Earned, now));
  }

  lemma SubmitTransitions(c: Settings, a: Account, today: int, now: int, day: int)
    requires a.lastActive != Some(today) && Submit(c, a, today, now).Some?
    ensures HasTransition(Submit(c, a, today, now).value.ledger, day) <==> HasTransition(a.ledger, day) || day == today
  {
    match Bridge(c, a, today, now)
    case None =>
      QueriesAppend(a.ledger, Advance(a, Reset, 1, today, now).ledger[|a.ledger|]);
    case Some(b) =>
      if a.lastActive.Some? && a.lastActive.value != today - 1 {
        var uncovered := Uncovered(a.ledger, MissedDates(a.lastActive.value, today));
        SpendLeaves(a.(freezes := a.freezes - |uncovered|), uncovered, now);
      }
      ExtendTransitions(c, b, today, now, day);
  }

  lemma StepTransitions(c: Settings, a: Account, t: Timed, day: int)
    ensures HasTransition(Apply(c, a, t).ledger, day) <==> HasTransition(a.ledger, day) || Claims(a, t, day)
  {
    if t.op.DoSubmit? {
      RefusedIs(c, a, t.op.today, t.now);
      if a.lastActive != Some(t.op.today) && Submit(c, a, t.op.today, t.now).Some? {
        SubmitTransitions(c, a, t.op.today, t.now, day);
      }
    } else {
      var b := Apply(c, a, t);
      if b.ledger != a.ledger { QueriesAppend(a.ledger, b.ledger[|a.ledger|]); }
    }
  }

  lemma {:induction false} TransitionsAreClaims(c: Settings, a: Account, ts: seq<Timed>, day: int)
    requires a.ledger == []
    ensures HasTransition(Exec(c, a, ts).ledger, day) <==>
            exists i :: 0 <= i < |ts| && Claims(Exec(c, a, ts[..i]), ts[i], day)
    decreases |ts|
  {
    if ts != [] {
      var n := |ts| - 1;
      var rest := ts[..n];
      TransitionsAreClaims(c, a, rest, day);
      ExecLast(c, a, ts);
      StepTransitions(c, Exec(c, a, rest), ts[n], day);
      assert forall i :: 0 <= i < n ==> rest[i] == ts[i] && rest[..i] == ts[..i];
    }
  }

  /** This step takes the last active date from the day, or a later one, back to before it. */
  predicate StepsBackOver(a: Account, t: Timed, day: int) {
    && a.lastActive.Some? && a.lastActive.value >= day
    && match t.op
       case DoSubmit(today) => today < day
       case DoReconcile(newToday, _) => newToday < day
       case _ => false
  }

  /** Once a day has its transition, the last active date is before it only because some step went back over it. */
  lemma {:induction false} BackOverSome(c: Settings, a: Account, ts: seq<Timed>, day: int)
    requires a.ledger == [] && a.lastActive.None?
    requires var b := Exec(c, a, ts); HasTransition(b.ledger, day) && (b.lastActive.Some? ==> b.lastActive.value < day)
    ensures Exec(c, a, ts).lastActive.Some?
    ensures exists j :: 0 <= j < |ts| && StepsBackOver(Exec(c, a, ts[..j]), ts[j], day)
    decreases |ts|
  {
    var n := |ts| - 1;
    var rest := ts[..n];
    var before := Exec(c, a, rest);
    ExecLast(c, a, ts);
    StepTransitions(c, before, ts[n], day);
    StepDates(c, before, ts[n]);
    if before.lastActive.Some? && before.lastActive.value >= day {
      assert StepsBackOver(Exec(c, a, ts[..n]), ts[n], day);
    } else {
      BackOverSome(c, a, rest, day);
      var j :| 0 <= j < |rest| && StepsBackOver(Exec(c, a, rest[..j]), rest[j], day);
      assert rest[..j] == ts[..j] && rest[j] == ts[j];
    }
  }

  /** What a step does to the last active date. */
  lemma StepDates(c: Settings, a: Account, t: Timed)
    ensures var b := Apply(c, a, t);
            match t.op
            case DoSubmit(today) =>
              b.lastActive == if HasTransition(a.ledger, today) then a.lastActive else Some(today)
            case DoReconcile(newToday, _) =>
              b.lastActive == if a.lastActive.Some? && newToday < a.lastActive.value then Some(newToday) else a.lastActive
            case _ => b.lastActive == a.lastActive
  {
  }

  lemma RefusedIs(c: Settings, a: Account, today: int, now: int)
    ensures Submit(c, a, today, now).None? <==> a.lastActive != Some(today) && HasTransition(a.ledger, today)
  {
  }

  /**
    Exactly when the index refuses a submission. After any run on any dates, a submission on a day is
    refused if and only if the day is not the last active one and an earlier submission of the run came
    on it when it was not.
   */
  lemma RefusedExactlyWhen(c: Settings, a: Account, ts: seq<Timed>, today: int, now: int)
    requires Fresh(c, a)
    ensures Submit(c, Exec(c, a, ts), today, now).None? <==>
              && Exec(c, a, ts).lastActive != Some(today)
              && exists i :: 0 <= i < |ts| && Claims(Exec(c, a, ts[..i]), ts[i], today)
  {
    RefusedIs(c, Exec(c, a, ts), today, now);
    TransitionsAreClaims(c, a, ts, today);
  }

  /** A refusal takes a step back: the last active date is later than the day, or some step of the run took it back over the day. */
  lemma RefusalStepsBack(c: Settings, a: Account, ts: seq<Timed>, today: int, now: int)
    requires Fresh(c, a) && Submit(c, Exec(c, a, ts), today, now).None?
    ensures Exec(c, a, ts).lastActive.Some?
    ensures Exec(c, a, ts).lastActive.value > today
            || exists j :: 0 <= j < |ts| && StepsBackOver(Exec(c, a, ts[..j]), ts[j], today)
  {
    RefusedIs(c, Exec(c, a, ts), today, now);
    if Exec(c, a, ts).lastActive.Some? ==> Exec(c, a, ts).lastActive.value < today {
      BackOverSome(c, a, ts, today);
    }
  }

  /**
    The least such run, a time zone clamp: a user who submitted on day d and whose clock then moves back to
    d - 1 cannot submit on day d again, because the index holds d's transition already.
   */
  lemma ClampBlocksSubmission(c: Settings, d: int, text: string)
    ensures var a := Account(0, 0, None, c.start, [], 0);
            var b := Exec(c, a, [Timed(DoSubmit(d), 0), Timed(DoReconcile(d - 1, text), 1)]);
            b.lastActive == Some(d - 1) && Submit(c, b, d, 2).None?
  {
    var a := Account(0, 0, None, c.start, [], 0);
    var ts := [Timed(DoSubmit(d), 0), Timed(DoReconcile(d - 1, text), 1)];
    var a1 := Apply(c, a, ts[0]);
    var row := StreakEvent(0, Extended, 0, 1, d, Blank, 0);
    assert Advance(a, Extended, 1, d, 0).ledger == [row];
    QueriesAppend([], row);
    assert HasTransition([row], d) by { assert [] + [row] == [row]; }
    assert a1.lastActive == Some(d) && HasTransition(a1.ledger, d) by {
      QueriesAppend([row], StreakEvent(1, Adjusted, 1, 1, d, Earned, 0));
    }
    var a2 := Apply(c, a1, ts[1]);
    QueriesAppend(a1.ledger, a2.ledger[|a1.ledger|]);
    assert Exec(c, a, ts) == Exec(c, a1, ts[1..]) == Exec(c, a2, ts[1..][1..]);
  }
}
