/** What the rows of streak_events say about the user_stats row, and about one another. */
module StreakLedger {
  import opened Basics
  import opened Streak

  /** The streak as the last row left it. */
  function Standing(l: Ledger): nat {
    if l == [] then 0 else l[|l| - 1].toValue
  }

  /** The highest streak any row left. */
  function Record(l: Ledger): nat {
    if l == [] then 0 else Max(Record(l[..|l| - 1]), l[|l| - 1].toValue)
  }

  /** The last row reached a milestone, and the balance it was reached with has room for a freeze. */
  predicate Owed(c: Settings, initial: int, l: Ledger) {
    && l != []
    && l[|l| - 1].kind.Extended?
    && c.earnEvery > 0
    && l[|l| - 1].toValue % c.earnEvery == 0
    && Balance(initial, l) < c.max
  }

  /** Row e is one the code may write after the rows of l. */
  predicate Follows(c: Settings, initial: int, l: Ledger, e: StreakEvent) {
    && e.fromValue == Standing(l)
    && (e.note.Earned? <==> Owed(c, initial, l))
    && match e.kind
       case Extended => e.toValue == e.fromValue + 1 && e.note.Blank?
       case Reset => e.fromValue > 0 && e.toValue == 1 && e.note.Blank?
       case FreezeUsed => e.toValue == e.fromValue && (e.note == Spent(e.date) || e.note.Outage?)
       case Repaired => if e.note.RepairOf? then e.toValue > e.fromValue else e.toValue == e.fromValue && e.note.ZoneChange?
       case Adjusted =>
         && e.toValue == e.fromValue
         && if e.note.Earned? then e.date == l[|l| - 1].date else e.note.InitialGrant? && !Granted(l)
  }

  predicate Replays(c: Settings, initial: int, l: Ledger) {
    l == [] || (Replays(c, initial, l[..|l| - 1]) && Follows(c, initial, l[..|l| - 1], l[|l| - 1]))
  }

  /** The row agrees with its ledger, whatever is still owed. */
  predicate Agrees(c: Settings, initial: int, a: Account) {
    && Replays(c, initial, a.ledger)
    && a.current == Standing(a.ledger) <= a.longest == Record(a.ledger)
  }

  predicate Told(c: Settings, initial: int, a: Account) {
    Agrees(c, initial, a) && !Owed(c, initial, a.ledger)
  }

  lemma AppendAgrees(c: Settings, initial: int, a: Account, b: Account, e: StreakEvent)
    requires Agrees(c, initial, a) && Follows(c, initial, a.ledger, e)
    requires b.ledger == a.ledger + [e] && b.current == e.toValue && b.longest == Max(a.longest, e.toValue)
    ensures Agrees(c, initial, b)
    ensures !e.kind.Extended? ==> Told(c, initial, b)
  {
    assert b.ledger[..|a.ledger|] == a.ledger;
  }

  lemma {:induction false} SpendTold(c: Settings, initial: int, a: Account, days: seq<int>, now: int)
    requires Told(c, initial, a)
    ensures Told(c, initial, SpendOn(a, days, now))
    decreases |days|
  {
    if days != [] {
      var b := Append(a, FreezeUsed, a.current, a.current, days[0], Spent(days[0]), now);
      AppendAgrees(c, initial, a, b, b.ledger[|a.ledger|]);
      SpendTold(c, initial, b, days[1..], now);
    }
  }

  lemma AccrueTold(c: Settings, initial: int, a: Account, today: int, now: int)
    requires Safe(c, initial, a) && Agrees(c, initial, a)
    requires a.ledger != [] && a.ledger[|a.ledger| - 1].kind.Extended? && a.ledger[|a.ledger| - 1].date == today
    requires a.current > 0
    ensures Told(c, initial, Accrue(c, a, today, now))
  {
    if c.earnEvery > 0 { MultipleIsModulo(a.current, c.earnEvery); }
    if EarnsFreeze(c, a) {
      var b := Accrue(c, a, today, now);
      AppendAgrees(c, initial, a, b, b.ledger[|a.ledger|]);
    }
  }

  lemma ExtendTold(c: Settings, initial: int, a: Account, today: int, now: int)
    requires Safe(c, initial, a) && Told(c, initial, a) && !HasTransition(a.ledger, today)
    ensures Told(c, initial, Extend(c, a, today, now))
  {
    var b := Advance(a, Extended, a.current + 1, today, now);
    AdvanceKeeps(c, initial, a, Extended, a.current + 1, today, now);
    AppendAgrees(c, initial, a, b, b.ledger[|a.ledger|]);
    AccrueTold(c, initial, b, today, now);
    assert Extend(c, a, today, now) == Accrue(c, b, today, now);
  }

  lemma BridgeTold(c: Settings, initial: int, a: Account, today: int, now: int)
    requires Told(c, initial, a) && Bridge(c, a, today, now).Some?
    ensures Told(c, initial, Bridge(c, a, today, now).value)
  {
    if a.lastActive.Some? && a.lastActive.value != today - 1 {
      var uncovered := Uncovered(a.ledger, MissedDates(a.lastActive.value, today));
      SpendTold(c, initial, a.(freezes := a.freezes - |uncovered|), uncovered, now);
    }
  }

  lemma SubmitTold(c: Settings, initial: int, a: Account, today: int, now: int)
    requires Safe(c, initial, a) && Told(c, initial, a) && Submit(c, a, today, now).Some?
    ensures Told(c, initial, Submit(c, a, today, now).value)
  {
    if a.lastActive != Some(today) {
      match Bridge(c, a, today, now)
      case Some(b) =>
        BridgeKeeps(c, initial, a, today, now);
        BridgeTold(c, initial, a, today, now);
        ExtendTold(c, initial, b, today, now);
      case None =>
        var b := Advance(a, Reset, 1, today, now);
        AppendAgrees(c, initial, a, b, b.ledger[|a.ledger|]);
    }
  }

  lemma ApplyTold(c: Settings, initial: int, a: Account, t: Timed)
    requires Safe(c, initial, a) && Told(c, initial, a)
    ensures Told(c, initial, Apply(c, a, t))
  {
    if t.op.DoSubmit? {
      if Submit(c, a, t.op.today, t.now).Some? { SubmitTold(c, initial, a, t.op.today, t.now); }
    } else {
      var b := Apply(c, a, t);
      if b != a { AppendAgrees(c, initial, a, b, b.ledger[|a.ledger|]); }
    }
  }

  lemma {:induction false} RunTold(c: Settings, initial: int, a: Account, ts: seq<Timed>)
    requires Safe(c, initial, a) && Told(c, initial, a)
    ensures Told(c, initial, Exec(c, a, ts))
    decreases |ts|
  {
    if ts != [] {
      ApplyKeeps(c, initial, a, ts[0]);
      ApplyTold(c, initial, a, ts[0]);
      RunTold(c, initial, Apply(c, a, ts[0]), ts[1..]);
    }
  }

  lemma {:induction false} RowFollows(c: Settings, initial: int, l: Ledger, i: nat)
    requires Replays(c, initial, l) && i < |l|
    ensures Follows(c, initial, l[..i], l[i])
  {
    if i < |l| - 1 {
      RowFollows(c, initial, l[..|l| - 1], i);
      assert l[..|l| - 1][..i] == l[..i];
    }
  }

  lemma {:induction false} RecordIsHighest(l: Ledger, i: nat)
    requires i < |l|
    ensures l[i].toValue <= Record(l)
    ensures exists k :: 0 <= k < |l| && l[k].toValue == Record(l)
  {
    if |l| > 1 {
      RecordIsHighest(l[..|l| - 1], if i < |l| - 1 then i else 0);
      var k :| 0 <= k < |l| - 1 && l[..|l| - 1][k].toValue == Record(l[..|l| - 1]);
      assert l[k].toValue == l[..|l| - 1][k].toValue;
    }
    assert l[|l| - 1].toValue <= Record(l);
  }

  lemma GrantOnce(c: Settings, initial: int, l: Ledger, i: nat, j: nat)
    requires Replays(c, initial, l) && i < j < |l| && l[i].note.InitialGrant?
    ensures !l[j].note.InitialGrant?
  {
    RowFollows(c, initial, l, i);
    RowFollows(c, initial, l, j);
    assert l[..j][i] == l[i];
  }

  lemma Rows(c: Settings, initial: int, l: Ledger)
    requires Replays(c, initial, l)
    ensures forall i :: 0 <= i < |l| ==> Follows(c, initial, l[..i], l[i]) && l[i].toValue <= Record(l)
    ensures if l == [] then Record(l) == 0 else exists k :: 0 <= k < |l| && l[k].toValue == Record(l)
    ensures forall i, j :: 0 <= i < j < |l| ==> !(l[i].note.InitialGrant? && l[j].note.InitialGrant?)
  {
    forall i | 0 <= i < |l| ensures Follows(c, initial, l[..i], l[i]) && l[i].toValue <= Record(l) {
      RowFollows(c, initial, l, i);
      RecordIsHighest(l, i);
    }
    if l != [] { RecordIsHighest(l, 0); }
    forall i, j | 0 <= i < j < |l| ensures !(l[i].note.InitialGrant? && l[j].note.InitialGrant?) {
      if l[i].note.InitialGrant? { GrantOnce(c, initial, l, i, j); }
    }
  }

  /**
    After any run on any dates the ledger tells the whole story: every row starts from the streak the
    row before it left, the streak is the one the last row left and the longest the highest any row
    left; a freeze is earned directly after an extension to a milestone reached with room in the
    balance, on its day, and at no other time; the initial grant is made once.
   */
  lemma LedgerTellsAll(c: Settings, a: Account, ts: seq<Timed>)
    requires Fresh(c, a)
    ensures var b := Exec(c, a, ts); var l := b.ledger;
            && b.current == (if l == [] then 0 else l[|l| - 1].toValue)
            && (forall i :: 0 <= i < |l| ==> l[i].toValue <= b.longest)
            && (if l == [] then b.longest == 0 else exists k :: 0 <= k < |l| && l[k].toValue == b.longest)
            && (forall i :: 0 <= i < |l| ==> Follows(c, a.freezes, l[..i], l[i]))
            && !Owed(c, a.freezes, l)
            && (forall i, j :: 0 <= i < j < |l| ==> !(l[i].note.InitialGrant? && l[j].note.InitialGrant?))
  {
    RunTold(c, a.freezes, a, ts);
    Rows(c, a.freezes, Exec(c, a, ts).ledger);
  }
}
