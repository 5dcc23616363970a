/** What a streak repair restores (backend/app/streak/service.py, _load_restorable and repair_streak). */
module StreakRepair {
  import opened Basics
  import opened DecimalText
  import opened Streak

  // ---------------------------------------------------------------- anchors

  predicate Bracketless(s: string) {
    '[' !in s && ']' !in s
  }

  lemma ConstantsBracketless()
    ensures |ANCHOR| == 15 && ANCHOR[0] == '[' && Bracketless(ANCHOR[1..])
  {
  }

  /** In a note the marker can only stand at its very end, and there it is the marker of the repaired reset. */
  lemma MarkerMatches(lead: string, i: nat, j: nat)
    requires Bracketless(lead)
    ensures Like(lead + AnchorMarker(i), AnchorMarker(j)) <==> i == j
  {
    var text, part := lead + AnchorMarker(i), AnchorMarker(j);
    ConstantsBracketless();
    if i == j {
      assert part <= text[|lead|..];
    }
    if Like(text, part) {
      var p :| 0 <= p <= |text| && part <= text[p..];
      assert text[p] == part[0] == '[';
      OnlyBracket(lead, i, p);
      assert text[|lead|..] == AnchorMarker(i);
      PrefixMarker(i, j);
    }
  }

  lemma OnlyBracket(lead: string, i: nat, p: nat)
    requires Bracketless(lead) && p < |lead + AnchorMarker(i)| && (lead + AnchorMarker(i))[p] == '['
    ensures p == |lead|
  {
    var m := AnchorMarker(i);
    ConstantsBracketless();
    var text := lead + m;
    assert forall q :: 0 <= q < |lead| ==> text[q] == lead[q];
    assert p >= |lead| ==> text[p] == m[p - |lead|];
    assert forall q :: 0 < q < |ANCHOR| ==> m[q] == ANCHOR[1..][q - 1];
    assert forall q :: |ANCHOR| <= q < |m| - 1 ==> m[q] == ToText(i)[q - |ANCHOR|];
    assert m[|m| - 1] == ']';
  }

  lemma PrefixMarker(i: nat, j: nat)
    requires AnchorMarker(j) <= AnchorMarker(i)
    ensures i == j
  {
    var m, n := AnchorMarker(i), AnchorMarker(j);
    assert n[|n| - 1] == ']' && n[|n| - 1] == m[|n| - 1];
    assert forall q :: |ANCHOR| <= q < |m| - 1 ==> m[q] == ToText(i)[q - |ANCHOR|];
    assert m[|ANCHOR|..|m| - 1] == ToText(i) && n[|ANCHOR|..|n| - 1] == ToText(j);
    assert |n| == |m|;
    ToTextInjective(i, j);
  }

  /** The notes the code writes: no brackets but those of the anchor, and ids below the next one. */
  predicate CleanNotes(l: Ledger, bound: nat) {
    if l == [] then true
    else
      && CleanNotes(l[..|l| - 1], bound)
      && l[|l| - 1].id < bound
      && match l[|l| - 1].note
         case RepairOf(lead, id) => Bracketless(lead) && id < bound
         case ZoneChange(text) => Bracketless(text)
         case _ => true
  }

  predicate CleanOp(op: Op) {
    match op
    case DoReconcile(_, text) => Bracketless(text)
    case DoRepair(_, lead) => Bracketless(lead)
    case _ => true
  }

  predicate CleanOps(ts: seq<Timed>) {
    forall i :: 0 <= i < |ts| ==> CleanOp(ts[i].op)
  }

  lemma {:induction false} FreshIdUnrepaired(l: Ledger, bound: nat, id: nat)
    requires CleanNotes(l, bound) && id >= bound
    ensures !AlreadyRepaired(l, id)
  {
    if l != [] {
      FreshIdUnrepaired(l[..|l| - 1], bound, id);
      match l[|l| - 1].note
      case RepairOf(lead, j) => MarkerMatches(lead, j, id);
      case ZoneChange(text) => NoMarker(text, id);
      case _ => NoMarker("", id);
    }
  }

  lemma NoMarker(text: string, id: nat)
    requires Bracketless(text)
    ensures !Like(text, AnchorMarker(id))
  {
    ConstantsBracketless();
    assert AnchorMarker(id)[0] == '[';
    assert forall i :: 0 <= i < |text| ==> text[i..][0] == text[i] != '[';
  }

  // ---------------------------------------------------------------- the queries on an ordered ledger

  function LastReset(l: Ledger): Option<StreakEvent> {
    if l == [] then None
    else if l[|l| - 1].kind.Reset? then Some(l[|l| - 1])
    else LastReset(l[..|l| - 1])
  }

  lemma {:induction false} LatestTransitionIsLast(l: Ledger, since: int)
    requires Ordered(l)
    ensures LatestTransition(l, since) ==
            if LastTransition(l).Some? && LastTransition(l).value.date >= since then LastTransition(l) else None
  {
    if l != [] {
      LatestTransitionIsLast(l[..|l| - 1], since);
    }
  }

  predicate NotAfter(r: Option<StreakEvent>, e: StreakEvent) {
    r.Some? ==> r.value.id <= e.id && r.value.createdAt <= e.createdAt
  }

  lemma {:induction false} LatestResetIsLast(l: Ledger, cutoff: int)
    requires Ordered(l)
    ensures LatestReset(l, cutoff) ==
            if LastReset(l).Some? && LastReset(l).value.createdAt >= cutoff then LastReset(l) else None
    ensures l != [] ==> NotAfter(LastReset(l), l[|l| - 1])
  {
    if l != [] {
      LatestResetIsLast(l[..|l| - 1], cutoff);
    }
  }

  // ---------------------------------------------------------------- once per reset

  lemma {:induction false} CleanMonotone(l: Ledger, bound: nat, bound': nat)
    requires CleanNotes(l, bound) && bound <= bound'
    ensures CleanNotes(l, bound')
  {
    if l != [] {
      CleanMonotone(l[..|l| - 1], bound, bound');
    }
  }

  /** No two repaired rows anchor the same reset. */
  predicate RepairedOnce(l: Ledger) {
    if l == [] then true
    else
      && RepairedOnce(l[..|l| - 1])
      && match l[|l| - 1].note
         case RepairOf(_, id) => !AlreadyRepaired(l[..|l| - 1], id)
         case _ => true
  }

  /** Notes are clean, and a note that anchors a reset stands on a repaired row of its own. */
  ghost predicate Anchored(a: Account) {
    CleanNotes(a.ledger, a.nextId) && RepairedOnce(a.ledger) && AnchorsRepair(a.ledger)
  }

  predicate AnchorsRepair(l: Ledger) {
    forall i :: 0 <= i < |l| && l[i].note.RepairOf? ==> l[i].kind.Repaired?
  }

  lemma AppendAnchored(a: Account, b: Account, kind: Kind, fromValue: nat, toValue: nat, date: int, note: Note, now: int)
    requires Anchored(a) && b.ledger == a.ledger && b.nextId == a.nextId
    requires match note
             case RepairOf(lead, id) => kind.Repaired? && Bracketless(lead) && id < a.nextId && !AlreadyRepaired(a.ledger, id)
             case ZoneChange(text) => Bracketless(text)
             case _ => true
    ensures Anchored(Append(b, kind, fromValue, toValue, date, note, now))
  {
    var l := a.ledger;
    var e := StreakEvent(a.nextId, kind, fromValue, toValue, date, note, now);
    CleanMonotone(l, a.nextId, a.nextId + 1);
    assert (l + [e])[..|l|] == l;
  }

  lemma {:induction false} SpendAnchored(a: Account, days: seq<int>, now: int)
    requires Anchored(a)
    ensures Anchored(SpendOn(a, days, now))
    decreases |days|
  {
    if days != [] {
      AppendAnchored(a, a, FreezeUsed, a.current, a.current, days[0], Spent(days[0]), now);
      SpendAnchored(Append(a, FreezeUsed, a.current, a.current, days[0], Spent(days[0]), now), days[1..], now);
    }
  }

  lemma AdvanceAnchored(a: Account, kind: Kind, toValue: nat, today: int, now: int)
    requires Anchored(a)
    ensures Anchored(Advance(a, kind, toValue, today, now))
  {
    AppendAnchored(a, a.(current := toValue, longest := Max(a.longest, toValue), lastActive := Some(today)),
                   kind, a.current, toValue, today, Blank, now);
  }

  lemma BridgeAnchored(c: Settings, a: Account, today: int, now: int)
    requires Anchored(a) && Bridge(c, a, today, now).Some?
    ensures Anchored(Bridge(c, a, today, now).value)
  {
    if a.lastActive.Some? && a.lastActive.value != today - 1 {
      var uncovered := Uncovered(a.ledger, MissedDates(a.lastActive.value, today));
      SpendAnchored(a.(freezes := a.freezes - |uncovered|), uncovered, now);
    }
  }

  lemma ExtendAnchored(c: Settings, a: Account, today: int, now: int)
    requires Anchored(a)
    ensures Anchored(Extend(c, a, today, now))
  {
    AdvanceAnchored(a, Extended, a.current + 1, today, now);
    var b := Advance(a, Extended, a.current + 1, today, now);
    AppendAnchored(b, b.(freezes := b.freezes + 1), Adjusted, b.current, b.current, today, Earned, now);
    assert Extend(c, a, today, now) == Accrue(c, b, today, now);
  }

  lemma SubmitAnchored(c: Settings, a: Account, today: int, now: int)
    requires Anchored(a) && Submit(c, a, today, now).Some?
    ensures Anchored(Submit(c, a, today, now).value)
  {
    if a.lastActive != Some(today) {
      match Bridge(c, a, today, now)
      case Some(b) =>
        BridgeAnchored(c, a, today, now);
        ExtendAnchored(c, b, today, now);
      case None =>
        AdvanceAnchored(a, Reset, 1, today, now);
    }
  }

  lemma LatestResetId(l: Ledger, cutoff: int, bound: nat)
    requires CleanNotes(l, bound) && LatestReset(l, cutoff).Some?
    ensures LatestReset(l, cutoff).value.id < bound
  {
    if l != [] && LatestReset(l[..|l| - 1], cutoff).Some? {
      LatestResetId(l[..|l| - 1], cutoff, bound);
    }
  }

  lemma ApplyAnchored(c: Settings, a: Account, t: Timed)
    requires Anchored(a) && CleanOp(t.op)
    ensures Anchored(Apply(c, a, t))
  {
    match t.op
    case DoSubmit(today) =>
      if Submit(c, a, today, t.now).Some? { SubmitAnchored(c, a, today, t.now); }
    case DoOutage(date) => AppendAnchored(a, a, FreezeUsed, a.current, a.current, date, Outage, t.now);
    case DoGrant(date) =>
      var grant := Min(c.start, c.max);
      AppendAnchored(a, a.(freezes := grant), Adjusted, a.current, a.current, date, InitialGrant(grant), t.now);
    case DoReconcile(newToday, text) =>
      AppendAnchored(a, a.(lastActive := Some(newToday)), Repaired, a.current, a.current, newToday, ZoneChange(text), t.now);
    case DoRepair(today, lead) =>
      match Restorable(c, a, t.now)
      case None =>
      case Some((reset, v)) =>
        LatestResetId(a.ledger, t.now - c.repairWindow, a.nextId);
        AppendAnchored(a, a.(current := v, longest := Max(a.longest, v)),
                       Repaired, a.current, v, today, RepairOf(lead, reset.id), t.now);
  }

  lemma {:induction false} RunAnchored(c: Settings, a: Account, ts: seq<Timed>)
    requires Anchored(a) && CleanOps(ts)
    ensures Anchored(Exec(c, a, ts))
    decreases |ts|
  {
    if ts != [] {
      ApplyAnchored(c, a, ts[0]);
      RunAnchored(c, Apply(c, a, ts[0]), ts[1..]);
    }
  }

  lemma {:induction false} AnchorSeen(l: Ledger, i: nat, id: nat)
    requires i < |l| && l[i].kind.Repaired? && l[i].note.RepairOf? && l[i].note.resetId == id
    requires Bracketless(l[i].note.lead)
    ensures AlreadyRepaired(l, id)
  {
    if i < |l| - 1 {
      AnchorSeen(l[..|l| - 1], i, id);
    } else {
      MarkerMatches(l[i].note.lead, id, id);
    }
  }

  lemma {:induction false} CleanLead(l: Ledger, bound: nat, i: nat)
    requires CleanNotes(l, bound) && i < |l| && l[i].note.RepairOf?
    ensures Bracketless(l[i].note.lead)
  {
    if i < |l| - 1 {
      CleanLead(l[..|l| - 1], bound, i);
    }
  }

  lemma {:induction false} OnceApart(l: Ledger, bound: nat, i: nat, j: nat)
    requires RepairedOnce(l) && AnchorsRepair(l) && CleanNotes(l, bound) && i < j < |l|
    requires l[i].note.RepairOf? && l[j].note.RepairOf?
    ensures l[i].note.resetId != l[j].note.resetId
  {
    var rest := l[..|l| - 1];
    assert forall k :: 0 <= k < |rest| ==> rest[k] == l[k];
    if j < |l| - 1 {
      OnceApart(rest, bound, i, j);
    } else {
      CleanLead(l, bound, i);
      AnchorSeen(rest, i, l[i].note.resetId);
    }
  }

  /** In every run, on any dates, each reset is repaired at most once. */
  lemma EachResetRepairedOnce(c: Settings, a: Account, ts: seq<Timed>, i: nat, j: nat)
    requires Fresh(c, a) && CleanOps(ts)
    requires i < j < |Exec(c, a, ts).ledger|
    requires Exec(c, a, ts).ledger[i].note.RepairOf? && Exec(c, a, ts).ledger[j].note.RepairOf?
    ensures Exec(c, a, ts).ledger[i].note.resetId != Exec(c, a, ts).ledger[j].note.resetId
  {
    RunAnchored(c, a, ts);
    var b := Exec(c, a, ts);
    OnceApart(b.ledger, b.nextId, i, j);
  }
}
