/** What every session the sampler can build promises (backend/app/sessions/sampler.py). */
module SamplerGuarantees {
  import opened Basics
  import opened Sampler

  /** Candidates of the pool, no two with one id. */
  predicate Drawn(p: Pool, s: seq<Candidate>) {
    && (forall i :: 0 <= i < |s| ==> s[i] in p.candidates)
    && (forall i, j :: 0 <= i < j < |s| ==> s[i].id != s[j].id)
  }

  predicate InBand(p: Pool, s: seq<Candidate>) {
    forall i :: 0 <= i < |s| ==> Holds(Band(p), s[i])
  }

  /** No candidate that passes the test is unused. */
  predicate Exhausted(p: Pool, t: Test, used: set<nat>) {
    forall c :: c in p.candidates && Holds(t, c) ==> c.id in used
  }

  predicate AllUsed(p: Pool, used: set<nat>) {
    forall c :: c in p.candidates ==> c.id in used
  }

  lemma Push(p: Pool, s: seq<Candidate>, c: Candidate)
    requires Drawn(p, s) && c in p.candidates && c.id !in Ids(s)
    ensures Drawn(p, s + [c]) && Ids(s + [c]) == Ids(s) + {c.id}
    ensures InBand(p, s) && Holds(Band(p), c) ==> InBand(p, s + [c])
  {
    IdsPush(s, c);
    assert forall i :: 0 <= i < |s| ==> s[i].id in Ids(s);
  }

  // ---------------------------------------------------------------- the picks

  lemma DuePickIs(p: Pool, concept: string, selected: seq<Candidate>)
    ensures match DuePick(p, concept, selected)
            case None => forall c :: c in p.candidates && concept in c.concepts && Holds(Band(p), c) ==> c.id in Ids(selected)
            case Some(c) => c in p.candidates && concept in c.concepts && Holds(Band(p), c) && c.id !in Ids(selected)
  {
    var tagged := Where(p.candidates, Tags(concept));
    WhereIs(p.candidates, Tags(concept));
    WhereIs(tagged, Band(p));
    SortedIs(Near(p.target), Where(tagged, Band(p)));
    PickIs(Sorted(Near(p.target), Where(tagged, Band(p))), Ids(selected), p.recent);
  }

  lemma BandedIs(p: Pool, selected: seq<Candidate>)
    ensures forall c :: c in Banded(p, selected) <==> c in p.candidates && c.id !in Ids(selected) && Holds(Band(p), c)
    ensures Banded(p, selected) == [] <==> Exhausted(p, Band(p), Ids(selected))
  {
    WhereIs(p.candidates, NotIn(Ids(selected)));
    WhereIs(Unused(p, Ids(selected)), Band(p));
    assert Banded(p, selected) != [] ==> Banded(p, selected)[0] in Banded(p, selected);
  }

  lemma FillPickIs(p: Pool, concept: string, selected: seq<Candidate>)
    requires Weakest(p, Banded(p, selected), concept)
    ensures var c := FillPick(p, concept, selected);
            c.Some? && c.value in p.candidates && Holds(Band(p), c.value) && c.value.id !in Ids(selected)
  {
    var banded := Banded(p, selected);
    BandedIs(p, selected);
    WhereIs(banded, Tags(concept));
    SortedIs(Near(p.target), Where(banded, Tags(concept)));
    PickIs(Sorted(Near(p.target), Where(banded, Tags(concept))), Ids(selected), p.recent);
    var i :| 0 <= i < |banded| && concept in banded[i].concepts;
    assert banded[i] in banded;
  }

  lemma FittingIs(p: Pool, used: set<nat>)
    ensures var window := InRange(p.low, BossMax(p));
            match FittingBoss(p, used)
            case None => Exhausted(p, window, used)
            case Some(b) => b in p.candidates && Holds(window, b) && b.id !in used
  {
    var window := InRange(p.low, BossMax(p));
    WhereIs(p.candidates, NotIn(used));
    WhereIs(Unused(p, used), window);
    SortedIs(Hardest, Where(Unused(p, used), window));
    WhereIs(Eligible(p, used), AtLeast(BossTarget(p)));
    PickIs(Where(Eligible(p, used), AtLeast(BossTarget(p))), used, p.recent);
    PickIs(Eligible(p, used), used, p.recent);
  }

  lemma UnusedPickIs(p: Pool, target: int, used: set<nat>)
    ensures match Pick(Sorted(Near(target), Unused(p, used)), used, p.recent)
            case None => AllUsed(p, used)
            case Some(c) => c in p.candidates && c.id !in used
  {
    WhereIs(p.candidates, NotIn(used));
    SortedIs(Near(target), Unused(p, used));
    PickIs(Sorted(Near(target), Unused(p, used)), used, p.recent);
  }

  // ---------------------------------------------------------------- the stages

  predicate Represented(s: seq<Candidate>, concept: string) {
    exists i :: 0 <= i < |s| && concept in s[i].concepts
  }

  predicate HasInBand(p: Pool, concept: string) {
    exists c :: c in p.candidates && concept in c.concepts && Holds(Band(p), c)
  }

  /** How many of these due concepts have an exercise in the band at all. */
  function Servable(p: Pool, due: seq<string>): nat {
    if due == [] then 0 else (if HasInBand(p, due[0]) then 1 else 0) + Servable(p, due[1..])
  }

  /** exercises_current has one row per exercise. */
  predicate UniqueIds(s: seq<Candidate>) {
    forall a, b :: a in s && b in s && a.id == b.id ==> a == b
  }

  lemma {:induction false} DueFillIs(p: Pool, due: seq<string>, selected: seq<Candidate>)
    requires Drawn(p, selected) && InBand(p, selected) && |selected| <= MAX_NON_BOSS_SLOTS
    ensures var r := DueFill(p, due, selected);
            selected <= r && Drawn(p, r) && InBand(p, r) && |r| <= MAX_NON_BOSS_SLOTS
    decreases |due|
  {
    if due != [] && |selected| < MAX_NON_BOSS_SLOTS {
      DuePickIs(p, due[0], selected);
      match DuePick(p, due[0], selected)
      case None => DueFillIs(p, due[1..], selected);
      case Some(c) =>
        Push(p, selected, c);
        DueFillIs(p, due[1..], selected + [c]);
    }
  }

  function AfterDue(p: Pool, concept: string, selected: seq<Candidate>): seq<Candidate> {
    match DuePick(p, concept, selected) case None => selected case Some(c) => selected + [c]
  }

  lemma AfterDueIs(p: Pool, concept: string, selected: seq<Candidate>)
    requires Drawn(p, selected) && InBand(p, selected)
    ensures var more := AfterDue(p, concept, selected);
            && Drawn(p, more) && InBand(p, more) && selected <= more
            && |more| <= |selected| + if HasInBand(p, concept) then 1 else 0
  {
    DuePickIs(p, concept, selected);
    match DuePick(p, concept, selected)
    case None =>
    case Some(c) => Push(p, selected, c);
  }

  /** A due concept with an in-band exercise ends up represented if the slots could not fill up before its turn. */
  lemma {:induction false} DueRepresented(p: Pool, due: seq<string>, selected: seq<Candidate>, i: nat)
    requires UniqueIds(p.candidates)
    requires Drawn(p, selected) && InBand(p, selected)
    requires i < |due| && HasInBand(p, due[i]) && |selected| + Servable(p, due[..i]) < MAX_NON_BOSS_SLOTS
    ensures Represented(DueFill(p, due, selected), due[i])
    decreases |due|
  {
    var more := AfterDue(p, due[0], selected);
    AfterDueIs(p, due[0], selected);
    assert DueFill(p, due, selected) == DueFill(p, due[1..], more);
    if i == 0 {
      DueFillIs(p, due[1..], more);
      NowRepresented(p, due[0], selected);
      RepresentedMore(more, DueFill(p, due[1..], more), due[0]);
    } else {
      assert due[..i][0] == due[0] && due[..i][1..] == due[1..][..i - 1];
      DueRepresented(p, due[1..], more, i - 1);
    }
  }

  lemma NowRepresented(p: Pool, concept: string, selected: seq<Candidate>)
    requires UniqueIds(p.candidates) && Drawn(p, selected) && HasInBand(p, concept)
    ensures Represented(AfterDue(p, concept, selected), concept)
  {
    DuePickIs(p, concept, selected);
    match DuePick(p, concept, selected)
    case None =>
      var c :| c in p.candidates && concept in c.concepts && Holds(Band(p), c);
      var i :| 0 <= i < |selected| && selected[i].id == c.id;
      assert selected[i] == c;
    case Some(c) =>
      assert concept in AfterDue(p, concept, selected)[|selected|].concepts;
  }

  lemma RepresentedMore(s: seq<Candidate>, more: seq<Candidate>, concept: string)
    requires s <= more && Represented(s, concept)
    ensures Represented(more, concept)
  {
    var i :| 0 <= i < |s| && concept in s[i].concepts;
    assert more[i] == s[i];
  }

  /** The fill stops only when four are selected or the band is exhausted. */
  lemma {:induction false} CurriculumFillIs(p: Pool, selected: seq<Candidate>, filled: seq<Candidate>)
    requires CurriculumFill(p, selected, filled)
    requires Drawn(p, selected) && InBand(p, selected) && |selected| <= MAX_NON_BOSS_SLOTS
    ensures selected <= filled && Drawn(p, filled) && InBand(p, filled) && |filled| <= MAX_NON_BOSS_SLOTS
    ensures |filled| == MAX_NON_BOSS_SLOTS || Exhausted(p, Band(p), Ids(filled))
    decreases MAX_NON_BOSS_SLOTS - |selected|
  {
    BandedIs(p, selected);
    if |selected| < MAX_NON_BOSS_SLOTS && Banded(p, selected) != [] {
      var concept :| Weakest(p, Banded(p, selected), concept) && FillsFrom(p, concept, selected, filled);
      FillPickIs(p, concept, selected);
      var c := FillPick(p, concept, selected).value;
      Push(p, selected, c);
      CurriculumFillIs(p, selected + [c], filled);
    }
  }

  /** The boss is a new candidate, in its window unless the session is short and nothing fits. */
  lemma BossIs(p: Pool, filled: seq<Candidate>)
    ensures var window := InRange(p.low, BossMax(p));
            match Boss(p, filled)
            case None => Exhausted(p, window, Ids(filled)) && (|filled| < MIN_SLOTS ==> AllUsed(p, Ids(filled)))
            case Some(b) =>
              && b in p.candidates && b.id !in Ids(filled)
              && (!Holds(window, b) ==> |filled| < MIN_SLOTS && Exhausted(p, window, Ids(filled)))
  {
    FittingIs(p, Ids(filled));
    UnusedPickIs(p, BossMax(p), Ids(filled));
  }

  predicate BossApart(s: seq<Candidate>, boss: Option<Candidate>) {
    boss.Some? ==> boss.value.id !in Ids(s)
  }

  /** The pad stops at the floor or when the pool is used up. */
  lemma {:induction false} PadIs(p: Pool, selected: seq<Candidate>, boss: Option<Candidate>)
    requires Drawn(p, selected) && BossApart(selected, boss)
    ensures var r := Pad(p, selected, boss);
            && selected <= r && Drawn(p, r) && BossApart(r, boss)
            && (r != selected ==> |r| + BossCount(boss) <= MIN_SLOTS)
            && (|r| + BossCount(boss) < MIN_SLOTS ==> AllUsed(p, UsedIds(r, boss)))
    decreases MIN_SLOTS - |selected|
  {
    UnusedPickIs(p, p.target, UsedIds(selected, boss));
    if |selected| + BossCount(boss) < MIN_SLOTS {
      match PadPick(p, selected, boss)
      case None =>
      case Some(c) =>
        Push(p, selected, c);
        PadIs(p, selected + [c], boss);
    }
  }

  // ---------------------------------------------------------------- sizes

  lemma {:induction false} IdsSize(s: seq<Candidate>)
    ensures |Ids(s)| <= |s|
  {
    if s != [] {
      var rest := s[..|s| - 1];
      IdsSize(rest);
      IdsPush(rest, s[|s| - 1]);
      assert s == rest + [s[|s| - 1]];
    }
  }

  lemma SubsetSize(a: set<nat>, b: set<nat>)
    requires a <= b
    ensures |a| <= |b|
  {
    assert b == a + (b - a);
  }

  lemma FloorOrAll(p: Pool, selected: seq<Candidate>, boss: Option<Candidate>)
    requires |selected| + BossCount(boss) < MIN_SLOTS ==> AllUsed(p, UsedIds(selected, boss))
    ensures Min(MIN_SLOTS, |Ids(p.candidates)|) <= |selected| + BossCount(boss)
  {
    if |selected| + BossCount(boss) < MIN_SLOTS {
      assert forall i :: 0 <= i < |p.candidates| ==> p.candidates[i] in p.candidates;
      SubsetSize(Ids(p.candidates), UsedIds(selected, boss));
      IdsSize(selected);
    }
  }

  // ---------------------------------------------------------------- the guarantees

  predicate Numbering(slots: seq<SessionSlot>) {
    && (forall i :: 0 <= i < |slots| ==> slots[i].slot == i + 1 && (slots[i].isBoss ==> i == |slots| - 1))
    && (forall i, j :: 0 <= i < j < |slots| ==> slots[i].id != slots[j].id)
  }

  lemma SlotsAreNumbered(p: Pool, selected: seq<Candidate>, boss: Option<Candidate>)
    requires Drawn(p, selected) && BossApart(selected, boss)
    ensures Numbering(Slots(selected, boss)) && |Slots(selected, boss)| == |selected| + BossCount(boss)
  {
    assert forall i :: 0 <= i < |selected| ==> selected[i].id in Ids(selected);
  }

  /**
    For every candidate pool and every way the ties can fall: slots are numbered from 1 with distinct
    exercises and at most one boss, in last place; there are at least three slots or as many as there are
    exercises, and at most five; an ordinary slot is out of band only when every in-band exercise is used
    and there are at most three slots; the boss is outside its window only when fewer than three were
    selected and nothing fits; and the first four due concepts with an in-band exercise are represented.
   */
  lemma SamplerGuarantees(p: Pool, filled: seq<Candidate>, boss: Option<Candidate>, selected: seq<Candidate>)
    requires Selection(p, filled, boss, selected)
    ensures var slots := Slots(selected, boss);
            && Numbering(slots)
            && Min(MIN_SLOTS, |Ids(p.candidates)|) <= |slots| <= MAX_NON_BOSS_SLOTS + 1
            && (forall i :: 0 <= i < |selected| && !Holds(Band(p), selected[i]) ==>
                  |slots| <= MIN_SLOTS && Exhausted(p, Band(p), UsedIds(selected, boss)))
            && (boss.Some? && !Holds(InRange(p.low, BossMax(p)), boss.value) ==>
                  |filled| < MIN_SLOTS && Exhausted(p, InRange(p.low, BossMax(p)), Ids(filled)))
            && filled <= selected && InBand(p, filled)
    ensures UniqueIds(p.candidates) ==>
              forall i :: 0 <= i < |p.due| && HasInBand(p, p.due[i]) && Servable(p, p.due[..i]) < MAX_NON_BOSS_SLOTS ==>
                Represented(selected, p.due[i])
  {
    var due := DueFill(p, p.due, []);
    DueFillIs(p, p.due, []);
    CurriculumFillIs(p, due, filled);
    BossIs(p, filled);
    PadIs(p, filled, boss);
    SlotsAreNumbered(p, selected, boss);
    FloorOrAll(p, selected, boss);
    IdsMore(filled, selected);
    if UniqueIds(p.candidates) {
      forall i | 0 <= i < |p.due| && HasInBand(p, p.due[i]) && Servable(p, p.due[..i]) < MAX_NON_BOSS_SLOTS
        ensures Represented(selected, p.due[i])
      {
        DueRepresented(p, p.due, [], i);
        RepresentedMore(due, selected, p.due[i]);
      }
    }
  }

  lemma IdsMore(s: seq<Candidate>, more: seq<Candidate>)
    requires s <= more
    ensures Ids(s) <= Ids(more)
  {
    forall i | 0 <= i < |s| ensures s[i].id in Ids(more) {
      assert more[i] == s[i];
    }
  }
}
