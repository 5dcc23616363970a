/**
  The session sampler (backend/app/sessions/sampler.py): due concepts, then weakest concepts, then a boss,
  then a pad up to the floor. Difficulties and masteries are reals.
 */
module Sampler {
  import opened Basics

  const MIN_SLOTS := 3
  const MAX_NON_BOSS_SLOTS := 4
  const BOSS_BAND_MARGIN := 2
  const BOSS_DIFFICULTY_FLOOR := 7

  datatype Candidate = Candidate(id: nat, version: nat, concepts: seq<string>, difficulty: real)

  /** The arguments of build_session_slots. */
  datatype Pool = Pool(candidates: seq<Candidate>, due: seq<string>, mastery: map<string, real>,
                       recent: set<nat>, target: int, low: int, high: int)

  datatype SessionSlot = SessionSlot(slot: nat, id: nat, version: nat, isBoss: bool)

  /** The exercises table requires every exercise to list a concept. */
  predicate Tagged(s: seq<Candidate>) {
    forall i :: 0 <= i < |s| ==> s[i].concepts != []
  }

  function Ids(s: seq<Candidate>): set<nat> {
    set i | 0 <= i < |s| :: s[i].id
  }

  // ---------------------------------------------------------------- filtering and sorting

  /** The conditions of the sampler's comprehensions. */
  datatype Test = NotIn(banned: set<nat>) | InRange(low: int, high: int) | Tags(concept: string) | AtLeast(floor: int)

  predicate Holds(t: Test, c: Candidate) {
    match t
    case NotIn(banned) => c.id !in banned
    case InRange(low, high) => low as real <= c.difficulty <= high as real
    case Tags(concept) => concept in c.concepts
    case AtLeast(floor) => c.difficulty >= floor as real
  }

  function Where(s: seq<Candidate>, t: Test): seq<Candidate> {
    if s == [] then [] else (if Holds(t, s[0]) then [s[0]] else []) + Where(s[1..], t)
  }

  /** The two sort keys: distance to a target, or hardest first. */
  datatype Order = Near(target: int) | Hardest

  function Key(o: Order, c: Candidate): real {
    match o
    case Near(t) => (var d := c.difficulty - t as real; if d < 0.0 then -d else d)
    case Hardest => -c.difficulty
  }

  function Insert(o: Order, c: Candidate, s: seq<Candidate>): seq<Candidate> {
    if s == [] || Key(o, c) <= Key(o, s[0]) then [c] + s else [s[0]] + Insert(o, c, s[1..])
  }

  /** sorted(s, key): stable. */
  function Sorted(o: Order, s: seq<Candidate>): seq<Candidate> {
    if s == [] then [] else Insert(o, s[0], Sorted(o, s[1..]))
  }

  predicate Ascending(o: Order, s: seq<Candidate>) {
    s == [] || ((s[1..] != [] ==> Key(o, s[0]) <= Key(o, s[1..][0])) && Ascending(o, s[1..]))
  }

  lemma {:induction false} WhereIs(s: seq<Candidate>, t: Test)
    ensures forall c :: c in Where(s, t) <==> c in s && Holds(t, c)
  {
    if s != [] {
      WhereIs(s[1..], t);
      assert s == [s[0]] + s[1..];
    }
  }

  lemma {:induction false} InsertIs(o: Order, c: Candidate, s: seq<Candidate>)
    ensures forall x :: x in Insert(o, c, s) <==> x == c || x in s
  {
    if s != [] {
      InsertIs(o, c, s[1..]);
      assert s == [s[0]] + s[1..];
    }
  }

  lemma {:induction false} SortedIs(o: Order, s: seq<Candidate>)
    ensures forall x :: x in Sorted(o, s) <==> x in s
  {
    if s != [] {
      SortedIs(o, s[1..]);
      InsertIs(o, s[0], Sorted(o, s[1..]));
      assert s == [s[0]] + s[1..];
    }
  }

  // ---------------------------------------------------------------- one pick

  /** pick: the first fresh candidate of the pool, else the first unused one. */
  function Pick(pool: seq<Candidate>, used: set<nat>, recent: set<nat>): Option<Candidate> {
    var available := Where(pool, NotIn(used));
    if available == [] then None
    else
      var unseen := Where(available, NotIn(recent));
      Some(if unseen != [] then unseen[0] else available[0])
  }

  lemma PickIs(pool: seq<Candidate>, used: set<nat>, recent: set<nat>)
    ensures Pick(pool, used, recent).None? <==> forall c :: c in pool ==> c.id in used
    ensures Pick(pool, used, recent).Some? ==>
              Pick(pool, used, recent).value in pool && Pick(pool, used, recent).value.id !in used
  {
    WhereIs(pool, NotIn(used));
    var available := Where(pool, NotIn(used));
    WhereIs(available, NotIn(recent));
    assert available != [] ==> available[0] in available;
    var unseen := Where(available, NotIn(recent));
    assert unseen != [] ==> unseen[0] in unseen;
  }

  /** What a pick from a sorted pool is for: an unseen candidate before a seen one, then the smaller key, then pool order. */
  predicate Better(o: Order, recent: set<nat>, a: Candidate, b: Candidate) {
    if (a.id in recent) != (b.id in recent) then a.id !in recent else Key(o, a) <= Key(o, b)
  }

  function Preferred(o: Order, s: seq<Candidate>, used: set<nat>, recent: set<nat>): Option<Candidate> {
    if s == [] then None
    else
      var rest := Preferred(o, s[1..], used, recent);
      if s[0].id in used then rest
      else if rest.None? || Better(o, recent, s[0], rest.value) then Some(s[0])
      else rest
  }

  lemma {:induction false} WhereAscending(o: Order, s: seq<Candidate>, t: Test)
    requires Ascending(o, s)
    ensures Ascending(o, Where(s, t))
    ensures s != [] && Where(s, t) != [] ==> Key(o, s[0]) <= Key(o, Where(s, t)[0])
  {
    if s != [] {
      WhereAscending(o, s[1..], t);
      WhereStep(s, t);
    }
  }

  lemma WhereStep(s: seq<Candidate>, t: Test)
    requires s != []
    ensures !Holds(t, s[0]) ==> Where(s, t) == Where(s[1..], t)
    ensures Holds(t, s[0]) ==> Where(s, t) != [] && Where(s, t)[0] == s[0] && Where(s, t)[1..] == Where(s[1..], t)
  {
    var rest := Where(s[1..], t);
    assert [] + rest == rest;
    assert ([s[0]] + rest)[1..] == rest;
  }

  lemma {:induction false} InsertAscending(o: Order, c: Candidate, s: seq<Candidate>)
    requires Ascending(o, s)
    ensures Ascending(o, Insert(o, c, s))
    ensures Insert(o, c, s)[0] == if s == [] || Key(o, c) <= Key(o, s[0]) then c else s[0]
  {
    if s == [] || Key(o, c) <= Key(o, s[0]) {
      assert ([c] + s)[1..] == s;
    } else {
      InsertAscending(o, c, s[1..]);
      assert Insert(o, c, s)[1..] == Insert(o, c, s[1..]);
    }
  }

  /** Inserting commutes with filtering. */
  lemma {:induction false} WhereInsert(o: Order, c: Candidate, s: seq<Candidate>, t: Test)
    requires Ascending(o, s)
    ensures Where(Insert(o, c, s), t) == if Holds(t, c) then Insert(o, c, Where(s, t)) else Where(s, t)
  {
    var u := Insert(o, c, s);
    WhereStep(u, t);
    if s == [] || Key(o, c) <= Key(o, s[0]) {
      assert u[1..] == s;
      WhereAscending(o, s, t);
      assert Where(s, t) == [] || Key(o, c) <= Key(o, Where(s, t)[0]);
    } else {
      WhereInsert(o, c, s[1..], t);
      WhereStep(s, t);
      assert u[0] == s[0] && u[1..] == Insert(o, c, s[1..]);
      WhereAscending(o, s, t);
      if Holds(t, s[0]) {
        assert Where(u, t) == [s[0]] + Where(u[1..], t);
      }
    }
  }

  lemma {:induction false} SortedAscending(o: Order, s: seq<Candidate>)
    ensures Ascending(o, Sorted(o, s))
  {
    if s != [] {
      SortedAscending(o, s[1..]);
      InsertAscending(o, s[0], Sorted(o, s[1..]));
    }
  }

  /** Sorting, filtering twice and taking the head is one search for the preferred candidate. */
  lemma {:induction false} PickIsPreferred(o: Order, s: seq<Candidate>, used: set<nat>, recent: set<nat>)
    ensures Pick(Sorted(o, s), used, recent) == Preferred(o, s, used, recent)
  {
    if s != [] {
      PickIsPreferred(o, s[1..], used, recent);
      var t := Sorted(o, s[1..]);
      SortedAscending(o, s[1..]);
      WhereAscending(o, t, NotIn(used));
      WhereInsert(o, s[0], t, NotIn(used));
      var available := Where(t, NotIn(used));
      WhereAscending(o, available, NotIn(recent));
      WhereInsert(o, s[0], available, NotIn(recent));
      InsertAscending(o, s[0], available);
      InsertAscending(o, s[0], Where(available, NotIn(recent)));
      PreferredHead(o, t, used, recent);
    }
  }

  /** In an ascending pool the head of either list is what Pick returns. */
  lemma PreferredHead(o: Order, t: seq<Candidate>, used: set<nat>, recent: set<nat>)
    ensures var available := Where(t, NotIn(used));
            var unseen := Where(available, NotIn(recent));
            && (available == [] ==> unseen == [])
            && (unseen != [] ==> unseen[0].id !in recent)
            && (available != [] && unseen == [] ==> available[0].id in recent)
  {
    var available := Where(t, NotIn(used));
    WhereIs(available, NotIn(recent));
    var unseen := Where(available, NotIn(recent));
    assert unseen != [] ==> unseen[0] in unseen;
    assert available != [] ==> available[0] in available;
  }

  /** Filtering a sorted list is sorting the filtered one. */
  lemma {:induction false} SortedWhere(o: Order, s: seq<Candidate>, t: Test)
    ensures Where(Sorted(o, s), t) == Sorted(o, Where(s, t))
  {
    if s != [] {
      SortedWhere(o, s[1..], t);
      SortedAscending(o, s[1..]);
      WhereInsert(o, s[0], Sorted(o, s[1..]), t);
      WhereStep(s, t);
    }
  }

  // ---------------------------------------------------------------- the four stages

  function Band(p: Pool): Test {
    InRange(p.low, p.high)
  }

  /** The best in-band candidate for a due concept, if any is unused. */
  function DuePick(p: Pool, concept: string, selected: seq<Candidate>): Option<Candidate> {
    Pick(Sorted(Near(p.target), Where(Where(p.candidates, Tags(concept)), Band(p))), Ids(selected), p.recent)
  }

  function DueFill(p: Pool, due: seq<string>, selected: seq<Candidate>): seq<Candidate>
    decreases |due|
  {
    if due == [] || |selected| >= MAX_NON_BOSS_SLOTS then selected
    else match DuePick(p, due[0], selected)
      case None => DueFill(p, due[1..], selected)
      case Some(c) => DueFill(p, due[1..], selected + [c])
  }

  function Banded(p: Pool, selected: seq<Candidate>): seq<Candidate> {
    Where(Where(p.candidates, NotIn(Ids(selected))), Band(p))
  }

  function Mastery(p: Pool, concept: string): real {
    if concept in p.mastery then p.mastery[concept] else 0.0
  }

  predicate Listed(s: seq<Candidate>, concept: string) {
    exists i :: 0 <= i < |s| && concept in s[i].concepts
  }

  /** A concept of least mastery among those still listed; ties fall as a Python set happens to iterate. */
  predicate Weakest(p: Pool, banded: seq<Candidate>, concept: string) {
    Listed(banded, concept)
    && forall i, j :: 0 <= i < |banded| && 0 <= j < |banded[i].concepts| ==>
         Mastery(p, concept) <= Mastery(p, banded[i].concepts[j])
  }

  function FillPick(p: Pool, concept: string, selected: seq<Candidate>): Option<Candidate> {
    Pick(Sorted(Near(p.target), Where(Banded(p, selected), Tags(concept))), Ids(selected), p.recent)
  }

  /** Every step of the curriculum fill takes the best candidate of a weakest concept, until four or none left. */
  ghost predicate CurriculumFill(p: Pool, selected: seq<Candidate>, filled: seq<Candidate>)
    decreases MAX_NON_BOSS_SLOTS - |selected|
  {
    if |selected| >= MAX_NON_BOSS_SLOTS || Banded(p, selected) == [] then filled == selected
    else exists concept :: Weakest(p, Banded(p, selected), concept) && FillsFrom(p, concept, selected, filled)
  }

  ghost predicate FillsFrom(p: Pool, concept: string, selected: seq<Candidate>, filled: seq<Candidate>)
    requires |selected| < MAX_NON_BOSS_SLOTS
    decreases MAX_NON_BOSS_SLOTS - |selected|, 0
  {
    match FillPick(p, concept, selected)
    case None => filled == selected
    case Some(c) => CurriculumFill(p, selected + [c], filled)
  }

  function BossMax(p: Pool): int {
    Min(10, p.high + BOSS_BAND_MARGIN)
  }

  function BossTarget(p: Pool): int {
    Min(BossMax(p), Max(BOSS_DIFFICULTY_FLOOR, p.target + 2))
  }

  function Unused(p: Pool, used: set<nat>): seq<Candidate> {
    Where(p.candidates, NotIn(used))
  }

  function Eligible(p: Pool, used: set<nat>): seq<Candidate> {
    Sorted(Hardest, Where(Unused(p, used), InRange(p.low, BossMax(p))))
  }

  function FittingBoss(p: Pool, used: set<nat>): Option<Candidate> {
    var hard := Pick(Where(Eligible(p, used), AtLeast(BossTarget(p))), used, p.recent);
    if hard.Some? then hard else Pick(Eligible(p, used), used, p.recent)
  }

  /** The boss is the preferred candidate of those hard enough, else of all in the window, hardest first. */
  lemma BossIsPreferred(p: Pool, used: set<nat>)
    ensures var window := Where(Unused(p, used), InRange(p.low, BossMax(p)));
            var hard := Preferred(Hardest, Where(window, AtLeast(BossTarget(p))), used, p.recent);
            FittingBoss(p, used) == if hard.Some? then hard else Preferred(Hardest, window, used, p.recent)
  {
    var window := Where(Unused(p, used), InRange(p.low, BossMax(p)));
    SortedWhere(Hardest, window, AtLeast(BossTarget(p)));
    PickIsPreferred(Hardest, Where(window, AtLeast(BossTarget(p))), used, p.recent);
    PickIsPreferred(Hardest, window, used, p.recent);
  }

  function Boss(p: Pool, selected: seq<Candidate>): Option<Candidate> {
    var fitting := FittingBoss(p, Ids(selected));
    if fitting.Some? || |selected| >= MIN_SLOTS then fitting
    else Pick(Sorted(Near(BossMax(p)), Unused(p, Ids(selected))), Ids(selected), p.recent)
  }

  function BossCount(boss: Option<Candidate>): nat {
    if boss.Some? then 1 else 0
  }

  function UsedIds(selected: seq<Candidate>, boss: Option<Candidate>): set<nat> {
    Ids(selected) + if boss.Some? then {boss.value.id} else {}
  }

  function PadPick(p: Pool, selected: seq<Candidate>, boss: Option<Candidate>): Option<Candidate> {
    var used := UsedIds(selected, boss);
    Pick(Sorted(Near(p.target), Unused(p, used)), used, p.recent)
  }

  function Pad(p: Pool, selected: seq<Candidate>, boss: Option<Candidate>): seq<Candidate>
    decreases MIN_SLOTS - |selected|
  {
    if |selected| + BossCount(boss) >= MIN_SLOTS then selected
    else match PadPick(p, selected, boss)
      case None => selected
      case Some(c) => Pad(p, selected + [c], boss)
  }

  function Numbered(selected: seq<Candidate>): seq<SessionSlot> {
    seq(|selected|, i requires 0 <= i < |selected| => SessionSlot(i + 1, selected[i].id, selected[i].version, false))
  }

  function Slots(selected: seq<Candidate>, boss: Option<Candidate>): seq<SessionSlot> {
    Numbered(selected) +
    if boss.Some? then [SessionSlot(|selected| + 1, boss.value.id, boss.value.version, true)] else []
  }

  /** The selections that the sampler can make for a pool. */
  ghost predicate Selection(p: Pool, filled: seq<Candidate>, boss: Option<Candidate>, selected: seq<Candidate>) {
    && CurriculumFill(p, DueFill(p, p.due, []), filled)
    && boss == Boss(p, filled)
    && selected == Pad(p, filled, boss)
  }

  // ---------------------------------------------------------------- the function itself

  lemma IdsPush(s: seq<Candidate>, c: Candidate)
    ensures Ids(s + [c]) == Ids(s) + {c.id}
  {
    var t := s + [c];
    assert forall i :: 0 <= i < |s| ==> t[i] == s[i];
    assert t[|s|] == c;
    forall id | id in Ids(s) ensures id in Ids(t) {
      var i :| 0 <= i < |s| && s[i].id == id;
      assert t[i].id == id;
    }
  }

  /** While candidates are left, there is a weakest concept to go on with. */
  lemma SomeWeakest(p: Pool, banded: seq<Candidate>)
    requires banded != [] && Tagged(banded)
    ensures exists concept :: Weakest(p, banded, concept)
  {
    if |banded| == 1 {
      var concept := LeastOf(p, banded[0].concepts);
      assert Weakest(p, banded, concept);
    } else {
      var rest := banded[1..];
      SomeWeakest(p, rest);
      var a :| Weakest(p, rest, a);
      var b := LeastOf(p, banded[0].concepts);
      var least := if Mastery(p, b) <= Mastery(p, a) then b else a;
      assert b in banded[0].concepts;
      assert Listed(banded, a) by {
        var i :| 0 <= i < |rest| && a in rest[i].concepts;
        assert a in banded[i + 1].concepts;
      }
      forall i, j | 0 <= i < |banded| && 0 <= j < |banded[i].concepts|
        ensures Mastery(p, least) <= Mastery(p, banded[i].concepts[j])
      {
        if i > 0 {
          assert rest[i - 1] == banded[i];
        }
      }
      assert Weakest(p, banded, least);
    }
  }

  function LeastOf(p: Pool, names: seq<string>): (least: string)
    requires names != []
    ensures least in names && forall j :: 0 <= j < |names| ==> Mastery(p, least) <= Mastery(p, names[j])
  {
    if |names| == 1 then names[0]
    else
      var rest := LeastOf(p, names[1..]);
      if Mastery(p, names[0]) <= Mastery(p, rest) then names[0] else rest
  }

  lemma BandedTagged(p: Pool, selected: seq<Candidate>)
    requires Tagged(p.candidates)
    ensures Tagged(Banded(p, selected))
  {
    WhereIs(p.candidates, NotIn(Ids(selected)));
    var unused := Unused(p, Ids(selected));
    WhereIs(unused, Band(p));
    forall i | 0 <= i < |Banded(p, selected)| ensures Banded(p, selected)[i].concepts != [] {
      assert Banded(p, selected)[i] in Banded(p, selected);
    }
  }

  /** A fill that has come this far: any end it can still reach is an end from the start. */
  ghost predicate Reaches(p: Pool, from: seq<Candidate>, now: seq<Candidate>) {
    forall filled :: CurriculumFill(p, now, filled) ==> CurriculumFill(p, from, filled)
  }

  method FillDueConcepts(p: Pool) returns (selected: seq<Candidate>, usedIds: set<nat>)
    ensures selected == DueFill(p, p.due, []) && usedIds == Ids(selected)
  {
    selected, usedIds := [], {};
    for i := 0 to |p.due|
      invariant usedIds == Ids(selected)
      invariant DueFill(p, p.due[i..], selected) == DueFill(p, p.due, [])
    {
      if |selected| >= MAX_NON_BOSS_SLOTS {
        break;
      }
      assert p.due[i..][1..] == p.due[i + 1..];
      var pool := Sorted(Near(p.target), Where(Where(p.candidates, Tags(p.due[i])), Band(p)));
      match Pick(pool, usedIds, p.recent) {
        case None =>
        case Some(chosen) =>
          IdsPush(selected, chosen);
          usedIds := usedIds + {chosen.id};
          selected := selected + [chosen];
      }
    }
  }

  method FillCurriculum(p: Pool, due: seq<Candidate>, used: set<nat>) returns (selected: seq<Candidate>, usedIds: set<nat>)
    requires Tagged(p.candidates) && used == Ids(due)
    ensures CurriculumFill(p, due, selected) && usedIds == Ids(selected)
  {
    selected, usedIds := due, used;
    var going := true;
    while going && |selected| < MAX_NON_BOSS_SLOTS
      invariant usedIds == Ids(selected)
      invariant Reaches(p, due, selected)
      invariant !going ==> CurriculumFill(p, due, selected)
      decreases going, MAX_NON_BOSS_SLOTS - |selected|
    {
      var banded := Where(Where(p.candidates, NotIn(usedIds)), Band(p));
      if banded == [] {
        going := false;
      } else {
        BandedTagged(p, selected);
        SomeWeakest(p, banded);
        var weakest :| Weakest(p, banded, weakest);
        match Pick(Sorted(Near(p.target), Where(banded, Tags(weakest))), usedIds, p.recent) {
          case None =>
            assert FillsFrom(p, weakest, selected, selected);
            going := false;
          case Some(chosen) =>
            assert forall filled :: CurriculumFill(p, selected + [chosen], filled) ==> FillsFrom(p, weakest, selected, filled);
            IdsPush(selected, chosen);
            usedIds := usedIds + {chosen.id};
            selected := selected + [chosen];
        }
      }
    }
    assert going ==> CurriculumFill(p, selected, selected);
  }

  method PadToFloor(p: Pool, filled: seq<Candidate>, boss: Option<Candidate>, used: set<nat>)
    returns (selected: seq<Candidate>)
    requires used == UsedIds(filled, boss)
    ensures selected == Pad(p, filled, boss)
  {
    selected := filled;
    var usedIds := used;
    while |selected| + BossCount(boss) < MIN_SLOTS
      invariant usedIds == UsedIds(selected, boss)
      invariant Pad(p, selected, boss) == Pad(p, filled, boss)
      decreases MIN_SLOTS - |selected|
    {
      match Pick(Sorted(Near(p.target), Where(p.candidates, NotIn(usedIds))), usedIds, p.recent) {
        case None => break;
        case Some(chosen) =>
          IdsPush(selected, chosen);
          usedIds := usedIds + {chosen.id};
          selected := selected + [chosen];
      }
    }
  }

  method ChooseBoss(p: Pool, selected: seq<Candidate>, usedIds: set<nat>) returns (boss: Option<Candidate>)
    requires usedIds == Ids(selected)
    ensures boss == Boss(p, selected)
  {
    var bossMax := Min(10, p.high + BOSS_BAND_MARGIN);
    var bossTarget := Min(bossMax, Max(BOSS_DIFFICULTY_FLOOR, p.target + 2));
    var eligible := Sorted(Hardest, Where(Where(p.candidates, NotIn(usedIds)), InRange(p.low, bossMax)));
    boss := Pick(Where(eligible, AtLeast(bossTarget)), usedIds, p.recent);
    if boss.None? {
      boss := Pick(eligible, usedIds, p.recent);
    }
    if boss.None? && |selected| < MIN_SLOTS {
      boss := Pick(Sorted(Near(bossMax), Where(p.candidates, NotIn(usedIds))), usedIds, p.recent);
    }
  }

  method BuildSessionSlots(p: Pool) returns (slots: seq<SessionSlot>)
    requires Tagged(p.candidates)
    ensures exists filled, boss, selected :: Selection(p, filled, boss, selected) && slots == Slots(selected, boss)
  {
    var due, dueIds := FillDueConcepts(p);
    var filled, usedIds := FillCurriculum(p, due, dueIds);
    var boss := ChooseBoss(p, filled, usedIds);
    var selected := PadToFloor(p, filled, boss, UsedIds(filled, boss));
    assert Selection(p, filled, boss, selected);
    slots := Slots(selected, boss);
  }
}
