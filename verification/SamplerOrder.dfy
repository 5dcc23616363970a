/**
  Which exercises the sampler serves, in the order it serves them, said of difficulties, masteries and
  recent exercises alone (backend/app/sessions/sampler.py).
 */
module SamplerOrder {
  import opened Basics
  import opened Sampler
  import opened SamplerGuarantees

  function Size(x: real): real {
    if x < 0.0 then -x else x
  }

  predicate WithinBand(p: Pool, c: Candidate) {
    p.low as real <= c.difficulty && c.difficulty <= p.high as real
  }

  /** A missing entry counts as no mastery at all. */
  predicate KnownNoBetter(p: Pool, a: string, b: string) {
    (if a in p.mastery then p.mastery[a] else 0.0) <= (if b in p.mastery then p.mastery[b] else 0.0)
  }

  /** An unseen candidate before a recent one. */
  predicate FresherOrSame(p: Pool, a: Candidate, b: Candidate) {
    a.id in p.recent ==> b.id in p.recent
  }

  predicate AsRecent(p: Pool, a: Candidate, b: Candidate) {
    a.id in p.recent <==> b.id in p.recent
  }

  /** Of the unused among these, unseen first, the chosen one is nearest to the target. */
  predicate Nearest(p: Pool, among: set<Candidate>, used: set<nat>, target: int, chosen: Candidate) {
    && chosen in among && chosen.id !in used
    && forall c :: c in among && c.id !in used ==>
         && FresherOrSame(p, chosen, c)
         && (AsRecent(p, chosen, c) ==> Size(chosen.difficulty - target as real) <= Size(c.difficulty - target as real))
  }

  /** Of the unused among these, unseen first, the chosen one is the hardest. */
  predicate HardestOf(p: Pool, among: set<Candidate>, used: set<nat>, chosen: Candidate) {
    && chosen in among && chosen.id !in used
    && forall c :: c in among && c.id !in used ==>
         && FresherOrSame(p, chosen, c)
         && (AsRecent(p, chosen, c) ==> chosen.difficulty >= c.difficulty)
  }

  function Everyone(p: Pool): set<Candidate> {
    set c | c in p.candidates
  }

  function OnConcept(p: Pool, concept: string): set<Candidate> {
    set c | c in p.candidates && concept in c.concepts && WithinBand(p, c)
  }

  // ---------------------------------------------------------------- a pick, in these terms

  lemma {:induction false} PreferredBest(o: Order, s: seq<Candidate>, used: set<nat>, recent: set<nat>)
    ensures match Preferred(o, s, used, recent)
            case None => forall c :: c in s ==> c.id in used
            case Some(x) =>
              && x in s && x.id !in used
              && forall c :: c in s && c.id !in used ==>
                   && (x.id in recent ==> c.id in recent)
                   && ((x.id in recent <==> c.id in recent) ==> Key(o, x) <= Key(o, c))
  {
    if s != [] {
      PreferredBest(o, s[1..], used, recent);
      assert s == [s[0]] + s[1..];
    }
  }

  lemma NearestPick(p: Pool, target: int, s: seq<Candidate>, among: set<Candidate>, used: set<nat>)
    requires forall c :: c in s && c.id !in used <==> c in among && c.id !in used
    ensures match Pick(Sorted(Near(target), s), used, p.recent)
            case None => forall c :: c in among ==> c.id in used
            case Some(x) => Nearest(p, among, used, target, x)
  {
    PickIsPreferred(Near(target), s, used, p.recent);
    PreferredBest(Near(target), s, used, p.recent);
    forall c ensures Key(Near(target), c) == Size(c.difficulty - target as real) {}
  }

  lemma HardestPick(p: Pool, s: seq<Candidate>, among: set<Candidate>, used: set<nat>)
    requires forall c :: c in s && c.id !in used <==> c in among && c.id !in used
    ensures match Preferred(Hardest, s, used, p.recent)
            case None => forall c :: c in among ==> c.id in used
            case Some(x) => HardestOf(p, among, used, x)
  {
    PreferredBest(Hardest, s, used, p.recent);
  }

  // ---------------------------------------------------------------- due concepts

  /** The pick for a due concept. */
  predicate ServesDue(p: Pool, concept: string, before: seq<Candidate>, chosen: Candidate) {
    Nearest(p, OnConcept(p, concept), Ids(before), p.target, chosen)
  }

  lemma DuePickServes(p: Pool, concept: string, selected: seq<Candidate>)
    ensures match DuePick(p, concept, selected)
            case None => forall c :: c in OnConcept(p, concept) ==> c.id in Ids(selected)
            case Some(x) => ServesDue(p, concept, selected, x)
  {
    var tagged := Where(p.candidates, Tags(concept));
    WhereIs(p.candidates, Tags(concept));
    WhereIs(tagged, Band(p));
    NearestPick(p, p.target, Where(tagged, Band(p)), OnConcept(p, concept), Ids(selected));
  }

  /** The slots from n on serve due concepts, in the order these are due, each by its nearest exercise. */
  ghost predicate InDueOrder(p: Pool, due: seq<string>, n: nat, r: seq<Candidate>, js: seq<nat>) {
    && n <= |r| && |js| == |r| - n
    && (forall i :: 0 <= i < |js| ==> js[i] < |due| && ServesDue(p, due[js[i]], r[..n + i], r[n + i]))
    && (forall i, k :: 0 <= i < k < |js| ==> js[i] < js[k])
  }

  /** One due concept further on: skipped, or served first. */
  lemma SkipDue(p: Pool, due: seq<string>, n: nat, r: seq<Candidate>, rest: seq<nat>) returns (js: seq<nat>)
    requires due != [] && InDueOrder(p, due[1..], n, r, rest)
    ensures InDueOrder(p, due, n, r, js) && forall i :: 0 <= i < |js| ==> js[i] > 0
  {
    js := seq(|rest|, i requires 0 <= i < |rest| => rest[i] + 1);
    forall i | 0 <= i < |js| ensures js[i] < |due| && ServesDue(p, due[js[i]], r[..n + i], r[n + i]) {
      assert due[1..][rest[i]] == due[js[i]];
    }
  }

  lemma ServeDue(p: Pool, due: seq<string>, n: nat, r: seq<Candidate>, later: seq<nat>) returns (js: seq<nat>)
    requires due != [] && InDueOrder(p, due, n + 1, r, later) && forall i :: 0 <= i < |later| ==> later[i] > 0
    requires ServesDue(p, due[0], r[..n], r[n])
    ensures InDueOrder(p, due, n, r, js)
  {
    js := [0] + later;
    forall i | 0 <= i < |js| ensures js[i] < |due| && ServesDue(p, due[js[i]], r[..n + i], r[n + i]) {
      if i > 0 { assert js[i] == later[i - 1] && n + i == n + 1 + (i - 1); }
    }
  }

  lemma DueThen(p: Pool, due: seq<string>, selected: seq<Candidate>, r: seq<Candidate>, rest: seq<nat>) returns (js: seq<nat>)
    requires due != [] && AfterDue(p, due[0], selected) <= r
    requires InDueOrder(p, due[1..], |AfterDue(p, due[0], selected)|, r, rest)
    ensures InDueOrder(p, due, |selected|, r, js)
  {
    DuePickServes(p, due[0], selected);
    var more := AfterDue(p, due[0], selected);
    js := SkipDue(p, due, |more|, r, rest);
    if more != selected {
      assert r[..|selected|] == selected && r[|selected|] == more[|selected|];
      js := ServeDue(p, due, |selected|, r, js);
    }
  }

  lemma {:induction false} DueFillInOrder(p: Pool, due: seq<string>, selected: seq<Candidate>) returns (js: seq<nat>)
    ensures selected <= DueFill(p, due, selected)
    ensures InDueOrder(p, due, |selected|, DueFill(p, due, selected), js)
    decreases |due|
  {
    if due == [] || |selected| >= MAX_NON_BOSS_SLOTS {
      js := [];
    } else {
      var more := AfterDue(p, due[0], selected);
      assert DueFill(p, due, selected) == DueFill(p, due[1..], more);
      js := DueFillInOrder(p, due[1..], more);
      js := DueThen(p, due, selected, DueFill(p, due, selected), js);
    }
  }

  // ---------------------------------------------------------------- weakest concepts

  /** The pick of the curriculum fill: no concept of an unused in-band exercise is known less well. */
  predicate ServesWeakest(p: Pool, concept: string, before: seq<Candidate>, chosen: Candidate) {
    && Nearest(p, OnConcept(p, concept), Ids(before), p.target, chosen)
    && forall c, other :: c in p.candidates && WithinBand(p, c) && c.id !in Ids(before) && other in c.concepts ==>
         KnownNoBetter(p, concept, other)
  }

  lemma FillPickServes(p: Pool, concept: string, selected: seq<Candidate>)
    requires Weakest(p, Banded(p, selected), concept)
    ensures FillPick(p, concept, selected).Some?
    ensures ServesWeakest(p, concept, selected, FillPick(p, concept, selected).value)
  {
    var banded := Banded(p, selected);
    BandedIs(p, selected);
    WhereIs(banded, Tags(concept));
    FillPickIs(p, concept, selected);
    NearestPick(p, p.target, Where(banded, Tags(concept)), OnConcept(p, concept), Ids(selected));
    forall c, other | c in p.candidates && WithinBand(p, c) && c.id !in Ids(selected) && other in c.concepts
      ensures KnownNoBetter(p, concept, other)
    {
      assert c in banded;
      var i :| 0 <= i < |banded| && banded[i] == c;
      var j :| 0 <= j < |c.concepts| && c.concepts[j] == other;
      assert Mastery(p, concept) <= Mastery(p, banded[i].concepts[j]);
    }
  }

  /** The slots from n on each serve a weakest concept. */
  ghost predicate WeakestFirst(p: Pool, n: nat, filled: seq<Candidate>) {
    n <= |filled| && forall i :: n <= i < |filled| ==> ServesSomeWeakest(p, filled[..i], filled[i])
  }

  ghost predicate ServesSomeWeakest(p: Pool, before: seq<Candidate>, chosen: Candidate) {
    exists concept :: ServesWeakest(p, concept, before, chosen)
  }

  lemma WeakestPush(p: Pool, concept: string, selected: seq<Candidate>, c: Candidate, filled: seq<Candidate>)
    requires selected + [c] <= filled && ServesWeakest(p, concept, selected, c) && WeakestFirst(p, |selected| + 1, filled)
    ensures WeakestFirst(p, |selected|, filled)
  {
    assert filled[..|selected|] == selected && filled[|selected|] == c;
    assert ServesSomeWeakest(p, selected, c);
  }

  lemma {:induction false} CurriculumInOrder(p: Pool, selected: seq<Candidate>, filled: seq<Candidate>)
    requires CurriculumFill(p, selected, filled)
    ensures selected <= filled && WeakestFirst(p, |selected|, filled)
    decreases MAX_NON_BOSS_SLOTS - |selected|
  {
    if |selected| < MAX_NON_BOSS_SLOTS && Banded(p, selected) != [] {
      var concept :| Weakest(p, Banded(p, selected), concept) && FillsFrom(p, concept, selected, filled);
      FillPickServes(p, concept, selected);
      var c := FillPick(p, concept, selected).value;
      CurriculumInOrder(p, selected + [c], filled);
      WeakestPush(p, concept, selected, c, filled);
    }
  }

  // ---------------------------------------------------------------- the boss

  function Window(p: Pool): set<Candidate> {
    set c | c in p.candidates && p.low as real <= c.difficulty && c.difficulty <= BossMax(p) as real
  }

  function HardEnough(p: Pool): set<Candidate> {
    set c | c in Window(p) && c.difficulty >= BossTarget(p) as real
  }

  predicate NoneLeft(among: set<Candidate>, used: set<nat>) {
    forall c :: c in among ==> c.id in used
  }

  /**
    The boss: the hardest of those hard enough in its window, else the hardest in the window, else, in a
    session that would be short, the nearest to the cap; and there is none only when none of these is left.
   */
  predicate ServesBoss(p: Pool, filled: seq<Candidate>, boss: Option<Candidate>) {
    var used := Ids(filled);
    if !NoneLeft(HardEnough(p), used) then boss.Some? && HardestOf(p, HardEnough(p), used, boss.value)
    else if !NoneLeft(Window(p), used) then boss.Some? && HardestOf(p, Window(p), used, boss.value)
    else if |filled| < MIN_SLOTS && !NoneLeft(Everyone(p), used) then
      boss.Some? && Nearest(p, Everyone(p), used, BossMax(p), boss.value)
    else boss.None?
  }

  lemma BossServes(p: Pool, filled: seq<Candidate>)
    ensures ServesBoss(p, filled, Boss(p, filled))
  {
    var used := Ids(filled);
    var window := Where(Unused(p, used), InRange(p.low, BossMax(p)));
    WhereIs(p.candidates, NotIn(used));
    WhereIs(Unused(p, used), InRange(p.low, BossMax(p)));
    WhereIs(window, AtLeast(BossTarget(p)));
    BossIsPreferred(p, used);
    HardestPick(p, Where(window, AtLeast(BossTarget(p))), HardEnough(p), used);
    HardestPick(p, window, Window(p), used);
    NearestPick(p, BossMax(p), Unused(p, used), Everyone(p), used);
  }

  // ---------------------------------------------------------------- the pad

  /** The slots from n on are those nearest to the level of all that is left. */
  ghost predicate PadsNearest(p: Pool, n: nat, selected: seq<Candidate>, boss: Option<Candidate>) {
    n <= |selected|
    && forall i :: n <= i < |selected| ==> Nearest(p, Everyone(p), UsedIds(selected[..i], boss), p.target, selected[i])
  }

  lemma {:induction false} PadInOrder(p: Pool, selected: seq<Candidate>, boss: Option<Candidate>)
    ensures selected <= Pad(p, selected, boss) && PadsNearest(p, |selected|, Pad(p, selected, boss), boss)
    decreases MIN_SLOTS - |selected|
  {
    if |selected| + BossCount(boss) < MIN_SLOTS {
      var used := UsedIds(selected, boss);
      WhereIs(p.candidates, NotIn(used));
      NearestPick(p, p.target, Unused(p, used), Everyone(p), used);
      match PadPick(p, selected, boss)
      case None =>
      case Some(c) =>
        PadInOrder(p, selected + [c], boss);
        var r := Pad(p, selected, boss);
        assert r[..|selected|] == selected && r[|selected|] == c;
    }
  }

  // ---------------------------------------------------------------- the whole session

  /**
    What is served, slot by slot: first due concepts in the order they are due, each by its in-band exercise
    nearest to the level; then concepts none of which is known better than any other still on offer; this
    stops short of four only when the band is used up; then what pads the session; and the boss. An unseen
    exercise always goes before a recent one.
   */
  lemma SlotsServe(p: Pool, filled: seq<Candidate>, boss: Option<Candidate>, selected: seq<Candidate>)
    requires Selection(p, filled, boss, selected)
    ensures exists n: nat, js: seq<nat> ::
              && n <= |filled| && InDueOrder(p, p.due, 0, filled[..n], js)
              && WeakestFirst(p, n, filled)
    ensures |filled| == MAX_NON_BOSS_SLOTS || forall c :: c in p.candidates && WithinBand(p, c) ==> c.id in Ids(filled)
    ensures ServesBoss(p, filled, boss)
    ensures filled <= selected && PadsNearest(p, |filled|, selected, boss)
    ensures |selected| + BossCount(boss) >= MIN_SLOTS || forall c :: c in p.candidates ==> c.id in UsedIds(selected, boss)
  {
    var due := DueFill(p, p.due, []);
    var js := DueFillInOrder(p, p.due, []);
    DueFillIs(p, p.due, []);
    CurriculumInOrder(p, due, filled);
    CurriculumFillIs(p, due, filled);
    assert filled[..|due|] == due && InDueOrder(p, p.due, 0, filled[..|due|], js);
    BossServes(p, filled);
    BossIs(p, filled);
    PadInOrder(p, filled, boss);
    PadIs(p, filled, boss);
  }
}
