/**
  The first session fetch of a day (backend/app/sessions/service.py, get_today_slots and
  _build_and_persist_session) by any number of concurrent requests of one user: a cache that may be
  flushed at any moment, the daily_sessions row, and the double-checked build under an advisory lock.
  A request may die between any two steps.
 */
module SessionBuild {
  import opened Basics

  /** A stored exercise list, in the order of its slots. */
  type Slots = seq<nat>

  datatype Phase =
    | Started
    | Missed
    | Healing
    | Ready(deleted: bool)
    | Inside(deleted: bool)
    | Sampling(deleted: bool)
    | Found(slots: Slots)
    | Done(slots: Slots)
    | Lost

  /** `rowLock` is held by a transaction that has deleted the row and not committed yet. */
  datatype System = System(fetches: map<nat, Phase>, lock: Option<nat>, rowLock: Option<nat>,
                           row: Option<Slots>, cache: Option<Slots>, inserted: seq<Slots>)

  datatype Action =
    | Arrive(i: nat)
    | ReadCache(i: nat)
    | ReadRow(i: nat)
    | HealDelete(i: nat, blocked: bool)
    | Lock(i: nat)
    | Reread(i: nat)
    | Insert(i: nat, sampled: Slots)
    | WriteCache(i: nat)
    | Die(i: nat)
    | FlushCache

  function Boot(row: Option<Slots>): System {
    System(map[], None, None, row, None, [])
  }

  function Goto(s: System, i: nat, p: Phase): System {
    s.(fetches := s.fetches[i := p])
  }

  /** The end of a request's transaction, however it ends. */
  function Unlock(s: System, i: nat): System {
    s.(lock := if s.lock == Some(i) then None else s.lock,
       rowLock := if s.rowLock == Some(i) then None else s.rowLock)
  }

  /**
    The insert of a sampled session. Nothing is stored for an empty one; a row that is there already, and
    that this transaction did not delete, refuses the insert, and then it is that row that is returned.
   */
  function StepInsert(s: System, i: nat, deleted: bool, sampled: Slots): System {
    if sampled == [] then Goto(Unlock(s, i), i, Done([]))
    else if s.row.None? || deleted
    then Goto(Unlock(s, i).(row := Some(sampled), inserted := s.inserted + [sampled]), i, Found(sampled))
    else Goto(Unlock(s, i), i, Found(s.row.value))
  }

  function Step(s: System, i: nat, a: Action): System
    requires i in s.fetches
  {
    var p := s.fetches[i];
    match a
    case ReadCache(_) =>
      if !p.Started? then s
      else if s.cache.Some? then Goto(s, i, Done(s.cache.value))
      else Goto(s, i, Missed)
    case ReadRow(_) =>
      if !p.Missed? then s
      else (match s.row
        case None => Goto(s, i, Ready(false))
        case Some(slots) => Goto(s, i, if slots == [] then Healing else Found(slots)))
    case HealDelete(_, blocked) =>
      if !p.Healing? || s.rowLock.Some? then s
      else if blocked || s.row.None? then Goto(s, i, Ready(false))
      else Goto(s.(rowLock := Some(i)), i, Ready(true))
    case Lock(_) =>
      if p.Ready? && s.lock.None? then Goto(s.(lock := Some(i)), i, Inside(p.deleted)) else s
    case Reread(_) =>
      if !p.Inside? then s
      else if !p.deleted && s.row.Some? && s.row.value != [] then Goto(s, i, Found(s.row.value))
      else Goto(s, i, Sampling(p.deleted))
    case Insert(_, sampled) =>
      if p.Sampling? && (s.rowLock.None? || s.rowLock == Some(i)) then StepInsert(s, i, p.deleted, sampled) else s
    case WriteCache(_) =>
      if p.Found?
      then Goto(Unlock(s, i).(cache := if p.slots != [] then Some(p.slots) else s.cache), i, Done(p.slots))
      else s
    case Die(_) =>
      if p.Done? then s else Goto(Unlock(s, i), i, Lost)
    case _ => s
  }

  function Next(s: System, a: Action): System {
    match a
    case Arrive(i) => if i in s.fetches then s else Goto(s, i, Started)
    case FlushCache => s.(cache := None)
    case _ => if a.i in s.fetches then Step(s, a.i, a) else s
  }

  function Run(s: System, actions: seq<Action>): System
    decreases |actions|
  {
    if actions == [] then s else Run(Next(s, actions[0]), actions[1..])
  }

  // ---------------------------------------------------------------- agreement

  /** Every non-empty answer is the one persisted row, what the cache holds is that row, and one row at most was inserted. */
  predicate Agreed(s: System) {
    && (forall i :: i in s.fetches && s.fetches[i].Done? && s.fetches[i].slots != [] ==> s.row == Some(s.fetches[i].slots))
    && (s.cache.Some? ==> s.row == s.cache)
    && |s.inserted| <= 1
    && (s.inserted != [] ==> s.row == Some(s.inserted[0]))
  }

  predicate PhaseOk(lock: Option<nat>, row: Option<Slots>, i: nat, p: Phase) {
    match p
    case Healing => false
    case Ready(deleted) => !deleted
    case Inside(deleted) => !deleted && lock == Some(i)
    case Sampling(deleted) => !deleted && lock == Some(i) && row.None?
    case Found(slots) => slots != [] && row == Some(slots)
    case Done(slots) => slots == [] || row == Some(slots)
    case _ => true
  }

  predicate Inv(initial: Option<Slots>, s: System) {
    && (forall i :: i in s.fetches ==> PhaseOk(s.lock, s.row, i, s.fetches[i]))
    && s.rowLock.None?
    && s.row != Some([])
    && (s.cache.Some? ==> s.row == s.cache)
    && (if s.inserted == [] then s.row == initial else initial.None? && s.row == Some(s.inserted[0]) && |s.inserted| == 1)
  }

  /** A step of one request that leaves the row alone. */
  lemma MoveKeeps(initial: Option<Slots>, s: System, s': System, i: nat, p: Phase)
    requires Inv(initial, s) && i in s.fetches
    requires s'.fetches == s.fetches[i := p] && s'.row == s.row && s'.rowLock.None? && s'.inserted == s.inserted
    requires s'.cache.Some? ==> s'.cache == s.row
    requires s'.lock == s.lock || (s.lock == Some(i) && s'.lock.None?) || (s.lock.None? && s'.lock == Some(i))
    requires PhaseOk(s'.lock, s.row, i, p)
    ensures Inv(initial, s')
  {
    assert forall j :: j in s'.fetches && j != i ==> s'.fetches[j] == s.fetches[j];
    assert forall j :: j != i ==> (s'.lock == Some(j) <==> s.lock == Some(j));
  }

  lemma InsertKeeps(initial: Option<Slots>, s: System, i: nat, sampled: Slots)
    requires Inv(initial, s) && i in s.fetches && s.fetches[i].Sampling?
    ensures Inv(initial, StepInsert(s, i, s.fetches[i].deleted, sampled))
  {
    assert PhaseOk(s.lock, s.row, i, s.fetches[i]);
    var s' := StepInsert(s, i, s.fetches[i].deleted, sampled);
    if sampled == [] {
      MoveKeeps(initial, s, s', i, Done([]));
    } else {
      assert forall j :: j in s'.fetches && j != i ==> s'.fetches[j] == s.fetches[j];
      forall j | j in s'.fetches ensures PhaseOk(s'.lock, s'.row, j, s'.fetches[j]) {
        if j != i {
          assert PhaseOk(s.lock, s.row, j, s.fetches[j]);
        }
      }
    }
  }

  lemma StepKeeps(initial: Option<Slots>, s: System, i: nat, a: Action)
    requires Inv(initial, s) && i in s.fetches
    ensures Inv(initial, Step(s, i, a))
  {
    var p, s' := s.fetches[i], Step(s, i, a);
    assert PhaseOk(s.lock, s.row, i, p);
    if s' != s {
      if a.Insert? {
        InsertKeeps(initial, s, i, a.sampled);
      } else {
        MoveKeeps(initial, s, s', i, s'.fetches[i]);
      }
    }
  }

  lemma {:induction false} RunKeeps(initial: Option<Slots>, s: System, actions: seq<Action>)
    requires Inv(initial, s)
    ensures Inv(initial, Run(s, actions))
    decreases |actions|
  {
    if actions != [] {
      var a := actions[0];
      match a {
        case Arrive(i) =>
        case FlushCache =>
        case _ => if a.i in s.fetches { StepKeeps(initial, s, a.i, a); }
      }
      RunKeeps(initial, Next(s, a), actions[1..]);
    }
  }

  /** The schedule that breaks agreement: two requests find an old empty row, and the second deletes the first one's new row. */
  function BothFindIt(): seq<Action> {
    [Arrive(0), Arrive(1), ReadCache(0), ReadCache(1), ReadRow(0), ReadRow(1)]
  }

  function Heal(i: nat): seq<Action> {
    [HealDelete(i, false), Lock(i), Reread(i)]
  }

  function Answer(i: nat, sampled: Slots): seq<Action> {
    [Insert(i, sampled), WriteCache(i)]
  }

  function HealingRace(): seq<Action> {
    BothFindIt() + (Heal(0) + (Answer(0, [7]) + (Heal(1) + Answer(1, [8]))))
  }

  lemma {:induction false} RunAppend(s: System, a: seq<Action>, b: seq<Action>)
    ensures Run(s, a + b) == Run(Run(s, a), b)
    decreases |a|
  {
    if a == [] {
      assert a + b == b;
    } else {
      assert (a + b)[1..] == a[1..] + b;
      RunAppend(Next(s, a[0]), a[1..], b);
    }
  }

  lemma RunOne(s: System, a: Action)
    ensures Run(s, [a]) == Next(s, a)
  {
    assert [a][1..] == [];
  }

  lemma RunTwo(s: System, a: Action, b: Action)
    ensures Run(s, [a, b]) == Next(Next(s, a), b)
  {
    assert [a, b] == [a] + [b];
    RunAppend(s, [a], [b]);
    RunOne(s, a);
    RunOne(Next(s, a), b);
  }

  lemma BothFind()
    ensures Run(Boot(Some([])), BothFindIt())
         == System(map[0 := Healing, 1 := Healing], None, None, Some([]), None, [])
  {
    var s0 := Boot(Some([]));
    var s2 := System(map[0 := Started, 1 := Started], None, None, Some([]), None, []);
    var s4 := System(map[0 := Missed, 1 := Missed], None, None, Some([]), None, []);
    RunTwo(s0, Arrive(0), Arrive(1));
    RunTwo(s2, ReadCache(0), ReadCache(1));
    RunTwo(s4, ReadRow(0), ReadRow(1));
    assert BothFindIt() == [Arrive(0), Arrive(1)] + ([ReadCache(0), ReadCache(1)] + [ReadRow(0), ReadRow(1)]);
    RunAppend(s0, [Arrive(0), Arrive(1)], [ReadCache(0), ReadCache(1)] + [ReadRow(0), ReadRow(1)]);
    RunAppend(s2, [ReadCache(0), ReadCache(1)], [ReadRow(0), ReadRow(1)]);
  }

  /** A request that is healing deletes whatever row is there now, and goes on to sample. */
  lemma HealGoesOn(s: System, i: nat)
    requires i in s.fetches && s.fetches[i].Healing? && s.lock.None? && s.rowLock.None? && s.row.Some?
    ensures Run(s, Heal(i)) == Goto(s.(lock := Some(i), rowLock := Some(i)), i, Sampling(true))
  {
    assert Heal(i) == [HealDelete(i, false), Lock(i)] + [Reread(i)];
    RunAppend(s, [HealDelete(i, false), Lock(i)], [Reread(i)]);
    RunTwo(s, HealDelete(i, false), Lock(i));
    RunOne(Goto(s.(lock := Some(i), rowLock := Some(i)), i, Inside(true)), Reread(i));
  }

  lemma AnswerFollows(s: System, i: nat, sampled: Slots)
    requires i in s.fetches && s.fetches[i] == Sampling(true) && s.lock == Some(i) && s.rowLock == Some(i) && sampled != []
    ensures Run(s, Answer(i, sampled))
         == System(s.fetches[i := Done(sampled)], None, None, Some(sampled), Some(sampled), s.inserted + [sampled])
  {
    RunTwo(s, Insert(i, sampled), WriteCache(i));
  }

  lemma HealingBreaksAgreement()
    ensures !Agreed(Run(Boot(Some([])), HealingRace()))
  {
    var s0 := Boot(Some([]));
    BothFind();
    var s1 := Run(s0, BothFindIt());
    HealGoesOn(s1, 0);
    var s2 := Run(s1, Heal(0));
    AnswerFollows(s2, 0, [7]);
    var s3 := Run(s2, Answer(0, [7]));
    HealGoesOn(s3, 1);
    var s4 := Run(s3, Heal(1));
    AnswerFollows(s4, 1, [8]);
    RunAppend(s0, BothFindIt(), Heal(0) + (Answer(0, [7]) + (Heal(1) + Answer(1, [8]))));
    RunAppend(s1, Heal(0), Answer(0, [7]) + (Heal(1) + Answer(1, [8])));
    RunAppend(s2, Answer(0, [7]), Heal(1) + Answer(1, [8]));
    RunAppend(s3, Heal(1), Answer(1, [8]));
    var s5 := Run(s4, Answer(1, [8]));
    assert s5.row == Some([8]) && s5.fetches[0] == Done([7]);
  }

  /**
    First-of-day agreement, exactly: over every schedule of fetches, deaths and cache flushes all non-empty
    answers of the day agree with the one persisted row if and only if the day does not begin with an
    empty row (one persisted before empty builds stopped being stored).
   */
  lemma AgreementExactlyWhen(row: Option<Slots>)
    ensures (forall actions :: Agreed(Run(Boot(row), actions))) <==> row != Some([])
  {
    if row != Some([]) {
      forall actions ensures Agreed(Run(Boot(row), actions)) {
        RunKeeps(row, Boot(row), actions);
      }
    } else {
      HealingBreaksAgreement();
    }
  }

  // ---------------------------------------------------------------- a fetch that nobody disturbs

  /** Every step a fetch may take, in order; those that do not apply change nothing. */
  function Fetch(i: nat, sampled: Slots): seq<Action> {
    [Arrive(i), ReadCache(i), ReadRow(i), HealDelete(i, false)] + Rest(i, sampled)
  }

  /** The row there is to answer from. */
  predicate Usable(row: Option<Slots>) {
    row.Some? && row.value != []
  }

  /** The cache before the row, the row before a build. */
  function AnswerFor(s: System, sampled: Slots): Slots {
    if s.cache.Some? then s.cache.value else if Usable(s.row) then s.row.value else sampled
  }

  lemma RunFour(s: System, a: Action, b: Action, c: Action, d: Action)
    ensures Run(s, [a, b, c, d]) == Next(Next(Next(Next(s, a), b), c), d)
  {
    RunAppend(s, [a, b], [c, d]);
    assert [a, b, c, d] == [a, b] + [c, d];
    RunTwo(s, a, b);
    RunTwo(Next(Next(s, a), b), c, d);
  }

  /** The first half: answered from the cache, holding the row, or about to build. */
  function Midway(s: System): Phase {
    if s.cache.Some? then Done(s.cache.value)
    else if Usable(s.row) then Found(s.row.value)
    else Ready(s.row.Some?)
  }

  lemma FetchBegins(s: System, i: nat)
    requires i !in s.fetches && s.rowLock.None?
    ensures var t := Run(s, [Arrive(i), ReadCache(i), ReadRow(i), HealDelete(i, false)]);
            t == s.(fetches := s.fetches[i := Midway(s)], rowLock := t.rowLock)
            && t.rowLock == if s.cache.None? && s.row == Some([]) then Some(i) else None
  {
    RunFour(s, Arrive(i), ReadCache(i), ReadRow(i), HealDelete(i, false));
  }

  function Rest(i: nat, sampled: Slots): seq<Action> {
    [Lock(i), Reread(i), Insert(i, sampled), WriteCache(i)]
  }

  lemma DoneStays(s: System, i: nat, sampled: Slots)
    requires i in s.fetches && s.fetches[i].Done?
    ensures Run(s, Rest(i, sampled)) == s
  {
    RunFour(s, Lock(i), Reread(i), Insert(i, sampled), WriteCache(i));
  }

  lemma FoundAnswers(s: System, i: nat, sampled: Slots)
    requires i in s.fetches && s.fetches[i].Found? && s.fetches[i].slots != [] && s.lock.None? && s.rowLock.None?
    ensures Run(s, Rest(i, sampled)) == Goto(s.(cache := Some(s.fetches[i].slots)), i, Done(s.fetches[i].slots))
  {
    RunFour(s, Lock(i), Reread(i), Insert(i, sampled), WriteCache(i));
  }

  lemma ReadyBuilds(s: System, i: nat, sampled: Slots)
    requires i in s.fetches && s.fetches[i].Ready? && s.lock.None?
    requires if s.fetches[i].deleted then s.rowLock == Some(i) else s.rowLock.None? && s.row.None?
    ensures Run(s, Rest(i, sampled)) ==
            if sampled == [] then Goto(s.(rowLock := None), i, Done([]))
            else Goto(s.(rowLock := None, row := Some(sampled), cache := Some(sampled), inserted := s.inserted + [sampled]),
                      i, Done(sampled))
  {
    RunFour(s, Lock(i), Reread(i), Insert(i, sampled), WriteCache(i));
  }

  /**
    Wherever things stand, a new fetch that nobody disturbs is answered: from the cache, else from a
    non-empty row, else from what it samples. What it samples is persisted, in place of an empty row too,
    exactly when it had to build and found something, and a non-empty answer is cached.
   */
  lemma UndisturbedFetch(s: System, i: nat, sampled: Slots)
    requires i !in s.fetches && s.lock.None? && s.rowLock.None?
    ensures var t, answer := Run(s, Fetch(i, sampled)), AnswerFor(s, sampled);
            var builds := s.cache.None? && !Usable(s.row) && sampled != [];
            && t.fetches == s.fetches[i := Done(answer)] && t.lock.None? && t.rowLock.None?
            && t.row == (if builds then Some(sampled) else s.row)
            && t.inserted == (if builds then s.inserted + [sampled] else s.inserted)
            && t.cache == (if s.cache.Some? then s.cache else if answer != [] then Some(answer) else None)
  {
    var first := [Arrive(i), ReadCache(i), ReadRow(i), HealDelete(i, false)];
    RunAppend(s, first, Rest(i, sampled));
    FetchBegins(s, i);
    var t := Run(s, first);
    if t.fetches[i].Done? {
      DoneStays(t, i, sampled);
    } else if t.fetches[i].Found? {
      FoundAnswers(t, i, sampled);
    } else {
      ReadyBuilds(t, i, sampled);
    }
  }

  // ---------------------------------------------------------------- days with nothing to sample

  /** Every build of the schedule samples nothing. */
  predicate EmptyBuilds(actions: seq<Action>) {
    forall k :: 0 <= k < |actions| && actions[k].Insert? ==> actions[k].sampled == []
  }

  /** What an answer or a cache entry shows is the row the day began with. */
  predicate Shows(initial: Option<Slots>, p: Phase) {
    match p
    case Found(slots) => slots != [] && initial == Some(slots)
    case Done(slots) => slots == [] || initial == Some(slots)
    case _ => true
  }

  predicate Untouched(initial: Option<Slots>, s: System) {
    && s.row == initial && s.inserted == []
    && (s.cache.Some? ==> s.cache == initial && s.cache != Some([]))
    && forall i :: i in s.fetches ==> Shows(initial, s.fetches[i])
  }

  lemma StepUntouched(initial: Option<Slots>, s: System, i: nat, a: Action)
    requires Untouched(initial, s) && i in s.fetches && (a.Insert? ==> a.sampled == [])
    ensures Untouched(initial, Step(s, i, a))
  {
    assert Shows(initial, s.fetches[i]);
    var s' := Step(s, i, a);
    assert forall j :: j in s'.fetches && j != i ==> s'.fetches[j] == s.fetches[j];
  }

  lemma {:induction false} RunUntouched(initial: Option<Slots>, s: System, actions: seq<Action>)
    requires Untouched(initial, s) && EmptyBuilds(actions)
    ensures Untouched(initial, Run(s, actions))
    decreases |actions|
  {
    if actions != [] {
      var a := actions[0];
      match a {
        case Arrive(i) =>
        case FlushCache =>
        case _ => if a.i in s.fetches { StepUntouched(initial, s, a.i, a); }
      }
      RunUntouched(initial, Next(s, a), actions[1..]);
    }
  }

  /**
    Over every schedule of a day in which nothing can be sampled, whatever the day began with: no row is
    ever inserted, the cache never holds more than a non-empty row that was there, and on a day that began
    without a row nothing is persisted or cached and every answer is empty.
   */
  lemma EmptyBuildLeavesNothing(initial: Option<Slots>, actions: seq<Action>)
    requires EmptyBuilds(actions)
    ensures var s := Run(Boot(initial), actions);
            && s.row == initial && s.inserted == []
            && (s.cache.Some? ==> s.cache == initial && s.cache != Some([]))
            && (forall i :: i in s.fetches && s.fetches[i].Done? && s.fetches[i].slots != [] ==> initial == Some(s.fetches[i].slots))
            && (initial.None? ==>
                  && s.row.None? && s.cache.None?
                  && forall i :: i in s.fetches && s.fetches[i].Done? ==> s.fetches[i].slots == [])
  {
    RunUntouched(initial, Boot(initial), actions);
    assert forall i :: i in Run(Boot(initial), actions).fetches ==> Shows(initial, Run(Boot(initial), actions).fetches[i]);
  }
}
