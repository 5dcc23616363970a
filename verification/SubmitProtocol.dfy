/**
  Concurrent POST /attempts of one user on one local day (backend/app/attempts/service.py,
  backend/app/core/idempotency.py): an idempotency cache and a reservation that may vanish at any
  moment, a per-(user, day) advisory lock, and transactions that write what they computed from what
  they read. A call may die between any two steps.
 */
module SubmitProtocol {
  import opened Basics
  import Streak
  import opened Attempts
  import Recount

  /** A call: its Idempotency-Key, the hash of its body, and what it asks for. */
  datatype Call = Call(key: nat, hash: nat, request: Request)

  datatype Answer =
    | Fresh(body: Body)
    | Replayed(body: Body)
    | Conflict
    | Refused(error: Error)
    | Lost

  datatype Phase =
    | Arrived
    | Missed
    | Waiting
    | Building(reserved: bool)
    | Queued(reserved: bool, copy: Option<Option<int>>)
    | Inside(reserved: bool, copy: Option<Option<int>>)
    | Checked(reserved: bool, copy: Option<Option<int>>, seen: Db)
    | Committed(reserved: bool, body: Body)
    | Leaving(reserved: bool, answer: Answer)
    | Done(answer: Answer)

  datatype Actor = Actor(call: Call, phase: Phase)

  /** A cached response. */
  datatype Record = Record(hash: nat, body: Body)

  /** A committed transaction, in commit order. */
  datatype Entry = Entry(caller: nat, call: Call, body: Body)

  datatype System = System(
    actors: map<nat, Actor>, lock: Option<nat>, db: Db,
    cache: map<nat, Record>, reservations: set<nat>, log: seq<Entry>)

  datatype Action =
    | Arrive(i: nat, call: Call)
    | LookUp(i: nat)
    | Reserve(i: nat)
    | Poll(i: nat)
    | GiveUp(i: nat)
    | Prepare(i: nat, loadsSession: bool)
    | Lock(i: nat)
    | Check(i: nat)
    | Commit(i: nat)
    | Store(i: nat)
    | Release(i: nat)
    | Die(i: nat)
    | CacheExpires(key: nat)
    | ReservationExpires(key: nat)

  function Boot(db: Db): System {
    System(map[], None, db, map[], {}, [])
  }

  // ---------------------------------------------------------------- one step

  predicate In(s: System, i: nat, p: Phase -> bool) {
    i in s.actors && p(s.actors[i].phase)
  }

  function Goto(s: System, i: nat, phase: Phase): System
    requires i in s.actors
  {
    s.(actors := s.actors[i := s.actors[i].(phase := phase)])
  }

  function FromCache(r: Record, call: Call): Answer {
    if r.hash == call.hash then Replayed(r.body) else Conflict
  }

  /** The completed_at that the transaction goes by: the row it had loaded, or the one it reads now. */
  function SessionSeen(w: World, copy: Option<Option<int>>, seen: Db): Option<int> {
    if copy.Some? then copy.value else CompletedAt(seen, w.today)
  }

  function StepCommit(w: World, s: System, i: nat): System
    requires i in s.actors && s.actors[i].phase.Checked?
  {
    var call, p := s.actors[i].call, s.actors[i].phase;
    if Precheck(w, call.request).Some? then s
    else match Effect(w, p.seen, SessionSeen(w, p.copy, p.seen), call.request)
      case Ok(after, body) =>
        Goto(s.(db := after, lock := None, log := s.log + [Entry(i, call, body)]), i, Committed(p.reserved, body))
      case Err(error) => Goto(s.(lock := None), i, Leaving(p.reserved, Refused(error)))
  }

  /** A step of call i; one that is not possible changes nothing. */
  function Step(w: World, s: System, i: nat, a: Action): System
    requires i in s.actors
  {
    var call, p := s.actors[i].call, s.actors[i].phase;
    match a
    case LookUp(_) =>
      if !p.Arrived? then s
      else if call.key in s.cache then Goto(s, i, Done(FromCache(s.cache[call.key], call)))
      else Goto(s, i, Missed)
    case Reserve(_) =>
      if !p.Missed? then s
      else if call.key in s.reservations then Goto(s, i, Waiting)
      else Goto(s.(reservations := s.reservations + {call.key}), i, Building(true))
    case Poll(_) =>
      if p.Waiting? && call.key in s.cache then Goto(s, i, Done(FromCache(s.cache[call.key], call))) else s
    case GiveUp(_) =>
      if p.Waiting? then Goto(s, i, Building(false)) else s
    case Prepare(_, loads) =>
      if !p.Building? then s
      else (match Precheck(w, call.request)
        case Some(error) => Goto(s, i, Leaving(p.reserved, Refused(error)))
        case None => Goto(s, i, Queued(p.reserved, if loads then Some(CompletedAt(s.db, w.today)) else None)))
    case Lock(_) =>
      if p.Queued? && s.lock.None? then Goto(s.(lock := Some(i)), i, Inside(p.reserved, p.copy)) else s
    case Check(_) =>
      if !p.Inside? then s
      else if Attempted(s.db.rows, call.request.slot.id, w.today)
      then Goto(s.(lock := None), i, Leaving(p.reserved, Refused(AlreadyAttempted)))
      else Goto(s, i, Checked(p.reserved, p.copy, s.db))
    case Commit(_) =>
      if p.Checked? then StepCommit(w, s, i) else s
    case Store(_) =>
      if p.Committed?
      then Goto(s.(cache := s.cache[call.key := Record(call.hash, p.body)]), i, Leaving(p.reserved, Fresh(p.body)))
      else s
    case Release(_) =>
      if p.Leaving?
      then Goto(s.(reservations := if p.reserved then s.reservations - {call.key} else s.reservations), i, Done(p.answer))
      else s
    case Die(_) =>
      if p.Done? then s
      else Goto(s.(lock := if s.lock == Some(i) then None else s.lock), i, Done(Lost))
    case _ => s
  }

  function Next(w: World, s: System, a: Action): System {
    match a
    case Arrive(i, call) => if i in s.actors then s else s.(actors := s.actors[i := Actor(call, Arrived)])
    case CacheExpires(key) => s.(cache := s.cache - {key})
    case ReservationExpires(key) => s.(reservations := s.reservations - {key})
    case _ => if a.i in s.actors then Step(w, s, a.i, a) else s
  }

  function Run(w: World, s: System, actions: seq<Action>): System
    decreases |actions|
  {
    if actions == [] then s else Run(w, Next(w, s, actions[0]), actions[1..])
  }

  // ---------------------------------------------------------------- the sequential order

  function Sequential(w: World, db: Db, log: seq<Entry>): Db {
    if log == [] then db
    else
      var before := Sequential(w, db, log[..|log| - 1]);
      match SubmitOne(w, before, log[|log| - 1].call.request)
      case Ok(after, _) => after
      case Err(_) => before
  }

  /** Run one after the other in commit order, every committed call is accepted with the body it got. */
  predicate Lawful(w: World, db: Db, log: seq<Entry>) {
    log == [] ||
    var rest, e := log[..|log| - 1], log[|log| - 1];
    && Lawful(w, db, rest)
    && match SubmitOne(w, Sequential(w, db, rest), e.call.request)
       case Ok(_, body) => body == e.body
       case Err(_) => false
  }

  // ---------------------------------------------------------------- what holds of the database alone

  predicate OncePerExercise(rows: seq<Row>, today: int) {
    forall i, j :: 0 <= i < j < |rows| && rows[i].date == today && rows[j].date == today ==>
      rows[i].exercise.id != rows[j].exercise.id
  }

  predicate EverySlotAttempted(w: World, rows: seq<Row>) {
    w.slots != [] && forall i :: 0 <= i < |w.slots| ==> Attempted(rows, w.slots[i].id, w.today)
  }

  /** completed_at says whether every slot is attempted; last_active whether today has its transition. */
  ghost predicate Sound(w: World, db: Db) {
    && OncePerExercise(db.rows, w.today)
    && (w.today in db.completed <==> EverySlotAttempted(w, db.rows))
    && (db.account.lastActive == Some(w.today) <==> Streak.HasTransition(db.account.ledger, w.today))
  }

  lemma {:induction false} RemainingZero(rows: seq<Row>, slots: seq<Slot>, date: int)
    ensures Remaining(rows, slots, date) == 0 <==>
            forall i :: 0 <= i < |slots| ==> Attempted(rows, slots[i].id, date)
  {
    if slots != [] {
      RemainingZero(rows, slots[..|slots| - 1], date);
    }
  }

  lemma AttemptedMore(rows: seq<Row>, more: seq<Row>)
    requires rows <= more
    ensures forall id, date :: Attempted(rows, id, date) ==> Attempted(more, id, date)
  {
    forall id, date | Attempted(rows, id, date) ensures Attempted(more, id, date) {
      var i :| 0 <= i < |rows| && rows[i].exercise.id == id && rows[i].date == date;
      assert more[i] == rows[i];
    }
  }

  /** A submission in step with the ledger is never refused by the index, and stays in step. */
  lemma TransitionInStep(w: World, a: Streak.Account, now: int)
    requires a.lastActive == Some(w.today) <==> Streak.HasTransition(a.ledger, w.today)
    ensures var r := Streak.Submit(w.settings, a, w.today, now);
            && r.Some? && r.value.lastActive == Some(w.today) && Streak.HasTransition(r.value.ledger, w.today)
  {
    if a.lastActive != Some(w.today) {
      match Streak.Bridge(w.settings, a, w.today, now)
      case None => AdvanceInStep(a, Streak.Reset, 1, w.today, now);
      case Some(b) => ExtendInStep(w.settings, b, w.today, now);
    }
  }

  lemma AdvanceInStep(a: Streak.Account, kind: Streak.Kind, toValue: nat, today: int, now: int)
    requires kind.Extended? || kind.Reset?
    ensures var b := Streak.Advance(a, kind, toValue, today, now);
            b.lastActive == Some(today) && Streak.HasTransition(b.ledger, today)
  {
    Streak.QueriesAppend(a.ledger, Streak.StreakEvent(a.nextId, kind, a.current, toValue, today, Streak.Blank, now));
  }

  lemma ExtendInStep(c: Streak.Settings, a: Streak.Account, today: int, now: int)
    ensures var b := Streak.Extend(c, a, today, now);
            b.lastActive == Some(today) && Streak.HasTransition(b.ledger, today)
  {
    AdvanceInStep(a, Streak.Extended, a.current + 1, today, now);
    var b := Streak.Advance(a, Streak.Extended, a.current + 1, today, now);
    Streak.QueriesAppend(b.ledger, Streak.StreakEvent(b.nextId, Streak.Adjusted, b.current, b.current, today, Streak.Earned, now));
  }

  /** The fields a transaction leaves behind. */
  lemma EffectShape(w: World, db: Db, copy: Option<int>, r: Request)
    requires Precheck(w, r).None? && Streak.Submit(w.settings, db.account, w.today, r.now).Some?
    ensures var done := Effect(w, db, copy, r);
            var rows := db.rows + [NewRow(w.catalogue[r.slot], w.today, r.verdict.value)];
            && done.Ok? && done.db.rows == rows && done.db.totalAttempts == db.totalAttempts + 1
            && done.db.account == Streak.Submit(w.settings, db.account, w.today, r.now).value
            && done.db.completed ==
               if Remaining(rows, w.slots, w.today) == 0 && copy.None? then db.completed[w.today := r.now] else db.completed
  {
    var e, v := w.catalogue[r.slot], r.verdict.value;
    var learned := Learn(db.(rows := db.rows + [NewRow(e, w.today, v)]), e, v, r.now);
    assert learned.account == db.account && learned.completed == db.completed && learned.totalAttempts == db.totalAttempts;
  }

  lemma NotYetComplete(w: World, db: Db, r: Request)
    requires Sound(w, db) && Precheck(w, r).None? && !Attempted(db.rows, r.slot.id, w.today)
    ensures w.today !in db.completed
  {
    var k :| 0 <= k < |w.slots| && w.slots[k] == r.slot;
  }

  lemma RowsGrow(w: World, rows: seq<Row>, row: Row)
    requires OncePerExercise(rows, w.today) && !Attempted(rows, row.exercise.id, w.today)
    ensures OncePerExercise(rows + [row], w.today)
  {
  }

  /** The transaction of a call whose exercise is not attempted yet: always accepted, one more row. */
  lemma EffectSound(w: World, db: Db, r: Request)
    requires Consistent(w) && Sound(w, db) && Precheck(w, r).None? && !Attempted(db.rows, r.slot.id, w.today)
    ensures w.today !in db.completed
    ensures var done := Effect(w, db, None, r);
            && done.Ok? && Sound(w, done.db)
            && |done.db.rows| == |db.rows| + 1 && db.rows <= done.db.rows
            && done.db.totalAttempts == db.totalAttempts + 1
            && Attempted(done.db.rows, r.slot.id, w.today)
  {
    NotYetComplete(w, db, r);
    TransitionInStep(w, db.account, r.now);
    EffectShape(w, db, None, r);
    var rows := Effect(w, db, None, r).db.rows;
    RowsGrow(w, db.rows, rows[|db.rows|]);
    RemainingZero(rows, w.slots, w.today);
    assert rows[|db.rows|].exercise.id == r.slot.id;
  }

  // ---------------------------------------------------------------- the invariant

  /** Some committed call with this key and body hash got this response. */
  predicate Vouched(log: seq<Entry>, key: nat, hash: nat, body: Body) {
    exists k :: 0 <= k < |log| && log[k].call.key == key && log[k].call.hash == hash && log[k].body == body
  }

  /** Some committed call used this key for another body. */
  predicate Disputed(log: seq<Entry>, key: nat, hash: nat) {
    exists k :: 0 <= k < |log| && log[k].call.key == key && log[k].call.hash != hash
  }

  predicate AnswerOk(w: World, db: Db, log: seq<Entry>, i: nat, call: Call, answer: Answer) {
    match answer
    case Fresh(body) => Entry(i, call, body) in log
    case Replayed(body) => Vouched(log, call.key, call.hash, body)
    case Conflict => Disputed(log, call.key, call.hash)
    case Refused(error) =>
      if error == AlreadyAttempted
      then Precheck(w, call.request).None? && Attempted(db.rows, call.request.slot.id, w.today)
      else Precheck(w, call.request) == Some(error)
    case Lost => true
  }

  /** A loaded session row may be out of date, but it never invents a completion. */
  predicate CopyOk(w: World, db: Db, copy: Option<Option<int>>) {
    copy.Some? && copy.value.Some? ==> w.today in db.completed
  }

  predicate PhaseOk(w: World, db: Db, lock: Option<nat>, log: seq<Entry>, i: nat, call: Call, p: Phase) {
    && (lock == Some(i) <==> p.Inside? || p.Checked?)
    && match p
       case Queued(_, copy) => Precheck(w, call.request).None? && CopyOk(w, db, copy)
       case Inside(_, copy) => Precheck(w, call.request).None? && CopyOk(w, db, copy)
       case Checked(_, copy, seen) =>
         && Precheck(w, call.request).None? && CopyOk(w, db, copy)
         && seen == db && !Attempted(db.rows, call.request.slot.id, w.today)
       case Committed(_, body) => Entry(i, call, body) in log
       case Leaving(_, answer) => AnswerOk(w, db, log, i, call, answer)
       case Done(answer) => AnswerOk(w, db, log, i, call, answer)
       case _ => true
  }

  predicate Past(p: Phase) {
    p.Committed? || p.Leaving? || p.Done?
  }

  predicate LogOk(actors: map<nat, Actor>, log: seq<Entry>) {
    && (forall k :: 0 <= k < |log| ==>
          log[k].caller in actors && actors[log[k].caller].call == log[k].call && Past(actors[log[k].caller].phase))
    && (forall k, m :: 0 <= k < m < |log| ==> log[k].caller != log[m].caller)
  }

  predicate CacheOk(cache: map<nat, Record>, log: seq<Entry>) {
    forall key :: key in cache ==> Vouched(log, key, cache[key].hash, cache[key].body)
  }

  predicate ActorsOk(w: World, s: System) {
    && (forall i :: i in s.actors ==> PhaseOk(w, s.db, s.lock, s.log, i, s.actors[i].call, s.actors[i].phase))
    && (s.lock.Some? ==> s.lock.value in s.actors)
  }

  ghost predicate Inv(w: World, db: Db, s: System) {
    && Lawful(w, db, s.log) && s.db == Sequential(w, db, s.log) && Sound(w, s.db)
    && ActorsOk(w, s) && LogOk(s.actors, s.log) && CacheOk(s.cache, s.log)
  }

  /** A step of call i that writes nothing to the database. */
  lemma QuietKeeps(w: World, db: Db, s: System, s': System, i: nat, phase: Phase)
    requires Inv(w, db, s) && i in s.actors
    requires s'.actors == s.actors[i := s.actors[i].(phase := phase)] && s'.db == s.db && s'.log == s.log
    requires s'.lock == s.lock || (s.lock == Some(i) && s'.lock.None?) || (s.lock.None? && s'.lock == Some(i))
    requires PhaseOk(w, s.db, s'.lock, s.log, i, s.actors[i].call, phase)
    requires Past(s.actors[i].phase) ==> Past(phase)
    requires CacheOk(s'.cache, s.log)
    ensures Inv(w, db, s')
  {
    QuietActors(w, s.actors, s.db, s.lock, s'.lock, s.log, i, phase);
    QuietLog(s.actors, s.log, i, phase);
  }

  lemma QuietActors(w: World, actors: map<nat, Actor>, db: Db, lock: Option<nat>, lock': Option<nat>, log: seq<Entry>,
                    i: nat, phase: Phase)
    requires forall j :: j in actors ==> PhaseOk(w, db, lock, log, j, actors[j].call, actors[j].phase)
    requires lock.Some? ==> lock.value in actors
    requires i in actors && PhaseOk(w, db, lock', log, i, actors[i].call, phase)
    requires lock' == lock || (lock == Some(i) && lock'.None?) || (lock.None? && lock' == Some(i))
    ensures var actors' := actors[i := actors[i].(phase := phase)];
            && (forall j :: j in actors' ==> PhaseOk(w, db, lock', log, j, actors'[j].call, actors'[j].phase))
            && (lock'.Some? ==> lock'.value in actors')
  {
    forall j | j in actors && j != i ensures PhaseOk(w, db, lock', log, j, actors[j].call, actors[j].phase) {
      assert lock' == Some(j) <==> lock == Some(j);
    }
  }

  lemma QuietLog(actors: map<nat, Actor>, log: seq<Entry>, i: nat, phase: Phase)
    requires LogOk(actors, log) && i in actors && (Past(actors[i].phase) ==> Past(phase))
    ensures LogOk(actors[i := actors[i].(phase := phase)], log)
  {
  }

  /** What every other call knew stays true when the database and the log grow. */
  lemma PhaseMonotone(w: World, db: Db, db': Db, lock: Option<nat>, log: seq<Entry>, e: Entry, j: nat, call: Call, p: Phase)
    requires PhaseOk(w, db, lock, log, j, call, p) && lock == Some(e.caller) && j != e.caller
    requires db.rows <= db'.rows && w.today !in db.completed
    ensures PhaseOk(w, db', None, log + [e], j, call, p)
  {
    AttemptedMore(db.rows, db'.rows);
    VouchedMore(log, e);
  }

  lemma VouchedMore(log: seq<Entry>, e: Entry)
    ensures forall key, hash, body :: Vouched(log, key, hash, body) ==> Vouched(log + [e], key, hash, body)
    ensures forall x :: x in log ==> x in log + [e]
    ensures forall key, hash :: Disputed(log, key, hash) ==> Disputed(log + [e], key, hash)
  {
    assert forall k :: 0 <= k < |log| ==> (log + [e])[k] == log[k];
    forall key, hash, body | Vouched(log, key, hash, body) ensures Vouched(log + [e], key, hash, body) {
      var k :| 0 <= k < |log| && log[k].call.key == key && log[k].call.hash == hash && log[k].body == body;
      assert (log + [e])[k] == log[k];
    }
    forall key, hash | Disputed(log, key, hash) ensures Disputed(log + [e], key, hash) {
      var k :| 0 <= k < |log| && log[k].call.key == key && log[k].call.hash != hash;
      assert (log + [e])[k] == log[k];
    }
  }

  lemma SequentialPush(w: World, db: Db, log: seq<Entry>, e: Entry)
    requires Lawful(w, db, log)
    requires var r := SubmitOne(w, Sequential(w, db, log), e.call.request); r.Ok? && r.body == e.body
    ensures Lawful(w, db, log + [e])
    ensures Sequential(w, db, log + [e]) == SubmitOne(w, Sequential(w, db, log), e.call.request).db
  {
    assert (log + [e])[..|log|] == log;
  }

  /** The commit: although it was computed from older reads, it is the next step of the sequential run. */
  lemma CommitKeeps(w: World, db: Db, s: System, i: nat)
    requires Consistent(w) && Inv(w, db, s) && i in s.actors && s.actors[i].phase.Checked?
    ensures Inv(w, db, StepCommit(w, s, i))
  {
    var call, p := s.actors[i].call, s.actors[i].phase;
    var r := call.request;
    EffectSound(w, s.db, r);
    assert SessionSeen(w, p.copy, p.seen) == None == CompletedAt(s.db, w.today);
    var done := Effect(w, s.db, None, r);
    var e := Entry(i, call, done.body);
    assert SubmitOne(w, s.db, r) == done;
    SequentialPush(w, db, s.log, e);
    VouchedMore(s.log, e);
    var s' := StepCommit(w, s, i);
    forall j | j in s'.actors
      ensures PhaseOk(w, s'.db, s'.lock, s'.log, j, s'.actors[j].call, s'.actors[j].phase)
    {
      if j != i {
        PhaseMonotone(w, s.db, s'.db, s.lock, s.log, e, j, s.actors[j].call, s.actors[j].phase);
      }
    }
    CommitLog(s.actors, s'.actors, s.log, e, p.reserved);
  }

  lemma CommitLog(actors: map<nat, Actor>, actors': map<nat, Actor>, log: seq<Entry>, e: Entry, reserved: bool)
    requires LogOk(actors, log) && e.caller in actors && !Past(actors[e.caller].phase)
    requires actors' == actors[e.caller := Actor(e.call, Committed(reserved, e.body))]
    ensures LogOk(actors', log + [e])
  {
  }

  lemma CacheAnswer(w: World, db: Db, s: System, i: nat, call: Call)
    requires CacheOk(s.cache, s.log) && call.key in s.cache
    ensures AnswerOk(w, s.db, s.log, i, call, FromCache(s.cache[call.key], call))
  {
    var r := s.cache[call.key];
    var k :| 0 <= k < |s.log| && s.log[k].call.key == call.key && s.log[k].call.hash == r.hash && s.log[k].body == r.body;
  }

  lemma AskCacheKeeps(w: World, db: Db, s: System, i: nat, a: Action)
    requires Inv(w, db, s) && i in s.actors && (a.LookUp? || a.Poll?)
    ensures Inv(w, db, Step(w, s, i, a))
  {
    var s', call := Step(w, s, i, a), s.actors[i].call;
    if s' != s {
      if call.key in s.cache {
        CacheAnswer(w, db, s, i, call);
        QuietKeeps(w, db, s, s', i, Done(FromCache(s.cache[call.key], call)));
      } else {
        QuietKeeps(w, db, s, s', i, Missed);
      }
    }
  }

  lemma ReserveKeeps(w: World, db: Db, s: System, i: nat, a: Action)
    requires Inv(w, db, s) && i in s.actors && (a.Reserve? || a.GiveUp?)
    ensures Inv(w, db, Step(w, s, i, a))
  {
    var s' := Step(w, s, i, a);
    if s' == s {
    } else if a.GiveUp? {
      QuietKeeps(w, db, s, s', i, Building(false));
    } else if s.actors[i].call.key in s.reservations {
      QuietKeeps(w, db, s, s', i, Waiting);
    } else {
      QuietKeeps(w, db, s, s', i, Building(true));
    }
  }

  lemma PrepareKeeps(w: World, db: Db, s: System, i: nat, a: Action)
    requires Inv(w, db, s) && i in s.actors && (a.Prepare? || a.Lock?)
    ensures Inv(w, db, Step(w, s, i, a))
  {
    var s' := Step(w, s, i, a);
    if s' != s {
      QuietKeeps(w, db, s, s', i, s'.actors[i].phase);
    }
  }

  lemma CheckKeeps(w: World, db: Db, s: System, i: nat)
    requires Inv(w, db, s) && i in s.actors
    ensures Inv(w, db, Step(w, s, i, Check(i)))
  {
    var s' := Step(w, s, i, Check(i));
    if s' != s {
      QuietKeeps(w, db, s, s', i, s'.actors[i].phase);
    }
  }

  lemma StoreKeeps(w: World, db: Db, s: System, i: nat)
    requires Inv(w, db, s) && i in s.actors && s.actors[i].phase.Committed?
    ensures Inv(w, db, Step(w, s, i, Store(i)))
  {
    var s' := Step(w, s, i, Store(i));
    StoreVouched(s, i, s.actors[i].call, s.actors[i].phase);
    QuietKeeps(w, db, s, s', i, s'.actors[i].phase);
  }

  lemma LeaveKeeps(w: World, db: Db, s: System, i: nat, a: Action)
    requires Inv(w, db, s) && i in s.actors && (a.Release? || a.Die?)
    ensures Inv(w, db, Step(w, s, i, a))
  {
    var s' := Step(w, s, i, a);
    if s' != s {
      QuietKeeps(w, db, s, s', i, s'.actors[i].phase);
    }
  }

  lemma StepKeeps(w: World, db: Db, s: System, i: nat, a: Action)
    requires Consistent(w) && Inv(w, db, s) && i in s.actors
    ensures Inv(w, db, Step(w, s, i, a))
  {
    match a
    case LookUp(_) => AskCacheKeeps(w, db, s, i, a);
    case Poll(_) => AskCacheKeeps(w, db, s, i, a);
    case Prepare(_, _) => PrepareKeeps(w, db, s, i, a);
    case Lock(_) => PrepareKeeps(w, db, s, i, a);
    case Check(j) => CheckKeeps(w, db, s, i);
    case Commit(_) => if s.actors[i].phase.Checked? { CommitKeeps(w, db, s, i); }
    case Store(_) => if s.actors[i].phase.Committed? { StoreKeeps(w, db, s, i); }
    case Release(_) => LeaveKeeps(w, db, s, i, a);
    case Die(_) => LeaveKeeps(w, db, s, i, a);
    case Arrive(_, _) =>
    case CacheExpires(_) =>
    case ReservationExpires(_) =>
    case _ => ReserveKeeps(w, db, s, i, a);
  }

  lemma StoreVouched(s: System, i: nat, call: Call, p: Phase)
    requires CacheOk(s.cache, s.log) && p.Committed? && Entry(i, call, p.body) in s.log
    ensures CacheOk(s.cache[call.key := Record(call.hash, p.body)], s.log)
  {
    var k :| 0 <= k < |s.log| && s.log[k] == Entry(i, call, p.body);
    assert Vouched(s.log, call.key, call.hash, p.body);
  }

  lemma NextKeeps(w: World, db: Db, s: System, a: Action)
    requires Consistent(w) && Inv(w, db, s)
    ensures Inv(w, db, Next(w, s, a))
  {
    match a
    case Arrive(_, _) =>
    case CacheExpires(_) =>
    case ReservationExpires(_) =>
    case _ => if a.i in s.actors { StepKeeps(w, db, s, a.i, a); }
  }

  lemma {:induction false} RunKeeps(w: World, db: Db, s: System, actions: seq<Action>)
    requires Consistent(w) && Inv(w, db, s)
    ensures Inv(w, db, Run(w, s, actions))
    decreases |actions|
  {
    if actions != [] {
      NextKeeps(w, db, s, actions[0]);
      RunKeeps(w, db, Next(w, s, actions[0]), actions[1..]);
    }
  }

  // ---------------------------------------------------------------- the theorems

  /** What the sequential run keeps, one accepted submission at a time. */
  lemma {:induction false} SequentialKeeps(w: World, initial: int, db: Db, log: seq<Entry>)
    requires Consistent(w) && Lawful(w, db, log)
    requires Sound(w, db) && Recount.Agrees(db) && Streak.Safe(w.settings, initial, db.account)
    ensures var after := Sequential(w, db, log);
            && Sound(w, after) && Recount.Agrees(after) && Streak.Safe(w.settings, initial, after.account)
            && |after.rows| == |db.rows| + |log|
            && after.totalAttempts == db.totalAttempts + |log|
  {
    if log != [] {
      var rest, r := log[..|log| - 1], log[|log| - 1].call.request;
      SequentialKeeps(w, initial, db, rest);
      var before := Sequential(w, db, rest);
      EffectSound(w, before, r);
      TransitionInStep(w, before.account, r.now);
      Recount.EffectAgrees(w, before, None, r);
      Streak.SubmitKeeps(w.settings, initial, before.account, w.today, r.now);
      EffectShape(w, before, None, r);
    }
  }

  /**
    Whatever calls race on one day, whatever the cache and the reservations forget and whoever dies
    where: the database is what the committed calls leave when run one after the other in commit order,
    each accepted with the body it was given. So no exercise is attempted twice, total_attempts grew by
    exactly the rows inserted, today has at most one extended or reset row, completed_at is set exactly
    when every slot is attempted, and every derived figure is a recount.
   */
  lemma ConcurrentSubmitsSerialize(w: World, initial: int, db: Db, actions: seq<Action>)
    requires Consistent(w) && Sound(w, db)
    requires Recount.Agrees(db) && Streak.Safe(w.settings, initial, db.account)
    ensures var s := Run(w, Boot(db), actions);
            && Lawful(w, db, s.log) && s.db == Sequential(w, db, s.log)
            && OncePerExercise(s.db.rows, w.today)
            && |s.db.rows| == |db.rows| + |s.log| && s.db.totalAttempts == db.totalAttempts + |s.log|
            && (w.today in s.db.completed <==> EverySlotAttempted(w, s.db.rows))
            && Recount.Agrees(s.db)
    ensures var l := Run(w, Boot(db), actions).db.account.ledger;
            forall p, q :: 0 <= p < q < |l| && Streak.IsTransition(l[p]) && Streak.IsTransition(l[q]) ==>
              l[p].date != l[q].date
  {
    RunKeeps(w, db, Boot(db), actions);
    var s := Run(w, Boot(db), actions);
    SequentialKeeps(w, initial, db, s.log);
    var l := s.db.account.ledger;
    forall p, q | 0 <= p < q < |l| && Streak.IsTransition(l[p]) && Streak.IsTransition(l[q])
      ensures l[p].date != l[q].date
    {
      Streak.DateOnce(l, p, q);
    }
  }

  /**
    What every finished call was told is true of that run: a fresh answer is its own single commit, a
    replay repeats byte for byte the answer of a committed call with the same key and body, a conflict
    has a committed call with the same key and another body, an already_attempted has its row, and the
    unique index never had to refuse anything.
   */
  lemma EveryAnswerIsJustified(w: World, db: Db, actions: seq<Action>, i: nat)
    requires Consistent(w) && Sound(w, db)
    requires var s := Run(w, Boot(db), actions); i in s.actors && s.actors[i].phase.Done?
    ensures var s := Run(w, Boot(db), actions);
            var call := s.actors[i].call;
            match s.actors[i].phase.answer
            case Fresh(body) => OnlyCommit(s.log, Entry(i, call, body))
            case Replayed(body) => Vouched(s.log, call.key, call.hash, body)
            case Conflict => Disputed(s.log, call.key, call.hash)
            case Refused(error) =>
              error != IndexRefused
              && (error == AlreadyAttempted ==> Attempted(s.db.rows, call.request.slot.id, w.today))
              && (error != AlreadyAttempted ==> Precheck(w, call.request) == Some(error))
            case Lost => true
  {
    RunKeeps(w, db, Boot(db), actions);
    var s := Run(w, Boot(db), actions);
    var call, answer := s.actors[i].call, s.actors[i].phase.answer;
    assert AnswerOk(w, s.db, s.log, i, call, answer);
    if answer.Fresh? {
      CallersCommitOnce(s.actors, s.log, Entry(i, call, answer.body));
    }
  }

  /** This transaction committed, and its caller committed no other. */
  predicate OnlyCommit(log: seq<Entry>, e: Entry) {
    exists k :: 0 <= k < |log| && log[k] == e && forall m :: 0 <= m < |log| && log[m].caller == e.caller ==> m == k
  }

  lemma CallersCommitOnce(actors: map<nat, Actor>, log: seq<Entry>, e: Entry)
    requires LogOk(actors, log) && e in log
    ensures OnlyCommit(log, e)
  {
    var k :| 0 <= k < |log| && log[k] == e;
    assert forall m :: 0 <= m < |log| && log[m].caller == e.caller ==> m == k;
  }

  /** A ledger kept by a run whose dates did not decrease is in step on every later day. */
  lemma DayStartsInStep(a: Streak.Account, today: int)
    requires Streak.Tidy(false, a) && (a.lastActive.Some? ==> a.lastActive.value <= today)
    ensures a.lastActive == Some(today) <==> Streak.HasTransition(a.ledger, today)
  {
    if a.lastActive == Some(today) {
      LastIsTransition(a.ledger);
    } else {
      Streak.NoLaterTransition(a.ledger, today);
    }
  }

  lemma {:induction false} LastIsTransition(l: Streak.Ledger)
    ensures Streak.LastTransition(l).Some? ==> Streak.HasTransition(l, Streak.LastTransition(l).value.date)
  {
    if l != [] {
      LastIsTransition(l[..|l| - 1]);
    }
  }
}
