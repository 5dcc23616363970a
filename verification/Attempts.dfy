/**
  One user's attempts and everything derived from them: backend/app/attempts/service.py,
  backend/app/jobs/grading_retry.py and backend/app/core/accuracy.py. Mastery is counted in
  thousandths, as its column stores it.
 */
module Attempts {
  import opened Basics
  import opened Streak

  const DAY := 86_400_000_000
  const MAX_RETRY_ATTEMPTS := 3

  /** An exercise version; published versions never change. */
  datatype Exercise = Exercise(id: nat, version: nat, kind: string, concepts: seq<string>)

  datatype Status = Graded | Skipped | Pending | Failed

  /** What grading an answer comes to: an honest skip, a verdict, or no verdict for now or for good. */
  datatype Verdict = Skip | Right | Wrong | TimedOut | Invalid

  datatype Row = Row(exercise: Exercise, date: int, status: Status, correct: Option<bool>, retries: nat)

  datatype Counts = Counts(attempts: nat, correct: nat)

  datatype Concept = Concept(mastery: nat, attempts: nat, correct: nat, declined: nat, nextReview: int, lastSeen: int)

  type Accuracy = map<string, Counts>
  type Concepts = map<string, Concept>

  datatype Db = Db(
    rows: seq<Row>,
    totalAttempts: nat, totalCorrect: nat, accuracy: Accuracy, concepts: Concepts,
    account: Account,
    completed: map<int, int>)

  // ---------------------------------------------------------------- mastery

  /** n / d to the nearest integer, a tie to the even one. */
  function HalfEven(n: nat, d: nat): nat
    requires d > 0
  {
    var q, r := n / d, n % d;
    if 2 * r < d || (2 * r == d && q % 2 == 0) then q else q + 1
  }

  /** 0.85 m, 0.7 m or 0.7 m + 0.3, rounded to a thousandth. */
  function Practise(m: nat, v: Verdict): nat {
    match v
    case Skip => HalfEven(17 * m, 20)
    case Right => HalfEven(7 * m + 3000, 10)
    case Wrong => HalfEven(7 * m, 10)
    case _ => m
  }

  /** Mastery never reaches 1: a right answer raises it up to 0.999 and stops, the others never raise it. */
  lemma MasteryMoves(m: nat)
    requires m <= 999
    ensures Practise(m, Right) <= 999
    ensures m < 999 ==> m < Practise(m, Right)
    ensures Practise(m, Wrong) <= Practise(m, Skip) <= m
    ensures m > 1 ==> Practise(m, Wrong) < m
    ensures m > 3 ==> Practise(m, Skip) < m
    ensures m > 5 ==> Practise(m, Wrong) < Practise(m, Skip)
  {
  }

  /** Enough right answers bring any mastery to exactly 0.999. */
  function AnswerRight(m: nat, times: nat): nat
    decreases times
  {
    if times == 0 then m else AnswerRight(Practise(m, Right), times - 1)
  }

  lemma {:induction false} RightAnswersSaturate(m: nat, times: nat)
    requires m <= 999 && times >= 999 - m
    ensures AnswerRight(m, times) == 999
    decreases times
  {
    if times > 0 {
      MasteryMoves(m);
      RightAnswersSaturate(Practise(m, Right), times - 1);
    }
  }

  // ---------------------------------------------------------------- one concept, one type

  const UNSEEN := Concept(0, 0, 0, 0, 0, 0)

  function At(cs: Concepts, c: string): Concept {
    if c in cs then cs[c] else UNSEEN
  }

  /** One turn of update_concept_state's loop. */
  function Touch(s: Concept, v: Verdict, now: int): Concept {
    if v == Skip then
      s.(declined := s.declined + 1, mastery := Practise(s.mastery, Skip), nextReview := now + 1 * DAY, lastSeen := now)
    else
      s.(attempts := s.attempts + 1, correct := s.correct + (if v == Right then 1 else 0),
         mastery := Practise(s.mastery, v),
         nextReview := now + (if v != Right then 2 else if s.correct > 0 then 21 else 7) * DAY,
         lastSeen := now)
  }

  function TouchAll(cs: Concepts, names: seq<string>, v: Verdict, now: int): Concepts
    decreases |names|
  {
    if names == [] then cs
    else TouchAll(cs[names[0] := Touch(At(cs, names[0]), v, now)], names[1..], v, now)
  }

  function CountsAt(a: Accuracy, kind: string): Counts {
    if kind in a then a[kind] else Counts(0, 0)
  }

  function Bump(a: Accuracy, kind: string, correct: bool): Accuracy {
    var n := CountsAt(a, kind);
    a[kind := Counts(n.attempts + 1, n.correct + if correct then 1 else 0)]
  }

  // ---------------------------------------------------------------- a grade becomes known

  /** The updates that wait for a verdict: concepts always, correctness unless it is a skip. */
  function Learn(db: Db, e: Exercise, v: Verdict, now: int): Db {
    match v
    case Skip => db.(concepts := TouchAll(db.concepts, e.concepts, Skip, now))
    case Right => db.(concepts := TouchAll(db.concepts, e.concepts, Right, now),
                      totalCorrect := db.totalCorrect + 1, accuracy := Bump(db.accuracy, e.kind, true))
    case Wrong => db.(concepts := TouchAll(db.concepts, e.concepts, Wrong, now),
                      accuracy := Bump(db.accuracy, e.kind, false))
    case _ => db
  }

  function NewRow(e: Exercise, date: int, v: Verdict): Row {
    match v
    case Skip => Row(e, date, Skipped, None, 0)
    case Right => Row(e, date, Graded, Some(true), 0)
    case Wrong => Row(e, date, Graded, Some(false), 0)
    case TimedOut => Row(e, date, Pending, None, 0)
    case Invalid => Row(e, date, Failed, None, 0)
  }

  // ---------------------------------------------------------------- a submission

  datatype Slot = Slot(id: nat, version: nat)

  /** What stays fixed while a user's day runs: the settings, the date, the session and the exercises. */
  datatype World = World(settings: Settings, today: int, slots: seq<Slot>, catalogue: map<Slot, Exercise>)

  predicate Consistent(w: World) {
    forall s :: s in w.catalogue ==> w.catalogue[s].id == s.id && w.catalogue[s].version == s.version
  }

  /** A call of POST /attempts and what grading it will say; a malformed answer has no verdict. */
  datatype Request = Request(slot: Slot, verdict: Option<Verdict>, now: int)

  datatype Error = NotInSession | NotFound | ShapeMismatch | AlreadyAttempted | IndexRefused

  datatype Body = Body(attempt: nat, status: Status, streak: Option<(nat, Kind)>, remaining: nat, firstCompleted: bool)

  datatype Result = Ok(db: Db, body: Body) | Err(error: Error)

  predicate Attempted(rows: seq<Row>, id: nat, date: int) {
    exists i :: 0 <= i < |rows| && rows[i].exercise.id == id && rows[i].date == date
  }

  function Remaining(rows: seq<Row>, slots: seq<Slot>, date: int): nat {
    if slots == [] then 0
    else Remaining(rows, slots[..|slots| - 1], date) + if Attempted(rows, slots[|slots| - 1].id, date) then 0 else 1
  }

  /** The checks made before the lock. */
  function Precheck(w: World, r: Request): Option<Error> {
    if r.slot !in w.slots then Some(NotInSession)
    else if r.slot !in w.catalogue then Some(NotFound)
    else if r.verdict.None? then Some(ShapeMismatch)
    else None
  }

  function StreakPart(w: World, db: Db, now: int): Option<Db> {
    match Submit(w.settings, db.account, w.today, now)
    case None => None
    case Some(account) => Some(db.(account := account, totalAttempts := db.totalAttempts + 1))
  }

  function StreakAnswer(w: World, db: Db, after: Account, now: int): Option<(nat, Kind)> {
    if db.account.lastActive == Some(w.today) then None
    else Some((after.current, if Bridge(w.settings, db.account, w.today, now).Some? then Extended else Reset))
  }

  function CompletedDays(completed: map<int, int>): nat {
    |completed|
  }

  /**
    What the transaction does from the state it read: `copy` is the completed_at of the session row
    that the request had loaded, which may be older than the rest.
   */
  function Effect(w: World, db: Db, copy: Option<int>, r: Request): Result
    requires Precheck(w, r).None?
  {
    var e := w.catalogue[r.slot];
    var row := NewRow(e, w.today, r.verdict.value);
    var graded := Learn(db.(rows := db.rows + [row]), e, r.verdict.value, r.now);
    match StreakPart(w, graded, r.now)
    case None => Err(IndexRefused)
    case Some(credited) =>
      var left := Remaining(credited.rows, w.slots, w.today);
      var closes := left == 0 && copy.None?;
      var after := if closes then credited.(completed := credited.completed[w.today := r.now]) else credited;
      Ok(after, Body(|db.rows|, row.status, StreakAnswer(w, db, after.account, r.now), left,
                     closes && CompletedDays(after.completed) == 1))
  }

  function CompletedAt(db: Db, date: int): Option<int> {
    if date in db.completed then Some(db.completed[date]) else None
  }

  /** A submission that runs alone. */
  function SubmitOne(w: World, db: Db, r: Request): Result {
    match Precheck(w, r)
    case Some(error) => Err(error)
    case None =>
      if Attempted(db.rows, w.catalogue[r.slot].id, w.today) then Err(AlreadyAttempted)
      else Effect(w, db, CompletedAt(db, w.today), r)
  }

  // ---------------------------------------------------------------- the retry job

  /** One pending row the job picked up and what grading answered. */
  datatype Pick = Pick(index: nat, verdict: Verdict, orphaned: bool, now: int)

  function RetryRow(row: Row, v: Verdict): Row {
    match v
    case Right => row.(status := Graded, correct := Some(true), retries := 0)
    case Wrong => row.(status := Graded, correct := Some(false), retries := 0)
    case Invalid => row.(status := Failed, retries := 0)
    case _ =>
      if row.retries + 1 >= MAX_RETRY_ATTEMPTS then row.(status := Failed, retries := 0)
      else row.(retries := row.retries + 1)
  }

  function Retry(db: Db, p: Pick): Db {
    if p.index >= |db.rows| || !db.rows[p.index].status.Pending? || p.orphaned || p.verdict.Skip? then db
    else Learn(db.(rows := db.rows[p.index := RetryRow(db.rows[p.index], p.verdict)]),
               db.rows[p.index].exercise, p.verdict, p.now)
  }

  function Tick(db: Db, picks: seq<Pick>): Db
    decreases |picks|
  {
    if picks == [] then db else Tick(Retry(db, picks[0]), picks[1..])
  }

  // ---------------------------------------------------------------- runs

  datatype Event = Submission(world: World, request: Request) | RetryTick(picks: seq<Pick>)

  function Handle(db: Db, e: Event): Db {
    match e
    case Submission(w, r) => (match SubmitOne(w, db, r) case Ok(after, _) => after case Err(_) => db)
    case RetryTick(picks) => Tick(db, picks)
  }

  function History(db: Db, events: seq<Event>): Db
    decreases |events|
  {
    if events == [] then db else History(Handle(db, events[0]), events[1..])
  }
}
