/** Everything derived agrees with a recount of the attempts table, whatever happened. */
module Recount {
  import opened Basics
  import opened Attempts

  // ---------------------------------------------------------------- the recount

  /** How often a concept is listed on an exercise. */
  function Times(names: seq<string>, c: string): nat {
    if names == [] then 0 else (if names[0] == c then 1 else 0) + Times(names[1..], c)
  }

  datatype Query =
    | All
    | Correct
    | OfKind(kind: string)
    | CorrectOfKind(kind: string)
    | Tried(concept: string)
    | Known(concept: string)
    | Declined(concept: string)

  /** What one attempt adds to a figure. */
  function Weight(r: Row, q: Query): nat {
    match q
    case All => 1
    case Correct => if r.correct == Some(true) then 1 else 0
    case OfKind(k) => if r.correct.Some? && r.exercise.kind == k then 1 else 0
    case CorrectOfKind(k) => if r.correct == Some(true) && r.exercise.kind == k then 1 else 0
    case Tried(c) => if r.correct.Some? then Times(r.exercise.concepts, c) else 0
    case Known(c) => if r.correct == Some(true) then Times(r.exercise.concepts, c) else 0
    case Declined(c) => if r.status.Skipped? then Times(r.exercise.concepts, c) else 0
  }

  function Tally(rows: seq<Row>, q: Query): nat {
    if rows == [] then 0 else Tally(rows[..|rows| - 1], q) + Weight(rows[|rows| - 1], q)
  }

  /** A verdict is recorded exactly on graded rows; only pending rows count retries, and fewer than three. */
  predicate RowOk(r: Row) {
    && (r.correct.Some? <==> r.status.Graded?)
    && r.retries < MAX_RETRY_ATTEMPTS
    && (!r.status.Pending? ==> r.retries == 0)
  }

  predicate ConceptAgrees(rows: seq<Row>, cs: Concepts, c: string) {
    var s := At(cs, c);
    && s.attempts == Tally(rows, Tried(c)) && s.correct == Tally(rows, Known(c)) && s.declined == Tally(rows, Declined(c))
    && s.mastery <= 999
    && (c in cs <==> Tally(rows, Tried(c)) + Tally(rows, Declined(c)) > 0)
  }

  predicate KindAgrees(rows: seq<Row>, a: Accuracy, k: string) {
    && CountsAt(a, k) == Counts(Tally(rows, OfKind(k)), Tally(rows, CorrectOfKind(k)))
    && (k in a <==> Tally(rows, OfKind(k)) > 0)
  }

  ghost predicate Agrees(db: Db) {
    && (forall i :: 0 <= i < |db.rows| ==> RowOk(db.rows[i]))
    && db.totalAttempts == |db.rows|
    && db.totalCorrect == Tally(db.rows, Correct)
    && (forall k :: KindAgrees(db.rows, db.accuracy, k))
    && (forall c :: ConceptAgrees(db.rows, db.concepts, c))
  }

  // ---------------------------------------------------------------- tallies of changed tables

  lemma TallyPush(rows: seq<Row>, r: Row, q: Query)
    ensures Tally(rows + [r], q) == Tally(rows, q) + Weight(r, q)
  {
    assert (rows + [r])[..|rows|] == rows;
  }

  lemma {:induction false} TallyUpdate(rows: seq<Row>, i: nat, r: Row, q: Query)
    requires i < |rows|
    ensures Tally(rows[i := r], q) + Weight(rows[i], q) == Tally(rows, q) + Weight(r, q)
  {
    var n := |rows| - 1;
    if i == n {
      assert rows[i := r][..n] == rows[..n];
    } else {
      assert rows[i := r][..n] == rows[..n][i := r];
      TallyUpdate(rows[..n], i, r, q);
    }
  }

  // ---------------------------------------------------------------- what one verdict adds

  /** The concept counters after a verdict: each grows by how often the exercise lists the concept. */
  lemma {:induction false} TouchAllCounts(cs: Concepts, names: seq<string>, v: Verdict, now: int, c: string)
    requires v == Skip || v == Right || v == Wrong
    requires At(cs, c).mastery <= 999
    ensures var s, t := At(cs, c), At(TouchAll(cs, names, v, now), c);
            && t.attempts == s.attempts + (if v != Skip then Times(names, c) else 0)
            && t.correct == s.correct + (if v == Right then Times(names, c) else 0)
            && t.declined == s.declined + (if v == Skip then Times(names, c) else 0)
            && t.mastery <= 999
    ensures c in TouchAll(cs, names, v, now) <==> c in cs || Times(names, c) > 0
    decreases |names|
  {
    if names != [] {
      MasteryMoves(At(cs, c).mastery);
      TouchAllCounts(cs[names[0] := Touch(At(cs, names[0]), v, now)], names[1..], v, now, c);
    }
  }

  /** A row that has just got its verdict: what changes in the table and what Learn does move together. */
  ghost predicate Grows(before: seq<Row>, after: seq<Row>, e: Exercise, v: Verdict) {
    var row := NewRow(e, 0, v);
    forall q :: q != All ==> Tally(after, q) == Tally(before, q) + Weight(row, q)
  }

  lemma LearnAgrees(db: Db, rows: seq<Row>, e: Exercise, v: Verdict, now: int)
    requires Agrees(db) && Grows(db.rows, rows, e, v)
    ensures var after := Learn(db.(rows := rows), e, v, now);
            && after.rows == rows && after.totalAttempts == db.totalAttempts
            && after.totalCorrect == Tally(rows, Correct)
            && (forall k :: KindAgrees(rows, after.accuracy, k))
            && (forall c :: ConceptAgrees(rows, after.concepts, c))
  {
    var after := Learn(db.(rows := rows), e, v, now);
    forall k ensures KindAgrees(rows, after.accuracy, k) {
      LearnKind(db, rows, e, v, now, k);
    }
    forall c ensures ConceptAgrees(rows, after.concepts, c) {
      LearnConcept(db, rows, e, v, now, c);
    }
  }

  lemma LearnKind(db: Db, rows: seq<Row>, e: Exercise, v: Verdict, now: int, k: string)
    requires Agrees(db) && Grows(db.rows, rows, e, v)
    ensures KindAgrees(rows, Learn(db.(rows := rows), e, v, now).accuracy, k)
  {
    assert KindAgrees(db.rows, db.accuracy, k);
    assert Tally(rows, OfKind(k)) == Tally(db.rows, OfKind(k)) + Weight(NewRow(e, 0, v), OfKind(k));
    assert Tally(rows, CorrectOfKind(k)) == Tally(db.rows, CorrectOfKind(k)) + Weight(NewRow(e, 0, v), CorrectOfKind(k));
  }

  lemma LearnConcept(db: Db, rows: seq<Row>, e: Exercise, v: Verdict, now: int, c: string)
    requires Agrees(db) && Grows(db.rows, rows, e, v)
    ensures ConceptAgrees(rows, Learn(db.(rows := rows), e, v, now).concepts, c)
  {
    assert ConceptAgrees(db.rows, db.concepts, c);
    var row := NewRow(e, 0, v);
    assert Tally(rows, Tried(c)) == Tally(db.rows, Tried(c)) + Weight(row, Tried(c));
    assert Tally(rows, Known(c)) == Tally(db.rows, Known(c)) + Weight(row, Known(c));
    assert Tally(rows, Declined(c)) == Tally(db.rows, Declined(c)) + Weight(row, Declined(c));
    if v == Skip || v == Right || v == Wrong {
      TouchAllCounts(db.concepts, e.concepts, v, now, c);
    }
  }

  /** A concept listed once is touched once. */
  lemma {:induction false} TouchedOnce(cs: Concepts, names: seq<string>, v: Verdict, now: int, c: string)
    ensures Times(names, c) == 0 ==> At(TouchAll(cs, names, v, now), c) == At(cs, c)
    ensures Times(names, c) == 1 ==> At(TouchAll(cs, names, v, now), c) == Touch(At(cs, c), v, now)
    decreases |names|
  {
    if names != [] {
      TouchedOnce(cs[names[0] := Touch(At(cs, names[0]), v, now)], names[1..], v, now, c);
    }
  }

  /**
    When a concept comes up again: in 1 day after a skip, 2 after a wrong answer, and after a right one in
    7 days, or in 21 if by the table some earlier attempt on the concept was right. Other concepts keep
    their dates.
   */
  lemma ReviewIntervals(db: Db, e: Exercise, v: Verdict, now: int, c: string)
    requires Agrees(db) && (v == Skip || v == Right || v == Wrong)
    ensures var before, after := At(db.concepts, c), At(Learn(db, e, v, now).concepts, c);
            && (Times(e.concepts, c) == 0 ==> after == before)
            && (Times(e.concepts, c) == 1 ==>
                  && after.lastSeen == now
                  && after.nextReview == now + DAY * (
                       match v
                       case Skip => 1
                       case Wrong => 2
                       case _ => if Tally(db.rows, Known(c)) > 0 then 21 else 7))
  {
    assert ConceptAgrees(db.rows, db.concepts, c);
    TouchedOnce(db.concepts, e.concepts, v, now, c);
  }

  // ---------------------------------------------------------------- every event

  /** A figure depends only on these five fields. */
  lemma AgreesFrom(after: Db)
    requires after.totalAttempts == |after.rows|
    requires forall i :: 0 <= i < |after.rows| ==> RowOk(after.rows[i])
    requires after.totalCorrect == Tally(after.rows, Correct)
    requires forall k :: KindAgrees(after.rows, after.accuracy, k)
    requires forall c :: ConceptAgrees(after.rows, after.concepts, c)
    ensures Agrees(after)
  {
  }

  lemma WeightDateless(e: Exercise, date: int, v: Verdict, q: Query)
    ensures Weight(NewRow(e, date, v), q) == Weight(NewRow(e, 0, v), q)
  {
  }

  lemma PushGrows(rows: seq<Row>, e: Exercise, date: int, v: Verdict)
    ensures Grows(rows, rows + [NewRow(e, date, v)], e, v)
  {
    var row := NewRow(e, date, v);
    forall q | q != All ensures Tally(rows + [row], q) == Tally(rows, q) + Weight(NewRow(e, 0, v), q) {
      TallyPush(rows, row, q);
      WeightDateless(e, date, v, q);
    }
  }

  /** What a submission leaves of the figures that Learn has updated. */
  lemma EffectFields(w: World, db: Db, copy: Option<int>, r: Request)
    requires Precheck(w, r).None? && Effect(w, db, copy, r).Ok?
    ensures var after := Effect(w, db, copy, r).db;
            var e, v := w.catalogue[r.slot], r.verdict.value;
            var learned := Learn(db.(rows := db.rows + [NewRow(e, w.today, v)]), e, v, r.now);
            && after.rows == db.rows + [NewRow(e, w.today, v)]
            && after.totalAttempts == db.totalAttempts + 1
            && after.totalCorrect == learned.totalCorrect
            && after.accuracy == learned.accuracy && after.concepts == learned.concepts
  {
  }

  lemma EffectAgrees(w: World, db: Db, copy: Option<int>, r: Request)
    requires Agrees(db) && Precheck(w, r).None? && Effect(w, db, copy, r).Ok?
    ensures Agrees(Effect(w, db, copy, r).db)
  {
    var e, v := w.catalogue[r.slot], r.verdict.value;
    PushGrows(db.rows, e, w.today, v);
    LearnAgrees(db, db.rows + [NewRow(e, w.today, v)], e, v, r.now);
    EffectFields(w, db, copy, r);
    AgreesFrom(Effect(w, db, copy, r).db);
  }

  lemma RetryAgrees(db: Db, p: Pick)
    requires Agrees(db)
    ensures Agrees(Retry(db, p)) && |Retry(db, p).rows| == |db.rows|
  {
    if Retry(db, p) != db {
      var was, row := db.rows[p.index], RetryRow(db.rows[p.index], p.verdict);
      assert RowOk(was);
      var rows := db.rows[p.index := row];
      assert Grows(db.rows, rows, was.exercise, p.verdict) by {
        forall q | q != All ensures Tally(rows, q) == Tally(db.rows, q) + Weight(NewRow(was.exercise, 0, p.verdict), q) {
          TallyUpdate(db.rows, p.index, row, q);
        }
      }
      LearnAgrees(db, rows, was.exercise, p.verdict, p.now);
    }
  }

  lemma {:induction false} TickAgrees(db: Db, picks: seq<Pick>)
    requires Agrees(db)
    ensures Agrees(Tick(db, picks)) && |Tick(db, picks).rows| == |db.rows|
    decreases |picks|
  {
    if picks != [] {
      RetryAgrees(db, picks[0]);
      TickAgrees(Retry(db, picks[0]), picks[1..]);
    }
  }

  /**
    After any submissions, skips, pending grades and retry ticks, in any order and on any days, every
    derived figure is the count over the attempts table and every mastery is at most 0.999.
   */
  lemma {:induction false} DerivedStateIsRecount(db: Db, events: seq<Event>)
    requires Agrees(db)
    ensures Agrees(History(db, events))
    decreases |events|
  {
    if events != [] {
      match events[0]
      case Submission(w, r) =>
        if SubmitOne(w, db, r).Ok? { EffectAgrees(w, db, CompletedAt(db, w.today), r); }
        DerivedStateIsRecount(Handle(db, events[0]), events[1..]);
      case RetryTick(picks) =>
        TickAgrees(db, picks);
        DerivedStateIsRecount(Handle(db, events[0]), events[1..]);
    }
  }

  // ---------------------------------------------------------------- pending rows

  /** How many of these picks lead to an answer for row i. */
  function Graded(picks: seq<Pick>, i: nat): nat {
    if picks == [] then 0
    else (if picks[0].index == i && !picks[0].orphaned && !picks[0].verdict.Skip? then 1 else 0) + Graded(picks[1..], i)
  }

  function GradedIn(events: seq<Event>, i: nat): nat {
    if events == [] then 0
    else (match events[0] case RetryTick(picks) => Graded(picks, i) case _ => 0) + GradedIn(events[1..], i)
  }

  /** A row with a final status never changes; a pending one has timed out every time it was graded. */
  predicate Aged(was: Row, row: Row, graded: nat) {
    && (!was.status.Pending? ==> row == was)
    && (row.status.Pending? ==> row == was.(retries := was.retries + graded))
    && row.exercise == was.exercise && row.date == was.date
  }

  lemma {:induction false} TickAges(db: Db, picks: seq<Pick>, i: nat)
    requires i < |db.rows|
    ensures |Tick(db, picks).rows| == |db.rows|
    ensures Aged(db.rows[i], Tick(db, picks).rows[i], Graded(picks, i))
    decreases |picks|
  {
    if picks != [] {
      TickAges(Retry(db, picks[0]), picks[1..], i);
    }
  }

  lemma SubmissionAges(w: World, db: Db, r: Request)
    ensures db.rows <= Handle(db, Submission(w, r)).rows
  {
    if SubmitOne(w, db, r).Ok? {
      EffectFields(w, db, CompletedAt(db, w.today), r);
    }
  }

  lemma {:induction false} RowsAge(db: Db, events: seq<Event>, i: nat)
    requires i < |db.rows|
    ensures i < |History(db, events).rows|
    ensures Aged(db.rows[i], History(db, events).rows[i], GradedIn(events, i))
    decreases |events|
  {
    if events != [] {
      match events[0]
      case Submission(w, r) =>
        SubmissionAges(w, db, r);
        RowsAge(Handle(db, events[0]), events[1..], i);
      case RetryTick(picks) =>
        TickAges(db, picks, i);
        RowsAge(Handle(db, events[0]), events[1..], i);
    }
  }

  /** A pending attempt is settled once the retry job has had three answers for it, and then for good. */
  lemma PendingSettles(db: Db, before: seq<Event>, events: seq<Event>, i: nat)
    requires Agrees(db) && i < |History(db, before).rows|
    ensures i < |History(History(db, before), events).rows|
    ensures var was, row := History(db, before).rows[i], History(History(db, before), events).rows[i];
            && (!was.status.Pending? ==> row == was)
            && (was.status.Pending? && row.status.Pending? ==> GradedIn(events, i) < MAX_RETRY_ATTEMPTS - was.retries)
  {
    DerivedStateIsRecount(db, before);
    DerivedStateIsRecount(History(db, before), events);
    RowsAge(History(db, before), events, i);
  }
}
