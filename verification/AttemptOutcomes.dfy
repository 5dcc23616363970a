/** What one verdict does to mastery, and one answer of the retry job to its row. */
module AttemptOutcomes {
  import opened Basics
  import opened Attempts
  import opened Recount

  /** r is n / d rounded to the nearest integer, a tie to the even one. */
  predicate Rounds(n: int, d: int, r: int) {
    && -d <= 2 * (d * r - n) <= d
    && (2 * (d * r - n) == d || 2 * (d * r - n) == -d ==> r % 2 == 0)
  }

  lemma HalfEvenRounds(n: nat, d: nat)
    requires d > 0
    ensures Rounds(n, d, HalfEven(n, d))
  {
    var q := n / d;
    assert n == d * q + n % d;
    assert d * (q + 1) == d * q + d;
  }

  /** What mastery becomes, in thousandths: 0.7 of it and 0.3 more, 0.7 of it, or 0.85 of it, to the nearest thousandth. */
  predicate Follows(before: nat, v: Verdict, after: nat) {
    match v
    case Right => Rounds(70 * before + 30 * 1000, 100, after)
    case Wrong => Rounds(70 * before, 100, after)
    case Skip => Rounds(85 * before, 100, after)
    case _ => after == before
  }

  lemma Scaled(k: int, n: int, d: int, r: int)
    requires k > 0 && Rounds(n, d, r)
    ensures Rounds(k * n, k * d, r)
  {
    var x := 2 * (d * r - n);
    assert (k * d) * r == k * (d * r);
    assert 2 * ((k * d) * r - k * n) == k * x;
    if x < d { assert k * x < k * d; }
    if x > -d { assert k * x > k * -d; }
  }

  lemma PractiseFollows(m: nat, v: Verdict)
    ensures Follows(m, v, Practise(m, v))
  {
    match v
    case Right =>
      HalfEvenRounds(7 * m + 3000, 10);
      Scaled(10, 7 * m + 3000, 10, Practise(m, v));
    case Wrong =>
      HalfEvenRounds(7 * m, 10);
      Scaled(10, 7 * m, 10, Practise(m, v));
    case Skip =>
      HalfEvenRounds(17 * m, 20);
      Scaled(5, 17 * m, 20, Practise(m, v));
    case _ =>
  }

  /** A verdict moves the mastery of every concept the exercise lists once by that rule, and of no concept it does not list. */
  lemma MasteryFollows(db: Db, e: Exercise, v: Verdict, now: int, c: string)
    requires v == Skip || v == Right || v == Wrong
    ensures Times(e.concepts, c) == 0 ==> At(Learn(db, e, v, now).concepts, c) == At(db.concepts, c)
    ensures Times(e.concepts, c) == 1 ==> Follows(At(db.concepts, c).mastery, v, At(Learn(db, e, v, now).concepts, c).mastery)
  {
    TouchedOnce(db.concepts, e.concepts, v, now, c);
    PractiseFollows(At(db.concepts, c).mastery, v);
  }

  /**
    One answer of the retry job: a verdict grades the row, an invalid response fails it, and a timeout is
    counted until the third, which fails it. Nothing happens to a row that is not pending any more.
   */
  lemma RetryComesTo(db: Db, p: Pick)
    requires p.index < |db.rows| && !p.orphaned && p.verdict != Skip
    ensures var before, after := db.rows[p.index], Retry(db, p).rows[p.index];
            && |Retry(db, p).rows| == |db.rows|
            && (forall k :: 0 <= k < |db.rows| && k != p.index ==> Retry(db, p).rows[k] == db.rows[k])
            && after.exercise == before.exercise && after.date == before.date
            && (before.status != Pending ==> after == before)
            && (before.status == Pending ==>
                  match p.verdict
                  case Right => after.status == Graded && after.correct == Some(true)
                  case Wrong => after.status == Graded && after.correct == Some(false)
                  case Invalid => after.status == Failed
                  case _ =>
                    if before.retries < 2 then after.status == Pending && after.retries == before.retries + 1
                    else after.status == Failed)
  {
  }
}
