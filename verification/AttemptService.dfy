/**
  The in-place updates of backend/app/attempts/service.py and backend/app/jobs/grading_retry.py for one
  user, each proved equal to its specification in Attempts.
 */
module AttemptService {
  import opened Basics
  import S = Streak
  import opened StreakService
  import opened Attempts

  class AttemptStore {
    var rows: seq<Row>
    var totalAttempts: nat
    var totalCorrect: nat
    var accuracyByType: Accuracy
    var conceptStates: Concepts
    var completedAt: map<int, int>
    const stats: UserStats

    constructor (stats: UserStats)
      ensures this.stats == stats
      ensures State() == Db([], 0, 0, map[], map[], stats.Acc(), map[])
    {
      rows, totalAttempts, totalCorrect, accuracyByType := [], 0, 0, map[];
      conceptStates, completedAt := map[], map[];
      this.stats := stats;
    }

    function State(): Db
      reads this, stats
    {
      Db(rows, totalAttempts, totalCorrect, accuracyByType, conceptStates, stats.Acc(), completedAt)
    }

    method UpdateConceptState(names: seq<string>, v: Verdict, now: int)
      requires v == Skip || v == Right || v == Wrong
      modifies `conceptStates
      ensures conceptStates == TouchAll(old(conceptStates), names, v, now)
    {
      for i := 0 to |names|
        invariant TouchAll(conceptStates, names[i..], v, now) == TouchAll(old(conceptStates), names, v, now)
      {
        var row := if names[i] in conceptStates then conceptStates[names[i]] else UNSEEN;
        if v == Skip {
          row := row.(declined := row.declined + 1, mastery := HalfEven(17 * row.mastery, 20), nextReview := now + DAY);
        } else {
          var alreadyCorrect := row.correct > 0;
          row := row.(attempts := row.attempts + 1);
          if v == Right {
            row := row.(correct := row.correct + 1);
          }
          row := row.(mastery := HalfEven(7 * row.mastery + if v == Right then 3000 else 0, 10));
          var days := if v != Right then 2 else if alreadyCorrect then 21 else 7;
          row := row.(nextReview := now + days * DAY);
        }
        row := row.(lastSeen := now);
        assert row == Touch(At(conceptStates, names[i]), v, now);
        assert names[i..][1..] == names[i + 1..];
        conceptStates := conceptStates[names[i] := row];
      }
    }

    method UpdateCorrectnessStats(kind: string, correct: bool)
      modifies `totalCorrect, `accuracyByType
      ensures totalCorrect == old(totalCorrect) + if correct then 1 else 0
      ensures accuracyByType == Bump(old(accuracyByType), kind, correct)
    {
      if correct {
        totalCorrect := totalCorrect + 1;
      }
      var counts := if kind in accuracyByType then accuracyByType[kind] else Counts(0, 0);
      counts := counts.(attempts := counts.attempts + 1);
      if correct {
        counts := counts.(correct := counts.correct + 1);
      }
      accuracyByType := accuracyByType[kind := counts];
    }

    method LearnVerdict(e: Exercise, v: Verdict, now: int)
      modifies `conceptStates, `totalCorrect, `accuracyByType
      ensures State() == Learn(old(State()), e, v, now)
    {
      if v == Skip {
        UpdateConceptState(e.concepts, Skip, now);
      } else if v == Right || v == Wrong {
        UpdateConceptState(e.concepts, v, now);
        UpdateCorrectnessStats(e.kind, v == Right);
      }
    }

    method RemainingCount(w: World) returns (remaining: nat)
      ensures remaining == Remaining(rows, w.slots, w.today)
    {
      var attemptedIds: set<nat> := {};
      for i := 0 to |rows|
        invariant forall id :: id in attemptedIds <==> Attempted(rows[..i], id, w.today)
      {
        AttemptedPush(rows, i, w.today);
        if rows[i].date == w.today {
          attemptedIds := attemptedIds + {rows[i].exercise.id};
        }
      }
      assert rows[..|rows|] == rows;
      var done := 0;
      for i := 0 to |w.slots|
        invariant done <= i
        invariant i - done == Remaining(rows, w.slots[..i], w.today)
      {
        assert w.slots[..i + 1][..i] == w.slots[..i];
        if w.slots[i].id in attemptedIds {
          done := done + 1;
        }
      }
      assert w.slots[..|w.slots|] == w.slots;
      return |w.slots| - done;
    }

    /** The transaction after the already-attempted check; a refused index rolls everything back. */
    method StoreAttempt(w: World, copy: Option<int>, r: Request) returns (answer: Option<Body>)
      requires Precheck(w, r).None?
      modifies this, stats
      ensures match Effect(w, old(State()), copy, r)
              case Ok(db, body) => State() == db && answer == Some(body)
              case Err(_) => State() == old(State()) && answer == None
    {
      var e, v := w.catalogue[r.slot], r.verdict.value;
      var savedRows, savedConcepts, savedCorrect, savedAccuracy := rows, conceptStates, totalCorrect, accuracyByType;
      var row := NewRow(e, w.today, v);
      rows := rows + [row];
      LearnVerdict(e, v, r.now);
      ghost var learned := State();
      var outcome := stats.UpdateStreak(w.settings, w.today, r.now);
      if outcome.IntegrityError? {
        rows, conceptStates, totalCorrect, accuracyByType := savedRows, savedConcepts, savedCorrect, savedAccuracy;
        return None;
      }
      totalAttempts := totalAttempts + 1;
      assert StreakPart(w, learned, r.now) == Some(State());
      var remaining := RemainingCount(w);
      var firstCompleted := false;
      if remaining == 0 && copy.None? {
        completedAt := completedAt[w.today := r.now];
        firstCompleted := CompletedDays(completedAt) == 1;
      }
      var streak := match outcome case Moved(info) => Some((info.current, info.event)) case _ => None;
      return Some(Body(|savedRows|, row.status, streak, remaining, firstCompleted));
    }

    /** One tick of the retry job over the pending rows it selected. */
    method ResolvePending(picks: seq<Pick>) returns (resolved: nat, failed: nat, stillPending: nat)
      requires forall i :: 0 <= i < |picks| ==>
                 picks[i].index < |rows| && rows[picks[i].index].status.Pending? && !picks[i].verdict.Skip?
      requires forall i, j :: 0 <= i < j < |picks| ==> picks[i].index != picks[j].index
      modifies this
      ensures State() == Tick(old(State()), picks)
      ensures resolved + failed + stillPending <= |picks|
      ensures (forall p :: p in picks ==> !p.orphaned) ==> resolved + failed + stillPending == |picks|
    {
      resolved, failed, stillPending := 0, 0, 0;
      for k := 0 to |picks|
        invariant |rows| == old(|rows|)
        invariant forall i :: k <= i < |picks| ==> rows[picks[i].index] == old(rows[picks[i].index])
        invariant Tick(State(), picks[k..]) == Tick(old(State()), picks)
        invariant resolved + failed + stillPending <= k
        invariant (forall p :: p in picks ==> !p.orphaned) ==> resolved + failed + stillPending == k
      {
        assert picks[k..][0] == picks[k] && picks[k..][1..] == picks[k + 1..];
        assert picks[k] in picks;
        if !picks[k].orphaned {
          var settled := ResolveOne(picks[k]);
          match settled {
            case Graded => resolved := resolved + 1;
            case Failed => failed := failed + 1;
            case _ => stillPending := stillPending + 1;
          }
        }
      }
    }

    method ResolveOne(p: Pick) returns (status: Status)
      requires p.index < |rows| && rows[p.index].status.Pending? && !p.orphaned && !p.verdict.Skip?
      modifies this
      ensures State() == Retry(old(State()), p)
      ensures |rows| == old(|rows|) && status == rows[p.index].status
      ensures forall i :: 0 <= i < |rows| && i != p.index ==> rows[i] == old(rows[i])
    {
      var row := rows[p.index];
      if p.verdict == Invalid {
        row := row.(status := Failed, retries := 0);
      } else if p.verdict == TimedOut {
        var count := row.retries + 1;
        row := if count >= MAX_RETRY_ATTEMPTS then row.(status := Failed, retries := 0) else row.(retries := count);
      } else {
        row := row.(status := Graded, correct := Some(p.verdict == Right), retries := 0);
      }
      rows := rows[p.index := row];
      LearnVerdict(row.exercise, p.verdict, p.now);
      return row.status;
    }
  }

  lemma AttemptedPush(rows: seq<Row>, i: nat, date: int)
    requires i < |rows|
    ensures forall id :: Attempted(rows[..i + 1], id, date) <==>
              Attempted(rows[..i], id, date) || (rows[i].exercise.id == id && rows[i].date == date)
  {
    var now, was := rows[..i + 1], rows[..i];
    assert forall j :: 0 <= j < i ==> now[j] == was[j];
    assert now[i] == rows[i];
    forall id | Attempted(was, id, date) ensures Attempted(now, id, date) {
      var j :| 0 <= j < |was| && was[j].exercise.id == id && was[j].date == date;
      assert now[j] == was[j];
    }
  }
}
