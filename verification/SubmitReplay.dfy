/**
  What a caller of POST /attempts can count on (backend/app/attempts/service.py, submit_attempt;
  backend/app/core/idempotency.py): a stored response is replayed for as long as it is kept, a retry that
  races the original waits for it, and a call that nobody disturbs is answered as a submission on its own.
 */
module SubmitReplay {
  import opened Basics
  import opened Attempts
  import opened SubmitProtocol
  import Streak
  import StreakOutcomes

  // ---------------------------------------------------------------- what the cache holds

  lemma {:induction false} RunLast(w: World, s: System, actions: seq<Action>)
    requires actions != []
    ensures Run(w, s, actions) == Next(w, Run(w, s, actions[..|actions| - 1]), actions[|actions| - 1])
    decreases |actions|
  {
    if |actions| > 1 {
      RunLast(w, Next(w, s, actions[0]), actions[1..]);
      assert actions[1..][..|actions| - 2] == actions[..|actions| - 1][1..];
    }
  }

  /** This action is the moment a committed call with this key has its response stored. */
  predicate StoresUnder(s: System, a: Action, key: nat) {
    a.Store? && a.i in s.actors && s.actors[a.i].phase.Committed? && s.actors[a.i].call.key == key
  }

  /** The state before the n-th action. */
  function Before(w: World, db: Db, actions: seq<Action>, n: nat): System
    requires n <= |actions|
  {
    Run(w, Boot(db), actions[..n])
  }

  /** The n-th action stored a response under this key, and none was stored under it or expired since. */
  predicate LastStore(w: World, db: Db, actions: seq<Action>, n: nat, key: nat) {
    && n < |actions|
    && StoresUnder(Before(w, db, actions, n), actions[n], key)
    && forall m :: n < m < |actions| ==> !StoresUnder(Before(w, db, actions, m), actions[m], key) && actions[m] != CacheExpires(key)
  }

  /** The response of the call that is stored. */
  function Stored(s: System, i: nat): Record
    requires i in s.actors && s.actors[i].phase.Committed?
  {
    Record(s.actors[i].call.hash, s.actors[i].phase.body)
  }

  function CachedAs(s: System, key: nat): Option<Record> {
    if key in s.cache then Some(s.cache[key]) else None
  }

  lemma CacheStep(w: World, s: System, a: Action, key: nat)
    ensures CachedAs(Next(w, s, a), key) ==
            if StoresUnder(s, a, key) then Some(Stored(s, a.i))
            else if a == CacheExpires(key) then None
            else CachedAs(s, key)
  {
  }

  lemma LastStoreStays(w: World, db: Db, actions: seq<Action>, n: nat, key: nat)
    requires actions != [] && n < |actions| - 1
    requires !StoresUnder(Before(w, db, actions, |actions| - 1), actions[|actions| - 1], key)
    requires actions[|actions| - 1] != CacheExpires(key)
    ensures LastStore(w, db, actions, n, key) <==> LastStore(w, db, actions[..|actions| - 1], n, key)
  {
    var rest := actions[..|actions| - 1];
    assert forall m :: 0 <= m < |rest| ==> rest[m] == actions[m] && rest[..m] == actions[..m];
  }

  /** The cache keeps exactly the last response stored under a key, for as long as it has not expired. */
  lemma {:induction false} CacheHolds(w: World, db: Db, actions: seq<Action>, key: nat)
    ensures key in Run(w, Boot(db), actions).cache <==> exists n: nat :: LastStore(w, db, actions, n, key)
    ensures forall n: nat :: LastStore(w, db, actions, n, key) ==>
              CachedAs(Run(w, Boot(db), actions), key) == Some(Stored(Before(w, db, actions, n), actions[n].i))
    decreases |actions|
  {
    if actions != [] {
      var last := |actions| - 1;
      var rest := actions[..last];
      RunLast(w, Boot(db), actions);
      CacheHolds(w, db, rest, key);
      CacheStep(w, Before(w, db, actions, last), actions[last], key);
      assert forall n :: 0 <= n < last ==> rest[n] == actions[n] && rest[..n] == actions[..n];
      if StoresUnder(Before(w, db, actions, last), actions[last], key) {
        assert LastStore(w, db, actions, last, key);
        assert forall n: nat :: LastStore(w, db, actions, n, key) ==> n == last;
      } else if actions[last] == CacheExpires(key) {
        assert forall n: nat :: !LastStore(w, db, actions, n, key);
      } else {
        forall n: nat ensures LastStore(w, db, actions, n, key) <==> n < last && LastStore(w, db, rest, n, key) {
          if n < last { LastStoreStays(w, db, actions, n, key); }
        }
        if key in Run(w, Boot(db), rest).cache {
          var n: nat :| LastStore(w, db, rest, n, key);
          assert LastStore(w, db, actions, n, key);
        }
      }
    }
  }

  /** What a call that asks the cache is told, and where it goes when there is nothing. */
  function Told(r: Record, call: Call): Phase {
    Done(if r.hash == call.hash then Replayed(r.body) else Conflict)
  }

  /**
    Replay. After any run, if a response was stored under a key and neither another stored nor the key
    expired since, every call with that key that looks it up, or polls while it waits, is done: with that
    response when its body is the same, with a conflict when it is not. And the response is that of a
    committed call. When nothing is stored or it has expired, a look-up goes on and a poll waits.
   */
  lemma StoredIsReplayed(w: World, db: Db, actions: seq<Action>, j: nat)
    requires Consistent(w) && Sound(w, db)
    requires j in Run(w, Boot(db), actions).actors
    requires var p := Run(w, Boot(db), actions).actors[j].phase; p.Arrived? || p.Waiting?
    ensures var s := Run(w, Boot(db), actions);
            var call, p := s.actors[j].call, s.actors[j].phase;
            var asked := Next(w, s, if p.Arrived? then LookUp(j) else Poll(j)).actors[j].phase;
            && (forall n: nat :: LastStore(w, db, actions, n, call.key) ==>
                  var i := actions[n].i;
                  var r := Stored(Before(w, db, actions, n), i);
                  asked == Told(r, call) && Vouched(s.log, call.key, r.hash, r.body))
            && ((forall n: nat :: !LastStore(w, db, actions, n, call.key)) ==> asked == if p.Arrived? then Missed else Waiting)
  {
    var s := Run(w, Boot(db), actions);
    CacheHolds(w, db, actions, s.actors[j].call.key);
    RunKeeps(w, db, Boot(db), actions);
  }

  // ---------------------------------------------------------------- a retry that races the original

  /** The call holds a reservation it will release. */
  predicate Holds(p: Phase) {
    match p
    case Building(reserved) => reserved
    case Queued(reserved, _) => reserved
    case Inside(reserved, _) => reserved
    case Checked(reserved, _, _) => reserved
    case Committed(reserved, _) => reserved
    case Leaving(reserved, _) => reserved
    case _ => false
  }

  predicate Holder(s: System, i: nat, key: nat) {
    i in s.actors && s.actors[i].call.key == key && Holds(s.actors[i].phase)
  }

  /** A key with a holder is reserved, and has no other. */
  ghost predicate Reserved(s: System, key: nat) {
    && (forall i: nat :: Holder(s, i, key) ==> key in s.reservations)
    && (forall i: nat, j: nat :: Holder(s, i, key) && Holder(s, j, key) ==> i == j)
  }

  /** Only taking the reservation makes a holder, and only leaving unmakes one. */
  lemma HolderStep(w: World, s: System, i: nat, a: Action, key: nat)
    requires i in s.actors
    ensures var t := Step(w, s, i, a);
            && (Holder(t, i, key) && !Holder(s, i, key) ==> a.Reserve? && key !in s.reservations && key in t.reservations)
            && (Holder(t, i, key) && Holder(s, i, key) ==> t.reservations == s.reservations)
            && (key in s.reservations && key !in t.reservations ==> Holder(s, i, key) && !Holder(t, i, key))
            && (forall j :: j != i ==> (j in t.actors <==> j in s.actors) && (j in s.actors ==> t.actors[j] == s.actors[j]))
  {
  }

  lemma ReservedStep(w: World, s: System, a: Action, key: nat)
    requires Reserved(s, key) && a != ReservationExpires(key)
    ensures Reserved(Next(w, s, a), key)
  {
    var t := Next(w, s, a);
    match a
    case Arrive(i, call) =>
      assert forall j: nat :: Holder(t, j, key) ==> Holder(s, j, key);
    case CacheExpires(_) =>
      assert forall j: nat :: Holder(t, j, key) <==> Holder(s, j, key);
    case ReservationExpires(_) =>
      assert forall j: nat :: Holder(t, j, key) <==> Holder(s, j, key);
    case _ =>
      if a.i in s.actors {
        HolderStep(w, s, a.i, a, key);
        assert forall j: nat :: j != a.i ==> (Holder(t, j, key) <==> Holder(s, j, key));
      }
  }

  lemma {:induction false} RunReserved(w: World, s: System, actions: seq<Action>, key: nat)
    requires Reserved(s, key) && ReservationExpires(key) !in actions
    ensures Reserved(Run(w, s, actions), key)
    decreases |actions|
  {
    if actions != [] {
      ReservedStep(w, s, actions[0], key);
      RunReserved(w, Next(w, s, actions[0]), actions[1..], key);
    }
  }

  /**
    While no reservation of the key expires, a retry that misses the cache during the original's work does
    not start work of its own: it waits.
   */
  lemma RacingRetryWaits(w: World, db: Db, actions: seq<Action>, i: nat, j: nat, key: nat)
    requires ReservationExpires(key) !in actions
    requires var s := Run(w, Boot(db), actions);
             Holder(s, i, key) && j in s.actors && s.actors[j].call.key == key && s.actors[j].phase.Missed?
    ensures Next(w, Run(w, Boot(db), actions), Reserve(j)).actors[j].phase == Waiting
  {
    RunReserved(w, Boot(db), actions, key);
  }

  // ---------------------------------------------------------------- a call that nobody disturbs

  /** The steps of one call, one after the other. */
  function Alone(i: nat, call: Call): seq<Action> {
    [Arrive(i, call), LookUp(i), Reserve(i), Prepare(i, false), Lock(i), Check(i), Commit(i), Store(i), Release(i)]
  }

  /** The answer a submission on its own is given. */
  function AnswerOf(r: Result): Answer {
    match r case Ok(_, body) => Fresh(body) case Err(error) => Refused(error)
  }

  /** What such a call leaves. */
  predicate Served(s: System, t: System, i: nat, call: Call, r: Result) {
    && t.actors == s.actors[i := Actor(call, Done(AnswerOf(r)))]
    && t.lock.None? && t.reservations == s.reservations
    && t.db == (match r case Ok(after, _) => after case Err(_) => s.db)
    && (match r
        case Ok(_, body) => t.cache == s.cache[call.key := Record(call.hash, body)] && t.log == s.log + [Entry(i, call, body)]
        case Err(_) => t.cache == s.cache && t.log == s.log)
  }

  lemma {:induction false} RunFrom(w: World, s: System, actions: seq<Action>, n: nat)
    requires n <= |actions|
    ensures Run(w, s, actions) == Run(w, Run(w, s, actions[..n]), actions[n..])
    decreases n
  {
    if n > 0 {
      RunFrom(w, Next(w, s, actions[0]), actions[1..], n - 1);
      assert actions[1..][..n - 1] == actions[..n][1..] && actions[1..][n - 1..] == actions[n..];
    }
  }

  lemma RunThree(w: World, s: System, a: Action, b: Action, c: Action)
    ensures Run(w, s, [a, b, c]) == Next(w, Next(w, Next(w, s, a), b), c)
  {
    var t := Next(w, s, a);
    var u := Next(w, t, b);
    assert [a, b, c][1..] == [b, c] && [b, c][1..] == [c] && [c][1..] == [];
    assert Run(w, u, [c]) == Run(w, Next(w, u, c), []);
    assert Run(w, t, [b, c]) == Run(w, u, [c]);
  }

  /** Arrived, missed the cache, reserved. */
  lemma AloneOpens(w: World, s: System, i: nat, call: Call)
    requires i !in s.actors && call.key !in s.cache && call.key !in s.reservations
    ensures Run(w, s, [Arrive(i, call), LookUp(i), Reserve(i)])
         == s.(actors := s.actors[i := Actor(call, Building(true))], reservations := s.reservations + {call.key})
  {
    RunThree(w, s, Arrive(i, call), LookUp(i), Reserve(i));
    assert s.actors[i := Actor(call, Arrived)][i := Actor(call, Missed)][i := Actor(call, Building(true))]
        == s.actors[i := Actor(call, Building(true))];
  }

  /** Checked before the lock, under the lock; refused, or about to commit. */
  predicate Examined(w: World, s: System, t: System, i: nat, call: Call) {
    && t == s.(actors := t.actors, lock := t.lock, reservations := s.reservations + {call.key})
    && var r := SubmitOne(w, s.db, call.request);
       if Precheck(w, call.request).Some? || Attempted(s.db.rows, call.request.slot.id, w.today)
       then r.Err? && t.lock.None? && t.actors == s.actors[i := Actor(call, Leaving(true, Refused(r.error)))]
       else t.lock == Some(i) && t.actors == s.actors[i := Actor(call, Checked(true, None, s.db))]
  }

  lemma AloneExamined(w: World, s: System, u: System, i: nat, call: Call)
    requires Consistent(w) && s.lock.None?
    requires u == s.(actors := s.actors[i := Actor(call, Building(true))], reservations := s.reservations + {call.key})
    ensures Examined(w, s, Run(w, u, [Prepare(i, false), Lock(i), Check(i)]), i, call)
  {
    RunThree(w, u, Prepare(i, false), Lock(i), Check(i));
  }

  lemma AloneRefused(w: World, u: System, i: nat, call: Call, error: Error)
    requires i in u.actors && u.actors[i] == Actor(call, Leaving(true, Refused(error)))
    ensures Run(w, u, [Commit(i), Store(i), Release(i)])
         == Goto(u.(reservations := u.reservations - {call.key}), i, Done(Refused(error)))
  {
    RunThree(w, u, Commit(i), Store(i), Release(i));
  }

  lemma AloneCommitted(w: World, u: System, i: nat, call: Call, after: Db, body: Body)
    requires i in u.actors && u.actors[i] == Actor(call, Checked(true, None, u.db)) && Precheck(w, call.request).None?
    requires Effect(w, u.db, CompletedAt(u.db, w.today), call.request) == Ok(after, body)
    ensures Run(w, u, [Commit(i), Store(i), Release(i)])
         == Goto(u.(db := after, lock := None, log := u.log + [Entry(i, call, body)],
                    cache := u.cache[call.key := Record(call.hash, body)],
                    reservations := u.reservations - {call.key}), i, Done(Fresh(body)))
  {
    RunThree(w, u, Commit(i), Store(i), Release(i));
    var u1 := Goto(u.(db := after, lock := None, log := u.log + [Entry(i, call, body)]), i, Committed(true, body));
    assert Next(w, u, Commit(i)) == u1;
    var u2 := Goto(u1.(cache := u1.cache[call.key := Record(call.hash, body)]), i, Leaving(true, Fresh(body)));
    assert Next(w, u1, Store(i)) == u2;
  }

  lemma AloneServed(w: World, s: System, u: System, i: nat, call: Call)
    requires Consistent(w) && Sound(w, s.db) && Examined(w, s, u, i, call) && call.key !in s.reservations && s.lock.None?
    ensures Served(s, Run(w, u, [Commit(i), Store(i), Release(i)]), i, call, SubmitOne(w, s.db, call.request))
  {
    assert s.reservations + {call.key} - {call.key} == s.reservations;
    var r := SubmitOne(w, s.db, call.request);
    if Precheck(w, call.request).Some? || Attempted(s.db.rows, call.request.slot.id, w.today) {
      AloneRefused(w, u, i, call, r.error);
    } else {
      EffectSound(w, s.db, call.request);
      AloneCommitted(w, u, i, call, r.db, r.body);
    }
  }

  /**
    Wherever a run has come to, a new call that nobody disturbs, with nothing cached or reserved under its
    key and the lock free, is given the answer of a submission on its own, leaves what that leaves, stores
    its response and releases what it reserved.
   */
  lemma UndisturbedCallIsServed(w: World, db: Db, actions: seq<Action>, i: nat, call: Call)
    requires Consistent(w) && Sound(w, db)
    requires var s := Run(w, Boot(db), actions);
             i !in s.actors && s.lock.None? && call.key !in s.cache && call.key !in s.reservations
    ensures var s := Run(w, Boot(db), actions);
            Served(s, Run(w, s, Alone(i, call)), i, call, SubmitOne(w, s.db, call.request))
  {
    var s := Run(w, Boot(db), actions);
    RunKeeps(w, db, Boot(db), actions);
    var steps := Alone(i, call);
    RunFrom(w, s, steps, 3);
    assert steps[..3] == [Arrive(i, call), LookUp(i), Reserve(i)];
    AloneOpens(w, s, i, call);
    var u := Run(w, s, steps[..3]);
    RunFrom(w, u, steps[3..], 3);
    assert steps[3..][..3] == [Prepare(i, false), Lock(i), Check(i)];
    assert steps[3..][3..] == [Commit(i), Store(i), Release(i)];
    AloneExamined(w, s, u, i, call);
    AloneServed(w, s, Run(w, u, steps[3..][..3]), i, call);
  }

  // ---------------------------------------------------------------- what a submission on its own is answered

  /** A submission is accepted exactly when its slot is in the session and known, the answer has the right shape, and the exercise is not attempted today. */
  lemma AcceptedExactlyWhen(w: World, db: Db, r: Request)
    requires Consistent(w) && Sound(w, db)
    ensures SubmitOne(w, db, r).Ok? <==>
              && r.slot in w.slots && r.slot in w.catalogue && r.verdict.Some?
              && !exists k :: 0 <= k < |db.rows| && db.rows[k].exercise.id == r.slot.id && db.rows[k].date == w.today
  {
    if Precheck(w, r).None? && !Attempted(db.rows, r.slot.id, w.today) {
      EffectSound(w, db, r);
    }
  }

  /**
    What an accepted submission is told is so: its row is the one it names; a streak is told exactly when
    today's transition is this submission's, with the streak as it is now and whether it went on; nothing remains exactly when every
    slot is attempted, and a first completed session is the only one ever, completed now.
   */
  lemma AnswerTellsWhatIsSo(w: World, db: Db, r: Request)
    requires Consistent(w) && Sound(w, db) && SubmitOne(w, db, r).Ok?
    ensures var after, body := SubmitOne(w, db, r).db, SubmitOne(w, db, r).body;
            && body.attempt == |db.rows| && after.rows[body.attempt].exercise.id == r.slot.id
            && after.rows[body.attempt].status == body.status && after.rows[body.attempt].date == w.today
            && (body.streak.Some? <==> !Streak.HasTransition(db.account.ledger, w.today))
            && (body.streak.Some? ==>
                  && body.streak.value.0 == after.account.current
                  && body.streak.value.1 == if StreakOutcomes.GoesOn(w.settings, db.account, w.today) then Streak.Extended else Streak.Reset)
            && (body.remaining == 0 <==> forall k :: 0 <= k < |w.slots| ==> Attempted(after.rows, w.slots[k].id, w.today))
            && (body.firstCompleted <==> EverySlotAttempted(w, after.rows) && |after.completed| == 1)
  {
    EffectSound(w, db, r);
    TransitionInStep(w, db.account, r.now);
    EffectShape(w, db, None, r);
    if db.account.lastActive.Some? {
      StreakOutcomes.CoveredExactlyWhen(w.settings, db.account, db.account.lastActive.value, w.today, r.now);
    }
    RemainingZero(Effect(w, db, None, r).db.rows, w.slots, w.today);
  }
}
