/**
  Email capture and verification (backend/app/email/service.py) with the partial unique index of
  backend/alembic/versions/0009_user_email.py. Addresses are normalised; a token is known by its digest.
 */
module EmailVerification {
  import opened Basics

  type Address = string

  datatype User = User(email: Option<Address>, verifiedAt: Option<int>, pending: Option<Address>, deleted: bool)

  datatype Token = Token(user: nat, email: Address, digest: nat, expiresAt: int,
                         consumedAt: Option<int>, invalidatedAt: Option<int>)

  datatype Db = Db(users: map<nat, User>, tokens: seq<Token>)

  datatype Failure = InvalidUser | AlreadyVerified | NoPending | RateLimited | SendFailed | VerificationFailed

  /** What happens to a request besides its own logic: the throttle, the mail provider and the new token. */
  datatype Circumstance = Circumstance(throttled: bool, sent: bool, digest: nat, now: int, ttl: nat)

  // ---------------------------------------------------------------- the operations

  predicate Active(db: Db, u: nat) {
    u in db.users && !db.users[u].deleted
  }

  predicate Live(t: Token) {
    t.consumedAt.None? && t.invalidatedAt.None?
  }

  /** _invalidate_outstanding */
  function Invalidate(tokens: seq<Token>, u: nat, now: int): (r: seq<Token>)
    ensures |r| == |tokens|
    ensures forall i :: 0 <= i < |r| ==>
              r[i] == if tokens[i].user == u && Live(tokens[i]) then tokens[i].(invalidatedAt := Some(now)) else tokens[i]
  {
    if tokens == [] then []
    else
      var t := tokens[|tokens| - 1];
      Invalidate(tokens[..|tokens| - 1], u, now)
      + [if t.user == u && Live(t) then t.(invalidatedAt := Some(now)) else t]
  }

  predicate DigestTaken(tokens: seq<Token>, digest: nat) {
    exists i :: 0 <= i < |tokens| && tokens[i].digest == digest
  }

  /** _issue_and_send, and the commit; a failed send, or a digest already there, rolls everything back. */
  function Issue(db: Db, u: nat, email: Address, c: Circumstance): Option<Db>
    requires u in db.users
  {
    if !c.sent || DigestTaken(db.tokens, c.digest) then None
    else Some(Db(db.users[u := db.users[u].(pending := Some(email))],
                 Invalidate(db.tokens, u, c.now) + [Token(u, email, c.digest, c.now + c.ttl, None, None)]))
  }

  datatype Result = Done(db: Db) | Refused(failure: Failure)

  function RequestEmail(db: Db, u: nat, email: Address, c: Circumstance): Result {
    if !Active(db, u) then Refused(InvalidUser)
    else if db.users[u].email == Some(email) then Refused(AlreadyVerified)
    else if c.throttled then Refused(RateLimited)
    else match Issue(db, u, email, c) case Some(after) => Done(after) case None => Refused(SendFailed)
  }

  function Resend(db: Db, u: nat, c: Circumstance): Result {
    if !Active(db, u) then Refused(InvalidUser)
    else if db.users[u].pending.None? then Refused(NoPending)
    else if c.throttled then Refused(RateLimited)
    else match Issue(db, u, db.users[u].pending.value, c) case Some(after) => Done(after) case None => Refused(SendFailed)
  }

  /** The row a presented token's digest finds. */
  function Find(tokens: seq<Token>, digest: nat): Option<nat> {
    if tokens == [] then None
    else if tokens[|tokens| - 1].digest == digest then Some(|tokens| - 1)
    else Find(tokens[..|tokens| - 1], digest)
  }

  /** The unique index over verified addresses of accounts that are not deleted. */
  predicate AddressTaken(users: map<nat, User>, u: nat, email: Address) {
    exists v :: v in users && v != u && !users[v].deleted && users[v].verifiedAt.Some? && users[v].email == Some(email)
  }

  function Consume(tokens: seq<Token>, i: nat, now: int): seq<Token>
    requires i < |tokens|
  {
    tokens[i := tokens[i].(consumedAt := Some(now))]
  }

  function Promote(db: Db, u: nat, i: nat, now: int): Db
    requires u in db.users && i < |db.tokens|
  {
    Db(db.users[u := db.users[u].(email := Some(db.tokens[i].email), verifiedAt := Some(now), pending := None)],
       Invalidate(Consume(db.tokens, i, now), u, now))
  }

  /** verify_email: one failure for every reason. */
  function Verify(db: Db, u: nat, digest: nat, now: int): Result {
    match Find(db.tokens, digest)
    case None => Refused(VerificationFailed)
    case Some(i) =>
      FindIs(db.tokens, digest);
      var row := db.tokens[i];
      if !Live(row) || row.expiresAt <= now || row.user != u then Refused(VerificationFailed)
      else if !Active(db, u) then Refused(InvalidUser)
      else if AddressTaken(db.users, u, row.email) then Refused(VerificationFailed)
      else Done(Promote(db, u, i, now))
  }

  function Delete(db: Db, u: nat, now: int): Result {
    if !Active(db, u) then Refused(InvalidUser)
    else Done(Db(db.users[u := db.users[u].(email := None, verifiedAt := None, pending := None)],
                 Invalidate(db.tokens, u, now)))
  }

  datatype Op =
    | Register(u: nat)
    | Close(u: nat)
    | DoRequest(u: nat, email: Address, c: Circumstance)
    | DoResend(u: nat, c: Circumstance)
    | DoVerify(u: nat, digest: nat, now: int)
    | DoDelete(u: nat, now: int)

  function Outcome(db: Db, r: Result): Db {
    match r case Done(after) => after case Refused(_) => db
  }

  function Apply(db: Db, op: Op): Db {
    match op
    case Register(u) => if u in db.users then db else db.(users := db.users[u := User(None, None, None, false)])
    case Close(u) => if u in db.users then db.(users := db.users[u := db.users[u].(deleted := true)]) else db
    case DoRequest(u, email, c) => Outcome(db, RequestEmail(db, u, email, c))
    case DoResend(u, c) => Outcome(db, Resend(db, u, c))
    case DoVerify(u, digest, now) => Outcome(db, Verify(db, u, digest, now))
    case DoDelete(u, now) => Outcome(db, Delete(db, u, now))
  }

  function Exec(db: Db, ops: seq<Op>): Db
    decreases |ops|
  {
    if ops == [] then db else Exec(Apply(db, ops[0]), ops[1..])
  }

  const EMPTY := Db(map[], [])

  lemma {:induction false} FindIs(tokens: seq<Token>, digest: nat)
    ensures match Find(tokens, digest)
            case None => !DigestTaken(tokens, digest)
            case Some(i) => i < |tokens| && tokens[i].digest == digest
  {
    if tokens != [] {
      FindIs(tokens[..|tokens| - 1], digest);
    }
  }

  // ---------------------------------------------------------------- the invariant

  /** An outstanding token stands for the address now pending, and a user has at most one. */
  predicate Outstanding(db: Db) {
    && (forall i :: 0 <= i < |db.tokens| && Live(db.tokens[i]) ==>
          db.tokens[i].user in db.users && db.users[db.tokens[i].user].pending == Some(db.tokens[i].email))
    && (forall i, j :: 0 <= i < j < |db.tokens| && Live(db.tokens[i]) && Live(db.tokens[j]) ==>
          db.tokens[i].user != db.tokens[j].user)
  }

  /** A token of this user, issued at or after position n, was consumed for this address. */
  predicate Proved(tokens: seq<Token>, u: nat, email: Address, n: nat) {
    exists i :: n <= i < |tokens| && tokens[i].user == u && tokens[i].email == email && tokens[i].consumedAt.Some?
  }

  predicate Provenance(db: Db) {
    forall u :: u in db.users ==>
      && (db.users[u].email.Some? <==> db.users[u].verifiedAt.Some?)
      && (db.users[u].email.Some? ==> Proved(db.tokens, u, db.users[u].email.value, 0))
  }

  predicate UniqueAddresses(users: map<nat, User>) {
    forall u, v :: u in users && v in users && u != v && !users[u].deleted && !users[v].deleted && users[u].email.Some? ==>
      users[u].email != users[v].email
  }

  predicate Inv(db: Db) {
    Outstanding(db) && Provenance(db) && UniqueAddresses(db.users)
  }

  /** Tokens only ever gain stamps. */
  predicate Stamped(tokens: seq<Token>, later: seq<Token>) {
    && |tokens| <= |later|
    && forall i :: 0 <= i < |tokens| ==>
         && later[i].user == tokens[i].user && later[i].email == tokens[i].email
         && (tokens[i].consumedAt.Some? ==> later[i].consumedAt.Some?)
         && (!Live(tokens[i]) ==> !Live(later[i]) && later[i].consumedAt == tokens[i].consumedAt)
  }

  lemma ProvedLater(tokens: seq<Token>, later: seq<Token>, u: nat, email: Address, n: nat)
    requires Stamped(tokens, later) && Proved(tokens, u, email, n)
    ensures Proved(later, u, email, n)
  {
    var i :| n <= i < |tokens| && tokens[i].user == u && tokens[i].email == email && tokens[i].consumedAt.Some?;
    assert later[i].user == u;
  }

  lemma ProvenanceLater(db: Db, users: map<nat, User>, tokens: seq<Token>)
    requires Provenance(db) && Stamped(db.tokens, tokens)
    requires forall v :: v in users ==>
               || (v in db.users && users[v].email == db.users[v].email && users[v].verifiedAt == db.users[v].verifiedAt)
               || (users[v].email.None? && users[v].verifiedAt.None?)
    ensures Provenance(Db(users, tokens))
  {
    forall v | v in users && users[v].email.Some? ensures Proved(tokens, v, users[v].email.value, 0) {
      ProvedLater(db.tokens, tokens, v, users[v].email.value, 0);
    }
  }

  lemma IssueKeeps(db: Db, u: nat, email: Address, c: Circumstance)
    requires Inv(db) && u in db.users && Issue(db, u, email, c).Some?
    ensures Inv(Issue(db, u, email, c).value) && Stamped(db.tokens, Issue(db, u, email, c).value.tokens)
  {
    var after := Issue(db, u, email, c).value;
    ProvenanceLater(db, after.users, after.tokens);
  }

  lemma DeleteKeeps(db: Db, u: nat, now: int)
    requires Inv(db) && Active(db, u)
    ensures Inv(Delete(db, u, now).db) && Stamped(db.tokens, Delete(db, u, now).db.tokens)
  {
    var after := Delete(db, u, now).db;
    ProvenanceLater(db, after.users, after.tokens);
  }

  lemma PromoteKeeps(db: Db, u: nat, i: nat, now: int)
    requires Inv(db) && u in db.users && i < |db.tokens| && Live(db.tokens[i]) && db.tokens[i].user == u
    requires !AddressTaken(db.users, u, db.tokens[i].email)
    ensures Inv(Promote(db, u, i, now)) && Stamped(db.tokens, Promote(db, u, i, now).tokens)
  {
    var after := Promote(db, u, i, now);
    PromoteTokens(db, u, i, now);
    PromoteUnique(db, u, i, now);
    forall v | v in after.users && after.users[v].email.Some? ensures Proved(after.tokens, v, after.users[v].email.value, 0) {
      if v == u {
        assert after.tokens[i].consumedAt.Some?;
      } else {
        ProvedLater(db.tokens, after.tokens, v, after.users[v].email.value, 0);
      }
    }
  }

  lemma PromoteTokens(db: Db, u: nat, i: nat, now: int)
    requires Outstanding(db) && u in db.users && i < |db.tokens| && Live(db.tokens[i]) && db.tokens[i].user == u
    ensures var after := Promote(db, u, i, now);
            && Stamped(db.tokens, after.tokens) && Outstanding(after)
            && after.tokens[i] == db.tokens[i].(consumedAt := Some(now))
  {
    var after := Promote(db, u, i, now);
    assert forall j :: 0 <= j < |after.tokens| && Live(after.tokens[j]) ==>
             after.tokens[j] == db.tokens[j] && db.tokens[j].user != u;
  }

  lemma PromoteUnique(db: Db, u: nat, i: nat, now: int)
    requires Provenance(db) && UniqueAddresses(db.users)
    requires u in db.users && i < |db.tokens| && !AddressTaken(db.users, u, db.tokens[i].email)
    ensures UniqueAddresses(Promote(db, u, i, now).users)
  {
    var users := Promote(db, u, i, now).users;
    assert forall v :: v in users && v != u && !users[v].deleted && users[v].email.Some? ==>
             users[v].email != users[u].email;
  }

  lemma AccountKeeps(db: Db, users: map<nat, User>)
    requires Inv(db) && forall v :: v in db.users ==> v in users
    requires forall v :: v in users ==>
               if v in db.users then users[v] == db.users[v] || users[v] == db.users[v].(deleted := true)
               else users[v] == User(None, None, None, false)
    ensures Inv(db.(users := users))
  {
    ProvenanceLater(db, users, db.tokens);
  }

  lemma VerifyKeeps(db: Db, u: nat, digest: nat, now: int)
    requires Inv(db) && Verify(db, u, digest, now).Done?
    ensures var after := Verify(db, u, digest, now).db; Inv(after) && Stamped(db.tokens, after.tokens)
  {
    FindIs(db.tokens, digest);
    PromoteKeeps(db, u, Find(db.tokens, digest).value, now);
  }

  lemma ApplyKeeps(db: Db, op: Op)
    requires Inv(db)
    ensures Inv(Apply(db, op)) && Stamped(db.tokens, Apply(db, op).tokens)
  {
    match op
    case Register(u) => AccountKeeps(db, Apply(db, op).users);
    case Close(u) => AccountKeeps(db, Apply(db, op).users);
    case DoRequest(u, email, c) =>
      if RequestEmail(db, u, email, c).Done? { IssueKeeps(db, u, email, c); }
    case DoResend(u, c) =>
      if Resend(db, u, c).Done? { IssueKeeps(db, u, db.users[u].pending.value, c); }
    case DoVerify(u, digest, now) =>
      if Verify(db, u, digest, now).Done? { VerifyKeeps(db, u, digest, now); }
    case DoDelete(u, now) =>
      if Active(db, u) { DeleteKeeps(db, u, now); }
  }

  lemma StampedOn(a: seq<Token>, b: seq<Token>, c: seq<Token>)
    requires Stamped(a, b) && Stamped(b, c)
    ensures Stamped(a, c)
  {
  }

  lemma {:induction false} ExecKeeps(db: Db, ops: seq<Op>)
    requires Inv(db)
    ensures Inv(Exec(db, ops)) && Stamped(db.tokens, Exec(db, ops).tokens)
    decreases |ops|
  {
    if ops != [] {
      ApplyKeeps(db, ops[0]);
      ExecKeeps(Apply(db, ops[0]), ops[1..]);
      StampedOn(db.tokens, Apply(db, ops[0]).tokens, Exec(db, ops).tokens);
    }
  }

  // ---------------------------------------------------------------- the theorems

  /**
    In every sequential run: a user has at most one outstanding token, and it is for the pending address;
    an address is set exactly when it is verified, and then a token of that very user for that very address
    was consumed; and no two accounts that are not deleted hold the same address.
   */
  lemma EmailSafety(ops: seq<Op>)
    ensures Inv(Exec(EMPTY, ops))
  {
    ExecKeeps(EMPTY, ops);
  }

  /** A verification that succeeds promotes the address that was pending, by the account's own unexpired outstanding token. */
  lemma VerifyPromotesPending(ops: seq<Op>, u: nat, digest: nat, now: int)
    requires Verify(Exec(EMPTY, ops), u, digest, now).Done?
    ensures var db, after := Exec(EMPTY, ops), Verify(Exec(EMPTY, ops), u, digest, now).db;
            && db.users[u].pending.Some? && after.users[u].email == db.users[u].pending
            && after.users[u].pending.None?
            && (exists i :: 0 <= i < |db.tokens| && db.tokens[i].digest == digest && db.tokens[i].user == u
                            && Live(db.tokens[i]) && now < db.tokens[i].expiresAt)
            && forall v :: v in after.users && v != u ==> v in db.users && after.users[v] == db.users[v]
  {
    EmailSafety(ops);
    FindIs(Exec(EMPTY, ops).tokens, digest);
  }

  /** Everything this user was issued before position n is dead, and any address held now was proved since. */
  predicate Withdrawn(db: Db, u: nat, n: nat) {
    && u in db.users && n <= |db.tokens|
    && (forall i :: 0 <= i < n && db.tokens[i].user == u ==> !Live(db.tokens[i]))
    && (db.users[u].email.Some? ==> Proved(db.tokens, u, db.users[u].email.value, n))
  }

  lemma ApplyWithdrawn(db: Db, op: Op, u: nat, n: nat)
    requires Inv(db) && Withdrawn(db, u, n)
    ensures Withdrawn(Apply(db, op), u, n)
  {
    ApplyKeeps(db, op);
    var after := Apply(db, op);
    if op.DoVerify? && op.u == u && Verify(db, u, op.digest, op.now).Done? {
      FindIs(db.tokens, op.digest);
      var i := Find(db.tokens, op.digest).value;
      PromoteTokens(db, u, i, op.now);
      assert after.tokens[i].consumedAt.Some?;
    } else if after.users[u].email.Some? {
      assert after.users[u].email == db.users[u].email;
      ProvedLater(db.tokens, after.tokens, u, after.users[u].email.value, n);
    }
  }

  lemma {:induction false} ExecWithdrawn(db: Db, ops: seq<Op>, u: nat, n: nat)
    requires Inv(db) && Withdrawn(db, u, n)
    ensures Withdrawn(Exec(db, ops), u, n)
    decreases |ops|
  {
    if ops != [] {
      ApplyKeeps(db, ops[0]);
      ApplyWithdrawn(db, ops[0], u, n);
      ExecWithdrawn(Apply(db, ops[0]), ops[1..], u, n);
    }
  }

  /**
    No link sent before a delete can put an address back: whatever follows, an address the user holds was
    proved by a token issued after the delete.
   */
  lemma DeleteIsFinal(before: seq<Op>, u: nat, now: int, after: seq<Op>)
    requires Active(Exec(EMPTY, before), u)
    ensures var deleted := Delete(Exec(EMPTY, before), u, now).db;
            var db := Exec(deleted, after);
            && u in db.users
            && (db.users[u].email.Some? ==> Proved(db.tokens, u, db.users[u].email.value, |deleted.tokens|))
  {
    EmailSafety(before);
    var db := Exec(EMPTY, before);
    DeleteKeeps(db, u, now);
    ExecWithdrawn(Delete(db, u, now).db, after, u, |db.tokens|);
  }
}
