/** When each operation of backend/app/email/service.py is accepted, and what it then leaves. */
module EmailOutcomes {
  import opened Basics
  import opened EmailVerification

  predicate DistinctDigests(tokens: seq<Token>) {
    forall i, j :: 0 <= i < j < |tokens| ==> tokens[i].digest != tokens[j].digest
  }

  /** Digests never change, and a new token's is new. */
  lemma ApplyDigests(db: Db, op: Op)
    requires DistinctDigests(db.tokens)
    ensures DistinctDigests(Apply(db, op).tokens)
  {
    match op
    case DoVerify(u, digest, now) => FindIs(db.tokens, digest);
    case _ =>
  }

  lemma {:induction false} ExecDigests(db: Db, ops: seq<Op>)
    requires DistinctDigests(db.tokens)
    ensures DistinctDigests(Exec(db, ops).tokens)
    decreases |ops|
  {
    if ops != [] {
      ApplyDigests(db, ops[0]);
      ExecDigests(Apply(db, ops[0]), ops[1..]);
    }
  }

  /** The link can be used by this user now: its token is the user's own, outstanding and unexpired. */
  predicate Usable(t: Token, u: nat, digest: nat, now: int) {
    t.digest == digest && t.user == u && t.consumedAt.None? && t.invalidatedAt.None? && now < t.expiresAt
  }

  /** Another account that is not deleted has verified this address. */
  predicate HeldByOther(db: Db, u: nat, email: Address) {
    exists v :: v in db.users && v != u && !db.users[v].deleted && db.users[v].verifiedAt.Some? && db.users[v].email == Some(email)
  }

  /** Only u's account changed, and every token of u but those from n on is dead. */
  predicate OnlyOf(db: Db, after: Db, u: nat, n: nat) {
    && after.users.Keys == db.users.Keys && |db.tokens| <= |after.tokens|
    && (forall v :: v in db.users && v != u ==> after.users[v] == db.users[v])
    && (forall i :: 0 <= i < |db.tokens| && db.tokens[i].user != u ==> after.tokens[i] == db.tokens[i])
    && (forall i :: 0 <= i < |after.tokens| && i < n && after.tokens[i].user == u ==> !Live(after.tokens[i]))
  }

  /**
    A link is accepted exactly when the account is active, the link can be used by it now, and no other
    account holds the address; and then the address is the account's, verified now, nothing is pending, that
    token is consumed, and no token of the account is left outstanding.
   */
  lemma VerifyAcceptedExactlyWhen(ops: seq<Op>, u: nat, digest: nat, now: int)
    ensures var db := Exec(EMPTY, ops);
            Verify(db, u, digest, now).Done? <==>
              && Active(db, u)
              && exists i :: 0 <= i < |db.tokens| && Usable(db.tokens[i], u, digest, now) && !HeldByOther(db, u, db.tokens[i].email)
    ensures var db := Exec(EMPTY, ops);
            forall i :: 0 <= i < |db.tokens| && Verify(db, u, digest, now).Done? && Usable(db.tokens[i], u, digest, now) ==>
              var after := Verify(db, u, digest, now).db;
              && after.users[u] == db.users[u].(email := Some(db.tokens[i].email), verifiedAt := Some(now), pending := None)
              && OnlyOf(db, after, u, |after.tokens|) && after.tokens[i].consumedAt == Some(now)
  {
    var db := Exec(EMPTY, ops);
    ExecDigests(EMPTY, ops);
    FindIs(db.tokens, digest);
    forall i | 0 <= i < |db.tokens| && db.tokens[i].digest == digest ensures Find(db.tokens, digest) == Some(i) {
      FoundIsIt(db.tokens, digest, i);
    }
  }

  lemma FoundIsIt(tokens: seq<Token>, digest: nat, i: nat)
    requires DistinctDigests(tokens) && i < |tokens| && tokens[i].digest == digest
    ensures Find(tokens, digest) == Some(i)
  {
    FindIs(tokens, digest);
    var k := Find(tokens, digest).value;
    assert tokens[k].digest == tokens[i].digest;
  }

  /** The new token is the account's, for this address, and the only one outstanding. */
  predicate Issued(db: Db, after: Db, u: nat, email: Address, c: Circumstance)
    requires u in db.users
  {
    && OnlyOf(db, after, u, |db.tokens|) && after.users[u] == db.users[u].(pending := Some(email))
    && |after.tokens| == |db.tokens| + 1
    && after.tokens[|db.tokens|] == Token(u, email, c.digest, c.now + c.ttl, None, None)
  }

  /** What has to go well besides the request itself: the throttle, the mail, and a digest that is new. */
  predicate GoesWell(db: Db, c: Circumstance) {
    !c.throttled && c.sent && forall i :: 0 <= i < |db.tokens| ==> db.tokens[i].digest != c.digest
  }

  /** A request is accepted exactly when the account is active, the address is not its own already, and all goes well. */
  lemma RequestAcceptedExactlyWhen(db: Db, u: nat, email: Address, c: Circumstance)
    ensures RequestEmail(db, u, email, c).Done? <==>
              && u in db.users && !db.users[u].deleted && db.users[u].email != Some(email) && GoesWell(db, c)
    ensures RequestEmail(db, u, email, c).Done? ==> Issued(db, RequestEmail(db, u, email, c).db, u, email, c)
  {
  }

  /** A resend is accepted exactly when the account is active, an address is pending, and all goes well; and it is for that address. */
  lemma ResendAcceptedExactlyWhen(db: Db, u: nat, c: Circumstance)
    ensures Resend(db, u, c).Done? <==>
              && u in db.users && !db.users[u].deleted && db.users[u].pending.Some? && GoesWell(db, c)
    ensures Resend(db, u, c).Done? ==> Issued(db, Resend(db, u, c).db, u, db.users[u].pending.value, c)
  {
  }

  /** A delete is accepted for every active account, and leaves it no address and no outstanding token. */
  lemma DeleteAcceptedExactlyWhen(db: Db, u: nat, now: int)
    ensures Delete(db, u, now).Done? <==> u in db.users && !db.users[u].deleted
    ensures Delete(db, u, now).Done? ==>
              var after := Delete(db, u, now).db;
              && OnlyOf(db, after, u, |after.tokens|) && |after.tokens| == |db.tokens|
              && after.users[u] == db.users[u].(email := None, verifiedAt := None, pending := None)
  {
  }

  /**
    The whole way: an active account asks for an address no other account holds, the mail goes out, and the
    link used before it expires makes the address the account's own.
   */
  lemma AddressCanBeProved(ops: seq<Op>, u: nat, email: Address, c: Circumstance, now: int)
    requires var db := Exec(EMPTY, ops);
             && Active(db, u) && db.users[u].email != Some(email) && GoesWell(db, c) && !HeldByOther(db, u, email)
    requires now < c.now + c.ttl
    ensures var asked := RequestEmail(Exec(EMPTY, ops), u, email, c).db;
            && Verify(asked, u, c.digest, now).Done?
            && Verify(asked, u, c.digest, now).db.users[u].email == Some(email)
  {
    var db := Exec(EMPTY, ops);
    RequestAcceptedExactlyWhen(db, u, email, c);
    var asked := RequestEmail(db, u, email, c).db;
    ExecDigests(EMPTY, ops);
    ApplyDigests(db, DoRequest(u, email, c));
    FoundIsIt(asked.tokens, c.digest, |db.tokens|);
  }
}
