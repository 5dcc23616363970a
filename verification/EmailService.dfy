/**
  backend/app/email/service.py as it runs: rows are changed first, and a failed send or a refused index
  rolls the transaction back. Each method is proved equal to its specification in EmailVerification.
 */
module EmailService {
  import opened Basics
  import E = EmailVerification
  import opened EmailVerification

  class AccountStore {
    var users: map<nat, User>
    var tokens: seq<Token>

    constructor ()
      ensures State() == EMPTY
    {
      users, tokens := map[], [];
    }

    function State(): Db
      reads this
    {
      Db(users, tokens)
    }

    method InvalidateOutstanding(u: nat, now: int)
      modifies `tokens
      ensures tokens == Invalidate(old(tokens), u, now)
    {
      for i := 0 to |tokens|
        invariant |tokens| == old(|tokens|)
        invariant tokens[..i] == Invalidate(old(tokens)[..i], u, now)
        invariant tokens[i..] == old(tokens)[i..]
      {
        ghost var was := tokens;
        assert tokens[i] == old(tokens)[i];
        if tokens[i].user == u && tokens[i].consumedAt.None? && tokens[i].invalidatedAt.None? {
          tokens := tokens[i := tokens[i].(invalidatedAt := Some(now))];
        }
        assert old(tokens)[..i + 1][..i] == old(tokens)[..i];
        assert tokens[..i + 1] == was[..i] + [tokens[i]];
        assert tokens[i + 1..] == old(tokens)[i + 1..] by {
          assert tokens[i + 1..] == was[i..][1..];
        }
      }
      assert old(tokens)[..|tokens|] == old(tokens);
      assert tokens[..|tokens|] == tokens;
    }

    /** false: the send failed or the digest was there already, and the transaction is rolled back. */
    method IssueAndSend(u: nat, email: Address, c: Circumstance) returns (sent: bool)
      requires u in users
      modifies this
      ensures match Issue(old(State()), u, email, c)
              case Some(after) => sent && State() == after
              case None => !sent && State() == old(State())
    {
      var savedUsers, savedTokens := users, tokens;
      InvalidateOutstanding(u, c.now);
      InvalidateDigests(old(tokens), u, c.now, c.digest);
      if DigestTaken(tokens, c.digest) {
        tokens := savedTokens;
        return false;
      }
      tokens := tokens + [Token(u, email, c.digest, c.now + c.ttl, None, None)];
      users := users[u := users[u].(pending := Some(email))];
      if !c.sent {
        users, tokens := savedUsers, savedTokens;
        return false;
      }
      return true;
    }

    method RequestEmail(u: nat, email: Address, c: Circumstance) returns (failure: Option<Failure>)
      modifies this
      ensures match E.RequestEmail(old(State()), u, email, c)
              case Done(after) => failure.None? && State() == after
              case Refused(f) => failure == Some(f) && State() == old(State())
    {
      if u !in users || users[u].deleted {
        return Some(InvalidUser);
      }
      if users[u].email == Some(email) {
        return Some(AlreadyVerified);
      }
      if c.throttled {
        return Some(RateLimited);
      }
      var sent := IssueAndSend(u, email, c);
      return if sent then None else Some(SendFailed);
    }

    method ResendVerification(u: nat, c: Circumstance) returns (failure: Option<Failure>)
      modifies this
      ensures match E.Resend(old(State()), u, c)
              case Done(after) => failure.None? && State() == after
              case Refused(f) => failure == Some(f) && State() == old(State())
    {
      if u !in users || users[u].deleted {
        return Some(InvalidUser);
      }
      match users[u].pending {
        case None => return Some(NoPending);
        case Some(email) =>
          if c.throttled {
            return Some(RateLimited);
          }
          var sent := IssueAndSend(u, email, c);
          return if sent then None else Some(SendFailed);
      }
    }

    /** The flush after the rows are changed is where the unique index speaks; then all of it is undone. */
    method VerifyEmail(u: nat, digest: nat, now: int) returns (failure: Option<Failure>)
      modifies this
      ensures match E.Verify(old(State()), u, digest, now)
              case Done(after) => failure.None? && State() == after
              case Refused(f) => failure == Some(f) && State() == old(State())
    {
      FindIs(tokens, digest);
      match Find(tokens, digest) {
        case None => return Some(VerificationFailed);
        case Some(i) =>
          var row := tokens[i];
          if row.consumedAt.Some? || row.invalidatedAt.Some? {
            return Some(VerificationFailed);
          }
          if row.expiresAt <= now || row.user != u {
            return Some(VerificationFailed);
          }
          if u !in users || users[u].deleted {
            return Some(InvalidUser);
          }
          var savedUsers, savedTokens := users, tokens;
          tokens := tokens[i := row.(consumedAt := Some(now))];
          InvalidateOutstanding(u, now);
          users := users[u := users[u].(email := Some(row.email), verifiedAt := Some(now), pending := None)];
          TakenElsewhere(savedUsers, users, u, row.email);
          if AddressTaken(users, u, row.email) {
            users, tokens := savedUsers, savedTokens;
            return Some(VerificationFailed);
          }
          return None;
      }
    }

    method DeleteEmail(u: nat, now: int) returns (failure: Option<Failure>)
      modifies this
      ensures match E.Delete(old(State()), u, now)
              case Done(after) => failure.None? && State() == after
              case Refused(f) => failure == Some(f) && State() == old(State())
    {
      if u !in users || users[u].deleted {
        return Some(InvalidUser);
      }
      InvalidateOutstanding(u, now);
      users := users[u := users[u].(email := None, verifiedAt := None, pending := None)];
      return None;
    }
  }

  lemma InvalidateDigests(tokens: seq<Token>, u: nat, now: int, digest: nat)
    ensures DigestTaken(Invalidate(tokens, u, now), digest) <==> DigestTaken(tokens, digest)
  {
    var stamped := Invalidate(tokens, u, now);
    assert forall i :: 0 <= i < |tokens| ==> stamped[i].digest == tokens[i].digest;
  }

  /** Only the other accounts matter to the index. */
  lemma TakenElsewhere(before: map<nat, User>, after: map<nat, User>, u: nat, email: Address)
    requires u in before && u in after && after == before[u := after[u]]
    ensures AddressTaken(after, u, email) <==> AddressTaken(before, u, email)
  {
    forall v | v in before && v != u ensures v in after && after[v] == before[v] {
    }
  }
}
