/**
  The send-once ledger of backend/app/email/deliveries.py and the payload snapshot of
  backend/app/email/dispatch.py. Times are microsecond ticks, the resolution of timestamptz.
 */
module EmailDeliveries {
  import opened Basics

  datatype OutboundEmail = OutboundEmail(
    to: string, subject: string, text: string, html: string,
    devLink: Option<string>, idempotencyKey: Option<string>, headers: map<string, string>)

  /** The JSON document in email_deliveries.payload. */
  datatype Payload = Payload(
    to: string, subject: string, text: string, html: string,
    headers: map<string, string>, devLink: Option<string>)

  function PayloadFromMessage(m: OutboundEmail): Payload {
    Payload(m.to, m.subject, m.text, m.html, m.headers, m.devLink)
  }

  function MessageFromPayload(p: Payload): (m: OutboundEmail)
    ensures PayloadFromMessage(m) == p && m.idempotencyKey == None
  {
    OutboundEmail(p.to, p.subject, p.text, p.html, p.devLink, None, p.headers)
  }

  datatype DeliveryKey = DeliveryKey(kind: string, userId: string, periodKey: string)

  /** Kinds are 'reminder' or 'recap' and user ids are UUIDs, so neither holds a colon. */
  predicate WellFormed(k: DeliveryKey) {
    ':' !in k.kind && ':' !in k.userId
  }

  function DeliveryIdempotencyKey(k: DeliveryKey): string {
    k.kind + ":" + k.userId + ":" + k.periodKey
  }

  function FirstColon(s: string): (i: nat)
    ensures i <= |s|
  {
    if s == [] || s[0] == ':' then 0 else 1 + FirstColon(s[1..])
  }

  lemma {:induction false} FirstColonAfter(a: string, x: string)
    requires ':' !in a
    ensures FirstColon(a + ":" + x) == |a|
    ensures (a + ":" + x)[..|a|] == a && (a + ":" + x)[|a| + 1..] == x
  {
    if a != [] {
      assert (a + ":" + x)[1..] == a[1..] + ":" + x;
      FirstColonAfter(a[1..], x);
    }
  }

  /** Two ledger rows never share a provider key, so the provider cannot swallow one mail for another. */
  lemma IdempotencyKeyInjective(j: DeliveryKey, k: DeliveryKey)
    requires WellFormed(j) && WellFormed(k)
    requires DeliveryIdempotencyKey(j) == DeliveryIdempotencyKey(k)
    ensures j == k
  {
    var j', k' := j.userId + ":" + j.periodKey, k.userId + ":" + k.periodKey;
    assert j.kind + ":" + j' == DeliveryIdempotencyKey(j);
    assert k.kind + ":" + k' == DeliveryIdempotencyKey(k);
    FirstColonAfter(j.kind, j');
    FirstColonAfter(k.kind, k');
    FirstColonAfter(j.userId, j.periodKey);
    FirstColonAfter(k.userId, k.periodKey);
  }

  datatype Status = Claimed | Sent | Failed | Skipped

  datatype Row = Row(status: Status, attempts: nat, claimedAt: int, payload: Option<Payload>)

  /** The WHERE clause of the upsert in claim_period, for a row that is already there. */
  predicate Retryable(r: Row, now: int, maxAttempts: nat, window: nat) {
    r.status == Failed && r.attempts < maxAttempts && r.claimedAt > now - window
  }

  /** The upsert returns a row: there was none, or its WHERE clause holds. */
  predicate Claimable(row: Option<Row>, now: int, maxAttempts: nat, window: nat) {
    row.Some? ==> Retryable(row.value, now, maxAttempts, window)
  }

  /** The row the upsert leaves when it returns one. */
  function ClaimRow(row: Option<Row>, now: int): Row {
    match row
    case None => Row(Claimed, 1, now, None)
    case Some(r) => r.(status := Claimed, attempts := r.attempts + 1, claimedAt := now)
  }
}
