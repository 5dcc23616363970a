/** What the send-once ledger tells of the provider, and that an uninterrupted session settles its period. */
module SendOnceProgress {
  import opened Basics
  import opened EmailDeliveries
  import opened SendOnce

  predicate Delivered(calls: seq<Call>) {
    exists i :: 0 <= i < |calls| && calls[i].delivered
  }

  /** Some mail of this body went out. */
  predicate Bodied(calls: seq<Call>, body: Wire) {
    exists i :: 0 <= i < |calls| && calls[i].delivered && WireBody(calls[i].message) == body
  }

  lemma CallsGrow(calls: seq<Call>, more: seq<Call>)
    requires calls <= more
    ensures Delivered(calls) ==> Delivered(more)
    ensures forall body :: Bodied(calls, body) ==> Bodied(more, body)
  {
    if Delivered(calls) {
      var i :| 0 <= i < |calls| && calls[i].delivered;
      assert more[i].delivered;
    }
    forall body | Bodied(calls, body) ensures Bodied(more, body) {
      var i :| 0 <= i < |calls| && calls[i].delivered && WireBody(calls[i].message) == body;
      assert more[i] == calls[i];
    }
  }

  predicate RowTruthful(s: State, k: DeliveryKey) {
    k in s.slots && s.slots[k].row.status == Sent ==> Delivered(s.slots[k].calls)
  }

  predicate WorkerTruthful(s: State, w: nat) {
    PcOf(s, w).Answered? && PcOf(s, w).ok ==> Delivered(CallsOf(s, PcOf(s, w).key))
  }

  predicate EntryTruthful(s: State, k: DeliveryKey) {
    EntryOf(s, k).Some? ==> Bodied(CallsOf(s, k), EntryOf(s, k).value.body)
  }

  /** A sent row, and a worker told of success, have a mail behind them; the provider remembers what it mailed. */
  ghost predicate Truthful(s: State) {
    && (forall k :: RowTruthful(s, k))
    && (forall w: nat :: WorkerTruthful(s, w))
    && (forall k :: WellFormed(k) ==> EntryTruthful(s, k))
  }

  /** One call more of the row posted, and of no other. */
  lemma CallsStep(p: Params, s: State, e: Event, k: DeliveryKey)
    requires Inv(p, s) && WellFormed(k)
    ensures CallsOf(s, k) <= CallsOf(Step(p, s, e), k)
  {
    if !PostsFor(s, e, k) {
      OtherEvents(p, s, e, k);
    }
  }

  /** What a provider call leaves true. */
  lemma PostTruthful(p: Params, s: State, e: Event)
    requires Inv(p, s) && Truthful(s) && e.Post? && PcOf(s, e.w).Ready? && PcOf(s, e.w).key in s.slots
    ensures var t, k := Step(p, s, e), PcOf(s, e.w).key;
            RowTruthful(t, k) && WorkerTruthful(t, e.w) && EntryTruthful(t, k)
  {
    var t, pc := Step(p, s, e), PcOf(s, e.w);
    var k, idem := pc.key, DeliveryIdempotencyKey(pc.key);
    assert WorkerOk(s, e.w) && SlotOk(p, k, s.slots[k], s.now);
    assert EntryTruthful(s, k) && t.slots[k].row == s.slots[k].row;
    var calls, more := CallsOf(s, k), CallsOf(t, k);
    CallsGrow(calls, more);
    var call := more[|calls|];
    assert WireBody(call.message) == WireBody(pc.message);
    if EntryOf(s, k).Some? {
      var i :| 0 <= i < |calls| && calls[i].delivered && WireBody(calls[i].message) == EntryOf(s, k).value.body;
      assert Delivered(calls);
    }
    if call.delivered {
      assert EntryOf(t, k) == Some(Entry(s.now, WireBody(pc.message)));
    } else {
      assert EntryOf(t, k) == EntryOf(s, k);
    }
  }

  /** A row turns to sent only when the worker that holds it was told so. */
  lemma OwnRow(p: Params, s: State, e: Event)
    requires Truthful(s) && !e.Tick? && !e.Claim? && !e.Post? && Live(s, e.w) && PcOf(s, e.w).key in s.slots
    ensures RowTruthful(WorkStep(p, s, e), PcOf(s, e.w).key)
  {
    var k := PcOf(s, e.w).key;
    assert RowTruthful(s, k) && WorkerTruthful(s, e.w);
    assert k in WorkStep(p, s, e).slots && WorkStep(p, s, e).slots[k].calls == s.slots[k].calls;
  }

  lemma ClaimedRow(p: Params, s: State, w: nat, j: DeliveryKey, k: DeliveryKey)
    requires Truthful(s)
    ensures RowTruthful(ClaimStep(p, s, w, j), k)
  {
    assert RowTruthful(s, k);
  }

  lemma RowStep(p: Params, s: State, e: Event, k: DeliveryKey)
    requires Inv(p, s) && Truthful(s)
    ensures RowTruthful(Step(p, s, e), k)
  {
    assert RowTruthful(s, k);
    if e.Claim? {
      ClaimedRow(p, s, e.w, e.key, k);
    } else if !e.Tick? && Live(s, e.w) && PcOf(s, e.w).key in s.slots {
      if k != PcOf(s, e.w).key {
        if k in s.slots { WorkElsewhere(p, s, e, k); } else { WorkElsewhere(p, s, e, PcOf(s, e.w).key); }
      } else if !e.Post? {
        OwnRow(p, s, e);
      } else if PcOf(s, e.w).Ready? {
        PostTruthful(p, s, e);
      }
    }
  }

  lemma WorkerStep(p: Params, s: State, e: Event, w: nat)
    requires Inv(p, s) && Truthful(s)
    ensures WorkerTruthful(Step(p, s, e), w)
  {
    var t := Step(p, s, e);
    assert WorkerTruthful(s, w) && WorkerOk(s, w);
    if e.Tick? || e.w != w {
      OthersStay(p, s, e, w);
      if Live(s, w) {
        var k := PcOf(s, w).key;
        assert SlotOk(p, k, s.slots[k], s.now);
        CallsStep(p, s, e, k);
        CallsGrow(CallsOf(s, k), CallsOf(t, k));
      }
    } else if !e.Claim? && Live(s, w) {
      if e.Post? && PcOf(s, w).Ready? {
        PostTruthful(p, s, e);
      }
    }
  }

  lemma EntryStep(p: Params, s: State, e: Event, k: DeliveryKey)
    requires Inv(p, s) && Truthful(s) && WellFormed(k)
    ensures EntryTruthful(Step(p, s, e), k)
  {
    if PostsFor(s, e, k) {
      PostTruthful(p, s, e);
    } else {
      OtherEvents(p, s, e, k);
      assert EntryTruthful(s, k);
    }
  }

  lemma {:induction false} RunTruthful(p: Params, s: State, es: seq<Event>)
    requires Inv(p, s) && Truthful(s)
    ensures Truthful(Exec(p, s, es))
    decreases |es|
  {
    if es != [] {
      var t := Step(p, s, es[0]);
      StepKeepsInv(p, s, es[0]);
      forall k ensures RowTruthful(t, k) { RowStep(p, s, es[0], k); }
      forall w: nat ensures WorkerTruthful(t, w) { WorkerStep(p, s, es[0], w); }
      forall k | WellFormed(k) ensures EntryTruthful(t, k) { EntryStep(p, s, es[0], k); }
      RunTruthful(p, t, es[1..]);
    }
  }

  /** In every run, a row is marked sent only when a mail of its period went out. */
  lemma SentMeansDelivered(p: Params, es: seq<Event>, k: DeliveryKey)
    requires k in Exec(p, Start, es).slots && Exec(p, Start, es).slots[k].row.status == Sent
    ensures Delivered(CallsOf(Exec(p, Start, es), k))
  {
    ReachableInv(p, []);
    RunTruthful(p, Start, es);
    assert RowTruthful(Exec(p, Start, es), k);
  }

  /** In every run the provider never sees a key again with another body: no call is refused as a conflict. */
  lemma NeverConflicts(p: Params, es: seq<Event>, w: nat)
    requires PcOf(Exec(p, Start, es), w).Ready?
    ensures var s := Exec(p, Start, es);
            var pc := PcOf(s, w);
            EntryOf(s, pc.key).Some? ==> EntryOf(s, pc.key).value.body == WireBody(pc.message)
  {
    var s := Exec(p, Start, es);
    var pc := PcOf(s, w);
    ReachableInv(p, []);
    ReachableInv(p, es);
    RunTruthful(p, Start, es);
    assert WorkerOk(s, w) && SlotOk(p, pc.key, s.slots[pc.key], s.now);
    assert EntryTruthful(s, pc.key);
    if EntryOf(s, pc.key).Some? {
      var calls := CallsOf(s, pc.key);
      var i :| 0 <= i < |calls| && calls[i].delivered && WireBody(calls[i].message) == EntryOf(s, pc.key).value.body;
      assert calls[i].message == Outgoing(pc.key, MessageFromPayload(PayloadFromMessage(pc.message)));
    }
  }

  /**
    When a claim is admitted: the period was never claimed, or its last session is on record as failed, with
    fewer claims so far than the maximum and the last of them less than a window ago.
   */
  lemma ClaimedExactlyWhen(p: Params, es: seq<Event>, w: nat, k: DeliveryKey)
    requires !Live(Exec(p, Start, es), w) && WellFormed(k)
    ensures var s := Exec(p, Start, es);
            var claims := ClaimsOf(s, k);
            Step(p, s, Claim(w, k)) != s <==>
              || k !in s.slots
              || (s.slots[k].row.status == Failed && 0 < |claims| < p.maxAttempts && s.now < claims[|claims| - 1] + p.window)
  {
    var s := Exec(p, Start, es);
    ReachableInv(p, es);
    assert k in s.slots ==> SlotOk(p, k, s.slots[k], s.now);
    assert PcOf(s, w) == Idle;
    if Claimable(RowOf(s, k), s.now, p.maxAttempts, p.window) {
      assert PcOf(Step(p, s, Claim(w, k)), w).Owned?;
    }
  }

  // ---------------------------------------------------------------- a session nobody interrupts

  /** Claim, take the stored message or the one rendered now, and stand before the provider call. */
  function Opening(s: State, w: nat, k: DeliveryKey, m: OutboundEmail): seq<Event> {
    [Claim(w, k)] + if Stored(s, k).Some? then [Load(w)] else [Build(w, Some(m)), Store(w)]
  }

  function Stored(s: State, k: DeliveryKey): Option<Payload> {
    match RowOf(s, k) case None => None case Some(r) => r.payload
  }

  /** The message that goes out: the snapshot if there is one. */
  function Message(s: State, k: DeliveryKey, m: OutboundEmail): OutboundEmail {
    match Stored(s, k) case None => m case Some(payload) => MessageFromPayload(payload)
  }

  ghost predicate Opened(p: Params, s: State, t: State, w: nat, k: DeliveryKey, m: OutboundEmail) {
    && t.now == s.now && t.provider == s.provider && k in t.slots
    && PcOf(t, w) == Ready(k, s.now, Message(s, k, m))
    && t.slots[k].row.status == Claimed && t.slots[k].row.payload == Some(PayloadFromMessage(Message(s, k, m)))
    && t.slots[k].claims == ClaimsOf(s, k) + [s.now] && t.slots[k].calls == CallsOf(s, k)
  }

  lemma OpeningOpens(p: Params, s: State, w: nat, k: DeliveryKey, m: OutboundEmail)
    requires !Live(s, w) && WellFormed(k) && Claimable(RowOf(s, k), s.now, p.maxAttempts, p.window)
    ensures Opened(p, s, Exec(p, s, Opening(s, w, k, m)), w, k, m)
  {
    var es := Opening(s, w, k, m);
    if Stored(s, k).Some? {
      ExecTwo(p, s, es);
    } else {
      ExecThree(p, s, es);
    }
  }

  /** The provider has the key on record, or takes the mail now. */
  predicate Received(p: Params, s: State, k: DeliveryKey, accepts: bool, forgets: bool) {
    Remembered(p, s, DeliveryIdempotencyKey(k), forgets) || accepts
  }

  /** The provider call and its record. */
  lemma Closing(p: Params, s: State, t: State, w: nat, k: DeliveryKey, m: OutboundEmail,
                accepts: bool, forgets: bool, confirmed: bool)
    requires Opened(p, s, t, w, k, m)
    requires EntryOf(t, k).Some? ==> EntryOf(t, k).value.body == WireBody(Message(s, k, m))
    ensures var after := Exec(p, t, [Post(w, accepts, forgets, confirmed), Record(w)]);
            var delivered := accepts && !Remembered(p, s, DeliveryIdempotencyKey(k), forgets);
            && !Live(after, w) && k in after.slots
            && after.slots[k] == Slot(
                 t.slots[k].row.(status := if confirmed && Received(p, s, k, accepts, forgets) then Sent else Failed),
                 t.slots[k].claims,
                 t.slots[k].calls + [Call(Outgoing(k, Message(s, k, m)), s.now, |t.slots[k].claims|, delivered)])
  {
    ExecTwo(p, t, [Post(w, accepts, forgets, confirmed), Record(w)]);
  }

  /**
    A session that nobody interrupts: a claimable period is claimed, the stored message or the one rendered
    now goes out under the period's key in one call, and the period ends sent exactly when the provider had
    the key on record or took the mail, and said so; else it is failed and can be retried.
   */
  lemma SessionSettles(p: Params, es: seq<Event>, w: nat, k: DeliveryKey, m: OutboundEmail,
                       accepts: bool, forgets: bool, confirmed: bool)
    requires var s := Exec(p, Start, es);
             !Live(s, w) && WellFormed(k) && Claimable(RowOf(s, k), s.now, p.maxAttempts, p.window)
    ensures var s := Exec(p, Start, es);
            var t := Exec(p, s, Opening(s, w, k, m) + [Post(w, accepts, forgets, confirmed), Record(w)]);
            var delivered := accepts && !Remembered(p, s, DeliveryIdempotencyKey(k), forgets);
            && !Live(t, w) && k in t.slots
            && t.slots[k].row.status == (if confirmed && Received(p, s, k, accepts, forgets) then Sent else Failed)
            && t.slots[k].row.payload == Some(PayloadFromMessage(Message(s, k, m)))
            && t.slots[k].claims == ClaimsOf(s, k) + [s.now]
            && t.slots[k].calls ==
               CallsOf(s, k) + [Call(Outgoing(k, Message(s, k, m)), s.now, |ClaimsOf(s, k)| + 1, delivered)]
  {
    var s := Exec(p, Start, es);
    var opening, last := Opening(s, w, k, m), [Post(w, accepts, forgets, confirmed), Record(w)];
    OpeningOpens(p, s, w, k, m);
    ExecAppend(p, Start, es, opening);
    NeverConflicts(p, es + opening, w);
    var t := Exec(p, s, opening);
    ExecAppend(p, s, opening, last);
    Closing(p, s, t, w, k, m, accepts, forgets, confirmed);
  }
}
