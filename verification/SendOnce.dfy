/**
  Any number of sweep workers, the ledger and the provider as one transition system
  (backend/app/email/dispatch.py, run_sweep). Each database transaction and each provider call is
  one event; a worker may crash between any two of them. An event that is not enabled changes
  nothing, so a run is any sequence of events.
 */
module SendOnce {
  import opened Basics
  import opened EmailDeliveries

  /** retention: the provider replays a key for calls made before first-acceptance + retention. */
  datatype Params = Params(maxAttempts: nat, window: nat, retention: nat)

  /** Where a worker stands with the row it claimed at time `at`. */
  datatype Pc =
    | Idle
    | Owned(key: DeliveryKey, at: int)
    | Empty(key: DeliveryKey, at: int)
    | Built(key: DeliveryKey, at: int, message: OutboundEmail)
    | Ready(key: DeliveryKey, at: int, message: OutboundEmail)
    | Answered(key: DeliveryKey, at: int, ok: bool)

  /** What the provider receives: everything but the development link. */
  datatype Wire = Wire(to: string, subject: string, text: string, html: string, headers: map<string, string>)

  function WireBody(m: OutboundEmail): Wire {
    Wire(m.to, m.subject, m.text, m.html, m.headers)
  }

  datatype Entry = Entry(at: int, body: Wire)

  /** A provider call: the message presented, when, for which claim, and whether a mail went out. */
  datatype Call = Call(message: OutboundEmail, at: int, attempt: nat, delivered: bool)

  /** A ledger row together with all that was observed of it: its claims and its provider calls. */
  datatype Slot = Slot(row: Row, claims: seq<int>, calls: seq<Call>)

  datatype State = State(
    now: int,
    slots: map<DeliveryKey, Slot>,
    workers: map<nat, Pc>,
    provider: map<string, Entry>)

  const Start := State(0, map[], map[], map[])

  function PcOf(s: State, w: nat): Pc {
    if w in s.workers then s.workers[w] else Idle
  }

  predicate Live(s: State, w: nat) {
    !PcOf(s, w).Idle?
  }

  function RowOf(s: State, k: DeliveryKey): Option<Row> {
    if k in s.slots then Some(s.slots[k].row) else None
  }

  function CallsOf(s: State, k: DeliveryKey): seq<Call> {
    if k in s.slots then s.slots[k].calls else []
  }

  function ClaimsOf(s: State, k: DeliveryKey): seq<int> {
    if k in s.slots then s.slots[k].claims else []
  }

  /** The worker moves on and the row it works on changes. */
  function Move(s: State, w: nat, pc: Pc, k: DeliveryKey, slot: Slot): State {
    s.(workers := s.workers[w := pc], slots := s.slots[k := slot])
  }

  datatype Event =
    | Tick(d: nat)
    | Claim(w: nat, key: DeliveryKey)
    | Load(w: nat)
    | Build(w: nat, built: Option<OutboundEmail>)
    | Skip(w: nat)
    | Store(w: nat)
    | Refuse(w: nat)
    | Post(w: nat, accepts: bool, forgets: bool, confirmed: bool)
    | Record(w: nat)
    | Crash(w: nat)

  /** The provider still answers for this key: inside retention always, after it unless it forgets. */
  predicate Remembered(p: Params, s: State, idem: string, forgets: bool) {
    idem in s.provider && (s.now < s.provider[idem].at + p.retention || !forgets)
  }

  /** The message sender.send receives: the snapshot under the key derived from the ledger row. */
  function Outgoing(k: DeliveryKey, m: OutboundEmail): OutboundEmail {
    m.(idempotencyKey := Some(DeliveryIdempotencyKey(k)))
  }

  /**
    One POST. A remembered key with the same body replays the first answer, with another body it is
    a conflict; otherwise the provider decides. The worker may be told of a failure in any case
    (a timeout), but of a success only when there was one.
   */
  function PostStep(p: Params, s: State, w: nat, accepts: bool, forgets: bool, confirmed: bool): State
    requires PcOf(s, w).Ready? && PcOf(s, w).key in s.slots
  {
    var pc := PcOf(s, w);
    var k, idem, body, slot := pc.key, DeliveryIdempotencyKey(pc.key), WireBody(pc.message), s.slots[pc.key];
    var known := Remembered(p, s, idem, forgets);
    var delivered := !known && accepts;
    var fine := if known then s.provider[idem].body == body else accepts;
    var call := Call(Outgoing(k, pc.message), s.now, |slot.claims|, delivered);
    Move(s, w, Answered(k, pc.at, fine && confirmed), k, slot.(calls := slot.calls + [call])).(
      provider := if delivered then s.provider[idem := Entry(s.now, body)] else s.provider)
  }

  function ClaimStep(p: Params, s: State, w: nat, k: DeliveryKey): State {
    if Claimable(RowOf(s, k), s.now, p.maxAttempts, p.window) then
      Move(s, w, Owned(k, s.now), k,
           Slot(ClaimRow(RowOf(s, k), s.now), ClaimsOf(s, k) + [s.now], CallsOf(s, k)))
    else s
  }

  /** What a worker that holds a claim on `slot` does next, apart from calling the provider. */
  function Advance(pc: Pc, slot: Slot, e: Event): Option<(Pc, Slot)>
    requires !pc.Idle?
  {
    var r := slot.row;
    if e.Load? && pc.Owned? && r.payload.Some? then
      Some((Ready(pc.key, pc.at, MessageFromPayload(r.payload.value)), slot))
    else if e.Build? && pc.Owned? && r.payload.None? then
      Some((if e.built.Some? then Built(pc.key, pc.at, e.built.value) else Empty(pc.key, pc.at), slot))
    else if e.Skip? && pc.Empty? then
      Some((Idle, slot.(row := r.(status := Skipped))))
    else if e.Store? && pc.Built? then
      Some((Ready(pc.key, pc.at, pc.message), slot.(row := r.(payload := Some(PayloadFromMessage(pc.message))))))
    else if e.Refuse? && pc.Ready? then
      Some((Answered(pc.key, pc.at, false), slot))
    else if e.Record? && pc.Answered? then
      Some((Idle, slot.(row := r.(status := if pc.ok then Sent else Failed))))
    else if e.Crash? then
      Some((Idle, slot))
    else None
  }

  /** A step of a worker that holds a claim; its row exists (Inv), so every UPDATE finds it. */
  function WorkStep(p: Params, s: State, e: Event): State
    requires !e.Tick? && !e.Claim? && Live(s, e.w) && PcOf(s, e.w).key in s.slots
  {
    var pc := PcOf(s, e.w);
    if e.Post? then
      if pc.Ready? then PostStep(p, s, e.w, e.accepts, e.forgets, e.confirmed) else s
    else match Advance(pc, s.slots[pc.key], e)
      case None => s
      case Some((pc', slot')) => Move(s, e.w, pc', pc.key, slot')
  }

  function Step(p: Params, s: State, e: Event): State {
    match e
    case Tick(d) => s.(now := s.now + d)
    case Claim(w, k) => if !Live(s, w) && WellFormed(k) then ClaimStep(p, s, w, k) else s
    case _ => if Live(s, e.w) && PcOf(s, e.w).key in s.slots then WorkStep(p, s, e) else s
  }

  function Exec(p: Params, s: State, es: seq<Event>): State
    decreases |es|
  {
    if es == [] then s else Exec(p, Step(p, s, es[0]), es[1..])
  }

  lemma {:induction false} ExecAppend(p: Params, s: State, es: seq<Event>, fs: seq<Event>)
    ensures Exec(p, s, es + fs) == Exec(p, Exec(p, s, es), fs)
    decreases |es|
  {
    if es == [] {
      assert es + fs == fs;
    } else {
      assert (es + fs)[1..] == es[1..] + fs;
      ExecAppend(p, Step(p, s, es[0]), es[1..], fs);
    }
  }

  // ---------------------------------------------------------------- what every run keeps

  /** Consecutive claims are less than one window apart. */
  predicate Spaced(claims: seq<int>, window: nat) {
    forall i :: 0 < i < |claims| ==> claims[i - 1] <= claims[i] < claims[i - 1] + window
  }

  /** Every call belongs to one claim and carries the row's snapshot under the row's key. */
  predicate CallsOk(k: DeliveryKey, slot: Slot, now: int) {
    && (|slot.calls| > 0 ==> slot.row.payload.Some?)
    && (forall i :: 0 <= i < |slot.calls| ==>
          && 1 <= slot.calls[i].attempt <= |slot.claims|
          && slot.claims[slot.calls[i].attempt - 1] <= slot.calls[i].at <= now
          && slot.calls[i].message == Outgoing(k, MessageFromPayload(slot.row.payload.value)))
    && (forall i, j :: 0 <= i < j < |slot.calls| ==> slot.calls[i].attempt < slot.calls[j].attempt)
  }

  predicate SlotOk(p: Params, k: DeliveryKey, slot: Slot, now: int) {
    var r := slot.row;
    && WellFormed(k)
    && 1 <= r.attempts == |slot.claims| <= Max(1, p.maxAttempts)
    && slot.claims[|slot.claims| - 1] == r.claimedAt <= now
    && Spaced(slot.claims, p.window)
    && CallsOk(k, slot, now)
    && (r.status == Failed ==> r.payload.Some?)
  }

  function EntryOf(s: State, k: DeliveryKey): Option<Entry> {
    var idem := DeliveryIdempotencyKey(k);
    if idem in s.provider then Some(s.provider[idem]) else None
  }

  /** The provider's entry for a key is that of a delivery, and no delivery is later. */
  predicate EntryOk(calls: seq<Call>, entry: Option<Entry>) {
    && (forall i :: 0 <= i < |calls| && calls[i].delivered ==>
          entry.Some? && calls[i].at <= entry.value.at)
    && (entry.Some? ==>
          exists i :: 0 <= i < |calls| && calls[i].delivered && calls[i].at == entry.value.at)
  }

  predicate BeforeCall(pc: Pc) {
    pc.Owned? || pc.Empty? || pc.Built? || pc.Ready?
  }

  /** A worker that holds a claim holds it on a row that is claimed, since the time it claimed it. */
  predicate PcOk(pc: Pc, slot: Slot)
    requires !pc.Idle?
  {
    && slot.row.status == Claimed
    && slot.row.claimedAt == pc.at
    && (pc.Ready? ==> slot.row.payload == Some(PayloadFromMessage(pc.message)))
    && (pc.Built? || pc.Empty? ==> slot.row.payload.None?)
    && (pc.Answered? ==> slot.row.payload.Some?)
    && (BeforeCall(pc) ==> forall i :: 0 <= i < |slot.calls| ==> slot.calls[i].attempt < |slot.claims|)
  }

  predicate WorkerOk(s: State, w: nat) {
    Live(s, w) ==> PcOf(s, w).key in s.slots && PcOk(PcOf(s, w), s.slots[PcOf(s, w).key])
  }

  /** At most one worker holds a live claim on a key. */
  ghost predicate Exclusive(s: State) {
    forall v: nat, w: nat :: Live(s, v) && Live(s, w) && PcOf(s, v).key == PcOf(s, w).key ==> v == w
  }

  ghost predicate KeysOk(p: Params, s: State) {
    && (forall k :: k in s.slots ==> SlotOk(p, k, s.slots[k], s.now))
    && (forall k :: WellFormed(k) ==> EntryOk(CallsOf(s, k), EntryOf(s, k)))
  }

  ghost predicate Inv(p: Params, s: State) {
    KeysOk(p, s) && (forall w: nat :: WorkerOk(s, w)) && Exclusive(s)
  }

  /** From s to t only worker w and key k changed; w holds at most k, and nobody else holds k. */
  ghost predicate Local(s: State, t: State, w: nat, k: DeliveryKey) {
    && t.now == s.now
    && t.workers == s.workers[w := PcOf(t, w)]
    && k in t.slots && t.slots == s.slots[k := t.slots[k]]
    && (Live(t, w) ==> PcOf(t, w).key == k)
    && (forall v: nat :: Live(s, v) && PcOf(s, v).key == k ==> v == w)
  }

  lemma LocalWorkers(p: Params, s: State, t: State, w: nat, k: DeliveryKey)
    requires forall v: nat :: WorkerOk(s, v)
    requires Exclusive(s) && Local(s, t, w, k) && WorkerOk(t, w)
    ensures (forall v: nat :: WorkerOk(t, v)) && Exclusive(t)
  {
    assert forall v: nat :: v != w ==> PcOf(t, v) == PcOf(s, v) && (Live(t, v) <==> Live(s, v));
    forall v: nat ensures WorkerOk(t, v) {
      assert WorkerOk(s, v);
    }
    forall u: nat, v: nat | Live(t, u) && Live(t, v) && PcOf(t, u).key == PcOf(t, v).key ensures u == v {
      assert u != w ==> Live(s, u) && PcOf(s, u) == PcOf(t, u);
      assert v != w ==> Live(s, v) && PcOf(s, v) == PcOf(t, v);
    }
  }

  lemma LocalKeys(p: Params, s: State, t: State, w: nat, k: DeliveryKey)
    requires KeysOk(p, s) && Local(s, t, w, k) && SlotOk(p, k, t.slots[k], t.now)
    requires EntryOk(CallsOf(t, k), EntryOf(t, k))
    requires forall j :: WellFormed(j) && j != k ==> EntryOf(t, j) == EntryOf(s, j)
    ensures KeysOk(p, t)
  {
    forall j | WellFormed(j) ensures EntryOk(CallsOf(t, j), EntryOf(t, j)) {
      assert EntryOk(CallsOf(s, j), EntryOf(s, j));
      assert j != k ==> CallsOf(t, j) == CallsOf(s, j);
    }
  }

  lemma ClaimKeepsInv(p: Params, s: State, w: nat, k: DeliveryKey)
    requires Inv(p, s) && !Live(s, w) && WellFormed(k)
    ensures Inv(p, ClaimStep(p, s, w, k))
  {
    var t := ClaimStep(p, s, w, k);
    if Claimable(RowOf(s, k), s.now, p.maxAttempts, p.window) {
      assert Local(s, t, w, k) by {
        forall v: nat | Live(s, v) ensures PcOf(s, v).key != k {
          assert WorkerOk(s, v);
        }
      }
      assert SlotOk(p, k, t.slots[k], t.now) && PcOk(Owned(k, s.now), t.slots[k]) by {
        if k in s.slots {
          ReclaimOk(p, k, s.slots[k], s.now);
        }
      }
      assert EntryOf(t, k) == EntryOf(s, k) && CallsOf(t, k) == CallsOf(s, k);
      LocalWorkers(p, s, t, w, k);
      LocalKeys(p, s, t, w, k);
    }
  }

  lemma ReclaimOk(p: Params, k: DeliveryKey, slot: Slot, now: int)
    requires SlotOk(p, k, slot, now) && Retryable(slot.row, now, p.maxAttempts, p.window)
    ensures var again := Slot(ClaimRow(Some(slot.row), now), slot.claims + [now], slot.calls);
            SlotOk(p, k, again, now) && PcOk(Owned(k, now), again)
  {
    var again := Slot(ClaimRow(Some(slot.row), now), slot.claims + [now], slot.calls);
    SpacedPush(slot.claims, p.window, now);
    CallsStay(k, slot, again, now);
    assert forall i :: 0 <= i < |slot.calls| ==> slot.calls[i].attempt < |again.claims|;
  }

  lemma SpacedPush(claims: seq<int>, window: nat, now: int)
    requires Spaced(claims, window) && claims != []
    requires claims[|claims| - 1] <= now < claims[|claims| - 1] + window
    ensures Spaced(claims + [now], window)
  {
  }

  /** A further claim leaves the calls made what they were. */
  lemma CallsStay(k: DeliveryKey, slot: Slot, again: Slot, now: int)
    requires CallsOk(k, slot, now) && again.calls == slot.calls && again.row.payload == slot.row.payload
    requires slot.claims <= again.claims
    ensures CallsOk(k, again, now)
  {
  }

  lemma PostKeepsInv(p: Params, s: State, w: nat, accepts: bool, forgets: bool, confirmed: bool)
    requires Inv(p, s) && PcOf(s, w).Ready? && PcOf(s, w).key in s.slots
    ensures Inv(p, PostStep(p, s, w, accepts, forgets, confirmed))
  {
    var t := PostStep(p, s, w, accepts, forgets, confirmed);
    var k := PcOf(s, w).key;
    assert WorkerOk(s, w) && SlotOk(p, k, s.slots[k], s.now);
    assert Local(s, t, w, k) by {
      assert Live(s, w);
    }
    LocalWorkers(p, s, t, w, k);
    var call := t.slots[k].calls[|s.slots[k].calls|];
    CallAppended(p, k, s.slots[k], call, s.now);
    assert EntryOk(CallsOf(s, k), EntryOf(s, k));
    assert call.delivered ==> EntryOf(t, k) == Some(Entry(s.now, WireBody(PcOf(s, w).message)));
    EntryAppended(s.slots[k].calls, EntryOf(s, k), call, EntryOf(t, k), s.now);
    forall j | WellFormed(j) && j != k ensures EntryOf(t, j) == EntryOf(s, j) {
      if DeliveryIdempotencyKey(j) == DeliveryIdempotencyKey(k) {
        IdempotencyKeyInjective(j, k);
      }
    }
    LocalKeys(p, s, t, w, k);
  }

  lemma CallAppended(p: Params, k: DeliveryKey, slot: Slot, call: Call, now: int)
    requires SlotOk(p, k, slot, now)
    requires call.at == now && call.attempt == |slot.claims| && slot.row.payload.Some?
    requires call.message == Outgoing(k, MessageFromPayload(slot.row.payload.value))
    requires forall i :: 0 <= i < |slot.calls| ==> slot.calls[i].attempt < |slot.claims|
    ensures SlotOk(p, k, slot.(calls := slot.calls + [call]), now)
  {
  }

  lemma EntryAppended(calls: seq<Call>, entry: Option<Entry>, call: Call, entry': Option<Entry>, now: int)
    requires EntryOk(calls, entry) && call.at == now
    requires forall i :: 0 <= i < |calls| ==> calls[i].at <= now
    requires if call.delivered then entry'.Some? && entry'.value.at == now else entry' == entry
    ensures EntryOk(calls + [call], entry')
  {
    var calls' := calls + [call];
    assert calls'[|calls|] == call;
    if !call.delivered && entry.Some? {
      var i :| 0 <= i < |calls| && calls[i].delivered && calls[i].at == entry.value.at;
      assert calls'[i] == calls[i];
    }
  }

  lemma AdvanceOk(p: Params, k: DeliveryKey, pc: Pc, slot: Slot, e: Event, now: int)
    requires !pc.Idle? && pc.key == k && PcOk(pc, slot) && SlotOk(p, k, slot, now)
    requires Advance(pc, slot, e).Some?
    ensures var (pc', slot') := Advance(pc, slot, e).value;
            && SlotOk(p, k, slot', now) && slot'.calls == slot.calls && slot'.claims == slot.claims
            && (!pc'.Idle? ==> pc'.key == k && PcOk(pc', slot'))
            && (slot.row.payload.Some? ==> slot'.row.payload == slot.row.payload)
  {
  }

  lemma WorkKeepsInv(p: Params, s: State, e: Event)
    requires Inv(p, s) && !e.Tick? && !e.Claim? && !e.Post?
    requires Live(s, e.w) && PcOf(s, e.w).key in s.slots
    ensures Inv(p, WorkStep(p, s, e))
  {
    var t, w, pc := WorkStep(p, s, e), e.w, PcOf(s, e.w);
    var k := pc.key;
    assert WorkerOk(s, w) && SlotOk(p, k, s.slots[k], s.now);
    if Advance(pc, s.slots[k], e).Some? {
      AdvanceOk(p, k, pc, s.slots[k], e, s.now);
      assert Local(s, t, w, k);
      LocalWorkers(p, s, t, w, k);
      assert CallsOf(t, k) == CallsOf(s, k) && EntryOf(t, k) == EntryOf(s, k);
      LocalKeys(p, s, t, w, k);
    }
  }

  lemma TickKeepsInv(p: Params, s: State, d: nat)
    requires Inv(p, s)
    ensures Inv(p, s.(now := s.now + d))
  {
    var t := s.(now := s.now + d);
    forall k | WellFormed(k) ensures EntryOk(CallsOf(t, k), EntryOf(t, k)) {
      assert CallsOf(t, k) == CallsOf(s, k) && EntryOf(t, k) == EntryOf(s, k);
    }
    assert forall w: nat :: PcOf(t, w) == PcOf(s, w) && Live(t, w) == Live(s, w);
    forall w: nat ensures WorkerOk(t, w) {
      assert WorkerOk(s, w);
    }
  }

  lemma StepKeepsInv(p: Params, s: State, e: Event)
    requires Inv(p, s)
    ensures Inv(p, Step(p, s, e))
  {
    if e.Tick? {
      TickKeepsInv(p, s, e.d);
    } else if e.Claim? {
      if !Live(s, e.w) && WellFormed(e.key) { ClaimKeepsInv(p, s, e.w, e.key); }
    } else if Live(s, e.w) && PcOf(s, e.w).key in s.slots {
      if e.Post? {
        if PcOf(s, e.w).Ready? { PostKeepsInv(p, s, e.w, e.accepts, e.forgets, e.confirmed); }
      } else {
        WorkKeepsInv(p, s, e);
      }
    }
  }

  lemma {:induction false} RunKeepsInv(p: Params, s: State, es: seq<Event>)
    requires Inv(p, s)
    ensures Inv(p, Exec(p, s, es))
    decreases |es|
  {
    if es != [] {
      StepKeepsInv(p, s, es[0]);
      RunKeepsInv(p, Step(p, s, es[0]), es[1..]);
    }
  }

  lemma ReachableInv(p: Params, es: seq<Event>)
    ensures Inv(p, Exec(p, Start, es))
  {
    RunKeepsInv(p, Start, es);
  }

  /** No two workers ever hold a live claim on one (user, kind, period). */
  lemma OneSender(p: Params, es: seq<Event>, v: nat, w: nat)
    ensures var s := Exec(p, Start, es);
            Live(s, v) && Live(s, w) && PcOf(s, v).key == PcOf(s, w).key ==> v == w
  {
    ReachableInv(p, es);
  }

  lemma {:induction false} AttemptsBound(calls: seq<Call>, i: nat)
    requires forall i, j :: 0 <= i < j < |calls| ==> calls[i].attempt < calls[j].attempt
    requires i < |calls| && calls[0].attempt >= 1
    ensures calls[i].attempt >= i + 1
  {
    if i > 0 { AttemptsBound(calls, i - 1); }
  }

  /**
    The ceiling, for every period in every run: claims are at most maxAttempts and less than one
    window apart, each claim leads to at most one provider call, and all calls carry the same
    message under the same key.
   */
  lemma FrequencyCeiling(p: Params, es: seq<Event>, k: DeliveryKey)
    ensures var s := Exec(p, Start, es);
            var claims, calls := ClaimsOf(s, k), CallsOf(s, k);
            && |calls| <= |claims| <= Max(1, p.maxAttempts)
            && Spaced(claims, p.window)
            && (forall i, j :: 0 <= i < |calls| && 0 <= j < |calls| ==> calls[i].message == calls[j].message)
            && (forall i :: 0 <= i < |calls| ==>
                  calls[i].message.idempotencyKey == Some(DeliveryIdempotencyKey(k)))
  {
    ReachableInv(p, es);
    var s := Exec(p, Start, es);
    if k in s.slots && |s.slots[k].calls| > 0 {
      assert SlotOk(p, k, s.slots[k], s.now);
      var calls := s.slots[k].calls;
      assert calls[0].attempt >= 1;
      AttemptsBound(calls, |calls| - 1);
    }
  }

  // ---------------------------------------------------------------- what no event can undo

  /** The period is over: sent, skipped, or claimed by a worker that is gone. */
  ghost predicate Settled(s: State, k: DeliveryKey) {
    && k in s.slots
    && match s.slots[k].row.status
       case Failed => false
       case Claimed => forall w: nat :: Live(s, w) ==> PcOf(s, w).key != k
       case _ => true
  }

  /** A worker touches no row but the one it holds. */
  lemma WorkElsewhere(p: Params, s: State, e: Event, k: DeliveryKey)
    requires !e.Tick? && !e.Claim? && Live(s, e.w) && PcOf(s, e.w).key in s.slots && k in s.slots
    ensures var t := WorkStep(p, s, e);
            && t.slots.Keys == s.slots.Keys
            && (PcOf(s, e.w).key != k ==> t.slots[k] == s.slots[k])
            && (t == s || t.workers == s.workers[e.w := PcOf(t, e.w)])
            && (Live(t, e.w) ==> PcOf(t, e.w).key == PcOf(s, e.w).key)
  {
  }

  lemma OthersStay(p: Params, s: State, e: Event, w: nat)
    requires e.Tick? || e.w != w
    ensures PcOf(Step(p, s, e), w) == PcOf(s, w)
  {
    if !e.Tick? && !e.Claim? && Live(s, e.w) && PcOf(s, e.w).key in s.slots {
      WorkElsewhere(p, s, e, PcOf(s, e.w).key);
    }
  }

  /** No claim takes a settled period. */
  lemma SettledClaim(p: Params, s: State, w: nat, j: DeliveryKey, k: DeliveryKey)
    requires Settled(s, k)
    ensures var t := ClaimStep(p, s, w, j);
            && k in t.slots && t.slots[k] == s.slots[k]
            && (t == s || (j != k && t.workers == s.workers[w := Owned(j, s.now)]))
  {
  }

  lemma SettledSlot(p: Params, s: State, e: Event, k: DeliveryKey)
    requires Inv(p, s) && Settled(s, k)
    ensures k in Step(p, s, e).slots && Step(p, s, e).slots[k] == s.slots[k]
  {
    if e.Claim? {
      SettledClaim(p, s, e.w, e.key, k);
    } else if !e.Tick? && Live(s, e.w) {
      assert WorkerOk(s, e.w) && PcOf(s, e.w).key != k;
      WorkElsewhere(p, s, e, k);
    }
  }

  /** A worker that does not hold k does not come to hold it by a step on a settled period. */
  lemma SettledWorker(p: Params, s: State, e: Event, k: DeliveryKey, w: nat)
    requires Inv(p, s) && Settled(s, k) && s.slots[k].row.status == Claimed
    ensures Live(Step(p, s, e), w) ==> PcOf(Step(p, s, e), w).key != k
  {
    if e.Tick? || e.w != w {
      OthersStay(p, s, e, w);
    } else if e.Claim? {
      SettledClaim(p, s, w, e.key, k);
    } else if Live(s, w) {
      assert WorkerOk(s, w);
      WorkElsewhere(p, s, e, k);
    }
  }

  lemma SettledStep(p: Params, s: State, e: Event, k: DeliveryKey)
    requires Inv(p, s) && Settled(s, k)
    ensures Settled(Step(p, s, e), k) && Step(p, s, e).slots[k] == s.slots[k]
  {
    SettledSlot(p, s, e, k);
    if s.slots[k].row.status == Claimed {
      forall w: nat ensures Live(Step(p, s, e), w) ==> PcOf(Step(p, s, e), w).key != k {
        SettledWorker(p, s, e, k, w);
      }
    }
  }

  /** A settled period stays exactly as it is: no event ever claims it or calls the provider for it again. */
  lemma {:induction false} SettledForever(p: Params, s: State, es: seq<Event>, k: DeliveryKey)
    requires Inv(p, s) && Settled(s, k)
    ensures Settled(Exec(p, s, es), k) && Exec(p, s, es).slots[k] == s.slots[k]
    decreases |es|
  {
    if es != [] {
      SettledStep(p, s, es[0], k);
      StepKeepsInv(p, s, es[0]);
      SettledForever(p, Step(p, s, es[0]), es[1..], k);
    }
  }

  predicate HasPayload(s: State, k: DeliveryKey, payload: Payload) {
    k in s.slots && s.slots[k].row.payload == Some(payload)
  }

  lemma PayloadWork(p: Params, s: State, e: Event, k: DeliveryKey, payload: Payload)
    requires Inv(p, s) && HasPayload(s, k, payload)
    requires !e.Tick? && !e.Claim? && Live(s, e.w) && PcOf(s, e.w).key in s.slots
    ensures HasPayload(WorkStep(p, s, e), k, payload)
  {
    var pc := PcOf(s, e.w);
    assert WorkerOk(s, e.w);
    if pc.key != k {
      WorkElsewhere(p, s, e, k);
    } else if !e.Post? && Advance(pc, s.slots[k], e).Some? {
      AdvanceOk(p, k, pc, s.slots[k], e, s.now);
    }
  }

  lemma PayloadStep(p: Params, s: State, e: Event, k: DeliveryKey, payload: Payload)
    requires Inv(p, s) && HasPayload(s, k, payload)
    ensures HasPayload(Step(p, s, e), k, payload)
  {
    if !e.Tick? && !e.Claim? && Live(s, e.w) && PcOf(s, e.w).key in s.slots {
      PayloadWork(p, s, e, k, payload);
    }
  }

  /** Rendered once: a stored payload is never overwritten. */
  lemma {:induction false} PayloadForever(p: Params, s: State, es: seq<Event>, k: DeliveryKey, payload: Payload)
    requires Inv(p, s) && HasPayload(s, k, payload)
    ensures HasPayload(Exec(p, s, es), k, payload)
    decreases |es|
  {
    if es != [] {
      PayloadStep(p, s, es[0], k, payload);
      StepKeepsInv(p, s, es[0]);
      PayloadForever(p, Step(p, s, es[0]), es[1..], k, payload);
    }
  }

  // ---------------------------------------------------------------- at most one mail

  function Deliveries(calls: seq<Call>): nat {
    if calls == [] then 0
    else Deliveries(calls[..|calls| - 1]) + (if calls[|calls| - 1].delivered then 1 else 0)
  }

  /** Every provider call comes within `delay` of the claim it was made for. */
  predicate Prompt(slot: Slot, delay: nat) {
    forall i :: 0 <= i < |slot.calls| ==>
      0 < slot.calls[i].attempt <= |slot.claims| &&
      slot.calls[i].at <= slot.claims[slot.calls[i].attempt - 1] + delay
  }

  predicate PromptFor(s: State, k: DeliveryKey, delay: nat) {
    k in s.slots ==> Prompt(s.slots[k], delay)
  }

  /** How long after the first claim the last call of a period can come. */
  function Span(p: Params, delay: nat): int {
    (p.maxAttempts - 1) * (p.window - 1) + delay
  }

  /** The retention that is really needed: there is no second attempt, or it falls inside retention. */
  predicate RetentionSuffices(p: Params, delay: nat) {
    p.maxAttempts <= 1 || p.window == 0 || p.retention > Span(p, delay)
  }

  lemma {:induction false} ClaimsSpan(claims: seq<int>, window: nat, i: nat)
    requires Spaced(claims, window) && i < |claims|
    ensures claims[0] <= claims[i] && (i == 0 || window > 0) && claims[i] <= claims[0] + i * (window - 1)
  {
    if i > 0 {
      ClaimsSpan(claims, window, i - 1);
      assert claims[i - 1] <= claims[i] < claims[i - 1] + window;
      assert i * (window - 1) == (i - 1) * (window - 1) + (window - 1);
    }
  }

  lemma ScaleMonotone(i: nat, j: nat, w: nat)
    requires i <= j
    ensures i * w <= j * w
  {
  }

  /** A second call of a prompt period still finds the provider's entry of the first delivery. */
  lemma StillRemembered(p: Params, k: DeliveryKey, slot: Slot, first: int, now: int, delay: nat)
    requires SlotOk(p, k, slot, now) && RetentionSuffices(p, delay)
    requires |slot.calls| > 0 && first < |slot.calls| && 0 <= first
    requires slot.calls[first].attempt < |slot.claims|
    requires now <= slot.claims[|slot.claims| - 1] + delay
    ensures now < slot.calls[first].at + p.retention
  {
    var n := |slot.claims|;
    ClaimsSpan(slot.claims, p.window, n - 1);
    ClaimsSpan(slot.claims, p.window, slot.calls[first].attempt - 1);
    ScaleMonotone(n - 1, p.maxAttempts - 1, p.window - 1);
  }

  /** The event is a provider call for k. */
  predicate PostsFor(s: State, e: Event, k: DeliveryKey) {
    e.Post? && PcOf(s, e.w).Ready? && PcOf(s, e.w).key == k && k in s.slots
  }

  /** Calls and provider entry of k are as before, and at most a claim was added. */
  predicate Untouched(s: State, t: State, k: DeliveryKey) {
    CallsOf(t, k) == CallsOf(s, k) && EntryOf(t, k) == EntryOf(s, k) && ClaimsOf(s, k) <= ClaimsOf(t, k)
  }

  lemma OtherPost(p: Params, s: State, e: Event, k: DeliveryKey)
    requires Inv(p, s) && WellFormed(k) && e.Post? && PcOf(s, e.w).Ready?
    requires PcOf(s, e.w).key in s.slots && PcOf(s, e.w).key != k
    ensures Untouched(s, PostStep(p, s, e.w, e.accepts, e.forgets, e.confirmed), k)
  {
    var j := PcOf(s, e.w).key;
    assert SlotOk(p, j, s.slots[j], s.now);
    if DeliveryIdempotencyKey(j) == DeliveryIdempotencyKey(k) {
      IdempotencyKeyInjective(j, k);
    }
  }

  lemma OtherWork(p: Params, s: State, e: Event, k: DeliveryKey)
    requires !e.Tick? && !e.Claim? && Live(s, e.w) && PcOf(s, e.w).key in s.slots
    requires !(e.Post? && PcOf(s, e.w).Ready?)
    ensures Untouched(s, WorkStep(p, s, e), k)
  {
    var pc := PcOf(s, e.w);
    if !e.Post? && Advance(pc, s.slots[pc.key], e).Some? {
      var (_, slot') := Advance(pc, s.slots[pc.key], e).value;
      assert slot'.calls == s.slots[pc.key].calls && slot'.claims == s.slots[pc.key].claims;
    }
  }

  lemma OtherClaim(p: Params, s: State, w: nat, j: DeliveryKey, k: DeliveryKey)
    ensures Untouched(s, ClaimStep(p, s, w, j), k)
  {
  }

  /** Any event but a provider call for k leaves k's calls and provider entry alone. */
  lemma OtherEvents(p: Params, s: State, e: Event, k: DeliveryKey)
    requires Inv(p, s) && WellFormed(k) && !PostsFor(s, e, k)
    ensures Untouched(s, Step(p, s, e), k)
  {
    if e.Claim? {
      OtherClaim(p, s, e.w, e.key, k);
    } else if !e.Tick? {
      if Live(s, e.w) && PcOf(s, e.w).key in s.slots {
        if e.Post? && PcOf(s, e.w).Ready? {
          OtherPost(p, s, e, k);
        } else {
          OtherWork(p, s, e, k);
        }
      }
    }
  }

  lemma PromptBackward(s: State, t: State, k: DeliveryKey, delay: nat)
    requires PromptFor(t, k, delay) && (k in s.slots ==> k in t.slots)
    requires CallsOf(s, k) <= CallsOf(t, k) && ClaimsOf(s, k) <= ClaimsOf(t, k)
    requires k in s.slots ==>
               forall i :: 0 <= i < |CallsOf(s, k)| ==> 1 <= CallsOf(s, k)[i].attempt <= |ClaimsOf(s, k)|
    ensures PromptFor(s, k, delay)
  {
    if k in s.slots {
      forall i | 0 <= i < |s.slots[k].calls|
        ensures s.slots[k].calls[i].at <= s.slots[k].claims[s.slots[k].calls[i].attempt - 1] + delay
      {
        assert t.slots[k].calls[i] == s.slots[k].calls[i];
      }
    }
  }

  lemma StepBackward(p: Params, s: State, e: Event, k: DeliveryKey, delay: nat)
    requires Inv(p, s) && WellFormed(k) && PromptFor(Step(p, s, e), k, delay)
    ensures PromptFor(s, k, delay)
  {
    if !PostsFor(s, e, k) {
      OtherEvents(p, s, e, k);
    }
    PromptBackward(s, Step(p, s, e), k, delay);
  }

  lemma {:induction false} RunBackward(p: Params, s: State, es: seq<Event>, k: DeliveryKey, delay: nat)
    requires Inv(p, s) && WellFormed(k) && PromptFor(Exec(p, s, es), k, delay)
    ensures PromptFor(s, k, delay)
    decreases |es|
  {
    if es != [] {
      StepKeepsInv(p, s, es[0]);
      RunBackward(p, Step(p, s, es[0]), es[1..], k, delay);
      StepBackward(p, s, es[0], k, delay);
    }
  }

  /** At most one mail so far, and if there was one the provider holds its entry. */
  predicate AtMostOne(s: State, k: DeliveryKey) {
    Deliveries(CallsOf(s, k)) <= if EntryOf(s, k).Some? then 1 else 0
  }

  /** Once a delivery is on record, a prompt call comes while the provider still remembers it. */
  lemma RepeatIsRemembered(p: Params, s: State, k: DeliveryKey, delay: nat)
    requires KeysOk(p, s) && k in s.slots && WellFormed(k) && RetentionSuffices(p, delay)
    requires forall i :: 0 <= i < |s.slots[k].calls| ==> s.slots[k].calls[i].attempt < |s.slots[k].claims|
    requires EntryOf(s, k).Some? && s.now <= s.slots[k].claims[|s.slots[k].claims| - 1] + delay
    ensures s.now < EntryOf(s, k).value.at + p.retention
  {
    var calls := CallsOf(s, k);
    assert EntryOk(calls, EntryOf(s, k));
    var i :| 0 <= i < |calls| && calls[i].delivered && calls[i].at == EntryOf(s, k).value.at;
    StillRemembered(p, k, s.slots[k], i, s.now, delay);
  }

  lemma DeliveriesAppend(calls: seq<Call>, call: Call)
    ensures Deliveries(calls + [call]) == Deliveries(calls) + if call.delivered then 1 else 0
  {
    assert (calls + [call])[..|calls|] == calls;
  }

  /** From s to t one call for k was made; inside retention it delivers nothing. */
  predicate CallAdded(p: Params, s: State, t: State, k: DeliveryKey, call: Call)
    requires k in s.slots
  {
    && k in t.slots && t.slots[k].claims == s.slots[k].claims
    && t.slots[k].calls == s.slots[k].calls + [call]
    && call.at == s.now && call.attempt == |s.slots[k].claims|
    && (EntryOf(s, k).Some? && s.now < EntryOf(s, k).value.at + p.retention ==> !call.delivered)
    && EntryOf(t, k).Some? == (EntryOf(s, k).Some? || call.delivered)
  }

  lemma PostAddsCall(p: Params, s: State, e: Event, k: DeliveryKey) returns (call: Call)
    requires Inv(p, s) && PostsFor(s, e, k)
    ensures CallAdded(p, s, Step(p, s, e), k, call)
    ensures forall i :: 0 <= i < |s.slots[k].calls| ==> s.slots[k].calls[i].attempt < |s.slots[k].claims|
  {
    assert WorkerOk(s, e.w);
    call := Step(p, s, e).slots[k].calls[|s.slots[k].calls|];
  }

  lemma CallKeepsAtMostOne(p: Params, s: State, t: State, k: DeliveryKey, call: Call, delay: nat)
    requires KeysOk(p, s) && WellFormed(k) && AtMostOne(s, k) && RetentionSuffices(p, delay)
    requires k in s.slots && CallAdded(p, s, t, k, call) && Prompt(t.slots[k], delay)
    requires forall i :: 0 <= i < |s.slots[k].calls| ==> s.slots[k].calls[i].attempt < |s.slots[k].claims|
    ensures AtMostOne(t, k)
  {
    DeliveriesAppend(s.slots[k].calls, call);
    assert t.slots[k].calls[|s.slots[k].calls|] == call;
    if EntryOf(s, k).Some? {
      RepeatIsRemembered(p, s, k, delay);
    }
  }

  lemma {:induction false} RunKeepsAtMostOne(p: Params, s: State, es: seq<Event>, k: DeliveryKey, delay: nat)
    requires Inv(p, s) && WellFormed(k) && AtMostOne(s, k) && RetentionSuffices(p, delay)
    requires PromptFor(Exec(p, s, es), k, delay)
    ensures AtMostOne(Exec(p, s, es), k)
    decreases |es|
  {
    if es != [] {
      var t := Step(p, s, es[0]);
      StepKeepsInv(p, s, es[0]);
      RunBackward(p, t, es[1..], k, delay);
      if PostsFor(s, es[0], k) {
        var call := PostAddsCall(p, s, es[0], k);
        CallKeepsAtMostOne(p, s, t, k, call, delay);
      } else {
        OtherEvents(p, s, es[0], k);
      }
      RunKeepsAtMostOne(p, t, es[1..], k, delay);
    }
  }

  // ---------------------------------------------------------------- and no smaller retention will do

  /** A recap that fails after it was accepted: the answer of the first call is lost. */
  function FirstAttempt(k: DeliveryKey, m: OutboundEmail): seq<Event> {
    [Claim(0, k), Build(0, Some(m)), Store(0), Post(0, true, true, false), Record(0)]
  }

  /** A retry at the last admissible moment. */
  function LateRetry(p: Params, k: DeliveryKey): seq<Event>
    requires p.window > 0
  {
    [Tick(p.window - 1), Claim(0, k), Load(0)]
  }

  /** A late retry that never reaches the provider. */
  function LateRefusal(p: Params, k: DeliveryKey): seq<Event>
    requires p.window > 0
  {
    LateRetry(p, k) + [Refuse(0), Record(0)]
  }

  /** A late retry whose provider call comes `delay` after the claim. */
  function LateDelivery(p: Params, k: DeliveryKey, delay: nat): seq<Event>
    requires p.window > 0
  {
    LateRetry(p, k) + [Tick(delay), Post(0, true, true, true)]
  }

  function Refusals(p: Params, k: DeliveryKey, n: nat): seq<Event>
    requires p.window > 0
  {
    if n == 0 then [] else Refusals(p, k, n - 1) + LateRefusal(p, k)
  }

  function Worst(p: Params, k: DeliveryKey, m: OutboundEmail, delay: nat): seq<Event>
    requires p.window > 0 && p.maxAttempts >= 2
  {
    FirstAttempt(k, m) + Refusals(p, k, p.maxAttempts - 2) + LateDelivery(p, k, delay)
  }

  /** The state after the first attempt and n refused retries. */
  ghost predicate Waiting(p: Params, s: State, k: DeliveryKey, m: OutboundEmail, n: nat) {
    && s.now == n * (p.window - 1)
    && !Live(s, 0)
    && k in s.slots
    && s.slots[k].row == Row(Failed, n + 1, s.now, Some(PayloadFromMessage(m)))
    && s.slots[k].calls == [Call(Outgoing(k, m), 0, 1, true)]
    && |s.slots[k].claims| == n + 1 && s.slots[k].claims[0] == 0
    && EntryOf(s, k) == Some(Entry(0, WireBody(m)))
  }

  /** The n-th retry has loaded the snapshot and is about to call the provider. */
  ghost predicate Reloaded(p: Params, s: State, k: DeliveryKey, m: OutboundEmail, n: nat) {
    && s.now == n * (p.window - 1)
    && PcOf(s, 0) == Ready(k, s.now, m)
    && k in s.slots
    && s.slots[k].row == Row(Claimed, n + 1, s.now, Some(PayloadFromMessage(m)))
    && s.slots[k].calls == [Call(Outgoing(k, m), 0, 1, true)]
    && |s.slots[k].claims| == n + 1 && s.slots[k].claims[0] == 0 && s.slots[k].claims[n] == s.now
    && EntryOf(s, k) == Some(Entry(0, WireBody(m)))
  }

  lemma ExecTwo(p: Params, s: State, es: seq<Event>)
    requires |es| == 2
    ensures Exec(p, s, es) == Step(p, Step(p, s, es[0]), es[1])
  {
    var s1 := Step(p, s, es[0]);
    assert Exec(p, s, es) == Exec(p, s1, es[1..]);
    assert Exec(p, s1, es[1..]) == Exec(p, Step(p, s1, es[1]), es[2..]);
  }

  lemma ExecThree(p: Params, s: State, es: seq<Event>)
    requires |es| == 3
    ensures Exec(p, s, es) == Step(p, Step(p, Step(p, s, es[0]), es[1]), es[2])
  {
    ExecTwo(p, Step(p, s, es[0]), es[1..]);
  }

  lemma AfterFirst(p: Params, k: DeliveryKey, m: OutboundEmail)
    requires WellFormed(k) && m.idempotencyKey == None
    ensures Waiting(p, Exec(p, Start, FirstAttempt(k, m)), k, m, 0)
  {
    var es := FirstAttempt(k, m);
    ExecThree(p, Start, es[..3]);
    var s := Exec(p, Start, es[..3]);
    assert PcOf(s, 0) == Ready(k, 0, m) && s.slots[k].calls == [] && s.slots[k].claims == [0];
    assert s.slots[k].row == Row(Claimed, 1, 0, Some(PayloadFromMessage(m))) && s.provider == map[];
    ExecTwo(p, s, es[3..]);
    assert es == es[..3] + es[3..];
    ExecAppend(p, Start, es[..3], es[3..]);
  }

  lemma AfterLateRetry(p: Params, s: State, k: DeliveryKey, m: OutboundEmail, n: nat)
    requires WellFormed(k) && p.window > 0 && n + 2 <= p.maxAttempts && Waiting(p, s, k, m, n)
    requires m.idempotencyKey == None
    ensures Reloaded(p, Exec(p, s, LateRetry(p, k)), k, m, n + 1)
  {
    ExecThree(p, s, LateRetry(p, k));
    var s1 := Step(p, s, Tick(p.window - 1));
    assert PcOf(s1, 0) == PcOf(s, 0) && RowOf(s1, k) == RowOf(s, k);
    var s2 := Step(p, s1, Claim(0, k));
    assert EntryOf(s2, k) == EntryOf(s, k) && PcOf(s2, 0) == Owned(k, s1.now);
    assert (n + 1) * (p.window - 1) == n * (p.window - 1) + (p.window - 1);
  }

  lemma AfterRefusal(p: Params, s: State, k: DeliveryKey, m: OutboundEmail, n: nat)
    requires WellFormed(k) && p.window > 0 && n + 2 <= p.maxAttempts && Waiting(p, s, k, m, n)
    requires m.idempotencyKey == None
    ensures Waiting(p, Exec(p, s, LateRefusal(p, k)), k, m, n + 1)
  {
    AfterLateRetry(p, s, k, m, n);
    var s' := Exec(p, s, LateRetry(p, k));
    ExecAppend(p, s, LateRetry(p, k), [Refuse(0), Record(0)]);
    ExecTwo(p, s', [Refuse(0), Record(0)]);
  }

  lemma {:induction false} AfterRefusals(p: Params, s: State, k: DeliveryKey, m: OutboundEmail, n: nat)
    requires WellFormed(k) && p.window > 0 && n + 2 <= p.maxAttempts && Waiting(p, s, k, m, 0)
    requires m.idempotencyKey == None
    ensures Waiting(p, Exec(p, s, Refusals(p, k, n)), k, m, n)
  {
    if n > 0 {
      AfterRefusals(p, s, k, m, n - 1);
      ExecAppend(p, s, Refusals(p, k, n - 1), LateRefusal(p, k));
      AfterRefusal(p, Exec(p, s, Refusals(p, k, n - 1)), k, m, n - 1);
    }
  }

  /** The late retry, `delay` after its claim and about to call the provider. */
  lemma BeforeLateCall(p: Params, s: State, k: DeliveryKey, m: OutboundEmail, delay: nat) returns (t: State)
    requires WellFormed(k) && p.window > 0 && p.maxAttempts >= 2 && m.idempotencyKey == None
    requires Waiting(p, s, k, m, p.maxAttempts - 2)
    ensures t == Step(p, Exec(p, s, LateRetry(p, k)), Tick(delay))
    ensures Exec(p, s, LateDelivery(p, k, delay)) == Step(p, t, Post(0, true, true, true))
    ensures t.now == Span(p, delay) && PcOf(t, 0) == Ready(k, t.now - delay, m) && k in t.slots
    ensures t.slots[k].calls == [Call(Outgoing(k, m), 0, 1, true)]
    ensures |t.slots[k].claims| == p.maxAttempts && t.slots[k].claims[0] == 0
    ensures t.slots[k].claims[p.maxAttempts - 1] == t.now - delay
    ensures EntryOf(t, k) == Some(Entry(0, WireBody(m)))
  {
    AfterLateRetry(p, s, k, m, p.maxAttempts - 2);
    var s' := Exec(p, s, LateRetry(p, k));
    var last := [Tick(delay), Post(0, true, true, true)];
    ExecAppend(p, s, LateRetry(p, k), last);
    ExecTwo(p, s', last);
    t := Step(p, s', Tick(delay));
    assert PcOf(t, 0) == PcOf(s', 0) && EntryOf(t, k) == EntryOf(s', k);
  }

  lemma AfterDelivery(p: Params, s: State, k: DeliveryKey, m: OutboundEmail, delay: nat)
    requires WellFormed(k) && p.window > 0 && p.maxAttempts >= 2 && m.idempotencyKey == None
    requires Waiting(p, s, k, m, p.maxAttempts - 2) && p.retention <= Span(p, delay)
    ensures var t := Exec(p, s, LateDelivery(p, k, delay));
            PromptFor(t, k, delay) && Deliveries(CallsOf(t, k)) == 2
  {
    var before := BeforeLateCall(p, s, k, m, delay);
    var t := Step(p, before, Post(0, true, true, true));
    var first := Call(Outgoing(k, m), 0, 1, true);
    var call := t.slots[k].calls[1];
    assert t.slots[k].calls == [first] + [call] && call.delivered && call.attempt == p.maxAttempts;
    DeliveriesAppend([first], call);
    DeliveriesAppend([], first);
    assert [] + [first] == [first];
  }

  /**
    The retention the protocol really needs. Because a retry refreshes claimed_at, the retry window
    slides: every run with prompt calls delivers at most one mail per period exactly when the
    provider remembers a key beyond (maxAttempts - 1) * (window - 1) + delay ticks.
   */
  lemma AtMostOneMailExactlyWhen(p: Params, delay: nat)
    ensures RetentionSuffices(p, delay) <==>
            forall es: seq<Event>, k: DeliveryKey ::
              WellFormed(k) && PromptFor(Exec(p, Start, es), k, delay) ==> Deliveries(CallsOf(Exec(p, Start, es), k)) <= 1
  {
    if RetentionSuffices(p, delay) {
      forall es: seq<Event>, k | WellFormed(k) && PromptFor(Exec(p, Start, es), k, delay)
        ensures Deliveries(CallsOf(Exec(p, Start, es), k)) <= 1
      {
        RunKeepsAtMostOne(p, Start, es, k, delay);
      }
    } else {
      var k := DeliveryKey("recap", "u", "2026-W29");
      var m := OutboundEmail("to", "subject", "text", "html", None, None, map[]);
      assert WellFormed(k);
      var first, refused := FirstAttempt(k, m), Refusals(p, k, p.maxAttempts - 2);
      var es := Worst(p, k, m, delay);
      AfterFirst(p, k, m);
      AfterRefusals(p, Exec(p, Start, first), k, m, p.maxAttempts - 2);
      ExecAppend(p, Start, first, refused);
      ExecAppend(p, Start, first + refused, LateDelivery(p, k, delay));
      AfterDelivery(p, Exec(p, Start, first + refused), k, m, delay);
      assert Deliveries(CallsOf(Exec(p, Start, es), k)) == 2;
    }
  }

  /** The settings of backend/app/config.py with a 24 h provider memory can deliver twice; 48 h cannot. */
  lemma ShippedSettings(hour: nat, delay: nat)
    requires hour > 0
    ensures !RetentionSuffices(Params(3, 24 * hour, 24 * hour), delay)
    ensures RetentionSuffices(Params(3, 24 * hour, 48 * hour + delay), delay)
  {
  }
}
