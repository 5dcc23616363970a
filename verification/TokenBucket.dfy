/**
  The token bucket (backend/app/core/ratelimit.py). Tokens are reals; the clock is in whole seconds, as
  the script reads it. A key that is left alone for twice the window disappears.
 */
module TokenBucket {
  import opened Basics

  datatype Cell = Cell(tokens: real, ts: int)

  datatype Answer = Answer(allowed: bool, remaining: int, retryAfter: int)

  /** A bucket's size, and how much of it comes back per second. */
  datatype Plan = Plan(limit: int, rate: real)

  predicate ValidPlan(p: Plan) {
    p.limit >= 1 && p.rate > 0.0
  }

  function PlanOf(limit: int, window: int): (p: Plan)
    requires limit >= 1 && window >= 1
    ensures ValidPlan(p)
  {
    Plan(limit, limit as real / window as real)
  }

  function MinReal(a: real, b: real): real {
    if a < b then a else b
  }

  function Ceil(x: real): int {
    -((-x).Floor)
  }

  /** What comes back in so many seconds. */
  function Gain(p: Plan, seconds: int): real {
    seconds as real * p.rate
  }

  /** The tokens a call at `now` finds: those left, plus the refill since, up to the limit. */
  function Refill(p: Plan, key: Option<Cell>, now: int): real {
    match key
    case None => p.limit as real
    case Some(c) => MinReal(p.limit as real, c.tokens + Gain(p, Max(0, now - c.ts)))
  }

  function After(p: Plan, key: Option<Cell>, now: int): Cell {
    var tokens := Refill(p, key, now);
    Cell(if tokens >= 1.0 then tokens - 1.0 else tokens, now)
  }

  function Reply(p: Plan, key: Option<Cell>, now: int): Answer
    requires ValidPlan(p)
  {
    var tokens := Refill(p, key, now);
    if tokens >= 1.0 then Answer(true, Max(0, (tokens - 1.0).Floor), 1)
    else Answer(false, Max(0, tokens.Floor), Max(1, Ceil((1.0 - tokens) / p.rate)))
  }

  /** check_token_bucket on one key. */
  class Bucket {
    const limit: int
    const window: int
    var key: Option<Cell>

    predicate Valid() {
      limit >= 1 && window >= 1
    }

    constructor (limit: int, window: int)
      requires limit >= 1 && window >= 1
      ensures Valid() && this.limit == limit && this.window == window && key == None
    {
      this.limit := limit;
      this.window := window;
      key := None;
    }

    method Check(now: int) returns (answer: Answer)
      requires Valid()
      modifies this
      ensures key == Some(After(PlanOf(limit, window), old(key), now))
      ensures answer == Reply(PlanOf(limit, window), old(key), now)
    {
      var rate := PlanOf(limit, window).rate;
      var tokens, ts := limit as real, now;
      if key.Some? {
        tokens, ts := key.value.tokens, key.value.ts;
      }
      var delta := Max(0, now - ts);
      tokens := MinReal(limit as real, tokens + delta as real * rate);
      assert key.None? ==> delta == 0 && tokens == limit as real;
      assert tokens == Refill(PlanOf(limit, window), key, now);
      var allowed, retryAfter := false, 0;
      if tokens >= 1.0 {
        allowed := true;
        tokens := tokens - 1.0;
      } else {
        retryAfter := Ceil((1.0 - tokens) / rate);
      }
      key := Some(Cell(tokens, now));
      answer := Answer(allowed, Max(0, tokens.Floor), Max(1, retryAfter));
    }
  }

  // ---------------------------------------------------------------- bounds

  predicate InRange(p: Plan, key: Option<Cell>) {
    key.Some? ==> 0.0 <= key.value.tokens <= p.limit as real
  }

  lemma GainAdds(p: Plan, a: int, b: int)
    ensures Gain(p, a + b) == Gain(p, a) + Gain(p, b)
  {
    assert (a + b) as real == a as real + b as real;
  }

  lemma GainGrows(p: Plan, a: int, b: int)
    requires ValidPlan(p) && a <= b
    ensures Gain(p, a) <= Gain(p, b)
    ensures a >= 0 ==> Gain(p, a) >= 0.0
  {
  }

  lemma RefillInRange(p: Plan, key: Option<Cell>, now: int)
    requires ValidPlan(p) && InRange(p, key)
    ensures 0.0 <= Refill(p, key, now) <= p.limit as real
    ensures InRange(p, Some(After(p, key, now)))
  {
    if key.Some? {
      GainGrows(p, 0, Max(0, now - key.value.ts));
    }
  }

  predicate Forward(times: seq<int>) {
    forall i, j :: 0 <= i < j < |times| ==> times[i] <= times[j]
  }

  /** How many of these calls are allowed, starting from this key. */
  function Allowed(p: Plan, key: Option<Cell>, times: seq<int>): nat
    requires ValidPlan(p)
    decreases |times|
  {
    if times == [] then 0
    else (if Reply(p, key, times[0]).allowed then 1 else 0)
         + Allowed(p, Some(After(p, key, times[0])), times[1..])
  }

  /** One call: what it spends and what it leaves are what it found; the next finds that and the refill. */
  lemma OneCall(p: Plan, key: Option<Cell>, now: int, next: int)
    requires ValidPlan(p) && now <= next
    ensures var spent := if Reply(p, key, now).allowed then 1.0 else 0.0;
            spent + Refill(p, Some(After(p, key, now)), next) <= Refill(p, key, now) + Gain(p, next - now)
  {
    assert Max(0, next - now) == next - now;
  }

  /** What is spent was found or came back. */
  lemma {:induction false} AllowedByTokens(p: Plan, key: Option<Cell>, times: seq<int>)
    requires ValidPlan(p) && InRange(p, key) && Forward(times) && times != []
    ensures Allowed(p, key, times) as real <= Refill(p, key, times[0]) + Gain(p, times[|times| - 1] - times[0])
    decreases |times|
  {
    var after := Some(After(p, key, times[0]));
    RefillInRange(p, key, times[0]);
    var rest := times[1..];
    var spent := if Reply(p, key, times[0]).allowed then 1 else 0;
    assert Allowed(p, key, times) == spent + Allowed(p, after, rest);
    if rest != [] {
      AllowedByTokens(p, after, rest);
      OneCall(p, key, times[0], rest[0]);
      GainAdds(p, times[|times| - 1] - rest[0], rest[0] - times[0]);
      Spend(spent, Allowed(p, after, rest), Refill(p, after, rest[0]), Gain(p, times[|times| - 1] - rest[0]),
            Refill(p, key, times[0]), Gain(p, rest[0] - times[0]));
    } else {
      GainGrows(p, 0, 0);
    }
  }

  lemma Spend(spent: int, allowed: nat, found: real, gain: real, before: real, between: real)
    requires allowed as real <= found + gain && spent as real + found <= before + between
    ensures (spent + allowed) as real <= before + between + gain
  {
  }

  /** From any state a bucket can be in: in an interval of length T, at most limit + T limit / window calls pass. */
  lemma BurstBound(limit: int, window: int, key: Option<Cell>, times: seq<int>, length: int)
    requires limit >= 1 && window >= 1 && length >= 0
    requires InRange(PlanOf(limit, window), key) && Forward(times)
    requires times != [] ==> times[|times| - 1] - times[0] <= length
    ensures Allowed(PlanOf(limit, window), key, times) as real
         <= limit as real + length as real * (limit as real / window as real)
  {
    var p := PlanOf(limit, window);
    GainGrows(p, 0, length);
    assert Gain(p, length) == length as real * (limit as real / window as real);
    if times != [] {
      AllowedByTokens(p, key, times);
      RefillInRange(p, key, times[0]);
      GainGrows(p, times[|times| - 1] - times[0], length);
    }
  }

  // ---------------------------------------------------------------- expiry

  /** A key may be gone once it has been idle for twice the window. */
  datatype Call = Call(now: int, expired: bool)

  function Left(window: int, key: Option<Cell>, c: Call): Option<Cell> {
    if c.expired && key.Some? && c.now - key.value.ts >= 2 * window then None else key
  }

  /** The answers to a run of calls, with or without the expiries. */
  function Answers(p: Plan, window: int, key: Option<Cell>, calls: seq<Call>, expiring: bool): seq<Answer>
    requires ValidPlan(p)
    decreases |calls|
  {
    if calls == [] then []
    else
      var found := if expiring then Left(window, key, calls[0]) else key;
      [Reply(p, found, calls[0].now)]
      + Answers(p, window, Some(After(p, found, calls[0].now)), calls[1..], expiring)
  }

  /** One window of rest fills the bucket. */
  lemma RestFills(p: Plan, window: int, c: Cell, now: int)
    requires ValidPlan(p) && Gain(p, window) == p.limit as real
    requires c.tokens >= 0.0 && now - c.ts >= window >= 1
    ensures Refill(p, Some(c), now) == p.limit as real
  {
    GainGrows(p, window, now - c.ts);
    assert Max(0, now - c.ts) == now - c.ts;
  }

  lemma {:induction false} SameAnswers(p: Plan, window: int, key: Option<Cell>, calls: seq<Call>)
    requires ValidPlan(p) && Gain(p, window) == p.limit as real && window >= 1 && InRange(p, key)
    ensures Answers(p, window, key, calls, true) == Answers(p, window, key, calls, false)
    decreases |calls|
  {
    if calls != [] {
      var now := calls[0].now;
      var found := Left(window, key, calls[0]);
      if found != key {
        RestFills(p, window, key.value, now);
      }
      assert Refill(p, found, now) == Refill(p, key, now);
      RefillInRange(p, key, now);
      SameAnswers(p, window, Some(After(p, key, now)), calls[1..]);
    }
  }

  lemma WindowRefills(limit: int, window: int)
    requires limit >= 1 && window >= 1
    ensures Gain(PlanOf(limit, window), window) == limit as real
  {
  }

  /** No caller can tell an expiring key from one that never expires. */
  lemma ExpiryUnobservable(limit: int, window: int, key: Option<Cell>, calls: seq<Call>)
    requires limit >= 1 && window >= 1 && InRange(PlanOf(limit, window), key)
    ensures Answers(PlanOf(limit, window), window, key, calls, true)
         == Answers(PlanOf(limit, window), window, key, calls, false)
  {
    WindowRefills(limit, window);
    SameAnswers(PlanOf(limit, window), window, key, calls);
  }

  // ---------------------------------------------------------------- retry_after

  lemma CeilIs(x: real)
    ensures x <= Ceil(x) as real < x + 1.0
  {
  }

  lemma Scale(a: real, b: real, rate: real)
    requires rate > 0.0
    ensures a <= b <==> a * rate <= b * rate
  {
  }

  lemma Quotient(a: real, rate: real)
    requires rate > 0.0
    ensures (a / rate) * rate == a
  {
  }

  /** Whole seconds reach a quantity exactly when there are at least its ceiling of them. */
  lemma SecondsNeeded(p: Plan, missing: real, seconds: int)
    requires ValidPlan(p)
    ensures Gain(p, seconds) >= missing <==> seconds >= Ceil(missing / p.rate)
  {
    var need := missing / p.rate;
    Quotient(missing, p.rate);
    Scale(need, seconds as real, p.rate);
    CeilIs(need);
  }

  /** retry_after is exact: after a refusal, an idle caller is let through once it is over, and not before. */
  lemma RetryAfterIsExact(p: Plan, key: Option<Cell>, now: int, later: int)
    requires ValidPlan(p) && InRange(p, key) && now <= later && !Reply(p, key, now).allowed
    ensures Reply(p, Some(After(p, key, now)), later).allowed <==> later - now >= Reply(p, key, now).retryAfter
  {
    var tokens := Refill(p, key, now);
    RefillInRange(p, key, now);
    SecondsNeeded(p, 1.0 - tokens, later - now);
    SecondsNeeded(p, 1.0 - tokens, 0);
    assert Max(0, later - now) == later - now;
  }

  // ---------------------------------------------------------------- what does pass

  /** n calls at one moment. */
  function AtOnce(now: int, n: nat): seq<int> {
    seq(n, _ => now)
  }

  /** Of n calls at one moment exactly as many pass as there are whole tokens. */
  lemma {:induction false} PassAtOnce(p: Plan, key: Option<Cell>, now: int, n: nat)
    requires ValidPlan(p) && InRange(p, key)
    ensures Allowed(p, key, AtOnce(now, n)) == Min(n, Refill(p, key, now).Floor)
    decreases n
  {
    var tokens := Refill(p, key, now);
    RefillInRange(p, key, now);
    if n > 0 {
      var after := Some(After(p, key, now));
      assert AtOnce(now, n)[1..] == AtOnce(now, n - 1);
      PassAtOnce(p, after, now, n - 1);
      assert Refill(p, after, now) == After(p, key, now).tokens;
      assert tokens >= 1.0 ==> (tokens - 1.0).Floor == tokens.Floor - 1;
    }
  }

  /** `remaining` is the number of further calls that would pass at that moment. */
  lemma RemainingIsTrue(p: Plan, key: Option<Cell>, now: int, n: nat)
    requires ValidPlan(p) && InRange(p, key)
    ensures Allowed(p, Some(After(p, key, now)), AtOnce(now, n)) == Min(n, Reply(p, key, now).remaining)
  {
    RefillInRange(p, key, now);
    PassAtOnce(p, Some(After(p, key, now)), now, n);
    assert Refill(p, Some(After(p, key, now)), now) == After(p, key, now).tokens;
  }

  /** A new caller, and one who rested for a window, can make exactly `limit` calls at once. */
  lemma FullAfterRest(limit: int, window: int, key: Option<Cell>, now: int, n: nat)
    requires limit >= 1 && window >= 1 && InRange(PlanOf(limit, window), key)
    requires key.Some? ==> now - key.value.ts >= window
    ensures Allowed(PlanOf(limit, window), key, AtOnce(now, n)) == Min(n, limit)
  {
    var p := PlanOf(limit, window);
    WindowRefills(limit, window);
    if key.Some? { RestFills(p, window, key.value, now); }
    PassAtOnce(p, key, now, n);
  }

  /** Calls at least this far apart. */
  predicate Spaced(times: seq<int>, gap: int) {
    forall i :: 0 < i < |times| ==> times[i] - times[i - 1] >= gap
  }

  /** A caller who lets a token come back between calls is never refused again. */
  lemma {:induction false} PacedCallerPasses(p: Plan, key: Option<Cell>, times: seq<int>, gap: int)
    requires ValidPlan(p) && InRange(p, key) && gap >= 0 && Gain(p, gap) >= 1.0 && Spaced(times, gap)
    requires times != [] ==> Reply(p, key, times[0]).allowed
    ensures Allowed(p, key, times) == |times|
    decreases |times|
  {
    if |times| > 1 {
      var after, rest := Some(After(p, key, times[0])), times[1..];
      RefillInRange(p, key, times[0]);
      assert times[1] - times[0] >= gap;
      GainGrows(p, gap, rest[0] - times[0]);
      assert Max(0, rest[0] - times[0]) == rest[0] - times[0];
      PacedCallerPasses(p, after, rest, gap);
    }
  }
}
