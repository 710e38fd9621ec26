/** A shared budget in Redis: grants are paced by a rate key and capped by a sorted set of
    running leases. Each script is one atomic step at the server's clock `at`; the client
    passes the clock `now` it read before. */
module Backpressure {
  import opened Wrappers

  datatype Options = Options(maxPerWindow: nat, windowMs: nat, maxConcurrent: nat, acquireTimeoutMs: nat, maxHoldMs: nat)

  function Max(a: nat, b: nat): nat {
    if a >= b then a else b
  }

  function Min(a: nat, b: nat): nat {
    if a <= b then a else b
  }

  function CeilDiv(a: nat, b: nat): nat
    requires b > 0
  {
    (a + b - 1) / b
  }

  function MinSpacingMs(o: Options): nat
    requires o.maxPerWindow > 0
  {
    Max(1, CeilDiv(o.windowMs, o.maxPerWindow))
  }

  function SpacingMs(o: Options): nat
    requires o.maxPerWindow > 0
  {
    MinSpacingMs(o) + Max(50, CeilDiv(MinSpacingMs(o) * 15, 100))
  }

  /** The numbers handed to the acquire script. */
  datatype Args = Args(spacingMs: nat, maxConcurrent: nat, maxHoldMs: nat)

  function ArgsOf(o: Options): Args
    requires o.maxPerWindow > 0
  {
    Args(SpacingMs(o), o.maxConcurrent, o.maxHoldMs)
  }

  function RateTtlMs(a: Args): nat {
    Max(a.spacingMs * 20, a.maxHoldMs)
  }

  function SemTtlMs(a: Args): nat {
    Max(a.maxHoldMs * 2, a.spacingMs * 20)
  }

  /** A key with an expiry is gone once the server's clock has reached it. */
  datatype RateKey = RateKey(nextAllowedAt: nat, expiresAt: nat)

  datatype Store = Store(rate: Option<RateKey>, sem: map<string, nat>, semExpiresAt: nat)

  datatype Reply = Reply(granted: bool, nextAllowedAt: nat, concurrent: nat)

  function VisibleRate(st: Store, at: nat): nat {
    if st.rate.Some? && at < st.rate.value.expiresAt then st.rate.value.nextAllowedAt else 0
  }

  function VisibleSem(st: Store, at: nat): map<string, nat> {
    if at < st.semExpiresAt then st.sem else map[]
  }

  /** The leases a script keeps: those younger than the hold limit. */
  function Trimmed(a: Args, sem: map<string, nat>, now: nat): map<string, nat> {
    map id | id in sem && sem[id] + a.maxHoldMs > now :: sem[id]
  }

  function Decide(a: Args, nextAllowedAt: nat, concurrent: nat, now: nat): bool {
    concurrent < a.maxConcurrent && now >= nextAllowedAt
  }

  function AcquireScript(a: Args, st: Store, at: nat, now: nat, leaseId: string): (Reply, Store) {
    var sem := Trimmed(a, VisibleSem(st, at), now);
    var next := VisibleRate(st, at);
    if Decide(a, next, |sem|, now) then
      (Reply(true, now + a.spacingMs, |sem| + 1),
       Store(Some(RateKey(now + a.spacingMs, at + RateTtlMs(a))), sem[leaseId := now], at + SemTtlMs(a)))
    else (Reply(false, next, |sem|), st.(sem := sem))
  }

  function ReleaseScript(st: Store, at: nat, leaseId: string): Store {
    st.(sem := VisibleSem(st, at) - {leaseId})
  }

  /** The leases that count against the cap: those held for less than the limit. */
  function Young(sem: map<string, nat>, now: nat, maxHoldMs: nat): set<string> {
    set id | id in sem && now - sem[id] < maxHoldMs
  }

  /** The acquire script: it grants while fewer young leases than the cap are in the set and the
      clock it is passed has reached the stored time, keys that have run out not counting; a grant
      paces the next one, and a refusal tells the time and the count that stood in the way. */
  lemma ScriptExactly(a: Args, st: Store, at: nat, now: nat, leaseId: string)
    ensures var (reply, after) := AcquireScript(a, st, at, now, leaseId);
            var young := if at >= st.semExpiresAt then {} else Young(st.sem, now, a.maxHoldMs);
            var paced := st.rate.Some? && at < st.rate.value.expiresAt && now < st.rate.value.nextAllowedAt;
            && (reply.granted <==> |young| < a.maxConcurrent && !paced)
            && (reply.granted ==>
                  && reply.nextAllowedAt == now + a.spacingMs && reply.concurrent == |young| + 1
                  && after.rate.Some? && after.rate.value.nextAllowedAt == now + a.spacingMs
                  && after.sem.Keys == young + {leaseId} && after.sem[leaseId] == now)
            && (!reply.granted ==>
                  && reply.concurrent == |young| && (reply.nextAllowedAt > now <==> paced)
                  && (paced ==> reply.nextAllowedAt == st.rate.value.nextAllowedAt)
                  && after.rate == st.rate && after.semExpiresAt == st.semExpiresAt && after.sem.Keys == young)
            && forall id | id in after.sem && id != leaseId :: id in young && after.sem[id] == st.sem[id]
  {
    var sem := Trimmed(a, VisibleSem(st, at), now);
    assert sem.Keys == if at >= st.semExpiresAt then {} else Young(st.sem, now, a.maxHoldMs);
    assert |sem| == |sem.Keys|;
  }

  /** The sum that makes the pacing work: more than maxPerWindow spacings exceed a window. */
  lemma SpacingFillsWindow(o: Options, n: nat)
    requires o.maxPerWindow > 0 && n >= o.maxPerWindow
    ensures n * SpacingMs(o) > o.windowMs
  {
    var m, c, sp := o.maxPerWindow, CeilDiv(o.windowMs, o.maxPerWindow), SpacingMs(o);
    CeilDivCovers(o.windowMs, m);
    assert sp >= c + 1;
    Mul(m, c + 1, sp);
    assert sp * n >= sp * m by { Mul(sp, m, n); }
  }

  /** The smallest whole number of the given parts that covers. */
  ghost predicate LeastCovering(m: nat, part: nat, whole: nat) {
    m >= 1 && m * part >= whole && (m > 1 ==> (m - 1) * part < whole)
  }

  /** The smallest whole margin of at least 50 ms and at least 15 percent. */
  ghost predicate LeastMargin(margin: nat, m: nat) {
    margin >= 50 && margin * 100 >= m * 15 && (margin > 50 ==> (margin - 1) * 100 < m * 15)
  }

  lemma CeilDivLeast(w: nat, d: nat)
    requires d > 0
    ensures CeilDiv(w, d) * d >= w && (CeilDiv(w, d) > 0 ==> (CeilDiv(w, d) - 1) * d < w)
  {
    var c := CeilDiv(w, d);
    assert w + d - 1 == d * c + (w + d - 1) % d;
    assert d * c == c * d && (c - 1) * d == c * d - d;
  }

  /** There is but one such number. */
  lemma LeastIsUnique(m: nat, n: nat, part: nat, whole: nat)
    requires part > 0
    ensures LeastCovering(m, part, whole) && LeastCovering(n, part, whole) ==> m == n
  {
    if m < n {
      Mul(part, m, n - 1);
    } else if n < m {
      Mul(part, n, m - 1);
    }
  }

  /** The spacing, to the millisecond: the least spread of the window over its grants, plus the
      least margin of 50 ms and 15 percent. */
  lemma SpacingExactly(o: Options) returns (m: nat, margin: nat)
    requires o.maxPerWindow > 0
    ensures LeastCovering(m, o.maxPerWindow, o.windowMs) && LeastMargin(margin, m)
    ensures SpacingMs(o) == m + margin
  {
    m := MinSpacingMs(o);
    margin := Max(50, CeilDiv(m * 15, 100));
    CeilDivLeast(o.windowMs, o.maxPerWindow);
    CeilDivLeast(m * 15, 100);
  }

  lemma CeilDivCovers(w: nat, m: nat)
    requires m > 0
    ensures m * CeilDiv(w, m) >= w
  {
    assert w + m - 1 == m * CeilDiv(w, m) + (w + m - 1) % m;
  }

  lemma Mul(k: nat, x: nat, y: nat)
    requires x <= y
    ensures k * x <= k * y
  {
  }

  /** A refused script call: the clock it was passed, its reply, and the sleep that follows. */
  datatype Refusal = Refusal(now: nat, reply: Reply, sleepMs: nat)

  /** The sleep lasts until the pace allows the next grant, or 25 ms where it already does; at
      least 50 ms while the cap is reached; and at most a quarter of a second. */
  ghost predicate WaitsAsTold(o: Options, r: Refusal) {
    var least := if r.reply.concurrent >= o.maxConcurrent then 50 else 25;
    && !r.reply.granted
    && least <= r.sleepMs <= 250
    && (r.sleepMs < 250 ==> r.now + r.sleepMs >= r.reply.nextAllowedAt)
    && (r.sleepMs > least ==> r.now + r.sleepMs <= r.reply.nextAllowedAt)
  }

  /** One client's view: a loop that asks, sleeps and asks again, while the clock runs and
      other clients change the keys. */
  class RedisBackpressureService {
    var clock: nat
    var store: Store
    var calls: nat                    // script calls made by the latest acquire
    var refusals: seq<Refusal>        // and what the refused ones among them were told

    constructor (clock: nat, store: Store)
      ensures this.clock == clock && this.store == store && calls == 0 && refusals == []
    {
      this.clock, this.store, calls, refusals := clock, store, 0, [];
    }

    /** Other clients run and time passes, at least `ms`. */
    method Sleep(ms: nat)
      modifies this`clock, this`store
      ensures clock >= old(clock) + ms
    {
      var more: int :| more >= 0;
      clock := clock + ms + more;
      store := *;
    }

    method Acquire(o: Options, leaseId: string) returns (acquiredAt: Option<nat>)
      requires o.maxPerWindow > 0
      modifies this
      ensures calls <= o.acquireTimeoutMs / 25 + 1
      ensures acquiredAt.None? ==> clock > old(clock) + o.acquireTimeoutMs
      ensures acquiredAt.Some? ==>
                && old(clock) <= acquiredAt.value <= old(clock) + o.acquireTimeoutMs
                && calls >= 1
                && leaseId in store.sem && store.sem[leaseId] == acquiredAt.value
                && |store.sem| <= o.maxConcurrent
                && store.rate.Some? && store.rate.value.nextAllowedAt == acquiredAt.value + SpacingMs(o)
                && store.rate.value.expiresAt - clock == Max(20 * SpacingMs(o), o.maxHoldMs)
                && store.semExpiresAt - clock == Max(2 * o.maxHoldMs, 20 * SpacingMs(o))
      // after each refusal it sleeps as long as the pace or the cap asks for, within bounds
      ensures |refusals| == calls - (if acquiredAt.Some? then 1 else 0) && forall r | r in refusals :: WaitsAsTold(o, r)
    {
      var startedAt := clock;
      var deadline := startedAt + o.acquireTimeoutMs;
      calls, refusals := 0, [];
      Sleep(0);
      while true
        invariant |refusals| == calls && forall r | r in refusals :: WaitsAsTold(o, r)
        invariant clock >= startedAt + 25 * calls
        invariant calls > 0 ==> calls <= o.acquireTimeoutMs / 25 + 1
        decreases deadline - clock
      {
        var now := clock;
        if now > deadline {
          return None;
        }
        Sleep(0);
        var (reply, after) := AcquireScript(ArgsOf(o), store, clock, now, leaseId);
        calls := calls + 1;
        store := after;
        if reply.granted {
          return Some(now);
        }
        var waitForRate := if reply.nextAllowedAt > now then reply.nextAllowedAt - now else 25;
        var waitForConcurrency := if reply.concurrent >= o.maxConcurrent then 50 else 0;
        var sleepMs := Min(250, Max(25, Max(waitForRate, waitForConcurrency)));
        refusals := refusals + [Refusal(now, reply, sleepMs)];
        Sleep(sleepMs);
      }
    }

    method Release(leaseId: string)
      modifies this`store
      ensures leaseId !in store.sem && store.sem == VisibleSem(old(store), clock) - {leaseId}
      ensures store.rate == old(store).rate
    {
      store := ReleaseScript(store, clock, leaseId);
    }

    /** The task may throw; the lease is released in any case. */
    method RunWithBudget(o: Options, leaseId: string, taskThrows: bool) returns (ran: bool, ok: bool)
      requires o.maxPerWindow > 0
      modifies this
      ensures ok <==> ran && !taskThrows
      ensures ran ==> leaseId !in store.sem
      ensures !ran ==> clock > old(clock) + o.acquireTimeoutMs
    {
      var lease := Acquire(o, leaseId);
      if lease.None? {
        return false, false;
      }
      Sleep(0);
      Release(leaseId);
      return true, !taskThrows;
    }
  }
}
