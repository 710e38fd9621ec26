/** Any number of clients with the same options. Beside the store with its expiring keys
    runs a store whose keys never expire, fed with the same scripts. */
module BackpressureProtocol {
  import opened Wrappers
  import opened Backpressure

  datatype Plain = Plain(nextAllowedAt: nat, sem: map<string, nat>)

  /** `asked` maps the lease ids of scripts on their way to the clock their client read;
      `running` maps the ids of granted leases whose task runs to that clock; `grants`
      are those clocks of the grants, in order, and `grantedAt` the clocks at which their
      scripts ran; `same` says that the two stores have always decided alike. */
  datatype State = State(clock: nat, store: Store, plain: Plain, asked: map<string, nat>, running: map<string, nat>,
                         ended: set<string>, grants: seq<nat>, grantedAt: seq<nat>, same: bool)

  datatype Event =
    | Tick(to: nat)
    | Ask(id: string)
    | Script(id: string)
    | TaskEnds(id: string)
    | Release(id: string)

  const START: State := State(0, Store(None, map[], 0), Plain(0, map[]), map[], map[], {}, [], [], true)

  ghost predicate Unused(s: State, id: string) {
    id !in s.asked && id !in s.running && id !in s.ended && id !in s.store.sem && id !in s.plain.sem
  }

  ghost predicate Enabled(s: State, e: Event) {
    match e
    case Tick(to) => to >= s.clock
    case Ask(id) => Unused(s, id)
    case Script(id) => id in s.asked
    case TaskEnds(id) => id in s.running
    case Release(id) => id in s.ended
  }

  ghost function PlainScript(a: Args, p: Plain, now: nat, leaseId: string): (bool, Plain)
  {
    var sem := Trimmed(a, p.sem, now);
    if Decide(a, p.nextAllowedAt, |sem|, now)
    then (true, Plain(now + a.spacingMs, sem[leaseId := now]))
    else (false, p.(sem := sem))
  }

  ghost function Apply(a: Args, s: State, e: Event): State
    requires Enabled(s, e)
  {
    match e
    case Tick(to) => s.(clock := to)
    case Ask(id) => s.(asked := s.asked[id := s.clock])
    case Script(id) =>
      var now := s.asked[id];
      var (reply, store) := AcquireScript(a, s.store, s.clock, now, id);
      var (granted, plain) := PlainScript(a, s.plain, now, id);
      var s1 := s.(store := store, plain := plain, asked := s.asked - {id}, same := s.same && (reply.granted == granted));
      if reply.granted
      then s1.(running := s.running[id := now], grants := s.grants + [now], grantedAt := s.grantedAt + [s.clock])
      else s1
    case TaskEnds(id) => s.(running := s.running - {id}, ended := s.ended + {id})
    case Release(id) =>
      s.(store := ReleaseScript(s.store, s.clock, id), plain := s.plain.(sem := s.plain.sem - {id}), ended := s.ended - {id})
  }

  ghost predicate IsRun(a: Args, es: seq<Event>, ss: seq<State>)
  {
    && |ss| == |es| + 1
    && ss[0] == START
    && forall i {:trigger es[i]} | 0 <= i < |es| :: Enabled(ss[i], es[i]) && ss[i + 1] == Apply(a, ss[i], es[i])
  }

  /** How long a script may be on its way before an expired key can matter. */
  function LatencyBoundMs(a: Args): nat
  {
    Min(RateTtlMs(a) - a.spacingMs, SemTtlMs(a) - a.maxHoldMs)
  }

  /** No script is on its way for longer than `latencyMs`. */
  ghost predicate WithinAt(s: State, latencyMs: nat) {
    forall id | id in s.asked :: s.clock <= s.asked[id] + latencyMs
  }

  ghost predicate Within(ss: seq<State>, latencyMs: nat) {
    forall i | 0 <= i < |ss| :: WithinAt(ss[i], latencyMs)
  }

  ghost predicate PromptAt(a: Args, s: State)
  {
    WithinAt(s, LatencyBoundMs(a))
  }

  ghost predicate Prompt(a: Args, ss: seq<State>)
  {
    forall i | 0 <= i < |ss| :: PromptAt(a, ss[i])
  }

  /** The expiring store shows what the other store shows, less what any script still on
      its way would trim anyway. */
  ghost predicate Simulates(a: Args, s: State)
  {
    var d := LatencyBoundMs(a);
    && (s.store.rate.None? ==> s.plain.nextAllowedAt == 0)
    && (s.store.rate.Some? ==>
          && s.store.rate.value.nextAllowedAt == s.plain.nextAllowedAt
          && s.plain.nextAllowedAt + d <= s.store.rate.value.expiresAt)
    && (forall id | id in s.store.sem ::
          && id in s.plain.sem && s.plain.sem[id] == s.store.sem[id]
          && s.store.sem[id] <= s.clock
          && s.store.sem[id] + a.maxHoldMs + d <= s.store.semExpiresAt)
    && (forall id | id in s.plain.sem && id !in s.store.sem :: s.plain.sem[id] + a.maxHoldMs + d <= s.clock)
    && (forall id | id in s.asked :: s.asked[id] <= s.clock)
  }

  ghost predicate Paced(a: Args, s: State)
  {
    && (s.grants == [] ==> s.plain.nextAllowedAt == 0)
    && (s.grants != [] ==> s.plain.nextAllowedAt == s.grants[|s.grants| - 1] + a.spacingMs)
    && (forall i | 0 < i < |s.grants| :: s.grants[i - 1] + a.spacingMs <= s.grants[i])
  }

  ghost predicate Agree(a: Args, s: State, id: string)
    requires id in s.asked
  {
    && Trimmed(a, VisibleSem(s.store, s.clock), s.asked[id]) == Trimmed(a, s.plain.sem, s.asked[id])
    && (s.asked[id] >= VisibleRate(s.store, s.clock) <==> s.asked[id] >= s.plain.nextAllowedAt)
  }

  lemma DecisionsAgree(a: Args, s: State, id: string)
    requires Simulates(a, s) && PromptAt(a, s) && id in s.asked
    ensures Agree(a, s, id)
  {
  }

  /** What the script leaves behind in both stores, once they agree. */
  lemma ScriptEffect(a: Args, s: State, id: string) returns (sem: map<string, nat>, granted: bool)
    requires Enabled(s, Script(id)) && Agree(a, s, id)
    ensures var s' := Apply(a, s, Script(id));
            && s'.clock == s.clock && s'.asked == s.asked - {id} && s'.plain.sem == s'.store.sem
            && (s.same ==> s'.same)
            && (forall x | x in sem :: x in s.store.sem && sem[x] == s.store.sem[x])
            && (!granted ==> s'.store == s.store.(sem := sem) && s'.plain.nextAllowedAt == s.plain.nextAllowedAt && s'.grants == s.grants)
            && (granted ==>
                  && s'.store == Store(Some(RateKey(s.asked[id] + a.spacingMs, s.clock + RateTtlMs(a))),
                                       sem[id := s.asked[id]], s.clock + SemTtlMs(a))
                  && s'.plain.nextAllowedAt == s.asked[id] + a.spacingMs && s'.grants == s.grants + [s.asked[id]]
                  && s.asked[id] >= s.plain.nextAllowedAt)
  {
    sem := Trimmed(a, VisibleSem(s.store, s.clock), s.asked[id]);
    granted := AcquireScript(a, s.store, s.clock, s.asked[id], id).0.granted;
  }

  lemma ScriptKeepsPace(a: Args, s: State, id: string)
    requires Enabled(s, Script(id)) && Agree(a, s, id)
    ensures s.same ==> Apply(a, s, Script(id)).same
    ensures s.same && Paced(a, s) ==> Paced(a, Apply(a, s, Script(id)))
  {
    var _, granted := ScriptEffect(a, s, id);
    var s' := Apply(a, s, Script(id));
    if granted {
      forall i | 0 < i < |s'.grants| && Paced(a, s) ensures s'.grants[i - 1] + a.spacingMs <= s'.grants[i] {
        assert s'.grants[i - 1] == s.grants[i - 1];
      }
    }
  }

  lemma ScriptSimulates(a: Args, s: State, id: string)
    requires Enabled(s, Script(id)) && Simulates(a, s) && PromptAt(a, s)
    ensures Simulates(a, Apply(a, s, Script(id)))
  {
    assert LatencyBoundMs(a) + a.spacingMs <= RateTtlMs(a) && LatencyBoundMs(a) + a.maxHoldMs <= SemTtlMs(a);
    DecisionsAgree(a, s, id);
    var sem, granted := ScriptEffect(a, s, id);
  }

  lemma StepSimulates(a: Args, s: State, e: Event)
    requires Enabled(s, e) && Simulates(a, s) && PromptAt(a, s)
    ensures Simulates(a, Apply(a, s, e)) && (s.same ==> Apply(a, s, e).same)
    ensures s.same && Paced(a, s) ==> Paced(a, Apply(a, s, e))
  {
    if e.Script? {
      ScriptSimulates(a, s, e.id);
      DecisionsAgree(a, s, e.id);
      ScriptKeepsPace(a, s, e.id);
    }
  }

  lemma NextSimulates(a: Args, es: seq<Event>, ss: seq<State>, i: nat)
    requires IsRun(a, es, ss) && Prompt(a, ss) && i < |es|
    requires Simulates(a, ss[i]) && ss[i].same && Paced(a, ss[i])
    ensures Simulates(a, ss[i + 1]) && ss[i + 1].same && Paced(a, ss[i + 1])
  {
    assert PromptAt(a, ss[i]) && Enabled(ss[i], es[i]);
    StepSimulates(a, ss[i], es[i]);
  }

  lemma StartSimulates(a: Args)
    ensures Simulates(a, START) && START.same && Paced(a, START)
  {
  }

  lemma {:induction false} RunSimulates(a: Args, es: seq<Event>, ss: seq<State>, i: nat)
    requires IsRun(a, es, ss) && Prompt(a, ss) && i < |ss|
    ensures Simulates(a, ss[i]) && ss[i].same && Paced(a, ss[i])
    decreases i
  {
    if i == 0 {
      StartSimulates(a);
    } else {
      RunSimulates(a, es, ss, i - 1);
      NextSimulates(a, es, ss, i - 1);
    }
  }

  /** Key expiry never changes a decision while scripts arrive within the latency bound. */
  lemma ExpiryChangesNothing(a: Args, es: seq<Event>, ss: seq<State>, i: nat, id: string)
    requires IsRun(a, es, ss) && Prompt(a, ss) && i < |es| && es[i] == Script(id)
    ensures var now := ss[i].asked[id];
            AcquireScript(a, ss[i].store, ss[i].clock, now, id).0.granted == PlainScript(a, ss[i].plain, now, id).0
    ensures AcquireScript(a, ss[i].store, ss[i].clock, ss[i].asked[id], id).1.sem == PlainScript(a, ss[i].plain, ss[i].asked[id], id).1.sem
  {
    RunSimulates(a, es, ss, i);
    DecisionsAgree(a, ss[i], id);
  }

  /** Exactly when a script is granted: the spacing has passed since the last grant, on the clocks
      that the clients read, and fewer leases than the cap are young. */
  lemma GrantedWhenDue(o: Options, es: seq<Event>, ss: seq<State>, i: nat, id: string)
      returns (m: nat, margin: nat)
    requires o.maxPerWindow > 0
    requires IsRun(ArgsOf(o), es, ss) && Prompt(ArgsOf(o), ss) && i < |es| && es[i] == Script(id)
    ensures LeastCovering(m, o.maxPerWindow, o.windowMs) && LeastMargin(margin, m)
    ensures var now, grants, sem := ss[i].asked[id], ss[i].grants, ss[i].plain.sem;
            ss[i + 1].grants == (if (grants == [] || now >= grants[|grants| - 1] + m + margin)
                                    && |Young(sem, now, o.maxHoldMs)| < o.maxConcurrent
                                 then grants + [now] else grants)
    // an expired key hides no young lease
    ensures Young(ss[i].plain.sem, ss[i].asked[id], o.maxHoldMs)
         == Young(VisibleSem(ss[i].store, ss[i].clock), ss[i].asked[id], o.maxHoldMs)
  {
    var a, s := ArgsOf(o), ss[i];
    var now := s.asked[id];
    m, margin := SpacingExactly(o);
    RunSimulates(a, es, ss, i);
    assert PromptAt(a, s) && Enabled(s, es[i]) && ss[i + 1] == Apply(a, s, es[i]);
    DecisionsAgree(a, s, id);
    assert Trimmed(a, s.plain.sem, now).Keys == Young(s.plain.sem, now, o.maxHoldMs);
    assert Trimmed(a, VisibleSem(s.store, s.clock), now).Keys == Young(VisibleSem(s.store, s.clock), now, o.maxHoldMs);
    assert |Trimmed(a, s.plain.sem, now)| == |Trimmed(a, s.plain.sem, now).Keys|;
  }

  /** On the clocks that the clients read, any two grants are as many spacings apart as there
      are grants between them. */
  lemma {:induction false} GrantsAreSpaced(a: Args, es: seq<Event>, ss: seq<State>, i: nat, j: nat, k: nat)
    requires IsRun(a, es, ss) && Prompt(a, ss) && i < |ss| && j <= k < |ss[i].grants|
    ensures ss[i].grants[j] + (k - j) * a.spacingMs <= ss[i].grants[k]
    decreases k - j
  {
    RunSimulates(a, es, ss, i);
    if j < k {
      GrantsAreSpaced(a, es, ss, i, j, k - 1);
      assert (k - j) * a.spacingMs == (k - 1 - j) * a.spacingMs + a.spacingMs;
    }
  }

  /** The grants whose clock lies in the closed window that starts at `from`. */
  ghost function InWindow(grants: seq<nat>, from: nat, windowMs: nat): set<nat> {
    set k: nat | k < |grants| && from <= grants[k] <= from + windowMs
  }

  lemma {:induction false} SpanBoundsSize(s: set<nat>, lo: nat, n: nat)
    requires forall k | k in s :: lo <= k < lo + n
    ensures |s| <= n
  {
    if n > 0 {
      var last := lo + n - 1;
      SpanBoundsSize(s - {last}, lo, n - 1);
    } else {
      assert s == {};
    }
  }

  lemma {:induction false} LeastElement(s: set<nat>) returns (least: nat)
    requires s != {}
    ensures least in s && forall k | k in s :: least <= k
  {
    var x :| x in s;
    if s == {x} {
      least := x;
    } else {
      var rest := LeastElement(s - {x});
      least := Min(x, rest);
      assert forall k | k in s :: k == x || k in s - {x};
    }
  }

  lemma FewInWindow(grants: seq<nat>, from: nat, windowMs: nat, most: nat)
    requires forall j, k | 0 <= j <= k < |grants| && k - j >= most :: grants[k] - grants[j] > windowMs
    ensures |InWindow(grants, from, windowMs)| <= most
  {
    var window := InWindow(grants, from, windowMs);
    if window != {} {
      var least := LeastElement(window);
      assert forall k | k in window :: least <= k < least + most;
      SpanBoundsSize(window, least, most);
    }
  }

  /** On the clocks that the clients read, clients that share their options never get more than
      maxPerWindow grants in any window, both ends included. */
  lemma WindowBudget(o: Options, es: seq<Event>, ss: seq<State>, i: nat, from: nat)
    requires o.maxPerWindow > 0
    requires IsRun(ArgsOf(o), es, ss) && Prompt(ArgsOf(o), ss) && i < |ss|
    ensures |InWindow(ss[i].grants, from, o.windowMs)| <= o.maxPerWindow
  {
    var grants := ss[i].grants;
    forall j, k | 0 <= j <= k < |grants| && k - j >= o.maxPerWindow ensures grants[k] - grants[j] > o.windowMs {
      GrantsAreSpaced(ArgsOf(o), es, ss, i, j, k);
      SpacingFillsWindow(o, k - j);
    }
    FewInWindow(grants, from, o.windowMs, o.maxPerWindow);
  }

  // ----- the same on the clock at which the scripts run

  ghost predicate Lagging(s: State, latencyMs: nat) {
    && |s.grantedAt| == |s.grants|
    && (forall k | 0 <= k < |s.grants| :: s.grants[k] <= s.grantedAt[k] <= s.grants[k] + latencyMs)
    && (forall id | id in s.asked :: s.asked[id] <= s.clock)
  }

  lemma StepKeepsLag(a: Args, s: State, e: Event, latencyMs: nat)
    requires Enabled(s, e) && Lagging(s, latencyMs) && WithinAt(s, latencyMs)
    ensures Lagging(Apply(a, s, e), latencyMs)
  {
  }

  lemma {:induction false} RunKeepsLag(a: Args, es: seq<Event>, ss: seq<State>, i: nat, latencyMs: nat)
    requires IsRun(a, es, ss) && Within(ss, latencyMs) && i < |ss|
    ensures Lagging(ss[i], latencyMs)
    decreases i
  {
    if i > 0 {
      RunKeepsLag(a, es, ss, i - 1, latencyMs);
      assert WithinAt(ss[i - 1], latencyMs) && ss[i] == Apply(a, ss[i - 1], es[i - 1]);
      StepKeepsLag(a, ss[i - 1], es[i - 1], latencyMs);
    }
  }

  lemma WithinMeansPrompt(a: Args, ss: seq<State>, latencyMs: nat)
    requires Within(ss, latencyMs) && latencyMs <= LatencyBoundMs(a)
    ensures Prompt(a, ss)
  {
    forall i | 0 <= i < |ss| ensures PromptAt(a, ss[i]) {
      assert WithinAt(ss[i], latencyMs);
    }
  }

  /** Where the scripts run, a spacing can be short by the latency, but only once. */
  lemma GrantedSpacing(a: Args, es: seq<Event>, ss: seq<State>, i: nat, j: nat, k: nat, latencyMs: nat)
    requires IsRun(a, es, ss) && Within(ss, latencyMs) && latencyMs <= LatencyBoundMs(a)
    requires i < |ss| && j <= k < |ss[i].grantedAt|
    ensures ss[i].grantedAt[j] + (k - j) * a.spacingMs <= ss[i].grantedAt[k] + latencyMs
  {
    WithinMeansPrompt(a, ss, latencyMs);
    RunKeepsLag(a, es, ss, i, latencyMs);
    GrantsAreSpaced(a, es, ss, i, j, k);
  }

  /** How much longer than the window maxPerWindow spacings are: the latency the budget bears. */
  function SlackMs(o: Options): int
    requires o.maxPerWindow > 0
  {
    o.maxPerWindow * SpacingMs(o) - o.windowMs
  }

  lemma SlackCovers(o: Options, n: nat)
    requires o.maxPerWindow > 0 && n >= o.maxPerWindow
    ensures n * SpacingMs(o) >= SlackMs(o) + o.windowMs
  {
    Mul(SpacingMs(o), o.maxPerWindow, n);
  }

  lemma FarApart(o: Options, es: seq<Event>, ss: seq<State>, i: nat, j: nat, k: nat, latencyMs: nat)
    requires o.maxPerWindow > 0 && IsRun(ArgsOf(o), es, ss) && Within(ss, latencyMs)
    requires latencyMs <= LatencyBoundMs(ArgsOf(o)) && latencyMs < SlackMs(o)
    requires i < |ss| && j <= k < |ss[i].grantedAt| && k - j >= o.maxPerWindow
    ensures ss[i].grantedAt[k] - ss[i].grantedAt[j] > o.windowMs
  {
    GrantedSpacing(ArgsOf(o), es, ss, i, j, k, latencyMs);
    SlackCovers(o, k - j);
  }

  ghost predicate BudgetKept(o: Options, ss: seq<State>) {
    forall i, from: nat | 0 <= i < |ss| :: |InWindow(ss[i].grantedAt, from, o.windowMs)| <= o.maxPerWindow
  }

  /** Pacing: while the latency is less than the slack, no window, both ends included, ever
      contains more than maxPerWindow grants. */
  lemma GrantedBudget(o: Options, es: seq<Event>, ss: seq<State>, latencyMs: nat)
    requires o.maxPerWindow > 0 && IsRun(ArgsOf(o), es, ss) && Within(ss, latencyMs)
    requires latencyMs <= LatencyBoundMs(ArgsOf(o)) && latencyMs < SlackMs(o)
    ensures BudgetKept(o, ss)
  {
    forall i, from: nat | 0 <= i < |ss| ensures |InWindow(ss[i].grantedAt, from, o.windowMs)| <= o.maxPerWindow {
      var grants := ss[i].grantedAt;
      forall j, k | 0 <= j <= k < |grants| && k - j >= o.maxPerWindow ensures grants[k] - grants[j] > o.windowMs {
        FarApart(o, es, ss, i, j, k, latencyMs);
      }
      FewInWindow(grants, from, o.windowMs, o.maxPerWindow);
    }
  }

  /** The hold bound: a task ends before the lease it runs under can be trimmed. */
  ghost predicate HoldsInTimeAt(a: Args, s: State) {
    forall id | id in s.running :: s.clock < s.running[id] + a.maxHoldMs
  }

  ghost predicate HoldsInTime(a: Args, ss: seq<State>) {
    forall i | 0 <= i < |ss| :: HoldsInTimeAt(a, ss[i])
  }

  ghost predicate SemaphoreOk(a: Args, s: State) {
    && |s.store.sem| <= a.maxConcurrent
    && (forall id | id in s.running ::
          && id in s.store.sem && s.store.sem[id] == s.running[id] && s.running[id] <= s.clock
          && s.running[id] + SemTtlMs(a) <= s.store.semExpiresAt)
    && (forall id | id in s.asked :: s.asked[id] <= s.clock && id !in s.running && id !in s.ended)
    && (forall id | id in s.ended :: id !in s.running)
  }

  lemma ScriptKeepsSemaphore(a: Args, s: State, id: string)
    requires id in s.asked && SemaphoreOk(a, s) && HoldsInTimeAt(a, s)
    ensures SemaphoreOk(a, Apply(a, s, Script(id)))
  {
    var sem := Trimmed(a, VisibleSem(s.store, s.clock), s.asked[id]);
    SubsetSize(sem.Keys, s.store.sem.Keys);
    var s' := Apply(a, s, Script(id));
    forall x | x in s'.running
      ensures x in s'.store.sem && s'.store.sem[x] == s'.running[x] && s'.running[x] <= s'.clock
              && s'.running[x] + SemTtlMs(a) <= s'.store.semExpiresAt
    {
      if x in s.running {
        assert s.clock < s.running[x] + a.maxHoldMs;
        assert x in sem;
      }
    }
  }

  lemma ReleaseKeepsSemaphore(a: Args, s: State, id: string)
    requires id in s.ended && SemaphoreOk(a, s) && HoldsInTimeAt(a, s)
    ensures SemaphoreOk(a, Apply(a, s, Release(id)))
  {
    var s' := Apply(a, s, Release(id));
    SubsetSize(s'.store.sem.Keys, s.store.sem.Keys);
    forall x | x in s'.running ensures x in s'.store.sem {
      assert s.clock < s.running[x] + a.maxHoldMs && x != id;
    }
  }

  lemma StepKeepsSemaphore(a: Args, s: State, e: Event, s': State)
    requires Enabled(s, e) && s' == Apply(a, s, e) && SemaphoreOk(a, s) && HoldsInTimeAt(a, s)
    ensures SemaphoreOk(a, s')
  {
    if e.Script? {
      ScriptKeepsSemaphore(a, s, e.id);
    } else if e.Release? {
      ReleaseKeepsSemaphore(a, s, e.id);
    }
  }

  lemma {:induction false} SubsetSize(a: set<string>, b: set<string>)
    requires a <= b
    ensures |a| <= |b|
  {
    if a != {} {
      var x :| x in a;
      SubsetSize(a - {x}, b - {x});
    }
  }

  lemma NextSemaphore(a: Args, es: seq<Event>, ss: seq<State>, i: nat)
    requires IsRun(a, es, ss) && HoldsInTime(a, ss) && 0 < i < |ss| && SemaphoreOk(a, ss[i - 1])
    ensures SemaphoreOk(a, ss[i])
  {
    StepKeepsSemaphore(a, ss[i - 1], es[i - 1], ss[i]);
  }

  lemma {:induction false} RunKeepsSemaphore(a: Args, es: seq<Event>, ss: seq<State>, i: nat)
    requires IsRun(a, es, ss) && HoldsInTime(a, ss) && i < |ss|
    ensures SemaphoreOk(a, ss[i])
    decreases i
  {
    if i > 0 {
      RunKeepsSemaphore(a, es, ss, i - 1);
      NextSemaphore(a, es, ss, i);
    } else {
      StartKeepsSemaphore(a);
    }
  }

  lemma StartKeepsSemaphore(a: Args)
    ensures SemaphoreOk(a, START)
  {
  }

  /** Concurrency: when tasks end within the hold limit, every running task is in the
      semaphore, and so at most maxConcurrent tasks run; no latency bound is needed. */
  lemma RunningWithinCap(a: Args, es: seq<Event>, ss: seq<State>, i: nat)
    requires IsRun(a, es, ss) && HoldsInTime(a, ss) && i < |ss|
    ensures ss[i].running.Keys <= ss[i].store.sem.Keys
    ensures |ss[i].running| <= |ss[i].store.sem| <= a.maxConcurrent
  {
    RunKeepsSemaphore(a, es, ss, i);
    SubsetSize(ss[i].running.Keys, ss[i].store.sem.Keys);
  }

  lemma Extend(a: Args, es: seq<Event>, ss: seq<State>, e: Event) returns (es': seq<Event>, ss': seq<State>)
    requires IsRun(a, es, ss) && Enabled(ss[|es|], e)
    ensures IsRun(a, es', ss') && |es'| == |es| + 1 && ss'[|es'|] == Apply(a, ss[|es|], e)
    ensures !Prompt(a, ss) || !PromptAt(a, ss'[|es'|]) ==> !Prompt(a, ss')
  {
    es', ss' := es + [e], ss + [Apply(a, ss[|es|], e)];
    if !Prompt(a, ss) {
      var i :| 0 <= i < |ss| && !PromptAt(a, ss[i]);
      assert ss'[i] == ss[i];
    } else if !PromptAt(a, ss'[|es'|]) {
      assert |es'| < |ss'|;
    }
  }

  /** The latency bound matters: a script whose clock was read early and that arrives
      after the rate key has run out is granted without any spacing. */
  lemma LateScriptBreaksPacing(o: Options, p: string, q: string) returns (es: seq<Event>, ss: seq<State>)
    requires o.maxPerWindow > 0 && o.maxConcurrent > 1 && p != q
    ensures IsRun(ArgsOf(o), es, ss) && !Prompt(ArgsOf(o), ss)
    ensures ss[|es|].grants == [0, 1] && SpacingMs(o) > 1
  {
    var a := ArgsOf(o);
    es, ss := Extend(a, [], [START], Ask(p));
    FirstScript(a, p);
    es, ss := Extend(a, es, ss, Script(p));
    es, ss := Extend(a, es, ss, Tick(1));
    es, ss := Extend(a, es, ss, Ask(q));
    es, ss := Extend(a, es, ss, Tick(RateTtlMs(a)));
    LateScript(a, p, q, ss[|es|]);
    assert q in ss[|es|].asked && !PromptAt(a, ss[|es|]);
    es, ss := Extend(a, es, ss, Script(q));
  }

  lemma LateScript(a: Args, p: string, q: string, s: State)
    requires a.maxConcurrent > 1 && q in s.asked && s.asked[q] == 1
    requires s.store.rate.Some? && s.clock >= s.store.rate.value.expiresAt && s.store.sem == map[p := 0]
    ensures Apply(a, s, Script(q)).grants == s.grants + [1]
  {
    SubsetSize(Trimmed(a, VisibleSem(s.store, s.clock), 1).Keys, {p});
  }

  lemma FirstScript(a: Args, p: string)
    requires a.maxConcurrent > 0
    ensures Apply(a, START.(asked := map[p := 0]), Script(p))
         == State(0, Store(Some(RateKey(a.spacingMs, RateTtlMs(a))), map[p := 0], SemTtlMs(a)),
                  Plain(a.spacingMs, map[p := 0]), map[], map[p := 0], {}, [0], [0], true)
  {
    assert Trimmed(a, VisibleSem(START.store, 0), 0) == map[] == Trimmed(a, START.plain.sem, 0);
  }
}
