/** The slack is exactly the latency that the budget bears: at the slack there is a run with one
    grant too many in a window. */
module PacingThreshold {
  import opened Wrappers
  import opened Text
  import opened Backpressure
  import opened BackpressureProtocol

  /** The scripts `lo` to `hi - 1`, each asked for one spacing after the one before. */
  function Asked(lo: nat, hi: nat, spacingMs: nat): map<string, nat>
    requires lo <= hi
  {
    if lo == hi then map[] else Asked(lo, hi - 1, spacingMs)[Digits(hi - 1) := (hi - 1) * spacingMs]
  }

  lemma {:induction false} AskedAre(lo: nat, hi: nat, spacingMs: nat, k: nat)
    requires lo <= hi
    ensures Digits(k) in Asked(lo, hi, spacingMs) <==> lo <= k < hi
    ensures lo <= k < hi ==> Asked(lo, hi, spacingMs)[Digits(k)] == k * spacingMs
  {
    if lo < hi {
      AskedAre(lo, hi - 1, spacingMs, k);
      if Digits(k) == Digits(hi - 1) {
        DigitsInjective(k, hi - 1);
      }
    }
  }

  lemma {:induction false} FirstAnswered(lo: nat, hi: nat, spacingMs: nat)
    requires lo < hi
    ensures Asked(lo, hi, spacingMs) - {Digits(lo)} == Asked(lo + 1, hi, spacingMs)
  {
    if lo < hi - 1 {
      FirstAnswered(lo, hi - 1, spacingMs);
      AskedAre(lo, hi, spacingMs, hi - 1);
      if Digits(lo) == Digits(hi - 1) {
        DigitsInjective(lo, hi - 1);
      }
    }
  }

  /** `done` scripts have run and their tasks have ended; `asked` have been asked for. */
  ghost predicate Underway(a: Args, s: State, done: nat, asked: nat) {
    && done <= asked && s.asked == Asked(done, asked, a.spacingMs)
    && s.running == map[] && s.ended == {} && s.store.sem == map[] && s.plain.sem == map[]
    && |s.grantedAt| == done
    && s.plain.nextAllowedAt <= done * a.spacingMs
    && (s.store.rate.Some? ==> s.store.rate.value.nextAllowedAt <= done * a.spacingMs)
  }

  lemma AskNext(a: Args, s: State, done: nat, asked: nat)
    requires Underway(a, s, done, asked) && s.clock == asked * a.spacingMs
    ensures Enabled(s, Ask(Digits(asked))) && Underway(a, Apply(a, s, Ask(Digits(asked))), done, asked + 1)
  {
    AskedAre(done, asked, a.spacingMs, asked);
  }

  lemma ScriptNext(a: Args, s: State, done: nat, asked: nat)
    requires Underway(a, s, done, asked) && done < asked && a.maxConcurrent > 0
    ensures Enabled(s, Script(Digits(done)))
    ensures var id, now, s' := Digits(done), done * a.spacingMs, Apply(a, s, Script(Digits(done)));
            && s'.clock == s.clock && s'.asked == Asked(done + 1, asked, a.spacingMs)
            && s'.running == map[id := now] && s'.ended == {} && s'.grantedAt == s.grantedAt + [s.clock]
            && s'.store.sem == s'.plain.sem == map[id := now]
            && s'.plain.nextAllowedAt == now + a.spacingMs
            && s'.store.rate.Some? && s'.store.rate.value.nextAllowedAt == now + a.spacingMs
  {
    AskedAre(done, asked, a.spacingMs, done);
    FirstAnswered(done, asked, a.spacingMs);
    assert Backpressure.Trimmed(a, VisibleSem(s.store, s.clock), done * a.spacingMs) == map[];
    assert Backpressure.Trimmed(a, s.plain.sem, done * a.spacingMs) == map[];
  }

  lemma Next(n: nat, spacingMs: nat)
    ensures (n + 1) * spacingMs == n * spacingMs + spacingMs
  {
  }

  /** The next script runs, and its task ends at once. */
  lemma GrantNext(a: Args, latencyMs: nat, es: seq<Event>, ss: seq<State>, done: nat, asked: nat)
      returns (es': seq<Event>, ss': seq<State>)
    requires IsRun(a, es, ss) && Within(ss, latencyMs) && Underway(a, ss[|es|], done, asked)
    requires done < asked && a.maxConcurrent > 0
    ensures IsRun(a, es', ss') && Within(ss', latencyMs) && Underway(a, ss'[|es'|], done + 1, asked)
    ensures ss'[|es'|].clock == ss[|es|].clock && ss'[|es'|].grantedAt == ss[|es|].grantedAt + [ss[|es|].clock]
  {
    var s, id := ss[|es|], Digits(done);
    assert WithinAt(s, latencyMs);
    ScriptNext(a, s, done, asked);
    var s1 := Apply(a, s, Script(id));
    es', ss' := Grow(a, latencyMs, es, ss, Script(id));
    var s2 := Apply(a, s1, TaskEnds(id));
    es', ss' := Grow(a, latencyMs, es', ss', TaskEnds(id));
    assert s2.running == map[] && s2.ended == {id};
    es', ss' := Grow(a, latencyMs, es', ss', Release(id));
    Next(done, a.spacingMs);
  }

  lemma Grow(a: Args, latencyMs: nat, es: seq<Event>, ss: seq<State>, e: Event) returns (es': seq<Event>, ss': seq<State>)
    requires IsRun(a, es, ss) && Within(ss, latencyMs) && Enabled(ss[|es|], e)
    requires WithinAt(Apply(a, ss[|es|], e), latencyMs)
    ensures IsRun(a, es', ss') && Within(ss', latencyMs) && |es'| == |es| + 1 && ss'[|es'|] == Apply(a, ss[|es|], e)
  {
    es', ss' := es + [e], ss + [Apply(a, ss[|es|], e)];
  }

  /** The first `n` clients ask, one spacing apart. */
  lemma {:induction false} AskEarly(a: Args, latencyMs: nat, n: nat) returns (es: seq<Event>, ss: seq<State>)
    requires n > 0 && (n - 1) * a.spacingMs <= latencyMs
    ensures IsRun(a, es, ss) && Within(ss, latencyMs) && Underway(a, ss[|es|], 0, n)
    ensures ss[|es|].clock == (n - 1) * a.spacingMs && ss[|es|].grantedAt == []
    decreases n
  {
    if n == 1 {
      es, ss := [], [START];
    } else {
      Next(n - 2, a.spacingMs);
      es, ss := AskEarly(a, latencyMs, n - 1);
      es, ss := Grow(a, latencyMs, es, ss, Tick((n - 1) * a.spacingMs));
    }
    AskNext(a, ss[|es|], 0, n - 1);
    es, ss := Grow(a, latencyMs, es, ss, Ask(Digits(n - 1)));
  }

  ghost predicate AllWithin(times: seq<nat>, lo: nat, hi: nat) {
    forall k | 0 <= k < |times| :: lo <= times[k] <= hi
  }

  /** Of the `n` scripts on their way, the first `m` run now. */
  lemma {:induction false} GrantEarly(a: Args, latencyMs: nat, es: seq<Event>, ss: seq<State>, n: nat, m: nat)
      returns (es': seq<Event>, ss': seq<State>)
    requires IsRun(a, es, ss) && Within(ss, latencyMs) && Underway(a, ss[|es|], 0, n) && m <= n && a.maxConcurrent > 0
    ensures IsRun(a, es', ss') && Within(ss', latencyMs) && Underway(a, ss'[|es'|], m, n)
    ensures ss'[|es'|].clock == ss[|es|].clock && AllWithin(ss'[|es'|].grantedAt, ss[|es|].clock, ss[|es|].clock)
    decreases m
  {
    es', ss' := es, ss;
    if m > 0 {
      es', ss' := GrantEarly(a, latencyMs, es, ss, n, m - 1);
      es', ss' := GrantNext(a, latencyMs, es', ss', m - 1, n);
    }
  }

  /** From the n-th on, each client asks one spacing later, and its script runs at once. */
  lemma {:induction false} GrantLater(a: Args, latencyMs: nat, es: seq<Event>, ss: seq<State>, n: nat, m: nat, first: nat, last: nat)
      returns (es': seq<Event>, ss': seq<State>)
    requires IsRun(a, es, ss) && Within(ss, latencyMs) && Underway(a, ss[|es|], n, n) && n <= m && a.maxConcurrent > 0
    requires AllWithin(ss[|es|].grantedAt, first, last) && first <= ss[|es|].clock <= n * a.spacingMs
    requires m > n ==> (m - 1) * a.spacingMs <= last
    ensures IsRun(a, es', ss') && Within(ss', latencyMs) && Underway(a, ss'[|es'|], m, m)
    ensures AllWithin(ss'[|es'|].grantedAt, first, last) && first <= ss'[|es'|].clock <= m * a.spacingMs
    decreases m - n
  {
    es', ss' := es, ss;
    if m > n {
      Next(m - 1, a.spacingMs);
      if m - 1 > n {
        Next(m - 2, a.spacingMs);
      }
      es', ss' := GrantLater(a, latencyMs, es, ss, n, m - 1, first, last);
      es', ss' := Grow(a, latencyMs, es', ss', Tick((m - 1) * a.spacingMs));
      AskNext(a, ss'[|es'|], m - 1, m - 1);
      es', ss' := Grow(a, latencyMs, es', ss', Ask(Digits(m - 1)));
      es', ss' := GrantNext(a, latencyMs, es', ss', m - 1, m);
    }
  }

  function Below(n: nat): (r: set<nat>)
    ensures |r| == n && forall k: nat :: k in r <==> k < n
  {
    if n == 0 then {} else Below(n - 1) + {n - 1}
  }

  lemma AllCounted(times: seq<nat>, from: nat, windowMs: nat)
    requires AllWithin(times, from, from + windowMs)
    ensures |InWindow(times, from, windowMs)| == |times|
  {
    assert InWindow(times, from, windowMs) == Below(|times|);
  }

  lemma SplitAt(t: nat, spacingMs: nat) returns (n: nat)
    requires spacingMs > 0
    ensures n > 0 && (n - 1) * spacingMs <= t < n * spacingMs
  {
    n := t / spacingMs + 1;
    assert t == spacingMs * (t / spacingMs) + t % spacingMs;
    Next(n - 1, spacingMs);
  }

  lemma ManyAreLate(o: Options, n: nat)
    requires o.maxPerWindow > 0 && n > o.maxPerWindow
    ensures n * SpacingMs(o) > SlackMs(o)
  {
    Mul(SpacingMs(o), o.maxPerWindow + 1, n);
    Next(o.maxPerWindow, SpacingMs(o));
  }

  /** A run whose latency is the slack, and in which one window holds a grant too many: the first
      script runs as late as the latency allows, the others when their turn comes. */
  lemma BudgetBroken(o: Options, latencyMs: nat) returns (es: seq<Event>, ss: seq<State>)
    requires o.maxPerWindow > 0 && o.maxConcurrent > 0 && SlackMs(o) <= latencyMs
    ensures IsRun(ArgsOf(o), es, ss) && Within(ss, latencyMs) && !BudgetKept(o, ss)
  {
    var a := ArgsOf(o);
    SpacingFillsWindow(o, o.maxPerWindow);
    var t := SlackMs(o);
    var n := SplitAt(t, a.spacingMs);
    if n - 1 > o.maxPerWindow {
      ManyAreLate(o, n - 1);
    }
    es, ss := AskEarly(a, latencyMs, n);
    es, ss := Grow(a, latencyMs, es, ss, Tick(t));
    es, ss := GrantEarly(a, latencyMs, es, ss, n, n);
    es, ss := GrantLater(a, latencyMs, es, ss, n, o.maxPerWindow + 1, t, t + o.windowMs);
    AllCounted(ss[|es|].grantedAt, t, o.windowMs);
    assert |InWindow(ss[|es|].grantedAt, t, o.windowMs)| == o.maxPerWindow + 1;
  }

  /** Within the bound under which key expiry does not matter, the budget holds for all clients
      if and only if their scripts arrive in less than the slack. */
  lemma BudgetHoldsExactly(o: Options, latencyMs: nat)
    requires o.maxPerWindow > 0 && o.maxConcurrent > 0 && latencyMs <= LatencyBoundMs(ArgsOf(o))
    ensures (forall es, ss | IsRun(ArgsOf(o), es, ss) && Within(ss, latencyMs) :: BudgetKept(o, ss)) <==> latencyMs < SlackMs(o)
  {
    if latencyMs < SlackMs(o) {
      forall es, ss | IsRun(ArgsOf(o), es, ss) && Within(ss, latencyMs) ensures BudgetKept(o, ss) {
        GrantedBudget(o, es, ss, latencyMs);
      }
    } else {
      var es, ss := BudgetBroken(o, latencyMs);
    }
  }
}
