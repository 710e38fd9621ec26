/** Any number of worker processes sharing one lease row. Statements of different
    processes interleave, processes crash, statements throw; the steps of one process
    follow each other. */
module LeaderElection {
  import opened Wrappers
  import opened RuntimeLease

  datatype Pc =
    | Resting
    | AcquireBegun(now: nat)
    | AcquireUpdated
    | Booting
    | RenewBegun(now: nat)
    | RenewUpdated
    | Closing                        // becoming a follower
    | Stopping                       // shutting down
    | Releasing(now: nat, last: bool)
    | Dead

  /** `deadline` is the expiry written by the latest lease statement that succeeded. */
  datatype Proc = Proc(pc: Pc, dispatcher: bool, fence: Option<nat>, deadline: nat)

  datatype State = State(clock: nat, row: LeaseRow, procs: map<string, Proc>)

  datatype Event =
    | Tick(to: nat)
    | StepBegin(p: string)
    | Update(p: string)
    | ReadBack(p: string)
    | BootOk(p: string)
    | BootFails(p: string)
    | CloseEnds(p: string, ok: bool)
    | StepThrows(p: string)
    | Shutdown(p: string)
    | Stopped(p: string)
    | ReleaseUpdate(p: string)
    | Crash(p: string)

  ghost predicate Init(procs: set<string>, s: State) {
    && UNOWNED !in procs
    && s.clock == 0 && s.row == FRESH_ROW && s.procs.Keys == procs
    && forall p | p in procs :: s.procs[p] == Proc(Resting, false, None, 0)
  }

  ghost predicate Enabled(s: State, e: Event) {
    if e.Tick? then e.to >= s.clock
    else
      && e.p in s.procs
      && match e
         case StepBegin(p) => s.procs[p].pc.Resting?
         case Update(p) => s.procs[p].pc.AcquireBegun? || s.procs[p].pc.RenewBegun?
         case ReadBack(p) => s.procs[p].pc.AcquireUpdated? || s.procs[p].pc.RenewUpdated?
         case BootOk(p) => s.procs[p].pc.Booting?
         case BootFails(p) => s.procs[p].pc.Booting?
         case CloseEnds(p, _) => s.procs[p].pc.Closing?
         case StepThrows(p) =>
           var pc := s.procs[p].pc;
           pc.AcquireBegun? || pc.AcquireUpdated? || pc.RenewBegun? || pc.RenewUpdated? || pc.Releasing?
         case Shutdown(p) => s.procs[p].pc.Resting?
         case Stopped(p) => s.procs[p].pc.Stopping?
         case ReleaseUpdate(p) => s.procs[p].pc.Releasing?
         case Crash(p) => !s.procs[p].pc.Dead?
  }

  ghost function Set(s: State, p: string, proc: Proc): State {
    s.(procs := s.procs[p := proc])
  }

  ghost function Apply(ttlMs: nat, s: State, e: Event): State
    requires Enabled(s, e)
  {
    if e.Tick? then s.(clock := e.to) else
    var proc := s.procs[e.p];
    match e
    case StepBegin(p) =>
      Set(s, p, proc.(pc := if proc.dispatcher then RenewBegun(s.clock) else AcquireBegun(s.clock)))
    case Update(p) =>
      (match proc.pc
       case AcquireBegun(now) =>
         if AcquireMatches(s.row, p, now)
         then Set(s.(row := Acquired(s.row, p, now, ttlMs)), p, proc.(pc := AcquireUpdated, deadline := now + ttlMs))
         else Set(s, p, proc.(pc := Resting))
       case RenewBegun(now) =>
         if RenewMatches(s.row, p, now)
         then Set(s.(row := Extended(s.row, now, ttlMs)), p, proc.(pc := RenewUpdated, deadline := now + ttlMs))
         else Set(s, p, proc.(pc := Closing))
       case _ => s)
    // the worker takes the row it reads back as its grant, whoever the row names
    case ReadBack(p) =>
      Set(s, p, proc.(fence := Some(s.row.fencingToken), pc := if proc.pc.AcquireUpdated? then Booting else Resting))
    case BootOk(p) => Set(s, p, proc.(pc := Resting, dispatcher := true))
    case BootFails(p) => Set(s, p, proc.(pc := Releasing(s.clock, false), fence := None))
    case CloseEnds(p, ok) =>
      if ok then Set(s, p, proc.(pc := Resting, dispatcher := false, fence := None))
      else Set(s, p, proc.(pc := Resting))
    // a release that throws is swallowed, by a failed boot and by a shutdown alike
    case StepThrows(p) => Set(s, p, proc.(pc := if proc.pc.Releasing? && proc.pc.last then Dead else Resting))
    case Shutdown(p) => Set(s, p, proc.(pc := Stopping))
    case Stopped(p) => Set(s, p, proc.(pc := Releasing(s.clock, true), dispatcher := false))
    case ReleaseUpdate(p) =>
      var row := if s.row.ownerId == p then Extended(s.row, proc.pc.now, 0) else s.row;
      Set(s.(row := row), p, proc.(pc := if proc.pc.last then Dead else Resting))
    case Crash(p) => Set(s, p, proc.(pc := Dead, dispatcher := false))
  }

  ghost predicate Steps(ttlMs: nat, es: seq<Event>, ss: seq<State>) {
    && |ss| == |es| + 1
    && forall i {:trigger es[i]} | 0 <= i < |es| :: Enabled(ss[i], es[i]) && ss[i + 1] == Apply(ttlMs, ss[i], es[i])
  }

  ghost predicate IsRun(procs: set<string>, ttlMs: nat, es: seq<Event>, ss: seq<State>) {
    Steps(ttlMs, es, ss) && Init(procs, ss[0])
  }

  lemma StepOn(ttlMs: nat, es: seq<Event>, ss: seq<State>, e: Event) returns (es': seq<Event>, ss': seq<State>)
    requires Steps(ttlMs, es, ss) && Enabled(ss[|es|], e)
    ensures Steps(ttlMs, es', ss') && es' == es + [e] && ss' == ss + [Apply(ttlMs, ss[|es|], e)]
  {
    es', ss' := es + [e], ss + [Apply(ttlMs, ss[|es|], e)];
  }

  /** A follower's step that nothing interleaves with, from any state, whose statements run `delay`
      after it read its clock: it takes a row that had expired by that clock or is its own, under
      the next token, and leads; when the dispatcher does not boot it gives the row back. */
  lemma FollowerStepsAlone(ttlMs: nat, s: State, p: string, boots: bool, delay: nat) returns (es: seq<Event>, ss: seq<State>)
    requires p in s.procs && s.procs[p].pc.Resting? && !s.procs[p].dispatcher
    ensures Steps(ttlMs, es, ss) && ss[0] == s && p in ss[|es|].procs && ss[|es|].procs[p].pc.Resting?
    ensures var end, takes := ss[|es|], s.row.expiresAt <= s.clock || s.row.ownerId == p;
            && end.clock == s.clock + delay
            && (!takes ==> end.row == s.row && end.procs[p] == s.procs[p])
            && (takes && boots ==>
                  && end.row == LeaseRow(p, s.row.fencingToken + 1, s.clock + ttlMs, s.clock)
                  && end.procs[p] == Proc(Resting, true, Some(s.row.fencingToken + 1), s.clock + ttlMs))
            && (takes && !boots ==>
                  && end.row == LeaseRow(p, s.row.fencingToken + 1, s.clock + delay, s.clock + delay)
                  && !end.procs[p].dispatcher && end.procs[p].fence == None)
  {
    es, ss := StepOn(ttlMs, [], [s], StepBegin(p));
    es, ss := StepOn(ttlMs, es, ss, Tick(s.clock + delay));
    es, ss := StepOn(ttlMs, es, ss, Update(p));
    if s.row.expiresAt <= s.clock || s.row.ownerId == p {
      es, ss := StepOn(ttlMs, es, ss, ReadBack(p));
      if boots {
        es, ss := StepOn(ttlMs, es, ss, BootOk(p));
      } else {
        es, ss := StepOn(ttlMs, es, ss, BootFails(p));
        es, ss := StepOn(ttlMs, es, ss, ReleaseUpdate(p));
      }
    }
  }

  /** A leader's step: it extends its unexpired row under the same token, or ends its dispatcher,
      which stays when it does not close. */
  lemma LeaderStepsAlone(ttlMs: nat, s: State, p: string, closes: bool, delay: nat) returns (es: seq<Event>, ss: seq<State>)
    requires p in s.procs && s.procs[p].pc.Resting? && s.procs[p].dispatcher
    ensures Steps(ttlMs, es, ss) && ss[0] == s && p in ss[|es|].procs
    ensures var end, keeps := ss[|es|], s.row.ownerId == p && s.clock <= s.row.expiresAt;
            && end.clock == s.clock + delay
            && (keeps ==>
                  && end.row == LeaseRow(p, s.row.fencingToken, s.clock + ttlMs, s.clock)
                  && end.procs[p] == Proc(Resting, true, Some(s.row.fencingToken), s.clock + ttlMs))
            && (!keeps ==>
                  && end.row == s.row
                  && end.procs[p] == (if closes then Proc(Resting, false, None, s.procs[p].deadline) else s.procs[p]))
  {
    es, ss := StepOn(ttlMs, [], [s], StepBegin(p));
    es, ss := StepOn(ttlMs, es, ss, Tick(s.clock + delay));
    es, ss := StepOn(ttlMs, es, ss, Update(p));
    if s.row.ownerId == p && s.clock <= s.row.expiresAt {
      es, ss := StepOn(ttlMs, es, ss, ReadBack(p));
    } else {
      es, ss := StepOn(ttlMs, es, ss, CloseEnds(p, closes));
    }
  }

  /** A shutdown: the dispatcher ends and the process's own row is given up. */
  lemma ShutsDownAlone(ttlMs: nat, s: State, p: string, delay: nat) returns (es: seq<Event>, ss: seq<State>)
    requires p in s.procs && s.procs[p].pc.Resting?
    ensures Steps(ttlMs, es, ss) && ss[0] == s && p in ss[|es|].procs
    ensures ss[|es|].procs[p].pc.Dead? && !ss[|es|].procs[p].dispatcher
    ensures ss[|es|].row == if s.row.ownerId == p then LeaseRow(p, s.row.fencingToken, s.clock, s.clock) else s.row
  {
    es, ss := StepOn(ttlMs, [], [s], Shutdown(p));
    es, ss := StepOn(ttlMs, es, ss, Stopped(p));
    es, ss := StepOn(ttlMs, es, ss, Tick(s.clock + delay));
    es, ss := StepOn(ttlMs, es, ss, ReleaseUpdate(p));
  }

  /** A step whose first statement throws leaves everything as it was, leadership included; a
      crash leaves the row. */
  lemma ThrownStepIsUndone(ttlMs: nat, s: State, p: string)
    requires p in s.procs && s.procs[p].pc.Resting?
    ensures Enabled(s, StepBegin(p)) && Enabled(Apply(ttlMs, s, StepBegin(p)), StepThrows(p))
    ensures Apply(ttlMs, Apply(ttlMs, s, StepBegin(p)), StepThrows(p)) == s
    ensures Apply(ttlMs, s, Crash(p)).row == s.row && !Apply(ttlMs, s, Crash(p)).procs[p].dispatcher
  {
    var s' := Apply(ttlMs, Apply(ttlMs, s, StepBegin(p)), StepThrows(p));
    assert s'.procs == s.procs;
  }

  /** The application context runs from the moment it is being created. */
  predicate DispatcherRuns(proc: Proc) {
    proc.dispatcher || proc.pc.Booting?
  }

  predicate Leads(proc: Proc) {
    DispatcherRuns(proc) || proc.pc.AcquireUpdated?
  }

  /** The timing bound: whoever leads renews, or stops, before the expiry it last wrote. */
  ghost predicate InTime(s: State) {
    forall p | p in s.procs :: Leads(s.procs[p]) ==> s.clock < s.procs[p].deadline
  }

  ghost predicate Timely(ss: seq<State>) {
    forall i | 0 <= i < |ss| :: InTime(ss[i])
  }

  ghost predicate LeaderOwnsRow(s: State) {
    forall p | p in s.procs && Leads(s.procs[p]) ::
      && s.row.ownerId == p && s.row.expiresAt == s.procs[p].deadline
      && (DispatcherRuns(s.procs[p]) ==> s.procs[p].fence == Some(s.row.fencingToken))
  }

  predicate NotLeadingYet(pc: Pc) {
    pc.Releasing? || pc.AcquireBegun? || pc.AcquireUpdated? || pc.Booting? || pc.Dead?
  }

  ghost predicate ClocksBehind(ttlMs: nat, s: State) {
    && s.row.expiresAt <= s.clock + ttlMs
    && forall p | p in s.procs ::
         && (s.procs[p].pc.AcquireBegun? || s.procs[p].pc.RenewBegun? || s.procs[p].pc.Releasing? ==> s.procs[p].pc.now <= s.clock)
         && (NotLeadingYet(s.procs[p].pc) ==> !s.procs[p].dispatcher)
         && (s.procs[p].pc.RenewBegun? || s.procs[p].pc.RenewUpdated? ==> s.procs[p].dispatcher)
  }

  lemma StepKeepsClocks(ttlMs: nat, s: State, e: Event)
    requires Enabled(s, e) && ClocksBehind(ttlMs, s)
    ensures ClocksBehind(ttlMs, Apply(ttlMs, s, e))
  {
  }

  lemma StepKeepsLeader(ttlMs: nat, s: State, e: Event)
    requires Enabled(s, e) && ClocksBehind(ttlMs, s) && InTime(s) && LeaderOwnsRow(s)
    ensures LeaderOwnsRow(Apply(ttlMs, s, e))
  {
  }

  lemma {:induction false} RunKeepsClocks(procs: set<string>, ttlMs: nat, es: seq<Event>, ss: seq<State>, i: nat)
    requires IsRun(procs, ttlMs, es, ss) && i < |ss|
    ensures ClocksBehind(ttlMs, ss[i]) && ss[i].procs.Keys == procs
    decreases i
  {
    if i > 0 {
      RunKeepsClocks(procs, ttlMs, es, ss, i - 1);
      StepKeepsClocks(ttlMs, ss[i - 1], es[i - 1]);
    }
  }

  lemma {:induction false} RunKeepsLeader(procs: set<string>, ttlMs: nat, es: seq<Event>, ss: seq<State>, i: nat)
    requires IsRun(procs, ttlMs, es, ss) && Timely(ss) && i < |ss|
    ensures LeaderOwnsRow(ss[i])
    decreases i
  {
    if i > 0 {
      RunKeepsLeader(procs, ttlMs, es, ss, i - 1);
      RunKeepsClocks(procs, ttlMs, es, ss, i - 1);
      StepKeepsLeader(ttlMs, ss[i - 1], es[i - 1]);
    }
  }

  /** Under the timing bound at most one process runs a dispatcher, and it holds the
      token that is in the row. */
  lemma AtMostOneDispatcher(procs: set<string>, ttlMs: nat, es: seq<Event>, ss: seq<State>, i: nat, p: string, q: string)
    requires IsRun(procs, ttlMs, es, ss) && Timely(ss) && i < |ss|
    requires p in ss[i].procs && q in ss[i].procs
    requires DispatcherRuns(ss[i].procs[p]) && DispatcherRuns(ss[i].procs[q])
    ensures p == q && ss[i].procs[p].fence == Some(ss[i].row.fencingToken) && ss[i].row.ownerId == p
  {
    RunKeepsLeader(procs, ttlMs, es, ss, i);
  }

  lemma {:induction false} DeadOwnerLeavesRow(procs: set<string>, ttlMs: nat, es: seq<Event>, ss: seq<State>, i: nat, j: nat, dead: string)
    requires IsRun(procs, ttlMs, es, ss) && i <= j < |ss|
    requires dead in ss[i].procs && ss[i].procs[dead].pc.Dead? && ss[i].row.ownerId == dead
    ensures dead in ss[j].procs && ss[j].procs[dead].pc.Dead?
    ensures ss[j].row == ss[i].row || (ss[j].row.ownerId != dead && ss[j].row.fencingToken > ss[i].row.fencingToken)
    decreases j - i
  {
    if i < j {
      DeadOwnerLeavesRow(procs, ttlMs, es, ss, i, j - 1, dead);
      assert ss[j] == Apply(ttlMs, ss[j - 1], es[j - 1]);
    }
  }

  /** From index `from` on, process f begins a step in every period of `periodMs`, and
      the update of a step it begins as a follower is carried out within `latencyMs`. */
  ghost predicate KeepsStepping(es: seq<Event>, ss: seq<State>, from: nat, f: string, periodMs: nat, latencyMs: nat)
    requires |ss| == |es| + 1 && from < |ss|
  {
    forall t: nat | ss[from].clock <= t && t + periodMs <= ss[|es|].clock ::
      StepsDuring(es, ss, from, f, t, periodMs, latencyMs)
  }

  ghost predicate StepsDuring(es: seq<Event>, ss: seq<State>, from: nat, f: string, t: nat, periodMs: nat, latencyMs: nat)
    requires |ss| == |es| + 1
  {
    exists b: nat, u: nat :: StepCarriedOut(es, ss, from, f, b, u, latencyMs) && t <= ss[b].clock <= t + periodMs
  }

  ghost predicate StepCarriedOut(es: seq<Event>, ss: seq<State>, from: nat, f: string, b: nat, u: nat, latencyMs: nat)
    requires |ss| == |es| + 1
  {
    && from <= b <= u < |es| && es[b] == StepBegin(f)
    && f in ss[b].procs && f in ss[u].procs
    && (!ss[b].procs[f].dispatcher ==>
          es[u] == Update(f) && ss[u].procs[f].pc == AcquireBegun(ss[b].clock) && ss[u].clock <= ss[b].clock + latencyMs)
  }

  /** Takeover: after the owner of the lease has died, a follower that keeps stepping
      sees the lease move on within the time to live plus one period. */
  lemma LeaseMovesOn(procs: set<string>, ttlMs: nat, es: seq<Event>, ss: seq<State>, i: nat, dead: string,
                     f: string, periodMs: nat, latencyMs: nat)
    requires IsRun(procs, ttlMs, es, ss) && Timely(ss) && i < |ss|
    requires dead in ss[i].procs && ss[i].procs[dead].pc.Dead? && ss[i].row.ownerId == dead
    requires f in procs && f != dead && KeepsStepping(es, ss, i, f, periodMs, latencyMs)
    requires ss[|es|].clock >= ss[i].clock + ttlMs + periodMs
    ensures exists k :: && i < k < |ss|
                        && ss[k].clock <= ss[i].clock + ttlMs + periodMs + latencyMs
                        && ss[k].row.ownerId != dead && ss[k].row.fencingToken > ss[i].row.fencingToken
  {
    var t := ss[i].clock + ttlMs;
    assert StepsDuring(es, ss, i, f, t, periodMs, latencyMs);
    var b: nat, u: nat :| StepCarriedOut(es, ss, i, f, b, u, latencyMs) && t <= ss[b].clock <= t + periodMs;
    RunKeepsClocks(procs, ttlMs, es, ss, i);
    if ss[b].procs[f].dispatcher {
      RunKeepsLeader(procs, ttlMs, es, ss, b);
      DeadOwnerLeavesRow(procs, ttlMs, es, ss, i, b, dead);
      assert i < b < |ss| && ss[b].row.ownerId == f;
    } else {
      DeadOwnerLeavesRow(procs, ttlMs, es, ss, i, u, dead);
      DeadOwnerLeavesRow(procs, ttlMs, es, ss, i, u + 1, dead);
      assert ss[u + 1] == Apply(ttlMs, ss[u], es[u]);
      assert i < u + 1 < |ss| && ss[u + 1].row.ownerId != dead;
    }
  }

  /** Without the timing bound the election fails: a process whose read-back comes after
      its lease ran out adopts the other leader's grant, and both dispatchers run under
      one token. */
  lemma LateReadBackSplitsLeadership(p: string, q: string) returns (es: seq<Event>, ss: seq<State>)
    requires p != q && UNOWNED !in {p, q}
    ensures IsRun({p, q}, 10, es, ss) && !Timely(ss)
    ensures var s := ss[|es|];
            && p in s.procs && q in s.procs
            && DispatcherRuns(s.procs[p]) && DispatcherRuns(s.procs[q])
            && s.procs[p].fence == s.procs[q].fence == Some(2)
  {
    es, ss := AcquiredLongAgo(p, q);
    es, ss := StepOn(10, es, ss, StepBegin(q));
    es, ss := StepOn(10, es, ss, Update(q));
    es, ss := StepOn(10, es, ss, ReadBack(q));
    es, ss := StepOn(10, es, ss, ReadBack(p));
    assert !InTime(ss[3]);
  }

  /** Process p has acquired the lease, and it has expired before the read-back. */
  lemma AcquiredLongAgo(p: string, q: string) returns (es: seq<Event>, ss: seq<State>)
    requires p != q && UNOWNED !in {p, q}
    ensures Steps(10, es, ss) && |es| == 3 && Init({p, q}, ss[0]) && !InTime(ss[3])
    ensures ss[3] == State(10, LeaseRow(p, 1, 10, 0), map[p := Proc(AcquireUpdated, false, None, 10), q := Proc(Resting, false, None, 0)])
  {
    var idle := Proc(Resting, false, None, 0);
    es, ss := StepOn(10, [], [State(0, FRESH_ROW, map[p := idle, q := idle])], StepBegin(p));
    es, ss := StepOn(10, es, ss, Update(p));
    es, ss := StepOn(10, es, ss, Tick(10));
    assert Leads(ss[3].procs[p]);
  }
}
