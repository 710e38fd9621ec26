/** Cron jobs that run under a lease: a process skips a job it is already running, and
    several processes exclude each other through the lease row. */
module LeasedCron {
  import opened Wrappers
  import opened RuntimeLease

  datatype Outcome = Skipped | Missed | Executed | TaskThrew | ReleaseThrew

  /** One invocation that meets no interference. The task ends at `endsAt`; it, and the
      release, may throw. */
  class LeasedCronService {
    const ownerId: string
    const leases: RuntimeLeaseService
    var localRunning: set<string>

    constructor (ownerId: string, leases: RuntimeLeaseService)
      ensures this.ownerId == ownerId && this.leases == leases && localRunning == {}
    {
      this.ownerId, this.leases, localRunning := ownerId, leases, {};
    }

    method RunWithLease(leaseKey: string, ttlMs: nat, now: nat, endsAt: nat, taskThrows: bool, releaseThrows: bool)
        returns (outcome: Outcome)
      modifies this`localRunning, leases`rows
      ensures localRunning == old(localRunning)
      ensures outcome == Skipped <==> leaseKey in old(localRunning)
      ensures outcome == Missed <==>
                leaseKey !in old(localRunning) && !AcquireMatches(RowOrFresh(old(leases.rows), leaseKey), ownerId, now)
      ensures outcome == Executed ==> !taskThrows && !releaseThrows
      ensures outcome == TaskThrew ==> taskThrows && !releaseThrows
      ensures outcome == ReleaseThrew ==> releaseThrows
      ensures leases.rows - {leaseKey} == old(leases.rows) - {leaseKey}
      ensures outcome == Skipped ==> leases.rows == old(leases.rows)
      ensures outcome == Missed ==> leaseKey in leases.rows && leases.rows[leaseKey] == RowOrFresh(old(leases.rows), leaseKey)
      ensures !outcome.Skipped? && !outcome.Missed? ==>
                && leaseKey in leases.rows && leases.rows[leaseKey].ownerId == ownerId
                && leases.rows[leaseKey].fencingToken == RowOrFresh(old(leases.rows), leaseKey).fencingToken + 1
                && leases.rows[leaseKey].expiresAt == (if releaseThrows then now + ttlMs else endsAt)
    {
      if leaseKey in localRunning {
        return Skipped;
      }
      localRunning := localRunning + {leaseKey};
      var grant := leases.TryAcquire(leaseKey, ownerId, ttlMs, now);
      if grant.None? {
        outcome := Missed;
      } else {
        outcome := if taskThrows then TaskThrew else Executed;
        if releaseThrows {
          outcome := ReleaseThrew;
        } else {
          var _ := leases.Release(leaseKey, ownerId, endsAt);
        }
      }
      localRunning := localRunning - {leaseKey};
    }
  }
}

/** Any number of invocations of one job, in any number of processes, interleaved. */
module CronExclusion {
  import opened Wrappers
  import opened RuntimeLease

  datatype Pc =
    | Called
    | Entered
    | AcquireBegun(now: nat)
    | AcquireUpdated(deadline: nat)
    | Running(deadline: nat)         // the task
    | TaskEnded
    | ReleaseBegun(now: nat)
    | Cleaning                       // about to clear the local mark
    | Returned

  datatype Invocation = Invocation(proc: string, pc: Pc)

  /** `localRunning` holds the processes in which the job is marked as running. */
  datatype State = State(clock: nat, row: LeaseRow, localRunning: set<string>, calls: map<nat, Invocation>)

  /** `guarded` is false only in the variant without the local mark. */
  datatype Config = Config(ttlMs: nat, guarded: bool)

  datatype Event =
    | Tick(to: nat)
    | Call(id: nat, proc: string)
    | Enter(id: nat)
    | Begin(id: nat)
    | Update(id: nat)
    | ReadBack(id: nat)
    | TaskEnds(id: nat)
    | ReleaseBegin(id: nat)
    | ReleaseUpdate(id: nat)
    | Throws(id: nat)                // an acquire or release statement throws
    | Clean(id: nat)
    | Crash(proc: string)

  ghost predicate Init(s: State) {
    s == State(0, FRESH_ROW, {}, map[])
  }

  ghost predicate Enabled(s: State, e: Event) {
    match e
    case Tick(to) => to >= s.clock
    case Call(id, proc) => id !in s.calls && proc != UNOWNED
    case Enter(id) => id in s.calls && s.calls[id].pc.Called?
    case Begin(id) => id in s.calls && s.calls[id].pc.Entered?
    case Update(id) => id in s.calls && s.calls[id].pc.AcquireBegun?
    case ReadBack(id) => id in s.calls && s.calls[id].pc.AcquireUpdated?
    case TaskEnds(id) => id in s.calls && s.calls[id].pc.Running?
    case ReleaseBegin(id) => id in s.calls && s.calls[id].pc.TaskEnded?
    case ReleaseUpdate(id) => id in s.calls && s.calls[id].pc.ReleaseBegun?
    case Throws(id) =>
      id in s.calls && (s.calls[id].pc.AcquireBegun? || s.calls[id].pc.AcquireUpdated? || s.calls[id].pc.ReleaseBegun?)
    case Clean(id) => id in s.calls && s.calls[id].pc.Cleaning?
    case Crash(_) => true
  }

  ghost function At(s: State, id: nat, pc: Pc): State
    requires id in s.calls
  {
    s.(calls := s.calls[id := s.calls[id].(pc := pc)])
  }

  ghost function Apply(c: Config, s: State, e: Event): State
    requires Enabled(s, e)
  {
    match e
    case Tick(to) => s.(clock := to)
    case Call(id, proc) => s.(calls := s.calls[id := Invocation(proc, Called)])
    case Enter(id) =>
      if c.guarded && s.calls[id].proc in s.localRunning then At(s, id, Returned)
      else At(s.(localRunning := s.localRunning + {s.calls[id].proc}), id, Entered)
    case Begin(id) => At(s, id, AcquireBegun(s.clock))
    case Update(id) =>
      var now := s.calls[id].pc.now;
      var owner := s.calls[id].proc;
      if AcquireMatches(s.row, owner, now)
      then At(s.(row := Acquired(s.row, owner, now, c.ttlMs)), id, AcquireUpdated(now + c.ttlMs))
      else At(s, id, Cleaning)
    case ReadBack(id) => At(s, id, Running(s.calls[id].pc.deadline))
    case TaskEnds(id) => At(s, id, TaskEnded)
    case ReleaseBegin(id) => At(s, id, ReleaseBegun(s.clock))
    case ReleaseUpdate(id) =>
      var row := if s.row.ownerId == s.calls[id].proc then Extended(s.row, s.calls[id].pc.now, 0) else s.row;
      At(s.(row := row), id, Cleaning)
    case Throws(id) => At(s, id, Cleaning)
    case Clean(id) => At(s.(localRunning := s.localRunning - {s.calls[id].proc}), id, Returned)
    // a restarted process has a new owner id, so a crashed one never comes back
    case Crash(proc) =>
      s.(calls := map id | id in s.calls ::
           if s.calls[id].proc == proc then Invocation(proc, Returned) else s.calls[id],
         localRunning := s.localRunning - {proc})
  }

  ghost predicate Steps(c: Config, es: seq<Event>, ss: seq<State>) {
    && |ss| == |es| + 1
    && forall i {:trigger es[i]} | 0 <= i < |es| :: Enabled(ss[i], es[i]) && ss[i + 1] == Apply(c, ss[i], es[i])
  }

  ghost predicate IsRun(c: Config, es: seq<Event>, ss: seq<State>) {
    Steps(c, es, ss) && Init(ss[0])
  }

  lemma StepOn(c: Config, es: seq<Event>, ss: seq<State>, e: Event) returns (es': seq<Event>, ss': seq<State>)
    requires Steps(c, es, ss) && Enabled(ss[|es|], e)
    ensures Steps(c, es', ss') && es' == es + [e] && ss' == ss + [Apply(c, ss[|es|], e)]
  {
    es', ss' := es + [e], ss + [Apply(c, ss[|es|], e)];
  }

  lemma RunAndRelease(c: Config, es: seq<Event>, ss: seq<State>, id: nat, forMs: nat, delay: nat)
      returns (es': seq<Event>, ss': seq<State>)
    requires Steps(c, es, ss) && id in ss[|es|].calls && ss[|es|].calls[id].pc.AcquireUpdated?
    requires ss[|es|].row.ownerId == ss[|es|].calls[id].proc
    ensures Steps(c, es', ss') && ss'[0] == ss[0]
    ensures var s, end := ss[|es|], ss'[|es'|];
            && id in end.calls && end.calls[id] == Invocation(s.calls[id].proc, Cleaning)
            && end.clock == s.clock + forMs + delay && end.localRunning == s.localRunning
            && end.row == LeaseRow(s.calls[id].proc, s.row.fencingToken, s.clock + forMs, s.clock + forMs)
  {
    es', ss' := StepOn(c, es, ss, ReadBack(id));
    es', ss' := StepOn(c, es', ss', Tick(ss[|es|].clock + forMs));
    es', ss' := StepOn(c, es', ss', TaskEnds(id));
    es', ss' := StepOn(c, es', ss', ReleaseBegin(id));
    es', ss' := StepOn(c, es', ss', Tick(ss[|es|].clock + forMs + delay));
    es', ss' := StepOn(c, es', ss', ReleaseUpdate(id));
  }

  lemma AcquireOrMiss(c: Config, es: seq<Event>, ss: seq<State>, id: nat, delay: nat) returns (es': seq<Event>, ss': seq<State>)
    requires Steps(c, es, ss) && id in ss[|es|].calls && ss[|es|].calls[id].pc == AcquireBegun(ss[|es|].clock)
    ensures Steps(c, es', ss') && ss'[0] == ss[0]
    ensures var s, end := ss[|es|], ss'[|es'|];
            var proc := s.calls[id].proc;
            && id in end.calls && end.clock == s.clock + delay && end.localRunning == s.localRunning
            && if s.row.expiresAt <= s.clock || s.row.ownerId == proc then
                 && end.calls[id] == Invocation(proc, AcquireUpdated(s.clock + c.ttlMs))
                 && end.row == LeaseRow(proc, s.row.fencingToken + 1, s.clock + c.ttlMs, s.clock)
               else end.calls[id] == Invocation(proc, Cleaning) && end.row == s.row
  {
    es', ss' := StepOn(c, es, ss, Tick(ss[|es|].clock + delay));
    es', ss' := StepOn(c, es', ss', Update(id));
  }

  /** An invocation that nothing interleaves with, from any state, with a task that takes `forMs`
      and statements that run `delay` after their clock was read: it leaves the local marks as
      they were, and a lease it got is released as of the task's end. */
  lemma InvokedAlone(c: Config, s: State, id: nat, proc: string, forMs: nat, delay: nat) returns (es: seq<Event>, ss: seq<State>)
    requires c.guarded && id !in s.calls && proc != UNOWNED
    ensures Steps(c, es, ss) && ss[0] == s && id in ss[|es|].calls && ss[|es|].calls[id] == Invocation(proc, Returned)
    ensures ss[|es|].localRunning == s.localRunning
    ensures var end, runs := ss[|es|], proc !in s.localRunning && (s.row.expiresAt <= s.clock || s.row.ownerId == proc);
            var endsAt := s.clock + delay + forMs;
            && end.row == (if runs then LeaseRow(proc, s.row.fencingToken + 1, endsAt, endsAt) else s.row)
            && end.clock == (if runs then endsAt + delay else if proc in s.localRunning then s.clock else s.clock + delay)
  {
    if proc in s.localRunning {
      es, ss := StepOn(c, [], [s], Call(id, proc));
      es, ss := StepOn(c, es, ss, Enter(id));
      return;
    }
    es, ss := BeginAlone(c, s, id, proc);
    es, ss := AcquireOrMiss(c, es, ss, id, delay);
    if s.row.expiresAt <= s.clock || s.row.ownerId == proc {
      es, ss := RunAndRelease(c, es, ss, id, forMs, delay);
    }
    es, ss := StepOn(c, es, ss, Clean(id));
    assert s.localRunning + {proc} - {proc} == s.localRunning;
  }

  /** When the acquire throws nothing is left behind; when the release throws, the lease runs on
      to its expiry, and the local mark is gone all the same. */
  lemma ThrowsAlone(c: Config, s: State, id: nat, proc: string, acquires: bool) returns (es: seq<Event>, ss: seq<State>)
    requires c.guarded && id !in s.calls && proc != UNOWNED && proc !in s.localRunning
    requires acquires ==> s.row.expiresAt <= s.clock || s.row.ownerId == proc
    ensures Steps(c, es, ss) && ss[0] == s
    ensures ss[|es|] == State(s.clock,
                              if acquires then LeaseRow(proc, s.row.fencingToken + 1, s.clock + c.ttlMs, s.clock) else s.row,
                              s.localRunning, s.calls[id := Invocation(proc, Returned)])
  {
    es, ss := BeginAlone(c, s, id, proc);
    if acquires {
      es, ss := RunTask(c, es, ss, id);
    }
    es, ss := StepOn(c, es, ss, Throws(id));
    es, ss := StepOn(c, es, ss, Clean(id));
    assert s.localRunning + {proc} - {proc} == s.localRunning;
  }

  /** A crash ends the process's invocations and frees its mark, and touches nothing else. */
  lemma CrashEndsProcess(c: Config, s: State, proc: string, id: nat)
    requires id in s.calls
    ensures var s' := Apply(c, s, Crash(proc));
            && s'.clock == s.clock && s'.row == s.row && s'.calls.Keys == s.calls.Keys
            && proc !in s'.localRunning && s'.localRunning + {proc} == s.localRunning + {proc}
            && s'.calls[id] == if s.calls[id].proc == proc then Invocation(proc, Returned) else s.calls[id]
  {
    assert s.localRunning - {proc} + {proc} == s.localRunning + {proc};
  }

  lemma BeginAlone(c: Config, s: State, id: nat, proc: string) returns (es: seq<Event>, ss: seq<State>)
    requires id !in s.calls && proc != UNOWNED && proc !in s.localRunning
    ensures Steps(c, es, ss) && ss[0] == s
    ensures ss[|es|] == s.(localRunning := s.localRunning + {proc}, calls := s.calls[id := Invocation(proc, AcquireBegun(s.clock))])
  {
    es, ss := StepOn(c, [], [s], Call(id, proc));
    es, ss := StepOn(c, es, ss, Enter(id));
    es, ss := StepOn(c, es, ss, Begin(id));
  }

  lemma RunTask(c: Config, es: seq<Event>, ss: seq<State>, id: nat) returns (es': seq<Event>, ss': seq<State>)
    requires Steps(c, es, ss) && id in ss[|es|].calls && ss[|es|].calls[id].pc.AcquireBegun?
    requires AcquireMatches(ss[|es|].row, ss[|es|].calls[id].proc, ss[|es|].calls[id].pc.now)
    ensures Steps(c, es', ss') && ss'[0] == ss[0]
    ensures var s, call := ss[|es|], ss[|es|].calls[id];
            ss'[|es'|] == s.(row := Acquired(s.row, call.proc, call.pc.now, c.ttlMs),
                             calls := s.calls[id := Invocation(call.proc, ReleaseBegun(s.clock))])
  {
    es', ss' := StepOn(c, es, ss, Update(id));
    es', ss' := StepOn(c, es', ss', ReadBack(id));
    es', ss' := StepOn(c, es', ss', TaskEnds(id));
    es', ss' := StepOn(c, es', ss', ReleaseBegin(id));
  }

  predicate Holds(pc: Pc) {
    pc.AcquireUpdated? || pc.Running?
  }

  predicate Active(pc: Pc) {
    !pc.Called? && !pc.Returned?
  }

  /** The timing bound: a task ends before the lease it runs under. */
  ghost predicate InTime(s: State) {
    forall id | id in s.calls && Holds(s.calls[id].pc) :: s.clock < s.calls[id].pc.deadline
  }

  ghost predicate Timely(ss: seq<State>) {
    forall i | 0 <= i < |ss| :: InTime(ss[i])
  }

  ghost predicate OnePerProcess(s: State) {
    && (forall id | id in s.calls && Active(s.calls[id].pc) :: s.calls[id].proc in s.localRunning)
    && (forall id, other | id in s.calls && other in s.calls && Active(s.calls[id].pc) && Active(s.calls[other].pc)
                           && s.calls[id].proc == s.calls[other].proc :: id == other)
  }

  ghost predicate HolderOwnsRow(s: State) {
    && (forall id | id in s.calls && Holds(s.calls[id].pc) ::
          s.row.ownerId == s.calls[id].proc && s.row.expiresAt == s.calls[id].pc.deadline)
    && (forall id | id in s.calls && s.calls[id].pc.AcquireBegun? :: s.calls[id].pc.now <= s.clock)
  }

  lemma StepKeepsMarks(c: Config, s: State, e: Event)
    requires c.guarded && Enabled(s, e) && OnePerProcess(s)
    ensures OnePerProcess(Apply(c, s, e))
  {
    var s' := Apply(c, s, e);
    if e.Clean? {
      forall id | id in s'.calls && Active(s'.calls[id].pc) ensures s'.calls[id].proc in s'.localRunning {
        assert Active(s.calls[id].pc) && Active(s.calls[e.id].pc);
      }
    }
  }

  lemma StepKeepsHolder(c: Config, s: State, e: Event)
    requires c.guarded && Enabled(s, e) && OnePerProcess(s) && InTime(s) && HolderOwnsRow(s)
    ensures HolderOwnsRow(Apply(c, s, e))
  {
    var s' := Apply(c, s, e);
    if e.Update? || e.ReleaseUpdate? {
      forall id | id in s'.calls && Holds(s'.calls[id].pc)
        ensures s'.row.ownerId == s'.calls[id].proc && s'.row.expiresAt == s'.calls[id].pc.deadline
      {
        assert Active(s'.calls[id].pc) && Active(s.calls[e.id].pc);
      }
    }
  }

  lemma {:induction false} RunKeepsHolder(c: Config, es: seq<Event>, ss: seq<State>, i: nat)
    requires c.guarded && IsRun(c, es, ss) && i < |ss|
    ensures OnePerProcess(ss[i])
    ensures Timely(ss) ==> HolderOwnsRow(ss[i])
    decreases i
  {
    if i > 0 {
      RunKeepsHolder(c, es, ss, i - 1);
      StepKeepsMarks(c, ss[i - 1], es[i - 1]);
      if Timely(ss) {
        StepKeepsHolder(c, ss[i - 1], es[i - 1]);
      }
    }
  }

  /** Whatever the timing, one process never runs the job twice at a time; when tasks
      end before their lease does, no two invocations anywhere overlap. */
  lemma TasksDoNotOverlap(c: Config, es: seq<Event>, ss: seq<State>, i: nat, id: nat, other: nat)
    requires c.guarded && IsRun(c, es, ss) && i < |ss|
    requires id in ss[i].calls && ss[i].calls[id].pc.Running?
    requires other in ss[i].calls && ss[i].calls[other].pc.Running?
    ensures ss[i].calls[id].proc == ss[i].calls[other].proc ==> id == other
    ensures Timely(ss) ==> id == other
  {
    RunKeepsHolder(c, es, ss, i);
    assert Active(ss[i].calls[id].pc) && Active(ss[i].calls[other].pc);
  }

  lemma StepInTime(c: Config, es: seq<Event>, ss: seq<State>, e: Event) returns (es': seq<Event>, ss': seq<State>)
    requires Steps(c, es, ss) && Timely(ss) && Enabled(ss[|es|], e) && InTime(Apply(c, ss[|es|], e))
    ensures Steps(c, es', ss') && Timely(ss') && es' == es + [e] && ss' == ss + [Apply(c, ss[|es|], e)]
  {
    es', ss' := es + [e], ss + [Apply(c, ss[|es|], e)];
  }

  /** Without the local mark, an invocation at a free or own lease gets to its task. */
  lemma StartsUnguarded(c: Config, es: seq<Event>, ss: seq<State>, id: nat, proc: string) returns (es': seq<Event>, ss': seq<State>)
    requires !c.guarded && c.ttlMs > 0 && proc != UNOWNED && Steps(c, es, ss) && Timely(ss) && id !in ss[|es|].calls
    requires ss[|es|].row.expiresAt <= ss[|es|].clock || ss[|es|].row.ownerId == proc
    ensures Steps(c, es', ss') && Timely(ss') && ss'[0] == ss[0]
    ensures var s, end := ss[|es|], ss'[|es'|];
            && end.row.ownerId == proc
            && end.calls == s.calls[id := Invocation(proc, Running(s.clock + c.ttlMs))]
  {
    var s := ss[|es|];
    assert InTime(s);
    es', ss' := StepInTime(c, es, ss, Call(id, proc));
    es', ss' := StepInTime(c, es', ss', Enter(id));
    es', ss' := StepInTime(c, es', ss', Begin(id));
    es', ss' := StepInTime(c, es', ss', Update(id));
    es', ss' := StepInTime(c, es', ss', ReadBack(id));
    assert ss'[|es'|].calls == s.calls[id := Invocation(proc, Running(s.clock + c.ttlMs))];
  }

  /** The lease alone does not do: it lets its own owner in again, so without the local
      mark one process runs the task twice within its time to live. */
  lemma UnguardedTasksOverlap(proc: string) returns (es: seq<Event>, ss: seq<State>)
    requires proc != UNOWNED
    ensures IsRun(Config(10, false), es, ss) && Timely(ss)
    ensures var s := ss[|es|]; 0 in s.calls && 1 in s.calls && s.calls[0].pc.Running? && s.calls[1].pc.Running?
  {
    var c := Config(10, false);
    es, ss := StartsUnguarded(c, [], [State(0, FRESH_ROW, {}, map[])], 0, proc);
    es, ss := StartsUnguarded(c, es, ss, 1, proc);
  }
}
