/** The outbox under any number of dispatcher processes. Every SQL statement, and the
    claim transaction, is one atomic step; workers overrun, throw and crash between steps.
    Two processes may use the same worker id. */
module OutboxProtocol {
  import opened Wrappers
  import opened Outbox

  /** Bookkeeping per row: how often it was claimed, revived and handed to the queue, how
      many marks recorded a failure, and when it was first claimed. */
  datatype Stats = Stats(claims: nat, revivals: nat, dispatches: nat, failedMarks: nat, firstClaim: Option<nat>)

  datatype Entry = Entry(row: OutboxRow, stats: Stats)

  datatype Phase = ToDispatch | Dispatched | DispatchFailed

  /** A draining process holds the snapshots it has still to mark; the first is current. */
  datatype Proc =
    | Idle
    | Draining(todo: seq<Snapshot>, phase: Phase, claimedAt: nat, claimed: nat, sent: nat, failed: nat)

  datatype State = State(clock: nat, rows: map<string, Entry>, jobs: set<Job>, procs: map<nat, Proc>)

  datatype Config = Config(maxAttempts: int, staleMs: nat)

  datatype Event =
    | Tick(to: nat)
    | Insert(id: string, content: Content)
    | Revive(readAt: nat)
    | Claim(p: nat, workerId: string, ids: seq<string>)
    | Dispatch(p: nat, ok: bool, added: bool)
    | MarkSent(p: nat, readAt: nat, ok: bool)
    | MarkFailed(p: nat, readAt: nat, ok: bool)
    | Return(p: nat)
    | Crash(p: nat)

  const START: State := State(0, map[], {}, map[])

  function ProcOf(s: State, p: nat): Proc {
    if p in s.procs then s.procs[p] else Idle
  }

  predicate Current(s: State, p: nat, phase: Phase) {
    ProcOf(s, p).Draining? && ProcOf(s, p).todo != [] && ProcOf(s, p).phase == phase
  }

  ghost predicate Enabled(s: State, e: Event) {
    match e
    case Tick(to) => to >= s.clock
    case Insert(id, _) => id !in s.rows
    case Revive(readAt) => readAt <= s.clock
    // any batch the select can return: other transactions may hold back any rows
    case Claim(p, _, ids) =>
      && ProcOf(s, p).Idle?
      && (forall i | 0 <= i < |ids| :: ids[i] in s.rows && Claimable(s.rows[ids[i]].row, s.clock))
      && (forall i, j | 0 <= i < j < |ids| ::
            ids[i] != ids[j] && s.rows[ids[i]].row.createdAt <= s.rows[ids[j]].row.createdAt)
    // a job without a queue is never added; a failed call may still have added its job
    case Dispatch(p, ok, added) =>
      Current(s, p, ToDispatch) && (ok ==> added) && (added ==> JobOf(ProcOf(s, p).todo[0]).Some?)
    case MarkSent(p, readAt, _) =>
      Current(s, p, Dispatched) && ProcOf(s, p).todo[0].id in s.rows && ProcOf(s, p).claimedAt <= readAt <= s.clock
    case MarkFailed(p, readAt, _) =>
      Current(s, p, DispatchFailed) && ProcOf(s, p).todo[0].id in s.rows && ProcOf(s, p).claimedAt <= readAt <= s.clock
    case Return(p) => ProcOf(s, p).Draining? && ProcOf(s, p).todo == []
    case Crash(p) => true
  }

  function ClaimEntry(t: Entry, now: nat, workerId: string): Entry {
    Entry(Claimed(t.row, now, workerId),
          t.stats.(claims := t.stats.claims + 1,
                   firstClaim := if t.stats.firstClaim.None? then Some(now) else t.stats.firstClaim))
  }

  function ReviveEntry(t: Entry): Entry {
    Entry(Revived(t.row), t.stats.(revivals := t.stats.revivals + 1))
  }

  function FailEntry(t: Entry, claimedAttempts: nat, maxAttempts: int, readAt: nat): Entry {
    Entry(MarkedRetryOrFailed(t.row, claimedAttempts, maxAttempts, readAt),
          t.stats.(failedMarks := t.stats.failedMarks + 1))
  }

  function SnapshotOf(s: State, id: string): Snapshot
    requires id in s.rows
  {
    Snapshot(id, s.rows[id].row.content, s.rows[id].row.attempts)
  }

  ghost function Apply(c: Config, s: State, e: Event): State
    requires Enabled(s, e)
  {
    match e
    case Tick(to) => s.(clock := to)
    case Insert(id, content) =>
      var row := OutboxRow(content, Pending, 0, s.clock, None, None, None, s.clock);
      s.(rows := s.rows[id := Entry(row, Stats(0, 0, 0, 0, None))])
    case Revive(readAt) =>
      s.(rows := map id | id in s.rows ::
           if Stale(s.rows[id].row, readAt, c.staleMs) then ReviveEntry(s.rows[id]) else s.rows[id])
    case Claim(p, workerId, ids) =>
      var todo := seq(|ids|, i requires 0 <= i < |ids| => SnapshotOf(s, ids[i]));
      s.(rows := map id | id in s.rows :: if id in ids then ClaimEntry(s.rows[id], s.clock, workerId) else s.rows[id],
         procs := s.procs[p := Draining(todo, ToDispatch, s.clock, |ids|, 0, 0)])
    case Dispatch(p, ok, added) =>
      var proc := ProcOf(s, p);
      var id := proc.todo[0].id;
      var rows := if id in s.rows
                  then s.rows[id := s.rows[id].(stats := s.rows[id].stats.(dispatches := s.rows[id].stats.dispatches + 1))]
                  else s.rows;
      s.(rows := rows,
         jobs := if added then s.jobs + {JobOf(proc.todo[0]).value} else s.jobs,
         procs := s.procs[p := if ok then proc.(phase := Dispatched) else proc.(phase := DispatchFailed, failed := proc.failed + 1)])
    case MarkSent(p, readAt, ok) =>
      var proc := ProcOf(s, p);
      var id := proc.todo[0].id;
      if ok then
        s.(rows := s.rows[id := s.rows[id].(row := MarkedSent(s.rows[id].row, readAt))],
           procs := s.procs[p := proc.(todo := proc.todo[1..], phase := ToDispatch, sent := proc.sent + 1)])
      else s.(procs := s.procs[p := proc.(phase := DispatchFailed, failed := proc.failed + 1)])
    // when this mark throws, the drain is abandoned
    case MarkFailed(p, readAt, ok) =>
      var proc := ProcOf(s, p);
      var id := proc.todo[0].id;
      if ok then
        s.(rows := s.rows[id := FailEntry(s.rows[id], proc.todo[0].attempts, c.maxAttempts, readAt)],
           procs := s.procs[p := proc.(todo := proc.todo[1..], phase := ToDispatch)])
      else s.(procs := s.procs[p := Idle])
    case Return(p) => s.(procs := s.procs[p := Idle])
    case Crash(p) => s.(procs := s.procs[p := Idle])
  }

  ghost predicate Steps(c: Config, es: seq<Event>, ss: seq<State>) {
    && |ss| == |es| + 1
    && forall i {:trigger es[i]} | 0 <= i < |es| :: Enabled(ss[i], es[i]) && ss[i + 1] == Apply(c, ss[i], es[i])
  }

  ghost predicate IsRun(c: Config, es: seq<Event>, ss: seq<State>) {
    Steps(c, es, ss) && ss[0] == START
  }

  // ----- a round that nothing interleaves with

  lemma StepOn(c: Config, es: seq<Event>, ss: seq<State>, e: Event) returns (es': seq<Event>, ss': seq<State>)
    requires Steps(c, es, ss) && Enabled(ss[|es|], e)
    ensures Steps(c, es', ss') && es' == es + [e] && ss' == ss + [Apply(c, ss[|es|], e)]
  {
    es', ss' := es + [e], ss + [Apply(c, ss[|es|], e)];
  }

  /** A row that was just written is due at once. */
  lemma InsertedIsDue(c: Config, s: State, p: nat, workerId: string, id: string, content: Content)
    requires Enabled(s, Insert(id, content)) && ProcOf(s, p).Idle?
    ensures Enabled(Apply(c, s, Insert(id, content)), Claim(p, workerId, [id]))
    ensures Apply(c, s, Insert(id, content)).rows[id].row == OutboxRow(content, Pending, 0, s.clock, None, None, None, s.clock)
  {
  }

  lemma ClaimOne(c: Config, s: State, p: nat, workerId: string, id: string)
    requires ProcOf(s, p).Idle? && id in s.rows && s.rows[id].row.status.Pending? && s.rows[id].row.availableAt <= s.clock
    ensures Enabled(s, Claim(p, workerId, [id]))
    ensures var s', row := Apply(c, s, Claim(p, workerId, [id])), s.rows[id].row;
            && s'.clock == s.clock && s'.jobs == s.jobs && s'.rows.Keys == s.rows.Keys
            && p in s'.procs && s'.procs[p] == Draining([Snapshot(id, row.content, row.attempts)], ToDispatch, s.clock, 1, 0, 0)
            && s'.rows[id].row == row.(status := Processing, lockedAt := Some(s.clock), lockedBy := Some(workerId))
            && forall other | other in s.rows && other != id :: s'.rows[other] == s.rows[other]
  {
    var s' := Apply(c, s, Claim(p, workerId, [id]));
    assert s'.procs[p].todo == [SnapshotOf(s, id)];
  }

  ghost predicate Waits(before: OutboxRow, after: OutboxRow, claimedAttempts: nat, maxAttempts: int, at: nat) {
    var failed := before.(attempts := before.attempts + 1, lockedAt := None, lockedBy := None);
    after == if claimedAttempts + 1 >= maxAttempts then failed.(status := Status.Failed)
             else failed.(status := Pending, availableAt := at + DelaySec(claimedAttempts + 1) * 1000)
  }

  lemma DispatchAndMark(c: Config, es: seq<Event>, ss: seq<State>, p: nat, row: Snapshot, accepted: bool, delay: nat)
      returns (es': seq<Event>, ss': seq<State>)
    requires Steps(c, es, ss) && p in ss[|es|].procs && row.id in ss[|es|].rows
    requires ss[|es|].procs[p] == Draining([row], ToDispatch, ss[|es|].clock, 1, 0, 0)
    requires accepted ==> JobOf(row).Some?
    ensures Steps(c, es', ss') && ss'[0] == ss[0]
    ensures var s, end := ss[|es|], ss'[|es'|];
            var before := s.rows[row.id].row;
            && ProcOf(end, p).Idle? && end.clock == s.clock + delay && end.rows.Keys == s.rows.Keys
            && (forall other | other in s.rows && other != row.id :: end.rows[other] == s.rows[other])
            && (accepted ==>
                  && end.rows[row.id].row == before.(status := Status.Sent, sentAt := Some(s.clock), lockedAt := None, lockedBy := None)
                  && end.jobs == s.jobs + {JobOf(row).value})
            && (!accepted ==> end.jobs == s.jobs && Waits(before, end.rows[row.id].row, row.attempts, c.maxAttempts, s.clock))
  {
    var at := ss[|es|].clock;
    es', ss' := StepOn(c, es, ss, Dispatch(p, accepted, accepted));
    es', ss' := StepOn(c, es', ss', Tick(at + delay));
    es', ss' := StepOn(c, es', ss', if accepted then MarkSent(p, at, true) else MarkFailed(p, at, true));
    es', ss' := StepOn(c, es', ss', Return(p));
  }

  /** Claiming, dispatching and marking one due row, from any state, with a mark that runs `delay`
      after its clock was read: the queue gets its job and
      the row is sent, or the row is one attempt further and waits or has failed for good. Every
      other row is untouched. */
  lemma RoundAlone(c: Config, s: State, p: nat, workerId: string, id: string, accepted: bool, delay: nat)
      returns (es: seq<Event>, ss: seq<State>)
    requires ProcOf(s, p).Idle? && id in s.rows && s.rows[id].row.status.Pending? && s.rows[id].row.availableAt <= s.clock
    requires accepted ==> !NoQueue(s.rows[id].row.content.eventType)
    ensures Steps(c, es, ss) && ss[0] == s
    ensures var end, row := ss[|es|], s.rows[id].row;
            && ProcOf(end, p).Idle? && end.clock == s.clock + delay && end.rows.Keys == s.rows.Keys
            && (forall other | other in s.rows && other != id :: end.rows[other] == s.rows[other])
            && (accepted ==>
                  && end.rows[id].row == row.(status := Status.Sent, sentAt := Some(s.clock), lockedAt := None, lockedBy := None)
                  && exists queue | GoesTo(row.content.eventType, queue) :: end.jobs == s.jobs + {Job(queue, id, id, row.content)})
            && (!accepted ==> end.jobs == s.jobs && Waits(row, end.rows[id].row, row.attempts, c.maxAttempts, s.clock))
  {
    var snap := Snapshot(id, s.rows[id].row.content, s.rows[id].row.attempts);
    QueueByPrefix(snap);
    ClaimOne(c, s, p, workerId, id);
    es, ss := StepOn(c, [], [s], Claim(p, workerId, [id]));
    es, ss := DispatchAndMark(c, es, ss, p, snap, accepted, delay);
  }

  lemma QueueOnly(c: Config, es: seq<Event>, ss: seq<State>, p: nat, row: Snapshot, markThrows: bool)
      returns (es': seq<Event>, ss': seq<State>)
    requires Steps(c, es, ss) && p in ss[|es|].procs && row.id in ss[|es|].rows
    requires ss[|es|].procs[p] == Draining([row], ToDispatch, ss[|es|].clock, 1, 0, 0) && JobOf(row).Some?
    ensures Steps(c, es', ss') && ss'[0] == ss[0]
    ensures var s, end := ss[|es|], ss'[|es'|];
            && p in end.procs && end.procs[p] == Draining([row], DispatchFailed, s.clock, 1, 0, 1)
            && end.clock == s.clock && end.rows.Keys == s.rows.Keys && end.rows[row.id].row == s.rows[row.id].row
            && end.jobs == s.jobs + {JobOf(row).value}
  {
    es', ss' := StepOn(c, es, ss, Dispatch(p, markThrows, true));
    if markThrows {
      es', ss' := StepOn(c, es', ss', MarkSent(p, ss[|es|].clock, false));
    }
  }

  lemma MarkForRetry(c: Config, es: seq<Event>, ss: seq<State>, p: nat, row: Snapshot) returns (es': seq<Event>, ss': seq<State>)
    requires Steps(c, es, ss) && p in ss[|es|].procs && row.id in ss[|es|].rows
    requires ss[|es|].procs[p] == Draining([row], DispatchFailed, ss[|es|].clock, 1, 0, 1)
    ensures Steps(c, es', ss') && ss'[0] == ss[0]
    ensures var s, end := ss[|es|], ss'[|es'|];
            && ProcOf(end, p).Idle? && end.clock == s.clock && end.rows.Keys == s.rows.Keys && end.jobs == s.jobs
            && Waits(s.rows[row.id].row, end.rows[row.id].row, row.attempts, c.maxAttempts, s.clock)
  {
    es', ss' := StepOn(c, es, ss, MarkFailed(p, ss[|es|].clock, true));
    es', ss' := StepOn(c, es', ss', Return(p));
  }

  /** A job may be in the queue while its row waits for a retry: the call throws after the job was
      added, or the row cannot be marked as sent. */
  lemma QueuedYetRetried(c: Config, s: State, p: nat, workerId: string, id: string, markThrows: bool)
      returns (es: seq<Event>, ss: seq<State>)
    requires ProcOf(s, p).Idle? && id in s.rows && s.rows[id].row.status.Pending? && s.rows[id].row.availableAt <= s.clock
    requires !NoQueue(s.rows[id].row.content.eventType)
    ensures Steps(c, es, ss) && ss[0] == s
    ensures var end, row := ss[|es|], s.rows[id].row;
            && ProcOf(end, p).Idle? && end.clock == s.clock && end.rows.Keys == s.rows.Keys
            && (exists queue | GoesTo(row.content.eventType, queue) :: end.jobs == s.jobs + {Job(queue, id, id, row.content)})
            && Waits(row, end.rows[id].row, row.attempts, c.maxAttempts, s.clock)
  {
    var snap := Snapshot(id, s.rows[id].row.content, s.rows[id].row.attempts);
    QueueByPrefix(snap);
    ClaimOne(c, s, p, workerId, id);
    es, ss := StepOn(c, [], [s], Claim(p, workerId, [id]));
    es, ss := QueueOnly(c, es, ss, p, snap, markThrows);
    es, ss := MarkForRetry(c, es, ss, p, snap);
  }

  // ----- what holds in every interleaving

  predicate LocksMatchStatus(row: OutboxRow) {
    (row.status.Processing? <==> row.lockedAt.Some?) && (row.status.Processing? <==> row.lockedBy.Some?)
  }

  predicate EntryOk(c: Config, s: State, id: string)
    requires id in s.rows
  {
    var t := s.rows[id];
    && LocksMatchStatus(t.row)
    && (t.row.status.Sent? ==> exists job :: job in s.jobs && job.jobId == id && job.outboxEventId == id)
    && (t.row.status.Failed? ==> t.row.attempts >= c.maxAttempts)
    && t.row.attempts == t.stats.failedMarks
  }

  predicate JobOk(s: State, job: Job) {
    && job.jobId == job.outboxEventId && job.outboxEventId in s.rows
    && job.content == s.rows[job.outboxEventId].row.content
    && Route(job.content.eventType) == Some(job.queue)
  }

  predicate SnapshotOk(s: State, x: Snapshot) {
    x.id in s.rows && x.content == s.rows[x.id].row.content && x.attempts <= s.rows[x.id].row.attempts
  }

  ghost predicate ProcOk(s: State, p: nat) {
    var proc := ProcOf(s, p);
    proc.Draining? ==>
      && (forall x | x in proc.todo :: SnapshotOk(s, x))
      && proc.claimed == proc.sent + proc.failed + |proc.todo| - (if proc.phase.DispatchFailed? then 1 else 0)
      && (proc.todo == [] ==> proc.phase.ToDispatch?)
      && (proc.phase.Dispatched? ==> JobOf(proc.todo[0]).Some? && JobOf(proc.todo[0]).value in s.jobs)
  }

  ghost predicate Safe(c: Config, s: State) {
    && (forall id | id in s.rows :: EntryOk(c, s, id))
    && (forall job | job in s.jobs :: JobOk(s, job))
    && (forall p :: ProcOk(s, p))
  }

  /** Rows and jobs only ever gain; a row keeps its content and never loses an attempt. */
  ghost predicate Grows(s: State, s': State) {
    && s.rows.Keys <= s'.rows.Keys && s.jobs <= s'.jobs && s.clock <= s'.clock
    && forall id | id in s.rows ::
         && s'.rows[id].row.content == s.rows[id].row.content
         && s'.rows[id].row.createdAt == s.rows[id].row.createdAt
         && s'.rows[id].row.attempts >= s.rows[id].row.attempts
  }

  lemma StepGrows(c: Config, s: State, e: Event)
    requires Enabled(s, e)
    ensures Grows(s, Apply(c, s, e))
  {
  }

  /** An entry whose row and failure count stay keeps what it promises. */
  lemma EntryStays(c: Config, s: State, s': State, id: string)
    requires id in s.rows && EntryOk(c, s, id) && s.jobs <= s'.jobs && id in s'.rows
    requires s'.rows[id].row == s.rows[id].row && s'.rows[id].stats.failedMarks == s.rows[id].stats.failedMarks
    ensures EntryOk(c, s', id)
  {
    if s.rows[id].row.status.Sent? {
      var job :| job in s.jobs && job.jobId == id && job.outboxEventId == id;
      assert job in s'.jobs;
    }
  }

  lemma MarkKeepsEntry(c: Config, s: State, e: Event)
    requires Enabled(s, e) && Safe(c, s) && (e.MarkSent? || e.MarkFailed?) && e.ok
    ensures EntryOk(c, Apply(c, s, e), ProcOf(s, e.p).todo[0].id)
  {
    var x := ProcOf(s, e.p).todo[0];
    assert EntryOk(c, s, x.id);
    assert ProcOk(s, e.p) && SnapshotOk(s, x);
  }

  lemma LockKeepsEntry(c: Config, s: State, e: Event, id: string)
    requires Enabled(s, e) && id in s.rows && EntryOk(c, s, id) && (e.Claim? || e.Revive?)
    ensures EntryOk(c, Apply(c, s, e), id)
  {
    if Apply(c, s, e).rows[id] == s.rows[id] {
      EntryStays(c, s, Apply(c, s, e), id);
    }
  }

  lemma StepKeepsEntries(c: Config, s: State, e: Event, id: string)
    requires Enabled(s, e) && Safe(c, s) && id in Apply(c, s, e).rows
    ensures EntryOk(c, Apply(c, s, e), id)
  {
    if e.Claim? || e.Revive? {
      LockKeepsEntry(c, s, e, id);
    } else if (e.MarkSent? || e.MarkFailed?) && e.ok && ProcOf(s, e.p).todo[0].id == id {
      MarkKeepsEntry(c, s, e);
    } else if id in s.rows {
      EntryStays(c, s, Apply(c, s, e), id);
    }
  }

  lemma StepKeepsJobs(c: Config, s: State, e: Event, job: Job)
    requires Enabled(s, e) && Safe(c, s) && job in Apply(c, s, e).jobs
    ensures JobOk(Apply(c, s, e), job)
  {
    StepGrows(c, s, e);
    if job !in s.jobs {
      assert ProcOk(s, e.p);
      assert SnapshotOk(s, ProcOf(s, e.p).todo[0]);
    }
  }

  lemma StepKeepsSnapshots(c: Config, s: State, e: Event, p: nat, x: Snapshot)
    requires Enabled(s, e) && ProcOk(s, p)
    requires var s' := Apply(c, s, e); ProcOf(s', p).Draining? && x in ProcOf(s', p).todo
    ensures SnapshotOk(Apply(c, s, e), x)
  {
    StepGrows(c, s, e);
    assert (ProcOf(s, p).Draining? && x in ProcOf(s, p).todo) || (e.Claim? && x.id in s.rows);
  }

  lemma StepKeepsProcs(c: Config, s: State, e: Event, p: nat)
    requires Enabled(s, e) && Safe(c, s)
    ensures ProcOk(Apply(c, s, e), p)
  {
    var s' := Apply(c, s, e);
    StepGrows(c, s, e);
    assert ProcOk(s, p);
    if ProcOf(s', p).Draining? {
      forall x | x in ProcOf(s', p).todo ensures SnapshotOk(s', x) {
        StepKeepsSnapshots(c, s, e, p, x);
      }
    }
  }

  lemma StepKeepsSafe(c: Config, s: State, e: Event)
    requires Enabled(s, e) && Safe(c, s)
    ensures Safe(c, Apply(c, s, e))
  {
    var s' := Apply(c, s, e);
    forall id | id in s'.rows ensures EntryOk(c, s', id) { StepKeepsEntries(c, s, e, id); }
    forall job | job in s'.jobs ensures JobOk(s', job) { StepKeepsJobs(c, s, e, job); }
    forall p ensures ProcOk(s', p) { StepKeepsProcs(c, s, e, p); }
  }

  /** In every interleaving, whatever overruns, throws or crashes: a row is locked exactly
      while it is processing, a sent row was queued under its own id, a failed row has used
      up its attempts, attempts count the failure marks, and every queued job is a row's
      own, on the row's own queue. */
  lemma {:induction false} RunKeepsSafe(c: Config, es: seq<Event>, ss: seq<State>, i: nat)
    requires IsRun(c, es, ss) && i < |ss|
    ensures Safe(c, ss[i])
    decreases i
  {
    if i > 0 {
      RunKeepsSafe(c, es, ss, i - 1);
      NextSafe(c, es, ss, i);
    }
  }

  lemma NextSafe(c: Config, es: seq<Event>, ss: seq<State>, i: nat)
    requires IsRun(c, es, ss) && 0 < i < |ss| && Safe(c, ss[i - 1])
    ensures Safe(c, ss[i])
  {
    StepKeepsSafe(c, ss[i - 1], es[i - 1]);
  }

  /** In every interleaving a job is in the queue of its type's prefix, and a row whose type has
      none of the prefixes is never queued and never sent. */
  lemma JobsGoByPrefix(c: Config, es: seq<Event>, ss: seq<State>, i: nat)
    requires IsRun(c, es, ss) && i < |ss|
    ensures forall job | job in ss[i].jobs :: GoesTo(job.content.eventType, job.queue)
    ensures forall job, id | job in ss[i].jobs && (job.jobId == id || job.outboxEventId == id) ::
              id in ss[i].rows && !NoQueue(ss[i].rows[id].row.content.eventType)
    ensures forall id | id in ss[i].rows && NoQueue(ss[i].rows[id].row.content.eventType) :: !ss[i].rows[id].row.status.Sent?
  {
    RunKeepsSafe(c, es, ss, i);
    forall job | job in ss[i].jobs
      ensures GoesTo(job.content.eventType, job.queue) && !NoQueue(job.content.eventType)
    {
      assert JobOk(ss[i], job);
      QueueByPrefix(Snapshot(job.jobId, job.content, 0));
    }
    forall id | id in ss[i].rows && ss[i].rows[id].row.status.Sent?
      ensures !NoQueue(ss[i].rows[id].row.content.eventType)
    {
      assert EntryOk(c, ss[i], id);
      var job :| job in ss[i].jobs && job.jobId == id && job.outboxEventId == id;
      assert JobOk(ss[i], job);
    }
  }

  /** Rows are never lost, and never change what they say. */
  lemma {:induction false} RowsAreKept(c: Config, es: seq<Event>, ss: seq<State>, i: nat, j: nat)
    requires IsRun(c, es, ss) && i <= j < |ss|
    ensures Grows(ss[i], ss[j])
    decreases j - i
  {
    if i < j {
      RowsAreKept(c, es, ss, i, j - 1);
      StepGrows(c, ss[j - 1], es[j - 1]);
    }
  }

  /** A drain that returns has accounted for every row it claimed. */
  lemma DrainAddsUp(c: Config, es: seq<Event>, ss: seq<State>, i: nat, p: nat)
    requires IsRun(c, es, ss) && i < |es| && es[i] == Return(p)
    ensures ProcOf(ss[i], p).Draining? && ProcOf(ss[i], p).claimed == ProcOf(ss[i], p).sent + ProcOf(ss[i], p).failed
  {
    RunKeepsSafe(c, es, ss, i);
    assert ProcOk(ss[i], p);
  }

  // ----- what holds when every surviving worker marks its rows within the stale limit

  ghost predicate InTimeFor(c: Config, s: State, p: nat) {
    ProcOf(s, p).Draining? && ProcOf(s, p).todo != [] ==> s.clock <= ProcOf(s, p).claimedAt + c.staleMs
  }

  ghost predicate InTime(c: Config, s: State) {
    forall p :: InTimeFor(c, s, p)
  }

  ghost predicate Timely(c: Config, ss: seq<State>) {
    forall i | 0 <= i < |ss| :: InTime(c, ss[i])
  }

  /** The claimed row is still as the claim left it. */
  predicate Owned(c: Config, s: State, p: nat, x: Snapshot) {
    && ProcOf(s, p).Draining? && ProcOf(s, p).claimedAt <= s.clock
    && x.id in s.rows
    && s.rows[x.id].row.status.Processing? && s.rows[x.id].row.lockedAt == Some(ProcOf(s, p).claimedAt)
    && s.rows[x.id].row.attempts == x.attempts < c.maxAttempts
  }

  ghost predicate InFlightOk(c: Config, s: State, p: nat) {
    var proc := ProcOf(s, p);
    proc.Draining? ==>
      && (forall i | 0 <= i < |proc.todo| :: Owned(c, s, p, proc.todo[i]))
      && (forall i, j | 0 <= i < j < |proc.todo| :: proc.todo[i].id != proc.todo[j].id)
      && (forall i | 0 <= i < |proc.todo| && (i > 0 || proc.phase.ToDispatch?) ::
            s.rows[proc.todo[i].id].stats.dispatches < s.rows[proc.todo[i].id].stats.claims)
  }

  ghost predicate InFlight(s: State, p: nat, id: string) {
    ProcOf(s, p).Draining? && exists i :: 0 <= i < |ProcOf(s, p).todo| && ProcOf(s, p).todo[i].id == id
  }

  ghost predicate Disjoint(s: State) {
    forall p, q, id | InFlight(s, p, id) && InFlight(s, q, id) :: p == q
  }

  predicate RowTimed(c: Config, s: State, id: string)
    requires id in s.rows
  {
    var row, stats := s.rows[id].row, s.rows[id].stats;
    && LocksMatchStatus(row)
    && (!row.status.Failed? ==> row.attempts < c.maxAttempts)
    && (row.status.Failed? ==> row.attempts == c.maxAttempts)
    && stats.claims == row.attempts + stats.revivals + (if row.status.Processing? || row.status.Sent? then 1 else 0)
    && stats.dispatches <= stats.claims
    && (stats.firstClaim.None? <==> stats.claims == 0)
    && (stats.firstClaim.Some? && row.attempts > 0 && !row.status.Failed? ==>
          stats.firstClaim.value + DelaySum(row.attempts) * 1000 <= row.availableAt)
    && (row.status.Processing? ==> stats.firstClaim.Some? && stats.firstClaim.value <= row.lockedAt.value)
    && (row.status.Processing? ==> row.availableAt <= row.lockedAt.value)
    && (stats.firstClaim.Some? ==> stats.firstClaim.value <= s.clock)
  }

  ghost predicate Timed(c: Config, s: State) {
    && (forall id | id in s.rows :: RowTimed(c, s, id))
    && (forall p :: InFlightOk(c, s, p))
    && Disjoint(s)
  }

  /** A revival never touches a row in flight. */
  lemma ReviveSparesInFlight(c: Config, s: State, readAt: nat, p: nat, i: nat)
    requires Timed(c, s) && InTime(c, s) && readAt <= s.clock
    requires ProcOf(s, p).Draining? && i < |ProcOf(s, p).todo|
    ensures ProcOf(s, p).todo[i].id in s.rows && !Stale(s.rows[ProcOf(s, p).todo[i].id].row, readAt, c.staleMs)
  {
    assert InFlightOk(c, s, p) && InTimeFor(c, s, p);
    assert Owned(c, s, p, ProcOf(s, p).todo[i]);
  }

  lemma ClaimKeepsRowTimed(c: Config, s: State, id: string, workerId: string)
    requires id in s.rows && RowTimed(c, s, id) && Claimable(s.rows[id].row, s.clock)
    ensures RowTimed(c, s.(rows := s.rows[id := ClaimEntry(s.rows[id], s.clock, workerId)]), id)
  {
  }

  lemma FailKeepsRowTimed(c: Config, s: State, id: string, claimedAt: nat, readAt: nat)
    requires id in s.rows && RowTimed(c, s, id) && s.rows[id].row.status.Processing?
    requires s.rows[id].row.lockedAt == Some(claimedAt) && claimedAt <= readAt <= s.clock
    ensures RowTimed(c, s.(rows := s.rows[id := FailEntry(s.rows[id], s.rows[id].row.attempts, c.maxAttempts, readAt)]), id)
  {
  }

  lemma StepKeepsRowTimed(c: Config, s: State, e: Event, id: string)
    requires c.maxAttempts >= 1 && Enabled(s, e) && Timed(c, s) && id in Apply(c, s, e).rows
    ensures RowTimed(c, Apply(c, s, e), id)
  {
    assert id in s.rows ==> RowTimed(c, s, id);
    if e.Claim? && id in e.ids {
      ClaimKeepsRowTimed(c, s, id, e.workerId);
      assert Apply(c, s, e).rows[id] == ClaimEntry(s.rows[id], s.clock, e.workerId);
    } else if e.Dispatch? || e.MarkSent? || e.MarkFailed? {
      MarkKeepsRowTimed(c, s, e, id);
    }
  }

  lemma MarkKeepsRowTimed(c: Config, s: State, e: Event, id: string)
    requires c.maxAttempts >= 1 && Enabled(s, e) && Timed(c, s) && id in s.rows
    requires e.Dispatch? || e.MarkSent? || e.MarkFailed?
    ensures RowTimed(c, Apply(c, s, e), id)
  {
    assert RowTimed(c, s, id);
    var x := ProcOf(s, e.p).todo[0];
    if x.id == id {
      assert InFlightOk(c, s, e.p);
      assert Owned(c, s, e.p, x);
      if e.MarkFailed? && e.ok {
        FailKeepsRowTimed(c, s, id, ProcOf(s, e.p).claimedAt, e.readAt);
      }
    }
  }

  /** The other process's rows do not move when a process claims, dispatches or marks. */
  lemma StepSparesOthers(c: Config, s: State, e: Event, p: nat, i: nat)
    requires Enabled(s, e) && Timed(c, s) && InTime(c, s)
    requires ProcOf(s, p).Draining? && i < |ProcOf(s, p).todo|
    requires (e.Dispatch? || e.MarkSent? || e.MarkFailed?) ==> e.p != p || i > 0
    ensures ProcOf(s, p).todo[i].id in s.rows && ProcOf(s, p).todo[i].id in Apply(c, s, e).rows
    ensures Apply(c, s, e).rows[ProcOf(s, p).todo[i].id] == s.rows[ProcOf(s, p).todo[i].id]
  {
    var x := ProcOf(s, p).todo[i];
    assert InFlightOk(c, s, p);
    assert Owned(c, s, p, x);
    if e.Revive? {
      ReviveSparesInFlight(c, s, e.readAt, p, i);
    } else if e.Dispatch? || e.MarkSent? || e.MarkFailed? {
      assert InFlight(s, p, x.id) && (ProcOf(s, e.p).todo[0].id == x.id ==> InFlight(s, e.p, x.id));
    }
  }

  lemma ClaimStartsInFlight(c: Config, s: State, e: Event)
    requires Enabled(s, e) && Timed(c, s) && e.Claim?
    ensures InFlightOk(c, Apply(c, s, e), e.p)
  {
    var s' := Apply(c, s, e);
    var todo := ProcOf(s', e.p).todo;
    forall i | 0 <= i < |todo|
      ensures Owned(c, s', e.p, todo[i])
      ensures s'.rows[todo[i].id].stats.dispatches < s'.rows[todo[i].id].stats.claims
    {
      assert RowTimed(c, s, e.ids[i]);
    }
  }

  /** Where the i-th row of the new list stood before the step. */
  function Shift(s: State, s': State, p: nat): int {
    if ProcOf(s, p).Draining? && ProcOf(s', p).Draining? then |ProcOf(s, p).todo| - |ProcOf(s', p).todo| else 0
  }

  lemma ListMovesOn(c: Config, s: State, e: Event, p: nat)
    requires Enabled(s, e) && !(e.Claim? && e.p == p) && ProcOf(Apply(c, s, e), p).Draining?
    ensures ProcOf(s, p).Draining? && ProcOf(Apply(c, s, e), p).claimedAt == ProcOf(s, p).claimedAt
    ensures var d := Shift(s, Apply(c, s, e), p);
            0 <= d <= |ProcOf(s, p).todo| && ProcOf(Apply(c, s, e), p).todo == ProcOf(s, p).todo[d..]
    ensures (e.MarkSent? || e.MarkFailed?) && e.p == p ==> e.ok ==> Shift(s, Apply(c, s, e), p) == 1
    ensures Shift(s, Apply(c, s, e), p) == 0 && ProcOf(Apply(c, s, e), p).phase.ToDispatch? ==> ProcOf(s, p) == ProcOf(Apply(c, s, e), p)
  {
  }

  lemma RowStaysInFlight(c: Config, s: State, e: Event, p: nat, i: nat)
    requires Enabled(s, e) && Timed(c, s) && InTime(c, s) && !(e.Claim? && e.p == p) && ProcOf(Apply(c, s, e), p).Draining?
    requires i < |ProcOf(Apply(c, s, e), p).todo|
    ensures Owned(c, Apply(c, s, e), p, ProcOf(Apply(c, s, e), p).todo[i])
    ensures var s' := Apply(c, s, e); var x := ProcOf(s', p).todo[i];
            (i > 0 || ProcOf(s', p).phase.ToDispatch?) ==> s'.rows[x.id].stats.dispatches < s'.rows[x.id].stats.claims
  {
    var s' := Apply(c, s, e);
    var d := Shift(s, s', p);
    ListMovesOn(c, s, e, p);
    assert InFlightOk(c, s, p);
    assert Owned(c, s, p, ProcOf(s, p).todo[i + d]);
    if i + d > 0 || !(e.Dispatch? || e.MarkSent? || e.MarkFailed?) || e.p != p {
      StepSparesOthers(c, s, e, p, i + d);
    }
  }

  lemma StepKeepsInFlight(c: Config, s: State, e: Event, p: nat)
    requires Enabled(s, e) && Timed(c, s) && InTime(c, s)
    ensures InFlightOk(c, Apply(c, s, e), p)
  {
    var s' := Apply(c, s, e);
    if e.Claim? && e.p == p {
      ClaimStartsInFlight(c, s, e);
    } else if ProcOf(s', p).Draining? {
      assert InFlightOk(c, s, p);
      ListMovesOn(c, s, e, p);
      forall i | 0 <= i < |ProcOf(s', p).todo|
        ensures Owned(c, s', p, ProcOf(s', p).todo[i])
        ensures var x := ProcOf(s', p).todo[i];
                (i > 0 || ProcOf(s', p).phase.ToDispatch?) ==> s'.rows[x.id].stats.dispatches < s'.rows[x.id].stats.claims
      {
        RowStaysInFlight(c, s, e, p, i);
      }
    }
  }

  lemma InFlightComesFrom(c: Config, s: State, e: Event, p: nat, id: string)
    requires Enabled(s, e) && InFlight(Apply(c, s, e), p, id)
    ensures InFlight(s, p, id) || (e.Claim? && e.p == p && id in e.ids)
  {
    var s' := Apply(c, s, e);
    var i :| 0 <= i < |ProcOf(s', p).todo| && ProcOf(s', p).todo[i].id == id;
    if e.Claim? && e.p == p {
      assert ProcOf(s', p).todo[i].id == e.ids[i];
    } else {
      var d := |ProcOf(s, p).todo| - |ProcOf(s', p).todo|;
      assert ProcOf(s, p).todo[i + d] == ProcOf(s', p).todo[i];
    }
  }

  lemma StepKeepsDisjoint(c: Config, s: State, e: Event)
    requires Enabled(s, e) && Timed(c, s)
    ensures Disjoint(Apply(c, s, e))
  {
    var s' := Apply(c, s, e);
    forall p, q, id | InFlight(s', p, id) && InFlight(s', q, id) ensures p == q {
      InFlightComesFrom(c, s, e, p, id);
      InFlightComesFrom(c, s, e, q, id);
      assert InFlightOk(c, s, p) && InFlightOk(c, s, q);
      assert InFlight(s, p, id) ==> s.rows[id].row.status.Processing?;
      assert InFlight(s, q, id) ==> s.rows[id].row.status.Processing?;
    }
  }

  lemma StepKeepsTimed(c: Config, s: State, e: Event)
    requires c.maxAttempts >= 1 && Enabled(s, e) && Timed(c, s) && InTime(c, s)
    ensures Timed(c, Apply(c, s, e))
  {
    var s' := Apply(c, s, e);
    forall id | id in s'.rows ensures RowTimed(c, s', id) { StepKeepsRowTimed(c, s, e, id); }
    forall p ensures InFlightOk(c, s', p) { StepKeepsInFlight(c, s, e, p); }
    StepKeepsDisjoint(c, s, e);
  }

  lemma {:induction false} RunKeepsTimed(c: Config, es: seq<Event>, ss: seq<State>, i: nat)
    requires c.maxAttempts >= 1 && IsRun(c, es, ss) && Timely(c, ss) && i < |ss|
    ensures Timed(c, ss[i])
    decreases i
  {
    if i > 0 {
      RunKeepsTimed(c, es, ss, i - 1);
      NextTimed(c, es, ss, i);
    }
  }

  lemma NextTimed(c: Config, es: seq<Event>, ss: seq<State>, i: nat)
    requires c.maxAttempts >= 1 && IsRun(c, es, ss) && Timely(c, ss) && 0 < i < |ss| && Timed(c, ss[i - 1])
    ensures Timed(c, ss[i])
  {
    StepKeepsTimed(c, ss[i - 1], es[i - 1]);
  }

  /** Under the stale bound no row is in the hands of two workers, and a worker's snapshot
      still tells the truth when it marks the row. */
  lemma InFlightIsExclusive(c: Config, es: seq<Event>, ss: seq<State>, i: nat, p: nat, id: string)
    requires c.maxAttempts >= 1 && IsRun(c, es, ss) && Timely(c, ss) && i < |ss| && InFlight(ss[i], p, id)
    ensures forall q | InFlight(ss[i], q, id) :: q == p
    ensures exists x :: && x in ProcOf(ss[i], p).todo && x.id == id && id in ss[i].rows
                        && ss[i].rows[id].row.attempts == x.attempts && ss[i].rows[id].row.status.Processing?
  {
    RunKeepsTimed(c, es, ss, i);
    assert InFlightOk(c, ss[i], p);
    var k :| 0 <= k < |ProcOf(ss[i], p).todo| && ProcOf(ss[i], p).todo[k].id == id;
    assert Owned(c, ss[i], p, ProcOf(ss[i], p).todo[k]) && ProcOf(ss[i], p).todo[k] in ProcOf(ss[i], p).todo;
  }

  predicate Final(status: Status) {
    status.Sent? || status.Failed?
  }

  lemma StepSparesFinal(c: Config, s: State, e: Event, id: string)
    requires Enabled(s, e) && Timed(c, s) && id in s.rows && Final(s.rows[id].row.status)
    ensures id in Apply(c, s, e).rows && Apply(c, s, e).rows[id] == s.rows[id]
  {
    if e.Dispatch? || e.MarkSent? || e.MarkFailed? {
      assert InFlightOk(c, s, e.p);
      assert Owned(c, s, e.p, ProcOf(s, e.p).todo[0]);
    }
  }

  /** Sent and failed are final: nothing about such a row ever changes again. */
  lemma {:induction false} FinalIsForGood(c: Config, es: seq<Event>, ss: seq<State>, i: nat, j: nat, id: string)
    requires c.maxAttempts >= 1 && IsRun(c, es, ss) && Timely(c, ss) && i <= j < |ss|
    requires id in ss[i].rows && Final(ss[i].rows[id].row.status)
    ensures id in ss[j].rows && ss[j].rows[id] == ss[i].rows[id]
    decreases j - i
  {
    if i < j {
      FinalIsForGood(c, es, ss, i, j - 1, id);
      RunKeepsTimed(c, es, ss, j - 1);
      StepSparesFinal(c, ss[j - 1], es[j - 1], id);
    }
  }

  /** Conservation: every claim is accounted for by a failed attempt, a revival, or the
      present state; so a row is handed to the queue at most as often as it has attempts,
      plus its revivals. */
  lemma DispatchesAreBounded(c: Config, es: seq<Event>, ss: seq<State>, i: nat, id: string)
    requires c.maxAttempts >= 1 && IsRun(c, es, ss) && Timely(c, ss) && i < |ss| && id in ss[i].rows
    ensures var row, stats := ss[i].rows[id].row, ss[i].rows[id].stats;
            && stats.claims == row.attempts + stats.revivals + (if row.status.Processing? || row.status.Sent? then 1 else 0)
            && stats.dispatches <= stats.claims <= c.maxAttempts + stats.revivals
            && (row.status.Pending? ==> row.attempts < c.maxAttempts)
  {
    RunKeepsTimed(c, es, ss, i);
    assert RowTimed(c, ss[i], id);
  }

  /** What is still to come for a row: two per attempt left, one more while it waits. */
  ghost function Measure(c: Config, row: OutboxRow): int {
    if row.status.Sent? then 0 else 2 * (c.maxAttempts - row.attempts) + if row.status.Pending? then 1 else 0
  }

  /** Every claim and every mark of a row brings it down, and a revival raises it by one. */
  lemma ClaimsAndMarksProgress(c: Config, es: seq<Event>, ss: seq<State>, i: nat, id: string)
    requires c.maxAttempts >= 1 && IsRun(c, es, ss) && Timely(c, ss) && i < |es| && id in ss[i].rows
    ensures id in ss[i + 1].rows && Measure(c, ss[i].rows[id].row) >= 0
    ensures var before, after := ss[i].rows[id].row, ss[i + 1].rows[id].row;
            && (before != after && (es[i].Claim? || es[i].MarkSent? || es[i].MarkFailed?) ==> Measure(c, after) < Measure(c, before))
            && (before != after && es[i].Revive? ==> Measure(c, after) == Measure(c, before) + 1)
            && (before != after ==> es[i].Claim? || es[i].MarkSent? || es[i].MarkFailed? || es[i].Revive?)
  {
    RunKeepsTimed(c, es, ss, i);
    assert RowTimed(c, ss[i], id);
    if (es[i].MarkSent? || es[i].MarkFailed?) && ProcOf(ss[i], es[i].p).todo[0].id == id {
      assert InFlightOk(c, ss[i], es[i].p);
      assert Owned(c, ss[i], es[i].p, ProcOf(ss[i], es[i].p).todo[0]);
    }
  }

  /** Backoff: a claim of a row that has failed n times comes no earlier than the first
      claim plus the first n delays. */
  lemma ClaimsBackOff(c: Config, es: seq<Event>, ss: seq<State>, i: nat, id: string)
    requires c.maxAttempts >= 1 && IsRun(c, es, ss) && Timely(c, ss) && i < |es|
    requires es[i].Claim? && id in es[i].ids && ss[i].rows[id].stats.firstClaim.Some?
    ensures var t := ss[i].rows[id];
            ss[i].clock >= t.stats.firstClaim.value + DelaySum(t.row.attempts) * 1000
    // without revivals the tenth claim is the one after nine failures
    ensures ss[i].rows[id].stats.revivals == 0 && ss[i].rows[id].stats.claims == 9 ==>
              ss[i].clock >= ss[i].rows[id].stats.firstClaim.value + 770_000
  {
    RunKeepsTimed(c, es, ss, i);
    assert RowTimed(c, ss[i], id);
    NineDelays();
  }

  lemma Extend(c: Config, es: seq<Event>, ss: seq<State>, e: Event, s: State) returns (es': seq<Event>, ss': seq<State>)
    requires IsRun(c, es, ss) && Enabled(ss[|es|], e) && s == Apply(c, ss[|es|], e)
    ensures IsRun(c, es', ss') && es' == es + [e] && ss' == ss + [s]
  {
    es', ss' := es + [e], ss + [s];
  }

  ghost function OneRow(clock: nat, row: OutboxRow, stats: Stats, jobs: set<Job>, procs: map<nat, Proc>): State {
    State(clock, map["r" := Entry(row, stats)], jobs, procs)
  }

  ghost predicate NoLaterThan(ss: seq<State>, to: nat) {
    forall i | 0 <= i < |ss| :: ss[i].clock <= to
  }

  lemma ClaimTheRow(c: Config, s: State, p: nat, clock: nat, row: OutboxRow, stats: Stats, procs: map<nat, Proc>)
    requires s == OneRow(clock, row, stats, {}, procs) && p !in procs && row.status.Pending? && row.availableAt <= clock
    ensures Enabled(s, Claim(p, "w", ["r"]))
    ensures Apply(c, s, Claim(p, "w", ["r"]))
         == OneRow(clock, ClaimEntry(Entry(row, stats), clock, "w").row, ClaimEntry(Entry(row, stats), clock, "w").stats, {},
                   procs[p := Draining([Snapshot("r", row.content, row.attempts)], ToDispatch, clock, 1, 0, 0)])
  {
    var s' := Apply(c, s, Claim(p, "w", ["r"]));
    assert s'.procs[p].todo == [Snapshot("r", row.content, row.attempts)];
    assert s'.rows == map["r" := ClaimEntry(Entry(row, stats), clock, "w")];
  }

  lemma TwoWorkersClaim(c: Config, content: Content) returns (es: seq<Event>, ss: seq<State>)
    ensures IsRun(c, es, ss) && NoLaterThan(ss, c.staleMs + 1)
    ensures var late := c.staleMs + 1;
            var x := Snapshot("r", content, 0);
            ss[|es|] == OneRow(late, OutboxRow(content, Processing, 0, 0, Some(late), Some("w"), None, 0),
                               Stats(2, 1, 0, 0, Some(0)), {},
                               map[0 := Draining([x], ToDispatch, 0, 1, 0, 0), 1 := Draining([x], ToDispatch, late, 1, 0, 0)])
  {
    var late := c.staleMs + 1;
    var x := Snapshot("r", content, 0);
    var row := OutboxRow(content, Pending, 0, 0, None, None, None, 0);
    var first := Draining([x], ToDispatch, 0, 1, 0, 0);
    var held := Claimed(row, 0, "w");
    es, ss := Extend(c, [], [START], Insert("r", content), OneRow(0, row, Stats(0, 0, 0, 0, None), {}, map[]));
    ClaimTheRow(c, ss[|es|], 0, 0, row, Stats(0, 0, 0, 0, None), map[]);
    es, ss := Extend(c, es, ss, Claim(0, "w", ["r"]), OneRow(0, held, Stats(1, 0, 0, 0, Some(0)), {}, map[0 := first]));
    es, ss := Extend(c, es, ss, Tick(late), OneRow(late, held, Stats(1, 0, 0, 0, Some(0)), {}, map[0 := first]));
    es, ss := Extend(c, es, ss, Revive(late), OneRow(late, row, Stats(1, 1, 0, 0, Some(0)), {}, map[0 := first]));
    var second := Draining([x], ToDispatch, late, 1, 0, 0);
    ClaimTheRow(c, ss[|es|], 1, late, row, Stats(1, 1, 0, 0, Some(0)), map[0 := first]);
    es, ss := Extend(c, es, ss, Claim(1, "w", ["r"]),
                     OneRow(late, Claimed(row, late, "w"), Stats(2, 1, 0, 0, Some(0)), {}, map[0 := first, 1 := second]));
  }

  /** The stale bound matters: a worker that overruns it by a millisecond undoes another
      worker's `sent`, because the marks do not look at the row's status or owner. */
  lemma OverrunUndoesSent(c: Config, content: Content) returns (es: seq<Event>, ss: seq<State>, i: nat)
    requires c.maxAttempts >= 1 && Route(content.eventType).Some?
    ensures IsRun(c, es, ss) && i < |es| && MarkedWithin(ss, c.staleMs + 1)
    ensures "r" in ss[i].rows && ss[i].rows["r"].row.status.Sent?
    ensures "r" in ss[|es|].rows && ss[|es|].rows["r"].row.status == if c.maxAttempts >= 2 then Pending else Failed
  {
    var late := c.staleMs + 1;
    var x := Snapshot("r", content, 0);
    var job := JobOf(x).value;
    es, ss := TwoWorkersClaim(c, content);
    var first := Draining([x], ToDispatch, 0, 1, 0, 0);
    var row := OutboxRow(content, Processing, 0, 0, Some(late), Some("w"), None, 0);
    es, ss := Extend(c, es, ss, Dispatch(1, true, true),
                     OneRow(late, row, Stats(2, 1, 1, 0, Some(0)), {job},
                            map[0 := first, 1 := Draining([x], Dispatched, late, 1, 0, 0)]));
    var sent := OneRow(late, MarkedSent(row, late), Stats(2, 1, 1, 0, Some(0)), {job},
                       map[0 := first, 1 := Draining([], ToDispatch, late, 1, 1, 0)]);
    assert [x][1..] == [];
    es, ss := Extend(c, es, ss, MarkSent(1, late, true), sent);
    i := |es|;
    es, ss := FirstWorkerFails(c, es, ss, sent, row, job, x);
    EarlyIsWithin(ss, late);
  }

  lemma EarlyIsWithin(ss: seq<State>, boundMs: nat)
    requires NoLaterThan(ss, boundMs)
    ensures MarkedWithin(ss, boundMs)
  {
  }

  lemma FirstWorkerFails(c: Config, es: seq<Event>, ss: seq<State>, s: State, row: OutboxRow, job: Job, x: Snapshot)
      returns (es': seq<Event>, ss': seq<State>)
    requires c.maxAttempts >= 1 && IsRun(c, es, ss) && ss[|es|] == s && x.id == "r" && x.attempts == 0
    requires NoLaterThan(ss, s.clock)
    requires var first := Draining([x], ToDispatch, 0, 1, 0, 0);
             var second := Draining([], ToDispatch, s.clock, 1, 1, 0);
             s == OneRow(s.clock, MarkedSent(row, s.clock), Stats(2, 1, 1, 0, Some(0)), {job}, map[0 := first, 1 := second])
    ensures IsRun(c, es', ss') && ss <= ss' && |es| < |es'| && NoLaterThan(ss', s.clock)
    ensures "r" in ss'[|es'|].rows
    ensures ss'[|es'|].rows["r"].row.status == if c.maxAttempts >= 2 then Pending else Failed
  {
    var e := Dispatch(0, false, false);
    var s1 := Apply(c, s, e);
    es', ss' := Extend(c, es, ss, e, s1);
    var e1 := MarkFailed(0, s.clock, true);
    es', ss' := Extend(c, es', ss', e1, Apply(c, s1, e1));
  }

  /** Every row in a worker's hands is marked, or the worker gone, within the bound. */
  ghost predicate MarkedWithin(ss: seq<State>, boundMs: nat) {
    forall i, p | 0 <= i < |ss| && ProcOf(ss[i], p).Draining? && ProcOf(ss[i], p).todo != [] ::
      ss[i].clock <= ProcOf(ss[i], p).claimedAt + boundMs
  }

  ghost predicate FinalKept(ss: seq<State>) {
    forall i, j, id | 0 <= i <= j < |ss| && id in ss[i].rows && Final(ss[i].rows[id].row.status) ::
      id in ss[j].rows && ss[j].rows[id] == ss[i].rows[id]
  }

  lemma InTimeKeepsFinal(c: Config, es: seq<Event>, ss: seq<State>, boundMs: nat)
    requires c.maxAttempts >= 1 && IsRun(c, es, ss) && MarkedWithin(ss, boundMs) && boundMs <= c.staleMs
    ensures FinalKept(ss)
  {
    assert Timely(c, ss);
    forall i, j, id | 0 <= i <= j < |ss| && id in ss[i].rows && Final(ss[i].rows[id].row.status)
      ensures id in ss[j].rows && ss[j].rows[id] == ss[i].rows[id]
    {
      FinalIsForGood(c, es, ss, i, j, id);
    }
  }

  /** Sent and failed are final in all runs of workers that mark within a bound, if and only if
      the bound is at most the stale limit. */
  lemma FinalExactly(c: Config, boundMs: nat)
    requires c.maxAttempts >= 1
    ensures (forall es, ss | IsRun(c, es, ss) && MarkedWithin(ss, boundMs) :: FinalKept(ss)) <==> boundMs <= c.staleMs
  {
    if boundMs <= c.staleMs {
      forall es, ss | IsRun(c, es, ss) && MarkedWithin(ss, boundMs) ensures FinalKept(ss) {
        InTimeKeepsFinal(c, es, ss, boundMs);
      }
    } else {
      var content := Content(None, "booking", "a", "booking.created", "");
      var es, ss, i := OverrunUndoesSent(c, content);
      assert MarkedWithin(ss, boundMs);
      assert !FinalKept(ss) by {
        assert i < |es| && ss[|es|].rows["r"] != ss[i].rows["r"];
      }
    }
  }
}
