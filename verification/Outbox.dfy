/** The transactional outbox: rows written by the booking trigger, claimed in batches,
    handed to a queue under their own id, and marked sent, retried or failed. */
module Outbox {
  import opened Wrappers

  datatype Status = Pending | Processing | Sent | Failed

  datatype Content = Content(businessId: Option<string>, aggregateType: string, aggregateId: string,
                             eventType: string, payload: string)

  datatype OutboxRow = OutboxRow(content: Content, status: Status, attempts: nat, availableAt: nat,
                                 lockedAt: Option<nat>, lockedBy: Option<string>, sentAt: Option<nat>, createdAt: nat)

  datatype QueueName = Notifications | Webhooks | SyncJobs

  /** A job's name is its event type; its payload carries the row's id and content. */
  datatype Job = Job(queue: QueueName, jobId: string, outboxEventId: string, content: Content)

  /** The columns a claim reads. */
  datatype Snapshot = Snapshot(id: string, content: Content, attempts: nat)

  function Route(eventType: string): Option<QueueName> {
    if "booking." <= eventType then Some(Notifications)
    else if "webhook." <= eventType then Some(Webhooks)
    else if "sync." <= eventType || "sync-job." <= eventType || "integration." <= eventType then Some(SyncJobs)
    else None
  }

  function Snap(rows: map<string, OutboxRow>, id: string): Snapshot
    requires id in rows
  {
    Snapshot(id, rows[id].content, rows[id].attempts)
  }

  function JobOf(row: Snapshot): Option<Job> {
    var queue := Route(row.content.eventType);
    if queue.None? then None else Some(Job(queue.value, row.id, row.id, row.content))
  }

  predicate IsSync(eventType: string) {
    "sync." <= eventType || "sync-job." <= eventType || "integration." <= eventType
  }

  /** The queue is the one for the type's prefix. */
  predicate GoesTo(eventType: string, queue: QueueName) {
    && (queue.Notifications? <==> "booking." <= eventType)
    && (queue.Webhooks? <==> "webhook." <= eventType)
    && (queue.SyncJobs? <==> IsSync(eventType))
  }

  predicate NoQueue(eventType: string) {
    !("booking." <= eventType) && !("webhook." <= eventType) && !IsSync(eventType)
  }

  /** A job goes to the queue of its type's prefix, of which there is at most one; a type
      without any of the prefixes has no job. */
  lemma QueueByPrefix(row: Snapshot)
    ensures JobOf(row).Some? <==> !NoQueue(row.content.eventType)
    ensures JobOf(row).Some? ==> GoesTo(row.content.eventType, JobOf(row).value.queue)
    ensures JobOf(row).Some? ==> JobOf(row).value.jobId == JobOf(row).value.outboxEventId == row.id
  {
    var t := row.content.eventType;
    assert "booking." <= t ==> t[0] == 'b';
    assert "webhook." <= t ==> t[0] == 'w';
    assert IsSync(t) ==> t[0] == 's' || t[0] == 'i';
  }

  function Pow2(n: nat): nat {
    if n == 0 then 1 else 2 * Pow2(n - 1)
  }

  function Min(a: nat, b: nat): nat {
    if a <= b then a else b
  }

  function Max(a: nat, b: nat): nat {
    if a >= b then a else b
  }

  function DelaySec(nextAttempt: nat): nat {
    Min(300, Max(5, Pow2(Min(nextAttempt, 8))))
  }

  predicate Stale(row: OutboxRow, readAt: nat, staleLockMs: nat) {
    row.status.Processing? && row.lockedAt.Some? && row.lockedAt.value + staleLockMs < readAt
  }

  function Revived(row: OutboxRow): OutboxRow {
    row.(status := Pending, lockedAt := None, lockedBy := None)
  }

  predicate Claimable(row: OutboxRow, now: nat) {
    row.status.Pending? && row.availableAt <= now
  }

  function Claimed(row: OutboxRow, now: nat, workerId: string): OutboxRow {
    row.(status := Processing, lockedAt := Some(now), lockedBy := Some(workerId))
  }

  function MarkedSent(row: OutboxRow, readAt: nat): OutboxRow {
    row.(status := Status.Sent, sentAt := Some(readAt), lockedAt := None, lockedBy := None)
  }

  /** The decision uses the attempts that the claim read; the row's own are incremented. */
  function MarkedRetryOrFailed(row: OutboxRow, claimedAttempts: nat, maxAttempts: int, readAt: nat): OutboxRow {
    var unlocked := row.(attempts := row.attempts + 1, lockedAt := None, lockedBy := None);
    if claimedAttempts + 1 >= maxAttempts then unlocked.(status := Status.Failed)
    else unlocked.(status := Pending, availableAt := readAt + DelaySec(claimedAttempts + 1) * 1000)
  }

  /** One dispatcher whose drain meets no other worker, at one instant of the clock. The
      queue accepts or rejects each job. */
  class OutboxDispatcherService {
    const maxDispatchAttempts: int
    const staleLockMs: nat
    var rows: map<string, OutboxRow>
    var jobs: seq<Job>

    constructor (maxDispatchAttempts: int, staleLockMs: nat)
      ensures this.maxDispatchAttempts == maxDispatchAttempts && this.staleLockMs == staleLockMs
      ensures rows == map[] && jobs == []
    {
      this.maxDispatchAttempts, this.staleLockMs := maxDispatchAttempts, staleLockMs;
      rows, jobs := map[], [];
    }

    method ReviveStaleLocks(now: nat) returns (count: nat)
      modifies this`rows
      ensures rows.Keys == old(rows).Keys
      ensures forall id | id in rows ::
                var row := old(rows)[id];
                var stale := row.status.Processing? && row.lockedAt.Some? && row.lockedAt.value < now - staleLockMs;
                rows[id] == if stale then row.(status := Pending, lockedAt := None, lockedBy := None) else row
      ensures count == |set id | id in old(rows) && Stale(old(rows)[id], now, staleLockMs)|
    {
      var stale := set id | id in rows && Stale(rows[id], now, staleLockMs);
      count := |stale|;
      rows := map id | id in rows :: if id in stale then Revived(rows[id]) else rows[id];
    }

    /** The select of a claim: the oldest claimable rows, at most `limit`, oldest first. */
    method SelectOldest(limit: nat, now: nat) returns (ids: seq<string>)
      ensures |ids| <= limit && forall i | 0 <= i < |ids| :: ids[i] in rows && Claimable(rows[ids[i]], now)
      ensures forall i, j | 0 <= i < j < |ids| :: ids[i] != ids[j] && rows[ids[i]].createdAt <= rows[ids[j]].createdAt
      // nothing claimable is left over unless the limit is reached, and then nothing older
      ensures forall id | id in rows && Claimable(rows[id], now) && id !in ids ::
                |ids| == limit && forall i | 0 <= i < |ids| :: rows[ids[i]].createdAt <= rows[id].createdAt
    {
      var all := set id | id in rows && Claimable(rows[id], now);
      var left := all;
      ids := [];
      while |ids| < limit && left != {}
        invariant left <= all && |ids| <= limit
        invariant forall id :: id in ids <==> id in all - left
        invariant forall i | 0 <= i < |ids| :: ids[i] in all - left
        invariant forall i, j | 0 <= i < j < |ids| :: ids[i] != ids[j] && rows[ids[i]].createdAt <= rows[ids[j]].createdAt
        invariant forall i, id | 0 <= i < |ids| && id in left :: rows[ids[i]].createdAt <= rows[id].createdAt
        decreases left
      {
        ghost var oldest := Oldest(rows, left);
        var id :| id in left && forall other | other in left :: rows[id].createdAt <= rows[other].createdAt;
        ids, left := ids + [id], left - {id};
      }
    }

    method ClaimBatch(limit: nat, workerId: string, now: nat) returns (batch: seq<Snapshot>)
      modifies this`rows
      ensures |batch| <= limit && DistinctIds(batch) && Ids(batch) <= old(rows).Keys
      ensures forall i | 0 <= i < |batch| ::
                var row := old(rows)[batch[i].id];
                && row.status.Pending? && row.availableAt <= now
                && batch[i] == Snapshot(batch[i].id, row.content, row.attempts)
      ensures forall i, j | 0 <= i < j < |batch| ::
                old(rows)[batch[i].id].createdAt <= old(rows)[batch[j].id].createdAt
      ensures forall id | id in old(rows) && old(rows)[id].status.Pending? && old(rows)[id].availableAt <= now && id !in Ids(batch) ::
                |batch| == limit && forall i | 0 <= i < |batch| :: old(rows)[batch[i].id].createdAt <= old(rows)[id].createdAt
      ensures rows.Keys == old(rows).Keys
      ensures forall id | id in rows ::
                rows[id] == if id in Ids(batch)
                            then old(rows)[id].(status := Processing, lockedAt := Some(now), lockedBy := Some(workerId))
                            else old(rows)[id]
    {
      var ids := SelectOldest(limit, now);
      var read := rows;
      batch := seq(|ids|, i requires 0 <= i < |ids| && ids[i] in read => Snap(read, ids[i]));
      rows := map id | id in read :: if id in ids then Claimed(read[id], now, workerId) else read[id];
      BatchIds(read, ids, batch);
    }

    method MarkSent(id: string, now: nat)
      requires id in rows
      modifies this`rows
      ensures rows == old(rows)[id := old(rows)[id].(status := Status.Sent, sentAt := Some(now), lockedAt := None, lockedBy := None)]
      // and that is what the interleaved form writes
      ensures rows[id] == MarkedSent(old(rows)[id], now)
    {
      rows := rows[id := rows[id].(status := Status.Sent, sentAt := Some(now), lockedAt := None, lockedBy := None)];
    }

    method MarkRetryOrFailed(row: Snapshot, now: nat)
      requires row.id in rows
      modifies this`rows
      ensures var before := old(rows)[row.id];
              var unlocked := before.(attempts := before.attempts + 1, lockedAt := None, lockedBy := None);
              rows == old(rows)[row.id :=
                if row.attempts + 1 >= maxDispatchAttempts then unlocked.(status := Status.Failed)
                else unlocked.(status := Pending, availableAt := now + DelaySec(row.attempts + 1) * 1000)]
      // and that is what the interleaved form writes
      ensures rows[row.id] == MarkedRetryOrFailed(old(rows)[row.id], row.attempts, maxDispatchAttempts, now)
    {
      var nextAttempt := row.attempts + 1;
      var unlocked := rows[row.id].(attempts := rows[row.id].attempts + 1, lockedAt := None, lockedBy := None);
      if nextAttempt >= maxDispatchAttempts {
        rows := rows[row.id := unlocked.(status := Status.Failed)];
        return;
      }
      rows := rows[row.id := unlocked.(status := Pending, availableAt := now + DelaySec(nextAttempt) * 1000)];
    }

    /** The queue may refuse a job; an event type without a queue is refused as well. */
    method DispatchOne(row: Snapshot, accepts: Job -> bool) returns (ok: bool)
      modifies this`jobs
      ensures ok <==> JobOf(row).Some? && accepts(JobOf(row).value)
      ensures jobs == if ok then old(jobs) + [JobOf(row).value] else old(jobs)
      ensures ok ==> |jobs| > 0 && jobs[|jobs| - 1].jobId == row.id && jobs[|jobs| - 1].outboxEventId == row.id
      ensures ok ==> jobs[|jobs| - 1].content == row.content && GoesTo(row.content.eventType, jobs[|jobs| - 1].queue)
      ensures NoQueue(row.content.eventType) ==> !ok
    {
      QueueByPrefix(row);
      var job := JobOf(row);
      ok := job.Some? && accepts(job.value);
      if ok {
        jobs := jobs + [job.value];
      }
    }

    predicate Accepted(row: Snapshot, accepts: Job -> bool) {
      JobOf(row).Some? && accepts(JobOf(row).value)
    }

    /** The jobs of the accepted rows among the first k. */
    ghost function JobsUpTo(batch: seq<Snapshot>, k: nat, accepts: Job -> bool): seq<Job>
      requires k <= |batch|
    {
      if k == 0 then []
      else JobsUpTo(batch, k - 1, accepts) + if Accepted(batch[k - 1], accepts) then [JobOf(batch[k - 1]).value] else []
    }

    predicate DispatchedRow(before: OutboxRow, row: Snapshot, after: OutboxRow, now: nat, accepts: Job -> bool) {
      if Accepted(row, accepts) then
        after == before.(status := Status.Sent, sentAt := Some(now), lockedAt := None, lockedBy := None)
      else
        && after.attempts == before.attempts + 1 && after.lockedAt == None && after.lockedBy == None
        && after.content == before.content && after.createdAt == before.createdAt && after.sentAt == before.sentAt
        && after.status == (if row.attempts + 1 >= maxDispatchAttempts then Status.Failed else Pending)
        && after.availableAt == (if after.status.Failed? then before.availableAt else now + DelaySec(row.attempts + 1) * 1000)
    }

    /** One round of the drain: dispatch, then mark sent, or catch and mark for retry. */
    method DispatchAndMark(row: Snapshot, now: nat, accepts: Job -> bool) returns (ok: bool)
      requires row.id in rows
      modifies this`rows, this`jobs
      ensures ok == Accepted(row, accepts)
      ensures jobs == if ok then old(jobs) + [JobOf(row).value] else old(jobs)
      ensures row.id in rows && DispatchedRow(old(rows)[row.id], row, rows[row.id], now, accepts)
      ensures rows.Keys == old(rows).Keys && forall id | id in rows && id != row.id :: rows[id] == old(rows)[id]
    {
      ok := DispatchOne(row, accepts);
      if ok {
        MarkSent(row.id, now);
      } else {
        MarkRetryOrFailed(row, now);
      }
    }

    method DispatchNext(todo: seq<Snapshot>, k: nat, now: nat, accepts: Job -> bool, ghost ids: set<string>,
                        ghost start: map<string, OutboxRow>) returns (ok: bool)
      requires k < |todo| && DistinctIds(todo) && DispatchedSoFar(start, rows, todo, ids, k, now, accepts)
      modifies this`rows, this`jobs
      ensures DispatchedSoFar(start, rows, todo, ids, k + 1, now, accepts)
      ensures ok == Accepted(todo[k], accepts)
      ensures jobs == if ok then old(jobs) + [JobOf(todo[k]).value] else old(jobs)
    {
      ghost var before := rows;
      ok := DispatchAndMark(todo[k], now, accepts);
      StepDispatched(start, before, rows, todo, ids, k, now, accepts);
    }

    /** `ids` are the ids of the batch. */
    method DispatchAll(todo: seq<Snapshot>, now: nat, accepts: Job -> bool, ghost ids: set<string>)
        returns (sent: nat, failed: nat)
      requires DistinctIds(todo) && ids <= rows.Keys && forall j | 0 <= j < |todo| :: todo[j].id in ids
      modifies this`rows, this`jobs
      ensures sent + failed == |todo|
      ensures jobs == old(jobs) + JobsUpTo(todo, |todo|, accepts) && sent == |JobsUpTo(todo, |todo|, accepts)|
      ensures DispatchedSoFar(old(rows), rows, todo, ids, |todo|, now, accepts)
    {
      sent, failed := 0, 0;
      ghost var start := rows;
      ghost var added: seq<Job> := [];
      for k := 0 to |todo|
        invariant sent + failed == k
        invariant added == JobsUpTo(todo, k, accepts) && jobs == old(jobs) + added && sent == |added|
        invariant DispatchedSoFar(start, rows, todo, ids, k, now, accepts)
      {
        var ok := DispatchNext(todo, k, now, accepts, ids, start);
        if ok {
          sent := sent + 1;
          added := added + [JobOf(todo[k]).value];
        } else {
          failed := failed + 1;
        }
      }
    }

    /** The first `k` rows of the batch are dispatched and marked, the others untouched. */
    ghost predicate DispatchedSoFar(start: map<string, OutboxRow>, rows: map<string, OutboxRow>, todo: seq<Snapshot>,
                                    ids: set<string>, k: nat, now: nat, accepts: Job -> bool)
      requires k <= |todo|
    {
      && rows.Keys == start.Keys && ids <= start.Keys
      && (forall j | 0 <= j < |todo| :: todo[j].id in ids)
      && (forall j | 0 <= j < k :: DispatchedRow(start[todo[j].id], todo[j], rows[todo[j].id], now, accepts))
      && (forall j | k <= j < |todo| :: rows[todo[j].id] == start[todo[j].id])
      && (forall id | id in rows && id !in ids :: rows[id] == start[id])
    }

    lemma StepDispatched(start: map<string, OutboxRow>, before: map<string, OutboxRow>, rows: map<string, OutboxRow>,
                         todo: seq<Snapshot>, ids: set<string>, k: nat, now: nat, accepts: Job -> bool)
      requires k < |todo| && DistinctIds(todo) && DispatchedSoFar(start, before, todo, ids, k, now, accepts)
      requires rows.Keys == before.Keys
      requires forall id | id in rows && id != todo[k].id :: rows[id] == before[id]
      requires DispatchedRow(before[todo[k].id], todo[k], rows[todo[k].id], now, accepts)
      ensures DispatchedSoFar(start, rows, todo, ids, k + 1, now, accepts)
    {
      forall j | 0 <= j < |todo| && j != k ensures rows[todo[j].id] == before[todo[j].id] {
        assert todo[j].id != todo[k].id;
      }
    }

    method DrainOnce(limit: nat, workerId: string, now: nat, accepts: Job -> bool)
        returns (claimed: nat, sent: nat, failed: nat, ghost batch: seq<Snapshot>)
      modifies this`rows, this`jobs
      ensures claimed == |batch| <= limit && claimed == sent + failed
      ensures jobs == old(jobs) + JobsUpTo(batch, |batch|, accepts) && sent == |JobsUpTo(batch, |batch|, accepts)|
      ensures rows.Keys == old(rows).Keys && DistinctIds(batch) && Ids(batch) <= rows.Keys
      // every claimed row ends up sent, or one attempt further and free to be retried or failed for good
      ensures forall j | 0 <= j < |batch| ::
                var before := old(rows)[batch[j].id];
                var seen := if Stale(before, now, staleLockMs) then Revived(before) else before;
                && Claimable(seen, now)
                && DispatchedRow(Claimed(seen, now, workerId), batch[j], rows[batch[j].id], now, accepts)
      // nothing due is left over unless the limit is reached, and then nothing older
      ensures forall id | id in old(rows) && id !in Ids(batch) ::
                var before := old(rows)[id];
                Claimable(if Stale(before, now, staleLockMs) then Revived(before) else before, now) ==>
                  |batch| == limit && forall j | 0 <= j < |batch| :: old(rows)[batch[j].id].createdAt <= before.createdAt
      // every other row is untouched, but for locks gone stale
      ensures forall id | id in rows && id !in Ids(batch) ::
                rows[id] == if Stale(old(rows)[id], now, staleLockMs) then Revived(old(rows)[id]) else old(rows)[id]
    {
      ghost var before := rows;
      var _ := ReviveStaleLocks(now);
      ghost var due := rows;
      assert forall id | id in due :: due[id] == if Stale(before[id], now, staleLockMs) then Revived(before[id]) else before[id];
      batch := [];
      var todo := ClaimBatch(limit, workerId, now);
      batch := todo;
      assert forall j | 0 <= j < |todo| :: todo[j].id in Ids(todo);
      if todo == [] {
        return 0, 0, 0, batch;
      }
      sent, failed := DispatchAll(todo, now, accepts, Ids(todo));
      claimed := |todo|;
    }
  }

  ghost function Ids(batch: seq<Snapshot>): set<string> {
    set row | row in batch :: row.id
  }

  ghost predicate DistinctIds(batch: seq<Snapshot>) {
    forall i, j | 0 <= i < j < |batch| :: batch[i].id != batch[j].id
  }

  lemma BatchIds(rows: map<string, OutboxRow>, ids: seq<string>, batch: seq<Snapshot>)
    requires |batch| == |ids| && forall i | 0 <= i < |ids| :: ids[i] in rows && batch[i] == Snap(rows, ids[i])
    ensures forall i | 0 <= i < |batch| :: batch[i].id == ids[i]
    ensures forall id :: id in Ids(batch) <==> id in ids
  {
    forall i | 0 <= i < |ids| ensures ids[i] in Ids(batch) {
      assert batch[i] in batch && batch[i].id == ids[i];
    }
  }

  lemma {:induction false} Oldest(rows: map<string, OutboxRow>, ids: set<string>) returns (oldest: string)
    requires ids != {} && ids <= rows.Keys
    ensures oldest in ids && forall id | id in ids :: rows[oldest].createdAt <= rows[id].createdAt
  {
    var x :| x in ids;
    if ids == {x} {
      oldest := x;
    } else {
      var next := Oldest(rows, ids - {x});
      oldest := if rows[x].createdAt <= rows[next].createdAt then x else next;
      assert forall id | id in ids :: id == x || id in ids - {x};
    }
  }

  /** The waits after the first nine failures: 5, 5, 8, 16, 32, 64, 128, 256, 256 seconds. */
  function DelaySum(attempts: nat): nat {
    if attempts == 0 then 0 else DelaySum(attempts - 1) + DelaySec(attempts)
  }

  lemma NineDelays()
    ensures DelaySum(9) == 770
    ensures [DelaySec(1), DelaySec(2), DelaySec(3), DelaySec(4), DelaySec(5), DelaySec(6), DelaySec(7), DelaySec(8), DelaySec(9)]
         == [5, 5, 8, 16, 32, 64, 128, 256, 256]
  {
    assert Pow2(4) == 16 && Pow2(8) == 16 * Pow2(4);
    assert DelaySum(3) == 18 && DelaySum(6) == DelaySum(3) + 112 && DelaySum(9) == DelaySum(6) + 640;
  }

  /** The waits never shrink, and the 300 second cap is never what limits them. */
  lemma DelaysGrowBelowCap(n: nat)
    ensures 5 <= DelaySec(n) <= DelaySec(n + 1) <= 256 < 300
    ensures n >= 8 ==> DelaySec(n) == 256
  {
    PowersGrow(Min(n, 8));
    PowersGrow(Min(n + 1, 8));
  }

  lemma {:induction false} PowersGrow(n: nat)
    requires n <= 8
    ensures 1 <= Pow2(n) <= 256 && (n < 8 ==> Pow2(n) <= Pow2(n + 1)) && (n == 8 ==> Pow2(n) == 256)
  {
    assert Pow2(8) == 16 * Pow2(4) && Pow2(4) == 16;
    assert Pow2(8) == 2 * Pow2(7) && Pow2(7) == 2 * Pow2(6) && Pow2(6) == 2 * Pow2(5) && Pow2(5) == 2 * Pow2(4);
  }
}
