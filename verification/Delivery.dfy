/** The whole delivery path: dispatchers fill the queues from the outbox, and consumers run
    the side effect of a delivered job under its outbox event id. A queue may deliver a job
    any number of times. */
module Delivery {
  import opened Text
  import opened Wrappers
  import opened Outbox
  import Idem = IdempotencyProtocol
  import Dispatch = OutboxProtocol

  /** `consumers` holds, per queue and idempotency key, the calls made so far; a key
      without calls is at its start. */
  datatype State = State(outbox: Dispatch.State, consumers: map<(QueueName, string), Idem.State>)

  datatype Config = Config(outbox: Dispatch.Config, idem: Idem.Config)

  datatype Event =
    | Tick(to: nat)
    | OutboxStep(step: Dispatch.Event)
    | Consume(queue: QueueName, key: string, call: Idem.Event)

  const START: State := State(Dispatch.START, map[])

  predicate IsHex(ch: char) {
    '0' <= ch <= '9' || 'a' <= ch <= 'f'
  }

  /** The ids the booking trigger writes: two md5 digests in hex. */
  predicate TriggerId(id: string) {
    |id| == 64 && forall i | 0 <= i < |id| :: IsHex(id[i])
  }

  ghost function CallsOf(s: State, k: (QueueName, string)): Idem.State {
    if k in s.consumers then s.consumers[k] else Idem.START.(clock := s.outbox.clock)
  }

  /** A consumer call is made for a job that is in the queue, under the job's event id. */
  ghost predicate Delivered(s: State, queue: QueueName, key: string) {
    exists job :: job in s.outbox.jobs && job.queue == queue && Trim(job.outboxEventId) == key
  }

  ghost predicate Enabled(s: State, e: Event) {
    match e
    case Tick(to) => to >= s.outbox.clock
    case OutboxStep(oe) => !oe.Tick? && Dispatch.Enabled(s.outbox, oe) && (oe.Insert? ==> TriggerId(oe.id))
    case Consume(queue, key, ie) =>
      && !ie.Tick? && Idem.Enabled(CallsOf(s, (queue, key)), ie)
      && (ie.Call? ==> Delivered(s, queue, key))
  }

  ghost function Apply(c: Config, s: State, e: Event): State
    requires Enabled(s, e)
  {
    match e
    case Tick(to) =>
      State(s.outbox.(clock := to), map k | k in s.consumers :: s.consumers[k].(clock := to))
    case OutboxStep(oe) => s.(outbox := Dispatch.Apply(c.outbox, s.outbox, oe))
    case Consume(queue, key, ie) =>
      s.(consumers := s.consumers[(queue, key) := Idem.Apply(c.idem, CallsOf(s, (queue, key)), ie)])
  }

  ghost predicate IsRun(c: Config, es: seq<Event>, ss: seq<State>) {
    && |ss| == |es| + 1
    && ss[0] == START
    && forall i {:trigger es[i]} | 0 <= i < |es| :: Enabled(ss[i], es[i]) && ss[i + 1] == Apply(c, ss[i], es[i])
  }

  // ----- each part of the path runs its own protocol

  ghost function OutboxEvent(s: State, e: Event): Dispatch.Event {
    match e
    case Tick(to) => Dispatch.Tick(to)
    case OutboxStep(oe) => oe
    case Consume(_, _, _) => Dispatch.Tick(s.outbox.clock)
  }

  ghost function CallEvent(s: State, e: Event, k: (QueueName, string)): Idem.Event {
    match e
    case Tick(to) => Idem.Tick(to)
    case OutboxStep(_) => Idem.Tick(CallsOf(s, k).clock)
    case Consume(queue, key, ie) => if (queue, key) == k then ie else Idem.Tick(CallsOf(s, k).clock)
  }

  ghost function OutboxEvents(es: seq<Event>, ss: seq<State>): seq<Dispatch.Event>
    requires |ss| == |es| + 1
  {
    seq(|es|, i requires 0 <= i < |es| => OutboxEvent(ss[i], es[i]))
  }

  ghost function OutboxStates(ss: seq<State>): seq<Dispatch.State> {
    seq(|ss|, i requires 0 <= i < |ss| => ss[i].outbox)
  }

  ghost function CallEvents(es: seq<Event>, ss: seq<State>, k: (QueueName, string)): seq<Idem.Event>
    requires |ss| == |es| + 1
  {
    seq(|es|, i requires 0 <= i < |es| => CallEvent(ss[i], es[i], k))
  }

  ghost function CallStates(ss: seq<State>, k: (QueueName, string)): seq<Idem.State> {
    seq(|ss|, i requires 0 <= i < |ss| => CallsOf(ss[i], k))
  }

  ghost predicate OneClock(s: State) {
    forall k | k in s.consumers :: s.consumers[k].clock == s.outbox.clock
  }

  lemma {:induction false} ClocksAgree(c: Config, es: seq<Event>, ss: seq<State>, i: nat)
    requires IsRun(c, es, ss) && i < |ss|
    ensures OneClock(ss[i])
    decreases i
  {
    if i > 0 {
      ClocksAgree(c, es, ss, i - 1);
      assert ss[i] == Apply(c, ss[i - 1], es[i - 1]);
    }
  }

  lemma OutboxRuns(c: Config, es: seq<Event>, ss: seq<State>)
    requires IsRun(c, es, ss)
    ensures Dispatch.IsRun(c.outbox, OutboxEvents(es, ss), OutboxStates(ss))
  {
    var oes, oss := OutboxEvents(es, ss), OutboxStates(ss);
    forall i | 0 <= i < |oes|
      ensures Dispatch.Enabled(oss[i], oes[i]) && oss[i + 1] == Dispatch.Apply(c.outbox, oss[i], oes[i])
    {
      assert es[i] == es[i] && ss[i + 1] == Apply(c, ss[i], es[i]);
    }
  }

  lemma CallStep(c: Config, s: State, e: Event, k: (QueueName, string))
    requires Enabled(s, e) && OneClock(s)
    ensures Idem.Enabled(CallsOf(s, k), CallEvent(s, e, k))
    ensures CallsOf(Apply(c, s, e), k) == Idem.Apply(c.idem, CallsOf(s, k), CallEvent(s, e, k))
  {
  }

  lemma NextCallStep(c: Config, es: seq<Event>, ss: seq<State>, i: nat, k: (QueueName, string))
    requires IsRun(c, es, ss) && i < |es|
    ensures Idem.Enabled(CallsOf(ss[i], k), CallEvent(ss[i], es[i], k))
    ensures CallsOf(ss[i + 1], k) == Idem.Apply(c.idem, CallsOf(ss[i], k), CallEvent(ss[i], es[i], k))
  {
    ClocksAgree(c, es, ss, i);
    CallStep(c, ss[i], es[i], k);
  }

  lemma ConsumersRun(c: Config, es: seq<Event>, ss: seq<State>, k: (QueueName, string))
    requires IsRun(c, es, ss)
    ensures Idem.IsRun(c.idem, CallEvents(es, ss, k), CallStates(ss, k))
  {
    var ies, iss := CallEvents(es, ss, k), CallStates(ss, k);
    forall i | 0 <= i < |ies|
      ensures Idem.Enabled(iss[i], ies[i]) && iss[i + 1] == Idem.Apply(c.idem, iss[i], ies[i])
    {
      NextCallStep(c, es, ss, i, k);
    }
  }

  /** A key whose job was never queued has no calls and no effects. */
  ghost predicate CallsWereDelivered(s: State, k: (QueueName, string)) {
    Delivered(s, k.0, k.1) || CallsOf(s, k) == Idem.START.(clock := s.outbox.clock)
  }

  lemma {:induction false} UndeliveredIsUntouched(c: Config, es: seq<Event>, ss: seq<State>, i: nat, k: (QueueName, string))
    requires IsRun(c, es, ss) && i < |ss|
    ensures CallsWereDelivered(ss[i], k)
    decreases i
  {
    if i > 0 {
      UndeliveredIsUntouched(c, es, ss, i - 1, k);
      var s, e, s' := ss[i - 1], es[i - 1], ss[i];
      assert Enabled(s, e) && s' == Apply(c, s, e);
      if Delivered(s, k.0, k.1) {
        var job :| job in s.outbox.jobs && job.queue == k.0 && Trim(job.outboxEventId) == k.1;
        assert job in s'.outbox.jobs by {
          if e.OutboxStep? { Dispatch.StepGrows(c.outbox, s.outbox, e.step); }
        }
      }
    }
  }

  lemma {:induction false} RowIdsAreTriggerIds(c: Config, es: seq<Event>, ss: seq<State>, i: nat)
    requires IsRun(c, es, ss) && i < |ss|
    ensures forall id | id in ss[i].outbox.rows :: TriggerId(id)
    decreases i
  {
    if i > 0 {
      RowIdsAreTriggerIds(c, es, ss, i - 1);
      var s, e := ss[i - 1], es[i - 1];
      assert Enabled(s, e) && ss[i] == Apply(c, s, e);
      forall id | id in ss[i].outbox.rows ensures TriggerId(id) {
        assert id in s.outbox.rows || (e.OutboxStep? && e.step.Insert? && e.step.id == id);
      }
    }
  }

  // ----- the result

  ghost function Effects(s: State, id: string): nat {
    CallsOf(s, (Notifications, id)).handled + CallsOf(s, (Webhooks, id)).handled + CallsOf(s, (SyncJobs, id)).handled
  }

  ghost function Lost(s: State, id: string): nat {
    CallsOf(s, (Notifications, id)).lost + CallsOf(s, (Webhooks, id)).lost + CallsOf(s, (SyncJobs, id)).lost
  }

  /** The consumers' timing: no call outlives its lock, and the done key does not run out. */
  ghost predicate ConsumersInTime(c: Config, ss: seq<State>, k: (QueueName, string)) {
    Idem.Timely(c.idem, CallStates(ss, k)) && Idem.DoneKept(CallStates(ss, k))
  }

  lemma TriggerIdIsTrimmed(id: string)
    requires TriggerId(id)
    ensures Trim(id) == id
  {
    assert IsHex(id[0]) && IsHex(id[|id| - 1]);
  }

  /** All jobs queued under a row's id are in the one queue the row routes to. */
  lemma DeliveredOnlyWhereRouted(c: Config, es: seq<Event>, ss: seq<State>, i: nat, queue: QueueName, id: string)
    requires IsRun(c, es, ss) && i < |ss| && Delivered(ss[i], queue, id)
    ensures id in ss[i].outbox.rows && Route(ss[i].outbox.rows[id].row.content.eventType) == Some(queue)
    ensures GoesTo(ss[i].outbox.rows[id].row.content.eventType, queue)
  {
    OutboxRuns(c, es, ss);
    Dispatch.RunKeepsSafe(c.outbox, OutboxEvents(es, ss), OutboxStates(ss), i);
    RowIdsAreTriggerIds(c, es, ss, i);
    var job :| job in ss[i].outbox.jobs && job.queue == queue && Trim(job.outboxEventId) == id;
    assert Dispatch.JobOk(ss[i].outbox, job);
    var row := job.outboxEventId;
    TriggerIdIsTrimmed(row);
    QueueByPrefix(Snapshot(id, ss[i].outbox.rows[id].row.content, 0));
  }

  /** A consumer of a queue only ever sees rows whose type has that queue's prefix. */
  lemma ConsumersSeeTheirPrefix(c: Config, es: seq<Event>, ss: seq<State>, i: nat, queue: QueueName, id: string)
    requires IsRun(c, es, ss) && i < |ss| && CallsOf(ss[i], (queue, id)).calls != map[]
    ensures id in ss[i].outbox.rows && GoesTo(ss[i].outbox.rows[id].row.content.eventType, queue)
  {
    UndeliveredIsUntouched(c, es, ss, i, (queue, id));
    DeliveredOnlyWhereRouted(c, es, ss, i, queue, id);
  }

  /** End to end: however often a row is claimed, revived, queued again or delivered again,
      its side effect completes at most once, plus once for every consumer that died or
      failed between finishing it and recording so. No bound on the dispatchers is needed. */
  lemma OneEffectPerRow(c: Config, es: seq<Event>, ss: seq<State>, i: nat, id: string)
    requires c.idem.recheck && IsRun(c, es, ss) && i < |ss|
    requires forall queue :: ConsumersInTime(c, ss, (queue, id))
    ensures Effects(ss[i], id) <= 1 + Lost(ss[i], id)
    ensures Effects(ss[i], id) > 0 ==>
              exists job :: job in ss[i].outbox.jobs && job.jobId == id && id in ss[i].outbox.rows
  {
    forall queue ensures CallsOf(ss[i], (queue, id)).handled <= 1 + CallsOf(ss[i], (queue, id)).lost
    {
      assert ConsumersInTime(c, ss, (queue, id));
      ConsumersRun(c, es, ss, (queue, id));
      Idem.HandledAtMostOnce(c.idem, CallEvents(es, ss, (queue, id)), CallStates(ss, (queue, id)), i);
    }
    forall queue ensures Delivered(ss[i], queue, id) || CallsOf(ss[i], (queue, id)).handled == 0
    {
      UndeliveredIsUntouched(c, es, ss, i, (queue, id));
    }
    forall p, q | Delivered(ss[i], p, id) && Delivered(ss[i], q, id) ensures p == q {
      DeliveredOnlyWhereRouted(c, es, ss, i, p, id);
      DeliveredOnlyWhereRouted(c, es, ss, i, q, id);
    }
    if Effects(ss[i], id) > 0 {
      var queue :| Delivered(ss[i], queue, id);
      DeliveredIsRow(c, es, ss, i, queue, id);
    }
  }

  lemma DeliveredIsRow(c: Config, es: seq<Event>, ss: seq<State>, i: nat, queue: QueueName, id: string)
    requires IsRun(c, es, ss) && i < |ss| && Delivered(ss[i], queue, id)
    ensures exists job :: job in ss[i].outbox.jobs && job.jobId == id && id in ss[i].outbox.rows
  {
    OutboxRuns(c, es, ss);
    Dispatch.RunKeepsSafe(c.outbox, OutboxEvents(es, ss), OutboxStates(ss), i);
    RowIdsAreTriggerIds(c, es, ss, i);
    var job :| job in ss[i].outbox.jobs && job.queue == queue && Trim(job.outboxEventId) == id;
    assert Dispatch.JobOk(ss[i].outbox, job);
    var row := job.outboxEventId;
    TriggerIdIsTrimmed(row);
  }
}
