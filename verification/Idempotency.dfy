/** Running a queue handler at most once per (queue, key), with a done key and a lock key
    in Redis. A Redis key with an expiry exists while the clock is before it. */
module Idempotency {
  import opened Text
  import opened Wrappers

  datatype Outcome = Processed | Duplicate | Failed

  predicate Exists(expiry: Option<nat>, clock: nat) {
    expiry.Some? && clock < expiry.value
  }

  /** The service when one call runs alone. `effects` counts the handler runs that ended
      well, per queue and key. */
  class QueueIdempotencyService {
    const ttlMs: nat
    const lockMs: nat
    var done: map<(string, string), nat>
    var locks: map<(string, string), nat>
    var effects: map<(string, string), nat>

    constructor (ttlMs: nat, lockMs: nat)
      ensures this.ttlMs == ttlMs && this.lockMs == lockMs
      ensures done == map[] && locks == map[] && effects == map[]
    {
      this.ttlMs, this.lockMs := ttlMs, lockMs;
      done, locks, effects := map[], map[], map[];
    }

    function Live(keys: map<(string, string), nat>, k: (string, string), now: nat): bool {
      k in keys && now < keys[k]
    }

    function Effects(k: (string, string)): nat
      reads this`effects
    {
      if k in effects then effects[k] else 0
    }

    /** The handler, which may throw. */
    method Handle(k: (string, string), throws: bool) returns (ok: bool)
      modifies this`effects
      ensures ok == !throws
      ensures Effects(k) == old(Effects(k)) + (if ok then 1 else 0)
      ensures effects - {k} == old(effects) - {k}
    {
      if !throws {
        effects := effects[k := Effects(k) + 1];
      }
      return !throws;
    }

    /** The lock key is set only where there is none. */
    method TakeLock(k: (string, string), at: nat) returns (taken: bool)
      modifies this`locks
      ensures taken <==> k !in old(locks) || old(locks)[k] <= at
      ensures locks == if taken then old(locks)[k := at + lockMs] else old(locks)
    {
      taken := !Live(locks, k, at);
      if taken {
        locks := locks[k := at + lockMs];
      }
    }

    /** `startAt` is the clock until the handler runs, `endAt` the clock after it. */
    method RunOnce(queueName: string, key: string, throws: bool, startAt: nat, endAt: nat) returns (outcome: Outcome)
      requires startAt <= endAt
      modifies this`done, this`locks, this`effects
      ensures var k := (queueName, Trim(key));
              && effects - {k} == old(effects) - {k}
              && done - {k} == old(done) - {k}
              && locks - {k} == old(locks) - {k}
              && Effects(k) == old(Effects(k)) + (if outcome.Processed? then 1 else 0)
      // a blank key is not deduplicated
      ensures Trim(key) == "" ==> done == old(done) && locks == old(locks) && (outcome.Processed? <==> !throws)
      ensures Trim(key) != "" ==>
                var k := (queueName, Trim(key));
                && (outcome.Duplicate? <==> Live(old(done), k, startAt))
                && (outcome.Processed? <==> !Live(old(done), k, startAt) && !Live(old(locks), k, startAt) && !throws)
                && (outcome.Processed? ==> k in done && done[k] == endAt + ttlMs && k !in locks)
                && (!outcome.Processed? ==> done == old(done))
                && (Live(old(locks), k, startAt) ==> locks == old(locks))
                // a lock that this call took is gone again, however the handler ended
                && (!Live(old(done), k, startAt) && !Live(old(locks), k, startAt) ==> k !in locks)
                && (Live(old(done), k, startAt) ==> locks == old(locks))
    {
      var normalized := Trim(key);
      var k := (queueName, normalized);
      if normalized == "" {
        var ok := Handle(k, throws);
        return if ok then Processed else Failed;
      }
      if Live(done, k, startAt) {
        return Duplicate;
      }
      var locked := TakeLock(k, startAt);
      if !locked {
        return if Live(done, k, startAt) then Duplicate else Failed;
      }
      if Live(done, k, startAt) {
        outcome := Duplicate;
      } else {
        var ok := Handle(k, throws);
        if ok {
          done := done[k := endAt + ttlMs];
        }
        outcome := if ok then Processed else Failed;
      }
      locks := locks - {k};
    }

    /** Two calls one after the other under one key, the keys being free before the first. A
        handler that threw is run again; one that ended well is not, until the done key has run
        out. `handled` counts the handler runs that ended well. */
    method RunTwice(queueName: string, key: string, firstThrows: bool, firstAt: nat, firstEnd: nat,
                    againThrows: bool, againAt: nat, againEnd: nat) returns (first: Outcome, again: Outcome, handled: nat)
      requires Trim(key) != "" && firstAt <= firstEnd <= againAt <= againEnd
      requires var k := (queueName, Trim(key));
               (k in done ==> done[k] <= firstAt) && (k in locks ==> locks[k] <= firstAt)
      modifies this`done, this`locks, this`effects
      ensures first == if firstThrows then Failed else Processed
      ensures firstThrows ==> again == if againThrows then Failed else Processed
      ensures !firstThrows && againAt < firstEnd + ttlMs ==> again == Duplicate
      ensures !firstThrows && againAt >= firstEnd + ttlMs ==> again == if againThrows then Failed else Processed
      ensures handled == (if first == Processed then 1 else 0) + (if again == Processed then 1 else 0)
      ensures Effects((queueName, Trim(key))) == old(Effects((queueName, Trim(key)))) + handled
    {
      first := RunOnce(queueName, key, firstThrows, firstAt, firstEnd);
      again := RunOnce(queueName, key, againThrows, againAt, againEnd);
      handled := (if first == Processed then 1 else 0) + (if again == Processed then 1 else 0);
    }
  }
}

/** Any number of concurrent calls with one queue and one key, command by command. */
module IdempotencyProtocol {
  import opened Wrappers
  import opened Idempotency

  datatype Pc =
    | Called
    | NotDone                        // the first done test was negative
    | Busy                           // somebody else has the lock
    | Locked(at: nat)
    | Handling(at: nat)
    | Handled(at: nat)               // the handler ended well; the done key is next
    | Leaving(at: nat, outcome: Outcome)
    | Returned(outcome: Outcome)
    | Crashed

  /** A write of the done key: when, and by which call. */
  datatype Mark = Mark(at: nat, caller: nat)

  /** `handled` counts the handler runs that ended well, `lost` those whose done key was
      never written. */
  datatype State = State(clock: nat, lock: Option<nat>, done: Option<nat>, calls: map<nat, Pc>,
                         handled: nat, lost: nat, marks: seq<Mark>)

  /** `recheck` is false only in the variant without the second done test. */
  datatype Config = Config(lockMs: nat, ttlMs: nat, recheck: bool)

  datatype Event =
    | Tick(to: nat)
    | Call(id: nat)
    | TestDone(id: nat)
    | TryLock(id: nat)
    | TestBusy(id: nat)
    | Recheck(id: nat, ok: bool)
    | HandlerEnds(id: nat, ok: bool)
    | MarkDone(id: nat, ok: bool)
    | Unlock(id: nat, ok: bool)
    | Crash(id: nat)

  const START: State := State(0, None, None, map[], 0, 0, [])

  ghost predicate Enabled(s: State, e: Event) {
    match e
    case Tick(to) => to >= s.clock
    case Call(id) => id !in s.calls
    case TestDone(id) => id in s.calls && s.calls[id].Called?
    case TryLock(id) => id in s.calls && s.calls[id].NotDone?
    case TestBusy(id) => id in s.calls && s.calls[id].Busy?
    case Recheck(id, _) => id in s.calls && s.calls[id].Locked?
    case HandlerEnds(id, _) => id in s.calls && s.calls[id].Handling?
    case MarkDone(id, _) => id in s.calls && s.calls[id].Handled?
    case Unlock(id, _) => id in s.calls && s.calls[id].Leaving?
    case Crash(id) => id in s.calls && !s.calls[id].Returned? && !s.calls[id].Crashed?
  }

  ghost function At(s: State, id: nat, pc: Pc): State {
    s.(calls := s.calls[id := pc])
  }

  ghost function Apply(c: Config, s: State, e: Event): State
    requires Enabled(s, e)
  {
    match e
    case Tick(to) => s.(clock := to)
    case Call(id) => At(s, id, Called)
    case TestDone(id) => At(s, id, if Exists(s.done, s.clock) then Returned(Duplicate) else NotDone)
    case TryLock(id) =>
      if Exists(s.lock, s.clock) then At(s, id, Busy)
      else At(s.(lock := Some(s.clock + c.lockMs)), id, Locked(s.clock))
    case TestBusy(id) => At(s, id, Returned(if Exists(s.done, s.clock) then Duplicate else Failed))
    case Recheck(id, ok) =>
      var at := s.calls[id].at;
      At(s, id, if !ok then Leaving(at, Failed) else if c.recheck && Exists(s.done, s.clock) then Leaving(at, Duplicate) else Handling(at))
    case HandlerEnds(id, ok) =>
      var at := s.calls[id].at;
      if ok then At(s.(handled := s.handled + 1), id, Handled(at)) else At(s, id, Leaving(at, Failed))
    case MarkDone(id, ok) =>
      var at := s.calls[id].at;
      if ok then At(s.(done := Some(s.clock + c.ttlMs), marks := s.marks + [Mark(s.clock, id)]), id, Leaving(at, Processed))
      else At(s.(lost := s.lost + 1), id, Leaving(at, Failed))
    // the lock key is deleted whoever set it
    case Unlock(id, ok) =>
      if ok then At(s.(lock := None), id, Returned(s.calls[id].outcome)) else At(s, id, Returned(Failed))
    case Crash(id) => At(s.(lost := s.lost + if s.calls[id].Handled? then 1 else 0), id, Crashed)
  }

  /** Steps from any state on. */
  ghost predicate Steps(c: Config, es: seq<Event>, ss: seq<State>) {
    && |ss| == |es| + 1
    && forall i {:trigger es[i]} | 0 <= i < |es| :: Enabled(ss[i], es[i]) && ss[i + 1] == Apply(c, ss[i], es[i])
  }

  ghost predicate IsRun(c: Config, es: seq<Event>, ss: seq<State>) {
    Steps(c, es, ss) && ss[0] == START
  }

  predicate HasLock(pc: Pc) {
    pc.Locked? || pc.Handling? || pc.Handled? || pc.Leaving?
  }

  predicate WillMark(pc: Pc) {
    pc.Handling? || pc.Handled?
  }

  predicate SaysProcessed(pc: Pc) {
    (pc.Leaving? || pc.Returned?) && pc.outcome == Processed
  }

  /** The timing bound: a call that has not crashed unlocks before its lock expires. */
  ghost predicate InTime(c: Config, s: State) {
    forall id | id in s.calls && HasLock(s.calls[id]) :: s.clock < s.calls[id].at + c.lockMs
  }

  ghost predicate Timely(c: Config, ss: seq<State>) {
    forall i | 0 <= i < |ss| :: InTime(c, ss[i])
  }

  /** The done key has not run out. */
  ghost predicate DoneKept(ss: seq<State>) {
    forall i | 0 <= i < |ss| :: ss[i].done.Some? ==> ss[i].clock < ss[i].done.value
  }

  ghost predicate LockIsHeld(c: Config, s: State) {
    && (forall id | id in s.calls && HasLock(s.calls[id]) :: s.lock == Some(s.calls[id].at + c.lockMs))
    && (forall id, other | id in s.calls && other in s.calls && HasLock(s.calls[id]) && HasLock(s.calls[other]) ::
          id == other)
  }

  ghost predicate MarksSpaced(c: Config, s: State) {
    && (s.marks == [] <==> s.done.None?)
    && (s.marks != [] ==> s.done == Some(s.marks[|s.marks| - 1].at + c.ttlMs) && s.marks[|s.marks| - 1].at <= s.clock)
    && (forall i, j | 0 <= i < j < |s.marks| :: s.marks[i].at + c.ttlMs <= s.marks[j].at)
    && (forall id | id in s.calls && WillMark(s.calls[id]) :: !Exists(s.done, s.clock))
  }

  ghost predicate Counted(s: State) {
    && ((forall id | id in s.calls :: !s.calls[id].Handled?) ==> s.handled == |s.marks| + s.lost)
    && ((exists id :: id in s.calls && s.calls[id].Handled?) ==> s.handled == |s.marks| + s.lost + 1)
  }

  ghost predicate MarkedBy(s: State, id: nat) {
    exists m :: m in s.marks && m.caller == id
  }

  predicate MayHaveMarked(pc: Pc) {
    SaysProcessed(pc) || pc == Returned(Failed) || pc.Crashed?
  }

  /** A duplicate was told so after a mark; who says processed has a mark of its own. */
  ghost predicate Answers(s: State) {
    && (forall id | id in s.calls && (s.calls[id].Leaving? || s.calls[id].Returned?) && s.calls[id].outcome == Duplicate ::
          s.marks != [])
    && (forall id | id in s.calls && SaysProcessed(s.calls[id]) :: MarkedBy(s, id))
  }

  ghost predicate MarksOwned(s: State) {
    && (forall m | m in s.marks :: m.caller in s.calls && MayHaveMarked(s.calls[m.caller]))
    && (forall i, j | 0 <= i < j < |s.marks| :: s.marks[i].caller != s.marks[j].caller)
  }

  ghost predicate Inv(c: Config, s: State) {
    LockIsHeld(c, s) && MarksSpaced(c, s) && Counted(s) && Answers(s) && MarksOwned(s)
  }

  /** Every call but one keeps its place; that one is the event's. */
  lemma OthersStay(c: Config, s: State, e: Event)
    requires Enabled(s, e) && !e.Tick?
    ensures var s' := Apply(c, s, e);
            && e.id in s'.calls && s'.calls.Keys == s.calls.Keys + {e.id}
            && forall id | id in s.calls && id != e.id :: s'.calls[id] == s.calls[id]
  {
  }

  lemma TryLockKeepsLock(c: Config, s: State, id: nat)
    requires Enabled(s, TryLock(id)) && LockIsHeld(c, s) && InTime(c, s)
    ensures LockIsHeld(c, Apply(c, s, TryLock(id)))
  {
    if !Exists(s.lock, s.clock) {
      assert forall other | other in s.calls :: !HasLock(s.calls[other]);
    }
  }

  lemma UnlockKeepsLock(c: Config, s: State, id: nat, ok: bool)
    requires Enabled(s, Unlock(id, ok)) && LockIsHeld(c, s)
    ensures LockIsHeld(c, Apply(c, s, Unlock(id, ok)))
  {
    assert HasLock(s.calls[id]);
  }

  lemma StepKeepsLock(c: Config, s: State, e: Event)
    requires Enabled(s, e) && LockIsHeld(c, s) && InTime(c, s)
    ensures LockIsHeld(c, Apply(c, s, e))
  {
    if e.TryLock? {
      TryLockKeepsLock(c, s, e.id);
    } else if e.Unlock? {
      UnlockKeepsLock(c, s, e.id, e.ok);
    } else if !e.Tick? {
      OthersStay(c, s, e);
    }
  }

  lemma MarkKeepsMarks(c: Config, s: State, id: nat, ok: bool)
    requires Enabled(s, MarkDone(id, ok)) && LockIsHeld(c, s) && MarksSpaced(c, s)
    ensures MarksSpaced(c, Apply(c, s, MarkDone(id, ok)))
  {
    assert WillMark(s.calls[id]) && HasLock(s.calls[id]);
    assert forall other | other in s.calls && HasLock(s.calls[other]) :: other == id;
  }

  lemma StepKeepsMarks(c: Config, s: State, e: Event)
    requires c.recheck && Enabled(s, e) && LockIsHeld(c, s) && MarksSpaced(c, s)
    ensures MarksSpaced(c, Apply(c, s, e))
  {
    if e.MarkDone? {
      MarkKeepsMarks(c, s, e.id, e.ok);
    } else if !e.Tick? {
      OthersStay(c, s, e);
    }
  }

  lemma StepKeepsCount(c: Config, s: State, e: Event)
    requires Enabled(s, e) && LockIsHeld(c, s) && Counted(s)
    ensures Counted(Apply(c, s, e))
  {
    var s' := Apply(c, s, e);
    if !e.Tick? {
      if e.id in s.calls && s.calls[e.id].Handled? {
        assert forall id | id in s'.calls :: !s'.calls[id].Handled?;
      } else if s'.calls[e.id].Handled? {
        assert forall id | id in s.calls :: !s.calls[id].Handled?;
      } else {
        assert forall id | id in s.calls :: s.calls[id].Handled? ==> s'.calls[id].Handled?;
        assert forall id | id in s'.calls :: s'.calls[id].Handled? ==> id in s.calls && s.calls[id].Handled?;
      }
    }
  }

  lemma StepKeepsAnswers(c: Config, s: State, e: Event)
    requires Enabled(s, e) && MarksSpaced(c, s) && Answers(s)
    ensures Answers(Apply(c, s, e))
  {
    var s' := Apply(c, s, e);
    forall id | id in s'.calls && SaysProcessed(s'.calls[id]) ensures MarkedBy(s', id) {
      if e.MarkDone? && id == e.id {
        assert Mark(s.clock, id) in s'.marks;
      } else {
        assert SaysProcessed(s.calls[id]) && MarkedBy(s, id);
        var m :| m in s.marks && m.caller == id;
        assert m in s'.marks;
      }
    }
  }

  lemma StepKeepsOwners(c: Config, s: State, e: Event)
    requires Enabled(s, e) && MarksOwned(s)
    ensures MarksOwned(Apply(c, s, e))
  {
    var s' := Apply(c, s, e);
    forall m | m in s'.marks ensures m.caller in s'.calls && MayHaveMarked(s'.calls[m.caller]) {
      if m in s.marks {
        assert MayHaveMarked(s.calls[m.caller]);
      }
    }
    forall i, j | 0 <= i < j < |s'.marks| ensures s'.marks[i].caller != s'.marks[j].caller {
      assert s'.marks[i] in s.marks;
    }
  }

  lemma {:induction false} RunKeepsInv(c: Config, es: seq<Event>, ss: seq<State>, i: nat)
    requires c.recheck && IsRun(c, es, ss) && Timely(c, ss) && i < |ss|
    ensures Inv(c, ss[i])
    decreases i
  {
    if i > 0 {
      RunKeepsInv(c, es, ss, i - 1);
      StepKeepsLock(c, ss[i - 1], es[i - 1]);
      StepKeepsMarks(c, ss[i - 1], es[i - 1]);
      StepKeepsCount(c, ss[i - 1], es[i - 1]);
      StepKeepsAnswers(c, ss[i - 1], es[i - 1]);
      StepKeepsOwners(c, ss[i - 1], es[i - 1]);
    }
  }

  /** At most one call at a time is between taking and leaving the lock. */
  lemma LockExcludes(c: Config, es: seq<Event>, ss: seq<State>, i: nat, id: nat, other: nat)
    requires c.recheck && IsRun(c, es, ss) && Timely(c, ss) && i < |ss|
    requires id in ss[i].calls && HasLock(ss[i].calls[id]) && other in ss[i].calls && HasLock(ss[i].calls[other])
    ensures id == other
  {
    RunKeepsInv(c, es, ss, i);
  }

  /** Two different calls that both answer `processed` wrote the done key at least its
      time to live apart. */
  lemma ProcessedAreSpaced(c: Config, es: seq<Event>, ss: seq<State>, i: nat, id: nat, other: nat) returns (j: nat, k: nat)
    requires c.recheck && IsRun(c, es, ss) && Timely(c, ss) && i < |ss| && id != other
    requires id in ss[i].calls && SaysProcessed(ss[i].calls[id])
    requires other in ss[i].calls && SaysProcessed(ss[i].calls[other])
    ensures j < |ss[i].marks| && ss[i].marks[j].caller == id
    ensures k < |ss[i].marks| && ss[i].marks[k].caller == other
    ensures j < k ==> ss[i].marks[j].at + c.ttlMs <= ss[i].marks[k].at
    ensures k < j ==> ss[i].marks[k].at + c.ttlMs <= ss[i].marks[j].at
    ensures j != k
  {
    RunKeepsInv(c, es, ss, i);
    assert MarkedBy(ss[i], id) && MarkedBy(ss[i], other);
    j :| 0 <= j < |ss[i].marks| && ss[i].marks[j].caller == id;
    k :| 0 <= k < |ss[i].marks| && ss[i].marks[k].caller == other;
  }

  lemma KeptMeansNoneHandled(c: Config, s: State)
    requires MarksSpaced(c, s) && s.marks != [] && s.clock < s.done.value
    ensures forall id | id in s.calls :: !WillMark(s.calls[id])
  {
  }

  lemma {:induction false} KeptMeansOneMark(c: Config, es: seq<Event>, ss: seq<State>, i: nat)
    requires c.recheck && IsRun(c, es, ss) && Timely(c, ss) && DoneKept(ss) && i < |ss|
    ensures |ss[i].marks| <= 1
    ensures |ss[i].marks| == 1 ==> forall id | id in ss[i].calls :: !WillMark(ss[i].calls[id])
    decreases i
  {
    RunKeepsInv(c, es, ss, i);
    if i > 0 {
      KeptMeansOneMark(c, es, ss, i - 1);
      assert ss[i] == Apply(c, ss[i - 1], es[i - 1]);
      assert es[i - 1].MarkDone? ==> WillMark(ss[i - 1].calls[es[i - 1].id]);
    }
    if ss[i].marks != [] {
      KeptMeansNoneHandled(c, ss[i]);
    }
  }

  /** Within one time to live at most one call answers `processed`. */
  lemma ProcessedAtMostOnce(c: Config, es: seq<Event>, ss: seq<State>, i: nat, id: nat, other: nat)
    requires c.recheck && IsRun(c, es, ss) && Timely(c, ss) && DoneKept(ss) && i < |ss|
    requires id in ss[i].calls && SaysProcessed(ss[i].calls[id])
    requires other in ss[i].calls && SaysProcessed(ss[i].calls[other])
    ensures id == other
  {
    KeptMeansOneMark(c, es, ss, i);
    if id != other {
      var _, _ := ProcessedAreSpaced(c, es, ss, i, id, other);
    }
  }

  /** The side effect: while the done key is kept, handler runs that ended well are at
      most one, plus those whose call died or failed before it could write the key. */
  lemma HandledAtMostOnce(c: Config, es: seq<Event>, ss: seq<State>, i: nat)
    requires c.recheck && IsRun(c, es, ss) && Timely(c, ss) && DoneKept(ss) && i < |ss|
    ensures ss[i].handled <= 1 + ss[i].lost
  {
    RunKeepsInv(c, es, ss, i);
    KeptMeansOneMark(c, es, ss, i);
  }

  /** `duplicate` is the answer only after some handler run has ended well. */
  lemma DuplicateMeansHandled(c: Config, es: seq<Event>, ss: seq<State>, i: nat, id: nat)
    requires c.recheck && IsRun(c, es, ss) && Timely(c, ss) && i < |ss|
    requires id in ss[i].calls && ss[i].calls[id] == Returned(Duplicate)
    ensures ss[i].handled >= 1
  {
    RunKeepsInv(c, es, ss, i);
  }

  lemma StepOn(c: Config, es: seq<Event>, ss: seq<State>, e: Event) returns (es': seq<Event>, ss': seq<State>)
    requires Steps(c, es, ss) && Enabled(ss[|es|], e)
    ensures Steps(c, es', ss') && es' == es + [e] && ss' == ss + [Apply(c, ss[|es|], e)]
  {
    es', ss' := es + [e], ss + [Apply(c, ss[|es|], e)];
  }

  lemma Asks(c: Config, s: State, id: nat) returns (es: seq<Event>, ss: seq<State>)
    requires id !in s.calls
    ensures Steps(c, es, ss) && ss[0] == s
    ensures ss[|es|] == At(s, id, if s.done.Some? && s.clock < s.done.value then Returned(Duplicate) else NotDone)
  {
    es, ss := StepOn(c, [], [s], Call(id));
    es, ss := StepOn(c, es, ss, TestDone(id));
    assert ss[|es|].calls == s.calls[id := ss[|es|].calls[id]];
  }

  lemma HandlesAndLeaves(c: Config, es: seq<Event>, ss: seq<State>, id: nat, ok: bool) returns (es': seq<Event>, ss': seq<State>)
    requires Steps(c, es, ss) && id in ss[|es|].calls && ss[|es|].calls[id] == Handling(ss[|es|].clock)
    ensures Steps(c, es', ss') && ss'[0] == ss[0]
    ensures var s := ss[|es|];
            ss'[|es'|] == At(if ok then s.(lock := None, done := Some(s.clock + c.ttlMs), handled := s.handled + 1,
                                           marks := s.marks + [Mark(s.clock, id)])
                             else s.(lock := None), id, Returned(if ok then Processed else Failed))
  {
    var s := ss[|es|];
    es', ss' := StepOn(c, es, ss, HandlerEnds(id, ok));
    if ok {
      es', ss' := StepOn(c, es', ss', MarkDone(id, true));
    }
    es', ss' := StepOn(c, es', ss', Unlock(id, true));
    assert ss'[|es'|].calls == s.calls[id := ss'[|es'|].calls[id]];
  }

  /** A call that nothing interleaves with and whose commands all succeed, from any state: what
      it answers, and what it leaves of the two keys. */
  lemma AloneInSteps(c: Config, s: State, id: nat, ok: bool) returns (es: seq<Event>, ss: seq<State>)
    requires id !in s.calls
    ensures Steps(c, es, ss) && ss[0] == s
    ensures var isDone := s.done.Some? && s.clock < s.done.value;
            var isLocked := s.lock.Some? && s.clock < s.lock.value;
            var end := ss[|es|];
            && end.clock == s.clock && end.calls.Keys == s.calls.Keys + {id}
            && end.calls[id] == Returned(if isDone then Duplicate else if isLocked || !ok then Failed else Processed)
            && end.lock == (if isDone || isLocked then s.lock else None)
            && end.done == (if isDone || isLocked || !ok then s.done else Some(s.clock + c.ttlMs))
            && end.handled == s.handled + (if isDone || isLocked || !ok then 0 else 1)
            && end.lost == s.lost
  {
    es, ss := Asks(c, s, id);
    if s.done.Some? && s.clock < s.done.value {
      return;
    }
    es, ss := StepOn(c, es, ss, TryLock(id));
    if s.lock.Some? && s.clock < s.lock.value {
      es, ss := StepOn(c, es, ss, TestBusy(id));
      return;
    }
    es, ss := StepOn(c, es, ss, Recheck(id, true));
    es, ss := HandlesAndLeaves(c, es, ss, id, ok);
  }

  /** While the done key is there, whoever tests it answers duplicate and the handler is not run,
      with the lock or without; who only finds the lock taken fails. */
  lemma DoneMeansDuplicate(c: Config, s: State, e: Event)
    requires c.recheck && Enabled(s, e) && (e.TestDone? || e.TestBusy? || (e.Recheck? && e.ok))
    ensures var isDone, s' := s.done.Some? && s.clock < s.done.value, Apply(c, s, e);
            && s' == s.(calls := s'.calls) && s'.calls - {e.id} == s.calls - {e.id} && e.id in s'.calls
            && (isDone ==> (s'.calls[e.id].Returned? || s'.calls[e.id].Leaving?) && s'.calls[e.id].outcome == Duplicate)
            && (!isDone && e.TestBusy? ==> s'.calls[e.id] == Returned(Failed))
            && (!isDone && !e.TestBusy? ==> !s'.calls[e.id].Returned? && !s'.calls[e.id].Leaving?)
  {
  }

  /** A call fails when any of its commands after the lock does; what was handled stays handled,
      and a lock that is not deleted runs out. */
  lemma FailedCommandFailsCall(c: Config, s: State, e: Event)
    requires Enabled(s, e) && ((e.Recheck? || e.MarkDone? || e.Unlock?) && !e.ok)
    ensures var s' := Apply(c, s, e);
            && s'.done == s.done && s'.lock == s.lock && s'.handled == s.handled && s'.marks == s.marks
            && e.id in s'.calls
            && s'.calls[e.id] == if e.Unlock? then Returned(Failed) else Leaving(s.calls[e.id].at, Failed)
  {
  }

  /** One more step of a timely run that keeps its done key. */
  lemma Extend(c: Config, es: seq<Event>, ss: seq<State>, e: Event, s: State) returns (es': seq<Event>, ss': seq<State>)
    requires IsRun(c, es, ss) && Timely(c, ss) && DoneKept(ss)
    requires Enabled(ss[|es|], e) && s == Apply(c, ss[|es|], e)
    requires InTime(c, s) && (s.done.Some? ==> s.clock < s.done.value)
    ensures IsRun(c, es', ss') && Timely(c, ss') && DoneKept(ss')
    ensures |es'| == |es| + 1 && ss'[|es'|] == s
  {
    es', ss' := es + [e], ss + [s];
  }

  ghost function Two(lock: Option<nat>, done: Option<nat>, first: Pc, second: Pc, handled: nat, marks: seq<Mark>): State {
    State(0, lock, done, map[0 := first, 1 := second], handled, 0, marks)
  }

  lemma BothCallsTestDone(c: Config) returns (es: seq<Event>, ss: seq<State>)
    requires c == Config(10, 100, false)
    ensures IsRun(c, es, ss) && Timely(c, ss) && DoneKept(ss)
    ensures ss[|es|] == Two(Some(10), None, Locked(0), NotDone, 0, [])
  {
    es, ss := Extend(c, [], [START], Call(0), START.(calls := map[0 := Called]));
    es, ss := Extend(c, es, ss, Call(1), Two(None, None, Called, Called, 0, []));
    es, ss := Extend(c, es, ss, TestDone(0), Two(None, None, NotDone, Called, 0, []));
    es, ss := Extend(c, es, ss, TestDone(1), Two(None, None, NotDone, NotDone, 0, []));
    es, ss := Extend(c, es, ss, TryLock(0), Two(Some(10), None, Locked(0), NotDone, 0, []));
  }

  lemma FirstCallHandles(c: Config) returns (es: seq<Event>, ss: seq<State>)
    requires c == Config(10, 100, false)
    ensures IsRun(c, es, ss) && Timely(c, ss) && DoneKept(ss)
    ensures ss[|es|] == Two(Some(10), None, Handled(0), NotDone, 1, [])
  {
    es, ss := BothCallsTestDone(c);
    es, ss := Extend(c, es, ss, Recheck(0, true), Two(Some(10), None, Handling(0), NotDone, 0, []));
    es, ss := Extend(c, es, ss, HandlerEnds(0, true), Two(Some(10), None, Handled(0), NotDone, 1, []));
  }

  lemma FirstCallFinishes(c: Config) returns (es: seq<Event>, ss: seq<State>)
    requires c == Config(10, 100, false)
    ensures IsRun(c, es, ss) && Timely(c, ss) && DoneKept(ss)
    ensures ss[|es|] == Two(None, Some(100), Returned(Processed), NotDone, 1, [Mark(0, 0)])
  {
    es, ss := FirstCallHandles(c);
    es, ss := Extend(c, es, ss, MarkDone(0, true), Two(Some(10), Some(100), Leaving(0, Processed), NotDone, 1, [Mark(0, 0)]));
    es, ss := Extend(c, es, ss, Unlock(0, true), Two(None, Some(100), Returned(Processed), NotDone, 1, [Mark(0, 0)]));
  }

  /** The second done test is needed: without it a call that tested before the other
      call's mark, and locked after it, runs the handler again. */
  lemma WithoutRecheckHandledTwice() returns (es: seq<Event>, ss: seq<State>)
    ensures var c := Config(10, 100, false);
            && IsRun(c, es, ss) && Timely(c, ss) && DoneKept(ss)
            && ss[|es|].handled == 2 && ss[|es|].lost == 0
  {
    var c := Config(10, 100, false);
    var first := Returned(Processed);
    es, ss := FirstCallFinishes(c);
    es, ss := Extend(c, es, ss, TryLock(1), Two(Some(10), Some(100), first, Locked(0), 1, [Mark(0, 0)]));
    es, ss := Extend(c, es, ss, Recheck(1, true), Two(Some(10), Some(100), first, Handling(0), 1, [Mark(0, 0)]));
    es, ss := Extend(c, es, ss, HandlerEnds(1, true), Two(Some(10), Some(100), first, Handled(0), 2, [Mark(0, 0)]));
  }
}
