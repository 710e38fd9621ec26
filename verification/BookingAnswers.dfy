/** What the answer of a booking call says about the tables: when a call changed them, when an
    error or a success tells otherwise, and what a repeated create can do. */
module BookingAnswers {
  import opened Wrappers
  import opened Bookings
  import opened BookingLifecycle

  // ----- when a transaction changes bookings, history and events

  predicate Found(db: Db, businessId: string, bookingId: string) {
    bookingId in db.bookings && db.bookings[bookingId].businessId == businessId
  }

  /** An owner, admin or staff member of the business, by membership or else by the caller's role. */
  predicate Operates(actor: Actor, env: Env) {
    (env.membership.Some? && env.membership.value != Customer) || actor.role != Customer
  }

  predicate MayChange(b: Booking, actor: Actor, env: Env) {
    Operates(actor, env) || b.customerId == actor.userId
  }

  /** Customers must keep the notice, where one is set. */
  predicate InTime(b: Booking, actor: Actor, env: Env) {
    Operates(actor, env) || env.noticeMin == 0 || env.now + env.noticeMin * 60_000 <= b.span.start
  }

  /** No other pending or confirmed booking of the staff member shares an instant with the span. */
  ghost predicate NoneInTheWay(db: Db, id: string, staffId: string, start: int, end: int) {
    forall other | other in db.bookings && other != id && PendingOrConfirmed(db.bookings[other].status)
                   && db.bookings[other].staffId == staffId ::
      db.bookings[other].span.end <= start || end <= db.bookings[other].span.start
  }

  /** The guards that the tables, the actor and the environment must pass. */
  ghost predicate Accepted(db: Db, req: Request, actor: Actor, env: Env) {
    match req
    case CreateRequest(_, _, staffId, _, _, _, startAt, _, _) =>
      && env.totalMin.Some? && env.totalMin.value > 0
      && NoneInTheWay(db, env.newId, staffId, startAt, startAt + env.totalMin.value * 60_000)
      && env.referencesOk
    case RescheduleRequest(businessId, id, startAt) =>
      && Found(db, businessId, id) && PendingOrConfirmed(db.bookings[id].status)
      && MayChange(db.bookings[id], actor, env) && InTime(db.bookings[id], actor, env)
      && var total := if db.bookings[id].totalMinSnapshot.Some? then db.bookings[id].totalMinSnapshot else env.legacyMin;
         && total.Some? && total.value > 0
         && NoneInTheWay(db, id, db.bookings[id].staffId, startAt, startAt + total.value * 60_000)
    case CancelRequest(businessId, id) =>
      && Found(db, businessId, id) && PendingOrConfirmed(db.bookings[id].status)
      && MayChange(db.bookings[id], actor, env) && InTime(db.bookings[id], actor, env)
    case ConfirmRequest(businessId, id) =>
      && Found(db, businessId, id) && db.bookings[id].status == Pending && Operates(actor, env)
  }

  /** A cancel or confirm that finds its work done. */
  predicate DoneBefore(db: Db, req: Request, actor: Actor, env: Env) {
    match req
    case CancelRequest(businessId, id) =>
      Found(db, businessId, id) && db.bookings[id].status == Cancelled && MayChange(db.bookings[id], actor, env)
    case ConfirmRequest(businessId, id) =>
      Found(db, businessId, id) && db.bookings[id].status == Confirmed && Operates(actor, env)
    case _ => false
  }

  predicate KeyTaken(db: Db, req: Request, key: Option<string>) {
    key.Some? && (req.businessId, key.value) in db.keys
  }

  /** What the caller is told after a change: the row as it now stands, or for a cancel or confirm
      that found its work done, the status. */
  ghost predicate TellsOf(db: Db, req: Request, env: Env, reply: Response) {
    match req
    case CreateRequest(_, _, _, _, _, _, startAt, _, _) =>
      && env.totalMin.Some?
      && reply == Response(env.newId, Pending, Some(Interval(startAt, startAt + env.totalMin.value * 60_000)))
    case RescheduleRequest(_, id, startAt) =>
      && id in db.bookings
      && var total := if db.bookings[id].totalMinSnapshot.Some? then db.bookings[id].totalMinSnapshot else env.legacyMin;
         total.Some? && reply == Response(id, db.bookings[id].status, Some(Interval(startAt, startAt + total.value * 60_000)))
    case CancelRequest(_, id) =>
      && id in db.bookings
      && reply == Response(id, Cancelled, if db.bookings[id].status == Cancelled then None else Some(db.bookings[id].span))
    case ConfirmRequest(_, id) =>
      && id in db.bookings
      && reply == Response(id, Confirmed, if db.bookings[id].status == Confirmed then None else Some(db.bookings[id].span))
  }

  lemma WayIsFree(db: Db, id: string, staffId: string, span: Interval)
    ensures !Taken(db.bookings, id, staffId, span) <==> NoneInTheWay(db, id, staffId, span.start, span.end)
  {
  }

  /** Two spans are in each other's way exactly when they share an instant. */
  lemma OverlapMeansCommonInstant(a: Interval, b: Interval)
    requires a.start < a.end && b.start < b.end
    ensures Overlap(a, b) <==> exists t :: Covers(a, t) && Covers(b, t)
  {
    var t := if a.start < b.start then b.start else a.start;
    if Overlap(a, b) {
      assert Covers(a, t) && Covers(b, t);
    }
  }

  predicate Covers(a: Interval, t: int) {
    a.start <= t < a.end
  }

  /** Why a transaction is refused: the first of its guards that fails, in the order in which the
      code asks. */
  lemma RefusedBecause(db: Db, req: Request, key: Option<string>, actor: Actor, env: Env)
    requires env.newId !in db.bookings && RunTx(db, req, key, actor, env).1.Err?
    ensures var error := RunTx(db, req, key, actor, env).1.error;
            match req
            case CreateRequest(_, _, staffId, _, _, _, startAt, _, _) =>
              error == (if env.totalMin.None? then ProfileUnresolved
                        else if env.totalMin.value > 0
                                && !NoneInTheWay(db, env.newId, staffId, startAt, startAt + env.totalMin.value * 60_000)
                        then SlotNotAvailable
                        else CreateFailed)
            case RescheduleRequest(businessId, id, startAt) =>
              if !Found(db, businessId, id) || !PendingOrConfirmed(db.bookings[id].status) then error == NotFound
              else if !MayChange(db.bookings[id], actor, env) then error == NotAllowed
              else if !InTime(db.bookings[id], actor, env) then error == WindowPassed
              else
                var total := if db.bookings[id].totalMinSnapshot.Some? then db.bookings[id].totalMinSnapshot else env.legacyMin;
                error == (if total.None? then NotFound else if total.value <= 0 then RescheduleFailed else SlotNotAvailable)
            case CancelRequest(businessId, id) =>
              if !Found(db, businessId, id) then error == NotFound
              else if !MayChange(db.bookings[id], actor, env) then error == NotAllowed
              else error == (if PendingOrConfirmed(db.bookings[id].status) then WindowPassed else NotCancelable)
            case ConfirmRequest(businessId, id) =>
              if !Found(db, businessId, id) then error == NotFound
              else error == (if Operates(actor, env) then NotConfirmable else NotAllowed)
  {
    if req.CreateRequest? && env.totalMin.Some? {
      WayIsFree(db, env.newId, req.staffId, SpanFor(req.startAt, env.totalMin.value));
    }
  }

  /** The guards decide; only a reschedule whose key is taken answers well and changes nothing. */
  lemma GuardsDecide(db: Db, req: Request, key: Option<string>, actor: Actor, env: Env)
    requires env.newId !in db.bookings
    ensures var (db', result) := RunTx(db, req, key, actor, env);
            && (result.Ok? <==> Accepted(db, req, actor, env) || DoneBefore(db, req, actor, env))
            && (result.Ok? ==> TellsOf(db, req, env, result.value))
            && (!SameTables(db, db') <==> Accepted(db, req, actor, env) && !(req.RescheduleRequest? && KeyTaken(db, req, key)))
            && (!SameTables(db, db') ==> |db'.history| == |db.history| + 1)
            && (SameTables(db, db') ==> db' == db)
  {
    var db' := RunTx(db, req, key, actor, env).0;
    match req
    case CreateRequest(_, _, staffId, _, _, _, startAt, _, _) =>
      if env.totalMin.Some? {
        WayIsFree(db, env.newId, staffId, SpanFor(startAt, env.totalMin.value));
      }
    case RescheduleRequest(_, id, startAt) =>
      if id in db.bookings {
        var total := if db.bookings[id].totalMinSnapshot.Some? then db.bookings[id].totalMinSnapshot else env.legacyMin;
        if total.Some? {
          WayIsFree(db, id, db.bookings[id].staffId, SpanFor(startAt, total.value));
        }
      }
    case _ =>
    if db' != db {
      assert |db'.history| == |db.history| + 1;
    }
  }

  // ----- when a failed call changed the tables

  function CallOf(e: Step): nat {
    e.id
  }

  ghost predicate ChangedBy(es: seq<Step>, ss: seq<State>, i: nat, id: nat)
    requires |ss| == |es| + 1 && i < |ss|
  {
    exists j :: 0 <= j < i && CallOf(es[j]) == id && !SameTables(ss[j].db, ss[j + 1].db)
  }

  /** A commit of the call whose guards passed. */
  ghost predicate CommittedAt(es: seq<Step>, ss: seq<State>, j: nat, id: nat)
    requires j < |es| < |ss|
  {
    && es[j].Commit? && es[j].id == id && id in ss[j].calls
    && Accepted(ss[j].db, ss[j].calls[id].req, ss[j].calls[id].actor, es[j].env)
    && !(ss[j].calls[id].req.RescheduleRequest? && KeyTaken(ss[j].db, ss[j].calls[id].req, ss[j].calls[id].key))
  }

  lemma OnlyCommitsChange(es: seq<Step>, ss: seq<State>, j: nat)
    requires IsRun(es, ss) && j < |es|
    ensures !SameTables(ss[j].db, ss[j + 1].db) <==> CommittedAt(es, ss, j, CallOf(es[j]))
  {
    var s, e := ss[j], es[j];
    assert Enabled(s, e) && ss[j + 1] == Apply(s, e);
    if e.Commit? {
      GuardsDecide(s.db, s.calls[e.id].req, s.calls[e.id].key, s.calls[e.id].actor, e.env);
    }
  }

  predicate NotCommittedYet(s: State, id: nat) {
    id !in s.calls || s.calls[id].state.Started? || s.calls[id].state.Missed?
  }

  lemma {:induction false} NoCommitYet(es: seq<Step>, ss: seq<State>, i: nat, id: nat)
    requires IsRun(es, ss) && i < |ss| && NotCommittedYet(ss[i], id)
    ensures forall j | 0 <= j < i :: !(es[j].Commit? && es[j].id == id)
    decreases i
  {
    if i > 0 {
      assert Enabled(ss[i - 1], es[i - 1]) && ss[i] == Apply(ss[i - 1], es[i - 1]);
      NoCommitYet(es, ss, i - 1, id);
    }
  }

  /** The call's key could not be saved after its commit. */
  ghost predicate SaveFailedAfter(es: seq<Step>, ss: seq<State>, i: nat, id: nat)
    requires |ss| == |es| + 1 && i < |ss|
  {
    exists j, k :: 0 <= j < k < i && CommittedAt(es, ss, j, id) && es[k] == Save(id, false)
  }

  ghost predicate Failed(s: State, id: nat) {
    id in s.calls && s.calls[id].state.Finished? && s.calls[id].state.result.Err?
  }

  lemma {:induction false} FailedAfterSave(es: seq<Step>, ss: seq<State>, i: nat, j: nat, id: nat)
    requires IsRun(es, ss) && j < i < |ss| && Failed(ss[i], id) && CommittedAt(es, ss, j, id)
    ensures exists k :: j < k < i && es[k] == Save(id, false)
    decreases i
  {
    var s, e := ss[i - 1], es[i - 1];
    assert Enabled(s, e) && ss[i] == Apply(s, e);
    if Failed(s, id) && j < i - 1 {
      FailedAfterSave(es, ss, i - 1, j, id);
    } else if e.Commit? && e.id == id {
      GuardsDecide(s.db, s.calls[id].req, s.calls[id].key, s.calls[id].actor, e.env);
      NoCommitYet(es, ss, i - 1, id);
    } else if e.LookUp? && e.id == id {
      NoCommitYet(es, ss, i - 1, id);
    }
  }

  /** A call that answers with an error changed bookings, history or events, in any run, if and
      only if its guards passed and then its key could not be saved. */
  lemma FailedCallChangesNothing(es: seq<Step>, ss: seq<State>, i: nat, id: nat)
    requires IsRun(es, ss) && i < |ss| && Failed(ss[i], id)
    ensures ChangedBy(es, ss, i, id) <==> SaveFailedAfter(es, ss, i, id)
  {
    if ChangedBy(es, ss, i, id) {
      var j :| 0 <= j < i && CallOf(es[j]) == id && !SameTables(ss[j].db, ss[j + 1].db);
      OnlyCommitsChange(es, ss, j);
      FailedAfterSave(es, ss, i, j, id);
    }
    if SaveFailedAfter(es, ss, i, id) {
      var j, k :| 0 <= j < k < i && CommittedAt(es, ss, j, id) && es[k] == Save(id, false);
      OnlyCommitsChange(es, ss, j);
      assert CallOf(es[j]) == id;
    }
  }

  lemma Extend(es: seq<Step>, ss: seq<State>, e: Step, s: State) returns (es': seq<Step>, ss': seq<State>)
    requires IsRun(es, ss) && Enabled(ss[|es|], e) && s == Apply(ss[|es|], e)
    ensures IsRun(es', ss') && es' == es + [e] && ss' == ss + [s]
  {
    es', ss' := es + [e], ss + [s];
  }

  lemma CreateCommits(req: Request, key: string, actor: Actor, env: Env) returns (es: seq<Step>, ss: seq<State>)
    requires req.CreateRequest? && env.totalMin.Some? && env.totalMin.value > 0 && env.referencesOk
    ensures IsRun(es, ss) && |es| == 3 && CommittedAt(es, ss, 2, 0) && ss[0].db.bookings == map[]
    ensures env.newId in ss[3].db.bookings && 0 in ss[3].calls && ss[3].calls[0].state.Committed?
  {
    var s0 := State(Db(map[], [], [], map[]), map[]);
    es, ss := Extend([], [s0], Start(0, req, Some(key), actor), Apply(s0, Start(0, req, Some(key), actor)));
    es, ss := Extend(es, ss, LookUp(0), Apply(ss[1], LookUp(0)));
    GuardsDecide(s0.db, req, Some(key), actor, env);
    es, ss := Extend(es, ss, Commit(0, env), Apply(ss[2], Commit(0, env)));
  }

  /** Such a call: a create that is told it failed, and whose booking stands. */
  lemma FailedCreateBooks(req: Request, key: string, actor: Actor, env: Env) returns (es: seq<Step>, ss: seq<State>)
    requires req.CreateRequest? && env.totalMin.Some? && env.totalMin.value > 0 && env.referencesOk
    ensures IsRun(es, ss) && Failed(ss[|es|], 0) && env.newId in ss[|es|].db.bookings
    ensures ss[0].db.bookings == map[] && ChangedBy(es, ss, |es|, 0)
  {
    es, ss := CreateCommits(req, key, actor, env);
    var es', ss' := Extend(es, ss, Save(0, false), Apply(ss[3], Save(0, false)));
    assert CommittedAt(es', ss', 2, 0) && es'[3] == Save(0, false);
    FailedCallChangesNothing(es', ss', 4, 0);
    es, ss := es', ss';
  }

  // ----- when a reschedule that is told it went through was lost

  /** Since when the call has been waiting for its transaction. */
  lemma {:induction false} MissedSince(es: seq<Step>, ss: seq<State>, j: nat, id: nat) returns (i: nat)
    requires IsRun(es, ss) && j < |ss| && id in ss[j].calls && ss[j].calls[id].state.Missed?
    ensures i < j && es[i] == LookUp(id) && !KeyTaken(ss[i].db, ss[j].calls[id].req, ss[j].calls[id].key)
    ensures forall m | i < m <= j :: id in ss[m].calls && ss[m].calls[id] == ss[j].calls[id]
    decreases j
  {
    assert j > 0;
    var s, e := ss[j - 1], es[j - 1];
    assert Enabled(s, e) && ss[j] == Apply(s, e);
    if e == LookUp(id) {
      i := j - 1;
    } else {
      i := MissedSince(es, ss, j - 1, id);
    }
  }

  lemma {:induction false} StoredBetween(es: seq<Step>, ss: seq<State>, i: nat, j: nat, req: Request, key: Option<string>)
      returns (k: nat)
    requires IsRun(es, ss) && i <= j < |ss| && !KeyTaken(ss[i].db, req, key) && KeyTaken(ss[j].db, req, key)
    ensures i <= k < j && !KeyTaken(ss[k].db, req, key) && KeyTaken(ss[k + 1].db, req, key)
    decreases j - i
  {
    if KeyTaken(ss[j - 1].db, req, key) {
      k := StoredBetween(es, ss, i, j - 1, req, key);
    } else {
      k := j - 1;
    }
  }

  /** The step at which another call stored the key while this one was waiting. */
  ghost predicate OvertakenAt(es: seq<Step>, ss: seq<State>, i: nat, k: nat, j: nat, id: nat)
    requires j < |es| < |ss| && id in ss[j].calls
  {
    && i < k < j && es[i] == LookUp(id) && CallOf(es[k]) != id
    && !KeyTaken(ss[k].db, ss[j].calls[id].req, ss[j].calls[id].key)
    && KeyTaken(ss[k + 1].db, ss[j].calls[id].req, ss[j].calls[id].key)
  }

  lemma OtherCallStored(es: seq<Step>, ss: seq<State>, j: nat, id: nat)
    requires IsRun(es, ss) && j < |es| && id in ss[j].calls && ss[j].calls[id].state.Missed?
    requires KeyTaken(ss[j].db, ss[j].calls[id].req, ss[j].calls[id].key)
    ensures exists i, k :: OvertakenAt(es, ss, i, k, j, id)
  {
    var call := ss[j].calls[id];
    var i := MissedSince(es, ss, j, id);
    var k := StoredBetween(es, ss, i, j, call.req, call.key);
    assert Enabled(ss[k], es[k]) && ss[k + 1] == Apply(ss[k], es[k]);
    assert ss[k + 1].calls[id] == call;
    assert OvertakenAt(es, ss, i, k, j, id);
  }

  /** A reschedule that answers well took effect, in any run, unless another call stored its key
      between its lookup and its transaction; then nothing changed at all. */
  lemma RescheduleTookEffect(es: seq<Step>, ss: seq<State>, j: nat, id: nat)
    requires IsRun(es, ss) && j < |es| && es[j].Commit? && es[j].id == id
    requires ss[j].calls[id].req.RescheduleRequest?
    requires ss[j + 1].calls[id].state.Finished? && ss[j + 1].calls[id].state.result.Ok?
    ensures var call := ss[j].calls[id];
            var booking := call.req.bookingId;
            if KeyTaken(ss[j].db, call.req, call.key) then ss[j + 1].db == ss[j].db
            else
              && |ss[j + 1].db.history| == |ss[j].db.history| + 1
              && booking in ss[j + 1].db.bookings && ss[j + 1].db.bookings[booking].span.start == call.req.startAt
              && ss[j + 1].calls[id].state.result.value == ReplyOf(booking, ss[j + 1].db.bookings[booking])
    ensures KeyTaken(ss[j].db, ss[j].calls[id].req, ss[j].calls[id].key) <==> exists i, k :: OvertakenAt(es, ss, i, k, j, id)
  {
    var s, e := ss[j], es[j];
    assert Enabled(s, e) && ss[j + 1] == Apply(s, e);
    GuardsDecide(s.db, s.calls[id].req, s.calls[id].key, s.calls[id].actor, e.env);
    if KeyTaken(s.db, s.calls[id].req, s.calls[id].key) {
      OtherCallStored(es, ss, j, id);
    }
    if i: nat, k: nat :| OvertakenAt(es, ss, i, k, j, id) {
      var req, key := s.calls[id].req, s.calls[id].key;
      FirstAnswerStays(es, ss, k + 1, j, (req.businessId, key.value));
    }
  }

  function MoveTo(b: Booking, id: string, startAt: int): Request {
    RescheduleRequest(b.businessId, id, startAt)
  }

  lemma BothWait(db: Db, x: Request, y: Request, key: string, actor: Actor) returns (es: seq<Step>, ss: seq<State>)
    requires Init(State(db, map[])) && db.keys == map[]
    ensures es == [Start(0, x, Some(key), actor), Start(1, y, Some(key), actor), LookUp(0), LookUp(1)]
    ensures IsRun(es, ss) && ss[0].db == db
    ensures ss[4] == State(db, map[0 := CallInfo(x, Some(key), actor, Missed), 1 := CallInfo(y, Some(key), actor, Missed)])
  {
    var s0 := State(db, map[]);
    es, ss := Extend([], [s0], Start(0, x, Some(key), actor), Apply(s0, Start(0, x, Some(key), actor)));
    es, ss := Extend(es, ss, Start(1, y, Some(key), actor), Apply(ss[1], Start(1, y, Some(key), actor)));
    es, ss := Extend(es, ss, LookUp(0), Apply(ss[2], LookUp(0)));
    es, ss := Extend(es, ss, LookUp(1), Apply(ss[3], LookUp(1)));
  }

  /** Such a call: of two different reschedules under one key, both told they went through, the
      second leaves the booking where the first has put it. */
  lemma SecondRescheduleLost(id: string, b: Booking, key: string, actor: Actor, env: Env, first: int, second: int)
      returns (es: seq<Step>, ss: seq<State>)
    requires Active(b.status) && b.totalMinSnapshot.Some? && b.totalMinSnapshot.value > 0
    requires b.span == SpanFor(b.span.start, b.totalMinSnapshot.value)
    requires IsOperator(ActorRole(actor, env.membership)) && env.newId != id && first != second
    ensures var x, y := MoveTo(b, id, first), MoveTo(b, id, second);
            es == [Start(0, x, Some(key), actor), Start(1, y, Some(key), actor), LookUp(0), LookUp(1), Commit(0, env), Commit(1, env)]
    ensures IsRun(es, ss) && ss[0].db.bookings == map[id := b]
    ensures 1 in ss[6].calls && ss[6].calls[1].state == Finished(Ok(Response(id, b.status, Some(SpanFor(second, b.totalMinSnapshot.value)))))
    ensures id in ss[6].db.bookings && ss[6].db.bookings[id].span.start == first != second && |ss[6].db.history| == 1
  {
    var x, y := MoveTo(b, id, first), MoveTo(b, id, second);
    var db := Db(map[id := b], [], [], map[]);
    assert LengthsOk(db.bookings) && NoOverlap(db.bookings);
    es, ss := BothWait(db, x, y, key, actor);
    var s4 := ss[4];
    OnlyBookingMoves(s4.db, id, b, x, Some(key), actor, env);
    es, ss := Extend(es, ss, Commit(0, env), Apply(s4, Commit(0, env)));
    var s5 := ss[5];
    OnlyBookingMoves(s5.db, id, b.(span := SpanFor(first, b.totalMinSnapshot.value)), y, Some(key), actor, env);
    es, ss := Extend(es, ss, Commit(1, env), Apply(s5, Commit(1, env)));
  }

  lemma OnlyBookingMoves(db: Db, id: string, b: Booking, req: Request, key: Option<string>, actor: Actor, env: Env)
    requires db.bookings == map[id := b] && req.RescheduleRequest? && req.bookingId == id && req.businessId == b.businessId
    requires Active(b.status) && b.totalMinSnapshot.Some? && b.totalMinSnapshot.value > 0
    requires IsOperator(ActorRole(actor, env.membership)) && key.Some?
    ensures var after := b.(span := SpanFor(req.startAt, b.totalMinSnapshot.value));
            var (db', result) := RunTx(db, req, key, actor, env);
            && result == Ok(ReplyOf(id, after))
            && (if KeyTaken(db, req, key) then db' == db
                else db'.bookings == map[id := after] && |db'.history| == |db.history| + 1 && KeyTaken(db', req, key))
  {
    assert !Taken(db.bookings, id, b.staffId, SpanFor(req.startAt, b.totalMinSnapshot.value));
  }

  // ----- a call that nothing interleaves with

  lemma StepOn(es: seq<Step>, ss: seq<State>, e: Step) returns (es': seq<Step>, ss': seq<State>)
    requires Steps(es, ss) && Enabled(ss[|es|], e)
    ensures Steps(es', ss') && es' == es + [e] && ss' == ss + [Apply(ss[|es|], e)]
  {
    es', ss' := es + [e], ss + [Apply(ss[|es|], e)];
  }

  /** The service's methods and the steps of a run agree: a call that nothing interleaves with,
      from any state, ends in the tables and the answer that the methods promise. */
  lemma CalledAlone(s: State, id: nat, req: Request, key: Option<string>, actor: Actor, env: Env, saveFails: bool)
      returns (es: seq<Step>, ss: seq<State>)
    requires id !in s.calls && env.newId !in s.db.bookings
    ensures Steps(es, ss) && ss[0] == s && id in ss[|es|].calls
    ensures var (db', result) := Call(s.db, req, key, actor, env, saveFails);
            ss[|es|].db == db' && ss[|es|].calls[id].state == Finished(result)
  {
    es, ss := StepOn([], [s], Start(id, req, key, actor));
    es, ss := StepOn(es, ss, LookUp(id));
    if Lookup(s.db, req, key).None? {
      es, ss := StepOn(es, ss, Commit(id, env));
      if ss[|es|].calls[id].state.Committed? {
        es, ss := StepOn(es, ss, Save(id, !saveFails));
      }
    }
  }

  /** An answer given under a free key is stored there, with its request and its kind. */
  lemma KeyedAnswerIsStored(db: Db, req: Request, key: string, actor: Actor, env: Env, saveFails: bool)
    requires env.newId !in db.bookings && (req.businessId, key) !in db.keys
    ensures var (db', result) := Call(db, req, Some(key), actor, env, saveFails);
            var kind := if req.CreateRequest? then Create else if req.RescheduleRequest? then Reschedule
                        else if req.CancelRequest? then Cancel else Confirm;
            db'.keys == if result.Ok? then db.keys[(req.businessId, key) := StoredKey(kind, req, result.value)] else db.keys
  {
    var db' := RunTx(db, req, Some(key), actor, env).0;
    var _, _, _, _ := TxEffect(db, req, Some(key), actor, env);
  }

  /** Asked again under the key, whoever asks and whatever has become of roles, clock and
      catalogue: the same request gets the first answer, another one a conflict, and nothing
      changes. */
  lemma CalledAgain(db: Db, req: Request, key: string, actor: Actor, env: Env, saveFails: bool,
                    other: Request, actor': Actor, env': Env, saveFails': bool)
    requires env.newId !in db.bookings && (req.businessId, key) !in db.keys
    requires var (db', result) := Call(db, req, Some(key), actor, env, saveFails);
             result.Ok? && env'.newId !in db'.bookings && other.businessId == req.businessId
    ensures var (db', result) := Call(db, req, Some(key), actor, env, saveFails);
            Call(db', other, Some(key), actor', env', saveFails') == (db', if other == req then result else Err(KeyReused))
  {
    KeyedAnswerIsStored(db, req, key, actor, env, saveFails);
  }

  // ----- repeated creates

  ghost predicate BookedBy(es: seq<Step>, ss: seq<State>, j: nat, id: nat, req: Request)
    requires j < |es| < |ss|
  {
    CommittedAt(es, ss, j, id) && ss[j].calls[id].req == req
  }

  lemma {:induction false} BookingStays(es: seq<Step>, ss: seq<State>, i: nat, j: nat, booked: string)
    requires IsRun(es, ss) && i <= j < |ss| && booked in ss[i].db.bookings
    ensures booked in ss[j].db.bookings
    decreases j - i
  {
    if i < j {
      BookingStays(es, ss, i, j - 1, booked);
      var s, e := ss[j - 1], es[j - 1];
      assert Enabled(s, e) && ss[j] == Apply(s, e);
      if e.Commit? {
        var call := s.calls[e.id];
        var _, _, _, _ := TxEffect(s.db, call.req, call.key, call.actor, e.env);
      }
    }
  }

  ghost predicate ActiveAt(s: State, booked: string, staffId: string, startAt: int) {
    && booked in s.db.bookings && PendingOrConfirmed(s.db.bookings[booked].status)
    && s.db.bookings[booked].staffId == staffId && s.db.bookings[booked].span.start == startAt
  }

  lemma OneActiveAt(es: seq<Step>, ss: seq<State>, i: nat, a: string, b: string, staffId: string, startAt: int)
    requires IsRun(es, ss) && i < |ss| && a != b
    ensures !(ActiveAt(ss[i], a, staffId, startAt) && ActiveAt(ss[i], b, staffId, startAt))
  {
    RunKeepsRows(es, ss, i);
  }

  /** One create request carried out twice, by a repeated call, interleaved or after a crash,
      under one key or several: the two bookings are different, and never both active at the
      requested start. */
  lemma TwiceCreatedOnceActive(es: seq<Step>, ss: seq<State>, j: nat, k: nat, id: nat, again: nat, req: Request, i: nat)
    requires IsRun(es, ss) && j < k < |es| && i < |ss| && req.CreateRequest?
    requires BookedBy(es, ss, j, id, req) && BookedBy(es, ss, k, again, req)
    ensures es[j].env.newId != es[k].env.newId
    ensures !(ActiveAt(ss[i], es[j].env.newId, req.staffId, req.startAt)
              && ActiveAt(ss[i], es[k].env.newId, req.staffId, req.startAt))
    ensures !ActiveAt(ss[k], es[j].env.newId, req.staffId, req.startAt)
  {
    assert Enabled(ss[j], es[j]) && ss[j + 1] == Apply(ss[j], es[j]);
    assert Enabled(ss[k], es[k]) && ss[k + 1] == Apply(ss[k], es[k]);
    var booked := es[j].env.newId;
    BookingStays(es, ss, j + 1, k, booked);
    OneActiveAt(es, ss, i, booked, es[k].env.newId, req.staffId, req.startAt);
    if ActiveAt(ss[k], booked, req.staffId, req.startAt) {
      SameStartIsRefused(es, ss, k, booked);
      OnlyCommitsChange(es, ss, k);
    }
  }
}
