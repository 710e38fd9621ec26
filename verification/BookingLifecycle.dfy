/** Whole runs of booking calls. Each call looks its key up, runs its transaction and saves
    its key in separate steps, other calls run between them, and calls die anywhere. The
    environment of each transaction is arbitrary, so catalogue, roles and clock may change
    in any way from one to the next. */
module BookingLifecycle {
  import opened Wrappers
  import opened Bookings

  datatype CallState =
    | Started
    | Missed                          // no stored answer
    | Committed(reply: Response)      // the key is saved next
    | Finished(result: Result<Response, Error>)
    | Dead

  datatype CallInfo = CallInfo(req: Request, key: Option<string>, actor: Actor, state: CallState)

  datatype State = State(db: Db, calls: map<nat, CallInfo>)

  datatype Step =
    | Start(id: nat, req: Request, key: Option<string>, actor: Actor)
    | LookUp(id: nat)
    | Commit(id: nat, env: Env)
    | Save(id: nat, ok: bool)
    | Crash(id: nat)

  ghost predicate Enabled(s: State, e: Step) {
    match e
    case Start(id, _, _, _) => id !in s.calls
    case LookUp(id) => id in s.calls && s.calls[id].state.Started?
    case Commit(id, env) => id in s.calls && s.calls[id].state.Missed? && env.newId !in s.db.bookings
    case Save(id, _) => id in s.calls && s.calls[id].state.Committed?
    case Crash(id) => id in s.calls
  }

  ghost function At(s: State, id: nat, state: CallState): State
    requires id in s.calls
  {
    s.(calls := s.calls[id := s.calls[id].(state := state)])
  }

  ghost function Apply(s: State, e: Step): State
    requires Enabled(s, e)
  {
    match e
    case Start(id, req, key, actor) => s.(calls := s.calls[id := CallInfo(req, key, actor, Started)])
    case LookUp(id) =>
      var call := s.calls[id];
      var found := Lookup(s.db, call.req, call.key);
      At(s, id, if found.Some? then Finished(found.value) else Missed)
    case Commit(id, env) =>
      var call := s.calls[id];
      var (db, result) := RunTx(s.db, call.req, call.key, call.actor, env);
      var next := if result.Err? || call.req.RescheduleRequest? || call.key.None? then Finished(result)
                  else Committed(result.value);
      At(s.(db := db), id, next)
    case Save(id, ok) =>
      var call := s.calls[id];
      if ok then At(s.(db := SaveKey(s.db, call.req, call.key, call.state.reply)), id, Finished(Ok(call.state.reply)))
      else At(s, id, Finished(Err(if call.req.CreateRequest? then CreateFailed else SaveFailed)))
    case Crash(id) => At(s, id, Dead)
  }

  /** The tables may start out with bookings that predate history, events and snapshots. */
  ghost predicate Init(s: State) {
    s.calls == map[] && s.db.history == [] && s.db.events == [] && LengthsOk(s.db.bookings) && NoOverlap(s.db.bookings)
  }

  ghost predicate Steps(es: seq<Step>, ss: seq<State>) {
    && |ss| == |es| + 1
    && forall i {:trigger es[i]} | 0 <= i < |es| :: Enabled(ss[i], es[i]) && ss[i + 1] == Apply(ss[i], es[i])
  }

  ghost predicate IsRun(es: seq<Step>, ss: seq<State>) {
    Steps(es, ss) && Init(ss[0])
  }

  // ----- what one transaction can do

  predicate SameTables(db: Db, db': Db) {
    db'.bookings == db.bookings && db'.history == db.history && db'.events == db.events
  }

  ghost predicate Inserted(db: Db, db': Db, id: string, b: Booking, userId: string, role: Role) {
    && id !in db.bookings && b.status.Pending? && b.totalMinSnapshot.Some?
    && b.span == SpanFor(b.span.start, b.totalMinSnapshot.value) && b.span.start < b.span.end
    && !Taken(db.bookings, id, b.staffId, b.span)
    && db'.bookings == db.bookings[id := b]
    && db'.history == db.history + [HistoryRow(id, Create, Pending, None, b.span, userId, role)]
    && db'.events == db.events + InsertEvents(id, b)
  }

  ghost predicate AllowedChange(bookings: map<string, Booking>, id: string, after: Booking, action: Action)
    requires id in bookings
  {
    var before := bookings[id];
    match action
    case Create => false
    case Reschedule =>
      && Active(before.status) && after == before.(span := after.span) && after.span.start < after.span.end
      && (before.totalMinSnapshot.Some? ==> after.span == SpanFor(after.span.start, before.totalMinSnapshot.value))
      && !Taken(bookings, id, before.staffId, after.span)
    case Confirm => before.status.Pending? && after == before.(status := Confirmed)
    case Cancel => Active(before.status) && after == before.(status := Cancelled)
  }

  ghost predicate Replaced(db: Db, db': Db, id: string, after: Booking, action: Action, userId: string, role: Role) {
    && id in db.bookings && AllowedChange(db.bookings, id, after, action)
    && db'.bookings == db.bookings[id := after]
    && db'.history == db.history + [HistoryRow(id, action, after.status, Some(db.bookings[id].span), after.span, userId, role)]
    && db'.events == db.events + UpdateEvents(id, db.bookings[id], after)
  }

  lemma TxEffect(db: Db, req: Request, key: Option<string>, actor: Actor, env: Env)
      returns (id: string, after: Booking, action: Action, role: Role)
    requires env.newId !in db.bookings
    ensures var db' := RunTx(db, req, key, actor, env).0;
            SameTables(db, db') || Inserted(db, db', id, after, actor.userId, role)
            || Replaced(db, db', id, after, action, actor.userId, role)
    // the row, the action and the role are those of the request and its caller
    ensures id == (if req.CreateRequest? then env.newId else req.bookingId)
    ensures action == (if req.CreateRequest? then Create else if req.RescheduleRequest? then Reschedule
                       else if req.CancelRequest? then Cancel else Confirm)
    ensures role == if !req.CreateRequest? && env.membership.Some? && env.membership.value != Customer
                    then env.membership.value else actor.role
    ensures req.CreateRequest? && !SameTables(db, RunTx(db, req, key, actor, env).0) ==>
              && env.totalMin.Some?
              && after == Booking(req.businessId, req.customerId, req.staffId, req.serviceId,
                                  Interval(req.startAt, req.startAt + env.totalMin.value * 60_000), Pending, env.totalMin)
    ensures req.RescheduleRequest? && !SameTables(db, RunTx(db, req, key, actor, env).0) ==> after.span.start == req.startAt
    // a transaction that fails leaves everything as it was
    ensures RunTx(db, req, key, actor, env).1.Err? ==> RunTx(db, req, key, actor, env).0 == db
    // and no stored key is ever overwritten
    ensures forall k | k in db.keys :: k in RunTx(db, req, key, actor, env).0.keys && RunTx(db, req, key, actor, env).0.keys[k] == db.keys[k]
  {
    action := ActionOf(req);
    role := if action.Create? then actor.role else ActorRole(actor, env.membership);
    id := if action.Create? then env.newId else req.bookingId;
    var db' := RunTx(db, req, key, actor, env).0;
    after := if id in db'.bookings then db'.bookings[id]
             else Booking("", "", "", "", Interval(0, 0), Pending, None);
  }

  // ----- rows

  lemma InsertKeepsRows(db: Db, db': Db, id: string, b: Booking, userId: string, role: Role)
    requires Inserted(db, db', id, b, userId, role) && LengthsOk(db.bookings) && NoOverlap(db.bookings)
    ensures LengthsOk(db'.bookings) && NoOverlap(db'.bookings)
  {
  }

  lemma ReplaceKeepsRows(db: Db, db': Db, id: string, after: Booking, action: Action, userId: string, role: Role)
    requires Replaced(db, db', id, after, action, userId, role) && LengthsOk(db.bookings) && NoOverlap(db.bookings)
    ensures LengthsOk(db'.bookings) && NoOverlap(db'.bookings)
  {
  }

  lemma TxKeepsRows(db: Db, req: Request, key: Option<string>, actor: Actor, env: Env)
    requires env.newId !in db.bookings && LengthsOk(db.bookings) && NoOverlap(db.bookings)
    ensures var db' := RunTx(db, req, key, actor, env).0; LengthsOk(db'.bookings) && NoOverlap(db'.bookings)
  {
    var db' := RunTx(db, req, key, actor, env).0;
    var id, after, action, role := TxEffect(db, req, key, actor, env);
    if Inserted(db, db', id, after, actor.userId, role) {
      InsertKeepsRows(db, db', id, after, actor.userId, role);
    } else if Replaced(db, db', id, after, action, actor.userId, role) {
      ReplaceKeepsRows(db, db', id, after, action, actor.userId, role);
    }
  }

  lemma {:induction false} RunKeepsRows(es: seq<Step>, ss: seq<State>, i: nat)
    requires IsRun(es, ss) && i < |ss|
    ensures LengthsOk(ss[i].db.bookings) && NoOverlap(ss[i].db.bookings)
    decreases i
  {
    if i > 0 {
      RunKeepsRows(es, ss, i - 1);
      var s, e := ss[i - 1], es[i - 1];
      assert Enabled(s, e) && ss[i] == Apply(s, e);
      if e.Commit? {
        var call := s.calls[e.id];
        TxKeepsRows(s.db, call.req, call.key, call.actor, e.env);
      }
    }
  }

  predicate PendingOrConfirmed(status: Status) {
    status == Pending || status == Confirmed
  }

  /** No double booking: a staff member has at most one active booking at any instant, and
      in particular at most one that starts at a given instant. */
  lemma NoDoubleBooking(es: seq<Step>, ss: seq<State>, i: nat, a: string, b: string, t: int)
    requires IsRun(es, ss) && i < |ss|
    requires a in ss[i].db.bookings && b in ss[i].db.bookings
    requires var bs := ss[i].db.bookings;
             && PendingOrConfirmed(bs[a].status) && PendingOrConfirmed(bs[b].status) && bs[a].staffId == bs[b].staffId
             && bs[a].span.start <= t < bs[a].span.end && bs[b].span.start <= t < bs[b].span.end
    ensures a == b
  {
    RunKeepsRows(es, ss, i);
    assert Overlap(ss[i].db.bookings[a].span, ss[i].db.bookings[b].span);
  }

  /** A second create for a staff member and start that an active booking already has is
      refused and changes nothing, whatever the selection's length has become. */
  lemma SameStartIsRefused(es: seq<Step>, ss: seq<State>, i: nat, booked: string)
    requires IsRun(es, ss) && i < |es| && es[i].Commit? && booked in ss[i].db.bookings
    requires var b := ss[i].db.bookings[booked]; var req := ss[i].calls[es[i].id].req;
             req.CreateRequest? && Active(b.status) && b.staffId == req.staffId && b.span.start == req.startAt
    ensures ss[i + 1].db == ss[i].db
    ensures ss[i + 1].calls[es[i].id].state.Finished? && ss[i + 1].calls[es[i].id].state.result.Err?
  {
    RunKeepsRows(es, ss, i);
  }

  // ----- idempotency keys

  lemma StepKeepsKeys(s: State, e: Step, k: (string, string))
    requires Enabled(s, e) && k in s.db.keys
    ensures k in Apply(s, e).db.keys && Apply(s, e).db.keys[k] == s.db.keys[k]
  {
    if e.Commit? {
      var call := s.calls[e.id];
      var _, _, _, _ := TxEffect(s.db, call.req, call.key, call.actor, e.env);
    }
  }

  /** The first answer stored under a key is the only one it ever has. */
  lemma {:induction false} FirstAnswerStays(es: seq<Step>, ss: seq<State>, i: nat, j: nat, k: (string, string))
    requires IsRun(es, ss) && i <= j < |ss| && k in ss[i].db.keys
    ensures k in ss[j].db.keys && ss[j].db.keys[k] == ss[i].db.keys[k]
    decreases j - i
  {
    if i < j {
      FirstAnswerStays(es, ss, i, j - 1, k);
      StepKeepsKeys(ss[j - 1], es[j - 1], k);
    }
  }

  /** A call that comes after a key was stored gets the stored answer if it asks the same,
      a conflict if it asks anything else, and changes nothing either way. */
  lemma ReplayAnswersFromStore(es: seq<Step>, ss: seq<State>, i: nat, j: nat, id: nat)
    requires IsRun(es, ss) && i <= j < |es| && es[j] == LookUp(id)
    requires var call := ss[j].calls[id]; call.key.Some? && (call.req.businessId, call.key.value) in ss[i].db.keys
    ensures ss[j + 1].db == ss[j].db
    ensures var call := ss[j].calls[id];
            var stored := ss[i].db.keys[(call.req.businessId, call.key.value)];
            ss[j + 1].calls[id].state == Finished(if stored.request == call.req then Ok(stored.response) else Err(KeyReused))
  {
    var call := ss[j].calls[id];
    FirstAnswerStays(es, ss, i, j, (call.req.businessId, call.key.value));
  }

  /** A call whose own save went through is answered by every later identical call. */
  lemma SavedCallIsReplayed(es: seq<Step>, ss: seq<State>, i: nat, j: nat, id: nat, again: nat)
    requires IsRun(es, ss) && i < j < |es| && es[i] == Save(id, true) && es[j] == LookUp(again)
    requires ss[i].calls[id].key.Some?
    requires (ss[i].calls[id].req.businessId, ss[i].calls[id].key.value) !in ss[i].db.keys
    requires ss[j].calls[again].req == ss[i].calls[id].req && ss[j].calls[again].key == ss[i].calls[id].key
    ensures ss[j + 1].calls[again].state == ss[i + 1].calls[id].state == Finished(Ok(ss[i].calls[id].state.reply))
    ensures ss[j + 1].db == ss[j].db
  {
    assert ss[i + 1] == Apply(ss[i], es[i]);
    ReplayAnswersFromStore(es, ss, i + 1, j, again);
  }
}

/** The audit trail: a booking's history rows, replayed, give its present status and times,
    and its outbox events are those rows less the reschedules that moved nothing. */
module BookingAudit {
  import opened Wrappers
  import opened Bookings
  import opened BookingLifecycle

  datatype View = View(status: Status, span: Interval)

  function ViewOf(bookings: map<string, Booking>, id: string): Option<View> {
    if id in bookings then Some(View(bookings[id].status, bookings[id].span)) else None
  }

  function RowsOf(history: seq<HistoryRow>, id: string): seq<HistoryRow> {
    if history == [] then []
    else
      var last := history[|history| - 1];
      RowsOf(history[..|history| - 1], id) + if last.bookingId == id then [last] else []
  }

  function EventsFor(events: seq<Event>, id: string): seq<Event> {
    if events == [] then []
    else
      var last := events[|events| - 1];
      EventsFor(events[..|events| - 1], id) + if last.bookingId == id then [last] else []
  }

  /** A row continues from where the booking stood. */
  predicate Continues(v: Option<View>, row: HistoryRow) {
    match row.action
    case Create => v.None? && row.from.None? && row.status.Pending?
    case Reschedule =>
      v.Some? && Active(v.value.status) && row.from == Some(v.value.span) && row.status == v.value.status
    case Confirm =>
      v.Some? && v.value.status.Pending? && row.from == Some(v.value.span) && row.to == v.value.span && row.status.Confirmed?
    case Cancel =>
      v.Some? && Active(v.value.status) && row.from == Some(v.value.span) && row.to == v.value.span && row.status.Cancelled?
  }

  /** What the action of a row does to the booking; its status column is not used. */
  function Act(v: Option<View>, row: HistoryRow): Option<View> {
    match row.action
    case Create => Some(View(Pending, row.to))
    case Reschedule => if v.Some? then Some(View(v.value.status, row.to)) else None
    case Confirm => if v.Some? then Some(View(Confirmed, v.value.span)) else None
    case Cancel => if v.Some? then Some(View(Cancelled, v.value.span)) else None
  }

  function Replay(v: Option<View>, rows: seq<HistoryRow>): Option<View> {
    if rows == [] then v else Act(Replay(v, rows[..|rows| - 1]), rows[|rows| - 1])
  }

  predicate Chained(v: Option<View>, rows: seq<HistoryRow>) {
    rows == []
    || (Chained(v, rows[..|rows| - 1]) && Continues(Replay(v, rows[..|rows| - 1]), rows[|rows| - 1]))
  }

  /** The event a row stands for, given where the booking stood before it. */
  function EventOfRow(v: Option<View>, row: HistoryRow): seq<Event> {
    var previous := if v.Some? then Some(v.value.status) else None;
    match row.action
    case Create => [Event(row.bookingId, Created, row.status, row.to, None, None)]
    case Reschedule =>
      if row.from == Some(row.to) then []
      else [Event(row.bookingId, Rescheduled, row.status, row.to, row.from, None)]
    case Confirm => [Event(row.bookingId, WasConfirmed, row.status, row.to, None, previous)]
    case Cancel => [Event(row.bookingId, WasCancelled, row.status, row.to, None, previous)]
  }

  function EventsOfRows(v: Option<View>, rows: seq<HistoryRow>): seq<Event> {
    if rows == [] then []
    else EventsOfRows(v, rows[..|rows| - 1]) + EventOfRow(Replay(v, rows[..|rows| - 1]), rows[|rows| - 1])
  }

  ghost predicate Audited(start: map<string, Booking>, db: Db, id: string) {
    var v, rows := ViewOf(start, id), RowsOf(db.history, id);
    && Chained(v, rows)
    && Replay(v, rows) == ViewOf(db.bookings, id)
    && EventsFor(db.events, id) == EventsOfRows(v, rows)
  }

  lemma RowAppended(history: seq<HistoryRow>, row: HistoryRow, id: string)
    ensures RowsOf(history + [row], id) == RowsOf(history, id) + if row.bookingId == id then [row] else []
  {
    assert (history + [row])[..|history|] == history;
  }

  lemma EventsAppended(events: seq<Event>, more: seq<Event>, id: string)
    requires |more| <= 1
    ensures EventsFor(events + more, id) == EventsFor(events, id) + if |more| == 1 && more[0].bookingId == id then more else []
  {
    if |more| == 1 {
      assert (events + more)[..|events|] == events;
    } else {
      assert events + more == events;
    }
  }

  lemma OneMoreRow(v: Option<View>, rows: seq<HistoryRow>, row: HistoryRow)
    ensures Replay(v, rows + [row]) == Act(Replay(v, rows), row)
    ensures Chained(v, rows + [row]) <==> Chained(v, rows) && Continues(Replay(v, rows), row)
    ensures EventsOfRows(v, rows + [row]) == EventsOfRows(v, rows) + EventOfRow(Replay(v, rows), row)
  {
    assert (rows + [row])[..|rows|] == rows;
  }

  /** A change that writes one history row, and the events that row stands for, keeps the
      trail of the booking it is about and leaves every other trail alone. */
  lemma TrailStep(start: map<string, Booking>, db: Db, db': Db, row: HistoryRow, events: seq<Event>, id: string)
    requires Audited(start, db, id) && |events| <= 1
    requires db'.history == db.history + [row] && db'.events == db.events + events
    requires |events| == 1 ==> events[0].bookingId == row.bookingId
    requires id != row.bookingId ==> ViewOf(db'.bookings, id) == ViewOf(db.bookings, id)
    requires id == row.bookingId ==>
               var v := ViewOf(db.bookings, id);
               Continues(v, row) && Act(v, row) == ViewOf(db'.bookings, id) && events == EventOfRow(v, row)
    ensures Audited(start, db', id)
  {
    var v, rows := ViewOf(start, id), RowsOf(db.history, id);
    RowAppended(db.history, row, id);
    EventsAppended(db.events, events, id);
    if id == row.bookingId {
      OneMoreRow(v, rows, row);
      assert |events| == 0 ==> EventsFor(db.events, id) + [] == EventsFor(db.events, id) + events;
    } else {
      assert rows + [] == rows && EventsFor(db.events, id) + [] == EventsFor(db.events, id);
    }
  }

  lemma InsertKeepsTrail(start: map<string, Booking>, db: Db, db': Db, id: string, b: Booking, userId: string, role: Role, any: string)
    requires Inserted(db, db', id, b, userId, role) && Audited(start, db, any)
    ensures Audited(start, db', any)
  {
    TrailStep(start, db, db', HistoryRow(id, Create, Pending, None, b.span, userId, role), InsertEvents(id, b), any);
  }

  lemma ReplaceKeepsTrail(start: map<string, Booking>, db: Db, db': Db, id: string, after: Booking, action: Action,
                          userId: string, role: Role, any: string)
    requires Replaced(db, db', id, after, action, userId, role) && Audited(start, db, any)
    ensures Audited(start, db', any)
  {
    var before := db.bookings[id];
    var row := HistoryRow(id, action, after.status, Some(before.span), after.span, userId, role);
    var events := UpdateEvents(id, before, after);
    assert events == EventOfRow(ViewOf(db.bookings, id), row);
    TrailStep(start, db, db', row, events, any);
  }

  lemma {:induction false} RunKeepsTrail(es: seq<Step>, ss: seq<State>, i: nat, id: string)
    requires IsRun(es, ss) && i < |ss|
    ensures Audited(ss[0].db.bookings, ss[i].db, id)
    decreases i
  {
    if i > 0 {
      RunKeepsTrail(es, ss, i - 1, id);
      NextTrail(es, ss, i, id);
    }
  }

  lemma NextTrail(es: seq<Step>, ss: seq<State>, i: nat, id: string)
    requires IsRun(es, ss) && 0 < i < |ss| && Audited(ss[0].db.bookings, ss[i - 1].db, id)
    ensures Audited(ss[0].db.bookings, ss[i].db, id)
  {
    var s, e, s' := ss[i - 1], es[i - 1], ss[i];
    assert Enabled(s, e) && s' == Apply(s, e);
    if e.Commit? {
      var call := s.calls[e.id];
      var b, after, action, role := TxEffect(s.db, call.req, call.key, call.actor, e.env);
      if Inserted(s.db, s'.db, b, after, call.actor.userId, role) {
        InsertKeepsTrail(ss[0].db.bookings, s.db, s'.db, b, after, call.actor.userId, role, id);
      } else if Replaced(s.db, s'.db, b, after, action, call.actor.userId, role) {
        ReplaceKeepsTrail(ss[0].db.bookings, s.db, s'.db, b, after, action, call.actor.userId, role, id);
      }
    }
  }

  lemma {:induction false} PrefixChained(v: Option<View>, rows: seq<HistoryRow>, k: nat)
    requires Chained(v, rows) && k <= |rows|
    ensures Chained(v, rows[..k])
    ensures k < |rows| ==> Continues(Replay(v, rows[..k]), rows[k])
    decreases |rows| - k
  {
    if k < |rows| {
      PrefixChained(v, rows, k + 1);
      assert rows[..k + 1][..k] == rows[..k];
    } else {
      assert rows[..k] == rows;
    }
  }

  /** Once a booking is confirmed or cancelled it stays confirmed or cancelled; once it is
      cancelled nothing more happens to it. */
  lemma {:induction false} StatusNeverGoesBack(v: Option<View>, rows: seq<HistoryRow>, i: nat, k: nat)
    requires Chained(v, rows) && i < k <= |rows| && (rows[i].action.Confirm? || rows[i].action.Cancel?)
    ensures Replay(v, rows[..k]).Some?
    ensures Replay(v, rows[..k]).value.status.Confirmed? || Replay(v, rows[..k]).value.status.Cancelled?
    ensures rows[i].action.Cancel? ==> k == |rows| && i == k - 1
    decreases k
  {
    PrefixChained(v, rows, k - 1);
    assert rows[..k][..k - 1] == rows[..k - 1];
    if i < k - 1 {
      StatusNeverGoesBack(v, rows, i, k - 1);
    } else if rows[i].action.Cancel? && k < |rows| {
      PrefixChained(v, rows, k);
    }
  }

  /** The audit trail of any booking in any run: its rows chain from where it started,
      replaying them gives its present status and times, the trigger's events are those
      rows less the reschedules that moved nothing, there is at most one confirmation, and
      a cancellation is the last thing that happens. */
  lemma TrailTellsAll(es: seq<Step>, ss: seq<State>, i: nat, id: string)
    requires IsRun(es, ss) && i < |ss|
    ensures var v, rows := ViewOf(ss[0].db.bookings, id), RowsOf(ss[i].db.history, id);
            && Chained(v, rows)
            && Replay(v, rows) == ViewOf(ss[i].db.bookings, id)
            && EventsFor(ss[i].db.events, id) == EventsOfRows(v, rows)
            && (forall j, k | 0 <= j < k < |rows| && rows[j].action.Confirm? :: !rows[k].action.Confirm?)
            && (forall j | 0 <= j < |rows| && rows[j].action.Cancel? :: j == |rows| - 1)
  {
    RunKeepsTrail(es, ss, i, id);
    var v, rows := ViewOf(ss[0].db.bookings, id), RowsOf(ss[i].db.history, id);
    forall j, k | 0 <= j < k < |rows| && rows[j].action.Confirm? ensures !rows[k].action.Confirm? {
      StatusNeverGoesBack(v, rows, j, k);
      PrefixChained(v, rows, k);
    }
    forall j | 0 <= j < |rows| && rows[j].action.Cancel? ensures j == |rows| - 1 {
      StatusNeverGoesBack(v, rows, j, j + 1);
    }
  }
}
