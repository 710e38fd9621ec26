/** Bookings: rows under an exclusion constraint, an audit history, the outbox events a
    trigger writes, and idempotency keys. The functions give each transaction's meaning;
    BookingsService runs them over its tables. Instants are in milliseconds. */
module Bookings {
  import opened Wrappers

  datatype Status = Pending | Confirmed | Cancelled | Completed | NoShow

  datatype Role = Owner | Admin | Staff | Customer

  datatype Interval = Interval(start: int, end: int)

  datatype Booking = Booking(businessId: string, customerId: string, staffId: string, serviceId: string,
                             span: Interval, status: Status, totalMinSnapshot: Option<int>)

  datatype Action = Create | Reschedule | Confirm | Cancel

  datatype HistoryRow = HistoryRow(bookingId: string, action: Action, status: Status, from: Option<Interval>, to: Interval,
                                   actorUserId: string, actorRole: Role)

  datatype EventKind = Created | Rescheduled | WasConfirmed | WasCancelled

  /** `oldSpan` and `previousStatus` are set where the trigger's payload carries them. */
  datatype Event = Event(bookingId: string, kind: EventKind, status: Status, span: Interval,
                         oldSpan: Option<Interval>, previousStatus: Option<Status>)

  /** What a request hash is made of. */
  datatype Request =
    | CreateRequest(businessId: string, customerId: string, staffId: string, serviceId: string, variantId: Option<string>,
                    addonIds: seq<string>, startAt: int, notes: Option<string>, locationId: Option<string>)
    | RescheduleRequest(businessId: string, bookingId: string, startAt: int)
    | CancelRequest(businessId: string, bookingId: string)
    | ConfirmRequest(businessId: string, bookingId: string)

  datatype Response = Response(bookingId: string, status: Status, span: Option<Interval>)

  datatype StoredKey = StoredKey(action: Action, request: Request, response: Response)

  datatype Error =
    | KeyReused | SlotNotAvailable | CreateFailed | RescheduleFailed | NotFound | NotAllowed | WindowPassed
    | NotCancelable | NotConfirmable | ProfileUnresolved | SaveFailed

  datatype Db = Db(bookings: map<string, Booking>, history: seq<HistoryRow>, events: seq<Event>,
                   keys: map<(string, string), StoredKey>)

  datatype Actor = Actor(userId: string, role: Role)

  /** What a transaction reads besides the tables: the clock, the actor's membership, the
      notice setting, the resolved selection (create), the service's present length (for
      bookings without a snapshot), whether foreign keys hold, and the id of a new row. */
  datatype Env = Env(now: int, membership: Option<Role>, noticeMin: nat, totalMin: Option<int>, legacyMin: Option<int>,
                     referencesOk: bool, newId: string)

  predicate Active(status: Status) {
    status.Pending? || status.Confirmed?
  }

  predicate IsOperator(role: Role) {
    role.Owner? || role.Admin? || role.Staff?
  }

  function ActorRole(actor: Actor, membership: Option<Role>): Role {
    if membership.Some? && IsOperator(membership.value) then membership.value else actor.role
  }

  /** Half-open ranges. */
  predicate Overlap(a: Interval, b: Interval) {
    a.start < b.end && b.start < a.end
  }

  /** Some other active booking of the staff member is in the way. */
  predicate Taken(bookings: map<string, Booking>, id: string, staffId: string, span: Interval) {
    exists other :: other in bookings && other != id && Active(bookings[other].status)
                    && bookings[other].staffId == staffId && Overlap(bookings[other].span, span)
  }

  /** Every row has a positive length, equal to its snapshot where it has one. */
  ghost predicate LengthsOk(bookings: map<string, Booking>) {
    forall id | id in bookings ::
      var b := bookings[id];
      && b.span.start < b.span.end
      && (b.totalMinSnapshot.Some? ==> b.span.end - b.span.start == b.totalMinSnapshot.value * 60_000)
  }

  /** No two active bookings of one staff member overlap. */
  ghost predicate NoOverlap(bookings: map<string, Booking>) {
    forall a, b | a in bookings && b in bookings && a != b && Active(bookings[a].status) && Active(bookings[b].status)
                  && bookings[a].staffId == bookings[b].staffId :: !Overlap(bookings[a].span, bookings[b].span)
  }

  function SpanFor(start: int, totalMin: int): Interval {
    Interval(start, start + totalMin * 60_000)
  }

  predicate NoticeOk(role: Role, startAt: int, now: int, noticeMin: nat) {
    IsOperator(role) || noticeMin == 0 || startAt - now >= noticeMin * 60_000
  }

  /** The trigger after an insert, and after an update of status or times. */
  function InsertEvents(id: string, b: Booking): seq<Event> {
    [Event(id, Created, b.status, b.span, None, None)]
  }

  function UpdateEvents(id: string, before: Booking, after: Booking): seq<Event> {
    (if after.span != before.span then [Event(id, Rescheduled, after.status, after.span, Some(before.span), None)] else [])
    + if after.status == before.status then []
      else if after.status.Confirmed? then [Event(id, WasConfirmed, after.status, after.span, None, Some(before.status))]
      else if after.status.Cancelled? then [Event(id, WasCancelled, after.status, after.span, None, Some(before.status))]
      else []
  }

  function ReplyOf(id: string, b: Booking): Response {
    Response(id, b.status, Some(b.span))
  }

  function CreateTx(db: Db, req: Request, actor: Actor, env: Env): (Db, Result<Response, Error>)
    requires req.CreateRequest? && env.newId !in db.bookings
  {
    if env.totalMin.None? then (db, Err(ProfileUnresolved)) else
    var span := SpanFor(req.startAt, env.totalMin.value);
    var b := Booking(req.businessId, req.customerId, req.staffId, req.serviceId, span, Pending, env.totalMin);
    if span.start >= span.end then (db, Err(CreateFailed))
    else if Taken(db.bookings, env.newId, b.staffId, span) then (db, Err(SlotNotAvailable))
    else if !env.referencesOk then (db, Err(CreateFailed))
    else
      (db.(bookings := db.bookings[env.newId := b],
           events := db.events + InsertEvents(env.newId, b),
           history := db.history + [HistoryRow(env.newId, Create, Pending, None, span, actor.userId, actor.role)]),
       Ok(ReplyOf(env.newId, b)))
  }

  /** Replaces an existing row, with its trigger events and its history row. */
  function Updated(db: Db, id: string, after: Booking, action: Action, userId: string, role: Role): Db
    requires id in db.bookings
  {
    var before := db.bookings[id];
    db.(bookings := db.bookings[id := after],
        events := db.events + UpdateEvents(id, before, after),
        history := db.history + [HistoryRow(id, action, after.status, Some(before.span), after.span, userId, role)])
  }

  /** The key is written inside the transaction; when another call has stored it in the
      meantime, the transaction is lost although the caller is told it went through. */
  function RescheduleTx(db: Db, req: Request, key: Option<string>, actor: Actor, env: Env): (Db, Result<Response, Error>)
    requires req.RescheduleRequest?
  {
    if req.bookingId !in db.bookings || db.bookings[req.bookingId].businessId != req.businessId
       || !Active(db.bookings[req.bookingId].status) then (db, Err(NotFound)) else
    var b := db.bookings[req.bookingId];
    var role := ActorRole(actor, env.membership);
    if !IsOperator(role) && b.customerId != actor.userId then (db, Err(NotAllowed))
    else if !NoticeOk(role, b.span.start, env.now, env.noticeMin) then (db, Err(WindowPassed)) else
    var total := if b.totalMinSnapshot.Some? then b.totalMinSnapshot else env.legacyMin;
    if total.None? then (db, Err(NotFound)) else
    var span := SpanFor(req.startAt, total.value);
    if span.start >= span.end then (db, Err(RescheduleFailed))
    else if Taken(db.bookings, req.bookingId, b.staffId, span) then (db, Err(SlotNotAvailable)) else
    var after := b.(span := span);
    var reply := ReplyOf(req.bookingId, after);
    var db' := Updated(db, req.bookingId, after, Reschedule, actor.userId, role);
    if key.None? then (db', Ok(reply))
    else if (req.businessId, key.value) in db.keys then (db, Ok(reply))
    else (db'.(keys := db.keys[(req.businessId, key.value) := StoredKey(Reschedule, req, reply)]), Ok(reply))
  }

  function CancelTx(db: Db, req: Request, actor: Actor, env: Env): (Db, Result<Response, Error>)
    requires req.CancelRequest?
  {
    if req.bookingId !in db.bookings || db.bookings[req.bookingId].businessId != req.businessId then (db, Err(NotFound)) else
    var b := db.bookings[req.bookingId];
    var role := ActorRole(actor, env.membership);
    if !IsOperator(role) && b.customerId != actor.userId then (db, Err(NotAllowed))
    else if b.status.Cancelled? then (db, Ok(Response(req.bookingId, Cancelled, None)))
    else if !Active(b.status) then (db, Err(NotCancelable))
    else if !NoticeOk(role, b.span.start, env.now, env.noticeMin) then (db, Err(WindowPassed)) else
    var after := b.(status := Cancelled);
    (Updated(db, req.bookingId, after, Cancel, actor.userId, role), Ok(ReplyOf(req.bookingId, after)))
  }

  function ConfirmTx(db: Db, req: Request, actor: Actor, env: Env): (Db, Result<Response, Error>)
    requires req.ConfirmRequest?
  {
    if req.bookingId !in db.bookings || db.bookings[req.bookingId].businessId != req.businessId then (db, Err(NotFound)) else
    var b := db.bookings[req.bookingId];
    var role := ActorRole(actor, env.membership);
    if !IsOperator(role) then (db, Err(NotAllowed))
    else if b.status.Confirmed? then (db, Ok(Response(req.bookingId, Confirmed, None)))
    else if !b.status.Pending? then (db, Err(NotConfirmable)) else
    var after := b.(status := Confirmed);
    (Updated(db, req.bookingId, after, Confirm, actor.userId, role), Ok(ReplyOf(req.bookingId, after)))
  }

  function RunTx(db: Db, req: Request, key: Option<string>, actor: Actor, env: Env): (Db, Result<Response, Error>)
    requires req.CreateRequest? ==> env.newId !in db.bookings
  {
    match req
    case CreateRequest(_, _, _, _, _, _, _, _, _) => CreateTx(db, req, actor, env)
    case RescheduleRequest(_, _, _) => RescheduleTx(db, req, key, actor, env)
    case CancelRequest(_, _) => CancelTx(db, req, actor, env)
    case ConfirmRequest(_, _) => ConfirmTx(db, req, actor, env)
  }

  function ActionOf(req: Request): Action {
    match req
    case CreateRequest(_, _, _, _, _, _, _, _, _) => Create
    case RescheduleRequest(_, _, _) => Reschedule
    case CancelRequest(_, _) => Cancel
    case ConfirmRequest(_, _) => Confirm
  }

  /** What the key lookup answers before anything else runs. */
  function Lookup(db: Db, req: Request, key: Option<string>): Option<Result<Response, Error>> {
    if key.None? || (req.businessId, key.value) !in db.keys then None
    else if db.keys[(req.businessId, key.value)].request != req then Some(Err(KeyReused))
    else Some(Ok(db.keys[(req.businessId, key.value)].response))
  }

  /** The upsert that leaves an existing key alone. */
  function SaveKey(db: Db, req: Request, key: Option<string>, reply: Response): Db {
    if key.None? || (req.businessId, key.value) in db.keys then db
    else db.(keys := db.keys[(req.businessId, key.value) := StoredKey(ActionOf(req), req, reply)])
  }

  /** A whole call that nothing interleaves with; saving the key may fail. */
  function Call(db: Db, req: Request, key: Option<string>, actor: Actor, env: Env, saveFails: bool): (Db, Result<Response, Error>)
    requires req.CreateRequest? ==> env.newId !in db.bookings
  {
    if Lookup(db, req, key).Some? then (db, Lookup(db, req, key).value) else
    var (db', result) := RunTx(db, req, key, actor, env);
    if result.Err? || req.RescheduleRequest? || key.None? then (db', result)
    else if saveFails then (db', Err(if req.CreateRequest? then CreateFailed else SaveFailed))
    else (SaveKey(db', req, key, result.value), result)
  }

  /** The service over its tables, when no other call interleaves. */
  class BookingsService {
    var bookings: map<string, Booking>
    var history: seq<HistoryRow>
    var events: seq<Event>
    var keys: map<(string, string), StoredKey>

    constructor (db: Db)
      ensures Tables() == db
    {
      bookings, history, events, keys := db.bookings, db.history, db.events, db.keys;
    }

    function Tables(): Db
      reads this
    {
      Db(bookings, history, events, keys)
    }

    method WriteBookingHistory(row: HistoryRow)
      modifies this`history
      ensures history == old(history) + [row]
    {
      history := history + [row];
    }

    method IdemGet(businessId: string, key: Option<string>) returns (stored: Option<StoredKey>)
      ensures stored == if key.Some? && (businessId, key.value) in keys then Some(keys[(businessId, key.value)]) else None
    {
      if key.None? || (businessId, key.value) !in keys {
        return None;
      }
      return Some(keys[(businessId, key.value)]);
    }

    method IdemSave(req: Request, key: string, reply: Response)
      modifies this`keys
      ensures Tables() == SaveKey(old(Tables()), req, Some(key), reply)
    {
      if (req.businessId, key) !in keys {
        keys := keys[(req.businessId, key) := StoredKey(ActionOf(req), req, reply)];
      }
    }

    /** The answer that is already stored, or the reason why the key cannot be used. */
    method CheckKey(req: Request, key: Option<string>) returns (answer: Option<Result<Response, Error>>)
      ensures answer == Lookup(Tables(), req, key)
    {
      var existing := IdemGet(req.businessId, key);
      if existing.None? {
        return None;
      }
      if existing.value.request != req {
        return Some(Err(KeyReused));
      }
      return Some(Ok(existing.value.response));
    }

    /** Writes a booking row under the constraints, and fires the trigger. */
    method Put(id: string, b: Booking) returns (violated: Option<Error>)
      modifies this`bookings, this`events
      ensures b.span.start >= b.span.end ==> violated == Some(CreateFailed)
      ensures b.span.start < b.span.end ==>
                (violated == Some(SlotNotAvailable) <==> Active(b.status) && Taken(old(bookings), id, b.staffId, b.span))
      ensures violated.None? || violated == Some(SlotNotAvailable) || violated == Some(CreateFailed)
      ensures violated == Some(CreateFailed) ==> b.span.start >= b.span.end
      ensures violated.Some? ==> bookings == old(bookings) && events == old(events)
      ensures violated.None? ==>
                && bookings == old(bookings)[id := b]
                && events == old(events) + (if id in old(bookings) then UpdateEvents(id, old(bookings)[id], b) else InsertEvents(id, b))
    {
      if b.span.start >= b.span.end {
        return Some(CreateFailed);
      }
      if Active(b.status) && Taken(bookings, id, b.staffId, b.span) {
        return Some(SlotNotAvailable);
      }
      if id !in bookings {
        events := events + [Event(id, Created, b.status, b.span, None, None)];
      } else {
        var before := bookings[id];
        var fired := [];
        if b.span != before.span {
          fired := [Event(id, Rescheduled, b.status, b.span, Some(before.span), None)];
        }
        if b.status != before.status {
          if b.status.Confirmed? {
            fired := fired + [Event(id, WasConfirmed, b.status, b.span, None, Some(before.status))];
          } else if b.status.Cancelled? {
            fired := fired + [Event(id, WasCancelled, b.status, b.span, None, Some(before.status))];
          }
        }
        events := events + fired;
      }
      bookings := bookings[id := b];
      return None;
    }

    method Create(req: Request, key: Option<string>, actor: Actor, env: Env, saveFails: bool) returns (r: Result<Response, Error>)
      requires req.CreateRequest? && env.newId !in bookings
      modifies this
      ensures (Tables(), r) == Call(old(Tables()), req, key, actor, env, saveFails)
    {
      var existing := CheckKey(req, key);
      if existing.Some? {
        return existing.value;
      }
      if env.totalMin.None? {
        return Err(ProfileUnresolved);
      }
      var start := req.startAt;
      var end := start + env.totalMin.value * 60_000;
      var created := Booking(req.businessId, req.customerId, req.staffId, req.serviceId, Interval(start, end), Pending, env.totalMin);
      if start < end && !Taken(bookings, env.newId, req.staffId, created.span) && !env.referencesOk {
        return Err(CreateFailed);
      }
      var violated := Put(env.newId, created);
      if violated.Some? {
        return Err(violated.value);
      }
      WriteBookingHistory(HistoryRow(env.newId, Action.Create, Pending, None, created.span, actor.userId, actor.role));
      var reply := ReplyOf(env.newId, created);
      if key.Some? {
        if saveFails {
          return Err(CreateFailed);
        }
        IdemSave(req, key.value, reply);
      }
      return Ok(reply);
    }

    method Reschedule(req: Request, key: Option<string>, actor: Actor, env: Env) returns (r: Result<Response, Error>)
      requires req.RescheduleRequest?
      modifies this
      ensures (Tables(), r) == Call(old(Tables()), req, key, actor, env, false)
    {
      var existing := CheckKey(req, key);
      if existing.Some? {
        return existing.value;
      }
      var id := req.bookingId;
      if id !in bookings || bookings[id].businessId != req.businessId || !Active(bookings[id].status) {
        return Err(NotFound);
      }
      var booking := bookings[id];
      var role := ActorRole(actor, env.membership);
      if !IsOperator(role) && booking.customerId != actor.userId {
        return Err(NotAllowed);
      }
      if !NoticeOk(role, booking.span.start, env.now, env.noticeMin) {
        return Err(WindowPassed);
      }
      var total := booking.totalMinSnapshot;
      if total.None? {
        total := env.legacyMin;
      }
      if total.None? {
        return Err(NotFound);
      }
      var updated := booking.(span := Interval(req.startAt, req.startAt + total.value * 60_000));
      var violated := Put(id, updated);
      if violated.Some? {
        return Err(if violated.value.SlotNotAvailable? then SlotNotAvailable else RescheduleFailed);
      }
      WriteBookingHistory(HistoryRow(id, Action.Reschedule, updated.status, Some(booking.span), updated.span, actor.userId, role));
      if key.Some? {
        IdemSave(req, key.value, ReplyOf(id, updated));
      }
      return Ok(ReplyOf(id, updated));
    }

    method Cancel(req: Request, key: Option<string>, actor: Actor, env: Env, saveFails: bool) returns (r: Result<Response, Error>)
      requires req.CancelRequest? && LengthsOk(bookings) && NoOverlap(bookings)
      modifies this
      ensures (Tables(), r) == Call(old(Tables()), req, key, actor, env, saveFails)
    {
      var existing := CheckKey(req, key);
      if existing.Some? {
        return existing.value;
      }
      var id := req.bookingId;
      if id !in bookings || bookings[id].businessId != req.businessId {
        return Err(NotFound);
      }
      var b := bookings[id];
      var role := ActorRole(actor, env.membership);
      if !IsOperator(role) && b.customerId != actor.userId {
        return Err(NotAllowed);
      }
      var reply := Response(id, Cancelled, None);
      if !b.status.Cancelled? {
        if !b.status.Pending? && !b.status.Confirmed? {
          return Err(NotCancelable);
        }
        if !NoticeOk(role, b.span.start, env.now, env.noticeMin) {
          return Err(WindowPassed);
        }
        var updated := b.(status := Cancelled);
        var _ := Put(id, updated);
        WriteBookingHistory(HistoryRow(id, Action.Cancel, Cancelled, Some(b.span), updated.span, actor.userId, role));
        reply := ReplyOf(id, updated);
      }
      if key.Some? {
        if saveFails {
          return Err(SaveFailed);
        }
        IdemSave(req, key.value, reply);
      }
      return Ok(reply);
    }

    method Confirm(req: Request, key: Option<string>, actor: Actor, env: Env, saveFails: bool) returns (r: Result<Response, Error>)
      requires req.ConfirmRequest? && LengthsOk(bookings) && NoOverlap(bookings)
      modifies this
      ensures (Tables(), r) == Call(old(Tables()), req, key, actor, env, saveFails)
    {
      var existing := CheckKey(req, key);
      if existing.Some? {
        return existing.value;
      }
      var id := req.bookingId;
      if id !in bookings || bookings[id].businessId != req.businessId {
        return Err(NotFound);
      }
      var b := bookings[id];
      var role := ActorRole(actor, env.membership);
      if !IsOperator(role) {
        return Err(NotAllowed);
      }
      var reply := Response(id, Confirmed, None);
      if !b.status.Confirmed? {
        if !b.status.Pending? {
          return Err(NotConfirmable);
        }
        var updated := b.(status := Confirmed);
        assert !Taken(bookings, id, b.staffId, b.span);
        var _ := Put(id, updated);
        WriteBookingHistory(HistoryRow(id, Action.Confirm, Confirmed, Some(b.span), updated.span, actor.userId, role));
        reply := ReplyOf(id, updated);
      }
      if key.Some? {
        if saveFails {
          return Err(SaveFailed);
        }
        IdemSave(req, key.value, reply);
      }
      return Ok(reply);
    }
  }
}
