/** When a booking leaves the cache right: the exact condition, for one entry and for a service,
    and a booking that leaves it wrong. */
module CacheCoherence {
  import opened Wrappers
  import opened Bookings
  import opened Slots
  import opened AnswerChanges
  import opened Availability
  import opened CacheKeys
  import opened Cache
  import opened CacheProtocol
  import Bookable
  import Hours = WorkingHours
  import Profile = ServiceProfile

  /** The entry of the query is gone or tells what the tables give. */
  ghost predicate RightOrGone(c: Config, s: State, q: Query)
    requires Askable(q)
  {
    KeyOf(c.prefix, q) in s.entries ==> Fresh(s.world, c.cal, q) == Ok(s.entries[KeyOf(c.prefix, q)].value)
  }

  /** A right entry stays right or goes, when a new booking is written and its service's entries
      are dropped, if and only if the prefix covers the entry's key or the booking meets none of
      the answer's slots. */
  lemma BookingLeavesEntryRight(c: Config, s: State, e: CacheProtocol.Event, id: string, b: Booking, q: Query)
    requires Askable(q) && KeyOf(c.prefix, q) in s.entries && RightOrGone(c, s, q)
    requires BooksAs(c, s.world, e, id, b) && id !in s.world.bookings
    ensures RightOrGone(c, Apply(c, s, e), q) <==> Covers(b, q.businessId, q.serviceId) || !Meets(s.world, c.cal, q, b)
  {
    ServicePrefixExact(c.prefix, b.businessId, b.serviceId, q);
    NewBookingChanges(s.world, c.cal, q, id, b);
  }

  /** For a whole service: its cached answers are right after the write if and only if the prefix
      covers the service or the booking is in no cached answer's way. */
  lemma BookingLeavesServiceRight(c: Config, s: State, e: CacheProtocol.Event, id: string, b: Booking, businessId: string, serviceId: string)
    requires s.pending == map[] && Current(c, s, businessId, serviceId)
    requires BooksAs(c, s.world, e, id, b) && id !in s.world.bookings
    ensures Current(c, Apply(c, s, e), businessId, serviceId) <==>
            Covers(b, businessId, serviceId) || MeetsNoEntry(c, s, id, b, businessId, serviceId)
  {
    if Covers(b, businessId, serviceId) || MeetsNoEntry(c, s, id, b, businessId, serviceId) {
      assert Harmless(c, s, e, businessId, serviceId);
      WriteKeepsCurrent(c, s, e, businessId, serviceId);
    } else {
      var q :| Cached(c, s, q, businessId, serviceId) && Fresh(s.world, c.cal, q).Ok? && Meets(s.world, c.cal, q, b);
      BookingLeavesEntryRight(c, s, e, id, b, q);
      assert KeyOf(c.prefix, q) in Apply(c, s, e).entries && Cached(c, Apply(c, s, e), q, businessId, serviceId);
    }
  }

  /** A booking made in an offered slot is in that slot's way. */
  lemma BookedSlotMeets(w: World, cal: Calendar, q: Query, slot: Interval, b: Booking)
    requires Bookable.Offered(w, cal, q, b.staffId, slot) && Bookable.HoursOk(w, b.staffId) && slot.start < slot.end
    requires cal(q.date, ZoneOf(q)).Some? && Bookable.CalendarOk(cal(q.date, ZoneOf(q)).value)
    requires Active(b.status) && b.span.start == slot.start < b.span.end
    ensures Meets(w, cal, q, b)
  {
    Bookable.SlotTouchesDay(w, cal, q, b.staffId, slot);
    Bookable.SlotWithinDay(w, cal, q, b.staffId, slot);
    assert Overlap(slot, b.span);
  }

  /** Unrestricted coherence fails: create books another service of the same staff member at an
      offered start and drops that service's entries, and the old answer is still given. */
  lemma OtherServiceStaysCached(c: Config, w: World, q: Query, slot: Interval, db: Db, req: Request, actor: Actor, env: Env)
      returns (es: seq<CacheProtocol.Event>, ss: seq<State>)
    requires Askable(q) && req.CreateRequest? && req.startAt == slot.start && slot.start < slot.end
    requires Bookable.Offered(w, c.cal, q, req.staffId, slot) && Bookable.HoursOk(w, req.staffId)
    requires c.cal(q.date, ZoneOf(q)).Some? && Bookable.CalendarOk(c.cal(q.date, ZoneOf(q)).value)
    requires db.bookings == w.bookings && env.newId !in db.bookings && CreateTx(db, req, actor, env).1.Ok?
    requires ':' !in req.businessId && ':' !in req.serviceId
    requires req.businessId != q.businessId || !(req.serviceId <= q.serviceId)
    ensures IsRun(c, es, ss) && |es| == 5 && ss[2].world == w && Stale(c, ss[4], es[4], q)
    ensures env.newId in CreateTx(db, req, actor, env).0.bookings
    ensures BooksAs(c, w, es[2], env.newId, CreateTx(db, req, actor, env).0.bookings[env.newId])
    ensures es[2].world.bookings == CreateTx(db, req, actor, env).0.bookings
  {
    var b := CreateTx(db, req, actor, env).0.bookings[env.newId];
    var w' := w.(bookings := w.bookings[env.newId := b]);
    var drop := ServicePrefix(c.prefix, b.businessId, b.serviceId);
    BookedSlotMeets(w, c.cal, q, slot, b);
    NewBookingChanges(w, c.cal, q, env.newId, b);
    ServicePrefixExact(c.prefix, b.businessId, b.serviceId, q);
    es := AskWriteAsk(q, w', Some(drop), 0);
    ss := StaleHit(c, w, w', q, Some(drop), 0);
  }

  /** The staff member's hours and services, and nothing booked yet. */
  ghost predicate NothingBooked(w: World) {
    w.cat == Bookable.CATALOGUE && w.hours == Bookable.WORLD.hours && w.bookings == map[] && w.timeOff == map[]
  }

  /** Half an hour of the other service, at the start of the last hour. */
  const SHAVE := CreateRequest("shop", "somebody", "staff", "other", None, [], Bookable.LAST_SLOT.start, None, None)

  lemma ShaveResolves(sel: Profile.Selection)
    requires sel == Profile.Selection("shop", "other", "staff", None, true)
    ensures var profile := Profile.ResolveForSelection(Bookable.CATALOGUE, sel, []);
            profile.Ok? && profile.value.totalMin == 30
  {
    Bookable.PlainLength(Bookable.CATALOGUE, sel);
  }

  lemma ShaveLength(cat: Profile.Catalogue)
    requires cat == Bookable.CATALOGUE
    ensures Bookable.LengthOf(cat, SHAVE) == Some(30)
  {
    ShaveResolves(Profile.Selection("shop", "other", "staff", None, true));
  }

  lemma ShaveBooked(db: Db, actor: Actor, env: Env)
    requires db.bookings == map[] && env.totalMin == Some(30) && env.referencesOk
    ensures CreateTx(db, SHAVE, actor, env).1.Ok?
  {
  }

  lemma FreeDay(w: World, day: Day)
    requires NothingBooked(w) && day == Bookable.Utc("", "").value
    ensures Windows(w, "staff", day) == [Hours.Item(0, 0, 1440)] && Blockers(w, "staff", day) == {}
    ensures Bookable.HoursOk(w, "staff") && Bookable.CalendarOk(day)
  {
    Bookable.WitnessWindows(day);
  }

  lemma LastHourFree(w: World, day: Day)
    requires NothingBooked(w) && day == Bookable.Utc("", "").value
    ensures Bookable.Offered(w, Bookable.Utc, Bookable.QUERY, "staff", Bookable.LAST_SLOT)
  {
    Bookable.WitnessLength();
    Bookable.WitnessStaff();
    FreeDay(w, day);
    Bookable.WitnessGrid(day);
    assert Bookable.Utc(Bookable.QUERY.date, ZoneOf(Bookable.QUERY)) == Some(day);
    Bookable.SoleStaffOffered(w, Bookable.Utc, Bookable.QUERY, day, "staff", Bookable.LAST_SLOT);
  }

  lemma ShaveElsewhere()
    ensures Askable(Bookable.QUERY) && !(SHAVE.serviceId <= Bookable.QUERY.serviceId)
    ensures ':' !in SHAVE.businessId && ':' !in SHAVE.serviceId
  {
    assert SHAVE.serviceId[0] != Bookable.QUERY.serviceId[0];
  }

  /** A real instance: one staff member, two services, an hour offered for the one and half of it
      booked for the other. */
  lemma ShaveLeavesCutCached(prefix: string, ttlSec: int, actor: Actor, env: Env)
      returns (w: World, db: Db, es: seq<CacheProtocol.Event>, ss: seq<State>)
    requires env.totalMin == Some(30) && env.referencesOk
    ensures NothingBooked(w) && db.bookings == map[] && Bookable.LengthOf(w.cat, SHAVE) == env.totalMin
    ensures CreateTx(db, SHAVE, actor, env).1.Ok? && env.newId in CreateTx(db, SHAVE, actor, env).0.bookings
    ensures var c := Config(prefix, Bookable.Utc, ttlSec);
            && IsRun(c, es, ss) && |es| == 5 && Askable(Bookable.QUERY) && Stale(c, ss[4], es[4], Bookable.QUERY)
            && BooksAs(c, w, es[2], env.newId, CreateTx(db, SHAVE, actor, env).0.bookings[env.newId])
  {
    w, db := World(Bookable.CATALOGUE, Bookable.WORLD.hours, map[], map[]), Db(map[], [], [], map[]);
    es, ss := ShaveWhenFree(Config(prefix, Bookable.Utc, ttlSec), w, db, actor, env);
    ShaveLength(w.cat);
  }

  lemma ShaveWhenFree(c: Config, w: World, db: Db, actor: Actor, env: Env) returns (es: seq<CacheProtocol.Event>, ss: seq<State>)
    requires c.cal == Bookable.Utc && NothingBooked(w) && db.bookings == map[] && env.referencesOk && env.totalMin == Some(30)
    ensures CreateTx(db, SHAVE, actor, env).1.Ok? && env.newId in CreateTx(db, SHAVE, actor, env).0.bookings
    ensures IsRun(c, es, ss) && |es| == 5 && Askable(Bookable.QUERY) && Stale(c, ss[4], es[4], Bookable.QUERY)
    ensures BooksAs(c, w, es[2], env.newId, CreateTx(db, SHAVE, actor, env).0.bookings[env.newId])
  {
    var day := Bookable.Utc("", "").value;
    ShaveBooked(db, actor, env);
    LastHourFree(w, day);
    FreeDay(w, day);
    ShaveElsewhere();
    assert c.cal(Bookable.QUERY.date, ZoneOf(Bookable.QUERY)) == Some(day);
    es, ss := OtherServiceStaysCached(c, w, Bookable.QUERY, Bookable.LAST_SLOT, db, SHAVE, actor, env);
  }
}
