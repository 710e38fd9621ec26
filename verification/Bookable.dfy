/** Slots and bookings agree: what availability offers, create accepts. */
module Bookable {
  import opened Wrappers
  import opened Bookings
  import opened Slots
  import opened Availability
  import AddonIds
  import Profile = ServiceProfile
  import Hours = WorkingHours

  /** The minutes of a day's wall clock fall within the day. */
  ghost predicate CalendarOk(day: Day) {
    forall m | 0 <= m <= 1440 :: day.start <= day.toInstant(m) <= day.next
  }

  ghost predicate Offered(w: World, cal: Calendar, q: Query, staffId: string, slot: Interval) {
    && IntervalOf(q) > 0
    && Fresh(w, cal, q).Ok?
    && staffId in Fresh(w, cal, q).value.results
    && slot in Fresh(w, cal, q).value.results[staffId].slots
  }

  /** The windows are ones that the working-hours check let through. */
  ghost predicate HoursOk(w: World, staffId: string) {
    Hours.Acceptable(Hours.ItemsOf(w.hours, staffId))
  }

  /** The same selection, with the add-ons given as `raw`, in any order and with any repeats. */
  ghost predicate Asks(req: Request, raw: seq<string>, q: Query, staffId: string, slot: Interval) {
    && req.CreateRequest?
    && req.businessId == q.businessId
    && req.serviceId == q.serviceId
    && req.staffId == staffId
    && req.variantId == q.variantId
    && req.startAt == slot.start
    && req.addonIds == AddonIds.NormalizeAddonIds(raw)
    && AddonIds.SameChoice(raw, q.addonIds)
  }

  /** The selection's length as create resolves it. */
  function LengthOf(cat: Profile.Catalogue, req: Request): Option<int>
    requires req.CreateRequest?
  {
    var sel := Profile.Selection(req.businessId, req.serviceId, req.staffId, req.variantId, true);
    var profile := Profile.ResolveForSelection(cat, sel, req.addonIds);
    if profile.Ok? then Some(profile.value.totalMin) else None
  }

  /** An active booking that starts in the day's last millisecond, which the day query misses
      although a slot may end at midnight. */
  ghost predicate HiddenBooking(w: World, staffId: string, day: Day, slot: Interval) {
    && slot.end == day.next
    && exists id :: id in w.bookings && w.bookings[id].staffId == staffId && Active(w.bookings[id].status)
                    && w.bookings[id].span.start == day.End()
  }

  lemma SameLength(w: World, cal: Calendar, q: Query, staffId: string, slot: Interval, req: Request, raw: seq<string>)
    requires Offered(w, cal, q, staffId, slot) && Asks(req, raw, q, staffId, slot)
    ensures LengthOf(w.cat, req) == Some(Fresh(w, cal, q).value.results[staffId].totalMin)
  {
    Profile.NormalizedResolvesAlike(w.cat, SelectionOf(q, staffId), raw, q.addonIds);
    AnswerParts(w, cal, q, staffId);
  }

  lemma SlotWithinDay(w: World, cal: Calendar, q: Query, staffId: string, slot: Interval)
    requires Offered(w, cal, q, staffId, slot) && HoursOk(w, staffId)
    requires cal(q.date, ZoneOf(q)).Some? && CalendarOk(cal(q.date, ZoneOf(q)).value)
    ensures var day := cal(q.date, ZoneOf(q)).value; day.start <= slot.start && slot.end <= day.next
  {
    var day := cal(q.date, ZoneOf(q)).value;
    AnswerParts(w, cal, q, staffId);
    var windows, totalMin := Windows(w, staffId, day), Fresh(w, cal, q).value.results[staffId].totalMin;
    var i :| 0 <= i < |windows| && InWindow(windows[i], day, totalMin, IntervalOf(q), slot.start);
    var items := Hours.ItemsOf(w.hours, staffId);
    Hours.OnDayMembers(items, day.dayOfWeek);
    assert windows[i] in items;
    OnGridAtLeast(day.toInstant(windows[i].startMin), IntervalOf(q), slot.start);
  }

  /** Only a hidden booking can be in the way of a slot that is offered. */
  lemma TakenMeansHidden(w: World, cal: Calendar, q: Query, staffId: string, slot: Interval, newId: string)
    requires Offered(w, cal, q, staffId, slot) && HoursOk(w, staffId)
    requires cal(q.date, ZoneOf(q)).Some? && CalendarOk(cal(q.date, ZoneOf(q)).value)
    requires LengthsOk(w.bookings) && newId !in w.bookings && slot.start < slot.end
    ensures Taken(w.bookings, newId, staffId, slot) <==> HiddenBooking(w, staffId, cal(q.date, ZoneOf(q)).value, slot)
  {
    var day := cal(q.date, ZoneOf(q)).value;
    AnswerParts(w, cal, q, staffId);
    SlotWithinDay(w, cal, q, staffId, slot);
    var totalMin := Fresh(w, cal, q).value.results[staffId].totalMin;
    assert slot.end - slot.start == totalMin * 60_000;
    forall id | id in w.bookings && Active(w.bookings[id].status) && w.bookings[id].staffId == staffId
      ensures Overlap(w.bookings[id].span, slot) <==> slot.end == day.next && w.bookings[id].span.start == day.End()
    {
      var span := w.bookings[id].span;
      if TouchesDay(span, day) {
        assert span in FetchedBookings(w.bookings, staffId, day) && span in Blockers(w, staffId, day);
        assert !Overlap(slot, span);
      }
    }
  }

  /** A slot that is offered overlaps no time off of its staff member, but for one that begins in
      the day's last millisecond when the slot ends at midnight. */
  lemma TimeOffIsKept(w: World, cal: Calendar, q: Query, staffId: string, slot: Interval, id: string)
    requires Offered(w, cal, q, staffId, slot) && HoursOk(w, staffId) && slot.start < slot.end
    requires cal(q.date, ZoneOf(q)).Some? && CalendarOk(cal(q.date, ZoneOf(q)).value)
    requires id in w.timeOff && w.timeOff[id].staffId == staffId && w.timeOff[id].span.start < w.timeOff[id].span.end
    ensures var day, span := cal(q.date, ZoneOf(q)).value, w.timeOff[id].span;
            span.start < slot.end && slot.start < span.end <==> slot.end == day.next && span.start == day.next - 1
  {
    AnswerExact(w, cal, q, staffId, slot);
    SlotWithinDay(w, cal, q, staffId, slot);
    SlotLength(w, cal, q, staffId, slot);
  }

  /** An offered slot is accepted, with the same end, exactly when the selection takes time and
      no booking hides in the day's last millisecond; the request is made in the same state,
      and names rows that exist. */
  lemma SlotsAreBookable(w: World, cal: Calendar, q: Query, staffId: string, slot: Interval, db: Db, req: Request,
                         raw: seq<string>, actor: Actor, env: Env)
    requires Offered(w, cal, q, staffId, slot) && HoursOk(w, staffId)
    requires cal(q.date, ZoneOf(q)).Some? && CalendarOk(cal(q.date, ZoneOf(q)).value)
    requires db.bookings == w.bookings && LengthsOk(w.bookings)
    requires Asks(req, raw, q, staffId, slot) && env.totalMin == LengthOf(w.cat, req)
    requires env.newId !in db.bookings && env.referencesOk
    ensures var totalMin := Fresh(w, cal, q).value.results[staffId].totalMin;
            var hidden := HiddenBooking(w, staffId, cal(q.date, ZoneOf(q)).value, slot);
            var (db', reply) := CreateTx(db, req, actor, env);
            && (reply.Ok? <==> totalMin > 0 && !hidden)
            && (reply.Ok? ==> reply.value.span == Some(slot) && env.newId in db'.bookings && db'.bookings[env.newId].span == slot)
            && (reply.Err? ==> reply.error == if totalMin > 0 then SlotNotAvailable else CreateFailed)
  {
    SameLength(w, cal, q, staffId, slot, req, raw);
    AnswerParts(w, cal, q, staffId);
    if slot.start < slot.end {
      TakenMeansHidden(w, cal, q, staffId, slot, env.newId);
    }
  }

  lemma FetchedAfter(bookings: map<string, Booking>, id: string, b: Booking, day: Day)
    requires id !in bookings && Active(b.status) && TouchesDay(b.span, day)
    ensures FetchedBookings(bookings[id := b], b.staffId, day) == FetchedBookings(bookings, b.staffId, day) + {b.span}
    ensures forall other | other != b.staffId :: FetchedBookings(bookings[id := b], other, day) == FetchedBookings(bookings, other, day)
  {
    var after := bookings[id := b];
    forall span | span in FetchedBookings(bookings, b.staffId, day) + {b.span}
      ensures span in FetchedBookings(after, b.staffId, day)
    {
      if span == b.span {
        assert after[id].span == span;
      } else {
        var other :| other in bookings && bookings[other].staffId == b.staffId && Active(bookings[other].status)
                     && TouchesDay(bookings[other].span, day) && bookings[other].span == span;
        assert after[other].span == span;
      }
    }
    forall staffId | staffId != b.staffId
      ensures FetchedBookings(after, staffId, day) == FetchedBookings(bookings, staffId, day)
    {
      forall span | span in FetchedBookings(bookings, staffId, day) ensures span in FetchedBookings(after, staffId, day) {
        var other :| other in bookings && bookings[other].staffId == staffId && Active(bookings[other].status)
                     && TouchesDay(bookings[other].span, day) && bookings[other].span == span;
        assert after[other].span == span;
      }
    }
  }

  /** One more blocker for a staff member takes exactly the slots it overlaps. */
  lemma StaffAfterBlocker(w: World, w': World, q: Query, day: Day, staffId: string, span: Interval)
    requires IntervalOf(q) > 0 && StaffAnswer(w, q, day, staffId).Ok? && w'.cat == w.cat && w'.hours == w.hours
    requires Blockers(w', staffId, day) == Blockers(w, staffId, day) + {span}
    ensures var part := StaffAnswer(w, q, day, staffId).value;
            StaffAnswer(w', q, day, staffId) == Ok(part.(slots := Clear(part.slots, span)))
  {
    var totalMin := StaffAnswer(w, q, day, staffId).value.totalMin;
    OneMoreBlocker(Windows(w, staffId, day), day, totalMin, IntervalOf(q), Blockers(w, staffId, day), span);
  }

  /** One more blocker for one staff member, and none for the others. */
  lemma AnswerAfterBlocker(w: World, w': World, cal: Calendar, q: Query, staffId: string, span: Interval)
    requires IntervalOf(q) > 0 && Fresh(w, cal, q).Ok? && staffId in Fresh(w, cal, q).value.results
    requires cal(q.date, ZoneOf(q)).Some? && w'.cat == w.cat && w'.hours == w.hours
    requires var day := cal(q.date, ZoneOf(q)).value;
             && Blockers(w', staffId, day) == Blockers(w, staffId, day) + {span}
             && forall other | other != staffId :: Blockers(w', other, day) == Blockers(w, other, day)
    ensures var before := Fresh(w, cal, q).value.results;
            var part := before[staffId].(slots := Clear(before[staffId].slots, span));
            Fresh(w', cal, q) == Ok(Answer(IntervalOf(q), before[staffId := part]))
  {
    var day := cal(q.date, ZoneOf(q)).value;
    var before := Fresh(w, cal, q).value.results;
    var after := before[staffId := before[staffId].(slots := Clear(before[staffId].slots, span))];
    forall other | other in after ensures StaffAnswer(w', q, day, other) == Ok(after[other]) {
      assert StaffAnswer(w, q, day, other) == Ok(before[other]);
      if other == staffId {
        StaffAfterBlocker(w, w', q, day, staffId, span);
      }
    }
    AllAnswered(w', cal, q, after);
  }

  /** A new active booking within the day's bounds takes exactly the slots it overlaps from its
      staff member, and nothing from the others. */
  lemma BookingTakesItsSlots(w: World, cal: Calendar, q: Query, id: string, b: Booking)
    requires IntervalOf(q) > 0 && Fresh(w, cal, q).Ok? && b.staffId in Fresh(w, cal, q).value.results
    requires cal(q.date, ZoneOf(q)).Some? && TouchesDay(b.span, cal(q.date, ZoneOf(q)).value)
    requires id !in w.bookings && Active(b.status)
    ensures var before := Fresh(w, cal, q).value.results;
            var part := before[b.staffId].(slots := Clear(before[b.staffId].slots, b.span));
            Fresh(w.(bookings := w.bookings[id := b]), cal, q) == Ok(Answer(IntervalOf(q), before[b.staffId := part]))
  {
    var day, w' := cal(q.date, ZoneOf(q)).value, w.(bookings := w.bookings[id := b]);
    FetchedAfter(w.bookings, id, b, day);
    assert Blockers(w', b.staffId, day) == Blockers(w, b.staffId, day) + {b.span};
    AnswerAfterBlocker(w, w', cal, q, b.staffId, b.span);
  }

  lemma TimeOffAfter(timeOff: map<string, TimeOff>, id: string, off: TimeOff, staffId: string, day: Day)
    requires id !in timeOff
    ensures var seen := off.staffId == staffId && TouchesDay(off.span, day);
            FetchedTimeOff(timeOff[id := off], staffId, day)
            == FetchedTimeOff(timeOff, staffId, day) + (if seen then {off.span} else {})
  {
    var after := timeOff[id := off];
    forall span | span in FetchedTimeOff(timeOff, staffId, day) ensures span in FetchedTimeOff(after, staffId, day) {
      var other :| other in timeOff && timeOff[other].staffId == staffId && TouchesDay(timeOff[other].span, day)
                   && timeOff[other].span == span;
      assert after[other].span == span;
    }
    if off.staffId == staffId && TouchesDay(off.span, day) {
      assert after[id].span == off.span;
    }
  }

  /** So does new time off within the day's bounds. */
  lemma TimeOffTakesItsSlots(w: World, cal: Calendar, q: Query, id: string, off: TimeOff)
    requires IntervalOf(q) > 0 && Fresh(w, cal, q).Ok? && off.staffId in Fresh(w, cal, q).value.results
    requires cal(q.date, ZoneOf(q)).Some? && id !in w.timeOff
    requires var day := cal(q.date, ZoneOf(q)).value; off.span.start < day.next - 1 && day.start < off.span.end
    ensures var before := Fresh(w, cal, q).value.results;
            var part := before[off.staffId].(slots := Clear(before[off.staffId].slots, off.span));
            Fresh(w.(timeOff := w.timeOff[id := off]), cal, q) == Ok(Answer(IntervalOf(q), before[off.staffId := part]))
  {
    var day, w' := cal(q.date, ZoneOf(q)).value, w.(timeOff := w.timeOff[id := off]);
    forall staffId ensures Blockers(w', staffId, day) == Blockers(w, staffId, day) + if staffId == off.staffId then {off.span} else {} {
      TimeOffAfter(w.timeOff, id, off, staffId, day);
    }
    AnswerAfterBlocker(w, w', cal, q, off.staffId, off.span);
  }

  lemma SlotLength(w: World, cal: Calendar, q: Query, staffId: string, slot: Interval)
    requires Offered(w, cal, q, staffId, slot)
    ensures slot.end - slot.start == Fresh(w, cal, q).value.results[staffId].totalMin * 60_000
  {
    AnswerParts(w, cal, q, staffId);
  }

  lemma SlotTouchesDay(w: World, cal: Calendar, q: Query, staffId: string, slot: Interval)
    requires Offered(w, cal, q, staffId, slot) && HoursOk(w, staffId) && slot.start < slot.end
    requires cal(q.date, ZoneOf(q)).Some? && CalendarOk(cal(q.date, ZoneOf(q)).value)
    ensures TouchesDay(slot, cal(q.date, ZoneOf(q)).value)
  {
    SlotLength(w, cal, q, staffId, slot);
    SlotWithinDay(w, cal, q, staffId, slot);
  }

  /** Booking a slot takes it, and leaves every slot beside it. */
  lemma BookedSlotIsGone(w: World, cal: Calendar, q: Query, staffId: string, slot: Interval, other: Interval, id: string, b: Booking)
    requires Offered(w, cal, q, staffId, slot) && Offered(w, cal, q, staffId, other) && HoursOk(w, staffId)
    requires cal(q.date, ZoneOf(q)).Some? && CalendarOk(cal(q.date, ZoneOf(q)).value)
    requires slot.start < slot.end && id !in w.bookings && b.staffId == staffId && b.span == slot && Active(b.status)
    ensures !Offered(w.(bookings := w.bookings[id := b]), cal, q, staffId, slot)
    ensures Offered(w.(bookings := w.bookings[id := b]), cal, q, staffId, other) <==> !Overlap(other, slot)
  {
    SlotTouchesDay(w, cal, q, staffId, slot);
    var slots := Fresh(w, cal, q).value.results[staffId].slots;
    BookingTakesItsSlots(w, cal, q, id, b);
    ClearMembers(slots, slot, slot);
    ClearMembers(slots, slot, other);
  }

  const LISTED := Profile.Listing(false, true, true)

  const ASSIGNED := Profile.Assignment(true, true, Profile.Overrides(None, None, None, None))

  /** Two services of one staff member. */
  const CATALOGUE := Profile.Catalogue(
    map["service" := Profile.Service("shop", "Cut", "EUR", true, LISTED, Profile.Terms(60, 0, 0, 0)),
        "other" := Profile.Service("shop", "Shave", "EUR", true, LISTED, Profile.Terms(30, 0, 0, 0))],
    {"shop"}, map["staff" := Profile.Staff("shop", true)],
    map[("service", "staff") := ASSIGNED, ("other", "staff") := ASSIGNED], map[], map[])

  const LATE_BOOKING := Booking("shop", "somebody", "staff", "service", Interval(86_399_999, 86_459_999), Confirmed, None)

  const WORLD := World(CATALOGUE, [Hours.Row("staff", Hours.Item(0, 0, 1440))], map[], map["late" := LATE_BOOKING])

  const QUERY := Query("shop", "service", None, [], "1970-01-01", None, Some(60), None)

  const LAST_SLOT := Interval(82_800_000, 86_400_000)

  function Utc(date: string, tz: string): Option<Day> {
    Some(Day(0, 86_400_000, 0, m => m * 60_000))
  }

  lemma PlainLength(cat: Profile.Catalogue, sel: Profile.Selection)
    requires Profile.ServiceFound(cat, sel) && sel.businessId in cat.businesses && Profile.StaffFound(cat, sel)
    requires Profile.Assigned(cat, sel) && sel.variantId.None?
    ensures var profile := Profile.ResolveForSelection(cat, sel, []);
            profile.Ok? && profile.value.totalMin == Profile.TotalMin(Profile.BaseTerms(cat, sel))
  {
    NoIds();
  }

  lemma WitnessLength()
    ensures var profile := Profile.ResolveForSelection(CATALOGUE, SelectionOf(QUERY, "staff"), []);
            profile.Ok? && profile.value.totalMin == 60
  {
    PlainLength(CATALOGUE, SelectionOf(QUERY, "staff"));
  }

  lemma NoIds()
    ensures AddonIds.NormalizeAddonIds([]) == []
  {
    assert AddonIds.Parts([]) == [];
    assert AddonIds.Distinct([]) == [];
  }

  lemma WitnessStaff()
    ensures ListedStaff(CATALOGUE, QUERY) == {"staff"}
  {
    assert StaffListed(CATALOGUE, QUERY, "staff");
  }

  lemma WitnessWindows(day: Day)
    requires day.dayOfWeek == 0
    ensures Hours.ItemsOf(WORLD.hours, "staff") == [Hours.Item(0, 0, 1440)]
    ensures Windows(WORLD, "staff", day) == [Hours.Item(0, 0, 1440)]
  {
    assert WORLD.hours[1..] == [];
    assert Hours.ItemsOf([], "staff") == [];
    assert [Hours.Item(0, 0, 1440)][..0] == [];
  }

  lemma WitnessBlockers(day: Day)
    requires day.next == 86_400_000
    ensures Blockers(WORLD, "staff", day) == {}
  {
    assert !TouchesDay(LATE_BOOKING.span, day);
  }

  lemma SoleStaffOffered(w: World, cal: Calendar, q: Query, day: Day, staffId: string, slot: Interval)
    requires IntervalOf(q) > 0 && cal(q.date, ZoneOf(q)) == Some(day) && ListedStaff(w.cat, q) == {staffId}
    requires Profile.ResolveForSelection(w.cat, SelectionOf(q, staffId), q.addonIds).Ok?
    requires var totalMin := Profile.ResolveForSelection(w.cat, SelectionOf(q, staffId), q.addonIds).value.totalMin;
             && slot == SpanFor(slot.start, totalMin)
             && OnSomeGrid(Windows(w, staffId, day), day, totalMin, IntervalOf(q), slot.start)
             && Free(slot, Blockers(w, staffId, day))
    ensures Offered(w, cal, q, staffId, slot)
  {
    AllAnswered(w, cal, q, map[staffId := StaffAnswer(w, q, day, staffId).value]);
    AnswerParts(w, cal, q, staffId);
  }

  lemma WitnessGrid(day: Day)
    requires day == Utc("", "").value
    ensures OnSomeGrid([Hours.Item(0, 0, 1440)], day, 60, 60, LAST_SLOT.start)
  {
    assert LAST_SLOT.start == GridPoint(0, 60, 23);
    assert InWindow([Hours.Item(0, 0, 1440)][0], day, 60, 60, LAST_SLOT.start);
  }

  lemma WitnessWorldOk(day: Day)
    requires day == Utc("", "").value
    ensures LengthsOk(WORLD.bookings) && HoursOk(WORLD, "staff") && CalendarOk(day)
    ensures Taken(WORLD.bookings, "new", "staff", LAST_SLOT)
  {
    WitnessWindows(day);
    assert WORLD.bookings["late"] == LATE_BOOKING && Overlap(LATE_BOOKING.span, LAST_SLOT);
  }

  /** The hidden booking is a real possibility: the last hour of a day is offered although a
      booking starts in the day's last millisecond. */
  lemma LastSlotWronglyOffered(day: Day)
    requires day == Utc("", "").value
    ensures Offered(WORLD, Utc, QUERY, "staff", LAST_SLOT)
    ensures LengthsOk(WORLD.bookings) && HoursOk(WORLD, "staff") && CalendarOk(day)
    ensures Taken(WORLD.bookings, "new", "staff", LAST_SLOT)
  {
    WitnessLength();
    WitnessStaff();
    WitnessWindows(day);
    WitnessBlockers(day);
    WitnessGrid(day);
    WitnessWorldOk(day);
    assert Utc(QUERY.date, ZoneOf(QUERY)) == Some(day);
    SoleStaffOffered(WORLD, Utc, QUERY, day, "staff", LAST_SLOT);
  }
}
