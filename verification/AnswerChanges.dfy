/** Which bookings change which availability answers. */
module AnswerChanges {
  import opened Wrappers
  import opened Bookings
  import opened Slots
  import opened Availability
  import Bookable

  lemma SameStaffAnswers(w: World, w': World, cal: Calendar, q: Query)
    requires IntervalOf(q) > 0 && cal(q.date, ZoneOf(q)).Some? && w'.cat == w.cat
    requires forall id | id in ListedStaff(w.cat, q) ::
               StaffAnswer(w', q, cal(q.date, ZoneOf(q)).value, id) == StaffAnswer(w, q, cal(q.date, ZoneOf(q)).value, id)
    ensures Fresh(w', cal, q) == Fresh(w, cal, q)
  {
    var day := cal(q.date, ZoneOf(q)).value;
    if failing :| failing in ListedStaff(w.cat, q) && StaffAnswer(w, q, day, failing).Err? {
      FailsForAll(w, cal, q, failing);
      FailsForAll(w', cal, q, failing);
    } else {
      var results := map id | id in ListedStaff(w.cat, q) :: StaffAnswer(w, q, day, id).value;
      AllAnswered(w, cal, q, results);
      AllAnswered(w', cal, q, results);
    }
  }

  /** The day query sees the span, and a slot of the staff member's is in its way. */
  ghost predicate InTheWay(w: World, cal: Calendar, q: Query, staffId: string, span: Interval)
    requires IntervalOf(q) > 0 && Fresh(w, cal, q).Ok? && cal(q.date, ZoneOf(q)).Some?
  {
    var day, results := cal(q.date, ZoneOf(q)).value, Fresh(w, cal, q).value.results;
    && span.start < day.next - 1 && day.start < span.end
    && staffId in results
    && exists slot :: slot in results[staffId].slots && slot.start < span.end && span.start < slot.end
  }

  /** The answer is computed from the booking, and one of its slots is in the booking's way. */
  ghost predicate Meets(w: World, cal: Calendar, q: Query, b: Booking)
    requires IntervalOf(q) > 0 && Fresh(w, cal, q).Ok? && cal(q.date, ZoneOf(q)).Some?
  {
    (b.status == Pending || b.status == Confirmed) && InTheWay(w, cal, q, b.staffId, b.span)
  }

  lemma UnseenBooking(bookings: map<string, Booking>, id: string, b: Booking, staffId: string, day: Day)
    requires id in bookings ==> staffId != b.staffId && bookings[id].staffId == b.staffId
    requires !Active(b.status) || !TouchesDay(b.span, day) || staffId != b.staffId
    ensures FetchedBookings(bookings[id := b], staffId, day) == FetchedBookings(bookings, staffId, day)
  {
    var after := bookings[id := b];
    forall span | span in FetchedBookings(bookings, staffId, day) ensures span in FetchedBookings(after, staffId, day) {
      var other :| other in bookings && bookings[other].staffId == staffId && Active(bookings[other].status)
                   && TouchesDay(bookings[other].span, day) && bookings[other].span == span;
      assert after[other].span == span;
    }
  }

  lemma UnseenChangesNothing(w: World, cal: Calendar, q: Query, id: string, b: Booking)
    requires IntervalOf(q) > 0 && cal(q.date, ZoneOf(q)).Some? && id !in w.bookings
    requires !Active(b.status) || !TouchesDay(b.span, cal(q.date, ZoneOf(q)).value) || b.staffId !in ListedStaff(w.cat, q)
    ensures Fresh(w.(bookings := w.bookings[id := b]), cal, q) == Fresh(w, cal, q)
  {
    var day, w' := cal(q.date, ZoneOf(q)).value, w.(bookings := w.bookings[id := b]);
    forall staffId | staffId in ListedStaff(w.cat, q) ensures StaffAnswer(w', q, day, staffId) == StaffAnswer(w, q, day, staffId) {
      UnseenBooking(w.bookings, id, b, staffId, day);
    }
    SameStaffAnswers(w, w', cal, q);
  }

  /** A new booking changes an answer if and only if it meets one of the answer's slots. */
  lemma NewBookingChanges(w: World, cal: Calendar, q: Query, id: string, b: Booking)
    requires IntervalOf(q) > 0 && Fresh(w, cal, q).Ok? && cal(q.date, ZoneOf(q)).Some? && id !in w.bookings
    ensures Fresh(w.(bookings := w.bookings[id := b]), cal, q) != Fresh(w, cal, q) <==> Meets(w, cal, q, b)
  {
    var results := Fresh(w, cal, q).value.results;
    if Active(b.status) && TouchesDay(b.span, cal(q.date, ZoneOf(q)).value) && b.staffId in results {
      Bookable.BookingTakesItsSlots(w, cal, q, id, b);
      ClearKeepsAll(results[b.staffId].slots, b.span);
      SamePart(results, b.staffId, Clear(results[b.staffId].slots, b.span));
    } else {
      UnseenChangesNothing(w, cal, q, id, b);
    }
  }

  lemma SamePart(results: map<string, StaffSlots>, id: string, slots: seq<Interval>)
    requires id in results
    ensures results[id := results[id].(slots := slots)] == results <==> slots == results[id].slots
  {
    var after := results[id := results[id].(slots := slots)];
    assert after[id].slots == slots;
    if slots == results[id].slots {
      assert after[id] == results[id];
    }
  }

  /** New time off changes an answer if and only if it meets one of the answer's slots. */
  lemma NewTimeOffChanges(w: World, cal: Calendar, q: Query, id: string, off: TimeOff)
    requires IntervalOf(q) > 0 && Fresh(w, cal, q).Ok? && cal(q.date, ZoneOf(q)).Some? && id !in w.timeOff
    ensures Fresh(w.(timeOff := w.timeOff[id := off]), cal, q) != Fresh(w, cal, q) <==> InTheWay(w, cal, q, off.staffId, off.span)
  {
    var day, results := cal(q.date, ZoneOf(q)).value, Fresh(w, cal, q).value.results;
    if TouchesDay(off.span, day) && off.staffId in results {
      Bookable.TimeOffTakesItsSlots(w, cal, q, id, off);
      ClearKeepsAll(results[off.staffId].slots, off.span);
      SamePart(results, off.staffId, Clear(results[off.staffId].slots, off.span));
    } else {
      var w' := w.(timeOff := w.timeOff[id := off]);
      forall staffId | staffId in ListedStaff(w.cat, q) ensures StaffAnswer(w', q, day, staffId) == StaffAnswer(w, q, day, staffId) {
        Bookable.TimeOffAfter(w.timeOff, id, off, staffId, day);
        assert Blockers(w', staffId, day) == Blockers(w, staffId, day);
      }
      SameStaffAnswers(w, w', cal, q);
    }
  }
}
