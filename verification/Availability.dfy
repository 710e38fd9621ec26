/** Availability: the slots of every staff member who can be booked online for a selection. */
module Availability {
  import opened Wrappers
  import opened Bookings
  import opened Slots
  import Profile = ServiceProfile
  import Hours = WorkingHours

  datatype TimeOff = TimeOff(staffId: string, span: Interval)

  /** What an availability query reads. */
  datatype World = World(cat: Profile.Catalogue, hours: seq<Hours.Row>, timeOff: map<string, TimeOff>,
                         bookings: map<string, Booking>)

  datatype Query = Query(businessId: string, serviceId: string, variantId: Option<string>, addonIds: seq<string>,
                         date: string, staffId: Option<string>, intervalMin: Option<int>, tz: Option<string>)

  /** The local day of a date and a zone, or nothing where either is invalid. */
  type Calendar = (string, string) -> Option<Day>

  datatype StaffSlots = StaffSlots(totalMin: int, slots: seq<Interval>)

  datatype Answer = Answer(intervalMin: int, results: map<string, StaffSlots>)

  datatype Error = InvalidDay | Unresolved(error: Profile.Error)

  function IntervalOf(q: Query): int {
    if q.intervalMin.Some? then q.intervalMin.value else 15
  }

  function ZoneOf(q: Query): string {
    if q.tz.Some? then q.tz.value else "UTC"
  }

  /** An empty staff id asks for everybody. */
  predicate WantsStaff(q: Query) {
    q.staffId.Some? && q.staffId.value != ""
  }

  predicate StaffListed(cat: Profile.Catalogue, q: Query, id: string) {
    && id in cat.staff
    && cat.staff[id].businessId == q.businessId
    && cat.staff[id].active
    && (WantsStaff(q) ==> id == q.staffId.value)
    && (q.serviceId, id) in cat.assignments
    && cat.assignments[(q.serviceId, id)].active
    && cat.assignments[(q.serviceId, id)].online
  }

  function ListedStaff(cat: Profile.Catalogue, q: Query): set<string> {
    set id | id in cat.staff && StaffListed(cat, q, id)
  }

  function SelectionOf(q: Query, staffId: string): Profile.Selection {
    Profile.Selection(q.businessId, q.serviceId, staffId, q.variantId, true)
  }

  function Windows(w: World, staffId: string, day: Day): seq<Hours.Item> {
    Hours.OnDay(Hours.ItemsOf(w.hours, staffId), day.dayOfWeek)
  }

  /** The query's bounds: the day's first instant and its last millisecond. */
  predicate TouchesDay(span: Interval, day: Day) {
    span.start < day.End() && day.start < span.end
  }

  function FetchedBookings(bookings: map<string, Booking>, staffId: string, day: Day): set<Interval> {
    set id | id in bookings && bookings[id].staffId == staffId && Active(bookings[id].status)
             && TouchesDay(bookings[id].span, day) :: bookings[id].span
  }

  function FetchedTimeOff(timeOff: map<string, TimeOff>, staffId: string, day: Day): set<Interval> {
    set id | id in timeOff && timeOff[id].staffId == staffId && TouchesDay(timeOff[id].span, day) :: timeOff[id].span
  }

  function Blockers(w: World, staffId: string, day: Day): set<Interval> {
    FetchedBookings(w.bookings, staffId, day) + FetchedTimeOff(w.timeOff, staffId, day)
  }

  /** One staff member's part of the answer. */
  ghost function StaffAnswer(w: World, q: Query, day: Day, staffId: string): Result<StaffSlots, Error>
    requires IntervalOf(q) > 0
  {
    var profile := Profile.ResolveForSelection(w.cat, SelectionOf(q, staffId), q.addonIds);
    if profile.Err? then Err(Unresolved(profile.error)) else
    var totalMin := profile.value.totalMin;
    Ok(StaffSlots(totalMin, SlotsFor(Windows(w, staffId, day), day, totalMin, IntervalOf(q), Blockers(w, staffId, day))))
  }

  /** What a query answers when it is computed from the tables. */
  ghost function Fresh(w: World, cal: Calendar, q: Query): Result<Answer, Error>
    requires IntervalOf(q) > 0
  {
    var day := cal(q.date, ZoneOf(q));
    var staff := ListedStaff(w.cat, q);
    if day.None? then Err(InvalidDay)
    else if failing :| failing in staff && StaffAnswer(w, q, day.value, failing).Err? then
      Err(StaffAnswer(w, q, day.value, failing).error)
    else Ok(Answer(IntervalOf(q), map id | id in staff :: StaffAnswer(w, q, day.value, id).value))
  }

  /** Whether a selection resolves does not depend on which of the listed staff it names, so the
      order in which they are visited does not show. */
  lemma ListedStaffAgree(w: World, q: Query, day: Day, a: string, b: string)
    requires IntervalOf(q) > 0 && a in ListedStaff(w.cat, q) && b in ListedStaff(w.cat, q)
    ensures var x, y := StaffAnswer(w, q, day, a), StaffAnswer(w, q, day, b);
            x.Ok? == y.Ok? && (x.Err? ==> x.error == y.error)
  {
    Profile.ChoiceResolvesAlike(w.cat, SelectionOf(q, a), SelectionOf(q, b), q.addonIds);
  }

  /** One pass of the loop over the staff. */
  method AnswerForStaff(w: World, q: Query, day: Day, staffId: string) returns (part: Result<StaffSlots, Error>)
    requires IntervalOf(q) > 0
    ensures part == StaffAnswer(w, q, day, staffId)
  {
    var profile := Profile.ResolveForSelection(w.cat, SelectionOf(q, staffId), q.addonIds);
    if profile.Err? {
      return Err(Unresolved(profile.error));
    }
    var totalMin := profile.value.totalMin;
    var working := Windows(w, staffId, day);
    if working == [] {
      return Ok(StaffSlots(totalMin, []));
    }
    var slots := GenerateSlots(working, day, totalMin, IntervalOf(q), FetchedBookings(w.bookings, staffId, day),
                               FetchedTimeOff(w.timeOff, staffId, day));
    return Ok(StaffSlots(totalMin, slots));
  }

  /** The service over a snapshot of the tables; the staff come in any order. */
  method GetAvailability(w: World, cal: Calendar, q: Query) returns (answer: Result<Answer, Error>)
    requires IntervalOf(q) > 0
    ensures answer == Fresh(w, cal, q)
  {
    var staff := set id | id in w.cat.staff && StaffListed(w.cat, q, id);
    var day := cal(q.date, ZoneOf(q));
    if day.None? {
      return Err(InvalidDay);
    }
    var todo, results := staff, map[];
    while todo != {}
      invariant todo <= staff == ListedStaff(w.cat, q) && results.Keys == staff - todo
      invariant forall id | id in results :: StaffAnswer(w, q, day.value, id) == Ok(results[id])
      decreases |todo|
    {
      var id :| id in todo;
      var part := AnswerForStaff(w, q, day.value, id);
      if part.Err? {
        FailsForAll(w, cal, q, id);
        return Err(part.error);
      }
      results := results[id := part.value];
      todo := todo - {id};
    }
    AllAnswered(w, cal, q, results);
    return Ok(Answer(IntervalOf(q), results));
  }

  lemma AllAnswered(w: World, cal: Calendar, q: Query, results: map<string, StaffSlots>)
    requires IntervalOf(q) > 0 && cal(q.date, ZoneOf(q)).Some? && results.Keys == ListedStaff(w.cat, q)
    requires forall id | id in results :: StaffAnswer(w, q, cal(q.date, ZoneOf(q)).value, id) == Ok(results[id])
    ensures Fresh(w, cal, q) == Ok(Answer(IntervalOf(q), results))
  {
    var day := cal(q.date, ZoneOf(q)).value;
    var staff := ListedStaff(w.cat, q);
    assert forall id | id in staff :: StaffAnswer(w, q, day, id).Ok?;
    assert results == map id | id in staff :: StaffAnswer(w, q, day, id).value;
  }

  lemma FailsForAll(w: World, cal: Calendar, q: Query, id: string)
    requires IntervalOf(q) > 0 && cal(q.date, ZoneOf(q)).Some? && id in ListedStaff(w.cat, q)
    requires StaffAnswer(w, q, cal(q.date, ZoneOf(q)).value, id).Err?
    ensures Fresh(w, cal, q) == Err(StaffAnswer(w, q, cal(q.date, ZoneOf(q)).value, id).error)
  {
    var day := cal(q.date, ZoneOf(q)).value;
    forall other | other in ListedStaff(w.cat, q)
      ensures StaffAnswer(w, q, day, other).Err?
      ensures StaffAnswer(w, q, day, other).error == StaffAnswer(w, q, day, id).error
    {
      ListedStaffAgree(w, q, day, id, other);
    }
  }

  lemma AnswerParts(w: World, cal: Calendar, q: Query, staffId: string)
    requires IntervalOf(q) > 0 && Fresh(w, cal, q).Ok? && staffId in Fresh(w, cal, q).value.results
    ensures StaffListed(w.cat, q, staffId) && cal(q.date, ZoneOf(q)).Some?
    ensures Profile.ResolveForSelection(w.cat, SelectionOf(q, staffId), q.addonIds).Ok?
    ensures var day := cal(q.date, ZoneOf(q)).value;
            var part := Fresh(w, cal, q).value.results[staffId];
            var totalMin := Profile.ResolveForSelection(w.cat, SelectionOf(q, staffId), q.addonIds).value.totalMin;
            && part.totalMin == totalMin
            && DistinctStarts(part.slots)
            && part.slots == SlotsFor(Windows(w, staffId, day), day, totalMin, IntervalOf(q), Blockers(w, staffId, day))
            && forall slot :: slot in part.slots <==>
                 && slot == SpanFor(slot.start, totalMin)
                 && OnSomeGrid(Windows(w, staffId, day), day, totalMin, IntervalOf(q), slot.start)
                 && Free(slot, Blockers(w, staffId, day))
  {
    var day := cal(q.date, ZoneOf(q)).value;
    assert StaffAnswer(w, q, day, staffId).Ok?;
    var totalMin := Profile.ResolveForSelection(w.cat, SelectionOf(q, staffId), q.addonIds).value.totalMin;
    SlotsExact(Windows(w, staffId, day), day, totalMin, IntervalOf(q), Blockers(w, staffId, day));
  }

  /** Some row of the staff member's hours for the weekday begins a whole number of intervals
      before the slot and ends no sooner than the slot. */
  ghost predicate WorksIn(w: World, staffId: string, day: Day, intervalMin: int, slot: Interval)
    requires intervalMin > 0
  {
    exists row :: row in w.hours && row.staffId == staffId && row.item.dayOfWeek == day.dayOfWeek
                  && day.toInstant(row.item.startMin) <= slot.start
                  && (slot.start - day.toInstant(row.item.startMin)) % (intervalMin * 60_000) == 0
                  && slot.end <= day.toInstant(row.item.endMin)
  }

  lemma WorksInWindow(w: World, staffId: string, day: Day, totalMin: int, intervalMin: int, slot: Interval)
    requires intervalMin > 0 && slot.end == slot.start + totalMin * 60_000
    ensures OnSomeGrid(Windows(w, staffId, day), day, totalMin, intervalMin, slot.start) <==> WorksIn(w, staffId, day, intervalMin, slot)
  {
    var items, windows := Hours.ItemsOf(w.hours, staffId), Windows(w, staffId, day);
    Hours.ItemsOfMembers(w.hours, staffId);
    Hours.OnDayMembers(items, day.dayOfWeek);
    if OnSomeGrid(windows, day, totalMin, intervalMin, slot.start) {
      var i :| 0 <= i < |windows| && InWindow(windows[i], day, totalMin, intervalMin, slot.start);
      OnGridExact(day.toInstant(windows[i].startMin), intervalMin, slot.start);
      assert windows[i] in windows && Hours.Row(staffId, windows[i]) in w.hours;
    }
    if WorksIn(w, staffId, day, intervalMin, slot) {
      var row :| row in w.hours && row.staffId == staffId && row.item.dayOfWeek == day.dayOfWeek
                 && day.toInstant(row.item.startMin) <= slot.start
                 && (slot.start - day.toInstant(row.item.startMin)) % (intervalMin * 60_000) == 0
                 && slot.end <= day.toInstant(row.item.endMin);
      assert row == Hours.Row(staffId, row.item) && row.item in windows;
      OnGridExact(day.toInstant(row.item.startMin), intervalMin, slot.start);
      var i :| 0 <= i < |windows| && windows[i] == row.item;
      assert InWindow(windows[i], day, totalMin, intervalMin, slot.start);
    }
  }

  /** The day query misses the span, or the span is beside the slot. */
  ghost predicate Beside(span: Interval, day: Day, slot: Interval) {
    day.next - 1 <= span.start || span.end <= day.start || slot.end <= span.start || span.end <= slot.start
  }

  lemma FreeOfBlockers(w: World, staffId: string, day: Day, slot: Interval)
    ensures Free(slot, Blockers(w, staffId, day)) <==>
            && (forall id | id in w.bookings && w.bookings[id].staffId == staffId
                            && (w.bookings[id].status == Pending || w.bookings[id].status == Confirmed) ::
                  Beside(w.bookings[id].span, day, slot))
            && (forall id | id in w.timeOff && w.timeOff[id].staffId == staffId :: Beside(w.timeOff[id].span, day, slot))
  {
    var blockers := Blockers(w, staffId, day);
    if Free(slot, blockers) {
      forall id | id in w.bookings && w.bookings[id].staffId == staffId && Active(w.bookings[id].status)
        ensures Beside(w.bookings[id].span, day, slot)
      {
        assert TouchesDay(w.bookings[id].span, day) ==> w.bookings[id].span in blockers;
      }
      forall id | id in w.timeOff && w.timeOff[id].staffId == staffId ensures Beside(w.timeOff[id].span, day, slot) {
        assert TouchesDay(w.timeOff[id].span, day) ==> w.timeOff[id].span in blockers;
      }
    }
  }

  /** What an answer holds for a listed staff member: exactly the slots as long as the selection
      that lie in the hours of the weekday and are beside every pending or confirmed booking and
      every time off that the day query sees. */
  lemma AnswerExact(w: World, cal: Calendar, q: Query, staffId: string, slot: Interval)
    requires IntervalOf(q) > 0 && Fresh(w, cal, q).Ok? && staffId in Fresh(w, cal, q).value.results
    ensures cal(q.date, if q.tz.Some? then q.tz.value else "UTC").Some?
    ensures var day := cal(q.date, if q.tz.Some? then q.tz.value else "UTC").value;
            var part := Fresh(w, cal, q).value.results[staffId];
            && DistinctStarts(part.slots)
            && (slot in part.slots <==>
                && slot.end == slot.start + part.totalMin * 60_000
                && WorksIn(w, staffId, day, if q.intervalMin.Some? then q.intervalMin.value else 15, slot)
                && (forall id | id in w.bookings && w.bookings[id].staffId == staffId
                                && (w.bookings[id].status == Pending || w.bookings[id].status == Confirmed) ::
                      Beside(w.bookings[id].span, day, slot))
                && (forall id | id in w.timeOff && w.timeOff[id].staffId == staffId :: Beside(w.timeOff[id].span, day, slot)))
  {
    var day := cal(q.date, ZoneOf(q)).value;
    var totalMin := Fresh(w, cal, q).value.results[staffId].totalMin;
    AnswerParts(w, cal, q, staffId);
    FreeOfBlockers(w, staffId, day, slot);
    if slot.end == slot.start + totalMin * 60_000 {
      WorksInWindow(w, staffId, day, totalMin, IntervalOf(q), slot);
    }
  }

  /** Who can be asked for: active staff of the business with an active online assignment to the
      service, all of them or the one that is named. */
  ghost predicate BookableOnline(cat: Profile.Catalogue, q: Query, id: string) {
    && id in cat.staff && cat.staff[id].businessId == q.businessId && cat.staff[id].active
    && (q.serviceId, id) in cat.assignments
    && cat.assignments[(q.serviceId, id)].active && cat.assignments[(q.serviceId, id)].online
    && (q.staffId == None || q.staffId == Some("") || q.staffId == Some(id))
  }

  /** There is an answer exactly when the day is valid and the selection resolves for everybody
      who can be asked for, and it tells the length for exactly these. */
  lemma AnsweredExactly(w: World, cal: Calendar, q: Query, id: string)
    requires IntervalOf(q) > 0
    ensures Fresh(w, cal, q) == Err(InvalidDay) <==> cal(q.date, if q.tz.Some? then q.tz.value else "UTC").None?
    ensures Fresh(w, cal, q).Ok? <==>
            && cal(q.date, if q.tz.Some? then q.tz.value else "UTC").Some?
            && forall other | BookableOnline(w.cat, q, other) ::
                 Profile.ResolveForSelection(w.cat, Profile.Selection(q.businessId, q.serviceId, other, q.variantId, true), q.addonIds).Ok?
    ensures Fresh(w, cal, q).Ok? ==>
              var answer := Fresh(w, cal, q).value;
              && answer.intervalMin == (if q.intervalMin.Some? then q.intervalMin.value else 15)
              && (id in answer.results <==> BookableOnline(w.cat, q, id))
              && (id in answer.results ==>
                  var sel := Profile.Selection(q.businessId, q.serviceId, id, q.variantId, true);
                  && Profile.ResolveForSelection(w.cat, sel, q.addonIds).Ok?
                  && answer.results[id].totalMin == Profile.ResolveForSelection(w.cat, sel, q.addonIds).value.totalMin)
  {
    var day := cal(q.date, ZoneOf(q));
    forall other ensures other in ListedStaff(w.cat, q) <==> BookableOnline(w.cat, q, other) {
      assert StaffListed(w.cat, q, other) <==> BookableOnline(w.cat, q, other);
    }
    if day.Some? {
      if failing :| failing in ListedStaff(w.cat, q) && StaffAnswer(w, q, day.value, failing).Err? {
        FailsForAll(w, cal, q, failing);
      } else {
        AllAnswered(w, cal, q, map other | other in ListedStaff(w.cat, q) :: StaffAnswer(w, q, day.value, other).value);
      }
    }
  }
}
