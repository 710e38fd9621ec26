/** How old and how wrong a cached availability answer can be. Requests and writes interleave; a
    request that misses computes its answer in one step and stores it in a later one. */
module CacheProtocol {
  import opened Wrappers
  import opened Bookings
  import opened AnswerChanges
  import opened Availability
  import opened CacheKeys
  import opened Cache
  import Profile = ServiceProfile

  datatype Computation = Computation(q: Query, answer: Result<Answer, Availability.Error>, at: int)

  datatype State = State(clock: int, world: World, entries: map<string, Entry<Answer>>, pending: map<nat, Computation>)

  datatype Config = Config(prefix: string, cal: Calendar, ttlSec: int)

  datatype Event =
    | Tick(to: int)
    // any change of the tables, with the key prefix that is dropped afterwards, if any
    | Write(world: World, drop: Option<string>)
    | Hit(q: Query)
    | Miss(id: nat, q: Query)
    | Store(id: nat)

  ghost predicate Init(s: State) {
    s.entries == map[] && s.pending == map[]
  }

  ghost predicate Askable(q: Query) {
    Validated(q) && PlainIds(q)
  }

  ghost predicate Enabled(c: Config, s: State, e: Event) {
    match e
    case Tick(to) => to >= s.clock
    case Write(_, _) => true
    case Hit(q) => Askable(q) && Exists(s.entries, s.clock, KeyOf(c.prefix, q))
    case Miss(id, q) => Askable(q) && id !in s.pending && !Exists(s.entries, s.clock, KeyOf(c.prefix, q))
    case Store(id) => id in s.pending
  }

  ghost function Apply(c: Config, s: State, e: Event): State
    requires Enabled(c, s, e)
  {
    match e
    case Tick(to) => s.(clock := to)
    case Write(world, drop) =>
      s.(world := world, entries := if drop.Some? then Dropped(s.entries, drop.value) else s.entries)
    case Hit(_) => s
    case Miss(id, q) => s.(pending := s.pending[id := Computation(q, Fresh(s.world, c.cal, q), s.clock)])
    case Store(id) =>
      var p := s.pending[id];
      var s' := s.(pending := s.pending - {id});
      if p.answer.Err? then s'
      else s'.(entries := s.entries[KeyOf(c.prefix, p.q) := Entry(p.answer.value, Expiry(s.clock, c.ttlSec))])
  }

  ghost predicate IsRun(c: Config, es: seq<Event>, ss: seq<State>) {
    && |ss| == |es| + 1
    && Init(ss[0])
    && forall i {:trigger es[i]} | 0 <= i < |es| :: Enabled(c, ss[i], es[i]) && ss[i + 1] == Apply(c, ss[i], es[i])
  }

  /** What the caller is told at an event, and for which query. */
  ghost predicate Answers(c: Config, s: State, e: Event, q: Query, answer: Result<Answer, Availability.Error>)
    requires Enabled(c, s, e)
  {
    match e
    case Hit(r) => r == q && answer == Ok(s.entries[KeyOf(c.prefix, q)].value)
    case Store(id) => s.pending[id].q == q && s.pending[id].answer == answer
    case _ => false
  }

  /** A call that nothing interleaves with is a hit while the entry lives, or else a miss and its
      store: the caller is told, and the entries become, what the controller's method says. */
  lemma ServedInSteps(c: Config, s: State, id: nat, q: Query)
    requires Askable(q) && id !in s.pending
    ensures var key := KeyOf(c.prefix, q);
            if key in s.entries && (s.entries[key].expiresAt == None || s.clock < s.entries[key].expiresAt.value)
            then
              && Enabled(c, s, Hit(q)) && !Enabled(c, s, Miss(id, q))
              && Apply(c, s, Hit(q)) == s && Answers(c, s, Hit(q), q, Ok(s.entries[key].value))
            else
              var answer, asked := Fresh(s.world, c.cal, q), Miss(id, q);
              && !Enabled(c, s, Hit(q)) && Enabled(c, s, asked) && Enabled(c, Apply(c, s, asked), Store(id))
              && Answers(c, Apply(c, s, asked), Store(id), q, answer)
              && Apply(c, Apply(c, s, asked), Store(id))
                 == if answer.Err? then s
                    else s.(entries := s.entries[key := Entry(answer.value,
                                                              if c.ttlSec > 0 then Some(s.clock + c.ttlSec * 1000) else None)])
  {
    if !Enabled(c, s, Hit(q)) {
      var s' := Apply(c, s, Miss(id, q));
      assert s'.pending - {id} == s.pending;
    }
  }

  /** Every store follows its computation within `delay`. */
  ghost predicate StoresWithin(es: seq<Event>, ss: seq<State>, delay: int)
    requires |ss| == |es| + 1
  {
    forall i {:trigger es[i]} | 0 <= i < |es| && es[i].Store? ::
      es[i].id in ss[i].pending ==> ss[i].clock - ss[i].pending[es[i].id].at <= delay
  }

  ghost predicate ComputedAt(c: Config, s: State, q: Query, answer: Result<Answer, Availability.Error>) {
    Askable(q) && answer == Fresh(s.world, c.cal, q)
  }

  ghost predicate PendingOk(c: Config, ss: seq<State>, i: nat, p: Computation)
    requires i < |ss|
  {
    exists j :: 0 <= j <= i && ComputedAt(c, ss[j], p.q, p.answer) && ss[j].clock == p.at
  }

  ghost predicate EntryOk(c: Config, ss: seq<State>, i: nat, delay: int, key: string, entry: Entry<Answer>)
    requires i < |ss|
  {
    exists j, q :: 0 <= j <= i && ComputedAt(c, ss[j], q, Ok(entry.value)) && key == KeyOf(c.prefix, q)
                   && entry.expiresAt.Some? && entry.expiresAt.value <= ss[j].clock + delay + c.ttlSec * 1000
  }

  ghost predicate Inv(c: Config, ss: seq<State>, i: nat, delay: int)
    requires i < |ss|
  {
    && (forall id | id in ss[i].pending :: PendingOk(c, ss, i, ss[i].pending[id]))
    && (forall key | key in ss[i].entries :: EntryOk(c, ss, i, delay, key, ss[i].entries[key]))
  }

  lemma EntryLater(c: Config, ss: seq<State>, i: nat, delay: int, key: string, entry: Entry<Answer>)
    requires i + 1 < |ss| && EntryOk(c, ss, i, delay, key, entry)
    ensures EntryOk(c, ss, i + 1, delay, key, entry)
  {
    var j, q :| 0 <= j <= i && ComputedAt(c, ss[j], q, Ok(entry.value)) && key == KeyOf(c.prefix, q)
                && entry.expiresAt.Some? && entry.expiresAt.value <= ss[j].clock + delay + c.ttlSec * 1000;
  }

  lemma StoredEntry(c: Config, ss: seq<State>, i: nat, delay: int, p: Computation)
    requires i + 1 < |ss| && c.ttlSec > 0 && PendingOk(c, ss, i, p) && p.answer.Ok? && ss[i].clock - p.at <= delay
    ensures EntryOk(c, ss, i + 1, delay, KeyOf(c.prefix, p.q), Entry(p.answer.value, Expiry(ss[i].clock, c.ttlSec)))
  {
    var j :| 0 <= j <= i && ComputedAt(c, ss[j], p.q, p.answer) && ss[j].clock == p.at;
    assert ComputedAt(c, ss[j], p.q, Ok(p.answer.value));
  }

  lemma NextPending(c: Config, es: seq<Event>, ss: seq<State>, i: nat, id: nat)
    requires IsRun(c, es, ss) && i < |es| && id in ss[i + 1].pending
    requires id in ss[i].pending ==> PendingOk(c, ss, i, ss[i].pending[id])
    ensures PendingOk(c, ss, i + 1, ss[i + 1].pending[id])
  {
    var p := ss[i + 1].pending[id];
    if es[i].Miss? && es[i].id == id {
      assert ComputedAt(c, ss[i], p.q, p.answer);
    } else {
      assert PendingOk(c, ss, i, p);
    }
  }

  lemma NextEntry(c: Config, es: seq<Event>, ss: seq<State>, i: nat, delay: int, key: string)
    requires IsRun(c, es, ss) && i < |es| && StoresWithin(es, ss, delay) && c.ttlSec > 0 && key in ss[i + 1].entries
    requires key in ss[i].entries ==> EntryOk(c, ss, i, delay, key, ss[i].entries[key])
    requires es[i].Store? ==> PendingOk(c, ss, i, ss[i].pending[es[i].id])
    ensures EntryOk(c, ss, i + 1, delay, key, ss[i + 1].entries[key])
  {
    if key in ss[i].entries && ss[i].entries[key] == ss[i + 1].entries[key] {
      EntryLater(c, ss, i, delay, key, ss[i].entries[key]);
    } else {
      StoredEntry(c, ss, i, delay, ss[i].pending[es[i].id]);
    }
  }

  lemma NextInv(c: Config, es: seq<Event>, ss: seq<State>, i: nat, delay: int)
    requires IsRun(c, es, ss) && i < |es| && StoresWithin(es, ss, delay) && c.ttlSec > 0 && Inv(c, ss, i, delay)
    ensures Inv(c, ss, i + 1, delay)
  {
    var s' := ss[i + 1];
    forall id | id in s'.pending ensures PendingOk(c, ss, i + 1, s'.pending[id]) {
      NextPending(c, es, ss, i, id);
    }
    forall key | key in s'.entries ensures EntryOk(c, ss, i + 1, delay, key, s'.entries[key]) {
      NextEntry(c, es, ss, i, delay, key);
    }
  }

  lemma {:induction false} RunKeepsInv(c: Config, es: seq<Event>, ss: seq<State>, i: nat, delay: int)
    requires IsRun(c, es, ss) && i < |ss| && StoresWithin(es, ss, delay) && c.ttlSec > 0
    ensures Inv(c, ss, i, delay)
    decreases i
  {
    if i > 0 {
      RunKeepsInv(c, es, ss, i - 1, delay);
      NextInv(c, es, ss, i - 1, delay);
    }
  }

  /** The answer is what the service would have computed in some state no older than `age`. */
  ghost predicate AsOf(c: Config, ss: seq<State>, i: nat, q: Query, answer: Result<Answer, Availability.Error>, age: int)
    requires i < |ss|
  {
    exists j :: 0 <= j <= i && ComputedAt(c, ss[j], q, answer) && ss[i].clock - ss[j].clock < age
  }

  /** Every answer was right less than the TTL ago, not counting the time its store took; with
      compute and store in one step, less than the TTL ago. */
  lemma AnswersAreRecent(c: Config, es: seq<Event>, ss: seq<State>, i: nat, delay: int, q: Query,
                         answer: Result<Answer, Availability.Error>)
    requires IsRun(c, es, ss) && i < |es| && StoresWithin(es, ss, delay) && c.ttlSec > 0
    requires Answers(c, ss[i], es[i], q, answer)
    ensures AsOf(c, ss, i, q, answer, c.ttlSec * 1000 + delay)
  {
    var s := ss[i];
    RunKeepsInv(c, es, ss, i, delay);
    if es[i].Hit? {
      var key := KeyOf(c.prefix, q);
      assert EntryOk(c, ss, i, delay, key, s.entries[key]);
      var j, r :| 0 <= j <= i && ComputedAt(c, ss[j], r, Ok(s.entries[key].value)) && key == KeyOf(c.prefix, r)
                  && s.entries[key].expiresAt.value <= ss[j].clock + delay + c.ttlSec * 1000;
      SameKeySameAnswer(c.prefix, ss[j].world, c.cal, q, r);
      assert ComputedAt(c, ss[j], q, answer);
    } else {
      var p := s.pending[es[i].id];
      assert PendingOk(c, ss, i, p);
      var j :| 0 <= j <= i && ComputedAt(c, ss[j], p.q, p.answer) && ss[j].clock == p.at;
    }
  }

  /** Whether online queries for the service look at the staff member at all. */
  predicate OffersOnline(cat: Profile.Catalogue, staffId: string, serviceId: string) {
    var k := (serviceId, staffId);
    k in cat.assignments && cat.assignments[k].active && cat.assignments[k].online
  }

  /** A change that drops every availability entry, as working hours and time off do. */
  ghost predicate DropsAll(c: Config, e: Event) {
    e.Write? && e.drop == Some(AvailabilityPrefix(c.prefix))
  }

  /** A booking made or changed, with its service's entries dropped. */
  ghost predicate BooksAs(c: Config, w: World, e: Event, id: string, b: Booking) {
    && e.Write?
    && e.world == w.(bookings := w.bookings[id := b])
    && ':' !in b.businessId && ':' !in b.serviceId
    && e.drop == Some(ServicePrefix(c.prefix, b.businessId, b.serviceId))
    && (id in w.bookings ==> w.bookings[id].staffId == b.staffId)
  }

  predicate Covers(b: Booking, businessId: string, serviceId: string) {
    b.businessId == businessId && b.serviceId <= serviceId
  }

  /** A new booking that is in the way of no slot of the service's cached answers. */
  ghost predicate MeetsNoEntry(c: Config, s: State, id: string, b: Booking, businessId: string, serviceId: string) {
    && id !in s.world.bookings
    && forall q | Cached(c, s, q, businessId, serviceId) && Fresh(s.world, c.cal, q).Ok? :: !Meets(s.world, c.cal, q, b)
  }

  ghost predicate Cached(c: Config, s: State, q: Query, businessId: string, serviceId: string) {
    Askable(q) && q.businessId == businessId && q.serviceId == serviceId && KeyOf(c.prefix, q) in s.entries
  }

  /** Writes after which the service's cached answers are right: those that drop everything,
      bookings whose prefix covers the service, bookings of staff who do not offer it, and new
      bookings that are in no cached answer's way. */
  ghost predicate Harmless(c: Config, s: State, e: Event, businessId: string, serviceId: string) {
    || DropsAll(c, e)
    || exists id, b :: BooksAs(c, s.world, e, id, b)
                       && (|| Covers(b, businessId, serviceId) || !OffersOnline(s.world.cat, b.staffId, serviceId)
                           || MeetsNoEntry(c, s, id, b, businessId, serviceId))
  }

  /** No write falls between a computation and its store, and all writes are harmless. */
  ghost predicate SerialAndHarmless(c: Config, es: seq<Event>, ss: seq<State>, businessId: string, serviceId: string)
    requires |ss| == |es| + 1
  {
    forall i {:trigger es[i]} | 0 <= i < |es| && es[i].Write? ::
      ss[i].pending == map[] && Harmless(c, ss[i], es[i], businessId, serviceId)
  }

  ghost predicate Current(c: Config, s: State, businessId: string, serviceId: string) {
    && (forall id | id in s.pending :: ComputedAt(c, s, s.pending[id].q, s.pending[id].answer))
    && (forall q | Cached(c, s, q, businessId, serviceId) ::
          Fresh(s.world, c.cal, q) == Ok(s.entries[KeyOf(c.prefix, q)].value))
  }

  /** A booking of somebody whom the query does not list leaves its answer alone. */
  lemma BookingElsewhere(w: World, cal: Calendar, q: Query, id: string, b: Booking)
    requires IntervalOf(q) > 0 && !OffersOnline(w.cat, b.staffId, q.serviceId)
    requires id in w.bookings ==> w.bookings[id].staffId == b.staffId
    ensures Fresh(w.(bookings := w.bookings[id := b]), cal, q) == Fresh(w, cal, q)
  {
    var w' := w.(bookings := w.bookings[id := b]);
    var day := cal(q.date, ZoneOf(q));
    if day.Some? {
      forall staffId | staffId in ListedStaff(w.cat, q)
        ensures StaffAnswer(w', q, day.value, staffId) == StaffAnswer(w, q, day.value, staffId)
      {
        UnseenBooking(w.bookings, id, b, staffId, day.value);
      }
      SameStaffAnswers(w, w', cal, q);
    }
  }

  lemma BookingKeepsEntry(c: Config, s: State, e: Event, id: string, b: Booking, q: Query)
    requires Askable(q) && BooksAs(c, s.world, e, id, b) && KeyOf(c.prefix, q) in Apply(c, s, e).entries
    requires Fresh(s.world, c.cal, q) == Ok(s.entries[KeyOf(c.prefix, q)].value)
    requires Covers(b, q.businessId, q.serviceId) || !OffersOnline(s.world.cat, b.staffId, q.serviceId)
             || (id !in s.world.bookings && !Meets(s.world, c.cal, q, b))
    ensures Fresh(e.world, c.cal, q) == Fresh(s.world, c.cal, q)
  {
    ServicePrefixExact(c.prefix, b.businessId, b.serviceId, q);
    if !OffersOnline(s.world.cat, b.staffId, q.serviceId) {
      BookingElsewhere(s.world, c.cal, q, id, b);
    } else {
      NewBookingChanges(s.world, c.cal, q, id, b);
    }
  }

  lemma WriteKeepsCurrent(c: Config, s: State, e: Event, businessId: string, serviceId: string)
    requires e.Write? && s.pending == map[] && Current(c, s, businessId, serviceId)
    requires Harmless(c, s, e, businessId, serviceId)
    ensures Current(c, Apply(c, s, e), businessId, serviceId)
  {
    var s' := Apply(c, s, e);
    forall q | Cached(c, s', q, businessId, serviceId)
      ensures Fresh(s'.world, c.cal, q) == Ok(s'.entries[KeyOf(c.prefix, q)].value)
    {
      AvailabilityPrefixCovers(c.prefix, q);
      assert Cached(c, s, q, businessId, serviceId) && !DropsAll(c, e);
      var id, b :| BooksAs(c, s.world, e, id, b)
                   && (|| Covers(b, businessId, serviceId) || !OffersOnline(s.world.cat, b.staffId, serviceId)
                       || MeetsNoEntry(c, s, id, b, businessId, serviceId));
      BookingKeepsEntry(c, s, e, id, b, q);
    }
  }

  lemma StoreKeepsCurrent(c: Config, s: State, id: nat, businessId: string, serviceId: string)
    requires id in s.pending && Current(c, s, businessId, serviceId)
    ensures Current(c, Apply(c, s, Store(id)), businessId, serviceId)
  {
    var p, s' := s.pending[id], Apply(c, s, Store(id));
    forall q | Cached(c, s', q, businessId, serviceId)
      ensures Fresh(s'.world, c.cal, q) == Ok(s'.entries[KeyOf(c.prefix, q)].value)
    {
      if p.answer.Ok? && KeyOf(c.prefix, q) == KeyOf(c.prefix, p.q) {
        SameKeySameAnswer(c.prefix, s.world, c.cal, q, p.q);
      }
    }
  }

  lemma NextCurrent(c: Config, es: seq<Event>, ss: seq<State>, i: nat, businessId: string, serviceId: string)
    requires IsRun(c, es, ss) && i < |es| && SerialAndHarmless(c, es, ss, businessId, serviceId)
    requires Current(c, ss[i], businessId, serviceId)
    ensures Current(c, ss[i + 1], businessId, serviceId)
  {
    var s, e := ss[i], es[i];
    match e
    case Write(_, _) => WriteKeepsCurrent(c, s, e, businessId, serviceId);
    case Store(id) => StoreKeepsCurrent(c, s, id, businessId, serviceId);
    case _ =>
  }

  lemma {:induction false} RunKeepsCurrent(c: Config, es: seq<Event>, ss: seq<State>, i: nat, businessId: string, serviceId: string)
    requires IsRun(c, es, ss) && i < |ss| && SerialAndHarmless(c, es, ss, businessId, serviceId)
    ensures Current(c, ss[i], businessId, serviceId)
    decreases i
  {
    if i > 0 {
      RunKeepsCurrent(c, es, ss, i - 1, businessId, serviceId);
      NextCurrent(c, es, ss, i - 1, businessId, serviceId);
    }
  }

  /** In serial runs whose writes are of those kinds, every answer for the service is the one the
      tables give at that moment, whatever the TTL. */
  lemma ServiceAnswersAreCurrent(c: Config, es: seq<Event>, ss: seq<State>, i: nat, q: Query,
                                 answer: Result<Answer, Availability.Error>)
    requires IsRun(c, es, ss) && i < |es| && SerialAndHarmless(c, es, ss, q.businessId, q.serviceId)
    requires Answers(c, ss[i], es[i], q, answer)
    ensures Askable(q) && answer == Fresh(ss[i].world, c.cal, q)
  {
    RunKeepsCurrent(c, es, ss, i, q.businessId, q.serviceId);
  }

  lemma Extend(c: Config, es: seq<Event>, ss: seq<State>, e: Event, s: State)
    requires IsRun(c, es, ss) && Enabled(c, ss[|es|], e) && s == Apply(c, ss[|es|], e)
    ensures IsRun(c, es + [e], ss + [s])
  {
    var es', ss' := es + [e], ss + [s];
    forall i {:trigger es'[i]} | 0 <= i < |es'| ensures Enabled(c, ss'[i], es'[i]) && ss'[i + 1] == Apply(c, ss'[i], es'[i]) {
      if i < |es| {
        assert es'[i] == es[i] && ss'[i] == ss[i] && ss'[i + 1] == ss[i + 1];
      }
    }
  }

  /** The caller is told something else than the tables give. */
  ghost predicate Stale(c: Config, s: State, e: Event, q: Query)
    requires Askable(q)
  {
    Enabled(c, s, e) && exists answer :: Answers(c, s, e, q, answer) && answer != Fresh(s.world, c.cal, q)
  }

  /** The run that asks, writes, waits and asks again. */
  ghost function AskWriteAsk(q: Query, world: World, drop: Option<string>, to: int): seq<Event> {
    [Miss(0, q), Store(0), Write(world, drop), Tick(to), Hit(q)]
  }

  ghost function AnswerCached(c: Config, w: World, q: Query): State
    requires Askable(q) && Fresh(w, c.cal, q).Ok?
  {
    State(0, w, map[KeyOf(c.prefix, q) := Entry(Fresh(w, c.cal, q).value, Expiry(0, c.ttlSec))], map[])
  }

  lemma CacheAnAnswer(c: Config, w: World, q: Query) returns (ss: seq<State>)
    requires Askable(q) && Fresh(w, c.cal, q).Ok?
    ensures |ss| == 3 && IsRun(c, [Miss(0, q), Store(0)], ss) && ss[2] == AnswerCached(c, w, q)
  {
    var s0 := State(0, w, map[], map[]);
    var s1 := s0.(pending := map[0 := Computation(q, Fresh(w, c.cal, q), 0)]);
    assert s1.pending - {0} == map[];
    Extend(c, [], [s0], Miss(0, q), s1);
    Extend(c, [Miss(0, q)], [s0, s1], Store(0), AnswerCached(c, w, q));
    ss := [s0, s1, AnswerCached(c, w, q)];
  }

  lemma StaleHit(c: Config, w: World, w': World, q: Query, drop: Option<string>, to: int) returns (ss: seq<State>)
    requires Askable(q) && Fresh(w, c.cal, q).Ok? && 0 <= to && (c.ttlSec > 0 ==> to < c.ttlSec * 1000)
    requires Fresh(w', c.cal, q) != Fresh(w, c.cal, q) && (drop.Some? ==> !(drop.value <= KeyOf(c.prefix, q)))
    ensures IsRun(c, AskWriteAsk(q, w', drop, to), ss)
    ensures ss[2].world == w && ss[2].clock == 0 && ss[3].world == ss[4].world == w' && ss[4].clock == to
    ensures Stale(c, ss[4], Hit(q), q)
  {
    ss := CacheAnAnswer(c, w, q);
    var s2 := AnswerCached(c, w, q);
    var s3 := s2.(world := w');
    var s4 := s3.(clock := to);
    assert drop.Some? ==> Dropped(s2.entries, drop.value) == s2.entries;
    Extend(c, [Miss(0, q), Store(0)], ss, Write(w', drop), s3);
    Extend(c, [Miss(0, q), Store(0), Write(w', drop)], ss + [s3], Tick(to), s4);
    Extend(c, [Miss(0, q), Store(0), Write(w', drop), Tick(to)], ss + [s3] + [s4], Hit(q), s4);
    ss := ss + [s3] + [s4] + [s4];
    assert Answers(c, s4, Hit(q), q, Fresh(w, c.cal, q));
  }

  /** Without a positive TTL a change that drops nothing can be missed for ever. */
  lemma StaleForEver(c: Config, w: World, w': World, q: Query, to: nat) returns (es: seq<Event>, ss: seq<State>)
    requires c.ttlSec <= 0 && Askable(q) && Fresh(w, c.cal, q).Ok? && Fresh(w', c.cal, q) != Fresh(w, c.cal, q)
    ensures IsRun(c, es, ss) && |es| == 5 && ss[2].clock == 0 && ss[3].world == w' && ss[4].clock == to
    ensures Stale(c, ss[4], es[4], q)
  {
    es := AskWriteAsk(q, w', None, to);
    ss := StaleHit(c, w, w', q, None, to);
  }

  lemma LateStore(c: Config, w: World, w': World, q: Query, drop: Option<string>) returns (es: seq<Event>, ss: seq<State>)
    requires Askable(q) && Fresh(w, c.cal, q).Ok?
    ensures IsRun(c, es, ss) && es == [Miss(0, q), Write(w', drop), Store(0)] && ss[3].clock == 0 && ss[3].world == w'
    ensures ss[3].entries == map[KeyOf(c.prefix, q) := Entry(Fresh(w, c.cal, q).value, Expiry(0, c.ttlSec))]
  {
    var s0 := State(0, w, map[], map[]);
    var s1 := s0.(pending := map[0 := Computation(q, Fresh(w, c.cal, q), 0)]);
    var s2 := s1.(world := w');
    var entry := Entry(Fresh(w, c.cal, q).value, Expiry(0, c.ttlSec));
    var s3 := s2.(pending := map[], entries := map[KeyOf(c.prefix, q) := entry]);
    assert drop.Some? ==> Dropped(s1.entries, drop.value) == s1.entries;
    assert s2.pending - {0} == map[];
    Extend(c, [], [s0], Miss(0, q), s1);
    Extend(c, [Miss(0, q)], [s0, s1], Write(w', drop), s2);
    Extend(c, [Miss(0, q), Write(w', drop)], [s0, s1, s2], Store(0), s3);
    es, ss := [Miss(0, q), Write(w', drop), Store(0)], [s0, s1, s2, s3];
  }

  /** Serial runs matter: a write between a computation and its store leaves a stale entry,
      whatever it drops. */
  lemma LateStoreStaysCached(c: Config, w: World, w': World, q: Query, drop: Option<string>) returns (es: seq<Event>, ss: seq<State>)
    requires Askable(q) && Fresh(w, c.cal, q).Ok? && Fresh(w', c.cal, q) != Fresh(w, c.cal, q)
    ensures IsRun(c, es, ss) && es == [Miss(0, q), Write(w', drop), Store(0), Hit(q)]
    ensures Stale(c, ss[3], es[3], q)
  {
    var es', ss' := LateStore(c, w, w', q, drop);
    Extend(c, es', ss', Hit(q), ss'[3]);
    es, ss := es' + [Hit(q)], ss' + [ss'[3]];
    assert Answers(c, ss[3], es[3], q, Fresh(w, c.cal, q));
  }
}
