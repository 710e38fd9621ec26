/** The Redis cache and the availability endpoint in front of the service. Times in milliseconds. */
module Cache {
  import opened Wrappers
  import opened Bookings
  import opened Availability
  import opened CacheKeys
  import AddonIds
  import Profile = ServiceProfile

  /** An entry exists while the clock is before its expiry, where it has one. */
  datatype Entry<T> = Entry(value: T, expiresAt: Option<int>)

  predicate Exists<T>(entries: map<string, Entry<T>>, clock: int, key: string) {
    key in entries && (entries[key].expiresAt.Some? ==> clock < entries[key].expiresAt.value)
  }

  function Expiry(clock: int, ttlSec: int): Option<int> {
    if ttlSec > 0 then Some(clock + ttlSec * 1000) else None
  }

  function Dropped<T>(entries: map<string, Entry<T>>, prefix: string): map<string, Entry<T>> {
    map key | key in entries && !(prefix <= key) :: entries[key]
  }

  class RedisCacheService<T(==)> {
    const prefix: string
    var entries: map<string, Entry<T>>

    constructor (prefix: string)
      ensures this.prefix == prefix && entries == map[]
    {
      this.prefix := prefix;
      entries := map[];
    }

    method GetJson(key: string, clock: int) returns (value: Option<T>)
      ensures value == if key in entries && (entries[key].expiresAt == None || clock < entries[key].expiresAt.value)
                       then Some(entries[key].value) else None
    {
      if !Exists(entries, clock, key) {
        return None;
      }
      return Some(entries[key].value);
    }

    method SetJson(key: string, value: T, ttlSec: int, clock: int)
      modifies this`entries
      ensures entries == old(entries)[key := Entry(value, if ttlSec > 0 then Some(clock + ttlSec * 1000) else None)]
    {
      if ttlSec > 0 {
        entries := entries[key := Entry(value, Some(clock + ttlSec * 1000))];
      } else {
        entries := entries[key := Entry(value, None)];
      }
    }

    /** `replies` is what the successive SCAN calls return: among them every key of the pattern
        that is there all along, possibly repeated, in pages of any size, and nothing else. */
    method DelByPrefix(prefix: string, replies: seq<seq<string>>)
      requires replies != []
      requires forall key | key in entries && prefix <= key :: exists i :: 0 <= i < |replies| && key in replies[i]
      requires forall i, key | 0 <= i < |replies| && key in replies[i] :: prefix <= key
      modifies this`entries
      ensures entries == Dropped(old(entries), prefix)
    {
      var keys, cursor, more := [], 0, true;
      while more
        invariant 0 <= cursor <= |replies| && (more <==> cursor < |replies|)
        invariant forall i, key | 0 <= i < cursor && key in replies[i] :: key in keys
        invariant forall key | key in keys :: prefix <= key
        decreases |replies| - cursor
      {
        keys := keys + replies[cursor];
        cursor := cursor + 1;
        more := cursor < |replies|;
      }
      if keys != [] {
        entries := entries - set key | key in keys;
      }
      assert forall key | key in old(entries) && prefix <= key :: key in keys;
    }
  }

  class AvailabilityController {
    const cache: RedisCacheService<Answer>

    constructor (cache: RedisCacheService<Answer>)
      ensures this.cache == cache
    {
      this.cache := cache;
    }

    method GetAvailability(w: World, cal: Calendar, q: Query, ttlSec: int, clock: int)
        returns (answer: Result<Answer, Availability.Error>)
      requires IntervalOf(q) > 0
      modifies cache`entries
      ensures var key, before := KeyOf(cache.prefix, q), old(cache.entries);
              if key in before && (before[key].expiresAt == None || clock < before[key].expiresAt.value)
              then answer == Ok(before[key].value) && cache.entries == before
              else
                && answer == Fresh(w, cal, q)
                && cache.entries == if answer.Err? then before
                                    else before[key := Entry(answer.value, if ttlSec > 0 then Some(clock + ttlSec * 1000) else None)]
    {
      var key := KeyOf(cache.prefix, q);
      var cached := cache.GetJson(key, clock);
      if cached.Some? {
        return Ok(cached.value);
      }
      answer := Availability.GetAvailability(w, cal, q);
      if answer.Ok? {
        cache.SetJson(key, answer.value, ttlSec, clock);
      }
    }
  }

  lemma CanonicalAnswer(w: World, cal: Calendar, q: Query)
    requires IntervalOf(q) > 0
    ensures Fresh(w, cal, Canonical(q)) == Fresh(w, cal, q)
  {
    var c := Canonical(q);
    assert ListedStaff(w.cat, c) == ListedStaff(w.cat, q);
    var day := cal(q.date, ZoneOf(q));
    if day.Some? {
      forall id ensures StaffAnswer(w, c, day.value, id) == StaffAnswer(w, q, day.value, id) {
        CanonicalSelection(w, q, id);
      }
      SameParts(w, cal, q, c);
    }
  }

  lemma CanonicalSelection(w: World, q: Query, id: string)
    ensures Profile.ResolveForSelection(w.cat, SelectionOf(Canonical(q), id), q.addonIds)
            == Profile.ResolveForSelection(w.cat, SelectionOf(q, id), q.addonIds)
  {
    var a, b := SelectionOf(Canonical(q), id), SelectionOf(q, id);
    Profile.SameAddons(w.cat, a, b, AddonIds.NormalizeAddonIds(q.addonIds));
    assert Profile.WantsVariant(b) ==> a == b;
  }

  /** Queries with the same staff and the same parts have the same answer. */
  lemma SameParts(w: World, cal: Calendar, q: Query, r: Query)
    requires IntervalOf(q) == IntervalOf(r) > 0 && cal(q.date, ZoneOf(q)).Some?
    requires q.date == r.date && ZoneOf(q) == ZoneOf(r) && ListedStaff(w.cat, q) == ListedStaff(w.cat, r)
    requires forall id :: StaffAnswer(w, q, cal(q.date, ZoneOf(q)).value, id) == StaffAnswer(w, r, cal(q.date, ZoneOf(q)).value, id)
    ensures Fresh(w, cal, q) == Fresh(w, cal, r)
  {
    var day := cal(q.date, ZoneOf(q)).value;
    if failing :| failing in ListedStaff(w.cat, q) && StaffAnswer(w, q, day, failing).Err? {
      FailsForAll(w, cal, q, failing);
      FailsForAll(w, cal, r, failing);
    } else {
      var results := map id | id in ListedStaff(w.cat, q) :: StaffAnswer(w, q, day, id).value;
      AllAnswered(w, cal, q, results);
      AllAnswered(w, cal, r, results);
    }
  }

  /** Sharing a key is harmless: such queries have the same answer in every state. */
  lemma SameKeySameAnswer(prefix: string, w: World, cal: Calendar, q: Query, r: Query)
    requires Validated(q) && PlainIds(q) && Validated(r) && PlainIds(r)
    requires KeyOf(prefix, q) == KeyOf(prefix, r)
    ensures Fresh(w, cal, q) == Fresh(w, cal, r)
  {
    KeyInjective(prefix, q, r);
    CanonicalAnswer(w, cal, q);
    CanonicalAnswer(w, cal, r);
  }
}
