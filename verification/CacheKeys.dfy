/** The key under which an availability answer is cached, and the prefixes by which entries are
    dropped. */
module CacheKeys {
  import opened Wrappers
  import opened Text
  import opened Availability
  import AddonIds

  function OrEmpty(text: Option<string>): string {
    if text.Some? then text.value else ""
  }

  function IntervalText(q: Query): string {
    if q.intervalMin.None? then ""
    else if q.intervalMin.value < 0 then "-" + Digits(-q.intervalMin.value)
    else Digits(q.intervalMin.value)
  }

  /** What the request check lets through: add-on ids in normal form, no empty zone, a sensible
      interval, and neither date nor zone with a colon. */
  ghost predicate Validated(q: Query) {
    && AddonIds.Ascending(q.addonIds)
    && (forall id | id in q.addonIds :: AddonIds.IsAddonId(id))
    && (q.tz.Some? ==> q.tz.value != "" && ':' !in q.tz.value)
    && (q.intervalMin.Some? ==> 5 <= q.intervalMin.value <= 60)
    && ':' !in q.date
  }

  /** Ids are free of the key separator. */
  ghost predicate PlainIds(q: Query) {
    && ':' !in q.businessId
    && ':' !in q.serviceId
    && ':' !in OrEmpty(q.variantId)
    && ':' !in OrEmpty(q.staffId)
    && (forall id | id in q.addonIds :: ':' !in id)
  }

  function Fields(q: Query): seq<string> {
    ["availability", "businessId=" + q.businessId, "serviceId=" + q.serviceId, "variantId=" + OrEmpty(q.variantId),
     "addonIds=" + Join(q.addonIds, ','), "date=" + q.date, "staffId=" + OrEmpty(q.staffId),
     "intervalMin=" + IntervalText(q), "tz=" + OrEmpty(q.tz)]
  }

  /** `prefix` is the cache's own prefix, which every key starts with. */
  function KeyOf(prefix: string, q: Query): string {
    Join([prefix] + Fields(q), ':')
  }

  function AvailabilityPrefix(prefix: string): string {
    Join([prefix, "availability"], ':')
  }

  function ServicePrefix(prefix: string, businessId: string, serviceId: string): string {
    Join([prefix, "availability", "businessId=" + businessId, "serviceId=" + serviceId], ':')
  }

  lemma {:induction false} JoinWithout(parts: seq<string>, sep: char, c: char)
    requires c != sep && forall p | p in parts :: c !in p
    ensures c !in Join(parts, sep)
  {
    if parts == [] {
    } else {
      assert parts == [parts[0]] + parts[1..];
      JoinWithout(parts[1..], sep, c);
    }
  }

  lemma JoinCons(part: string, rest: seq<string>, sep: char)
    requires rest != []
    ensures Join([part] + rest, sep) == part + [sep] + Join(rest, sep)
  {
    assert ([part] + rest)[1..] == rest;
  }

  lemma NoColonInInterval(q: Query)
    ensures ':' !in IntervalText(q)
  {}

  lemma FieldsArePlain(q: Query)
    requires Validated(q) && PlainIds(q)
    ensures forall p | p in Fields(q) :: ':' !in p
  {
    JoinWithout(q.addonIds, ',', ':');
    NoColonInInterval(q);
  }

  lemma SameSuffix(name: string, x: string, y: string)
    requires name + x == name + y
    ensures x == y
  {
    assert (name + x)[|name|..] == x && (name + y)[|name|..] == y;
  }

  lemma SameIds(a: seq<string>, b: seq<string>)
    requires forall id | id in a :: AddonIds.IsAddonId(id)
    requires forall id | id in b :: AddonIds.IsAddonId(id)
    requires Join(a, ',') == Join(b, ',')
    ensures a == b
  {
    if a != [] && b != [] {
      SplitJoin(a, ',');
      SplitJoin(b, ',');
    } else {
      assert a != [] ==> AddonIds.IsAddonId(a[0]);
      assert b != [] ==> AddonIds.IsAddonId(b[0]);
    }
  }

  /** A query with its empty optional ids left out. */
  function Canonical(q: Query): Query {
    q.(variantId := if OrEmpty(q.variantId) == "" then None else q.variantId,
       staffId := if OrEmpty(q.staffId) == "" then None else q.staffId)
  }

  /** Equal keys mean equal queries, but for optional ids that are empty. */
  lemma KeyInjective(prefix: string, q: Query, r: Query)
    requires Validated(q) && PlainIds(q) && Validated(r) && PlainIds(r)
    requires KeyOf(prefix, q) == KeyOf(prefix, r)
    ensures Canonical(q) == Canonical(r)
  {
    var a, b := Fields(q), Fields(r);
    JoinCons(prefix, a, ':');
    JoinCons(prefix, b, ':');
    SameSuffix(prefix + [':'], Join(a, ':'), Join(b, ':'));
    FieldsArePlain(q);
    FieldsArePlain(r);
    SplitJoin(a, ':');
    SplitJoin(b, ':');
    SameFields(q, r);
  }

  lemma SameFields(q: Query, r: Query)
    requires Validated(q) && Validated(r) && Fields(q) == Fields(r)
    ensures Canonical(q) == Canonical(r)
  {
    var a, b := Fields(q), Fields(r);
    assert a[1] == b[1] && a[2] == b[2] && a[3] == b[3] && a[4] == b[4] && a[5] == b[5] && a[6] == b[6] && a[7] == b[7]
           && a[8] == b[8];
    SameSuffix("businessId=", q.businessId, r.businessId);
    SameSuffix("serviceId=", q.serviceId, r.serviceId);
    SameSuffix("variantId=", OrEmpty(q.variantId), OrEmpty(r.variantId));
    SameSuffix("addonIds=", Join(q.addonIds, ','), Join(r.addonIds, ','));
    SameSuffix("date=", q.date, r.date);
    SameSuffix("staffId=", OrEmpty(q.staffId), OrEmpty(r.staffId));
    SameSuffix("intervalMin=", IntervalText(q), IntervalText(r));
    SameSuffix("tz=", OrEmpty(q.tz), OrEmpty(r.tz));
    SameIds(q.addonIds, r.addonIds);
    if q.intervalMin.Some? && r.intervalMin.Some? {
      DigitsInjective(q.intervalMin.value, r.intervalMin.value);
    }
  }

  lemma PrefixOfSum(p: string, x: string, y: string)
    ensures p + x <= p + y <==> x <= y
  {
    if p + x <= p + y {
      assert x == (p + x)[|p|..] && y[..|x|] == (p + y)[|p|..|p + x|];
      assert (p + y)[..|p + x|] == p + x;
    }
    if x <= y {
      assert p + y == p + x + y[|x|..];
    }
  }

  lemma FirstSeparator(a: string, x: string, sep: char)
    requires sep !in a
    ensures var l := a + [sep] + x; l[|a|] == sep && forall i | 0 <= i < |a| :: l[i] != sep
  {
    forall i | 0 <= i < |a| ensures (a + [sep] + x)[i] != sep {
      assert a[i] in a;
    }
  }

  /** Prefixes can be compared field by field. */
  lemma PrefixByField(a: string, x: string, b: string, y: string, sep: char)
    requires sep !in a && sep !in b
    ensures a + [sep] + x <= b + [sep] + y <==> a == b && x <= y
  {
    var l, r := a + [sep] + x, b + [sep] + y;
    FirstSeparator(a, x, sep);
    FirstSeparator(b, y, sep);
    if l <= r {
      assert forall i | 0 <= i < |l| :: l[i] == r[i];
      assert |a| == |b|;
      assert a == l[..|a|] == r[..|a|] == b;
    }
    if a == b {
      assert l == (a + [sep]) + x && r == (a + [sep]) + y;
      PrefixOfSum(a + [sep], x, y);
    }
  }

  lemma PrefixOfLastField(x: string, y: string, rest: string, sep: char)
    requires sep !in x
    ensures x <= y + [sep] + rest <==> x <= y
  {
    var t := y + [sep] + rest;
    if x <= t {
      assert forall i | 0 <= i < |x| :: x[i] == t[i] && x[i] in x;
      assert t[|y|] == sep;
      assert |x| <= |y| && t[..|x|] == y[..|x|];
    }
    if x <= y {
      assert t[..|x|] == y[..|x|];
    }
  }

  function Head(prefix: string): string {
    prefix + [':'] + ("availability" + [':'])
  }

  lemma KeyShape(prefix: string, q: Query)
    ensures KeyOf(prefix, q) ==
            Head(prefix) + (Fields(q)[1] + [':'] + (Fields(q)[2] + [':'] + Join(Fields(q)[3..], ':')))
  {
    var f := Fields(q);
    assert f == [f[0]] + f[1..] && f[1..] == [f[1]] + f[2..] && f[2..] == [f[2]] + f[3..];
    JoinCons(prefix, f, ':');
    JoinCons(f[0], f[1..], ':');
    JoinCons(f[1], f[2..], ':');
    JoinCons(f[2], f[3..], ':');
  }

  lemma ServicePrefixShape(prefix: string, businessId: string, serviceId: string)
    ensures ServicePrefix(prefix, businessId, serviceId) == Head(prefix) + ("businessId=" + businessId + [':'] + ("serviceId=" + serviceId))
  {
    var f := ["availability", "businessId=" + businessId, "serviceId=" + serviceId];
    assert f == [f[0]] + f[1..] && f[1..] == [f[1]] + f[2..];
    JoinCons(prefix, f, ':');
    JoinCons(f[0], f[1..], ':');
    JoinCons(f[1], f[2..], ':');
  }

  /** Dropping by a service's prefix reaches the entries of every service whose id continues the
      service's id, in the same business, and no other: all of the service's own in particular. */
  lemma ServicePrefixExact(prefix: string, businessId: string, serviceId: string, q: Query)
    requires Validated(q) && PlainIds(q) && ':' !in businessId && ':' !in serviceId
    ensures ServicePrefix(prefix, businessId, serviceId) <= KeyOf(prefix, q) <==>
            businessId == q.businessId && serviceId <= q.serviceId
  {
    var b, s, tail := "businessId=" + businessId, "serviceId=" + serviceId, Join(Fields(q)[3..], ':');
    var qb, qs := Fields(q)[1], Fields(q)[2];
    KeyShape(prefix, q);
    ServicePrefixShape(prefix, businessId, serviceId);
    PrefixOfSum(Head(prefix), b + [':'] + s, qb + [':'] + (qs + [':'] + tail));
    PrefixByField(b, s, qb, qs + [':'] + tail, ':');
    PrefixOfLastField(s, qs, tail, ':');
    PrefixOfSum("serviceId=", serviceId, q.serviceId);
    if b == qb {
      SameSuffix("businessId=", businessId, q.businessId);
    }
  }

  lemma AvailabilityPrefixCovers(prefix: string, q: Query)
    ensures AvailabilityPrefix(prefix) <= KeyOf(prefix, q)
  {
    KeyShape(prefix, q);
    JoinCons(prefix, ["availability"], ':');
    assert Head(prefix) == AvailabilityPrefix(prefix) + [':'];
  }
}
