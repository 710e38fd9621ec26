/** Working hours: a list of daily windows is accepted only when no two windows of a day
    overlap, and then replaces the staff member's windows. */
module WorkingHours {
  import opened Wrappers

  datatype Item = Item(dayOfWeek: int, startMin: int, endMin: int)

  datatype Problem = EndNotAfterStart | InvalidRange(day: int) | OverlapOn(day: int)

  predicate Disjoint(a: Item, b: Item) {
    a.endMin <= b.startMin || b.endMin <= a.startMin
  }

  predicate InRange(item: Item) {
    0 <= item.startMin && item.endMin <= 1440
  }

  /** What the check is for: full pairwise disjointness within each day. */
  ghost predicate Acceptable(items: seq<Item>) {
    && (forall i | 0 <= i < |items| :: items[i].startMin < items[i].endMin && InRange(items[i]))
    && DisjointByDay(items)
  }

  ghost predicate DisjointByDay(items: seq<Item>) {
    forall i, j | 0 <= i < j < |items| && items[i].dayOfWeek == items[j].dayOfWeek :: Disjoint(items[i], items[j])
  }

  ghost predicate During(item: Item, minute: int) {
    item.startMin <= minute < item.endMin
  }

  /** Acceptable, minute by minute: every window takes time within the day, and no minute of a
      weekday lies in two of its windows. */
  lemma AcceptableMeans(items: seq<Item>)
    ensures Acceptable(items) <==>
            && (forall i | 0 <= i < |items| :: 0 <= items[i].startMin < items[i].endMin <= 1440)
            && (forall i, j, minute | 0 <= i < j < |items| && items[i].dayOfWeek == items[j].dayOfWeek ::
                  !(During(items[i], minute) && During(items[j], minute)))
  {
    forall i, j | 0 <= i < j < |items| && items[i].startMin < items[i].endMin && items[j].startMin < items[j].endMin
      ensures Disjoint(items[i], items[j]) <==> forall minute :: !(During(items[i], minute) && During(items[j], minute))
    {
      DisjointMeans(items[i], items[j]);
    }
    if Acceptable(items) {
      forall i, j, minute | 0 <= i < j < |items| && items[i].dayOfWeek == items[j].dayOfWeek
        ensures !(During(items[i], minute) && During(items[j], minute))
      {
        assert Disjoint(items[i], items[j]);
      }
    }
  }

  lemma DisjointMeans(a: Item, b: Item)
    requires a.startMin < a.endMin && b.startMin < b.endMin
    ensures Disjoint(a, b) <==> forall minute :: !(During(a, minute) && During(b, minute))
  {
    var later := if a.startMin < b.startMin then b.startMin else a.startMin;
    if !Disjoint(a, b) {
      assert During(a, later) && During(b, later);
    }
  }

  ghost predicate AllDisjoint(s: seq<Item>) {
    forall i, j | 0 <= i < j < |s| :: Disjoint(s[i], s[j])
  }

  predicate Before(a: Item, b: Item) {
    a.startMin < b.startMin || (a.startMin == b.startMin && a.endMin <= b.endMin)
  }

  ghost predicate Sorted(s: seq<Item>) {
    forall i, j | 0 <= i < j < |s| :: Before(s[i], s[j])
  }

  function Insert(x: Item, s: seq<Item>): (r: seq<Item>)
    ensures forall y :: y in r <==> y == x || y in s
    ensures |r| == |s| + 1
  {
    if s == [] || Before(x, s[0]) then [x] + s else [s[0]] + Insert(x, s[1..])
  }

  /** The library sort by start, then end. */
  function Sort(s: seq<Item>): (r: seq<Item>)
    ensures forall y :: y in r <==> y in s
    ensures |r| == |s|
  {
    if s == [] then [] else Insert(s[0], Sort(s[1..]))
  }

  lemma {:induction false} InsertSorts(x: Item, s: seq<Item>)
    requires Sorted(s)
    ensures Sorted(Insert(x, s))
  {
    if s != [] && !Before(x, s[0]) {
      InsertSorts(x, s[1..]);
      assert forall y | y in Insert(x, s[1..]) :: Before(s[0], y);
    }
  }

  lemma {:induction false} SortSorts(s: seq<Item>)
    ensures Sorted(Sort(s))
  {
    if s != [] {
      SortSorts(s[1..]);
      InsertSorts(s[0], Sort(s[1..]));
    }
  }

  lemma DisjointCons(x: Item, s: seq<Item>)
    ensures AllDisjoint([x] + s) <==> AllDisjoint(s) && forall y | y in s :: Disjoint(x, y)
  {
    var t := [x] + s;
    if AllDisjoint(t) {
      forall i, j | 0 <= i < j < |s| ensures Disjoint(s[i], s[j]) {
        assert Disjoint(t[i + 1], t[j + 1]);
      }
      forall y | y in s ensures Disjoint(x, y) {
        var k :| 0 <= k < |s| && s[k] == y;
        assert Disjoint(t[0], t[k + 1]);
      }
    }
  }

  lemma {:induction false} InsertKeepsDisjointness(x: Item, s: seq<Item>)
    ensures AllDisjoint(Insert(x, s)) <==> AllDisjoint([x] + s)
  {
    DisjointCons(x, s);
    if s != [] && !Before(x, s[0]) {
      assert s == [s[0]] + s[1..];
      InsertKeepsDisjointness(x, s[1..]);
      DisjointCons(x, s[1..]);
      DisjointCons(s[0], s[1..]);
      DisjointCons(s[0], Insert(x, s[1..]));
      assert forall y :: y in s <==> y == s[0] || y in s[1..];
      assert (forall y | y in s :: Disjoint(x, y)) <==> Disjoint(x, s[0]) && forall y | y in s[1..] :: Disjoint(x, y);
      assert (forall y | y in Insert(x, s[1..]) :: Disjoint(s[0], y))
        <==> Disjoint(s[0], x) && forall y | y in s[1..] :: Disjoint(s[0], y);
    }
  }

  /** Sorting changes neither the windows nor whether they are disjoint. */
  lemma {:induction false} SortKeepsDisjointness(s: seq<Item>)
    ensures AllDisjoint(Sort(s)) <==> AllDisjoint(s)
  {
    if s != [] {
      assert s == [s[0]] + s[1..];
      SortKeepsDisjointness(s[1..]);
      InsertKeepsDisjointness(s[0], Sort(s[1..]));
      DisjointCons(s[0], Sort(s[1..]));
      DisjointCons(s[0], s[1..]);
    }
  }

  function OnDay(items: seq<Item>, day: int): seq<Item> {
    if items == [] then []
    else
      var last := items[|items| - 1];
      OnDay(items[..|items| - 1], day) + if last.dayOfWeek == day then [last] else []
  }

  lemma {:induction false} OnDayMembers(items: seq<Item>, day: int)
    ensures forall y :: y in OnDay(items, day) <==> y in items && y.dayOfWeek == day
  {
    if items != [] {
      OnDayMembers(items[..|items| - 1], day);
      assert items == items[..|items| - 1] + [items[|items| - 1]];
    }
  }

  lemma DisjointSnoc(s: seq<Item>, x: Item)
    ensures AllDisjoint(s + [x]) <==> AllDisjoint(s) && forall y | y in s :: Disjoint(y, x)
  {
    var t := s + [x];
    if AllDisjoint(t) {
      forall i, j | 0 <= i < j < |s| ensures Disjoint(s[i], s[j]) {
        assert Disjoint(t[i], t[j]);
      }
      forall y | y in s ensures Disjoint(y, x) {
        var k :| 0 <= k < |s| && s[k] == y;
        assert Disjoint(t[k], t[|s|]);
      }
    }
  }

  lemma DisjointByDaySnoc(s: seq<Item>, x: Item)
    ensures DisjointByDay(s + [x]) <==>
            DisjointByDay(s) && forall y | y in s && y.dayOfWeek == x.dayOfWeek :: Disjoint(y, x)
  {
    var t := s + [x];
    if DisjointByDay(t) {
      forall i, j | 0 <= i < j < |s| && s[i].dayOfWeek == s[j].dayOfWeek ensures Disjoint(s[i], s[j]) {
        assert Disjoint(t[i], t[j]);
      }
      forall y | y in s && y.dayOfWeek == x.dayOfWeek ensures Disjoint(y, x) {
        var k :| 0 <= k < |s| && s[k] == y;
        assert Disjoint(t[k], t[|s|]);
      }
    }
  }

  lemma OnDaySnoc(s: seq<Item>, x: Item, day: int)
    ensures OnDay(s + [x], day) == if x.dayOfWeek == day then OnDay(s, day) + [x] else OnDay(s, day)
  {
    assert (s + [x])[..|s|] == s;
  }

  lemma DaySnoc(s: seq<Item>, x: Item, day: int)
    ensures AllDisjoint(OnDay(s + [x], day)) <==>
            AllDisjoint(OnDay(s, day)) && (day == x.dayOfWeek ==> forall y | y in s && y.dayOfWeek == day :: Disjoint(y, x))
  {
    OnDaySnoc(s, x, day);
    OnDayMembers(s, day);
    DisjointSnoc(OnDay(s, day), x);
  }

  ghost predicate EveryDayDisjoint(items: seq<Item>) {
    forall day :: AllDisjoint(OnDay(items, day))
  }

  /** Grouping by day loses no pair and adds none. */
  lemma {:induction false} GroupsDecide(items: seq<Item>)
    ensures DisjointByDay(items) <==> EveryDayDisjoint(items)
  {
    if items != [] {
      var init, x := items[..|items| - 1], items[|items| - 1];
      assert items == init + [x];
      GroupsDecide(init);
      DisjointByDaySnoc(init, x);
      if EveryDayDisjoint(items) {
        DaySnoc(init, x, x.dayOfWeek);
        assert AllDisjoint(OnDay(items, x.dayOfWeek));
        forall day ensures AllDisjoint(OnDay(init, day)) {
          DaySnoc(init, x, day);
          assert AllDisjoint(OnDay(items, day));
        }
      }
      if EveryDayDisjoint(init) && forall y | y in init && y.dayOfWeek == x.dayOfWeek :: Disjoint(y, x) {
        forall day ensures AllDisjoint(OnDay(items, day)) {
          DaySnoc(init, x, day);
          assert AllDisjoint(OnDay(init, day));
        }
      }
    } else {
      assert forall day :: OnDay(items, day) == [];
    }
  }

  ghost predicate NeighboursOk(s: seq<Item>, n: nat)
    requires n <= |s|
  {
    forall i | 0 < i < n :: s[i].startMin >= s[i - 1].endMin
  }

  /** In a sorted list of non-empty windows, looking at neighbours is enough. */
  lemma NeighboursDecide(s: seq<Item>)
    requires Sorted(s) && forall i | 0 <= i < |s| :: s[i].startMin < s[i].endMin
    ensures NeighboursOk(s, |s|) <==> AllDisjoint(s)
  {
    if NeighboursOk(s, |s|) {
      forall i, j | 0 <= i < j < |s| ensures Disjoint(s[i], s[j]) {
        EndsBefore(s, i, j);
      }
    }
    if AllDisjoint(s) {
      forall i | 0 < i < |s| ensures s[i].startMin >= s[i - 1].endMin {
        assert Disjoint(s[i - 1], s[i]) && Before(s[i - 1], s[i]);
      }
    }
  }

  lemma {:induction false} EndsBefore(s: seq<Item>, i: nat, j: nat)
    requires i < j < |s| && NeighboursOk(s, |s|) && forall k | 0 <= k < |s| :: s[k].startMin < s[k].endMin
    ensures s[i].endMin <= s[j].startMin
    decreases j - i
  {
    if i < j - 1 {
      EndsBefore(s, i, j - 1);
    }
  }

  /** The check reads a day's windows in sorted order and compares neighbours. */
  lemma SortedNeighboursDecide(arr: seq<Item>)
    requires forall i | 0 <= i < |arr| :: arr[i].startMin < arr[i].endMin
    ensures forall i | 0 <= i < |arr| :: Sort(arr)[i].startMin < Sort(arr)[i].endMin
    ensures NeighboursOk(Sort(arr), |arr|) <==> AllDisjoint(arr)
  {
    SortSorts(arr);
    SortKeepsDisjointness(arr);
    assert forall i | 0 <= i < |arr| :: Sort(arr)[i] in arr;
    NeighboursDecide(Sort(arr));
  }

  ghost predicate Grouped(byDay: map<int, seq<Item>>, days: seq<int>, items: seq<Item>) {
    && (forall day | day in byDay :: byDay[day] == OnDay(items, day) && day in days)
    && (forall day | day !in byDay :: OnDay(items, day) == [])
    && (forall d | 0 <= d < |days| :: days[d] in byDay)
  }

  lemma GroupOneMore(byDay: map<int, seq<Item>>, days: seq<int>, items: seq<Item>, x: Item)
    requires Grouped(byDay, days, items)
    ensures var d := x.dayOfWeek;
            Grouped(byDay[d := (if d in byDay then byDay[d] else []) + [x]], if d in byDay then days else days + [d], items + [x])
  {
    var d := x.dayOfWeek;
    var byDay', days' := byDay[d := (if d in byDay then byDay[d] else []) + [x]], if d in byDay then days else days + [d];
    forall day
      ensures day in byDay' ==> byDay'[day] == OnDay(items + [x], day) && day in days'
      ensures day !in byDay' ==> OnDay(items + [x], day) == []
    {
      OnDaySnoc(items, x, day);
      if day == d && d !in byDay {
        assert days'[|days|] == d;
      }
    }
  }

  method AddToGroup(byDay: map<int, seq<Item>>, days: seq<int>, item: Item, ghost seen: seq<Item>)
      returns (byDay': map<int, seq<Item>>, days': seq<int>)
    requires Grouped(byDay, days, seen)
    ensures Grouped(byDay', days', seen + [item])
  {
    GroupOneMore(byDay, days, seen, item);
    var arr := if item.dayOfWeek in byDay then byDay[item.dayOfWeek] else [];
    days' := if item.dayOfWeek in byDay then days else days + [item.dayOfWeek];
    byDay' := byDay[item.dayOfWeek := arr + [item]];
  }

  /** The groups in the order in which their days first appear. */
  method GroupByDay(items: seq<Item>) returns (byDay: map<int, seq<Item>>, days: seq<int>)
    ensures Grouped(byDay, days, items)
  {
    byDay, days := map[], [];
    ghost var seen: seq<Item> := [];
    for k := 0 to |items|
      invariant seen == items[..k] && Grouped(byDay, days, seen)
    {
      byDay, days := AddToGroup(byDay, days, items[k], seen);
      seen := seen + [items[k]];
    }
    assert seen == items;
  }

  /** The check of one day's windows, in sorted order. */
  method CheckDay(day: int, arr: seq<Item>) returns (problem: Option<Problem>)
    requires forall i | 0 <= i < |arr| :: arr[i].startMin < arr[i].endMin
    ensures problem.None? <==> (forall y | y in arr :: InRange(y)) && AllDisjoint(arr)
    ensures problem.Some? ==>
              || (problem.value == InvalidRange(day) && exists y :: y in arr && !InRange(y))
              || (problem.value == OverlapOn(day) && !AllDisjoint(arr))
  {
    var sorted := Sort(arr);
    SortedNeighboursDecide(arr);
    for i := 0 to |sorted|
      invariant forall k | 0 <= k < i :: InRange(sorted[k])
      invariant NeighboursOk(sorted, i)
    {
      var cur := sorted[i];
      if cur.startMin < 0 || cur.endMin > 1440 {
        assert cur in sorted && cur in arr && !InRange(cur);
        return Some(InvalidRange(day));
      }
      if i == 0 { continue; }
      var prev := sorted[i - 1];
      if cur.startMin < prev.endMin {
        assert !NeighboursOk(sorted, |arr|);
        return Some(OverlapOn(day));
      }
    }
    assert forall y | y in arr :: y in sorted;
    return None;
  }

  ghost predicate DayOk(items: seq<Item>, day: int) {
    AllDisjoint(OnDay(items, day)) && forall y | y in OnDay(items, day) :: InRange(y)
  }

  lemma RejectedDay(items: seq<Item>, day: int)
    requires !DayOk(items, day)
    ensures !Acceptable(items)
  {
    GroupsDecide(items);
    OnDayMembers(items, day);
    if y :| y in OnDay(items, day) && !InRange(y) {
      assert y in items;
    }
  }

  lemma AcceptedDays(items: seq<Item>, days: seq<int>)
    requires forall i | 0 <= i < |items| :: items[i].startMin < items[i].endMin
    requires forall day | OnDay(items, day) != [] :: day in days
    requires forall d | 0 <= d < |days| :: DayOk(items, days[d])
    ensures Acceptable(items)
  {
    GroupsDecide(items);
    forall day ensures DayOk(items, day) {
      if day in days {
        var d :| 0 <= d < |days| && days[d] == day;
        assert DayOk(items, days[d]);
      }
    }
    forall i | 0 <= i < |items| ensures InRange(items[i]) {
      OnDayMembers(items, items[i].dayOfWeek);
      assert DayOk(items, items[i].dayOfWeek);
    }
    assert EveryDayDisjoint(items) by {
      forall day ensures AllDisjoint(OnDay(items, day)) {
        assert DayOk(items, day);
      }
    }
  }

  method CheckGroup(items: seq<Item>, day: int, arr: seq<Item>) returns (problem: Option<Problem>)
    requires arr == OnDay(items, day) && forall i | 0 <= i < |items| :: items[i].startMin < items[i].endMin
    ensures problem.None? <==> DayOk(items, day)
    ensures problem.Some? ==> Explains(items, problem.value)
  {
    OnDayMembers(items, day);
    assert forall i | 0 <= i < |arr| :: arr[i] in items;
    problem := CheckDay(day, arr);
  }

  /** A named problem is there. */
  ghost predicate Explains(items: seq<Item>, problem: Problem) {
    match problem
    case EndNotAfterStart => exists i :: 0 <= i < |items| && items[i].endMin <= items[i].startMin
    case InvalidRange(day) => exists y :: y in items && y.dayOfWeek == day && !InRange(y)
    case OverlapOn(day) => !AllDisjoint(OnDay(items, day))
  }

  method CheckDays(items: seq<Item>, byDay: map<int, seq<Item>>, days: seq<int>) returns (problem: Option<Problem>)
    requires Grouped(byDay, days, items) && forall i | 0 <= i < |items| :: items[i].startMin < items[i].endMin
    ensures problem.None? <==> Acceptable(items)
    ensures problem.Some? ==> Explains(items, problem.value)
  {
    for k := 0 to |days|
      invariant forall d | 0 <= d < k :: DayOk(items, days[d])
    {
      problem := CheckGroup(items, days[k], byDay[days[k]]);
      if problem.Some? {
        RejectedDay(items, days[k]);
        return problem;
      }
    }
    AcceptedDays(items, days);
    return None;
  }

  /** Accepts exactly the acceptable lists, and otherwise names a problem that is there. */
  method ValidateItems(items: seq<Item>) returns (problem: Option<Problem>)
    ensures problem.None? <==> Acceptable(items)
    ensures problem == Some(EndNotAfterStart) <==> exists i :: 0 <= i < |items| && items[i].endMin <= items[i].startMin
    ensures problem.Some? ==> Explains(items, problem.value)
  {
    for k := 0 to |items|
      invariant forall i | 0 <= i < k :: items[i].startMin < items[i].endMin
    {
      if items[k].endMin <= items[k].startMin {
        return Some(EndNotAfterStart);
      }
    }
    var byDay, days := GroupByDay(items);
    problem := CheckDays(items, byDay, days);
  }

  datatype Role = Owner | Admin | Staff

  datatype Error = NoAccess | StaffNotFound | WrongBusiness | NotOwnHours | Invalid(problem: Problem)

  datatype StaffMember = StaffMember(businessId: string, userId: Option<string>)

  datatype Row = Row(staffId: string, item: Item)

  function ItemsOf(rows: seq<Row>, staffId: string): seq<Item> {
    if rows == [] then []
    else (if rows[0].staffId == staffId then [rows[0].item] else []) + ItemsOf(rows[1..], staffId)
  }

  function Without(rows: seq<Row>, staffId: string): seq<Row> {
    if rows == [] then []
    else (if rows[0].staffId == staffId then [] else [rows[0]]) + Without(rows[1..], staffId)
  }

  function RowsFor(staffId: string, items: seq<Item>): seq<Row> {
    seq(|items|, i requires 0 <= i < |items| => Row(staffId, items[i]))
  }

  lemma {:induction false} ItemsOfMembers(rows: seq<Row>, staffId: string)
    ensures forall item :: item in ItemsOf(rows, staffId) <==> Row(staffId, item) in rows
  {
    if rows != [] {
      ItemsOfMembers(rows[1..], staffId);
      assert rows == [rows[0]] + rows[1..];
    }
  }

  lemma {:induction false} ItemsOfConcat(a: seq<Row>, b: seq<Row>, staffId: string)
    ensures ItemsOf(a + b, staffId) == ItemsOf(a, staffId) + ItemsOf(b, staffId)
  {
    if a == [] {
      assert a + b == b;
    } else {
      var head := if a[0].staffId == staffId then [a[0].item] else [];
      ItemsOfConcat(a[1..], b, staffId);
      assert (a + b)[0] == a[0] && (a + b)[1..] == a[1..] + b;
      assert ItemsOf(a + b, staffId) == head + ItemsOf(a[1..] + b, staffId);
      assert head + (ItemsOf(a[1..], staffId) + ItemsOf(b, staffId)) == ItemsOf(a, staffId) + ItemsOf(b, staffId);
    }
  }

  lemma {:induction false} ItemsOfWithout(rows: seq<Row>, gone: string, staffId: string)
    ensures ItemsOf(Without(rows, gone), staffId) == if staffId == gone then [] else ItemsOf(rows, staffId)
  {
    if rows != [] {
      ItemsOfWithout(rows[1..], gone, staffId);
      var head := if rows[0].staffId == gone then [] else [rows[0]];
      ItemsOfConcat(head, Without(rows[1..], gone), staffId);
    }
  }

  lemma {:induction false} ItemsOfRowsFor(owner: string, items: seq<Item>, staffId: string)
    ensures ItemsOf(RowsFor(owner, items), staffId) == if staffId == owner then items else []
  {
    if items != [] {
      assert RowsFor(owner, items)[1..] == RowsFor(owner, items[1..]);
      ItemsOfRowsFor(owner, items[1..], staffId);
    }
  }

  class WorkingHoursService {
    var rows: seq<Row>

    constructor ()
      ensures rows == []
    {
      rows := [];
    }

    /** `membership` is the caller's role in the business, `staff` the addressed row. */
    method Replace(userId: string, membership: Option<Role>, staffId: string, staff: Option<StaffMember>, businessId: string,
                   items: seq<Item>) returns (error: Option<Error>)
      modifies this`rows
      ensures error.None? <==>
                && membership.Some? && staff.Some? && staff.value.businessId == businessId
                && (membership.value.Staff? ==> staff.value.userId == Some(userId))
                && Acceptable(items)
      ensures error.Some? ==> rows == old(rows)
      ensures error.None? ==> ItemsOf(rows, staffId) == items
      ensures forall other | other != staffId :: ItemsOf(rows, other) == ItemsOf(old(rows), other)
    {
      if membership.None? {
        return Some(NoAccess);
      }
      if staff.None? {
        return Some(StaffNotFound);
      }
      if staff.value.businessId != businessId {
        return Some(WrongBusiness);
      }
      if membership.value.Staff? && staff.value.userId != Some(userId) {
        return Some(NotOwnHours);
      }
      var problem := ValidateItems(items);
      if problem.Some? {
        return Some(Invalid(problem.value));
      }
      var before := rows;
      rows := Without(rows, staffId);
      if items != [] {
        rows := rows + RowsFor(staffId, items);
      }
      assert RowsFor(staffId, items) == [] <==> items == [];
      forall other ensures ItemsOf(rows, other) == if other == staffId then items else ItemsOf(before, other) {
        ItemsOfWithout(before, staffId, other);
        ItemsOfRowsFor(staffId, items, other);
        ItemsOfConcat(Without(before, staffId), RowsFor(staffId, items), other);
      }
      return None;
    }
  }
}
