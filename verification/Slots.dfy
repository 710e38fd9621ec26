/** The slots of one staff member on one local day. Instants and spans are in milliseconds. */
module Slots {
  import opened Bookings
  import opened WorkingHours

  /** A local day: its first instant, the first instant of the next day, and where each
      minute of its wall clock falls. Nothing is assumed of the last, not even that it is
      monotone. */
  datatype Day = Day(start: int, next: int, dayOfWeek: int, toInstant: int -> int) {
    /** The day's last millisecond. */
    function End(): int {
      next - 1
    }
  }

  predicate Free(slot: Interval, blockers: set<Interval>) {
    forall b | b in blockers :: !Overlap(slot, b)
  }

  /** The starts tried in one window. */
  function Grid(cur: int, last: int, totalMin: int, intervalMin: int): seq<int>
    requires intervalMin > 0
    decreases last - cur - totalMin * 60_000
  {
    if SpanFor(cur, totalMin).end > last then []
    else [cur] + Grid(SpanFor(cur, intervalMin).end, last, totalMin, intervalMin)
  }

  function Starts(windows: seq<Item>, day: Day, totalMin: int, intervalMin: int): seq<int>
    requires intervalMin > 0
  {
    if windows == [] then []
    else Grid(day.toInstant(windows[0].startMin), day.toInstant(windows[0].endMin), totalMin, intervalMin)
         + Starts(windows[1..], day, totalMin, intervalMin)
  }

  ghost predicate Seen(slots: seq<Interval>, start: int) {
    exists slot :: slot in slots && slot.start == start
  }

  ghost function EmitAll(slots: seq<Interval>, starts: seq<int>, totalMin: int, blockers: set<Interval>): seq<Interval>
    decreases |starts|
  {
    if starts == [] then slots
    else
      var slot := SpanFor(starts[0], totalMin);
      EmitAll(if Seen(slots, starts[0]) || !Free(slot, blockers) then slots else slots + [slot], starts[1..], totalMin, blockers)
  }

  ghost function SlotsFor(windows: seq<Item>, day: Day, totalMin: int, intervalMin: int, blockers: set<Interval>): seq<Interval>
    requires intervalMin > 0
  {
    EmitAll([], Starts(windows, day, totalMin, intervalMin), totalMin, blockers)
  }

  /** The loop over windows and starts. */
  method GenerateSlots(windows: seq<Item>, day: Day, totalMin: int, intervalMin: int, bookings: set<Interval>,
                       timeOff: set<Interval>) returns (slots: seq<Interval>)
    requires intervalMin > 0
    ensures slots == SlotsFor(windows, day, totalMin, intervalMin, bookings + timeOff)
    ensures forall slot :: slot in slots <==>
              && slot == SpanFor(slot.start, totalMin)
              && OnSomeGrid(windows, day, totalMin, intervalMin, slot.start)
              && Free(slot, bookings + timeOff)
    ensures DistinctStarts(slots)
  {
    slots := [];
    var seenStarts: set<int> := {};
    ghost var goal := SlotsFor(windows, day, totalMin, intervalMin, bookings + timeOff);
    for i := 0 to |windows|
      invariant EmitAll(slots, Starts(windows[i..], day, totalMin, intervalMin), totalMin, bookings + timeOff) == goal
      invariant forall start :: start in seenStarts <==> Seen(slots, start)
    {
      var windowEnd := day.toInstant(windows[i].endMin);
      var cur := day.toInstant(windows[i].startMin);
      ghost var rest := Starts(windows[i + 1..], day, totalMin, intervalMin);
      while SpanFor(cur, totalMin).end <= windowEnd
        invariant EmitAll(slots, Grid(cur, windowEnd, totalMin, intervalMin) + rest, totalMin, bookings + timeOff) == goal
        invariant forall start :: start in seenStarts <==> Seen(slots, start)
        decreases windowEnd - cur - totalMin * 60_000
      {
        var slot := SpanFor(cur, totalMin);
        var next := SpanFor(cur, intervalMin).end;
        ghost var tried := Grid(cur, windowEnd, totalMin, intervalMin) + rest;
        assert tried[1..] == Grid(next, windowEnd, totalMin, intervalMin) + rest;
        if cur !in seenStarts && Free(slot, bookings) && Free(slot, timeOff) {
          SeenSnoc(slots, slot);
          seenStarts := seenStarts + {cur};
          slots := slots + [slot];
        }
        cur := next;
      }
      assert Grid(cur, windowEnd, totalMin, intervalMin) + rest == rest;
    }
    SlotsExact(windows, day, totalMin, intervalMin, bookings + timeOff);
  }

  lemma SeenSnoc(slots: seq<Interval>, slot: Interval)
    ensures forall start :: Seen(slots + [slot], start) <==> Seen(slots, start) || start == slot.start
  {
    forall start ensures Seen(slots + [slot], start) <==> Seen(slots, start) || start == slot.start {
      if Seen(slots, start) {
        var s :| s in slots && s.start == start;
        assert s in slots + [slot];
      }
      if start == slot.start {
        assert slot in slots + [slot];
      }
    }
  }

  function GridPoint(first: int, intervalMin: int, k: nat): int {
    first + k * (intervalMin * 60_000)
  }

  /** The start is a whole number of intervals into some window and its slot fits there. */
  ghost predicate OnSomeGrid(windows: seq<Item>, day: Day, totalMin: int, intervalMin: int, start: int) {
    exists i :: 0 <= i < |windows| && InWindow(windows[i], day, totalMin, intervalMin, start)
  }

  ghost predicate InWindow(window: Item, day: Day, totalMin: int, intervalMin: int, start: int) {
    && SpanFor(start, totalMin).end <= day.toInstant(window.endMin)
    && OnGrid(day.toInstant(window.startMin), intervalMin, start)
  }

  ghost predicate OnGrid(first: int, intervalMin: int, start: int) {
    exists k: nat :: start == GridPoint(first, intervalMin, k)
  }

  lemma OnGridStep(first: int, intervalMin: int, start: int)
    ensures OnGrid(first, intervalMin, start) <==>
            start == first || OnGrid(SpanFor(first, intervalMin).end, intervalMin, start)
  {
    var second := SpanFor(first, intervalMin).end;
    if OnGrid(first, intervalMin, start) {
      var k: nat :| start == GridPoint(first, intervalMin, k);
      if k > 0 {
        assert start == GridPoint(second, intervalMin, k - 1);
      }
    }
    if start == first {
      assert start == GridPoint(first, intervalMin, 0);
    }
    if OnGrid(second, intervalMin, start) {
      var k: nat :| start == GridPoint(second, intervalMin, k);
      assert start == GridPoint(first, intervalMin, k + 1);
    }
  }

  lemma OnGridAtLeast(first: int, intervalMin: int, start: int)
    requires intervalMin > 0 && OnGrid(first, intervalMin, start)
    ensures first <= start
  {
    var k: nat :| start == GridPoint(first, intervalMin, k);
    assert k * (intervalMin * 60_000) >= 0;
  }

  lemma MultipleOf(k: int, m: int)
    requires m > 0
    ensures k * m % m == 0
  {
    var q, r := k * m / m, k * m % m;
    assert m * (k - q) == r;
    assert k - q >= 1 ==> m * (k - q) >= m;
    assert k - q <= -1 ==> m * (k - q) <= -m;
  }

  /** On the grid: some whole number of intervals, none included, after the first start. */
  lemma OnGridExact(first: int, intervalMin: int, start: int)
    requires intervalMin > 0
    ensures OnGrid(first, intervalMin, start) <==> first <= start && (start - first) % (intervalMin * 60_000) == 0
  {
    var m := intervalMin * 60_000;
    if OnGrid(first, intervalMin, start) {
      OnGridAtLeast(first, intervalMin, start);
      var k: nat :| start == GridPoint(first, intervalMin, k);
      MultipleOf(k, m);
    }
    if first <= start && (start - first) % m == 0 {
      var k := (start - first) / m;
      assert start == GridPoint(first, intervalMin, k);
    }
  }

  /** The loop over one window tries exactly the grid points whose slot fits. */
  lemma {:induction false} GridExact(cur: int, last: int, totalMin: int, intervalMin: int, start: int)
    requires intervalMin > 0
    ensures start in Grid(cur, last, totalMin, intervalMin) <==>
            SpanFor(start, totalMin).end <= last && OnGrid(cur, intervalMin, start)
    decreases last - cur - totalMin * 60_000
  {
    OnGridStep(cur, intervalMin, start);
    if SpanFor(cur, totalMin).end > last {
      if OnGrid(cur, intervalMin, start) {
        OnGridAtLeast(cur, intervalMin, start);
      }
    } else {
      GridExact(SpanFor(cur, intervalMin).end, last, totalMin, intervalMin, start);
    }
  }

  lemma {:induction false} StartsExact(windows: seq<Item>, day: Day, totalMin: int, intervalMin: int, start: int)
    requires intervalMin > 0
    ensures start in Starts(windows, day, totalMin, intervalMin) <==> OnSomeGrid(windows, day, totalMin, intervalMin, start)
  {
    if windows != [] {
      var w := windows[0];
      GridExact(day.toInstant(w.startMin), day.toInstant(w.endMin), totalMin, intervalMin, start);
      StartsExact(windows[1..], day, totalMin, intervalMin, start);
      if OnSomeGrid(windows[1..], day, totalMin, intervalMin, start) {
        var i :| 0 <= i < |windows[1..]| && InWindow(windows[1..][i], day, totalMin, intervalMin, start);
        assert InWindow(windows[i + 1], day, totalMin, intervalMin, start);
      }
      if OnSomeGrid(windows, day, totalMin, intervalMin, start) {
        var i :| 0 <= i < |windows| && InWindow(windows[i], day, totalMin, intervalMin, start);
        if i > 0 {
          assert InWindow(windows[1..][i - 1], day, totalMin, intervalMin, start);
        }
      }
    }
  }

  ghost predicate DistinctStarts(slots: seq<Interval>) {
    forall i, j | 0 <= i < j < |slots| :: slots[i].start != slots[j].start
  }

  ghost predicate Shaped(slots: seq<Interval>, totalMin: int) {
    forall slot | slot in slots :: slot == SpanFor(slot.start, totalMin)
  }

  lemma {:induction false} EmitAllExact(slots: seq<Interval>, starts: seq<int>, totalMin: int, blockers: set<Interval>, x: Interval)
    ensures x in EmitAll(slots, starts, totalMin, blockers) <==>
            x in slots || (x == SpanFor(x.start, totalMin) && x.start in starts && Free(x, blockers) && !Seen(slots, x.start))
    decreases |starts|
  {
    if starts != [] {
      var slot := SpanFor(starts[0], totalMin);
      var skip := Seen(slots, starts[0]) || !Free(slot, blockers);
      EmitAllExact(if skip then slots else slots + [slot], starts[1..], totalMin, blockers, x);
      SeenSnoc(slots, slot);
      assert starts == [starts[0]] + starts[1..];
    }
  }

  lemma {:induction false} EmitAllDistinct(slots: seq<Interval>, starts: seq<int>, totalMin: int, blockers: set<Interval>)
    requires DistinctStarts(slots)
    ensures DistinctStarts(EmitAll(slots, starts, totalMin, blockers))
    decreases |starts|
  {
    if starts != [] {
      var slot := SpanFor(starts[0], totalMin);
      var skip := Seen(slots, starts[0]) || !Free(slot, blockers);
      EmitAllDistinct(if skip then slots else slots + [slot], starts[1..], totalMin, blockers);
    }
  }

  /** Exactly the slots on some window's grid that fit there and meet no blocker, each once
      however many windows share its start. */
  lemma SlotsExact(windows: seq<Item>, day: Day, totalMin: int, intervalMin: int, blockers: set<Interval>)
    requires intervalMin > 0
    ensures var slots := SlotsFor(windows, day, totalMin, intervalMin, blockers);
            && DistinctStarts(slots)
            && forall slot :: slot in slots <==>
                 && slot == SpanFor(slot.start, totalMin)
                 && OnSomeGrid(windows, day, totalMin, intervalMin, slot.start)
                 && Free(slot, blockers)
  {
    var starts := Starts(windows, day, totalMin, intervalMin);
    EmitAllDistinct([], starts, totalMin, blockers);
    forall slot: Interval
      ensures slot in SlotsFor(windows, day, totalMin, intervalMin, blockers) <==>
              && slot == SpanFor(slot.start, totalMin)
              && OnSomeGrid(windows, day, totalMin, intervalMin, slot.start)
              && Free(slot, blockers)
    {
      EmitAllExact([], starts, totalMin, blockers, slot);
      StartsExact(windows, day, totalMin, intervalMin, slot.start);
    }
  }

  /** The slots that a new blocker leaves, in their order. */
  function Clear(slots: seq<Interval>, b: Interval): seq<Interval> {
    if slots == [] then []
    else
      var last := slots[|slots| - 1];
      Clear(slots[..|slots| - 1], b) + if Overlap(last, b) then [] else [last]
  }

  lemma {:induction false} ClearMembers(slots: seq<Interval>, b: Interval, x: Interval)
    ensures x in Clear(slots, b) <==> x in slots && !Overlap(x, b)
  {
    if slots != [] {
      ClearMembers(slots[..|slots| - 1], b, x);
      assert slots == slots[..|slots| - 1] + [slots[|slots| - 1]];
    }
  }

  lemma {:induction false} ClearKeepsAll(slots: seq<Interval>, b: Interval)
    ensures Clear(slots, b) == slots <==> forall slot | slot in slots :: !Overlap(slot, b)
  {
    forall slot ensures slot in Clear(slots, b) <==> slot in slots && !Overlap(slot, b) {
      ClearMembers(slots, b, slot);
    }
    if slots != [] {
      var init := slots[..|slots| - 1];
      assert slots == init + [slots[|slots| - 1]];
      ClearKeepsAll(init, b);
    }
  }

  lemma ClearSnoc(slots: seq<Interval>, slot: Interval, b: Interval)
    ensures Clear(slots + [slot], b) == if Overlap(slot, b) then Clear(slots, b) else Clear(slots, b) + [slot]
  {
    assert (slots + [slot])[..|slots|] == slots;
  }

  lemma ClearSeen(slots: seq<Interval>, b: Interval, start: int, totalMin: int)
    requires Shaped(slots, totalMin)
    ensures Seen(Clear(slots, b), start) <==> Seen(slots, start) && !Overlap(SpanFor(start, totalMin), b)
  {
    ClearMembers(slots, b, SpanFor(start, totalMin));
    if Seen(Clear(slots, b), start) {
      var s :| s in Clear(slots, b) && s.start == start;
      ClearMembers(slots, b, s);
    }
  }

  lemma FreeOfOneMore(slot: Interval, blockers: set<Interval>, b: Interval)
    ensures Free(slot, blockers + {b}) <==> Free(slot, blockers) && !Overlap(slot, b)
  {
    if Free(slot, blockers + {b}) {
      assert b in blockers + {b};
      forall other | other in blockers ensures !Overlap(slot, other) {
        assert other in blockers + {b};
      }
    }
  }

  lemma {:induction false} EmitAllClear(slots: seq<Interval>, starts: seq<int>, totalMin: int, blockers: set<Interval>, b: Interval)
    requires Shaped(slots, totalMin)
    ensures EmitAll(Clear(slots, b), starts, totalMin, blockers + {b}) == Clear(EmitAll(slots, starts, totalMin, blockers), b)
    decreases |starts|
  {
    if starts != [] {
      var slot := SpanFor(starts[0], totalMin);
      var skip := Seen(slots, starts[0]) || !Free(slot, blockers);
      EmitAllClear(if skip then slots else slots + [slot], starts[1..], totalMin, blockers, b);
      ClearSeen(slots, b, starts[0], totalMin);
      FreeOfOneMore(slot, blockers, b);
      ClearSnoc(slots, slot, b);
    }
  }

  /** One more blocker removes exactly the slots it overlaps. */
  lemma OneMoreBlocker(windows: seq<Item>, day: Day, totalMin: int, intervalMin: int, blockers: set<Interval>, b: Interval)
    requires intervalMin > 0
    ensures SlotsFor(windows, day, totalMin, intervalMin, blockers + {b}) ==
            Clear(SlotsFor(windows, day, totalMin, intervalMin, blockers), b)
  {
    EmitAllClear([], Starts(windows, day, totalMin, intervalMin), totalMin, blockers, b);
    assert Clear([], b) == [];
  }
}
