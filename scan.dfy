/** The window scanner shared by both generations of the grabber (v0.2/analyzing/Grabber.py
    and analyzing/Grabber.py run the same loop, with the observation horizon 579 and 346).

    The event days of a switch are its event keys up to the horizon, sorted, with the horizon
    appended when it is not already the last one. They are visited in order with a floor that
    starts at 0. For the horizon or a "down" event at day e, a cursor starts at e and, while
    cursor - floor >= len, emits the window ending at the cursor (at distance 0, 1, 2, ... from
    the event) and steps back by len; afterwards the floor is the leftover cursor. Any other
    event emits nothing and becomes the floor itself. */
module Scan {
  import opened Wrappers
  import opened Telemetry

  predicate Sorted(xs: seq<int>)
  {
    forall i, j :: 0 <= i < j < |xs| ==> xs[i] <= xs[j]
  }

  /** A value no larger than the head of a sorted sequence can go in front of it. */
  lemma SortedCons(a: int, ys: seq<int>)
    requires Sorted(ys) && (ys != [] ==> a <= ys[0])
    ensures Sorted([a] + ys)
  {
    var zs := [a] + ys;
    forall i, j | 0 <= i < j < |zs| ensures zs[i] <= zs[j] {
      if i > 0 {
        assert zs[i] == ys[i - 1] && zs[j] == ys[j - 1];
      } else {
        assert zs[j] == ys[j - 1] && ys[0] <= ys[j - 1];
      }
    }
  }

  function Insert(xs: seq<int>, x: int): (r: seq<int>)
    requires Sorted(xs)
    ensures Sorted(r)
    ensures multiset(r) == multiset(xs) + multiset{x}
    ensures |r| == |xs| + 1 && r[0] == if xs != [] && xs[0] < x then xs[0] else x
  {
    if xs == [] then [x]
    else if x <= xs[0] then
      SortedCons(x, xs);
      [x] + xs
    else
      assert xs == [xs[0]] + xs[1..];
      var rest := Insert(xs[1..], x);
      SortedCons(xs[0], rest);
      [xs[0]] + rest
  }

  /** `list.sort()` on ints. */
  function SortInts(xs: seq<int>): (r: seq<int>)
    ensures Sorted(r)
    ensures multiset(r) == multiset(xs)
  {
    if xs == [] then []
    else
      assert xs == xs[..|xs| - 1] + [xs[|xs| - 1]];
      Insert(SortInts(xs[..|xs| - 1]), xs[|xs| - 1])
  }

  /** `events[str(day)][0]`: the status of the event recorded for a day, if any. */
  function StatusOf(events: seq<Event>, day: int): Option<string>
  {
    if events == [] then None
    else if events[0].day == day then Some(events[0].status)
    else StatusOf(events[1..], day)
  }

  /** The event keys that are at most the horizon, in key order. */
  function DaysUpTo(events: seq<Event>, horizon: int): (ds: seq<int>)
    ensures forall d :: d in ds <==> d <= horizon && StatusOf(events, d).Some?
  {
    if events == [] then []
    else (if events[0].day <= horizon then [events[0].day] else []) + DaysUpTo(events[1..], horizon)
  }

  /** The sorted event days, closed by the horizon: sorted, bounded by the horizon and ending in
      it; the horizon is added only when no event falls on it, and nothing else is added. */
  function EventDays(events: seq<Event>, horizon: int): (days: seq<int>)
    ensures Sorted(days) && |days| > 0 && days[|days| - 1] == horizon
    ensures forall i :: 0 <= i < |days| ==> days[i] <= horizon
    ensures forall d :: d in days <==> d == horizon || (d <= horizon && StatusOf(events, d).Some?)
    ensures multiset(days) == multiset(DaysUpTo(events, horizon)) +
                              if StatusOf(events, horizon).Some? then multiset{} else multiset{horizon}
  {
    var kept := SortInts(DaysUpTo(events, horizon));
    KeptFacts(events, horizon, kept);
    if |kept| == 0 || kept[|kept| - 1] != horizon then
      AppendHorizon(kept, horizon);
      kept + [horizon]
    else
      kept
  }

  lemma KeptFacts(events: seq<Event>, horizon: int, kept: seq<int>)
    requires kept == SortInts(DaysUpTo(events, horizon))
    ensures forall d :: d in kept <==> d <= horizon && StatusOf(events, d).Some?
    ensures forall i :: 0 <= i < |kept| ==> kept[i] <= horizon
    ensures StatusOf(events, horizon).Some? <==> |kept| > 0 && kept[|kept| - 1] == horizon
  {
    SameMembers(kept, DaysUpTo(events, horizon));
    assert forall i :: 0 <= i < |kept| ==> kept[i] in kept;
    if horizon in kept {
      SortedLastIsMax(kept, horizon);
      assert kept[|kept| - 1] in kept;
    }
  }

  /** Appending the horizon to sorted days below it keeps them sorted and bounded, and adds
      only the horizon. */
  lemma AppendHorizon(kept: seq<int>, horizon: int)
    requires Sorted(kept) && forall i :: 0 <= i < |kept| ==> kept[i] <= horizon
    ensures var days := kept + [horizon];
            && Sorted(days) && days[|days| - 1] == horizon
            && (forall i :: 0 <= i < |days| ==> days[i] <= horizon)
            && (forall d :: d in days <==> d == horizon || d in kept)
            && multiset(days) == multiset(kept) + multiset{horizon}
  {
    AppendSorted(kept, horizon);
  }

  lemma AppendSorted(xs: seq<int>, x: int)
    requires Sorted(xs)
    requires forall i :: 0 <= i < |xs| ==> xs[i] <= x
    ensures Sorted(xs + [x])
  {
    var ys := xs + [x];
    forall i, j | 0 <= i < j < |ys| ensures ys[i] <= ys[j] {
      if j < |xs| {
        assert ys[i] == xs[i] && ys[j] == xs[j];
      } else {
        assert ys[i] == xs[i];
      }
    }
  }

  lemma SameMembers(a: seq<int>, b: seq<int>)
    requires multiset(a) == multiset(b)
    ensures forall x :: x in a <==> x in b
  {
    forall x ensures x in a <==> x in b {
      assert x in a <==> x in multiset(a);
      assert x in b <==> x in multiset(b);
    }
  }

  lemma SortedLastIsMax(xs: seq<int>, x: int)
    requires Sorted(xs) && x in xs
    ensures x <= xs[|xs| - 1]
  {
    var i :| 0 <= i < |xs| && xs[i] == x;
  }

  /** The horizon and "down" events are scanned; other events only move the floor. */
  predicate Scanned(events: seq<Event>, horizon: int, day: int)
  {
    day == horizon || StatusOf(events, day) == Some("down")
  }

  /** A candidate: the end day of a window and its distance (in windows) from the event. */
  datatype Window = Window(end: int, dist: nat)

  /** The windows one cursor loop emits. */
  function Period(cursor: int, floor: int, len: nat, dist: nat): seq<Window>
    requires len > 0
    decreases cursor - floor
  {
    if cursor - floor >= len then [Window(cursor, dist)] + Period(cursor - len, floor, len, dist + 1)
    else []
  }

  /** The cursor value the loop stops at. */
  function Leftover(cursor: int, floor: int, len: nat): int
    requires len > 0
    decreases cursor - floor
  {
    if cursor - floor >= len then Leftover(cursor - len, floor, len) else cursor
  }

  /** The floor after visiting event day e with floor `floor`. */
  function NextFloor(events: seq<Event>, horizon: int, len: nat, floor: int, e: int): int
    requires len > 0
  {
    if Scanned(events, horizon, e) then Leftover(e, floor, len) else e
  }

  /** The windows the scanner emits for one event day above a floor: a period for a scanned
      day, nothing for any other. */
  function DayWindows(events: seq<Event>, horizon: int, len: nat, floor: int, day: int): seq<Window>
    requires len > 0
  {
    if Scanned(events, horizon, day) then Period(day, floor, len, 0) else []
  }

  /** The windows the scanner emits for the remaining event days, starting from a floor. */
  function CandidatesFrom(days: seq<int>, events: seq<Event>, horizon: int, len: nat, floor: int): seq<Window>
    requires len > 0
  {
    if days == [] then []
    else
      DayWindows(events, horizon, len, floor, days[0]) +
      CandidatesFrom(days[1..], events, horizon, len, NextFloor(events, horizon, len, floor, days[0]))
  }

  /** All windows of one switch: the scan starts with floor 0. */
  function Candidates(days: seq<int>, events: seq<Event>, horizon: int, len: nat): seq<Window>
    requires len > 0
  {
    CandidatesFrom(days, events, horizon, len, 0)
  }

  /** The successive values of `last_event_day`: before each event day and after the last. */
  function Floors(days: seq<int>, events: seq<Event>, horizon: int, len: nat, floor: int): (fs: seq<int>)
    requires len > 0
    ensures |fs| == |days| + 1 && fs[0] == floor
  {
    if days == [] then [floor]
    else [floor] + Floors(days[1..], events, horizon, len, NextFloor(events, horizon, len, floor, days[0]))
  }

  /** The label rule: a window ending on the horizon is failing exactly when a real event is
      recorded on the horizon day; any other window is failing exactly at distance 0. */
  predicate FailingLabel(events: seq<Event>, horizon: int, w: Window)
  {
    if w.end == horizon then StatusOf(events, horizon).Some? else w.dist < 1
  }

  // ---------------------------------------------------------------- properties of one period

  /** One cursor loop emits e, e-len, e-2len, ... at distances d, d+1, ...; it stops at the
      first cursor less than len above the floor, which then lies in [floor, floor + len); if
      the event is less than len above the floor, nothing is emitted and the cursor stays. */
  lemma {:induction false} PeriodShape(cursor: int, floor: int, len: nat, dist: nat)
    requires len > 0
    ensures var p := Period(cursor, floor, len, dist);
            && (forall i :: 0 <= i < |p| ==> p[i] == Window(cursor - i * len, dist + i))
            && Leftover(cursor, floor, len) == cursor - |p| * len
            && (cursor - floor >= len ==> floor <= Leftover(cursor, floor, len) < floor + len)
            && (cursor - floor < len ==> p == [] && Leftover(cursor, floor, len) == cursor)
    decreases cursor - floor
  {
    if cursor - floor >= len {
      PeriodShape(cursor - len, floor, len, dist + 1);
      var p := Period(cursor, floor, len, dist);
      var q := Period(cursor - len, floor, len, dist + 1);
      assert p == [Window(cursor, dist)] + q;
      forall i | 0 <= i < |p| ensures p[i] == Window(cursor - i * len, dist + i) {
        if i > 0 {
          assert p[i] == q[i - 1];
          assert (i - 1) * len == i * len - len;
        }
      }
      assert |p| * len == |q| * len + len;
    }
  }

  /** A period's windows all lie in [floor, e]. */
  lemma PeriodWithin(cursor: int, floor: int, len: nat, dist: nat, w: Window)
    requires len > 0
    requires w in Period(cursor, floor, len, dist)
    ensures floor <= w.end - len && w.end <= cursor
    ensures w.dist == dist <==> w.end == cursor
    ensures w.dist >= dist
    decreases cursor - floor
  {
    if w != Window(cursor, dist) {
      PeriodWithin(cursor - len, floor, len, dist + 1, w);
    }
  }

  // ------------------------------------------------------------ properties of the whole scan

  /** Visiting an event day at or above the floor moves the floor into [floor, e]. */
  lemma NextFloorBounds(events: seq<Event>, horizon: int, len: nat, floor: int, e: int)
    requires len > 0 && floor <= e
    ensures floor <= NextFloor(events, horizon, len, floor, e) <= e
  {
    PeriodShape(e, floor, len, 0);
  }

  /** With sorted event days starting at or above the initial floor, `last_event_day` never
      decreases, and before each event day it is at most that day. */
  lemma {:induction false} FloorsNonDecreasing(days: seq<int>, events: seq<Event>, horizon: int, len: nat, floor: int)
    requires len > 0
    requires Sorted(days) && (|days| > 0 ==> floor <= days[0])
    ensures Sorted(Floors(days, events, horizon, len, floor))
    ensures forall i :: 0 <= i < |days| ==> Floors(days, events, horizon, len, floor)[i] <= days[i]
  {
    if |days| > 0 {
      var next := NextFloor(events, horizon, len, floor, days[0]);
      NextFloorBounds(events, horizon, len, floor, days[0]);
      var rest := days[1..];
      assert Sorted(rest);
      FloorsNonDecreasing(rest, events, horizon, len, next);
      var tail := Floors(rest, events, horizon, len, next);
      var fs := Floors(days, events, horizon, len, floor);
      assert fs == [floor] + tail;
      forall i, j | 0 <= i < j < |fs| ensures fs[i] <= fs[j] {
        if i > 0 {
          assert fs[i] == tail[i - 1] && fs[j] == tail[j - 1];
        } else {
          assert fs[j] == tail[j - 1] && tail[0] == next;
        }
      }
      forall i | 0 <= i < |days| ensures fs[i] <= days[i] {
        if i > 0 {
          assert fs[i] == tail[i - 1] && days[i] == rest[i - 1];
        }
      }
    }
  }

  /** Every emitted window [end - len, end) lies inside [0, horizon]. */
  lemma {:induction false} CandidatesInHorizon(days: seq<int>, events: seq<Event>, horizon: int, len: nat, floor: int)
    requires len > 0 && floor >= 0
    requires Sorted(days) && (|days| > 0 ==> floor <= days[0])
    requires forall i :: 0 <= i < |days| ==> days[i] <= horizon
    ensures forall w :: w in CandidatesFrom(days, events, horizon, len, floor) ==> 0 <= w.end - len && w.end <= horizon
  {
    if |days| > 0 {
      var next := NextFloor(events, horizon, len, floor, days[0]);
      NextFloorBounds(events, horizon, len, floor, days[0]);
      assert Sorted(days[1..]);
      assert |days| > 1 ==> days[0] <= days[1];
      CandidatesInHorizon(days[1..], events, horizon, len, next);
      forall w | w in Period(days[0], floor, len, 0) ensures 0 <= w.end - len && w.end <= horizon {
        PeriodWithin(days[0], floor, len, 0, w);
      }
    }
  }

  /** Over event days bounded by the horizon, a window is labelled failing exactly when it ends
      on a day that carries a real event: a window at distance 0 ends on its event day, which
      is a "down" event or the horizon, and any later window ends before the horizon. */
  lemma {:induction false} LabelMeansEventDay(days: seq<int>, events: seq<Event>, horizon: int, len: nat, floor: int)
    requires len > 0
    requires forall i :: 0 <= i < |days| ==> days[i] <= horizon
    ensures forall w :: w in CandidatesFrom(days, events, horizon, len, floor) ==>
              (FailingLabel(events, horizon, w) <==> w.dist == 0 && StatusOf(events, w.end).Some?)
  {
    if |days| > 0 {
      LabelMeansEventDay(days[1..], events, horizon, len, NextFloor(events, horizon, len, floor, days[0]));
      if Scanned(events, horizon, days[0]) {
        PeriodLabels(events, horizon, len, days[0], floor);
      }
    }
  }

  lemma PeriodLabels(events: seq<Event>, horizon: int, len: nat, e: int, f: int)
    requires len > 0
    requires Scanned(events, horizon, e) && e <= horizon
    ensures forall w :: w in Period(e, f, len, 0) ==>
              (FailingLabel(events, horizon, w) <==> w.dist == 0 && StatusOf(events, w.end).Some?)
  {
    forall w | w in Period(e, f, len, 0)
      ensures FailingLabel(events, horizon, w) <==> w.dist == 0 && StatusOf(events, w.end).Some?
    {
      PeriodWithin(e, f, len, 0, w);
    }
  }

  // --------------------------------------------------------------------- worked examples

  /** One failure at day 20, window length 5, horizon 30: the failure's period emits 20, 15, 10
      and 5 (only 20 failing); the floor comes back to 0, so the horizon's period emits
      30, 25, ..., 5, all healthy. */
  lemma SingleFailureDays()
    ensures EventDays([Event(20, "down")], 30) == [20, 30]
  {
    var ev := [Event(20, "down")];
    assert DaysUpTo(ev, 30) == [20];
    assert SortInts([20]) == [20] by {
      assert [20][..0] == [];
    }
  }

  lemma SingleFailureExample()
    ensures Candidates([20, 30], [Event(20, "down")], 30, 5) ==
            [Window(20, 0), Window(15, 1), Window(10, 2), Window(5, 3),
             Window(30, 0), Window(25, 1), Window(20, 2), Window(15, 3), Window(10, 4), Window(5, 5)]
    ensures FailingLabel([Event(20, "down")], 30, Window(20, 0))
    ensures !FailingLabel([Event(20, "down")], 30, Window(20, 2))
  {
    var ev := [Event(20, "down")];
    assert [20, 30][1..] == [30];
    assert [30][1..] == [];
    FailurePeriod();
    HorizonPeriod();
    assert CandidatesFrom([30], ev, 30, 5, 0) == Period(30, 0, 5, 0);
  }

  /** The example's period before the failure on day 20. */
  lemma FailurePeriod()
    ensures Period(20, 0, 5, 0) == [Window(20, 0), Window(15, 1), Window(10, 2), Window(5, 3)]
    ensures Leftover(20, 0, 5) == 0
  {
  }

  /** The example's period before the horizon on day 30. */
  lemma HorizonPeriod()
    ensures Period(30, 0, 5, 0) ==
            [Window(30, 0), Window(25, 1), Window(20, 2), Window(15, 3), Window(10, 4), Window(5, 5)]
  {
  }

  /** Because the floor returns to the leftover cursor, a later period rescans windows an
      earlier one emitted: with "down" events at days 10 and 20 and length 5, the window ending
      at day 10 is emitted at distance 0 (failing) and again at distance 2 (healthy). */
  lemma RescanRelabels()
    ensures var ev := [Event(10, "down"), Event(20, "down")];
            var cs := Candidates([10, 20], ev, 30, 5);
            && Window(10, 0) in cs && FailingLabel(ev, 30, Window(10, 0))
            && Window(10, 2) in cs && !FailingLabel(ev, 30, Window(10, 2))
  {
    var ev := [Event(10, "down"), Event(20, "down")];
    assert [10, 20][1..] == [20];
    assert [20][1..] == [];
    assert Period(10, 0, 5, 0) == [Window(10, 0), Window(5, 1)];
    assert Leftover(10, 0, 5) == 0;
    assert Period(20, 0, 5, 0) == [Window(20, 0), Window(15, 1), Window(10, 2), Window(5, 3)];
    assert CandidatesFrom([20], ev, 30, 5, 0) == Period(20, 0, 5, 0);
  }
}
