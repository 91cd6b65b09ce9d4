/** The calendar board: stays that overlap are drawn on separate lanes, in as few lanes as possible. */
module Lanes {
  import opened Collections
  import opened Calendar

  datatype Stay = Stay(id: string, startsOn: Day, endsOn: Day)
  datatype Placed = Placed(item: Stay, lane: nat)

  predicate NonEmpty(s: Stay) {
    s.startsOn < s.endsOn
  }

  predicate Occupies(s: Stay, night: Day) {
    OccupiesNight(s.startsOn, s.endsOn, night)
  }

  // ---------------------------------------------------------------- sorting by start, then end

  predicate Before(a: Stay, b: Stay) {
    a.startsOn < b.startsOn || (a.startsOn == b.startsOn && a.endsOn <= b.endsOn)
  }

  ghost predicate Sorted(items: seq<Stay>) {
    forall i, j :: 0 <= i < j < |items| ==> Before(items[i], items[j])
  }

  function Insert(item: Stay, items: seq<Stay>): (r: seq<Stay>)
    ensures |r| == |items| + 1
    ensures forall s :: s in r <==> s == item || s in items
  {
    if items == [] || Before(item, items[0]) then [item] + items
    else [items[0]] + Insert(item, items[1..])
  }

  /** A stable sort by (start, end). */
  function SortStays(items: seq<Stay>): (r: seq<Stay>)
    ensures |r| == |items|
  {
    if items == [] then [] else Insert(items[0], SortStays(items[1..]))
  }

  lemma {:induction false} InsertPermutes(item: Stay, items: seq<Stay>)
    ensures multiset(Insert(item, items)) == multiset(items) + multiset{item}
  {
    if items != [] {
      assert items == [items[0]] + items[1..];
      if !Before(item, items[0]) {
        InsertPermutes(item, items[1..]);
      }
    }
  }

  lemma {:induction false} InsertSorts(item: Stay, items: seq<Stay>)
    requires Sorted(items)
    ensures Sorted(Insert(item, items))
  {
    if items != [] && !Before(item, items[0]) {
      var rest := Insert(item, items[1..]);
      InsertSorts(item, items[1..]);
      forall k | 0 <= k < |rest|
        ensures Before(items[0], rest[k])
      {
        assert rest[k] in rest;
      }
    }
  }

  lemma {:induction false} SortSorts(items: seq<Stay>)
    ensures multiset(SortStays(items)) == multiset(items)
    ensures Sorted(SortStays(items))
  {
    if items != [] {
      SortSorts(items[1..]);
      InsertPermutes(items[0], SortStays(items[1..]));
      InsertSorts(items[0], SortStays(items[1..]));
      assert items == [items[0]] + items[1..];
    }
  }

  // ---------------------------------------------------------------- packing

  function FreeLane(ends: seq<Day>, startsOn: Day): (lane: nat)
    ensures lane <= |ends|
    ensures lane < |ends| ==> ends[lane] <= startsOn
    ensures forall k :: 0 <= k < lane ==> ends[k] > startsOn
  {
    if ends == [] || ends[0] <= startsOn then 0 else 1 + FreeLane(ends[1..], startsOn)
  }

  /** Stays packed so far that are still drawn at `night` when everything up to `n` is packed. */
  ghost function Open(items: seq<Stay>, n: nat, night: Day): set<int>
    requires n <= |items|
  {
    set i | 0 <= i < n && items[i].endsOn > night
  }

  /** `last[k]` is the index of the last stay put on lane k. */
  ghost predicate LaneState(items: seq<Stay>, placed: seq<Placed>, ends: seq<Day>, last: seq<nat>) {
    && |placed| <= |items|
    && |last| == |ends|
    && (forall i :: 0 <= i < |placed| ==> placed[i].item == items[i] && placed[i].lane < |ends|)
    && (forall k :: 0 <= k < |ends| ==>
          last[k] < |placed| && placed[last[k]].lane == k && ends[k] == items[last[k]].endsOn)
    && (forall i :: 0 <= i < |placed| ==> i <= last[placed[i].lane])
    && (forall i, j :: 0 <= i < j < |placed| && placed[i].lane == placed[j].lane ==>
          items[i].endsOn <= items[j].startsOn)
  }

  /** Lanes opened so far are all justified by some stay that found every earlier lane taken. */
  ghost predicate Justified(items: seq<Stay>, n: nat, lanes: nat)
    requires n <= |items|
  {
    lanes > 0 ==> exists i :: 0 <= i < n && |Open(items, i, items[i].startsOn)| + 1 >= lanes
  }

  ghost predicate LaneUsed(placed: seq<Placed>, lane: nat) {
    exists i :: 0 <= i < |placed| && placed[i].lane == lane
  }

  /** No two stays of a lane touch the same night: the earlier one ends before the later one starts. */
  ghost predicate LanesDisjoint(placed: seq<Placed>) {
    forall i, j :: 0 <= i < j < |placed| && placed[i].lane == placed[j].lane ==>
      placed[i].item.endsOn <= placed[j].item.startsOn
  }

  method PackLanes(items: seq<Stay>) returns (placed: seq<Placed>, lanes: nat)
    ensures Packing(SortStays(items), placed, lanes)
    ensures LanesDisjoint(placed)
  {
    SortSorts(items);
    placed, lanes := PackSorted(SortStays(items));
  }

  /** Every stay is placed once, in order; every lane is used; and the last lane had to be opened. */
  ghost predicate Packing(sorted: seq<Stay>, placed: seq<Placed>, lanes: nat) {
    && |placed| == |sorted|
    && (forall i :: 0 <= i < |sorted| ==> placed[i].item == sorted[i] && placed[i].lane < lanes)
    && (forall k: nat :: k < lanes ==> LaneUsed(placed, k))
    && Justified(sorted, |sorted|, lanes)
  }

  method PackSorted(sorted: seq<Stay>) returns (placed: seq<Placed>, lanes: nat)
    requires Sorted(sorted)
    ensures Packing(sorted, placed, lanes)
    ensures LanesDisjoint(placed)
  {
    hide Justified, Packing, LanesDisjoint, Sorted, LaneState;
    var laneEnds: seq<Day> := [];
    ghost var last: seq<nat> := [];
    placed := [];
    NothingPacked(sorted);
    for n := 0 to |sorted|
      invariant |placed| == n && |last| == |laneEnds|
      invariant LaneState(sorted, placed, laneEnds, last)
      invariant Justified(sorted, n, |laneEnds|)
    {
      var item := sorted[n];
      var lane := FreeLane(laneEnds, item.startsOn);
      if lane == |laneEnds| {
        OpenLane(sorted, placed, laneEnds, last, n);
        laneEnds, last := laneEnds + [item.endsOn], last + [n];
      } else {
        ReuseLane(sorted, placed, laneEnds, last, n, lane);
        laneEnds, last := laneEnds[lane := item.endsOn], last[lane := n];
      }
      placed := placed + [Placed(item, lane)];
    }
    lanes := |laneEnds|;
    PackedAll(sorted, placed, laneEnds, last);
  }

  lemma {:induction false} NothingPacked(sorted: seq<Stay>)
    ensures LaneState(sorted, [], [], []) && Justified(sorted, 0, 0)
  {
  }

  lemma {:induction false} PackedAll(sorted: seq<Stay>, placed: seq<Placed>, ends: seq<Day>, last: seq<nat>)
    requires LaneState(sorted, placed, ends, last) && |placed| == |sorted|
    requires Justified(sorted, |sorted|, |ends|)
    ensures Packing(sorted, placed, |ends|) && LanesDisjoint(placed)
  {
    forall k: nat | k < |ends|
      ensures LaneUsed(placed, k)
    {
      assert placed[last[k]].lane == k;
    }
  }

  lemma {:induction false} OpenLane(items: seq<Stay>, placed: seq<Placed>, ends: seq<Day>, last: seq<nat>, n: nat)
    requires LaneState(items, placed, ends, last) && n == |placed| < |items|
    requires forall k :: 0 <= k < |ends| ==> ends[k] > items[n].startsOn
    ensures LaneState(items, placed + [Placed(items[n], |ends|)], ends + [items[n].endsOn], last + [n])
    ensures Justified(items, n + 1, |ends| + 1)
  {
    AllLanesTaken(items, placed, ends, last, n);
  }

  /** Reusing a lane is safe: every stay on it ended before its last one started, if not later. */
  lemma {:induction false} ReuseLane(items: seq<Stay>, placed: seq<Placed>, ends: seq<Day>, last: seq<nat>,
      n: nat, lane: nat)
    requires Sorted(items) && LaneState(items, placed, ends, last)
    requires n == |placed| < |items| && lane < |ends| && ends[lane] <= items[n].startsOn
    ensures LaneState(items, placed + [Placed(items[n], lane)], ends[lane := items[n].endsOn], last[lane := n])
    ensures Justified(items, n, |ends|) ==> Justified(items, n + 1, |ends|)
  {
    forall i | 0 <= i < n && placed[i].lane == lane
      ensures items[i].endsOn <= items[n].startsOn
    {
      if i < last[lane] {
        assert placed[last[lane]].lane == lane;
        assert Before(items[last[lane]], items[n]);
      }
    }
  }

  /** Opening a lane means the last stay of every lane is still open. */
  lemma {:induction false} AllLanesTaken(items: seq<Stay>, placed: seq<Placed>, ends: seq<Day>, last: seq<nat>, n: nat)
    requires LaneState(items, placed, ends, last) && n == |placed| < |items|
    requires forall k :: 0 <= k < |ends| ==> ends[k] > items[n].startsOn
    ensures |Open(items, n, items[n].startsOn)| >= |ends|
  {
    var tops := Lasts(last, |ends|);
    LastsDistinct(placed, last, |ends|);
    SubsetSize(tops, Open(items, n, items[n].startsOn));
  }

  ghost function Lasts(last: seq<nat>, m: nat): set<nat>
    requires m <= |last|
  {
    set k | 0 <= k < m :: last[k]
  }

  lemma {:induction false} LastsDistinct(placed: seq<Placed>, last: seq<nat>, m: nat)
    requires m <= |last|
    requires forall k :: 0 <= k < |last| ==> last[k] < |placed| && placed[last[k]].lane == k
    ensures |Lasts(last, m)| == m
  {
    if m > 0 {
      LastsDistinct(placed, last, m - 1);
      assert last[m - 1] !in Lasts(last, m - 1);
      assert Lasts(last, m) == Lasts(last, m - 1) + {last[m - 1]};
    }
  }

  // ---------------------------------------------------------------- as few lanes as possible

  function OccupiesAt(night: Day): Stay -> int {
    (s: Stay) => if Occupies(s, night) then 1 else 0
  }

  /** How many stays of a list occupy a night. */
  function Occupancy(items: seq<Stay>, night: Day): int {
    Sum(items, OccupiesAt(night))
  }

  /** Stays strictly around a day: started before it and not over on it. */
  function SpansAt(day: Day): Stay -> int {
    (s: Stay) => if s.startsOn < day < s.endsOn then 1 else 0
  }

  /** The busiest night of a list of stays has `peak` of them. */
  ghost predicate Peak(items: seq<Stay>, peak: nat) {
    && (forall night :: Occupancy(items, night) <= peak)
    && (peak > 0 ==> exists night :: Occupancy(items, night) == peak)
  }

  lemma {:induction false} OccupancyBounded(items: seq<Stay>, night: Day)
    ensures 0 <= Occupancy(items, night) <= |items|
  {
    if items != [] {
      OccupancyBounded(items[1..], night);
    }
  }

  /** The highest count that some night has, searched downwards from a bound. */
  ghost function PeakUpTo(items: seq<Stay>, bound: nat): (peak: nat)
    requires forall night :: Occupancy(items, night) <= bound
    ensures Peak(items, peak)
  {
    if bound == 0 || exists night :: Occupancy(items, night) == bound then bound
    else PeakUpTo(items, bound - 1)
  }

  /** Every list of stays has a busiest night: the number of stays on it. */
  ghost function PeakOf(items: seq<Stay>): (peak: nat)
    ensures Peak(items, peak)
  {
    assert forall night :: Occupancy(items, night) <= |items| by {
      forall night
        ensures Occupancy(items, night) <= |items|
      {
        OccupancyBounded(items, night);
      }
    }
    PeakUpTo(items, |items|)
  }

  lemma {:induction false} PeakUnique(items: seq<Stay>, peak: nat)
    ensures Peak(items, peak) <==> peak == PeakOf(items)
  {
  }

  ghost function Chosen(items: seq<Stay>, f: Stay -> int): set<int> {
    set i | 0 <= i < |items| && f(items[i]) == 1
  }

  lemma {:induction false} SumCounts(items: seq<Stay>, f: Stay -> int)
    requires forall s :: f(s) == 0 || f(s) == 1
    ensures Sum(items, f) == |Chosen(items, f)|
  {
    if items == [] {
      assert Chosen(items, f) == {};
    } else {
      hide Chosen;
      var shorter := items[..|items| - 1];
      assert items == shorter + [items[|items| - 1]];
      SumAppend(shorter, [items[|items| - 1]], f);
      SumCounts(shorter, f);
      ChosenGrows(items, f);
    }
  }

  lemma {:induction false} ChosenGrows(items: seq<Stay>, f: Stay -> int)
    requires items != []
    ensures var n := |items| - 1;
      |Chosen(items, f)| == |Chosen(items[..n], f)| + if f(items[n]) == 1 then 1 else 0
  {
    var n := |items| - 1;
    assert Chosen(items, f) == Chosen(items[..n], f) + if f(items[n]) == 1 then {n} else {};
  }

  /** Stays that must be kept apart need a lane each, however lanes are assigned. */
  lemma {:induction false} DistinctLanesNeeded(lane: seq<nat>, lanes: nat, who: set<int>)
    requires forall i :: i in who ==> 0 <= i < |lane| && lane[i] < lanes
    requires forall i, j :: i in who && j in who && i != j ==> lane[i] != lane[j]
    ensures |who| <= lanes
    decreases lanes
  {
    if lanes == 0 {
      assert forall i :: i !in who;
    } else if i :| i in who && lane[i] == lanes - 1 {
      DistinctLanesNeeded(lane, lanes - 1, who - {i});
    } else {
      DistinctLanesNeeded(lane, lanes - 1, who);
    }
  }

  /** Lower bound: no assignment that separates stays sharing a night uses fewer lanes than the
      busiest night has stays. */
  lemma {:induction false} NoFewerLanes(items: seq<Stay>, lane: seq<nat>, lanes: nat, peak: nat)
    requires |lane| == |items| && forall i :: 0 <= i < |items| ==> lane[i] < lanes
    requires forall i, j, night :: 0 <= i < j < |items| && Occupies(items[i], night) && Occupies(items[j], night)
               ==> lane[i] != lane[j]
    requires Peak(items, peak)
    ensures peak <= lanes
  {
    if peak > 0 {
      var night :| Occupancy(items, night) == peak;
      SumCounts(items, OccupiesAt(night));
      DistinctLanesNeeded(lane, lanes, Chosen(items, OccupiesAt(night)));
    }
  }

  ghost function LaneOf(placed: seq<Placed>): seq<nat> {
    seq(|placed|, i requires 0 <= i < |placed| => placed[i].lane)
  }

  /** The packing separates stays that share a night. */
  lemma {:induction false} PackingSeparates(sorted: seq<Stay>, placed: seq<Placed>, lanes: nat)
    requires Packing(sorted, placed, lanes) && LanesDisjoint(placed)
    ensures forall i, j, night :: 0 <= i < j < |sorted| && Occupies(sorted[i], night) && Occupies(sorted[j], night)
              ==> LaneOf(placed)[i] != LaneOf(placed)[j]
  {
  }

  /** Stays open when a later one starts occupy its first night. */
  lemma {:induction false} OpenOccupy(sorted: seq<Stay>, i: nat)
    requires Sorted(sorted) && i < |sorted|
    ensures var night := sorted[i].startsOn;
            |Open(sorted, i, night)| + (if NonEmpty(sorted[i]) then 1 else 0) <= Occupancy(sorted, night)
    ensures var night := sorted[i].startsOn;
            !NonEmpty(sorted[i]) ==> |Open(sorted, i, night)| <= Sum(sorted, SpansAt(night))
  {
    var night := sorted[i].startsOn;
    var open := Open(sorted, i, night);
    forall j | j in open
      ensures Occupies(sorted[j], night)
      ensures !NonEmpty(sorted[i]) ==> sorted[j].startsOn < night
    {
      assert Before(sorted[j], sorted[i]);
    }
    SumCounts(sorted, OccupiesAt(night));
    SumCounts(sorted, SpansAt(night));
    if NonEmpty(sorted[i]) {
      SubsetSize(open + {i}, Chosen(sorted, OccupiesAt(night)));
    } else {
      SubsetSize(open, Chosen(sorted, OccupiesAt(night)));
      SubsetSize(open, Chosen(sorted, SpansAt(night)));
    }
  }

  /** An empty stay cannot join the lane of a stay around it. */
  lemma {:induction false} SpansNeedLanes(sorted: seq<Stay>, placed: seq<Placed>, lanes: nat, i: nat)
    requires Sorted(sorted) && Packing(sorted, placed, lanes) && LanesDisjoint(placed)
    requires i < |sorted| && !NonEmpty(sorted[i])
    ensures Sum(sorted, SpansAt(sorted[i].startsOn)) + 1 <= lanes
  {
    var day := sorted[i].startsOn;
    var around := Chosen(sorted, SpansAt(day));
    SumCounts(sorted, SpansAt(day));
    PackingSeparates(sorted, placed, lanes);
    assert forall j :: i < j < |sorted| ==> Before(sorted[i], sorted[j]);
    assert forall j :: j in around ==> LaneOf(placed)[j] != LaneOf(placed)[i];
    forall j, k | j in around && k in around && j < k
      ensures LaneOf(placed)[j] != LaneOf(placed)[k]
    {
      assert Occupies(sorted[j], day) && Occupies(sorted[k], day);
    }
    DistinctLanesNeeded(LaneOf(placed), lanes, around + {i});
  }

  /** An empty stay that starts strictly inside as many stays as the busiest night has. */
  ghost predicate EmptyInsidePeak(items: seq<Stay>, peak: nat) {
    exists x :: x in items && !NonEmpty(x) && Sum(items, SpansAt(x.startsOn)) >= peak
  }

  lemma {:induction false} SortedLaneCount(sorted: seq<Stay>, placed: seq<Placed>, lanes: nat, peak: nat)
    requires Sorted(sorted) && Packing(sorted, placed, lanes) && LanesDisjoint(placed)
    requires Peak(sorted, peak)
    ensures lanes == if EmptyInsidePeak(sorted, peak) then peak + 1 else peak
  {
    PackingSeparates(sorted, placed, lanes);
    NoFewerLanes(sorted, LaneOf(placed), lanes, peak);
    if lanes > 0 {
      var i :| 0 <= i < |sorted| && |Open(sorted, i, sorted[i].startsOn)| + 1 >= lanes;
      OpenOccupy(sorted, i);
      assert sorted[i] in sorted;
    }
    if EmptyInsidePeak(sorted, peak) {
      var x :| x in sorted && !NonEmpty(x) && Sum(sorted, SpansAt(x.startsOn)) >= peak;
      var i :| 0 <= i < |sorted| && sorted[i] == x;
      SpansNeedLanes(sorted, placed, lanes, i);
    }
  }

  /** The number of lanes, for every list of stays: the busiest night decides it, and one lane more is
      used exactly when an empty stay starts strictly inside that many stays. */
  lemma {:induction false} LaneCount(items: seq<Stay>, placed: seq<Placed>, lanes: nat)
    requires Packing(SortStays(items), placed, lanes) && LanesDisjoint(placed)
    ensures lanes == if EmptyInsidePeak(items, PeakOf(items)) then PeakOf(items) + 1 else PeakOf(items)
  {
    var peak := PeakOf(items);
    var sorted := SortStays(items);
    SortSorts(items);
    forall f: Stay -> int
      ensures Sum(sorted, f) == Sum(items, f)
    {
      SumPermutes(sorted, items, f);
    }
    assert forall x :: x in sorted <==> x in multiset(sorted);
    assert forall x :: x in items <==> x in multiset(items);
    forall night
      ensures Occupancy(sorted, night) == Occupancy(items, night)
    {
    }
    assert Peak(sorted, peak);
    SortedLaneCount(sorted, placed, lanes, peak);
    if EmptyInsidePeak(items, peak) {
      var x :| x in items && !NonEmpty(x) && Sum(items, SpansAt(x.startsOn)) >= peak;
      assert x in sorted && Sum(sorted, SpansAt(x.startsOn)) >= peak;
    }
    if EmptyInsidePeak(sorted, peak) {
      var x :| x in sorted && !NonEmpty(x) && Sum(sorted, SpansAt(x.startsOn)) >= peak;
      assert x in items && Sum(items, SpansAt(x.startsOn)) >= peak;
    }
  }

  /** Real stays take at least one night, and then the packing is optimal: exactly as many lanes as
      the busiest night has stays, and no separating assignment has fewer. */
  lemma {:induction false} LanesAreMinimal(
    items: seq<Stay>, placed: seq<Placed>, lanes: nat, other: seq<nat>, otherLanes: nat)
    requires Packing(SortStays(items), placed, lanes) && LanesDisjoint(placed)
    requires forall s :: s in items ==> NonEmpty(s)
    requires |other| == |items| && forall i :: 0 <= i < |items| ==> other[i] < otherLanes
    requires forall i, j, night :: 0 <= i < j < |items| && Occupies(items[i], night) && Occupies(items[j], night)
               ==> other[i] != other[j]
    ensures lanes == PeakOf(items) <= otherLanes
  {
    LaneCount(items, placed, lanes);
    NoFewerLanes(items, other, otherLanes, PeakOf(items));
  }

  /** The extra lane is real: an empty stay inside a one-lane stay is drawn on a second lane. */
  lemma {:induction false} EmptyStayAddsLane(placed: seq<Placed>, lanes: nat)
    requires Packing(SortStays([Stay("a", 0, 2), Stay("b", 1, 1)]), placed, lanes) && LanesDisjoint(placed)
    ensures PeakOf([Stay("a", 0, 2), Stay("b", 1, 1)]) == 1 && lanes == 2
  {
    var a, b := Stay("a", 0, 2), Stay("b", 1, 1);
    var items := [a, b];
    assert items[1..] == [b] && items[1..][1..] == [];
    assert forall f: Stay -> int :: Sum(items, f) == f(a) + f(b);
    assert Occupancy(items, 0) == 1;
    assert Sum(items, SpansAt(1)) == 1;
    assert b in items && b.startsOn == 1;
    PeakUnique(items, 1);
    LaneCount(items, placed, lanes);
  }

  // ---------------------------------------------------------------- bars

  datatype Bar = Bar(left: real, width: real, cutAtStart: bool, cutAtEnd: bool)

  function RMax(a: real, b: real): real { if a < b then b else a }
  function RMin(a: real, b: real): real { if b < a then b else a }

  /** Where a stay is drawn: from the middle of its check-in day to the middle of its check-out day,
      as shares of a window of `dayCount` days. */
  function BarGeometry(startsOn: Day, endsOn: Day, windowStart: Day, dayCount: int): (bar: Option<Bar>)
  {
    var startIndex := startsOn - windowStart;
    var endIndex := endsOn - windowStart;
    if endIndex < 0 || startIndex >= dayCount then None
    else
      var from := RMax(startIndex as real + 0.5, 0.0);
      var to := RMin(endIndex as real + 0.5, dayCount as real);
      if to <= from then None
      else
        assert dayCount > 0;
        Some(Bar(from / dayCount as real, (to - from) / dayCount as real,
                 startIndex as real + 0.5 < 0.0, endIndex as real + 0.5 > dayCount as real))
  }

  lemma {:induction false} DivideOrder(a: real, b: real, n: real)
    requires n > 0.0 && a <= b
    ensures a / n <= b / n
  {
  }

  /** The day a bar starts and the day it ends, in days of the window. */
  function BarStart(startsOn: Day, windowStart: Day): real {
    RMax((startsOn - windowStart) as real + 0.5, 0.0)
  }

  function BarEnd(endsOn: Day, windowStart: Day, dayCount: int): real {
    RMin((endsOn - windowStart) as real + 0.5, dayCount as real)
  }

  lemma {:induction false} SharesAdd(a: real, b: real, n: real)
    requires n > 0.0
    ensures a / n + (b - a) / n == b / n
    ensures a < b ==> (b - a) / n > 0.0
  {
  }

  lemma {:induction false} WholeShare(n: real)
    requires n > 0.0
    ensures n / n == 1.0
  {
  }

  lemma {:induction false} BarEdges(startsOn: Day, endsOn: Day, windowStart: Day, dayCount: int)
    requires BarGeometry(startsOn, endsOn, windowStart, dayCount).Some?
    ensures dayCount > 0
    ensures var bar := BarGeometry(startsOn, endsOn, windowStart, dayCount).value;
      && bar.left == BarStart(startsOn, windowStart) / dayCount as real
      && bar.left + bar.width == BarEnd(endsOn, windowStart, dayCount) / dayCount as real
      && bar.width > 0.0
  {
    SharesAdd(BarStart(startsOn, windowStart), BarEnd(endsOn, windowStart, dayCount), dayCount as real);
  }

  /** A bar stays inside the window, and it is cut exactly on the sides the stay sticks out of. */
  lemma {:induction false} BarInWindow(startsOn: Day, endsOn: Day, windowStart: Day, dayCount: int)
    ensures var bar := BarGeometry(startsOn, endsOn, windowStart, dayCount);
            bar.Some? ==>
              && 0.0 <= bar.value.left && bar.value.width > 0.0 && bar.value.left + bar.value.width <= 1.0
              && (bar.value.cutAtStart <==> startsOn < windowStart)
              && (bar.value.cutAtEnd <==> windowStart + dayCount <= endsOn)
  {
    if BarGeometry(startsOn, endsOn, windowStart, dayCount).Some? {
      BarEdges(startsOn, endsOn, windowStart, dayCount);
      var n := dayCount as real;
      DivideOrder(0.0, BarStart(startsOn, windowStart), n);
      DivideOrder(BarEnd(endsOn, windowStart, dayCount), n, n);
      WholeShare(n);
    }
  }

  /** A stay of at least one night is drawn iff it touches the window. */
  lemma {:induction false} BarShownIffTouching(startsOn: Day, endsOn: Day, windowStart: Day, dayCount: int)
    requires startsOn < endsOn
    ensures BarGeometry(startsOn, endsOn, windowStart, dayCount).Some? <==>
              dayCount > 0 && windowStart <= endsOn && startsOn < windowStart + dayCount
  {
  }

  /** The bar of a stay that ended before another started ends left of it. */
  lemma {:induction false} BarsInOrder(a: Stay, b: Stay, windowStart: Day, dayCount: int)
    requires a.endsOn <= b.startsOn
    requires BarGeometry(a.startsOn, a.endsOn, windowStart, dayCount).Some?
    requires BarGeometry(b.startsOn, b.endsOn, windowStart, dayCount).Some?
    ensures var first := BarGeometry(a.startsOn, a.endsOn, windowStart, dayCount).value;
            var second := BarGeometry(b.startsOn, b.endsOn, windowStart, dayCount).value;
            first.left + first.width <= second.left
  {
    hide BarGeometry;
    BarEdges(a.startsOn, a.endsOn, windowStart, dayCount);
    BarEdges(b.startsOn, b.endsOn, windowStart, dayCount);
    DivideOrder(BarEnd(a.endsOn, windowStart, dayCount), BarStart(b.startsOn, windowStart), dayCount as real);
  }

  /** Bars on one lane never overlap. */
  lemma {:induction false} LaneBarsDisjoint(placed: seq<Placed>, i: nat, j: nat, windowStart: Day, dayCount: int)
    requires LanesDisjoint(placed) && i < j < |placed| && placed[i].lane == placed[j].lane
    ensures var first := BarGeometry(placed[i].item.startsOn, placed[i].item.endsOn, windowStart, dayCount);
            var second := BarGeometry(placed[j].item.startsOn, placed[j].item.endsOn, windowStart, dayCount);
            first.Some? && second.Some? ==> first.value.left + first.value.width <= second.value.left
  {
    var first := BarGeometry(placed[i].item.startsOn, placed[i].item.endsOn, windowStart, dayCount);
    var second := BarGeometry(placed[j].item.startsOn, placed[j].item.endsOn, windowStart, dayCount);
    if first.Some? && second.Some? {
      BarsInOrder(placed[i].item, placed[j].item, windowStart, dayCount);
    }
  }
}
