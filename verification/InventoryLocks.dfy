/** Multi-room orders lock inventory one lock at a time and keep every lock to the end of the
    transaction; why any number of them can never wait for each other in a circle. */
module InventoryLocks {
  import opened Collections
  import opened Text

  /** The property row, one lock per room and one per room type. */
  datatype Lock = PropertyRow | RoomLock(id: string) | TypeLock(id: string)

  predicate LockLess(a: Lock, b: Lock) {
    match a
    case PropertyRow => !b.PropertyRow?
    case RoomLock(id) => b.TypeLock? || (b.RoomLock? && Less(id, b.id))
    case TypeLock(id) => b.TypeLock? && Less(id, b.id)
  }

  lemma {:induction false} LockOrder(a: Lock, b: Lock, c: Lock)
    ensures LockLess(a, b) || LockLess(b, a) || a == b
    ensures !LockLess(a, a)
    ensures LockLess(a, b) && LockLess(b, c) ==> LockLess(a, c)
  {
    if !a.PropertyRow? {
      LessTotal(a.id, a.id);
      if !b.PropertyRow? {
        LessTotal(a.id, b.id);
        if !c.PropertyRow? && Less(a.id, b.id) && Less(b.id, c.id) {
          LessTransitive(a.id, b.id, c.id);
        }
      }
    }
  }

  // ---------------------------------------------------------------- what an order locks

  /** One requested room, its total in minor units. */
  datatype RoomRequest = RoomRequest(roomTypeId: string, roomId: Option<string>, total: nat)

  function InsertId(id: string, ids: seq<string>): (r: seq<string>)
    ensures forall x :: x in r <==> x == id || x in ids
  {
    if ids == [] || !Less(ids[0], id) then [id] + ids else [ids[0]] + InsertId(id, ids[1..])
  }

  /** `ids.sort()` */
  function SortIds(ids: seq<string>): (r: seq<string>)
    ensures forall x :: x in r <==> x in ids
  {
    if ids == [] then [] else InsertId(ids[0], SortIds(ids[1..]))
  }

  ghost predicate SortedIds(ids: seq<string>) {
    forall i, j :: 0 <= i < j < |ids| ==> !Less(ids[j], ids[i])
  }

  lemma {:induction false} InsertIdSorted(id: string, ids: seq<string>)
    requires SortedIds(ids)
    ensures SortedIds(InsertId(id, ids))
  {
    if ids != [] {
      var rest := InsertId(id, ids[1..]);
      LessTotal(ids[0], id);
      if Less(ids[0], id) {
        InsertIdSorted(id, ids[1..]);
        forall k | 0 <= k < |rest|
          ensures !Less(rest[k], ids[0])
        {
          assert rest[k] in rest;
        }
      } else {
        forall k | 0 <= k < |ids|
          ensures !Less(ids[k], id)
        {
          LessTotal(id, ids[0]);
          if Less(ids[k], id) && ids[0] != id {
            LessTransitive(ids[k], id, ids[0]);
          }
        }
      }
    }
  }

  lemma {:induction false} SortIdsSorted(ids: seq<string>)
    ensures SortedIds(SortIds(ids))
  {
    if ids != [] {
      SortIdsSorted(ids[1..]);
      InsertIdSorted(ids[0], SortIds(ids[1..]));
    }
  }

  /** The individually requested rooms. */
  function RoomIds(rooms: seq<RoomRequest>): seq<string> {
    if rooms == [] then []
    else (if rooms[0].roomId.Some? then [rooms[0].roomId.value] else []) + RoomIds(rooms[1..])
  }

  /** The room types requested without a room, each once. */
  function TypeIds(rooms: seq<RoomRequest>): seq<string> {
    if rooms == [] then []
    else
      var rest := TypeIds(rooms[1..]);
      if rooms[0].roomId.Some? || rooms[0].roomTypeId in rest then rest else [rooms[0].roomTypeId] + rest
  }

  /** `lockRoom` and `lockBookedUnits` each take the property row first. */
  function LocksOf(locks: seq<Lock>): seq<Lock> {
    if locks == [] then [] else [PropertyRow, locks[0]] + LocksOf(locks[1..])
  }

  function RoomLocks(ids: seq<string>): (r: seq<Lock>)
    ensures |r| == |ids| && forall i :: 0 <= i < |ids| ==> r[i] == RoomLock(ids[i])
  {
    seq(|ids|, i requires 0 <= i < |ids| => RoomLock(ids[i]))
  }

  function TypeLocks(ids: seq<string>): (r: seq<Lock>)
    ensures |r| == |ids| && forall i :: 0 <= i < |ids| ==> r[i] == TypeLock(ids[i])
  {
    seq(|ids|, i requires 0 <= i < |ids| => TypeLock(ids[i]))
  }

  function Targets(rooms: seq<RoomRequest>): seq<Lock> {
    RoomLocks(SortIds(RoomIds(rooms))) + TypeLocks(SortIds(TypeIds(rooms)))
  }

  /** Acquisitions of `lockInventory`, in order. */
  method LockInventory(rooms: seq<RoomRequest>) returns (trace: seq<Lock>)
    ensures trace == LocksOf(Targets(rooms))
  {
    var roomIds := SortIds(RoomIds(rooms));
    var roomTypeIds := SortIds(TypeIds(rooms));
    trace := [];
    for i := 0 to |roomIds|
      invariant trace == LocksOf(RoomLocks(roomIds[..i]))
    {
      assert RoomLocks(roomIds[..i + 1]) == RoomLocks(roomIds[..i]) + [RoomLock(roomIds[i])];
      LocksOfJoins(RoomLocks(roomIds[..i]), [RoomLock(roomIds[i])]);
      trace := trace + [PropertyRow, RoomLock(roomIds[i])];
    }
    assert roomIds[..|roomIds|] == roomIds;
    ghost var taken := RoomLocks(roomIds);
    assert taken + TypeLocks(roomTypeIds[..0]) == taken;
    for i := 0 to |roomTypeIds|
      invariant trace == LocksOf(taken + TypeLocks(roomTypeIds[..i]))
    {
      assert taken + TypeLocks(roomTypeIds[..i + 1])
          == taken + TypeLocks(roomTypeIds[..i]) + [TypeLock(roomTypeIds[i])];
      LocksOfJoins(taken + TypeLocks(roomTypeIds[..i]), [TypeLock(roomTypeIds[i])]);
      trace := trace + [PropertyRow, TypeLock(roomTypeIds[i])];
    }
    assert roomTypeIds[..|roomTypeIds|] == roomTypeIds;
  }

  lemma {:induction false} LocksOfJoins(a: seq<Lock>, b: seq<Lock>)
    ensures LocksOf(a + b) == LocksOf(a) + LocksOf(b)
  {
    if a == [] {
      assert a + b == b;
    } else {
      assert (a + b)[1..] == a[1..] + b;
      LocksOfJoins(a[1..], b);
    }
  }

  /** Acquisitions of `reserveAll`, whatever order its own sorts visit them in. */
  ghost predicate ReserveTrace(rooms: seq<RoomRequest>, trace: seq<Lock>) {
    forall l :: l in trace ==>
      || l == PropertyRow
      || (l.RoomLock? && l.id in RoomIds(rooms))
      || (l.TypeLock? && l.id in TypeIds(rooms))
  }

  /** Each acquisition is of a lock already held, or of one above every lock held. */
  ghost predicate Climbs(trace: seq<Lock>) {
    forall i :: 0 <= i < |trace| ==>
      trace[i] in trace[..i] || forall j :: 0 <= j < i ==> LockLess(trace[j], trace[i])
  }

  ghost predicate Ascends(locks: seq<Lock>) {
    forall i, j :: 0 <= i < j < |locks| ==> locks[i] == locks[j] || LockLess(locks[i], locks[j])
  }

  lemma {:induction false} TargetsAscend(rooms: seq<RoomRequest>)
    ensures Ascends(Targets(rooms))
    ensures forall l :: l in Targets(rooms) ==> !l.PropertyRow?
  {
    var ids, types := SortIds(RoomIds(rooms)), SortIds(TypeIds(rooms));
    SortIdsSorted(RoomIds(rooms));
    SortIdsSorted(TypeIds(rooms));
    var locks := Targets(rooms);
    forall i, j | 0 <= i < j < |locks|
      ensures locks[i] == locks[j] || LockLess(locks[i], locks[j])
    {
      if j < |ids| {
        LessTotal(ids[i], ids[j]);
      } else if i >= |ids| {
        LessTotal(types[i - |ids|], types[j - |ids|]);
      }
    }
  }

  lemma {:induction false} LocksOfAt(locks: seq<Lock>, i: nat)
    requires i < |LocksOf(locks)|
    ensures |LocksOf(locks)| == 2 * |locks|
    ensures LocksOf(locks)[i] == if i % 2 == 0 then PropertyRow else locks[i / 2]
  {
    if i >= 2 {
      LocksOfAt(locks[1..], i - 2);
    } else if |locks| > 1 {
      LocksOfAt(locks[1..], 0);
    }
  }

  lemma {:induction false} LocksOfClimbs(locks: seq<Lock>)
    requires Ascends(locks) && forall l :: l in locks ==> !l.PropertyRow?
    ensures Climbs(LocksOf(locks))
  {
    var trace := LocksOf(locks);
    forall i | 0 <= i < |trace|
      ensures trace[i] in trace[..i] || forall j :: 0 <= j < i ==> LockLess(trace[j], trace[i])
    {
      LocksOfAt(locks, i);
      if i > 0 && i % 2 == 0 {
        LocksOfAt(locks, 0);
        assert trace[..i][0] == trace[i];
      } else if i > 0 && trace[i] !in trace[..i] {
        forall j | 0 <= j < i
          ensures LockLess(trace[j], trace[i])
        {
          LocksOfAt(locks, j);
          assert trace[..i][j] == trace[j];
          assert locks[i / 2] in locks;
        }
      }
    }
  }

  lemma {:induction false} HeldAgainClimbs(first: seq<Lock>, more: seq<Lock>)
    requires Climbs(first) && forall l :: l in more ==> l in first
    ensures Climbs(first + more)
  {
    var trace := first + more;
    forall i | 0 <= i < |trace|
      ensures trace[i] in trace[..i] || forall j :: 0 <= j < i ==> LockLess(trace[j], trace[i])
    {
      if i < |first| {
        assert trace[..i] == first[..i];
      } else {
        assert trace[i] in more;
        var k :| 0 <= k < |first| && first[k] == trace[i];
        assert trace[..i][k] == trace[i];
      }
    }
  }

  /** Every order climbs: the locks of `reserveAll` are all held by then. */
  lemma {:induction false} OrderClimbs(rooms: seq<RoomRequest>, reserve: seq<Lock>)
    requires rooms != [] && ReserveTrace(rooms, reserve)
    ensures Climbs(LocksOf(Targets(rooms)) + reserve)
  {
    var first := LocksOf(Targets(rooms));
    TargetsAscend(rooms);
    LocksOfClimbs(Targets(rooms));
    forall l | l in reserve
      ensures l in first
    {
      HeldAfterLocking(rooms, l);
    }
    HeldAgainClimbs(first, reserve);
  }

  lemma {:induction false} LocksOfMembers(locks: seq<Lock>)
    ensures forall l :: l in LocksOf(locks) <==> l in locks || (l == PropertyRow && locks != [])
  {
    if locks != [] {
      LocksOfMembers(locks[1..]);
      assert locks == [locks[0]] + locks[1..];
    }
  }

  lemma {:induction false} TargetsMembers(rooms: seq<RoomRequest>, l: Lock)
    requires (l.RoomLock? && l.id in RoomIds(rooms)) || (l.TypeLock? && l.id in TypeIds(rooms))
    ensures l in Targets(rooms)
  {
    var ids, types := SortIds(RoomIds(rooms)), SortIds(TypeIds(rooms));
    if l.RoomLock? {
      var k :| 0 <= k < |ids| && ids[k] == l.id;
      assert Targets(rooms)[k] == l;
    } else {
      var k :| 0 <= k < |types| && types[k] == l.id;
      assert Targets(rooms)[|ids| + k] == l;
    }
  }

  lemma {:induction false} HeldAfterLocking(rooms: seq<RoomRequest>, l: Lock)
    requires rooms != []
    requires l == PropertyRow || (l.RoomLock? && l.id in RoomIds(rooms)) || (l.TypeLock? && l.id in TypeIds(rooms))
    ensures l in LocksOf(Targets(rooms))
  {
    LocksOfMembers(Targets(rooms));
    if l == PropertyRow {
      SomethingRequested(rooms);
    } else {
      TargetsMembers(rooms, l);
    }
  }

  lemma {:induction false} SomethingRequested(rooms: seq<RoomRequest>)
    requires rooms != []
    ensures Targets(rooms) != []
  {
    if rooms[0].roomId.Some? {
      assert rooms[0].roomId.value in SortIds(RoomIds(rooms));
    } else {
      assert rooms[0].roomTypeId in SortIds(TypeIds(rooms));
    }
  }

  /** The locks taken for the first time, in order. */
  ghost function NewLocks(trace: seq<Lock>): seq<Lock> {
    if trace == [] then []
    else
      var front, last := trace[..|trace| - 1], trace[|trace| - 1];
      if last in front then NewLocks(front) else NewLocks(front) + [last]
  }

  /** The locks an order takes form a strictly increasing sequence. */
  lemma {:induction false} NewLocksIncrease(trace: seq<Lock>)
    requires Climbs(trace)
    ensures forall l :: l in NewLocks(trace) <==> l in trace
    ensures forall i, j :: 0 <= i < j < |NewLocks(trace)| ==> LockLess(NewLocks(trace)[i], NewLocks(trace)[j])
  {
    if trace != [] {
      var n := |trace| - 1;
      var front, last := trace[..n], trace[n];
      assert trace == front + [last];
      forall i | 0 <= i < |front|
        ensures front[i] in front[..i] || forall j :: 0 <= j < i ==> LockLess(front[j], front[i])
      {
        assert trace[..i] == front[..i];
      }
      NewLocksIncrease(front);
      if last !in front {
        forall l | l in NewLocks(front)
          ensures LockLess(l, last)
        {
          var k :| 0 <= k < |front| && front[k] == l;
        }
      }
    }
  }

  // ---------------------------------------------------------------- any number of orders at once

  /** `orders[p]` is what order p acquires; `progress[p]` how many acquisitions it made, one more when it
      has ended and released everything. */
  ghost predicate Shape(orders: seq<seq<Lock>>, progress: seq<nat>) {
    |progress| == |orders| && forall p :: 0 <= p < |orders| ==> progress[p] <= |orders[p]| + 1
  }

  ghost predicate Ended(orders: seq<seq<Lock>>, progress: seq<nat>, p: nat)
    requires Shape(orders, progress) && p < |orders|
  {
    progress[p] == |orders[p]| + 1
  }

  ghost predicate Holds(orders: seq<seq<Lock>>, progress: seq<nat>, p: nat, l: Lock)
    requires Shape(orders, progress) && p < |orders|
  {
    !Ended(orders, progress, p) && l in orders[p][..progress[p]]
  }

  /** An order can end after its last acquisition, and can acquire a lock no other order holds. */
  ghost predicate CanStep(orders: seq<seq<Lock>>, progress: seq<nat>, p: nat)
    requires Shape(orders, progress) && p < |orders|
  {
    && !Ended(orders, progress, p)
    && (progress[p] < |orders[p]| ==>
          forall q :: 0 <= q < |orders| && q != p ==> !Holds(orders, progress, q, orders[p][progress[p]]))
  }

  ghost predicate AllEnded(orders: seq<seq<Lock>>, progress: seq<nat>)
    requires Shape(orders, progress)
  {
    forall p :: 0 <= p < |orders| ==> Ended(orders, progress, p)
  }

  ghost predicate Above(orders: seq<seq<Lock>>, progress: seq<nat>, n: nat, top: Lock)
    requires Shape(orders, progress) && n <= |orders|
  {
    forall q, l :: 0 <= q < n && Holds(orders, progress, q, l) ==> l == top || LockLess(l, top)
  }

  lemma {:induction false} HighestOf(locks: seq<Lock>) returns (top: Lock)
    requires locks != []
    ensures top in locks && forall l :: l in locks ==> l == top || LockLess(l, top)
  {
    var last := locks[|locks| - 1];
    var front := locks[..|locks| - 1];
    assert locks == front + [last];
    if front == [] {
      top := last;
    } else {
      var t := HighestOf(front);
      LockOrder(t, last, last);
      top := if LockLess(t, last) then last else t;
      forall l | l in locks
        ensures l == top || LockLess(l, top)
      {
        LockOrder(l, t, last);
        LockOrder(last, t, t);
      }
    }
  }

  /** The highest lock held by the first n orders, if they hold any. */
  lemma {:induction false} HighestHeld(orders: seq<seq<Lock>>, progress: seq<nat>, n: nat)
    returns (holder: Option<nat>, top: Lock)
    requires Shape(orders, progress) && n <= |orders|
    ensures holder.Some? ==> holder.value < n && Holds(orders, progress, holder.value, top) && Above(orders, progress, n, top)
    ensures holder.None? ==> forall q, l :: 0 <= q < n ==> !Holds(orders, progress, q, l)
  {
    if n == 0 {
      holder, top := None, PropertyRow;
    } else {
      holder, top := HighestHeld(orders, progress, n - 1);
      var p := n - 1;
      if !Ended(orders, progress, p) && progress[p] > 0 {
        var mine := HighestOf(orders[p][..progress[p]]);
        if holder.None? {
          holder, top := Some(p), mine;
        } else {
          LockOrder(top, mine, mine);
          var before := top;
          if LockLess(top, mine) {
            holder, top := Some(p), mine;
          }
          forall q, l | 0 <= q < n && Holds(orders, progress, q, l)
            ensures l == top || LockLess(l, top)
          {
            LockOrder(l, before, mine);
            LockOrder(l, mine, before);
          }
        }
      }
    }
  }

  /** No lock is held by two orders. */
  ghost predicate Exclusive(orders: seq<seq<Lock>>, progress: seq<nat>)
    requires Shape(orders, progress)
  {
    forall p, q, l :: 0 <= p < |orders| && 0 <= q < |orders| && p != q && Holds(orders, progress, p, l) ==>
      !Holds(orders, progress, q, l)
  }

  ghost predicate AllClimb(orders: seq<seq<Lock>>) {
    forall i :: 0 <= i < |orders| ==> Climbs(orders[i])
  }

  /** No deadlock: while an order has not ended, some order can step. */
  lemma {:induction false} SomeOrderCanStep(orders: seq<seq<Lock>>, progress: seq<nat>) returns (p: nat)
    requires Shape(orders, progress) && !AllEnded(orders, progress)
    requires AllClimb(orders) && Exclusive(orders, progress)
    ensures p < |orders| && CanStep(orders, progress, p)
  {
    var holder, top := HighestHeld(orders, progress, |orders|);
    if holder.None? {
      p :| 0 <= p < |orders| && !Ended(orders, progress, p);
    } else {
      p := holder.value;
      var n := progress[p];
      if n < |orders[p]| {
        var next := orders[p][n];
        if next in orders[p][..n] {
          assert Holds(orders, progress, p, next);
        } else {
          NextIsAbove(orders[p], n, top);
          forall q | 0 <= q < |orders| && q != p
            ensures !Holds(orders, progress, q, next)
          {
            LockOrder(next, top, next);
            LockOrder(top, next, top);
          }
        }
      }
    }
  }

  lemma {:induction false} NextIsAbove(trace: seq<Lock>, n: nat, held: Lock)
    requires Climbs(trace) && n < |trace| && held in trace[..n] && trace[n] !in trace[..n]
    ensures LockLess(held, trace[n])
  {
    var k :| 0 <= k < n && trace[..n][k] == held;
  }

  ghost function Step(orders: seq<seq<Lock>>, progress: seq<nat>, p: nat): (after: seq<nat>)
    requires Shape(orders, progress) && p < |orders| && CanStep(orders, progress, p)
    ensures Shape(orders, after)
  {
    progress[p := progress[p] + 1]
  }

  lemma {:induction false} StepKeepsExclusive(orders: seq<seq<Lock>>, progress: seq<nat>, p: nat)
    requires Shape(orders, progress) && Exclusive(orders, progress)
    requires p < |orders| && CanStep(orders, progress, p)
    ensures Exclusive(orders, Step(orders, progress, p))
  {
    var after := Step(orders, progress, p);
    forall q, l | 0 <= q < |orders| && Holds(orders, after, q, l)
      ensures Holds(orders, progress, q, l) || (q == p && l == orders[p][progress[p]])
    {
      if q == p {
        assert orders[p][..after[p]] == orders[p][..progress[p]] + [orders[p][progress[p]]];
      }
    }
  }

  /** Acquisitions and releases still to come, over all orders. */
  ghost function Remaining(orders: seq<seq<Lock>>, progress: seq<nat>): nat
    requires Shape(orders, progress)
  {
    if orders == [] then 0
    else |orders[0]| + 1 - progress[0] + Remaining(orders[1..], progress[1..])
  }

  lemma {:induction false} StepUses(orders: seq<seq<Lock>>, progress: seq<nat>, after: seq<nat>, p: nat)
    requires Shape(orders, progress) && Shape(orders, after)
    requires p < |orders| && after == progress[p := progress[p] + 1]
    ensures Remaining(orders, after) == Remaining(orders, progress) - 1
  {
    if p == 0 {
      assert after[1..] == progress[1..];
    } else {
      assert after[1..] == progress[1..][p - 1 := progress[1..][p - 1] + 1];
      StepUses(orders[1..], progress[1..], after[1..], p - 1);
    }
  }

  /** A run: at each point one order that can step is picked. */
  ghost predicate IsRun(orders: seq<seq<Lock>>, progress: seq<nat>, picks: seq<nat>)
    requires Shape(orders, progress)
    decreases picks
  {
    picks == [] ||
    (picks[0] < |orders| && CanStep(orders, progress, picks[0])
     && IsRun(orders, Step(orders, progress, picks[0]), picks[1..]))
  }

  ghost function After(orders: seq<seq<Lock>>, progress: seq<nat>, picks: seq<nat>): (after: seq<nat>)
    requires Shape(orders, progress) && IsRun(orders, progress, picks)
    ensures Shape(orders, after)
    decreases picks
  {
    if picks == [] then progress else After(orders, Step(orders, progress, picks[0]), picks[1..])
  }

  /** Along any run locks stay exclusive, each step uses up one of the remaining ones, and until all
      orders have ended some order can step; so no run is stuck and every run that goes on ends all orders. */
  lemma {:induction false} OrdersFinish(orders: seq<seq<Lock>>, progress: seq<nat>, picks: seq<nat>)
    requires Shape(orders, progress) && AllClimb(orders) && Exclusive(orders, progress)
    requires IsRun(orders, progress, picks)
    ensures Remaining(orders, progress) >= |picks|
    ensures var after := After(orders, progress, picks);
            && Exclusive(orders, after)
            && Remaining(orders, after) == Remaining(orders, progress) - |picks|
            && (AllEnded(orders, after) || exists p: nat :: p < |orders| && CanStep(orders, after, p))
    decreases picks
  {
    if picks != [] {
      var next := Step(orders, progress, picks[0]);
      StepKeepsExclusive(orders, progress, picks[0]);
      StepUses(orders, progress, next, picks[0]);
      OrdersFinish(orders, next, picks[1..]);
    } else if !AllEnded(orders, progress) {
      var p := SomeOrderCanStep(orders, progress);
    }
  }

  /** Nothing is left to do iff every order has ended. */
  lemma {:induction false} NothingRemainingIff(orders: seq<seq<Lock>>, progress: seq<nat>)
    requires Shape(orders, progress)
    ensures Remaining(orders, progress) == 0 <==> AllEnded(orders, progress)
  {
    if orders != [] {
      NothingRemainingIff(orders[1..], progress[1..]);
      forall p | 1 <= p < |orders|
        ensures Ended(orders, progress, p) <==> Ended(orders[1..], progress[1..], p - 1)
      {
      }
      if AllEnded(orders, progress) {
        assert Ended(orders, progress, 0);
        forall p | 0 <= p < |orders| - 1
          ensures Ended(orders[1..], progress[1..], p)
        {
          assert Ended(orders, progress, p + 1);
        }
      }
    }
  }

  // ---------------------------------------------------------------- concurrent orders of rooms

  /** What each order acquires: its locks, and those its reservation takes again. */
  function Acquisitions(rooms: seq<seq<RoomRequest>>, reserves: seq<seq<Lock>>): (orders: seq<seq<Lock>>)
    requires |rooms| == |reserves|
    ensures |orders| == |rooms|
  {
    seq(|rooms|, i requires 0 <= i < |rooms| => LocksOf(Targets(rooms[i])) + reserves[i])
  }

  /** Nobody has acquired anything. */
  function NotStarted(n: nat): (progress: seq<nat>)
    ensures |progress| == n && forall p :: 0 <= p < n ==> progress[p] == 0
  {
    seq(n, _ => 0)
  }

  /** Any number of concurrent orders, each for at least one room, started from nothing and stepped in any order
      the locks allow: the run is never stuck, it has ended every order exactly when it has made all the steps
      there are, and it can make no more. */
  lemma {:induction false} ConcurrentOrdersEnd(rooms: seq<seq<RoomRequest>>, reserves: seq<seq<Lock>>, picks: seq<nat>)
    requires |rooms| == |reserves|
    requires forall i :: 0 <= i < |rooms| ==> rooms[i] != [] && ReserveTrace(rooms[i], reserves[i])
    requires IsRun(Acquisitions(rooms, reserves), NotStarted(|rooms|), picks)
    ensures var orders, start := Acquisitions(rooms, reserves), NotStarted(|rooms|);
      var after := After(orders, start, picks);
      && |picks| <= Remaining(orders, start)
      && (AllEnded(orders, after) <==> |picks| == Remaining(orders, start))
      && (AllEnded(orders, after) || exists p: nat :: p < |orders| && CanStep(orders, after, p))
  {
    var orders, start := Acquisitions(rooms, reserves), NotStarted(|rooms|);
    forall i | 0 <= i < |orders|
      ensures Climbs(orders[i])
    {
      OrderClimbs(rooms[i], reserves[i]);
    }
    assert Exclusive(orders, start) by {
      assert forall p, l :: 0 <= p < |orders| ==> !Holds(orders, start, p, l);
    }
    OrdersFinish(orders, start, picks);
    NothingRemainingIff(orders, After(orders, start, picks));
  }
}
