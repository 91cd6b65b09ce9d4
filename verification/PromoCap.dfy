/** The cap on promo-code uses under concurrent bookings: each use is checked and inserted under a lock
    per code that is held to the end of the transaction. */
module PromoCap {
  import opened Collections
  import opened BookingStatus

  type TxId = nat
  type BookingId = nat

  datatype Booking = Booking(code: Option<string>, status: Status)

  /** A booking transaction that holds the lock of its code; `checked` once `reserveUse` said yes. */
  datatype Tx = Tx(code: string, checked: bool)

  /** Committed bookings and limits, the advisory locks, and the open transactions. */
  datatype State = State(
    bookings: map<BookingId, Booking>,
    limits: map<string, Option<nat>>,
    locks: map<string, TxId>,
    txs: map<TxId, Tx>)

  datatype Step =
    | Acquire(tx: TxId, code: string)
    | CheckUse(tx: TxId)
    | Commit(tx: TxId, booking: BookingId, status: Status)
    | Abort(tx: TxId)
    | OtherBooking(booking: BookingId, status: Status)
    | Move(booking: BookingId, to: Status)
    | RaiseLimit(code: string, limit: Option<nat>)

  ghost function Uses(bookings: map<BookingId, Booking>, code: string): set<BookingId> {
    set id | id in bookings && bookings[id].code == Some(code) && CountsAsUse(bookings[id].status)
  }

  /** `reserveUse`: one more committed use still fits the limit. */
  ghost predicate UseLeft(s: State, code: string) {
    code in s.limits && (s.limits[code].Some? ==> |Uses(s.bookings, code)| < s.limits[code].value)
  }

  predicate Raises(before: Option<nat>, after: Option<nat>) {
    after.None? || (before.Some? && before.value <= after.value)
  }

  ghost predicate Enabled(s: State, step: Step) {
    match step
    case Acquire(tx, code) => tx !in s.txs && code !in s.locks
    case CheckUse(tx) => tx in s.txs && UseLeft(s, s.txs[tx].code)
    case Commit(tx, booking, _) => tx in s.txs && s.txs[tx].checked && booking !in s.bookings
    case Abort(tx) => tx in s.txs
    case OtherBooking(booking, _) => booking !in s.bookings
    case Move(booking, to) => booking in s.bookings && CanTransition(s.bookings[booking].status, to)
    case RaiseLimit(code, limit) => code in s.limits && Raises(s.limits[code], limit)
  }

  /** One step of the system; a step that is not enabled leaves it unchanged. */
  ghost function Apply(s: State, step: Step): State {
    if !Enabled(s, step) then s
    else
      match step
      case Acquire(tx, code) => s.(locks := s.locks[code := tx], txs := s.txs[tx := Tx(code, false)])
      case CheckUse(tx) => s.(txs := s.txs[tx := s.txs[tx].(checked := true)])
      case Commit(tx, booking, status) =>
        State(s.bookings[booking := Booking(Some(s.txs[tx].code), status)], s.limits,
              s.locks - {s.txs[tx].code}, s.txs - {tx})
      case Abort(tx) => s.(locks := s.locks - {s.txs[tx].code}, txs := s.txs - {tx})
      case OtherBooking(booking, status) => s.(bookings := s.bookings[booking := Booking(None, status)])
      case Move(booking, to) => s.(bookings := s.bookings[booking := s.bookings[booking].(status := to)])
      case RaiseLimit(code, limit) => s.(limits := s.limits[code := limit])
  }

  ghost function Run(s: State, steps: seq<Step>): State
    decreases steps
  {
    if steps == [] then s else Run(Apply(s, steps[0]), steps[1..])
  }

  /** Every open transaction holds the lock of its code, and every held lock has its transaction. */
  ghost predicate LocksHeld(s: State) {
    && (forall t :: t in s.txs ==> s.txs[t].code in s.locks && s.locks[s.txs[t].code] == t)
    && (forall c :: c in s.locks ==> s.locks[c] in s.txs && s.txs[s.locks[c]].code == c)
  }

  /** A checked use that is not committed yet. */
  ghost function Pending(s: State, code: string): nat
    requires LocksHeld(s)
  {
    if code in s.locks && s.txs[s.locks[code]].checked then 1 else 0
  }

  /** Committed and pending uses stay within the limit, apart from `returned` uses that came back. */
  ghost predicate Capped(s: State, code: string, returned: nat) {
    && LocksHeld(s)
    && (code in s.limits && s.limits[code].Some? ==>
          |Uses(s.bookings, code)| + Pending(s, code) <= s.limits[code].value + returned)
  }

  /** The step takes a booking of the code from PMS_REJECTED back to MANUAL_REVIEW. */
  ghost predicate Returns(s: State, step: Step, code: string) {
    && step.Move? && Enabled(s, step)
    && s.bookings[step.booking] == Booking(Some(code), PmsRejected) && step.to == ManualReview
  }

  ghost function ReturnCount(s: State, steps: seq<Step>, code: string): nat
    decreases steps
  {
    if steps == [] then 0
    else (if Returns(s, steps[0], code) then 1 else 0) + ReturnCount(Apply(s, steps[0]), steps[1..], code)
  }

  /** Changing or adding one booking changes the uses of a code by at most that booking. */
  lemma {:induction false} UsesAfterUpdate(bookings: map<BookingId, Booking>, id: BookingId, b: Booking, code: string)
    ensures var counts := b.code == Some(code) && CountsAsUse(b.status);
            Uses(bookings[id := b], code)
            == if counts then Uses(bookings, code) + {id} else Uses(bookings, code) - {id}
  {
  }

  lemma {:induction false} MoveKeepsCap(s: State, step: Step, code: string, returned: nat)
    requires step.Move? && Enabled(s, step) && Capped(s, code, returned)
    ensures Capped(Apply(s, step), code, returned + if Returns(s, step, code) then 1 else 0)
  {
    var before := s.bookings[step.booking];
    UsesAfterUpdate(s.bookings, step.booking, before.(status := step.to), code);
    OnlyWayBack(before.status, step.to);
    if before.code == Some(code) && CountsAsUse(before.status) && CountsAsUse(step.to) {
      assert Uses(s.bookings, code) + {step.booking} == Uses(s.bookings, code);
    }
    SubsetSize(Uses(s.bookings, code) - {step.booking}, Uses(s.bookings, code));
  }

  lemma {:induction false} UsesGrow(bookings: map<BookingId, Booking>, id: BookingId, b: Booking, code: string)
    ensures |Uses(bookings[id := b], code)| <= |Uses(bookings, code)| + if b.code == Some(code) then 1 else 0
  {
    hide Uses;
    UsesAfterUpdate(bookings, id, b, code);
    SubsetSize(Uses(bookings, code) - {id}, Uses(bookings, code));
  }

  /** A transaction that ends takes its lock with it. */
  lemma {:induction false} LocksAfterEnd(s: State, tx: TxId)
    requires LocksHeld(s) && tx in s.txs
    ensures LocksHeld(s.(locks := s.locks - {s.txs[tx].code}, txs := s.txs - {tx}))
  {
  }

  lemma {:induction false} CommitKeepsCap(s: State, step: Step, code: string, returned: nat)
    requires step.Commit? && Enabled(s, step) && Capped(s, code, returned)
    ensures Capped(Apply(s, step), code, returned)
  {
    var b := Booking(Some(s.txs[step.tx].code), step.status);
    UsesGrow(s.bookings, step.booking, b, code);
    hide Uses;
    LocksAfterEnd(s, step.tx);
  }

  lemma {:induction false} StepKeepsCap(s: State, step: Step, code: string, returned: nat)
    requires Capped(s, code, returned)
    ensures Capped(Apply(s, step), code, returned + if Returns(s, step, code) then 1 else 0)
  {
    hide Uses;
    if Enabled(s, step) {
      match step
      case Move(_, _) => MoveKeepsCap(s, step, code, returned);
      case Commit(_, _, _) => CommitKeepsCap(s, step, code, returned);
      case OtherBooking(booking, status) => UsesGrow(s.bookings, booking, Booking(None, status), code);
      case Abort(tx) => LocksAfterEnd(s, tx);
      case _ =>
    }
  }

  /** Over every interleaving the uses of a code exceed its limit by no more than the bookings that came
      back from PMS_REJECTED. */
  lemma {:induction false} CapOverRuns(s: State, steps: seq<Step>, code: string, returned: nat)
    requires Capped(s, code, returned)
    ensures Capped(Run(s, steps), code, returned + ReturnCount(s, steps, code))
    decreases steps
  {
    if steps != [] {
      StepKeepsCap(s, steps[0], code, returned);
      CapOverRuns(Apply(s, steps[0]), steps[1..], code,
                  returned + if Returns(s, steps[0], code) then 1 else 0);
    }
  }

  // ---------------------------------------------------------------- exactly which returns break the cap

  /** Every use the limit allows is taken, by a booking or by a transaction that was promised one. */
  ghost predicate Full(s: State, code: string)
    requires LocksHeld(s)
  {
    && code in s.limits && s.limits[code].Some?
    && |Uses(s.bookings, code)| + Pending(s, code) >= s.limits[code].value
  }

  /** A booking that comes back takes exactly one use. */
  lemma {:induction false} ReturnTakesOne(s: State, step: Step, code: string)
    requires Returns(s, step, code)
    ensures |Uses(Apply(s, step).bookings, code)| == |Uses(s.bookings, code)| + 1
  {
    UsesAfterUpdate(s.bookings, step.booking, s.bookings[step.booking].(status := step.to), code);
    assert step.booking !in Uses(s.bookings, code);
  }

  /** A return keeps the cap iff the code was not full before it. */
  lemma {:induction false} ReturnKeepsCapIff(s: State, step: Step, code: string)
    requires Capped(s, code, 0) && Returns(s, step, code)
    ensures Capped(Apply(s, step), code, 0) <==> !Full(s, code)
  {
    ReturnTakesOne(s, step, code);
    hide Uses;
  }

  /** The cap holds now and after every step. */
  ghost predicate AlwaysCapped(s: State, steps: seq<Step>, code: string)
    decreases steps
  {
    Capped(s, code, 0) && (steps != [] ==> AlwaysCapped(Apply(s, steps[0]), steps[1..], code))
  }

  /** Somewhere in the run a booking comes back while the code is full. */
  ghost predicate ReturnsWhenFull(s: State, steps: seq<Step>, code: string)
    requires LocksHeld(s)
    decreases steps
  {
    steps != [] &&
    ((Returns(s, steps[0], code) && Full(s, code)) ||
     (LocksHeld(Apply(s, steps[0])) && ReturnsWhenFull(Apply(s, steps[0]), steps[1..], code)))
  }

  /** The cap holds throughout a run, over any interleaving and with limits only raised, iff no booking comes
      back in it while the code is full. */
  lemma {:induction false} CapHeldIff(s: State, steps: seq<Step>, code: string)
    requires Capped(s, code, 0)
    ensures AlwaysCapped(s, steps, code) <==> !ReturnsWhenFull(s, steps, code)
    decreases steps
  {
    if steps != [] {
      hide Capped, Returns, Full, Apply;
      var next := Apply(s, steps[0]);
      StepKeepsCap(s, steps[0], code, 0);
      CappedHoldsLocks(next, code, if Returns(s, steps[0], code) then 1 else 0);
      if Returns(s, steps[0], code) {
        ReturnKeepsCapIff(s, steps[0], code);
      }
      if Capped(next, code, 0) {
        CapHeldIff(next, steps[1..], code);
      }
    }
  }

  lemma {:induction false} CappedHoldsLocks(s: State, code: string, returned: nat)
    requires Capped(s, code, returned)
    ensures LocksHeld(s)
  {
  }

  /** So without such a return no interleaving of bookings ever exceeds the limit. */
  lemma {:induction false} CapNeverExceeded(s: State, steps: seq<Step>, code: string)
    requires Capped(s, code, 0) && !ReturnsWhenFull(s, steps, code)
    ensures var end := Run(s, steps);
            code in end.limits && end.limits[code].Some? ==> |Uses(end.bookings, code)| <= end.limits[code].value
  {
    CapHeldIff(s, steps, code);
    CappedAtEnd(s, steps, code);
  }

  lemma {:induction false} CappedAtEnd(s: State, steps: seq<Step>, code: string)
    requires AlwaysCapped(s, steps, code)
    ensures Capped(Run(s, steps), code, 0)
    decreases steps
  {
    if steps != [] {
      CappedAtEnd(Apply(s, steps[0]), steps[1..], code);
    }
  }

  /** And each such return lets the bookings themselves exceed it: at once, or as soon as the transaction that
      was promised the last use commits. */
  lemma {:induction false} FullReturnExceeds(s: State, step: Step, code: string) returns (more: seq<Step>)
    requires Capped(s, code, 0) && Returns(s, step, code) && Full(s, code)
    ensures |more| <= 1
    ensures var end := Run(s, [step] + more);
            end.limits == s.limits && |Uses(end.bookings, code)| > s.limits[code].value
  {
    var next := Apply(s, step);
    ReturnTakesOne(s, step, code);
    if Pending(s, code) == 0 {
      more := [];
      assert Run(s, [step]) == next;
      assert [step] + [] == [step];
    } else {
      var tx := s.locks[code];
      var id := UnusedId(next.bookings.Keys);
      more := [Commit(tx, id, Confirmed)];
      UsesAfterUpdate(next.bookings, id, Booking(Some(code), Confirmed), code);
      RunJoins(s, [step], more);
      assert Run(s, [step]) == next;
      assert Run(next, more) == Apply(next, more[0]);
    }
  }

  lemma {:induction false} UnusedId(ids: set<BookingId>) returns (id: BookingId)
    ensures id !in ids
  {
    id := UnusedFrom(ids, 0);
  }

  lemma {:induction false} UnusedFrom(ids: set<BookingId>, low: nat) returns (id: BookingId)
    ensures id >= low && id !in ids
    decreases |ids|
  {
    if low !in ids {
      id := low;
    } else {
      id := UnusedFrom(ids - {low}, low + 1);
    }
  }

  /** The exception is real: a rejected booking gives its use back, another booking takes it, and the
      first returns through manual review. */
  lemma {:induction false} ReturnExceedsCap(code: string) returns (s: State, steps: seq<Step>)
    ensures Capped(s, code, 0) && s.limits == map[code := Some(1)]
    ensures Run(s, steps).limits == s.limits && |Uses(Run(s, steps).bookings, code)| == 2
  {
    var limits := map[code := Some(1)];
    s := State(map[], limits, map[], map[]);
    assert Uses(s.bookings, code) == {};
    var one := TakeUse(s, code, 1, 10, PmsRejected);
    var middle := State(map[10 := Booking(Some(code), PmsRejected)], limits, map[], map[]);
    assert Run(s, one) == middle;
    var two := UseAfterRejection(code, middle);
    RunJoins(s, one, two);
    steps := one + two;
  }

  /** A rejected booking does not count, so the code is used again; then the rejected one comes back. */
  lemma {:induction false} UseAfterRejection(code: string, s: State) returns (steps: seq<Step>)
    requires s == State(map[10 := Booking(Some(code), PmsRejected)], map[code := Some(1)], map[], map[])
    ensures Run(s, steps).limits == s.limits && |Uses(Run(s, steps).bookings, code)| == 2
  {
    assert Uses(s.bookings, code) == {};
    var two := TakeUse(s, code, 2, 20, Confirmed);
    var both := s.bookings[20 := Booking(Some(code), Confirmed)];
    var full := s.(bookings := both);
    assert Run(s, two) == full;
    var back := Move(10, ManualReview);
    assert Uses(both[10 := Booking(Some(code), ManualReview)], code) == {10, 20};
    assert Run(full, [back]) == Apply(full, back);
    RunJoins(s, two, [back]);
    steps := two + [back];
  }

  lemma {:induction false} TakeUse(s: State, code: string, tx: TxId, booking: BookingId, status: Status)
    returns (steps: seq<Step>)
    requires s.locks == map[] && s.txs == map[] && booking !in s.bookings && UseLeft(s, code)
    ensures Run(s, steps) == s.(bookings := s.bookings[booking := Booking(Some(code), status)])
  {
    var locked := Apply(s, Acquire(tx, code));
    var checked := Apply(locked, CheckUse(tx));
    assert checked.txs == map[tx := Tx(code, true)] && checked.locks == map[code := tx];
    assert checked.txs - {tx} == map[] && checked.locks - {code} == map[];
    steps := [Acquire(tx, code)] + [CheckUse(tx)] + [Commit(tx, booking, status)];
    assert Run(s, [Acquire(tx, code)]) == locked;
    assert Run(locked, [CheckUse(tx)]) == checked;
    RunJoins(s, [Acquire(tx, code)], [CheckUse(tx)]);
    RunJoins(s, [Acquire(tx, code)] + [CheckUse(tx)], [Commit(tx, booking, status)]);
  }

  lemma {:induction false} RunJoins(s: State, first: seq<Step>, second: seq<Step>)
    ensures Run(s, first + second) == Run(Run(s, first), second)
    decreases first
  {
    if first == [] {
      assert first + second == second;
    } else {
      assert (first + second)[1..] == first[1..] + second;
      RunJoins(Apply(s, first[0]), first[1..], second);
    }
  }
}
