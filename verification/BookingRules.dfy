/** The booking policy decision: which stays and blocks are accepted, over the restriction verdict. */
module BookingRules {
  import opened Collections
  import opened Calendar
  import opened Restrictions

  datatype Channel = Guest | Staff | Block
  datatype ConflictKind = Booking | BlockedRange
  datatype Range = Range(startsOn: Day, endsOn: Day, kind: ConflictKind)

  datatype Policy = Policy(
    minStayNights: Option<int>,
    maxStayNights: Option<int>,
    advanceBookingDays: Option<int>,
    maxGuestsPerBooking: Option<int>,
    maxRoomsPerBooking: Option<int>)

  /** `today` and `sameDayClosed` are read off the property's clock by the caller. */
  datatype Request = Request(
    channel: Channel,
    startsOn: Day,
    endsOn: Day,
    today: Day,
    sameDayClosed: bool,
    policy: Policy,
    adults: Option<int>,
    children: Option<int>,
    maxOccupancy: Option<int>,
    roomCount: Option<int>,
    roomActive: Option<bool>,
    roomTypePublished: Option<bool>,
    availableUnits: Option<int>,
    conflicts: seq<Range>,
    restrictions: seq<Rule>)

  datatype Violation =
    | InvalidRange | InPast | Restriction(error: Error) | MinStay | MaxStay | AdvanceLimit | SameDayClosed
    | MaxGuests | MaxRooms | TypeNotAvailable | RoomNotAvailable | CapacityExceeded | NoAvailability
    | BlockOnReservation | BookingConflict | BlockConflict

  function Or<T>(option: Option<T>, otherwise: T): T {
    if option.Some? then option.value else otherwise
  }

  function OrElse<T>(option: Option<T>, otherwise: Option<T>): Option<T> {
    if option.Some? then option else otherwise
  }

  predicate RuleRangesOverlap(startsOn: Day, endsOn: Day, other: Range) {
    startsOn < other.endsOn && endsOn > other.startsOn
  }

  /** For ranges that have a night, overlapping means sharing one. */
  lemma {:induction false} OverlapSharesANight(startsOn: Day, endsOn: Day, other: Range)
    requires startsOn < endsOn && other.startsOn < other.endsOn
    ensures RuleRangesOverlap(startsOn, endsOn, other) <==>
              exists n :: OccupiesNight(startsOn, endsOn, n) && OccupiesNight(other.startsOn, other.endsOn, n)
  {
    if RuleRangesOverlap(startsOn, endsOn, other) {
      var n := if startsOn < other.startsOn then other.startsOn else startsOn;
      assert OccupiesNight(startsOn, endsOn, n);
    }
  }

  function Guests(request: Request): int {
    Or(request.adults, 1) + Or(request.children, 0)
  }

  ghost predicate Within(limit: Option<int>, n: int) {
    limit.Some? ==> n <= limit.value
  }

  /** The stay length against the minimum stay that a restriction decides for the arrival day, else the policy's. */
  ghost predicate MinimumMet(request: Request) {
    var nights := request.endsOn - request.startsOn;
    && (forall v :: Decides(request.restrictions, MinimumStay, request.startsOn, v) ==> nights >= v)
    && ((forall v :: !Decides(request.restrictions, MinimumStay, request.startsOn, v)) ==>
          request.policy.minStayNights.Some? ==> nights >= request.policy.minStayNights.value)
  }

  ghost predicate MaximumMet(request: Request) {
    var nights := request.endsOn - request.startsOn;
    && (forall v :: Decides(request.restrictions, MaximumStay, request.startsOn, v) ==> nights <= v)
    && ((forall v :: !Decides(request.restrictions, MaximumStay, request.startsOn, v)) ==>
          Within(request.policy.maxStayNights, nights))
  }

  /** The limit in force: what a restriction decides for the arrival day, else the policy's. */
  ghost predicate InForce(request: Request, kind: Kind, otherwise: Option<int>, limit: Option<int>) {
    && (forall v :: Decides(request.restrictions, kind, request.startsOn, v) ==> limit == Some(v))
    && ((forall v :: !Decides(request.restrictions, kind, request.startsOn, v)) ==> limit == otherwise)
  }

  datatype StayLimits = StayLimits(minimum: Option<int>, maximum: Option<int>)

  ghost predicate LimitsInForce(request: Request, limits: StayLimits) {
    && InForce(request, MinimumStay, request.policy.minStayNights, limits.minimum)
    && InForce(request, MaximumStay, request.policy.maxStayNights, limits.maximum)
  }

  ghost predicate NoConflictOf(request: Request, kind: ConflictKind) {
    forall c :: c in request.conflicts && c.kind == kind ==>
      !RuleRangesOverlap(request.startsOn, request.endsOn, c)
  }

  /** Everything an accepted stay or block satisfies, with restrictions stated night by night. */
  ghost predicate Accepted(request: Request) {
    && request.startsOn < request.endsOn
    && request.today <= request.startsOn
    && NoConflictOf(request, Booking)
    && (request.channel != Block ==>
      && NoConflictOf(request, BlockedRange)
      && Unrestricted(request.restrictions, request.startsOn, request.endsOn, request.today)
      && MinimumMet(request) && MaximumMet(request)
      && Within(request.policy.advanceBookingDays, request.startsOn - request.today)
      && !request.sameDayClosed
      && Within(request.policy.maxGuestsPerBooking, Guests(request))
      && Within(request.policy.maxRoomsPerBooking, Or(request.roomCount, 1))
      && request.roomTypePublished != Some(false)
      && request.roomActive != Some(false)
      && Within(request.maxOccupancy, Guests(request))
      && (request.availableUnits.Some? ==> request.availableUnits.value >= 1))
  }

  /** Why a violation is reported of a stay, restrictions apart. */
  ghost predicate StayReason(request: Request, violation: Violation) {
    match violation
    case MinStay => !MinimumMet(request)
    case MaxStay => !MaximumMet(request)
    case AdvanceLimit => !Within(request.policy.advanceBookingDays, request.startsOn - request.today)
    case SameDayClosed => request.sameDayClosed
    case MaxGuests => !Within(request.policy.maxGuestsPerBooking, Guests(request))
    case MaxRooms => !Within(request.policy.maxRoomsPerBooking, Or(request.roomCount, 1))
    case TypeNotAvailable => request.roomTypePublished == Some(false)
    case RoomNotAvailable => request.roomActive == Some(false)
    case CapacityExceeded => !Within(request.maxOccupancy, Guests(request))
    case NoAvailability => request.availableUnits.Some? && request.availableUnits.value < 1
    case _ => false
  }

  /** Why a violation is reported, restrictions apart. */
  ghost predicate Reason(request: Request, violation: Violation) {
    if request.endsOn <= request.startsOn then violation == InvalidRange
    else
      match violation
      case InPast => request.startsOn < request.today
      case BlockOnReservation => request.channel == Block && !NoConflictOf(request, Booking)
      case BookingConflict => request.channel != Block && !NoConflictOf(request, Booking)
      case BlockConflict => request.channel != Block && !NoConflictOf(request, BlockedRange)
      case _ => request.channel != Block && StayReason(request, violation)
  }

  predicate IsStay(request: Request) {
    request.startsOn < request.endsOn && request.channel != Block
  }

  /** Some restriction is reported. */
  ghost predicate Restricts(errors: seq<Violation>) {
    exists v :: v in errors && v.Restriction?
  }

  /** Each violation is reported exactly when its reason holds, and the request is valid when none is.
      The limits in force are told when there are restrictions to take them from. */
  method EvaluateBookingRules(request: Request)
    returns (valid: bool, errors: seq<Violation>, limits: Option<StayLimits>)
    ensures forall v: Violation :: !v.Restriction? ==> (v in errors <==> Reason(request, v))
    ensures Restricts(errors) <==>
              IsStay(request) && !Unrestricted(request.restrictions, request.startsOn, request.endsOn, request.today)
    ensures valid <==> Accepted(request)
    ensures limits.Some? <==> IsStay(request) && request.restrictions != []
    ensures limits.Some? ==> LimitsInForce(request, limits.value)
  {
    hide NoConflictOf, LimitsInForce, Unrestricted, Accepted, MinimumMet, MaximumMet, Within, Guests;
    if request.endsOn <= request.startsOn {
      NoStayAccepted(request);
      return false, [InvalidRange], None;
    }
    errors, limits := [], None;
    if request.startsOn < request.today {
      errors := errors + [InPast];
    }
    if request.channel != Block {
      var stay, inForce := StayErrors(request);
      errors := errors + stay;
      if request.restrictions != [] {
        limits := Some(inForce);
      }
    }
    var conflicting := ConflictErrors(request);
    errors := errors + conflicting;
    valid := errors == [];
    AcceptedIffNoReason(request, errors);
  }

  predicate ConflictKindOf(violation: Violation) {
    violation == BlockOnReservation || violation == BookingConflict || violation == BlockConflict
  }

  /** Reservations and blocks that overlap the range. */
  method ConflictErrors(request: Request) returns (errors: seq<Violation>)
    requires request.startsOn < request.endsOn
    ensures forall v :: v in errors <==> ConflictKindOf(v) && Reason(request, v)
  {
    errors := [];
    var conflicts := Filter(request.conflicts,
                            (c: Range) => RuleRangesOverlap(request.startsOn, request.endsOn, c));
    if exists c :: c in conflicts && c.kind == Booking {
      errors := errors + [if request.channel == Block then BlockOnReservation else BookingConflict];
    }
    if request.channel != Block && exists c :: c in conflicts && c.kind == BlockedRange {
      errors := errors + [BlockConflict];
    }
  }

  lemma {:induction false} NoStayAccepted(request: Request)
    requires request.endsOn <= request.startsOn
    ensures !Accepted(request)
  {
  }

  /** With every violation explained, an empty list is what acceptance means. */
  lemma {:induction false} AcceptedIffNoReason(request: Request, errors: seq<Violation>)
    requires request.startsOn < request.endsOn
    requires forall v: Violation :: !v.Restriction? ==> (v in errors <==> Reason(request, v))
    requires Restricts(errors) <==>
               IsStay(request) && !Unrestricted(request.restrictions, request.startsOn, request.endsOn, request.today)
    ensures errors == [] <==> Accepted(request)
  {
    hide Unrestricted, MinimumMet, MaximumMet, NoConflictOf, Within, Guests;
    if errors != [] {
      var v := errors[0];
      if v.Restriction? {
        assert Restricts(errors);
      } else {
        assert Reason(request, v);
      }
    } else {
      assert forall v: Violation :: !v.Restriction? ==> !Reason(request, v);
      NoReasonAccepts(request);
    }
  }

  lemma {:induction false} NoReasonAccepts(request: Request)
    requires request.startsOn < request.endsOn
    requires forall v: Violation :: !v.Restriction? ==> !Reason(request, v)
    requires !IsStay(request) || Unrestricted(request.restrictions, request.startsOn, request.endsOn, request.today)
    ensures Accepted(request)
  {
    hide Unrestricted, MinimumMet, MaximumMet, NoConflictOf, Within, Guests;
    assert !Reason(request, InPast) && !Reason(request, BlockOnReservation) && !Reason(request, BookingConflict);
    if request.channel != Block {
      assert !Reason(request, BlockConflict);
      assert !Reason(request, MinStay) && !Reason(request, MaxStay) && !Reason(request, AdvanceLimit);
      assert !Reason(request, SameDayClosed) && !Reason(request, MaxGuests) && !Reason(request, MaxRooms);
      assert !Reason(request, TypeNotAvailable) && !Reason(request, RoomNotAvailable);
      assert !Reason(request, CapacityExceeded) && !Reason(request, NoAvailability);
    }
  }

  /** Pushes a violation when its condition holds. */
  function Report(errors: seq<Violation>, condition: bool, violation: Violation): (r: seq<Violation>)
    ensures forall v :: v in r <==> v in errors || (condition && v == violation)
  {
    if condition then errors + [violation] else errors
  }

  predicate Exceeds(n: int, limit: Option<int>) {
    limit.Some? && n > limit.value
  }

  /** The part a block skips: restrictions, stay policy and capacity. */
  method StayErrors(request: Request) returns (errors: seq<Violation>, limits: StayLimits)
    requires request.startsOn < request.endsOn
    ensures forall v: Violation :: !v.Restriction? ==> (v in errors <==> StayReason(request, v))
    ensures Restricts(errors) <==>
              !Unrestricted(request.restrictions, request.startsOn, request.endsOn, request.today)
    ensures LimitsInForce(request, limits)
  {
    hide LimitsInForce, Report, Unrestricted, MinimumMet, MaximumMet, EvaluatesTo, Within;
    var nights := request.endsOn - request.startsOn;
    var r, tested := EvaluateRestrictions(request.restrictions, request.startsOn, request.endsOn, request.today);
    RestrictionFacts(request, r);
    errors := RestrictionErrors(r.errors);
    ghost var restricted := errors;
    limits := StayLimits(OrElse(r.minimumStay, request.policy.minStayNights),
                         OrElse(r.maximumStay, request.policy.maxStayNights));
    errors := Report(errors, limits.minimum.Some? && nights < limits.minimum.value, MinStay);
    errors := Report(errors, Exceeds(nights, limits.maximum), MaxStay);
    errors := PolicyErrors(request, errors);
    assert forall v: Violation :: v.Restriction? ==> (v in errors <==> v in restricted);
    RestrictsSame(errors, restricted);
  }

  lemma {:induction false} RestrictsSame(a: seq<Violation>, b: seq<Violation>)
    requires forall v: Violation :: v.Restriction? ==> (v in a <==> v in b)
    ensures Restricts(a) == Restricts(b)
  {
  }

  function RestrictionErrors(errors: seq<Error>): (r: seq<Violation>)
    ensures forall v :: v in r ==> v.Restriction?
    ensures Restricts(r) <==> errors != []
  {
    var r := seq(|errors|, i requires 0 <= i < |errors| => Restriction(errors[i]));
    assert errors != [] ==> r[0] in r;
    r
  }

  predicate PolicyKind(violation: Violation) {
    violation != MinStay && violation != MaxStay && !violation.Restriction?
  }

  method PolicyErrors(request: Request, before: seq<Violation>) returns (errors: seq<Violation>)
    ensures forall v :: v in errors <==> v in before || (PolicyKind(v) && StayReason(request, v))
  {
    hide Report, MinimumMet, MaximumMet, Guests;
    var policy := request.policy;
    errors := before;
    errors := Report(errors, Exceeds(request.startsOn - request.today, policy.advanceBookingDays), AdvanceLimit);
    errors := Report(errors, request.sameDayClosed, SameDayClosed);
    errors := Report(errors, Exceeds(Guests(request), policy.maxGuestsPerBooking), MaxGuests);
    errors := Report(errors, Exceeds(Or(request.roomCount, 1), policy.maxRoomsPerBooking), MaxRooms);
    errors := Report(errors, request.roomTypePublished == Some(false), TypeNotAvailable);
    errors := Report(errors, request.roomActive == Some(false), RoomNotAvailable);
    errors := Report(errors, Exceeds(Guests(request), request.maxOccupancy), CapacityExceeded);
    errors := Report(errors, request.availableUnits.Some? && request.availableUnits.value < 1, NoAvailability);
  }

  /** What the evaluation of the restrictions means for the stay. */
  lemma {:induction false} RestrictionFacts(request: Request, r: Evaluation)
    requires exists walk: Walk ::
      EvaluatesTo(ChooserOf(request.restrictions), request.startsOn, request.endsOn, request.today, walk, r)
    ensures r.errors == [] <==>
              Unrestricted(request.restrictions, request.startsOn, request.endsOn, request.today)
    ensures var nights := request.endsOn - request.startsOn;
      && (MinimumMet(request) <==>
            var minimum := OrElse(r.minimumStay, request.policy.minStayNights); minimum.Some? ==> nights >= minimum.value)
      && (MaximumMet(request) <==> !Exceeds(nights, OrElse(r.maximumStay, request.policy.maxStayNights)))
    ensures LimitsInForce(request, StayLimits(OrElse(r.minimumStay, request.policy.minStayNights),
                                              OrElse(r.maximumStay, request.policy.maxStayNights)))
  {
    var walk: Walk :|
      EvaluatesTo(ChooserOf(request.restrictions), request.startsOn, request.endsOn, request.today, walk, r);
    AcceptsUnrestricted(request.restrictions, request.startsOn, request.endsOn, request.today, walk, r);
    hide Unrestricted, Refines, HeadErrors, EveryNight, MinimumMet, MaximumMet, ChooserOf;
    LengthFacts(request, r.minimumStay, r.maximumStay);
  }

  lemma {:induction false} LengthFacts(request: Request, minimumStay: Option<int>, maximumStay: Option<int>)
    requires minimumStay == ValueOf(ChooserOf(request.restrictions)(MinimumStay, request.startsOn))
    requires maximumStay == ValueOf(ChooserOf(request.restrictions)(MaximumStay, request.startsOn))
    ensures var nights := request.endsOn - request.startsOn;
      && (MinimumMet(request) <==>
            var minimum := OrElse(minimumStay, request.policy.minStayNights); minimum.Some? ==> nights >= minimum.value)
      && (MaximumMet(request) <==> !Exceeds(nights, OrElse(maximumStay, request.policy.maxStayNights)))
    ensures LimitsInForce(request, StayLimits(OrElse(minimumStay, request.policy.minStayNights),
                                              OrElse(maximumStay, request.policy.maxStayNights)))
  {
    hide Decides, ChooserOf;
    ValueDecides(request.restrictions, MinimumStay, request.startsOn);
    ValueDecides(request.restrictions, MaximumStay, request.startsOn);
  }

  /** The value a choice carries is the one the winning rules decide, if they decide one. */
  lemma {:induction false} ValueDecides(rules: seq<Rule>, kind: Kind, day: Day)
    ensures var value := ValueOf(ChooserOf(rules)(kind, day));
      forall v :: Decides(rules, kind, day, v) <==> value == Some(v)
  {
    ChoiceFacts(rules, kind, day);
  }
}
