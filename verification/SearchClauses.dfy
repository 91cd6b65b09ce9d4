/** The clauses a reservation search pushes: the text of each, and the expression that text reads as wherever
    it is put. */
module SearchClauses {
  import opened BookingStatus
  import opened SqlText

  datatype View =
    | All | ArrivingToday | InHouse | DepartingToday | Upcoming | NeedsAttention | UnpaidStays | CancelledStays

  datatype DateType = Arrival | Departure | Stay | Created

  const LIVE := [PaymentPending, PaymentNotRequired, PmsCreationPending, PmsConfirmationPending, Confirmed,
                 PmsUnknownResult, ManualReview]

  const ATTENTION := [ManualReview, PaymentFailed, AvailabilityFailed, PmsRejected, PmsUnknownResult]

  const OWING := [Text("unpaid"), Text("deposit")]

  /** What is pushed, with the number of the parameter it uses. */
  datatype Clause =
    | ViewIs(view: View)
    | SearchFinds(k: nat)
    | StatusAmong(k: nat)
    | PaymentIs(k: nat)
    | SourceMissing
    | SourceEquals(k: nat)
    | DateIs(dateType: DateType, sign: Sign, k: nat)

  function CodesOf(statuses: seq<Status>): (r: seq<Value>)
    ensures |r| == |statuses|
    ensures forall s :: Code(s) in r <==> s in statuses
    ensures forall v :: v in r ==> v.Code?
  {
    if statuses == [] then [] else [Code(statuses[0])] + CodesOf(statuses[1..])
  }

  function ColumnIs(column: Column, sign: Sign, other: Token): seq<Token> {
    [Name(column)] + [Order(sign)] + [other]
  }

  function ColumnIn(column: Column, values: seq<Value>): seq<Token>
    requires values != []
  {
    [Name(column)] + [InWord, Open] + LiteralList(values) + [Close]
  }

  function ConfirmedText(): seq<Token> {
    ColumnIs(StatusColumn, Same, Literal(Code(Confirmed)))
  }

  /** VIEW_SQL */
  function ViewText(view: View): seq<Token> {
    match view
    case All => [TrueWord]
    case ArrivingToday => ConfirmedText() + [AndWord] + ColumnIs(StartsOn, Same, Name(Today))
    case InHouse =>
      ConfirmedText() + [AndWord] + ColumnIs(StartsOn, AtMost, Name(Today))
      + [AndWord] + ColumnIs(EndsOn, Above, Name(Today))
    case DepartingToday => ConfirmedText() + [AndWord] + ColumnIs(EndsOn, Same, Name(Today))
    case Upcoming => ColumnIn(StatusColumn, CodesOf(LIVE)) + [AndWord] + ColumnIs(StartsOn, Above, Name(Today))
    case NeedsAttention => [Name(AttentionOpen)] + [AndWord] + ColumnIn(StatusColumn, CodesOf(ATTENTION))
    case UnpaidStays => ColumnIn(StatusColumn, CodesOf(LIVE)) + [AndWord] + ColumnIn(PaymentStateColumn, OWING)
    case CancelledStays => ColumnIn(StatusColumn, CodesOf([Cancelled, Expired]))
  }

  function IsConfirmed(): Expr {
    Compare(Same, Col(StatusColumn), Constant(Code(Confirmed)))
  }

  function ViewExpr(view: View): Expr {
    match view
    case All => Truth
    case ArrivingToday => And(IsConfirmed(), Compare(Same, Col(StartsOn), Col(Today)))
    case InHouse =>
      And(And(IsConfirmed(), Compare(AtMost, Col(StartsOn), Col(Today))), Compare(Above, Col(EndsOn), Col(Today)))
    case DepartingToday => And(IsConfirmed(), Compare(Same, Col(EndsOn), Col(Today)))
    case Upcoming => And(In(Col(StatusColumn), CodesOf(LIVE)), Compare(Above, Col(StartsOn), Col(Today)))
    case NeedsAttention => And(Col(AttentionOpen), In(Col(StatusColumn), CodesOf(ATTENTION)))
    case UnpaidStays => And(In(Col(StatusColumn), CodesOf(LIVE)), In(Col(PaymentStateColumn), OWING))
    case CancelledStays => In(Col(StatusColumn), CodesOf([Cancelled, Expired]))
  }

  /** `concat_ws(' ', first, last)` */
  function GuestText(): seq<Token> {
    [ConcatWs, Open] + [Literal(Text(" "))] + [Comma] + [Name(FirstName)] + [Comma] + [Name(LastName)] + [Close]
  }

  function GuestExpr(): Expr {
    Concat(Constant(Text(" ")), Col(FirstName), Col(LastName))
  }

  /** `COALESCE(order_reference, '')` */
  function OrderText(): seq<Token> {
    [CoalesceWord, Open] + [Name(OrderReference)] + [Comma] + [Literal(Text(""))] + [Close]
  }

  function OrderExpr(): Expr {
    Coalesce(Col(OrderReference), Constant(Text("")))
  }

  function FindsIn(text: seq<Token>, k: nat): seq<Token> {
    text + [ILikeWord] + [Numeral(k)]
  }

  /** One placeholder, used for all five texts. */
  function AnyText(k: nat): seq<Token> {
    FindsIn(GuestText(), k) + [OrWord] + FindsIn([Name(Email)], k) + [OrWord] + FindsIn([Name(Phone)], k)
    + [OrWord] + FindsIn([Name(ExternalReference)], k) + [OrWord] + FindsIn(OrderText(), k)
  }

  function AnyExpr(k: nat): Expr {
    Or(Or(Or(Or(ILike(GuestExpr(), Param(k)), ILike(Col(Email), Param(k))), ILike(Col(Phone), Param(k))),
          ILike(Col(ExternalReference), Param(k))), ILike(OrderExpr(), Param(k)))
  }

  /** The date a range is about; a stay's range looks at both ends of the stay. */
  function DateText(dateType: DateType, sign: Sign): seq<Token> {
    match dateType
    case Arrival => [Name(StartsOn)]
    case Departure => [Name(EndsOn)]
    case Created => [Open] + ([Name(CreatedAt)] + [AtTimeZone] + [Name(ZoneColumn)]) + [Close] + [DateCast]
    case Stay => if sign == Above then [Name(EndsOn)] else [Name(StartsOn)]
  }

  function DateExpr(dateType: DateType, sign: Sign): Expr {
    match dateType
    case Arrival => Col(StartsOn)
    case Departure => Col(EndsOn)
    case Created => AsDate(AtZone(Col(CreatedAt), Col(ZoneColumn)))
    case Stay => if sign == Above then Col(EndsOn) else Col(StartsOn)
  }

  /** The text that is pushed. */
  function TextOf(clause: Clause): seq<Token> {
    match clause
    case ViewIs(view) => ViewText(view)
    case SearchFinds(k) => [Open] + AnyText(k) + [Close]
    case StatusAmong(k) =>
      [Name(StatusColumn)] + [Order(Same), AnyWord, Open] + ([Numeral(k)] + [StatusesCast]) + [Close]
    case PaymentIs(k) => ColumnIs(PaymentStateColumn, Same, Numeral(k))
    case SourceMissing => [Name(Source)] + [IsWord, NullWord]
    case SourceEquals(k) => ColumnIs(Source, Same, Numeral(k))
    case DateIs(dateType, sign, k) => DateText(dateType, sign) + [Order(sign)] + ([Numeral(k)] + [DateCast])
  }

  /** What it should read as. */
  function ExprOf(clause: Clause): Expr {
    match clause
    case ViewIs(view) => ViewExpr(view)
    case SearchFinds(k) => AnyExpr(k)
    case StatusAmong(k) => AnyOf(Col(StatusColumn), AsStatuses(Param(k)))
    case PaymentIs(k) => Compare(Same, Col(PaymentStateColumn), Param(k))
    case SourceMissing => IsNull(Col(Source))
    case SourceEquals(k) => Compare(Same, Col(Source), Param(k))
    case DateIs(dateType, sign, k) => Compare(sign, DateExpr(dateType, sign), AsDate(Param(k)))
  }

  lemma {:induction false} ColumnReads(column: Column, level: nat)
    requires 1 <= level <= 9
    ensures Means(level, [Name(column)], Col(column))
  {
    hide Means;
    TokenMeans(Name(column), Col(column));
    WeakenTo(9, level, [Name(column)], Col(column));
  }

  lemma {:induction false} ConstantReads(value: Value, level: nat)
    requires 1 <= level <= 9
    ensures Means(level, [Literal(value)], Constant(value))
  {
    hide Means;
    TokenMeans(Literal(value), Constant(value));
    WeakenTo(9, level, [Literal(value)], Constant(value));
  }

  lemma {:induction false} ParamReads(k: nat, level: nat)
    requires 1 <= level <= 9
    ensures Means(level, [Numeral(k)], Param(k))
  {
    hide Means;
    NumeralMeans(k);
    WeakenTo(9, level, [Numeral(k)], Param(k));
  }

  lemma {:induction false} ColumnIsReads(column: Column, sign: Sign, other: Token, e: Expr)
    requires Means(6, [other], e)
    ensures Means(3, ColumnIs(column, sign, other), Compare(sign, Col(column), e))
  {
    hide Means;
    ColumnReads(column, 6);
    CompareMeans(sign, [Name(column)], Col(column), [other], e);
    WeakenTo(5, 3, ColumnIs(column, sign, other), Compare(sign, Col(column), e));
  }

  lemma {:induction false} ColumnInReads(column: Column, values: seq<Value>)
    requires values != []
    ensures Means(3, ColumnIn(column, values), In(Col(column), values))
  {
    hide Means;
    ColumnReads(column, 7);
    InMeans([Name(column)], Col(column), values);
    WeakenTo(6, 3, ColumnIn(column, values), In(Col(column), values));
  }

  lemma {:induction false} ConfirmedReads()
    ensures Means(3, ConfirmedText(), IsConfirmed())
  {
    hide Means;
    ConstantReads(Code(Confirmed), 6);
    ColumnIsReads(StatusColumn, Same, Literal(Code(Confirmed)), Constant(Code(Confirmed)));
  }

  lemma {:induction false} DatesCompareRead(column: Column, sign: Sign)
    ensures Means(3, ColumnIs(column, sign, Name(Today)), Compare(sign, Col(column), Col(Today)))
  {
    hide Means;
    ColumnReads(Today, 6);
    ColumnIsReads(column, sign, Name(Today), Col(Today));
  }

  lemma {:induction false} InHouseReads()
    ensures Means(1, ViewText(InHouse), ViewExpr(InHouse))
  {
    hide Means, AndsTo, ColumnIs, ConfirmedText, IsConfirmed;
    var first, a := ConfirmedText(), IsConfirmed();
    var second, b := ColumnIs(StartsOn, AtMost, Name(Today)), Compare(AtMost, Col(StartsOn), Col(Today));
    var third, c := ColumnIs(EndsOn, Above, Name(Today)), Compare(Above, Col(EndsOn), Col(Today));
    ConfirmedReads();
    DatesCompareRead(StartsOn, AtMost);
    DatesCompareRead(EndsOn, Above);
    FirstAnd(first, a);
    NextAnd(first, a, second, b);
    NextAnd(first + [AndWord] + second, And(a, b), third, c);
    AndsMean(ViewText(InHouse), ViewExpr(InHouse));
    Weaken(1, ViewText(InHouse), ViewExpr(InHouse));
  }

  lemma {:induction false} ViewReads(view: View)
    ensures Means(1, ViewText(view), ViewExpr(view))
  {
    hide Means, ColumnIs, ColumnIn, ConfirmedText, IsConfirmed, CodesOf;
    ConfirmedReads();
    match view
    case All =>
      TokenMeans(TrueWord, Truth);
      WeakenTo(9, 1, [TrueWord], Truth);
    case ArrivingToday =>
      DatesCompareRead(StartsOn, Same);
      AndMeans(ConfirmedText(), IsConfirmed(), ColumnIs(StartsOn, Same, Name(Today)),
               Compare(Same, Col(StartsOn), Col(Today)));
    case InHouse => InHouseReads();
    case DepartingToday =>
      DatesCompareRead(EndsOn, Same);
      AndMeans(ConfirmedText(), IsConfirmed(), ColumnIs(EndsOn, Same, Name(Today)),
               Compare(Same, Col(EndsOn), Col(Today)));
    case Upcoming =>
      ColumnInReads(StatusColumn, CodesOf(LIVE));
      DatesCompareRead(StartsOn, Above);
      AndMeans(ColumnIn(StatusColumn, CodesOf(LIVE)), In(Col(StatusColumn), CodesOf(LIVE)),
               ColumnIs(StartsOn, Above, Name(Today)), Compare(Above, Col(StartsOn), Col(Today)));
    case NeedsAttention =>
      ColumnReads(AttentionOpen, 3);
      ColumnInReads(StatusColumn, CodesOf(ATTENTION));
      AndMeans([Name(AttentionOpen)], Col(AttentionOpen),
               ColumnIn(StatusColumn, CodesOf(ATTENTION)), In(Col(StatusColumn), CodesOf(ATTENTION)));
    case UnpaidStays =>
      ColumnInReads(StatusColumn, CodesOf(LIVE));
      ColumnInReads(PaymentStateColumn, OWING);
      AndMeans(ColumnIn(StatusColumn, CodesOf(LIVE)), In(Col(StatusColumn), CodesOf(LIVE)),
               ColumnIn(PaymentStateColumn, OWING), In(Col(PaymentStateColumn), OWING));
    case CancelledStays =>
      ColumnInReads(StatusColumn, CodesOf([Cancelled, Expired]));
      WeakenTo(3, 1, ColumnIn(StatusColumn, CodesOf([Cancelled, Expired])),
               In(Col(StatusColumn), CodesOf([Cancelled, Expired])));
  }

  lemma {:induction false} FindsReads(text: seq<Token>, e: Expr, k: nat)
    requires Means(9, text, e)
    ensures Means(2, FindsIn(text, k), ILike(e, Param(k)))
  {
    hide Means;
    WeakenTo(9, 7, text, e);
    ParamReads(k, 7);
    ILikeMeans(text, e, [Numeral(k)], Param(k));
    WeakenTo(6, 2, FindsIn(text, k), ILike(e, Param(k)));
  }

  lemma {:induction false} GuestReads()
    ensures Means(9, GuestText(), GuestExpr())
  {
    hide Means;
    ConstantReads(Text(" "), 1);
    ColumnReads(FirstName, 1);
    ColumnReads(LastName, 1);
    ConcatMeans([Literal(Text(" "))], Constant(Text(" ")), [Name(FirstName)], Col(FirstName), [Name(LastName)],
                Col(LastName));
  }

  lemma {:induction false} OrderReads()
    ensures Means(9, OrderText(), OrderExpr())
  {
    hide Means;
    ColumnReads(OrderReference, 1);
    ConstantReads(Text(""), 1);
    CoalesceMeans([Name(OrderReference)], Col(OrderReference), [Literal(Text(""))], Constant(Text("")));
  }

  lemma {:induction false} ColumnFindsReads(column: Column, k: nat)
    ensures Means(2, FindsIn([Name(column)], k), ILike(Col(column), Param(k)))
  {
    hide Means;
    ColumnReads(column, 9);
    FindsReads([Name(column)], Col(column), k);
  }

  /** The five comparisons, OR by OR, and then in parentheses of their own. */
  lemma {:induction false} SearchReads(k: nat)
    ensures Means(1, [Open] + AnyText(k) + [Close], AnyExpr(k))
  {
    hide Means, OrsTo, FindsIn, GuestText, OrderText, GuestExpr, OrderExpr;
    GuestReads();
    OrderReads();
    FindsReads(GuestText(), GuestExpr(), k);
    FindsReads(OrderText(), OrderExpr(), k);
    ColumnFindsReads(Email, k);
    ColumnFindsReads(Phone, k);
    ColumnFindsReads(ExternalReference, k);
    var p := Param(k);
    var one, a := FindsIn(GuestText(), k), ILike(GuestExpr(), p);
    var two, b := one + [OrWord] + FindsIn([Name(Email)], k), Or(a, ILike(Col(Email), p));
    var three, c := two + [OrWord] + FindsIn([Name(Phone)], k), Or(b, ILike(Col(Phone), p));
    var four, d := three + [OrWord] + FindsIn([Name(ExternalReference)], k), Or(c, ILike(Col(ExternalReference), p));
    FirstOr(one, a);
    NextOr(one, a, FindsIn([Name(Email)], k), ILike(Col(Email), p));
    NextOr(two, b, FindsIn([Name(Phone)], k), ILike(Col(Phone), p));
    NextOr(three, c, FindsIn([Name(ExternalReference)], k), ILike(Col(ExternalReference), p));
    NextOr(four, d, FindsIn(OrderText(), k), ILike(OrderExpr(), p));
    assert AnyText(k) == four + [OrWord] + FindsIn(OrderText(), k);
    assert AnyExpr(k) == Or(d, ILike(OrderExpr(), p));
    hide AnyText, AnyExpr;
    OrsMean(AnyText(k), AnyExpr(k));
    ParenthesesMean(AnyText(k), AnyExpr(k));
    WeakenTo(9, 1, [Open] + AnyText(k) + [Close], AnyExpr(k));
  }

  lemma {:induction false} DateReads(dateType: DateType, sign: Sign)
    ensures Means(6, DateText(dateType, sign), DateExpr(dateType, sign))
  {
    hide Means;
    ColumnReads(StartsOn, 6);
    ColumnReads(EndsOn, 6);
    if dateType == Created {
      var inner, e := [Name(CreatedAt)] + [AtTimeZone] + [Name(ZoneColumn)], AtZone(Col(CreatedAt), Col(ZoneColumn));
      ColumnReads(CreatedAt, 8);
      ColumnReads(ZoneColumn, 8);
      ZoneMeans([Name(CreatedAt)], Col(CreatedAt), [Name(ZoneColumn)], Col(ZoneColumn));
      WeakenTo(7, 1, inner, e);
      ParenthesesMean(inner, e);
      CastMeans([Open] + inner + [Close], e, DateCast);
      WeakenTo(8, 6, [Open] + inner + [Close] + [DateCast], AsDate(e));
    }
  }

  lemma {:induction false} DateClauseReads(dateType: DateType, sign: Sign, k: nat)
    ensures Means(1, TextOf(DateIs(dateType, sign, k)), ExprOf(DateIs(dateType, sign, k)))
  {
    hide Means, DateText, DateExpr;
    DateReads(dateType, sign);
    ParamReads(k, 9);
    CastMeans([Numeral(k)], Param(k), DateCast);
    WeakenTo(8, 6, [Numeral(k)] + [DateCast], AsDate(Param(k)));
    CompareMeans(sign, DateText(dateType, sign), DateExpr(dateType, sign), [Numeral(k)] + [DateCast], AsDate(Param(k)));
    WeakenTo(5, 1, TextOf(DateIs(dateType, sign, k)), ExprOf(DateIs(dateType, sign, k)));
  }

  lemma {:induction false} StatusesRead(k: nat)
    ensures Means(1, TextOf(StatusAmong(k)), ExprOf(StatusAmong(k)))
  {
    hide Means;
    ColumnReads(StatusColumn, 6);
    ParamReads(k, 9);
    CastMeans([Numeral(k)], Param(k), StatusesCast);
    WeakenTo(8, 1, [Numeral(k)] + [StatusesCast], AsStatuses(Param(k)));
    AnyMeans([Name(StatusColumn)], Col(StatusColumn), [Numeral(k)] + [StatusesCast], AsStatuses(Param(k)));
    WeakenTo(5, 1, TextOf(StatusAmong(k)), ExprOf(StatusAmong(k)));
  }

  /** Every fragment reads as it should, whatever follows it. */
  lemma {:induction false} ClauseReads(clause: Clause)
    ensures Means(1, TextOf(clause), ExprOf(clause))
  {
    hide Means, ViewText, ViewExpr, AnyText, AnyExpr;
    match clause
    case ViewIs(view) => ViewReads(view);
    case SearchFinds(k) => SearchReads(k);
    case StatusAmong(k) => StatusesRead(k);
    case PaymentIs(k) =>
      ParamReads(k, 6);
      ColumnIsReads(PaymentStateColumn, Same, Numeral(k), Param(k));
      WeakenTo(3, 1, TextOf(clause), ExprOf(clause));
    case SourceMissing =>
      ColumnReads(Source, 5);
      IsNullMeans([Name(Source)], Col(Source));
      WeakenTo(4, 1, TextOf(clause), ExprOf(clause));
    case SourceEquals(k) =>
      ParamReads(k, 6);
      ColumnIsReads(Source, Same, Numeral(k), Param(k));
      WeakenTo(3, 1, TextOf(clause), ExprOf(clause));
    case DateIs(dateType, sign, k) => DateClauseReads(dateType, sign, k);
  }
}
