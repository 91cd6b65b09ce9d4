/** Compiling the filters of a reservation list to the text of a WHERE clause with numbered parameters: read
    as SQL, the text is true of a row exactly when every requested filter is. */
module Search {
  import opened BookingStatus
  import opened Calendar
  import opened Collections
  import opened LikePatterns
  import opened Numerals
  import opened SearchClauses
  import opened SearchRows
  import opened SqlText

  // ---------------------------------------------------------------- the query

  datatype SourceFilter = UnknownSource | SourceIs(name: string)

  datatype Query = Query(
    view: View,
    search: string,
    statuses: seq<Status>,
    payment: Option<string>,
    source: Option<SourceFilter>,
    dateType: DateType,
    from: Option<Day>,
    to: Option<Day>)

  // ---------------------------------------------------------------- what the filters mean

  ghost predicate ViewHolds(view: View, row: Row) {
    match view
    case All => true
    case ArrivingToday => row.status == Confirmed && row.startsOn == row.today
    case InHouse => row.status == Confirmed && row.startsOn <= row.today < row.endsOn
    case DepartingToday => row.status == Confirmed && row.endsOn == row.today
    case Upcoming => row.status in LIVE && row.startsOn > row.today
    case NeedsAttention => row.attentionOpen && row.status in ATTENTION
    case UnpaidStays => row.status in LIVE && (PaymentState(row) == "unpaid" || PaymentState(row) == "deposit")
    case CancelledStays => row.status == Cancelled || row.status == Expired
  }

  ghost predicate SearchHolds(search: string, row: Row, fold: char -> string) {
    || ContainsFolded(fold, GuestName(row), search)
    || (row.email.Some? && ContainsFolded(fold, row.email.value, search))
    || (row.phone.Some? && ContainsFolded(fold, row.phone.value, search))
    || ContainsFolded(fold, row.externalReference, search)
    || ContainsFolded(fold, if row.orderReference.Some? then row.orderReference.value else "", search)
  }

  ghost predicate SourceHolds(source: SourceFilter, row: Row) {
    match source
    case UnknownSource => row.source.None?
    case SourceIs(name) => row.source == Some(name)
  }

  ghost predicate DatesHold(query: Query, row: Row) {
    match query.dateType
    case Stay =>
      && (query.to.Some? ==> row.startsOn <= query.to.value)
      && (query.from.Some? ==> query.from.value < row.endsOn)
    case Arrival => Within(query, row.startsOn)
    case Departure => Within(query, row.endsOn)
    case Created => Within(query, CreatedDay(row))
  }

  ghost predicate Within(query: Query, day: Day) {
    (query.from.Some? ==> query.from.value <= day) && (query.to.Some? ==> day <= query.to.value)
  }

  /** Every requested filter. */
  ghost predicate FiltersHold(query: Query, row: Row, fold: char -> string) {
    && ViewHolds(query.view, row)
    && (query.search != "" ==> SearchHolds(query.search, row, fold))
    && (query.statuses != [] ==> row.status in query.statuses)
    && (query.payment.Some? ==> PaymentState(row) == query.payment.value)
    && (query.source.Some? ==> SourceHolds(query.source.value, row))
    && DatesHold(query, row)
  }

  /** Asking for stays in a range of days means asking for a night in it. */
  lemma {:induction false} StayFilterMeansANight(query: Query, row: Row)
    requires query.dateType == Stay && row.startsOn < row.endsOn
    requires query.from.Some? && query.to.Some? ==> query.from.value <= query.to.value
    ensures DatesHold(query, row) <==>
      exists night :: OccupiesNight(row.startsOn, row.endsOn, night) && Within(query, night)
  {
    if DatesHold(query, row) {
      var night := if query.from.Some? && query.from.value > row.startsOn then query.from.value else row.startsOn;
      assert OccupiesNight(row.startsOn, row.endsOn, night) && Within(query, night);
    }
  }

  // ---------------------------------------------------------------- building

  /** Clauses and parameters pushed so far; the first placeholder is `$(firstParam + 1)`. */
  datatype Built = Built(clauses: seq<Clause>, params: seq<Value>)

  /** The clause's own parameter is one of those numbered above `low` up to `high`. */
  predicate Numbered(clause: Clause, low: nat, high: nat) {
    match clause
    case ViewIs(_) => true
    case SourceMissing => true
    case SearchFinds(k) => low < k <= high
    case StatusAmong(k) => low < k <= high
    case PaymentIs(k) => low < k <= high
    case SourceEquals(k) => low < k <= high
    case DateIs(_, _, k) => low < k <= high
  }

  function Next(b: Built, firstParam: nat): nat {
    firstParam + |b.params| + 1
  }

  function Pushed(b: Built, clause: Clause): Built {
    b.(clauses := b.clauses + [clause])
  }

  /** The clause that uses the next placeholder, with the value it stands for. */
  function PushedWith(b: Built, clause: Clause, value: Value): Built {
    Built(b.clauses + [clause], b.params + [value])
  }

  /** Every clause uses one of the parameters pushed so far. */
  ghost predicate WellNumbered(b: Built, firstParam: nat) {
    forall i :: 0 <= i < |b.clauses| ==> Numbered(b.clauses[i], firstParam, firstParam + |b.params|)
  }

  /** Parameters are only added, and so are clauses that use them. */
  ghost predicate Extends(b: Built, c: Built, firstParam: nat) {
    b.params <= c.params && c.clauses != [] && (WellNumbered(b, firstParam) ==> WellNumbered(c, firstParam))
  }

  function WithSearch(b: Built, q: Query, firstParam: nat): (c: Built)
    ensures b.clauses != [] ==> Extends(b, c, firstParam)
  {
    if q.search == "" then b else PushedWith(b, SearchFinds(Next(b, firstParam)), Text(Pattern(q.search)))
  }

  function WithStatuses(b: Built, q: Query, firstParam: nat): (c: Built)
    ensures b.clauses != [] ==> Extends(b, c, firstParam)
  {
    if q.statuses == [] then b else PushedWith(b, StatusAmong(Next(b, firstParam)), Codes(q.statuses))
  }

  function WithPayment(b: Built, q: Query, firstParam: nat): (c: Built)
    ensures b.clauses != [] ==> Extends(b, c, firstParam)
  {
    if q.payment.None? then b else PushedWith(b, PaymentIs(Next(b, firstParam)), Text(q.payment.value))
  }

  function WithSource(b: Built, q: Query, firstParam: nat): (c: Built)
    ensures b.clauses != [] ==> Extends(b, c, firstParam)
  {
    match q.source
    case None => b
    case Some(UnknownSource) => Pushed(b, SourceMissing)
    case Some(SourceIs(name)) => PushedWith(b, SourceEquals(Next(b, firstParam)), Text(name))
  }

  /** `column <= to` */
  function WithUpper(b: Built, q: Query, firstParam: nat): (c: Built)
    ensures b.clauses != [] ==> Extends(b, c, firstParam)
  {
    if q.to.None? then b else PushedWith(b, DateIs(q.dateType, AtMost, Next(b, firstParam)), Date(q.to.value))
  }

  function LowerSign(dateType: DateType): Sign {
    if dateType == Stay then Above else AtLeast
  }

  /** `ends_on > from` for stays, `column >= from` otherwise. */
  function WithLower(b: Built, q: Query, firstParam: nat): (c: Built)
    ensures b.clauses != [] ==> Extends(b, c, firstParam)
  {
    if q.from.None? then b
    else PushedWith(b, DateIs(q.dateType, LowerSign(q.dateType), Next(b, firstParam)), Date(q.from.value))
  }

  function WithDates(b: Built, q: Query, firstParam: nat): (c: Built)
    ensures b.clauses != [] ==> Extends(b, c, firstParam)
  {
    if q.dateType == Stay then WithLower(WithUpper(b, q, firstParam), q, firstParam)
    else WithUpper(WithLower(b, q, firstParam), q, firstParam)
  }

  function BuiltSearch(q: Query, firstParam: nat): (c: Built)
    ensures c.clauses != [] && WellNumbered(c, firstParam)
  {
    var b := Built([ViewIs(q.view)], []);
    var b := WithSearch(b, q, firstParam);
    var b := WithStatuses(b, q, firstParam);
    var b := WithPayment(b, q, firstParam);
    var b := WithSource(b, q, firstParam);
    WithDates(b, q, firstParam)
  }

  function Texts(clauses: seq<Clause>): (r: seq<seq<Token>>)
    ensures |r| == |clauses|
  {
    seq(|clauses|, i requires 0 <= i < |clauses| => TextOf(clauses[i]))
  }

  lemma {:induction false} TextsPush(clauses: seq<Clause>, clause: Clause)
    ensures Texts(clauses + [clause]) == Texts(clauses) + [TextOf(clause)]
  {
  }

  /** The WHERE text of what was built. */
  function WhereText(b: Built): seq<Token> {
    Joined(Texts(b.clauses))
  }

  /** The builder: texts and parameters are pushed side by side, and the texts are joined. */
  method BuildBookingSearch(query: Query, firstParam: nat) returns (where: seq<Token>, params: seq<Value>)
    ensures where == WhereText(BuiltSearch(query, firstParam))
    ensures params == BuiltSearch(query, firstParam).params
  {
    hide TextOf, Texts, Pattern, WithDates;
    ghost var b := Built([ViewIs(query.view)], []);
    params := [];
    var clauses := [TextOf(ViewIs(query.view))];
    TextsPush([], ViewIs(query.view));
    assert Texts([]) == [] && [] + [ViewIs(query.view)] == b.clauses;
    ghost var searched := WithSearch(b, query, firstParam);
    if query.search != "" {
      params := params + [Text(Pattern(query.search))];
      clauses := clauses + [TextOf(SearchFinds(firstParam + |params|))];
      TextsPush(b.clauses, SearchFinds(firstParam + |params|));
    }
    assert clauses == Texts(searched.clauses) && params == searched.params;
    ghost var withStatuses := WithStatuses(searched, query, firstParam);
    if |query.statuses| > 0 {
      params := params + [Codes(query.statuses)];
      clauses := clauses + [TextOf(StatusAmong(firstParam + |params|))];
      TextsPush(searched.clauses, StatusAmong(firstParam + |params|));
    }
    assert clauses == Texts(withStatuses.clauses) && params == withStatuses.params;
    ghost var withPayment := WithPayment(withStatuses, query, firstParam);
    if query.payment.Some? {
      params := params + [Text(query.payment.value)];
      clauses := clauses + [TextOf(PaymentIs(firstParam + |params|))];
      TextsPush(withStatuses.clauses, PaymentIs(firstParam + |params|));
    }
    assert clauses == Texts(withPayment.clauses) && params == withPayment.params;
    ghost var withSource := WithSource(withPayment, query, firstParam);
    if query.source == Some(UnknownSource) {
      clauses := clauses + [TextOf(SourceMissing)];
      TextsPush(withPayment.clauses, SourceMissing);
    } else if query.source.Some? {
      params := params + [Text(query.source.value.name)];
      clauses := clauses + [TextOf(SourceEquals(firstParam + |params|))];
      TextsPush(withPayment.clauses, SourceEquals(firstParam + |params|));
    }
    clauses, params := PushDates(query, firstParam, withSource, clauses, params);
    where := Joined(clauses);
  }

  /** A stay overlaps the range when it starts on or before `to` and ends after `from`. */
  method PushDates(query: Query, firstParam: nat, ghost b: Built, before: seq<seq<Token>>, already: seq<Value>)
    returns (clauses: seq<seq<Token>>, params: seq<Value>)
    requires before == Texts(b.clauses) && already == b.params
    ensures clauses == Texts(WithDates(b, query, firstParam).clauses)
    ensures params == WithDates(b, query, firstParam).params
  {
    hide TextOf, Texts;
    clauses, params := before, already;
    if query.dateType == Stay {
      if query.to.Some? {
        params := params + [Date(query.to.value)];
        clauses := clauses + [TextOf(DateIs(Stay, AtMost, firstParam + |params|))];
        TextsPush(b.clauses, DateIs(Stay, AtMost, firstParam + |params|));
      }
      if query.from.Some? {
        params := params + [Date(query.from.value)];
        clauses := clauses + [TextOf(DateIs(Stay, Above, firstParam + |params|))];
        TextsPush(WithUpper(b, query, firstParam).clauses, DateIs(Stay, Above, firstParam + |params|));
      }
    } else {
      if query.from.Some? {
        params := params + [Date(query.from.value)];
        clauses := clauses + [TextOf(DateIs(query.dateType, AtLeast, firstParam + |params|))];
        TextsPush(b.clauses, DateIs(query.dateType, AtLeast, firstParam + |params|));
      }
      if query.to.Some? {
        params := params + [Date(query.to.value)];
        clauses := clauses + [TextOf(DateIs(query.dateType, AtMost, firstParam + |params|))];
        TextsPush(WithLower(b, query, firstParam).clauses, DateIs(query.dateType, AtMost, firstParam + |params|));
      }
    }
  }

  // ---------------------------------------------------------------- placeholders

  predicate Names(t: Token, low: nat, high: nat) {
    t.Dollar? ==> t.digits != "" && IsDigits(t.digits) && low < ParseDigits(t.digits) <= high
  }

  /** Every `$` numeral of a text names one of those parameters. */
  ghost predicate AllNamed(text: seq<Token>, low: nat, high: nat) {
    forall t :: t in text ==> Names(t, low, high)
  }

  lemma {:induction false} ListHasNoNumerals(values: seq<Value>)
    requires values != []
    ensures forall t :: t in LiteralList(values) ==> !t.Dollar?
  {
    if |values| > 1 {
      ListHasNoNumerals(values[1..]);
    }
  }

  lemma {:induction false} ViewHasNoNumerals(view: View)
    ensures forall t :: t in ViewText(view) ==> !t.Dollar?
  {
    hide LiteralList, CodesOf;
    ListHasNoNumerals(CodesOf(LIVE));
    ListHasNoNumerals(CodesOf(ATTENTION));
    ListHasNoNumerals(CodesOf([Cancelled, Expired]));
    ListHasNoNumerals(OWING);
  }

  lemma {:induction false} ClauseNamed(clause: Clause, low: nat, high: nat)
    requires Numbered(clause, low, high)
    ensures AllNamed(TextOf(clause), low, high)
  {
    hide ViewText, ParseDigits, IsDigits, Digits;
    if clause.ViewIs? {
      ViewHasNoNumerals(clause.view);
    } else if !clause.SourceMissing? {
      ParseDigitsOfDigits(clause.k);
      assert Names(Numeral(clause.k), low, high);
      forall t | t in TextOf(clause)
        ensures Names(t, low, high)
      {
        OnlyItsNumeral(clause, t);
      }
    }
  }

  lemma {:induction false} FindsNumeral(text: seq<Token>, k: nat, t: Token)
    requires t in FindsIn(text, k) && forall u :: u in text ==> !u.Dollar?
    ensures t.Dollar? ==> t == Numeral(k)
  {
  }

  lemma {:induction false} SearchNumeral(k: nat, t: Token)
    requires t in AnyText(k)
    ensures t.Dollar? ==> t == Numeral(k)
  {
    assert forall u :: u in GuestText() || u in OrderText() ==> !u.Dollar?;
    hide GuestText, OrderText, FindsIn;
    if t in FindsIn(GuestText(), k) {
      FindsNumeral(GuestText(), k, t);
    } else if t in FindsIn([Name(Email)], k) {
      FindsNumeral([Name(Email)], k, t);
    } else if t in FindsIn([Name(Phone)], k) {
      FindsNumeral([Name(Phone)], k, t);
    } else if t in FindsIn([Name(ExternalReference)], k) {
      FindsNumeral([Name(ExternalReference)], k, t);
    } else if t in FindsIn(OrderText(), k) {
      FindsNumeral(OrderText(), k, t);
    }
  }

  lemma {:induction false} OnlyItsNumeral(clause: Clause, t: Token)
    requires !clause.ViewIs? && !clause.SourceMissing? && t in TextOf(clause)
    ensures t.Dollar? ==> t == Numeral(clause.k)
  {
    hide Digits, AnyText;
    if clause.SearchFinds? && t in AnyText(clause.k) {
      SearchNumeral(clause.k, t);
    }
  }

  lemma {:induction false} JoinedNamed(texts: seq<seq<Token>>, low: nat, high: nat)
    requires forall i :: 0 <= i < |texts| ==> AllNamed(texts[i], low, high)
    ensures AllNamed(Joined(texts), low, high)
  {
    assert Names(Open, low, high) && Names(Close, low, high) && Names(AndWord, low, high);
    hide Names;
    if |texts| > 1 {
      JoinedNamed(texts[..|texts| - 1], low, high);
    }
  }

  // ---------------------------------------------------------------- the clauses mean the filters

  /** Every clause is true of the row, under all the parameters of the statement. */
  ghost predicate Keeps(b: Built, row: Row, all: seq<Value>, fold: char -> string) {
    forall i :: 0 <= i < |b.clauses| ==> Holds(ExprOf(b.clauses[i]), row, all, fold)
  }

  lemma {:induction false} PushMeans(b: Built, clause: Clause, params: seq<Value>, row: Row, all: seq<Value>,
      fold: char -> string)
    ensures Keeps(Built(b.clauses + [clause], params), row, all, fold) <==>
      Keeps(b, row, all, fold) && Holds(ExprOf(clause), row, all, fold)
  {
    hide ExprOf, Holds;
    var c := Built(b.clauses + [clause], params);
    assert forall i :: 0 <= i < |b.clauses| ==> c.clauses[i] == b.clauses[i];
    assert c.clauses[|b.clauses|] == clause;
  }

  lemma {:induction false} AndHolds(a: Expr, b: Expr, row: Row, params: seq<Value>, fold: char -> string)
    ensures Holds(And(a, b), row, params, fold) <==> Holds(a, row, params, fold) && Holds(b, row, params, fold)
  {
  }

  lemma {:induction false} OrHolds(a: Expr, b: Expr, row: Row, params: seq<Value>, fold: char -> string)
    ensures Holds(Or(a, b), row, params, fold) <==> Holds(a, row, params, fold) || Holds(b, row, params, fold)
  {
  }

  lemma {:induction false} ColumnInHolds(column: Column, values: seq<Value>, row: Row, params: seq<Value>,
      fold: char -> string)
    ensures Holds(In(Col(column), values), row, params, fold) <==>
      !ColumnOf(row, column).Null? && ColumnOf(row, column) in values
  {
    assert Eval(Col(column), row, params, fold) == ColumnOf(row, column);
  }

  lemma {:induction false} ColumnIsHolds(column: Column, sign: Sign, e: Expr, row: Row, params: seq<Value>,
      fold: char -> string)
    ensures Holds(Compare(sign, Col(column), e), row, params, fold) <==>
      Compared(sign, ColumnOf(row, column), Eval(e, row, params, fold)) == Flag(true)
  {
    assert Eval(Col(column), row, params, fold) == ColumnOf(row, column);
  }

  lemma {:induction false} ConfirmedHolds(row: Row, params: seq<Value>, fold: char -> string)
    ensures Holds(IsConfirmed(), row, params, fold) <==> row.status == Confirmed
  {
    ColumnIsHolds(StatusColumn, Same, Constant(Code(Confirmed)), row, params, fold);
    assert Eval(Constant(Code(Confirmed)), row, params, fold) == Code(Confirmed);
  }

  lemma {:induction false} StatusInHolds(statuses: seq<Status>, row: Row, params: seq<Value>, fold: char -> string)
    ensures Holds(In(Col(StatusColumn), CodesOf(statuses)), row, params, fold) <==> row.status in statuses
  {
    ColumnInHolds(StatusColumn, CodesOf(statuses), row, params, fold);
  }

  lemma {:induction false} TodayHolds(column: Column, sign: Sign, row: Row, params: seq<Value>, fold: char -> string)
    requires column == StartsOn || column == EndsOn
    ensures Holds(Compare(sign, Col(column), Col(Today)), row, params, fold) <==>
      Ordered(sign, if column == StartsOn then row.startsOn else row.endsOn, row.today)
  {
    ColumnIsHolds(column, sign, Col(Today), row, params, fold);
    assert Eval(Col(Today), row, params, fold) == Date(row.today);
  }

  lemma {:induction false} OwingHolds(row: Row, params: seq<Value>, fold: char -> string)
    ensures Holds(In(Col(PaymentStateColumn), OWING), row, params, fold) <==>
      PaymentState(row) == "unpaid" || PaymentState(row) == "deposit"
  {
    hide PaymentState;
    ColumnInHolds(PaymentStateColumn, OWING, row, params, fold);
  }

  lemma {:induction false} InHouseMeans(row: Row, params: seq<Value>, fold: char -> string)
    ensures Holds(ViewExpr(InHouse), row, params, fold) <==> ViewHolds(InHouse, row)
  {
    hide Eval, Holds, IsConfirmed;
    ConfirmedHolds(row, params, fold);
    TodayHolds(StartsOn, AtMost, row, params, fold);
    TodayHolds(EndsOn, Above, row, params, fold);
    var first := And(IsConfirmed(), Compare(AtMost, Col(StartsOn), Col(Today)));
    AndHolds(first.first, first.second, row, params, fold);
    AndHolds(first, Compare(Above, Col(EndsOn), Col(Today)), row, params, fold);
  }

  lemma {:induction false} ConfirmedOnMeans(column: Column, row: Row, params: seq<Value>, fold: char -> string)
    requires column == StartsOn || column == EndsOn
    ensures Holds(And(IsConfirmed(), Compare(Same, Col(column), Col(Today))), row, params, fold) <==>
      row.status == Confirmed && row.today == if column == StartsOn then row.startsOn else row.endsOn
  {
    hide Eval, Holds, IsConfirmed;
    ConfirmedHolds(row, params, fold);
    TodayHolds(column, Same, row, params, fold);
    AndHolds(IsConfirmed(), Compare(Same, Col(column), Col(Today)), row, params, fold);
  }

  lemma {:induction false} StatusAndMeans(statuses: seq<Status>, other: Expr, row: Row, params: seq<Value>,
      fold: char -> string)
    ensures Holds(And(In(Col(StatusColumn), CodesOf(statuses)), other), row, params, fold) <==>
      row.status in statuses && Holds(other, row, params, fold)
    ensures Holds(And(other, In(Col(StatusColumn), CodesOf(statuses))), row, params, fold) <==>
      row.status in statuses && Holds(other, row, params, fold)
  {
    hide Eval, Holds;
    StatusInHolds(statuses, row, params, fold);
    AndHolds(In(Col(StatusColumn), CodesOf(statuses)), other, row, params, fold);
    AndHolds(other, In(Col(StatusColumn), CodesOf(statuses)), row, params, fold);
  }

  lemma {:induction false} UpcomingMeans(row: Row, params: seq<Value>, fold: char -> string)
    ensures Holds(ViewExpr(Upcoming), row, params, fold) <==> ViewHolds(Upcoming, row)
  {
    hide Eval, Holds, IsConfirmed, CodesOf, LIVE;
    TodayHolds(StartsOn, Above, row, params, fold);
    StatusAndMeans(LIVE, Compare(Above, Col(StartsOn), Col(Today)), row, params, fold);
  }

  lemma {:induction false} ViewMeans(view: View, row: Row, params: seq<Value>, fold: char -> string)
    ensures Holds(ViewExpr(view), row, params, fold) <==> ViewHolds(view, row)
  {
    hide PaymentState, CodesOf, Compared, Ordered, Both;
    match view
    case All =>
    case InHouse => InHouseMeans(row, params, fold);
    case Upcoming => UpcomingMeans(row, params, fold);
    case ArrivingToday => ConfirmedOnMeans(StartsOn, row, params, fold);
    case DepartingToday => ConfirmedOnMeans(EndsOn, row, params, fold);
    case CancelledStays =>
      hide Eval, Holds;
      StatusInHolds([Cancelled, Expired], row, params, fold);
    case UnpaidStays =>
      hide Eval, Holds;
      OwingHolds(row, params, fold);
      StatusAndMeans(LIVE, In(Col(PaymentStateColumn), OWING), row, params, fold);
    case NeedsAttention =>
      assert Holds(Col(AttentionOpen), row, params, fold) <==> row.attentionOpen;
      hide Eval, Holds;
      StatusAndMeans(ATTENTION, Col(AttentionOpen), row, params, fold);
  }

  /** One text contains the search, and is not NULL. */
  lemma {:induction false} FindMeans(e: Expr, text: Value, k: nat, search: string, row: Row, params: seq<Value>,
      fold: char -> string)
    requires Folding(fold) && Eval(e, row, params, fold) == text && (text.Text? || text.Null?)
    requires Eval(Param(k), row, params, fold) == Text(Pattern(search))
    ensures Holds(ILike(e, Param(k)), row, params, fold) <==> text.Text? && ContainsFolded(fold, text.text, search)
  {
    hide ILikes, ContainsFolded, ColumnOf, Pattern;
    if text.Text? {
      ILikeMeansContains(fold, text.text, search);
    }
  }

  lemma {:induction false} GuestMeans(row: Row, params: seq<Value>, fold: char -> string)
    ensures Eval(GuestExpr(), row, params, fold) == Text(GuestName(row))
    ensures Eval(OrderExpr(), row, params, fold)
         == Text(if row.orderReference.Some? then row.orderReference.value else "")
  {
  }

  lemma {:induction false} SearchMeans(k: nat, search: string, row: Row, params: seq<Value>, fold: char -> string)
    requires Folding(fold) && Eval(Param(k), row, params, fold) == Text(Pattern(search))
    ensures Holds(AnyExpr(k), row, params, fold) <==> SearchHolds(search, row, fold)
  {
    hide ILikes, ContainsFolded, GuestName, Pattern, GuestExpr, OrderExpr, Folding;
    GuestMeans(row, params, fold);
    FindMeans(GuestExpr(), Text(GuestName(row)), k, search, row, params, fold);
    FindMeans(Col(Email), TextOrNull(row.email), k, search, row, params, fold);
    FindMeans(Col(Phone), TextOrNull(row.phone), k, search, row, params, fold);
    FindMeans(Col(ExternalReference), Text(row.externalReference), k, search, row, params, fold);
    FindMeans(OrderExpr(), Text(if row.orderReference.Some? then row.orderReference.value else ""), k, search, row,
              params, fold);
    var p := Param(k);
    var names := Or(ILike(GuestExpr(), p), ILike(Col(Email), p));
    var phones := Or(names, ILike(Col(Phone), p));
    var references := Or(phones, ILike(Col(ExternalReference), p));
    hide Eval, Holds;
    OrHolds(names.first, names.second, row, params, fold);
    OrHolds(names, phones.second, row, params, fold);
    OrHolds(phones, references.second, row, params, fold);
    OrHolds(references, ILike(OrderExpr(), p), row, params, fold);
  }

  /** One step of the builder adds one filter. */
  ghost predicate Adds(b: Built, c: Built, row: Row, all: seq<Value>, fold: char -> string, filter: bool) {
    Keeps(c, row, all, fold) <==> Keeps(b, row, all, fold) && filter
  }

  /** The placeholder of a pushed clause stands for the value pushed with it. */
  lemma {:induction false} NextIs(b: Built, value: Value, firstParam: nat, row: Row, all: seq<Value>,
      fold: char -> string)
    requires firstParam + |b.params| + 1 <= |all| && b.params + [value] <= all[firstParam..]
    ensures Eval(Param(Next(b, firstParam)), row, all, fold) == value
  {
    assert all[firstParam..][|b.params|] == value;
  }

  lemma {:induction false} SearchAdds(b: Built, q: Query, firstParam: nat, row: Row, all: seq<Value>,
      fold: char -> string)
    requires Folding(fold) && firstParam <= |all| && WithSearch(b, q, firstParam).params <= all[firstParam..]
    ensures Adds(b, WithSearch(b, q, firstParam), row, all, fold, q.search != "" ==> SearchHolds(q.search, row, fold))
  {
    hide SearchHolds, AnyExpr, Pattern, Folding, Keeps, Eval;
    if q.search != "" {
      var k, value := Next(b, firstParam), Text(Pattern(q.search));
      NextIs(b, value, firstParam, row, all, fold);
      PushMeans(b, SearchFinds(k), b.params + [value], row, all, fold);
      SearchMeans(k, q.search, row, all, fold);
    }
  }

  lemma {:induction false} StatusesAdd(b: Built, q: Query, firstParam: nat, row: Row, all: seq<Value>,
      fold: char -> string)
    requires firstParam <= |all| && WithStatuses(b, q, firstParam).params <= all[firstParam..]
    ensures Adds(b, WithStatuses(b, q, firstParam), row, all, fold, q.statuses != [] ==> row.status in q.statuses)
  {
    hide Keeps;
    if q.statuses != [] {
      var k, value := Next(b, firstParam), Codes(q.statuses);
      NextIs(b, value, firstParam, row, all, fold);
      PushMeans(b, StatusAmong(k), b.params + [value], row, all, fold);
      assert Eval(AsStatuses(Param(k)), row, all, fold) == value;
      assert Eval(Col(StatusColumn), row, all, fold) == Code(row.status);
    }
  }

  lemma {:induction false} PaymentAdds(b: Built, q: Query, firstParam: nat, row: Row, all: seq<Value>,
      fold: char -> string)
    requires firstParam <= |all| && WithPayment(b, q, firstParam).params <= all[firstParam..]
    ensures Adds(b, WithPayment(b, q, firstParam), row, all, fold,
                 q.payment.Some? ==> PaymentState(row) == q.payment.value)
  {
    hide PaymentState, Keeps, Eval;
    if q.payment.Some? {
      var k, value := Next(b, firstParam), Text(q.payment.value);
      NextIs(b, value, firstParam, row, all, fold);
      PushMeans(b, PaymentIs(k), b.params + [value], row, all, fold);
      ColumnIsHolds(PaymentStateColumn, Same, Param(k), row, all, fold);
    }
  }

  lemma {:induction false} SourceAdds(b: Built, q: Query, firstParam: nat, row: Row, all: seq<Value>,
      fold: char -> string)
    requires firstParam <= |all| && WithSource(b, q, firstParam).params <= all[firstParam..]
    ensures Adds(b, WithSource(b, q, firstParam), row, all, fold, q.source.Some? ==> SourceHolds(q.source.value, row))
  {
    hide Keeps;
    match q.source
    case None =>
    case Some(UnknownSource) =>
      PushMeans(b, SourceMissing, b.params, row, all, fold);
      assert Eval(Col(Source), row, all, fold) == TextOrNull(row.source);
    case Some(SourceIs(name)) =>
      var k, value := Next(b, firstParam), Text(name);
      NextIs(b, value, firstParam, row, all, fold);
      PushMeans(b, SourceEquals(k), b.params + [value], row, all, fold);
      ColumnIsHolds(Source, Same, Param(k), row, all, fold);
  }

  /** The date a range looks at, from below or from above. */
  function DayOf(row: Row, dateType: DateType, sign: Sign): Day {
    match dateType
    case Arrival => row.startsOn
    case Departure => row.endsOn
    case Created => CreatedDay(row)
    case Stay => if sign == Above then row.endsOn else row.startsOn
  }

  lemma {:induction false} DayMeans(dateType: DateType, sign: Sign, row: Row, params: seq<Value>, fold: char -> string)
    ensures Eval(DateExpr(dateType, sign), row, params, fold) == Date(DayOf(row, dateType, sign))
  {
    assert Eval(AtZone(Col(CreatedAt), Col(ZoneColumn)), row, params, fold) == Local(row.createdAt + row.zone);
  }

  /** A date clause compares that day with its parameter. */
  lemma {:induction false} DateAdds(b: Built, dateType: DateType, sign: Sign, day: Day, firstParam: nat, row: Row,
      all: seq<Value>, fold: char -> string)
    requires firstParam + |b.params| + 1 <= |all| && b.params + [Date(day)] <= all[firstParam..]
    ensures Adds(b, PushedWith(b, DateIs(dateType, sign, Next(b, firstParam)), Date(day)), row, all, fold,
                 Ordered(sign, DayOf(row, dateType, sign), day))
  {
    hide Keeps, DateExpr, DayOf;
    var k := Next(b, firstParam);
    NextIs(b, Date(day), firstParam, row, all, fold);
    PushMeans(b, DateIs(dateType, sign, k), b.params + [Date(day)], row, all, fold);
    DayMeans(dateType, sign, row, all, fold);
    assert Eval(AsDate(Param(k)), row, all, fold) == Date(day);
  }

  lemma {:induction false} UpperAdds(b: Built, q: Query, firstParam: nat, row: Row, all: seq<Value>,
      fold: char -> string)
    requires firstParam <= |all| && WithUpper(b, q, firstParam).params <= all[firstParam..]
    ensures Adds(b, WithUpper(b, q, firstParam), row, all, fold,
                 q.to.Some? ==> DayOf(row, q.dateType, AtMost) <= q.to.value)
  {
    hide Keeps, DayOf;
    if q.to.Some? {
      DateAdds(b, q.dateType, AtMost, q.to.value, firstParam, row, all, fold);
    }
  }

  ghost predicate LowerHolds(q: Query, row: Row) {
    q.from.Some? ==>
      var day := DayOf(row, q.dateType, LowerSign(q.dateType));
      if q.dateType == Stay then day > q.from.value else day >= q.from.value
  }

  lemma {:induction false} LowerAdds(b: Built, q: Query, firstParam: nat, row: Row, all: seq<Value>,
      fold: char -> string)
    requires firstParam <= |all| && WithLower(b, q, firstParam).params <= all[firstParam..]
    ensures Adds(b, WithLower(b, q, firstParam), row, all, fold, LowerHolds(q, row))
  {
    hide Keeps, DayOf;
    if q.from.Some? {
      DateAdds(b, q.dateType, LowerSign(q.dateType), q.from.value, firstParam, row, all, fold);
    }
  }

  lemma {:induction false} DatesAdd(b: Built, q: Query, firstParam: nat, row: Row, all: seq<Value>,
      fold: char -> string)
    requires b.clauses != [] && firstParam <= |all| && WithDates(b, q, firstParam).params <= all[firstParam..]
    ensures Adds(b, WithDates(b, q, firstParam), row, all, fold, DatesHold(q, row))
  {
    hide Keeps, WellNumbered, WithUpper, WithLower;
    if q.dateType == Stay {
      UpperAdds(b, q, firstParam, row, all, fold);
      LowerAdds(WithUpper(b, q, firstParam), q, firstParam, row, all, fold);
    } else {
      LowerAdds(b, q, firstParam, row, all, fold);
      UpperAdds(WithLower(b, q, firstParam), q, firstParam, row, all, fold);
    }
  }

  /** The built clauses keep a row exactly when every requested filter holds of it. */
  lemma {:induction false} BuiltMeansFilters(q: Query, row: Row, outer: seq<Value>, fold: char -> string)
    requires Folding(fold)
    ensures var b := BuiltSearch(q, |outer|);
      Keeps(b, row, outer + b.params, fold) <==> FiltersHold(q, row, fold)
  {
    hide WithSearch, WithStatuses, WithPayment, WithSource, WithDates, SearchHolds, DatesHold, SourceHolds, ViewHolds,
         Folding, WellNumbered, Keeps;
    var n, all := |outer|, outer + BuiltSearch(q, |outer|).params;
    assert all[n..] == BuiltSearch(q, n).params;
    var b0 := Built([ViewIs(q.view)], []);
    var b1 := WithSearch(b0, q, n);
    var b2 := WithStatuses(b1, q, n);
    var b3 := WithPayment(b2, q, n);
    var b4 := WithSource(b3, q, n);
    var b5 := WithDates(b4, q, n);
    assert b1.params <= b2.params <= b3.params <= b4.params <= b5.params;
    StartMeans(q.view, row, all, fold);
    SearchAdds(b0, q, n, row, all, fold);
    StatusesAdd(b1, q, n, row, all, fold);
    PaymentAdds(b2, q, n, row, all, fold);
    SourceAdds(b3, q, n, row, all, fold);
    DatesAdd(b4, q, n, row, all, fold);
  }

  lemma {:induction false} StartMeans(view: View, row: Row, all: seq<Value>, fold: char -> string)
    ensures Keeps(Built([ViewIs(view)], []), row, all, fold) <==> ViewHolds(view, row)
  {
    hide ViewExpr, ViewHolds, Holds;
    var b := Built([ViewIs(view)], []);
    ViewMeans(view, row, all, fold);
    assert b.clauses[0] == ViewIs(view);
  }

  // ---------------------------------------------------------------- the text means the filters

  function Exprs(clauses: seq<Clause>): (r: seq<Expr>)
    ensures |r| == |clauses|
  {
    seq(|clauses|, i requires 0 <= i < |clauses| => ExprOf(clauses[i]))
  }

  lemma {:induction false} ConjunctionHolds(exprs: seq<Expr>, row: Row, params: seq<Value>, fold: char -> string)
    requires exprs != []
    ensures Holds(Conjunction(exprs), row, params, fold) <==>
      forall i :: 0 <= i < |exprs| ==> Holds(exprs[i], row, params, fold)
  {
    var n := |exprs| - 1;
    if n > 0 {
      ConjunctionHolds(exprs[..n], row, params, fold);
      AndHolds(Conjunction(exprs[..n]), exprs[n], row, params, fold);
      hide Holds;
      assert forall i :: 0 <= i < n ==> exprs[..n][i] == exprs[i];
    }
  }

  /** The WHERE text reads as the conjunction of its clauses, and its numerals name the query's own parameters. */
  lemma {:induction false} WhereReads(b: Built, firstParam: nat)
    requires b.clauses != [] && WellNumbered(b, firstParam)
    ensures Parse(WhereText(b)) == Reads(Conjunction(Exprs(b.clauses)))
    ensures AllNamed(WhereText(b), firstParam, firstParam + |b.params|)
  {
    hide TextOf, ExprOf, Means, Joined, Conjunction, AllNamed, Numbered, Parse;
    forall i | 0 <= i < |b.clauses|
      ensures Means(1, Texts(b.clauses)[i], Exprs(b.clauses)[i])
      ensures AllNamed(Texts(b.clauses)[i], firstParam, firstParam + |b.params|)
    {
      ClauseReads(b.clauses[i]);
      ClauseNamed(b.clauses[i], firstParam, firstParam + |b.params|);
    }
    JoinedReads(Texts(b.clauses), Exprs(b.clauses));
    JoinedNamed(Texts(b.clauses), firstParam, firstParam + |b.params|);
  }

  /** The compiled search, placed after the caller's own parameters: its text parses, what it parses to keeps a
      row exactly when every requested filter holds of it, and each `$` numeral names one of its own parameters. */
  lemma {:induction false} CompiledSearchMeansFilters(q: Query, row: Row, outer: seq<Value>, fold: char -> string)
    requires Folding(fold)
    ensures var b := BuiltSearch(q, |outer|);
      && AllNamed(WhereText(b), |outer|, |outer| + |b.params|)
      && Parse(WhereText(b)).Reads?
      && (Holds(Parse(WhereText(b)).expr, row, outer + b.params, fold) <==> FiltersHold(q, row, fold))
  {
    hide BuiltSearch, FiltersHold, WhereText, Parse, ExprOf, Holds, AllNamed, Conjunction, Folding;
    var b := BuiltSearch(q, |outer|);
    BuiltMeansFilters(q, row, outer, fold);
    WhereReads(b, |outer|);
    ConjunctionHolds(Exprs(b.clauses), row, outer + b.params, fold);
    assert forall i :: 0 <= i < |b.clauses| ==> Exprs(b.clauses)[i] == ExprOf(b.clauses[i]);
  }
}
