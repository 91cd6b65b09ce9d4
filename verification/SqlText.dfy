/** Conditions in SQL text: the tokens of a condition, a recursive-descent parser with the precedences of
    PostgreSQL, and how texts may be put together so that they still read as intended. */
module SqlText {
  import opened BookingStatus
  import opened Calendar
  import opened Numerals

  // ---------------------------------------------------------------- tokens and expressions

  /** NULL, texts, dates, booking statuses and lists of them, truth values, instants in UTC seconds, time
      zones by their offset in seconds, and local times in seconds. */
  datatype Value =
    | Null | Text(text: string) | Date(day: Day) | Code(status: Status) | Codes(statuses: seq<Status>)
    | Flag(yes: bool) | Moment(utc: int) | Zone(offset: int) | Local(seconds: int)

  datatype Column =
    | StatusColumn | StartsOn | EndsOn | Today | CreatedAt | ZoneColumn | Source | PaymentStateColumn
    | AttentionOpen | FirstName | LastName | Email | Phone | ExternalReference | OrderReference

  datatype Sign = Same | AtMost | AtLeast | Above | Below

  /** `$12` keeps its digits. */
  datatype Token =
    | Open | Close | Comma
    | OrWord | AndWord | NotWord | IsWord | NullWord | ILikeWord | InWord | AnyWord | AtTimeZone | TrueWord
    | ConcatWs | CoalesceWord | DateCast | StatusesCast
    | Order(sign: Sign) | Name(column: Column) | Literal(value: Value) | Dollar(digits: string)

  datatype Expr =
    | Truth | Col(column: Column) | Constant(value: Value) | Param(k: nat)
    | Concat(separator: Expr, first: Expr, second: Expr) | Coalesce(first: Expr, second: Expr)
    | AsDate(inner: Expr) | AsStatuses(inner: Expr) | AtZone(inner: Expr, zone: Expr)
    | Compare(sign: Sign, left: Expr, right: Expr) | AnyOf(left: Expr, right: Expr)
    | In(left: Expr, values: seq<Value>) | ILike(left: Expr, right: Expr)
    | IsNull(inner: Expr) | Not(inner: Expr) | And(first: Expr, second: Expr) | Or(first: Expr, second: Expr)

  // ---------------------------------------------------------------- the parser

  datatype Parsed = Nothing | Parsed(expr: Expr, rest: seq<Token>)
  datatype Values = NoValues | Values(values: seq<Value>, rest: seq<Token>)

  predicate StartsWith(ts: seq<Token>, t: Token) {
    ts != [] && ts[0] == t
  }

  predicate StartsWithTwo(ts: seq<Token>, t: Token, u: Token) {
    |ts| > 1 && ts[0] == t && ts[1] == u
  }

  /** `= ANY (` */
  predicate StartsAny(ts: seq<Token>) {
    |ts| > 2 && ts[0] == Order(Same) && ts[1] == AnyWord && ts[2] == Open
  }

  function ParseOr(ts: seq<Token>): (r: Parsed)
    ensures r.Parsed? ==> |r.rest| < |ts|
    decreases |ts|, 10
  {
    match ParseAnd(ts)
    case Nothing => Nothing
    case Parsed(e, rest) => OrTail(e, rest)
  }

  function OrTail(e: Expr, ts: seq<Token>): (r: Parsed)
    ensures r.Parsed? ==> |r.rest| <= |ts|
    decreases |ts|, 11
  {
    if !StartsWith(ts, OrWord) then Parsed(e, ts)
    else
      match ParseAnd(ts[1..])
      case Nothing => Nothing
      case Parsed(second, rest) => OrTail(Or(e, second), rest)
  }

  function ParseAnd(ts: seq<Token>): (r: Parsed)
    ensures r.Parsed? ==> |r.rest| < |ts|
    decreases |ts|, 9
  {
    match ParseNot(ts)
    case Nothing => Nothing
    case Parsed(e, rest) => AndTail(e, rest)
  }

  function AndTail(e: Expr, ts: seq<Token>): (r: Parsed)
    ensures r.Parsed? ==> |r.rest| <= |ts|
    decreases |ts|, 11
  {
    if !StartsWith(ts, AndWord) then Parsed(e, ts)
    else
      match ParseNot(ts[1..])
      case Nothing => Nothing
      case Parsed(second, rest) => AndTail(And(e, second), rest)
  }

  function ParseNot(ts: seq<Token>): (r: Parsed)
    ensures r.Parsed? ==> |r.rest| < |ts|
    decreases |ts|, 8
  {
    if !StartsWith(ts, NotWord) then ParseIs(ts)
    else
      match ParseNot(ts[1..])
      case Nothing => Nothing
      case Parsed(e, rest) => Parsed(Not(e), rest)
  }

  function ParseIs(ts: seq<Token>): (r: Parsed)
    ensures r.Parsed? ==> |r.rest| < |ts|
    decreases |ts|, 7
  {
    match ParseComparison(ts)
    case Nothing => Nothing
    case Parsed(e, rest) =>
      if StartsWithTwo(rest, IsWord, NullWord) then Parsed(IsNull(e), rest[2..]) else Parsed(e, rest)
  }

  function ParseComparison(ts: seq<Token>): (r: Parsed)
    ensures r.Parsed? ==> |r.rest| < |ts|
    decreases |ts|, 6
  {
    match ParseLike(ts)
    case Nothing => Nothing
    case Parsed(e, rest) =>
      if StartsAny(rest) then
        match ParseUpTo(rest[3..], Close)
        case Nothing => Nothing
        case Parsed(list, after) => Parsed(AnyOf(e, list), after)
      else if rest != [] && rest[0].Order? then
        match ParseLike(rest[1..])
        case Nothing => Nothing
        case Parsed(right, after) => Parsed(Compare(rest[0].sign, e, right), after)
      else Parsed(e, rest)
  }

  function ParseLike(ts: seq<Token>): (r: Parsed)
    ensures r.Parsed? ==> |r.rest| < |ts|
    decreases |ts|, 5
  {
    match ParseZone(ts)
    case Nothing => Nothing
    case Parsed(e, rest) =>
      if StartsWith(rest, ILikeWord) then
        match ParseZone(rest[1..])
        case Nothing => Nothing
        case Parsed(pattern, after) => Parsed(ILike(e, pattern), after)
      else if StartsWithTwo(rest, InWord, Open) then
        match ParseValues(rest[2..])
        case NoValues => Nothing
        case Values(values, after) => Parsed(In(e, values), after)
      else Parsed(e, rest)
  }

  /** Quoted values separated by commas, and the closing parenthesis. */
  function ParseValues(ts: seq<Token>): (r: Values)
    ensures r.Values? ==> |r.rest| < |ts|
  {
    if |ts| < 2 || !ts[0].Literal? then NoValues
    else if ts[1] == Close then Values([ts[0].value], ts[2..])
    else if ts[1] != Comma then NoValues
    else
      match ParseValues(ts[2..])
      case NoValues => NoValues
      case Values(values, rest) => Values([ts[0].value] + values, rest)
  }

  function ParseZone(ts: seq<Token>): (r: Parsed)
    ensures r.Parsed? ==> |r.rest| < |ts|
    decreases |ts|, 4
  {
    match ParseCast(ts)
    case Nothing => Nothing
    case Parsed(e, rest) =>
      if StartsWith(rest, AtTimeZone) then
        match ParseCast(rest[1..])
        case Nothing => Nothing
        case Parsed(zone, after) => Parsed(AtZone(e, zone), after)
      else Parsed(e, rest)
  }

  function ParseCast(ts: seq<Token>): (r: Parsed)
    ensures r.Parsed? ==> |r.rest| < |ts|
    decreases |ts|, 3
  {
    match ParseAtom(ts)
    case Nothing => Nothing
    case Parsed(e, rest) => CastTail(e, rest)
  }

  function CastTail(e: Expr, ts: seq<Token>): (r: Parsed)
    ensures r.Parsed? ==> |r.rest| <= |ts|
    decreases |ts|
  {
    if StartsWith(ts, DateCast) then CastTail(AsDate(e), ts[1..])
    else if StartsWith(ts, StatusesCast) then CastTail(AsStatuses(e), ts[1..])
    else Parsed(e, ts)
  }

  function ParseAtom(ts: seq<Token>): (r: Parsed)
    ensures r.Parsed? ==> |r.rest| < |ts|
    decreases |ts|, 2
  {
    if ts == [] then Nothing
    else
      match ts[0]
      case TrueWord => Parsed(Truth, ts[1..])
      case Name(column) => Parsed(Col(column), ts[1..])
      case Literal(value) => Parsed(Constant(value), ts[1..])
      case Dollar(digits) =>
        if digits != "" && IsDigits(digits) then Parsed(Param(ParseDigits(digits)), ts[1..]) else Nothing
      case Open => ParseUpTo(ts[1..], Close)
      case ConcatWs => if StartsWith(ts[1..], Open) then ParseConcat(ts[2..]) else Nothing
      case CoalesceWord => if StartsWith(ts[1..], Open) then ParseCoalesce(ts[2..]) else Nothing
      case _ => Nothing
  }

  /** An expression and the token that must follow it. */
  function ParseUpTo(ts: seq<Token>, end: Token): (r: Parsed)
    ensures r.Parsed? ==> |r.rest| < |ts|
    decreases |ts|, 12
  {
    match ParseOr(ts)
    case Nothing => Nothing
    case Parsed(e, rest) => if StartsWith(rest, end) then Parsed(e, rest[1..]) else Nothing
  }

  function ParseConcat(ts: seq<Token>): (r: Parsed)
    ensures r.Parsed? ==> |r.rest| < |ts|
    decreases |ts|, 13
  {
    match ParseUpTo(ts, Comma)
    case Nothing => Nothing
    case Parsed(separator, after) =>
      match ParseUpTo(after, Comma)
      case Nothing => Nothing
      case Parsed(first, later) =>
        match ParseUpTo(later, Close)
        case Nothing => Nothing
        case Parsed(second, rest) => Parsed(Concat(separator, first, second), rest)
  }

  function ParseCoalesce(ts: seq<Token>): (r: Parsed)
    ensures r.Parsed? ==> |r.rest| < |ts|
    decreases |ts|, 13
  {
    match ParseUpTo(ts, Comma)
    case Nothing => Nothing
    case Parsed(first, after) =>
      match ParseUpTo(after, Close)
      case Nothing => Nothing
      case Parsed(second, rest) => Parsed(Coalesce(first, second), rest)
  }

  datatype Reading = Unreadable | Reads(expr: Expr)

  /** A whole text as one condition. */
  function Parse(ts: seq<Token>): Reading {
    var r := ParseOr(ts);
    if r.Parsed? && r.rest == [] then Reads(r.expr) else Unreadable
  }

  // ---------------------------------------------------------------- texts that read alike everywhere

  /** How strongly a token that follows an operand binds it: the levels of the parser. */
  function Strength(t: Token): nat {
    match t
    case OrWord => 1
    case AndWord => 2
    case IsWord => 4
    case Order(_) => 5
    case ILikeWord => 6
    case InWord => 6
    case AtTimeZone => 7
    case DateCast => 8
    case StatusesCast => 8
    case _ => 0
  }

  /** What follows leaves an operand of this level complete. */
  predicate Stops(rest: seq<Token>, level: nat) {
    rest == [] || Strength(rest[0]) < level
  }

  function ParseAt(level: nat, ts: seq<Token>): Parsed {
    match level
    case 1 => ParseOr(ts)
    case 2 => ParseAnd(ts)
    case 3 => ParseNot(ts)
    case 4 => ParseIs(ts)
    case 5 => ParseComparison(ts)
    case 6 => ParseLike(ts)
    case 7 => ParseZone(ts)
    case 8 => ParseCast(ts)
    case _ => ParseAtom(ts)
  }

  /** The text is the expression, whatever follows it. */
  ghost predicate Means(level: nat, text: seq<Token>, e: Expr) {
    forall rest :: Stops(rest, level) ==> ParseAt(level, text + rest) == Parsed(e, rest)
  }

  lemma {:induction false} MeansBefore(level: nat, text: seq<Token>, e: Expr, rest: seq<Token>)
    requires Means(level, text, e) && Stops(rest, level)
    ensures ParseAt(level, text + rest) == Parsed(e, rest)
  {
  }

  /** Nothing of this level follows an operand that was read. */
  lemma {:induction false} NothingFollows(level: nat, ts: seq<Token>, e: Expr, rest: seq<Token>)
    requires 1 <= level <= 8 && Stops(rest, level) && ParseAt(level + 1, ts) == Parsed(e, rest)
    ensures ParseAt(level, ts) == Parsed(e, rest)
  {
    match level
    case 1 => assert OrTail(e, rest) == Parsed(e, rest);
    case 2 => assert AndTail(e, rest) == Parsed(e, rest);
    case 3 => NotIsNoOperand(ts);
    case 4 => assert !StartsWith(rest, IsWord);
    case 5 => assert rest != [] ==> !rest[0].Order?;
    case 6 => assert !StartsWith(rest, ILikeWord) && !StartsWith(rest, InWord);
    case 7 => assert !StartsWith(rest, AtTimeZone);
    case 8 => assert CastTail(e, rest) == Parsed(e, rest);
  }

  /** A text that is an operand of some level is one of every weaker level. */
  lemma {:induction false} Weaken(level: nat, text: seq<Token>, e: Expr)
    requires 1 <= level <= 8 && Means(level + 1, text, e)
    ensures Means(level, text, e)
  {
    hide ParseAt;
    forall rest | Stops(rest, level)
      ensures ParseAt(level, text + rest) == Parsed(e, rest)
    {
      MeansBefore(level + 1, text, e, rest);
      NothingFollows(level, text + rest, e, rest);
    }
  }

  lemma {:induction false} NotIsNoOperand(ts: seq<Token>)
    requires ParseIs(ts).Parsed?
    ensures !StartsWith(ts, NotWord)
  {
    assert StartsWith(ts, NotWord) ==> ParseAtom(ts) == Nothing;
    hide ParseAtom;
    assert StartsWith(ts, NotWord) ==> ParseCast(ts) == Nothing;
    hide ParseCast;
    assert StartsWith(ts, NotWord) ==> ParseZone(ts) == Nothing;
    hide ParseZone;
    assert StartsWith(ts, NotWord) ==> ParseLike(ts) == Nothing;
    hide ParseLike;
    assert StartsWith(ts, NotWord) ==> ParseComparison(ts) == Nothing;
  }

  lemma {:induction false} WeakenTo(from: nat, to: nat, text: seq<Token>, e: Expr)
    requires 1 <= to <= from <= 9 && Means(from, text, e)
    ensures Means(to, text, e)
    decreases from
  {
    hide Means;
    if to < from {
      Weaken(from - 1, text, e);
      WeakenTo(from - 1, to, text, e);
    }
  }

  lemma {:induction false} MeansWhole(text: seq<Token>, e: Expr)
    requires Means(1, text, e)
    ensures Parse(text) == Reads(e)
  {
    MeansBefore(1, text, e, []);
    assert text + [] == text;
  }

  // ---------------------------------------------------------------- atoms

  /** One token that is an operand on its own. */
  lemma {:induction false} TokenMeans(t: Token, e: Expr)
    requires ParseAtom([t]) == Parsed(e, [])
    ensures Means(9, [t], e)
  {
    forall rest | Stops(rest, 9)
      ensures ParseAt(9, [t] + rest) == Parsed(e, rest)
    {
      var ts := [t] + rest;
      assert ts[0] == t && ts[1..] == rest;
      OneToken(t);
    }
  }

  lemma {:induction false} OneToken(t: Token)
    ensures ParseAtom([t]).Parsed? ==> !t.Open? && !t.ConcatWs? && !t.CoalesceWord?
  {
    assert [t][1..] == [];
    assert ParseAtom([]) == Nothing;
    assert ParseUpTo([], Close) == Nothing;
  }

  function Numeral(k: nat): Token {
    Dollar(Digits(k))
  }

  lemma {:induction false} NumeralMeans(k: nat)
    ensures Means(9, [Numeral(k)], Param(k))
  {
    ParseDigitsOfDigits(k);
    TokenMeans(Numeral(k), Param(k));
  }

  lemma {:induction false} Regroup(a: seq<Token>, b: seq<Token>, c: seq<Token>, d: seq<Token>, e: seq<Token>)
    ensures a + b + c + d + e == a + (b + (c + d + e))
    ensures (b + (c + d + e))[|b|..] == c + d + e
  {
  }

  lemma {:induction false} RegroupThree(a: seq<Token>, b: seq<Token>, c: seq<Token>, d: seq<Token>)
    ensures a + b + c + d == a + (b + (c + d))
    ensures (b + (c + d))[|b|..] == c + d
  {
  }

  lemma {:induction false} RegroupTwice(k: seq<Token>, s: seq<Token>, c: seq<Token>, a: seq<Token>, b: seq<Token>,
      d: seq<Token>, e: seq<Token>)
    ensures k + s + c + a + c + b + d + e == k + (s + c + (a + c + (b + d + e)))
    ensures (k + (s + c + (a + c + (b + d + e))))[|k|..] == s + c + (a + c + (b + d + e))
  {
    var front := k + s + c + a;
    Regroup(front, c, b, d, e);
    Regroup(k + s, c, a, c, b + d + e);
    assert k + s + c + a + (c + (b + d + e)) == k + s + c + a + c + (b + d + e);
    assert k + s + (c + (a + c + (b + d + e))) == k + (s + c + (a + c + (b + d + e)));
  }

  lemma {:induction false} UpToMeans(text: seq<Token>, e: Expr, end: Token, rest: seq<Token>)
    requires Means(1, text, e) && Strength(end) == 0
    ensures ParseUpTo(text + [end] + rest, end) == Parsed(e, rest)
  {
    var after := [end] + rest;
    MeansBefore(1, text, e, after);
    assert text + [end] + rest == text + after;
    assert after[1..] == rest;
  }

  lemma {:induction false} InsideRead(ts: seq<Token>, e: Expr, rest: seq<Token>)
    requires ts != [] && ts[0] == Open && ParseUpTo(ts[1..], Close) == Parsed(e, rest)
    ensures ParseAt(9, ts) == Parsed(e, rest)
  {
  }

  /** Any condition in parentheses is an operand: its own operators no longer matter. */
  lemma {:induction false} ParenthesesMean(text: seq<Token>, e: Expr)
    requires Means(1, text, e)
    ensures Means(9, [Open] + text + [Close], e)
  {
    forall rest | Stops(rest, 9)
      ensures ParseAt(9, [Open] + text + [Close] + rest) == Parsed(e, rest)
    {
      UpToMeans(text, e, Close, rest);
      hide *;
      var ts := [Open] + text + [Close] + rest;
      assert ts[1..] == text + [Close] + rest;
      InsideRead(ts, e, rest);
    }
  }

  lemma {:induction false} ConcatRead(ts: seq<Token>, s: Expr, afterFirst: seq<Token>, a: Expr,
      afterSecond: seq<Token>, b: Expr, rest: seq<Token>)
    requires |ts| > 1 && ts[0] == ConcatWs && ts[1] == Open
    requires ParseUpTo(ts[2..], Comma) == Parsed(s, afterFirst)
    requires ParseUpTo(afterFirst, Comma) == Parsed(a, afterSecond)
    requires ParseUpTo(afterSecond, Close) == Parsed(b, rest)
    ensures ParseAt(9, ts) == Parsed(Concat(s, a, b), rest)
  {
    hide ParseUpTo;
    assert ParseConcat(ts[2..]) == Parsed(Concat(s, a, b), rest);
    assert StartsWith(ts[1..], Open);
  }

  lemma {:induction false} ConcatMeans(separator: seq<Token>, s: Expr, first: seq<Token>, a: Expr,
      second: seq<Token>, b: Expr)
    requires Means(1, separator, s) && Means(1, first, a) && Means(1, second, b)
    ensures Means(9, [ConcatWs, Open] + separator + [Comma] + first + [Comma] + second + [Close], Concat(s, a, b))
  {
    forall rest | Stops(rest, 9)
      ensures ParseAt(9, [ConcatWs, Open] + separator + [Comma] + first + [Comma] + second + [Close] + rest)
           == Parsed(Concat(s, a, b), rest)
    {
      var last := second + [Close] + rest;
      var middle := first + [Comma] + last;
      assert Strength(Comma) == 0 && Strength(Close) == 0;
      hide *;
      UpToMeans(separator, s, Comma, middle);
      UpToMeans(first, a, Comma, last);
      UpToMeans(second, b, Close, rest);
      RegroupTwice([ConcatWs, Open], separator, [Comma], first, second, [Close], rest);
      ConcatRead([ConcatWs, Open] + (separator + [Comma] + middle), s, middle, a, last, b, rest);
    }
  }

  lemma {:induction false} CoalesceRead(ts: seq<Token>, a: Expr, after: seq<Token>, b: Expr, rest: seq<Token>)
    requires |ts| > 1 && ts[0] == CoalesceWord && ts[1] == Open
    requires ParseUpTo(ts[2..], Comma) == Parsed(a, after)
    requires ParseUpTo(after, Close) == Parsed(b, rest)
    ensures ParseAt(9, ts) == Parsed(Coalesce(a, b), rest)
  {
    hide ParseUpTo;
    assert ParseCoalesce(ts[2..]) == Parsed(Coalesce(a, b), rest);
    assert StartsWith(ts[1..], Open);
  }

  lemma {:induction false} CoalesceMeans(first: seq<Token>, a: Expr, second: seq<Token>, b: Expr)
    requires Means(1, first, a) && Means(1, second, b)
    ensures Means(9, [CoalesceWord, Open] + first + [Comma] + second + [Close], Coalesce(a, b))
  {
    var text := [CoalesceWord, Open] + first + [Comma] + second + [Close];
    forall rest | Stops(rest, 9)
      ensures ParseAt(9, text + rest) == Parsed(Coalesce(a, b), rest)
    {
      var last := second + [Close] + rest;
      assert Strength(Comma) == 0 && Strength(Close) == 0;
      hide *;
      UpToMeans(first, a, Comma, last);
      UpToMeans(second, b, Close, rest);
      var ts := text + rest;
      assert ts[2..] == first + [Comma] + last;
      CoalesceRead(ts, a, last, b, rest);
    }
  }

  // ---------------------------------------------------------------- operators

  function Cast(cast: Token, e: Expr): Expr {
    if cast == DateCast then AsDate(e) else AsStatuses(e)
  }

  lemma {:induction false} CastRead(ts: seq<Token>, e: Expr, after: seq<Token>, cast: Token, rest: seq<Token>)
    requires ParseAt(9, ts) == Parsed(e, after) && (cast == DateCast || cast == StatusesCast)
    requires after != [] && after[0] == cast && after[1..] == rest && Stops(rest, 8)
    ensures ParseAt(8, ts) == Parsed(Cast(cast, e), rest)
  {
    assert CastTail(Cast(cast, e), rest) == Parsed(Cast(cast, e), rest);
  }

  lemma {:induction false} CastMeans(text: seq<Token>, e: Expr, cast: Token)
    requires Means(9, text, e) && (cast == DateCast || cast == StatusesCast)
    ensures Means(8, text + [cast], Cast(cast, e))
  {
    forall rest | Stops(rest, 8)
      ensures ParseAt(8, text + [cast] + rest) == Parsed(Cast(cast, e), rest)
    {
      var after := [cast] + rest;
      assert Stops(after, 9);
      hide *;
      MeansBefore(9, text, e, after);
      assert text + [cast] + rest == text + after;
      CastRead(text + after, e, after, cast, rest);
    }
  }

  lemma {:induction false} ZoneRead(ts: seq<Token>, e: Expr, after: seq<Token>, z: Expr, rest: seq<Token>)
    requires ParseAt(8, ts) == Parsed(e, after)
    requires after != [] && after[0] == AtTimeZone && ParseAt(8, after[1..]) == Parsed(z, rest)
    ensures ParseAt(7, ts) == Parsed(AtZone(e, z), rest)
  {
    hide ParseCast;
  }

  lemma {:induction false} ZoneMeans(text: seq<Token>, e: Expr, zone: seq<Token>, z: Expr)
    requires Means(8, text, e) && Means(8, zone, z)
    ensures Means(7, text + [AtTimeZone] + zone, AtZone(e, z))
  {
    forall rest | Stops(rest, 7)
      ensures ParseAt(7, text + [AtTimeZone] + zone + rest) == Parsed(AtZone(e, z), rest)
    {
      var after := [AtTimeZone] + (zone + rest);
      assert Stops(after, 8) && Stops(rest, 8);
      hide *;
      MeansBefore(8, text, e, after);
      MeansBefore(8, zone, z, rest);
      RegroupThree(text, [AtTimeZone], zone, rest);
      ZoneRead(text + after, e, after, z, rest);
    }
  }

  lemma {:induction false} ILikeRead(ts: seq<Token>, e: Expr, after: seq<Token>, p: Expr, rest: seq<Token>)
    requires ParseAt(7, ts) == Parsed(e, after)
    requires after != [] && after[0] == ILikeWord && ParseAt(7, after[1..]) == Parsed(p, rest)
    ensures ParseAt(6, ts) == Parsed(ILike(e, p), rest)
  {
    hide ParseZone;
  }

  lemma {:induction false} ILikeMeans(text: seq<Token>, e: Expr, pattern: seq<Token>, p: Expr)
    requires Means(7, text, e) && Means(7, pattern, p)
    ensures Means(6, text + [ILikeWord] + pattern, ILike(e, p))
  {
    forall rest | Stops(rest, 6)
      ensures ParseAt(6, text + [ILikeWord] + pattern + rest) == Parsed(ILike(e, p), rest)
    {
      var after := [ILikeWord] + (pattern + rest);
      assert Stops(after, 7) && Stops(rest, 7);
      hide *;
      MeansBefore(7, text, e, after);
      MeansBefore(7, pattern, p, rest);
      RegroupThree(text, [ILikeWord], pattern, rest);
      ILikeRead(text + after, e, after, p, rest);
    }
  }

  /** `'a', 'b', 'c'` */
  function LiteralList(values: seq<Value>): seq<Token>
    requires values != []
  {
    if |values| == 1 then [Literal(values[0])] else [Literal(values[0]), Comma] + LiteralList(values[1..])
  }

  lemma {:induction false} ValuesRead(values: seq<Value>, rest: seq<Token>)
    requires values != []
    ensures ParseValues(LiteralList(values) + [Close] + rest) == Values(values, rest)
  {
    var ts := LiteralList(values) + [Close] + rest;
    if |values| == 1 {
      assert ts == [Literal(values[0]), Close] + rest;
      assert ts[2..] == rest;
    } else {
      var later := LiteralList(values[1..]) + [Close] + rest;
      assert ts == [Literal(values[0]), Comma] + later;
      assert ts[2..] == later;
      ValuesRead(values[1..], rest);
    }
  }

  lemma {:induction false} InRead(ts: seq<Token>, e: Expr, after: seq<Token>, values: seq<Value>, rest: seq<Token>)
    requires ParseAt(7, ts) == Parsed(e, after)
    requires |after| > 1 && after[0] == InWord && after[1] == Open && ParseValues(after[2..]) == Values(values, rest)
    ensures ParseAt(6, ts) == Parsed(In(e, values), rest)
  {
    hide ParseZone, ParseValues;
  }

  lemma {:induction false} InMeans(text: seq<Token>, e: Expr, values: seq<Value>)
    requires Means(7, text, e) && values != []
    ensures Means(6, text + [InWord, Open] + LiteralList(values) + [Close], In(e, values))
  {
    forall rest | Stops(rest, 6)
      ensures ParseAt(6, text + [InWord, Open] + LiteralList(values) + [Close] + rest) == Parsed(In(e, values), rest)
    {
      var list := LiteralList(values) + [Close] + rest;
      var after := [InWord, Open] + list;
      assert Stops(after, 7);
      hide *;
      MeansBefore(7, text, e, after);
      ValuesRead(values, rest);
      Regroup(text, [InWord, Open], LiteralList(values), [Close], rest);
      InRead(text + after, e, after, values, rest);
    }
  }

  lemma {:induction false} CompareRead(ts: seq<Token>, a: Expr, after: seq<Token>, sign: Sign, b: Expr,
      rest: seq<Token>)
    requires ParseAt(6, ts) == Parsed(a, after)
    requires after != [] && after[0] == Order(sign) && ParseAt(6, after[1..]) == Parsed(b, rest)
    ensures ParseAt(5, ts) == Parsed(Compare(sign, a, b), rest)
  {
    AnyIsNoOperand(after[1..]);
    hide ParseLike;
    assert !StartsAny(after);
  }

  lemma {:induction false} AnyIsNoOperand(ts: seq<Token>)
    requires ParseLike(ts).Parsed?
    ensures ts != [] && ts[0] != AnyWord
  {
    assert StartsWith(ts, AnyWord) ==> ParseAtom(ts) == Nothing;
    hide ParseAtom;
    assert StartsWith(ts, AnyWord) ==> ParseCast(ts) == Nothing;
    hide ParseCast;
    assert StartsWith(ts, AnyWord) ==> ParseZone(ts) == Nothing;
  }

  lemma {:induction false} CompareMeans(sign: Sign, left: seq<Token>, a: Expr, right: seq<Token>, b: Expr)
    requires Means(6, left, a) && Means(6, right, b)
    ensures Means(5, left + [Order(sign)] + right, Compare(sign, a, b))
  {
    forall rest | Stops(rest, 5)
      ensures ParseAt(5, left + [Order(sign)] + right + rest) == Parsed(Compare(sign, a, b), rest)
    {
      var after := [Order(sign)] + (right + rest);
      assert Stops(after, 6) && Stops(rest, 6);
      hide *;
      MeansBefore(6, left, a, after);
      MeansBefore(6, right, b, rest);
      RegroupThree(left, [Order(sign)], right, rest);
      CompareRead(left + after, a, after, sign, b, rest);
    }
  }

  lemma {:induction false} AnyRead(ts: seq<Token>, a: Expr, after: seq<Token>, b: Expr, rest: seq<Token>)
    requires ParseAt(6, ts) == Parsed(a, after)
    requires StartsAny(after) && ParseUpTo(after[3..], Close) == Parsed(b, rest)
    ensures ParseAt(5, ts) == Parsed(AnyOf(a, b), rest)
  {
    hide ParseLike, ParseUpTo;
  }

  lemma {:induction false} AnyMeans(left: seq<Token>, a: Expr, list: seq<Token>, b: Expr)
    requires Means(6, left, a) && Means(1, list, b)
    ensures Means(5, left + [Order(Same), AnyWord, Open] + list + [Close], AnyOf(a, b))
  {
    forall rest | Stops(rest, 5)
      ensures ParseAt(5, left + [Order(Same), AnyWord, Open] + list + [Close] + rest) == Parsed(AnyOf(a, b), rest)
    {
      var inside := list + [Close] + rest;
      var after := [Order(Same), AnyWord, Open] + inside;
      assert Stops(after, 6) && StartsAny(after) && Strength(Close) == 0;
      hide *;
      MeansBefore(6, left, a, after);
      UpToMeans(list, b, Close, rest);
      Regroup(left, [Order(Same), AnyWord, Open], list, [Close], rest);
      AnyRead(left + after, a, after, b, rest);
    }
  }

  lemma {:induction false} IsNullRead(ts: seq<Token>, e: Expr, after: seq<Token>, rest: seq<Token>)
    requires ParseAt(5, ts) == Parsed(e, after)
    requires |after| > 1 && after[0] == IsWord && after[1] == NullWord && after[2..] == rest
    ensures ParseAt(4, ts) == Parsed(IsNull(e), rest)
  {
    hide ParseComparison;
  }

  lemma {:induction false} IsNullMeans(text: seq<Token>, e: Expr)
    requires Means(5, text, e)
    ensures Means(4, text + [IsWord, NullWord], IsNull(e))
  {
    forall rest | Stops(rest, 4)
      ensures ParseAt(4, text + [IsWord, NullWord] + rest) == Parsed(IsNull(e), rest)
    {
      var after := [IsWord, NullWord] + rest;
      assert Stops(after, 5);
      hide *;
      MeansBefore(5, text, e, after);
      assert text + [IsWord, NullWord] + rest == text + after && after[2..] == rest;
      IsNullRead(text + after, e, after, rest);
    }
  }

  // ---------------------------------------------------------------- AND and OR

  /** Texts joined by AND so far: the parser has `e` and looks for another AND. */
  ghost predicate AndsTo(text: seq<Token>, e: Expr) {
    forall rest :: Stops(rest, 3) ==> ParseAnd(text + rest) == AndTail(e, rest)
  }

  lemma {:induction false} FirstAnd(text: seq<Token>, e: Expr)
    requires Means(3, text, e)
    ensures AndsTo(text, e)
  {
    forall rest | Stops(rest, 3)
      ensures ParseAnd(text + rest) == AndTail(e, rest)
    {
      MeansBefore(3, text, e, rest);
    }
  }

  lemma {:induction false} NextAnd(text: seq<Token>, e: Expr, next: seq<Token>, f: Expr)
    requires AndsTo(text, e) && Means(3, next, f)
    ensures AndsTo(text + [AndWord] + next, And(e, f))
  {
    forall rest | Stops(rest, 3)
      ensures ParseAnd(text + [AndWord] + next + rest) == AndTail(And(e, f), rest)
    {
      var after := [AndWord] + (next + rest);
      assert Stops(after, 3);
      assert ParseAnd(text + after) == AndTail(e, after);
      hide AndsTo;
      MeansBefore(3, next, f, rest);
      RegroupThree(text, [AndWord], next, rest);
    }
  }

  lemma {:induction false} AndsMean(text: seq<Token>, e: Expr)
    requires AndsTo(text, e)
    ensures Means(2, text, e)
  {
    forall rest | Stops(rest, 2)
      ensures ParseAt(2, text + rest) == Parsed(e, rest)
    {
      assert Stops(rest, 3);
    }
  }

  lemma {:induction false} AndMeans(first: seq<Token>, a: Expr, second: seq<Token>, b: Expr)
    requires Means(3, first, a) && Means(3, second, b)
    ensures Means(1, first + [AndWord] + second, And(a, b))
  {
    hide Means;
    FirstAnd(first, a);
    NextAnd(first, a, second, b);
    AndsMean(first + [AndWord] + second, And(a, b));
    Weaken(1, first + [AndWord] + second, And(a, b));
  }

  ghost predicate OrsTo(text: seq<Token>, e: Expr) {
    forall rest :: Stops(rest, 2) ==> ParseOr(text + rest) == OrTail(e, rest)
  }

  lemma {:induction false} FirstOr(text: seq<Token>, e: Expr)
    requires Means(2, text, e)
    ensures OrsTo(text, e)
  {
    forall rest | Stops(rest, 2)
      ensures ParseOr(text + rest) == OrTail(e, rest)
    {
      MeansBefore(2, text, e, rest);
    }
  }

  lemma {:induction false} NextOr(text: seq<Token>, e: Expr, next: seq<Token>, f: Expr)
    requires OrsTo(text, e) && Means(2, next, f)
    ensures OrsTo(text + [OrWord] + next, Or(e, f))
  {
    forall rest | Stops(rest, 2)
      ensures ParseOr(text + [OrWord] + next + rest) == OrTail(Or(e, f), rest)
    {
      var after := [OrWord] + (next + rest);
      assert Stops(after, 2);
      assert ParseOr(text + after) == OrTail(e, after);
      hide OrsTo;
      MeansBefore(2, next, f, rest);
      RegroupThree(text, [OrWord], next, rest);
    }
  }

  lemma {:induction false} OrsMean(text: seq<Token>, e: Expr)
    requires OrsTo(text, e)
    ensures Means(1, text, e)
  {
    forall rest | Stops(rest, 1)
      ensures ParseAt(1, text + rest) == Parsed(e, rest)
    {
      assert Stops(rest, 2);
    }
  }

  // ---------------------------------------------------------------- clauses joined into one text

  function InParentheses(text: seq<Token>): seq<Token> {
    [Open] + text + [Close]
  }

  /** `clauses.map((clause) => `(${clause})`).join(' AND ')` */
  function Joined(texts: seq<seq<Token>>): seq<Token> {
    if texts == [] then []
    else if |texts| == 1 then InParentheses(texts[0])
    else Joined(texts[..|texts| - 1]) + [AndWord] + InParentheses(texts[|texts| - 1])
  }

  function Conjunction(exprs: seq<Expr>): Expr
    requires exprs != []
  {
    if |exprs| == 1 then exprs[0] else And(Conjunction(exprs[..|exprs| - 1]), exprs[|exprs| - 1])
  }

  ghost predicate AllMean(texts: seq<seq<Token>>, exprs: seq<Expr>) {
    |texts| == |exprs| && forall i :: 0 <= i < |texts| ==> Means(1, texts[i], exprs[i])
  }

  lemma {:induction false} JoinedAnds(texts: seq<seq<Token>>, exprs: seq<Expr>)
    requires texts != [] && AllMean(texts, exprs)
    ensures AndsTo(Joined(texts), Conjunction(exprs))
  {
    var n := |texts| - 1;
    ParenthesesMean(texts[n], exprs[n]);
    hide Means, AndsTo;
    WeakenTo(9, 3, InParentheses(texts[n]), exprs[n]);
    if n == 0 {
      FirstAnd(InParentheses(texts[0]), exprs[0]);
    } else {
      JoinedAnds(texts[..n], exprs[..n]);
      NextAnd(Joined(texts[..n]), Conjunction(exprs[..n]), InParentheses(texts[n]), exprs[n]);
    }
  }

  /** Whatever operators the clauses contain, the joined text is the conjunction of their meanings. */
  lemma {:induction false} JoinedReads(texts: seq<seq<Token>>, exprs: seq<Expr>)
    requires texts != [] && AllMean(texts, exprs)
    ensures Parse(Joined(texts)) == Reads(Conjunction(exprs))
  {
    assert exprs != [];
    hide Means, AndsTo, AllMean;
    JoinedAnds(texts, exprs);
    AndsMean(Joined(texts), Conjunction(exprs));
    Weaken(1, Joined(texts), Conjunction(exprs));
    MeansWhole(Joined(texts), Conjunction(exprs));
  }
}
