/** The canonical text of a request, which stands for its hash: objects print with sorted keys. */
module StableJson {
  import opened Collections
  import opened Text

  /** A request value.  A finite number is its shortest decimal text; an object is its key map, so
      equality of values is equality up to key order. */
  datatype Json =
    | Undefined
    | Null
    | Bool(b: bool)
    | Num(text: string)
    | Str(s: string)
    | Arr(items: seq<Json>)
    | Obj(fields: map<string, Json>)

  predicate NumberChar(c: char) {
    '0' <= c <= '9' || c == '-' || c == '+' || c == '.' || c == 'e'
  }

  predicate NumberText(s: string) {
    s != "" && forall i :: 0 <= i < |s| ==> NumberChar(s[i])
  }

  /** Every number of the value is a number text. */
  ghost predicate Finite(v: Json) {
    match v
    case Num(text) => NumberText(text)
    case Arr(items) => forall i :: 0 <= i < |items| ==> Finite(items[i])
    case Obj(fields) => forall k :: k in fields ==> Finite(fields[k])
    case _ => true
  }

  // ---------------------------------------------------------------- strings

  function Hex(d: int): char
    requires 0 <= d < 16
  {
    if d < 10 then '0' + d as char else 'a' + (d - 10) as char
  }

  /** `JSON.stringify` of one character inside a string. */
  function Escape(c: char): string {
    if c == '"' then "\\\""
    else if c == '\\' then "\\\\"
    else if c as int == 8 then "\\b"
    else if c as int == 9 then "\\t"
    else if c as int == 10 then "\\n"
    else if c as int == 12 then "\\f"
    else if c as int == 13 then "\\r"
    else if c as int < 32 then ['\\', 'u', '0', '0', Hex(c as int / 16), Hex(c as int % 16)]
    else [c]
  }

  function Escaped(s: string): string {
    if s == "" then "" else Escape(s[0]) + Escaped(s[1..])
  }

  function Quoted(s: string): string {
    "\"" + Escaped(s) + "\""
  }

  function UnHex(c: char): int {
    if '0' <= c <= '9' then (c - '0') as int else if 'a' <= c <= 'f' then (c - 'a') as int + 10 else 0
  }

  /** Reads one escaped character back. */
  function Unescape(s: string): (char, string) {
    if s == "" then (' ', "")
    else if s[0] != '\\' || |s| == 1 then (s[0], s[1..])
    else if s[1] == 'b' then (8 as char, s[2..])
    else if s[1] == 't' then (9 as char, s[2..])
    else if s[1] == 'n' then (10 as char, s[2..])
    else if s[1] == 'f' then (12 as char, s[2..])
    else if s[1] == 'r' then (13 as char, s[2..])
    else if s[1] == 'u' && |s| >= 6 && UnHex(s[4]) < 2
    then ((16 * UnHex(s[4]) + UnHex(s[5])) as char, s[6..])
    else (s[1], s[2..])
  }

  lemma {:induction false} UnescapeEscape(c: char, rest: string)
    ensures Unescape(Escape(c) + rest) == (c, rest)
    ensures (Escape(c) + rest)[0] != '"'
  {
    var s := Escape(c) + rest;
    if |Escape(c)| == 1 {
      assert s[1..] == rest;
    } else if |Escape(c)| == 2 {
      assert s[2..] == rest && s[1] == Escape(c)[1];
    } else {
      assert s[6..] == rest && s[1] == 'u' && s[4] == Escape(c)[4] && s[5] == Escape(c)[5];
      assert UnHex(Hex(c as int / 16)) == c as int / 16 && UnHex(Hex(c as int % 16)) == c as int % 16;
    }
  }

  lemma {:induction false} EscapeInjective(c: char, d: char, x: string, y: string)
    requires Escape(c) + x == Escape(d) + y
    ensures c == d && x == y
  {
    UnescapeEscape(c, x);
    UnescapeEscape(d, y);
  }

  /** What is left to print of a string, up to and past its closing quote. */
  function Rest(s: string, x: string): string {
    Escaped(s) + "\"" + x
  }

  lemma {:induction false} RestHead(s: string, x: string)
    ensures s != "" ==> Rest(s, x) == Escape(s[0]) + Rest(s[1..], x)
    ensures s == "" ==> Rest(s, x) == "\"" + x
    ensures Rest(s, x) != "" && (Rest(s, x)[0] == '"' <==> s == "")
  {
    if s != "" {
      assert Escape(s[0]) + Escaped(s[1..]) + "\"" + x == Escape(s[0]) + (Escaped(s[1..]) + "\"" + x);
    }
  }

  /** Quoted strings are self-delimiting. */
  lemma {:induction false} EscapedInjective(s: string, t: string, x: string, y: string)
    requires Rest(s, x) == Rest(t, y)
    ensures s == t && x == y
  {
    RestHead(s, x);
    RestHead(t, y);
    if s == "" {
      assert Rest(s, x)[1..] == x && Rest(t, y)[1..] == y;
    } else {
      EscapeInjective(s[0], t[0], Rest(s[1..], x), Rest(t[1..], y));
      EscapedInjective(s[1..], t[1..], x, y);
      assert s == [s[0]] + s[1..] && t == [t[0]] + t[1..];
    }
  }

  // ---------------------------------------------------------------- sorted keys

  lemma {:induction false} LeastKey(keys: set<string>) returns (k: string)
    requires keys != {}
    ensures k in keys && forall o :: o in keys && o != k ==> Less(k, o)
    decreases |keys|
  {
    var x := SomeElement(keys);
    var rest := keys - {x};
    assert forall o :: o in keys ==> o == x || o in rest;
    if rest == {} {
      k := x;
    } else {
      var least := LeastKey(rest);
      LessTotal(x, least);
      k := if Less(least, x) then least else x;
      forall o | o in keys && o != k
        ensures Less(k, o)
      {
        if k == x && o != least {
          LessTransitive(x, least, o);
        }
      }
    }
  }

  ghost predicate IsLeast(keys: set<string>, k: string) {
    k in keys && forall o :: o in keys && o != k ==> Less(k, o)
  }

  /** `Object.keys(record).sort()` */
  ghost function SortedKeys(keys: set<string>): (r: seq<string>)
    ensures forall k :: k in r <==> k in keys
    decreases |keys|
  {
    if keys == {} then []
    else
      assert exists k :: IsLeast(keys, k) by {
        var k := LeastKey(keys);
        assert IsLeast(keys, k);
      }
      var k :| IsLeast(keys, k);
      [k] + SortedKeys(keys - {k})
  }

  // ---------------------------------------------------------------- printing

  /** The value as it appears in a template string; `undefined` prints as its name there. */
  ghost function Printed(v: Json): string
    decreases v, 1
  {
    match v
    case Undefined => "undefined"
    case Null => "null"
    case Bool(b) => if b then "true" else "false"
    case Num(text) => text
    case Str(s) => Quoted(s)
    case Arr(items) => "[" + Joined(items) + "]"
    case Obj(fields) => "{" + Fields(v, SortedKeys(fields.Keys)) + "}"
  }

  /** `join(',')` prints an undefined item as nothing. */
  ghost function Item(v: Json): string
    decreases v, 2
  {
    if v.Undefined? then "" else Printed(v)
  }

  ghost function Joined(items: seq<Json>): string
    decreases items, 0
  {
    if items == [] then ""
    else if |items| == 1 then Item(items[0])
    else Item(items[0]) + "," + Joined(items[1..])
  }

  ghost function Field(v: Json, key: string): string
    requires v.Obj? && key in v.fields
    decreases v, 0, 0
  {
    Quoted(key) + ":" + Printed(v.fields[key])
  }

  ghost function Fields(v: Json, keys: seq<string>): string
    requires v.Obj? && forall k :: k in keys ==> k in v.fields
    decreases v, 0, |keys| + 1
  {
    if keys == [] then ""
    else if |keys| == 1 then Field(v, keys[0])
    else Field(v, keys[0]) + "," + Fields(v, keys[1..])
  }

  ghost function StableJson(v: Json): Option<string> {
    if v.Undefined? then None else Some(Printed(v))
  }

  // ---------------------------------------------------------------- what the text identifies

  /** The value with every one-item array of `undefined` read as the empty array. */
  ghost function Norm(v: Json): Json {
    match v
    case Arr(items) =>
      if items == [Undefined] then Arr([])
      else Arr(seq(|items|, i requires 0 <= i < |items| => Norm(items[i])))
    case Obj(fields) => Obj(map k | k in fields :: Norm(fields[k]))
    case _ => v
  }

  /** The text cannot continue a number. */
  ghost predicate Delimited(rest: string) {
    rest == "" || rest[0] == ',' || rest[0] == ']' || rest[0] == '}'
  }

  /** The first character tells the kind of value. */
  lemma {:induction false} HeadTellsKind(v: Json)
    requires Finite(v)
    ensures Printed(v) != ""
    ensures match v
            case Undefined => Printed(v)[0] == 'u'
            case Null => Printed(v)[0] == 'n'
            case Bool(b) => Printed(v)[0] == if b then 't' else 'f'
            case Num(_) => NumberChar(Printed(v)[0])
            case Str(_) => Printed(v)[0] == '"'
            case Arr(_) => Printed(v)[0] == '['
            case Obj(_) => Printed(v)[0] == '{'
  {
  }

  /** How far a text reads as a number. */
  function NumberLength(s: string): nat {
    if s == "" || !NumberChar(s[0]) then 0 else 1 + NumberLength(s[1..])
  }

  lemma {:induction false} NumberLengthOf(t: string, x: string)
    requires (forall i :: 0 <= i < |t| ==> NumberChar(t[i])) && Delimited(x)
    ensures NumberLength(t + x) == |t|
  {
    if t != "" {
      assert (t + x)[1..] == t[1..] + x;
      NumberLengthOf(t[1..], x);
    } else {
      assert t + x == x;
    }
  }

  /** What follows the opening character of a string and of an array. */
  lemma {:induction false} StringTail(a: Json, x: string)
    requires a.Str?
    ensures Printed(a) + x != "" && (Printed(a) + x)[1..] == Rest(a.s, x)
  {
  }

  lemma {:induction false} ArrayTail(a: Json, x: string)
    requires a.Arr?
    ensures Printed(a) + x != "" && (Printed(a) + x)[1..] == ItemsRest(a.items, x)
  {
  }

  lemma {:induction false} NumbersInjective(t: string, u: string, x: string, y: string)
    requires NumberText(t) && NumberText(u) && Delimited(x) && Delimited(y)
    requires t + x == u + y
    ensures t == u && x == y
  {
    NumberLengthOf(t, x);
    NumberLengthOf(u, y);
    assert t == (t + x)[..|t|] && x == (t + x)[|t|..];
    assert u == (u + y)[..|u|] && y == (u + y)[|u|..];
  }

  /** The text of the items from the first on, up to and past the closing bracket. */
  ghost function ItemsRest(items: seq<Json>, x: string): string {
    Joined(items) + "]" + x
  }

  lemma {:induction false} ItemsRestHead(items: seq<Json>, x: string)
    requires items != []
    ensures ItemsRest(items, x) == Item(items[0]) + (if |items| == 1 then "]" + x else "," + ItemsRest(items[1..], x))
  {
    if |items| > 1 {
      assert Item(items[0]) + "," + Joined(items[1..]) + "]" + x
          == Item(items[0]) + ("," + (Joined(items[1..]) + "]" + x));
    } else {
      assert Item(items[0]) + "]" + x == Item(items[0]) + ("]" + x);
    }
  }

  ghost function FieldsRest(v: Json, keys: seq<string>, x: string): string
    requires v.Obj? && forall k :: k in keys ==> k in v.fields
  {
    Fields(v, keys) + "}" + x
  }

  ghost function AfterField(v: Json, keys: seq<string>, x: string): string
    requires v.Obj? && keys != [] && forall k :: k in keys ==> k in v.fields
  {
    if |keys| == 1 then "}" + x else "," + FieldsRest(v, keys[1..], x)
  }

  lemma {:induction false} FieldsRestHead(v: Json, keys: seq<string>, x: string)
    requires v.Obj? && keys != [] && forall k :: k in keys ==> k in v.fields
    ensures FieldsRest(v, keys, x)
         == "\"" + Rest(keys[0], ":" + (Printed(v.fields[keys[0]]) + AfterField(v, keys, x)))
  {
    var key, value, after := keys[0], Printed(v.fields[keys[0]]), AfterField(v, keys, x);
    if |keys| > 1 {
      Reassociate(Field(v, key), ",", Fields(v, keys[1..]), "}" + x);
      assert Field(v, key) + "," + Fields(v, keys[1..]) + "}" + x
          == Field(v, key) + "," + Fields(v, keys[1..]) + ("}" + x);
      assert Fields(v, keys[1..]) + "}" + x == Fields(v, keys[1..]) + ("}" + x);
    } else {
      assert Field(v, key) + "}" + x == Field(v, key) + ("}" + x);
    }
    assert FieldsRest(v, keys, x) == Field(v, key) + after;
    Reassociate(Quoted(key), ":", value, after);
    Reassociate("\"", Escaped(key), "\"", ":" + (value + after));
  }

  lemma {:induction false} Reassociate(a: string, b: string, c: string, d: string)
    ensures a + b + c + d == a + (b + (c + d))
    ensures a + b + c + d == a + (b + c + d)
  {
  }

  /** Canonical text is self-delimiting: equal texts come from values equal up to `Norm`. */
  lemma {:induction false} PrintedInjective(a: Json, b: Json, x: string, y: string)
    requires Finite(a) && Finite(b) && Delimited(x) && Delimited(y)
    requires Printed(a) + x == Printed(b) + y
    ensures Norm(a) == Norm(b) && x == y
    decreases a, 2
  {
    HeadTellsKind(a);
    HeadTellsKind(b);
    assert Printed(a)[0] == (Printed(a) + x)[0] && Printed(b)[0] == (Printed(b) + y)[0];
    match a
    case Num(text) =>
      NumbersInjective(text, b.text, x, y);
    case Str(s) =>
      StringTail(a, x);
      StringTail(b, y);
      EscapedInjective(s, b.s, x, y);
    case Arr(items) =>
      ArrayTail(a, x);
      ArrayTail(b, y);
      ArraysInjective(a, b, x, y);
    case Obj(fields) =>
      ObjectsInjective(a, b, x, y);
    case _ =>
      assert Printed(a) == Printed(b);
      assert x == (Printed(a) + x)[|Printed(a)|..] && y == (Printed(b) + y)[|Printed(b)|..];
  }

  lemma {:induction false} ArraysInjective(a: Json, b: Json, x: string, y: string)
    requires a.Arr? && b.Arr? && Finite(a) && Finite(b)
    requires ItemsRest(a.items, x) == ItemsRest(b.items, y)
    ensures Norm(a) == Norm(b) && x == y
    decreases a, 1
  {
    if a.items == [] {
      EmptyArrayText(b.items, x, y);
    } else if b.items == [] {
      EmptyArrayText(a.items, y, x);
    } else {
      ItemsInjective(a.items, b.items, x, y);
      assert |a.items| == 1 ==> (a.items == [Undefined] <==> b.items == [Undefined]) by {
        assert Norm(a.items[0]) == Norm(b.items[0]);
      }
    }
  }

  /** Only the empty array and the one-item array of `undefined` print as an empty pair of brackets. */
  lemma {:induction false} EmptyArrayText(items: seq<Json>, x: string, y: string)
    requires forall i :: 0 <= i < |items| ==> Finite(items[i])
    requires ItemsRest([], x) == ItemsRest(items, y)
    ensures (items == [] || items == [Undefined]) && x == y
  {
    assert ItemsRest([], x) == "]" + x;
    assert ("]" + x)[1..] == x && ("]" + y)[1..] == y;
    if items == [] {
      assert ItemsRest(items, y) == "]" + y;
    } else {
      ItemsRestHead(items, y);
      ItemHead(items[0], if |items| == 1 then "]" + y else "," + ItemsRest(items[1..], y));
    }
  }

  /** A missing item leaves the separator first; a printed one never starts like a separator. */
  lemma {:induction false} ItemHead(v: Json, x: string)
    requires Finite(v) && x != ""
    ensures v.Undefined? ==> Item(v) + x == x
    ensures !v.Undefined? ==> (Item(v) + x)[0] != ',' && (Item(v) + x)[0] != ']'
  {
    HeadTellsKind(v);
  }

  lemma {:induction false} ItemsInjective(xs: seq<Json>, ys: seq<Json>, x: string, y: string)
    requires xs != [] && ys != []
    requires forall i :: 0 <= i < |xs| ==> Finite(xs[i])
    requires forall i :: 0 <= i < |ys| ==> Finite(ys[i])
    requires ItemsRest(xs, x) == ItemsRest(ys, y)
    ensures |xs| == |ys| && x == y
    ensures forall i :: 0 <= i < |xs| ==> Norm(xs[i]) == Norm(ys[i])
    decreases xs, 0
  {
    ItemsRestHead(xs, x);
    ItemsRestHead(ys, y);
    var afterX := if |xs| == 1 then "]" + x else "," + ItemsRest(xs[1..], x);
    var afterY := if |ys| == 1 then "]" + y else "," + ItemsRest(ys[1..], y);
    ItemInjective(xs[0], ys[0], afterX, afterY);
    assert afterX[0] == afterY[0];
    if |xs| == 1 {
      assert ("]" + x)[1..] == x && ("]" + y)[1..] == y;
    } else {
      assert ("," + ItemsRest(xs[1..], x))[1..] == ItemsRest(xs[1..], x);
      assert ("," + ItemsRest(ys[1..], y))[1..] == ItemsRest(ys[1..], y);
      ItemsInjective(xs[1..], ys[1..], x, y);
      forall i | 0 <= i < |xs|
        ensures Norm(xs[i]) == Norm(ys[i])
      {
        if i > 0 {
          assert xs[i] == xs[1..][i - 1] && ys[i] == ys[1..][i - 1];
        }
      }
    }
  }

  lemma {:induction false} ItemInjective(a: Json, b: Json, x: string, y: string)
    requires Finite(a) && Finite(b)
    requires x != "" && y != "" && (x[0] == ',' || x[0] == ']') && (y[0] == ',' || y[0] == ']')
    requires Item(a) + x == Item(b) + y
    ensures Norm(a) == Norm(b) && x == y
    decreases a, 3
  {
    if !a.Undefined? && !b.Undefined? {
      PrintedInjective(a, b, x, y);
    } else {
      ItemHead(a, x);
      ItemHead(b, y);
    }
  }

  lemma {:induction false} ObjectsInjective(a: Json, b: Json, x: string, y: string)
    requires a.Obj? && b.Obj? && Finite(a) && Finite(b)
    requires Printed(a) + x == Printed(b) + y
    ensures Norm(a) == Norm(b) && x == y
    decreases a, 1
  {
    var ks, ls := SortedKeys(a.fields.Keys), SortedKeys(b.fields.Keys);
    assert (Printed(a) + x)[1..] == FieldsRest(a, ks, x);
    assert (Printed(b) + y)[1..] == FieldsRest(b, ls, y);
    FieldsInjective(a, b, ks, ls, x, y);
    assert forall k :: k in a.fields <==> k in b.fields;
    assert Norm(a).fields == Norm(b).fields;
  }

  lemma {:induction false} FieldsInjective(
    a: Json, b: Json, ks: seq<string>, ls: seq<string>, x: string, y: string)
    requires a.Obj? && b.Obj? && Finite(a) && Finite(b)
    requires (forall k :: k in ks ==> k in a.fields) && (forall k :: k in ls ==> k in b.fields)
    requires FieldsRest(a, ks, x) == FieldsRest(b, ls, y)
    ensures ks == ls && x == y
    ensures forall k :: k in ks ==> Norm(a.fields[k]) == Norm(b.fields[k])
    decreases a, 0, |ks|
  {
    assert ks == [] ==> FieldsRest(a, ks, x) == "}" + x;
    assert ls == [] ==> FieldsRest(b, ls, y) == "}" + y;
    assert ("}" + x)[1..] == x && ("}" + y)[1..] == y;
    if ks != [] {
      FieldsRestHead(a, ks, x);
    }
    if ls != [] {
      FieldsRestHead(b, ls, y);
    }
    if ks != [] && ls != [] {
      FieldInjective(a, b, ks, ls, x, y);
      if |ks| > 1 {
        FieldsInjective(a, b, ks[1..], ls[1..], x, y);
        assert ks == [ks[0]] + ks[1..] && ls == [ls[0]] + ls[1..];
      }
    }
  }

  lemma {:induction false} FieldInjective(
    a: Json, b: Json, ks: seq<string>, ls: seq<string>, x: string, y: string)
    requires a.Obj? && b.Obj? && Finite(a) && Finite(b) && ks != [] && ls != []
    requires (forall k :: k in ks ==> k in a.fields) && (forall k :: k in ls ==> k in b.fields)
    requires FieldsRest(a, ks, x) == FieldsRest(b, ls, y)
    ensures ks[0] == ls[0] && Norm(a.fields[ks[0]]) == Norm(b.fields[ls[0]])
    ensures |ks| == 1 <==> |ls| == 1
    ensures |ks| == 1 ==> x == y
    ensures |ks| > 1 ==> FieldsRest(a, ks[1..], x) == FieldsRest(b, ls[1..], y)
    decreases a, 0, 0
  {
    FieldsRestHead(a, ks, x);
    FieldsRestHead(b, ls, y);
    var va, vb := Printed(a.fields[ks[0]]), Printed(b.fields[ls[0]]);
    var afterA, afterB := AfterField(a, ks, x), AfterField(b, ls, y);
    assert FieldsRest(a, ks, x)[1..] == Rest(ks[0], ":" + (va + afterA));
    assert FieldsRest(b, ls, y)[1..] == Rest(ls[0], ":" + (vb + afterB));
    EscapedInjective(ks[0], ls[0], ":" + (va + afterA), ":" + (vb + afterB));
    assert (":" + (va + afterA))[1..] == va + afterA && (":" + (vb + afterB))[1..] == vb + afterB;
    PrintedInjective(a.fields[ks[0]], b.fields[ls[0]], afterA, afterB);
    assert afterA[0] == afterB[0];
    assert afterA[1..] == afterB[1..];
    assert |ks| == 1 ==> afterA[1..] == x;
    assert |ls| == 1 ==> afterB[1..] == y;
    assert |ks| > 1 ==> afterA[1..] == FieldsRest(a, ks[1..], x);
    assert |ls| > 1 ==> afterB[1..] == FieldsRest(b, ls[1..], y);
  }

  // ---------------------------------------------------------------- equal values print alike

  lemma {:induction false} NormJoined(items: seq<Json>, normed: seq<Json>)
    requires |items| == |normed|
    requires forall i :: 0 <= i < |items| ==> Item(items[i]) == Item(normed[i])
    ensures Joined(items) == Joined(normed)
  {
    if |items| > 1 {
      NormJoined(items[1..], normed[1..]);
    }
  }

  lemma {:induction false} NormFields(v: Json, n: Json, keys: seq<string>)
    requires v.Obj? && n.Obj? && n.fields.Keys == v.fields.Keys
    requires forall k :: k in v.fields ==> Printed(v.fields[k]) == Printed(n.fields[k])
    requires forall k :: k in keys ==> k in v.fields
    ensures Fields(v, keys) == Fields(n, keys)
    decreases keys
  {
    if |keys| > 1 {
      NormFields(v, n, keys[1..]);
    }
  }

  /** Reading a lone `undefined` item as nothing does not change the text. */
  lemma {:induction false} NormPrints(v: Json)
    ensures Printed(Norm(v)) == Printed(v)
    ensures Norm(v).Undefined? <==> v.Undefined?
  {
    match v
    case Arr(items) =>
      if items == [Undefined] {
        assert Joined(items) == "";
      } else {
        forall i | 0 <= i < |items|
          ensures Item(items[i]) == Item(Norm(v).items[i])
        {
          NormPrints(items[i]);
        }
        NormJoined(items, Norm(v).items);
      }
    case Obj(fields) =>
      forall k | k in fields
        ensures Printed(fields[k]) == Printed(Norm(v).fields[k])
      {
        NormPrints(fields[k]);
      }
      assert Norm(v).fields.Keys == fields.Keys;
      NormFields(v, Norm(v), SortedKeys(fields.Keys));
    case _ =>
  }

  /** Two values have the same canonical text iff they are equal once a one-item array of `undefined` is
      read as the empty array. */
  lemma {:induction false} CanonicalIff(a: Json, b: Json)
    requires Finite(a) && Finite(b)
    ensures StableJson(a) == StableJson(b) <==> Norm(a) == Norm(b)
  {
    NormPrints(a);
    NormPrints(b);
    if Printed(a) == Printed(b) {
      assert Printed(a) + "" == Printed(b) + "";
      PrintedInjective(a, b, "", "");
    }
  }

  /** No array of the value is the one-item array of `undefined`. */
  ghost predicate NoLoneUndefined(v: Json) {
    match v
    case Arr(items) => items != [Undefined] && forall i :: 0 <= i < |items| ==> NoLoneUndefined(items[i])
    case Obj(fields) => forall k :: k in fields ==> NoLoneUndefined(fields[k])
    case _ => true
  }

  lemma {:induction false} NormIdentity(v: Json)
    requires NoLoneUndefined(v)
    ensures Norm(v) == v
  {
    match v
    case Arr(items) =>
      forall i | 0 <= i < |items|
        ensures Norm(items[i]) == items[i]
      {
        NormIdentity(items[i]);
      }
      assert Norm(v).items == items;
    case Obj(fields) =>
      forall k | k in fields
        ensures Norm(fields[k]) == fields[k]
      {
        NormIdentity(fields[k]);
      }
      assert Norm(v).fields == fields;
    case _ =>
  }

  /** Without such arrays the text is canonical: it identifies the value up to key order. */
  lemma {:induction false} CanonicalForm(a: Json, b: Json)
    requires Finite(a) && Finite(b) && NoLoneUndefined(a) && NoLoneUndefined(b)
    ensures StableJson(a) == StableJson(b) <==> a == b
  {
    CanonicalIff(a, b);
    NormIdentity(a);
    NormIdentity(b);
  }

  /** The exception is real: an array holding one `undefined` prints like the empty array. */
  lemma {:induction false} LoneUndefinedCollides()
    ensures Arr([Undefined]) != Arr([])
    ensures StableJson(Arr([Undefined])) == StableJson(Arr([]))
  {
    CanonicalIff(Arr([Undefined]), Arr([]));
  }

  // ---------------------------------------------------------------- the request hash

  /** The text that is hashed: the request without its idempotency key. */
  ghost function RequestText(request: map<string, Json>): string {
    Printed(Obj(request - {"idempotencyKey"}))
  }

  /** Requests share a hash text iff they agree on every field but the idempotency key. */
  lemma {:induction false} RequestTextIdentifies(a: map<string, Json>, b: map<string, Json>)
    requires Finite(Obj(a)) && Finite(Obj(b)) && NoLoneUndefined(Obj(a)) && NoLoneUndefined(Obj(b))
    ensures RequestText(a) == RequestText(b) <==> a - {"idempotencyKey"} == b - {"idempotencyKey"}
  {
    CanonicalForm(Obj(a - {"idempotencyKey"}), Obj(b - {"idempotencyKey"}));
  }
}
