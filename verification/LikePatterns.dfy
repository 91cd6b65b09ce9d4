/** LIKE patterns: the escaped pattern of a search matches exactly the texts that contain it. */
module LikePatterns {
  /** The characters a LIKE pattern treats specially. */
  predicate Special(c: char) {
    c == '\\' || c == '%' || c == '_'
  }

  /** Every special character gets a backslash. */
  function Escape(search: string): string {
    if search == "" then ""
    else (if Special(search[0]) then ['\\', search[0]] else [search[0]]) + Escape(search[1..])
  }

  function Pattern(search: string): string {
    "%" + Escape(search) + "%"
  }

  /** LIKE with the default escape character; a pattern that ends in a lone backslash matches nothing. */
  predicate Like(text: string, pattern: string)
    decreases |text| + |pattern|
  {
    if pattern == "" then text == ""
    else if pattern[0] == '%' then
      Like(text, pattern[1..]) || (text != "" && Like(text[1..], pattern))
    else if pattern[0] == '_' then text != "" && Like(text[1..], pattern[1..])
    else if pattern[0] == '\\' then
      |pattern| > 1 && text != "" && text[0] == pattern[1] && Like(text[1..], pattern[2..])
    else text != "" && text[0] == pattern[0] && Like(text[1..], pattern[1..])
  }

  predicate PartAt(text: string, part: string, i: nat) {
    i + |part| <= |text| && text[i..i + |part|] == part
  }

  ghost predicate Contains(text: string, part: string) {
    exists i :: PartAt(text, part, i)
  }

  lemma {:induction false} PercentMatchesAll(text: string)
    ensures Like(text, "%")
  {
    if text != "" {
      PercentMatchesAll(text[1..]);
    }
  }

  /** An escaped text followed by % matches what starts with the text. */
  lemma {:induction false} EscapedIsPrefix(text: string, part: string)
    ensures Like(text, Escape(part) + "%") <==> part <= text
  {
    var pattern := Escape(part) + "%";
    if part == "" {
      assert pattern == "%";
      PercentMatchesAll(text);
    } else if Special(part[0]) {
      assert pattern[0] == '\\' && pattern[1] == part[0] && pattern[2..] == Escape(part[1..]) + "%";
      if text != "" {
        EscapedIsPrefix(text[1..], part[1..]);
        PrefixStep(text, part);
      }
    } else {
      assert pattern[0] == part[0] && pattern[1..] == Escape(part[1..]) + "%";
      if text != "" {
        EscapedIsPrefix(text[1..], part[1..]);
        PrefixStep(text, part);
      }
    }
  }

  lemma {:induction false} PrefixStep(text: string, part: string)
    requires text != "" && part != ""
    ensures part <= text <==> part[0] == text[0] && part[1..] <= text[1..]
  {
    if part[0] == text[0] && part[1..] <= text[1..] {
      assert part == [part[0]] + part[1..] && text == [text[0]] + text[1..];
    }
  }

  lemma {:induction false} ContainsStep(text: string, part: string)
    ensures Contains(text, part) <==> part <= text || (text != "" && Contains(text[1..], part))
  {
    if Contains(text, part) {
      var i: nat :| PartAt(text, part, i);
      if i > 0 {
        assert text[1..][i - 1..i - 1 + |part|] == text[i..i + |part|];
        assert PartAt(text[1..], part, i - 1);
      }
    }
    if part <= text {
      assert text[0..0 + |part|] == part;
      assert PartAt(text, part, 0);
    }
    if text != "" && Contains(text[1..], part) {
      var i: nat :| PartAt(text[1..], part, i);
      assert text[i + 1..i + 1 + |part|] == text[1..][i..i + |part|];
      assert PartAt(text, part, i + 1);
    }
  }

  /** The pattern of a search matches exactly the texts that contain it, special characters included. */
  lemma {:induction false} PatternMeansContains(text: string, search: string)
    ensures Like(text, Pattern(search)) <==> Contains(text, search)
  {
    assert Pattern(search)[1..] == Escape(search) + "%";
    EscapedIsPrefix(text, search);
    ContainsStep(text, search);
    if text != "" {
      PatternMeansContains(text[1..], search);
    }
  }

  // ---------------------------------------------------------------- case folding

  /** A folding of characters, to any number of them, that keeps special characters apart from the others. */
  ghost predicate Folding(fold: char -> string) {
    forall c :: if Special(c) then fold(c) == [c] else Plain(fold(c))
  }

  predicate Plain(text: string) {
    forall c :: c in text ==> !Special(c)
  }

  function Folded(fold: char -> string, text: string): string {
    if text == "" then "" else fold(text[0]) + Folded(fold, text[1..])
  }

  lemma {:induction false} FoldedJoin(fold: char -> string, a: string, b: string)
    ensures Folded(fold, a + b) == Folded(fold, a) + Folded(fold, b)
  {
    if a == "" {
      assert a + b == b;
    } else {
      assert (a + b)[1..] == a[1..] + b;
      FoldedJoin(fold, a[1..], b);
    }
  }

  lemma {:induction false} FoldedOne(fold: char -> string, c: char)
    ensures Folded(fold, [c]) == fold(c)
  {
    assert [c][1..] == "" && fold(c) + "" == fold(c);
  }

  lemma {:induction false} PlainEscapes(plain: string, rest: string)
    requires Plain(plain)
    ensures Escape(plain + rest) == plain + Escape(rest)
  {
    if plain == "" {
      assert plain + rest == rest;
    } else {
      assert (plain + rest)[1..] == plain[1..] + rest;
      PlainEscapes(plain[1..], rest);
      assert plain == [plain[0]] + plain[1..];
    }
  }

  /** Escaping and folding commute, whatever the folding does to the length. */
  lemma {:induction false} EscapeFolds(fold: char -> string, search: string)
    requires Folding(fold)
    ensures Folded(fold, Escape(search)) == Escape(Folded(fold, search))
  {
    if search != "" {
      var c := search[0];
      var head := if Special(c) then ['\\', c] else [c];
      FoldedJoin(fold, head, Escape(search[1..]));
      EscapeFolds(fold, search[1..]);
      FoldedOne(fold, c);
      if Special(c) {
        FoldedJoin(fold, ['\\'], [c]);
        FoldedOne(fold, '\\');
        assert head == ['\\'] + [c];
        assert Folded(fold, head) == ['\\', c];
        assert ([c] + Folded(fold, search[1..]))[1..] == Folded(fold, search[1..]);
      } else {
        PlainEscapes(fold(c), Folded(fold, search[1..]));
      }
    }
  }

  /** ILIKE compares folded texts. */
  predicate ILikes(fold: char -> string, text: string, pattern: string) {
    Like(Folded(fold, text), Folded(fold, pattern))
  }

  ghost predicate ContainsFolded(fold: char -> string, text: string, search: string) {
    Contains(Folded(fold, text), Folded(fold, search))
  }

  lemma {:induction false} ILikeMeansContains(fold: char -> string, text: string, search: string)
    requires Folding(fold)
    ensures ILikes(fold, text, Pattern(search)) <==> ContainsFolded(fold, text, search)
  {
    FoldedJoin(fold, "%" + Escape(search), "%");
    FoldedJoin(fold, "%", Escape(search));
    EscapeFolds(fold, search);
    FoldedOne(fold, '%');
    assert Special('%') && Folded(fold, "%") == "%";
    PatternMeansContains(Folded(fold, text), Folded(fold, search));
  }
}
