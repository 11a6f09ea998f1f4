/**
 An independent reader of boolean SQL text: words are separated by white space outside quotes and
 parentheses, OR binds weaker than AND, and a parenthesised word is read inside.
 */
module SqlReading {
  import opened Phrases
  import opened Text
  import opened Wrappers

  // ---- Words ----

  datatype Pos = Pos(depth: nat, quote: Option<char>)

  const OUTSIDE := Pos(0, None)

  predicate IsSpace(ch: char)
  {
    ch == ' ' || ch == '\n'
  }

  predicate IsQuoteMark(ch: char)
  {
    ch == '\'' || ch == '"'
  }

  /** The position after one character; `None` when a parenthesis is closed that was not opened. */
  function Move(p: Pos, ch: char): Option<Pos>
  {
    if p.quote.Some? then Some(if ch == p.quote.value then p.(quote := None) else p)
    else if IsQuoteMark(ch) then Some(p.(quote := Some(ch)))
    else if ch == '(' then Some(p.(depth := p.depth + 1))
    else if ch == ')' then (if p.depth == 0 then None else Some(p.(depth := p.depth - 1)))
    else Some(p)
  }

  predicate Breaks(p: Pos, ch: char)
  {
    p == OUTSIDE && IsSpace(ch)
  }

  /** Read all of `s`; with `spaces` false, white space that separates words is refused too. */
  function Advance(spaces: bool, s: string, p: Pos): Option<Pos>
  {
    if s == "" then Some(p)
    else if !spaces && Breaks(p, s[0]) then None
    else match Move(p, s[0]) case Some(q) => Advance(spaces, s[1..], q) case None => None
  }

  function Size(ws: seq<string>): nat
  {
    if ws == [] then 0 else |ws[0]| + 1 + Size(ws[1..])
  }

  function WordsFrom(s: string, word: string, p: Pos): (ws: seq<string>)
    ensures Size(ws) <= |word| + |s| + 1
    decreases |s|
  {
    if s == "" then (if word == "" then [] else [word])
    else if Breaks(p, s[0]) then
      var rest := WordsFrom(s[1..], "", p);
      if word == "" then rest
      else
        assert ([word] + rest)[1..] == rest;
        [word] + rest
    else match Move(p, s[0])
      case Some(q) => WordsFrom(s[1..], word + [s[0]], q)
      case None => WordsFrom(s[1..], word + [s[0]], p)
  }

  function Words(s: string): seq<string>
  {
    WordsFrom(s, "", OUTSIDE)
  }

  // ---- Three-valued logic ----

  datatype Truth = False | Unknown | True

  function Rank(t: Truth): nat
  {
    match t case False => 0 case Unknown => 1 case True => 2
  }

  function Both(a: Truth, b: Truth): Truth
  {
    if Rank(a) <= Rank(b) then a else b
  }

  function Either(a: Truth, b: Truth): Truth
  {
    if Rank(a) >= Rank(b) then a else b
  }

  function Not(a: Truth): Truth
  {
    match a case False => True case Unknown => Unknown case True => False
  }

  function AllOf(ts: seq<Truth>): Truth
  {
    if ts == [] then True else Both(ts[0], AllOf(ts[1..]))
  }

  function AnyOf(ts: seq<Truth>): Truth
  {
    if ts == [] then False else Either(ts[0], AnyOf(ts[1..]))
  }

  // ---- Reading ----

  /** Keywords are recognised in either case; `keyword` is given in lower case. */
  predicate Spells(w: string, keyword: string)
  {
    AsciiLower(w) == keyword
  }

  predicate Lacks(ws: seq<string>, keyword: string)
  {
    forall i | 0 <= i < |ws| :: !Spells(ws[i], keyword)
  }

  function SplitAt(keyword: string, ws: seq<string>): (parts: seq<seq<string>>)
    ensures |parts| >= 1
    ensures forall i :: 0 <= i < |parts| ==> Size(parts[i]) <= Size(ws)
  {
    if ws == [] then [[]]
    else
      var rest := SplitAt(keyword, ws[1..]);
      if Spells(ws[0], keyword) then [[]] + rest
      else
        assert ([ws[0]] + rest[0])[1..] == rest[0];
        [[ws[0]] + rest[0]] + rest[1..]
  }

  /** A word that is one parenthesis and what it encloses. */
  predicate IsGroup(w: string)
  {
    |w| >= 2 && w[0] == '(' && w[|w| - 1] == ')' && Advance(true, w[1..|w| - 1], OUTSIDE) == Some(OUTSIDE)
  }

  /** The value of a text, given the value of each elementary predicate by its words. */
  function ReadOr(sem: seq<string> -> Truth, ws: seq<string>): Truth
    decreases Size(ws), 2
  {
    var parts := SplitAt("or", ws);
    AnyOf(seq(|parts|, i requires 0 <= i < |parts| => ReadAnd(sem, parts[i])))
  }

  function ReadAnd(sem: seq<string> -> Truth, ws: seq<string>): Truth
    decreases Size(ws), 1
  {
    var parts := SplitAt("and", ws);
    AllOf(seq(|parts|, i requires 0 <= i < |parts| => ReadUnit(sem, parts[i])))
  }

  function ReadUnit(sem: seq<string> -> Truth, ws: seq<string>): Truth
    decreases Size(ws), 0
  {
    if |ws| == 1 && IsGroup(ws[0]) then ReadOr(sem, Words(ws[0][1..|ws[0]| - 1])) else sem(ws)
  }

  // ---- Texts that keep their position ----

  /** One word. */
  predicate Solid(w: string)
  {
    w != "" && Advance(false, w, OUTSIDE) == Some(OUTSIDE)
  }

  /** Any number of words. */
  predicate Balanced(s: string)
  {
    Advance(true, s, OUTSIDE) == Some(OUTSIDE)
  }

  lemma {:induction false} AdvanceConcat(spaces: bool, a: string, b: string, p: Pos)
    requires Advance(spaces, a, p).Some?
    ensures Advance(spaces, a + b, p) == Advance(spaces, b, Advance(spaces, a, p).value)
  {
    if a == "" {
      assert a + b == b;
    } else {
      assert (a + b)[1..] == a[1..] + b;
      AdvanceConcat(spaces, a[1..], b, Move(p, a[0]).value);
    }
  }

  lemma {:induction false} SolidIsBalanced(a: string, p: Pos)
    requires Advance(false, a, p).Some?
    ensures Advance(true, a, p) == Advance(false, a, p)
  {
    if a != "" {
      SolidIsBalanced(a[1..], Move(p, a[0]).value);
    }
  }

  /** Text that is balanced outside is one word inside a parenthesis. */
  lemma {:induction false} Deeper(a: string, p: Pos)
    requires Advance(true, a, p).Some?
    ensures var q := Advance(true, a, p).value;
            Advance(false, a, p.(depth := p.depth + 1)) == Some(q.(depth := q.depth + 1))
  {
    if a != "" {
      Deeper(a[1..], Move(p, a[0]).value);
    }
  }

  lemma BalancedConcat(a: string, b: string)
    requires Balanced(a) && Balanced(b)
    ensures Balanced(a + b)
  {
    AdvanceConcat(true, a, b, OUTSIDE);
  }

  lemma SolidConcat(a: string, b: string)
    requires Solid(a) && Solid(b)
    ensures Solid(a + b)
  {
    AdvanceConcat(false, a, b, OUTSIDE);
  }

  lemma GroupIsSolid(inner: string)
    requires Balanced(inner)
    ensures Solid("(" + inner + ")") && IsGroup("(" + inner + ")")
    ensures ("(" + inner + ")")[1..|inner| + 1] == inner
  {
    var w := "(" + inner + ")";
    var tail := inner + ")";
    Deeper(inner, OUTSIDE);
    AdvanceConcat(false, inner, ")", Pos(1, None));
    assert w == "(" + tail && w[1..] == tail;
    assert w[1..|w| - 1] == inner;
    assert Advance(false, ")", Pos(1, None)) == Some(OUTSIDE);
  }

  /** No quote, no parenthesis, no white space. */
  predicate PlainChar(ch: char)
  {
    !IsQuoteMark(ch) && ch != '(' && ch != ')' && !IsSpace(ch)
  }

  predicate AllPlain(s: string)
  {
    forall i | 0 <= i < |s| :: PlainChar(s[i])
  }

  lemma {:induction false} PlainIsSolid(s: string)
    requires AllPlain(s)
    ensures Advance(false, s, OUTSIDE) == Some(OUTSIDE)
    ensures s != "" ==> Solid(s)
  {
    if s != "" {
      PlainIsSolid(s[1..]);
    }
  }

  lemma {:induction false} InsideQuotes(s: string, q: char)
    requires q !in s
    ensures Advance(false, s + [q], Pos(0, Some(q))) == Some(OUTSIDE)
  {
    var t := s + [q];
    if s == "" {
      assert t == [q] && t[1..] == "";
    } else {
      assert t[1..] == s[1..] + [q];
      assert t[0] == s[0] && s[0] != q;
      InsideQuotes(s[1..], q);
    }
  }

  lemma QuotedIsSolid(s: string, q: char)
    requires IsQuoteMark(q) && q !in s
    ensures Solid([q] + s + [q])
  {
    var w := [q] + s + [q];
    assert w[1..] == s + [q];
    InsideQuotes(s, q);
  }

  // ---- Words of spaced text ----

  ghost predicate AllSolid(ws: seq<string>)
  {
    forall i :: 0 <= i < |ws| ==> Solid(ws[i])
  }

  lemma {:induction false} WordIsCollected(w: string, rest: string, word: string, p: Pos)
    requires Advance(false, w, p).Some?
    ensures WordsFrom(w + rest, word, p) == WordsFrom(rest, word + w, Advance(false, w, p).value)
    decreases |w|
  {
    if w == "" {
      assert w + rest == rest && word + w == word;
    } else {
      assert (w + rest)[1..] == w[1..] + rest;
      assert (word + [w[0]]) + w[1..] == word + w;
      WordIsCollected(w[1..], rest, word + [w[0]], Move(p, w[0]).value);
    }
  }

  lemma {:induction false} SpacesSeparate(sep: string, rest: string)
    requires forall i :: 0 <= i < |sep| ==> IsSpace(sep[i])
    ensures WordsFrom(sep + rest, "", OUTSIDE) == Words(rest)
    decreases |sep|
  {
    if sep == "" {
      assert sep + rest == rest;
    } else {
      assert (sep + rest)[1..] == sep[1..] + rest;
      SpacesSeparate(sep[1..], rest);
    }
  }

  lemma WordThenSpace(w: string, sep: string, rest: string)
    requires Solid(w) && sep != "" && forall i :: 0 <= i < |sep| ==> IsSpace(sep[i])
    ensures Words(w + (sep + rest)) == [w] + Words(rest)
  {
    var t := sep + rest;
    WordIsCollected(w, t, "", OUTSIDE);
    assert "" + w == w;
    assert t[1..] == sep[1..] + rest;
    SpacesSeparate(sep[1..], rest);
    assert WordsFrom(t, w, OUTSIDE) == [w] + WordsFrom(t[1..], "", OUTSIDE);
  }

  lemma LoneWord(w: string)
    requires Solid(w)
    ensures Words(w) == [w]
  {
    WordIsCollected(w, "", "", OUTSIDE);
    assert w + "" == w && "" + w == w;
  }

  /** Spaced words followed by white space and more text are read one by one. */
  lemma {:induction false} SpacedThen(ws: seq<string>, sep: string, rest: string)
    requires AllSolid(ws) && ws != [] && sep != "" && forall i :: 0 <= i < |sep| ==> IsSpace(sep[i])
    ensures Words(Spaced(ws) + (sep + rest)) == ws + Words(rest)
  {
    if |ws| == 1 {
      WordThenSpace(ws[0], sep, rest);
      assert ws == [ws[0]];
    } else {
      var tail := Spaced(ws[1..]) + (sep + rest);
      assert Spaced(ws) + (sep + rest) == ws[0] + (" " + tail);
      WordThenSpace(ws[0], " ", tail);
      SpacedThen(ws[1..], sep, rest);
      assert ws == [ws[0]] + ws[1..];
    }
  }

  lemma {:induction false} SpacedReadsBack(ws: seq<string>)
    requires AllSolid(ws)
    ensures Words(Spaced(ws)) == ws
    ensures Balanced(Spaced(ws))
  {
    if |ws| == 1 {
      LoneWord(ws[0]);
      SolidIsBalanced(ws[0], OUTSIDE);
      assert ws == [ws[0]];
    } else if |ws| > 1 {
      WordThenSpace(ws[0], " ", Spaced(ws[1..]));
      SpacedReadsBack(ws[1..]);
      SolidIsBalanced(ws[0], OUTSIDE);
      assert Balanced(" ");
      BalancedConcat(" ", Spaced(ws[1..]));
      BalancedConcat(ws[0], " " + Spaced(ws[1..]));
      assert ws == [ws[0]] + ws[1..];
    }
  }

  lemma {:induction false} SpacedConcat(a: seq<string>, b: seq<string>)
    requires a != [] && b != []
    ensures Spaced(a + b) == Spaced(a) + (" " + Spaced(b))
  {
    if |a| == 1 {
      assert (a + b)[1..] == b;
    } else {
      assert (a + b)[1..] == a[1..] + b;
      SpacedConcat(a[1..], b);
    }
  }

  // ---- Splitting ----

  lemma {:induction false} SplitNowhere(keyword: string, ws: seq<string>)
    requires Lacks(ws, keyword)
    ensures SplitAt(keyword, ws) == [ws]
  {
    if ws != [] {
      SplitNowhere(keyword, ws[1..]);
      assert ws == [ws[0]] + ws[1..];
    }
  }

  lemma {:induction false} SplitAfter(keyword: string, mark: string, ws: seq<string>, rest: seq<string>)
    requires Lacks(ws, keyword) && Spells(mark, keyword)
    ensures SplitAt(keyword, ws + ([mark] + rest)) == [ws] + SplitAt(keyword, rest)
  {
    var all := ws + ([mark] + rest);
    if ws == [] {
      assert all[1..] == rest;
    } else {
      assert all[1..] == ws[1..] + ([mark] + rest);
      SplitAfter(keyword, mark, ws[1..], rest);
      assert ws == [ws[0]] + ws[1..];
    }
  }

  /** Splitting undoes interleaving. */
  lemma {:induction false} SplitInterleaved(keyword: string, mark: string, lists: seq<seq<string>>)
    requires Spells(mark, keyword)
    requires lists != [] && forall i :: 0 <= i < |lists| ==> Lacks(lists[i], keyword)
    ensures SplitAt(keyword, Interleave(lists, mark)) == lists
  {
    if |lists| == 1 {
      SplitNowhere(keyword, lists[0]);
      assert lists == [lists[0]];
    } else {
      SplitAfter(keyword, mark, lists[0], Interleave(lists[1..], mark));
      SplitInterleaved(keyword, mark, lists[1..]);
      assert lists == [lists[0]] + lists[1..];
    }
  }

  lemma {:induction false} InterleaveSolid(lists: seq<seq<string>>, mark: string)
    requires Solid(mark) && forall i :: 0 <= i < |lists| ==> AllSolid(lists[i])
    ensures AllSolid(Interleave(lists, mark))
  {
    if |lists| > 1 {
      InterleaveSolid(lists[1..], mark);
    }
  }

  lemma {:induction false} InterleaveLacks(lists: seq<seq<string>>, mark: string, keyword: string)
    requires !Spells(mark, keyword) && forall i :: 0 <= i < |lists| ==> Lacks(lists[i], keyword)
    ensures Lacks(Interleave(lists, mark), keyword)
  {
    if |lists| > 1 {
      InterleaveLacks(lists[1..], mark, keyword);
    }
  }

  // ---- Joined texts ----

  /** Text made of words with one space between them, none of them AND or OR. */
  ghost predicate Clean(text: string)
  {
    var ws := Words(text);
    text == Spaced(ws) && AllSolid(ws) && ws != [] && Lacks(ws, "and") && Lacks(ws, "or")
  }

  ghost predicate AllClean(texts: seq<string>)
  {
    forall i :: 0 <= i < |texts| ==> Clean(texts[i])
  }

  function WordLists(texts: seq<string>): seq<seq<string>>
  {
    seq(|texts|, i requires 0 <= i < |texts| => Words(texts[i]))
  }

  lemma CleanWords(ws: seq<string>)
    requires AllSolid(ws) && ws != [] && Lacks(ws, "and") && Lacks(ws, "or")
    ensures Clean(Spaced(ws)) && Words(Spaced(ws)) == ws
  {
    SpacedReadsBack(ws);
  }

  lemma JoinStep(head: string, space: string, mark: string, rest: string)
    requires Clean(head) && Solid(mark)
    requires space != "" && forall i :: 0 <= i < |space| ==> IsSpace(space[i])
    ensures Words(head + ((space + (mark + " ")) + rest)) == Words(head) + ([mark] + Words(rest))
  {
    var tail := mark + (" " + rest);
    assert (space + (mark + " ")) + rest == space + tail;
    SpacedThen(Words(head), space, tail);
    WordThenSpace(mark, " ", rest);
  }

  lemma BalancedStep(head: string, space: string, mark: string, rest: string)
    requires Clean(head) && Solid(mark) && Balanced(rest)
    requires forall i :: 0 <= i < |space| ==> IsSpace(space[i])
    ensures Balanced(head + ((space + (mark + " ")) + rest))
  {
    SpacedReadsBack(Words(head));
    SpacesAreBalanced(space);
    SolidIsBalanced(mark, OUTSIDE);
    SpacesAreBalanced(" ");
    BalancedConcat(mark, " ");
    BalancedConcat(space, mark + " ");
    BalancedConcat(space + (mark + " "), rest);
    BalancedConcat(head, (space + (mark + " ")) + rest);
  }

  /** Clean texts joined by a separator of white space, a keyword and a space are read as their words interleaved. */
  lemma {:induction false} JoinedWords(texts: seq<string>, space: string, mark: string)
    requires AllClean(texts) && texts != [] && Solid(mark)
    requires space != "" && forall i :: 0 <= i < |space| ==> IsSpace(space[i])
    ensures Words(Join(texts, space + (mark + " "))) == Interleave(WordLists(texts), mark)
    ensures Balanced(Join(texts, space + (mark + " ")))
  {
    if |texts| == 1 {
      SpacedReadsBack(Words(texts[0]));
    } else {
      JoinedWords(texts[1..], space, mark);
      assert WordLists(texts)[1..] == WordLists(texts[1..]);
      var rest := Join(texts[1..], space + (mark + " "));
      JoinStep(texts[0], space, mark, rest);
      BalancedStep(texts[0], space, mark, rest);
    }
  }

  lemma {:induction false} SpacesAreBalanced(s: string)
    requires forall i :: 0 <= i < |s| ==> IsSpace(s[i])
    ensures Balanced(s)
  {
    if s != "" {
      SpacesAreBalanced(s[1..]);
    }
  }

  // ---- Reading joined texts ----

  function UnitValues(sem: seq<string> -> Truth, texts: seq<string>): seq<Truth>
  {
    seq(|texts|, i requires 0 <= i < |texts| => ReadUnit(sem, Words(texts[i])))
  }

  lemma OneValue(t: Truth)
    ensures AllOf([t]) == t && AnyOf([t]) == t
  {
    assert [t][1..] == [];
  }

  /** Without the keyword there is one operand. */
  lemma ReadOne(sem: seq<string> -> Truth, ws: seq<string>)
    requires Lacks(ws, "and") && Lacks(ws, "or")
    ensures ReadOr(sem, ws) == ReadAnd(sem, ws) == ReadUnit(sem, ws)
  {
    SplitNowhere("or", ws);
    SplitNowhere("and", ws);
    OneValue(ReadAnd(sem, ws));
    OneValue(ReadUnit(sem, ws));
    assert seq(1, i requires 0 <= i < 1 => ReadAnd(sem, [ws][i])) == [ReadAnd(sem, ws)];
    assert seq(1, i requires 0 <= i < 1 => ReadUnit(sem, [ws][i])) == [ReadUnit(sem, ws)];
  }

  lemma ReadConjunction(sem: seq<string> -> Truth, texts: seq<string>)
    requires AllClean(texts) && texts != []
    ensures ReadOr(sem, Interleave(WordLists(texts), "AND")) == AllOf(UnitValues(sem, texts))
  {
    var lists := WordLists(texts);
    var all := Interleave(lists, "AND");
    assert Spells("AND", "and") && !Spells("AND", "or");
    InterleaveLacks(lists, "AND", "or");
    SplitNowhere("or", all);
    OneValue(ReadAnd(sem, all));
    assert seq(1, i requires 0 <= i < 1 => ReadAnd(sem, [all][i])) == [ReadAnd(sem, all)];
    SplitInterleaved("and", "AND", lists);
    assert UnitValues(sem, texts) == seq(|lists|, i requires 0 <= i < |lists| => ReadUnit(sem, lists[i]));
  }

  lemma PartsReadAlone(sem: seq<string> -> Truth, texts: seq<string>)
    requires AllClean(texts)
    ensures forall i :: 0 <= i < |texts| ==> ReadAnd(sem, WordLists(texts)[i]) == UnitValues(sem, texts)[i]
  {
    forall i | 0 <= i < |texts| ensures ReadAnd(sem, WordLists(texts)[i]) == UnitValues(sem, texts)[i] {
      ReadOne(sem, Words(texts[i]));
    }
  }

  lemma ReadDisjunction(sem: seq<string> -> Truth, texts: seq<string>)
    requires AllClean(texts) && texts != []
    ensures ReadOr(sem, Interleave(WordLists(texts), "OR")) == AnyOf(UnitValues(sem, texts))
  {
    var lists := WordLists(texts);
    var all := Interleave(lists, "OR");
    assert Spells("OR", "or");
    SplitInterleaved("or", "OR", lists);
    PartsReadAlone(sem, texts);
    assert UnitValues(sem, texts) == seq(|lists|, i requires 0 <= i < |lists| => ReadAnd(sem, lists[i]));
  }

  lemma MarksAreSolid()
    ensures Solid("AND") && Solid("OR")
  {
    assert AllPlain("AND") && AllPlain("OR");
    PlainIsSolid("AND");
    PlainIsSolid("OR");
  }

  /** Clean texts joined by AND are read as their conjunction. */
  lemma JoinedConjunction(sem: seq<string> -> Truth, texts: seq<string>, space: string)
    requires AllClean(texts) && texts != []
    requires space != "" && forall i :: 0 <= i < |space| ==> IsSpace(space[i])
    ensures ReadOr(sem, Words(Join(texts, space + ("AND" + " ")))) == AllOf(UnitValues(sem, texts))
    ensures Balanced(Join(texts, space + ("AND" + " ")))
  {
    MarksAreSolid();
    JoinedWords(texts, space, "AND");
    ReadConjunction(sem, texts);
  }

  /** Clean texts joined by OR are read as their disjunction. */
  lemma JoinedDisjunction(sem: seq<string> -> Truth, texts: seq<string>, space: string)
    requires AllClean(texts) && texts != []
    requires space != "" && forall i :: 0 <= i < |space| ==> IsSpace(space[i])
    ensures ReadOr(sem, Words(Join(texts, space + ("OR" + " ")))) == AnyOf(UnitValues(sem, texts))
    ensures Balanced(Join(texts, space + ("OR" + " ")))
  {
    MarksAreSolid();
    JoinedWords(texts, space, "OR");
    ReadDisjunction(sem, texts);
  }
}
