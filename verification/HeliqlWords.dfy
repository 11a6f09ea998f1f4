/** The words that the compiler prints are the words that the reader finds. */
module HeliqlWords {
  import opened Phrases
  import opened Heliql
  import opened HeliqlNames
  import opened SqlEvaluation
  import opened SqlReading
  import opened Text
  import opened Wrappers

  /** A value as the grammar has it; a string without apostrophes. */
  predicate GrammarValue(v: Value)
  {
    match v
    case Str(s) => '\'' !in s
    case Int(_) => true
    case Float(lexeme) => IsNumber(lexeme)
    case Field(f) => GrammarName(f)
  }

  predicate GrammarRhs(rhs: InRhs)
  {
    match rhs
    case Baseline(entity, _) => GrammarName(entity)
    case List(vs) => forall i | 0 <= i < |vs| :: GrammarValue(vs[i])
  }

  predicate GrammarAtom(a: Atom)
  {
    match a
    case Cmp(f, _, v) => GrammarName(f) && GrammarValue(v)
    case In(f, rhs) => GrammarName(f) && GrammarRhs(rhs)
    case NotIn(f, rhs) => GrammarName(f) && GrammarRhs(rhs)
    case Unique(f, _, _, _) => GrammarName(f)
  }

  // ---- Single words ----

  lemma QuotedWord(s: string)
    requires '\'' !in s
    ensures Solid(Quote(s))
  {
    QuotedIsSolid(s, '\'');
  }

  lemma DelimitedWord(s: string)
    requires '"' !in s
    ensures Solid(Delimit(s))
  {
    QuotedIsSolid(s, '"');
  }

  lemma PlainWord(s: string)
    requires s != "" && AllPlain(s)
    ensures Solid(s)
  {
    PlainIsSolid(s);
  }

  /** A column is one word, whatever its name. */
  lemma ColumnIsWord(f: string)
    requires GrammarName(f)
    ensures Solid(FieldToColumn(f)) && !IsGroup(FieldToColumn(f))
  {
    var col := FieldToColumn(f);
    if f == PROVIDER_FIELD || f == "event.time" || f == "time" {
      SpecialColumns(f);
      QuotedWord("aws");
      DelimitedWord("time");
    } else {
      OrdinaryColumn(f);
      UnderscoredChars(f);
      if EventColumn(col) || ActorColumn(col) {
        OwnColumnIsName(col);
      } else {
        assert forall i :: 0 <= i < |col| ==> FieldChar(f[i]);
      }
      PlainWord(col);
    }
  }

  lemma {:induction false} DecimalDigits(n: nat)
    ensures AllDigits(Decimal(n)) && Decimal(n) != "" && ParseNat(Decimal(n)) == n
  {
    var digits := "0123456789";
    assert forall k | 0 <= k < 10 :: IsDigit(digits[k]) && digits[k] as int == k + '0' as int;
    var last := [digits[n % 10]];
    assert last[..0] == "" && ParseNat("") == 0;
    assert ParseNat(last) == n % 10;
    if n >= 10 {
      DecimalDigits(n / 10);
      var head := Decimal(n / 10);
      assert (head + last)[..|head + last| - 1] == head;
    }
  }

  lemma {:induction false} NoPoint(s: string)
    requires AllDigits(s)
    ensures Point(s) == |s|
  {
    if s != "" {
      NoPoint(s[1..]);
    }
  }

  lemma DigitsReadAsNumber(u: string)
    requires AllDigits(u) && u != ""
    ensures Unsigned(u) == u && IsInteger(u) && ParseInt(u) == ParseNat(u)
    ensures IsNumber(u) && ParseNumber(u) == ParseNat(u) as real
  {
    NoPoint(u);
    assert u[..|u|] == u;
  }

  lemma MinusReadsAsNumber(u: string)
    requires AllDigits(u) && u != ""
    ensures IsInteger("-" + u) && ParseInt("-" + u) == -ParseNat(u)
    ensures IsNumber("-" + u) && ParseNumber("-" + u) == -(ParseNat(u) as real)
  {
    var w := "-" + u;
    assert w[0] == '-' && w[1..] == u;
    NoPoint(u);
    assert u[..|u|] == u;
  }

  /** Printing an integer and reading it gives the integer. */
  lemma DecimalReadsBack(n: int)
    ensures IsInteger(Decimal(n)) && ParseInt(Decimal(n)) == n
    ensures IsNumber(Decimal(n)) && ParseNumber(Decimal(n)) == n as real
  {
    if n < 0 {
      DecimalDigits(-n);
      MinusReadsAsNumber(Decimal(-n));
    } else {
      DecimalDigits(n);
      DigitsReadAsNumber(Decimal(n));
    }
  }

  lemma PlainConcat(a: string, b: string)
    requires AllPlain(a) && AllPlain(b)
    ensures AllPlain(a + b)
  {
  }

  lemma PartsArePlain(u: string, p: nat)
    requires p <= |u| && AllDigits(u[..p])
    requires p < |u| ==> u[p] == '.' && AllDigits(u[p + 1..])
    ensures AllPlain(u)
  {
    forall i | 0 <= i < |u| ensures PlainChar(u[i]) {
      if i < p {
        assert IsDigit(u[..p][i]);
      } else if i > p {
        assert IsDigit(u[p + 1..][i - p - 1]);
      }
    }
  }

  lemma UnsignedIsPlain(u: string)
    requires var p := Point(u); AllDigits(u[..p]) && (p < |u| ==> AllDigits(u[p + 1..]))
    ensures AllPlain(u)
  {
    PointIsThere(u);
    PartsArePlain(u, Point(u));
  }

  lemma {:induction false} PointIsThere(s: string)
    ensures Point(s) < |s| ==> s[Point(s)] == '.'
  {
    if s != "" && s[0] != '.' {
      PointIsThere(s[1..]);
    }
  }

  lemma NumberIsWord(w: string)
    requires IsNumber(w)
    ensures Solid(w) && (IsDigit(w[0]) || w[0] == '-')
  {
    var u := Unsigned(w);
    UnsignedIsPlain(u);
    assert u[..Point(u)][0] == u[0];
    if u != w {
      PlainConcat("-", u);
      assert w == "-" + u;
    }
    PlainWord(w);
  }

  lemma ValueIsWord(v: Value)
    requires GrammarValue(v)
    ensures Solid(ValueText(v)) && !IsGroup(ValueText(v))
  {
    match v
    case Str(s) => QuotedWord(s);
    case Int(i) =>
      DecimalReadsBack(i);
      NumberIsWord(Decimal(i));
    case Float(lexeme) => NumberIsWord(lexeme);
    case Field(f) => ColumnIsWord(f);
  }

  lemma OpIsWord(op: CmpOp)
    ensures Solid(OpText(op)) && ReadOp(OpText(op)) == Some(op)
    ensures OpText(op) != "IN" && OpText(op) != "EXISTS" && OpText(op)[0] in "=!<>"
  {
    assert AllPlain(OpText(op));
    PlainWord(OpText(op));
  }

  lemma SpacedWords(ws: seq<string>)
    requires AllSolid(ws)
    ensures IsGroup(Bracketed(Spaced(ws))) && Solid(Bracketed(Spaced(ws)))
    ensures Inside(Bracketed(Spaced(ws))) == Spaced(ws) && Words(Spaced(ws)) == ws
  {
    SpacedReadsBack(ws);
    GroupIsSolid(Spaced(ws));
  }

  // ---- Value lists ----

  /** The words of a list: every value but the last carries its comma. */
  function WithCommas(parts: seq<string>): seq<string>
  {
    if |parts| <= 1 then parts else [parts[0] + ","] + WithCommas(parts[1..])
  }

  lemma {:induction false} ListIsSpaced(parts: seq<string>)
    ensures Join(parts, ", ") == Spaced(WithCommas(parts))
  {
    if |parts| > 1 {
      var rest := WithCommas(parts[1..]);
      ListIsSpaced(parts[1..]);
      assert WithCommas(parts)[1..] == rest && rest != [];
      assert parts[0] + (", " + Spaced(rest)) == (parts[0] + ",") + (" " + Spaced(rest));
    }
  }

  lemma {:induction false} WithCommasSolid(parts: seq<string>)
    requires AllSolid(parts)
    ensures AllSolid(WithCommas(parts))
  {
    if |parts| > 1 {
      WithCommasSolid(parts[1..]);
      PlainWord(",");
      SolidConcat(parts[0], ",");
    }
  }

  function ValueTexts(vs: seq<Value>): seq<string>
  {
    seq(|vs|, i requires 0 <= i < |vs| => ValueText(vs[i]))
  }

  lemma ListIsWord(vs: seq<Value>)
    requires GrammarRhs(List(vs))
    ensures IsGroup(Bracketed(ListText(vs))) && Solid(Bracketed(ListText(vs)))
    ensures Words(Inside(Bracketed(ListText(vs)))) == WithCommas(ValueTexts(vs))
  {
    forall i | 0 <= i < |vs| ensures Solid(ValueText(vs[i])) {
      ValueIsWord(vs[i]);
    }
    WithCommasSolid(ValueTexts(vs));
    ListIsSpaced(ValueTexts(vs));
    SpacedWords(WithCommas(ValueTexts(vs)));
  }

  // ---- Subqueries ----

  predicate Alias(alias: string)
  {
    alias != "" && AllPlain(alias) && alias[0] in "pc"
  }

  lemma QualifiedIsWord(alias: string, col: string)
    requires alias != "" && AllPlain(alias) && Solid(col)
    ensures Solid(Qualified(alias, col))
  {
    PlainWord(alias);
    PlainWord(".");
    SolidConcat(".", col);
    SolidConcat(alias, "." + col);
  }

  lemma AgainstIsWords(alias: string, col: string, op: string)
    requires alias != "" && AllPlain(alias) && Solid(col) && Solid(op)
    ensures AllSolid(Against(alias, col, op))
  {
    QualifiedIsWord(alias, col);
    QualifiedIsWord("e", col);
  }

  lemma ClockWords()
    ensures Solid(">=") && Solid("-") && Solid("INTERVAL")
  {
    PlainWord(">=");
    PlainWord("-");
    PlainWord("INTERVAL");
  }

  lemma SinceIsWords(alias: string, clock: string, interval: string)
    requires alias != "" && AllPlain(alias) && Solid(clock) && '\'' !in interval
    ensures AllSolid(Since(alias, clock, interval))
  {
    DelimitedWord("time");
    QualifiedIsWord(alias, Delimit("time"));
    ClockWords();
    QuotedWord(interval);
  }

  lemma IntervalReads(d: Duration)
    ensures '\'' !in IntervalText(d)
    ensures ReadInterval(Quote(IntervalText(d))) == Some(d.value * UnitLength(d.unit))
  {
    var number, unit := Decimal(d.value), UnitText(d.unit);
    DecimalReadsBack(d.value);
    NumberIsWord(number);
    UnitReads(d.unit);
    SpacedReadsBack([number, unit]);
    NumberHasNoQuote(number);
    assert Spaced([number, unit]) == number + (" " + unit) by {
      assert [number, unit][1..] == [unit];
    }
    var row: Row := (c: string) => Null;
    LiteralOperand({}, row, IntervalText(d));
  }

  lemma NumberHasNoQuote(w: string)
    requires IsInteger(w)
    ensures '\'' !in w
  {
    if Unsigned(w) != w {
      assert w == "-" + Unsigned(w);
    }
  }

  function UnitLength(u: DurationUnit): int
  {
    match u case Seconds => 1 case Minutes => 60 case Hours => 3600 case Days => 86400
  }

  lemma UnitReads(u: DurationUnit)
    ensures Solid(UnitText(u)) && UnitSeconds(UnitText(u)) == Some(UnitLength(u)) && '\'' !in UnitText(u)
  {
    assert AllPlain(UnitText(u));
    PlainWord(UnitText(u));
  }

  ghost predicate AllPlainWords(ws: seq<string>)
  {
    forall i :: 0 <= i < |ws| ==> ws[i] != "" && AllPlain(ws[i])
  }

  lemma PlainWordsAreSolid(ws: seq<string>)
    requires AllPlainWords(ws)
    ensures AllSolid(ws)
  {
    forall i | 0 <= i < |ws| ensures Solid(ws[i]) {
      PlainWord(ws[i]);
    }
  }

  lemma SolidAppend(a: seq<string>, b: seq<string>)
    requires AllSolid(a) && AllSolid(b)
    ensures AllSolid(a + b)
  {
  }

  lemma FromPriorIsPlain()
    ensures AllPlainWords(FROM_PRIOR)
  {
  }

  lemma FromC2IsPlain()
    ensures AllPlainWords(FROM_C2)
  {
  }

  lemma OwnColumnIsWord(col: string)
    requires EventColumn(col) || ActorColumn(col)
    ensures Solid(col)
  {
    OwnColumnIsName(col);
    LowerNameIsWord(col);
  }

  lemma LowerNameIsWord(col: string)
    requires LowerName(col)
    ensures Solid(col)
  {
    PlainWord(col);
  }

  lemma EventTimeIsWord()
    ensures Solid(Qualified("e", Delimit("time")))
  {
    DelimitedWord("time");
    QualifiedIsWord("e", Delimit("time"));
  }

  lemma SeenClauseIsWords(col: string, entity: string, interval: string, i: nat)
    requires Solid(col) && Solid(entity) && '\'' !in interval && i < 4
    ensures AllSolid(SeenClauses(col, entity, interval)[i])
  {
    if i == 0 {
      PlainWord("=");
      AgainstIsWords("prior", entity, "=");
    } else if i == 1 {
      PlainWord("=");
      AgainstIsWords("prior", col, "=");
    } else if i == 2 {
      PlainWord("<>");
      OwnColumnIsWord("event_id");
      AgainstIsWords("prior", "event_id", "<>");
    } else {
      EventTimeIsWord();
      SinceIsWords("prior", Qualified("e", Delimit("time")), interval);
    }
  }

  lemma SeenBeforeIsWords(col: string, entity: string, interval: string)
    requires Solid(col) && Solid(entity) && '\'' !in interval
    ensures AllSolid(SeenBefore(col, entity, interval))
  {
    var clauses := SeenClauses(col, entity, interval);
    forall i | 0 <= i < |clauses| ensures AllSolid(clauses[i]) {
      SeenClauseIsWords(col, entity, interval, i);
    }
    PlainWord("AND");
    InterleaveSolid(clauses, "AND");
    FromPriorIsPlain();
    PlainWordsAreSolid(FROM_PRIOR);
    SolidAppend(FROM_PRIOR, Interleave(clauses, "AND"));
  }

  lemma NowIsWord()
    ensures Solid("NOW()")
  {
    PlainWord("NOW");
    GroupIsSolid("");
    SolidConcat("NOW", "(" + "" + ")");
    assert "NOW" + ("(" + "" + ")") == "NOW()";
  }

  lemma CountClauseIsWords(interval: string, i: nat)
    requires '\'' !in interval && i < 2
    ensures AllSolid(CountClauses(interval)[i])
  {
    if i == 0 {
      PlainWord("=");
      OwnColumnIsWord("actor_user_name");
      AgainstIsWords("c2", "actor_user_name", "=");
    } else {
      NowIsWord();
      SinceIsWords("c2", "NOW()", interval);
    }
  }

  lemma CountedIsWord(col: string)
    requires Solid(col)
    ensures Solid("count(DISTINCT " + (col + ")"))
  {
    CallIsWord("count", "DISTINCT", col);
    assert "count" + ("(" + ("DISTINCT" + (" " + col)) + ")") == "count(DISTINCT " + (col + ")");
  }

  lemma CallIsWord(name: string, word: string, col: string)
    requires Solid(col) && name != "" && AllPlain(name) && word != "" && AllPlain(word)
    ensures Solid(name + ("(" + (word + (" " + col)) + ")"))
  {
    PlainWord(name);
    PlainWord(word);
    SpacedReadsBack([word, col]);
    assert [word, col][1..] == [col];
    GroupIsSolid(word + (" " + col));
    SolidConcat(name, "(" + (word + (" " + col)) + ")");
  }

  lemma DistinctCountIsWords(col: string, interval: string)
    requires Solid(col) && '\'' !in interval
    ensures AllSolid(DistinctCount(col, interval))
  {
    var clauses := CountClauses(interval);
    forall i | 0 <= i < |clauses| ensures AllSolid(clauses[i]) {
      CountClauseIsWords(interval, i);
    }
    PlainWord("AND");
    InterleaveSolid(clauses, "AND");
    FromC2IsPlain();
    PlainWordsAreSolid(FROM_C2);
    SolidAppend(FROM_C2, Interleave(clauses, "AND"));
    PlainWord("SELECT");
    CountedIsWord(col);
    SolidAppend(["SELECT", "count(DISTINCT " + (col + ")")], FROM_C2 + Interleave(clauses, "AND"));
  }

  // ---- Atoms ----

  lemma SqlWords()
    ensures Solid("IN") && Solid("NOT") && Solid("EXISTS")
  {
    PlainWord("IN");
    PlainWord("NOT");
    PlainWord("EXISTS");
  }

  lemma RhsIsWord(f: string, rhs: InRhs)
    requires GrammarName(f) && GrammarRhs(rhs)
    ensures match rhs
            case List(vs) => Solid(Bracketed(ListText(vs)))
            case Baseline(e, w) =>
              Solid(Bracketed(Spaced(SeenBefore(FieldToColumn(f), FieldToColumn(e), IntervalText(w)))))
  {
    match rhs
    case List(vs) => ListIsWord(vs);
    case Baseline(e, w) =>
      ColumnIsWord(f);
      ColumnIsWord(e);
      IntervalReads(w);
      SeenBeforeIsWords(FieldToColumn(f), FieldToColumn(e), IntervalText(w));
      SpacedWords(SeenBefore(FieldToColumn(f), FieldToColumn(e), IntervalText(w)));
  }

  lemma UniqueIsWord(f: string, w: Duration)
    requires GrammarName(f)
    ensures Solid(Bracketed(Spaced(DistinctCount(FieldToColumn(f), IntervalText(w)))))
  {
    ColumnIsWord(f);
    IntervalReads(w);
    DistinctCountIsWords(FieldToColumn(f), IntervalText(w));
    SpacedWords(DistinctCount(FieldToColumn(f), IntervalText(w)));
  }

  lemma ListIsWords(col: string, list: string)
    requires Solid(col) && Solid(list)
    ensures AllSolid([col, "IN", list]) && AllSolid([col, "NOT", "IN", list])
  {
    SqlWords();
  }

  lemma ExistsIsWords(g: string)
    requires Solid(g)
    ensures AllSolid(["EXISTS", g]) && AllSolid(["NOT", "EXISTS", g])
  {
    SqlWords();
  }

  lemma InIsWords(f: string, rhs: InRhs)
    requires GrammarName(f) && GrammarRhs(rhs)
    ensures AllSolid(AtomWords(In(f, rhs))) && AllSolid(AtomWords(NotIn(f, rhs)))
  {
    ColumnIsWord(f);
    RhsIsWord(f, rhs);
    match rhs
    case List(vs) => ListIsWords(FieldToColumn(f), Bracketed(ListText(vs)));
    case Baseline(e, w) =>
      ExistsIsWords(Bracketed(Spaced(SeenBefore(FieldToColumn(f), FieldToColumn(e), IntervalText(w)))));
  }

  lemma ComparisonIsWords(l: string, op: CmpOp, r: string)
    requires Solid(l) && Solid(r)
    ensures AllSolid([l, OpText(op), r])
  {
    OpIsWord(op);
  }

  lemma AtomIsWords(a: Atom)
    requires GrammarAtom(a)
    ensures AllSolid(AtomWords(a))
  {
    match a
    case Cmp(f, op, v) =>
      ColumnIsWord(f);
      ValueIsWord(v);
      ComparisonIsWords(FieldToColumn(f), op, ValueText(v));
    case In(f, rhs) => InIsWords(f, rhs);
    case NotIn(f, rhs) => InIsWords(f, rhs);
    case Unique(f, w, op, n) =>
      UniqueIsWord(f, w);
      ValueIsWord(Int(n));
      ComparisonIsWords(AtomWords(a)[0], op, Decimal(n));
  }

  /** The reader finds in an atom's text the words that the compiler printed, each subquery and list one word. */
  lemma AtomReadsBack(a: Atom)
    requires GrammarAtom(a)
    ensures Words(AtomText(a)) == AtomWords(a)
  {
    AtomIsWords(a);
    SpacedReadsBack(AtomWords(a));
  }
}
