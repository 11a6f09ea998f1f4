/**
 What a rule means on an event, given the table of events, and that its compiled WHERE text, read and
 evaluated as SQL, means the same.
 */
module HeliqlMeaning {
  import opened Phrases
  import opened Heliql
  import opened HeliqlNames
  import opened HeliqlWords
  import opened SqlEvaluation
  import opened SqlReading
  import opened Text
  import opened Wrappers

  // ---- The meaning of atoms ----

  function ValueDatum(row: Row, v: Value): Datum
  {
    match v
    case Str(s) => Varchar(s)
    case Int(i) => Number(i as real)
    case Float(lexeme) => Number(ParseNumber(lexeme))
    case Field(f) => FieldDatum(row, f)
  }

  function ValueData(row: Row, vs: seq<Value>): (ds: seq<Datum>)
    ensures |ds| == |vs| && forall i :: 0 <= i < |vs| ==> ds[i] == ValueDatum(row, vs[i])
  {
    if vs == [] then [] else [ValueDatum(row, vs[0])] + ValueData(row, vs[1..])
  }

  function Length(w: Duration): int
  {
    w.value * UnitLength(w.unit)
  }

  /** Both rows have a value for the field, and the same one. */
  predicate Agree(a: Row, b: Row, f: string)
  {
    FieldDatum(a, f) != Null && FieldDatum(a, f) == FieldDatum(b, f)
  }

  predicate OtherEvent(a: Row, b: Row)
  {
    Compare(Ne, a("event_id"), b("event_id")) == True
  }

  predicate NotBefore(row: Row, clock: Datum, w: Duration)
  {
    Compare(Gte, row("time"), Minus(clock, Length(w))) == True
  }

  /** Some other event of the same entity, no older than the window, has the same value. */
  predicate SeenBefore(t: Table, e: Row, f: string, entity: string, w: Duration)
  {
    exists i | 0 <= i < |t.rows| ::
      Agree(t.rows[i], e, entity) && Agree(t.rows[i], e, f) && OtherEvent(t.rows[i], e) && NotBefore(t.rows[i], e("time"), w)
  }

  /** The values of the field in the recent events of the same actor. */
  function RecentValues(t: Table, e: Row, f: string, w: Duration): set<Datum>
  {
    set i | 0 <= i < |t.rows| && Agree(t.rows[i], e, "actor_user_name") && NotBefore(t.rows[i], Number(t.now), w)
            && FieldDatum(t.rows[i], f) != Null
          :: FieldDatum(t.rows[i], f)
  }

  function AtomValue(t: Table, e: Row, a: Atom): Truth
  {
    match a
    case Cmp(f, op, v) => Compare(op, FieldDatum(e, f), ValueDatum(e, v))
    case In(f, List(vs)) => Member(FieldDatum(e, f), ValueData(e, vs))
    case NotIn(f, List(vs)) => Not(Member(FieldDatum(e, f), ValueData(e, vs)))
    case In(f, Baseline(entity, w)) => Holds(SeenBefore(t, e, f, entity, w))
    case NotIn(f, Baseline(entity, w)) => Holds(!SeenBefore(t, e, f, entity, w))
    case Unique(f, w, op, n) => Compare(op, Number(|RecentValues(t, e, f, w)| as real), Number(n as real))
  }

  // ---- Which atoms compile to SQL predicates ----

  predicate ValueOk(reserved: set<string>, v: Value)
  {
    v.Field? ==> SqlName(reserved, v.name)
  }

  /** Both sides of a baseline's comparisons must be columns: `event.cloud_provider` is a literal. */
  predicate IsColumn(reserved: set<string>, f: string)
  {
    SqlName(reserved, f) && f != PROVIDER_FIELD
  }

  predicate RhsOk(reserved: set<string>, f: string, rhs: InRhs)
  {
    match rhs
    case Baseline(entity, _) => IsColumn(reserved, f) && IsColumn(reserved, entity)
    case List(vs) => SqlName(reserved, f) && vs != [] && AllOk(reserved, vs)
  }

  predicate AtomOk(reserved: set<string>, a: Atom)
  {
    match a
    case Cmp(f, _, v) => SqlName(reserved, f) && ValueOk(reserved, v)
    case In(f, rhs) => RhsOk(reserved, f, rhs)
    case NotIn(f, rhs) => RhsOk(reserved, f, rhs)
    case Unique(f, _, _, _) => SqlName(reserved, f)
  }

  // ---- Operands and lists ----

  lemma ValueOperand(reserved: set<string>, row: Row, v: Value)
    requires Dialect(reserved) && GrammarValue(v)
    ensures Operand(reserved, row, ValueText(v)) == if ValueOk(reserved, v) then Some(ValueDatum(row, v)) else None
  {
    match v
    case Str(s) => LiteralOperand(reserved, row, s);
    case Int(i) =>
      DecimalReadsBack(i);
      NumberIsWord(Decimal(i));
    case Float(lexeme) => NumberIsWord(lexeme);
    case Field(f) => OperandIff(reserved, row, f);
  }

  predicate AllOk(reserved: set<string>, vs: seq<Value>)
  {
    forall i | 0 <= i < |vs| :: ValueOk(reserved, vs[i])
  }

  lemma AllOkCons(reserved: set<string>, vs: seq<Value>)
    requires vs != []
    ensures AllOk(reserved, vs) <==> ValueOk(reserved, vs[0]) && AllOk(reserved, vs[1..])
  {
    assert forall i :: 0 < i < |vs| ==> vs[i] == vs[1..][i - 1];
  }

  lemma ItemsCons(reserved: set<string>, row: Row, text: string, rest: seq<string>)
    requires rest != []
    ensures ReadItems(reserved, row, [text + ","] + rest) ==
            match (Operand(reserved, row, text), ReadItems(reserved, row, rest))
            case (Some(d), Some(ds)) => Some([d] + ds)
            case _ => None
  {
    var ws := [text + ","] + rest;
    assert ws[1..] == rest && ws[0][..|ws[0]| - 1] == text;
  }

  lemma OneItem(reserved: set<string>, row: Row, vs: seq<Value>)
    requires Dialect(reserved) && |vs| == 1 && GrammarValue(vs[0])
    ensures ItemsAre(reserved, row, [ValueText(vs[0])], vs)
  {
    ValueOperand(reserved, row, vs[0]);
    assert AllOk(reserved, vs) <==> ValueOk(reserved, vs[0]);
    assert ValueData(row, vs) == [ValueDatum(row, vs[0])];
  }

  lemma MoreItems(reserved: set<string>, row: Row, v: Value, rest: seq<Value>, texts: seq<string>)
    requires Dialect(reserved) && GrammarValue(v) && texts != []
    requires ReadItems(reserved, row, texts) == if AllOk(reserved, rest) then Some(ValueData(row, rest)) else None
    ensures ReadItems(reserved, row, [ValueText(v) + ","] + texts) ==
            if ValueOk(reserved, v) && AllOk(reserved, rest) then Some([ValueDatum(row, v)] + ValueData(row, rest)) else None
  {
    ValueOperand(reserved, row, v);
    ItemsCons(reserved, row, ValueText(v), texts);
  }

  function ListWords(vs: seq<Value>): seq<string>
  {
    WithCommas(ValueTexts(vs))
  }

  lemma LoneWordList(vs: seq<Value>)
    requires |vs| == 1
    ensures ListWords(vs) == [ValueText(vs[0])]
  {
  }

  lemma ListWordsCons(vs: seq<Value>)
    requires |vs| > 1
    ensures ListWords(vs) == [ValueText(vs[0]) + ","] + ListWords(vs[1..]) && ListWords(vs[1..]) != []
  {
    assert ValueTexts(vs)[1..] == ValueTexts(vs[1..]);
  }

  ghost predicate ItemsAre(reserved: set<string>, row: Row, ws: seq<string>, vs: seq<Value>)
  {
    ReadItems(reserved, row, ws) == if AllOk(reserved, vs) then Some(ValueData(row, vs)) else None
  }

  lemma ItemsStep(reserved: set<string>, row: Row, ws: seq<string>, vs: seq<Value>, texts: seq<string>)
    requires Dialect(reserved) && vs != [] && GrammarValue(vs[0]) && texts != []
    requires ItemsAre(reserved, row, texts, vs[1..]) && ws == [ValueText(vs[0]) + ","] + texts
    ensures ItemsAre(reserved, row, ws, vs)
  {
    AllOkCons(reserved, vs);
    MoreItems(reserved, row, vs[0], vs[1..], texts);
  }

  lemma {:induction false} ItemsRead(reserved: set<string>, row: Row, vs: seq<Value>)
    requires Dialect(reserved) && vs != [] && forall i :: 0 <= i < |vs| ==> GrammarValue(vs[i])
    ensures ItemsAre(reserved, row, ListWords(vs), vs)
  {
    if |vs| == 1 {
      OneItem(reserved, row, vs);
      LoneWordList(vs);
    } else {
      ItemsRead(reserved, row, vs[1..]);
      ListWordsCons(vs);
      ItemsStep(reserved, row, ListWords(vs), vs, ListWords(vs[1..]));
    }
  }

  lemma ListReads(reserved: set<string>, row: Row, vs: seq<Value>)
    requires Dialect(reserved) && GrammarRhs(List(vs))
    ensures ReadValues(reserved, row, Bracketed(ListText(vs))) ==
            if vs != [] && AllOk(reserved, vs) then Some(ValueData(row, vs)) else None
  {
    ListIsWord(vs);
    if vs != [] {
      ItemsRead(reserved, row, vs);
    }
  }

  // ---- Clauses of a subquery ----

  lemma OwnRef(alias: string, col: string)
    ensures ReadRef(alias, Qualified(alias, col)) == Some(Ref(true, col))
  {
    var w := Qualified(alias, col);
    assert w == (alias + ".") + col && w[|alias| + 1..] == col;
  }

  lemma EventRef(alias: string, col: string)
    requires Alias(alias)
    ensures ReadRef(alias, Qualified("e", col)) == Some(Ref(false, col))
  {
    var w := Qualified("e", col);
    assert w == "e." + col && w[2..] == col;
    assert w[0] == 'e' && (alias + ".")[0] == alias[0] && alias[0] != 'e';
  }

  function BothSides(op: CmpOp, col: string): Clause
  {
    Compared(op, Ref(true, col), Ref(false, col))
  }

  lemma AgainstReads(alias: string, col: string, op: string, o: CmpOp)
    requires Alias(alias) && ReadOp(op) == Some(o)
    ensures ReadClause(alias, Against(alias, col, op)) == Some(BothSides(o, col))
  {
    OwnRef(alias, col);
    EventRef(alias, col);
  }

  const TIME := Delimit("time")
  const EVENT_TIME := Qualified("e", Delimit("time"))

  lemma SinceReads(alias: string, clock: string, interval: string, seconds: int)
    requires Alias(alias) && ReadInterval(Quote(interval)) == Some(seconds)
    ensures ReadClause(alias, Since(alias, clock, interval)) ==
            ReadSince(Some(Ref(true, TIME)), Some(Gte), clock, ReadRef(alias, clock), Some(seconds))
  {
    OwnRef(alias, TIME);
  }

  lemma SinceEventReads(alias: string, w: Duration)
    requires Alias(alias)
    ensures ReadClause(alias, Since(alias, EVENT_TIME, IntervalText(w))) ==
            Some(AfterEvent(Gte, Ref(true, TIME), Ref(false, TIME), Length(w)))
  {
    EventRef(alias, TIME);
    IntervalReads(w);
    SinceReads(alias, EVENT_TIME, IntervalText(w), Length(w));
    assert EVENT_TIME[0] == 'e' && "NOW()"[0] == 'N';
  }

  lemma SinceNowReads(alias: string, w: Duration)
    requires Alias(alias)
    ensures ReadClause(alias, Since(alias, "NOW()", IntervalText(w))) == Some(AfterNow(Gte, Ref(true, TIME), Length(w)))
  {
    IntervalReads(w);
    SinceReads(alias, "NOW()", IntervalText(w), Length(w));
  }

  lemma {:induction false} CollectsAll<S, T>(f: S -> Option<T>, xs: seq<S>, ys: seq<T>)
    requires |xs| == |ys| && forall i :: 0 <= i < |xs| ==> f(xs[i]) == Some(ys[i])
    ensures Collect(f, xs) == Some(ys)
  {
    if xs != [] {
      CollectsAll(f, xs[1..], ys[1..]);
      assert ys == [ys[0]] + ys[1..];
    }
  }

  lemma {:induction false} CollectsNone<S, T>(f: S -> Option<T>, xs: seq<S>, i: nat)
    requires i < |xs| && f(xs[i]) == None
    ensures Collect(f, xs) == None
  {
    if i > 0 {
      CollectsNone(f, xs[1..], i - 1);
    }
  }

  function SeenConjuncts(col: string, entity: string, w: Duration): seq<Clause>
  {
    [BothSides(Eq, entity), BothSides(Eq, col), BothSides(Ne, "event_id"),
     AfterEvent(Gte, Ref(true, TIME), Ref(false, TIME), Length(w))]
  }

  lemma SeenClauseReads(col: string, entity: string, w: Duration, i: nat)
    requires i < 4
    ensures ClauseReader("prior")(SeenClauses(col, entity, IntervalText(w))[i]) == Some(SeenConjuncts(col, entity, w)[i])
  {
    if i == 0 {
      AgainstReads("prior", entity, "=", Eq);
    } else if i == 1 {
      AgainstReads("prior", col, "=", Eq);
    } else if i == 2 {
      AgainstReads("prior", "event_id", "<>", Ne);
    } else {
      SinceEventReads("prior", w);
    }
  }

  lemma SeenClausesRead(col: string, entity: string, w: Duration)
    ensures ReadClauses("prior", SeenClauses(col, entity, IntervalText(w))) == Some(SeenConjuncts(col, entity, w))
  {
    var clauses, conjuncts := SeenClauses(col, entity, IntervalText(w)), SeenConjuncts(col, entity, w);
    forall i: nat | i < 4 ensures ClauseReader("prior")(clauses[i]) == Some(conjuncts[i]) {
      SeenClauseReads(col, entity, w, i);
    }
    CollectsAll(ClauseReader("prior"), clauses, conjuncts);
  }

  lemma OwnColumnReads(reserved: set<string>, col: string)
    requires Dialect(reserved) && (EventColumn(col) || ActorColumn(col))
    ensures Column(reserved, col) == Some(col)
  {
    OwnColumnIsIdentifier(reserved, col);
  }

  lemma TimeColumn(reserved: set<string>)
    ensures Column(reserved, TIME) == Some("time")
  {
    var row: Row := (c: string) => Null;
    DelimitedOperand(reserved, row, "time");
  }

  predicate Apart(w: string)
  {
    w != "" && LowerChar(w[0]) != 'a' && LowerChar(w[0]) != 'o'
  }

  ghost predicate AllApart(ws: seq<string>)
  {
    forall i :: 0 <= i < |ws| ==> Apart(ws[i])
  }

  /** Nothing that starts otherwise spells a keyword. */
  lemma NoKeyword(w: string)
    requires Apart(w)
    ensures !Spells(w, "and") && !Spells(w, "or")
  {
    assert AsciiLower(w)[0] == LowerChar(w[0]);
    assert "and"[0] == 'a' && "or"[0] == 'o';
  }

  lemma NoKeywords(ws: seq<string>)
    requires AllApart(ws)
    ensures Lacks(ws, "and") && Lacks(ws, "or")
  {
    forall i | 0 <= i < |ws| ensures !Spells(ws[i], "and") && !Spells(ws[i], "or") {
      NoKeyword(ws[i]);
    }
  }

  ghost predicate EachApart(lists: seq<seq<string>>)
  {
    forall i :: 0 <= i < |lists| ==> AllApart(lists[i])
  }

  lemma ClausesSplit(lists: seq<seq<string>>)
    requires lists != [] && EachApart(lists)
    ensures SplitAt("and", Interleave(lists, "AND")) == lists
  {
    SplitApart(lists, "and", "AND");
  }

  lemma SplitApart(lists: seq<seq<string>>, keyword: string, mark: string)
    requires lists != [] && EachApart(lists) && keyword == "and" && Spells(mark, keyword)
    ensures SplitAt(keyword, Interleave(lists, mark)) == lists
  {
    forall i | 0 <= i < |lists| ensures Lacks(lists[i], keyword) {
      NoKeywords(lists[i]);
    }
    SplitInterleaved(keyword, mark, lists);
  }

  lemma ExistsReads(f: string, entity: string, w: Duration)
    requires GrammarName(f) && GrammarName(entity)
    ensures ReadExists(Bracketed(Spaced(Heliql.SeenBefore(FieldToColumn(f), FieldToColumn(entity), IntervalText(w))))) ==
            Some(SeenConjuncts(FieldToColumn(f), FieldToColumn(entity), w))
  {
    var ws := Heliql.SeenBefore(FieldToColumn(f), FieldToColumn(entity), IntervalText(w));
    var lists := SeenClauses(FieldToColumn(f), FieldToColumn(entity), IntervalText(w));
    ColumnIsWord(f);
    ColumnIsWord(entity);
    IntervalReads(w);
    SeenBeforeIsWords(FieldToColumn(f), FieldToColumn(entity), IntervalText(w));
    SpacedWords(ws);
    assert ws[|FROM_PRIOR|..] == Interleave(lists, "AND");
    SeenClausesApart(FieldToColumn(f), FieldToColumn(entity), IntervalText(w));
    ClausesSplit(lists);
    SeenClausesRead(FieldToColumn(f), FieldToColumn(entity), w);
  }

  lemma AgainstApart(alias: string, col: string, op: string)
    requires Alias(alias) && Apart(op)
    ensures AllApart(Against(alias, col, op))
  {
    assert Qualified(alias, col)[0] == alias[0] && Qualified("e", col)[0] == 'e';
  }

  lemma SinceApart(alias: string, clock: string, interval: string)
    requires Alias(alias) && Apart(clock)
    ensures AllApart(Since(alias, clock, interval))
  {
    assert Qualified(alias, Delimit("time"))[0] == alias[0] && Quote(interval)[0] == '\'';
    assert Apart(">=") && Apart("-") && Apart("INTERVAL");
  }

  lemma SeenClausesApart(col: string, entity: string, interval: string)
    ensures EachApart(SeenClauses(col, entity, interval))
  {
    assert Apart("=") && Apart("<>") && EVENT_TIME[0] == 'e';
    AgainstApart("prior", entity, "=");
    AgainstApart("prior", col, "=");
    AgainstApart("prior", "event_id", "<>");
    SinceApart("prior", EVENT_TIME, interval);
  }

  // ---- What the subqueries select ----

  lemma EqualityIsAgreement(a: Datum, b: Datum)
    ensures Compare(Eq, a, b) == True <==> a != Null && a == b
  {
  }

  /** The conjuncts with their names resolved. */
  function SeenResolved(f: string, entity: string, w: Duration): seq<Clause>
  {
    [BothSides(Eq, ColumnOf(entity)), BothSides(Eq, ColumnOf(f)), BothSides(Ne, "event_id"),
     AfterEvent(Gte, Ref(true, "time"), Ref(false, "time"), Length(w))]
  }

  lemma SidesResolve(names: Names, op: CmpOp, col: string)
    ensures Resolve(names, BothSides(op, col)) ==
            match names(col) case Some(c) => Some(BothSides(op, c)) case None => None
  {
  }

  lemma SinceResolves(names: Names, seconds: int)
    requires names(TIME) == Some("time")
    ensures Resolve(names, AfterEvent(Gte, Ref(true, TIME), Ref(false, TIME), seconds)) ==
            Some(AfterEvent(Gte, Ref(true, "time"), Ref(false, "time"), seconds))
    ensures Resolve(names, AfterNow(Gte, Ref(true, TIME), seconds)) == Some(AfterNow(Gte, Ref(true, "time"), seconds))
  {
  }

  /** The names of the subquery resolve exactly when both fields' columns do. */
  lemma SeenResolves(names: Names, f: string, entity: string, w: Duration, okF: bool, okEntity: bool)
    requires names(FieldToColumn(f)) == if okF then Some(ColumnOf(f)) else None
    requires names(FieldToColumn(entity)) == if okEntity then Some(ColumnOf(entity)) else None
    requires names("event_id") == Some("event_id") && names(TIME) == Some("time")
    ensures Collect(Resolver(names), SeenConjuncts(FieldToColumn(f), FieldToColumn(entity), w)) ==
            if okF && okEntity then Some(SeenResolved(f, entity, w)) else None
  {
    var raw, resolver := SeenConjuncts(FieldToColumn(f), FieldToColumn(entity), w), Resolver(names);
    SidesResolve(names, Eq, FieldToColumn(entity));
    SidesResolve(names, Eq, FieldToColumn(f));
    SidesResolve(names, Ne, "event_id");
    SinceResolves(names, Length(w));
    if !okEntity {
      CollectsNone(resolver, raw, 0);
    } else if !okF {
      CollectsNone(resolver, raw, 1);
    } else {
      CollectsAll(resolver, raw, SeenResolved(f, entity, w));
    }
  }

  lemma SeenResolvesIff(reserved: set<string>, f: string, entity: string, w: Duration)
    requires Dialect(reserved) && GrammarName(f) && GrammarName(entity)
    ensures ResolveAll(reserved, SeenConjuncts(FieldToColumn(f), FieldToColumn(entity), w)) ==
            if IsColumn(reserved, f) && IsColumn(reserved, entity) then Some(SeenResolved(f, entity, w)) else None
  {
    ColumnIff(reserved, f);
    ColumnIff(reserved, entity);
    OwnColumnReads(reserved, "event_id");
    TimeColumn(reserved);
    SeenResolves(ColumnNames(reserved), f, entity, w, IsColumn(reserved, f), IsColumn(reserved, entity));
  }

  /** The comparison of a field's column in both rows. */
  lemma FieldSelects(now: real, row: Row, e: Row, f: string)
    requires f != PROVIDER_FIELD
    ensures ClauseValue(now, row, e, BothSides(Eq, ColumnOf(f))) == True <==> Agree(row, e, f)
  {
    EqualityIsAgreement(row(ColumnOf(f)), e(ColumnOf(f)));
  }

  lemma SeenSelects(now: real, row: Row, e: Row, f: string, entity: string, w: Duration)
    requires f != PROVIDER_FIELD && entity != PROVIDER_FIELD
    ensures Selected(now, row, e, SeenResolved(f, entity, w)) <==>
            Agree(row, e, entity) && Agree(row, e, f) && OtherEvent(row, e) && NotBefore(row, e("time"), w)
  {
    var cs := SeenResolved(f, entity, w);
    FieldSelects(now, row, e, entity);
    FieldSelects(now, row, e, f);
    assert ClauseValue(now, row, e, cs[2]) == True <==> OtherEvent(row, e);
    assert ClauseValue(now, row, e, cs[3]) == True <==> NotBefore(row, e("time"), w);
    FourClauses(now, row, e, cs);
  }

  lemma FourClauses(now: real, row: Row, e: Row, cs: seq<Clause>)
    requires |cs| == 4
    ensures Selected(now, row, e, cs) <==>
            && ClauseValue(now, row, e, cs[0]) == True && ClauseValue(now, row, e, cs[1]) == True
            && ClauseValue(now, row, e, cs[2]) == True && ClauseValue(now, row, e, cs[3]) == True
  {
  }

  lemma SeenIsSelected(t: Table, e: Row, f: string, entity: string, w: Duration)
    requires f != PROVIDER_FIELD && entity != PROVIDER_FIELD
    ensures SomeSelected(t, e, SeenResolved(f, entity, w)) <==> SeenBefore(t, e, f, entity, w)
  {
    forall i | 0 <= i < |t.rows|
      ensures Selected(t.now, t.rows[i], e, SeenResolved(f, entity, w)) <==>
              Agree(t.rows[i], e, entity) && Agree(t.rows[i], e, f) && OtherEvent(t.rows[i], e) && NotBefore(t.rows[i], e("time"), w)
    {
      SeenSelects(t.now, t.rows[i], e, f, entity, w);
    }
  }

  function CountConjuncts(w: Duration): seq<Clause>
  {
    [BothSides(Eq, "actor_user_name"), AfterNow(Gte, Ref(true, TIME), Length(w))]
  }

  function CountResolved(w: Duration): seq<Clause>
  {
    [BothSides(Eq, "actor_user_name"), AfterNow(Gte, Ref(true, "time"), Length(w))]
  }

  lemma CountClauseReads(w: Duration, i: nat)
    requires i < 2
    ensures ClauseReader("c2")(CountClauses(IntervalText(w))[i]) == Some(CountConjuncts(w)[i])
  {
    if i == 0 {
      AgainstReads("c2", "actor_user_name", "=", Eq);
    } else {
      SinceNowReads("c2", w);
    }
  }

  lemma CountClausesRead(w: Duration)
    ensures ReadClauses("c2", CountClauses(IntervalText(w))) == Some(CountConjuncts(w))
  {
    var clauses, conjuncts := CountClauses(IntervalText(w)), CountConjuncts(w);
    forall i: nat | i < 2 ensures ClauseReader("c2")(clauses[i]) == Some(conjuncts[i]) {
      CountClauseReads(w, i);
    }
    CollectsAll(ClauseReader("c2"), clauses, conjuncts);
  }

  lemma CountResolves(names: Names, w: Duration, actor: string)
    requires actor == "actor_user_name" && names(actor) == Some(actor) && names(TIME) == Some("time")
    ensures Collect(Resolver(names), CountConjuncts(w)) == Some(CountResolved(w))
  {
    SidesResolve(names, Eq, actor);
    SinceResolves(names, Length(w));
    CollectsAll(Resolver(names), CountConjuncts(w), CountResolved(w));
  }

  lemma CountResolvesAll(reserved: set<string>, w: Duration, actor: string)
    requires Dialect(reserved) && actor == "actor_user_name"
    ensures ResolveAll(reserved, CountConjuncts(w)) == Some(CountResolved(w))
  {
    OwnColumnReads(reserved, actor);
    TimeColumn(reserved);
    CountResolves(ColumnNames(reserved), w, actor);
  }

  lemma CountClausesApart(interval: string)
    ensures EachApart(CountClauses(interval))
  {
    assert Apart("=") && Apart("NOW()");
    AgainstApart("c2", "actor_user_name", "=");
    SinceApart("c2", "NOW()", interval);
  }

  lemma CountedColumn(open: string, col: string)
    ensures open <= open + (col + ")")
    ensures (open + (col + ")"))[|open|..|open| + |col|] == col
  {
    var w := open + (col + ")");
    assert w[..|open|] == open;
    assert w[|open|..] == col + ")";
  }

  lemma CountWords(f: string, w: Duration)
    requires GrammarName(f)
    ensures var text := Bracketed(Spaced(DistinctCount(FieldToColumn(f), IntervalText(w))));
            IsGroup(text) && Words(Inside(text)) == DistinctCount(FieldToColumn(f), IntervalText(w))
  {
    ColumnIsWord(f);
    IntervalReads(w);
    DistinctCountIsWords(FieldToColumn(f), IntervalText(w));
    SpacedWords(DistinctCount(FieldToColumn(f), IntervalText(w)));
  }

  lemma CountParts(col: string, interval: string)
    ensures var ws := DistinctCount(col, interval);
            && |ws| >= 2 + |FROM_C2| && ws[0] == "SELECT" && ws[1] == COUNT_OPEN + (col + ")")
            && ws[2..2 + |FROM_C2|] == FROM_C2 && ws[2 + |FROM_C2|..] == Interleave(CountClauses(interval), "AND")
  {
  }

  lemma CountReads(f: string, w: Duration)
    requires GrammarName(f)
    ensures ReadCount(Bracketed(Spaced(DistinctCount(FieldToColumn(f), IntervalText(w))))) ==
            Some(Counting(FieldToColumn(f), CountConjuncts(w)))
  {
    CountWords(f, w);
    CountTextReads(FieldToColumn(f), w, Bracketed(Spaced(DistinctCount(FieldToColumn(f), IntervalText(w)))));
  }

  lemma CountTextReads(col: string, w: Duration, text: string)
    requires IsGroup(text) && Words(Inside(text)) == DistinctCount(col, IntervalText(w))
    ensures ReadCount(text) == Some(Counting(col, CountConjuncts(w)))
  {
    CountParts(col, IntervalText(w));
    CountedColumn(COUNT_OPEN, col);
    CountClausesApart(IntervalText(w));
    ClausesSplit(CountClauses(IntervalText(w)));
    CountClausesRead(w);
  }

  lemma ActorIsOwn(f: string)
    requires f == "actor_user_name"
    ensures FieldToColumn(f) == f && ActorColumn(f) && Ordinary(f)
  {
  }

  lemma ActorColumnOf(f: string)
    requires f == "actor_user_name"
    ensures ColumnOf(f) == f && f != PROVIDER_FIELD
  {
    ActorIsOwn(f);
    OwnNameIsColumn(f);
  }

  lemma ActorSelects(now: real, row: Row, e: Row, actor: string)
    requires actor == "actor_user_name"
    ensures ClauseValue(now, row, e, BothSides(Eq, actor)) == True <==> Agree(row, e, actor)
  {
    ActorColumnOf(actor);
    FieldSelects(now, row, e, actor);
  }

  lemma TwoClauses(now: real, row: Row, e: Row, cs: seq<Clause>)
    requires |cs| == 2
    ensures Selected(now, row, e, cs) <==> ClauseValue(now, row, e, cs[0]) == True && ClauseValue(now, row, e, cs[1]) == True
  {
  }

  lemma CountSelects(t: Table, row: Row, e: Row, w: Duration, actor: string)
    requires actor == "actor_user_name"
    ensures Selected(t.now, row, e, CountResolved(w)) <==>
            Agree(row, e, actor) && NotBefore(row, Number(t.now), w)
  {
    ActorSelects(t.now, row, e, actor);
    TwoClauses(t.now, row, e, CountResolved(w));
  }

  lemma CountedAreRecent(reserved: set<string>, t: Table, e: Row, f: string, w: Duration)
    requires Dialect(reserved) && SqlName(reserved, f)
    ensures CountedValues(reserved, t, e, FieldToColumn(f), CountResolved(w)) == RecentValues(t, e, f, w)
  {
    forall i | 0 <= i < |t.rows|
      ensures Selected(t.now, t.rows[i], e, CountResolved(w)) <==>
              Agree(t.rows[i], e, "actor_user_name") && NotBefore(t.rows[i], Number(t.now), w)
      ensures Operand(reserved, t.rows[i], FieldToColumn(f)) == Some(FieldDatum(t.rows[i], f))
    {
      CountSelects(t, t.rows[i], e, w, "actor_user_name");
      OperandIff(reserved, t.rows[i], f);
    }
  }

  // ---- Atoms ----

  lemma OneOperand(reserved: set<string>, t: Table, e: Row, f: string)
    requires Dialect(reserved) && GrammarName(f)
    ensures Side(reserved, t, e, FieldToColumn(f)) == if SqlName(reserved, f) then Some(FieldDatum(e, f)) else None
  {
    ColumnIsWord(f);
    OperandIff(reserved, e, f);
  }

  lemma ComparisonWords(reserved: set<string>, t: Table, e: Row, l: string, op: CmpOp, r: string)
    ensures Evaluate(reserved, t, e, [l, OpText(op), r]) ==
            match (Side(reserved, t, e, l), Side(reserved, t, e, r))
            case (Some(x), Some(y)) => Some(Compare(op, x, y))
            case _ => None
  {
    OpIsWord(op);
  }

  lemma ValueSide(reserved: set<string>, t: Table, e: Row, v: Value)
    requires Dialect(reserved) && GrammarValue(v)
    ensures Side(reserved, t, e, ValueText(v)) == if ValueOk(reserved, v) then Some(ValueDatum(e, v)) else None
  {
    ValueIsWord(v);
    ValueOperand(reserved, e, v);
  }

  lemma CmpMeans(reserved: set<string>, t: Table, e: Row, a: Atom)
    requires Dialect(reserved) && GrammarAtom(a) && a.Cmp?
    ensures Evaluate(reserved, t, e, AtomWords(a)) == if AtomOk(reserved, a) then Some(AtomValue(t, e, a)) else None
  {
    OneOperand(reserved, t, e, a.field);
    ValueSide(reserved, t, e, a.value);
    ComparisonWords(reserved, t, e, FieldToColumn(a.field), a.op, ValueText(a.value));
  }

  lemma ListMeans(reserved: set<string>, e: Row, f: string, vs: seq<Value>)
    requires Dialect(reserved) && GrammarName(f) && GrammarRhs(List(vs))
    ensures EvaluateIn(reserved, e, FieldToColumn(f), Bracketed(ListText(vs))) ==
            if RhsOk(reserved, f, List(vs)) then Some(Member(FieldDatum(e, f), ValueData(e, vs))) else None
  {
    OperandIff(reserved, e, f);
    ListReads(reserved, e, vs);
  }

  lemma InWords(reserved: set<string>, t: Table, e: Row, col: string, list: string)
    ensures Evaluate(reserved, t, e, [col, "IN", list]) == EvaluateIn(reserved, e, col, list)
    ensures Evaluate(reserved, t, e, [col, "NOT", "IN", list]) == Negated(EvaluateIn(reserved, e, col, list))
  {
  }

  lemma ExistsWords(reserved: set<string>, t: Table, e: Row, g: string)
    ensures Evaluate(reserved, t, e, ["EXISTS", g]) == EvaluateExists(reserved, t, e, g)
    ensures Evaluate(reserved, t, e, ["NOT", "EXISTS", g]) == Negated(EvaluateExists(reserved, t, e, g))
  {
  }

  lemma BaselineMeans(reserved: set<string>, t: Table, e: Row, f: string, entity: string, w: Duration)
    requires Dialect(reserved) && GrammarName(f) && GrammarName(entity)
    ensures EvaluateExists(reserved, t, e,
                           Bracketed(Spaced(Heliql.SeenBefore(FieldToColumn(f), FieldToColumn(entity), IntervalText(w))))) ==
            if RhsOk(reserved, f, Baseline(entity, w)) then Some(Holds(SeenBefore(t, e, f, entity, w))) else None
  {
    ExistsReads(f, entity, w);
    SeenResolvesIff(reserved, f, entity, w);
    if RhsOk(reserved, f, Baseline(entity, w)) {
      SeenIsSelected(t, e, f, entity, w);
    }
  }

  lemma CountValueMeans(reserved: set<string>, t: Table, e: Row, f: string, w: Duration, value: Option<Datum>)
    requires Dialect(reserved) && (value.Some? <==> SqlName(reserved, f))
    ensures CountValue(reserved, t, e, FieldToColumn(f), value, Some(CountResolved(w))) ==
            if SqlName(reserved, f) then Some(Number(|RecentValues(t, e, f, w)| as real)) else None
  {
    if SqlName(reserved, f) {
      CountedAreRecent(reserved, t, e, f, w);
    }
  }

  lemma CountMeans(reserved: set<string>, t: Table, e: Row, f: string, w: Duration)
    requires Dialect(reserved) && GrammarName(f)
    ensures EvaluateCount(reserved, t, e, Counting(FieldToColumn(f), CountConjuncts(w))) ==
            if SqlName(reserved, f) then Some(Number(|RecentValues(t, e, f, w)| as real)) else None
  {
    CountResolvesAll(reserved, w, "actor_user_name");
    OperandIff(reserved, e, f);
    CountValueMeans(reserved, t, e, f, w, Operand(reserved, e, FieldToColumn(f)));
  }

  lemma CountSide(reserved: set<string>, t: Table, e: Row, f: string, w: Duration)
    requires Dialect(reserved) && GrammarName(f)
    ensures Side(reserved, t, e, Bracketed(Spaced(DistinctCount(FieldToColumn(f), IntervalText(w))))) ==
            if SqlName(reserved, f) then Some(Number(|RecentValues(t, e, f, w)| as real)) else None
  {
    CountWords(f, w);
    CountReads(f, w);
    CountMeans(reserved, t, e, f, w);
  }

  lemma UniqueMeans(reserved: set<string>, t: Table, e: Row, a: Atom)
    requires Dialect(reserved) && GrammarAtom(a) && a.Unique?
    ensures Evaluate(reserved, t, e, AtomWords(a)) == if AtomOk(reserved, a) then Some(AtomValue(t, e, a)) else None
  {
    CountSide(reserved, t, e, a.field, a.window);
    ValueSide(reserved, t, e, Int(a.threshold));
    ComparisonWords(reserved, t, e, AtomWords(a)[0], a.op, Decimal(a.threshold));
  }

  lemma InMeans(reserved: set<string>, t: Table, e: Row, f: string, rhs: InRhs)
    requires Dialect(reserved) && GrammarName(f) && GrammarRhs(rhs)
    ensures Evaluate(reserved, t, e, AtomWords(In(f, rhs))) ==
            if RhsOk(reserved, f, rhs) then Some(AtomValue(t, e, In(f, rhs))) else None
  {
    match rhs
    case List(vs) =>
      ListMeans(reserved, e, f, vs);
      InWords(reserved, t, e, FieldToColumn(f), Bracketed(ListText(vs)));
    case Baseline(entity, w) =>
      BaselineMeans(reserved, t, e, f, entity, w);
      ExistsWords(reserved, t, e, AtomWords(In(f, rhs))[1]);
  }

  ghost predicate Means(reserved: set<string>, t: Table, e: Row, a: Atom)
  {
    Evaluate(reserved, t, e, AtomWords(a)) == if AtomOk(reserved, a) then Some(AtomValue(t, e, a)) else None
  }

  lemma NotInMeans(reserved: set<string>, t: Table, e: Row, f: string, rhs: InRhs)
    requires Means(reserved, t, e, In(f, rhs))
    ensures Means(reserved, t, e, NotIn(f, rhs))
  {
    NotInNegates(reserved, t, e, f, rhs);
    NotInIsNot(t, e, f, rhs);
  }

  lemma NotInIsNot(t: Table, e: Row, f: string, rhs: InRhs)
    ensures AtomValue(t, e, NotIn(f, rhs)) == Not(AtomValue(t, e, In(f, rhs)))
  {
  }

  lemma NotInNegates(reserved: set<string>, t: Table, e: Row, f: string, rhs: InRhs)
    ensures Evaluate(reserved, t, e, AtomWords(NotIn(f, rhs))) == Negated(Evaluate(reserved, t, e, AtomWords(In(f, rhs))))
  {
    match rhs
    case List(vs) => InWords(reserved, t, e, FieldToColumn(f), Bracketed(ListText(vs)));
    case Baseline(_, _) => ExistsWords(reserved, t, e, AtomWords(In(f, rhs))[1]);
  }

  /**
   An atom of the language compiles to an SQL predicate exactly when its names are columns (or, in
   comparisons and lists, operands) and its list is not empty; the predicate then has the atom's value
   on every event and every table.
   */
  lemma AtomMeansItself(reserved: set<string>, t: Table, e: Row, a: Atom)
    requires Dialect(reserved) && GrammarAtom(a)
    ensures Evaluate(reserved, t, e, Words(AtomText(a))) == if AtomOk(reserved, a) then Some(AtomValue(t, e, a)) else None
  {
    AtomReadsBack(a);
    match a
    case Cmp(_, _, _) => CmpMeans(reserved, t, e, a);
    case Unique(_, _, _, _) => UniqueMeans(reserved, t, e, a);
    case In(f, rhs) => InMeans(reserved, t, e, f, rhs);
    case NotIn(f, rhs) =>
      InMeans(reserved, t, e, f, rhs);
      NotInMeans(reserved, t, e, f, rhs);
  }

  /**
   IN and NOT IN over a baseline select complementary events, and IN those whose value was seen before
   for the same entity, exactly when neither field stands for a literal or a reserved or hyphenated name.
   */
  lemma BaselinesAreComplementary(reserved: set<string>, t: Table, e: Row, f: string, entity: string, w: Duration)
    requires Dialect(reserved) && GrammarName(f) && GrammarName(entity)
    ensures var seen := Evaluate(reserved, t, e, Words(AtomText(In(f, Baseline(entity, w)))));
            var unseen := Evaluate(reserved, t, e, Words(AtomText(NotIn(f, Baseline(entity, w)))));
            if IsColumn(reserved, f) && IsColumn(reserved, entity) then
              && (seen == Some(True) <==> SeenBefore(t, e, f, entity, w))
              && (unseen == Some(True) <==> !SeenBefore(t, e, f, entity, w))
            else seen == None && unseen == None
  {
    AtomMeansItself(reserved, t, e, In(f, Baseline(entity, w)));
    AtomMeansItself(reserved, t, e, NotIn(f, Baseline(entity, w)));
  }

  /** A baseline of `event.cloud_provider` compares `prior.'aws'` with `e.'aws'`, which is not SQL. */
  lemma ProviderBaselineIsNotSql(reserved: set<string>, t: Table, e: Row, entity: string, w: Duration)
    requires Dialect(reserved) && GrammarName(entity)
    ensures GrammarName(PROVIDER_FIELD)
    ensures Evaluate(reserved, t, e, Words(AtomText(In(PROVIDER_FIELD, Baseline(entity, w))))) == None
  {
    SpecialNames(PROVIDER_FIELD);
    BaselinesAreComplementary(reserved, t, e, PROVIDER_FIELD, entity, w);
  }

  // ---- Conditions ----

  function Atoms(c: Condition): seq<Atom>
  {
    match c case Single(a) => [a] case And(atoms) => atoms case Or(atoms) => atoms
  }

  /** At least one atom, each compiling to an SQL predicate. */
  predicate ConditionOk(reserved: set<string>, c: Condition)
  {
    Atoms(c) != [] && forall i | 0 <= i < |Atoms(c)| :: GrammarAtom(Atoms(c)[i]) && AtomOk(reserved, Atoms(c)[i])
  }

  function AtomValues(t: Table, e: Row, atoms: seq<Atom>): seq<Truth>
  {
    seq(|atoms|, i requires 0 <= i < |atoms| => AtomValue(t, e, atoms[i]))
  }

  function ConditionValue(t: Table, e: Row, c: Condition): Truth
  {
    match c
    case Single(a) => AtomValue(t, e, a)
    case And(atoms) => AllOf(AtomValues(t, e, atoms))
    case Or(atoms) => AnyOf(AtomValues(t, e, atoms))
  }

  function ConditionValues(t: Table, e: Row, cs: seq<Condition>): (ts: seq<Truth>)
    ensures |ts| == |cs| && forall i :: 0 <= i < |cs| ==> ts[i] == ConditionValue(t, e, cs[i])
  {
    if cs == [] then [] else [ConditionValue(t, e, cs[0])] + ConditionValues(t, e, cs[1..])
  }

  /** The value of elementary predicates, for the reader; text that is none of them is unknown. */
  function Meaning(reserved: set<string>, t: Table, e: Row): seq<string> -> Truth
  {
    (ws: seq<string>) => match Evaluate(reserved, t, e, ws) case Some(v) => v case None => Unknown
  }

  lemma KeywordsAreReserved(reserved: set<string>, w: string)
    requires Dialect(reserved) && AsciiLower(w) !in reserved
    ensures !Spells(w, "and") && !Spells(w, "or")
  {
  }

  lemma ValueIsNoKeyword(reserved: set<string>, v: Value)
    requires Dialect(reserved) && GrammarValue(v) && ValueOk(reserved, v)
    ensures NoneSpells([ValueText(v)])
  {
    match v
    case Str(s) => NoKeyword(Quote(s));
    case Int(i) =>
      DecimalReadsBack(i);
      NumberIsWord(Decimal(i));
      NoKeyword(Decimal(i));
    case Float(lexeme) =>
      NumberIsWord(lexeme);
      NoKeyword(lexeme);
    case Field(f) => ColumnIsNoKeyword(reserved, f);
  }

  lemma BracketedIsNoKeyword(text: string)
    ensures NoneSpells([Bracketed(text)])
  {
    NoKeyword(Bracketed(text));
  }

  ghost predicate NoneSpells(ws: seq<string>)
  {
    Lacks(ws, "and") && Lacks(ws, "or")
  }

  lemma WordIsNoKeyword(w: string)
    requires Apart(w)
    ensures NoneSpells([w])
  {
    NoKeyword(w);
  }

  lemma LacksCons(w: string, ws: seq<string>)
    requires NoneSpells([w]) && NoneSpells(ws)
    ensures NoneSpells([w] + ws)
  {
  }

  lemma OpIsNoKeyword(op: CmpOp)
    ensures NoneSpells([OpText(op)])
  {
    OpIsWord(op);
    NoKeyword(OpText(op));
  }

  lemma ThreeLack(a: string, b: string, c: string)
    requires NoneSpells([a]) && NoneSpells([b]) && NoneSpells([c])
    ensures NoneSpells([b, c]) && NoneSpells([a, b, c])
  {
    LacksCons(b, [c]);
    assert [b] + [c] == [b, c];
    LacksCons(a, [b, c]);
    assert [a] + [b, c] == [a, b, c];
  }

  lemma ColumnIsNoKeyword(reserved: set<string>, f: string)
    requires Dialect(reserved) && SqlName(reserved, f)
    ensures NoneSpells([FieldToColumn(f)])
  {
    CompiledIsNotReserved(reserved, f);
    KeywordsAreReserved(reserved, FieldToColumn(f));
  }

  lemma ComparisonLacks(reserved: set<string>, a: Atom)
    requires Dialect(reserved) && GrammarAtom(a) && AtomOk(reserved, a) && (a.Cmp? || a.Unique?)
    ensures NoneSpells(AtomWords(a))
  {
    var ws := AtomWords(a);
    OpIsNoKeyword(a.op);
    match a
    case Cmp(f, op, v) =>
      ColumnIsNoKeyword(reserved, f);
      ValueIsNoKeyword(reserved, v);
      ThreeLack(ws[0], ws[1], ws[2]);
    case Unique(f, w, op, n) =>
      BracketedIsNoKeyword(Spaced(DistinctCount(FieldToColumn(f), IntervalText(w))));
      ValueIsNoKeyword(reserved, Int(n));
      ThreeLack(ws[0], ws[1], ws[2]);
  }

  lemma ListLacks(col: string, list: string)
    requires NoneSpells([col]) && NoneSpells([list])
    ensures NoneSpells([col, "IN", list]) && NoneSpells([col, "NOT", "IN", list])
  {
    WordIsNoKeyword("IN");
    WordIsNoKeyword("NOT");
    ThreeLack(col, "IN", list);
    ThreeLack("NOT", "IN", list);
    LacksCons(col, ["NOT", "IN", list]);
    assert [col] + ["NOT", "IN", list] == [col, "NOT", "IN", list];
  }

  lemma ExistsLacks(g: string)
    requires NoneSpells([g])
    ensures NoneSpells(["EXISTS", g]) && NoneSpells(["NOT", "EXISTS", g])
  {
    WordIsNoKeyword("EXISTS");
    WordIsNoKeyword("NOT");
    ThreeLack("NOT", "EXISTS", g);
  }

  lemma AtomLacksKeywords(reserved: set<string>, a: Atom)
    requires Dialect(reserved) && GrammarAtom(a) && AtomOk(reserved, a)
    ensures NoneSpells(AtomWords(a))
  {
    match a
    case Cmp(_, _, _) => ComparisonLacks(reserved, a);
    case Unique(_, _, _, _) => ComparisonLacks(reserved, a);
    case In(f, List(vs)) =>
      ColumnIsNoKeyword(reserved, f);
      BracketedIsNoKeyword(ListText(vs));
      ListLacks(FieldToColumn(f), Bracketed(ListText(vs)));
    case NotIn(f, List(vs)) =>
      ColumnIsNoKeyword(reserved, f);
      BracketedIsNoKeyword(ListText(vs));
      ListLacks(FieldToColumn(f), Bracketed(ListText(vs)));
    case In(f, Baseline(entity, w)) =>
      var inner := Spaced(Heliql.SeenBefore(FieldToColumn(f), FieldToColumn(entity), IntervalText(w)));
      BracketedIsNoKeyword(inner);
      ExistsLacks(Bracketed(inner));
    case NotIn(f, Baseline(entity, w)) =>
      var inner := Spaced(Heliql.SeenBefore(FieldToColumn(f), FieldToColumn(entity), IntervalText(w)));
      BracketedIsNoKeyword(inner);
      ExistsLacks(Bracketed(inner));
  }

  lemma AtomIsClean(reserved: set<string>, a: Atom)
    requires Dialect(reserved) && GrammarAtom(a) && AtomOk(reserved, a)
    ensures Clean(AtomText(a)) && |Words(AtomText(a))| >= 2
  {
    AtomReadsBack(a);
    AtomIsWords(a);
    AtomLacksKeywords(reserved, a);
  }

  lemma AtomReads(reserved: set<string>, t: Table, e: Row, a: Atom)
    requires Dialect(reserved) && GrammarAtom(a) && AtomOk(reserved, a)
    ensures Clean(AtomText(a))
    ensures ReadUnit(Meaning(reserved, t, e), Words(AtomText(a))) == AtomValue(t, e, a)
  {
    AtomIsClean(reserved, a);
    AtomMeansItself(reserved, t, e, a);
  }

  lemma AtomTextsAreClean(reserved: set<string>, t: Table, e: Row, atoms: seq<Atom>)
    requires Dialect(reserved) && forall i :: 0 <= i < |atoms| ==> GrammarAtom(atoms[i]) && AtomOk(reserved, atoms[i])
    ensures AllClean(AtomTexts(atoms))
    ensures UnitValues(Meaning(reserved, t, e), AtomTexts(atoms)) == AtomValues(t, e, atoms)
  {
    forall i | 0 <= i < |atoms|
      ensures Clean(AtomText(atoms[i]))
      ensures ReadUnit(Meaning(reserved, t, e), Words(AtomText(atoms[i]))) == AtomValue(t, e, atoms[i])
    {
      AtomReads(reserved, t, e, atoms[i]);
    }
  }

  lemma GroupReads(sem: seq<string> -> Truth, inner: string)
    requires Balanced(inner)
    ensures Clean(Bracketed(inner))
    ensures ReadUnit(sem, Words(Bracketed(inner))) == ReadOr(sem, Words(inner))
  {
    GroupIsSolid(inner);
    BracketedIsNoKeyword(inner);
    var ws := [Bracketed(inner)];
    CleanWords(ws);
    assert Spaced(ws) == Bracketed(inner);
  }

  lemma ConditionReads(reserved: set<string>, t: Table, e: Row, c: Condition)
    requires Dialect(reserved) && ConditionOk(reserved, c)
    ensures Clean(ConditionText(c))
    ensures ReadUnit(Meaning(reserved, t, e), Words(ConditionText(c))) == ConditionValue(t, e, c)
  {
    var sem := Meaning(reserved, t, e);
    match c
    case Single(a) =>
      assert Atoms(c)[0] == a;
      AtomReads(reserved, t, e, a);
    case And(atoms) =>
      AtomTextsAreClean(reserved, t, e, atoms);
      JoinedConjunction(sem, AtomTexts(atoms), " ");
      GroupReads(sem, Join(AtomTexts(atoms), " " + ("AND" + " ")));
    case Or(atoms) =>
      AtomTextsAreClean(reserved, t, e, atoms);
      JoinedDisjunction(sem, AtomTexts(atoms), " ");
      GroupReads(sem, Join(AtomTexts(atoms), " " + ("OR" + " ")));
  }

  // ---- The WHERE clause ----

  lemma {:induction false} AllOfConcat(a: seq<Truth>, b: seq<Truth>)
    ensures AllOf(a + b) == Both(AllOf(a), AllOf(b))
  {
    if a == [] {
      assert a + b == b;
    } else {
      assert (a + b)[1..] == a[1..] + b;
      AllOfConcat(a[1..], b);
    }
  }

  lemma {:induction false} ValuesConcat(t: Table, e: Row, a: seq<Condition>, b: seq<Condition>)
    ensures ConditionValues(t, e, a + b) == ConditionValues(t, e, a) + ConditionValues(t, e, b)
  {
    if a == [] {
      assert a + b == b;
    } else {
      assert (a + b)[1..] == a[1..] + b;
      ValuesConcat(t, e, a[1..], b);
    }
  }

  lemma ConditionTextsRead(reserved: set<string>, t: Table, e: Row, cs: seq<Condition>)
    requires Dialect(reserved) && forall i :: 0 <= i < |cs| ==> ConditionOk(reserved, cs[i])
    ensures AllClean(ConditionTexts(cs))
    ensures UnitValues(Meaning(reserved, t, e), ConditionTexts(cs)) == ConditionValues(t, e, cs)
  {
    var texts, values := ConditionTexts(cs), ConditionValues(t, e, cs);
    forall i | 0 <= i < |cs|
      ensures Clean(texts[i]) && ReadUnit(Meaning(reserved, t, e), Words(texts[i])) == values[i]
    {
      ConditionReads(reserved, t, e, cs[i]);
    }
  }

  lemma MarginIsSpace()
    ensures MARGIN != "" && forall i :: 0 <= i < |MARGIN| ==> IsSpace(MARGIN[i])
  {
  }

  lemma JoinedReads(sem: seq<string> -> Truth, texts: seq<string>, values: seq<Truth>)
    requires AllClean(texts) && texts != [] && UnitValues(sem, texts) == values
    ensures ReadOr(sem, Words(Join(texts, CLAUSE_SEPARATOR))) == AllOf(values)
  {
    MarginIsSpace();
    JoinedConjunction(sem, texts, MARGIN);
  }

  lemma WhereReads(reserved: set<string>, t: Table, e: Row, cs: seq<Condition>)
    requires Dialect(reserved) && cs != [] && forall i :: 0 <= i < |cs| ==> ConditionOk(reserved, cs[i])
    ensures ReadOr(Meaning(reserved, t, e), Words(WhereText(cs))) == AllOf(ConditionValues(t, e, cs))
  {
    ConditionTextsRead(reserved, t, e, cs);
    JoinedReads(Meaning(reserved, t, e), ConditionTexts(cs), ConditionValues(t, e, cs));
  }

  lemma EmptyWhereReads(reserved: set<string>, t: Table, e: Row)
    ensures ReadOr(Meaning(reserved, t, e), Words(WhereText([]))) == True
  {
    PlainWord("TRUE");
    NoKeyword("TRUE");
    LoneWord("TRUE");
    ReadOne(Meaning(reserved, t, e), ["TRUE"]);
  }

  /**
   The compiled WHERE text of a rule, read as SQL with AND tighter than OR and evaluated on an event and
   the table, has the value of all the rule's pre-filters and all its detection conditions together.
   */
  lemma RuleMeansItself(reserved: set<string>, t: Table, e: Row, whereConditions: seq<Condition>, conditions: seq<Condition>)
    requires Dialect(reserved)
    requires forall i :: 0 <= i < |whereConditions| ==> ConditionOk(reserved, whereConditions[i])
    requires forall i :: 0 <= i < |conditions| ==> ConditionOk(reserved, conditions[i])
    ensures ReadOr(Meaning(reserved, t, e), Words(WhereText(whereConditions + conditions))) ==
            Both(AllOf(ConditionValues(t, e, whereConditions)), AllOf(ConditionValues(t, e, conditions)))
  {
    ValuesConcat(t, e, whereConditions, conditions);
    AllOfConcat(ConditionValues(t, e, whereConditions), ConditionValues(t, e, conditions));
    if whereConditions + conditions == [] {
      EmptyWhereReads(reserved, t, e);
    } else {
      WhereReads(reserved, t, e, whereConditions + conditions);
    }
  }
}
