/**
 The value of elementary SQL predicates, computed from their words alone: comparisons, value lists,
 and the two subqueries over the table of events. `None` stands for text that is no such predicate.
 Keywords that may not be used as column names are a parameter of the dialect.
 */
module SqlEvaluation {
  import opened Heliql
  import opened SqlReading
  import opened Text
  import opened Wrappers

  datatype Datum = Null | Number(n: real) | Varchar(s: string)

  /** A row by column name, unquoted names in lower case. */
  type Row = string -> Datum

  /** The rows of `cloudtrail_events` and the current time in seconds. */
  datatype Table = Table(rows: seq<Row>, now: real)

  // ---- Comparing ----

  function Holds(b: bool): Truth
  {
    if b then True else False
  }

  function Ordered(op: CmpOp, same: bool, below: bool): Truth
  {
    match op
    case Eq => Holds(same)
    case Ne => Holds(!same)
    case Lt => Holds(below)
    case Gte => Holds(!below)
    case Gt => Holds(!below && !same)
    case Lte => Holds(below || same)
  }

  /** Unknown on a missing value and between a text and a number. */
  function Compare(op: CmpOp, a: Datum, b: Datum): Truth
  {
    match (a, b)
    case (Number(x), Number(y)) => Ordered(op, x == y, x < y)
    case (Varchar(s), Varchar(t)) => Ordered(op, s == t, Below(s, t))
    case _ => Unknown
  }

  function Member(x: Datum, values: seq<Datum>): Truth
  {
    AnyOf(seq(|values|, i requires 0 <= i < |values| => Compare(Eq, x, values[i])))
  }

  function Minus(d: Datum, seconds: int): Datum
  {
    match d case Number(x) => Number(x - seconds as real) case _ => Null
  }

  // ---- Numbers ----

  predicate IsDigit(ch: char)
  {
    '0' <= ch <= '9'
  }

  predicate AllDigits(s: string)
  {
    forall i | 0 <= i < |s| :: IsDigit(s[i])
  }

  function ParseNat(s: string): int
  {
    if s == "" then 0 else ParseNat(s[..|s| - 1]) * 10 + (s[|s| - 1] as int - '0' as int)
  }

  function Pow10(k: nat): (p: int)
    ensures p > 0
  {
    if k == 0 then 1 else 10 * Pow10(k - 1)
  }

  /** Index of the decimal point, or the length. */
  function Point(s: string): (p: nat)
    ensures p <= |s|
  {
    if s == "" || s[0] == '.' then 0 else 1 + Point(s[1..])
  }

  function Unsigned(w: string): string
  {
    if w != "" && w[0] == '-' then w[1..] else w
  }

  predicate IsInteger(w: string)
  {
    Unsigned(w) != "" && AllDigits(Unsigned(w))
  }

  /** Digits, and perhaps a point and more digits, after an optional sign. */
  predicate IsNumber(w: string)
  {
    var u := Unsigned(w);
    var p := Point(u);
    p > 0 && AllDigits(u[..p]) && (p < |u| ==> p + 1 < |u| && AllDigits(u[p + 1..]))
  }

  function ParseUnsigned(u: string): real
  {
    var p := Point(u);
    if p == |u| then ParseNat(u) as real
    else ParseNat(u[..p]) as real + ParseNat(u[p + 1..]) as real / Pow10(|u| - p - 1) as real
  }

  function ParseNumber(w: string): real
  {
    if w != "" && w[0] == '-' then -ParseUnsigned(w[1..]) else ParseUnsigned(w)
  }

  function ParseInt(w: string): int
  {
    if w != "" && w[0] == '-' then -ParseNat(w[1..]) else ParseNat(w)
  }

  // ---- Names and literals ----

  predicate Letter(ch: char)
  {
    'a' <= ch <= 'z' || 'A' <= ch <= 'Z'
  }

  predicate NameChar(ch: char)
  {
    Letter(ch) || IsDigit(ch) || ch == '_'
  }

  /** An unquoted identifier: letters, digits and underscores, no digit first, and not reserved. */
  predicate IsIdentifier(reserved: set<string>, w: string)
  {
    && w != "" && !IsDigit(w[0])
    && (forall i | 0 <= i < |w| :: NameChar(w[i]))
    && AsciiLower(w) !in reserved
  }

  predicate IsDelimited(w: string)
  {
    |w| > 2 && w[0] == '"' && w[|w| - 1] == '"' && '"' !in w[1..|w| - 1]
  }

  /** The column that a word names. */
  function Column(reserved: set<string>, w: string): Option<string>
  {
    if IsIdentifier(reserved, w) then Some(AsciiLower(w))
    else if IsDelimited(w) then Some(w[1..|w| - 1])
    else None
  }

  /** A standard SQL string literal after its opening quote: its value and the text that follows. */
  function ReadQuoted(s: string): Option<(string, string)>
  {
    if s == "" then None
    else if s[0] != '\'' then
      match ReadQuoted(s[1..]) case Some((value, rest)) => Some(([s[0]] + value, rest)) case None => None
    else if |s| > 1 && s[1] == '\'' then
      match ReadQuoted(s[2..]) case Some((value, rest)) => Some((['\''] + value, rest)) case None => None
    else Some(("", s[1..]))
  }

  function ReadLiteral(w: string): Option<string>
  {
    if w == "" || w[0] != '\'' then None
    else match ReadQuoted(w[1..])
      case Some((s, rest)) => if rest == "" then Some(s) else None
      case None => None
  }

  /** The value of a word in a row. */
  function Operand(reserved: set<string>, row: Row, w: string): Option<Datum>
  {
    if ReadLiteral(w).Some? then Some(Varchar(ReadLiteral(w).value))
    else if IsNumber(w) then Some(Number(ParseNumber(w)))
    else match Column(reserved, w) case Some(c) => Some(row(c)) case None => None
  }

  // ---- Value lists ----

  function ReadItems(reserved: set<string>, row: Row, ws: seq<string>): Option<seq<Datum>>
  {
    if ws == [] then None
    else if |ws| == 1 then
      match Operand(reserved, row, ws[0]) case Some(d) => Some([d]) case None => None
    else if ws[0] == "" || ws[0][|ws[0]| - 1] != ',' then None
    else match (Operand(reserved, row, ws[0][..|ws[0]| - 1]), ReadItems(reserved, row, ws[1..]))
      case (Some(d), Some(ds)) => Some([d] + ds)
      case _ => None
  }

  function Inside(w: string): string
    requires IsGroup(w)
  {
    w[1..|w| - 1]
  }

  function ReadValues(reserved: set<string>, row: Row, w: string): Option<seq<Datum>>
  {
    if IsGroup(w) then ReadItems(reserved, row, Words(Inside(w))) else None
  }

  // ---- Subqueries ----

  /** A column of the subquery's own row, or of the event, by the word that names it. */
  datatype Ref = Ref(own: bool, name: string)

  datatype Clause =
    | Compared(op: CmpOp, left: Ref, right: Ref)
    | AfterEvent(op: CmpOp, left: Ref, right: Ref, seconds: int)
    | AfterNow(op: CmpOp, left: Ref, seconds: int)

  function ReadOp(w: string): Option<CmpOp>
  {
    if w == "=" then Some(Eq)
    else if w == "!=" || w == "<>" then Some(Ne)
    else if w == ">" then Some(Gt)
    else if w == "<" then Some(Lt)
    else if w == ">=" then Some(Gte)
    else if w == "<=" then Some(Lte)
    else None
  }

  function ReadRef(alias: string, w: string): Option<Ref>
  {
    if alias + "." <= w then Some(Ref(true, w[|alias| + 1..]))
    else if "e." <= w then Some(Ref(false, w[2..]))
    else None
  }

  function UnitSeconds(w: string): Option<int>
  {
    if w == "seconds" then Some(1)
    else if w == "minutes" then Some(60)
    else if w == "hours" then Some(3600)
    else if w == "days" then Some(86400)
    else None
  }

  /** An interval literal in seconds. */
  function ReadInterval(w: string): Option<int>
  {
    match ReadLiteral(w)
    case None => None
    case Some(s) =>
      var ws := Words(s);
      if |ws| == 2 && IsInteger(ws[0]) && UnitSeconds(ws[1]).Some? then Some(ParseInt(ws[0]) * UnitSeconds(ws[1]).value)
      else None
  }

  function ReadClause(alias: string, ws: seq<string>): Option<Clause>
  {
    if |ws| == 3 then ReadCompared(ReadRef(alias, ws[0]), ReadOp(ws[1]), ReadRef(alias, ws[2]))
    else if |ws| == 6 && ws[3] == "-" && ws[4] == "INTERVAL" then
      ReadSince(ReadRef(alias, ws[0]), ReadOp(ws[1]), ws[2], ReadRef(alias, ws[2]), ReadInterval(ws[5]))
    else None
  }

  function ReadCompared(left: Option<Ref>, op: Option<CmpOp>, right: Option<Ref>): Option<Clause>
  {
    if left.Some? && op.Some? && right.Some? then Some(Compared(op.value, left.value, right.value)) else None
  }

  function ReadSince(left: Option<Ref>, op: Option<CmpOp>, clock: string, right: Option<Ref>, seconds: Option<int>): Option<Clause>
  {
    if left.None? || op.None? || seconds.None? then None
    else if clock == "NOW()" then Some(AfterNow(op.value, left.value, seconds.value))
    else if right.Some? then Some(AfterEvent(op.value, left.value, right.value, seconds.value))
    else None
  }

  /** The results for all the elements, if there are results for all. */
  function Collect<S, T>(f: S -> Option<T>, xs: seq<S>): Option<seq<T>>
  {
    if xs == [] then Some([])
    else match (f(xs[0]), Collect(f, xs[1..]))
      case (Some(y), Some(ys)) => Some([y] + ys)
      case _ => None
  }

  function ClauseReader(alias: string): seq<string> -> Option<Clause>
  {
    (ws: seq<string>) => ReadClause(alias, ws)
  }

  function ReadClauses(alias: string, parts: seq<seq<string>>): Option<seq<Clause>>
  {
    Collect(ClauseReader(alias), parts)
  }

  // ---- Names of a subquery ----

  type Names = string -> Option<string>

  function ColumnNames(reserved: set<string>): Names
  {
    (w: string) => Column(reserved, w)
  }

  function ResolveRef(names: Names, r: Ref): Option<Ref>
  {
    match names(r.name) case Some(c) => Some(Ref(r.own, c)) case None => None
  }

  /** The clause with every name replaced by its column. */
  function Resolve(names: Names, c: Clause): Option<Clause>
  {
    match (c, ResolveRef(names, c.left))
    case (_, None) => None
    case (AfterNow(op, _, seconds), Some(l)) => Some(AfterNow(op, l, seconds))
    case (Compared(op, _, right), Some(l)) =>
      (match ResolveRef(names, right) case Some(r) => Some(Compared(op, l, r)) case None => None)
    case (AfterEvent(op, _, right, seconds), Some(l)) =>
      (match ResolveRef(names, right) case Some(r) => Some(AfterEvent(op, l, r, seconds)) case None => None)
  }

  function Resolver(names: Names): Clause -> Option<Clause>
  {
    (c: Clause) => Resolve(names, c)
  }

  function ResolveAll(reserved: set<string>, clauses: seq<Clause>): Option<seq<Clause>>
  {
    Collect(Resolver(ColumnNames(reserved)), clauses)
  }

  function Get(own: Row, event: Row, r: Ref): Datum
  {
    if r.own then own(r.name) else event(r.name)
  }

  function ClauseValue(now: real, own: Row, event: Row, c: Clause): Truth
  {
    match c
    case Compared(op, l, r) => Compare(op, Get(own, event, l), Get(own, event, r))
    case AfterEvent(op, l, r, seconds) => Compare(op, Get(own, event, l), Minus(Get(own, event, r), seconds))
    case AfterNow(op, l, seconds) => Compare(op, Get(own, event, l), Number(now - seconds as real))
  }

  /** A WHERE clause selects the rows for which every conjunct is true. */
  predicate Selected(now: real, own: Row, event: Row, clauses: seq<Clause>)
  {
    forall i | 0 <= i < |clauses| :: ClauseValue(now, own, event, clauses[i]) == True
  }

  /** The conjuncts of `SELECT 1 FROM cloudtrail_events prior WHERE ...`. */
  function ReadExists(w: string): Option<seq<Clause>>
  {
    if !IsGroup(w) then None
    else
      var ws := Words(Inside(w));
      if FROM_PRIOR <= ws then ReadClauses("prior", SplitAt("and", ws[|FROM_PRIOR|..])) else None
  }

  datatype Counting = Counting(counted: string, clauses: seq<Clause>)

  const COUNT_OPEN := "count(DISTINCT "

  /** `SELECT count(DISTINCT x) FROM cloudtrail_events c2 WHERE ...`. */
  function ReadCount(w: string): Option<Counting>
  {
    if !IsGroup(w) then None
    else
      var ws := Words(Inside(w));
      if |ws| >= 2 + |FROM_C2| && ws[0] == "SELECT" && ws[2..2 + |FROM_C2|] == FROM_C2
         && COUNT_OPEN <= ws[1] && |ws[1]| > |COUNT_OPEN| && ws[1][|ws[1]| - 1] == ')'
      then
        match ReadClauses("c2", SplitAt("and", ws[2 + |FROM_C2|..]))
        case Some(clauses) => Some(Counting(ws[1][|COUNT_OPEN|..|ws[1]| - 1], clauses))
        case None => None
      else None
  }

  predicate SomeSelected(t: Table, event: Row, clauses: seq<Clause>)
  {
    exists i | 0 <= i < |t.rows| :: Selected(t.now, t.rows[i], event, clauses)
  }

  /** The values that the selected rows give the word; missing ones do not count. */
  function CountedValues(reserved: set<string>, t: Table, event: Row, counted: string, clauses: seq<Clause>): set<Datum>
  {
    set i | 0 <= i < |t.rows| && Selected(t.now, t.rows[i], event, clauses)
            && Operand(reserved, t.rows[i], counted).Some? && Operand(reserved, t.rows[i], counted).value != Null
          :: Operand(reserved, t.rows[i], counted).value
  }

  // ---- Predicates ----

  function CountValue(reserved: set<string>, t: Table, event: Row, counted: string, value: Option<Datum>,
                      clauses: Option<seq<Clause>>): Option<Datum>
  {
    if value.None? || clauses.None? then None
    else Some(Number(|CountedValues(reserved, t, event, counted, clauses.value)| as real))
  }

  function EvaluateCount(reserved: set<string>, t: Table, event: Row, c: Counting): Option<Datum>
  {
    CountValue(reserved, t, event, c.counted, Operand(reserved, event, c.counted), ResolveAll(reserved, c.clauses))
  }

  /** A word on one side of a comparison: an operand, or a count in parentheses. */
  function Side(reserved: set<string>, t: Table, event: Row, w: string): Option<Datum>
  {
    if !IsGroup(w) then Operand(reserved, event, w)
    else match ReadCount(w) case Some(c) => EvaluateCount(reserved, t, event, c) case None => None
  }

  function Negated(t: Option<Truth>): Option<Truth>
  {
    match t case Some(v) => Some(Not(v)) case None => None
  }

  function EvaluateExists(reserved: set<string>, t: Table, event: Row, w: string): Option<Truth>
  {
    match ReadExists(w)
    case None => None
    case Some(raw) =>
      match ResolveAll(reserved, raw)
      case Some(clauses) => Some(Holds(SomeSelected(t, event, clauses)))
      case None => None
  }

  function EvaluateIn(reserved: set<string>, event: Row, w: string, list: string): Option<Truth>
  {
    match (Operand(reserved, event, w), ReadValues(reserved, event, list))
    case (Some(x), Some(values)) => Some(Member(x, values))
    case _ => None
  }

  function EvaluateComparison(reserved: set<string>, t: Table, event: Row, l: string, op: string, r: string): Option<Truth>
  {
    match (Side(reserved, t, event, l), ReadOp(op), Side(reserved, t, event, r))
    case (Some(x), Some(o), Some(y)) => Some(Compare(o, x, y))
    case _ => None
  }

  function Evaluate(reserved: set<string>, t: Table, event: Row, ws: seq<string>): Option<Truth>
  {
    if ws == ["TRUE"] then Some(True)
    else if |ws| == 2 && ws[0] == "EXISTS" then EvaluateExists(reserved, t, event, ws[1])
    else if |ws| == 3 && ws[0] == "NOT" && ws[1] == "EXISTS" then Negated(EvaluateExists(reserved, t, event, ws[2]))
    else if |ws| == 3 && ws[1] == "IN" then EvaluateIn(reserved, event, ws[0], ws[2])
    else if |ws| == 4 && ws[1] == "NOT" && ws[2] == "IN" then Negated(EvaluateIn(reserved, event, ws[0], ws[3]))
    else if |ws| == 3 then EvaluateComparison(reserved, t, event, ws[0], ws[1], ws[2])
    else None
  }
}
