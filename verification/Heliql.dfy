/** HELIQL rules and their compilation to the WHERE text of a streaming view (ast.rs, compiler.rs). */
module Heliql {
  import opened Phrases

  datatype DurationUnit = Seconds | Minutes | Hours | Days

  datatype Duration = Duration(value: int, unit: DurationUnit)

  /** A float is given by the text Rust prints for it. */
  datatype Value = Str(text: string) | Int(i: int) | Float(lexeme: string) | Field(name: string)

  datatype CmpOp = Eq | Ne | Gt | Lt | Gte | Lte

  datatype InRhs = Baseline(entity: string, window: Duration) | List(values: seq<Value>)

  datatype Atom =
    | Cmp(field: string, op: CmpOp, value: Value)
    | In(field: string, rhs: InRhs)
    | NotIn(field: string, rhs: InRhs)
    | Unique(field: string, window: Duration, op: CmpOp, threshold: int)

  datatype Condition = And(atoms: seq<Atom>) | Or(atoms: seq<Atom>) | Single(atom: Atom)

  // ---- Text ----

  function Decimal(n: int): string
    decreases if n < 0 then 1 else 0, if n < 0 then -n else n
  {
    if n < 0 then "-" + Decimal(-n)
    else if n < 10 then ["0123456789"[n]]
    else Decimal(n / 10) + ["0123456789"[n % 10]]
  }

  function Underscored(s: string): string
  {
    if s == "" then "" else [if s[0] == '.' then '_' else s[0]] + Underscored(s[1..])
  }

  function Quote(s: string): string
  {
    ['\''] + s + ['\'']
  }

  function Delimit(s: string): string
  {
    ['"'] + s + ['"']
  }

  function Bracketed(s: string): string
  {
    "(" + s + ")"
  }

  const PROVIDER_FIELD := "event.cloud_provider"

  function FieldToColumn(f: string): string
  {
    if f == "event.cloud_region" || f == "cloud_region" then "cloud_region"
    else if f == "event.cloud_account" || f == "cloud_account_uid" then "cloud_account_uid"
    else if f == "event.severity" || f == "severity" then "severity"
    else if f == "event.auth_status" || f == "event.outcome" || f == "auth_status" then "auth_status"
    else if f == "event.api_operation" || f == "event.activity" || f == "api_operation" then "api_operation"
    else if f == "event.api_service" || f == "api_service" then "api_service"
    else if f == "event.class" || f == "class_uid" then "class_uid"
    else if f == "event.time" || f == "time" then Delimit("time")
    else if f == "identity.user" || f == "identity.user.name" || f == "actor_user_name" then "actor_user_name"
    else if f == "event.source.country" then "cloud_region"
    else if f == PROVIDER_FIELD then Quote("aws")
    else Underscored(f)
  }

  function UnitText(u: DurationUnit): string
  {
    match u case Seconds => "seconds" case Minutes => "minutes" case Hours => "hours" case Days => "days"
  }

  function IntervalText(d: Duration): string
  {
    Spaced([Decimal(d.value), UnitText(d.unit)])
  }

  function OpText(op: CmpOp): string
  {
    match op case Eq => "=" case Ne => "!=" case Gt => ">" case Lt => "<" case Gte => ">=" case Lte => "<="
  }

  function ValueText(v: Value): string
  {
    match v
    case Str(s) => Quote(s)
    case Int(i) => Decimal(i)
    case Float(lexeme) => lexeme
    case Field(f) => FieldToColumn(f)
  }

  function ListText(values: seq<Value>): string
  {
    Join(seq(|values|, i requires 0 <= i < |values| => ValueText(values[i])), ", ")
  }

  // ---- Predicates, word by word ----

  function Qualified(alias: string, col: string): string
  {
    alias + ("." + col)
  }

  /** A column of a subquery's row compared with the same column of the event. */
  function Against(alias: string, col: string, op: string): seq<string>
  {
    [Qualified(alias, col), op, Qualified("e", col)]
  }

  function Since(alias: string, clock: string, interval: string): seq<string>
  {
    [Qualified(alias, Delimit("time")), ">=", clock, "-", "INTERVAL", Quote(interval)]
  }

  const FROM_PRIOR := ["SELECT", "1", "FROM", "cloudtrail_events", "prior", "WHERE"]
  const FROM_C2 := ["FROM", "cloudtrail_events", "c2", "WHERE"]

  function SeenClauses(col: string, entity: string, interval: string): seq<seq<string>>
  {
    [Against("prior", entity, "="), Against("prior", col, "="), Against("prior", "event_id", "<>"),
     Since("prior", Qualified("e", Delimit("time")), interval)]
  }

  /** The subquery that asks whether the value was seen before for the same entity. */
  function SeenBefore(col: string, entity: string, interval: string): seq<string>
  {
    FROM_PRIOR + Interleave(SeenClauses(col, entity, interval), "AND")
  }

  function CountClauses(interval: string): seq<seq<string>>
  {
    [Against("c2", "actor_user_name", "="), Since("c2", "NOW()", interval)]
  }

  /** The subquery that counts the distinct values of a column for the event's actor. */
  function DistinctCount(col: string, interval: string): seq<string>
  {
    ["SELECT", "count(DISTINCT " + (col + ")")] + (FROM_C2 + Interleave(CountClauses(interval), "AND"))
  }

  function AtomWords(a: Atom): seq<string>
  {
    match a
    case Cmp(f, op, v) => [FieldToColumn(f), OpText(op), ValueText(v)]
    case In(f, List(vs)) => [FieldToColumn(f), "IN", Bracketed(ListText(vs))]
    case In(f, Baseline(entity, w)) =>
      ["EXISTS", Bracketed(Spaced(SeenBefore(FieldToColumn(f), FieldToColumn(entity), IntervalText(w))))]
    case NotIn(f, List(vs)) => [FieldToColumn(f), "NOT", "IN", Bracketed(ListText(vs))]
    case NotIn(f, Baseline(entity, w)) =>
      ["NOT", "EXISTS", Bracketed(Spaced(SeenBefore(FieldToColumn(f), FieldToColumn(entity), IntervalText(w))))]
    case Unique(f, w, op, n) =>
      [Bracketed(Spaced(DistinctCount(FieldToColumn(f), IntervalText(w)))), OpText(op), Decimal(n)]
  }

  /** The text of an atom: its words with one space between them. */
  function AtomText(a: Atom): string
  {
    Spaced(AtomWords(a))
  }

  function AtomTexts(atoms: seq<Atom>): seq<string>
  {
    seq(|atoms|, i requires 0 <= i < |atoms| => AtomText(atoms[i]))
  }

  function ConditionText(c: Condition): string
  {
    match c
    case Single(a) => AtomText(a)
    case And(atoms) => Bracketed(Join(AtomTexts(atoms), " " + ("AND" + " ")))
    case Or(atoms) => Bracketed(Join(AtomTexts(atoms), " " + ("OR" + " ")))
  }

  const MARGIN := "\n    "
  const CLAUSE_SEPARATOR := MARGIN + ("AND" + " ")

  function ConditionTexts(cs: seq<Condition>): seq<string>
  {
    seq(|cs|, i requires 0 <= i < |cs| => ConditionText(cs[i]))
  }

  lemma ConditionTextsAppend(cs: seq<Condition>, c: Condition)
    ensures ConditionTexts(cs + [c]) == ConditionTexts(cs) + [ConditionText(c)]
  {
  }

  /** The WHERE text of a rule. */
  function WhereText(cs: seq<Condition>): string
  {
    if cs == [] then "TRUE" else Join(ConditionTexts(cs), CLAUSE_SEPARATOR)
  }

  method PushAll(predicates: seq<string>, ghost before: seq<Condition>, cs: seq<Condition>) returns (r: seq<string>)
    requires predicates == ConditionTexts(before)
    ensures r == ConditionTexts(before + cs)
  {
    r := predicates;
    assert before + cs[..0] == before;
    for i := 0 to |cs|
      invariant r == ConditionTexts(before + cs[..i])
    {
      ConditionTextsAppend(before + cs[..i], cs[i]);
      assert before + cs[..i] + [cs[i]] == before + cs[..i + 1];
      r := r + [ConditionText(cs[i])];
    }
    assert cs[..|cs|] == cs;
  }

  /** The WHERE part of `compile_to_risingwave`: pre-filters first, then the detection logic. */
  method CompileWhere(whereConditions: seq<Condition>, conditions: seq<Condition>) returns (text: string)
    ensures text == WhereText(whereConditions + conditions)
  {
    var predicates := PushAll([], [], whereConditions);
    assert [] + whereConditions == whereConditions;
    predicates := PushAll(predicates, whereConditions, conditions);
    assert |predicates| == |whereConditions + conditions|;
    text := if predicates == [] then "TRUE" else Join(predicates, CLAUSE_SEPARATOR);
  }
}
