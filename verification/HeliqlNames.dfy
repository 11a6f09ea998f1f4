/** Which HELIQL field names the compiler turns into SQL columns, and which it does not. */
module HeliqlNames {
  import opened Heliql
  import opened SqlEvaluation
  import opened SqlReading
  import opened Text
  import opened Wrappers

  predicate FieldChar(ch: char)
  {
    NameChar(ch) || ch == '.' || ch == '-'
  }

  /** A field name as the grammar of the language has it. */
  predicate GrammarName(f: string)
  {
    f != "" && Letter(f[0]) && forall i | 0 <= i < |f| :: FieldChar(f[i])
  }

  const OWN_COLUMNS: set<string> := {
    "cloud_region", "cloud_account_uid", "severity", "auth_status", "api_operation", "api_service",
    "class_uid", "actor_user_name", "event_id"
  }

  /** The reserved words of the dialect: some are known, and none is a column of the events table. */
  ghost predicate Dialect(reserved: set<string>)
  {
    && {"and", "or", "not", "null"} <= reserved
    && (forall w :: w in reserved ==> w != "" && Letter(w[0]))
    && (forall w :: w in OWN_COLUMNS ==> w !in reserved)
  }

  /** The column that a dotted alias of the language stands for. */
  function AliasOf(f: string): Option<string>
  {
    if f == "event.cloud_region" || f == "event.source.country" then Some("cloud_region")
    else if f == "event.cloud_account" then Some("cloud_account_uid")
    else if f == "event.severity" then Some("severity")
    else if f == "event.auth_status" || f == "event.outcome" then Some("auth_status")
    else if f == "event.api_operation" || f == "event.activity" then Some("api_operation")
    else if f == "event.api_service" then Some("api_service")
    else if f == "event.class" then Some("class_uid")
    else if f == "event.time" then Some("time")
    else if f == "identity.user" || f == "identity.user.name" then Some("actor_user_name")
    else None
  }

  /** The name itself, as SQL sees it: dots are underscores and capitals do not matter. */
  function PlainName(f: string): string
  {
    seq(|f|, i requires 0 <= i < |f| =>
      if f[i] == '.' then '_'
      else if 'A' <= f[i] <= 'Z' then ((f[i] as int) + 32) as char
      else f[i])
  }

  /** The column that a field means: that of its alias, or the one of its own name. */
  function ColumnOf(f: string): string
  {
    match AliasOf(f) case Some(col) => col case None => PlainName(f)
  }

  /** The value of a field in an event; `event.cloud_provider` is a constant. */
  function FieldDatum(row: Row, f: string): Datum
  {
    if f == "event.cloud_provider" then Varchar("aws") else row(ColumnOf(f))
  }

  predicate IsTime(f: string)
  {
    f == "event.time" || f == "time"
  }

  /**
   A name that is one SQL operand: no hyphen, which SQL reads as minus, and no reserved word. The time
   column is written in quotes and the provider as a literal, so neither can be reserved.
   */
  predicate SqlName(reserved: set<string>, f: string)
  {
    GrammarName(f) && '-' !in f && (IsTime(f) || f == PROVIDER_FIELD || ColumnOf(f) !in reserved)
  }

  // ---- Columns ----

  lemma LowerIsFixed(s: string)
    requires forall i :: 0 <= i < |s| ==> !('A' <= s[i] <= 'Z')
    ensures AsciiLower(s) == s
  {
  }

  lemma {:induction false} UnderscoredChars(s: string)
    ensures |Underscored(s)| == |s|
    ensures forall i :: 0 <= i < |s| ==> Underscored(s)[i] == if s[i] == '.' then '_' else s[i]
  {
    if s != "" {
      UnderscoredChars(s[1..]);
    }
  }

  predicate EventColumn(col: string)
  {
    col in {"cloud_region", "cloud_account_uid", "severity", "auth_status"}
  }

  predicate ActorColumn(col: string)
  {
    col in {"api_operation", "api_service", "class_uid", "actor_user_name", "event_id"}
  }

  predicate LowerName(col: string)
  {
    col != "" && Letter(col[0]) && forall i | 0 <= i < |col| :: NameChar(col[i]) && !('A' <= col[i] <= 'Z')
  }

  lemma EventColumnIsName(col: string)
    requires EventColumn(col)
    ensures LowerName(col)
  {
  }

  lemma ActorColumnIsName(col: string)
    requires ActorColumn(col)
    ensures LowerName(col)
  {
  }

  lemma OwnNotReserved(reserved: set<string>, col: string)
    requires Dialect(reserved) && (EventColumn(col) || ActorColumn(col))
    ensures col !in reserved
  {
    assert col in OWN_COLUMNS;
  }

  lemma LowerNameIsIdentifier(reserved: set<string>, col: string)
    requires LowerName(col) && col !in reserved
    ensures IsIdentifier(reserved, col) && AsciiLower(col) == col
  {
    LowerIsFixed(col);
  }

  lemma OwnColumnIsName(col: string)
    requires EventColumn(col) || ActorColumn(col)
    ensures LowerName(col)
  {
    if EventColumn(col) {
      EventColumnIsName(col);
    } else {
      ActorColumnIsName(col);
    }
  }

  /** The columns of the events table are identifiers in every dialect. */
  lemma OwnColumnIsIdentifier(reserved: set<string>, col: string)
    requires Dialect(reserved) && (EventColumn(col) || ActorColumn(col))
    ensures IsIdentifier(reserved, col) && AsciiLower(col) == col && LowerName(col)
  {
    OwnNotReserved(reserved, col);
    OwnColumnIsName(col);
    LowerNameIsIdentifier(reserved, col);
  }

  lemma SpecialColumns(f: string)
    ensures f == PROVIDER_FIELD ==> FieldToColumn(f) == Quote("aws")
    ensures f == "event.time" || f == "time" ==> FieldToColumn(f) == Delimit("time")
  {
    assert PROVIDER_FIELD[6] == 'c' && "event.source.country"[6] == 's';
  }

  /** The remaining fields have ordinary columns. */
  lemma OrdinaryColumn(f: string)
    requires GrammarName(f) && f != PROVIDER_FIELD && f != "event.time" && f != "time"
    ensures var col := FieldToColumn(f);
            EventColumn(col) || ActorColumn(col) || col == Underscored(f)
  {
  }

  // ---- The compiler's column is the one that is meant ----

  predicate RegionName(f: string)
  {
    || f == "event.cloud_region" || f == "cloud_region" || f == "event.cloud_account"
    || f == "cloud_account_uid" || f == "event.severity" || f == "severity"
    || f == "event.auth_status" || f == "event.outcome" || f == "auth_status"
  }

  predicate ServiceName(f: string)
  {
    || f == "event.api_operation" || f == "event.activity" || f == "api_operation"
    || f == "event.api_service" || f == "api_service" || f == "event.class"
    || f == "class_uid" || f == "event.time" || f == "time"
  }

  predicate OtherName(f: string)
  {
    || f == "identity.user" || f == "identity.user.name" || f == "actor_user_name"
    || f == "event.source.country" || f == PROVIDER_FIELD
  }

  lemma MappedNames(f: string)
    ensures RegionName(f) || ServiceName(f) || OtherName(f) || FieldToColumn(f) == Underscored(f)
  {
  }

  predicate Ordinary(f: string)
  {
    f != PROVIDER_FIELD && !IsTime(f)
  }

  lemma AliasColumn(f: string)
    requires AliasOf(f).Some? && Ordinary(f)
    ensures var col := AliasOf(f).value;
            FieldToColumn(f) == col && (EventColumn(col) || ActorColumn(col))
  {
  }

  predicate Bare(f: string)
  {
    FieldToColumn(f) == f && (EventColumn(f) || ActorColumn(f))
  }

  lemma BareRegion(f: string)
    requires AliasOf(f).None? && RegionName(f)
    ensures Bare(f)
  {
  }

  lemma BareService(f: string)
    requires AliasOf(f).None? && ServiceName(f) && !IsTime(f)
    ensures Bare(f)
  {
  }

  lemma BareOther(f: string)
    requires AliasOf(f).None? && OtherName(f) && f != PROVIDER_FIELD
    ensures Bare(f)
  {
  }

  lemma BareColumn(f: string)
    requires AliasOf(f).None? && Ordinary(f)
    ensures FieldToColumn(f) == Underscored(f) || Bare(f)
  {
    MappedNames(f);
    if RegionName(f) {
      BareRegion(f);
    } else if ServiceName(f) {
      BareService(f);
    } else if OtherName(f) {
      BareOther(f);
    }
  }

  lemma PlainNameLowers(f: string)
    ensures PlainName(f) == AsciiLower(Underscored(f))
    ensures LowerName(f) ==> PlainName(f) == f == AsciiLower(f)
  {
    UnderscoredChars(f);
    var lower := AsciiLower(Underscored(f));
    forall i | 0 <= i < |f| ensures PlainName(f)[i] == lower[i] {
    }
    if LowerName(f) {
      LowerIsFixed(f);
      forall i | 0 <= i < |f| ensures PlainName(f)[i] == f[i] {
        assert NameChar(f[i]);
      }
    }
  }

  /** The compiled column of an ordinary field is, up to case, the column the field means. */
  lemma CompiledColumn(f: string)
    requires Ordinary(f)
    ensures AsciiLower(FieldToColumn(f)) == ColumnOf(f)
  {
    PlainNameLowers(f);
    if AliasOf(f).Some? {
      AliasColumn(f);
      OwnColumnIsName(AliasOf(f).value);
      LowerIsFixed(AliasOf(f).value);
    } else {
      BareColumn(f);
      if FieldToColumn(f) != Underscored(f) {
        OwnColumnIsName(f);
      }
    }
  }

  /** A column of the events table bears its own name. */
  lemma OwnNameIsColumn(f: string)
    requires EventColumn(f) || ActorColumn(f)
    ensures ColumnOf(f) == f && Ordinary(f)
  {
    OwnColumnIsName(f);
    PlainNameLowers(f);
    NoDotNoAlias(f);
  }

  lemma NoDotNoAlias(f: string)
    requires LowerName(f)
    ensures AliasOf(f).None? && f != PROVIDER_FIELD
  {
    assert forall i :: 0 <= i < |f| ==> f[i] != '.';
    assert |f| > 5 ==> f[5] != '.';
    assert |f| > 8 ==> f[8] != '.';
  }

  // ---- Hyphens ----

  predicate Hyphenless(f: string)
  {
    forall i | 0 <= i < |f| :: f[i] != '-'
  }

  lemma RegionNameHasNoHyphen(f: string)
    requires RegionName(f)
    ensures Hyphenless(f)
  {
  }

  lemma ServiceNameHasNoHyphen(f: string)
    requires ServiceName(f)
    ensures Hyphenless(f)
  {
  }

  lemma OtherNameHasNoHyphen(f: string)
    requires OtherName(f)
    ensures Hyphenless(f)
  {
  }

  /** A hyphen in a name ends up in its column. */
  lemma HyphenStays(f: string)
    requires '-' in f
    ensures FieldToColumn(f) == Underscored(f) && !Hyphenless(Underscored(f))
  {
    MappedNames(f);
    if RegionName(f) {
      RegionNameHasNoHyphen(f);
    } else if ServiceName(f) {
      ServiceNameHasNoHyphen(f);
    } else if OtherName(f) {
      OtherNameHasNoHyphen(f);
    }
    UnderscoredChars(f);
    var i :| 0 <= i < |f| && f[i] == '-';
    assert Underscored(f)[i] == '-';
  }

  // ---- Operands ----

  lemma NameOperand(reserved: set<string>, row: Row, w: string)
    requires w != "" && Letter(w[0])
    ensures Column(reserved, w) == if IsIdentifier(reserved, w) then Some(AsciiLower(w)) else None
    ensures Operand(reserved, row, w) == if IsIdentifier(reserved, w) then Some(row(AsciiLower(w))) else None
  {
    assert Point(w) > 0 ==> w[..Point(w)][0] == w[0];
  }

  lemma LiteralOperand(reserved: set<string>, row: Row, text: string)
    requires '\'' !in text
    ensures ReadLiteral(Quote(text)) == Some(text)
    ensures Operand(reserved, row, Quote(text)) == Some(Varchar(text))
    ensures Column(reserved, Quote(text)) == None
  {
    PlainLiteralReads(text, "");
    assert Quote(text)[1..] == text + (['\''] + "");
    assert !NameChar(Quote(text)[0]);
  }

  lemma DelimitedOperand(reserved: set<string>, row: Row, name: string)
    requires '"' !in name && name != ""
    ensures Column(reserved, Delimit(name)) == Some(name)
    ensures Operand(reserved, row, Delimit(name)) == Some(row(name))
  {
    var w := Delimit(name);
    assert w[0] == '"' && !NameChar(w[0]) && !IsDigit(w[0]);
    assert w[1..|w| - 1] == name;
    assert Point(w) > 0 ==> w[..Point(w)][0] == w[0];
  }

  lemma {:induction false} PlainLiteralReads(s: string, rest: string)
    requires '\'' !in s && (rest == "" || rest[0] != '\'')
    ensures ReadQuoted(s + (['\''] + rest)) == Some((s, rest))
  {
    var t := s + (['\''] + rest);
    if s == "" {
      assert t == ['\''] + rest && t[1..] == rest;
    } else {
      assert t[0] == s[0] && s[0] in s;
      assert t[1..] == s[1..] + (['\''] + rest);
      PlainLiteralReads(s[1..], rest);
      assert s == [s[0]] + s[1..];
    }
  }

  /** An ordinary column is an identifier exactly when its name has no hyphen and it is not reserved. */
  lemma OrdinaryIff(reserved: set<string>, f: string)
    requires Dialect(reserved) && GrammarName(f) && Ordinary(f)
    ensures var col := FieldToColumn(f);
            && col != "" && Letter(col[0]) && AsciiLower(col) == ColumnOf(f)
            && (IsIdentifier(reserved, col) <==> SqlName(reserved, f))
  {
    CompiledColumn(f);
    var col := FieldToColumn(f);
    if '-' in f {
      HyphenStays(f);
      UnderscoredChars(f);
      var i :| 0 <= i < |col| && col[i] == '-';
      assert !NameChar(col[i]);
    } else {
      OrdinaryColumn(f);
      if EventColumn(col) || ActorColumn(col) {
        OwnColumnIsIdentifier(reserved, col);
      } else {
        UnderscoredChars(f);
        assert forall i :: 0 <= i < |col| ==> FieldChar(f[i]) && NameChar(col[i]);
      }
    }
  }

  lemma SpecialNames(f: string)
    requires f == PROVIDER_FIELD || f == "event.time" || f == "time"
    ensures GrammarName(f) && '-' !in f
  {
  }

  /** The compiled text of an operand is no reserved word. */
  lemma CompiledIsNotReserved(reserved: set<string>, f: string)
    requires Dialect(reserved) && SqlName(reserved, f)
    ensures AsciiLower(FieldToColumn(f)) !in reserved
  {
    if Ordinary(f) {
      CompiledColumn(f);
    } else {
      SpecialIsQuoted(f);
      NotReserved(reserved, FieldToColumn(f));
    }
  }

  lemma SpecialIsQuoted(f: string)
    requires !Ordinary(f)
    ensures FieldToColumn(f) != "" && !Letter(FieldToColumn(f)[0])
  {
    SpecialColumns(f);
  }

  /** Words that start otherwise are never reserved. */
  lemma NotReserved(reserved: set<string>, w: string)
    requires Dialect(reserved) && w != "" && !Letter(w[0])
    ensures AsciiLower(w) !in reserved
  {
    assert AsciiLower(w)[0] == LowerChar(w[0]) == w[0];
  }

  lemma TimeIsDelimited(f: string)
    requires IsTime(f)
    ensures FieldToColumn(f) == Delimit("time") && ColumnOf(f) == "time" && f != PROVIDER_FIELD
  {
    SpecialColumns(f);
    if f == "time" {
      PlainNameLowers(f);
    }
  }

  lemma TimeOperand(reserved: set<string>, row: Row, f: string)
    requires IsTime(f)
    ensures Operand(reserved, row, FieldToColumn(f)) == Some(row(ColumnOf(f)))
    ensures Column(reserved, FieldToColumn(f)) == Some(ColumnOf(f))
  {
    TimeIsDelimited(f);
    DelimitedOperand(reserved, row, "time");
  }

  lemma ProviderOperand(reserved: set<string>, row: Row)
    ensures Operand(reserved, row, FieldToColumn(PROVIDER_FIELD)) == Some(Varchar("aws"))
    ensures Column(reserved, FieldToColumn(PROVIDER_FIELD)) == None
  {
    SpecialColumns(PROVIDER_FIELD);
    LiteralOperand(reserved, row, "aws");
  }

  /** What an ordinary name is read as. */
  lemma OrdinaryOperand(reserved: set<string>, row: Row, f: string)
    requires Dialect(reserved) && GrammarName(f) && Ordinary(f)
    ensures Operand(reserved, row, FieldToColumn(f)) == if SqlName(reserved, f) then Some(row(ColumnOf(f))) else None
    ensures Column(reserved, FieldToColumn(f)) == if SqlName(reserved, f) then Some(ColumnOf(f)) else None
  {
    OrdinaryIff(reserved, f);
    NameOperand(reserved, row, FieldToColumn(f));
  }

  /**
   A field name of the grammar becomes one SQL operand, with the field's value, exactly when it has no
   hyphen and its column is not a reserved word.
   */
  lemma OperandIff(reserved: set<string>, row: Row, f: string)
    requires Dialect(reserved) && GrammarName(f)
    ensures Operand(reserved, row, FieldToColumn(f)) ==
            if SqlName(reserved, f) then Some(FieldDatum(row, f)) else None
  {
    if Ordinary(f) {
      OrdinaryOperand(reserved, row, f);
    } else {
      SpecialNames(f);
      if IsTime(f) {
        TimeIsDelimited(f);
        TimeOperand(reserved, row, f);
      } else {
        ProviderOperand(reserved, row);
      }
    }
  }

  /** It becomes a column exactly when, besides, it is not `event.cloud_provider`. */
  lemma ColumnIff(reserved: set<string>, f: string)
    requires Dialect(reserved) && GrammarName(f)
    ensures Column(reserved, FieldToColumn(f)) ==
            if SqlName(reserved, f) && f != PROVIDER_FIELD then Some(ColumnOf(f)) else None
  {
    var row: Row := (c: string) => Null;
    if Ordinary(f) {
      OrdinaryOperand(reserved, row, f);
    } else {
      SpecialNames(f);
      if IsTime(f) {
        TimeIsDelimited(f);
        TimeOperand(reserved, row, f);
      } else {
        ProviderOperand(reserved, row);
      }
    }
  }

  /** The grammar accepts `user-name`, whose column SQL reads as a subtraction. */
  lemma HyphenatedNameIsNoColumn(reserved: set<string>, row: Row, f: string)
    requires Dialect(reserved) && f == "user-name"
    ensures GrammarName(f) && Operand(reserved, row, FieldToColumn(f)) == None
  {
    assert f[4] == '-';
    OperandIff(reserved, row, f);
  }

  /** It accepts `null` too, which is no column in any dialect. */
  lemma ReservedNameIsNoColumn(reserved: set<string>, row: Row, f: string)
    requires Dialect(reserved) && f == "null"
    ensures GrammarName(f) && Operand(reserved, row, FieldToColumn(f)) == None
  {
    ReservedName(reserved, row, f);
  }

  /** Nor is any other reserved word that has no meaning of its own in the language. */
  lemma ReservedName(reserved: set<string>, row: Row, f: string)
    requires Dialect(reserved) && LowerName(f) && f in reserved && !IsTime(f)
    ensures GrammarName(f) && Operand(reserved, row, FieldToColumn(f)) == None
  {
    NoDotNoAlias(f);
    PlainNameLowers(f);
    OperandIff(reserved, row, f);
  }

  /** A string value keeps its meaning as an SQL literal exactly when it holds no apostrophe. */
  lemma LiteralKeptIff(s: string, rest: string)
    requires rest == "" || rest[0] != '\''
    ensures ReadQuoted((Quote(s) + rest)[1..]) == Some((s, rest)) <==> '\'' !in s
  {
    var t := s + (['\''] + rest);
    assert (Quote(s) + rest)[1..] == t;
    if '\'' !in s {
      PlainLiteralReads(s, rest);
    } else if ReadQuoted(t) == Some((s, rest)) {
      QuotedLength(t);
      ApostrophesCount(s);
      assert false;
    }
  }

  function Apostrophes(s: string): nat
  {
    if s == "" then 0 else (if s[0] == '\'' then 1 else 0) + Apostrophes(s[1..])
  }

  lemma {:induction false} ApostrophesCount(s: string)
    ensures Apostrophes(s) == 0 <==> '\'' !in s
  {
    if s != "" {
      ApostrophesCount(s[1..]);
      assert s == [s[0]] + s[1..];
    }
  }

  /** Every apostrophe in the value was written twice. */
  lemma {:induction false} QuotedLength(s: string)
    requires ReadQuoted(s).Some?
    ensures var (value, rest) := ReadQuoted(s).value; |s| == |value| + Apostrophes(value) + 1 + |rest|
  {
    var (value, rest) := ReadQuoted(s).value;
    if s[0] != '\'' {
      QuotedLength(s[1..]);
      assert value[1..] == ReadQuoted(s[1..]).value.0;
    } else if |s| > 1 && s[1] == '\'' {
      QuotedLength(s[2..]);
      assert value[1..] == ReadQuoted(s[2..]).value.0;
    }
  }
}
