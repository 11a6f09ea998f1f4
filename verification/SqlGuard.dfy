/** The warm-tier query guard (`validate_read_query`) and the text the client posts for a query. */
module SqlGuard {
  import opened Wrappers
  import opened SqlLexer
  import opened SqlText

  datatype Rejection =
    | EmptyQuery
    | NotSelect
    | MultipleStatements
    | SettingsOverride
    | IntoOutfile
    | SystemTables
    | ForbiddenFunction(name: string)
    | ForbiddenS3Target(prefix: string)
    | UnterminatedText

  /** Table functions that reach outside the warm tier. */
  const FORBIDDEN_FUNCTIONS: set<string> := {
    "url", "urlcluster", "remote", "remotesecure", "cluster", "clusterallreplicas", "file",
    "filecluster", "input", "executable", "mysql", "postgresql", "mongodb", "redis", "sqlite",
    "jdbc", "odbc", "hdfs", "hdfscluster", "s3cluster", "gcs", "azureblobstorage",
    "azureblobstoragecluster", "deltalake", "deltalakecluster", "hudi", "hudicluster", "iceberg",
    "icebergs3", "icebergazure", "iceberghdfs", "icebergcluster", "icebergs3cluster"
  }

  // ---- What an accepted query may not contain ----

  predicate StartsQuery(ts: seq<Token>)
  {
    ts != [] && (ts[0] == Ident("select") || ts[0] == Ident("with"))
  }

  predicate Calls(ts: seq<Token>, i: nat)
    requires i < |ts|
  {
    ts[i].Ident? && i + 1 < |ts| && ts[i + 1] == Punct('(')
  }

  /** The `s3()` call at `i` names a literal object under the prefix. */
  predicate Pinned(ts: seq<Token>, i: nat, prefix: string)
    requires i < |ts|
  {
    i + 2 < |ts| && ts[i + 2].Str? && prefix <= ts[i + 2].text
  }

  /** Token `i` gives no ground for refusal. */
  predicate Harmless(ts: seq<Token>, i: nat, prefix: string)
    requires i < |ts|
  {
    && ts[i] != Punct(';')
    && ts[i] != Ident("settings")
    && ts[i] != Ident("outfile")
    && !(ts[i] == Ident("system") && i + 1 < |ts| && ts[i + 1] == Punct('.'))
    && (Calls(ts, i) ==> ts[i].name !in FORBIDDEN_FUNCTIONS)
    && (Calls(ts, i) && ts[i].name == "s3" ==> Pinned(ts, i, prefix))
  }

  /** Why token `i` is refused. */
  function Reason(ts: seq<Token>, i: nat, prefix: string): Rejection
    requires i < |ts| && !Harmless(ts, i, prefix)
  {
    match ts[i]
    case Punct(_) => MultipleStatements
    case Str(_) => MultipleStatements
    case Ident(name) =>
      if name == "settings" then SettingsOverride
      else if name == "outfile" then IntoOutfile
      else if name == "system" && ts[i + 1] == Punct('.') then SystemTables
      else if name in FORBIDDEN_FUNCTIONS then ForbiddenFunction(name)
      else ForbiddenS3Target(prefix)
  }

  /** The verdict on a token list: the first ground for refusal, in text order, or acceptance. */
  ghost predicate IsVerdict(ts: seq<Token>, prefix: string, r: Option<Rejection>)
  {
    match r
    case None => StartsQuery(ts) && forall i :: 0 <= i < |ts| ==> Harmless(ts, i, prefix)
    case Some(why) =>
      if ts == [] then why == EmptyQuery
      else if !StartsQuery(ts) then why == NotSelect
      else exists i :: 0 <= i < |ts| && !Harmless(ts, i, prefix) && why == Reason(ts, i, prefix)
                       && forall j :: 0 <= j < i ==> Harmless(ts, j, prefix)
  }

  // ---- Trimming ----

  function TrimStart(u: Chars, s: string): string
  {
    if s != "" && u.isWhitespace(s[0]) then TrimStart(u, s[1..]) else s
  }

  function TrimEnd(u: Chars, s: string): string
  {
    if s != "" && u.isWhitespace(s[|s| - 1]) then TrimEnd(u, s[..|s| - 1]) else s
  }

  function TrimSemicolons(s: string): string
  {
    if s != "" && s[|s| - 1] == ';' then TrimSemicolons(s[..|s| - 1]) else s
  }

  function Stripped(u: Chars, sql: string): string
  {
    TrimEnd(u, TrimSemicolons(TrimEnd(u, TrimStart(u, sql))))
  }

  ghost predicate AllWhite(u: Chars, s: string)
  {
    forall i :: 0 <= i < |s| ==> u.isWhitespace(s[i])
  }

  ghost predicate AllSemicolons(s: string)
  {
    forall i :: 0 <= i < |s| ==> s[i] == ';'
  }

  /** White space at neither end. */
  ghost predicate Tight(u: Chars, s: string)
  {
    s == "" || (!u.isWhitespace(s[0]) && !u.isWhitespace(s[|s| - 1]))
  }

  lemma {:induction false} StartTrims(u: Chars, front: string, s: string)
    requires AllWhite(u, front) && (s == "" || !u.isWhitespace(s[0]))
    ensures TrimStart(u, front + s) == s
  {
    if front == "" {
      assert front + s == s;
    } else {
      assert (front + s)[1..] == front[1..] + s;
      StartTrims(u, front[1..], s);
    }
  }

  lemma {:induction false} EndTrims(u: Chars, s: string, tail: string)
    requires AllWhite(u, tail) && (s == "" || !u.isWhitespace(s[|s| - 1]))
    ensures TrimEnd(u, s + tail) == s
  {
    if tail == "" {
      assert s + tail == s;
    } else {
      var n := |tail| - 1;
      assert (s + tail)[..|s| + n] == s + tail[..n];
      EndTrims(u, s, tail[..n]);
    }
  }

  lemma {:induction false} SemicolonsTrim(s: string, semis: string)
    requires AllSemicolons(semis) && (s == "" || s[|s| - 1] != ';')
    ensures TrimSemicolons(s + semis) == s
  {
    if semis == "" {
      assert s + semis == s;
    } else {
      var n := |semis| - 1;
      assert (s + semis)[..|s| + n] == s + semis[..n];
      SemicolonsTrim(s, semis[..n]);
    }
  }

  /**
   Exactly what is stripped: white space around the query, and between the two at its end one run of
   semicolons. Nothing else of the text is lost.
   */
  lemma StrippedIs(u: Chars, front: string, core: string, gap: string, semis: string, tail: string)
    requires !u.isWhitespace(';')
    requires AllWhite(u, front) && Tight(u, core) && AllWhite(u, gap) && AllSemicolons(semis) && AllWhite(u, tail)
    requires core == "" ==> gap == ""
    requires semis == "" ==> gap == ""
    requires gap == "" && core != "" ==> core[|core| - 1] != ';'
    ensures Stripped(u, front + (core + gap + semis + tail)) == core
  {
    var rest := core + gap + semis + tail;
    var body := core + gap + semis;
    if core == "" && semis == "" {
      assert rest == tail && body == "";
      assert front + rest == (front + tail) + "";
      assert TrimStart(u, front + tail) == "" by {
        assert (front + tail) + "" == front + tail;
        StartTrims(u, front + tail, "");
      }
    } else {
      assert rest[0] == if core != "" then core[0] else ';';
      StartTrims(u, front, rest);
      assert !u.isWhitespace(body[|body| - 1]);
      EndTrims(u, body, tail);
      if semis == "" {
        assert body == core == core + "";
        SemicolonsTrim(core, "");
        EndTrims(u, core, "");
      } else {
        assert body == (core + gap) + semis;
        assert gap != "" ==> (core + gap)[|core + gap| - 1] == gap[|gap| - 1];
        SemicolonsTrim(core + gap, semis);
        EndTrims(u, core, gap);
      }
    }
  }

  // ---- The scan ----

  method CheckTokens(tokens: seq<Token>, prefix: string) returns (r: Option<Rejection>)
    ensures IsVerdict(tokens, prefix, r)
  {
    if tokens == [] {
      return Some(EmptyQuery);
    }
    if !(tokens[0].Ident? && (tokens[0].name == "select" || tokens[0].name == "with")) {
      return Some(NotSelect);
    }
    for i := 0 to |tokens|
      invariant forall j :: 0 <= j < i ==> Harmless(tokens, j, prefix)
    {
      var next := if i + 1 < |tokens| then Some(tokens[i + 1]) else None;
      match tokens[i] {
        case Punct(ch) =>
          if ch == ';' {
            assert !Harmless(tokens, i, prefix) && Reason(tokens, i, prefix) == MultipleStatements;
            return Some(MultipleStatements);
          }
        case Str(_) =>
        case Ident(name) =>
          if name == "settings" {
            assert !Harmless(tokens, i, prefix) && Reason(tokens, i, prefix) == SettingsOverride;
            return Some(SettingsOverride);
          } else if name == "outfile" {
            assert !Harmless(tokens, i, prefix) && Reason(tokens, i, prefix) == IntoOutfile;
            return Some(IntoOutfile);
          } else if name == "system" && next == Some(Punct('.')) {
            assert !Harmless(tokens, i, prefix) && Reason(tokens, i, prefix) == SystemTables;
            return Some(SystemTables);
          } else if next == Some(Punct('(')) {
            if name in FORBIDDEN_FUNCTIONS {
              assert !Harmless(tokens, i, prefix) && Reason(tokens, i, prefix) == ForbiddenFunction(name);
              return Some(ForbiddenFunction(name));
            }
            if name == "s3" {
              if !(i + 2 < |tokens| && tokens[i + 2].Str? && prefix <= tokens[i + 2].text) {
                assert !Harmless(tokens, i, prefix) && Reason(tokens, i, prefix) == ForbiddenS3Target(prefix);
                return Some(ForbiddenS3Target(prefix));
              }
            }
          }
      }
    }
    return None;
  }

  method ValidateReadQuery(u: Chars, sql: string, prefix: string) returns (r: Result<string, Rejection>)
    ensures match Tokens(u, Stripped(u, sql))
            case None => r == Err(UnterminatedText)
            case Some(ts) => IsVerdict(ts, prefix, if r.Ok? then None else Some(r.error))
    ensures r.Ok? ==> r.value == Stripped(u, sql)
  {
    var text := Stripped(u, sql);
    var tokens := Tokenize(u, text);
    if tokens.None? {
      return Err(UnterminatedText);
    }
    var refused := CheckTokens(tokens.value, prefix);
    return if refused.Some? then Err(refused.value) else Ok(text);
  }

  const FORMAT_CLAUSE := "FORMAT" + ([' '] + "JSONCompact")

  /** `ClickHouseClient::query`: the text that is posted for a query. */
  method PostedBody(u: Chars, sql: string, prefix: string) returns (r: Result<string, Rejection>)
    ensures r.Ok? ==> r.value == Stripped(u, sql) + ("\n" + FORMAT_CLAUSE)
    ensures r.Ok? <==> Tokens(u, Stripped(u, sql)).Some? && IsVerdict(Tokens(u, Stripped(u, sql)).value, prefix, None)
  {
    var checked := ValidateReadQuery(u, sql, prefix);
    if checked.Err? {
      return Err(checked.error);
    }
    return Ok(checked.value + ("\n" + FORMAT_CLAUSE));
  }

  /** The call at `i` is of no forbidden function, and of `s3` only with an object under the prefix. */
  ghost predicate CallsSafely(ts: seq<Token>, i: nat, prefix: string)
    requires i + 1 < |ts|
  {
    ts[i].Ident? && ts[i + 1] == Punct('(') ==>
      && ts[i].name !in FORBIDDEN_FUNCTIONS
      && (ts[i].name == "s3" ==> i + 2 < |ts| && ts[i + 2].Str? && prefix <= ts[i + 2].text)
  }

  /** What an accepted query may hold, token by token. */
  lemma AcceptedIff(ts: seq<Token>, prefix: string)
    ensures IsVerdict(ts, prefix, None) <==>
            && ts != [] && (ts[0] == Ident("select") || ts[0] == Ident("with"))
            && Punct(';') !in ts && Ident("settings") !in ts && Ident("outfile") !in ts
            && (forall i :: 0 <= i < |ts| - 1 ==> CallsSafely(ts, i, prefix))
            && (forall i :: 0 <= i < |ts| - 1 ==> !(ts[i] == Ident("system") && ts[i + 1] == Punct('.')))
  {
    if IsVerdict(ts, prefix, None) {
      forall i | 0 <= i < |ts| ensures ts[i] != Punct(';') && ts[i] != Ident("settings") && ts[i] != Ident("outfile") {
        assert Harmless(ts, i, prefix);
      }
      forall i | 0 <= i < |ts| - 1
        ensures CallsSafely(ts, i, prefix) && !(ts[i] == Ident("system") && ts[i + 1] == Punct('.'))
      {
        assert Harmless(ts, i, prefix);
      }
    } else {
      if i :| 0 <= i < |ts| && !Harmless(ts, i, prefix) {
        HarmfulToken(ts, i, prefix);
        assert ts[i] in ts;
      }
    }
  }

  lemma HarmfulToken(ts: seq<Token>, i: nat, prefix: string)
    requires i < |ts| && !Harmless(ts, i, prefix)
    ensures || ts[i] == Punct(';') || ts[i] == Ident("settings") || ts[i] == Ident("outfile")
            || (i < |ts| - 1 && ts[i] == Ident("system") && ts[i + 1] == Punct('.'))
            || (i < |ts| - 1 && !CallsSafely(ts, i, prefix))
  {
  }

  /** The token at `i` is the ground that a refusal names. */
  ghost predicate IsGround(ts: seq<Token>, i: nat, prefix: string, why: Rejection)
    requires i < |ts|
  {
    match why
    case EmptyQuery => false
    case NotSelect => i == 0 && ts[0] != Ident("select") && ts[0] != Ident("with")
    case MultipleStatements => ts[i] == Punct(';')
    case SettingsOverride => ts[i] == Ident("settings")
    case IntoOutfile => ts[i] == Ident("outfile")
    case SystemTables => ts[i] == Ident("system") && i + 1 < |ts| && ts[i + 1] == Punct('.')
    case ForbiddenFunction(name) => ts[i] == Ident(name) && i + 1 < |ts| && ts[i + 1] == Punct('(') && name in FORBIDDEN_FUNCTIONS
    case ForbiddenS3Target(p) =>
      && p == prefix && ts[i] == Ident("s3") && i + 1 < |ts| && ts[i + 1] == Punct('(')
      && !(i + 2 < |ts| && ts[i + 2].Str? && prefix <= ts[i + 2].text)
    case UnterminatedText => false
  }

  /** A refusal names its ground, and the tokens before that would have been accepted. */
  lemma RefusalMeans(ts: seq<Token>, prefix: string, why: Rejection) returns (i: nat)
    requires IsVerdict(ts, prefix, Some(why))
    ensures if ts == [] then why == EmptyQuery else i < |ts| && IsGround(ts, i, prefix, why)
    ensures forall j :: 0 <= j < i && i < |ts| ==> Harmless(ts, j, prefix)
  {
    if ts == [] || !StartsQuery(ts) {
      i := 0;
    } else {
      i :| 0 <= i < |ts| && !Harmless(ts, i, prefix) && why == Reason(ts, i, prefix)
           && forall j :: 0 <= j < i ==> Harmless(ts, j, prefix);
      ReasonIsGround(ts, i, prefix);
    }
  }

  lemma ReasonIsGround(ts: seq<Token>, i: nat, prefix: string)
    requires i < |ts| && !Harmless(ts, i, prefix)
    ensures IsGround(ts, i, prefix, Reason(ts, i, prefix))
  {
  }

  /** A word of letters, digits and underscores. */
  ghost predicate IsPlainWord(u: Chars, w: string)
  {
    && w != "" && !u.isWhitespace(w[0]) && !IsQuote(w[0]) && w[0] != '-' && w[0] != '/'
    && forall i :: 0 <= i < |w| ==> IsWord(u, w[i])
  }

  /** The tables classify and lower-case the words of the clause as the ASCII words they are. */
  ghost predicate ReadsAscii(u: Chars)
  {
    && IsPlainWord(u, "FORMAT") && u.toLower("FORMAT") == "format"
    && IsPlainWord(u, "JSONCompact") && u.toLower("JSONCompact") == "jsoncompact"
    && u.isWhitespace(' ') && !IsWord(u, ' ')
  }

  lemma {:induction false} WordAlone(u: Chars, w: string, t: string)
    requires forall i :: 0 <= i < |w| ==> IsWord(u, w[i])
    requires t == "" || !IsWord(u, t[0])
    ensures WordLength(u, w + t) == |w|
  {
    if w == "" {
      assert w + t == t;
    } else {
      assert (w + t)[1..] == w[1..] + t;
      WordAlone(u, w[1..], t);
    }
  }

  /** A word followed by anything but a word character is one identifier. */
  lemma WordToken(u: Chars, w: string, t: string)
    requires IsPlainWord(u, w) && (t == "" || !IsWord(u, t[0]))
    ensures Tokens(u, w + t) == Joined([Ident(u.toLower(w))], Tokens(u, t))
  {
    assert (w + t)[1..] == w[1..] + t;
    WordAlone(u, w[1..], t);
    assert (w + t)[..|w|] == w && (w + t)[|w|..] == t;
  }

  lemma OneWord(u: Chars, w: string)
    requires IsPlainWord(u, w)
    ensures Tokens(u, w) == Some([Ident(u.toLower(w))])
  {
    var none: string := [];
    assert w + none == w;
    WordToken(u, w, none);
    assert [Ident(u.toLower(w))] + [] == [Ident(u.toLower(w))];
  }

  lemma TwoWords(u: Chars, v: string, w: string)
    requires IsPlainWord(u, v) && IsPlainWord(u, w) && u.isWhitespace(' ') && !IsWord(u, ' ')
    ensures Tokens(u, v + ([' '] + w)) == Some([Ident(u.toLower(v)), Ident(u.toLower(w))])
  {
    var s := [' '] + w;
    WordToken(u, v, s);
    OneWord(u, w);
    assert s[1..] == w;
    assert Next(u, s) == Skip(1) && Tokens(u, s) == Tokens(u, w);
    assert [Ident(u.toLower(v))] + [Ident(u.toLower(w))] == [Ident(u.toLower(v)), Ident(u.toLower(w))];
  }

  /**
   For every accepted query the posted text is the query's own tokens followed by the two of the
   clause. It is harmless as a whole, so nothing that was checked can be undone by appending.
   */
  lemma PostedBodyIsHarmless(u: Chars, q: string, prefix: string)
    requires Sane(u) && ReadsAscii(u)
    requires Tokens(u, q).Some? && IsVerdict(Tokens(u, q).value, prefix, None)
    ensures Tokens(u, q + ("\n" + FORMAT_CLAUSE)) == Some(Tokens(u, q).value + [Ident("format"), Ident("jsoncompact")])
    ensures IsVerdict(Tokens(u, q + ("\n" + FORMAT_CLAUSE)).value, prefix, None)
  {
    TwoWords(u, "FORMAT", "JSONCompact");
    TokensCompose(u, q, FORMAT_CLAUSE);
    var ts := Tokens(u, q).value;
    var all := ts + [Ident("format"), Ident("jsoncompact")];
    forall i | 0 <= i < |all| ensures Harmless(all, i, prefix) {
      if i < |ts| {
        assert Harmless(ts, i, prefix);
      }
    }
  }

  /**
   How a query is spelled cannot change its verdict: two texts have one printed form exactly when they
   have the same tokens, and then the guard says the same of both.
   */
  lemma SpellingIsIrrelevant(u: Chars, q: string, other: string, prefix: string, r: Option<Rejection>)
    requires Sane(u) && Idempotent(u) && Tokens(u, q).Some? && Tokens(u, other).Some?
    ensures Print(Tokens(u, q).value) == Print(Tokens(u, other).value) <==> Tokens(u, q) == Tokens(u, other)
    ensures Print(Tokens(u, q).value) == Print(Tokens(u, other).value) ==>
              (IsVerdict(Tokens(u, q).value, prefix, r) <==> IsVerdict(Tokens(u, other).value, prefix, r))
  {
    PrintIsNormalForm(u, q);
    PrintIsNormalForm(u, other);
  }
}
