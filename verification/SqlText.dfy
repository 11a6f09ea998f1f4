/** How the lexer behaves on text put together from pieces, and printing as its inverse. */
module SqlText {
  import opened Wrappers
  import opened SqlLexer

  // ---- Text after a newline cannot change the tokens before it ----

  lemma {:induction false} LineStops(a: string, t: string)
    requires t != "" && t[0] == '\n'
    ensures LineLength(a + t) == LineLength(a)
  {
    if a == "" {
      assert a + t == t;
    } else if a[0] != '\n' {
      LineStops(a[1..], t);
      assert (a + t)[1..] == a[1..] + t;
    }
  }

  lemma {:induction false} CommentStops(a: string, t: string)
    requires CommentLength(a).Some?
    ensures CommentLength(a + t) == CommentLength(a)
  {
    if !(a[0] == '*' && a[1] == '/') {
      CommentStops(a[1..], t);
      assert (a + t)[1..] == a[1..] + t;
    }
  }

  lemma {:induction false} LiteralStops(quote: char, a: string, t: string)
    requires ReadLiteral(quote, a).Some? && t != "" && t[0] != quote
    ensures ReadLiteral(quote, a + t) == ReadLiteral(quote, a)
  {
    if |a| > 1 && (a[0] == '\\' || (a[0] == quote && a[1] == quote)) {
      LiteralStops(quote, a[2..], t);
      assert (a + t)[2..] == a[2..] + t;
    } else if a[0] != quote {
      LiteralStops(quote, a[1..], t);
      assert (a + t)[1..] == a[1..] + t;
    }
  }

  lemma {:induction false} WordStops(u: Chars, a: string, t: string)
    requires t != "" && !IsWord(u, t[0])
    ensures WordLength(u, a + t) == WordLength(u, a)
  {
    if a == "" {
      assert a + t == t;
    } else if IsWord(u, a[0]) {
      WordStops(u, a[1..], t);
      assert (a + t)[1..] == a[1..] + t;
    }
  }

  lemma NextStops(u: Chars, a: string, t: string)
    requires Sane(u) && a != "" && t != "" && t[0] == '\n' && !Next(u, a).Unterminated?
    ensures Next(u, a + t) == Next(u, a)
  {
    var c := a[0];
    assert (a + t)[1..] == a[1..] + t;
    if u.isWhitespace(c) {
    } else if c == '-' && |a| > 1 && a[1] == '-' {
      assert (a + t)[2..] == a[2..] + t;
      LineStops(a[2..], t);
    } else if c == '/' && |a| > 1 && a[1] == '*' {
      assert (a + t)[2..] == a[2..] + t;
      CommentStops(a[2..], t);
    } else if IsQuote(c) {
      LiteralStops(c, a[1..], t);
    } else if IsWord(u, c) {
      WordStops(u, a[1..], t);
      var n := 1 + WordLength(u, a[1..]);
      assert (a + t)[..n] == a[..n];
    }
  }

  /**
   Compositionality: what follows a newline is tokenised on its own, however the text before it ends.
   No comment or literal of a text that tokenises can swallow it.
   */
  lemma {:induction false} TokensCompose(u: Chars, a: string, b: string)
    requires Sane(u) && Tokens(u, a).Some?
    ensures Tokens(u, a + ("\n" + b)) == Joined(Tokens(u, a).value, Tokens(u, b))
    decreases |a|
  {
    var t := "\n" + b;
    if a == "" {
      assert a + t == t && t[1..] == b;
      JoinedTwice([], [], Tokens(u, b));
    } else {
      var lexeme := Next(u, a);
      NextStops(u, a, t);
      assert (a + t)[lexeme.width..] == a[lexeme.width..] + t;
      TokensCompose(u, a[lexeme.width..], b);
      if lexeme.Emit? {
        JoinedTwice([lexeme.token], Tokens(u, a[lexeme.width..]).value, Tokens(u, b));
      }
    }
  }

  // ---- Printing ----

  function EscapeChar(quote: char, ch: char): string
  {
    if ch == quote || ch == '\\' then [ch, ch] else [ch]
  }

  function Escape(quote: char, text: string): string
  {
    if text == "" then "" else EscapeChar(quote, text[0]) + Escape(quote, text[1..])
  }

  function Render(t: Token): string
  {
    match t
    case Str(text) => ['\''] + (Escape('\'', text) + ['\''])
    case Ident(name) => ['`'] + (Escape('`', name) + ['`'])
    case Punct(ch) => [ch]
  }

  /** One token a line. */
  function Print(ts: seq<Token>): string
  {
    if ts == [] then "" else Render(ts[0]) + ("\n" + Print(ts[1..]))
  }

  /** The tokens the lexer can produce: identifiers in lower case, punctuation that is nothing else. */
  predicate Printable(u: Chars, t: Token)
  {
    match t
    case Str(_) => true
    case Ident(name) => u.toLower(name) == name
    case Punct(ch) => !u.isWhitespace(ch) && !IsQuote(ch) && !IsWord(u, ch)
  }

  lemma EscapedCharReads(quote: char, ch: char, rest: string)
    requires IsQuote(quote)
    ensures ReadLiteral(quote, EscapeChar(quote, ch) + rest)
         == Longer([ch], |EscapeChar(quote, ch)|, ReadLiteral(quote, rest))
  {
    var s := EscapeChar(quote, ch) + rest;
    assert s[|EscapeChar(quote, ch)|..] == rest;
  }

  lemma {:induction false} EscapeReadsBack(quote: char, text: string)
    requires IsQuote(quote)
    ensures ReadLiteral(quote, Escape(quote, text) + [quote]) == Some(Literal(text, |Escape(quote, text)| + 1))
  {
    if text == "" {
      assert Escape(quote, text) + [quote] == [quote];
    } else {
      var rest := Escape(quote, text[1..]) + [quote];
      EscapeReadsBack(quote, text[1..]);
      EscapedCharReads(quote, text[0], rest);
      assert Escape(quote, text) + [quote] == EscapeChar(quote, text[0]) + rest;
      assert text == [text[0]] + text[1..];
    }
  }

  lemma LiteralReadsBack(u: Chars, quote: char, text: string)
    requires Sane(u) && IsQuote(quote)
    ensures Tokens(u, [quote] + (Escape(quote, text) + [quote]))
         == Some([if quote == '\'' then Str(text) else Ident(u.toLower(text))])
  {
    var s := [quote] + (Escape(quote, text) + [quote]);
    EscapeReadsBack(quote, text);
    assert s[1..] == Escape(quote, text) + [quote];
    assert s[0] == quote && !u.isWhitespace(quote);
    var t := if quote == '\'' then Str(text) else Ident(u.toLower(text));
    assert Next(u, s) == Emit(t, |s|);
    assert s[|s|..] == "";
    assert [t] + [] == [t];
  }

  lemma RenderReadsBack(u: Chars, t: Token)
    requires Sane(u) && Printable(u, t)
    ensures Tokens(u, Render(t)) == Some([t])
  {
    match t
    case Str(text) => LiteralReadsBack(u, '\'', text);
    case Ident(name) => LiteralReadsBack(u, '`', name);
    case Punct(ch) =>
      var s := Render(t);
      assert Next(u, s) == Emit(t, 1);
      assert s[1..] == "";
      assert [t] + [] == [t];
  }

  /** Round trip: printed tokens read back as themselves, for every literal content. */
  lemma {:induction false} PrintReadsBack(u: Chars, ts: seq<Token>)
    requires Sane(u) && forall i :: 0 <= i < |ts| ==> Printable(u, ts[i])
    ensures Tokens(u, Print(ts)) == Some(ts)
  {
    if ts != [] {
      RenderReadsBack(u, ts[0]);
      PrintReadsBack(u, ts[1..]);
      TokensCompose(u, Render(ts[0]), Print(ts[1..]));
      assert ts == [ts[0]] + ts[1..];
    }
  }

  ghost predicate Idempotent(u: Chars)
  {
    forall s {:trigger u.toLower(u.toLower(s))} :: u.toLower(u.toLower(s)) == u.toLower(s)
  }

  lemma NextIsPrintable(u: Chars, s: string)
    requires Idempotent(u) && s != "" && Next(u, s).Emit?
    ensures Printable(u, Next(u, s).token)
  {
  }

  lemma {:induction false} TokensArePrintable(u: Chars, s: string)
    requires Idempotent(u) && Tokens(u, s).Some?
    ensures forall i :: 0 <= i < |Tokens(u, s).value| ==> Printable(u, Tokens(u, s).value[i])
    decreases |s|
  {
    if s != "" {
      var lexeme := Next(u, s);
      TokensArePrintable(u, s[lexeme.width..]);
      if lexeme.Emit? {
        NextIsPrintable(u, s);
      }
    }
  }

  /** The printed tokens of a text are a normal form of it: they tokenise to the same tokens. */
  lemma PrintIsNormalForm(u: Chars, s: string)
    requires Sane(u) && Idempotent(u) && Tokens(u, s).Some?
    ensures Tokens(u, Print(Tokens(u, s).value)) == Tokens(u, s)
  {
    TokensArePrintable(u, s);
    PrintReadsBack(u, Tokens(u, s).value);
  }
}
