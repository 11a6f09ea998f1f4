/** The warm-tier SQL lexer (`tokenize` in guard.rs). */
module SqlLexer {
  import opened Wrappers

  /** Rust's Unicode tables, of which only `Sane` is assumed. */
  datatype Chars = Chars(
    isWhitespace: char -> bool,
    isAlphanumeric: char -> bool,
    toLower: string -> string)

  predicate IsQuote(ch: char)
  {
    ch == '\'' || ch == '"' || ch == '`'
  }

  predicate IsWord(u: Chars, ch: char)
  {
    u.isAlphanumeric(ch) || ch == '_'
  }

  /** A newline is white space, no quote is, and neither is a letter or digit. */
  ghost predicate Sane(u: Chars)
  {
    && u.isWhitespace('\n')
    && !u.isAlphanumeric('\n')
    && (forall ch :: IsQuote(ch) ==> !u.isWhitespace(ch) && !u.isAlphanumeric(ch))
  }

  datatype Token = Ident(name: string) | Str(text: string) | Punct(ch: char)

  datatype Lexeme = Skip(width: nat) | Emit(token: Token, width: nat) | Unterminated

  // ---- The lexer as a function of the remaining text ----

  /** Length of a line comment: up to the newline, which it leaves, or to the end. */
  function LineLength(s: string): (n: nat)
    ensures n <= |s|
  {
    if s == "" || s[0] == '\n' then 0 else 1 + LineLength(s[1..])
  }

  /** Distance to just after the first closing of a block comment. */
  function CommentLength(s: string): (n: Option<nat>)
    ensures n.Some? ==> 2 <= n.value <= |s|
  {
    if |s| < 2 then None
    else if s[0] == '*' && s[1] == '/' then Some(2)
    else match CommentLength(s[1..]) case Some(n) => Some(n + 1) case None => None
  }

  function WordLength(u: Chars, s: string): (n: nat)
    ensures n <= |s|
  {
    if s == "" || !IsWord(u, s[0]) then 0 else 1 + WordLength(u, s[1..])
  }

  /** The decoded text of a literal and the width of its remainder, closing quote included. */
  datatype Literal = Literal(text: string, width: nat)

  function Longer(text: string, width: nat, rest: Option<Literal>): Option<Literal>
  {
    match rest
    case Some(l) => Some(Literal(text + l.text, width + l.width))
    case None => None
  }

  lemma LongerTwice(a: string, m: nat, b: string, n: nat, r: Option<Literal>)
    ensures Longer(a, m, Longer(b, n, r)) == Longer(a + b, m + n, r)
    ensures Longer("", 0, r) == r
  {
    if r.Some? {
      assert a + (b + r.value.text) == (a + b) + r.value.text;
      assert "" + r.value.text == r.value.text;
    }
  }

  /** Read a literal after its opening quote: a backslash takes the next character, a doubled quote is one. */
  function ReadLiteral(quote: char, s: string): (r: Option<Literal>)
    ensures r.Some? ==> 1 <= r.value.width <= |s|
  {
    if s == "" then None
    else if s[0] == '\\' then
      if |s| == 1 then None else Longer([s[1]], 2, ReadLiteral(quote, s[2..]))
    else if s[0] == quote then
      if |s| > 1 && s[1] == quote then Longer([quote], 2, ReadLiteral(quote, s[2..]))
      else Some(Literal("", 1))
    else Longer([s[0]], 1, ReadLiteral(quote, s[1..]))
  }

  /** What stands at the front of the remaining text. */
  function Next(u: Chars, s: string): (r: Lexeme)
    requires s != ""
    ensures !r.Unterminated? ==> 1 <= r.width <= |s|
  {
    var c := s[0];
    if u.isWhitespace(c) then Skip(1)
    else if c == '-' && |s| > 1 && s[1] == '-' then Skip(2 + LineLength(s[2..]))
    else if c == '/' && |s| > 1 && s[1] == '*' then
      match CommentLength(s[2..]) case Some(n) => Skip(2 + n) case None => Unterminated
    else if IsQuote(c) then
      match ReadLiteral(c, s[1..])
      case Some(l) => Emit(if c == '\'' then Str(l.text) else Ident(u.toLower(l.text)), 1 + l.width)
      case None => Unterminated
    else if IsWord(u, c) then
      var n := 1 + WordLength(u, s[1..]);
      Emit(Ident(u.toLower(s[..n])), n)
    else Emit(Punct(c), 1)
  }

  /** All tokens of the text, or `Unterminated`. */
  function Tokens(u: Chars, s: string): Option<seq<Token>>
    decreases |s|
  {
    if s == "" then Some([])
    else match Next(u, s)
      case Unterminated => None
      case Skip(n) => Tokens(u, s[n..])
      case Emit(t, n) => Joined([t], Tokens(u, s[n..]))
  }

  function Joined(a: seq<Token>, b: Option<seq<Token>>): Option<seq<Token>>
  {
    match b case Some(ts) => Some(a + ts) case None => None
  }

  lemma JoinedTwice(a: seq<Token>, b: seq<Token>, r: Option<seq<Token>>)
    ensures Joined(a, Joined(b, r)) == Joined(a + b, r)
    ensures Joined([], r) == r
  {
    if r.Some? {
      assert a + (b + r.value) == (a + b) + r.value;
      assert [] + r.value == r.value;
    }
  }

  // ---- The index-based loops ----

  method SkipLine(chars: string, start: nat) returns (i: nat)
    requires start <= |chars|
    ensures i == start + LineLength(chars[start..]) && i <= |chars|
  {
    i := start;
    while i < |chars| && chars[i] != '\n'
      invariant start <= i <= |chars|
      invariant LineLength(chars[start..]) == (i - start) + LineLength(chars[i..])
    {
      assert chars[i..][1..] == chars[i + 1..];
      i := i + 1;
    }
  }

  method FindCommentEnd(chars: string, start: nat) returns (end: Option<nat>)
    requires start <= |chars|
    ensures end == match CommentLength(chars[start..]) case Some(n) => Some(start + n) case None => None
  {
    var j := start;
    while j + 1 < |chars|
      invariant start <= j <= |chars|
      invariant CommentLength(chars[start..]) ==
        match CommentLength(chars[j..]) case Some(n) => Some((j - start) + n) case None => None
    {
      if chars[j] == '*' && chars[j + 1] == '/' {
        return Some(j + 2);
      }
      assert chars[j..][1..] == chars[j + 1..];
      j := j + 1;
    }
    return None;
  }

  /** One step of the literal reader, by index. */
  lemma LiteralStep(quote: char, chars: string, j: nat)
    requires j < |chars|
    ensures var r := ReadLiteral(quote, chars[j..]);
            if chars[j] == '\\' then
              if j + 1 >= |chars| then r == None
              else r == Longer([chars[j + 1]], 2, ReadLiteral(quote, chars[j + 2..]))
            else if chars[j] == quote then
              if j + 1 < |chars| && chars[j + 1] == quote then r == Longer([quote], 2, ReadLiteral(quote, chars[j + 2..]))
              else r == Some(Literal("", 1))
            else r == Longer([chars[j]], 1, ReadLiteral(quote, chars[j + 1..]))
  {
    var rest := chars[j..];
    assert rest[1..] == chars[j + 1..];
    assert |rest| > 1 ==> rest[2..] == chars[j + 2..];
  }

  /** One more character has been read: `text` and `j` have moved over it. */
  lemma LiteralAdvances(quote: char, chars: string, start: nat, j: nat, text: string, whole: Option<Literal>)
    requires start <= j < |chars| && whole == Longer(text, j - start, ReadLiteral(quote, chars[j..]))
    ensures if chars[j] == '\\' then
              if j + 1 >= |chars| then whole == None
              else whole == Longer(text + [chars[j + 1]], j + 2 - start, ReadLiteral(quote, chars[j + 2..]))
            else if chars[j] == quote then
              if j + 1 < |chars| && chars[j + 1] == quote then
                whole == Longer(text + [quote], j + 2 - start, ReadLiteral(quote, chars[j + 2..]))
              else whole == Some(Literal(text, j + 1 - start))
            else whole == Longer(text + [chars[j]], j + 1 - start, ReadLiteral(quote, chars[j + 1..]))
  {
    LiteralStep(quote, chars, j);
    if chars[j] == '\\' {
      if j + 1 < |chars| {
        LongerTwice(text, j - start, [chars[j + 1]], 2, ReadLiteral(quote, chars[j + 2..]));
      }
    } else if chars[j] == quote {
      if j + 1 < |chars| && chars[j + 1] == quote {
        LongerTwice(text, j - start, [quote], 2, ReadLiteral(quote, chars[j + 2..]));
      } else {
        assert text + "" == text;
      }
    } else {
      LongerTwice(text, j - start, [chars[j]], 1, ReadLiteral(quote, chars[j + 1..]));
    }
  }

  method ScanLiteral(chars: string, quote: char, start: nat) returns (r: Option<Literal>)
    requires start <= |chars|
    ensures r == ReadLiteral(quote, chars[start..])
  {
    var text := "";
    var j := start;
    ghost var whole := ReadLiteral(quote, chars[start..]);
    LongerTwice("", 0, "", 0, whole);
    while j < |chars|
      invariant start <= j <= |chars|
      invariant whole == Longer(text, j - start, ReadLiteral(quote, chars[j..]))
    {
      LiteralAdvances(quote, chars, start, j, text, whole);
      if chars[j] == '\\' {
        if j + 1 >= |chars| {
          return None;
        }
        text := text + [chars[j + 1]];
        j := j + 2;
      } else if chars[j] == quote {
        if j + 1 < |chars| && chars[j + 1] == quote {
          text := text + [quote];
          j := j + 2;
        } else {
          return Some(Literal(text, j + 1 - start));
        }
      } else {
        text := text + [chars[j]];
        j := j + 1;
      }
    }
    return None;
  }

  method ScanWord(u: Chars, chars: string, start: nat) returns (i: nat)
    requires start <= |chars|
    ensures i == start + WordLength(u, chars[start..]) && i <= |chars|
  {
    i := start;
    while i < |chars| && IsWord(u, chars[i])
      invariant start <= i <= |chars|
      invariant WordLength(u, chars[start..]) == (i - start) + WordLength(u, chars[i..])
    {
      assert chars[i..][1..] == chars[i + 1..];
      i := i + 1;
    }
  }

  /** The branches of the main loop. */
  method LexAt(u: Chars, chars: string, i: nat) returns (r: Lexeme)
    requires i < |chars|
    ensures r == Next(u, chars[i..])
  {
    var c := chars[i];
    ghost var rest := chars[i..];
    assert rest[1..] == chars[i + 1..];
    assert |rest| > 1 ==> rest[2..] == chars[i + 2..];
    if u.isWhitespace(c) {
      return Skip(1);
    } else if c == '-' && i + 1 < |chars| && chars[i + 1] == '-' {
      var end := SkipLine(chars, i + 2);
      return Skip(end - i);
    } else if c == '/' && i + 1 < |chars| && chars[i + 1] == '*' {
      var end := FindCommentEnd(chars, i + 2);
      return if end.Some? then Skip(end.value - i) else Unterminated;
    } else if IsQuote(c) {
      var literal := ScanLiteral(chars, c, i + 1);
      if literal.None? {
        return Unterminated;
      }
      var text := literal.value.text;
      return Emit(if c == '\'' then Str(text) else Ident(u.toLower(text)), 1 + literal.value.width);
    } else if IsWord(u, c) {
      var end := ScanWord(u, chars, i + 1);
      assert rest[..end - i] == chars[i..end];
      return Emit(Ident(u.toLower(chars[i..end])), end - i);
    } else {
      return Emit(Punct(c), 1);
    }
  }

  /** `out` has been read and `chars[i..]` is still to be read. */
  ghost predicate Pending(u: Chars, chars: string, i: nat, out: seq<Token>)
    requires i <= |chars|
  {
    Tokens(u, chars) == Joined(out, Tokens(u, chars[i..]))
  }

  lemma TokensBegin(u: Chars, chars: string)
    ensures Pending(u, chars, 0, [])
  {
    assert chars[0..] == chars;
    JoinedTwice([], [], Tokens(u, chars));
  }

  /** One more lexeme has been read. */
  lemma TokensAdvance(u: Chars, chars: string, i: nat, out: seq<Token>, lexeme: Lexeme)
    requires i < |chars| && Pending(u, chars, i, out) && lexeme == Next(u, chars[i..])
    ensures lexeme.Unterminated? ==> Tokens(u, chars) == None
    ensures !lexeme.Unterminated? ==> 1 <= lexeme.width && i + lexeme.width <= |chars|
    ensures lexeme.Skip? ==> Pending(u, chars, i + lexeme.width, out)
    ensures lexeme.Emit? ==> Pending(u, chars, i + lexeme.width, out + [lexeme.token])
  {
    if !lexeme.Unterminated? {
      assert chars[i..][lexeme.width..] == chars[i + lexeme.width..];
      if lexeme.Emit? {
        JoinedTwice(out, [lexeme.token], Tokens(u, chars[i + lexeme.width..]));
      }
    }
  }

  lemma TokensEnd(u: Chars, chars: string, out: seq<Token>)
    requires Pending(u, chars, |chars|, out)
    ensures Tokens(u, chars) == Some(out)
  {
    assert chars[|chars|..] == "" && out + [] == out;
  }

  /** `None` is `Rejection::Unterminated`. */
  method Tokenize(u: Chars, chars: string) returns (r: Option<seq<Token>>)
    ensures r == Tokens(u, chars)
  {
    var out: seq<Token> := [];
    var i := 0;
    TokensBegin(u, chars);
    while i < |chars|
      invariant 0 <= i <= |chars|
      invariant Pending(u, chars, i, out)
    {
      var lexeme := LexAt(u, chars, i);
      TokensAdvance(u, chars, i, out, lexeme);
      if lexeme.Unterminated? {
        return None;
      }
      i := i + lexeme.width;
      if lexeme.Emit? {
        out := out + [lexeme.token];
      }
    }
    TokensEnd(u, chars, out);
    return Some(out);
  }
}
