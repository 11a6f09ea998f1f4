/**
 What a text means to the warm tier's lexer, as a grammar: a text is a row of pieces, and its tokens
 are those of its words, literals and marks. `TokensIff` proves the lexer to be its parser.
 */
module SqlPieces {
  import opened Wrappers
  import opened SqlLexer

  /** One character of a literal: as it is, after a backslash, or as a doubled quote. */
  datatype Part = Plain(ch: char) | Slashed(ch: char) | Doubled

  datatype Piece =
    | Space(ch: char)
    | LineComment(body: string)
    | BlockComment(body: string)
    | Quoted(quote: char, parts: seq<Part>)
    | Word(text: string)
    | Mark(ch: char)

  // ---- Writing ----

  function PartText(quote: char, p: Part): string
  {
    match p
    case Plain(ch) => [ch]
    case Slashed(ch) => ['\\', ch]
    case Doubled => [quote, quote]
  }

  function PartsText(quote: char, parts: seq<Part>): string
  {
    if parts == [] then "" else PartText(quote, parts[0]) + PartsText(quote, parts[1..])
  }

  function PieceText(p: Piece): string
  {
    match p
    case Space(ch) => [ch]
    case LineComment(body) => ['-', '-'] + body
    case BlockComment(body) => ['/', '*'] + (body + ['*', '/'])
    case Quoted(quote, parts) => [quote] + (PartsText(quote, parts) + [quote])
    case Word(text) => text
    case Mark(ch) => [ch]
  }

  function Written(ps: seq<Piece>): string
  {
    if ps == [] then "" else PieceText(ps[0]) + Written(ps[1..])
  }

  // ---- Meaning ----

  /** The content of a literal. */
  function Content(quote: char, parts: seq<Part>): string
  {
    seq(|parts|, i requires 0 <= i < |parts| => if parts[i].Doubled? then quote else parts[i].ch)
  }

  /** Space and comments mean nothing. A single-quoted text is a string, any other quoted text a name. */
  function PieceTokens(u: Chars, p: Piece): seq<Token>
  {
    match p
    case Quoted(quote, parts) => [if quote == '\'' then Str(Content(quote, parts)) else Ident(u.toLower(Content(quote, parts)))]
    case Word(text) => [Ident(u.toLower(text))]
    case Mark(ch) => [Punct(ch)]
    case _ => []
  }

  function TokensOf(u: Chars, ps: seq<Piece>): seq<Token>
  {
    if ps == [] then [] else PieceTokens(u, ps[0]) + TokensOf(u, ps[1..])
  }

  // ---- Grammar ----

  predicate Starts(s: string, ch: char)
  {
    s != "" && s[0] == ch
  }

  ghost predicate ProperPart(quote: char, p: Part)
  {
    p.Plain? ==> p.ch != quote && p.ch != '\\'
  }

  ghost predicate ProperParts(quote: char, parts: seq<Part>)
  {
    forall i :: 0 <= i < |parts| ==> ProperPart(quote, parts[i])
  }

  ghost predicate ClosesNowhere(body: string)
  {
    forall i {:trigger body[i]} :: 0 <= i < |body| - 1 ==> !(body[i] == '*' && body[i + 1] == '/')
  }

  /** The piece may stand before the rest: no longer piece could be read in its place. */
  ghost predicate Fits(u: Chars, p: Piece, rest: string)
  {
    match p
    case Space(ch) => u.isWhitespace(ch)
    case LineComment(body) => '\n' !in body && (rest == "" || rest[0] == '\n')
    case BlockComment(body) => ClosesNowhere(body)
    case Quoted(quote, parts) => IsQuote(quote) && ProperParts(quote, parts) && !Starts(rest, quote)
    case Word(text) =>
      && text != "" && !u.isWhitespace(text[0])
      && (forall i :: 0 <= i < |text| ==> IsWord(u, text[i]))
      && (rest == "" || !IsWord(u, rest[0]))
    case Mark(ch) =>
      && !u.isWhitespace(ch) && !IsQuote(ch) && !IsWord(u, ch)
      && !(ch == '-' && Starts(rest, '-')) && !(ch == '/' && Starts(rest, '*'))
  }

  ghost predicate Proper(u: Chars, ps: seq<Piece>)
  {
    ps != [] ==> Fits(u, ps[0], Written(ps[1..])) && Proper(u, ps[1..])
  }

  /** Neither of the characters that open a comment is a letter or white space. */
  ghost predicate Usual(u: Chars)
  {
    Sane(u) && forall ch :: ch == '-' || ch == '/' ==> !u.isWhitespace(ch) && !u.isAlphanumeric(ch)
  }

  // ---- Every written text is read as it was meant ----

  lemma {:induction false} LineReads(body: string, rest: string)
    requires '\n' !in body && (rest == "" || rest[0] == '\n')
    ensures LineLength(body + rest) == |body|
  {
    if body == "" {
      assert body + rest == rest;
    } else {
      assert (body + rest)[1..] == body[1..] + rest;
      LineReads(body[1..], rest);
    }
  }

  lemma {:induction false} BlockReads(body: string, rest: string)
    requires ClosesNowhere(body)
    ensures CommentLength(body + (['*', '/'] + rest)) == Some(|body| + 2)
  {
    var s := body + (['*', '/'] + rest);
    if body == "" {
      assert s == ['*', '/'] + rest;
    } else {
      assert |body| > 1 ==> s[1] == body[1];
      assert |body| == 1 ==> s[1] == '*';
      assert s[1..] == body[1..] + (['*', '/'] + rest);
      forall i | 0 <= i < |body[1..]| - 1 ensures !(body[1..][i] == '*' && body[1..][i + 1] == '/') {
        assert body[1..][i] == body[i + 1];
      }
      BlockReads(body[1..], rest);
    }
  }

  lemma PartReads(quote: char, p: Part, rest: string)
    requires IsQuote(quote) && ProperPart(quote, p)
    ensures ReadLiteral(quote, PartText(quote, p) + rest) ==
            Longer([if p.Doubled? then quote else p.ch], |PartText(quote, p)|, ReadLiteral(quote, rest))
  {
    var s := PartText(quote, p) + rest;
    assert s[|PartText(quote, p)|..] == rest;
  }

  /** After its opening quote the text `s` reads as the literal. */
  ghost predicate ReadsAs(quote: char, parts: seq<Part>, s: string)
  {
    ReadLiteral(quote, s) == Some(Literal(Content(quote, parts), |PartsText(quote, parts)| + 1))
  }

  lemma {:induction false} PartsRead(quote: char, parts: seq<Part>, rest: string)
    requires IsQuote(quote) && ProperParts(quote, parts) && !Starts(rest, quote)
    ensures ReadsAs(quote, parts, PartsText(quote, parts) + ([quote] + rest))
  {
    if parts == [] {
      NoParts(quote, parts, rest);
    } else {
      PartsRead(quote, parts[1..], rest);
      OneMorePart(quote, parts, PartsText(quote, parts[1..]) + ([quote] + rest));
      TextRegroups(PartText(quote, parts[0]), PartsText(quote, parts[1..]), [quote] + rest);
    }
  }

  lemma TextRegroups(a: string, b: string, c: string)
    ensures (a + b) + c == a + (b + c)
  {
  }

  lemma NoParts(quote: char, parts: seq<Part>, rest: string)
    requires IsQuote(quote) && parts == [] && !Starts(rest, quote)
    ensures ReadsAs(quote, parts, PartsText(quote, parts) + ([quote] + rest))
  {
    var s := [quote] + rest;
    assert PartsText(quote, parts) + s == s;
    assert |s| > 1 ==> s[1] == rest[0];
    assert Content(quote, parts) == "";
  }

  lemma OneMorePart(quote: char, parts: seq<Part>, s: string)
    requires IsQuote(quote) && parts != [] && ProperPart(quote, parts[0]) && ReadsAs(quote, parts[1..], s)
    ensures ReadsAs(quote, parts, PartText(quote, parts[0]) + s)
  {
    PartReads(quote, parts[0], s);
    assert Content(quote, parts) == [if parts[0].Doubled? then quote else parts[0].ch] + Content(quote, parts[1..]);
  }

  lemma {:induction false} WordReads(u: Chars, w: string, rest: string)
    requires forall i :: 0 <= i < |w| ==> IsWord(u, w[i])
    requires rest == "" || !IsWord(u, rest[0])
    ensures WordLength(u, w + rest) == |w|
  {
    if w == "" {
      assert w + rest == rest;
    } else {
      assert (w + rest)[1..] == w[1..] + rest;
      WordReads(u, w[1..], rest);
    }
  }

  /** The lexer takes the piece, and with it the piece's tokens. */
  ghost predicate Takes(u: Chars, p: Piece, s: string)
  {
    s != "" && Next(u, s) == if PieceTokens(u, p) == [] then Skip(|PieceText(p)|) else Emit(PieceTokens(u, p)[0], |PieceText(p)|)
  }

  lemma LineIsTaken(u: Chars, p: Piece, rest: string)
    requires Usual(u) && Fits(u, p, rest) && p.LineComment?
    ensures Takes(u, p, PieceText(p) + rest)
  {
    var s := PieceText(p) + rest;
    assert s[2..] == p.body + rest;
    LineReads(p.body, rest);
  }

  lemma BlockIsTaken(u: Chars, p: Piece, rest: string)
    requires Usual(u) && Fits(u, p, rest) && p.BlockComment?
    ensures Takes(u, p, PieceText(p) + rest)
  {
    TextRegroups(p.body, ['*', '/'], rest);
    TextRegroups(['/', '*'], p.body + ['*', '/'], rest);
    BlockReads(p.body, rest);
    BlockNext(u, PieceText(p) + rest, p.body + (['*', '/'] + rest));
  }

  lemma BlockNext(u: Chars, s: string, inside: string)
    requires Usual(u) && s == ['/', '*'] + inside && CommentLength(inside).Some?
    ensures Next(u, s) == Skip(2 + CommentLength(inside).value)
  {
    assert s[2..] == inside;
  }

  lemma WordIsTaken(u: Chars, p: Piece, rest: string)
    requires Usual(u) && Fits(u, p, rest) && p.Word?
    ensures Takes(u, p, PieceText(p) + rest)
  {
    var s := p.text + rest;
    assert s[1..] == p.text[1..] + rest;
    WordReads(u, p.text[1..], rest);
    assert s[..|p.text|] == p.text;
    assert IsWord(u, p.text[0]);
  }

  lemma QuotedIsTaken(u: Chars, p: Piece, rest: string)
    requires Usual(u) && Fits(u, p, rest) && p.Quoted?
    ensures Takes(u, p, PieceText(p) + rest)
  {
    var s := PieceText(p) + rest;
    assert s[1..] == PartsText(p.quote, p.parts) + ([p.quote] + rest);
    PartsRead(p.quote, p.parts, rest);
  }

  lemma PieceIsTaken(u: Chars, p: Piece, rest: string)
    requires Usual(u) && Fits(u, p, rest)
    ensures Takes(u, p, PieceText(p) + rest)
  {
    match p
    case Space(_) =>
    case LineComment(_) => LineIsTaken(u, p, rest);
    case BlockComment(_) => BlockIsTaken(u, p, rest);
    case Quoted(_, _) => QuotedIsTaken(u, p, rest);
    case Word(_) => WordIsTaken(u, p, rest);
    case Mark(_) =>
      var s := PieceText(p) + rest;
      assert |s| > 1 ==> s[1] == rest[0];
  }

  lemma {:induction false} WrittenIsRead(u: Chars, ps: seq<Piece>)
    requires Usual(u) && Proper(u, ps)
    ensures Tokens(u, Written(ps)) == Some(TokensOf(u, ps))
  {
    if ps != [] {
      var rest := Written(ps[1..]);
      WrittenIsRead(u, ps[1..]);
      PieceIsTaken(u, ps[0], rest);
      assert Written(ps)[|PieceText(ps[0])|..] == rest;
      if PieceTokens(u, ps[0]) == [] {
        assert TokensOf(u, ps) == TokensOf(u, ps[1..]);
      } else {
        assert PieceTokens(u, ps[0]) == [PieceTokens(u, ps[0])[0]];
      }
    }
  }

  // ---- Every text that has tokens is such a row of pieces ----

  lemma {:induction false} SomeLine(s: string)
    ensures '\n' !in s[..LineLength(s)]
    ensures LineLength(s) < |s| ==> s[LineLength(s)] == '\n'
  {
    if s != "" && s[0] != '\n' {
      SomeLine(s[1..]);
      assert s[..LineLength(s)] == [s[0]] + s[1..][..LineLength(s[1..])];
    }
  }

  lemma {:induction false} SomeComment(s: string) returns (body: string)
    requires CommentLength(s).Some?
    ensures ClosesNowhere(body) && CommentLength(s) == Some(|body| + 2)
    ensures s[..|body| + 2] == body + ['*', '/']
  {
    if s[0] == '*' && s[1] == '/' {
      body := "";
    } else {
      var shorter := SomeComment(s[1..]);
      body := [s[0]] + shorter;
      assert s[1..][..|shorter| + 2] == shorter + ['*', '/'];
      assert |shorter| > 0 ==> shorter[0] == s[1];
      forall i | 0 <= i < |body| - 1 ensures !(body[i] == '*' && body[i + 1] == '/') {
        if i > 0 {
          assert body[i] == shorter[i - 1];
        }
      }
    }
  }

  lemma FirstPart(quote: char, s: string) returns (p: Part)
    requires IsQuote(quote) && ReadLiteral(quote, s).Some? && (s[0] == quote ==> |s| > 1 && s[1] == quote)
    ensures var n := |PartText(quote, p)|;
            && ProperPart(quote, p) && 0 < n <= |s| && s == PartText(quote, p) + s[n..]
            && ReadLiteral(quote, s[n..]).Some?
  {
    p := if s[0] == '\\' then Slashed(s[1]) else if s[0] == quote then Doubled else Plain(s[0]);
  }

  lemma {:induction false} SomeParts(quote: char, s: string) returns (parts: seq<Part>, rest: string)
    requires IsQuote(quote) && ReadLiteral(quote, s).Some?
    ensures ProperParts(quote, parts) && !Starts(rest, quote)
    ensures s == PartsText(quote, parts) + ([quote] + rest)
  {
    if s[0] == quote && !(|s| > 1 && s[1] == quote) {
      parts, rest := [], s[1..];
      assert s == [quote] + rest;
    } else {
      var p := FirstPart(quote, s);
      var n := |PartText(quote, p)|;
      var more;
      more, rest := SomeParts(quote, s[n..]);
      parts := [p] + more;
      PartsCons(quote, p, more);
      TextRegroups(PartText(quote, p), PartsText(quote, more), [quote] + rest);
    }
  }

  lemma PartsCons(quote: char, p: Part, more: seq<Part>)
    ensures PartsText(quote, [p] + more) == PartText(quote, p) + PartsText(quote, more)
  {
    assert ([p] + more)[1..] == more;
  }

  lemma {:induction false} SomeWord(u: Chars, s: string)
    ensures forall i :: 0 <= i < WordLength(u, s) ==> IsWord(u, s[i])
    ensures WordLength(u, s) < |s| ==> !IsWord(u, s[WordLength(u, s)])
  {
    if s != "" && IsWord(u, s[0]) {
      SomeWord(u, s[1..]);
      forall i | 0 <= i < WordLength(u, s) ensures IsWord(u, s[i]) {
        if i > 0 {
          assert s[i] == s[1..][i - 1];
        }
      }
    }
  }

  /** `s` begins with the piece. */
  ghost predicate Leads(u: Chars, p: Piece, s: string)
  {
    |PieceText(p)| <= |s| && s == PieceText(p) + s[|PieceText(p)|..] && Fits(u, p, s[|PieceText(p)|..])
  }

  lemma LeadingLine(u: Chars, s: string) returns (p: Piece)
    requires |s| > 1 && s[0] == '-' && s[1] == '-'
    ensures Leads(u, p, s)
  {
    var rest := s[2..];
    p := LineComment(rest[..LineLength(rest)]);
    SomeLine(rest);
    assert s == ['-', '-'] + rest;
    assert s[2 + LineLength(rest)..] == rest[LineLength(rest)..];
  }

  lemma LeadingBlock(u: Chars, s: string) returns (p: Piece)
    requires |s| > 1 && s[0] == '/' && s[1] == '*' && CommentLength(s[2..]).Some?
    ensures Leads(u, p, s)
  {
    var rest := s[2..];
    var body := SomeComment(rest);
    p := BlockComment(body);
    assert rest == (body + ['*', '/']) + rest[|body| + 2..];
    assert s == ['/', '*'] + rest;
  }

  lemma LeadingLiteral(u: Chars, s: string) returns (p: Piece)
    requires Usual(u) && s != "" && IsQuote(s[0]) && !Next(u, s).Unterminated?
    ensures Leads(u, p, s)
  {
    var parts, rest := SomeParts(s[0], s[1..]);
    p := Quoted(s[0], parts);
    assert s == [s[0]] + s[1..] == PieceText(p) + rest;
    assert s[|PieceText(p)|..] == rest;
  }

  lemma LeadingPiece(u: Chars, s: string) returns (p: Piece)
    requires Usual(u) && s != "" && !Next(u, s).Unterminated?
    ensures Leads(u, p, s)
  {
    var c := s[0];
    if u.isWhitespace(c) {
      p := Space(c);
    } else if |s| > 1 && c == '-' && s[1] == '-' {
      p := LeadingLine(u, s);
    } else if |s| > 1 && c == '/' && s[1] == '*' {
      p := LeadingBlock(u, s);
    } else if IsQuote(c) {
      p := LeadingLiteral(u, s);
    } else if IsWord(u, c) {
      var n := 1 + WordLength(u, s[1..]);
      p := Word(s[..n]);
      SomeWord(u, s[1..]);
      assert forall i :: 0 < i < n ==> s[i] == s[1..][i - 1];
    } else {
      p := Mark(c);
      assert |s| > 1 ==> s[1..][0] == s[1];
    }
  }

  lemma {:induction false} ReadIsWritten(u: Chars, s: string) returns (ps: seq<Piece>)
    requires Usual(u) && Tokens(u, s).Some?
    ensures Proper(u, ps) && Written(ps) == s
    decreases |s|
  {
    if s == "" {
      ps := [];
    } else {
      var p := LeadingPiece(u, s);
      var rest := s[|PieceText(p)|..];
      PieceIsTaken(u, p, rest);
      var more := ReadIsWritten(u, rest);
      ps := [p] + more;
      assert ps[1..] == more;
    }
  }

  /** The lexer is the parser of the grammar: it finds the tokens of any row of pieces, and fails on any other text. */
  lemma TokensIff(u: Chars, s: string, ts: seq<Token>)
    requires Usual(u)
    ensures Tokens(u, s) == Some(ts) <==> exists ps :: Proper(u, ps) && Written(ps) == s && TokensOf(u, ps) == ts
  {
    if Tokens(u, s) == Some(ts) {
      var ps := ReadIsWritten(u, s);
      WrittenIsRead(u, ps);
    }
    forall ps | Proper(u, ps) && Written(ps) == s && TokensOf(u, ps) == ts ensures Tokens(u, s) == Some(ts) {
      WrittenIsRead(u, ps);
    }
  }
}
