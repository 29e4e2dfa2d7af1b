/** How descriptors may stand in a text: the parser object of src/sdl/parser.rs accepts
    exactly the texts described here, with the descriptors they are said to spell. */
module SdlLayout {
  import opened Prim
  import opened Text
  import opened SdlTypes
  import opened SdlTokens
  import opened SdlGrammar
  import opened SdlParser
  import opened SdlSpelling

  // ===== tokens as bytes =====

  predicate Digit(b: u8) {
    '0' as int <= b <= '9' as int
  }

  predicate Letter(b: u8) {
    'A' as int <= b <= 'Z' as int || 'a' as int <= b <= 'z' as int || b == '_' as int
  }

  predicate WordByte(b: u8) {
    Letter(b) || Digit(b) || b == '-' as int
  }

  predicate Bracket(b: u8) {
    b as char in "()[]{}=,;"
  }

  predicate Blank(b: u8) {
    b as char in " \t\r"
  }

  predicate Same(text: string, b: bytes) {
    |text| == |b| && forall i :: 0 <= i < |b| ==> text[i] as int == b[i]
  }

  /** The bytes are a way to write the token. */
  predicate Writes(b: bytes, t: Token)
    requires b != []
  {
    match t
    case Number(text) =>
      && Same(text, b) && (Digit(b[0]) || b[0] == '-' as int)
      && forall i :: 0 < i < |b| ==> Digit(b[i]) || b[i] == '.' as int
    case Identifier(name) => Same(name, b) && Letter(b[0]) && forall i :: 0 < i < |b| ==> WordByte(b[i])
    case TypeReference(name) =>
      |b| >= 2 && b[0] == '$' as int && Same(name, b[1..]) && forall i :: 0 < i < |b| ==> WordByte(b[i])
    case StringLiteral(value) =>
      && |b| >= 2 && b[0] == '"' as int && b[|b| - 1] == '"' as int
      && '"' as int !in b[1..|b| - 1] && value == FromUtf8(b[1..|b| - 1])
    case Symbol(c) => |b| == 1 && c as int == b[0] && Bracket(b[0])
    case Invalid(c) =>
      && |b| == 1 && c as int == b[0] && b[0] != '"' as int
      && !Digit(b[0]) && b[0] != '-' as int && !Letter(b[0]) && !Bracket(b[0])
    case IncompleteString => b[0] == '"' as int && '"' as int !in b[1..]
  }

  /** The token would take this byte too. */
  predicate Continues(t: Token, b: u8) {
    match t
    case Number(_) => Digit(b) || b == '.' as int
    case Identifier(_) => WordByte(b)
    case TypeReference(_) => WordByte(b)
    case Invalid(c) => c == '$' && WordByte(b)
    case IncompleteString => true
    case _ => false
  }

  // ===== tokens on a line =====

  /** The line, without its newline, holds these tokens at these places, with blanks
      between them and a comment at the end if there is one. */
  ghost predicate LineReads(s: bytes, line: nat, column: nat, ts: seq<Located>)
    decreases |s|
  {
    if s == [] || s[0] == '#' as int then ts == []
    else if Blank(s[0]) then LineReads(s[1..], line, column + 1, ts)
    else
      && ts != [] && ts[0].at == Location(line, column + 1)
      && exists n :: 1 <= n <= |s| && Takes(s, ts[0].token, n) && LineReads(s[n..], line, column + n, ts[1..])
  }

  /** The token takes the first `n` bytes and no more. */
  predicate Takes(s: bytes, t: Token, n: nat)
    requires 1 <= n <= |s|
  {
    Writes(s[..n], t) && (n < |s| ==> !Continues(t, s[n]))
  }

  /** The text holds these tokens, line by line; the last line may lack its newline. */
  ghost predicate TextReads(s: bytes, line: nat, ts: seq<Located>)
    decreases |s|
  {
    if '\n' as int !in s then LineReads(s, line + 1, 0, ts)
    else exists n, k :: 0 <= n < |s| && FirstLine(s, n) && 0 <= k <= |ts| && LineReads(s[..n], line + 1, 0, ts[..k])
                        && TextReads(s[n + 1..], line + 1, ts[k..])
  }

  predicate FirstLine(s: bytes, n: nat)
    requires n < |s|
  {
    s[n] == '\n' as int && '\n' as int !in s[..n]
  }

  /** The text spells these descriptors. */
  ghost predicate Says(fl: Floats, text: bytes, ds: seq<StateDescriptor>) {
    exists ts :: TextReads(text, 0, ts) && Spells(fl, Strip(ts), ds)
  }

  // ===== one token =====

  lemma Classes(b: u8)
    ensures Digit(b) == IsDigit(b) && (Letter(b) <==> IsLetter(b) || b == 95)
    ensures WordByte(b) == InIdentifier(b) && Bracket(b) == IsSymbol(b)
    ensures Blank(b) <==> IsSpace(b) && b != NEWLINE
  {
  }

  lemma {:induction false} SpanIs(a: bytes, b: bytes, p: u8 -> bool)
    requires (forall i :: 0 <= i < |a| ==> p(a[i])) && (b != [] ==> !p(b[0]))
    ensures Span(a + b, p) == |a|
  {
    if a == [] {
      assert a + b == b;
    } else {
      assert (a + b)[1..] == a[1..] + b;
      SpanIs(a[1..], b, p);
    }
  }

  /** The end of a line: its newline, or nothing. */
  predicate LineEnd(tail: bytes) {
    tail == [] || tail == [NEWLINE]
  }

  /** The bytes that a token begins with: not a blank, and not a comment. */
  predicate Begins(s: bytes) {
    s != [] && NEWLINE !in s && !Blank(s[0]) && s[0] != HASH
  }

  lemma SpanIff(u: bytes, tail: bytes, p: u8 -> bool, n: nat)
    requires LineEnd(tail) && !p(NEWLINE) && n <= |u|
    ensures Span(u + tail, p) == n <==> (forall i :: 0 <= i < n ==> p(u[i])) && (n < |u| ==> !p(u[n]))
  {
    hide Span;
    var s, m := u + tail, Span(u + tail, p);
    if m == n {
      assert forall i :: 0 <= i < n ==> u[i] == s[i];
    }
    if (forall i :: 0 <= i < n ==> p(u[i])) && (n < |u| ==> !p(u[n])) {
      assert n < |s| ==> !p(s[n]);
      assert s == s[..n] + s[n..];
      SpanIs(s[..n], s[n..], p);
    }
  }

  lemma SameIff(text: string, b: bytes)
    ensures Same(text, b) <==> text == FromLatin1(b)
  {
  }

  /** The token and the number of bytes of the line that the tokenizer gives it. */
  function FirstToken(s: bytes, tail: bytes): (Token, nat)
    requires s != []
  {
    var (t, n) := Lex(s + tail);
    (t, if t.IncompleteString? then |s| else n)
  }

  lemma NumberIff(s: bytes, tail: bytes, t: Token, n: nat)
    requires Begins(s) && LineEnd(tail) && 1 <= n <= |s| && StartsNumber(s[0])
    ensures Takes(s, t, n) <==> FirstToken(s, tail) == (t, n)
  {
    hide FromUtf8, Span, FromLatin1;
    assert (s + tail)[1..] == s[1..] + tail && (s + tail)[..n] == s[..n];
    SpanIff(s[1..], tail, InNumber, n - 1);
    SameIff(if t.Number? then t.text else "", s[..n]);
    Classes(s[0]);
  }

  lemma WordIff(s: bytes, tail: bytes, t: Token, n: nat)
    requires Begins(s) && LineEnd(tail) && 1 <= n <= |s| && Letter(s[0])
    ensures Takes(s, t, n) <==> FirstToken(s, tail) == (t, n)
  {
    hide FromUtf8, Span, FromLatin1;
    assert (s + tail)[1..] == s[1..] + tail && (s + tail)[..n] == s[..n];
    SpanIff(s[1..], tail, InIdentifier, n - 1);
    SameIff(if t.Identifier? then t.name else "", s[..n]);
    Classes(s[0]);
  }

  lemma ReferenceIff(s: bytes, tail: bytes, t: Token, n: nat)
    requires Begins(s) && LineEnd(tail) && 1 <= n <= |s| && s[0] == DOLLAR
    ensures Takes(s, t, n) <==> FirstToken(s, tail) == (t, n)
  {
    hide FromUtf8, Span, FromLatin1;
    assert (s + tail)[1..] == s[1..] + tail && (s + tail)[1..n] == s[1..n];
    SpanIff(s[1..], tail, InIdentifier, n - 1);
    SameIff(if t.TypeReference? then t.name else "", s[1..n]);
    Classes(s[0]);
  }

  /** What a quotation mark begins is a string literal, or one that lacks its end. */
  lemma QuoteTakes(s: bytes, t: Token, n: nat)
    requires Begins(s) && 1 <= n <= |s| && s[0] == QUOTE
    ensures Takes(s, t, n) <==>
              || (&& t.StringLiteral? && n >= 2 && s[n - 1] == QUOTE && QUOTE !in s[1..n - 1]
                  && t.value == FromUtf8(s[1..n - 1]))
              || (t.IncompleteString? && n == |s| && QUOTE !in s[1..])
  {
    hide FromUtf8;
    Classes(s[0]);
    assert s[..n][1..] == s[1..n] && (n == |s| ==> s[..n] == s);
    if n >= 2 {
      assert s[..n][1..n - 1] == s[1..n - 1];
    }
  }

  lemma StringIff(s: bytes, tail: bytes, t: Token, n: nat)
    requires Begins(s) && LineEnd(tail) && 1 <= n <= |s| && s[0] == QUOTE
    ensures Takes(s, t, n) <==> FirstToken(s, tail) == (t, n)
  {
    hide FromUtf8, Span, FromLatin1, Takes;
    QuoteTakes(s, t, n);
    var u, m := s[1..] + tail, Span(s[1..] + tail, NotQuote);
    NoQuoteBefore(s, tail);
    if m < |u| {
      FirstQuote(s, m + 1, n);
      assert (s + tail)[1..m + 1] == s[1..m + 1];
    }
  }

  lemma NoQuoteBefore(s: bytes, tail: bytes)
    requires s != [] && LineEnd(tail)
    ensures var u := s[1..] + tail;
            var m := Span(u, NotQuote);
            && u == (s + tail)[1..]
            && (forall i :: 1 <= i <= m && i < |s| ==> s[i] != QUOTE)
            && (if m < |u| then m + 1 < |s| && s[m + 1] == QUOTE else QUOTE !in s[1..])
  {
    hide Span;
    var u := s[1..] + tail;
    var m := Span(u, NotQuote);
    forall i | 1 <= i <= m && i < |s|
      ensures s[i] != QUOTE
    {
      assert NotQuote(u[i - 1]) && u[i - 1] == s[i];
    }
  }

  lemma FirstQuote(s: bytes, m: nat, n: nat)
    requires 1 <= m < |s| && s[m] == QUOTE && (forall i :: 1 <= i < m ==> s[i] != QUOTE) && 1 <= n <= |s|
    ensures QUOTE in s[1..]
    ensures n >= 2 && s[n - 1] == QUOTE && QUOTE !in s[1..n - 1] <==> n == m + 1
  {
    assert s[1..][m - 1] == QUOTE;
    if n > m + 1 {
      assert s[1..n - 1][m - 1] == QUOTE;
    }
  }

  lemma OtherIff(s: bytes, tail: bytes, t: Token, n: nat)
    requires Begins(s) && LineEnd(tail) && 1 <= n <= |s|
    requires !StartsNumber(s[0]) && !Letter(s[0]) && s[0] != DOLLAR && s[0] != QUOTE
    ensures Takes(s, t, n) <==> FirstToken(s, tail) == (t, n)
  {
    hide FromUtf8, Span, FromLatin1;
    Classes(s[0]);
  }

  /** The tokenizer takes the token that the bytes write, and all of it. */
  lemma TakesIff(s: bytes, tail: bytes, t: Token, n: nat)
    requires Begins(s) && LineEnd(tail) && 1 <= n <= |s|
    ensures Takes(s, t, n) <==> FirstToken(s, tail) == (t, n)
  {
    hide Takes, FirstToken;
    if StartsNumber(s[0]) {
      NumberIff(s, tail, t, n);
    } else if Letter(s[0]) {
      WordIff(s, tail, t, n);
    } else if s[0] == DOLLAR {
      ReferenceIff(s, tail, t, n);
    } else if s[0] == QUOTE {
      StringIff(s, tail, t, n);
    } else {
      OtherIff(s, tail, t, n);
    }
  }

  lemma TokenFits(s: bytes, tail: bytes)
    requires Begins(s) && LineEnd(tail)
    ensures 1 <= FirstToken(s, tail).1 <= |s|
  {
    hide FromUtf8, Span, FromLatin1;
    var u := s[1..] + tail;
    assert (s + tail)[1..] == u;
    if tail != [] {
      assert u[|s| - 1] == NEWLINE;
    }
  }

  // ===== one line =====

  lemma {:induction false} LineIff(s: bytes, tail: bytes, line: nat, column: nat, ts: seq<Located>)
    requires NEWLINE !in s && LineEnd(tail)
    ensures LineReads(s, line, column, ts) <==> LineTokens(s + tail, line, column) == ts
    decreases |s|
  {
    hide Takes, FirstToken, Lex;
    if s == [] || s[0] == HASH {
      assert [NEWLINE][1..] == [];
    } else if Blank(s[0]) {
      Classes(s[0]);
      assert (s + tail)[1..] == s[1..] + tail;
      LineIff(s[1..], tail, line, column + 1, ts);
    } else {
      var (t, n) := FirstToken(s, tail);
      TokenStep(s, tail, line, column);
      if ts != [] {
        LineIff(s[n..], tail, line, column + n, ts[1..]);
        forall m | 1 <= m <= |s|
          ensures Takes(s, ts[0].token, m) <==> ts[0].token == t && m == n
        {
          TakesIff(s, tail, ts[0].token, m);
        }
        assert ts == [ts[0]] + ts[1..];
      }
    }
  }

  lemma TokenStep(s: bytes, tail: bytes, line: nat, column: nat)
    requires Begins(s) && LineEnd(tail)
    ensures var (t, n) := FirstToken(s, tail);
            && 1 <= n <= |s|
            && LineTokens(s + tail, line, column)
               == [Located(t, Location(line, column + 1))] + LineTokens(s[n..] + tail, line, column + n)
  {
    hide Lex;
    Classes(s[0]);
    TokenFits(s, tail);
    var (t, n) := FirstToken(s, tail);
    if t.IncompleteString? {
      assert s[n..] + tail == tail;
      assert [NEWLINE][1..] == [];
    } else {
      assert (s + tail)[n..] == s[n..] + tail;
    }
  }

  // ===== the whole text =====

  lemma LineLengthIs(s: bytes, n: nat)
    requires n < |s| && FirstLine(s, n)
    ensures LineLength(s) == n + 1
  {
    assert s == s[..n] + s[n..];
    assert forall i :: 0 <= i < n ==> s[i] in s[..n];
    SpanIs(s[..n], s[n..], NotNewline);
  }

  lemma LastLineLength(s: bytes)
    requires s != [] && NEWLINE !in s
    ensures LineLength(s) == |s|
  {
    assert s == s + [];
    SpanIs(s, [], NotNewline);
  }

  lemma FirstLineAt(s: bytes) returns (n: nat)
    requires NEWLINE in s
    ensures n < |s| && FirstLine(s, n)
  {
    n := Span(s, NotNewline);
  }

  lemma LinesStep(s: bytes, n: nat, line: nat)
    requires n < |s| && FirstLine(s, n)
    ensures Tokens(s, line) == LineTokens(s[..n] + [NEWLINE], line + 1, 0) + Tokens(s[n + 1..], line + 1)
  {
    hide LineTokens, LineLength;
    LineLengthIs(s, n);
    assert s[..n + 1] == s[..n] + [NEWLINE];
  }

  /** A text holds exactly the tokens, at their places, that the tokenizer finds. */
  lemma {:induction false} TokensIff(s: bytes, line: nat, ts: seq<Located>)
    ensures TextReads(s, line, ts) <==> Tokens(s, line) == ts
    decreases |s|
  {
    hide LineReads, LineTokens;
    if NEWLINE !in s {
      LineIff(s, [], line + 1, 0, ts);
      LastLine(s, line);
    } else {
      hide Tokens, TextReads;
      if TextReads(s, line, ts) {
        ReadTokens(s, line, ts);
      }
      if Tokens(s, line) == ts {
        TokensRead(s, line);
      }
    }
  }

  lemma {:induction false} ReadTokens(s: bytes, line: nat, ts: seq<Located>)
    requires NEWLINE in s && TextReads(s, line, ts)
    ensures Tokens(s, line) == ts
    decreases |s|, 0
  {
    hide LineReads, LineTokens, FirstLine, Tokens;
    var n, k :| 0 <= n < |s| && FirstLine(s, n) && 0 <= k <= |ts| && LineReads(s[..n], line + 1, 0, ts[..k])
                && TextReads(s[n + 1..], line + 1, ts[k..]);
    hide TextReads;
    LinesStep(s, n, line);
    NoNewlineIn(s, n);
    LineIff(s[..n], [NEWLINE], line + 1, 0, ts[..k]);
    TokensIff(s[n + 1..], line + 1, ts[k..]);
    assert ts == ts[..k] + ts[k..];
  }

  lemma NoNewlineIn(s: bytes, n: nat)
    requires n < |s| && FirstLine(s, n)
    ensures NEWLINE !in s[..n]
  {
  }

  lemma {:induction false} TokensRead(s: bytes, line: nat)
    requires NEWLINE in s
    ensures TextReads(s, line, Tokens(s, line))
    decreases |s|, 0
  {
    hide LineReads, LineTokens, FirstLine, Tokens;
    var n := FirstLineAt(s);
    LinesStep(s, n, line);
    NoNewlineIn(s, n);
    var first, rest := LineTokens(s[..n] + [NEWLINE], line + 1, 0), Tokens(s[n + 1..], line + 1);
    LineIff(s[..n], [NEWLINE], line + 1, 0, first);
    TokensIff(s[n + 1..], line + 1, rest);
    var ts, k := Tokens(s, line), |first|;
    assert ts[..k] == first && ts[k..] == rest;
  }

  lemma LastLine(s: bytes, line: nat)
    requires NEWLINE !in s
    ensures Tokens(s, line) == LineTokens(s + [], line + 1, 0)
  {
    hide LineLength;
    assert s + [] == s;
    if s != [] {
      LastLineLength(s);
      assert s[..|s|] == s && s[|s|..] == [];
    }
  }

  /** The parser accepts exactly the texts that spell some descriptors, with those. */
  lemma ParsesIffSaid(fl: Floats, text: bytes, ds: seq<StateDescriptor>)
    ensures Parse(fl, Tokens(text, 0), []) == Found(ds, []) <==> Says(fl, text, ds)
  {
    hide Parse, Tokens, TextReads, Spells;
    var ts := Tokens(text, 0);
    ParsesIffSpelled(fl, ts, ds);
    TokensIff(text, 0, ts);
    if Says(fl, text, ds) {
      var us :| TextReads(text, 0, us) && Spells(fl, Strip(us), ds);
      TokensIff(text, 0, us);
    }
  }

  /** The parser object on a whole text. */
  method ParseText(fl: Floats, text: bytes) returns (r: Answer<seq<StateDescriptor>>)
    ensures r.Accepted? ==> Says(fl, text, r.value)
    ensures r.Rejected? ==> forall ds :: !Says(fl, text, ds)
  {
    hide Parse, Tokens, Says;
    var parser := new Parser(text, fl);
    r := parser.ParseText();
    forall ds
      ensures Parse(fl, Tokens(text, 0), []) == Found(ds, []) <==> Says(fl, text, ds)
    {
      ParsesIffSaid(fl, text, ds);
    }
  }
}
