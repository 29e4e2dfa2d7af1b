/** What the tokenizer of src/sdl/parser.rs finds in a text. */
module SdlTokens {
  import opened Prim
  import opened Text

  datatype Token =
    | Number(text: string)
    | Identifier(name: string)
    | TypeReference(name: string)
    | StringLiteral(value: string)
    | Symbol(c: char)
    | Invalid(c: char)
    | IncompleteString

  datatype Location = Location(line: nat, column: nat)

  datatype Located = Located(token: Token, at: Location)

  // ===== classes of bytes =====

  const NEWLINE: u8 := 10
  const QUOTE: u8 := 34
  const HASH: u8 := 35
  const DOLLAR: u8 := 36
  const MINUS: u8 := 45

  predicate IsSpace(b: u8) {
    b == 32 || b == 9 || b == 13 || b == NEWLINE
  }

  predicate IsDigit(b: u8) {
    48 <= b <= 57
  }

  predicate IsLetter(b: u8) {
    65 <= b <= 90 || 97 <= b <= 122
  }

  predicate StartsNumber(b: u8) {
    IsDigit(b) || b == MINUS
  }

  predicate InNumber(b: u8) {
    IsDigit(b) || b == 46
  }

  predicate StartsIdentifier(b: u8) {
    IsLetter(b) || b == 95 || b == DOLLAR
  }

  predicate InIdentifier(b: u8) {
    IsLetter(b) || IsDigit(b) || b == 95 || b == MINUS
  }

  /** Parentheses, brackets, braces, `=`, `,` and `;`. */
  predicate IsSymbol(b: u8) {
    b == 40 || b == 41 || b == 91 || b == 93 || b == 123 || b == 125 || b == 61 || b == 44 || b == 59
  }

  predicate NotQuote(b: u8) {
    b != QUOTE
  }

  predicate NotNewline(b: u8) {
    b != NEWLINE
  }

  // ===== tokens of a line =====

  /** How many bytes at the front satisfy `p`. */
  function Span(s: bytes, p: u8 -> bool): (n: nat)
    ensures n <= |s| && forall i :: 0 <= i < n ==> p(s[i])
    ensures n < |s| ==> !p(s[n])
  {
    if s == [] || !p(s[0]) then 0 else 1 + Span(s[1..], p)
  }

  /** The token at the front and the number of bytes it takes. */
  function Lex(s: bytes): (r: (Token, nat))
    requires s != []
    ensures 1 <= r.1 <= |s|
  {
    var b := s[0];
    if StartsNumber(b) then
      var n := 1 + Span(s[1..], InNumber);
      (Number(FromLatin1(s[..n])), n)
    else if StartsIdentifier(b) then
      var n := 1 + Span(s[1..], InIdentifier);
      if b != DOLLAR then (Identifier(FromLatin1(s[..n])), n)
      else if n == 1 then (Invalid(b as char), n)
      else (TypeReference(FromLatin1(s[1..n])), n)
    else if IsSymbol(b) then (Symbol(b as char), 1)
    else if b == QUOTE then
      var n := 1 + Span(s[1..], NotQuote);
      if n < |s| then (StringLiteral(FromUtf8(s[1..n])), n + 1) else (IncompleteString, n)
    else (Invalid(b as char), 1)
  }

  /** The tokens of the rest of a line, of which `column` bytes are consumed. */
  function LineTokens(s: bytes, line: nat, column: nat): (ts: seq<Located>)
    ensures |ts| <= |s| && forall i :: 0 <= i < |ts| ==> ts[i].at.line == line
  {
    if s == [] || s[0] == HASH then []
    else if IsSpace(s[0]) then LineTokens(s[1..], line, column + 1)
    else
      var (token, n) := Lex(s);
      [Located(token, Location(line, column + 1))]
        + if token.IncompleteString? then [] else LineTokens(s[n..], line, column + n)
  }

  // ===== tokens of a stream =====

  /** The length of the first line, with its newline if it has one. */
  function LineLength(s: bytes): (n: nat)
    requires s != []
    ensures 1 <= n <= |s|
  {
    var n := Span(s, NotNewline);
    if n < |s| then n + 1 else n
  }

  /** All tokens of an unread stream, of which `line` lines were read before. */
  function Tokens(s: bytes, line: nat): (ts: seq<Located>)
    ensures |ts| <= |s|
  {
    if s == [] then []
    else
      var n := LineLength(s);
      LineTokens(s[..n], line + 1, 0) + Tokens(s[n..], line + 1)
  }
}
