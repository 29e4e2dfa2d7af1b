/** The parser object of src/sdl/parser.rs, which holds the unread stream and a
    queue of tokens. */
module SdlParser {
  import opened Prim
  import opened Text
  import opened SdlTypes
  import opened SdlTokens
  import opened SdlGrammar

  /** A method's answer; what it leaves unread is in the parser's state. */
  datatype Answer<+T> = Accepted(value: T) | Rejected(why: Failure) {
    predicate IsFailure() {
      Rejected?
    }

    function PropagateFailure<U>(): Answer<U>
      requires Rejected?
    {
      Rejected(why)
    }

    function Extract(): T
      requires Accepted?
    {
      value
    }
  }

  method ScanWhile(line: bytes, start: nat, p: u8 -> bool) returns (end: nat)
    requires start <= |line|
    ensures end == start + Span(line[start..], p)
  {
    end := start;
    while end < |line| && p(line[end])
      invariant start <= end <= |line|
      invariant start + Span(line[start..], p) == end + Span(line[end..], p)
    {
      assert line[end..][1..] == line[end + 1..];
      end := end + 1;
    }
  }

  /** One turn of the tokenizer's loop. */
  lemma LineStep(line: bytes, start: nat, lineNo: nat)
    requires start < |line|
    ensures var ts := LineTokens(line[start..], lineNo, start);
            if line[start] == HASH then ts == []
            else if IsSpace(line[start]) then ts == LineTokens(line[start + 1..], lineNo, start + 1)
            else
              var (token, n) := Lex(line[start..]);
              ts == [Located(token, Location(lineNo, start + 1))]
                + if token.IncompleteString? then [] else LineTokens(line[start + n..], lineNo, start + n)
  {
    hide Lex;
    var suffix := line[start..];
    var n := Lex(suffix).1;
    assert suffix[1..] == line[start + 1..] && suffix[n..] == line[start + n..];
  }

  lemma NoTokens(lineNo: nat)
    ensures Tokens([], lineNo) == []
  {
  }

  lemma LineEnd(s: bytes, lineNo: nat, column: nat)
    requires s == []
    ensures LineTokens(s, lineNo, column) == []
  {
  }

  /** One turn of the loop over a variable's optional fields. */
  lemma OptionsStep(fl: Floats, ts: seq<Located>, varType: VarType, default: Option<VarDefault>)
    ensures ParseOptions(fl, ts, varType, default) ==
      if ts == [] then Stop(EndOfFile(KW_VAR))
      else if ts[0].token == Identifier(KW_DEFAULT) then
        var (default', ts1) :- ParseDefault(fl, ts[1..], varType);
        ParseOptions(fl, ts1, varType, default')
      else if IsOption(ts[0].token) then
        var (_, ts1) :- ExpectToken(ts[1..], Symbol('='), ts[0].token.name);
        var (_, ts2) :- ExpectIdentifier(ts1, ts[0].token.name);
        ParseOptions(fl, ts2, varType, default)
      else if ts[0].token == Symbol(';') then ParseOptions(fl, ts[1..], varType, default)
      else Found(default, ts)
  {
    hide ParseDefault;
  }

  class Parser {
    const floats: Floats
    var stream: bytes
    var tokBuffer: seq<Located>
    var lineNo: nat

    /** Buffered tokens all come from the line read last. */
    ghost predicate Valid()
      reads this
    {
      forall i :: 0 <= i < |tokBuffer| ==> tokBuffer[i].at.line == lineNo
    }

    /** The tokens still to come. */
    ghost function Remaining(): seq<Located>
      reads this
    {
      tokBuffer + Tokens(stream, lineNo)
    }

    /** The method answers what the grammar says of the tokens, and leaves the rest. */
    ghost predicate Answers<T>(r: Answer<T>, spec: Scan<T>)
      reads this
    {
      match spec
      case Found(value, rest) => r == Accepted(value) && Remaining() == rest
      case Stop(why) => r == Rejected(why)
    }

    constructor (stream: bytes, floats: Floats)
      ensures Valid() && Remaining() == Tokens(stream, 0) && this.floats == floats
    {
      this.floats := floats;
      this.stream := stream;
      tokBuffer := [];
      lineNo := 0;
    }

    // ===== tokens =====

    method PushToken(token: Token, start: nat)
      modifies this`tokBuffer
      ensures tokBuffer == old(tokBuffer) + [Located(token, Location(lineNo, start + 1))]
    {
      tokBuffer := tokBuffer + [Located(token, Location(lineNo, start + 1))];
    }

    /** Reads one line into the queue: the tokens to come are the same as before. */
    method NextLine() returns (more: bool)
      requires tokBuffer == []
      modifies this
      ensures more <==> old(stream) != []
      ensures Valid() && Remaining() == old(Remaining())
      ensures if more then |stream| < |old(stream)| else tokBuffer == [] && stream == [] && lineNo == old(lineNo)
    {
      hide LineTokens, Span;
      if stream == [] {
        return false;
      }
      var newline := ScanWhile(stream, 0, NotNewline);
      assert stream[0..] == stream;
      var length := if newline < |stream| then newline + 1 else newline;
      var line := stream[..length];
      stream := stream[length..];
      lineNo := lineNo + 1;
      TokenizeLine(line);
      return true;
    }

    method TokenizeLine(line: bytes)
      requires tokBuffer == []
      modifies this`tokBuffer
      ensures tokBuffer == LineTokens(line, lineNo, 0)
    {
      hide LineTokens;
      var start := 0;
      assert line[0..] == line;
      while start < |line|
        invariant start <= |line|
        invariant tokBuffer + LineTokens(line[start..], lineNo, start) == LineTokens(line, lineNo, 0)
        decreases |line| - start
      {
        LineStep(line, start, lineNo);
        if line[start] == HASH {
          return;
        } else if IsSpace(line[start]) {
          start := start + 1;
        } else {
          var token, end := LexAt(line, start);
          PushToken(token, start);
          if token.IncompleteString? {
            return;
          }
          start := end;
        }
      }
      LineEnd(line[start..], lineNo, start);
    }

    method LexAt(line: bytes, start: nat) returns (token: Token, end: nat)
      requires start < |line|
      ensures (token, end - start) == Lex(line[start..])
      ensures start < end <= |line|
    {
      hide Span, FromUtf8;
      ghost var suffix := line[start..];
      assert suffix[1..] == line[start + 1..];
      var b := line[start];
      if StartsNumber(b) {
        end := ScanWhile(line, start + 1, InNumber);
        assert suffix[..end - start] == line[start..end];
        token := Number(FromLatin1(line[start..end]));
      } else if StartsIdentifier(b) {
        end := ScanWhile(line, start + 1, InIdentifier);
        assert suffix[..end - start] == line[start..end];
        assert suffix[1..end - start] == line[start + 1..end];
        if b == DOLLAR {
          token := if end == start + 1 then Invalid(b as char) else TypeReference(FromLatin1(line[start + 1..end]));
        } else {
          token := Identifier(FromLatin1(line[start..end]));
        }
      } else if IsSymbol(b) {
        token, end := Symbol(b as char), start + 1;
      } else if b == QUOTE {
        end := ScanWhile(line, start + 1, NotQuote);
        assert suffix[1..end - start] == line[start + 1..end];
        if end < |line| {
          token, end := StringLiteral(FromUtf8(line[start + 1..end])), end + 1;
        } else {
          token := IncompleteString;
        }
      } else {
        token, end := Invalid(b as char), start + 1;
      }
    }

    method NextToken() returns (t: Option<Located>)
      requires Valid()
      modifies this
      ensures Valid()
      ensures var ts := old(Remaining());
              if ts == [] then t == None && Remaining() == []
              else t == Some(ts[0]) && Remaining() == ts[1..]
      ensures t.Some? ==> t.value.at.line == lineNo
    {
      hide Tokens;
      while tokBuffer == []
        invariant Valid() && Remaining() == old(Remaining())
        decreases |stream|
      {
        var more := NextLine();
        if !more {
          NoTokens(lineNo);
          return None;
        }
      }
      ghost var later := Tokens(stream, lineNo);
      assert (tokBuffer + later)[1..] == tokBuffer[1..] + later;
      t := Some(tokBuffer[0]);
      tokBuffer := tokBuffer[1..];
    }

    /** Undoes the last `NextToken`. */
    method PushFront(t: Located)
      requires Valid() && t.at.line == lineNo
      modifies this
      ensures Valid() && Remaining() == [t] + old(Remaining())
    {
      tokBuffer := [t] + tokBuffer;
    }

    // ===== expectations =====

    method TakeIdentifier(context: string) returns (r: Answer<string>)
      requires Valid()
      modifies this
      ensures Valid() && Answers(r, ExpectIdentifier(old(Remaining()), context))
    {
      var t := NextToken();
      if t.None? {
        return Rejected(EndOfFile(context));
      }
      if t.value.token.Identifier? {
        return Accepted(t.value.token.name);
      }
      return Rejected(Unexpected(t.value));
    }

    method TakeToken(expected: Token, context: string) returns (r: Answer<Location>)
      requires Valid()
      modifies this
      ensures Valid() && Answers(r, ExpectToken(old(Remaining()), expected, context))
      ensures r.Accepted? ==> r.value.line == lineNo
    {
      var t := NextToken();
      if t.None? {
        return Rejected(EndOfFile(context));
      }
      if t.value.token == expected {
        return Accepted(t.value.at);
      }
      return Rejected(Unexpected(t.value));
    }

    method TakeString(context: string) returns (r: Answer<string>)
      requires Valid()
      modifies this
      ensures Valid() && Answers(r, ExpectString(old(Remaining()), context))
    {
      var t := NextToken();
      if t.None? {
        return Rejected(EndOfFile(context));
      }
      match t.value.token {
        case StringLiteral(value) => return Accepted(value);
        case Identifier(name) => return Accepted(name);
        case _ => return Rejected(Unexpected(t.value));
      }
    }

    method TakeNumber<T>(parse: string -> Option<T>, seqOk: bool, context: string) returns (r: Answer<T>)
      requires Valid()
      modifies this
      ensures Valid() && Answers(r, ExpectNumber(old(Remaining()), parse, seqOk, context))
      decreases seqOk
    {
      var t := NextToken();
      if t.None? {
        return Rejected(EndOfFile(context));
      }
      if t.value.token.Number? {
        var value := parse(t.value.token.text);
        return if value.Some? then Accepted(value.value) else Rejected(BadNumber(t.value));
      }
      if t.value.token == Symbol('(') && seqOk {
        var inner :- TakeNumber(parse, false, context);
        var _ :- TakeToken(Symbol(')'), context);
        return Accepted(inner);
      }
      return Rejected(Unexpected(t.value));
    }

    method TakeBool(seqOk: bool, context: string) returns (r: Answer<bool>)
      requires Valid()
      modifies this
      ensures Valid() && Answers(r, ExpectBool(old(Remaining()), seqOk, context))
      decreases seqOk
    {
      var t := NextToken();
      if t.None? {
        return Rejected(EndOfFile(context));
      }
      match t.value.token {
        case Identifier(name) =>
          var word := Fold(name);
          return if word == "false" then Accepted(false)
                 else if word == "true" then Accepted(true)
                 else Rejected(BadBoolean(t.value));
        case Number(text) =>
          return if text == "0" then Accepted(false)
                 else if text == "1" then Accepted(true)
                 else Rejected(BadBoolean(t.value));
        case _ =>
      }
      if t.value.token == Symbol('(') && seqOk {
        var inner :- TakeBool(false, context);
        var _ :- TakeToken(Symbol(')'), context);
        return Accepted(inner);
      }
      return Rejected(Unexpected(t.value));
    }

    method TakeSequence<T>(parse: string -> Option<T>, context: string) returns (r: Answer<(seq<T>, Location)>)
      requires Valid()
      modifies this
      ensures Valid() && Answers(r, ExpectSequence(old(Remaining()), parse, context))
    {
      var at :- TakeToken(Symbol('('), context);
      var result: seq<T> := [];
      ghost var ts := Remaining();
      while true
        invariant Valid() && Items(ts, parse, [], context) == Items(Remaining(), parse, result, context)
        decreases |Remaining()|
      {
        var item :- TakeNumber(parse, false, context);
        result := result + [item];
        var t := NextToken();
        if t.None? {
          return Rejected(EndOfFile(context));
        }
        if t.value.token == Symbol(')') {
          return Accepted((result, at));
        }
        if t.value.token != Symbol(',') {
          return Rejected(Unexpected(t.value));
        }
      }
    }

    method TakeExactly<T>(parse: string -> Option<T>, n: nat) returns (r: Answer<seq<T>>)
      requires Valid()
      modifies this
      ensures Valid() && Answers(r, ExpectExactly(old(Remaining()), parse, n))
      ensures r.Accepted? ==> |r.value| == n
    {
      var found :- TakeSequence(parse, KW_DEFAULT);
      if |found.0| != n {
        return Rejected(WrongArity(found.1));
      }
      return Accepted(found.0);
    }

    // ===== defaults =====

    method TakeDefault(varType: VarType) returns (r: Answer<Option<VarDefault>>)
      requires Valid()
      modifies this
      ensures Valid() && Answers(r, ParseDefault(floats, old(Remaining()), varType))
    {
      hide ExpectNumber, ExpectBool, ExpectSequence, ExpectExactly, ExpectString;
      var _ :- TakeToken(Symbol('='), KW_DEFAULT);
      match varType {
        case Bool =>
          var b :- TakeBool(true, KW_DEFAULT);
          return Accepted(Some(DefaultBool(b)));
        case Byte =>
          var y :- TakeNumber(ParseU8, true, KW_DEFAULT);
          return Accepted(Some(DefaultByte(y)));
        case Double =>
          var d :- TakeNumber(floats.double, true, KW_DEFAULT);
          return Accepted(Some(DefaultDouble(d)));
        case Float =>
          var f :- TakeNumber(floats.single, true, KW_DEFAULT);
          return Accepted(Some(DefaultFloat(f)));
        case Int =>
          var i :- TakeNumber(ParseI32, true, KW_DEFAULT);
          return Accepted(Some(DefaultInt(i)));
        case Short =>
          var h :- TakeNumber(ParseI16, true, KW_DEFAULT);
          return Accepted(Some(DefaultShort(h)));
        case String32 =>
          var s :- TakeString(KW_DEFAULT);
          return Accepted(Some(DefaultString(s)));
        case Time =>
          var t :- TakeNumber(ParseU32, true, KW_DEFAULT);
          return Accepted(Some(DefaultTime(UnifiedTime(t, 0))));
        case Key =>
          r := TakeNil();
        case Point3 =>
          var v :- TakeExactly(floats.single, 3);
          return Accepted(Some(DefaultVector(Vector(v[0], v[1], v[2]))));
        case Vector3 =>
          var v :- TakeExactly(floats.single, 3);
          return Accepted(Some(DefaultVector(Vector(v[0], v[1], v[2]))));
        case Quat =>
          var q :- TakeExactly(floats.single, 4);
          return Accepted(Some(DefaultQuat(Quaternion(q[0], q[1], q[2], q[3]))));
        case Rgb =>
          var c :- TakeExactly(floats.single, 3);
          return Accepted(Some(DefaultRgba(ColorRGBA(c[0], c[1], c[2], FLOAT_ONE))));
        case Rgb8 =>
          var k :- TakeExactly(ParseU8, 3);
          return Accepted(Some(DefaultRgba8(Color32(k[2], k[1], k[0], 255))));
        case Rgba =>
          var c :- TakeExactly(floats.single, 4);
          return Accepted(Some(DefaultRgba(ColorRGBA(c[0], c[1], c[2], c[3]))));
        case Rgba8 =>
          var k :- TakeExactly(ParseU8, 4);
          return Accepted(Some(DefaultRgba8(Color32(k[2], k[1], k[0], k[3]))));
        case _ =>
          return Rejected(NoDefaultFor(varType));
      }
    }

    /** A key's only default is `nil`. */
    method TakeNil() returns (r: Answer<Option<VarDefault>>)
      requires Valid()
      modifies this
      ensures Valid() && Answers(r, ParseNil(old(Remaining())))
    {
      var t := NextToken();
      if t.None? {
        return Rejected(EndOfFile(KW_DEFAULT));
      }
      if !t.value.token.Identifier? {
        return Rejected(Unexpected(t.value));
      }
      return if t.value.token.name == "nil" then Accepted(None) else Rejected(BadKey(t.value));
    }

    // ===== variables =====

    method TakeType() returns (r: Answer<VarType>)
      requires Valid()
      modifies this
      ensures Valid() && Answers(r, ParseType(old(Remaining())))
    {
      hide TypeNamed;
      var t := NextToken();
      if t.None? {
        return Rejected(EndOfFile(KW_VAR));
      }
      match t.value.token {
        case Identifier(name) =>
          var varType := TypeNamed(Fold(name));
          return if varType.Some? then Accepted(varType.value) else Rejected(UnknownType(t.value));
        case TypeReference(name) => return Accepted(StateDesc(name));
        case _ => return Rejected(Unexpected(t.value));
      }
    }

    method TakeCount() returns (r: Answer<Option<nat>>)
      requires Valid()
      modifies this
      ensures Valid() && Answers(r, ParseCount(old(Remaining())))
    {
      hide ParseUsize;
      var t := NextToken();
      if t.None? {
        return Rejected(EndOfFile(KW_VAR));
      }
      if t.value.token.Number? {
        var count := ParseUsize(t.value.token.text);
        if count.None? {
          return Rejected(BadNumber(t.value));
        }
        var _ :- TakeToken(Symbol(']'), KW_VAR);
        return Accepted(count);
      }
      return if t.value.token == Symbol(']') then Accepted(None) else Rejected(Unexpected(t.value));
    }

    /** The token that does not belong to the variable is put back. */
    method TakeOptions(varType: VarType) returns (r: Answer<Option<VarDefault>>)
      requires Valid()
      modifies this
      ensures Valid() && Answers(r, ParseOptions(floats, old(Remaining()), varType, None))
    {
      hide ParseDefault, ParseOptions, Tokens;
      var default: Option<VarDefault> := None;
      ghost var ts := Remaining();
      while true
        invariant Valid()
        invariant ParseOptions(floats, ts, varType, None) == ParseOptions(floats, Remaining(), varType, default)
        decreases |Remaining()|
      {
        ghost var before := Remaining();
        OptionsStep(floats, before, varType, default);
        var t := NextToken();
        if t.None? {
          return Rejected(EndOfFile(KW_VAR));
        }
        if t.value.token == Identifier(KW_DEFAULT) {
          default :- TakeDefault(varType);
        } else if IsOption(t.value.token) {
          var _ :- TakeToken(Symbol('='), t.value.token.name);
          var _ :- TakeIdentifier(t.value.token.name);
        } else if t.value.token != Symbol(';') {
          PushFront(t.value);
          assert Remaining() == before;
          return Accepted(default);
        }
      }
    }

    method TakeVar() returns (r: Answer<VarDescriptor>)
      requires Valid()
      modifies this
      ensures Valid() && Answers(r, ParseVar(floats, old(Remaining())))
    {
      hide ParseType, ParseCount, ParseOptions;
      var varType :- TakeType();
      var name :- TakeIdentifier(KW_VAR);
      var _ :- TakeToken(Symbol('['), KW_VAR);
      var count :- TakeCount();
      var default :- TakeOptions(varType);
      return Accepted(VarDescriptor(name, varType, count, default));
    }

    // ===== descriptors =====

    method TakeStatedesc() returns (r: Answer<StateDescriptor>)
      requires Valid()
      modifies this
      ensures Valid() && Answers(r, ParseStatedesc(floats, old(Remaining())))
    {
      hide ParseVar, ExpectNumber, Tokens;
      var name :- TakeIdentifier(KW_STATEDESC);
      var _ :- TakeToken(Symbol('{'), KW_STATEDESC);
      var startLine := lineNo;
      var version: Option<u16> := None;
      var vars: seq<VarDescriptor> := [];
      ghost var ts := Remaining();
      while true
        invariant Valid()
        invariant ParseBody(floats, ts, name, startLine, None, []) ==
                  ParseBody(floats, Remaining(), name, startLine, version, vars)
        decreases |Remaining()|
      {
        var t := NextToken();
        if t.None? {
          return Rejected(EndOfFile(KW_STATEDESC));
        }
        if t.value.token == Identifier(KW_VERSION) {
          var v :- TakeNumber(ParseU16, false, KW_STATEDESC);
          version := Some(v);
        } else if t.value.token == Identifier(KW_VAR) {
          var v :- TakeVar();
          vars := vars + [v];
        } else if t.value.token == Symbol('}') {
          return if version.None? then Rejected(MissingVersion(name, startLine))
                 else Accepted(StateDescriptor(name, version.value, vars));
        } else {
          return Rejected(Unexpected(t.value));
        }
      }
    }

    method ParseText() returns (r: Answer<seq<StateDescriptor>>)
      requires Valid()
      modifies this
      ensures Valid() && Answers(r, Parse(floats, old(Remaining()), []))
    {
      hide ParseStatedesc;
      var descriptors: seq<StateDescriptor> := [];
      while true
        invariant Valid()
        invariant Parse(floats, old(Remaining()), []) == Parse(floats, Remaining(), descriptors)
        decreases |Remaining()|
      {
        var t := NextToken();
        if t.None? {
          return Accepted(descriptors);
        }
        if t.value.token != Identifier(KW_STATEDESC) {
          return Rejected(Unexpected(t.value));
        }
        var d :- TakeStatedesc();
        descriptors := descriptors + [d];
      }
    }
  }
}
