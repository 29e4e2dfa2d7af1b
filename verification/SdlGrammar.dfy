/** What the recursive descent of src/sdl/parser.rs makes of a list of tokens. */
module SdlGrammar {
  import opened Prim
  import opened SdlTypes
  import opened SdlTokens

  datatype Failure =
    | Unexpected(token: Located)
    | EndOfFile(context: string)
    | BadNumber(token: Located)
    | BadBoolean(token: Located)
    | BadKey(token: Located)
    | UnknownType(token: Located)
    | WrongArity(at: Location)
    | NoDefaultFor(varType: VarType)
    | MissingVersion(name: string, line: nat)

  /** A value and the tokens that follow, or the reason for giving up. */
  datatype Scan<+T> = Found(value: T, rest: seq<Located>) | Stop(why: Failure) {
    predicate IsFailure() {
      Stop?
    }

    function PropagateFailure<U>(): Scan<U>
      requires Stop?
    {
      Stop(why)
    }

    function Extract(): (T, seq<Located>)
      requires Found?
    {
      (value, rest)
    }
  }

  // ===== numeric literals =====

  predicate AllDigits(s: string) {
    forall i :: 0 <= i < |s| ==> '0' <= s[i] <= '9'
  }

  function Decimal(s: string): nat
    requires AllDigits(s)
  {
    if s == "" then 0 else 10 * Decimal(s[..|s| - 1]) + (s[|s| - 1] as int - '0' as int)
  }

  function Unsigned(s: string, limit: nat): (r: Option<nat>)
    ensures r.Some? ==> r.value < limit
  {
    if s != "" && AllDigits(s) && Decimal(s) < limit then Some(Decimal(s)) else None
  }

  function Signed(s: string, limit: nat): (r: Option<int>)
    requires 0 < limit
    ensures r.Some? ==> 0 - limit <= r.value < limit
  {
    if s != "" && s[0] == '-' then
      if s[1..] != "" && AllDigits(s[1..]) && Decimal(s[1..]) <= limit then Some(0 - Decimal(s[1..])) else None
    else if s != "" && AllDigits(s) && Decimal(s) < limit then Some(Decimal(s)) else None
  }

  function ParseU8(s: string): Option<u8> {
    var r := Unsigned(s, 0x100);
    if r.Some? then Some(r.value) else None
  }

  function ParseU16(s: string): Option<u16> {
    var r := Unsigned(s, 0x1_0000);
    if r.Some? then Some(r.value) else None
  }

  function ParseU32(s: string): Option<u32> {
    var r := Unsigned(s, 0x1_0000_0000);
    if r.Some? then Some(r.value) else None
  }

  const USIZE := 0x1_0000_0000_0000_0000

  function ParseUsize(s: string): Option<nat> {
    Unsigned(s, USIZE)
  }

  function ParseI16(s: string): Option<i16> {
    var r := Signed(s, 0x8000);
    if r.Some? then Some(r.value) else None
  }

  function ParseI32(s: string): Option<i32> {
    var r := Signed(s, 0x8000_0000);
    if r.Some? then Some(r.value) else None
  }

  /** The library's parsers of floating-point literals, to bit patterns. */
  datatype Floats = Floats(single: string -> Option<u32>, double: string -> Option<u64>)

  // ===== single tokens =====

  const KW_STATEDESC := "STATEDESC"
  const KW_VAR := "VAR"
  const KW_VERSION := "VERSION"
  const KW_DEFAULT := "DEFAULT"
  const KW_DEFAULTOPTION := "DEFAULTOPTION"
  const KW_DISPLAYOPTION := "DISPLAYOPTION"

  function ExpectIdentifier(ts: seq<Located>, context: string): (r: Scan<string>)
    ensures r.Found? ==> |r.rest| < |ts|
  {
    if ts == [] then Stop(EndOfFile(context))
    else if ts[0].token.Identifier? then Found(ts[0].token.name, ts[1..])
    else Stop(Unexpected(ts[0]))
  }

  function ExpectToken(ts: seq<Located>, expected: Token, context: string): (r: Scan<Location>)
    ensures r.Found? ==> |r.rest| < |ts|
  {
    if ts == [] then Stop(EndOfFile(context))
    else if ts[0].token == expected then Found(ts[0].at, ts[1..])
    else Stop(Unexpected(ts[0]))
  }

  function ExpectString(ts: seq<Located>, context: string): (r: Scan<string>)
    ensures r.Found? ==> |r.rest| < |ts|
  {
    if ts == [] then Stop(EndOfFile(context))
    else if ts[0].token.StringLiteral? then Found(ts[0].token.value, ts[1..])
    else if ts[0].token.Identifier? then Found(ts[0].token.name, ts[1..])
    else Stop(Unexpected(ts[0]))
  }

  function ExpectNumber<T>(ts: seq<Located>, parse: string -> Option<T>, seqOk: bool, context: string): (r: Scan<T>)
    ensures r.Found? ==> |r.rest| < |ts|
    decreases seqOk
  {
    if ts == [] then Stop(EndOfFile(context))
    else if ts[0].token.Number? then
      var value := parse(ts[0].token.text);
      if value.Some? then Found(value.value, ts[1..]) else Stop(BadNumber(ts[0]))
    else if ts[0].token == Symbol('(') && seqOk then
      var (inner, ts1) :- ExpectNumber(ts[1..], parse, false, context);
      var (_, ts2) :- ExpectToken(ts1, Symbol(')'), context);
      Found(inner, ts2)
    else Stop(Unexpected(ts[0]))
  }

  function ExpectBool(ts: seq<Located>, seqOk: bool, context: string): (r: Scan<bool>)
    ensures r.Found? ==> |r.rest| < |ts|
    decreases seqOk
  {
    if ts == [] then Stop(EndOfFile(context))
    else if ts[0].token.Identifier? then
      var word := Fold(ts[0].token.name);
      if word == "false" then Found(false, ts[1..])
      else if word == "true" then Found(true, ts[1..])
      else Stop(BadBoolean(ts[0]))
    else if ts[0].token.Number? then
      if ts[0].token.text == "0" then Found(false, ts[1..])
      else if ts[0].token.text == "1" then Found(true, ts[1..])
      else Stop(BadBoolean(ts[0]))
    else if ts[0].token == Symbol('(') && seqOk then
      var (inner, ts1) :- ExpectBool(ts[1..], false, context);
      var (_, ts2) :- ExpectToken(ts1, Symbol(')'), context);
      Found(inner, ts2)
    else Stop(Unexpected(ts[0]))
  }

  /** The numbers of a sequence whose first ones are `acc`. */
  function Items<T>(ts: seq<Located>, parse: string -> Option<T>, acc: seq<T>, context: string): (r: Scan<seq<T>>)
    ensures r.Found? ==> |r.rest| < |ts|
  {
    var (item, ts1) :- ExpectNumber(ts, parse, false, context);
    if ts1 == [] then Stop(EndOfFile(context))
    else if ts1[0].token == Symbol(',') then Items(ts1[1..], parse, acc + [item], context)
    else if ts1[0].token == Symbol(')') then Found(acc + [item], ts1[1..])
    else Stop(Unexpected(ts1[0]))
  }

  function ExpectSequence<T>(ts: seq<Located>, parse: string -> Option<T>, context: string)
      : (r: Scan<(seq<T>, Location)>)
    ensures r.Found? ==> |r.rest| < |ts|
  {
    var (at, ts1) :- ExpectToken(ts, Symbol('('), context);
    var (items, ts2) :- Items(ts1, parse, [], context);
    Found((items, at), ts2)
  }

  /** A sequence of exactly `n` numbers. */
  function ExpectExactly<T>(ts: seq<Located>, parse: string -> Option<T>, n: nat): (r: Scan<seq<T>>)
    ensures r.Found? ==> |r.rest| < |ts| && |r.value| == n
  {
    var (found, ts1) :- ExpectSequence(ts, parse, KW_DEFAULT);
    if |found.0| != n then Stop(WrongArity(found.1)) else Found(found.0, ts1)
  }

  // ===== defaults =====

  function ParseNil(ts: seq<Located>): (r: Scan<Option<VarDefault>>)
    ensures r.Found? ==> |r.rest| < |ts|
  {
    if ts == [] then Stop(EndOfFile(KW_DEFAULT))
    else if ts[0].token.Identifier? then
      if ts[0].token.name == "nil" then Found(None, ts[1..]) else Stop(BadKey(ts[0]))
    else Stop(Unexpected(ts[0]))
  }

  function ParseDefault(fl: Floats, ts: seq<Located>, varType: VarType): (r: Scan<Option<VarDefault>>)
    ensures r.Found? ==> |r.rest| < |ts|
  {
    var (_, ts1) :- ExpectToken(ts, Symbol('='), KW_DEFAULT);
    match varType
    case Bool =>
      var (b, ts2) :- ExpectBool(ts1, true, KW_DEFAULT);
      Found(Some(DefaultBool(b)), ts2)
    case Byte =>
      var (y, ts2) :- ExpectNumber(ts1, ParseU8, true, KW_DEFAULT);
      Found(Some(DefaultByte(y)), ts2)
    case Double =>
      var (d, ts2) :- ExpectNumber(ts1, fl.double, true, KW_DEFAULT);
      Found(Some(DefaultDouble(d)), ts2)
    case Float =>
      var (f, ts2) :- ExpectNumber(ts1, fl.single, true, KW_DEFAULT);
      Found(Some(DefaultFloat(f)), ts2)
    case Int =>
      var (i, ts2) :- ExpectNumber(ts1, ParseI32, true, KW_DEFAULT);
      Found(Some(DefaultInt(i)), ts2)
    case Short =>
      var (h, ts2) :- ExpectNumber(ts1, ParseI16, true, KW_DEFAULT);
      Found(Some(DefaultShort(h)), ts2)
    case String32 =>
      var (s, ts2) :- ExpectString(ts1, KW_DEFAULT);
      Found(Some(DefaultString(s)), ts2)
    case Time =>
      var (t, ts2) :- ExpectNumber(ts1, ParseU32, true, KW_DEFAULT);
      Found(Some(DefaultTime(UnifiedTime(t, 0))), ts2)
    case Key => ParseNil(ts1)
    case Point3 =>
      var (v, ts2) :- ExpectExactly(ts1, fl.single, 3);
      Found(Some(DefaultVector(Vector(v[0], v[1], v[2]))), ts2)
    case Vector3 =>
      var (v, ts2) :- ExpectExactly(ts1, fl.single, 3);
      Found(Some(DefaultVector(Vector(v[0], v[1], v[2]))), ts2)
    case Quat =>
      var (q, ts2) :- ExpectExactly(ts1, fl.single, 4);
      Found(Some(DefaultQuat(Quaternion(q[0], q[1], q[2], q[3]))), ts2)
    case Rgb =>
      var (c, ts2) :- ExpectExactly(ts1, fl.single, 3);
      Found(Some(DefaultRgba(ColorRGBA(c[0], c[1], c[2], FLOAT_ONE))), ts2)
    case Rgb8 =>
      var (k, ts2) :- ExpectExactly(ts1, ParseU8, 3);
      Found(Some(DefaultRgba8(Color32(k[2], k[1], k[0], 255))), ts2)
    case Rgba =>
      var (c, ts2) :- ExpectExactly(ts1, fl.single, 4);
      Found(Some(DefaultRgba(ColorRGBA(c[0], c[1], c[2], c[3]))), ts2)
    case Rgba8 =>
      var (k, ts2) :- ExpectExactly(ts1, ParseU8, 4);
      Found(Some(DefaultRgba8(Color32(k[2], k[1], k[0], k[3]))), ts2)
    case _ => Stop(NoDefaultFor(varType))
  }

  // ===== variables =====

  function TypeNamed(word: string): Option<VarType> {
    if word == "agetimeofday" then Some(AgeTimeOfDay)
    else if word == "bool" then Some(Bool)
    else if word == "byte" then Some(Byte)
    else if word == "creatable" || word == "message" then Some(Creatable)
    else if word == "double" then Some(Double)
    else if word == "float" then Some(Float)
    else if word == "int" then Some(Int)
    else if word == "plkey" then Some(Key)
    else if word == "point3" then Some(Point3)
    else if word == "quat" || word == "quaternion" then Some(Quat)
    else if word == "rgb" then Some(Rgb)
    else if word == "rgb8" then Some(Rgb8)
    else if word == "rgba" then Some(Rgba)
    else if word == "rgba8" then Some(Rgba8)
    else if word == "short" then Some(Short)
    else if word == "string32" then Some(String32)
    else if word == "time" then Some(Time)
    else if word == "vector3" then Some(Vector3)
    else None
  }

  function ParseType(ts: seq<Located>): (r: Scan<VarType>)
    ensures r.Found? ==> |r.rest| < |ts|
  {
    if ts == [] then Stop(EndOfFile(KW_VAR))
    else if ts[0].token.Identifier? then
      var t := TypeNamed(Fold(ts[0].token.name));
      if t.Some? then Found(t.value, ts[1..]) else Stop(UnknownType(ts[0]))
    else if ts[0].token.TypeReference? then Found(StateDesc(ts[0].token.name), ts[1..])
    else Stop(Unexpected(ts[0]))
  }

  /** The count between the brackets and the closing bracket. */
  function ParseCount(ts: seq<Located>): (r: Scan<Option<nat>>)
    ensures r.Found? ==> |r.rest| < |ts|
  {
    if ts == [] then Stop(EndOfFile(KW_VAR))
    else if ts[0].token.Number? then
      var count := ParseUsize(ts[0].token.text);
      if count.None? then Stop(BadNumber(ts[0]))
      else
        var (_, ts1) :- ExpectToken(ts[1..], Symbol(']'), KW_VAR);
        Found(count, ts1)
    else if ts[0].token == Symbol(']') then Found(None, ts[1..])
    else Stop(Unexpected(ts[0]))
  }

  predicate IsOption(t: Token) {
    t == Identifier(KW_DEFAULTOPTION) || t == Identifier(KW_DISPLAYOPTION)
  }

  /** The optional fields after a variable.  The token that ends them stays unread;
      without one, the text ended too early. */
  function ParseOptions(fl: Floats, ts: seq<Located>, varType: VarType, default: Option<VarDefault>)
      : (r: Scan<Option<VarDefault>>)
    ensures r.Found? ==> 0 < |r.rest| <= |ts|
    decreases |ts|
  {
    if ts == [] then Stop(EndOfFile(KW_VAR))
    else if ts[0].token == Identifier(KW_DEFAULT) then
      var (default', ts1) :- ParseDefault(fl, ts[1..], varType);
      ParseOptions(fl, ts1, varType, default')
    else if IsOption(ts[0].token) then
      var (_, ts1) :- ExpectToken(ts[1..], Symbol('='), ts[0].token.name);
      var (_, ts2) :- ExpectIdentifier(ts1, ts[0].token.name);
      ParseOptions(fl, ts2, varType, default)
    else if ts[0].token == Symbol(';') then ParseOptions(fl, ts[1..], varType, default)
    else Found(default, ts)
  }

  function ParseVar(fl: Floats, ts: seq<Located>): (r: Scan<VarDescriptor>)
    ensures r.Found? ==> 0 < |r.rest| < |ts|
  {
    var (varType, ts1) :- ParseType(ts);
    var (name, ts2) :- ExpectIdentifier(ts1, KW_VAR);
    var (_, ts3) :- ExpectToken(ts2, Symbol('['), KW_VAR);
    var (count, ts4) :- ParseCount(ts3);
    var (default, ts5) :- ParseOptions(fl, ts4, varType, None);
    Found(VarDescriptor(name, varType, count, default), ts5)
  }

  // ===== descriptors =====

  /** The rest of a descriptor whose version and variables so far are given. */
  function ParseBody(fl: Floats, ts: seq<Located>, name: string, line: nat,
                     version: Option<u16>, vars: seq<VarDescriptor>): (r: Scan<StateDescriptor>)
    ensures r.Found? ==> |r.rest| < |ts|
    decreases |ts|
  {
    if ts == [] then Stop(EndOfFile(KW_STATEDESC))
    else if ts[0].token == Identifier(KW_VERSION) then
      var (v, ts1) :- ExpectNumber(ts[1..], ParseU16, false, KW_STATEDESC);
      ParseBody(fl, ts1, name, line, Some(v), vars)
    else if ts[0].token == Identifier(KW_VAR) then
      var (v, ts1) :- ParseVar(fl, ts[1..]);
      ParseBody(fl, ts1, name, line, version, vars + [v])
    else if ts[0].token == Symbol('}') then
      if version.None? then Stop(MissingVersion(name, line))
      else Found(StateDescriptor(name, version.value, vars), ts[1..])
    else Stop(Unexpected(ts[0]))
  }

  function ParseStatedesc(fl: Floats, ts: seq<Located>): (r: Scan<StateDescriptor>)
    ensures r.Found? ==> |r.rest| < |ts|
  {
    var (name, ts1) :- ExpectIdentifier(ts, KW_STATEDESC);
    var (at, ts2) :- ExpectToken(ts1, Symbol('{'), KW_STATEDESC);
    ParseBody(fl, ts2, name, at.line, None, [])
  }

  /** All descriptors of a text whose first ones are `acc`. */
  function Parse(fl: Floats, ts: seq<Located>, acc: seq<StateDescriptor>): (r: Scan<seq<StateDescriptor>>)
    ensures r.Found? ==> r.rest == []
    decreases |ts|
  {
    if ts == [] then Found(acc, [])
    else if ts[0].token == Identifier(KW_STATEDESC) then
      var (d, ts1) :- ParseStatedesc(fl, ts[1..]);
      Parse(fl, ts1, acc + [d])
    else Stop(Unexpected(ts[0]))
  }
}
