/** The language of state descriptors, said without a parser: which tokens spell which
    descriptors.  The recursive descent of src/sdl/parser.rs accepts exactly these. */
module SdlSpelling {
  import opened Prim
  import opened SdlTypes
  import opened SdlTokens
  import opened SdlGrammar

  function Strip(ts: seq<Located>): (r: seq<Token>)
    ensures |r| == |ts| && forall i :: 0 <= i < |ts| ==> r[i] == ts[i].token
  {
    seq(|ts|, i requires 0 <= i < |ts| => ts[i].token)
  }

  // ===== numerals =====

  function Show(n: nat): (s: string)
    ensures s != ""
  {
    var digit := (48 + n % 10) as char;
    if n < 10 then [digit] else Show(n / 10) + [digit]
  }

  lemma {:induction false} ShowParses(n: nat)
    ensures AllDigits(Show(n)) && Decimal(Show(n)) == n
  {
    var s := Show(n);
    assert s[|s| - 1] as int - '0' as int == n % 10;
    if n < 10 {
      assert s[..|s| - 1] == "";
      assert Decimal(s) == 10 * Decimal("") + n % 10;
    } else {
      ShowParses(n / 10);
      assert s[..|s| - 1] == Show(n / 10);
    }
  }

  predicate AllZeros(s: string) {
    forall i :: 0 <= i < |s| ==> s[i] == '0'
  }

  /** The number in decimal digits, after any number of zeros. */
  ghost predicate Denotes(text: string, n: nat) {
    exists k :: 0 <= k <= |text| && DenotesAfter(text, k, n)
  }

  predicate DenotesAfter(text: string, k: nat, n: nat)
    requires k <= |text|
  {
    AllZeros(text[..k]) && text[k..] == Show(n)
  }

  /** The same with a sign; zero may have one. */
  ghost predicate DenotesInt(text: string, i: int) {
    || (i >= 0 && Denotes(text, i))
    || (i <= 0 && text != "" && text[0] == '-' && Denotes(text[1..], -i))
  }

  lemma {:induction false} ZerosCount(z: string, s: string)
    requires AllZeros(z) && AllDigits(s)
    ensures AllDigits(z + s) && Decimal(z + s) == Decimal(s)
    decreases |z| + |s|
  {
    var t := z + s;
    if s != "" {
      ZerosCount(z, s[..|s| - 1]);
      assert t[..|t| - 1] == z + s[..|s| - 1];
    } else if z != "" {
      ZerosCount(z[..|z| - 1], "");
      assert t[..|t| - 1] == z[..|z| - 1] + "";
    }
  }

  lemma DenotesDecimal(text: string, n: nat)
    requires Denotes(text, n)
    ensures text != "" && AllDigits(text) && Decimal(text) == n
  {
    var k :| 0 <= k <= |text| && DenotesAfter(text, k, n);
    ShowParses(n);
    ZerosCount(text[..k], text[k..]);
    assert text == text[..k] + text[k..];
  }

  lemma {:induction false} DecimalDenotes(text: string)
    requires text != "" && AllDigits(text)
    ensures Denotes(text, Decimal(text))
    decreases |text|
  {
    hide Denotes, DenotesAfter, Decimal;
    var k := |text| - 1;
    var init := text[..k];
    DecimalStep(text);
    assert text == init + [text[k]];
    if init == "" {
      OneDigit(text);
    } else {
      DecimalDenotes(init);
      DigitDenotes(init, Decimal(init), text[k]);
    }
  }

  lemma DecimalStep(text: string)
    requires text != "" && AllDigits(text)
    ensures Decimal(text) == 10 * Decimal(text[..|text| - 1]) + (text[|text| - 1] as int - '0' as int)
  {
  }

  lemma OneDigit(text: string)
    requires |text| == 1 && AllDigits(text)
    ensures Denotes(text, Decimal(text))
  {
    assert text == [text[0]] && Decimal(text[..0]) == 0;
    assert DenotesAfter(text, 0, Decimal(text));
  }

  lemma DigitDenotes(text: string, m: nat, digit: char)
    requires Denotes(text, m) && '0' <= digit <= '9'
    ensures Denotes(text + [digit], 10 * m + (digit as int - '0' as int))
  {
    hide Show, DenotesAfter;
    var j :| 0 <= j <= |text| && DenotesAfter(text, j, m);
    var n, longer := 10 * m + (digit as int - '0' as int), text + [digit];
    ShowDigit(m, digit);
    var k := if m == 0 then |text| else j;
    assert DenotesAfter(longer, k, n) by {
      if m == 0 {
        ZeroDenotes(text, j);
        Extended(text, |text|, digit);
        DenotesFrom(longer, |text|, n);
      } else {
        Extended(text, j, digit);
        DenotesFrom(text, j, m);
        DenotesFrom(longer, j, n);
      }
    }
  }

  lemma DenotesFrom(text: string, k: nat, n: nat)
    requires k <= |text|
    ensures DenotesAfter(text, k, n) <==> AllZeros(text[..k]) && text[k..] == Show(n)
  {
  }

  lemma Extended(text: string, k: nat, digit: char)
    requires k <= |text|
    ensures (text + [digit])[..k] == text[..k] && (text + [digit])[k..] == text[k..] + [digit]
  {
  }

  lemma ZeroDenotes(text: string, j: nat)
    requires j <= |text| && DenotesAfter(text, j, 0)
    ensures AllZeros(text[..|text|]) && text[|text|..] == ""
  {
    assert Show(0) == "0" && text == text[..j] + "0";
  }

  lemma ShowDigit(m: nat, digit: char)
    requires '0' <= digit <= '9'
    ensures Show(10 * m + (digit as int - '0' as int)) == if m == 0 then [digit] else Show(m) + [digit]
  {
    var n := 10 * m + (digit as int - '0' as int);
    assert n / 10 == m && n % 10 == digit as int - '0' as int;
  }

  /** The numerals of a type are those that denote a number in its range. */
  lemma UnsignedIff(text: string, limit: nat, n: nat)
    ensures Unsigned(text, limit) == Some(n) <==> Denotes(text, n) && n < limit
  {
    if Denotes(text, n) {
      DenotesDecimal(text, n);
    }
    if Unsigned(text, limit) == Some(n) {
      DecimalDenotes(text);
    }
  }

  lemma SignedIff(text: string, limit: nat, i: int)
    requires 0 < limit
    ensures Signed(text, limit) == Some(i) <==> DenotesInt(text, i) && 0 - limit <= i < limit
  {
    if i >= 0 && Denotes(text, i) {
      DenotesDecimal(text, i);
    }
    if i <= 0 && text != "" && text[0] == '-' && Denotes(text[1..], -i) {
      DenotesDecimal(text[1..], -i);
    }
    if Signed(text, limit) == Some(i) {
      if text[0] == '-' {
        DecimalDenotes(text[1..]);
      } else {
        DecimalDenotes(text);
      }
    }
  }

  lemma NumbersIff(text: string, n: nat, i: int)
    ensures n < 0x100 ==> (ParseU8(text) == Some(n) <==> Denotes(text, n))
    ensures n < 0x1_0000 ==> (ParseU16(text) == Some(n) <==> Denotes(text, n))
    ensures n < 0x1_0000_0000 ==> (ParseU32(text) == Some(n) <==> Denotes(text, n))
    ensures ParseUsize(text) == Some(n) <==> Denotes(text, n) && n < USIZE
    ensures -0x8000 <= i < 0x8000 ==> (ParseI16(text) == Some(i) <==> DenotesInt(text, i))
    ensures -0x8000_0000 <= i < 0x8000_0000 ==> (ParseI32(text) == Some(i) <==> DenotesInt(text, i))
  {
    hide Denotes, DenotesInt, Unsigned, Signed;
    UnsignedIff(text, 0x100, n);
    UnsignedIff(text, 0x1_0000, n);
    UnsignedIff(text, 0x1_0000_0000, n);
    UnsignedIff(text, USIZE, n);
    SignedIff(text, 0x8000, i);
    SignedIff(text, 0x8000_0000, i);
  }

  // ===== types =====

  /** A word of small letters, with any of them written large. */
  predicate InAnyCase(word: string, small: string) {
    && |word| == |small|
    && forall i :: 0 <= i < |small| ==>
         word[i] == small[i] || ('a' <= small[i] <= 'z' && word[i] as int == small[i] as int - 32)
  }

  predicate Small(word: string) {
    forall i :: 0 <= i < |word| ==> !('A' <= word[i] <= 'Z')
  }

  lemma FoldIff(word: string, small: string)
    requires Small(small)
    ensures Fold(word) == small <==> InAnyCase(word, small)
  {
    if InAnyCase(word, small) {
      forall i | 0 <= i < |small|
        ensures Fold(word)[i] == small[i]
      {
      }
    }
  }

  /** The words for a type. */
  function TypeWords(t: VarType): set<string> {
    match t
    case AgeTimeOfDay => {"agetimeofday"}
    case Bool => {"bool"}
    case Byte => {"byte"}
    case Creatable => {"creatable", "message"}
    case Double => {"double"}
    case Float => {"float"}
    case Int => {"int"}
    case Key => {"plkey"}
    case Point3 => {"point3"}
    case Quat => {"quat", "quaternion"}
    case Rgb => {"rgb"}
    case Rgb8 => {"rgb8"}
    case Rgba => {"rgba"}
    case Rgba8 => {"rgba8"}
    case Short => {"short"}
    case String32 => {"string32"}
    case Time => {"time"}
    case Vector3 => {"vector3"}
    case StateDesc(_) => {}
  }

  predicate SpellsType(token: Token, t: VarType) {
    if token.TypeReference? then t == StateDesc(token.name)
    else token.Identifier? && exists word :: word in TypeWords(t) && InAnyCase(token.name, word)
  }

  // ===== values =====

  /** One token, which may stand in parentheses. */
  predicate Wrapped(ts: seq<Token>) {
    |ts| == 1 || (|ts| == 3 && ts[0] == Symbol('(') && ts[2] == Symbol(')'))
  }

  function Inner(ts: seq<Token>): Token
    requires Wrapped(ts)
  {
    if |ts| == 1 then ts[0] else ts[1]
  }

  predicate SaysBool(token: Token, b: bool) {
    || (token.Identifier? && InAnyCase(token.name, if b then "true" else "false"))
    || token == Number(if b then "1" else "0")
  }

  predicate SaysNumber(ts: seq<Token>) {
    Wrapped(ts) && Inner(ts).Number?
  }

  /** Numbers with commas between them, in parentheses. */
  predicate Listed(ts: seq<Token>, n: nat) {
    && |ts| == 2 * n + 1 && ts[0] == Symbol('(')
    && forall i :: 0 <= i < n ==> ListedAt(ts, n, i)
  }

  predicate ListedAt(ts: seq<Token>, n: nat, i: nat)
    requires i < n && |ts| == 2 * n + 1
  {
    ts[2 * i + 1].Number? && ts[2 * i + 2] == Symbol(if i + 1 == n then ')' else ',')
  }

  function TextAt(ts: seq<Token>, i: nat): string {
    if 2 * i + 1 < |ts| && ts[2 * i + 1].Number? then ts[2 * i + 1].text else ""
  }

  predicate SaysFloats(fl: Floats, ts: seq<Token>, fs: seq<u32>) {
    Listed(ts, |fs|) && forall i :: 0 <= i < |fs| ==> fl.single(TextAt(ts, i)) == Some(fs[i])
  }

  ghost predicate SaysBytes(ts: seq<Token>, ys: seq<u8>) {
    Listed(ts, |ys|) && forall i :: 0 <= i < |ys| ==> Denotes(TextAt(ts, i), ys[i])
  }

  /** What may follow `DEFAULT =`. */
  ghost predicate SpellsValue(fl: Floats, t: VarType, ts: seq<Token>, d: Option<VarDefault>) {
    if t.Key? then ts == [Identifier("nil")] && d.None?
    else d.Some? && SpellsSome(fl, t, ts, d.value)
  }

  ghost predicate SpellsSome(fl: Floats, t: VarType, ts: seq<Token>, d: VarDefault) {
    match t
    case Bool => d.DefaultBool? && Wrapped(ts) && SaysBool(Inner(ts), d.b)
    case Byte => d.DefaultByte? && SaysNumber(ts) && Denotes(Inner(ts).text, d.y)
    case Double => d.DefaultDouble? && SaysNumber(ts) && fl.double(Inner(ts).text) == Some(d.d)
    case Float => d.DefaultFloat? && SaysNumber(ts) && fl.single(Inner(ts).text) == Some(d.f)
    case Int => d.DefaultInt? && SaysNumber(ts) && DenotesInt(Inner(ts).text, d.i)
    case Short => d.DefaultShort? && SaysNumber(ts) && DenotesInt(Inner(ts).text, d.h)
    case String32 => d.DefaultString? && (ts == [StringLiteral(d.s)] || ts == [Identifier(d.s)])
    case Time => d.DefaultTime? && d.t.micros == 0 && SaysNumber(ts) && Denotes(Inner(ts).text, d.t.secs)
    case Point3 => d.DefaultVector? && SaysFloats(fl, ts, [d.v.x, d.v.y, d.v.z])
    case Vector3 => d.DefaultVector? && SaysFloats(fl, ts, [d.v.x, d.v.y, d.v.z])
    case Quat => d.DefaultQuat? && SaysFloats(fl, ts, [d.q.x, d.q.y, d.q.z, d.q.w])
    case Rgb => d.DefaultRgba? && d.c.a == 0x3F80_0000 && SaysFloats(fl, ts, [d.c.r, d.c.g, d.c.b])
    case Rgba => d.DefaultRgba? && SaysFloats(fl, ts, [d.c.r, d.c.g, d.c.b, d.c.a])
    case Rgb8 => d.DefaultRgba8? && d.k.a == 255 && SaysBytes(ts, [d.k.r, d.k.g, d.k.b])
    case Rgba8 => d.DefaultRgba8? && SaysBytes(ts, [d.k.r, d.k.g, d.k.b, d.k.a])
    case _ => false
  }

  // ===== variables and descriptors =====

  /** The optional fields after a variable, in any number and order.  The last default
      counts; options and semicolons say nothing. */
  ghost predicate SpellsOptions(fl: Floats, t: VarType, ts: seq<Token>, before: Option<VarDefault>,
                                after: Option<VarDefault>)
    decreases |ts|
  {
    if ts == [] then before == after
    else if ts[0] == Symbol(';') then SpellsOptions(fl, t, ts[1..], before, after)
    else if ts[0] == Identifier("DEFAULTOPTION") || ts[0] == Identifier("DISPLAYOPTION") then
      |ts| >= 3 && ts[1] == Symbol('=') && ts[2].Identifier? && SpellsOptions(fl, t, ts[3..], before, after)
    else
      && |ts| >= 2 && ts[0] == Identifier("DEFAULT") && ts[1] == Symbol('=')
      && exists k, d :: 2 <= k <= |ts| && SpellsValue(fl, t, ts[2..k], d) && SpellsOptions(fl, t, ts[k..], d, after)
  }

  /** What may follow `VAR`. */
  ghost predicate SpellsVar(fl: Floats, ts: seq<Token>, v: VarDescriptor) {
    && |ts| >= 4 && SpellsType(ts[0], v.varType) && ts[1] == Identifier(v.name) && ts[2] == Symbol('[')
    && if v.count.None? then ts[3] == Symbol(']') && SpellsOptions(fl, v.varType, ts[4..], None, v.default)
       else
         && |ts| >= 5 && ts[3].Number? && Denotes(ts[3].text, v.count.value) && v.count.value < 0x1_0000_0000_0000_0000
         && ts[4] == Symbol(']') && SpellsOptions(fl, v.varType, ts[5..], None, v.default)
  }

  /** What may stand between the braces.  The last version counts. */
  ghost predicate SpellsBody(fl: Floats, ts: seq<Token>, before: Option<u16>, version: u16, vars: seq<VarDescriptor>)
    decreases |ts|
  {
    if ts == [] then before == Some(version) && vars == []
    else if ts[0] == Identifier("VERSION") then
      && |ts| >= 2 && ts[1].Number?
      && exists w: u16 :: Denotes(ts[1].text, w) && SpellsBody(fl, ts[2..], Some(w), version, vars)
    else
      && ts[0] == Identifier("VAR") && vars != []
      && exists k :: 1 <= k <= |ts| && SpellsVar(fl, ts[1..k], vars[0])
                     && SpellsBody(fl, ts[k..], before, version, vars[1..])
  }

  ghost predicate SpellsDesc(fl: Floats, ts: seq<Token>, d: StateDescriptor) {
    && |ts| >= 4 && ts[0] == Identifier("STATEDESC") && ts[1] == Identifier(d.name) && ts[2] == Symbol('{')
    && ts[|ts| - 1] == Symbol('}') && SpellsBody(fl, ts[3..|ts| - 1], None, d.version, d.vars)
  }

  ghost predicate Spells(fl: Floats, ts: seq<Token>, ds: seq<StateDescriptor>)
    decreases |ts|
  {
    if ts == [] then ds == []
    else
      && ds != []
      && exists k :: 1 <= k <= |ts| && SpellsDesc(fl, ts[..k], ds[0]) && Spells(fl, ts[k..], ds[1..])
  }

  // ===== slices =====

  lemma Twice<T>(s: seq<T>, i: nat, j: nat)
    requires i + j <= |s|
    ensures s[i..][j..] == s[i + j..]
  {
  }

  // ===== single values =====

  lemma NumberParsed<T>(ts: seq<Located>, n: nat, parse: string -> Option<T>, v: T, context: string)
    requires n <= |ts| && SaysNumber(Strip(ts)[..n]) && parse(Inner(Strip(ts)[..n]).text) == Some(v)
    ensures ExpectNumber(ts, parse, true, context) == Found(v, ts[n..])
  {
    var s := Strip(ts)[..n];
    assert s[0] == ts[0].token;
    if n == 3 {
      assert s[1] == ts[1].token && s[2] == ts[2].token;
      assert ts[1..][1..][1..] == ts[3..];
    }
  }

  lemma NumberSpelled<T>(ts: seq<Located>, parse: string -> Option<T>, context: string) returns (n: nat)
    requires ExpectNumber(ts, parse, true, context).Found?
    ensures var r := ExpectNumber(ts, parse, true, context);
            && n <= |ts| && SaysNumber(Strip(ts)[..n]) && parse(Inner(Strip(ts)[..n]).text) == Some(r.value)
            && r.rest == ts[n..]
  {
    n := if ts[0].token.Number? then 1 else 3;
    assert Strip(ts)[..n][0] == ts[0].token;
    if n == 3 {
      assert ts[1..][1..][1..] == ts[3..];
    }
  }

  lemma BoolWords(token: Token)
    ensures token.Identifier? ==>
              && (Fold(token.name) == "true" <==> InAnyCase(token.name, "true"))
              && (Fold(token.name) == "false" <==> InAnyCase(token.name, "false"))
  {
    if token.Identifier? {
      FoldIff(token.name, "true");
      FoldIff(token.name, "false");
    }
  }

  lemma BoolParsed(ts: seq<Located>, n: nat, b: bool, context: string)
    requires n <= |ts| && Wrapped(Strip(ts)[..n]) && SaysBool(Inner(Strip(ts)[..n]), b)
    ensures ExpectBool(ts, true, context) == Found(b, ts[n..])
  {
    hide Fold, InAnyCase;
    BoolWords(Inner(Strip(ts)[..n]));
    var s := Strip(ts)[..n];
    assert s[0] == ts[0].token;
    if n == 3 {
      assert s[1] == ts[1].token && s[2] == ts[2].token;
      assert ts[1..][1..][1..] == ts[3..];
    }
  }

  lemma BoolSpelled(ts: seq<Located>, context: string) returns (n: nat)
    requires ExpectBool(ts, true, context).Found?
    ensures var r := ExpectBool(ts, true, context);
            n <= |ts| && Wrapped(Strip(ts)[..n]) && SaysBool(Inner(Strip(ts)[..n]), r.value) && r.rest == ts[n..]
  {
    hide Fold, InAnyCase;
    n := if ts[0].token == Symbol('(') then 3 else 1;
    BoolWords(ts[if n == 3 then 1 else 0].token);
    assert Strip(ts)[..n][0] == ts[0].token;
    if n == 3 {
      assert ts[1..][1..][1..] == ts[3..];
    }
  }

  // ===== lists =====

  ghost predicate SaysItems<T>(ts: seq<Token>, parse: string -> Option<T>, vs: seq<T>) {
    Listed(ts, |vs|) && forall i :: 0 <= i < |vs| ==> parse(TextAt(ts, i)) == Some(vs[i])
  }

  lemma {:induction false} ItemsParsed<T>(ts: seq<Located>, parse: string -> Option<T>, vs: seq<T>, j: nat)
    requires j < |vs| && 2 * |vs| + 1 <= |ts| && SaysItems(Strip(ts)[..2 * |vs| + 1], parse, vs)
    ensures Items(ts[2 * j + 1..], parse, vs[..j], KW_DEFAULT) == Found(vs, ts[2 * |vs| + 1..])
    decreases |vs| - j
  {
    hide Items, SaysItems, Strip;
    ItemTokens(ts, parse, vs, j);
    ItemStep(ts, 2 * j + 1, parse, vs[..j], vs[j]);
    assert vs[..j] + [vs[j]] == vs[..j + 1];
    if j + 1 < |vs| {
      ItemsParsed(ts, parse, vs, j + 1);
    } else {
      assert vs[..|vs|] == vs;
    }
  }

  lemma ItemTokens<T>(ts: seq<Located>, parse: string -> Option<T>, vs: seq<T>, j: nat)
    requires j < |vs| && 2 * |vs| + 1 <= |ts| && SaysItems(Strip(ts)[..2 * |vs| + 1], parse, vs)
    ensures ts[2 * j + 1].token.Number? && parse(ts[2 * j + 1].token.text) == Some(vs[j])
    ensures ts[2 * j + 2].token == Symbol(if j + 1 == |vs| then ')' else ',')
  {
    var s := Strip(ts)[..2 * |vs| + 1];
    assert ListedAt(s, |vs|, j) && s[2 * j + 1] == ts[2 * j + 1].token && s[2 * j + 2] == ts[2 * j + 2].token;
    assert parse(TextAt(s, j)) == Some(vs[j]);
  }

  lemma ItemStep<T>(ts: seq<Located>, i: nat, parse: string -> Option<T>, acc: seq<T>, v: T)
    requires i + 1 < |ts| && ts[i].token.Number? && parse(ts[i].token.text) == Some(v)
    ensures ts[i + 1].token == Symbol(',') ==>
              Items(ts[i..], parse, acc, KW_DEFAULT) == Items(ts[i + 2..], parse, acc + [v], KW_DEFAULT)
    ensures ts[i + 1].token == Symbol(')') ==> Items(ts[i..], parse, acc, KW_DEFAULT) == Found(acc + [v], ts[i + 2..])
  {
    var ts1 := ts[i..];
    assert ts1[0] == ts[i] && ts1[1..][0] == ts[i + 1] && ts1[1..][1..] == ts[i + 2..];
  }

  lemma ListParsed<T>(ts: seq<Located>, parse: string -> Option<T>, vs: seq<T>)
    requires vs != [] && 2 * |vs| + 1 <= |ts| && SaysItems(Strip(ts)[..2 * |vs| + 1], parse, vs)
    ensures ExpectExactly(ts, parse, |vs|) == Found(vs, ts[2 * |vs| + 1..])
  {
    hide Items;
    assert Strip(ts)[..2 * |vs| + 1][0] == ts[0].token;
    ItemsParsed(ts, parse, vs, 0);
    assert vs[..0] == [];
  }

  ghost predicate ItemAt<T>(ts: seq<Located>, parse: string -> Option<T>, vs: seq<T>, a: nat, i: nat)
    requires a <= i < |vs| && 2 * (|vs| - a) <= |ts|
  {
    var k := 2 * (i - a);
    && ts[k].token.Number? && parse(ts[k].token.text) == Some(vs[i])
    && ts[k + 1].token == Symbol(if i + 1 == |vs| then ')' else ',')
  }

  lemma {:induction false} ItemsSpelled<T>(ts: seq<Located>, parse: string -> Option<T>, acc: seq<T>, context: string)
    requires Items(ts, parse, acc, context).Found?
    ensures var r := Items(ts, parse, acc, context);
            && |acc| < |r.value| && 2 * (|r.value| - |acc|) <= |ts| && r.value[..|acc|] == acc
            && r.rest == ts[2 * (|r.value| - |acc|)..]
            && forall i :: |acc| <= i < |r.value| ==> ItemAt(ts, parse, r.value, |acc|, i)
    decreases |ts|
  {
    var r := Items(ts, parse, acc, context);
    var item := ExpectNumber(ts, parse, false, context);
    assert ts[0].token.Number? && item.rest == ts[1..];
    if ts[1].token == Symbol(',') {
      assert ts[1..][1..] == ts[2..];
      ItemsSpelled(ts[2..], parse, acc + [item.value], context);
      var a := |acc|;
      assert r.value[..a] == r.value[..a + 1][..a];
      assert r.value[a] == r.value[..a + 1][a];
      forall i | a <= i < |r.value|
        ensures ItemAt(ts, parse, r.value, a, i)
      {
        if i > a {
          assert ItemAt(ts[2..], parse, r.value, a + 1, i);
        }
      }
    } else {
      assert ts[1..][1..] == ts[2..];
    }
  }

  lemma ListSpelled<T>(ts: seq<Located>, parse: string -> Option<T>, m: nat)
    requires ExpectExactly(ts, parse, m).Found?
    ensures var r := ExpectExactly(ts, parse, m);
            && 0 < m && 2 * m + 1 <= |ts| && SaysItems(Strip(ts)[..2 * m + 1], parse, r.value) && |r.value| == m
            && r.rest == ts[2 * m + 1..]
  {
    hide Items;
    var r := ExpectExactly(ts, parse, m);
    ItemsSpelled(ts[1..], parse, [], KW_DEFAULT);
    var s := Strip(ts)[..2 * m + 1];
    assert s[0] == ts[0].token;
    forall i | 0 <= i < m
      ensures ListedAt(s, m, i) && parse(TextAt(s, i)) == Some(r.value[i])
    {
      assert ItemAt(ts[1..], parse, r.value, 0, i);
      assert s[2 * i + 1] == ts[1..][2 * i].token && s[2 * i + 2] == ts[1..][2 * i + 1].token;
    }
    assert ts[1..][2 * m..] == ts[2 * m + 1..];
  }

  lemma BytesAre(ts: seq<Token>, ys: seq<u8>)
    ensures SaysItems(ts, ParseU8, ys) <==> SaysBytes(ts, ys)
  {
    hide Denotes, Listed, ParseU8;
    forall i | 0 <= i < |ys|
      ensures ParseU8(TextAt(ts, i)) == Some(ys[i]) <==> Denotes(TextAt(ts, i), ys[i])
    {
      NumbersIff(TextAt(ts, i), ys[i], 0);
    }
  }

  // ===== values =====

  predicate TakesList(t: VarType) {
    t.Point3? || t.Vector3? || t.Quat? || t.Rgb? || t.Rgba? || t.Rgb8? || t.Rgba8?
  }

  /** The value after the sign, for the types whose value is one token. */
  lemma SingleParsed(fl: Floats, ts: seq<Located>, n: nat, t: VarType, d: Option<VarDefault>)
    requires ts != [] && ts[0].token == Symbol('=') && n < |ts| && !TakesList(t)
    requires SpellsValue(fl, t, Strip(ts[1..])[..n], d)
    ensures ParseDefault(fl, ts, t) == Found(d, ts[1..][n..])
  {
    hide Denotes, DenotesInt, Wrapped, Inner, SaysBool, ExpectNumber, ExpectBool, ParseU8, ParseU32, ParseI16, ParseI32;
    var ts1 := ts[1..];
    var s := Strip(ts1)[..n];
    if t.Bool? {
      BoolParsed(ts1, n, d.value.b, KW_DEFAULT);
    } else if t.Key? || t.String32? {
      assert s[0] == ts1[0].token;
    } else if t.Float? {
      NumberParsed(ts1, n, fl.single, d.value.f, KW_DEFAULT);
    } else if t.Double? {
      NumberParsed(ts1, n, fl.double, d.value.d, KW_DEFAULT);
    } else if t.Byte? {
      NumbersIff(Inner(s).text, d.value.y, 0);
      NumberParsed(ts1, n, ParseU8, d.value.y, KW_DEFAULT);
    } else if t.Int? {
      NumbersIff(Inner(s).text, 0, d.value.i);
      NumberParsed(ts1, n, ParseI32, d.value.i, KW_DEFAULT);
    } else if t.Short? {
      NumbersIff(Inner(s).text, 0, d.value.h);
      NumberParsed(ts1, n, ParseI16, d.value.h, KW_DEFAULT);
    } else {
      NumbersIff(Inner(s).text, d.value.t.secs, 0);
      NumberParsed(ts1, n, ParseU32, d.value.t.secs, KW_DEFAULT);
    }
  }

  lemma SingleSpelled(fl: Floats, ts: seq<Located>, t: VarType) returns (n: nat)
    requires ParseDefault(fl, ts, t).Found? && !TakesList(t)
    ensures var r := ParseDefault(fl, ts, t);
            && ts != [] && ts[0].token == Symbol('=') && n < |ts| && r.rest == ts[1..][n..]
            && SpellsValue(fl, t, Strip(ts[1..])[..n], r.value)
  {
    hide Denotes, DenotesInt, Wrapped, Inner, SaysBool, ExpectNumber, ExpectBool, ParseU8, ParseU32, ParseI16, ParseI32;
    var ts1, d := ts[1..], ParseDefault(fl, ts, t).value;
    n := 1;
    if t.Bool? {
      n := BoolSpelled(ts1, KW_DEFAULT);
    } else if t.Float? {
      n := NumberSpelled(ts1, fl.single, KW_DEFAULT);
    } else if t.Double? {
      n := NumberSpelled(ts1, fl.double, KW_DEFAULT);
    } else if t.Byte? {
      n := NumberSpelled(ts1, ParseU8, KW_DEFAULT);
      NumbersIff(Inner(Strip(ts1)[..n]).text, d.value.y, 0);
    } else if t.Int? {
      n := NumberSpelled(ts1, ParseI32, KW_DEFAULT);
      NumbersIff(Inner(Strip(ts1)[..n]).text, 0, d.value.i);
    } else if t.Short? {
      n := NumberSpelled(ts1, ParseI16, KW_DEFAULT);
      NumbersIff(Inner(Strip(ts1)[..n]).text, 0, d.value.h);
    } else if t.Time? {
      n := NumberSpelled(ts1, ParseU32, KW_DEFAULT);
      NumbersIff(Inner(Strip(ts1)[..n]).text, d.value.t.secs, 0);
    } else {
      assert Strip(ts1)[..n] == [ts1[0].token];
    }
  }

  /** The floats of a list, in the order of the text. */
  function FloatItems(t: VarType, d: VarDefault): seq<u32> {
    match d
    case DefaultVector(v) => [v.x, v.y, v.z]
    case DefaultQuat(q) => [q.x, q.y, q.z, q.w]
    case DefaultRgba(c) => if t.Rgba? then [c.r, c.g, c.b, c.a] else [c.r, c.g, c.b]
    case _ => []
  }

  function ByteItems(t: VarType, k: Color32): seq<u8> {
    if t.Rgba8? then [k.r, k.g, k.b, k.a] else [k.r, k.g, k.b]
  }

  lemma ListedLength(ts: seq<Token>, m: nat)
    requires Listed(ts, m)
    ensures |ts| == 2 * m + 1
  {
  }

  lemma ListValueParsed(fl: Floats, ts: seq<Located>, n: nat, t: VarType, d: Option<VarDefault>)
    requires ts != [] && ts[0].token == Symbol('=') && n < |ts| && TakesList(t)
    requires SpellsValue(fl, t, Strip(ts[1..])[..n], d)
    ensures ParseDefault(fl, ts, t) == Found(d, ts[1..][n..])
  {
    hide SpellsValue, ParseDefault;
    if t.Rgb8? || t.Rgba8? {
      BytesParsed(fl, ts, n, t, d);
    } else {
      FloatsParsed(fl, ts, n, t, d);
    }
  }

  lemma BytesParsed(fl: Floats, ts: seq<Located>, n: nat, t: VarType, d: Option<VarDefault>)
    requires ts != [] && ts[0].token == Symbol('=') && n < |ts| && (t.Rgb8? || t.Rgba8?)
    requires SpellsValue(fl, t, Strip(ts[1..])[..n], d)
    ensures ParseDefault(fl, ts, t) == Found(d, ts[1..][n..])
  {
    hide Denotes, Listed, ExpectExactly, TextAt, Strip;
    var ts1 := ts[1..];
    var s, ys := Strip(ts1)[..n], ByteItems(t, d.value.k);
    ListedLength(s, |ys|);
    BytesAre(s, ys);
    ListParsed(ts1, ParseU8, ys);
  }

  lemma FloatsParsed(fl: Floats, ts: seq<Located>, n: nat, t: VarType, d: Option<VarDefault>)
    requires ts != [] && ts[0].token == Symbol('=') && n < |ts| && TakesList(t) && !t.Rgb8? && !t.Rgba8?
    requires SpellsValue(fl, t, Strip(ts[1..])[..n], d)
    ensures ParseDefault(fl, ts, t) == Found(d, ts[1..][n..])
  {
    hide Denotes, Listed, ExpectExactly, TextAt, Strip;
    var ts1 := ts[1..];
    var s, fs := Strip(ts1)[..n], FloatItems(t, d.value);
    ListedLength(s, |fs|);
    ListParsed(ts1, fl.single, fs);
  }

  lemma ListValueSpelled(fl: Floats, ts: seq<Located>, t: VarType) returns (n: nat)
    requires ParseDefault(fl, ts, t).Found? && TakesList(t)
    ensures var r := ParseDefault(fl, ts, t);
            && ts != [] && ts[0].token == Symbol('=') && n < |ts| && r.rest == ts[1..][n..]
            && SpellsValue(fl, t, Strip(ts[1..])[..n], r.value)
  {
    hide Denotes, Listed, ExpectExactly, TextAt;
    var ts1, d := ts[1..], ParseDefault(fl, ts, t).value;
    var m := if t.Quat? || t.Rgba? || t.Rgba8? then 4 else 3;
    n := 2 * m + 1;
    if t.Rgb8? || t.Rgba8? {
      ListSpelled(ts1, ParseU8, m);
      var ys := ExpectExactly(ts1, ParseU8, m).value;
      assert ys == ByteItems(t, d.value.k);
      BytesAre(Strip(ts1)[..n], ys);
    } else {
      ListSpelled(ts1, fl.single, m);
      assert ExpectExactly(ts1, fl.single, m).value == FloatItems(t, d.value);
    }
  }

  lemma ValueParsed(fl: Floats, ts: seq<Located>, n: nat, t: VarType, d: Option<VarDefault>)
    requires ts != [] && ts[0].token == Symbol('=') && n < |ts|
    requires SpellsValue(fl, t, Strip(ts[1..])[..n], d)
    ensures ParseDefault(fl, ts, t) == Found(d, ts[n + 1..])
  {
    hide SpellsValue, ParseDefault;
    Twice(ts, 1, n);
    if TakesList(t) {
      ListValueParsed(fl, ts, n, t, d);
    } else {
      SingleParsed(fl, ts, n, t, d);
    }
  }

  lemma ValueSpelled(fl: Floats, ts: seq<Located>, t: VarType) returns (n: nat)
    requires ParseDefault(fl, ts, t).Found?
    ensures var r := ParseDefault(fl, ts, t);
            && ts != [] && ts[0].token == Symbol('=') && n < |ts| && r.rest == ts[n + 1..]
            && SpellsValue(fl, t, Strip(ts[1..])[..n], r.value)
  {
    hide SpellsValue, ParseDefault;
    if TakesList(t) {
      n := ListValueSpelled(fl, ts, t);
    } else {
      n := SingleSpelled(fl, ts, t);
    }
    Twice(ts, 1, n);
  }

  // ===== options =====

  predicate StartsOption(t: Token) {
    t == Identifier(KW_DEFAULT) || IsOption(t) || t == Symbol(';')
  }

  /** How the loop goes on, by its next token. */
  lemma OptionSteps(fl: Floats, ts: seq<Located>, t: VarType, before: Option<VarDefault>)
    requires ts != []
    ensures var r, first := ParseOptions(fl, ts, t, before), ts[0].token;
            && (!StartsOption(first) ==> r == Found(before, ts))
            && (first == Symbol(';') ==> r == ParseOptions(fl, ts[1..], t, before))
            && (IsOption(first) ==>
                  if |ts| >= 3 && ts[1].token == Symbol('=') && ts[2].token.Identifier?
                  then r == ParseOptions(fl, ts[3..], t, before) else r.Stop?)
            && (first == Identifier(KW_DEFAULT) ==>
                  var d := ParseDefault(fl, ts[1..], t);
                  if d.Found? then r == ParseOptions(fl, d.rest, t, d.value) else r.Stop?)
  {
    hide ParseDefault;
    if IsOption(ts[0].token) {
      hide ParseOptions;
      OptionStep(fl, ts, t, before);
    }
  }

  lemma OptionStep(fl: Floats, ts: seq<Located>, t: VarType, before: Option<VarDefault>)
    requires ts != [] && IsOption(ts[0].token)
    ensures var r := ParseOptions(fl, ts, t, before);
            if |ts| >= 3 && ts[1].token == Symbol('=') && ts[2].token.Identifier?
            then r == ParseOptions(fl, ts[3..], t, before) else r.Stop?
  {
    hide ParseDefault;
    if |ts| >= 3 {
      assert ts[1..][1..][1..] == ts[3..];
    }
  }

  lemma SpellSteps(fl: Floats, t: VarType, s: seq<Token>, before: Option<VarDefault>, after: Option<VarDefault>)
    ensures s == [] ==> (SpellsOptions(fl, t, s, before, after) <==> before == after)
    ensures s != [] && s[0] == Symbol(';') ==>
              (SpellsOptions(fl, t, s, before, after) <==> SpellsOptions(fl, t, s[1..], before, after))
    ensures s != [] && IsOption(s[0]) ==>
              (SpellsOptions(fl, t, s, before, after) <==>
                 && |s| >= 3 && s[1] == Symbol('=') && s[2].Identifier? && SpellsOptions(fl, t, s[3..], before, after))
    ensures s != [] && !StartsOption(s[0]) ==> !SpellsOptions(fl, t, s, before, after)
  {
    hide SpellsValue;
  }

  lemma SpellDefault(fl: Floats, t: VarType, s: seq<Token>, before: Option<VarDefault>, after: Option<VarDefault>,
                     k: nat, d: Option<VarDefault>)
    requires 2 <= k <= |s| && s[0] == Identifier(KW_DEFAULT) && s[1] == Symbol('=')
    requires SpellsValue(fl, t, s[2..k], d) && SpellsOptions(fl, t, s[k..], d, after)
    ensures SpellsOptions(fl, t, s, before, after)
  {
    hide SpellsValue;
  }

  lemma SpelledDefault(fl: Floats, t: VarType, s: seq<Token>, before: Option<VarDefault>, after: Option<VarDefault>)
      returns (k: nat, d: Option<VarDefault>)
    requires s != [] && s[0] == Identifier(KW_DEFAULT) && SpellsOptions(fl, t, s, before, after)
    ensures 2 <= k <= |s| && s[1] == Symbol('=')
    ensures SpellsValue(fl, t, s[2..k], d) && SpellsOptions(fl, t, s[k..], d, after)
  {
    hide SpellsValue;
    k, d :| 2 <= k <= |s| && SpellsValue(fl, t, s[2..k], d) && SpellsOptions(fl, t, s[k..], d, after);
  }

  /** The first `n` tokens. */
  function Front(ts: seq<Located>, n: nat): (s: seq<Token>)
    requires n <= |ts|
    ensures |s| == n
  {
    Strip(ts)[..n]
  }

  lemma FrontIs(ts: seq<Located>, n: nat, k: nat)
    requires k <= n <= |ts|
    ensures Front(ts[k..], n - k) == Front(ts, n)[k..] && ts[k..][n - k..] == ts[n..]
    ensures n < |ts| ==> ts[k..][n - k] == ts[n]
    ensures forall i :: 0 <= i < k ==> Front(ts, n)[i] == ts[i].token
    ensures k >= 2 ==> Front(ts[1..][1..], k - 2) == Front(ts, n)[2..k]
  {
  }

  lemma {:induction false} OptionsParsed(fl: Floats, ts: seq<Located>, n: nat, t: VarType, before: Option<VarDefault>,
                                         after: Option<VarDefault>)
    requires n < |ts| && !StartsOption(ts[n].token) && SpellsOptions(fl, t, Front(ts, n), before, after)
    ensures ParseOptions(fl, ts, t, before) == Found(after, ts[n..])
    decreases n
  {
    hide SpellsValue, ParseDefault, ParseOptions, SpellsOptions, Front;
    OptionSteps(fl, ts, t, before);
    SpellSteps(fl, t, Front(ts, n), before, after);
    if n == 0 {
      assert ts[0..] == ts;
    } else {
      FrontIs(ts, n, 1);
      if ts[0].token == Identifier(KW_DEFAULT) {
        DefaultParsed(fl, ts, n, t, before, after);
      } else {
        var k := if IsOption(ts[0].token) then 3 else 1;
        FrontIs(ts, n, k);
        OptionsParsed(fl, ts[k..], n - k, t, before, after);
      }
    }
  }

  lemma {:induction false} DefaultParsed(fl: Floats, ts: seq<Located>, n: nat, t: VarType, before: Option<VarDefault>,
                                         after: Option<VarDefault>)
    requires 0 < n < |ts| && !StartsOption(ts[n].token) && SpellsOptions(fl, t, Front(ts, n), before, after)
    requires ts[0].token == Identifier(KW_DEFAULT)
    ensures ParseOptions(fl, ts, t, before) == Found(after, ts[n..])
    decreases n, 0
  {
    hide SpellsValue, ParseDefault, ParseOptions, SpellsOptions, Front;
    OptionSteps(fl, ts, t, before);
    FrontIs(ts, n, 1);
    var k, d := SpelledDefault(fl, t, Front(ts, n), before, after);
    FrontIs(ts, n, k);
    ValueFront(fl, ts[1..], k - 2, t, d);
    Twice(ts, 1, k - 1);
    OptionsParsed(fl, ts[k..], n - k, t, d, after);
  }

  lemma ValueFront(fl: Floats, ts: seq<Located>, n: nat, t: VarType, d: Option<VarDefault>)
    requires ts != [] && ts[0].token == Symbol('=') && n < |ts| && SpellsValue(fl, t, Front(ts[1..], n), d)
    ensures ParseDefault(fl, ts, t) == Found(d, ts[n + 1..])
  {
    hide SpellsValue, ParseDefault;
    ValueParsed(fl, ts, n, t, d);
  }

  lemma {:induction false} OptionsSpelled(fl: Floats, ts: seq<Located>, t: VarType, before: Option<VarDefault>)
      returns (n: nat)
    requires ParseOptions(fl, ts, t, before).Found?
    ensures var r := ParseOptions(fl, ts, t, before);
            && n < |ts| && r.rest == ts[n..] && !StartsOption(ts[n].token)
            && SpellsOptions(fl, t, Front(ts, n), before, r.value)
    decreases |ts|
  {
    hide SpellsValue, ParseDefault, ParseOptions, SpellsOptions, Front;
    NeedsToken(fl, t, before);
    OptionSteps(fl, ts, t, before);
    var r := ParseOptions(fl, ts, t, before);
    n := 0;
    if ts[0].token == Identifier(KW_DEFAULT) {
      n := DefaultSpelled(fl, ts, t, before);
    } else if StartsOption(ts[0].token) {
      var k := if IsOption(ts[0].token) then 3 else 1;
      var m := OptionsSpelled(fl, ts[k..], t, before);
      n := k + m;
      FrontIs(ts, n, k);
      SpellSteps(fl, t, Front(ts, n), before, r.value);
    } else {
      SpellSteps(fl, t, Front(ts, n), before, r.value);
      assert ts[0..] == ts;
    }
  }

  lemma {:induction false} DefaultSpelled(fl: Floats, ts: seq<Located>, t: VarType, before: Option<VarDefault>)
      returns (n: nat)
    requires ts != [] && ParseOptions(fl, ts, t, before).Found? && ts[0].token == Identifier(KW_DEFAULT)
    ensures var r := ParseOptions(fl, ts, t, before);
            && n < |ts| && r.rest == ts[n..] && !StartsOption(ts[n].token)
            && SpellsOptions(fl, t, Front(ts, n), before, r.value)
    decreases |ts|, 0
  {
    hide SpellsValue, ParseDefault, ParseOptions, SpellsOptions, Front;
    OptionSteps(fl, ts, t, before);
    var v := FrontValue(fl, ts[1..], t);
    Twice(ts, 1, v + 1);
    var d, k := ParseDefault(fl, ts[1..], t).value, v + 2;
    var m := OptionsSpelled(fl, ts[k..], t, d);
    n := k + m;
    FrontIs(ts, n, k);
    SpellDefault(fl, t, Front(ts, n), before, ParseOptions(fl, ts, t, before).value, k, d);
  }

  lemma FrontValue(fl: Floats, ts: seq<Located>, t: VarType) returns (n: nat)
    requires ParseDefault(fl, ts, t).Found?
    ensures var r := ParseDefault(fl, ts, t);
            && ts != [] && ts[0].token == Symbol('=') && n < |ts| && r.rest == ts[n + 1..]
            && SpellsValue(fl, t, Front(ts[1..], n), r.value)
  {
    hide SpellsValue, ParseDefault;
    n := ValueSpelled(fl, ts, t);
  }

  lemma NeedsToken(fl: Floats, t: VarType, before: Option<VarDefault>)
    ensures ParseOptions(fl, [], t, before).Stop?
  {
  }

  // ===== variables =====

  lemma TypeIff(word: string, t: VarType)
    ensures TypeNamed(word) == Some(t) <==> word in TypeWords(t)
  {
    hide TypeNamed, TypeWords;
    if word in TypeWords(t) {
      TypeKnown(word, t);
    }
    if TypeNamed(word).Some? {
      TypeWord(word);
    }
  }

  lemma SmallWords(word: string, t: VarType)
    requires word in TypeWords(t)
    ensures Small(word)
  {
  }

  lemma TypeWord(word: string)
    requires TypeNamed(word).Some?
    ensures word in TypeWords(TypeNamed(word).value)
  {
  }

  lemma TypeKnown(word: string, t: VarType)
    requires word in TypeWords(t)
    ensures TypeNamed(word) == Some(t)
  {
    hide TypeNamed, TypeWords;
    if t.AgeTimeOfDay? || t.Bool? || t.Byte? || t.Creatable? || t.Double? || t.Float? || t.Int? || t.Key? || t.Point3? {
      EarlyType(word, t);
    } else if t.Quat? || t.Rgb? || t.Rgb8? || t.Rgba? || t.Rgba8? {
      MiddleType(word, t);
    } else {
      LateType(word, t);
    }
  }

  lemma EarlyType(word: string, t: VarType)
    requires word in TypeWords(t)
    requires t.AgeTimeOfDay? || t.Bool? || t.Byte? || t.Creatable? || t.Double? || t.Float? || t.Int? || t.Key? ||
             t.Point3?
    ensures TypeNamed(word) == Some(t)
  {
  }

  lemma MiddleType(word: string, t: VarType)
    requires word in TypeWords(t) && (t.Quat? || t.Rgb? || t.Rgb8? || t.Rgba? || t.Rgba8?)
    ensures TypeNamed(word) == Some(t)
  {
  }

  lemma LateType(word: string, t: VarType)
    requires word in TypeWords(t) && (t.Short? || t.String32? || t.Time? || t.Vector3? || t.StateDesc?)
    ensures TypeNamed(word) == Some(t)
  {
  }

  lemma TypeParsed(ts: seq<Located>, t: VarType)
    requires ts != []
    ensures ParseType(ts) == Found(t, ts[1..]) <==> SpellsType(ts[0].token, t)
    ensures ParseType(ts).Found? ==> ParseType(ts).rest == ts[1..]
  {
    hide Fold, TypeNamed, TypeWords, InAnyCase;
    if ts[0].token.Identifier? {
      var name := ts[0].token.name;
      TypeIff(Fold(name), t);
      forall word | word in TypeWords(t)
        ensures Fold(name) == word <==> InAnyCase(name, word)
      {
        SmallWords(word, t);
        FoldIff(name, word);
      }
    }
  }

  lemma VarParsed(fl: Floats, ts: seq<Located>, n: nat, v: VarDescriptor)
    requires n < |ts| && !StartsOption(ts[n].token) && SpellsVar(fl, Front(ts, n), v)
    ensures ParseVar(fl, ts) == Found(v, ts[n..])
  {
    hide ParseType, SpellsType, ParseOptions, SpellsOptions, Denotes, ParseUsize, Front;
    var k := if v.count.None? then 4 else 5;
    FrontIs(ts, n, k);
    TypeParsed(ts, v.varType);
    assert ts[1..][1..][1..] == ts[3..] && ts[3..][1..] == ts[4..];
    if v.count.Some? {
      NumbersIff(ts[3].token.text, v.count.value, 0);
      assert ts[4..][1..] == ts[5..];
    }
    OptionsParsed(fl, ts[k..], n - k, v.varType, None, v.default);
  }

  lemma VarSpelled(fl: Floats, ts: seq<Located>) returns (n: nat)
    requires ParseVar(fl, ts).Found?
    ensures var r := ParseVar(fl, ts);
            n < |ts| && r.rest == ts[n..] && !StartsOption(ts[n].token) && SpellsVar(fl, Front(ts, n), r.value)
  {
    hide ParseType, SpellsType, ParseOptions, SpellsOptions, Denotes, ParseUsize, Front;
    var v := ParseVar(fl, ts).value;
    TypeParsed(ts, v.varType);
    assert ts[1..][1..][1..] == ts[3..] && ts[3..][1..] == ts[4..];
    var k := if v.count.None? then 4 else 5;
    if v.count.Some? {
      NumbersIff(ts[3].token.text, v.count.value, 0);
      assert ts[4..][1..] == ts[5..];
    }
    var m := OptionsSpelled(fl, ts[k..], v.varType, None);
    n := k + m;
    FrontIs(ts, n, k);
  }

  // ===== descriptors =====

  lemma BodySteps(fl: Floats, ts: seq<Located>, name: string, line: nat, before: Option<u16>, acc: seq<VarDescriptor>)
    requires ts != []
    ensures var r, first := ParseBody(fl, ts, name, line, before, acc), ts[0].token;
            && (first == Symbol('}') ==>
                  r == if before.None? then Stop(MissingVersion(name, line))
                       else Found(StateDescriptor(name, before.value, acc), ts[1..]))
            && (first == Identifier(KW_VERSION) ==>
                  if |ts| >= 2 && ts[1].token.Number? && ParseU16(ts[1].token.text).Some?
                  then r == ParseBody(fl, ts[2..], name, line, Some(ParseU16(ts[1].token.text).value), acc)
                  else r.Stop?)
            && (first == Identifier(KW_VAR) ==>
                  var v := ParseVar(fl, ts[1..]);
                  if v.Found? then r == ParseBody(fl, v.rest, name, line, before, acc + [v.value]) else r.Stop?)
            && (first != Symbol('}') && first != Identifier(KW_VERSION) && first != Identifier(KW_VAR) ==> r.Stop?)
  {
    hide ParseVar;
    if |ts| >= 2 {
      assert ts[1..][1..] == ts[2..];
    }
  }

  lemma SpellBodySteps(fl: Floats, s: seq<Token>, before: Option<u16>, version: u16, vars: seq<VarDescriptor>)
    ensures s == [] ==> (SpellsBody(fl, s, before, version, vars) <==> before == Some(version) && vars == [])
    ensures s != [] && s[0] == Identifier(KW_VERSION) ==>
              (SpellsBody(fl, s, before, version, vars) <==>
                 && |s| >= 2 && s[1].Number? && ParseU16(s[1].text).Some?
                 && SpellsBody(fl, s[2..], ParseU16(s[1].text), version, vars))
    ensures s != [] && s[0] != Identifier(KW_VERSION) && s[0] != Identifier(KW_VAR) ==>
              !SpellsBody(fl, s, before, version, vars)
  {
    hide SpellsVar, Denotes, ParseU16;
    if s != [] && s[0] == Identifier(KW_VERSION) && |s| >= 2 && s[1].Number? {
      forall w: u16
        ensures Denotes(s[1].text, w) <==> ParseU16(s[1].text) == Some(w)
      {
        NumbersIff(s[1].text, w, 0);
      }
    }
  }

  lemma SpellVar(fl: Floats, s: seq<Token>, before: Option<u16>, version: u16, vars: seq<VarDescriptor>, k: nat)
    requires 1 <= k <= |s| && s[0] == Identifier(KW_VAR) && vars != [] && SpellsVar(fl, s[1..k], vars[0])
    requires SpellsBody(fl, s[k..], before, version, vars[1..])
    ensures SpellsBody(fl, s, before, version, vars)
  {
    hide SpellsVar;
  }

  lemma SpelledVar(fl: Floats, s: seq<Token>, before: Option<u16>, version: u16, vars: seq<VarDescriptor>)
      returns (k: nat)
    requires s != [] && s[0] == Identifier(KW_VAR) && SpellsBody(fl, s, before, version, vars)
    ensures 1 <= k <= |s| && vars != [] && SpellsVar(fl, s[1..k], vars[0])
    ensures SpellsBody(fl, s[k..], before, version, vars[1..])
  {
    hide SpellsVar;
    k :| 1 <= k <= |s| && SpellsVar(fl, s[1..k], vars[0]) && SpellsBody(fl, s[k..], before, version, vars[1..]);
  }

  /** What may stand in a body, or end it, does not go on with a variable. */
  lemma BodyEndsVar(fl: Floats, ts: seq<Located>, n: nat, before: Option<u16>, version: u16, vars: seq<VarDescriptor>)
    requires n < |ts| && ts[n].token == Symbol('}') && SpellsBody(fl, Front(ts, n), before, version, vars)
    ensures !StartsOption(ts[0].token)
  {
    hide SpellsBody;
    SpellBodySteps(fl, Front(ts, n), before, version, vars);
    if n > 0 {
      assert Front(ts, n)[0] == ts[0].token;
    }
  }

  lemma {:induction false} BodyParsed(fl: Floats, ts: seq<Located>, n: nat, name: string, line: nat,
                                      before: Option<u16>, version: u16, acc: seq<VarDescriptor>,
                                      vars: seq<VarDescriptor>)
    requires n < |ts| && ts[n].token == Symbol('}') && SpellsBody(fl, Front(ts, n), before, version, vars)
    ensures ParseBody(fl, ts, name, line, before, acc) == Found(StateDescriptor(name, version, acc + vars), ts[n + 1..])
    decreases n
  {
    hide SpellsBody, ParseBody, Front;
    if n == 0 {
      BodyEnd(fl, ts, name, line, before, version, acc, vars);
    } else {
      FrontIs(ts, n, 1);
      SpellBodySteps(fl, Front(ts, n), before, version, vars);
      if ts[0].token == Identifier(KW_VERSION) {
        BodyVersionParsed(fl, ts, n, name, line, before, version, acc, vars);
      } else {
        BodyVarParsed(fl, ts, n, name, line, before, version, acc, vars);
      }
    }
  }

  lemma BodyEnd(fl: Floats, ts: seq<Located>, name: string, line: nat, before: Option<u16>, version: u16,
                acc: seq<VarDescriptor>, vars: seq<VarDescriptor>)
    requires ts != [] && ts[0].token == Symbol('}') && SpellsBody(fl, Front(ts, 0), before, version, vars)
    ensures ParseBody(fl, ts, name, line, before, acc) == Found(StateDescriptor(name, version, acc + vars), ts[1..])
  {
    hide SpellsBody, ParseBody, Front;
    BodySteps(fl, ts, name, line, before, acc);
    SpellBodySteps(fl, Front(ts, 0), before, version, vars);
    assert acc + vars == acc;
  }

  lemma {:induction false} BodyVersionParsed(fl: Floats, ts: seq<Located>, n: nat, name: string, line: nat,
                                             before: Option<u16>, version: u16, acc: seq<VarDescriptor>,
                                             vars: seq<VarDescriptor>)
    requires 0 < n < |ts| && ts[n].token == Symbol('}') && SpellsBody(fl, Front(ts, n), before, version, vars)
    requires ts[0].token == Identifier(KW_VERSION)
    ensures ParseBody(fl, ts, name, line, before, acc) == Found(StateDescriptor(name, version, acc + vars), ts[n + 1..])
    decreases n, 0
  {
    hide SpellsBody, ParseBody, SpellsVar, ParseVar, Front, ParseU16;
    BodySteps(fl, ts, name, line, before, acc);
    SpellBodySteps(fl, Front(ts, n), before, version, vars);
    FrontIs(ts, n, 1);
    FrontIs(ts, n, 2);
    Twice(ts, 2, n - 1);
    BodyParsed(fl, ts[2..], n - 2, name, line, ParseU16(ts[1].token.text), version, acc, vars);
  }

  lemma {:induction false} BodyVarParsed(fl: Floats, ts: seq<Located>, n: nat, name: string, line: nat,
                                         before: Option<u16>, version: u16, acc: seq<VarDescriptor>,
                                         vars: seq<VarDescriptor>)
    requires 0 < n < |ts| && ts[n].token == Symbol('}') && SpellsBody(fl, Front(ts, n), before, version, vars)
    requires ts[0].token == Identifier(KW_VAR)
    ensures ParseBody(fl, ts, name, line, before, acc) == Found(StateDescriptor(name, version, acc + vars), ts[n + 1..])
    decreases n, 0
  {
    hide SpellsBody, ParseBody, SpellsVar, ParseVar, Front;
    FrontIs(ts, n, 1);
    var k := SpelledVar(fl, Front(ts, n), before, version, vars);
    FrontIs(ts, n, k);
    FrontOf(ts, n, k);
    BodyEndsVar(fl, ts[k..], n - k, before, version, vars[1..]);
    VarStep(fl, ts, k, name, line, before, acc, vars[0]);
    BodyParsed(fl, ts[k..], n - k, name, line, before, version, acc + [vars[0]], vars[1..]);
    assert acc + [vars[0]] + vars[1..] == acc + vars;
    Twice(ts, k, n + 1 - k);
  }

  lemma VarStep(fl: Floats, ts: seq<Located>, k: nat, name: string, line: nat, before: Option<u16>,
                acc: seq<VarDescriptor>, v: VarDescriptor)
    requires 1 <= k < |ts| && ts[0].token == Identifier(KW_VAR) && !StartsOption(ts[k].token)
    requires SpellsVar(fl, Front(ts[1..], k - 1), v)
    ensures ParseBody(fl, ts, name, line, before, acc) == ParseBody(fl, ts[k..], name, line, before, acc + [v])
  {
    hide SpellsVar, ParseVar, ParseBody, Front;
    BodySteps(fl, ts, name, line, before, acc);
    VarParsed(fl, ts[1..], k - 1, v);
    Twice(ts, 1, k - 1);
  }

  lemma FrontOf(ts: seq<Located>, n: nat, k: nat)
    requires 1 <= k <= n < |ts|
    ensures Front(ts[1..], k - 1) == Front(ts, n)[1..k] && ts[1..][k - 1] == ts[k] && ts[k..][0] == ts[k]
  {
  }

  lemma {:induction false} BodySpelled(fl: Floats, ts: seq<Located>, name: string, line: nat, before: Option<u16>,
                                       acc: seq<VarDescriptor>) returns (n: nat, vars: seq<VarDescriptor>)
    requires ParseBody(fl, ts, name, line, before, acc).Found?
    ensures var r := ParseBody(fl, ts, name, line, before, acc);
            && n < |ts| && ts[n].token == Symbol('}') && r.rest == ts[n + 1..]
            && r.value.name == name && r.value.vars == acc + vars
            && SpellsBody(fl, Front(ts, n), before, r.value.version, vars)
    decreases |ts|
  {
    hide SpellsBody, ParseBody, SpellsVar, ParseVar, Front, ParseU16;
    BodyNeedsToken(fl, name, line, before, acc);
    BodySteps(fl, ts, name, line, before, acc);
    var r := ParseBody(fl, ts, name, line, before, acc);
    if ts[0].token == Symbol('}') {
      n, vars := 0, [];
      assert acc + vars == acc;
      SpellBodySteps(fl, Front(ts, 0), before, r.value.version, vars);
    } else if ts[0].token == Identifier(KW_VERSION) {
      n, vars := BodySpelled(fl, ts[2..], name, line, ParseU16(ts[1].token.text), acc);
      n := n + 2;
      Twice(ts, 2, n - 1);
      FrontIs(ts, n, 2);
      SpellBodySteps(fl, Front(ts, n), before, r.value.version, vars);
    } else {
      n, vars := BodyVarSpelled(fl, ts, name, line, before, acc);
    }
  }

  lemma {:induction false} BodyVarSpelled(fl: Floats, ts: seq<Located>, name: string, line: nat, before: Option<u16>,
                                          acc: seq<VarDescriptor>) returns (n: nat, vars: seq<VarDescriptor>)
    requires ts != [] && ts[0].token == Identifier(KW_VAR) && ParseBody(fl, ts, name, line, before, acc).Found?
    ensures var r := ParseBody(fl, ts, name, line, before, acc);
            && n < |ts| && ts[n].token == Symbol('}') && r.rest == ts[n + 1..]
            && r.value.name == name && r.value.vars == acc + vars
            && SpellsBody(fl, Front(ts, n), before, r.value.version, vars)
    decreases |ts|, 0
  {
    hide SpellsBody, ParseBody, SpellsVar, ParseVar, Front;
    BodySteps(fl, ts, name, line, before, acc);
    var r, v := ParseBody(fl, ts, name, line, before, acc), ParseVar(fl, ts[1..]);
    var j := VarSpelled(fl, ts[1..]);
    var k := j + 1;
    Twice(ts, 1, j);
    var m, more := BodySpelled(fl, ts[k..], name, line, before, acc + [v.value]);
    n, vars := k + m, [v.value] + more;
    assert acc + [v.value] + more == acc + vars && vars[1..] == more;
    FrontIs(ts, n, k);
    FrontOf(ts, n, k);
    Twice(ts, k, m + 1);
    SpellVar(fl, Front(ts, n), before, r.value.version, vars, k);
  }

  lemma BodyNeedsToken(fl: Floats, name: string, line: nat, before: Option<u16>, acc: seq<VarDescriptor>)
    ensures ParseBody(fl, [], name, line, before, acc).Stop?
  {
  }

  lemma DescParsed(fl: Floats, ts: seq<Located>, n: nat, d: StateDescriptor)
    requires n <= |ts| && SpellsDesc(fl, Front(ts, n), d)
    ensures n >= 4 && ts[0].token == Identifier(KW_STATEDESC) && ParseStatedesc(fl, ts[1..]) == Found(d, ts[n..])
  {
    hide SpellsBody, ParseBody, Front;
    var s := Front(ts, n);
    FrontIs(ts, n, n);
    assert ts[1..][1..][1..] == ts[3..];
    BodyFront(ts, n);
    BodyParsed(fl, ts[3..], n - 4, d.name, ts[2].at.line, None, d.version, [], d.vars);
    assert [] + d.vars == d.vars;
    Twice(ts, 3, n - 3);
  }

  lemma BodyFront(ts: seq<Located>, n: nat)
    requires 4 <= n <= |ts|
    ensures Front(ts[3..], n - 4) == Front(ts, n)[3..n - 1] && ts[3..][n - 4] == ts[n - 1]
    ensures Front(ts, n)[0] == ts[0].token && Front(ts, n)[1] == ts[1].token && Front(ts, n)[2] == ts[2].token
    ensures Front(ts, n)[n - 1] == ts[n - 1].token
  {
  }

  lemma DescSpelled(fl: Floats, ts: seq<Located>) returns (n: nat)
    requires ts != [] && ts[0].token == Identifier(KW_STATEDESC) && ParseStatedesc(fl, ts[1..]).Found?
    ensures var r := ParseStatedesc(fl, ts[1..]);
            4 <= n <= |ts| && r.rest == ts[n..] && SpellsDesc(fl, Front(ts, n), r.value)
  {
    hide SpellsBody, ParseBody, Front;
    assert ts[1..][1..][1..] == ts[3..];
    var m, vars := BodySpelled(fl, ts[3..], ts[1].token.name, ts[2].at.line, None, []);
    assert [] + vars == vars;
    n := m + 4;
    BodyFront(ts, n);
    Twice(ts, 3, m + 1);
  }

  // ===== texts =====

  lemma {:induction false} SpelledParses(fl: Floats, ts: seq<Located>, ds: seq<StateDescriptor>,
                                         acc: seq<StateDescriptor>)
    requires Spells(fl, Front(ts, |ts|), ds)
    ensures Parse(fl, ts, acc) == Found(acc + ds, [])
    decreases |ts|
  {
    hide SpellsDesc, ParseStatedesc, Front;
    if ts == [] {
      assert acc + ds == acc;
    } else {
      var s := Front(ts, |ts|);
      var k :| 1 <= k <= |s| && SpellsDesc(fl, s[..k], ds[0]) && Spells(fl, s[k..], ds[1..]);
      FrontIs(ts, |ts|, k);
      FrontFront(ts, k);
      DescParsed(fl, ts, k, ds[0]);
      SpelledParses(fl, ts[k..], ds[1..], acc + [ds[0]]);
      assert acc + [ds[0]] + ds[1..] == acc + ds;
    }
  }

  lemma FrontFront(ts: seq<Located>, k: nat)
    requires k <= |ts|
    ensures Front(ts, |ts|)[..k] == Front(ts, k)
  {
  }

  lemma {:induction false} ParsedSpells(fl: Floats, ts: seq<Located>, acc: seq<StateDescriptor>)
      returns (ds: seq<StateDescriptor>)
    requires Parse(fl, ts, acc).Found?
    ensures Parse(fl, ts, acc).value == acc + ds && Spells(fl, Front(ts, |ts|), ds)
    decreases |ts|
  {
    hide SpellsDesc, ParseStatedesc, Front;
    if ts == [] {
      ds := [];
      assert acc + ds == acc;
    } else {
      var d := ParseStatedesc(fl, ts[1..]);
      var k := DescSpelled(fl, ts);
      var more := ParsedSpells(fl, ts[k..], acc + [d.value]);
      ds := [d.value] + more;
      assert acc + [d.value] + more == acc + ds && ds[1..] == more;
      FrontIs(ts, |ts|, k);
      FrontFront(ts, k);
      var s := Front(ts, |ts|);
      assert SpellsDesc(fl, s[..k], ds[0]) && Spells(fl, s[k..], ds[1..]);
    }
  }

  /** The parser accepts a list of tokens with some descriptors if and only if the
      tokens spell them. */
  lemma ParsesIffSpelled(fl: Floats, ts: seq<Located>, ds: seq<StateDescriptor>)
    ensures Parse(fl, ts, []) == Found(ds, []) <==> Spells(fl, Strip(ts), ds)
  {
    hide Spells, Parse;
    assert Strip(ts) == Front(ts, |ts|);
    if Spells(fl, Strip(ts), ds) {
      SpelledParses(fl, ts, ds, []);
      assert [] + ds == ds;
    }
    if Parse(fl, ts, []) == Found(ds, []) {
      var found := ParsedSpells(fl, ts, []);
      assert [] + found == found;
    }
  }
}
