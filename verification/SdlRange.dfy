/** Which descriptors a text can give: every answer of the parser of src/sdl/parser.rs is
    of this kind, and every list of such descriptors is its answer to some text. */
module SdlRange {
  import opened Prim
  import opened Text
  import opened SdlTypes
  import opened SdlTokens
  import opened SdlGrammar
  import opened SdlSpelling
  import opened SdlLayout

  // ===== what can be written =====

  predicate LetterChar(c: char) {
    'A' <= c <= 'Z' || 'a' <= c <= 'z' || c == '_'
  }

  predicate DigitChar(c: char) {
    '0' <= c <= '9'
  }

  predicate WordChar(c: char) {
    LetterChar(c) || DigitChar(c) || c == '-'
  }

  predicate IsName(s: string) {
    s != "" && LetterChar(s[0]) && forall i :: 0 < i < |s| ==> WordChar(s[i])
  }

  predicate IsReference(s: string) {
    s != "" && forall i :: 0 <= i < |s| ==> WordChar(s[i])
  }

  predicate IsNumeral(s: string) {
    && s != "" && (DigitChar(s[0]) || s[0] == '-')
    && forall i :: 0 < i < |s| ==> DigitChar(s[i]) || s[i] == '.'
  }

  predicate IsLiteral(s: string) {
    '"' !in s && '\n' !in s
  }

  /** The token of a descriptor can stand on a line. */
  predicate Fit(t: Token) {
    match t
    case Number(text) => IsNumeral(text)
    case Identifier(name) => IsName(name)
    case TypeReference(name) => IsReference(name)
    case StringLiteral(value) => IsLiteral(value)
    case Symbol(c) => c in "()[]{}=,;"
    case _ => false
  }

  predicate AllFit(ts: seq<Token>) {
    forall i :: 0 <= i < |ts| ==> Fit(ts[i])
  }

  /** The token can have been read from a line. */
  predicate Readable(t: Token) {
    Fit(t) || t.Invalid? || t.IncompleteString?
  }

  predicate AllRead(ts: seq<Token>) {
    forall i :: 0 <= i < |ts| ==> Readable(ts[i])
  }

  function Bytes(t: Token): bytes {
    match t
    case Number(text) => Latin1(text)
    case Identifier(name) => Latin1(name)
    case TypeReference(name) => ['$' as int] + Latin1(name)
    case StringLiteral(value) => ['"' as int] + Utf8(value) + ['"' as int]
    case Symbol(c) => Latin1([c])
    case _ => []
  }

  lemma LiteralWritten(value: string)
    requires IsLiteral(value)
    ensures var b := Bytes(StringLiteral(value)); NEWLINE !in b && Writes(b, StringLiteral(value))
  {
    hide Utf8, FromUtf8;
    var b := Bytes(StringLiteral(value));
    Utf8Avoids(value, QUOTE);
    Utf8Avoids(value, NEWLINE);
    Utf8RoundTrip(value);
    assert b[1..|b| - 1] == Utf8(value);
  }

  lemma ReferenceWritten(name: string)
    requires IsReference(name)
    ensures var b := Bytes(TypeReference(name)); NEWLINE !in b && Writes(b, TypeReference(name))
  {
    hide Utf8, FromUtf8;
    assert Bytes(TypeReference(name))[1..] == Latin1(name);
  }

  lemma FitWritten(t: Token)
    requires Fit(t)
    ensures Bytes(t) != [] && NEWLINE !in Bytes(t) && Writes(Bytes(t), t)
  {
    hide Utf8, FromUtf8;
    match t {
      case StringLiteral(value) => LiteralWritten(value);
      case TypeReference(name) => ReferenceWritten(name);
      case _ => WordWritten(t);
    }
  }

  lemma WordWritten(t: Token)
    requires Fit(t) && !t.StringLiteral? && !t.TypeReference?
    ensures Bytes(t) != [] && NEWLINE !in Bytes(t) && Writes(Bytes(t), t)
  {
    hide Utf8, FromUtf8;
  }

  lemma {:induction false} FromUtf8Avoids(b: bytes, x: u8)
    requires x < 0x80 && x !in b
    ensures x as char !in FromUtf8(b)
  {
    if b != [] {
      var (c, n) := Utf8First(b);
      FromUtf8Avoids(b[n..], x);
    }
  }

  lemma WrittenFits(b: bytes, t: Token)
    requires b != [] && NEWLINE !in b && Writes(b, t) && !t.Invalid? && !t.IncompleteString?
    ensures Fit(t)
  {
    hide FromUtf8;
    match t {
      case StringLiteral(value) =>
        FromUtf8Avoids(b[1..|b| - 1], QUOTE);
        FromUtf8Avoids(b[1..|b| - 1], NEWLINE);
      case TypeReference(name) =>
        assert forall i :: 0 <= i < |name| ==> name[i] as int == b[1..][i];
      case _ =>
    }
  }

  // ===== a line for every list of tokens =====

  lemma FitStarts(t: Token)
    requires Fit(t)
    ensures Bytes(t) != [] && Bytes(t)[0] != '#' as int && !Blank(Bytes(t)[0]) && !SdlLayout.Continues(t, 32)
  {
    hide Utf8;
  }

  lemma {:induction false} LineFor(ts: seq<Token>, line: nat, column: nat) returns (s: bytes, located: seq<Located>)
    requires AllFit(ts)
    ensures NEWLINE !in s && LineReads(s, line, column, located) && Strip(located) == ts
    decreases |ts|
  {
    hide Fit, Bytes, Writes, Blank, SdlLayout.Continues;
    s, located := [], [];
    if ts != [] {
      var t, b := ts[0], Bytes(ts[0]);
      FitWritten(t);
      FitStarts(t);
      var s1, located1 := LineFor(ts[1..], line, column + |b| + 1);
      s := b + [32] + s1;
      located := [Located(t, Location(line, column + 1))] + located1;
      assert s[..|b|] == b && s[|b|..] == [32] + s1 && s[|b|..][1..] == s1;
      SpaceIsBlank();
      assert LineReads([32] + s1, line, column + |b|, located1);
      assert located[1..] == located1 && Takes(s, t, |b|);
      assert ts == [t] + ts[1..];
    }
  }

  lemma SpaceIsBlank()
    ensures Blank(32) && 32 != '#' as int
  {
  }

  lemma {:induction false} LineFits(s: bytes, line: nat, column: nat, ts: seq<Located>)
    requires NEWLINE !in s && LineReads(s, line, column, ts)
    ensures forall i :: 0 <= i < |ts| ==> Readable(ts[i].token)
    decreases |s|
  {
    hide Fit, Writes, Blank, SdlLayout.Continues;
    if s != [] && s[0] != '#' as int {
      if Blank(s[0]) {
        LineFits(s[1..], line, column + 1, ts);
      } else {
        var n :| 1 <= n <= |s| && Takes(s, ts[0].token, n) && LineReads(s[n..], line, column + n, ts[1..]);
        if !ts[0].token.Invalid? && !ts[0].token.IncompleteString? {
          WrittenFits(s[..n], ts[0].token);
        }
        LineFits(s[n..], line, column + n, ts[1..]);
        assert forall i :: 0 < i < |ts| ==> ts[i] == ts[1..][i - 1];
      }
    }
  }

  lemma {:induction false} TextFits(s: bytes, line: nat, ts: seq<Located>)
    requires TextReads(s, line, ts)
    ensures forall i :: 0 <= i < |ts| ==> Readable(ts[i].token)
    decreases |s|
  {
    hide Fit, LineReads;
    if NEWLINE !in s {
      LineFits(s, line + 1, 0, ts);
    } else {
      var n, k :| 0 <= n < |s| && FirstLine(s, n) && 0 <= k <= |ts| && LineReads(s[..n], line + 1, 0, ts[..k])
                  && TextReads(s[n + 1..], line + 1, ts[k..]);
      LineFits(s[..n], line + 1, 0, ts[..k]);
      TextFits(s[n + 1..], line + 1, ts[k..]);
      assert forall i :: 0 <= i < k ==> ts[i] == ts[..k][i];
      assert forall i :: k <= i < |ts| ==> ts[i] == ts[k..][i - k];
    }
  }

  // ===== what can be said =====

  ghost predicate SayableFloat(fl: Floats, f: u32) {
    exists text :: IsNumeral(text) && fl.single(text) == Some(f)
  }

  ghost predicate SayableDouble(fl: Floats, f: u64) {
    exists text :: IsNumeral(text) && fl.double(text) == Some(f)
  }

  ghost predicate SayableFloats(fl: Floats, fs: seq<u32>) {
    forall i :: 0 <= i < |fs| ==> SayableFloat(fl, fs[i])
  }

  /** A default that a variable of this type can be given. */
  ghost predicate SayableDefault(fl: Floats, t: VarType, d: VarDefault) {
    match t
    case Bool => d.DefaultBool?
    case Byte => d.DefaultByte?
    case Short => d.DefaultShort?
    case Int => d.DefaultInt?
    case Float => d.DefaultFloat? && SayableFloat(fl, d.f)
    case Double => d.DefaultDouble? && SayableDouble(fl, d.d)
    case String32 => d.DefaultString? && IsLiteral(d.s)
    case Time => d.DefaultTime? && d.t.micros == 0
    case Point3 => d.DefaultVector? && SayableFloats(fl, [d.v.x, d.v.y, d.v.z])
    case Vector3 => d.DefaultVector? && SayableFloats(fl, [d.v.x, d.v.y, d.v.z])
    case Quat => d.DefaultQuat? && SayableFloats(fl, [d.q.x, d.q.y, d.q.z, d.q.w])
    case Rgb => d.DefaultRgba? && d.c.a == 0x3F80_0000 && SayableFloats(fl, [d.c.r, d.c.g, d.c.b])
    case Rgba => d.DefaultRgba? && SayableFloats(fl, [d.c.r, d.c.g, d.c.b, d.c.a])
    case Rgb8 => d.DefaultRgba8? && d.k.a == 255
    case Rgba8 => d.DefaultRgba8?
    case _ => false
  }

  ghost predicate SayableVar(fl: Floats, v: VarDescriptor) {
    && IsName(v.name) && (v.varType.StateDesc? ==> IsReference(v.varType.name))
    && (v.count.Some? ==> v.count.value < 0x1_0000_0000_0000_0000)
    && (v.default.Some? ==> SayableDefault(fl, v.varType, v.default.value))
  }

  ghost predicate Sayable(fl: Floats, d: StateDescriptor) {
    IsName(d.name) && forall i :: 0 <= i < |d.vars| ==> SayableVar(fl, d.vars[i])
  }

  // ===== every answer can be said =====

  lemma FloatsSayable(fl: Floats, ts: seq<Token>, fs: seq<u32>)
    requires AllRead(ts) && SaysFloats(fl, ts, fs)
    ensures SayableFloats(fl, fs)
  {
    hide IsNumeral;
    forall i | 0 <= i < |fs|
      ensures SayableFloat(fl, fs[i])
    {
      assert ListedAt(ts, |fs|, i) && Readable(ts[2 * i + 1]) && fl.single(TextAt(ts, i)) == Some(fs[i]);
    }
  }

  lemma ValueSayable(fl: Floats, t: VarType, ts: seq<Token>, d: VarDefault)
    requires AllRead(ts) && SpellsSome(fl, t, ts, d)
    ensures SayableDefault(fl, t, d)
  {
    hide Denotes, DenotesInt, IsNumeral, IsName, SaysBytes, SaysFloats, SayableFloats;
    if t.Float? || t.Double? {
      assert Readable(Inner(ts));
    } else if t.String32? {
      assert Readable(ts[0]);
      if ts[0].Identifier? {
        NameIsLiteral(d.s);
      }
    } else if t.Point3? || t.Vector3? {
      FloatsSayable(fl, ts, [d.v.x, d.v.y, d.v.z]);
    } else if t.Quat? {
      FloatsSayable(fl, ts, [d.q.x, d.q.y, d.q.z, d.q.w]);
    } else if t.Rgb? {
      FloatsSayable(fl, ts, [d.c.r, d.c.g, d.c.b]);
    } else if t.Rgba? {
      FloatsSayable(fl, ts, [d.c.r, d.c.g, d.c.b, d.c.a]);
    }
  }

  lemma NameIsLiteral(s: string)
    requires IsName(s)
    ensures IsLiteral(s)
  {
  }

  ghost predicate SayableOption(fl: Floats, t: VarType, d: Option<VarDefault>) {
    d.Some? ==> SayableDefault(fl, t, d.value)
  }

  lemma {:induction false} OptionsSayable(fl: Floats, t: VarType, ts: seq<Token>, before: Option<VarDefault>,
                                          after: Option<VarDefault>)
    requires AllRead(ts) && SpellsOptions(fl, t, ts, before, after) && SayableOption(fl, t, before)
    ensures SayableOption(fl, t, after)
    decreases |ts|
  {
    hide Readable, SayableDefault, SpellsSome;
    if ts != [] {
      if ts[0] == Symbol(';') {
        OptionsSayable(fl, t, ts[1..], before, after);
      } else if ts[0] == Identifier("DEFAULTOPTION") || ts[0] == Identifier("DISPLAYOPTION") {
        OptionsSayable(fl, t, ts[3..], before, after);
      } else {
        var k, d :| 2 <= k <= |ts| && SpellsValue(fl, t, ts[2..k], d) && SpellsOptions(fl, t, ts[k..], d, after);
        if d.Some? {
          ValueSayable(fl, t, ts[2..k], d.value);
        }
        OptionsSayable(fl, t, ts[k..], d, after);
      }
    }
  }

  lemma VarSayable(fl: Floats, ts: seq<Token>, v: VarDescriptor)
    requires AllRead(ts) && SpellsVar(fl, ts, v)
    ensures SayableVar(fl, v)
  {
    hide SpellsOptions, SayableDefault, IsName, IsReference, IsNumeral, Denotes, InAnyCase;
    assert Readable(ts[0]) && Readable(ts[1]);
    var k := if v.count.None? then 4 else 5;
    OptionsSayable(fl, v.varType, ts[k..], None, v.default);
    if v.varType.StateDesc? {
      ReferenceToken(ts[0], v.varType);
    }
  }

  lemma ReferenceToken(token: Token, t: VarType)
    requires SpellsType(token, t) && t.StateDesc?
    ensures token == TypeReference(t.name)
  {
  }

  lemma {:induction false} BodySayable(fl: Floats, ts: seq<Token>, before: Option<u16>, version: u16,
                                       vars: seq<VarDescriptor>)
    requires AllRead(ts) && SpellsBody(fl, ts, before, version, vars)
    ensures forall i :: 0 <= i < |vars| ==> SayableVar(fl, vars[i])
    decreases |ts|
  {
    hide Readable, SayableVar, SpellsVar, Denotes;
    if ts != [] {
      if ts[0] == Identifier("VERSION") {
        var w: u16 :| Denotes(ts[1].text, w) && SpellsBody(fl, ts[2..], Some(w), version, vars);
        BodySayable(fl, ts[2..], Some(w), version, vars);
      } else {
        var k := SpelledVar(fl, ts, before, version, vars);
        VarSayable(fl, ts[1..k], vars[0]);
        BodySayable(fl, ts[k..], before, version, vars[1..]);
        assert forall i :: 0 < i < |vars| ==> vars[i] == vars[1..][i - 1];
      }
    }
  }

  lemma NameRead(name: string)
    requires Readable(Identifier(name))
    ensures IsName(name)
  {
  }

  lemma {:induction false} SpelledSayable(fl: Floats, ts: seq<Token>, ds: seq<StateDescriptor>)
    requires AllRead(ts) && Spells(fl, ts, ds)
    ensures forall i :: 0 <= i < |ds| ==> Sayable(fl, ds[i])
    decreases |ts|
  {
    hide SayableVar, SpellsBody, IsName, Readable;
    if ts != [] {
      var k :| 1 <= k <= |ts| && SpellsDesc(fl, ts[..k], ds[0]) && Spells(fl, ts[k..], ds[1..]);
      assert Readable(ts[1]) && ts[1] == ts[..k][1];
      NameRead(ds[0].name);
      BodySayable(fl, ts[..k][3..k - 1], None, ds[0].version, ds[0].vars);
      SpelledSayable(fl, ts[k..], ds[1..]);
      assert forall i :: 0 < i < |ds| ==> ds[i] == ds[1..][i - 1];
    }
  }

  // ===== and whatever can be said is the answer to some text =====

  lemma {:induction false} ShowDigits(n: nat)
    ensures forall i :: 0 <= i < |Show(n)| ==> DigitChar(Show(n)[i])
  {
    if n >= 10 {
      ShowDigits(n / 10);
    }
  }

  lemma ShowFits(n: nat)
    ensures IsNumeral(Show(n)) && Denotes(Show(n), n)
  {
    hide Show;
    ShowDigits(n);
    assert DenotesAfter(Show(n), 0, n);
  }

  lemma IntText(i: int) returns (text: string)
    ensures IsNumeral(text) && DenotesInt(text, i)
  {
    hide Show, Denotes;
    if i >= 0 {
      text := Show(i);
      ShowFits(i);
    } else {
      text := "-" + Show(-i);
      ShowFits(-i);
      ShowDigits(-i);
      assert text[1..] == Show(-i);
    }
  }

  /** Numbers as a list. */
  function ListOf(texts: seq<string>): (ts: seq<Token>)
    ensures |ts| == 2 * |texts| + 1
  {
    seq(2 * |texts| + 1, i requires 0 <= i < 2 * |texts| + 1 =>
      if i == 0 then Symbol('(')
      else if i % 2 == 1 then Number(texts[i / 2])
      else Symbol(if i == 2 * |texts| then ')' else ','))
  }

  lemma ListSaid(texts: seq<string>)
    requires forall j :: 0 <= j < |texts| ==> IsNumeral(texts[j])
    ensures var ts := ListOf(texts);
            AllFit(ts) && Listed(ts, |texts|) && forall i :: 0 <= i < |texts| ==> TextAt(ts, i) == texts[i]
  {
    hide IsNumeral;
    var ts := ListOf(texts);
    forall i | 0 <= i < |texts|
      ensures ListedAt(ts, |texts|, i) && TextAt(ts, i) == texts[i]
    {
      assert (2 * i + 1) / 2 == i;
    }
  }

  lemma {:induction false} FloatTexts(fl: Floats, fs: seq<u32>) returns (texts: seq<string>)
    requires SayableFloats(fl, fs)
    ensures |texts| == |fs|
    ensures forall i :: 0 <= i < |fs| ==> IsNumeral(texts[i]) && fl.single(texts[i]) == Some(fs[i])
  {
    hide IsNumeral;
    texts := [];
    if fs != [] {
      var init := fs[..|fs| - 1];
      var more := FloatTexts(fl, init);
      assert SayableFloat(fl, fs[|fs| - 1]);
      var text :| IsNumeral(text) && fl.single(text) == Some(fs[|fs| - 1]);
      texts := more + [text];
      assert forall i :: 0 <= i < |init| ==> fs[i] == init[i];
    }
  }

  lemma FloatsSaid(fl: Floats, fs: seq<u32>) returns (ts: seq<Token>)
    requires SayableFloats(fl, fs)
    ensures AllFit(ts) && SaysFloats(fl, ts, fs)
  {
    hide IsNumeral, Listed, Fit, SayableFloats, ListOf;
    var texts := FloatTexts(fl, fs);
    ts := ListOf(texts);
    ListSaid(texts);
  }

  lemma {:induction false} ByteTexts(ys: seq<u8>) returns (texts: seq<string>)
    ensures |texts| == |ys| && forall i :: 0 <= i < |ys| ==> IsNumeral(texts[i]) && Denotes(texts[i], ys[i])
  {
    hide IsNumeral, Denotes, Show;
    texts := [];
    if ys != [] {
      var more := ByteTexts(ys[..|ys| - 1]);
      ShowFits(ys[|ys| - 1]);
      texts := more + [Show(ys[|ys| - 1])];
    }
  }

  lemma BytesSaid(ys: seq<u8>) returns (ts: seq<Token>)
    ensures AllFit(ts) && SaysBytes(ts, ys)
  {
    hide IsNumeral, Listed, Fit, Denotes, ListOf;
    var texts := ByteTexts(ys);
    ts := ListOf(texts);
    ListSaid(texts);
  }

  lemma ValueSaid(fl: Floats, t: VarType, d: VarDefault) returns (ts: seq<Token>)
    requires SayableDefault(fl, t, d)
    ensures AllFit(ts) && SpellsSome(fl, t, ts, d)
  {
    hide IsNumeral, Show, Denotes, DenotesInt, SaysFloats, SaysBytes, SayableFloats;
    if t.Bool? {
      ts := [Number(if d.b then "1" else "0")];
      BitTexts();
    } else if t.Byte? || t.Time? {
      var n := if t.Byte? then d.y else d.t.secs;
      ShowFits(n);
      ts := [Number(Show(n))];
    } else if t.Short? || t.Int? {
      var text := IntText(if t.Short? then d.h else d.i);
      ts := [Number(text)];
    } else if t.Float? {
      var text :| IsNumeral(text) && fl.single(text) == Some(d.f);
      ts := [Number(text)];
    } else if t.Double? {
      var text :| IsNumeral(text) && fl.double(text) == Some(d.d);
      ts := [Number(text)];
    } else if t.String32? {
      ts := [StringLiteral(d.s)];
    } else {
      ts := ListValueSaid(fl, t, d);
    }
  }

  lemma BitTexts()
    ensures IsNumeral("0") && IsNumeral("1")
  {
  }

  lemma ListValueSaid(fl: Floats, t: VarType, d: VarDefault) returns (ts: seq<Token>)
    requires SayableDefault(fl, t, d) && TakesList(t)
    ensures AllFit(ts) && SpellsSome(fl, t, ts, d)
  {
    hide SaysFloats, SaysBytes, SayableFloats, AllFit;
    if t.Rgb8? {
      ts := BytesSaid([d.k.r, d.k.g, d.k.b]);
    } else if t.Rgba8? {
      ts := BytesSaid([d.k.r, d.k.g, d.k.b, d.k.a]);
    } else if t.Quat? {
      ts := FloatsSaid(fl, [d.q.x, d.q.y, d.q.z, d.q.w]);
    } else if t.Rgb? {
      ts := FloatsSaid(fl, [d.c.r, d.c.g, d.c.b]);
    } else if t.Rgba? {
      ts := FloatsSaid(fl, [d.c.r, d.c.g, d.c.b, d.c.a]);
    } else {
      ts := FloatsSaid(fl, [d.v.x, d.v.y, d.v.z]);
    }
  }

  lemma Keywords()
    ensures IsName("DEFAULT") && IsName("VAR") && IsName("VERSION") && IsName("STATEDESC")
  {
  }

  lemma OptionsSaid(fl: Floats, t: VarType, d: Option<VarDefault>) returns (ts: seq<Token>)
    requires SayableOption(fl, t, d)
    ensures AllFit(ts) && SpellsOptions(fl, t, ts, None, d)
  {
    hide SpellsSome, SayableDefault, IsName;
    ts := [];
    if d.Some? {
      Keywords();
      var value := ValueSaid(fl, t, d.value);
      ts := [Identifier("DEFAULT"), Symbol('=')] + value;
      DefaultTyped(fl, t, d.value);
      assert ts[2..|ts|] == value && ts[|ts|..] == [];
      assert SpellsValue(fl, t, ts[2..|ts|], d) && SpellsOptions(fl, t, ts[|ts|..], d, d);
    }
  }

  lemma DefaultTyped(fl: Floats, t: VarType, d: VarDefault)
    requires SayableDefault(fl, t, d)
    ensures !t.Key?
  {
  }

  lemma TypeSaid(t: VarType) returns (token: Token)
    requires t.StateDesc? ==> IsReference(t.name)
    ensures Fit(token) && SpellsType(token, t)
  {
    hide IsName, IsReference;
    if t.StateDesc? {
      token := TypeReference(t.name);
    } else {
      var word := WordFor(t);
      token := Identifier(word);
    }
  }

  lemma WordFor(t: VarType) returns (word: string)
    requires !t.StateDesc?
    ensures word in TypeWords(t) && IsName(word) && InAnyCase(word, word)
  {
    hide IsName;
    word :| word in TypeWords(t);
    if t.AgeTimeOfDay? || t.Bool? || t.Byte? || t.Creatable? || t.Double? || t.Float? || t.Int? || t.Key? || t.Point3? {
      EarlyName(word, t);
    } else {
      LateName(word, t);
    }
  }

  lemma EarlyName(word: string, t: VarType)
    requires word in TypeWords(t)
    requires t.AgeTimeOfDay? || t.Bool? || t.Byte? || t.Creatable? || t.Double? || t.Float? || t.Int? || t.Key? ||
             t.Point3?
    ensures IsName(word)
  {
  }

  lemma LateName(word: string, t: VarType)
    requires word in TypeWords(t)
    requires t.Quat? || t.Rgb? || t.Rgb8? || t.Rgba? || t.Rgba8? || t.Short? || t.String32? || t.Time? || t.Vector3?
    ensures IsName(word)
  {
  }

  lemma CountSaid(count: Option<nat>) returns (ts: seq<Token>)
    ensures AllFit(ts) && |ts| == (if count.None? then 1 else 2) && ts[|ts| - 1] == Symbol(']')
    ensures count.Some? ==> ts[0].Number? && Denotes(ts[0].text, count.value)
  {
    hide Show, Denotes, IsNumeral;
    ts := [Symbol(']')];
    if count.Some? {
      ShowFits(count.value);
      ts := [Number(Show(count.value)), Symbol(']')];
    }
  }

  lemma VarSaid(fl: Floats, v: VarDescriptor) returns (ts: seq<Token>)
    requires SayableVar(fl, v)
    ensures AllFit(ts) && SpellsVar(fl, ts, v)
  {
    hide SpellsOptions, SayableDefault, IsName, IsReference, IsNumeral, Denotes, SpellsType;
    var token := TypeSaid(v.varType);
    var count := CountSaid(v.count);
    var options := OptionsSaid(fl, v.varType, v.default);
    var head := [token, Identifier(v.name), Symbol('[')];
    ts := head + count + options;
    FitJoined(head, count);
    FitJoined(head + count, options);
    assert ts[3..3 + |count|] == count && ts[3 + |count|..] == options;
    assert ts[3] == count[0] && ts[2 + |count|] == count[|count| - 1];
  }

  lemma FitJoined(a: seq<Token>, b: seq<Token>)
    requires AllFit(a) && AllFit(b)
    ensures AllFit(a + b)
  {
    hide Fit;
  }

  lemma {:induction false} VarsSaid(fl: Floats, version: u16, vars: seq<VarDescriptor>) returns (ts: seq<Token>)
    requires forall i :: 0 <= i < |vars| ==> SayableVar(fl, vars[i])
    ensures AllFit(ts) && SpellsBody(fl, ts, Some(version), version, vars)
    decreases |vars|
  {
    hide SayableVar, SpellsVar, IsName;
    ts := [];
    if vars != [] {
      Keywords();
      var first := VarSaid(fl, vars[0]);
      var rest := VarsSaid(fl, version, vars[1..]);
      var head := [Identifier("VAR")];
      ts := head + first + rest;
      FitJoined(head, first);
      FitJoined(head + first, rest);
      var k := 1 + |first|;
      assert ts[1..k] == first && ts[k..] == rest;
    }
  }

  lemma DescSaid(fl: Floats, d: StateDescriptor) returns (ts: seq<Token>)
    requires Sayable(fl, d)
    ensures AllFit(ts) && SpellsDesc(fl, ts, d)
  {
    hide SayableVar, SpellsVar, IsName, IsNumeral, Show, Denotes;
    Keywords();
    ShowFits(d.version);
    var vars := VarsSaid(fl, d.version, d.vars);
    var version := [Identifier("VERSION"), Number(Show(d.version))];
    var head, close := [Identifier("STATEDESC"), Identifier(d.name), Symbol('{')], [Symbol('}')];
    var body := version + vars;
    ts := head + body + close;
    FitJoined(version, vars);
    FitJoined(head, body);
    FitJoined(head + body, close);
    assert body[2..] == vars && body[1] == Number(Show(d.version));
    assert SpellsBody(fl, body, None, d.version, d.vars);
    assert ts[3..|ts| - 1] == body;
  }

  lemma {:induction false} AllSaid(fl: Floats, ds: seq<StateDescriptor>) returns (ts: seq<Token>)
    requires forall i :: 0 <= i < |ds| ==> Sayable(fl, ds[i])
    ensures AllFit(ts) && Spells(fl, ts, ds)
    decreases |ds|
  {
    hide Sayable, SpellsDesc;
    ts := [];
    if ds != [] {
      var first := DescSaid(fl, ds[0]);
      var rest := AllSaid(fl, ds[1..]);
      ts := first + rest;
      FitJoined(first, rest);
      DescNotEmpty(fl, first, ds[0]);
      assert ts[..|first|] == first && ts[|first|..] == rest;
    }
  }

  lemma DescNotEmpty(fl: Floats, ts: seq<Token>, d: StateDescriptor)
    requires SpellsDesc(fl, ts, d)
    ensures ts != []
  {
  }

  // ===== exactly these =====

  /** Some text gives these descriptors if and only if each of them can be said: names are
      names, counts have 64 bits, and each default is one of its type, with floats that
      some numeral stands for, whole seconds, and full opacity where none is given. */
  lemma SaidIff(fl: Floats, ds: seq<StateDescriptor>)
    ensures (exists text :: Says(fl, text, ds)) <==> forall i :: 0 <= i < |ds| ==> Sayable(fl, ds[i])
  {
    hide Sayable, Spells, TextReads, LineReads, Fit;
    if text :| Says(fl, text, ds) {
      var ts :| TextReads(text, 0, ts) && Spells(fl, Strip(ts), ds);
      TextFits(text, 0, ts);
      SpelledSayable(fl, Strip(ts), ds);
    }
    if forall i :: 0 <= i < |ds| ==> Sayable(fl, ds[i]) {
      var tokens := AllSaid(fl, ds);
      var text, ts := LineFor(tokens, 1, 0);
      OneLineReads(text, ts);
      assert Says(fl, text, ds);
    }
  }

  lemma OneLineReads(s: bytes, ts: seq<Located>)
    requires NEWLINE !in s && LineReads(s, 1, 0, ts)
    ensures TextReads(s, 0, ts)
  {
    hide LineReads;
  }
}
