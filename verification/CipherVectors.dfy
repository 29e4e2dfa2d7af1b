/** What the ciphers of src/plasma/file_crypt.rs make of given blocks, worked out round
    by round. */
module CipherVectors {
  import opened Prim
  import opened Cipher

  const ZERO_KEY: Key := [0, 0, 0, 0]

  /** The key of encrypted .age, .csv and .fni files. */
  const DEFAULT_KEY: Key := [0x6C0A5452, 0x03827D0F, 0x3A170B92, 0x16DB7FC2]

  // ===== words as bits =====

  function Word(b: bv32): u32 {
    b as int
  }

  datatype Words = Words(a: bv32, b: bv32, c: bv32, d: bv32)

  function KeyOf(k: Words): Key {
    [Word(k.a), Word(k.b), Word(k.c), Word(k.d)]
  }

  function Pick(k: Words, i: bv2): bv32 {
    if i == 0 then k.a else if i == 1 then k.b else if i == 2 then k.c else k.d
  }

  lemma Picked(k: Words, i: bv2)
    ensures KeyOf(k)[i as int] == Word(Pick(k, i))
  {
  }

  lemma Bits(x: bv32)
    ensures Word(x) as bv32 == x
  {
  }

  /** The part of the sum that chooses a word of the key. */
  function Choice(sum: bv32, p: nat): bv2 {
    (p % 4) as bv2 ^ ((sum >> 2) & 3) as bv2
  }

  lemma MxIs(y: bv32, z: bv32, sum: bv32, p: nat, k: Words)
    ensures Mx(Word(y), Word(z), Word(sum), p, KeyOf(k)) == Word(Mix(y, z, sum, Pick(k, Choice(sum, p))))
  {
    hide Mix;
    Bits(y);
    Bits(z);
    Bits(sum);
    Picked(k, Choice(sum, p));
    Bits(Pick(k, Choice(sum, p)));
  }

  lemma TeaIs(v: bv32, sum: bv32, k: Words)
    ensures TeaY(Word(v), Word(sum), KeyOf(k)) == Word(TeaBits(v, sum, Pick(k, LowBits(sum))))
    ensures TeaZ(Word(v), Word(sum), KeyOf(k)) == Word(TeaBits(v, sum, Pick(k, HighBits(sum))))
  {
    hide TeaBits, LowBits, HighBits;
    Bits(v);
    Bits(sum);
    Picked(k, LowBits(sum));
    Picked(k, HighBits(sum));
    Bits(Pick(k, LowBits(sum)));
    Bits(Pick(k, HighBits(sum)));
  }

  /** Every word of the key has its turn, in an order that the sum decides. */
  lemma KeyOrder(p: nat)
    ensures KeyIndex(0, p) == p % 4
    ensures KeyIndex(4, p) == [1, 0, 3, 2][p % 4]
    ensures KeyIndex(8, p) == [2, 3, 0, 1][p % 4]
    ensures KeyIndex(12, p) == [3, 2, 1, 0][p % 4]
  {
    assert p % 4 == 0 || p % 4 == 1 || p % 4 == 2 || p % 4 == 3;
  }

  // ===== rounds =====

  /** The blocks after some rounds, one after the other. */
  datatype Trace = End | Then(y: bv32, z: bv32, rest: Trace)

  function Length(t: Trace): nat {
    if t.End? then 0 else 1 + Length(t.rest)
  }

  /** The last block, or the given one if there is none. */
  function Last(y: bv32, z: bv32, t: Trace): (bv32, bv32)
    decreases t
  {
    if t.End? then (y, z) else Last(t.y, t.z, t.rest)
  }

  predicate NextSum(sum: bv32) {
    Word(sum + 0x9E37_79B9) == WrappingAdd(Word(sum), DELTA)
  }

  /** Each block is the one before it after a round, with sums that begin at `sum`. */
  predicate XxteaFollows(y: bv32, z: bv32, sum: bv32, t: Trace, k: Words)
    decreases t
  {
    t.Then? ==>
      && Word(t.y) == WrappingAdd(Word(y), Word(Mix(z, z, sum, Pick(k, Choice(sum, 0)))))
      && Word(t.z) == WrappingAdd(Word(z), Word(Mix(t.y, t.y, sum, Pick(k, Choice(sum, 1)))))
      && NextSum(sum) && XxteaFollows(t.y, t.z, sum + 0x9E37_79B9, t.rest, k)
  }

  function Block(y: bv32, z: bv32): (b: seq<u32>)
    ensures |b| == 2
  {
    [Word(y), Word(z)]
  }

  lemma XxteaRound(y: bv32, z: bv32, sum: bv32, t: Trace, k: Words)
    requires t.Then? && XxteaFollows(y, z, sum, t, k)
    ensures EncRound(Block(y, z), Word(sum), 0, KeyOf(k)) == Block(t.y, t.z)
  {
    hide Mix, Mx, Pick, Choice, KeyOf, Word, NextSum;
    var s, key := Word(sum), KeyOf(k);
    MxIs(z, z, sum, 0, k);
    MxIs(t.y, t.y, sum, 1, k);
    TwoSteps(Word(y), Word(z), s, key, Word(t.y), Word(t.z));
  }

  lemma TwoSteps(y: u32, z: u32, sum: u32, key: Key, y': u32, z': u32)
    requires y' == WrappingAdd(y, Mx(z, z, sum, 0, key)) && z' == WrappingAdd(z, Mx(y', y', sum, 1, key))
    ensures EncRound([y, z], sum, 0, key) == [y', z']
  {
    hide Mx;
    assert EncStep([y, z], sum, 0, key) == [y', z];
    assert EncStep([y', z], sum, 1, key) == [y', z'];
    assert EncRound([y', z'], sum, 2, key) == [y', z'];
    assert EncRound([y', z], sum, 1, key) == [y', z'];
  }

  lemma {:induction false} XxteaRun(k: Words, b: seq<u32>, q: nat, y: bv32, z: bv32, sum: bv32, t: Trace)
    requires EncRounds(b, q, KeyOf(k)) == Block(y, z)
    requires Word(sum) == SumAfter(q + 1) && XxteaFollows(y, z, sum, t, k)
    ensures var last := Last(y, z, t); EncRounds(b, q + Length(t), KeyOf(k)) == Block(last.0, last.1)
    decreases t
  {
    hide Mix, Mx, Pick, Choice, EncRound, KeyOf, Word, Block;
    if t.Then? {
      XxteaRound(y, z, sum, t, k);
      XxteaRun(k, b, q + 1, t.y, t.z, sum + 0x9E37_79B9, t.rest);
    }
  }

  predicate TeaFollows(y: bv32, z: bv32, sum: bv32, t: Trace, k: Words)
    decreases t
  {
    t.Then? ==>
      var next := sum + 0x9E37_79B9;
      && Word(t.y) == WrappingAdd(Word(y), Word(TeaBits(z, sum, Pick(k, LowBits(sum)))))
      && Word(t.z) == WrappingAdd(Word(z), Word(TeaBits(t.y, next, Pick(k, HighBits(next)))))
      && NextSum(sum) && TeaFollows(t.y, t.z, next, t.rest, k)
  }

  lemma {:induction false} TeaRun(k: Words, b: Pair, q: nat, y: bv32, z: bv32, sum: bv32, t: Trace)
    requires TeaEncRounds(b, q, KeyOf(k)) == Pair(Word(y), Word(z))
    requires Word(sum) == SumAfter(q) && TeaFollows(y, z, sum, t, k)
    ensures var last := Last(y, z, t); TeaEncRounds(b, q + Length(t), KeyOf(k)) == Pair(Word(last.0), Word(last.1))
    decreases t
  {
    hide TeaBits, Pick, LowBits, HighBits, KeyOf, TeaY, TeaZ, Word;
    if t.Then? {
      TeaIs(z, sum, k);
      TeaIs(t.y, sum + 0x9E37_79B9, k);
      TeaRun(k, b, q + 1, t.y, t.z, sum + 0x9E37_79B9, t.rest);
    }
  }

  lemma NoRounds()
    ensures forall b, key :: EncRounds(b, 0, key) == b
    ensures forall b, key :: TeaEncRounds(b, 0, key) == b
  {
  }

  // ===== known answers =====

  const ZERO_WORDS := Words(0, 0, 0, 0)
  const DEFAULT_WORDS := Words(0x6C0A5452, 0x03827D0F, 0x3A170B92, 0x16DB7FC2)

  lemma KeysAre()
    ensures KeyOf(ZERO_WORDS) == ZERO_KEY && KeyOf(DEFAULT_WORDS) == DEFAULT_KEY
  {
  }

  /** The sums with which every eighth round begins. */
  lemma SumsAre()
    ensures Word(0) == SumAfter(0) && Word(0x9E3779B9) == SumAfter(1)
    ensures Word(0xF1BBCDC8) == SumAfter(8) && Word(0x8FF34781) == SumAfter(9)
    ensures Word(0xE3779B90) == SumAfter(16) && Word(0x81AF1549) == SumAfter(17)
    ensures Word(0xD5336958) == SumAfter(24) && Word(0x736AE311) == SumAfter(25)
  {
    hide SumAfter;
    SumIsProduct(0);
    SumIsProduct(1);
    SumIsProduct(8);
    SumIsProduct(9);
    SumIsProduct(16);
    SumIsProduct(17);
    SumIsProduct(24);
    SumIsProduct(25);
  }

  lemma XxteaZero0() returns (t: Trace)
    ensures Length(t) == 8 && Last(0x00000000, 0x00000000, t) == (0x27B60775, 0xC594B9D5)
    ensures XxteaFollows(0x00000000, 0x00000000, 0x9E3779B9, t, ZERO_WORDS)
  {
    hide KeyOf, SumAfter;
    t :=
      Then(0x9E3779B9, 0xF2EAA869, Then(0xDA9244B9, 0xD18827B5,
      Then(0x7A687295, 0x60924A46, Then(0x78CDD12F, 0x7CFE2636,
      Then(0xD1424E9D, 0x4314DAD4, Then(0x4F5A2793, 0xB53F833E,
      Then(0xDCA7159A, 0xE2D50236, Then(0x27B60775, 0xC594B9D5, End))))))));
  }

  lemma XxteaZero1() returns (t: Trace)
    ensures Length(t) == 8 && Last(0x27B60775, 0xC594B9D5, t) == (0xA7A798DA, 0xD2045544)
    ensures XxteaFollows(0x27B60775, 0xC594B9D5, 0x8FF34781, t, ZERO_WORDS)
  {
    hide KeyOf, SumAfter;
    t :=
      Then(0x8541FCA2, 0x9FA5FEB9, Then(0xBA651406, 0x7377B193,
      Then(0xF03B6A37, 0x3D02ACCB, Then(0x4A2C6478, 0xF9893569,
      Then(0xCD96C0B1, 0x5D515DAB, Then(0xCF5B7ED7, 0x6E2E549F,
      Then(0x02CFECB3, 0xEBBD12F7, Then(0xA7A798DA, 0xD2045544, End))))))));
  }

  lemma XxteaZero2() returns (t: Trace)
    ensures Length(t) == 8 && Last(0xA7A798DA, 0xD2045544, t) == (0x2B041E80, 0xFB7F85FE)
    ensures XxteaFollows(0xA7A798DA, 0xD2045544, 0x81AF1549, t, ZERO_WORDS)
  {
    hide KeyOf, SumAfter;
    t :=
      Then(0x54D05CCD, 0x85CC748E, Then(0x953964E4, 0x37315FE7,
      Then(0x2849E290, 0xD68E7604, Then(0xD7F812E4, 0xB4068A5B,
      Then(0x062BA5CC, 0x2DD29795, Then(0x728A324E, 0xDA491A3A,
      Then(0x5BBCE14D, 0xB02D3562, Then(0x2B041E80, 0xFB7F85FE, End))))))));
  }

  lemma XxteaZero3() returns (t: Trace)
    ensures Length(t) == 8 && Last(0x2B041E80, 0xFB7F85FE, t) == (0x053704AB, 0x575D8C80)
    ensures XxteaFollows(0x2B041E80, 0xFB7F85FE, 0x736AE311, t, ZERO_WORDS)
  {
    hide KeyOf, SumAfter;
    t :=
      Then(0x3C2D965B, 0x39408CFA, Then(0x51F7DF3F, 0x021F3622,
      Then(0xD7F2901D, 0xF170349E, Then(0x539BCA2C, 0xE355EAF8,
      Then(0x958DE3BF, 0x75AE5259, Then(0xF3473340, 0x0F5AB585,
      Then(0xF95EE03F, 0xB59A1FE8, Then(0x053704AB, 0x575D8C80, End))))))));
  }

  /** A block of zeros with a key of zeros. */
  lemma XxteaZero()
    ensures XxteaEncipher([0, 0], ZERO_KEY) == [0x053704AB, 0x575D8C80]
  {
    hide SumAfter, EncRounds, EncRound, XxteaFollows, Length, Last, KeyOf;
    NoRounds();
    KeysAre();
    SumsAre();
    var k, b := ZERO_WORDS, [0, 0];
    var t0 := XxteaZero0();
    XxteaRun(k, b, 0, 0x00000000, 0x00000000, 0x9E3779B9, t0);
    var t1 := XxteaZero1();
    XxteaRun(k, b, 8, 0x27B60775, 0xC594B9D5, 0x8FF34781, t1);
    var t2 := XxteaZero2();
    XxteaRun(k, b, 16, 0xA7A798DA, 0xD2045544, 0x81AF1549, t2);
    var t3 := XxteaZero3();
    XxteaRun(k, b, 24, 0x2B041E80, 0xFB7F85FE, 0x736AE311, t3);
  }

  lemma XxteaDefault0() returns (t: Trace)
    ensures Length(t) == 8 && Last(0x00000001, 0x00000002, t) == (0x0DC3B518, 0xF9423CF4)
    ensures XxteaFollows(0x00000001, 0x00000002, 0x9E3779B9, t, DEFAULT_WORDS)
  {
    hide KeyOf, SumAfter;
    t :=
      Then(0xD84E8564, 0x12D61F26, Then(0xAEEB4F91, 0x988339C1,
      Then(0x9440CE60, 0x1627A513, Then(0xD08F2145, 0x496C7541,
      Then(0x4A64D27E, 0x60941716, Then(0x08AC99B9, 0xECE83220,
      Then(0x4726B2FD, 0xF5CF89B3, Then(0x0DC3B518, 0xF9423CF4, End))))))));
  }

  lemma XxteaDefault1() returns (t: Trace)
    ensures Length(t) == 8 && Last(0x0DC3B518, 0xF9423CF4, t) == (0x72E66120, 0x838E53D2)
    ensures XxteaFollows(0x0DC3B518, 0xF9423CF4, 0x8FF34781, t, DEFAULT_WORDS)
  {
    hide KeyOf, SumAfter;
    t :=
      Then(0x73FB4426, 0x8BFF0641, Then(0x0189F766, 0xE42B6BF0,
      Then(0x47344F1E, 0x2EB31DED, Then(0x1D66F6D6, 0x02F8BD03,
      Then(0x4DD4A0DC, 0x6FC10019, Then(0x3D5AAEF1, 0xD6DE85EC,
      Then(0xFB569DF3, 0x98CED060, Then(0x72E66120, 0x838E53D2, End))))))));
  }

  lemma XxteaDefault2() returns (t: Trace)
    ensures Length(t) == 8 && Last(0x72E66120, 0x838E53D2, t) == (0xAB9E75D1, 0xD08332DE)
    ensures XxteaFollows(0x72E66120, 0x838E53D2, 0x81AF1549, t, DEFAULT_WORDS)
  {
    hide KeyOf, SumAfter;
    t :=
      Then(0xFBE70D0B, 0x725A0A30, Then(0x76D1464E, 0x54A4E5EE,
      Then(0x3F50EF73, 0x99E943DA, Then(0xD08C4B45, 0xB8BEA8A8,
      Then(0x4530E7DA, 0x05351A36, Then(0x118CFF00, 0x6CA65816,
      Then(0xBEC442A7, 0x643794D6, Then(0xAB9E75D1, 0xD08332DE, End))))))));
  }

  lemma XxteaDefault3() returns (t: Trace)
    ensures Length(t) == 8 && Last(0xAB9E75D1, 0xD08332DE, t) == (0x0BF73FD8, 0xE3964B43)
    ensures XxteaFollows(0xAB9E75D1, 0xD08332DE, 0x736AE311, t, DEFAULT_WORDS)
  {
    hide KeyOf, SumAfter;
    t :=
      Then(0xE27D9CC3, 0x89EEB0EA, Then(0xE207C637, 0xADB8473B,
      Then(0x27DBC544, 0x697B7B6B, Then(0x0E10E598, 0xD672713C,
      Then(0xDB5A5734, 0xCB55DB64, Then(0xA37B443B, 0x3B0C7C9E,
      Then(0x8D415FC0, 0xAB79206D, Then(0x0BF73FD8, 0xE3964B43, End))))))));
  }

  /** A block with the key of encrypted .age, .csv and .fni files. */
  lemma XxteaDefault()
    ensures XxteaEncipher([1, 2], DEFAULT_KEY) == [0x0BF73FD8, 0xE3964B43]
  {
    hide SumAfter, EncRounds, EncRound, XxteaFollows, Length, Last, KeyOf;
    NoRounds();
    KeysAre();
    SumsAre();
    var k, b := DEFAULT_WORDS, [1, 2];
    var t0 := XxteaDefault0();
    XxteaRun(k, b, 0, 0x00000001, 0x00000002, 0x9E3779B9, t0);
    var t1 := XxteaDefault1();
    XxteaRun(k, b, 8, 0x0DC3B518, 0xF9423CF4, 0x8FF34781, t1);
    var t2 := XxteaDefault2();
    XxteaRun(k, b, 16, 0x72E66120, 0x838E53D2, 0x81AF1549, t2);
    var t3 := XxteaDefault3();
    XxteaRun(k, b, 24, 0xAB9E75D1, 0xD08332DE, 0x736AE311, t3);
  }

  lemma TeaZero0() returns (t: Trace)
    ensures Length(t) == 8 && Last(0x00000000, 0x00000000, t) == (0x2FCA0CF4, 0x16428170)
    ensures TeaFollows(0x00000000, 0x00000000, 0x00000000, t, ZERO_WORDS)
  {
    hide KeyOf, SumAfter;
    t :=
      Then(0x00000000, 0x9E3779B9, Then(0x1B8AE3AF, 0x8DCB1CA7,
      Then(0x764F3FFD, 0x9501C7AE, Then(0xA95F919D, 0xD7D057CB,
      Then(0xD4B144DA, 0x0D46C4C8, Then(0xCB09A4CD, 0x41CE415D,
      Then(0xA0FE182E, 0x3A2F1F9D, Then(0x2FCA0CF4, 0x16428170, End))))))));
  }

  lemma TeaZero1() returns (t: Trace)
    ensures Length(t) == 8 && Last(0x2FCA0CF4, 0x16428170, t) == (0x2A72A594, 0x1072425F)
    ensures TeaFollows(0x2FCA0CF4, 0x16428170, 0xF1BBCDC8, t, ZERO_WORDS)
  {
    hide KeyOf, SumAfter;
    t :=
      Then(0xBB3156A7, 0x144FF25D, Then(0x928F61C5, 0xA52AFA76,
      Then(0x652A8BD8, 0x1FF949BB, Then(0x38312D23, 0xF196868B,
      Then(0xB31404C6, 0xE0D465F4, Then(0x96D850CC, 0x87D91D00,
      Then(0x3D58EEC2, 0xDCD658CF, Then(0x2A72A594, 0x1072425F, End))))))));
  }

  lemma TeaZero2() returns (t: Trace)
    ensures Length(t) == 8 && Last(0x2A72A594, 0x1072425F, t) == (0xFB9F49AA, 0x991824E1)
    ensures TeaFollows(0x2A72A594, 0x1072425F, 0xE3779B90, t, ZERO_WORDS)
  {
    hide KeyOf, SumAfter;
    t :=
      Then(0x25E10765, 0x1501D2F8, Then(0x09FAE8AB, 0xCB3C9C9A,
      Then(0xA9252F87, 0xC99BA4C2, Then(0x80B16CFA, 0x9D2CD877,
      Then(0xAFB5A558, 0xF47E3AA6, Then(0x7DE80FCE, 0xB811F430,
      Then(0x221DC505, 0x2C236112, Then(0xFB9F49AA, 0x991824E1, End))))))));
  }

  lemma TeaZero3() returns (t: Trace)
    ensures Length(t) == 8 && Last(0xFB9F49AA, 0x991824E1, t) == (0xDEE9D4D8, 0xF7131ED9)
    ensures TeaFollows(0xFB9F49AA, 0x991824E1, 0xD5336958, t, ZERO_WORDS)
  {
    hide KeyOf, SumAfter;
    t :=
      Then(0xF6F126EA, 0xC6161271, Then(0x54FE71CF, 0x79B34FF8,
      Then(0x580D5B0C, 0xEFAE339F, Then(0x9AA30594, 0xF7474ADB,
      Then(0xBFA7B891, 0x4AADEF6B, Then(0xDF18F954, 0xA6BDF7DB,
      Then(0x7E41C39B, 0xF5563DFB, Then(0xDEE9D4D8, 0xF7131ED9, End))))))));
  }

  /** The two-word cipher on zeros. */
  lemma TeaZero()
    ensures TeaEncipher(Pair(0, 0), ZERO_KEY) == Pair(0xDEE9D4D8, 0xF7131ED9)
  {
    hide SumAfter, TeaEncRounds, TeaFollows, Length, Last, KeyOf;
    NoRounds();
    KeysAre();
    SumsAre();
    var k, b := ZERO_WORDS, Pair(0, 0);
    var t0 := TeaZero0();
    TeaRun(k, b, 0, 0x00000000, 0x00000000, 0x00000000, t0);
    var t1 := TeaZero1();
    TeaRun(k, b, 8, 0x2FCA0CF4, 0x16428170, 0xF1BBCDC8, t1);
    var t2 := TeaZero2();
    TeaRun(k, b, 16, 0x2A72A594, 0x1072425F, 0xE3779B90, t2);
    var t3 := TeaZero3();
    TeaRun(k, b, 24, 0xFB9F49AA, 0x991824E1, 0xD5336958, t3);
  }

  lemma TeaDefault0() returns (t: Trace)
    ensures Length(t) == 8 && Last(0x00000001, 0x00000002, t) == (0xEAF157A4, 0xFA4ED1D8)
    ensures TeaFollows(0x00000001, 0x00000002, 0x00000000, t, DEFAULT_WORDS)
  {
    hide KeyOf, SumAfter;
    t :=
      Then(0x6C0A5471, 0x9ADD9361, Then(0x4E5EEF95, 0xDE5C9626,
      Then(0x057CD388, 0x61A7F1C4, Then(0x9018CD07, 0xD374C9ED,
      Then(0x71BD06C1, 0xDC7A07F5, Then(0xF8E77189, 0x2B39D6B2,
      Then(0x2B850B38, 0x9444CF62, Then(0xEAF157A4, 0xFA4ED1D8, End))))))));
  }

  lemma TeaDefault1() returns (t: Trace)
    ensures Length(t) == 8 && Last(0xEAF157A4, 0xFA4ED1D8, t) == (0xE45E15DA, 0xF22CF201)
    ensures TeaFollows(0xEAF157A4, 0xFA4ED1D8, 0xF1BBCDC8, t, DEFAULT_WORDS)
  {
    hide KeyOf, SumAfter;
    t :=
      Then(0xAB3976A0, 0x9444555E, Then(0xF1977ED8, 0x1EEC1620,
      Then(0x56FB52F5, 0x3FB00829, Then(0x308C0344, 0xDD109FC9,
      Then(0x92E2140D, 0x8EDC6ED2, Then(0x07C1EA69, 0xB8461FD3,
      Then(0xE0B8487A, 0x14BA1847, Then(0xE45E15DA, 0xF22CF201, End))))))));
  }

  lemma TeaDefault2() returns (t: Trace)
    ensures Length(t) == 8 && Last(0xE45E15DA, 0xF22CF201, t) == (0x92BABA24, 0xE6A819DC)
    ensures TeaFollows(0xE45E15DA, 0xF22CF201, 0xE3779B90, t, DEFAULT_WORDS)
  {
    hide KeyOf, SumAfter;
    t :=
      Then(0x3C68EC3D, 0xAA3D4236, Then(0x125B863C, 0xBF2C8C72,
      Then(0x01FF3B5D, 0x9F878F1F, Then(0x4AF51037, 0xDF2BFA0D,
      Then(0x66224002, 0xB58B23DA, Then(0x52C931A6, 0x07A028C5,
      Then(0xA5CD6649, 0xCD5B420A, Then(0x92BABA24, 0xE6A819DC, End))))))));
  }

  lemma TeaDefault3() returns (t: Trace)
    ensures Length(t) == 8 && Last(0x92BABA24, 0xE6A819DC, t) == (0x89F6CD47, 0x0415CF5A)
    ensures TeaFollows(0x92BABA24, 0xE6A819DC, 0xD5336958, t, DEFAULT_WORDS)
  {
    hide KeyOf, SumAfter;
    t :=
      Then(0xA81C0564, 0xDA91A688, Then(0xA4A9F180, 0xB6AB3C08,
      Then(0x12B2AEB4, 0x8E2E0B04, Then(0xC4BD4C0D, 0x28B43877,
      Then(0xCD5F47B1, 0x77EAC851, Then(0xE8952458, 0xF811514B,
      Then(0xA306C51D, 0xDFF96187, Then(0x89F6CD47, 0x0415CF5A, End))))))));
  }

  /** The two-word cipher with the same key. */
  lemma TeaDefault()
    ensures TeaEncipher(Pair(1, 2), DEFAULT_KEY) == Pair(0x89F6CD47, 0x0415CF5A)
  {
    hide SumAfter, TeaEncRounds, TeaFollows, Length, Last, KeyOf;
    NoRounds();
    KeysAre();
    SumsAre();
    var k, b := DEFAULT_WORDS, Pair(1, 2);
    var t0 := TeaDefault0();
    TeaRun(k, b, 0, 0x00000001, 0x00000002, 0x00000000, t0);
    var t1 := TeaDefault1();
    TeaRun(k, b, 8, 0xEAF157A4, 0xFA4ED1D8, 0xF1BBCDC8, t1);
    var t2 := TeaDefault2();
    TeaRun(k, b, 16, 0xE45E15DA, 0xF22CF201, 0xE3779B90, t2);
    var t3 := TeaDefault3();
    TeaRun(k, b, 24, 0x92BABA24, 0xE6A819DC, 0xD5336958, t3);
  }

  /** One round of a longer block, in which a word's neighbours differ. */
  lemma ThreeWords()
    ensures EncRound([1, 2, 3], DELTA, 0, DEFAULT_KEY) == [0xD84E8575, 0xE767BF08, 0x0294A07F]
  {
    hide Mx;
    var k := Words(0x6C0A5452, 0x03827D0F, 0x3A170B92, 0x16DB7FC2);
    assert KeyOf(k) == DEFAULT_KEY;
    MxIs(2, 3, 0x9E3779B9, 0, k);
    MxIs(3, 0xD84E8575, 0x9E3779B9, 1, k);
    MxIs(0xD84E8575, 0xE767BF08, 0x9E3779B9, 2, k);
    var b1 := EncStep([1, 2, 3], DELTA, 0, DEFAULT_KEY);
    assert b1 == [0xD84E8575, 2, 3];
    var b2 := EncStep(b1, DELTA, 1, DEFAULT_KEY);
    assert b2 == [0xD84E8575, 0xE767BF08, 3];
    var b3 := EncStep(b2, DELTA, 2, DEFAULT_KEY);
    assert b3 == [0xD84E8575, 0xE767BF08, 0x0294A07F];
    assert EncRound(b3, DELTA, 3, DEFAULT_KEY) == b3;
    assert EncRound(b2, DELTA, 2, DEFAULT_KEY) == b3;
    assert EncRound(b1, DELTA, 1, DEFAULT_KEY) == b3;
  }
}
