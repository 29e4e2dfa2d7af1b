/** Values whose bytes all differ, in the formats that everything else is made of: the
    order, the width and the marks of every part, and what decoders make of bytes that no
    encoder writes. */
module KnownBytes {
  import opened Prim
  import opened Text
  import opened SdlTypes
  import Cipher
  import CipherVectors
  import FileCrypt
  import SafeString
  import BitVector
  import Key
  import Creatable
  import Pak
  import VaultNode
  import SdlValues
  import SdlDefaults
  import SdlCodec

  // ===== numbers and characters =====

  lemma Numbers()
    ensures U16Bytes(0x0201) == [1, 2] && U32Bytes(0x0403_0201) == [1, 2, 3, 4]
    ensures U64Bytes(0x0807_0605_0403_0201) == [1, 2, 3, 4, 5, 6, 7, 8]
    ensures I16Bits(-2) == 0xFFFE && I32Bits(-2) == 0xFFFF_FFFE
  {
  }

  lemma Characters()
    ensures Utf8Char('A') == [0x41] && Utf8Char('\U{E9}') == [0xC3, 0xA9]
    ensures Utf8Char('\U{20AC}') == [0xE2, 0x82, 0xAC] && Utf8Char('\U{1F600}') == [0xF0, 0x9F, 0x98, 0x80]
    ensures Utf16Char('A') == [0x41] && Utf16Char('\U{20AC}') == [0x20AC] && Utf16Char('\U{1F600}') == [0xD83D, 0xDE00]
  {
  }

  /** What is not UTF-8 becomes replacement characters: one for a piece that could have
      begun a character ... */
  lemma BrokenOff()
    ensures FromUtf8([0xE2, 0x82, 0x41]) == "\U{FFFD}A" && FromUtf8([0xFF, 0x41]) == "\U{FFFD}A"
  {
    assert [0xE2, 0x82, 0x41][2..] == [0x41] && [0xFF, 0x41][1..] == [0x41];
    assert FromUtf8([0x41]) == "A";
  }

  /** ... and one for each byte that could not. */
  lemma NeverBegun()
    ensures FromUtf8([0xC0, 0x80]) == "\U{FFFD}\U{FFFD}" && FromUtf8([0xED, 0xA0]) == "\U{FFFD}\U{FFFD}"
  {
    assert [0xC0, 0x80][1..] == [0x80] && [0xED, 0xA0][1..] == [0xA0];
    assert FromUtf8([0x80]) == "\U{FFFD}" && FromUtf8([0xA0]) == "\U{FFFD}";
  }

  /** A surrogate without its other half becomes one too. */
  lemma HalfSurrogates()
    ensures FromUtf16([0xD83D, 0xDE00]) == "\U{1F600}" && FromUtf16([0xD83D, 0x41]) == "\U{FFFD}A"
    ensures FromUtf16([0xDE00]) == "\U{FFFD}"
  {
    assert [0xD83D, 0xDE00][2..] == [] && [0xD83D, 0x41][1..] == [0x41] && [0xDE00][1..] == [];
    assert FromUtf16([0x41]) == "A";
  }

  /** Equality of floats: the two zeros are equal, infinity equals itself, and nothing
      that is not a number does. */
  lemma FloatBits()
    ensures FloatEq(0, 0x8000_0000) && FloatEq(0x7F80_0000, 0x7F80_0000) && !FloatEq(0x7FC0_0000, 0x7FC0_0000)
    ensures DoubleEq(0, 0x8000_0000_0000_0000) && DoubleEq(0x7FF0_0000_0000_0000, 0x7FF0_0000_0000_0000)
    ensures !DoubleEq(0x7FF8_0000_0000_0000, 0x7FF8_0000_0000_0000) && !FloatEq(0x3F80_0000, 0xBF80_0000)
  {
  }

  // ===== strings and keys =====

  /** A short string: its length with four bits set, then its characters complemented. */
  lemma StringBytes(value: string)
    requires IsLatin1(value) && |value| <= 0xFFF
    ensures var r := SafeString.Write(value, SafeString.AsLatin1);
            && r.Ok? && |r.value| == 2 + |value|
            && r.value[0] == |value| % 256 && r.value[1] == 0xF0 + |value| / 256
            && forall i :: 0 <= i < |value| ==> r.value[2 + i] == 255 - value[i] as int
  {
    var n := |value| + 0xF000;
    assert n % 0x100 == |value| % 256 && n / 0x100 == 0xF0 + |value| / 256;
  }

  /** The older form, which the reader knows too: the plain length, two bytes that are
      passed over, and the characters as they are. */
  lemma OldString(value: string, x: u8, y: u8, rest: bytes)
    requires IsLatin1(value) && |value| <= 0xFFF && (value != "" ==> value[0] as int < 0x80)
    ensures SafeString.Read([|value| % 256, |value| / 256, x, y] + (Latin1(value) + rest), SafeString.AsLatin1)
         == Done(value, rest)
  {
    var head, tail := [|value| % 256, |value| / 256, x, y], Latin1(value) + rest;
    var s := head + tail;
    assert s[2..] == [x, y] + tail && s[2..][2..] == tail;
    assert U16At(s) == |value|;
    assert tail[..|value|] == Latin1(value) && tail[|value|..] == rest;
    Latin1RoundTrip(value);
  }

  /** The contents, the place, the mask, the type, the id, the name and the clone. */
  lemma Keys()
    ensures var place := Key.Location(0x0403_0201, 0x0605);
            Key.WriteUoid(Key.Uoid(place, 7, 0x0908, "", 0x0D0C_0B0A, 0x1110_0F0E, 0x1514_1312))
            == Ok([3] + [1, 2, 3, 4, 5, 6] + [7, 8, 9, 10, 11, 12, 13] + [0, 0xF0] + [14, 15, 16, 17, 18, 19, 20, 21])
    ensures Key.WriteKey(None) == Ok([0])
  {
    hide SafeString.Write;
    EmptyString();
    assert U32Bytes(0x0403_0201) + U16Bytes(0x0605) == [1, 2, 3, 4, 5, 6];
    assert [7] + U16Bytes(0x0908) + U32Bytes(0x0D0C_0B0A) == [7, 8, 9, 10, 11, 12, 13];
    assert U32Bytes(0x1110_0F0E) + U32Bytes(0x1514_1312) == [14, 15, 16, 17, 18, 19, 20, 21];
  }

  lemma EmptyString()
    ensures SafeString.Write("", SafeString.AsLatin1) == Ok([0, 0xF0])
  {
    StringBytes("");
    assert SafeString.Write("", SafeString.AsLatin1).value == [0, 0xF0];
  }

  // ===== messages =====

  const HEADER := Creatable.Message(None, [None], 0x0807_0605_0403_0201, 0x0D0C_0B0A)

  /** Sender, receivers, time and flags. */
  const HEADER_BYTES: bytes := [0, 1, 0, 0, 0, 0, 1, 2, 3, 4, 5, 6, 7, 8, 10, 11, 12, 13]

  lemma Header()
    ensures Creatable.WriteMessage(HEADER) == Ok(HEADER_BYTES)
  {
    var none: Option<Key.Uoid> := None;
    assert [none][..0] == [];
    assert Creatable.WriteKeys([none]).value == [0];
    assert Creatable.WriteMessage(HEADER).value == HEADER_BYTES;
  }

  function Generic(z: Creatable.Zlib, v: Creatable.GenericType): Result<bytes> {
    Creatable.WriteCreatable(z, Creatable.GenericValue(v))
  }

  lemma Values(z: Creatable.Zlib)
    ensures Generic(z, Creatable.Int(0x0403_0201)) == Ok([0x8C, 3, 0, 1, 2, 3, 4])
    ensures Generic(z, Creatable.Float(0x0403_0201)) == Ok([0x8C, 3, 1, 1, 2, 3, 4])
    ensures Generic(z, Creatable.Bool(true)) == Ok([0x8C, 3, 2, 1])
    ensures Generic(z, Creatable.Char(9)) == Ok([0x8C, 3, 4, 9])
    ensures Generic(z, Creatable.UInt(0x0403_0201)) == Ok([0x8C, 3, 6, 1, 2, 3, 4])
    ensures Generic(z, Creatable.Nothing) == Ok([0x8C, 3, 0xFF])
  {
    assert U16Bytes(0x038C) == [0x8C, 3] && U32Bytes(0x0403_0201) == [1, 2, 3, 4];
    assert [0x8C, 3] + ([0] + [1, 2, 3, 4]) == [0x8C, 3, 0, 1, 2, 3, 4];
    assert [0x8C, 3] + ([1] + [1, 2, 3, 4]) == [0x8C, 3, 1, 1, 2, 3, 4];
    assert [0x8C, 3] + ([6] + [1, 2, 3, 4]) == [0x8C, 3, 6, 1, 2, 3, 4];
    assert [0x8C, 3] + ([2] + [1]) == [0x8C, 3, 2, 1] && [0x8C, 3] + ([4] + [9]) == [0x8C, 3, 4, 9];
    assert [0x8C, 3] + ([0xFF] + []) == [0x8C, 3, 0xFF];
  }

  lemma Params()
    ensures Creatable.ParamBytes(Creatable.AnimParams(1, 2, 3, 4, 5, 6, 0x0A09_0807))
         == [1, 0, 0, 0, 2, 0, 0, 0, 3, 0, 0, 0, 4, 0, 0, 0, 5, 0, 0, 0, 6, 0, 0, 0, 7, 8, 9, 10]
  {
  }

  lemma Bits()
    ensures BitVector.Write([0x0403_0201]) == Ok([1, 0, 0, 0, 1, 2, 3, 4])
    ensures BitVector.Write([3]) == Ok([1, 0, 0, 0, 3, 0, 0, 0])
    ensures BitVector.Get([3], 0) && BitVector.Get([3], 1)
  {
    var a: seq<u32>, b: seq<u32> := [0x0403_0201], [3];
    assert a[..0] == [] && b[..0] == [];
    assert BitVector.Write(a).value == [1, 0, 0, 0, 1, 2, 3, 4] && BitVector.Write(b).value == [1, 0, 0, 0, 3, 0, 0, 0];
  }

  /** Class, header, callbacks, bits, parameters and names. */
  lemma Animation(z: Creatable.Zlib)
    ensures var params := Creatable.AnimParams(1, 2, 3, 4, 5, 6, 0x0A09_0807);
            Creatable.WriteCreatable(z, Creatable.AnimCmdMsg(HEADER, [], [0x0403_0201], params, "", ""))
            == Ok([6, 2] + (HEADER_BYTES + [0, 0, 0, 0] + [1, 0, 0, 0, 1, 2, 3, 4]
                            + [1, 0, 0, 0, 2, 0, 0, 0, 3, 0, 0, 0, 4, 0, 0, 0, 5, 0, 0, 0, 6, 0, 0, 0, 7, 8, 9, 10]
                            + [0, 0xF0] + [0, 0xF0]))
  {
    hide Creatable.WriteMessage, Creatable.ParamBytes, BitVector.Write, SafeString.Write;
    Header();
    Params();
    Bits();
    EmptyString();
    assert Creatable.WriteAll(z, []) == Ok([]);
    assert HEADER_BYTES + U32Bytes(0) + [] == HEADER_BYTES + [0, 0, 0, 0];
    assert U16Bytes(0x0206) == [6, 2];
  }

  /** Class, header, content bits, command and list. */
  lemma Linking(z: Creatable.Zlib)
    ensures Creatable.WriteCreatable(z, Creatable.LinkingMgrMsg(HEADER, [3], 9, Creatable.CreatableList(0, [])))
         == Ok([0x4B, 3] + HEADER_BYTES + [1, 0, 0, 0, 3, 0, 0, 0] + [9] + [0, 2, 0, 0, 0, 0, 0])
  {
    hide Creatable.WriteMessage, BitVector.Write, BitVector.Get;
    Header();
    Bits();
    var list := Creatable.CreatableList(0, []);
    assert Creatable.WriteList(z, list).value == [0, 2, 0, 0, 0, 0, 0];
    assert Creatable.WriteCreatable(z, Creatable.LinkingMgrMsg(HEADER, [3], 9, list)).value
        == [0x4B, 3] + HEADER_BYTES + [1, 0, 0, 0, 3, 0, 0, 0] + [9] + [0, 2, 0, 0, 0, 0, 0];
  }

  // ===== archives =====

  const FILE_A := Pak.FileInfo("a", [1, 2])
  const FILE_B := Pak.FileInfo("b", [3])

  lemma NoFiles(base: nat)
    ensures Pak.HeaderSize([]) == 4 && Pak.OffsetAfter(base, []) == base
    ensures Pak.WriteToc(base, []) == Ok([]) && Pak.WriteContents([]) == Ok([])
  {
  }

  lemma OneFile()
    ensures Pak.HeaderSize([FILE_A]) == 11 && Pak.OffsetAfter(18, [FILE_A]) == 24
    ensures Pak.WriteToc(18, [FILE_A]) == Ok([1, 0xF0, 0x9E, 18, 0, 0, 0])
    ensures Pak.WriteContents([FILE_A]) == Ok([2, 0, 0, 0, 1, 2])
  {
    hide SafeString.Write, Utf8;
    assert [FILE_A][..0] == [];
    NoFiles(18);
    Names();
    assert [] + ([1, 0xF0, 0x9E] + U32Bytes(18)) == [1, 0xF0, 0x9E, 18, 0, 0, 0];
    assert [] + (U32Bytes(2) + [1, 2]) == [2, 0, 0, 0, 1, 2];
  }

  lemma TwoFiles()
    ensures Pak.HeaderSize([FILE_A, FILE_B]) == 18
    ensures Pak.WriteToc(18, [FILE_A, FILE_B]) == Ok([1, 0xF0, 0x9E, 18, 0, 0, 0, 1, 0xF0, 0x9D, 24, 0, 0, 0])
    ensures Pak.WriteContents([FILE_A, FILE_B]) == Ok([2, 0, 0, 0, 1, 2, 1, 0, 0, 0, 3])
  {
    hide SafeString.Write, Utf8;
    assert [FILE_A, FILE_B][..1] == [FILE_A];
    OneFile();
    Names();
    assert [1, 0xF0, 0x9E, 18, 0, 0, 0] + ([1, 0xF0, 0x9D] + U32Bytes(24))
        == [1, 0xF0, 0x9E, 18, 0, 0, 0, 1, 0xF0, 0x9D, 24, 0, 0, 0];
    assert [2, 0, 0, 0, 1, 2] + (U32Bytes(1) + [3]) == [2, 0, 0, 0, 1, 2, 1, 0, 0, 0, 3];
  }

  /** The number of files, then names with the places of the files, then sizes with the
      files. */
  lemma Archive()
    ensures Pak.Write([FILE_A, FILE_B])
         == Ok([2, 0, 0, 0] + [1, 0xF0, 0x9E, 18, 0, 0, 0, 1, 0xF0, 0x9D, 24, 0, 0, 0]
               + [2, 0, 0, 0, 1, 2, 1, 0, 0, 0, 3])
  {
    hide Pak.WriteToc, Pak.WriteContents, Pak.HeaderSize;
    TwoFiles();
    assert U32Bytes(2) == [2, 0, 0, 0];
  }

  lemma Names()
    ensures Utf8("a") == [0x61] && Utf8("b") == [0x62]
    ensures SafeString.Write("a", SafeString.AsUtf8) == Ok([1, 0xF0, 0x9E])
    ensures SafeString.Write("b", SafeString.AsUtf8) == Ok([1, 0xF0, 0x9D])
  {
    assert SafeString.Write("a", SafeString.AsUtf8).value == [1, 0xF0, 0x9E];
    assert SafeString.Write("b", SafeString.AsUtf8).value == [1, 0xF0, 0x9D];
  }

  // ===== encrypted files =====

  const BLOCK: bytes := [1, 0, 0, 0, 2, 0, 0, 0]

  lemma BlockWords()
    ensures FileCrypt.WordsOf(BLOCK) == Cipher.Pair(1, 2)
    ensures FileCrypt.BytesOf(Cipher.Pair(0x0BF7_3FD8, 0xE396_4B43)) == [0xD8, 0x3F, 0xF7, 0x0B, 0x43, 0x4B, 0x96, 0xE3]
    ensures FileCrypt.BytesOf(Cipher.Pair(0x89F6_CD47, 0x0415_CF5A)) == [0x47, 0xCD, 0xF6, 0x89, 0x5A, 0xCF, 0x15, 0x04]
  {
    assert BLOCK[..4] == [1, 0, 0, 0] && BLOCK[4..] == [2, 0, 0, 0];
  }

  lemma Blocks()
    ensures FileCrypt.EncBlock(FileCrypt.Xxtea, CipherVectors.DEFAULT_KEY, BLOCK)
         == [0xD8, 0x3F, 0xF7, 0x0B, 0x43, 0x4B, 0x96, 0xE3]
    ensures FileCrypt.EncBlock(FileCrypt.Tea, CipherVectors.DEFAULT_KEY, BLOCK)
         == [0x47, 0xCD, 0xF6, 0x89, 0x5A, 0xCF, 0x15, 0x04]
  {
    hide Cipher.XxteaEncipher, Cipher.TeaEncipher, FileCrypt.WordsOf, FileCrypt.BytesOf;
    BlockWords();
    CipherVectors.XxteaDefault();
    CipherVectors.TeaDefault();
  }

  predicate Ascii(b: bytes, text: string) {
    |b| == |text| && forall i :: 0 <= i < |b| ==> b[i] == text[i] as int
  }

  lemma Magics()
    ensures Ascii(FileCrypt.Magic(FileCrypt.Xxtea), "notthedroids")
    ensures Ascii(FileCrypt.Magic(FileCrypt.Tea), "whatdoyousee")
    ensures forall b :: Ascii(b, "BryceIsSmart") ==> FileCrypt.Detect(b) == FileCrypt.Tea
  {
    forall b | Ascii(b, "BryceIsSmart")
      ensures b == FileCrypt.MAGIC_TEA_OLD
    {
    }
  }

  /** A file of one block: the mark, the length of the text and the block. */
  lemma OneBlock(data: bytes, mode: FileCrypt.Mode)
    requires |data| == 24 && !mode.Unencrypted?
    requires FileCrypt.Sealed(data, 0, mode, CipherVectors.DEFAULT_KEY, BLOCK, BLOCK)
    ensures Ascii(data[..12], if mode.Tea? then "whatdoyousee" else "notthedroids")
    ensures data[12..16] == [8, 0, 0, 0]
    ensures data[16..] == if mode.Tea? then [0x47, 0xCD, 0xF6, 0x89, 0x5A, 0xCF, 0x15, 0x04]
                          else [0xD8, 0x3F, 0xF7, 0x0B, 0x43, 0x4B, 0x96, 0xE3]
  {
    hide FileCrypt.EncBlock, FileCrypt.Magic, Ascii;
    Magics();
    Blocks();
    assert FileCrypt.BlockAt(data, 16, 0)
        == FileCrypt.EncBlock(mode, CipherVectors.DEFAULT_KEY, FileCrypt.BlockAt(BLOCK, 0, 0));
    assert FileCrypt.BlockAt(BLOCK, 0, 0) == BLOCK && FileCrypt.BlockAt(data, 16, 0) == data[16..];
    assert data[0..12] == data[..12];
  }

  // ===== vault nodes =====

  lemma NodeValues()
    ensures VaultNode.WriteValue(VaultNode.Int(-2)) == Ok([0xFE, 0xFF, 0xFF, 0xFF])
    ensures VaultNode.WriteValue(VaultNode.Text("A")) == Ok([4, 0, 0, 0, 0x41, 0, 0, 0])
    ensures VaultNode.WriteValue(VaultNode.Blob([7, 8])) == Ok([2, 0, 0, 0, 7, 8])
  {
    assert Utf16("A") == [0x41];
    assert VaultNode.WriteValue(VaultNode.Text("A")).value == [4, 0, 0, 0, 0x41, 0, 0, 0];
    assert VaultNode.WriteValue(VaultNode.Int(-2)).value == [0xFE, 0xFF, 0xFF, 0xFF];
    assert VaultNode.WriteValue(VaultNode.Blob([7, 8])).value == [2, 0, 0, 0, 7, 8];
  }

  /** What the 32 fields hold, by their numbers. */
  lemma Kinds(k: nat)
    requires k < 32
    ensures VaultNode.KindOf(k) ==
            if k in {3, 20, 21, 22, 23, 24, 25, 26, 27, 28, 29} then VaultNode.TextKind
            else if k in {4, 5, 16, 17, 18, 19} then VaultNode.UuidKind
            else if k in {7, 8, 9, 10, 11} then VaultNode.IntKind
            else if k in {30, 31} then VaultNode.BlobKind
            else VaultNode.WordKind
  {
  }

  lemma {:induction false} NoFields(n: VaultNode.Node, j: nat, k: nat)
    requires VaultNode.Formed(n) && j <= k <= 32 && forall i :: j <= i < k ==> !VaultNode.Has(n, i)
    ensures VaultNode.WriteFields(n, k) == VaultNode.WriteFields(n, j)
    decreases k - j
  {
    hide VaultNode.Has, VaultNode.WriteValue;
    if j < k {
      NoFields(n, j, k - 1);
    }
  }

  /** A folder of kind 1 with no creator: the mask, the node type and the kind. */
  lemma FolderBytes()
    ensures var n := VaultNode.Set(VaultNode.Set(VaultNode.Empty(), 7, VaultNode.Int(22)), 8, VaultNode.Int(1));
            VaultNode.Write(n) == Ok([0x80, 1, 0, 0, 0, 0, 0, 0] + [22, 0, 0, 0] + [1, 0, 0, 0])
  {
    hide VaultNode.Has, VaultNode.WriteValue, VaultNode.Empty;
    var m := VaultNode.Set(VaultNode.Empty(), 7, VaultNode.Int(22));
    var n := VaultNode.Set(m, 8, VaultNode.Int(1));
    forall k: nat
      ensures VaultNode.Has(n, k) <==> k == 7 || k == 8
    {
      VaultNode.EmptyHas(k);
      VaultNode.SetHas(VaultNode.Empty(), 7, VaultNode.Int(22), k);
      VaultNode.SetHas(m, 8, VaultNode.Int(1), k);
    }
    FolderMask();
    Counts();
    NoFields(n, 0, 7);
    assert VaultNode.WriteFields(n, 0) == Ok([]);
    assert VaultNode.WriteFields(n, 8).value == [22, 0, 0, 0];
    assert VaultNode.WriteFields(n, 9).value == [22, 0, 0, 0] + [1, 0, 0, 0];
    NoFields(n, 9, 32);
    assert VaultNode.Write(n).value == [0x80, 1, 0, 0, 0, 0, 0, 0] + [22, 0, 0, 0] + [1, 0, 0, 0];
  }

  lemma Counts()
    ensures VaultNode.WriteValue(VaultNode.Int(22)) == Ok([22, 0, 0, 0])
    ensures VaultNode.WriteValue(VaultNode.Int(1)) == Ok([1, 0, 0, 0])
    ensures U64Bytes(0x180) == [0x80, 1, 0, 0, 0, 0, 0, 0]
  {
    assert VaultNode.WriteValue(VaultNode.Int(22)).value == [22, 0, 0, 0];
    assert VaultNode.WriteValue(VaultNode.Int(1)).value == [1, 0, 0, 0];
  }

  lemma FolderMask()
    ensures VaultNode.Set(VaultNode.Set(VaultNode.Empty(), 7, VaultNode.Int(22)), 8, VaultNode.Int(1)).fields == 0x180
  {
    ZeroBit(7);
    assert Pow2(4) == 16 && Pow2(7) == 8 * Pow2(4) && Pow2(8) == 2 * Pow2(7);
    assert !Bit(128, 8);
  }

  // ===== SDL =====

  /** Vectors and colours in the order of their parts; byte colours from blue. */
  lemma Elements(env: SdlValues.Env)
    ensures SdlValues.WriteScalar(env, Bool, BoolValue(true)) == Ok([1])
    ensures SdlValues.WriteScalar(env, Short, ShortValue(-2)) == Ok([0xFE, 0xFF])
    ensures SdlValues.WriteScalar(env, Int, IntValue(0x0403_0201)) == Ok([1, 2, 3, 4])
    ensures SdlValues.WriteScalar(env, Rgb8, Color32Value(Color32(1, 2, 3, 4))) == Ok([1, 2, 3])
    ensures SdlValues.WriteScalar(env, Rgba8, Color32Value(Color32(1, 2, 3, 4))) == Ok([1, 2, 3, 4])
    ensures SdlValues.WriteScalar(env, Time, TimeValue(UnifiedTime(1, 2))) == Ok([1, 0, 0, 0, 2, 0, 0, 0])
  {
    assert SdlValues.WriteScalar(env, Short, ShortValue(-2)).value == [0xFE, 0xFF];
    assert SdlValues.WriteScalar(env, Int, IntValue(0x0403_0201)).value == [1, 2, 3, 4];
    assert SdlValues.WriteScalar(env, Time, TimeValue(UnifiedTime(1, 2))).value == [1, 0, 0, 0, 2, 0, 0, 0];
  }

  lemma Vectors(env: SdlValues.Env)
    ensures SdlValues.WriteScalar(env, Vector3, VectorValue(Vector(1, 2, 3)))
         == Ok([1, 0, 0, 0, 2, 0, 0, 0, 3, 0, 0, 0])
    ensures SdlValues.WriteScalar(env, Quat, QuatValue(Quaternion(1, 2, 3, 4)))
         == Ok([1, 0, 0, 0, 2, 0, 0, 0, 3, 0, 0, 0, 4, 0, 0, 0])
    ensures SdlValues.WriteScalar(env, Rgba, ColorValue(ColorRGBA(1, 2, 3, 4)))
         == Ok([1, 0, 0, 0, 2, 0, 0, 0, 3, 0, 0, 0, 4, 0, 0, 0])
  {
    assert SdlValues.Words3(1, 2, 3) == [1, 0, 0, 0, 2, 0, 0, 0, 3, 0, 0, 0];
    assert SdlValues.Words4(1, 2, 3, 4) == [1, 0, 0, 0, 2, 0, 0, 0, 3, 0, 0, 0, 4, 0, 0, 0];
  }

  // ----- a state of two numbers, of which the second was set -----

  const VAR_X := VarDescriptor("x", Int, Some(1), None)
  const VAR_Y := VarDescriptor("y", Int, Some(1), None)

  function Number(d: VarDescriptor, i: i32, dirty: bool): SdlDefaults.Variable {
    SdlDefaults.Variable(d, SdlDefaults.Scalars(Int, [IntValue(i)]), ZERO_TIME, "", dirty)
  }

  function Small(): SdlDefaults.State {
    SdlDefaults.State(StateDescriptor("a", 5, [VAR_X, VAR_Y]), [Number(VAR_X, 0, false), Number(VAR_Y, 7, true)], [],
                      None, 0x0201)
  }

  lemma NumberNotDefault()
    ensures SdlDefaults.SimpleIsDefault(Number(VAR_Y, 7, true)) == Ok(false)
  {
    assert Number(VAR_Y, 7, true).values.elems[0] == IntValue(7);
  }

  lemma NumberValues(env: SdlValues.Env)
    ensures SdlCodec.WriteValues(env, Number(VAR_Y, 7, true)) == Ok([7, 0, 0, 0])
  {
    var es := [IntValue(7)];
    assert es[..0] == [] && U32Bytes(7) == [7, 0, 0, 0];
    assert SdlValues.WriteScalars(env, Int, []) == Ok([]);
    assert SdlValues.WriteScalar(env, Int, es[0]) == Ok([7, 0, 0, 0]);
    assert [] + ([] + [7, 0, 0, 0]) == [7, 0, 0, 0];
    assert SdlValues.WriteScalars(env, Int, es) == Ok([] + [7, 0, 0, 0]);
  }

  lemma NumberBytes(env: SdlValues.Env)
    ensures SdlCodec.WriteVar(env, Number(VAR_Y, 7, true)) == Ok([0, 16, 7, 0, 0, 0])
  {
    hide SdlCodec.WriteValues, SdlDefaults.SimpleIsDefault;
    NumberNotDefault();
    NumberValues(env);
    assert [16] + [7, 0, 0, 0] == [16, 7, 0, 0, 0] && [0] + [16, 7, 0, 0, 0] == [0, 16, 7, 0, 0, 0];
  }

  lemma SmallSection(env: SdlValues.Env)
    ensures SdlCodec.WriteSection(env, 2, Small().simple) == Ok([1, 1, 0, 16, 7, 0, 0, 0])
    ensures SdlCodec.WriteSection(env, 2, []) == Ok([0])
  {
    hide SdlCodec.WriteVar;
    NumberBytes(env);
    var vars := Small().simple;
    assert vars[..1] == [Number(VAR_X, 0, false)] && vars[..1][..0] == [];
    assert SdlCodec.DirtyVars(vars[..1]) == 0 && SdlCodec.DirtyVars(vars) == 1;
    assert SdlCodec.WriteVars(env, 2, vars[..1], true) == Ok([]);
    assert SdlCodec.WriteVars(env, 2, vars, true).value == [1, 0, 16, 7, 0, 0, 0];
    assert [1] + [1, 0, 16, 7, 0, 0, 0] == [1, 1, 0, 16, 7, 0, 0, 0];
    assert [0] + [] == [0];
  }

  /** The mark, the name and the version; then the flags, the format, one of two simple
      variables with its index, and no nested one. */
  lemma SmallBlob(env: SdlValues.Env)
    ensures SdlCodec.ToBlob(env, Small())
         == Ok([0, 0x80] + [1, 0xF0, 0x9E] + [5, 0] + [] + ([1, 2] + [6] + [1, 1, 0, 16, 7, 0, 0, 0] + [0]))
  {
    hide SdlCodec.WriteSection, SafeString.Write;
    SmallSection(env);
    LetterA();
    assert U16Bytes(0x8000) == [0, 0x80] && U16Bytes(5) == [5, 0] && U16Bytes(0x0201) == [1, 2];
  }

  lemma LetterA()
    ensures SafeString.Write("a", SafeString.AsLatin1) == Ok([1, 0xF0, 0x9E])
  {
    StringBytes("a");
    assert SafeString.Write("a", SafeString.AsLatin1).value == [1, 0xF0, 0x9E];
  }
}
