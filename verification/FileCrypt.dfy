/** The encrypting writer and decrypting reader of src/plasma/file_crypt.rs, over a
    seekable base stream that is overwritten in place. */
module FileCrypt {
  import opened Prim
  import opened Cipher

  datatype Mode = Unencrypted | Tea | Xxtea

  const MAGIC_TEA: bytes := [0x77, 0x68, 0x61, 0x74, 0x64, 0x6f, 0x79, 0x6f, 0x75, 0x73, 0x65, 0x65] // whatdoyousee
  const MAGIC_TEA_OLD: bytes := [0x42, 0x72, 0x79, 0x63, 0x65, 0x49, 0x73, 0x53, 0x6d, 0x61, 0x72, 0x74] // BryceIsSmart
  const MAGIC_XXTEA: bytes := [0x6e, 0x6f, 0x74, 0x74, 0x68, 0x65, 0x64, 0x72, 0x6f, 0x69, 0x64, 0x73] // notthedroids

  function Magic(mode: Mode): (r: bytes)
    ensures |r| == if mode.Unencrypted? then 0 else 12
  {
    match mode
    case Unencrypted => []
    case Tea => MAGIC_TEA
    case Xxtea => MAGIC_XXTEA
  }

  /** What `EncryptionType::from_stream` decides from the unread bytes. */
  function Detect(s: bytes): Mode {
    if |s| < 12 then Unencrypted
    else if s[..12] == MAGIC_TEA || s[..12] == MAGIC_TEA_OLD then Tea
    else if s[..12] == MAGIC_XXTEA then Xxtea
    else Unencrypted
  }

  // ----- one block of eight bytes -----

  type Block = b: bytes | |b| == 8 witness [0, 0, 0, 0, 0, 0, 0, 0]

  function WordsOf(b: Block): Pair {
    Pair(U32At(b[..4]), U32At(b[4..]))
  }

  function BytesOf(w: Pair): Block {
    U32Bytes(w.y) + U32Bytes(w.z)
  }

  function EncWords(mode: Mode, key: Key, w: Pair): Pair {
    match mode
    case Unencrypted => w
    case Tea => TeaEncipher(w, key)
    case Xxtea => var r := XxteaEncipher([w.y, w.z], key); Pair(r[0], r[1])
  }

  function DecWords(mode: Mode, key: Key, w: Pair): Pair {
    match mode
    case Unencrypted => w
    case Tea => TeaDecipher(w, key)
    case Xxtea => var r := XxteaDecipher([w.y, w.z], key); Pair(r[0], r[1])
  }

  function EncBlock(mode: Mode, key: Key, b: Block): Block {
    BytesOf(EncWords(mode, key, WordsOf(b)))
  }

  function DecBlock(mode: Mode, key: Key, b: Block): Block {
    BytesOf(DecWords(mode, key, WordsOf(b)))
  }

  lemma WordsInverse(mode: Mode, key: Key, w: Pair)
    ensures DecWords(mode, key, EncWords(mode, key, w)) == w
  {
    match mode
    case Unencrypted =>
    case Tea => TeaInverse(w, key);
    case Xxtea =>
      hide EncRounds, DecRounds;
      var b := [w.y, w.z];
      var r := XxteaEncipher(b, key);
      assert [r[0], r[1]] == r;
      XxteaInverse(b, key);
  }

  lemma BytesOfWords(b: Block, w: Pair)
    ensures BytesOf(WordsOf(b)) == b
    ensures WordsOf(BytesOf(w)) == w
  {
    BytesOfU32At(b[..4]);
    BytesOfU32At(b[4..]);
    assert BytesOf(w)[..4] == U32Bytes(w.y) + [] && BytesOf(w)[4..] == U32Bytes(w.z) + [];
    U32AtBytes(w.y, []);
    U32AtBytes(w.z, []);
  }

  lemma BlockInverse(mode: Mode, key: Key, b: Block)
    ensures DecBlock(mode, key, EncBlock(mode, key, b)) == b
  {
    var w := WordsOf(b);
    BytesOfWords(b, EncWords(mode, key, w));
    WordsInverse(mode, key, w);
  }

  // ----- the stored form of a plaintext -----

  /** `data` with `b` written over it from position `p`, growing if it must. */
  function Overlay(data: bytes, p: nat, b: bytes): (r: bytes)
    requires p <= |data|
    ensures |r| == if p + |b| <= |data| then |data| else p + |b|
    ensures r[..p] == data[..p] && r[p..p + |b|] == b
  {
    data[..p] + b + (if p + |b| <= |data| then data[p + |b|..] else [])
  }

  lemma OverlayKeeps(data: bytes, p: nat, b: bytes, lo: nat, hi: nat)
    requires p <= |data| && lo <= hi <= |data|
    requires hi <= p || p + |b| <= lo
    ensures Overlay(data, p, b)[lo..hi] == data[lo..hi]
  {
  }

  lemma OverlayTwice(data: bytes, p: nat, a: bytes, b: bytes)
    requires p <= |data|
    ensures Overlay(Overlay(data, p, a), p + |a|, b) == Overlay(data, p, a + b)
  {
  }

  lemma WithinBlock(a: nat, k: nat)
    requires a % 8 + k < 8
    ensures (a + k) / 8 == a / 8 && (a + k) % 8 == a % 8 + k
  {
  }

  lemma ToBlockEnd(a: nat, k: nat)
    requires a % 8 + k == 8
    ensures (a + k) / 8 == a / 8 + 1 && (a + k) % 8 == 0
  {
  }

  /** The first `n` blocks stored from `at` on are the encryption of `text`. */
  ghost predicate Blocks(data: bytes, at: nat, mode: Mode, key: Key, text: bytes, n: nat) {
    && at + 8 * n <= |data|
    && 8 * n <= |text|
    && forall i: nat :: i < n ==> BlockAt(data, at, i) == EncBlock(mode, key, BlockAt(text, 0, i))
  }

  function BlockAt(data: bytes, at: nat, i: nat): bytes {
    if at + 8 * i + 8 <= |data| then data[at + 8 * i..at + 8 * i + 8] else [0, 0, 0, 0, 0, 0, 0, 0]
  }

  /** A file written from position `start` on that holds exactly the plaintext: the
      text is followed by whatever padding completes its last block. */
  ghost predicate Sealed(data: bytes, start: nat, mode: Mode, key: Key, text: bytes, padded: bytes) {
    && start + 16 <= |data|
    && data[start..start + 12] == Magic(mode)
    && |text| < M32
    && data[start + 12..start + 16] == U32Bytes(|text|)
    && text <= padded
    && |padded| % 8 == 0
    && Blocks(data, start + 16, mode, key, padded, |padded| / 8)
  }

  lemma BlocksKept(data: bytes, at: nat, mode: Mode, key: Key, text: bytes, n: nat, p: nat, b: bytes)
    requires Blocks(data, at, mode, key, text, n)
    requires p <= |data| && (p + |b| <= at || at + 8 * n <= p)
    ensures Blocks(Overlay(data, p, b), at, mode, key, text, n)
  {
    hide EncBlock;
    var d := Overlay(data, p, b);
    forall i: nat | i < n
      ensures BlockAt(d, at, i) == EncBlock(mode, key, BlockAt(text, 0, i))
    {
      OverlayKeeps(data, p, b, at + 8 * i, at + 8 * i + 8);
      assert BlockAt(data, at, i) == EncBlock(mode, key, BlockAt(text, 0, i));
    }
  }

  /** The same blocks encrypt any text with the same first `8 * n` bytes. */
  lemma BlocksAgree(data: bytes, at: nat, mode: Mode, key: Key, text: bytes, text': bytes, n: nat)
    requires Blocks(data, at, mode, key, text, n)
    requires 8 * n <= |text'| && text[..8 * n] == text'[..8 * n]
    ensures Blocks(data, at, mode, key, text', n)
  {
    hide EncBlock;
    forall i: nat | i < n
      ensures BlockAt(data, at, i) == EncBlock(mode, key, BlockAt(text', 0, i))
    {
      BlockOfHead(text, n, i);
      BlockOfHead(text', n, i);
    }
  }

  lemma BlockOfHead(text: bytes, n: nat, i: nat)
    requires i < n && 8 * n <= |text|
    ensures BlockAt(text, 0, i) == text[..8 * n][8 * i..8 * i + 8]
  {
    assert 8 * i + 8 <= 8 * n;
    assert text[..8 * n][8 * i..8 * i + 8] == text[8 * i..8 * i + 8];
  }

  /** Storing the encryption of the next block extends the run of blocks by one. */
  lemma BlocksGrow(data: bytes, at: nat, mode: Mode, key: Key, text: bytes, n: nat)
    requires Blocks(data, at, mode, key, text, n)
    requires 8 * n + 8 <= |text| && at + 8 * n <= |data|
    ensures Blocks(Overlay(data, at + 8 * n, EncBlock(mode, key, BlockAt(text, 0, n))),
                   at, mode, key, text, n + 1)
  {
    hide EncBlock;
    var b := EncBlock(mode, key, BlockAt(text, 0, n));
    var d := Overlay(data, at + 8 * n, b);
    BlocksKept(data, at, mode, key, text, n, at + 8 * n, b);
    assert BlockAt(d, at, n) == d[at + 8 * n..at + 8 * n + |b|];
  }

  /** A piece that stays inside the block in progress ... */
  lemma PieceInside(data: bytes, at: nat, mode: Mode, key: Key, text: bytes, piece: bytes, buffer: Block)
    requires Blocks(data, at, mode, key, text, |text| / 8)
    requires |text| % 8 + |piece| < 8
    requires buffer[..|text| % 8 + |piece|] == text[8 * (|text| / 8)..] + piece
    ensures var t := text + piece;
            && |t| / 8 == |text| / 8
            && Blocks(data, at, mode, key, t, |t| / 8)
            && buffer[..|t| % 8] == t[8 * (|t| / 8)..]
  {
    hide EncBlock;
    WithinBlock(|text|, |piece|);
    BlocksAgree(data, at, mode, key, text, text + piece, |text| / 8);
  }

  /** ... and one that completes it, which is then stored. */
  lemma PieceCompletes(data: bytes, at: nat, mode: Mode, key: Key, text: bytes, piece: bytes, buffer: Block)
    requires Blocks(data, at, mode, key, text, |text| / 8)
    requires |text| % 8 + |piece| == 8
    requires buffer[..] == text[8 * (|text| / 8)..] + piece
    ensures var t := text + piece;
            && |t| / 8 == |text| / 8 + 1 && |t| % 8 == 0
            && Blocks(Overlay(data, at + 8 * (|text| / 8), EncBlock(mode, key, buffer)), at, mode, key, t, |t| / 8)
  {
    hide EncBlock;
    var n, t := |text| / 8, text + piece;
    ToBlockEnd(|text|, |piece|);
    BlocksAgree(data, at, mode, key, text, t, n);
    assert BlockAt(t, 0, n) == buffer;
    BlocksGrow(data, at, mode, key, t, n);
  }

  function PadWith(text: bytes, buffer: Block): (r: bytes)
    requires buffer[..|text| % 8] == text[8 * (|text| / 8)..]
    ensures text <= r && |r| == 8 * (|text| / 8) + 8
  {
    text[..8 * (|text| / 8)] + buffer
  }

  /** A flush stores the unfinished block after the finished ones ... */
  lemma FlushTail(d0: bytes, start: nat, mode: Mode, key: Key, text: bytes, buffer: Block)
    requires start + 16 <= |d0|
    requires Blocks(d0, start + 16, mode, key, text, |text| / 8)
    requires buffer[..|text| % 8] == text[8 * (|text| / 8)..]
    ensures var n := |text| / 8;
            var d1 := Overlay(d0, start + 16 + 8 * n, EncBlock(mode, key, buffer));
            && d1[..start] == d0[..start]
            && d1[start..start + 12] == d0[start..start + 12]
            && Blocks(d1, start + 16, mode, key, PadWith(text, buffer), n + 1)
  {
    hide EncBlock;
    var n, at := |text| / 8, start + 16;
    var padded := PadWith(text, buffer);
    BlocksAgree(d0, at, mode, key, text, padded, n);
    assert BlockAt(padded, 0, n) == buffer;
    BlocksGrow(d0, at, mode, key, padded, n);
    var e := EncBlock(mode, key, buffer);
    OverlayKeeps(d0, at + 8 * n, e, start, start + 12);
    OverlayKeeps(d0, at + 8 * n, e, 0, start);
  }

  /** ... and then the size word before them, which leaves the blocks alone. */
  lemma FlushSize(d1: bytes, start: nat, mode: Mode, key: Key, text: bytes, padded: bytes)
    requires !mode.Unencrypted? && |text| < M32
    requires start + 16 <= |d1| && d1[start..start + 12] == Magic(mode)
    requires text <= padded && |padded| == 8 * (|text| / 8) + 8
    requires Blocks(d1, start + 16, mode, key, padded, |text| / 8 + 1)
    ensures var d2 := Overlay(d1, start + 12, U32Bytes(|text|));
            && Sealed(d2, start, mode, key, text, padded)
            && Blocks(d2, start + 16, mode, key, text, |text| / 8)
            && d2[..start] == d1[..start]
  {
    hide EncBlock, U32Bytes;
    var n, at, size := |text| / 8, start + 16, U32Bytes(|text|);
    var d2 := Overlay(d1, start + 12, size);
    OverlayKeeps(d1, start + 12, size, start, start + 12);
    OverlayKeeps(d1, start + 12, size, 0, start);
    BlocksKept(d1, at, mode, key, padded, n + 1, start + 12, size);
    BlocksAgree(d2, at, mode, key, padded, text, n) by {
      assert Blocks(d2, at, mode, key, padded, n);
    }
  }

  // ----- the base stream -----

  class Storage {
    var data: bytes
    var pos: nat

    ghost predicate Valid()
      reads this
    {
      pos <= |data|
    }

    constructor (d: bytes, p: nat)
      requires p <= |d|
      ensures data == d && pos == p
    {
      data, pos := d, p;
    }

    method WriteAll(b: bytes)
      requires Valid()
      modifies this
      ensures Valid()
      ensures data == Overlay(old(data), old(pos), b) && pos == old(pos) + |b|
    {
      data := data[..pos] + b + (if pos + |b| <= |data| then data[pos + |b|..] else []);
      pos := pos + |b|;
    }

    method Seek(p: nat)
      requires p <= |data|
      modifies this`pos
      ensures pos == p
    {
      pos := p;
    }

    method ReadExact(n: nat) returns (r: Result<bytes>)
      requires Valid()
      modifies this`pos
      ensures Valid()
      ensures if old(pos) + n <= |data|
              then r == Ok(data[old(pos)..old(pos) + n]) && pos == old(pos) + n
              else r == Err(UnexpectedEof)
    {
      if pos + n <= |data| {
        r := Ok(data[pos..pos + n]);
        pos := pos + n;
      } else {
        r := Err(UnexpectedEof);
        pos := |data|;
      }
    }
  }

  // ----- EncryptedWriter -----

  class Writer {
    const base: Storage
    const mode: Mode
    const key: Key
    const buffer: array<u8>
    var writePos: nat
    var baseSize: nat
    const sizePos: nat

    ghost const start: nat
    ghost const origin: bytes    // what the stream held before
    ghost var text: bytes        // all plaintext written so far

    /** Everything but `baseSize`, which `Write` brings up to date at its end. */
    ghost predicate Consistent()
      reads this, base, buffer
    {
      && buffer.Length == 8
      && base.Valid()
      && sizePos == start + |Magic(mode)|
      && sizePos + 4 <= |base.data|
      && base.data[start..sizePos] == Magic(mode)
      && if mode.Unencrypted? then
           && start <= |origin| && base.pos == start + 4 + |text|
           && base.data == Overlay(origin, start, [0, 0, 0, 0] + text)
         else
           && writePos == |text|
           && base.pos == start + 16 + 8 * (|text| / 8)
           && Blocks(base.data, start + 16, mode, key, text, |text| / 8)
           && buffer[..|text| % 8] == text[8 * (|text| / 8)..]
    }

    ghost predicate Valid()
      reads this, base, buffer
    {
      Consistent() && (!mode.Unencrypted? ==> baseSize == |text|)
    }

    constructor (stream: Storage, m: Mode, k: Key)
      requires stream.Valid()
      modifies stream
      ensures Valid() && fresh(buffer)
      ensures base == stream && mode == m && key == k && start == old(stream.pos) && origin == old(stream.data)
      ensures text == []
      ensures base.data == Overlay(old(stream.data), old(stream.pos), Magic(m) + [0, 0, 0, 0])
    {
      hide EncBlock;
      var magic := Magic(m);
      stream.WriteAll(magic);
      base, mode, key := stream, m, k;
      buffer := new u8[8](_ => 0);
      writePos, baseSize := 0, 0;
      start, origin := old(stream.pos), old(stream.data);
      sizePos := stream.pos;
      text := [];
      new;
      assert U32Bytes(0) == [0, 0, 0, 0];
      stream.WriteAll([0, 0, 0, 0]);
      OverlayTwice(old(stream.data), start, magic, [0, 0, 0, 0]);
      OverlayKeeps(Overlay(old(stream.data), start, magic), sizePos, [0, 0, 0, 0], start, sizePos);
    }

    method WriteBlock()
      requires buffer.Length == 8 && base.Valid() && !mode.Unencrypted?
      modifies base
      ensures base.Valid()
      ensures base.data == Overlay(old(base.data), old(base.pos), EncBlock(mode, key, buffer[..]))
      ensures base.pos == old(base.pos) + 8
    {
      hide EncWords, U32Bytes, U32At;
      var block := new u32[2];
      block[0] := U32At(buffer[..4]);
      block[1] := U32At(buffer[4..]);
      assert buffer[..][..4] == buffer[..4] && buffer[..][4..] == buffer[4..];
      EncipherBlock(block);
      OverlayTwice(base.data, base.pos, U32Bytes(block[0]), U32Bytes(block[1]));
      base.WriteAll(U32Bytes(block[0]));
      base.WriteAll(U32Bytes(block[1]));
    }

    method EncipherBlock(block: array<u32>)
      requires block.Length == 2 && !mode.Unencrypted?
      modifies block
      ensures Pair(block[0], block[1]) == EncWords(mode, key, Pair(old(block[0]), old(block[1])))
    {
      hide EncRounds, TeaEncRounds;
      assert block[..] == [block[0], block[1]];
      match mode
      case Tea => TeaEncipherInPlace(block, key);
      case Xxtea =>
        XxteaEncipherInPlace(block, key);
        assert block[..] == [block[0], block[1]];
    }

    method CopyIn(at: nat, piece: bytes)
      requires at + |piece| <= buffer.Length
      modifies buffer
      ensures buffer[..at + |piece|] == old(buffer[..at]) + piece
    {
      forall j | 0 <= j < |piece| {
        buffer[at + j] := piece[j];
      }
    }

    /** Appends one piece that does not cross a block boundary. */
    method Fill(piece: bytes)
      requires Consistent() && !mode.Unencrypted?
      requires 0 < |piece| <= 8 - writePos % 8
      modifies this`writePos, this`text, base, buffer
      ensures Consistent() && text == old(text) + piece
      ensures base.data[..start] == old(base.data[..start])
    {
      hide EncBlock, Blocks, Magic, Overlay;
      var at := writePos % 8;
      CopyIn(at, piece);
      assert buffer[..at + |piece|] == text[8 * (|text| / 8)..] + piece;
      if at + |piece| == 8 {
        ToBlockEnd(writePos, |piece|);
      } else {
        WithinBlock(writePos, |piece|);
      }
      writePos := writePos + |piece|;
      if writePos % 8 == 0 {
        PieceCompletes(base.data, start + 16, mode, key, text, piece, buffer[..]);
        OverlayKeeps(base.data, base.pos, EncBlock(mode, key, buffer[..]), start, sizePos);
        OverlayKeeps(base.data, base.pos, EncBlock(mode, key, buffer[..]), 0, start);
        WriteBlock();
      } else {
        PieceInside(base.data, start + 16, mode, key, text, piece, buffer[..]);
      }
      text := text + piece;
    }

    method WriteUnencrypted(buf: bytes)
      requires Valid() && mode.Unencrypted?
      modifies this`text, base
      ensures Valid() && text == old(text) + buf
      ensures base.data[..start] == old(base.data[..start])
    {
      hide EncBlock, Blocks, Overlay, Magic;
      ghost var head := [0, 0, 0, 0] + text;
      OverlayTwice(origin, start, head, buf);
      assert head + buf == [0, 0, 0, 0] + (text + buf);
      base.WriteAll(buf);
      text := text + buf;
      OverlayKeeps(origin, start, [0, 0, 0, 0] + text, 0, start);
    }

    method WriteEncrypted(buf: bytes) returns (srcPos: nat)
      requires Valid() && !mode.Unencrypted?
      modifies this`writePos, this`baseSize, this`text, base, buffer
      ensures Valid() && text == old(text) + buf && srcPos == |buf|
      ensures start <= |base.data| && base.data[..start] == old(base.data[..start])
    {
      hide EncBlock, Blocks, Overlay, Magic;
      srcPos := 0;
      while srcPos < |buf|
        invariant 0 <= srcPos <= |buf|
        invariant Consistent() && text == old(text) + buf[..srcPos]
        invariant baseSize == |old(text)|
        invariant base.data[..start] == old(base.data[..start])
      {
        var bufferPos := writePos % 8;
        var copyLen := Min(|buf| - srcPos, 8 - bufferPos);
        Fill(buf[srcPos..srcPos + copyLen]);
        assert buf[..srcPos] + buf[srcPos..srcPos + copyLen] == buf[..srcPos + copyLen];
        srcPos := srcPos + copyLen;
      }
      assert buf[..|buf|] == buf;
      baseSize := if baseSize < writePos then writePos else baseSize;
    }

    method Write(buf: bytes) returns (count: nat)
      requires Valid()
      modifies this`writePos, this`baseSize, this`text, base, buffer
      ensures Valid() && text == old(text) + buf && count == |buf|
      ensures start <= |base.data| && base.data[..start] == old(base.data[..start])
    {
      hide EncBlock, Blocks, Overlay, Magic;
      if mode.Unencrypted? {
        WriteUnencrypted(buf);
        return |buf|;
      }
      count := WriteEncrypted(buf);
    }

    /** On success the file holds the text; its last block is completed by what the
        buffer still contains from earlier blocks. */
    method Flush() returns (r: Result<()>, ghost padded: bytes)
      requires Valid()
      modifies base
      ensures r.Err? <==> !mode.Unencrypted? && M32 <= |text|
      ensures r.Ok? ==> Valid() && base.pos == old(base.pos)
      ensures r.Ok? && !mode.Unencrypted? ==> Sealed(base.data, start, mode, key, text, padded)
      ensures start <= |base.data| && base.data[..start] == old(base.data[..start])
      ensures mode.Unencrypted? ==> base.data == old(base.data)
      ensures r.Err? ==> base.pos == old(base.pos) + 8
    {
      hide EncBlock, Blocks, U32Bytes, Overlay;
      r, padded := Ok(()), [];
      if mode.Unencrypted? {
        return;
      }
      var syncPos := base.pos;
      padded := PadWith(text, buffer[..]);
      FlushTail(base.data, start, mode, key, text, buffer[..]);
      WriteBlock();
      if baseSize >= M32 {
        r := Err(TooLarge);
        return;
      }
      FlushSize(base.data, start, mode, key, text, padded);
      base.Seek(sizePos);
      base.WriteAll(U32Bytes(baseSize));
      base.Seek(syncPos);
    }
  }

  // ----- EncryptedReader -----

  /** Byte `j` of the plaintext stored from `at` on. */
  function PlainByte(data: bytes, at: nat, mode: Mode, key: Key, j: nat): u8 {
    DecBlock(mode, key, BlockAt(data, at, j / 8))[j % 8]
  }

  function BlocksFor(n: nat): nat {
    (n + 7) / 8
  }

  function PlainText(data: bytes, at: nat, mode: Mode, key: Key, from: nat, n: nat): (r: bytes)
    ensures |r| == n
  {
    seq<u8>(n, k requires 0 <= k < n => PlainByte(data, at, mode, key, from + k))
  }

  lemma PlainTextJoin(data: bytes, at: nat, mode: Mode, key: Key, from: nat, n: nat, m: nat)
    ensures PlainText(data, at, mode, key, from, n) + PlainText(data, at, mode, key, from + n, m)
         == PlainText(data, at, mode, key, from, n + m)
  {
    hide PlainByte;
  }

  /** The plaintext bytes inside one block are consecutive bytes of it. */
  lemma PlainInBlock(data: bytes, at: nat, mode: Mode, key: Key, pos: nat, count: nat)
    requires count <= 8 - pos % 8
    ensures PlainText(data, at, mode, key, pos, count)
         == DecBlock(mode, key, BlockAt(data, at, pos / 8))[pos % 8..pos % 8 + count]
  {
    hide DecBlock;
    var block := DecBlock(mode, key, BlockAt(data, at, pos / 8));
    forall k | 0 <= k < count
      ensures PlainText(data, at, mode, key, pos, count)[k] == block[pos % 8..pos % 8 + count][k]
    {
      WithinBlock(pos, k);
    }
  }

  /** `dst[at..at + count].copy_from_slice(&src[from..from + count])` */
  method CopySlice(src: array<u8>, from: nat, dst: array<u8>, at: nat, count: nat)
    requires src != dst && from + count <= src.Length && at + count <= dst.Length
    modifies dst
    ensures dst[..at] == old(dst[..at])
    ensures dst[at..at + count] == src[from..from + count]
    ensures dst[at + count..] == old(dst[at + count..])
  {
    forall j | at <= j < at + count {
      dst[j] := src[from + j - at];
    }
  }

  lemma BlocksMonotone(a: nat, b: nat)
    requires a <= b
    ensures BlocksFor(a) <= BlocksFor(b)
  {
  }

  lemma BlocksAfter(a: nat, k: nat)
    requires 0 < k <= 8 - a % 8
    ensures BlocksFor(a + k) == a / 8 + 1
    ensures (a + k) % 8 != 0 ==> (a + k) / 8 == a / 8
  {
    if a % 8 + k < 8 {
      WithinBlock(a, k);
    } else {
      ToBlockEnd(a, k);
    }
  }

  lemma SealedByte(data: bytes, start: nat, mode: Mode, key: Key, text: bytes, padded: bytes, j: nat)
    requires Sealed(data, start, mode, key, text, padded) && j < |text|
    ensures PlainByte(data, start + 16, mode, key, j) == text[j]
  {
    hide EncBlock, DecBlock;
    var i := j / 8;
    assert i < |padded| / 8;
    BlockInverse(mode, key, BlockAt(padded, 0, i));
    assert BlockAt(padded, 0, i)[j % 8] == padded[j];
  }

  /** In a sealed file the stored plaintext is the text, and none of it is missing. */
  lemma SealedText(data: bytes, start: nat, mode: Mode, key: Key, text: bytes, padded: bytes, from: nat, n: nat)
    requires Sealed(data, start, mode, key, text, padded) && from + n <= |text|
    ensures PlainText(data, start + 16, mode, key, from, n) == text[from..from + n]
    ensures start + 16 + 8 * BlocksFor(from + n) <= |data|
  {
    hide EncBlock, DecBlock, PlainByte;
    var plain := PlainText(data, start + 16, mode, key, from, n);
    forall k | 0 <= k < n
      ensures plain[k] == text[from..from + n][k]
    {
      SealedByte(data, start, mode, key, text, padded, from + k);
    }
    assert BlocksFor(from + n) <= |padded| / 8;
  }

  class Reader {
    const base: Storage
    const mode: Mode
    const key: Key
    const buffer: array<u8>
    var readPos: nat
    const baseSize: nat

    const at: nat   // where the stored blocks begin

    ghost predicate Valid()
      reads this, base, buffer
    {
      && buffer.Length == 8
      && base.Valid()
      && (mode.Unencrypted? ==> readPos == baseSize == 0 && at <= base.pos)
      && (!mode.Unencrypted? ==>
            && readPos <= baseSize
            && base.pos == at + 8 * BlocksFor(readPos)
            && (readPos % 8 != 0 ==> buffer[..] == DecBlock(mode, key, BlockAt(base.data, at, readPos / 8))))
    }

    constructor (stream: Storage, m: Mode, k: Key, size: nat)
      requires stream.Valid() && (m.Unencrypted? ==> size == 0)
      ensures base == stream && mode == m && key == k && baseSize == size
      ensures readPos == 0 && at == stream.pos && fresh(buffer) && Valid()
    {
      base, mode, key := stream, m, k;
      buffer := new u8[8](_ => 0);
      readPos, baseSize, at := 0, size, stream.pos;
    }

    /** `EncryptedReader::new`: fails only on an encrypted file without a size word. */
    static method Open(stream: Storage, k: Key) returns (r: Result<Reader>)
      requires stream.Valid()
      modifies stream`pos
      ensures var s := old(stream.data[stream.pos..]);
              var m := Detect(s);
              if !m.Unencrypted? && |s| < 16 then r == Err(UnexpectedEof)
              else
                && r.Ok? && r.value.Valid() && fresh(r.value) && fresh(r.value.buffer)
                && r.value.base == stream && r.value.key == k
                && r.value.mode == m && r.value.readPos == 0
                && r.value.at == old(stream.pos) + (if m.Unencrypted? then 0 else 16)
                && stream.pos == r.value.at
                && r.value.baseSize == if m.Unencrypted? then 0 else U32At(s[12..])
    {
      hide U32At;
      ghost var s := stream.data[stream.pos..];
      var startPos := stream.pos;
      var head := stream.ReadExact(12);
      var m := Unencrypted;
      if head.Ok? {
        SliceOfTail(stream.data, startPos, 0, 12);
        if head.value == MAGIC_TEA || head.value == MAGIC_TEA_OLD {
          m := Tea;
        } else if head.value == MAGIC_XXTEA {
          m := Xxtea;
        }
      }
      var size := 0;
      if m.Unencrypted? {
        stream.Seek(startPos);
      } else {
        var word := stream.ReadExact(4);
        if word.Err? {
          return Err(word.error);
        }
        SliceOfTail(stream.data, startPos, 12, 16);
        U32AtPrefix(s[12..]);
        assert s[12..][..4] == s[12..16];
        size := U32At(word.value);
      }
      var reader := new Reader(stream, m, k, size);
      return Ok(reader);
    }

    method NextBlock() returns (r: Result<()>)
      requires buffer.Length == 8 && base.Valid() && !mode.Unencrypted?
      modifies base`pos, buffer
      ensures base.Valid()
      ensures r.Ok? <==> old(base.pos) + 8 <= |base.data|
      ensures r.Ok? ==>
                && base.pos == old(base.pos) + 8
                && buffer[..] == DecBlock(mode, key, base.data[old(base.pos)..base.pos])
    {
      var raw := base.ReadExact(8);
      if raw.Err? {
        return Err(raw.error);
      }
      ghost var b := base.data[old(base.pos)..base.pos];
      var block := new u32[2];
      block[0] := U32At(raw.value[..4]);
      block[1] := U32At(raw.value[4..]);
      DecipherBlock(block);
      var plain := U32Bytes(block[0]) + U32Bytes(block[1]);
      forall j | 0 <= j < 8 {
        buffer[j] := plain[j];
      }
      assert buffer[..] == plain == DecBlock(mode, key, b);
      return Ok(());
    }

    method DecipherBlock(block: array<u32>)
      requires block.Length == 2 && !mode.Unencrypted?
      modifies block
      ensures Pair(block[0], block[1]) == DecWords(mode, key, Pair(old(block[0]), old(block[1])))
    {
      hide DecRounds, TeaDecRounds;
      assert block[..] == [block[0], block[1]];
      match mode
      case Tea => TeaDecipherInPlace(block, key);
      case Xxtea =>
        XxteaDecipherInPlace(block, key);
        assert block[..] == [block[0], block[1]];
    }

    /** The block at the reading position is in the buffer. */
    ghost predicate Loaded()
      reads this, base, buffer
    {
      && buffer.Length == 8
      && base.Valid()
      && !mode.Unencrypted?
      && readPos < baseSize
      && base.pos == at + 8 * (readPos / 8) + 8
      && buffer[..] == DecBlock(mode, key, BlockAt(base.data, at, readPos / 8))
    }

    /** Whether all blocks holding the first `n` plaintext bytes are in the file. */
    ghost predicate Holds(n: nat)
      reads base
    {
      at + 8 * BlocksFor(n) <= |base.data|
    }

    method Load() returns (r: Result<()>)
      requires Valid() && !mode.Unencrypted? && readPos < baseSize
      modifies base`pos, buffer
      ensures r.Ok? <==> Holds(readPos + 1)
      ensures r.Ok? ==> Loaded()
    {
      hide EncBlock, DecBlock;
      if readPos % 8 == 0 {
        r := NextBlock();
      } else {
        r := Ok(());
      }
    }

    /** Copies `count` plaintext bytes that lie within the loaded block. */
    method CopyOut(buf: array<u8>, destPos: nat, count: nat)
      requires Loaded() && buf != buffer
      requires 0 < count <= 8 - readPos % 8 && destPos + count <= buf.Length
      requires readPos + count <= baseSize
      modifies this`readPos, buf
      ensures Valid() && readPos == old(readPos) + count
      ensures buf[..destPos + count]
              == old(buf[..destPos]) + PlainText(base.data, at, mode, key, old(readPos), count)
    {
      hide EncBlock, DecBlock, BlocksFor, PlainText;
      PlainInBlock(base.data, at, mode, key, readPos, count);
      BlocksAfter(readPos, count);
      CopySlice(buffer, readPos % 8, buf, destPos, count);
      assert buffer[..] == old(buffer[..]);
      assert buffer[readPos % 8..readPos % 8 + count] == buffer[..][readPos % 8..readPos % 8 + count];
      assert buf[..destPos + count] == buf[..destPos] + buf[destPos..destPos + count];
      readPos := readPos + count;
    }

    method ReadUnencrypted(buf: array<u8>) returns (have: nat)
      requires Valid() && buf != buffer && mode.Unencrypted?
      modifies base`pos, buf
      ensures Valid()
      ensures have == Min(buf.Length, |base.data| - old(base.pos)) && base.pos == old(base.pos) + have
      ensures buf[..have] == base.data[old(base.pos)..base.pos]
    {
      have := Min(buf.Length, |base.data| - base.pos);
      forall j | 0 <= j < have {
        buf[j] := base.data[base.pos + j];
      }
      base.pos := base.pos + have;
    }

    /** Fills `buf` from the plaintext; on any file, whole or damaged, the bytes
        delivered are the decrypted bytes at the reading position. */
    method ReadEncrypted(buf: array<u8>) returns (r: Result<nat>)
      requires Valid() && buf != buffer && !mode.Unencrypted?
      modifies this`readPos, base`pos, buffer, buf
      ensures var want := Min(buf.Length, baseSize - old(readPos));
              && (r.Ok? <==> Holds(old(readPos) + want))
              && (r.Ok? ==>
                    && Valid()
                    && r.value == want && readPos == old(readPos) + want
                    && buf[..want] == PlainText(base.data, at, mode, key, old(readPos), want))
    {
      hide EncBlock, DecBlock, PlainText, BlocksFor;
      var destPos := 0;
      ghost var want := Min(buf.Length, baseSize - readPos);
      ghost var from := readPos;
      while destPos < buf.Length
        invariant 0 <= destPos <= want <= buf.Length
        invariant Valid() && readPos == from + destPos
        invariant Holds(readPos)
        invariant buf[..destPos] == PlainText(base.data, at, mode, key, from, destPos)
        decreases want - destPos
      {
        var bufferPos := readPos % 8;
        var copyLen := Min(Min(buf.Length - destPos, 8 - bufferPos), baseSize - readPos);
        if copyLen == 0 {
          break;
        }
        BlocksMonotone(readPos + 1, from + want);
        BlocksAfter(readPos, copyLen);
        PlainTextJoin(base.data, at, mode, key, from, destPos, copyLen);
        ghost var done := buf[..destPos];
        var loaded := Load();
        if loaded.Err? {
          return Err(loaded.error);
        }
        assert buf[..destPos] == done;
        CopyOut(buf, destPos, copyLen);
        destPos := destPos + copyLen;
      }
      return Ok(destPos);
    }

    method Read(buf: array<u8>) returns (r: Result<nat>)
      requires Valid() && buf != buffer
      modifies this`readPos, base`pos, buffer, buf
      ensures !mode.Unencrypted? ==>
                var want := Min(buf.Length, baseSize - old(readPos));
                && (r.Ok? <==> Holds(old(readPos) + want))
                && (r.Ok? ==>
                      && Valid()
                      && r.value == want && readPos == old(readPos) + want
                      && buf[..want] == PlainText(base.data, at, mode, key, old(readPos), want))
      ensures mode.Unencrypted? ==>
                var have := Min(buf.Length, |base.data| - old(base.pos));
                && Valid()
                && r == Ok(have) && base.pos == old(base.pos) + have
                && buf[..have] == base.data[old(base.pos)..base.pos]
    {
      hide PlainText;
      if mode.Unencrypted? {
        var have := ReadUnencrypted(buf);
        r := Ok(have);
      } else {
        r := ReadEncrypted(buf);
      }
    }
  }

  // ----- whole sessions -----

  datatype Op = Write(chunk: bytes) | Flush

  function TextOf(ops: seq<Op>): bytes {
    if ops == [] then []
    else TextOf(ops[..|ops| - 1]) + (var op := ops[|ops| - 1]; if op.Write? then op.chunk else [])
  }

  function Total(sizes: seq<nat>): nat {
    if sizes == [] then 0 else Total(sizes[..|sizes| - 1]) + sizes[|sizes| - 1]
  }

  lemma {:induction false} TextOfPrefix(ops: seq<Op>, n: nat)
    requires n <= |ops|
    ensures |TextOf(ops[..n])| <= |TextOf(ops)|
    decreases |ops|
  {
    if n < |ops| {
      TextOfPrefix(ops[..|ops| - 1], n);
      assert ops[..|ops| - 1][..n] == ops[..n];
    } else {
      assert ops[..n] == ops;
    }
  }

  method Perform(writer: Writer, op: Op)
    requires writer.Valid() && |writer.text| < M32
    modifies writer`writePos, writer`baseSize, writer`text, writer.base, writer.buffer
    ensures writer.Valid() && writer.text == old(writer.text) + (if op.Write? then op.chunk else [])
    ensures writer.start <= |writer.base.data|
    ensures writer.base.data[..writer.start] == old(writer.base.data[..writer.start])
  {
    hide EncBlock, Blocks, Sealed;
    match op
    case Write(chunk) => var _ := writer.Write(chunk);
    case Flush => var _, _ := writer.Flush();
  }

  /** Performs any writes and flushes, then a final flush, on a stream that may
      already hold other data before and after the current position. */
  method WriteSession(file: Storage, mode: Mode, key: Key, ops: seq<Op>) returns (ghost padded: bytes)
    requires file.Valid() && |TextOf(ops)| < M32
    modifies file
    ensures old(file.pos) <= |file.data| && file.data[..old(file.pos)] == old(file.data[..file.pos])
    ensures !mode.Unencrypted? ==> Sealed(file.data, old(file.pos), mode, key, TextOf(ops), padded)
    ensures mode.Unencrypted? ==> file.data == Overlay(old(file.data), old(file.pos), [0, 0, 0, 0] + TextOf(ops))
  {
    hide EncBlock, Blocks, Sealed, Overlay, PadWith, Magic;
    var writer := new Writer(file, mode, key);
    for i := 0 to |ops|
      invariant writer.Valid() && writer.text == TextOf(ops[..i])
      invariant writer.base == file && writer.mode == mode && writer.key == key
      invariant fresh(writer) && fresh(writer.buffer)
      invariant writer.start == old(file.pos) && writer.origin == old(file.data)
      invariant writer.start <= |file.data| && file.data[..writer.start] == old(file.data[..file.pos])
    {
      assert ops[..i + 1][..i] == ops[..i];
      TextOfPrefix(ops, i);
      Perform(writer, ops[i]);
    }
    assert ops[..|ops|] == ops;
    var _, image := writer.Flush();
    padded := image;
  }

  method ReadChunk(reader: Reader, size: nat, ghost start: nat, ghost text: bytes, ghost padded: bytes)
    returns (chunk: bytes)
    requires reader.Valid() && !reader.mode.Unencrypted?
    requires reader.at == start + 16 && reader.baseSize == |text|
    requires Sealed(reader.base.data, start, reader.mode, reader.key, text, padded)
    modifies reader`readPos, reader.base`pos, reader.buffer
    ensures reader.Valid() && reader.readPos == Min(old(reader.readPos) + size, |text|)
    ensures chunk == text[old(reader.readPos)..reader.readPos]
  {
    hide EncBlock, DecBlock, PlainText, Sealed;
    var buf := new u8[size](_ => 0);
    ghost var from := reader.readPos;
    ghost var want := Min(buf.Length, |text| - from);
    SealedText(reader.base.data, start, reader.mode, reader.key, text, padded, from, want);
    var count := reader.Read(buf);
    chunk := buf[..count.value];
  }

  /** Reading a sealed file in any chunk sizes gives the plaintext in order, and
      never fails. */
  method ReadSession(file: Storage, ghost mode: Mode, key: Key, sizes: seq<nat>,
                     ghost text: bytes, ghost padded: bytes)
    returns (got: bytes)
    requires file.Valid() && !mode.Unencrypted?
    requires Sealed(file.data, file.pos, mode, key, text, padded)
    modifies file`pos
    ensures got == text[..Min(Total(sizes), |text|)]
  {
    hide EncBlock, DecBlock, PlainText, Sealed;
    ghost var start := file.pos;
    SealedHeader(file.data, start, mode, key, text, padded);
    var attempt := Reader.Open(file, key);
    var reader := attempt.value;
    got := [];
    for i := 0 to |sizes|
      invariant reader.Valid() && reader.base == file && reader.mode == mode && reader.key == key
      invariant fresh(reader) && fresh(reader.buffer)
      invariant reader.at == start + 16 && reader.baseSize == |text|
      invariant reader.readPos == Min(Total(sizes[..i]), |text|)
      invariant got == text[..reader.readPos]
    {
      assert sizes[..i + 1][..i] == sizes[..i];
      var chunk := ReadChunk(reader, sizes[i], start, text, padded);
      got := got + chunk;
    }
    assert sizes[..|sizes|] == sizes;
  }

  lemma SealedHeader(data: bytes, start: nat, mode: Mode, key: Key, text: bytes, padded: bytes)
    requires Sealed(data, start, mode, key, text, padded) && !mode.Unencrypted?
    ensures Detect(data[start..]) == mode
    ensures |data[start..]| >= 16 && U32At(data[start..][12..]) == |text|
  {
    var s := data[start..];
    assert s[..12] == data[start..start + 12];
    assert s[12..] == U32Bytes(|text|) + s[16..] by {
      assert s[12..16] == data[start + 12..start + 16];
    }
    U32AtBytes(|text|, s[16..]);
  }

  /** Write then read, in either encrypted mode: any writes, flushes and chunk sizes. */
  method RoundTrip(before: bytes, after: bytes, mode: Mode, key: Key, ops: seq<Op>, sizes: seq<nat>)
    returns (got: bytes)
    requires !mode.Unencrypted? && |TextOf(ops)| < M32
    ensures got == TextOf(ops)[..Min(Total(sizes), |TextOf(ops)|)]
  {
    hide Sealed, EncBlock, DecBlock;
    var file := new Storage(before + after, |before|);
    ghost var padded := WriteSession(file, mode, key, ops);
    file.Seek(|before|);
    got := ReadSession(file, mode, key, sizes, TextOf(ops), padded);
  }

  /** A text that is its own shift by four zeros is all zeros. */
  lemma {:induction false} ShiftedZeros(text: bytes, n: nat)
    requires n <= |text|
    ensures ([0, 0, 0, 0] + text)[..n] == text[..n] <==> forall i :: 0 <= i < n ==> text[i] == 0
  {
    var shifted := [0, 0, 0, 0] + text;
    if shifted[..n] == text[..n] {
      for k := 0 to n
        invariant forall i :: 0 <= i < k ==> text[i] == 0
      {
        assert shifted[..n][k] == text[..n][k];
        assert shifted[k] == if k < 4 then 0 else text[k - 4];
      }
    }
    if forall i :: 0 <= i < n ==> text[i] == 0 {
      forall i | 0 <= i < n
        ensures shifted[..n][i] == text[..n][i]
      {
        assert shifted[i] == if i < 4 then 0 else text[i - 4];
      }
    }
  }

  lemma ShiftedText(stored: bytes, text: bytes, size: nat)
    requires 4 + |text| <= |stored| && stored[0..4 + |text|] == [0, 0, 0, 0] + text
    ensures var got := stored[..Min(size, |stored|)];
            if size <= |text| then got == text[..size] <==> forall i :: 0 <= i < size ==> text[i] == 0 else got != text
  {
    if size <= |text| {
      assert stored[..size] == stored[0..4 + |text|][..size];
      ShiftedZeros(text, size);
    }
  }

  lemma OverlayAfter(before: bytes, after: bytes, b: bytes)
    ensures Overlay(before + after, |before|, b)[|before|..] == Overlay(after, 0, b)
  {
  }

  /** Without encryption the writer still reserves a size word, which the reader does
      not skip: it delivers four zeros, the text and whatever the stream held further
      on.  That is the text, as far as it is read, if and only if it is zeros only; a
      read of more bytes than the text has never gives the text. */
  method UnencryptedRoundTrip(before: bytes, after: bytes, key: Key, ops: seq<Op>, size: nat) returns (got: bytes)
    requires |TextOf(ops)| < M32
    ensures var stored := Overlay(after, 0, [0, 0, 0, 0] + TextOf(ops)); got == stored[..Min(size, |stored|)]
    ensures size <= |TextOf(ops)| ==>
              (got == TextOf(ops)[..size] <==> forall i :: 0 <= i < size ==> TextOf(ops)[i] == 0)
    ensures |TextOf(ops)| < size ==> got != TextOf(ops)
  {
    hide Sealed, EncBlock, DecBlock, Overlay;
    var file := new Storage(before + after, |before|);
    ghost var text := TextOf(ops);
    ghost var _ := WriteSession(file, Unencrypted, key, ops);
    ghost var stored := Overlay(after, 0, [0, 0, 0, 0] + text);
    OverlayAfter(before, after, [0, 0, 0, 0] + text);
    file.Seek(|before|);
    assert file.data[|before|..] == stored && stored[0..4 + |text|] == [0, 0, 0, 0] + text;
    assert stored[0] == 0;
    var attempt := Reader.Open(file, key);
    var reader := attempt.value;
    var buf := new u8[size](_ => 0);
    var count := reader.Read(buf);
    got := buf[..count.value];
    SliceOfTail(file.data, |before|, 0, Min(size, |stored|));
    ShiftedText(stored, text, size);
  }
}
