/** Fixed-width integers, fallible results and the little-endian primitives that
    every stream format in the repository is built from. */
module Prim {

  type u8 = x: int | 0 <= x < 0x100
  type u16 = x: int | 0 <= x < 0x1_0000
  type u32 = x: int | 0 <= x < 0x1_0000_0000
  type u64 = x: int | 0 <= x < 0x1_0000_0000_0000_0000
  type i16 = x: int | -0x8000 <= x < 0x8000
  type i32 = x: int | -0x8000_0000 <= x < 0x8000_0000

  type bytes = seq<u8>

  datatype Option<+T> = None | Some(value: T)

  datatype Error =
    | UnexpectedEof
    | TooLarge
    | Malformed
    | NotFound
    | Panic           // an `unreachable!` or `panic!` arm of the source
    | StackOverflow   // recursion deeper than the model's bound

  datatype Result<+T> = Ok(value: T) | Err(error: Error) {
    predicate IsFailure() {
      Err?
    }

    function PropagateFailure<U>(): Result<U>
      requires Err?
    {
      Err(error)
    }

    function Extract(): T
      requires Ok?
    {
      value
    }
  }

  /** The outcome of reading from a stream: a value and the bytes left unread. */
  datatype Parsed<+T> = Done(value: T, rest: bytes) | Fail(error: Error) {
    predicate IsFailure() {
      Fail?
    }

    function PropagateFailure<U>(): Parsed<U>
      requires Fail?
    {
      Fail(error)
    }

    function Extract(): (T, bytes)
      requires Done?
    {
      (value, rest)
    }
  }

  function Min(a: int, b: int): int {
    if a < b then a else b
  }

  // ----- little-endian integers -----

  function U16Bytes(x: u16): (r: bytes)
    ensures |r| == 2
  {
    [x % 0x100, x / 0x100]
  }

  function U32Bytes(x: u32): (r: bytes)
    ensures |r| == 4
  {
    U16Bytes(x % 0x1_0000) + U16Bytes(x / 0x1_0000)
  }

  function U64Bytes(x: u64): (r: bytes)
    ensures |r| == 8
  {
    U32Bytes(x % 0x1_0000_0000) + U32Bytes(x / 0x1_0000_0000)
  }

  /** Two's complement, as `as u16` and `as u32` casts give it. */
  function I16Bits(x: i16): u16 {
    if x < 0 then x + 0x1_0000 else x
  }

  function I32Bits(x: i32): u32 {
    if x < 0 then x + 0x1_0000_0000 else x
  }

  function BitsI16(x: u16): i16 {
    if x < 0x8000 then x else x - 0x1_0000
  }

  function BitsI32(x: u32): i32 {
    if x < 0x8000_0000 then x else x - 0x1_0000_0000
  }

  function ReadU8(s: bytes): Parsed<u8> {
    if |s| < 1 then Fail(UnexpectedEof) else Done(s[0], s[1..])
  }

  function U16At(s: bytes): u16
    requires |s| >= 2
  {
    s[0] as int + 0x100 * s[1] as int
  }

  function U32At(s: bytes): u32
    requires |s| >= 4
  {
    U16At(s) as int + 0x1_0000 * U16At(s[2..]) as int
  }

  function ReadU16(s: bytes): Parsed<u16> {
    if |s| < 2 then Fail(UnexpectedEof) else Done(U16At(s), s[2..])
  }

  function ReadU32(s: bytes): Parsed<u32> {
    if |s| < 4 then Fail(UnexpectedEof) else Done(U32At(s), s[4..])
  }

  function ReadU64(s: bytes): Parsed<u64> {
    if |s| < 8 then Fail(UnexpectedEof)
    else Done(U32At(s) + 0x1_0000_0000 * U32At(s[4..]), s[8..])
  }

  /** `read_exact` into a buffer of `n` bytes. */
  function ReadBytes(s: bytes, n: nat): Parsed<bytes> {
    if |s| < n then Fail(UnexpectedEof) else Done(s[..n], s[n..])
  }

  lemma ReadsU8(x: u8, rest: bytes)
    ensures ReadU8([x] + rest) == Done(x, rest)
  {
  }

  lemma U16AtBytes(x: u16, rest: bytes)
    ensures U16At(U16Bytes(x) + rest) == x
    ensures (U16Bytes(x) + rest)[2..] == rest
  {
  }

  lemma ReadsU16(x: u16, rest: bytes)
    ensures ReadU16(U16Bytes(x) + rest) == Done(x, rest)
  {
    U16AtBytes(x, rest);
  }

  lemma U32AtBytes(x: u32, rest: bytes)
    ensures U32At(U32Bytes(x) + rest) == x
    ensures (U32Bytes(x) + rest)[4..] == rest
  {
    var lo, hi := x % 0x1_0000, x / 0x1_0000;
    assert U32Bytes(x) + rest == U16Bytes(lo) + (U16Bytes(hi) + rest);
    U16AtBytes(lo, U16Bytes(hi) + rest);
    U16AtBytes(hi, rest);
  }

  lemma ReadsU32(x: u32, rest: bytes)
    ensures ReadU32(U32Bytes(x) + rest) == Done(x, rest)
  {
    U32AtBytes(x, rest);
  }

  /** The four bytes at the head of `s` are those of the word they decode to. */
  lemma BytesOfU32At(s: bytes)
    requires |s| == 4
    ensures U32Bytes(U32At(s)) == s
  {
    var x: int, hi: int := U32At(s), U16At(s[2..]);
    assert x / 0x1_0000 == hi;
    BytesOfU16At(s[..2]);
    BytesOfU16At(s[2..]);
    assert s == s[..2] + s[2..];
  }

  lemma BytesOfU16At(s: bytes)
    requires |s| == 2
    ensures U16Bytes(U16At(s)) == s
  {
    assert U16At(s) / 0x100 == s[1];
  }

  lemma ReadsU64(x: u64, rest: bytes)
    ensures ReadU64(U64Bytes(x) + rest) == Done(x, rest)
  {
    var lo, hi := x % 0x1_0000_0000, x / 0x1_0000_0000;
    assert U64Bytes(x) + rest == U32Bytes(lo) + (U32Bytes(hi) + rest);
    U32AtBytes(lo, U32Bytes(hi) + rest);
    U32AtBytes(hi, rest);
    assert (U64Bytes(x) + rest)[8..] == rest;
  }

  lemma ReadsBytes(b: bytes, rest: bytes)
    ensures ReadBytes(b + rest, |b|) == Done(b, rest)
  {
  }

  lemma SliceOfTail(d: bytes, p: nat, a: nat, b: nat)
    requires a <= b && p + b <= |d|
    ensures d[p..][a..b] == d[p + a..p + b]
  {
  }

  /** A word depends on its own four bytes only. */
  lemma U32AtPrefix(s: bytes)
    requires |s| >= 4
    ensures U32At(s) == U32At(s[..4])
  {
  }

  // ----- regrouping of concatenations -----

  lemma Cat2(a: bytes, b: bytes, rest: bytes)
    ensures a + b + rest == a + (b + rest)
  {
  }

  lemma Cat3(a: bytes, b: bytes, c: bytes, rest: bytes)
    ensures a + b + c + rest == a + (b + (c + rest))
  {
  }

  lemma Cat4(a: bytes, b: bytes, c: bytes, d: bytes, rest: bytes)
    ensures a + b + c + d + rest == a + (b + (c + (d + rest)))
  {
  }

  lemma Cat5(a: bytes, b: bytes, c: bytes, d: bytes, e: bytes, rest: bytes)
    ensures a + b + c + d + e + rest == a + (b + (c + (d + (e + rest))))
  {
    Cat4(a, b, c, d, e + rest);
    Cat2(a + b + c + d, e, rest);
  }

  // ----- bits of a mask -----

  function Pow2(k: nat): (r: nat)
    ensures r > 0
  {
    if k == 0 then 1 else 2 * Pow2(k - 1)
  }

  /** `x & (1 << k) != 0` */
  predicate Bit(x: nat, k: nat) {
    if k == 0 then x % 2 == 1 else Bit(x / 2, k - 1)
  }

  /** `x | (1 << k)` when `v` holds, `x & !(1 << k)` when it does not. */
  function WithBit(x: nat, k: nat, v: bool): nat {
    if k == 0 then x / 2 * 2 + (if v then 1 else 0) else x % 2 + 2 * WithBit(x / 2, k - 1, v)
  }

  lemma {:induction false} ZeroBit(k: nat)
    ensures !Bit(0, k)
  {
    if k > 0 {
      ZeroBit(k - 1);
    }
  }

  lemma {:induction false} WithBitAt(x: nat, k: nat, v: bool, j: nat)
    ensures Bit(WithBit(x, k, v), j) == if j == k then v else Bit(x, j)
  {
    if k == 0 {
      assert WithBit(x, k, v) / 2 == x / 2;
    } else {
      assert WithBit(x, k, v) / 2 == WithBit(x / 2, k - 1, v);
      if j > 0 {
        WithBitAt(x / 2, k - 1, v, j - 1);
      }
    }
  }

  lemma {:induction false} WithBitBound(x: nat, k: nat, v: bool, n: nat)
    requires k < n && x < Pow2(n)
    ensures WithBit(x, k, v) < Pow2(n)
  {
    if k > 0 {
      WithBitBound(x / 2, k - 1, v, n - 1);
    }
  }

  lemma Pow2Nibble(k: nat)
    ensures Pow2(k + 4) == 16 * Pow2(k)
  {
    assert Pow2(k + 2) == 2 * Pow2(k + 1) == 4 * Pow2(k);
    assert Pow2(k + 4) == 2 * Pow2(k + 3) == 4 * Pow2(k + 2);
  }

  lemma Pow2Of32(k: nat)
    ensures Pow2(k + 32) == 0x1_0000_0000 * Pow2(k)
  {
    hide Pow2;
    Pow2Nibble(k);
    Pow2Nibble(k + 4);
    Pow2Nibble(k + 8);
    Pow2Nibble(k + 12);
    Pow2Nibble(k + 16);
    Pow2Nibble(k + 20);
    Pow2Nibble(k + 24);
    Pow2Nibble(k + 28);
  }

  lemma Pow2Words()
    ensures Pow2(32) == 0x1_0000_0000 && Pow2(64) == 0x1_0000_0000_0000_0000
  {
    assert Pow2(0) == 1;
    Pow2Of32(0);
    Pow2Of32(32);
  }

  // ===== exact round trips =====

  /** A reader that succeeds has consumed exactly what was written, and it returns what
      was written if and only if `ok` holds. */
  ghost predicate Exact<T>(r: Parsed<T>, x: T, rest: bytes, ok: bool) {
    (r.Done? ==> r.rest == rest) && (r == Done(x, rest) <==> ok)
  }

  lemma SplitEqual<T>(a: seq<T>, x: T, b: seq<T>, y: T)
    requires |a| == |b|
    ensures a + [x] == b + [y] <==> a == b && x == y
  {
    if a + [x] == b + [y] {
      assert a == (a + [x])[..|a|] == (b + [y])[..|b|] == b;
      assert x == (a + [x])[|a|] == (b + [y])[|b|] == y;
    }
  }
}
