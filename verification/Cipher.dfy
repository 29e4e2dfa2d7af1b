/** The block ciphers of src/plasma/file_crypt.rs: XXTEA over blocks of any length
    and the 32-round TEA-family cipher over two words. */
module Cipher {
  import opened Prim

  type Key = k: seq<u32> | |k| == 4 witness [0, 0, 0, 0]

  const M32 := 0x1_0000_0000
  const DELTA: u32 := 0x9E3779B9
  const TEA_SUM: u32 := 0xC6EF3720

  function WrappingAdd(a: u32, b: u32): u32 {
    if a + b < M32 then a + b else a + b - M32
  }

  function WrappingSub(a: u32, b: u32): u32 {
    if b <= a then a - b else a - b + M32
  }

  /** `sum` after `i` increments from zero. */
  function SumAfter(i: nat): u32 {
    if i == 0 then 0 else WrappingAdd(SumAfter(i - 1), DELTA)
  }

  lemma SumStep(i: nat)
    ensures SumAfter(0) == 0
    ensures WrappingAdd(SumAfter(i), DELTA) == SumAfter(i + 1)
    ensures WrappingSub(SumAfter(i + 1), DELTA) == SumAfter(i)
  {
  }

  /** The start value written out in the deciphering function is 32 deltas. */
  lemma TeaSum()
    ensures SumAfter(32) == TEA_SUM
  {
    hide SumAfter;
    SumIsProduct(32);
  }

  lemma {:induction false} SumTurns(i: nat) returns (k: nat)
    ensures i * DELTA == k * M32 + SumAfter(i) && k <= i
  {
    k := 0;
    if i > 0 {
      var k' := SumTurns(i - 1);
      k := if SumAfter(i - 1) + DELTA < M32 then k' else k' + 1;
    }
  }

  /** `wrapping_mul(q, DELTA)` is where `q` wrapping additions arrive. */
  lemma SumIsProduct(i: nat)
    ensures (i * DELTA) % M32 == SumAfter(i)
  {
    var k := SumTurns(i);
    var x: int := i * DELTA;
    assert x == (x / M32) * M32 + x % M32;
    assert (x / M32 - k) * M32 == SumAfter(i) - x % M32;
  }

  /** DELTA is odd, so `sum` first returns to zero after 2^32 rounds. */
  lemma SumNonZero(i: nat)
    requires 0 < i <= 58
    ensures SumAfter(i) > 0
  {
    var k := SumTurns(i);
  }

  // ===== XXTEA =====

  /** How a word with its two neighbours, the sum and a word of the key are mixed. */
  function Mix(y: bv32, z: bv32, sum: bv32, k: bv32): bv32 {
    (((z >> 5) ^ (y << 2)) + ((y >> 3) ^ (z << 4))) ^ ((sum ^ y) + (k ^ z))
  }

  /** The word of the key for word `p` of the block. */
  function KeyIndex(sum: bv32, p: nat): (i: nat)
    ensures i < 4
  {
    ((p % 4) as bv2 ^ ((sum >> 2) & 3) as bv2) as int
  }

  function Mx(y: u32, z: u32, sum: u32, p: nat, key: Key): u32 {
    Mix(y as bv32, z as bv32, sum as bv32, key[KeyIndex(sum as bv32, p)] as bv32) as int
  }

  function Next(n: nat, p: nat): nat
    requires p < n
  {
    if p + 1 == n then 0 else p + 1
  }

  function Prev(n: nat, p: nat): nat
    requires p < n
  {
    if p == 0 then n - 1 else p - 1
  }

  function MxAt(b: seq<u32>, sum: u32, p: nat, key: Key): u32
    requires p < |b|
  {
    Mx(b[Next(|b|, p)], b[Prev(|b|, p)], sum, p, key)
  }

  function EncStep(b: seq<u32>, sum: u32, p: nat, key: Key): seq<u32>
    requires p < |b|
  {
    b[p := WrappingAdd(b[p], MxAt(b, sum, p, key))]
  }

  function DecStep(b: seq<u32>, sum: u32, p: nat, key: Key): seq<u32>
    requires p < |b|
  {
    b[p := WrappingSub(b[p], MxAt(b, sum, p, key))]
  }

  /** Words `p`, `p + 1`, ... of one enciphering round. */
  function EncRound(b: seq<u32>, sum: u32, p: nat, key: Key): (r: seq<u32>)
    requires p <= |b|
    ensures |r| == |b|
    decreases |b| - p
  {
    if p == |b| then b else EncRound(EncStep(b, sum, p, key), sum, p + 1, key)
  }

  /** Words `p - 1`, `p - 2`, ..., `0` of one deciphering round. */
  function DecRound(b: seq<u32>, sum: u32, p: nat, key: Key): (r: seq<u32>)
    requires p <= |b|
    ensures |r| == |b|
    decreases p
  {
    if p == 0 then b else DecRound(DecStep(b, sum, p - 1, key), sum, p - 1, key)
  }

  /** Rounds `1 .. q` of enciphering. */
  function EncRounds(b: seq<u32>, q: nat, key: Key): (r: seq<u32>)
    ensures |r| == |b|
  {
    if q == 0 then b else EncRound(EncRounds(b, q - 1, key), SumAfter(q), 0, key)
  }

  /** Rounds `q .. 1` of deciphering. */
  function DecRounds(b: seq<u32>, q: nat, key: Key): (r: seq<u32>)
    ensures |r| == |b|
    decreases q
  {
    if q == 0 then b else DecRounds(DecRound(b, SumAfter(q), |b|, key), q - 1, key)
  }

  /** The number of rounds for a block of `n` words; `n as u32` truncates, and a
      length that truncates to zero makes the source divide by zero. */
  function Rounds(n: nat): (q: nat)
    requires n % M32 != 0
    ensures 6 <= q <= 58
  {
    6 + 52 / (n % M32)
  }

  function XxteaEncipher(b: seq<u32>, key: Key): (r: seq<u32>)
    requires |b| % M32 != 0
    ensures |r| == |b|
  {
    EncRounds(b, Rounds(|b|), key)
  }

  function XxteaDecipher(b: seq<u32>, key: Key): (r: seq<u32>)
    requires |b| % M32 != 0
    ensures |r| == |b|
  {
    DecRounds(b, Rounds(|b|), key)
  }

  /** A word's neighbours are other words when there are at least two, so the
      deciphering step sees the same mixing value. */
  lemma StepInverse(b: seq<u32>, sum: u32, p: nat, key: Key)
    requires p < |b| && 2 <= |b|
    ensures DecStep(EncStep(b, sum, p, key), sum, p, key) == b
    ensures EncStep(DecStep(b, sum, p, key), sum, p, key) == b
  {
    hide Mx;
  }

  lemma {:induction false} RoundInverse(b: seq<u32>, sum: u32, p: nat, key: Key)
    requires p <= |b| && 2 <= |b|
    ensures DecRound(EncRound(b, sum, p, key), sum, |b|, key) == DecRound(b, sum, p, key)
    decreases |b| - p
  {
    hide Mx;
    if p < |b| {
      RoundInverse(EncStep(b, sum, p, key), sum, p + 1, key);
      StepInverse(b, sum, p, key);
    }
  }

  lemma {:induction false} RoundsInverse(b: seq<u32>, q: nat, key: Key)
    requires 2 <= |b|
    ensures DecRounds(EncRounds(b, q, key), q, key) == b
  {
    hide Mx;
    if q > 0 {
      RoundInverse(EncRounds(b, q - 1, key), SumAfter(q), 0, key);
      RoundsInverse(b, q - 1, key);
    }
  }

  /** Deciphering undoes enciphering for every key and every block of two or more
      words whose length does not truncate to zero. */
  lemma XxteaInverse(b: seq<u32>, key: Key)
    requires 2 <= |b| && |b| % M32 != 0
    ensures XxteaDecipher(XxteaEncipher(b, key), key) == b
  {
    RoundsInverse(b, Rounds(|b|), key);
  }

  lemma {:induction false} RoundInverse2(b: seq<u32>, sum: u32, p: nat, key: Key)
    requires p <= |b| && 2 <= |b|
    ensures EncRound(DecRound(b, sum, p, key), sum, 0, key) == EncRound(b, sum, p, key)
    decreases p
  {
    hide Mx;
    if p > 0 {
      var b' := DecStep(b, sum, p - 1, key);
      RoundInverse2(b', sum, p - 1, key);
      StepInverse(b, sum, p - 1, key);
    }
  }

  lemma {:induction false} RoundsInverse2(b: seq<u32>, q: nat, key: Key)
    requires 2 <= |b|
    ensures EncRounds(DecRounds(b, q, key), q, key) == b
    decreases q
  {
    hide Mx;
    if q > 0 {
      RoundsInverse2(DecRound(b, SumAfter(q), |b|, key), q - 1, key);
      RoundInverse2(b, SumAfter(q), |b|, key);
    }
  }

  /** Enciphering is onto as well, so the pair is a permutation of the blocks. */
  lemma XxteaInverse2(b: seq<u32>, key: Key)
    requires 2 <= |b| && |b| % M32 != 0
    ensures XxteaEncipher(XxteaDecipher(b, key), key) == b
  {
    RoundsInverse2(b, Rounds(|b|), key);
  }

  method XxteaEncipherInPlace(block: array<u32>, key: Key)
    requires block.Length >= 2 && block.Length % M32 != 0
    modifies block
    ensures block[..] == XxteaEncipher(old(block[..]), key)
  {
    hide Mx;
    var n := block.Length;
    var z := block[n - 1];
    var q := 6 + 52 / (n % M32);
    var sum: u32 := 0;
    ghost var done := 0;
    ghost var b0 := block[..];
    while q > 0
      invariant 0 <= q && done + q == Rounds(n) && sum == SumAfter(done)
      invariant block[..] == EncRounds(b0, done, key)
      invariant z == block[n - 1]
    {
      sum := WrappingAdd(sum, DELTA);
      ghost var target := EncRound(block[..], sum, 0, key);
      var p := 0;
      while p < n - 1
        invariant 0 <= p <= n - 1
        invariant z == block[Prev(n, p)]
        invariant EncRound(block[..], sum, p, key) == target
      {
        var y := block[p + 1];
        ghost var before := block[..];
        block[p] := WrappingAdd(block[p], Mx(y, z, sum, p, key));
        assert block[..] == EncStep(before, sum, p, key);
        z := block[p];
        p := p + 1;
      }
      var y := block[0];
      ghost var before := block[..];
      block[n - 1] := WrappingAdd(block[n - 1], Mx(y, z, sum, p, key));
      assert block[..] == EncStep(before, sum, p, key);
      z := block[n - 1];
      done := done + 1;
      q := q - 1;
    }
  }

  /** The loop is the source's `while sum > 0`; it takes exactly `Rounds(n)` turns. */
  method XxteaDecipherInPlace(block: array<u32>, key: Key)
    requires block.Length >= 2 && block.Length % M32 != 0
    modifies block
    ensures block[..] == XxteaDecipher(old(block[..]), key)
  {
    hide Mx;
    var n := block.Length;
    var y := block[0];
    var q := 6 + 52 / (n % M32);
    var sum: u32 := (q * DELTA) % M32;
    ghost var left := q;
    ghost var b0 := block[..];
    SumIsProduct(q);
    while sum > 0
      invariant 0 <= left <= 58 && sum == SumAfter(left)
      invariant DecRounds(block[..], left, key) == XxteaDecipher(b0, key)
      invariant y == block[0]
      decreases left
    {
      ghost var target := DecRound(block[..], sum, n, key);
      var p := n - 1;
      while p > 0
        invariant 0 <= p <= n - 1
        invariant y == block[Next(n, p)]
        invariant DecRound(block[..], sum, p + 1, key) == target
      {
        var z := block[p - 1];
        ghost var before := block[..];
        block[p] := WrappingSub(block[p], Mx(y, z, sum, p, key));
        assert block[..] == DecStep(before, sum, p, key);
        y := block[p];
        p := p - 1;
      }
      var z := block[n - 1];
      ghost var before := block[..];
      block[0] := WrappingSub(block[0], Mx(y, z, sum, p, key));
      assert block[..] == DecStep(before, sum, p, key);
      y := block[0];
      left := left - 1;
      sum := WrappingSub(sum, DELTA);
      if left > 0 {
        SumNonZero(left);
      }
    }
    if left > 0 {
      SumNonZero(left);
    }
  }

  // ===== The two-word cipher of TEA files =====

  datatype Pair = Pair(y: u32, z: u32)

  /** `((v << 4) ^ (v >> 5)) + v  ^  sum + key[i]`; the operators bind as in the
      source, so the exclusive-or is outermost. */
  function TeaBits(v: bv32, sum: bv32, k: bv32): bv32 {
    (((v << 4) ^ (v >> 5)) + v) ^ (sum + k)
  }

  function TeaMix(v: u32, sum: u32, k: u32): u32 {
    TeaBits(v as bv32, sum as bv32, k as bv32) as int
  }

  function LowIndex(sum: u32): (i: nat)
    ensures i < 4
  {
    LowBits(sum as bv32) as int
  }

  function HighIndex(sum: u32): (i: nat)
    ensures i < 4
  {
    HighBits(sum as bv32) as int
  }

  function LowBits(sum: bv32): bv2 {
    (sum & 3) as bv2
  }

  function HighBits(sum: bv32): bv2 {
    ((sum >> 11) & 3) as bv2
  }

  function TeaY(v: u32, sum: u32, key: Key): u32 {
    TeaMix(v, sum, key[LowIndex(sum)])
  }

  function TeaZ(v: u32, sum: u32, key: Key): u32 {
    TeaMix(v, sum, key[HighIndex(sum)])
  }

  /** Round `i` of enciphering takes `sum` from `SumAfter(i)` to `SumAfter(i + 1)`. */
  function TeaEncRound(b: Pair, i: nat, key: Key): Pair {
    var y := WrappingAdd(b.y, TeaY(b.z, SumAfter(i), key));
    Pair(y, WrappingAdd(b.z, TeaZ(y, SumAfter(i + 1), key)))
  }

  function TeaDecRound(b: Pair, i: nat, key: Key): Pair {
    var z := WrappingSub(b.z, TeaZ(b.y, SumAfter(i + 1), key));
    Pair(WrappingSub(b.y, TeaY(z, SumAfter(i), key)), z)
  }

  function TeaEncRounds(b: Pair, n: nat, key: Key): Pair {
    if n == 0 then b else TeaEncRound(TeaEncRounds(b, n - 1, key), n - 1, key)
  }

  /** The first `n` deciphering rounds: rounds 31, 30, ... of enciphering, undone. */
  function TeaDecRounds(b: Pair, n: nat, key: Key): Pair
    requires n <= 32
  {
    if n == 0 then b else TeaDecRound(TeaDecRounds(b, n - 1, key), 32 - n, key)
  }

  function TeaEncipher(b: Pair, key: Key): Pair {
    TeaEncRounds(b, 32, key)
  }

  function TeaDecipher(b: Pair, key: Key): Pair {
    TeaDecRounds(b, 32, key)
  }

  lemma {:induction false} TeaRoundsInverse(b: Pair, n: nat, key: Key)
    requires n <= 32
    ensures TeaDecRounds(TeaEncipher(b, key), n, key) == TeaEncRounds(b, 32 - n, key)
  {
    hide TeaMix, LowIndex, HighIndex, SumAfter;
    if n > 0 {
      TeaRoundsInverse(b, n - 1, key);
    }
  }

  lemma TeaInverse(b: Pair, key: Key)
    ensures TeaDecipher(TeaEncipher(b, key), key) == b
    ensures TEA_SUM == SumAfter(32)
  {
    hide TeaMix, LowIndex, HighIndex, SumAfter;
    TeaRoundsInverse(b, 32, key);
    TeaSum();
  }

  method TeaEncipherInPlace(block: array<u32>, key: Key)
    requires block.Length == 2
    modifies block
    ensures Pair(block[0], block[1]) == TeaEncipher(Pair(old(block[0]), old(block[1])), key)
  {
    hide TeaMix, LowIndex, HighIndex, SumAfter;
    var y, z := block[0], block[1];
    var sum: u32 := 0;
    SumStep(0);
    for i := 0 to 32
      invariant sum == SumAfter(i)
      invariant Pair(y, z) == TeaEncRounds(Pair(old(block[0]), old(block[1])), i, key)
    {
      y := WrappingAdd(y, TeaMix(z, sum, key[LowIndex(sum)]));
      SumStep(i);
      sum := WrappingAdd(sum, DELTA);
      z := WrappingAdd(z, TeaMix(y, sum, key[HighIndex(sum)]));
    }
    block[0] := y;
    block[1] := z;
  }

  method TeaDecipherInPlace(block: array<u32>, key: Key)
    requires block.Length == 2
    modifies block
    ensures Pair(block[0], block[1]) == TeaDecipher(Pair(old(block[0]), old(block[1])), key)
  {
    hide TeaMix, LowIndex, HighIndex, SumAfter;
    var y, z := block[0], block[1];
    var sum := TEA_SUM;
    TeaSum();
    for i := 0 to 32
      invariant sum == SumAfter(32 - i)
      invariant Pair(y, z) == TeaDecRounds(Pair(old(block[0]), old(block[1])), i, key)
    {
      z := WrappingSub(z, TeaMix(y, sum, key[HighIndex(sum)]));
      SumStep(31 - i);
      sum := WrappingSub(sum, DELTA);
      y := WrappingSub(y, TeaMix(z, sum, key[LowIndex(sum)]));
    }
    block[0] := y;
    block[1] := z;
  }
}
