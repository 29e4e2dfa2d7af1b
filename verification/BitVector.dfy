/** Growable bit sets: src/plasma/bit_vector.rs. */
module BitVector {
  import opened Prim

  predicate Get(bits: seq<u32>, bit: nat) {
    if bit / 32 >= |bits| then false else Prim.Bit(bits[bit / 32], bit % 32)
  }

  function Zeros(n: nat): (r: seq<u32>)
    ensures |r| == n && forall i :: 0 <= i < n ==> r[i] == 0
  {
    seq<u32>(n, _ => 0)
  }

  function WordWith(w: u32, k: nat, v: bool): u32
    requires k < 32
  {
    Pow2Words();
    WithBitBound(w, k, v, 32);
    WithBit(w, k, v)
  }

  class Vector {
    var bits: seq<u32>

    constructor ()
      ensures bits == []
    {
      bits := [];
    }

    /** The vector behaves as an unbounded array of bits, initially clear: setting
        one changes that one, wherever it lies, and no other. */
    method Set(bit: nat, value: bool)
      modifies this
      ensures forall b: nat :: Get(bits, b) == if b == bit then value else old(Get(bits, b))
      ensures |bits| == if bit / 32 < |old(bits)| then |old(bits)| else bit / 32 + 1
    {
      var w := bit / 32;
      if w >= |bits| {
        bits := bits + Zeros(w + 1 - |bits|);
      }
      ghost var grown := bits;
      bits := bits[w := WordWith(bits[w], bit % 32, value)];
      forall b: nat
        ensures Get(bits, b) == if b == bit then value else old(Get(bits, b))
      {
        ZeroBit(b % 32);
        assert Get(grown, b) == old(Get(bits, b));
        if b / 32 == w {
          WithBitAt(grown[w], bit % 32, value, b % 32);
        }
      }
    }
  }

  // ----- stream form -----

  function WordBytes(w: seq<u32>): bytes {
    if w == [] then [] else WordBytes(w[..|w| - 1]) + U32Bytes(w[|w| - 1])
  }

  function ReadWords(s: bytes, n: nat): Parsed<seq<u32>> {
    if n == 0 then Done([], s)
    else
      var (init, s1) :- ReadWords(s, n - 1);
      var (last, s2) :- ReadU32(s1);
      Done(init + [last], s2)
  }

  function Write(bits: seq<u32>): Result<bytes> {
    if |bits| >= 0x1_0000_0000 then Err(TooLarge) else Ok(U32Bytes(|bits|) + WordBytes(bits))
  }

  function Read(s: bytes): Parsed<seq<u32>> {
    var (count, s1) :- ReadU32(s);
    ReadWords(s1, count)
  }

  lemma {:induction false} ReadsWords(w: seq<u32>, rest: bytes)
    ensures ReadWords(WordBytes(w) + rest, |w|) == Done(w, rest)
  {
    hide U32Bytes, ReadU32;
    if w != [] {
      var init, last := w[..|w| - 1], w[|w| - 1];
      Cat2(WordBytes(init), U32Bytes(last), rest);
      ReadsWords(init, U32Bytes(last) + rest);
      ReadsU32(last, rest);
      assert init + [last] == w;
    } else {
      assert WordBytes(w) + rest == rest;
    }
  }

  lemma RoundTrip(bits: seq<u32>, rest: bytes)
    requires Write(bits).Ok?
    ensures Read(Write(bits).value + rest) == Done(bits, rest)
  {
    hide U32Bytes, ReadU32;
    Cat2(U32Bytes(|bits|), WordBytes(bits), rest);
    ReadsU32(|bits|, WordBytes(bits) + rest);
    ReadsWords(bits, rest);
  }
}
