/** Vault nodes: the field mask, setters and codec of src/vault/vault_node.rs, with
    `update_node` and `node_match` of src/vault/db_memory.rs.  The 32 optional fields
    are numbered as their bits are; each has a fixed type. */
module VaultNode {
  import opened Prim
  import opened Text
  import SafeString

  datatype Kind = WordKind | IntKind | TextKind | UuidKind | BlobKind

  /** UUIDs are opaque sixteen-byte patterns. */
  datatype Value = Word(w: u32) | Int(i: i32) | Text(s: string) | Uuid(u: bytes) | Blob(b: bytes)

  const COUNT := 32

  const NODE_ID := 0
  const CREATE_TIME := 1
  const MODIFY_TIME := 2
  const CREATE_AGE_NAME := 3
  const CREATE_AGE_UUID := 4
  const CREATOR_UUID := 5
  const CREATOR_ID := 6
  const NODE_TYPE := 7
  const INT32_1 := 8
  const INT32_2 := 9
  const INT32_3 := 10
  const INT32_4 := 11
  const UINT32_1 := 12
  const UINT32_2 := 13
  const UINT32_3 := 14
  const UINT32_4 := 15
  const UUID_1 := 16
  const UUID_2 := 17
  const UUID_4 := 19
  const STRING64_1 := 20
  const STRING64_2 := 21
  const STRING64_3 := 22
  const STRING64_4 := 23
  const ISTRING64_1 := 26
  const ISTRING64_2 := 27
  const TEXT_1 := 28
  const TEXT_2 := 29
  const BLOB_1 := 30

  function KindOf(k: nat): Kind {
    if k == CREATE_AGE_NAME then TextKind
    else if k == CREATE_AGE_UUID || k == CREATOR_UUID then UuidKind
    else if k <= CREATOR_ID then WordKind
    else if k <= INT32_4 then IntKind
    else if k <= UINT32_4 then WordKind
    else if k <= UUID_4 then UuidKind
    else if k <= TEXT_2 then TextKind
    else BlobKind
  }

  const NIL_UUID: bytes := [0, 0, 0, 0, 0, 0, 0, 0, 0, 0, 0, 0, 0, 0, 0, 0]

  function DefaultOf(kind: Kind): Value {
    match kind
    case WordKind => Word(0)
    case IntKind => Int(0)
    case TextKind => Text("")
    case UuidKind => Uuid(NIL_UUID)
    case BlobKind => Blob([])
  }

  predicate HasKind(v: Value, kind: Kind) {
    match kind
    case WordKind => v.Word?
    case IntKind => v.Int?
    case TextKind => v.Text?
    case UuidKind => v.Uuid? && |v.u| == 16
    case BlobKind => v.Blob?
  }

  datatype Node = Node(fields: u64, values: seq<Value>)

  predicate Formed(n: Node) {
    |n.values| == COUNT && forall k :: 0 <= k < COUNT ==> HasKind(n.values[k], KindOf(k))
  }

  predicate Has(n: Node, k: nat) {
    Bit(n.fields, k)
  }

  predicate CleanAt(n: Node, k: nat)
    requires k < |n.values|
  {
    Has(n, k) || n.values[k] == DefaultOf(KindOf(k))
  }

  /** A field whose bit is not set holds its default. */
  predicate Clean(n: Node): (r: bool)
    ensures r ==> Formed(n)
  {
    Formed(n) && forall k :: 0 <= k < COUNT ==> CleanAt(n, k)
  }

  function Empty(): (n: Node)
    ensures Clean(n)
  {
    Node(0, seq(COUNT, k requires 0 <= k < COUNT => DefaultOf(KindOf(k))))
  }

  // ===== setters =====

  /** Setting a bit of a mask stays within its 64 bits. */
  lemma MaskBound(x: u64, k: nat)
    requires k < COUNT
    ensures WithBit(x, k, true) < 0x1_0000_0000_0000_0000
  {
    hide WithBit;
    Pow2Words();
    WithBitBound(x, k, true, 64);
  }

  /** Any of the 32 setters: the mask rule is kept. */
  function Set(n: Node, k: nat, v: Value): (r: Node)
    requires Formed(n) && k < COUNT && HasKind(v, KindOf(k))
    ensures Formed(r) && r.values == n.values[k := v]
    ensures Clean(n) ==> Clean(r)
  {
    MaskBound(n.fields, k);
    MaskClean(n, k, v);
    Node(WithBit(n.fields, k, true), n.values[k := v])
  }

  lemma MaskClean(n: Node, k: nat, v: Value)
    requires Formed(n) && k < COUNT && HasKind(v, KindOf(k))
    requires WithBit(n.fields, k, true) < 0x1_0000_0000_0000_0000
    ensures Clean(n) ==> Clean(Node(WithBit(n.fields, k, true), n.values[k := v]))
  {
    hide WithBit, Bit;
    var r := Node(WithBit(n.fields, k, true), n.values[k := v]);
    if Clean(n) {
      forall j | 0 <= j < COUNT
        ensures CleanAt(r, j)
      {
        assert CleanAt(n, j);
        WithBitAt(n.fields, k, true, j);
      }
    }
  }

  lemma SetHas(n: Node, k: nat, v: Value, j: nat)
    requires Formed(n) && k < COUNT && HasKind(v, KindOf(k))
    ensures Has(Set(n, k, v), j) == (j == k || Has(n, j))
  {
    hide WithBit, Bit;
    WithBitAt(n.fields, k, true, j);
  }

  /** A node under construction, as the source's setters change it. */
  class Record {
    var fields: u64
    var values: seq<Value>

    ghost predicate Valid()
      reads this
    {
      Clean(Node(fields, values))
    }

    constructor (n: Node)
      requires Clean(n)
      ensures Valid() && fields == n.fields && values == n.values
    {
      fields := n.fields;
      values := n.values;
    }

    /** Any of the 32 setters. */
    method SetField(k: nat, v: Value)
      requires Valid() && k < COUNT && HasKind(v, KindOf(k))
      modifies this
      ensures Valid() && Node(fields, values) == old(Set(Node(fields, values), k, v))
    {
      hide Clean;
      MaskBound(fields, k);
      MaskClean(Node(fields, values), k, v);
      fields := WithBit(fields, k, true);
      values := values[k := v];
    }
  }

  // ===== the node as a partial map =====

  function AsMap(n: Node): (m: map<nat, Value>)
    requires Formed(n)
  {
    map k: nat | 0 <= k < COUNT && Has(n, k) :: n.values[k]
  }

  /** A setter adds its field to the map, or replaces it. */
  lemma SetAsMap(n: Node, k: nat, v: Value)
    requires Formed(n) && k < COUNT && HasKind(v, KindOf(k))
    ensures AsMap(Set(n, k, v)) == AsMap(n)[k := v]
  {
    hide Set, Has, HasKind, KindOf;
    forall j | 0 <= j < COUNT
      ensures Has(Set(n, k, v), j) == (j == k || Has(n, j))
    {
      SetHas(n, k, v, j);
    }
  }

  function High(n: Node): nat {
    n.fields / 0x1_0000_0000
  }

  lemma {:induction false} SameBits(x: nat, y: nat, n: nat)
    requires x / Pow2(n) == y / Pow2(n) && forall k :: 0 <= k < n ==> Bit(x, k) == Bit(y, k)
    ensures x == y
    decreases n
  {
    if n > 0 {
      forall k | 0 <= k < n - 1
        ensures Bit(x / 2, k) == Bit(y / 2, k)
      {
        assert Bit(x, k + 1) == Bit(y, k + 1);
      }
      DivTwice(x, n);
      DivTwice(y, n);
      SameBits(x / 2, y / 2, n - 1);
      assert Bit(x, 0) == Bit(y, 0);
    }
  }

  lemma DivTwice(x: nat, n: nat)
    requires n > 0
    ensures x / Pow2(n) == x / 2 / Pow2(n - 1)
  {
    var p := Pow2(n - 1);
    var q, r := x / 2 / p, x / 2 % p;
    assert x / 2 == q * p + r;
    assert x == q * (2 * p) + (2 * r + x % 2);
    QuotientIs(x, 2 * p, q, 2 * r + x % 2);
  }

  lemma QuotientIs(x: nat, d: nat, q: nat, r: nat)
    requires d > 0 && x == q * d + r && r < d
    ensures x / d == q
  {
    if x / d != q {
      MultipleBound(q - x / d, d);
      assert false;
    }
  }

  lemma MultipleBound(e: int, d: nat)
    requires e != 0
    ensures e * d <= 0 - d || e * d >= d
  {
    if e > 0 {
      MultipleGrows(e, d);
    } else {
      MultipleGrows(0 - e, d);
      assert e * d == 0 - (0 - e) * d;
    }
  }

  lemma {:induction false} MultipleGrows(e: nat, d: nat)
    requires e > 0
    ensures e * d >= d
  {
    if e > 1 {
      MultipleGrows(e - 1, d);
      assert e * d == (e - 1) * d + d;
    }
  }

  /** A node that keeps the mask rule is its map together with the bits that no field
      has. */
  lemma Determined(a: Node, b: Node)
    requires Clean(a) && Clean(b) && AsMap(a) == AsMap(b) && High(a) == High(b)
    ensures a == b
  {
    hide Bit;
    forall k | 0 <= k < COUNT
      ensures Bit(a.fields, k) == Bit(b.fields, k) && a.values[k] == b.values[k]
    {
      assert CleanAt(a, k) && CleanAt(b, k);
      assert k in AsMap(a) <==> Has(a, k);
      assert k in AsMap(b) <==> Has(b, k);
      if Has(a, k) {
        assert AsMap(a)[k] == AsMap(b)[k];
      }
    }
    Pow2Words();
    SameBits(a.fields, b.fields, COUNT);
  }

  // ===== nodes made by setters =====

  predicate Settable(m: map<nat, Value>) {
    forall k :: k in m ==> k < COUNT && HasKind(m[k], KindOf(k))
  }

  /** A new node on which the setters of the first `k` fields that `m` has were called. */
  function BuiltTo(m: map<nat, Value>, k: nat): (n: Node)
    requires Settable(m) && k <= COUNT
    ensures Clean(n)
  {
    if k == 0 then Empty()
    else
      var n := BuiltTo(m, k - 1);
      if k - 1 in m then Set(n, k - 1, m[k - 1]) else n
  }

  lemma {:induction false} BuiltAt(m: map<nat, Value>, k: nat, j: nat)
    requires Settable(m) && k <= COUNT && j < COUNT
    ensures var n := BuiltTo(m, k);
            && (Has(n, j) <==> j < k && j in m)
            && n.values[j] == if j < k && j in m then m[j] else DefaultOf(KindOf(j))
  {
    hide Set, Has, Clean, HasKind, KindOf, DefaultOf;
    if k == 0 {
      EmptyHas(j);
    } else {
      BuiltAt(m, k - 1, j);
      if k - 1 in m {
        SetHas(BuiltTo(m, k - 1), k - 1, m[k - 1], j);
      }
    }
  }

  lemma EmptyHas(k: nat)
    ensures !Has(Empty(), k)
    ensures k < COUNT ==> Empty().values[k] == DefaultOf(KindOf(k))
  {
    ZeroBit(k);
  }

  function Built(m: map<nat, Value>): (n: Node)
    requires Settable(m)
    ensures Clean(n)
    ensures forall k :: 0 <= k < COUNT ==> (Has(n, k) <==> k in m)
    ensures forall k :: 0 <= k < COUNT ==> n.values[k] == if k in m then m[k] else DefaultOf(KindOf(k))
  {
    assert (forall k :: 0 <= k < COUNT ==> (Has(BuiltTo(m, COUNT), k) <==> k in m)) &&
        (forall k :: 0 <= k < COUNT ==>
           BuiltTo(m, COUNT).values[k] == if k in m then m[k] else DefaultOf(KindOf(k))) by {
      forall k | 0 <= k < COUNT
        ensures Has(BuiltTo(m, COUNT), k) <==> k in m
        ensures BuiltTo(m, COUNT).values[k] == if k in m then m[k] else DefaultOf(KindOf(k))
      {
        BuiltAt(m, COUNT, k);
      }
    }
    BuiltTo(m, COUNT)
  }

  lemma {:induction false} BuiltHigh(m: map<nat, Value>, k: nat)
    requires Settable(m) && k <= COUNT
    ensures High(BuiltTo(m, k)) == 0
  {
    hide Has, WithBit;
    if k > 0 {
      BuiltHigh(m, k - 1);
      Pow2Words();
      WithBitHigh(BuiltTo(m, k - 1).fields, k - 1, COUNT);
    }
  }

  /** The order in which setters are called does not matter, except that of two calls
      of one setter the later one counts. */
  lemma SetBuilt(m: map<nat, Value>, k: nat, v: Value)
    requires Settable(m) && k < COUNT && HasKind(v, KindOf(k))
    ensures Set(Built(m), k, v) == Built(m[k := v])
  {
    hide Set, Has, Clean, HasKind, KindOf, DefaultOf, BuiltTo;
    var a, b := Set(Built(m), k, v), Built(m[k := v]);
    forall j | 0 <= j < COUNT
      ensures Has(a, j) == Has(b, j) && a.values[j] == b.values[j]
    {
      SetHas(Built(m), k, v, j);
    }
    assert AsMap(a) == AsMap(b);
    BuiltHigh(m, COUNT);
    BuiltHigh(m[k := v], COUNT);
    SetHigh(Built(m), k, v);
    Determined(a, b);
  }

  lemma SetHigh(n: Node, k: nat, v: Value)
    requires Formed(n) && k < COUNT && HasKind(v, KindOf(k))
    ensures High(Set(n, k, v)) == High(n)
  {
    hide WithBit;
    Pow2Words();
    WithBitHigh(n.fields, k, COUNT);
  }

  // ===== update_node =====

  /** The first `k` fields are overridden, apart from the node id. */
  function UpdatedTo(old': Node, new': Node, k: nat): (r: Node)
    requires Formed(old') && Formed(new') && k <= COUNT
    ensures Formed(r)
  {
    if k == 0 then old'
    else
      var r := UpdatedTo(old', new', k - 1);
      if 1 < k && Has(new', k - 1) then Set(r, k - 1, new'.values[k - 1]) else r
  }

  function Updated(old': Node, new': Node): Node
    requires Formed(old') && Formed(new')
  {
    UpdatedTo(old', new', |old'.values|)
  }

  method ApplyUpdate(old': Node, new': Node) returns (r: Node)
    requires Clean(old') && Formed(new')
    ensures r == Updated(old', new')
  {
    hide Set, Has;
    var node := new Record(old');
    assert UpdatedTo(old', new', 1) == UpdatedTo(old', new', 0) == old';
    for k := 1 to COUNT
      invariant node.Valid() && Node(node.fields, node.values) == UpdatedTo(old', new', k)
    {
      if Has(new', k) {
        node.SetField(k, new'.values[k]);
      }
    }
    return Node(node.fields, node.values);
  }

  /** Each field after the first `k` updates. */
  lemma {:induction false} UpdatedAt(old': Node, new': Node, k: nat, j: nat)
    requires Formed(old') && Formed(new') && k <= COUNT && j < COUNT
    ensures var r := UpdatedTo(old', new', k);
            var over := 0 < j < k && Has(new', j);
            && (Has(r, j) <==> Has(old', j) || over)
            && r.values[j] == if over then new'.values[j] else old'.values[j]
  {
    hide Set, Has;
    if k > 0 {
      UpdatedAt(old', new', k - 1, j);
      if 1 < k && Has(new', k - 1) {
        SetHas(UpdatedTo(old', new', k - 1), k - 1, new'.values[k - 1], j);
      }
    }
  }

  lemma {:induction false} UpdatedHigh(old': Node, new': Node, k: nat)
    requires Formed(old') && Formed(new') && k <= COUNT
    ensures High(UpdatedTo(old', new', k)) == High(old')
  {
    hide Has, WithBit;
    if k > 0 {
      UpdatedHigh(old', new', k - 1);
      Pow2Words();
      WithBitHigh(UpdatedTo(old', new', k - 1).fields, k - 1, COUNT);
    }
  }

  lemma {:induction false} WithBitHigh(x: nat, k: nat, n: nat)
    requires k < n
    ensures WithBit(x, k, true) / Pow2(n) == x / Pow2(n)
    decreases n
  {
    var y := WithBit(x, k, true);
    DivTwice(x, n);
    DivTwice(y, n);
    if k == 0 {
      assert y / 2 == x / 2;
    } else {
      assert y / 2 == WithBit(x / 2, k - 1, true);
      WithBitHigh(x / 2, k - 1, n - 1);
    }
  }

  /** An update is the right-biased override of the maps, except that it keeps the node
      id; bits without a field stay the old node's. */
  lemma UpdateOverrides(old': Node, new': Node)
    requires Clean(old') && Clean(new')
    ensures var r := Updated(old', new');
            Clean(r) && AsMap(r) == AsMap(old') + (AsMap(new') - {NODE_ID}) && High(r) == High(old')
  {
    hide Has, UpdatedTo;
    var r := Updated(old', new');
    forall j | 0 <= j < COUNT
      ensures CleanAt(r, j)
      ensures Has(r, j) <==> Has(old', j) || (0 < j && Has(new', j))
      ensures r.values[j] == if 0 < j && Has(new', j) then new'.values[j] else old'.values[j]
    {
      UpdatedAt(old', new', COUNT, j);
      assert CleanAt(old', j);
    }
    UpdatedHigh(old', new', COUNT);
  }

  /** Updating twice is updating once with the combined update. */
  lemma UpdateAssociates(a: Node, b: Node, c: Node)
    requires Clean(a) && Clean(b) && Clean(c)
    ensures Updated(Updated(a, b), c) == Updated(a, Updated(b, c))
  {
    hide Updated, AsMap, CleanAt, HasKind, KindOf, High;
    UpdateOverrides(a, b);
    UpdateOverrides(b, c);
    UpdateOverrides(Updated(a, b), c);
    UpdateOverrides(a, Updated(b, c));
    var ma, mb, mc := AsMap(a), AsMap(b), AsMap(c);
    assert ma + (mb - {NODE_ID}) + (mc - {NODE_ID}) == ma + ((mb + (mc - {NODE_ID})) - {NODE_ID});
    Determined(Updated(Updated(a, b), c), Updated(a, Updated(b, c)));
  }

  // ===== node_match =====

  /** Two fields hold alike values; `fold` decides for the two case-insensitive ones. */
  predicate Alike(fold: string -> string, k: nat, a: Value, b: Value) {
    if (k == ISTRING64_1 || k == ISTRING64_2) && a.Text? && b.Text? then fold(a.s) == fold(b.s) else a == b
  }

  predicate MatchesAt(fold: string -> string, template: Node, node: Node, k: nat)
    requires Formed(template) && Formed(node) && k < COUNT
  {
    Has(template, k) ==> Alike(fold, k, node.values[k], template.values[k])
  }

  predicate Matches(fold: string -> string, template: Node, node: Node)
    requires Formed(template) && Formed(node)
  {
    forall k :: 1 <= k < COUNT ==> MatchesAt(fold, template, node, k)
  }

  method NodeMatch(fold: string -> string, template: Node, node: Node) returns (r: bool)
    requires Formed(template) && Formed(node)
    ensures r <==> Matches(fold, template, node)
  {
    hide Has, Alike;
    for k := 1 to COUNT
      invariant forall j :: 1 <= j < k ==> MatchesAt(fold, template, node, j)
    {
      if Has(template, k) && !Alike(fold, k, node.values[k], template.values[k]) {
        assert !MatchesAt(fold, template, node, k);
        return false;
      }
    }
    return true;
  }

  /** Of the fields that a template asks for, another value still matches only in
      fields 26 and 27, the case-insensitive texts, and there only in another case. */
  lemma MatchInAnyCase(fold: string -> string, template: Node, node: Node, k: nat, v: Value)
    requires Formed(template) && Formed(node) && 1 <= k < COUNT && HasKind(v, KindOf(k))
    requires Has(template, k) && Matches(fold, template, node)
    ensures Matches(fold, template, Node(node.fields, node.values[k := v])) <==>
            if k == 26 || k == 27 then v.Text? && node.values[k].Text? && fold(v.s) == fold(node.values[k].s)
            else v == node.values[k]
  {
    hide Has;
    var other := Node(node.fields, node.values[k := v]);
    assert MatchesAt(fold, template, node, k);
    assert Alike(fold, k, node.values[k], template.values[k]) && HasKind(node.values[k], KindOf(k));
    forall j | 1 <= j < COUNT && j != k
      ensures MatchesAt(fold, template, other, j)
    {
      assert MatchesAt(fold, template, node, j);
    }
    assert Matches(fold, template, other) <==> MatchesAt(fold, template, other, k);
  }

  /** A node matches exactly when updating it with the template would change no value,
      case aside. */
  lemma MatchIffUnchanged(fold: string -> string, template: Node, node: Node)
    requires Clean(template) && Clean(node)
    ensures Matches(fold, template, node) <==>
            forall k :: 0 <= k < COUNT ==> Alike(fold, k, node.values[k], Updated(node, template).values[k])
  {
    hide Has, UpdatedTo;
    forall k | 0 <= k < COUNT
      ensures Alike(fold, k, node.values[k], Updated(node, template).values[k]) <==>
              k == 0 || MatchesAt(fold, template, node, k)
    {
      UpdatedAt(node, template, COUNT, k);
    }
  }

  /** An updated node matches its update. */
  lemma MatchAfterUpdate(fold: string -> string, node: Node, update: Node)
    requires Clean(node) && Clean(update)
    ensures Matches(fold, update, Updated(node, update))
  {
    hide Has, UpdatedTo;
    forall k | 1 <= k < COUNT
      ensures MatchesAt(fold, update, Updated(node, update), k)
    {
      UpdatedAt(node, update, COUNT, k);
    }
  }

  // ===== strings =====

  function WriteString(value: string): Result<bytes> {
    var units := Utf16(value);
    var size := (|units| + 1) * 2;
    if size >= 0x1_0000_0000 then Err(TooLarge)
    else Ok(U32Bytes(size) + SafeString.UnitBytes(units) + U16Bytes(0))
  }

  function ReadString(s: bytes): Parsed<string> {
    var (size, s1) :- ReadU32(s);
    if size % 2 != 0 || size < 2 then Fail(Malformed)
    else
      var (units, s2) :- SafeString.ReadUnits(s1, (size - 1) / 2);
      var (nul, s3) :- ReadU16(s2);
      if nul != 0 then Fail(Malformed) else Done(FromUtf16(units), s3)
  }

  /** Every string comes back, with its NULs. */
  lemma StringRoundTrip(value: string, rest: bytes)
    requires WriteString(value).Ok?
    ensures ReadString(WriteString(value).value + rest) == Done(value, rest)
  {
    hide U32Bytes, U16Bytes, ReadU32, ReadU16, SafeString.UnitBytes, SafeString.ReadUnits, Utf16, FromUtf16;
    var units := Utf16(value);
    var size := (|units| + 1) * 2;
    var body := SafeString.UnitBytes(units);
    Cat3(U32Bytes(size), body, U16Bytes(0), rest);
    ReadsU32(size, body + (U16Bytes(0) + rest));
    assert (size - 1) / 2 == |units|;
    SafeString.ReadsUnits(units, U16Bytes(0) + rest);
    ReadsU16(0, rest);
    Utf16RoundTrip(value);
  }

  // ===== fields =====

  function WriteValue(v: Value): Result<bytes> {
    match v
    case Word(w) => Ok(U32Bytes(w))
    case Int(i) => Ok(U32Bytes(I32Bits(i)))
    case Text(s) => WriteString(s)
    case Uuid(u) => Ok(u)
    case Blob(b) => if |b| >= 0x1_0000_0000 then Err(TooLarge) else Ok(U32Bytes(|b|) + b)
  }

  function ReadValue(kind: Kind, s: bytes): (r: Parsed<Value>)
    ensures r.Done? ==> HasKind(r.value, kind)
  {
    match kind
    case WordKind =>
      var (w, s1) :- ReadU32(s);
      Done(Word(w), s1)
    case IntKind =>
      var (w, s1) :- ReadU32(s);
      Done(Int(BitsI32(w)), s1)
    case TextKind =>
      var (t, s1) :- ReadString(s);
      Done(Text(t), s1)
    case UuidKind =>
      var (u, s1) :- ReadBytes(s, 16);
      Done(Uuid(u), s1)
    case BlobKind =>
      var (size, s1) :- ReadU32(s);
      var (b, s2) :- ReadBytes(s1, size);
      Done(Blob(b), s2)
  }

  lemma ValueRoundTrip(kind: Kind, v: Value, rest: bytes)
    requires HasKind(v, kind) && WriteValue(v).Ok?
    ensures ReadValue(kind, WriteValue(v).value + rest) == Done(v, rest)
  {
    hide U32Bytes, ReadU32, WriteString, ReadString, ReadBytes;
    match v {
      case Word(w) => ReadsU32(w, rest);
      case Int(i) => ReadsU32(I32Bits(i), rest);
      case Text(s) => StringRoundTrip(s, rest);
      case Uuid(u) => ReadsBytes(u, rest);
      case Blob(b) =>
        Cat2(U32Bytes(|b|), b, rest);
        ReadsU32(|b|, b + rest);
        ReadsBytes(b, rest);
    }
  }

  /** The first `k` fields. */
  function WriteFields(n: Node, k: nat): Result<bytes>
    requires Formed(n) && k <= COUNT
  {
    if k == 0 then Ok([])
    else
      var init :- WriteFields(n, k - 1);
      if Has(n, k - 1) then
        var last :- WriteValue(n.values[k - 1]);
        Ok(init + last)
      else Ok(init)
  }

  function ReadFields(fields: u64, k: nat, s: bytes): (r: Parsed<seq<Value>>)
    requires k <= COUNT
    ensures r.Done? ==> |r.value| == k && forall j :: 0 <= j < k ==>
      HasKind(r.value[j], KindOf(j)) && (Bit(fields, j) || r.value[j] == DefaultOf(KindOf(j)))
  {
    if k == 0 then Done([], s)
    else
      var (init, s1) :- ReadFields(fields, k - 1, s);
      if Bit(fields, k - 1) then
        var (last, s2) :- ReadValue(KindOf(k - 1), s1);
        Done(init + [last], s2)
      else Done(init + [DefaultOf(KindOf(k - 1))], s1)
  }

  lemma {:induction false} FieldsRoundTrip(n: Node, k: nat, rest: bytes)
    requires Clean(n) && k <= COUNT && WriteFields(n, k).Ok?
    ensures ReadFields(n.fields, k, WriteFields(n, k).value + rest) == Done(n.values[..k], rest)
  {
    hide WriteValue, ReadValue, KindOf, DefaultOf, HasKind, Bit;
    if k == 0 {
      assert WriteFields(n, k).value + rest == rest;
    } else {
      assert n.values[..k - 1] + [n.values[k - 1]] == n.values[..k];
      var init := WriteFields(n, k - 1).value;
      if Has(n, k - 1) {
        var last := WriteValue(n.values[k - 1]).value;
        Cat2(init, last, rest);
        FieldsRoundTrip(n, k - 1, last + rest);
        ValueRoundTrip(KindOf(k - 1), n.values[k - 1], rest);
      } else {
        assert CleanAt(n, k - 1);
        FieldsRoundTrip(n, k - 1, rest);
      }
    }
  }

  // ===== nodes =====

  function Write(n: Node): Result<bytes>
    requires Formed(n)
  {
    var body :- WriteFields(n, |n.values|);
    Ok(U64Bytes(n.fields) + body)
  }

  /** Any bytes that are read give a node that keeps the mask rule. */
  function Read(s: bytes): (r: Parsed<Node>)
    ensures r.Done? ==> Clean(r.value)
  {
    var (fields, s1) :- ReadU64(s);
    var (values, s2) :- ReadFields(fields, COUNT, s1);
    Done(Node(fields, values), s2)
  }

  /** Written and read back, a node is itself, with unknown bits, and nothing more is
      consumed. */
  lemma RoundTrip(n: Node, rest: bytes)
    requires Clean(n) && Write(n).Ok?
    ensures Read(Write(n).value + rest) == Done(n, rest)
  {
    hide U64Bytes, ReadU64, WriteFields, ReadFields, Bit;
    var body := WriteFields(n, COUNT).value;
    Cat2(U64Bytes(n.fields), body, rest);
    ReadsU64(n.fields, body + rest);
    FieldsRoundTrip(n, COUNT, rest);
    assert n.values[..COUNT] == n.values;
  }

  /** Only a text or a blob can be too large. */
  predicate FitsAt(n: Node, k: nat)
    requires k < |n.values|
  {
    Has(n, k) ==>
      match n.values[k]
      case Text(s) => (|Utf16(s)| + 1) * 2 < 0x1_0000_0000
      case Blob(b) => |b| < 0x1_0000_0000
      case _ => true
  }

  lemma {:induction false} WritesIff(n: Node, k: nat)
    requires Formed(n) && k <= COUNT
    ensures WriteFields(n, k).Ok? <==> forall j :: 0 <= j < k ==> FitsAt(n, j)
  {
    hide Has, Utf16, HasKind, KindOf;
    if k > 0 {
      WritesIff(n, k - 1);
      assert WriteFields(n, k).Ok? <==> WriteFields(n, k - 1).Ok? && FitsAt(n, k - 1);
    }
  }

  // ===== loops =====

  method WriteNode(n: Node) returns (r: Result<bytes>)
    requires Formed(n)
    ensures r == Write(n)
  {
    hide WriteValue, U64Bytes, Has;
    var out := [];
    for k := 0 to COUNT
      invariant WriteFields(n, k) == Ok(out)
    {
      if Has(n, k) {
        var field := WriteValue(n.values[k]);
        if field.Err? {
          WriteStops(n, k + 1);
          return Err(field.error);
        }
        out := out + field.value;
      }
    }
    return Ok(U64Bytes(n.fields) + out);
  }

  lemma {:induction false} WriteStops(n: Node, k: nat)
    requires Formed(n) && k <= COUNT && WriteFields(n, k).Err?
    ensures WriteFields(n, COUNT) == WriteFields(n, k)
    decreases COUNT - k
  {
    hide WriteValue, Has;
    if k < COUNT {
      assert WriteFields(n, k + 1) == WriteFields(n, k);
      WriteStops(n, k + 1);
    }
  }

  method ReadNode(s: bytes) returns (r: Parsed<Node>)
    ensures r == Read(s)
  {
    hide ReadValue, ReadU64, Bit, KindOf, DefaultOf, HasKind;
    var head := ReadU64(s);
    if head.Fail? {
      return Fail(head.error);
    }
    var values: seq<Value>, rest := [], head.rest;
    for k := 0 to COUNT
      invariant ReadFields(head.value, k, head.rest) == Done(values, rest)
    {
      if Bit(head.value, k) {
        var field := ReadValue(KindOf(k), rest);
        if field.Fail? {
          ReadStops(head.value, k + 1, head.rest);
          return Fail(field.error);
        }
        values, rest := values + [field.value], field.rest;
      } else {
        values := values + [DefaultOf(KindOf(k))];
      }
    }
    return Done(Node(head.value, values), rest);
  }

  lemma {:induction false} ReadStops(fields: u64, k: nat, s: bytes)
    requires k <= COUNT && ReadFields(fields, k, s).Fail?
    ensures ReadFields(fields, COUNT, s) == ReadFields(fields, k, s)
    decreases COUNT - k
  {
    hide ReadValue, Bit, KindOf, DefaultOf, HasKind;
    if k < COUNT {
      assert ReadFields(fields, k + 1, s) == ReadFields(fields, k, s);
      ReadStops(fields, k + 1, s);
    }
  }
}
