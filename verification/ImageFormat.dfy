// Heap images: the object graph, the bytes of a value and of an object, and
// what it means for an image to hold a graph.
module ImageFormat {
  import opened Primitives
  import opened Values

  // ---- object graphs; a reference is an index

  datatype Val =
    | Null                          // #nil
    | Flag(b: bool)
    | Number(i: int)
    | SymRef(r: nat)
    | KwRef(r: nat)
    | PairRef(r: nat)
    | ArrayRef(r: nat)
    | StrRef(r: nat)
    | BufRef(r: nat)

  datatype Obj =
    | Cons(car: Val, cdr: Val)
    | Array(data: seq<Val>, flags: nat)
    | Buffer(bytes: seq<byte>, immutable: bool)
    | Name(text: seq<byte>)         // a symbol

  type Graph = seq<Obj>

  // The reference of a value, if it has one.
  predicate IsRef(v: Val) { !v.Null? && !v.Flag? && !v.Number? }

  predicate ValOk(g: Graph, v: Val) {
    match v
    case Null => true
    case Flag(_) => true
    case Number(i) => IsI64(i)
    case SymRef(r) => r < |g| && g[r].Name?
    case KwRef(r) => r < |g| && g[r].Name?
    case PairRef(r) => r < |g| && g[r].Cons?
    case ArrayRef(r) => r < |g| && g[r].Array?
    case StrRef(r) => r < |g| && g[r].Buffer?
    case BufRef(r) => r < |g| && g[r].Buffer?
  }

  const LENGTH_LIMIT := 0x1000_0000

  predicate ObjOk(g: Graph, o: Obj) {
    match o
    case Cons(a, d) => ValOk(g, a) && ValOk(g, d)
    case Array(data, flags) =>
      |data| < LENGTH_LIMIT && flags < 16 && forall i :: 0 <= i < |data| ==> ValOk(g, data[i])
    case Buffer(bytes, _) => |bytes| < LENGTH_LIMIT
    case Name(text) => |text| < 94 && 0 !in text
  }

  // Distinct symbols have distinct names, because they are interned.
  predicate GraphOk(g: Graph) {
    && (forall r :: 0 <= r < |g| ==> ObjOk(g, g[r]))
    && forall r, s :: 0 <= r < |g| && 0 <= s < |g| && g[r].Name? && g[s] == g[r] ==> r == s
  }

  // ---- reachable objects

  // The value at the end of a path of field numbers.
  function Follow(g: seq<Obj>, v: Val, path: seq<nat>): Option<Val>
    decreases |path|
  {
    if path == [] then Some(v)
    else if !IsRef(v) || v.r >= |g| then None
    else
      match g[v.r]
      case Cons(a, d) =>
        if path[0] == 0 then Follow(g, a, path[1..]) else if path[0] == 1 then Follow(g, d, path[1..]) else None
      case Array(data, _) => if path[0] < |data| then Follow(g, data[path[0]], path[1..]) else None
      case _ => None
  }

  predicate LeadsTo(g: Graph, root: Val, path: seq<nat>, r: nat) {
    var v := Follow(g, root, path);
    v.Some? && IsRef(v.value) && v.value.r == r
  }

  ghost predicate Reachable(g: Graph, root: Val, r: nat) {
    exists path: seq<nat> :: LeadsTo(g, root, path, r)
  }

  ghost function Reach(g: Graph, root: Val): (s: set<nat>)
    ensures forall r: nat :: r in s <==> r < |g| && Reachable(g, root, r)
  {
    set r: nat | r < |g| && Reachable(g, root, r)
  }

  function Fields(o: Obj): seq<Val> {
    match o
    case Cons(a, d) => [a, d]
    case Array(data, _) => data
    case _ => []
  }

  predicate ValIn(v: Val, s: set<nat>) { IsRef(v) ==> v.r in s }

  // No reference leads out of s.
  ghost predicate SelfContained(g: Graph, s: set<nat>) {
    forall r, i :: r in s && r < |g| && 0 <= i < |Fields(g[r])| ==> ValIn(Fields(g[r])[i], s)
  }

  lemma {:induction false} FollowMore(g: Graph, v: Val, path: seq<nat>, i: nat)
    requires Follow(g, v, path).Some?
    ensures Follow(g, v, path + [i]) == Follow(g, Follow(g, v, path).value, [i])
    decreases |path|
  {
    if path == [] {
      assert path + [i] == [i];
    } else {
      assert (path + [i])[1..] == path[1..] + [i];
      match g[v.r]
      case Cons(a, d) => FollowMore(g, if path[0] == 0 then a else d, path[1..], i);
      case Array(data, _) => FollowMore(g, data[path[0]], path[1..], i);
    }
  }

  lemma FollowField(g: Graph, v: Val, i: nat)
    requires IsRef(v) && v.r < |g| && i < |Fields(g[v.r])|
    ensures Follow(g, v, [i]) == Some(Fields(g[v.r])[i])
  {
    assert [i][1..] == [];
  }

  lemma FieldOk(g: Graph, r: nat, i: nat)
    requires GraphOk(g) && r < |g| && i < |Fields(g[r])|
    ensures ValOk(g, Fields(g[r])[i])
  {
    assert ObjOk(g, g[r]);
  }

  // The reachable objects are the smallest closed set that holds the root.
  lemma ReachIsSelfContained(g: Graph, root: Val)
    requires GraphOk(g) && ValOk(g, root)
    ensures SelfContained(g, Reach(g, root)) && ValIn(root, Reach(g, root))
  {
    hide Follow, GraphOk;
    if IsRef(root) {
      RootLeads(g, root);
    }
    forall r, i | r in Reach(g, root) && r < |g| && 0 <= i < |Fields(g[r])| ensures ValIn(Fields(g[r])[i], Reach(g, root)) {
      var v := Fields(g[r])[i];
      FieldOk(g, r, i);
      if IsRef(v) {
        var path: seq<nat> :| LeadsTo(g, root, path, r);
        FollowMore(g, root, path, i);
        FollowField(g, Follow(g, root, path).value, i);
        assert LeadsTo(g, root, path + [i], v.r);
      }
    }
  }

  lemma RootLeads(g: Graph, root: Val)
    requires IsRef(root)
    ensures LeadsTo(g, root, [], root.r)
  {
  }

  lemma {:induction false} FollowStays(g: Graph, v: Val, path: seq<nat>, s: set<nat>)
    requires SelfContained(g, s) && ValIn(v, s) && Follow(g, v, path).Some?
    ensures ValIn(Follow(g, v, path).value, s)
    decreases |path|
  {
    if path != [] {
      var w := Fields(g[v.r])[path[0]];
      assert ValIn(w, s);
      FollowStays(g, w, path[1..], s);
    }
  }

  lemma ReachIsLeast(g: Graph, root: Val, s: set<nat>)
    requires SelfContained(g, s) && ValIn(root, s)
    ensures Reach(g, root) <= s
  {
    hide Follow;
    forall r | r in Reach(g, root) ensures r in s {
      var path: seq<nat> :| LeadsTo(g, root, path, r);
      FollowStays(g, root, path, s);
    }
  }

  // ---- the size of an image

  function ValSize(v: Val): nat {
    match v
    case Null => 1
    case Flag(_) => 1
    case Number(i) =>
      if -0x80 <= i < 0x80 then 2 else if -0x8000 <= i < 0x8000 then 3 else if -0x8000_0000 <= i < 0x8000_0000 then 5 else 9
    case ArrayRef(_) => 5
    case _ => 4
  }

  function ValSizes(vs: seq<Val>): nat {
    if vs == [] then 0 else ValSizes(vs[..|vs| - 1]) + ValSize(vs[|vs| - 1])
  }

  // #nil in a pair takes no space of its own.
  function PairFieldSize(v: Val): nat { if v.Null? then 0 else ValSize(v) }

  // A record and the values of its fields.
  function ObjSize(o: Obj): nat {
    match o
    case Cons(a, d) => 8 + PairFieldSize(a) + PairFieldSize(d)
    case Array(data, _) => 4 + 4 * |data| + ValSizes(data)
    case Buffer(bytes, _) => 4 + |bytes|
    case Name(text) => |text| + 1
  }

  // The size of the objects below n that are in s.
  function Weight(g: Graph, s: set<nat>, n: nat): nat
    requires n <= |g|
  {
    if n == 0 then 0 else Weight(g, s, n - 1) + if n - 1 in s then ObjSize(g[n - 1]) else 0
  }

  // Each reachable object once, and the root.
  ghost function ImageSize(g: Graph, root: Val): nat {
    ValSize(root) + Weight(g, Reach(g, root), |g|)
  }

  lemma {:induction false} WeightAdd(g: Graph, s: set<nat>, r: nat, n: nat)
    requires n <= |g| && r < |g| && r !in s
    ensures Weight(g, s + {r}, n) == Weight(g, s, n) + if r < n then ObjSize(g[r]) else 0
  {
    if n > 0 {
      WeightAdd(g, s, r, n - 1);
    }
  }

  lemma {:induction false} WeightOfNone(g: Graph, n: nat)
    requires n <= |g|
    ensures Weight(g, {}, n) == 0
  {
    if n > 0 {
      WeightOfNone(g, n - 1);
    }
  }

  // ---- bytes of numbers

  // Little-endian two's complement in n bytes.
  function LE(x: int, n: nat): (s: seq<byte>)
    ensures |s| == n
    decreases n
  {
    if n == 0 then [] else [x % 256] + LE(x / 256, n - 1)
  }

  function Signed(s: seq<byte>): int
    requires s != []
  {
    if |s| == 1 then (if s[0] < 128 then s[0] else s[0] - 256) else s[0] + 256 * Signed(s[1..])
  }

  // x equals itself cast to an n-byte signed integer.
  predicate FitsBytes(x: int, n: nat)
    decreases n
  {
    n > 0 && if n == 1 then -128 <= x < 128 else FitsBytes(x / 256, n - 1)
  }

  lemma {:induction false} SignedRoundTrip(x: int, n: nat)
    requires n > 0
    ensures Signed(LE(x, n)) == x <==> FitsBytes(x, n)
    decreases n
  {
    if n > 1 {
      SignedRoundTrip(x / 256, n - 1);
      assert LE(x, n)[1..] == LE(x / 256, n - 1);
    }
  }

  function Power256(k: nat): (p: nat)
    ensures p > 0
  {
    if k == 0 then 1 else 256 * Power256(k - 1)
  }

  lemma DivideTwice(x: int, w: nat)
    requires w > 0
    ensures x / 256 / w == x / (256 * w)
  {
    var q := x / 256 / w;
    var r := x / 256 % w;
    assert x / 256 == q * w + r && 0 <= r <= w - 1;
    assert x == (256 * w) * q + (256 * r + x % 256) by {
      assert 256 * (q * w) == (256 * w) * q;
    }
    assert 0 <= 256 * r + x % 256 < 256 * w;
    Quotient(x, 256 * w, q, 256 * r + x % 256);
  }

  lemma Quotient(x: int, w: nat, q: int, r: nat)
    requires w > 0 && x == w * q + r && r < w
    ensures x / w == q
  {
    var d := x / w - q;
    assert w * (x / w) + x % w == x;
    assert w * d == r - x % w by { assert w * (x / w - q) == w * (x / w) - w * q; }
    Multiple(w, d);
  }

  lemma Multiple(w: int, d: int)
    requires w > 0
    ensures d >= 1 ==> w * d >= w
    ensures d <= -1 ==> w * d <= -w
  {
  }

  lemma FitsTwice(x: int, n: nat)
    requires n > 0
    ensures FitsBytes(x, n + 2) <==> FitsBytes(x / 0x1_0000, n)
  {
    assert FitsBytes(x, n + 2) <==> FitsBytes(x / 256, n + 1);
    assert FitsBytes(x / 256, n + 1) <==> FitsBytes(x / 256 / 256, n);
    assert x / 256 / 256 == x / 0x1_0000;
  }

  lemma FitsRanges(x: int)
    ensures FitsBytes(x, 1) <==> -0x80 <= x < 0x80
    ensures FitsBytes(x, 2) <==> -0x8000 <= x < 0x8000
    ensures FitsBytes(x, 4) <==> -0x8000_0000 <= x < 0x8000_0000
    ensures FitsBytes(x, 8) <==> IsI64(x)
  {
    FitsTwice(x, 2);
    FitsTwice(x, 6);
    FitsTwice(x / 0x1_0000, 4);
    FitsTwice(x / 0x1_0000 / 0x1_0000, 2);
    Fits2(x);
    Fits2(x / 0x1_0000);
    Fits2(x / 0x1_0000 / 0x1_0000 / 0x1_0000);
  }

  lemma Fits2(x: int)
    ensures FitsBytes(x, 2) <==> -0x8000 <= x < 0x8000
  {
    assert FitsBytes(x, 2) <==> FitsBytes(x / 256, 1);
  }

  // writeI24
  function LE24(x: int): seq<byte> {
    [x % 0x100, x / 0x100 % 0x100, x / 0x1_0000 % 0x100]
  }

  // The least byte comes first: byte k is worth 256^k.
  lemma {:induction false} LittleEndian(x: int, n: nat, k: nat)
    requires k < n
    ensures LE(x, n)[k] == x / Power256(k) % 256
    ensures n == 3 ==> LE24(x) == LE(x, n)
    decreases n
  {
    if n == 3 {
      ThreeBytes(x);
    }
    if k > 0 {
      LittleEndian(x / 256, n - 1, k - 1);
      DivideTwice(x, Power256(k - 1));
    }
  }

  lemma ThreeBytes(x: int)
    ensures LE24(x) == LE(x, 3)
  {
    assert x / 256 / 256 == x / 0x1_0000;
  }

  // readI24
  function I24(s: seq<byte>): nat
    requires |s| == 3
  {
    var a: nat, b: nat, c: nat := s[0], s[1], s[2];
    a + 0x100 * b + 0x1_0000 * c
  }

  const NO_OFFSET := 0xFF_FFFF

  // An offset survives in three bytes when it is below 2^24; minus one is the
  // largest three-byte number.
  lemma I24RoundTrip(x: int)
    ensures 0 <= x < 0x100_0000 ==> I24(LE24(x)) == x
    ensures I24(LE24(-1)) == NO_OFFSET
  {
  }

  // The length and flags in front of an array or buffer.
  function Header(length: nat, flags: nat): seq<byte> {
    LE(length % LENGTH_LIMIT + flags % 16 * LENGTH_LIMIT, 4)
  }

  function U32(s: seq<byte>): nat
    requires |s| == 4
  {
    var a: nat, b: nat, c: nat, d: nat := s[0], s[1], s[2], s[3];
    a + 0x100 * b + 0x1_0000 * c + 0x100_0000 * d
  }

  lemma HeaderRoundTrip(length: nat, flags: nat)
    requires length < LENGTH_LIMIT && flags < 16
    ensures U32(Header(length, flags)) % LENGTH_LIMIT == length && U32(Header(length, flags)) / LENGTH_LIMIT == flags
  {
    hide LE, U32;
    U32OfLE(length + flags * LENGTH_LIMIT);
  }

  lemma LEStep(x: int, n: nat)
    requires n > 0
    ensures LE(x, n) == [x % 256] + LE(x / 256, n - 1)
  {
  }

  lemma U32OfLE(x: int)
    requires 0 <= x < 0x1_0000_0000
    ensures U32(LE(x, 4)) == x
  {
    hide LE;
    LEStep(x, 4);
    LEStep(x / 256, 3);
    LEStep(x / 256 / 256, 2);
    LEStep(x / 256 / 256 / 256, 1);
  }

  // ---- bytes of a value

  const TAG_NIL := 0
  const TAG_SYMBOL := 1
  const TAG_KEYWORD := 2
  const TAG_INT8 := 3
  const TAG_INT16 := 4
  const TAG_INT32 := 5
  const TAG_INT64 := 6
  const TAG_PAIR := 8
  const TAG_ARRAY := 9
  const TAG_STRING := 15
  const TAG_BUFFER := 16
  const TAG_TRUE := 21
  const TAG_FALSE := 22

  function TagOf(v: Val): byte
    requires IsRef(v)
  {
    match v
    case SymRef(_) => TAG_SYMBOL
    case KwRef(_) => TAG_KEYWORD
    case PairRef(_) => TAG_PAIR
    case ArrayRef(_) => TAG_ARRAY
    case StrRef(_) => TAG_STRING
    case BufRef(_) => TAG_BUFFER
  }

  function IntBytes(i: int): seq<byte> {
    if -0x80 <= i < 0x80 then [TAG_INT8] + LE(i, 1)
    else if -0x8000 <= i < 0x8000 then [TAG_INT16] + LE(i, 2)
    else if -0x8000_0000 <= i < 0x8000_0000 then [TAG_INT32] + LE(i, 4)
    else [TAG_INT64] + LE(i, 8)
  }

  // `memo` gives the offset of each object.
  function ValBytes(v: Val, memo: map<nat, nat>): (s: seq<byte>)
    requires IsRef(v) ==> v.r in memo
    ensures |s| > 0
  {
    match v
    case Null => [TAG_NIL]
    case Flag(b) => [if b then TAG_TRUE else TAG_FALSE]
    case Number(i) => IntBytes(i)
    case _ => [TagOf(v)] + LE24(memo[v.r])
  }

  // ---- an image as far as it has been written

  // The bytes, the offsets of objects, the offsets of the values in their
  // fields, and the positions that are written for good.
  datatype Image = Image(bytes: seq<byte>, end: nat, memo: map<nat, nat>, fields: map<(nat, nat), nat>, settled: set<nat>)

  // `bs` stands at `off`, for good.
  ghost predicate Stands(m: Image, off: nat, bs: seq<byte>) {
    && off + |bs| <= |m.bytes|
    && forall k :: 0 <= k < |bs| ==> m.bytes[off + k] == bs[k] && off + k in m.settled
  }

  ghost predicate ValAt(m: Image, v: Val, off: nat) {
    (IsRef(v) ==> v.r in m.memo) && Stands(m, off, ValBytes(v, m.memo))
  }

  // A field of a pair: #nil is stored as no offset at all.
  ghost predicate PairField(m: Image, r: nat, i: nat, v: Val, off: nat) {
    if v.Null? then Stands(m, off, LE24(-1))
    else (r, i) in m.fields && ValAt(m, v, m.fields[(r, i)]) && Stands(m, off, LE24(m.fields[(r, i)]))
  }

  ghost predicate ArrayField(m: Image, r: nat, i: nat, v: Val, off: nat) {
    (r, i) in m.fields && ValAt(m, v, m.fields[(r, i)]) && Stands(m, off, LE(m.fields[(r, i)], 4))
  }

  ghost predicate ObjAt(m: Image, r: nat, o: Obj, off: nat) {
    match o
    case Cons(a, d) => PairField(m, r, 0, a, off) && PairField(m, r, 1, d, off + 3)
    case Array(data, flags) =>
      Stands(m, off, Header(|data|, flags)) &&
      forall i :: 0 <= i < |data| ==> ArrayField(m, r, i, data[i], off + 4 + 4 * i)
    case Buffer(bytes, immutable) => Stands(m, off, Header(|bytes|, if immutable then 1 else 0) + bytes)
    case Name(text) => Stands(m, off, text + [0])
  }

  const MEMO_LIMIT := 24576      // a set on a fuller memo map exits

  // Every object with an offset is written, except the pending ones.
  ghost predicate Written(g: Graph, m: Image, pending: set<nat>) {
    && |m.memo| <= MEMO_LIMIT
    && m.end <= |m.bytes|
    && (forall k :: k in m.settled ==> k < m.end)
    && (forall r :: r in m.memo ==> r < |g| && 0 < m.memo[r] < m.end)
    && (forall r, s :: r in m.memo && s in m.memo && m.memo[r] == m.memo[s] ==> r == s)
    && (forall r :: r in m.memo && r !in pending ==> ObjAt(m, r, g[r], m.memo[r]))
    && (forall r, i :: (r, i) in m.fields ==> r in m.memo)
  }

  // `m'` continues `m`: nothing below the old end changed, what was settled
  // stays settled, and newly settled bytes are at or above the old end.
  ghost predicate Continues(m: Image, m': Image) {
    && m.end <= m'.end && m.end <= |m.bytes| <= |m'.bytes|
    && m'.bytes[..m.end] == m.bytes[..m.end]
    && (forall r :: r in m.memo ==> r in m'.memo && m'.memo[r] == m.memo[r])
    && (forall f :: f in m.fields ==> f in m'.fields && m'.fields[f] == m.fields[f])
    && m.settled <= m'.settled
    && (forall k :: k in m'.settled && k !in m.settled ==> m.end <= k)
    && (forall r, i :: (r, i) in m'.fields && (r, i) !in m.fields ==> r !in m.memo)
  }

  // The bytes written beyond those of the objects entered so far; negative
  // while fields are still to be written.
  ghost function Balance(g: Graph, m: Image): int { m.end - Weight(g, m.memo.Keys, |g|) }

  // Every object with an offset is written, and so is all it leads to.
  lemma WrittenIsSelfContained(g: Graph, m: Image)
    requires GraphOk(g) && Written(g, m, {})
    ensures SelfContained(g, m.memo.Keys)
  {
    hide GraphOk, Stands;
    forall r, i | r in m.memo.Keys && r < |g| && 0 <= i < |Fields(g[r])| ensures ValIn(Fields(g[r])[i], m.memo.Keys) {
      assert ObjAt(m, r, g[r], m.memo[r]);
      if g[r].Array? {
        assert ArrayField(m, r, i, g[r].data[i], m.memo[r] + 4 + 4 * i);
      }
    }
  }

  lemma ContinuesTrans(a: Image, b: Image, c: Image)
    requires Continues(a, b) && Continues(b, c)
    ensures Continues(a, c)
  {
    assert c.bytes[..a.end] == c.bytes[..b.end][..a.end];
    assert b.bytes[..a.end] == b.bytes[..b.end][..a.end];
  }

  // What is settled stays as it is as long as settled bytes do.
  ghost predicate Keeps(m: Image, m': Image) {
    && |m.bytes| <= |m'.bytes|
    && m.settled <= m'.settled
    && (forall k :: k in m.settled && k < |m.bytes| ==> m'.bytes[k] == m.bytes[k])
    && (forall r :: r in m.memo ==> r in m'.memo && m'.memo[r] == m.memo[r])
    && (forall f :: f in m.fields ==> f in m'.fields && m'.fields[f] == m.fields[f])
  }

  lemma StandsKept(m: Image, m': Image, off: nat, bs: seq<byte>)
    requires Keeps(m, m') && Stands(m, off, bs)
    ensures Stands(m', off, bs)
  {
    forall k | 0 <= k < |bs| ensures m'.bytes[off + k] == bs[k] && off + k in m'.settled {
      assert m.bytes[off + k] == bs[k] && off + k in m.settled;
    }
  }

  lemma ValKept(m: Image, m': Image, v: Val, off: nat)
    requires Keeps(m, m') && ValAt(m, v, off)
    ensures ValAt(m', v, off)
  {
    StandsKept(m, m', off, ValBytes(v, m.memo));
  }

  lemma PairFieldKept(m: Image, m': Image, r: nat, i: nat, v: Val, off: nat)
    requires Keeps(m, m') && PairField(m, r, i, v, off)
    ensures PairField(m', r, i, v, off)
  {
    hide Stands, ValAt;
    if v.Null? {
      StandsKept(m, m', off, LE24(-1));
    } else {
      ValKept(m, m', v, m.fields[(r, i)]);
      StandsKept(m, m', off, LE24(m.fields[(r, i)]));
    }
  }

  lemma ArrayFieldKept(m: Image, m': Image, r: nat, i: nat, v: Val, off: nat)
    requires Keeps(m, m') && ArrayField(m, r, i, v, off)
    ensures ArrayField(m', r, i, v, off)
  {
    hide Stands, ValAt;
    ValKept(m, m', v, m.fields[(r, i)]);
    StandsKept(m, m', off, LE(m.fields[(r, i)], 4));
  }

  lemma ObjKept(m: Image, m': Image, r: nat, o: Obj, off: nat)
    requires Keeps(m, m') && ObjAt(m, r, o, off)
    ensures ObjAt(m', r, o, off)
  {
    hide Keeps, Stands, PairField, ArrayField;
    match o
    case Cons(a, d) =>
      PairFieldKept(m, m', r, 0, a, off);
      PairFieldKept(m, m', r, 1, d, off + 3);
    case Array(data, flags) =>
      StandsKept(m, m', off, Header(|data|, flags));
      forall i | 0 <= i < |data| ensures ArrayField(m', r, i, data[i], off + 4 + 4 * i) {
        ArrayFieldKept(m, m', r, i, data[i], off + 4 + 4 * i);
      }
    case Buffer(bytes, immutable) => StandsKept(m, m', off, Header(|bytes|, if immutable then 1 else 0) + bytes);
    case Name(text) => StandsKept(m, m', off, text + [0]);
  }

  lemma ContinuesKeeps(m: Image, m': Image)
    requires Continues(m, m') && forall k :: k in m.settled ==> k < m.end
    ensures Keeps(m, m')
  {
    forall k | k in m.settled && k < |m.bytes| ensures m'.bytes[k] == m.bytes[k] {
      assert m'.bytes[..m.end][k] == m.bytes[..m.end][k];
    }
  }

  // ---- the writer's steps

  // A part of a record that is not settled yet.
  ghost predicate Reserved(m: Image, off: nat, n: nat) {
    off + n <= m.end && forall k :: off <= k < off + n ==> k !in m.settled
  }

  // A larger buffer with the same beginning.
  lemma Reallocated(g: Graph, m: Image, m': Image, pending: set<nat>)
    requires Written(g, m, pending) && m' == m.(bytes := m'.bytes) && m.bytes <= m'.bytes
    ensures Written(g, m', pending) && Continues(m, m')
  {
    hide ObjAt;
    assert Keeps(m, m');
    forall r | r in m.memo && r !in pending ensures ObjAt(m', r, g[r], m'.memo[r]) {
      ObjKept(m, m', r, g[r], m.memo[r]);
    }
  }

  // Space for a value.
  lemma Bumped(g: Graph, m: Image, m': Image, pending: set<nat>, size: nat)
    requires Written(g, m, pending) && m' == m.(end := m.end + size) && m'.end <= |m.bytes|
    ensures Written(g, m', pending) && Continues(m, m') && Reserved(m', m.end, size)
  {
    hide ObjAt;
    assert Keeps(m, m');
    forall r | r in m.memo && r !in pending ensures ObjAt(m', r, g[r], m'.memo[r]) {
      ObjKept(m, m', r, g[r], m.memo[r]);
    }
  }

  // Space for an object that gets an offset.
  lemma Entered(g: Graph, m: Image, m': Image, pending: set<nat>, r: nat, size: nat)
    requires Written(g, m, pending) && r < |g| && r !in m.memo && m.end > 0 && size > 0 && |m.memo| < MEMO_LIMIT
    requires m' == m.(end := m.end + size, memo := m.memo[r := m.end]) && m'.end <= |m.bytes|
    ensures Written(g, m', pending + {r}) && Continues(m, m') && Reserved(m', m.end, size)
    ensures forall i :: (r, i) !in m'.fields
  {
    hide ObjAt;
    assert Keeps(m, m');
    forall s | s in m'.memo && s !in pending + {r} ensures ObjAt(m', s, g[s], m'.memo[s]) {
      ObjKept(m, m', s, g[s], m.memo[s]);
    }
  }

  function Span(off: nat, n: nat): (s: set<nat>)
    ensures forall k :: k in s <==> off <= k < off + n
  {
    set k: nat | off <= k < off + n && InSpan(k, off, n)
  }

  predicate InSpan(k: nat, off: nat, n: nat) { off <= k < off + n }

  function Splice(s: seq<byte>, off: nat, bs: seq<byte>): (t: seq<byte>)
    requires off + |bs| <= |s|
    ensures |t| == |s| && (forall k :: 0 <= k < |bs| ==> t[off + k] == bs[k])
    ensures forall k :: 0 <= k < |s| && !(off <= k < off + |bs|) ==> t[k] == s[k]
  {
    s[..off] + bs + s[off + |bs|..]
  }

  // Bytes written for good into a reserved part.
  lemma Settled(g: Graph, m: Image, m': Image, pending: set<nat>, off: nat, bs: seq<byte>)
    requires Written(g, m, pending) && Reserved(m, off, |bs|)
    requires m' == m.(bytes := Splice(m.bytes, off, bs), settled := m.settled + Span(off, |bs|))
    ensures Written(g, m', pending) && Keeps(m, m') && Stands(m', off, bs)
    ensures forall m0 :: Continues(m0, m) && m0.end <= off ==> Continues(m0, m')
  {
    hide ObjAt, Continues;
    assert Keeps(m, m');
    forall r | r in m.memo && r !in pending ensures ObjAt(m', r, g[r], m'.memo[r]) {
      ObjKept(m, m', r, g[r], m.memo[r]);
    }
    forall m0 | Continues(m0, m) && m0.end <= off ensures Continues(m0, m') {
      SettledAbove(m0, m, m', off, bs);
    }
  }

  lemma SettledAbove(m0: Image, m: Image, m': Image, off: nat, bs: seq<byte>)
    requires Continues(m0, m) && m0.end <= off && off + |bs| <= |m.bytes|
    requires m' == m.(bytes := Splice(m.bytes, off, bs), settled := m.settled + Span(off, |bs|))
    ensures Continues(m0, m')
  {
    assert m'.bytes[..m0.end] == m.bytes[..m0.end];
  }

  // The offset of the value in field i of r.
  lemma Recorded(g: Graph, m: Image, m': Image, pending: set<nat>, r: nat, i: nat, off: nat)
    requires Written(g, m, pending) && r in m.memo && (r, i) !in m.fields
    requires m' == m.(fields := m.fields[(r, i) := off])
    ensures Written(g, m', pending) && Keeps(m, m')
    ensures forall m0 :: Continues(m0, m) && r !in m0.memo ==> Continues(m0, m')
  {
    hide ObjAt;
    assert Keeps(m, m');
    forall s | s in m.memo && s !in pending ensures ObjAt(m', s, g[s], m'.memo[s]) {
      ObjKept(m, m', s, g[s], m.memo[s]);
    }
  }

  // The record of r is complete.
  lemma Completed(g: Graph, m: Image, pending: set<nat>, r: nat)
    requires Written(g, m, pending + {r}) && r in m.memo && ObjAt(m, r, g[r], m.memo[r])
    ensures Written(g, m, pending)
  {
  }
}
