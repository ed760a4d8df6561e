// The image reader: allocates an object for every offset it meets, remembers
// it before reading the fields, and interns symbols by name.
module ImageReader {
  import opened Values
  import opened ImageFormat
  import opened ImageWriter

  // ---- what the reader has built

  // The first `base` objects were there before.
  datatype Build = Build(heap: seq<Obj>, memo: map<nat, nat>, symbols: map<seq<byte>, nat>, base: nat)

  // The object r of the written graph has been read.
  ghost predicate Known(g: Graph, m: Image, q: Build, r: nat) {
    r < |g| && r in m.memo && if g[r].Name? then g[r].text in q.symbols else m.memo[r] in q.memo
  }

  // Where it is in the new heap.
  ghost function New(g: Graph, m: Image, q: Build, r: nat): nat
    requires Known(g, m, q, r)
  {
    if g[r].Name? then q.symbols[g[r].text] else q.memo[m.memo[r]]
  }

  function Moved(v: Val, n: nat): Val
    requires IsRef(v)
  {
    match v
    case SymRef(_) => SymRef(n)
    case KwRef(_) => KwRef(n)
    case PairRef(_) => PairRef(n)
    case ArrayRef(_) => ArrayRef(n)
    case StrRef(_) => StrRef(n)
    case BufRef(_) => BufRef(n)
  }

  ghost predicate Same(g: Graph, m: Image, q: Build, v: Val, v': Val) {
    if IsRef(v) then Known(g, m, q, v.r) && v' == Moved(v, New(g, m, q, v.r)) else v' == v
  }

  ghost predicate ObjSame(g: Graph, m: Image, q: Build, o: Obj, o': Obj) {
    match o
    case Cons(a, d) => o'.Cons? && Same(g, m, q, a, o'.car) && Same(g, m, q, d, o'.cdr)
    case Array(data, flags) =>
      o'.Array? && o'.flags == flags && |o'.data| == |data| &&
      forall i :: 0 <= i < |data| ==> Same(g, m, q, data[i], o'.data[i])
    case _ => o' == o
  }

  predicate SameKind(o: Obj, o': Obj) {
    match o
    case Cons(_, _) => o'.Cons?
    case Array(_, _) => o'.Array?
    case Buffer(_, _) => o'.Buffer?
    case Name(_) => o'.Name?
  }

  // Symbols are interned: a name has one object, and the object that name, and
  // no other symbol is made.
  ghost predicate Interned(q: Build) {
    && (forall t :: t in q.symbols ==> q.symbols[t] < |q.heap| && q.heap[q.symbols[t]] == Name(t))
    && (forall i :: q.base <= i < |q.heap| && q.heap[i].Name? ==> IsInterned(q.heap[i], i, q.symbols))
  }

  // The object at i is the symbol that its name finds.
  predicate IsInterned(o: Obj, i: nat, symbols: map<seq<byte>, nat>)
    requires o.Name?
  {
    o.text in symbols && symbols[o.text] == i
  }

  ghost predicate MemoOk(g: Graph, m: Image, q: Build) {
    && (forall off :: off in q.memo ==> q.memo[off] < |q.heap| && !q.heap[q.memo[off]].Name?)
    && (forall a, b :: a in q.memo && b in q.memo && q.memo[a] == q.memo[b] ==> a == b)
    && q.memo.Keys <= m.memo.Values
  }

  // Every object read so far is a copy, except the pending ones.
  ghost predicate Reading(g: Graph, m: Image, q: Build, pending: set<nat>) {
    && Interned(q) && MemoOk(g, m, q)
    && (forall r: nat :: Known(g, m, q, r) ==> SameKind(g[r], q.heap[New(g, m, q, r)]))
    && (forall r: nat :: Known(g, m, q, r) && r !in pending ==> ObjSame(g, m, q, g[r], q.heap[New(g, m, q, r)]))
  }

  // Nothing that existed was changed or forgotten.
  ghost predicate Extends(q: Build, q': Build) {
    && |q.heap| <= |q'.heap| && q'.heap[..|q.heap|] == q.heap
    && (forall off :: off in q.memo ==> off in q'.memo && q'.memo[off] == q.memo[off])
    && (forall t :: t in q.symbols ==> t in q'.symbols && q'.symbols[t] == q.symbols[t])
  }

  lemma ExtendsTrans(a: Build, b: Build, c: Build)
    requires Extends(a, b) && Extends(b, c)
    ensures Extends(a, c)
  {
    assert c.heap[..|a.heap|] == c.heap[..|b.heap|][..|a.heap|];
  }

  // Lookups only.
  ghost predicate Finds(q: Build, q': Build) {
    && (forall off :: off in q.memo ==> off in q'.memo && q'.memo[off] == q.memo[off])
    && (forall t :: t in q.symbols ==> t in q'.symbols && q'.symbols[t] == q.symbols[t])
  }

  lemma SameKept(g: Graph, m: Image, q: Build, q': Build, v: Val, v': Val)
    requires Finds(q, q') && Same(g, m, q, v, v')
    ensures Same(g, m, q', v, v')
  {
  }

  lemma ObjSameKept(g: Graph, m: Image, q: Build, q': Build, o: Obj, o': Obj)
    requires Finds(q, q') && ObjSame(g, m, q, o, o')
    ensures ObjSame(g, m, q', o, o')
  {
    hide Finds, Same;
    match o
    case Cons(a, d) =>
      SameKept(g, m, q, q', a, o'.car);
      SameKept(g, m, q, q', d, o'.cdr);
    case Array(data, flags) =>
      forall i | 0 <= i < |data| ensures Same(g, m, q', data[i], o'.data[i]) {
        SameKept(g, m, q, q', data[i], o'.data[i]);
      }
    case _ =>
  }

  // Objects of other references are elsewhere.
  lemma Elsewhere(g: Graph, m: Image, q: Build, r: nat, s: nat)
    requires GraphOk(g) && Written(g, m, {}) && Interned(q) && MemoOk(g, m, q)
    requires Known(g, m, q, r) && Known(g, m, q, s) && r != s
    ensures New(g, m, q, r) != New(g, m, q, s)
  {
    hide ObjAt, ObjOk;
  }

  // The owner of a pending object fills it in.
  lemma Filled(g: Graph, m: Image, q: Build, q': Build, pending: set<nat>, r: nat, o: Obj)
    requires GraphOk(g) && Written(g, m, {}) && Reading(g, m, q, pending) && r in pending
    requires Known(g, m, q, r) && !g[r].Name? && SameKind(g[r], o)
    requires q' == q.(heap := q.heap[New(g, m, q, r) := o])
    ensures Reading(g, m, q', pending) && Finds(q, q')
    ensures forall q0 :: Extends(q0, q) && |q0.heap| <= New(g, m, q, r) ==> Extends(q0, q')
  {
    hide ObjSame, Written, GraphOk;
    var n := New(g, m, q, r);
    forall t | t in q'.symbols ensures q'.symbols[t] < |q'.heap| && q'.heap[q'.symbols[t]] == Name(t) {
      assert q.heap[q.symbols[t]] == Name(t);
      assert SameKind(g[r], q.heap[n]);
    }
    forall s: nat | Known(g, m, q', s) ensures SameKind(g[s], q'.heap[New(g, m, q', s)]) {
      assert Known(g, m, q, s);
      if s != r {
        Elsewhere(g, m, q, r, s);
      }
    }
    forall s: nat | Known(g, m, q', s) && s !in pending ensures ObjSame(g, m, q', g[s], q'.heap[New(g, m, q', s)]) {
      assert Known(g, m, q, s);
      Elsewhere(g, m, q, r, s);
      ObjSameKept(g, m, q, q', g[s], q.heap[New(g, m, q, s)]);
    }
    forall q0 | Extends(q0, q) && |q0.heap| <= n ensures Extends(q0, q') {
      assert q'.heap[..|q0.heap|] == q.heap[..|q0.heap|];
    }
  }

  lemma OpenedBasics(g: Graph, m: Image, q: Build, q': Build, r: nat, o: Obj)
    requires Interned(q) && MemoOk(g, m, q) && r in m.memo && m.memo[r] !in q.memo && !o.Name?
    requires q' == q.(heap := q.heap + [o], memo := q.memo[m.memo[r] := |q.heap|])
    ensures Interned(q') && MemoOk(g, m, q') && Extends(q, q') && Finds(q, q')
    ensures |q.memo| < |m.memo|
  {
    ReadMemoBound(m.memo, q.memo, r);
    assert m.memo[r] in m.memo.Values;
  }

  lemma OpenedKnown(g: Graph, m: Image, q: Build, q': Build, r: nat, s: nat)
    requires Written(g, m, {}) && r in m.memo && r < |g| && !g[r].Name? && m.memo[r] !in q.memo
    requires q'.symbols == q.symbols && q'.memo == q.memo[m.memo[r] := |q.heap|]
    ensures Known(g, m, q', r) && New(g, m, q', r) == |q.heap|
    ensures Known(g, m, q', s) && s != r ==> Known(g, m, q, s) && New(g, m, q', s) == New(g, m, q, s)
  {
    hide ObjAt;
  }

  // A new object for r.
  lemma Opened(g: Graph, m: Image, q: Build, q': Build, pending: set<nat>, r: nat, o: Obj)
    requires Written(g, m, {}) && Reading(g, m, q, pending)
    requires r in m.memo && r < |g| && !g[r].Name? && m.memo[r] !in q.memo && SameKind(g[r], o)
    requires q' == q.(heap := q.heap + [o], memo := q.memo[m.memo[r] := |q.heap|])
    ensures Reading(g, m, q', pending + {r}) && Extends(q, q') && Known(g, m, q', r) && New(g, m, q', r) == |q.heap|
    ensures |q.memo| < |m.memo|
  {
    hide ObjSame, Written, Finds, Extends, MemoOk, Interned;
    OpenedBasics(g, m, q, q', r, o);
    OpenedKnown(g, m, q, q', r, r);
    forall s: nat | Known(g, m, q', s)
      ensures New(g, m, q', s) < |q'.heap| && SameKind(g[s], q'.heap[New(g, m, q', s)])
      ensures s !in pending + {r} ==> ObjSame(g, m, q', g[s], q'.heap[New(g, m, q', s)])
    {
      OpenedKnown(g, m, q, q', r, s);
      if s != r {
        InHeap(g, m, q, s);
        if s !in pending {
          ObjSameKept(g, m, q, q', g[s], q.heap[New(g, m, q, s)]);
        }
      }
    }
  }

  lemma InHeap(g: Graph, m: Image, q: Build, s: nat)
    requires Interned(q) && MemoOk(g, m, q) && Known(g, m, q, s)
    ensures New(g, m, q, s) < |q.heap|
  {
  }

  // The reader remembers no more objects than the writer did.
  lemma ReadMemoBound(written: map<nat, nat>, read: map<nat, nat>, r: nat)
    requires r in written && written[r] !in read && read.Keys <= written.Values
    ensures |read| < |written|
  {
    ValuesBound(written);
    assert written[r] in written.Values;
    SubsetSize(read.Keys + {written[r]}, written.Values);
    assert |read| == |read.Keys|;
  }

  lemma {:induction false} ValuesBound(w: map<nat, nat>)
    ensures |w.Values| <= |w|
    decreases |w|
  {
    if w == map[] {
      assert w.Values == {};
    } else {
      var k :| k in w;
      var rest := w - {k};
      ValuesBound(rest);
      forall v | v in w.Values ensures v in rest.Values + {w[k]} {
        var j :| j in w && w[j] == v;
        assert j != k ==> j in rest && rest[j] == v;
      }
      SubsetSize(w.Values, rest.Values + {w[k]});
      assert rest.Keys == w.Keys - {k};
      assert |w.Keys| == |w|;
    }
  }

  // The record of r has been read.
  lemma Closed(g: Graph, m: Image, q: Build, pending: set<nat>, r: nat)
    requires Reading(g, m, q, pending + {r}) && Known(g, m, q, r) && ObjSame(g, m, q, g[r], q.heap[New(g, m, q, r)])
    ensures Reading(g, m, q, pending)
  {
    hide ObjSame, Interned, MemoOk;
  }

  // A symbol that was not interned yet.
  lemma Interning(g: Graph, m: Image, q: Build, q': Build, pending: set<nat>, t: seq<byte>)
    requires GraphOk(g) && Reading(g, m, q, pending) && t !in q.symbols
    requires q' == q.(heap := q.heap + [Name(t)], symbols := q.symbols[t := |q.heap|])
    ensures Reading(g, m, q', pending) && Extends(q, q')
  {
    hide ObjSame, ObjOk;
    forall s: nat | Known(g, m, q', s) ensures SameKind(g[s], q'.heap[New(g, m, q', s)]) {
      if Known(g, m, q, s) {
        assert SameKind(g[s], q.heap[New(g, m, q, s)]);
      }
    }
    forall s: nat | Known(g, m, q', s) && s !in pending ensures ObjSame(g, m, q', g[s], q'.heap[New(g, m, q', s)]) {
      if Known(g, m, q, s) {
        ObjSameKept(g, m, q, q', g[s], q.heap[New(g, m, q, s)]);
      } else {
        NameSame(g, m, q', g[s]);
      }
    }
  }

  lemma NameSame(g: Graph, m: Image, q: Build, o: Obj)
    requires o.Name? || o.Buffer?
    ensures ObjSame(g, m, q, o, o)
  {
  }

  // ---- reading bytes

  // An image in bytes, small enough for three-byte offsets.
  ghost predicate ImageOf(g: Graph, m: Image, img: seq<byte>) {
    GraphOk(g) && Written(g, m, {}) && m.end <= NO_OFFSET && img == m.bytes[..m.end]
  }

  lemma StandsIn(g: Graph, m: Image, img: seq<byte>, off: nat, bs: seq<byte>)
    requires ImageOf(g, m, img) && Stands(m, off, bs) && bs != []
    ensures off + |bs| <= |img| && img[off..off + |bs|] == bs
  {
    var last := |bs| - 1;
    assert m.bytes[off + last] == bs[last] && off + last in m.settled;
    forall k | 0 <= k < |bs| ensures img[off + k] == bs[k] {
      assert m.bytes[off + k] == bs[k] && off + k in m.settled;
    }
    assert img[off..off + |bs|] == bs;
  }

  lemma ObjIsAt(g: Graph, m: Image, img: seq<byte>, r: nat)
    requires ImageOf(g, m, img) && r in m.memo
    ensures r < |g| && ObjAt(m, r, g[r], m.memo[r]) && 0 < m.memo[r] < NO_OFFSET
  {
  }

  // The offset of a value is in range.
  lemma OffsetIn(g: Graph, m: Image, img: seq<byte>, v: Val, off: nat)
    requires ImageOf(g, m, img) && ValAt(m, v, off)
    ensures off < |img| < 0x100_0000
  {
    StandsIn(g, m, img, off, ValBytes(v, m.memo));
  }

  // What readPair finds in a field.
  lemma PairFieldBytes(g: Graph, m: Image, img: seq<byte>, r: nat, i: nat, v: Val, off: nat)
    requires ImageOf(g, m, img) && PairField(m, r, i, v, off)
    ensures off + 3 <= |img|
    ensures var o := I24(img[off..off + 3]); if o < NO_OFFSET then ValAt(m, v, o) && !v.Null? else v.Null?
  {
    hide Written, GraphOk, ValAt;
    if v.Null? {
      StandsIn(g, m, img, off, LE24(-1));
    } else {
      var o := m.fields[(r, i)];
      StandsIn(g, m, img, off, LE24(o));
      OffsetIn(g, m, img, v, o);
      I24RoundTrip(o);
      assert |img| <= NO_OFFSET;
    }
  }

  lemma ArrayFieldBytes(g: Graph, m: Image, img: seq<byte>, r: nat, i: nat, v: Val, off: nat)
    requires ImageOf(g, m, img) && ArrayField(m, r, i, v, off)
    ensures off + 4 <= |img| && U32(img[off..off + 4]) < 0x8000_0000 && ValAt(m, v, U32(img[off..off + 4]))
  {
    hide Written, GraphOk, ValAt;
    var o := m.fields[(r, i)];
    StandsIn(g, m, img, off, LE(o, 4));
    OffsetIn(g, m, img, v, o);
    U32OfLE(o);
  }

  // What readVal finds: the tag and, after it, a number or an offset.
  lemma ValTag(g: Graph, m: Image, img: seq<byte>, v: Val, off: nat)
    requires ImageOf(g, m, img) && ValAt(m, v, off)
    ensures off < |img| && img[off] == ValBytes(v, m.memo)[0]
  {
    StandsIn(g, m, img, off, ValBytes(v, m.memo));
    assert img[off] == img[off..off + |ValBytes(v, m.memo)|][0];
  }

  lemma NumberBytes(g: Graph, m: Image, img: seq<byte>, i: int, off: nat)
    requires ImageOf(g, m, img) && ValAt(m, Number(i), off) && ValOk(g, Number(i))
    ensures var n := IntWidth(i);
            off + 1 + n <= |img| && Signed(img[off + 1..off + 1 + n]) == i
  {
    hide Written, GraphOk, Signed, LE;
    var n := IntWidth(i);
    StandsIn(g, m, img, off, IntBytes(i));
    assert img[off + 1..off + 1 + n] == img[off..off + 1 + n][1..] == LE(i, n);
    FitsRanges(i);
    SignedRoundTrip(i, n);
  }

  function IntWidth(i: int): nat {
    if -0x80 <= i < 0x80 then 1
    else if -0x8000 <= i < 0x8000 then 2
    else if -0x8000_0000 <= i < 0x8000_0000 then 4
    else 8
  }

  lemma RefOffset(g: Graph, m: Image, img: seq<byte>, v: Val, off: nat)
    requires ImageOf(g, m, img) && ValAt(m, v, off) && IsRef(v)
    ensures v.r in m.memo && off + 4 <= |img| && I24(img[off + 1..off + 4]) == m.memo[v.r]
  {
    hide Written, GraphOk, LE24;
    RefBytes(v, m.memo);
    OffsetSize(m.memo[v.r]);
    StandsIn(g, m, img, off, ValBytes(v, m.memo));
    assert img[off + 1..off + 4] == img[off..off + 4][1..] == LE24(m.memo[v.r]);
    ObjIsAt(g, m, img, v.r);
    I24RoundTrip(m.memo[v.r]);
  }

  // Objects not yet read are in `white`.
  ghost predicate Unread(g: Graph, m: Image, q: Build, white: set<nat>) {
    forall r: nat :: r < |g| && !Known(g, m, q, r) ==> r in white
  }

  lemma StillUnread(g: Graph, m: Image, q: Build, q': Build, white: set<nat>)
    requires Unread(g, m, q, white) && Extends(q, q')
    ensures Unread(g, m, q', white)
  {
  }

  lemma OneRead(g: Graph, m: Image, q: Build, q': Build, white: set<nat>, r: nat)
    requires Unread(g, m, q, white) && Extends(q, q') && r < |g| && !Known(g, m, q, r) && Known(g, m, q', r)
    ensures Unread(g, m, q', white - {r}) && r in white
  {
  }

  lemma ExtendsFinds(q: Build, q': Build)
    requires Extends(q, q')
    ensures Finds(q, q')
  {
  }

  // A known object stays where it is.
  lemma StillKnown(g: Graph, m: Image, q: Build, q': Build, r: nat)
    requires Finds(q, q') && Known(g, m, q, r)
    ensures Known(g, m, q', r) && New(g, m, q', r) == New(g, m, q, r)
  {
  }

  class Reader {
    const img: seq<byte>
    ghost const g: Graph           // the graph that was written,
    ghost const m: Image           // and how
    var heap: seq<Obj>
    var memo: map<nat, nat>
    var symbols: map<seq<byte>, nat>
    ghost const base: nat          // objects that were there before

    ghost function State(): Build
      reads this
    {
      Build(heap, memo, symbols, base)
    }

    // The heap and the symbol table may hold objects already.
    constructor (data: seq<byte>, store: seq<Obj>, interned: map<seq<byte>, nat>, ghost graph: Graph, ghost image: Image)
      requires forall t :: t in interned ==> interned[t] < |store| && store[interned[t]] == Name(t)
      ensures img == data && g == graph && m == image && State() == Build(store, map[], interned, |store|)
    {
      img, g, m, base := data, graph, image, |store|;
      heap, memo, symbols := store, map[], interned;
    }

    // The NUL-terminated name at `off`.
    method ReadName(off: nat, ghost text: seq<byte>) returns (t: seq<byte>)
      requires off + |text| + 1 <= |img| && img[off..off + |text| + 1] == text + [0] && 0 !in text
      ensures t == text
    {
      t := [];
      var i := off;
      assert forall k :: 0 <= k <= |text| ==> img[off + k] == (text + [0])[k] by {
        forall k | 0 <= k <= |text| ensures img[off + k] == (text + [0])[k] {
          assert img[off..off + |text| + 1][k] == img[off + k];
        }
      }
      while img[i] != 0
        invariant off <= i <= off + |text| && t == text[..i - off]
        decreases off + |text| - i
      {
        assert img[off + (i - off)] == (text + [0])[i - off];
        t := t + [img[i]];
        i := i + 1;
      }
      assert img[off + (i - off)] == (text + [0])[i - off];
      assert forall k :: 0 <= k < |text| ==> text[k] != 0;
    }

    // readSymbol: lSymS of the name.
    method ReadSymbol(off: nat, ghost r: nat, ghost pending: set<nat>) returns (n: nat)
      requires ImageOf(g, m, img) && Reading(g, m, State(), pending)
      requires r in m.memo && r < |g| && g[r].Name? && off == m.memo[r]
      modifies this
      ensures Reading(g, m, State(), pending) && Extends(old(State()), State())
      ensures Known(g, m, State(), r) && n == New(g, m, State(), r)
    {
      hide ImageOf, Reading, Written;
      ghost var q := State();
      ImageParts(g, m, img);
      ObjIsAt(g, m, img, r);
      StandsIn(g, m, img, off, g[r].text + [0]);
      NameParts(g, r);
      var t := ReadName(off, g[r].text);
      if t !in symbols {
        heap := heap + [Name(t)];
        symbols := symbols[t := |heap| - 1];
        Interning(g, m, q, State(), pending, t);
      }
      n := symbols[t];
    }

    // readBuffer
    method ReadBuffer(off: nat, ghost r: nat, ghost pending: set<nat>) returns (n: nat)
      requires ImageOf(g, m, img) && Reading(g, m, State(), pending)
      requires r in m.memo && r < |g| && g[r].Buffer? && off == m.memo[r]
      modifies this
      ensures Reading(g, m, State(), pending) && Extends(old(State()), State())
      ensures Known(g, m, State(), r) && n == New(g, m, State(), r)
    {
      hide ImageOf, Reading, Written, Header, U32;
      ghost var q := State();
      if off in memo {
        return memo[off];
      }
      ImageParts(g, m, img);
      BufferBytes(g, m, img, r, off);
      var raw := U32(img[off..off + 4]);
      var len := raw % LENGTH_LIMIT;
      var immutable := raw / LENGTH_LIMIT % 2 == 1;
      n := |heap|;
      var o := Buffer(img[off + 4..off + 4 + len], immutable);
      heap := heap + [o];
      memo := memo[off := n];
      Opened(g, m, q, State(), pending, r, o);
      assert |q.memo| < MEMO_LIMIT;    // so lMapSet did not exit
      NameSame(g, m, State(), o);
      Closed(g, m, State(), pending, r);
    }

    // readPair
    method ReadPair(off: nat, ghost r: nat, ghost pending: set<nat>, ghost white: set<nat>) returns (n: nat)
      requires ImageOf(g, m, img) && Reading(g, m, State(), pending) && Unread(g, m, State(), white)
      requires r in m.memo && r < |g| && g[r].Cons? && off == m.memo[r]
      modifies this
      ensures Reading(g, m, State(), pending) && Extends(old(State()), State())
      ensures Known(g, m, State(), r) && n == New(g, m, State(), r)
      decreases white, 0
    {
      hide ImageOf, Reading, Written, Unread, Extends, PairField, Same;
      ghost var q0 := State();
      if off in memo {
        ExtendsSelf(q0);
        return memo[off];
      }
      ImageParts(g, m, img);
      ObjIsAt(g, m, img, r);
      FieldsOk(g, r);
      ghost var Cons(a, d) := g[r];
      n := |heap|;
      heap := heap + [Cons(Null, Null)];
      memo := memo[off := n];
      ghost var q1 := State();
      Opened(g, m, q0, q1, pending, r, Cons(Null, Null));
      assert |q0.memo| < MEMO_LIMIT;
      OneRead(g, m, q0, q1, white, r);
      PairFieldBytes(g, m, img, r, 0, a, off);
      PairFieldBytes(g, m, img, r, 1, d, off + 3);
      var car := I24(img[off..off + 3]);
      var cdr := I24(img[off + 3..off + 6]);
      var v := Null;
      if car < NO_OFFSET {
        v := ReadVal(car, a, pending + {r}, white - {r});
      } else {
        ExtendsSelf(q1);
        NullSame(g, m, q1, a);
      }
      ghost var q2 := State();
      PlaceKept(g, m, q0, q1, q2, r);
      SlotKept(q1, q2, n);
      heap := heap[n := Cons(v, Null)];
      ghost var q3 := State();
      Filled(g, m, q2, q3, pending + {r}, r, Cons(v, Null));
      StillUnreadSame(g, m, q2, q3, white - {r});
      var w := Null;
      if cdr < NO_OFFSET {
        w := ReadVal(cdr, d, pending + {r}, white - {r});
      } else {
        ExtendsSelf(q3);
        NullSame(g, m, q3, d);
      }
      ghost var q4 := State();
      PlaceKept(g, m, q0, q3, q4, r);
      SlotKept(q3, q4, n);
      heap := heap[n := Cons(v, w)];
      Filled(g, m, q4, State(), pending + {r}, r, Cons(v, w));
      ExtendsFinds(q3, q4);
      SameKept(g, m, q2, q3, a, v);
      SameKept(g, m, q3, q4, a, v);
      SameKept(g, m, q4, State(), a, v);
      SameKept(g, m, q4, State(), d, w);
      Closed(g, m, State(), pending, r);
    }

    // readArray
    method ReadArray(off: nat, ghost r: nat, ghost pending: set<nat>, ghost white: set<nat>) returns (n: nat)
      requires ImageOf(g, m, img) && Reading(g, m, State(), pending) && Unread(g, m, State(), white)
      requires r in m.memo && r < |g| && g[r].Array? && off == m.memo[r]
      modifies this
      ensures Reading(g, m, State(), pending) && Extends(old(State()), State())
      ensures Known(g, m, State(), r) && n == New(g, m, State(), r)
      decreases white, 0
    {
      hide ImageOf, Reading, Written, Unread, Extends, ArrayField, Same, U32, Half;
      ghost var q0 := State();
      if off in memo {
        ExtendsSelf(q0);
        return memo[off];
      }
      ImageParts(g, m, img);
      ArrayHeader(g, m, img, r, off);
      var raw := U32(img[off..off + 4]);
      var len := raw % LENGTH_LIMIT;
      var flags := raw / LENGTH_LIMIT;
      n := |heap|;
      var out := Array(seq(len, _ => Null), flags);
      heap := heap + [out];
      memo := memo[off := n];
      Opened(g, m, q0, State(), pending, r, out);
      assert |q0.memo| < MEMO_LIMIT;
      OneRead(g, m, q0, State(), white, r);
      HalfStart(g, m, State(), r, n);
      var i := 0;
      while i < len
        invariant 0 <= i <= len == |g[r].data| && Extends(q0, State())
        invariant Reading(g, m, State(), pending + {r}) && Unread(g, m, State(), white - {r})
        invariant Half(g, m, State(), r, n, i)
        decreases len - i
      {
        ArrayElementAt(g, m, img, r, off, i);
        ReadElement(U32(img[off + 4 + 4 * i..off + 8 + 4 * i]), r, i, n, q0, pending + {r}, white - {r});
        i := i + 1;
      }
      HalfDone(g, m, State(), r, n);
      Closed(g, m, State(), pending, r);
    }

    // One turn of its loop.
    method ReadElement(at: nat, ghost r: nat, i: nat, n: nat, ghost q0: Build, ghost pending: set<nat>, ghost white: set<nat>)
      requires ImageOf(g, m, img) && Reading(g, m, State(), pending) && Unread(g, m, State(), white)
      requires Half(g, m, State(), r, n, i) && i < |g[r].data| && r in pending && ValAt(m, g[r].data[i], at)
      requires Extends(q0, State()) && |q0.heap| <= n
      modifies this
      ensures Reading(g, m, State(), pending) && Unread(g, m, State(), white)
      ensures Half(g, m, State(), r, n, i + 1) && Extends(q0, State())
      decreases white, 2
    {
      hide ImageOf, Reading, Written, Unread, Extends, Same, ValAt, Half;
      ghost var q1 := State();
      HalfFacts(g, m, q1, r, n, i);
      ImageParts(g, m, img);
      FieldsOk(g, r);
      var v := ReadVal(at, g[r].data[i], pending, white);
      ghost var q2 := State();
      PlaceKept(g, m, q0, q1, q2, r);
      SlotKept(q1, q2, n);
      heap := heap[n := heap[n].(data := heap[n].data[i := v])];
      Filled(g, m, q2, State(), pending, r, heap[n]);
      StillUnreadSame(g, m, q2, State(), white);
      HalfMore(g, m, q1, q2, State(), r, n, i, v);
    }

    // readVal
    method ReadVal(off: nat, ghost v: Val, ghost pending: set<nat>, ghost white: set<nat>) returns (v': Val)
      requires ImageOf(g, m, img) && Reading(g, m, State(), pending) && Unread(g, m, State(), white)
      requires ValAt(m, v, off) && ValOk(g, v)
      modifies this
      ensures Reading(g, m, State(), pending) && Extends(old(State()), State()) && Unread(g, m, State(), white)
      ensures Same(g, m, State(), v, v')
      decreases white, 1
    {
      hide ImageOf, Reading, Written, Unread, Extends, Same, ValAt, ValBytes;
      ghost var q := State();
      ExtendsSelf(q);
      ValTag(g, m, img, v, off);
      TagMeans(g, m, img, v, off);
      var t := img[off];
      if t == TAG_NIL {
        v' := Null;
      } else if t == TAG_TRUE || t == TAG_FALSE {
        v' := Flag(t == TAG_TRUE);
      } else if t == TAG_INT8 {
        v' := Number(Signed(img[off + 1..off + 2]));
      } else if t == TAG_INT16 {
        v' := Number(Signed(img[off + 1..off + 3]));
      } else if t == TAG_INT32 {
        v' := Number(Signed(img[off + 1..off + 5]));
      } else if t == TAG_INT64 {
        v' := Number(Signed(img[off + 1..off + 9]));
      } else {
        RefOffset(g, m, img, v, off);
        v' := ReadRef(t, I24(img[off + 1..off + 4]), v, pending, white);
        StillUnread(g, m, q, State(), white);
        return;
      }
      PlainSame(g, m, State(), v);
    }

    // The second half of readVal: a value that refers to an object.
    method ReadRef(t: byte, valOff: nat, ghost v: Val, ghost pending: set<nat>, ghost white: set<nat>) returns (v': Val)
      requires ImageOf(g, m, img) && Reading(g, m, State(), pending) && Unread(g, m, State(), white)
      requires IsRef(v) && ValOk(g, v) && v.r in m.memo && t == TagOf(v) && valOff == m.memo[v.r]
      modifies this
      ensures Reading(g, m, State(), pending) && Extends(old(State()), State())
      ensures Same(g, m, State(), v, v')
      decreases white, 1, 0
    {
      hide ImageOf, Reading, Written, Unread, Extends;
      if t == TAG_ARRAY {
        var n := ReadArray(valOff, v.r, pending, white);
        v' := ArrayRef(n);
      } else if t == TAG_PAIR {
        var n := ReadPair(valOff, v.r, pending, white);
        v' := PairRef(n);
      } else if t == TAG_STRING || t == TAG_BUFFER {
        var n := ReadBuffer(valOff, v.r, pending);
        v' := if t == TAG_STRING then StrRef(n) else BufRef(n);
      } else {
        var n := ReadSymbol(valOff, v.r, pending);
        v' := if t == TAG_SYMBOL then SymRef(n) else KwRef(n);
      }
    }
  }

  // The first i elements of the array r, at n in the new heap, have been read.
  ghost predicate Half(g: Graph, m: Image, q: Build, r: nat, n: nat, i: nat) {
    && r < |g| && g[r].Array? && Known(g, m, q, r) && n == New(g, m, q, r) < |q.heap|
    && q.heap[n].Array? && q.heap[n].flags == g[r].flags && |q.heap[n].data| == |g[r].data|
    && forall j :: 0 <= j < i && j < |g[r].data| ==> Same(g, m, q, g[r].data[j], q.heap[n].data[j])
  }

  lemma HalfStart(g: Graph, m: Image, q: Build, r: nat, n: nat)
    requires r < |g| && g[r].Array? && Known(g, m, q, r) && n == New(g, m, q, r) < |q.heap|
    requires q.heap[n].Array? && q.heap[n].flags == g[r].flags && |q.heap[n].data| == |g[r].data|
    ensures Half(g, m, q, r, n, 0)
  {
  }

  lemma HalfFacts(g: Graph, m: Image, q: Build, r: nat, n: nat, i: nat)
    requires Half(g, m, q, r, n, i)
    ensures Known(g, m, q, r) && n == New(g, m, q, r) < |q.heap|
    ensures r < |g| && g[r].Array? && q.heap[n].Array? && |q.heap[n].data| == |g[r].data|
  {
  }

  lemma SlotKept(q: Build, q': Build, n: nat)
    requires Extends(q, q') && n < |q.heap|
    ensures n < |q'.heap| && q'.heap[n] == q.heap[n]
  {
    assert q'.heap[..|q.heap|][n] == q.heap[n];
  }

  lemma HalfMore(g: Graph, m: Image, q1: Build, q2: Build, q3: Build, r: nat, n: nat, i: nat, v: Val)
    requires Half(g, m, q1, r, n, i) && i < |g[r].data| && Finds(q1, q2) && n < |q2.heap| && q2.heap[n] == q1.heap[n]
    requires q3 == q2.(heap := q2.heap[n := q2.heap[n].(data := q2.heap[n].data[i := v])])
    requires Same(g, m, q2, g[r].data[i], v)
    ensures Half(g, m, q3, r, n, i + 1)
  {
    hide Same;
    StillKnown(g, m, q1, q2, r);
    StillKnown(g, m, q2, q3, r);
    forall j | 0 <= j < i + 1 ensures Same(g, m, q3, g[r].data[j], q3.heap[n].data[j]) {
      if j < i {
        SameKept(g, m, q1, q2, g[r].data[j], q1.heap[n].data[j]);
      }
      SameKept(g, m, q2, q3, g[r].data[j], q3.heap[n].data[j]);
    }
  }

  lemma HalfDone(g: Graph, m: Image, q: Build, r: nat, n: nat)
    requires r < |g| && g[r].Array? && Half(g, m, q, r, n, |g[r].data|)
    ensures Known(g, m, q, r) && n == New(g, m, q, r) < |q.heap| && ObjSame(g, m, q, g[r], q.heap[n])
  {
  }

  lemma ArrayHeader(g: Graph, m: Image, img: seq<byte>, r: nat, off: nat)
    requires ImageOf(g, m, img) && r in m.memo && r < |g| && g[r].Array? && off == m.memo[r]
    ensures off + 4 <= |img|
    ensures U32(img[off..off + 4]) % LENGTH_LIMIT == |g[r].data| && U32(img[off..off + 4]) / LENGTH_LIMIT == g[r].flags
  {
    hide Written, U32, Header, GraphOk;
    ObjIsAt(g, m, img, r);
    var Array(data, flags) := g[r];
    HeaderSize(|data|, flags);
    StandsIn(g, m, img, off, Header(|data|, flags));
    ArrayLength(g, m, img, r);
    HeaderRoundTrip(|data|, flags);
  }

  lemma ArrayLength(g: Graph, m: Image, img: seq<byte>, r: nat)
    requires ImageOf(g, m, img) && r < |g| && g[r].Array?
    ensures |g[r].data| < LENGTH_LIMIT && g[r].flags < 16
  {
    assert ObjOk(g, g[r]);
  }

  lemma ArrayElementAt(g: Graph, m: Image, img: seq<byte>, r: nat, off: nat, i: nat)
    requires ImageOf(g, m, img) && r in m.memo && r < |g| && g[r].Array? && off == m.memo[r] && i < |g[r].data|
    ensures off + 8 + 4 * i <= |img| && ValAt(m, g[r].data[i], U32(img[off + 4 + 4 * i..off + 8 + 4 * i]))
  {
    hide Written, U32, GraphOk, ArrayField, ValAt;
    ObjIsAt(g, m, img, r);
    ArrayFieldBytes(g, m, img, r, i, g[r].data[i], off + 4 + 4 * i);
  }

  lemma PlainSame(g: Graph, m: Image, q: Build, v: Val)
    requires !IsRef(v)
    ensures Same(g, m, q, v, v)
  {
  }

  // The tag determines what kind of value follows.
  lemma TagMeans(g: Graph, m: Image, img: seq<byte>, v: Val, off: nat)
    requires ImageOf(g, m, img) && ValAt(m, v, off) && off < |img| && img[off] == ValBytes(v, m.memo)[0] && ValOk(g, v)
    ensures img[off] == TAG_NIL <==> v.Null?
    ensures img[off] == TAG_TRUE || img[off] == TAG_FALSE <==> v.Flag?
    ensures v.Flag? ==> (img[off] == TAG_TRUE <==> v.b)
    ensures TAG_INT8 <= img[off] <= TAG_INT64 <==> v.Number?
    ensures v.Number? ==>
      var n := IntWidth(v.i);
      && (img[off] == TAG_INT8 <==> n == 1) && (img[off] == TAG_INT16 <==> n == 2)
      && (img[off] == TAG_INT32 <==> n == 4) && (img[off] == TAG_INT64 <==> n == 8)
      && off + 1 + n <= |img| && Signed(img[off + 1..off + 1 + n]) == v.i
    ensures IsRef(v) ==> img[off] == TagOf(v)
  {
    hide ImageOf, ValAt, Signed, LE, LE24;
    if v.Number? {
      NumberBytes(g, m, img, v.i, off);
    }
  }

  lemma ExtendsSelf(q: Build)
    ensures Extends(q, q)
  {
  }

  lemma ImageParts(g: Graph, m: Image, img: seq<byte>)
    requires ImageOf(g, m, img)
    ensures GraphOk(g) && Written(g, m, {}) && |m.memo| <= MEMO_LIMIT
  {
  }

  lemma NameParts(g: Graph, r: nat)
    requires GraphOk(g) && r < |g| && g[r].Name?
    ensures 0 !in g[r].text
  {
    assert ObjOk(g, g[r]);
  }

  lemma NullSame(g: Graph, m: Image, q: Build, v: Val)
    requires v.Null?
    ensures Same(g, m, q, v, Null)
  {
  }

  lemma StillUnreadSame(g: Graph, m: Image, q: Build, q': Build, white: set<nat>)
    requires Unread(g, m, q, white) && q'.memo == q.memo && q'.symbols == q.symbols
    ensures Unread(g, m, q', white)
  {
  }

  // After reading a field the object is still where it was, above what the
  // caller had.
  lemma PlaceKept(g: Graph, m: Image, q0: Build, q1: Build, q2: Build, r: nat)
    requires Extends(q0, q1) && Extends(q1, q2) && Known(g, m, q1, r)
    ensures Known(g, m, q2, r) && New(g, m, q2, r) == New(g, m, q1, r) && Extends(q0, q2) && Finds(q1, q2)
  {
    ExtendsTrans(q0, q1, q2);
  }

  lemma BufferBytes(g: Graph, m: Image, img: seq<byte>, r: nat, off: nat)
    requires ImageOf(g, m, img) && r in m.memo && r < |g| && g[r].Buffer? && off == m.memo[r]
    ensures var len := |g[r].bytes|;
            && off + 4 + len <= |img|
            && U32(img[off..off + 4]) % LENGTH_LIMIT == len
            && (U32(img[off..off + 4]) / LENGTH_LIMIT % 2 == 1 <==> g[r].immutable)
            && img[off + 4..off + 4 + len] == g[r].bytes
  {
    hide Written, GraphOk, U32, Header;
    ObjIsAt(g, m, img, r);
    var Buffer(bytes, immutable) := g[r];
    var h := Header(|bytes|, if immutable then 1 else 0);
    HeaderSize(|bytes|, if immutable then 1 else 0);
    StandsIn(g, m, img, off, h + bytes);
    assert img[off..off + 4] == img[off..off + |h + bytes|][..4] == h;
    assert img[off + 4..off + 4 + |bytes|] == img[off..off + |h + bytes|][4..] == bytes;
    BufferLength(g, r, img, m);
    HeaderRoundTrip(|bytes|, if immutable then 1 else 0);
  }

  lemma BufferLength(g: Graph, r: nat, img: seq<byte>, m: Image)
    requires ImageOf(g, m, img) && r < |g| && g[r].Buffer?
    ensures |g[r].bytes| < LENGTH_LIMIT
  {
    assert ObjOk(g, g[r]);
  }

  // ---- isomorphism

  ghost predicate ValCopied(v: Val, v': Val, f: map<nat, nat>) {
    if IsRef(v) then v.r in f && v' == Moved(v, f[v.r]) else v' == v
  }

  ghost predicate ObjCopied(o: Obj, o': Obj, f: map<nat, nat>) {
    match o
    case Cons(a, d) => o'.Cons? && ValCopied(a, o'.car, f) && ValCopied(d, o'.cdr, f)
    case Array(data, flags) =>
      o'.Array? && o'.flags == flags && |o'.data| == |data| &&
      forall i :: 0 <= i < |data| ==> ValCopied(data[i], o'.data[i], f)
    case _ => o' == o
  }

  // `f` maps the objects reachable from `root` one to one to their copies.
  ghost predicate Isomorphic(g: Graph, root: Val, h: seq<Obj>, root': Val, f: map<nat, nat>) {
    && ValCopied(root, root', f)
    && (forall r :: r in f ==> r < |g| && f[r] < |h| && ObjCopied(g[r], h[f[r]], f))
    && forall r, s :: r in f && s in f && f[r] == f[s] ==> r == s
  }

  ghost function Copies(g: Graph, m: Image, q: Build): map<nat, nat> {
    map r: nat | r < |g| && Known(g, m, q, r) :: New(g, m, q, r)
  }

  lemma CopiesAreIsomorphic(g: Graph, m: Image, q: Build, root: Val, root': Val)
    requires GraphOk(g) && Written(g, m, {}) && Reading(g, m, q, {}) && Same(g, m, q, root, root')
    ensures Isomorphic(g, root, q.heap, root', Copies(g, m, q))
  {
    hide GraphOk, Written;
    var f := Copies(g, m, q);
    forall r | r in f ensures r < |g| && f[r] < |q.heap| && ObjCopied(g[r], q.heap[f[r]], f) {
      assert ObjSame(g, m, q, g[r], q.heap[New(g, m, q, r)]);
    }
    forall r, s | r in f && s in f && f[r] == f[s] ensures r == s {
      if r != s {
        Elsewhere(g, m, q, r, s);
      }
    }
  }

  // Same shape: every path leads to the same kind of thing on both sides.
  lemma {:induction false} SameShape(g: Graph, v: Val, h: seq<Obj>, v': Val, f: map<nat, nat>, path: seq<nat>)
    requires ValCopied(v, v', f) && (forall r :: r in f ==> r < |g| && f[r] < |h| && ObjCopied(g[r], h[f[r]], f))
    ensures Follow(g, v, path).Some? <==> Follow(h, v', path).Some?
    ensures Follow(g, v, path).Some? ==> ValCopied(Follow(g, v, path).value, Follow(h, v', path).value, f)
    decreases |path|
  {
    if path != [] && IsRef(v) {
      assert ObjCopied(g[v.r], h[f[v.r]], f);
      match g[v.r]
      case Cons(a, d) =>
        SameShape(g, a, h, h[f[v.r]].car, f, path[1..]);
        SameShape(g, d, h, h[f[v.r]].cdr, f, path[1..]);
      case Array(data, _) =>
        if path[0] < |data| {
          SameShape(g, data[path[0]], h, h[f[v.r]].data[path[0]], f, path[1..]);
        }
      case _ =>
    }
  }

  // Same contents: at the end of a path stands the same constant, or an object
  // that holds the same name, the same bytes and flags, or as many elements.
  lemma SameContents(g: Graph, root: Val, h: seq<Obj>, root': Val, f: map<nat, nat>, path: seq<nat>)
    requires Isomorphic(g, root, h, root', f) && Follow(g, root, path).Some?
    ensures Follow(h, root', path).Some?
    ensures var v, v' := Follow(g, root, path).value, Follow(h, root', path).value;
            && (v.Null? || v.Flag? || v.Number? ==> v' == v)
            && (v.SymRef? <==> v'.SymRef?) && (v.KwRef? <==> v'.KwRef?) && (v.PairRef? <==> v'.PairRef?)
            && (v.ArrayRef? <==> v'.ArrayRef?) && (v.StrRef? <==> v'.StrRef?) && (v.BufRef? <==> v'.BufRef?)
            && (IsRef(v) ==> v.r < |g| && v'.r < |h| && ObjAlike(g[v.r], h[v'.r]))
  {
    hide Follow;
    SameShape(g, root, h, root', f, path);
    var v := Follow(g, root, path).value;
    if IsRef(v) {
      assert ObjCopied(g[v.r], h[f[v.r]], f);
    }
  }

  predicate ObjAlike(o: Obj, o': Obj) {
    && (o.Cons? <==> o'.Cons?)
    && (o.Name? <==> o'.Name?) && (o.Name? ==> o'.text == o.text)
    && (o.Buffer? <==> o'.Buffer?) && (o.Buffer? ==> o'.bytes == o.bytes && o'.immutable == o.immutable)
    && (o.Array? <==> o'.Array?) && (o.Array? ==> |o'.data| == |o.data| && o'.flags == o.flags)
  }

  // Same sharing: two paths meet in the copy exactly when they meet in the
  // original.
  lemma SameSharing(g: Graph, root: Val, h: seq<Obj>, root': Val, f: map<nat, nat>, p: seq<nat>, p': seq<nat>)
    requires Isomorphic(g, root, h, root', f)
    requires Follow(g, root, p).Some? && Follow(g, root, p').Some?
    requires IsRef(Follow(g, root, p).value) && IsRef(Follow(g, root, p').value)
    ensures Follow(h, root', p).Some? && Follow(h, root', p').Some?
    ensures IsRef(Follow(h, root', p).value) && IsRef(Follow(h, root', p').value)
    ensures Follow(h, root', p).value.r == Follow(h, root', p').value.r <==>
            Follow(g, root, p).value.r == Follow(g, root, p').value.r
  {
    hide Follow, ObjCopied;
    SameShape(g, root, h, root', f, p);
    SameShape(g, root, h, root', f, p');
  }

  // lnfSerialize and then lnfDeserialize.  Every graph comes back, unless more
  // objects are reachable from the root than the memo map holds or three-byte
  // offsets cannot address the image; both can be told from the graph alone.
  method RoundTrip(g: Graph, root: Val, store: seq<Obj>, interned: map<seq<byte>, nat>)
    returns (image: Option<seq<byte>>, copy: Option<Val>, heap: seq<Obj>, symbols: map<seq<byte>, nat>,
             ghost m: Image, ghost f: map<nat, nat>)
    requires GraphOk(g) && ValOk(g, root)
    requires forall t :: t in interned ==> interned[t] < |store| && store[interned[t]] == Name(t)
    ensures image.Some? <==> |Reach(g, root)| <= MEMO_LIMIT
    ensures image.Some? ==> Written(g, m, {}) && ValAt(m, root, 0) && image.value == MAGIC + m.bytes[..m.end]
    ensures image.Some? ==> |image.value| == |MAGIC| + ImageSize(g, root)
    ensures copy.Some? <==> image.Some? && ImageSize(g, root) <= NO_OFFSET
    ensures copy.Some? ==> Isomorphic(g, root, heap, copy.value, f)
    ensures copy.Some? ==> store <= heap
    ensures copy.Some? ==> forall r, t :: r in f && g[r] == Name(t) && t in interned ==> f[r] == interned[t]
    ensures copy.Some? ==> Table(heap, symbols) && interned.Items <= symbols.Items
    ensures copy.Some? && OneEach(store, interned) ==> OneEach(heap, symbols)
    ensures copy.None? ==> heap == store && symbols == interned
  {
    hide GraphOk, Written, ValAt, Reading, Isomorphic, Reach, ImageSize;
    f := map[];
    image, m := WriteImage(g, root);
    if image.None? {
      return image, None, store, interned, m, f;
    }
    if |image.value| - 4 > NO_OFFSET {
      return image, None, store, interned, m, f;
    }
    assert image.value[..4] == MAGIC;        // readImage accepts the prefix
    assert image.value[4..] == m.bytes[..m.end] by { EndInBytes(g, m); }
    var reader := new Reader(image.value[4..], store, interned, g, m);
    NothingRead(g, m, reader.State());
    assert ImageOf(g, m, reader.img) by { EndInBytes(g, m); }
    var v := reader.ReadVal(0, root, {}, set r: nat | r < |g| && g[r] == g[r]);
    CopiesAreIsomorphic(g, m, reader.State(), root, v);
    f := Copies(g, m, reader.State());
    heap, symbols := reader.heap, reader.symbols;
    assert heap[..|store|] == store;
    ReadingInterns(g, m, reader.State());
    SymbolsRead(g, m, reader.State(), store, interned);
    return image, Some(v), heap, symbols, m, f;
  }

  // The table finds the symbol of each of its names,
  ghost predicate Table(h: seq<Obj>, symbols: map<seq<byte>, nat>) {
    forall t :: t in symbols ==> symbols[t] < |h| && h[symbols[t]] == Name(t)
  }

  // and there is no symbol but those it finds.
  ghost predicate OneEach(h: seq<Obj>, symbols: map<seq<byte>, nat>) {
    forall i :: 0 <= i < |h| && h[i].Name? ==> IsInterned(h[i], i, symbols)
  }

  // So no two symbols have the same name.
  lemma OneSymbolPerName(h: seq<Obj>, symbols: map<seq<byte>, nat>, i: nat, j: nat)
    requires OneEach(h, symbols) && i < |h| && j < |h| && h[i].Name? && h[j] == h[i]
    ensures i == j
  {
    assert IsInterned(h[i], i, symbols) && IsInterned(h[j], j, symbols);
  }

  lemma SymbolsRead(g: Graph, m: Image, q: Build, store: seq<Obj>, interned: map<seq<byte>, nat>)
    requires Interned(q) && Extends(Build(store, map[], interned, |store|), q) && q.base == |store|
    ensures forall r, t :: r in Copies(g, m, q) && g[r] == Name(t) && t in interned ==> Copies(g, m, q)[r] == interned[t]
    ensures Table(q.heap, q.symbols) && interned.Items <= q.symbols.Items
    ensures OneEach(store, interned) ==> OneEach(q.heap, q.symbols)
  {
    if OneEach(store, interned) {
      forall i | 0 <= i < |q.heap| && q.heap[i].Name? ensures IsInterned(q.heap[i], i, q.symbols) {
        if i < |store| {
          assert q.heap[..|store|][i] == store[i];
          assert IsInterned(store[i], i, interned);
        }
      }
    }
  }

  lemma ReadingInterns(g: Graph, m: Image, q: Build)
    requires Reading(g, m, q, {})
    ensures Interned(q)
  {
  }

  lemma EndInBytes(g: Graph, m: Image)
    requires Written(g, m, {})
    ensures m.end <= |m.bytes|
  {
  }

  lemma NothingRead(g: Graph, m: Image, q: Build)
    requires q.memo == map[] && Interned(q)
    ensures Reading(g, m, q, {})
  {
  }
}
