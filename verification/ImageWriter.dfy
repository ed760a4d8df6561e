// The image writer: depth first, appending records, remembering their offsets
// and filling in their fields after the recursive calls.
module ImageWriter {
  import opened Values
  import opened ImageFormat

  // Only objects in `reach` are ever met, and those without an offset are in
  // `white`.
  ghost predicate AllNew(g: Graph, reach: set<nat>, m: Image, white: set<nat>) {
    && SelfContained(g, reach) && m.memo.Keys <= reach
    && forall r :: r in reach && r !in m.memo ==> r in white
  }

  // What a writing step promises: `cost` bytes besides the objects entered.
  // None is the exit on a full memo map.
  ghost predicate Wrote(g: Graph, reach: set<nat>, m: Image, m': Image, pending: set<nat>, cost: nat, off: Option<nat>) {
    if off.None? then |reach| > MEMO_LIMIT
    else
      && Written(g, m', pending) && Continues(m, m')
      && m'.memo.Keys <= reach && Balance(g, m') == Balance(g, m) + cost
  }

  lemma StillNew(g: Graph, reach: set<nat>, m: Image, m': Image, white: set<nat>)
    requires AllNew(g, reach, m, white) && Continues(m, m') && m'.memo.Keys <= reach
    ensures AllNew(g, reach, m', white)
  {
    hide SelfContained;
  }

  lemma InReach(g: Graph, reach: set<nat>, m: Image, white: set<nat>)
    requires AllNew(g, reach, m, white)
    ensures SelfContained(g, reach) && m.memo.Keys <= reach
  {
  }

  lemma StandsJoin(m: Image, off: nat, a: seq<byte>, b: seq<byte>)
    requires Stands(m, off, a) && Stands(m, off + |a|, b)
    ensures Stands(m, off, a + b)
  {
    forall k | 0 <= k < |a + b| ensures m.bytes[off + k] == (a + b)[k] && off + k in m.settled {
      if k < |a| {
        assert m.bytes[off + k] == a[k] && off + k in m.settled;
      } else {
        var j := k - |a|;
        assert m.bytes[off + |a| + j] == b[j] && off + |a| + j in m.settled;
      }
    }
  }

  // More objects than offsets: the memo map is not the limit.
  lemma MemoBound(reach: set<nat>, m: Image, r: nat)
    requires m.memo.Keys <= reach && r in reach && r !in m.memo
    ensures |m.memo| < |reach|
  {
    SubsetSize(m.memo.Keys + {r}, reach);
    assert |m.memo| == |m.memo.Keys|;
  }

  lemma {:induction false} SubsetSize(s: set<nat>, t: set<nat>)
    requires s <= t
    ensures |s| <= |t|
  {
    if s != {} {
      var x :| x in s;
      SubsetSize(s - {x}, t - {x});
    }
  }

  lemma EnteredBalance(g: Graph, m: Image, m': Image, r: nat, size: nat)
    requires r < |g| && r !in m.memo && m'.memo.Keys == m.memo.Keys + {r} && m'.end == m.end + size
    ensures Balance(g, m') == Balance(g, m) + size - ObjSize(g[r])
  {
    WeightAdd(g, m.memo.Keys, r, |g|);
  }

  lemma EnterStep(g: Graph, m0: Image, m1: Image, m': Image, pending: set<nat>, r: nat, size: nat)
    requires Written(g, m1, pending) && Continues(m0, m1) && m1 == m0.(bytes := m1.bytes)
    requires r < |g| && r !in m0.memo && m0.end > 0 && size > 0 && |m0.memo| < MEMO_LIMIT && m0.end + size <= |m1.bytes|
    requires m' == m1.(end := m1.end + size, memo := m1.memo[r := m1.end])
    ensures Written(g, m', pending + {r}) && Continues(m0, m') && Reserved(m', m0.end, size) && NoFields(m', r)
    ensures Balance(g, m') == Balance(g, m0) + size - ObjSize(g[r])
  {
    hide Written, Continues, Balance, Reserved;
    Entered(g, m1, m', pending, r, size);
    ContinuesTrans(m0, m1, m');
    assert m'.memo.Keys == m0.memo.Keys + {r};
    EnteredBalance(g, m0, m', r, size);
  }

  lemma SameBalance(g: Graph, m: Image, m': Image)
    requires m'.memo == m.memo
    ensures Balance(g, m') - Balance(g, m) == m'.end - m.end
  {
  }

  class Writer {
    const graph: Graph
    ghost const reach: set<nat>     // the objects to be written
    var start: seq<byte>
    var curOff: nat
    var memo: map<nat, nat>
    ghost var fields: map<(nat, nat), nat>
    ghost var settled: set<nat>

    ghost function State(): Image
      reads this
    {
      Image(start, curOff, memo, fields, settled)
    }

    constructor (g: Graph, ghost reach: set<nat>)
      ensures graph == g && this.reach == reach && State() == Image([], 0, map[], map[], {})
    {
      graph, start, curOff, memo, fields, settled := g, [], 0, map[], map[], {};
      this.reach := reach;
    }

    // ctxRealloc; the new bytes are arbitrary.
    method Realloc(n: nat, ghost pending: set<nat>)
      requires Written(graph, State(), pending)
      modifies this`start
      ensures Written(graph, State(), pending) && Continues(old(State()), State())
      ensures curOff + n <= |start|
    {
      ghost var m := State();
      if |start| - curOff <= n {
        var size := |start| + n;
        if size % 0x100 != 0 {
          size := size + (0x100 - size % 0x100);
        }
        ghost var zeros: seq<byte> := seq(size - |start|, _ => 0);
        assert |zeros| == size - |start|;
        var fill: seq<byte> :| |fill| == size - |start|;
        start := start + fill;
      }
      Reallocated(graph, m, State(), pending);
    }

    // memcpy of bytes that will not change any more.
    method Put(off: nat, bs: seq<byte>, ghost pending: set<nat>)
      requires Written(graph, State(), pending) && Reserved(State(), off, |bs|)
      modifies this`start, this`settled
      ensures State() == old(State()).(bytes := Splice(old(start), off, bs), settled := old(settled) + Span(off, |bs|))
      ensures Written(graph, State(), pending) && Keeps(old(State()), State()) && Stands(State(), off, bs)
      ensures forall m0 :: Continues(m0, old(State())) && m0.end <= off ==> Continues(m0, State())
    {
      ghost var m := State();
      var k := 0;
      while k < |bs|
        invariant 0 <= k <= |bs| && |start| == |m.bytes| && settled == m.settled
        invariant forall j :: 0 <= j < |start| ==> start[j] == if off <= j < off + k then bs[j - off] else m.bytes[j]
      {
        start := start[off + k := bs[k]];
        k := k + 1;
      }
      assert start == Splice(m.bytes, off, bs);
      settled := settled + Span(off, |bs|);
      Settled(graph, m, State(), pending, off, bs);
    }

    // Reserves a record of `size` bytes at the end and remembers its offset.
    method Enter(r: nat, size: nat, ghost pending: set<nat>) returns (off: Option<nat>)
      requires Written(graph, State(), pending) && r < |graph| && r !in memo && curOff > 0 && size > 0
      requires memo.Keys <= reach && r in reach
      modifies this
      ensures off.None? ==> |reach| > MEMO_LIMIT
      ensures off.Some? ==> Written(graph, State(), pending + {r}) && Continues(old(State()), State())
      ensures off.Some? ==> off.value == old(curOff) && memo == old(memo)[r := off.value] && curOff == off.value + size
      ensures off.Some? ==> Reserved(State(), off.value, size) && NoFields(State(), r)
      ensures off.Some? ==> Balance(graph, State()) == Balance(graph, old(State())) + size - ObjSize(graph[r])
    {
      hide Written, Continues, Balance, Reserved, NoFields;
      ghost var m0 := State();
      Realloc(size, pending);
      ghost var m1 := State();
      if |memo| >= MEMO_LIMIT {
        MemoBound(reach, m1, r);
        return None;
      }
      off := Some(curOff);
      memo := memo[r := curOff];
      curOff := curOff + size;
      EnterStep(graph, m0, m1, State(), pending, r, size);
    }

    // ctxAddSymbol
    method AddSymbol(r: nat, ghost pending: set<nat>) returns (off: Option<nat>)
      requires Written(graph, State(), pending) && GraphOk(graph) && r < |graph| && graph[r].Name? && curOff > 0
      requires memo.Keys <= reach && r in reach
      modifies this
      ensures Wrote(graph, reach, old(State()), State(), pending, 0, off)
      ensures off.Some? ==> r in memo && off.value == memo[r]
    {
      hide Written, Continues, Stands, Weight;
      ghost var m0 := State();
      if r in memo {
        NothingNew(graph, m0, pending);
        return Some(memo[r]);
      }
      WrittenMemo(graph, m0, pending);
      var text := graph[r].text;
      off := Enter(r, |text| + 1, pending);
      if off.Some? {
        Put(off.value, text + [0], pending + {r});
        Completed(graph, State(), pending, r);
      }
    }

    // ctxAddBuffer
    method AddBuffer(r: nat, ghost pending: set<nat>) returns (off: Option<nat>)
      requires Written(graph, State(), pending) && GraphOk(graph) && r < |graph| && graph[r].Buffer? && curOff > 0
      requires memo.Keys <= reach && r in reach
      modifies this
      ensures Wrote(graph, reach, old(State()), State(), pending, 0, off)
      ensures off.Some? ==> r in memo && off.value == memo[r]
    {
      hide Written, Continues, Stands, Header, Weight;
      ghost var m0 := State();
      if r in memo {
        NothingNew(graph, m0, pending);
        return Some(memo[r]);
      }
      var Buffer(bytes, immutable) := graph[r];
      HeaderSize(|bytes|, if immutable then 1 else 0);
      off := Enter(r, 4 + |bytes|, pending);
      if off.Some? {
        Put(off.value, Header(|bytes|, if immutable then 1 else 0) + bytes, pending + {r});
        Completed(graph, State(), pending, r);
      }
    }

    // Space for a value at the end.
    method Bump(size: nat, ghost pending: set<nat>)
      requires Written(graph, State(), pending) && size <= 16
      modifies this
      ensures Written(graph, State(), pending) && Continues(old(State()), State())
      ensures curOff == old(curOff) + size && memo == old(memo) && fields == old(fields)
      ensures Reserved(State(), old(curOff), size)
    {
      ghost var m0 := State();
      Realloc(16, pending);
      ghost var m1 := State();
      curOff := curOff + size;
      Bumped(graph, m1, State(), pending, size);
      ContinuesTrans(m0, m1, State());
    }

    ghost method Record(r: nat, i: nat, off: nat, pending: set<nat>)
      requires Written(graph, State(), pending) && r in memo && (r, i) !in fields
      modifies this`fields
      ensures State() == old(State()).(fields := old(fields)[(r, i) := off])
      ensures Written(graph, State(), pending) && Keeps(old(State()), State())
      ensures forall m0 :: Continues(m0, old(State())) && r !in m0.memo ==> Continues(m0, State())
    {
      ghost var m := State();
      fields := fields[(r, i) := off];
      Recorded(graph, m, State(), pending, r, i, off);
    }

    // ctxAddPair
    method AddPair(r: nat, ghost pending: set<nat>, ghost white: set<nat>) returns (off: Option<nat>)
      requires Written(graph, State(), pending) && GraphOk(graph) && r < |graph| && graph[r].Cons? && curOff > 0
      requires r in reach && AllNew(graph, reach, State(), white)
      modifies this
      ensures Wrote(graph, reach, old(State()), State(), pending, 0, off)
      ensures off.Some? ==> r in memo && off.value == memo[r]
      decreases white, 0
    {
      if r in memo {
        NothingNew(graph, State(), pending);
        return Some(memo[r]);
      }
      off := NewPair(r, pending, white);
    }

    method NewPair(r: nat, ghost pending: set<nat>, ghost white: set<nat>) returns (off: Option<nat>)
      requires Written(graph, State(), pending) && GraphOk(graph) && r < |graph| && graph[r].Cons? && curOff > 0
      requires r in reach && AllNew(graph, reach, State(), white) && r !in memo
      modifies this
      ensures Wrote(graph, reach, old(State()), State(), pending, 0, off)
      ensures off.Some? ==> r in memo && off.value == memo[r]
      decreases white, 0, 0
    {
      hide Written, Continues, Stands, Keeps, Reserved, AllNew, ValAt, PairField, InField, AfterField, ObjAt, GraphOk, ValOk,
           Balance, ValIn, PairFieldSize;
      ghost var m0 := State();
      FieldsOk(graph, r);
      FieldsIn(graph, reach, m0, white, r);
      off := EnterPair(r, pending, white);
      if off.None? {
        return;
      }
      ghost var m1 := State();
      var Cons(car, cdr) := graph[r];
      var ok := AddPairField(r, 0, car, off.value, m0, pending + {r}, white - {r});
      if !ok {
        return None;
      }
      ghost var m2 := State();
      NextField(m1, m2, r, 0, off.value, 3, m0, 1, off.value + 3, 3);
      FieldFacts(m1, m2, r, 0, off.value, 3, m0);
      ok := AddPairField(r, 1, cdr, off.value + 3, m0, pending + {r}, white - {r});
      if !ok {
        return None;
      }
      FieldFacts(m2, State(), r, 1, off.value + 3, 3, m0);
      PairFieldKept(m2, State(), r, 0, car, off.value);
      PairDone(State(), r, car, cdr, off.value);
      Completed(graph, State(), pending, r);
      InReach(graph, reach, State(), white - {r});
    }

    method EnterPair(r: nat, ghost pending: set<nat>, ghost white: set<nat>) returns (off: Option<nat>)
      requires Written(graph, State(), pending) && r < |graph| && graph[r].Cons? && curOff > 0
      requires r in reach && AllNew(graph, reach, State(), white) && r !in memo
      modifies this
      ensures off.None? ==> |reach| > MEMO_LIMIT
      ensures off.Some? ==> Written(graph, State(), pending + {r}) && AllNew(graph, reach, State(), white - {r}) && r in white
      ensures off.Some? ==> r in memo && memo[r] == off.value
      ensures off.Some? ==> PairOpen(State(), r, off.value, old(State()))
      ensures off.Some? ==> Balance(graph, State()) == Balance(graph, old(State())) + 8 - ObjSize(graph[r])
    {
      hide Written, Continues, AllNew, Balance, Reserved, NoFields, PairOpen, ObjSize;
      ghost var m0 := State();
      InReach(graph, reach, m0, white);
      off := Enter(r, 8, pending);
      if off.None? {
        return;
      }
      ghost var m1 := State();
      assert m1.memo.Keys == m0.memo.Keys + {r};
      Entering(graph, reach, m0, m1, white, r);
      PairStart(m1, r, off.value, m0);
    }

    // A car or cdr: the value, then its offset in the record.
    method AddPairField(r: nat, i: nat, v: Val, off: nat, ghost m0: Image, ghost pending: set<nat>, ghost white: set<nat>)
      returns (ok: bool)
      requires InField(State(), r, i, off, 3, m0) && ValOk(graph, v) && ValIn(v, reach)
      requires Written(graph, State(), pending) && GraphOk(graph) && AllNew(graph, reach, State(), white)
      modifies this
      ensures !ok ==> |reach| > MEMO_LIMIT
      ensures ok ==> Written(graph, State(), pending) && AllNew(graph, reach, State(), white)
      ensures ok ==> PairField(State(), r, i, v, off) && AfterField(old(State()), State(), r, i, off, 3, m0)
      ensures ok ==> Balance(graph, State()) == Balance(graph, old(State())) + PairFieldSize(v)
      decreases white, 5
    {
      hide Written, Continues, Stands, Keeps, Reserved, AllNew, ValAt, InField, AfterField, Balance, ValIn, ValSize;
      ghost var m1 := State();
      InFieldFacts(m1, r, i, off, 3, m0);
      if v.Null? {
        Put(off, LE24(-1), pending);
        SameBalance(graph, m1, State());
        StillNewSame(graph, reach, m1, State(), white);
        FieldEmpty(m1, State(), r, i, off, m0, LE24(-1));
        return true;
      }
      var o := AddField(r, i, v, off, 3, m0, pending, white);
      if o.None? {
        return false;
      }
      ghost var m3 := State();
      Put(off, LE24(o.value), pending);
      SameBalance(graph, m3, State());
      ValKept(m3, State(), v, o.value);
      StillNewSame(graph, reach, m3, State(), white);
      FieldDone(m1, m3, State(), r, i, off, 3, m0, LE24(o.value));
      return true;
    }

    // The value of a field, before its offset is stored in the record.
    method AddField(r: nat, i: nat, v: Val, off: nat, width: nat, ghost m0: Image, ghost pending: set<nat>, ghost white: set<nat>)
      returns (o: Option<nat>)
      requires InField(State(), r, i, off, width, m0) && ValOk(graph, v) && ValIn(v, reach)
      requires Written(graph, State(), pending) && GraphOk(graph) && AllNew(graph, reach, State(), white)
      modifies this
      ensures o.None? ==> |reach| > MEMO_LIMIT
      ensures o.Some? ==> Written(graph, State(), pending) && AllNew(graph, reach, State(), white)
      ensures o.Some? ==> (r, i) in fields && fields[(r, i)] == o.value && ValAt(State(), v, o.value)
      ensures o.Some? ==> Midway(old(State()), State(), r, i, off, width, m0)
      ensures o.Some? ==> Balance(graph, State()) == Balance(graph, old(State())) + ValSize(v)
      decreases white, 4
    {
      hide Written, Continues, Stands, Keeps, Reserved, AllNew, ValAt, InField, Midway, Balance, ValIn, ValSize;
      ghost var m1 := State();
      o := AddVal(v, pending, white);
      if o.None? {
        return;
      }
      ghost var m2 := State();
      StillIn(m1, m2, r, i, off, width, m0);
      InFieldFacts(m2, r, i, off, width, m0);
      Record(r, i, o.value, pending);
      SameBalance(graph, m2, State());
      ValKept(m2, State(), v, o.value);
      StillNewSame(graph, reach, m2, State(), white);
      MidwayIs(graph, m1, m2, State(), r, i, off, width, m0, pending, o.value);
    }

    // ctxAddArray
    method AddArray(r: nat, ghost pending: set<nat>, ghost white: set<nat>) returns (off: Option<nat>)
      requires Written(graph, State(), pending) && GraphOk(graph) && r < |graph| && graph[r].Array? && curOff > 0
      requires r in reach && AllNew(graph, reach, State(), white)
      modifies this
      ensures Wrote(graph, reach, old(State()), State(), pending, 0, off)
      ensures off.Some? ==> r in memo && off.value == memo[r]
      decreases white, 0
    {
      if r in memo {
        NothingNew(graph, State(), pending);
        return Some(memo[r]);
      }
      off := NewArray(r, pending, white);
    }

    method NewArray(r: nat, ghost pending: set<nat>, ghost white: set<nat>) returns (off: Option<nat>)
      requires Written(graph, State(), pending) && GraphOk(graph) && r < |graph| && graph[r].Array? && curOff > 0
      requires r in reach && AllNew(graph, reach, State(), white) && r !in memo
      modifies this
      ensures Wrote(graph, reach, old(State()), State(), pending, 0, off)
      ensures off.Some? ==> r in memo && off.value == memo[r]
      decreases white, 0, 0
    {
      hide Written, Continues, Stands, Keeps, Reserved, AllNew, ValAt, ArrayField, InField, AfterField, Header, Elements,
           ObjAt, GraphOk, ValOk, Balance, ValIn, ValSize, ValSizes;
      ghost var m0 := State();
      FieldsOk(graph, r);
      FieldsIn(graph, reach, m0, white, r);
      var Array(data, flags) := graph[r];
      off := EnterArray(r, pending, white);
      if off.None? {
        return;
      }
      var i := 0;
      NoSizes(data);
      while i < |data|
        invariant 0 <= i <= |data| && r in memo && memo[r] == off.value
        invariant Balance(graph, State()) == Balance(graph, m0) + 4 + 4 * |data| + ValSizes(data[..i]) - ObjSize(graph[r])
        invariant Written(graph, State(), pending + {r}) && AllNew(graph, reach, State(), white - {r})
        invariant Elements(State(), r, data, flags, off.value, i, m0)
        decreases |data| - i
      {
        var ok := AddElement(r, i, data, flags, off.value, m0, pending + {r}, white - {r});
        if !ok {
          return None;
        }
        ElementSizes(data, i);
        i := i + 1;
      }
      assert data[..i] == data;
      InReach(graph, reach, State(), white - {r});
      ElementsDone(State(), r, data, flags, off.value, m0);
      Completed(graph, State(), pending, r);
    }

    // The record and its header.
    method EnterArray(r: nat, ghost pending: set<nat>, ghost white: set<nat>) returns (off: Option<nat>)
      requires Written(graph, State(), pending) && r < |graph| && graph[r].Array? && curOff > 0
      requires r in reach && AllNew(graph, reach, State(), white) && r !in memo
      modifies this
      ensures off.None? ==> |reach| > MEMO_LIMIT
      ensures off.Some? ==> Written(graph, State(), pending + {r}) && AllNew(graph, reach, State(), white - {r}) && r in white
      ensures off.Some? ==> r in memo && memo[r] == off.value
      ensures off.Some? ==> Elements(State(), r, graph[r].data, graph[r].flags, off.value, 0, old(State()))
      ensures off.Some? ==> Balance(graph, State()) == Balance(graph, old(State())) + 4 + 4 * |graph[r].data| - ObjSize(graph[r])
    {
      hide Written, Continues, Stands, Keeps, Reserved, AllNew, Header, Elements, NoFields, Balance, ObjSize;
      InReach(graph, reach, State(), white);
      ghost var m0 := State();
      var Array(data, flags) := graph[r];
      var size := 4 + 4 * |data|;
      off := Enter(r, size, pending);
      if off.None? {
        return;
      }
      ghost var m1 := State();
      Entering(graph, reach, m0, m1, white, r);
      HeaderSize(|data|, flags);
      ReservedPart(m1, off.value, size, 0, 4);
      Put(off.value, Header(|data|, flags), pending + {r});
      SameBalance(graph, m1, State());
      HeaderWritten(m0, m1, State(), r, off.value, data, flags);
      StillNewSame(graph, reach, m1, State(), white - {r});
    }

    // One turn of its loop.
    method AddElement(r: nat, i: nat, data: seq<Val>, flags: nat, c: nat, ghost m0: Image, ghost pending: set<nat>, ghost white: set<nat>)
      returns (ok: bool)
      requires Written(graph, State(), pending) && GraphOk(graph) && AllNew(graph, reach, State(), white)
      requires Elements(State(), r, data, flags, c, i, m0) && i < |data| && ValOk(graph, data[i]) && ValIn(data[i], reach)
      requires r in memo && memo[r] == c && r in pending
      modifies this
      ensures !ok ==> |reach| > MEMO_LIMIT
      ensures ok ==> Written(graph, State(), pending) && AllNew(graph, reach, State(), white)
      ensures ok ==> Elements(State(), r, data, flags, c, i + 1, m0) && r in memo && memo[r] == c
      ensures ok ==> Balance(graph, State()) == Balance(graph, old(State())) + ValSize(data[i])
      decreases white, 5
    {
      hide Written, Continues, Stands, Keeps, Reserved, AllNew, ValAt, InField, AfterField, Elements, Midway, Balance, ValIn,
           ValSize;
      ghost var m3 := State();
      ElementStart(m3, r, data, flags, c, i, m0);
      var o := AddField(r, i, data[i], c + 4 + 4 * i, 4, m0, pending, white);
      if o.None? {
        return false;
      }
      ghost var m4 := State();
      MidwayFacts(m3, m4, r, i, c + 4 + 4 * i, 4, m0);
      Put(c + 4 + 4 * i, LE(o.value, 4), pending);
      SameBalance(graph, m4, State());
      ValKept(m4, State(), data[i], o.value);
      StillNewSame(graph, reach, m4, State(), white);
      FieldDone(m3, m4, State(), r, i, c + 4 + 4 * i, 4, m0, LE(o.value, 4));
      FieldFacts(m3, State(), r, i, c + 4 + 4 * i, 4, m0);
      ElementDone(m3, State(), r, data, flags, c, i, m0);
      return true;
    }

    // ctxAddVal: the tag, and then a number or the offset of an object.
    method AddVal(v: Val, ghost pending: set<nat>, ghost white: set<nat>) returns (off: Option<nat>)
      requires Written(graph, State(), pending) && GraphOk(graph) && ValOk(graph, v) && AllNew(graph, reach, State(), white)
      requires ValIn(v, reach)
      modifies this
      ensures Wrote(graph, reach, old(State()), State(), pending, ValSize(v), off)
      ensures off.Some? ==> off.value == old(curOff) < curOff && ValAt(State(), v, off.value) && AllNew(graph, reach, State(), white)
      decreases white, 3
    {
      hide Written, Continues, AllNew, ValAt, GraphOk, Balance;
      if IsRef(v) {
        off := AddRef(v, pending, white);
      } else {
        var c := AddPlain(v, pending, white);
        InReach(graph, reach, State(), white);
        off := Some(c);
      }
    }

    method AddRef(v: Val, ghost pending: set<nat>, ghost white: set<nat>) returns (off: Option<nat>)
      requires Written(graph, State(), pending) && GraphOk(graph) && ValOk(graph, v) && AllNew(graph, reach, State(), white)
      requires IsRef(v) && ValIn(v, reach)
      modifies this
      ensures Wrote(graph, reach, old(State()), State(), pending, ValSize(v), off)
      ensures off.Some? ==> off.value == old(curOff) < curOff && ValAt(State(), v, off.value) && AllNew(graph, reach, State(), white)
      decreases white, 2
    {
      hide Written, Continues, Stands, Keeps, Reserved, AllNew, ValOk, GraphOk, ValBytes, TagOf, LE24, Splice, Balance, ValSize;
      ghost var m0 := State();
      var c := AddTag(v, pending, white);
      ghost var m2 := State();
      var o := AddObject(v, pending, white);
      if o.None? {
        return None;
      }
      ghost var m3 := State();
      AfterObject(graph, m0, m2, m3, pending, c, [TagOf(v)]);
      OffsetSize(o.value);
      Put(c + 1, LE24(o.value), pending);
      SameBalance(graph, m3, State());
      StandsKept(m3, State(), c, [TagOf(v)]);
      StandsJoin(State(), c, [TagOf(v)], LE24(o.value));
      RefBytes(v, memo);
      StillNew(graph, reach, m0, State(), white);
      return Some(c);
    }

    // Space for a reference, and its tag.
    method AddTag(v: Val, ghost pending: set<nat>, ghost white: set<nat>) returns (c: nat)
      requires Written(graph, State(), pending) && AllNew(graph, reach, State(), white) && IsRef(v)
      modifies this
      ensures Written(graph, State(), pending) && Continues(old(State()), State()) && AllNew(graph, reach, State(), white)
      ensures c == old(curOff) < curOff && Stands(State(), c, [TagOf(v)]) && Reserved(State(), c + 1, 3)
      ensures Balance(graph, State()) == Balance(graph, old(State())) + ValSize(v)
    {
      hide Written, Continues, Stands, Keeps, Reserved, AllNew, TagOf, Splice, Balance;
      InReach(graph, reach, State(), white);
      ghost var m0 := State();
      c := curOff;
      var size := if v.ArrayRef? then 5 else 4;
      Bump(size, pending);
      ghost var m1 := State();
      SameBalance(graph, m0, m1);
      ReservedPart(m1, c, size, 0, 1);
      ReservedPart(m1, c, size, 1, 3);
      Put(c, [TagOf(v)], pending);
      SameBalance(graph, m1, State());
      StillNew(graph, reach, m0, State(), white);
      ReservedBeside(m1, State(), c, [TagOf(v)], c + 1, 3);
    }

    // Values without an object.
    method AddPlain(v: Val, ghost pending: set<nat>, ghost white: set<nat>) returns (c: nat)
      requires Written(graph, State(), pending) && !IsRef(v) && AllNew(graph, reach, State(), white)
      modifies this
      ensures Written(graph, State(), pending) && Continues(old(State()), State())
      ensures c == old(curOff) < curOff && ValAt(State(), v, c) && AllNew(graph, reach, State(), white)
      ensures Balance(graph, State()) == Balance(graph, old(State())) + ValSize(v)
    {
      hide Written, Continues, Stands, Keeps, Reserved, AllNew, Balance;
      InReach(graph, reach, State(), white);
      ghost var m0 := State();
      c := curOff;
      var bs := ValBytes(v, map[]);
      PlainSize(v);
      Bump(|bs|, pending);
      Put(c, bs, pending);
      SameBalance(graph, m0, State());
      StillNew(graph, reach, m0, State(), white);
    }

    method AddObject(v: Val, ghost pending: set<nat>, ghost white: set<nat>) returns (off: Option<nat>)
      requires Written(graph, State(), pending) && GraphOk(graph) && ValOk(graph, v) && IsRef(v) && curOff > 0
      requires v.r in reach && AllNew(graph, reach, State(), white)
      modifies this
      ensures Wrote(graph, reach, old(State()), State(), pending, 0, off)
      ensures off.Some? ==> v.r in memo && off.value == memo[v.r]
      decreases white, 1
    {
      hide Written, Continues, AllNew, Balance;
      InReach(graph, reach, State(), white);
      match v {
        case SymRef(r) => off := AddSymbol(r, pending);
        case KwRef(r) => off := AddSymbol(r, pending);
        case PairRef(r) => off := AddPair(r, pending, white);
        case ArrayRef(r) => off := AddArray(r, pending, white);
        case StrRef(r) => off := AddBuffer(r, pending);
        case BufRef(r) => off := AddBuffer(r, pending);
      }
    }
  }

  const MAGIC: seq<byte> := [78, 117, 106, 73]     // NujI

  // writeImage: the magic bytes and everything up to curOff.  It exits exactly
  // when more objects are reachable than the memo map holds; otherwise the
  // image holds just the reachable objects and has the size they add up to.
  method WriteImage(g: Graph, root: Val) returns (img: Option<seq<byte>>, ghost m: Image)
    requires GraphOk(g) && ValOk(g, root)
    ensures img.Some? <==> |Reach(g, root)| <= MEMO_LIMIT
    ensures img.Some? ==> Written(g, m, {}) && ValAt(m, root, 0) && img.value == MAGIC + m.bytes[..m.end]
    ensures img.Some? ==> m.memo.Keys == Reach(g, root) && |img.value| == |MAGIC| + ImageSize(g, root)
  {
    hide Written, Reach, SelfContained, Weight, ValIn, ValAt, GraphOk;
    ghost var reach := Reach(g, root);
    ReachIsSelfContained(g, root);
    var w := new Writer(g, reach);
    m := w.State();
    NothingWritten(g, m);
    var off := w.AddVal(root, {}, reach);
    m := w.State();
    if off.None? {
      return None, m;
    }
    RootIn(m, root, off.value);
    WrittenIsSelfContained(g, m);
    ReachIsLeast(g, root, m.memo.Keys);
    assert m.memo.Keys == reach;
    MemoFits(g, m);
    return Some(MAGIC + w.start[..w.curOff]), m;
  }

  lemma NothingWritten(g: Graph, m: Image)
    requires m == Image([], 0, map[], map[], {})
    ensures Written(g, m, {}) && Balance(g, m) == 0 && m.memo.Keys == {}
  {
    WeightOfNone(g, |g|);
    assert m.memo.Keys == {};
  }

  lemma RootIn(m: Image, root: Val, off: nat)
    requires ValAt(m, root, off)
    ensures ValIn(root, m.memo.Keys)
  {
  }

  lemma MemoFits(g: Graph, m: Image)
    requires Written(g, m, {})
    ensures |m.memo.Keys| <= MEMO_LIMIT && m.end <= |m.bytes|
  {
    assert |m.memo.Keys| == |m.memo|;
  }

  // The parent of a value is in the middle of writing field i at `off`.
  ghost predicate InField(m: Image, r: nat, i: nat, off: nat, width: nat, m0: Image) {
    && r in m.memo && (r, i) !in m.fields && Reserved(m, off, width)
    && Continues(m0, m) && r !in m0.memo && m0.end <= off
  }

  ghost predicate NoFields(m: Image, r: nat) {
    forall i :: (r, i) !in m.fields
  }

  // The record of a pair, with neither field written.
  ghost predicate PairOpen(m: Image, r: nat, off: nat, m0: Image) {
    InField(m, r, 0, off, 3, m0) && InField(m, r, 1, off + 3, 3, m0)
  }

  // The value of the field is written, its offset is not.
  ghost predicate Midway(m: Image, m': Image, r: nat, i: nat, off: nat, width: nat, m0: Image) {
    && Continues(m0, m') && m0.end <= off && Keeps(m, m') && Reserved(m', off, width)
    && (forall j :: j != i && (r, j) !in m.fields ==> (r, j) !in m'.fields)
    && (forall o: nat, n: nat :: Reserved(m, o, n) ==> Reserved(m', o, n))
  }

  // The field is written; other fields and reserved parts are as before.
  ghost predicate AfterField(m: Image, m': Image, r: nat, i: nat, off: nat, width: nat, m0: Image) {
    && Continues(m0, m') && Keeps(m, m')
    && (forall j :: j != i && (r, j) !in m.fields ==> (r, j) !in m'.fields)
    && (forall o: nat, n: nat :: Reserved(m, o, n) && (o + n <= off || off + width <= o) ==> Reserved(m', o, n))
  }

  // The first `n` elements of an array are written.
  ghost predicate Elements(m: Image, r: nat, data: seq<Val>, flags: nat, c: nat, n: nat, m0: Image) {
    && n <= |data| && Continues(m0, m) && r !in m0.memo && m0.end <= c
    && Stands(m, c, Header(|data|, flags))
    && Reserved(m, c + 4 + 4 * n, 4 * (|data| - n))
    && (forall j :: j >= n ==> (r, j) !in m.fields)
    && forall j :: 0 <= j < n ==> ArrayField(m, r, j, data[j], c + 4 + 4 * j)
  }

  lemma NothingNew(g: Graph, m: Image, pending: set<nat>)
    requires Written(g, m, pending)
    ensures Continues(m, m)
  {
  }

  lemma WrittenMemo(g: Graph, m: Image, pending: set<nat>)
    requires Written(g, m, pending)
    ensures forall s :: s in m.memo ==> s < |g|
  {
  }

  lemma HeaderSize(length: nat, flags: nat)
    ensures |Header(length, flags)| == 4
  {
  }

  lemma RefBytes(v: Val, memo: map<nat, nat>)
    requires IsRef(v) && v.r in memo
    ensures ValBytes(v, memo) == [TagOf(v)] + LE24(memo[v.r])
  {
  }

  lemma OffsetSize(x: int)
    ensures |LE24(x)| == 3
  {
  }

  lemma FieldsOk(g: Graph, r: nat)
    requires GraphOk(g) && r < |g|
    ensures g[r].Cons? ==> ValOk(g, g[r].car) && ValOk(g, g[r].cdr)
    ensures g[r].Array? ==> forall i :: 0 <= i < |g[r].data| ==> ValOk(g, g[r].data[i])
  {
    assert ObjOk(g, g[r]);
  }

  lemma FieldsIn(g: Graph, reach: set<nat>, m: Image, white: set<nat>, r: nat)
    requires AllNew(g, reach, m, white) && r in reach && r < |g|
    ensures g[r].Cons? ==> ValIn(g[r].car, reach) && ValIn(g[r].cdr, reach)
    ensures g[r].Array? ==> forall i :: 0 <= i < |g[r].data| ==> ValIn(g[r].data[i], reach)
  {
    if g[r].Cons? {
      assert g[r].car == Fields(g[r])[0] && g[r].cdr == Fields(g[r])[1];
    }
    if g[r].Array? {
      forall i | 0 <= i < |g[r].data| ensures ValIn(g[r].data[i], reach) {
        assert g[r].data[i] == Fields(g[r])[i];
      }
    }
  }

  lemma NoSizes(data: seq<Val>)
    ensures ValSizes(data[..0]) == 0
  {
  }

  lemma ElementSizes(data: seq<Val>, i: nat)
    requires i < |data|
    ensures ValSizes(data[..i + 1]) == ValSizes(data[..i]) + ValSize(data[i])
  {
    assert data[..i + 1][..i] == data[..i];
  }

  lemma PairDone(m: Image, r: nat, a: Val, d: Val, off: nat)
    requires PairField(m, r, 0, a, off) && PairField(m, r, 1, d, off + 3)
    ensures ObjAt(m, r, Cons(a, d), off)
  {
  }

  lemma PlainSize(v: Val)
    requires !IsRef(v)
    ensures |ValBytes(v, map[])| == ValSize(v) && 0 < ValSize(v) <= 16
  {
  }

  lemma StillNewSame(g: Graph, reach: set<nat>, m: Image, m': Image, white: set<nat>)
    requires AllNew(g, reach, m, white) && m'.memo == m.memo
    ensures AllNew(g, reach, m', white)
  {
  }

  lemma Entering(g: Graph, reach: set<nat>, m: Image, m': Image, white: set<nat>, r: nat)
    requires AllNew(g, reach, m, white) && r in reach && r !in m.memo && m'.memo.Keys == m.memo.Keys + {r}
    ensures AllNew(g, reach, m', white - {r}) && r in white
  {
  }

  lemma ReservedPart(m: Image, off: nat, n: nat, skip: nat, part: nat)
    requires Reserved(m, off, n) && skip + part <= n
    ensures Reserved(m, off + skip, part)
  {
  }

  lemma ReservedBeside(m: Image, m': Image, off: nat, bs: seq<byte>, o: nat, n: nat)
    requires Reserved(m, o, n) && (o + n <= off || off + |bs| <= o)
    requires m'.settled == m.settled + Span(off, |bs|) && m'.end == m.end
    ensures Reserved(m', o, n)
  {
  }

  lemma InFieldFacts(m: Image, r: nat, i: nat, off: nat, width: nat, m0: Image)
    requires InField(m, r, i, off, width, m0)
    ensures r in m.memo && (r, i) !in m.fields && Reserved(m, off, width)
    ensures Continues(m0, m) && r !in m0.memo && m0.end <= off
  {
  }

  lemma PairStart(m: Image, r: nat, c: nat, m0: Image)
    requires r in m.memo && NoFields(m, r) && Reserved(m, c, 8)
    requires Continues(m0, m) && r !in m0.memo && m0.end <= c
    ensures PairOpen(m, r, c, m0)
  {
    hide Continues;
  }

  lemma NextField(m: Image, m': Image, r: nat, i: nat, off: nat, width: nat, m0: Image,
                  j: nat, o: nat, w: nat)
    requires AfterField(m, m', r, i, off, width, m0) && InField(m, r, j, o, w, m0)
    requires i != j && (o + w <= off || off + width <= o)
    ensures InField(m', r, j, o, w, m0)
  {
  }

  lemma FieldFacts(m: Image, m': Image, r: nat, i: nat, off: nat, width: nat, m0: Image)
    requires AfterField(m, m', r, i, off, width, m0)
    ensures Continues(m0, m') && Keeps(m, m')
    ensures r in m.memo ==> r in m'.memo && m'.memo[r] == m.memo[r]
  {
  }

  lemma MidwayFacts(m: Image, m': Image, r: nat, i: nat, off: nat, width: nat, m0: Image)
    requires Midway(m, m', r, i, off, width, m0)
    ensures Continues(m0, m') && m0.end <= off && Keeps(m, m') && Reserved(m', off, width)
  {
  }

  // Writing the value leaves the parent where it was.
  lemma StillIn(m: Image, m': Image, r: nat, i: nat, off: nat, width: nat, m0: Image)
    requires InField(m, r, i, off, width, m0) && Continues(m, m')
    ensures InField(m', r, i, off, width, m0)
  {
    ContinuesTrans(m0, m, m');
  }

  lemma MidwayIs(g: Graph, m: Image, m2: Image, m3: Image, r: nat, i: nat, off: nat, width: nat, m0: Image, pending: set<nat>, o: nat)
    requires Written(g, m, pending) && Written(g, m2, pending)
    requires InField(m, r, i, off, width, m0) && Continues(m, m2)
    requires m3 == m2.(fields := m2.fields[(r, i) := o]) && (r, i) !in m2.fields && Continues(m0, m3)
    ensures Midway(m, m3, r, i, off, width, m0)
  {
    hide ObjAt;
    SettledBelow(g, m, pending);
    ContinuesKeeps(m, m2);
  }

  lemma SettledBelow(g: Graph, m: Image, pending: set<nat>)
    requires Written(g, m, pending)
    ensures forall k :: k in m.settled ==> k < m.end
  {
  }

  lemma KeepsTrans(a: Image, b: Image, c: Image)
    requires Keeps(a, b) && Keeps(b, c)
    ensures Keeps(a, c)
  {
  }

  lemma FieldEmpty(m: Image, m': Image, r: nat, i: nat, off: nat, m0: Image, bs: seq<byte>)
    requires |bs| == 3 && off + 3 <= |m.bytes| && Keeps(m, m') && Continues(m0, m')
    requires m' == m.(bytes := Splice(m.bytes, off, bs), settled := m.settled + Span(off, |bs|))
    ensures AfterField(m, m', r, i, off, 3, m0)
  {
    hide Keeps, Continues;
  }

  lemma FieldDone(m: Image, m3: Image, m': Image, r: nat, i: nat, off: nat, width: nat, m0: Image, bs: seq<byte>)
    requires Midway(m, m3, r, i, off, width, m0) && |bs| == width && off + width <= |m3.bytes|
    requires Keeps(m3, m') && Continues(m0, m')
    requires m' == m3.(bytes := Splice(m3.bytes, off, bs), settled := m3.settled + Span(off, |bs|))
    ensures AfterField(m, m', r, i, off, width, m0)
  {
    KeepsTrans(m, m3, m');
    hide Keeps, Continues;
  }

  lemma HeaderWritten(m0: Image, m1: Image, m2: Image, r: nat, c: nat, data: seq<Val>, flags: nat)
    requires Reserved(m1, c, 4 + 4 * |data|) && |Header(|data|, flags)| == 4
    requires m2.settled == m1.settled + Span(c, 4) && m2.end == m1.end && m2.fields == m1.fields
    requires Continues(m0, m2) && r !in m0.memo && m0.end <= c && Stands(m2, c, Header(|data|, flags))
    requires NoFields(m1, r)
    ensures Elements(m2, r, data, flags, c, 0, m0)
  {
    hide Continues, Header;
  }

  lemma ElementStart(m: Image, r: nat, data: seq<Val>, flags: nat, c: nat, n: nat, m0: Image)
    requires Elements(m, r, data, flags, c, n, m0) && n < |data| && r in m.memo
    ensures InField(m, r, n, c + 4 + 4 * n, 4, m0)
  {
    hide Continues, Stands, ArrayField;
  }

  lemma ElementDone(m: Image, m': Image, r: nat, data: seq<Val>, flags: nat, c: nat, n: nat, m0: Image)
    requires Elements(m, r, data, flags, c, n, m0) && n < |data|
    requires AfterField(m, m', r, n, c + 4 + 4 * n, 4, m0) && ArrayField(m', r, n, data[n], c + 4 + 4 * n)
    ensures Elements(m', r, data, flags, c, n + 1, m0)
  {
    hide Continues, Stands, ArrayField, Keeps, Reserved, Header;
    StandsKept(m, m', c, Header(|data|, flags));
    forall j | 0 <= j < n ensures ArrayField(m', r, j, data[j], c + 4 + 4 * j) {
      ArrayFieldKept(m, m', r, j, data[j], c + 4 + 4 * j);
    }
    ReservedPart(m, c + 4 + 4 * n, 4 * (|data| - n), 4, 4 * (|data| - n) - 4);
  }

  lemma ElementsDone(m: Image, r: nat, data: seq<Val>, flags: nat, c: nat, m0: Image)
    requires Elements(m, r, data, flags, c, |data|, m0)
    ensures ObjAt(m, r, Array(data, flags), c) && Continues(m0, m)
  {
    hide Continues, Stands, ArrayField, Header;
  }

  // An object was written while a value waits for its offset.
  lemma AfterObject(g: Graph, m0: Image, m2: Image, m3: Image, pending: set<nat>, c: nat, tag: seq<byte>)
    requires Written(g, m2, pending) && Continues(m0, m2) && Continues(m2, m3)
    requires Stands(m2, c, tag) && Reserved(m2, c + 1, 3)
    ensures Stands(m3, c, tag) && Reserved(m3, c + 1, 3) && Continues(m0, m3)
  {
    SettledBelow(g, m2, pending);
    ContinuesKeeps(m2, m3);
    StandsKept(m2, m3, c, tag);
    ContinuesTrans(m0, m2, m3);
  }
}
