// The slots of the runtime: one static array per object type, all in one
// address space, with mark maps, free lists and the references that a mutator
// or the collector can follow.
module Memory {
  // Type numbers, in the order of the sweep.
  const ARRAY := 0
  const CLOSURE := 1
  const TREE := 2
  const TREE_ROOT := 3
  const MAP := 4
  const BYTECODE := 5
  const BUFFER := 6
  const BUFFER_VIEW := 7
  const PAIR := 8
  const SYMBOL := 9          // from here on slots are never freed
  const NFUNC := 10
  const KINDS := 11

  // List T starts at address T * STRIDE.
  const STRIDE := 0x4_0000
  const TOTAL := 0x2C_0000
  const NULL: nat := TOTAL

  type Kind = k: nat | k < KINDS
  type Ptr = p: nat | p <= TOTAL
  type Slot = a: nat | a < TOTAL
  type Mark = m: nat | m <= 2

  function TypeMax(k: Kind): (r: nat)
    ensures 0x400 <= r <= STRIDE
  {
    if k == ARRAY then 0x4000
    else if k == CLOSURE then 0x2_0000
    else if k == TREE then 0x4_0000
    else if k == TREE_ROOT then 0x8000
    else if k == MAP then 0x8000
    else if k == BYTECODE then 0x4000
    else if k == BUFFER then 0x8000
    else if k == BUFFER_VIEW then 0x4000
    else if k == PAIR then 0x4_0000
    else if k == SYMBOL then 0x4000
    else 0x400
  }

  datatype Val = Nil | Immediate | Boxed(p: Ptr)

  datatype Entry = Entry(key: Val, val: Val)

  // A freed slot holds nothing but the link of its free list.
  datatype Object =
    | Freed(nextFree: Ptr)
    | Array(data: seq<Val>)
    | Closure(parent: Ptr, bindings: Ptr, meta: Ptr, text: Ptr, args: Val)
    | Tree(left: Ptr, right: Ptr, key: Ptr, value: Val)
    | TreeRoot(root: Ptr)
    | Map(entries: seq<Entry>)
    | Bytecode(literals: Ptr)
    | Buffer
    | BufferView(buf: Ptr)
    | Pair(car: Val, cdr: Val)
    | Symbol
    | NFunc(params: Val, info: Ptr)

  function KindOf(o: Object): nat {
    match o
    case Freed(_) => KINDS
    case Array(_) => ARRAY
    case Closure(_, _, _, _, _) => CLOSURE
    case Tree(_, _, _, _) => TREE
    case TreeRoot(_) => TREE_ROOT
    case Map(_) => MAP
    case Bytecode(_) => BYTECODE
    case Buffer => BUFFER
    case BufferView(_) => BUFFER_VIEW
    case Pair(_, _) => PAIR
    case Symbol => SYMBOL
    case NFunc(_, _) => NFUNC
  }

  // What memset leaves behind.
  function Zeroed(k: Kind): (o: Object)
    ensures KindOf(o) == k && Refs(o) == {}
  {
    if k == ARRAY then Array([])
    else if k == CLOSURE then Closure(NULL, NULL, NULL, NULL, Nil)
    else if k == TREE then Tree(NULL, NULL, NULL, Nil)
    else if k == TREE_ROOT then TreeRoot(NULL)
    else if k == MAP then Map([])
    else if k == BYTECODE then Bytecode(NULL)
    else if k == BUFFER then Buffer
    else if k == BUFFER_VIEW then BufferView(NULL)
    else if k == PAIR then Pair(Nil, Nil)
    else if k == SYMBOL then Symbol
    else NFunc(Nil, NULL)
  }

  // ---- references of an object

  function PtrRefs(p: Ptr): (r: set<nat>)
    ensures forall c :: c in r ==> c < TOTAL
  {
    if p == NULL then {} else {p}
  }

  function ValRefs(v: Val): (r: set<nat>)
    ensures forall c :: c in r ==> c < TOTAL
  {
    if v.Boxed? then PtrRefs(v.p) else {}
  }

  function DataRefs(data: seq<Val>): (r: set<nat>)
    ensures forall c :: c in r ==> c < TOTAL
  {
    if data == [] then {} else DataRefs(data[..|data| - 1]) + ValRefs(data[|data| - 1])
  }

  // An entry whose key is #nil is unused.
  function EntryRefs(entries: seq<Entry>): (r: set<nat>)
    ensures forall c :: c in r ==> c < TOTAL
  {
    if entries == [] then {}
    else
      var e := entries[|entries| - 1];
      EntryRefs(entries[..|entries| - 1]) + if e.key.Nil? then {} else ValRefs(e.key) + ValRefs(e.val)
  }

  function PtrsRefs(ps: seq<Ptr>): (r: set<nat>)
    ensures forall c :: c in r ==> c < TOTAL
  {
    if ps == [] then {} else PtrsRefs(ps[..|ps| - 1]) + PtrRefs(ps[|ps| - 1])
  }

  function Refs(o: Object): (r: set<nat>)
    ensures forall c :: c in r ==> c < TOTAL
  {
    match o
    case Freed(n) => PtrRefs(n)
    case Array(data) => DataRefs(data)
    case Closure(p, d, m, t, a) => PtrRefs(p) + PtrRefs(d) + PtrRefs(m) + PtrRefs(t) + ValRefs(a)
    case Tree(l, r, k, v) => PtrRefs(k) + ValRefs(v) + PtrRefs(l) + PtrRefs(r)
    case TreeRoot(r) => PtrRefs(r)
    case Map(es) => EntryRefs(es)
    case Bytecode(l) => PtrRefs(l)
    case Buffer => {}
    case BufferView(b) => PtrRefs(b)
    case Pair(a, d) => ValRefs(a) + ValRefs(d)
    case Symbol => {}
    case NFunc(a, m) => ValRefs(a) + PtrRefs(m)
  }

  // ---- reachability

  type Objects = s: seq<Object> | |s| == TOTAL witness seq(TOTAL, _ => Symbol)
  type Marks = s: seq<Mark> | |s| == TOTAL witness seq(TOTAL, _ => 0)

  ghost predicate IsPath(objs: Objects, p: seq<nat>) {
    && p != [] && (forall i :: 0 <= i < |p| ==> p[i] < TOTAL)
    && forall i :: 0 < i < |p| ==> p[i] in Refs(objs[p[i - 1]])
  }

  ghost predicate Leads(objs: Objects, from: set<nat>, p: seq<nat>, a: nat) {
    IsPath(objs, p) && p[0] in from && p[|p| - 1] == a
  }

  ghost predicate Reaches(objs: Objects, from: set<nat>, a: nat) {
    exists p :: Leads(objs, from, p, a)
  }

  lemma ReachesStart(objs: Objects, from: set<nat>, a: nat)
    requires a in from && a < TOTAL
    ensures Reaches(objs, from, a)
  {
    assert Leads(objs, from, [a], a);
  }

  lemma ReachesMore(objs: Objects, from: set<nat>, more: set<nat>, a: nat)
    requires Reaches(objs, from, a) && from <= more
    ensures Reaches(objs, more, a)
  {
    var p :| Leads(objs, from, p, a);
    assert Leads(objs, more, p, a);
  }

  lemma ReachesThrough(objs: Objects, r: nat, a: nat)
    requires r < TOTAL && Reaches(objs, Refs(objs[r]), a)
    ensures Reaches(objs, {r}, a)
  {
    var p :| Leads(objs, Refs(objs[r]), p, a);
    assert Leads(objs, {r}, [r] + p, a);
  }

  // A set that holds the start and is closed under references holds everything
  // reachable.
  lemma {:induction false} ClosedHoldsPath(objs: Objects, closed: set<nat>, p: seq<nat>)
    requires IsPath(objs, p) && p[0] in closed
    requires forall a, c :: a in closed && a < TOTAL && c in Refs(objs[a]) ==> c in closed
    ensures p[|p| - 1] in closed
    decreases |p|
  {
    if |p| > 1 {
      var q := p[..|p| - 1];
      assert IsPath(objs, q);
      ClosedHoldsPath(objs, closed, q);
      assert p[|p| - 1] in Refs(objs[p[|p| - 2]]);
    }
  }

  lemma ClosedHoldsReachable(objs: Objects, from: set<nat>, closed: set<nat>)
    requires from <= closed
    requires forall a, c :: a in closed && a < TOTAL && c in Refs(objs[a]) ==> c in closed
    ensures forall a :: Reaches(objs, from, a) ==> a in closed
  {
    forall a | Reaches(objs, from, a) ensures a in closed {
      var p :| Leads(objs, from, p, a);
      ClosedHoldsPath(objs, closed, p);
    }
  }

  // ---- marking

  // `m1` is `m0` after marking from the addresses `from`: only reachable
  // unmarked slots were marked, nothing newly marked has an unmarked child and
  // every start is marked.
  ghost predicate Marked(objs: Objects, m0: Marks, m1: Marks, from: set<nat>) {
    && (forall a :: 0 <= a < TOTAL && m1[a] != m0[a] ==> m0[a] == 0 && m1[a] == 1 && Reaches(objs, from, a))
    && (forall a, c :: 0 <= a < TOTAL && m1[a] != m0[a] && c in Refs(objs[a]) ==> m1[c] != 0)
    && (forall a :: a in from && a < TOTAL ==> m1[a] != 0)
  }

  lemma MarkedNothing(objs: Objects, m: Marks)
    ensures Marked(objs, m, m, {})
  {
  }

  lemma MarkedThen(objs: Objects, m0: Marks, m1: Marks, m2: Marks, from1: set<nat>, from2: set<nat>)
    requires Marked(objs, m0, m1, from1) && Marked(objs, m1, m2, from2)
    ensures Marked(objs, m0, m2, from1 + from2)
  {
    forall a | 0 <= a < TOTAL && m2[a] != m0[a]
      ensures m0[a] == 0 && m2[a] == 1 && Reaches(objs, from1 + from2, a)
    {
      if m1[a] != m0[a] {
        ReachesMore(objs, from1, from1 + from2, a);
      } else {
        ReachesMore(objs, from2, from1 + from2, a);
      }
    }
    forall a, c | 0 <= a < TOTAL && m2[a] != m0[a] && c in Refs(objs[a]) ensures m2[c] != 0 {
      if m1[a] != m0[a] {
        assert m1[c] != 0;
      }
    }
    forall a | a in from1 + from2 && a < TOTAL ensures m2[a] != 0 {
      if a in from1 {
        assert m1[a] != 0;
      }
    }
  }

  // Marking a slot and then its references.
  lemma MarkedSlot(objs: Objects, m0: Marks, m1: Marks, r: nat)
    requires r < TOTAL && m0[r] == 0
    requires Marked(objs, m0[r := 1], m1, Refs(objs[r]))
    ensures Marked(objs, m0, m1, {r})
  {
    var mid := m0[r := 1];
    assert m1[r] == 1;
    forall a | 0 <= a < TOTAL && m1[a] != m0[a]
      ensures m0[a] == 0 && m1[a] == 1 && Reaches(objs, {r}, a)
    {
      if a == r {
        ReachesStart(objs, {r}, r);
      } else {
        assert m1[a] != mid[a];
        ReachesThrough(objs, r, a);
      }
    }
    forall a, c | 0 <= a < TOTAL && m1[a] != m0[a] && c in Refs(objs[a]) ensures m1[c] != 0 {
      if a != r {
        assert m1[a] != mid[a];
      }
    }
  }

  // Marking is exact: starting from live slots at 0 and free or pinned slots
  // at 2, exactly the reachable unpinned slots end at 1.  `free` slots must be
  // out of reach and pinned slots without references.
  lemma MarkingIsExact(objs: Objects, m0: Marks, m1: Marks, from: set<nat>)
    requires Marked(objs, m0, m1, from)
    requires forall a :: 0 <= a < TOTAL ==> m0[a] != 1
    requires forall a :: 0 <= a < TOTAL && m0[a] == 2 && Reaches(objs, from, a) ==> Refs(objs[a]) == {}
    ensures forall a :: 0 <= a < TOTAL ==> (m1[a] == 1 <==> m0[a] == 0 && Reaches(objs, from, a))
    ensures forall a :: 0 <= a < TOTAL ==> (m1[a] == 2 <==> m0[a] == 2)
  {
    forall a | 0 <= a < TOTAL && Reaches(objs, from, a) ensures m1[a] != 0 {
      var p :| Leads(objs, from, p, a);
      PathIsMarked(objs, m0, m1, from, p);
    }
  }

  lemma {:induction false} PathIsMarked(objs: Objects, m0: Marks, m1: Marks, from: set<nat>, p: seq<nat>)
    requires Marked(objs, m0, m1, from)
    requires forall a :: 0 <= a < TOTAL ==> m0[a] != 1
    requires forall a :: 0 <= a < TOTAL && m0[a] == 2 && Reaches(objs, from, a) ==> Refs(objs[a]) == {}
    requires IsPath(objs, p) && p[0] in from
    ensures m1[p[|p| - 1]] != 0
    decreases |p|
  {
    if |p| > 1 {
      var q := p[..|p| - 1];
      assert IsPath(objs, q);
      PathIsMarked(objs, m0, m1, from, q);
      var b := p[|p| - 2];
      assert q[|q| - 1] == b && p[|p| - 1] in Refs(objs[b]);
      assert Leads(objs, from, q, b);
      assert m0[b] != 2;
      assert m1[b] != m0[b];
    }
  }

  // ---- one type's slots

  predicate InKind(a: int, k: Kind, max: nat) {
    k * STRIDE <= a < k * STRIDE + max
  }

  function HeadOf(list: seq<Slot>): Ptr {
    if list == [] then NULL else list[0]
  }

  // `list` is the free list of type `k`: linked from `head`, without repeats,
  // and exactly the freed slots below Max.
  ghost predicate ListValid(objs: Objects, k: Kind, max: nat, head: Ptr, list: seq<Slot>) {
    && head == HeadOf(list)
    && (forall i :: 0 <= i < |list| ==>
          InKind(list[i], k, max) && objs[list[i]] == Freed(HeadOf(list[i + 1..])))
    && (forall i, j :: 0 <= i < j < |list| ==> list[i] != list[j])
    && (forall a: Slot :: InKind(a, k, max) && objs[a].Freed? ==> a in list)
  }

  // Between collections: a slot below Max has mark 2 when it is free or pinned,
  // and mark 0 otherwise.
  ghost predicate KindValid(objs: Objects, marks: Marks, pinned: set<nat>,
                            k: Kind, max: nat, active: int, head: Ptr, list: seq<Slot>) {
    && max <= TypeMax(k) && (k < SYMBOL ==> max < TypeMax(k))
    && ListValid(objs, k, max, head, list)
    && active + |list| == max
    && (k >= SYMBOL ==> list == [])
    && (forall a: Slot :: InKind(a, k, STRIDE) ==>
          (marks[a] == 2 <==> (a < k * STRIDE + max && objs[a].Freed?) || a in pinned) && marks[a] != 1)
    && (forall a: Slot :: InKind(a, k, max) && !objs[a].Freed? ==> KindOf(objs[a]) == k)
  }

  datatype Class = Class(name: Ptr, methods: Ptr, staticMethods: Ptr)

  // The classes, the symbol table and the running thread.
  datatype Roots = Roots(classes: seq<Class>, symbolTable: Ptr, text: Ptr, closures: seq<Ptr>, values: seq<Val>)

  function ClassRefs(cs: seq<Class>): (r: set<nat>)
    ensures forall c :: c in r ==> c < TOTAL
  {
    if cs == [] then {}
    else
      var c := cs[|cs| - 1];
      ClassRefs(cs[..|cs| - 1]) + (PtrRefs(c.name) + PtrRefs(c.methods) + PtrRefs(c.staticMethods))
  }

  function ThreadRefs(r: Roots): (s: set<nat>)
    ensures forall c :: c in s ==> c < TOTAL
  {
    PtrRefs(r.text) + PtrsRefs(r.closures) + DataRefs(r.values)
  }

  function NFuncRefs(max: nat): (r: set<nat>) {
    set a | NFUNC * STRIDE <= a < NFUNC * STRIDE + max && InKind(a, NFUNC, max)
  }

  // Everything the collector starts from.
  function RootRefs(r: Roots, nfuncs: nat): (s: set<nat>) {
    ClassRefs(r.classes) + NFuncRefs(nfuncs) + PtrRefs(r.symbolTable) + ThreadRefs(r)
  }

  // ---- what a program can load, field by field

  // The i-th field that holds a value or a pointer; a map's keys and values
  // take turns.
  function FieldOf(o: Object, i: nat): Val {
    match o
    case Array(data) => if i < |data| then data[i] else Nil
    case Closure(parent, bindings, meta, text, args) =>
      if i == 0 then Boxed(parent) else if i == 1 then Boxed(bindings) else if i == 2 then Boxed(meta)
      else if i == 3 then Boxed(text) else if i == 4 then args else Nil
    case Tree(left, right, key, value) =>
      if i == 0 then Boxed(key) else if i == 1 then value else if i == 2 then Boxed(left)
      else if i == 3 then Boxed(right) else Nil
    case TreeRoot(root) => if i == 0 then Boxed(root) else Nil
    case Map(es) =>
      if i / 2 >= |es| || es[i / 2].key.Nil? then Nil else if i % 2 == 0 then es[i / 2].key else es[i / 2].val
    case Bytecode(literals) => if i == 0 then Boxed(literals) else Nil
    case BufferView(buf) => if i == 0 then Boxed(buf) else Nil
    case Pair(car, cdr) => if i == 0 then car else if i == 1 then cdr else Nil
    case NFunc(params, info) => if i == 0 then params else if i == 1 then Boxed(info) else Nil
    case _ => Nil
  }

  predicate Points(v: Val, c: nat) { v.Boxed? && v.p == c && c < TOTAL }

  // Where a program finds its values to begin with.
  datatype Place =
    | ClassName(i: nat) | ClassMethods(i: nat) | ClassStatics(i: nat)
    | Native(i: nat) | SymbolTable | Code | OnClosures(i: nat) | OnValues(i: nat)

  function AtPlace(r: Roots, nfuncs: nat, at: Place): Val {
    match at
    case ClassName(i) => if i < |r.classes| then Boxed(r.classes[i].name) else Nil
    case ClassMethods(i) => if i < |r.classes| then Boxed(r.classes[i].methods) else Nil
    case ClassStatics(i) => if i < |r.classes| then Boxed(r.classes[i].staticMethods) else Nil
    case Native(i) => if i < nfuncs && NFUNC * STRIDE + i < TOTAL then Boxed(NFUNC * STRIDE + i) else Nil
    case SymbolTable => Boxed(r.symbolTable)
    case Code => Boxed(r.text)
    case OnClosures(i) => if i < |r.closures| then Boxed(r.closures[i]) else Nil
    case OnValues(i) => if i < |r.values| then r.values[i] else Nil
  }

  lemma {:induction false} DataPoints(data: seq<Val>, c: nat)
    ensures c in DataRefs(data) <==> exists i: nat :: i < |data| && Points(data[i], c)
  {
    if data != [] {
      var n := |data| - 1;
      DataPoints(data[..n], c);
      if i: nat :| i < |data| && Points(data[i], c) {
        assert i < n ==> data[..n][i] == data[i];
      }
      if i: nat :| i < n && Points(data[..n][i], c) {
        assert data[i] == data[..n][i];
      }
    }
  }

  lemma {:induction false} PtrsPoint(ps: seq<Ptr>, c: nat)
    ensures c in PtrsRefs(ps) <==> c < TOTAL && exists i: nat :: i < |ps| && ps[i] == c
  {
    if ps != [] {
      var n := |ps| - 1;
      PtrsPoint(ps[..n], c);
      if i: nat :| i < n && ps[..n][i] == c {
        assert ps[i] == c;
      }
      if i: nat :| i < |ps| && ps[i] == c {
        assert i < n ==> ps[..n][i] == c;
      }
    }
  }

  lemma {:induction false} EntriesPoint(es: seq<Entry>, c: nat)
    ensures c in EntryRefs(es) <==> exists i: nat :: i < 2 * |es| && Points(FieldOf(Map(es), i), c)
  {
    if es != [] {
      var n := |es| - 1;
      EntriesPoint(es[..n], c);
      var e := es[n];
      forall i: nat | i < 2 * n ensures FieldOf(Map(es[..n]), i) == FieldOf(Map(es), i) {
      }
      assert FieldOf(Map(es), 2 * n) == if e.key.Nil? then Nil else e.key;
      assert FieldOf(Map(es), 2 * n + 1) == if e.key.Nil? then Nil else e.val;
      if c in EntryRefs(es) {
        if c in EntryRefs(es[..n]) {
          var i: nat :| i < 2 * n && Points(FieldOf(Map(es[..n]), i), c);
          assert Points(FieldOf(Map(es), i), c);
        } else {
          assert Points(FieldOf(Map(es), 2 * n), c) || Points(FieldOf(Map(es), 2 * n + 1), c);
        }
      }
      if i: nat :| i < 2 * |es| && Points(FieldOf(Map(es), i), c) {
        if i < 2 * n {
          assert Points(FieldOf(Map(es[..n]), i), c);
        } else {
          assert i == 2 * n || i == 2 * n + 1;
        }
      }
    }
  }

  lemma {:induction false} ClassesPoint(cs: seq<Class>, c: nat)
    ensures c in ClassRefs(cs) <==> c < TOTAL && exists i: nat :: i < |cs| && (cs[i].name == c || cs[i].methods == c || cs[i].staticMethods == c)
  {
    if cs != [] {
      var n := |cs| - 1;
      ClassesPoint(cs[..n], c);
      if i: nat :| i < n && (cs[..n][i].name == c || cs[..n][i].methods == c || cs[..n][i].staticMethods == c) {
        assert cs[i] == cs[..n][i];
      }
      if i: nat :| i < |cs| && (cs[i].name == c || cs[i].methods == c || cs[i].staticMethods == c) {
        assert i < n ==> cs[..n][i] == cs[i];
      }
    }
  }

  // The references that the collector follows are exactly those that fields
  // hold.
  lemma RefsAreFields(o: Object, c: nat)
    requires !o.Freed?
    ensures c in Refs(o) <==> exists i: nat :: Points(FieldOf(o, i), c)
  {
    hide DataRefs, EntryRefs;
    if o.Array? {
      DataPoints(o.data, c);
      if i: nat :| i < |o.data| && Points(o.data[i], c) {
        assert Points(FieldOf(o, i), c);
      }
    } else if o.Map? {
      EntriesPoint(o.entries, c);
    } else {
      assert c in Refs(o) ==> Points(FieldOf(o, 0), c) || Points(FieldOf(o, 1), c) || Points(FieldOf(o, 2), c) ||
                              Points(FieldOf(o, 3), c) || Points(FieldOf(o, 4), c);
    }
  }

  // The collector's roots are exactly the places a program starts from.
  lemma RootsArePlaces(r: Roots, nfuncs: nat, c: nat)
    requires nfuncs <= TypeMax(NFUNC)
    ensures c in RootRefs(r, nfuncs) <==> exists at :: Points(AtPlace(r, nfuncs, at), c)
  {
    hide ClassRefs, DataRefs, PtrsRefs;
    ClassesPoint(r.classes, c);
    PtrsPoint(r.closures, c);
    DataPoints(r.values, c);
    if c in ClassRefs(r.classes) {
      var i: nat :| i < |r.classes| && (r.classes[i].name == c || r.classes[i].methods == c || r.classes[i].staticMethods == c);
      assert Points(AtPlace(r, nfuncs, ClassName(i)), c) || Points(AtPlace(r, nfuncs, ClassMethods(i)), c) ||
             Points(AtPlace(r, nfuncs, ClassStatics(i)), c);
    } else if c in NFuncRefs(nfuncs) {
      assert Points(AtPlace(r, nfuncs, Native(c - NFUNC * STRIDE)), c);
    } else if c in PtrRefs(r.symbolTable) {
      assert Points(AtPlace(r, nfuncs, SymbolTable), c);
    } else if c in PtrRefs(r.text) {
      assert Points(AtPlace(r, nfuncs, Code), c);
    } else if c in PtrsRefs(r.closures) {
      var i: nat :| i < |r.closures| && r.closures[i] == c;
      assert Points(AtPlace(r, nfuncs, OnClosures(i)), c);
    } else if c in DataRefs(r.values) {
      var i: nat :| i < |r.values| && Points(r.values[i], c);
      assert Points(AtPlace(r, nfuncs, OnValues(i)), c);
    }
    if at :| Points(AtPlace(r, nfuncs, at), c) {
      PlaceIsRoot(r, nfuncs, at, c);
    }
  }

  lemma PlaceIsRoot(r: Roots, nfuncs: nat, at: Place, c: nat)
    requires nfuncs <= TypeMax(NFUNC) && Points(AtPlace(r, nfuncs, at), c)
    ensures c in RootRefs(r, nfuncs)
  {
    hide ClassRefs, DataRefs, PtrsRefs;
    ClassesPoint(r.classes, c);
    PtrsPoint(r.closures, c);
    DataPoints(r.values, c);
  }
}
