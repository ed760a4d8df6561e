// The allocator, the sweep and whole runs: allocations, stores and root changes
// of a mutator interleaved with collections at safe points.
module Collector {
  import opened Memory

  // `lists` are the free lists from their heads on, `pinned` the symbols that
  // lRootsSymbolPush marked, and `temps` the references that C code holds in
  // its variables; the collector does not see the latter.
  datatype Mem = Mem(
    objs: Objects, marks: Marks, max: seq<nat>, active: seq<int>, free: seq<Ptr>,
    lists: seq<seq<Slot>>, pinned: set<nat>, soon: bool, roots: Roots, temps: set<nat>)

  predicate Sized(s: Mem) {
    |s.max| == KINDS && |s.active| == KINDS && |s.free| == KINDS && |s.lists| == KINDS
  }

  function Home(a: Slot): (k: Kind)
    ensures InKind(a, k, STRIDE)
  {
    a / STRIDE
  }

  lemma HomeIs(a: Slot, k: Kind)
    requires InKind(a, k, STRIDE)
    ensures Home(a) == k
  {
  }

  ghost predicate KindOk(s: Mem, k: Kind)
    requires Sized(s)
  {
    KindValid(s.objs, s.marks, s.pinned, k, s.max[k], s.active[k], s.free[k], s.lists[k])
  }

  ghost predicate Valid(s: Mem) {
    && Sized(s) && (forall k: Kind :: KindOk(s, k))
    && forall a :: a in s.pinned ==> InKind(a, SYMBOL, s.max[SYMBOL])
  }

  predicate Allocated(s: Mem, a: int)
    requires Sized(s)
  {
    0 <= a < TOTAL && InKind(a, Home(a), s.max[Home(a)]) && !s.objs[a].Freed?
  }

  // What the program can still use.
  function Held(s: Mem): set<nat>
    requires Sized(s)
  {
    RootRefs(s.roots, s.max[NFUNC]) + s.temps
  }

  ghost predicate Accessible(s: Mem, a: int)
    requires Sized(s)
  {
    0 <= a && Reaches(s.objs, Held(s), a)
  }

  // No reference leads from an allocated slot, a root or a C variable to a
  // slot that is not allocated.
  ghost predicate Inv(s: Mem) {
    && Valid(s)
    && (forall a, c :: Allocated(s, a) && c in Refs(s.objs[a]) ==> Allocated(s, c))
    && forall a :: a in Held(s) ==> Allocated(s, a)
  }

  lemma AccessibleIsAllocated(s: Mem)
    requires Inv(s)
    ensures forall a :: Accessible(s, a) ==> Allocated(s, a)
  {
    var all := set a | 0 <= a < TOTAL && Allocated(s, a);
    forall a | a in Held(s) ensures a in all {
      assert Allocated(s, a);
    }
    forall a, c | a in all && a < TOTAL && c in Refs(s.objs[a]) ensures c in all {
      assert Allocated(s, c);
    }
    ClosedHoldsReachable(s.objs, Held(s), all);
  }

  // ---- free lists

  lemma ListPush(objs: Objects, k: Kind, max: nat, head: Ptr, list: seq<Slot>, a: Slot)
    requires ListValid(objs, k, max, head, list)
    requires InKind(a, k, max) && !objs[a].Freed?
    ensures ListValid(objs[a := Freed(head)], k, max, a, [a] + list)
  {
    var more := [a] + list;
    forall i | 0 <= i < |more|
      ensures InKind(more[i], k, max) && objs[a := Freed(head)][more[i]] == Freed(HeadOf(more[i + 1..]))
    {
      if i == 0 {
        assert more[1..] == list;
      } else {
        assert more[i] == list[i - 1] && more[i + 1..] == list[i..];
      }
    }
    forall b: Slot | InKind(b, k, max) && objs[a := Freed(head)][b].Freed? ensures b in more {
      if b != a {
        assert b in list;
      }
    }
  }

  lemma ListPop(objs: Objects, k: Kind, max: nat, head: Ptr, list: seq<Slot>, o: Object)
    requires ListValid(objs, k, max, head, list) && list != [] && !o.Freed?
    ensures objs[head] == Freed(HeadOf(list[1..]))
    ensures ListValid(objs[head := o], k, max, HeadOf(list[1..]), list[1..])
  {
    var rest := list[1..];
    forall i | 0 <= i < |rest|
      ensures InKind(rest[i], k, max) && objs[head := o][rest[i]] == Freed(HeadOf(rest[i + 1..]))
    {
      assert rest[i] == list[i + 1] && rest[i + 1..] == list[i + 2..];
    }
    forall b: Slot | InKind(b, k, max) && objs[head := o][b].Freed? ensures b in rest {
      assert b in list;
    }
  }

  lemma ListFrame(objs: Objects, objs': Objects, k: Kind, max: nat, head: Ptr, list: seq<Slot>)
    requires ListValid(objs, k, max, head, list)
    requires forall a: Slot :: InKind(a, k, max) ==> objs'[a] == objs[a]
    ensures ListValid(objs', k, max, head, list)
  {
  }

  // Changes outside a type's slots do not concern it.
  lemma KindFrame(s: Mem, s': Mem, k: Kind)
    requires Sized(s) && Sized(s') && KindOk(s, k)
    requires forall a: Slot :: InKind(a, k, STRIDE) ==>
               s'.objs[a] == s.objs[a] && s'.marks[a] == s.marks[a] && (a in s'.pinned <==> a in s.pinned)
    requires s'.max[k] == s.max[k] && s'.active[k] == s.active[k] && s'.free[k] == s.free[k] && s'.lists[k] == s.lists[k]
    ensures KindOk(s', k)
  {
    ListFrame(s.objs, s'.objs, k, s.max[k], s.free[k], s.lists[k]);
  }

  // ---- TAllocRaw

  predicate CanAlloc(s: Mem, k: Kind)
    requires Sized(s)
  {
    s.free[k] != NULL || s.max[k] < TypeMax(k) - 1
  }

  function NextSlot(s: Mem, k: Kind): Slot
    requires Sized(s) && CanAlloc(s, k)
  {
    if s.free[k] != NULL then s.free[k] else k * STRIDE + s.max[k]
  }

  predicate Allocatable(s: Mem, k: Kind) {
    Sized(s) && CanAlloc(s, k) && (s.free[k] != NULL ==> s.objs[s.free[k]].Freed? && s.lists[k] != [])
  }

  function Allocate(s: Mem, k: Kind): (s': Mem)
    requires Allocatable(s, k)
    ensures Sized(s')
  {
    var a := NextSlot(s, k);
    var s1 :=
      if s.free[k] != NULL
      then s.(free := s.free[k := s.objs[a].nextFree], lists := s.lists[k := s.lists[k][1..]])
      else s.(max := s.max[k := s.max[k] + 1]);
    s1.(objs := s.objs[a := Zeroed(k)], marks := s.marks[a := 0],
        active := s.active[k := s.active[k] + 1],
        soon := s.soon || TypeMax(k) - (s.active[k] + 1) < 128,
        temps := s.temps + {a})
  }

  // Allocation fails exactly when all but one slot are live.
  lemma FullIff(s: Mem, k: Kind)
    requires Sized(s) && KindOk(s, k) && k < SYMBOL
    ensures CanAlloc(s, k) <==> s.active[k] != TypeMax(k) - 1
    ensures s.free[k] != NULL ==> s.lists[k] != [] && s.free[k] == s.lists[k][0] && s.objs[s.free[k]].Freed?
    ensures s.free[k] != NULL ==> InKind(s.free[k], k, s.max[k])
    ensures CanAlloc(s, k) ==> InKind(NextSlot(s, k), k, STRIDE)
  {
    hide TypeMax;
  }

  // The slot an allocation returns is not in use: neither allocated nor
  // accessible.
  lemma AllocationIsFresh(s: Mem, k: Kind)
    requires Inv(s) && k < SYMBOL && CanAlloc(s, k)
    ensures !Allocated(s, NextSlot(s, k)) && !Accessible(s, NextSlot(s, k))
  {
    hide TypeMax, KindOk, Accessible, Refs, Held;
    assert KindOk(s, k);
    FullIff(s, k);
    AccessibleIsAllocated(s);
    var a := NextSlot(s, k);
    HomeIs(a, k);
  }

  lemma AllocateKeepsKind(s: Mem, k: Kind)
    requires Allocatable(s, k) && KindOk(s, k) && k < SYMBOL && (forall a :: a in s.pinned ==> !InKind(a, k, STRIDE))
    ensures KindOk(Allocate(s, k), k)
  {
    hide TypeMax, Refs;
    var a := NextSlot(s, k);
    var s' := Allocate(s, k);
    if s.free[k] != NULL {
      ListPop(s.objs, k, s.max[k], s.free[k], s.lists[k], Zeroed(k));
    } else {
      var max := s.max[k];
      forall b: Slot | InKind(b, k, max + 1) && s'.objs[b].Freed? ensures b in s'.lists[k] {
        assert InKind(b, k, max);
      }
    }
  }

  lemma AllocateKeeps(s: Mem, k: Kind)
    requires Inv(s) && k < SYMBOL && CanAlloc(s, k)
    ensures Allocatable(s, k) && Inv(Allocate(s, k))
  {
    hide TypeMax, KindValid, Refs;
    assert KindOk(s, k);
    FullIff(s, k);
    AllocateKeepsKind(s, k);
    var a := NextSlot(s, k);
    var s' := Allocate(s, k);
    HomeIs(a, k);
    forall j: Kind ensures KindOk(s', j) {
      if j != k {
        assert KindOk(s, j);
        KindFrame(s, s', j);
      }
    }
    AllocateAllocates(s, k);
    forall b, c | Allocated(s', b) && c in Refs(s'.objs[b]) ensures Allocated(s', c) {
      if b != a {
        assert Allocated(s, b) && Allocated(s, c);
      }
    }
    forall b | b in Held(s') ensures Allocated(s', b) {
      assert b == a || (b in Held(s) && Allocated(s, b));
    }
  }

  lemma AllocateAllocates(s: Mem, k: Kind)
    requires Allocatable(s, k) && k < SYMBOL && InKind(NextSlot(s, k), k, STRIDE)
    requires s.free[k] != NULL ==> InKind(s.free[k], k, s.max[k])
    ensures forall b :: Allocated(Allocate(s, k), b) <==> b == NextSlot(s, k) || Allocated(s, b)
  {
    hide TypeMax, Refs;
    var a := NextSlot(s, k);
    HomeIs(a, k);
    forall b: Slot | b != a
      ensures InKind(b, Home(b), Allocate(s, k).max[Home(b)]) <==> InKind(b, Home(b), s.max[Home(b)])
    {
    }
  }

  // ---- symbols are never freed

  function NewSymbol(s: Mem): (s': Mem)
    requires Sized(s) && s.max[SYMBOL] < TypeMax(SYMBOL)
    ensures Sized(s')
  {
    var a := SYMBOL * STRIDE + s.max[SYMBOL];
    s.(objs := s.objs[a := Symbol], max := s.max[SYMBOL := s.max[SYMBOL] + 1],
       active := s.active[SYMBOL := s.active[SYMBOL] + 1], temps := s.temps + {a})
  }

  // lRootsSymbolPush
  function Pin(s: Mem, a: Slot): Mem {
    s.(marks := s.marks[a := 2], pinned := s.pinned + {a as nat})
  }

  lemma SymbolKind(s: Mem)
    requires Sized(s) && KindOk(s, SYMBOL) && s.max[SYMBOL] < TypeMax(SYMBOL)
    requires forall a :: a in s.pinned ==> InKind(a, SYMBOL, s.max[SYMBOL])
    ensures KindOk(NewSymbol(s), SYMBOL)
  {
  }

  lemma NewSymbolKeeps(s: Mem)
    requires Inv(s) && s.max[SYMBOL] < TypeMax(SYMBOL)
    ensures Inv(NewSymbol(s)) && !Allocated(s, SYMBOL * STRIDE + s.max[SYMBOL])
  {
    hide Refs, KindValid, TypeMax;
    var a := SYMBOL * STRIDE + s.max[SYMBOL];
    var s' := NewSymbol(s);
    assert KindOk(s, SYMBOL);
    HomeIs(a, SYMBOL);
    forall j: Kind ensures KindOk(s', j) {
      assert KindOk(s, j);
      if j != SYMBOL {
        KindFrame(s, s', j);
      } else {
        SymbolKind(s);
      }
    }
    forall b | Allocated(s', b) && b != a ensures Allocated(s, b) {
    }
    forall b, c | Allocated(s', b) && c in Refs(s'.objs[b]) ensures Allocated(s', c) {
      assert b == a ==> s'.objs[b] == Zeroed(SYMBOL);
      assert Allocated(s, b) && Allocated(s, c);
    }
    forall b | b in Held(s') ensures Allocated(s', b) {
      assert b == a || (b in Held(s) && Allocated(s, b));
    }
  }

  lemma PinKeeps(s: Mem, a: Slot)
    requires Inv(s) && InKind(a, SYMBOL, s.max[SYMBOL])
    ensures Inv(Pin(s, a))
  {
    hide Refs;
    var s' := Pin(s, a);
    assert KindOk(s, SYMBOL);
    HomeIs(a, SYMBOL);
    forall j: Kind ensures KindOk(s', j) {
      assert KindOk(s, j);
      if j != SYMBOL {
        KindFrame(s, s', j);
      }
    }
    forall b, c | Allocated(s', b) && c in Refs(s'.objs[b]) ensures Allocated(s', c) {
      assert Allocated(s, b) && Allocated(s, c);
    }
    forall b | b in Held(s') ensures Allocated(s', b) {
      assert b in Held(s) && Allocated(s, b);
    }
  }

  // ---- the mutator

  // A store through a reference the program holds, of references it holds.
  ghost predicate CanWrite(s: Mem, a: int, o: Object)
    requires Sized(s)
  {
    Accessible(s, a) && a < TOTAL && KindOf(o) == Home(a) && forall c :: c in Refs(o) ==> Accessible(s, c)
  }

  // Which is: every field of the new contents that points, points to what is in
  // reach.
  lemma CanWriteIff(s: Mem, a: Slot, o: Object)
    requires Sized(s) && !o.Freed?
    ensures CanWrite(s, a, o) <==>
            Accessible(s, a) && KindOf(o) == Home(a) && forall i: nat, c: nat :: Points(FieldOf(o, i), c) ==> Accessible(s, c)
  {
    hide Refs, FieldOf, Accessible, KindOf;
    forall c | c in Refs(o) ensures exists i: nat :: Points(FieldOf(o, i), c) {
      RefsAreFields(o, c);
    }
    forall i: nat, c: nat | Points(FieldOf(o, i), c) ensures c in Refs(o) {
      RefsAreFields(o, c);
    }
  }

  function Write(s: Mem, a: Slot, o: Object): Mem {
    s.(objs := s.objs[a := o])
  }

  // Reading a field of an object in reach, or one of the places where a program
  // starts, brings what it holds into reach of the C code.
  ghost predicate CanLoad(s: Mem, a: int, i: nat)
    requires Sized(s)
  {
    Accessible(s, a) && a < TOTAL && FieldOf(s.objs[a], i).Boxed? && FieldOf(s.objs[a], i).p != NULL
  }

  predicate CanTake(s: Mem, at: Place)
    requires Sized(s)
  {
    var v := AtPlace(s.roots, s.max[NFUNC], at);
    v.Boxed? && v.p != NULL
  }

  function Loaded(s: Mem, v: Val): Mem
    requires v.Boxed?
  {
    s.(temps := s.temps + {v.p})
  }

  lemma LoadedKeeps(s: Mem, v: Val)
    requires Inv(s) && v.Boxed? && Allocated(s, v.p)
    ensures Inv(Loaded(s, v))
  {
    hide Refs, KindValid, RootRefs;
    var s' := Loaded(s, v);
    forall j: Kind ensures KindOk(s', j) {
      assert KindOk(s, j);
    }
    forall b, c | Allocated(s', b) && c in Refs(s'.objs[b]) ensures Allocated(s', c) {
      assert Allocated(s, b) && Allocated(s, c);
    }
    forall b | b in Held(s') ensures Allocated(s', b) {
      assert b == v.p || (b in Held(s) && Allocated(s, b));
    }
  }

  lemma LoadKeeps(s: Mem, a: int, i: nat)
    requires Inv(s) && CanLoad(s, a, i)
    ensures Inv(Loaded(s, FieldOf(s.objs[a], i)))
  {
    hide Refs, FieldOf, Valid, Accessible, Held;
    AccessibleIsAllocated(s);
    var v := FieldOf(s.objs[a], i);
    assert Points(v, v.p);
    RefsAreFields(s.objs[a], v.p);
    LoadedKeeps(s, v);
  }

  lemma TakeKeeps(s: Mem, at: Place)
    requires Inv(s) && CanTake(s, at)
    ensures Inv(Loaded(s, AtPlace(s.roots, s.max[NFUNC], at)))
  {
    hide Refs, RootRefs, AtPlace;
    var v := AtPlace(s.roots, s.max[NFUNC], at);
    assert KindOk(s, NFUNC);
    assert Points(v, v.p);
    PlaceIsRoot(s.roots, s.max[NFUNC], at, v.p);
    assert v.p in Held(s);
    LoadedKeeps(s, v);
  }

  // New contents of the stacks, the class table and the C variables, all of
  // them references that the program held already.
  ghost predicate CanHold(s: Mem, r: Roots, t: set<nat>)
    requires Sized(s)
  {
    forall c :: c in RootRefs(r, s.max[NFUNC]) + t ==> Accessible(s, c)
  }

  function Hold(s: Mem, r: Roots, t: set<nat>): Mem {
    s.(roots := r, temps := t)
  }

  lemma WriteKeeps(s: Mem, a: Slot, o: Object)
    requires Inv(s) && CanWrite(s, a, o)
    ensures Inv(Write(s, a, o))
  {
    hide Refs, KindValid, Accessible;
    AccessibleIsAllocated(s);
    var s' := Write(s, a, o);
    forall j: Kind ensures KindOk(s', j) {
      assert KindOk(s, j);
      if j != Home(a) {
        forall b: Slot | InKind(b, j, STRIDE) ensures b != a {
          HomeIs(b, j);
        }
        KindFrame(s, s', j);
      } else {
        WriteKeepsKind(s, a, o);
      }
    }
    forall b, c | Allocated(s', b) && c in Refs(s'.objs[b]) ensures Allocated(s', c) {
      assert Allocated(s, b);
      if b == a {
        assert Accessible(s, c);
      }
      assert Allocated(s, c);
    }
    forall b | b in Held(s') ensures Allocated(s', b) {
      assert b in Held(s) && Allocated(s, b);
    }
  }

  lemma WriteKeepsKind(s: Mem, a: Slot, o: Object)
    requires Sized(s) && KindOk(s, Home(a)) && Allocated(s, a) && KindOf(o) == Home(a)
    ensures KindOk(Write(s, a, o), Home(a))
  {
    hide TypeMax, Refs, ListValid;
    var k := Home(a);
    var s' := Write(s, a, o);
    ListWrite(s.objs, k, s.max[k], s.free[k], s.lists[k], a, o);
  }

  lemma ListWrite(objs: Objects, k: Kind, max: nat, head: Ptr, list: seq<Slot>, a: Slot, o: Object)
    requires ListValid(objs, k, max, head, list) && !objs[a].Freed? && !o.Freed?
    ensures ListValid(objs[a := o], k, max, head, list)
  {
  }

  lemma HoldKeeps(s: Mem, r: Roots, t: set<nat>)
    requires Inv(s) && CanHold(s, r, t)
    ensures Inv(Hold(s, r, t))
  {
    hide Refs, KindValid, Accessible, RootRefs;
    AccessibleIsAllocated(s);
    var s' := Hold(s, r, t);
    forall j: Kind ensures KindOk(s', j) {
      assert KindOk(s, j);
    }
    forall b, c | Allocated(s', b) && c in Refs(s'.objs[b]) ensures Allocated(s', c) {
      assert Allocated(s, b) && Allocated(s, c);
    }
    forall b | b in Held(s') ensures Allocated(s', b) {
      assert Accessible(s, b);
    }
  }

  // ---- collection at a safe point

  // A slot survives when it is a symbol or native function, or reachable from
  // the collector's roots.
  ghost predicate Survives(s: Mem, a: int)
    requires Sized(s)
  {
    Allocated(s, a) && (Home(a) >= SYMBOL || Reaches(s.objs, RootRefs(s.roots, s.max[NFUNC]), a))
  }

  // What a collection does: exactly the survivors stay, untouched, and the
  // rest is freed.
  ghost predicate Collects(s: Mem, s': Mem) {
    && Sized(s) && Valid(s')
    && s'.max == s.max && s'.pinned == s.pinned && s'.roots == s.roots && s'.temps == {} && !s'.soon
    && (forall a :: Allocated(s', a) <==> Survives(s, a))
    && forall a :: Survives(s, a) ==> s'.objs[a] == s.objs[a]
  }

  lemma CollectKeeps(s: Mem, s': Mem)
    requires Inv(s) && Collects(s, s')
    ensures Inv(s')
  {
    hide KindValid, KindOk;
    var roots := RootRefs(s.roots, s.max[NFUNC]);
    forall a, c | Allocated(s', a) && c in Refs(s'.objs[a]) ensures Allocated(s', c) {
      assert Survives(s, a) && Allocated(s, c);
      SurvivorIsReachable(s, a);
      if Refs(s.objs[a]) != {} {
        ReachesChild(s.objs, roots, a, c);
      }
      assert Survives(s, c);
    }
    forall a | a in Held(s') ensures Allocated(s', a) {
      assert a in Held(s) && Allocated(s, a);
      ReachesStart(s.objs, roots, a);
      assert Survives(s, a);
    }
  }

  lemma SurvivorIsReachable(s: Mem, a: int)
    requires Inv(s) && Survives(s, a)
    ensures Refs(s.objs[a]) == {} || Reaches(s.objs, RootRefs(s.roots, s.max[NFUNC]), a)
  {
    hide ListValid;
    var k := Home(a);
    assert KindOk(s, k);
    if k == NFUNC {
      ReachesStart(s.objs, RootRefs(s.roots, s.max[NFUNC]), a);
    }
  }

  lemma ReachesChild(objs: Objects, from: set<nat>, a: Slot, c: nat)
    requires Reaches(objs, from, a) && c in Refs(objs[a])
    ensures Reaches(objs, from, c)
  {
    var p :| Leads(objs, from, p, a);
    assert Leads(objs, from, p + [c], c);
  }

  // ---- whole runs

  datatype Step =
    | Alloc(k: Kind)
    | Intern
    | PinSymbol(symbol: Slot)
    | Load(a: Slot, i: nat)
    | Take(at: Place)
    | Store(a: Slot, o: Object)
    | Root(r: Roots, t: set<nat>)
    | Collection

  ghost predicate Next(s: Mem, step: Step, s': Mem) {
    && Sized(s)
    && match step
       case Alloc(k) => k < SYMBOL && Allocatable(s, k) && s' == Allocate(s, k)
       case Intern => s.max[SYMBOL] < TypeMax(SYMBOL) && s' == NewSymbol(s)
       case PinSymbol(a) => InKind(a, SYMBOL, s.max[SYMBOL]) && s' == Pin(s, a)
       case Load(a, i) => CanLoad(s, a, i) && s' == Loaded(s, FieldOf(s.objs[a], i))
       case Take(at) => CanTake(s, at) && s' == Loaded(s, AtPlace(s.roots, s.max[NFUNC], at))
       case Store(a, o) => CanWrite(s, a, o) && s' == Write(s, a, o)
       case Root(r, t) => CanHold(s, r, t) && s' == Hold(s, r, t)
       case Collection => Collects(s, s')
  }

  lemma NextKeeps(s: Mem, step: Step, s': Mem)
    requires Inv(s) && Next(s, step, s')
    ensures Inv(s')
  {
    hide Inv, Collects;
    match step
    case Alloc(k) => AllocateKeeps(s, k);
    case Intern => NewSymbolKeeps(s);
    case PinSymbol(a) => PinKeeps(s, a);
    case Load(a, i) => LoadKeeps(s, a, i);
    case Take(at) => TakeKeeps(s, at);
    case Store(a, o) => WriteKeeps(s, a, o);
    case Root(r, t) => HoldKeeps(s, r, t);
    case Collection => CollectKeeps(s, s');
  }

  // GC safety over whole runs: however allocations, stores, root changes and
  // collections are interleaved, everything the program can reach is allocated
  // (so on no free list), and no allocation returns a slot in reach.
  lemma {:induction false} RunIsSafe(run: seq<Mem>, steps: seq<Step>)
    requires |run| == |steps| + 1 && Inv(run[0])
    requires forall i :: 0 <= i < |steps| ==> Next(run[i], steps[i], run[i + 1])
    ensures forall i :: 0 <= i < |run| ==> Safe(run[i])
    ensures forall i :: 0 <= i < |steps| && steps[i].Alloc? ==>
              Sized(run[i]) && CanAlloc(run[i], steps[i].k) && !Accessible(run[i], NextSlot(run[i], steps[i].k))
    decreases |run|
  {
    hide Next, Inv, Safe, Accessible;
    InvIsSafe(run[0]);
    if |steps| > 0 {
      assert Next(run[0], steps[0], run[1]);
      NextKeeps(run[0], steps[0], run[1]);
      if steps[0].Alloc? {
        FirstIsFresh(run[0], steps[0], run[1]);
      }
      RunIsSafe(run[1..], steps[1..]);
      forall i | 0 <= i < |run| ensures Safe(run[i]) {
        assert i > 0 ==> run[i] == run[1..][i - 1];
      }
      forall i | 0 <= i < |steps| && steps[i].Alloc?
        ensures Sized(run[i]) && CanAlloc(run[i], steps[i].k) && !Accessible(run[i], NextSlot(run[i], steps[i].k))
      {
        assert i > 0 ==> run[i] == run[1..][i - 1] && steps[i] == steps[1..][i - 1];
      }
    }
  }

  // Nothing in reach is on a free list, and the free lists partition the slots
  // below Max with the live ones.
  ghost predicate Safe(s: Mem) {
    && Valid(s)
    && (forall a :: Accessible(s, a) ==> Allocated(s, a))
    && forall a, k: Kind :: Accessible(s, a) ==> a !in s.lists[k]
  }

  lemma InvIsSafe(s: Mem)
    requires Inv(s)
    ensures Safe(s)
  {
    hide Accessible, Refs, Held;
    AccessibleIsAllocated(s);
    forall a, k: Kind | Accessible(s, a) ensures a !in s.lists[k] {
      assert KindOk(s, k) && Allocated(s, a);
    }
  }

  lemma FirstIsFresh(s: Mem, step: Step, s': Mem)
    requires Inv(s) && Next(s, step, s') && step.Alloc?
    ensures Sized(s) && CanAlloc(s, step.k) && !Accessible(s, NextSlot(s, step.k))
  {
    hide Inv, Accessible;
    AllocationIsFresh(s, step.k);
  }

  // ---- conservation

  function Below(k: Kind, max: nat): (r: set<int>)
    ensures forall a :: a in r <==> InKind(a, k, max)
  {
    set a | k * STRIDE <= a < k * STRIDE + max && InKind(a, k, max)
  }

  lemma {:induction false} BelowSize(k: Kind, max: nat)
    ensures |Below(k, max)| == max
  {
    if max > 0 {
      BelowSize(k, max - 1);
      assert Below(k, max) == Below(k, max - 1) + {k * STRIDE + max - 1};
    }
  }

  function Elements(list: seq<Slot>): (r: set<int>)
    ensures forall a :: a in r <==> a in list
  {
    set a | a in list
  }

  lemma {:induction false} DistinctSize(list: seq<Slot>)
    requires forall i, j :: 0 <= i < j < |list| ==> list[i] != list[j]
    ensures |Elements(list)| == |list|
  {
    if list == [] {
      assert Elements(list) == {};
    } else {
      var n := |list| - 1;
      DistinctSize(list[..n]);
      assert list[n] !in list[..n];
      assert Elements(list) == Elements(list[..n]) + {list[n]};
    }
  }

  // Active counts the live slots, and the free list holds the others below Max.
  lemma ActiveCountsLive(s: Mem, k: Kind)
    requires Valid(s)
    ensures s.active[k] == |set a | a in Below(k, s.max[k]) && Allocated(s, a)|
    ensures s.active[k] + |s.lists[k]| == s.max[k]
    ensures Elements(s.lists[k]) == set a | a in Below(k, s.max[k]) && !Allocated(s, a)
  {
    hide TypeMax;
    assert KindOk(s, k);
    var all := Below(k, s.max[k]);
    var live := set a | a in all && Allocated(s, a);
    var free := Elements(s.lists[k]);
    BelowSize(k, s.max[k]);
    DistinctSize(s.lists[k]);
    forall a | a in all ensures 0 <= a < TOTAL && Home(a) == k && (a in free <==> a !in live) {
      HomeIs(a, k);
    }
    assert live + free == all && live !! free;
    assert |live + free| == |live| + |free|;
  }

  // n allocations in a row.
  ghost function AllocateMany(s: Mem, k: Kind, n: nat): (r: Mem)
    requires Inv(s) && k < SYMBOL && s.active[k] + n <= TypeMax(k) - 1
    ensures Inv(r) && r.active[k] == s.active[k] + n
    decreases n
  {
    if n == 0 then s
    else
      FullIff(s, k);
      AllocateKeeps(s, k);
      AllocateMany(Allocate(s, k), k, n - 1)
  }

  // The flag is first raised by the allocation that leaves 127 slots, and then
  // exactly 126 more succeed without a collection.
  lemma Headroom(s: Mem, k: Kind)
    requires Inv(s) && k < SYMBOL && CanAlloc(s, k) && !s.soon
    ensures Allocatable(s, k)
    ensures Allocate(s, k).soon <==> Allocate(s, k).active[k] >= TypeMax(k) - 127
    ensures Allocate(s, k).active[k] == TypeMax(k) - 127 ==>
              var s1 := Allocate(s, k);
              Inv(s1) && s1.active[k] + 126 <= TypeMax(k) - 1 && !CanAlloc(AllocateMany(s1, k, 126), k)
  {
    hide Inv, TypeMax, AllocateMany;
    AllocateKeeps(s, k);
    var s1 := Allocate(s, k);
    if s1.active[k] == TypeMax(k) - 127 {
      var s2 := AllocateMany(s1, k, 126);
      InvKind(s2, k);
      FullIff(s2, k);
    }
  }

  lemma InvKind(s: Mem, k: Kind)
    requires Inv(s)
    ensures Sized(s) && KindOk(s, k)
  {
  }
}
