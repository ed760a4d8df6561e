// The allocator, the free functions, the sweep and lGarbageCollect over the
// static arrays, in place: each call is one step of the transition system in
// module Collector.
module Runtime {
  import opened Memory
  import opened Marker
  import opened Collector

  class Storage {
    const heap: Heap
    var max: seq<nat>
    var active: seq<int>
    var free: seq<Ptr>
    var soon: bool                       // lGCShouldRunSoon
    var roots: Roots
    ghost var lists: seq<seq<Slot>>
    ghost var pinned: set<nat>
    ghost var temps: set<nat>

    ghost predicate Shaped()
      reads this
    {
      heap.Sized() && |max| == KINDS && |active| == KINDS && |free| == KINDS && |lists| == KINDS
    }

    ghost function State(): (s: Mem)
      requires Shaped()
      reads this, heap.slots, heap.marks
      ensures Collector.Sized(s)
    {
      Mem(heap.Objs(), heap.MarkMap(), max, active, free, lists, pinned, soon, roots, temps)
    }

    // Nothing allocated yet.
    constructor ()
      ensures Shaped() && Inv(State()) && fresh(heap.slots) && fresh(heap.marks)
      ensures forall a :: !Allocated(State(), a)
    {
      heap := new Heap();
      max, active, free := seq(KINDS, _ => 0), seq(KINDS, _ => 0), seq(KINDS, _ => NULL);
      soon, roots := false, Roots([], NULL, NULL, [], []);
      lists, pinned, temps := seq(KINDS, _ => []), {}, {};
      new;
      assert NFuncRefs(0) == {};
    }

    // TAllocRaw; NULL stands for the exit on a full heap.
    method Alloc(k: Kind) returns (r: Ptr)
      requires Shaped() && Inv(State()) && k < SYMBOL
      modifies this, heap.slots, heap.marks
      ensures Shaped() && Inv(State())
      ensures r == NULL <==> old(active[k]) == TypeMax(k) - 1
      ensures r == NULL ==> State() == old(State())
      ensures r != NULL ==> Next(old(State()), Step.Alloc(k), State()) && r == NextSlot(old(State()), k)
    {
      hide Inv, KindOk, TypeMax, Refs, KindValid;
      ghost var s := State();
      InvKind(s, k);
      FullIff(s, k);
      if free[k] == NULL && max[k] >= TypeMax(k) - 1 {
        return NULL;
      }
      AllocateKeeps(s, k);
      if free[k] == NULL {
        r := k * STRIDE + max[k];
        max := max[k := max[k] + 1];
      } else {
        r := free[k];
        free := free[k := heap.slots[r].nextFree];
        lists := lists[k := lists[k][1..]];
      }
      active := active[k := active[k] + 1];
      if TypeMax(k) - active[k] < 128 {
        soon := true;
      }
      heap.marks[r] := 0;
      heap.slots[r] := Zeroed(k);
      temps := temps + {r};
      assert heap.Objs() == s.objs[r := Zeroed(k)] && heap.MarkMap() == s.marks[r := 0];
      assert State() == Allocate(s, k);
    }

    method Store(a: Slot, o: Object)
      requires Shaped() && Inv(State()) && CanWrite(State(), a, o)
      modifies heap.slots
      ensures Shaped() && Inv(State()) && Next(old(State()), Step.Store(a, o), State())
    {
      hide Inv, CanWrite;
      ghost var s := State();
      WriteKeeps(s, a, o);
      heap.slots[a] := o;
      assert State() == Write(s, a, o);
    }

    // lPairFree and its siblings: the slot becomes the head of the free list.
    method Free(a: Slot, k: Kind)
      requires Shaped() && InKind(a, k, max[k]) && !heap.slots[a].Freed?
      requires ListValid(heap.Objs(), k, max[k], free[k], lists[k])
      modifies this`active, this`free, this`lists, heap.slots, heap.marks
      ensures Shaped()
      ensures heap.Objs() == old(heap.Objs())[a := Freed(old(free[k]))]
      ensures heap.MarkMap() == old(heap.MarkMap())[a := 2]
      ensures active == old(active)[k := old(active[k]) - 1]
      ensures free == old(free)[k := a] && lists == old(lists)[k := [a] + old(lists[k])]
      ensures ListValid(heap.Objs(), k, max[k], free[k], lists[k])
    {
      hide ListValid;
      ListPush(heap.Objs(), k, max[k], free[k], lists[k], a);
      heap.slots[a] := Freed(free[k]);
      active := active[k := active[k] - 1];
      free := free[k := a];
      lists := lists[k := [a] + lists[k]];
      heap.marks[a] := 2;
      assert heap.Objs() == old(heap.Objs())[a := Freed(old(free[k]))];
      assert heap.MarkMap() == old(heap.MarkMap())[a := 2];
    }

    // What sweeping does to one slot.
    static ghost predicate Swept(k: Kind, o: Object, m: Mark, o': Object, m': Mark) {
      if m == 0 && k < SYMBOL then o'.Freed? && m' == 2
      else o' == o && m' == if m == 2 then 2 else 0
    }

    // One type's loop of lGCSweep.
    method SweepKind(k: Kind)
      requires Shaped() && max[k] <= TypeMax(k)
      requires ListValid(heap.Objs(), k, max[k], free[k], lists[k]) && active[k] + |lists[k]| == max[k]
      requires forall a: Slot :: InKind(a, k, max[k]) && heap.slots[a].Freed? ==> heap.marks[a] == 2
      modifies this`active, this`free, this`lists, heap.slots, heap.marks
      ensures Shaped()
      ensures ListValid(heap.Objs(), k, max[k], free[k], lists[k]) && active[k] + |lists[k]| == max[k]
      ensures forall a: Slot :: if InKind(a, k, max[k])
                then Swept(k, old(heap.slots[a]), old(heap.marks[a]), heap.slots[a], heap.marks[a])
                else heap.slots[a] == old(heap.slots[a]) && heap.marks[a] == old(heap.marks[a])
      ensures forall j: Kind :: j != k ==>
                active[j] == old(active[j]) && free[j] == old(free[j]) && lists[j] == old(lists[j])
      ensures k >= SYMBOL ==> lists == old(lists)
    {
      hide ListValid;
      var i := 0;
      while i < max[k]
        invariant 0 <= i <= max[k] && Shaped()
        invariant ListValid(heap.Objs(), k, max[k], free[k], lists[k]) && active[k] + |lists[k]| == max[k]
        invariant forall a: Slot :: if InKind(a, k, i)
                    then Swept(k, old(heap.slots[a]), old(heap.marks[a]), heap.slots[a], heap.marks[a])
                    else heap.slots[a] == old(heap.slots[a]) && heap.marks[a] == old(heap.marks[a])
        invariant forall j: Kind :: j != k ==>
                    active[j] == old(active[j]) && free[j] == old(free[j]) && lists[j] == old(lists[j])
        invariant k >= SYMBOL ==> lists == old(lists)
      {
        var a := k * STRIDE + i;
        assert InKind(a, k, max[k]) && !InKind(a, k, i);
        if heap.marks[a] == 0 && k < SYMBOL {
          Free(a, k);
        }
        heap.marks[a] := if heap.marks[a] == 2 then 2 else 0;
        i := i + 1;
      }
    }

    ghost predicate ListsOk()
      requires Shaped()
      reads this, heap.slots
    {
      forall j: Kind ::
        max[j] <= TypeMax(j) && ListValid(heap.Objs(), j, max[j], free[j], lists[j]) && active[j] + |lists[j]| == max[j]
    }

    ghost predicate FreeAtTwo()
      requires Shaped()
      reads this, heap.slots, heap.marks
    {
      forall a: Slot :: InKind(a, Home(a), max[Home(a)]) && heap.slots[a].Freed? ==> heap.marks[a] == 2
    }

    // `s1` is `s` after the sweep of the first `n` types.
    static ghost predicate SweptTo(s: Mem, s1: Mem, n: int)
      requires Collector.Sized(s)
    {
      forall a: Slot :: if Home(a) < n && InKind(a, Home(a), s.max[Home(a)])
        then Swept(Home(a), s.objs[a], s.marks[a], s1.objs[a], s1.marks[a])
        else s1.objs[a] == s.objs[a] && s1.marks[a] == s.marks[a]
    }

    method SweepNext(k: Kind, ghost s: Mem)
      requires Shaped() && ListsOk() && Collector.Sized(s) && s.max == max && SweptTo(s, State(), k)
      requires forall a: Slot :: InKind(a, Home(a), s.max[Home(a)]) && s.objs[a].Freed? ==> s.marks[a] == 2
      modifies this`active, this`free, this`lists, heap.slots, heap.marks
      ensures Shaped() && ListsOk() && SweptTo(s, State(), k + 1)
      ensures forall j: Kind :: j >= SYMBOL ==> lists[j] == old(lists[j])
    {
      hide ListValid;
      ghost var s0 := State();
      forall a: Slot | InKind(a, k, max[k])
        ensures Home(a) == k && heap.slots[a] == s.objs[a] && heap.marks[a] == s.marks[a]
      {
        HomeIs(a, k);
      }
      SweepKind(k);
      forall j: Kind
        ensures ListValid(heap.Objs(), j, max[j], free[j], lists[j]) && active[j] + |lists[j]| == max[j]
      {
        if j != k {
          forall a: Slot | InKind(a, j, max[j]) ensures heap.Objs()[a] == s0.objs[a] {
            HomeIs(a, j);
          }
          ListFrame(s0.objs, heap.Objs(), j, max[j], free[j], lists[j]);
        }
      }
      forall a: Slot | InKind(a, k, max[k]) ensures Home(a) == k {
        HomeIs(a, k);
      }
    }

    // lGCSweep
    method Sweep()
      requires Shaped() && ListsOk() && FreeAtTwo()
      modifies this`active, this`free, this`lists, heap.slots, heap.marks
      ensures Shaped() && ListsOk() && SweptTo(old(State()), State(), KINDS)
      ensures forall j: Kind :: j >= SYMBOL ==> lists[j] == old(lists[j])
    {
      hide ListsOk, SweptTo;
      ghost var s := State();
      assert SweptTo(s, s, 0) by { SweptNone(s); }
      var k := 0;
      while k < KINDS
        invariant 0 <= k <= KINDS && Shaped() && ListsOk() && SweptTo(s, State(), k)
        invariant forall j: Kind :: j >= SYMBOL ==> lists[j] == old(lists[j])
      {
        SweepNext(k, s);
        k := k + 1;
      }
    }

    static lemma SweptNone(s: Mem)
      requires Collector.Sized(s)
      ensures SweptTo(s, s, 0)
    {
    }

    // lGarbageCollect at a safe point.
    method Collect()
      requires Shaped() && Inv(State())
      modifies this, heap.slots, heap.marks
      ensures Shaped() && Inv(State()) && Next(old(State()), Collection, State())
    {
      hide Inv, Collects, SweptTo, Marked, ListValid, RootRefs, TypeMax;
      ghost var s := State();
      Before(s);
      heap.MarkAll(roots, max[NFUNC]);
      ghost var s1 := State();
      assert s1 == s.(marks := s1.marks);
      MarkKeepsLists(s, s1);
      Sweep();
      ghost var s2 := State();
      soon := false;
      temps := {};
      SweptSame(s1, s2, State());
      AfterSweep(s, s1, State());
      CollectKeeps(s, State());
    }

    static lemma SweptSame(s1: Mem, s2: Mem, s3: Mem)
      requires Collector.Sized(s1) && SweptTo(s1, s2, KINDS) && s3.objs == s2.objs && s3.marks == s2.marks
      ensures SweptTo(s1, s3, KINDS)
    {
    }

    static lemma Before(s: Mem)
      requires Inv(s)
      ensures s.max[NFUNC] <= TypeMax(NFUNC)
      ensures forall k: Kind :: s.max[k] <= TypeMax(k) && ListValid(s.objs, k, s.max[k], s.free[k], s.lists[k]) &&
                                s.active[k] + |s.lists[k]| == s.max[k]
    {
      hide ListValid, TypeMax;
      assert KindOk(s, NFUNC);
      forall k: Kind
        ensures s.max[k] <= TypeMax(k) && ListValid(s.objs, k, s.max[k], s.free[k], s.lists[k]) &&
                s.active[k] + |s.lists[k]| == s.max[k]
      {
        assert KindOk(s, k);
      }
    }

    // Marking leaves free slots at 2.
    static lemma MarkKeepsLists(s: Mem, s1: Mem)
      requires Inv(s) && s1 == s.(marks := s1.marks) && Marked(s.objs, s.marks, s1.marks, RootRefs(s.roots, s.max[NFUNC]))
      ensures forall a: Slot :: InKind(a, Home(a), s.max[Home(a)]) && s.objs[a].Freed? ==> s1.marks[a] == 2
    {
      forall a: Slot | InKind(a, Home(a), s.max[Home(a)]) && s.objs[a].Freed? ensures s1.marks[a] == 2 {
        assert KindOk(s, Home(a));
      }
    }

    // The mark phase tells survivors from garbage.
    static lemma ExactlyReachable(s: Mem, s1: Mem)
      requires Inv(s) && s1 == s.(marks := s1.marks) && Marked(s.objs, s.marks, s1.marks, RootRefs(s.roots, s.max[NFUNC]))
      ensures forall a: Slot :: s1.marks[a] == 1 <==>
                s.marks[a] == 0 && Reaches(s.objs, RootRefs(s.roots, s.max[NFUNC]), a)
      ensures forall a: Slot :: s1.marks[a] == 1 ==> Allocated(s, a)
      ensures forall a: Slot :: s1.marks[a] == 2 <==> s.marks[a] == 2
    {
      hide Marked, Refs, RootRefs, ListValid, TypeMax, Reaches;
      var from := RootRefs(s.roots, s.max[NFUNC]);
      forall a: Slot ensures s.marks[a] != 1 {
        assert KindOk(s, Home(a));
      }
      AccessibleIsAllocated(s);
      forall a: Slot | s.marks[a] == 2 && Reaches(s.objs, from, a) ensures Refs(s.objs[a]) == {} {
        ReachesMore(s.objs, from, Held(s), a);
        assert Accessible(s, a) && KindOk(s, Home(a));
        PinnedHasNoRefs(s, a);
      }
      MarkingIsExact(s.objs, s.marks, s1.marks, from);
      forall a: Slot | s1.marks[a] == 1 ensures Allocated(s, a) {
        ReachesMore(s.objs, from, Held(s), a);
        assert Accessible(s, a);
      }
    }

    static lemma PinnedHasNoRefs(s: Mem, a: Slot)
      requires Inv(s) && Allocated(s, a) && s.marks[a] == 2
      ensures Refs(s.objs[a]) == {}
    {
      hide ListValid, TypeMax, RootRefs;
      assert KindOk(s, Home(a)) && KindOk(s, SYMBOL);
      assert a in s.pinned;
      HomeIs(a, SYMBOL);
    }

    static lemma SweptKind(s: Mem, s1: Mem, s2: Mem, k: Kind)
      requires Collector.Sized(s) && KindOk(s, k) && s1 == s.(marks := s1.marks) && Collector.Sized(s2)
      requires forall a: Slot :: s1.marks[a] == 2 <==> s.marks[a] == 2
      requires forall a: Slot :: s1.marks[a] == 1 ==> Allocated(s, a)
      requires SweptTo(s1, s2, KINDS) && s2.max == s.max && s2.pinned == s.pinned
      requires ListValid(s2.objs, k, s2.max[k], s2.free[k], s2.lists[k]) && s2.active[k] + |s2.lists[k]| == s2.max[k]
      requires k >= SYMBOL ==> s2.lists[k] == s.lists[k]
      ensures KindOk(s2, k)
    {
      hide ListValid, TypeMax, KindOf;
      forall a: Slot | InKind(a, k, STRIDE) ensures Home(a) == k {
        HomeIs(a, k);
      }
    }

    static lemma SweptSlots(s: Mem, s1: Mem, s2: Mem)
      requires Inv(s) && s1 == s.(marks := s1.marks) && Collector.Sized(s2) && s2.max == s.max
      requires forall a: Slot :: s1.marks[a] == 1 <==>
                 s.marks[a] == 0 && Reaches(s.objs, RootRefs(s.roots, s.max[NFUNC]), a)
      requires forall a: Slot :: s1.marks[a] == 2 <==> s.marks[a] == 2
      requires SweptTo(s1, s2, KINDS)
      ensures forall a :: Allocated(s2, a) <==> Survives(s, a)
      ensures forall a :: Survives(s, a) ==> s2.objs[a] == s.objs[a]
    {
      hide ListValid, TypeMax, Refs, RootRefs, Reaches;
      forall a: Slot
        ensures Allocated(s2, a) <==> Survives(s, a)
        ensures Survives(s, a) ==> s2.objs[a] == s.objs[a]
      {
        assert KindOk(s, Home(a));
        if Home(a) < SYMBOL && Allocated(s, a) {
          assert KindOk(s, SYMBOL);
          NotPinned(s, a);
        }
      }
    }

    static lemma NotPinned(s: Mem, a: Slot)
      requires Inv(s) && Home(a) < SYMBOL && Allocated(s, a)
      ensures s.marks[a] == 0
    {
      hide ListValid, TypeMax, Refs, RootRefs;
      assert KindOk(s, Home(a)) && KindOk(s, SYMBOL);
      assert forall p :: p in s.pinned ==> InKind(p, SYMBOL, s.max[SYMBOL]);
    }

    static lemma PinnedBelowMax(s: Mem)
      requires Inv(s)
      ensures Collector.Sized(s) && forall a :: a in s.pinned ==> InKind(a, SYMBOL, s.max[SYMBOL])
    {
    }

    static lemma AfterSweep(s: Mem, s1: Mem, s2: Mem)
      requires Inv(s) && s1 == s.(marks := s1.marks) && Marked(s.objs, s.marks, s1.marks, RootRefs(s.roots, s.max[NFUNC]))
      requires SweptTo(s1, s2, KINDS) && Collector.Sized(s2)
      requires s2.max == s.max && s2.pinned == s.pinned && s2.roots == s.roots && s2.temps == {} && !s2.soon
      requires forall k: Kind :: ListValid(s2.objs, k, s2.max[k], s2.free[k], s2.lists[k]) &&
                                 s2.active[k] + |s2.lists[k]| == s2.max[k]
      requires forall k: Kind :: k >= SYMBOL ==> s2.lists[k] == s.lists[k]
      ensures Collects(s, s2)
    {
      hide ListValid, TypeMax, Refs, RootRefs, Reaches, Inv, Marked;
      ExactlyReachable(s, s1);
      PinnedBelowMax(s);
      forall k: Kind ensures KindOk(s2, k) {
        InvKind(s, k);
        SweptKind(s, s1, s2, k);
      }
      SweptSlots(s, s1, s2);
    }
  }
}
