// The mark phase: one method per pointer, value and object, as mutually
// recursive as the structure they walk, over a mark map updated in place.
module Marker {
  import opened Memory

  predicate IsSlot(a: int) { 0 <= a < TOTAL }

  // Every unmarked slot is in `white`.
  ghost predicate AllWhite(m: Marks, white: set<nat>) {
    forall a :: 0 <= a < TOTAL && m[a] == 0 ==> a in white
  }

  lemma StillWhite(objs: Objects, m0: Marks, m1: Marks, from: set<nat>, white: set<nat>)
    requires AllWhite(m0, white) && Marked(objs, m0, m1, from)
    ensures AllWhite(m1, white)
  {
    forall a | 0 <= a < TOTAL && m1[a] == 0 ensures a in white {
      assert m0[a] == 0;
    }
  }

  // One more step of a marking sequence.
  lemma Then(objs: Objects, m0: Marks, m1: Marks, m2: Marks, from1: set<nat>, from2: set<nat>, from: set<nat>, white: set<nat>)
    requires AllWhite(m1, white)
    requires Marked(objs, m0, m1, from1) && Marked(objs, m1, m2, from2) && from == from1 + from2
    ensures Marked(objs, m0, m2, from) && AllWhite(m2, white)
  {
    hide Marked, AllWhite;
    MarkedThen(objs, m0, m1, m2, from1, from2);
    StillWhite(objs, m1, m2, from2, white);
  }

  class Heap {
    const slots: array<Object>
    const marks: array<Mark>

    constructor ()
      ensures fresh(slots) && fresh(marks) && slots.Length == TOTAL && marks.Length == TOTAL
      ensures forall a :: 0 <= a < TOTAL ==> slots[a] == Symbol && marks[a] == 0
    {
      slots := new Object[TOTAL](_ => Symbol);
      marks := new Mark[TOTAL](_ => 0);
    }

    ghost predicate Sized() {
      slots.Length == TOTAL && marks.Length == TOTAL
    }

    ghost function Objs(): Objects
      requires Sized()
      reads slots
    {
      slots[..]
    }

    ghost function MarkMap(): Marks
      requires Sized()
      reads marks
    {
      marks[..]
    }

    // markerPrefix and the dispatch on the type of the slot
    method MarkPtr(p: Ptr, ghost white: set<nat>)
      requires Sized() && AllWhite(MarkMap(), white)
      modifies marks
      ensures Marked(Objs(), old(MarkMap()), MarkMap(), PtrRefs(p)) && AllWhite(MarkMap(), white)
      decreases white, 0
    {
      ghost var m0 := MarkMap();
      if p == NULL {
        MarkedNothing(Objs(), m0);
        return;
      }
      if marks[p] != 0 {
        return;
      }
      marks[p] := 1;
      assert MarkMap() == m0[p := 1];
      MarkFields(p, white - {p});
      MarkedSlot(Objs(), m0, MarkMap(), p);
      StillWhite(Objs(), m0, MarkMap(), {p}, white);
    }

    method MarkVal(v: Val, ghost white: set<nat>)
      requires Sized() && AllWhite(MarkMap(), white)
      modifies marks
      ensures Marked(Objs(), old(MarkMap()), MarkMap(), ValRefs(v)) && AllWhite(MarkMap(), white)
      decreases white, 1
    {
      if v.Boxed? {
        MarkPtr(v.p, white);
      } else {
        MarkedNothing(Objs(), MarkMap());
      }
    }

    method MarkData(data: seq<Val>, ghost white: set<nat>)
      requires Sized() && AllWhite(MarkMap(), white)
      modifies marks
      ensures Marked(Objs(), old(MarkMap()), MarkMap(), DataRefs(data)) && AllWhite(MarkMap(), white)
      decreases white, 2
    {
      hide Marked, AllWhite;
      ghost var m0 := MarkMap();
      MarkedNothing(Objs(), m0);
      var i := 0;
      while i < |data|
        invariant 0 <= i <= |data|
        invariant Marked(Objs(), m0, MarkMap(), DataRefs(data[..i])) && AllWhite(MarkMap(), white)
      {
        ghost var m1 := MarkMap();
        MarkVal(data[i], white);
        assert data[..i + 1][..i] == data[..i];
        Then(Objs(), m0, m1, MarkMap(), DataRefs(data[..i]), ValRefs(data[i]), DataRefs(data[..i + 1]), white);
        i := i + 1;
      }
      assert data[..i] == data;
    }

    method MarkEntries(entries: seq<Entry>, ghost white: set<nat>)
      requires Sized() && AllWhite(MarkMap(), white)
      modifies marks
      ensures Marked(Objs(), old(MarkMap()), MarkMap(), EntryRefs(entries)) && AllWhite(MarkMap(), white)
      decreases white, 2
    {
      hide Marked, AllWhite;
      ghost var m0 := MarkMap();
      MarkedNothing(Objs(), m0);
      var i := 0;
      while i < |entries|
        invariant 0 <= i <= |entries|
        invariant Marked(Objs(), m0, MarkMap(), EntryRefs(entries[..i])) && AllWhite(MarkMap(), white)
      {
        assert entries[..i + 1][..i] == entries[..i];
        ghost var done := EntryRefs(entries[..i]);
        if !entries[i].key.Nil? {
          ghost var m1 := MarkMap();
          MarkVal(entries[i].key, white);
          Then(Objs(), m0, m1, MarkMap(), done, ValRefs(entries[i].key), done + ValRefs(entries[i].key), white);
          ghost var m2 := MarkMap();
          MarkVal(entries[i].val, white);
          Then(Objs(), m0, m2, MarkMap(), done + ValRefs(entries[i].key), ValRefs(entries[i].val),
               EntryRefs(entries[..i + 1]), white);
        } else {
          assert EntryRefs(entries[..i + 1]) == done;
        }
        i := i + 1;
      }
      assert entries[..i] == entries;
    }

    method MarkBoth(p: Ptr, q: Ptr, ghost white: set<nat>)
      requires Sized() && AllWhite(MarkMap(), white)
      modifies marks
      ensures Marked(Objs(), old(MarkMap()), MarkMap(), PtrRefs(p) + PtrRefs(q)) && AllWhite(MarkMap(), white)
      decreases white, 1
    {
      hide Marked, AllWhite;
      ghost var m0 := MarkMap();
      MarkPtr(p, white);
      ghost var m1 := MarkMap();
      MarkPtr(q, white);
      Then(Objs(), m0, m1, MarkMap(), PtrRefs(p), PtrRefs(q), PtrRefs(p) + PtrRefs(q), white);
    }

    method MarkPtrAndVal(p: Ptr, v: Val, ghost white: set<nat>)
      requires Sized() && AllWhite(MarkMap(), white)
      modifies marks
      ensures Marked(Objs(), old(MarkMap()), MarkMap(), PtrRefs(p) + ValRefs(v)) && AllWhite(MarkMap(), white)
      decreases white, 2
    {
      hide Marked, AllWhite;
      ghost var m0 := MarkMap();
      MarkPtr(p, white);
      ghost var m1 := MarkMap();
      MarkVal(v, white);
      Then(Objs(), m0, m1, MarkMap(), PtrRefs(p), ValRefs(v), PtrRefs(p) + ValRefs(v), white);
    }

    // lPairGCMark, lTreeGCMark, lClosureGCMark, ... : the fields of slot `a`.
    method MarkFields(a: Slot, ghost white: set<nat>)
      requires Sized() && AllWhite(MarkMap(), white)
      modifies marks
      ensures Marked(Objs(), old(MarkMap()), MarkMap(), Refs(Objs()[a])) && AllWhite(MarkMap(), white)
      decreases white, 3
    {
      hide Marked, AllWhite;
      ghost var m0 := MarkMap();
      match slots[a]
      case Freed(n) => MarkPtr(n, white);
      case Array(data) => MarkData(data, white);
      case Closure(parent, bindings, meta, text, args) =>
        MarkBoth(parent, bindings, white);
        ghost var m1 := MarkMap();
        MarkBoth(meta, text, white);
        ghost var all := PtrRefs(parent) + PtrRefs(bindings) + PtrRefs(meta) + PtrRefs(text);
        Then(Objs(), m0, m1, MarkMap(), PtrRefs(parent) + PtrRefs(bindings), PtrRefs(meta) + PtrRefs(text), all, white);
        ghost var m2 := MarkMap();
        MarkVal(args, white);
        Then(Objs(), m0, m2, MarkMap(), all, ValRefs(args), all + ValRefs(args), white);
      case Tree(left, right, key, value) =>
        MarkPtrAndVal(key, value, white);
        ghost var m1 := MarkMap();
        MarkBoth(left, right, white);
        Then(Objs(), m0, m1, MarkMap(), PtrRefs(key) + ValRefs(value), PtrRefs(left) + PtrRefs(right),
             Refs(Objs()[a]), white);
      case TreeRoot(root) => MarkPtr(root, white);
      case Map(entries) => MarkEntries(entries, white);
      case Bytecode(literals) => MarkPtr(literals, white);
      case Buffer => MarkedNothing(Objs(), m0);
      case BufferView(buf) => MarkPtr(buf, white);
      case Pair(car, cdr) =>
        MarkVal(car, white);
        ghost var m1 := MarkMap();
        MarkVal(cdr, white);
        Then(Objs(), m0, m1, MarkMap(), ValRefs(car), ValRefs(cdr), ValRefs(car) + ValRefs(cdr), white);
      case Symbol => MarkedNothing(Objs(), m0);
      case NFunc(params, info) =>
        MarkVal(params, white);
        ghost var m1 := MarkMap();
        MarkPtr(info, white);
        Then(Objs(), m0, m1, MarkMap(), ValRefs(params), PtrRefs(info), ValRefs(params) + PtrRefs(info), white);
    }

    method MarkPtrs(ps: seq<Ptr>, ghost white: set<nat>)
      requires Sized() && AllWhite(MarkMap(), white)
      modifies marks
      ensures Marked(Objs(), old(MarkMap()), MarkMap(), PtrsRefs(ps)) && AllWhite(MarkMap(), white)
    {
      hide Marked, AllWhite;
      ghost var m0 := MarkMap();
      MarkedNothing(Objs(), m0);
      var i := 0;
      while i < |ps|
        invariant 0 <= i <= |ps|
        invariant Marked(Objs(), m0, MarkMap(), PtrsRefs(ps[..i])) && AllWhite(MarkMap(), white)
      {
        ghost var m1 := MarkMap();
        MarkPtr(ps[i], white);
        assert ps[..i + 1][..i] == ps[..i];
        Then(Objs(), m0, m1, MarkMap(), PtrsRefs(ps[..i]), PtrRefs(ps[i]), PtrsRefs(ps[..i + 1]), white);
        i := i + 1;
      }
      assert ps[..i] == ps;
    }

    method MarkClasses(classes: seq<Class>, ghost white: set<nat>)
      requires Sized() && AllWhite(MarkMap(), white)
      modifies marks
      ensures Marked(Objs(), old(MarkMap()), MarkMap(), ClassRefs(classes)) && AllWhite(MarkMap(), white)
    {
      hide Marked, AllWhite;
      ghost var m0 := MarkMap();
      MarkedNothing(Objs(), m0);
      var i := 0;
      while i < |classes|
        invariant 0 <= i <= |classes|
        invariant Marked(Objs(), m0, MarkMap(), ClassRefs(classes[..i])) && AllWhite(MarkMap(), white)
      {
        var c := classes[i];
        assert classes[..i + 1][..i] == classes[..i];
        ghost var m1 := MarkMap();
        MarkBoth(c.name, c.methods, white);
        ghost var some := ClassRefs(classes[..i]) + (PtrRefs(c.name) + PtrRefs(c.methods));
        Then(Objs(), m0, m1, MarkMap(), ClassRefs(classes[..i]), PtrRefs(c.name) + PtrRefs(c.methods), some, white);
        ghost var m2 := MarkMap();
        MarkPtr(c.staticMethods, white);
        Then(Objs(), m0, m2, MarkMap(), some, PtrRefs(c.staticMethods), ClassRefs(classes[..i + 1]), white);
        i := i + 1;
      }
      assert classes[..i] == classes;
    }

    method MarkNFuncs(nfuncs: nat, ghost white: set<nat>)
      requires nfuncs <= TypeMax(NFUNC)
      requires Sized() && AllWhite(MarkMap(), white)
      modifies marks
      ensures Marked(Objs(), old(MarkMap()), MarkMap(), NFuncRefs(nfuncs)) && AllWhite(MarkMap(), white)
    {
      hide Marked, AllWhite;
      ghost var m0 := MarkMap();
      MarkedNothing(Objs(), m0);
      var i := 0;
      assert NFuncRefs(0) == {};
      while i < nfuncs
        invariant 0 <= i <= nfuncs
        invariant Marked(Objs(), m0, MarkMap(), NFuncRefs(i)) && AllWhite(MarkMap(), white)
      {
        ghost var m1 := MarkMap();
        MarkPtr(NFUNC * STRIDE + i, white);
        assert NFuncRefs(i + 1) == NFuncRefs(i) + {NFUNC * STRIDE + i};
        Then(Objs(), m0, m1, MarkMap(), NFuncRefs(i), {NFUNC * STRIDE + i}, NFuncRefs(i + 1), white);
        i := i + 1;
      }
    }

    // lRootsMark
    method MarkRoots(r: Roots, nfuncs: nat, ghost white: set<nat>)
      requires nfuncs <= TypeMax(NFUNC)
      requires Sized() && AllWhite(MarkMap(), white)
      modifies marks
      ensures Marked(Objs(), old(MarkMap()), MarkMap(), ClassRefs(r.classes) + NFuncRefs(nfuncs) + PtrRefs(r.symbolTable))
      ensures AllWhite(MarkMap(), white)
    {
      hide Marked, AllWhite;
      ghost var m0 := MarkMap();
      MarkClasses(r.classes, white);
      ghost var m1 := MarkMap();
      MarkNFuncs(nfuncs, white);
      ghost var some := ClassRefs(r.classes) + NFuncRefs(nfuncs);
      Then(Objs(), m0, m1, MarkMap(), ClassRefs(r.classes), NFuncRefs(nfuncs), some, white);
      ghost var m2 := MarkMap();
      MarkPtr(r.symbolTable, white);
      Then(Objs(), m0, m2, MarkMap(), some, PtrRefs(r.symbolTable), some + PtrRefs(r.symbolTable), white);
    }

    // lThreadGCMark
    method MarkThread(r: Roots, ghost white: set<nat>)
      requires Sized() && AllWhite(MarkMap(), white)
      modifies marks
      ensures Marked(Objs(), old(MarkMap()), MarkMap(), ThreadRefs(r)) && AllWhite(MarkMap(), white)
    {
      hide Marked, AllWhite;
      ghost var m0 := MarkMap();
      MarkPtr(r.text, white);
      ghost var m1 := MarkMap();
      MarkPtrs(r.closures, white);
      ghost var some := PtrRefs(r.text) + PtrsRefs(r.closures);
      Then(Objs(), m0, m1, MarkMap(), PtrRefs(r.text), PtrsRefs(r.closures), some, white);
      ghost var m2 := MarkMap();
      MarkData(r.values, white);
      Then(Objs(), m0, m2, MarkMap(), some, DataRefs(r.values), ThreadRefs(r), white);
    }

    // The mark phase of lGarbageCollect.
    method MarkAll(r: Roots, nfuncs: nat)
      requires nfuncs <= TypeMax(NFUNC) && Sized()
      modifies marks
      ensures Marked(Objs(), old(MarkMap()), MarkMap(), RootRefs(r, nfuncs))
    {
      ghost var white := set a | 0 <= a < TOTAL && IsSlot(a);
      hide Marked;
      ghost var m0 := MarkMap();
      MarkRoots(r, nfuncs, white);
      ghost var m1 := MarkMap();
      MarkThread(r, white);
      Then(Objs(), m0, m1, MarkMap(), ClassRefs(r.classes) + NFuncRefs(nfuncs) + PtrRefs(r.symbolTable),
           ThreadRefs(r), RootRefs(r, nfuncs), white);
    }
  }
}
