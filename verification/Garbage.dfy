// The collector's roots are enough for the VM: whatever happens to closures
// that the code, the closure stack and the value stack do not lead to, no
// later step can tell.
module Garbage {
  import opened Values
  import opened Primitives
  import opened Assembler
  import opened Machine
  import opened Frames

  // ---- what is marked

  // Every closure that a value leads to is in s.
  ghost predicate In(v: Value, s: set<nat>) {
    match v
    case Pair(a, d) => In(a, s) && In(d, s)
    case Bytecode(t) => forall i :: 0 <= i < |t.literals| ==> In(t.literals[i], s)
    case Lambda(id) => id in s
    case Env(id) => id in s
    case _ => true
  }

  ghost predicate TextIn(t: Text, s: set<nat>) {
    forall i :: 0 <= i < |t.literals| ==> In(t.literals[i], s)
  }

  ghost predicate AllIn(vs: seq<Value>, s: set<nat>) {
    forall i :: 0 <= i < |vs| ==> In(vs[i], s)
  }

  ghost predicate DataIn(data: map<Symbol, Value>, s: set<nat>) {
    forall x :: x in data ==> In(data[x], s)
  }

  // lClosureGCMark
  ghost predicate ClosureIn(k: Closure, s: set<nat>) {
    (k.parent.Some? ==> k.parent.value in s) && DataIn(k.data, s) && TextIn(k.text, s) && In(k.args, s)
  }

  ghost predicate HeapIn(heap: seq<Closure>, s: set<nat>) {
    forall i :: i in s ==> i < |heap| && ClosureIn(heap[i], s)
  }

  // The value on its way to a handler; at a safe point there is none.
  ghost predicate ModeIn(mode: Mode, s: set<nat>) { mode.Throwing? ==> In(mode.thrown.value, s) }

  ghost predicate StackIn(cs: seq<nat>, s: set<nat>) { forall i :: 0 <= i < |cs| ==> cs[i] in s }

  // lThreadGCMark: s holds what it marks, and is closed under references.
  ghost predicate Marked(m: Vm, s: set<nat>) {
    HeapIn(m.heap, s) && TextIn(m.text, s) && StackIn(m.cs, s) && AllIn(m.stack, s) && ModeIn(m.mode, s)
  }

  // The heaps differ only in closures outside s.
  ghost predicate Agree(heap: seq<Closure>, heap': seq<Closure>, s: set<nat>) {
    |heap'| == |heap| && forall i :: i in s && i < |heap| ==> heap'[i] == heap[i]
  }

  ghost predicate Twins(m: Vm, m': Vm, s: set<nat>) {
    Marked(m, s) && m.c in s && m' == m.(heap := m'.heap) && Agree(m.heap, m'.heap, s)
  }

  // ---- larger and smaller sets

  lemma {:induction false} InMore(v: Value, s: set<nat>, t: set<nat>)
    requires In(v, s) && s <= t
    ensures In(v, t)
  {
    match v
    case Pair(a, d) =>
      InMore(a, s, t);
      InMore(d, s, t);
    case Bytecode(x) =>
      forall i | 0 <= i < |x.literals| ensures In(x.literals[i], t) {
        InMore(x.literals[i], s, t);
      }
    case _ =>
  }

  lemma {:induction false} InBoth(v: Value, s: set<nat>, t: set<nat>)
    requires In(v, s) && In(v, t)
    ensures In(v, s * t)
  {
    match v
    case Pair(a, d) =>
      InBoth(a, s, t);
      InBoth(d, s, t);
    case Bytecode(x) =>
      forall i | 0 <= i < |x.literals| ensures In(x.literals[i], s * t) {
        InBoth(x.literals[i], s, t);
      }
    case _ =>
  }

  lemma AllMore(vs: seq<Value>, s: set<nat>, t: set<nat>)
    requires AllIn(vs, s) && s <= t
    ensures AllIn(vs, t)
  {
    hide In;
    forall i | 0 <= i < |vs| ensures In(vs[i], t) {
      InMore(vs[i], s, t);
    }
  }

  lemma AllBoth(vs: seq<Value>, s: set<nat>, t: set<nat>)
    requires AllIn(vs, s) && AllIn(vs, t)
    ensures AllIn(vs, s * t)
  {
    hide In;
    forall i | 0 <= i < |vs| ensures In(vs[i], s * t) {
      InBoth(vs[i], s, t);
    }
  }

  lemma TextMore(x: Text, s: set<nat>, t: set<nat>)
    requires TextIn(x, s) && s <= t
    ensures TextIn(x, t)
  {
    hide In;
    forall i | 0 <= i < |x.literals| ensures In(x.literals[i], t) {
      InMore(x.literals[i], s, t);
    }
  }

  lemma ClosureMore(k: Closure, s: set<nat>, t: set<nat>)
    requires ClosureIn(k, s) && s <= t
    ensures ClosureIn(k, t)
  {
    hide In;
    TextMore(k.text, s, t);
    InMore(k.args, s, t);
    forall x | x in k.data ensures In(k.data[x], t) {
      InMore(k.data[x], s, t);
    }
  }

  lemma ClosureBoth(k: Closure, s: set<nat>, t: set<nat>)
    requires ClosureIn(k, s) && ClosureIn(k, t)
    ensures ClosureIn(k, s * t)
  {
    hide In;
    AllBoth(k.text.literals, s, t);
    InBoth(k.args, s, t);
    forall x | x in k.data ensures In(k.data[x], s * t) {
      InBoth(k.data[x], s, t);
    }
  }

  // ---- what a step builds from what it finds

  lemma {:induction false} ListDownIn(vs: seq<Value>, lo: nat, hi: nat, acc: Value, s: set<nat>)
    requires lo <= hi <= |vs| && AllIn(vs, s) && In(acc, s)
    ensures In(ListDown(vs, lo, hi, acc), s)
    decreases hi - lo
  {
    if lo < hi {
      ListDownIn(vs, lo, hi - 1, Pair(vs[hi - 1], acc), s);
    }
  }

  lemma {:induction false} BindStackIn(params: Value, vs: seq<Value>, i: nat, data: map<Symbol, Value>, s: set<nat>)
    requires i <= |vs| && AllIn(vs, s) && DataIn(data, s)
    ensures DataIn(BindStack(params, vs, i, data), s)
  {
    if params.Pair? {
      if i == |vs| {
        BindStackIn(params.cdr, vs, i, data[NameOf(params.car) := Nil], s);
      } else {
        BindStackIn(params.cdr, vs, i + 1, data[NameOf(params.car) := vs[i]], s);
      }
    } else if params.Sym? {
      ListDownIn(vs, i, |vs|, Nil, s);
    }
  }

  lemma {:induction false} BindListIn(params: Value, args: Value, data: map<Symbol, Value>, s: set<nat>)
    requires In(args, s) && DataIn(data, s)
    ensures DataIn(BindList(params, args, data), s)
    decreases params
  {
    if params.Pair? {
      if args.Pair? {
        BindListIn(params.cdr, args.cdr, data[NameOf(params.car) := args.car], s);
      } else {
        BindListIn(params.cdr, args, data[NameOf(params.car) := Nil], s);
      }
    }
  }

  lemma SimpleIn(s: set<nat>)
    ensures In(Nil, s) && DataIn(map[], s) && TextIn(NO_TEXT, s)
    ensures forall b :: In(Bool(b), s)
    ensures forall i :: In(Int(i), s)
  {
  }

  lemma PairIn(a: Value, d: Value, s: set<nat>)
    requires In(a, s) && In(d, s)
    ensures In(Pair(a, d), s)
  {
  }

  lemma CarIn(a: Value, s: set<nat>)
    requires In(a, s)
    ensures In(Car(a), s) && In(Cdr(a), s)
  {
  }

  lemma ErrorsIn(v: Value, x: Symbol, s: set<nat>)
    requires In(v, s)
    ensures In(NonNumeric(v).value, s) && In(ArityError(v).value, s) && In(CantApply(v).value, s)
    ensures In(CantResolve(x).value, s) && In(CantSet(x).value, s)
  {
    ExceptionIn("type-error", "Can't calculate with non numeric types", v, s);
    ExceptionIn("arity-error", "This subroutine needs 2 arguments", v, s);
    ExceptionIn("type-error", "Can't apply to following val", v, s);
    ExceptionIn("unbound-variable", "Can't resolve symbol", Sym(x), s);
    ExceptionIn("unbound-variable", "Can't set symbol", Sym(x), s);
  }

  lemma ExceptionIn(kind: Symbol, message: string, v: Value, s: set<nat>)
    requires In(v, s)
    ensures In(ExceptionList(kind, message, v), s)
  {
    assert In(Pair(v, Nil), s);
    assert In(Pair(Str(message), Pair(v, Nil)), s);
  }

  lemma Apply1In(op: Op1, a: Value, s: set<nat>)
    requires In(a, s)
    ensures Apply1(op, a).Ok? ==> In(Apply1(op, a).v, s)
    ensures Apply1(op, a).Err? ==> In(Apply1(op, a).thrown.value, s)
  {
    hide In, Car, Cdr, NonNumeric;
    SimpleIn(s);
    CarIn(a, s);
    CarIn(Cdr(a), s);
    ErrorsIn(a, "", s);
  }

  lemma Apply2In(op: Op2, a: Value, b: Value, s: set<nat>)
    requires In(a, s) && In(b, s)
    ensures Apply2(op, a, b).Ok? ==> In(Apply2(op, a, b).v, s)
    ensures Apply2(op, a, b).Err? ==> In(Apply2(op, a, b).thrown.value, s)
  {
    hide Compare, In, ArityError, NonNumeric, Wrap64, BitAnd, BitOr, BitXor;
    SimpleIn(s);
    PairIn(a, b, s);
    ErrorsIn(a, "", s);
    ErrorsIn(b, "", s);
  }

  // ---- what a step reads from the heap is the same

  lemma {:induction false} LookupSame(heap: seq<Closure>, heap': seq<Closure>, c: nat, x: Symbol, s: set<nat>)
    requires HeapIn(heap, s) && Agree(heap, heap', s) && c in s
    ensures LookupH(heap', c, x) == LookupH(heap, c, x)
    ensures LookupH(heap, c, x).Some? ==> In(LookupH(heap, c, x).value, s)
  {
    hide In, TextIn;
    assert ClosureIn(heap[c], s);
    if x !in heap[c].data && heap[c].parent.Some? && heap[c].parent.value < c {
      LookupSame(heap, heap', heap[c].parent.value, x, s);
    }
  }

  lemma {:induction false} BinderSame(heap: seq<Closure>, heap': seq<Closure>, c: nat, x: Symbol, s: set<nat>)
    requires HeapIn(heap, s) && Agree(heap, heap', s) && c in s
    ensures BinderH(heap', c, x) == BinderH(heap, c, x)
    ensures BinderH(heap, c, x).Some? ==> BinderH(heap, c, x).value in s
  {
    hide In, TextIn, DataIn;
    assert ClosureIn(heap[c], s);
    if x !in heap[c].data && heap[c].parent.Some? && heap[c].parent.value < c {
      BinderSame(heap, heap', heap[c].parent.value, x, s);
    }
  }

  lemma {:induction false} IndicesSame(heap: seq<Closure>, heap': seq<Closure>, cs: seq<nat>, k: nat, s: set<nat>)
    requires Agree(heap, heap', s) && StackIn(cs, s) && k < |cs|
    ensures FrameIndex(heap', cs, k) == FrameIndex(heap, cs, k) && TryIndex(heap', cs, k) == TryIndex(heap, cs, k)
  {
    assert cs[k] in s;
    if k > 0 {
      IndicesSame(heap, heap', cs, k - 1, s);
    }
  }

  lemma {:induction false} TraceSame(heap: seq<Closure>, heap': seq<Closure>, cs: seq<nat>, s: set<nat>)
    requires Agree(heap, heap', s) && StackIn(cs, s)
    ensures StackTrace(heap', cs) == StackTrace(heap, cs) && In(StackTrace(heap, cs), s)
  {
    if cs != [] {
      assert cs[|cs| - 1] in s;
      TraceSame(heap, heap', cs[..|cs| - 1], s);
    }
  }

  lemma {:induction false} AppendIn(list: Value, v: Value, s: set<nat>)
    requires In(list, s) && In(v, s)
    ensures In(AppendTo(list, v), s)
  {
    if list.Pair? {
      if list.cdr.Pair? {
        AppendIn(list.cdr, v, s);
      } else {
        assert In(Pair(v, Nil), s);
      }
    }
  }

  lemma ReportIn(m: Vm, m': Vm, t: Thrown, s: set<nat>)
    requires Twins(m, m', s) && In(t.value, s)
    ensures HandlerArgument(m', t) == HandlerArgument(m, t) && In(HandlerArgument(m, t), s)
  {
    hide In, StackTrace, AppendTo, HeapIn;
    TraceSame(m.heap, m'.heap, m.cs, s);
    if t.value.Pair? {
      AppendIn(t.value, StackTrace(m.heap, m.cs), s);
    }
    SimpleIn(s);
    PairIn(t.value, Nil, s);
  }

  // ---- steps of two states that differ in garbage

  // Only the stack, the position or the mode changes.
  lemma StackTwins(m: Vm, m': Vm, n: Vm, n': Vm, s: set<nat>)
    requires Twins(m, m', s) && n' == n.(heap := m'.heap)
    requires n.heap == m.heap && n.cs == m.cs && n.c == m.c && n.text == m.text && AllIn(n.stack, s) && ModeIn(n.mode, s)
    ensures Twins(n, n', s)
  {
    hide HeapIn, TextIn, AllIn, StackIn, Agree, ModeIn;
  }

  lemma PoppedIn(m: Vm, n: nat, s: set<nat>)
    requires AllIn(m.stack, s) && n <= |m.stack|
    ensures AllIn(Popped(m, n), s) && AllIn(m.stack[|m.stack| - n..], s) && (m.stack != [] ==> In(Top(m), s))
  {
    hide In;
  }

  lemma PushedIn(vs: seq<Value>, v: Value, s: set<nat>)
    requires AllIn(vs, s) && In(v, s)
    ensures AllIn(vs + [v], s)
  {
    hide In;
  }

  lemma LiteralIn(m: Vm, wide: bool, s: set<nat>)
    requires TextIn(m.text, s) && Literal(m, wide).Some?
    ensures In(Literal(m, wide).value, s)
  {
    hide In, Index16;
  }

  lemma TwinFacts(m: Vm, m': Vm, s: set<nat>)
    requires Twins(m, m', s)
    ensures HeapIn(m.heap, s) && TextIn(m.text, s) && AllIn(m.stack, s) && StackIn(m.cs, s) && ModeIn(m.mode, s)
    ensures m.c in s && m.c < |m.heap| && Agree(m.heap, m'.heap, s) && m' == m.(heap := m'.heap)
  {
    hide TextIn, AllIn, ClosureIn;
  }

  lemma LoadTwins(m: Vm, m': Vm, wide: bool, s: set<nat>)
    requires Twins(m, m', s) && m.mode.Running?
    ensures Twins(DoPush(m, wide), DoPush(m', wide), s) && Twins(DoGet(m, wide), DoGet(m', wide), s)
  {
    hide In, AllIn, HeapIn, TextIn, StackIn, Agree, Twins, Literal, LookupH, CantResolve;
    TwinFacts(m, m', s);
    LiteralSame(m, m', wide);
    var l := Literal(m, wide);
    if l.Some? {
      LiteralIn(m, wide, s);
      PushedIn(m.stack, l.value, s);
      if l.value.Sym? {
        var x := l.value.s;
        LookupSame(m.heap, m'.heap, m.c, x, s);
        SimpleIn(s);
        ErrorsIn(Nil, x, s);
        if LookupH(m.heap, m.c, x).Some? {
          PushedIn(m.stack, LookupH(m.heap, m.c, x).value, s);
        }
      }
    }
    StackTwins(m, m', DoPush(m, wide), DoPush(m', wide), s);
    StackTwins(m, m', DoGet(m, wide), DoGet(m', wide), s);
  }

  lemma LiteralSame(m: Vm, m': Vm, wide: bool)
    requires m' == m.(heap := m'.heap)
    ensures Literal(m', wide) == Literal(m, wide)
  {
  }

  // The same value stored in both.
  lemma BindTwins(m: Vm, m': Vm, n: Vm, n': Vm, b: nat, x: Symbol, v: Value, s: set<nat>)
    requires Twins(m, m', s) && b in s && b < |m.heap| && In(v, s) && ModeIn(n.mode, s)
    requires n == m.(mode := n.mode, ip := n.ip, heap := BindH(m.heap, b, x, v)) && n' == n.(heap := BindH(m'.heap, b, x, v))
    ensures Twins(n, n', s)
  {
    hide In, TextIn, AllIn, StackIn, ModeIn;
    assert ClosureIn(m.heap[b], s);
    forall i | i in s ensures i < |n.heap| && ClosureIn(n.heap[i], s) {
      assert ClosureIn(m.heap[i], s);
    }
  }

  lemma StoreTwins(m: Vm, m': Vm, wide: bool, s: set<nat>)
    requires Twins(m, m', s) && m.mode.Running?
    ensures Twins(DoSet(m, wide), DoSet(m', wide), s) && Twins(DoDef(m, wide), DoDef(m', wide), s)
  {
    hide In, AllIn, HeapIn, TextIn, StackIn, Agree, Twins, Literal, BinderH, BindH, CantSet;
    TwinFacts(m, m', s);
    SameSize(m.heap, m'.heap, s);
    LiteralSame(m, m', wide);
    var l := Literal(m, wide);
    if l.Some? && l.value.Sym? && m.stack != [] {
      var x := l.value.s;
      PoppedIn(m, 0, s);
      SimpleIn(s);
      ErrorsIn(Nil, x, s);
      BinderSame(m.heap, m'.heap, m.c, x, s);
      var b := BinderH(m.heap, m.c, x);
      if b.Some? {
        BindTwins(m, m', DoSet(m, wide), DoSet(m', wide), b.value, x, Top(m), s);
      } else {
        StackTwins(m, m', DoSet(m, wide), DoSet(m', wide), s);
      }
      BindTwins(m, m', DoDef(m, wide), DoDef(m', wide), m.c, x, Top(m), s);
    } else {
      StackTwins(m, m', DoSet(m, wide), DoSet(m', wide), s);
      StackTwins(m, m', DoDef(m, wide), DoDef(m', wide), s);
    }
  }

  lemma SameSize(heap: seq<Closure>, heap': seq<Closure>, s: set<nat>)
    requires Agree(heap, heap', s)
    ensures |heap'| == |heap|
  {
  }

  lemma Prim1Twins(m: Vm, m': Vm, op: Op1, s: set<nat>)
    requires Twins(m, m', s) && m.mode.Running?
    ensures Twins(DoPrim1(m, op), DoPrim1(m', op), s)
  {
    hide In, AllIn, HeapIn, TextIn, StackIn, Agree, Twins, Apply1, Popped, Top;
    TwinFacts(m, m', s);
    if m.stack != [] {
      PoppedIn(m, 1, s);
      Apply1In(op, Top(m), s);
      if Apply1(op, Top(m)).Ok? {
        PushedIn(Popped(m, 1), Apply1(op, Top(m)).v, s);
      }
    }
    SameTop(m, m', 1);
    StackTwins(m, m', DoPrim1(m, op), DoPrim1(m', op), s);
  }

  lemma Prim2Twins(m: Vm, m': Vm, op: Op2, s: set<nat>)
    requires Twins(m, m', s) && m.mode.Running?
    ensures Twins(DoPrim2(m, op), DoPrim2(m', op), s)
  {
    hide In, AllIn, HeapIn, TextIn, StackIn, Agree, Twins, Apply2, Popped, Top;
    TwinFacts(m, m', s);
    if |m.stack| >= 2 {
      var a, b := m.stack[|m.stack| - 2], Top(m);
      PoppedIn(m, 1, s);
      PoppedIn(m, 2, s);
      ElementIn(m.stack, |m.stack| - 2, s);
      Apply2In(op, a, b, s);
      if Apply2(op, a, b).Ok? {
        PushedIn(Popped(m, 2), Apply2(op, a, b).v, s);
      }
    }
    SameTop(m, m', 1);
    SameTop(m, m', 2);
    StackTwins(m, m', DoPrim2(m, op), DoPrim2(m', op), s);
  }

  lemma SameTop(m: Vm, m': Vm, n: nat)
    requires m'.stack == m.stack
    ensures n <= |m.stack| ==> Popped(m', n) == Popped(m, n)
    ensures m.stack != [] ==> Top(m') == Top(m)
  {
  }

  lemma ElementIn(vs: seq<Value>, i: nat, s: set<nat>)
    requires AllIn(vs, s) && i < |vs|
    ensures In(vs[i], s)
  {
  }

  lemma ListTwins(m: Vm, m': Vm, s: set<nat>)
    requires Twins(m, m', s) && m.mode.Running?
    ensures Twins(DoList(m), DoList(m'), s)
  {
    hide In, AllIn, HeapIn, TextIn, StackIn, Agree, Twins, ListDown;
    TwinFacts(m, m', s);
    if 0 <= m.ip < |m.text.data| && |m.stack| >= m.text.data[m.ip] {
      var n: nat := m.text.data[m.ip];
      PoppedIn(m, n, s);
      SimpleIn(s);
      ListDownIn(m.stack[|m.stack| - n..], 0, n, Nil, s);
      PushedIn(Popped(m, n), ListDown(m.stack[|m.stack| - n..], 0, n, Nil), s);
    }
    StackTwins(m, m', DoList(m), DoList(m'), s);
  }

  // A fresh closure; n and n' have the stack and the mode of the result.
  lemma FreshTwins(m: Vm, m': Vm, k: Closure, n: Vm, n': Vm, s: set<nat>, t: set<nat>)
    requires Twins(m, m', s) && ClosureIn(k, s) && t == s + {|m.heap|}
    requires n.heap == m.heap + [k] && n' == n.(heap := m'.heap + [k]) && TextIn(n.text, s) && AllIn(n.stack, t) && n.mode.Running?
    requires (n.cs == m.cs && n.c == m.c) || (n.cs == m.cs + [|m.heap|] && n.c == |m.heap|)
    ensures Twins(n, n', t)
  {
    hide In, TextIn, AllIn, ClosureIn, DataIn;
    forall i | i in t ensures i < |n.heap| && ClosureIn(n.heap[i], t) {
      if i in s && i != |m.heap| {
        assert ClosureIn(m.heap[i], s);
        ClosureMore(m.heap[i], s, t);
      } else {
        ClosureMore(k, s, t);
      }
    }
    TextMore(n.text, s, t);
  }

  lemma FnTwins(m: Vm, m': Vm, s: set<nat>)
    requires Twins(m, m', s) && m.mode.Running?
    ensures Twins(DoFn(m), DoFn(m'), s) || Twins(DoFn(m), DoFn(m'), s + {|m.heap|})
  {
    hide AllIn, HeapIn, TextIn, StackIn, Agree, Twins;
    TwinFacts(m, m', s);
    SameSize(m.heap, m'.heap, s);
    if |m.stack| < 3 || !Top(m).Bytecode? {
      StackTwins(m, m', DoFn(m), DoFn(m'), s);
    } else {
      var t := s + {|m.heap|};
      PoppedIn(m, 3, s);
      ElementIn(m.stack, |m.stack| - 3, s);
      BytecodeIn(Top(m).text, s);
      SimpleIn(s);
      AllMore(Popped(m, 3), s, t);
      PushedIn(Popped(m, 3), Lambda(|m.heap|), t);
      FreshTwins(m, m', DoFn(m).heap[|m.heap|], DoFn(m), DoFn(m'), s, t);
    }
  }

  lemma BytecodeIn(x: Text, s: set<nat>)
    ensures In(Bytecode(x), s) <==> TextIn(x, s)
  {
  }

  lemma LetTwins(m: Vm, m': Vm, s: set<nat>)
    requires Twins(m, m', s) && m.mode.Running?
    ensures Twins(DoLet(m), DoLet(m'), s + {|m.heap|}) && Twins(DoClosurePop(m), DoClosurePop(m'), s)
  {
    hide In, AllIn, HeapIn, TextIn, Agree;
    TwinFacts(m, m', s);
    SameSize(m.heap, m'.heap, s);
    SimpleIn(s);
    AllMore(m.stack, s, s + {|m.heap|});
    FreshTwins(m, m', DoLet(m).heap[|m.heap|], DoLet(m), DoLet(m'), s, s + {|m.heap|});
  }

  lemma SaveTwins(m: Vm, m': Vm, ip: int, s: set<nat>)
    requires Twins(m, m', s) && m.c < |m.heap|
    ensures m'.c < |m'.heap| && Twins(Save(m, ip), Save(m', ip), s)
  {
    hide In, AllIn, TextIn, DataIn, StackIn, ModeIn;
    forall i | i in s ensures i < |m.heap| && ClosureIn(Save(m, ip).heap[i], s) {
      assert ClosureIn(m.heap[i], s);
    }
  }

  lemma EnterTwins(m: Vm, m': Vm, id: nat, data: map<Symbol, Value>, s: set<nat>)
    requires Twins(m, m', s) && m.mode.Running? && id in s && DataIn(data, s)
    ensures id < |m.heap| && id < |m'.heap|
    ensures Twins(EnterProcedure(m, id, data), EnterProcedure(m', id, data), s + {|m.heap|})
  {
    hide In, AllIn, TextIn, DataIn;
    TwinFacts(m, m', s);
    SameSize(m.heap, m'.heap, s);
    SimpleIn(s);
    assert ClosureIn(m.heap[id], s);
    var n, n' := EnterProcedure(m, id, data), EnterProcedure(m', id, data);
    AllMore(m.stack, s, s + {|m.heap|});
    FreshTwins(m, m', n.heap[|m.heap|], n, n', s, s + {|m.heap|});
  }

  lemma LambdaIn(id: nat, heap: seq<Closure>, heap': seq<Closure>, s: set<nat>)
    requires In(Lambda(id), s) && HeapIn(heap, s) && Agree(heap, heap', s)
    ensures id in s && id < |heap| && heap'[id] == heap[id] && In(heap[id].args, s)
  {
    assert ClosureIn(heap[id], s);
  }

  // What the two apply opcodes do once the arguments are bound.
  lemma CallTwins(m: Vm, m': Vm, ip: int, id: nat, data: map<Symbol, Value>, s: set<nat>)
    requires Twins(m, m', s) && m.mode.Running? && id in s && DataIn(data, s)
    ensures m.c < |m.heap| && m'.c < |m'.heap| && id < |m.heap| && id < |m'.heap|
    ensures Twins(EnterProcedure(Save(m, ip), id, data), EnterProcedure(Save(m', ip), id, data), s + {|m.heap|})
  {
    hide In, AllIn, TextIn, DataIn, Twins, EnterProcedure, Save;
    TwinFacts(m, m', s);
    SameSize(m.heap, m'.heap, s);
    SaveTwins(m, m', ip, s);
    SaveKeeps(m, ip);
    EnterTwins(Save(m, ip), Save(m', ip), id, data, s);
  }

  lemma SaveKeeps(m: Vm, ip: int)
    requires m.c < |m.heap|
    ensures Save(m, ip).mode == m.mode && |Save(m, ip).heap| == |m.heap|
  {
  }

  lemma ApplyTwins(m: Vm, m': Vm, s: set<nat>)
    requires Twins(m, m', s) && m.mode.Running?
    ensures Twins(DoApply(m), DoApply(m'), s) || Twins(DoApply(m), DoApply(m'), s + {|m.heap|})
  {
    hide In, AllIn, HeapIn, TextIn, StackIn, Agree, Twins, EnterProcedure, Save, BindStack, CantApply, DataIn;
    TwinFacts(m, m', s);
    SameSize(m.heap, m'.heap, s);
    if 0 <= m.ip < |m.text.data| && |m.stack| > m.text.data[m.ip] {
      var n: nat := m.text.data[m.ip];
      var vs := m.stack[|m.stack| - n..];
      var fun := m.stack[|m.stack| - n - 1];
      var m1 := m.(ip := m.ip + 1, stack := Popped(m, n + 1));
      PoppedIn(m, n + 1, s);
      PoppedIn(m, n, s);
      ElementIn(m.stack, |m.stack| - n - 1, s);
      ErrorsIn(fun, "", s);
      SimpleIn(s);
      if fun.Lambda? {
        StackTwins(m, m', m1, m1.(heap := m'.heap), s);
        LambdaIn(fun.id, m.heap, m'.heap, s);
        BindStackIn(m.heap[fun.id].args, vs, 0, map[], s);
        CallTwins(m1, m1.(heap := m'.heap), m1.ip, fun.id, BindStack(m.heap[fun.id].args, vs, 0, map[]), s);
        return;
      }
    }
    StackTwins(m, m', DoApply(m), DoApply(m'), s);
  }

  lemma ApplyCollectionTwins(m: Vm, m': Vm, s: set<nat>)
    requires Twins(m, m', s) && m.mode.Running?
    ensures Twins(DoApplyCollection(m), DoApplyCollection(m'), s) || Twins(DoApplyCollection(m), DoApplyCollection(m'), s + {|m.heap|})
  {
    hide In, AllIn, HeapIn, TextIn, StackIn, Agree, Twins, EnterProcedure, Save, BindList, CantApply, DataIn;
    TwinFacts(m, m', s);
    SameSize(m.heap, m'.heap, s);
    if |m.stack| >= 2 {
      var fun := m.stack[|m.stack| - 2];
      var m1 := m.(stack := Popped(m, 2));
      PoppedIn(m, 2, s);
      ElementIn(m.stack, |m.stack| - 2, s);
      ErrorsIn(fun, "", s);
      SimpleIn(s);
      if fun.Lambda? {
        StackTwins(m, m', m1, m1.(heap := m'.heap), s);
        LambdaIn(fun.id, m.heap, m'.heap, s);
        BindListIn(m.heap[fun.id].args, Top(m), map[], s);
        CallTwins(m1, m1.(heap := m'.heap), m1.ip, fun.id, BindList(m.heap[fun.id].args, Top(m), map[]), s);
        return;
      }
    }
    StackTwins(m, m', DoApplyCollection(m), DoApplyCollection(m'), s);
  }

  // Cutting the closure stack and going on in a closure on it.
  lemma CutTwins(m: Vm, m': Vm, n: Vm, n': Vm, k: nat, s: set<nat>)
    requires Twins(m, m', s) && n' == n.(heap := m'.heap) && n.heap == m.heap
    requires 0 < k <= |m.cs| && n.cs == m.cs[..k] && n.c == m.cs[k - 1]
    requires TextIn(n.text, s) && AllIn(n.stack, s) && ModeIn(n.mode, s)
    ensures Twins(n, n', s)
  {
    hide HeapIn, TextIn, AllIn, Agree, ModeIn;
  }

  lemma CallerIn(m: Vm, m': Vm, k: nat, s: set<nat>)
    requires HeapIn(m.heap, s) && StackIn(m.cs, s) && Agree(m.heap, m'.heap, s) && k < |m.cs|
    ensures m.cs[k] < |m.heap| == |m'.heap| && m'.heap[m.cs[k]] == m.heap[m.cs[k]] && TextIn(m.heap[m.cs[k]].text, s)
  {
    hide In, TextIn;
    assert ClosureIn(m.heap[m.cs[k]], s);
  }

  lemma RetTwins(m: Vm, m': Vm, s: set<nat>)
    requires Twins(m, m', s) && m.mode.Running?
    ensures Twins(DoRet(m), DoRet(m'), s)
  {
    hide In, AllIn, HeapIn, StackIn, TextIn, Twins, FrameIndex, Agree;
    TwinFacts(m, m', s);
    if m.stack != [] && m.cs != [] {
      IndicesSame(m.heap, m'.heap, m.cs, |m.cs| - 1, s);
      var b := FrameIndex(m.heap, m.cs, |m.cs| - 1);
      if b > 0 {
        CallerIn(m, m', b - 1, s);
        var sp := m.heap[m.cs[b - 1]].sp;
        if sp + 1 <= |m.stack| {
          PoppedIn(m, |m.stack| - sp - 1, s);
          PushedIn(m.stack[..sp + 1], Top(m), s);
          CutTwins(m, m', DoRet(m), DoRet(m'), b, s);
          return;
        }
      }
    }
    StackTwins(m, m', DoRet(m), DoRet(m'), s);
  }

  lemma TryTwins(m: Vm, m': Vm, s: set<nat>)
    requires Twins(m, m', s) && m.mode.Running?
    ensures Twins(DoTry(m), DoTry(m'), s) || Twins(DoTry(m), DoTry(m'), s + {|m.heap|})
  {
    hide In, AllIn, HeapIn, TextIn, StackIn, Agree, Twins, Save, DataIn, DecodeOffset;
    TwinFacts(m, m', s);
    SameSize(m.heap, m'.heap, s);
    if !(0 <= m.ip && m.ip + 1 < |m.text.data|) || m.stack == [] {
      StackTwins(m, m', DoTry(m), DoTry(m'), s);
    } else {
      var target := m.ip + DecodeOffset(m.text.data[m.ip], m.text.data[m.ip + 1]) - 1;
      var t := s + {|m.heap|};
      SaveTwins(m, m', target, s);
      SaveFrame(m, target);
      SaveFrame(m', target);
      PoppedIn(m, 1, s);
      SimpleIn(s);
      AllMore(Popped(m, 1), s, t);
      FreshTwins(Save(m, target), Save(m', target), DoTry(m).heap[|m.heap|], DoTry(m), DoTry(m'), s, t);
    }
  }

  lemma SaveFrame(m: Vm, ip: int)
    requires m.c < |m.heap|
    ensures Save(m, ip) == m.(heap := Save(m, ip).heap) && |Save(m, ip).heap| == |m.heap|
  {
  }

  // A try was found: its handler is called, or is not a procedure.
  lemma HandleTwins(m: Vm, m': Vm, fun: Value, v: Value, n: Vm, n': Vm, s: set<nat>)
    requires Twins(m, m', s) && m.mode.Running? && In(fun, s) && In(v, s)
    requires n == Handled(m, fun, v) && n' == Handled(m', fun, v)
    ensures Twins(n, n', s) || Twins(n, n', s + {|m.heap|})
  {
    hide In, AllIn, HeapIn, TextIn, StackIn, Agree, Twins, BindList, EnterProcedure, DataIn, CantApply;
    TwinFacts(m, m', s);
    ErrorsIn(fun, "", s);
    if fun.Lambda? {
      SimpleIn(s);
      PairIn(v, Nil, s);
      LambdaIn(fun.id, m.heap, m'.heap, s);
      BindListIn(m.heap[fun.id].args, Pair(v, Nil), map[], s);
      EnterTwins(m, m', fun.id, BindList(m.heap[fun.id].args, Pair(v, Nil), map[]), s);
    } else {
      StackTwins(m, m', n, n', s);
    }
  }

  // The end of an unwinding.
  function Handled(m: Vm, fun: Value, v: Value): Vm {
    if fun.Lambda? && fun.id < |m.heap| then EnterProcedure(m, fun.id, BindList(m.heap[fun.id].args, Pair(v, Nil), map[]))
    else Throw(m, CantApply(fun))
  }

  lemma UnwindIs(m: Vm, t: Thrown, k: nat)
    requires m.cs != [] && m.stack != [] && k == TryIndex(m.heap, m.cs, |m.cs| - 1)
    ensures k == 0 ==> Unwind(m, t) == m.(mode := if m.cs[0] < |m.heap| && m.heap[m.cs[0]].kind == TryScope then Stuck else Halted(HandlerArgument(m, t), true))
    ensures k > 0 && (m.heap[m.cs[k]].args.Lambda? ==> m.heap[m.cs[k]].args.id < |m.heap|) ==>
              Unwind(m, t) == Handled(m.(mode := Running, cs := m.cs[..k], c := m.cs[k - 1]), m.heap[m.cs[k]].args, HandlerArgument(m, t))
  {
    hide HandlerArgument, TryIndex, BindList, EnterProcedure, CantApply;
  }

  lemma UnwindTwins(m: Vm, m': Vm, t: Thrown, s: set<nat>)
    requires Twins(m, m', s) && In(t.value, s)
    ensures Twins(Unwind(m, t), Unwind(m', t), s) || Twins(Unwind(m, t), Unwind(m', t), s + {|m.heap|})
  {
    hide In, AllIn, HeapIn, TextIn, Twins, HandlerArgument, TryIndex, Unwind, Handled;
    TwinFacts(m, m', s);
    if m.cs != [] && m.stack != [] {
      ReportIn(m, m', t, s);
      IndicesSame(m.heap, m'.heap, m.cs, |m.cs| - 1, s);
      var k := TryIndex(m.heap, m.cs, |m.cs| - 1);
      UnwindIs(m, t, k);
      UnwindIs(m', t, k);
      if k > 0 {
        HandlerIn(m, m', k, s);
        var m1 := m.(mode := Running, cs := m.cs[..k], c := m.cs[k - 1]);
        CutTwins(m, m', m1, m1.(heap := m'.heap), k, s);
        HandleTwins(m1, m1.(heap := m'.heap), m.heap[m.cs[k]].args, HandlerArgument(m, t), Unwind(m, t), Unwind(m', t), s);
      } else {
        assert m.cs[0] in s;
        StackTwins(m, m', Unwind(m, t), Unwind(m', t), s);
      }
    } else {
      UnwindFails(m, t);
      UnwindFails(m', t);
      StackTwins(m, m', Unwind(m, t), Unwind(m', t), s);
    }
  }

  lemma UnwindFails(m: Vm, t: Thrown)
    requires m.cs == [] || m.stack == []
    ensures Unwind(m, t) == m.(mode := Stuck)
  {
  }

  lemma HandlerIn(m: Vm, m': Vm, k: nat, s: set<nat>)
    requires HeapIn(m.heap, s) && StackIn(m.cs, s) && Agree(m.heap, m'.heap, s) && k < |m.cs|
    ensures m.cs[k] in s && m.cs[k] < |m.heap| && m'.heap[m.cs[k]] == m.heap[m.cs[k]]
    ensures var fun := m.heap[m.cs[k]].args; In(fun, s) && (fun.Lambda? ==> fun.id < |m.heap|)
  {
    assert ClosureIn(m.heap[m.cs[k]], s);
  }

  // Jumps and branches.
  lemma JumpTwins(m: Vm, m': Vm, when: bool, s: set<nat>)
    requires Twins(m, m', s) && m.mode.Running?
    ensures Twins(DoJump(m), DoJump(m'), s) && Twins(DoBranch(m, when), DoBranch(m', when), s)
  {
    hide In, AllIn, HeapIn, TextIn, StackIn, Agree, Twins, DecodeOffset, Top, Popped;
    TwinFacts(m, m', s);
    SameTop(m, m', 1);
    if m.stack != [] {
      PoppedIn(m, 1, s);
    }
    StackTwins(m, m', DoJump(m), DoJump(m'), s);
    StackTwins(m, m', DoBranch(m, when), DoBranch(m', when), s);
  }

  // Pushing a constant or the top, and dropping it.
  lemma PushTwins(m: Vm, m': Vm, b: byte, s: set<nat>)
    requires Twins(m, m', s) && m.mode.Running?
    requires b in {OP_INT_BYTE, OP_NIL, OP_TRUE, OP_FALSE, OP_DUP, OP_DROP}
    ensures Twins(Dispatch(m, b), Dispatch(m', b), s)
  {
    hide In, AllIn, HeapIn, TextIn, StackIn, Agree, Twins, SignedByte, Top, Popped;
    TwinFacts(m, m', s);
    SimpleIn(s);
    SameTop(m, m', 1);
    if b == OP_DROP || b == OP_DUP {
      if m.stack != [] {
        PoppedIn(m, 1, s);
        PushedIn(m.stack, Top(m), s);
      }
    } else if b == OP_INT_BYTE {
      if 0 <= m.ip < |m.text.data| {
        PushedIn(m.stack, Int(SignedByte(m.text.data[m.ip])), s);
      }
    } else {
      PushedIn(m.stack, Bool(true), s);
      PushedIn(m.stack, Bool(false), s);
      PushedIn(m.stack, Nil, s);
    }
    StackTwins(m, m', Dispatch(m, b), Dispatch(m', b), s);
  }

  lemma PlainTwins(m: Vm, m': Vm, b: byte, s: set<nat>)
    requires Twins(m, m', s) && m.mode.Running?
    requires b in {OP_JMP, OP_JT, OP_JF, OP_INT_BYTE, OP_NIL, OP_TRUE, OP_FALSE, OP_DUP, OP_DROP}
    ensures Twins(Dispatch(m, b), Dispatch(m', b), s)
  {
    hide Twins, DoJump, DoBranch;
    if b in {OP_JMP, OP_JT, OP_JF} {
      JumpTwins(m, m', true, s);
      JumpTwins(m, m', false, s);
    } else {
      PushTwins(m, m', b, s);
    }
  }

  lemma DispatchTwins(m: Vm, m': Vm, b: byte, s: set<nat>)
    requires Twins(m, m', s) && m.mode.Running?
    ensures Twins(Dispatch(m, b), Dispatch(m', b), s) || Twins(Dispatch(m, b), Dispatch(m', b), s + {|m.heap|})
  {
    hide Twins, DoPush, DoGet, DoSet, DoDef, DoJump, DoBranch, DoList, DoApply, DoApplyCollection, DoRet,
         DoTry, DoFn, DoLet, DoClosurePop, DoPrim1, DoPrim2, Op1OfByte, Op2OfByte;
    if b in {OP_JMP, OP_JT, OP_JF, OP_INT_BYTE, OP_NIL, OP_TRUE, OP_FALSE, OP_DUP, OP_DROP} {
      PlainTwins(m, m', b, s);
    } else if b in {OP_PUSH, OP_PUSH_EXT, OP_GET, OP_GET_EXT, OP_SET, OP_SET_EXT, OP_DEF, OP_DEF_EXT} {
      LoadTwins(m, m', false, s);
      LoadTwins(m, m', true, s);
      StoreTwins(m, m', false, s);
      StoreTwins(m, m', true, s);
    } else if b in {OP_LET, OP_CLOSURE_POP, OP_FN, OP_TRY, OP_LIST, OP_APPLY, OP_APPLY_COLLECTION, OP_RET} {
      LetTwins(m, m', s);
      FnTwins(m, m', s);
      TryTwins(m, m', s);
      ListTwins(m, m', s);
      ApplyTwins(m, m', s);
      ApplyCollectionTwins(m, m', s);
      RetTwins(m, m', s);
    } else {
      OtherTwins(m, m', b, s);
    }
  }

  lemma OtherTwins(m: Vm, m': Vm, b: byte, s: set<nat>)
    requires Twins(m, m', s) && m.mode.Running?
    requires b !in {OP_JMP, OP_JT, OP_JF, OP_INT_BYTE, OP_NIL, OP_TRUE, OP_FALSE, OP_DUP, OP_DROP}
    requires b !in {OP_PUSH, OP_PUSH_EXT, OP_GET, OP_GET_EXT, OP_SET, OP_SET_EXT, OP_DEF, OP_DEF_EXT}
    requires b !in {OP_LET, OP_CLOSURE_POP, OP_FN, OP_TRY, OP_LIST, OP_APPLY, OP_APPLY_COLLECTION, OP_RET}
    ensures Twins(Dispatch(m, b), Dispatch(m', b), s)
  {
    hide Twins, DoPrim1, DoPrim2, Op1OfByte, Op2OfByte, AllIn, TextIn, HeapIn, StackIn, In, Agree;
    TwinFacts(m, m', s);
    if Op1OfByte(b).Some? {
      Prim1Twins(m, m', Op1OfByte(b).value, s);
    } else if Op2OfByte(b).Some? {
      Prim2Twins(m, m', Op2OfByte(b).value, s);
    } else {
      StackTwins(m, m', Dispatch(m, b), Dispatch(m', b), s);
    }
  }

  // One step of both leaves both alike up to garbage.
  lemma StepTwins(m: Vm, m': Vm, s: set<nat>) returns (t: set<nat>)
    requires Twins(m, m', s)
    ensures Twins(Step(m), Step(m'), t)
  {
    hide AllIn, TextIn, HeapIn, StackIn, In, Agree, Twins, Dispatch, Unwind;
    TwinFacts(m, m', s);
    t := s;
    match m.mode
    case Running =>
      if 0 <= m.ip < |m.text.data| {
        var m1 := m.(ip := m.ip + 1);
        StackTwins(m, m', m1, m1.(heap := m'.heap), s);
        DispatchTwins(m1, m1.(heap := m'.heap), m.text.data[m.ip], s);
        t := if Twins(Step(m), Step(m'), s) then s else s + {|m.heap|};
      } else {
        StackTwins(m, m', Step(m), Step(m'), s);
      }
    case Throwing(x) =>
      UnwindTwins(m, m', x, s);
      t := if Twins(Step(m), Step(m'), s) then s else s + {|m.heap|};
    case _ =>
  }

  // ---- runs with collections

  // A collection that marks s and may do anything to the other closures.
  ghost predicate Collects(m: Vm, m': Vm, s: set<nat>) {
    Marked(m, s) && m' == m.(heap := m'.heap) && Agree(m.heap, m'.heap, s)
  }

  // Each state is a step behind the last one, or a step and a collection.
  ghost predicate CollectedRun(ms: seq<Vm>, marks: seq<set<nat>>) {
    && |ms| == |marks| + 1
    && forall i :: 0 <= i < |marks| ==> ms[i + 1] == Step(ms[i]) || Collects(Step(ms[i]), ms[i + 1], marks[i])
  }

  // What two twins and a collection of one of them leave in common.
  lemma StillTwins(m: Vm, m1: Vm, m2: Vm, s: set<nat>, t: set<nat>)
    requires Twins(m, m1, s) && Collects(m1, m2, t) && WfVm(m)
    ensures Twins(m, m2, s * t)
  {
    hide In;
    AllBoth(m.stack, s, t);
    AllBoth(m.text.literals, s, t);
    if m.mode.Throwing? {
      InBoth(m.mode.thrown.value, s, t);
    }
    forall i | i in s * t ensures i < |m.heap| && ClosureIn(m.heap[i], s * t) {
      assert ClosureIn(m.heap[i], s) && ClosureIn(m1.heap[i], t);
      ClosureBoth(m.heap[i], s, t);
    }
  }

  // Any number of collections, at any points of a run, change nothing but the
  // contents of closures: code position, both stacks and the result are those
  // of the run without them.
  lemma {:induction false} CollectionsAreInvisible(ms: seq<Vm>, marks: seq<set<nat>>, s: set<nat>) returns (t: set<nat>)
    requires CollectedRun(ms, marks) && WfVm(ms[0]) && Marked(ms[0], s)
    ensures Twins(Run(|marks|, ms[0]), ms[|marks|], t)
    decreases |marks|
  {
    hide Step, Marked, WfVm;
    var n := |marks|;
    if n == 0 {
      SelfTwins(ms[0], s);
      t := s;
    } else {
      assert ms[..n][0] == ms[0];
      t := CollectionsAreInvisible(ms[..n], marks[..n - 1], s);
      var a, b := Run(n - 1, ms[0]), ms[n - 1];
      t := StepTwins(a, b, t);
      RunAdd(n - 1, 1, ms[0]);
      assert Run(1, a) == Run(0, Step(a));
      RunIsWf(n, ms[0]);
      if ms[n] != Step(b) {
        StillTwins(Step(a), Step(b), ms[n], t, marks[n - 1]);
        t := t * marks[n - 1];
      }
    }
  }

  lemma SelfTwins(m: Vm, s: set<nat>)
    requires Marked(m, s) && WfVm(m)
    ensures Twins(m, m, s)
  {
    hide HeapIn, TextIn, AllIn, ModeIn;
  }
}
