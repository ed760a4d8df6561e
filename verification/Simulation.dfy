// Compilation preserves meaning: the VM, running assembled code, does exactly
// what the source evaluator says.
module Simulation {
  import opened Values
  import opened Primitives
  import opened Source
  import opened Assembler
  import opened Compiler
  import opened Machine

  // ---- which programs are covered

  // No procedure hides in a literal.
  predicate Plain(v: Value) {
    match v
    case Pair(a, d) => Plain(a) && Plain(d)
    case _ => !v.Lambda?
  }

  // Forms the compiler accepts; bodies are non-empty and procedure bodies
  // assemble.
  predicate WfExpr(e: Expr) {
    match e
    case Lit(v) => !v.Sym? && Plain(v)
    case Quote(q) => Plain(q)
    case Var(_) => true
    case Do(body) => body.More? && WfExprs(body)
    case Let(body) => body.More? && WfExprs(body)
    case Def(_, v) => WfExpr(v)
    case Set(_, v) => WfExpr(v)
    case If(c, t, f) => WfExpr(c) && WfExpr(t) && WfExpr(f)
    case While(c, body) => WfExpr(c) && body.More? && WfExprs(body)
    case And(es) => WfExprs(es)
    case Or(es) => WfExprs(es)
    case Fn(params, meta, code) => IsParams(params) && Plain(params) && Plain(meta) && WfExpr(code) && Assembles(CompileForm(code))
    case Return(v) => WfExpr(v)
    case Prim1(_, a) => WfExpr(a)
    case Prim2(_, a, b) => WfExpr(a) && WfExpr(b)
    case MakeList(es) => Length(es) <= 255 && WfExprs(es)
    case Call(f, args) => WfExpr(f) && Length(args) <= 255 && WfExprs(args)
    case Apply(f, l) => WfExpr(f) && WfExpr(l)
  }

  predicate WfExprs(es: Exprs) {
    match es
    case End => true
    case More(e, rest) => WfExpr(e) && WfExprs(rest)
  }

  // ---- how evaluator stores and VM heaps correspond

  // A procedure closure holds the assembled body.
  predicate HoldsProcedure(k: Closure, p: Procedure) {
    && k.kind == Default
    && k.args == p.params
    && k.text == FnText(p.code)
    && WfExpr(p.code)
    && Assembles(CompileForm(p.code))
  }

  predicate SameScope(s: Scope, k: Closure) {
    && s.parent == k.parent
    && s.data == k.data
    && (s.fn.Some? ==> HoldsProcedure(k, s.fn.value))
  }

  ghost predicate Rel(st: Store, heap: seq<Closure>) {
    |st| == |heap| && forall i :: 0 <= i < |st| ==> SameScope(st[i], heap[i])
  }

  // Old scopes stay what they are.
  ghost predicate Grows(st: Store, st': Store) {
    |st| <= |st'| && forall i :: 0 <= i < |st| ==> st'[i].fn == st[i].fn
  }

  predicate SameSaved(k: Closure, k': Closure) {
    k'.ip == k.ip && k'.sp == k.sp && k'.text == k.text
  }

  predicate SameKind(k: Closure, k': Closure) {
    k'.parent == k.parent && k'.kind == k.kind && k'.args == k.args
  }

  // Only the running closure `c` may have had its resume point overwritten.
  ghost predicate Frame(heap: seq<Closure>, heap': seq<Closure>, c: nat) {
    && |heap| <= |heap'|
    && (forall i :: 0 <= i < |heap| ==> SameKind(heap[i], heap'[i]))
    && (forall i :: 0 <= i < |heap| && i != c ==> SameSaved(heap[i], heap'[i]))
  }

  ghost predicate Ready(st: Store, m: Vm) {
    && m.mode.Running?
    && m.cs != [] && m.c == m.cs[|m.cs| - 1]
    && m.c < |st| && st[m.c].fn.None?
    && Rel(st, m.heap)
  }

  // m' runs on top of m: nothing of m's stacks is lost, and the closures pushed
  // since are of the given kinds.
  ghost predicate Above(m: Vm, m': Vm, kinds: set<Kind>) {
    && m.cs != [] && m.c == m.cs[|m.cs| - 1]
    && m.cs <= m'.cs && m'.c == m'.cs[|m'.cs| - 1]
    && m.stack <= m'.stack
    && Frame(m.heap, m'.heap, m.c)
    && forall i :: |m.cs| <= i < |m'.cs| ==>
         |m.heap| <= m'.cs[i] < |m'.heap| && m'.heap[m'.cs[i]].kind in kinds
  }

  // What the VM must have done after n steps, given the evaluator's outcome.
  ghost predicate Matches(o: Outcome, fuel: nat, st: Store, n: nat, m: Vm, m': Vm, end: int) {
    match o
    case Val(v, st') =>
      // just past the code, one new slot, everything below unchanged
      m' == m.(ip := end, stack := m.stack + [v], heap := m'.heap) &&
      Frame(m.heap, m'.heap, m.c) && Rel(st', m'.heap) && Grows(st, st')
    case Ret(v, st') =>
      // about to execute a $ret, inside let scopes only
      m'.mode.Running? && m'.text == m.text && 0 <= m'.ip < |m'.text.data| && m'.text.data[m'.ip] == OP_RET &&
      m'.stack != [] && Top(m') == v && Above(m, m', {LetScope}) && |m'.stack| > |m.stack| &&
      Rel(st', m'.heap) && Grows(st, st')
    case Raise(t, st') =>
      m'.mode == Throwing(t) && Above(m, m', {LetScope, CallFrame}) &&
      Rel(st', m'.heap) && Grows(st, st')
    case Timeout => m'.mode.Running? && n >= fuel
    case Unsupported => m'.mode.Stuck?
    case _ => true
  }

  // ---- lookups agree

  lemma {:induction false} LookupAgrees(st: Store, heap: seq<Closure>, c: nat, s: Symbol)
    requires Rel(st, heap)
    ensures Lookup(st, c, s) == LookupH(heap, c, s)
    ensures Binder(st, c, s) == BinderH(heap, c, s)
    decreases c
  {
    if c < |st| {
      assert SameScope(st[c], heap[c]);
      if s !in st[c].data && st[c].parent.Some? && st[c].parent.value < c {
        LookupAgrees(st, heap, st[c].parent.value, s);
      }
    }
  }

  lemma BindAgrees(st: Store, heap: seq<Closure>, b: nat, s: Symbol, v: Value)
    requires Rel(st, heap) && b < |st|
    ensures Rel(Bind(st, b, s, v), BindH(heap, b, s, v))
    ensures Grows(st, Bind(st, b, s, v))
    ensures forall c :: Frame(heap, BindH(heap, b, s, v), c)
  {
    var st', heap' := Bind(st, b, s, v), BindH(heap, b, s, v);
    assert SameScope(st[b], heap[b]);
    forall i | 0 <= i < |st'| ensures SameScope(st'[i], heap'[i]) {
      assert SameScope(st[i], heap[i]);
    }
  }

  lemma {:induction false} ListDownIsListOf(vs: seq<Value>, lo: nat, hi: nat, acc: Value)
    requires lo <= hi <= |vs| && acc == ListOf(vs[hi..])
    ensures ListDown(vs, lo, hi, acc) == ListOf(vs[lo..])
    decreases hi - lo
  {
    if lo < hi {
      assert vs[hi - 1..][1..] == vs[hi..];
      ListDownIsListOf(vs, lo, hi - 1, Pair(vs[hi - 1], acc));
    }
  }

  // Binding from the stack equals collecting the arguments into a list first,
  // for every shape of parameter list.
  lemma {:induction false} StackBindingIsListBinding(params: Value, vs: seq<Value>, i: nat, data: map<Symbol, Value>)
    requires i <= |vs|
    ensures BindStack(params, vs, i, data) == BindList(params, ListOf(vs[i..]), data)
    decreases params
  {
    match params
    case Pair(p, rest) =>
      if i == |vs| {
        StackBindingIsListBinding(rest, vs, i, data[NameOf(p) := Nil]);
      } else {
        assert vs[i..][1..] == vs[i + 1..];
        StackBindingIsListBinding(rest, vs, i + 1, data[NameOf(p) := vs[i]]);
      }
    case Sym(_) =>
      assert vs[|vs|..] == [];
      ListDownIsListOf(vs, i, |vs|, Nil);
    case _ =>
  }

  // ---- pieces of code in place

  lemma AtCell(t: Text, labels: map<nat, nat>, a: Code, d: Code, p: nat)
    ensures At(t, labels, Join(a, d), p) <==> At(t, labels, a, p) && At(t, labels, d, After(t, a, p))
    ensures After(t, Join(a, d), p) == After(t, d, After(t, a, p))
  {
    hide Joins, ItemAt, ItemAfter;
  }

  lemma AfterBlank(t: Text, p: nat)
    ensures After(t, Blank, p) == p
  {
  }

  lemma AtL2(t: Text, labels: map<nat, nat>, a: Code, b: Code, p: nat)
    requires At(t, labels, L2(a, b), p)
    ensures var q := After(t, a, p);
            At(t, labels, a, p) && At(t, labels, b, q) && After(t, L2(a, b), p) == After(t, b, q)
  {
    hide Joins, ItemAt, ItemAfter;
    AtCell(t, labels, a, L1(b), p);
    AtCell(t, labels, b, Blank, After(t, a, p));
  }

  lemma AtL3(t: Text, labels: map<nat, nat>, a: Code, b: Code, c: Code, p: nat)
    requires At(t, labels, L3(a, b, c), p)
    ensures var q := After(t, a, p); var r := After(t, b, q);
            At(t, labels, a, p) && At(t, labels, b, q) && At(t, labels, c, r) &&
            After(t, L3(a, b, c), p) == After(t, c, r)
  {
    hide Joins, ItemAt, ItemAfter;
    AtCell(t, labels, a, L2(b, c), p);
    AtL2(t, labels, b, c, After(t, a, p));
  }

  lemma AtL4(t: Text, labels: map<nat, nat>, a: Code, b: Code, c: Code, d: Code, p: nat)
    requires At(t, labels, L4(a, b, c, d), p)
    ensures var q := After(t, a, p); var r := After(t, b, q); var s := After(t, c, r);
            At(t, labels, a, p) && At(t, labels, b, q) && At(t, labels, c, r) && At(t, labels, d, s) &&
            After(t, L4(a, b, c, d), p) == After(t, d, s)
  {
    hide Joins, ItemAt, ItemAfter;
    AtCell(t, labels, a, L3(b, c, d), p);
    AtL3(t, labels, b, c, d, After(t, a, p));
  }

  lemma AtL5(t: Text, labels: map<nat, nat>, a: Code, b: Code, c: Code, d: Code, e: Code, p: nat)
    requires At(t, labels, L5(a, b, c, d, e), p)
    ensures At(t, labels, a, p) && At(t, labels, L4(b, c, d, e), After(t, a, p)) &&
            After(t, L5(a, b, c, d, e), p) == After(t, L4(b, c, d, e), After(t, a, p))
  {
  }

  lemma JumpAt(t: Text, labels: map<nat, nat>, op: int, l: nat, p: nat)
    requires At(t, labels, EmitJump(op, l), p)
    ensures After(t, EmitJump(op, l), p) == p + 3
    ensures p + 2 < |t.data| && t.data[p] == ToByte(op) && l in labels
    ensures p + 1 + DecodeOffset(t.data[p + 1], t.data[p + 2]) - 1 == labels[l]
  {
    hide DecodeOffset;
    AtL3(t, labels, Atom(Op(op)), Atom(Reloc(l, 8, 0)), Atom(Reloc(l, 0, 1)), p);
    OffsetRoundTrip(labels[l] - p);
  }

  lemma OpAt(t: Text, labels: map<nat, nat>, op: int, p: nat)
    requires At(t, labels, Emit1(op), p)
    ensures After(t, Emit1(op), p) == p + 1 && p < |t.data| && t.data[p] == ToByte(op)
  {
  }

  lemma Op2At(t: Text, labels: map<nat, nat>, op: int, operand: int, p: nat)
    requires At(t, labels, Emit2(op, operand), p)
    ensures After(t, Emit2(op, operand), p) == p + 2 && p + 1 < |t.data|
    ensures t.data[p] == ToByte(op) && t.data[p + 1] == ToByte(operand)
  {
    AtL2(t, labels, Atom(Op(op)), Atom(Op(operand)), p);
  }

  lemma LitAt(t: Text, labels: map<nat, nat>, op: int, v: Value, p: nat)
    requires IsLitOp(op) && At(t, labels, EmitLit(op, v), p)
    ensures ItemAt(t, labels, Item.Lit(op, v), p)
    ensures After(t, EmitLit(op, v), p) == p + LitWidth(t, op, p)
  {
  }

  // ---- gluing runs together

  lemma FrameTrans(h0: seq<Closure>, h1: seq<Closure>, h2: seq<Closure>, c0: nat, c1: nat)
    requires Frame(h0, h1, c0) && Frame(h1, h2, c1) && (c1 == c0 || c1 >= |h0|)
    ensures Frame(h0, h2, c0)
  {
    forall i | 0 <= i < |h0| ensures SameKind(h0[i], h2[i]) && (i != c0 ==> SameSaved(h0[i], h2[i])) {
      assert SameKind(h0[i], h1[i]) && SameKind(h1[i], h2[i]);
    }
  }

  // Any outcome but a value is passed on unchanged by the enclosing form.
  lemma PassOn(o: Outcome, fuel: nat, fuel1: nat, st: Store, st1: Store, n0: nat, n: nat,
               m: Vm, m1: Vm, m': Vm, end: int, end1: int)
    requires Matches(o, fuel1, st1, n, m1, m', end1) && !o.Val?
    requires Above(m, m1, {LetScope}) && m1.text == m.text && Grows(st, st1)
    requires fuel1 + n0 >= fuel
    ensures Matches(o, fuel, st, n0 + n, m, m', end)
  {
    match o
    case Ret(_, _) => AboveTrans(m, m1, m', {LetScope}, {LetScope}, {LetScope});
    case Raise(_, _) => AboveTrans(m, m1, m', {LetScope}, {LetScope, CallFrame}, {LetScope, CallFrame});
    case _ =>
  }

  lemma AboveTrans(m: Vm, m1: Vm, m': Vm, k0: set<Kind>, k1: set<Kind>, k: set<Kind>)
    requires Above(m, m1, k0) && Above(m1, m', k1) && k0 <= k && k1 <= k
    ensures Above(m, m', k)
  {
    assert m1.c == m.c || m1.c >= |m.heap| by {
      if |m1.cs| > |m.cs| {
      } else {
        assert m1.cs == m.cs;
      }
    }
    FrameTrans(m.heap, m1.heap, m'.heap, m.c, m1.c);
    forall i | |m.cs| <= i < |m'.cs|
      ensures |m.heap| <= m'.cs[i] < |m'.heap| && m'.heap[m'.cs[i]].kind in k
    {
      if i < |m1.cs| {
        assert m'.cs[i] == m1.cs[i];
        assert SameKind(m1.heap[m1.cs[i]], m'.heap[m1.cs[i]]);
      }
    }
  }

  // m1 continues m at the same level: same code, same closure stack.
  ghost predicate Same(st: Store, m: Vm, st1: Store, m1: Vm) {
    && m1.mode.Running? && m1.text == m.text && m1.cs == m.cs && m1.c == m.c
    && m.stack <= m1.stack
    && Frame(m.heap, m1.heap, m.c) && Grows(st, st1) && Rel(st1, m1.heap)
  }

  lemma SameIsReady(st: Store, m: Vm, st1: Store, m1: Vm)
    requires Ready(st, m) && Same(st, m, st1, m1)
    ensures Ready(st1, m1) && Above(m, m1, {LetScope})
  {
    assert st1[m.c].fn == st[m.c].fn;
  }

  lemma SameTrans(st: Store, m: Vm, st1: Store, m1: Vm, st2: Store, m2: Vm)
    requires Same(st, m, st1, m1) && Same(st1, m1, st2, m2)
    ensures Same(st, m, st2, m2)
  {
    FrameTrans(m.heap, m1.heap, m2.heap, m.c, m.c);
  }

  // The rest of the form, started at m1 on m's own stack, decides the outcome.
  lemma Continue(o: Outcome, fuel: nat, fuel1: nat, st: Store, st1: Store, n0: nat, n: nat,
                 m: Vm, m1: Vm, m': Vm, end: int)
    requires Ready(st, m) && Same(st, m, st1, m1)
    requires o.Val? ==> m1.stack == m.stack
    requires Matches(o, fuel1, st1, n, m1, m', end) && fuel1 + n0 >= fuel
    ensures Matches(o, fuel, st, n0 + n, m, m', end)
  {
    SameIsReady(st, m, st1, m1);
    if o.Val? {
      FrameTrans(m.heap, m1.heap, m'.heap, m.c, m.c);
    } else {
      PassOn(o, fuel, fuel1, st, st1, n0, n, m, m1, m', end, end);
    }
  }

  // ---- single instructions

  ghost predicate Placed(m: Vm, labels: map<nat, nat>, code: Code) {
    m.mode.Running? && m.ip >= 0 && At(m.text, labels, code, m.ip)
  }

  function AfterCode(m: Vm, code: Code): nat
    requires m.ip >= 0
  {
    After(m.text, code, m.ip)
  }

  lemma StepJump(m: Vm, labels: map<nat, nat>, l: nat)
    requires Placed(m, labels, EmitJump(OP_JMP, l))
    ensures AfterCode(m, EmitJump(OP_JMP, l)) == m.ip + 3
    ensures l in labels && Step(m) == m.(ip := labels[l])
  {
    hide At, DecodeOffset, DoPush, DoGet, DoSet, DoDef, DoBranch, DoApply, DoApplyCollection, DoList, DoFn, DoLet,
      DoClosurePop, DoTry, DoRet, DoPrim1, DoPrim2;
    JumpAt(m.text, labels, OP_JMP, l, m.ip);
  }

  lemma StepBranch(m: Vm, labels: map<nat, nat>, op: int, l: nat)
    requires Placed(m, labels, EmitJump(op, l)) && m.stack != [] && (op == OP_JT || op == OP_JF)
    ensures AfterCode(m, EmitJump(op, l)) == m.ip + 3
    ensures l in labels
    ensures Step(m) == m.(stack := Popped(m, 1),
                          ip := if Truthy(Top(m)) == (op == OP_JT) then labels[l] else m.ip + 3)
  {
    hide At, DecodeOffset, DoPush, DoGet, DoSet, DoDef, DoApply, DoApplyCollection, DoList, DoFn, DoLet,
      DoClosurePop, DoTry, DoRet, DoPrim1, DoPrim2;
    JumpAt(m.text, labels, op, l, m.ip);
  }

  lemma StepOp(m: Vm, labels: map<nat, nat>, op: byte)
    requires Placed(m, labels, Emit1(op))
    ensures AfterCode(m, Emit1(op)) == m.ip + 1
    ensures Step(m) == Dispatch(m.(ip := m.ip + 1), op)
  {
    hide Dispatch;
    OpAt(m.text, labels, op, m.ip);
  }

  lemma StepLiteral(m: Vm, labels: map<nat, nat>, op: int, v: Value)
    requires IsLitOp(op) && Placed(m, labels, EmitLit(op, v))
    ensures m.ip < |m.text.data|
    ensures var wide := m.text.data[m.ip] != op;
            var m1 := m.(ip := m.ip + 1);
            && Literal(m1, wide) == Some(v)
            && AfterCode(m, EmitLit(op, v)) == Skip(m1, wide).ip
            && Step(m) == Dispatch(m1, if wide then Ext(op) else op)
            && (op == OP_SET ==> !wide)
  {
    hide Dispatch;
    LitAt(m.text, labels, op, v, m.ip);
  }

  lemma StepPush(m: Vm, labels: map<nat, nat>, v: Value)
    requires Placed(m, labels, EmitLit(OP_PUSH, v))
    ensures Step(m) == m.(ip := AfterCode(m, EmitLit(OP_PUSH, v)), stack := m.stack + [v])
  {
    StepLiteral(m, labels, OP_PUSH, v);
  }

  lemma StepGet(m: Vm, labels: map<nat, nat>, x: Symbol)
    requires Placed(m, labels, EmitLit(OP_GET, Sym(x)))
    ensures var m1 := m.(ip := AfterCode(m, EmitLit(OP_GET, Sym(x))));
            Step(m) == match LookupH(m.heap, m.c, x)
                       case Some(w) => Push(m1, w)
                       case None => Throw(m1, CantResolve(x))
  {
    StepLiteral(m, labels, OP_GET, Sym(x));
  }

  lemma StepSet(m: Vm, labels: map<nat, nat>, x: Symbol)
    requires Placed(m, labels, EmitLit(OP_SET, Sym(x))) && m.stack != []
    ensures var m1 := m.(ip := AfterCode(m, EmitLit(OP_SET, Sym(x))));
            Step(m) == match BinderH(m.heap, m.c, x)
                       case Some(b) => m1.(heap := BindH(m.heap, b, x, Top(m)))
                       case None => Throw(m1, CantSet(x))
  {
    StepLiteral(m, labels, OP_SET, Sym(x));
  }

  lemma StepDef(m: Vm, labels: map<nat, nat>, x: Symbol)
    requires Placed(m, labels, EmitLit(OP_DEF, Sym(x))) && m.stack != [] && m.c < |m.heap|
    ensures Step(m) == m.(ip := AfterCode(m, EmitLit(OP_DEF, Sym(x))), heap := BindH(m.heap, m.c, x, Top(m)))
  {
    StepLiteral(m, labels, OP_DEF, Sym(x));
  }

  lemma StepConstant(m: Vm, labels: map<nat, nat>, v: Value)
    requires Placed(m, labels, CompileQuote(v))
    ensures Step(m) == m.(ip := AfterCode(m, CompileQuote(v)), stack := m.stack + [v])
  {
    match v
    case Nil => StepOp(m, labels, OP_NIL);
    case Int(i) =>
      if -128 <= i <= 127 {
        Op2At(m.text, labels, OP_INT_BYTE, i, m.ip);
        assert SignedByte(ToByte(i)) == i;
      } else {
        StepPush(m, labels, v);
      }
    case _ => StepPush(m, labels, v);
  }

  lemma StepLit(m: Vm, labels: map<nat, nat>, v: Value)
    requires Placed(m, labels, CompileLit(v)) && !v.Sym?
    ensures Step(m) == m.(ip := AfterCode(m, CompileLit(v)), stack := m.stack + [v])
  {
    match v
    case Bool(b) => StepOp(m, labels, if b then OP_TRUE else OP_FALSE);
    case _ => StepConstant(m, labels, v);
  }

  lemma StepDrop(m: Vm, labels: map<nat, nat>)
    requires Placed(m, labels, Emit1(OP_DROP)) && m.stack != []
    ensures AfterCode(m, Emit1(OP_DROP)) == m.ip + 1
    ensures Step(m) == m.(ip := m.ip + 1, stack := Popped(m, 1))
  {
    StepOp(m, labels, OP_DROP);
  }

  lemma StepDup(m: Vm, labels: map<nat, nat>)
    requires Placed(m, labels, Emit1(OP_DUP)) && m.stack != []
    ensures AfterCode(m, Emit1(OP_DUP)) == m.ip + 1
    ensures Step(m) == m.(ip := m.ip + 1, stack := m.stack + [Top(m)])
  {
    StepOp(m, labels, OP_DUP);
  }

  lemma StepNil(m: Vm, labels: map<nat, nat>)
    requires Placed(m, labels, Emit1(OP_NIL))
    ensures AfterCode(m, Emit1(OP_NIL)) == m.ip + 1
    ensures Step(m) == m.(ip := m.ip + 1, stack := m.stack + [Nil])
  {
    StepOp(m, labels, OP_NIL);
  }

  lemma StepLet(m: Vm, labels: map<nat, nat>)
    requires Placed(m, labels, Emit1(OP_LET))
    ensures AfterCode(m, Emit1(OP_LET)) == m.ip + 1
    ensures Step(m) == DoLet(m.(ip := m.ip + 1))
  {
    hide DoLet;
    StepOp(m, labels, OP_LET);
  }

  lemma StepClosurePop(m: Vm, labels: map<nat, nat>)
    requires Placed(m, labels, Emit1(OP_CLOSURE_POP))
    ensures AfterCode(m, Emit1(OP_CLOSURE_POP)) == m.ip + 1
    ensures Step(m) == DoClosurePop(m.(ip := m.ip + 1))
  {
    hide DoClosurePop;
    StepOp(m, labels, OP_CLOSURE_POP);
  }

  lemma StepFn(m: Vm, labels: map<nat, nat>)
    requires Placed(m, labels, Emit1(OP_FN))
    ensures AfterCode(m, Emit1(OP_FN)) == m.ip + 1
    ensures Step(m) == DoFn(m.(ip := m.ip + 1))
  {
    hide DoFn;
    StepOp(m, labels, OP_FN);
  }

  lemma DispatchPrim1(m: Vm, op: Op1)
    ensures Dispatch(m, ToByte(Byte1(op))) == DoPrim1(m, op)
  {
    hide DoPush, DoGet, DoSet, DoDef, DoJump, DoBranch, DoApply, DoApplyCollection, DoList, DoFn, DoLet, DoClosurePop, DoTry, DoRet, DoPrim1, DoPrim2;
  }

  lemma DispatchPrim2(m: Vm, op: Op2)
    ensures Dispatch(m, ToByte(Byte2(op))) == DoPrim2(m, op)
  {
    hide DoPush, DoGet, DoSet, DoDef, DoJump, DoBranch, DoApply, DoApplyCollection, DoList, DoFn, DoLet, DoClosurePop, DoTry, DoRet, DoPrim1, DoPrim2;
  }

  lemma StepPrim1(m: Vm, labels: map<nat, nat>, op: Op1)
    requires Placed(m, labels, EmitPrim1(op))
    ensures AfterCode(m, EmitPrim1(op)) == m.ip + 1
    ensures Step(m) == DoPrim1(m.(ip := m.ip + 1), op)
  {
    hide DoPrim1, Dispatch;
    DispatchPrim1(m.(ip := m.ip + 1), op);
    if op != ThrowOp {
      OpAt(m.text, labels, Byte1(op), m.ip);
    }
  }

  lemma StepPrim2(m: Vm, labels: map<nat, nat>, op: Op2)
    requires Placed(m, labels, Emit1(Byte2(op)))
    ensures AfterCode(m, Emit1(Byte2(op))) == m.ip + 1
    ensures Step(m) == DoPrim2(m.(ip := m.ip + 1), op)
  {
    hide DoPrim2, Dispatch;
    DispatchPrim2(m.(ip := m.ip + 1), op);
    OpAt(m.text, labels, Byte2(op), m.ip);
  }

  lemma StepList(m: Vm, labels: map<nat, nat>, len: nat)
    requires Placed(m, labels, Emit2(OP_LIST, len)) && len <= 255 && len <= |m.stack|
    ensures AfterCode(m, Emit2(OP_LIST, len)) == m.ip + 2
    ensures Step(m) == m.(ip := m.ip + 2, stack := Popped(m, len) + [ListDown(m.stack[|m.stack| - len..], 0, len, Nil)])
  {
    hide DoPush, DoGet, DoSet, DoDef, DoJump, DoBranch, DoApply, DoApplyCollection, DoFn, DoLet, DoClosurePop, DoTry, DoRet, DoPrim1, DoPrim2, ListDown, At;
    Op2At(m.text, labels, OP_LIST, len, m.ip);
  }

  lemma StepApply(m: Vm, labels: map<nat, nat>, len: nat)
    requires Placed(m, labels, Emit2(OP_APPLY, len)) && len <= 255
    ensures AfterCode(m, Emit2(OP_APPLY, len)) == m.ip + 2
    ensures m.ip + 1 < |m.text.data| && m.text.data[m.ip + 1] == len
    ensures Step(m) == DoApply(m.(ip := m.ip + 1))
  {
    hide DoPush, DoGet, DoSet, DoDef, DoJump, DoBranch, DoApply, DoApplyCollection, DoList, DoFn, DoLet, DoClosurePop, DoTry, DoRet, DoPrim1, DoPrim2, At;
    Op2At(m.text, labels, OP_APPLY, len, m.ip);
  }

  lemma StepApplyCollection(m: Vm, labels: map<nat, nat>)
    requires Placed(m, labels, Emit1(OP_APPLY_COLLECTION))
    ensures AfterCode(m, Emit1(OP_APPLY_COLLECTION)) == m.ip + 1
    ensures Step(m) == DoApplyCollection(m.(ip := m.ip + 1))
  {
    hide DoApplyCollection;
    StepOp(m, labels, OP_APPLY_COLLECTION);
  }

  lemma StepRet(m: Vm)
    requires m.mode.Running? && 0 <= m.ip < |m.text.data| && m.text.data[m.ip] == OP_RET
    ensures Step(m) == DoRet(m.(ip := m.ip + 1))
  {
    hide DoRet;
  }

  lemma RunOne(m: Vm)
    ensures Run(1, m) == Step(m)
  {
    hide Step;
    assert Run(0, Step(m)) == Step(m);
  }

  // ---- the simulation, form by form

  lemma {:induction false} Sim(fuel: nat, e: Expr, st: Store, m: Vm, labels: map<nat, nat>, g: nat) returns (n: nat, m': Vm)
    requires Ready(st, m) && m.stack != [] && WfExpr(e) && Placed(m, labels, Compile(e, g).code)
    ensures m' == Run(n, m)
    ensures Matches(Eval(fuel, e, st, m.c, |m.stack| - 1), fuel, st, n, m, m', AfterCode(m, Compile(e, g).code))
    decreases fuel, e, 4
  {
    hide Step, Matches, At, Ready, Placed, AfterCode, Run, Eval, Compile, WfExpr;
    match e
    case Lit(_) => n, m' := SimConstant(fuel, e, st, m, labels, g);
    case Quote(_) => n, m' := SimConstant(fuel, e, st, m, labels, g);
    case Var(_) => n, m' := SimVar(fuel, e, st, m, labels, g);
    case Do(_) => n, m' := SimDoForm(fuel, e, st, m, labels, g);
    case Let(_) => n, m' := SimLet(fuel, e, st, m, labels, g);
    case Def(_, _) => n, m' := SimDef(fuel, e, st, m, labels, g);
    case Set(_, _) => n, m' := SimSet(fuel, e, st, m, labels, g);
    case If(_, _, _) => n, m' := SimIf(fuel, e, st, m, labels, g);
    case While(_, _) => n, m' := SimWhile(fuel, e, st, m, labels, g);
    case And(_) => n, m' := SimAndForm(fuel, e, st, m, labels, g);
    case Or(_) => n, m' := SimOrForm(fuel, e, st, m, labels, g);
    case Fn(_, _, _) => n, m' := SimFn(fuel, e, st, m, labels, g);
    case Return(_) => n, m' := SimReturn(fuel, e, st, m, labels, g);
    case Prim1(_, _) => n, m' := SimPrim1(fuel, e, st, m, labels, g);
    case Prim2(_, _, _) => n, m' := SimPrim2(fuel, e, st, m, labels, g);
    case MakeList(_) => n, m' := SimMakeList(fuel, e, st, m, labels, g);
    case Call(_, _) => n, m' := SimCall(fuel, e, st, m, labels, g);
    case Apply(_, _) => n, m' := SimApplyForm(fuel, e, st, m, labels, g);
  }

  lemma SimDoForm(fuel: nat, e: Expr, st: Store, m: Vm, labels: map<nat, nat>, g: nat) returns (n: nat, m': Vm)
    requires e.Do?
    requires Ready(st, m) && m.stack != [] && WfExpr(e) && Placed(m, labels, Compile(e, g).code)
    ensures m' == Run(n, m)
    ensures Matches(Eval(fuel, e, st, m.c, |m.stack| - 1), fuel, st, n, m, m', AfterCode(m, Compile(e, g).code))
    decreases fuel, e, 3
  {
    hide Step, Matches, At, CompileDo;
    AtL1(m.text, labels, CompileDo(e.body, g).code, m.ip);
    n, m' := SimDo(fuel, e.body, st, m, labels, g);
  }

  lemma AtL1(t: Text, labels: map<nat, nat>, a: Code, p: nat)
    requires At(t, labels, L1(a), p)
    ensures At(t, labels, a, p) && After(t, L1(a), p) == After(t, a, p)
  {
    hide Joins, ItemAt, ItemAfter;
    AtCell(t, labels, a, Blank, p);
  }

  lemma SimConstant(fuel: nat, e: Expr, st: Store, m: Vm, labels: map<nat, nat>, g: nat) returns (n: nat, m': Vm)
    requires e.Lit? || e.Quote?
    requires Ready(st, m) && m.stack != [] && WfExpr(e) && Placed(m, labels, Compile(e, g).code)
    ensures m' == Run(n, m)
    ensures Matches(Eval(fuel, e, st, m.c, |m.stack| - 1), fuel, st, n, m, m', AfterCode(m, Compile(e, g).code))
  {
    hide Step, At, CompileLit, CompileQuote;
    n, m' := 1, Step(m);
    RunOne(m);
    if e.Lit? {
      StepLit(m, labels, e.v);
    } else {
      StepConstant(m, labels, e.q);
    }
  }

  lemma SimVar(fuel: nat, e: Expr, st: Store, m: Vm, labels: map<nat, nat>, g: nat) returns (n: nat, m': Vm)
    requires e.Var?
    requires Ready(st, m) && m.stack != [] && Placed(m, labels, Compile(e, g).code)
    ensures m' == Run(n, m)
    ensures Matches(Eval(fuel, e, st, m.c, |m.stack| - 1), fuel, st, n, m, m', AfterCode(m, Compile(e, g).code))
  {
    hide Step, At, EmitLit;
    n, m' := 1, Step(m);
    RunOne(m);
    AtL1(m.text, labels, EmitLit(OP_GET, Sym(e.x)), m.ip);
    StepGet(m, labels, e.x);
    LookupAgrees(st, m.heap, m.c, e.x);
  }

  // The value of a subform is on the stack and one step `Step(m1)` finishes.
  lemma SimDef(fuel: nat, e: Expr, st: Store, m: Vm, labels: map<nat, nat>, g: nat) returns (n: nat, m': Vm)
    requires e.Def?
    requires Ready(st, m) && m.stack != [] && WfExpr(e) && Placed(m, labels, Compile(e, g).code)
    ensures m' == Run(n, m)
    ensures Matches(Eval(fuel, e, st, m.c, |m.stack| - 1), fuel, st, n, m, m', AfterCode(m, Compile(e, g).code))
    decreases fuel, e, 3
  {
    hide Step, At, EmitLit, Matches;
    var c := Compile(e.dv, g);
    AtL2(m.text, labels, c.code, EmitLit(OP_DEF, Sym(e.dx)), m.ip);
    n, m' := Sim(fuel, e.dv, st, m, labels, g);
    var o := Eval(fuel, e.dv, st, m.c, |m.stack| - 1);
    if o.Val? {
      var m1 := m';
      ValFacts(o, fuel, st, n, m, m1, AfterCode(m, c.code));
      StepDef(m1, labels, e.dx);
      BindAgrees(o.st, m1.heap, m.c, e.dx, o.v);
      n, m' := OneMore(n, m, m1);
      ValDone(o.v, fuel, st, o.st, Bind(o.st, m.c, e.dx, o.v), n, m, m1, m', AfterCode(m, Compile(e, g).code));
    } else {
      OtherDone(o, fuel, st, n, m, m', AfterCode(m, c.code), AfterCode(m, Compile(e, g).code));
    }
  }

  lemma SimSet(fuel: nat, e: Expr, st: Store, m: Vm, labels: map<nat, nat>, g: nat) returns (n: nat, m': Vm)
    requires e.Set?
    requires Ready(st, m) && m.stack != [] && WfExpr(e) && Placed(m, labels, Compile(e, g).code)
    ensures m' == Run(n, m)
    ensures Matches(Eval(fuel, e, st, m.c, |m.stack| - 1), fuel, st, n, m, m', AfterCode(m, Compile(e, g).code))
    decreases fuel, e, 3
  {
    hide Step, At, EmitLit, Matches;
    var c := Compile(e.sv, g);
    AtL2(m.text, labels, c.code, EmitLit(OP_SET, Sym(e.sx)), m.ip);
    n, m' := Sim(fuel, e.sv, st, m, labels, g);
    var o := Eval(fuel, e.sv, st, m.c, |m.stack| - 1);
    if o.Val? {
      var m1 := m';
      ValFacts(o, fuel, st, n, m, m1, AfterCode(m, c.code));
      StepSet(m1, labels, e.sx);
      LookupAgrees(o.st, m1.heap, m.c, e.sx);
      n, m' := OneMore(n, m, m1);
      var b := Binder(o.st, m.c, e.sx);
      if b.Some? {
        BindAgrees(o.st, m1.heap, b.value, e.sx, o.v);
        ValDone(o.v, fuel, st, o.st, Bind(o.st, b.value, e.sx, o.v), n, m, m1, m', AfterCode(m, Compile(e, g).code));
      } else {
        RaiseDone(CantSet(e.sx), fuel, st, o.st, n, m, m1, m', AfterCode(m, Compile(e, g).code));
      }
    } else {
      OtherDone(o, fuel, st, n, m, m', AfterCode(m, c.code), AfterCode(m, Compile(e, g).code));
    }
  }

  // ---- the shapes of a finished form

  lemma ValFacts(o: Outcome, fuel: nat, st: Store, n: nat, m: Vm, m1: Vm, end: int)
    requires Ready(st, m) && o.Val? && Matches(o, fuel, st, n, m, m1, end)
    ensures m1 == m.(ip := end, stack := m.stack + [o.v], heap := m1.heap)
    ensures Popped(m1, 1) == m.stack && Top(m1) == o.v
    ensures Same(st, m, o.st, m1) && Ready(o.st, m1)
  {
    SameIsReady(st, m, o.st, m1);
  }

  lemma OneMore(n: nat, m: Vm, m1: Vm) returns (n': nat, m': Vm)
    requires m1 == Run(n, m)
    ensures n' == n + 1 && m' == Step(m1) == Run(n', m)
  {
    hide Step;
    n', m' := n + 1, Step(m1);
    RunAdd(n, 1, m);
    RunOne(m1);
  }

  lemma ValDone(v: Value, fuel: nat, st: Store, st1: Store, st2: Store, n: nat, m: Vm, m1: Vm, m': Vm, end: int)
    requires Ready(st, m) && Same(st, m, st1, m1)
    requires m' == m.(ip := end, stack := m.stack + [v], heap := m'.heap)
    requires Frame(m1.heap, m'.heap, m.c) && Rel(st2, m'.heap) && Grows(st1, st2)
    ensures Matches(Val(v, st2), fuel, st, n, m, m', end)
  {
    FrameTrans(m.heap, m1.heap, m'.heap, m.c, m.c);
  }

  lemma ValHere(v: Value, fuel: nat, st: Store, st1: Store, n: nat, m: Vm, m': Vm, end: int)
    requires Same(st, m, st1, m') && m' == m.(ip := end, stack := m.stack + [v], heap := m'.heap)
    ensures Matches(Val(v, st1), fuel, st, n, m, m', end)
  {
  }

  lemma RaiseDone(t: Thrown, fuel: nat, st: Store, st1: Store, n: nat, m: Vm, m1: Vm, m': Vm, end: int)
    requires Ready(st, m) && Same(st, m, st1, m1)
    requires m'.mode == Throwing(t) && m'.cs == m1.cs && m'.c == m1.c && m'.heap == m1.heap && m.stack <= m'.stack
    ensures Matches(Raise(t, st1), fuel, st, n, m, m', end)
  {
    assert Above(m, m', {LetScope, CallFrame});
  }

  lemma OtherDone(o: Outcome, fuel: nat, st: Store, n: nat, m: Vm, m': Vm, end: int, end': int)
    requires !o.Val? && Matches(o, fuel, st, n, m, m', end)
    ensures Matches(o, fuel, st, n, m, m', end')
  {
  }
  // A run of n0 steps to m1, followed by a run of n1 steps.
  lemma Glue(n0: nat, m: Vm, m1: Vm, n1: nat, m': Vm)
    requires m1 == Run(n0, m) && m' == Run(n1, m1)
    ensures m' == Run(n0 + n1, m)
  {
    RunAdd(n0, n1, m);
  }

  lemma {:induction false} SimDo(fuel: nat, es: Exprs, st: Store, m: Vm, labels: map<nat, nat>, g: nat) returns (n: nat, m': Vm)
    requires Ready(st, m) && m.stack != [] && es.More? && WfExprs(es) && Placed(m, labels, CompileDo(es, g).code)
    ensures m' == Run(n, m)
    ensures Matches(EvalDo(fuel, es, st, m.c, |m.stack| - 1), fuel, st, n, m, m', AfterCode(m, CompileDo(es, g).code))
    decreases fuel, es, 1
  {
    hide Step, Matches, At, After, Rel, Grows, Frame, Above, Dispatch, Compile, Eval, Joins;
    var c := Compile(es.head, g);
    var d := CompileDo(es.tail, c.next);
    var first := Join(c.code, if es.tail.End? then Blank else L1(Emit1(OP_DROP)));
    AtCell(m.text, labels, first, d.code, m.ip);
    AtCell(m.text, labels, c.code, if es.tail.End? then Blank else L1(Emit1(OP_DROP)), m.ip);
    var q := AfterCode(m, c.code);
    AfterBlank(m.text, q);
    n, m' := Sim(fuel, es.head, st, m, labels, g);
    if es.tail.More? {
      AtL1(m.text, labels, Emit1(OP_DROP), q);
      var o := Eval(fuel, es.head, st, m.c, |m.stack| - 1);
      if o.Val? {
        var m1 := m';
        ValFacts(o, fuel, st, n, m, m1, q);
        StepDrop(m1, labels);
        var n2, m2 := OneMore(n, m, m1);
        assert m2 == m1.(ip := q + 1, stack := m.stack);
        SameIsReady(st, m, o.st, m2);
        var n3, m3 := SimDo(fuel, es.tail, o.st, m2, labels, c.next);
        Glue(n2, m, m2, n3, m3);
        n, m' := n2 + n3, m3;
        Continue(EvalDo(fuel, es.tail, o.st, m.c, |m.stack| - 1), fuel, fuel, st, o.st, n2, n3, m, m2, m3,
                 AfterCode(m, CompileDo(es, g).code));
      } else {
        OtherDone(o, fuel, st, n, m, m', q, AfterCode(m, CompileDo(es, g).code));
      }
    }
  }

  lemma SimLet(fuel: nat, e: Expr, st: Store, m: Vm, labels: map<nat, nat>, g: nat) returns (n: nat, m': Vm)
    requires e.Let?
    requires Ready(st, m) && m.stack != [] && WfExpr(e) && Placed(m, labels, Compile(e, g).code)
    ensures m' == Run(n, m)
    ensures Matches(Eval(fuel, e, st, m.c, |m.stack| - 1), fuel, st, n, m, m', AfterCode(m, Compile(e, g).code))
    decreases fuel, e, 3
  {
    hide Step, Matches, At, After, Rel, Grows, Frame, Above, Dispatch, DoLet, DoClosurePop, Joins, CompileDo, EvalDo;
    var b := CompileDo(e.scoped, g);
    var end := AfterCode(m, Compile(e, g).code);
    AtL3(m.text, labels, Emit1(OP_LET), L1(b.code), Emit1(OP_CLOSURE_POP), m.ip);
    StepLet(m, labels);
    RunOne(m);
    var m1 := Step(m);
    var scope := Scope(Some(m.c), map[], None);
    var st1 := st + [scope];
    EnterScope(st, m, scope, m1);
    AtL1(m.text, labels, b.code, m1.ip);
    var q := AfterCode(m1, b.code);
    n, m' := SimDo(fuel, e.scoped, st1, m1, labels, g);
    Glue(1, m, m1, n, m');
    var o := EvalDo(fuel, e.scoped, st1, m1.c, |m.stack| - 1);
    if o.Val? {
      var m2 := m';
      ValFacts(o, fuel, st1, n, m1, m2, q);
      StepClosurePop(m2, labels);
      n, m' := OneMore(1 + n, m, m2);
      LeaveScope(o.v, fuel, st, st1, o.st, n, m, m1, m2, m', end);
    } else {
      PassOn(o, fuel, fuel, st, st1, 1, n, m, m1, m', end, q);
      n := 1 + n;
    }
  }

  lemma EnterScope(st: Store, m: Vm, scope: Scope, m1: Vm)
    requires Ready(st, m) && scope.fn.None? && scope.parent == Some(m.c) && scope.data == map[]
    requires m1 == DoLet(m.(ip := m.ip + 1))
    ensures Ready(st + [scope], m1) && Above(m, m1, {LetScope}) && Grows(st, st + [scope])
    ensures m1 == m.(ip := m.ip + 1, heap := m1.heap, cs := m.cs + [|m.heap|], c := |m.heap|) && |m.heap| == |st|
  {
    var st1 := st + [scope];
    forall i | 0 <= i < |st1| ensures SameScope(st1[i], m1.heap[i]) {
      if i < |st| {
        assert SameScope(st[i], m.heap[i]);
      }
    }
    assert m1.cs[|m1.cs| - 1] == m1.c;
  }

  lemma LeaveScope(v: Value, fuel: nat, st: Store, st1: Store, st2: Store, n: nat,
                   m: Vm, m1: Vm, m2: Vm, m': Vm, end: int)
    requires Ready(st, m) && Above(m, m1, {LetScope}) && Grows(st, st1) && m1.text == m.text
    requires m1.cs == m.cs + [m1.c] && m1.c == |m.heap|
    requires Same(st1, m1, st2, m2) && m2.stack == m.stack + [v]
    requires m' == DoClosurePop(m2.(ip := end)) && m2.text == m.text
    ensures Matches(Val(v, st2), fuel, st, n, m, m', end)
  {
    assert m1.cs[..|m1.cs| - 1] == m.cs;
    FrameTrans(m.heap, m1.heap, m2.heap, m.c, m1.c);
  }

  lemma SimIf(fuel: nat, e: Expr, st: Store, m: Vm, labels: map<nat, nat>, g: nat) returns (n: nat, m': Vm)
    requires e.If?
    requires Ready(st, m) && m.stack != [] && WfExpr(e) && Placed(m, labels, Compile(e, g).code)
    ensures m' == Run(n, m)
    ensures Matches(Eval(fuel, e, st, m.c, |m.stack| - 1), fuel, st, n, m, m', AfterCode(m, Compile(e, g).code))
    decreases fuel, e, 3
  {
    hide Step, Matches, At, After, EmitJump, EmitLabel, Rel, Grows, Frame, Above, Dispatch, Compile, Eval, Joins;
    var c := Compile(e.cond, g + 2);
    var t := Compile(e.thn, c.next);
    var end := AfterCode(m, Compile(e, g).code);
    var pj, pt, pk, pf := IfPlaces(m.text, labels, e, g, m.ip);
    EvalIf(fuel, e, st, m.c, |m.stack| - 1);
    n, m' := Sim(fuel, e.cond, st, m, labels, g + 2);
    var o := Eval(fuel, e.cond, st, m.c, |m.stack| - 1);
    if o.Val? {
      var m1 := m';
      ValFacts(o, fuel, st, n, m, m1, pj);
      StepBranch(m1, labels, OP_JF, g);
      var n2, m2 := OneMore(n, m, m1);
      assert m2 == m1.(stack := m.stack, ip := if Truthy(o.v) then pt else pf);
      SameIsReady(st, m, o.st, m2);
      if Truthy(o.v) {
        n, m' := SimThen(fuel, e.thn, o.st, m2, labels, c.next, g + 1, pk, end);
        Glue(n2, m, m2, n, m');
        Continue(Eval(fuel, e.thn, o.st, m.c, |m.stack| - 1), fuel, fuel, st, o.st, n2, n, m, m2, m', end);
        n := n2 + n;
      } else {
        n, m' := Sim(fuel, e.els, o.st, m2, labels, t.next);
        Glue(n2, m, m2, n, m');
        Continue(Eval(fuel, e.els, o.st, m.c, |m.stack| - 1), fuel, fuel, st, o.st, n2, n, m, m2, m', end);
        n := n2 + n;
      }
    } else {
      OtherDone(o, fuel, st, n, m, m', pj, end);
    }
  }

  // The then-branch, followed by a jump to the end.
  lemma SimThen(fuel: nat, e: Expr, st: Store, m: Vm, labels: map<nat, nat>, g: nat, l: nat, pk: nat, end: nat)
    returns (n: nat, m': Vm)
    requires Ready(st, m) && m.stack != [] && WfExpr(e) && Placed(m, labels, Compile(e, g).code)
    requires pk == AfterCode(m, Compile(e, g).code) && At(m.text, labels, EmitJump(OP_JMP, l), pk)
    requires l in labels && labels[l] == end
    ensures m' == Run(n, m)
    ensures Matches(Eval(fuel, e, st, m.c, |m.stack| - 1), fuel, st, n, m, m', end)
    decreases fuel, e, 5
  {
    hide Step, Matches, At, EmitJump;
    n, m' := Sim(fuel, e, st, m, labels, g);
    var o := Eval(fuel, e, st, m.c, |m.stack| - 1);
    if o.Val? {
      var m1 := m';
      ValFacts(o, fuel, st, n, m, m1, pk);
      StepJump(m1, labels, l);
      n, m' := OneMore(n, m, m1);
      ValHere(o.v, fuel, st, o.st, n, m, m', end);
    } else {
      OtherDone(o, fuel, st, n, m, m', pk, end);
    }
  }

  lemma LabelAt(t: Text, labels: map<nat, nat>, l: nat, p: nat)
    requires At(t, labels, EmitLabel(l), p)
    ensures l in labels && labels[l] == p && After(t, EmitLabel(l), p) == p
  {
  }

  lemma EvalIf(fuel: nat, e: Expr, st: Store, c: nat, depth: nat)
    requires e.If? && c < |st|
    ensures Eval(fuel, e, st, c, depth) ==
            match Eval(fuel, e.cond, st, c, depth)
            case Val(v, st1) => Eval(fuel, if Truthy(v) then e.thn else e.els, st1, c, depth)
            case o => o
  {
  }

  lemma IfPlaces(t: Text, labels: map<nat, nat>, e: Expr, g: nat, p: nat)
    returns (pj: nat, pt: nat, pk: nat, pf: nat)
    requires e.If? && At(t, labels, Compile(e, g).code, p)
    ensures var c := Compile(e.cond, g + 2); var th := Compile(e.thn, c.next); var f := Compile(e.els, th.next);
            && At(t, labels, c.code, p) && pj == After(t, c.code, p)
            && At(t, labels, EmitJump(OP_JF, g), pj) && pt == pj + 3
            && At(t, labels, th.code, pt) && pk == After(t, th.code, pt)
            && At(t, labels, EmitJump(OP_JMP, g + 1), pk) && pf == pk + 3
            && g in labels && labels[g] == pf && At(t, labels, f.code, pf)
            && g + 1 in labels && labels[g + 1] == After(t, f.code, pf) == After(t, Compile(e, g).code, p)
  {
    hide At, After, EmitJump, EmitLabel, Joins;
    var c := Compile(e.cond, g + 2);
    var th := Compile(e.thn, c.next);
    var f := Compile(e.els, th.next);
    pj, pt, pk, pf := BranchPlaces(t, labels, c.code, th.code, f.code, g, p);
  }

  lemma BranchPlaces(t: Text, labels: map<nat, nat>, c: Code, th: Code, f: Code, g: nat, p: nat)
    returns (pj: nat, pt: nat, pk: nat, pf: nat)
    requires var code := L7(c, EmitJump(OP_JF, g), th, EmitJump(OP_JMP, g + 1), EmitLabel(g), f, EmitLabel(g + 1));
             At(t, labels, code, p)
    ensures At(t, labels, c, p) && pj == After(t, c, p) && At(t, labels, EmitJump(OP_JF, g), pj) && pt == pj + 3
    ensures At(t, labels, th, pt) && pk == After(t, th, pt) && At(t, labels, EmitJump(OP_JMP, g + 1), pk)
    ensures pf == pk + 3 && g in labels && labels[g] == pf && At(t, labels, f, pf)
    ensures g + 1 in labels && labels[g + 1] == After(t, f, pf)
    ensures After(t, L7(c, EmitJump(OP_JF, g), th, EmitJump(OP_JMP, g + 1), EmitLabel(g), f, EmitLabel(g + 1)), p) ==
            After(t, f, pf)
  {
    hide At, After, EmitJump, EmitLabel;
    var jf, jmp, le, la := EmitJump(OP_JF, g), EmitJump(OP_JMP, g + 1), EmitLabel(g), EmitLabel(g + 1);
    pj := After(t, c, p);
    AtCell(t, labels, c, Join(jf, L5(th, jmp, le, f, la)), p);
    AtCell(t, labels, jf, L5(th, jmp, le, f, la), pj);
    JumpAt(t, labels, OP_JF, g, pj);
    pt := pj + 3;
    AtCell(t, labels, th, L4(jmp, le, f, la), pt);
    pk := After(t, th, pt);
    AtL4(t, labels, jmp, le, f, la, pk);
    JumpAt(t, labels, OP_JMP, g + 1, pk);
    pf := pk + 3;
    LabelAt(t, labels, g, pf);
    LabelAt(t, labels, g + 1, After(t, f, pf));
  }

  // ---- while

  ghost predicate LoopPlaced(t: Text, labels: map<nat, nat>, e: Expr, g: nat, pd: nat, pe: nat, pj: nat)
    requires e.While?
  {
    var b := CompileDo(e.loop, g + 2);
    var c := Compile(e.test, b.next);
    && g in labels && labels[g] == pd
    && At(t, labels, Emit1(OP_DROP), pd)
    && At(t, labels, b.code, pd + 1) && pe == After(t, b.code, pd + 1)
    && g + 1 in labels && labels[g + 1] == pe
    && At(t, labels, c.code, pe) && pj == After(t, c.code, pe)
    && At(t, labels, EmitJump(OP_JT, g), pj)
  }

  lemma WhilePlaces(t: Text, labels: map<nat, nat>, e: Expr, g: nat, p: nat) returns (pe: nat, pj: nat)
    requires e.While? && At(t, labels, Compile(e, g).code, p)
    ensures At(t, labels, Emit1(OP_NIL), p) && At(t, labels, EmitJump(OP_JMP, g + 1), p + 1)
    ensures LoopPlaced(t, labels, e, g, p + 4, pe, pj)
    ensures After(t, Compile(e, g).code, p) == pj + 3
  {
    hide At, After, EmitJump, EmitLabel, Joins;
    var b := CompileDo(e.loop, g + 2);
    var c := Compile(e.test, b.next);
    var nil, jmp, ls, drop, le, jt :=
      Emit1(OP_NIL), EmitJump(OP_JMP, g + 1), EmitLabel(g), Emit1(OP_DROP), EmitLabel(g + 1), EmitJump(OP_JT, g);
    AtCell(t, labels, nil, L7(jmp, ls, drop, b.code, le, c.code, jt), p);
    OpAt(t, labels, OP_NIL, p);
    AtCell(t, labels, jmp, Join(ls, L5(drop, b.code, le, c.code, jt)), p + 1);
    JumpAt(t, labels, OP_JMP, g + 1, p + 1);
    AtCell(t, labels, ls, L5(drop, b.code, le, c.code, jt), p + 4);
    LabelAt(t, labels, g, p + 4);
    AtCell(t, labels, drop, L4(b.code, le, c.code, jt), p + 4);
    OpAt(t, labels, OP_DROP, p + 4);
    AtL4(t, labels, b.code, le, c.code, jt, p + 5);
    pe := After(t, b.code, p + 5);
    LabelAt(t, labels, g + 1, pe);
    pj := After(t, c.code, pe);
    JumpAt(t, labels, OP_JT, g, pj);
  }

  lemma SimWhile(fuel: nat, e: Expr, st: Store, m: Vm, labels: map<nat, nat>, g: nat) returns (n: nat, m': Vm)
    requires e.While?
    requires Ready(st, m) && m.stack != [] && WfExpr(e) && Placed(m, labels, Compile(e, g).code)
    ensures m' == Run(n, m)
    ensures Matches(Eval(fuel, e, st, m.c, |m.stack| - 1), fuel, st, n, m, m', AfterCode(m, Compile(e, g).code))
    decreases fuel, e, 3
  {
    hide Step, Matches, At, After, Rel, Grows, Frame, Above, Dispatch, Compile, Eval, Joins, EmitJump, EmitLabel;
    var pe, pj := WhilePlaces(m.text, labels, e, g, m.ip);
    StepNil(m, labels);
    RunOne(m);
    var m1 := Step(m);
    StepJump(m1, labels, g + 1);
    var n2, m2 := OneMore(1, m, m1);
    FrameRefl(st, m);
    var n3, m3 := SimLoop(fuel, e, Nil, st, m2, labels, g, m.ip + 4, pe, pj);
    assert m2.(stack := Popped(m2, 1)) == m.(ip := pe);
    Glue(n2, m, m2, n3, m3);
    n, m' := n2 + n3, m3;
    EvalWhileForm(fuel, e, st, m.c, |m.stack| - 1);
    Continue(EvalWhile(fuel, e, Nil, st, m.c, |m.stack| - 1), fuel, fuel, st, st, n2, n3,
             m, m.(ip := pe), m3, pj + 3);
  }

  lemma EvalWhileForm(fuel: nat, e: Expr, st: Store, c: nat, depth: nat)
    requires e.While? && c < |st|
    ensures Eval(fuel, e, st, c, depth) == EvalWhile(fuel, e, Nil, st, c, depth)
  {
    hide EvalWhile;
  }

  lemma FrameRefl(st: Store, m: Vm)
    requires Ready(st, m)
    ensures Frame(m.heap, m.heap, m.c) && Grows(st, st)
  {
  }

  // The loop from its test on; `last` is on top of the stack.
  lemma {:induction false} SimLoop(fuel: nat, e: Expr, last: Value, st: Store, m: Vm, labels: map<nat, nat>, g: nat,
                                   pd: nat, pe: nat, pj: nat) returns (n: nat, m': Vm)
    requires e.While? && WfExpr(e) && LoopPlaced(m.text, labels, e, g, pd, pe, pj)
    requires Ready(st, m) && m.ip == pe && |m.stack| >= 2 && Top(m) == last
    ensures m' == Run(n, m)
    ensures Matches(EvalWhile(fuel, e, last, st, m.c, |m.stack| - 2), fuel, st, n, m.(stack := Popped(m, 1)), m', pj + 3)
    decreases fuel, e, 2
  {
    hide Step, Matches, At, After, Rel, Grows, Frame, Above, Dispatch, Compile, Eval, Joins, EmitJump, EmitLabel, CompileDo, EvalDo, EvalWhile, Iterate;
    EvalLoop(fuel, e, last, st, m.c, |m.stack| - 2);
    var m0 := m.(stack := Popped(m, 1));
    var b := CompileDo(e.loop, g + 2);
    FrameRefl(st, m);
    n, m' := Sim(fuel, e.test, st, m, labels, b.next);
    var o := Eval(fuel, e.test, st, m.c, |m.stack| - 1);
    if o.Val? {
      var m1 := m';
      ValFacts(o, fuel, st, n, m, m1, pj);
      StepBranch(m1, labels, OP_JT, g);
      var n2, m2 := OneMore(n, m, m1);
      assert m2.stack == m.stack;
      if !Truthy(o.v) {
        n, m' := n2, m2;
        assert m0.stack + [last] == m.stack;
        ValHere(last, fuel, st, o.st, n, m0, m', pj + 3);
      } else if fuel == 0 {
        n, m' := n2, m2;
        TimeoutDone(fuel, st, n, m0, m', pj + 3);
      } else {
        SameIsReady(st, m, o.st, m2);
        var n3, m3 := SimIterate(fuel, e, o.st, m2, labels, g, pd, pe, pj);
        Glue(n2, m, m2, n3, m3);
        n, m' := n2 + n3, m3;
        var m4 := m2.(stack := Popped(m2, 1));
        assert Same(st, m0, o.st, m4);
        Continue(Iterate(fuel, e, o.st, m.c, |m.stack| - 2), fuel, fuel, st, o.st, n2, n3, m0, m4, m', pj + 3);
      }
    } else {
      Continue(o, fuel, fuel, st, st, 0, n, m0, m, m', pj);
      OtherDone(o, fuel, st, n, m0, m', pj, pj + 3);
    }
  }

  // What EvalWhile does once the test was true.
  function Iterate(fuel: nat, e: Expr, st: Store, c: nat, depth: nat): Outcome
    requires e.While? && fuel > 0
  {
    match EvalDo(fuel, e.loop, st, c, depth)
    case Val(v, st2) => EvalWhile(fuel - 1, e, v, st2, c, depth)
    case o => o
  }

  // Drop the old value, run the body, go round again.
  lemma {:induction false} SimIterate(fuel: nat, e: Expr, st: Store, m: Vm, labels: map<nat, nat>, g: nat,
                                      pd: nat, pe: nat, pj: nat) returns (n: nat, m': Vm)
    requires e.While? && WfExpr(e) && LoopPlaced(m.text, labels, e, g, pd, pe, pj) && fuel > 0
    requires Ready(st, m) && m.ip == pd && |m.stack| >= 2
    ensures m' == Run(n, m)
    ensures Matches(Iterate(fuel, e, st, m.c, |m.stack| - 2), fuel, st, n, m.(stack := Popped(m, 1)), m', pj + 3)
    decreases fuel, e, 1
  {
    hide Step, Matches, At, After, Rel, Grows, Frame, Above, Dispatch, Compile, Eval, Joins, EmitJump, EmitLabel, CompileDo, EvalDo, EvalWhile, Iterate;
    var m0 := m.(stack := Popped(m, 1));
    StepDrop(m, labels);
    RunOne(m);
    var m1 := Step(m);
    FrameRefl(st, m);
    n, m' := SimRound(fuel, e, st, m1, labels, g, pd, pe, pj);
    Glue(1, m, m1, n, m');
    Continue(Iterate(fuel, e, st, m.c, |m.stack| - 2), fuel, fuel - 1, st, st, 1, n, m0, m1, m', pj + 3);
    n := 1 + n;
  }

  lemma {:induction false} SimRound(fuel: nat, e: Expr, st: Store, m: Vm, labels: map<nat, nat>, g: nat,
                                    pd: nat, pe: nat, pj: nat) returns (n: nat, m': Vm)
    requires e.While? && WfExpr(e) && LoopPlaced(m.text, labels, e, g, pd, pe, pj) && fuel > 0
    requires Ready(st, m) && m.ip == pd + 1 && m.stack != []
    ensures m' == Run(n, m)
    ensures Matches(Iterate(fuel, e, st, m.c, |m.stack| - 1), fuel - 1, st, n, m, m', pj + 3)
    decreases fuel, e, 0
  {
    hide Step, Matches, At, After, Rel, Grows, Frame, Above, Dispatch, Compile, Eval, Joins, EmitJump, EmitLabel, CompileDo, EvalDo, EvalWhile;
    n, m' := SimDo(fuel, e.loop, st, m, labels, g + 2);
    var o := EvalDo(fuel, e.loop, st, m.c, |m.stack| - 1);
    if o.Val? {
      var n2, m2 := n, m';
      ValFacts(o, fuel, st, n, m, m2, pe);
      n, m' := SimLoop(fuel - 1, e, o.v, o.st, m2, labels, g, pd, pe, pj);
      Glue(n2, m, m2, n, m');
      Continue(EvalWhile(fuel - 1, e, o.v, o.st, m.c, |m.stack| - 1), fuel - 1, fuel - 1, st, o.st,
               n2, n, m, m2.(stack := m.stack), m', pj + 3);
      n := n2 + n;
    } else {
      LessFuel(o, fuel, fuel - 1, st, n, m, m', pe, pj + 3);
    }
  }

  lemma LessFuel(o: Outcome, fuel: nat, fuel1: nat, st: Store, n: nat, m: Vm, m': Vm, end: int, end': int)
    requires Matches(o, fuel, st, n, m, m', end) && fuel1 <= fuel && !o.Val?
    ensures Matches(o, fuel1, st, n, m, m', end')
  {
    hide Frame, Rel, Grows, Above;
  }

  lemma EvalLoop(fuel: nat, e: Expr, last: Value, st: Store, c: nat, depth: nat)
    requires e.While?
    ensures EvalWhile(fuel, e, last, st, c, depth) ==
            match Eval(fuel, e.test, st, c, depth + 1)
            case Val(t, st1) =>
              if !Truthy(t) then Val(last, st1) else if fuel == 0 then Timeout else Iterate(fuel, e, st1, c, depth)
            case o => o
  {
    hide Eval, EvalDo;
  }

  lemma TimeoutDone(fuel: nat, st: Store, n: nat, m: Vm, m': Vm, end: int)
    requires m'.mode.Running? && n >= fuel
    ensures Matches(Timeout, fuel, st, n, m, m', end)
  {
  }

  // ---- and, or

  lemma SimAndForm(fuel: nat, e: Expr, st: Store, m: Vm, labels: map<nat, nat>, g: nat) returns (n: nat, m': Vm)
    requires e.And?
    requires Ready(st, m) && m.stack != [] && WfExpr(e) && Placed(m, labels, Compile(e, g).code)
    ensures m' == Run(n, m)
    ensures Matches(Eval(fuel, e, st, m.c, |m.stack| - 1), fuel, st, n, m, m', AfterCode(m, Compile(e, g).code))
    decreases fuel, e, 3
  {
    hide Step, Matches, At, After, Rel, Grows, Frame, Above, Dispatch, Compile, Eval, Joins, EmitJump, EmitLabel;
    AndPlaces(m.text, labels, e, g, m.ip);
    EvalAndForm(fuel, e, st, m.c, |m.stack| - 1);
    n, m' := SimAnd(fuel, e.conj, st, m, labels, g, g + 1);
  }

  lemma AndPlaces(t: Text, labels: map<nat, nat>, e: Expr, g: nat, p: nat)
    requires e.And? && At(t, labels, Compile(e, g).code, p)
    ensures var c := CompileAnd(e.conj, g, g + 1);
            && At(t, labels, c.code, p) && g in labels
            && labels[g] == After(t, c.code, p) == After(t, Compile(e, g).code, p)
  {
    hide At, After, CompileAnd, Joins;
    var c := CompileAnd(e.conj, g, g + 1);
    AtL2(t, labels, c.code, EmitLabel(g), p);
    LabelAt(t, labels, g, After(t, c.code, p));
  }

  lemma EvalAndForm(fuel: nat, e: Expr, st: Store, c: nat, depth: nat)
    requires c < |st|
    ensures e.And? ==> Eval(fuel, e, st, c, depth) == EvalAnd(fuel, e.conj, st, c, depth)
    ensures e.Or? ==> Eval(fuel, e, st, c, depth) == EvalOr(fuel, e.disj, st, c, depth)
  {
    hide EvalAnd, EvalOr;
  }

  lemma {:induction false} SimAnd(fuel: nat, es: Exprs, st: Store, m: Vm, labels: map<nat, nat>, end: nat, g: nat)
    returns (n: nat, m': Vm)
    requires Ready(st, m) && m.stack != [] && WfExprs(es) && Placed(m, labels, CompileAnd(es, end, g).code)
    requires end in labels && labels[end] == AfterCode(m, CompileAnd(es, end, g).code)
    ensures m' == Run(n, m)
    ensures Matches(EvalAnd(fuel, es, st, m.c, |m.stack| - 1), fuel, st, n, m, m', labels[end])
    decreases fuel, es, 1
  {
    hide Step, Matches, At, After, Rel, Grows, Frame, Above, Dispatch, Compile, Eval, Joins, EmitJump, EmitLabel;
    if es.End? {
      AtL2(m.text, labels, Emit1(OP_NIL), Blank, m.ip);
      AfterBlank(m.text, m.ip + 1);
      StepNil(m, labels);
      n, m' := 1, Step(m);
      RunOne(m);
      FrameRefl(st, m);
      ValHere(Nil, fuel, st, st, n, m, m', labels[end]);
    } else if es.tail.End? {
      var c := Compile(es.head, g);
      AtL2(m.text, labels, c.code, Blank, m.ip);
      AfterBlank(m.text, AfterCode(m, c.code));
      n, m' := Sim(fuel, es.head, st, m, labels, g);
    } else {
      n, m' := SimAndMore(fuel, es, st, m, labels, end, g);
    }
  }

  lemma {:induction false} SimAndMore(fuel: nat, es: Exprs, st: Store, m: Vm, labels: map<nat, nat>, end: nat, g: nat)
    returns (n: nat, m': Vm)
    requires es.More? && es.tail.More?
    requires Ready(st, m) && m.stack != [] && WfExprs(es) && Placed(m, labels, CompileAnd(es, end, g).code)
    requires end in labels && labels[end] == AfterCode(m, CompileAnd(es, end, g).code)
    ensures m' == Run(n, m)
    ensures Matches(EvalAnd(fuel, es, st, m.c, |m.stack| - 1), fuel, st, n, m, m', labels[end])
    decreases fuel, es, 0
  {
    hide Step, Matches, At, After, Rel, Grows, Frame, Above, Dispatch, Compile, Eval, Joins, EmitJump, EmitLabel, CompileAnd, EvalAnd;
    var c := Compile(es.head, g);
    var q := AfterCode(m, c.code);
    AndMorePlaces(m.text, labels, es, end, g, m.ip);
    EvalAndMore(fuel, es, st, m.c, |m.stack| - 1);
    n, m' := Sim(fuel, es.head, st, m, labels, g);
    var o := Eval(fuel, es.head, st, m.c, |m.stack| - 1);
    if o.Val? {
      ValFacts(o, fuel, st, n, m, m', q);
      n, m' := SimShort(o.v, o.st, n, st, m, m', labels, OP_JF, end, q);
      if Truthy(o.v) {
        var n2, m2 := n, m';
        SameIsReady(st, m, o.st, m2);
        n, m' := SimAnd(fuel, es.tail, o.st, m2, labels, end, c.next);
        Glue(n2, m, m2, n, m');
        Continue(EvalAnd(fuel, es.tail, o.st, m.c, |m.stack| - 1), fuel, fuel, st, o.st, n2, n, m, m2, m', labels[end]);
        n := n2 + n;
      } else {
        ValHere(o.v, fuel, st, o.st, n, m, m', labels[end]);
      }
    } else {
      OtherDone(o, fuel, st, n, m, m', q, labels[end]);
    }
  }

  lemma AndMorePlaces(t: Text, labels: map<nat, nat>, es: Exprs, end: nat, g: nat, p: nat)
    requires es.More? && es.tail.More? && At(t, labels, CompileAnd(es, end, g).code, p)
    ensures var c := Compile(es.head, g); var d := CompileAnd(es.tail, end, c.next);
            var dup, jf, drop := Emit1(OP_DUP), EmitJump(OP_JF, end), Emit1(OP_DROP);
            var q := After(t, c.code, p); var r := After(t, dup, q); var u := After(t, jf, r); var w := After(t, drop, u);
            && At(t, labels, c.code, p) && At(t, labels, dup, q) && At(t, labels, jf, r) && At(t, labels, drop, u)
            && At(t, labels, d.code, w) && After(t, CompileAnd(es, end, g).code, p) == After(t, d.code, w)
  {
    hide At, After, Joins, Compile, EmitJump;
    var c := Compile(es.head, g);
    var d := CompileAnd(es.tail, end, c.next);
    AtL2(t, labels, c.code, L4(Emit1(OP_DUP), EmitJump(OP_JF, end), Emit1(OP_DROP), d.code), p);
    AtL4(t, labels, Emit1(OP_DUP), EmitJump(OP_JF, end), Emit1(OP_DROP), d.code, After(t, c.code, p));
  }

  lemma EvalAndMore(fuel: nat, es: Exprs, st: Store, c: nat, depth: nat)
    requires es.More? && es.tail.More?
    ensures EvalAnd(fuel, es, st, c, depth) ==
            match Eval(fuel, es.head, st, c, depth)
            case Val(v, st1) => if Truthy(v) then EvalAnd(fuel, es.tail, st1, c, depth) else Val(v, st1)
            case o => o
  {
    hide Eval;
  }

  // $dup, a conditional jump to `end`, $drop: either at `end` with the value, or
  // past the $drop without it.
  lemma SimShort(v: Value, st1: Store, n0: nat, st: Store, m: Vm, m1: Vm, labels: map<nat, nat>, op: int, end: nat, q: nat)
    returns (n: nat, m': Vm)
    requires Ready(st, m) && Same(st, m, st1, m1) && m1 == Run(n0, m) && (op == OP_JT || op == OP_JF)
    requires m1 == m.(ip := q, stack := m.stack + [v], heap := m1.heap)
    requires At(m.text, labels, Emit1(OP_DUP), q) && At(m.text, labels, EmitJump(op, end), After(m.text, Emit1(OP_DUP), q))
    requires At(m.text, labels, Emit1(OP_DROP), After(m.text, EmitJump(op, end), After(m.text, Emit1(OP_DUP), q)))
    ensures end in labels && m' == Run(n, m) && n >= n0 && Same(st, m, st1, m')
    ensures m'.heap == m1.heap
    ensures if Truthy(v) == (op == OP_JT) then m' == m1.(ip := labels[end])
            else m' == m1.(stack := m.stack,
                           ip := After(m.text, Emit1(OP_DROP),
                                       After(m.text, EmitJump(op, end), After(m.text, Emit1(OP_DUP), q))))
  {
    hide Step, Matches, At, After, Rel, Grows, Frame, Above, Dispatch, Compile, Eval, Joins, EmitJump, EmitLabel;
    StepDup(m1, labels);
    var n2, m2 := OneMore(n0, m, m1);
    StepBranch(m2, labels, op, end);
    n, m' := OneMore(n2, m, m2);
    assert m'.stack == m1.stack;
    if Truthy(v) != (op == OP_JT) {
      var m3 := m';
      StepDrop(m3, labels);
      n, m' := OneMore(n, m, m3);
      assert m'.stack == m.stack;
    }
  }

  lemma SimOrForm(fuel: nat, e: Expr, st: Store, m: Vm, labels: map<nat, nat>, g: nat) returns (n: nat, m': Vm)
    requires e.Or?
    requires Ready(st, m) && m.stack != [] && WfExpr(e) && Placed(m, labels, Compile(e, g).code)
    ensures m' == Run(n, m)
    ensures Matches(Eval(fuel, e, st, m.c, |m.stack| - 1), fuel, st, n, m, m', AfterCode(m, Compile(e, g).code))
    decreases fuel, e, 3
  {
    hide Step, Matches, At, After, Rel, Grows, Frame, Above, Dispatch, Compile, Eval, Joins, EmitJump, EmitLabel;
    OrPlaces(m.text, labels, e, g, m.ip);
    EvalAndForm(fuel, e, st, m.c, |m.stack| - 1);
    n, m' := SimOr(fuel, e.disj, st, m, labels, g, g + 1);
  }

  lemma OrPlaces(t: Text, labels: map<nat, nat>, e: Expr, g: nat, p: nat)
    requires e.Or? && At(t, labels, Compile(e, g).code, p)
    ensures var c := CompileOr(e.disj, g, g + 1);
            var q := After(t, c.code, p);
            var no := EmitLit(OP_PUSH, Bool(false));
            && At(t, labels, c.code, p) && At(t, labels, no, q) && g in labels
            && labels[g] == After(t, no, q) == After(t, Compile(e, g).code, p)
  {
    hide At, After, CompileOr, Joins;
    var c := CompileOr(e.disj, g, g + 1);
    var no := EmitLit(OP_PUSH, Bool(false));
    AtL3(t, labels, c.code, no, EmitLabel(g), p);
    LabelAt(t, labels, g, After(t, no, After(t, c.code, p)));
  }

  lemma {:induction false} SimOr(fuel: nat, es: Exprs, st: Store, m: Vm, labels: map<nat, nat>, end: nat, g: nat)
    returns (n: nat, m': Vm)
    requires Ready(st, m) && m.stack != [] && WfExprs(es) && Placed(m, labels, CompileOr(es, end, g).code)
    requires var q := AfterCode(m, CompileOr(es, end, g).code);
             var no := EmitLit(OP_PUSH, Bool(false));
             At(m.text, labels, no, q) && end in labels && labels[end] == After(m.text, no, q)
    ensures m' == Run(n, m)
    ensures Matches(EvalOr(fuel, es, st, m.c, |m.stack| - 1), fuel, st, n, m, m', labels[end])
    decreases fuel, es, 1
  {
    hide Step, Matches, At, After, Rel, Grows, Frame, Above, Dispatch, Compile, Eval, Joins, EmitJump, EmitLabel;
    if es.End? {
      AfterBlank(m.text, m.ip);
      StepPush(m, labels, Bool(false));
      n, m' := 1, Step(m);
      RunOne(m);
      FrameRefl(st, m);
      ValHere(Bool(false), fuel, st, st, n, m, m', labels[end]);
    } else {
      n, m' := SimOrMore(fuel, es, st, m, labels, end, g);
    }
  }

  lemma {:induction false} SimOrMore(fuel: nat, es: Exprs, st: Store, m: Vm, labels: map<nat, nat>, end: nat, g: nat)
    returns (n: nat, m': Vm)
    requires es.More? && Ready(st, m) && m.stack != [] && WfExprs(es) && Placed(m, labels, CompileOr(es, end, g).code)
    requires var q := AfterCode(m, CompileOr(es, end, g).code);
             var no := EmitLit(OP_PUSH, Bool(false));
             At(m.text, labels, no, q) && end in labels && labels[end] == After(m.text, no, q)
    ensures m' == Run(n, m)
    ensures Matches(EvalOr(fuel, es, st, m.c, |m.stack| - 1), fuel, st, n, m, m', labels[end])
    decreases fuel, es, 0
  {
    hide Step, Matches, At, After, Rel, Grows, Frame, Above, Dispatch, Compile, CompileOr, Eval, EvalOr, Joins, EmitJump, EmitLabel;
    var c := Compile(es.head, g);
    var q := AfterCode(m, c.code);
    OrMorePlaces(m.text, labels, es, end, g, m.ip);
    EvalOrMore(fuel, es, st, m.c, |m.stack| - 1);
    n, m' := Sim(fuel, es.head, st, m, labels, g);
    var o := Eval(fuel, es.head, st, m.c, |m.stack| - 1);
    if o.Val? {
      ValFacts(o, fuel, st, n, m, m', q);
      n, m' := SimShort(o.v, o.st, n, st, m, m', labels, OP_JT, end, q);
      if Truthy(o.v) {
        ValHere(o.v, fuel, st, o.st, n, m, m', labels[end]);
      } else {
        var n2, m2 := n, m';
        SameIsReady(st, m, o.st, m2);
        n, m' := SimOr(fuel, es.tail, o.st, m2, labels, end, c.next);
        Glue(n2, m, m2, n, m');
        Continue(EvalOr(fuel, es.tail, o.st, m.c, |m.stack| - 1), fuel, fuel, st, o.st, n2, n, m, m2, m', labels[end]);
        n := n2 + n;
      }
    } else {
      OtherDone(o, fuel, st, n, m, m', q, labels[end]);
    }
  }

  lemma OrMorePlaces(t: Text, labels: map<nat, nat>, es: Exprs, end: nat, g: nat, p: nat)
    requires es.More? && At(t, labels, CompileOr(es, end, g).code, p)
    ensures var c := Compile(es.head, g); var d := CompileOr(es.tail, end, c.next);
            var dup, jt, drop := Emit1(OP_DUP), EmitJump(OP_JT, end), Emit1(OP_DROP);
            var q := After(t, c.code, p); var r := After(t, dup, q); var u := After(t, jt, r); var w := After(t, drop, u);
            && At(t, labels, c.code, p) && At(t, labels, dup, q) && At(t, labels, jt, r) && At(t, labels, drop, u)
            && At(t, labels, d.code, w) && After(t, CompileOr(es, end, g).code, p) == After(t, d.code, w)
  {
    hide At, After, Joins, Compile, EmitJump;
    var c := Compile(es.head, g);
    var d := CompileOr(es.tail, end, c.next);
    AtL5(t, labels, c.code, Emit1(OP_DUP), EmitJump(OP_JT, end), Emit1(OP_DROP), d.code, p);
    AtL4(t, labels, Emit1(OP_DUP), EmitJump(OP_JT, end), Emit1(OP_DROP), d.code, After(t, c.code, p));
  }

  lemma EvalOrMore(fuel: nat, es: Exprs, st: Store, c: nat, depth: nat)
    requires es.More?
    ensures EvalOr(fuel, es, st, c, depth) ==
            match Eval(fuel, es.head, st, c, depth)
            case Val(v, st1) => if Truthy(v) then Val(v, st1) else EvalOr(fuel, es.tail, st1, c, depth)
            case o => o
  {
    hide Eval;
  }

  // ---- procedures and primitives

  lemma SimReturn(fuel: nat, e: Expr, st: Store, m: Vm, labels: map<nat, nat>, g: nat) returns (n: nat, m': Vm)
    requires e.Return?
    requires Ready(st, m) && m.stack != [] && WfExpr(e) && Placed(m, labels, Compile(e, g).code)
    ensures m' == Run(n, m)
    ensures Matches(Eval(fuel, e, st, m.c, |m.stack| - 1), fuel, st, n, m, m', AfterCode(m, Compile(e, g).code))
    decreases fuel, e, 3
  {
    hide Step, Matches, At, After, Rel, Grows, Frame, Above, Dispatch, Joins, EmitJump, EmitLabel;
    var c := Compile(e.result, g);
    AtL2(m.text, labels, c.code, Emit1(OP_RET), m.ip);
    var q := AfterCode(m, c.code);
    n, m' := Sim(fuel, e.result, st, m, labels, g);
    var o := Eval(fuel, e.result, st, m.c, |m.stack| - 1);
    if o.Val? {
      ValFacts(o, fuel, st, n, m, m', q);
      OpAt(m.text, labels, OP_RET, q);
      RetDone(o.v, fuel, st, o.st, n, m, m', q, AfterCode(m, Compile(e, g).code));
    } else {
      OtherDone(o, fuel, st, n, m, m', q, AfterCode(m, Compile(e, g).code));
    }
  }

  lemma RetDone(v: Value, fuel: nat, st: Store, st1: Store, n: nat, m: Vm, m': Vm, q: nat, end: int)
    requires Ready(st, m) && Same(st, m, st1, m') && Ready(st1, m')
    requires m'.ip == q < |m'.text.data| && m'.text.data[q] == OP_RET && m'.stack == m.stack + [v]
    ensures Matches(Ret(v, st1), fuel, st, n, m, m', end)
  {
  }

  lemma SimPrim1(fuel: nat, e: Expr, st: Store, m: Vm, labels: map<nat, nat>, g: nat) returns (n: nat, m': Vm)
    requires e.Prim1?
    requires Ready(st, m) && m.stack != [] && WfExpr(e) && Placed(m, labels, Compile(e, g).code)
    ensures m' == Run(n, m)
    ensures Matches(Eval(fuel, e, st, m.c, |m.stack| - 1), fuel, st, n, m, m', AfterCode(m, Compile(e, g).code))
    decreases fuel, e, 3
  {
    hide Step, Matches, At, After, Rel, Grows, Frame, Above, Dispatch, Joins, EmitJump, EmitLabel, Apply1, OfResult;
    var c := Compile(e.arg, g);
    AtL2(m.text, labels, c.code, EmitPrim1(e.op1), m.ip);
    var q := AfterCode(m, c.code);
    n, m' := Sim(fuel, e.arg, st, m, labels, g);
    var o := Eval(fuel, e.arg, st, m.c, |m.stack| - 1);
    var end := AfterCode(m, Compile(e, g).code);
    if o.Val? {
      var m1 := m';
      ValFacts(o, fuel, st, n, m, m1, q);
      StepPrim1(m1, labels, e.op1);
      n, m' := OneMore(n, m, m1);
      PrimDone(Apply1(e.op1, o.v), fuel, st, o.st, n, m, m1, m', end);
    } else {
      OtherDone(o, fuel, st, n, m, m', q, end);
    }
  }

  // A primitive's result or error ends the form.
  lemma PrimDone(r: Result, fuel: nat, st: Store, st1: Store, n: nat, m: Vm, m1: Vm, m': Vm, end: int)
    requires Ready(st, m) && Same(st, m, st1, m1)
    requires match r
             case Ok(v) => m' == m.(ip := end, stack := m.stack + [v], heap := m1.heap)
             case Err(t) => m'.mode == Throwing(t) && m'.cs == m.cs && m'.c == m.c && m'.heap == m1.heap && m.stack <= m'.stack
             case Unmodelled => m'.mode.Stuck?
    ensures Matches(OfResult(r, st1), fuel, st, n, m, m', end)
  {
    match r
    case Ok(v) => ValHere(v, fuel, st, st1, n, m, m', end);
    case Err(t) => RaiseDone(t, fuel, st, st1, n, m, m1, m', end);
    case Unmodelled =>
  }

  lemma SimPrim2(fuel: nat, e: Expr, st: Store, m: Vm, labels: map<nat, nat>, g: nat) returns (n: nat, m': Vm)
    requires e.Prim2?
    requires Ready(st, m) && m.stack != [] && WfExpr(e) && Placed(m, labels, Compile(e, g).code)
    ensures m' == Run(n, m)
    ensures Matches(Eval(fuel, e, st, m.c, |m.stack| - 1), fuel, st, n, m, m', AfterCode(m, Compile(e, g).code))
    decreases fuel, e, 3
  {
    hide Step, Matches, At, After, Rel, Grows, Frame, Above, Dispatch, Compile, Eval, Joins, EmitJump, EmitLabel, Apply2, OfResult;
    var c := Compile(e.left, g);
    var end := AfterCode(m, Compile(e, g).code);
    Prim2Places(m.text, labels, e, g, m.ip);
    EvalPrim2(fuel, e, st, m.c, |m.stack| - 1);
    var q := AfterCode(m, c.code);
    n, m' := Sim(fuel, e.left, st, m, labels, g);
    var o := Eval(fuel, e.left, st, m.c, |m.stack| - 1);
    if o.Val? {
      var n1, m1 := n, m';
      ValFacts(o, fuel, st, n, m, m1, q);
      n, m' := SimSecond(fuel, e, o.v, o.st, m.stack, m1, labels, c.next);
      Glue(n1, m, m1, n, m');
      Continue(PrimWith(fuel, e, o.v, o.st, m.c, |m.stack| - 1), fuel, fuel, st, o.st, n1, n,
               m, m1.(stack := m.stack), m', end);
      n := n1 + n;
    } else {
      OtherDone(o, fuel, st, n, m, m', q, end);
    }
  }

  // The rest of a two-operand primitive once the first operand is known.
  function PrimWith(fuel: nat, e: Expr, v: Value, st: Store, c: nat, depth: nat): Outcome
    requires e.Prim2?
  {
    match Eval(fuel, e.right, st, c, depth + 1)
    case Val(w, st2) => OfResult(Apply2(e.op2, v, w), st2)
    case o => o
  }

  lemma {:induction false} SimSecond(fuel: nat, e: Expr, v: Value, st: Store, stack: seq<Value>, m: Vm,
                                     labels: map<nat, nat>, g: nat) returns (n: nat, m': Vm)
    requires e.Prim2? && WfExpr(e) && Ready(st, m) && stack != [] && m.stack == stack + [v]
    requires Placed(m, labels, Compile(e.right, g).code)
    requires At(m.text, labels, Emit1(Byte2(e.op2)), AfterCode(m, Compile(e.right, g).code))
    ensures m' == Run(n, m)
    ensures var q := AfterCode(m, Compile(e.right, g).code);
            Matches(PrimWith(fuel, e, v, st, m.c, |stack| - 1), fuel, st, n, m.(stack := stack), m', q + 1)
    decreases fuel, e, 2
  {
    hide Step, Matches, At, After, Rel, Grows, Frame, Above, Dispatch, Compile, Eval, Joins, EmitJump, EmitLabel, Apply2, OfResult, DoPrim2, Byte2, Emit1;
    var m0 := m.(stack := stack);
    var q := AfterCode(m, Compile(e.right, g).code);
    FrameRefl(st, m);
    n, m' := Sim(fuel, e.right, st, m, labels, g);
    var o := Eval(fuel, e.right, st, m.c, |m.stack| - 1);
    if o.Val? {
      var m2 := m';
      ValFacts(o, fuel, st, n, m, m2, q);
      StepPrim2(m2, labels, e.op2);
      n, m' := OneMore(n, m, m2);
      StepTwo(v, o.v, e.op2, m0, m2, m');
      PrimDone(Apply2(e.op2, v, o.v), fuel, st, o.st, n, m0, m2, m', q + 1);
    } else {
      Continue(o, fuel, fuel, st, st, 0, n, m0, m, m', q);
      OtherDone(o, fuel, st, n, m0, m', q, q + 1);
    }
  }

  lemma StepTwo(v: Value, w: Value, op: Op2, m: Vm, m2: Vm, m': Vm)
    requires m2.stack == m.stack + [v] + [w] && m2.mode.Running? && m' == DoPrim2(m2.(ip := m2.ip + 1), op)
    ensures match Apply2(op, v, w)
            case Ok(r) => m' == m2.(ip := m2.ip + 1, stack := m.stack + [r])
            case Err(t) => m'.mode == Throwing(t) && m'.cs == m2.cs && m'.c == m2.c && m'.heap == m2.heap && m.stack <= m'.stack
            case Unmodelled => m'.mode.Stuck?
  {
    hide Apply2;
    assert Popped(m2, 2) == m.stack;
    assert Popped(m2, 1) == m.stack + [v];
  }

  lemma Prim2Places(t: Text, labels: map<nat, nat>, e: Expr, g: nat, p: nat)
    requires e.Prim2? && At(t, labels, Compile(e, g).code, p)
    ensures var c := Compile(e.left, g); var d := Compile(e.right, c.next);
            var q := After(t, c.code, p); var r := After(t, d.code, q);
            && At(t, labels, c.code, p) && At(t, labels, d.code, q) && At(t, labels, Emit1(Byte2(e.op2)), r)
            && After(t, Emit1(Byte2(e.op2)), r) == r + 1 == After(t, Compile(e, g).code, p)
  {
    hide At, After, Joins;
    var c := Compile(e.left, g);
    var d := Compile(e.right, c.next);
    AtL2(t, labels, Join(c.code, d.code), Emit1(Byte2(e.op2)), p);
    AtCell(t, labels, c.code, d.code, p);
    OpAt(t, labels, Byte2(e.op2), After(t, d.code, After(t, c.code, p)));
  }

  lemma EvalPrim2(fuel: nat, e: Expr, st: Store, c: nat, depth: nat)
    requires e.Prim2? && c < |st|
    ensures var o := Eval(fuel, e.left, st, c, depth);
            Eval(fuel, e, st, c, depth) == if o.Val? then PrimWith(fuel, e, o.v, o.st, c, depth) else o
  {
    hide Apply2, OfResult;
  }

  lemma SimFn(fuel: nat, e: Expr, st: Store, m: Vm, labels: map<nat, nat>, g: nat) returns (n: nat, m': Vm)
    requires e.Fn?
    requires Ready(st, m) && m.stack != [] && WfExpr(e) && Placed(m, labels, Compile(e, g).code)
    ensures m' == Run(n, m)
    ensures Matches(Eval(fuel, e, st, m.c, |m.stack| - 1), fuel, st, n, m, m', AfterCode(m, Compile(e, g).code))
  {
    hide Step, Matches, At, After, Rel, Grows, Frame, Above, Dispatch, Joins, CompileQuote, EmitLit, FnText;
    var text := FnText(e.code);
    AtL4(m.text, labels, CompileQuote(e.params), CompileQuote(e.meta), EmitLit(OP_PUSH, Bytecode(text)), Emit1(OP_FN), m.ip);
    StepConstant(m, labels, e.params);
    RunOne(m);
    var m1 := Step(m);
    StepConstant(m1, labels, e.meta);
    var n2, m2 := OneMore(1, m, m1);
    StepPush(m2, labels, Bytecode(text));
    var n3, m3 := OneMore(n2, m, m2);
    StepFn(m3, labels);
    n, m' := OneMore(n3, m, m3);
    FnDone(fuel, e, st, n, m, m3, m', AfterCode(m, Compile(e, g).code));
  }

  lemma FnDone(fuel: nat, e: Expr, st: Store, n: nat, m: Vm, m3: Vm, m': Vm, end: int)
    requires e.Fn? && WfExpr(e) && Ready(st, m) && m.stack != []
    requires m3 == m.(ip := m3.ip, stack := m.stack + [e.params] + [e.meta] + [Bytecode(FnText(e.code))])
    requires m' == DoFn(m3.(ip := end))
    ensures Matches(Eval(fuel, e, st, m.c, |m.stack| - 1), fuel, st, n, m, m', end)
  {
    hide FnText, Assembles;
    assert Popped(m3, 3) == m.stack;
    var scope := Scope(Some(m.c), map[], Some(Procedure(e.params, e.code)));
    var st1 := st + [scope];
    forall i | 0 <= i < |st1| ensures SameScope(st1[i], m'.heap[i]) {
      if i < |st| {
        assert SameScope(st[i], m.heap[i]);
      }
    }
    assert Rel(st1, m'.heap);
  }

  // ---- argument lists

  // All arguments on the stack in order, or the outcome that stopped them.
  ghost predicate MatchesArgs(os: Outcomes, fuel: nat, st: Store, n: nat, m: Vm, m': Vm, end: int, len: nat) {
    match os
    case Vals(vs, st') =>
      m' == m.(ip := end, stack := m.stack + vs, heap := m'.heap) && |vs| == len && Same(st, m, st', m')
    case Stop(o) => !o.Val? && Matches(o, fuel, st, n, m, m', end)
  }

  lemma {:induction false} SimArgs(fuel: nat, es: Exprs, st: Store, m: Vm, labels: map<nat, nat>, g: nat)
    returns (n: nat, m': Vm)
    requires Ready(st, m) && m.stack != [] && WfExprs(es) && Placed(m, labels, CompileArgs(es, g).code)
    ensures m' == Run(n, m)
    ensures MatchesArgs(EvalArgs(fuel, es, st, m.c, |m.stack| - 1), fuel, st, n, m, m',
                        AfterCode(m, CompileArgs(es, g).code), Length(es))
    decreases fuel, es, 1
  {
    hide Step, Matches, At, After, Rel, Grows, Frame, Above, Dispatch, Compile, Eval, Joins, EmitJump, EmitLabel;
    if es.End? {
      AfterBlank(m.text, m.ip);
      n, m' := 0, m;
      FrameRefl(st, m);
      assert m.stack + [] == m.stack;
    } else {
      var c := Compile(es.head, g);
      var d := CompileArgs(es.tail, c.next);
      var q := AfterCode(m, c.code);
      ArgsPlaces(m.text, labels, es, g, m.ip);
      n, m' := Sim(fuel, es.head, st, m, labels, g);
      var o := Eval(fuel, es.head, st, m.c, |m.stack| - 1);
      var end := AfterCode(m, CompileArgs(es, g).code);
      if o.Val? {
        var n1, m1 := n, m';
        ValFacts(o, fuel, st, n, m, m1, q);
        n, m' := SimArgs(fuel, es.tail, o.st, m1, labels, c.next);
        Glue(n1, m, m1, n, m');
        ArgsDone(o.v, EvalArgs(fuel, es.tail, o.st, m.c, |m.stack|), fuel, st, o.st, n1, n, m, m1, m', end, Length(es.tail));
        n := n1 + n;
      } else {
        OtherDone(o, fuel, st, n, m, m', q, end);
      }
    }
  }

  lemma ArgsDone(v: Value, os: Outcomes, fuel: nat, st: Store, st1: Store, n0: nat, n: nat,
                 m: Vm, m1: Vm, m': Vm, end: int, len: nat)
    requires Ready(st, m) && Same(st, m, st1, m1) && m1 == m.(ip := m1.ip, stack := m.stack + [v], heap := m1.heap)
    requires MatchesArgs(os, fuel, st1, n, m1, m', end, len)
    ensures match os
            case Vals(vs, st2) => MatchesArgs(Vals([v] + vs, st2), fuel, st, n0 + n, m, m', end, len + 1)
            case Stop(_) => MatchesArgs(os, fuel, st, n0 + n, m, m', end, len + 1)
  {
    hide Matches, Frame, Grows, Rel, Above;
    match os
    case Vals(vs, st2) =>
      SameTrans(st, m, st1, m1, st2, m');
      assert m.stack + ([v] + vs) == m1.stack + vs;
    case Stop(o) =>
      Continue(o, fuel, fuel, st, st1, n0, n, m, m1, m', end);
  }

  lemma ArgsPlaces(t: Text, labels: map<nat, nat>, es: Exprs, g: nat, p: nat)
    requires es.More? && At(t, labels, CompileArgs(es, g).code, p)
    ensures var c := Compile(es.head, g); var d := CompileArgs(es.tail, c.next);
            var q := After(t, c.code, p);
            && At(t, labels, c.code, p) && At(t, labels, d.code, q)
            && After(t, CompileArgs(es, g).code, p) == After(t, d.code, q)
  {
    hide After, Joins, Compile, ItemAt, ItemAfter;
    var c := Compile(es.head, g);
    var d := CompileArgs(es.tail, c.next);
    if es.tail.End? {
      AfterBlank(t, After(t, c.code, p));
    } else {
      AtCell(t, labels, c.code, d.code, p);
    }
  }

  lemma SimMakeList(fuel: nat, e: Expr, st: Store, m: Vm, labels: map<nat, nat>, g: nat) returns (n: nat, m': Vm)
    requires e.MakeList?
    requires Ready(st, m) && m.stack != [] && WfExpr(e) && Placed(m, labels, Compile(e, g).code)
    ensures m' == Run(n, m)
    ensures Matches(Eval(fuel, e, st, m.c, |m.stack| - 1), fuel, st, n, m, m', AfterCode(m, Compile(e, g).code))
    decreases fuel, e, 3
  {
    hide Step, Matches, At, After, Rel, Grows, Frame, Above, Dispatch, Compile, Eval, Joins, EmitJump, EmitLabel;
    var d := CompileArgs(e.elements, g);
    var len := Length(e.elements);
    var end := AfterCode(m, Compile(e, g).code);
    ListPlaces(m.text, labels, e, g, m.ip);
    EvalListForm(fuel, e, st, m.c, |m.stack| - 1);
    n, m' := SimArgs(fuel, e.elements, st, m, labels, g);
    var os := EvalArgs(fuel, e.elements, st, m.c, |m.stack| - 1);
    var q := AfterCode(m, d.code);
    if os.Vals? {
      var m1 := m';
      StepList(m1, labels, len);
      n, m' := OneMore(n, m, m1);
      assert m1.stack[|m1.stack| - len..] == os.vs;
      assert Popped(m1, len) == m.stack;
      assert os.vs[len..] == [] && os.vs[0..] == os.vs;
      ListDownIsListOf(os.vs, 0, len, Nil);
      ValHere(ListOf(os.vs), fuel, st, os.st, n, m, m', end);
    } else {
      OtherDone(os.o, fuel, st, n, m, m', q, end);
    }
  }

  lemma ListPlaces(t: Text, labels: map<nat, nat>, e: Expr, g: nat, p: nat)
    requires e.MakeList? && At(t, labels, Compile(e, g).code, p)
    ensures var d := CompileArgs(e.elements, g); var q := After(t, d.code, p);
            var op := Emit2(OP_LIST, Length(e.elements));
            && At(t, labels, d.code, p) && At(t, labels, op, q)
            && After(t, op, q) == q + 2 == After(t, Compile(e, g).code, p)
  {
    hide At, After, Joins, CompileArgs;
    var d := CompileArgs(e.elements, g);
    AtL2(t, labels, d.code, Emit2(OP_LIST, Length(e.elements)), p);
    Op2At(t, labels, OP_LIST, Length(e.elements), After(t, d.code, p));
  }

  lemma EvalListForm(fuel: nat, e: Expr, st: Store, c: nat, depth: nat)
    requires e.MakeList? && c < |st|
    ensures Eval(fuel, e, st, c, depth) ==
            match EvalArgs(fuel, e.elements, st, c, depth)
            case Vals(vs, st1) => Val(ListOf(vs), st1)
            case Stop(o) => o
  {
    hide EvalArgs;
  }

  // ---- calls

  lemma SimCall(fuel: nat, e: Expr, st: Store, m: Vm, labels: map<nat, nat>, g: nat) returns (n: nat, m': Vm)
    requires e.Call?
    requires Ready(st, m) && m.stack != [] && WfExpr(e) && Placed(m, labels, Compile(e, g).code)
    ensures m' == Run(n, m)
    ensures Matches(Eval(fuel, e, st, m.c, |m.stack| - 1), fuel, st, n, m, m', AfterCode(m, Compile(e, g).code))
    decreases fuel, e, 3
  {
    hide Step, Matches, At, After, Rel, Grows, Frame, Above, Dispatch, Compile, Eval, Joins, EmitJump, EmitLabel;
    var c := Compile(e.fun, g);
    var end := AfterCode(m, Compile(e, g).code);
    CallPlaces(m.text, labels, e, g, m.ip);
    EvalCallForm(fuel, e, st, m.c, |m.stack| - 1);
    var q := AfterCode(m, c.code);
    n, m' := Sim(fuel, e.fun, st, m, labels, g);
    var o := Eval(fuel, e.fun, st, m.c, |m.stack| - 1);
    if o.Val? {
      var n1, m1 := n, m';
      ValFacts(o, fuel, st, n, m, m1, q);
      n, m' := SimOperands(fuel, e, o.v, o.st, m1, labels, c.next);
      Glue(n1, m, m1, n, m');
      Continue(CallWith(fuel, e, o.v, o.st, m.c, |m.stack| - 1), fuel, fuel, st, o.st, n1, n,
               m, m1.(stack := m.stack), m', end);
      n := n1 + n;
    } else {
      OtherDone(o, fuel, st, n, m, m', q, end);
    }
  }

  // The rest of a call once the procedure value is known.
  function CallWith(fuel: nat, e: Expr, fv: Value, st: Store, c: nat, depth: nat): Outcome
    requires e.Call?
  {
    match EvalArgs(fuel, e.args, st, c, depth + 1)
    case Vals(vs, st2) => EvalApply(fuel, e, fv, ListOf(vs), st2, depth)
    case Stop(o) => o
  }

  lemma {:induction false} SimOperands(fuel: nat, e: Expr, fv: Value, st: Store, m: Vm, labels: map<nat, nat>, g: nat)
    returns (n: nat, m': Vm)
    requires e.Call? && WfExpr(e) && Ready(st, m) && |m.stack| >= 2 && Top(m) == fv
    requires Placed(m, labels, CompileArgs(e.args, g).code)
    requires At(m.text, labels, Emit2(OP_APPLY, Length(e.args)), AfterCode(m, CompileArgs(e.args, g).code))
    ensures m' == Run(n, m)
    ensures var q := AfterCode(m, CompileArgs(e.args, g).code);
            Matches(CallWith(fuel, e, fv, st, m.c, |m.stack| - 2), fuel, st, n, m.(stack := Popped(m, 1)), m', q + 2)
    decreases fuel, e, 2
  {
    hide Step, Matches, At, After, Rel, Grows, Frame, Above, Dispatch, Compile, Eval, Joins, EmitJump, EmitLabel, EvalApply, Emit2, CompileArgs, Length;
    var m0 := m.(stack := Popped(m, 1));
    var q := AfterCode(m, CompileArgs(e.args, g).code);
    var len := Length(e.args);
    n, m' := SimArgs(fuel, e.args, st, m, labels, g);
    FrameRefl(st, m);
    var os := EvalArgs(fuel, e.args, st, m.c, |m.stack| - 1);
    if os.Vals? {
      var n2, m2 := n, m';
      SameIsReady(st, m, os.st, m2);
      assert m2.stack == m0.stack + [fv] + os.vs;
      n, m' := SimInvoke(fuel, e, fv, os.vs, os.st, m0.stack, m2, labels);
      Glue(n2, m, m2, n, m');
      var m3 := m2.(ip := q + 2, stack := m0.stack);
      assert Same(st, m0, os.st, m3);
      Continue(EvalApply(fuel, e, fv, ListOf(os.vs), os.st, |m.stack| - 2), fuel, fuel, st, os.st, n2, n, m0, m3, m', q + 2);
      n := n2 + n;
    } else {
      Continue(os.o, fuel, fuel, st, st, 0, n, m0, m, m', q);
      OtherDone(os.o, fuel, st, n, m0, m', q, q + 2);
    }
  }

  lemma {:induction false} SimInvoke(fuel: nat, e: Expr, fv: Value, vs: seq<Value>, st: Store, stack: seq<Value>,
                                     m: Vm, labels: map<nat, nat>) returns (n: nat, m': Vm)
    requires Ready(st, m) && stack != [] && |vs| <= 255 && m.stack == stack + [fv] + vs
    requires Placed(m, labels, Emit2(OP_APPLY, |vs|))
    ensures m' == Run(n, m)
    ensures Matches(EvalApply(fuel, e, fv, ListOf(vs), st, |stack| - 1), fuel, st, n,
                    m.(ip := m.ip + 2, stack := stack), m', m.ip + 2)
    decreases fuel, e, 1
  {
    hide Step, Matches, At, After, Rel, Grows, Frame, Above, Dispatch, Compile, Eval, Joins, EmitJump, EmitLabel;
    StepApply(m, labels, |vs|);
    RelSize(st, m);
    var m3 := m.(ip := m.ip + 2, stack := stack);
    AppliedStack(stack, fv, vs, m, m3);
    n, m' := SimApply(fuel, e, fv, ListOf(vs), st, m, m3);
  }

  lemma CallPlaces(t: Text, labels: map<nat, nat>, e: Expr, g: nat, p: nat)
    requires e.Call? && At(t, labels, Compile(e, g).code, p)
    ensures var c := Compile(e.fun, g); var d := CompileArgs(e.args, c.next);
            var q := After(t, c.code, p); var r := After(t, d.code, q);
            var op := Emit2(OP_APPLY, Length(e.args));
            && At(t, labels, c.code, p) && At(t, labels, d.code, q) && At(t, labels, op, r)
            && After(t, op, r) == r + 2 == After(t, Compile(e, g).code, p)
  {
    hide At, After, Joins, CompileArgs;
    var c := Compile(e.fun, g);
    var d := CompileArgs(e.args, c.next);
    AtL3(t, labels, c.code, d.code, Emit2(OP_APPLY, Length(e.args)), p);
    Op2At(t, labels, OP_APPLY, Length(e.args), After(t, d.code, After(t, c.code, p)));
  }

  lemma EvalCallForm(fuel: nat, e: Expr, st: Store, c: nat, depth: nat)
    requires e.Call? && c < |st|
    ensures var o := Eval(fuel, e.fun, st, c, depth);
            Eval(fuel, e, st, c, depth) == if o.Val? then CallWith(fuel, e, o.v, o.st, c, depth) else o
  {
    hide EvalArgs, EvalApply;
  }

  // What an apply instruction does with procedure value fv and its arguments,
  // m3 being the state after the operands were popped.
  ghost predicate Applies(fv: Value, args: Value, m3: Vm, m': Vm) {
    match fv
    case Lambda(id) =>
      id < |m3.heap| && m3.c < |m3.heap| ==> m' == EnterProcedure(Save(m3, m3.ip), id, BindList(m3.heap[id].args, args, map[]))
    case Kw(_) => m'.mode.Stuck?
    case _ => m' == Throw(m3, CantApply(fv))
  }

  lemma AppliedStack(stack: seq<Value>, fv: Value, vs: seq<Value>, m2: Vm, m3: Vm)
    requires m2.stack == stack + [fv] + vs && m2.c < |m2.heap| && m2.mode.Running?
    requires 0 <= m2.ip && m2.ip + 1 < |m2.text.data| && m2.text.data[m2.ip + 1] == |vs|
    requires m3 == m2.(ip := m2.ip + 2, stack := stack)
    ensures Applies(fv, ListOf(vs), m3, DoApply(m2.(ip := m2.ip + 1)))
  {
    hide EnterProcedure, Save, BindStack, BindList;
    assert m2.stack[|m2.stack| - |vs|..] == vs;
    assert Popped(m2, |vs| + 1) == stack;
    if fv.Lambda? && fv.id < |m2.heap| {
      assert vs[0..] == vs;
      StackBindingIsListBinding(m2.heap[fv.id].args, vs, 0, map[]);
    }
  }

  lemma SimApplyForm(fuel: nat, e: Expr, st: Store, m: Vm, labels: map<nat, nat>, g: nat) returns (n: nat, m': Vm)
    requires e.Apply?
    requires Ready(st, m) && m.stack != [] && WfExpr(e) && Placed(m, labels, Compile(e, g).code)
    ensures m' == Run(n, m)
    ensures Matches(Eval(fuel, e, st, m.c, |m.stack| - 1), fuel, st, n, m, m', AfterCode(m, Compile(e, g).code))
    decreases fuel, e, 3
  {
    hide Step, Matches, At, After, Rel, Grows, Frame, Above, Dispatch, Compile, Eval, Joins, EmitJump, EmitLabel;
    var c := Compile(e.callee, g);
    var end := AfterCode(m, Compile(e, g).code);
    ApplyPlaces(m.text, labels, e, g, m.ip);
    EvalApplyForm(fuel, e, st, m.c, |m.stack| - 1);
    var q := AfterCode(m, c.code);
    n, m' := Sim(fuel, e.callee, st, m, labels, g);
    var o := Eval(fuel, e.callee, st, m.c, |m.stack| - 1);
    if o.Val? {
      var n1, m1 := n, m';
      ValFacts(o, fuel, st, n, m, m1, q);
      n, m' := SimListOperand(fuel, e, o.v, o.st, m1, labels, c.next);
      Glue(n1, m, m1, n, m');
      Continue(ApplyWith(fuel, e, o.v, o.st, m.c, |m.stack| - 1), fuel, fuel, st, o.st, n1, n,
               m, m1.(stack := m.stack), m', end);
      n := n1 + n;
    } else {
      OtherDone(o, fuel, st, n, m, m', q, end);
    }
  }

  // The rest of an (apply f list) once the procedure value is known.
  function ApplyWith(fuel: nat, e: Expr, fv: Value, st: Store, c: nat, depth: nat): Outcome
    requires e.Apply?
  {
    match Eval(fuel, e.arglist, st, c, depth + 1)
    case Val(lv, st2) => EvalApply(fuel, e, fv, lv, st2, depth)
    case o => o
  }

  lemma {:induction false} SimListOperand(fuel: nat, e: Expr, fv: Value, st: Store, m: Vm, labels: map<nat, nat>, g: nat)
    returns (n: nat, m': Vm)
    requires e.Apply? && WfExpr(e) && Ready(st, m) && |m.stack| >= 2 && Top(m) == fv
    requires Placed(m, labels, Compile(e.arglist, g).code)
    requires At(m.text, labels, Emit1(OP_APPLY_COLLECTION), AfterCode(m, Compile(e.arglist, g).code))
    ensures m' == Run(n, m)
    ensures var q := AfterCode(m, Compile(e.arglist, g).code);
            Matches(ApplyWith(fuel, e, fv, st, m.c, |m.stack| - 2), fuel, st, n, m.(stack := Popped(m, 1)), m', q + 1)
    decreases fuel, e, 2
  {
    hide Step, Matches, At, After, Rel, Grows, Frame, Above, Dispatch, Compile, Eval, Joins, EmitJump, EmitLabel, EvalApply, Emit1;
    var m0 := m.(stack := Popped(m, 1));
    var q := AfterCode(m, Compile(e.arglist, g).code);
    n, m' := Sim(fuel, e.arglist, st, m, labels, g);
    FrameRefl(st, m);
    var o := Eval(fuel, e.arglist, st, m.c, |m.stack| - 1);
    if o.Val? {
      var n2, m2 := n, m';
      ValFacts(o, fuel, st, n, m, m2, q);
      assert m2.stack == m0.stack + [fv] + [o.v];
      n, m' := SimInvokeList(fuel, e, fv, o.v, o.st, m0.stack, m2, labels);
      Glue(n2, m, m2, n, m');
      var m3 := m2.(ip := q + 1, stack := m0.stack);
      Continue(EvalApply(fuel, e, fv, o.v, o.st, |m.stack| - 2), fuel, fuel, st, o.st, n2, n, m0, m3, m', q + 1);
      n := n2 + n;
    } else {
      Continue(o, fuel, fuel, st, st, 0, n, m0, m, m', q);
      OtherDone(o, fuel, st, n, m0, m', q, q + 1);
    }
  }

  lemma {:induction false} SimInvokeList(fuel: nat, e: Expr, fv: Value, args: Value, st: Store, stack: seq<Value>,
                                         m: Vm, labels: map<nat, nat>) returns (n: nat, m': Vm)
    requires Ready(st, m) && stack != [] && m.stack == stack + [fv] + [args]
    requires Placed(m, labels, Emit1(OP_APPLY_COLLECTION))
    ensures m' == Run(n, m)
    ensures Matches(EvalApply(fuel, e, fv, args, st, |stack| - 1), fuel, st, n,
                    m.(ip := m.ip + 1, stack := stack), m', m.ip + 1)
    decreases fuel, e, 1
  {
    hide Step, Matches, At, After, Rel, Grows, Frame, Above, Dispatch, Compile, Eval, Joins, EmitJump, EmitLabel;
    StepApplyCollection(m, labels);
    RelSize(st, m);
    var m3 := m.(ip := m.ip + 1, stack := stack);
    AppliedCollection(stack, fv, args, m, m3);
    n, m' := SimApply(fuel, e, fv, args, st, m, m3);
  }

  lemma ApplyPlaces(t: Text, labels: map<nat, nat>, e: Expr, g: nat, p: nat)
    requires e.Apply? && At(t, labels, Compile(e, g).code, p)
    ensures var c := Compile(e.callee, g); var d := Compile(e.arglist, c.next);
            var q := After(t, c.code, p); var r := After(t, d.code, q);
            && At(t, labels, c.code, p) && At(t, labels, d.code, q) && At(t, labels, Emit1(OP_APPLY_COLLECTION), r)
            && After(t, Emit1(OP_APPLY_COLLECTION), r) == r + 1 == After(t, Compile(e, g).code, p)
  {
    hide At, After, Joins;
    var c := Compile(e.callee, g);
    var d := Compile(e.arglist, c.next);
    AtL3(t, labels, c.code, d.code, Emit1(OP_APPLY_COLLECTION), p);
    OpAt(t, labels, OP_APPLY_COLLECTION, After(t, d.code, After(t, c.code, p)));
  }

  lemma EvalApplyForm(fuel: nat, e: Expr, st: Store, c: nat, depth: nat)
    requires e.Apply? && c < |st|
    ensures var o := Eval(fuel, e.callee, st, c, depth);
            Eval(fuel, e, st, c, depth) == if o.Val? then ApplyWith(fuel, e, o.v, o.st, c, depth) else o
  {
    hide EvalApply;
  }

  lemma AppliedCollection(stack: seq<Value>, fv: Value, args: Value, m2: Vm, m3: Vm)
    requires m2.stack == stack + [fv] + [args] && m2.c < |m2.heap|
    requires m3 == m2.(ip := m2.ip + 1, stack := stack)
    ensures Applies(fv, args, m3, DoApplyCollection(m2.(ip := m2.ip + 1)))
  {
    hide EnterProcedure, Save, BindList;
    assert Popped(m2, 2) == stack;
  }

  // The application itself: m2 is about to execute the apply instruction.
  lemma {:induction false} SimApply(fuel: nat, e: Expr, fv: Value, args: Value, st: Store, m2: Vm, m3: Vm)
    returns (n: nat, m': Vm)
    requires Ready(st, m3) && m3.stack != []
    requires Applies(fv, args, m3, Step(m2))
    ensures m' == Run(n, m2)
    ensures Matches(EvalApply(fuel, e, fv, args, st, |m3.stack| - 1), fuel, st, n, m3, m', m3.ip)
    decreases fuel, e, 0
  {
    hide Step, Matches, Rel, Grows, Frame, Above, Eval, EnterProcedure, Save, CantApply;
    RunOne(m2);
    n, m' := 1, Step(m2);
    var o := EvalApply(fuel, e, fv, args, st, |m3.stack| - 1);
    match fv
    case Lambda(id) =>
      if id < |st| && st[id].fn.Some? && |m3.stack| - 1 <= MAX_SP {
        RelSize(st, m3);
        if fuel > 0 {
          var n1, m1 := SimBody(fuel - 1, id, args, st, m3, m');
          Glue(1, m2, m', n1, m1);
          n, m' := 1 + n1, m1;
        } else {
          EnterRuns(m3, id, BindList(m3.heap[id].args, args, map[]));
          TimeoutDone(fuel, st, n, m3, m', m3.ip);
        }
      } else {
        NoClaim(o, fuel, st, n, m3, m', m3.ip);
      }
    case Kw(_) => NoClaim(o, fuel, st, n, m3, m', m3.ip);
    case _ =>
      FrameRefl(st, m3);
      RaiseDone(CantApply(fv), fuel, st, st, n, m3, m3, m', m3.ip);
  }

  lemma NoClaim(o: Outcome, fuel: nat, st: Store, n: nat, m: Vm, m': Vm, end: int)
    requires o.Malformed? || o.TooDeep? || (o.Unsupported? && m'.mode.Stuck?)
    ensures Matches(o, fuel, st, n, m, m', end)
  {
  }

  lemma RelSize(st: Store, m: Vm)
    requires Ready(st, m)
    ensures |st| == |m.heap|
  {
  }

  lemma EnterRuns(m: Vm, id: nat, data: map<Symbol, Value>)
    requires m.mode.Running? && id < |m.heap| && m.c < |m.heap|
    ensures EnterProcedure(Save(m, m.ip), id, data).mode.Running?
  {
  }

  // Run the procedure body and its $ret.  m3 is the caller after popping the
  // operands, m4 the callee's first state.
  lemma {:induction false} SimBody(fuel: nat, id: nat, args: Value, st: Store, m3: Vm, m4: Vm) returns (n: nat, m': Vm)
    requires Ready(st, m3) && m3.stack != [] && |m3.stack| - 1 <= MAX_SP
    requires id < |st| && st[id].fn.Some? && |st| == |m3.heap|
    requires m4 == EnterProcedure(Save(m3, m3.ip), id, BindList(m3.heap[id].args, args, map[]))
    ensures m' == Run(n, m4)
    ensures Matches(CallResult(Body(fuel, id, args, st, |m3.stack| - 1)), fuel + 1, st, 1 + n, m3, m', m3.ip)
    decreases fuel
  {
    hide Step, Matches, At, After, Rel, Grows, Frame, Above, Dispatch, Eval, Joins, Compile, CompileForm, Assembles,
      EnterProcedure, Save, DoRet;
    var p := st[id].fn.value;
    var frame := Scope(Some(id), BindList(p.params, args, map[]), None);
    var st1 := st + [frame];
    var labels := EnterReady(st, m3, id, args, frame, m4);
    var q := AfterCode(m4, Compile(p.code, 0).code);
    n, m' := Sim(fuel, p.code, st1, m4, labels, 0);
    n, m' := BodyEnds(Eval(fuel, p.code, st1, m4.c, |m4.stack| - 1), fuel, st, st1, n, m3, m4, m', labels, q);
  }

  // The body's $ret, or its exception.
  lemma BodyEnds(o: Outcome, fuel: nat, st: Store, st1: Store, n: nat, m3: Vm, m4: Vm, m5: Vm, labels: map<nat, nat>, q: nat) returns (n': nat, m': Vm)
    requires Ready(st, m3) && m3.stack != [] && |m3.stack| - 1 <= MAX_SP && |st| == |m3.heap|
    requires Ready(st1, m4) && Above(m3, m4, {CallFrame}) && Grows(st, st1) && m4.stack == m3.stack && m4.cs == m3.cs + [|m3.heap|]
    requires m4.heap[m3.c].ip == m3.ip && m4.heap[m3.c].text == m3.text && m4.heap[m3.c].sp == |m3.stack| - 1
    requires At(m4.text, labels, Emit1(OP_RET), q) && Matches(o, fuel, st1, n, m4, m5, q) && m5 == Run(n, m4)
    ensures m' == Run(n', m4) && Matches(CallResult(o), fuel + 1, st, 1 + n', m3, m', m3.ip)
  {
    hide Step, Matches, At, Rel, Grows, Frame, Above, Run, DoRet, Emit1;
    n', m' := n, m5;
    match o
    case Val(v, st2) =>
      ValFacts(o, fuel, st1, n, m4, m5, q);
      SameIsReady(st1, m4, st2, m5);
      OpAt(m4.text, labels, OP_RET, q);
      StepRet(m5);
      n', m' := OneMore(n, m4, m5);
      Returned(v, fuel + 1, st, st1, st2, n', m3, m4, m5, m');
    case Ret(v, st2) =>
      RetFacts(o, fuel, st1, n, m4, m5, q);
      StepRet(m5);
      n', m' := OneMore(n, m4, m5);
      Returned(v, fuel + 1, st, st1, st2, n', m3, m4, m5, m');
    case _ =>
      PassCall(o, fuel + 1, st, st1, n, m3, m4, m5, q);
  }

  lemma RetFacts(o: Outcome, fuel: nat, st: Store, n: nat, m: Vm, m1: Vm, end: int)
    requires o.Ret? && Matches(o, fuel, st, n, m, m1, end)
    ensures m1.mode.Running? && 0 <= m1.ip < |m1.text.data| && m1.text.data[m1.ip] == OP_RET
    ensures |m1.stack| > |m.stack| && Top(m1) == o.v && Above(m, m1, {LetScope}) && Rel(o.st, m1.heap) && Grows(st, o.st)
  {
  }

  lemma EnterReady(st: Store, m3: Vm, id: nat, args: Value, frame: Scope, m4: Vm) returns (labels: map<nat, nat>)
    requires Ready(st, m3) && id < |st| && st[id].fn.Some? && |st| == |m3.heap|
    requires frame == Scope(Some(id), BindList(st[id].fn.value.params, args, map[]), None)
    requires m4 == EnterProcedure(Save(m3, m3.ip), id, BindList(m3.heap[id].args, args, map[]))
    ensures Ready(st + [frame], m4) && Above(m3, m4, {CallFrame}) && Grows(st, st + [frame])
    ensures m4.stack == m3.stack && m4.cs == m3.cs + [|m3.heap|]
    ensures m4.heap[m3.c].ip == m3.ip && m4.heap[m3.c].text == m3.text && m4.heap[m3.c].sp == (|m3.stack| - 1) % 0x1_0000
    ensures var code := st[id].fn.value.code;
            var q := After(m4.text, Compile(code, 0).code, 0);
            WfExpr(code) && m4.ip == 0 && Placed(m4, labels, Compile(code, 0).code) &&
            At(m4.text, labels, Emit1(OP_RET), q)
  {
    hide At, After, Compile, Assembles, BindList;
    var p := st[id].fn.value;
    assert SameScope(st[id], m3.heap[id]);
    labels := ProcedurePlaced(p.code);
    var st1 := st + [frame];
    forall i | 0 <= i < |st1| ensures SameScope(st1[i], m4.heap[i]) {
      if i < |st| {
        assert SameScope(st[i], m3.heap[i]);
      }
    }
  }

  lemma ProcedurePlaced(code: Expr) returns (labels: map<nat, nat>)
    requires Assembles(CompileForm(code))
    ensures At(FnText(code), labels, Compile(code, 0).code, 0)
    ensures At(FnText(code), labels, Emit1(OP_RET), After(FnText(code), Compile(code, 0).code, 0))
  {
    hide At, After, Compile, Joins, Labels, IsList, Distinct, Targets;
    CompileClosed(code, 0);
    ThenClosed(Compile(code, 0), Emit1(OP_RET), 0);
    AssembledIsPlaced(CompileForm(code));
    labels := LabelMap(CompileForm(code));
    AtL2(FnText(code), labels, Compile(code, 0).code, Emit1(OP_RET), 0);
  }

  lemma {:induction false} FrameIndexIs(heap: seq<Closure>, cs: seq<nat>, k: nat, j: nat)
    requires 0 < j <= k < |cs| && cs[j] < |heap| && heap[cs[j]].kind == CallFrame
    requires forall i :: j < i <= k ==> cs[i] < |heap| && heap[cs[i]].kind == LetScope
    ensures FrameIndex(heap, cs, k) == j
    decreases k
  {
    if k > j {
      FrameIndexIs(heap, cs, k - 1, j);
    }
  }

  // $ret, from inside any number of let scopes, resumes the caller behind its
  // apply with its own stacks and the result on top.
  lemma Resumed(v: Value, m3: Vm, m4: Vm, m5: Vm, m': Vm)
    requires m3.mode.Running? && m3.stack != [] && |m3.stack| - 1 <= MAX_SP
    requires m3.cs != [] && m3.c == m3.cs[|m3.cs| - 1] && m3.c < |m3.heap|
    requires Above(m3, m4, {CallFrame}) && m4.cs == m3.cs + [|m3.heap|] && m4.stack == m3.stack
    requires m4.heap[m3.c].ip == m3.ip && m4.heap[m3.c].text == m3.text && m4.heap[m3.c].sp == |m3.stack| - 1
    requires Above(m4, m5, {LetScope}) && m5.mode.Running? && |m5.stack| > |m4.stack| && Top(m5) == v
    requires m' == DoRet(m5.(ip := m5.ip + 1))
    ensures m' == m3.(stack := m3.stack + [v], heap := m5.heap)
  {
    hide FrameIndex;
    var j := |m3.cs|;
    assert m5.cs[j] == m4.cs[j] == |m3.heap|;
    assert SameKind(m4.heap[|m3.heap|], m5.heap[|m3.heap|]);
    FrameIndexIs(m5.heap, m5.cs, |m5.cs| - 1, j);
    assert m5.cs[j - 1] == m3.cs[j - 1] == m3.c;
    assert SameSaved(m4.heap[m3.c], m5.heap[m3.c]);
    assert m5.cs[..j] == m3.cs;
    assert m5.stack[..|m3.stack|] == m3.stack;
  }

  lemma Returned(v: Value, fuel: nat, st: Store, st1: Store, st2: Store, n: nat, m3: Vm, m4: Vm, m5: Vm, m': Vm)
    requires Ready(st, m3) && m3.stack != [] && |m3.stack| - 1 <= MAX_SP && |st| == |m3.heap|
    requires Above(m3, m4, {CallFrame}) && m4.cs == m3.cs + [|m3.heap|] && m4.stack == m3.stack && Grows(st, st1)
    requires m4.heap[m3.c].ip == m3.ip && m4.heap[m3.c].text == m3.text && m4.heap[m3.c].sp == |m3.stack| - 1
    requires Above(m4, m5, {LetScope}) && m5.mode.Running? && |m5.stack| > |m4.stack| && Top(m5) == v
    requires Rel(st2, m5.heap) && Grows(st1, st2)
    requires m' == DoRet(m5.(ip := m5.ip + 1))
    ensures Matches(CallResult(Val(v, st2)), fuel, st, 1 + n, m3, m', m3.ip)
  {
    hide DoRet, Rel;
    Resumed(v, m3, m4, m5, m');
    FrameTrans(m3.heap, m4.heap, m5.heap, m3.c, |m3.heap|);
  }

  // Exceptions and timeouts leave the call as they are.
  lemma PassCall(o: Outcome, fuel: nat, st: Store, st1: Store, n: nat, m3: Vm, m4: Vm, m': Vm, q: int)
    requires fuel > 0 && Ready(st, m3) && Above(m3, m4, {CallFrame}) && Grows(st, st1)
    requires !o.Val? && !o.Ret? && Matches(o, fuel - 1, st1, n, m4, m', q)
    ensures Matches(CallResult(o), fuel, st, 1 + n, m3, m', m3.ip)
  {
    if o.Raise? {
      AboveTrans(m3, m4, m', {CallFrame}, {LetScope, CallFrame}, {LetScope, CallFrame});
    }
  }

  function Body(fuel: nat, id: nat, args: Value, st: Store, depth: nat): Outcome
    requires id < |st| && st[id].fn.Some?
  {
    var fn := st[id].fn.value;
    Eval(fuel, fn.code, st + [Scope(Some(id), BindList(fn.params, args, map[]), None)], |st|, depth)
  }

  function CallResult(o: Outcome): Outcome {
    match o
    case Ret(v, st) => Val(v, st)
    case _ => o
  }
}
