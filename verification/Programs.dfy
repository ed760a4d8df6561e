// Whole programs: the VM halts with a value or an exception exactly when the
// evaluator produces one.
module Programs {
  import opened Values
  import opened Primitives
  import opened Source
  import opened Assembler
  import opened Compiler
  import opened Machine
  import opened Simulation

  // ---- well-formed programs never get malformed

  ghost predicate ValueOk(v: Value, st: Store) {
    match v
    case Lambda(id) => id < |st| && st[id].fn.Some?
    case Pair(a, d) => ValueOk(a, st) && ValueOk(d, st)
    case _ => true
  }

  ghost predicate DataOk(data: map<Symbol, Value>, st: Store) {
    forall s :: s in data ==> ValueOk(data[s], st)
  }

  ghost predicate StoreOk(st: Store) {
    && (forall i :: 0 <= i < |st| ==> DataOk(st[i].data, st))
    && (forall i :: 0 <= i < |st| && st[i].fn.Some? ==> WfExpr(st[i].fn.value.code))
  }

  ghost predicate OutcomeOk(o: Outcome, st: Store) {
    match o
    case Val(v, st') => StoreOk(st') && ValueOk(v, st') && Grows(st, st')
    case Ret(v, st') => StoreOk(st') && ValueOk(v, st') && Grows(st, st')
    case Raise(_, st') => StoreOk(st') && Grows(st, st')
    case Malformed => false
    case _ => true
  }

  lemma {:induction false} ValueOkGrows(v: Value, st: Store, st': Store)
    requires ValueOk(v, st) && Grows(st, st')
    ensures ValueOk(v, st')
  {
    if v.Pair? {
      ValueOkGrows(v.car, st, st');
      ValueOkGrows(v.cdr, st, st');
    }
  }

  lemma {:induction false} PlainIsOk(v: Value, st: Store)
    requires Plain(v)
    ensures ValueOk(v, st)
  {
    if v.Pair? {
      PlainIsOk(v.car, st);
      PlainIsOk(v.cdr, st);
    }
  }

  lemma {:induction false} LookupOk(st: Store, c: nat, s: Symbol)
    requires StoreOk(st)
    ensures Lookup(st, c, s).Some? ==> ValueOk(Lookup(st, c, s).value, st)
  {
    if c < |st| {
      assert DataOk(st[c].data, st);
      if s !in st[c].data && st[c].parent.Some? && st[c].parent.value < c {
        LookupOk(st, st[c].parent.value, s);
      }
    }
  }

  lemma BindOk(st: Store, b: nat, s: Symbol, v: Value)
    requires StoreOk(st) && b < |st| && ValueOk(v, st)
    ensures StoreOk(Bind(st, b, s, v)) && Grows(st, Bind(st, b, s, v)) && ValueOk(v, Bind(st, b, s, v))
  {
    var st' := Bind(st, b, s, v);
    assert Grows(st, st');
    ValueOkGrows(v, st, st');
    forall i | 0 <= i < |st'| ensures DataOk(st'[i].data, st') {
      assert DataOk(st[i].data, st);
      forall x | x in st'[i].data ensures ValueOk(st'[i].data[x], st') {
        if i != b || x != s {
          ValueOkGrows(st[i].data[x], st, st');
        }
      }
    }
  }

  lemma AddScopeOk(st: Store, scope: Scope)
    requires StoreOk(st) && DataOk(scope.data, st) && (scope.fn.Some? ==> WfExpr(scope.fn.value.code))
    ensures StoreOk(st + [scope]) && Grows(st, st + [scope])
  {
    var st' := st + [scope];
    assert Grows(st, st');
    forall i | 0 <= i < |st'| ensures DataOk(st'[i].data, st') {
      if i < |st| {
        assert DataOk(st[i].data, st);
      }
      forall x | x in st'[i].data ensures ValueOk(st'[i].data[x], st') {
        ValueOkGrows(st'[i].data[x], st, st');
      }
    }
  }

  lemma GrowsTrans(a: Store, b: Store, c: Store)
    requires Grows(a, b) && Grows(b, c)
    ensures Grows(a, c)
  {
  }

  lemma OutcomeGrows(o: Outcome, st: Store, st1: Store)
    requires OutcomeOk(o, st1) && Grows(st, st1)
    ensures OutcomeOk(o, st)
  {
    if o.Val? || o.Ret? || o.Raise? {
      GrowsTrans(st, st1, o.st);
    }
  }

  lemma Apply1Ok(op: Op1, v: Value, st: Store)
    requires ValueOk(v, st)
    ensures Apply1(op, v).Ok? ==> ValueOk(Apply1(op, v).v, st)
  {
    if v.Pair? {
      assert ValueOk(v.car, st) && ValueOk(v.cdr, st);
    }
  }

  lemma ResultOk(st: Store, r: Result)
    requires StoreOk(st) && (r.Ok? ==> ValueOk(r.v, st))
    ensures OutcomeOk(OfResult(r, st), st)
  {
  }

  lemma {:induction false} ListOk(vs: seq<Value>, st: Store)
    requires forall i :: 0 <= i < |vs| ==> ValueOk(vs[i], st)
    ensures ValueOk(ListOf(vs), st)
  {
    if vs != [] {
      ListOk(vs[1..], st);
    }
  }

  lemma {:induction false} BindListOk(params: Value, args: Value, data: map<Symbol, Value>, st: Store)
    requires ValueOk(args, st) && DataOk(data, st)
    ensures DataOk(BindList(params, args, data), st)
    decreases params
  {
    if params.Pair? {
      if args.Pair? {
        BindListOk(params.cdr, args.cdr, data[NameOf(params.car) := args.car], st);
      } else {
        BindListOk(params.cdr, args, data[NameOf(params.car) := Nil], st);
      }
    }
  }

  lemma {:induction false} NeverMalformed(fuel: nat, e: Expr, st: Store, c: nat, depth: nat)
    requires WfExpr(e) && StoreOk(st) && c < |st|
    ensures OutcomeOk(Eval(fuel, e, st, c, depth), st)
    decreases fuel, e, 2
  {
    hide StoreOk, Grows, Assembles;
    GrowsRefl(st);
    match e
    case Lit(v) => PlainIsOk(v, st);
    case Quote(q) => PlainIsOk(q, st);
    case Var(x) => LookupOk(st, c, x);
    case Do(body) => DoNeverMalformed(fuel, body, st, c, depth);
    case Let(body) =>
      var scope := Scope(Some(c), map[], None);
      AddScopeOk(st, scope);
      DoNeverMalformed(fuel, body, st + [scope], |st|, depth);
      OutcomeGrows(EvalDo(fuel, body, st + [scope], |st|, depth), st, st + [scope]);
    case Def(x, v) =>
      NeverMalformed(fuel, v, st, c, depth);
      var o := Eval(fuel, v, st, c, depth);
      if o.Val? {
        GrowsSize(st, o.st);
        BindOk(o.st, c, x, o.v);
        GrowsTrans(st, o.st, Bind(o.st, c, x, o.v));
      }
    case Set(x, v) =>
      NeverMalformed(fuel, v, st, c, depth);
      var o := Eval(fuel, v, st, c, depth);
      if o.Val? && Binder(o.st, c, x).Some? {
        var b := Binder(o.st, c, x).value;
        BindOk(o.st, b, x, o.v);
        GrowsTrans(st, o.st, Bind(o.st, b, x, o.v));
      }
    case If(cond, t, f) =>
      NeverMalformed(fuel, cond, st, c, depth);
      var o := Eval(fuel, cond, st, c, depth);
      if o.Val? {
        GrowsSize(st, o.st);
        var br := if Truthy(o.v) then t else f;
        NeverMalformed(fuel, br, o.st, c, depth);
        OutcomeGrows(Eval(fuel, br, o.st, c, depth), st, o.st);
      }
    case While(_, _) => LoopNeverMalformed(fuel, e, Nil, st, c, depth);
    case And(es) => AndNeverMalformed(fuel, es, st, c, depth);
    case Or(es) => OrNeverMalformed(fuel, es, st, c, depth);
    case Fn(params, meta, code) =>
      var scope := Scope(Some(c), map[], Some(Procedure(params, code)));
      AddScopeOk(st, scope);
    case Return(v) => NeverMalformed(fuel, v, st, c, depth);
    case Prim1(op, a) =>
      NeverMalformed(fuel, a, st, c, depth);
      var o := Eval(fuel, a, st, c, depth);
      if o.Val? {
        Apply1Ok(op, o.v, o.st);
        ResultOk(o.st, Apply1(op, o.v));
        OutcomeGrows(OfResult(Apply1(op, o.v), o.st), st, o.st);
      }
    case Prim2(op, a, b) => Prim2NeverMalformed(fuel, e, st, c, depth);
    case MakeList(es) =>
      ArgsNeverMalformed(fuel, es, st, c, depth);
      var os := EvalArgs(fuel, es, st, c, depth);
      if os.Vals? {
        ListOk(os.vs, os.st);
      }
    case Call(_, _) => CallNeverMalformed(fuel, e, st, c, depth);
    case Apply(_, _) => CallNeverMalformed(fuel, e, st, c, depth);
  }

  lemma GrowsRefl(st: Store)
    ensures Grows(st, st)
  {
  }

  lemma GrowsSize(st: Store, st': Store)
    requires Grows(st, st')
    ensures |st| <= |st'|
  {
  }

  lemma {:induction false} Prim2NeverMalformed(fuel: nat, e: Expr, st: Store, c: nat, depth: nat)
    requires e.Prim2? && WfExpr(e) && StoreOk(st) && c < |st|
    ensures OutcomeOk(Eval(fuel, e, st, c, depth), st)
    decreases fuel, e, 1
  {
    hide StoreOk, Grows;
    NeverMalformed(fuel, e.left, st, c, depth);
    var o := Eval(fuel, e.left, st, c, depth);
    if o.Val? {
      GrowsSize(st, o.st);
      NeverMalformed(fuel, e.right, o.st, c, depth + 1);
      var o2 := Eval(fuel, e.right, o.st, c, depth + 1);
      if o2.Val? {
        ValueOkGrows(o.v, o.st, o2.st);
        ResultOk(o2.st, Apply2(e.op2, o.v, o2.v));
        OutcomeGrows(OfResult(Apply2(e.op2, o.v, o2.v), o2.st), o.st, o2.st);
      }
      OutcomeGrows(PrimWith(fuel, e, o.v, o.st, c, depth), st, o.st);
    }
  }

  lemma {:induction false} DoNeverMalformed(fuel: nat, es: Exprs, st: Store, c: nat, depth: nat)
    requires es.More? && WfExprs(es) && StoreOk(st) && c < |st|
    ensures OutcomeOk(EvalDo(fuel, es, st, c, depth), st)
    decreases fuel, es, 0
  {
    hide StoreOk, Grows;
    NeverMalformed(fuel, es.head, st, c, depth);
    var o := Eval(fuel, es.head, st, c, depth);
    if es.tail.More? && o.Val? {
      GrowsSize(st, o.st);
      DoNeverMalformed(fuel, es.tail, o.st, c, depth);
      OutcomeGrows(EvalDo(fuel, es.tail, o.st, c, depth), st, o.st);
    }
  }

  lemma {:induction false} LoopNeverMalformed(fuel: nat, e: Expr, last: Value, st: Store, c: nat, depth: nat)
    requires e.While? && WfExpr(e) && StoreOk(st) && c < |st| && ValueOk(last, st)
    ensures OutcomeOk(EvalWhile(fuel, e, last, st, c, depth), st)
    decreases fuel, e, 1
  {
    hide StoreOk, Grows;
    NeverMalformed(fuel, e.test, st, c, depth + 1);
    var o := Eval(fuel, e.test, st, c, depth + 1);
    if o.Val? {
      GrowsSize(st, o.st);
      ValueOkGrows(last, st, o.st);
      if Truthy(o.v) && fuel > 0 {
        DoNeverMalformed(fuel, e.loop, o.st, c, depth);
        var o2 := EvalDo(fuel, e.loop, o.st, c, depth);
        if o2.Val? {
          GrowsSize(o.st, o2.st);
          LoopNeverMalformed(fuel - 1, e, o2.v, o2.st, c, depth);
          OutcomeGrows(EvalWhile(fuel - 1, e, o2.v, o2.st, c, depth), o.st, o2.st);
        }
        OutcomeGrows(Iterate(fuel, e, o.st, c, depth), st, o.st);
      }
    }
  }

  lemma {:induction false} AndNeverMalformed(fuel: nat, es: Exprs, st: Store, c: nat, depth: nat)
    requires WfExprs(es) && StoreOk(st) && c < |st|
    ensures OutcomeOk(EvalAnd(fuel, es, st, c, depth), st)
    decreases fuel, es, 0
  {
    hide StoreOk, Grows;
    GrowsRefl(st);
    if es.More? {
      NeverMalformed(fuel, es.head, st, c, depth);
      var o := Eval(fuel, es.head, st, c, depth);
      if es.tail.More? && o.Val? {
        GrowsSize(st, o.st);
        AndNeverMalformed(fuel, es.tail, o.st, c, depth);
        OutcomeGrows(EvalAnd(fuel, es.tail, o.st, c, depth), st, o.st);
      }
    }
  }

  lemma {:induction false} OrNeverMalformed(fuel: nat, es: Exprs, st: Store, c: nat, depth: nat)
    requires WfExprs(es) && StoreOk(st) && c < |st|
    ensures OutcomeOk(EvalOr(fuel, es, st, c, depth), st)
    decreases fuel, es, 0
  {
    hide StoreOk, Grows;
    GrowsRefl(st);
    if es.More? {
      NeverMalformed(fuel, es.head, st, c, depth);
      var o := Eval(fuel, es.head, st, c, depth);
      if o.Val? {
        GrowsSize(st, o.st);
        OrNeverMalformed(fuel, es.tail, o.st, c, depth);
        OutcomeGrows(EvalOr(fuel, es.tail, o.st, c, depth), st, o.st);
      }
    }
  }

  ghost predicate OutcomesOk(os: Outcomes, st: Store) {
    match os
    case Vals(vs, st') =>
      StoreOk(st') && Grows(st, st') && forall i :: 0 <= i < |vs| ==> ValueOk(vs[i], st')
    case Stop(o) => OutcomeOk(o, st)
  }

  lemma {:induction false} ArgsNeverMalformed(fuel: nat, es: Exprs, st: Store, c: nat, depth: nat)
    requires WfExprs(es) && StoreOk(st) && c < |st|
    ensures OutcomesOk(EvalArgs(fuel, es, st, c, depth), st)
    decreases fuel, es, 0
  {
    hide StoreOk, Grows;
    GrowsRefl(st);
    if es.More? {
      NeverMalformed(fuel, es.head, st, c, depth);
      var o := Eval(fuel, es.head, st, c, depth);
      if o.Val? {
        GrowsSize(st, o.st);
        ArgsNeverMalformed(fuel, es.tail, o.st, c, depth + 1);
        var os := EvalArgs(fuel, es.tail, o.st, c, depth + 1);
        if os.Vals? {
          ValueOkGrows(o.v, o.st, os.st);
          GrowsTrans(st, o.st, os.st);
        } else {
          OutcomeGrows(os.o, st, o.st);
        }
      }
    }
  }

  lemma {:induction false} CallNeverMalformed(fuel: nat, e: Expr, st: Store, c: nat, depth: nat)
    requires (e.Call? || e.Apply?) && WfExpr(e) && StoreOk(st) && c < |st|
    ensures OutcomeOk(Eval(fuel, e, st, c, depth), st)
    decreases fuel, e, 1
  {
    hide StoreOk, Grows;
    var f := if e.Call? then e.fun else e.callee;
    NeverMalformed(fuel, f, st, c, depth);
    var o := Eval(fuel, f, st, c, depth);
    if o.Val? {
      GrowsSize(st, o.st);
      if e.Call? {
        ArgsNeverMalformed(fuel, e.args, o.st, c, depth + 1);
        var os := EvalArgs(fuel, e.args, o.st, c, depth + 1);
        if os.Vals? {
          ValueOkGrows(o.v, o.st, os.st);
          ListOk(os.vs, os.st);
          ApplyNeverMalformed(fuel, e, o.v, ListOf(os.vs), os.st, depth);
          OutcomeGrows(EvalApply(fuel, e, o.v, ListOf(os.vs), os.st, depth), o.st, os.st);
        }
        OutcomeGrows(CallWith(fuel, e, o.v, o.st, c, depth), st, o.st);
      } else {
        NeverMalformed(fuel, e.arglist, o.st, c, depth + 1);
        var o2 := Eval(fuel, e.arglist, o.st, c, depth + 1);
        if o2.Val? {
          ValueOkGrows(o.v, o.st, o2.st);
          ApplyNeverMalformed(fuel, e, o.v, o2.v, o2.st, depth);
          OutcomeGrows(EvalApply(fuel, e, o.v, o2.v, o2.st, depth), o.st, o2.st);
        }
        OutcomeGrows(ApplyWith(fuel, e, o.v, o.st, c, depth), st, o.st);
      }
    }
  }

  lemma {:induction false} ApplyNeverMalformed(fuel: nat, e: Expr, fv: Value, args: Value, st: Store, depth: nat)
    requires StoreOk(st) && ValueOk(fv, st) && ValueOk(args, st)
    ensures OutcomeOk(EvalApply(fuel, e, fv, args, st, depth), st)
    decreases fuel, e, 0
  {
    GrowsRefl(st);
    if fv.Lambda? && fuel > 0 && depth <= MAX_SP {
      var p := st[fv.id].fn.value;
      var frame := Scope(Some(fv.id), BindList(p.params, args, map[]), None);
      BindListOk(p.params, args, map[], st);
      AddScopeOk(st, frame);
      NeverMalformed(fuel - 1, p.code, st + [frame], |st|, depth);
      OutcomeGrows(Eval(fuel - 1, p.code, st + [frame], |st|, depth), st, st + [frame]);
    }
  }

  // ---- whole programs

  // lBytecodeEval: an empty value stack above its dummy slot, and the calling
  // closure at the bottom of the closure stack.
  function Load(t: Text, heap: seq<Closure>, c: nat): Vm {
    Vm(Running, t, 0, [Nil], heap, [c], c)
  }

  ghost predicate Runnable(e: Expr, st: Store, heap: seq<Closure>, c: nat) {
    && WfExpr(e) && Assembles(CompileForm(e))
    && Rel(st, heap) && StoreOk(st)
    && c < |st| && st[c].fn.None? && heap[c].kind != TryScope
  }

  // What a run of n steps must show for each evaluator outcome.
  ghost predicate Realizes(o: Outcome, fuel: nat, n: nat, m': Vm) {
    match o
    case Val(v, st') => m'.mode == Halted(v, false) && Rel(st', m'.heap)
    case Ret(v, st') => m'.mode == Halted(v, false) && Rel(st', m'.heap)
    case Raise(t, st') => m'.mode == Halted(HandlerArgument(m', t), true) && Rel(st', m'.heap)
    case Timeout => m'.mode.Running? && n >= fuel
    case Unsupported => m'.mode.Stuck?
    case TooDeep => true
    case Malformed => false
  }

  lemma {:induction false} NoFrameBelow(heap: seq<Closure>, cs: seq<nat>, k: nat)
    requires k < |cs|
    requires forall i :: 0 < i < |cs| ==> cs[i] < |heap| && heap[cs[i]].kind == LetScope
    ensures FrameIndex(heap, cs, k) == 0
  {
    if k > 0 {
      NoFrameBelow(heap, cs, k - 1);
    }
  }

  lemma {:induction false} NoTryBelow(heap: seq<Closure>, cs: seq<nat>, k: nat)
    requires k < |cs|
    requires forall i :: 0 <= i < |cs| ==> cs[i] < |heap| && heap[cs[i]].kind != TryScope
    ensures TryIndex(heap, cs, k) == 0
  {
    if k > 0 {
      NoTryBelow(heap, cs, k - 1);
    }
  }

  // Correctness of the whole pipeline: compile, assemble, load, run.  A value or
  // early return halts with that value, an exception halts with an exception,
  // the final scopes agree, and exhausted fuel means the VM is still running.
  lemma ProgramIsCorrect(fuel: nat, e: Expr, st: Store, heap: seq<Closure>, c: nat) returns (n: nat)
    requires Runnable(e, st, heap, c)
    ensures Realizes(Eval(fuel, e, st, c, 0), fuel, n, Run(n, Load(FnText(e), heap, c)))
  {
    hide At, After, Compile, CompileForm, Eval, Step, Rel, Assembles, Matches, Above, StoreOk, WfExpr, FnText;
    var m := Load(FnText(e), heap, c);
    var labels := ProcedurePlaced(e);
    LoadReady(e, st, heap, c);
    var m1;
    n, m1 := Sim(fuel, e, st, m, labels, 0);
    NeverMalformed(fuel, e, st, c, 0);
    n := Finish(Eval(fuel, e, st, c, 0), fuel, st, n, m, m1, AfterCode(m, Compile(e, 0).code), labels);
  }

  lemma LoadReady(e: Expr, st: Store, heap: seq<Closure>, c: nat)
    requires Runnable(e, st, heap, c)
    ensures Ready(st, Load(FnText(e), heap, c)) && c < |heap| && heap[c].kind != TryScope
  {
  }

  // The final $ret, or the unwinding of an uncaught exception.
  lemma Finish(o: Outcome, fuel: nat, st: Store, n: nat, m: Vm, m1: Vm, q: nat, labels: map<nat, nat>) returns (n': nat)
    requires Ready(st, m) && |m.cs| == 1 && m.stack != [] && m.c < |m.heap| && m.heap[m.c].kind != TryScope
    requires Matches(o, fuel, st, n, m, m1, q) && m1 == Run(n, m) && OutcomeOk(o, st)
    requires At(m.text, labels, Emit1(OP_RET), q)
    ensures Realizes(o, fuel, n', Run(n', m))
  {
    hide At, After, Step, Rel, StoreOk, Grows;
    n' := n;
    match o
    case Val(v, st') =>
      ValFacts(o, fuel, st, n, m, m1, q);
      OpAt(m.text, labels, OP_RET, q);
      n' := HaltsAtRet(v, n, m, m1);
    case Ret(v, st') =>
      RetFacts(o, fuel, st, n, m, m1, q);
      n' := HaltsAtRet(v, n, m, m1);
    case Raise(t, st') =>
      n' := HaltsAtThrow(t, n, m, m1);
    case _ =>
  }

  lemma HaltsAtRet(v: Value, n: nat, m: Vm, m1: Vm) returns (n': nat)
    requires m1 == Run(n, m) && m1.mode.Running? && |m.cs| == 1 && Above(m, m1, {LetScope})
    requires m1.stack != [] && Top(m1) == v && 0 <= m1.ip < |m1.text.data| && m1.text.data[m1.ip] == OP_RET
    ensures Run(n', m).mode == Halted(v, false) && Run(n', m).heap == m1.heap
  {
    hide Step, Frame, DoRet;
    var m2;
    n', m2 := OneMore(n, m, m1);
    StepRet(m1);
    BottomRet(m1.(ip := m1.ip + 1));
  }

  lemma BottomRet(m: Vm)
    requires m.stack != [] && m.cs != []
    requires forall i :: 0 < i < |m.cs| ==> m.cs[i] < |m.heap| && m.heap[m.cs[i]].kind == LetScope
    ensures DoRet(m) == m.(mode := Halted(Top(m), false))
  {
    NoFrameBelow(m.heap, m.cs, |m.cs| - 1);
  }

  lemma HaltsAtThrow(t: Thrown, n: nat, m: Vm, m1: Vm) returns (n': nat)
    requires m1 == Run(n, m) && m1.mode == Throwing(t) && |m.cs| == 1 && m.stack != []
    requires Above(m, m1, {LetScope, CallFrame}) && m.c < |m.heap| && m.heap[m.c].kind != TryScope
    ensures Run(n', m).mode == Halted(HandlerArgument(m1, t), true) && Run(n', m).heap == m1.heap && Run(n', m).cs == m1.cs
  {
    hide HandlerArgument;
    assert m1.cs[0] == m.c && SameKind(m.heap[m.c], m1.heap[m.c]);
    NoTryBelow(m1.heap, m1.cs, |m1.cs| - 1);
    var m2;
    n', m2 := OneMore(n, m, m1);
  }

  // Conversely, whatever a halting run ends with is what the evaluator says,
  // given fuel for that many steps.
  lemma HaltingIsExplained(n: nat, e: Expr, st: Store, heap: seq<Closure>, c: nat)
    requires Runnable(e, st, heap, c)
    requires Run(n, Load(FnText(e), heap, c)).mode.Halted?
    ensures var m' := Run(n, Load(FnText(e), heap, c));
            match Eval(n + 1, e, st, c, 0)
            case Val(v, st') => m'.mode == Halted(v, false) && Rel(st', m'.heap)
            case Ret(v, st') => m'.mode == Halted(v, false) && Rel(st', m'.heap)
            case Raise(t, st') => m'.mode == Halted(HandlerArgument(m', t), true) && Rel(st', m'.heap)
            case o => o == TooDeep
  {
    hide Step, Eval, Rel, Runnable;
    var m := Load(FnText(e), heap, c);
    var n' := ProgramIsCorrect(n + 1, e, st, heap, c);
    if n <= n' {
      RunAdd(n, n' - n, m);
      HaltedForever(n' - n, Run(n, m));
    } else {
      RunAdd(n', n - n', m);
      if Run(n', m).mode.Halted? || Run(n', m).mode.Stuck? {
        HaltedForever(n - n', Run(n', m));
      }
    }
  }

  ghost predicate Yields(o: Outcome, v: Value) {
    (o.Val? || o.Ret?) && o.v == v
  }

  // The VM halts normally with v exactly when the evaluator yields v, unless
  // calls nest past the 16-bit saved stack pointer.
  lemma HaltsIffEvaluates(v: Value, e: Expr, st: Store, heap: seq<Closure>, c: nat)
    requires Runnable(e, st, heap, c)
    requires forall fuel :: Eval(fuel, e, st, c, 0) != TooDeep
    ensures (exists n: nat :: Run(n, Load(FnText(e), heap, c)).mode == Halted(v, false)) <==>
            (exists fuel: nat :: Yields(Eval(fuel, e, st, c, 0), v))
  {
    hide Eval, Step, Rel, Runnable;
    var m := Load(FnText(e), heap, c);
    if n: nat :| Run(n, m).mode == Halted(v, false) {
      HaltingIsExplained(n, e, st, heap, c);
      assert Yields(Eval(n + 1, e, st, c, 0), v);
    }
    if fuel: nat :| Yields(Eval(fuel, e, st, c, 0), v) {
      var n := ProgramIsCorrect(fuel, e, st, heap, c);
      assert Run(n, m).mode == Halted(v, false);
    }
  }

  // A run ends only once.
  lemma HaltsOnce(a: nat, b: nat, m: Vm)
    requires Run(a, m).mode.Halted? && Run(b, m).mode.Halted?
    ensures Run(a, m) == Run(b, m)
  {
    hide Step;
    if a <= b {
      RunAdd(a, b - a, m);
      HaltedForever(b - a, Run(a, m));
    } else {
      RunAdd(b, a - b, m);
      HaltedForever(a - b, Run(b, m));
    }
  }

  // The VM halts with an exception exactly when the evaluator raises one, and
  // then with what a handler of that exception would have received: the thrown
  // value as a list, with the stack trace behind it where the VM adds one.
  lemma ThrowsIffEvaluates(e: Expr, st: Store, heap: seq<Closure>, c: nat)
    requires Runnable(e, st, heap, c)
    requires forall fuel :: Eval(fuel, e, st, c, 0) != TooDeep
    ensures (exists n: nat :: Excepts(Run(n, Load(FnText(e), heap, c)))) <==> (exists fuel: nat :: Eval(fuel, e, st, c, 0).Raise?)
    ensures forall n: nat, fuel: nat :: Run(n, Load(FnText(e), heap, c)).mode.Halted? && Eval(fuel, e, st, c, 0).Raise? ==>
              var m' := Run(n, Load(FnText(e), heap, c));
              m'.mode == Halted(HandlerArgument(m', Eval(fuel, e, st, c, 0).thrown), true)
  {
    hide Eval, Step, Rel, Runnable, HandlerArgument, Run, Load, FnText;
    var m := Load(FnText(e), heap, c);
    if n: nat :| Excepts(Run(n, m)) {
      HaltingIsExplained(n, e, st, heap, c);
      assert Eval(n + 1, e, st, c, 0).Raise?;
    }
    if fuel: nat :| Eval(fuel, e, st, c, 0).Raise? {
      var n := ProgramIsCorrect(fuel, e, st, heap, c);
      assert Excepts(Run(n, m));
    }
    forall n: nat, fuel: nat | Run(n, m).mode.Halted? && Eval(fuel, e, st, c, 0).Raise?
      ensures Run(n, m).mode == Halted(HandlerArgument(Run(n, m), Eval(fuel, e, st, c, 0).thrown), true)
    {
      var k := ProgramIsCorrect(fuel, e, st, heap, c);
      HaltsOnce(n, k, m);
    }
  }

  ghost predicate Excepts(m: Vm) { m.mode.Halted? && m.mode.isException }

  // ---- programs that cannot nest too deep

  // No procedure is called; procedures may still be made.
  predicate CallFree(e: Expr)
    decreases e, 0
  {
    match e
    case Do(body) => AllCallFree(body)
    case Let(body) => AllCallFree(body)
    case Def(_, v) => CallFree(v)
    case Set(_, v) => CallFree(v)
    case If(a, b, d) => CallFree(a) && CallFree(b) && CallFree(d)
    case While(t, body) => CallFree(t) && AllCallFree(body)
    case And(es) => AllCallFree(es)
    case Or(es) => AllCallFree(es)
    case Return(r) => CallFree(r)
    case Prim1(_, a) => CallFree(a)
    case Prim2(_, a, b) => CallFree(a) && CallFree(b)
    case MakeList(es) => AllCallFree(es)
    case Call(_, _) => false
    case Apply(_, _) => false
    case _ => true
  }

  predicate AllCallFree(es: Exprs)
    decreases es, 0
  {
    es.More? ==> CallFree(es.head) && AllCallFree(es.tail)
  }

  lemma {:induction false} NeverTooDeep(fuel: nat, e: Expr, st: Store, c: nat, depth: nat)
    requires CallFree(e)
    ensures Eval(fuel, e, st, c, depth) != TooDeep
    decreases fuel, e, 2
  {
    hide Lookup, Binder, CantResolve, CantSet, Apply1, Apply2;
    if c < |st| {
      match e
      case Do(body) => DoNeverTooDeep(fuel, body, st, c, depth);
      case Let(body) => DoNeverTooDeep(fuel, body, st + [Scope(Some(c), map[], None)], |st|, depth);
      case Def(_, v) => NeverTooDeep(fuel, v, st, c, depth);
      case Set(_, v) => NeverTooDeep(fuel, v, st, c, depth);
      case If(a, b, d) =>
        NeverTooDeep(fuel, a, st, c, depth);
        var o := Eval(fuel, a, st, c, depth);
        if o.Val? {
          NeverTooDeep(fuel, b, o.st, c, depth);
          NeverTooDeep(fuel, d, o.st, c, depth);
        }
      case While(_, _) => WhileNeverTooDeep(fuel, e, Nil, st, c, depth);
      case And(es) => LogicNeverTooDeep(fuel, es, st, c, depth);
      case Or(es) => LogicNeverTooDeep(fuel, es, st, c, depth);
      case Return(r) => NeverTooDeep(fuel, r, st, c, depth);
      case Prim1(_, a) => NeverTooDeep(fuel, a, st, c, depth);
      case Prim2(_, a, b) =>
        NeverTooDeep(fuel, a, st, c, depth);
        var o := Eval(fuel, a, st, c, depth);
        if o.Val? {
          NeverTooDeep(fuel, b, o.st, c, depth + 1);
        }
      case MakeList(es) => ArgsNeverTooDeep(fuel, es, st, c, depth);
      case _ =>
    }
  }

  lemma {:induction false} DoNeverTooDeep(fuel: nat, es: Exprs, st: Store, c: nat, depth: nat)
    requires AllCallFree(es)
    ensures EvalDo(fuel, es, st, c, depth) != TooDeep
    decreases fuel, es, 1
  {
    hide Eval;
    if es.More? {
      NeverTooDeep(fuel, es.head, st, c, depth);
      var o := Eval(fuel, es.head, st, c, depth);
      if o.Val? {
        DoNeverTooDeep(fuel, es.tail, o.st, c, depth);
      }
    }
  }

  lemma {:induction false} WhileNeverTooDeep(fuel: nat, e: Expr, last: Value, st: Store, c: nat, depth: nat)
    requires e.While? && CallFree(e)
    ensures EvalWhile(fuel, e, last, st, c, depth) != TooDeep
    decreases fuel, e, 1
  {
    hide Eval, EvalDo;
    NeverTooDeep(fuel, e.test, st, c, depth + 1);
    var o := Eval(fuel, e.test, st, c, depth + 1);
    if o.Val? && fuel > 0 {
      DoNeverTooDeep(fuel, e.loop, o.st, c, depth);
      var o1 := EvalDo(fuel, e.loop, o.st, c, depth);
      if o1.Val? {
        WhileNeverTooDeep(fuel - 1, e, o1.v, o1.st, c, depth);
      }
    }
  }

  lemma {:induction false} LogicNeverTooDeep(fuel: nat, es: Exprs, st: Store, c: nat, depth: nat)
    requires AllCallFree(es)
    ensures EvalAnd(fuel, es, st, c, depth) != TooDeep && EvalOr(fuel, es, st, c, depth) != TooDeep
    decreases fuel, es, 1
  {
    hide Eval;
    if es.More? {
      NeverTooDeep(fuel, es.head, st, c, depth);
      var o := Eval(fuel, es.head, st, c, depth);
      if o.Val? {
        LogicNeverTooDeep(fuel, es.tail, o.st, c, depth);
      }
    }
  }

  lemma {:induction false} ArgsNeverTooDeep(fuel: nat, es: Exprs, st: Store, c: nat, depth: nat)
    requires AllCallFree(es)
    ensures EvalArgs(fuel, es, st, c, depth) != Stop(TooDeep)
    decreases fuel, es, 1
  {
    hide Eval;
    if es.More? {
      NeverTooDeep(fuel, es.head, st, c, depth);
      var o := Eval(fuel, es.head, st, c, depth);
      if o.Val? {
        ArgsNeverTooDeep(fuel, es.tail, o.st, c, depth + 1);
      }
    }
  }

  // Without calls no side condition on the run remains.
  lemma CallFreeHaltsIff(v: Value, e: Expr, st: Store, heap: seq<Closure>, c: nat)
    requires Runnable(e, st, heap, c) && CallFree(e)
    ensures (exists n: nat :: Run(n, Load(FnText(e), heap, c)).mode == Halted(v, false)) <==>
            (exists fuel: nat :: Yields(Eval(fuel, e, st, c, 0), v))
  {
    hide Eval, Runnable, CallFree, Run;
    forall fuel: nat ensures Eval(fuel, e, st, c, 0) != TooDeep {
      NeverTooDeep(fuel, e, st, c, 0);
    }
    HaltsIffEvaluates(v, e, st, heap, c);
  }
}
