// What programs can rely on: equations between programs, and what numbers,
// comparisons, truth values and argument lists mean.  The evaluator and the VM
// share one table of primitives; here each entry is described by what it does
// to numbers, bits and lists, or by an equation with other primitives.
module Laws {
  import opened Values
  import opened Primitives
  import opened Source
  import Natives

  // Two expressions that behave alike everywhere: value, effects, exceptions
  // and termination.
  ghost predicate Same(e: Expr, e': Expr) {
    forall fuel: nat, st: Store, c: nat, depth: nat :: Eval(fuel, e, st, c, depth) == Eval(fuel, e', st, c, depth)
  }

  // e1 and then e2 are evaluated to a and b.
  ghost predicate Operands(fuel: nat, e1: Expr, e2: Expr, st: Store, c: nat, depth: nat, a: Value, b: Value, st2: Store) {
    var o := Eval(fuel, e1, st, c, depth);
    && c < |st|
    && o.Val? && o.v == a
    && Eval(fuel, e2, o.st, c, depth + 1) == Val(b, st2)
  }

  // ---- scopes only grow

  // Nothing that a scope binds is unbound again, and no scope changes its
  // parent or its procedure.
  ghost predicate Kept(st: Store, st': Store) {
    && |st| <= |st'|
    && (forall i :: 0 <= i < |st| ==> KeptScope(st[i], st'[i]))
  }

  ghost predicate KeptScope(k: Scope, k': Scope) {
    k'.parent == k.parent && k'.fn == k.fn && k.data.Keys <= k'.data.Keys
  }

  ghost predicate OutcomeKeeps(o: Outcome, st: Store) {
    match o
    case Val(_, st') => Kept(st, st')
    case Ret(_, st') => Kept(st, st')
    case Raise(_, st') => Kept(st, st')
    case _ => true
  }

  lemma KeptTrans(o: Outcome, st: Store, st1: Store)
    requires Kept(st, st1) && OutcomeKeeps(o, st1)
    ensures OutcomeKeeps(o, st)
  {
    if o.Val? || o.Ret? || o.Raise? {
      forall i | 0 <= i < |st| ensures KeptScope(st[i], o.st[i]) {
        assert KeptScope(st[i], st1[i]) && KeptScope(st1[i], o.st[i]);
      }
    }
  }

  lemma BindKeeps(st: Store, b: nat, s: Symbol, v: Value)
    requires b < |st|
    ensures Kept(st, Bind(st, b, s, v))
  {
  }

  lemma AddKeeps(st: Store, k: Scope)
    ensures Kept(st, st + [k])
  {
  }

  lemma KeptRefl(st: Store)
    ensures Kept(st, st)
  {
  }

  lemma {:induction false} EvalKeeps(fuel: nat, e: Expr, st: Store, c: nat, depth: nat)
    ensures OutcomeKeeps(Eval(fuel, e, st, c, depth), st)
    decreases fuel, e, 2
  {
    hide Kept, Apply1, Apply2, Truthy, ListOf, EvalDo, EvalWhile, EvalAnd, EvalOr, EvalArgs, EvalApply;
    KeptRefl(st);
    if c < |st| {
      match e
      case Lit(_) =>
      case Quote(_) =>
      case Var(_) =>
      case Do(body) => DoKeeps(fuel, body, st, c, depth);
      case Let(body) =>
        AddKeeps(st, Scope(Some(c), map[], None));
        DoKeeps(fuel, body, st + [Scope(Some(c), map[], None)], |st|, depth);
        KeptTrans(Eval(fuel, e, st, c, depth), st, st + [Scope(Some(c), map[], None)]);
      case Def(x, v) =>
        EvalKeeps(fuel, v, st, c, depth);
        var o := Eval(fuel, v, st, c, depth);
        if o.Val? && c < |o.st| {
          BindKeeps(o.st, c, x, o.v);
          KeptTrans(Eval(fuel, e, st, c, depth), st, o.st);
        }
      case Set(x, v) =>
        EvalKeeps(fuel, v, st, c, depth);
        var o := Eval(fuel, v, st, c, depth);
        if o.Val? && Binder(o.st, c, x).Some? {
          BindKeeps(o.st, Binder(o.st, c, x).value, x, o.v);
          KeptTrans(Eval(fuel, e, st, c, depth), st, o.st);
        }
      case If(t, a, b) =>
        EvalKeeps(fuel, t, st, c, depth);
        var o := Eval(fuel, t, st, c, depth);
        if o.Val? {
          EvalKeeps(fuel, if Truthy(o.v) then a else b, o.st, c, depth);
          KeptTrans(Eval(fuel, e, st, c, depth), st, o.st);
        }
      case While(_, _) => WhileKeeps(fuel, e, Nil, st, c, depth);
      case And(es) => AndKeeps(fuel, es, st, c, depth);
      case Or(es) => OrKeeps(fuel, es, st, c, depth);
      case Fn(params, _, code) => AddKeeps(st, Scope(Some(c), map[], Some(Procedure(params, code))));
      case Return(r) => EvalKeeps(fuel, r, st, c, depth);
      case Prim1(_, a) =>
        EvalKeeps(fuel, a, st, c, depth);
        var o := Eval(fuel, a, st, c, depth);
        if o.Val? {
          KeptRefl(o.st);
        }
      case Prim2(_, a, b) =>
        EvalKeeps(fuel, a, st, c, depth);
        var o := Eval(fuel, a, st, c, depth);
        if o.Val? {
          EvalKeeps(fuel, b, o.st, c, depth + 1);
          KeptTrans(Eval(fuel, e, st, c, depth), st, o.st);
        }
      case MakeList(es) => ArgsKeep(fuel, es, st, c, depth);
      case Call(_, _) => CallKeeps(fuel, e, st, c, depth);
      case Apply(_, _) => CallKeeps(fuel, e, st, c, depth);
    }
  }

  lemma {:induction false} CallKeeps(fuel: nat, e: Expr, st: Store, c: nat, depth: nat)
    requires e.Call? || e.Apply?
    ensures OutcomeKeeps(Eval(fuel, e, st, c, depth), st)
    decreases fuel, e, 1
  {
    hide Kept, Apply1, Apply2, Truthy, ListOf, EvalDo, EvalWhile, EvalAnd, EvalOr, EvalArgs, EvalApply;
    var f := if e.Call? then e.fun else e.callee;
    EvalKeeps(fuel, f, st, c, depth);
    var o := Eval(fuel, f, st, c, depth);
    if c < |st| && o.Val? {
      if e.Call? {
        ArgsKeep(fuel, e.args, o.st, c, depth + 1);
        var r := EvalArgs(fuel, e.args, o.st, c, depth + 1);
        if r.Vals? {
          ApplyKeeps(fuel, e, o.v, ListOf(r.vs), r.st, depth);
          KeptTrans(EvalApply(fuel, e, o.v, ListOf(r.vs), r.st, depth), o.st, r.st);
        }
      } else {
        EvalKeeps(fuel, e.arglist, o.st, c, depth + 1);
        var r := Eval(fuel, e.arglist, o.st, c, depth + 1);
        if r.Val? {
          ApplyKeeps(fuel, e, o.v, r.v, r.st, depth);
          KeptTrans(EvalApply(fuel, e, o.v, r.v, r.st, depth), o.st, r.st);
        }
      }
      KeptTrans(Eval(fuel, e, st, c, depth), st, o.st);
    }
  }

  lemma {:induction false} DoKeeps(fuel: nat, es: Exprs, st: Store, c: nat, depth: nat)
    ensures OutcomeKeeps(EvalDo(fuel, es, st, c, depth), st)
    decreases fuel, es, 0
  {
    hide Kept;
    if es.More? {
      EvalKeeps(fuel, es.head, st, c, depth);
      var o := Eval(fuel, es.head, st, c, depth);
      if es.tail.More? && o.Val? {
        DoKeeps(fuel, es.tail, o.st, c, depth);
        KeptTrans(EvalDo(fuel, es.tail, o.st, c, depth), st, o.st);
      }
    }
  }

  lemma {:induction false} WhileKeeps(fuel: nat, e: Expr, last: Value, st: Store, c: nat, depth: nat)
    requires e.While?
    ensures OutcomeKeeps(EvalWhile(fuel, e, last, st, c, depth), st)
    decreases fuel, e, 0
  {
    hide Kept;
    EvalKeeps(fuel, e.test, st, c, depth + 1);
    var o := Eval(fuel, e.test, st, c, depth + 1);
    if o.Val? && Truthy(o.v) && fuel > 0 {
      DoKeeps(fuel, e.loop, o.st, c, depth);
      var r := EvalDo(fuel, e.loop, o.st, c, depth);
      if r.Val? {
        WhileKeeps(fuel - 1, e, r.v, r.st, c, depth);
        KeptTrans(EvalWhile(fuel - 1, e, r.v, r.st, c, depth), o.st, r.st);
      }
      KeptTrans(EvalWhile(fuel, e, last, st, c, depth), st, o.st);
    }
  }

  lemma {:induction false} AndKeeps(fuel: nat, es: Exprs, st: Store, c: nat, depth: nat)
    ensures OutcomeKeeps(EvalAnd(fuel, es, st, c, depth), st)
    decreases fuel, es, 0
  {
    hide Kept;
    KeptRefl(st);
    if es.More? {
      EvalKeeps(fuel, es.head, st, c, depth);
      var o := Eval(fuel, es.head, st, c, depth);
      if es.tail.More? && o.Val? && Truthy(o.v) {
        AndKeeps(fuel, es.tail, o.st, c, depth);
        KeptTrans(EvalAnd(fuel, es.tail, o.st, c, depth), st, o.st);
      }
    }
  }

  lemma {:induction false} OrKeeps(fuel: nat, es: Exprs, st: Store, c: nat, depth: nat)
    ensures OutcomeKeeps(EvalOr(fuel, es, st, c, depth), st)
    decreases fuel, es, 0
  {
    hide Kept;
    KeptRefl(st);
    if es.More? {
      EvalKeeps(fuel, es.head, st, c, depth);
      var o := Eval(fuel, es.head, st, c, depth);
      if o.Val? && !Truthy(o.v) {
        OrKeeps(fuel, es.tail, o.st, c, depth);
        KeptTrans(EvalOr(fuel, es.tail, o.st, c, depth), st, o.st);
      }
    }
  }

  lemma {:induction false} ArgsKeep(fuel: nat, es: Exprs, st: Store, c: nat, depth: nat)
    ensures match EvalArgs(fuel, es, st, c, depth) case Vals(_, st') => Kept(st, st') case Stop(o) => OutcomeKeeps(o, st)
    decreases fuel, es, 0
  {
    hide Kept;
    KeptRefl(st);
    if es.More? {
      EvalKeeps(fuel, es.head, st, c, depth);
      var o := Eval(fuel, es.head, st, c, depth);
      if o.Val? {
        ArgsKeep(fuel, es.tail, o.st, c, depth + 1);
        var r := EvalArgs(fuel, es.tail, o.st, c, depth + 1);
        KeptTrans(if r.Vals? then Val(o.v, r.st) else r.o, st, o.st);
      }
    }
  }

  lemma {:induction false} ApplyKeeps(fuel: nat, e: Expr, fv: Value, args: Value, st: Store, depth: nat)
    ensures OutcomeKeeps(EvalApply(fuel, e, fv, args, st, depth), st)
    decreases fuel, e, 0
  {
    hide Kept;
    KeptRefl(st);
    if fv.Lambda? && fv.id < |st| && st[fv.id].fn.Some? && depth <= MAX_SP && fuel > 0 {
      var fn := st[fv.id].fn.value;
      var frame := Scope(Some(fv.id), BindList(fn.params, args, map[]), None);
      AddKeeps(st, frame);
      EvalKeeps(fuel - 1, fn.code, st + [frame], |st|, depth);
      KeptTrans(Eval(fuel - 1, fn.code, st + [frame], |st|, depth), st, st + [frame]);
    }
  }

  lemma KeptSize(st: Store, st': Store)
    requires Kept(st, st')
    ensures |st| <= |st'|
  {
  }

  // ---- single forms

  lemma LitHere(fuel: nat, v: Value, st: Store, c: nat, depth: nat)
    requires c < |st|
    ensures Eval(fuel, Lit(v), st, c, depth) == Val(v, st)
  {
  }

  lemma Prim1Here(fuel: nat, op: Op1, e: Expr, st: Store, c: nat, depth: nat)
    requires c < |st|
    ensures var o := Eval(fuel, e, st, c, depth);
            Eval(fuel, Prim1(op, e), st, c, depth) == if o.Val? then OfResult(Apply1(op, o.v), o.st) else o
  {
    hide Apply1, Apply2, Truthy, ListOf, EvalDo, EvalWhile, EvalAnd, EvalOr, EvalArgs, EvalApply;
  }

  lemma Prim2Here(fuel: nat, op: Op2, e1: Expr, e2: Expr, st: Store, c: nat, depth: nat)
    requires c < |st|
    ensures Eval(fuel, Prim2(op, e1, e2), st, c, depth) == WithSecond(fuel, op, Eval(fuel, e1, st, c, depth), e2, c, depth)
  {
    hide Apply1, Apply2, Truthy, ListOf, EvalDo, EvalWhile, EvalAnd, EvalOr, EvalArgs, EvalApply;
  }

  function WithSecond(fuel: nat, op: Op2, o: Outcome, e2: Expr, c: nat, depth: nat): Outcome {
    if !o.Val? then o
    else
      var o2 := Eval(fuel, e2, o.st, c, depth + 1);
      if o2.Val? then OfResult(Apply2(op, o.v, o2.v), o2.st) else o2
  }

  lemma SameHere(fuel: nat, e: Expr, e': Expr, st: Store, c: nat, depth: nat)
    requires Same(e, e')
    ensures Eval(fuel, e, st, c, depth) == Eval(fuel, e', st, c, depth)
  {
    hide Eval;
  }

  lemma ListsHere(fuel: nat, es: Exprs, st: Store, c: nat, depth: nat)
    requires c < |st|
    ensures var r := EvalArgs(fuel, es, st, c, depth);
            Eval(fuel, MakeList(es), st, c, depth) == if r.Vals? then Val(ListOf(r.vs), r.st) else r.o
  {
    hide ListOf;
  }

  // ---- pairs and lists

  // car and cdr take apart what cons put together.
  lemma ConsTakenApart(fuel: nat, e1: Expr, e2: Expr, st: Store, c: nat, depth: nat, a: Value, b: Value, st2: Store)
    requires Operands(fuel, e1, e2, st, c, depth, a, b, st2)
    ensures Eval(fuel, Prim1(CarOp, Prim2(Op2.Cons, e1, e2)), st, c, depth) == Val(a, st2)
    ensures Eval(fuel, Prim1(CdrOp, Prim2(Op2.Cons, e1, e2)), st, c, depth) == Val(b, st2)
  {
  }

  // Of anything but a pair they give #nil.
  lemma AtomHasNoParts(v: Value)
    requires !v.Pair?
    ensures Same(Prim1(CarOp, Lit(v)), Lit(Nil)) && Same(Prim1(CdrOp, Lit(v)), Lit(Nil))
  {
  }

  lemma CadrIsCarOfCdr(e: Expr)
    ensures Same(Prim1(CadrOp, e), Prim1(CarOp, Prim1(CdrOp, e)))
  {
  }

  // (list e es ...) is (cons e (list es ...)), and (list) is #nil.
  lemma ListIsConses(e: Expr, es: Exprs)
    ensures Same(MakeList(More(e, es)), Prim2(Op2.Cons, e, MakeList(es)))
    ensures Same(MakeList(End), Lit(Nil))
  {
    forall fuel: nat, st: Store, c: nat, depth: nat
      ensures Eval(fuel, MakeList(More(e, es)), st, c, depth) == Eval(fuel, Prim2(Op2.Cons, e, MakeList(es)), st, c, depth)
    {
      ListHere(fuel, e, es, st, c, depth);
    }
  }

  lemma {:induction false} StopIsNoValue(fuel: nat, es: Exprs, st: Store, c: nat, depth: nat)
    ensures var r := EvalArgs(fuel, es, st, c, depth); r.Stop? ==> !r.o.Val?
    decreases es
  {
    if es.More? && Eval(fuel, es.head, st, c, depth).Val? {
      StopIsNoValue(fuel, es.tail, Eval(fuel, es.head, st, c, depth).st, c, depth + 1);
    }
  }

  lemma ConsResult(a: Value, b: Value)
    ensures Apply2(Op2.Cons, a, b) == Ok(Pair(a, b))
  {
  }

  lemma OutOfScope(fuel: nat, e: Expr, st: Store, c: nat, depth: nat)
    requires c >= |st|
    ensures Eval(fuel, e, st, c, depth) == Malformed
  {
  }

  lemma ListHere(fuel: nat, e: Expr, es: Exprs, st: Store, c: nat, depth: nat)
    ensures Eval(fuel, MakeList(More(e, es)), st, c, depth) == Eval(fuel, Prim2(Op2.Cons, e, MakeList(es)), st, c, depth)
  {
    hide Kept, Apply2, Eval;
    if c < |st| {
      ListsHere(fuel, More(e, es), st, c, depth);
      Prim2Here(fuel, Op2.Cons, e, MakeList(es), st, c, depth);
      var o := Eval(fuel, e, st, c, depth);
      if o.Val? {
        EvalKeeps(fuel, e, st, c, depth);
        KeptSize(st, o.st);
        ListsHere(fuel, es, o.st, c, depth + 1);
        StopIsNoValue(fuel, es, o.st, c, depth + 1);
        var r := EvalArgs(fuel, es, o.st, c, depth + 1);
        if r.Vals? {
          assert ([o.v] + r.vs)[1..] == r.vs;
          ConsResult(o.v, ListOf(r.vs));
        }
      }
    } else {
      OutOfScope(fuel, MakeList(More(e, es)), st, c, depth);
      OutOfScope(fuel, Prim2(Op2.Cons, e, MakeList(es)), st, c, depth);
    }
  }

  // ---- integers

  // The 64-bit number that differs from the exact result by a multiple of 2^64.
  ghost predicate Wraps(r: Result, exact: int) {
    r.Ok? && r.v.Int? && IsI64(r.v.i) && (exists k :: r.v.i == exact + Turns(k))
  }

  function Turns(k: int): int { k * TWO_64 }

  // Sums, differences and products of integers wrap around, and are exact when
  // they fit 64 bits: there is only one such number.
  lemma IntegersWrap(x: int, y: int)
    ensures Wraps(Apply2(Add, Int(x), Int(y)), x + y) && Wraps(Apply2(AddInt, Int(x), Int(y)), x + y)
    ensures Wraps(Apply2(Sub, Int(x), Int(y)), x - y) && Wraps(Apply2(Sub, Int(x), Nil), -x)
    ensures Wraps(Apply2(Mul, Int(x), Int(y)), x * y)
    ensures Wraps(Apply1(IncInt, Int(x)), x + 1)
  {
    WrapTurns(x + y);
    WrapTurns(x - y);
    WrapTurns(-x);
    WrapTurns(x * y);
    WrapTurns(x + 1);
  }

  lemma WrapTurns(n: int)
    ensures exists k :: Wrap64(n) == n + Turns(k)
  {
    var d := Wrap64(n) - n;
    assert d == d / TWO_64 * TWO_64;
    assert Wrap64(n) == n + Turns(d / TWO_64);
  }

  lemma WrapsOnce(r: Result, r': Result, exact: int)
    requires Wraps(r, exact) && Wraps(r', exact)
    ensures r == r'
    ensures IsI64(exact) ==> r == Ok(Int(exact))
  {
    var k :| r.v.i == exact + Turns(k);
    var k' :| r'.v.i == exact + Turns(k');
    if IsI64(exact) {
      assert k == 0;
    }
  }

  // A primitive on expressions with known values.
  lemma Reduce1(op: Op1, e: Expr, v: Value, w: Value)
    requires Same(e, Lit(v)) && Apply1(op, v) == Ok(w)
    ensures Same(Prim1(op, e), Lit(w))
  {
    forall fuel: nat, st: Store, c: nat, depth: nat
      ensures Eval(fuel, Prim1(op, e), st, c, depth) == Eval(fuel, Lit(w), st, c, depth)
    {
      hide Same, Apply1;
      if c < |st| {
        hide Eval;
        SameHere(fuel, e, Lit(v), st, c, depth);
        LitHere(fuel, v, st, c, depth);
        LitHere(fuel, w, st, c, depth);
        Prim1Here(fuel, op, e, st, c, depth);
      }
    }
  }

  lemma Reduce2(op: Op2, e1: Expr, v1: Value, e2: Expr, v2: Value, w: Value)
    requires Same(e1, Lit(v1)) && Same(e2, Lit(v2)) && Apply2(op, v1, v2) == Ok(w)
    ensures Same(Prim2(op, e1, e2), Lit(w))
  {
    forall fuel: nat, st: Store, c: nat, depth: nat
      ensures Eval(fuel, Prim2(op, e1, e2), st, c, depth) == Eval(fuel, Lit(w), st, c, depth)
    {
      hide Same, Apply2;
      if c < |st| {
        hide Eval;
        SameHere(fuel, e1, Lit(v1), st, c, depth);
        SameHere(fuel, e2, Lit(v2), st, c, depth + 1);
        LitHere(fuel, v1, st, c, depth);
        LitHere(fuel, v2, st, c, depth + 1);
        LitHere(fuel, w, st, c, depth);
        Prim2Here(fuel, op, e1, e2, st, c, depth);
      }
    }
  }

  // Subtraction takes back what addition added, even when the sum wrapped.
  lemma SubtractionUndoesAddition(x: int, y: int)
    requires IsI64(x)
    ensures Same(Prim2(Sub, Prim2(Add, Lit(Int(x)), Lit(Int(y))), Lit(Int(y))), Lit(Int(x)))
  {
    var s := Apply2(Add, Int(x), Int(y)).v.i;
    IntegersWrap(x, y);
    IntegersWrap(s, y);
    var r := Apply2(Sub, Int(s), Int(y));
    var k :| s == x + y + Turns(k);
    var j :| r.v.i == s - y + Turns(j);
    assert r.v.i == x + Turns(k + j);
    WrapsOnce(r, r, x);
    Reduce2(Add, Lit(Int(x)), Int(x), Lit(Int(y)), Int(y), Int(s));
    Reduce2(Sub, Prim2(Add, Lit(Int(x)), Lit(Int(y))), Int(s), Lit(Int(y)), Int(y), Int(x));
  }

  // (bit-not e) is -1 - e, and twice it is e.
  lemma BitNotLaws(x: int)
    requires IsI64(x)
    ensures Same(Prim1(NotOp, Lit(Int(x))), Prim2(Sub, Lit(Int(-1)), Lit(Int(x))))
    ensures Same(Prim1(NotOp, Prim1(NotOp, Lit(Int(x)))), Lit(Int(x)))
  {
    Reduce1(NotOp, Lit(Int(x)), Int(x), Int(-1 - x));
    Reduce1(NotOp, Prim1(NotOp, Lit(Int(x))), Int(-1 - x), Int(x));
    Reduce2(Sub, Lit(Int(-1)), Int(-1), Lit(Int(x)), Int(x), Int(-1 - x));
  }

  // (zero? e) is (= e 0), which is true of nothing else.
  lemma ZeroIsEqualZero(e: Expr)
    ensures Same(Prim1(ZeroP, e), Prim2(Eq, e, Lit(Int(0))))
  {
    forall fuel: nat, st: Store, c: nat, depth: nat
      ensures Eval(fuel, Prim1(ZeroP, e), st, c, depth) == Eval(fuel, Prim2(Eq, e, Lit(Int(0))), st, c, depth)
    {
      hide Kept, Apply1, Apply2;
      if c < |st| {
        hide Eval;
        EvalKeeps(fuel, e, st, c, depth);
        Prim1Here(fuel, ZeroP, e, st, c, depth);
        Prim2Here(fuel, Eq, e, Lit(Int(0)), st, c, depth);
        var o := Eval(fuel, e, st, c, depth);
        if o.Val? {
          KeptSize(st, o.st);
          LitHere(fuel, Int(0), o.st, c, depth + 1);
          ZeroResult(o.v);
        }
      }
    }
  }

  lemma ZeroResult(v: Value)
    ensures Apply1(ZeroP, v) == Apply2(Eq, v, Int(0))
  {
  }

  lemma ZeroOfValue(v: Value)
    ensures Same(Prim1(ZeroP, Lit(v)), Lit(Bool(v == Int(0))))
  {
    Reduce1(ZeroP, Lit(v), v, Bool(v == Int(0)));
  }

  // The increment of an integer adds one; anything else passes through.
  lemma IncrementLaws(v: Value)
    ensures v.Int? ==> Same(Prim1(IncInt, Lit(v)), Prim2(AddInt, Lit(v), Lit(Int(1))))
    ensures !v.Int? ==> Same(Prim1(IncInt, Lit(v)), Lit(v))
  {
    if v.Int? {
      var w := Apply2(AddInt, v, Int(1)).v;
      Reduce1(IncInt, Lit(v), v, w);
      Reduce2(AddInt, Lit(v), v, Lit(Int(1)), Int(1), w);
    } else {
      Reduce1(IncInt, Lit(v), v, v);
    }
  }

  // ---- operands that are missing or not numbers

  // An exception: a list of the kind, a message and the value at fault.
  ghost predicate Fails(r: Result, kind: Symbol, message: string, fault: Value) {
    && r.Err? && r.thrown.isException
    && r.thrown.value == ListOf([Kw(kind), Str(message), fault])
  }

  ghost predicate NotANumber(r: Result, fault: Value) {
    Fails(r, "type-error", "Can't calculate with non numeric types", fault)
  }

  ghost predicate TooFew(r: Result, fault: Value) {
    Fails(r, "arity-error", "This subroutine needs 2 arguments", fault)
  }

  lemma ThreeItems(a: Value, b: Value, c: Value)
    ensures ListOf([a, b, c]) == Pair(a, Pair(b, Pair(c, Nil)))
  {
    assert [a, b, c][1..] == [b, c] && [b, c][1..] == [c] && [c][1..] == [];
    assert ListOf([c]) == Pair(c, Nil);
    assert ListOf([b, c]) == Pair(b, Pair(c, Nil));
  }

  // Missing operands are #nil: (+) is 0, (*) is 1, (+ x) is x, (- x) is 0 - x,
  // and (-) and (* x) are arity errors.
  lemma MissingOperands(x: int)
    ensures Same(Prim2(Add, Lit(Nil), Lit(Nil)), Lit(Int(0))) && Same(Prim2(Mul, Lit(Nil), Lit(Nil)), Lit(Int(1)))
    ensures Same(Prim2(Add, Lit(Int(x)), Lit(Nil)), Lit(Int(x)))
    ensures Same(Prim2(Sub, Lit(Int(x)), Lit(Nil)), Prim2(Sub, Lit(Int(0)), Lit(Int(x))))
    ensures TooFew(Apply2(Sub, Nil, Nil), Nil) && TooFew(Apply2(Mul, Int(x), Nil), Int(x))
  {
    Reduce2(Add, Lit(Nil), Nil, Lit(Nil), Nil, Int(0));
    Reduce2(Mul, Lit(Nil), Nil, Lit(Nil), Nil, Int(1));
    Reduce2(Add, Lit(Int(x)), Int(x), Lit(Nil), Nil, Int(x));
    var w := Apply2(Sub, Int(x), Nil).v;
    Reduce2(Sub, Lit(Int(x)), Int(x), Lit(Nil), Nil, w);
    Reduce2(Sub, Lit(Int(0)), Int(0), Lit(Int(x)), Int(x), w);
    ThreeItems(Kw("arity-error"), Str("This subroutine needs 2 arguments"), Nil);
    ThreeItems(Kw("arity-error"), Str("This subroutine needs 2 arguments"), Int(x));
  }

  // What is not a number is a type error that names the second operand, even
  // when the first one is at fault.  A first operand of #nil is a missing one,
  // whatever the second is, to + and *.
  lemma OperandsThatAreNoNumbers(op: Op2, a: Value, b: Value)
    requires op in {AddInt, Add, Sub, Mul, Op2.And, Ior, Xor} && !(a.Int? && b.Int?)
    ensures a != Nil && b != Nil ==> NotANumber(Apply2(op, a, b), b)
    ensures op in {AddInt, Op2.And, Ior, Xor} ==> NotANumber(Apply2(op, a, b), b)
    ensures a == Nil ==> Apply2(Add, a, b) == Apply2(Add, Nil, Nil) && Apply2(Mul, a, b) == Apply2(Mul, Nil, Nil)
    ensures a == Nil ==> Apply2(Sub, a, b) == Apply2(Sub, Nil, Nil)
    ensures a != Nil && !a.Int? && b == Nil ==> NotANumber(Apply2(op, a, b), b)
    ensures !a.Int? ==> NotANumber(Apply1(NotOp, a), a)
  {
    ThreeItems(Kw("type-error"), Str("Can't calculate with non numeric types"), a);
    ThreeItems(Kw("type-error"), Str("Can't calculate with non numeric types"), b);
  }

  // throw raises the value of its operand, as an exception if it is a pair.
  lemma ThrowRaises(fuel: nat, e: Expr, st: Store, c: nat, depth: nat)
    requires c < |st| && Eval(fuel, e, st, c, depth).Val?
    ensures var o := Eval(fuel, e, st, c, depth);
            Eval(fuel, Prim1(ThrowOp, e), st, c, depth) == Raise(Thrown(o.v, exists a, d :: o.v == Pair(a, d)), o.st)
  {
    var o := Eval(fuel, e, st, c, depth);
    assert Eval(fuel, Prim1(ThrowOp, e), st, c, depth) == Raise(Thrown(o.v, o.v.Pair?), o.st);
    if o.v.Pair? {
      assert o.v == Pair(o.v.car, o.v.cdr);
    }
  }

  // ---- bits

  // Bit k of a two's complement number of any width.
  predicate Bit(k: nat, x: int) {
    if k == 0 then x % 2 == 1 else Bit(k - 1, x / 2)
  }

  lemma {:induction false} BitsOfAnd(k: nat, x: int, y: int)
    ensures Bit(k, BitAnd(x, y)) <==> Bit(k, x) && Bit(k, y)
    decreases k
  {
    AndHalves(x, y);
    if k > 0 {
      BitsOfAnd(k - 1, x / 2, y / 2);
    }
  }

  lemma LowBits(x: int, y: int)
    ensures x % 2 * (y % 2) == if x % 2 == 1 && y % 2 == 1 then 1 else 0
  {
  }

  lemma AndHalves(x: int, y: int)
    ensures BitAnd(x, y) / 2 == BitAnd(x / 2, y / 2)
    ensures BitAnd(x, y) % 2 == if x % 2 == 1 && y % 2 == 1 then 1 else 0
  {
    LowBits(x, y);
    if x == -1 {
      assert x / 2 == -1;
    } else if x != 0 && y != 0 {
      assert BitAnd(x, y) == 2 * BitAnd(x / 2, y / 2) + x % 2 * (y % 2);
    }
  }

  lemma {:induction false} BitsOfNot(k: nat, x: int)
    ensures Bit(k, BitNot(x)) <==> !Bit(k, x)
  {
    if k > 0 {
      assert BitNot(x) / 2 == BitNot(x / 2);
      BitsOfNot(k - 1, x / 2);
    }
  }

  lemma BitsOfOr(k: nat, x: int, y: int)
    ensures Bit(k, BitOr(x, y)) <==> Bit(k, x) || Bit(k, y)
  {
    BitsOfNot(k, x);
    BitsOfNot(k, y);
    BitsOfAnd(k, BitNot(x), BitNot(y));
    BitsOfNot(k, BitAnd(BitNot(x), BitNot(y)));
  }

  lemma OrHalves(x: int, y: int)
    ensures BitOr(x, y) / 2 == BitOr(x / 2, y / 2)
    ensures BitOr(x, y) % 2 == if x % 2 == 1 || y % 2 == 1 then 1 else 0
  {
    AndHalves(BitNot(x), BitNot(y));
    assert BitNot(x) / 2 == BitNot(x / 2) && BitNot(y) / 2 == BitNot(y / 2);
    assert BitNot(x) % 2 == 1 - x % 2 && BitNot(y) % 2 == 1 - y % 2;
  }

  lemma XorHalves(x: int, y: int)
    ensures BitXor(x, y) / 2 == BitXor(x / 2, y / 2)
    ensures BitXor(x, y) % 2 == if x % 2 != y % 2 then 1 else 0
  {
    hide BitAnd, BitOr;
    AndHalves(x, y);
    OrHalves(x, y);
  }

  lemma {:induction false} BitsOfXor(k: nat, x: int, y: int)
    ensures Bit(k, BitXor(x, y)) <==> Bit(k, x) != Bit(k, y)
    decreases k
  {
    hide BitXor;
    XorHalves(x, y);
    if k > 0 {
      BitsOfXor(k - 1, x / 2, y / 2);
    }
  }

  // Numbers with the same bits are equal.
  lemma {:induction false} BitsDetermine(x: int, y: int)
    requires forall k: nat :: Bit(k, x) == Bit(k, y)
    ensures x == y
    decreases if x < 0 then -x else x
  {
    assert Bit(0, x) == Bit(0, y);
    forall k: nat ensures Bit(k, x / 2) == Bit(k, y / 2) {
      assert Bit(k + 1, x) == Bit(k + 1, y);
    }
    if x != 0 && x != -1 {
      BitsDetermine(x / 2, y / 2);
    } else {
      SameSign(x, y);
    }
  }

  // A number all of whose bits are equal is 0 or -1.
  lemma {:induction false} SameSign(x: int, y: int)
    requires x == 0 || x == -1
    requires forall k: nat :: Bit(k, x) == Bit(k, y)
    ensures x == y
    decreases if y < 0 then -y else y
  {
    assert Bit(0, x) == Bit(0, y);
    assert x / 2 == x;
    if y != 0 && y != -1 {
      forall k: nat ensures Bit(k, x) == Bit(k, y / 2) {
        assert Bit(k + 1, x) == Bit(k + 1, y);
      }
      SameSign(x, y / 2);
    }
  }

  // The results of the bit operations, bit by bit.
  lemma BitwiseResults(x: int, y: int, k: nat)
    ensures var r := Apply2(Op2.And, Int(x), Int(y)); r.Ok? && r.v.Int? && (Bit(k, r.v.i) <==> Bit(k, x) && Bit(k, y))
    ensures var r := Apply2(Ior, Int(x), Int(y)); r.Ok? && r.v.Int? && (Bit(k, r.v.i) <==> Bit(k, x) || Bit(k, y))
    ensures var r := Apply2(Xor, Int(x), Int(y)); r.Ok? && r.v.Int? && (Bit(k, r.v.i) <==> Bit(k, x) != Bit(k, y))
    ensures var r := Apply1(NotOp, Int(x)); r.Ok? && r.v.Int? && (Bit(k, r.v.i) <==> !Bit(k, x))
  {
    BitsOfAnd(k, x, y);
    BitsOfOr(k, x, y);
    BitsOfXor(k, x, y);
    BitsOfNot(k, x);
  }

  // ---- conditions

  // What a condition does after its test.
  function Branch(o: Outcome, fuel: nat, a: Expr, b: Expr, c: nat, depth: nat): Outcome {
    if o.Val? then Eval(fuel, if Truthy(o.v) then a else b, o.st, c, depth) else o
  }

  lemma IfBranches(fuel: nat, e: Expr, a: Expr, b: Expr, st: Store, c: nat, depth: nat)
    ensures c < |st| ==> Eval(fuel, If(e, a, b), st, c, depth) == Branch(Eval(fuel, e, st, c, depth), fuel, a, b, c, depth)
  {
  }

  // ---- comparisons

  // < and > on 64-bit integers follow the order of the integers when their
  // difference fits 64 bits, and its reverse when it does not.
  lemma IntegersCompare(x: int, y: int)
    requires IsI64(x) && IsI64(y)
    ensures Apply2(Lt, Int(x), Int(y)) == Ok(Bool(if IsI64(x - y) then x < y else x > y))
    ensures Apply2(Gt, Int(x), Int(y)) == Ok(Bool(if IsI64(x - y) then x > y else x < y))
  {
    WrapBeyond(x - y);
  }

  // Strings, symbols and keywords compare by the first character in which they
  // differ; a proper prefix is greater than what it begins, and smaller.
  lemma TextsCompare(p: string, x: char, s: string, y: char, t: string)
    requires x != y
    ensures Apply2(Lt, Str(p + [x] + s), Str(p + [y] + t)) == Ok(Bool(x < y))
    ensures Apply2(Gt, Str(p + [x] + s), Str(p + [y] + t)) == Ok(Bool(x > y))
  {
    var a, b := p + [x] + s, p + [y] + t;
    CompareSkips(a, b, 0, |p|);
  }

  lemma {:induction false} CompareSkips(a: string, b: string, i: nat, n: nat)
    requires i <= n < |a| && n < |b| && a[..n] == b[..n]
    ensures CompareChars(a, b, i) == CompareChars(a, b, n)
    decreases n - i
  {
    if i < n {
      assert a[i] == a[..n][i] && b[i] == b[..n][i];
      CompareSkips(a, b, i + 1, n);
    }
  }

  lemma PrefixesCompare(a: string, b: string)
    requires a < b && |b| < 0x1_0000_0000
    ensures Apply2(Gt, Str(a), Str(b)) == Apply2(Gt, Str(b), Str(a)) == Ok(Bool(true))
    ensures Apply2(Lt, Str(a), Str(b)) == Apply2(Lt, Str(b), Str(a)) == Ok(Bool(false))
  {
    StringOrderIff(a, b);
  }

  // Symbols and keywords compare as their names; values of different types
  // are neither smaller nor greater than each other.
  lemma NamesCompare(op: Op2, a: string, b: string)
    requires op in {Lt, Le, Ge, Gt}
    ensures Apply2(op, Sym(a), Sym(b)) == Apply2(op, Kw(a), Kw(b)) == Apply2(op, Str(a), Str(b))
  {
  }

  lemma OtherTypesCompare(a: Value, b: Value)
    requires !(a.Int? && b.Int?) && !(a.Sym? && b.Sym?) && !(a.Kw? && b.Kw?) && !(a.Str? && b.Str?)
    ensures Apply2(Lt, a, b) == Apply2(Gt, a, b) == Ok(Bool(false))
  {
  }

  // >= is "not <", <= is "not >" and != is "not =", for all operands.
  lemma Complements(e1: Expr, e2: Expr)
    ensures Same(Prim2(Ge, e1, e2), Negated(Prim2(Lt, e1, e2)))
    ensures Same(Prim2(Le, e1, e2), Negated(Prim2(Gt, e1, e2)))
    ensures Same(Prim2(Ne, e1, e2), Negated(Prim2(Eq, e1, e2)))
  {
    forall fuel: nat, st: Store, c: nat, depth: nat, op: Op2 | op in {Ge, Le, Ne}
      ensures Eval(fuel, Prim2(op, e1, e2), st, c, depth) == Eval(fuel, Negated(Prim2(Opposite(op), e1, e2)), st, c, depth)
    {
      ComplementHere(fuel, op, e1, e2, st, c, depth);
    }
  }

  function Negated(e: Expr): Expr { If(e, Lit(Bool(false)), Lit(Bool(true))) }

  function Opposite(op: Op2): Op2 {
    if op == Ge then Lt else if op == Le then Gt else Eq
  }

  lemma ComplementHere(fuel: nat, op: Op2, e1: Expr, e2: Expr, st: Store, c: nat, depth: nat)
    requires op in {Ge, Le, Ne}
    ensures Eval(fuel, Prim2(op, e1, e2), st, c, depth) == Eval(fuel, Negated(Prim2(Opposite(op), e1, e2)), st, c, depth)
  {
    hide Kept, Apply2;
    if c < |st| {
      IfBranches(fuel, Prim2(Opposite(op), e1, e2), Lit(Bool(false)), Lit(Bool(true)), st, c, depth);
      EvalKeeps(fuel, e1, st, c, depth);
      var o := Eval(fuel, e1, st, c, depth);
      if o.Val? {
        KeptSize(st, o.st);
        EvalKeeps(fuel, e2, o.st, c, depth + 1);
        var o2 := Eval(fuel, e2, o.st, c, depth + 1);
        if o2.Val? {
          KeptSize(o.st, o2.st);
          NegatedResult(fuel, op, o.v, o2.v, o2.st, c, depth);
          assert Eval(fuel, Prim2(op, e1, e2), st, c, depth) == OfResult(Apply2(op, o.v, o2.v), o2.st);
          assert Eval(fuel, Prim2(Opposite(op), e1, e2), st, c, depth) == OfResult(Apply2(Opposite(op), o.v, o2.v), o2.st);
        } else {
          assert Eval(fuel, Prim2(op, e1, e2), st, c, depth) == o2;
          assert Eval(fuel, Prim2(Opposite(op), e1, e2), st, c, depth) == o2;
        }
      }
    }
  }

  lemma NegatedResult(fuel: nat, op: Op2, v: Value, w: Value, st: Store, c: nat, depth: nat)
    requires op in {Ge, Le, Ne} && c < |st|
    ensures OfResult(Apply2(op, v, w), st)
         == Branch(OfResult(Apply2(Opposite(op), v, w), st), fuel, Lit(Bool(false)), Lit(Bool(true)), c, depth)
  {
    hide Compare;
    assert Eval(fuel, Lit(Bool(true)), st, c, depth) == Val(Bool(true), st);
    assert Eval(fuel, Lit(Bool(false)), st, c, depth) == Val(Bool(false), st);
  }

  // = is equality, where it does not compare addresses.
  lemma EqualMeansEqual(a: Value, b: Value)
    requires !(a.Pair? && b.Pair?) && !(a.Bytecode? && b.Bytecode?)
    ensures Same(Prim2(Eq, Lit(a), Lit(b)), Lit(Bool(true))) <==> a == b
    ensures Same(Prim2(Eq, Lit(a), Lit(b)), Lit(Bool(false))) <==> a != b
  {
    Reduce2(Eq, Lit(a), a, Lit(b), b, Bool(a == b));
    OneValue(Prim2(Eq, Lit(a), Lit(b)), Bool(a == b), Bool(true));
    OneValue(Prim2(Eq, Lit(a), Lit(b)), Bool(a == b), Bool(false));
  }

  // An expression is at most one constant.
  lemma OneValue(e: Expr, v: Value, w: Value)
    requires Same(e, Lit(v))
    ensures Same(e, Lit(w)) <==> v == w
  {
    hide Eval, Same;
    var st := [Scope(None, map[], None)];
    LitHere(0, v, st, 0, 0);
    LitHere(0, w, st, 0, 0);
    SameHere(0, e, Lit(v), st, 0, 0);
    if Same(e, Lit(w)) {
      SameHere(0, e, Lit(w), st, 0, 0);
    }
  }

  // ---- truth

  // Only #nil and #f are false.
  lemma ConditionsBranch(v: Value, a: Expr, b: Expr)
    ensures Same(If(Lit(v), a, b), if v in {Nil, Bool(false)} then b else a)
  {
    var r := if v in {Nil, Bool(false)} then b else a;
    forall fuel: nat, st: Store, c: nat, depth: nat
      ensures Eval(fuel, If(Lit(v), a, b), st, c, depth) == Eval(fuel, r, st, c, depth)
    {
      if c < |st| {
        assert Eval(fuel, Lit(v), st, c, depth) == Val(v, st);
      }
    }
  }

  // As conditions, and and or are nested conditions.
  lemma ConditionsCombine(e1: Expr, e2: Expr, a: Expr, b: Expr)
    ensures Same(If(Expr.And(More(e1, More(e2, End))), a, b), If(e1, If(e2, a, b), b))
    ensures Same(If(Or(More(e1, More(e2, End))), a, b), If(e1, a, If(e2, a, b)))
  {
    forall fuel: nat, st: Store, c: nat, depth: nat
      ensures Eval(fuel, If(Expr.And(More(e1, More(e2, End))), a, b), st, c, depth) == Eval(fuel, If(e1, If(e2, a, b), b), st, c, depth)
      ensures Eval(fuel, If(Or(More(e1, More(e2, End))), a, b), st, c, depth) == Eval(fuel, If(e1, a, If(e2, a, b)), st, c, depth)
    {
      AndHere(fuel, e1, e2, a, b, st, c, depth);
      OrHere(fuel, e1, e2, a, b, st, c, depth);
    }
  }

  lemma AndHere(fuel: nat, e1: Expr, e2: Expr, a: Expr, b: Expr, st: Store, c: nat, depth: nat)
    ensures Eval(fuel, If(Expr.And(More(e1, More(e2, End))), a, b), st, c, depth) == Eval(fuel, If(e1, If(e2, a, b), b), st, c, depth)
  {
    hide Kept;
    var both := Expr.And(More(e1, More(e2, End)));
    if c < |st| {
      var o := Eval(fuel, e1, st, c, depth);
      IfBranches(fuel, both, a, b, st, c, depth);
      IfBranches(fuel, e1, If(e2, a, b), b, st, c, depth);
      assert EvalAnd(fuel, More(e1, More(e2, End)), st, c, depth)
          == if o.Val? && Truthy(o.v) then EvalAnd(fuel, More(e2, End), o.st, c, depth) else o;
      if o.Val? {
        EvalKeeps(fuel, e1, st, c, depth);
        KeptSize(st, o.st);
        IfBranches(fuel, e2, a, b, o.st, c, depth);
        assert EvalAnd(fuel, More(e2, End), o.st, c, depth) == Eval(fuel, e2, o.st, c, depth);
      }
    }
  }

  lemma OrHere(fuel: nat, e1: Expr, e2: Expr, a: Expr, b: Expr, st: Store, c: nat, depth: nat)
    ensures Eval(fuel, If(Or(More(e1, More(e2, End))), a, b), st, c, depth) == Eval(fuel, If(e1, a, If(e2, a, b)), st, c, depth)
  {
    hide Kept;
    var either := Or(More(e1, More(e2, End)));
    if c < |st| {
      var o := Eval(fuel, e1, st, c, depth);
      IfBranches(fuel, either, a, b, st, c, depth);
      IfBranches(fuel, e1, a, If(e2, a, b), st, c, depth);
      assert EvalOr(fuel, More(e1, More(e2, End)), st, c, depth)
          == if o.Val? && !Truthy(o.v) then EvalOr(fuel, More(e2, End), o.st, c, depth) else o;
      if o.Val? && !Truthy(o.v) {
        EvalKeeps(fuel, e1, st, c, depth);
        KeptSize(st, o.st);
        IfBranches(fuel, e2, a, b, o.st, c, depth);
        LastOr(fuel, e2, a, b, o.st, c, depth);
      }
    }
  }

  lemma LastOr(fuel: nat, e: Expr, a: Expr, b: Expr, st: Store, c: nat, depth: nat)
    requires c < |st|
    ensures Branch(EvalOr(fuel, More(e, End), st, c, depth), fuel, a, b, c, depth)
         == Branch(Eval(fuel, e, st, c, depth), fuel, a, b, c, depth)
  {
    var o := Eval(fuel, e, st, c, depth);
    if o.Val? {
      assert EvalOr(fuel, End, o.st, c, depth) == Val(Bool(false), o.st);
      assert EvalOr(fuel, More(e, End), st, c, depth) == if Truthy(o.v) then o else Val(Bool(false), o.st);
    }
  }

  // Their values: the last one evaluated, #nil for (and), #f for an or that
  // finds nothing true.
  lemma ConnectivesYield(e: Expr, es: Exprs, v: Value)
    ensures Same(Expr.And(End), Lit(Nil)) && Same(Or(End), Lit(Bool(false)))
    ensures Same(Expr.And(More(e, End)), e)
    ensures es.More? ==> Same(Expr.And(More(Lit(v), es)), if v in {Nil, Bool(false)} then Lit(v) else Expr.And(es))
    ensures Same(Or(More(Lit(v), es)), if v in {Nil, Bool(false)} then Or(es) else Lit(v))
  {
    EmptyConnectives(e);
    var andForm := if v in {Nil, Bool(false)} then Lit(v) else Expr.And(es);
    var orForm := if v in {Nil, Bool(false)} then Or(es) else Lit(v);
    hide Eval;
    forall fuel: nat, st: Store, c: nat, depth: nat
      ensures es.More? ==> Eval(fuel, Expr.And(More(Lit(v), es)), st, c, depth) == Eval(fuel, andForm, st, c, depth)
      ensures Eval(fuel, Or(More(Lit(v), es)), st, c, depth) == Eval(fuel, orForm, st, c, depth)
    {
      ConnectivesHere(fuel, v, es, st, c, depth);
    }
  }

  lemma EmptyConnectives(e: Expr)
    ensures Same(Expr.And(End), Lit(Nil)) && Same(Or(End), Lit(Bool(false)))
    ensures Same(Expr.And(More(e, End)), e)
  {
  }

  lemma ConnectivesHere(fuel: nat, v: Value, es: Exprs, st: Store, c: nat, depth: nat)
    ensures var andForm := if v in {Nil, Bool(false)} then Lit(v) else Expr.And(es);
            es.More? ==> Eval(fuel, Expr.And(More(Lit(v), es)), st, c, depth) == Eval(fuel, andForm, st, c, depth)
    ensures var andForm := if v in {Nil, Bool(false)} then Or(es) else Lit(v);
            Eval(fuel, Or(More(Lit(v), es)), st, c, depth) == Eval(fuel, andForm, st, c, depth)
  {
    if c < |st| {
      LitHere(fuel, v, st, c, depth);
    }
  }

  // ---- names and scopes

  // A definition or an assignment is what its name is bound to afterwards.
  lemma BoundAfterwards(x: Symbol, e: Expr)
    ensures Same(Do(More(Expr.Def(x, e), More(Var(x), End))), Expr.Def(x, e))
    ensures Same(Do(More(Expr.Set(x, e), More(Var(x), End))), Expr.Set(x, e))
  {
    forall fuel: nat, st: Store, c: nat, depth: nat
      ensures Eval(fuel, Do(More(Expr.Def(x, e), More(Var(x), End))), st, c, depth) == Eval(fuel, Expr.Def(x, e), st, c, depth)
      ensures Eval(fuel, Do(More(Expr.Set(x, e), More(Var(x), End))), st, c, depth) == Eval(fuel, Expr.Set(x, e), st, c, depth)
    {
      ThenVar(fuel, x, Expr.Def(x, e), st, c, depth);
      ThenVar(fuel, x, Expr.Set(x, e), st, c, depth);
    }
  }

  lemma ThenVar(fuel: nat, x: Symbol, e: Expr, st: Store, c: nat, depth: nat)
    requires (e.Def? && e.dx == x) || (e.Set? && e.sx == x)
    ensures Eval(fuel, Do(More(e, More(Var(x), End))), st, c, depth) == Eval(fuel, e, st, c, depth)
  {
    hide Kept;
    if c < |st| {
      var o := Eval(fuel, e, st, c, depth);
      DoTwo(fuel, e, Var(x), st, c, depth);
      if o.Val? {
        EvalKeeps(fuel, e, st, c, depth);
        KeptSize(st, o.st);
        var o1 := Eval(fuel, if e.Def? then e.dv else e.sv, st, c, depth);
        LookupBound(o1.st, c, x, o.v);
      }
    }
  }

  lemma DoTwo(fuel: nat, e1: Expr, e2: Expr, st: Store, c: nat, depth: nat)
    requires c < |st|
    ensures var o := Eval(fuel, e1, st, c, depth);
            Eval(fuel, Do(More(e1, More(e2, End))), st, c, depth) == if o.Val? then Eval(fuel, e2, o.st, c, depth) else o
  {
    var o := Eval(fuel, e1, st, c, depth);
    if o.Val? {
      assert EvalDo(fuel, More(e2, End), o.st, c, depth) == Eval(fuel, e2, o.st, c, depth);
    }
    assert EvalDo(fuel, More(e1, More(e2, End)), st, c, depth)
        == if o.Val? then EvalDo(fuel, More(e2, End), o.st, c, depth) else o;
  }

  lemma {:induction false} LookupBound(st: Store, c: nat, x: Symbol, v: Value)
    requires c < |st|
    ensures Lookup(Bind(st, c, x, v), c, x) == Some(v)
    ensures Binder(st, c, x).Some? ==> Lookup(Bind(st, Binder(st, c, x).value, x, v), c, x) == Some(v)
    decreases c
  {
    if x !in st[c].data && st[c].parent.Some? && st[c].parent.value < c {
      LookupBound(st, st[c].parent.value, x, v);
    }
  }

  // An inner scope sees what the outer one sees.
  lemma {:induction false} LookupBelow(st: Store, more: Store, c: nat, x: Symbol)
    requires c < |st|
    ensures Lookup(st + more, c, x) == Lookup(st, c, x) && Binder(st + more, c, x) == Binder(st, c, x)
    decreases c
  {
    if x !in st[c].data && st[c].parent.Some? && st[c].parent.value < c {
      LookupBelow(st, more, st[c].parent.value, x);
    }
  }

  lemma InnerScopesSeeOuterOnes(fuel: nat, x: Symbol, st: Store, c: nat, depth: nat)
    ensures var o, o' := Eval(fuel, Var(x), st, c, depth), Eval(fuel, Let(More(Var(x), End)), st, c, depth);
            && (o.Val? <==> o'.Val?) && (o.Val? ==> o'.v == o.v)
            && (o.Raise? <==> o'.Raise?) && (o.Raise? ==> o'.thrown == o.thrown)
  {
    if c < |st| {
      var inner := st + [Scope(Some(c), map[], None)];
      LookupBelow(st, [Scope(Some(c), map[], None)], c, x);
      assert Lookup(inner, |st|, x) == Lookup(inner, c, x);
      assert EvalDo(fuel, More(Var(x), End), inner, |st|, depth) == Eval(fuel, Var(x), inner, |st|, depth);
    }
  }

  // A definition in a let stays inside; an assignment reaches the outer scope.
  lemma ScopesNest(fuel: nat, x: Symbol, v: Value, w: Value, st: Store, c: nat, depth: nat)
    requires c < |st|
    ensures var st0 := Bind(st, c, x, v);
            var o := Eval(fuel, Let(More(Expr.Def(x, Lit(w)), End)), st0, c, depth);
            o.Val? && Eval(fuel, Var(x), o.st, c, depth) == Val(v, o.st)
    ensures var st0 := Bind(st, c, x, v);
            var o := Eval(fuel, Let(More(Expr.Set(x, Lit(w)), End)), st0, c, depth);
            o.Val? && Eval(fuel, Var(x), o.st, c, depth) == Val(w, o.st)
  {
    var st0 := Bind(st, c, x, v);
    var inner := st0 + [Scope(Some(c), map[], None)];
    assert Eval(fuel, Lit(w), inner, |st0|, depth) == Val(w, inner);
    var def, set_ := Expr.Def(x, Lit(w)), Expr.Set(x, Lit(w));
    assert EvalDo(fuel, More(def, End), inner, |st0|, depth) == Eval(fuel, def, inner, |st0|, depth);
    assert EvalDo(fuel, More(set_, End), inner, |st0|, depth) == Eval(fuel, set_, inner, |st0|, depth);
    assert Binder(inner, c, x) == Some(c);
    assert Binder(inner, |st0|, x) == Binder(inner, c, x);
  }

  // ---- procedures

  // (apply f (list es ...)) is (f es ...).
  lemma ApplyIsCall(f: Expr, args: Exprs)
    ensures Same(Apply(f, MakeList(args)), Call(f, args))
  {
    forall fuel: nat, st: Store, c: nat, depth: nat
      ensures Eval(fuel, Apply(f, MakeList(args)), st, c, depth) == Eval(fuel, Call(f, args), st, c, depth)
    {
      ApplyHere(fuel, f, args, st, c, depth);
    }
  }

  lemma CallHere(fuel: nat, f: Expr, args: Exprs, st: Store, c: nat, depth: nat)
    requires c < |st|
    ensures var o := Eval(fuel, f, st, c, depth);
            Eval(fuel, Call(f, args), st, c, depth) ==
            if !o.Val? then o
            else
              var r := EvalArgs(fuel, args, o.st, c, depth + 1);
              if r.Vals? then EvalApply(fuel, Call(f, args), o.v, ListOf(r.vs), r.st, depth) else r.o
  {
    hide ListOf, EvalApply;
  }

  lemma ApplicationHere(fuel: nat, f: Expr, l: Expr, st: Store, c: nat, depth: nat)
    requires c < |st|
    ensures var o := Eval(fuel, f, st, c, depth);
            Eval(fuel, Apply(f, l), st, c, depth) ==
            if !o.Val? then o
            else
              var r := Eval(fuel, l, o.st, c, depth + 1);
              if r.Val? then EvalApply(fuel, Apply(f, l), o.v, r.v, r.st, depth) else r
  {
    hide EvalApply;
  }

  lemma ApplyHere(fuel: nat, f: Expr, args: Exprs, st: Store, c: nat, depth: nat)
    ensures Eval(fuel, Apply(f, MakeList(args)), st, c, depth) == Eval(fuel, Call(f, args), st, c, depth)
  {
    hide Kept, ListOf, EvalApply, Eval;
    if c < |st| {
      CallHere(fuel, f, args, st, c, depth);
      ApplicationHere(fuel, f, MakeList(args), st, c, depth);
      var o := Eval(fuel, f, st, c, depth);
      if o.Val? {
        EvalKeeps(fuel, f, st, c, depth);
        KeptSize(st, o.st);
        ListsHere(fuel, args, o.st, c, depth + 1);
        StopIsNoValue(fuel, args, o.st, c, depth + 1);
        var r := EvalArgs(fuel, args, o.st, c, depth + 1);
        if r.Vals? {
          FormDoesNotMatter(fuel, Apply(f, MakeList(args)), Call(f, args), o.v, ListOf(r.vs), r.st, depth);
        }
      }
    } else {
      OutOfScope(fuel, Apply(f, MakeList(args)), st, c, depth);
      OutOfScope(fuel, Call(f, args), st, c, depth);
    }
  }

  lemma FormDoesNotMatter(fuel: nat, e: Expr, e': Expr, fv: Value, args: Value, st: Store, depth: nat)
    ensures EvalApply(fuel, e, fv, args, st, depth) == EvalApply(fuel, e', fv, args, st, depth)
  {
  }

  // Calling anything but a procedure or a keyword is a type error that names it.
  lemma OnlyProceduresApply(fuel: nat, f: Expr, args: Exprs, st: Store, c: nat, depth: nat)
    requires c < |st| && Eval(fuel, f, st, c, depth).Val?
    ensures var o := Eval(fuel, f, st, c, depth); var r := EvalArgs(fuel, args, o.st, c, depth + 1);
            r.Vals? && !o.v.Lambda? && !o.v.Kw? ==>
              Eval(fuel, Call(f, args), st, c, depth) ==
              Raise(Thrown(ListOf([Kw("type-error"), Str("Can't apply to following val"), o.v]), true), r.st)
  {
    CallHere(fuel, f, args, st, c, depth);
    ThreeItems(Kw("type-error"), Str("Can't apply to following val"), Eval(fuel, f, st, c, depth).v);
  }

  // A name that no scope on the way out binds can neither be read nor assigned.
  lemma UnboundNamesFail(fuel: nat, x: Symbol, e: Expr, st: Store, c: nat, depth: nat)
    requires c < |st|
    ensures Unbound(st, c, x) ==>
              Eval(fuel, Var(x), st, c, depth) ==
              Raise(Thrown(ListOf([Kw("unbound-variable"), Str("Can't resolve symbol"), Sym(x)]), true), st)
    ensures var o := Eval(fuel, e, st, c, depth);
            o.Val? && Unbound(o.st, c, x) ==>
              Eval(fuel, Expr.Set(x, e), st, c, depth) ==
              Raise(Thrown(ListOf([Kw("unbound-variable"), Str("Can't set symbol"), Sym(x)]), true), o.st)
  {
    ThreeItems(Kw("unbound-variable"), Str("Can't resolve symbol"), Sym(x));
    ThreeItems(Kw("unbound-variable"), Str("Can't set symbol"), Sym(x));
    hide Unbound, Lookup, Binder;
    if Unbound(st, c, x) {
      NotFound(st, c, x);
    }
    var o := Eval(fuel, e, st, c, depth);
    if o.Val? && Unbound(o.st, c, x) {
      NotFound(o.st, c, x);
    }
  }

  ghost predicate Unbound(st: Store, c: nat, x: Symbol) {
    forall i: nat :: Outward(st, c, i) && i < |st| ==> x !in st[i].data
  }

  // Scope i is c, or encloses it.
  ghost predicate Outward(st: Store, c: nat, i: nat) {
    i == c || (c < |st| && st[c].parent.Some? && st[c].parent.value < c && Outward(st, st[c].parent.value, i))
  }

  lemma {:induction false} NotFound(st: Store, c: nat, x: Symbol)
    requires Unbound(st, c, x)
    ensures Lookup(st, c, x).None? && Binder(st, c, x).None?
    decreases c
  {
    if c < |st| {
      assert Outward(st, c, c);
      if st[c].parent.Some? && st[c].parent.value < c {
        forall i: nat | Outward(st, st[c].parent.value, i) && i < |st| ensures x !in st[i].data {
          assert Outward(st, c, i);
        }
        NotFound(st, st[c].parent.value, x);
      }
    }
  }

  // Nothing behind a return is evaluated.
  lemma ReturnLeaves(e: Expr, e2: Expr, es: Exprs)
    ensures Same(Do(More(Return(e), More(e2, es))), Return(e))
  {
    forall fuel: nat, st: Store, c: nat, depth: nat
      ensures Eval(fuel, Do(More(Return(e), More(e2, es))), st, c, depth) == Eval(fuel, Return(e), st, c, depth)
    {
      assert EvalDo(fuel, More(Return(e), More(e2, es)), st, c, depth) == Eval(fuel, Return(e), st, c, depth);
    }
  }

  // A parameter list: names, and perhaps a name for the remaining arguments.
  function ParamList(names: seq<Symbol>, rest: Option<Symbol>): Value {
    if names != [] then Pair(Sym(names[0]), ParamList(names[1..], rest))
    else if rest.Some? then Sym(rest.value)
    else Nil
  }

  // The i-th name is not repeated behind it.
  predicate LastNamed(names: seq<Symbol>, rest: Option<Symbol>, i: nat)
    requires i < |names|
  {
    names[i] !in names[i + 1..] && rest != Some(names[i])
  }

  lemma FirstParameter(names: seq<Symbol>, rest: Option<Symbol>, vs: seq<Value>, data: map<Symbol, Value>)
    requires names != []
    ensures BindList(ParamList(names, rest), ListOf(vs), data)
         == BindList(ParamList(names[1..], rest), ListOf(Natives.Tail(vs, 1)), data[names[0] := Natives.ArgumentOr(vs, 0)])
  {
    assert ParamList(names, rest) == Pair(Sym(names[0]), ParamList(names[1..], rest));
  }

  // Each parameter is bound to its argument, or to #nil when there are too few
  // of them, the rest parameter to the list of the remaining ones, and nothing
  // else is bound.
  lemma {:induction false} ParametersAreBound(names: seq<Symbol>, rest: Option<Symbol>, vs: seq<Value>, data: map<Symbol, Value>)
    ensures var d := BindList(ParamList(names, rest), ListOf(vs), data);
            && (forall i: nat :: i < |names| && LastNamed(names, rest, i) ==>
                  names[i] in d && d[names[i]] == Natives.ArgumentOr(vs, i))
            && (rest.Some? ==> rest.value in d && d[rest.value] == ListOf(Natives.Tail(vs, |names|)))
            && (forall s :: s in d <==> s in data || s in names || rest == Some(s))
            && (forall s :: s in data && s !in names && rest != Some(s) ==> d[s] == data[s])
    decreases |names|
  {
    if names == [] {
      NoParameters(rest, vs, data);
    } else {
      hide BindList, ListOf, ParamList;
      var args := Natives.Tail(vs, 1);
      ParametersAreBound(names[1..], rest, args, data[names[0] := Natives.ArgumentOr(vs, 0)]);
      FirstParameter(names, rest, vs, data);
      assert Natives.Tail(args, |names| - 1) == Natives.Tail(vs, |names|);
      forall i: nat | i < |names| && LastNamed(names, rest, i)
        ensures var d := BindList(ParamList(names, rest), ListOf(vs), data);
                names[i] in d && d[names[i]] == Natives.ArgumentOr(vs, i)
      {
        if i > 0 {
          assert names[1..][i - 1] == names[i] && names[1..][i..] == names[i + 1..];
          assert LastNamed(names[1..], rest, i - 1);
        }
      }
    }
  }

  lemma NoParameters(rest: Option<Symbol>, vs: seq<Value>, data: map<Symbol, Value>)
    ensures BindList(ParamList([], rest), ListOf(vs), data) == if rest.Some? then data[rest.value := ListOf(vs)] else data
  {
  }

  lemma BodyYieldsBinding(fuel: nat, e: Expr, params: Value, x: Symbol, args: Value, id: nat, st: Store, depth: nat)
    requires 0 < fuel && depth <= MAX_SP && id < |st| && st[id].fn == Some(Procedure(params, Var(x)))
    requires x in BindList(params, args, map[])
    ensures var o := EvalApply(fuel, e, Lambda(id), args, st, depth);
            o.Val? && o.v == BindList(params, args, map[])[x]
  {
    hide BindList;
    var data := BindList(params, args, map[]);
    var st2 := st + [Scope(Some(id), data, None)];
    assert Lookup(st2, |st|, x) == Some(data[x]);
    assert Eval(fuel - 1, Var(x), st2, |st|, depth) == Val(data[x], st2);
  }

  // A call of a procedure whose body is a parameter.
  lemma CallYieldsBinding(fuel: nat, params: Value, x: Symbol, meta: Value, es: Exprs, st: Store, c: nat, depth: nat)
    requires 0 < fuel && c < |st| && depth <= MAX_SP
    ensures var made := Eval(fuel, Fn(params, meta, Var(x)), st, c, depth);
            var args := EvalArgs(fuel, es, made.st, c, depth + 1);
            var o := Eval(fuel, Call(Fn(params, meta, Var(x)), es), st, c, depth);
            args.Vals? && x in BindList(params, ListOf(args.vs), map[]) ==>
              o.Val? && o.v == BindList(params, ListOf(args.vs), map[])[x]
  {
    hide BindList, ListOf, EvalApply;
    var st1 := st + [Scope(Some(c), map[], Some(Procedure(params, Var(x))))];
    var f := Fn(params, meta, Var(x));
    assert Eval(fuel, f, st, c, depth) == Val(Lambda(|st|), st1);
    var args := EvalArgs(fuel, es, st1, c, depth + 1);
    CallHere(fuel, f, es, st, c, depth);
    if args.Vals? && x in BindList(params, ListOf(args.vs), map[]) {
      ArgsKeep(fuel, es, st1, c, depth + 1);
      assert KeptScope(st1[|st|], args.st[|st|]);
      BodyYieldsBinding(fuel, Call(f, es), params, x, ListOf(args.vs), |st|, args.st, depth);
    }
  }

  // ((fn (x0 x1 ...) xi) e0 e1 ...) is the value of ei, or #nil.
  lemma CallsPassArguments(
    fuel: nat, names: seq<Symbol>, rest: Option<Symbol>, i: nat, meta: Value, es: Exprs, st: Store, c: nat, depth: nat)
    requires 0 < fuel && c < |st| && depth <= MAX_SP && i < |names| && LastNamed(names, rest, i)
    ensures var made := Eval(fuel, Fn(ParamList(names, rest), meta, Var(names[i])), st, c, depth);
            var args := EvalArgs(fuel, es, made.st, c, depth + 1);
            var o := Eval(fuel, Call(Fn(ParamList(names, rest), meta, Var(names[i])), es), st, c, depth);
            args.Vals? ==> o.Val? && o.v == Natives.ArgumentOr(args.vs, i)
  {
    hide EvalArgs;
    var made := Eval(fuel, Fn(ParamList(names, rest), meta, Var(names[i])), st, c, depth);
    var args := EvalArgs(fuel, es, made.st, c, depth + 1);
    if args.Vals? {
      ParametersAreBound(names, rest, args.vs, map[]);
    }
    CallYieldsBinding(fuel, ParamList(names, rest), names[i], meta, es, st, c, depth);
  }

  // ((fn (x0 ... xn . xs) xs) e0 e1 ...) is the list of the arguments that the
  // names before it leave.
  lemma CallsCollectTheRest(
    fuel: nat, names: seq<Symbol>, rest: Symbol, meta: Value, es: Exprs, st: Store, c: nat, depth: nat)
    requires 0 < fuel && c < |st| && depth <= MAX_SP
    ensures var made := Eval(fuel, Fn(ParamList(names, Some(rest)), meta, Var(rest)), st, c, depth);
            var args := EvalArgs(fuel, es, made.st, c, depth + 1);
            var o := Eval(fuel, Call(Fn(ParamList(names, Some(rest)), meta, Var(rest)), es), st, c, depth);
            args.Vals? ==> o.Val? && o.v == ListOf(Natives.Tail(args.vs, |names|))
  {
    hide EvalArgs;
    var made := Eval(fuel, Fn(ParamList(names, Some(rest)), meta, Var(rest)), st, c, depth);
    var args := EvalArgs(fuel, es, made.st, c, depth + 1);
    if args.Vals? {
      ParametersAreBound(names, Some(rest), args.vs, map[]);
    }
    CallYieldsBinding(fuel, ParamList(names, Some(rest)), rest, meta, es, st, c, depth);
  }
}
