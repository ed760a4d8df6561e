// The frontend passes on arithmetic: n-ary sums become left-nested binary
// calls, and calls of pure arithmetic on constants are replaced by the result
// of the native function, which is not the code that the opcode runs.
module Folding {
  import opened Values
  import opened Primitives
  import opened Source

  // ---- native functions

  predicate Arithmetic(op: Op2) {
    op == Add || op == Sub || op == Mul || op == Op2.And || op == Ior || op == Xor
  }

  // lnfAdd, lnfSub, lnfMul, lnfLogAnd, lnfLogIor, lnfLogXor; None is an exception.
  function Native(op: Op2, a: Value, b: Value): Option<Value> {
    match op
    case Add =>
      if a.Nil? then Some(Int(0))
      else if b.Nil? then Some(a)
      else if a.Int? && b.Int? then Some(Int(Wrap64(a.i + b.i)))
      else None
    case Sub =>
      if a.Nil? then None
      else if b.Nil? then (if a.Int? then Some(Int(Wrap64(-a.i))) else None)
      else if a.Int? && b.Int? then Some(Int(Wrap64(a.i - b.i)))
      else None
    case Mul =>
      if a.Nil? then Some(Int(1))
      else if b.Nil? then None
      else if a.Int? && b.Int? then Some(Int(Wrap64(a.i * b.i)))
      else None
    case And => if a.Int? && b.Int? then Some(Int(BitAnd(a.i, b.i))) else None
    case Ior => if a.Int? && b.Int? then Some(Int(BitOr(a.i, b.i))) else None
    case Xor => if a.Int? && b.Int? then Some(Int(BitXor(a.i, b.i))) else None
    case _ => None
  }

  // lnfAdd returns its first argument, whatever it is, when the second is #nil;
  // the opcode insists on a number.
  predicate NumericSum(op: Op2, a: Value, b: Value) {
    op == Add && b.Nil? ==> a.Int? || a.Nil?
  }

  // Where the native function returns a value the opcode returns the same
  // value, in exactly these cases.
  lemma NativeAgreesIff(op: Op2, a: Value, b: Value)
    requires Arithmetic(op)
    ensures (Native(op, a, b).Some? ==> Apply2(op, a, b) == Ok(Native(op, a, b).value)) <==> NumericSum(op, a, b)
  {
    hide Wrap64, BitAnd, BitOr, BitXor, ExceptionList;
  }

  // ---- constant folding

  predicate Constant(e: Expr) {
    e.Lit? && !e.v.Pair? && !e.v.Sym?
  }

  // The call of `op` on folded arguments.
  function FoldCall(op: Op2, a: Expr, b: Expr): Expr {
    if Arithmetic(op) && Constant(a) && Constant(b) && Native(op, a.v, b.v).Some?
    then Lit(Native(op, a.v, b.v).value)
    else Prim2(op, a, b)
  }

  // constant-fold and constant-fold/args
  function Fold(e: Expr): Expr {
    match e
    case Lit(_) => e
    case Quote(_) => e
    case Var(_) => e
    case Do(body) => Do(FoldAll(body))
    case Let(body) => Let(FoldAll(body))
    case Def(x, v) => Expr.Def(x, Fold(v))
    case Set(x, v) => Expr.Set(x, Fold(v))
    case If(a, b, c) => If(Fold(a), Fold(b), Fold(c))
    case While(t, body) => While(Fold(t), FoldAll(body))
    case And(es) => Expr.And(FoldAll(es))
    case Or(es) => Or(FoldAll(es))
    case Fn(params, meta, code) => Fn(params, meta, Fold(code))
    case Return(r) => Return(Fold(r))
    case Prim1(op, a) => Prim1(op, Fold(a))
    case Prim2(op, a, b) => FoldCall(op, Fold(a), Fold(b))
    case MakeList(es) => MakeList(FoldAll(es))
    case Call(f, args) => Call(Fold(f), FoldAll(args))
    case Apply(f, l) => Apply(Fold(f), Fold(l))
  }

  function FoldAll(es: Exprs): (r: Exprs)
    ensures r.End? <==> es.End?
  {
    match es
    case End => End
    case More(e, rest) => More(Fold(e), FoldAll(rest))
  }

  // No sum adds #nil to a constant that is not a number.
  predicate NumericSums(e: Expr) {
    match e
    case Lit(_) => true
    case Quote(_) => true
    case Var(_) => true
    case Do(body) => AllNumericSums(body)
    case Let(body) => AllNumericSums(body)
    case Def(_, v) => NumericSums(v)
    case Set(_, v) => NumericSums(v)
    case If(a, b, c) => NumericSums(a) && NumericSums(b) && NumericSums(c)
    case While(t, body) => NumericSums(t) && AllNumericSums(body)
    case And(es) => AllNumericSums(es)
    case Or(es) => AllNumericSums(es)
    case Fn(_, _, code) => NumericSums(code)
    case Return(r) => NumericSums(r)
    case Prim1(_, a) => NumericSums(a)
    case Prim2(op, a, b) =>
      NumericSums(a) && NumericSums(b) && (Constant(a) && Constant(b) ==> NumericSum(op, a.v, b.v))
    case MakeList(es) => AllNumericSums(es)
    case Call(f, args) => NumericSums(f) && AllNumericSums(args)
    case Apply(f, l) => NumericSums(f) && NumericSums(l)
  }

  predicate AllNumericSums(es: Exprs) {
    match es
    case End => true
    case More(e, rest) => NumericSums(e) && AllNumericSums(rest)
  }

  // Folding only produces numbers, so a sum that becomes constant is numeric.
  lemma {:induction false} FoldedSumIsNumeric(e: Expr)
    requires e.Prim2? && NumericSums(e) && Constant(Fold(e.left)) && Constant(Fold(e.right))
    ensures NumericSum(e.op2, Fold(e.left).v, Fold(e.right).v)
  {
    ConstantIsNumber(e.left);
    ConstantIsNumber(e.right);
  }

  lemma {:induction false} ConstantIsNumber(e: Expr)
    requires NumericSums(e)
    ensures Constant(Fold(e)) ==> Fold(e) == e || Fold(e).v.Int?
  {
    hide Wrap64, BitAnd, BitOr, BitXor;
    if e.Prim2? {
      ConstantIsNumber(e.left);
      ConstantIsNumber(e.right);
    }
  }

  // ---- folding preserves meaning

  // Procedures in the store were folded when they were compiled.
  function FoldScope(s: Scope): Scope {
    match s.fn
    case None => s
    case Some(p) => s.(fn := Some(p.(code := Fold(p.code))))
  }

  function FoldStore(st: Store): (r: Store)
    ensures |r| == |st|
  {
    seq(|st|, i requires 0 <= i < |st| => FoldScope(st[i]))
  }

  function FoldOutcome(o: Outcome): Outcome {
    match o
    case Val(v, st) => Val(v, FoldStore(st))
    case Ret(v, st) => Ret(v, FoldStore(st))
    case Raise(t, st) => Raise(t, FoldStore(st))
    case _ => o
  }

  function FoldOutcomes(os: Outcomes): Outcomes {
    match os
    case Vals(vs, st) => Vals(vs, FoldStore(st))
    case Stop(o) => Stop(FoldOutcome(o))
  }

  predicate StoreNumeric(st: Store) {
    forall i :: 0 <= i < |st| && st[i].fn.Some? ==> NumericSums(st[i].fn.value.code)
  }

  predicate OutcomeNumeric(o: Outcome) {
    (o.Val? || o.Ret? || o.Raise?) ==> StoreNumeric(o.st)
  }

  predicate OutcomesNumeric(os: Outcomes) {
    match os
    case Vals(_, st) => StoreNumeric(st)
    case Stop(o) => OutcomeNumeric(o)
  }

  lemma {:induction false} LookupFolds(st: Store, c: nat, s: Symbol)
    ensures Lookup(FoldStore(st), c, s) == Lookup(st, c, s)
    ensures Binder(FoldStore(st), c, s) == Binder(st, c, s)
  {
    if c < |st| && s !in st[c].data && st[c].parent.Some? && st[c].parent.value < c {
      LookupFolds(st, st[c].parent.value, s);
    }
  }

  lemma BindFolds(st: Store, b: nat, s: Symbol, v: Value)
    requires b < |st|
    ensures FoldStore(Bind(st, b, s, v)) == Bind(FoldStore(st), b, s, v)
    ensures StoreNumeric(st) ==> StoreNumeric(Bind(st, b, s, v))
  {
    hide Fold, NumericSums;
  }

  lemma PushFolds(st: Store, s: Scope)
    ensures FoldStore(st + [s]) == FoldStore(st) + [FoldScope(s)]
    ensures StoreNumeric(st) && (s.fn.Some? ==> NumericSums(s.fn.value.code)) ==> StoreNumeric(st + [s])
  {
    hide Fold, NumericSums;
  }

  lemma ScopeFolds(st: Store, fv: Value)
    requires StoreNumeric(st) && fv.Lambda? && fv.id < |st|
    ensures FoldStore(st)[fv.id] == FoldScope(st[fv.id])
    ensures st[fv.id].fn.Some? ==> NumericSums(st[fv.id].fn.value.code)
  {
  }

  // Folding leaves the value, the effects and the termination of every
  // expression alone, in every environment.
  lemma {:induction false} FoldPreserves(fuel: nat, e: Expr, st: Store, c: nat, depth: nat)
    requires NumericSums(e) && StoreNumeric(st)
    ensures Eval(fuel, Fold(e), FoldStore(st), c, depth) == FoldOutcome(Eval(fuel, e, st, c, depth))
    ensures OutcomeNumeric(Eval(fuel, e, st, c, depth))
    decreases fuel, e, 2
  {
    hide FoldStore, StoreNumeric, Apply1, Apply2, Lookup, Binder, Bind, FoldCall;
    if c < |st| {
      match e
      case Lit(_) =>
      case Quote(_) =>
      case Var(x) => LookupFolds(st, c, x);
      case Do(body) => DoFolds(fuel, body, st, c, depth);
      case Let(body) =>
        PushFolds(st, Scope(Some(c), map[], None));
        DoFolds(fuel, body, st + [Scope(Some(c), map[], None)], |st|, depth);
      case Def(_, v) => DefFolds(fuel, e, st, c, depth);
      case Set(_, v) => SetFolds(fuel, e, st, c, depth);
      case If(a, b, d) =>
        FoldPreserves(fuel, a, st, c, depth);
        var o := Eval(fuel, a, st, c, depth);
        if o.Val? {
          FoldPreserves(fuel, b, o.st, c, depth);
          FoldPreserves(fuel, d, o.st, c, depth);
        }
      case While(_, _) => WhileFolds(fuel, e, Nil, st, c, depth);
      case And(es) => AndFolds(fuel, es, st, c, depth);
      case Or(es) => OrFolds(fuel, es, st, c, depth);
      case Fn(params, _, code) => PushFolds(st, Scope(Some(c), map[], Some(Procedure(params, code))));
      case Return(r) => FoldPreserves(fuel, r, st, c, depth);
      case Prim1(_, a) => FoldPreserves(fuel, a, st, c, depth);
      case Prim2(_, _, _) => CallFolds(fuel, e, st, c, depth);
      case MakeList(es) => ArgsFold(fuel, es, st, c, depth);
      case Call(_, _) => ProcedureFolds(fuel, e, st, c, depth);
      case Apply(_, _) => ProcedureFolds(fuel, e, st, c, depth);
    }
  }

  lemma {:induction false} DefFolds(fuel: nat, e: Expr, st: Store, c: nat, depth: nat)
    requires e.Def? && NumericSums(e) && StoreNumeric(st) && c < |st|
    ensures Eval(fuel, Fold(e), FoldStore(st), c, depth) == FoldOutcome(Eval(fuel, e, st, c, depth))
    ensures OutcomeNumeric(Eval(fuel, e, st, c, depth))
    decreases fuel, e, 1
  {
    hide FoldStore, StoreNumeric, Bind;
    FoldPreserves(fuel, e.dv, st, c, depth);
    var o := Eval(fuel, e.dv, st, c, depth);
    if o.Val? && c < |o.st| {
      BindFolds(o.st, c, e.dx, o.v);
    }
  }

  lemma {:induction false} SetFolds(fuel: nat, e: Expr, st: Store, c: nat, depth: nat)
    requires e.Set? && NumericSums(e) && StoreNumeric(st) && c < |st|
    ensures Eval(fuel, Fold(e), FoldStore(st), c, depth) == FoldOutcome(Eval(fuel, e, st, c, depth))
    ensures OutcomeNumeric(Eval(fuel, e, st, c, depth))
    decreases fuel, e, 1
  {
    hide FoldStore, StoreNumeric, Bind, Binder;
    FoldPreserves(fuel, e.sv, st, c, depth);
    var o := Eval(fuel, e.sv, st, c, depth);
    if o.Val? {
      LookupFolds(o.st, c, e.sx);
      if Binder(o.st, c, e.sx).Some? {
        BindFolds(o.st, Binder(o.st, c, e.sx).value, e.sx, o.v);
      }
    }
  }

  // The one place where code changes.
  lemma {:induction false} CallFolds(fuel: nat, e: Expr, st: Store, c: nat, depth: nat)
    requires e.Prim2? && NumericSums(e) && StoreNumeric(st) && c < |st|
    ensures Eval(fuel, Fold(e), FoldStore(st), c, depth) == FoldOutcome(Eval(fuel, e, st, c, depth))
    ensures OutcomeNumeric(Eval(fuel, e, st, c, depth))
    decreases fuel, e, 1
  {
    hide FoldStore, StoreNumeric, Apply2, Native;
    FoldPreserves(fuel, e.left, st, c, depth);
    var o := Eval(fuel, e.left, st, c, depth);
    if o.Val? {
      FoldPreserves(fuel, e.right, o.st, c, depth + 1);
    }
    var a, b := Fold(e.left), Fold(e.right);
    if Fold(e).Lit? {
      FoldedSumIsNumeric(e);
      NativeAgreesIff(e.op2, a.v, b.v);
      StoreStays(fuel, a, e.left, st, c, depth);
    }
  }

  // An expression that folds to a constant neither changes the store nor stops.
  lemma StoreStays(fuel: nat, a: Expr, e: Expr, st: Store, c: nat, depth: nat)
    requires a == Fold(e) && a.Lit? && NumericSums(e) && c < |st|
    ensures Eval(fuel, e, st, c, depth) == Val(a.v, st)
    decreases e
  {
    hide Apply2, Native;
    if e.Prim2? {
      StoreStays(fuel, Fold(e.left), e.left, st, c, depth);
      StoreStays(fuel, Fold(e.right), e.right, st, c, depth + 1);
      FoldedSumIsNumeric(e);
      NativeAgreesIff(e.op2, Fold(e.left).v, Fold(e.right).v);
    }
  }

  lemma {:induction false} DoFolds(fuel: nat, es: Exprs, st: Store, c: nat, depth: nat)
    requires AllNumericSums(es) && StoreNumeric(st)
    ensures EvalDo(fuel, FoldAll(es), FoldStore(st), c, depth) == FoldOutcome(EvalDo(fuel, es, st, c, depth))
    ensures OutcomeNumeric(EvalDo(fuel, es, st, c, depth))
    decreases fuel, es, 0
  {
    hide FoldStore, StoreNumeric, Fold;
    if es.More? {
      FoldPreserves(fuel, es.head, st, c, depth);
      var o := Eval(fuel, es.head, st, c, depth);
      if es.tail.More? && o.Val? {
        DoFolds(fuel, es.tail, o.st, c, depth);
      }
    }
  }

  lemma {:induction false} WhileFolds(fuel: nat, e: Expr, last: Value, st: Store, c: nat, depth: nat)
    requires e.While? && NumericSums(e) && StoreNumeric(st)
    ensures EvalWhile(fuel, Fold(e), last, FoldStore(st), c, depth) == FoldOutcome(EvalWhile(fuel, e, last, st, c, depth))
    ensures OutcomeNumeric(EvalWhile(fuel, e, last, st, c, depth))
    decreases fuel, e, 1
  {
    hide FoldStore, StoreNumeric;
    FoldPreserves(fuel, e.test, st, c, depth + 1);
    var o := Eval(fuel, e.test, st, c, depth + 1);
    if o.Val? && Truthy(o.v) && fuel > 0 {
      DoFolds(fuel, e.loop, o.st, c, depth);
      var o1 := EvalDo(fuel, e.loop, o.st, c, depth);
      if o1.Val? {
        WhileFolds(fuel - 1, e, o1.v, o1.st, c, depth);
      }
    }
  }

  lemma {:induction false} AndFolds(fuel: nat, es: Exprs, st: Store, c: nat, depth: nat)
    requires AllNumericSums(es) && StoreNumeric(st)
    ensures EvalAnd(fuel, FoldAll(es), FoldStore(st), c, depth) == FoldOutcome(EvalAnd(fuel, es, st, c, depth))
    ensures OutcomeNumeric(EvalAnd(fuel, es, st, c, depth))
    decreases fuel, es, 0
  {
    hide FoldStore, StoreNumeric, Fold;
    if es.More? {
      FoldPreserves(fuel, es.head, st, c, depth);
      var o := Eval(fuel, es.head, st, c, depth);
      if es.tail.More? && o.Val? {
        AndFolds(fuel, es.tail, o.st, c, depth);
      }
    }
  }

  lemma {:induction false} OrFolds(fuel: nat, es: Exprs, st: Store, c: nat, depth: nat)
    requires AllNumericSums(es) && StoreNumeric(st)
    ensures EvalOr(fuel, FoldAll(es), FoldStore(st), c, depth) == FoldOutcome(EvalOr(fuel, es, st, c, depth))
    ensures OutcomeNumeric(EvalOr(fuel, es, st, c, depth))
    decreases fuel, es, 0
  {
    hide FoldStore, StoreNumeric, Fold;
    if es.More? {
      FoldPreserves(fuel, es.head, st, c, depth);
      var o := Eval(fuel, es.head, st, c, depth);
      if o.Val? {
        OrFolds(fuel, es.tail, o.st, c, depth);
      }
    }
  }

  lemma {:induction false} ArgsFold(fuel: nat, es: Exprs, st: Store, c: nat, depth: nat)
    requires AllNumericSums(es) && StoreNumeric(st)
    ensures EvalArgs(fuel, FoldAll(es), FoldStore(st), c, depth) == FoldOutcomes(EvalArgs(fuel, es, st, c, depth))
    ensures OutcomesNumeric(EvalArgs(fuel, es, st, c, depth))
    decreases fuel, es, 0
  {
    hide FoldStore, StoreNumeric, Fold;
    if es.More? {
      FoldPreserves(fuel, es.head, st, c, depth);
      var o := Eval(fuel, es.head, st, c, depth);
      if o.Val? {
        ArgsFold(fuel, es.tail, o.st, c, depth + 1);
      }
    }
  }

  lemma {:induction false} ProcedureFolds(fuel: nat, e: Expr, st: Store, c: nat, depth: nat)
    requires (e.Call? || e.Apply?) && NumericSums(e) && StoreNumeric(st) && c < |st|
    ensures Eval(fuel, Fold(e), FoldStore(st), c, depth) == FoldOutcome(Eval(fuel, e, st, c, depth))
    ensures OutcomeNumeric(Eval(fuel, e, st, c, depth))
    decreases fuel, e, 1
  {
    hide FoldStore, StoreNumeric, EvalApply;
    var f := if e.Call? then e.fun else e.callee;
    FoldPreserves(fuel, f, st, c, depth);
    var o := Eval(fuel, f, st, c, depth);
    if o.Val? {
      if e.Call? {
        ArgsFold(fuel, e.args, o.st, c, depth + 1);
        var os := EvalArgs(fuel, e.args, o.st, c, depth + 1);
        if os.Vals? {
          ApplyFolds(fuel, e, o.v, ListOf(os.vs), os.st, depth);
        }
      } else {
        FoldPreserves(fuel, e.arglist, o.st, c, depth + 1);
        var o1 := Eval(fuel, e.arglist, o.st, c, depth + 1);
        if o1.Val? {
          ApplyFolds(fuel, e, o.v, o1.v, o1.st, depth);
        }
      }
    }
  }

  function Returning(o: Outcome): Outcome { if o.Ret? then Val(o.v, o.st) else o }

  // The cases of an application.
  lemma ApplyIs(fuel: nat, e: Expr, fv: Value, args: Value, st: Store, depth: nat)
    ensures EvalApply(fuel, e, fv, args, st, depth) ==
            if fv.Kw? then Unsupported
            else if !fv.Lambda? then Raise(CantApply(fv), st)
            else if fv.id >= |st| || st[fv.id].fn.None? then Malformed
            else if depth > MAX_SP then TooDeep
            else if fuel == 0 then Timeout
            else
              var fn := st[fv.id].fn.value;
              Returning(Eval(fuel - 1, fn.code, st + [Scope(Some(fv.id), BindList(fn.params, args, map[]), None)], |st|, depth))
  {
    hide Eval, BindList, CantApply;
  }

  lemma {:induction false} ApplyFolds(fuel: nat, e: Expr, fv: Value, args: Value, st: Store, depth: nat)
    requires StoreNumeric(st)
    ensures EvalApply(fuel, Fold(e), fv, args, FoldStore(st), depth) == FoldOutcome(EvalApply(fuel, e, fv, args, st, depth))
    ensures OutcomeNumeric(EvalApply(fuel, e, fv, args, st, depth))
    decreases fuel, e, 0
  {
    hide Fold, NumericSums, FoldStore, StoreNumeric, BindList, Eval, EvalApply, CantApply;
    ApplyIs(fuel, e, fv, args, st, depth);
    ApplyIs(fuel, Fold(e), fv, args, FoldStore(st), depth);
    if fv.Lambda? && fv.id < |st| {
      ScopeFolds(st, fv);
      if st[fv.id].fn.Some? && fuel > 0 {
        BodyFolds(fuel, e, fv.id, args, st, depth);
      }
    }
  }

  lemma {:induction false} BodyFolds(fuel: nat, e: Expr, id: nat, args: Value, st: Store, depth: nat)
    requires StoreNumeric(st) && id < |st| && st[id].fn.Some? && fuel > 0
    requires NumericSums(st[id].fn.value.code)
    ensures var fn := st[id].fn.value;
            var st' := st + [Scope(Some(id), BindList(fn.params, args, map[]), None)];
            var o := Eval(fuel - 1, fn.code, st', |st|, depth);
            && FoldStore(st') == FoldStore(st) + [Scope(Some(id), BindList(fn.params, args, map[]), None)]
            && Eval(fuel - 1, Fold(fn.code), FoldStore(st'), |st|, depth) == FoldOutcome(o)
            && OutcomeNumeric(o)
    decreases fuel - 1, st[id].fn.value.code, 3
  {
    hide Fold, NumericSums, FoldStore, StoreNumeric, BindList, Eval, FoldOutcome, OutcomeNumeric;
    var fn := st[id].fn.value;
    var frame := Scope(Some(id), BindList(fn.params, args, map[]), None);
    PushFolds(st, frame);
    FoldPreserves(fuel - 1, fn.code, st + [frame], |st|, depth);
  }

  // The excluded case really differs: a constant that is not a number, plus
  // #nil, folds to itself and throws when it is run.
  lemma FoldingHidesError(fuel: nat, v: Value, st: Store, c: nat, depth: nat)
    requires c < |st| && !v.Pair? && !v.Sym? && !v.Int? && !v.Nil?
    ensures Eval(fuel, Fold(Prim2(Add, Lit(v), Lit(Nil))), st, c, depth) == Val(v, st)
    ensures Eval(fuel, Prim2(Add, Lit(v), Lit(Nil)), st, c, depth) == Raise(NonNumeric(Nil), st)
  {
  }

  // ---- n-ary operators

  // macroexpand-fold on two or more arguments.
  function LeftNest(op: Op2, args: seq<Expr>): Expr
    requires |args| >= 2
  {
    var n := |args| - 1;
    if n == 1 then Prim2(op, args[0], args[1]) else Prim2(op, LeftNest(op, args[..n]), args[n])
  }

  // Left fold: `acc` is the value of the arguments seen so far, on the stack
  // while the rest is evaluated.
  function EvalLeft(fuel: nat, op: Op2, acc: Value, rest: seq<Expr>, st: Store, c: nat, depth: nat): Outcome
    decreases |rest|
  {
    if rest == [] then Val(acc, st)
    else
      match Eval(fuel, rest[0], st, c, depth + 1)
      case Val(v, st1) =>
        (match OfResult(Apply2(op, acc, v), st1)
         case Val(w, st2) => EvalLeft(fuel, op, w, rest[1..], st2, c, depth)
         case o => o)
      case o => o
  }

  function EvalNary(fuel: nat, op: Op2, args: seq<Expr>, st: Store, c: nat, depth: nat): Outcome
    requires |args| >= 2
  {
    match Eval(fuel, args[0], st, c, depth)
    case Val(v, st1) => EvalLeft(fuel, op, v, args[1..], st1, c, depth)
    case o => o
  }

  lemma EvalLeftNone(fuel: nat, op: Op2, acc: Value, st: Store, c: nat, depth: nat)
    ensures EvalLeft(fuel, op, acc, [], st, c, depth) == Val(acc, st)
  {
  }

  lemma EvalLeftMore(fuel: nat, op: Op2, acc: Value, rest: seq<Expr>, st: Store, c: nat, depth: nat)
    requires rest != []
    ensures EvalLeft(fuel, op, acc, rest, st, c, depth) ==
            var o := Eval(fuel, rest[0], st, c, depth + 1);
            if !o.Val? then o
            else
              var r := OfResult(Apply2(op, acc, o.v), o.st);
              if r.Val? then EvalLeft(fuel, op, r.v, rest[1..], r.st, c, depth) else r
  {
    hide Apply2, Eval, OfResult;
  }

  lemma {:induction false} EvalLeftLast(fuel: nat, op: Op2, acc: Value, rest: seq<Expr>, e: Expr, st: Store, c: nat, depth: nat)
    ensures EvalLeft(fuel, op, acc, rest + [e], st, c, depth) ==
            var o := EvalLeft(fuel, op, acc, rest, st, c, depth);
            if o.Val? then EvalLeft(fuel, op, o.v, [e], o.st, c, depth) else o
    decreases |rest|
  {
    hide Apply2, Eval, OfResult, EvalLeft;
    if rest == [] {
      assert rest + [e] == [e];
      EvalLeftNone(fuel, op, acc, st, c, depth);
    } else {
      assert (rest + [e])[1..] == rest[1..] + [e];
      EvalLeftMore(fuel, op, acc, rest, st, c, depth);
      EvalLeftMore(fuel, op, acc, rest + [e], st, c, depth);
      var o := Eval(fuel, rest[0], st, c, depth + 1);
      if o.Val? {
        var r := OfResult(Apply2(op, acc, o.v), o.st);
        if r.Val? {
          EvalLeftLast(fuel, op, r.v, rest[1..], e, r.st, c, depth);
        }
      }
    }
  }

  lemma EvalLeftOne(fuel: nat, op: Op2, acc: Value, e: Expr, st: Store, c: nat, depth: nat)
    ensures EvalLeft(fuel, op, acc, [e], st, c, depth) ==
            var o := Eval(fuel, e, st, c, depth + 1);
            if o.Val? then OfResult(Apply2(op, acc, o.v), o.st) else o
  {
    hide Apply2, Eval;
    var o := Eval(fuel, e, st, c, depth + 1);
    assert [e][1..] == [];
    if o.Val? {
      var r := OfResult(Apply2(op, acc, o.v), o.st);
      assert r.Val? ==> EvalLeft(fuel, op, r.v, [], r.st, c, depth) == r;
    }
  }

  lemma EvalNested(fuel: nat, op: Op2, args: seq<Expr>, st: Store, c: nat, depth: nat)
    requires |args| >= 2 && c < |st|
    ensures var n := |args| - 1;
            var o := Eval(fuel, if n == 1 then args[0] else LeftNest(op, args[..n]), st, c, depth);
            Eval(fuel, LeftNest(op, args), st, c, depth) ==
            if !o.Val? then o
            else
              var o1 := Eval(fuel, args[n], o.st, c, depth + 1);
              if o1.Val? then OfResult(Apply2(op, o.v, o1.v), o1.st) else o1
  {
    hide Apply2;
  }

  // The expansion of an n-ary call evaluates its arguments once each, left to
  // right, and combines them from the left.
  lemma {:induction false} LeftNestIsLeftFold(fuel: nat, op: Op2, args: seq<Expr>, st: Store, c: nat, depth: nat)
    requires |args| >= 2 && c < |st|
    ensures Eval(fuel, LeftNest(op, args), st, c, depth) == EvalNary(fuel, op, args, st, c, depth)
    decreases |args|
  {
    hide Apply2, EvalLeft, Eval;
    var n := |args| - 1;
    var o := Eval(fuel, args[0], st, c, depth);
    EvalNested(fuel, op, args, st, c, depth);
    if n == 1 {
      assert args[1..] == [args[1]];
      if o.Val? {
        EvalLeftOne(fuel, op, o.v, args[1], o.st, c, depth);
      }
    } else {
      LeftNestIsLeftFold(fuel, op, args[..n], st, c, depth);
      assert args[1..] == args[..n][1..] + [args[n]];
      if o.Val? {
        EvalLeftLast(fuel, op, o.v, args[..n][1..], args[n], o.st, c, depth);
        var o1 := EvalLeft(fuel, op, o.v, args[..n][1..], o.st, c, depth);
        if o1.Val? {
          EvalLeftOne(fuel, op, o1.v, args[n], o1.st, c, depth);
        }
      }
    }
  }

  // ---- sums and products of integers

  function Sum(xs: seq<int>): int {
    if xs == [] then 0 else xs[0] + Sum(xs[1..])
  }

  function Product(xs: seq<int>): int {
    if xs == [] then 1 else xs[0] * Product(xs[1..])
  }

  function Literals(xs: seq<int>): seq<Expr> {
    seq(|xs|, i requires 0 <= i < |xs| => Lit(Int(xs[i])))
  }

  lemma WrapSum(x: int, y: int)
    ensures Wrap64(Wrap64(x) + y) == Wrap64(x + y)
  {
  }

  lemma WrapProduct(x: int, y: int)
    ensures Wrap64(Wrap64(x) * y) == Wrap64(x * y)
  {
    var k := (Wrap64(x) - x) / TWO_64;
    assert Wrap64(x) == x + k * TWO_64;
    assert Wrap64(x) * y == x * y + (k * y) * TWO_64 by {
      assert (k * TWO_64) * y == (k * y) * TWO_64;
    }
    WrapPeriod(x * y, k * y);
  }

  lemma WrapPeriod(x: int, k: int)
    ensures Wrap64(x + k * TWO_64) == Wrap64(x)
  {
  }

  lemma {:induction false} SumLast(xs: seq<int>, y: int)
    ensures Sum(xs + [y]) == Sum(xs) + y && Product(xs + [y]) == Product(xs) * y
  {
    if xs == [] {
      assert xs + [y] == [y] && [y][1..] == [];
    } else {
      assert (xs + [y])[1..] == xs[1..] + [y];
      SumLast(xs[1..], y);
      assert xs[0] * (Product(xs[1..]) * y) == (xs[0] * Product(xs[1..])) * y;
    }
  }

  // An n-ary sum or product of integers folds to one constant: the exact
  // result, wrapped once.
  lemma {:induction false} ConstantsFold(xs: seq<int>)
    requires |xs| >= 2 && forall i :: 0 <= i < |xs| ==> IsI64(xs[i])
    ensures Fold(LeftNest(Add, Literals(xs))) == Lit(Int(Wrap64(Sum(xs))))
    ensures Fold(LeftNest(Mul, Literals(xs))) == Lit(Int(Wrap64(Product(xs))))
    decreases |xs|
  {
    hide Wrap64, LeftNest;
    var n := |xs| - 1;
    var args := Literals(xs);
    SumLast(xs[..n], xs[n]);
    assert xs == xs[..n] + [xs[n]];
    if n == 1 {
      SumLast([], xs[0]);
      assert [] + [xs[0]] == xs[..n];
      LeftNestTwo(Add, args);
      LeftNestTwo(Mul, args);
    } else {
      assert args[..n] == Literals(xs[..n]);
      ConstantsFold(xs[..n]);
      LeftNestMore(Add, args);
      LeftNestMore(Mul, args);
      WrapSum(Sum(xs[..n]), xs[n]);
      WrapProduct(Product(xs[..n]), xs[n]);
    }
  }

  lemma LeftNestTwo(op: Op2, args: seq<Expr>)
    requires |args| == 2
    ensures Fold(LeftNest(op, args)) == FoldCall(op, Fold(args[0]), Fold(args[1]))
  {
    hide FoldCall;
  }

  lemma LeftNestMore(op: Op2, args: seq<Expr>)
    requires |args| > 2
    ensures Fold(LeftNest(op, args)) == FoldCall(op, Fold(LeftNest(op, args[..|args| - 1])), Fold(args[|args| - 1]))
  {
    hide FoldCall;
  }
}
