// The expanded source language and its reference evaluator.  The evaluator
// knows nothing about bytecode: scopes form a store of frames linked to their
// parents, `fuel` bounds loop iterations and calls, and `depth` is the number
// of value-stack slots in use below the expression.
module Source {
  import opened Values
  import opened Primitives

  datatype Expr =
    | Lit(v: Value)
    | Quote(q: Value)
    | Var(x: Symbol)
    | Do(body: Exprs)
    | Let(scoped: Exprs)
    | Def(dx: Symbol, dv: Expr)
    | Set(sx: Symbol, sv: Expr)
    | If(cond: Expr, thn: Expr, els: Expr)
    | While(test: Expr, loop: Exprs)
    | And(conj: Exprs)
    | Or(disj: Exprs)
    | Fn(params: Value, meta: Value, code: Expr)
    | Return(result: Expr)
    | Prim1(op1: Op1, arg: Expr)
    | Prim2(op2: Op2, left: Expr, right: Expr)
    | MakeList(elements: Exprs)
    | Call(fun: Expr, args: Exprs)
    | Apply(callee: Expr, arglist: Expr)

  datatype Exprs = End | More(head: Expr, tail: Exprs)

  function Length(es: Exprs): nat {
    match es
    case End => 0
    case More(_, t) => 1 + Length(t)
  }

  datatype Procedure = Procedure(params: Value, code: Expr)

  // One closure of the store: a scope, or a procedure when `fn` is set.
  datatype Scope = Scope(parent: Option<nat>, data: map<Symbol, Value>, fn: Option<Procedure>)

  type Store = seq<Scope>

  function Lookup(st: Store, c: nat, s: Symbol): Option<Value> {
    if c >= |st| then None
    else if s in st[c].data then Some(st[c].data[s])
    else if st[c].parent.Some? && st[c].parent.value < c then Lookup(st, st[c].parent.value, s)
    else None
  }

  // The innermost scope that binds `s`.
  function Binder(st: Store, c: nat, s: Symbol): (r: Option<nat>)
    ensures r.Some? ==> r.value <= c && r.value < |st| && s in st[r.value].data
  {
    if c >= |st| then None
    else if s in st[c].data then Some(c)
    else if st[c].parent.Some? && st[c].parent.value < c then Binder(st, st[c].parent.value, s)
    else None
  }

  function Bind(st: Store, c: nat, s: Symbol, v: Value): (r: Store)
    requires c < |st|
    ensures |r| == |st|
  {
    st[c := st[c].(data := st[c].data[s := v])]
  }

  datatype Outcome =
    | Val(v: Value, st: Store)
    | Ret(v: Value, st: Store)       // an early (return ...)
    | Raise(thrown: Thrown, st: Store)
    | Timeout                        // fuel exhausted
    | TooDeep                        // a call above the 16-bit saved stack pointer
    | Unsupported                    // a value identity or a method call, not modelled
    | Malformed                      // never for well-formed programs and stores

  datatype Outcomes = Vals(vs: seq<Value>, st: Store) | Stop(o: Outcome)

  function OfResult(r: Result, st: Store): Outcome {
    match r
    case Ok(v) => Val(v, st)
    case Err(t) => Raise(t, st)
    case Unmodelled => Unsupported
  }

  const MAX_SP := 0xFFFF

  function Eval(fuel: nat, e: Expr, st: Store, c: nat, depth: nat): Outcome
    decreases fuel, e, 1
  {
    if c >= |st| then Malformed else
    match e
    case Lit(v) => Val(v, st)
    case Quote(q) => Val(q, st)
    case Var(x) =>
      (match Lookup(st, c, x)
       case Some(v) => Val(v, st)
       case None => Raise(CantResolve(x), st))
    case Do(body) => EvalDo(fuel, body, st, c, depth)
    case Let(body) => EvalDo(fuel, body, st + [Scope(Some(c), map[], None)], |st|, depth)
    case Def(x, dv) =>
      (match Eval(fuel, dv, st, c, depth)
       case Val(v, st1) => if c < |st1| then Val(v, Bind(st1, c, x, v)) else Malformed
       case o => o)
    case Set(x, sv) =>
      (match Eval(fuel, sv, st, c, depth)
       case Val(v, st1) =>
         (match Binder(st1, c, x)
          case Some(b) => Val(v, Bind(st1, b, x, v))
          case None => Raise(CantSet(x), st1))
       case o => o)
    case If(cond, thn, els) =>
      (match Eval(fuel, cond, st, c, depth)
       case Val(v, st1) => if Truthy(v) then Eval(fuel, thn, st1, c, depth) else Eval(fuel, els, st1, c, depth)
       case o => o)
    case While(_, _) => EvalWhile(fuel, e, Nil, st, c, depth)
    case And(es) => EvalAnd(fuel, es, st, c, depth)
    case Or(es) => EvalOr(fuel, es, st, c, depth)
    case Fn(params, _, code) =>
      Val(Lambda(|st|), st + [Scope(Some(c), map[], Some(Procedure(params, code)))])
    case Return(r) =>
      (match Eval(fuel, r, st, c, depth)
       case Val(v, st1) => Ret(v, st1)
       case o => o)
    case Prim1(op, a) =>
      (match Eval(fuel, a, st, c, depth)
       case Val(v, st1) => OfResult(Apply1(op, v), st1)
       case o => o)
    case Prim2(op, a, b) =>
      (match Eval(fuel, a, st, c, depth)
       case Val(v, st1) =>
         (match Eval(fuel, b, st1, c, depth + 1)
          case Val(w, st2) => OfResult(Apply2(op, v, w), st2)
          case o => o)
       case o => o)
    case MakeList(es) =>
      (match EvalArgs(fuel, es, st, c, depth)
       case Vals(vs, st1) => Val(ListOf(vs), st1)
       case Stop(o) => o)
    case Call(f, args) =>
      (match Eval(fuel, f, st, c, depth)
       case Val(fv, st1) =>
         (match EvalArgs(fuel, args, st1, c, depth + 1)
          case Vals(vs, st2) => EvalApply(fuel, e, fv, ListOf(vs), st2, depth)
          case Stop(o) => o)
       case o => o)
    case Apply(f, l) =>
      (match Eval(fuel, f, st, c, depth)
       case Val(fv, st1) =>
         (match Eval(fuel, l, st1, c, depth + 1)
          case Val(lv, st2) => EvalApply(fuel, e, fv, lv, st2, depth)
          case o => o)
       case o => o)
  }

  // Every form but the last is evaluated for its effect.
  function EvalDo(fuel: nat, es: Exprs, st: Store, c: nat, depth: nat): Outcome
    decreases fuel, es, 0
  {
    match es
    case End => Malformed
    case More(e, End) => Eval(fuel, e, st, c, depth)
    case More(e, rest) =>
      (match Eval(fuel, e, st, c, depth)
       case Val(_, st1) => EvalDo(fuel, rest, st1, c, depth)
       case o => o)
  }

  // `last` is the value of the previous iteration; it sits on the stack while
  // the test runs.
  function EvalWhile(fuel: nat, e: Expr, last: Value, st: Store, c: nat, depth: nat): Outcome
    requires e.While?
    decreases fuel, e, 0
  {
    match Eval(fuel, e.test, st, c, depth + 1)
    case Val(t, st1) =>
      if !Truthy(t) then Val(last, st1)
      else if fuel == 0 then Timeout
      else
        (match EvalDo(fuel, e.loop, st1, c, depth)
         case Val(v, st2) => EvalWhile(fuel - 1, e, v, st2, c, depth)
         case o => o)
    case o => o
  }

  function EvalAnd(fuel: nat, es: Exprs, st: Store, c: nat, depth: nat): Outcome
    decreases fuel, es, 0
  {
    match es
    case End => Val(Nil, st)
    case More(e, End) => Eval(fuel, e, st, c, depth)
    case More(e, rest) =>
      (match Eval(fuel, e, st, c, depth)
       case Val(v, st1) => if Truthy(v) then EvalAnd(fuel, rest, st1, c, depth) else Val(v, st1)
       case o => o)
  }

  function EvalOr(fuel: nat, es: Exprs, st: Store, c: nat, depth: nat): Outcome
    decreases fuel, es, 0
  {
    match es
    case End => Val(Bool(false), st)
    case More(e, rest) =>
      (match Eval(fuel, e, st, c, depth)
       case Val(v, st1) => if Truthy(v) then Val(v, st1) else EvalOr(fuel, rest, st1, c, depth)
       case o => o)
  }

  // Arguments are evaluated left to right, each with the previous ones below it.
  function EvalArgs(fuel: nat, es: Exprs, st: Store, c: nat, depth: nat): Outcomes
    decreases fuel, es, 0
  {
    match es
    case End => Vals([], st)
    case More(e, rest) =>
      (match Eval(fuel, e, st, c, depth)
       case Val(v, st1) =>
         (match EvalArgs(fuel, rest, st1, c, depth + 1)
          case Vals(vs, st2) => Vals([v] + vs, st2)
          case o => o)
       case o => Stop(o))
  }

  // The application `e` of the value `fv` to an argument list.
  function EvalApply(fuel: nat, e: Expr, fv: Value, args: Value, st: Store, depth: nat): Outcome
    decreases fuel, e, 0
  {
    match fv
    case Lambda(id) =>
      if id >= |st| || st[id].fn.None? then Malformed
      else if depth > MAX_SP then TooDeep
      else if fuel == 0 then Timeout
      else
        var fn := st[id].fn.value;
        var frame := Scope(Some(id), BindList(fn.params, args, map[]), None);
        (match Eval(fuel - 1, fn.code, st + [frame], |st|, depth)
         case Ret(v, st1) => Val(v, st1)
         case o => o)
    case Kw(_) => Unsupported
    case _ => Raise(CantApply(fv), st)
  }
}
