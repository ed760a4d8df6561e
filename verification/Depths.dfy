// Bytecode with a plan of heights, values that hold no other bytecode, and why
// every compiled procedure is such bytecode.
module Depths {
  import opened Values
  import opened Primitives
  import opened Source
  import opened Assembler
  import opened Compiler
  import opened Machine
  import opened Simulation
  import opened Heights

  // ---- bytecode that has a plan, and values that hold only such bytecode

  // The greatest heights a plan may have.
  datatype Limit = Unlimited | AtMost(depth: nat, scopes: nat)

  predicate Within(z: Limit, h: Height) { z.AtMost? ==> h.depth <= z.depth && h.scopes <= z.scopes }

  predicate PlanWithin(z: Limit, plan: Plan) { forall q :: q in plan ==> Within(z, plan[q]) }

  ghost predicate HasPlan(z: Limit, t: Text) {
    exists plan :: Planned(t, plan) && PlanWithin(z, plan)
  }

  ghost function PlanOf(z: Limit, t: Text): (plan: Plan)
    requires HasPlan(z, t)
    ensures Planned(t, plan) && PlanWithin(z, plan)
  {
    var plan :| Planned(t, plan) && PlanWithin(z, plan);
    plan
  }

  ghost predicate Good(z: Limit, v: Value) {
    match v
    case Bytecode(t) => HasPlan(z, t) && forall i :: 0 <= i < |t.literals| ==> Good(z, t.literals[i])
    case Pair(a, d) => Good(z, a) && Good(z, d)
    case _ => true
  }

  ghost predicate GoodText(z: Limit, t: Text) {
    HasPlan(z, t) && forall i :: 0 <= i < |t.literals| ==> Good(z, t.literals[i])
  }

  ghost predicate GoodAll(z: Limit, vs: seq<Value>) {
    forall i :: 0 <= i < |vs| ==> Good(z, vs[i])
  }

  ghost predicate GoodData(z: Limit, data: map<Symbol, Value>) {
    forall s :: s in data ==> Good(z, data[s])
  }

  ghost predicate GoodHeap(z: Limit, heap: seq<Closure>) {
    forall i :: 0 <= i < |heap| ==> GoodData(z, heap[i].data) && Good(z, heap[i].args) && GoodText(z, heap[i].text)
  }

  // ---- compiled procedures have plans

  const START := Height(0, 0)

  function HeightsOf(e: Expr): Plan {
    map l: nat | l < Compile(e, 0).next && LabelHeight(e, 0, START, l).Some? :: LabelHeight(e, 0, START, l).value
  }

  lemma HeightsAgree(e: Expr)
    ensures Agrees(HeightsOf(e), e, 0, START)
  {
    hide LabelHeight, Compile;
  }

  lemma FormFlows(e: Expr)
    requires WfExpr(e)
    ensures Flow(CompileForm(e), Some(START), HeightsOf(e)) == Some(Some(Up(START)))
  {
    hide Flow, Past, Joins, Shape, LabelHeight, Agrees, HeightsOf, Compile, WfExpr;
    HeightsAgree(e);
    FlowExpr(e, 0, START, HeightsOf(e));
    NextGrows(e, 0);
    PastCalls(0, START);
    FlowOne(OP_RET, Up(START), HeightsOf(e));
    FlowL2(Compile(e, 0).code, Emit1(OP_RET), Some(START), Some(Up(START)), HeightsOf(e));
  }

  function PlanFor(e: Expr): Plan {
    var t := FnText(e);
    (map q: nat | q < |t.data| && HeightAt(t, CompileForm(e), 0, Some(START), HeightsOf(e), q).Some? ::
       HeightAt(t, CompileForm(e), 0, Some(START), HeightsOf(e), q).value)[|t.data| := Up(START)]
  }

  // No height planned for the compiled form passes the limit.
  predicate LowForm(z: Limit, e: Expr) { PlanWithin(z, PlanFor(e)) }

  lemma FormClosed(e: Expr)
    ensures Targets(CompileForm(e)) <= Labels(CompileForm(e))
  {
    CompileClosed(e, 0);
    ThenClosed(Compile(e, 0), Emit1(OP_RET), 0);
  }

  // A compiled and assembled procedure has a plan.
  lemma ProcedureIsPlanned(e: Expr)
    requires WfExpr(e) && Assembles(CompileForm(e))
    ensures Planned(FnText(e), PlanFor(e))
  {
    hide Flow, At, After, CompileForm, FnText, HeightAt, HeightsOf, InstrPlanned, WfExpr, Assembles, Goes;
    var t, code, heights, plan := FnText(e), CompileForm(e), HeightsOf(e), PlanFor(e);
    var labels := FormPlaced(e);
    FormFlows(e);
    FormClosed(e);
    PlanFits(e, labels);
    StartsPlanned(plan, t, labels, code, 0, Some(START), heights);
    forall q | q in plan && q < |t.data| ensures InstrPlanned(t, q, plan[q], plan) {
      CodePlanned(plan, t, labels, code, 0, Some(START), heights, Labels(code), q);
    }
  }

  lemma FormPlaced(e: Expr) returns (labels: map<nat, nat>)
    requires WfExpr(e) && Assembles(CompileForm(e))
    ensures At(FnText(e), labels, CompileForm(e), 0) && After(FnText(e), CompileForm(e), 0) == |FnText(e).data|
  {
    hide At, After, Flatten, BuildLits;
    CompileClosed(e, 0);
    ThenClosed(Compile(e, 0), Emit1(OP_RET), 0);
    AssembledIsPlaced(CompileForm(e));
    labels := LabelMap(CompileForm(e));
  }

  lemma PlanFits(e: Expr, labels: map<nat, nat>)
    requires At(FnText(e), labels, CompileForm(e), 0) && After(FnText(e), CompileForm(e), 0) == |FnText(e).data|
    requires Flow(CompileForm(e), Some(START), HeightsOf(e)) == Some(Some(Up(START)))
    ensures Fitting(PlanFor(e), FnText(e), labels, CompileForm(e), 0, Some(START), HeightsOf(e))
  {
    hide Flow, At, After, CompileForm, FnText, HeightAt, HeightsOf;
  }

  // ---- the literals of compiled code

  // No bytecode in literals but planned bytecode within the limit, and no
  // procedure that passes it.
  ghost predicate GoodExpr(z: Limit, e: Expr)
    decreases e, 0
  {
    match e
    case Lit(v) => Good(z, v)
    case Quote(q) => Good(z, q)
    case Var(_) => true
    case Do(body) => GoodExprs(z, body)
    case Let(body) => GoodExprs(z, body)
    case Def(_, v) => GoodExpr(z, v)
    case Set(_, v) => GoodExpr(z, v)
    case If(a, b, c) => GoodExpr(z, a) && GoodExpr(z, b) && GoodExpr(z, c)
    case While(t, body) => GoodExpr(z, t) && GoodExprs(z, body)
    case And(es) => GoodExprs(z, es)
    case Or(es) => GoodExprs(z, es)
    case Fn(params, meta, code) => Good(z, params) && Good(z, meta) && GoodExpr(z, code) && LowForm(z, code)
    case Return(r) => GoodExpr(z, r)
    case Prim1(_, a) => GoodExpr(z, a)
    case Prim2(_, a, b) => GoodExpr(z, a) && GoodExpr(z, b)
    case MakeList(es) => GoodExprs(z, es)
    case Call(f, args) => GoodExpr(z, f) && GoodExprs(z, args)
    case Apply(f, l) => GoodExpr(z, f) && GoodExpr(z, l)
  }

  ghost predicate GoodExprs(z: Limit, es: Exprs)
    decreases es, 0
  {
    match es
    case End => true
    case More(e, rest) => GoodExpr(z, e) && GoodExprs(z, rest)
  }

  ghost predicate GoodItem(z: Limit, it: Item) { it.Lit? ==> Good(z, it.v) }

  ghost predicate GoodCode(z: Limit, code: Code) {
    match code
    case Blank => true
    case Atom(it) => GoodItem(z, it)
    case Cell(a, d) => GoodCode(z, a) && GoodCode(z, d)
  }

  lemma GoodJoin(z: Limit, a: Code, d: Code)
    ensures GoodCode(z, Join(a, d)) <==> GoodCode(z, a) && GoodCode(z, d)
  {
  }

  lemma GoodL1(z: Limit, a: Code)
    ensures GoodCode(z, L1(a)) <==> GoodCode(z, a)
  {
    GoodJoin(z, a, Blank);
  }

  lemma GoodL2(z: Limit, a: Code, b: Code)
    ensures GoodCode(z, L2(a, b)) <==> GoodCode(z, a) && GoodCode(z, b)
  {
    GoodJoin(z, a, L1(b));
    GoodL1(z, b);
  }

  lemma GoodL3(z: Limit, a: Code, b: Code, c: Code)
    ensures GoodCode(z, L3(a, b, c)) <==> GoodCode(z, a) && GoodCode(z, b) && GoodCode(z, c)
  {
    GoodJoin(z, a, L2(b, c));
    GoodL2(z, b, c);
  }

  lemma GoodPieces(z: Limit, op: int, n: int, l: nat, v: Value)
    ensures GoodCode(z, Blank) && GoodCode(z, Emit1(op)) && GoodCode(z, Emit2(op, n)) && GoodCode(z, EmitJump(op, l)) && GoodCode(z, EmitLabel(l))
    ensures IsLitOp(op) && Good(z, v) ==> GoodCode(z, EmitLit(op, v))
  {
    hide Good;
    GoodL2(z, Atom(Op(op)), Atom(Op(n)));
    GoodL3(z, Atom(Op(op)), Atom(Reloc(l, 8, 0)), Atom(Reloc(l, 0, 1)));
  }

  lemma GoodL4(z: Limit, a: Code, b: Code, c: Code, d: Code)
    ensures GoodCode(z, L4(a, b, c, d)) <==> GoodCode(z, a) && GoodCode(z, b) && GoodCode(z, c) && GoodCode(z, d)
  {
    GoodJoin(z, a, L3(b, c, d));
    GoodL3(z, b, c, d);
  }

  lemma GoodL5(z: Limit, a: Code, b: Code, c: Code, d: Code, e: Code)
    ensures GoodCode(z, L5(a, b, c, d, e)) <==> GoodCode(z, a) && GoodCode(z, b) && GoodCode(z, c) && GoodCode(z, d) && GoodCode(z, e)
  {
    GoodJoin(z, a, L4(b, c, d, e));
    GoodL4(z, b, c, d, e);
  }

  lemma GoodL7(z: Limit, a: Code, b: Code, c: Code, d: Code, e: Code, f: Code, g: Code)
    ensures GoodCode(z, L7(a, b, c, d, e, f, g)) <==>
            GoodCode(z, a) && GoodCode(z, b) && GoodCode(z, c) && GoodCode(z, d) && GoodCode(z, e) && GoodCode(z, f) && GoodCode(z, g)
  {
    GoodJoin(z, a, Join(b, L5(c, d, e, f, g)));
    GoodJoin(z, b, L5(c, d, e, f, g));
    GoodL5(z, c, d, e, f, g);
  }

  lemma GoodConstant(z: Limit, v: Value)
    requires Good(z, v)
    ensures GoodCode(z, CompileLit(v)) && GoodCode(z, CompileQuote(v))
  {
    hide GoodCode, Shape, Good, Emit1, Emit2, EmitLit, Joins;
    GoodPieces(z, OP_PUSH, 0, 0, v);
    GoodPieces(z, OP_GET, 0, 0, v);
    GoodPieces(z, OP_NIL, 0, 0, v);
    GoodPieces(z, OP_TRUE, 0, 0, v);
    GoodPieces(z, OP_FALSE, 0, 0, v);
    GoodL1(z, EmitLit(OP_GET, v));
    if v.Int? {
      GoodPieces(z, OP_INT_BYTE, v.i, 0, v);
    }
  }

  lemma {:induction false} CompileGood(z: Limit, e: Expr, n: nat)
    requires GoodExpr(z, e) && WfExpr(e)
    ensures GoodCode(z, Compile(e, n).code)
    decreases e, 1
  {
    hide GoodCode, Joins, Shape, CompileLit, CompileQuote, Emit1, Emit2, EmitLit, EmitJump, EmitLabel, Good,
         CompileDo, CompileAnd, CompileOr, CompileArgs, FnText;
    match e
    case Lit(v) => GoodConstant(z, v);
    case Quote(q) => GoodConstant(z, q);
    case Var(x) => SymbolGood(z, OP_GET, x);
    case Do(body) =>
      DoGood(z, body, n);
      GoodL1(z, CompileDo(body, n).code);
    case Let(body) => LetGood(z, body, n);
    case Def(x, v) =>
      CompileGood(z, v, n);
      SymbolGood(z, OP_DEF, x);
      GoodL2(z, Compile(v, n).code, EmitLit(OP_DEF, Sym(x)));
    case Set(x, v) =>
      CompileGood(z, v, n);
      SymbolGood(z, OP_SET, x);
      GoodL2(z, Compile(v, n).code, EmitLit(OP_SET, Sym(x)));
    case If(_, _, _) => IfGood(z, e, n);
    case While(_, _) => WhileGood(z, e, n);
    case And(es) =>
      AndGood(z, es, n, n + 1);
      GoodPieces(z, OP_NIL, 0, n, Nil);
      GoodL2(z, CompileAnd(es, n, n + 1).code, EmitLabel(n));
    case Or(es) =>
      OrGood(z, es, n, n + 1);
      FalseGood(z, n);
      GoodL3(z, CompileOr(es, n, n + 1).code, EmitLit(OP_PUSH, Bool(false)), EmitLabel(n));
    case Fn(_, _, _) => FnGood(z, e, n);
    case Return(v) =>
      CompileGood(z, v, n);
      GoodPieces(z, OP_RET, 0, 0, Nil);
      GoodL2(z, Compile(v, n).code, Emit1(OP_RET));
    case Prim1(op, a) =>
      CompileGood(z, a, n);
      PrimGood(z, op);
      GoodL2(z, Compile(a, n).code, EmitPrim1(op));
    case Prim2(op, a, b) => Prim2Good(z, e, n);
    case MakeList(es) =>
      ArgsGood(z, es, n);
      GoodPieces(z, OP_LIST, Length(es), 0, Nil);
      GoodL2(z, CompileArgs(es, n).code, Emit2(OP_LIST, Length(es)));
    case Call(f, args) =>
      CompileGood(z, f, n);
      ArgsGood(z, args, Compile(f, n).next);
      GoodPieces(z, OP_APPLY, Length(args), 0, Nil);
      GoodL3(z, Compile(f, n).code, CompileArgs(args, Compile(f, n).next).code, Emit2(OP_APPLY, Length(args)));
    case Apply(f, l) =>
      CompileGood(z, f, n);
      CompileGood(z, l, Compile(f, n).next);
      GoodPieces(z, OP_APPLY_COLLECTION, 0, 0, Nil);
      GoodL3(z, Compile(f, n).code, Compile(l, Compile(f, n).next).code, Emit1(OP_APPLY_COLLECTION));
  }

  lemma SymbolGood(z: Limit, op: int, x: Symbol)
    requires IsLitOp(op)
    ensures GoodCode(z, EmitLit(op, Sym(x))) && GoodCode(z, L1(EmitLit(op, Sym(x))))
  {
  }

  lemma FalseGood(z: Limit, n: nat)
    ensures GoodCode(z, EmitLit(OP_PUSH, Bool(false))) && GoodCode(z, EmitLabel(n))
  {
  }

  lemma PrimGood(z: Limit, op: Op1)
    ensures GoodCode(z, EmitPrim1(op))
  {
  }

  lemma {:induction false} Prim2Good(z: Limit, e: Expr, n: nat)
    requires e.Prim2? && GoodExpr(z, e) && WfExpr(e)
    ensures GoodCode(z, Compile(e, n).code)
    decreases e, 0
  {
    hide GoodCode, Joins, Shape, Emit1;
    var c := Compile(e.left, n);
    var d := Compile(e.right, c.next);
    CompileGood(z, e.left, n);
    CompileGood(z, e.right, c.next);
    GoodPieces(z, Byte2(e.op2), 0, 0, Nil);
    GoodJoin(z, c.code, d.code);
    GoodL2(z, Join(c.code, d.code), Emit1(Byte2(e.op2)));
  }

  lemma {:induction false} LetGood(z: Limit, body: Exprs, n: nat)
    requires GoodExprs(z, body) && WfExprs(body)
    ensures GoodCode(z, L3(Emit1(OP_LET), L1(CompileDo(body, n).code), Emit1(OP_CLOSURE_POP)))
    decreases body, 3
  {
    hide GoodCode, Joins, Shape, Emit1, CompileDo;
    DoGood(z, body, n);
    GoodPieces(z, OP_LET, 0, 0, Nil);
    GoodPieces(z, OP_CLOSURE_POP, 0, 0, Nil);
    GoodL1(z, CompileDo(body, n).code);
    GoodL3(z, Emit1(OP_LET), L1(CompileDo(body, n).code), Emit1(OP_CLOSURE_POP));
  }

  lemma {:induction false} IfGood(z: Limit, e: Expr, n: nat)
    requires e.If? && GoodExpr(z, e) && WfExpr(e)
    ensures GoodCode(z, Compile(e, n).code)
    decreases e, 0
  {
    hide GoodCode, Joins, Shape, EmitJump, EmitLabel;
    var c := Compile(e.cond, n + 2);
    var t := Compile(e.thn, c.next);
    var f := Compile(e.els, t.next);
    CompileGood(z, e.cond, n + 2);
    CompileGood(z, e.thn, c.next);
    CompileGood(z, e.els, t.next);
    GoodPieces(z, OP_JF, 0, n, Nil);
    GoodPieces(z, OP_JMP, 0, n + 1, Nil);
    GoodL7(z, c.code, EmitJump(OP_JF, n), t.code, EmitJump(OP_JMP, n + 1), EmitLabel(n), f.code, EmitLabel(n + 1));
  }

  lemma {:induction false} WhileGood(z: Limit, e: Expr, n: nat)
    requires e.While? && GoodExpr(z, e) && WfExpr(e)
    ensures GoodCode(z, Compile(e, n).code)
    decreases e, 0
  {
    hide GoodCode, Joins, Shape, EmitJump, EmitLabel, Emit1, CompileDo;
    var b := CompileDo(e.loop, n + 2);
    var c := Compile(e.test, b.next);
    DoGood(z, e.loop, n + 2);
    CompileGood(z, e.test, b.next);
    GoodPieces(z, OP_NIL, 0, n, Nil);
    GoodPieces(z, OP_DROP, 0, n + 1, Nil);
    GoodPieces(z, OP_JMP, 0, n + 1, Nil);
    GoodPieces(z, OP_JT, 0, n, Nil);
    GoodL7(z, EmitJump(OP_JMP, n + 1), EmitLabel(n), Emit1(OP_DROP), b.code, EmitLabel(n + 1), c.code, EmitJump(OP_JT, n));
    GoodJoin(z, Emit1(OP_NIL), L7(EmitJump(OP_JMP, n + 1), EmitLabel(n), Emit1(OP_DROP), b.code, EmitLabel(n + 1), c.code, EmitJump(OP_JT, n)));
  }

  lemma {:induction false} FnGood(z: Limit, e: Expr, n: nat)
    requires e.Fn? && GoodExpr(z, e) && WfExpr(e)
    ensures GoodCode(z, Compile(e, n).code)
    decreases e, 0
  {
    hide GoodCode, Joins, Shape, EmitLit, Emit1, CompileQuote, FnText;
    TextIsGood(z, e.code);
    GoodConstant(z, e.params);
    GoodConstant(z, e.meta);
    GoodPieces(z, OP_PUSH, 0, 0, Bytecode(FnText(e.code)));
    GoodPieces(z, OP_FN, 0, 0, Nil);
    GoodL4(z, CompileQuote(e.params), CompileQuote(e.meta), EmitLit(OP_PUSH, Bytecode(FnText(e.code))), Emit1(OP_FN));
  }

  lemma {:induction false} DoGood(z: Limit, es: Exprs, n: nat)
    requires GoodExprs(z, es) && WfExprs(es)
    ensures GoodCode(z, CompileDo(es, n).code)
    decreases es, 2
  {
    hide GoodCode, Joins, Shape, Compile, Emit1;
    GoodPieces(z, OP_DROP, 0, 0, Nil);
    if es.More? {
      var c := Compile(es.head, n);
      CompileGood(z, es.head, n);
      DoGood(z, es.tail, c.next);
      var drop := if es.tail.End? then Blank else L1(Emit1(OP_DROP));
      GoodL1(z, Emit1(OP_DROP));
      GoodJoin(z, c.code, drop);
      GoodJoin(z, Join(c.code, drop), CompileDo(es.tail, c.next).code);
    }
  }

  lemma {:induction false} AndGood(z: Limit, es: Exprs, end: nat, n: nat)
    requires GoodExprs(z, es) && WfExprs(es)
    ensures GoodCode(z, CompileAnd(es, end, n).code)
    decreases es, 2
  {
    hide GoodCode, Joins, Shape, Compile, Emit1, EmitJump;
    GoodPieces(z, OP_NIL, 0, 0, Nil);
    GoodPieces(z, OP_DUP, 0, 0, Nil);
    GoodPieces(z, OP_DROP, 0, 0, Nil);
    GoodPieces(z, OP_JF, 0, end, Nil);
    if es.End? {
      GoodL2(z, Emit1(OP_NIL), Blank);
    } else {
      var c := Compile(es.head, n);
      CompileGood(z, es.head, n);
      GoodL2(z, c.code, Blank);
      AndGood(z, es.tail, end, c.next);
      var d := CompileAnd(es.tail, end, c.next).code;
      GoodL4(z, Emit1(OP_DUP), EmitJump(OP_JF, end), Emit1(OP_DROP), d);
      GoodL2(z, c.code, L4(Emit1(OP_DUP), EmitJump(OP_JF, end), Emit1(OP_DROP), d));
    }
  }

  lemma {:induction false} OrGood(z: Limit, es: Exprs, end: nat, n: nat)
    requires GoodExprs(z, es) && WfExprs(es)
    ensures GoodCode(z, CompileOr(es, end, n).code)
    decreases es, 2
  {
    hide GoodCode, Joins, Shape, Compile, Emit1, EmitJump;
    GoodPieces(z, OP_DUP, 0, 0, Nil);
    GoodPieces(z, OP_DROP, 0, 0, Nil);
    GoodPieces(z, OP_JT, 0, end, Nil);
    if es.More? {
      var c := Compile(es.head, n);
      CompileGood(z, es.head, n);
      OrGood(z, es.tail, end, c.next);
      GoodL5(z, c.code, Emit1(OP_DUP), EmitJump(OP_JT, end), Emit1(OP_DROP), CompileOr(es.tail, end, c.next).code);
    }
  }

  lemma {:induction false} ArgsGood(z: Limit, es: Exprs, n: nat)
    requires GoodExprs(z, es) && WfExprs(es)
    ensures GoodCode(z, CompileArgs(es, n).code)
    decreases es, 2
  {
    hide GoodCode, Joins, Shape, Compile;
    GoodPieces(z, OP_DROP, 0, 0, Nil);
    if es.More? {
      var c := Compile(es.head, n);
      CompileGood(z, es.head, n);
      ArgsGood(z, es.tail, c.next);
      GoodJoin(z, c.code, CompileArgs(es.tail, c.next).code);
    }
  }

  // A compiled procedure has a plan and so has all bytecode it can reach.
  lemma {:induction false} TextIsGood(z: Limit, e: Expr)
    requires GoodExpr(z, e) && LowForm(z, e) && WfExpr(e) && Assembles(CompileForm(e))
    ensures GoodText(z, FnText(e)) && Good(z, Bytecode(FnText(e)))
    decreases e, 2
  {
    hide GoodCode, Good, Planned, PlanFor, PlanWithin, Compile, Flatten, BuildLits, Emit1, HasPlan, Joins, Shape;
    CompileGood(z, e, 0);
    GoodPieces(z, OP_RET, 0, 0, Nil);
    GoodL2(z, Compile(e, 0).code, Emit1(OP_RET));
    var code := CompileForm(e);
    CompileClosed(e, 0);
    ThenClosed(Compile(e, 0), Emit1(OP_RET), 0);
    FlattenGood(z, code, []);
    BuildLitsGood(z, Flatten(code, []), []);
    ProcedureIsPlanned(e);
    PlannedHasPlan(z, FnText(e), PlanFor(e));
    GoodBytecode(z, FnText(e));
  }

  lemma PlannedHasPlan(z: Limit, t: Text, plan: Plan)
    requires Planned(t, plan) && PlanWithin(z, plan)
    ensures HasPlan(z, t)
  {
  }

  lemma GoodBytecode(z: Limit, t: Text)
    ensures Good(z, Bytecode(t)) <==> GoodText(z, t)
  {
  }

  ghost predicate GoodItems(z: Limit, items: seq<Item>) {
    forall i :: 0 <= i < |items| ==> GoodItem(z, items[i])
  }

  lemma {:induction false} FlattenGood(z: Limit, code: Code, ret: seq<Item>)
    requires IsList(code) && GoodCode(z, code) && GoodItems(z, ret)
    ensures GoodItems(z, Flatten(code, ret))
  {
    if code.Cell? {
      FlattenGood(z, code.cdr, ret);
      if code.car.Cell? {
        FlattenGood(z, code.car, Flatten(code.cdr, ret));
      }
    }
  }

  lemma {:induction false} BuildLitsGood(z: Limit, items: seq<Item>, pool: seq<Value>)
    requires BuildLits(items, pool).Some? && GoodItems(z, items) && GoodAll(z, pool)
    ensures GoodAll(z, BuildLits(items, pool).value.pool)
    decreases |items|
  {
    hide Good;
    if items != [] {
      match items[0]
      case Lit(op, v) =>
        assert GoodItem(z, items[0]);
        BuildLitsGood(z, items[1..], AddLiteral(v, pool).value.pool);
      case _ => BuildLitsGood(z, items[1..], pool);
    }
  }
}
