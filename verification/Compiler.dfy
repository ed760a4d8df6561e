// The bytecode compiler: expanded forms to symbolic code.  `n` is the gensym
// counter, threaded through in evaluation order.
module Compiler {
  import opened Values
  import opened Primitives
  import opened Source
  import opened Assembler

  datatype Compiled = Compiled(code: Code, next: nat)

  // Labels made while compiling lie in [n, next), are pairwise distinct, and
  // every jump goes to one of them or to `outer`.
  ghost predicate Closed(r: Compiled, n: nat, outer: set<nat>) {
    && n <= r.next
    && IsList(r.code)
    && Distinct(r.code)
    && (forall l :: l in Labels(r.code) ==> n <= l < r.next)
    && Targets(r.code) <= Labels(r.code) + outer
    && Regular(r.code)
  }

  function Byte1(op: Op1): int {
    match op
    case CarOp => 0x11
    case CdrOp => 0x12
    case CadrOp => 0x2C
    case ZeroP => 0x2A
    case IncInt => 0x23
    case ThrowOp => 0x2F
    case NotOp => 0x36
  }

  function Byte2(op: Op2): int {
    match op
    case AddInt => 0x03
    case Add => 0x25
    case Sub => 0x26
    case Mul => 0x27
    case Cons => 0x14
    case Lt => 0x1E
    case Le => 0x1F
    case Eq => 0x20
    case Ge => 0x21
    case Gt => 0x22
    case Ne => 0x38
    case And => 0x33
    case Ior => 0x34
    case Xor => 0x35
  }

  // $throw is a bare opcode, the others are one-element lists.
  function EmitPrim1(op: Op1): (r: Code)
    ensures Shape(r, {}, {})
  {
    if op == ThrowOp then Atom(Op(Byte1(op))) else Emit1(Byte1(op))
  }

  function CompileLit(v: Value): (r: Code)
    ensures Shape(r, {}, {})
  {
    match v
    case Int(i) => PushInt(i)
    case Nil => Emit1(OP_NIL)
    case Bool(b) => Emit1(if b then OP_TRUE else OP_FALSE)
    case Sym(_) => L1(EmitLit(OP_GET, v))
    case _ => EmitLit(OP_PUSH, v)
  }

  function CompileQuote(v: Value): (r: Code)
    ensures Shape(r, {}, {}) && IsList(r)
  {
    match v
    case Nil => Emit1(OP_NIL)
    case Int(i) => PushInt(i)
    case _ => EmitLit(OP_PUSH, v)
  }

  function Compile(e: Expr, n: nat): Compiled
    decreases e, 0
  {
    match e
    case Lit(v) => Compiled(CompileLit(v), n)
    case Quote(q) => Compiled(CompileQuote(q), n)
    case Var(x) => Compiled(L1(EmitLit(OP_GET, Sym(x))), n)
    case Do(body) =>
      var b := CompileDo(body, n);
      Compiled(L1(b.code), b.next)
    case Let(body) =>
      var b := CompileDo(body, n);
      Compiled(L3(Emit1(OP_LET), L1(b.code), Emit1(OP_CLOSURE_POP)), b.next)
    case Def(x, v) =>
      var c := Compile(v, n);
      Compiled(L2(c.code, EmitLit(OP_DEF, Sym(x))), c.next)
    case Set(x, v) =>
      var c := Compile(v, n);
      Compiled(L2(c.code, EmitLit(OP_SET, Sym(x))), c.next)
    case If(cond, thn, els) =>
      var symElse, symAfter := n, n + 1;
      var c := Compile(cond, n + 2);
      var t := Compile(thn, c.next);
      var f := Compile(els, t.next);
      Compiled(
        L7(c.code, EmitJump(OP_JF, symElse), t.code, EmitJump(OP_JMP, symAfter),
           EmitLabel(symElse), f.code, EmitLabel(symAfter)),
        f.next)
    case While(test, loop) =>
      var symStart, symEnd := n, n + 1;
      var b := CompileDo(loop, n + 2);
      var c := Compile(test, b.next);
      Compiled(
        L8(Emit1(OP_NIL), EmitJump(OP_JMP, symEnd), EmitLabel(symStart), Emit1(OP_DROP),
           b.code, EmitLabel(symEnd), c.code, EmitJump(OP_JT, symStart)),
        c.next)
    case And(es) =>
      var c := CompileAnd(es, n, n + 1);
      Compiled(L2(c.code, EmitLabel(n)), c.next)
    case Or(es) =>
      var c := CompileOr(es, n, n + 1);
      Compiled(L3(c.code, EmitLit(OP_PUSH, Bool(false)), EmitLabel(n)), c.next)
    case Fn(params, meta, code) =>
      Compiled(
        L4(CompileQuote(params), CompileQuote(meta), EmitLit(OP_PUSH, Bytecode(FnText(code))), Emit1(OP_FN)), n)
    case Return(v) =>
      var c := Compile(v, n);
      Compiled(L2(c.code, Emit1(OP_RET)), c.next)
    case Prim1(op, a) =>
      var c := Compile(a, n);
      Compiled(L2(c.code, EmitPrim1(op)), c.next)
    case Prim2(op, a, b) =>
      var c := Compile(a, n);
      var d := Compile(b, c.next);
      Compiled(L2(Join(c.code, d.code), Emit1(Byte2(op))), d.next)
    case MakeList(es) =>
      var c := CompileArgs(es, n);
      Compiled(L2(c.code, Emit2(OP_LIST, Length(es))), c.next)
    case Call(f, args) =>
      var c := Compile(f, n);
      var d := CompileArgs(args, c.next);
      Compiled(L3(c.code, d.code, Emit2(OP_APPLY, Length(args))), d.next)
    case Apply(f, l) =>
      var c := Compile(f, n);
      var d := Compile(l, c.next);
      Compiled(L3(c.code, d.code, Emit1(OP_APPLY_COLLECTION)), d.next)
  }

  function CompileDo(es: Exprs, n: nat): Compiled
    decreases es, 0
  {
    match es
    case End => Compiled(Blank, n)
    case More(e, rest) =>
      var c := Compile(e, n);
      var d := CompileDo(rest, c.next);
      Compiled(Join(Join(c.code, if rest.End? then Blank else L1(Emit1(OP_DROP))), d.code), d.next)
  }

  function CompileAnd(es: Exprs, end: nat, n: nat): Compiled
    decreases es, 0
  {
    match es
    case End => Compiled(L2(Emit1(OP_NIL), Blank), n)
    case More(e, rest) =>
      var c := Compile(e, n);
      if rest.End? then Compiled(L2(c.code, Blank), c.next)
      else
        var d := CompileAnd(rest, end, c.next);
        Compiled(L2(c.code, L4(Emit1(OP_DUP), EmitJump(OP_JF, end), Emit1(OP_DROP), d.code)), d.next)
  }

  function CompileOr(es: Exprs, end: nat, n: nat): Compiled
    decreases es, 0
  {
    match es
    case End => Compiled(Blank, n)
    case More(e, rest) =>
      var c := Compile(e, n);
      var d := CompileOr(rest, end, c.next);
      Compiled(L5(c.code, Emit1(OP_DUP), EmitJump(OP_JT, end), Emit1(OP_DROP), d.code), d.next)
  }

  // The last argument's code is spliced into the list.
  function CompileArgs(es: Exprs, n: nat): Compiled
    decreases es, 0
  {
    match es
    case End => Compiled(Blank, n)
    case More(e, rest) =>
      var c := Compile(e, n);
      if rest.End? then c
      else
        var d := CompileArgs(rest, c.next);
        Compiled(Join(c.code, d.code), d.next)
  }

  // A whole form: its code, then $ret.
  function CompileForm(e: Expr): Code
    decreases e, 1
  {
    L2(Compile(e, 0).code, Emit1(OP_RET))
  }

  // The body of a procedure is compiled and assembled on its own.  An assembly
  // error is raised at compile time; the theorems exclude it by `Assembles`.
  function FnText(body: Expr): Text
    decreases body, 2
  {
    match Assemble(CompileForm(body))
    case Some(t) => t
    case None => Text([], [])
  }

  // ---- labels are well formed

  lemma IfClosed(c: Compiled, t: Compiled, f: Compiled, n: nat)
    requires Closed(c, n + 2, {}) && Closed(t, c.next, {}) && Closed(f, t.next, {})
    ensures Closed(Compiled(
                     L7(c.code, EmitJump(OP_JF, n), t.code, EmitJump(OP_JMP, n + 1),
                        EmitLabel(n), f.code, EmitLabel(n + 1)),
                     f.next), n, {})
  {
    var tail := L3(EmitLabel(n), f.code, EmitLabel(n + 1));
    assert Shape(tail, {n} + Labels(f.code) + {n + 1}, Targets(f.code));
  }

  lemma WhileClosed(b: Compiled, c: Compiled, n: nat)
    requires Closed(b, n + 2, {}) && Closed(c, b.next, {})
    ensures Closed(Compiled(
                     L8(Emit1(OP_NIL), EmitJump(OP_JMP, n + 1), EmitLabel(n), Emit1(OP_DROP),
                        b.code, EmitLabel(n + 1), c.code, EmitJump(OP_JT, n)),
                     c.next), n, {})
  {
    var tail := L4(b.code, EmitLabel(n + 1), c.code, EmitJump(OP_JT, n));
    assert Shape(tail, Labels(b.code) + {n + 1} + Labels(c.code), Targets(b.code) + Targets(c.code) + {n});
  }

  lemma LeafClosed(v: Value, n: nat)
    ensures Closed(Compiled(CompileLit(v), n), n, {})
    ensures Closed(Compiled(CompileQuote(v), n), n, {})
    ensures Closed(Compiled(L1(EmitLit(OP_GET, v)), n), n, {})
  {
  }

  lemma ThenClosed(c: Compiled, x: Code, n: nat)
    requires Closed(c, n, {}) && Shape(x, {}, {})
    ensures Closed(Compiled(L2(c.code, x), c.next), n, {})
  {
  }

  lemma BothClosed(c: Compiled, d: Compiled, x: Code, n: nat)
    requires Closed(c, n, {}) && Closed(d, c.next, {}) && Shape(x, {}, {})
    ensures Closed(Compiled(L2(Join(c.code, d.code), x), d.next), n, {})
    ensures Closed(Compiled(L3(c.code, d.code, x), d.next), n, {})
  {
  }

  lemma LetClosed(b: Compiled, n: nat)
    requires Closed(b, n, {})
    ensures Closed(Compiled(L1(b.code), b.next), n, {})
    ensures Closed(Compiled(L3(Emit1(OP_LET), L1(b.code), Emit1(OP_CLOSURE_POP)), b.next), n, {})
  {
  }

  lemma EndLabelClosed(c: Compiled, n: nat)
    requires Closed(c, n + 1, {n})
    ensures Closed(Compiled(L2(c.code, EmitLabel(n)), c.next), n, {})
    ensures Closed(Compiled(L3(c.code, EmitLit(OP_PUSH, Bool(false)), EmitLabel(n)), c.next), n, {})
  {
  }

  lemma FnClosed(params: Value, meta: Value, text: Text, n: nat)
    ensures Closed(Compiled(L4(CompileQuote(params), CompileQuote(meta), EmitLit(OP_PUSH, Bytecode(text)),
                               Emit1(OP_FN)), n), n, {})
  {
  }

  lemma {:induction false} CompileClosed(e: Expr, n: nat)
    ensures Closed(Compile(e, n), n, {})
    decreases e
  {
    hide Closed, Shape, Joins, IsList, Distinct, Labels, Targets, Regular, CompileLit, CompileQuote, CompileDo, CompileAnd, CompileOr,
      CompileArgs, FnText, EmitPrim1, EmitLit, EmitJump, EmitLabel, Emit1, Emit2, Length;
    match e
    case Lit(v) => LeafClosed(v, n);
    case Quote(q) => LeafClosed(q, n);
    case Var(x) => LeafClosed(Sym(x), n);
    case Do(body) =>
      CompileDoClosed(body, n);
      LetClosed(CompileDo(body, n), n);
    case Let(body) =>
      CompileDoClosed(body, n);
      LetClosed(CompileDo(body, n), n);
    case Def(x, v) =>
      CompileClosed(v, n);
      ThenClosed(Compile(v, n), EmitLit(OP_DEF, Sym(x)), n);
    case Set(x, v) =>
      CompileClosed(v, n);
      ThenClosed(Compile(v, n), EmitLit(OP_SET, Sym(x)), n);
    case If(cond, thn, els) =>
      CompileClosed(cond, n + 2);
      var c := Compile(cond, n + 2);
      CompileClosed(thn, c.next);
      var t := Compile(thn, c.next);
      CompileClosed(els, t.next);
      IfClosed(c, t, Compile(els, t.next), n);
    case While(test, loop) =>
      CompileDoClosed(loop, n + 2);
      var b := CompileDo(loop, n + 2);
      CompileClosed(test, b.next);
      WhileClosed(b, Compile(test, b.next), n);
    case And(es) =>
      CompileAndClosed(es, n, n + 1);
      EndLabelClosed(CompileAnd(es, n, n + 1), n);
    case Or(es) =>
      CompileOrClosed(es, n, n + 1);
      EndLabelClosed(CompileOr(es, n, n + 1), n);
    case Fn(params, meta, code) =>
      FnClosed(params, meta, FnText(code), n);
    case Return(v) =>
      CompileClosed(v, n);
      ThenClosed(Compile(v, n), Emit1(OP_RET), n);
    case Prim1(op, a) =>
      CompileClosed(a, n);
      ThenClosed(Compile(a, n), EmitPrim1(op), n);
    case Prim2(op, a, b) =>
      CompileClosed(a, n);
      CompileClosed(b, Compile(a, n).next);
      BothClosed(Compile(a, n), Compile(b, Compile(a, n).next), Emit1(Byte2(op)), n);
    case MakeList(es) =>
      CompileArgsClosed(es, n);
      ThenClosed(CompileArgs(es, n), Emit2(OP_LIST, Length(es)), n);
    case Call(f, args) =>
      CompileClosed(f, n);
      var c := Compile(f, n);
      CompileArgsClosed(args, c.next);
      BothClosed(c, CompileArgs(args, c.next), Emit2(OP_APPLY, Length(args)), n);
    case Apply(f, l) =>
      CompileClosed(f, n);
      var c := Compile(f, n);
      CompileClosed(l, c.next);
      BothClosed(c, Compile(l, c.next), Emit1(OP_APPLY_COLLECTION), n);
  }

  lemma {:induction false} CompileDoClosed(es: Exprs, n: nat)
    ensures Closed(CompileDo(es, n), n, {})
    decreases es
  {
    if es.More? {
      CompileClosed(es.head, n);
      var c := Compile(es.head, n).code;
      var first := Join(c, if es.tail.End? then Blank else L1(Emit1(OP_DROP)));
      assert Shape(first, Labels(c), Targets(c));
      CompileDoClosed(es.tail, Compile(es.head, n).next);
    }
  }

  lemma {:induction false} CompileAndClosed(es: Exprs, end: nat, n: nat)
    requires end < n
    ensures Closed(CompileAnd(es, end, n), n, {end})
    decreases es
  {
    if es.More? {
      CompileClosed(es.head, n);
      CompileAndClosed(es.tail, end, Compile(es.head, n).next);
    }
  }

  lemma {:induction false} CompileOrClosed(es: Exprs, end: nat, n: nat)
    requires end < n
    ensures Closed(CompileOr(es, end, n), n, {end})
    decreases es
  {
    if es.More? {
      CompileClosed(es.head, n);
      CompileOrClosed(es.tail, end, Compile(es.head, n).next);
    }
  }

  lemma {:induction false} CompileArgsClosed(es: Exprs, n: nat)
    ensures Closed(CompileArgs(es, n), n, {})
    decreases es
  {
    if es.More? {
      CompileClosed(es.head, n);
      CompileArgsClosed(es.tail, Compile(es.head, n).next);
    }
  }

  // What a caller has to check before trusting compiled code.
  lemma SmallFormAssembles(e: Expr)
    requires Assemble(CompileForm(e)).Some?
    requires |Assemble(CompileForm(e)).value.data| <= 0x7FFD && |Assemble(CompileForm(e)).value.literals| <= 256
    ensures Assembles(CompileForm(e))
  {
    hide Assemble, Assembles;
    CompileClosed(e, 0);
    ThenClosed(Compile(e, 0), Emit1(OP_RET), 0);
    SmallCodeAssembles(CompileForm(e));
  }
}
