// Forms that need more slots than the VM starts with.
module DeepForms {
  import opened Values
  import opened Source
  import opened Assembler
  import opened Compiler
  import opened Machine
  import opened Simulation
  import opened Programs
  import opened StackDepth

  // (list #nil (list #nil ... #nil)), k lists deep.
  function Nested(k: nat): Expr {
    if k == 0 then Expr.Lit(Nil) else MakeList(More(Expr.Lit(Nil), More(Nested(k - 1), End)))
  }

  lemma {:induction false} NestedIsPlain(k: nat)
    ensures WfExpr(Nested(k)) && CallFree(Nested(k))
  {
    if k > 0 {
      NestedIsPlain(k - 1);
      var es := More(Nested(k - 1), End);
      assert AllCallFree(es) && WfExprs(es);
    }
  }

  // ---- the size of the code

  // Code of plain opcodes and operands, and how many there are.
  predicate OnlyOps(code: Code) {
    match code
    case Blank => true
    case Atom(i) => i.Op?
    case Cell(a, d) => !a.Blank? && OnlyOps(a) && OnlyOps(d)
  }

  function CountOps(code: Code): nat {
    match code
    case Blank => 0
    case Atom(_) => 1
    case Cell(a, d) => CountOps(a) + CountOps(d)
  }

  predicate AllOps(items: seq<Item>) { forall i :: 0 <= i < |items| ==> items[i].Op? }

  lemma {:induction false} FlattenOps(code: Code, ret: seq<Item>)
    requires OnlyOps(code) && !code.Atom? && AllOps(ret) && IsList(code)
    ensures AllOps(Flatten(code, ret)) && |Flatten(code, ret)| == CountOps(code) + |ret|
  {
    if code.Cell? {
      FlattenOps(code.cdr, ret);
      if code.car.Cell? {
        FlattenOps(code.car, Flatten(code.cdr, ret));
      }
    }
  }

  lemma {:induction false} BuildOps(items: seq<Item>, pool: seq<Value>)
    requires AllOps(items)
    ensures BuildLits(items, pool) == Some(Resolved(items, pool)) && Size(items) == |items|
    decreases |items|
  {
    if items != [] {
      assert [items[0]] + items[1..] == items;
      BuildOps(items[1..], pool);
    }
  }

  function Elements(k: nat): Exprs { More(Expr.Lit(Nil), More(Nested(k), End)) }

  // #nil, the inner list's code, $list 2.
  lemma NestedCode(k: nat, g: nat)
    ensures var inner := Compile(Nested(k), g);
            && CompileArgs(Elements(k), g) == Compiled(Join(Emit1(OP_NIL), inner.code), inner.next)
            && Compile(Nested(k + 1), g) == Compiled(L2(Join(Emit1(OP_NIL), inner.code), Emit2(OP_LIST, 2)), inner.next)
  {
    hide Joins, Shape, Join, L2, Emit1, Emit2, Compile, CompileArgs;
    ArgsCode(Nested(k), g);
    assert Length(End) == 0 && Length(More(Nested(k), End)) == 1;
    assert Length(Elements(k)) == 2;
    assert Nested(k + 1) == MakeList(Elements(k));
    MakeListCode(Elements(k), g);
  }

  lemma MakeListCode(es: Exprs, g: nat)
    ensures var c := CompileArgs(es, g);
            Compile(MakeList(es), g) == Compiled(L2(c.code, Emit2(OP_LIST, Length(es))), c.next)
  {
    hide Joins, Shape, Join, L2, Emit1, Emit2, CompileArgs;
  }

  lemma ArgsCode(e: Expr, g: nat)
    ensures CompileArgs(More(Expr.Lit(Nil), More(e, End)), g) == Compiled(Join(Emit1(OP_NIL), Compile(e, g).code), Compile(e, g).next)
  {
    hide Joins, Shape, Join, Emit1;
    assert Compile(Expr.Lit(Nil), g) == Compiled(Emit1(OP_NIL), g);
    assert CompileArgs(More(e, End), g) == Compile(e, g);
  }

  lemma {:induction false} NestedOps(k: nat, g: nat)
    ensures Compile(Nested(k), g).next == g && CountOps(Compile(Nested(k), g).code) == 3 * k + 1
    ensures OnlyOps(Compile(Nested(k), g).code) && Compile(Nested(k), g).code.Cell?
  {
    hide Joins, Shape, Compile;
    if k == 0 {
      NilCode(g);
    } else {
      NestedOps(k - 1, g);
      NestedCode(k - 1, g);
      ListOps(Compile(Nested(k - 1), g).code);
    }
  }

  lemma ListOps(inner: Code)
    requires OnlyOps(inner) && inner.Cell?
    ensures var code := L2(Join(Emit1(OP_NIL), inner), Emit2(OP_LIST, 2));
            code.Cell? && OnlyOps(code) && CountOps(code) == CountOps(inner) + 3
  {
    hide Joins, Shape;
    var args, op := Join(Emit1(OP_NIL), inner), Emit2(OP_LIST, 2);
    assert CountOps(Emit1(OP_NIL)) == 1 && OnlyOps(Emit1(OP_NIL));
    assert CountOps(args) == 1 + CountOps(inner) && OnlyOps(args);
    assert op == Cell(Atom(Op(OP_LIST)), Cell(Atom(Op(2)), Blank));
    assert CountOps(op) == 2 && OnlyOps(op);
    assert CountOps(L1(op)) == 2 && OnlyOps(L1(op));
  }

  lemma NilCode(g: nat)
    ensures Compile(Nested(0), g) == Compiled(Emit1(OP_NIL), g)
  {
  }

  // The form assembles as long as its jump-free code fits 16-bit offsets.
  lemma NestedAssembles(k: nat)
    requires 3 * k + 2 <= 0x7FFD
    ensures Assembles(CompileForm(Nested(k)))
  {
    hide Joins, Shape, Compile, Nested, Assembles, Layout, Emit;
    var code := CompileForm(Nested(k));
    NestedIsPlain(k);
    NestedOps(k, 0);
    CompileClosed(Nested(k), 0);
    ThenClosed(Compile(Nested(k), 0), Emit1(OP_RET), 0);
    FlattenOps(code, []);
    BuildOps(Flatten(code, []), []);
    SmallFormAssembles(Nested(k));
  }

  // ---- the run

  // One more slot for each list, and one for the innermost #nil.
  lemma {:induction false} Climbs(k: nat, m: Vm, labels: map<nat, nat>, g: nat)
    requires Placed(m, labels, Compile(Nested(k), g).code)
    ensures var m' := Run(k + 1, m);
            m'.mode.Running? && m'.heap == m.heap && m'.cs == m.cs && |m'.stack| == |m.stack| + k + 1
    ensures forall i :: 0 <= i <= k + 1 ==> Run(i, m).cs == m.cs
  {
    hide Joins, Shape, Compile, At, After, Step, Nested;
    var nil := Emit1(OP_NIL);
    if k == 0 {
      NilCode(g);
      StepNil(m, labels);
      ClimbOne(m);
    } else {
      var inner := Compile(Nested(k - 1), g).code;
      NestedCode(k - 1, g);
      AtL2(m.text, labels, Join(nil, inner), Emit2(OP_LIST, 2), m.ip);
      AtCell(m.text, labels, nil, inner, m.ip);
      StepNil(m, labels);
      Climbs(k - 1, Step(m), labels, g);
      ClimbMore(k, m);
    }
  }

  lemma StepNil(m: Vm, labels: map<nat, nat>)
    requires Placed(m, labels, Emit1(OP_NIL))
    ensures Step(m) == m.(ip := AfterCode(m, Emit1(OP_NIL)), stack := m.stack + [Nil])
  {
    hide At, After, Joins, Shape;
    StepConstant(m, labels, Nil);
  }

  lemma ClimbOne(m: Vm)
    requires Step(m).cs == m.cs
    ensures Run(1, m) == Step(m) && forall i :: 0 <= i <= 1 ==> Run(i, m).cs == m.cs
  {
    hide Step;
    RunOne(m);
  }

  lemma ClimbMore(k: nat, m: Vm)
    requires Step(m).cs == m.cs && forall i :: 0 <= i <= k ==> Run(i, Step(m)).cs == m.cs
    ensures Run(k + 1, m) == Run(k, Step(m)) && forall i :: 0 <= i <= k + 1 ==> Run(i, m).cs == m.cs
  {
    hide Step;
    forall i | 0 <= i <= k + 1 ensures Run(i, m).cs == m.cs {
      if i > 0 {
        assert Run(i, m) == Run(i - 1, Step(m));
      }
    }
  }

  lemma {:induction false} NothingEntered(n: nat, m: Vm, room: Sizes)
    requires forall i :: 0 <= i <= n ==> Run(i, m).cs == m.cs
    ensures SizesOf(n, m, room) == room
  {
    hide Step;
    if n > 0 {
      RunOne(m);
      assert Run(1, m).cs == m.cs;
      forall i | 0 <= i <= n - 1 ensures Run(i, Step(m)).cs == Step(m).cs {
        assert Run(i + 1, m).cs == m.cs;
      }
      NothingEntered(n - 1, Step(m), room);
    }
  }

  // A form without any call, which the VM therefore runs on the stack of 512
  // slots that it starts with: k nested lists stay within them exactly up to
  // k = 510.
  lemma OutgrownIff(k: nat, st: Store, heap: seq<Closure>, c: nat)
    requires 3 * k + 2 <= 0x7FFD && Rel(st, heap) && StoreOk(st)
    requires c < |st| && st[c].fn.None? && heap[c].kind != TryScope
    ensures Runnable(Nested(k), st, heap, c) && CallFree(Nested(k))
    ensures var m := Load(FnText(Nested(k)), heap, c); var m' := Run(k + 1, m); var room := SizesOf(k + 1, m, FIRST_SIZES);
            && m'.mode.Running? && room == FIRST_SIZES
            && (|m'.stack| <= room.values <==> k <= 510)
  {
    hide At, After, Compile, Nested, Rel, StoreOk, FnText, Assembles, WfExpr, CallFree, Step, SizesOf;
    NestedIsPlain(k);
    NestedAssembles(k);
    var m := Load(FnText(Nested(k)), heap, c);
    var labels := ProcedurePlaced(Nested(k));
    Climbs(k, m, labels, 0);
    NothingEntered(k + 1, m, FIRST_SIZES);
  }
}
