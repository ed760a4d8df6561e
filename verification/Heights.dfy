// Every position of compiled code has one stack height and one scope depth,
// relative to where the code started.
module Heights {
  import opened Values
  import opened Primitives
  import opened Source
  import opened Assembler
  import opened Compiler
  import opened Simulation
  import opened Machine

  datatype Height = Height(depth: nat, scopes: nat)

  type Plan = map<nat, Height>

  // ---- what an opcode does to the stack; n is its operand byte

  predicate IsJump(b: int) { b == OP_JMP || b == OP_JT || b == OP_JF }

  predicate IsWide(b: int) { b == OP_PUSH_EXT || b == OP_GET_EXT || b == OP_SET_EXT || b == OP_DEF_EXT }

  predicate IsNarrow(b: int) {
    IsLitOp(b) || b == OP_INT_BYTE || b == OP_LIST || b == OP_APPLY
  }

  function Bytes(b: int): nat {
    if IsWide(b) || IsJump(b) then 3 else if IsNarrow(b) then 2 else 1
  }

  function Pops(b: int, n: nat): nat {
    if b == OP_SET || b == OP_DEF || b == OP_SET_EXT || b == OP_DEF_EXT then 1
    else if b == OP_JT || b == OP_JF || b == OP_DUP || b == OP_DROP || b == OP_RET then 1
    else if b == OP_FN then 3
    else if b == OP_LIST then n
    else if b == OP_APPLY then n + 1
    else if b == OP_APPLY_COLLECTION then 2
    else if 0 <= b < 256 && Op1OfByte(b).Some? then 1
    else if 0 <= b < 256 && Op2OfByte(b).Some? then 2
    else 0
  }

  function Pushes(b: int): nat {
    if b == OP_DUP then 2
    else if b == OP_DROP || IsJump(b) || b == OP_LET || b == OP_CLOSURE_POP || b == 0 then 0
    else 1
  }

  // The height behind an opcode that goes on.
  function Past(b: int, n: nat, h: Height): Option<Height> {
    if h.depth < Pops(b, n) || b == OP_TRY || (b == OP_CLOSURE_POP && h.scopes == 0) then None
    else Some(Height(h.depth - Pops(b, n) + Pushes(b),
                     if b == OP_LET then h.scopes + 1 else if b == OP_CLOSURE_POP then h.scopes - 1 else h.scopes))
  }

  // ---- bytecode with planned heights

  predicate Goes(plan: Plan, q: int, h: Height) {
    0 <= q && q in plan && plan[q] == h
  }

  function Operand(t: Text, q: nat): nat {
    if q + 1 < |t.data| then t.data[q + 1] else 0
  }

  // The instruction at q, reached with height h, goes only where the plan has
  // the height it leaves.
  predicate InstrPlanned(t: Text, q: nat, h: Height, plan: Plan)
    requires q < |t.data|
  {
    var b := t.data[q];
    var out := Past(b, Operand(t, q), h);
    && out.Some?
    && (IsJump(b) ==> q + 2 < |t.data| && Goes(plan, q + DecodeOffset(t.data[q + 1], t.data[q + 2]), out.value))
    && (b != OP_JMP && b != OP_RET ==> Goes(plan, q + Bytes(b), out.value))
  }

  predicate Planned(t: Text, plan: Plan) {
    && Goes(plan, 0, Height(0, 0))
    && forall q :: q in plan && q < |t.data| ==> InstrPlanned(t, q, plan[q], plan)
  }

  // ---- heights in symbolic code

  // An instruction is a list that starts with an opcode.
  predicate IsInstr(code: Code) {
    code.Cell? && code.car.Atom? && !code.car.item.Label?
  }

  datatype Instr = Plain(op: int) | WithByte(op: int, n: int) | WithLiteral(op: int) | Jump(op: int, l: nat) | Other

  function Decode(code: Code): Instr {
    match code
    case Cell(Atom(Op(op)), Blank) => Instr.Plain(op)
    case Cell(Atom(Op(op)), Cell(Atom(Op(n)), Blank)) => WithByte(op, n)
    case Cell(Atom(Lit(op, _)), Blank) => WithLiteral(op)
    case Cell(Atom(Op(op)), Cell(Atom(Reloc(l, s1, a1)), Cell(Atom(Reloc(l2, s2, a2)), Blank))) =>
      if l2 == l && s1 == 8 && a1 == 0 && s2 == 0 && a2 == 1 then Jump(op, l) else Other
    case _ => Other
  }

  // Whether the shape fits the opcode.
  predicate Fits(i: Instr) {
    match i
    case Plain(op) => 0 <= op < 256 && Bytes(op) == 1 && op != OP_TRY
    case WithByte(op, n) => op == OP_INT_BYTE || ((op == OP_LIST || op == OP_APPLY) && 0 <= n < 256)
    case WithLiteral(op) => IsLitOp(op)
    case Jump(op, _) => IsJump(op)
    case Other => false
  }

  function OperandOf(i: Instr): nat {
    if i.WithByte? && 0 <= i.n < 256 then i.n else 0
  }

  // None: the code does not fit.  Some(None): nothing falls through.
  function FlowInstr(i: Instr, h: Height, heights: Plan): Option<Option<Height>> {
    if !Fits(i) then None
    else
      var out := Past(i.op, OperandOf(i), h);
      if out.None? then None
      else if i.Jump? then
        if i.l in heights && heights[i.l] == out.value then Some(if i.op == OP_JMP then None else Some(out.value)) else None
      else Some(Some(out.value))
  }

  // `heights` gives the height at each label.
  function Flow(code: Code, h: Option<Height>, heights: Plan): Option<Option<Height>> {
    match code
    case Blank => Some(h)
    case Atom(it) =>
      if it.Label? && it.name in heights && (h.None? || h.value == heights[it.name]) then Some(Some(heights[it.name])) else None
    case Cell(a, d) =>
      if IsInstr(code) then (if h.None? then None else FlowInstr(Decode(code), h.value, heights))
      else
        match Flow(a, h, heights)
        case None => None
        case Some(h1) => Flow(d, h1, heights)
  }

  // The height at position q of code placed at p.
  function HeightAt(t: Text, code: Code, p: nat, h: Option<Height>, heights: Plan, q: nat): Option<Height> {
    match code
    case Cell(a, d) =>
      if IsInstr(code) then (if q == p then h else None)
      else
        (match Flow(a, h, heights)
         case None => None
         case Some(h1) =>
           var m := After(t, a, p);
           if q < m then HeightAt(t, a, p, h, heights, q) else HeightAt(t, d, m, h1, heights, q))
    case _ => None
  }

  ghost predicate Covers(plan: Plan, t: Text, code: Code, p: nat, h: Option<Height>, heights: Plan) {
    forall q: nat :: p <= q < After(t, code, p) && HeightAt(t, code, p, h, heights, q).Some? ==>
      Goes(plan, q, HeightAt(t, code, p, h, heights, q).value)
  }

  // Every label's height is planned at its position.
  ghost predicate LabelsPlanned(plan: Plan, labels: map<nat, nat>, heights: Plan, ls: set<nat>) {
    forall l :: l in ls && l in heights ==> l in labels && Goes(plan, labels[l], heights[l])
  }

  // ---- instructions in place

  // Only two opcodes look at their operand, and a two-byte form does what the
  // one-byte form does.
  lemma PastSame(b: int, op: int, n: nat, k: nat, h: Height)
    requires b == op || (IsLitOp(op) && b == Ext(op))
    requires op == OP_LIST || op == OP_APPLY ==> n == k
    ensures Past(b, n, h) == Past(op, k, h)
  {
  }

  // What the VM will find for an instruction in place.
  ghost predicate InPlace(t: Text, labels: map<nat, nat>, code: Code, i: Instr, p: nat)
    requires !i.Other?
  {
    && p < |t.data| && After(t, code, p) == p + Bytes(t.data[p])
    && (t.data[p] == i.op || (IsLitOp(i.op) && t.data[p] == Ext(i.op)))
    && (i.op == OP_LIST || i.op == OP_APPLY ==> Operand(t, p) == OperandOf(i))
    && (IsJump(t.data[p]) <==> i.Jump?) && (t.data[p] == OP_JMP <==> i.op == OP_JMP)
    && (i.Jump? ==> p + 2 < |t.data| && i.l in labels && p + DecodeOffset(t.data[p + 1], t.data[p + 2]) == labels[i.l])
    && (i.Jump? ==> i.l in Targets(code))
  }

  lemma InstrInPlace(t: Text, labels: map<nat, nat>, code: Code, p: nat)
    requires At(t, labels, code, p) && IsInstr(code) && Fits(Decode(code))
    ensures !Decode(code).Other? && InPlace(t, labels, code, Decode(code), p)
  {
    hide DecodeOffset, At, After, LitWidth;
    match Decode(code)
    case Plain(op) =>
      assert code == Emit1(op);
      OpAt(t, labels, op, p);
    case WithByte(op, n) =>
      assert code == Emit2(op, n);
      Op2At(t, labels, op, n, p);
    case WithLiteral(op) =>
      LiteralInPlace(t, labels, code, op, p);
    case Jump(op, l) =>
      assert code == EmitJump(op, l);
      JumpAt(t, labels, op, l, p);
      JumpTargets(op, l);
  }

  lemma JumpTargets(op: int, l: nat)
    ensures Targets(EmitJump(op, l)) == {l} && Labels(EmitJump(op, l)) == {}
  {
  }

  lemma LiteralInPlace(t: Text, labels: map<nat, nat>, code: Code, op: int, p: nat)
    requires At(t, labels, code, p) && Decode(code) == WithLiteral(op) && IsLitOp(op)
    ensures InPlace(t, labels, code, WithLiteral(op), p)
  {
    var v := code.car.item.v;
    assert code == EmitLit(op, v);
    LitAt(t, labels, op, v, p);
  }

  lemma {:induction false} AfterGrows(t: Text, labels: map<nat, nat>, code: Code, p: nat)
    ensures After(t, code, p) >= p
  {
    if code.Cell? {
      AfterGrows(t, labels, code.car, p);
      AfterGrows(t, labels, code.cdr, After(t, code.car, p));
    }
  }

  // ---- code that flows is planned

  // What the rest of the plan must say about a piece of code.
  ghost predicate Fitting(plan: Plan, t: Text, labels: map<nat, nat>, code: Code, p: nat, h: Option<Height>, heights: Plan) {
    && At(t, labels, code, p) && Covers(plan, t, code, p, h, heights)
    && Flow(code, h, heights).Some?
    && (Flow(code, h, heights).value.Some? ==> Goes(plan, After(t, code, p), Flow(code, h, heights).value.value))
  }

  // The two parts of a list, from the back.
  lemma FittingTail(plan: Plan, t: Text, labels: map<nat, nat>, a: Code, d: Code, p: nat, h: Option<Height>, heights: Plan)
    requires Fitting(plan, t, labels, Cell(a, d), p, h, heights) && !IsInstr(Cell(a, d))
    ensures Flow(a, h, heights).Some?
    ensures Fitting(plan, t, labels, d, After(t, a, p), Flow(a, h, heights).value, heights)
  {
    hide Goes, FlowInstr;
    AfterGrows(t, labels, a, p);
    var h1 := Flow(a, h, heights).value;
    var m := After(t, a, p);
    forall q: nat | m <= q < After(t, d, m) && HeightAt(t, d, m, h1, heights, q).Some?
      ensures Goes(plan, q, HeightAt(t, d, m, h1, heights, q).value)
    {
      assert HeightAt(t, Cell(a, d), p, h, heights, q) == HeightAt(t, d, m, h1, heights, q);
    }
  }

  lemma FittingHead(plan: Plan, t: Text, labels: map<nat, nat>, a: Code, d: Code, p: nat, h: Option<Height>, heights: Plan)
    requires Fitting(plan, t, labels, Cell(a, d), p, h, heights) && !IsInstr(Cell(a, d))
    requires Flow(a, h, heights).Some?
    requires Flow(a, h, heights).value.Some? ==> Goes(plan, After(t, a, p), Flow(a, h, heights).value.value)
    ensures Fitting(plan, t, labels, a, p, h, heights)
  {
    hide Goes, FlowInstr;
    AfterGrows(t, labels, d, After(t, a, p));
    forall q: nat | p <= q < After(t, a, p) && HeightAt(t, a, p, h, heights, q).Some?
      ensures Goes(plan, q, HeightAt(t, a, p, h, heights, q).value)
    {
      assert HeightAt(t, Cell(a, d), p, h, heights, q) == HeightAt(t, a, p, h, heights, q);
    }
  }

  // The plan has the height at the start of the code and at all its labels.
  lemma {:induction false} StartsPlanned(plan: Plan, t: Text, labels: map<nat, nat>, code: Code, p: nat, h: Option<Height>, heights: Plan)
    requires Fitting(plan, t, labels, code, p, h, heights)
    ensures h.Some? ==> Goes(plan, p, h.value)
    ensures LabelsPlanned(plan, labels, heights, Labels(code))
  {
    hide Goes, FlowInstr, Covers;
    if code.Cell? {
      if IsInstr(code) {
        InstrStart(plan, t, labels, code, p, h, heights);
      } else {
        var a, d := code.car, code.cdr;
        FittingTail(plan, t, labels, a, d, p, h, heights);
        StartsPlanned(plan, t, labels, d, After(t, a, p), Flow(a, h, heights).value, heights);
        FittingHead(plan, t, labels, a, d, p, h, heights);
        StartsPlanned(plan, t, labels, a, p, h, heights);
      }
    }
  }

  lemma InstrStart(plan: Plan, t: Text, labels: map<nat, nat>, code: Code, p: nat, h: Option<Height>, heights: Plan)
    requires Fitting(plan, t, labels, code, p, h, heights) && IsInstr(code)
    ensures h.Some? && Goes(plan, p, h.value) && Labels(code) == {}
    ensures Fits(Decode(code)) && FlowInstr(Decode(code), h.value, heights).Some?
  {
    InstrInPlace(t, labels, code, p);
    assert HeightAt(t, code, p, h, heights, p) == h;
    InstrLabels(code);
  }

  lemma InstrLabels(code: Code)
    requires IsInstr(code) && Fits(Decode(code))
    ensures Labels(code) == {}
  {
    match Decode(code)
    case Plain(op) => assert code == Emit1(op);
    case WithByte(op, n) => assert code == Emit2(op, n);
    case WithLiteral(op) => assert code == EmitLit(op, code.car.item.v);
    case Jump(op, l) => JumpTargets(op, l); assert code == EmitJump(op, l);
  }

  // Every instruction of the code is planned.
  lemma {:induction false} CodePlanned(plan: Plan, t: Text, labels: map<nat, nat>, code: Code, p: nat, h: Option<Height>, heights: Plan, ls: set<nat>, q: nat)
    requires Fitting(plan, t, labels, code, p, h, heights) && LabelsPlanned(plan, labels, heights, ls)
    requires Targets(code) <= ls
    requires p <= q < After(t, code, p) && HeightAt(t, code, p, h, heights, q).Some?
    ensures q < |t.data| && InstrPlanned(t, q, HeightAt(t, code, p, h, heights, q).value, plan)
  {
    hide Goes, FlowInstr, Covers, InstrPlanned, LabelsPlanned;
    if IsInstr(code) {
      OnePlanned(plan, t, labels, code, p, h, heights, ls);
    } else {
      var a, d := code.car, code.cdr;
      FittingTail(plan, t, labels, a, d, p, h, heights);
      var m := After(t, a, p);
      if q < m {
        StartsPlanned(plan, t, labels, d, m, Flow(a, h, heights).value, heights);
        FittingHead(plan, t, labels, a, d, p, h, heights);
        CodePlanned(plan, t, labels, a, p, h, heights, ls, q);
      } else {
        CodePlanned(plan, t, labels, d, m, Flow(a, h, heights).value, heights, ls, q);
      }
    }
  }

  lemma OnePlanned(plan: Plan, t: Text, labels: map<nat, nat>, code: Code, p: nat, h: Option<Height>, heights: Plan, ls: set<nat>)
    requires Fitting(plan, t, labels, code, p, h, heights) && IsInstr(code) && LabelsPlanned(plan, labels, heights, ls)
    requires Targets(code) <= ls && h.Some?
    ensures p < |t.data| && InstrPlanned(t, p, h.value, plan)
  {
    hide Covers, Past, After, At, Ext;
    InstrStart(plan, t, labels, code, p, h, heights);
    InstrInPlace(t, labels, code, p);
    var i := Decode(code);
    PastSame(t.data[p], i.op, Operand(t, p), OperandOf(i), h.value);
  }

  // ---- compiled code flows

  function Up(h: Height): Height { h.(depth := h.depth + 1) }

  // The height at each label made while compiling.
  function LabelHeight(e: Expr, n: nat, h: Height, l: nat): Option<Height>
    decreases e, 0
  {
    match e
    case Lit(_) => None
    case Quote(_) => None
    case Var(_) => None
    case Do(body) => SeqHeight(body, n, h, l)
    case Let(body) => SeqHeight(body, n, h.(scopes := h.scopes + 1), l)
    case Def(_, v) => LabelHeight(v, n, h, l)
    case Set(_, v) => LabelHeight(v, n, h, l)
    case If(c, t, f) =>
      var c1 := Compile(c, n + 2).next;
      var t1 := Compile(t, c1).next;
      if l == n then Some(h)
      else if l == n + 1 then Some(Up(h))
      else if l < c1 then LabelHeight(c, n + 2, h, l)
      else if l < t1 then LabelHeight(t, c1, h, l)
      else LabelHeight(f, t1, h, l)
    case While(test, loop) =>
      var b1 := CompileDo(loop, n + 2).next;
      if l == n || l == n + 1 then Some(Up(h))
      else if l < b1 then SeqHeight(loop, n + 2, h, l)
      else LabelHeight(test, b1, Up(h), l)
    case And(es) => if l == n then Some(Up(h)) else SeqHeight(es, n + 1, h, l)
    case Or(es) => if l == n then Some(Up(h)) else SeqHeight(es, n + 1, h, l)
    case Fn(_, _, _) => None
    case Return(v) => LabelHeight(v, n, h, l)
    case Prim1(_, a) => LabelHeight(a, n, h, l)
    case Prim2(_, a, b) =>
      if l < Compile(a, n).next then LabelHeight(a, n, h, l) else LabelHeight(b, Compile(a, n).next, Up(h), l)
    case MakeList(es) => ArgsHeight(es, n, h, l)
    case Call(f, args) =>
      if l < Compile(f, n).next then LabelHeight(f, n, h, l) else ArgsHeight(args, Compile(f, n).next, Up(h), l)
    case Apply(f, x) =>
      if l < Compile(f, n).next then LabelHeight(f, n, h, l) else LabelHeight(x, Compile(f, n).next, Up(h), l)
  }

  // Forms that each start at the same height.
  function SeqHeight(es: Exprs, n: nat, h: Height, l: nat): Option<Height>
    decreases es, 0
  {
    match es
    case End => None
    case More(e, rest) =>
      if l < Compile(e, n).next then LabelHeight(e, n, h, l) else SeqHeight(rest, Compile(e, n).next, h, l)
  }

  // Arguments, each above the previous ones.
  function ArgsHeight(es: Exprs, n: nat, h: Height, l: nat): Option<Height>
    decreases es, 0
  {
    match es
    case End => None
    case More(e, rest) =>
      if l < Compile(e, n).next then LabelHeight(e, n, h, l) else ArgsHeight(rest, Compile(e, n).next, Up(h), l)
  }

  function SeqNext(es: Exprs, n: nat): nat {
    match es
    case End => n
    case More(e, rest) => SeqNext(rest, Compile(e, n).next)
  }

  lemma {:induction false} SeqNextIs(es: Exprs, n: nat, end: nat)
    ensures CompileDo(es, n).next == SeqNext(es, n) && CompileAnd(es, end, n).next == SeqNext(es, n)
    ensures CompileOr(es, end, n).next == SeqNext(es, n) && CompileArgs(es, n).next == SeqNext(es, n)
    ensures n <= SeqNext(es, n)
    decreases es
  {
    if es.More? {
      NextGrows(es.head, n);
      SeqNextIs(es.tail, Compile(es.head, n).next, end);
    }
  }

  lemma NextGrows(e: Expr, n: nat)
    ensures n <= Compile(e, n).next && IsList(Compile(e, n).code)
  {
    CompileClosed(e, n);
  }

  // `heights` agrees with the label heights of an expression, a sequence, or
  // arguments.
  ghost predicate Agrees(heights: Plan, e: Expr, n: nat, h: Height) {
    forall l: nat :: n <= l < Compile(e, n).next && LabelHeight(e, n, h, l).Some? ==>
      l in heights && heights[l] == LabelHeight(e, n, h, l).value
  }

  ghost predicate AgreesSeq(heights: Plan, es: Exprs, n: nat, h: Height) {
    forall l: nat :: n <= l < SeqNext(es, n) && SeqHeight(es, n, h, l).Some? ==>
      l in heights && heights[l] == SeqHeight(es, n, h, l).value
  }

  ghost predicate AgreesArgs(heights: Plan, es: Exprs, n: nat, h: Height) {
    forall l: nat :: n <= l < SeqNext(es, n) && ArgsHeight(es, n, h, l).Some? ==>
      l in heights && heights[l] == ArgsHeight(es, n, h, l).value
  }

  lemma FlowCell(a: Code, d: Code, h: Option<Height>, h1: Option<Height>, heights: Plan)
    requires (a.Atom? ==> a.item.Label?) && Flow(a, h, heights) == Some(h1)
    ensures Flow(Join(a, d), h, heights) == Flow(d, h1, heights)
  {
  }

  lemma FlowOne(op: int, h: Height, heights: Plan)
    requires Fits(Instr.Plain(op)) && Past(op, 0, h).Some?
    ensures Flow(Emit1(op), Some(h), heights) == Some(Past(op, 0, h))
  {
    hide Past;
    assert Decode(Emit1(op)) == Instr.Plain(op);
  }

  lemma FlowTwo(op: int, n: int, h: Height, heights: Plan)
    requires Fits(WithByte(op, n)) && Past(op, OperandOf(WithByte(op, n)), h).Some?
    ensures Flow(Emit2(op, n), Some(h), heights) == Some(Past(op, OperandOf(WithByte(op, n)), h))
  {
    hide Past;
    assert Decode(Emit2(op, n)) == WithByte(op, n);
  }

  lemma FlowLit(op: int, v: Value, h: Height, heights: Plan)
    requires IsLitOp(op) && Past(op, 0, h).Some?
    ensures Flow(EmitLit(op, v), Some(h), heights) == Some(Past(op, 0, h))
  {
    hide Past;
    assert Decode(EmitLit(op, v)) == WithLiteral(op);
  }

  lemma FlowJump(op: int, l: nat, h: Height, heights: Plan)
    requires IsJump(op) && Past(op, 0, h).Some? && l in heights && heights[l] == Past(op, 0, h).value
    ensures Flow(EmitJump(op, l), Some(h), heights) == Some(if op == OP_JMP then None else Past(op, 0, h))
  {
    hide Past;
    assert Decode(EmitJump(op, l)) == Jump(op, l);
  }

  lemma FlowLabel(l: nat, h: Option<Height>, heights: Plan)
    requires l in heights && (h.None? || h.value == heights[l])
    ensures Flow(EmitLabel(l), h, heights) == Some(Some(heights[l]))
  {
  }

  // Flowing through a list whose elements flow.
  lemma FlowL2(a: Code, b: Code, h: Option<Height>, h1: Option<Height>, heights: Plan)
    requires (a.Atom? ==> a.item.Label?) && (b.Atom? ==> b.item.Label?)
    requires Flow(a, h, heights) == Some(h1) && Flow(b, h1, heights).Some?
    ensures Flow(L2(a, b), h, heights) == Flow(b, h1, heights)
  {
    hide Flow;
    FlowCell(a, L1(b), h, h1, heights);
    FlowL1(b, h1, heights);
  }

  lemma FlowL1(a: Code, h: Option<Height>, heights: Plan)
    requires (a.Atom? ==> a.item.Label?) && Flow(a, h, heights).Some?
    ensures Flow(L1(a), h, heights) == Flow(a, h, heights)
  {
    FlowCell(a, Blank, h, Flow(a, h, heights).value, heights);
  }

  // Code that leaves one more value.
  predicate FlowsUp(code: Code, h: Height, heights: Plan) {
    Flow(code, Some(h), heights) == Some(Some(Up(h)))
  }

  lemma PastPush(op: int, n: nat, h: Height)
    requires op in {OP_PUSH, OP_GET, OP_NIL, OP_TRUE, OP_FALSE, OP_INT_BYTE}
    ensures Past(op, n, h) == Some(Up(h))
    ensures Bytes(op) == 1 || IsNarrow(op)
  {
  }

  lemma FlowLiteral(op: int, v: Value, h: Height, heights: Plan)
    requires op == OP_PUSH || op == OP_GET
    ensures FlowsUp(EmitLit(op, v), h, heights) && FlowsUp(L1(EmitLit(op, v)), h, heights)
  {
    hide Flow, Past;
    PastPush(op, 0, h);
    FlowLit(op, v, h, heights);
    FlowL1(EmitLit(op, v), Some(h), heights);
  }

  lemma FlowInt(i: int, h: Height, heights: Plan)
    ensures FlowsUp(PushInt(i), h, heights)
  {
    hide Flow, Past;
    FlowLiteral(OP_PUSH, Int(i), h, heights);
    PastPush(OP_INT_BYTE, OperandOf(WithByte(OP_INT_BYTE, i)), h);
    FlowTwo(OP_INT_BYTE, i, h, heights);
  }

  lemma FlowConstant(v: Value, h: Height, heights: Plan)
    ensures FlowsUp(CompileQuote(v), h, heights)
    ensures FlowsUp(CompileLit(v), h, heights)
    ensures FlowsUp(EmitLit(OP_PUSH, v), h, heights)
  {
    hide Flow, Past, EmitLit, PushInt;
    FlowLiteral(OP_PUSH, v, h, heights);
    FlowLiteral(OP_GET, v, h, heights);
    PastPush(OP_NIL, 0, h);
    PastPush(OP_TRUE, 0, h);
    PastPush(OP_FALSE, 0, h);
    FlowOne(OP_NIL, h, heights);
    FlowOne(OP_TRUE, h, heights);
    FlowOne(OP_FALSE, h, heights);
    if v.Int? {
      FlowInt(v.i, h, heights);
    }
  }

  // A value, then an opcode on it.
  lemma FlowThen(a: Code, b: Code, op: int, n: nat, h: Height, h1: Height, heights: Plan)
    requires IsList(a) && Flow(a, Some(h), heights) == Some(Some(h1))
    requires IsList(b) && Flow(b, Some(h1), heights) == Some(Past(op, n, h1)) && Past(op, n, h1).Some?
    ensures Flow(L2(a, b), Some(h), heights) == Some(Past(op, n, h1))
    ensures Flow(Join(a, b), Some(h), heights) == Some(Past(op, n, h1))
  {
    hide Flow, Past;
    FlowL2(a, b, Some(h), Some(h1), heights);
    FlowCell(a, b, Some(h), Some(h1), heights);
  }

  // Compiled code leaves exactly one more value, at the scope depth where it
  // started, and never reaches below its starting height.
  lemma {:induction false} FlowExpr(e: Expr, n: nat, h: Height, heights: Plan)
    requires WfExpr(e) && Agrees(heights, e, n, h)
    ensures FlowsUp(Compile(e, n).code, h, heights)
    decreases e, 1
  {
    hide Flow, Past, Joins, Shape, CompileLit, CompileQuote, EmitLit, FnText, CompileDo, CompileAnd, CompileOr, CompileArgs;
    match e
    case Lit(v) => FlowConstant(v, h, heights);
    case Quote(q) => FlowConstant(q, h, heights);
    case Var(x) => FlowVar(x, h, heights);
    case Do(body) =>
      DoParts(heights, e, n, h);
      FlowBody(body, n, h, heights);
    case Let(body) => FlowLet(e, n, h, heights);
    case Def(x, v) => FlowBind(e, v, OP_DEF, x, n, h, heights);
    case Set(x, v) => FlowBind(e, v, OP_SET, x, n, h, heights);
    case If(_, _, _) => FlowIf(e, n, h, heights);
    case While(_, _) => FlowWhile(e, n, h, heights);
    case And(_) => FlowAndForm(e, n, h, heights);
    case Or(_) => FlowOrForm(e, n, h, heights);
    case Fn(_, _, _) => FlowFn(e, n, h, heights);
    case Return(_) => FlowReturn(e, n, h, heights);
    case Prim1(_, _) => FlowPrim1(e, n, h, heights);
    case Prim2(_, _, _) => FlowPrim2(e, n, h, heights);
    case MakeList(_) => FlowMakeList(e, n, h, heights);
    case Call(_, _) => FlowCall(e, n, h, heights);
    case Apply(_, _) => FlowApply(e, n, h, heights);
  }

  lemma FlowVar(x: Symbol, h: Height, heights: Plan)
    ensures FlowsUp(L1(EmitLit(OP_GET, Sym(x))), h, heights)
  {
    FlowLiteral(OP_GET, Sym(x), h, heights);
  }

  lemma {:induction false} FlowBody(es: Exprs, n: nat, h: Height, heights: Plan)
    requires es.More? && WfExprs(es) && AgreesSeq(heights, es, n, h)
    ensures FlowsUp(L1(CompileDo(es, n).code), h, heights)
    decreases es, 3
  {
    hide Flow, AgreesSeq;
    FlowDo(es, n, h, heights);
    FlowL1(CompileDo(es, n).code, Some(h), heights);
  }

  lemma {:induction false} FlowDo(es: Exprs, n: nat, h: Height, heights: Plan)
    requires es.More? && WfExprs(es) && AgreesSeq(heights, es, n, h)
    ensures FlowsUp(CompileDo(es, n).code, h, heights) && !CompileDo(es, n).code.Atom?
    decreases es, 2
  {
    hide Flow, Past, Compile, Joins, Shape, AgreesSeq, Agrees;
    var c := Compile(es.head, n);
    SeqParts(heights, es, n, h);
    NextGrows(es.head, n);
    FlowExpr(es.head, n, h, heights);
    var d := CompileDo(es.tail, c.next).code;
    if es.tail.End? {
      FlowCell(c.code, Blank, Some(h), Some(Up(h)), heights);
      FlowBlank(Some(Up(h)), heights);
      FlowCell(Join(c.code, Blank), Blank, Some(h), Some(Up(h)), heights);
    } else {
      FlowDo(es.tail, c.next, h, heights);
      PastDrop(h);
      FlowOne(OP_DROP, Up(h), heights);
      FlowL1(Emit1(OP_DROP), Some(Up(h)), heights);
      FlowCell(c.code, L1(Emit1(OP_DROP)), Some(h), Some(Up(h)), heights);
      FlowCell(Join(c.code, L1(Emit1(OP_DROP))), d, Some(h), Some(h), heights);
    }
  }

  lemma FlowBlank(h: Option<Height>, heights: Plan)
    ensures Flow(Blank, h, heights) == Some(h)
  {
  }

  lemma PastDrop(h: Height)
    ensures Past(OP_DROP, 0, Up(h)) == Some(h)
    ensures Past(OP_DUP, 0, Up(h)) == Some(Up(Up(h)))
    ensures Past(OP_JT, 0, Up(h)) == Some(h) && Past(OP_JF, 0, Up(h)) == Some(h)
    ensures Past(OP_JMP, 0, h) == Some(h) && Past(OP_NIL, 0, h) == Some(Up(h))
  {
  }

  lemma SeqParts(heights: Plan, es: Exprs, n: nat, h: Height)
    requires es.More? && AgreesSeq(heights, es, n, h)
    ensures Agrees(heights, es.head, n, h) && AgreesSeq(heights, es.tail, Compile(es.head, n).next, h)
  {
    hide LabelHeight, Compile;
    var m := Compile(es.head, n).next;
    NextGrows(es.head, n);
    SeqNextIs(es.tail, m, 0);
    forall l: nat | n <= l < m && LabelHeight(es.head, n, h, l).Some?
      ensures l in heights && heights[l] == LabelHeight(es.head, n, h, l).value
    {
      assert SeqHeight(es, n, h, l) == LabelHeight(es.head, n, h, l);
    }
    forall l: nat | m <= l < SeqNext(es.tail, m) && SeqHeight(es.tail, m, h, l).Some?
      ensures l in heights && heights[l] == SeqHeight(es.tail, m, h, l).value
    {
      assert SeqHeight(es, n, h, l) == SeqHeight(es.tail, m, h, l);
    }
  }

  lemma {:induction false} FlowLet(e: Expr, n: nat, h: Height, heights: Plan)
    requires e.Let? && WfExpr(e) && Agrees(heights, e, n, h)
    ensures FlowsUp(Compile(e, n).code, h, heights)
    decreases e, 0
  {
    hide Flow, Past, Joins, Shape, CompileDo, Agrees, AgreesSeq;
    var body := CompileDo(e.scoped, n).code;
    var inner := h.(scopes := h.scopes + 1);
    LetParts(heights, e, n, h);
    PastCalls(0, h);
    FlowBody(e.scoped, n, inner, heights);
    FlowOne(OP_LET, h, heights);
    FlowOne(OP_CLOSURE_POP, Up(inner), heights);
    FlowCell(Emit1(OP_LET), L2(L1(body), Emit1(OP_CLOSURE_POP)), Some(h), Some(inner), heights);
    FlowL2(L1(body), Emit1(OP_CLOSURE_POP), Some(inner), Some(Up(inner)), heights);
  }

  lemma BindParts(heights: Plan, e: Expr, v: Expr, op: int, x: Symbol, n: nat, h: Height)
    requires (e == Expr.Def(x, v) && op == OP_DEF) || (e == Expr.Set(x, v) && op == OP_SET)
    requires Agrees(heights, e, n, h)
    ensures Compile(e, n).code == L2(Compile(v, n).code, EmitLit(op, Sym(x)))
    ensures Agrees(heights, v, n, h)
  {
    hide Joins, Shape;
  }

  lemma {:induction false} FlowBind(e: Expr, v: Expr, op: int, x: Symbol, n: nat, h: Height, heights: Plan)
    requires (e == Expr.Def(x, v) && op == OP_DEF) || (e == Expr.Set(x, v) && op == OP_SET)
    requires WfExpr(e) && Agrees(heights, e, n, h)
    ensures FlowsUp(Compile(e, n).code, h, heights)
    decreases e, 0
  {
    hide Flow, Past, Joins, Shape, Compile, Agrees, EmitLit;
    PastCalls(0, h);
    BindParts(heights, e, v, op, x, n, h);
    FlowExpr(v, n, h, heights);
    NextGrows(v, n);
    LitIsList(op, Sym(x));
    FlowLit(op, Sym(x), Up(h), heights);
    FlowL2(Compile(v, n).code, EmitLit(op, Sym(x)), Some(h), Some(Up(h)), heights);
  }

  lemma {:induction false} FlowReturn(e: Expr, n: nat, h: Height, heights: Plan)
    requires e.Return? && WfExpr(e) && Agrees(heights, e, n, h)
    ensures FlowsUp(Compile(e, n).code, h, heights)
    decreases e, 0
  {
    PastCalls(0, h);
    hide Flow, Past, Joins, Shape;
    FlowExpr(e.result, n, h, heights);
    NextGrows(e.result, n);
    FlowOne(OP_RET, Up(h), heights);
    FlowL2(Compile(e.result, n).code, Emit1(OP_RET), Some(h), Some(Up(h)), heights);
  }

  lemma PastPrims(op1: Op1, op2: Op2, h: Height)
    ensures Fits(Instr.Plain(Byte1(op1))) && Past(Byte1(op1), 0, Up(h)) == Some(Up(h))
    ensures Fits(Instr.Plain(Byte2(op2))) && Past(Byte2(op2), 0, Up(Up(h))) == Some(Up(h))
  {
    hide Op1OfByte, Op2OfByte;
    OpcodeTable(op1, op2);
  }

  lemma {:induction false} FlowPrim1(e: Expr, n: nat, h: Height, heights: Plan)
    requires e.Prim1? && WfExpr(e) && Agrees(heights, e, n, h)
    ensures FlowsUp(Compile(e, n).code, h, heights)
    decreases e, 0
  {
    hide Flow, Joins, Shape, Past;
    var b := Byte1(e.op1);
    FlowExpr(e.arg, n, h, heights);
    NextGrows(e.arg, n);
    PastPrims(e.op1, Op2.Cons, h);
    FlowOne(b, Up(h), heights);
    if e.op1 == ThrowOp {
      assert L2(Compile(e.arg, n).code, EmitPrim1(e.op1)) == Join(Compile(e.arg, n).code, Emit1(b));
    }
    FlowThen(Compile(e.arg, n).code, Emit1(b), b, 0, h, Up(h), heights);
  }

  lemma {:induction false} FlowPrim2(e: Expr, n: nat, h: Height, heights: Plan)
    requires e.Prim2? && WfExpr(e) && Agrees(heights, e, n, h)
    ensures FlowsUp(Compile(e, n).code, h, heights)
    decreases e, 0
  {
    hide Flow, Joins, Shape, Past;
    var c := Compile(e.left, n);
    var d := Compile(e.right, c.next);
    NextGrows(e.left, n);
    NextGrows(e.right, c.next);
    Prim2Parts(heights, e, n, h);
    FlowExpr(e.left, n, h, heights);
    FlowExpr(e.right, c.next, Up(h), heights);
    PastPrims(CarOp, e.op2, h);
    FlowOne(Byte2(e.op2), Up(Up(h)), heights);
    FlowCell(c.code, d.code, Some(h), Some(Up(h)), heights);
    FlowL2(Join(c.code, d.code), Emit1(Byte2(e.op2)), Some(h), Some(Up(Up(h))), heights);
  }

  lemma Prim2Parts(heights: Plan, e: Expr, n: nat, h: Height)
    requires e.Prim2? && Agrees(heights, e, n, h)
    ensures Agrees(heights, e.left, n, h) && Agrees(heights, e.right, Compile(e.left, n).next, Up(h))
  {
    var m := Compile(e.left, n).next;
    NextGrows(e.left, n);
    NextGrows(e.right, m);
    TwoParts(heights, e, n, h, e.left, e.right);
  }

  // An expression made of a value and, above it, another.
  lemma TwoParts(heights: Plan, e: Expr, n: nat, h: Height, a: Expr, b: Expr)
    requires Agrees(heights, e, n, h)
    requires n <= Compile(a, n).next <= Compile(b, Compile(a, n).next).next == Compile(e, n).next
    requires forall l: nat :: LabelHeight(e, n, h, l) ==
               if l < Compile(a, n).next then LabelHeight(a, n, h, l) else LabelHeight(b, Compile(a, n).next, Up(h), l)
    ensures Agrees(heights, a, n, h) && Agrees(heights, b, Compile(a, n).next, Up(h))
  {
    hide Compile, LabelHeight;
    var m := Compile(a, n).next;
    forall l: nat | n <= l < m && LabelHeight(a, n, h, l).Some?
      ensures l in heights && heights[l] == LabelHeight(a, n, h, l).value
    {
      assert LabelHeight(e, n, h, l) == LabelHeight(a, n, h, l);
    }
    forall l: nat | m <= l < Compile(b, m).next && LabelHeight(b, m, Up(h), l).Some?
      ensures l in heights && heights[l] == LabelHeight(b, m, Up(h), l).value
    {
      assert LabelHeight(e, n, h, l) == LabelHeight(b, m, Up(h), l);
    }
  }

  lemma ApplyParts(heights: Plan, e: Expr, n: nat, h: Height)
    requires e.Apply? && Agrees(heights, e, n, h)
    ensures Agrees(heights, e.callee, n, h) && Agrees(heights, e.arglist, Compile(e.callee, n).next, Up(h))
  {
    NextGrows(e.callee, n);
    NextGrows(e.arglist, Compile(e.callee, n).next);
    TwoParts(heights, e, n, h, e.callee, e.arglist);
  }

  lemma EmitIsList(op: int)
    ensures IsList(Emit1(op)) && !Emit1(op).Atom?
  {
  }

  lemma {:induction false} FlowApply(e: Expr, n: nat, h: Height, heights: Plan)
    requires e.Apply? && WfExpr(e) && Agrees(heights, e, n, h)
    ensures FlowsUp(Compile(e, n).code, h, heights)
    decreases e, 0
  {
    hide Flow, Past, Joins, Shape, Agrees, Emit1;
    PastCalls(0, h);
    var c := Compile(e.callee, n);
    var d := Compile(e.arglist, c.next);
    NextGrows(e.callee, n);
    NextGrows(e.arglist, c.next);
    ApplyParts(heights, e, n, h);
    EmitIsList(OP_APPLY_COLLECTION);
    FlowExpr(e.callee, n, h, heights);
    FlowExpr(e.arglist, c.next, Up(h), heights);
    FlowOne(OP_APPLY_COLLECTION, Up(Up(h)), heights);
    FlowCell(c.code, L2(d.code, Emit1(OP_APPLY_COLLECTION)), Some(h), Some(Up(h)), heights);
    FlowL2(d.code, Emit1(OP_APPLY_COLLECTION), Some(Up(h)), Some(Up(Up(h))), heights);
  }

  function Higher(h: Height, n: nat): Height { h.(depth := h.depth + n) }

  lemma {:induction false} FlowArgs(es: Exprs, n: nat, h: Height, heights: Plan)
    requires WfExprs(es) && AgreesArgs(heights, es, n, h)
    ensures Flow(CompileArgs(es, n).code, Some(h), heights) == Some(Some(Higher(h, Length(es))))
    ensures !CompileArgs(es, n).code.Atom?
    decreases es, 2
  {
    hide Flow, Compile, Joins, Shape, AgreesArgs, Agrees;
    if es.More? {
      var c := Compile(es.head, n);
      ArgsParts(heights, es, n, h);
      NextGrows(es.head, n);
      FlowExpr(es.head, n, h, heights);
      if es.tail.More? {
        FlowArgs(es.tail, c.next, Up(h), heights);
        FlowCell(c.code, CompileArgs(es.tail, c.next).code, Some(h), Some(Up(h)), heights);
      }
    } else {
      FlowBlank(Some(h), heights);
    }
  }

  lemma ArgsParts(heights: Plan, es: Exprs, n: nat, h: Height)
    requires es.More? && AgreesArgs(heights, es, n, h)
    ensures Agrees(heights, es.head, n, h) && AgreesArgs(heights, es.tail, Compile(es.head, n).next, Up(h))
  {
    hide LabelHeight, Compile;
    var m := Compile(es.head, n).next;
    NextGrows(es.head, n);
    SeqNextIs(es.tail, m, 0);
    forall l: nat | n <= l < m && LabelHeight(es.head, n, h, l).Some?
      ensures l in heights && heights[l] == LabelHeight(es.head, n, h, l).value
    {
      assert ArgsHeight(es, n, h, l) == LabelHeight(es.head, n, h, l);
    }
    forall l: nat | m <= l < SeqNext(es.tail, m) && ArgsHeight(es.tail, m, Up(h), l).Some?
      ensures l in heights && heights[l] == ArgsHeight(es.tail, m, Up(h), l).value
    {
      assert ArgsHeight(es, n, h, l) == ArgsHeight(es.tail, m, Up(h), l);
    }
  }

  lemma {:induction false} FlowMakeList(e: Expr, n: nat, h: Height, heights: Plan)
    requires e.MakeList? && WfExpr(e) && Agrees(heights, e, n, h)
    ensures FlowsUp(Compile(e, n).code, h, heights)
    decreases e, 0
  {
    hide Flow, Past, Joins, Shape, CompileArgs, Agrees, AgreesArgs;
    var k := Length(e.elements);
    ListParts(heights, e, n, h);
    PastCalls(k, h);
    FlowArgs(e.elements, n, h, heights);
    FlowTwo(OP_LIST, k, Higher(h, k), heights);
    FlowL2(CompileArgs(e.elements, n).code, Emit2(OP_LIST, k), Some(h), Some(Higher(h, k)), heights);
  }

  lemma {:induction false} FlowCall(e: Expr, n: nat, h: Height, heights: Plan)
    requires e.Call? && WfExpr(e) && Agrees(heights, e, n, h)
    ensures FlowsUp(Compile(e, n).code, h, heights)
    decreases e, 0
  {
    hide Flow, Past, Joins, Shape, CompileArgs, Agrees, AgreesArgs;
    var c := Compile(e.fun, n);
    var d := CompileArgs(e.args, c.next);
    var k := Length(e.args);
    NextGrows(e.fun, n);
    PastCalls(k, h);
    CallParts(heights, e, n, h);
    FlowExpr(e.fun, n, h, heights);
    FlowArgs(e.args, c.next, Up(h), heights);
    FlowTwo(OP_APPLY, k, Higher(Up(h), k), heights);
    FlowCell(c.code, L2(d.code, Emit2(OP_APPLY, k)), Some(h), Some(Up(h)), heights);
    FlowL2(d.code, Emit2(OP_APPLY, k), Some(Up(h)), Some(Higher(Up(h), k)), heights);
  }

  lemma CallParts(heights: Plan, e: Expr, n: nat, h: Height)
    requires e.Call? && Agrees(heights, e, n, h)
    ensures Agrees(heights, e.fun, n, h) && AgreesArgs(heights, e.args, Compile(e.fun, n).next, Up(h))
  {
    var m := Compile(e.fun, n).next;
    NextGrows(e.fun, n);
    SeqNextIs(e.args, m, 0);
    forall l: nat | n <= l < m && LabelHeight(e.fun, n, h, l).Some?
      ensures l in heights && heights[l] == LabelHeight(e.fun, n, h, l).value
    {
      assert LabelHeight(e, n, h, l) == LabelHeight(e.fun, n, h, l);
    }
    forall l: nat | m <= l < SeqNext(e.args, m) && ArgsHeight(e.args, m, Up(h), l).Some?
      ensures l in heights && heights[l] == ArgsHeight(e.args, m, Up(h), l).value
    {
      assert LabelHeight(e, n, h, l) == ArgsHeight(e.args, m, Up(h), l);
    }
  }

  lemma FnChain(a: Code, b: Code, c: Code, h: Height, heights: Plan)
    requires FlowsUp(a, h, heights) && FlowsUp(b, Up(h), heights) && FlowsUp(c, Up(Up(h)), heights)
    requires !a.Atom? && !b.Atom? && !c.Atom?
    ensures FlowsUp(L4(a, b, c, Emit1(OP_FN)), h, heights)
  {
    PastCalls(0, h);
    hide Flow, Past, Joins, Shape;
    FlowOne(OP_FN, Up(Up(Up(h))), heights);
    FlowCell(a, L3(b, c, Emit1(OP_FN)), Some(h), Some(Up(h)), heights);
    FlowCell(b, L2(c, Emit1(OP_FN)), Some(Up(h)), Some(Up(Up(h))), heights);
    FlowL2(c, Emit1(OP_FN), Some(Up(Up(h))), Some(Up(Up(Up(h)))), heights);
  }

  lemma {:induction false} FlowFn(e: Expr, n: nat, h: Height, heights: Plan)
    requires e.Fn?
    ensures FlowsUp(Compile(e, n).code, h, heights)
    decreases e, 0
  {
    hide Flow, Past, Joins, Shape, CompileQuote, FnText, EmitLit;
    var text := Bytecode(FnText(e.code));
    FlowConstant(e.params, h, heights);
    FlowConstant(e.meta, Up(h), heights);
    FlowConstant(text, Up(Up(h)), heights);
    QuoteIsList(e.params);
    QuoteIsList(e.meta);
    LitIsList(OP_PUSH, text);
    FnChain(CompileQuote(e.params), CompileQuote(e.meta), EmitLit(OP_PUSH, text), h, heights);
  }

  lemma QuoteIsList(v: Value)
    ensures !CompileQuote(v).Atom?
  {
  }

  lemma IfParts(heights: Plan, e: Expr, n: nat, h: Height)
    requires e.If? && Agrees(heights, e, n, h)
    ensures var c1 := Compile(e.cond, n + 2).next;
            var t1 := Compile(e.thn, c1).next;
            && Agrees(heights, e.cond, n + 2, h) && Agrees(heights, e.thn, c1, h) && Agrees(heights, e.els, t1, h)
    ensures n in heights && heights[n] == h && n + 1 in heights && heights[n + 1] == Up(h)
  {
    var c1 := Compile(e.cond, n + 2).next;
    var t1 := Compile(e.thn, c1).next;
    NextGrows(e.cond, n + 2);
    NextGrows(e.thn, c1);
    NextGrows(e.els, t1);
    assert LabelHeight(e, n, h, n) == Some(h) && LabelHeight(e, n, h, n + 1) == Some(Up(h));
    forall l: nat | n + 2 <= l < c1 ensures LabelHeight(e, n, h, l) == LabelHeight(e.cond, n + 2, h, l) {
    }
    forall l: nat | c1 <= l < t1 ensures LabelHeight(e, n, h, l) == LabelHeight(e.thn, c1, h, l) {
    }
    forall l: nat | t1 <= l ensures LabelHeight(e, n, h, l) == LabelHeight(e.els, t1, h, l) {
    }
  }

  lemma {:induction false} FlowIf(e: Expr, n: nat, h: Height, heights: Plan)
    requires e.If? && WfExpr(e) && Agrees(heights, e, n, h)
    ensures FlowsUp(Compile(e, n).code, h, heights)
    decreases e, 0
  {
    hide Flow, Past, Joins, Shape, EmitJump, EmitLabel, Agrees;
    var c := Compile(e.cond, n + 2);
    var t := Compile(e.thn, c.next);
    var f := Compile(e.els, t.next);
    IfParts(heights, e, n, h);
    NextGrows(e.cond, n + 2);
    NextGrows(e.thn, c.next);
    NextGrows(e.els, t.next);
    FlowExpr(e.cond, n + 2, h, heights);
    FlowExpr(e.thn, c.next, h, heights);
    FlowExpr(e.els, t.next, h, heights);
    IfChain(c.code, t.code, f.code, n, n + 1, h, heights);
  }

  lemma IfChain(c: Code, t: Code, f: Code, le: nat, la: nat, h: Height, heights: Plan)
    requires FlowsUp(c, h, heights) && FlowsUp(t, h, heights) && FlowsUp(f, h, heights)
    requires !c.Atom? && !t.Atom? && !f.Atom?
    requires le in heights && heights[le] == h && la in heights && heights[la] == Up(h)
    ensures FlowsUp(L7(c, EmitJump(OP_JF, le), t, EmitJump(OP_JMP, la), EmitLabel(le), f, EmitLabel(la)), h, heights)
  {
    hide Flow, Past, Joins, Shape, EmitJump, EmitLabel;
    var jf, jmp, e, a := EmitJump(OP_JF, le), EmitJump(OP_JMP, la), EmitLabel(le), EmitLabel(la);
    PastDrop(h);
    PastDrop(Up(h));
    JumpIsList(OP_JF, le);
    JumpIsList(OP_JMP, la);
    LabelIsAtom(le);
    LabelIsAtom(la);
    FlowJump(OP_JF, le, Up(h), heights);
    FlowJump(OP_JMP, la, Up(h), heights);
    FlowLabel(le, None, heights);
    FlowLabel(la, Some(Up(h)), heights);
    FlowCell(c, Join(jf, L5(t, jmp, e, f, a)), Some(h), Some(Up(h)), heights);
    FlowCell(jf, L5(t, jmp, e, f, a), Some(Up(h)), Some(h), heights);
    FlowCell(t, L4(jmp, e, f, a), Some(h), Some(Up(h)), heights);
    FlowCell(jmp, L3(e, f, a), Some(Up(h)), None, heights);
    FlowCell(e, L2(f, a), None, Some(h), heights);
    FlowL2(f, a, Some(h), Some(Up(h)), heights);
  }

  lemma JumpIsList(op: int, l: nat)
    ensures !EmitJump(op, l).Atom?
  {
  }

  lemma LabelIsAtom(l: nat)
    ensures EmitLabel(l) == Atom(Label(l))
  {
  }

  lemma WhileHeight(e: Expr, n: nat, h: Height, l: nat)
    requires e.While?
    ensures var b1 := CompileDo(e.loop, n + 2).next;
            && Compile(e, n).next == Compile(e.test, b1).next
            && LabelHeight(e, n, h, l) ==
               if l == n || l == n + 1 then Some(Up(h))
               else if l < b1 then SeqHeight(e.loop, n + 2, h, l)
               else LabelHeight(e.test, b1, Up(h), l)
  {
    hide SeqHeight, CompileDo, Joins, Shape;
  }

  lemma WhileParts(heights: Plan, e: Expr, n: nat, h: Height)
    requires e.While? && Agrees(heights, e, n, h)
    ensures AgreesSeq(heights, e.loop, n + 2, h) && Agrees(heights, e.test, CompileDo(e.loop, n + 2).next, Up(h))
    ensures n in heights && heights[n] == Up(h) && n + 1 in heights && heights[n + 1] == Up(h)
  {
    hide LabelHeight, SeqHeight, Compile, CompileDo;
    var b1 := CompileDo(e.loop, n + 2).next;
    SeqNextIs(e.loop, n + 2, 0);
    NextGrows(e.test, b1);
    WhileHeight(e, n, h, n);
    WhileHeight(e, n, h, n + 1);
    forall l: nat | n + 2 <= l < b1 && SeqHeight(e.loop, n + 2, h, l).Some?
      ensures l in heights && heights[l] == SeqHeight(e.loop, n + 2, h, l).value
    {
      WhileHeight(e, n, h, l);
    }
    forall l: nat | b1 <= l < Compile(e.test, b1).next && LabelHeight(e.test, b1, Up(h), l).Some?
      ensures l in heights && heights[l] == LabelHeight(e.test, b1, Up(h), l).value
    {
      WhileHeight(e, n, h, l);
    }
  }

  lemma DoParts(heights: Plan, e: Expr, n: nat, h: Height)
    requires e.Do? && Agrees(heights, e, n, h)
    ensures AgreesSeq(heights, e.body, n, h)
  {
    hide SeqHeight, CompileDo, Joins, Shape;
    SeqNextIs(e.body, n, 0);
    forall l: nat ensures LabelHeight(e, n, h, l) == SeqHeight(e.body, n, h, l) {
    }
  }

  lemma LetParts(heights: Plan, e: Expr, n: nat, h: Height)
    requires e.Let? && Agrees(heights, e, n, h)
    ensures AgreesSeq(heights, e.scoped, n, h.(scopes := h.scopes + 1))
  {
    hide SeqHeight, CompileDo, Joins, Shape;
    SeqNextIs(e.scoped, n, 0);
    forall l: nat ensures LabelHeight(e, n, h, l) == SeqHeight(e.scoped, n, h.(scopes := h.scopes + 1), l) {
    }
  }

  lemma ListParts(heights: Plan, e: Expr, n: nat, h: Height)
    requires e.MakeList? && Agrees(heights, e, n, h)
    ensures AgreesArgs(heights, e.elements, n, h)
  {
    hide ArgsHeight, CompileArgs, Joins, Shape;
    SeqNextIs(e.elements, n, 0);
    forall l: nat ensures LabelHeight(e, n, h, l) == ArgsHeight(e.elements, n, h, l) {
    }
  }

  lemma PastCalls(k: nat, h: Height)
    ensures Past(OP_LIST, k, Higher(h, k)) == Some(Up(h))
    ensures Past(OP_APPLY, k, Higher(Up(h), k)) == Some(Up(h))
    ensures Past(OP_APPLY_COLLECTION, 0, Up(Up(h))) == Some(Up(h))
    ensures Past(OP_LET, 0, h) == Some(h.(scopes := h.scopes + 1))
    ensures Past(OP_CLOSURE_POP, 0, Up(h.(scopes := h.scopes + 1))) == Some(Up(h))
    ensures Past(OP_RET, 0, Up(h)) == Some(Up(h))
    ensures Past(OP_DEF, 0, Up(h)) == Some(Up(h)) && Past(OP_SET, 0, Up(h)) == Some(Up(h))
    ensures Past(OP_FN, 0, Up(Up(Up(h)))) == Some(Up(h))
  {
  }

  lemma {:induction false} FlowWhile(e: Expr, n: nat, h: Height, heights: Plan)
    requires e.While? && WfExpr(e) && Agrees(heights, e, n, h)
    ensures FlowsUp(Compile(e, n).code, h, heights)
    decreases e, 0
  {
    hide Flow, Past, Joins, Shape, EmitJump, EmitLabel, Agrees, CompileDo;
    var b := CompileDo(e.loop, n + 2);
    var c := Compile(e.test, b.next);
    WhileParts(heights, e, n, h);
    NextGrows(e.test, b.next);
    FlowDo(e.loop, n + 2, h, heights);
    FlowExpr(e.test, b.next, Up(h), heights);
    WhileChain(b.code, c.code, n, n + 1, h, heights);
  }

  lemma WhileChain(b: Code, c: Code, ls: nat, le: nat, h: Height, heights: Plan)
    requires FlowsUp(b, h, heights) && FlowsUp(c, Up(h), heights) && !b.Atom? && !c.Atom?
    requires ls in heights && heights[ls] == Up(h) && le in heights && heights[le] == Up(h)
    ensures FlowsUp(L8(Emit1(OP_NIL), EmitJump(OP_JMP, le), EmitLabel(ls), Emit1(OP_DROP), b, EmitLabel(le), c, EmitJump(OP_JT, ls)), h, heights)
  {
    hide Flow, Past, Joins, Shape, EmitJump, EmitLabel;
    var jmp, jt, s, e := EmitJump(OP_JMP, le), EmitJump(OP_JT, ls), EmitLabel(ls), EmitLabel(le);
    var nil, drop := Emit1(OP_NIL), Emit1(OP_DROP);
    PastDrop(h);
    PastDrop(Up(h));
    JumpIsList(OP_JMP, le);
    JumpIsList(OP_JT, ls);
    LabelIsAtom(ls);
    LabelIsAtom(le);
    FlowOne(OP_NIL, h, heights);
    FlowJump(OP_JMP, le, Up(h), heights);
    FlowLabel(ls, None, heights);
    FlowOne(OP_DROP, Up(h), heights);
    FlowLabel(le, Some(Up(h)), heights);
    FlowJump(OP_JT, ls, Up(Up(h)), heights);
    FlowCell(nil, L7(jmp, s, drop, b, e, c, jt), Some(h), Some(Up(h)), heights);
    FlowCell(jmp, Join(s, L5(drop, b, e, c, jt)), Some(Up(h)), None, heights);
    FlowCell(s, L5(drop, b, e, c, jt), None, Some(Up(h)), heights);
    FlowCell(drop, L4(b, e, c, jt), Some(Up(h)), Some(h), heights);
    FlowCell(b, L3(e, c, jt), Some(h), Some(Up(h)), heights);
    FlowCell(e, L2(c, jt), Some(Up(h)), Some(Up(h)), heights);
    FlowL2(c, jt, Some(Up(h)), Some(Up(Up(h))), heights);
  }

  lemma EndHeight(e: Expr, es: Exprs, n: nat, h: Height, l: nat)
    requires e == Expr.And(es) || e == Expr.Or(es)
    ensures LabelHeight(e, n, h, l) == if l == n then Some(Up(h)) else SeqHeight(es, n + 1, h, l)
    ensures Compile(e, n).next == SeqNext(es, n + 1)
  {
    hide SeqHeight, CompileAnd, CompileOr, Joins, Shape;
    SeqNextIs(es, n + 1, n);
  }

  lemma AgreesAt(heights: Plan, e: Expr, n: nat, h: Height, l: nat)
    requires Agrees(heights, e, n, h) && n <= l < Compile(e, n).next && LabelHeight(e, n, h, l).Some?
    ensures l in heights && heights[l] == LabelHeight(e, n, h, l).value
  {
    hide LabelHeight, Compile;
  }

  lemma EndOwn(e: Expr, es: Exprs, n: nat, h: Height)
    requires e == Expr.And(es) || e == Expr.Or(es)
    ensures LabelHeight(e, n, h, n) == Some(Up(h)) && n < Compile(e, n).next
  {
    hide SeqHeight, CompileAnd, CompileOr, Joins, Shape, SeqNext;
    SeqNextIs(es, n + 1, n);
  }

  lemma EndLabel(heights: Plan, e: Expr, es: Exprs, n: nat, h: Height)
    requires e == Expr.And(es) || e == Expr.Or(es)
    requires Agrees(heights, e, n, h)
    ensures n in heights && heights[n] == Up(h)
  {
    hide LabelHeight, Compile, Agrees;
    EndOwn(e, es, n, h);
    AgreesAt(heights, e, n, h, n);
  }

  lemma EndBody(heights: Plan, e: Expr, es: Exprs, n: nat, h: Height, l: nat)
    requires e == Expr.And(es) || e == Expr.Or(es)
    requires Agrees(heights, e, n, h) && n + 1 <= l < SeqNext(es, n + 1) && SeqHeight(es, n + 1, h, l).Some?
    ensures l in heights && heights[l] == SeqHeight(es, n + 1, h, l).value
  {
    hide LabelHeight, SeqHeight, Compile, SeqNext, Agrees;
    EndHeight(e, es, n, h, l);
    AgreesAt(heights, e, n, h, l);
  }

  lemma EndParts(heights: Plan, e: Expr, es: Exprs, n: nat, h: Height)
    requires e == Expr.And(es) || e == Expr.Or(es)
    requires Agrees(heights, e, n, h)
    ensures AgreesSeq(heights, es, n + 1, h) && n in heights && heights[n] == Up(h)
  {
    hide Agrees, LabelHeight, SeqHeight, Compile, SeqNext;
    EndLabel(heights, e, es, n, h);
    forall l: nat | n + 1 <= l < SeqNext(es, n + 1) && SeqHeight(es, n + 1, h, l).Some?
      ensures l in heights && heights[l] == SeqHeight(es, n + 1, h, l).value
    {
      EndBody(heights, e, es, n, h, l);
    }
  }

  lemma {:induction false} FlowAndForm(e: Expr, n: nat, h: Height, heights: Plan)
    requires e.And? && WfExpr(e) && Agrees(heights, e, n, h)
    ensures FlowsUp(Compile(e, n).code, h, heights)
    decreases e, 0
  {
    hide Flow, Joins, Shape, EmitLabel, Agrees, CompileAnd;
    EndParts(heights, e, e.conj, n, h);
    FlowAnd(e.conj, n, n + 1, h, heights);
    LabelIsAtom(n);
    FlowLabel(n, Some(Up(h)), heights);
    FlowL2(CompileAnd(e.conj, n, n + 1).code, EmitLabel(n), Some(h), Some(Up(h)), heights);
  }

  lemma {:induction false} FlowAnd(es: Exprs, end: nat, n: nat, h: Height, heights: Plan)
    requires WfExprs(es) && AgreesSeq(heights, es, n, h) && end in heights && heights[end] == Up(h)
    ensures FlowsUp(CompileAnd(es, end, n).code, h, heights) && !CompileAnd(es, end, n).code.Atom?
    decreases es, 2
  {
    hide Flow, Past, Compile, Joins, Shape, EmitJump, AgreesSeq, Agrees;
    PastDrop(h);
    if es.End? {
      FlowOne(OP_NIL, h, heights);
      FlowBlank(Some(Up(h)), heights);
      FlowL2(Emit1(OP_NIL), Blank, Some(h), Some(Up(h)), heights);
    } else {
      var c := Compile(es.head, n);
      SeqParts(heights, es, n, h);
      NextGrows(es.head, n);
      FlowExpr(es.head, n, h, heights);
      if es.tail.End? {
        FlowBlank(Some(Up(h)), heights);
        FlowL2(c.code, Blank, Some(h), Some(Up(h)), heights);
      } else {
        var d := CompileAnd(es.tail, end, c.next).code;
        FlowAnd(es.tail, end, c.next, h, heights);
        ShortChain(OP_JF, d, end, h, heights);
        FlowL2(c.code, L4(Emit1(OP_DUP), EmitJump(OP_JF, end), Emit1(OP_DROP), d), Some(h), Some(Up(h)), heights);
      }
    }
  }

  // Keep the value and leave, or drop it and go on.
  lemma ShortChain(op: int, d: Code, end: nat, h: Height, heights: Plan)
    requires op == OP_JT || op == OP_JF
    requires Flow(d, Some(h), heights).Some? && !d.Atom? && end in heights && heights[end] == Up(h)
    ensures Flow(L4(Emit1(OP_DUP), EmitJump(op, end), Emit1(OP_DROP), d), Some(Up(h)), heights) == Flow(d, Some(h), heights)
  {
    hide Flow, Past, Joins, Shape, EmitJump;
    PastDrop(h);
    PastDrop(Up(h));
    JumpIsList(op, end);
    FlowOne(OP_DUP, Up(h), heights);
    FlowJump(op, end, Up(Up(h)), heights);
    FlowOne(OP_DROP, Up(h), heights);
    FlowCell(Emit1(OP_DUP), L3(EmitJump(op, end), Emit1(OP_DROP), d), Some(Up(h)), Some(Up(Up(h))), heights);
    FlowCell(EmitJump(op, end), L2(Emit1(OP_DROP), d), Some(Up(Up(h))), Some(Up(h)), heights);
    FlowL2(Emit1(OP_DROP), d, Some(Up(h)), Some(h), heights);
  }

  lemma {:induction false} FlowOrForm(e: Expr, n: nat, h: Height, heights: Plan)
    requires e.Or? && WfExpr(e) && Agrees(heights, e, n, h)
    ensures FlowsUp(Compile(e, n).code, h, heights)
    decreases e, 0
  {
    hide Flow, Joins, Shape, EmitLabel, EmitLit, Agrees, CompileOr;
    var c := CompileOr(e.disj, n, n + 1).code;
    var f := EmitLit(OP_PUSH, Bool(false));
    EndParts(heights, e, e.disj, n, h);
    FlowOr(e.disj, n, n + 1, h, heights);
    FlowConstant(Bool(false), h, heights);
    LabelIsAtom(n);
    LitIsList(OP_PUSH, Bool(false));
    FlowLabel(n, Some(Up(h)), heights);
    FlowCell(c, L2(f, EmitLabel(n)), Some(h), Some(h), heights);
    FlowL2(f, EmitLabel(n), Some(h), Some(Up(h)), heights);
  }

  lemma LitIsList(op: int, v: Value)
    requires IsLitOp(op)
    ensures !EmitLit(op, v).Atom?
  {
  }

  lemma {:induction false} FlowOr(es: Exprs, end: nat, n: nat, h: Height, heights: Plan)
    requires WfExprs(es) && AgreesSeq(heights, es, n, h) && end in heights && heights[end] == Up(h)
    ensures Flow(CompileOr(es, end, n).code, Some(h), heights) == Some(Some(h)) && !CompileOr(es, end, n).code.Atom?
    decreases es, 2
  {
    hide Flow, Past, Compile, Joins, Shape, EmitJump, AgreesSeq, Agrees;
    if es.End? {
      FlowBlank(Some(h), heights);
    } else {
      var c := Compile(es.head, n);
      SeqParts(heights, es, n, h);
      NextGrows(es.head, n);
      FlowExpr(es.head, n, h, heights);
      var d := CompileOr(es.tail, end, c.next).code;
      FlowOr(es.tail, end, c.next, h, heights);
      ShortChain(OP_JT, d, end, h, heights);
      FlowCell(c.code, L4(Emit1(OP_DUP), EmitJump(OP_JT, end), Emit1(OP_DROP), d), Some(h), Some(Up(h)), heights);
    }
  }
}
