// Stack height and scope depth in every run of the VM on compiled code.
module StackDepth {
  import opened Values
  import opened Primitives
  import opened Source
  import opened Assembler
  import opened Compiler
  import opened Machine
  import opened Simulation
  import opened Programs
  import opened Frames
  import opened Heights
  import opened Depths

  ghost predicate GoodVm(z: Limit, m: Vm) {
    GoodAll(z, m.stack) && GoodHeap(z, m.heap) && GoodText(z, m.text)
  }

  ghost predicate NoTry(m: Vm) {
    forall i :: 0 <= i < |m.cs| && m.cs[i] < |m.heap| ==> m.heap[m.cs[i]].kind != TryScope
  }

  // The stack of `size` slots and the closure stack fit height h of the running
  // activation: h.scopes scopes on top of its call frame, h.depth slots on top
  // of what its caller left.  The caller waits for one more slot, at a height
  // its own plan has.
  ghost predicate Sits(z: Limit, bottom: nat, heap: seq<Closure>, cs: seq<nat>, h: Height, size: int)
    decreases |cs|, 0
  {
    cs != [] &&
    var b := FrameIndex(heap, cs, |cs| - 1);
    && h.scopes == |cs| - 1 - b
    && if b == 0 then size - h.depth == bottom
       else cs[b - 1] < |heap| && size - h.depth == heap[cs[b - 1]].sp + 1 && Waits(z, bottom, heap, cs[..b], heap[cs[b - 1]])
  }

  // A suspended caller k.
  ghost predicate Waits(z: Limit, bottom: nat, heap: seq<Closure>, cs: seq<nat>, k: Closure)
    decreases |cs|, 1
  {
    && HasPlan(z, k.text) && 0 <= k.ip && k.ip in PlanOf(z, k.text) && PlanOf(z, k.text)[k.ip].depth > 0
    && Sits(z, bottom, heap, cs, PlanOf(z, k.text)[k.ip], k.sp + 2)
  }

  // The running activation is at its planned height.
  ghost predicate InPlan(z: Limit, bottom: nat, m: Vm) {
    && HasPlan(z, m.text) && 0 <= m.ip && m.ip in PlanOf(z, m.text)
    && Sits(z, bottom, m.heap, m.cs, PlanOf(z, m.text)[m.ip], |m.stack|)
  }

  ghost predicate Inv(z: Limit, bottom: nat, m: Vm) {
    bottom > 0 && WfVm(m) && GoodVm(z, m) && NoTry(m) && (m.mode.Running? ==> InPlan(z, bottom, m))
  }

  // How many slots the running activation found on the stack.
  ghost function Start(bottom: nat, m: Vm): int
    requires m.cs != []
  {
    var b := FrameIndex(m.heap, m.cs, |m.cs| - 1);
    if b == 0 then bottom else if m.cs[b - 1] < |m.heap| then m.heap[m.cs[b - 1]].sp + 1 else 0
  }

  lemma StartIs(z: Limit, bottom: nat, m: Vm, h: Height)
    requires Sits(z, bottom, m.heap, m.cs, h, |m.stack|)
    ensures Start(bottom, m) == |m.stack| - h.depth && h.scopes == |m.cs| - 1 - FrameIndex(m.heap, m.cs, |m.cs| - 1)
    ensures bottom > 0 ==> Start(bottom, m) > 0
  {
    hide Waits, FrameIndex;
  }

  // ---- what depends on what

  // Same kinds, and the same resume points below the top.
  ghost predicate SameBelow(heap: seq<Closure>, heap': seq<Closure>, cs: seq<nat>) {
    && (forall i :: 0 <= i < |cs| ==> cs[i] < |heap| && cs[i] < |heap'| && heap'[cs[i]].kind == heap[cs[i]].kind)
    && forall i :: 0 <= i < |cs| - 1 ==>
         heap'[cs[i]].ip == heap[cs[i]].ip && heap'[cs[i]].sp == heap[cs[i]].sp && heap'[cs[i]].text == heap[cs[i]].text
  }

  lemma {:induction false} FrameKept(heap: seq<Closure>, heap': seq<Closure>, cs: seq<nat>, cs': seq<nat>, k: nat)
    requires k < |cs| && k < |cs'| && cs'[..k + 1] == cs[..k + 1]
    requires forall i :: 0 <= i <= k ==> cs[i] < |heap| && cs[i] < |heap'| && heap'[cs[i]].kind == heap[cs[i]].kind
    ensures FrameIndex(heap', cs', k) == FrameIndex(heap, cs, k)
  {
    assert cs'[k] == cs'[..k + 1][k] == cs[..k + 1][k] == cs[k];
    if k > 0 {
      assert cs'[..k] == cs'[..k + 1][..k] == cs[..k + 1][..k] == cs[..k];
      FrameKept(heap, heap', cs, cs', k - 1);
    }
  }

  lemma {:induction false} SitsKept(z: Limit, bottom: nat, heap: seq<Closure>, heap': seq<Closure>, cs: seq<nat>, h: Height, size: int, h': Height, size': int)
    requires Sits(z, bottom, heap, cs, h, size) && SameBelow(heap, heap', cs)
    requires h'.scopes == h.scopes && size' - h'.depth == size - h.depth
    ensures Sits(z, bottom, heap', cs, h', size')
    decreases |cs|, 1
  {
    hide HasPlan, PlanOf, Waits;
    var b := FrameIndex(heap, cs, |cs| - 1);
    FrameKept(heap, heap', cs, cs, |cs| - 1);
    if b > 0 {
      WaitsKept(z, bottom, heap, heap', cs, b, heap[cs[b - 1]], heap'[cs[b - 1]]);
    }
  }

  lemma {:induction false} WaitsKept(z: Limit, bottom: nat, heap: seq<Closure>, heap': seq<Closure>, cs: seq<nat>, b: nat, k: Closure, k': Closure)
    requires b < |cs| && Waits(z, bottom, heap, cs[..b], k) && SameBelow(heap, heap', cs)
    requires k'.ip == k.ip && k'.sp == k.sp && k'.text == k.text
    ensures Waits(z, bottom, heap', cs[..b], k')
    decreases |cs|, 0
  {
    hide HasPlan, PlanOf, Sits;
    var g := PlanOf(z, k.text)[k.ip];
    SitsKept(z, bottom, heap, heap', cs[..b], g, k.sp + 2, g, k.sp + 2);
  }

  // Opening and closing a let scope.
  lemma SitsLet(z: Limit, bottom: nat, heap: seq<Closure>, heap': seq<Closure>, cs: seq<nat>, h: Height, size: int)
    requires Sits(z, bottom, heap, cs, h, size) && SameBelow(heap, heap', cs)
    requires |heap'| > |heap| && heap'[|heap|].kind != CallFrame
    ensures Sits(z, bottom, heap', cs + [|heap|], h.(scopes := h.scopes + 1), size)
  {
    hide HasPlan, PlanOf, Waits;
    var cs' := cs + [|heap|];
    SitsKept(z, bottom, heap, heap', cs, h, size, h, size);
    assert cs'[..|cs|] == cs;
    FrameKept(heap, heap', cs, cs', |cs| - 1);
    FrameKept(heap, heap', cs, cs, |cs| - 1);
    var b := FrameIndex(heap', cs', |cs'| - 1);
    assert b == FrameIndex(heap', cs, |cs| - 1);
    assert cs'[..b] == cs[..b];
  }

  lemma SitsPop(z: Limit, bottom: nat, heap: seq<Closure>, cs: seq<nat>, h: Height, size: int)
    requires Sits(z, bottom, heap, cs, h, size) && h.scopes > 0 && (forall i :: 0 <= i < |cs| ==> cs[i] < |heap|)
    ensures |cs| > 1 && Sits(z, bottom, heap, cs[..|cs| - 1], h.(scopes := h.scopes - 1), size)
  {
    hide HasPlan, PlanOf, Waits;
    var cs' := cs[..|cs| - 1];
    assert FrameIndex(heap, cs, |cs| - 1) == FrameIndex(heap, cs, |cs| - 2);
    FrameKept(heap, heap, cs, cs', |cs| - 2);
    var b := FrameIndex(heap, cs, |cs| - 1);
    assert cs'[..b] == cs[..b];
  }

  // A call: the caller waits at `out`, with its stack pointer saved.
  lemma SitsCall(z: Limit, bottom: nat, heap: seq<Closure>, heap': seq<Closure>, cs: seq<nat>, h: Height, size: int, out: Height, rest: nat)
    requires Sits(z, bottom, heap, cs, h, size) && SameBelow(heap, heap', cs)
    requires |heap'| > |heap| && heap'[|heap|].kind == CallFrame
    requires out.depth > 0 && out.scopes == h.scopes && rest + 1 - out.depth == size - h.depth
    requires var k := heap'[cs[|cs| - 1]];
             HasPlan(z, k.text) && 0 <= k.ip && k.ip in PlanOf(z, k.text) && PlanOf(z, k.text)[k.ip] == out && k.sp + 1 == rest
    ensures Sits(z, bottom, heap', cs + [|heap|], START, rest)
  {
    hide HasPlan, PlanOf, Waits, FrameIndex;
    var k := heap'[cs[|cs| - 1]];
    SitsKept(z, bottom, heap, heap', cs, h, size, out, rest + 1);
    WaitsHere(z, bottom, heap', cs, k, out);
    FramedSits(z, bottom, heap', cs, |heap|, k, rest);
  }

  lemma WaitsHere(z: Limit, bottom: nat, heap: seq<Closure>, cs: seq<nat>, k: Closure, out: Height)
    requires HasPlan(z, k.text) && 0 <= k.ip && k.ip in PlanOf(z, k.text) && PlanOf(z, k.text)[k.ip] == out && out.depth > 0
    requires Sits(z, bottom, heap, cs, out, k.sp + 2)
    ensures Waits(z, bottom, heap, cs, k)
  {
    hide HasPlan, PlanOf, Sits;
  }

  lemma FramedSits(z: Limit, bottom: nat, heap: seq<Closure>, cs: seq<nat>, frame: nat, k: Closure, rest: nat)
    requires cs != [] && cs[|cs| - 1] < |heap| && k == heap[cs[|cs| - 1]] && k.sp + 1 == rest && Waits(z, bottom, heap, cs, k)
    requires frame < |heap| && heap[frame].kind == CallFrame
    ensures Sits(z, bottom, heap, cs + [frame], START, rest)
  {
    hide HasPlan, PlanOf, Waits;
    var cs' := cs + [frame];
    assert cs'[..|cs|] == cs;
    assert FrameIndex(heap, cs', |cs|) == |cs|;
  }

  // A return from a frame above the bottom resumes the caller as it waits.
  lemma SitsRet(z: Limit, bottom: nat, heap: seq<Closure>, cs: seq<nat>, h: Height, size: int)
    requires Sits(z, bottom, heap, cs, h, size) && FrameIndex(heap, cs, |cs| - 1) > 0
    ensures var b := FrameIndex(heap, cs, |cs| - 1); var k := heap[cs[b - 1]];
            && size - h.depth == k.sp + 1 && HasPlan(z, k.text) && 0 <= k.ip && k.ip in PlanOf(z, k.text)
            && PlanOf(z, k.text)[k.ip].depth > 0
            && Sits(z, bottom, heap, cs[..b], PlanOf(z, k.text)[k.ip], k.sp + 2)
  {
  }

  // An activation starts where its caller's slots end, or above.
  lemma {:induction false} StartsAbove(z: Limit, bottom: nat, heap: seq<Closure>, cs: seq<nat>, h: Height, size: int, j: nat)
    requires Sits(z, bottom, heap, cs, h, size) && 0 < j < |cs| && (forall i :: 0 <= i < |cs| ==> cs[i] < |heap|)
    requires heap[cs[j]].kind == CallFrame
    ensures size - h.depth >= heap[cs[j - 1]].sp + 1
    decreases |cs|
  {
    hide HasPlan, PlanOf, Sits, FrameIndex;
    FrameAtOrAbove(heap, cs, |cs| - 1, j);
    var b := FrameIndex(heap, cs, |cs| - 1);
    var g := CallerSits(z, bottom, heap, cs, h, size, b);
    if b > j {
      var below := cs[..b];
      assert below[j] == cs[j] && below[j - 1] == cs[j - 1];
      StartsAbove(z, bottom, heap, below, g, heap[cs[b - 1]].sp + 2, j);
    }
  }

  lemma CallerSits(z: Limit, bottom: nat, heap: seq<Closure>, cs: seq<nat>, h: Height, size: int, b: nat) returns (g: Height)
    requires Sits(z, bottom, heap, cs, h, size) && b == FrameIndex(heap, cs, |cs| - 1) > 0
    ensures cs[b - 1] < |heap| && size - h.depth == heap[cs[b - 1]].sp + 1 && g.depth > 0
    ensures Sits(z, bottom, heap, cs[..b], g, heap[cs[b - 1]].sp + 2)
  {
    hide HasPlan, PlanOf, FrameIndex;
    SitsRet(z, bottom, heap, cs, h, size);
    g := PlanOf(z, heap[cs[b - 1]].text)[heap[cs[b - 1]].ip];
  }

  // ---- opcodes that stay in the activation

  // The lowest k slots are what they were.
  ghost predicate Below(m: Vm, m': Vm, k: int) {
    0 <= k <= |m.stack| && k <= |m'.stack| && m'.stack[..k] == m.stack[..k]
  }

  // The stack changes as planned, the closure stack not at all.
  ghost predicate Straight(m: Vm, m': Vm, pops: nat, pushes: nat, ip: int) {
    && Below(m, m', |m.stack| - pops)
    && (m'.mode.Running? ==>
          m'.cs == m.cs && m'.text == m.text && m'.ip == ip && |m'.stack| == |m.stack| - pops + pushes)
  }

  // Opcodes with a control effect of their own.
  predicate Special(b: byte) {
    IsJump(b) || b == OP_LET || b == OP_CLOSURE_POP || b == OP_APPLY || b == OP_APPLY_COLLECTION || b == OP_RET || b == OP_TRY
  }

  lemma LiteralIsStraight(m: Vm, b: byte)
    requires m.mode.Running? && 0 <= m.ip < |m.text.data| && m.text.data[m.ip] == b
    requires IsLitOp(b) || IsWide(b)
    requires |m.stack| >= Pops(b, Operand(m.text, m.ip))
    ensures Straight(m, Step(m), Pops(b, Operand(m.text, m.ip)), Pushes(b), m.ip + Bytes(b))
  {
    hide Index16, LookupH, BinderH, CantResolve, CantSet, DecodeOffset;
  }

  lemma PrimBytes(b: byte)
    requires Op1OfByte(b).Some? || Op2OfByte(b).Some?
    ensures Bytes(b) == 1 && Pushes(b) == 1 && (forall n :: Pops(b, n) == if Op1OfByte(b).Some? then 1 else 2)
  {
  }

  lemma DispatchPrim(m: Vm, b: byte)
    requires Op1OfByte(b).Some? || Op2OfByte(b).Some?
    ensures Dispatch(m, b) ==
            if Op1OfByte(b).Some? then DoPrim1(m, Op1OfByte(b).value) else DoPrim2(m, Op2OfByte(b).value)
  {
    hide DoPrim1, DoPrim2, DoPush, DoGet, DoSet, DoDef, DoJump, DoBranch, DoList, DoApply, DoApplyCollection, DoRet, DoTry, DoFn, DoLet;
  }

  lemma PrimIsStraight(m: Vm, b: byte)
    requires m.mode.Running? && 0 <= m.ip < |m.text.data| && m.text.data[m.ip] == b
    requires Op1OfByte(b).Some? || Op2OfByte(b).Some?
    requires |m.stack| >= Pops(b, Operand(m.text, m.ip))
    ensures Straight(m, Step(m), Pops(b, Operand(m.text, m.ip)), Pushes(b), m.ip + Bytes(b))
  {
    hide Apply1, Apply2, Dispatch, Op1OfByte, Op2OfByte, Pops, Pushes, Bytes;
    PrimBytes(b);
    DispatchPrim(m.(ip := m.ip + 1), b);
  }

  lemma OtherIsStraight(m: Vm, b: byte)
    requires m.mode.Running? && 0 <= m.ip < |m.text.data| && m.text.data[m.ip] == b
    requires !Special(b) && !IsLitOp(b) && !IsWide(b) && Op1OfByte(b).None? && Op2OfByte(b).None?
    requires |m.stack| >= Pops(b, Operand(m.text, m.ip))
    ensures Straight(m, Step(m), Pops(b, Operand(m.text, m.ip)), Pushes(b), m.ip + Bytes(b))
  {
    hide Apply1, Apply2, ListDown, DecodeOffset, DoPush, DoGet, DoSet, DoDef, DoJump, DoBranch, DoLet, DoClosurePop, DoTry,
      DoApply, DoApplyCollection, DoRet, DoPrim1, DoPrim2, DoList, DoFn;
    if b == OP_LIST {
      ListIsStraight(m);
    } else if b == OP_FN {
      FnIsStraight(m);
    }
  }

  lemma ListIsStraight(m: Vm)
    requires m.mode.Running? && 0 <= m.ip < |m.text.data| && m.text.data[m.ip] == OP_LIST
    requires |m.stack| >= Pops(OP_LIST, Operand(m.text, m.ip))
    ensures Straight(m, Step(m), Pops(OP_LIST, Operand(m.text, m.ip)), Pushes(OP_LIST), m.ip + Bytes(OP_LIST))
  {
    hide ListDown;
    assert Step(m) == DoList(m.(ip := m.ip + 1)) by { hide DoList; }
  }

  lemma FnIsStraight(m: Vm)
    requires m.mode.Running? && 0 <= m.ip < |m.text.data| && m.text.data[m.ip] == OP_FN
    requires |m.stack| >= Pops(OP_FN, Operand(m.text, m.ip))
    ensures Straight(m, Step(m), Pops(OP_FN, Operand(m.text, m.ip)), Pushes(OP_FN), m.ip + Bytes(OP_FN))
  {
    assert Step(m) == DoFn(m.(ip := m.ip + 1)) by { hide DoFn; }
  }

  lemma StepIsStraight(m: Vm, b: byte)
    requires m.mode.Running? && 0 <= m.ip < |m.text.data| && m.text.data[m.ip] == b && !Special(b)
    requires |m.stack| >= Pops(b, Operand(m.text, m.ip))
    ensures Straight(m, Step(m), Pops(b, Operand(m.text, m.ip)), Pushes(b), m.ip + Bytes(b))
  {
    hide Step, Straight, Pops, Pushes, Bytes, Op1OfByte, Op2OfByte, Special;
    if IsLitOp(b) || IsWide(b) {
      LiteralIsStraight(m, b);
    } else if Op1OfByte(b).Some? || Op2OfByte(b).Some? {
      PrimIsStraight(m, b);
    } else {
      OtherIsStraight(m, b);
    }
  }

  // What the plan says about the next instruction.
  ghost predicate PlannedNext(z: Limit, m: Vm, b: byte, h: Height, out: Height) {
    && HasPlan(z, m.text) && 0 <= m.ip < |m.text.data| && m.ip in PlanOf(z, m.text)
    && b == m.text.data[m.ip] && h == PlanOf(z, m.text)[m.ip]
    && Past(b, Operand(m.text, m.ip), h) == Some(out)
    && (b != OP_JMP && b != OP_RET ==> Goes(PlanOf(z, m.text), m.ip + Bytes(b), out))
    && (IsJump(b) ==> m.ip + 2 < |m.text.data| &&
                      Goes(PlanOf(z, m.text), m.ip + DecodeOffset(m.text.data[m.ip + 1], m.text.data[m.ip + 2]), out))
  }

  lemma PlannedAt(z: Limit, bottom: nat, m: Vm) returns (b: byte, h: Height, out: Height)
    requires m.mode.Running? && InPlan(z, bottom, m) && m.ip < |m.text.data|
    ensures PlannedNext(z, m, b, h, out)
  {
    hide Sits, Pops, Pushes, DecodeOffset, Past;
    var plan := PlanOf(z, m.text);
    assert InstrPlanned(m.text, m.ip, plan[m.ip], plan);
    b := m.text.data[m.ip];
    h := plan[m.ip];
    out := Past(b, Operand(m.text, m.ip), h).value;
  }

  // ---- only planned bytecode is ever run

  // Good values stay good, and no try is opened.
  ghost predicate StaysGood(z: Limit, m: Vm, m': Vm) {
    GoodVm(z, m') && |m.heap| <= |m'.heap| && forall i :: |m.heap| <= i < |m'.heap| ==> m'.heap[i].kind != TryScope
  }

  lemma StackGood(z: Limit, m: Vm, m': Vm)
    requires GoodVm(z, m) && GoodAll(z, m'.stack) && m'.heap == m.heap && m'.text == m.text
    ensures StaysGood(z, m, m')
  {
    hide Good, GoodHeap, GoodText;
  }

  lemma PoppedGood(z: Limit, m: Vm, n: nat)
    requires GoodVm(z, m) && n <= |m.stack|
    ensures GoodAll(z, Popped(m, n)) && (m.stack != [] ==> Good(z, Top(m)))
  {
    hide Good, GoodHeap, GoodText;
  }

  lemma PushedGood(z: Limit, vs: seq<Value>, v: Value)
    requires GoodAll(z, vs) && Good(z, v)
    ensures GoodAll(z, vs + [v])
  {
    hide Good;
  }

  lemma {:induction false} LookupGood(z: Limit, heap: seq<Closure>, c: nat, s: Symbol)
    requires GoodHeap(z, heap) && LookupH(heap, c, s).Some?
    ensures Good(z, LookupH(heap, c, s).value)
  {
    hide Good, GoodText;
    if s !in heap[c].data {
      LookupGood(z, heap, heap[c].parent.value, s);
    }
  }

  lemma BindGood(z: Limit, m: Vm, m': Vm, b: nat, s: Symbol, v: Value)
    requires GoodVm(z, m) && b < |m.heap| && Good(z, v)
    requires m'.heap == BindH(m.heap, b, s, v) && m'.stack == m.stack && m'.text == m.text
    ensures StaysGood(z, m, m')
  {
    hide Good, GoodText;
    assert GoodData(z, m.heap[b].data);
  }

  lemma LiteralGood(z: Limit, m: Vm, wide: bool)
    requires GoodVm(z, m) && Literal(m, wide).Some?
    ensures Good(z, Literal(m, wide).value)
  {
    hide Good, GoodHeap, HasPlan, Index16;
  }

  lemma {:induction false} ListDownGood(z: Limit, vs: seq<Value>, lo: nat, hi: nat, acc: Value)
    requires lo <= hi <= |vs| && GoodAll(z, vs) && Good(z, acc)
    ensures Good(z, ListDown(vs, lo, hi, acc))
    decreases hi - lo
  {
    if lo < hi {
      ListDownGood(z, vs, lo, hi - 1, Pair(vs[hi - 1], acc));
    }
  }

  lemma {:induction false} BindStackGood(z: Limit, params: Value, vs: seq<Value>, i: nat, data: map<Symbol, Value>)
    requires i <= |vs| && GoodAll(z, vs) && GoodData(z, data)
    ensures GoodData(z, BindStack(params, vs, i, data))
  {
    if params.Pair? {
      if i == |vs| {
        BindStackGood(z, params.cdr, vs, i, data[NameOf(params.car) := Nil]);
      } else {
        BindStackGood(z, params.cdr, vs, i + 1, data[NameOf(params.car) := vs[i]]);
      }
    } else if params.Sym? {
      ListDownGood(z, vs, i, |vs|, Nil);
    }
  }

  lemma {:induction false} BindListGood(z: Limit, params: Value, args: Value, data: map<Symbol, Value>)
    requires Good(z, args) && GoodData(z, data)
    ensures GoodData(z, BindList(params, args, data))
    decreases params
  {
    if params.Pair? {
      if args.Pair? {
        BindListGood(z, params.cdr, args.cdr, data[NameOf(params.car) := args.car]);
      } else {
        BindListGood(z, params.cdr, args, data[NameOf(params.car) := Nil]);
      }
    }
  }

  lemma CarGood(z: Limit, a: Value)
    requires Good(z, a)
    ensures Good(z, Car(a)) && Good(z, Cdr(a))
  {
    hide HasPlan;
  }

  lemma Apply1Good(z: Limit, op: Op1, a: Value)
    requires Good(z, a)
    ensures Apply1(op, a).Ok? ==> Good(z, Apply1(op, a).v)
  {
    hide Good, Car, Cdr;
    NilGood(z);
    CarGood(z, a);
    CarGood(z, Cdr(a));
  }

  lemma Apply2Good(z: Limit, op: Op2, a: Value, b: Value)
    requires Good(z, a) && Good(z, b)
    ensures Apply2(op, a, b).Ok? ==> Good(z, Apply2(op, a, b).v)
  {
    hide Compare, Good, ArityError, NonNumeric, Wrap64, BitAnd, BitOr, BitXor;
    NilGood(z);
    PairGood(z, a, b);
  }

  lemma PairGood(z: Limit, a: Value, b: Value)
    requires Good(z, a) && Good(z, b)
    ensures Good(z, Pair(a, b))
  {
  }

  lemma NoTextGood(z: Limit)
    ensures GoodText(z, NO_TEXT)
  {
    PlannedHasPlan(z, NO_TEXT, map[0 := START]);
  }

  lemma LoadsGood(z: Limit, m: Vm, wide: bool)
    requires GoodVm(z, m)
    ensures StaysGood(z, m, DoPush(m, wide)) && StaysGood(z, m, DoGet(m, wide))
  {
    hide Good, GoodAll, GoodHeap, GoodText, StaysGood, LookupH, CantResolve, Literal;
    StackGood(z, m, m);
    StackGood(z, m, Halt(m));
    var l := Literal(m, wide);
    if l.Some? {
      LiteralGood(z, m, wide);
      PushedGood(z, m.stack, l.value);
      StackGood(z, m, DoPush(m, wide));
      if l.value.Sym? {
        var w := LookupH(m.heap, m.c, l.value.s);
        if w.Some? {
          LookupGood(z, m.heap, m.c, l.value.s);
          PushedGood(z, m.stack, w.value);
        }
        StackGood(z, m, DoGet(m, wide));
      }
    }
  }

  lemma StoresGood(z: Limit, m: Vm, wide: bool)
    requires GoodVm(z, m)
    ensures StaysGood(z, m, DoSet(m, wide)) && StaysGood(z, m, DoDef(m, wide))
  {
    hide Good, GoodAll, GoodHeap, GoodText, GoodVm, StaysGood, BindH, BinderH, CantSet, Literal;
    VmGood(z, m);
    StackGood(z, m, Halt(m));
    var l := Literal(m, wide);
    if l.Some? && l.value.Sym? && m.stack != [] {
      var s := l.value.s;
      PoppedGood(z, m, 0);
      var b := BinderH(m.heap, m.c, s);
      if b.Some? {
        BindGood(z, m, DoSet(m, wide), b.value, s, Top(m));
      } else {
        StackGood(z, m, DoSet(m, wide));
      }
      if m.c < |m.heap| {
        BindGood(z, m, DoDef(m, wide), m.c, s, Top(m));
      }
    }
  }

  lemma VmGood(z: Limit, m: Vm)
    requires GoodVm(z, m)
    ensures GoodAll(z, m.stack) && GoodHeap(z, m.heap) && GoodText(z, m.text)
  {
  }

  lemma Prim1Good(z: Limit, m: Vm, op: Op1)
    requires GoodVm(z, m)
    ensures StaysGood(z, m, DoPrim1(m, op))
  {
    hide Good, GoodAll, GoodHeap, GoodText, GoodVm, StaysGood, Apply1, Popped, Top;
    VmGood(z, m);
    if m.stack != [] {
      PoppedGood(z, m, 1);
      Apply1Good(z, op, Top(m));
      if Apply1(op, Top(m)).Ok? {
        PushedGood(z, Popped(m, 1), Apply1(op, Top(m)).v);
      }
    }
    StackGood(z, m, DoPrim1(m, op));
  }

  lemma DoPrim2Good(z: Limit, m: Vm, op: Op2)
    requires GoodVm(z, m)
    ensures StaysGood(z, m, DoPrim2(m, op))
  {
    hide Good, GoodAll, GoodHeap, GoodText, GoodVm, StaysGood, Apply2, Popped, Top;
    VmGood(z, m);
    if |m.stack| >= 2 {
      PoppedGood(z, m, 1);
      PoppedGood(z, m, 2);
      var a := m.stack[|m.stack| - 2];
      GoodAt(z, m.stack, |m.stack| - 2);
      Apply2Good(z, op, a, Top(m));
      if Apply2(op, a, Top(m)).Ok? {
        PushedGood(z, Popped(m, 2), Apply2(op, a, Top(m)).v);
      }
    }
    StackGood(z, m, DoPrim2(m, op));
  }

  lemma GoodAt(z: Limit, vs: seq<Value>, i: nat)
    requires GoodAll(z, vs) && i < |vs|
    ensures Good(z, vs[i]) && GoodAll(z, vs[i..]) && GoodAll(z, vs[..i])
  {
    hide Good;
  }

  // The list that replaces the top n slots.
  lemma WindowGood(z: Limit, vs: seq<Value>, n: nat)
    requires GoodAll(z, vs) && n <= |vs|
    ensures Good(z, ListDown(vs[|vs| - n..], 0, n, Nil)) && GoodAll(z, vs[..|vs| - n])
  {
    hide Good, GoodAll, ListDown;
    GoodPart(z, vs, |vs| - n);
    NilGood(z);
    ListDownGood(z, vs[|vs| - n..], 0, n, Nil);
  }

  lemma GoodPart(z: Limit, vs: seq<Value>, i: nat)
    requires GoodAll(z, vs) && i <= |vs|
    ensures GoodAll(z, vs[..i]) && GoodAll(z, vs[i..])
  {
    hide Good;
  }

  lemma ListGood(z: Limit, m: Vm)
    requires GoodVm(z, m)
    ensures StaysGood(z, m, DoList(m))
  {
    hide Good, GoodAll, GoodHeap, GoodText, GoodVm, StaysGood, ListDown;
    VmGood(z, m);
    if 0 <= m.ip < |m.text.data| && |m.stack| >= m.text.data[m.ip] {
      var n: nat := m.text.data[m.ip];
      WindowGood(z, m.stack, n);
      PushedGood(z, m.stack[..|m.stack| - n], ListDown(m.stack[|m.stack| - n..], 0, n, Nil));
    }
    StackGood(z, m, DoList(m));
  }

  lemma TailGood(z: Limit, vs: seq<Value>, i: nat)
    requires GoodAll(z, vs) && i <= |vs|
    ensures GoodAll(z, vs[i..])
  {
    hide Good;
  }

  lemma NilGood(z: Limit)
    ensures Good(z, Nil) && GoodData(z, map[])
    ensures forall b :: Good(z, Bool(b))
    ensures forall i :: Good(z, Int(i))
    ensures forall id :: Good(z, Lambda(id))
  {
  }

  // A fresh closure over the same or an updated heap.
  lemma FreshGood(z: Limit, m: Vm, m': Vm, k: Closure)
    requires GoodVm(z, m) && GoodAll(z, m'.stack) && GoodText(z, m'.text)
    requires |m'.heap| == |m.heap| + 1 && m'.heap[|m.heap|] == k
    requires forall i :: 0 <= i < |m.heap| ==>
               && m'.heap[i].data == m.heap[i].data && m'.heap[i].args == m.heap[i].args
               && (m'.heap[i].text == m.heap[i].text || m'.heap[i].text == m.text)
    requires k.kind != TryScope && GoodData(z, k.data) && Good(z, k.args) && GoodText(z, k.text)
    ensures StaysGood(z, m, m')
  {
    hide Good, GoodAll, GoodText, GoodData;
    forall i | 0 <= i < |m'.heap|
      ensures GoodData(z, m'.heap[i].data) && Good(z, m'.heap[i].args) && GoodText(z, m'.heap[i].text)
    {
      if i < |m.heap| {
        assert GoodData(z, m.heap[i].data) && Good(z, m.heap[i].args) && GoodText(z, m.heap[i].text);
      }
    }
  }

  lemma FnGoodStep(z: Limit, m: Vm)
    requires GoodVm(z, m)
    ensures StaysGood(z, m, DoFn(m))
  {
    hide Good, GoodAll, GoodHeap, GoodText, GoodVm, GoodData, StaysGood;
    VmGood(z, m);
    if |m.stack| < 3 || !Top(m).Bytecode? {
      StackGood(z, m, DoFn(m));
    } else {
      PoppedGood(z, m, 3);
      NilGood(z);
      GoodAt(z, m.stack, |m.stack| - 3);
      PoppedGood(z, m, 0);
      GoodBytecode(z, Top(m).text);
      PushedGood(z, Popped(m, 3), Lambda(|m.heap|));
      FreshGood(z, m, DoFn(m), DoFn(m).heap[|m.heap|]);
    }
  }

  lemma LetGoodStep(z: Limit, m: Vm)
    requires GoodVm(z, m)
    ensures StaysGood(z, m, DoLet(m)) && StaysGood(z, m, DoClosurePop(m))
  {
    hide Good, GoodAll, GoodHeap, GoodText, GoodVm, GoodData, StaysGood;
    VmGood(z, m);
    NilGood(z);
    NoTextGood(z);
    FreshGood(z, m, DoLet(m), DoLet(m).heap[|m.heap|]);
    StackGood(z, m, DoClosurePop(m));
  }

  // A frame for a procedure, on a stack that is part of the old one.
  lemma EnterGood(z: Limit, m: Vm, m1: Vm, id: nat, data: map<Symbol, Value>)
    requires GoodVm(z, m) && id < |m.heap| && m.c < |m.heap| && GoodData(z, data) && GoodAll(z, m1.stack)
    requires m1.heap == m.heap && m1.text == m.text && m1.c == m.c
    ensures StaysGood(z, m, EnterProcedure(Save(m1, m1.ip), id, data))
  {
    hide Good, GoodAll, GoodText, GoodVm, GoodData, StaysGood;
    VmGood(z, m);
    NilGood(z);
    var m' := EnterProcedure(Save(m1, m1.ip), id, data);
    assert GoodText(z, m.heap[id].text);
    FreshGood(z, m, m', m'.heap[|m.heap|]);
  }

  lemma ApplyGood(z: Limit, m: Vm)
    requires GoodVm(z, m)
    ensures StaysGood(z, m, DoApply(m))
  {
    hide Good, GoodAll, GoodHeap, GoodText, GoodVm, GoodData, StaysGood, EnterProcedure, Save, BindStack, CantApply;
    VmGood(z, m);
    if 0 <= m.ip < |m.text.data| {
      var len: nat := m.text.data[m.ip];
      if |m.stack| >= len + 1 && m.c < |m.heap| {
        var vs := m.stack[|m.stack| - len..];
        var fun := m.stack[|m.stack| - len - 1];
        var m1 := m.(ip := m.ip + 1, stack := Popped(m, len + 1));
        PoppedGood(z, m, len + 1);
        if fun.Lambda? && fun.id < |m.heap| {
          TailGood(z, m.stack, |m.stack| - len);
          NilGood(z);
          BindStackGood(z, m.heap[fun.id].args, vs, 0, map[]);
          EnterGood(z, m, m1, fun.id, BindStack(m.heap[fun.id].args, vs, 0, map[]));
          return;
        }
      }
    }
    StackGood(z, m, DoApply(m));
  }

  lemma ApplyCollectionGood(z: Limit, m: Vm)
    requires GoodVm(z, m)
    ensures StaysGood(z, m, DoApplyCollection(m))
  {
    hide Good, GoodAll, GoodHeap, GoodText, GoodVm, GoodData, StaysGood, EnterProcedure, Save, BindList, CantApply;
    VmGood(z, m);
    if |m.stack| >= 2 && m.c < |m.heap| {
      var fun := m.stack[|m.stack| - 2];
      var m1 := m.(stack := Popped(m, 2));
      PoppedGood(z, m, 2);
      if fun.Lambda? && fun.id < |m.heap| {
        NilGood(z);
        BindListGood(z, m.heap[fun.id].args, Top(m), map[]);
        EnterGood(z, m, m1, fun.id, BindList(m.heap[fun.id].args, Top(m), map[]));
        return;
      }
    }
    StackGood(z, m, DoApplyCollection(m));
  }

  lemma RetGood(z: Limit, m: Vm)
    requires GoodVm(z, m) && (forall i :: 0 <= i < |m.cs| ==> m.cs[i] < |m.heap|)
    ensures StaysGood(z, m, DoRet(m))
  {
    hide Good, GoodAll, GoodText, GoodVm, GoodData;
    VmGood(z, m);
    if m.stack != [] && m.cs != [] {
      var b := FrameIndex(m.heap, m.cs, |m.cs| - 1);
      if b > 0 && m.heap[m.cs[b - 1]].sp + 1 <= |m.stack| {
        var k := m.heap[m.cs[b - 1]];
        assert GoodText(z, k.text);
        PoppedGood(z, m, |m.stack| - k.sp - 1);
        PushedGood(z, m.stack[..k.sp + 1], Top(m));
        RetIsGood(z, m, DoRet(m));
        return;
      }
    }
    StackGood(z, m, DoRet(m));
  }

  lemma RetIsGood(z: Limit, m: Vm, m': Vm)
    requires GoodVm(z, m) && GoodAll(z, m'.stack) && GoodText(z, m'.text) && m'.heap == m.heap
    ensures StaysGood(z, m, m')
  {
    hide Good, GoodHeap, GoodText;
  }

  lemma PlainGood(z: Limit, m: Vm, b: byte)
    requires GoodVm(z, m) && (IsJump(b) || b in {OP_INT_BYTE, OP_NIL, OP_TRUE, OP_FALSE, OP_DUP, OP_DROP})
    ensures StaysGood(z, m, Dispatch(m, b))
  {
    hide Good, GoodAll, GoodHeap, GoodText, GoodVm, StaysGood, Popped, Top, DecodeOffset, SignedByte;
    VmGood(z, m);
    NilGood(z);
    PoppedGood(z, m, 0);
    PushedGood(z, m.stack, Bool(true));
    PushedGood(z, m.stack, Bool(false));
    PushedGood(z, m.stack, Nil);
    if b == OP_INT_BYTE && 0 <= m.ip < |m.text.data| {
      PushedGood(z, m.stack, Int(SignedByte(m.text.data[m.ip])));
    }
    if m.stack != [] {
      PoppedGood(z, m, 1);
      PushedGood(z, m.stack, Top(m));
    }
    StackGood(z, m, Dispatch(m, b));
  }

  lemma DispatchGood(z: Limit, m: Vm, b: byte)
    requires GoodVm(z, m) && b != OP_TRY && (forall i :: 0 <= i < |m.cs| ==> m.cs[i] < |m.heap|)
    ensures StaysGood(z, m, Dispatch(m, b))
  {
    hide GoodVm, StaysGood, DoPush, DoGet, DoSet, DoDef, DoJump, DoBranch, DoList, DoApply, DoApplyCollection, DoRet,
         DoTry, DoFn, DoLet, DoClosurePop, DoPrim1, DoPrim2, Good;
    if IsJump(b) || b in {OP_INT_BYTE, OP_NIL, OP_TRUE, OP_FALSE, OP_DUP, OP_DROP} {
      PlainGood(z, m, b);
    } else if MovesScopes(b) || IsLitOp(b) || IsWide(b) || b == OP_LIST {
      StructuralGood(z, m, b);
    } else {
      ArithmeticGood(z, m, b);
    }
  }

  lemma StructuralGood(z: Limit, m: Vm, b: byte)
    requires GoodVm(z, m) && b != OP_TRY && (forall i :: 0 <= i < |m.cs| ==> m.cs[i] < |m.heap|)
    requires MovesScopes(b) || IsLitOp(b) || IsWide(b) || b == OP_LIST
    ensures StaysGood(z, m, Dispatch(m, b))
  {
    hide GoodVm, StaysGood, DoPush, DoGet, DoSet, DoDef, DoJump, DoBranch, DoList, DoApply, DoApplyCollection, DoRet,
         DoTry, DoFn, DoLet, DoClosurePop, DoPrim1, DoPrim2, Good;
    LoadsGood(z, m, false);
    LoadsGood(z, m, true);
    StoresGood(z, m, false);
    StoresGood(z, m, true);
    LetGoodStep(z, m);
    FnGoodStep(z, m);
    ListGood(z, m);
    ApplyGood(z, m);
    ApplyCollectionGood(z, m);
    RetGood(z, m);
  }

  lemma ArithmeticGood(z: Limit, m: Vm, b: byte)
    requires GoodVm(z, m)
    requires !IsJump(b) && b !in {OP_INT_BYTE, OP_NIL, OP_TRUE, OP_FALSE, OP_DUP, OP_DROP}
    requires !MovesScopes(b) && !IsLitOp(b) && !IsWide(b) && b != OP_LIST
    ensures StaysGood(z, m, Dispatch(m, b))
  {
    hide GoodVm, StaysGood, DoPush, DoGet, DoSet, DoDef, DoJump, DoBranch, DoList, DoApply, DoApplyCollection, DoRet,
         DoTry, DoFn, DoLet, DoClosurePop, DoPrim1, DoPrim2, Op1OfByte, Op2OfByte, Good;
    VmGood(z, m);
    StackGood(z, m, m);
    StackGood(z, m, Halt(m));
    if Op1OfByte(b).Some? {
      Prim1Good(z, m, Op1OfByte(b).value);
    } else if Op2OfByte(b).Some? {
      DoPrim2Good(z, m, Op2OfByte(b).value);
    }
  }

  // ---- one step

  lemma KeptBelow(m: Vm, heap': seq<Closure>)
    requires WfVm(m) && Kept(m.heap, heap', m.c)
    ensures SameBelow(m.heap, heap', m.cs)
  {
  }

  lemma GoesInPlan(z: Limit, bottom: nat, m: Vm, out: Height)
    requires HasPlan(z, m.text) && Goes(PlanOf(z, m.text), m.ip, out) && Sits(z, bottom, m.heap, m.cs, out, |m.stack|)
    ensures InPlan(z, bottom, m)
  {
    hide HasPlan, PlanOf, Sits;
  }

  // What a step from a planned position must do.
  ghost predicate Advances(z: Limit, bottom: nat, m: Vm, m': Vm) {
    && m.cs != [] && Below(m, m', Start(bottom, m))
    && (m'.mode.Running? ==> InPlan(z, bottom, m'))
  }

  lemma BelowMore(m: Vm, m': Vm, k: int, j: int)
    requires Below(m, m', k) && 0 <= j <= k
    ensures Below(m, m', j)
  {
    assert m'.stack[..j] == m'.stack[..k][..j];
    assert m.stack[..j] == m.stack[..k][..j];
  }

  // A planned position: the operands are the activation's own.
  lemma Reaches(z: Limit, bottom: nat, m: Vm, b: byte, h: Height, out: Height)
    requires bottom > 0 && PlannedNext(z, m, b, h, out) && Sits(z, bottom, m.heap, m.cs, h, |m.stack|)
    ensures 0 < Start(bottom, m) <= |m.stack| - Pops(b, Operand(m.text, m.ip))
    ensures Pops(b, Operand(m.text, m.ip)) <= h.depth && out.depth == h.depth - Pops(b, Operand(m.text, m.ip)) + Pushes(b)
    ensures b != OP_LET && b != OP_CLOSURE_POP ==> out.scopes == h.scopes
  {
    hide HasPlan, PlanOf, Sits, Pops, Pushes, DecodeOffset, Bytes, Goes;
    StartIs(z, bottom, m, h);
  }

  // Straight and branching steps.
  lemma MovesOn(z: Limit, bottom: nat, m: Vm, m': Vm, b: byte, h: Height, out: Height)
    requires bottom > 0 && WfVm(m) && PlannedNext(z, m, b, h, out) && Sits(z, bottom, m.heap, m.cs, h, |m.stack|)
    requires b != OP_LET && b != OP_CLOSURE_POP && Kept(m.heap, m'.heap, m.c)
    requires Straight(m, m', Pops(b, Operand(m.text, m.ip)), Pushes(b), m'.ip)
    requires m'.mode.Running? ==> Goes(PlanOf(z, m.text), m'.ip, out)
    ensures Advances(z, bottom, m, m')
  {
    hide HasPlan, PlanOf, Sits, Pops, Pushes, DecodeOffset, Bytes, Goes, Past, InPlan, Start, Kept, SameBelow, Below;
    Reaches(z, bottom, m, b, h, out);
    BelowMore(m, m', |m.stack| - Pops(b, Operand(m.text, m.ip)), Start(bottom, m));
    if m'.mode.Running? {
      KeptBelow(m, m'.heap);
      SitsKept(z, bottom, m.heap, m'.heap, m.cs, h, |m.stack|, out, |m'.stack|);
      GoesInPlan(z, bottom, m', out);
    }
  }

  lemma JumpIsStraight(m: Vm, b: byte)
    requires m.mode.Running? && 0 <= m.ip < |m.text.data| && m.text.data[m.ip] == b && IsJump(b)
    requires |m.stack| >= Pops(b, Operand(m.text, m.ip)) && m.ip + 2 < |m.text.data|
    ensures Straight(m, Step(m), Pops(b, Operand(m.text, m.ip)), Pushes(b), Step(m).ip)
    ensures Step(m).mode.Running?
    ensures Step(m).ip == m.ip + DecodeOffset(m.text.data[m.ip + 1], m.text.data[m.ip + 2]) || (b != OP_JMP && Step(m).ip == m.ip + 3)
  {
    hide DecodeOffset;
  }

  lemma LetStep(z: Limit, bottom: nat, m: Vm, h: Height, out: Height)
    requires bottom > 0 && WfVm(m) && m.mode.Running? && PlannedNext(z, m, OP_LET, h, out) && Sits(z, bottom, m.heap, m.cs, h, |m.stack|)
    ensures Advances(z, bottom, m, Step(m))
  {
    hide HasPlan, PlanOf, Sits, DecodeOffset, Goes, Start, InPlan;
    Reaches(z, bottom, m, OP_LET, h, out);
    SitsLet(z, bottom, m.heap, Step(m).heap, m.cs, h, |m.stack|);
    GoesInPlan(z, bottom, Step(m), out);
  }

  lemma PopStep(z: Limit, bottom: nat, m: Vm, h: Height, out: Height)
    requires bottom > 0 && WfVm(m) && m.mode.Running? && PlannedNext(z, m, OP_CLOSURE_POP, h, out) && Sits(z, bottom, m.heap, m.cs, h, |m.stack|)
    ensures Advances(z, bottom, m, Step(m))
  {
    hide HasPlan, PlanOf, Sits, DecodeOffset, Goes, Start, InPlan;
    Reaches(z, bottom, m, OP_CLOSURE_POP, h, out);
    SitsPop(z, bottom, m.heap, m.cs, h, |m.stack|);
    GoesInPlan(z, bottom, Step(m), out);
  }

  // What an apply does to the stack and to the caller.
  ghost predicate Called(m: Vm, m': Vm, pops: nat, ip: int) {
    && Below(m, m', |m.stack| - pops)
    && (m'.mode.Running? ==>
          && m'.cs == m.cs + [|m.heap|] && |m'.heap| == |m.heap| + 1 && m'.heap[|m.heap|].kind == CallFrame
          && m.c < |m.heap| && m'.heap[m.c].ip == ip && m'.heap[m.c].text == m.text
          && m'.heap[m.c].sp == (|m.stack| - pops - 1) % 0x1_0000
          && m'.ip == 0 && |m'.stack| == |m.stack| - pops)
  }

  lemma ApplyCalls(m: Vm, b: byte)
    requires WfVm(m) && m.mode.Running? && 0 <= m.ip < |m.text.data| && m.text.data[m.ip] == b
    requires b == OP_APPLY || b == OP_APPLY_COLLECTION
    requires |m.stack| >= Pops(b, Operand(m.text, m.ip))
    ensures Called(m, Step(m), Pops(b, Operand(m.text, m.ip)), m.ip + Bytes(b))
  {
    hide BindStack, BindList, CantApply;
  }

  lemma CallsStep(z: Limit, bottom: nat, m: Vm, b: byte, h: Height, out: Height)
    requires bottom > 0 && WfVm(m) && m.mode.Running? && PlannedNext(z, m, b, h, out) && Sits(z, bottom, m.heap, m.cs, h, |m.stack|)
    requires b == OP_APPLY || b == OP_APPLY_COLLECTION
    requires |m.stack| <= 0x1_0000 && HasPlan(z, Step(m).text)
    ensures Advances(z, bottom, m, Step(m))
  {
    hide HasPlan, PlanOf, Sits, DecodeOffset, Start, InPlan, Step, Below, Pops, Past;
    var pops := Pops(b, Operand(m.text, m.ip));
    var m' := Step(m);
    Reaches(z, bottom, m, b, h, out);
    ApplyCalls(m, b);
    BelowMore(m, m', |m.stack| - pops, Start(bottom, m));
    if m'.mode.Running? {
      StepIsGood(m);
      KeptBelow(m, m'.heap);
      SitsCall(z, bottom, m.heap, m'.heap, m.cs, h, |m.stack|, out, |m.stack| - pops);
      GoesInPlan(z, bottom, m', START);
    }
  }

  lemma Returns(m: Vm, b: nat)
    requires m.mode.Running? && 0 <= m.ip < |m.text.data| && m.text.data[m.ip] == OP_RET && m.stack != []
    requires WfVm(m) && b == FrameIndex(m.heap, m.cs, |m.cs| - 1) && (b > 0 ==> m.heap[m.cs[b - 1]].sp + 1 <= |m.stack|)
    ensures b == 0 ==> Step(m).mode.Halted? && Step(m).stack == m.stack
    ensures b > 0 ==>
              var k := m.heap[m.cs[b - 1]];
              && Step(m).mode.Running? && Step(m).heap == m.heap && Step(m).cs == m.cs[..b] && Step(m).ip == k.ip && Step(m).text == k.text
              && |Step(m).stack| == k.sp + 2 && Below(m, Step(m), k.sp + 1)
  {
    hide FrameIndex;
    StepRet(m);
  }

  lemma RetStep(z: Limit, bottom: nat, m: Vm, h: Height, out: Height)
    requires bottom > 0 && WfVm(m) && m.mode.Running? && PlannedNext(z, m, OP_RET, h, out) && Sits(z, bottom, m.heap, m.cs, h, |m.stack|)
    ensures Advances(z, bottom, m, Step(m))
  {
    hide HasPlan, PlanOf, Sits, DecodeOffset, InPlan, FrameIndex, Step, Past, Pushes, Goes;
    Reaches(z, bottom, m, OP_RET, h, out);
    StartIs(z, bottom, m, h);
    var b := FrameIndex(m.heap, m.cs, |m.cs| - 1);
    if b > 0 {
      SitsRet(z, bottom, m.heap, m.cs, h, |m.stack|);
      var k := m.heap[m.cs[b - 1]];
      Returns(m, b);
      GoesHere(z, k);
      GoesInPlan(z, bottom, Step(m), PlanOf(z, k.text)[k.ip]);
    } else {
      Returns(m, b);
    }
  }

  lemma GoesHere(z: Limit, k: Closure)
    requires HasPlan(z, k.text) && 0 <= k.ip && k.ip in PlanOf(z, k.text)
    ensures Goes(PlanOf(z, k.text), k.ip, PlanOf(z, k.text)[k.ip])
  {
    hide HasPlan, PlanOf;
  }

  lemma StepAdvances(z: Limit, bottom: nat, m: Vm)
    requires bottom > 0 && WfVm(m) && m.mode.Running? && InPlan(z, bottom, m)
    requires |m.stack| <= 0x1_0000 && HasPlan(z, Step(m).text)
    ensures Advances(z, bottom, m, Step(m))
  {
    hide HasPlan, PlanOf, Sits, Step, Pops, Pushes, Bytes, Past, Goes, DecodeOffset, WfVm, Straight, Start, Op1OfByte, Op2OfByte, Planned;
    var plan := PlanOf(z, m.text);
    StartIs(z, bottom, m, plan[m.ip]);
    if m.ip < |m.text.data| {
      var b, h, out := PlannedAt(z, bottom, m);
      if b == OP_LET {
        LetStep(z, bottom, m, h, out);
      } else if b == OP_CLOSURE_POP {
        PopStep(z, bottom, m, h, out);
      } else if b == OP_RET {
        RetStep(z, bottom, m, h, out);
      } else if b == OP_APPLY || b == OP_APPLY_COLLECTION {
        CallsStep(z, bottom, m, b, h, out);
      } else {
        PlainAdvances(z, bottom, m, b, h, out);
      }
    } else {
      StepOffEnd(m);
    }
  }

  lemma StepOffEnd(m: Vm)
    requires m.mode.Running? && m.ip >= |m.text.data|
    ensures Step(m) == Halt(m)
  {
    hide Dispatch;
  }

  lemma PlainAdvances(z: Limit, bottom: nat, m: Vm, b: byte, h: Height, out: Height)
    requires bottom > 0 && WfVm(m) && m.mode.Running? && PlannedNext(z, m, b, h, out) && Sits(z, bottom, m.heap, m.cs, h, |m.stack|)
    requires b != OP_LET && b != OP_CLOSURE_POP && b != OP_RET && b != OP_APPLY && b != OP_APPLY_COLLECTION
    ensures Advances(z, bottom, m, Step(m))
  {
    hide HasPlan, PlanOf, Sits, Step, Pops, Pushes, Bytes, Goes, DecodeOffset, WfVm, Straight, Start, Advances;
    Reaches(z, bottom, m, b, h, out);
    StepIsGood(m);
    if IsJump(b) {
      JumpIsStraight(m, b);
      JumpBytes(b);
    } else {
      StepIsStraight(m, b);
      StraightGoes(z, m, b, h, out);
    }
    MovesOn(z, bottom, m, Step(m), b, h, out);
  }

  lemma JumpBytes(b: byte)
    ensures IsJump(b) ==> Bytes(b) == 3
  {
  }

  lemma StraightGoes(z: Limit, m: Vm, b: byte, h: Height, out: Height)
    requires PlannedNext(z, m, b, h, out) && !Special(b) && Straight(m, Step(m), Pops(b, Operand(m.text, m.ip)), Pushes(b), m.ip + Bytes(b))
    ensures Step(m).mode.Running? ==> Goes(PlanOf(z, m.text), Step(m).ip, out)
    ensures Straight(m, Step(m), Pops(b, Operand(m.text, m.ip)), Pushes(b), Step(m).ip)
  {
    hide HasPlan, PlanOf, Step, Pops, Pushes, Bytes, Goes, DecodeOffset, Past;
  }

  // ---- whole runs

  lemma NoTryStep(z: Limit, m: Vm, m': Vm)
    requires WfVm(m) && NoTry(m) && GoodStep(m, m') && StaysGood(z, m, m')
    ensures NoTry(m')
  {
    hide GoodVm;
    var k: nat :| MovesTo(m, m'.cs, k);
    forall i | 0 <= i < |m'.cs| && m'.cs[i] < |m'.heap| ensures m'.heap[m'.cs[i]].kind != TryScope {
      if i < k {
        assert m'.cs[i] == m.cs[i];
      } else {
        assert m'.cs[i] == |m.heap|;
      }
    }
  }

  lemma UnwindHalts(m: Vm, t: Thrown)
    requires WfVm(m) && NoTry(m)
    ensures Unwind(m, t) == m.(mode := Unwind(m, t).mode) && (Unwind(m, t).mode.Stuck? || Unwind(m, t).mode.Halted?)
  {
    hide HandlerArgument, TryIndex, EnterProcedure;
    NoTryBelow(m.heap, m.cs, |m.cs| - 1);
  }

  lemma NeverTries(z: Limit, bottom: nat, m: Vm)
    requires m.mode.Running? && InPlan(z, bottom, m) && m.ip < |m.text.data|
    ensures 0 <= m.ip && m.text.data[m.ip] != OP_TRY
  {
    hide Sits, HasPlan, PlanOf, Pops, Pushes, Goes, DecodeOffset;
    var b, h, out := PlannedAt(z, bottom, m);
  }

  lemma StepGood(z: Limit, bottom: nat, m: Vm)
    requires Inv(z, bottom, m) && m.mode.Running?
    ensures StaysGood(z, m, Step(m))
  {
    hide GoodVm, Dispatch, StaysGood, InPlan;
    if m.ip < |m.text.data| {
      NeverTries(z, bottom, m);
      IpGood(z, m);
      DispatchGood(z, m.(ip := m.ip + 1), m.text.data[m.ip]);
      IpStaysGood(z, m, Step(m));
    } else {
      VmGood(z, m);
      StackGood(z, m, Step(m));
    }
  }

  lemma IpGood(z: Limit, m: Vm)
    requires GoodVm(z, m)
    ensures GoodVm(z, m.(ip := m.ip + 1))
  {
    hide GoodAll, GoodHeap, GoodText;
  }

  lemma IpStaysGood(z: Limit, m: Vm, m': Vm)
    requires StaysGood(z, m.(ip := m.ip + 1), m')
    ensures StaysGood(z, m, m')
  {
    hide GoodVm;
  }

  // One step: the next position is planned, too, and nothing below the running
  // activation has changed.
  lemma StepKeepsPlan(z: Limit, bottom: nat, m: Vm)
    requires Inv(z, bottom, m) && |m.stack| <= 0x1_0000
    ensures Inv(z, bottom, Step(m))
    ensures m.mode.Running? ==> 0 < Start(bottom, m) <= |m.stack| && Below(m, Step(m), Start(bottom, m))
    ensures !m.mode.Running? ==> !Step(m).mode.Running? && Step(m).stack == m.stack
  {
    hide Step, WfVm, GoodVm, NoTry, InPlan, StaysGood, Start, Below, Unwind;
    if m.mode.Running? {
      StepGood(z, bottom, m);
      StaysHasPlan(z, m, Step(m));
      StepAdvances(z, bottom, m);
      StepIsGood(m);
      GoodIsWf(m, Step(m));
      NoTryStep(z, m, Step(m));
      PlanStart(z, bottom, m);
    } else if m.mode.Throwing? {
      StepThrows(m);
      UnwindHalts(m, m.mode.thrown);
      SameInv(z, m, Step(m));
    } else {
      HaltedForever(1, m);
      RunOne(m);
    }
  }

  lemma StaysHasPlan(z: Limit, m: Vm, m': Vm)
    requires StaysGood(z, m, m')
    ensures HasPlan(z, m'.text) && GoodVm(z, m')
  {
    hide HasPlan, GoodAll, GoodHeap;
  }

  lemma PlanStart(z: Limit, bottom: nat, m: Vm)
    requires bottom > 0 && InPlan(z, bottom, m)
    ensures m.cs != [] && 0 < Start(bottom, m) <= |m.stack|
  {
    hide HasPlan, PlanOf, Sits;
    StartIs(z, bottom, m, PlanOf(z, m.text)[m.ip]);
  }

  lemma SameInv(z: Limit, m: Vm, m': Vm)
    requires m' == m.(mode := m'.mode)
    ensures WfVm(m) == WfVm(m') && GoodVm(z, m) == GoodVm(z, m') && NoTry(m) == NoTry(m')
  {
    hide GoodAll, GoodHeap, GoodText;
  }

  // The stack pointer fits the 16 bits it is saved in, n steps long.
  predicate StaysShort(n: nat, m: Vm) {
    |m.stack| <= 0x1_0000 && (n == 0 || StaysShort(n - 1, Step(m)))
  }

  lemma {:induction false} RunKeepsPlan(z: Limit, n: nat, bottom: nat, m: Vm)
    requires Inv(z, bottom, m) && StaysShort(n, m)
    ensures Inv(z, bottom, Run(n, m)) && |Run(n, m).stack| <= 0x1_0000
  {
    hide Step, Inv;
    if n > 0 {
      StepKeepsPlan(z, bottom, m);
      RunKeepsPlan(z, n - 1, bottom, Step(m));
    }
  }

  lemma LoadInPlan(z: Limit, e: Expr, st: Store, heap: seq<Closure>, c: nat)
    requires Runnable(e, st, heap, c) && GoodExpr(z, e) && LowForm(z, e) && GoodHeap(z, heap)
    ensures Inv(z, 1, Load(FnText(e), heap, c))
  {
    hide Rel, StoreOk, GoodExpr, WfExpr, HasPlan, FnText, Compile, Assembles, Planned, LowForm;
    var m := Load(FnText(e), heap, c);
    LoadReady(e, st, heap, c);
    TextIsGood(z, e);
    NilGood(z);
    PlanStarts(z, m.text);
    GoesInPlan(z, 1, m, START);
  }

  lemma PlanStarts(z: Limit, t: Text)
    requires HasPlan(z, t)
    ensures Goes(PlanOf(z, t), 0, START)
  {
  }

  // Slots the running activation has on the stack, and its open let scopes.
  ghost function Depth(m: Vm): int
    requires m.cs != []
  {
    |m.stack| - Start(1, m)
  }

  function ScopeDepth(m: Vm): int
    requires m.cs != []
  {
    |m.cs| - 1 - FrameIndex(m.heap, m.cs, |m.cs| - 1)
  }

  // Wherever and however often a run comes to the same position of the same
  // code, in any activation, on any path, around any loop: the running
  // activation has the same number of stack slots and the same number of open
  // scopes.  The slots below it are never read or written.
  lemma FixedHeights(e: Expr, st: Store, heap: seq<Closure>, c: nat, i: nat, j: nat)
    requires Runnable(e, st, heap, c) && GoodExpr(Unlimited, e) && GoodHeap(Unlimited, heap)
    requires StaysShort(i, Load(FnText(e), heap, c)) && StaysShort(j, Load(FnText(e), heap, c))
    requires var m := Load(FnText(e), heap, c);
             && Run(i, m).mode.Running? && Run(j, m).mode.Running?
             && Run(i, m).text == Run(j, m).text && Run(i, m).ip == Run(j, m).ip
    ensures var m := Load(FnText(e), heap, c);
            && WfVm(Run(i, m)) && WfVm(Run(j, m))
            && Depth(Run(i, m)) == Depth(Run(j, m)) && ScopeDepth(Run(i, m)) == ScopeDepth(Run(j, m))
    ensures var m1 := Run(i, Load(FnText(e), heap, c));
            && Below(m1, Step(m1), Start(1, m1))
            && 0 <= m1.ip && (m1.ip < |m1.text.data| ==> Pops(m1.text.data[m1.ip], Operand(m1.text, m1.ip)) <= Depth(m1))
  {
    hide Runnable, GoodExpr, LowForm, GoodHeap, FnText, Step, StaysShort, Inv, Start, Below, Pops, Depth, ScopeDepth, Run, Load, Operand;
    var m := Load(FnText(e), heap, c);
    NoLimit(e);
    LoadInPlan(Unlimited, e, st, heap, c);
    RunKeepsPlan(Unlimited, i, 1, m);
    RunKeepsPlan(Unlimited, j, 1, m);
    SameDepths(Unlimited, Run(i, m), Run(j, m));
    StepKeepsPlan(Unlimited, 1, Run(i, m));
    OwnOperands(Unlimited, Run(i, m));
  }

  lemma NoLimit(e: Expr)
    ensures LowForm(Unlimited, e)
  {
    hide PlanFor;
  }

  lemma SameDepths(z: Limit, m1: Vm, m2: Vm)
    requires Inv(z, 1, m1) && Inv(z, 1, m2) && m1.mode.Running? && m2.mode.Running? && m1.text == m2.text && m1.ip == m2.ip
    ensures WfVm(m1) && WfVm(m2) && m1.cs != [] && m2.cs != []
    ensures Depth(m1) == Depth(m2) && ScopeDepth(m1) == ScopeDepth(m2)
  {
    hide WfVm, GoodVm, NoTry, Sits, Start, HasPlan, PlanOf, FrameIndex;
    WfCs(m1);
    WfCs(m2);
    var h := PlanOf(z, m1.text)[m1.ip];
    StartIs(z, 1, m1, h);
    StartIs(z, 1, m2, h);
  }

  lemma WfCs(m: Vm)
    requires WfVm(m)
    ensures m.cs != []
  {
  }

  lemma OwnOperands(z: Limit, m: Vm)
    requires Inv(z, 1, m) && m.mode.Running? && m.cs != []
    ensures 0 <= m.ip && (m.ip < |m.text.data| ==> Pops(m.text.data[m.ip], Operand(m.text, m.ip)) <= Depth(m))
  {
    hide WfVm, GoodVm, NoTry, Sits, Start, Pops, HasPlan, PlanOf, Past, Goes, DecodeOffset;
    if m.ip < |m.text.data| {
      var b, h, out := PlannedAt(z, 1, m);
      Reaches(z, 1, m, b, h, out);
    }
  }

  // ---- calls leave the stack below them alone

  lemma {:induction false} CalleeKeeps(z: Limit, n: nat, bottom: nat, base: seq<nat>, frame: nat, k: Closure, m: Vm)
    requires Inv(z, bottom, m) && Guards(base, frame, k, m) && StaysAbove(n, m, |base|) && StaysShort(n, m)
    requires k.sp + 1 <= |m.stack|
    ensures Below(m, Run(n, m), k.sp + 1)
  {
    hide Step, Guards, Below, Inv, Start;
    SelfBelow(m, k.sp + 1);
    if n > 0 {
      var m' := Step(m);
      StepKeepsPlan(z, bottom, m);
      CalleeStep(z, bottom, base, frame, k, m);
      GuardsWf(base, frame, k, m);
      StepIsGood(m);
      assert StaysAbove(n - 1, m', |base|);
      GuardsStep(base, frame, k, m, m');
      BelowFits(m, m', k.sp + 1);
      CalleeKeeps(z, n - 1, bottom, base, frame, k, m');
      BelowTrans(m, m', Run(n, m), k.sp + 1);
    }
  }

  lemma SelfBelow(m: Vm, k: int)
    ensures 0 <= k <= |m.stack| ==> Below(m, m, k)
  {
  }

  lemma BelowFits(m: Vm, m': Vm, k: int)
    requires Below(m, m', k)
    ensures k <= |m'.stack|
  {
  }

  lemma BelowTrans(m: Vm, m1: Vm, m2: Vm, k: int)
    requires Below(m, m1, k) && Below(m1, m2, k)
    ensures Below(m, m2, k)
  {
  }

  lemma CalleeStep(z: Limit, bottom: nat, base: seq<nat>, frame: nat, k: Closure, m: Vm)
    requires Inv(z, bottom, m) && Guards(base, frame, k, m) && |m.stack| <= 0x1_0000 && k.sp + 1 <= |m.stack|
    ensures Below(m, Step(m), k.sp + 1)
  {
    hide Step, Below, GoodVm, NoTry, Sits, HasPlan, PlanOf;
    StepKeepsPlan(z, bottom, m);
    if m.mode.Running? {
      var h := PlanOf(z, m.text)[m.ip];
      StartIs(z, bottom, m, h);
      StartsAbove(z, bottom, m.heap, m.cs, h, |m.stack|, |base|);
      BelowMore(m, Step(m), Start(bottom, m), k.sp + 1);
    } else {
      SameStackBelow(m, Step(m), k.sp + 1);
    }
  }

  lemma SameStackBelow(m: Vm, m': Vm, k: int)
    requires m'.stack == m.stack && 0 <= k <= |m.stack|
    ensures Below(m, m', k)
  {
  }

  // A call of a procedure that returns has replaced the procedure and its
  // arguments by the result, and changed nothing else on the stack.
  lemma CallIsOneValue(z: Limit, bottom: nat, m: Vm, len: nat, id: nat, n: nat)
    requires Inv(z, bottom, m) && Calls(m, len, id) && |m.stack| <= 0x1_0000
    requires StaysAbove(n, Step(m), |m.cs|) && StaysShort(n, Step(m))
    requires var m1 := Run(n, Step(m));
             m1.mode.Running? && 0 <= m1.ip < |m1.text.data| && m1.text.data[m1.ip] == OP_RET
    requires var m2 := Step(Run(n, Step(m))); m2.mode.Running? && |m2.cs| <= |m.cs|
    ensures var m1 := Run(n, Step(m)); var m2 := Step(m1);
            && m2.cs == m.cs && m2.ip == m.ip + 2 && m2.text == m.text
            && m1.stack != [] && m2.stack == m.stack[..|m.stack| - len - 1] + [Top(m1)]
  {
    hide Step, Guards, Inv, StaysAbove, StaysShort, WfVm;
    CallGuards(m, len, id);
    StepKeepsPlan(z, bottom, m);
    var k := Step(m).heap[m.c];
    CalleeKeeps(z, n, bottom, m.cs, |m.heap|, k, Step(m));
    ReturnResumes(n, m.cs, |m.heap|, k, Step(m));
    var m1 := Run(n, Step(m));
    assert Step(m1).stack == Step(m1).stack[..k.sp + 1] + [Step(m1).stack[k.sp + 1]];
  }

  // ---- growth of the two stacks

  // lBytecodeEnsureSufficientStack: `left` slots are left, `spare` are wanted.
  function Ensured(size: nat, left: int, spare: nat): nat { if left < spare then size + 512 else size }

  datatype Sizes = Sizes(values: nat, closures: nat)

  const FIRST_SIZES := Sizes(512, 512)
  const SPARE_VALUES := 32
  const SPARE_CLOSURES := 16

  // A frame was pushed: the one place where the VM looks at the sizes.
  ghost predicate Entered(m: Vm, m': Vm) {
    |m'.cs| > |m.cs| && m'.c < |m'.heap| && m'.heap[m'.c].kind == CallFrame
  }

  ghost function SizesAfter(m: Vm, m': Vm, room: Sizes): Sizes {
    if !Entered(m, m') then room
    else Sizes(Ensured(room.values, room.values - (|m'.stack| - 1), SPARE_VALUES),
               Ensured(room.closures, room.closures - (|m'.cs| - 1) - 1, SPARE_CLOSURES))
  }

  ghost function SizesOf(n: nat, m: Vm, room: Sizes): Sizes {
    if n == 0 then room else SizesOf(n - 1, Step(m), SizesAfter(m, Step(m), room))
  }

  // The activation still has what it was given when it was entered.
  ghost predicate Roomy(bottom: nat, m: Vm, room: Sizes)
    requires m.cs != []
  {
    && Start(bottom, m) + SPARE_VALUES - 1 <= room.values
    && FrameIndex(m.heap, m.cs, |m.cs| - 1) + SPARE_CLOSURES + 1 <= room.closures
  }

  lemma {:induction false} StartsAtBottom(z: Limit, bottom: nat, heap: seq<Closure>, cs: seq<nat>, h: Height, size: int)
    requires Sits(z, bottom, heap, cs, h, size)
    ensures size - h.depth >= bottom
    decreases |cs|
  {
    hide HasPlan, PlanOf, FrameIndex, Waits;
    var b := FrameIndex(heap, cs, |cs| - 1);
    if b > 0 {
      var g := CallerSits(z, bottom, heap, cs, h, size, b);
      StartsAtBottom(z, bottom, heap, cs[..b], g, heap[cs[b - 1]].sp + 2);
    }
  }

  lemma {:induction false} FrameIsFirst(heap: seq<Closure>, cs: seq<nat>, j: nat, k: nat)
    requires j <= k < |cs|
    ensures FrameIndex(heap, cs, j) <= FrameIndex(heap, cs, k)
    decreases k
  {
    if j < k {
      FrameIsFirst(heap, cs, j, k - 1);
    }
  }

  // The activations below the running one start lower.
  lemma StartOfCut(z: Limit, bottom: nat, m: Vm, h: Height, b: nat)
    requires WfVm(m) && Sits(z, bottom, m.heap, m.cs, h, |m.stack|)
    requires 0 < b < |m.cs| && m.heap[m.cs[b]].kind == CallFrame
    ensures m.heap[m.cs[b - 1]].sp + 1 <= Start(bottom, m)
  {
    hide Sits, Start;
    StartIs(z, bottom, m, h);
    StartsAbove(z, bottom, m.heap, m.cs, h, |m.stack|, b);
  }

  lemma StartAfterCut(z: Limit, bottom: nat, m: Vm, m': Vm, h: Height, k: nat)
    requires WfVm(m) && Kept(m.heap, m'.heap, m.c) && Sits(z, bottom, m.heap, m.cs, h, |m.stack|)
    requires 0 < k <= |m.cs| && m'.cs == m.cs[..k]
    ensures FrameIndex(m'.heap, m'.cs, k - 1) <= FrameIndex(m.heap, m.cs, |m.cs| - 1)
    ensures Start(bottom, m') <= Start(bottom, m)
  {
    hide Sits, FrameIndex, SameBelow, Kept, WfVm;
    KeptBelow(m, m'.heap);
    SameKinds(m.heap, m'.heap, m.cs);
    FrameKept(m.heap, m'.heap, m.cs, m'.cs, k - 1);
    FrameIsFirst(m.heap, m.cs, k - 1, |m.cs| - 1);
    StartIs(z, bottom, m, h);
    StartsAtBottom(z, bottom, m.heap, m.cs, h, |m.stack|);
    var b := FrameIndex(m.heap, m.cs, k - 1);
    if b > 0 {
      StartOfCut(z, bottom, m, h, b);
      SavedKept(m, m'.heap, b - 1);
      assert m'.cs[b - 1] == m.cs[b - 1];
    }
  }

  lemma SameKinds(heap: seq<Closure>, heap': seq<Closure>, cs: seq<nat>)
    requires SameBelow(heap, heap', cs)
    ensures forall i :: 0 <= i < |cs| ==> cs[i] < |heap| && cs[i] < |heap'| && heap'[cs[i]].kind == heap[cs[i]].kind
  {
  }

  lemma SavedKept(m: Vm, heap': seq<Closure>, i: nat)
    requires WfVm(m) && Kept(m.heap, heap', m.c) && i < |m.cs| - 1
    ensures m.cs[i] < |m.heap| <= |heap'| && heap'[m.cs[i]].sp == m.heap[m.cs[i]].sp
  {
  }

  lemma StartAfterLet(bottom: nat, m: Vm, m': Vm)
    requires WfVm(m) && Kept(m.heap, m'.heap, m.c) && m'.cs == m.cs + [|m.heap|]
    requires |m.heap| < |m'.heap| && m'.heap[|m.heap|].kind != CallFrame
    ensures FrameIndex(m'.heap, m'.cs, |m.cs|) == FrameIndex(m.heap, m.cs, |m.cs| - 1)
    ensures Start(bottom, m') == Start(bottom, m)
  {
    hide SameBelow, Kept;
    KeptBelow(m, m'.heap);
    SameKinds(m.heap, m'.heap, m.cs);
    assert m'.cs[..|m.cs|] == m.cs;
    FrameKept(m.heap, m'.heap, m.cs, m'.cs, |m.cs| - 1);
    var b := FrameIndex(m.heap, m.cs, |m.cs| - 1);
    if b > 0 {
      SavedKept(m, m'.heap, b - 1);
      assert m'.cs[b - 1] == m.cs[b - 1];
    }
  }

  lemma EnteringIsRoomy(z: Limit, bottom: nat, m: Vm, m': Vm, h: Height, room: Sizes)
    requires WfVm(m') && Entered(m, m') && |m'.cs| > 1 && Sits(z, bottom, m'.heap, m'.cs, h, |m'.stack|)
    requires |m'.stack| <= room.values + 481 && |m'.cs| <= room.closures
    ensures Roomy(bottom, m', SizesAfter(m, m', room))
  {
    hide Sits;
    StartIs(z, bottom, m', h);
  }

  // Heights that fit what a call guarantees.
  ghost predicate Low(m: Vm)
    requires m.cs != []
  {
    Depth(m) < SPARE_VALUES && ScopeDepth(m) < SPARE_CLOSURES
  }

  lemma OnlyPushes(m: Vm, m': Vm, k: nat)
    requires WfVm(m) && WfVm(m') && NoTry(m) && MovesTo(m, m'.cs, k) && m'.cs != m.cs[..k]
    ensures m'.cs == m.cs + [|m.heap|] && |m.heap| < |m'.heap| && m'.c == |m.heap|
  {
    assert m.cs[..|m.cs|] == m.cs;
    assert m'.cs[|m'.cs| - 1] == |m.heap|;
  }

  lemma MemoryGrowth(m: Vm, wide: bool, when: bool)
    ensures |DoPush(m, wide).stack| <= |m.stack| + 1 && |DoGet(m, wide).stack| <= |m.stack| + 1
    ensures |DoSet(m, wide).stack| <= |m.stack| + 1 && |DoDef(m, wide).stack| <= |m.stack| + 1
    ensures |DoJump(m).stack| <= |m.stack| + 1 && |DoBranch(m, when).stack| <= |m.stack| + 1
  {
    hide LookupH, BinderH, BindH, DecodeOffset, Literal, CantResolve, CantSet;
  }

  lemma ControlGrowth(m: Vm)
    ensures |DoList(m).stack| <= |m.stack| + 1 && |DoFn(m).stack| <= |m.stack| + 1 && |DoTry(m).stack| <= |m.stack| + 1
    ensures |DoLet(m).stack| <= |m.stack| + 1 && |DoClosurePop(m).stack| <= |m.stack| + 1
    ensures |DoApply(m).stack| <= |m.stack| + 1 && |DoApplyCollection(m).stack| <= |m.stack| + 1 && |DoRet(m).stack| <= |m.stack| + 1
  {
    hide BindStack, BindList, ListDown, FrameIndex, DecodeOffset, CantApply;
  }

  lemma PrimGrowth(m: Vm, op1: Op1, op2: Op2)
    ensures |DoPrim1(m, op1).stack| <= |m.stack| + 1 && |DoPrim2(m, op2).stack| <= |m.stack| + 1
  {
    hide Apply1, Apply2;
  }

  // No opcode adds more than one slot.
  lemma StepGrowth(m: Vm)
    requires m.mode.Running?
    ensures |Step(m).stack| <= |m.stack| + 1
  {
    hide DoPush, DoGet, DoSet, DoDef, DoJump, DoBranch, DoList, DoApply, DoApplyCollection, DoRet, DoTry, DoFn, DoLet,
         DoClosurePop, DoPrim1, DoPrim2, Op1OfByte, Op2OfByte, SignedByte;
    var m1 := m.(ip := m.ip + 1);
    MemoryGrowth(m1, false, false);
    MemoryGrowth(m1, true, true);
    ControlGrowth(m1);
    if 0 <= m.ip < |m.text.data| {
      var b := m.text.data[m.ip];
      PrimGrowth(m1, if Op1OfByte(b).Some? then Op1OfByte(b).value else CarOp, if Op2OfByte(b).Some? then Op2OfByte(b).value else AddInt);
    }
  }

  lemma StepIsRoomy(z: Limit, m: Vm, room: Sizes)
    requires Inv(z, 1, m) && m.mode.Running? && m.cs != [] && Roomy(1, m, room) && Low(m) && |m.stack| <= 0x1_0000
    ensures var m' := Step(m); m'.mode.Running? ==> m'.cs != [] && Roomy(1, m', SizesAfter(m, m', room))
  {
    hide Step, GoodVm, Sits, Start, HasPlan, PlanOf, WfVm, Kept, FrameIndex;
    StepKeepsPlan(z, 1, m);
    StepIsGood(m);
    WfCs(Step(m));
    var m' := Step(m);
    if m'.mode.Running? {
      var h, h' := PlanOf(z, m.text)[m.ip], PlanOf(z, m'.text)[m'.ip];
      StepGood(z, 1, m);
      var k: nat :| MovesTo(m, m'.cs, k);
      if m'.cs == m.cs[..k] {
        StartAfterCut(z, 1, m, m', h, k);
      } else {
        OnlyPushes(m, m', k);
        if m'.heap[|m.heap|].kind == CallFrame {
          StartIs(z, 1, m, h);
          StepGrowth(m);
          EnteringIsRoomy(z, 1, m, m', h', room);
        } else {
          StartAfterLet(1, m, m');
        }
      }
    }
  }

  // The heights that a call provides for.
  const PROVIDED := AtMost(SPARE_VALUES - 1, SPARE_CLOSURES - 1)

  lemma PlannedLow(m: Vm)
    requires Inv(PROVIDED, 1, m) && m.mode.Running?
    ensures m.cs != [] && Low(m)
  {
    hide WfVm, GoodVm, NoTry, Sits, Start, FrameIndex, Planned, HasPlan;
    WfCs(m);
    StartIs(PROVIDED, 1, m, PlanOf(PROVIDED, m.text)[m.ip]);
  }

  lemma {:induction false} RunFits(n: nat, m: Vm, room: Sizes)
    requires Inv(PROVIDED, 1, m) && m.mode.Running? && m.cs != [] && Roomy(1, m, room) && StaysShort(n, m)
    requires Run(n, m).mode.Running?
    ensures |Run(n, m).stack| <= SizesOf(n, m, room).values && |Run(n, m).cs| < SizesOf(n, m, room).closures
    decreases n
  {
    hide Step, Inv, Start, SizesAfter, FrameIndex;
    PlannedLow(m);
    if n > 0 {
      StepIsRoomy(PROVIDED, m, room);
      StepKeepsPlan(PROVIDED, 1, m);
      if !Step(m).mode.Running? {
        StaysStopped(PROVIDED, n - 1, 1, Step(m));
        assert false;
      }
      RunFits(n - 1, Step(m), SizesAfter(m, Step(m), room));
    }
  }

  lemma {:induction false} StaysStopped(z: Limit, n: nat, bottom: nat, m: Vm)
    requires Inv(z, bottom, m) && !m.mode.Running? && |m.stack| <= 0x1_0000
    ensures !Run(n, m).mode.Running?
  {
    hide Step, Inv;
    if n > 0 {
      StepKeepsPlan(z, bottom, m);
      StaysStopped(z, n - 1, bottom, Step(m));
    }
  }

  // The VM looks at the sizes of its stacks only at calls.  That is enough for
  // code whose planned heights leave room in the 32 slots and the 16 closures
  // that it makes sure of there: then no slot past the end of either stack is
  // ever in use.
  lemma StacksSuffice(e: Expr, st: Store, heap: seq<Closure>, c: nat, n: nat)
    requires Runnable(e, st, heap, c) && GoodExpr(PROVIDED, e) && LowForm(PROVIDED, e) && GoodHeap(PROVIDED, heap)
    requires StaysShort(n, Load(FnText(e), heap, c)) && Run(n, Load(FnText(e), heap, c)).mode.Running?
    ensures var m := Load(FnText(e), heap, c); var room := SizesOf(n, m, FIRST_SIZES);
            |Run(n, m).stack| <= room.values && |Run(n, m).cs| < room.closures
  {
    hide Runnable, GoodExpr, LowForm, GoodHeap, FnText, Step, StaysShort, Inv, SizesOf;
    var m := Load(FnText(e), heap, c);
    LoadInPlan(PROVIDED, e, st, heap, c);
    RunFits(n, m, FIRST_SIZES);
  }

  // A height that fits above a new frame, once the stack has been looked at.
  predicate ValuesFit(size: nat, sp: nat, depth: nat) {
    sp < size ==> sp + depth < Ensured(size, size - sp, SPARE_VALUES)
  }

  // Scopes that fit, with the frame of a further call on top.
  predicate ScopesFit(size: nat, csp: nat, scopes: nat) {
    csp < size ==> csp + scopes + 1 < Ensured(size, size - csp - 1, SPARE_CLOSURES)
  }

  // Whatever the sizes and the heights at the call: what is made sure of there
  // suffices exactly for fewer than 32 slots and fewer than 16 scopes.
  lemma ProvisionIff(h: Height)
    ensures (forall size: nat, sp: nat :: ValuesFit(size, sp, h.depth)) <==> h.depth <= PROVIDED.depth
    ensures (forall size: nat, csp: nat :: ScopesFit(size, csp, h.scopes)) <==> h.scopes <= PROVIDED.scopes
  {
    if h.depth > PROVIDED.depth {
      assert !ValuesFit(SPARE_VALUES, 0, h.depth);
    }
    if h.scopes > PROVIDED.scopes {
      assert !ScopesFit(SPARE_CLOSURES + 1, 0, h.scopes);
    }
  }
}
