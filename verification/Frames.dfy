// Frame discipline of the VM, for any bytecode: what calls, returns, try and
// throw do to the closure stack and the saved resume points.
module Frames {
  import opened Values
  import opened Primitives
  import opened Assembler
  import opened Machine
  import opened Simulation

  // The running closure is on top of the closure stack, whose entries are
  // ever younger closures.
  ghost predicate WfVm(m: Vm) {
    && m.cs != [] && m.c == m.cs[|m.cs| - 1]
    && (forall i :: 0 <= i < |m.cs| ==> m.cs[i] < |m.heap|)
    && (forall i, j :: 0 <= i < j < |m.cs| ==> m.cs[i] < m.cs[j])
  }

  // Nothing but data changes in closures other than c.
  ghost predicate Kept(heap: seq<Closure>, heap': seq<Closure>, c: nat) {
    && |heap| <= |heap'|
    && forall i :: 0 <= i < |heap| ==>
         heap'[i].kind == heap[i].kind && heap'[i].parent == heap[i].parent && heap'[i].args == heap[i].args &&
         (i != c ==> heap'[i].ip == heap[i].ip && heap'[i].sp == heap[i].sp && heap'[i].text == heap[i].text)
  }

  // How one step may change the closure stack: cut it back to k entries, push
  // one fresh closure, or cut at a try and push the handler's frame.
  predicate MovesTo(m: Vm, cs': seq<nat>, k: nat) {
    && 0 < k <= |m.cs|
    && (cs' == m.cs[..k] ||
        (cs' == m.cs[..k] + [|m.heap|] &&
         (k == |m.cs| || (m.cs[k] < |m.heap| && m.heap[m.cs[k]].kind == TryScope))))
  }

  ghost predicate Moves(m: Vm, cs': seq<nat>) {
    exists k: nat :: MovesTo(m, cs', k)
  }

  ghost predicate GoodStep(m: Vm, m': Vm) {
    WfVm(m') && Kept(m.heap, m'.heap, m.c) && Moves(m, m'.cs)
  }

  lemma SameMoves(m: Vm, m': Vm)
    requires m.cs != [] && m'.cs == m.cs
    ensures Moves(m, m'.cs)
  {
    assert m.cs[..|m.cs|] == m.cs;
    assert MovesTo(m, m'.cs, |m.cs|);
  }

  // Steps that leave closures and closure stack alone.
  lemma PlainStep(m: Vm, m': Vm)
    requires WfVm(m) && m'.heap == m.heap && m'.cs == m.cs && m'.c == m.c
    ensures GoodStep(m, m')
  {
    SameMoves(m, m');
  }

  lemma DataStep(m: Vm, m': Vm, b: nat, s: Symbol, v: Value)
    requires WfVm(m) && b < |m.heap| && m'.heap == BindH(m.heap, b, s, v) && m'.cs == m.cs && m'.c == m.c
    ensures GoodStep(m, m')
  {
    SameMoves(m, m');
  }

  // Saving the resume point and pushing a closure onto the first k entries.
  lemma PushStep(m: Vm, m': Vm, k: nat)
    requires WfVm(m) && 0 < k <= |m.cs| && |m'.heap| == |m.heap| + 1 && Kept(m.heap, m'.heap, m.c)
    requires m'.cs == m.cs[..k] + [|m.heap|] && m'.c == |m.heap|
    requires k == |m.cs| || m.heap[m.cs[k]].kind == TryScope
    ensures GoodStep(m, m')
  {
    assert MovesTo(m, m'.cs, k);
  }

  lemma CutStep(m: Vm, m': Vm, k: nat)
    requires WfVm(m) && 0 < k <= |m.cs| && m'.heap == m.heap && m'.cs == m.cs[..k] && m'.c == m.cs[k - 1]
    ensures GoodStep(m, m')
  {
    assert MovesTo(m, m'.cs, k);
  }

  lemma CallStep(m: Vm, id: nat, data: map<Symbol, Value>)
    requires WfVm(m) && id < |m.heap|
    ensures GoodStep(m, EnterProcedure(Save(m, m.ip), id, data))
  {
    assert m.cs[..|m.cs|] == m.cs;
    PushStep(m, EnterProcedure(Save(m, m.ip), id, data), |m.cs|);
  }

  lemma ApplyStep(m: Vm)
    requires WfVm(m)
    ensures GoodStep(m, DoApply(m))
  {
    hide EnterProcedure, BindStack, GoodStep, WfVm, Save;
    if 0 <= m.ip < |m.text.data| {
      var len: nat := m.text.data[m.ip];
      if |m.stack| >= len + 1 && m.c < |m.heap| {
        var vs := m.stack[|m.stack| - len..];
        var fun := m.stack[|m.stack| - len - 1];
        var m1 := m.(ip := m.ip + 1, stack := Popped(m, len + 1));
        if fun.Lambda? && fun.id < |m.heap| {
          SameWf(m, m1);
          CallStep(m1, fun.id, BindStack(m.heap[fun.id].args, vs, 0, map[]));
          SameGood(m, m1, DoApply(m));
          return;
        }
      }
    }
    PlainStep(m, DoApply(m));
  }

  lemma ApplyCollectionStep(m: Vm)
    requires WfVm(m)
    ensures GoodStep(m, DoApplyCollection(m))
  {
    hide EnterProcedure, BindList, GoodStep, WfVm, Save;
    if |m.stack| >= 2 && m.c < |m.heap| {
      var fun := m.stack[|m.stack| - 2];
      var m1 := m.(stack := Popped(m, 2));
      if fun.Lambda? && fun.id < |m.heap| {
        SameWf(m, m1);
        CallStep(m1, fun.id, BindList(m.heap[fun.id].args, Top(m), map[]));
        SameGood(m, m1, DoApplyCollection(m));
        return;
      }
    }
    PlainStep(m, DoApplyCollection(m));
  }

  lemma SameWf(m: Vm, m1: Vm)
    requires WfVm(m) && m1.heap == m.heap && m1.cs == m.cs && m1.c == m.c
    ensures WfVm(m1)
  {
  }

  lemma SameGood(m: Vm, m1: Vm, m': Vm)
    requires GoodStep(m1, m') && m1.heap == m.heap && m1.cs == m.cs && m1.c == m.c
    ensures GoodStep(m, m')
  {
    var k: nat :| MovesTo(m1, m'.cs, k);
    assert MovesTo(m, m'.cs, k);
  }

  lemma StoreStep(m: Vm, wide: bool)
    requires WfVm(m)
    ensures GoodStep(m, DoSet(m, wide)) && GoodStep(m, DoDef(m, wide))
  {
    hide GoodStep, WfVm, BindH, BinderH;
    var l := Literal(m, wide);
    if l.Some? && l.value.Sym? && m.stack != [] {
      var s := l.value.s;
      var b := BinderH(m.heap, m.c, s);
      if b.Some? {
        DataStep(m, DoSet(m, wide), b.value, s, Top(m));
      } else {
        PlainStep(m, DoSet(m, wide));
      }
      if m.c < |m.heap| {
        DataStep(m, DoDef(m, wide), m.c, s, Top(m));
      } else {
        PlainStep(m, DoDef(m, wide));
      }
    } else {
      PlainStep(m, DoSet(m, wide));
      PlainStep(m, DoDef(m, wide));
    }
  }

  lemma ScopeStep(m: Vm)
    requires WfVm(m)
    ensures GoodStep(m, DoLet(m)) && GoodStep(m, DoClosurePop(m)) && GoodStep(m, DoFn(m))
  {
    assert m.cs[..|m.cs|] == m.cs;
    PushStep(m, DoLet(m), |m.cs|);
    if |m.cs| >= 2 {
      CutStep(m, DoClosurePop(m), |m.cs| - 1);
    } else {
      PlainStep(m, DoClosurePop(m));
    }
    SameMoves(m, DoFn(m));
  }

  lemma TryStep(m: Vm)
    requires WfVm(m)
    ensures GoodStep(m, DoTry(m))
  {
    assert m.cs[..|m.cs|] == m.cs;
    if !(0 <= m.ip && m.ip + 1 < |m.text.data|) || m.stack == [] || m.c >= |m.heap| {
      PlainStep(m, DoTry(m));
    } else {
      PushStep(m, DoTry(m), |m.cs|);
    }
  }

  lemma RetStep(m: Vm)
    requires WfVm(m)
    ensures GoodStep(m, DoRet(m))
  {
    if m.stack == [] || m.cs == [] {
      PlainStep(m, DoRet(m));
    } else {
      var k := FrameIndex(m.heap, m.cs, |m.cs| - 1);
      if k > 0 && m.heap[m.cs[k - 1]].sp + 1 <= |m.stack| {
        CutStep(m, DoRet(m), k);
      } else {
        PlainStep(m, DoRet(m));
      }
    }
  }

  lemma UnwindStep(m: Vm, t: Thrown)
    requires WfVm(m)
    ensures GoodStep(m, Unwind(m, t))
  {
    hide HandlerArgument, BindList;
    if m.cs == [] || m.stack == [] {
      PlainStep(m, Unwind(m, t));
    } else {
      var k := TryIndex(m.heap, m.cs, |m.cs| - 1);
      if k == 0 {
        PlainStep(m, Unwind(m, t));
      } else {
        var fun := m.heap[m.cs[k]].args;
        if fun.Lambda? {
          if fun.id < |m.heap| {
            PushStep(m, Unwind(m, t), k);
          } else {
            PlainStep(m, Unwind(m, t));
          }
        } else {
          CutStep(m, Unwind(m, t), k);
        }
      }
    }
  }

  // In every step the running closure stays on top of the closure stack, older
  // closures keep their resume points, and the stack is only cut or pushed.
  lemma StepIsGood(m: Vm)
    requires WfVm(m)
    ensures GoodStep(m, Step(m))
  {
    hide GoodStep, WfVm, DoPush, DoGet, DoSet, DoDef, DoJump, DoBranch, DoApply, DoApplyCollection, DoList, DoFn, DoLet, DoClosurePop, DoTry, DoRet, DoPrim1, DoPrim2;
    match m.mode
    case Running =>
      if 0 <= m.ip < |m.text.data| {
        var m1 := m.(ip := m.ip + 1);
        SameWf(m, m1);
        DispatchIsGood(m1, m.text.data[m.ip]);
        SameGood(m, m1, Step(m));
      } else {
        PlainStep(m, Step(m));
      }
    case Throwing(t) => UnwindStep(m, t);
    case _ => PlainStep(m, Step(m));
  }

  // The opcodes that touch closures or the closure stack.
  predicate MovesScopes(b: byte) {
    b == OP_SET || b == OP_SET_EXT || b == OP_DEF || b == OP_DEF_EXT || b == OP_LET || b == OP_CLOSURE_POP ||
    b == OP_FN || b == OP_TRY || b == OP_APPLY || b == OP_APPLY_COLLECTION || b == OP_RET
  }

  lemma DispatchIsGood(m: Vm, b: byte)
    requires WfVm(m)
    ensures GoodStep(m, Dispatch(m, b))
  {
    hide GoodStep, WfVm;
    if MovesScopes(b) {
      DispatchScopes(m, b);
    } else {
      DispatchPlain(m, b);
    }
  }

  lemma DispatchScopes(m: Vm, b: byte)
    requires WfVm(m) && MovesScopes(b)
    ensures GoodStep(m, Dispatch(m, b))
  {
    hide GoodStep, WfVm, DoPush, DoGet, DoSet, DoDef, DoJump, DoBranch, DoApply, DoApplyCollection, DoList, DoFn, DoLet, DoClosurePop, DoTry, DoRet, DoPrim1, DoPrim2;
    StoreStep(m, false);
    StoreStep(m, true);
    ScopeStep(m);
    TryStep(m);
    ApplyStep(m);
    ApplyCollectionStep(m);
    RetStep(m);
  }

  lemma DispatchPlain(m: Vm, b: byte)
    requires WfVm(m) && !MovesScopes(b)
    ensures GoodStep(m, Dispatch(m, b))
  {
    hide GoodStep, WfVm, DoSet, DoDef, DoApply, DoApplyCollection, DoFn, DoLet, DoClosurePop, DoTry, DoRet,
      Apply1, Apply2, LookupH, ListDown, Op1OfByte, Op2OfByte, DecodeOffset;
    PlainStep(m, Dispatch(m, b));
  }

  lemma {:induction false} RunIsWf(n: nat, m: Vm)
    requires WfVm(m)
    ensures WfVm(Run(n, m))
  {
    hide Step, WfVm;
    if n > 0 {
      StepIsGood(m);
      GoodIsWf(m, Step(m));
      RunIsWf(n - 1, Step(m));
    }
  }

  lemma GoodIsWf(m: Vm, m': Vm)
    requires GoodStep(m, m')
    ensures WfVm(m')
  {
  }

  // ---- calls and returns

  // What the frame `base` needs to be resumed, untouched while something runs
  // on top of it.
  ghost predicate Guards(base: seq<nat>, frame: nat, k: Closure, m: Vm) {
    && WfVm(m) && base != []
    && base + [frame] <= m.cs
    && m.cs[|base|] == frame && m.cs[|base| - 1] == base[|base| - 1]
    && m.heap[frame].kind == CallFrame
    && var c := base[|base| - 1];
       m.heap[c].ip == k.ip && m.heap[c].sp == k.sp && m.heap[c].text == k.text
  }

  // While the closure stack stays above `base` in n steps.
  predicate StaysAbove(n: nat, m: Vm, size: nat) {
    |m.cs| > size && (n == 0 || StaysAbove(n - 1, Step(m), size))
  }

  lemma GuardsStep(base: seq<nat>, frame: nat, k: Closure, m: Vm, m': Vm)
    requires Guards(base, frame, k, m) && GoodStep(m, m') && |m'.cs| > |base|
    ensures Guards(base, frame, k, m') 
  {
    var j := |base|;
    var q: nat :| MovesTo(m, m'.cs, q);
    assert q > j;
    assert m.cs[..q][..j + 1] == base + [frame];
    assert m'.cs[..j + 1] == base + [frame];
    assert m'.cs[j] == frame && m'.cs[j - 1] == m.cs[j - 1] < frame;
  }

  // Running on above `base` keeps it resumable.
  lemma {:induction false} GuardsRun(n: nat, base: seq<nat>, frame: nat, k: Closure, m: Vm)
    requires Guards(base, frame, k, m) && StaysAbove(n, m, |base|)
    ensures Guards(base, frame, k, Run(n, m))
  {
    hide Step, Guards;
    if n > 0 {
      GuardsWf(base, frame, k, m);
      StepIsGood(m);
      assert StaysAbove(n - 1, Step(m), |base|);
      GuardsStep(base, frame, k, m, Step(m));
      GuardsRun(n - 1, base, frame, k, Step(m));
    }
  }

  lemma GuardsWf(base: seq<nat>, frame: nat, k: Closure, m: Vm)
    requires Guards(base, frame, k, m)
    ensures WfVm(m)
  {
  }

  // Whatever a frame does, a $ret that leaves it restores the closure stack
  // below it, resumes at the saved position with the saved stack pointer, and
  // puts the result on top.
  lemma ReturnResumes(n: nat, base: seq<nat>, frame: nat, k: Closure, m: Vm)
    requires Guards(base, frame, k, m) && StaysAbove(n, m, |base|)
    requires var m1 := Run(n, m);
             m1.mode.Running? && 0 <= m1.ip < |m1.text.data| && m1.text.data[m1.ip] == OP_RET
    requires var m2 := Step(Run(n, m)); m2.mode.Running? && |m2.cs| <= |base|
    ensures var m1 := Run(n, m); var m2 := Step(m1);
            && m2.cs == base && m2.c == base[|base| - 1]
            && m2.ip == k.ip && m2.text == k.text
            && |m2.stack| == k.sp + 2 && m2.stack[k.sp + 1] == m1.stack[|m1.stack| - 1]
            && m2.stack[..k.sp + 1] == m1.stack[..k.sp + 1]
  {
    hide Step, Guards;
    GuardsRun(n, base, frame, k, m);
    var m1 := Run(n, m);
    StepRet(m1);
    RetLeaves(base, frame, k, m1, DoRet(m1.(ip := m1.ip + 1)));
  }

  lemma RetLeaves(base: seq<nat>, frame: nat, k: Closure, m: Vm, m': Vm)
    requires Guards(base, frame, k, m) && m' == DoRet(m.(ip := m.ip + 1)) && m'.mode.Running? && |m'.cs| <= |base|
    ensures m'.cs == base && m'.c == base[|base| - 1] && m'.ip == k.ip && m'.text == k.text
    ensures k.sp + 1 <= |m.stack| && m'.stack == m.stack[..k.sp + 1] + [m.stack[|m.stack| - 1]]
  {
    hide FrameIndex;
    FrameAtOrAbove(m.heap, m.cs, |m.cs| - 1, |base|);
    assert m.cs[..|base|] == base;
  }

  lemma {:induction false} FrameAtOrAbove(heap: seq<Closure>, cs: seq<nat>, k: nat, j: nat)
    requires j <= k < |cs| && cs[j] < |heap| && heap[cs[j]].kind == CallFrame
    ensures FrameIndex(heap, cs, k) >= j
    decreases k
  {
    if k > j {
      FrameAtOrAbove(heap, cs, k - 1, j);
    }
  }

  // m is about to apply a procedure to len arguments.
  ghost predicate Calls(m: Vm, len: nat, id: nat) {
    && WfVm(m) && m.mode.Running?
    && 0 <= m.ip && m.ip + 1 < |m.text.data| && m.text.data[m.ip] == OP_APPLY && m.text.data[m.ip + 1] == len
    && |m.stack| > len + 1
    && m.stack[|m.stack| - len - 1] == Lambda(id) && id < |m.heap|
  }

  lemma CallGuards(m: Vm, len: nat, id: nat)
    requires Calls(m, len, id)
    ensures var m1 := Step(m);
            && m1.cs == m.cs + [|m.heap|] && m.c < |m.heap| < |m1.heap|
            && Guards(m.cs, |m.heap|, m1.heap[m.c], m1)
            && m1.heap[m.c].ip == m.ip + 2 && m1.heap[m.c].text == m.text
            && m1.heap[m.c].sp == (|m.stack| - len - 2) % 0x1_0000
            && m1.ip == 0 && (id != m.c ==> m1.text == m.heap[id].text)
            && m1.stack == m.stack[..|m.stack| - len - 1]
            && m1.heap[|m.heap|].parent == Some(id)
            && m1.heap[|m.heap|].data == BindList(m.heap[id].args, ListOf(m.stack[|m.stack| - len..]), map[])
  {
    hide BindStack, BindList, DoPush, DoGet, DoSet, DoDef, DoJump, DoBranch, DoApplyCollection, DoList, DoFn, DoLet,
      DoClosurePop, DoTry, DoRet, DoPrim1, DoPrim2;
    StepIsGood(m);
    var vs := m.stack[|m.stack| - len..];
    assert vs[0..] == vs;
    StackBindingIsListBinding(m.heap[id].args, vs, 0, map[]);
  }

  // A call with len arguments that returns, from inside any nesting of let
  // scopes and after any inner calls, resumes right behind the apply with the
  // closure stack restored, sp lowered by len, and the result on top.  This
  // needs the stack pointer to fit the 16 bits it is saved in, and only that.
  lemma CallReturns(m: Vm, len: nat, id: nat, n: nat)
    requires Calls(m, len, id) && StaysAbove(n, Step(m), |m.cs|)
    requires var m1 := Run(n, Step(m));
             m1.mode.Running? && 0 <= m1.ip < |m1.text.data| && m1.text.data[m1.ip] == OP_RET
    requires var m2 := Step(Run(n, Step(m))); m2.mode.Running? && |m2.cs| <= |m.cs|
    ensures var m1 := Run(n, Step(m)); var m2 := Step(m1);
            && m2.cs == m.cs && m2.c == m.c && m2.ip == m.ip + 2 && m2.text == m.text
            && m2.stack[|m2.stack| - 1] == m1.stack[|m1.stack| - 1]
            && (|m2.stack| == |m.stack| - len <==> |m.stack| - len - 2 <= 0xFFFF)
  {
    hide Step, Guards;
    CallGuards(m, len, id);
    ReturnResumes(n, m.cs, |m.heap|, Step(m).heap[m.c], Step(m));
  }

  // ---- try and throw

  // m is about to open a try; `target` is where its catch resumes.
  ghost predicate Tries(m: Vm, target: int) {
    && WfVm(m) && m.mode.Running? && m.stack != []
    && 0 <= m.ip && m.ip + 2 < |m.text.data| && m.text.data[m.ip] == OP_TRY
    && target == m.ip + DecodeOffset(m.text.data[m.ip + 1], m.text.data[m.ip + 2])
  }

  // The try scope `t` opened on top of `base` is still active.
  ghost predicate Armed(base: seq<nat>, t: nat, handler: Value, k: Closure, m: Vm) {
    && WfVm(m) && base != []
    && base + [t] <= m.cs
    && m.cs[|base|] == t && m.cs[|base| - 1] == base[|base| - 1]
    && m.heap[t].kind == TryScope && m.heap[t].args == handler
    && var c := base[|base| - 1];
       m.heap[c].ip == k.ip && m.heap[c].sp == k.sp && m.heap[c].text == k.text
  }

  predicate StaysArmed(n: nat, m: Vm, size: nat, t: nat) {
    |m.cs| > size && m.cs[size] == t && (n == 0 || StaysArmed(n - 1, Step(m), size, t))
  }

  lemma TryArms(m: Vm, target: int)
    requires Tries(m, target)
    ensures var m1 := Step(m);
            && m1.cs == m.cs + [|m.heap|] && m.c < |m.heap| < |m1.heap|
            && Armed(m.cs, |m.heap|, Top(m), m1.heap[m.c], m1)
            && m1.heap[m.c].ip == target && m1.heap[m.c].text == m.text
            && m1.heap[m.c].sp == (|m.stack| - 1) % 0x1_0000
            && m1.stack == m.stack[..|m.stack| - 1] && m1.ip == m.ip + 3
  {
    hide DoPush, DoGet, DoSet, DoDef, DoJump, DoBranch, DoApply, DoApplyCollection, DoList, DoFn, DoLet,
      DoClosurePop, DoRet, DoPrim1, DoPrim2, DecodeOffset;
    StepIsGood(m);
  }

  lemma {:induction false} ArmedRun(n: nat, base: seq<nat>, t: nat, handler: Value, k: Closure, m: Vm)
    requires Armed(base, t, handler, k, m) && StaysArmed(n, m, |base|, t)
    ensures Armed(base, t, handler, k, Run(n, m))
  {
    hide Step;
    if n > 0 {
      StepIsGood(m);
      assert StaysArmed(n - 1, Step(m), |base|, t);
      ArmedStep(base, t, handler, k, m, Step(m));
      ArmedRun(n - 1, base, t, handler, k, Step(m));
    }
  }

  lemma ArmedStep(base: seq<nat>, t: nat, handler: Value, k: Closure, m: Vm, m': Vm)
    requires Armed(base, t, handler, k, m) && GoodStep(m, m') && |m'.cs| > |base| && m'.cs[|base|] == t
    ensures Armed(base, t, handler, k, m')
  {
    var j := |base|;
    var q: nat :| MovesTo(m, m'.cs, q);
    assert m.cs[j - 1] < t < |m.heap|;
    assert q >= j;
    if q > j {
      assert m.cs[..q][..j + 1] == base + [t];
    }
    assert m'.cs[..j + 1] == base + [t];
  }

  lemma {:induction false} TryIndexIs(heap: seq<Closure>, cs: seq<nat>, k: nat, j: nat)
    requires 0 < j <= k < |cs| && cs[j] < |heap| && heap[cs[j]].kind == TryScope
    requires forall i :: j < i <= k ==> cs[i] < |heap| && heap[cs[i]].kind != TryScope
    ensures TryIndex(heap, cs, k) == j
    decreases k
  {
    if k > j {
      TryIndexIs(heap, cs, k - 1, j);
    }
  }

  // A throw that reaches this try unwinds the closure stack to exactly its
  // value when the try began and calls the handler on top of it; the handler's
  // return will resume at the end of the try.
  lemma ThrowUnwinds(m: Vm, target: int, n: nat, id: nat)
    requires Tries(m, target) && Top(m) == Lambda(id) && id < |m.heap|
    requires StaysArmed(n, Step(m), |m.cs|, |m.heap|)
    requires var m1 := Run(n, Step(m));
             && m1.mode.Throwing? && m1.stack != []
             && forall i :: |m.cs| < i < |m1.cs| ==> m1.cs[i] < |m1.heap| && m1.heap[m1.cs[i]].kind != TryScope
    ensures var m1 := Run(n, Step(m)); var m2 := Step(m1); var f := |m1.heap|;
            && m2.mode.Running? && m2.cs == m.cs + [f] && m2.ip == 0
            && m.c < |m.heap| < |Step(m).heap| <= |m1.heap|
            && Guards(m.cs, f, Step(m).heap[m.c], m2)
            && m2.heap[f].data == BindList(m1.heap[id].args, Pair(HandlerArgument(m1, m1.mode.thrown), Nil), map[])
  {
    hide Step, Armed;
    TryArms(m, target);
    ArmedRun(n, m.cs, |m.heap|, Top(m), Step(m).heap[m.c], Step(m));
    var m1 := Run(n, Step(m));
    StepThrows(m1);
    RunGrows(n, Step(m), m.cs, |m.heap|, Top(m), Step(m).heap[m.c]);
    UnwindsTo(m.cs, |m.heap|, id, Step(m).heap[m.c], m1, m1.mode.thrown);
  }

  lemma StepThrows(m: Vm)
    requires m.mode.Throwing?
    ensures Step(m) == Unwind(m, m.mode.thrown)
  {
    hide Unwind;
  }

  lemma {:induction false} RunGrows(n: nat, m: Vm, base: seq<nat>, t: nat, handler: Value, k: Closure)
    requires Armed(base, t, handler, k, m)
    ensures |m.heap| <= |Run(n, m).heap|
  {
    WfRunGrows(n, m);
  }

  lemma {:induction false} WfRunGrows(n: nat, m: Vm)
    requires WfVm(m)
    ensures |m.heap| <= |Run(n, m).heap|
  {
    hide Step;
    if n > 0 {
      StepIsGood(m);
      WfRunGrows(n - 1, Step(m));
    }
  }

  lemma UnwindsTo(base: seq<nat>, t: nat, id: nat, k: Closure, m: Vm, x: Thrown)
    requires Armed(base, t, Lambda(id), k, m) && m.stack != [] && id < |m.heap|
    requires forall i :: |base| < i < |m.cs| ==> m.cs[i] < |m.heap| && m.heap[m.cs[i]].kind != TryScope
    ensures var m2 := Unwind(m, x);
            && m2.mode.Running? && m2.cs == base + [|m.heap|] && m2.ip == 0
            && Guards(base, |m.heap|, k, m2)
            && m2.heap[|m.heap|].data == BindList(m.heap[id].args, Pair(HandlerArgument(m, x), Nil), map[])
  {
    hide HandlerArgument, BindList, TryIndex;
    TryIndexIs(m.heap, m.cs, |m.cs| - 1, |base|);
    UnwindStep(m, x);
    assert m.cs[..|base|] == base;
    assert m.cs[|base| - 1] < t;
  }

  // After a catch the handler's result sits one slot higher than the result of
  // an undisturbed try body: $try saves sp before it pops the handler.
  lemma CaughtDepth(m: Vm, target: int, n: nat, id: nat, n2: nat)
    requires Tries(m, target) && Top(m) == Lambda(id) && id < |m.heap| && |m.stack| - 1 <= 0xFFFF
    requires StaysArmed(n, Step(m), |m.cs|, |m.heap|)
    requires var m1 := Run(n, Step(m));
             && m1.mode.Throwing? && m1.stack != []
             && forall i :: |m.cs| < i < |m1.cs| ==> m1.cs[i] < |m1.heap| && m1.heap[m1.cs[i]].kind != TryScope
    requires StaysAbove(n2, Step(Run(n, Step(m))), |m.cs|)
    requires var m3 := Run(n2, Step(Run(n, Step(m))));
             m3.mode.Running? && 0 <= m3.ip < |m3.text.data| && m3.text.data[m3.ip] == OP_RET
    requires var m4 := Step(Run(n2, Step(Run(n, Step(m))))); m4.mode.Running? && |m4.cs| <= |m.cs|
    ensures var m3 := Run(n2, Step(Run(n, Step(m)))); var m4 := Step(m3);
            && m4.cs == m.cs && m4.c == m.c && m4.ip == target && m4.text == m.text
            && |m4.stack| == |m.stack| + 1
            && m4.stack[|m4.stack| - 1] == m3.stack[|m3.stack| - 1]
  {
    hide Step, Guards, Armed, StaysAbove, StaysArmed;
    TryArms(m, target);
    ThrowUnwinds(m, target, n, id);
    var m1 := Run(n, Step(m));
    ReturnResumes(n2, m.cs, |m1.heap|, Step(m).heap[m.c], Step(m1));
  }

  // With no try on the closure stack the thrown value ends the run.
  lemma {:induction false} NoTryFound(heap: seq<Closure>, cs: seq<nat>, k: nat)
    requires k < |cs| && forall i :: 0 <= i <= k ==> cs[i] < |heap| && heap[cs[i]].kind != TryScope
    ensures TryIndex(heap, cs, k) == 0
  {
    if k > 0 {
      NoTryFound(heap, cs, k - 1);
    }
  }

  lemma UncaughtHalts(m: Vm)
    requires m.mode.Throwing? && m.cs != [] && m.stack != []
    requires forall i :: 0 <= i < |m.cs| ==> m.cs[i] < |m.heap| && m.heap[m.cs[i]].kind != TryScope
    ensures Step(m) == m.(mode := Halted(HandlerArgument(m, m.mode.thrown), true))
  {
    hide HandlerArgument;
    StepThrows(m);
    NoTryFound(m.heap, m.cs, |m.cs| - 1);
  }

  // A handler that is no procedure is an error of the code around its try.
  lemma BadHandlerThrows(m: Vm, j: nat)
    requires m.mode.Throwing? && m.stack != [] && 0 < j < |m.cs|
    requires m.cs[j] < |m.heap| && m.heap[m.cs[j]].kind == TryScope && !m.heap[m.cs[j]].args.Lambda?
    requires forall i :: j < i < |m.cs| ==> m.cs[i] < |m.heap| && m.heap[m.cs[i]].kind != TryScope
    ensures var handler := m.heap[m.cs[j]].args;
            && Step(m).mode.Throwing? && Step(m).mode.thrown.isException
            && Step(m).mode.thrown.value == ListTo([Kw("type-error"), Str("Can't apply to following val"), handler], Nil)
            && Step(m).cs == m.cs[..j] && Step(m).c == m.cs[j - 1] && Step(m).stack == m.stack && Step(m).heap == m.heap
  {
    hide HandlerArgument;
    StepThrows(m);
    TryIndexIs(m.heap, m.cs, |m.cs| - 1, j);
    var handler := m.heap[m.cs[j]].args;
    var message := Str("Can't apply to following val");
    assert [handler][1..] == [] && [message, handler][1..] == [handler];
    assert [Kw("type-error"), message, handler][1..] == [message, handler];
    assert ListTo([handler], Nil) == Pair(handler, Nil);
    assert ListTo([message, handler], Nil) == Pair(message, Pair(handler, Nil));
  }

  // ---- what a handler receives

  // An exception arrives with the stack trace behind its last item, whatever
  // ended its list; another value arrives as it is, or as a list of one.
  lemma HandlerReceives(m: Vm, vs: seq<Value>, tail: Value, t: Thrown)
    requires !tail.Pair? && t.value == ListTo(vs, tail)
    ensures t.isException && vs != [] ==> HandlerArgument(m, t) == ListTo(vs + [StackTrace(m.heap, m.cs)], Nil)
    ensures !t.isException && vs != [] ==> HandlerArgument(m, t) == t.value
    ensures vs == [] ==> HandlerArgument(m, t) == ListTo([t.value], Nil)
  {
    if vs != [] {
      AppendedTo(vs, tail, StackTrace(m.heap, m.cs));
    } else {
      assert [t.value][1..] == [];
      assert ListTo([], Nil) == Nil;
    }
  }

  lemma {:induction false} AppendedTo(vs: seq<Value>, tail: Value, v: Value)
    requires !tail.Pair? && vs != []
    ensures AppendTo(ListTo(vs, tail), v) == ListTo(vs + [v], Nil)
  {
    assert (vs + [v])[1..] == vs[1..] + [v];
    if |vs| == 1 {
      assert ListTo(vs[1..], tail) == tail;
      assert vs[1..] + [v] == [v] && [v][1..] == [];
      assert ListTo([], Nil) == Nil && ListTo([v], Nil) == Pair(v, Nil);
    } else {
      AppendedTo(vs[1..], tail, v);
    }
  }

  predicate IsCall(heap: seq<Closure>, i: nat) {
    i < |heap| && heap[i].kind == CallFrame
  }

  // How many calls a stretch of the closure stack holds.
  function CallsIn(heap: seq<Closure>, cs: seq<nat>): nat {
    if cs == [] then 0
    else CallsIn(heap, cs[..|cs| - 1]) + if IsCall(heap, cs[|cs| - 1]) then 1 else 0
  }

  function ItemCount(list: Value): nat {
    if list.Pair? then 1 + ItemCount(list.cdr) else 0
  }

  function Item(list: Value, k: nat): Value {
    if !list.Pair? then Nil else if k == 0 then list.car else Item(list.cdr, k - 1)
  }

  // The stack trace holds each call on the closure stack, with as many calls
  // before it as there are above it, and nothing else.
  lemma {:induction false} TraceHoldsCalls(heap: seq<Closure>, cs: seq<nat>)
    ensures ItemCount(StackTrace(heap, cs)) == CallsIn(heap, cs)
    ensures forall k: nat :: k < |cs| && IsCall(heap, cs[k]) ==>
              Item(StackTrace(heap, cs), CallsIn(heap, cs[k + 1..])) == Lambda(cs[k])
    decreases |cs|
  {
    if cs != [] {
      var last := |cs| - 1;
      TraceHoldsCalls(heap, cs[..last]);
      forall k: nat | k < |cs| && IsCall(heap, cs[k])
        ensures Item(StackTrace(heap, cs), CallsIn(heap, cs[k + 1..])) == Lambda(cs[k])
      {
        if k < last {
          assert cs[k + 1..][..last - k - 1] == cs[..last][k + 1..];
          assert cs[k + 1..][last - k - 1] == cs[last];
          assert cs[..last][k] == cs[k];
        }
      }
    }
  }
}
