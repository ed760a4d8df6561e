// lBytecodeEval as a loop over mutable thread fields: every opcode updates the
// fields in place, and one dispatch is exactly one step of the transition
// system in module Machine.
module Interpreter {
  import opened Values
  import opened Primitives
  import opened Assembler
  import opened Compiler
  import opened Machine
  import opened Programs
  import opened Simulation
  import opened Source

  class Thread {
    var mode: Mode
    var text: Text
    var ip: int
    var stack: seq<Value>          // valueStack[..sp + 1]
    var heap: seq<Closure>
    var closures: seq<nat>         // closureStack[..csp + 1]
    var c: nat                     // the running closure

    ghost function State(): Vm
      reads this
    {
      Vm(mode, text, ip, stack, heap, closures, c)
    }

    // A fresh thread: one dummy slot, and the calling closure at csp 0.
    constructor (callingClosure: nat, code: Text, store: seq<Closure>)
      ensures State() == Vm(Running, code, 0, [Nil], store, [callingClosure], callingClosure)
    {
      mode, text, ip, stack := Running, code, 0, [Nil];
      heap, closures, c := store, [callingClosure], callingClosure;
    }

    // What C leaves undefined, or the model leaves out.
    method Fault()
      modifies this`mode
      ensures State() == Halt(old(State()))
    {
      mode := Stuck;
    }

    // ---- scope chain loops

    function ParentOf(k: nat): (r: Option<nat>)
      requires k < |heap|
      reads this
      ensures r.Some? ==> r.value < k
    {
      if heap[k].parent.Some? && heap[k].parent.value < k then heap[k].parent else None
    }

    // The closure that binds `s`, walking parents from the running closure.
    method FindBinder(s: Symbol) returns (b: Option<nat>)
      ensures b == BinderH(heap, c, s)
      ensures b.Some? ==> b.value < |heap| && s in heap[b.value].data
      ensures LookupH(heap, c, s) == if b.Some? then Some(heap[b.value].data[s]) else None
    {
      var cc: Option<nat> := if c < |heap| then Some(c) else None;
      while cc.Some?
        invariant cc.Some? ==> cc.value < |heap|
        invariant BinderH(heap, c, s) == if cc.Some? then BinderH(heap, cc.value, s) else None
        invariant LookupH(heap, c, s) == if cc.Some? then LookupH(heap, cc.value, s) else None
        decreases if cc.Some? then cc.value + 1 else 0
      {
        if s in heap[cc.value].data {
          return cc;
        }
        cc := ParentOf(cc.value);
      }
      return None;
    }

    method DefineIn(k: nat, s: Symbol, v: Value)
      requires k < |heap|
      modifies this`heap
      ensures heap == BindH(old(heap), k, s, v)
    {
      heap := heap[k := heap[k].(data := heap[k].data[s := v])];
    }

    // ---- opcodes with a literal operand

    method FetchLiteral(wide: bool) returns (v: Option<Value>)
      modifies this`ip
      ensures v == Literal(old(State()), wide)
      ensures State() == if v.Some? then Skip(old(State()), wide) else old(State())
    {
      if wide {
        if !(0 <= ip && ip + 1 < |text.data|) {
          return None;
        }
        var off := Index16(text.data[ip], text.data[ip + 1]);
        if off >= |text.literals| {
          return None;
        }
        ip := ip + 2;
        return Some(text.literals[off]);
      }
      if !(0 <= ip < |text.data|) || text.data[ip] >= |text.literals| {
        return None;
      }
      ip := ip + 1;
      return Some(text.literals[text.data[ip - 1]]);
    }

    method PushLiteral(wide: bool)
      modifies this
      ensures State() == DoPush(old(State()), wide)
    {
      var v := FetchLiteral(wide);
      if v.None? {
        Fault();
      } else {
        stack := stack + [v.value];
      }
    }

    method Get(wide: bool)
      modifies this
      ensures State() == DoGet(old(State()), wide)
    {
      var at := ip;
      var v := FetchLiteral(wide);
      if v.None? || !v.value.Sym? {
        ip := at;
        Fault();
      } else {
        var b := FindBinder(v.value.s);
        if b.Some? {
          stack := stack + [heap[b.value].data[v.value.s]];
        } else {
          mode := Throwing(CantResolve(v.value.s));
        }
      }
    }

    method Set(wide: bool)
      modifies this
      ensures State() == DoSet(old(State()), wide)
    {
      hide CantSet, BindH, BinderH, Literal;
      var at := ip;
      var v := FetchLiteral(wide);
      if v.None? || !v.value.Sym? || stack == [] {
        ip := at;
        Fault();
      } else {
        var b := FindBinder(v.value.s);
        if b.Some? {
          DefineIn(b.value, v.value.s, stack[|stack| - 1]);
        } else if !wide {
          mode := Throwing(CantSet(v.value.s));
        }
      }
    }

    method Def(wide: bool)
      modifies this
      ensures State() == DoDef(old(State()), wide)
    {
      var at := ip;
      var v := FetchLiteral(wide);
      if v.None? || !v.value.Sym? || stack == [] || c >= |heap| {
        ip := at;
        Fault();
      } else {
        DefineIn(c, v.value.s, stack[|stack| - 1]);
      }
    }

    // ---- jumps

    method Jump()
      modifies this
      ensures State() == DoJump(old(State()))
    {
      if 0 <= ip && ip + 1 < |text.data| {
        ip := ip + DecodeOffset(text.data[ip], text.data[ip + 1]) - 1;
      } else {
        Fault();
      }
    }

    method Branch(when: bool)
      modifies this
      ensures State() == DoBranch(old(State()), when)
    {
      if stack == [] {
        Fault();
        return;
      }
      var v := stack[|stack| - 1];
      stack := stack[..|stack| - 1];
      if Truthy(v) == when {
        Jump();
      } else {
        ip := ip + 2;
      }
    }

    // ---- operators on the top of the stack

    method Unary(op: Op1)
      modifies this
      ensures State() == DoPrim1(old(State()), op)
    {
      if stack == [] {
        Fault();
        return;
      }
      match Apply1(op, stack[|stack| - 1])
      case Ok(v) => stack := stack[..|stack| - 1] + [v];
      case Err(t) => mode := Throwing(t);
      case Unmodelled => Fault();
    }

    // sp is lowered before the operands are inspected, except by lopIntAdd.
    method Binary(op: Op2)
      modifies this
      ensures State() == DoPrim2(old(State()), op)
    {
      if |stack| < 2 {
        Fault();
        return;
      }
      var a, b := stack[|stack| - 2], stack[|stack| - 1];
      match Apply2(op, a, b)
      case Ok(v) =>
        stack := stack[..|stack| - 1];
        stack := stack[..|stack| - 1] + [v];
      case Err(t) =>
        if op != AddInt {
          stack := stack[..|stack| - 1];
        }
        mode := Throwing(t);
      case Unmodelled => Fault();
    }

    // ---- lists and calls

    // lStackBuildList over the slots lo.. of the stack.
    method BuildList(vs: seq<Value>, lo: nat) returns (list: Value)
      requires lo <= |vs|
      ensures list == ListDown(vs, lo, |vs|, Nil)
    {
      list := Nil;
      var i := |vs|;
      while i > lo
        invariant lo <= i <= |vs|
        invariant ListDown(vs, lo, |vs|, Nil) == ListDown(vs, lo, i, list)
      {
        list := Pair(vs[i - 1], list);
        i := i - 1;
      }
    }

    method List()
      modifies this
      ensures State() == DoList(old(State()))
    {
      if !(0 <= ip < |text.data|) || |stack| < text.data[ip] {
        Fault();
        return;
      }
      var len: nat := text.data[ip];
      ip := ip + 1;
      var list := BuildList(stack[|stack| - len..], 0);
      stack := stack[..|stack| - len] + [list];
    }

    // The binding loop of lopApply.
    method BindFromStack(params: Value, vs: seq<Value>) returns (data: map<Symbol, Value>)
      ensures data == BindStack(params, vs, 0, map[])
    {
      data := map[];
      var n, i := params, 0;
      while n.Pair?
        invariant i <= |vs|
        invariant BindStack(params, vs, 0, map[]) == BindStack(n, vs, i, data)
        decreases n
      {
        if i == |vs| {
          data := data[NameOf(n.car) := Nil];
        } else {
          data := data[NameOf(n.car) := vs[i]];
          i := i + 1;
        }
        n := n.cdr;
      }
      if n.Sym? {
        var rest := BuildList(vs, i);
        data := data[n.s := rest];
      }
    }

    // The binding loop of lClosureNewFunCall.
    method BindFromList(params: Value, list: Value) returns (data: map<Symbol, Value>)
      ensures data == BindList(params, list, map[])
    {
      data := map[];
      var n, args := params, list;
      while n.Pair?
        invariant BindList(params, list, map[]) == BindList(n, args, data)
        decreases n
      {
        if args.Pair? {
          data := data[NameOf(n.car) := args.car];
          args := args.cdr;
        } else {
          data := data[NameOf(n.car) := Nil];
        }
        n := n.cdr;
      }
      if n.Sym? {
        data := data[n.s := args];
      }
    }

    // lStoreInClosure
    method Store(at: int)
      requires c < |heap|
      modifies this`heap
      ensures State() == Save(old(State()), at)
    {
      heap := heap[c := heap[c].(ip := at, sp := (|stack| - 1) % 0x1_0000, text := text)];
    }

    // A new call frame for procedure `id`, then lRestoreFromClosure.
    method EnterFrame(id: nat, data: map<Symbol, Value>)
      requires id < |heap|
      modifies this
      ensures State() == EnterProcedure(old(State()), id, data)
    {
      heap := heap + [Closure(Some(id), CallFrame, data, Nil, heap[id].text, 0, 0)];
      c := |heap| - 1;
      closures := closures + [c];
      ip, text := 0, heap[c].text;
    }

    method Apply()
      modifies this
      ensures State() == DoApply(old(State()))
    {
      if !(0 <= ip < |text.data|) {
        Fault();
        return;
      }
      var len: nat := text.data[ip];
      if |stack| < len + 1 || c >= |heap| {
        Fault();
        return;
      }
      var vs := stack[|stack| - len..];
      var fun := stack[|stack| - len - 1];
      if fun.Kw? || (fun.Lambda? && fun.id >= |heap|) {
        Fault();
        return;
      }
      ip := ip + 1;
      stack := stack[..|stack| - (len + 1)];
      if fun.Lambda? {
        Store(ip);
        var data := BindFromStack(heap[fun.id].args, vs);
        EnterFrame(fun.id, data);
      } else {
        mode := Throwing(CantApply(fun));
      }
    }

    method ApplyCollection()
      modifies this
      ensures State() == DoApplyCollection(old(State()))
    {
      if |stack| < 2 || c >= |heap| {
        Fault();
        return;
      }
      var list, fun := stack[|stack| - 1], stack[|stack| - 2];
      if fun.Kw? || (fun.Lambda? && fun.id >= |heap|) {
        Fault();
        return;
      }
      stack := stack[..|stack| - 2];
      if fun.Lambda? {
        Store(ip);
        var data := BindFromList(heap[fun.id].args, list);
        EnterFrame(fun.id, data);
      } else {
        mode := Throwing(CantApply(fun));
      }
    }

    // ---- scopes

    method Fn()
      modifies this
      ensures State() == DoFn(old(State()))
    {
      if |stack| < 3 || !stack[|stack| - 1].Bytecode? {
        Fault();
        return;
      }
      var body, args := stack[|stack| - 1], stack[|stack| - 3];
      heap := heap + [Closure(Some(c), Default, map[], args, body.text, 0, 0)];
      stack := stack[..|stack| - 3] + [Lambda(|heap| - 1)];
    }

    method PushScope(k: Closure)
      modifies this
      ensures State() == Enter(old(State()), k)
    {
      heap := heap + [k];
      c := |heap| - 1;
      closures := closures + [c];
    }

    method PopScope()
      modifies this
      ensures State() == DoClosurePop(old(State()))
    {
      if |closures| < 2 {
        Fault();
        return;
      }
      closures := closures[..|closures| - 1];
      c := closures[|closures| - 1];
    }

    method Try()
      modifies this
      ensures State() == DoTry(old(State()))
    {
      hide DecodeOffset;
      if !(0 <= ip && ip + 1 < |text.data|) || stack == [] || c >= |heap| {
        Fault();
        return;
      }
      Store(ip + DecodeOffset(text.data[ip], text.data[ip + 1]) - 1);
      var handler := stack[|stack| - 1];
      PushScope(Closure(Some(c), TryScope, map[], handler, NO_TEXT, 0, 0));
      stack := stack[..|stack| - 1];
      ip := ip + 2;
    }

    // Walks the closure stack down to the nearest call frame.
    method Ret()
      modifies this
      ensures State() == DoRet(old(State()))
    {
      if stack == [] || closures == [] {
        Fault();
        return;
      }
      var csp := |closures| - 1;
      while csp > 0 && !(closures[csp] < |heap| && heap[closures[csp]].kind == CallFrame)
        invariant 0 <= csp < |closures|
        invariant FrameIndex(heap, closures, |closures| - 1) == FrameIndex(heap, closures, csp)
      {
        csp := csp - 1;
      }
      if csp == 0 {
        mode := Halted(stack[|stack| - 1], false);
        return;
      }
      var k := closures[csp - 1];
      if k >= |heap| || heap[k].sp + 1 > |stack| {
        Fault();
        return;
      }
      var ret := stack[|stack| - 1];
      closures := closures[..csp];
      c := k;
      ip, text := heap[k].ip, heap[k].text;
      stack := stack[..heap[k].sp + 1] + [ret];
    }

    // ---- exceptions

    // stackTrace, from the bottom of the closure stack up.
    method Trace() returns (list: Value)
      ensures list == StackTrace(heap, closures)
    {
      list := Nil;
      var i := 0;
      while i < |closures|
        invariant 0 <= i <= |closures|
        invariant list == StackTrace(heap, closures[..i])
      {
        assert closures[..i + 1][..i] == closures[..i];
        if closures[i] < |heap| && heap[closures[i]].kind == CallFrame {
          list := Pair(Lambda(closures[i]), list);
        }
        i := i + 1;
      }
      assert closures[..i] == closures;
    }

    method ArgumentOfHandler(t: Thrown) returns (v: Value)
      ensures v == HandlerArgument(State(), t)
    {
      v := t.value;
      if !v.Pair? {
        v := Pair(v, Nil);
      } else if t.isException {
        var trace := Trace();
        v := AppendTo(v, trace);
      }
    }

    // Walks the closure stack down to the nearest try.
    method FindTry() returns (csp: nat)
      requires closures != []
      ensures csp == TryIndex(heap, closures, |closures| - 1)
    {
      csp := |closures| - 1;
      while !(closures[csp] < |heap| && heap[closures[csp]].kind == TryScope)
        invariant csp < |closures|
        invariant TryIndex(heap, closures, |closures| - 1) == TryIndex(heap, closures, csp)
        decreases csp
      {
        if csp == 0 {
          return;
        }
        csp := csp - 1;
      }
    }

    // throwException
    method Catch(t: Thrown)
      modifies this
      ensures State() == Unwind(old(State()), t)
    {
      hide HandlerArgument, EnterProcedure, BindList;
      if closures == [] || stack == [] {
        Fault();
        return;
      }
      var v := ArgumentOfHandler(t);
      var csp := FindTry();
      if csp == 0 {
        if closures[0] < |heap| && heap[closures[0]].kind == TryScope {
          Fault();
        } else {
          mode := Halted(v, true);
        }
        return;
      }
      var fun := heap[closures[csp]].args;
      if fun.Lambda? && fun.id >= |heap| {
        Fault();
        return;
      }
      mode := Running;
      closures := closures[..csp];
      c := closures[csp - 1];
      if fun.Lambda? {
        var data := BindFromList(heap[fun.id].args, Pair(v, Nil));
        EnterFrame(fun.id, data);
      } else {
        mode := Throwing(CantApply(fun));
      }
    }

    // ---- the dispatch loop

    method PushByte()
      modifies this
      ensures State() == Dispatch(old(State()), OP_INT_BYTE)
    {
      if 0 <= ip < |text.data| {
        stack := stack + [Int(SignedByte(text.data[ip]))];
        ip := ip + 1;
      } else {
        Fault();
      }
    }

    method Shuffle(drop: bool)
      modifies this
      ensures State() == Dispatch(old(State()), if drop then OP_DROP else OP_DUP)
    {
      if stack == [] {
        Fault();
      } else if drop {
        stack := stack[..|stack| - 1];
      } else {
        stack := stack + [stack[|stack| - 1]];
      }
    }

    method Execute(op: byte)
      modifies this
      ensures State() == Dispatch(old(State()), op)
    {
      hide DoPush, DoGet, DoSet, DoDef, DoJump, DoBranch, DoPrim1, DoPrim2, DoApply, DoApplyCollection,
           DoList, DoFn, DoClosurePop, DoTry, DoRet, Halt, Enter;
      if op == OP_INT_BYTE { PushByte(); }
      else if op == OP_NIL { stack := stack + [Nil]; }
      else if op == OP_TRUE { stack := stack + [Bool(true)]; }
      else if op == OP_FALSE { stack := stack + [Bool(false)]; }
      else if op == OP_PUSH { PushLiteral(false); }
      else if op == OP_PUSH_EXT { PushLiteral(true); }
      else if op == OP_GET { Get(false); }
      else if op == OP_GET_EXT { Get(true); }
      else if op == OP_SET { Set(false); }
      else if op == OP_SET_EXT { Set(true); }
      else if op == OP_DEF { Def(false); }
      else if op == OP_DEF_EXT { Def(true); }
      else if op == OP_JMP { Jump(); }
      else if op == OP_JT { Branch(true); }
      else if op == OP_JF { Branch(false); }
      else if op == OP_DUP { Shuffle(false); }
      else if op == OP_DROP { Shuffle(true); }
      else if op == OP_LET { PushScope(Closure(Some(c), LetScope, map[], Nil, NO_TEXT, 0, 0)); }
      else if op == OP_CLOSURE_POP { PopScope(); }
      else if op == OP_FN { Fn(); }
      else if op == OP_TRY { Try(); }
      else if op == OP_LIST { List(); }
      else if op == OP_APPLY { Apply(); }
      else if op == OP_APPLY_COLLECTION { ApplyCollection(); }
      else if op == OP_RET { Ret(); }
      else if Op1OfByte(op).Some? { Unary(Op1OfByte(op).value); }
      else if Op2OfByte(op).Some? { Binary(Op2OfByte(op).value); }
      else if op != 0 { Fault(); }
    }

    // One turn of the dispatch loop, or one unwinding.
    method Turn()
      modifies this
      ensures State() == Step(old(State()))
    {
      hide Dispatch, Unwind;
      match mode
      case Running =>
        if 0 <= ip < |text.data| {
          ip := ip + 1;
          Execute(text.data[ip - 1]);
        } else {
          Fault();
        }
      case Throwing(t) => Catch(t);
      case _ =>
    }

    // Runs until the thread halts or the budget is used up.
    method Evaluate(budget: nat) returns (turns: nat)
      modifies this
      ensures State() == Run(turns, old(State()))
      ensures turns <= budget && (turns < budget ==> mode.Halted? || mode.Stuck?)
    {
      hide Step;
      turns := 0;
      while turns < budget && !mode.Halted? && !mode.Stuck?
        invariant turns <= budget
        invariant State() == Run(turns, old(State()))
      {
        RunAdd(turns, 1, old(State()));
        assert Run(1, State()) == Run(0, Step(State()));
        Turn();
        turns := turns + 1;
      }
    }
  }
  // Compile, assemble and run an expression for up to `budget` steps: the mode
  // and the closures are those of the machine after that many steps, or after
  // fewer when it has stopped there, and a run that ends gives the value and the
  // scopes that the source evaluator gives.
  method RunProgram(e: Expr, st: Store, heap: seq<Closure>, c: nat, budget: nat) returns (result: Mode, store: seq<Closure>)
    requires Runnable(e, st, heap, c)
    ensures exists n: nat :: n <= budget && RanFor(n, e, heap, c, result, store)
                             && (n == budget || result.Halted? || result.Stuck?)
    ensures result.Halted? ==> exists fuel: nat :: Explains(Eval(fuel, e, st, c, 0), result, store)
  {
    hide Run, Load, Runnable, Eval, Rel;
    ghost var m := Load(FnText(e), heap, c);
    var thread := new Thread(c, FnText(e), heap);
    assert thread.State() == m by { LoadIs(FnText(e), heap, c); }
    var turns := thread.Evaluate(budget);
    result, store := thread.mode, thread.heap;
    assert RanFor(turns, e, heap, c, result, store);
    if result.Halted? {
      HaltingIsExplained(turns, e, st, heap, c);
      assert Explains(Eval(turns + 1, e, st, c, 0), result, store);
    }
  }

  // n steps from the loaded program lead to this mode and these closures.
  ghost predicate RanFor(n: nat, e: Expr, heap: seq<Closure>, c: nat, result: Mode, store: seq<Closure>) {
    var m := Run(n, Load(FnText(e), heap, c));
    result == m.mode && store == m.heap
  }

  lemma LoadIs(t: Text, heap: seq<Closure>, c: nat)
    ensures Load(t, heap, c) == Vm(Running, t, 0, [Nil], heap, [c], c)
  {
  }

  // The evaluator's outcome behind a halted VM.
  ghost predicate Explains(o: Outcome, result: Mode, store: seq<Closure>)
    requires result.Halted?
  {
    match o
    case Val(v, st') => result == Halted(v, false) && Rel(st', store)
    case Ret(v, st') => result == Halted(v, false) && Rel(st', store)
    case Raise(t, st') => (exists trace :: result == Halted(Reported(t, trace), true)) && Rel(st', store)
    case _ => o == TooDeep
  }
}
