// The bytecode VM as a transition system.  A state is the value stack (slot 0
// is the dummy slot below sp), the store of closures, the closure stack, the
// running closure and the code position.
module Machine {
  import opened Values
  import opened Primitives
  import opened Assembler
  import opened Compiler

  datatype Kind = Default | CallFrame | LetScope | TryScope

  // `args` holds the parameter list of a procedure and the handler of a try.
  datatype Closure = Closure(
    parent: Option<nat>, kind: Kind, data: map<Symbol, Value>, args: Value,
    text: Text, ip: int, sp: nat)

  const NO_TEXT := Text([], [])

  datatype Mode =
    | Running
    | Throwing(thrown: Thrown)         // about to unwind
    | Halted(result: Value, isException: bool)
    | Stuck                            // undefined in the C code, or not modelled

  datatype Vm = Vm(
    mode: Mode, text: Text, ip: int, stack: seq<Value>,
    heap: seq<Closure>, cs: seq<nat>, c: nat)

  // ---- scope chains

  function LookupH(heap: seq<Closure>, c: nat, s: Symbol): Option<Value> {
    if c >= |heap| then None
    else if s in heap[c].data then Some(heap[c].data[s])
    else if heap[c].parent.Some? && heap[c].parent.value < c then LookupH(heap, heap[c].parent.value, s)
    else None
  }

  function BinderH(heap: seq<Closure>, c: nat, s: Symbol): (r: Option<nat>)
    ensures r.Some? ==> r.value < |heap|
  {
    if c >= |heap| then None
    else if s in heap[c].data then Some(c)
    else if heap[c].parent.Some? && heap[c].parent.value < c then BinderH(heap, heap[c].parent.value, s)
    else None
  }

  function BindH(heap: seq<Closure>, c: nat, s: Symbol, v: Value): seq<Closure>
    requires c < |heap|
  {
    heap[c := heap[c].(data := heap[c].data[s := v])]
  }

  // ---- helpers shared by several opcodes

  function Push(m: Vm, v: Value): Vm { m.(stack := m.stack + [v]) }

  function Top(m: Vm): Value
    requires m.stack != []
  {
    m.stack[|m.stack| - 1]
  }

  function Popped(m: Vm, n: nat): seq<Value>
    requires n <= |m.stack|
  {
    m.stack[..|m.stack| - n]
  }

  function Halt(m: Vm): Vm {
    m.(mode := Stuck)
  }

  function Throw(m: Vm, t: Thrown): Vm { m.(mode := Throwing(t)) }

  // lStoreInClosure: the stack pointer is saved in 16 bits.
  function Save(m: Vm, ip: int): (r: Vm)
    requires m.c < |m.heap|
    ensures |r.heap| == |m.heap|
  {
    m.(heap := m.heap[m.c := m.heap[m.c].(ip := ip, sp := (|m.stack| - 1) % 0x1_0000, text := m.text)])
  }

  // Push a fresh closure and make it the running one.
  function Enter(m: Vm, k: Closure): Vm {
    m.(heap := m.heap + [k], cs := m.cs + [|m.heap|], c := |m.heap|)
  }

  // A call frame for procedure `id`, and lRestoreFromClosure.
  function EnterProcedure(m: Vm, id: nat, data: map<Symbol, Value>): Vm
    requires id < |m.heap|
  {
    var text := m.heap[id].text;
    Enter(m, Closure(Some(id), CallFrame, data, Nil, text, 0, 0)).(ip := 0, text := text)
  }

  // lStackBuildList and the rest-argument loop: conses from the top down.
  function ListDown(vs: seq<Value>, lo: nat, hi: nat, acc: Value): Value
    requires lo <= hi <= |vs|
    decreases hi - lo
  {
    if lo == hi then acc else ListDown(vs, lo, hi - 1, Pair(vs[hi - 1], acc))
  }

  // The binding loop of lopApply over the arguments on the stack.
  function BindStack(params: Value, vs: seq<Value>, i: nat, data: map<Symbol, Value>): map<Symbol, Value>
    requires i <= |vs|
  {
    match params
    case Pair(p, rest) =>
      if i == |vs| then BindStack(rest, vs, i, data[NameOf(p) := Nil])
      else BindStack(rest, vs, i + 1, data[NameOf(p) := vs[i]])
    case Sym(s) => data[s := ListDown(vs, i, |vs|, Nil)]
    case _ => data
  }

  // ---- opcodes; m.ip is past the opcode byte

  // The literal whose index starts at m.ip, and the code position after it.
  function Literal(m: Vm, wide: bool): Option<Value> {
    if wide then
      if 0 <= m.ip && m.ip + 1 < |m.text.data| && Index16(m.text.data[m.ip], m.text.data[m.ip + 1]) < |m.text.literals|
      then Some(m.text.literals[Index16(m.text.data[m.ip], m.text.data[m.ip + 1])]) else None
    else
      if 0 <= m.ip < |m.text.data| && m.text.data[m.ip] < |m.text.literals|
      then Some(m.text.literals[m.text.data[m.ip]]) else None
  }

  function Skip(m: Vm, wide: bool): Vm { m.(ip := m.ip + if wide then 2 else 1) }

  function DoPush(m: Vm, wide: bool): Vm {
    match Literal(m, wide)
    case None => Halt(m)
    case Some(v) => Push(Skip(m, wide), v)
  }

  function DoGet(m: Vm, wide: bool): Vm {
    match Literal(m, wide)
    case None => Halt(m)
    case Some(v) =>
      if !v.Sym? then Halt(m)
      else
        match LookupH(m.heap, m.c, v.s)
        case Some(w) => Push(Skip(m, wide), w)
        case None => Throw(Skip(m, wide), CantResolve(v.s))
  }

  // The two-byte form ignores an unbound name.
  function DoSet(m: Vm, wide: bool): Vm {
    match Literal(m, wide)
    case None => Halt(m)
    case Some(v) =>
      if !v.Sym? || m.stack == [] then Halt(m)
      else
        match BinderH(m.heap, m.c, v.s)
        case Some(b) => Skip(m, wide).(heap := BindH(m.heap, b, v.s, Top(m)))
        case None => if wide then Skip(m, wide) else Throw(Skip(m, wide), CantSet(v.s))
  }

  function DoDef(m: Vm, wide: bool): Vm {
    match Literal(m, wide)
    case None => Halt(m)
    case Some(v) =>
      if !v.Sym? || m.stack == [] || m.c >= |m.heap| then Halt(m)
      else Skip(m, wide).(heap := BindH(m.heap, m.c, v.s, Top(m)))
  }

  function DoJump(m: Vm): Vm {
    if 0 <= m.ip && m.ip + 1 < |m.text.data|
    then m.(ip := m.ip + DecodeOffset(m.text.data[m.ip], m.text.data[m.ip + 1]) - 1)
    else Halt(m)
  }

  function DoBranch(m: Vm, when: bool): Vm {
    if m.stack == [] then Halt(m)
    else if Truthy(Top(m)) == when then DoJump(m.(stack := Popped(m, 1)))
    else m.(stack := Popped(m, 1), ip := m.ip + 2)
  }

  function DoPrim1(m: Vm, op: Op1): Vm {
    if m.stack == [] then Halt(m)
    else
      match Apply1(op, Top(m))
      case Ok(v) => m.(stack := Popped(m, 1) + [v])
      case Err(t) => Throw(m, t)
      case Unmodelled => Halt(m)
  }

  // On an error all opcodes but lopIntAdd have already dropped one operand.
  function DoPrim2(m: Vm, op: Op2): Vm {
    if |m.stack| < 2 then Halt(m)
    else
      match Apply2(op, m.stack[|m.stack| - 2], Top(m))
      case Ok(v) => m.(stack := Popped(m, 2) + [v])
      case Err(t) => Throw(if op == AddInt then m else m.(stack := Popped(m, 1)), t)
      case Unmodelled => Halt(m)
  }

  function DoApply(m: Vm): Vm {
    if !(0 <= m.ip < |m.text.data|) then Halt(m)
    else
      var len: nat := m.text.data[m.ip];
      if |m.stack| < len + 1 || m.c >= |m.heap| then Halt(m)
      else
        var vs := m.stack[|m.stack| - len..];
        var fun := m.stack[|m.stack| - len - 1];
        var m1 := m.(ip := m.ip + 1, stack := Popped(m, len + 1));
        match fun
        case Lambda(id) =>
          if id >= |m.heap| then Halt(m)
          else EnterProcedure(Save(m1, m1.ip), id, BindStack(m.heap[id].args, vs, 0, map[]))
        case Kw(_) => Halt(m)
        case _ => Throw(m1, CantApply(fun))
  }

  function DoApplyCollection(m: Vm): Vm {
    if |m.stack| < 2 || m.c >= |m.heap| then Halt(m)
    else
      var fun := m.stack[|m.stack| - 2];
      var m1 := m.(stack := Popped(m, 2));
      match fun
      case Lambda(id) =>
        if id >= |m.heap| then Halt(m)
        else EnterProcedure(Save(m1, m1.ip), id, BindList(m.heap[id].args, Top(m), map[]))
      case Kw(_) => Halt(m)
      case _ => Throw(m1, CantApply(fun))
  }

  function DoList(m: Vm): Vm {
    if !(0 <= m.ip < |m.text.data|) || |m.stack| < m.text.data[m.ip] then Halt(m)
    else
      var len: nat := m.text.data[m.ip];
      var vs := m.stack[|m.stack| - len..];
      m.(ip := m.ip + 1, stack := Popped(m, len) + [ListDown(vs, 0, len, Nil)])
  }

  function DoFn(m: Vm): Vm {
    if |m.stack| < 3 || !Top(m).Bytecode? then Halt(m)
    else
      m.(heap := m.heap + [Closure(Some(m.c), Default, map[], m.stack[|m.stack| - 3], Top(m).text, 0, 0)],
         stack := Popped(m, 3) + [Lambda(|m.heap|)])
  }

  function DoLet(m: Vm): Vm {
    Enter(m, Closure(Some(m.c), LetScope, map[], Nil, NO_TEXT, 0, 0))
  }

  function DoClosurePop(m: Vm): Vm {
    if |m.cs| < 2 then Halt(m)
    else m.(cs := m.cs[..|m.cs| - 1], c := m.cs[|m.cs| - 2])
  }

  // The handler is popped after sp was saved.
  function DoTry(m: Vm): Vm {
    if !(0 <= m.ip && m.ip + 1 < |m.text.data|) || m.stack == [] || m.c >= |m.heap| then Halt(m)
    else
      var target := m.ip + DecodeOffset(m.text.data[m.ip], m.text.data[m.ip + 1]) - 1;
      var k := Closure(Some(m.c), TryScope, map[], Top(m), NO_TEXT, 0, 0);
      Enter(Save(m, target), k).(stack := Popped(m, 1), ip := m.ip + 2)
  }

  // The topmost call frame at or below index k; index 0 is never inspected.
  function FrameIndex(heap: seq<Closure>, cs: seq<nat>, k: nat): (r: nat)
    requires k < |cs|
    ensures r <= k
    ensures r > 0 ==> cs[r] < |heap| && heap[cs[r]].kind == CallFrame
  {
    if k == 0 then 0
    else if cs[k] < |heap| && heap[cs[k]].kind == CallFrame then k
    else FrameIndex(heap, cs, k - 1)
  }

  // Resume the closure at index k of the closure stack with a result.
  function Resume(m: Vm, k: nat, v: Value): Vm
    requires k < |m.cs|
  {
    var c := m.cs[k];
    if c >= |m.heap| || m.heap[c].sp + 1 > |m.stack| then Halt(m)
    else
      m.(cs := m.cs[..k + 1], c := c, ip := m.heap[c].ip, text := m.heap[c].text,
         stack := m.stack[..m.heap[c].sp + 1] + [v])
  }

  function DoRet(m: Vm): Vm {
    if m.stack == [] || m.cs == [] then Halt(m)
    else
      var k := FrameIndex(m.heap, m.cs, |m.cs| - 1);
      if k == 0 then m.(mode := Halted(Top(m), false))
      else Resume(m, k - 1, Top(m))
  }

  function Op1OfByte(b: byte): Option<Op1> {
    if b == 0x11 then Some(CarOp)
    else if b == 0x12 then Some(CdrOp)
    else if b == 0x2C then Some(CadrOp)
    else if b == 0x2A then Some(ZeroP)
    else if b == 0x23 then Some(IncInt)
    else if b == 0x2F then Some(ThrowOp)
    else if b == 0x36 then Some(NotOp)
    else None
  }

  function Op2OfByte(b: byte): Option<Op2> {
    if b == 0x03 then Some(AddInt)
    else if b == 0x25 then Some(Add)
    else if b == 0x26 then Some(Sub)
    else if b == 0x27 then Some(Mul)
    else if b == 0x14 then Some(Op2.Cons)
    else if b == 0x1E then Some(Lt)
    else if b == 0x1F then Some(Le)
    else if b == 0x20 then Some(Eq)
    else if b == 0x21 then Some(Ge)
    else if b == 0x22 then Some(Gt)
    else if b == 0x38 then Some(Ne)
    else if b == 0x33 then Some(And)
    else if b == 0x34 then Some(Ior)
    else if b == 0x35 then Some(Xor)
    else None
  }

  function Dispatch(m: Vm, b: byte): Vm {
    if b == OP_INT_BYTE then
      if 0 <= m.ip < |m.text.data|
      then Push(m.(ip := m.ip + 1), Int(SignedByte(m.text.data[m.ip])))
      else Halt(m)
    else if b == OP_NIL then Push(m, Nil)
    else if b == OP_TRUE then Push(m, Bool(true))
    else if b == OP_FALSE then Push(m, Bool(false))
    else if b == OP_PUSH then DoPush(m, false)
    else if b == OP_PUSH_EXT then DoPush(m, true)
    else if b == OP_GET then DoGet(m, false)
    else if b == OP_GET_EXT then DoGet(m, true)
    else if b == OP_SET then DoSet(m, false)
    else if b == OP_SET_EXT then DoSet(m, true)
    else if b == OP_DEF then DoDef(m, false)
    else if b == OP_DEF_EXT then DoDef(m, true)
    else if b == OP_JMP then DoJump(m)
    else if b == OP_JT then DoBranch(m, true)
    else if b == OP_JF then DoBranch(m, false)
    else if b == OP_DUP then (if m.stack == [] then Halt(m) else Push(m, Top(m)))
    else if b == OP_DROP then (if m.stack == [] then Halt(m) else m.(stack := Popped(m, 1)))
    else if b == OP_LET then DoLet(m)
    else if b == OP_CLOSURE_POP then DoClosurePop(m)
    else if b == OP_FN then DoFn(m)
    else if b == OP_TRY then DoTry(m)
    else if b == OP_LIST then DoList(m)
    else if b == OP_APPLY then DoApply(m)
    else if b == OP_APPLY_COLLECTION then DoApplyCollection(m)
    else if b == OP_RET then DoRet(m)
    else if Op1OfByte(b).Some? then DoPrim1(m, Op1OfByte(b).value)
    else if Op2OfByte(b).Some? then DoPrim2(m, Op2OfByte(b).value)
    else if b == 0 then m
    else Halt(m)
  }

  function SignedByte(b: byte): int { if b < 128 then b else b - 256 }

  // ---- exceptions

  // The call frames on the closure stack, innermost first.
  function StackTrace(heap: seq<Closure>, cs: seq<nat>): Value {
    if cs == [] then Nil
    else
      var i := cs[|cs| - 1];
      var below := StackTrace(heap, cs[..|cs| - 1]);
      if i < |heap| && heap[i].kind == CallFrame then Pair(Lambda(i), below) else below
  }

  function AppendTo(list: Value, v: Value): Value {
    match list
    case Pair(a, d) => if d.Pair? then Pair(a, AppendTo(d, v)) else Pair(a, Pair(v, Nil))
    case _ => list
  }

  // A thrown value becomes a list; an exception gets the stack trace.
  function Reported(t: Thrown, trace: Value): Value {
    if t.isException && t.value.Pair? then AppendTo(t.value, trace)
    else if t.value.Pair? then t.value
    else Pair(t.value, Nil)
  }

  // What the handler receives.
  function HandlerArgument(m: Vm, t: Thrown): Value {
    Reported(t, StackTrace(m.heap, m.cs))
  }

  // The topmost try at or below index k; 0 when there is none.
  function TryIndex(heap: seq<Closure>, cs: seq<nat>, k: nat): (r: nat)
    requires k < |cs|
    ensures r <= k
    ensures r > 0 ==> cs[r] < |heap| && heap[cs[r]].kind == TryScope
  {
    if cs[k] < |heap| && heap[cs[k]].kind == TryScope then k
    else if k == 0 then 0
    else TryIndex(heap, cs, k - 1)
  }

  function Unwind(m: Vm, t: Thrown): Vm {
    if m.cs == [] || m.stack == [] then Halt(m)
    else
      var v := HandlerArgument(m, t);
      var k := TryIndex(m.heap, m.cs, |m.cs| - 1);
      if k == 0 then
        if m.cs[0] < |m.heap| && m.heap[m.cs[0]].kind == TryScope then Halt(m)
        else m.(mode := Halted(v, true))
      else
        var fun := m.heap[m.cs[k]].args;
        var m1 := m.(mode := Running, cs := m.cs[..k], c := m.cs[k - 1]);
        match fun
        case Lambda(id) =>
          if id >= |m.heap| then Halt(m)
          else EnterProcedure(m1, id, BindList(m.heap[id].args, Pair(v, Nil), map[]))
        case Kw(_) => Throw(m1, CantApply(fun))
        case _ => Throw(m1, CantApply(fun))
  }

  // ---- the transition function and runs

  function Step(m: Vm): Vm {
    match m.mode
    case Running =>
      if 0 <= m.ip < |m.text.data| then Dispatch(m.(ip := m.ip + 1), m.text.data[m.ip]) else Halt(m)
    case Throwing(t) => Unwind(m, t)
    case _ => m
  }

  function Run(n: nat, m: Vm): Vm {
    if n == 0 then m else Run(n - 1, Step(m))
  }

  lemma {:induction false} RunAdd(a: nat, b: nat, m: Vm)
    ensures Run(a + b, m) == Run(b, Run(a, m))
  {
    hide Step;
    if a > 0 {
      RunAdd(a - 1, b, Step(m));
    }
  }

  // Nothing happens after a halt.
  lemma {:induction false} HaltedForever(n: nat, m: Vm)
    requires m.mode.Halted? || m.mode.Stuck?
    ensures Run(n, m) == m
  {
    if n > 0 {
      HaltedForever(n - 1, m);
    }
  }

  lemma OpcodeTable(op1: Op1, op2: Op2)
    ensures Op1OfByte(Byte1(op1)) == Some(op1)
    ensures Op1OfByte(Byte2(op2)).None? && Op2OfByte(Byte2(op2)) == Some(op2)
  {
  }

  // A set! whose symbol needs a two-byte literal index does what the one-byte
  // form does exactly when the symbol is bound; otherwise it does nothing.
  lemma WideSetAgreesIff(m1: Vm, m2: Vm, s: Symbol)
    requires Literal(m1, false) == Some(Sym(s)) && Literal(m2, true) == Some(Sym(s))
    requires m1.mode == m2.mode == Running && m1.stack == m2.stack != []
    requires m1.heap == m2.heap && m1.c == m2.c && m1.cs == m2.cs
    ensures (DoSet(m1, false).mode == DoSet(m2, true).mode && DoSet(m1, false).heap == DoSet(m2, true).heap) <==>
            BinderH(m1.heap, m1.c, s).Some?
    ensures BinderH(m1.heap, m1.c, s).None? ==> DoSet(m2, true) == Skip(m2, true)
  {
    hide CantSet;
  }
}
