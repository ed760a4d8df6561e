// The primitives that the compiler turns into single opcodes.  Integers are
// 64-bit and wrap around.
module Primitives {
  import opened Values

  const TWO_63 := 0x8000_0000_0000_0000
  const TWO_64 := 0x1_0000_0000_0000_0000

  predicate IsI64(x: int) {
    -TWO_63 <= x < TWO_63
  }

  function Wrap64(x: int): (r: int)
    ensures IsI64(r) && (r - x) % TWO_64 == 0
    ensures IsI64(x) ==> r == x
  {
    (x + TWO_63) % TWO_64 - TWO_63
  }

  // Bitwise operators on two's complement integers of any width.
  function BitAnd(a: int, b: int): int
    decreases if a < 0 then -a else a
  {
    if a == 0 || b == 0 then 0
    else if a == -1 then b
    else 2 * BitAnd(a / 2, b / 2) + (a % 2) * (b % 2)
  }

  function BitNot(a: int): int { -a - 1 }

  function BitOr(a: int, b: int): int { BitNot(BitAnd(BitNot(a), BitNot(b))) }

  function BitXor(a: int, b: int): int { BitOr(a, b) - BitAnd(a, b) }

  datatype Op1 = CarOp | CdrOp | CadrOp | ZeroP | IncInt | ThrowOp | NotOp

  datatype Op2 =
    | AddInt | Add | Sub | Mul | Cons
    | Lt | Le | Eq | Ne | Ge | Gt
    | And | Ior | Xor

  // `Unmodelled`: the result depends on pointer identity, which values lack.
  datatype Result = Ok(v: Value) | Err(thrown: Thrown) | Unmodelled

  function Apply1(op: Op1, a: Value): Result {
    match op
    case CarOp => Ok(Car(a))
    case CdrOp => Ok(Cdr(a))
    case CadrOp => Ok(Car(Cdr(a)))
    case ZeroP => Ok(Bool(a == Int(0)))
    case IncInt => Ok(if a.Int? then Int(Wrap64(a.i + 1)) else a)
    case ThrowOp => Err(Thrown(a, a.Pair?))
    case NotOp => if a.Int? then Ok(Int(BitNot(a.i))) else Err(NonNumeric(a))
  }

  // lStringGreater and lSymbolGreater.  The length difference is taken in
  // unsigned 32-bit arithmetic, so a proper prefix compares as greater.
  function CompareChars(a: string, b: string, i: nat): int
    requires i <= |a| && i <= |b|
    decreases |a| - i
  {
    if i < |a| && i < |b| then
      if a[i] != b[i] then a[i] as int - b[i] as int else CompareChars(a, b, i + 1)
    else (|a| - |b|) % 0x1_0000_0000
  }

  // lValGreater
  function Compare(a: Value, b: Value): int {
    match (a, b)
    case (Int(x), Int(y)) => Wrap64(x - y)
    case (Sym(x), Sym(y)) => CompareChars(x, y, 0)
    case (Kw(x), Kw(y)) => CompareChars(x, y, 0)
    case (Str(x), Str(y)) => CompareChars(x, y, 0)
    case _ => 0
  }

  // lValEqual
  function Equal(a: Value, b: Value): Result {
    if (a.Pair? && b.Pair?) || (a.Bytecode? && b.Bytecode?) then Unmodelled
    else Ok(Bool(a == b))
  }

  // What each two-operand opcode leaves on the stack or throws.
  function Apply2(op: Op2, a: Value, b: Value): Result {
    match op
    case AddInt =>
      if a.Int? && b.Int? then Ok(Int(Wrap64(a.i + b.i))) else Err(NonNumeric(b))
    case Add =>
      if a.Int? then
        if b.Int? then Ok(Int(Wrap64(a.i + b.i)))
        else if b.Nil? then Ok(a)
        else Err(NonNumeric(b))
      else if a.Nil? then Ok(Int(0))
      else Err(NonNumeric(b))
    case Sub =>
      if a.Int? then
        if b.Int? then Ok(Int(Wrap64(a.i - b.i)))
        else if b.Nil? then Ok(Int(Wrap64(-a.i)))
        else Err(NonNumeric(b))
      else if a.Nil? then Err(ArityError(a))
      else Err(NonNumeric(b))
    case Mul =>
      if a.Int? then
        if b.Int? then Ok(Int(Wrap64(a.i * b.i)))
        else if b.Nil? then Err(ArityError(a))
        else Err(NonNumeric(b))
      else if a.Nil? then Ok(Int(1))
      else Err(NonNumeric(b))
    case Cons => Ok(Pair(a, b))
    case Lt => Ok(Bool(Compare(a, b) < 0))
    case Le => Ok(Bool(Compare(a, b) <= 0))
    case Ge => Ok(Bool(Compare(a, b) >= 0))
    case Gt => Ok(Bool(Compare(a, b) > 0))
    case Eq => Equal(a, b)
    case Ne => (match Equal(a, b) case Ok(v) => Ok(Bool(!Truthy(v))) case r => r)
    case And => if a.Int? && b.Int? then Ok(Int(BitAnd(a.i, b.i))) else Err(NonNumeric(b))
    case Ior => if a.Int? && b.Int? then Ok(Int(BitOr(a.i, b.i))) else Err(NonNumeric(b))
    case Xor => if a.Int? && b.Int? then Ok(Int(BitXor(a.i, b.i))) else Err(NonNumeric(b))
  }

  // ---- when the comparisons are an order

  // lValGreater subtracts: < on integers is the mathematical order exactly
  // when the difference fits 64 bits.
  lemma LessIsExactIff(x: int, y: int)
    requires IsI64(x) && IsI64(y)
    ensures (Compare(Int(x), Int(y)) < 0 <==> x < y) <==> IsI64(x - y)
  {
    WrapBeyond(x - y);
  }

  lemma WrapBeyond(d: int)
    requires -TWO_64 < d < TWO_64
    ensures Wrap64(d) == if d >= TWO_63 then d - TWO_64 else if d < -TWO_63 then d + TWO_64 else d
  {
  }

  // Two strings compare consistently in both directions exactly when neither
  // is a proper prefix of the other; a proper prefix is greater and smaller.
  lemma StringOrderIff(a: string, b: string)
    requires |a| < 0x1_0000_0000 && |b| < 0x1_0000_0000
    ensures (Compare(Str(a), Str(b)) < 0 <==> Compare(Str(b), Str(a)) > 0) <==> !(a < b) && !(b < a)
    ensures a < b ==> Compare(Str(a), Str(b)) > 0 && Compare(Str(b), Str(a)) > 0
    ensures Compare(Str(a), Str(b)) == 0 <==> a == b
  {
    CompareFrom(a, b, 0);
  }

  lemma {:induction false} CompareFrom(a: string, b: string, i: nat)
    requires i <= |a| && i <= |b| && a[..i] == b[..i]
    requires |a| < 0x1_0000_0000 && |b| < 0x1_0000_0000
    ensures var x, y := CompareChars(a, b, i), CompareChars(b, a, i);
            && (a < b || b < a ==> x > 0 && y > 0)
            && (!(a < b) && !(b < a) ==> x == -y)
            && (x == 0 <==> a == b)
    decreases |a| - i
  {
    if i < |a| && i < |b| && a[i] == b[i] {
      assert a[..i + 1] == a[..i] + [a[i]] && b[..i + 1] == b[..i] + [b[i]];
      CompareFrom(a, b, i + 1);
    } else if i == |a| {
      assert a[..i] == a;
    } else if i == |b| {
      assert b[..i] == b;
    }
  }
}
