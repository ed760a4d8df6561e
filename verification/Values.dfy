// Values of the Nujel runtime, as far as the compiler, the assembler and the VM
// look at them.  Closures and environments are named by their slot in the
// closure store; `Opaque` stands for any value that is only moved around
// (trees, maps, buffers, file handles, ...) and is identified by its pointer.
module Values {
  datatype Option<+T> = None | Some(value: T)

  type Symbol = string

  type byte = b: int | 0 <= b < 256

  // A bytecode array: its bytes and its literal pool.
  datatype Text = Text(data: seq<byte>, literals: seq<Value>)

  datatype Value =
    | Nil
    | Bool(b: bool)
    | Int(i: int)
    | Sym(s: Symbol)
    | Kw(k: Symbol)
    | Str(chars: string)
    | Pair(car: Value, cdr: Value)
    | Bytecode(text: Text)
    | Lambda(id: nat)
    | Env(env: nat)
    | Opaque(ptr: int)

  // A thrown value; `isException` is the ltException tag, which makes the
  // unwinder append a stack trace.
  datatype Thrown = Thrown(value: Value, isException: bool)

  // castToBool: everything but #nil and #f is true.
  predicate Truthy(v: Value) {
    if v.Bool? then v.b else v != Nil
  }

  function Car(v: Value): Value {
    if v.Pair? then v.car else Nil
  }

  function Cdr(v: Value): Value {
    if v.Pair? then v.cdr else Nil
  }

  function ListOf(vs: seq<Value>): Value {
    if vs == [] then Nil else Pair(vs[0], ListOf(vs[1..]))
  }

  // A list that ends in `tail`.
  function ListTo(vs: seq<Value>, tail: Value): Value {
    if vs == [] then tail else Pair(vs[0], ListTo(vs[1..], tail))
  }

  // The exception lists built by lValException.
  function ExceptionList(kind: Symbol, message: string, v: Value): Value {
    Pair(Kw(kind), Pair(Str(message), Pair(v, Nil)))
  }

  function NonNumeric(v: Value): Thrown {
    Thrown(ExceptionList("type-error", "Can't calculate with non numeric types", v), true)
  }

  function ArityError(v: Value): Thrown {
    Thrown(ExceptionList("arity-error", "This subroutine needs 2 arguments", v), true)
  }

  function CantApply(v: Value): Thrown {
    Thrown(ExceptionList("type-error", "Can't apply to following val", v), true)
  }

  function CantResolve(s: Symbol): Thrown {
    Thrown(ExceptionList("unbound-variable", "Can't resolve symbol", Sym(s)), true)
  }

  function CantSet(s: Symbol): Thrown {
    Thrown(ExceptionList("unbound-variable", "Can't set symbol", Sym(s)), true)
  }

  // Binding a parameter list.  A parameter list is a proper list of symbols, a
  // dotted list whose last cdr takes the remaining arguments, or one bare
  // symbol that takes all of them.

  predicate IsParams(p: Value) {
    match p
    case Nil => true
    case Sym(_) => true
    case Pair(a, d) => a.Sym? && IsParams(d)
    case _ => false
  }

  function NameOf(v: Value): Symbol {
    match v
    case Sym(s) => s
    case Kw(k) => k
    case _ => ""
  }

  // lClosureNewFunCall: arguments arrive as a list value.
  function BindList(params: Value, args: Value, data: map<Symbol, Value>): map<Symbol, Value> {
    match params
    case Pair(p, rest) =>
      if args.Pair? then BindList(rest, args.cdr, data[NameOf(p) := args.car])
      else BindList(rest, args, data[NameOf(p) := Nil])
    case Sym(s) => data[s := args]
    case _ => data
  }
}
