// The assembler as it runs: one literal array that grows, one symbol map that
// pass one fills, and one output array that pass two writes.
module AssemblerPasses {
  import opened Values
  import opened Assembler

  class Assembly {
    var literals: seq<Value>
    var symbols: map<nat, nat>
    var lastOp: Option<nat>        // position after the last byte of pass one

    constructor ()
      ensures literals == [] && symbols == map[] && lastOp == None
    {
      literals, symbols, lastOp := [], map[], None;
    }

    // None is the :out-of-bounds exception.
    method AddLiteral(v: Value) returns (index: Option<nat>)
      modifies this`literals
      ensures index.Some? <==> Assembler.AddLiteral(v, old(literals)).Some?
      ensures index.Some? ==> Assembler.AddLiteral(v, old(literals)).value == Pooled(index.value, literals)
    {
      if |literals| >= MAX_LITERALS {
        return None;
      }
      if Shareable(v) {
        var i := 0;
        while i < |literals|
          invariant i <= |literals|
          invariant FindLiteral(v, literals, 0) == FindLiteral(v, literals, i)
        {
          if literals[i] == v {
            return Some(i);
          }
          i := i + 1;
        }
      }
      literals := literals + [v];
      return Some(|literals| - 1);
    }

    // Replaces every literal by its index in the pool.
    method BuildLiterals(items: seq<Item>) returns (r: Option<seq<Item>>)
      modifies this`literals
      ensures r.Some? <==> BuildLits(items, old(literals)).Some?
      ensures r.Some? ==> BuildLits(items, old(literals)).value == Resolved(r.value, literals)
      decreases |items|
    {
      if items == [] {
        return Some([]);
      }
      match items[0]
      case Lit(op, v) =>
        var index := AddLiteral(v);
        if index.None? {
          return None;
        }
        var rest := BuildLiterals(items[1..]);
        r := if rest.Some? then Some(LitItems(op, index.value) + rest.value) else None;
      case it =>
        var rest := BuildLiterals(items[1..]);
        r := if rest.Some? then Some([it] + rest.value) else None;
    }

    // Pass one: every byte moves the position, every label records it.
    method BuildSymbols(items: seq<Item>, start: nat) returns (pos: nat)
      modifies this`symbols, this`lastOp
      ensures symbols == Layout(items, start, old(symbols))
      ensures pos == start + Size(items)
      ensures lastOp == if Size(items) == 0 then old(lastOp) else Some(pos)
    {
      pos := start;
      var code := items;
      while code != []
        invariant pos + Size(code) == start + Size(items) && start <= pos
        invariant Layout(items, start, old(symbols)) == Layout(code, pos, symbols)
        invariant lastOp == if pos == start then old(lastOp) else Some(pos)
      {
        match code[0] {
          case Op(_) =>
            pos := pos + 1;
            lastOp := Some(pos);
          case Reloc(_, _, _) =>
            pos := pos + 1;
            lastOp := Some(pos);
          case Wide(_, _) =>
            pos := pos + 2;
            lastOp := Some(pos);
          case Label(l) =>
            symbols := symbols[l := pos];
          case _ =>
        }
        code := code[1..];
      }
    }

    // Writes one item; `last` is the position of the last byte written.
    method EmitOne(it: Item, last: int, out: array<byte>) returns (next: int)
      requires -1 <= last && last + Width(it) < out.Length
      modifies out
      ensures next == last + Width(it)
      ensures out[..next + 1] == old(out[..last + 1]) + EmitItem(it, symbols, last + 1)
    {
      next := last;
      match it {
        case Op(i) =>
          next := next + 1;
          out[next] := ToByte(i);
        case Reloc(l, shift, addend) =>
          var target := if l in symbols then symbols[l] + addend else 0;
          var off := target - next;
          next := next + 1;
          out[next] := ToByte(ShiftRight(off, shift));
        case Wide(hi, lo) =>
          out[next + 1] := ToByte(hi);
          out[next + 2] := ToByte(lo);
          next := next + 2;
        case _ =>
      }
      assert old(out[..last + 1]) == out[..last + 1];
      assert out[..next + 1] == out[..last + 1] + out[last + 1..next + 1];
      assert out[last + 1..next + 1] == EmitItem(it, symbols, last + 1);
    }

    // Pass two.
    method EmitRelocated(items: seq<Item>, out: array<byte>)
      requires out.Length == Size(items)
      modifies out
      ensures out[..] == Emit(items, symbols, 0)
    {
      hide EmitItem, Emit, Width, Size;
      var code := items;
      var last := -1;
      assert out[..0] == [];
      while code != []
        invariant -1 <= last && last + 1 + Size(code) == out.Length
        invariant Emit(items, symbols, 0) == out[..last + 1] + Emit(code, symbols, last + 1)
      {
        ghost var done := out[..last + 1];
        EmitStep(code, symbols, last + 1);
        last := EmitOne(code[0], last, out);
        AppendAssociates(done, EmitItem(code[0], symbols, |done|), Emit(code[1..], symbols, last + 1));
        code := code[1..];
      }
      NothingToEmit(symbols, last + 1);
      assert out[..] == out[..last + 1];
    }
  }

  lemma EmitStep(items: seq<Item>, syms: map<nat, nat>, pos: nat)
    requires items != []
    ensures Emit(items, syms, pos) == EmitItem(items[0], syms, pos) + Emit(items[1..], syms, pos + Width(items[0]))
    ensures Size(items) == Width(items[0]) + Size(items[1..])
  {
  }

  lemma NothingToEmit(syms: map<nat, nat>, pos: nat)
    ensures Size([]) == 0 && Emit([], syms, pos) == []
  {
  }

  lemma AppendAssociates(a: seq<byte>, b: seq<byte>, c: seq<byte>)
    ensures a + (b + c) == (a + b) + c
  {
  }

  // assemble*: the passes run one after the other produce what the two-pass
  // specification says.
  method Run(code: Code) returns (t: Option<Text>)
    ensures t == Assemble(code)
  {
    var a := new Assembly();
    var items := a.BuildLiterals(Flatten(code, []));
    if items.None? {
      return None;
    }
    var pos := a.BuildSymbols(items.value, 0);
    if a.lastOp.None? {
      return None;
    }
    var out := new byte[a.lastOp.value];
    a.EmitRelocated(items.value, out);
    t := Some(Text(out[..], a.literals));
  }
}
