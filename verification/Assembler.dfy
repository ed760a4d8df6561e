// The two-pass assembler.  Symbolic code is a Lisp list whose leaves are
// opcode bytes, labels, relocations and opcodes that carry a literal.
module Assembler {
  import opened Values

  datatype Item =
    | Empty                                    // a #nil left in the list
    | Op(i: int)                               // one byte
    | Wide(hi: int, lo: int)                   // a two-byte literal index
    | Label(name: nat)
    | Reloc(target: nat, shift: nat, addend: int)
    | Lit(op: int, v: Value)                   // opcode byte, then (:literal v)

  datatype Code = Blank | Atom(item: Item) | Cell(car: Code, cdr: Code)

  const OP_RET := 0x01
  const OP_INT_BYTE := 0x02
  const OP_APPLY := 0x04
  const OP_SET := 0x05
  const OP_PUSH_EXT := 0x06
  const OP_DEF := 0x07
  const OP_DEF_EXT := 0x08
  const OP_JMP := 0x09
  const OP_JT := 0x0A
  const OP_JF := 0x0B
  const OP_DUP := 0x0C
  const OP_DROP := 0x0D
  const OP_GET := 0x0E
  const OP_GET_EXT := 0x0F
  const OP_SET_EXT := 0x10
  const OP_LET := 0x15
  const OP_CLOSURE_POP := 0x16
  const OP_FN := 0x17
  const OP_TRY := 0x19
  const OP_PUSH := 0x1A
  const OP_TRUE := 0x1B
  const OP_FALSE := 0x1C
  const OP_NIL := 0x24
  const OP_LIST := 0x2E
  const OP_APPLY_COLLECTION := 0x30

  // The two-byte form of an opcode that takes a literal.
  function Ext(op: int): int {
    if op == OP_PUSH then OP_PUSH_EXT
    else if op == OP_GET then OP_GET_EXT
    else if op == OP_SET then OP_SET_EXT
    else OP_DEF_EXT
  }

  predicate IsLitOp(op: int) {
    op == OP_PUSH || op == OP_GET || op == OP_SET || op == OP_DEF
  }

  // ---- opcode constructors

  // `code` is a well-formed list that defines `labels`, each once, and jumps
  // to `targets`.
  predicate Shape(code: Code, labels: set<nat>, targets: set<nat>) {
    && (code.Atom? || IsList(code))
    && Distinct(code)
    && Labels(code) == labels
    && Targets(code) == targets
    && Regular(code)
  }

  // The first cell of a list `r` and what it adds to the rest.
  ghost predicate Joins(r: Code, a: Code, d: Code) {
    && (IsList(r) <==> (a.Atom? || IsList(a)) && IsList(d))
    && (Distinct(r) <==> Distinct(a) && Distinct(d) && Labels(a) !! Labels(d))
    && Labels(r) == Labels(a) + Labels(d)
    && Targets(r) == Targets(a) + Targets(d)
    && (Regular(r) <==> Regular(a) && Regular(d))
  }

  function Join(a: Code, d: Code): (r: Code)
    ensures r == Cell(a, d) && Joins(r, a, d)
  {
    Cell(a, d)
  }

  function L1(a: Code): Code { Join(a, Blank) }
  function L2(a: Code, b: Code): Code { Join(a, L1(b)) }
  function L3(a: Code, b: Code, c: Code): Code { Join(a, L2(b, c)) }
  function L4(a: Code, b: Code, c: Code, d: Code): Code { Join(a, L3(b, c, d)) }
  function L5(a: Code, b: Code, c: Code, d: Code, e: Code): Code { Join(a, L4(b, c, d, e)) }
  function L7(a: Code, b: Code, c: Code, d: Code, e: Code, f: Code, g: Code): Code {
    Join(a, Join(b, L5(c, d, e, f, g)))
  }
  function L8(a: Code, b: Code, c: Code, d: Code, e: Code, f: Code, g: Code, h: Code): Code {
    Join(a, L7(b, c, d, e, f, g, h))
  }

  function Emit1(op: int): (r: Code)
    ensures Shape(r, {}, {})
  {
    L1(Atom(Op(op)))
  }

  function Emit2(op: int, operand: int): (r: Code)
    ensures Shape(r, {}, {})
  {
    L2(Atom(Op(op)), Atom(Op(operand)))
  }

  function EmitLit(op: int, v: Value): (r: Code)
    requires IsLitOp(op)
    ensures Shape(r, {}, {})
  {
    L1(Atom(Lit(op, v)))
  }

  function EmitJump(op: int, l: nat): (r: Code)
    ensures Shape(r, {}, {l})
  {
    L3(Atom(Op(op)), Atom(Reloc(l, 8, 0)), Atom(Reloc(l, 0, 1)))
  }

  function EmitLabel(l: nat): (r: Code)
    ensures Shape(r, {l}, {})
  {
    Atom(Label(l))
  }

  function PushInt(i: int): (r: Code)
    ensures Shape(r, {}, {})
  {
    if -128 <= i <= 127 then Emit2(OP_INT_BYTE, i) else EmitLit(OP_PUSH, Int(i))
  }

  // ---- pass zero: flatten the tree

  function Flatten(code: Code, ret: seq<Item>): seq<Item> {
    match code
    case Cell(a, d) =>
      var rest := Flatten(d, ret);
      (match a
       case Blank => [Empty] + rest
       case Atom(i) => [i] + rest
       case Cell(_, _) => Flatten(a, rest))
    case _ => ret
  }

  // ---- literal pool

  const MAX_LITERALS := 65535

  // Pairs and bytecode arrays are compared by identity, so they never share.
  predicate Shareable(v: Value) {
    !v.Pair? && !v.Bytecode?
  }

  // The first slot at or after `i` that holds `v`, or |pool|.
  function FindLiteral(v: Value, pool: seq<Value>, i: nat): (r: nat)
    requires i <= |pool|
    ensures i <= r <= |pool|
    ensures r < |pool| ==> pool[r] == v
    ensures v !in pool[i..r]
    decreases |pool| - i
  {
    if i == |pool| || pool[i] == v then i else FindLiteral(v, pool, i + 1)
  }

  datatype Pooled = Pooled(index: nat, pool: seq<Value>)

  // None is the :out-of-bounds exception of a full pool.
  function AddLiteral(v: Value, pool: seq<Value>): (r: Option<Pooled>)
    ensures r.Some? <==> |pool| < MAX_LITERALS
    ensures r.Some? ==> pool <= r.value.pool && |r.value.pool| <= MAX_LITERALS
    ensures r.Some? ==> r.value.index < |r.value.pool| && r.value.pool[r.value.index] == v
    ensures r.Some? ==> r.value.pool == if Shareable(v) && v in pool then pool else pool + [v]
    ensures r.Some? ==> r.value.index == |pool| || (Shareable(v) && v !in pool[..r.value.index])
  {
    if |pool| >= MAX_LITERALS then None
    else
      var i := if Shareable(v) then FindLiteral(v, pool, 0) else |pool|;
      Some(Pooled(i, if i < |pool| then pool else pool + [v]))
  }

  datatype Resolved = Resolved(items: seq<Item>, pool: seq<Value>)

  function BuildLits(items: seq<Item>, pool: seq<Value>): (r: Option<Resolved>)
    ensures r.Some? ==> pool <= r.value.pool
  {
    if items == [] then Some(Resolved([], pool))
    else match items[0]
      case Lit(op, v) =>
        (match AddLiteral(v, pool)
         case None => None
         case Some(p) =>
           match BuildLits(items[1..], p.pool)
           case None => None
           case Some(r) => Some(Resolved(LitItems(op, p.index) + r.items, r.pool)))
      case it =>
        (match BuildLits(items[1..], pool)
         case None => None
         case Some(r) => Some(Resolved([it] + r.items, r.pool)))
  }

  // No literal stands twice in a pool, unless it has an identity of its own.
  ghost predicate NoneTwice(pool: seq<Value>) {
    forall i, j :: 0 <= i < j < |pool| && Shareable(pool[i]) ==> pool[i] != pool[j]
  }

  lemma {:induction false} LiteralsShare(items: seq<Item>, pool: seq<Value>)
    requires NoneTwice(pool) && BuildLits(items, pool).Some?
    ensures NoneTwice(BuildLits(items, pool).value.pool)
    decreases |items|
  {
    if items != [] {
      if items[0].Lit? {
        LiteralsShare(items[1..], AddLiteral(items[0].v, pool).value.pool);
      } else {
        LiteralsShare(items[1..], pool);
      }
    }
  }

  function LitItems(op: int, index: nat): (r: seq<Item>)
    ensures |r| == 2
  {
    if index < 256 then [Op(op), Op(index)]
    else [Op(Ext(op)), Wide(index / 256 % 256, index % 256)]
  }

  // ---- pass one: label positions

  function Width(it: Item): nat {
    match it
    case Op(_) => 1
    case Reloc(_, _, _) => 1
    case Wide(_, _) => 2
    case _ => 0
  }

  function Size(items: seq<Item>): nat {
    if items == [] then 0 else Width(items[0]) + Size(items[1..])
  }

  function Layout(items: seq<Item>, pos: nat, syms: map<nat, nat>): map<nat, nat> {
    if items == [] then syms
    else Layout(items[1..], pos + Width(items[0]),
                if items[0].Label? then syms[items[0].name := pos] else syms)
  }

  // ---- pass two: emit bytes

  function ToByte(x: int): byte { x % 256 }

  // The offset of a relocation whose byte goes to position `pos`.  The pass
  // counts from the last byte written; a missing label reads as #nil, and
  // #nil plus anything is 0.
  function Offset(syms: map<nat, nat>, l: nat, addend: int, pos: nat): int {
    (if l in syms then syms[l] + addend else 0) - (pos - 1)
  }

  function Exp2(n: nat): (r: nat)
    ensures r > 0
  {
    if n == 0 then 1 else 2 * Exp2(n - 1)
  }

  // bit-shift-right of a signed number rounds down.
  function ShiftRight(x: int, s: nat): int { x / Exp2(s) }

  function EmitItem(it: Item, syms: map<nat, nat>, pos: nat): (r: seq<byte>)
    ensures |r| == Width(it)
  {
    match it
    case Op(i) => [ToByte(i)]
    case Wide(hi, lo) => [ToByte(hi), ToByte(lo)]
    case Reloc(l, s, a) => [ToByte(ShiftRight(Offset(syms, l, a, pos), s))]
    case _ => []
  }

  function Emit(items: seq<Item>, syms: map<nat, nat>, pos: nat): (r: seq<byte>)
    ensures |r| == Size(items)
  {
    if items == [] then []
    else EmitItem(items[0], syms, pos) + Emit(items[1..], syms, pos + Width(items[0]))
  }

  // None: the pool overflowed, or there was nothing to emit.
  function Assemble(code: Code): Option<Text> {
    match BuildLits(Flatten(code, []), [])
    case None => None
    case Some(r) =>
      if Size(r.items) == 0 then None
      else Some(Text(Emit(r.items, Layout(r.items, 0, map[]), 0), r.pool))
  }

  // ---- what it means for code to be in place

  function Index16(hi: byte, lo: byte): (r: nat)
    ensures r < 0x1_0000
  {
    256 * (hi as int) + lo as int
  }

  // lBytecodeGetOffset16
  function DecodeOffset(hi: byte, lo: byte): int {
    var x := Index16(hi, lo);
    if x < 0x8000 then x else x - 0x1_0000
  }

  // The first byte is the signed high one.
  lemma OffsetBytes(hi: byte, lo: byte)
    ensures DecodeOffset(hi, lo) == 256 * (if hi < 128 then hi as int else hi as int - 256) + lo as int
  {
  }

  predicate Fits16(off: int) { -0x8000 <= off < 0x8000 }

  lemma SplitOffset(off: int, h: int, l: int, k: int)
    requires off == 256 * h + l && 0 <= l < 256
    requires 0 <= h - 256 * k < 256
    ensures DecodeOffset(h - 256 * k, l) == off <==> Fits16(off)
  {
  }

  // An offset split into two bytes is decoded correctly iff it fits 16 bits.
  lemma OffsetRoundTrip(off: int)
    ensures DecodeOffset(ToByte(ShiftRight(off, 8)), ToByte(ShiftRight(off, 0))) == off <==> Fits16(off)
  {
    hide DecodeOffset, Fits16;
    var h := off / 256;
    assert Exp2(8) == 256 && Exp2(0) == 1;
    SplitOffset(off, h, off % 256, h / 256);
  }

  function LitWidth(t: Text, op: int, p: nat): nat {
    if p < |t.data| && t.data[p] == op then 2 else 3
  }

  function ItemAfter(t: Text, it: Item, p: nat): nat {
    match it
    case Lit(op, _) => p + LitWidth(t, op, p)
    case _ => p + Width(it)
  }

  // A literal opcode at `p` whose index fetches `v`.
  predicate FetchesLit(t: Text, op: int, v: Value, p: nat) {
    IsLitOp(op) && p + 1 < |t.data| &&
    if t.data[p] == op then
      t.data[p + 1] < |t.literals| && t.literals[t.data[p + 1]] == v
    else
      t.data[p] == Ext(op) && p + 2 < |t.data| &&
      Index16(t.data[p + 1], t.data[p + 2]) < |t.literals| &&
      t.literals[Index16(t.data[p + 1], t.data[p + 2])] == v
  }

  // `it` sits at `p`, with labels resolved by `labels`.  A set! must use its
  // one-byte form: the two-byte form ignores unbound names.
  predicate ItemAt(t: Text, labels: map<nat, nat>, it: Item, p: nat) {
    match it
    case Empty => true
    case Op(i) => p < |t.data| && t.data[p] == ToByte(i)
    case Wide(hi, lo) => p + 1 < |t.data| && t.data[p] == ToByte(hi) && t.data[p + 1] == ToByte(lo)
    case Label(l) => l in labels && labels[l] == p
    case Reloc(l, s, a) =>
      p < |t.data| && l in labels && Fits16(Offset(labels, l, a, p)) &&
      t.data[p] == ToByte(ShiftRight(Offset(labels, l, a, p), s))
    case Lit(op, v) =>
      FetchesLit(t, op, v, p) && (op == OP_SET ==> t.data[p] == OP_SET)
  }

  function After(t: Text, code: Code, p: nat): nat {
    match code
    case Blank => p
    case Atom(it) => ItemAfter(t, it, p)
    case Cell(a, d) => After(t, d, After(t, a, p))
  }

  predicate At(t: Text, labels: map<nat, nat>, code: Code, p: nat) {
    match code
    case Blank => true
    case Atom(it) => ItemAt(t, labels, it, p)
    case Cell(a, d) => At(t, labels, a, p) && At(t, labels, d, After(t, a, p))
  }

  // The same for a flat item list.
  function AfterSeq(t: Text, items: seq<Item>, p: nat): nat {
    if items == [] then p else AfterSeq(t, items[1..], ItemAfter(t, items[0], p))
  }

  predicate AtSeq(t: Text, labels: map<nat, nat>, items: seq<Item>, p: nat) {
    items == [] || (ItemAt(t, labels, items[0], p) && AtSeq(t, labels, items[1..], ItemAfter(t, items[0], p)))
  }

  // ---- labels of a piece of code

  predicate IsList(code: Code) {
    match code
    case Blank => true
    case Atom(_) => false
    case Cell(a, d) => (a.Atom? || IsList(a)) && IsList(d)
  }

  function Labels(code: Code): set<nat> {
    match code
    case Blank => {}
    case Atom(it) => if it.Label? then {it.name} else {}
    case Cell(a, d) => Labels(a) + Labels(d)
  }

  function Targets(code: Code): set<nat> {
    match code
    case Blank => {}
    case Atom(it) => if it.Reloc? then {it.target} else {}
    case Cell(a, d) => Targets(a) + Targets(d)
  }

  // Literals go with the four opcodes that have a two-byte form, and
  // relocations correct by at most one byte.
  predicate RegularItem(it: Item) {
    (it.Lit? ==> IsLitOp(it.op)) && (it.Reloc? ==> 0 <= it.addend <= 1)
  }

  predicate Regular(code: Code) {
    match code
    case Blank => true
    case Atom(it) => RegularItem(it)
    case Cell(a, d) => Regular(a) && Regular(d)
  }

  predicate Distinct(code: Code) {
    match code
    case Cell(a, d) => Distinct(a) && Distinct(d) && Labels(a) !! Labels(d)
    case _ => true
  }

  function LabelsSeq(items: seq<Item>): set<nat> {
    if items == [] then {}
    else (if items[0].Label? then {items[0].name} else {}) + LabelsSeq(items[1..])
  }

  predicate DistinctSeq(items: seq<Item>) {
    items == [] ||
    (DistinctSeq(items[1..]) && (items[0].Label? ==> items[0].name !in LabelsSeq(items[1..])))
  }

  // Every relocation of `items`, laid out from `pos`, has a 16-bit offset to a
  // label in `syms`.
  predicate OffsetsFit(items: seq<Item>, syms: map<nat, nat>, pos: nat) {
    items == [] ||
    ((items[0].Reloc? ==> items[0].target in syms && Fits16(Offset(syms, items[0].target, items[0].addend, pos))) &&
     OffsetsFit(items[1..], syms, pos + Width(items[0])))
  }

  // Only the four opcodes with a two-byte form carry literals, and every set!
  // literal gets a one-byte index.
  predicate LitsFit(items: seq<Item>, pool: seq<Value>) {
    items == [] ||
    match items[0]
    case Lit(op, v) =>
      AddLiteral(v, pool).Some? && IsLitOp(op) &&
      (op == OP_SET ==> AddLiteral(v, pool).value.index < 256) &&
      LitsFit(items[1..], AddLiteral(v, pool).value.pool)
    case _ => LitsFit(items[1..], pool)
  }

  // ---- the two passes agree

  lemma {:induction false} LayoutKeeps(items: seq<Item>, pos: nat, syms: map<nat, nat>, l: nat)
    requires l in syms && l !in LabelsSeq(items)
    ensures l in Layout(items, pos, syms) && Layout(items, pos, syms)[l] == syms[l]
  {
    if items != [] {
      LayoutKeeps(items[1..], pos + Width(items[0]),
                  if items[0].Label? then syms[items[0].name := pos] else syms, l);
    }
  }

  lemma SplitBytes(data: seq<byte>, pos: nat, e: seq<byte>, rest: seq<byte>)
    requires pos <= |data| && data[pos..] == e + rest
    ensures pos + |e| + |rest| == |data|
    ensures forall k :: 0 <= k < |e| ==> data[pos + k] == e[k]
    ensures data[pos + |e|..] == rest
  {
    forall k | 0 <= k < |e| ensures data[pos + k] == e[k] {
      assert data[pos..][k] == (e + rest)[k];
    }
    assert data[pos + |e|..] == data[pos..][|e|..];
  }

  lemma SizePair(two: seq<Item>)
    requires |two| == 2
    ensures Size(two) == Width(two[0]) + Width(two[1])
  {
    assert two[1..] == [two[1]] && two[1..][1..] == [];
    assert Size(two[1..]) == Width(two[1..][0]) + Size(two[1..][1..]);
  }

  // A literal opcode in place fetches its literal.
  lemma LitIsPlaced(t: Text, op: int, index: nat, syms: map<nat, nat>, pos: nat, rest: seq<byte>)
    requires IsLitOp(op) && index < |t.literals| && index < MAX_LITERALS
    requires pos <= |t.data|
    requires var two := LitItems(op, index);
             t.data[pos..] == EmitItem(two[0], syms, pos) + EmitItem(two[1], syms, pos + 1) + rest
    ensures FetchesLit(t, op, t.literals[index], pos)
    ensures t.data[pos] == op <==> index < 256
    ensures LitWidth(t, op, pos) == Size(LitItems(op, index))
    ensures t.data[pos + LitWidth(t, op, pos)..] == rest
  {
    var two := LitItems(op, index);
    SizePair(two);
    var e := EmitItem(two[0], syms, pos) + EmitItem(two[1], syms, pos + 1);
    SplitBytes(t.data, pos, e, rest);
    assert t.data[pos + 0] == e[0] && t.data[pos + 1] == e[1];
    if index >= 256 {
      assert t.data[pos + 2] == e[2];
    }
  }

  // `items`, laid out from `pos` with literal pool `pool`, are what `t` holds
  // from `pos` on.
  ghost predicate Emitted(t: Text, items: seq<Item>, pool: seq<Value>, pos: nat,
                          syms0: map<nat, nat>, syms: map<nat, nat>) {
    && DistinctSeq(items) && LitsFit(items, pool)
    && BuildLits(items, pool).Some?
    && var r := BuildLits(items, pool).value;
       && r.pool <= t.literals
       && syms == Layout(r.items, pos, syms0)
       && OffsetsFit(r.items, syms, pos)
       && pos <= |t.data|
       && t.data[pos..] == Emit(r.items, syms, pos)
  }

  // Items whose bytes lie where pass one put them are in place: each byte is
  // at its assumed position, each label resolves to its position and each
  // literal index fetches its literal.
  lemma {:induction false} EmittedIsPlaced(t: Text, items: seq<Item>, pool: seq<Value>, pos: nat,
                                           syms0: map<nat, nat>, syms: map<nat, nat>)
    requires Emitted(t, items, pool, pos, syms0, syms)
    ensures AtSeq(t, syms, items, pos) && AfterSeq(t, items, pos) == |t.data|
    decreases |items|
  {
    hide ItemAt, Emitted, AddLiteral, LitItems;
    if items == [] {
      EmittedNothing(t, items, pool, pos, syms0, syms);
    } else if items[0].Lit? {
      EmittedLit(t, items, pool, pos, syms0, syms);
      var p := AddLiteral(items[0].v, pool).value;
      EmittedIsPlaced(t, items[1..], p.pool, pos + Size(LitItems(items[0].op, p.index)), syms0, syms);
    } else {
      EmittedOther(t, items, pool, pos, syms0, syms);
      var syms1 := if items[0].Label? then syms0[items[0].name := pos] else syms0;
      EmittedIsPlaced(t, items[1..], pool, pos + Width(items[0]), syms1, syms);
    }
  }

  lemma EmittedNothing(t: Text, items: seq<Item>, pool: seq<Value>, pos: nat,
                       syms0: map<nat, nat>, syms: map<nat, nat>)
    requires items == [] && Emitted(t, items, pool, pos, syms0, syms)
    ensures pos == |t.data|
  {
    assert |t.data[pos..]| == 0;
  }

  lemma EmittedOther(t: Text, items: seq<Item>, pool: seq<Value>, pos: nat,
                     syms0: map<nat, nat>, syms: map<nat, nat>)
    requires items != [] && !items[0].Lit? && Emitted(t, items, pool, pos, syms0, syms)
    ensures ItemAt(t, syms, items[0], pos)
    ensures Emitted(t, items[1..], pool, pos + Width(items[0]),
                    if items[0].Label? then syms0[items[0].name := pos] else syms0, syms)
  {
    var it := items[0];
    var r := BuildLits(items, pool).value;
    var r1 := BuildLits(items[1..], pool).value;
    assert r.items[0] == it && r.items[1..] == r1.items;
    hide BuildLits;
    var q := pos + Width(it);
    var e := EmitItem(it, syms, pos);
    SplitBytes(t.data, pos, e, Emit(r1.items, syms, q));
    assert Width(it) >= 1 ==> t.data[pos + 0] == e[0];
    assert Width(it) >= 2 ==> t.data[pos + 1] == e[1];
    if it.Label? {
      BuildLitsLabels(items[1..], pool);
      LayoutKeeps(r1.items, q, syms0[it.name := pos], it.name);
    }
  }

  // Both passes over two leading items that define no label.
  lemma PassTwoItems(two: seq<Item>, rest: seq<Item>, pos: nat, syms0: map<nat, nat>, syms: map<nat, nat>)
    requires |two| == 2 && !two[0].Label? && !two[1].Label?
    ensures var q := pos + Width(two[0]) + Width(two[1]);
            && Layout(two + rest, pos, syms0) == Layout(rest, q, syms0)
            && (OffsetsFit(two + rest, syms, pos) ==> OffsetsFit(rest, syms, q))
            && Emit(two + rest, syms, pos) ==
               EmitItem(two[0], syms, pos) + EmitItem(two[1], syms, pos + Width(two[0])) + Emit(rest, syms, q)
  {
    var items := two + rest;
    assert items[1..][1..] == rest;
    assert items[1..][0] == two[1];
    assert items[0] == two[0];
    if OffsetsFit(items, syms, pos) {
      assert OffsetsFit(items[1..], syms, pos + Width(two[0]));
      assert OffsetsFit(items[1..][1..], syms, pos + Width(two[0]) + Width(two[1]));
    }
  }

  lemma EmittedLit(t: Text, items: seq<Item>, pool: seq<Value>, pos: nat,
                   syms0: map<nat, nat>, syms: map<nat, nat>)
    requires items != [] && items[0].Lit? && Emitted(t, items, pool, pos, syms0, syms)
    ensures AddLiteral(items[0].v, pool).Some?
    ensures ItemAt(t, syms, items[0], pos)
    ensures var p := AddLiteral(items[0].v, pool).value;
            var q := pos + Size(LitItems(items[0].op, p.index));
            q == ItemAfter(t, items[0], pos) && Emitted(t, items[1..], p.pool, q, syms0, syms)
  {
    hide Layout, OffsetsFit, EmitItem, Emit;
    var r := BuildLits(items, pool).value;
    var p := AddLiteral(items[0].v, pool).value;
    var r1 := BuildLits(items[1..], p.pool).value;
    var two := LitItems(items[0].op, p.index);
    SizePair(two);
    PassTwoItems(two, r1.items, pos, syms0, syms);
    assert p.pool <= r1.pool <= t.literals;
    assert t.literals[p.index] == items[0].v;
    LitIsPlaced(t, items[0].op, p.index, syms, pos, Emit(r1.items, syms, pos + Size(two)));
  }

  lemma {:induction false} BuildLitsLabels(items: seq<Item>, pool: seq<Value>)
    requires BuildLits(items, pool).Some?
    ensures LabelsSeq(BuildLits(items, pool).value.items) == LabelsSeq(items)
  {
    if items != [] {
      var r := BuildLits(items, pool).value;
      match items[0]
      case Lit(op, v) =>
        var p := AddLiteral(v, pool).value;
        BuildLitsLabels(items[1..], p.pool);
        assert r.items[1..][1..] == BuildLits(items[1..], p.pool).value.items;
      case _ =>
        BuildLitsLabels(items[1..], pool);
        assert r.items[1..] == BuildLits(items[1..], pool).value.items;
    }
  }

  lemma {:induction false} FlattenDistinct(code: Code, ret: seq<Item>)
    requires IsList(code) && Distinct(code) && DistinctSeq(ret) && Labels(code) !! LabelsSeq(ret)
    ensures LabelsSeq(Flatten(code, ret)) == Labels(code) + LabelsSeq(ret)
    ensures DistinctSeq(Flatten(code, ret))
  {
    if code.Cell? {
      FlattenDistinct(code.cdr, ret);
      var rest := Flatten(code.cdr, ret);
      if code.car.Cell? {
        FlattenDistinct(code.car, rest);
      } else {
        assert Flatten(code, ret)[1..] == rest;
      }
    }
  }

  // Flattening moves no byte.
  lemma {:induction false} FlattenKeepsPlace(t: Text, labels: map<nat, nat>, code: Code, ret: seq<Item>, p: nat)
    requires IsList(code)
    ensures AfterSeq(t, Flatten(code, ret), p) == AfterSeq(t, ret, After(t, code, p))
    ensures AtSeq(t, labels, Flatten(code, ret), p) <==>
            At(t, labels, code, p) && AtSeq(t, labels, ret, After(t, code, p))
  {
    if code.Cell? {
      var q := After(t, code.car, p);
      var rest := Flatten(code.cdr, ret);
      FlattenKeepsPlace(t, labels, code.cdr, ret, q);
      if code.car.Cell? {
        FlattenKeepsPlace(t, labels, code.car, rest, p);
      } else {
        assert Flatten(code, ret)[1..] == rest;
      }
    }
  }

  // A program assembles faithfully when the pool does not overflow, jumps fit
  // 16 bits and set! literals have one-byte indices.
  predicate Assembles(code: Code) {
    var items := Flatten(code, []);
    && Assemble(code).Some?
    && LitsFit(items, [])
    && var r := BuildLits(items, []).value;
       OffsetsFit(r.items, Layout(r.items, 0, map[]), 0)
  }

  function LabelMap(code: Code): map<nat, nat>
    requires Assemble(code).Some?
  {
    Layout(BuildLits(Flatten(code, []), []).value.items, 0, map[])
  }

  // A small program always assembles faithfully: a caller only has to look at
  // the assembled size and the number of literals.
  lemma SmallCodeAssembles(code: Code)
    requires IsList(code) && Distinct(code) && Regular(code) && Targets(code) <= Labels(code)
    requires Assemble(code).Some?
    requires |Assemble(code).value.data| <= 0x7FFD && |Assemble(code).value.literals| <= 256
    ensures Assembles(code)
  {
    var items := Flatten(code, []);
    var r := BuildLits(items, []).value;
    FlattenDistinct(code, []);
    FlattenRegular(code, []);
    FewLitsFit(items, []);
    BuildLitsLabels(items, []);
    LayoutBounds(r.items, 0, map[], Size(r.items));
    ShortOffsetsFit(r.items, Layout(r.items, 0, map[]), 0, Size(r.items));
  }

  predicate RegularSeq(items: seq<Item>, targets: set<nat>) {
    forall i :: 0 <= i < |items| ==> RegularItem(items[i]) && (items[i].Reloc? ==> items[i].target in targets)
  }

  lemma {:induction false} FlattenRegular(code: Code, ret: seq<Item>)
    requires IsList(code) && Regular(code)
    requires RegularSeq(ret, Targets(code))
    ensures RegularSeq(Flatten(code, ret), Targets(code))
  {
    if code.Cell? {
      FlattenRegularIn(code, ret, Targets(code));
    }
  }

  lemma {:induction false} FlattenRegularIn(code: Code, ret: seq<Item>, targets: set<nat>)
    requires IsList(code) && Regular(code) && Targets(code) <= targets
    requires RegularSeq(ret, targets)
    ensures RegularSeq(Flatten(code, ret), targets)
  {
    if code.Cell? {
      FlattenRegularIn(code.cdr, ret, targets);
      if code.car.Cell? {
        FlattenRegularIn(code.car, Flatten(code.cdr, ret), targets);
      }
    }
  }

  lemma {:induction false} FewLitsFit(items: seq<Item>, pool: seq<Value>)
    requires BuildLits(items, pool).Some? && |BuildLits(items, pool).value.pool| <= 256
    requires forall i :: 0 <= i < |items| ==> RegularItem(items[i])
    ensures LitsFit(items, pool)
    ensures forall i :: 0 <= i < |BuildLits(items, pool).value.items| ==>
              var it := BuildLits(items, pool).value.items[i];
              !it.Reloc? || it in items
  {
    if items != [] {
      match items[0]
      case Lit(op, v) =>
        FewLitsFit(items[1..], AddLiteral(v, pool).value.pool);
      case _ =>
        FewLitsFit(items[1..], pool);
    }
  }

  lemma {:induction false} LayoutBounds(items: seq<Item>, pos: nat, syms: map<nat, nat>, size: nat)
    requires pos + Size(items) <= size
    requires forall l :: l in syms ==> syms[l] <= size
    ensures syms.Keys + LabelsSeq(items) == Layout(items, pos, syms).Keys
    ensures forall l :: l in Layout(items, pos, syms) ==> Layout(items, pos, syms)[l] <= size
  {
    if items != [] {
      LayoutBounds(items[1..], pos + Width(items[0]),
                   if items[0].Label? then syms[items[0].name := pos] else syms, size);
    }
  }

  lemma {:induction false} ShortOffsetsFit(items: seq<Item>, syms: map<nat, nat>, pos: nat, size: nat)
    requires pos + Size(items) <= size <= 0x7FFD
    requires forall l :: l in syms ==> syms[l] <= size
    requires forall i :: 0 <= i < |items| ==>
               (items[i].Reloc? ==> items[i].target in syms && 0 <= items[i].addend <= 1)
    ensures OffsetsFit(items, syms, pos)
  {
    if items != [] {
      ShortOffsetsFit(items[1..], syms, pos + Width(items[0]), size);
    }
  }

  lemma AssembledIsPlaced(code: Code)
    requires IsList(code) && Distinct(code) && Assembles(code)
    ensures var t := Assemble(code).value;
            At(t, LabelMap(code), code, 0) && After(t, code, 0) == |t.data|
  {
    var t := Assemble(code).value;
    var items := Flatten(code, []);
    FlattenDistinct(code, []);
    assert t.data[0..] == t.data;
    EmittedIsPlaced(t, items, [], 0, map[], LabelMap(code));
    FlattenKeepsPlace(t, LabelMap(code), code, [], 0);
  }
}
