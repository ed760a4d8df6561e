// Arguments of native functions: read from the value stack by lopApply, or
// from an argument list by lopApplyCollection.
module Natives {
  import opened Values

  // lCar, lCdr and their compositions
  function Cddr(v: Value): Value { Cdr(Cdr(v)) }

  // The i-th parameter that lopApplyCollection passes to a native function of
  // `count` parameters.
  function FromList(count: nat, i: nat, args: Value): Value
    requires i < count <= 7
  {
    if i == 0 then Car(args)
    else if i == 1 then Car(Cdr(args))
    else if i == 2 then Car(Cddr(args))
    else if i == 3 then Car(Cdr(Cddr(args)))
    else if i == 4 then Car(Cddr(Cddr(args)))
    else if count == 6 then Car(Cdr(Cddr(Cddr(args))))
    else if i == 5 then Car(Cddr(Cddr(Cddr(args))))
    else Car(Cdr(Cddr(Cddr(Cddr(args)))))
  }

  // Missing arguments are #nil.
  function ArgumentOr(vs: seq<Value>, i: nat): Value {
    if i < |vs| then vs[i] else Nil
  }

  function Arguments(vs: seq<Value>, count: nat): seq<Value> {
    seq(count, i requires 0 <= i => ArgumentOr(vs, i))
  }

  // lopApply on the value stack: the arguments end at slot `top`.  The window
  // of `count` parameters starts where the arguments start, and slots above
  // the last argument are overwritten with #nil.
  method FromStack(stack: array<Value>, top: nat, len: nat, count: nat) returns (first: nat)
    requires len <= top + 1 && top + 1 <= stack.Length && top + 1 - len + count <= stack.Length
    modifies stack
    ensures first == top + 1 - len
    ensures stack[first..first + count] == Arguments(old(stack[first..top + 1]), count)
    ensures stack[..top + 1] == old(stack[..top + 1])
  {
    first := top + 1 - len;
    if len < count {
      var i := 0;
      var m := count - len;
      while i < m
        invariant 0 <= i <= m
        invariant forall k :: top + m - i < k <= top + m ==> stack[k] == Nil
        invariant forall k :: 0 <= k <= top ==> stack[k] == old(stack[k])
      {
        stack[top + m - i] := Nil;
        i := i + 1;
      }
    }
  }

  lemma {:induction false} ListSkip(vs: seq<Value>)
    ensures Car(ListOf(vs)) == ArgumentOr(vs, 0)
    ensures Cdr(ListOf(vs)) == ListOf(if vs == [] then [] else vs[1..])
    ensures Cddr(ListOf(vs)) == ListOf(if |vs| <= 2 then [] else vs[2..])
  {
    if |vs| >= 2 {
      assert vs[1..][1..] == vs[2..];
    }
  }

  function Tail(vs: seq<Value>, k: nat): seq<Value> {
    if |vs| <= k then [] else vs[k..]
  }

  lemma FromListIs(vs: seq<Value>, count: nat, i: nat)
    requires i < count <= 7
    ensures FromList(count, i, ListOf(vs)) == ArgumentOr(vs, if count == 7 && i >= 5 then i + 1 else i)
  {
    ListSkip(vs);
    ListSkip(Tail(vs, 1));
    ListSkip(Tail(vs, 2));
    ListSkip(Tail(vs, 3));
    assert Tail(Tail(vs, 2), 2) == Tail(vs, 4);
    ListSkip(Tail(vs, 4));
    ListSkip(Tail(vs, 5));
    assert Tail(Tail(vs, 4), 2) == Tail(vs, 6);
    assert Tail(Tail(vs, 6), 1) == Tail(vs, 7);
    assert Tail(Tail(vs, 4), 1) == Tail(vs, 5);
    ListSkip(Tail(vs, 6));
    ListSkip(Tail(vs, 7));
  }

  // A native function gets the same arguments from the stack and from a list,
  // for every argument sequence, iff it has at most six parameters or its last
  // two arguments and the one after them coincide: with seven parameters the
  // list form skips an element.
  lemma ListEqualsStack(vs: seq<Value>, count: nat)
    requires count <= 7
    ensures (forall i :: 0 <= i < count ==> FromList(count, i, ListOf(vs)) == ArgumentOr(vs, i)) <==>
            (count <= 6 || (ArgumentOr(vs, 5) == ArgumentOr(vs, 6) && ArgumentOr(vs, 6) == ArgumentOr(vs, 7)))
  {
    forall i | 0 <= i < count
      ensures FromList(count, i, ListOf(vs)) == ArgumentOr(vs, if count == 7 && i >= 5 then i + 1 else i)
    {
      FromListIs(vs, count, i);
    }
    if count == 7 {
      assert FromList(count, 5, ListOf(vs)) == ArgumentOr(vs, 6);
      assert FromList(count, 6, ListOf(vs)) == ArgumentOr(vs, 7);
    }
  }
}
