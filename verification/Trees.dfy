// The AVL trees behind every scope, first as values.  Keys are symbol
// addresses; heights are the stored ones.
module Trees {
  import opened Values

  datatype Tree = Leaf | Node(left: Tree, key: nat, value: Value, height: nat, right: Tree)

  function Height(t: Tree): nat {
    if t.Leaf? then 0 else t.height
  }

  function Max(a: nat, b: nat): nat { if a > b then a else b }

  // A node with a recomputed height.
  function Join(l: Tree, k: nat, v: Value, r: Tree): Tree {
    Node(l, k, v, 1 + Max(Height(l), Height(r)), r)
  }

  function RotateLeft(x: Tree): Tree
    requires x.Node?
  {
    match x.right
    case Leaf => x
    case Node(t2, k, v, _, r) => Join(Join(x.left, x.key, x.value, t2), k, v, r)
  }

  function RotateRight(y: Tree): Tree
    requires y.Node?
  {
    match y.left
    case Leaf => y
    case Node(l, k, v, _, t2) => Join(l, k, v, Join(t2, y.key, y.value, y.right))
  }

  // `s` is the symbol whose insertion may have led to the imbalance.
  function Balance(t: Tree, s: nat): (r: Tree)
    requires t.Node?
    ensures r.Node?
  {
    var b := Height(t.left) - Height(t.right);
    if b < -1 then
      var r := if s < t.right.key then RotateRight(t.right) else t.right;
      RotateLeft(t.(right := r))
    else if b > 1 then
      var l := if s > t.left.key then RotateLeft(t.left) else t.left;
      RotateRight(t.(left := l))
    else t
  }

  function Insert(t: Tree, s: nat, v: Value): (r: Tree)
    ensures r.Node?
  {
    match t
    case Leaf => Node(Leaf, s, v, 1, Leaf)
    case Node(l, k, w, h, r) =>
      if k == s then Node(l, k, v, h, r)
      else if s < k then Balance(Join(Insert(l, s, v), k, w, r), s)
      else Balance(Join(l, k, w, Insert(r, s, v)), s)
  }

  // ---- what a tree means

  function Contents(t: Tree): map<nat, Value> {
    match t
    case Leaf => map[]
    case Node(l, k, v, _, r) => Contents(l) + map[k := v] + Contents(r)
  }

  predicate Ordered(t: Tree) {
    match t
    case Leaf => true
    case Node(l, k, _, _, r) =>
      Ordered(l) && Ordered(r) && (forall x :: x in Contents(l) ==> x < k) && forall x :: x in Contents(r) ==> k < x
  }

  // Stored heights are exact and no node is out of balance.
  predicate Balanced(t: Tree) {
    match t
    case Leaf => true
    case Node(l, _, _, h, r) =>
      Balanced(l) && Balanced(r) && h == 1 + Max(Height(l), Height(r)) && -1 <= Height(l) - Height(r) <= 1
  }

  predicate Avl(t: Tree) { Ordered(t) && Balanced(t) }

  lemma MergeAssociates(a: map<nat, Value>, b: map<nat, Value>, c: map<nat, Value>)
    ensures a + (b + c) == (a + b) + c
  {
  }

  function At(k: nat, v: Value): map<nat, Value> { map[k := v] }

  // The two shapes around a rotation.
  lemma Rotations(a: Tree, k: nat, v: Value, b: Tree, k': nat, v': Value, c: Tree, h1: nat, h2: nat, h3: nat, h4: nat)
    ensures var x := Node(Node(a, k, v, h1, b), k', v', h2, c);
            var y := Node(a, k, v, h3, Node(b, k', v', h4, c));
            Contents(x) == Contents(y) && (Ordered(x) <==> Ordered(y))
  {
    var ka, kb, kc := Contents(a), Contents(b), Contents(c);
    var ab := Node(a, k, v, h1, b);
    var bc := Node(b, k', v', h4, c);
    var p, q := map[k := v], map[k' := v'];
    assert Contents(ab) == ka + p + kb && Contents(bc) == kb + q + kc;
    calc {
      ka + p + (kb + q + kc);
    == { MergeAssociates(ka + p, kb + q, kc); }
      (ka + p) + (kb + q) + kc;
    == { MergeAssociates(ka + p, kb, q); }
      (ka + p + kb) + q + kc;
    }
    OrderOfRotations(a, k, v, b, k', v', c, h1, h2, h3, h4);
  }

  lemma OrderOfRotations(a: Tree, k: nat, v: Value, b: Tree, k': nat, v': Value, c: Tree, h1: nat, h2: nat, h3: nat, h4: nat)
    ensures Ordered(Node(Node(a, k, v, h1, b), k', v', h2, c)) <==> Ordered(Node(a, k, v, h3, Node(b, k', v', h4, c)))
  {
    OrderedNode(Node(a, k, v, h1, b), k', v', h2, c);
    OrderedNode(a, k, v, h1, b);
    OrderedNode(a, k, v, h3, Node(b, k', v', h4, c));
    OrderedNode(b, k', v', h4, c);
    KeysOfNode(a, k, v, h1, b);
    KeysOfNode(b, k', v', h4, c);
    hide Ordered, Contents;
    assert k in Keys(Node(a, k, v, h1, b)) && k' in Keys(Node(b, k', v', h4, c));
  }

  function Keys(t: Tree): set<nat> { Contents(t).Keys }

  predicate AllBelow(ks: set<nat>, k: nat) { forall x :: x in ks ==> x < k }

  predicate AllAbove(ks: set<nat>, k: nat) { forall x :: x in ks ==> k < x }

  lemma KeysOfNode(l: Tree, k: nat, v: Value, h: nat, r: Tree)
    ensures Keys(Node(l, k, v, h, r)) == Keys(l) + {k} + Keys(r)
  {
  }

  lemma OrderedNode(l: Tree, k: nat, v: Value, h: nat, r: Tree)
    ensures Ordered(Node(l, k, v, h, r)) <==> Ordered(l) && Ordered(r) && AllBelow(Keys(l), k) && AllAbove(Keys(r), k)
  {
  }

  lemma RotationKeepsOrder(t: Tree)
    requires t.Node? && Ordered(t)
    ensures Ordered(RotateLeft(t)) && Contents(RotateLeft(t)) == Contents(t)
    ensures Ordered(RotateRight(t)) && Contents(RotateRight(t)) == Contents(t)
  {
    hide Ordered, Contents;
    if t.right.Node? {
      var y, z := t.right, RotateLeft(t);
      Rotations(t.left, t.key, t.value, y.left, y.key, y.value, y.right, z.left.height, z.height, t.height, y.height);
    }
    if t.left.Node? {
      var x, z := t.left, RotateRight(t);
      Rotations(x.left, x.key, x.value, x.right, t.key, t.value, t.right, x.height, t.height, z.height, z.right.height);
    }
  }

  // Replacing one child by another with suitable contents.
  lemma ReplaceLeft(l: Tree, l': Tree, k: nat, v: Value, h: nat, h': nat, r: Tree, s: nat, w: Value)
    requires Ordered(Node(l, k, v, h, r)) && s < k
    requires Ordered(l') && Contents(l') == Contents(l)[s := w]
    ensures Ordered(Node(l', k, v, h', r)) && Contents(Node(l', k, v, h', r)) == Contents(Node(l, k, v, h, r))[s := w]
  {
    OrderedNode(l, k, v, h, r);
    OrderedNode(l', k, v, h', r);
    assert Keys(l') == Keys(l) + {s};
    assert s !in Keys(r);
    UpdateLeft(Contents(l), At(k, v), Contents(r), s, w);
  }

  lemma UpdateLeft(a: map<nat, Value>, b: map<nat, Value>, c: map<nat, Value>, s: nat, w: Value)
    requires s !in b && s !in c
    ensures a[s := w] + b + c == (a + b + c)[s := w]
  {
  }

  lemma ReplaceRight(l: Tree, r: Tree, r': Tree, k: nat, v: Value, h: nat, h': nat, s: nat, w: Value)
    requires Ordered(Node(l, k, v, h, r)) && s > k
    requires Ordered(r') && Contents(r') == Contents(r)[s := w]
    ensures Ordered(Node(l, k, v, h', r')) && Contents(Node(l, k, v, h', r')) == Contents(Node(l, k, v, h, r))[s := w]
  {
    OrderedNode(l, k, v, h, r);
    OrderedNode(l, k, v, h', r');
    assert Keys(r') == Keys(r) + {s};
    UpdateRight(Contents(l), At(k, v), Contents(r), s, w);
  }

  lemma UpdateRight(a: map<nat, Value>, b: map<nat, Value>, c: map<nat, Value>, s: nat, w: Value)
    ensures a + b + c[s := w] == (a + b + c)[s := w]
  {
  }

  lemma SameChildren(l: Tree, l': Tree, k: nat, v: Value, h: nat, r: Tree, r': Tree)
    requires Ordered(Node(l, k, v, h, r)) && Ordered(l') && Ordered(r')
    requires Contents(l') == Contents(l) && Contents(r') == Contents(r)
    ensures Ordered(Node(l', k, v, h, r')) && Contents(Node(l', k, v, h, r')) == Contents(Node(l, k, v, h, r))
  {
  }

  lemma BalanceKeepsOrder(t: Tree, s: nat)
    requires t.Node? && Ordered(t)
    ensures Ordered(Balance(t, s)) && Contents(Balance(t, s)) == Contents(t)
  {
    hide RotateLeft, RotateRight, Contents, Ordered;
    OrderedNode(t.left, t.key, t.value, t.height, t.right);
    var b := Height(t.left) - Height(t.right);
    if b < -1 {
      RotationKeepsOrder(t.right);
      var r := if s < t.right.key then RotateRight(t.right) else t.right;
      SameChildren(t.left, t.left, t.key, t.value, t.height, t.right, r);
      RotationKeepsOrder(t.(right := r));
    } else if b > 1 {
      RotationKeepsOrder(t.left);
      var l := if s > t.left.key then RotateLeft(t.left) else t.left;
      SameChildren(t.left, l, t.key, t.value, t.height, t.right, t.right);
      RotationKeepsOrder(t.(left := l));
    }
  }

  // Insertion is finite-map update and keeps the search order, whatever the
  // heights are.
  lemma {:induction false} InsertUpdates(t: Tree, s: nat, v: Value)
    requires Ordered(t)
    ensures Ordered(Insert(t, s, v)) && Contents(Insert(t, s, v)) == Contents(t)[s := v]
  {
    hide Balance, Ordered, Contents;
    if t.Leaf? {
      LeafUpdate(s, v);
    } else if t.key == s {
      ReplaceValue(t, v);
    } else {
      OrderedNode(t.left, t.key, t.value, t.height, t.right);
      if s < t.key {
        InsertUpdates(t.left, s, v);
        var l := Insert(t.left, s, v);
        var j := Join(l, t.key, t.value, t.right);
        ReplaceLeft(t.left, l, t.key, t.value, t.height, j.height, t.right, s, v);
        BalanceKeepsOrder(j, s);
      } else {
        InsertUpdates(t.right, s, v);
        var r := Insert(t.right, s, v);
        var j := Join(t.left, t.key, t.value, r);
        ReplaceRight(t.left, t.right, r, t.key, t.value, t.height, j.height, s, v);
        BalanceKeepsOrder(j, s);
      }
    }
  }

  lemma LeafUpdate(s: nat, v: Value)
    ensures Ordered(Node(Leaf, s, v, 1, Leaf)) && Contents(Node(Leaf, s, v, 1, Leaf)) == Contents(Leaf)[s := v]
  {
  }

  lemma ReplaceValue(t: Tree, v: Value)
    requires t.Node? && Ordered(t)
    ensures var t' := Node(t.left, t.key, v, t.height, t.right);
            Ordered(t') && Contents(t') == Contents(t)[t.key := v]
  {
    OrderedNode(t.left, t.key, t.value, t.height, t.right);
    OrderedNode(t.left, t.key, v, t.height, t.right);
    assert t.key !in Keys(t.right);
    UpdateMiddle(Contents(t.left), Contents(t.right), t.key, t.value, v);
  }

  lemma UpdateMiddle(a: map<nat, Value>, c: map<nat, Value>, k: nat, v: Value, w: Value)
    requires k !in c
    ensures a + map[k := w] + c == (a + map[k := v] + c)[k := w]
  {
  }

  // A tree that grew by an insertion leans towards the new key; that is why
  // comparing `s` with a child's key picks the right rotation.
  predicate Leans(t: Tree, s: nat) {
    t.Node? &&
    if s < t.key then Height(t.left) == Height(t.right) + 1
    else if s > t.key then Height(t.right) == Height(t.left) + 1
    else t.left.Leaf? && t.right.Leaf?
  }

  lemma JoinBalanced(l: Tree, k: nat, v: Value, r: Tree)
    requires Balanced(l) && Balanced(r) && -1 <= Height(l) - Height(r) <= 1
    ensures Balanced(Join(l, k, v, r)) && Height(Join(l, k, v, r)) == 1 + Max(Height(l), Height(r))
  {
  }

  lemma BalancedParts(t: Tree)
    requires Balanced(t) && t.Node?
    ensures Balanced(t.left) && Balanced(t.right) && t.height == 1 + Max(Height(t.left), Height(t.right))
    ensures -1 <= Height(t.left) - Height(t.right) <= 1
  {
  }

  // What rebalancing builds when the left, or the right, side is too high.
  lemma TurnedRight(l: Tree, k: nat, v: Value, r: Tree, s: nat)
    requires Height(l) == Height(r) + 2 && l.Node?
    ensures var t := Balance(Join(l, k, v, r), s);
            && (s <= l.key ==> t == Join(l.left, l.key, l.value, Join(l.right, k, v, r)))
            && (s > l.key && l.right.Node? ==>
                  t == Join(Join(l.left, l.key, l.value, l.right.left), l.right.key, l.right.value, Join(l.right.right, k, v, r)))
  {
  }

  lemma TurnedLeft(l: Tree, k: nat, v: Value, r: Tree, s: nat)
    requires Height(r) == Height(l) + 2 && r.Node?
    ensures var t := Balance(Join(l, k, v, r), s);
            && (s >= r.key ==> t == Join(Join(l, k, v, r.left), r.key, r.value, r.right))
            && (s < r.key && r.left.Node? ==>
                  t == Join(Join(l, k, v, r.left.left), r.left.key, r.left.value, Join(r.left.right, r.key, r.value, r.right)))
  {
  }

  // After one side grew, rebalancing restores the balance, and the height is
  // what it was unless nothing had to be rotated.
  lemma RebalanceLeft(l: Tree, k: nat, v: Value, r: Tree, s: nat)
    requires Balanced(l) && Balanced(r) && s < k
    requires -1 <= Height(l) - Height(r) <= 2 && (Height(l) == Height(r) + 2 ==> Leans(l, s))
    ensures var t := Balance(Join(l, k, v, r), s);
            && Balanced(t)
            && (if Height(l) == Height(r) + 2 then Height(t) == Height(l) else t == Join(l, k, v, r))
  {
    hide Balanced;
    if Height(l) < Height(r) + 2 {
      JoinBalanced(l, k, v, r);
    } else {
      hide Balance;
      TurnedRight(l, k, v, r, s);
      BalancedParts(l);
      if s < l.key {
        JoinBalanced(l.right, k, v, r);
        JoinBalanced(l.left, l.key, l.value, Join(l.right, k, v, r));
      } else {
        var m := l.right;
        BalancedParts(m);
        JoinBalanced(l.left, l.key, l.value, m.left);
        JoinBalanced(m.right, k, v, r);
        JoinBalanced(Join(l.left, l.key, l.value, m.left), m.key, m.value, Join(m.right, k, v, r));
      }
    }
  }

  lemma RebalanceRight(l: Tree, k: nat, v: Value, r: Tree, s: nat)
    requires Balanced(l) && Balanced(r) && s > k
    requires -2 <= Height(l) - Height(r) <= 1 && (Height(r) == Height(l) + 2 ==> Leans(r, s))
    ensures var t := Balance(Join(l, k, v, r), s);
            && Balanced(t)
            && (if Height(r) == Height(l) + 2 then Height(t) == Height(r) else t == Join(l, k, v, r))
  {
    hide Balanced;
    if Height(r) < Height(l) + 2 {
      JoinBalanced(l, k, v, r);
    } else {
      hide Balance;
      TurnedLeft(l, k, v, r, s);
      BalancedParts(r);
      if s > r.key {
        JoinBalanced(l, k, v, r.left);
        JoinBalanced(Join(l, k, v, r.left), r.key, r.value, r.right);
      } else {
        var m := r.left;
        BalancedParts(m);
        JoinBalanced(l, k, v, m.left);
        JoinBalanced(m.right, r.key, r.value, r.right);
        JoinBalanced(Join(l, k, v, m.left), m.key, m.value, Join(m.right, r.key, r.value, r.right));
      }
    }
  }

  lemma {:induction false} InsertKeepsBalance(t: Tree, s: nat, v: Value)
    requires Balanced(t)
    ensures Balanced(Insert(t, s, v))
    ensures Height(t) <= Height(Insert(t, s, v)) <= Height(t) + 1
    ensures Height(Insert(t, s, v)) == Height(t) + 1 ==> Leans(Insert(t, s, v), s)
  {
    hide Balance;
    if t.Node? && t.key != s {
      if s < t.key {
        InsertKeepsBalance(t.left, s, v);
        RebalanceLeft(Insert(t.left, s, v), t.key, t.value, t.right, s);
      } else {
        InsertKeepsBalance(t.right, s, v);
        RebalanceRight(t.left, t.key, t.value, Insert(t.right, s, v), s);
      }
    }
  }

  // ---- size, keys and height

  function Size(t: Tree): nat {
    match t
    case Leaf => 0
    case Node(l, _, _, _, r) => 1 + Size(l) + Size(r)
  }

  // lTreeAddKeysToList
  function AddKeys(t: Tree, list: seq<nat>): seq<nat> {
    match t
    case Leaf => list
    case Node(l, k, _, _, r) => AddKeys(l, [k] + AddKeys(r, list))
  }

  predicate Ascending(ks: seq<nat>) {
    forall i, j :: 0 <= i < j < |ks| ==> ks[i] < ks[j]
  }

  function InOrder(t: Tree): seq<nat> {
    match t
    case Leaf => []
    case Node(l, k, _, _, r) => InOrder(l) + [k] + InOrder(r)
  }

  lemma {:induction false} AddKeysIsInOrder(t: Tree, list: seq<nat>)
    ensures AddKeys(t, list) == InOrder(t) + list
  {
    if t.Node? {
      AddKeysIsInOrder(t.right, list);
      AddKeysIsInOrder(t.left, [t.key] + AddKeys(t.right, list));
      assert InOrder(t.left) + ([t.key] + (InOrder(t.right) + list)) == InOrder(t.left) + [t.key] + InOrder(t.right) + list;
    }
  }

  lemma AscendingJoin(a: seq<nat>, k: nat, b: seq<nat>)
    requires Ascending(a) && Ascending(b)
    requires (forall x :: x in a ==> x < k) && forall x :: x in b ==> k < x
    ensures Ascending(a + [k] + b)
  {
    var n := |a|;
    var ks := a + [k] + b;
    forall i, j | 0 <= i < j < |ks| ensures ks[i] < ks[j] {
      assert i < n ==> ks[i] == a[i] && a[i] in a;
      assert j > n ==> ks[j] == b[j - n - 1] && b[j - n - 1] in b;
    }
  }

  // The key list holds every bound key once, in order, and its length is the
  // size of the tree and of the map.
  lemma {:induction false} KeyList(t: Tree)
    requires Ordered(t)
    ensures Ascending(InOrder(t)) && |InOrder(t)| == Size(t) == |Keys(t)|
    ensures forall k :: k in InOrder(t) <==> k in Keys(t)
  {
    hide Contents, Ordered, Ascending;
    if t.Leaf? {
      assert Ascending([]) && Contents(Leaf) == map[] by { NoKeys(); }
    } else {
      var l, r := t.left, t.right;
      OrderedNode(l, t.key, t.value, t.height, r);
      KeysOfNode(l, t.key, t.value, t.height, r);
      KeyList(l);
      KeyList(r);
      AscendingJoin(InOrder(l), t.key, InOrder(r));
      assert Keys(l) !! {t.key} && Keys(l) + {t.key} !! Keys(r);
      assert |Keys(l) + {t.key} + Keys(r)| == |Keys(l)| + 1 + |Keys(r)|;
    }
  }

  lemma NoKeys()
    ensures Ascending([]) && Contents(Leaf) == map[] && Avl(Leaf)
  {
  }

  function Fib(n: nat): nat {
    if n < 2 then n else Fib(n - 2) + Fib(n - 1)
  }

  // A balanced tree of height h holds at least Fib(h + 2) - 1 keys.
  lemma {:induction false} HeightBound(t: Tree)
    requires Balanced(t)
    ensures Size(t) + 1 >= Fib(Height(t) + 2)
  {
    if t.Node? {
      HeightBound(t.left);
      HeightBound(t.right);
      var h := t.height;
      FibGrows(h + 1, Height(t.left) + 2);
      FibGrows(h + 1, Height(t.right) + 2);
      FibGrows(h, Height(t.left) + 2);
      FibGrows(h, Height(t.right) + 2);
    }
  }

  lemma {:induction false} FibGrows(m: nat, n: nat)
    ensures m <= n ==> Fib(m) <= Fib(n)
    decreases n
  {
    if m < n {
      FibGrows(m, n - 1);
      assert n >= 2 ==> Fib(n) == Fib(n - 2) + Fib(n - 1);
    }
  }

  lemma FibValues()
    ensures Fib(28) == 317811
  {
    assert Fib(6) == 8 && Fib(7) == 13;
    assert Fib(8) == 21 && Fib(9) == 34;
    assert Fib(10) == 55 && Fib(11) == 89;
    assert Fib(12) == 144 && Fib(13) == 233;
    assert Fib(14) == 377 && Fib(15) == 610;
    assert Fib(16) == 987 && Fib(17) == 1597;
    assert Fib(18) == 2584 && Fib(19) == 4181;
    assert Fib(20) == 6765 && Fib(21) == 10946;
    assert Fib(22) == 17711 && Fib(23) == 28657;
    assert Fib(24) == 46368 && Fib(25) == 75025;
    assert Fib(26) == 121393 && Fib(27) == 196418;
  }

  // At most 2^18 nodes can be allocated, so heights stay far below the 16 bits
  // they are stored in.
  lemma HeightFits(t: Tree)
    requires Balanced(t) && Size(t) < 0x4_0000
    ensures Height(t) <= 25
  {
    HeightBound(t);
    if Height(t) > 25 {
      FibGrows(28, Height(t) + 2);
      FibValues();
    }
  }

  // ---- trees built by insertions

  function InsertAll(kvs: seq<(nat, Value)>): Tree {
    if kvs == [] then Leaf
    else var (k, v) := kvs[|kvs| - 1]; Insert(InsertAll(kvs[..|kvs| - 1]), k, v)
  }

  function LastBindings(kvs: seq<(nat, Value)>): map<nat, Value> {
    if kvs == [] then map[]
    else var (k, v) := kvs[|kvs| - 1]; LastBindings(kvs[..|kvs| - 1])[k := v]
  }

  // Whatever was inserted, in whatever order: the tree is an AVL tree that
  // binds every key to its last value, and its height is logarithmic.
  lemma {:induction false} BuiltIsAvl(kvs: seq<(nat, Value)>)
    ensures Avl(InsertAll(kvs)) && Contents(InsertAll(kvs)) == LastBindings(kvs)
    ensures |LastBindings(kvs)| + 1 >= Fib(Height(InsertAll(kvs)) + 2)
  {
    hide Insert, Ordered, Balanced, Contents, Fib;
    NoKeys();
    if kvs != [] {
      var (k, v) := kvs[|kvs| - 1];
      var t := InsertAll(kvs[..|kvs| - 1]);
      BuiltIsAvl(kvs[..|kvs| - 1]);
      InsertUpdates(t, k, v);
      InsertKeepsBalance(t, k, v);
    }
    KeyList(InsertAll(kvs));
    HeightBound(InsertAll(kvs));
    assert |Contents(InsertAll(kvs))| == |Keys(InsertAll(kvs))|;
  }
}
