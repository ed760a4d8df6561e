// The same trees in place: nodes that are mutated, rotated and searched, each
// method proved against the functions on tree values.
module TreeNodes {
  import opened Values
  import opened Trees

  class TreeNode {
    var left: TreeNode?
    var right: TreeNode?
    var key: nat
    var value: Value
    var height: nat
    ghost var repr: set<TreeNode>
    ghost var tree: Tree             // the value this node stands for

    ghost predicate Valid()
      reads this, repr
      decreases repr
    {
      && this in repr
      && (left != null ==> left in repr && left.repr <= repr && this !in left.repr && left.Valid())
      && (right != null ==> right in repr && right.repr <= repr && this !in right.repr && right.Valid())
      && ReprOf(left) !! ReprOf(right)
      && repr == {this} + ReprOf(left) + ReprOf(right)
      && tree == Node(TreeOf(left), key, value, height, TreeOf(right))
    }

    // lTreeNew
    constructor (s: nat, v: Value)
      ensures Valid() && fresh(repr) && tree == Node(Leaf, s, v, 1, Leaf)
    {
      left, right, key, value, height := null, null, s, v, 1;
      repr, tree := {this}, Node(Leaf, s, v, 1, Leaf);
    }
  }

  ghost function TreeOf(t: TreeNode?): Tree
    reads t
  {
    if t == null then Leaf else t.tree
  }

  ghost function ReprOf(t: TreeNode?): set<TreeNode>
    reads t
  {
    if t == null then {} else t.repr
  }

  // Sub-trees that do not overlap.
  ghost predicate Good(t: TreeNode?)
    reads t, ReprOf(t)
  {
    t != null ==> t.Valid()
  }

  function HeightOf(t: TreeNode?): (h: nat)
    reads t, ReprOf(t)
    requires Good(t)
    ensures h == Height(TreeOf(t))
  {
    if t == null then 0 else t.height
  }

  // Links `t` to its children `l` and `r` and recomputes its height.
  method Link(t: TreeNode, l: TreeNode?, r: TreeNode?)
    requires Good(l) && Good(r) && t !in ReprOf(l) && t !in ReprOf(r) && ReprOf(l) !! ReprOf(r)
    modifies t
    ensures t.Valid() && t.repr == {t} + old(ReprOf(l)) + old(ReprOf(r))
    ensures t.tree == Join(old(TreeOf(l)), old(t.key), old(t.value), old(TreeOf(r)))
  {
    hide Max;
    var hl, hr := HeightOf(l), HeightOf(r);
    LinkAt(t, l, r, 1 + MaxOf(hl, hr));
  }

  function MaxOf(a: nat, b: nat): (m: nat)
    ensures m == Max(a, b)
  {
    if a > b then a else b
  }

  // The same with a given height.
  method LinkAt(t: TreeNode, l: TreeNode?, r: TreeNode?, h: nat)
    requires Good(l) && Good(r) && t !in ReprOf(l) && t !in ReprOf(r) && ReprOf(l) !! ReprOf(r)
    modifies t
    ensures t.Valid() && t.repr == {t} + old(ReprOf(l)) + old(ReprOf(r))
    ensures t.key == old(t.key) && t.value == old(t.value)
    ensures t.tree == Node(old(TreeOf(l)), old(t.key), old(t.value), h, old(TreeOf(r)))
  {
    t.left, t.right, t.height := l, r, h;
    t.repr := {t} + ReprOf(l) + ReprOf(r);
    t.tree := Node(TreeOf(l), t.key, t.value, h, TreeOf(r));
    assert Good(l) && Good(r);
  }

  method RotateNodeLeft(x: TreeNode) returns (y: TreeNode)
    requires x.Valid()
    modifies x, x.right
    ensures y.Valid() && y.tree == RotateLeft(old(x.tree)) && y.repr == old(x.repr)
  {
    if x.right == null {
      return x;
    }
    hide Max;
    y := x.right;
    assert {x} !! {y} !! ReprOf(x.left) !! ReprOf(y.left) !! ReprOf(y.right);
    var t2, rest := y.left, y.right;
    Link(x, x.left, t2);
    Link(y, x, rest);
  }

  method RotateNodeRight(y: TreeNode) returns (x: TreeNode)
    requires y.Valid()
    modifies y, y.left
    ensures x.Valid() && x.tree == RotateRight(old(y.tree)) && x.repr == old(y.repr)
  {
    if y.left == null {
      return y;
    }
    hide Max;
    x := y.left;
    assert {y} !! {x} !! ReprOf(x.left) !! ReprOf(x.right) !! ReprOf(y.right);
    var t2, rest := x.right, x.left;
    Link(y, t2, y.right);
    Link(x, rest, y);
  }

  // A node and its children, one level at a time.
  lemma Children(t: TreeNode)
    requires t.Valid()
    ensures Good(t.left) && Good(t.right) && ReprOf(t.left) < t.repr && ReprOf(t.right) < t.repr
    ensures t in t.repr && t.repr == {t} + ReprOf(t.left) + ReprOf(t.right)
    ensures ReprOf(t.left) !! ReprOf(t.right) && t !in ReprOf(t.left) && t !in ReprOf(t.right)
    ensures t.left != null ==> t.left in ReprOf(t.left)
    ensures t.right != null ==> t.right in ReprOf(t.right)
    ensures t.tree == Node(TreeOf(t.left), t.key, t.value, t.height, TreeOf(t.right))
  {
    assert t !in ReprOf(t.left) && t !in ReprOf(t.right);
  }

  // The right side is too high.
  method LowerRight(t: TreeNode, s: nat) returns (r: TreeNode)
    requires t.Valid() && t.right != null
    modifies t.repr
    ensures r.Valid() && r.repr == old(t.repr)
    ensures var right := old(t.right.tree);
            right.Node? && r.tree == RotateLeft(old(t.tree).(right := if s < old(t.right.key) then RotateRight(right) else right))
  {
    hide RotateLeft, RotateRight, TreeNode.Valid;
    Children(t);
    Children(t.right);
    if s < t.right.key {
      var right := RotateNodeRight(t.right);
      LinkAt(t, t.left, right, t.height);
    }
    Children(t);
    r := RotateNodeLeft(t);
  }

  method LowerLeft(t: TreeNode, s: nat) returns (r: TreeNode)
    requires t.Valid() && t.left != null
    modifies t.repr
    ensures r.Valid() && r.repr == old(t.repr)
    ensures var left := old(t.left.tree);
            left.Node? && r.tree == RotateRight(old(t.tree).(left := if s > old(t.left.key) then RotateLeft(left) else left))
  {
    hide RotateLeft, RotateRight, TreeNode.Valid;
    Children(t);
    Children(t.left);
    if s > t.left.key {
      var left := RotateNodeLeft(t.left);
      LinkAt(t, left, t.right, t.height);
    }
    Children(t);
    r := RotateNodeRight(t);
  }

  method BalanceNode(t: TreeNode, s: nat) returns (r: TreeNode)
    requires t.Valid()
    modifies t.repr
    ensures r.Valid() && r.tree == Balance(old(t.tree), s) && r.repr == old(t.repr)
  {
    hide RotateLeft, RotateRight;
    var balance := HeightOf(t.left) - HeightOf(t.right);
    if balance < -1 {
      r := LowerRight(t, s);
    } else if balance > 1 {
      r := LowerLeft(t, s);
    } else {
      r := t;
    }
  }

  // lTreeInsert: mutates the path to the key, allocates at most one node.
  method InsertNode(t: TreeNode?, s: nat, v: Value) returns (r: TreeNode)
    requires Good(t)
    modifies ReprOf(t)
    ensures r.Valid() && r.tree == Insert(old(TreeOf(t)), s, v)
    ensures fresh(r.repr - old(ReprOf(t)))
    decreases ReprOf(t)
  {
    hide Balance, Max, TreeNode.Valid;
    if t == null {
      r := new TreeNode(s, v);
    } else if t.key == s {
      Children(t);
      t.value := v;
      LinkAt(t, t.left, t.right, t.height);
      r := t;
    } else {
      Children(t);
      ghost var lefts, rights := ReprOf(t.left), ReprOf(t.right);
      if s < t.key {
        var left := InsertNode(t.left, s, v);
        assert t !in left.repr && left.repr !! rights;
        Link(t, left, t.right);
      } else {
        var right := InsertNode(t.right, s, v);
        assert t !in right.repr && right.repr !! lefts;
        Link(t, t.left, right);
      }
      r := BalanceNode(t, s);
    }
  }

  // lTreeRef: one node per level, so never more steps than the height.
  method Ref(t: TreeNode?, s: nat) returns (r: Option<Value>, ghost steps: nat)
    requires Good(t) && Avl(TreeOf(t))
    ensures r == if s in Contents(TreeOf(t)) then Some(Contents(TreeOf(t))[s]) else None
    ensures steps <= Height(TreeOf(t))
  {
    var c := t;
    steps := 0;
    while c != null
      invariant Good(c) && Avl(TreeOf(c))
      invariant s in Contents(TreeOf(t)) <==> s in Contents(TreeOf(c))
      invariant s in Contents(TreeOf(t)) ==> Contents(TreeOf(c))[s] == Contents(TreeOf(t))[s]
      invariant steps + Height(TreeOf(c)) <= Height(TreeOf(t))
      decreases TreeOf(c)
    {
      steps := steps + 1;
      if s == c.key {
        return Some(c.value), steps;
      }
      c := if s > c.key then c.right else c.left;
    }
    return None, steps;
  }

  // lTreeSize
  method SizeOf(t: TreeNode?) returns (n: nat)
    requires Good(t)
    ensures n == Size(TreeOf(t))
    decreases ReprOf(t)
  {
    if t == null {
      return 0;
    }
    var l := SizeOf(t.left);
    var r := SizeOf(t.right);
    return 1 + l + r;
  }

  method KeysOnto(t: TreeNode?, list: seq<nat>) returns (r: seq<nat>)
    requires Good(t)
    ensures r == InOrder(TreeOf(t)) + list
    decreases ReprOf(t)
  {
    if t == null {
      return list;
    }
    AddKeysIsInOrder(t.tree, list);
    AddKeysIsInOrder(TreeOf(t.right), list);
    r := KeysOnto(t.right, list);
    r := [t.key] + r;
    AddKeysIsInOrder(TreeOf(t.left), r);
    r := KeysOnto(t.left, r);
  }

  method Copy(k: nat, v: Value, h: nat, l: TreeNode?, r: TreeNode?) returns (t: TreeNode)
    requires Good(l) && Good(r) && ReprOf(l) !! ReprOf(r)
    ensures t.Valid() && t.tree == Node(TreeOf(l), k, v, h, TreeOf(r))
    ensures fresh(t) && t.repr == {t} + ReprOf(l) + ReprOf(r)
  {
    t := new TreeNode(k, v);
    assert Good(l) && Good(r);
    LinkAt(t, l, r, h);
  }

  // lTreeDup: an equal tree that shares no node with the original.
  method Dup(t: TreeNode?) returns (r: TreeNode?)
    requires Good(t)
    ensures Good(r) && TreeOf(r) == TreeOf(t) && fresh(ReprOf(r))
    decreases ReprOf(t)
  {
    if t == null {
      return null;
    }
    hide TreeNode.Valid;
    Children(t);
    var left := Dup(t.left);
    var right := Dup(t.right);
    r := Copy(t.key, t.value, t.height, left, right);
  }

  // A scope: inserting into it updates a finite map and keeps it an AVL tree.
  method Bind(t: TreeNode?, s: nat, v: Value) returns (r: TreeNode)
    requires Good(t) && Avl(TreeOf(t))
    modifies ReprOf(t)
    ensures r.Valid() && Avl(r.tree) && Contents(r.tree) == Contents(old(TreeOf(t)))[s := v]
    ensures fresh(r.repr - old(ReprOf(t)))
  {
    InsertUpdates(TreeOf(t), s, v);
    InsertKeepsBalance(TreeOf(t), s, v);
    r := InsertNode(t, s, v);
  }
}
