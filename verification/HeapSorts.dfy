// array/heap-sort, in place on an array of integers.
module HeapSorts {
  import opened Primitives

  // (> a b) on integers: a wrapped subtraction.
  predicate Greater(a: int, b: int) { Wrap64(a - b) > 0 }

  // Greater is the mathematical order on these numbers.
  ghost predicate Exact(s: seq<int>) {
    forall x, y :: x in s && y in s ==> IsI64(x - y)
  }

  lemma GreaterIsExact(s: seq<int>, x: int, y: int)
    requires Exact(s) && x in s && y in s
    ensures Greater(x, y) <==> x > y
  {
  }

  lemma ExactPermutes(s: seq<int>, t: seq<int>)
    requires multiset(s) == multiset(t)
    ensures Exact(s) <==> Exact(t)
  {
    forall x ensures x in s <==> x in t {
      assert x in multiset(s) <==> x in multiset(t);
    }
  }

  ghost predicate NodeOk(s: seq<int>, n: nat, i: nat)
    requires n <= |s| && i < n
  {
    (2 * i + 1 < n ==> s[i] >= s[2 * i + 1]) && (2 * i + 2 < n ==> s[i] >= s[2 * i + 2])
  }

  // The max-heap property at every node from `lo` on, except at `at`.
  ghost predicate HeapBut(s: seq<int>, n: nat, lo: nat, at: nat)
    requires n <= |s|
  {
    forall i: nat :: lo <= i < n && i != at ==> NodeOk(s, n, i)
  }

  ghost predicate Heap(s: seq<int>, n: nat, lo: nat)
    requires n <= |s|
  {
    forall i: nat :: lo <= i < n ==> NodeOk(s, n, i)
  }

  // The parent of the hole is no smaller than the hole's children.
  ghost predicate HoleOk(s: seq<int>, n: nat, lo: nat, at: nat)
    requires n <= |s|
  {
    forall p: nat :: lo <= p < at < n && (at == 2 * p + 1 || at == 2 * p + 2) ==>
      (2 * at + 1 < n ==> s[p] >= s[2 * at + 1]) && (2 * at + 2 < n ==> s[p] >= s[2 * at + 2])
  }

  function Swapped(s: seq<int>, i: nat, j: nat): (t: seq<int>)
    requires i < |s| && j < |s|
    ensures |t| == |s|
  {
    s[i := s[j]][j := s[i]]
  }

  method Swap(a: array<int>, i: nat, j: nat)
    requires i < a.Length && j < a.Length
    modifies a
    ensures a[..] == Swapped(old(a[..]), i, j)
  {
    var tmp := a[i];
    a[i] := a[j];
    a[j] := tmp;
  }

  lemma SwapPermutes(s: seq<int>, i: nat, j: nat, n: nat)
    requires i < n && j < n && n <= |s|
    ensures multiset(Swapped(s, i, j)) == multiset(s)
    ensures multiset(Swapped(s, i, j)[..n]) == multiset(s[..n])
    ensures Swapped(s, i, j)[n..] == s[n..]
  {
    SwapMultiset(s[..n], i, j);
    SwapMultiset(s, i, j);
    assert Swapped(s, i, j)[..n] == Swapped(s[..n], i, j);
  }

  lemma SwapMultiset(s: seq<int>, i: nat, j: nat)
    requires i < |s| && j < |s|
    ensures multiset(Swapped(s, i, j)) == multiset(s)
  {
  }

  // Moving the larger child up fills the hole and opens one below.
  lemma SiftStep(s: seq<int>, n: nat, lo: nat, at: nat, top: nat)
    requires lo <= at < top < n <= |s| && (top == 2 * at + 1 || top == 2 * at + 2)
    requires HeapBut(s, n, lo, at) && HoleOk(s, n, lo, at)
    requires s[top] > s[at] && (2 * at + 1 < n ==> s[top] >= s[2 * at + 1]) && (2 * at + 2 < n ==> s[top] >= s[2 * at + 2])
    ensures HeapBut(Swapped(s, at, top), n, lo, top) && HoleOk(Swapped(s, at, top), n, lo, top)
  {
    var t := Swapped(s, at, top);
    forall i: nat | lo <= i < n && i != top ensures NodeOk(t, n, i) {
      if i != at {
        assert NodeOk(s, n, i);
      }
    }
    assert NodeOk(s, n, top);
  }

  lemma HoleStart(s: seq<int>, n: nat, lo: nat)
    requires n <= |s|
    ensures HoleOk(s, n, lo, lo)
  {
  }

  lemma HeapDone(s: seq<int>, n: nat, lo: nat, at: nat)
    requires n <= |s| && HeapBut(s, n, lo, at) && (at < n ==> NodeOk(s, n, at))
    ensures Heap(s, n, lo)
  {
  }

  predicate Permuted(s: seq<int>, t: seq<int>, n: nat)
    requires n <= |s| == |t|
  {
    multiset(t) == multiset(s) && multiset(t[..n]) == multiset(s[..n]) && t[n..] == s[n..]
  }

  // The largest of a node and its two children.
  function Select(s: seq<int>, n: nat, at: nat): (top: nat)
    requires n <= |s| && (at < n || n == 0)
    ensures top == at || (at < top < n && (top == 2 * at + 1 || top == 2 * at + 2))
  {
    var l, r := 2 * at + 1, 2 * at + 2;
    var t := if l < n && Greater(s[l], s[at]) then l else at;
    if r < n && Greater(s[r], s[t]) then r else t
  }

  method Largest(a: array<int>, n: nat, at: nat) returns (top: nat)
    requires n <= a.Length && (at < n || n == 0)
    ensures top == Select(a[..], n, at)
  {
    top := at;
    var l := 2 * at + 1;
    var r := 2 * at + 2;
    if l < n && Greater(a[l], a[top]) {
      top := l;
    }
    if r < n && Greater(a[r], a[top]) {
      top := r;
    }
  }

  lemma SelectFacts(s: seq<int>, n: nat, at: nat)
    requires n <= |s| && (at < n || n == 0)
    ensures var top := Select(s, n, at);
            Exact(s) && at < n ==>
              && (top == at <==> NodeOk(s, n, at))
              && (top != at ==> s[top] > s[at] && (2 * at + 1 < n ==> s[top] >= s[2 * at + 1]) && (2 * at + 2 < n ==> s[top] >= s[2 * at + 2]))
  {
    if Exact(s) && at < n {
      LargestOfThree(s, n, at, Select(s, n, at));
    }
  }

  // What the two comparisons of heapify select.
  lemma LargestOfThree(s: seq<int>, n: nat, at: nat, top: nat)
    requires Exact(s) && n <= |s| && at < n
    requires var l, r := 2 * at + 1, 2 * at + 2;
             var t := if l < n && Greater(s[l], s[at]) then l else at;
             top == if r < n && Greater(s[r], s[t]) then r else t
    ensures top == at <==> NodeOk(s, n, at)
    ensures top != at ==> s[top] > s[at] && (2 * at + 1 < n ==> s[top] >= s[2 * at + 1]) && (2 * at + 2 < n ==> s[top] >= s[2 * at + 2])
  {
    var l, r := 2 * at + 1, 2 * at + 2;
    if l < n {
      GreaterIsExact(s, s[l], s[at]);
    }
    if r < n {
      GreaterIsExact(s, s[r], s[at]);
      GreaterIsExact(s, s[r], s[l]);
    }
  }

  // ---- array/heapify

  // Sinking the element at `at` as far as the comparisons say.
  function Sift(s: seq<int>, n: nat, at: nat): (t: seq<int>)
    requires n <= |s| && (at < n || n == 0)
    ensures |t| == |s|
    decreases n - at
  {
    var top := Select(s, n, at);
    if top == at then s else Sift(Swapped(s, at, top), n, top)
  }

  lemma {:induction false} SiftPermutes(s: seq<int>, n: nat, at: nat)
    requires n <= |s| && (at < n || n == 0)
    ensures Permuted(s, Sift(s, n, at), n)
    decreases n - at
  {
    hide Swapped;
    var top := Select(s, n, at);
    if top != at {
      SwapPermutes(s, at, top, n);
      SiftPermutes(Swapped(s, at, top), n, top);
    }
  }

  lemma {:induction false} SiftHeaps(s: seq<int>, n: nat, lo: nat, at: nat)
    requires n <= |s| && lo <= at && (at < n || n == 0)
    requires Exact(s) && HeapBut(s, n, lo, at) && HoleOk(s, n, lo, at)
    ensures Heap(Sift(s, n, at), n, lo)
    decreases n - at
  {
    hide Heap, HeapBut, HoleOk, NodeOk, Exact, Swapped, Select;
    var top := Select(s, n, at);
    SelectFacts(s, n, at);
    if top == at {
      HeapDone(s, n, lo, at);
    } else {
      SiftStep(s, n, lo, at, top);
      SwapPermutes(s, at, top, n);
      ExactPermutes(s, Swapped(s, at, top));
      SiftHeaps(Swapped(s, at, top), n, lo, top);
    }
  }

  method Heapify(a: array<int>, n: nat, start: nat)
    requires n <= a.Length && (start < n || n == 0)
    modifies a
    ensures a[..] == Sift(old(a[..]), n, start)
    ensures Permuted(old(a[..]), a[..], n)
    ensures Exact(old(a[..])) && old(HeapBut(a[..], n, start, start)) ==> Heap(a[..], n, start)
  {
    hide Heap, HeapBut, Exact, Swapped, Select;
    var at := start;
    var looping := true;
    ghost var was := a[..];
    while looping
      invariant at < n || n == 0
      invariant if looping then Sift(a[..], n, at) == Sift(was, n, start) else a[..] == Sift(was, n, start)
      decreases looping, n - at
    {
      var top := Largest(a, n, at);
      if top == at {
        looping := false;
      } else {
        Swap(a, at, top);
        at := top;
      }
    }
    SiftPermutes(was, n, start);
    if Exact(was) && HeapBut(was, n, start, start) {
      HoleStart(was, n, start);
      SiftHeaps(was, n, start, start);
    }
  }

  // ---- array/make-heap

  function Made(s: seq<int>, i: int): (t: seq<int>)
    requires -1 <= i <= |s| / 2
    ensures |t| == |s|
    decreases i + 1
  {
    if i < 0 then s else Made(Sift(s, |s|, i), i - 1)
  }

  lemma {:induction false} MadePermutes(s: seq<int>, i: int)
    requires -1 <= i <= |s| / 2
    ensures multiset(Made(s, i)) == multiset(s)
    decreases i + 1
  {
    hide Sift;
    if i >= 0 {
      SiftPermutes(s, |s|, i);
      MadePermutes(Sift(s, |s|, i), i - 1);
    }
  }

  lemma {:induction false} MadeHeaps(s: seq<int>, i: int)
    requires -1 <= i <= |s| / 2 && Exact(s) && Heap(s, |s|, i + 1)
    ensures Heap(Made(s, i), |s|, 0)
    decreases i + 1
  {
    hide Sift, Exact;
    if i >= 0 {
      HoleStart(s, |s|, i);
      SiftHeaps(s, |s|, i, i);
      SiftPermutes(s, |s|, i);
      ExactPermutes(s, Sift(s, |s|, i));
      MadeHeaps(Sift(s, |s|, i), i - 1);
    }
  }

  // The leaves are heaps already.
  lemma LeavesHeap(s: seq<int>)
    ensures Heap(s, |s|, |s| / 2 + 1)
  {
  }

  method MakeHeap(a: array<int>)
    modifies a
    ensures a[..] == Made(old(a[..]), a.Length / 2)
    ensures multiset(a[..]) == multiset(old(a[..]))
    ensures Exact(old(a[..])) ==> Heap(a[..], a.Length, 0)
  {
    hide Heap, Exact;
    var l := a.Length;
    var l2 := l / 2;
    ghost var was := a[..];
    while l2 >= 0
      invariant -1 <= l2 <= l / 2
      invariant Made(a[..], l2) == Made(was, l / 2)
    {
      Heapify(a, l, l2);
      l2 := l2 - 1;
    }
    MadePermutes(was, l / 2);
    if Exact(was) {
      LeavesHeap(was);
      MadeHeaps(was, l / 2);
    }
  }

  // The root of a heap is its largest element.
  lemma {:induction false} RootIsLargest(s: seq<int>, n: nat, i: nat)
    requires n <= |s| && Heap(s, n, 0) && i < n
    ensures s[0] >= s[i]
    decreases i
  {
    if i > 0 {
      var p := (i - 1) / 2;
      assert NodeOk(s, n, p) && (i == 2 * p + 1 || i == 2 * p + 2);
      RootIsLargest(s, n, p);
    }
  }

  predicate Sorted(s: seq<int>) {
    forall i, j :: 0 <= i < j < |s| ==> s[i] <= s[j]
  }

  // The suffix from `l` on is sorted and no smaller than what precedes it.
  ghost predicate Tail(s: seq<int>, l: nat)
    requires l <= |s|
  {
    Sorted(s[l..]) && forall i, j :: 0 <= i < l <= j < |s| ==> s[i] <= s[j]
  }

  // Extracting the root extends the suffix.
  lemma ExtractRoot(s: seq<int>, l: nat)
    requires l < |s| && Heap(s, l + 1, 0) && Tail(s, l + 1)
    ensures Tail(Swapped(s, 0, l), l)
    ensures HeapBut(Swapped(s, 0, l), l, 0, 0)
  {
    var t := Swapped(s, 0, l);
    forall i | 0 <= i <= l ensures s[0] >= s[i] {
      RootIsLargest(s, l + 1, i);
    }
    forall i: nat | 0 < i < l ensures NodeOk(t, l, i) {
      assert NodeOk(s, l + 1, i);
    }
    forall i, j | 0 <= i < l <= j < |t| ensures t[i] <= t[j] {
    }
    forall i, j | 0 <= i < j < |t[l..]| ensures t[l..][i] <= t[l..][j] {
      assert t[l..][j] == s[l + 1..][j - 1];
      if i > 0 {
        assert t[l..][i] == s[l + 1..][i - 1];
      }
    }
  }

  // Permuting the part before the suffix keeps it.
  lemma TailPermutes(s: seq<int>, t: seq<int>, l: nat)
    requires l <= |s| == |t| && Tail(s, l) && multiset(t[..l]) == multiset(s[..l]) && t[l..] == s[l..]
    ensures Tail(t, l)
  {
    forall i, j | 0 <= i < l <= j < |t| ensures t[i] <= t[j] {
      assert t[..l][i] in multiset(t[..l]);
      assert t[i] in multiset(s[..l]);
      var k :| 0 <= k < l && s[..l][k] == t[i];
      assert t[l..][j - l] == s[l..][j - l];
      assert s[k] <= s[j];
    }
  }

  // ---- array/heap-sort

  // The root goes behind the heap, and the last element sinks.
  function Extracted(s: seq<int>, l: nat): (t: seq<int>)
    requires l < |s|
    ensures |t| == |s|
  {
    Sift(Swapped(s, 0, l), l, 0)
  }

  function SortedFrom(s: seq<int>, l: nat): (t: seq<int>)
    requires l <= |s|
    ensures |t| == |s|
    decreases l
  {
    if l == 0 then s else SortedFrom(Extracted(s, l - 1), l - 1)
  }

  function HeapSorted(s: seq<int>): (t: seq<int>)
    ensures |t| == |s|
  {
    SortedFrom(Made(s, |s| / 2), |s|)
  }

  lemma ExtractedPermutes(s: seq<int>, l: nat)
    requires l < |s|
    ensures multiset(Extracted(s, l)) == multiset(s) && Extracted(s, l)[l..] == Swapped(s, 0, l)[l..]
  {
    hide Sift, Swapped;
    SwapPermutes(s, 0, l, |s|);
    SiftPermutes(Swapped(s, 0, l), l, 0);
  }

  lemma ExtractedSorts(s: seq<int>, l: nat)
    requires l < |s| && Exact(s) && Heap(s, l + 1, 0) && Tail(s, l + 1)
    ensures var t := Extracted(s, l); Exact(t) && Heap(t, l, 0) && Tail(t, l)
  {
    hide Heap, HeapBut, Tail, Exact, Sift, Swapped;
    var t := Swapped(s, 0, l);
    ExtractRoot(s, l);
    SwapPermutes(s, 0, l, |s|);
    ExactPermutes(s, t);
    HoleStart(t, l, 0);
    SiftHeaps(t, l, 0, 0);
    SiftPermutes(t, l, 0);
    ExactPermutes(t, Extracted(s, l));
    TailPermutes(t, Extracted(s, l), l);
  }

  lemma {:induction false} SortedFromPermutes(s: seq<int>, l: nat)
    requires l <= |s|
    ensures multiset(SortedFrom(s, l)) == multiset(s) && SortedFrom(s, l)[l..] == s[l..]
    decreases l
  {
    hide Extracted;
    if l > 0 {
      var t := Extracted(s, l - 1);
      ExtractedPermutes(s, l - 1);
      SortedFromPermutes(t, l - 1);
      assert t[l..] == t[l - 1..][1..] && s[l..] == Swapped(s, 0, l - 1)[l - 1..][1..];
      assert SortedFrom(s, l)[l..] == SortedFrom(s, l)[l - 1..][1..];
    }
  }

  lemma {:induction false} SortedFromSorts(s: seq<int>, l: nat)
    requires l <= |s| && Exact(s) && Heap(s, l, 0) && Tail(s, l)
    ensures Tail(SortedFrom(s, l), 0)
    decreases l
  {
    hide Heap, Tail, Exact, Extracted;
    if l > 0 {
      ExtractedSorts(s, l - 1);
      SortedFromSorts(Extracted(s, l - 1), l - 1);
    }
  }

  lemma TailAll(s: seq<int>)
    ensures Tail(s, |s|) && (Tail(s, 0) ==> Sorted(s))
  {
    assert s[0..] == s;
  }

  lemma HeapSortedPermutes(s: seq<int>)
    ensures multiset(HeapSorted(s)) == multiset(s)
  {
    MadePermutes(s, |s| / 2);
    SortedFromPermutes(Made(s, |s| / 2), |s|);
  }

  // On numbers that are not too far apart the result is sorted.
  lemma ExactSorts(s: seq<int>)
    requires Exact(s)
    ensures Sorted(HeapSorted(s))
  {
    hide Heap, Tail, Exact, Made, SortedFrom, Sorted;
    var made := Made(s, |s| / 2);
    LeavesHeap(s);
    MadeHeaps(s, |s| / 2);
    MadePermutes(s, |s| / 2);
    ExactPermutes(s, made);
    TailAll(made);
    SortedFromSorts(made, |s|);
    TailAll(SortedFrom(made, |s|));
  }

  // ---- numbers that are too far apart

  // The two subtrees below the root: 1 and 2.
  function Side(i: nat): nat { if i <= 2 then i else Side((i - 1) / 2) }

  // z fills the left subtree, or does not occur in the right one.
  ghost predicate AllLeft(s: seq<int>, z: int) { forall i: nat :: i < |s| && Side(i) == 1 ==> s[i] == z }

  ghost predicate NoneRight(s: seq<int>, z: int) { forall i: nat :: i < |s| && Side(i) == 2 ==> s[i] != z }

  // With x at the root, z will not come to the top of the heap.
  ghost predicate Blocked(s: seq<int>, x: int, z: int) {
    |s| > 0 && s[0] == x && (AllLeft(s, z) || NoneRight(s, z))
  }

  // Two numbers of 64 bits whose difference wraps around.
  predicate Far(x: int, z: int) { IsI64(x) && IsI64(z) && z - x >= TWO_63 }

  lemma FarIsNotGreater(x: int, z: int)
    requires Far(x, z)
    ensures !Greater(z, x) && x != z
  {
    WrapBeyond(z - x);
  }

  lemma ChildSide(at: nat, top: nat)
    requires at > 0 && (top == 2 * at + 1 || top == 2 * at + 2)
    ensures Side(top) == Side(at)
  {
    assert (top - 1) / 2 == at;
  }

  // Below the root nothing changes sides.
  lemma {:induction false} SiftStaysAside(s: seq<int>, at: nat, x: int, z: int)
    requires 0 < at < |s|
    ensures Sift(s, |s|, at)[0] == s[0]
    ensures Blocked(s, x, z) ==> Blocked(Sift(s, |s|, at), x, z)
    decreases |s| - at
  {
    hide Select, Side;
    var top := Select(s, |s|, at);
    if top != at {
      ChildSide(at, top);
      SiftStaysAside(Swapped(s, at, top), top, x, z);
    }
  }

  lemma RootIsNot(s: seq<int>, x: int, z: int)
    requires Blocked(s, x, z) && Far(x, z)
    ensures Sift(s, |s|, 0)[0] != z
  {
    FarIsNotGreater(x, z);
    assert Side(1) == 1 && Side(2) == 2;
    hide Far, Greater;
    var top := Select(s, |s|, 0);
    if top != 0 {
      SiftStaysAside(Swapped(s, 0, top), top, x, z);
    }
  }

  lemma {:induction false} MadeRootIsNot(s: seq<int>, i: nat, x: int, z: int)
    requires i <= |s| / 2 && Blocked(s, x, z) && Far(x, z)
    ensures Made(s, i)[0] != z
    decreases i
  {
    hide Blocked, Far, Sift;
    if i == 0 {
      RootIsNot(s, x, z);
    } else {
      SiftStaysAside(s, i, x, z);
      MadeRootIsNot(Sift(s, |s|, i), i - 1, x, z);
    }
  }

  // What is first extracted stays last, so the maximum is not last.
  lemma BlockedFails(s: seq<int>, x: int, z: int)
    requires Blocked(s, x, z) && Far(x, z) && z in s && forall y :: y in s ==> y <= z
    ensures !Sorted(HeapSorted(s))
  {
    hide Blocked, Far, Made, Extracted;
    BlockedNonEmpty(s, x, z);
    var n := |s|;
    var made := Made(s, n / 2);
    MadeRootIsNot(s, n / 2, x, z);
    ExtractedPermutes(made, n - 1);
    SortedFromPermutes(Extracted(made, n - 1), n - 1);
    var t := HeapSorted(s);
    assert t[n - 1] == t[n - 1..][0] == Swapped(made, 0, n - 1)[n - 1] != z;
    HeapSortedPermutes(s);
    assert z in multiset(s) && z in multiset(t);
    var k: nat :| k < n && t[k] == z;
    assert t[n - 1] in multiset(t) && t[n - 1] in multiset(s);
    assert t[n - 1] in s && t[k] > t[n - 1];
  }

  lemma BlockedNonEmpty(s: seq<int>, x: int, z: int)
    requires Blocked(s, x, z)
    ensures |s| > 0
  {
  }

  ghost function RightCopies(s: seq<int>, z: int): (c: set<nat>)
    ensures forall j: nat :: j in c <==> j < |s| && Side(j) == 2 && s[j] == z
  {
    set j: nat | j < |s| && Side(j) == 2 && s[j] == z
  }

  // Moving copies of z from the right to the left.
  lemma {:induction false} Blocking(s: seq<int>, x: int, z: int) returns (t: seq<int>)
    requires |s| > 0 && s[0] == x && x != z
    ensures multiset(t) == multiset(s) && Blocked(t, x, z)
    decreases |RightCopies(s, z)|
  {
    t := s;
    if !AllLeft(s, z) && !NoneRight(s, z) {
      var i: nat :| i < |s| && Side(i) == 1 && s[i] != z;
      var j: nat :| j < |s| && Side(j) == 2 && s[j] == z;
      var u := Swapped(s, i, j);
      assert Side(0) == 0;
      SwapMultiset(s, i, j);
      assert RightCopies(u, z) == RightCopies(s, z) - {j};
      t := Blocking(u, x, z);
    }
  }

  lemma {:induction false} Maximum(s: seq<int>) returns (z: int)
    requires s != []
    ensures z in s && forall y :: y in s ==> y <= z
  {
    z := s[0];
    if |s| > 1 {
      var m := Maximum(s[1..]);
      assert s == [s[0]] + s[1..];
      z := if m > s[0] then m else s[0];
    }
  }

  // Numbers that are too far apart have an order in which they are not sorted.
  lemma SomeOrderFails(s: seq<int>) returns (t: seq<int>)
    requires !Exact(s) && forall x :: x in s ==> IsI64(x)
    ensures multiset(t) == multiset(s) && !Sorted(HeapSorted(t))
  {
    hide HeapSorted, Blocked;
    var a, b :| a in s && b in s && !IsI64(a - b);
    var x := if a < b then a else b;
    var z := Maximum(s);
    assert Far(x, z);
    FarIsNotGreater(x, z);
    var k: nat :| k < |s| && s[k] == x;
    SwapMultiset(s, 0, k);
    t := Blocking(Swapped(s, 0, k), x, z);
    forall y ensures y in t <==> y in s {
      assert y in multiset(t) <==> y in multiset(s);
    }
    BlockedFails(t, x, z);
  }

  // Heap sort sorts numbers in every order exactly when no two of them are
  // 2^63 or more apart.
  lemma SortsIff(s: seq<int>)
    requires forall x :: x in s ==> IsI64(x)
    ensures Exact(s) <==> forall t :: multiset(t) == multiset(s) ==> Sorted(HeapSorted(t))
  {
    hide HeapSorted, Exact, Sorted;
    if Exact(s) {
      forall t | multiset(t) == multiset(s) ensures Sorted(HeapSorted(t)) {
        ExactPermutes(s, t);
        ExactSorts(t);
      }
    } else {
      var t := SomeOrderFails(s);
    }
  }

  // Two elements are sorted, or not, in either order.
  lemma TwoElements(s: seq<int>)
    requires |s| == 2 && IsI64(s[0]) && IsI64(s[1])
    ensures Sorted(HeapSorted(s)) <==> IsI64(s[1] - s[0])
  {
    var made := Made(s, 1);
    TwoMade(s);
    TwoSorted(made);
    TwoSortedIff(s[0], s[1]);
  }

  lemma TwoMade(s: seq<int>)
    requires |s| == 2
    ensures Made(s, 1) == if Greater(s[1], s[0]) then [s[1], s[0]] else s
  {
    hide Greater;
    assert Sift(s, 2, 1) == s;
    assert Made(s, 1) == Made(s, 0) == Sift(s, 2, 0);
    var t := Swapped(s, 0, 1);
    assert Sift(t, 2, 1) == t == [s[1], s[0]];
  }

  lemma TwoSorted(s: seq<int>)
    requires |s| == 2
    ensures SortedFrom(s, 2) == [s[1], s[0]]
  {
    hide Greater;
    var t := Swapped(s, 0, 1);
    assert Extracted(s, 1) == Sift(t, 1, 0) == t;
    assert Extracted(t, 0) == Sift(Swapped(t, 0, 0), 0, 0) == t;
    assert SortedFrom(t, 1) == SortedFrom(t, 0) == t;
  }

  lemma TwoSortedIff(x: int, y: int)
    requires IsI64(x) && IsI64(y)
    ensures Sorted(if Greater(y, x) then [x, y] else [y, x]) <==> IsI64(y - x)
  {
    WrapBeyond(y - x);
    var s := if Greater(y, x) then [x, y] else [y, x];
    assert Sorted(s) <==> s[0] <= s[1];
  }

  // One extraction of the sorting loop.
  method Extract(a: array<int>, l: nat)
    requires l < a.Length
    modifies a
    ensures a[..] == Extracted(old(a[..]), l)
  {
    hide Swapped;
    Swap(a, 0, l);
    Heapify(a, l, 0);
  }

  // Always a permutation and always terminating; sorted when no two elements
  // are 2^63 or more apart, which SortsIff shows to be necessary.
  method HeapSort(a: array<int>)
    modifies a
    ensures a[..] == HeapSorted(old(a[..]))
    ensures multiset(a[..]) == multiset(old(a[..]))
    ensures Exact(old(a[..])) ==> Sorted(a[..])
    ensures a.Length == 2 && IsI64(old(a[0])) && IsI64(old(a[1])) ==> (Sorted(a[..]) <==> IsI64(old(a[1] - a[0])))
  {
    hide Exact, Sorted, IsI64, Extracted;
    ghost var was := a[..];
    MakeHeap(a);
    var l := a.Length;
    while l > 0
      invariant 0 <= l <= a.Length
      invariant SortedFrom(a[..], l) == HeapSorted(was)
    {
      l := l - 1;
      Extract(a, l);
    }
    HeapSortedPermutes(was);
    if Exact(was) {
      ExactSorts(was);
    }
    if a.Length == 2 && IsI64(was[0]) && IsI64(was[1]) {
      TwoElements(was);
    }
  }
}
