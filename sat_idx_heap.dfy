/**
 * The index-tracked binary heap of the `simple-sat` solver
 * (lib/simple-sat/src/index_map.rs, `IdxHeap`; lib/simple-sat/src/idx/idx_heap.rs
 * holds the same code). Keys are represented by their `idx()`. `heap` is the
 * array of keys in heap order; `index[k]` is the position of key `k` in
 * `heap`, or `usize::MAX` when `k` is absent.
 *
 * The comparator `cmp(a, b)` ("a belongs above b") is one of the comparators
 * the repository passes, given as a `Cmp` value. The heap order is stated and
 * proved on the pure functions `SiftUpSeq`, `SiftDownSeq`, `InsertSeq`,
 * `PopSeq`, `UpdateSeq` and `SortedSeq`; the class keeps `index` consistent
 * with `heap` and moves `heap` exactly as those functions say.
 */
module IdxHeap {
  import opened Wrappers
  import IdxVec

  const MAX: nat := 0xFFFF_FFFF_FFFF_FFFF

  /**
   * The comparators: `a > b` and `a < b` on keys (the `Ord` comparator and
   * the test comparators), and the solver's comparators on variable
   * activity, with or without the tie-break towards the smaller variable.
   */
  datatype Cmp = KeyGreater | KeyLess | ByActivity(act: seq<int>, tieBreak: bool)

  function Rank(c: Cmp, k: nat): int
  {
    match c
    case KeyGreater => k
    case KeyLess => -(k as int)
    case ByActivity(act, _) => if k < |act| then act[k] else 0
  }

  /** `cmp(a, b)`: `a` is strictly better than `b`. */
  predicate Better(c: Cmp, a: nat, b: nat)
  {
    Rank(c, a) > Rank(c, b) || (c.ByActivity? && c.tieBreak && Rank(c, a) == Rank(c, b) && a < b)
  }

  function Parent(i: nat): nat
    requires i > 0
  {
    (i - 1) / 2
  }

  function Left(i: nat): nat { 2 * i + 1 }

  function Right(i: nat): nat { 2 * i + 2 }

  function Swap(h: seq<nat>, i: nat, j: nat): (r: seq<nat>)
    requires i < |h| && j < |h|
    ensures |r| == |h| && r[i] == h[j] && r[j] == h[i]
    ensures forall k :: 0 <= k < |h| && k != i && k != j ==> r[k] == h[k]
  {
    h[i := h[j]][j := h[i]]
  }

  /** The child `sift_down_by` compares against: the right one only if it is better than the left. */
  function BestChild(h: seq<nat>, c: Cmp, i: nat): (ch: nat)
    requires Left(i) < |h|
    ensures ch == Left(i) || ch == Right(i)
    ensures ch < |h| && Parent(ch) == i
  {
    if Right(i) < |h| && Better(c, h[Right(i)], h[Left(i)]) then Right(i) else Left(i)
  }

  // ---------- the operations permute the keys ----------

  lemma SwapPerm(h: seq<nat>, i: nat, j: nat)
    requires i < |h| && j < |h|
    ensures multiset(Swap(h, i, j)) == multiset(h)
  {
  }

  /** `sift_up_by` only rearranges the keys. */
  lemma {:induction false} SiftUpPerm(h: seq<nat>, c: Cmp, i: nat)
    requires i < |h|
    ensures multiset(SiftUpSeq(h, c, i)) == multiset(h)
    decreases i
  {
    if i > 0 && Better(c, h[i], h[Parent(i)]) {
      SwapPerm(h, i, Parent(i));
      SiftUpPerm(Swap(h, i, Parent(i)), c, Parent(i));
    }
  }

  /** `sift_down_by` only rearranges the keys. */
  lemma {:induction false} SiftDownPerm(h: seq<nat>, c: Cmp, i: nat)
    requires i < |h|
    ensures multiset(SiftDownSeq(h, c, i)) == multiset(h)
    decreases |h| - i
  {
    if Left(i) < |h| {
      var ch := BestChild(h, c, i);
      if Better(c, h[ch], h[i]) {
        SwapPerm(h, ch, i);
        SiftDownPerm(Swap(h, ch, i), c, ch);
      }
    }
  }

  /** `insert_by` of an absent key adds exactly that key. */
  lemma InsertPerm(h: seq<nat>, c: Cmp, k: nat)
    ensures multiset(InsertSeq(h, c, k)) == multiset(h) + multiset{k}
  {
    SiftUpPerm(h + [k], c, |h|);
  }

  /** `update_by` only rearranges the keys. */
  lemma UpdatePerm(h: seq<nat>, c: Cmp, i: nat)
    requires i < |h|
    ensures multiset(UpdateSeq(h, c, i)) == multiset(h)
  {
    SiftDownPerm(h, c, i);
    SiftUpPerm(SiftDownSeq(h, c, i), c, i);
  }

  // ---------- heap order ----------

  /** No key is better than its parent. */
  ghost predicate Ordered(h: seq<nat>, c: Cmp)
  {
    forall j :: 0 < j < |h| ==> !Better(c, h[j], h[Parent(j)])
  }

  /**
   * Ordered except possibly between position `i` and its parent, and the
   * children of `i` are not better than the parent of `i`: the state
   * `sift_up_by(i)` works in.
   */
  ghost predicate UpOrdered(h: seq<nat>, c: Cmp, i: nat)
  {
    (forall j :: 0 < j < |h| && j != i ==> !Better(c, h[j], h[Parent(j)])) &&
    (i > 0 ==> forall j :: 0 < j < |h| && Parent(j) == i ==> !Better(c, h[j], h[Parent(i)]))
  }

  /**
   * Ordered except possibly where position `i` is parent or child, and the
   * children of `i` are not better than the parent of `i`: the state
   * `sift_down_by(i)` works in, and the state after the key at `i` changed
   * its priority.
   */
  ghost predicate AroundOrdered(h: seq<nat>, c: Cmp, i: nat)
  {
    (forall j :: 0 < j < |h| && j != i && Parent(j) != i ==> !Better(c, h[j], h[Parent(j)])) &&
    (i > 0 ==> forall j :: 0 < j < |h| && Parent(j) == i ==> !Better(c, h[j], h[Parent(i)]))
  }

  ghost predicate ParentOk(h: seq<nat>, c: Cmp, i: nat)
    requires i < |h|
  {
    i == 0 || !Better(c, h[i], h[Parent(i)])
  }

  // ---------- the operations on the key array ----------

  /** `sift_up_by(i)`: swap with the parent while better than it. */
  function SiftUpSeq(h: seq<nat>, c: Cmp, i: nat): (r: seq<nat>)
    requires i < |h|
    ensures |r| == |h|
    decreases i
  {
    if i == 0 then h
    else if Better(c, h[i], h[Parent(i)]) then SiftUpSeq(Swap(h, i, Parent(i)), c, Parent(i))
    else h
  }

  /** `sift_down_by(i)`: swap with the better child while it is better. */
  function SiftDownSeq(h: seq<nat>, c: Cmp, i: nat): (r: seq<nat>)
    requires i < |h|
    ensures |r| == |h|
    decreases |h| - i
  {
    if Left(i) >= |h| then h
    else
      var ch := BestChild(h, c, i);
      if Better(c, h[ch], h[i]) then SiftDownSeq(Swap(h, ch, i), c, ch) else h
  }

  /** `insert_by` of an absent key: push, then sift up from the end. */
  function InsertSeq(h: seq<nat>, c: Cmp, k: nat): (r: seq<nat>)
    ensures |r| == |h| + 1
  {
    SiftUpSeq(h + [k], c, |h|)
  }

  /** `pop_by` of a non-empty heap: `swap_remove(0)`, then sift down from the root. */
  function PopSeq(h: seq<nat>, c: Cmp): (r: seq<nat>)
    requires |h| > 0
    ensures |r| == |h| - 1
  {
    if |h| == 1 then [] else SiftDownSeq([h[|h| - 1]] + h[1..|h| - 1], c, 0)
  }

  /** `update_by` of the key at position `i`: sift down, then sift up from `i`. */
  function UpdateSeq(h: seq<nat>, c: Cmp, i: nat): (r: seq<nat>)
    requires i < |h|
    ensures |r| == |h|
  {
    SiftUpSeq(SiftDownSeq(h, c, i), c, i)
  }

  /** `into_sorted_vec_by`: the keys in the order repeated `pop_by` returns them. */
  function SortedSeq(h: seq<nat>, c: Cmp): (r: seq<nat>)
    ensures |r| == |h|
    decreases |h|
  {
    if |h| == 0 then [] else [h[0]] + SortedSeq(PopSeq(h, c), c)
  }

  // ---------- the order proofs ----------

  lemma SiftUpStep(h: seq<nat>, c: Cmp, i: nat)
    requires 0 < i < |h| && UpOrdered(h, c, i) && Better(c, h[i], h[Parent(i)])
    ensures UpOrdered(Swap(h, i, Parent(i)), c, Parent(i))
  {
    var p := Parent(i);
    var h' := Swap(h, i, p);
    forall j | 0 < j < |h'| && j != p
      ensures !Better(c, h'[j], h'[Parent(j)])
    {
      if j == i {
      } else if Parent(j) == p {
        assert !Better(c, h[j], h[p]);
      } else if Parent(j) == i {
        assert !Better(c, h[j], h[p]);
      } else {
        assert !Better(c, h[j], h[Parent(j)]);
      }
    }
    if p > 0 {
      forall j | 0 < j < |h'| && Parent(j) == p
        ensures !Better(c, h'[j], h'[Parent(p)])
      {
        assert !Better(c, h[p], h[Parent(p)]);
        if j != i {
          assert !Better(c, h[j], h[p]);
        }
      }
    }
  }

  lemma {:induction false} SiftUpOrders(h: seq<nat>, c: Cmp, i: nat)
    requires i < |h| && UpOrdered(h, c, i)
    ensures Ordered(SiftUpSeq(h, c, i), c)
    decreases i
  {
    if i > 0 && Better(c, h[i], h[Parent(i)]) {
      SiftUpStep(h, c, i);
      SiftUpOrders(Swap(h, i, Parent(i)), c, Parent(i));
    }
  }

  lemma BestChildBest(h: seq<nat>, c: Cmp, i: nat)
    requires Left(i) < |h|
    ensures forall j :: 0 < j < |h| && Parent(j) == i ==> !Better(c, h[j], h[BestChild(h, c, i)])
  {
  }

  lemma SiftDownStep(h: seq<nat>, c: Cmp, i: nat)
    requires i < |h| && Left(i) < |h| && AroundOrdered(h, c, i)
    requires Better(c, h[BestChild(h, c, i)], h[i])
    ensures AroundOrdered(Swap(h, BestChild(h, c, i), i), c, BestChild(h, c, i))
    ensures ParentOk(Swap(h, BestChild(h, c, i), i), c, BestChild(h, c, i))
  {
    var ch := BestChild(h, c, i);
    var h' := Swap(h, ch, i);
    BestChildBest(h, c, i);
    forall j | 0 < j < |h'| && j != ch && Parent(j) != ch
      ensures !Better(c, h'[j], h'[Parent(j)])
    {
      if j == i {
        assert !Better(c, h[ch], h[Parent(i)]);
      } else if Parent(j) == i {
        assert !Better(c, h[j], h[ch]);
      } else {
        assert !Better(c, h[j], h[Parent(j)]);
      }
    }
    forall j | 0 < j < |h'| && Parent(j) == ch
      ensures !Better(c, h'[j], h'[i])
    {
      assert !Better(c, h[j], h[ch]);
    }
  }

  /** One step of `sift_down_by`, written with the swap the loop performs. */
  lemma SiftDownUnfold(h: seq<nat>, c: Cmp, i: nat)
    requires i < |h| && Left(i) < |h| && Better(c, h[BestChild(h, c, i)], h[i])
    ensures SiftDownSeq(Swap(h, i, BestChild(h, c, i)), c, BestChild(h, c, i)) == SiftDownSeq(h, c, i)
  {
    var ch := BestChild(h, c, i);
    assert Swap(h, i, ch) == Swap(h, ch, i);
  }

  /** `sift_down_by` stops at a leaf and where the better child is not better. */
  lemma SiftDownDone(h: seq<nat>, c: Cmp, i: nat)
    requires i < |h| && (Left(i) < |h| ==> !Better(c, h[BestChild(h, c, i)], h[i]))
    ensures SiftDownSeq(h, c, i) == h
  {
  }

  lemma SiftDownStop(h: seq<nat>, c: Cmp, i: nat)
    requires i < |h| && AroundOrdered(h, c, i)
    requires Left(i) < |h| ==> !Better(c, h[BestChild(h, c, i)], h[i])
    ensures UpOrdered(h, c, i)
    ensures ParentOk(h, c, i) ==> Ordered(h, c)
  {
    if Left(i) < |h| {
      BestChildBest(h, c, i);
    }
  }

  lemma OrderedUp(h: seq<nat>, c: Cmp, i: nat)
    requires i < |h| && Ordered(h, c)
    ensures UpOrdered(h, c, i)
  {
    if i > 0 {
      forall j | 0 < j < |h| && Parent(j) == i
        ensures !Better(c, h[j], h[Parent(i)])
      {
        assert !Better(c, h[i], h[Parent(i)]);
      }
    }
  }

  lemma {:induction false} SiftDownOrders(h: seq<nat>, c: Cmp, i: nat)
    requires i < |h| && AroundOrdered(h, c, i)
    ensures UpOrdered(SiftDownSeq(h, c, i), c, i)
    ensures ParentOk(h, c, i) ==> Ordered(SiftDownSeq(h, c, i), c)
    decreases |h| - i
  {
    if Left(i) < |h| && Better(c, h[BestChild(h, c, i)], h[i]) {
      var ch := BestChild(h, c, i);
      SiftDownStep(h, c, i);
      SiftDownOrders(Swap(h, ch, i), c, ch);
      OrderedUp(SiftDownSeq(h, c, i), c, i);
    } else {
      SiftDownStop(h, c, i);
    }
  }

  /** No key of an ordered heap is better than its root. */
  lemma {:induction false} RootBest(h: seq<nat>, c: Cmp, j: nat)
    requires j < |h| && Ordered(h, c)
    ensures !Better(c, h[j], h[0])
    decreases j
  {
    if j > 0 {
      RootBest(h, c, Parent(j));
    }
  }

  /** `insert_by` keeps the heap ordered and adds the key. */
  lemma InsertOrdered(h: seq<nat>, c: Cmp, k: nat)
    requires Ordered(h, c)
    ensures Ordered(InsertSeq(h, c, k), c)
  {
    var h' := h + [k];
    assert UpOrdered(h', c, |h|) by {
      forall j | 0 < j < |h'| && j != |h|
        ensures !Better(c, h'[j], h'[Parent(j)])
      {
        assert h'[j] == h[j] && h'[Parent(j)] == h[Parent(j)];
      }
    }
    SiftUpOrders(h', c, |h|);
  }

  /** `pop_by` removes exactly the root. */
  lemma PopPerm(h: seq<nat>, c: Cmp)
    requires |h| > 0
    ensures multiset(PopSeq(h, c)) == multiset(h) - multiset{h[0]}
  {
    var n := |h|;
    if n > 1 {
      var mid := h[1..n - 1];
      assert h == [h[0]] + mid + [h[n - 1]];
      var t := [h[n - 1]] + mid;
      SiftDownPerm(t, c, 0);
      assert multiset(t) == multiset(h) - multiset{h[0]};
    } else {
      assert h == [h[0]];
    }
  }

  /** `pop_by` keeps the heap ordered, and no remaining key beats the removed root. */
  lemma PopOrdered(h: seq<nat>, c: Cmp)
    requires |h| > 0 && Ordered(h, c)
    ensures Ordered(PopSeq(h, c), c)
    ensures forall k :: k in PopSeq(h, c) ==> !Better(c, k, h[0])
  {
    var n := |h|;
    if n > 1 {
      var t := [h[n - 1]] + h[1..n - 1];
      assert AroundOrdered(t, c, 0) by {
        forall j | 0 < j < |t| && Parent(j) != 0
          ensures !Better(c, t[j], t[Parent(j)])
        {
          assert t[j] == h[j] && t[Parent(j)] == h[Parent(j)];
        }
      }
      SiftDownOrders(t, c, 0);
    }
    PopPerm(h, c);
    forall k | k in PopSeq(h, c)
      ensures !Better(c, k, h[0])
    {
      assert k in multiset(PopSeq(h, c));
      var j :| 0 <= j < |h| && h[j] == k;
      RootBest(h, c, j);
    }
  }

  /** `update_by` restores the order after the key at `i` changed its priority. */
  lemma UpdateOrdered(h: seq<nat>, c: Cmp, i: nat)
    requires i < |h| && AroundOrdered(h, c, i)
    ensures Ordered(UpdateSeq(h, c, i), c)
  {
    SiftDownOrders(h, c, i);
    SiftUpOrders(SiftDownSeq(h, c, i), c, i);
  }

  /**
   * Changing the activity of the key at position `i` alone leaves the heap in
   * the state `update_by` repairs.
   */
  lemma ActivityChanged(h: seq<nat>, act: seq<int>, act': seq<int>, t: bool, i: nat)
    requires i < |h| && Ordered(h, ByActivity(act, t))
    requires forall j :: 0 <= j < |h| && j != i ==> Rank(ByActivity(act', t), h[j]) == Rank(ByActivity(act, t), h[j])
    ensures AroundOrdered(h, ByActivity(act', t), i)
  {
    var c := ByActivity(act, t);
    if i > 0 {
      forall j | 0 < j < |h| && Parent(j) == i
        ensures !Better(ByActivity(act', t), h[j], h[Parent(i)])
      {
        assert !Better(c, h[j], h[i]) && !Better(c, h[i], h[Parent(i)]);
      }
    }
  }

  predicate Sorted(s: seq<nat>, c: Cmp)
  {
    forall j :: 0 < j < |s| ==> !Better(c, s[j], s[j - 1])
  }

  /** Draining an ordered heap yields all its keys, each no better than the one before. */
  lemma {:induction false} SortedSeqSorted(h: seq<nat>, c: Cmp)
    requires Ordered(h, c)
    ensures multiset(SortedSeq(h, c)) == multiset(h)
    ensures Sorted(SortedSeq(h, c), c)
    decreases |h|
  {
    if |h| > 0 {
      var rest := PopSeq(h, c);
      PopOrdered(h, c);
      PopPerm(h, c);
      SortedSeqSorted(rest, c);
      var s := SortedSeq(rest, c);
      var r := SortedSeq(h, c);
      assert r == [h[0]] + s;
      assert multiset(r) == multiset{h[0]} + multiset(s);
      assert h[0] in multiset(h);
      if |s| > 0 {
        SortedSeqHead(rest, c);
        assert !Better(c, s[0], h[0]);
      }
      SortedCons(h[0], s, c);
    }
  }

  lemma SortedSeqHead(h: seq<nat>, c: Cmp)
    requires |h| > 0
    ensures SortedSeq(h, c)[0] == h[0]
  {
  }

  lemma SortedCons(x: nat, s: seq<nat>, c: Cmp)
    requires Sorted(s, c) && (|s| > 0 ==> !Better(c, s[0], x))
    ensures Sorted([x] + s, c)
  {
    var r := [x] + s;
    forall j | 0 < j < |r|
      ensures !Better(c, r[j], r[j - 1])
    {
      if j > 1 {
        assert r[j] == s[j - 1] && r[j - 1] == s[j - 2];
      }
    }
  }

  // ---------- heapify ----------

  /** `heapify_by`'s loop: `sift_down_by` at positions `n - 1` down to `0`. */
  function HeapifySeq(h: seq<nat>, c: Cmp, n: nat): (r: seq<nat>)
    requires n <= |h|
    ensures |r| == |h|
    decreases n
  {
    if n == 0 then h else HeapifySeq(SiftDownSeq(h, c, n - 1), c, n - 1)
  }

  /** No key whose parent is at position `k` or later is better than that parent. */
  ghost predicate OrderedFrom(h: seq<nat>, c: Cmp, k: nat)
  {
    forall j :: 0 < j < |h| && Parent(j) >= k ==> !Better(c, h[j], h[Parent(j)])
  }

  /**
   * The subtree rooted at `k` is ordered except around position `i`, a
   * descendant of `k` (or `k` itself), whose children are not better than
   * its parent: the state `sift_down_by(k)` works in during `heapify_by`.
   */
  ghost predicate DownFrom(h: seq<nat>, c: Cmp, i: nat, k: nat)
  {
    k <= i &&
    (forall j :: 0 < j < |h| && Parent(j) >= k && j != i && Parent(j) != i ==> !Better(c, h[j], h[Parent(j)])) &&
    (i > k ==> i > 0 && Parent(i) >= k && forall j :: 0 < j < |h| && Parent(j) == i ==> !Better(c, h[j], h[Parent(i)]))
  }

  lemma BetterAsymmetric(c: Cmp, a: nat, b: nat)
    requires Better(c, a, b)
    ensures !Better(c, b, a)
  {
  }

  lemma DownFromStep(h: seq<nat>, c: Cmp, i: nat, k: nat)
    requires i < |h| && Left(i) < |h| && DownFrom(h, c, i, k)
    requires Better(c, h[BestChild(h, c, i)], h[i])
    ensures DownFrom(Swap(h, BestChild(h, c, i), i), c, BestChild(h, c, i), k)
    ensures ParentOk(Swap(h, BestChild(h, c, i), i), c, BestChild(h, c, i))
  {
    var ch := BestChild(h, c, i);
    var h' := Swap(h, ch, i);
    BestChildBest(h, c, i);
    BetterAsymmetric(c, h[ch], h[i]);
    forall j | 0 < j < |h'| && Parent(j) >= k && j != ch && Parent(j) != ch
      ensures !Better(c, h'[j], h'[Parent(j)])
    {
      if j == i {
        assert !Better(c, h[ch], h[Parent(i)]);
      } else if Parent(j) == i {
        assert !Better(c, h[j], h[ch]);
      } else {
        assert !Better(c, h[j], h[Parent(j)]);
      }
    }
    forall j | 0 < j < |h'| && Parent(j) == ch
      ensures !Better(c, h'[j], h'[i])
    {
      assert !Better(c, h[j], h[ch]);
    }
  }

  lemma DownFromStop(h: seq<nat>, c: Cmp, i: nat, k: nat)
    requires i < |h| && DownFrom(h, c, i, k) && (i > k ==> ParentOk(h, c, i))
    requires Left(i) < |h| ==> !Better(c, h[BestChild(h, c, i)], h[i])
    ensures OrderedFrom(h, c, k)
  {
    if Left(i) < |h| {
      BestChildBest(h, c, i);
    }
  }

  lemma DownFromStart(h: seq<nat>, c: Cmp, i: nat)
    requires OrderedFrom(h, c, i + 1)
    ensures DownFrom(h, c, i, i)
  {
  }

  /** `sift_down_by(i)` on a heap ordered below `i` orders the subtree of `i`. */
  lemma {:induction false} DownFromOrders(h: seq<nat>, c: Cmp, i: nat, k: nat)
    requires i < |h| && DownFrom(h, c, i, k) && (i > k ==> ParentOk(h, c, i))
    ensures OrderedFrom(SiftDownSeq(h, c, i), c, k)
    decreases |h| - i
  {
    if Left(i) < |h| && Better(c, h[BestChild(h, c, i)], h[i]) {
      var ch := BestChild(h, c, i);
      DownFromStep(h, c, i, k);
      DownFromOrders(Swap(h, ch, i), c, ch, k);
    } else {
      DownFromStop(h, c, i, k);
    }
  }

  /** `heapify_by` orders any key array. */
  lemma {:induction false} HeapifyOrdered(h: seq<nat>, c: Cmp, n: nat)
    requires n <= |h| && OrderedFrom(h, c, n)
    ensures Ordered(HeapifySeq(h, c, n), c)
    decreases n
  {
    if n > 0 {
      DownFromStart(h, c, n - 1);
      DownFromOrders(h, c, n - 1, n - 1);
      HeapifyOrdered(SiftDownSeq(h, c, n - 1), c, n - 1);
    }
  }

  /** `heapify_by` of a whole array: ordered, and holding the same keys. */
  lemma HeapifyAll(h: seq<nat>, c: Cmp)
    ensures Ordered(HeapifySeq(h, c, |h|), c)
    ensures multiset(HeapifySeq(h, c, |h|)) == multiset(h)
  {
    HeapifyOrdered(h, c, |h|);
    HeapifyPerm(h, c, |h|);
  }

  lemma {:induction false} HeapifyPerm(h: seq<nat>, c: Cmp, n: nat)
    requires n <= |h|
    ensures multiset(HeapifySeq(h, c, n)) == multiset(h)
    decreases n
  {
    if n > 0 {
      SiftDownPerm(h, c, n - 1);
      HeapifyPerm(SiftDownSeq(h, c, n - 1), c, n - 1);
    }
  }

  /**
   * The index writes of `sift_down_by(i)` on index `ix`: `None` where a write
   * `index[key] = pos` falls outside the index vector (and Rust panics).
   */
  function SiftDownWrites(h: seq<nat>, ix: seq<nat>, c: Cmp, i: nat): (r: Option<seq<nat>>)
    requires i < |h|
    ensures r.Some? ==> |r.value| == |ix|
    ensures r.Some? ==> h[i] < |ix|
    decreases |h| - i
  {
    if Left(i) < |h| && Better(c, h[BestChild(h, c, i)], h[i]) then
      var ch := BestChild(h, c, i);
      if h[ch] < |ix| then SiftDownWrites(Swap(h, ch, i), ix[h[ch] := i], c, ch) else None
    else if h[i] < |ix| then
      Some(ix[h[i] := i])
    else
      None
  }

  /** `heapify_by` as written: the index starts empty and the loop sifts down from the end. */
  function HeapifyWritten(h: seq<nat>, ix: seq<nat>, c: Cmp, n: nat): (r: Option<seq<nat>>)
    requires n <= |h|
    ensures r.Some? ==> |r.value| == |ix|
    decreases n
  {
    if n == 0 then Some(ix)
    else
      match SiftDownWrites(h, ix, c, n - 1)
      case None => None
      case Some(ix') => HeapifyWritten(SiftDownSeq(h, c, n - 1), ix', c, n - 1)
  }

  /** With the index left empty, the first index write of `heapify_by` is out of bounds. */
  lemma HeapifyWrittenPanics(from: seq<nat>, c: Cmp)
    requires |from| > 0
    ensures HeapifyWritten(from, [], c, |from|) == None
  {
    var n := |from|;
    assert SiftDownWrites(from, [], c, n - 1) == None;
  }

  /** The heapify test input [3, 1, 5, 2, 4] panics as written. */
  lemma HeapifyWrittenExample()
    ensures HeapifyWritten([3, 1, 5, 2, 4], [], KeyGreater, 5) == None
  {
    HeapifyWrittenPanics([3, 1, 5, 2, 4], KeyGreater);
  }

  /** The keys of `ks` inserted in order into an empty heap. */
  function InsertAll(ks: seq<nat>, c: Cmp): (r: seq<nat>)
    ensures |r| == |ks|
  {
    if |ks| == 0 then []
    else
      InsertSeq(InsertAll(ks[..|ks| - 1], c), c, ks[|ks| - 1])
  }

  lemma UpSwap(h: seq<nat>, c: Cmp, i: nat)
    requires 0 < i < |h| && Better(c, h[i], h[Parent(i)])
    ensures SiftUpSeq(h, c, i) == SiftUpSeq(Swap(h, i, Parent(i)), c, Parent(i))
  {
  }

  lemma UpStop(h: seq<nat>, c: Cmp, i: nat)
    requires i < |h| && (i > 0 ==> !Better(c, h[i], h[Parent(i)]))
    ensures SiftUpSeq(h, c, i) == h
  {
  }

  lemma InsertAllSnoc(ks: seq<nat>, k: nat, c: Cmp)
    ensures InsertAll(ks + [k], c) == InsertSeq(InsertAll(ks, c), c, k)
  {
    assert (ks + [k])[..|ks|] == ks;
  }

  lemma SortedSeqUnfold(h: seq<nat>, c: Cmp)
    requires |h| > 0
    ensures SortedSeq(h, c) == [h[0]] + SortedSeq(PopSeq(h, c), c)
  {
  }

  lemma MinInsert1()
    ensures InsertSeq([], KeyLess, 3) == [3]
  {
    var c := KeyLess;
    assert [] + [3] == [3];
    UpStop([3], c, 0);
  }

  lemma MinInsert2()
    ensures InsertSeq([3], KeyLess, 1) == [1, 3]
  {
    var c := KeyLess;
    assert [3] + [1] == [3, 1];
    assert Swap([3, 1], 1, 0) == [1, 3];
    UpSwap([3, 1], c, 1);
    UpStop([1, 3], c, 0);
  }

  lemma MinInsert3()
    ensures InsertSeq([1, 3], KeyLess, 5) == [1, 3, 5]
  {
    var c := KeyLess;
    assert [1, 3] + [5] == [1, 3, 5];
    UpStop([1, 3, 5], c, 2);
  }

  lemma MinInsert4()
    ensures InsertSeq([1, 3, 5], KeyLess, 2) == [1, 2, 5, 3]
  {
    var c := KeyLess;
    assert [1, 3, 5] + [2] == [1, 3, 5, 2];
    assert Swap([1, 3, 5, 2], 3, 1) == [1, 2, 5, 3];
    UpSwap([1, 3, 5, 2], c, 3);
    UpStop([1, 2, 5, 3], c, 1);
  }

  lemma MinInsert5()
    ensures InsertSeq([1, 2, 5, 3], KeyLess, 4) == [1, 2, 5, 3, 4]
  {
    var c := KeyLess;
    assert [1, 2, 5, 3] + [4] == [1, 2, 5, 3, 4];
    UpStop([1, 2, 5, 3, 4], c, 4);
  }

  /** The min-heap test: inserting 3, 1, 5, 2, 4 gives the array `[1, 2, 5, 3, 4]`. */
  lemma MinHeapInserts()
    ensures InsertAll([3, 1, 5, 2, 4], KeyLess) == [1, 2, 5, 3, 4]
  {
    assert [] + [3] == [3];
    InsertAllSnoc([], 3, KeyLess);
    MinInsert1();
    assert [3] + [1] == [3, 1];
    InsertAllSnoc([3], 1, KeyLess);
    MinInsert2();
    assert [3, 1] + [5] == [3, 1, 5];
    InsertAllSnoc([3, 1], 5, KeyLess);
    MinInsert3();
    assert [3, 1, 5] + [2] == [3, 1, 5, 2];
    InsertAllSnoc([3, 1, 5], 2, KeyLess);
    MinInsert4();
    assert [3, 1, 5, 2] + [4] == [3, 1, 5, 2, 4];
    InsertAllSnoc([3, 1, 5, 2], 4, KeyLess);
    MinInsert5();
  }

  lemma MinPop1()
    ensures PopSeq([1, 2, 5, 3, 4], KeyLess) == [2, 3, 5, 4]
  {
    var c := KeyLess;
    assert [4] + [1, 2, 5, 3, 4][1..4] == [4, 2, 5, 3];
    assert BestChild([4, 2, 5, 3], c, 0) == 1;
    assert Swap([4, 2, 5, 3], 0, 1) == [2, 4, 5, 3];
    SiftDownUnfold([4, 2, 5, 3], c, 0);
    assert BestChild([2, 4, 5, 3], c, 1) == 3;
    assert Swap([2, 4, 5, 3], 1, 3) == [2, 3, 5, 4];
    SiftDownUnfold([2, 4, 5, 3], c, 1);
    SiftDownDone([2, 3, 5, 4], c, 3);
  }

  lemma MinPop2()
    ensures PopSeq([2, 3, 5, 4], KeyLess) == [3, 4, 5]
  {
    var c := KeyLess;
    assert [4] + [2, 3, 5, 4][1..3] == [4, 3, 5];
    assert BestChild([4, 3, 5], c, 0) == 1;
    assert Swap([4, 3, 5], 0, 1) == [3, 4, 5];
    SiftDownUnfold([4, 3, 5], c, 0);
    SiftDownDone([3, 4, 5], c, 1);
  }

  lemma MinPop3()
    ensures PopSeq([3, 4, 5], KeyLess) == [4, 5]
  {
    var c := KeyLess;
    assert [5] + [3, 4, 5][1..2] == [5, 4];
    assert BestChild([5, 4], c, 0) == 1;
    assert Swap([5, 4], 0, 1) == [4, 5];
    SiftDownUnfold([5, 4], c, 0);
    SiftDownDone([4, 5], c, 1);
  }

  lemma MinPop4()
    ensures PopSeq([4, 5], KeyLess) == [5]
  {
    var c := KeyLess;
    assert [5] + [4, 5][1..1] == [5];
    SiftDownDone([5], c, 0);
  }

  lemma MinPop5()
    ensures PopSeq([5], KeyLess) == []
  {
    var c := KeyLess;

  }

  /** Popping the min-heap yields `[1, 2, 3, 4, 5]`. */
  lemma MinHeapPops()
    ensures SortedSeq([1, 2, 5, 3, 4], KeyLess) == [1, 2, 3, 4, 5]
  {
    SortedSeqUnfold([1, 2, 5, 3, 4], KeyLess);
    MinPop1();
    SortedSeqUnfold([2, 3, 5, 4], KeyLess);
    MinPop2();
    SortedSeqUnfold([3, 4, 5], KeyLess);
    MinPop3();
    SortedSeqUnfold([4, 5], KeyLess);
    MinPop4();
    SortedSeqUnfold([5], KeyLess);
    MinPop5();
  }

  lemma MaxInsert1()
    ensures InsertSeq([], KeyGreater, 3) == [3]
  {
    var c := KeyGreater;
    assert [] + [3] == [3];
    UpStop([3], c, 0);
  }

  lemma MaxInsert2()
    ensures InsertSeq([3], KeyGreater, 1) == [3, 1]
  {
    var c := KeyGreater;
    assert [3] + [1] == [3, 1];
    UpStop([3, 1], c, 1);
  }

  lemma MaxInsert3()
    ensures InsertSeq([3, 1], KeyGreater, 5) == [5, 1, 3]
  {
    var c := KeyGreater;
    assert [3, 1] + [5] == [3, 1, 5];
    assert Swap([3, 1, 5], 2, 0) == [5, 1, 3];
    UpSwap([3, 1, 5], c, 2);
    UpStop([5, 1, 3], c, 0);
  }

  lemma MaxInsert4()
    ensures InsertSeq([5, 1, 3], KeyGreater, 2) == [5, 2, 3, 1]
  {
    var c := KeyGreater;
    assert [5, 1, 3] + [2] == [5, 1, 3, 2];
    assert Swap([5, 1, 3, 2], 3, 1) == [5, 2, 3, 1];
    UpSwap([5, 1, 3, 2], c, 3);
    UpStop([5, 2, 3, 1], c, 1);
  }

  lemma MaxInsert5()
    ensures InsertSeq([5, 2, 3, 1], KeyGreater, 4) == [5, 4, 3, 1, 2]
  {
    var c := KeyGreater;
    assert [5, 2, 3, 1] + [4] == [5, 2, 3, 1, 4];
    assert Swap([5, 2, 3, 1, 4], 4, 1) == [5, 4, 3, 1, 2];
    UpSwap([5, 2, 3, 1, 4], c, 4);
    UpStop([5, 4, 3, 1, 2], c, 1);
  }

  /** The max-heap tests: inserting 3, 1, 5, 2, 4 gives the array `[5, 4, 3, 1, 2]`. */
  lemma MaxHeapInserts()
    ensures InsertAll([3, 1, 5, 2, 4], KeyGreater) == [5, 4, 3, 1, 2]
  {
    assert [] + [3] == [3];
    InsertAllSnoc([], 3, KeyGreater);
    MaxInsert1();
    assert [3] + [1] == [3, 1];
    InsertAllSnoc([3], 1, KeyGreater);
    MaxInsert2();
    assert [3, 1] + [5] == [3, 1, 5];
    InsertAllSnoc([3, 1], 5, KeyGreater);
    MaxInsert3();
    assert [3, 1, 5] + [2] == [3, 1, 5, 2];
    InsertAllSnoc([3, 1, 5], 2, KeyGreater);
    MaxInsert4();
    assert [3, 1, 5, 2] + [4] == [3, 1, 5, 2, 4];
    InsertAllSnoc([3, 1, 5, 2], 4, KeyGreater);
    MaxInsert5();
  }

  lemma MaxPop1()
    ensures PopSeq([5, 4, 3, 1, 2], KeyGreater) == [4, 2, 3, 1]
  {
    var c := KeyGreater;
    assert [2] + [5, 4, 3, 1, 2][1..4] == [2, 4, 3, 1];
    assert BestChild([2, 4, 3, 1], c, 0) == 1;
    assert Swap([2, 4, 3, 1], 0, 1) == [4, 2, 3, 1];
    SiftDownUnfold([2, 4, 3, 1], c, 0);
    assert BestChild([4, 2, 3, 1], c, 1) == 3;
    SiftDownDone([4, 2, 3, 1], c, 1);
  }

  lemma MaxPop2()
    ensures PopSeq([4, 2, 3, 1], KeyGreater) == [3, 2, 1]
  {
    var c := KeyGreater;
    assert [1] + [4, 2, 3, 1][1..3] == [1, 2, 3];
    assert BestChild([1, 2, 3], c, 0) == 2;
    assert Swap([1, 2, 3], 0, 2) == [3, 2, 1];
    SiftDownUnfold([1, 2, 3], c, 0);
    SiftDownDone([3, 2, 1], c, 2);
  }

  lemma MaxPop3()
    ensures PopSeq([3, 2, 1], KeyGreater) == [2, 1]
  {
    var c := KeyGreater;
    assert [1] + [3, 2, 1][1..2] == [1, 2];
    assert BestChild([1, 2], c, 0) == 1;
    assert Swap([1, 2], 0, 1) == [2, 1];
    SiftDownUnfold([1, 2], c, 0);
    SiftDownDone([2, 1], c, 1);
  }

  lemma MaxPop4()
    ensures PopSeq([2, 1], KeyGreater) == [1]
  {
    var c := KeyGreater;
    assert [1] + [2, 1][1..1] == [1];
    SiftDownDone([1], c, 0);
  }

  lemma MaxPop5()
    ensures PopSeq([1], KeyGreater) == []
  {
    var c := KeyGreater;

  }

  /** Popping the max-heap yields `[5, 4, 3, 2, 1]`. */
  lemma MaxHeapPops()
    ensures SortedSeq([5, 4, 3, 1, 2], KeyGreater) == [5, 4, 3, 2, 1]
  {
    SortedSeqUnfold([5, 4, 3, 1, 2], KeyGreater);
    MaxPop1();
    SortedSeqUnfold([4, 2, 3, 1], KeyGreater);
    MaxPop2();
    SortedSeqUnfold([3, 2, 1], KeyGreater);
    MaxPop3();
    SortedSeqUnfold([2, 1], KeyGreater);
    MaxPop4();
    SortedSeqUnfold([1], KeyGreater);
    MaxPop5();
  }

  // ---------- the index ----------

  /** Every position other than `skip` holds a key whose index entry points back to it. */
  ghost predicate Placed(h: seq<nat>, ix: seq<nat>, skip: int)
  {
    forall j :: 0 <= j < |h| && j != skip ==> h[j] < |ix| && ix[h[j]] == j
  }

  /** Every present key other than `skip` sits at the position its index entry names. */
  ghost predicate Indexed(h: seq<nat>, ix: seq<nat>, skip: int)
  {
    forall k :: 0 <= k < |ix| && k != skip && ix[k] != MAX ==> ix[k] < |h| && h[ix[k]] == k
  }

  ghost predicate Consistent(h: seq<nat>, ix: seq<nat>)
  {
    Placed(h, ix, -1) && Indexed(h, ix, -1)
  }

  /** The index initialisation of `heapify_by`: each key's entry is set to its position. */
  method IndexOf(from: seq<nat>) returns (ix: seq<nat>)
    requires forall p, q :: 0 <= p < q < |from| ==> from[p] != from[q]
    requires |from| < MAX
    ensures Consistent(from, ix)
  {
    ix := [];
    var j := 0;
    while j < |from|
      invariant j <= |from|
      invariant forall q :: 0 <= q < j ==> from[q] < |ix| && ix[from[q]] == q
      invariant forall k :: 0 <= k < |ix| && ix[k] != MAX ==> ix[k] < j && from[ix[k]] == k
    {
      ix := IdxVec.Grown(ix, from[j], MAX)[from[j] := j];
      j := j + 1;
    }
  }

  /** The key at `i` occurs nowhere else. */
  ghost predicate Alone(h: seq<nat>, i: nat)
    requires i < |h|
  {
    forall j :: 0 <= j < |h| && j != i ==> h[j] != h[i]
  }

  lemma ConsistentAlone(h: seq<nat>, ix: seq<nat>, i: nat)
    requires Consistent(h, ix) && i < |h|
    ensures Alone(h, i)
  {
  }

  /** One swap of the moving key `h[i]` with the key at `q`: the index entry of the other key is written. */
  lemma IndexSwap(h: seq<nat>, ix: seq<nat>, i: nat, q: nat)
    requires i < |h| && q < |h| && i != q && h[i] < |ix| && Alone(h, i)
    requires Placed(h, ix, i) && Indexed(h, ix, h[i])
    ensures Placed(Swap(h, i, q), ix[h[q] := i], q) && Indexed(Swap(h, i, q), ix[h[q] := i], h[i])
    ensures Alone(Swap(h, i, q), q)
  {
    var x := h[i];
    var h' := Swap(h, i, q);
    var ix' := ix[h[q] := i];
    forall j | 0 <= j < |h'| && j != q
      ensures h'[j] < |ix'| && ix'[h'[j]] == j
    {
      if j != i {
        assert ix[h[j]] == j;
      }
    }
    forall k | 0 <= k < |ix'| && k != x && ix'[k] != MAX
      ensures ix'[k] < |h'| && h'[ix'[k]] == k
    {
      if k != h[q] {
        assert h[ix[k]] == k;
      }
    }
  }

  /** What `init_by(key, || usize::MAX)` and the push leave for `sift_up_by`. */
  lemma InsertPrepare(h: seq<nat>, ix: seq<nat>, key: nat)
    requires Consistent(h, ix) && |h| < MAX && !(key < |ix| && ix[key] != MAX)
    ensures var h', ix' := h + [key], IdxVec.Grown(ix, key, MAX);
      key < |ix'| && Alone(h', |h|) && Placed(h', ix', |h|) && Indexed(h', ix', key)
  {
    var h', ix' := h + [key], IdxVec.Grown(ix, key, MAX);
    forall j | 0 <= j < |h|
      ensures h'[j] != key && h'[j] < |ix'| && ix'[h'[j]] == j
    {
      assert ix[h[j]] == j;
    }
    forall k | 0 <= k < |ix'| && k != key && ix'[k] != MAX
      ensures ix'[k] < |h'| && h'[ix'[k]] == k
    {
      assert k < |ix|;
      assert h[ix[k]] == k;
    }
  }

  /** Writing the moving key's own index entry makes the index consistent. */
  lemma IndexFinish(h: seq<nat>, ix: seq<nat>, i: nat)
    requires i < |h| && h[i] < |ix| && Alone(h, i)
    requires Placed(h, ix, i) && Indexed(h, ix, h[i])
    ensures Consistent(h, ix[h[i] := i])
  {
  }

  lemma PresentIndexed(h: seq<nat>, ix: seq<nat>, key: nat)
    requires Consistent(h, ix) && |h| < MAX && key in multiset(h)
    ensures key < |ix| && ix[key] != MAX
  {
    var j :| 0 <= j < |h| && h[j] == key;
    assert ix[h[j]] == j;
  }

  /** A consistent index gives `sift_up_by` and `sift_down_by` what they need at any position. */
  lemma ConsistentSift(h: seq<nat>, ix: seq<nat>, i: nat)
    requires Consistent(h, ix) && i < |h|
    ensures h[i] < |ix| && Alone(h, i) && Placed(h, ix, i) && Indexed(h, ix, h[i])
  {
  }

  /** A key with a recorded position is in the heap. */
  lemma IndexedIn(h: seq<nat>, ix: seq<nat>, k: nat)
    requires Consistent(h, ix)
    ensures k < |ix| && ix[k] != MAX ==> k in multiset(h)
  {
    assert k < |ix| && ix[k] != MAX ==> h[ix[k]] == k;
  }

  /** `swap_remove(0)`: the last key takes the place of the first. */
  function SwapRemoveFirst(h: seq<nat>): (r: seq<nat>)
    requires |h| > 0
    ensures |r| == |h| - 1 && multiset(r) == multiset(h) - multiset{h[0]}
    ensures |r| > 0 ==> r[0] == h[|h| - 1] && forall j :: 0 < j < |r| ==> r[j] == h[j]
  {
    assert h == [h[0]] + h[1..];
    if |h| == 1 then []
    else
      assert h[1..] == h[1..|h| - 1] + [h[|h| - 1]];
      [h[|h| - 1]] + h[1..|h| - 1]
  }

  /** What `pop_by` leaves after `swap_remove(0)` and the two index writes. */
  lemma PopPrepare(h: seq<nat>, ix: seq<nat>)
    requires Consistent(h, ix) && |h| > 0
    ensures var h' := SwapRemoveFirst(h);
      h[0] < |ix| && h[0] !in multiset(h') &&
      (|h'| == 0 ==> Consistent(h', ix[h[0] := MAX])) &&
      (|h'| > 0 ==> Consistent(h', ix[h[0] := MAX][h'[0] := 0]))
  {
    var h' := SwapRemoveFirst(h);
    var ix1 := ix[h[0] := MAX];
    var n := |h|;
    assert ix[h[0]] == 0 && ix[h[n - 1]] == n - 1;
    forall j | 0 <= j < |h'|
      ensures h'[j] != h[0]
    {
      if j > 0 {
        assert ix[h[j]] == j;
      }
    }
    if |h'| == 0 {
      forall k | 0 <= k < |ix1|
        ensures ix1[k] == MAX
      {
        assert ix[k] != MAX ==> h[ix[k]] == k;
      }
    } else {
      var ix' := ix1[h'[0] := 0];
      forall j | 0 <= j < |h'|
        ensures h'[j] < |ix'| && ix'[h'[j]] == j
      {
        if j > 0 {
          assert ix[h[j]] == j && ix[h[n - 1]] == n - 1;
        }
      }
      forall k | 0 <= k < |ix'| && ix'[k] != MAX
        ensures ix'[k] < |h'| && h'[ix'[k]] == k
      {
        if k != h'[0] {
          assert h[ix[k]] == k;
        }
      }
    }
  }

  /** One pop moves the top key from the sorted rest to the collected prefix. */
  lemma SortedStep(res: seq<nat>, h: seq<nat>, c: Cmp)
    requires |h| > 0
    ensures res + SortedSeq(h, c) == (res + [h[0]]) + SortedSeq(PopSeq(h, c), c)
  {
  }

  class IdxHeap {
    var heap: seq<nat>
    var index: seq<nat>

    ghost predicate Valid()
      reads this
    {
      Consistent(heap, index) && |heap| < MAX
    }

    constructor ()
      ensures Valid() && heap == [] && index == []
    {
      heap := [];
      index := [];
    }

    /**
     * `heapify_by` with the index initialised: each key's entry is set to its
     * position before the sift-down loop, so that the loop's index writes
     * stay in bounds. Keys must be distinct for the index to describe them.
     */
    constructor Heapify(from: seq<nat>, c: Cmp)
      requires forall p, q :: 0 <= p < q < |from| ==> from[p] != from[q]
      requires |from| < MAX
      ensures Valid() && heap == HeapifySeq(from, c, |from|)
    {
      var ix := IndexOf(from);
      heap := from;
      index := ix;
      new;
      SiftAll(c);
    }

    /** The loop of `heapify_by`: `sift_down_by` at every position, from the last to the first. */
    method SiftAll(c: Cmp)
      requires Consistent(heap, index)
      modifies this
      ensures Consistent(heap, index) && heap == HeapifySeq(old(heap), c, |old(heap)|)
    {
      var i: nat := |heap|;
      while i > 0
        invariant i <= |heap| == |old(heap)| && Consistent(heap, index)
        invariant HeapifySeq(heap, c, i) == HeapifySeq(old(heap), c, |old(heap)|)
      {
        ConsistentSift(heap, index, i - 1);
        SiftDown(i - 1, c);
        i := i - 1;
      }
    }

    function Len(): (n: nat)
      reads this
      ensures n == |heap|
    {
      |heap|
    }

    /** `contains`: the index entry exists and is not the `usize::MAX` sentinel. */
    function Contains(k: nat): (b: bool)
      reads this
      ensures b <==> k < |index| && index[k] != MAX
      ensures Valid() ==> (b <==> k in heap)
    {
      k < |index| && index[k] != MAX
    }

    function Peek(): (r: Option<nat>)
      reads this
      ensures r.None? <==> |heap| == 0
      ensures r.Some? ==> r.value == heap[0]
    {
      if |heap| == 0 then None else Some(heap[0])
    }

    method Clear()
      modifies this
      ensures Valid() && heap == [] && index == []
    {
      heap := [];
      index := [];
    }

    /** `sift_up_by(i)`: the key at `i` is the one being placed; its index entry is written last. */
    method SiftUp(i0: nat, c: Cmp)
      requires i0 < |heap| && heap[i0] < |index| && Alone(heap, i0)
      requires Placed(heap, index, i0) && Indexed(heap, index, heap[i0])
      modifies this
      ensures heap == SiftUpSeq(old(heap), c, i0)
      ensures Consistent(heap, index) && |index| == |old(index)|
    {
      ghost var h0 := heap;
      var x := heap[i0];
      var i := i0;
      while i > 0
        invariant i < |heap| && |heap| == |h0| && |index| == |old(index)|
        invariant heap[i] == x && Alone(heap, i)
        invariant Placed(heap, index, i) && Indexed(heap, index, x)
        invariant SiftUpSeq(heap, c, i) == SiftUpSeq(h0, c, i0)
      {
        var p := Parent(i);
        if Better(c, heap[i], heap[p]) {
          IndexSwap(heap, index, i, p);
          index := index[heap[p] := i];
          heap := Swap(heap, i, p);
          i := p;
        } else {
          break;
        }
      }
      IndexFinish(heap, index, i);
      index := index[heap[i] := i];
    }

    /** `sift_down_by(i)`: the key at `i` is the one being placed; its index entry is written last. */
    method SiftDown(i0: nat, c: Cmp)
      requires i0 < |heap| && heap[i0] < |index| && Alone(heap, i0)
      requires Placed(heap, index, i0) && Indexed(heap, index, heap[i0])
      modifies this
      ensures heap == SiftDownSeq(old(heap), c, i0)
      ensures Consistent(heap, index) && |index| == |old(index)|
    {
      var h: seq<nat>, ix: seq<nat> := heap, index;
      ghost var h0, n := h, |ix|;
      var x := h[i0];
      var i := i0;
      while Left(i) < |h| && Better(c, h[BestChild(h, c, i)], h[i])
        invariant i < |h| && |h| == |h0| && |ix| == n && i0 < |h0| && x < |ix|
        invariant h[i] == x && Alone(h, i)
        invariant Placed(h, ix, i) && Indexed(h, ix, x)
        invariant SiftDownSeq(h, c, i) == SiftDownSeq(h0, c, i0)
        decreases |h| - i
      {
        var ch := BestChild(h, c, i);
        IndexSwap(h, ix, i, ch);
        SiftDownUnfold(h, c, i);
        ix := ix[h[ch] := i];
        h := Swap(h, i, ch);
        i := ch;
      }
      SiftDownDone(h, c, i);
      IndexFinish(h, ix, i);
      heap, index := h, ix[h[i] := i];
    }

    /** `insert_by`: `false` and no change for a present key; otherwise push and sift up. */
    method Insert(key: nat, c: Cmp) returns (added: bool)
      requires Valid() && |heap| + 1 < MAX
      modifies this
      ensures Valid()
      ensures added <==> !old(Contains(key))
      ensures added ==> heap == InsertSeq(old(heap), c, key) && |index| == if key < |old(index)| then |old(index)| else key + 1
      ensures !added ==> heap == old(heap) && index == old(index)
      ensures Contains(key)
    {
      if Contains(key) {
        return false;
      }
      ghost var h0 := heap;
      var i := |heap|;
      InsertPrepare(heap, index, key);
      index := IdxVec.Grown(index, key, MAX);
      heap := heap + [key];
      SiftUp(i, c);
      InsertPerm(h0, c, key);
      PresentIndexed(heap, index, key);
      return true;
    }

    /** `pop_by`: `None` on an empty heap; otherwise the top key, now marked absent. */
    method Pop(c: Cmp) returns (r: Option<nat>)
      requires Valid()
      modifies this
      ensures Valid() && |index| == |old(index)|
      ensures r.None? <==> |old(heap)| == 0
      ensures r.None? ==> heap == old(heap) && index == old(index)
      ensures r.Some? ==> r.value == old(heap[0]) && heap == PopSeq(old(heap), c) && !Contains(r.value)
    {
      if |heap| == 0 {
        return None;
      }
      ghost var h0 := heap;
      var res := heap[0];
      PopPrepare(heap, index);
      heap := SwapRemoveFirst(heap);
      index := index[res := MAX];
      if |heap| > 0 {
        index := index[heap[0] := 0];
        ConsistentSift(heap, index, 0);
        SiftDownPerm(heap, c, 0);
        SiftDown(0, c);
      }
      assert multiset(heap) == multiset(SwapRemoveFirst(h0));
      IndexedIn(heap, index, res);
      return Some(res);
    }

    /** `update_by`: the key must be present; sift down, then sift up from its old position. */
    method Update(key: nat, c: Cmp)
      requires Valid() && Contains(key)
      modifies this
      ensures Valid() && |index| == |old(index)|
      ensures heap == UpdateSeq(old(heap), c, old(index[key]))
    {
      var i := index[key];
      ConsistentSift(heap, index, i);
      SiftDown(i, c);
      ConsistentSift(heap, index, i);
      SiftUp(i, c);
    }

    /** `decrease_by`: sift up from the key's position. */
    method Decrease(key: nat, c: Cmp)
      requires Valid() && Contains(key)
      modifies this
      ensures Valid() && |index| == |old(index)|
      ensures heap == SiftUpSeq(old(heap), c, old(index[key]))
    {
      var i := index[key];
      ConsistentSift(heap, index, i);
      SiftUp(i, c);
    }

    /** `increase_by`: sift down from the key's position. */
    method Increase(key: nat, c: Cmp)
      requires Valid() && Contains(key)
      modifies this
      ensures Valid() && |index| == |old(index)|
      ensures heap == SiftDownSeq(old(heap), c, old(index[key]))
    {
      var i := index[key];
      ConsistentSift(heap, index, i);
      SiftDown(i, c);
    }

    /** `into_sorted_vec_by`: pop until empty, collecting the keys. */
    method IntoSortedVec(c: Cmp) returns (res: seq<nat>)
      requires Valid()
      modifies this
      ensures res == SortedSeq(old(heap), c)
      ensures Valid() && heap == []
    {
      ghost var h0 := heap;
      res := [];
      while true
        invariant Valid() && res + SortedSeq(heap, c) == SortedSeq(h0, c)
        decreases |heap|
      {
        ghost var before := heap;
        var r := Pop(c);
        if r.None? {
          break;
        }
        SortedStep(res, before, c);
        res := res + [r.value];
      }
    }
  }
}
