/**
 * The bit-trie of cubes used by the simple-sat solver
 * (lib/simple-sat/src/trie.rs). Nodes live in a 1-based arena: node `id`
 * is `nodes[id - 1]`, id `0` stands for "no node", and the root is the
 * first node allocated, so its id is `1`. Every node records its parent,
 * its `false`-child (`left`), its `true`-child (`right`) and whether a
 * word ends there.
 */
module SatTrie {
  datatype TrieNode = TrieNode(parent: nat, left: nat, right: nat, isEnd: bool)

  /** `TrieNode::new(parent)`: no children, not the end of a word. */
  function NewNode(parent: nat): (t: TrieNode)
    ensures t.parent == parent && t.left == 0 && t.right == 0 && !t.isEnd
  {
    TrieNode(parent, 0, 0, false)
  }

  const Root: nat := 1

  // ---------- well-formed arenas ----------

  /** `c` is `0` or a later node whose parent is node `id`. */
  predicate ChildOk(nodes: seq<TrieNode>, id: nat, c: nat)
  {
    c == 0 || (id < c <= |nodes| && nodes[c - 1].parent == id)
  }

  /**
   * Node `k + 1` keeps the trie's shape: the root has no parent, every
   * other node's parent is an earlier node, and both child links point to
   * `0` or to a later node whose parent is this one.
   */
  predicate NodeOk(nodes: seq<TrieNode>, k: nat)
    requires k < |nodes|
  {
    && (if k == 0 then nodes[k].parent == 0 else 0 < nodes[k].parent <= k)
    && ChildOk(nodes, k + 1, nodes[k].left)
    && ChildOk(nodes, k + 1, nodes[k].right)
  }

  predicate WellFormed(nodes: seq<TrieNode>)
  {
    |nodes| >= 1 && forall k :: 0 <= k < |nodes| ==> NodeOk(nodes, k)
  }

  /** Node `k + 1` of `a` survives in `b`: same parent, the same non-zero children, and its end mark. */
  predicate KeptAt(a: seq<TrieNode>, b: seq<TrieNode>, k: nat)
    requires k < |a| <= |b|
  {
    && b[k].parent == a[k].parent
    && (a[k].left != 0 ==> b[k].left == a[k].left)
    && (a[k].right != 0 ==> b[k].right == a[k].right)
    && (a[k].isEnd ==> b[k].isEnd)
  }

  /** `b` keeps every node of `a`. */
  predicate Extends(a: seq<TrieNode>, b: seq<TrieNode>)
  {
    |a| <= |b| && forall k :: 0 <= k < |a| ==> KeptAt(a, b, k)
  }

  lemma ExtendsTrans(a: seq<TrieNode>, b: seq<TrieNode>, c: seq<TrieNode>)
    requires Extends(a, b) && Extends(b, c)
    ensures Extends(a, c)
  {
    forall k | 0 <= k < |a|
      ensures KeptAt(a, c, k)
    {
      assert KeptAt(a, b, k) && KeptAt(b, c, k);
    }
  }

  /** Two arenas with the same links, where `b` has every end mark of `a`: `b` is well formed and extends `a`. */
  lemma SameLinks(a: seq<TrieNode>, b: seq<TrieNode>)
    requires WellFormed(a) && |a| == |b|
    requires forall j :: 0 <= j < |a| ==> b[j].parent == a[j].parent && b[j].left == a[j].left && b[j].right == a[j].right
    requires forall j :: 0 <= j < |a| ==> a[j].isEnd ==> b[j].isEnd
    ensures WellFormed(b) && Extends(a, b)
  {
    forall k | 0 <= k < |b|
      ensures NodeOk(b, k)
    {
      assert NodeOk(a, k);
    }
    forall k | 0 <= k < |a|
      ensures KeptAt(a, b, k)
    {
    }
  }

  /** The child of node `id` along `bit`. */
  function ChildOf(nodes: seq<TrieNode>, id: nat, bit: bool): (c: nat)
    requires WellFormed(nodes) && 0 < id <= |nodes|
    ensures c == 0 || (id < c <= |nodes| && nodes[c - 1].parent == id)
  {
    assert NodeOk(nodes, id - 1);
    if bit then nodes[id - 1].right else nodes[id - 1].left
  }

  /** A non-zero child survives in every extension. */
  lemma ChildOfExtends(a: seq<TrieNode>, b: seq<TrieNode>, id: nat, bit: bool)
    requires WellFormed(a) && WellFormed(b) && Extends(a, b) && 0 < id <= |a| && ChildOf(a, id, bit) != 0
    ensures ChildOf(b, id, bit) == ChildOf(a, id, bit)
  {
    assert KeptAt(a, b, id - 1);
  }

  // ---------- following a word ----------

  /**
   * The node reached from the root along `w`, or `0` as soon as a child is
   * missing: what `search` returns.
   */
  function Find(nodes: seq<TrieNode>, w: seq<bool>): (r: nat)
    requires WellFormed(nodes)
    ensures r <= |nodes|
  {
    if |w| == 0 then Root
    else
      var x := Find(nodes, w[..|w| - 1]);
      if x == 0 then 0 else ChildOf(nodes, x, w[|w| - 1])
  }

  /** What `contains` returns: the walk reaches a node and a word ends there. */
  predicate ContainsWord(nodes: seq<TrieNode>, w: seq<bool>)
    requires WellFormed(nodes)
  {
    var x := Find(nodes, w);
    x != 0 && nodes[x - 1].isEnd
  }

  /** Once the walk has fallen off the trie it stays off. */
  lemma {:induction false} FindZeroStays(nodes: seq<TrieNode>, w: seq<bool>, i: nat)
    requires WellFormed(nodes) && i <= |w| && Find(nodes, w[..i]) == 0
    ensures Find(nodes, w) == 0
    decreases |w| - i
  {
    if i < |w| {
      assert w[..i + 1][..i] == w[..i];
      FindZeroStays(nodes, w, i + 1);
    } else {
      assert w[..i] == w;
    }
  }

  lemma FindStep(nodes: seq<TrieNode>, w: seq<bool>, i: nat)
    requires WellFormed(nodes) && i < |w|
    ensures Find(nodes, w[..i + 1]) == (var x := Find(nodes, w[..i]); if x == 0 then 0 else ChildOf(nodes, x, w[i]))
  {
    assert w[..i + 1][..i] == w[..i];
  }

  /** A walk that reaches a node in `a` reaches the same node in every extension of `a`. */
  lemma {:induction false} FindExtends(a: seq<TrieNode>, b: seq<TrieNode>, w: seq<bool>)
    requires WellFormed(a) && WellFormed(b) && Extends(a, b) && Find(a, w) != 0
    ensures Find(b, w) == Find(a, w)
  {
    if |w| > 0 {
      var w0 := w[..|w| - 1];
      FindExtends(a, b, w0);
      ChildOfExtends(a, b, Find(a, w0), w[|w| - 1]);
    }
  }

  /** A word contained in `a` is contained in every extension of `a`. */
  lemma ContainsExtends(a: seq<TrieNode>, b: seq<TrieNode>, w: seq<bool>)
    requires WellFormed(a) && WellFormed(b) && Extends(a, b) && ContainsWord(a, w)
    ensures ContainsWord(b, w)
  {
    FindExtends(a, b, w);
    assert KeptAt(a, b, Find(a, w) - 1);
  }

  // ---------- levels ----------

  /** What `level` returns: the number of parent links from node `id` up to the root. */
  function Depth(nodes: seq<TrieNode>, id: nat): nat
    requires WellFormed(nodes) && 0 < id <= |nodes|
    decreases id
  {
    assert NodeOk(nodes, id - 1);
    if nodes[id - 1].parent == 0 then 0 else 1 + Depth(nodes, nodes[id - 1].parent)
  }

  /** The node a word leads to lies as many levels down as the word is long. */
  lemma {:induction false} FindDepth(nodes: seq<TrieNode>, w: seq<bool>)
    requires WellFormed(nodes) && Find(nodes, w) != 0
    ensures Depth(nodes, Find(nodes, w)) == |w|
  {
    if |w| > 0 {
      FindDepth(nodes, w[..|w| - 1]);
    } else {
      assert NodeOk(nodes, 0);
    }
  }

  // ---------- insertion ----------

  /** Node `cur` with a new child along `bit`, allocated at the end of the arena. */
  function Linked(nodes: seq<TrieNode>, cur: nat, bit: bool): seq<TrieNode>
    requires 0 < cur <= |nodes|
  {
    var id := |nodes| + 1;
    var n := nodes[cur - 1];
    (nodes + [NewNode(cur)])[cur - 1 := if bit then n.(right := id) else n.(left := id)]
  }

  lemma LinkedWellFormed(nodes: seq<TrieNode>, cur: nat, bit: bool)
    requires WellFormed(nodes) && 0 < cur <= |nodes| && ChildOf(nodes, cur, bit) == 0
    ensures WellFormed(Linked(nodes, cur, bit)) && Extends(nodes, Linked(nodes, cur, bit))
    ensures ChildOf(Linked(nodes, cur, bit), cur, bit) == |nodes| + 1
  {
    var ns := Linked(nodes, cur, bit);
    assert forall j :: 0 <= j < |nodes| ==> ns[j].parent == nodes[j].parent;
    assert forall j :: 0 <= j < |nodes| && j != cur - 1 ==> ns[j] == nodes[j];
    forall k | 0 <= k < |ns|
      ensures NodeOk(ns, k)
    {
      if k < |nodes| {
        assert NodeOk(nodes, k);
      }
    }
    forall k | 0 <= k < |nodes|
      ensures KeptAt(nodes, ns, k)
    {
    }
  }

  /** One step of `insert`: follow `bit` from `cur`, allocating the child when it is missing. */
  function Step(nodes: seq<TrieNode>, cur: nat, bit: bool): (r: (seq<TrieNode>, nat))
    requires WellFormed(nodes) && 0 < cur <= |nodes|
    ensures WellFormed(r.0) && 0 < r.1 <= |r.0|
  {
    var c := ChildOf(nodes, cur, bit);
    if c != 0 then (nodes, c)
    else
      LinkedWellFormed(nodes, cur, bit);
      (Linked(nodes, cur, bit), |nodes| + 1)
  }

  lemma StepMeaning(nodes: seq<TrieNode>, cur: nat, bit: bool)
    requires WellFormed(nodes) && 0 < cur <= |nodes|
    ensures Extends(nodes, Step(nodes, cur, bit).0) && |Step(nodes, cur, bit).0| <= |nodes| + 1
    ensures Step(nodes, cur, bit).1 == ChildOf(Step(nodes, cur, bit).0, cur, bit)
  {
    if ChildOf(nodes, cur, bit) == 0 {
      LinkedWellFormed(nodes, cur, bit);
    } else {
      forall k | 0 <= k < |nodes|
        ensures KeptAt(nodes, nodes, k)
      {
      }
    }
  }

  /** The arena and the node after following `w` with allocation, before the end mark is set. */
  function Walk(nodes: seq<TrieNode>, w: seq<bool>): (r: (seq<TrieNode>, nat))
    requires WellFormed(nodes)
    ensures WellFormed(r.0) && 0 < r.1 <= |r.0|
  {
    if |w| == 0 then (nodes, Root)
    else
      var p := Walk(nodes, w[..|w| - 1]);
      Step(p.0, p.1, w[|w| - 1])
  }

  /** A walk keeps every node and allocates at most one node per bit. */
  lemma {:induction false} WalkExtends(nodes: seq<TrieNode>, w: seq<bool>)
    requires WellFormed(nodes)
    ensures Extends(nodes, Walk(nodes, w).0) && |Walk(nodes, w).0| <= |nodes| + |w|
  {
    if |w| > 0 {
      var p := Walk(nodes, w[..|w| - 1]);
      WalkExtends(nodes, w[..|w| - 1]);
      StepMeaning(p.0, p.1, w[|w| - 1]);
      ExtendsTrans(nodes, p.0, Walk(nodes, w).0);
    } else {
      forall k | 0 <= k < |nodes|
        ensures KeptAt(nodes, nodes, k)
      {
      }
    }
  }

  /** Node `id` marked as the end of a word. */
  function Mark(nodes: seq<TrieNode>, id: nat): seq<TrieNode>
    requires 0 < id <= |nodes|
  {
    nodes[id - 1 := nodes[id - 1].(isEnd := true)]
  }

  lemma MarkWellFormed(nodes: seq<TrieNode>, id: nat)
    requires WellFormed(nodes) && 0 < id <= |nodes|
    ensures WellFormed(Mark(nodes, id)) && Extends(nodes, Mark(nodes, id))
  {
    SameLinks(nodes, Mark(nodes, id));
  }

  /** The arena and the returned node after `insert(w)`. */
  function Inserted(nodes: seq<TrieNode>, w: seq<bool>): (r: (seq<TrieNode>, nat))
    requires WellFormed(nodes)
    ensures WellFormed(r.0) && 0 < r.1 <= |r.0|
  {
    var p := Walk(nodes, w);
    MarkWellFormed(p.0, p.1);
    (Mark(p.0, p.1), p.1)
  }

  lemma WalkStep(nodes: seq<TrieNode>, w: seq<bool>, i: nat)
    requires WellFormed(nodes) && i < |w|
    ensures Walk(nodes, w[..i + 1]) == Step(Walk(nodes, w[..i]).0, Walk(nodes, w[..i]).1, w[i])
  {
    assert w[..i + 1][..i] == w[..i];
  }

  /** The walk with allocation ends where the read-only walk over its result ends. */
  lemma {:induction false} WalkFind(nodes: seq<TrieNode>, w: seq<bool>)
    requires WellFormed(nodes)
    ensures Find(Walk(nodes, w).0, w) == Walk(nodes, w).1
  {
    if |w| > 0 {
      var w0 := w[..|w| - 1];
      var p := Walk(nodes, w0);
      WalkFind(nodes, w0);
      StepMeaning(p.0, p.1, w[|w| - 1]);
      FindExtends(p.0, Walk(nodes, w).0, w0);
    }
  }

  /** Walking a word that is already a path allocates nothing and ends at that path's node. */
  lemma {:induction false} WalkPresent(nodes: seq<TrieNode>, w: seq<bool>)
    requires WellFormed(nodes) && Find(nodes, w) != 0
    ensures Walk(nodes, w) == (nodes, Find(nodes, w))
  {
    if |w| > 0 {
      WalkPresent(nodes, w[..|w| - 1]);
    }
  }

  /**
   * `insert(w)` returns the node `w` leads to, marks it as an end, keeps
   * every node, path and end mark of the old trie, and allocates at most
   * `|w|` nodes; afterwards `contains(w)` holds.
   */
  lemma InsertMeaning(nodes: seq<TrieNode>, w: seq<bool>)
    requires WellFormed(nodes)
    ensures var (ns, r) := Inserted(nodes, w);
      && Find(ns, w) == r && ns[r - 1].isEnd
      && Extends(nodes, ns)
      && |ns| <= |nodes| + |w|
      && ContainsWord(ns, w)
  {
    var p := Walk(nodes, w);
    WalkExtends(nodes, w);
    WalkFind(nodes, w);
    MarkWellFormed(p.0, p.1);
    FindExtends(p.0, Inserted(nodes, w).0, w);
    ExtendsTrans(nodes, p.0, Inserted(nodes, w).0);
  }

  /** Nodes allocated by a step are not ends, and old nodes keep their end marks. */
  lemma StepEnds(nodes: seq<TrieNode>, cur: nat, bit: bool)
    requires WellFormed(nodes) && 0 < cur <= |nodes|
    ensures forall k :: 0 <= k < |Step(nodes, cur, bit).0| ==>
      Step(nodes, cur, bit).0[k].isEnd == (k < |nodes| && nodes[k].isEnd)
  {
  }

  /** Nodes allocated by a walk are not ends, and old nodes keep their end marks. */
  lemma {:induction false} WalkEnds(nodes: seq<TrieNode>, w: seq<bool>)
    requires WellFormed(nodes)
    ensures forall k :: 0 <= k < |Walk(nodes, w).0| ==> Walk(nodes, w).0[k].isEnd == (k < |nodes| && nodes[k].isEnd)
  {
    if |w| > 0 {
      var p := Walk(nodes, w[..|w| - 1]);
      WalkEnds(nodes, w[..|w| - 1]);
      WalkExtends(nodes, w[..|w| - 1]);
      StepEnds(p.0, p.1, w[|w| - 1]);
    }
  }

  /** `insert` sets no end mark but the returned node's, and clears none. */
  lemma InsertOnlyMarksResult(nodes: seq<TrieNode>, w: seq<bool>, k: nat)
    requires WellFormed(nodes) && k < |Inserted(nodes, w).0| && k != Inserted(nodes, w).1 - 1
    ensures Inserted(nodes, w).0[k].isEnd == (k < |nodes| && nodes[k].isEnd)
  {
    WalkEnds(nodes, w);
  }

  /** Inserting a word twice is inserting it once: no new node, the same result. */
  lemma ReinsertSame(nodes: seq<TrieNode>, w: seq<bool>)
    requires WellFormed(nodes)
    ensures Inserted(Inserted(nodes, w).0, w) == Inserted(nodes, w)
  {
    var (ns, r) := Inserted(nodes, w);
    InsertMeaning(nodes, w);
    WalkPresent(ns, w);
    assert Mark(ns, r) == ns;
  }

  /** The node `insert(w)` returns lies `|w|` levels below the root. */
  lemma InsertLevel(nodes: seq<TrieNode>, w: seq<bool>)
    requires WellFormed(nodes)
    ensures Depth(Inserted(nodes, w).0, Inserted(nodes, w).1) == |w|
  {
    InsertMeaning(nodes, w);
    FindDepth(Inserted(nodes, w).0, w);
  }

  // ---------- build_trie ----------

  /** The arena of `Trie::new`. */
  function NewNodes(): (nodes: seq<TrieNode>)
    ensures WellFormed(nodes)
  {
    assert NodeOk([NewNode(0)], 0);
    [NewNode(0)]
  }

  /** The arena after inserting `cubes` in order into a new trie. */
  function BuildNodes(cubes: seq<seq<bool>>): (nodes: seq<TrieNode>)
    ensures WellFormed(nodes)
  {
    if |cubes| == 0 then NewNodes()
    else Inserted(BuildNodes(cubes[..|cubes| - 1]), cubes[|cubes| - 1]).0
  }

  /** After `build_trie(cubes)`, the trie contains every cube. */
  lemma {:induction false} BuildContains(cubes: seq<seq<bool>>, i: nat)
    requires i < |cubes|
    ensures ContainsWord(BuildNodes(cubes), cubes[i])
  {
    var init := cubes[..|cubes| - 1];
    var last := cubes[|cubes| - 1];
    InsertMeaning(BuildNodes(init), last);
    if i < |cubes| - 1 {
      BuildContains(init, i);
      ContainsExtends(BuildNodes(init), BuildNodes(cubes), cubes[i]);
    }
  }

  // ---------- the trie ----------

  class Trie {
    var nodes: seq<TrieNode>
    var root: nat

    predicate Valid()
      reads this
    {
      WellFormed(nodes) && root == Root
    }

    /** `new`: a single root node, not an end and without children, under a non-zero id. */
    constructor ()
      ensures Valid() && nodes == NewNodes() && root != 0
    {
      nodes := NewNodes();
      root := 1;
    }

    /** `insert`: walk `word` from the root, allocating missing children, and mark the last node. */
    method Insert(word: seq<bool>) returns (r: nat)
      requires Valid()
      modifies this
      ensures Valid() && (nodes, r) == Inserted(old(nodes), word)
    {
      var current := root;
      for i := 0 to |word|
        invariant WellFormed(nodes) && root == Root
        invariant (nodes, current) == Walk(old(nodes), word[..i])
      {
        WalkStep(old(nodes), word, i);
        var n := nodes[current - 1];
        var child := if word[i] then n.right else n.left;
        if child == 0 {
          child := |nodes| + 1;
          nodes := (nodes + [NewNode(current)])[current - 1 := if word[i] then n.(right := child) else n.(left := child)];
        }
        current := child;
      }
      assert word[..|word|] == word;
      ghost var walked := nodes;
      nodes := nodes[current - 1 := nodes[current - 1].(isEnd := true)];
      assert nodes == Mark(walked, current);
      assert (walked, current) == Walk(old(nodes), word);
      assert Inserted(old(nodes), word) == (Mark(walked, current), current);
      r := current;
    }

    /** `contains`: the walk along `word` stays in the trie and ends at an end node. */
    method Contains(word: seq<bool>) returns (b: bool)
      requires Valid()
      ensures b == ContainsWord(nodes, word)
    {
      var current := root;
      for i := 0 to |word|
        invariant current == Find(nodes, word[..i]) && current != 0
      {
        FindStep(nodes, word, i);
        current := if word[i] then nodes[current - 1].right else nodes[current - 1].left;
        if current == 0 {
          FindZeroStays(nodes, word, i + 1);
          return false;
        }
      }
      assert word[..|word|] == word;
      b := nodes[current - 1].isEnd;
    }

    /** `search`: the node `word` leads to, or `0` as soon as a child is missing. */
    method Search(word: seq<bool>) returns (r: nat)
      requires Valid()
      ensures r == Find(nodes, word)
    {
      var current := root;
      for i := 0 to |word|
        invariant current == Find(nodes, word[..i]) && current != 0
      {
        FindStep(nodes, word, i);
        current := if word[i] then nodes[current - 1].right else nodes[current - 1].left;
        if current == 0 {
          FindZeroStays(nodes, word, i + 1);
          return 0;
        }
      }
      assert word[..|word|] == word;
      r := current;
    }

    /** `level`: count parent links up to the node whose parent is `0`. */
    method Level(index: nat) returns (i: nat)
      requires Valid() && 0 < index <= |nodes|
      ensures i == Depth(nodes, index)
    {
      i := 0;
      var current := index;
      while true
        invariant 0 < current <= |nodes| && i + Depth(nodes, current) == Depth(nodes, index)
        decreases current
      {
        assert NodeOk(nodes, current - 1);
        var p := nodes[current - 1].parent;
        if p == 0 {
          break;
        }
        current := p;
        i := i + 1;
      }
    }
  }

  /** `build_trie`: a new trie with every cube inserted in order. */
  method BuildTrie(cubes: seq<seq<bool>>) returns (trie: Trie)
    ensures fresh(trie) && trie.Valid() && trie.nodes == BuildNodes(cubes)
    ensures forall i :: 0 <= i < |cubes| ==> ContainsWord(trie.nodes, cubes[i])
  {
    trie := new Trie();
    for i := 0 to |cubes|
      invariant trie.Valid() && trie.nodes == BuildNodes(cubes[..i])
    {
      assert cubes[..i + 1][..i] == cubes[..i];
      var _ := trie.Insert(cubes[i]);
    }
    assert cubes[..|cubes|] == cubes;
    forall i | 0 <= i < |cubes|
      ensures ContainsWord(trie.nodes, cubes[i])
    {
      BuildContains(cubes, i);
    }
  }

  /** `test_insert_single_word`: inserting `[true, false, true]` into a new trie builds a single path. */
  lemma InsertSingleWord()
    ensures Inserted(NewNodes(), [true, false, true])
         == ([TrieNode(0, 0, 2, false), TrieNode(1, 3, 0, false), TrieNode(2, 0, 4, false), TrieNode(3, 0, 0, true)], 4)
  {
    var w := [true, false, true];
    var n0 := NewNodes();
    var n1 := [TrieNode(0, 0, 2, false), TrieNode(1, 0, 0, false)];
    var n2 := [TrieNode(0, 0, 2, false), TrieNode(1, 3, 0, false), TrieNode(2, 0, 0, false)];
    var n3 := [TrieNode(0, 0, 2, false), TrieNode(1, 3, 0, false), TrieNode(2, 0, 4, false), TrieNode(3, 0, 0, false)];
    assert w[..2] == [true, false] && w[..2][..1] == [true] && w[..2][..1][..0] == [];
    assert Walk(n0, []) == (n0, 1);
    assert Linked(n0, 1, true) == n1;
    assert Walk(n0, [true]) == (n1, 2);
    assert Linked(n1, 2, false) == n2;
    assert Walk(n0, [true, false]) == (n2, 3);
    assert Linked(n2, 3, true) == n3;
    assert Walk(n0, w) == (n3, 4);
    assert Mark(n3, 4) == [TrieNode(0, 0, 2, false), TrieNode(1, 3, 0, false), TrieNode(2, 0, 4, false), TrieNode(3, 0, 0, true)];
    assert Inserted(n0, w) == (Mark(n3, 4), 4);
  }
}
