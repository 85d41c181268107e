/**
 * The SAT encoding of Boolean-formula synthesis (examples/bf/src/encoding_formula.rs):
 * a formula of `n` nodes, node 1 its root, each node a terminal (an input
 * variable), an AND, an OR or a NOT, whose children are nodes with larger
 * numbers, has to agree with every row of a truth table. The encoder
 * allocates one-hot variables for each node's type, variable index, parent
 * and child, one value variable per node and row, and emits the structural
 * and semantic clauses in a fixed order.
 *
 * The nested `Map`s of the source become tables: row `node - 1` of a table
 * holds the variables `new_direct` allocated for that node, in the order of
 * the keys it was given, so a key is looked up by its position (see the
 * accessors below).
 */
module BfEncodingFormula {
  import opened Semantics
  import opened Seqs
  import opened CoreEncoder
  import opened BfEncoder
  import opened BfTable

  datatype NodeType = Terminal | And | Or | Not

  /** The keys of a node's type variables, in the order they are allocated. */
  const AllTypes: seq<NodeType> := [Terminal, And, Or, Not]

  /** The position of a type among `AllTypes`. */
  function Ord(t: NodeType): (i: nat)
    ensures i < |AllTypes| && AllTypes[i] == t
  {
    match t
    case Terminal => 0
    case And => 1
    case Or => 2
    case Not => 3
  }

  /** The loops `for node_type in [And, Or]`. */
  function BinaryOp(i: nat): NodeType
  {
    if i == 0 then And else Or
  }

  type Table = seq<seq<int>>
  type Clauses = seq<seq<int>>

  /** The entry at row `k`, position `j`; 0 where the table has none. */
  function Entry(t: Table, k: int, j: int): int
  {
    if 0 <= k < |t| && 0 <= j < |t[k]| then t[k][j] else 0
  }

  function RowOf(t: Table, k: int): seq<int>
  {
    if 0 <= k < |t| then t[k] else []
  }

  /** Every variable of the table is a positive DIMACS variable. */
  predicate Positive(t: Table)
  {
    forall k, j :: 0 <= k < |t| && 0 <= j < |t[k]| ==> t[k][j] > 0
  }

  /** Every variable of the table lies in `lo + 1 ..= hi`. */
  predicate Within(t: Table, lo: nat, hi: nat)
  {
    forall k, j :: 0 <= k < |t| && 0 <= j < |t[k]| ==> lo < t[k][j] <= hi
  }

  /** `BooleanFormulaSynthesis`: the variables of every node. */
  datatype Synthesis = Synthesis(nodeType: Table, index: Table, parent: Table, child: Table, value: Table)

  /**
   * The tables as the encoder allocates them for `n` nodes, `vars` input
   * variables and `rows` truth-table rows: four type variables per node, one
   * index variable per index `0..=vars`, one parent variable per candidate
   * parent `1..node` for every node from 2 on, one child variable for
   * "no child" and one per candidate child `node+1..=n`, and one value
   * variable per row.
   */
  predicate Shaped(s: Synthesis, n: nat, vars: nat, rows: nat)
  {
    && |s.nodeType| == n && (forall k :: 0 <= k < n ==> |s.nodeType[k]| == 4)
    && |s.index| == n && (forall k :: 0 <= k < n ==> |s.index[k]| == vars + 1)
    && |s.parent| == n - 1 && (forall k :: 0 <= k < n - 1 ==> |s.parent[k]| == k + 1)
    && |s.child| == n && (forall k :: 0 <= k < n ==> |s.child[k]| == n - k)
    && |s.value| == n && (forall k :: 0 <= k < n ==> |s.value[k]| == rows)
    && Positive(s.nodeType) && Positive(s.index) && Positive(s.parent) && Positive(s.child) && Positive(s.value)
  }

  // ---------- lookups ----------

  /** `node_type[node][t]`. */
  function TypeVar(types: Table, node: nat, t: NodeType): int
  {
    Entry(types, node - 1, Ord(t))
  }

  /** `index[node][i]`: the keys are `0..=vars`. */
  function IndexVar(index: Table, node: nat, i: nat): int
  {
    Entry(index, node - 1, i)
  }

  /** `parent[node][p]`: the table starts at node 2 and the keys are `1..node`. */
  function ParentVar(parent: Table, node: nat, p: nat): int
  {
    Entry(parent, node - 2, p - 1)
  }

  /** `child[node][c]`: the keys are `0` and then `node+1..=n`. */
  function ChildVar(child: Table, node: nat, c: nat): int
  {
    Entry(child, node - 1, if c == 0 then 0 else c - node)
  }

  /** `value[(node, row)]`. */
  function ValueVar(value: Table, node: nat, row: nat): int
  {
    Entry(value, node - 1, row)
  }

  function Output(rows: seq<Row>, row: nat): bool
  {
    if row < |rows| then rows[row].1 else false
  }

  function Input(rows: seq<Row>, row: nat, i: int): bool
  {
    if row < |rows| && 0 <= i < |rows[row].0| then rows[row].0[i] else false
  }

  /** The literal that is true when `v` has the value `b`. */
  function Signed(v: int, b: bool): int
  {
    if b then v else -v
  }

  // ---------- clause lists of loops ----------

  /** The clauses of `for k in lo..hi { f(k) }`, in order. */
  function Each(lo: nat, hi: nat, f: nat -> Clauses): Clauses
    decreases hi - lo
  {
    if hi <= lo then [] else Each(lo, hi - 1, f) + f(hi - 1)
  }

  lemma {:induction false} EachSat(m: Model, lo: nat, hi: nat, f: nat -> Clauses)
    ensures CnfSat(m, Each(lo, hi, f)) <==> forall k :: lo <= k < hi ==> CnfSat(m, f(k))
    decreases hi - lo
  {
    if hi > lo {
      CnfSatAppend(m, Each(lo, hi - 1, f), f(hi - 1));
      EachSat(m, lo, hi - 1, f);
    }
  }

  lemma {:induction false} EachFrame(lo: nat, hi: nat, f: nat -> Clauses, g: nat -> Clauses)
    requires forall k :: lo <= k < hi ==> f(k) == g(k)
    ensures Each(lo, hi, f) == Each(lo, hi, g)
    decreases hi - lo
  {
    if hi > lo {
      EachFrame(lo, hi - 1, f, g);
    }
  }

  /** A range whose end is below its start is empty, like one that ends at its start. */
  lemma EachClamp(lo: nat, hi: nat, f: nat -> Clauses)
    ensures Each(lo, hi, f) == Each(lo, if hi < lo then lo else hi, f)
  {
  }

  // ---------- the phases of the encoding ----------

  /** `exactly_one` over the variables of rows `lo - off .. hi - off` of a table. */
  function OneEachFn(t: Table, off: nat): nat -> Clauses
  {
    (k: nat) => ExactlyOneClauses(RowOf(t, k - off))
  }

  /** The last node is a terminal; when `n > 1` the node before it is neither AND nor OR. */
  function LastClauses(types: Table, n: nat): Clauses
  {
    [[TypeVar(types, n, Terminal)]]
    + (if n > 1 then [[-TypeVar(types, n - 1, And)], [-TypeVar(types, n - 1, Or)]] else [])
  }

  /** A node is a terminal exactly when its index is not 0. */
  function TermIndexFn(types: Table, index: Table): nat -> Clauses
  {
    (node: nat) => [[-TypeVar(types, node, Terminal), -IndexVar(index, node, 0)],
             [TypeVar(types, node, Terminal), IndexVar(index, node, 0)]]
  }

  /** The BFS order: the parent of `node + 1` is not below the parent `p1 >= 2` of `node`. */
  function BfsPairFn(parent: Table, node: nat, p1: nat): nat -> Clauses
  {
    (p2: nat) => [[-ParentVar(parent, node, p1), -ParentVar(parent, node + 1, p2)]]
  }

  function BfsParentFn(parent: Table, node: nat): nat -> Clauses
  {
    (p1: nat) => Each(1, p1, BfsPairFn(parent, node, p1))
  }

  function BfsFn(parent: Table): nat -> Clauses
  {
    (node: nat) => Each(2, node, BfsParentFn(parent, node))
  }

  /** A child of `node` has `node` as its parent. */
  function ChildParentPairFn(child: Table, parent: Table, node: nat): nat -> Clauses
  {
    (c: nat) => [[-ChildVar(child, node, c), ParentVar(parent, c, node)]]
  }

  function ChildParentFn(child: Table, parent: Table, n: nat): nat -> Clauses
  {
    (node: nat) => Each(node + 1, n + 1, ChildParentPairFn(child, parent, node))
  }

  /** A node without a child is nobody's parent. */
  function NoChildPairFn(child: Table, parent: Table, node: nat): nat -> Clauses
  {
    (c: nat) => [[-ChildVar(child, node, 0), -ParentVar(parent, c, node)]]
  }

  function NoChildFn(child: Table, parent: Table, n: nat): nat -> Clauses
  {
    (node: nat) => Each(node + 1, n + 1, NoChildPairFn(child, parent, node))
  }

  /** A node is a terminal exactly when it has no child. */
  function TermChildFn(types: Table, child: Table): nat -> Clauses
  {
    (node: nat) => [[-TypeVar(types, node, Terminal), ChildVar(child, node, 0)],
             [TypeVar(types, node, Terminal), -ChildVar(child, node, 0)]]
  }

  /** A NOT node's child is the node whose parent it is. */
  function UnaryPairFn(types: Table, parent: Table, child: Table, node: nat): nat -> Clauses
  {
    (c: nat) => [[-TypeVar(types, node, Not), -ParentVar(parent, c, node), ChildVar(child, node, c)]]
  }

  function UnaryFn(types: Table, parent: Table, child: Table, n: nat): nat -> Clauses
  {
    (node: nat) => Each(node + 1, n, UnaryPairFn(types, parent, child, node))
  }

  /** A binary node that is the parent of `c` and `c + 1` has `c` as its (left) child. */
  function BinaryLeftPairFn(types: Table, parent: Table, child: Table, node: nat, t: NodeType): nat -> Clauses
  {
    (c: nat) => [[-TypeVar(types, node, t), -ParentVar(parent, c, node), -ParentVar(parent, c + 1, node), ChildVar(child, node, c)]]
  }

  function BinaryLeftOpFn(types: Table, parent: Table, child: Table, n: nat, node: nat): nat -> Clauses
  {
    (i: nat) => Each(node + 1, n, BinaryLeftPairFn(types, parent, child, node, BinaryOp(i)))
  }

  function BinaryLeftFn(types: Table, parent: Table, child: Table, n: nat): nat -> Clauses
  {
    (node: nat) => Each(0, 2, BinaryLeftOpFn(types, parent, child, n, node))
  }

  /** A binary node whose (left) child is `c` is also the parent of `c + 1`. */
  function BinaryRightPairFn(types: Table, parent: Table, child: Table, node: nat, t: NodeType): nat -> Clauses
  {
    (c: nat) => [[-TypeVar(types, node, t), -ChildVar(child, node, c), ParentVar(parent, c + 1, node)]]
  }

  function BinaryRightOpFn(types: Table, parent: Table, child: Table, n: nat, node: nat): nat -> Clauses
  {
    (i: nat) => Each(node + 1, n, BinaryRightPairFn(types, parent, child, node, BinaryOp(i)))
  }

  function BinaryRightFn(types: Table, parent: Table, child: Table, n: nat): nat -> Clauses
  {
    (node: nat) => Each(0, 2, BinaryRightOpFn(types, parent, child, n, node))
  }

  /** The left child of a binary node is not the last node. */
  function NotLastOpFn(types: Table, child: Table, n: nat, node: nat): nat -> Clauses
  {
    (i: nat) => [[-TypeVar(types, node, BinaryOp(i)), -ChildVar(child, node, n)]]
  }

  function NotLastFn(types: Table, child: Table, n: nat): nat -> Clauses
  {
    (node: nat) => Each(0, 2, NotLastOpFn(types, child, n, node))
  }

  /** The root's value in each row is that row's output. */
  function RootFn(value: Table, rows: seq<Row>): nat -> Clauses
  {
    (row: nat) => [[Signed(ValueVar(value, 1, row), Output(rows, row))]]
  }

  /** A terminal with index `i` has the value of input `i` in each row. */
  function TerminalIndexFn(index: Table, value: Table, rows: seq<Row>, node: nat, row: nat): nat -> Clauses
  {
    (i: nat) => [[-IndexVar(index, node, i), Signed(ValueVar(value, node, row), Input(rows, row, i - 1))]]
  }

  function TerminalRowFn(index: Table, value: Table, rows: seq<Row>, vars: nat, node: nat): nat -> Clauses
  {
    (row: nat) => Each(1, vars + 1, TerminalIndexFn(index, value, rows, node, row))
  }

  function TerminalFn(index: Table, value: Table, rows: seq<Row>, vars: nat): nat -> Clauses
  {
    (node: nat) => Each(0, |rows|, TerminalRowFn(index, value, rows, vars, node))
  }

  /** An AND node with child `c` has, in each row, the conjunction of the values of `c` and `c + 1`. */
  function AndRowFn(types: Table, child: Table, value: Table, node: nat, c: nat): nat -> Clauses
  {
    (row: nat) =>
      var t := TypeVar(types, node, And);
      var ch := ChildVar(child, node, c);
      var v := ValueVar(value, node, row);
      var v1 := ValueVar(value, c, row);
      var v2 := ValueVar(value, c + 1, row);
      [[-t, -ch, v, -v1, -v2], [-t, -ch, -v, v1], [-t, -ch, -v, v2]]
  }

  function AndChildFn(types: Table, child: Table, value: Table, rows: nat, node: nat): nat -> Clauses
  {
    (c: nat) => Each(0, rows, AndRowFn(types, child, value, node, c))
  }

  function AndFn(types: Table, child: Table, value: Table, rows: nat, n: nat): nat -> Clauses
  {
    (node: nat) => Each(node + 1, n, AndChildFn(types, child, value, rows, node))
  }

  /** An OR node with child `c` has, in each row, the disjunction of the values of `c` and `c + 1`. */
  function OrRowFn(types: Table, child: Table, value: Table, node: nat, c: nat): nat -> Clauses
  {
    (row: nat) =>
      var t := TypeVar(types, node, Or);
      var ch := ChildVar(child, node, c);
      var v := ValueVar(value, node, row);
      var v1 := ValueVar(value, c, row);
      var v2 := ValueVar(value, c + 1, row);
      [[-t, -ch, -v, v1, v2], [-t, -ch, v, -v1], [-t, -ch, v, -v2]]
  }

  function OrChildFn(types: Table, child: Table, value: Table, rows: nat, node: nat): nat -> Clauses
  {
    (c: nat) => Each(0, rows, OrRowFn(types, child, value, node, c))
  }

  function OrFn(types: Table, child: Table, value: Table, rows: nat, n: nat): nat -> Clauses
  {
    (node: nat) => Each(node + 1, n, OrChildFn(types, child, value, rows, node))
  }

  /** A NOT node with child `c` has, in each row, the negation of the value of `c`. */
  function NotRowFn(types: Table, child: Table, value: Table, node: nat, c: nat): nat -> Clauses
  {
    (row: nat) =>
      var t := TypeVar(types, node, Not);
      var ch := ChildVar(child, node, c);
      var v := ValueVar(value, node, row);
      var vc := ValueVar(value, c, row);
      [[-t, -ch, -v, -vc], [-t, -ch, v, vc]]
  }

  function NotChildFn(types: Table, child: Table, value: Table, rows: nat, node: nat): nat -> Clauses
  {
    (c: nat) => Each(0, rows, NotRowFn(types, child, value, node, c))
  }

  function NotFn(types: Table, child: Table, value: Table, rows: nat, n: nat): nat -> Clauses
  {
    (node: nat) => Each(node + 1, n + 1, NotChildFn(types, child, value, rows, node))
  }

  /** The clauses on node types and indices, in the order the encoder emits them. */
  function NodeClauses(types: Table, index: Table, n: nat): Clauses
  {
    Each(1, n + 1, OneEachFn(types, 1))
    + LastClauses(types, n)
    + Each(1, n + 1, OneEachFn(index, 1))
    + Each(1, n + 1, TermIndexFn(types, index))
  }

  /** The clauses on parents alone. */
  function ParentClauses(parent: Table, n: nat): Clauses
  {
    Each(2, n + 1, OneEachFn(parent, 2))
    + Each(3, n, BfsFn(parent))
  }

  /** The clauses tying children to parents and types. */
  function ChildClauses(types: Table, parent: Table, child: Table, n: nat): Clauses
  {
    Each(1, n + 1, OneEachFn(child, 1))
    + Each(1, n + 1, ChildParentFn(child, parent, n))
    + Each(1, n + 1, NoChildFn(child, parent, n))
    + Each(1, n + 1, TermChildFn(types, child))
    + Each(1, n + 1, UnaryFn(types, parent, child, n))
    + Each(1, n + 1, BinaryLeftFn(types, parent, child, n))
    + Each(1, n + 1, BinaryRightFn(types, parent, child, n))
    + Each(1, n, NotLastFn(types, child, n))
  }

  /** The semantic clauses, in the order the encoder emits them. */
  function SemanticsClauses(s: Synthesis, n: nat, vars: nat, rows: seq<Row>): Clauses
  {
    Each(0, |rows|, RootFn(s.value, rows))
    + Each(1, n + 1, TerminalFn(s.index, s.value, rows, vars))
    + Each(1, n, AndFn(s.nodeType, s.child, s.value, |rows|, n))
    + Each(1, n, OrFn(s.nodeType, s.child, s.value, |rows|, n))
    + Each(1, n + 1, NotFn(s.nodeType, s.child, s.value, |rows|, n))
  }

  /** Every clause `encode_boolean_synthesis` emits, in order. */
  function SynthesisClauses(s: Synthesis, n: nat, vars: nat, rows: seq<Row>): Clauses
  {
    NodeClauses(s.nodeType, s.index, n) + ParentClauses(s.parent, n) + ChildClauses(s.nodeType, s.parent, s.child, n)
    + SemanticsClauses(s, n, vars, rows)
  }

  // ---------- the encoder ----------

  /** `0 + 1 + ... + (k - 1)`. */
  function Triangle(k: nat): nat
  {
    if k == 0 then 0 else Triangle(k - 1) + (k - 1)
  }

  lemma EachStep(c0: Clauses, lo: nat, hi: nat, f: nat -> Clauses)
    requires lo <= hi
    ensures c0 + Each(lo, hi + 1, f) == c0 + Each(lo, hi, f) + f(hi)
  {
    AppendAssoc(c0, Each(lo, hi, f), f(hi));
  }

  lemma MulSucc(a: nat, b: nat)
    ensures a * b + b == (a + 1) * b
  {
  }

  /** One more index whose clause list is the single clause `cl`. */
  lemma EachStep1(c0: Clauses, lo: nat, hi: nat, f: nat -> Clauses, cl: seq<int>)
    requires lo <= hi && f(hi) == [cl]
    ensures c0 + Each(lo, hi + 1, f) == c0 + Each(lo, hi, f) + [cl]
  {
    AppendAssoc(c0, Each(lo, hi, f), f(hi));
  }

  /** `new_direct(keys)` followed by `exactly_one` over its variables. */
  method DirectOne<T(==)>(enc: SatEncoder, keys: seq<T>) returns (vs: seq<int>)
    requires |keys| > 0
    modifies enc
    ensures |vs| == |keys| && forall i :: 0 <= i < |vs| ==> vs[i] == old(enc.numVars) + i + 1
    ensures enc.numVars == old(enc.numVars) + |keys| && enc.clauses == old(enc.clauses) + ExactlyOneClauses(vs)
  {
    var direct := enc.NewDirect(keys);
    vs := direct.values;
    enc.ExactlyOne(vs);
  }

  /** Appending a row of fresh variables keeps a table within the allocated range. */
  lemma WithinSnoc(t: Table, r: seq<int>, lo: nat, mid: nat, hi: nat)
    requires Within(t, lo, mid) && lo <= mid <= hi
    requires forall j :: 0 <= j < |r| ==> mid < r[j] <= hi
    ensures Within(t + [r], lo, hi)
  {
    forall k, j | 0 <= k < |t + [r]| && 0 <= j < |(t + [r])[k]|
      ensures lo < (t + [r])[k][j] <= hi
    {
      if k < |t| {
        assert (t + [r])[k] == t[k];
      } else {
        assert (t + [r])[k] == r;
      }
    }
  }

  /** One more row of one-hot variables adds that row's `exactly_one` clauses. */
  lemma OneEachSnoc(c0: Clauses, t: Table, r: seq<int>, off: nat)
    ensures c0 + Each(off, off + |t| + 1, OneEachFn(t + [r], off))
         == c0 + Each(off, off + |t|, OneEachFn(t, off)) + ExactlyOneClauses(r)
  {
    var f, g := OneEachFn(t, off), OneEachFn(t + [r], off);
    forall k | off <= k < off + |t|
      ensures f(k) == g(k)
    {
      assert (t + [r])[k - off] == t[k - off];
    }
    EachFrame(off, off + |t|, f, g);
    assert RowOf(t + [r], |t|) == r;
    assert g(off + |t|) == ExactlyOneClauses(RowOf(t + [r], |t|));
    assert Each(off, off + |t| + 1, g) == Each(off, off + |t|, g) + g(off + |t|);
    AppendAssoc(c0, Each(off, off + |t|, OneEachFn(t, off)), ExactlyOneClauses(r));
  }

  /** The node-type variables, each node's `exactly_one` right after its allocation. */
  method TypePhase(enc: SatEncoder, n: nat) returns (types: Table)
    modifies enc
    ensures |types| == n && (forall k :: 0 <= k < n ==> |types[k]| == 4)
    ensures Within(types, old(enc.numVars), enc.numVars) && enc.numVars == old(enc.numVars) + 4 * n
    ensures enc.clauses == old(enc.clauses) + Each(1, n + 1, OneEachFn(types, 1))
  {
    types := [];
    for node := 1 to n + 1
      invariant |types| == node - 1 && (forall k :: 0 <= k < node - 1 ==> |types[k]| == 4)
      invariant Within(types, old(enc.numVars), enc.numVars) && enc.numVars == old(enc.numVars) + 4 * (node - 1)
      invariant enc.clauses == old(enc.clauses) + Each(1, node, OneEachFn(types, 1))
    {
      ghost var mid := enc.numVars;
      var vs := DirectOne(enc, AllTypes);
      WithinSnoc(types, vs, old(enc.numVars), mid, enc.numVars);
      OneEachSnoc(old(enc.clauses), types, vs, 1);
      types := types + [vs];
    }
  }

  /** The unit clauses on the last two nodes' types. */
  method LastPhase(enc: SatEncoder, types: Table, n: nat)
    requires n >= 1
    modifies enc
    ensures enc.numVars == old(enc.numVars) && enc.clauses == old(enc.clauses) + LastClauses(types, n)
  {
    enc.AddClause([TypeVar(types, n, Terminal)]);
    if n > 1 {
      enc.AddClause([-TypeVar(types, n - 1, And)]);
    }
    if n > 1 {
      enc.AddClause([-TypeVar(types, n - 1, Or)]);
    }
  }

  /** The index variables `0..=vars` of every node, each with its `exactly_one`. */
  method IndexPhase(enc: SatEncoder, n: nat, vars: nat) returns (index: Table)
    modifies enc
    ensures |index| == n && (forall k :: 0 <= k < n ==> |index[k]| == vars + 1)
    ensures Within(index, old(enc.numVars), enc.numVars) && enc.numVars == old(enc.numVars) + n * (vars + 1)
    ensures enc.clauses == old(enc.clauses) + Each(1, n + 1, OneEachFn(index, 1))
  {
    index := [];
    for node := 1 to n + 1
      invariant |index| == node - 1 && (forall k :: 0 <= k < node - 1 ==> |index[k]| == vars + 1)
      invariant Within(index, old(enc.numVars), enc.numVars) && enc.numVars == old(enc.numVars) + (node - 1) * (vars + 1)
      invariant enc.clauses == old(enc.clauses) + Each(1, node, OneEachFn(index, 1))
    {
      ghost var mid := enc.numVars;
      var vs := DirectOne(enc, seq(vars + 1, (i: nat) => i));
      MulSucc(node - 1, vars + 1);
      WithinSnoc(index, vs, old(enc.numVars), mid, enc.numVars);
      OneEachSnoc(old(enc.clauses), index, vs, 1);
      index := index + [vs];
    }
  }

  method TermIndexPhase(enc: SatEncoder, types: Table, index: Table, n: nat)
    modifies enc
    ensures enc.numVars == old(enc.numVars)
    ensures enc.clauses == old(enc.clauses) + Each(1, n + 1, TermIndexFn(types, index))
  {
    for node := 1 to n + 1
      invariant enc.numVars == old(enc.numVars)
      invariant enc.clauses == old(enc.clauses) + Each(1, node, TermIndexFn(types, index))
    {
      var t := TypeVar(types, node, Terminal);
      var v := IndexVar(index, node, 0);
      EachStep(old(enc.clauses), 1, node, TermIndexFn(types, index));
      enc.AddClause([-t, -v]);
      enc.AddClause([t, v]);
    }
  }

  /** The parent variables `1..node` of every node from 2 on, each with its `exactly_one`. */
  method ParentPhase(enc: SatEncoder, n: nat) returns (parent: Table)
    requires n >= 1
    modifies enc
    ensures |parent| == n - 1 && (forall k :: 0 <= k < n - 1 ==> |parent[k]| == k + 1)
    ensures Within(parent, old(enc.numVars), enc.numVars) && enc.numVars == old(enc.numVars) + Triangle(n)
    ensures enc.clauses == old(enc.clauses) + Each(2, n + 1, OneEachFn(parent, 2))
  {
    parent := [];
    for node := 2 to n + 1
      invariant |parent| == node - 2 && (forall k :: 0 <= k < node - 2 ==> |parent[k]| == k + 1)
      invariant Within(parent, old(enc.numVars), enc.numVars) && enc.numVars == old(enc.numVars) + Triangle(node - 1)
      invariant enc.clauses == old(enc.clauses) + Each(2, node, OneEachFn(parent, 2))
    {
      ghost var mid := enc.numVars;
      var vs := DirectOne(enc, seq(node - 1, (i: nat) => i + 1));
      TriangleStep(node - 1);
      WithinSnoc(parent, vs, old(enc.numVars), mid, enc.numVars);
      OneEachSnoc(old(enc.clauses), parent, vs, 2);
      parent := parent + [vs];
    }
  }

  /** The BFS clauses of one node and one parent `p1`. */
  method BfsParent(enc: SatEncoder, parent: Table, node: nat, p1: nat)
    modifies enc
    ensures enc.numVars == old(enc.numVars)
    ensures enc.clauses == old(enc.clauses) + BfsParentFn(parent, node)(p1)
  {
    EachClamp(1, p1, BfsPairFn(parent, node, p1));
    for p2 := 1 to if p1 < 1 then 1 else p1
      invariant enc.numVars == old(enc.numVars)
      invariant enc.clauses == old(enc.clauses) + Each(1, p2, BfsPairFn(parent, node, p1))
    {
      var a := ParentVar(parent, node, p1);
      var b := ParentVar(parent, node + 1, p2);
      EachStep1(old(enc.clauses), 1, p2, BfsPairFn(parent, node, p1), [-a, -b]);
      enc.AddClause([-a, -b]);
    }
  }

  /** The BFS clauses of one node. */
  method BfsNode(enc: SatEncoder, parent: Table, node: nat)
    requires node >= 2
    modifies enc
    ensures enc.numVars == old(enc.numVars)
    ensures enc.clauses == old(enc.clauses) + BfsFn(parent)(node)
  {
    for p1 := 2 to node
      invariant enc.numVars == old(enc.numVars)
      invariant enc.clauses == old(enc.clauses) + Each(2, p1, BfsParentFn(parent, node))
    {
      EachStep(old(enc.clauses), 2, p1, BfsParentFn(parent, node));
      BfsParent(enc, parent, node, p1);
    }
  }

  /** The BFS clauses; the range `3..=n-1` is empty when `n < 4`. */
  method BfsPhase(enc: SatEncoder, parent: Table, n: nat)
    modifies enc
    ensures enc.numVars == old(enc.numVars)
    ensures enc.clauses == old(enc.clauses) + Each(3, n, BfsFn(parent))
  {
    EachClamp(3, n, BfsFn(parent));
    for node := 3 to if n < 3 then 3 else n
      invariant enc.numVars == old(enc.numVars)
      invariant enc.clauses == old(enc.clauses) + Each(3, node, BfsFn(parent))
    {
      EachStep(old(enc.clauses), 3, node, BfsFn(parent));
      BfsNode(enc, parent, node);
    }
  }

  /** The keys of a node's child variables: 0 for "no child", then `node+1..=n`. */
  function ChildKeys(n: nat, node: nat): (keys: seq<nat>)
    requires node <= n
    ensures |keys| == n - node + 1
  {
    [0] + seq(n - node, (i: nat) => node + 1 + i)
  }

  lemma TriangleStep(k: nat)
    ensures Triangle(k + 1) == Triangle(k) + k
  {
  }

  /** The child variables, "no child" first and then `node+1..=n`, each node with its `exactly_one`. */
  method ChildPhase(enc: SatEncoder, n: nat) returns (child: Table)
    modifies enc
    ensures |child| == n && (forall k :: 0 <= k < n ==> |child[k]| == n - k)
    ensures Within(child, old(enc.numVars), enc.numVars) && enc.numVars == old(enc.numVars) + Triangle(n + 1)
    ensures enc.clauses == old(enc.clauses) + Each(1, n + 1, OneEachFn(child, 1))
  {
    child := [];
    for node := 1 to n + 1
      invariant |child| == node - 1 && (forall k :: 0 <= k < node - 1 ==> |child[k]| == n - k)
      invariant Within(child, old(enc.numVars), enc.numVars)
      invariant enc.numVars + Triangle(n + 2 - node) == old(enc.numVars) + Triangle(n + 1)
      invariant enc.clauses == old(enc.clauses) + Each(1, node, OneEachFn(child, 1))
    {
      ghost var mid := enc.numVars;
      var vs := DirectOne(enc, ChildKeys(n, node));
      TriangleStep(n + 1 - node);
      WithinSnoc(child, vs, old(enc.numVars), mid, enc.numVars);
      OneEachSnoc(old(enc.clauses), child, vs, 1);
      child := child + [vs];
    }
  }

  method ChildParentNode(enc: SatEncoder, child: Table, parent: Table, n: nat, node: nat)
    requires node <= n
    modifies enc
    ensures enc.numVars == old(enc.numVars)
    ensures enc.clauses == old(enc.clauses) + ChildParentFn(child, parent, n)(node)
  {
    for c := node + 1 to n + 1
      invariant enc.numVars == old(enc.numVars)
      invariant enc.clauses == old(enc.clauses) + Each(node + 1, c, ChildParentPairFn(child, parent, node))
    {
      var ch := ChildVar(child, node, c);
      var p := ParentVar(parent, c, node);
      EachStep1(old(enc.clauses), node + 1, c, ChildParentPairFn(child, parent, node), [-ch, p]);
      enc.AddClause([-ch, p]);
    }
  }

  method ChildParentPhase(enc: SatEncoder, child: Table, parent: Table, n: nat)
    modifies enc
    ensures enc.numVars == old(enc.numVars)
    ensures enc.clauses == old(enc.clauses) + Each(1, n + 1, ChildParentFn(child, parent, n))
  {
    for node := 1 to n + 1
      invariant enc.numVars == old(enc.numVars)
      invariant enc.clauses == old(enc.clauses) + Each(1, node, ChildParentFn(child, parent, n))
    {
      EachStep(old(enc.clauses), 1, node, ChildParentFn(child, parent, n));
      ChildParentNode(enc, child, parent, n, node);
    }
  }

  method NoChildNode(enc: SatEncoder, child: Table, parent: Table, n: nat, node: nat)
    requires node <= n
    modifies enc
    ensures enc.numVars == old(enc.numVars)
    ensures enc.clauses == old(enc.clauses) + NoChildFn(child, parent, n)(node)
  {
    var ch := ChildVar(child, node, 0);
    for c := node + 1 to n + 1
      invariant enc.numVars == old(enc.numVars)
      invariant enc.clauses == old(enc.clauses) + Each(node + 1, c, NoChildPairFn(child, parent, node))
    {
      var p := ParentVar(parent, c, node);
      EachStep1(old(enc.clauses), node + 1, c, NoChildPairFn(child, parent, node), [-ch, -p]);
      enc.AddClause([-ch, -p]);
    }
  }

  method NoChildPhase(enc: SatEncoder, child: Table, parent: Table, n: nat)
    modifies enc
    ensures enc.numVars == old(enc.numVars)
    ensures enc.clauses == old(enc.clauses) + Each(1, n + 1, NoChildFn(child, parent, n))
  {
    for node := 1 to n + 1
      invariant enc.numVars == old(enc.numVars)
      invariant enc.clauses == old(enc.clauses) + Each(1, node, NoChildFn(child, parent, n))
    {
      EachStep(old(enc.clauses), 1, node, NoChildFn(child, parent, n));
      NoChildNode(enc, child, parent, n, node);
    }
  }

  method TermChildPhase(enc: SatEncoder, types: Table, child: Table, n: nat)
    modifies enc
    ensures enc.numVars == old(enc.numVars)
    ensures enc.clauses == old(enc.clauses) + Each(1, n + 1, TermChildFn(types, child))
  {
    for node := 1 to n + 1
      invariant enc.numVars == old(enc.numVars)
      invariant enc.clauses == old(enc.clauses) + Each(1, node, TermChildFn(types, child))
    {
      var t := TypeVar(types, node, Terminal);
      var ch := ChildVar(child, node, 0);
      EachStep(old(enc.clauses), 1, node, TermChildFn(types, child));
      enc.AddClause([-t, ch]);
      enc.AddClause([t, -ch]);
    }
  }

  /** The NOT-child clauses of one node; the range `node+1..=n-1` is empty for the last node. */
  method UnaryNode(enc: SatEncoder, types: Table, parent: Table, child: Table, n: nat, node: nat)
    modifies enc
    ensures enc.numVars == old(enc.numVars)
    ensures enc.clauses == old(enc.clauses) + UnaryFn(types, parent, child, n)(node)
  {
    var t := TypeVar(types, node, Not);
    EachClamp(node + 1, n, UnaryPairFn(types, parent, child, node));
    for c := node + 1 to if n < node + 1 then node + 1 else n
      invariant enc.numVars == old(enc.numVars)
      invariant enc.clauses == old(enc.clauses) + Each(node + 1, c, UnaryPairFn(types, parent, child, node))
    {
      var p := ParentVar(parent, c, node);
      var ch := ChildVar(child, node, c);
      EachStep1(old(enc.clauses), node + 1, c, UnaryPairFn(types, parent, child, node), [-t, -p, ch]);
      enc.AddClause([-t, -p, ch]);
    }
  }

  method UnaryPhase(enc: SatEncoder, types: Table, parent: Table, child: Table, n: nat)
    modifies enc
    ensures enc.numVars == old(enc.numVars)
    ensures enc.clauses == old(enc.clauses) + Each(1, n + 1, UnaryFn(types, parent, child, n))
  {
    for node := 1 to n + 1
      invariant enc.numVars == old(enc.numVars)
      invariant enc.clauses == old(enc.clauses) + Each(1, node, UnaryFn(types, parent, child, n))
    {
      EachStep(old(enc.clauses), 1, node, UnaryFn(types, parent, child, n));
      UnaryNode(enc, types, parent, child, n, node);
    }
  }

  /** The left-child clauses of one binary type at one node. */
  method BinaryLeftOp(enc: SatEncoder, types: Table, parent: Table, child: Table, n: nat, node: nat, i: nat)
    modifies enc
    ensures enc.numVars == old(enc.numVars)
    ensures enc.clauses == old(enc.clauses) + BinaryLeftOpFn(types, parent, child, n, node)(i)
  {
    var t := TypeVar(types, node, BinaryOp(i));
    EachClamp(node + 1, n, BinaryLeftPairFn(types, parent, child, node, BinaryOp(i)));
    for c := node + 1 to if n < node + 1 then node + 1 else n
      invariant enc.numVars == old(enc.numVars)
      invariant enc.clauses == old(enc.clauses) + Each(node + 1, c, BinaryLeftPairFn(types, parent, child, node, BinaryOp(i)))
    {
      var p1 := ParentVar(parent, c, node);
      var p2 := ParentVar(parent, c + 1, node);
      var ch := ChildVar(child, node, c);
      EachStep1(old(enc.clauses), node + 1, c, BinaryLeftPairFn(types, parent, child, node, BinaryOp(i)), [-t, -p1, -p2, ch]);
      enc.AddClause([-t, -p1, -p2, ch]);
    }
  }

  method BinaryLeftNode(enc: SatEncoder, types: Table, parent: Table, child: Table, n: nat, node: nat)
    modifies enc
    ensures enc.numVars == old(enc.numVars)
    ensures enc.clauses == old(enc.clauses) + BinaryLeftFn(types, parent, child, n)(node)
  {
    for i := 0 to 2
      invariant enc.numVars == old(enc.numVars)
      invariant enc.clauses == old(enc.clauses) + Each(0, i, BinaryLeftOpFn(types, parent, child, n, node))
    {
      EachStep(old(enc.clauses), 0, i, BinaryLeftOpFn(types, parent, child, n, node));
      BinaryLeftOp(enc, types, parent, child, n, node, i);
    }
  }

  method BinaryLeftPhase(enc: SatEncoder, types: Table, parent: Table, child: Table, n: nat)
    modifies enc
    ensures enc.numVars == old(enc.numVars)
    ensures enc.clauses == old(enc.clauses) + Each(1, n + 1, BinaryLeftFn(types, parent, child, n))
  {
    for node := 1 to n + 1
      invariant enc.numVars == old(enc.numVars)
      invariant enc.clauses == old(enc.clauses) + Each(1, node, BinaryLeftFn(types, parent, child, n))
    {
      EachStep(old(enc.clauses), 1, node, BinaryLeftFn(types, parent, child, n));
      BinaryLeftNode(enc, types, parent, child, n, node);
    }
  }

  /** The right-child clauses of one binary type at one node. */
  method BinaryRightOp(enc: SatEncoder, types: Table, parent: Table, child: Table, n: nat, node: nat, i: nat)
    modifies enc
    ensures enc.numVars == old(enc.numVars)
    ensures enc.clauses == old(enc.clauses) + BinaryRightOpFn(types, parent, child, n, node)(i)
  {
    var t := TypeVar(types, node, BinaryOp(i));
    EachClamp(node + 1, n, BinaryRightPairFn(types, parent, child, node, BinaryOp(i)));
    for c := node + 1 to if n < node + 1 then node + 1 else n
      invariant enc.numVars == old(enc.numVars)
      invariant enc.clauses == old(enc.clauses) + Each(node + 1, c, BinaryRightPairFn(types, parent, child, node, BinaryOp(i)))
    {
      var ch := ChildVar(child, node, c);
      var p := ParentVar(parent, c + 1, node);
      EachStep1(old(enc.clauses), node + 1, c, BinaryRightPairFn(types, parent, child, node, BinaryOp(i)), [-t, -ch, p]);
      enc.AddClause([-t, -ch, p]);
    }
  }

  method BinaryRightNode(enc: SatEncoder, types: Table, parent: Table, child: Table, n: nat, node: nat)
    modifies enc
    ensures enc.numVars == old(enc.numVars)
    ensures enc.clauses == old(enc.clauses) + BinaryRightFn(types, parent, child, n)(node)
  {
    for i := 0 to 2
      invariant enc.numVars == old(enc.numVars)
      invariant enc.clauses == old(enc.clauses) + Each(0, i, BinaryRightOpFn(types, parent, child, n, node))
    {
      EachStep(old(enc.clauses), 0, i, BinaryRightOpFn(types, parent, child, n, node));
      BinaryRightOp(enc, types, parent, child, n, node, i);
    }
  }

  method BinaryRightPhase(enc: SatEncoder, types: Table, parent: Table, child: Table, n: nat)
    modifies enc
    ensures enc.numVars == old(enc.numVars)
    ensures enc.clauses == old(enc.clauses) + Each(1, n + 1, BinaryRightFn(types, parent, child, n))
  {
    for node := 1 to n + 1
      invariant enc.numVars == old(enc.numVars)
      invariant enc.clauses == old(enc.clauses) + Each(1, node, BinaryRightFn(types, parent, child, n))
    {
      EachStep(old(enc.clauses), 1, node, BinaryRightFn(types, parent, child, n));
      BinaryRightNode(enc, types, parent, child, n, node);
    }
  }

  method NotLastNode(enc: SatEncoder, types: Table, child: Table, n: nat, node: nat)
    modifies enc
    ensures enc.numVars == old(enc.numVars)
    ensures enc.clauses == old(enc.clauses) + NotLastFn(types, child, n)(node)
  {
    for i := 0 to 2
      invariant enc.numVars == old(enc.numVars)
      invariant enc.clauses == old(enc.clauses) + Each(0, i, NotLastOpFn(types, child, n, node))
    {
      var t := TypeVar(types, node, BinaryOp(i));
      var ch := ChildVar(child, node, n);
      EachStep1(old(enc.clauses), 0, i, NotLastOpFn(types, child, n, node), [-t, -ch]);
      enc.AddClause([-t, -ch]);
    }
  }

  method NotLastPhase(enc: SatEncoder, types: Table, child: Table, n: nat)
    requires n >= 1
    modifies enc
    ensures enc.numVars == old(enc.numVars)
    ensures enc.clauses == old(enc.clauses) + Each(1, n, NotLastFn(types, child, n))
  {
    for node := 1 to n
      invariant enc.numVars == old(enc.numVars)
      invariant enc.clauses == old(enc.clauses) + Each(1, node, NotLastFn(types, child, n))
    {
      EachStep(old(enc.clauses), 1, node, NotLastFn(types, child, n));
      NotLastNode(enc, types, child, n, node);
    }
  }

  /** The value variables of one node, row by row. */
  method ValueNode(enc: SatEncoder, rows: nat) returns (vs: seq<int>)
    modifies enc
    ensures |vs| == rows && forall j :: 0 <= j < rows ==> old(enc.numVars) < vs[j] <= enc.numVars
    ensures enc.numVars == old(enc.numVars) + rows && enc.clauses == old(enc.clauses)
  {
    vs := [];
    for row := 0 to rows
      invariant |vs| == row && enc.numVars == old(enc.numVars) + row && enc.clauses == old(enc.clauses)
      invariant forall j :: 0 <= j < row ==> old(enc.numVars) < vs[j] <= enc.numVars
    {
      var v := enc.NewVar();
      vs := vs + [v];
    }
  }

  /** The value variables, node by node and row by row; no clauses. */
  method ValuePhase(enc: SatEncoder, n: nat, rows: nat) returns (value: Table)
    modifies enc
    ensures |value| == n && (forall k :: 0 <= k < n ==> |value[k]| == rows)
    ensures Within(value, old(enc.numVars), enc.numVars) && enc.numVars == old(enc.numVars) + n * rows
    ensures enc.clauses == old(enc.clauses)
  {
    value := [];
    for node := 1 to n + 1
      invariant |value| == node - 1 && (forall k :: 0 <= k < node - 1 ==> |value[k]| == rows)
      invariant Within(value, old(enc.numVars), enc.numVars) && enc.numVars == old(enc.numVars) + (node - 1) * rows
      invariant enc.clauses == old(enc.clauses)
    {
      ghost var mid := enc.numVars;
      var vs := ValueNode(enc, rows);
      assert (node - 1) * rows + rows == node * rows;
      WithinSnoc(value, vs, old(enc.numVars), mid, enc.numVars);
      value := value + [vs];
    }
  }

  /** The root's unit clauses, one per row. */
  method RootPhase(enc: SatEncoder, value: Table, rows: seq<Row>)
    modifies enc
    ensures enc.numVars == old(enc.numVars)
    ensures enc.clauses == old(enc.clauses) + Each(0, |rows|, RootFn(value, rows))
  {
    var root := 1;
    for row := 0 to |rows|
      invariant enc.numVars == old(enc.numVars)
      invariant enc.clauses == old(enc.clauses) + Each(0, row, RootFn(value, rows))
    {
      var v := ValueVar(value, root, row);
      EachStep(old(enc.clauses), 0, row, RootFn(value, rows));
      if rows[row].1 {
        enc.AddClause([v]);
      } else {
        enc.AddClause([-v]);
      }
    }
  }

  /** The clauses tying a terminal's value to the input its index selects, for one node and row. */
  method TerminalRow(enc: SatEncoder, index: Table, value: Table, rows: seq<Row>, vars: nat, node: nat, row: nat)
    requires row < |rows| && |rows[row].0| == vars
    modifies enc
    ensures enc.numVars == old(enc.numVars)
    ensures enc.clauses == old(enc.clauses) + TerminalRowFn(index, value, rows, vars, node)(row)
  {
    var inputs := rows[row].0;
    var v := ValueVar(value, node, row);
    for i := 1 to vars + 1
      invariant enc.numVars == old(enc.numVars)
      invariant enc.clauses == old(enc.clauses) + Each(1, i, TerminalIndexFn(index, value, rows, node, row))
    {
      var x := IndexVar(index, node, i);
      EachStep(old(enc.clauses), 1, i, TerminalIndexFn(index, value, rows, node, row));
      if inputs[i - 1] {
        enc.AddClause([-x, v]);
      } else {
        enc.AddClause([-x, -v]);
      }
    }
  }

  method TerminalNode(enc: SatEncoder, index: Table, value: Table, rows: seq<Row>, vars: nat, node: nat)
    requires forall row :: 0 <= row < |rows| ==> |rows[row].0| == vars
    modifies enc
    ensures enc.numVars == old(enc.numVars)
    ensures enc.clauses == old(enc.clauses) + TerminalFn(index, value, rows, vars)(node)
  {
    for row := 0 to |rows|
      invariant enc.numVars == old(enc.numVars)
      invariant enc.clauses == old(enc.clauses) + Each(0, row, TerminalRowFn(index, value, rows, vars, node))
    {
      EachStep(old(enc.clauses), 0, row, TerminalRowFn(index, value, rows, vars, node));
      TerminalRow(enc, index, value, rows, vars, node, row);
    }
  }

  /** The terminal clauses; the `assert_eq!` demands that every row has `vars` inputs. */
  method TerminalPhase(enc: SatEncoder, index: Table, value: Table, rows: seq<Row>, vars: nat, n: nat)
    requires forall row :: 0 <= row < |rows| ==> |rows[row].0| == vars
    modifies enc
    ensures enc.numVars == old(enc.numVars)
    ensures enc.clauses == old(enc.clauses) + Each(1, n + 1, TerminalFn(index, value, rows, vars))
  {
    for node := 1 to n + 1
      invariant enc.numVars == old(enc.numVars)
      invariant enc.clauses == old(enc.clauses) + Each(1, node, TerminalFn(index, value, rows, vars))
    {
      EachStep(old(enc.clauses), 1, node, TerminalFn(index, value, rows, vars));
      TerminalNode(enc, index, value, rows, vars, node);
    }
  }

  /** The AND clauses of one node and one candidate child, row by row. */
  method AndChild(enc: SatEncoder, types: Table, child: Table, value: Table, rows: nat, node: nat, c: nat)
    modifies enc
    ensures enc.numVars == old(enc.numVars)
    ensures enc.clauses == old(enc.clauses) + AndChildFn(types, child, value, rows, node)(c)
  {
    var t := TypeVar(types, node, And);
    var ch := ChildVar(child, node, c);
    for row := 0 to rows
      invariant enc.numVars == old(enc.numVars)
      invariant enc.clauses == old(enc.clauses) + Each(0, row, AndRowFn(types, child, value, node, c))
    {
      var v := ValueVar(value, node, row);
      var v1 := ValueVar(value, c, row);
      var v2 := ValueVar(value, c + 1, row);
      EachStep(old(enc.clauses), 0, row, AndRowFn(types, child, value, node, c));
      ghost var c1 := enc.clauses;
      enc.AddClause([-t, -ch, v, -v1, -v2]);
      enc.AddClause([-t, -ch, -v, v1]);
      enc.AddClause([-t, -ch, -v, v2]);
      assert enc.clauses == c1 + [[-t, -ch, v, -v1, -v2], [-t, -ch, -v, v1], [-t, -ch, -v, v2]];
    }
  }

  /** The AND clauses of one node, child by child. */
  method AndNode(enc: SatEncoder, types: Table, child: Table, value: Table, rows: nat, n: nat, node: nat)
    requires node < n
    modifies enc
    ensures enc.numVars == old(enc.numVars)
    ensures enc.clauses == old(enc.clauses) + AndFn(types, child, value, rows, n)(node)
  {
    for c := node + 1 to n
      invariant enc.numVars == old(enc.numVars)
      invariant enc.clauses == old(enc.clauses) + Each(node + 1, c, AndChildFn(types, child, value, rows, node))
    {
      EachStep(old(enc.clauses), node + 1, c, AndChildFn(types, child, value, rows, node));
      AndChild(enc, types, child, value, rows, node, c);
    }
  }

  method AndPhase(enc: SatEncoder, types: Table, child: Table, value: Table, rows: nat, n: nat)
    requires n >= 1
    modifies enc
    ensures enc.numVars == old(enc.numVars)
    ensures enc.clauses == old(enc.clauses) + Each(1, n, AndFn(types, child, value, rows, n))
  {
    for node := 1 to n
      invariant enc.numVars == old(enc.numVars)
      invariant enc.clauses == old(enc.clauses) + Each(1, node, AndFn(types, child, value, rows, n))
    {
      EachStep(old(enc.clauses), 1, node, AndFn(types, child, value, rows, n));
      AndNode(enc, types, child, value, rows, n, node);
    }
  }

  /** The OR clauses of one node and one candidate child, row by row. */
  method OrChild(enc: SatEncoder, types: Table, child: Table, value: Table, rows: nat, node: nat, c: nat)
    modifies enc
    ensures enc.numVars == old(enc.numVars)
    ensures enc.clauses == old(enc.clauses) + OrChildFn(types, child, value, rows, node)(c)
  {
    var t := TypeVar(types, node, Or);
    var ch := ChildVar(child, node, c);
    for row := 0 to rows
      invariant enc.numVars == old(enc.numVars)
      invariant enc.clauses == old(enc.clauses) + Each(0, row, OrRowFn(types, child, value, node, c))
    {
      var v := ValueVar(value, node, row);
      var v1 := ValueVar(value, c, row);
      var v2 := ValueVar(value, c + 1, row);
      EachStep(old(enc.clauses), 0, row, OrRowFn(types, child, value, node, c));
      ghost var c1 := enc.clauses;
      enc.AddClause([-t, -ch, -v, v1, v2]);
      enc.AddClause([-t, -ch, v, -v1]);
      enc.AddClause([-t, -ch, v, -v2]);
      assert enc.clauses == c1 + [[-t, -ch, -v, v1, v2], [-t, -ch, v, -v1], [-t, -ch, v, -v2]];
    }
  }

  /** The OR clauses of one node, child by child. */
  method OrNode(enc: SatEncoder, types: Table, child: Table, value: Table, rows: nat, n: nat, node: nat)
    requires node < n
    modifies enc
    ensures enc.numVars == old(enc.numVars)
    ensures enc.clauses == old(enc.clauses) + OrFn(types, child, value, rows, n)(node)
  {
    for c := node + 1 to n
      invariant enc.numVars == old(enc.numVars)
      invariant enc.clauses == old(enc.clauses) + Each(node + 1, c, OrChildFn(types, child, value, rows, node))
    {
      EachStep(old(enc.clauses), node + 1, c, OrChildFn(types, child, value, rows, node));
      OrChild(enc, types, child, value, rows, node, c);
    }
  }

  method OrPhase(enc: SatEncoder, types: Table, child: Table, value: Table, rows: nat, n: nat)
    requires n >= 1
    modifies enc
    ensures enc.numVars == old(enc.numVars)
    ensures enc.clauses == old(enc.clauses) + Each(1, n, OrFn(types, child, value, rows, n))
  {
    for node := 1 to n
      invariant enc.numVars == old(enc.numVars)
      invariant enc.clauses == old(enc.clauses) + Each(1, node, OrFn(types, child, value, rows, n))
    {
      EachStep(old(enc.clauses), 1, node, OrFn(types, child, value, rows, n));
      OrNode(enc, types, child, value, rows, n, node);
    }
  }

  /** The NOT clauses of one node and one candidate child, row by row. */
  method NotChild(enc: SatEncoder, types: Table, child: Table, value: Table, rows: nat, node: nat, c: nat)
    modifies enc
    ensures enc.numVars == old(enc.numVars)
    ensures enc.clauses == old(enc.clauses) + NotChildFn(types, child, value, rows, node)(c)
  {
    var t := TypeVar(types, node, Not);
    var ch := ChildVar(child, node, c);
    for row := 0 to rows
      invariant enc.numVars == old(enc.numVars)
      invariant enc.clauses == old(enc.clauses) + Each(0, row, NotRowFn(types, child, value, node, c))
    {
      var v := ValueVar(value, node, row);
      var vc := ValueVar(value, c, row);
      EachStep(old(enc.clauses), 0, row, NotRowFn(types, child, value, node, c));
      ghost var c1 := enc.clauses;
      enc.AddClause([-t, -ch, -v, -vc]);
      enc.AddClause([-t, -ch, v, vc]);
      assert enc.clauses == c1 + [[-t, -ch, -v, -vc], [-t, -ch, v, vc]];
    }
  }

  /** The NOT clauses of one node, child by child. */
  method NotNode(enc: SatEncoder, types: Table, child: Table, value: Table, rows: nat, n: nat, node: nat)
    requires node <= n
    modifies enc
    ensures enc.numVars == old(enc.numVars)
    ensures enc.clauses == old(enc.clauses) + NotFn(types, child, value, rows, n)(node)
  {
    for c := node + 1 to n + 1
      invariant enc.numVars == old(enc.numVars)
      invariant enc.clauses == old(enc.clauses) + Each(node + 1, c, NotChildFn(types, child, value, rows, node))
    {
      EachStep(old(enc.clauses), node + 1, c, NotChildFn(types, child, value, rows, node));
      NotChild(enc, types, child, value, rows, node, c);
    }
  }

  method NotPhase(enc: SatEncoder, types: Table, child: Table, value: Table, rows: nat, n: nat)
    requires n >= 1
    modifies enc
    ensures enc.numVars == old(enc.numVars)
    ensures enc.clauses == old(enc.clauses) + Each(1, n + 1, NotFn(types, child, value, rows, n))
  {
    for node := 1 to n + 1
      invariant enc.numVars == old(enc.numVars)
      invariant enc.clauses == old(enc.clauses) + Each(1, node, NotFn(types, child, value, rows, n))
    {
      EachStep(old(enc.clauses), 1, node, NotFn(types, child, value, rows, n));
      NotNode(enc, types, child, value, rows, n, node);
    }
  }

  // ---------- the whole encoding ----------

  method NodePhases(enc: SatEncoder, n: nat, vars: nat) returns (types: Table, index: Table)
    requires n >= 1
    modifies enc
    ensures |types| == n && (forall k :: 0 <= k < n ==> |types[k]| == 4)
    ensures |index| == n && (forall k :: 0 <= k < n ==> |index[k]| == vars + 1)
    ensures Within(types, old(enc.numVars), old(enc.numVars) + 4 * n)
    ensures Within(index, old(enc.numVars) + 4 * n, enc.numVars)
    ensures enc.numVars == old(enc.numVars) + 4 * n + n * (vars + 1)
    ensures enc.clauses == old(enc.clauses) + NodeClauses(types, index, n)
  {
    ghost var c0 := enc.clauses;
    types := TypePhase(enc, n);
    ghost var acc := Each(1, n + 1, OneEachFn(types, 1));
    LastPhase(enc, types, n);
    AppendAssoc(c0, acc, LastClauses(types, n));
    acc := acc + LastClauses(types, n);
    index := IndexPhase(enc, n, vars);
    AppendAssoc(c0, acc, Each(1, n + 1, OneEachFn(index, 1)));
    acc := acc + Each(1, n + 1, OneEachFn(index, 1));
    TermIndexPhase(enc, types, index, n);
    AppendAssoc(c0, acc, Each(1, n + 1, TermIndexFn(types, index)));
  }

  method ParentPhases(enc: SatEncoder, n: nat) returns (parent: Table)
    requires n >= 1
    modifies enc
    ensures |parent| == n - 1 && (forall k :: 0 <= k < n - 1 ==> |parent[k]| == k + 1)
    ensures Within(parent, old(enc.numVars), enc.numVars) && enc.numVars == old(enc.numVars) + Triangle(n)
    ensures enc.clauses == old(enc.clauses) + ParentClauses(parent, n)
  {
    ghost var c0 := enc.clauses;
    parent := ParentPhase(enc, n);
    BfsPhase(enc, parent, n);
    AppendAssoc(c0, Each(2, n + 1, OneEachFn(parent, 2)), Each(3, n, BfsFn(parent)));
  }

  method ChildPhases(enc: SatEncoder, types: Table, parent: Table, n: nat) returns (child: Table)
    requires n >= 1
    modifies enc
    ensures |child| == n && (forall k :: 0 <= k < n ==> |child[k]| == n - k)
    ensures Within(child, old(enc.numVars), enc.numVars) && enc.numVars == old(enc.numVars) + Triangle(n + 1)
    ensures enc.clauses == old(enc.clauses) + ChildClauses(types, parent, child, n)
  {
    ghost var c0 := enc.clauses;
    child := ChildPhase(enc, n);
    ghost var acc := Each(1, n + 1, OneEachFn(child, 1));
    ChildParentPhase(enc, child, parent, n);
    AppendAssoc(c0, acc, Each(1, n + 1, ChildParentFn(child, parent, n)));
    acc := acc + Each(1, n + 1, ChildParentFn(child, parent, n));
    NoChildPhase(enc, child, parent, n);
    AppendAssoc(c0, acc, Each(1, n + 1, NoChildFn(child, parent, n)));
    acc := acc + Each(1, n + 1, NoChildFn(child, parent, n));
    TermChildPhase(enc, types, child, n);
    AppendAssoc(c0, acc, Each(1, n + 1, TermChildFn(types, child)));
    acc := acc + Each(1, n + 1, TermChildFn(types, child));
    UnaryPhase(enc, types, parent, child, n);
    AppendAssoc(c0, acc, Each(1, n + 1, UnaryFn(types, parent, child, n)));
    acc := acc + Each(1, n + 1, UnaryFn(types, parent, child, n));
    BinaryLeftPhase(enc, types, parent, child, n);
    AppendAssoc(c0, acc, Each(1, n + 1, BinaryLeftFn(types, parent, child, n)));
    acc := acc + Each(1, n + 1, BinaryLeftFn(types, parent, child, n));
    BinaryRightPhase(enc, types, parent, child, n);
    AppendAssoc(c0, acc, Each(1, n + 1, BinaryRightFn(types, parent, child, n)));
    acc := acc + Each(1, n + 1, BinaryRightFn(types, parent, child, n));
    NotLastPhase(enc, types, child, n);
    AppendAssoc(c0, acc, Each(1, n, NotLastFn(types, child, n)));
  }

  method SemanticsPhases(enc: SatEncoder, s: Synthesis, n: nat, vars: nat, rows: seq<Row>)
    requires n >= 1
    requires forall row :: 0 <= row < |rows| ==> |rows[row].0| == vars
    modifies enc
    ensures enc.numVars == old(enc.numVars)
    ensures enc.clauses == old(enc.clauses) + SemanticsClauses(s, n, vars, rows)
  {
    ghost var c0 := enc.clauses;
    RootPhase(enc, s.value, rows);
    ghost var acc := Each(0, |rows|, RootFn(s.value, rows));
    TerminalPhase(enc, s.index, s.value, rows, vars, n);
    AppendAssoc(c0, acc, Each(1, n + 1, TerminalFn(s.index, s.value, rows, vars)));
    acc := acc + Each(1, n + 1, TerminalFn(s.index, s.value, rows, vars));
    AndPhase(enc, s.nodeType, s.child, s.value, |rows|, n);
    AppendAssoc(c0, acc, Each(1, n, AndFn(s.nodeType, s.child, s.value, |rows|, n)));
    acc := acc + Each(1, n, AndFn(s.nodeType, s.child, s.value, |rows|, n));
    OrPhase(enc, s.nodeType, s.child, s.value, |rows|, n);
    AppendAssoc(c0, acc, Each(1, n, OrFn(s.nodeType, s.child, s.value, |rows|, n)));
    acc := acc + Each(1, n, OrFn(s.nodeType, s.child, s.value, |rows|, n));
    NotPhase(enc, s.nodeType, s.child, s.value, |rows|, n);
    AppendAssoc(c0, acc, Each(1, n + 1, NotFn(s.nodeType, s.child, s.value, |rows|, n)));
  }

  /** The ends of the ranges of the type, index, parent and child variables above `base`. */
  function TypesEnd(base: nat, n: nat): nat
  {
    base + 4 * n
  }

  function IndexEnd(base: nat, n: nat, vars: nat): nat
  {
    TypesEnd(base, n) + n * (vars + 1)
  }

  function ParentEnd(base: nat, n: nat, vars: nat): nat
  {
    IndexEnd(base, n, vars) + Triangle(n)
  }

  function ChildEnd(base: nat, n: nat, vars: nat): nat
  {
    ParentEnd(base, n, vars) + Triangle(n + 1)
  }

  /** The number of variables the encoding allocates. */
  function VarCount(n: nat, vars: nat, rows: nat): nat
  {
    ChildEnd(0, n, vars) + n * rows
  }

  lemma {:induction false} TriangleSquare(k: nat)
    ensures Triangle(k) + Triangle(k + 1) == k * k
  {
    if k > 0 {
      TriangleSquare(k - 1);
      TriangleStep(k - 1);
      TriangleStep(k);
    }
  }

  /** The encoding allocates `n * (n + vars + rows + 5)` variables. */
  lemma VarCountClosed(n: nat, vars: nat, rows: nat)
    ensures VarCount(n, vars, rows) == n * (n + vars + rows + 5)
  {
    TriangleSquare(n);
    assert n * (n + vars + rows + 5) == 4 * n + n * (vars + 1) + n * n + n * rows;
  }

  /**
   * The tables occupy consecutive, disjoint ranges of fresh variables above
   * `base`, in the order the encoder allocates them.
   */
  predicate Allocated(s: Synthesis, base: nat, n: nat, vars: nat, rows: nat)
  {
    && Within(s.nodeType, base, TypesEnd(base, n))
    && Within(s.index, TypesEnd(base, n), IndexEnd(base, n, vars))
    && Within(s.parent, IndexEnd(base, n, vars), ParentEnd(base, n, vars))
    && Within(s.child, ParentEnd(base, n, vars), ChildEnd(base, n, vars))
    && Within(s.value, ChildEnd(base, n, vars), ChildEnd(base, n, vars) + n * rows)
  }

  lemma WithinPositive(t: Table, lo: nat, hi: nat)
    requires Within(t, lo, hi)
    ensures Positive(t)
  {
  }

  /** Tables allocated one after the other from `base` lie in the ranges `Allocated` names and have the shape `Shaped` names. */
  lemma Assemble(s: Synthesis, base: nat, n: nat, vars: nat, rows: nat, m1: nat, m2: nat, m3: nat, m4: nat, m5: nat)
    requires |s.nodeType| == n && (forall k :: 0 <= k < n ==> |s.nodeType[k]| == 4)
    requires |s.index| == n && (forall k :: 0 <= k < n ==> |s.index[k]| == vars + 1)
    requires |s.parent| == n - 1 && (forall k :: 0 <= k < n - 1 ==> |s.parent[k]| == k + 1)
    requires |s.child| == n && (forall k :: 0 <= k < n ==> |s.child[k]| == n - k)
    requires |s.value| == n && (forall k :: 0 <= k < n ==> |s.value[k]| == rows)
    requires m1 == base + 4 * n && m2 == m1 + n * (vars + 1) && m3 == m2 + Triangle(n)
    requires m4 == m3 + Triangle(n + 1) && m5 == m4 + n * rows
    requires Within(s.nodeType, base, m1) && Within(s.index, m1, m2) && Within(s.parent, m2, m3)
    requires Within(s.child, m3, m4) && Within(s.value, m4, m5)
    ensures Shaped(s, n, vars, rows) && Allocated(s, base, n, vars, rows)
    ensures m5 == base + VarCount(n, vars, rows)
  {
    WithinPositive(s.nodeType, base, m1);
    WithinPositive(s.index, m1, m2);
    WithinPositive(s.parent, m2, m3);
    WithinPositive(s.child, m3, m4);
    WithinPositive(s.value, m4, m5);
  }

  method EncodeTables(enc: SatEncoder, n: nat, vars: nat, rows: seq<Row>) returns (s: Synthesis)
    requires n >= 1
    requires forall row :: 0 <= row < |rows| ==> |rows[row].0| == vars
    modifies enc
    ensures Shaped(s, n, vars, |rows|) && Allocated(s, old(enc.numVars), n, vars, |rows|)
    ensures enc.numVars == old(enc.numVars) + VarCount(n, vars, |rows|)
    ensures enc.clauses == old(enc.clauses) + SynthesisClauses(s, n, vars, rows)
  {
    ghost var c0 := enc.clauses;
    ghost var b0 := enc.numVars;
    var types, index := NodePhases(enc, n, vars);
    ghost var m2 := enc.numVars;
    var parent := ParentPhases(enc, n);
    ghost var m3 := enc.numVars;
    var child := ChildPhases(enc, types, parent, n);
    ghost var m4 := enc.numVars;
    var value := ValuePhase(enc, n, |rows|);
    s := Synthesis(types, index, parent, child, value);
    Assemble(s, b0, n, vars, |rows|, b0 + 4 * n, m2, m3, m4, enc.numVars);
    SemanticsPhases(enc, s, n, vars, rows);
    ghost var st := NodeClauses(types, index, n);
    AppendAssoc(c0, st, ParentClauses(parent, n));
    st := st + ParentClauses(parent, n);
    AppendAssoc(c0, st, ChildClauses(types, parent, child, n));
    st := st + ChildClauses(types, parent, child, n);
    AppendAssoc(c0, st, SemanticsClauses(s, n, vars, rows));
  }

  /**
   * `encode_boolean_synthesis`: the `num_nodes - 1` ranges demand at least
   * one node, and the `assert_eq!` demands that every row has `variables`
   * inputs.
   */
  method EncodeBooleanSynthesis(enc: SatEncoder, n: nat, table: TruthTable) returns (s: Synthesis)
    requires n >= 1
    requires forall row :: 0 <= row < |table.rows| ==> |table.rows[row].0| == table.variables
    modifies enc
    ensures Shaped(s, n, table.variables, |table.rows|)
    ensures Allocated(s, old(enc.numVars), n, table.variables, |table.rows|)
    ensures enc.numVars == old(enc.numVars) + VarCount(n, table.variables, |table.rows|)
    ensures enc.clauses == old(enc.clauses) + SynthesisClauses(s, n, table.variables, table.rows)
  {
    s := EncodeTables(enc, n, table.variables, table.rows);
  }

  // ---------- what the clauses mean ----------

  lemma CnfSat3(m: Model, a: seq<int>, b: seq<int>, c: seq<int>)
    ensures CnfSat(m, [a, b, c]) <==> ClauseSat(m, a) && ClauseSat(m, b) && ClauseSat(m, c)
  {
    assert [a, b, c] == [a] + [b, c];
    CnfSatCons(m, a, [b, c]);
    CnfSat2(m, b, c);
  }

  /** The unit formula `[[-a, b]]` says `a` implies `b`. */
  lemma Implies1(m: Model, a: int, b: int)
    requires a != 0
    ensures CnfSat(m, [[-a, b]]) <==> (LitTrue(m, a) ==> LitTrue(m, b))
  {
    NegLit(m, a);
    CnfSatSingle(m, [-a, b]);
    ClauseSat2(m, -a, b);
  }

  /** `[[-a, -b, c]]` says `a` and `b` together imply `c`. */
  lemma Implies2(m: Model, a: int, b: int, c: int)
    requires a != 0 && b != 0
    ensures CnfSat(m, [[-a, -b, c]]) <==> (LitTrue(m, a) && LitTrue(m, b) ==> LitTrue(m, c))
  {
    NegLit(m, a);
    NegLit(m, b);
    CnfSatSingle(m, [-a, -b, c]);
    ClauseSat3(m, -a, -b, c);
  }

  /** `[[-a, -b, -c, d]]` says `a`, `b` and `c` together imply `d`. */
  lemma Implies3(m: Model, a: int, b: int, c: int, d: int)
    requires a != 0 && b != 0 && c != 0
    ensures CnfSat(m, [[-a, -b, -c, d]]) <==> (LitTrue(m, a) && LitTrue(m, b) && LitTrue(m, c) ==> LitTrue(m, d))
  {
    NegLit(m, a);
    NegLit(m, b);
    NegLit(m, c);
    CnfSatSingle(m, [-a, -b, -c, d]);
    ClauseSat4(m, -a, -b, -c, d);
  }

  lemma TypeVarPositive(s: Synthesis, n: nat, vars: nat, rows: nat)
    requires Shaped(s, n, vars, rows)
    ensures forall node, t :: 1 <= node <= n ==> TypeVar(s.nodeType, node, t) > 0
  {
  }

  lemma IndexVarPositive(s: Synthesis, n: nat, vars: nat, rows: nat)
    requires Shaped(s, n, vars, rows)
    ensures forall node, i: nat :: 1 <= node <= n && i <= vars ==> IndexVar(s.index, node, i) > 0
  {
    forall node, i: nat | 1 <= node <= n && i <= vars
      ensures IndexVar(s.index, node, i) > 0
    {
      assert s.index[node - 1][i] > 0;
    }
  }

  lemma ParentVarPositive(s: Synthesis, n: nat, vars: nat, rows: nat)
    requires Shaped(s, n, vars, rows)
    ensures forall node, p :: 1 <= p < node <= n ==> ParentVar(s.parent, node, p) > 0
  {
  }

  lemma ChildVarPositive(s: Synthesis, n: nat, vars: nat, rows: nat)
    requires Shaped(s, n, vars, rows)
    ensures forall node, c :: 1 <= node <= n && (c == 0 || node < c <= n) ==> ChildVar(s.child, node, c) > 0
  {
  }

  lemma ValueVarPositive(s: Synthesis, n: nat, vars: nat, rows: nat)
    requires Shaped(s, n, vars, rows)
    ensures forall node, row: nat :: 1 <= node <= n && row < rows ==> ValueVar(s.value, node, row) > 0
  {
    forall node, row: nat | 1 <= node <= n && row < rows
      ensures ValueVar(s.value, node, row) > 0
    {
      assert s.value[node - 1][row] > 0;
    }
  }

  /** Exactly one variable of every row of the table is true. */
  predicate OneHot(m: Model, t: Table)
  {
    forall k :: 0 <= k < |t| ==> TrueCount(m, t[k]) == 1
  }

  /** The `exactly_one` clauses of a table hold exactly when every row is one-hot. */
  lemma OneEachMeaning(m: Model, t: Table, off: nat)
    requires Positive(t)
    ensures CnfSat(m, Each(off, off + |t|, OneEachFn(t, off))) <==> OneHot(m, t)
  {
    var f := OneEachFn(t, off);
    EachSat(m, off, off + |t|, f);
    forall k: nat | off <= k < off + |t|
      ensures CnfSat(m, f(k)) <==> TrueCount(m, t[k - off]) == 1
    {
      assert RowOf(t, k - off) == t[k - off];
      assert f(k) == ExactlyOneClauses(t[k - off]);
      ExactlyOneMeaning(m, t[k - off]);
    }
    if CnfSat(m, Each(off, off + |t|, f)) {
      forall j | 0 <= j < |t|
        ensures TrueCount(m, t[j]) == 1
      {
        assert CnfSat(m, f(off + j));
      }
    }
    if OneHot(m, t) {
      forall k: nat | off <= k < off + |t|
        ensures CnfSat(m, f(k))
      {
        assert TrueCount(m, t[k - off]) == 1;
      }
    }
  }

  /** The last node is a terminal and, when there are two nodes or more, the one before it is not binary. */
  predicate LastNodes(m: Model, types: Table, n: nat)
  {
    && LitTrue(m, TypeVar(types, n, Terminal))
    && (n > 1 ==> !LitTrue(m, TypeVar(types, n - 1, And)) && !LitTrue(m, TypeVar(types, n - 1, Or)))
  }

  lemma LastMeaning(m: Model, s: Synthesis, n: nat, vars: nat, rows: nat)
    requires n >= 1 && Shaped(s, n, vars, rows)
    ensures CnfSat(m, LastClauses(s.nodeType, n)) <==> LastNodes(m, s.nodeType, n)
  {
    TypeVarPositive(s, n, vars, rows);
    var t := TypeVar(s.nodeType, n, Terminal);
    CnfSatSingle(m, [t]);
    ClauseSatSingle(m, t);
    if n > 1 {
      var a := TypeVar(s.nodeType, n - 1, And);
      var o := TypeVar(s.nodeType, n - 1, Or);
      NegLit(m, a);
      NegLit(m, o);
      CnfSat2(m, [-a], [-o]);
      ClauseSatSingle(m, -a);
      ClauseSatSingle(m, -o);
      CnfSatCons(m, [t], [[-a], [-o]]);
    } else {
      assert LastClauses(s.nodeType, n) == [[t]];
    }
  }

  /** A node is a terminal exactly when its index is not 0. */
  predicate TerminalIffIndexed(m: Model, types: Table, index: Table, n: nat)
  {
    forall node :: 1 <= node <= n ==>
      (LitTrue(m, TypeVar(types, node, Terminal)) <==> !LitTrue(m, IndexVar(index, node, 0)))
  }

  lemma TermIndexMeaning(m: Model, s: Synthesis, n: nat, vars: nat, rows: nat)
    requires Shaped(s, n, vars, rows)
    ensures CnfSat(m, Each(1, n + 1, TermIndexFn(s.nodeType, s.index))) <==> TerminalIffIndexed(m, s.nodeType, s.index, n)
  {
    TypeVarPositive(s, n, vars, rows);
    IndexVarPositive(s, n, vars, rows);
    EachSat(m, 1, n + 1, TermIndexFn(s.nodeType, s.index));
    forall node | 1 <= node <= n
      ensures CnfSat(m, TermIndexFn(s.nodeType, s.index)(node))
          <==> (LitTrue(m, TypeVar(s.nodeType, node, Terminal)) <==> !LitTrue(m, IndexVar(s.index, node, 0)))
    {
      var t := TypeVar(s.nodeType, node, Terminal);
      var v := IndexVar(s.index, node, 0);
      NegLit(m, t);
      NegLit(m, v);
      CnfSat2(m, [-t, -v], [t, v]);
      ClauseSat2(m, -t, -v);
      ClauseSat2(m, t, v);
    }
  }

  /** The BFS order: once node `node` has parent `p1`, node `node + 1` has no parent below `p1`. */
  predicate BfsPair(m: Model, parent: Table, node: nat, p1: nat, p2: nat)
  {
    !(LitTrue(m, ParentVar(parent, node, p1)) && LitTrue(m, ParentVar(parent, node + 1, p2)))
  }

  predicate BfsNodeOrdered(m: Model, parent: Table, node: nat)
  {
    forall p1, p2 :: 1 <= p2 < p1 < node ==> BfsPair(m, parent, node, p1, p2)
  }

  predicate BfsOrdered(m: Model, parent: Table, n: nat)
  {
    forall node :: 3 <= node < n ==> BfsNodeOrdered(m, parent, node)
  }

  lemma BfsParentMeaning(m: Model, s: Synthesis, n: nat, vars: nat, rows: nat, node: nat, p1: nat)
    requires Shaped(s, n, vars, rows) && 3 <= node < n && 2 <= p1 < node
    ensures CnfSat(m, BfsParentFn(s.parent, node)(p1)) <==> forall p2 :: 1 <= p2 < p1 ==> BfsPair(m, s.parent, node, p1, p2)
  {
    ParentVarPositive(s, n, vars, rows);
    EachSat(m, 1, p1, BfsPairFn(s.parent, node, p1));
    forall p2 | 1 <= p2 < p1
      ensures CnfSat(m, BfsPairFn(s.parent, node, p1)(p2)) <==> BfsPair(m, s.parent, node, p1, p2)
    {
      var a := ParentVar(s.parent, node, p1);
      var b := ParentVar(s.parent, node + 1, p2);
      NegLit(m, a);
      NegLit(m, b);
      CnfSatSingle(m, [-a, -b]);
      ClauseSat2(m, -a, -b);
    }
  }

  lemma BfsNodeMeaning(m: Model, s: Synthesis, n: nat, vars: nat, rows: nat, node: nat)
    requires Shaped(s, n, vars, rows) && 3 <= node < n
    ensures CnfSat(m, BfsFn(s.parent)(node)) <==> BfsNodeOrdered(m, s.parent, node)
  {
    var f := BfsParentFn(s.parent, node);
    EachSat(m, 2, node, f);
    forall p1 | 2 <= p1 < node
      ensures CnfSat(m, f(p1)) <==> forall p2 :: 1 <= p2 < p1 ==> BfsPair(m, s.parent, node, p1, p2)
    {
      BfsParentMeaning(m, s, n, vars, rows, node, p1);
    }
    if CnfSat(m, BfsFn(s.parent)(node)) {
      forall p1, p2 | 1 <= p2 < p1 < node
        ensures BfsPair(m, s.parent, node, p1, p2)
      {
        assert CnfSat(m, f(p1));
      }
    }
  }

  lemma BfsMeaning(m: Model, s: Synthesis, n: nat, vars: nat, rows: nat)
    requires Shaped(s, n, vars, rows)
    ensures CnfSat(m, Each(3, n, BfsFn(s.parent))) <==> BfsOrdered(m, s.parent, n)
  {
    EachSat(m, 3, n, BfsFn(s.parent));
    forall node | 3 <= node < n
      ensures CnfSat(m, BfsFn(s.parent)(node)) <==> BfsNodeOrdered(m, s.parent, node)
    {
      BfsNodeMeaning(m, s, n, vars, rows, node);
    }
  }

  /** Every child `c` of `node` has `node` as its parent. */
  predicate ChildParentAt(m: Model, child: Table, parent: Table, n: nat, node: nat)
  {
    forall c: nat :: node < c <= n ==> (LitTrue(m, ChildVar(child, node, c)) ==> LitTrue(m, ParentVar(parent, c, node)))
  }

  lemma ChildParentNodeMeaning(m: Model, s: Synthesis, n: nat, vars: nat, rows: nat, node: nat)
    requires Shaped(s, n, vars, rows) && 1 <= node <= n
    ensures CnfSat(m, ChildParentFn(s.child, s.parent, n)(node)) <==> ChildParentAt(m, s.child, s.parent, n, node)
  {
    ChildVarPositive(s, n, vars, rows);
    EachSat(m, node + 1, n + 1, ChildParentPairFn(s.child, s.parent, node));
    forall c: nat | node < c <= n
      ensures CnfSat(m, ChildParentPairFn(s.child, s.parent, node)(c))
          <==> (LitTrue(m, ChildVar(s.child, node, c)) ==> LitTrue(m, ParentVar(s.parent, c, node)))
    {
      Implies1(m, ChildVar(s.child, node, c), ParentVar(s.parent, c, node));
    }
  }

  lemma ChildParentMeaning(m: Model, s: Synthesis, n: nat, vars: nat, rows: nat)
    requires Shaped(s, n, vars, rows)
    ensures CnfSat(m, Each(1, n + 1, ChildParentFn(s.child, s.parent, n)))
        <==> forall node :: 1 <= node <= n ==> ChildParentAt(m, s.child, s.parent, n, node)
  {
    EachSat(m, 1, n + 1, ChildParentFn(s.child, s.parent, n));
    forall node | 1 <= node <= n
      ensures CnfSat(m, ChildParentFn(s.child, s.parent, n)(node)) <==> ChildParentAt(m, s.child, s.parent, n, node)
    {
      ChildParentNodeMeaning(m, s, n, vars, rows, node);
    }
  }

  /** A node whose child variable is `0` is the parent of no node. */
  predicate NoChildAt(m: Model, child: Table, parent: Table, n: nat, node: nat)
  {
    forall c: nat :: node < c <= n ==> (LitTrue(m, ChildVar(child, node, 0)) ==> !LitTrue(m, ParentVar(parent, c, node)))
  }

  lemma NoChildNodeMeaning(m: Model, s: Synthesis, n: nat, vars: nat, rows: nat, node: nat)
    requires Shaped(s, n, vars, rows) && 1 <= node <= n
    ensures CnfSat(m, NoChildFn(s.child, s.parent, n)(node)) <==> NoChildAt(m, s.child, s.parent, n, node)
  {
    ChildVarPositive(s, n, vars, rows);
    ParentVarPositive(s, n, vars, rows);
    var ch := ChildVar(s.child, node, 0);
    NegLit(m, ch);
    EachSat(m, node + 1, n + 1, NoChildPairFn(s.child, s.parent, node));
    forall c: nat | node < c <= n
      ensures CnfSat(m, NoChildPairFn(s.child, s.parent, node)(c))
          <==> (LitTrue(m, ch) ==> !LitTrue(m, ParentVar(s.parent, c, node)))
    {
      var p := ParentVar(s.parent, c, node);
      NegLit(m, p);
      CnfSatSingle(m, [-ch, -p]);
      ClauseSat2(m, -ch, -p);
    }
  }

  lemma NoChildMeaning(m: Model, s: Synthesis, n: nat, vars: nat, rows: nat)
    requires Shaped(s, n, vars, rows)
    ensures CnfSat(m, Each(1, n + 1, NoChildFn(s.child, s.parent, n)))
        <==> forall node :: 1 <= node <= n ==> NoChildAt(m, s.child, s.parent, n, node)
  {
    EachSat(m, 1, n + 1, NoChildFn(s.child, s.parent, n));
    forall node | 1 <= node <= n
      ensures CnfSat(m, NoChildFn(s.child, s.parent, n)(node)) <==> NoChildAt(m, s.child, s.parent, n, node)
    {
      NoChildNodeMeaning(m, s, n, vars, rows, node);
    }
  }

  /** A node is a terminal exactly when its child variable `0` is true. */
  predicate TerminalIffChildless(m: Model, types: Table, child: Table, n: nat)
  {
    forall node :: 1 <= node <= n ==>
      (LitTrue(m, TypeVar(types, node, Terminal)) <==> LitTrue(m, ChildVar(child, node, 0)))
  }

  lemma TermChildMeaning(m: Model, s: Synthesis, n: nat, vars: nat, rows: nat)
    requires Shaped(s, n, vars, rows)
    ensures CnfSat(m, Each(1, n + 1, TermChildFn(s.nodeType, s.child))) <==> TerminalIffChildless(m, s.nodeType, s.child, n)
  {
    TypeVarPositive(s, n, vars, rows);
    ChildVarPositive(s, n, vars, rows);
    EachSat(m, 1, n + 1, TermChildFn(s.nodeType, s.child));
    forall node | 1 <= node <= n
      ensures CnfSat(m, TermChildFn(s.nodeType, s.child)(node))
          <==> (LitTrue(m, TypeVar(s.nodeType, node, Terminal)) <==> LitTrue(m, ChildVar(s.child, node, 0)))
    {
      var t := TypeVar(s.nodeType, node, Terminal);
      var ch := ChildVar(s.child, node, 0);
      NegLit(m, t);
      NegLit(m, ch);
      CnfSat2(m, [-t, ch], [t, -ch]);
      ClauseSat2(m, -t, ch);
      ClauseSat2(m, t, -ch);
    }
  }

  /** A NOT node that is the parent of `c` (below the last node) has `c` as its child. */
  predicate UnaryAt(m: Model, types: Table, parent: Table, child: Table, n: nat, node: nat)
  {
    forall c: nat :: node < c < n ==>
      (LitTrue(m, TypeVar(types, node, Not)) && LitTrue(m, ParentVar(parent, c, node)) ==> LitTrue(m, ChildVar(child, node, c)))
  }

  lemma UnaryNodeMeaning(m: Model, s: Synthesis, n: nat, vars: nat, rows: nat, node: nat)
    requires Shaped(s, n, vars, rows) && 1 <= node <= n
    ensures CnfSat(m, UnaryFn(s.nodeType, s.parent, s.child, n)(node)) <==> UnaryAt(m, s.nodeType, s.parent, s.child, n, node)
  {
    TypeVarPositive(s, n, vars, rows);
    ParentVarPositive(s, n, vars, rows);
    var t := TypeVar(s.nodeType, node, Not);
    EachSat(m, node + 1, n, UnaryPairFn(s.nodeType, s.parent, s.child, node));
    forall c: nat | node < c < n
      ensures CnfSat(m, UnaryPairFn(s.nodeType, s.parent, s.child, node)(c))
          <==> (LitTrue(m, t) && LitTrue(m, ParentVar(s.parent, c, node)) ==> LitTrue(m, ChildVar(s.child, node, c)))
    {
      Implies2(m, t, ParentVar(s.parent, c, node), ChildVar(s.child, node, c));
    }
  }

  lemma UnaryMeaning(m: Model, s: Synthesis, n: nat, vars: nat, rows: nat)
    requires Shaped(s, n, vars, rows)
    ensures CnfSat(m, Each(1, n + 1, UnaryFn(s.nodeType, s.parent, s.child, n)))
        <==> forall node :: 1 <= node <= n ==> UnaryAt(m, s.nodeType, s.parent, s.child, n, node)
  {
    EachSat(m, 1, n + 1, UnaryFn(s.nodeType, s.parent, s.child, n));
    forall node | 1 <= node <= n
      ensures CnfSat(m, UnaryFn(s.nodeType, s.parent, s.child, n)(node)) <==> UnaryAt(m, s.nodeType, s.parent, s.child, n, node)
    {
      UnaryNodeMeaning(m, s, n, vars, rows, node);
    }
  }

  /** A node of type `t` that is the parent of `c` and `c + 1` has `c` as its child. */
  predicate BinaryLeftAt(m: Model, types: Table, parent: Table, child: Table, n: nat, node: nat, t: NodeType)
  {
    forall c: nat :: node < c < n ==>
      (LitTrue(m, TypeVar(types, node, t)) && LitTrue(m, ParentVar(parent, c, node)) && LitTrue(m, ParentVar(parent, c + 1, node))
       ==> LitTrue(m, ChildVar(child, node, c)))
  }

  lemma BinaryLeftOpMeaning(m: Model, s: Synthesis, n: nat, vars: nat, rows: nat, node: nat, t: NodeType)
    requires Shaped(s, n, vars, rows) && 1 <= node <= n
    ensures CnfSat(m, Each(node + 1, n, BinaryLeftPairFn(s.nodeType, s.parent, s.child, node, t)))
        <==> BinaryLeftAt(m, s.nodeType, s.parent, s.child, n, node, t)
  {
    TypeVarPositive(s, n, vars, rows);
    ParentVarPositive(s, n, vars, rows);
    var tv := TypeVar(s.nodeType, node, t);
    EachSat(m, node + 1, n, BinaryLeftPairFn(s.nodeType, s.parent, s.child, node, t));
    forall c: nat | node < c < n
      ensures CnfSat(m, BinaryLeftPairFn(s.nodeType, s.parent, s.child, node, t)(c))
          <==> (LitTrue(m, tv) && LitTrue(m, ParentVar(s.parent, c, node)) && LitTrue(m, ParentVar(s.parent, c + 1, node))
               ==> LitTrue(m, ChildVar(s.child, node, c)))
    {
      var p1, p2, ch := ParentVar(s.parent, c, node), ParentVar(s.parent, c + 1, node), ChildVar(s.child, node, c);
      assert BinaryLeftPairFn(s.nodeType, s.parent, s.child, node, t)(c) == [[-tv, -p1, -p2, ch]];
      Implies3(m, tv, p1, p2, ch);
    }
  }

  lemma BinaryLeftMeaning(m: Model, s: Synthesis, n: nat, vars: nat, rows: nat)
    requires Shaped(s, n, vars, rows)
    ensures CnfSat(m, Each(1, n + 1, BinaryLeftFn(s.nodeType, s.parent, s.child, n)))
        <==> forall node :: 1 <= node <= n ==>
               BinaryLeftAt(m, s.nodeType, s.parent, s.child, n, node, And) && BinaryLeftAt(m, s.nodeType, s.parent, s.child, n, node, Or)
  {
    EachSat(m, 1, n + 1, BinaryLeftFn(s.nodeType, s.parent, s.child, n));
    forall node | 1 <= node <= n
      ensures CnfSat(m, BinaryLeftFn(s.nodeType, s.parent, s.child, n)(node))
          <==> BinaryLeftAt(m, s.nodeType, s.parent, s.child, n, node, And) && BinaryLeftAt(m, s.nodeType, s.parent, s.child, n, node, Or)
    {
      var f := BinaryLeftOpFn(s.nodeType, s.parent, s.child, n, node);
      EachSat(m, 0, 2, f);
      BinaryLeftOpMeaning(m, s, n, vars, rows, node, And);
      BinaryLeftOpMeaning(m, s, n, vars, rows, node, Or);
      assert f(0) == Each(node + 1, n, BinaryLeftPairFn(s.nodeType, s.parent, s.child, node, And));
      assert f(1) == Each(node + 1, n, BinaryLeftPairFn(s.nodeType, s.parent, s.child, node, Or));
    }
  }

  /** A node of type `t` whose child is `c` is also the parent of `c + 1`. */
  predicate BinaryRightAt(m: Model, types: Table, parent: Table, child: Table, n: nat, node: nat, t: NodeType)
  {
    forall c: nat :: node < c < n ==>
      (LitTrue(m, TypeVar(types, node, t)) && LitTrue(m, ChildVar(child, node, c)) ==> LitTrue(m, ParentVar(parent, c + 1, node)))
  }

  lemma BinaryRightOpMeaning(m: Model, s: Synthesis, n: nat, vars: nat, rows: nat, node: nat, t: NodeType)
    requires Shaped(s, n, vars, rows) && 1 <= node <= n
    ensures CnfSat(m, Each(node + 1, n, BinaryRightPairFn(s.nodeType, s.parent, s.child, node, t)))
        <==> BinaryRightAt(m, s.nodeType, s.parent, s.child, n, node, t)
  {
    TypeVarPositive(s, n, vars, rows);
    ChildVarPositive(s, n, vars, rows);
    var tv := TypeVar(s.nodeType, node, t);
    EachSat(m, node + 1, n, BinaryRightPairFn(s.nodeType, s.parent, s.child, node, t));
    forall c: nat | node < c < n
      ensures CnfSat(m, BinaryRightPairFn(s.nodeType, s.parent, s.child, node, t)(c))
          <==> (LitTrue(m, tv) && LitTrue(m, ChildVar(s.child, node, c)) ==> LitTrue(m, ParentVar(s.parent, c + 1, node)))
    {
      var ch, p := ChildVar(s.child, node, c), ParentVar(s.parent, c + 1, node);
      assert BinaryRightPairFn(s.nodeType, s.parent, s.child, node, t)(c) == [[-tv, -ch, p]];
      Implies2(m, tv, ch, p);
    }
  }

  lemma BinaryRightMeaning(m: Model, s: Synthesis, n: nat, vars: nat, rows: nat)
    requires Shaped(s, n, vars, rows)
    ensures CnfSat(m, Each(1, n + 1, BinaryRightFn(s.nodeType, s.parent, s.child, n)))
        <==> forall node :: 1 <= node <= n ==>
               BinaryRightAt(m, s.nodeType, s.parent, s.child, n, node, And) && BinaryRightAt(m, s.nodeType, s.parent, s.child, n, node, Or)
  {
    EachSat(m, 1, n + 1, BinaryRightFn(s.nodeType, s.parent, s.child, n));
    forall node | 1 <= node <= n
      ensures CnfSat(m, BinaryRightFn(s.nodeType, s.parent, s.child, n)(node))
          <==> BinaryRightAt(m, s.nodeType, s.parent, s.child, n, node, And) && BinaryRightAt(m, s.nodeType, s.parent, s.child, n, node, Or)
    {
      var f := BinaryRightOpFn(s.nodeType, s.parent, s.child, n, node);
      EachSat(m, 0, 2, f);
      BinaryRightOpMeaning(m, s, n, vars, rows, node, And);
      BinaryRightOpMeaning(m, s, n, vars, rows, node, Or);
      assert f(0) == Each(node + 1, n, BinaryRightPairFn(s.nodeType, s.parent, s.child, node, And));
      assert f(1) == Each(node + 1, n, BinaryRightPairFn(s.nodeType, s.parent, s.child, node, Or));
    }
  }

  /** The (left) child of an AND or OR node is not the last node. */
  predicate NotLastAt(m: Model, types: Table, child: Table, n: nat, node: nat)
  {
    && (LitTrue(m, TypeVar(types, node, And)) ==> !LitTrue(m, ChildVar(child, node, n)))
    && (LitTrue(m, TypeVar(types, node, Or)) ==> !LitTrue(m, ChildVar(child, node, n)))
  }

  lemma NotLastNodeMeaning(m: Model, s: Synthesis, n: nat, vars: nat, rows: nat, node: nat)
    requires Shaped(s, n, vars, rows) && 1 <= node < n
    ensures CnfSat(m, NotLastFn(s.nodeType, s.child, n)(node)) <==> NotLastAt(m, s.nodeType, s.child, n, node)
  {
    TypeVarPositive(s, n, vars, rows);
    ChildVarPositive(s, n, vars, rows);
    var f := NotLastOpFn(s.nodeType, s.child, n, node);
    var a := TypeVar(s.nodeType, node, And);
    var o := TypeVar(s.nodeType, node, Or);
    var ch := ChildVar(s.child, node, n);
    NegLit(m, ch);
    EachSat(m, 0, 2, f);
    assert f(0) == [[-a, -ch]];
    assert f(1) == [[-o, -ch]];
    Implies1(m, a, -ch);
    Implies1(m, o, -ch);
  }

  lemma NotLastMeaning(m: Model, s: Synthesis, n: nat, vars: nat, rows: nat)
    requires Shaped(s, n, vars, rows)
    ensures CnfSat(m, Each(1, n, NotLastFn(s.nodeType, s.child, n)))
        <==> forall node :: 1 <= node < n ==> NotLastAt(m, s.nodeType, s.child, n, node)
  {
    EachSat(m, 1, n, NotLastFn(s.nodeType, s.child, n));
    forall node | 1 <= node < n
      ensures CnfSat(m, NotLastFn(s.nodeType, s.child, n)(node)) <==> NotLastAt(m, s.nodeType, s.child, n, node)
    {
      NotLastNodeMeaning(m, s, n, vars, rows, node);
    }
  }

  /** `[[-a, Signed(v, b)]]` says that when `a` holds, `v` has the value `b`. */
  lemma ImpliesSigned(m: Model, a: int, v: int, b: bool)
    requires a != 0 && v != 0
    ensures CnfSat(m, [[-a, Signed(v, b)]]) <==> (LitTrue(m, a) ==> (LitTrue(m, v) <==> b))
  {
    NegLit(m, a);
    NegLit(m, v);
    CnfSatSingle(m, [-a, Signed(v, b)]);
    ClauseSat2(m, -a, Signed(v, b));
  }

  /** The three AND clauses say that under `t` and `ch`, `v` is the conjunction of `v1` and `v2`. */
  lemma AndGate(m: Model, t: int, ch: int, v: int, v1: int, v2: int)
    requires t != 0 && ch != 0 && v != 0 && v1 != 0 && v2 != 0
    ensures CnfSat(m, [[-t, -ch, v, -v1, -v2], [-t, -ch, -v, v1], [-t, -ch, -v, v2]])
        <==> (LitTrue(m, t) && LitTrue(m, ch) ==> (LitTrue(m, v) <==> LitTrue(m, v1) && LitTrue(m, v2)))
  {
    NegLit(m, t);
    NegLit(m, ch);
    NegLit(m, v);
    NegLit(m, v1);
    NegLit(m, v2);
    CnfSat3(m, [-t, -ch, v, -v1, -v2], [-t, -ch, -v, v1], [-t, -ch, -v, v2]);
    ClauseSat5(m, -t, -ch, v, -v1, -v2);
    ClauseSat4(m, -t, -ch, -v, v1);
    ClauseSat4(m, -t, -ch, -v, v2);
  }

  /** The three OR clauses say that under `t` and `ch`, `v` is the disjunction of `v1` and `v2`. */
  lemma OrGate(m: Model, t: int, ch: int, v: int, v1: int, v2: int)
    requires t != 0 && ch != 0 && v != 0 && v1 != 0 && v2 != 0
    ensures CnfSat(m, [[-t, -ch, -v, v1, v2], [-t, -ch, v, -v1], [-t, -ch, v, -v2]])
        <==> (LitTrue(m, t) && LitTrue(m, ch) ==> (LitTrue(m, v) <==> LitTrue(m, v1) || LitTrue(m, v2)))
  {
    NegLit(m, t);
    NegLit(m, ch);
    NegLit(m, v);
    NegLit(m, v1);
    NegLit(m, v2);
    CnfSat3(m, [-t, -ch, -v, v1, v2], [-t, -ch, v, -v1], [-t, -ch, v, -v2]);
    ClauseSat5(m, -t, -ch, -v, v1, v2);
    ClauseSat4(m, -t, -ch, v, -v1);
    ClauseSat4(m, -t, -ch, v, -v2);
  }

  /** The two NOT clauses say that under `t` and `ch`, `v` is the negation of `vc`. */
  lemma NotGate(m: Model, t: int, ch: int, v: int, vc: int)
    requires t != 0 && ch != 0 && v != 0 && vc != 0
    ensures CnfSat(m, [[-t, -ch, -v, -vc], [-t, -ch, v, vc]])
        <==> (LitTrue(m, t) && LitTrue(m, ch) ==> (LitTrue(m, v) <==> !LitTrue(m, vc)))
  {
    NegLit(m, t);
    NegLit(m, ch);
    NegLit(m, v);
    NegLit(m, vc);
    CnfSat2(m, [-t, -ch, -v, -vc], [-t, -ch, v, vc]);
    ClauseSat4(m, -t, -ch, -v, -vc);
    ClauseSat4(m, -t, -ch, v, vc);
  }

  /** In every row the root's value is that row's output. */
  predicate RootMatches(m: Model, value: Table, rows: seq<Row>)
  {
    forall row :: 0 <= row < |rows| ==> (LitTrue(m, ValueVar(value, 1, row)) <==> rows[row].1)
  }

  lemma RootMeaning(m: Model, s: Synthesis, n: nat, vars: nat, rows: seq<Row>)
    requires n >= 1 && Shaped(s, n, vars, |rows|)
    ensures CnfSat(m, Each(0, |rows|, RootFn(s.value, rows))) <==> RootMatches(m, s.value, rows)
  {
    ValueVarPositive(s, n, vars, |rows|);
    EachSat(m, 0, |rows|, RootFn(s.value, rows));
    forall row | 0 <= row < |rows|
      ensures CnfSat(m, RootFn(s.value, rows)(row)) <==> (LitTrue(m, ValueVar(s.value, 1, row)) <==> rows[row].1)
    {
      var v := ValueVar(s.value, 1, row);
      NegLit(m, v);
      CnfSatSingle(m, [Signed(v, rows[row].1)]);
      ClauseSatSingle(m, Signed(v, rows[row].1));
    }
  }

  /** A terminal with index `i` has, in row `row`, the value of input `i` of that row. */
  predicate TerminalAt(m: Model, index: Table, value: Table, rows: seq<Row>, vars: nat, node: nat, row: nat)
  {
    forall i: nat :: 1 <= i <= vars ==>
      (LitTrue(m, IndexVar(index, node, i)) ==> (LitTrue(m, ValueVar(value, node, row)) <==> Input(rows, row, i - 1)))
  }

  predicate TerminalNodeAt(m: Model, index: Table, value: Table, rows: seq<Row>, vars: nat, node: nat)
  {
    forall row: nat :: row < |rows| ==> TerminalAt(m, index, value, rows, vars, node, row)
  }

  lemma TerminalRowMeaning(m: Model, s: Synthesis, n: nat, vars: nat, rows: seq<Row>, node: nat, row: nat)
    requires Shaped(s, n, vars, |rows|) && 1 <= node <= n && row < |rows|
    ensures CnfSat(m, TerminalRowFn(s.index, s.value, rows, vars, node)(row))
        <==> TerminalAt(m, s.index, s.value, rows, vars, node, row)
  {
    IndexVarPositive(s, n, vars, |rows|);
    ValueVarPositive(s, n, vars, |rows|);
    var v := ValueVar(s.value, node, row);
    var f := TerminalIndexFn(s.index, s.value, rows, node, row);
    EachSat(m, 1, vars + 1, f);
    forall i: nat | 1 <= i <= vars
      ensures CnfSat(m, f(i))
          <==> (LitTrue(m, IndexVar(s.index, node, i)) ==> (LitTrue(m, v) <==> Input(rows, row, i - 1)))
    {
      ImpliesSigned(m, IndexVar(s.index, node, i), v, Input(rows, row, i - 1));
    }
  }

  lemma TerminalNodeMeaning(m: Model, s: Synthesis, n: nat, vars: nat, rows: seq<Row>, node: nat)
    requires Shaped(s, n, vars, |rows|) && 1 <= node <= n
    ensures CnfSat(m, TerminalFn(s.index, s.value, rows, vars)(node))
        <==> TerminalNodeAt(m, s.index, s.value, rows, vars, node)
  {
    EachSat(m, 0, |rows|, TerminalRowFn(s.index, s.value, rows, vars, node));
    forall row: nat | row < |rows|
      ensures CnfSat(m, TerminalRowFn(s.index, s.value, rows, vars, node)(row))
          <==> TerminalAt(m, s.index, s.value, rows, vars, node, row)
    {
      TerminalRowMeaning(m, s, n, vars, rows, node, row);
    }
  }

  lemma TerminalMeaning(m: Model, s: Synthesis, n: nat, vars: nat, rows: seq<Row>)
    requires Shaped(s, n, vars, |rows|)
    ensures CnfSat(m, Each(1, n + 1, TerminalFn(s.index, s.value, rows, vars)))
        <==> forall node :: 1 <= node <= n ==> TerminalNodeAt(m, s.index, s.value, rows, vars, node)
  {
    EachSat(m, 1, n + 1, TerminalFn(s.index, s.value, rows, vars));
    forall node | 1 <= node <= n
      ensures CnfSat(m, TerminalFn(s.index, s.value, rows, vars)(node))
          <==> TerminalNodeAt(m, s.index, s.value, rows, vars, node)
    {
      TerminalNodeMeaning(m, s, n, vars, rows, node);
    }
  }

  /** An AND node whose child is `c` has, in every row, the conjunction of the values of `c` and `c + 1`. */
  predicate AndChildAt(m: Model, types: Table, child: Table, value: Table, rows: nat, node: nat, c: nat)
  {
    forall row: nat :: row < rows ==>
      (LitTrue(m, TypeVar(types, node, And)) && LitTrue(m, ChildVar(child, node, c)) ==>
        (LitTrue(m, ValueVar(value, node, row)) <==> LitTrue(m, ValueVar(value, c, row)) && LitTrue(m, ValueVar(value, c + 1, row))))
  }

  predicate AndNodeAt(m: Model, types: Table, child: Table, value: Table, rows: nat, n: nat, node: nat)
  {
    forall c: nat :: node < c < n ==> AndChildAt(m, types, child, value, rows, node, c)
  }

  lemma AndChildMeaning(m: Model, s: Synthesis, n: nat, vars: nat, rows: nat, node: nat, c: nat)
    requires Shaped(s, n, vars, rows) && 1 <= node < c < n
    ensures CnfSat(m, AndChildFn(s.nodeType, s.child, s.value, rows, node)(c))
        <==> AndChildAt(m, s.nodeType, s.child, s.value, rows, node, c)
  {
    TypeVarPositive(s, n, vars, rows);
    ChildVarPositive(s, n, vars, rows);
    ValueVarPositive(s, n, vars, rows);
    var f := AndRowFn(s.nodeType, s.child, s.value, node, c);
    var t, ch := TypeVar(s.nodeType, node, And), ChildVar(s.child, node, c);
    EachSat(m, 0, rows, f);
    forall row: nat | row < rows
      ensures CnfSat(m, f(row)) <==> (LitTrue(m, t) && LitTrue(m, ch) ==>
        (LitTrue(m, ValueVar(s.value, node, row)) <==> LitTrue(m, ValueVar(s.value, c, row)) && LitTrue(m, ValueVar(s.value, c + 1, row))))
    {
      AndGate(m, t, ch, ValueVar(s.value, node, row), ValueVar(s.value, c, row), ValueVar(s.value, c + 1, row));
    }
  }

  lemma AndMeaning(m: Model, s: Synthesis, n: nat, vars: nat, rows: nat)
    requires Shaped(s, n, vars, rows)
    ensures CnfSat(m, Each(1, n, AndFn(s.nodeType, s.child, s.value, rows, n)))
        <==> forall node :: 1 <= node < n ==> AndNodeAt(m, s.nodeType, s.child, s.value, rows, n, node)
  {
    EachSat(m, 1, n, AndFn(s.nodeType, s.child, s.value, rows, n));
    forall node | 1 <= node < n
      ensures CnfSat(m, AndFn(s.nodeType, s.child, s.value, rows, n)(node))
          <==> AndNodeAt(m, s.nodeType, s.child, s.value, rows, n, node)
    {
      EachSat(m, node + 1, n, AndChildFn(s.nodeType, s.child, s.value, rows, node));
      forall c: nat | node < c < n
        ensures CnfSat(m, AndChildFn(s.nodeType, s.child, s.value, rows, node)(c))
            <==> AndChildAt(m, s.nodeType, s.child, s.value, rows, node, c)
      {
        AndChildMeaning(m, s, n, vars, rows, node, c);
      }
    }
  }

  /** An OR node whose child is `c` has, in every row, the disjunction of the values of `c` and `c + 1`. */
  predicate OrChildAt(m: Model, types: Table, child: Table, value: Table, rows: nat, node: nat, c: nat)
  {
    forall row: nat :: row < rows ==>
      (LitTrue(m, TypeVar(types, node, Or)) && LitTrue(m, ChildVar(child, node, c)) ==>
        (LitTrue(m, ValueVar(value, node, row)) <==> LitTrue(m, ValueVar(value, c, row)) || LitTrue(m, ValueVar(value, c + 1, row))))
  }

  predicate OrNodeAt(m: Model, types: Table, child: Table, value: Table, rows: nat, n: nat, node: nat)
  {
    forall c: nat :: node < c < n ==> OrChildAt(m, types, child, value, rows, node, c)
  }

  lemma OrChildMeaning(m: Model, s: Synthesis, n: nat, vars: nat, rows: nat, node: nat, c: nat)
    requires Shaped(s, n, vars, rows) && 1 <= node < c < n
    ensures CnfSat(m, OrChildFn(s.nodeType, s.child, s.value, rows, node)(c))
        <==> OrChildAt(m, s.nodeType, s.child, s.value, rows, node, c)
  {
    TypeVarPositive(s, n, vars, rows);
    ChildVarPositive(s, n, vars, rows);
    ValueVarPositive(s, n, vars, rows);
    var f := OrRowFn(s.nodeType, s.child, s.value, node, c);
    var t, ch := TypeVar(s.nodeType, node, Or), ChildVar(s.child, node, c);
    EachSat(m, 0, rows, f);
    forall row: nat | row < rows
      ensures CnfSat(m, f(row)) <==> (LitTrue(m, t) && LitTrue(m, ch) ==>
        (LitTrue(m, ValueVar(s.value, node, row)) <==> LitTrue(m, ValueVar(s.value, c, row)) || LitTrue(m, ValueVar(s.value, c + 1, row))))
    {
      OrGate(m, t, ch, ValueVar(s.value, node, row), ValueVar(s.value, c, row), ValueVar(s.value, c + 1, row));
    }
  }

  lemma OrMeaning(m: Model, s: Synthesis, n: nat, vars: nat, rows: nat)
    requires Shaped(s, n, vars, rows)
    ensures CnfSat(m, Each(1, n, OrFn(s.nodeType, s.child, s.value, rows, n)))
        <==> forall node :: 1 <= node < n ==> OrNodeAt(m, s.nodeType, s.child, s.value, rows, n, node)
  {
    EachSat(m, 1, n, OrFn(s.nodeType, s.child, s.value, rows, n));
    forall node | 1 <= node < n
      ensures CnfSat(m, OrFn(s.nodeType, s.child, s.value, rows, n)(node))
          <==> OrNodeAt(m, s.nodeType, s.child, s.value, rows, n, node)
    {
      EachSat(m, node + 1, n, OrChildFn(s.nodeType, s.child, s.value, rows, node));
      forall c: nat | node < c < n
        ensures CnfSat(m, OrChildFn(s.nodeType, s.child, s.value, rows, node)(c))
            <==> OrChildAt(m, s.nodeType, s.child, s.value, rows, node, c)
      {
        OrChildMeaning(m, s, n, vars, rows, node, c);
      }
    }
  }

  /** A NOT node whose child is `c` has, in every row, the negation of the value of `c`. */
  predicate NotChildAt(m: Model, types: Table, child: Table, value: Table, rows: nat, node: nat, c: nat)
  {
    forall row: nat :: row < rows ==>
      (LitTrue(m, TypeVar(types, node, Not)) && LitTrue(m, ChildVar(child, node, c)) ==>
        (LitTrue(m, ValueVar(value, node, row)) <==> !LitTrue(m, ValueVar(value, c, row))))
  }

  predicate NotNodeAt(m: Model, types: Table, child: Table, value: Table, rows: nat, n: nat, node: nat)
  {
    forall c: nat :: node < c <= n ==> NotChildAt(m, types, child, value, rows, node, c)
  }

  lemma NotChildMeaning(m: Model, s: Synthesis, n: nat, vars: nat, rows: nat, node: nat, c: nat)
    requires Shaped(s, n, vars, rows) && 1 <= node < c <= n
    ensures CnfSat(m, NotChildFn(s.nodeType, s.child, s.value, rows, node)(c))
        <==> NotChildAt(m, s.nodeType, s.child, s.value, rows, node, c)
  {
    TypeVarPositive(s, n, vars, rows);
    ChildVarPositive(s, n, vars, rows);
    ValueVarPositive(s, n, vars, rows);
    var f := NotRowFn(s.nodeType, s.child, s.value, node, c);
    var t, ch := TypeVar(s.nodeType, node, Not), ChildVar(s.child, node, c);
    EachSat(m, 0, rows, f);
    forall row: nat | row < rows
      ensures CnfSat(m, f(row)) <==> (LitTrue(m, t) && LitTrue(m, ch) ==>
        (LitTrue(m, ValueVar(s.value, node, row)) <==> !LitTrue(m, ValueVar(s.value, c, row))))
    {
      NotGate(m, t, ch, ValueVar(s.value, node, row), ValueVar(s.value, c, row));
    }
  }

  lemma NotMeaning(m: Model, s: Synthesis, n: nat, vars: nat, rows: nat)
    requires Shaped(s, n, vars, rows)
    ensures CnfSat(m, Each(1, n + 1, NotFn(s.nodeType, s.child, s.value, rows, n)))
        <==> forall node :: 1 <= node <= n ==> NotNodeAt(m, s.nodeType, s.child, s.value, rows, n, node)
  {
    EachSat(m, 1, n + 1, NotFn(s.nodeType, s.child, s.value, rows, n));
    forall node | 1 <= node <= n
      ensures CnfSat(m, NotFn(s.nodeType, s.child, s.value, rows, n)(node))
          <==> NotNodeAt(m, s.nodeType, s.child, s.value, rows, n, node)
    {
      EachSat(m, node + 1, n + 1, NotChildFn(s.nodeType, s.child, s.value, rows, node));
      forall c: nat | node < c <= n
        ensures CnfSat(m, NotChildFn(s.nodeType, s.child, s.value, rows, node)(c))
            <==> NotChildAt(m, s.nodeType, s.child, s.value, rows, node, c)
      {
        NotChildMeaning(m, s, n, vars, rows, node, c);
      }
    }
  }

  // ---------- the whole encoding ----------

  /** What the node-type and index clauses say. */
  predicate NodesMeant(m: Model, s: Synthesis, n: nat)
  {
    && OneHot(m, s.nodeType)
    && LastNodes(m, s.nodeType, n)
    && OneHot(m, s.index)
    && TerminalIffIndexed(m, s.nodeType, s.index, n)
  }

  /** What the parent clauses say. */
  predicate ParentsMeant(m: Model, s: Synthesis, n: nat)
  {
    OneHot(m, s.parent) && BfsOrdered(m, s.parent, n)
  }

  /** What the first four groups of child clauses say: one child per node, tied to the parents. */
  predicate ChildLinksMeant(m: Model, s: Synthesis, n: nat)
  {
    && OneHot(m, s.child)
    && (forall node :: 1 <= node <= n ==> ChildParentAt(m, s.child, s.parent, n, node))
    && (forall node :: 1 <= node <= n ==> NoChildAt(m, s.child, s.parent, n, node))
    && TerminalIffChildless(m, s.nodeType, s.child, n)
  }

  /** What the last four groups of child clauses say: which child each kind of node has. */
  predicate ChildKindsMeant(m: Model, s: Synthesis, n: nat)
  {
    && (forall node :: 1 <= node <= n ==> UnaryAt(m, s.nodeType, s.parent, s.child, n, node))
    && (forall node :: 1 <= node <= n ==>
          BinaryLeftAt(m, s.nodeType, s.parent, s.child, n, node, And) && BinaryLeftAt(m, s.nodeType, s.parent, s.child, n, node, Or))
    && (forall node :: 1 <= node <= n ==>
          BinaryRightAt(m, s.nodeType, s.parent, s.child, n, node, And) && BinaryRightAt(m, s.nodeType, s.parent, s.child, n, node, Or))
    && (forall node :: 1 <= node < n ==> NotLastAt(m, s.nodeType, s.child, n, node))
  }

  /** What the child clauses say. */
  predicate ChildrenMeant(m: Model, s: Synthesis, n: nat)
  {
    ChildLinksMeant(m, s, n) && ChildKindsMeant(m, s, n)
  }

  /** What the semantic clauses say. */
  predicate SemanticsMeant(m: Model, s: Synthesis, n: nat, vars: nat, rows: seq<Row>)
  {
    && RootMatches(m, s.value, rows)
    && (forall node :: 1 <= node <= n ==> TerminalNodeAt(m, s.index, s.value, rows, vars, node))
    && (forall node :: 1 <= node < n ==> AndNodeAt(m, s.nodeType, s.child, s.value, |rows|, n, node))
    && (forall node :: 1 <= node < n ==> OrNodeAt(m, s.nodeType, s.child, s.value, |rows|, n, node))
    && (forall node :: 1 <= node <= n ==> NotNodeAt(m, s.nodeType, s.child, s.value, |rows|, n, node))
  }

  lemma NodeClausesMeaning(m: Model, s: Synthesis, n: nat, vars: nat, rows: nat)
    requires n >= 1 && Shaped(s, n, vars, rows)
    ensures CnfSat(m, NodeClauses(s.nodeType, s.index, n)) <==> NodesMeant(m, s, n)
  {
    OneEachMeaning(m, s.nodeType, 1);
    LastMeaning(m, s, n, vars, rows);
    OneEachMeaning(m, s.index, 1);
    TermIndexMeaning(m, s, n, vars, rows);
    var a := Each(1, n + 1, OneEachFn(s.nodeType, 1));
    var b := LastClauses(s.nodeType, n);
    var c := Each(1, n + 1, OneEachFn(s.index, 1));
    var d := Each(1, n + 1, TermIndexFn(s.nodeType, s.index));
    CnfSatAppend(m, a + b + c, d);
    CnfSatAppend(m, a + b, c);
    CnfSatAppend(m, a, b);
  }

  lemma ParentClausesMeaning(m: Model, s: Synthesis, n: nat, vars: nat, rows: nat)
    requires n >= 1 && Shaped(s, n, vars, rows)
    ensures CnfSat(m, ParentClauses(s.parent, n)) <==> ParentsMeant(m, s, n)
  {
    OneEachMeaning(m, s.parent, 2);
    BfsMeaning(m, s, n, vars, rows);
    CnfSatAppend(m, Each(2, n + 1, OneEachFn(s.parent, 2)), Each(3, n, BfsFn(s.parent)));
  }

  function ChildLinkClauses(types: Table, parent: Table, child: Table, n: nat): Clauses
  {
    Each(1, n + 1, OneEachFn(child, 1))
    + Each(1, n + 1, ChildParentFn(child, parent, n))
    + Each(1, n + 1, NoChildFn(child, parent, n))
    + Each(1, n + 1, TermChildFn(types, child))
  }

  lemma ChildLinksMeaning(m: Model, s: Synthesis, n: nat, vars: nat, rows: nat)
    requires n >= 1 && Shaped(s, n, vars, rows)
    ensures CnfSat(m, ChildLinkClauses(s.nodeType, s.parent, s.child, n)) <==> ChildLinksMeant(m, s, n)
  {
    OneEachMeaning(m, s.child, 1);
    ChildParentMeaning(m, s, n, vars, rows);
    NoChildMeaning(m, s, n, vars, rows);
    TermChildMeaning(m, s, n, vars, rows);
    var c1 := Each(1, n + 1, OneEachFn(s.child, 1));
    var c2 := Each(1, n + 1, ChildParentFn(s.child, s.parent, n));
    var c3 := Each(1, n + 1, NoChildFn(s.child, s.parent, n));
    var c4 := Each(1, n + 1, TermChildFn(s.nodeType, s.child));
    CnfSatAppend(m, c1 + c2 + c3, c4);
    CnfSatAppend(m, c1 + c2, c3);
    CnfSatAppend(m, c1, c2);
  }

  lemma ChildKindsMeaning(m: Model, s: Synthesis, n: nat, vars: nat, rows: nat, c0: Clauses)
    requires n >= 1 && Shaped(s, n, vars, rows)
    ensures CnfSat(m, c0
                      + Each(1, n + 1, UnaryFn(s.nodeType, s.parent, s.child, n))
                      + Each(1, n + 1, BinaryLeftFn(s.nodeType, s.parent, s.child, n))
                      + Each(1, n + 1, BinaryRightFn(s.nodeType, s.parent, s.child, n))
                      + Each(1, n, NotLastFn(s.nodeType, s.child, n)))
        <==> CnfSat(m, c0) && ChildKindsMeant(m, s, n)
  {
    UnaryMeaning(m, s, n, vars, rows);
    BinaryLeftMeaning(m, s, n, vars, rows);
    BinaryRightMeaning(m, s, n, vars, rows);
    NotLastMeaning(m, s, n, vars, rows);
    var c5 := Each(1, n + 1, UnaryFn(s.nodeType, s.parent, s.child, n));
    var c6 := Each(1, n + 1, BinaryLeftFn(s.nodeType, s.parent, s.child, n));
    var c7 := Each(1, n + 1, BinaryRightFn(s.nodeType, s.parent, s.child, n));
    var c8 := Each(1, n, NotLastFn(s.nodeType, s.child, n));
    CnfSatAppend(m, c0 + c5 + c6 + c7, c8);
    CnfSatAppend(m, c0 + c5 + c6, c7);
    CnfSatAppend(m, c0 + c5, c6);
    CnfSatAppend(m, c0, c5);
  }

  lemma ChildClausesMeaning(m: Model, s: Synthesis, n: nat, vars: nat, rows: nat)
    requires n >= 1 && Shaped(s, n, vars, rows)
    ensures CnfSat(m, ChildClauses(s.nodeType, s.parent, s.child, n)) <==> ChildrenMeant(m, s, n)
  {
    ChildLinksMeaning(m, s, n, vars, rows);
    ChildKindsMeaning(m, s, n, vars, rows, ChildLinkClauses(s.nodeType, s.parent, s.child, n));
  }

  lemma SemanticsClausesMeaning(m: Model, s: Synthesis, n: nat, vars: nat, rows: seq<Row>)
    requires n >= 1 && Shaped(s, n, vars, |rows|)
    ensures CnfSat(m, SemanticsClauses(s, n, vars, rows)) <==> SemanticsMeant(m, s, n, vars, rows)
  {
    RootMeaning(m, s, n, vars, rows);
    TerminalMeaning(m, s, n, vars, rows);
    AndMeaning(m, s, n, vars, |rows|);
    OrMeaning(m, s, n, vars, |rows|);
    NotMeaning(m, s, n, vars, |rows|);
    var e1 := Each(0, |rows|, RootFn(s.value, rows));
    var e2 := Each(1, n + 1, TerminalFn(s.index, s.value, rows, vars));
    var e3 := Each(1, n, AndFn(s.nodeType, s.child, s.value, |rows|, n));
    var e4 := Each(1, n, OrFn(s.nodeType, s.child, s.value, |rows|, n));
    var e5 := Each(1, n + 1, NotFn(s.nodeType, s.child, s.value, |rows|, n));
    CnfSatAppend(m, e1 + e2 + e3 + e4, e5);
    CnfSatAppend(m, e1 + e2 + e3, e4);
    CnfSatAppend(m, e1 + e2, e3);
    CnfSatAppend(m, e1, e2);
  }

  /**
   * A model satisfies the whole synthesis encoding exactly when every
   * constraint the encoder states holds of it: one type, index, parent and
   * child per node, the tree shape, and the values that make the root
   * compute the truth table.
   */
  lemma SynthesisMeaning(m: Model, s: Synthesis, n: nat, vars: nat, rows: seq<Row>)
    requires n >= 1 && Shaped(s, n, vars, |rows|)
    ensures CnfSat(m, SynthesisClauses(s, n, vars, rows))
        <==> NodesMeant(m, s, n) && ParentsMeant(m, s, n) && ChildrenMeant(m, s, n) && SemanticsMeant(m, s, n, vars, rows)
  {
    NodeClausesMeaning(m, s, n, vars, |rows|);
    ParentClausesMeaning(m, s, n, vars, |rows|);
    ChildClausesMeaning(m, s, n, vars, |rows|);
    SemanticsClausesMeaning(m, s, n, vars, rows);
    var a := NodeClauses(s.nodeType, s.index, n);
    var b := ParentClauses(s.parent, n);
    var c := ChildClauses(s.nodeType, s.parent, s.child, n);
    var d := SemanticsClauses(s, n, vars, rows);
    CnfSatAppend(m, a + b + c, d);
    CnfSatAppend(m, a + b, c);
    CnfSatAppend(m, a, b);
  }
}
