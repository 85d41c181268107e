/**
 * The truth table of the BF-synthesis example: a number of input variables
 * and rows of input values with an output value.
 */
module BfTable {
  import opened BitVec

  type Row = (seq<bool>, bool)

  /** The inputs of row `i` of the complete table on `n` variables: input `j` is bit `j` of `i`. */
  function RowInputs(i: nat, n: nat): (r: seq<bool>)
    ensures |r| == n && forall j :: 0 <= j < n ==> r[j] == Bit(i, j)
  {
    seq(n, (j: nat) => Bit(i, j))
  }

  /** The rows `complete(n)` builds: one per number below `2^n`, each with output `false`. */
  function CompleteRows(n: nat): (rows: seq<Row>)
    ensures |rows| == Pow2(n)
    ensures forall i :: 0 <= i < |rows| ==> rows[i] == (RowInputs(i, n), false)
  {
    seq(Pow2(n), (i: nat) => (RowInputs(i, n), false))
  }

  /** The number whose bits, least significant first, are `b`. */
  function LsbValue(b: seq<bool>): nat
  {
    if |b| == 0 then 0 else (if b[0] then 1 else 0) + 2 * LsbValue(b[1..])
  }

  lemma {:induction false} LsbValueBound(b: seq<bool>)
    ensures LsbValue(b) < Pow2(|b|)
  {
    if |b| > 0 {
      LsbValueBound(b[1..]);
    }
  }

  lemma {:induction false} LsbValueBits(b: seq<bool>, j: nat)
    requires j < |b|
    ensures Bit(LsbValue(b), j) == b[j]
  {
    var c: nat := if b[0] then 1 else 0;
    var x := LsbValue(b);
    assert x == c + 2 * LsbValue(b[1..]);
    assert x % 2 == c && x / 2 == LsbValue(b[1..]);
    if j > 0 {
      LsbValueBits(b[1..], j - 1);
    }
  }

  /** Every assignment of the `n` inputs is the inputs of some row of the complete table. */
  lemma CompleteCovers(n: nat, b: seq<bool>)
    requires |b| == n
    ensures exists i :: 0 <= i < |CompleteRows(n)| && CompleteRows(n)[i].0 == b
  {
    var i := LsbValue(b);
    LsbValueBound(b);
    forall j | 0 <= j < n
      ensures RowInputs(i, n)[j] == b[j]
    {
      LsbValueBits(b, j);
    }
    assert CompleteRows(n)[i].0 == b;
  }

  class TruthTable {
    var variables: nat
    var rows: seq<Row>

    /** `new(variables)`: no rows yet. */
    constructor (variables: nat)
      ensures this.variables == variables && rows == []
    {
      this.variables := variables;
      rows := [];
    }

    /** `add_row`: one more row at the end. */
    method AddRow(inputs: seq<bool>, output: bool)
      modifies this
      ensures rows == old(rows) + [(inputs, output)] && variables == old(variables)
    {
      rows := rows + [(inputs, output)];
    }
  }

  /** `complete(n)`: the shift `1 << n` demands `n < 64`. */
  method Complete(n: nat) returns (table: TruthTable)
    requires n < 64
    ensures fresh(table) && table.variables == n && table.rows == CompleteRows(n)
  {
    table := new TruthTable(n);
    var count := Pow2(n);
    for i := 0 to count
      invariant table.variables == n && table.rows == CompleteRows(n)[..i]
    {
      var inputs := RowInputs(i, n);
      table.AddRow(inputs, false);
      assert CompleteRows(n)[..i + 1] == CompleteRows(n)[..i] + [(inputs, false)];
    }
    assert CompleteRows(n)[..count] == CompleteRows(n);
  }
}
