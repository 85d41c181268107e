/**
 * Clauses of the encoding layer (lib/core/src/cnf/clause.rs): a non-empty list
 * of literals, compared regardless of order.
 */
module CoreClause {
  predicate Sorted(s: seq<int>)
  {
    forall i, j :: 0 <= i < j < |s| ==> s[i] <= s[j]
  }

  /** Insertion of `x` into a sorted list. */
  function Insert(x: int, s: seq<int>): (r: seq<int>)
    requires Sorted(s)
    ensures Sorted(r)
    ensures multiset(r) == multiset(s) + multiset{x}
  {
    if s == [] then [x]
    else if x <= s[0] then [x] + s
    else
      var t := Insert(x, s[1..]);
      assert s == [s[0]] + s[1..];
      assert forall k :: 0 <= k < |t| ==> t[k] in multiset(s[1..]) + multiset{x};
      [s[0]] + t
  }

  /** `sorted_unstable`: the literals in ascending order. */
  function SortedOf(s: seq<int>): (r: seq<int>)
    ensures Sorted(r)
    ensures multiset(r) == multiset(s)
  {
    if s == [] then []
    else
      assert s == [s[0]] + s[1..];
      Insert(s[0], SortedOf(s[1..]))
  }

  /** Two sorted lists with the same elements are the same list. */
  lemma {:induction false} SortedUnique(a: seq<int>, b: seq<int>)
    requires Sorted(a) && Sorted(b)
    requires multiset(a) == multiset(b)
    ensures a == b
  {
    if a == [] {
      assert |b| == |multiset(b)| == 0;
    } else {
      assert b != [] by {
        assert a[0] in multiset(a);
      }
      assert a == [a[0]] + a[1..];
      assert b == [b[0]] + b[1..];
      assert a[0] in multiset(b);
      assert b[0] in multiset(a);
      assert a[0] <= b[0] by {
        var k :| 0 <= k < |a| && a[k] == b[0];
      }
      assert b[0] <= a[0] by {
        var k :| 0 <= k < |b| && b[k] == a[0];
      }
      assert multiset(a) == multiset{a[0]} + multiset(a[1..]);
      assert multiset(b) == multiset{b[0]} + multiset(b[1..]);
      assert a[0] == b[0];
      assert multiset(a[1..]) == multiset(a) - multiset{a[0]};
      assert multiset(b[1..]) == multiset(b) - multiset{b[0]};
      SortedUnique(a[1..], b[1..]);
    }
  }

  datatype Clause = Clause(lits: seq<int>)

  /** `Clause::new`: debug-asserts a non-empty list. */
  function New(lits: seq<int>): (c: Clause)
    requires |lits| > 0
    ensures Iter(c) == lits
  {
    Clause(lits)
  }

  /** `iter`: the literals in their stored order. */
  function Iter(c: Clause): seq<int>
  {
    c.lits
  }

  /** `PartialEq`: equal lengths, then equal sorted literal lists. */
  predicate Eq(a: Clause, b: Clause)
  {
    |a.lits| == |b.lits| && SortedOf(a.lits) == SortedOf(b.lits)
  }

  /** Equality of clauses is equality of their literal multisets. */
  lemma EqIffSameMultiset(a: Clause, b: Clause)
    ensures Eq(a, b) <==> multiset(a.lits) == multiset(b.lits)
  {
    if multiset(a.lits) == multiset(b.lits) {
      assert |a.lits| == |multiset(a.lits)| == |multiset(b.lits)| == |b.lits|;
      SortedUnique(SortedOf(a.lits), SortedOf(b.lits));
    }
  }

  /** A clause equals every reordering of itself. */
  lemma EqReordered(lits: seq<int>, i: nat, j: nat)
    requires i < j < |lits|
    ensures Eq(Clause(lits), Clause(lits[i := lits[j]][j := lits[i]]))
  {
    var swapped := lits[i := lits[j]][j := lits[i]];
    assert multiset(swapped) == multiset(lits) by {
      var lo, mid, hi := lits[..i], lits[i+1..j], lits[j+1..];
      assert lits == lo + [lits[i]] + mid + [lits[j]] + hi;
      assert swapped == lo + [lits[j]] + mid + [lits[i]] + hi;
    }
    EqIffSameMultiset(Clause(lits), Clause(swapped));
  }
}
