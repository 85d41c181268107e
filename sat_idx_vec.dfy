/**
 * The growable vector indexed by keys (lib/simple-sat/src/idx/idx_vec.rs;
 * lib/simple-sat/src/index_map.rs holds the same code). A key is represented
 * by its `idx()`.
 */
module IdxVec {
  import opened Wrappers

  /**
   * What `init_by(k, f)` leaves in the vector: grown to `k + 1` entries, the new
   * ones equal to `d` (the value `f` produces), and never shrunk.
   */
  function Grown<V>(s: seq<V>, k: nat, d: V): (r: seq<V>)
    ensures |r| == if k + 1 > |s| then k + 1 else |s|
    ensures k < |r|
    ensures forall i :: 0 <= i < |s| ==> r[i] == s[i]
    ensures forall i :: |s| <= i < |r| ==> r[i] == d
  {
    if k + 1 > |s| then s + seq(k + 1 - |s|, _ => d) else s
  }

  class IdxVec<V> {
    var vec: seq<V>

    constructor ()
      ensures vec == []
    {
      vec := [];
    }

    method InitBy(k: nat, d: V)
      modifies this
      ensures vec == Grown(old(vec), k, d)
      ensures ContainsKey(k)
    {
      var newLen := k + 1;
      if newLen > |vec| {
        vec := vec + seq(newLen - |vec|, _ => d);
      }
    }

    /** `contains_key`: the key's index is below the length. */
    function ContainsKey(k: nat): bool
      reads this
    {
      k < |vec|
    }

    method Clear()
      modifies this
      ensures vec == []
      ensures forall k: nat :: !ContainsKey(k)
    {
      vec := [];
    }

    /** `get`: None exactly when the key is out of range. */
    function Get(k: nat): (r: Option<V>)
      reads this
      ensures r.None? <==> !ContainsKey(k)
      ensures r.Some? ==> r.value == vec[k]
    {
      if k < |vec| then Some(vec[k]) else None
    }

    method Push(v: V)
      modifies this
      ensures vec == old(vec) + [v]
      ensures ContainsKey(|old(vec)|)
    {
      vec := vec + [v];
    }
  }
}
