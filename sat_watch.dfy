/** Per-literal watch lists (lib/simple-sat/src/watch.rs). */
module Watch {
  import opened SatLit
  import IdxVec

  /** A watcher names a clause by its reference and caches a blocker literal. */
  datatype Watcher = Watcher(cref: nat, blocker: Lit)

  /** The lists after `insert(lit, w)`: `w` at the end of `lit`'s list, nothing else changed. */
  function Pushed(lists: seq<seq<Watcher>>, l: Lit, w: Watcher): (r: seq<seq<Watcher>>)
    requires Index(l) < |lists|
    ensures |r| == |lists|
    ensures r[Index(l)] == lists[Index(l)] + [w]
    ensures forall i :: 0 <= i < |lists| && i != Index(l) ==> r[i] == lists[i]
  {
    lists[Index(l) := lists[Index(l)] + [w]]
  }

  class WatchList {
    var lists: seq<seq<Watcher>>

    constructor ()
      ensures lists == []
    {
      lists := [];
    }

    /** `init(var)`: both literals of the variable get a (possibly empty) list. */
    method Init(v: u32)
      modifies this
      ensures lists == IdxVec.Grown(IdxVec.Grown(old(lists), Index(New(v, false)), []), Index(New(v, true)), [])
      ensures Index(New(v, false)) < |lists| && Index(New(v, true)) < |lists|
      ensures forall i :: 0 <= i < |old(lists)| ==> lists[i] == old(lists)[i]
    {
      lists := IdxVec.Grown(lists, Index(New(v, false)), []);
      lists := IdxVec.Grown(lists, Index(New(v, true)), []);
    }

    /** `lookup(lit)`: exactly `lit`'s list. */
    method Lookup(l: Lit) returns (ws: seq<Watcher>)
      requires Index(l) < |lists|
      ensures ws == lists[Index(l)]
    {
      ws := lists[Index(l)];
    }

    method Insert(l: Lit, w: Watcher)
      requires Index(l) < |lists|
      modifies this
      ensures lists == Pushed(old(lists), l, w)
    {
      lists := lists[Index(l) := lists[Index(l)] + [w]];
    }
  }
}
