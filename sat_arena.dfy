/** A 1-based arena of items with `u32` ids (lib/simple-sat/src/arena.rs). */
module Arena {
  const U32Max: nat := 0xFFFF_FFFF

  /** The item with id `id`: ids start at 1, and id 0 is refused. */
  function ItemAt<T>(items: seq<T>, id: nat): T
    requires 0 < id <= |items|
  {
    items[id - 1]
  }

  /** Allocating `x` at the end and looking its id up gives `x` back, and older ids keep their items. */
  lemma GetAfterAlloc<T>(items: seq<T>, x: T, id: nat)
    requires 0 < id <= |items| + 1
    ensures ItemAt(items + [x], id) == if id == |items| + 1 then x else ItemAt(items, id)
  {
  }

  class Arena<T> {
    var items: seq<T>

    constructor ()
      ensures items == [] && NextId() == 1
    {
      items := [];
    }

    /** `next_id`: one more than the length, as a `u32`; overflow panics. */
    function NextId(): (id: nat)
      reads this
      requires |items| < U32Max
      ensures id == Len() + 1 && id > 0
    {
      |items| + 1
    }

    function Len(): nat
      reads this
    {
      |items|
    }

    /** `alloc` (through `alloc_with_id`): the item goes under the next free id. */
    method Alloc(x: T) returns (id: nat)
      requires |items| < U32Max
      modifies this
      ensures id == old(NextId()) && id == |items|
      ensures items == old(items) + [x]
      ensures Get(id) == x
      ensures forall j :: 0 < j < id ==> Get(j) == old(Get(j))
    {
      id := NextId();
      items := items + [x];
    }

    /** `get`: asserts the id is not 0, then indexes the 0-based vector. */
    function Get(id: nat): (x: T)
      reads this
      requires 0 < id <= |items|
      ensures x == ItemAt(items, id)
    {
      items[id - 1]
    }
  }
}
