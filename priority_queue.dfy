/**
 * The priority queue the distance propagation works through (PRIORITY_QUEUE_STRUCT).
 * Its heap implementation is not part of this model; the queue is a sequence of
 * items and removal promises only what the propagation relies on: some item of
 * maximal key is taken out and returned.
 */
module PriorityQueue {
  import opened Mesh

  /** A queued polygon occurrence together with its key. */
  datatype Item = Item(occ: Occurrence, key: real)

  /** The position of an item of maximal key. */
  function MaxIndex(items: seq<Item>): (r: nat)
    requires |items| > 0
    ensures r < |items|
    ensures forall k :: 0 <= k < |items| ==> items[k].key <= items[r].key
  {
    if |items| == 1 then 0
    else
      var r := MaxIndex(items[..|items| - 1]);
      if items[|items| - 1].key > items[r].key then |items| - 1 else r
  }

  class Queue {
    var items: seq<Item>

    /** INITIALIZE_PRIORITY_QUEUE */
    constructor ()
      ensures items == []
    {
      items := [];
    }

    /** IS_PRIORITY_QUEUE_EMPTY */
    predicate IsEmpty()
      reads this
    {
      |items| == 0
    }

    /** INSERT_IN_PRIORITY_QUEUE */
    method Insert(occ: Occurrence, key: real)
      modifies this
      ensures items == old(items) + [Item(occ, key)]
    {
      items := items + [Item(occ, key)];
    }

    /**
     * REMOVE_FROM_PRIORITY_QUEUE: takes out an item whose key is at least every
     * queued key and returns it. `at` is where it stood (ghost bookkeeping).
     */
    method RemoveMax() returns (occ: Occurrence, key: real, ghost at: nat)
      requires |items| > 0
      modifies this
      ensures at < |old(items)| && old(items)[at] == Item(occ, key)
      ensures forall k :: 0 <= k < |old(items)| ==> old(items)[k].key <= key
      ensures items == old(items)[..at] + old(items)[at + 1..]
    {
      var i := MaxIndex(items);
      occ, key, at := items[i].occ, items[i].key, i;
      items := items[..i] + items[i + 1..];
    }
  }
}
