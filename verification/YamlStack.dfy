/**
 The two growing arrays of the YAML tree builder: the stack of open collections, created with
 room for sixteen entries, and the children of a node, which start without any.
 */
module YamlStack {
  import opened Basics

  const CHILDREN_FIRST := 4

  /** What a full array grows to; the stack is never created without room. */
  function Grown(capacity: nat): nat {
    if capacity == 0 then CHILDREN_FIRST else 2 * capacity
  }

  /** Node references in the order they were added. */
  class NodeArray {
    var items: array<nat>
    var size: nat

    ghost predicate Valid()
      reads this
    {
      size <= items.Length
    }

    ghost function Contents(): (s: seq<nat>)
      requires Valid()
      reads this, items
      ensures |s| == size
    {
      items[..size]
    }

    constructor (initial: nat)
      ensures Valid() && Contents() == [] && items.Length == initial && fresh(items)
    {
      items := new nat[initial];
      size := 0;
    }

    /** Appends, doubling first if full; fails, changing nothing, only when that needs memory and there is none. */
    method Push(node: nat, memory: bool) returns (ok: bool)
      requires Valid()
      modifies this, items
      ensures Valid() && (items == old(items) || fresh(items))
      ensures ok == (memory || old(size) < old(items.Length))
      ensures Contents() == if ok then old(Contents()) + [node] else old(Contents())
      ensures items.Length == if ok && old(size) >= old(items.Length) then Grown(old(items.Length))
                              else old(items.Length)
    {
      if size >= items.Length {
        if !memory {
          return false;
        }
        var wider := new nat[Grown(items.Length)];
        forall i | 0 <= i < size {
          wider[i] := items[i];
        }
        items := wider;
      }
      items[size] := node;
      size := size + 1;
      ok := true;
    }

    /** Removes the last, if any. */
    method Pop() returns (node: Option<nat>)
      requires Valid()
      modifies this
      ensures Valid() && items == old(items)
      ensures old(Contents()) == [] ==> node == None && Contents() == []
      ensures old(Contents()) != [] ==> node.Some? && Contents() + [node.value] == old(Contents())
    {
      if size == 0 {
        return None;
      }
      size := size - 1;
      node := Some(items[size]);
    }

    method Top() returns (node: Option<nat>)
      requires Valid()
      ensures node == if Contents() == [] then None else Some(Contents()[|Contents()| - 1])
    {
      if size == 0 {
        return None;
      }
      node := Some(items[size - 1]);
    }

    /** `linx_yaml_node_sequence_by_index`, on the children of a sequence. */
    method At(index: int) returns (node: Option<nat>)
      requires Valid()
      ensures node == if 0 <= index < |Contents()| then Some(Contents()[index]) else None
    {
      if index < 0 || index >= size {
        return None;
      }
      node := Some(items[index]);
    }
  }
}
