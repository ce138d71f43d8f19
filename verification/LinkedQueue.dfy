/** The singly linked queue with head, tail and count that both the frame-buffer cache and
    the packet queue are built on. */
module LinkedQueue {

  class Node<T> {
    const item: T
    var next: Node?<T>

    constructor (item: T)
      ensures this.item == item && next == null
    {
      this.item := item;
      next := null;
    }
  }

  class Queue<T> {
    var first: Node?<T>
    var last: Node?<T>
    var count: int
    ghost var nodes: seq<Node<T>>

    ghost predicate Valid()
      reads this, nodes
    {
      && NoRepeat(nodes)
      && first == At(0) && last == At(|nodes| - 1) && count == |nodes|
      && (forall i :: 0 <= i < |nodes| ==> Linked(i))
    }

    /** Kept apart from Valid, so that one link does not lead the solver on to the next. */
    ghost predicate Linked(i: int)
      requires 0 <= i < |nodes|
      reads this, nodes
    {
      nodes[i].next == At(i + 1)
    }

    ghost function At(i: int): Node?<T>
      reads this
    {
      if 0 <= i < |nodes| then nodes[i] else null
    }

    ghost function Items(): (s: seq<T>)
      reads this
      ensures |s| == |nodes|
      ensures forall i :: 0 <= i < |nodes| ==> s[i] == nodes[i].item
    {
      ItemsOf(nodes)
    }

    constructor ()
      ensures Valid() && nodes == []
    {
      first, last, count, nodes := null, null, 0, [];
    }

    /** Appends a node the caller has allocated. */
    method Append(node: Node<T>)
      requires Valid() && node !in nodes && node.next == null
      modifies this, last
      ensures Valid() && nodes == old(nodes) + [node]
    {
      ghost var before := nodes;
      assert forall i :: 0 <= i < |nodes| ==> Linked(i);
      label start:
      if last == null {
        first := node;
      } else {
        last.next := node;
      }
      last := node;
      count := count + 1;
      nodes := nodes + [node];
      forall i | 0 <= i < |nodes|
        ensures Linked(i)
      {
        if i < |before| {
          assert nodes[i] == before[i];
          assert old@start(Linked(i));
        }
      }
    }

    /** Takes the first node out. */
    method UnlinkFirst()
      requires Valid() && first != null
      modifies this
      ensures Valid() && nodes == old(nodes)[1..]
    {
      assert Linked(0);
      first := first.next;
      if first == null {
        last := null;
      }
      count := count - 1;
      nodes := nodes[1..];
      forall i | 0 <= i < |nodes|
        ensures Linked(i)
      {
        assert old(Linked(i + 1));
      }
    }

    /** Takes the node after prev out. */
    method UnlinkAfter(ghost k: nat, prev: Node<T>)
      requires Valid() && 0 < k < |nodes| && prev == nodes[k - 1] && prev.next != null
      modifies this, prev
      ensures Valid() && nodes == Without(old(nodes), k)
    {
      assert Linked(k - 1) && Linked(k);
      label start:
      var node := prev.next;
      ghost var before := nodes;
      assert last == node <==> k == |before| - 1;
      nodes := Without(before, k);
      WithoutKeeps(before, k);
      hide NoRepeat, Without;
      prev.next := node.next;
      if last == node {
        last := prev;
      }
      count := count - 1;
      forall i | 0 <= i < |nodes|
        ensures Linked(i)
      {
        var j := if i < k then i else i + 1;
        assert old@start(Linked(j));
      }
    }

    /** Drops all nodes. */
    method Clear()
      modifies this
      ensures Valid() && nodes == []
    {
      last := null;
      first := null;
      count := 0;
      nodes := [];
    }

    /** Takes node k out, given the node before it, null for the first. */
    method Unlink(ghost k: nat, prev: Node?<T>)
      requires Valid() && k < |nodes| && prev == At(k - 1)
      modifies this, nodes
      ensures Valid() && nodes == Without(old(nodes), k)
      ensures Items() == Without(old(Items()), k)
    {
      WithoutItems(nodes, k);
      if prev == null {
        assert nodes[1..] == Without(nodes, 0);
        hide Without, ItemsOf, NoRepeat;
        UnlinkFirst();
      } else {
        assert Linked(k - 1);
        hide Without, ItemsOf, NoRepeat;
        UnlinkAfter(k, prev);
      }
    }
  }

  ghost predicate NoRepeat<T>(s: seq<T>) {
    forall i, j :: 0 <= i < j < |s| ==> s[i] != s[j]
  }

  lemma FirstOnce<T>(s: seq<T>, k: nat)
    requires NoRepeat(s) && k < |s| && s[0] == s[k]
    ensures k == 0
  {}

  /** s with the element at position k taken out. */
  function Without<T>(s: seq<T>, k: nat): (t: seq<T>)
    requires k < |s|
    ensures |t| == |s| - 1
    ensures forall i :: 0 <= i < |t| ==> t[i] == if i < k then s[i] else s[i + 1]
  {
    s[..k] + s[k + 1..]
  }

  lemma WithoutKeeps<T>(s: seq<T>, k: nat)
    requires k < |s| && NoRepeat(s)
    ensures NoRepeat(Without(s, k))
    ensures forall i :: 0 <= i < |s| && i != k ==> s[i] != s[k]
    ensures k > 0 ==> forall i :: 0 <= i < |s| - 1 && i != k - 1 ==> Without(s, k)[i] != s[k - 1]
  {}

  ghost function ItemsOf<T>(nodes: seq<Node<T>>): (s: seq<T>)
    ensures |s| == |nodes|
    ensures forall i :: 0 <= i < |nodes| ==> s[i] == nodes[i].item
  {
    seq(|nodes|, i requires 0 <= i < |nodes| => nodes[i].item)
  }

  lemma WithoutItems<T>(nodes: seq<Node<T>>, k: nat)
    requires k < |nodes|
    ensures ItemsOf(Without(nodes, k)) == Without(ItemsOf(nodes), k)
  {}
}
