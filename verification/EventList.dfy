/** The circular intrusive list of ext/io/event/list.h. The sentinel and the items are nodes of one ring; `tail`
    leads forward in the order the selectors iterate, `head` leads back. */
module EventList {
  import opened Collections

  class Node<T> {
    var head: Node?<T>
    var tail: Node?<T>
    /** What contains the node; a sentinel or a placeholder carries nothing. */
    const item: T

    /** A node that is in no list. */
    constructor Detached(item: T)
      ensures head == null && tail == null && this.item == item
    {
      this.item := item;
      head, tail := null, null;
    }

    /** IO_Event_List_initialize: an empty list. */
    constructor Sentinel(item: T)
      ensures Ring([this]) && this.item == item
    {
      this.item := item;
      new;
      head, tail := this, this;
    }
  }

  ghost function After<T>(ring: seq<Node<T>>, i: nat): Node<T>
    requires i < |ring|
  {
    if i + 1 == |ring| then ring[0] else ring[i + 1]
  }

  /** `ring` lists the nodes from the sentinel onwards; both links agree with it. */
  ghost predicate Ring<T>(ring: seq<Node<T>>)
    reads SetOf(ring)
  {
    && ring != []
    && (forall i, j | 0 <= i < j < |ring| :: ring[i] != ring[j])
    && (forall i: nat | i < |ring| :: ring[i].tail == After(ring, i) && After(ring, i).head == ring[i])
  }

  ghost function Inserted<T>(ring: seq<Node<T>>, k: nat, node: Node<T>): (r: seq<Node<T>>)
    requires 0 < k <= |ring|
    ensures |r| == |ring| + 1
  {
    ring[..k] + [node] + ring[k..]
  }

  /** Links `node` between `left` and `right`: what append and prepend do once they have found the two. */
  lemma LinkedBetween<T>(ring: seq<Node<T>>, k: nat, node: Node<T>)
    requires ring != [] && 0 < k <= |ring| && node !in ring
    requires forall i, j | 0 <= i < j < |ring| :: ring[i] != ring[j]
    requires forall i: nat | i < |ring| && i != k - 1 ::
               ring[i].tail == After(ring, i) && After(ring, i).head == ring[i]
    requires node.head == ring[k - 1] && node.tail == After(ring, k - 1)
    requires ring[k - 1].tail == node && After(ring, k - 1).head == node
    ensures Ring(Inserted(ring, k, node))
  {
    var r := Inserted(ring, k, node);
    forall i: nat | i < |r| ensures r[i].tail == After(r, i) && After(r, i).head == r[i] {
      if i < k - 1 {
        assert r[i] == ring[i] && After(r, i) == After(ring, i);
      } else if i > k {
        assert r[i] == ring[i - 1] && After(r, i) == After(ring, i - 1);
      }
    }
  }

  /** IO_Event_List_append: before `list`, at the end when `list` is the sentinel (then `k == |ring|`). */
  method Append<T>(list: Node<T>, node: Node<T>, ghost ring: seq<Node<T>>, ghost k: nat)
    requires Ring(ring) && 0 < k <= |ring| && list == After(ring, k - 1)
    requires node !in ring && node.head == null && node.tail == null
    modifies list, ring[k - 1], node
    ensures Ring(Inserted(ring, k, node))
  {
    assert list.head == ring[k - 1];
    var head := list.head;
    node.tail := list;
    node.head := head;
    list.head := node;
    head.tail := node;
    LinkedBetween(ring, k, node);
  }

  /** IO_Event_List_prepend: after `list`, at the front when `list` is the sentinel. */
  method Prepend<T>(list: Node<T>, node: Node<T>, ghost ring: seq<Node<T>>, ghost k: nat)
    requires Ring(ring) && 0 < k <= |ring| && list == ring[k - 1]
    requires node !in ring && node.head == null && node.tail == null
    modifies list, After(ring, k - 1), node
    ensures Ring(Inserted(ring, k, node))
  {
    assert list.tail == After(ring, k - 1);
    var tail := list.tail;
    node.head := list;
    node.tail := tail;
    list.tail := node;
    tail.head := node;
    LinkedBetween(ring, k, node);
  }

  /** IO_Event_List_pop. */
  method Pop<T>(node: Node<T>, ghost ring: seq<Node<T>>, ghost k: nat)
    requires Ring(ring) && 0 < k < |ring| && node == ring[k]
    modifies node, ring[k - 1], After(ring, k)
    ensures Ring(RemovedAt(ring, k))
    ensures node.head == null && node.tail == null
  {
    assert node.tail == After(ring, k);
    assert After(ring, k - 1) == node;
    var head := node.head;
    var tail := node.tail;
    head.tail := tail;
    tail.head := head;
    node.head, node.tail := null, null;
    ghost var r := RemovedAt(ring, k);
    forall i: nat | i < |r| ensures r[i].tail == After(r, i) && After(r, i).head == r[i] {
      if i < k - 1 {
        assert r[i] == ring[i] && After(r, i) == After(ring, i);
      } else if i >= k {
        assert r[i] == ring[i + 1] && After(r, i) == After(ring, i + 1);
      }
    }
  }

  /** IO_Event_List_empty compares the two end links: it also holds of a list with exactly one item. */
  method Empty<T>(list: Node<T>, ghost ring: seq<Node<T>>) returns (empty: bool)
    requires Ring(ring) && list == ring[0]
    ensures empty <==> |ring| <= 2
  {
    assert list.tail == After(ring, 0);
    assert After(ring, |ring| - 1) == list;
    empty := list.head == list.tail;
  }

  /** What was linked in anywhere and unlinked again leaves no trace: every node of the ring has the links it had. */
  twostate lemma PopUndoesInsertion<T>(ring: seq<Node<T>>, k: nat, new node: Node<T>)
    requires old(Ring(ring)) && 0 < k <= |ring|
    requires Ring(RemovedAt(Inserted(ring, k, node), k))
    ensures forall n | n in ring :: n.head == old(n.head) && n.tail == old(n.tail)
  {
    assert RemovedAt(Inserted(ring, k, node), k) == ring;
    forall i: nat | i < |ring|
      ensures ring[i].tail == old(ring[i].tail) && ring[i].head == old(ring[i].head)
    {
      var before := if i == 0 then |ring| - 1 else i - 1;
      assert After(ring, before) == ring[i];
    }
  }
}
