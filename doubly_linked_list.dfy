/**
 * The doubly linked list of lib/doubly_linked_list.ts. Nodes are heap objects
 * whose `prev` and `next` links the list rewires in place. The ghost sequence
 * `Nodes` is the list read from `head` to `tail`; `Valid()` ties every link,
 * `head`, `tail` and the `length` counter to it.
 */
module DoublyLinkedLists {
  import opened Seqs

  class Node<T> {
    var prev: Node?<T>
    var next: Node?<T>
    const data: T

    constructor (data: T)
      ensures prev == null && next == null && this.data == data
    {
      prev := null;
      next := null;
      this.data := data;
    }
  }

  /** The links of the node at position `i` point at its neighbours, or are null at the ends. */
  ghost predicate Linked<T>(ns: seq<Node<T>>, i: int)
    requires 0 <= i < |ns|
    reads ns
  {
    && ns[i].prev == (if i == 0 then null else ns[i - 1])
    && ns[i].next == (if i == |ns| - 1 then null else ns[i + 1])
  }

  /** The data the nodes hold, in order. */
  function DataOf<T>(ns: seq<Node<T>>): (r: seq<T>)
    ensures |r| == |ns|
    ensures forall i :: 0 <= i < |ns| ==> r[i] == ns[i].data
  {
    if ns == [] then [] else [ns[0].data] + DataOf(ns[1..])
  }

  class DoublyLinkedList<T> {
    var head: Node?<T>
    var tail: Node?<T>
    var length: int
    ghost var Nodes: seq<Node<T>>

    ghost predicate Valid()
      reads this, Nodes
    {
      && length == |Nodes|
      && NoDups(Nodes)
      && head == (if Nodes == [] then null else Nodes[0])
      && tail == (if Nodes == [] then null else Nodes[|Nodes| - 1])
      && (forall i :: 0 <= i < |Nodes| ==> Linked(Nodes, i))
    }

    /** The elements of the list, head to tail. */
    ghost function Contents(): seq<T>
      reads this
    {
      DataOf(Nodes)
    }

    constructor ()
      ensures Valid() && Nodes == []
    {
      head := null;
      tail := null;
      length := 0;
      Nodes := [];
    }

    method InsertBeginning(node: Node<T>)
      requires Valid() && node !in Nodes
      modifies this, Nodes, node
      ensures Valid() && Nodes == [node] + old(Nodes)
    {
      if head == null {
        head := node;
        tail := node;
        node.prev := null;
        node.next := null;
        length := length + 1;
        Nodes := [node];
        assert Linked(Nodes, 0);
      } else {
        InsertBefore(head, node);
      }
    }

    method InsertEnd(node: Node<T>)
      requires Valid() && node !in Nodes
      modifies this, Nodes, node
      ensures Valid() && Nodes == old(Nodes) + [node]
    {
      if tail == null {
        InsertBeginning(node);
      } else {
        InsertAfter(tail, node);
      }
    }

    method InsertAfter(node: Node<T>, newNode: Node<T>)
      requires Valid() && node in Nodes && newNode !in Nodes
      modifies this, Nodes, newNode
      ensures Valid()
      ensures var k := IndexOf(old(Nodes), node);
              Nodes == old(Nodes)[..k + 1] + [newNode] + old(Nodes)[k + 1..]
    {
      ghost var N := Nodes;
      ghost var k: int := IndexOf(N, node);
      assert Linked(N, k);
      newNode.prev := node;
      newNode.next := node.next;
      if node.next == null {
        tail := newNode;
      } else {
        node.next.prev := newNode;
      }
      node.next := newNode;
      length := length + 1;
      Nodes := N[..k + 1] + [newNode] + N[k + 1..];
      forall j: int | 0 <= j < |N| && j != k && j != k + 1
        ensures unchanged(N[j])
      {
        assert N[j] != node && N[j] != newNode && (k < |N| - 1 ==> N[j] != N[k + 1]);
      }
      InsertedAfterValid(k);
    }

    method InsertBefore(node: Node<T>, newNode: Node<T>)
      requires Valid() && node in Nodes && newNode !in Nodes
      modifies this, Nodes, newNode
      ensures Valid()
      ensures var k := IndexOf(old(Nodes), node);
              Nodes == old(Nodes)[..k] + [newNode] + old(Nodes)[k..]
    {
      ghost var N := Nodes;
      ghost var k: int := IndexOf(N, node);
      assert Linked(N, k);
      assert k > 0 ==> Linked(N, k - 1);
      newNode.prev := node.prev;
      newNode.next := node;
      if node.prev == null {
        head := newNode;
      } else {
        node.prev.next := newNode;
      }
      node.prev := newNode;
      length := length + 1;
      Nodes := N[..k] + [newNode] + N[k..];
      forall j: int | 0 <= j < |N| && j != k && j != k - 1
        ensures unchanged(N[j])
      {
        assert N[j] != node && N[j] != newNode && (k > 0 ==> N[j] != N[k - 1]);
      }
      InsertedBeforeValid(k);
    }

    /**
     * The source does not check that `node` belongs to the list; removing a
     * detached node would null `head` and `tail` and still decrement `length`,
     * so membership is a precondition here.
     */
    method Remove(node: Node<T>)
      requires Valid() && node in Nodes
      modifies this, Nodes
      ensures Valid()
      ensures var k := IndexOf(old(Nodes), node);
              Nodes == old(Nodes)[..k] + old(Nodes)[k + 1..]
      ensures node.prev == null && node.next == null
    {
      ghost var N := Nodes;
      ghost var k: int := IndexOf(N, node);
      assert Linked(N, k);
      assert k > 0 ==> Linked(N, k - 1);
      assert k < |N| - 1 ==> Linked(N, k + 1);
      if node.prev == null {
        head := node.next;
      } else {
        node.prev.next := node.next;
      }
      if node.next == null {
        tail := node.prev;
      } else {
        node.next.prev := node.prev;
      }
      node.prev := null;
      node.next := null;
      length := length - 1;
      Nodes := N[..k] + N[k + 1..];
      forall j: int | 0 <= j < |N| && j != k - 1 && j != k && j != k + 1
        ensures unchanged(N[j])
      {
        assert N[j] != node && (k > 0 ==> N[j] != N[k - 1]) && (k < |N| - 1 ==> N[j] != N[k + 1]);
      }
      RemovedValid(k);
    }

    /**
     * After `insertAfter` rewired `N[k]`, the new node and `N[k + 1]` and left
     * every other node alone, the list is well formed again with the new node
     * at `k + 1` (here `N` is the old node sequence).
     */
    twostate lemma InsertedAfterValid(k: int)
      requires old(Valid()) && 0 <= k < |old(Nodes)| && |Nodes| == |old(Nodes)| + 1
      requires var N, newNode := old(Nodes), Nodes[k + 1];
        && newNode !in N && Nodes == N[..k + 1] + [newNode] + N[k + 1..]
        && length == |N| + 1 && head == N[0]
        && tail == (if k == |N| - 1 then newNode else N[|N| - 1])
        && newNode.prev == N[k] && newNode.next == (if k == |N| - 1 then null else N[k + 1])
        && N[k].next == newNode && N[k].prev == old(N[k].prev)
        && (k < |N| - 1 ==> N[k + 1].prev == newNode && N[k + 1].next == old(N[k + 1].next))
        && forall j :: 0 <= j < |N| && j != k && j != k + 1 ==> unchanged(N[j])
      ensures Valid()
    {
      var N, M := old(Nodes), Nodes;
      InsertNoDups(N, k + 1, M[k + 1]);
      InsertAtIndex(N, k + 1, M[k + 1]);
      forall i | 0 <= i < |M|
        ensures Linked(M, i)
      {
        if i <= k {
          assert old(Linked(N, i));
        } else if i > k + 1 {
          assert old(Linked(N, i - 1));
        }
      }
    }

    /**
     * After `insertBefore` rewired `N[k - 1]`, the new node and `N[k]` and left
     * every other node alone, the list is well formed again with the new node
     * at `k`.
     */
    twostate lemma InsertedBeforeValid(k: int)
      requires old(Valid()) && 0 <= k < |old(Nodes)| && |Nodes| == |old(Nodes)| + 1
      requires var N, newNode := old(Nodes), Nodes[k];
        && newNode !in N && Nodes == N[..k] + [newNode] + N[k..]
        && length == |N| + 1 && tail == N[|N| - 1]
        && head == (if k == 0 then newNode else N[0])
        && newNode.next == N[k] && newNode.prev == (if k == 0 then null else N[k - 1])
        && N[k].prev == newNode && N[k].next == old(N[k].next)
        && (k > 0 ==> N[k - 1].next == newNode && N[k - 1].prev == old(N[k - 1].prev))
        && forall j :: 0 <= j < |N| && j != k && j != k - 1 ==> unchanged(N[j])
      ensures Valid()
    {
      var N, M := old(Nodes), Nodes;
      InsertNoDups(N, k, M[k]);
      InsertAtIndex(N, k, M[k]);
      forall i | 0 <= i < |M|
        ensures Linked(M, i)
      {
        if i < k {
          assert old(Linked(N, i));
        } else if i > k {
          assert old(Linked(N, i - 1));
        }
      }
    }

    /**
     * After `remove` joined `N[k - 1]` to `N[k + 1]` and left every other node
     * alone, the list without `N[k]` is well formed.
     */
    twostate lemma RemovedValid(k: int)
      requires old(Valid()) && 0 <= k < |old(Nodes)|
      requires var N := old(Nodes);
        && Nodes == N[..k] + N[k + 1..]
        && length == |N| - 1
        && head == (if k == 0 then (if |N| == 1 then null else N[1]) else N[0])
        && tail == (if k == |N| - 1 then (if k == 0 then null else N[k - 1]) else N[|N| - 1])
        && (k > 0 ==> N[k - 1].next == (if k == |N| - 1 then null else N[k + 1]) && N[k - 1].prev == old(N[k - 1].prev))
        && (k < |N| - 1 ==> N[k + 1].prev == (if k == 0 then null else N[k - 1]) && N[k + 1].next == old(N[k + 1].next))
        && forall j :: 0 <= j < |N| && j != k - 1 && j != k && j != k + 1 ==> unchanged(N[j])
      ensures Valid()
    {
      var N, M := old(Nodes), Nodes;
      CutNoDups(N, k);
      CutAtIndex(N, k);
      forall i | 0 <= i < |M|
        ensures Linked(M, i)
      {
        if i < k {
          assert old(Linked(N, i));
        } else {
          assert old(Linked(N, i + 1));
        }
      }
    }

    static method CreateNode(data: T) returns (node: Node<T>)
      ensures fresh(node)
      ensures node.prev == null && node.next == null && node.data == data
    {
      node := new Node(data);
    }
  }

  /**
   * A list whose own fields and whose nodes nobody touched is still well
   * formed and holds the same nodes: what a container of several lists
   * needs when one of its lists changes.
   */
  twostate lemma ListKept<T>(l: DoublyLinkedList<T>)
    requires old(l.Valid())
    requires unchanged(l)
    requires forall n :: n in old(l.Nodes) ==> unchanged(n)
    ensures l.Valid() && l.Nodes == old(l.Nodes) && l.Contents() == old(l.Contents())
  {
    forall i | 0 <= i < |l.Nodes|
      ensures Linked(l.Nodes, i)
    {
      assert old(Linked(l.Nodes, i));
      assert l.Nodes[i] in old(l.Nodes);
      assert unchanged(l.Nodes[i]);
    }
  }
}
