/**
 * The iterator of lib/deque_iterator.ts: the list iterator, except that a
 * yielded node is replaced by the data it holds. It is built here by
 * wrapping a list iterator; cursor, reset and remove are that iterator's.
 */
module DequeIterators {
  import opened Common
  import opened Seqs
  import opened DoublyLinkedLists
  import opened ListIterators

  /** What `next()` leaves in `result.value`: a node becomes its data, done passes through. */
  function Unwrap<T>(s: Step<Node<T>>): (r: Step<T>)
    ensures s.Done? <==> r.Done?
    ensures s.Yield? ==> r.value == s.value.data
  {
    match s
    case Done => Done
    case Yield(n) => Yield(n.data)
  }

  function UnwrapAll<T>(ss: seq<Step<Node<T>>>): (r: seq<Step<T>>)
    ensures |r| == |ss|
    ensures forall i :: 0 <= i < |ss| ==> r[i] == Unwrap(ss[i])
  {
    seq(|ss|, i requires 0 <= i < |ss| => Unwrap(ss[i]))
  }

  lemma UnwrapNodeSteps<T>(nodes: seq<Node<T>>, steps: seq<Step<Node<T>>>)
    requires steps == seq(|nodes|, i requires 0 <= i < |nodes| => Yield(nodes[i])) + [Done]
    ensures UnwrapAll(steps) == seq(|nodes|, i requires 0 <= i < |nodes| => Yield(DataOf(nodes)[i])) + [Done]
  {
    var data := DataOf(nodes);
    var got := UnwrapAll(steps);
    var want := seq(|nodes|, i requires 0 <= i < |nodes| => Yield(data[i])) + [Done];
    forall i | 0 <= i < |nodes|
      ensures got[i] == want[i]
    {
      assert steps[i] == Yield(nodes[i]);
    }
    assert got[|nodes|] == Unwrap(steps[|nodes|]);
  }

  /** A fresh forward iterator over the nodes yields their data head to tail, then done. */
  lemma FreshDequeIteratorYieldsContents<T>(nodes: seq<Node<T>>)
    requires NoDups(nodes)
    ensures UnwrapAll(Run(nodes, false, Unstarted(), |nodes| + 1).1)
            == seq(|nodes|, i requires 0 <= i < |nodes| => Yield(DataOf(nodes)[i])) + [Done]
  {
    FreshIteratorYieldsInOrder(nodes);
    UnwrapNodeSteps(nodes, Run(nodes, false, Unstarted(), |nodes| + 1).1);
  }

  class DequeIterator<T> {
    const inner: DoublyLinkedListIterator<T>

    ghost predicate Valid()
      reads this, inner, inner.list, inner.list.Nodes, inner.cursor
    {
      inner.Valid()
    }

    constructor (list: DoublyLinkedList<T>, reverse: bool)
      requires list.Valid()
      ensures Valid() && fresh(inner)
      ensures inner.list == list && inner.reverse == reverse && inner.State() == Unstarted()
    {
      inner := new DoublyLinkedListIterator(list, reverse);
    }

    method Next() returns (r: Step<T>)
      requires Valid()
      modifies inner
      ensures Valid()
      ensures var (st, step) := Stepped(inner.list.Nodes, inner.reverse, old(inner.State()));
              inner.State() == st && r == Unwrap(step)
    {
      var result := inner.Next();
      r := Unwrap(result);
    }

    method Reset()
      requires Valid()
      modifies inner
      ensures Valid() && inner.State() == Unstarted()
    {
      inner.Reset();
    }

    method Remove() returns (r: Option<bool>)
      requires Valid()
      modifies inner.list, inner.list.Nodes
      ensures Valid() && inner.State() == old(inner.State())
      ensures inner.list.Nodes == RemoveAtCursor(old(inner.list.Nodes), inner.State())
      ensures r == Some(false) <==> RemoveRefused(old(inner.list.Nodes), inner.State())
      ensures r.Some? ==> r == Some(false)
    {
      r := inner.Remove();
    }
  }
}
