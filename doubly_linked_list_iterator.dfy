/**
 * The cursor of lib/doubly_linked_list_iterator.ts. Its behaviour is first
 * given as functions over the list's node sequence and an abstract state
 * (whether it started, the node under the cursor, whether it is done); the
 * node type `H` is left open so that the pool can run the same rules over
 * node handles. The class below follows the real `prev`/`next` links and is
 * proved to behave as those functions say.
 */
module ListIterators {
  import opened Common
  import opened Seqs
  import opened DoublyLinkedLists

  datatype IterState<H> = IterState(started: bool, cursor: Option<H>, done: bool)

  /** What `next()` returns: `{done: true}`, or `{value, done: false}`. */
  datatype Step<H> = Done | Yield(value: H)

  /** The state of a new or reset iterator. */
  function Unstarted<H>(): IterState<H> {
    IterState(false, None, false)
  }

  /** The list end a first `next()` starts from: the head, or the tail when reversed. */
  function StartPosition<H>(nodes: seq<H>, reverse: bool): (r: Option<H>)
    ensures nodes == [] <==> r == None
  {
    if nodes == [] then None
    else if reverse then Some(nodes[|nodes| - 1])
    else Some(nodes[0])
  }

  /**
   * The node the cursor's `next` (or `prev`, reversed) link points at. A node
   * that is no longer in the list had both links nulled by its removal.
   */
  function Neighbour<H(==)>(nodes: seq<H>, reverse: bool, h: H): (r: Option<H>)
    ensures h !in nodes ==> r == None
  {
    if h !in nodes then None
    else
      var k := IndexOf(nodes, h);
      if reverse then (if k == 0 then None else Some(nodes[k - 1]))
      else (if k == |nodes| - 1 then None else Some(nodes[k + 1]))
  }

  /** `_isCursorDetached`: a node under the cursor that is no longer in the list. */
  predicate Detached<H(==)>(nodes: seq<H>, cursor: Option<H>) {
    cursor.Some? && cursor.value !in nodes
  }

  function Advanced<H(==)>(nodes: seq<H>, reverse: bool, it: IterState<H>): (r: IterState<H>)
    ensures r.started && r.done == it.done
    ensures !it.started ==> r.cursor == StartPosition(nodes, reverse)
    ensures it.started && it.cursor.Some? ==> r.cursor == Neighbour(nodes, reverse, it.cursor.value)
    ensures it.started && it.cursor.None? ==> r.cursor == None
  {
    if !it.started then it.(started := true, cursor := StartPosition(nodes, reverse))
    else it.(cursor := if it.cursor.None? then None else Neighbour(nodes, reverse, it.cursor.value))
  }

  function Stepped<H(==)>(nodes: seq<H>, reverse: bool, it: IterState<H>): (IterState<H>, Step<H>)
  {
    if it.done then (it, Done)
    else
      var a := Advanced(nodes, reverse, it);
      if a.cursor.None? || Detached(nodes, a.cursor) then (a.(done := true), Done)
      else (a, Yield(a.cursor.value))
  }

  /** `remove()` refuses, returning `false`, before the first `next()`, once done, or on a detached cursor. */
  predicate RemoveRefused<H(==)>(nodes: seq<H>, it: IterState<H>) {
    !it.started || it.done || Detached(nodes, it.cursor)
  }

  /** `remove()` acts only after a `next()`, before done, on a cursor still in the list. */
  predicate RemoveAllowed<H(==)>(nodes: seq<H>, it: IterState<H>) {
    !RemoveRefused(nodes, it) && it.cursor.Some?
  }

  /** The list after `remove()`. */
  function RemoveAtCursor<H(==)>(nodes: seq<H>, it: IterState<H>): (r: seq<H>)
    ensures !RemoveAllowed(nodes, it) ==> r == nodes
    ensures RemoveAllowed(nodes, it) ==> r == Without(nodes, it.cursor.value)
  {
    if RemoveAllowed(nodes, it) then Without(nodes, it.cursor.value) else nodes
  }

  /** Every step a `next()` yields names a node that is in the list at that moment. */
  lemma YieldsListNodes<H>(nodes: seq<H>, reverse: bool, it: IterState<H>)
    ensures Stepped(nodes, reverse, it).1.Yield? ==> Stepped(nodes, reverse, it).1.value in nodes
    ensures Stepped(nodes, reverse, it).1.Yield? ==> Stepped(nodes, reverse, it).0.cursor == Some(Stepped(nodes, reverse, it).1.value)
  {
  }

  /** Once done, `next()` keeps answering done and changes nothing, until `reset()`. */
  lemma DoneIsSticky<H>(nodes: seq<H>, reverse: bool, it: IterState<H>)
    requires it.done
    ensures Stepped(nodes, reverse, it) == (it, Done)
  {
  }

  /** The first `next()` reads the list as it is then, so nodes added after creation are seen. */
  lemma FirstNextSeesCurrentList<H>(nodes: seq<H>, reverse: bool)
    requires nodes != []
    ensures Stepped(nodes, reverse, Unstarted()).1 == Yield(if reverse then nodes[|nodes| - 1] else nodes[0])
  {
  }

  /** After `remove()`, the following `next()` reports done: the removed node has no links. */
  lemma {:induction false} NextAfterRemoveIsDone<H>(nodes: seq<H>, reverse: bool, it: IterState<H>)
    requires RemoveAllowed(nodes, it)
    ensures Stepped(RemoveAtCursor(nodes, it), reverse, it).1 == Done
    ensures Stepped(RemoveAtCursor(nodes, it), reverse, it).0.done
  {
    var rest := RemoveAtCursor(nodes, it);
    assert it.cursor.value !in rest;
    assert Advanced(rest, reverse, it).cursor == None;
  }

  /** `n` steps of `next()`, collecting what they return. */
  function Run<H(==)>(nodes: seq<H>, reverse: bool, it: IterState<H>, n: nat): (r: (IterState<H>, seq<Step<H>>))
    ensures |r.1| == n
    decreases n
  {
    if n == 0 then (it, [])
    else
      var (it', step) := Stepped(nodes, reverse, it);
      var (last, steps) := Run(nodes, reverse, it', n - 1);
      (last, [step] + steps)
  }

  /** From the cursor on position `k`, the remaining forward steps yield the rest of the list, then done. */
  lemma {:induction false} RunFrom<H>(nodes: seq<H>, k: nat)
    requires NoDups(nodes) && k < |nodes|
    ensures Run(nodes, false, IterState(true, Some(nodes[k]), false), |nodes| - k).1
            == seq(|nodes| - k - 1, i requires 0 <= i < |nodes| - k - 1 => Yield(nodes[k + 1 + i])) + [Done]
    decreases |nodes| - k
  {
    var it := IterState(true, Some(nodes[k]), false);
    assert IndexOf(nodes, nodes[k]) == k;
    if k == |nodes| - 1 {
      assert Stepped(nodes, false, it).1 == Done;
    } else {
      assert Stepped(nodes, false, it) == (IterState(true, Some(nodes[k + 1]), false), Yield(nodes[k + 1]));
      RunFrom(nodes, k + 1);
    }
  }

  /** A fresh forward iterator yields the elements head to tail, then reports done. */
  lemma {:induction false} FreshIteratorYieldsInOrder<H>(nodes: seq<H>)
    requires NoDups(nodes)
    ensures Run(nodes, false, Unstarted(), |nodes| + 1).1
            == seq(|nodes|, i requires 0 <= i < |nodes| => Yield(nodes[i])) + [Done]
  {
    if nodes == [] {
      assert Stepped(nodes, false, Unstarted()).1 == Done;
    } else {
      assert Stepped(nodes, false, Unstarted()) == (IterState(true, Some(nodes[0]), false), Yield(nodes[0]));
      RunFrom(nodes, 0);
    }
  }

  /** A node of the list is never reported detached: it is linked to a neighbour or is the head. */
  lemma MembersNotDetached<T>(l: DoublyLinkedList<T>)
    requires l.Valid()
    ensures forall n :: n in l.Nodes ==> !(n.prev == null && n.next == null && l.tail != n && l.head != n)
  {
    forall n | n in l.Nodes
      ensures !(n.prev == null && n.next == null && l.tail != n && l.head != n)
    {
      var k := IndexOf(l.Nodes, n);
      assert Linked(l.Nodes, k);
    }
  }

  class DoublyLinkedListIterator<T> {
    const list: DoublyLinkedList<T>
    const reverse: bool
    var started: bool
    var cursor: Node?<T>
    var done: bool

    /**
     * The list is well formed, and a cursor node that has left the list has
     * null links (the list's `remove` nulls them, and nothing relinks it).
     */
    ghost predicate Valid()
      reads this, list, list.Nodes, cursor
    {
      && list.Valid()
      && (cursor != null && cursor !in list.Nodes ==> cursor.prev == null && cursor.next == null)
    }

    ghost function State(): IterState<Node<T>>
      reads this
    {
      IterState(started, if cursor == null then None else Some(cursor as Node<T>), done)
    }

    constructor (list: DoublyLinkedList<T>, reverse: bool)
      requires list.Valid()
      ensures Valid() && State() == Unstarted()
      ensures this.list == list && this.reverse == reverse
    {
      this.list := list;
      this.reverse := reverse;
      started := false;
      cursor := null;
      done := false;
    }

    /** `_isCursorDetached`, read off the links and the list ends. */
    function IsCursorDetached(): (r: bool)
      requires Valid()
      reads this, list, list.Nodes, cursor
      ensures r == Detached(list.Nodes, State().cursor)
    {
      MembersNotDetached(list);
      cursor != null && cursor.prev == null && cursor.next == null && list.tail != cursor && list.head != cursor
    }

    method AdvanceCursor()
      requires Valid()
      modifies this
      ensures Valid()
      ensures State() == Advanced(list.Nodes, reverse, old(State()))
    {
      if !started {
        started := true;
        cursor := if reverse then list.tail else list.head;
        return;
      }
      if cursor != null {
        ghost var N := list.Nodes;
        if cursor in N {
          ghost var k := IndexOf(N, cursor);
          assert Linked(N, k);
        }
        cursor := if reverse then cursor.prev else cursor.next;
        if cursor != null {
          assert cursor in N;
        }
      }
    }

    method Reset()
      requires Valid()
      modifies this
      ensures Valid() && State() == Unstarted()
    {
      done := false;
      started := false;
      cursor := null;
    }

    method Next() returns (r: Step<Node<T>>)
      requires Valid()
      modifies this
      ensures Valid()
      ensures (State(), r) == Stepped(list.Nodes, reverse, old(State()))
    {
      if done {
        return Done;
      }
      AdvanceCursor();
      if cursor == null || IsCursorDetached() {
        done := true;
        return Done;
      }
      return Yield(cursor);
    }

    /**
     * `remove()`: its result is `Some(false)` for the `false` it returns when
     * it refuses and `None` for the `undefined` it returns otherwise.
     */
    method Remove() returns (r: Option<bool>)
      requires Valid()
      modifies list, list.Nodes
      ensures Valid() && State() == old(State())
      ensures list.Nodes == RemoveAtCursor(old(list.Nodes), State())
      ensures r == Some(false) <==> RemoveRefused(old(list.Nodes), State())
      ensures r.Some? ==> r == Some(false)
    {
      if !started || done || IsCursorDetached() {
        return Some(false);
      }
      ghost var N, it := list.Nodes, State();
      assert !RemoveRefused(N, it);
      if cursor != null {
        var c: Node<T> := cursor;
        assert c in N && RemoveAllowed(N, it);
        WithoutAt(N, c);
        list.Remove(c);
        assert list.Nodes == Without(N, c);
      }
      assert State() == it;
      return None;
    }
  }
}
