/**
 * The double ended queue of lib/deque.ts. Its contents are stated as a
 * sequence, with one function per operation; the class keeps its elements
 * in a doubly linked list and is proved to follow those functions.
 */
module Deques {
  import opened Common
  import opened Seqs
  import opened DoublyLinkedLists
  import opened ListIterators
  import opened DequeIterators

  /** `shift()`: the first element and what remains, or nothing from an empty deque. */
  function Shifted<T>(s: seq<T>): (Option<T>, seq<T>) {
    if |s| == 0 then (None, s) else (Some(s[0]), s[1..])
  }

  /** `pop()`: the last element and what remains, or nothing from an empty deque. */
  function Popped<T>(s: seq<T>): (Option<T>, seq<T>) {
    if |s| == 0 then (None, s) else (Some(s[|s| - 1]), s[..|s| - 1])
  }

  function Unshifted<T>(s: seq<T>, x: T): seq<T> {
    [x] + s
  }

  function Pushed<T>(s: seq<T>, x: T): seq<T> {
    s + [x]
  }

  /** The `head` getter. */
  function Front<T>(s: seq<T>): Option<T> {
    if |s| == 0 then None else Some(s[0])
  }

  /** The `tail` getter. */
  function Back<T>(s: seq<T>): Option<T> {
    if |s| == 0 then None else Some(s[|s| - 1])
  }

  lemma PushThenPop<T>(s: seq<T>, x: T)
    ensures Popped(Pushed(s, x)) == (Some(x), s)
  {
    assert (s + [x])[..|s|] == s;
  }

  lemma UnshiftThenShift<T>(s: seq<T>, x: T)
    ensures Shifted(Unshifted(s, x)) == (Some(x), s)
  {
    assert ([x] + s)[1..] == s;
  }

  /** `head` and `tail` name what `shift` and `pop` would remove. */
  lemma HeadTailAgreeWithRemoval<T>(s: seq<T>)
    ensures Front(s) == Shifted(s).0 && Back(s) == Popped(s).0
    ensures |s| > 0 ==> Unshifted(Shifted(s).1, s[0]) == s && Pushed(Popped(s).1, s[|s| - 1]) == s
  {
  }

  /** Pushing at the tail does not change who is shifted next from a non-empty deque. */
  lemma PushKeepsFront<T>(s: seq<T>, x: T)
    requires |s| > 0
    ensures Shifted(Pushed(s, x)) == (Some(s[0]), Pushed(s[1..], x))
  {
    assert (s + [x])[1..] == s[1..] + [x];
  }

  /** Elements pushed one after another, in turn. */
  function PushAll<T>(s: seq<T>, xs: seq<T>): (r: seq<T>)
    decreases |xs|
  {
    if |xs| == 0 then s else PushAll(Pushed(s, xs[0]), xs[1..])
  }

  /** Shifting `n` times: the elements obtained and the deque left behind. */
  function ShiftN<T>(s: seq<T>, n: nat): (r: (seq<Option<T>>, seq<T>))
    ensures |r.0| == n
  {
    if n == 0 then ([], s)
    else
      var (x, rest) := Shifted(s);
      var (xs, last) := ShiftN(rest, n - 1);
      ([x] + xs, last)
  }

  lemma {:induction false} PushAllAppends<T>(s: seq<T>, xs: seq<T>)
    ensures PushAll(s, xs) == s + xs
    decreases |xs|
  {
    if |xs| > 0 {
      PushAllAppends(Pushed(s, xs[0]), xs[1..]);
      assert (s + [xs[0]]) + xs[1..] == s + xs;
    }
  }

  /** Each element as a present `shift` result. */
  function Wrapped<T>(xs: seq<T>): (r: seq<Option<T>>)
    ensures |r| == |xs|
    ensures forall i :: 0 <= i < |xs| ==> r[i] == Some(xs[i])
  {
    if xs == [] then [] else [Some(xs[0])] + Wrapped(xs[1..])
  }

  lemma {:induction false} ShiftNTakesFront<T>(s: seq<T>, n: nat)
    requires n <= |s|
    ensures ShiftN(s, n) == (Wrapped(s[..n]), s[n..])
  {
    if n > 0 {
      assert Shifted(s) == (Some(s[0]), s[1..]);
      ShiftNTakesFront(s[1..], n - 1);
      assert s[1..][..n - 1] == s[..n][1..];
      assert s[1..][n - 1..] == s[n..];
    }
  }

  /** A deque used by `push` and `shift` alone is first in, first out. */
  lemma FifoOrder<T>(xs: seq<T>)
    ensures ShiftN(PushAll([], xs), |xs|) == (Wrapped(xs), [])
  {
    PushAllAppends([], xs);
    assert PushAll([], xs) == xs by {
      assert [] + xs == xs;
    }
    ShiftNTakesFront(xs, |xs|);
    assert xs[..|xs|] == xs && xs[|xs|..] == [];
  }

  class Deque<T> {
    const list: DoublyLinkedList<T>

    ghost predicate Valid()
      reads this, list, list.Nodes
    {
      list.Valid()
    }

    /** The elements, head to tail. */
    ghost function Contents(): seq<T>
      reads this, list
    {
      list.Contents()
    }

    constructor ()
      ensures Valid() && fresh(list) && list.Nodes == []
    {
      list := new DoublyLinkedList();
    }

    function Length(): (n: int)
      requires Valid()
      reads this, list, list.Nodes
      ensures n == |Contents()|
    {
      list.length
    }

    /**
     * The source checks `length === 0` first and then `head === null`; with a
     * well-formed list the second check can never succeed, so only the first
     * is modelled.
     */
    method Shift() returns (r: Option<T>)
      requires Valid()
      modifies list, list.Nodes
      ensures Valid()
      ensures (r, Contents()) == Shifted(old(Contents()))
      ensures old(list.Nodes) == [] ==> list.Nodes == []
      ensures old(list.Nodes) != [] ==> list.Nodes == old(list.Nodes)[1..]
    {
      if list.length == 0 {
        return None;
      }
      var node := list.head;
      ghost var N := list.Nodes;
      assert IndexOf(N, node) == 0;
      list.Remove(node);
      assert list.Nodes == N[1..];
      r := Some(node.data);
    }

    method Pop() returns (r: Option<T>)
      requires Valid()
      modifies list, list.Nodes
      ensures Valid()
      ensures (r, Contents()) == Popped(old(Contents()))
      ensures old(list.Nodes) == [] ==> list.Nodes == []
      ensures old(list.Nodes) != [] ==> list.Nodes == old(list.Nodes)[..|old(list.Nodes)| - 1]
    {
      if list.length == 0 {
        return None;
      }
      var node := list.tail;
      ghost var N := list.Nodes;
      assert IndexOf(N, node) == |N| - 1;
      list.Remove(node);
      assert list.Nodes == N[..|N| - 1];
      assert Contents() == DataOf(N)[..|N| - 1];
      r := Some(node.data);
    }

    method Unshift(element: T)
      requires Valid()
      modifies list, list.Nodes
      ensures Valid()
      ensures Contents() == Unshifted(old(Contents()), element)
      ensures |list.Nodes| == |old(list.Nodes)| + 1 && fresh(list.Nodes[0]) && list.Nodes[1..] == old(list.Nodes)
    {
      var node := DoublyLinkedList.CreateNode(element);
      list.InsertBeginning(node);
    }

    method Push(element: T)
      requires Valid()
      modifies list, list.Nodes
      ensures Valid()
      ensures Contents() == Pushed(old(Contents()), element)
      ensures |list.Nodes| == |old(list.Nodes)| + 1 && fresh(list.Nodes[|old(list.Nodes)|])
      ensures list.Nodes[..|old(list.Nodes)|] == old(list.Nodes)
    {
      var node := DoublyLinkedList.CreateNode(element);
      list.InsertEnd(node);
      assert list.Nodes[..|old(list.Nodes)|] == old(list.Nodes);
    }

    /** The `head` getter; the unreachable `node === null` check is omitted as in `Shift`. */
    function Head(): (r: Option<T>)
      requires Valid()
      reads this, list, list.Nodes
      ensures r == Front(Contents())
    {
      if list.length == 0 then None else Some(list.head.data)
    }

    function Tail(): (r: Option<T>)
      requires Valid()
      reads this, list, list.Nodes
      ensures r == Back(Contents())
    {
      if list.length == 0 then None else Some(list.tail.data)
    }

    /** `iterator()` and `[Symbol.iterator]()`: a fresh forward iterator over the live list. */
    method Iterator() returns (it: DequeIterator<T>)
      requires Valid()
      ensures fresh(it) && fresh(it.inner) && it.Valid()
      ensures it.inner.list == list && !it.inner.reverse && it.inner.State() == Unstarted()
    {
      it := new DequeIterator(list, false);
    }

    method ReverseIterator() returns (it: DequeIterator<T>)
      requires Valid()
      ensures fresh(it) && fresh(it.inner) && it.Valid()
      ensures it.inner.list == list && it.inner.reverse && it.inner.State() == Unstarted()
    {
      it := new DequeIterator(list, true);
    }
  }
}
