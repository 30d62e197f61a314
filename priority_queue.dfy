/**
 * The priority queue of lib/priority_queue.ts: one wait queue per priority
 * slot, slot 0 served first. The slots' contents are stated as a sequence of
 * sequences with one function per operation, and the whole queue is shown
 * to behave, towards `dequeue`, like a single first-in first-out deque over
 * the slots laid end to end (`Flatten`). The class keeps real `Queue`
 * objects and runs the source's index loops over them.
 */
module PriorityQueues {
  import opened Common
  import opened Deques
  import opened ResourceRequests
  import opened Queues
  import opened DoublyLinkedLists

  /** The number of slots a queue built with `size` gets: at least one. */
  function SlotCount(size: int): (n: int)
    ensures n >= 1
    ensures size >= 1 ==> n == size
    ensures size < 1 ==> n == 1
  {
    if size < 1 then 1 else size
  }

  /**
   * The slot `enqueue` uses. An absent or zero priority means slot 0; a
   * negative one, or one past the last slot, means the last slot.
   */
  function Normalize(priority: Option<int>, size: int): (k: int)
    requires size >= 1
    ensures 0 <= k < size
    ensures priority.None? || priority == Some(0) ==> k == 0
    ensures priority.Some? && 0 <= priority.value < size ==> k == priority.value
    ensures priority.Some? && (priority.value < 0 || priority.value >= size) ==> k == size - 1
  {
    match priority
    case None => 0
    case Some(p) =>
      if p == 0 then 0
      else if p < 0 || p >= size then size - 1
      else p
  }

  /** The requests in the order `dequeue` would hand them out: slot by slot. */
  function Flatten<R>(slots: seq<seq<R>>): seq<R> {
    if |slots| == 0 then [] else slots[0] + Flatten(slots[1..])
  }

  /** What the `length` getter sums, slot by slot from the first. */
  function SumLengths<R>(slots: seq<seq<R>>): int {
    if |slots| == 0 then 0 else SumLengths(slots[..|slots| - 1]) + |slots[|slots| - 1]|
  }

  /** The lowest slot at or after `from` with something in it. */
  function FirstNonEmptyFrom<R>(slots: seq<seq<R>>, from: nat): (r: Option<nat>)
    requires from <= |slots|
    ensures r.None? ==> forall j :: from <= j < |slots| ==> slots[j] == []
    ensures r.Some? ==> from <= r.value < |slots| && slots[r.value] != []
                        && forall j :: from <= j < r.value ==> slots[j] == []
    decreases |slots| - from
  {
    if from == |slots| then None
    else if slots[from] != [] then Some(from)
    else FirstNonEmptyFrom(slots, from + 1)
  }

  /** The highest slot below `upto` with something in it. */
  function LastNonEmptyBelow<R>(slots: seq<seq<R>>, upto: nat): (r: Option<nat>)
    requires upto <= |slots|
    ensures r.None? ==> forall j :: 0 <= j < upto ==> slots[j] == []
    ensures r.Some? ==> r.value < upto && slots[r.value] != []
                        && forall j :: r.value < j < upto ==> slots[j] == []
  {
    if upto == 0 then None
    else if slots[upto - 1] != [] then Some(upto - 1)
    else LastNonEmptyBelow(slots, upto - 1)
  }

  function Enqueued<R>(slots: seq<seq<R>>, obj: R, priority: Option<int>): seq<seq<R>>
    requires |slots| >= 1
  {
    var k := Normalize(priority, |slots|);
    slots[k := Pushed(slots[k], obj)]
  }

  function Dequeued<R>(slots: seq<seq<R>>): (Option<R>, seq<seq<R>>) {
    match FirstNonEmptyFrom(slots, 0)
    case None => (None, slots)
    case Some(i) => (Some(slots[i][0]), slots[i := slots[i][1..]])
  }

  /** The `head` getter. */
  function HeadOf<R>(slots: seq<seq<R>>): Option<R> {
    match FirstNonEmptyFrom(slots, 0)
    case None => None
    case Some(i) => Front(slots[i])
  }

  /** The `tail` getter. */
  function TailOf<R>(slots: seq<seq<R>>): Option<R> {
    match LastNonEmptyBelow(slots, |slots|)
    case None => None
    case Some(i) => Back(slots[i])
  }

  lemma {:induction false} FlattenAppend<R>(a: seq<seq<R>>, b: seq<seq<R>>)
    ensures Flatten(a + b) == Flatten(a) + Flatten(b)
  {
    if |a| == 0 {
      assert a + b == b;
    } else {
      assert (a + b)[0] == a[0] && (a + b)[1..] == a[1..] + b;
      FlattenAppend(a[1..], b);
    }
  }

  lemma {:induction false} SumLengthsIsSize<R>(slots: seq<seq<R>>)
    ensures SumLengths(slots) == |Flatten(slots)|
  {
    if |slots| > 0 {
      var init := slots[..|slots| - 1];
      SumLengthsIsSize(init);
      assert slots == init + [slots[|slots| - 1]];
      FlattenAppend(init, [slots[|slots| - 1]]);
      assert Flatten([slots[|slots| - 1]]) == slots[|slots| - 1] + Flatten([]);
    }
  }

  /** Slots that are all empty contribute nothing. */
  lemma {:induction false} FlattenEmpty<R>(slots: seq<seq<R>>)
    requires forall j :: 0 <= j < |slots| ==> slots[j] == []
    ensures Flatten(slots) == []
  {
    if |slots| > 0 {
      FlattenEmpty(slots[1..]);
    }
  }

  lemma {:induction false} FlattenAround<R>(slots: seq<seq<R>>, i: nat)
    requires i < |slots|
    ensures Flatten(slots) == Flatten(slots[..i]) + slots[i] + Flatten(slots[i + 1..])
  {
    if i == 0 {
      assert slots[..0] == [];
    } else {
      var tail := slots[1..];
      FlattenAround(tail, i - 1);
      assert tail[i - 1] == slots[i] && tail[i..] == slots[i + 1..];
      var pre := slots[..i];
      assert pre[0] == slots[0] && pre[1..] == tail[..i - 1];
      assert Flatten(pre) == slots[0] + Flatten(tail[..i - 1]);
    }
  }

  /** When every slot below `i` is empty, the flat order starts with slot `i`. */
  lemma FlattenFromFirst<R>(slots: seq<seq<R>>, i: nat)
    requires i < |slots|
    requires forall j :: 0 <= j < i ==> slots[j] == []
    ensures Flatten(slots) == slots[i] + Flatten(slots[i + 1..])
  {
    var below := slots[..i];
    assert forall j :: 0 <= j < |below| ==> below[j] == slots[j];
    FlattenEmpty(below);
    FlattenAround(slots, i);
    assert Flatten(below) + slots[i] == slots[i];
  }

  /**
   * Lower slots drain first and each slot is first in, first out: `dequeue`
   * takes the front of all the slots laid end to end and leaves the rest in
   * order.
   */
  lemma DequeueTakesFlatFront<R>(slots: seq<seq<R>>)
    ensures Dequeued(slots).0 == Shifted(Flatten(slots)).0
    ensures Flatten(Dequeued(slots).1) == Shifted(Flatten(slots)).1
  {
    var first := FirstNonEmptyFrom(slots, 0);
    if first.None? {
      FlattenEmpty(slots);
    } else {
      var i := first.value;
      var after := slots[i := slots[i][1..]];
      var rest := Flatten(slots[i + 1..]);
      FlattenFromFirst(slots, i);
      assert after[i + 1..] == slots[i + 1..];
      FlattenFromFirst(after, i);
      assert Flatten(after) == slots[i][1..] + rest;
      assert (slots[i] + rest)[1..] == slots[i][1..] + rest;
    }
  }

  /**
   * A request enqueued at a priority lands after everything waiting in that
   * slot and the slots before it, and before everything in the later slots.
   */
  lemma EnqueuePlacesAfterLowerSlots<R>(slots: seq<seq<R>>, obj: R, priority: Option<int>)
    requires |slots| >= 1
    ensures var k := Normalize(priority, |slots|);
            Flatten(Enqueued(slots, obj, priority)) == Flatten(slots[..k + 1]) + [obj] + Flatten(slots[k + 1..])
  {
    var k := Normalize(priority, |slots|);
    var after := Enqueued(slots, obj, priority);
    FlattenAround(slots, k);
    FlattenAround(after, k);
    assert after[..k] == slots[..k] && after[k + 1..] == slots[k + 1..];
    assert slots[..k + 1] == slots[..k] + [slots[k]];
    FlattenAppend(slots[..k], [slots[k]]);
    assert Flatten([slots[k]]) == slots[k] + Flatten([]);
  }

  /** `enqueue` and `dequeue` change one slot and leave every other slot as it was. */
  lemma OnlyOneSlotChanges<R>(slots: seq<seq<R>>, obj: R, priority: Option<int>)
    requires |slots| >= 1
    ensures var k := Normalize(priority, |slots|);
            var e := Enqueued(slots, obj, priority);
            |e| == |slots| && e[k] == Pushed(slots[k], obj) && forall j :: 0 <= j < |slots| && j != k ==> e[j] == slots[j]
    ensures var d := Dequeued(slots).1;
            |d| == |slots| && forall j, l :: 0 <= j < l < |slots| && d[j] != slots[j] ==> d[l] == slots[l]
  {
  }

  /** `head` and `tail` are the first and last request of all slots laid end to end. */
  lemma HeadTailAreFlatEnds<R>(slots: seq<seq<R>>)
    ensures HeadOf(slots) == Front(Flatten(slots))
    ensures TailOf(slots) == Back(Flatten(slots))
  {
    match FirstNonEmptyFrom(slots, 0)
    case None =>
      FlattenEmpty(slots);
    case Some(i) =>
      FlattenAround(slots, i);
      FlattenEmpty(slots[..i]);
    match LastNonEmptyBelow(slots, |slots|)
    case None =>
      FlattenEmpty(slots);
    case Some(i) =>
      FlattenAround(slots, i);
      FlattenEmpty(slots[i + 1..]);
  }

  /** The queues of two different slots share neither their list nor a node. */
  ghost predicate Apart<T>(a: Queue<T>, b: Queue<T>)
    reads a.deque.list, b.deque.list
  {
    && a.deque.list != b.deque.list
    && forall n :: n in a.deque.list.Nodes ==> n !in b.deque.list.Nodes
  }

  class PriorityQueue<T> {
    const size: int
    const slots: seq<Queue<T>>

    /** The lists behind the slots, which hold all the waiting requests. */
    ghost function Lists(): (r: set<object>)
      ensures forall i :: 0 <= i < |slots| ==> slots[i].deque.list in r
    {
      set i | 0 <= i < |slots| :: slots[i].deque.list
    }

    /** The nodes of all the slots' lists. */
    ghost function AllNodes(): (r: set<object>)
      reads Lists()
      ensures forall i, n :: 0 <= i < |slots| && n in slots[i].deque.list.Nodes ==> n in r
    {
      set i, n | 0 <= i < |slots| && n in slots[i].deque.list.Nodes :: n
    }

    ghost predicate Valid()
      reads Lists(), AllNodes()
    {
      && size == |slots| && size >= 1
      && (forall i :: 0 <= i < |slots| ==> slots[i].deque.list.Valid())
      && (forall i, j :: 0 <= i < |slots| && 0 <= j < |slots| && i != j ==> Apart(slots[i], slots[j]))
    }

    /** The waiting requests, slot by slot. */
    ghost function Contents(): (c: seq<seq<ResourceRequest<T>>>)
      reads Lists()
      ensures |c| == |slots|
      ensures forall i :: 0 <= i < |slots| ==> c[i] == slots[i].deque.list.Contents()
    {
      seq(|slots|, i requires 0 <= i < |slots| reads Lists() => slots[i].deque.list.Contents())
    }

    constructor (size: int)
      ensures Valid() && fresh(Lists())
      ensures this.size == SlotCount(size)
      ensures Contents() == seq(SlotCount(size), _ => [])
    {
      var n := SlotCount(size);
      var qs: seq<Queue<T>> := [];
      for i := 0 to n
        invariant |qs| == i
        invariant forall j :: 0 <= j < i ==> fresh(qs[j].deque.list)
        invariant forall j :: 0 <= j < i ==> qs[j].deque.list.Valid() && qs[j].deque.list.Nodes == []
        invariant forall j, l :: 0 <= j < i && 0 <= l < i && j != l ==> qs[j].deque.list != qs[l].deque.list
      {
        var q := new Queue();
        qs := qs + [q];
      }
      this.size := n;
      slots := qs;
      new;
      assert forall i :: 0 <= i < |slots| ==> slots[i].deque.list.Contents() == [];
    }

    /** The `length` getter: the slot lengths summed in a loop. */
    method Length() returns (n: int)
      requires Valid()
      ensures n == SumLengths(Contents()) && n == |Flatten(Contents())|
    {
      ghost var c := Contents();
      n := 0;
      for i := 0 to |slots|
        invariant n == SumLengths(c[..i])
      {
        var l := slots[i].deque.Length();
        assert c[..i + 1][..i] == c[..i];
        n := n + l;
      }
      assert c[..|slots|] == c;
      SumLengthsIsSize(c);
    }

    /**
     * After slot `k`'s list changed on its own, gaining at most fresh nodes,
     * the queue is still well formed and only slot `k`'s contents differ.
     */
    twostate lemma OnlySlotChanged(k: int)
      requires old(Valid()) && 0 <= k < |slots|
      requires slots[k].deque.list.Valid()
      requires forall i :: 0 <= i < |slots| && i != k ==> unchanged(slots[i].deque.list)
      requires forall i, n :: 0 <= i < |slots| && i != k && n in old(slots[i].deque.list.Nodes) ==> unchanged(n)
      requires forall n :: n in slots[k].deque.list.Nodes ==> n in old(slots[k].deque.list.Nodes) || !old(allocated(n))
      ensures Valid()
    {
      forall i | 0 <= i < |slots| && i != k
        ensures slots[i].deque.list.Valid()
      {
        ListKept(slots[i].deque.list);
      }
      forall i, j | 0 <= i < |slots| && 0 <= j < |slots| && i != j
        ensures Apart(slots[i], slots[j])
      {
        assert old(Apart(slots[i], slots[j]));
        assert old(Apart(slots[j], slots[i]));
      }
    }

    /** The same change, as seen in the contents: only slot `k` differs. */
    twostate lemma OnlySlotContentsChanged(k: int)
      requires old(Valid()) && 0 <= k < |slots|
      requires forall i :: 0 <= i < |slots| && i != k ==> unchanged(slots[i].deque.list)
      requires forall i, n :: 0 <= i < |slots| && i != k && n in old(slots[i].deque.list.Nodes) ==> unchanged(n)
      ensures Contents() == old(Contents())[k := slots[k].deque.list.Contents()]
    {
      forall i | 0 <= i < |slots| && i != k
        ensures slots[i].deque.list.Contents() == old(slots[i].deque.list.Contents())
      {
        ListKept(slots[i].deque.list);
      }
      ContentsAfter(k);
    }

    twostate lemma ContentsAfter(k: int)
      requires 0 <= k < |slots|
      requires forall i :: 0 <= i < |slots| && i != k ==> slots[i].deque.list.Contents() == old(slots[i].deque.list.Contents())
      ensures Contents() == old(Contents())[k := slots[k].deque.list.Contents()]
    {
      ghost var e := old(Contents())[k := slots[k].deque.list.Contents()];
      ghost var now := Contents();
      forall i | 0 <= i < |slots|
        ensures now[i] == e[i]
      {
      }
      assert now == e;
    }

    method Enqueue(obj: ResourceRequest<T>, priority: Option<int>)
      requires Valid()
      modifies Lists(), AllNodes()
      ensures Valid()
      ensures Contents() == Enqueued(old(Contents()), obj, priority)
    {
      var k := Normalize(priority, size);
      assert slots[k].Valid();
      var node := slots[k].Push(obj);
      forall i, n | 0 <= i < |slots| && i != k && n in old(slots[i].deque.list.Nodes)
        ensures unchanged(n)
      {
        assert old(Apart(slots[i], slots[k]));
      }
      OnlySlotChanged(k);
      OnlySlotContentsChanged(k);
    }

    /**
     * `dequeue`: the first slot with a request gives up its head. The
     * source shifts from inside its search loop and returns; here the loop
     * finds the slot and the shift follows it, which is the same sequence of
     * effects.
     */
    method Dequeue() returns (r: Option<ResourceRequest<T>>)
      requires Valid()
      modifies Lists(), AllNodes()
      ensures Valid()
      ensures (r, Contents()) == Dequeued(old(Contents()))
    {
      ghost var c := Contents();
      var i := 0;
      while i < |slots| && slots[i].deque.Length() == 0
        invariant 0 <= i <= |slots|
        invariant forall j :: 0 <= j < i ==> c[j] == []
      {
        i := i + 1;
      }
      if i == |slots| {
        return None;
      }
      assert FirstNonEmptyFrom(c, 0) == Some(i);
      var k := i;
      assert slots[k].deque.Valid();
      r := slots[k].deque.Shift();
      forall i, n | 0 <= i < |slots| && i != k && n in old(slots[i].deque.list.Nodes)
        ensures unchanged(n)
      {
        assert old(Apart(slots[i], slots[k]));
      }
      OnlySlotChanged(k);
      OnlySlotContentsChanged(k);
    }

    /** The `head` getter: the head of the first slot with a request. */
    method Head() returns (r: Option<ResourceRequest<T>>)
      requires Valid()
      ensures r == HeadOf(Contents())
    {
      ghost var c := Contents();
      for i := 0 to |slots|
        invariant forall j :: 0 <= j < i ==> c[j] == []
      {
        assert slots[i].deque.Valid();
        var len := slots[i].deque.Length();
        if len > 0 {
          assert FirstNonEmptyFrom(c, 0) == Some(i);
          r := slots[i].deque.Head();
          return;
        }
      }
      return None;
    }

    /** The `tail` getter: the tail of the last slot with a request. */
    method Tail() returns (r: Option<ResourceRequest<T>>)
      requires Valid()
      ensures r == TailOf(Contents())
    {
      ghost var c := Contents();
      var i := |slots| - 1;
      while i >= 0
        invariant -1 <= i < |slots|
        invariant forall j :: i < j < |slots| ==> c[j] == []
      {
        assert slots[i].deque.Valid();
        var len := slots[i].deque.Length();
        if len > 0 {
          assert LastNonEmptyBelow(c, |c|) == Some(i);
          r := slots[i].deque.Tail();
          return;
        }
        i := i - 1;
      }
      return None;
    }
  }
}
