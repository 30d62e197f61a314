/**
 * The per-priority wait queue of lib/queue.ts: a deque of resource requests
 * that also unlinks a request's node when that request is rejected with a
 * timeout. The source declares `Queue` as a subclass of `Deque`; here a
 * queue holds its deque, and the inherited `shift`, `head`, `tail` and
 * `length` are the deque's own members, reached through `deque`.
 *
 * Both methods of the source reach the list as `this._list`, while `Deque`
 * keeps it in the private field `#list`, which a subclass cannot read. The
 * model follows the evident intent: `Push` appends to the deque's list and
 * the handler unlinks from that same list.
 */
module Queues {
  import opened Seqs
  import opened Common
  import opened DoublyLinkedLists
  import opened ResourceRequests
  import opened Deques

  class Queue<T> {
    const deque: Deque<ResourceRequest<T>>

    ghost predicate Valid()
      reads this, deque, deque.list, deque.list.Nodes
    {
      deque.Valid()
    }

    /** The queued requests, first to last. */
    ghost function Contents(): seq<ResourceRequest<T>>
      reads this, deque, deque.list
    {
      deque.Contents()
    }

    constructor ()
      ensures Valid() && fresh(deque) && fresh(deque.list) && deque.list.Nodes == []
    {
      deque := new Deque();
    }

    /**
     * Appends the request at the tail. The node is returned because the
     * rejection handler the source registers on the request's promise
     * closes over it; whoever rejects the request passes it back to
     * `TimeoutRejectionHandler`.
     */
    method Push(resourceRequest: ResourceRequest<T>) returns (node: Node<ResourceRequest<T>>)
      requires Valid()
      modifies deque.list, deque.list.Nodes
      ensures Valid() && fresh(node) && node.data == resourceRequest
      ensures deque.list.Nodes == old(deque.list.Nodes) + [node]
      ensures Contents() == Pushed(old(Contents()), resourceRequest)
    {
      node := DoublyLinkedList.CreateNode(resourceRequest);
      deque.list.InsertEnd(node);
    }

    /**
     * The reaction to the request's rejection: only a reason named
     * "TimeoutError" unlinks the node. Such a rejection comes from the
     * request's own timer, which is armed only while the request waits in
     * this queue, so its node is still in the list; that is the
     * precondition here, since the list itself does not check membership.
     */
    method TimeoutRejectionHandler(node: Node<ResourceRequest<T>>, reason: Error)
      requires Valid()
      requires reason.Name() == "TimeoutError" ==> node in deque.list.Nodes
      modifies deque.list, deque.list.Nodes
      ensures Valid()
      ensures reason.Name() != "TimeoutError" ==> deque.list.Nodes == old(deque.list.Nodes)
      ensures reason.Name() == "TimeoutError" ==>
                var k := IndexOf(old(deque.list.Nodes), node);
                && deque.list.Nodes == old(deque.list.Nodes)[..k] + old(deque.list.Nodes)[k + 1..]
                && deque.list.Nodes == Without(old(deque.list.Nodes), node)
    {
      if reason.Name() == "TimeoutError" {
        WithoutAt(deque.list.Nodes, node);
        deque.list.Remove(node);
      }
    }
  }
}
