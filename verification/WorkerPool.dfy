/**
 * The pool's client list on the heap: a doubly linked list of per-client queues
 * with head, tail and the rotating next_client pointer. Every method refines
 * its Schedule function.
 */
module WorkerPool {
  import opened Sequences
  import opened Schedule
  import opened ReplyRing

  class RequestNode {
    const request: Request
    /** The queue the node was made for; no two queues share a node. */
    ghost const owner: ClientQueue
    var next: RequestNode?

    constructor (request: Request, ghost owner: ClientQueue)
      ensures this.request == request && this.owner == owner && next == null
    {
      this.request, this.owner := request, owner;
      next := null;
    }
  }

  function NodeAt(nodes: seq<RequestNode>, i: int): RequestNode? {
    if 0 <= i < |nodes| then nodes[i] else null
  }

  class ClientQueue {
    const client: ClientState
    var head: RequestNode?
    var tail: RequestNode?
    var queuedCount: nat
    var active: bool
    var prev: ClientQueue?
    var next: ClientQueue?
    /** The nodes from head to tail and the requests in them. */
    ghost var nodes: seq<RequestNode>
    ghost var requests: seq<Request>

    constructor (client: ClientState)
      ensures this.client == client && Holds(Queue(client, [])) && Chained() && prev == next == null
    {
      this.client := client;
      head, tail, queuedCount, active := null, null, 0, true;
      prev, next := null, null;
      nodes, requests := [], [];
    }

    ghost predicate Holds(v: Queue<ClientState>)
      reads this`requests, this`queuedCount, this`active
    {
      active && queuedCount == |requests| && v == Queue(client, requests)
    }

    /** head, the next pointers and tail run along this queue's own nodes, which hold its requests. */
    ghost predicate Chained()
      reads this`head, this`tail, this`nodes, this`requests, nodes`next
    {
      && |nodes| == |requests|
      && head == NodeAt(nodes, 0) && tail == NodeAt(nodes, |nodes| - 1)
      && (forall i {:trigger nodes[i].next} :: 0 <= i < |nodes| ==> nodes[i].next == NodeAt(nodes, i + 1))
      && (forall i {:trigger nodes[i].owner} :: 0 <= i < |nodes| ==> nodes[i].owner == this)
      && (forall i {:trigger nodes[i].request} :: 0 <= i < |nodes| ==> nodes[i].request == requests[i])
      && (forall i, j :: 0 <= i < j < |nodes| ==> nodes[i] != nodes[j])
    }

    /** Hang a request on the tail. */
    method Append(request: Request)
      requires Chained()
      modifies this`head, this`tail, this`nodes, this`requests, this`queuedCount, nodes`next
      ensures Chained() && requests == old(requests) + [request] && queuedCount == old(queuedCount) + 1
    {
      var node := new RequestNode(request, this);
      if tail != null {
        tail.next := node;
      } else {
        head := node;
      }
      tail := node;
      queuedCount := queuedCount + 1;
      nodes, requests := nodes + [node], requests + [request];
    }

    /** Take the request at the head. */
    method PopHead() returns (request: Request)
      requires Chained() && requests != [] && queuedCount > 0
      modifies this`head, this`tail, this`nodes, this`requests, this`queuedCount
      ensures Chained() && [request] + requests == old(requests) && queuedCount == old(queuedCount) - 1
    {
      var node := head;
      request := node.request;
      head := node.next;
      if head == null {
        tail := null;
      }
      queuedCount := queuedCount - 1;
      nodes, requests := nodes[1..], requests[1..];
    }
  }

  /** Position j of a list in the list before its i-th element was taken out. */
  function Skip(i: nat, j: nat): nat {
    if j < i then j else j + 1
  }

  function QueueAt(order: seq<ClientQueue>, i: int): ClientQueue? {
    if 0 <= i < |order| then order[i] else null
  }

  function Without(s: seq<ClientQueue>, i: nat): seq<ClientQueue>
    requires i < |s|
  {
    s[..i] + s[i + 1..]
  }

  ghost predicate Distinct(order: seq<ClientQueue>) {
    forall i, j :: 0 <= i < j < |order| ==> order[i] != order[j]
  }

  lemma DistinctWithout(was: seq<ClientQueue>, i: nat)
    requires Distinct(was) && i < |was|
    ensures Distinct(Without(was, i))
  {
    var rest := Without(was, i);
    assert forall j :: 0 <= j < |rest| ==> rest[j] == was[Skip(i, j)];
  }

  /** Who is next to whom once the i-th element is taken out. */
  lemma SkipNeighbours(was: seq<ClientQueue>, i: nat, j: nat)
    requires i < |was| && j < |was| - 1
    ensures var rest := Without(was, i);
            && rest[j] == was[Skip(i, j)]
            && QueueAt(rest, j + 1) == QueueAt(was, if j + 1 == i then i + 1 else Skip(i, j) + 1)
            && QueueAt(rest, j - 1) == QueueAt(was, if j == i then i - 1 else Skip(i, j) - 1)
  {
  }

  ghost function NodesOf(order: seq<ClientQueue>): (r: set<RequestNode>)
    reads order`nodes
    ensures forall q, n :: q in order && n in q.nodes ==> n in r
  {
    set q, n | q in order && n in q.nodes :: n
  }

  class Pool {
    var clientsHead: ClientQueue?
    var clientsTail: ClientQueue?
    var nextClient: ClientQueue?
    var pendingRequests: nat
    var shuttingDown: bool
    /** The linked queues in list order, next_client's place among them, and their contents. */
    ghost var order: seq<ClientQueue>
    ghost var at: nat
    ghost var queues: seq<Queue<ClientState>>

    constructor ()
      ensures Valid() && View() == Sched([], 0, 0) && !shuttingDown
    {
      clientsHead, clientsTail, nextClient := null, null, null;
      pendingRequests, shuttingDown := 0, false;
      order, at, queues := [], 0, [];
    }

    /** head and the next pointers run along s. */
    ghost predicate Nexts(s: seq<ClientQueue>)
      reads this`clientsHead, s`next
    {
      clientsHead == QueueAt(s, 0) && forall i {:trigger s[i].next} :: 0 <= i < |s| ==> s[i].next == QueueAt(s, i + 1)
    }

    /** tail and the prev pointers run back along s. */
    ghost predicate Prevs(s: seq<ClientQueue>)
      reads this`clientsTail, s`prev
    {
      clientsTail == QueueAt(s, |s| - 1) && forall i {:trigger s[i].prev} :: 0 <= i < |s| ==> s[i].prev == QueueAt(s, i - 1)
    }

    /** next_client is null for an empty list, else the member at position `at`. */
    ghost predicate Pointed()
      reads this`nextClient, this`order, this`at
    {
      if order == [] then nextClient == null && at == 0 else at < |order| && nextClient == order[at]
    }

    ghost predicate Linked()
      reads this`clientsHead, this`clientsTail, this`nextClient, this`order, this`at, order`prev, order`next
    {
      Nexts(order) && Prevs(order) && Pointed() && Distinct(order)
    }

    /** Every queue holds what `queues` says. */
    ghost predicate Filled()
      reads this`order, this`queues, order`requests, order`queuedCount, order`active
    {
      && |queues| == |order|
      && (forall i :: 0 <= i < |order| ==> order[i].Holds(queues[i]))
    }

    /** Every queue's requests hang on its own chain of nodes. */
    ghost predicate Stored()
      reads this`order, order`head, order`tail, order`nodes, order`requests, NodesOf(order)`next
    {
      forall q :: q in order ==> q.Chained()
    }

    ghost function View(): Sched<ClientState>
      reads this
    {
      Sched(queues, at, pendingRequests)
    }

    ghost predicate Valid()
      reads this, order, NodesOf(order)
    {
      Linked() && Filled() && Stored() && Inv(View())
    }

    /** The linked list and its rotating pointer, as the doubly linked list promises them. */
    lemma NextClientIsMember()
      requires Valid()
      ensures nextClient == null <==> order == []
      ensures nextClient != null ==> nextClient in order
      ensures forall q :: q in order && q.next != null ==> q.next in order && q.next.prev == q
      ensures forall q :: q in order && q.prev != null ==> q.prev in order && q.prev.next == q
    {
      forall q | q in order && q.next != null ensures q.next in order && q.next.prev == q {
        var i :| 0 <= i < |order| && order[i] == q;
        assert q.next == order[i + 1];
      }
      forall q | q in order && q.prev != null ensures q.prev in order && q.prev.next == q {
        var i :| 0 <= i < |order| && order[i] == q;
        assert q.prev == order[i - 1];
      }
    }

    method FindClientQueue(client: ClientState) returns (queue: ClientQueue?)
      requires Valid()
      ensures Valid() && (queue == null <==> !Registered(View(), client))
      ensures queue != null ==>
                var i := Position(queues, client);
                i < |order| && queue == order[i] && queue.client == client && queue.Holds(queues[i])
    {
      queue := clientsHead;
      ghost var i := 0;
      while queue != null
        invariant 0 <= i <= |order|
        invariant queue == QueueAt(order, i)
        invariant forall j :: 0 <= j < i ==> queues[j].client != client
        decreases |order| - i
      {
        assert order[i].Holds(queues[i]);
        if queue.client == client {
          PositionIs(queues, client, i);
          return;
        }
        queue := queue.next;
        i := i + 1;
      }
      PositionAbsent(queues, client);
    }

    /** Hang a new queue on the tail of the list. */
    method LinkLast(queue: ClientQueue)
      requires Linked() && queue !in order && queue.prev == queue.next == null
      modifies this`clientsHead, this`clientsTail, this`nextClient, this`order, queue`prev, order`next
      ensures Linked() && order == old(order) + [queue]
    {
      queue.prev := clientsTail;
      if clientsTail != null {
        clientsTail.next := queue;
      } else {
        clientsHead := queue;
      }
      clientsTail := queue;
      if nextClient == null {
        nextClient := queue;
      }
      order := order + [queue];
    }

    method AddQueue(queue: ClientQueue)
      requires Linked() && Filled() && Stored() && queue !in order && queue.prev == queue.next == null
      requires queue.Holds(Queue(queue.client, [])) && queue.Chained()
      modifies this`clientsHead, this`clientsTail, this`nextClient, this`order, this`queues, queue`prev, order`next
      ensures Linked() && Filled() && Stored()
      ensures queues == old(queues) + [Queue(queue.client, [])] && order == old(order) + [queue]
    {
      hide Nexts, Prevs, Distinct;
      LinkLast(queue);
      queues := queues + [Queue(queue.client, [])];
    }

    /** threadpool_register_client; the result is false for a client already registered. */
    method Register(client: ClientState) returns (ok: bool)
      requires Valid()
      modifies this`clientsHead, this`clientsTail, this`nextClient, this`order, this`queues, order`next
      ensures Valid()
      ensures ok <==> !old(Registered(View(), client))
      ensures View() == Schedule.Register(old(View()), client)
    {
      hide Linked, Filled, Inv, Position;
      var found := FindClientQueue(client);
      if found != null {
        return false;
      }
      RegisterInv(View(), client);
      var queue := new ClientQueue(client);
      AddQueue(queue);
      return true;
    }

    /** No other queue has a node of the i-th. */
    lemma OwnNodes(i: nat)
      requires Stored() && Distinct(order) && i < |order|
      ensures forall q, n :: q in order && q != order[i] && n in q.nodes ==> n !in order[i].nodes
    {
      forall q, n | q in order && q != order[i] && n in q.nodes ensures n !in order[i].nodes {
        assert q.Chained() && order[i].Chained();
        assert n.owner == q;
      }
    }

    method Push(queue: ClientQueue, request: Request, ghost i: nat)
      requires Linked() && Filled() && Stored() && i < |order| && queue == order[i]
      modifies this`pendingRequests, this`queues
      modifies queue`head, queue`tail, queue`nodes, queue`requests, queue`queuedCount, queue.nodes`next
      ensures Filled() && Stored() && pendingRequests == old(pendingRequests) + 1
      ensures queues == old(queues)[i := Queue(queue.client, old(queues[i].items) + [request])]
    {
      hide Nexts, Prevs;
      assert queue.Holds(queues[i]);
      OwnNodes(i);
      queue.Append(request);
      forall q | q in order ensures q.Chained() {
        if q != queue {
          assert old(q.Chained());
          assert forall k {:trigger q.nodes[k]} :: 0 <= k < |q.nodes| ==> q.nodes[k] !in old(queue.nodes);
          assert forall k {:trigger q.nodes[k].next} :: 0 <= k < |q.nodes| ==> q.nodes[k].next == old(q.nodes[k].next);
        }
      }
      pendingRequests := pendingRequests + 1;
      queues := queues[i := Queue(queue.client, queue.requests)];
    }

    /** threadpool_submit under the lock: number the request, append it to its client's queue. */
    method Submit(client: ClientState, line: string) returns (ok: bool)
      requires Valid()
      modifies this`pendingRequests, this`queues, client`requestsReceived
      modifies order`head, order`tail, order`nodes, order`requests, order`queuedCount, NodesOf(order)`next
      ensures Valid()
      ensures ok <==> !shuttingDown && old(Registered(View(), client)) && !client.disconnected
      ensures client.requestsReceived == old(client.requestsReceived) + if ok then 1 else 0
      ensures View() == if ok then Enqueue(old(View()), client, Request(old(client.requestsReceived), line)) else old(View())
    {
      hide Linked, Filled, Stored, Inv, Position;
      if shuttingDown {
        return false;
      }
      var queue := FindClientQueue(client);
      ghost var i := Position(queues, client);
      if queue == null || !queue.active || client.disconnected {
        return false;
      }
      var request := Request(client.requestsReceived, line);
      EnqueueInv(View(), client, request);
      client.requestsReceived := client.requestsReceived + 1;
      assert queue in order && forall n :: n in queue.nodes ==> n in NodesOf(order);
      Push(queue, request, i);
      return true;
    }

    /** Make the predecessor of the i-th queue, or head, point past it. */
    method BypassNext(queue: ClientQueue, ghost i: nat)
      requires Nexts(order) && Prevs(order) && Distinct(order) && i < |order| && queue == order[i]
      modifies this`clientsHead, order`next
      ensures Nexts(Without(order, i)) && clientsHead == QueueAt(Without(order, i), 0)
      ensures queue.next == QueueAt(order, i + 1)
    {
      if queue.prev != null {
        queue.prev.next := queue.next;
      } else {
        clientsHead := queue.next;
      }
      forall j | 0 <= j < |order| - 1 ensures Without(order, i)[j].next == QueueAt(Without(order, i), j + 1) {
        SkipNeighbours(order, i, j);
      }
    }

    /** Make the successor of the i-th queue, or tail, point back past it. */
    method BypassPrev(queue: ClientQueue, ghost i: nat)
      requires Prevs(order) && Distinct(order) && i < |order| && queue == order[i] && queue.next == QueueAt(order, i + 1)
      modifies this`clientsTail, order`prev
      ensures Prevs(Without(order, i))
    {
      if queue.next != null {
        queue.next.prev := queue.prev;
      } else {
        clientsTail := queue.prev;
      }
      forall j | 0 <= j < |order| - 1 ensures Without(order, i)[j].prev == QueueAt(Without(order, i), j - 1) {
        SkipNeighbours(order, i, j);
      }
    }

    /** If next_client was the i-th queue of the former list, move it to the successor or the head. */
    method MovePast(queue: ClientQueue, ghost was: seq<ClientQueue>, ghost i: nat)
      requires Distinct(was) && i < |was| && queue == was[i] && order == Without(was, i)
      requires at < |was| && nextClient == was[at]
      requires queue.next == QueueAt(was, i + 1) && clientsHead == QueueAt(order, 0)
      modifies this`nextClient, this`at
      ensures Pointed()
      ensures at == if old(at) > i then old(at) - 1 else if old(at) == i && i == |order| then 0 else old(at)
    {
      assert nextClient == queue <==> at == i;
      if nextClient == queue {
        nextClient := if queue.next != null then queue.next else clientsHead;
      }
      at := if at > i then at - 1 else if at == i && i == |order| then 0 else at;
    }

    /** unlink_client_queue: next_client moves off the queue to its successor, or round to the head. */
    method Unlink(queue: ClientQueue, ghost i: nat)
      requires Linked() && i < |order| && queue == order[i]
      modifies this`clientsHead, this`clientsTail, this`nextClient, this`order, this`at, order`prev, order`next
      ensures Linked() && order == Without(old(order), i)
      ensures at == if old(at) > i then old(at) - 1 else if old(at) == i && i == |order| then 0 else old(at)
    {
      hide Nexts, Prevs, Distinct, QueueAt;
      ghost var was := order;
      BypassNext(queue, i);
      BypassPrev(queue, i);
      DistinctWithout(was, i);
      order := Without(was, i);
      MovePast(queue, was, i);
    }

    lemma StillStored(i: nat)
      requires Stored() && i < |order|
      ensures order[i].Chained()
      ensures forall q :: q in Without(order, i) ==> q.Chained()
    {
      forall q | q in Without(order, i) ensures q.Chained() {
        assert q in order;
      }
    }

    /** Unlink a queue, whose requests go with it. */
    method Detach(queue: ClientQueue, ghost i: nat)
      requires Linked() && Filled() && Stored() && i < |order| && queue == order[i]
      modifies this`clientsHead, this`clientsTail, this`nextClient, this`order, this`at, this`queues, order`prev, order`next
      ensures Linked() && Filled() && Stored() && queue.Chained()
      ensures queue.requests == old(queues[i].items)
      ensures queues == old(queues[..i] + queues[i + 1..])
      ensures at == if old(at) > i then old(at) - 1 else if old(at) == i && i == |queues| then 0 else old(at)
    {
      hide Linked, ClientQueue.Chained;
      assert queue.Holds(queues[i]);
      ghost var was, filled := order, queues;
      StillStored(i);
      Unlink(queue, i);
      queues := filled[..i] + filled[i + 1..];
      assert forall j :: 0 <= j < |order| ==> order[j] == was[Skip(i, j)] && queues[j] == filled[Skip(i, j)];
    }

    /** Free the nodes of an unlinked queue one by one. */
    method DropRequests(queue: ClientQueue)
      requires queue.Chained() && |queue.requests| <= pendingRequests
      modifies this`pendingRequests
      ensures pendingRequests == old(pendingRequests) - |queue.requests|
    {
      var node := queue.head;
      ghost var k := 0;
      while node != null
        invariant 0 <= k <= |queue.requests| && pendingRequests == old(pendingRequests) - k
        invariant queue.Chained() && node == NodeAt(queue.nodes, k)
        decreases |queue.requests| - k
      {
        var next := node.next;
        pendingRequests := pendingRequests - 1;
        node := next;
        k := k + 1;
      }
    }

    /** threadpool_remove_client: unlink the queue, then drop its requests. */
    method RemoveClient(client: ClientState)
      requires Valid()
      modifies this`clientsHead, this`clientsTail, this`nextClient, this`order, this`at, this`queues, this`pendingRequests
      modifies order`prev, order`next
      ensures Valid()
      ensures View() == Schedule.Remove(old(View()), client)
    {
      hide Linked, Filled, Inv, Position, ClientQueue.Chained;
      var queue := FindClientQueue(client);
      if queue == null {
        return;
      }
      ghost var i := Position(queues, client);
      RemoveInv(View(), client);
      FewerThanPending(i);
      Detach(queue, i);
      DropRequests(queue);
    }

    lemma FewerThanPending(i: nat)
      requires Filled() && Inv(View()) && i < |queues|
      ensures |queues[i].items| <= pendingRequests
    {
      TotalSplit(queues, i);
    }

    /** Take the oldest request of the i-th queue. */
    method TakeHead(queue: ClientQueue, ghost i: nat) returns (request: Request)
      requires Distinct(order) && Filled() && Stored() && i < |order| && queue == order[i]
      requires queue.requests != [] && pendingRequests > 0
      modifies this`pendingRequests, this`queues, queue`head, queue`tail, queue`nodes, queue`requests, queue`queuedCount
      ensures Filled() && Stored() && pendingRequests == old(pendingRequests) - 1
      ensures old(queues[i].items) != [] && request == old(queues[i].items[0])
      ensures queues == old(queues)[i := old(queues[i].(items := queues[i].items[1..]))]
    {
      assert queue.Holds(queues[i]);
      request := queue.PopHead();
      pendingRequests := pendingRequests - 1;
      queues := queues[i := queues[i].(items := queues[i].items[1..])];
    }

    /** Take the oldest request of the i-th queue and move next_client past that queue. */
    method PopFrom(queue: ClientQueue, ghost i: nat) returns (job: Job<ClientState>)
      requires Linked() && Filled() && Stored() && i < |order| && queue == order[i]
      requires queue.requests != [] && pendingRequests > 0
      modifies this`pendingRequests, this`queues, this`nextClient, this`at
      modifies queue`head, queue`tail, queue`nodes, queue`requests, queue`queuedCount
      ensures Linked() && Filled() && Stored()
      ensures old(queues[i].items != []) && View() == Pop(old(View()), i)
      ensures job == old(Job(queues[i].client, queues[i].items[0]))
    {
      hide Nexts, Prevs, Pointed;
      assert queue.Holds(queues[i]);
      var request := TakeHead(queue, i);
      job := Job(queue.client, request);
      AdvancePast(queue, i);
    }

    /** next_client moves to the queue after this one, or round to the head. */
    method AdvancePast(queue: ClientQueue, ghost i: nat)
      requires Linked() && i < |order| && queue == order[i]
      modifies this`nextClient, this`at
      ensures Linked() && at == Succ(|order|, i)
    {
      nextClient := if queue.next != null then queue.next else clientsHead;
      at := Succ(|order|, i);
    }

    /** dequeue_fair_request: circular scan from next_client for the first queue with work. */
    method DequeueFair() returns (job: Option<Job<ClientState>>)
      requires Valid()
      modifies this`pendingRequests, this`queues, this`nextClient, this`at
      modifies order`head, order`tail, order`nodes, order`requests, order`queuedCount
      ensures Valid()
      ensures (job, View()) == Dequeue(old(View()))
    {
      if pendingRequests == 0 || clientsHead == null {
        return None;
      }
      DequeueInv(View());
      var start := if nextClient != null then nextClient else clientsHead;
      var queue := start;
      ghost var i, left := at, |order|;
      while true
        invariant Linked() && Filled() && Stored() && View() == old(View()) && order == old(order)
        invariant 0 < left <= |order| && 0 <= i < |order| && queue == order[i] && i == RotIndex(|order|, at, |order| - left)
        invariant Scan(queues, i, left) == Scan(queues, at, |order|)
        decreases left
      {
        assert queue.Holds(queues[i]);
        assert queue.Chained();
        if queue.active && queue.head != null {
          var taken := PopFrom(queue, i);
          return Some(taken);
        }
        queue := if queue.next != null then queue.next else clientsHead;
        i, left := Succ(|order|, i), left - 1;
        if queue == start {
          return None;
        }
      }
    }
  }
}
