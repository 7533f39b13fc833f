/**
 * The pool's client list as a value: the queues in list order, the position of
 * the rotating next_client pointer, and the pending_requests counter.
 * WorkerPool refines these functions on the heap; PoolSystem takes steps with them.
 */
module Schedule {
  import opened Sequences

  datatype Request = Request(seqNum: nat, line: string)
  datatype Queue<C> = Queue(client: C, items: seq<Request>)
  datatype Sched<C> = Sched(queues: seq<Queue<C>>, next: nat, pending: nat)

  // ---------------------------------------------------------------- state

  function Position<C(==)>(qs: seq<Queue<C>>, c: C): nat {
    if qs == [] || qs[0].client == c then 0 else 1 + Position(qs[1..], c)
  }

  predicate Registered<C(==)>(s: Sched<C>, c: C) {
    Position(s.queues, c) < |s.queues|
  }

  function ItemsOf<C(==)>(s: Sched<C>, c: C): seq<Request> {
    var i := Position(s.queues, c);
    if i < |s.queues| then s.queues[i].items else []
  }

  function Total<C>(qs: seq<Queue<C>>): nat {
    if qs == [] then 0 else |qs[0].items| + Total(qs[1..])
  }

  predicate DistinctClients<C(==)>(qs: seq<Queue<C>>) {
    forall i, j :: 0 <= i < j < |qs| ==> qs[i].client != qs[j].client
  }

  predicate Inv<C(==)>(s: Sched<C>) {
    && DistinctClients(s.queues)
    && (if s.queues == [] then s.next == 0 else s.next < |s.queues|)
    && s.pending == Total(s.queues)
  }

  // ----------------------------------------------------------- operations

  function Register<C(==)>(s: Sched<C>, c: C): Sched<C> {
    if Registered(s, c) then s else s.(queues := s.queues + [Queue(c, [])])
  }

  function Enqueue<C(==)>(s: Sched<C>, c: C, r: Request): Sched<C> {
    var i := Position(s.queues, c);
    if i == |s.queues| then s
    else if i < |s.queues| then
      s.(queues := s.queues[i := Queue(c, s.queues[i].items + [r])], pending := s.pending + 1)
    else s
  }

  /** next_client moves off the unlinked queue to its successor, or round to the head. */
  function Remove<C(==)>(s: Sched<C>, c: C): Sched<C> {
    var i := Position(s.queues, c);
    if i >= |s.queues| then s
    else
      var rest := s.queues[..i] + s.queues[i + 1..];
      var next :=
        if s.next > i then s.next - 1
        else if s.next == i && i == |rest| then 0
        else s.next;
      Sched(rest, next, if |s.queues[i].items| <= s.pending then s.pending - |s.queues[i].items| else 0)
  }

  function Succ(n: nat, i: nat): nat {
    if i + 1 < n then i + 1 else 0
  }

  /** The circular scan: at most `left` queues from `at`, the first with work wins. */
  function Scan<C>(qs: seq<Queue<C>>, at: nat, left: nat): (r: Option<nat>)
    requires at < |qs|
    ensures r.Some? ==> r.value < |qs| && qs[r.value].items != []
    decreases left
  {
    if left == 0 then None
    else if qs[at].items != [] then Some(at)
    else Scan(qs, Succ(|qs|, at), left - 1)
  }

  function Pop<C>(s: Sched<C>, i: nat): Sched<C>
    requires i < |s.queues| && s.queues[i].items != [] && s.pending > 0
  {
    Sched(s.queues[i := s.queues[i].(items := s.queues[i].items[1..])], Succ(|s.queues|, i), s.pending - 1)
  }

  datatype Job<C> = Job(client: C, request: Request)

  function Dequeue<C>(s: Sched<C>): (Option<Job<C>>, Sched<C>) {
    if s.pending == 0 || s.next >= |s.queues| then (None, s)
    else
      match Scan(s.queues, s.next, |s.queues|)
      case None => (None, s)
      case Some(i) => (Some(Job(s.queues[i].client, s.queues[i].items[0])), Pop(s, i))
  }

  // --------------------------------------------------------- basic lemmas

  lemma {:induction false} PositionProps<C>(qs: seq<Queue<C>>, c: C)
    ensures Position(qs, c) <= |qs|
    ensures Position(qs, c) < |qs| ==> qs[Position(qs, c)].client == c
    ensures forall j :: 0 <= j < Position(qs, c) ==> qs[j].client != c
  {
    if qs != [] && qs[0].client != c {
      PositionProps(qs[1..], c);
      assert forall j :: 1 <= j < |qs| ==> qs[j] == qs[1..][j - 1];
    }
  }

  lemma PositionIs<C>(qs: seq<Queue<C>>, c: C, i: nat)
    requires i < |qs| && qs[i].client == c
    requires DistinctClients(qs)
    ensures Position(qs, c) == i
  {
    PositionProps(qs, c);
  }

  lemma PositionAbsent<C>(qs: seq<Queue<C>>, c: C)
    requires forall j :: 0 <= j < |qs| ==> qs[j].client != c
    ensures Position(qs, c) == |qs|
  {
    PositionProps(qs, c);
  }

  lemma {:induction false} TotalConcat<C>(a: seq<Queue<C>>, b: seq<Queue<C>>)
    ensures Total(a + b) == Total(a) + Total(b)
  {
    if a == [] {
      assert a + b == b;
    } else {
      assert (a + b)[1..] == a[1..] + b;
      TotalConcat(a[1..], b);
    }
  }

  lemma TotalSplit<C>(qs: seq<Queue<C>>, i: nat)
    requires i < |qs|
    ensures Total(qs) == Total(qs[..i]) + |qs[i].items| + Total(qs[i + 1..])
  {
    assert qs == qs[..i] + qs[i..];
    TotalConcat(qs[..i], qs[i..]);
    assert qs[i..][1..] == qs[i + 1..];
  }

  lemma TotalUpdate<C>(qs: seq<Queue<C>>, i: nat, q: Queue<C>)
    requires i < |qs|
    ensures Total(qs[i := q]) == Total(qs) - |qs[i].items| + |q.items|
  {
    TotalSplit(qs, i);
    TotalSplit(qs[i := q], i);
    assert qs[i := q][..i] == qs[..i] && qs[i := q][i + 1..] == qs[i + 1..];
  }

  // ------------------------------------------------ every operation keeps Inv

  lemma RegisterInv<C>(s: Sched<C>, c: C)
    requires Inv(s)
    ensures Inv(Register(s, c))
  {
    PositionProps(s.queues, c);
    TotalConcat(s.queues, [Queue(c, [])]);
  }

  lemma EnqueueInv<C>(s: Sched<C>, c: C, r: Request)
    requires Inv(s)
    ensures Inv(Enqueue(s, c, r))
  {
    PositionProps(s.queues, c);
    var i := Position(s.queues, c);
    if i < |s.queues| {
      TotalUpdate(s.queues, i, Queue(c, s.queues[i].items + [r]));
    }
  }

  lemma RemoveInv<C>(s: Sched<C>, c: C)
    requires Inv(s)
    ensures Inv(Remove(s, c))
    ensures Remove(s, c).pending == s.pending - |ItemsOf(s, c)|
    ensures !Registered(Remove(s, c), c)
  {
    PositionProps(s.queues, c);
    var i := Position(s.queues, c);
    if i < |s.queues| {
      var rest := s.queues[..i] + s.queues[i + 1..];
      TotalSplit(s.queues, i);
      TotalConcat(s.queues[..i], s.queues[i + 1..]);
      forall j | 0 <= j < |rest| ensures rest[j].client != c {
        assert rest[j] == s.queues[if j < i then j else j + 1];
      }
      PositionAbsent(rest, c);
      assert DistinctClients(rest) by {
        forall j, k | 0 <= j < k < |rest| ensures rest[j].client != rest[k].client {
          assert rest[j] == s.queues[if j < i then j else j + 1];
          assert rest[k] == s.queues[if k < i then k else k + 1];
        }
      }
    }
  }

  lemma DequeueInv<C>(s: Sched<C>)
    requires Inv(s)
    ensures Inv(Dequeue(s).1)
  {
    if s.pending > 0 && s.next < |s.queues| {
      var r := Scan(s.queues, s.next, |s.queues|);
      if r.Some? {
        var i := r.value;
        TotalUpdate(s.queues, i, s.queues[i].(items := s.queues[i].items[1..]));
      }
    }
  }

  // ---------------------------------------------------- the service order

  /** The queues in the order the next scan visits them. */
  function Rotate<C>(qs: seq<Queue<C>>, k: nat): (r: seq<Queue<C>>)
    requires k <= |qs|
    ensures |r| == |qs|
  {
    qs[k..] + qs[..k]
  }

  function Order<C(==)>(s: Sched<C>): seq<Queue<C>>
    requires Inv(s)
  {
    Rotate(s.queues, s.next)
  }

  function FirstBusy<C>(r: seq<Queue<C>>, j: nat): (p: Option<nat>)
    requires j <= |r|
    ensures p.Some? ==> j <= p.value < |r| && r[p.value].items != []
    ensures forall i :: j <= i < (if p.Some? then p.value else |r|) ==> r[i].items == []
    decreases |r| - j
  {
    if j == |r| then None else if r[j].items != [] then Some(j) else FirstBusy(r, j + 1)
  }

  function RotIndex(n: nat, k: nat, j: nat): nat
    requires k <= n && j <= n
  {
    if k + j < n then k + j else k + j - n
  }

  lemma {:induction false} ScanIsFirstBusy<C>(qs: seq<Queue<C>>, k: nat, j: nat)
    requires k < |qs| && j <= |qs|
    ensures var p := FirstBusy(Rotate(qs, k), j);
            Scan(qs, RotIndex(|qs|, k, j), |qs| - j) == if p.Some? then Some(RotIndex(|qs|, k, p.value)) else None
    decreases |qs| - j
  {
    var r := Rotate(qs, k);
    if j < |qs| {
      assert r[j] == qs[RotIndex(|qs|, k, j)];
      if r[j].items == [] {
        assert Succ(|qs|, RotIndex(|qs|, k, j)) == RotIndex(|qs|, k, j + 1);
        ScanIsFirstBusy(qs, k, j + 1);
      }
    }
  }

  lemma {:induction false} TotalPositive<C>(qs: seq<Queue<C>>)
    ensures Total(qs) == 0 <==> forall i :: 0 <= i < |qs| ==> qs[i].items == []
  {
    if qs != [] {
      TotalPositive(qs[1..]);
      assert forall i :: 1 <= i < |qs| ==> qs[i] == qs[1..][i - 1];
    }
  }

  lemma RotateAt<C>(qs: seq<Queue<C>>, k: nat, x: nat)
    requires k < |qs| && x < |qs|
    ensures Rotate(qs, k)[x] == qs[RotIndex(|qs|, k, x)]
  {
  }

  /** Rotating past the served queue moves it to the end. */
  lemma RotatePast<C>(qs: seq<Queue<C>>, k: nat, j: nat, q: Queue<C>)
    requires k < |qs| && j < |qs|
    ensures var r, i := Rotate(qs, k), RotIndex(|qs|, k, j);
            Rotate(qs[i := q], Succ(|qs|, i)) == r[j + 1..] + r[..j] + [q]
  {
    var r, i, n := Rotate(qs, k), RotIndex(|qs|, k, j), |qs|;
    var k' := Succ(n, i);
    var s, t := Rotate(qs[i := q], k'), r[j + 1..] + r[..j] + [q];
    forall x | 0 <= x < n ensures s[x] == t[x] {
      RotateAt(qs[i := q], k', x);
      if x < n - 1 {
        var y := if x < n - 1 - j then x + j + 1 else x - (n - 1 - j);
        RotateAt(qs, k, y);
      }
    }
    assert s == t;
  }

  /** Taking one queue out of the list takes it out of the rotation. */
  lemma RotateWithout<C>(qs: seq<Queue<C>>, k: nat, i: nat)
    requires k < |qs| && i < |qs|
    ensures var rest := qs[..i] + qs[i + 1..];
            var j := if i >= k then i - k else i + |qs| - k;
            var k' := if k > i then k - 1 else if k == i && i == |rest| then 0 else k;
            Rotate(rest, k') == Rotate(qs, k)[..j] + Rotate(qs, k)[j + 1..]
  {
    var rest, r := qs[..i] + qs[i + 1..], Rotate(qs, k);
    if i >= k {
      assert r[..i - k] == qs[k..i] && r[i - k + 1..] == qs[i + 1..] + qs[..k];
      if !(k == i && i == |rest|) {
        assert rest[k..] == qs[k..i] + qs[i + 1..] && rest[..k] == qs[..k];
      }
    } else {
      assert r[..i + |qs| - k] == qs[k..] + qs[..i] && r[i + |qs| - k + 1..] == qs[i + 1..k];
      assert rest[k - 1..] == qs[k..] && rest[..k - 1] == qs[..i] + qs[i + 1..k];
    }
  }

  lemma PendingMeansBusy<C>(s: Sched<C>)
    requires Inv(s) && s.pending > 0
    ensures s.queues != [] && FirstBusy(Order(s), 0).Some?
  {
    TotalPositive(s.queues);
    var r := Order(s);
    if FirstBusy(r, 0).None? {
      forall i | 0 <= i < |s.queues| ensures s.queues[i].items == [] {
        assert s.queues[i] == r[if i >= s.next then i - s.next else i + |s.queues| - s.next];
      }
    }
  }

  /**
   * Dequeue is complete, fair and exact: it yields a request exactly when one is
   * pending, it takes the oldest request of the first non-empty queue in service
   * order, and that queue goes to the very end of the service order.
   */
  lemma DequeueOrder<C>(s: Sched<C>)
    requires Inv(s)
    ensures Dequeue(s).0.Some? <==> s.pending > 0
    ensures Dequeue(s).0.Some? ==>
              var r, p := Order(s), FirstBusy(Order(s), 0);
              && p.Some?
              && Dequeue(s).0.value == Job(r[p.value].client, r[p.value].items[0])
              && Inv(Dequeue(s).1)
              && Order(Dequeue(s).1) == r[p.value + 1..] + r[..p.value] + [Queue(r[p.value].client, r[p.value].items[1..])]
  {
    if s.pending > 0 {
      PendingMeansBusy(s);
      ScanIsFirstBusy(s.queues, s.next, 0);
      DequeueInv(s);
      var r := Order(s);
      var j := FirstBusy(r, 0).value;
      RotateAt(s.queues, s.next, j);
      RotatePast(s.queues, s.next, j, Queue(r[j].client, r[j].items[1..]));
    }
  }

  lemma OrderPosition<C>(s: Sched<C>, c: C)
    requires Inv(s) && Registered(s, c)
    ensures var i := Position(s.queues, c);
            Position(Order(s), c) == if i >= s.next then i - s.next else i + |s.queues| - s.next
  {
    PositionProps(s.queues, c);
    var i := Position(s.queues, c);
    var j := if i >= s.next then i - s.next else i + |s.queues| - s.next;
    OrderDistinct(s);
    RotateAt(s.queues, s.next, j);
    PositionIs(Order(s), c, j);
  }

  lemma DequeuePending<C>(s: Sched<C>)
    requires Inv(s) && s.pending > 0
    ensures Dequeue(s).1.pending == s.pending - 1
  {
    DequeueOrder(s);
  }

  /** Unlinking a queue keeps the service order of all the others. */
  lemma RemoveOrder<C>(s: Sched<C>, c: C)
    requires Inv(s) && Registered(s, c)
    ensures Inv(Remove(s, c))
    ensures var r, j := Order(s), Position(Order(s), c);
            j < |r| && Order(Remove(s, c)) == r[..j] + r[j + 1..]
  {
    hide Rotate, Total;
    RemoveInv(s, c);
    OrderPosition(s, c);
    PositionProps(s.queues, c);
    var i := Position(s.queues, c);
    RotateWithout(s.queues, s.next, i);
  }

  /** A new queue is inserted once into the service order; the others keep theirs. */
  lemma RegisterOrder<C>(s: Sched<C>, c: C)
    requires Inv(s) && !Registered(s, c)
    ensures Inv(Register(s, c))
    ensures var r, j := Order(s), |s.queues| - s.next;
            Order(Register(s, c)) == r[..j] + [Queue(c, [])] + r[j..]
  {
    RegisterInv(s, c);
    var s' := Register(s, c);
    assert s'.queues[s'.next..] == s.queues[s.next..] + [Queue(c, [])];
    assert s'.queues[..s'.next] == s.queues[..s.next];
    assert Order(s)[..|s.queues| - s.next] == s.queues[s.next..];
    assert Order(s)[|s.queues| - s.next..] == s.queues[..s.next];
  }

  lemma OrderDistinct<C>(s: Sched<C>)
    requires Inv(s)
    ensures DistinctClients(Order(s))
    ensures forall c :: Registered(s, c) <==> Position(Order(s), c) < |s.queues|
  {
    hide Total, Position;
    var n, k, r := |s.queues|, s.next, Order(s);
    forall x, y | 0 <= x < y < |r| ensures r[x].client != r[y].client {
      assert r[x] == s.queues[RotIndex(n, k, x)] && r[y] == s.queues[RotIndex(n, k, y)];
    }
    forall c ensures Registered(s, c) <==> Position(r, c) < n {
      PositionProps(s.queues, c);
      PositionProps(r, c);
      if Registered(s, c) {
        var i := Position(s.queues, c);
        assert r[if i >= k then i - k else i + n - k] == s.queues[i];
      }
      if Position(r, c) < n {
        assert r[Position(r, c)] == s.queues[RotIndex(n, k, Position(r, c))];
      }
    }
  }
}
