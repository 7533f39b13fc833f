/**
 * Fairness of the rotating scan over whole runs: how long a client with queued
 * work can be passed over, and by whom.
 */
module Fairness {
  import opened Sequences
  import opened Schedule

  datatype Op<C> = Arrive(client: C) | Leave(client: C) | Put(client: C, request: Request) | Take

  function Apply<C(==)>(s: Sched<C>, op: Op<C>): Sched<C> {
    match op
    case Arrive(c) => Register(s, c)
    case Leave(c) => Remove(s, c)
    case Put(c, r) => Enqueue(s, c, r)
    case Take => Dequeue(s).1
  }

  function Run<C(==)>(s: Sched<C>, ops: seq<Op<C>>): Sched<C>
    decreases |ops|
  {
    if ops == [] then s else Run(Apply(s, ops[0]), ops[1..])
  }

  lemma ApplyInv<C>(s: Sched<C>, op: Op<C>)
    requires Inv(s)
    ensures Inv(Apply(s, op))
  {
    match op
    case Arrive(c) => RegisterInv(s, c);
    case Leave(c) => RemoveInv(s, c);
    case Put(c, r) => EnqueueInv(s, c, r);
    case Take => DequeueInv(s);
  }

  lemma {:induction false} RunInv<C>(s: Sched<C>, ops: seq<Op<C>>)
    requires Inv(s)
    ensures Inv(Run(s, ops))
    decreases |ops|
  {
    if ops != [] {
      ApplyInv(s, ops[0]);
      RunInv(Apply(s, ops[0]), ops[1..]);
    }
  }

  predicate Backlogged<C(==)>(s: Sched<C>, c: C) {
    ItemsOf(s, c) != []
  }

  predicate Serves<C(==)>(s: Sched<C>, op: Op<C>, c: C) {
    op.Take? && Dequeue(s).0.Some? && Dequeue(s).0.value.client == c
  }

  /** Circular distance: how many queues the next scan visits before c's; the list's length if c is absent. */
  function Distance<C(==)>(s: Sched<C>, c: C): nat
    requires Inv(s)
  {
    Position(Order(s), c)
  }

  lemma DistanceProps<C>(s: Sched<C>, c: C)
    requires Inv(s)
    ensures Distance(s, c) <= |s.queues|
    ensures Registered(s, c) <==> Distance(s, c) < |s.queues|
    ensures Registered(s, c) ==> Order(s)[Distance(s, c)] == Queue(c, ItemsOf(s, c))
    ensures Backlogged(s, c) ==> Registered(s, c) && s.pending > 0
  {
    PositionProps(s.queues, c);
    PositionProps(Order(s), c);
    OrderDistinct(s);
    if Registered(s, c) {
      OrderPosition(s, c);
      RotateAt(s.queues, s.next, Distance(s, c));
      TotalPositive(s.queues);
    }
  }

  lemma DistanceIs<C>(s: Sched<C>, c: C, i: nat)
    requires Inv(s) && i < |s.queues| && Order(s)[i].client == c
    ensures Distance(s, c) == i && Registered(s, c)
    ensures ItemsOf(s, c) == Order(s)[i].items
  {
    OrderDistinct(s);
    PositionIs(Order(s), c, i);
    DistanceProps(s, c);
  }

  lemma DistanceAbsent<C>(s: Sched<C>, c: C)
    requires Inv(s) && !Registered(s, c)
    ensures Distance(s, c) == |s.queues| && ItemsOf(s, c) == []
    ensures forall j :: 0 <= j < |s.queues| ==> Order(s)[j].client != c
  {
    DistanceProps(s, c);
    PositionProps(Order(s), c);
  }

  /** Where a dequeue of the queue at p leaves the queue at j. */
  function Moved(n: nat, p: nat, j: nat): nat
    requires p < n && j < n
  {
    if j > p then j - p - 1 else if j == p then n - 1 else j + n - p - 1
  }

  lemma MovedTo<C>(r: seq<Queue<C>>, p: nat, j: nat, q: Queue<C>)
    requires p < |r| && j < |r|
    ensures (r[p + 1..] + r[..p] + [q])[Moved(|r|, p, j)] == if j == p then q else r[j]
  {
  }

  lemma TakeKeepsOut<C>(s: Sched<C>, c: C)
    requires Inv(s) && s.pending > 0 && !Registered(s, c)
    ensures !Serves(s, Take, c) && Inv(Dequeue(s).1)
    ensures !Registered(Dequeue(s).1, c)
  {
    DequeueOrder(s);
    DequeueInv(s);
    DistanceAbsent(s, c);
    PositionAbsent(Order(Dequeue(s).1), c);
    DistanceProps(Dequeue(s).1, c);
  }

  /** What one dequeue does to every client's distance and queue. */
  lemma TakeStep<C>(s: Sched<C>, c: C)
    requires Inv(s) && s.pending > 0 && Registered(s, c)
    ensures FirstBusy(Order(s), 0).Some?
    ensures var s', p, j := Dequeue(s).1, FirstBusy(Order(s), 0).value, Distance(s, c);
            && Inv(s') && Registered(s', c) && |s'.queues| == |s.queues| && p < |s.queues| && j < |s.queues|
            && (Serves(s, Take, c) <==> j == p)
            && (j == p ==> ItemsOf(s, c) != [] && ItemsOf(s', c) == ItemsOf(s, c)[1..])
            && (j != p ==> ItemsOf(s', c) == ItemsOf(s, c))
            && Distance(s', c) == Moved(|s.queues|, p, j)
  {
    DequeueOrder(s);
    DequeueInv(s);
    DistanceProps(s, c);
    var s', r, p, j := Dequeue(s).1, Order(s), FirstBusy(Order(s), 0).value, Distance(s, c);
    MovedTo(r, p, j, Queue(r[p].client, r[p].items[1..]));
    DistanceIs(s', c, Moved(|r|, p, j));
    if j != p {
      OrderDistinct(s);
    }
  }

  /** The job a dequeue yields is the head of its client's queue. */
  lemma ServedIsFirst<C>(s: Sched<C>)
    requires Inv(s) && s.pending > 0
    ensures Dequeue(s).0.Some?
    ensures var job := Dequeue(s).0.value;
            Registered(s, job.client) && ItemsOf(s, job.client) != [] && job.request == ItemsOf(s, job.client)[0]
  {
    DequeueOrder(s);
    var p := FirstBusy(Order(s), 0).value;
    DistanceIs(s, Order(s)[p].client, p);
  }

  /** A dequeue shortens the served client's queue and touches no other. */
  lemma TakeItems<C>(s: Sched<C>, c: C)
    requires Inv(s) && s.pending > 0
    ensures Dequeue(s).0.Some?
    ensures Registered(Dequeue(s).1, c) <==> Registered(s, c)
    ensures Serves(s, Take, c) ==> ItemsOf(s, c) != [] && ItemsOf(Dequeue(s).1, c) == ItemsOf(s, c)[1..]
    ensures !Serves(s, Take, c) ==> ItemsOf(Dequeue(s).1, c) == ItemsOf(s, c)
  {
    DequeueOrder(s);
    if Registered(s, c) {
      TakeStep(s, c);
    } else {
      TakeKeepsOut(s, c);
      DistanceAbsent(s, c);
      DistanceAbsent(Dequeue(s).1, c);
    }
  }

  lemma TakePasses<C>(s: Sched<C>, c: C)
    requires Inv(s) && Backlogged(s, c)
    ensures FirstBusy(Order(s), 0).Some? && FirstBusy(Order(s), 0).value <= Distance(s, c)
  {
    DistanceProps(s, c);
    PendingMeansBusy(s);
  }

  lemma LeaveKeepsOut<C>(s: Sched<C>, c: C, x: C)
    requires Inv(s) && Registered(s, x) && !Registered(s, c)
    ensures Inv(Remove(s, x)) && |Remove(s, x).queues| == |s.queues| - 1
    ensures !Registered(Remove(s, x), c)
  {
    RemoveOrder(s, x);
    DistanceAbsent(s, c);
    PositionAbsent(Order(Remove(s, x)), c);
    DistanceProps(Remove(s, x), c);
  }

  lemma LeaveMoves<C>(s: Sched<C>, c: C, x: C)
    requires Inv(s) && Registered(s, x) && Registered(s, c) && c != x
    ensures var s' := Remove(s, x);
            && Inv(s') && |s'.queues| == |s.queues| - 1
            && Registered(s', c) && ItemsOf(s', c) == ItemsOf(s, c)
            && Distance(s', c) == if Distance(s, c) > Distance(s, x) then Distance(s, c) - 1 else Distance(s, c)
  {
    hide Inv, Remove, Position, Registered, ItemsOf, Rotate;
    RemoveOrder(s, x);
    DistanceProps(s, c);
    DistanceProps(s, x);
    OrderLength(s);
    OrderLength(Remove(s, x));
    var j, k := Distance(s, x), Distance(s, c);
    WithoutAt(Order(s), j, k);
    DistanceIs(Remove(s, x), c, if k > j then k - 1 else k);
  }

  lemma OrderLength<C>(s: Sched<C>)
    requires Inv(s)
    ensures |Order(s)| == |s.queues|
  {
  }

  lemma WithoutAt<C>(r: seq<Queue<C>>, j: nat, k: nat)
    requires j < |r| && k < |r| && j != k
    ensures (r[..j] + r[j + 1..])[if k > j then k - 1 else k] == r[k]
  {
  }

  lemma LeaveStep<C>(s: Sched<C>, c: C, x: C)
    requires Inv(s) && Registered(s, x) && c != x
    ensures var s' := Remove(s, x);
            && Inv(s') && |s'.queues| == |s.queues| - 1
            && ItemsOf(s', c) == ItemsOf(s, c)
            && (Registered(s', c) <==> Registered(s, c))
            && Distance(s', c) == if Distance(s, c) > Distance(s, x) then Distance(s, c) - 1 else Distance(s, c)
  {
    hide Inv, Remove, Position, Order;
    DistanceProps(s, x);
    if Registered(s, c) {
      LeaveMoves(s, c, x);
    } else {
      LeaveKeepsOut(s, c, x);
      DistanceAbsent(s, c);
      DistanceAbsent(Remove(s, x), c);
    }
  }

  lemma ArriveStep<C>(s: Sched<C>, c: C, x: C)
    requires Inv(s) && !Registered(s, x) && c != x
    ensures var s' := Register(s, x);
            && Inv(s') && |s'.queues| == |s.queues| + 1
            && ItemsOf(s', c) == ItemsOf(s, c)
            && (Registered(s', c) <==> Registered(s, c))
            && Distance(s', c) == if Distance(s, c) >= |s.queues| - s.next then Distance(s, c) + 1 else Distance(s, c)
  {
    RegisterOrder(s, x);
    DistanceProps(s, c);
    var s', r, j, k := Register(s, x), Order(s), |s.queues| - s.next, Distance(s, c);
    if Registered(s, c) {
      DistanceIs(s', c, if k >= j then k + 1 else k);
    } else {
      PositionProps(r, c);
      PositionAbsent(Order(s'), c);
      DistanceProps(s', c);
    }
  }

  lemma PutStep<C>(s: Sched<C>, c: C, x: C, q: Request)
    requires Inv(s)
    ensures var s' := Enqueue(s, x, q);
            && Inv(s') && |s'.queues| == |s.queues|
            && ItemsOf(s', c) == (if x == c && Registered(s, c) then ItemsOf(s, c) + [q] else ItemsOf(s, c))
            && (Registered(s', c) <==> Registered(s, c))
            && Distance(s', c) == Distance(s, c)
  {
    EnqueueInv(s, x, q);
    DistanceProps(s, c);
    DistanceProps(s, x);
    var s', r := Enqueue(s, x, q), Order(s);
    if Registered(s, x) {
      PositionProps(s.queues, x);
      OrderPosition(s, x);
      var q' := Queue(x, ItemsOf(s, x) + [q]);
      assert Order(s') == r[Distance(s, x) := q'];
      if Registered(s, c) {
        DistanceIs(s', c, Distance(s, c));
      } else {
        PositionProps(r, c);
        PositionAbsent(Order(s'), c);
        DistanceProps(s', c);
      }
    }
  }

  /** A registration adds an empty queue for a new client and touches no other. */
  lemma ArriveItems<C>(s: Sched<C>, c: C, x: C)
    requires Inv(s) && !Registered(s, x)
    ensures Registered(Register(s, x), c) <==> Registered(s, c) || c == x
    ensures ItemsOf(Register(s, x), c) == ItemsOf(s, c)
  {
    if c != x {
      ArriveStep(s, c, x);
    } else {
      RegisterInv(s, x);
      PositionProps(s.queues, x);
      PositionIs(Register(s, x).queues, x, |s.queues|);
    }
  }

  /** A removal drops its client's queue and touches no other. */
  lemma LeaveItems<C>(s: Sched<C>, c: C, x: C)
    requires Inv(s)
    ensures Registered(Remove(s, x), c) <==> Registered(s, c) && c != x
    ensures ItemsOf(Remove(s, x), c) == if c == x then [] else ItemsOf(s, c)
  {
    PositionProps(s.queues, x);
    if !Registered(s, x) {
      assert Remove(s, x) == s;
    } else if c != x {
      LeaveStep(s, c, x);
    } else {
      RemoveInv(s, x);
    }
  }

  /** Is op the first registration of its client? */
  predicate Joins<C(==)>(s: Sched<C>, op: Op<C>) {
    op.Arrive? && !Registered(s, op.client)
  }

  /**
   * One step of a backlogged client that is neither served nor removed: a dequeue
   * brings it strictly closer, a removal never pushes it back, a registration
   * pushes it back by at most one place, a submission leaves it where it is.
   */
  lemma StepDistance<C>(s: Sched<C>, op: Op<C>, c: C)
    requires Inv(s) && Backlogged(s, c) && !Serves(s, op, c) && op != Leave(c)
    ensures Inv(Apply(s, op)) && Backlogged(Apply(s, op), c)
    ensures op.Take? ==> Distance(Apply(s, op), c) < Distance(s, c)
    ensures op.Leave? ==> Distance(Apply(s, op), c) <= Distance(s, c)
    ensures op.Arrive? ==> Distance(Apply(s, op), c) <= Distance(s, c) + if Joins(s, op) then 1 else 0
    ensures op.Put? ==> Distance(Apply(s, op), c) == Distance(s, c)
  {
    DistanceProps(s, c);
    match op
    case Arrive(x) => if Joins(s, op) { ArriveStep(s, c, x); }
    case Leave(x) => if Registered(s, x) { LeaveStep(s, c, x); } else { PositionProps(s.queues, x); }
    case Put(x, q) => PutStep(s, c, x, q);
    case Take => TakePasses(s, c); TakeStep(s, c);
  }

  // ------------------------------------------------------------- whole runs

  function Takes<C>(ops: seq<Op<C>>): nat {
    CountIf(ops, (op: Op<C>) => op.Take?)
  }

  function Joinings<C(==)>(s: Sched<C>, ops: seq<Op<C>>): nat
    decreases |ops|
  {
    if ops == [] then 0
    else (if Joins(s, ops[0]) then 1 else 0) + Joinings(Apply(s, ops[0]), ops[1..])
  }

  function TimesServed<C(==)>(s: Sched<C>, ops: seq<Op<C>>, c: C): nat
    decreases |ops|
  {
    if ops == [] then 0
    else (if Serves(s, ops[0], c) then 1 else 0) + TimesServed(Apply(s, ops[0]), ops[1..], c)
  }

  /** A waiting client pays one place of distance per dequeue and gains at most one per newcomer. */
  lemma {:induction false} DistanceBudget<C>(s: Sched<C>, ops: seq<Op<C>>, c: C)
    requires Inv(s) && Backlogged(s, c)
    requires TimesServed(s, ops, c) == 0 && Leave(c) !in ops
    ensures Inv(Run(s, ops)) && Backlogged(Run(s, ops), c)
    ensures Takes(ops) + Distance(Run(s, ops), c) <= Distance(s, c) + Joinings(s, ops)
    decreases |ops|
  {
    if ops != [] {
      StepDistance(s, ops[0], c);
      DistanceBudget(Apply(s, ops[0]), ops[1..], c);
    }
  }

  /**
   * Bounded fairness: a client with queued work that stays registered is served
   * before the dequeues outnumber its distance plus the newcomers. With n queues
   * and no newcomers that is within n dequeues, since the distance is below n.
   */
  lemma ServedInTime<C>(s: Sched<C>, ops: seq<Op<C>>, c: C)
    requires Inv(s) && Backlogged(s, c) && Leave(c) !in ops
    requires Takes(ops) > Distance(s, c) + Joinings(s, ops) || Takes(ops) >= |s.queues| + Joinings(s, ops)
    ensures TimesServed(s, ops, c) > 0
  {
    DistanceProps(s, c);
    if TimesServed(s, ops, c) == 0 {
      DistanceBudget(s, ops, c);
    }
  }

  lemma TakeAhead<C>(s: Sched<C>, c: C, d: C)
    requires Inv(s) && Backlogged(s, c) && !Serves(s, Take, c) && c != d
    requires Distance(s, c) < Distance(s, d) || Serves(s, Take, d)
    ensures Inv(Dequeue(s).1)
    ensures Distance(Dequeue(s).1, c) < Distance(Dequeue(s).1, d)
    ensures Distance(s, c) < Distance(s, d) ==> !Serves(s, Take, d)
  {
    DistanceProps(s, c);
    TakePasses(s, c);
    TakeStep(s, c);
    DistanceProps(s, d);
    if Registered(s, d) {
      TakeStep(s, d);
    } else {
      TakeKeepsOut(s, d);
      DistanceProps(Dequeue(s).1, d);
      DistanceProps(Dequeue(s).1, c);
    }
  }

  lemma LeaveAhead<C>(s: Sched<C>, c: C, d: C, x: C)
    requires Inv(s) && Registered(s, c) && x != c && c != d && Distance(s, c) < Distance(s, d)
    ensures Inv(Remove(s, x))
    ensures Distance(Remove(s, x), c) < Distance(Remove(s, x), d)
  {
    if !Registered(s, x) {
      PositionProps(s.queues, x);
    } else {
      LeaveStep(s, c, x);
      DistanceProps(s, x);
      DistanceProps(s, c);
      if x == d {
        RemoveInv(s, d);
        DistanceAbsent(Remove(s, d), d);
        DistanceProps(Remove(s, d), c);
      } else {
        LeaveStep(s, d, x);
      }
    }
  }

  /** A client ahead of d in service order stays ahead until it is served, so d is not served meanwhile. */
  lemma StepAhead<C>(s: Sched<C>, op: Op<C>, c: C, d: C)
    requires Inv(s) && Backlogged(s, c) && !Serves(s, op, c) && op != Leave(c)
    requires c != d && op != Arrive(d)
    requires Distance(s, c) < Distance(s, d) || Serves(s, op, d)
    ensures Inv(Apply(s, op)) && Backlogged(Apply(s, op), c)
    ensures Distance(Apply(s, op), c) < Distance(Apply(s, op), d)
    ensures Distance(s, c) < Distance(s, d) ==> !Serves(s, op, d)
  {
    StepDistance(s, op, c);
    DistanceProps(s, c);
    DistanceProps(s, d);
    match op
    case Arrive(x) => if Joins(s, op) { ArriveStep(s, c, x); ArriveStep(s, d, x); }
    case Leave(x) => LeaveAhead(s, c, d, x);
    case Put(x, q) => PutStep(s, c, x, q); PutStep(s, d, x, q);
    case Take => TakeAhead(s, c, d);
  }

  /**
   * No one is served twice ahead of a waiting client: while c waits, any other
   * client (not registering anew meanwhile) is served at most once, and not at
   * all if it started behind c.
   */
  lemma {:induction false} NotServedTwice<C>(s: Sched<C>, ops: seq<Op<C>>, c: C, d: C)
    requires Inv(s) && Backlogged(s, c) && c != d
    requires TimesServed(s, ops, c) == 0 && Leave(c) !in ops && Arrive(d) !in ops
    ensures TimesServed(s, ops, d) <= 1
    ensures Distance(s, c) < Distance(s, d) ==> TimesServed(s, ops, d) == 0
    decreases |ops|
  {
    if ops != [] {
      StepDistance(s, ops[0], c);
      if Distance(s, c) < Distance(s, d) || Serves(s, ops[0], d) {
        StepAhead(s, ops[0], c, d);
      }
      NotServedTwice(Apply(s, ops[0]), ops[1..], c, d);
    }
  }
}
