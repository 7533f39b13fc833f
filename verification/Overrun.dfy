/**
 * When the reply ring loses replies of a connected client: never with one worker,
 * with more exactly past the window.
 */
module Overrun {
  import opened Sequences
  import opened Schedule
  import opened ReplyRing
  import opened PoolSystem
  import opened PoolInvariant
  import opened PoolTheorems
  import Fairness

  // ------------------------------------------------------------------ one worker

  /** While c is connected nothing of it is buffered or discarded. */
  predicate Straight(s: Sys, c: ClientId) {
    c in s.clients && !s.clients[c].out.disconnected ==> s.clients[c].out.buffered == map[] && s.clients[c].discarded == {}
  }

  lemma ClientFacts(s: Sys, c: ClientId)
    requires SysInv(s) && c in s.clients
    ensures PhaseOk(s, c) && ClientOk(c, s.clients[c], ItemsOf(s.sched, c), s.workers)
  {
  }

  /** A number that is accepted, not out, not buffered and not lost is queued or with a worker. */
  lemma WhereIs(s: Sys, c: ClientId, k: nat)
    requires SysInv(s) && c in s.clients && !s.clients[c].out.disconnected && s.clients[c].discarded == {}
    requires s.clients[c].out.sent <= k < |s.clients[c].accepted| && k !in s.clients[c].out.buffered
    ensures (exists i :: 0 <= i < |ItemsOf(s.sched, c)| && ItemsOf(s.sched, c)[i].seqNum == k)
            || exists w :: 0 <= w < |s.workers| && Carries(c, k)(s.workers[w])
  {
    hide SysInv, ItemsOf;
    ClientFacts(s, c);
    assert Places(c, s.clients[c], ItemsOf(s.sched, c), s.workers, k) == 1;
    CountZero(ItemsOf(s.sched, c), Numbered(k));
    CountZero(s.workers, Carries(c, k));
  }

  /** What a worker carries has been called, is not out, and comes before everything queued. */
  lemma Carried(s: Sys, c: ClientId, w: nat, k: nat)
    requires SysInv(s) && c in s.clients && w < |s.workers| && Carries(c, k)(s.workers[w])
    ensures s.clients[c].out.sent <= k < |s.clients[c].accepted| && k !in s.clients[c].out.buffered
    ensures forall i :: 0 <= i < |ItemsOf(s.sched, c)| ==> k < ItemsOf(s.sched, c)[i].seqNum
  {
    hide SysInv, ItemsOf;
    ClientFacts(s, c);
    CountZero(s.workers, Carries(c, k));
    assert Places(c, s.clients[c], ItemsOf(s.sched, c), s.workers, k) == One(k < |s.clients[c].accepted|);
  }

  /** A single worker always carries the reply that is due. */
  lemma CarriesTheNext(s: Sys, c: ClientId, k: nat)
    requires SysInv(s) && |s.workers| == 1 && c in s.clients && !s.clients[c].out.disconnected && Straight(s, c)
    requires Carries(c, k)(s.workers[0])
    ensures k == s.clients[c].out.sent
  {
    hide SysInv, ItemsOf;
    Carried(s, c, 0, k);
    if k != s.clients[c].out.sent {
      WhereIs(s, c, s.clients[c].out.sent);
    }
  }

  lemma NextDelivered(o: Output, reply: string)
    requires !o.disconnected && o.open && o.buffered == map[]
    ensures Accepts(o, o.sent)
    ensures var d := ReplyRing.Deliver(o, o.sent, reply); !d.disconnected ==> d.buffered == map[]
  {
    hide SendAll;
    var filled := o.(buffered := o.buffered[o.sent := reply]);
    assert filled.buffered - {o.sent} == map[];
    DrainStep(filled);
    DrainStep(SentOne(filled, SendAll(filled.pipe, reply).0));
  }

  lemma StraightDelivery(s: Sys, e: Event, c: ClientId)
    requires SysInv(s) && |s.workers| == 1 && Straight(s, c) && c in s.clients && !s.clients[c].out.disconnected
    requires e.Deliver? && e.w == 0 && s.workers[0].Replying? && s.workers[0].client == c
    ensures Straight(Step(s, e), c)
  {
    hide SysInv, ItemsOf, ReplyRing.Deliver;
    ClientFacts(s, c);
    CarriesTheNext(s, c, s.workers[0].seqNum);
    var o := s.clients[c].out;
    var before := o.(pipe := o.pipe.(script := e.script));
    NextDelivered(before, s.workers[0].reply);
    assert Step(s, e) == DeliverStep(s, 0, e.script);
    var after := ReplyRing.Deliver(before, o.sent, s.workers[0].reply);
    assert !after.disconnected ==> Lost(before, after, o.sent) == {};
  }

  predicate DeliversTo(s: Sys, e: Event, c: ClientId) {
    e.Deliver? && e.w < |s.workers| && s.workers[e.w].Replying? && s.workers[e.w].client == c
  }

  /** Only a delivery to c moves its ring, and only a delivery or closing c disconnects it, for good. */
  lemma RingUnmoved(s: Sys, e: Event, c: ClientId)
    requires c in s.clients && !DeliversTo(s, e, c)
    ensures c in Step(s, e).clients
    ensures Step(s, e).clients[c].out.buffered == s.clients[c].out.buffered && Step(s, e).clients[c].discarded == s.clients[c].discarded
    ensures s.clients[c].out.disconnected ==> Step(s, e).clients[c].out.disconnected
  {
    hide Dequeue, Remove, Register, Enqueue, ItemsOf, CanSubmit, ReplyRing.Deliver;
  }

  lemma NewcomerStraight(s: Sys, e: Event, c: ClientId)
    requires c !in s.clients && c in Step(s, e).clients
    ensures Step(s, e).clients[c] == NEW_CLIENT
  {
    hide Dequeue, Remove, Register, Enqueue, ItemsOf, ReplyRing.Deliver;
  }

  lemma CrewStays(s: Sys, e: Event)
    ensures |Step(s, e).workers| == |s.workers|
  {
    hide Dequeue, Remove, Register, Enqueue, ItemsOf, CanSubmit, ReplyRing.Deliver;
  }

  lemma StraightStep(s: Sys, e: Event, c: ClientId)
    requires SysInv(s) && |s.workers| == 1 && Straight(s, c)
    ensures Straight(Step(s, e), c) && |Step(s, e).workers| == 1
  {
    hide SysInv, Step;
    CrewStays(s, e);
    if c !in s.clients {
      if c in Step(s, e).clients { NewcomerStraight(s, e, c); }
    } else if !DeliversTo(s, e, c) {
      RingUnmoved(s, e, c);
    } else if s.clients[c].out.disconnected {
      CutOffStays(s, e, c);
    } else {
      StraightDelivery(s, e, c);
    }
  }

  lemma CutOffStays(s: Sys, e: Event, c: ClientId)
    requires c in s.clients && s.clients[c].out.disconnected && DeliversTo(s, e, c)
    ensures c in Step(s, e).clients && Step(s, e).clients[c].out.disconnected
  {
  }

  lemma {:induction false} StraightRun(s: Sys, es: seq<Event>, c: ClientId)
    requires SysInv(s) && |s.workers| == 1 && Straight(s, c)
    ensures Straight(Run(s, es), c)
    decreases |es|
  {
    if es != [] {
      hide SysInv, Step, Straight;
      StepKeeps(s, es[0]);
      StraightStep(s, es[0], c);
      StraightRun(Step(s, es[0]), es[1..], c);
    }
  }

  /**
   * With a single worker replies come in order: no reply of a connected client is
   * ever buffered, let alone discarded, however far ahead its requests are.
   */
  lemma OneWorkerLosesNothing(es: seq<Event>, c: ClientId)
    ensures Straight(Run(Initial(1), es), c)
  {
    InitialInv(1);
    StraightRun(Initial(1), es, c);
  }

  // ---------------------------------------------------------------- more workers

  /** c is connected and has lost nothing yet. */
  ghost predicate Intact(s: Sys, c: ClientId) {
    SysInv(s) && c in s.clients && !s.clients[c].out.disconnected && s.clients[c].discarded == {}
  }

  /** c is connected and has lost a reply. */
  predicate Lossy(s: Sys, c: ClientId) {
    c in s.clients && !s.clients[c].out.disconnected && s.clients[c].discarded != {}
  }

  predicate NoSubmit(es: seq<Event>, c: ClientId) {
    forall i :: 0 <= i < |es| ==> !(es[i].Submit? && es[i].c == c)
  }

  /** Only worker w has moved, and of c at most what is buffered. */
  predicate Aside(s: Sys, s': Sys, w: nat, c: ClientId) {
    && c in s.clients && c in s'.clients
    && s'.sched == s.sched && |s'.workers| == |s.workers|
    && (forall x :: 0 <= x < |s.workers| && x != w ==> s'.workers[x] == s.workers[x])
    && s'.clients[c].accepted == s.clients[c].accepted && s'.clients[c].out.sent == s.clients[c].out.sent
    && !s'.clients[c].out.disconnected
  }

  /** A delivery to a connected client whose writes all succeed, of a number that is not the one due. */
  lemma OffTurn(o: Output, k: nat, reply: string)
    requires OutputInv(o) && !o.disconnected && k != o.sent
    ensures var d := ReplyRing.Deliver(o, k, reply); d.sent == o.sent && !d.disconnected
  {
    DrainStep(o.(buffered := o.buffered[k := reply]));
  }

  /** The next step of worker w towards being ready. */
  function Onward(th: Worker, w: nat): Event {
    match th
    case Asleep => Wake(w)
    case Busy(_, _) => Finish(w, None)
    case _ => Deliver(w, [])
  }

  function Effort(th: Worker): nat {
    match th
    case Asleep => 1
    case Busy(_, _) => 2
    case Replying(_, _, _) => 1
    case _ => 0
  }

  lemma OnwardStep(s: Sys, w: nat, c: ClientId)
    requires Intact(s, c) && w < |s.workers| && !s.workers[w].Ready? && !s.workers[w].Exited?
    requires !Carries(c, s.clients[c].out.sent)(s.workers[w])
    ensures var s' := Step(s, Onward(s.workers[w], w));
            && Aside(s, s', w, c) && Effort(s'.workers[w]) < Effort(s.workers[w]) && !s'.workers[w].Exited?
            && !Carries(c, s.clients[c].out.sent)(s'.workers[w])
  {
    hide SysInv, ItemsOf, ReplyRing.Deliver, CanSubmit, ValidSignal, SubmitStep, LockStep, RemoveStep;
    ClientFacts(s, c);
    assert (s.workers[w].Busy? || s.workers[w].Replying?) ==> s.workers[w].client in s.clients by { Known(s); }
    if s.workers[w].Replying? && s.workers[w].client == c {
      var o := s.clients[c].out;
      OffTurn(o.(pipe := o.pipe.(script := [])), s.workers[w].seqNum, s.workers[w].reply);
    }
  }

  lemma Known(s: Sys)
    requires SysInv(s)
    ensures WorkersKnown(s)
  {
  }

  /** Bring worker w to the pool mutex, unless a reply of c is lost on the way. */
  lemma {:induction false} MakeReady(s: Sys, w: nat, c: ClientId) returns (es: seq<Event>)
    requires Intact(s, c) && w < |s.workers| && !s.workers[w].Exited?
    requires !Carries(c, s.clients[c].out.sent)(s.workers[w])
    ensures NoSubmit(es, c) && Aside(s, Run(s, es), w, c)
    ensures Lossy(Run(s, es), c) || (Intact(Run(s, es), c) && Run(s, es).workers[w].Ready?)
    decreases Effort(s.workers[w])
  {
    hide SysInv, Step, Run, Carries, Effort, Lossy, Intact, Aside;
    if s.workers[w].Ready? {
      es := [];
      RunNothing(s);
      AsideSelf(s, w, c);
    } else {
      var e := Onward(s.workers[w], w);
      OnwardStep(s, w, c);
      var s1 := Step(s, e);
      var rest := [];
      StillIntact(s, e, w, c);
      RunNothing(s1);
      if !Lossy(s1, c) {
        OnwardNext(s, w, c);
        rest := MakeReady(s1, w, c);
        AsideTrans(s, s1, Run(s1, rest), w, c);
      }
      es := [e] + rest;
      RunOne(s, e, s1, rest);
    }
  }

  lemma AsideSelf(s: Sys, w: nat, c: ClientId)
    requires Intact(s, c)
    ensures Aside(s, s, w, c)
  {
    hide SysInv;
  }

  /** After its next step the worker still carries nothing that is due. */
  lemma OnwardNext(s: Sys, w: nat, c: ClientId)
    requires Intact(s, c) && w < |s.workers| && Aside(s, Step(s, Onward(s.workers[w], w)), w, c)
    ensures var s1 := Step(s, Onward(s.workers[w], w));
            && c in s1.clients && w < |s1.workers| && s1.clients[c].out.sent == s.clients[c].out.sent
            && !s1.clients[c].out.disconnected
  {
    hide SysInv, Step;
  }

  lemma StillIntact(s: Sys, e: Event, w: nat, c: ClientId)
    requires Intact(s, c) && Aside(s, Step(s, e), w, c)
    ensures Lossy(Step(s, e), c) || Intact(Step(s, e), c)
  {
    hide SysInv, Step;
    StepKeeps(s, e);
  }

  lemma AsideTrans(a: Sys, b: Sys, d: Sys, w: nat, c: ClientId)
    requires Aside(a, b, w, c) && Aside(b, d, w, c)
    ensures Aside(a, d, w, c)
  {
  }

  // --------------------------------------------------------- how a reply is lost

  /** A carried number past the window is lost when it is delivered. */
  lemma LoseCarried(s: Sys, c: ClientId, w: nat, k: nat) returns (es: seq<Event>)
    requires Intact(s, c) && w < |s.workers| && Carries(c, k)(s.workers[w]) && k >= s.clients[c].out.sent + WINDOW
    ensures NoSubmit(es, c) && Lossy(Run(s, es), c)
    decreases Effort(s.workers[w])
  {
    hide SysInv, Step;
    var e := Onward(s.workers[w], w);
    var s1 := Step(s, e);
    StepKeeps(s, e);
    if s.workers[w].Busy? {
      FinishedStillCarries(s, c, w, k);
      var rest := LoseCarried(s1, c, w, k);
      es := [e] + rest;
      RunOne(s, e, s1, rest);
    } else {
      Refused(s, c, w, k);
      es := [e];
      RunOne(s, e, s1, []);
      RunNothing(s1);
    }
    assert NoSubmit([e], c);
  }

  lemma FinishedStillCarries(s: Sys, c: ClientId, w: nat, k: nat)
    requires Intact(s, c) && w < |s.workers| && Carries(c, k)(s.workers[w]) && s.workers[w].Busy?
    ensures var s1 := Step(s, Finish(w, None));
            Intact(s1, c) && |s1.workers| == |s.workers| && s1.workers[w].Replying? && Carries(c, k)(s1.workers[w])
            && s1.clients[c].out == s.clients[c].out
  {
    hide SysInv, ItemsOf;
    assert s.workers[w].client in s.clients by { Known(s); }
    StepKeeps(s, Finish(w, None));
  }

  lemma Refused(s: Sys, c: ClientId, w: nat, k: nat)
    requires Intact(s, c) && w < |s.workers| && s.workers[w].Replying? && Carries(c, k)(s.workers[w])
    requires k >= s.clients[c].out.sent + WINDOW
    ensures Lossy(Step(s, Deliver(w, [])), c)
  {
    hide SysInv, Drain;
    var o := s.clients[c].out;
    var before := o.(pipe := o.pipe.(script := []));
    assert ReplyRing.Deliver(before, k, s.workers[w].reply) == before;
    assert k in Step(s, Deliver(w, [])).clients[c].discarded;
  }

  // ----------------------------------------------------------------- taking work

  /** Queued under this number. */
  predicate Queued(s: Sys, c: ClientId, k: nat) {
    exists i :: 0 <= i < |ItemsOf(s.sched, c)| && ItemsOf(s.sched, c)[i].seqNum == k
  }

  /** What a ready worker does to c when it takes work: the head of c's queue, or nothing. */
  lemma TakesOne(s: Sys, w: nat, c: ClientId)
    requires Intact(s, c) && w < |s.workers| && s.workers[w].Ready? && s.sched.pending > 0
    ensures var s1 := Step(s, Lock(w));
            && Intact(s1, c) && |s1.workers| == |s.workers| && s1.sched.pending == s.sched.pending - 1
            && (forall x :: 0 <= x < |s.workers| && x != w ==> s1.workers[x] == s.workers[x])
            && s1.workers[w].Busy? && s1.clients[c].out == s.clients[c].out && s1.clients[c].accepted == s.clients[c].accepted
            && if s1.workers[w].client == c
               then ItemsOf(s.sched, c) != [] && s1.workers[w].request == ItemsOf(s.sched, c)[0] && ItemsOf(s1.sched, c) == ItemsOf(s.sched, c)[1..]
               else ItemsOf(s1.sched, c) == ItemsOf(s.sched, c)
  {
    hide ClientOk, Inv, ItemsOf, Registered, Position, Dequeue;
    StepKeeps(s, Lock(w));
    Fairness.ServedIsFirst(s.sched);
    Fairness.TakeItems(s.sched, c);
    DequeuePending(s.sched);
  }

  lemma PendingIfQueued(s: Sys, c: ClientId, k: nat)
    requires SysInv(s) && Queued(s, c, k)
    ensures s.sched.pending > 0 && forall w :: 0 <= w < |s.workers| ==> !s.workers[w].Exited?
  {
    TotalPositive(s.sched.queues);
  }

  /** c's queue is increasing, so what is queued besides the head stays queued when the head is taken. */
  lemma QueuedStays(s: Sys, s1: Sys, c: ClientId, k: nat)
    requires Queued(s, c, k) && ItemsOf(s.sched, c) != [] && ItemsOf(s1.sched, c) == ItemsOf(s.sched, c)[1..] && ItemsOf(s.sched, c)[0].seqNum != k
    ensures Queued(s1, c, k)
  {
    var i :| 0 <= i < |ItemsOf(s.sched, c)| && ItemsOf(s.sched, c)[i].seqNum == k;
    assert ItemsOf(s1.sched, c)[i - 1].seqNum == k;
  }

  /**
   * One worker sits on the reply that is due; another takes request after request
   * until it comes to number k, past the window.
   */
  lemma {:induction false} LoseQueued(s: Sys, c: ClientId, v: nat, w: nat, k: nat) returns (es: seq<Event>)
    requires Intact(s, c) && v < |s.workers| && w < |s.workers| && v != w
    requires Carries(c, s.clients[c].out.sent)(s.workers[v]) && !Carries(c, s.clients[c].out.sent)(s.workers[w])
    requires Queued(s, c, k) && k >= s.clients[c].out.sent + WINDOW
    ensures NoSubmit(es, c) && Lossy(Run(s, es), c)
    decreases s.sched.pending
  {
    hide SysInv, Step, ItemsOf;
    PendingIfQueued(s, c, k);
    var first := MakeReady(s, w, c);
    var s0 := Run(s, first);
    if Lossy(s0, c) {
      es := first;
    } else {
      var s1 := Step(s0, Lock(w));
      TakesOne(s0, w, c);
      RunAppend(s, first, [Lock(w)]);
      RunOne(s0, Lock(w), s1, []);
      RunNothing(s1);
      assert [Lock(w)] + [] == [Lock(w)];
      var rest;
      if s1.workers[w].client == c && s1.workers[w].request.seqNum == k {
        rest := LoseCarried(s1, c, w, k);
      } else {
        if s1.workers[w].client == c { QueuedStays(s0, s1, c, k); }
        OnlyOneCarries(s1, c, v, w);
        rest := LoseQueued(s1, c, v, w, k);
      }
      es := first + [Lock(w)] + rest;
      RunAppend(s, first + [Lock(w)], rest);
    }
  }

  lemma OnlyOneCarries(s: Sys, c: ClientId, v: nat, w: nat)
    requires SysInv(s) && c in s.clients && v < |s.workers| && w < |s.workers| && v != w
    requires Carries(c, s.clients[c].out.sent)(s.workers[v])
    ensures !Carries(c, s.clients[c].out.sent)(s.workers[w])
  {
    hide SysInv, ItemsOf;
    var k := s.clients[c].out.sent;
    ClientFacts(s, c);
    Carried(s, c, v, k);
    assert Places(c, s.clients[c], ItemsOf(s.sched, c), s.workers, k) == 1;
    if Carries(c, k)(s.workers[w]) {
      TwoCarriers(s.workers, v, w, Carries(c, k));
    }
  }

  lemma QueuedUnsent(s: Sys, c: ClientId, i: nat)
    requires SysInv(s) && c in s.clients && i < |ItemsOf(s.sched, c)|
    ensures ItemsOf(s.sched, c)[i].seqNum >= s.clients[c].out.sent
  {
    hide SysInv, ItemsOf;
    ClientFacts(s, c);
    var items := ItemsOf(s.sched, c);
    var k := items[i].seqNum;
    assert Places(c, s.clients[c], items, s.workers, k) == One(k < |s.clients[c].accepted|);
    CountZero(items, Numbered(k));
  }

  /** The reply due, if it is queued, heads its client's queue. */
  lemma DueIsHead(s: Sys, c: ClientId)
    requires Intact(s, c) && Queued(s, c, s.clients[c].out.sent)
    ensures ItemsOf(s.sched, c)[0].seqNum == s.clients[c].out.sent
  {
    hide SysInv, ItemsOf, Placed;
    ClientFacts(s, c);
    var i :| 0 <= i < |ItemsOf(s.sched, c)| && ItemsOf(s.sched, c)[i].seqNum == s.clients[c].out.sent;
    QueuedUnsent(s, c, 0);
  }

  /** Worker v takes request after request until it comes to the reply due; what is queued behind that stays queued. */
  lemma {:induction false} TakeDue(s: Sys, c: ClientId, v: nat, k: nat) returns (es: seq<Event>)
    requires Intact(s, c) && v < |s.workers| && Queued(s, c, s.clients[c].out.sent)
    requires Queued(s, c, k) && k > s.clients[c].out.sent
    ensures NoSubmit(es, c)
    ensures var t := Run(s, es);
            Lossy(t, c) || (Intact(t, c) && |t.workers| == |s.workers| && t.clients[c].out.sent == s.clients[c].out.sent
                            && Carries(c, s.clients[c].out.sent)(t.workers[v]) && Queued(t, c, k))
    decreases s.sched.pending
  {
    hide SysInv, Step, ItemsOf;
    var due := s.clients[c].out.sent;
    PendingIfQueued(s, c, k);
    QueuedNotCarried(s, c, v, due);
    var first := MakeReady(s, v, c);
    var s0 := Run(s, first);
    if Lossy(s0, c) {
      es := first;
    } else {
      var s1 := Step(s0, Lock(v));
      DueIsHead(s0, c);
      TakesOne(s0, v, c);
      RunAppend(s, first, [Lock(v)]);
      RunOne(s0, Lock(v), s1, []);
      RunNothing(s1);
      assert [Lock(v)] + [] == [Lock(v)];
      if s1.workers[v].client == c {
        QueuedStays(s0, s1, c, k);
        es := first + [Lock(v)];
      } else {
        var rest := TakeDue(s1, c, v, k);
        es := first + [Lock(v)] + rest;
        RunAppend(s, first + [Lock(v)], rest);
      }
    }
  }

  lemma QueuedNotCarried(s: Sys, c: ClientId, v: nat, k: nat)
    requires SysInv(s) && c in s.clients && v < |s.workers| && Queued(s, c, k)
    ensures !Carries(c, k)(s.workers[v])
  {
    hide SysInv, ItemsOf;
    if Carries(c, k)(s.workers[v]) {
      Carried(s, c, v, k);
    }
  }

  /** With two workers, a client whose requests run past the window can lose a reply without submitting any more. */
  lemma OverrunLoses(s: Sys, c: ClientId) returns (es: seq<Event>)
    requires Intact(s, c) && |s.workers| >= 2 && |s.clients[c].accepted| > s.clients[c].out.sent + 1024
    ensures NoSubmit(es, c) && Lossy(Run(s, es), c)
  {
    hide SysInv, Step, ItemsOf;
    ClientFacts(s, c);
    var due, k := s.clients[c].out.sent, |s.clients[c].accepted| - 1;
    WhereIs(s, c, k);
    WhereIs(s, c, due);
    if w :| 0 <= w < |s.workers| && Carries(c, k)(s.workers[w]) {
      es := LoseCarried(s, c, w, k);
    } else if v :| 0 <= v < |s.workers| && Carries(c, due)(s.workers[v]) {
      var w := if v == 0 then 1 else 0;
      OnlyOneCarries(s, c, v, w);
      es := LoseQueued(s, c, v, w, k);
    } else {
      var first := TakeDue(s, c, 0, k);
      var s1 := Run(s, first);
      if Lossy(s1, c) {
        es := first;
      } else {
        OnlyOneCarries(s1, c, 0, 1);
        var rest := LoseQueued(s1, c, 0, 1, k);
        es := first + rest;
        RunAppend(s, first, rest);
      }
    }
  }

  lemma {:induction false} PacedWithoutSubmits(s: Sys, es: seq<Event>, c: ClientId)
    requires NoSubmit(es, c)
    ensures Paced(s, es, c, 1024)
    decreases |es|
  {
    if es != [] {
      hide Step, CanSubmit;
      assert forall i :: 0 <= i < |es| - 1 ==> es[1..][i] == es[i + 1];
      PacedWithoutSubmits(Step(s, es[0]), es[1..], c);
    }
  }

  /**
   * Exactly when a reply can be lost: with two workers or more, a connected client
   * that has lost nothing can lose a reply without submitting any more if and only
   * if more than 1024 of its requests are unanswered.
   */
  lemma LossIff(s: Sys, c: ClientId)
    requires Intact(s, c) && |s.workers| >= 2
    ensures (exists es :: NoSubmit(es, c) && Lossy(Run(s, es), c)) <==> |s.clients[c].accepted| > s.clients[c].out.sent + 1024
  {
    hide SysInv, Step, Paced, NoSubmit;
    if |s.clients[c].accepted| > s.clients[c].out.sent + WINDOW {
      var es := OverrunLoses(s, c);
    } else {
      forall es | NoSubmit(es, c) ensures !Lossy(Run(s, es), c) {
        PacedWithoutSubmits(s, es, c);
        RunInStep(s, es, c);
      }
    }
  }

  // ------------------------------------------------------------ such a state exists

  predicate AllReady(s: Sys) {
    forall w :: 0 <= w < |s.workers| ==> s.workers[w].Ready?
  }

  lemma BurstStep(s: Sys, c: ClientId)
    requires SysInv(s) && CanSubmit(s, c) && AllReady(s)
    ensures var s1 := Step(s, Submit(c, "\n", {}));
            && CanSubmit(s1, c) && s1.workers == s.workers && s1.clients[c] == s.clients[c].(accepted := s.clients[c].accepted + ["\n"])
  {
    hide ClientOk, Inv, ItemsOf;
    var r := Request(|s.clients[c].accepted|, "\n");
    Fairness.PutStep(s.sched, c, c, r);
    assert Rouse(s.workers, {}) == s.workers;
  }

  lemma {:induction false} Burst(s: Sys, c: ClientId, m: nat) returns (es: seq<Event>)
    requires SysInv(s) && CanSubmit(s, c) && AllReady(s)
    ensures var t := Run(s, es);
            SysInv(t) && c in t.clients && t.workers == s.workers && t.clients[c].out == s.clients[c].out
            && t.clients[c].discarded == s.clients[c].discarded && |t.clients[c].accepted| == |s.clients[c].accepted| + m
    decreases m
  {
    if m == 0 {
      es := [];
    } else {
      hide SysInv, Step;
      var e := Submit(c, "\n", {});
      BurstStep(s, c);
      StepKeeps(s, e);
      var rest := Burst(Step(s, e), c, m - 1);
      es := [e] + rest;
      RunOne(s, e, Step(s, e), rest);
    }
  }

  /** With two workers or more some run discards a reply of a client that is connected. */
  lemma LossReachable(n: nat) returns (es: seq<Event>)
    requires n >= 2
    ensures Lossy(Run(Initial(n), es), 0)
  {
    hide SysInv, Run;
    InitialInv(n);
    StepKeeps(Initial(n), Accept(0));
    var s1 := Step(Initial(n), Accept(0));
    FirstAccepted(n);
    var burst := Burst(s1, 0, WINDOW + 1);
    var loss := OverrunLoses(Run(s1, burst), 0);
    es := [Accept(0)] + (burst + loss);
    RunOne(Initial(n), Accept(0), s1, burst + loss);
    RunAppend(s1, burst, loss);
  }

  lemma FirstAccepted(n: nat)
    ensures var s := Step(Initial(n), Accept(0));
            CanSubmit(s, 0) && AllReady(s) && |s.workers| == n && s.clients[0] == NEW_CLIENT
  {
    assert Position([Queue(0, [])], 0) == 0;
    assert Register(Initial(n).sched, 0).queues == [Queue(0, [])];
  }
}
