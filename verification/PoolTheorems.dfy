/** What the worker pool guarantees over all its runs. */
module PoolTheorems {
  import opened Sequences
  import opened Schedule
  import opened ReplyRing
  import opened PoolSystem
  import opened PoolInvariant
  import Fairness

  // --------------------------------------------------------- at every moment

  /** No lost wakeup: queued work beyond what awake idle workers will take is never left while someone sleeps. */
  lemma NoLostWakeup(n: nat, es: seq<Event>)
    ensures var s := Run(Initial(n), es);
            (exists w :: 0 <= w < |s.workers| && s.workers[w].Asleep?)
            ==> !s.shutting && s.sched.pending <= CountIf(s.workers, IsReady())
  {
    Reachable(n, es);
    SomeoneAsleep(Run(Initial(n), es).workers);
  }

  /**
   * Conservation: each accepted request of a client is in exactly one place
   * (queued, in flight, buffered in the ring, sent, removed, discarded), and
   * nothing that was never accepted is anywhere.
   */
  lemma Conservation(n: nat, es: seq<Event>, c: ClientId, k: nat)
    ensures var s := Run(Initial(n), es);
            c in s.clients ==> Places(c, s.clients[c], ItemsOf(s.sched, c), s.workers, k) == One(k < |s.clients[c].accepted|)
  {
    Reachable(n, es);
  }

  /** Requests are handed to the handler in submission order, each at most once, and only after being accepted. */
  lemma CallsInOrder(n: nat, es: seq<Event>, c: ClientId)
    ensures var s := Run(Initial(n), es);
            c in s.clients ==>
              && Increasing(s.clients[c].calls)
              && (forall k :: k in s.clients[c].calls ==> k < |s.clients[c].accepted|)
              && (forall k :: k in s.clients[c].replies ==> k in s.clients[c].calls)
  {
    Reachable(n, es);
  }

  /**
   * A submission is accepted exactly from a client that is connected and not yet
   * removed, before shutdown: then the line gets the next number and joins the end of
   * the client's queue; otherwise nothing happens.
   */
  lemma SubmissionAccepted(n: nat, es: seq<Event>, c: ClientId, line: string, woken: set<nat>)
    ensures var s := Run(Initial(n), es);
            ValidSignal(s.workers, woken) ==>
              var t := Step(s, Submit(c, line, woken));
              if c in s.clients && !s.shutting && !s.clients[c].out.disconnected && !s.clients[c].phase.Removed? && !s.clients[c].phase.Closed?
              then && t.clients == s.clients[c := s.clients[c].(accepted := s.clients[c].accepted + [line])]
                   && ItemsOf(t.sched, c) == ItemsOf(s.sched, c) + [Request(|s.clients[c].accepted|, line)]
                   && t.sched.pending == s.sched.pending + 1
              else t == s
  {
    hide Initial, Run, ClientOk, Inv, ItemsOf, Enqueue;
    Reachable(n, es);
    var s := Run(Initial(n), es);
    if CanSubmit(s, c) {
      assert PhaseOk(s, c);
      EnqueuedItem(s.sched, c, Request(|s.clients[c].accepted|, line));
    } else if c in s.clients {
      assert PhaseOk(s, c);
    }
  }

  lemma EnqueuedItem(s: Sched<ClientId>, c: ClientId, r: Request)
    requires Inv(s) && Registered(s, c)
    ensures ItemsOf(Enqueue(s, c, r), c) == ItemsOf(s, c) + [r] && Enqueue(s, c, r).pending == s.pending + 1
  {
    hide Inv, ItemsOf;
    Fairness.PutStep(s, c, c, r);
  }

  /** A worker that finds work pending never comes back from the scan empty-handed. */
  lemma PendingWorkIsFound(n: nat, es: seq<Event>, w: nat)
    ensures var s := Run(Initial(n), es);
            w < |s.workers| && s.workers[w].Ready? && s.sched.pending > 0 ==>
              && Step(s, Lock(w)).workers[w].Busy?
              && Step(s, Lock(w)).sched.pending == s.sched.pending - 1
  {
    hide Initial, Run, SysInv;
    Reachable(n, es);
    var s := Run(Initial(n), es);
    if w < |s.workers| && s.workers[w].Ready? && s.sched.pending > 0 {
      LockFinds(s, w);
    }
  }

  lemma LockFinds(s: Sys, w: nat)
    requires SysInv(s) && w < |s.workers| && s.workers[w].Ready? && s.sched.pending > 0
    ensures LockStep(s, w).workers[w].Busy? && LockStep(s, w).sched.pending == s.sched.pending - 1
  {
    hide ClientOk, Inv, Dequeue, ItemsOf;
    LockTakesKeeps(s, w);
    Fairness.ServedIsFirst(s.sched);
    DequeuePending(s.sched);
  }

  // ------------------------------------------------------------ reply order

  /**
   * End-to-end reply order: in every interleaving, with any splits and failures
   * of writes, the bytes written to a client are a byte-prefix of its replies in
   * request order; while it is connected they are exactly the replies below
   * responses_sent.
   */
  lemma ReplyOrder(n: nat, es: seq<Event>, c: ClientId)
    ensures var s := Run(Initial(n), es);
            c in s.clients ==>
              var cl := s.clients[c];
              && (forall k :: 0 <= k < cl.out.sent ==> k in cl.replies)
              && (!cl.out.disconnected ==> cl.out.pipe.written == Stream(cl.replies, cl.out.sent))
              && (if cl.out.sent in cl.replies then cl.out.pipe.written <= Stream(cl.replies, cl.out.sent + 1)
                  else cl.out.pipe.written == Stream(cl.replies, cl.out.sent))
  {
    hide Initial, Run, Wrote, PhaseOk;
    Reachable(n, es);
    var s := Run(Initial(n), es);
    if c in s.clients {
      assert ClientOk(c, s.clients[c], ItemsOf(s.sched, c), s.workers);
      WroteInOrder(s.clients[c].out, s.clients[c].replies);
    }
  }

  lemma WroteInOrder(o: Output, table: map<nat, string>)
    requires Wrote(o, table)
    ensures forall k :: 0 <= k < o.sent ==> k in table
    ensures !o.disconnected ==> o.pipe.written == Stream(table, o.sent)
    ensures o.sent in table ==> o.pipe.written <= Stream(table, o.sent + 1)
    ensures o.sent !in table ==> o.pipe.written == Stream(table, o.sent)
  {
    if o.sent in table {
      assert Stream(table, o.sent + 1) == Stream(table, o.sent) + table[o.sent];
    }
  }

  /** Output is never taken back: a step only appends to what a client has been written. */
  lemma WrittenOnlyGrows(s: Sys, e: Event, c: ClientId)
    requires c in s.clients
    ensures c in Step(s, e).clients && s.clients[c].out.pipe.written <= Step(s, e).clients[c].out.pipe.written
  {
    hide Dequeue, Remove, Register, Enqueue, CanSubmit, Drain;
    if e.Deliver? && e.w < |s.workers| && s.workers[e.w].Replying? && s.workers[e.w].client == c {
      var o := s.clients[c].out;
      var before := o.(pipe := o.pipe.(script := e.script));
      DrainAppends(before.(buffered := before.buffered[s.workers[e.w].seqNum := s.workers[e.w].reply]));
    }
  }

  /** e is the return of the handler from request k of client c, with this reply to the line accepted as number k. */
  predicate Answers(s: Sys, e: Event, c: ClientId, k: nat, reply: string)
    requires c in s.clients
  {
    && e.Finish? && e.w < |s.workers| && s.workers[e.w].Busy?
    && s.workers[e.w].client == c && s.workers[e.w].request.seqNum == k
    && k < |s.clients[c].accepted| && s.workers[e.w].request.line == s.clients[c].accepted[k]
    && reply == if e.result.Some? then e.result.value else "-1\n"
  }

  /** A client's reply table only gains entries, each one the handler's answer to the line accepted under that number. */
  lemma RepliesAnswerLines(s: Sys, e: Event, c: ClientId)
    requires SysInv(s) && c in s.clients
    ensures c in Step(s, e).clients
    ensures s.clients[c].accepted <= Step(s, e).clients[c].accepted
    ensures forall k :: k in s.clients[c].replies ==> k in Step(s, e).clients[c].replies
    ensures forall k :: k in Step(s, e).clients[c].replies ==>
                          if k in s.clients[c].replies then Step(s, e).clients[c].replies[k] == s.clients[c].replies[k]
                          else Answers(s, e, c, k, Step(s, e).clients[c].replies[k])
  {
    hide SysInv, Dequeue, Remove, Register, Enqueue, CanSubmit, ReplyRing.Deliver;
    if e.Finish? {
      FlightOf(s, c);
    } else {
      RepliesUnmoved(s, e, c);
    }
  }

  predicate AnswersIn(s: Sys, e: Event, c: ClientId, k: nat, reply: string) {
    c in s.clients && Answers(s, e, c, k, reply)
  }

  /** Some event of the run is the handler's return, with this reply, from the line of c accepted as number k. */
  predicate Given(s: Sys, es: seq<Event>, c: ClientId, k: nat, reply: string) {
    exists m :: 0 <= m < |es| && AnswersIn(Run(s, es[..m]), es[m], c, k, reply)
  }

  lemma GivenNow(s: Sys, es: seq<Event>, c: ClientId, k: nat, reply: string)
    requires es != [] && c in s.clients && Answers(s, es[0], c, k, reply)
    ensures Given(s, es, c, k, reply)
  {
    hide Step, Answers;
    assert Run(s, es[..0]) == s && AnswersIn(Run(s, es[..0]), es[0], c, k, reply);
  }

  lemma GivenLater(s: Sys, es: seq<Event>, c: ClientId, k: nat, reply: string)
    requires es != [] && Given(Step(s, es[0]), es[1..], c, k, reply)
    ensures Given(s, es, c, k, reply)
  {
    hide Step, AnswersIn;
    var m :| 0 <= m < |es| - 1 && AnswersIn(Run(Step(s, es[0]), es[1..][..m]), es[1..][m], c, k, reply);
    assert es[..m + 1][1..] == es[1..][..m] && es[..m + 1][0] == es[0];
    assert AnswersIn(Run(s, es[..m + 1]), es[m + 1], c, k, reply);
  }

  lemma {:induction false} TableGiven(s: Sys, es: seq<Event>, c: ClientId, k: nat)
    requires SysInv(s) && c in s.clients
    ensures c in Run(s, es).clients
    ensures k in Run(s, es).clients[c].replies ==>
              if k in s.clients[c].replies then Run(s, es).clients[c].replies[k] == s.clients[c].replies[k]
              else Given(s, es, c, k, Run(s, es).clients[c].replies[k])
    ensures k in s.clients[c].replies ==> k in Run(s, es).clients[c].replies
    decreases |es|
  {
    if es != [] {
      hide SysInv, Step, Given, Answers;
      var s1 := Step(s, es[0]);
      RepliesAnswerLines(s, es[0], c);
      StepKeeps(s, es[0]);
      TableGiven(s1, es[1..], c, k);
      if k in Run(s, es).clients[c].replies && k !in s.clients[c].replies {
        if k in s1.clients[c].replies {
          GivenNow(s, es, c, k, s1.clients[c].replies[k]);
        } else {
          GivenLater(s, es, c, k, Run(s, es).clients[c].replies[k]);
        }
      }
    }
  }

  lemma {:induction false} TableGivenFromStart(s: Sys, es: seq<Event>, c: ClientId, k: nat)
    requires SysInv(s) && c !in s.clients && c in Run(s, es).clients && k in Run(s, es).clients[c].replies
    ensures Given(s, es, c, k, Run(s, es).clients[c].replies[k])
    decreases |es|
  {
    hide SysInv, Given, Dequeue, Remove, Register, Enqueue, ReplyRing.Deliver;
    StepKeeps(s, es[0]);
    if c in Step(s, es[0]).clients {
      assert Step(s, es[0]).clients[c] == NEW_CLIENT;
      TableGiven(Step(s, es[0]), es[1..], c, k);
    } else {
      TableGivenFromStart(Step(s, es[0]), es[1..], c, k);
    }
    GivenLater(s, es, c, k, Run(s, es).clients[c].replies[k]);
  }

  /** In every run each reply in a client's table was given by the handler for the line accepted under its number. */
  lemma RepliesWereGiven(n: nat, es: seq<Event>, c: ClientId, k: nat)
    ensures var s := Run(Initial(n), es);
            c in s.clients && k in s.clients[c].replies ==> Given(Initial(n), es, c, k, s.clients[c].replies[k])
  {
    InitialInv(n);
    hide SysInv, Run, Given;
    if c in Run(Initial(n), es).clients && k in Run(Initial(n), es).clients[c].replies {
      TableGivenFromStart(Initial(n), es, c, k);
    }
  }

  lemma RepliesUnmoved(s: Sys, e: Event, c: ClientId)
    requires c in s.clients && !e.Finish?
    ensures c in Step(s, e).clients && Step(s, e).clients[c].replies == s.clients[c].replies
    ensures s.clients[c].accepted <= Step(s, e).clients[c].accepted
  {
    hide Dequeue, Remove, Register, Enqueue, CanSubmit, ReplyRing.Deliver;
  }

  lemma FlightOf(s: Sys, c: ClientId)
    requires SysInv(s) && c in s.clients
    ensures FlightOk(c, s.clients[c], s.workers)
  {
    assert ClientOk(c, s.clients[c], ItemsOf(s.sched, c), s.workers);
  }

  /**
   * A client that a failed write has disconnected is never taken out of the list:
   * closing it does nothing any more, whatever happens later.
   */
  lemma {:induction false} FailedWriterStaysListed(s: Sys, es: seq<Event>, c: ClientId)
    requires SysInv(s) && c in s.clients && s.clients[c].phase.Open? && s.clients[c].out.disconnected
    ensures var t := Run(s, es);
            c in t.clients && t.clients[c].phase.Open? && t.clients[c].out.disconnected && Registered(t.sched, c)
    decreases |es|
  {
    if es == [] {
      assert PhaseOk(s, c);
    } else {
      hide SysInv, Registered;
      StepKeeps(s, es[0]);
      OpenStays(s, es[0], c);
      FailedWriterStaysListed(Step(s, es[0]), es[1..], c);
    }
  }

  lemma OpenStays(s: Sys, e: Event, c: ClientId)
    requires c in s.clients && s.clients[c].phase.Open? && s.clients[c].out.disconnected
    ensures c in Step(s, e).clients && Step(s, e).clients[c].phase.Open? && Step(s, e).clients[c].out.disconnected
  {
    hide Dequeue, Remove, Register, Enqueue, CanSubmit, Drain;
  }

  /** close_client has marked the client disconnected. */
  predicate Gone(cl: Client) {
    cl.phase.Marked? || cl.phase.Removed? || cl.phase.Closed?
  }

  /** Whether the client is out of the pool's list for good. */
  predicate Out(cl: Client) {
    cl.phase.Removed? || cl.phase.Closed?
  }

  lemma GoneStep(s: Sys, e: Event, c: ClientId)
    requires SysInv(s) && c in s.clients && Gone(s.clients[c])
    ensures c in Step(s, e).clients
    ensures var a, b := s.clients[c], Step(s, e).clients[c];
            && Gone(b) && b.out.pipe.written == a.out.pipe.written && b.accepted == a.accepted && b.out.sent == a.out.sent
            && (Out(a) ==> Out(b) && b.calls == a.calls)
  {
    hide SysInv, Dequeue, Remove, Register, Enqueue, ItemsOf, Registered, Drain, LockStep, ValidSignal;
    PhaseOf(s, c);
    if e.Lock? && e.w < |s.workers| && s.workers[e.w].Ready? {
      LockGone(s, e.w, c);
    }
  }

  /** A worker never takes a request of a client that is out of the list. */
  lemma LockGone(s: Sys, w: nat, c: ClientId)
    requires SysInv(s) && c in s.clients && w < |s.workers|
    ensures c in LockStep(s, w).clients
    ensures var a, b := s.clients[c], LockStep(s, w).clients[c];
            b.(calls := a.calls) == a && (Out(a) ==> b.calls == a.calls)
  {
    hide ClientOk, Inv, Dequeue, ItemsOf, Registered;
    assert PhaseOk(s, c);
    if s.sched.pending > 0 {
      Fairness.ServedIsFirst(s.sched);
    }
  }

  /**
   * What closing does: from the moment close_client has marked a client, in every run,
   * nothing more is written to it and nothing accepted from it; once it is out of the
   * list no request of it reaches the handler, and it never comes back.
   */
  lemma {:induction false} ClosedForGood(s: Sys, es: seq<Event>, c: ClientId)
    requires SysInv(s) && c in s.clients && Gone(s.clients[c])
    ensures SysInv(Run(s, es)) && c in Run(s, es).clients
    ensures var a, b := s.clients[c], Run(s, es).clients[c];
            && b.out.pipe.written == a.out.pipe.written && b.accepted == a.accepted
            && (Out(a) ==> b.calls == a.calls && !Registered(Run(s, es).sched, c))
    ensures Gone(Run(s, es).clients[c]) && (Out(s.clients[c]) ==> Out(Run(s, es).clients[c]))
    decreases |es|
  {
    if es == [] {
      assert PhaseOk(s, c);
    } else {
      hide SysInv, Step, Registered;
      StepKeeps(s, es[0]);
      GoneStep(s, es[0], c);
      ClosedForGood(Step(s, es[0]), es[1..], c);
    }
  }

  /** What closing c still has to do. */
  function ClosingSteps(cl: Client, c: ClientId): seq<Event> {
    match cl.phase
    case Open => [CloseCheck(c), CloseMark(c), CloseRemove(c)]
    case Closing => [CloseMark(c), CloseRemove(c)]
    case Marked => [CloseRemove(c)]
    case _ => []
  }

  lemma {:induction false} ClosingRemoves(s: Sys, c: ClientId)
    requires SysInv(s) && c in s.clients && !(s.clients[c].phase.Open? && s.clients[c].out.disconnected)
    ensures !Registered(Run(s, ClosingSteps(s.clients[c], c)).sched, c)
    decreases |ClosingSteps(s.clients[c], c)|
  {
    hide SysInv, Registered, Remove, ItemsOf;
    var es := ClosingSteps(s.clients[c], c);
    if es == [] {
      assert PhaseOk(s, c) by { PhaseOf(s, c); }
    } else {
      StepKeeps(s, es[0]);
      ClosingRemoves(Step(s, es[0]), c);
      assert es[1..] == ClosingSteps(Step(s, es[0]).clients[c], c);
    }
  }

  lemma PhaseOf(s: Sys, c: ClientId)
    requires SysInv(s) && c in s.clients
    ensures PhaseOk(s, c)
  {
  }

  /** A client can still leave the pool's list, in some run, if and only if no failed write has disconnected it before it was closed. */
  lemma RemovableIff(s: Sys, c: ClientId)
    requires SysInv(s) && c in s.clients
    ensures (exists es :: !Registered(Run(s, es).sched, c)) <==> !(s.clients[c].phase.Open? && s.clients[c].out.disconnected)
  {
    hide SysInv, Registered, Run;
    if s.clients[c].phase.Open? && s.clients[c].out.disconnected {
      forall es ensures Registered(Run(s, es).sched, c) {
        FailedWriterStaysListed(s, es, c);
      }
    } else {
      ClosingRemoves(s, c);
    }
  }

  /** One worker and one client, which has these requests queued. */
  function Single(items: seq<Request>, worker: Worker, cl: Client): Sys {
    Sys(Sched([Queue(0, items)], 0, |items|), false, [worker], map[0 := cl])
  }

  lemma RunOne(s: Sys, e: Event, s': Sys, es: seq<Event>)
    requires Step(s, e) == s'
    ensures Run(s, [e] + es) == Run(s', es)
  {
    assert ([e] + es)[1..] == es;
  }

  lemma SingleAccept()
    ensures Step(Initial(1), Accept(0)) == Single([], Ready, NEW_CLIENT)
  {
    var s := Single([], Ready, NEW_CLIENT);
    assert Initial(1).workers == [Ready] && Register(Initial(1).sched, 0) == s.sched;
    assert Initial(1).clients[0 := NEW_CLIENT] == s.clients;
  }

  lemma SingleSubmit(cl: Client, line: string)
    requires !cl.out.disconnected
    ensures Step(Single([], Ready, cl), Submit(0, line, {}))
         == Single([Request(|cl.accepted|, line)], Ready, cl.(accepted := cl.accepted + [line]))
  {
    var s, r := Single([], Ready, cl), Request(|cl.accepted|, line);
    assert Enqueue(s.sched, 0, r) == Sched([Queue(0, [r])], 0, 1) by {
      assert Position(s.sched.queues, 0) == 0 && [] + [r] == [r];
    }
    assert Rouse(s.workers, {}) == s.workers;
    var cl' := cl.(accepted := cl.accepted + [line]);
    assert s.clients[0 := cl'] == map[0 := cl'];
  }

  lemma SingleLock(cl: Client, r: Request)
    ensures Step(Single([r], Ready, cl), Lock(0)) == Single([], Busy(0, r), cl.(calls := cl.calls + [r.seqNum]))
  {
    var s := Single([r], Ready, cl);
    assert Dequeue(s.sched) == (Some(Job(0, r)), Sched([Queue(0, [])], 0, 0)) by {
      assert Scan(s.sched.queues, 0, 1) == Some(0) && [r][1..] == [] && |s.sched.queues| == 1;
      assert s.sched.queues[0 := Queue(0, [])] == [Queue(0, [])];
      assert Pop(s.sched, 0) == Sched([Queue(0, [])], 0, 0);
    }
    var cl' := cl.(calls := cl.calls + [r.seqNum]);
    assert s.clients[0 := cl'] == map[0 := cl'];
  }

  lemma SingleFinish(cl: Client, r: Request, reply: string)
    ensures Step(Single([], Busy(0, r), cl), Finish(0, Some(reply)))
         == Single([], Replying(0, r.seqNum, reply), cl.(replies := cl.replies[r.seqNum := reply]))
  {
    var s, cl' := Single([], Busy(0, r), cl), cl.(replies := cl.replies[r.seqNum := reply]);
    assert s.clients[0 := cl'] == map[0 := cl'] && s.workers[0 := Replying(0, r.seqNum, reply)] == [Replying(0, r.seqNum, reply)];
  }

  /** The client once a reply has been delivered to it, its writes going as the script says. */
  function Delivered(cl: Client, k: nat, reply: string, script: seq<Answer>): Client {
    var before := cl.out.(pipe := cl.out.pipe.(script := script));
    var after := ReplyRing.Deliver(before, k, reply);
    cl.(out := after, discarded := cl.discarded + Lost(before, after, k))
  }

  lemma SingleDeliver(cl: Client, k: nat, reply: string, script: seq<Answer>)
    ensures Step(Single([], Replying(0, k, reply), cl), Deliver(0, script)) == Single([], Ready, Delivered(cl, k, reply, script))
  {
    hide ReplyRing.Deliver;
    var s, cl' := Single([], Replying(0, k, reply), cl), Delivered(cl, k, reply, script);
    assert s.clients[0 := cl'] == map[0 := cl'] && s.workers[0 := Ready] == [Ready];
  }

  /** The client once a request of it has been taken, and once it has been answered. */
  function Called(cl: Client, line: string): Client {
    cl.(accepted := cl.accepted + [line], calls := cl.calls + [|cl.accepted|])
  }

  function Answered(cl: Client, line: string, reply: string, script: seq<Answer>): Client {
    var called := Called(cl, line);
    Delivered(called.(replies := called.replies[|cl.accepted| := reply]), |cl.accepted|, reply, script)
  }

  lemma SingleTakes(cl: Client, line: string)
    requires !cl.out.disconnected
    ensures Run(Single([], Ready, cl), [Submit(0, line, {}), Lock(0)])
         == Single([], Busy(0, Request(|cl.accepted|, line)), Called(cl, line))
  {
    hide Step, Run;
    var r := Request(|cl.accepted|, line);
    SingleSubmit(cl, line);
    SingleLock(cl.(accepted := cl.accepted + [line]), r);
    var last := Single([], Busy(0, r), Called(cl, line));
    RunOne(Single([r], Ready, cl.(accepted := cl.accepted + [line])), Lock(0), last, []);
    RunOne(Single([], Ready, cl), Submit(0, line, {}), Single([r], Ready, cl.(accepted := cl.accepted + [line])), [Lock(0)]);
    RunNothing(last);
    assert [Lock(0)] + [] == [Lock(0)] && [Submit(0, line, {})] + [Lock(0)] == [Submit(0, line, {}), Lock(0)];
  }

  lemma SingleAnswers(cl: Client, line: string, reply: string, script: seq<Answer>)
    ensures Run(Single([], Busy(0, Request(|cl.accepted|, line)), Called(cl, line)), [Finish(0, Some(reply)), Deliver(0, script)])
         == Single([], Ready, Answered(cl, line, reply, script))
  {
    hide Step, Run, ReplyRing.Deliver;
    var k, r, called := |cl.accepted|, Request(|cl.accepted|, line), Called(cl, line);
    var replying := called.(replies := called.replies[k := reply]);
    SingleFinish(called, r, reply);
    SingleDeliver(replying, k, reply, script);
    var last := Single([], Ready, Answered(cl, line, reply, script));
    RunOne(Single([], Replying(0, k, reply), replying), Deliver(0, script), last, []);
    RunOne(Single([], Busy(0, r), called), Finish(0, Some(reply)), Single([], Replying(0, k, reply), replying), [Deliver(0, script)]);
    RunNothing(last);
    assert [Deliver(0, script)] + [] == [Deliver(0, script)];
    assert [Finish(0, Some(reply))] + [Deliver(0, script)] == [Finish(0, Some(reply)), Deliver(0, script)];
  }

  /** In order: the reply goes out whole, or the pipe breaks at once. */
  lemma DeliverNext(cl: Client, reply: string)
    requires !cl.out.disconnected && cl.out.open && cl.out.buffered == map[] && reply != []
    ensures var out := Delivered(cl, cl.out.sent, reply, []).out;
            !out.disconnected && out.open && out.buffered == map[] && out.sent == cl.out.sent + 1
    ensures Delivered(cl, cl.out.sent, reply, [Failed]).out.disconnected
  {
    var k := cl.out.sent;
    var whole := cl.out.(pipe := cl.out.pipe.(script := []), buffered := cl.out.buffered[k := reply]);
    var broken := cl.out.(pipe := cl.out.pipe.(script := [Failed]), buffered := cl.out.buffered[k := reply]);
    assert whole.buffered - {k} == map[] && [Failed][1..] == [];
    assert SendAll(whole.pipe, reply).1 && !SendAll(broken.pipe, reply).1;
    DrainStep(whole);
    DrainStep(broken);
    DrainStep(SentOne(whole, SendAll(whole.pipe, reply).0));
  }

  /** Such a client exists: its first reply meets a broken pipe. */
  lemma FailedWriterRun(line: string)
    ensures var s := Run(Initial(1), [Accept(0), Submit(0, line, {}), Lock(0), Finish(0, Some("-1\n")), Deliver(0, [Failed])]);
            0 in s.clients && s.clients[0].phase.Open? && s.clients[0].out.disconnected
  {
    hide Step, Run, Initial, ReplyRing.Deliver;
    SingleAccept();
    SingleTakes(NEW_CLIENT, line);
    SingleAnswers(NEW_CLIENT, line, "-1\n", [Failed]);
    var called := Called(NEW_CLIENT, line);
    DeliverNext(called.(replies := called.replies[0 := "-1\n"]), "-1\n");
    var first, second := [Submit(0, line, {}), Lock(0)], [Finish(0, Some("-1\n")), Deliver(0, [Failed])];
    RunOne(Initial(1), Accept(0), Single([], Ready, NEW_CLIENT), first + second);
    RunAppend(Single([], Ready, NEW_CLIENT), first, second);
    assert [Accept(0)] + (first + second)
        == [Accept(0), Submit(0, line, {}), Lock(0), Finish(0, Some("-1\n")), Deliver(0, [Failed])];
  }

  lemma {:induction false} RunAppend(s: Sys, a: seq<Event>, b: seq<Event>)
    ensures Run(s, a + b) == Run(Run(s, a), b)
    decreases |a|
  {
    if a == [] {
      assert a + b == b;
    } else {
      hide Step;
      assert (a + b)[0] == a[0] && (a + b)[1..] == a[1..] + b;
      RunAppend(Step(s, a[0]), a[1..], b);
    }
  }

  lemma RunNothing(s: Sys)
    ensures Run(s, []) == s
  {
  }

  // --------------------------------------------------- the window of the ring

  /** A reply of a connected client is refused exactly when it is 1024 or more ahead of the next one due. */
  lemma RefusedIffPastWindow(n: nat, es: seq<Event>, w: nat)
    ensures var s := Run(Initial(n), es);
            w < |s.workers| && s.workers[w].Replying? ==>
              s.workers[w].client in s.clients &&
              var o, k := s.clients[s.workers[w].client].out, s.workers[w].seqNum;
              !o.disconnected && o.open ==> (!Accepts(o, k) <==> k >= o.sent + 1024)
  {
    Reachable(n, es);
    var s := Run(Initial(n), es);
    if w < |s.workers| && s.workers[w].Replying? {
      var c, k := s.workers[w].client, s.workers[w].seqNum;
      var cl := s.clients[c];
      CountUpdate(s.workers, w, s.workers[w], Carries(c, k));
      assert Places(c, cl, ItemsOf(s.sched, c), s.workers, k) == One(k < |cl.accepted|);
    }
  }

  /** No request of c is queued or with a worker. */
  predicate Settled(s: Sys, c: ClientId) {
    ItemsOf(s.sched, c) == [] && forall w :: 0 <= w < |s.workers| ==> !Of(s.workers[w], c)
  }

  /**
   * Once all requests of a connected client have been worked off, every reply
   * has gone out and the ring is empty if and only if no reply was discarded.
   */
  lemma AllSentIffNoneDiscarded(n: nat, es: seq<Event>, c: ClientId)
    ensures var s := Run(Initial(n), es);
            c in s.clients && !s.clients[c].out.disconnected && Settled(s, c) ==>
              var cl := s.clients[c];
              (cl.out.sent == |cl.accepted| && cl.out.buffered == map[] <==> cl.discarded == {})
  {
    Reachable(n, es);
    var s := Run(Initial(n), es);
    if c in s.clients && !s.clients[c].out.disconnected && Settled(s, c) {
      SettledSent(s, c);
    }
  }

  lemma SettledSent(s: Sys, c: ClientId)
    requires SysInv(s) && c in s.clients && !s.clients[c].out.disconnected && Settled(s, c)
    ensures var cl := s.clients[c]; cl.out.sent == |cl.accepted| && cl.out.buffered == map[] <==> cl.discarded == {}
  {
    var cl := s.clients[c];
    forall k: nat ensures One(k in cl.out.buffered) + One(k < cl.out.sent) + One(k in cl.discarded) == One(k < |cl.accepted|) {
      CountZero(s.workers, Carries(c, k));
      assert Places(c, cl, ItemsOf(s.sched, c), s.workers, k) == One(k < |cl.accepted|);
    }
    if cl.discarded == {} {
      assert cl.out.sent >= |cl.accepted|;
      assert cl.out.sent > 0 ==> cl.out.sent - 1 < |cl.accepted|;
    } else {
      var k :| k in cl.discarded;
    }
  }

  /** Whenever the run has a submission of c accepted, fewer than `bound` of c's requests are unanswered. */
  predicate Paced(s: Sys, es: seq<Event>, c: ClientId, bound: nat)
    decreases |es|
  {
    es != [] ==>
      && (es[0].Submit? && es[0].c == c && CanSubmit(s, c) ==> |s.clients[c].accepted| - s.clients[c].out.sent < bound)
      && Paced(Step(s, es[0]), es[1..], c, bound)
  }

  predicate InStep(s: Sys, c: ClientId) {
    c in s.clients && !s.clients[c].out.disconnected ==>
      |s.clients[c].accepted| <= s.clients[c].out.sent + WINDOW && s.clients[c].discarded == {}
  }

  lemma DeliverInStep(s: Sys, w: nat, script: seq<Answer>, c: ClientId)
    requires SysInv(s) && InStep(s, c)
    requires w < |s.workers| && s.workers[w].Replying? && s.workers[w].client == c && c in s.clients
    ensures InStep(DeliverStep(s, w, script), c)
  {
    var cl, k := s.clients[c], s.workers[w].seqNum;
    CountUpdate(s.workers, w, s.workers[w], Carries(c, k));
    assert Places(c, cl, ItemsOf(s.sched, c), s.workers, k) == One(k < |cl.accepted|);
    var before := cl.out.(pipe := cl.out.pipe.(script := script));
    if Accepts(before, k) {
      DrainMoves(before.(buffered := before.buffered[k := s.workers[w].reply]));
    }
  }

  lemma StepInStep(s: Sys, e: Event, c: ClientId)
    requires SysInv(s) && InStep(s, c) && Paced(s, [e], c, 1024)
    ensures InStep(Step(s, e), c)
  {
    hide ClientOk, Inv, Dequeue;
    if e.Deliver? && e.w < |s.workers| && s.workers[e.w].Replying? && s.workers[e.w].client == c && c in s.clients {
      DeliverInStep(s, e.w, e.script, c);
    }
  }

  lemma {:induction false} RunInStep(s: Sys, es: seq<Event>, c: ClientId)
    requires SysInv(s) && InStep(s, c) && Paced(s, es, c, 1024)
    ensures SysInv(Run(s, es)) && InStep(Run(s, es), c)
    decreases |es|
  {
    if es != [] {
      hide SysInv, InStep, Step;
      StepKeeps(s, es[0]);
      assert Paced(s, [es[0]], c, 1024);
      StepInStep(s, es[0], c);
      RunInStep(Step(s, es[0]), es[1..], c);
    }
  }

  /**
   * Window-sufficient progress: if a client is never allowed 1024 unanswered
   * requests when it submits, no reply of it is discarded while it is connected,
   * and once its requests are worked off exactly their replies have been written.
   */
  lemma PacedClientLosesNothing(n: nat, es: seq<Event>, c: ClientId)
    requires Paced(Initial(n), es, c, 1024)
    ensures var s := Run(Initial(n), es);
            c in s.clients && !s.clients[c].out.disconnected ==>
              var cl := s.clients[c];
              && cl.discarded == {} && cl.removed == {}
              && (Settled(s, c) ==> cl.out.sent == |cl.accepted| && cl.out.buffered == map[]
                                    && (forall k :: 0 <= k < |cl.accepted| ==> k in cl.replies)
                                    && cl.out.pipe.written == Stream(cl.replies, |cl.accepted|))
  {
    InitialInv(n);
    RunInStep(Initial(n), es, c);
    var s := Run(Initial(n), es);
    if c in s.clients && !s.clients[c].out.disconnected && Settled(s, c) {
      SettledSent(s, c);
    }
  }

  // ---------------------------------------------------------------- fairness

  /** What a step does to the client list. */
  function OpsOf(s: Sys, e: Event): seq<Fairness.Op<ClientId>> {
    match e
    case Accept(c) => if c in s.clients then [] else [Fairness.Arrive(c)]
    case Submit(c, line, woken) =>
      if CanSubmit(s, c) && ValidSignal(s.workers, woken) then [Fairness.Put(c, Request(|s.clients[c].accepted|, line))] else []
    case Lock(w) => if w < |s.workers| && s.workers[w].Ready? && s.sched.pending > 0 then [Fairness.Take] else []
    case CloseRemove(c) => if c in s.clients && s.clients[c].phase.Marked? then [Fairness.Leave(c)] else []
    case _ => []
  }

  function Ops(s: Sys, es: seq<Event>): seq<Fairness.Op<ClientId>>
    decreases |es|
  {
    if es == [] then [] else OpsOf(s, es[0]) + Ops(Step(s, es[0]), es[1..])
  }

  function Calls(s: Sys, c: ClientId): nat {
    if c in s.clients then |s.clients[c].calls| else 0
  }

  /** One step of the system is that step of the schedule, and a client's calls grow exactly when it is served. */
  lemma StepProjects(s: Sys, e: Event, c: ClientId)
    requires SysInv(s)
    ensures Step(s, e).sched == Fairness.Run(s.sched, OpsOf(s, e))
    ensures Calls(Step(s, e), c) == Calls(s, c) + Fairness.TimesServed(s.sched, OpsOf(s, e), c)
  {
    hide ClientOk, Inv, Dequeue, Remove, Register, Enqueue;
    var ops := OpsOf(s, e);
    if ops != [] {
      assert ops == [ops[0]] && ops[1..] == [];
    }
    if e.Lock? && e.w < |s.workers| && s.workers[e.w].Ready? && s.sched.pending > 0 {
      TakeProjects(s, e.w, c);
      assert ops == [Fairness.Take];
    }
  }

  lemma TakeProjects(s: Sys, w: nat, c: ClientId)
    requires SysInv(s) && w < |s.workers| && s.workers[w].Ready? && s.sched.pending > 0
    ensures LockStep(s, w).sched == Dequeue(s.sched).1
    ensures Calls(LockStep(s, w), c) == Calls(s, c) + One(Fairness.Serves(s.sched, Fairness.Take, c))
  {
    hide ClientOk, Inv, Dequeue, ItemsOf;
    Fairness.ServedIsFirst(s.sched);
  }

  lemma {:induction false} OpsAppend(s: Sched<ClientId>, a: seq<Fairness.Op<ClientId>>, b: seq<Fairness.Op<ClientId>>, c: ClientId)
    ensures Fairness.Run(s, a + b) == Fairness.Run(Fairness.Run(s, a), b)
    ensures Fairness.TimesServed(s, a + b, c) == Fairness.TimesServed(s, a, c) + Fairness.TimesServed(Fairness.Run(s, a), b, c)
    decreases |a|
  {
    if a == [] {
      assert a + b == b;
    } else {
      assert (a + b)[1..] == a[1..] + b;
      OpsAppend(Fairness.Apply(s, a[0]), a[1..], b, c);
    }
  }

  /** Every run of the system runs the schedule. */
  lemma {:induction false} RunProjects(s: Sys, es: seq<Event>, c: ClientId)
    requires SysInv(s)
    ensures Run(s, es).sched == Fairness.Run(s.sched, Ops(s, es))
    ensures Calls(Run(s, es), c) == Calls(s, c) + Fairness.TimesServed(s.sched, Ops(s, es), c)
    decreases |es|
  {
    if es != [] {
      hide SysInv, Step, OpsOf;
      StepProjects(s, es[0], c);
      StepKeeps(s, es[0]);
      RunProjects(Step(s, es[0]), es[1..], c);
      OpsAppend(s.sched, OpsOf(s, es[0]), Ops(Step(s, es[0]), es[1..]), c);
    }
  }

  /**
   * Bounded fairness of the pool: from any reachable state, a client with a
   * queued request that is not removed gets a request handed to a worker before
   * the requests taken by workers outnumber the queues ahead of it plus the
   * clients that join.
   */
  lemma PoolIsFair(n: nat, past: seq<Event>, es: seq<Event>, c: ClientId)
    ensures var s := Run(Initial(n), past);
            && SysInv(s)
            && (Fairness.Backlogged(s.sched, c) && Fairness.Leave(c) !in Ops(s, es)
                && Fairness.Takes(Ops(s, es)) > Fairness.Distance(s.sched, c) + Fairness.Joinings(s.sched, Ops(s, es))
                ==> Calls(Run(s, es), c) > Calls(s, c))
  {
    Reachable(n, past);
    var s := Run(Initial(n), past);
    if Fairness.Backlogged(s.sched, c) && Fairness.Leave(c) !in Ops(s, es)
       && Fairness.Takes(Ops(s, es)) > Fairness.Distance(s.sched, c) + Fairness.Joinings(s.sched, Ops(s, es)) {
      Fairness.ServedInTime(s.sched, Ops(s, es), c);
      RunProjects(s, es, c);
    }
  }

  /** No other client, already known, gets two requests handed out while c waits for one. */
  lemma {:induction false} PoolServesNoOneTwice(n: nat, past: seq<Event>, es: seq<Event>, c: ClientId, d: ClientId)
    ensures var s := Run(Initial(n), past);
            Fairness.Backlogged(s.sched, c) && c != d && d in s.clients && Fairness.Leave(c) !in Ops(s, es)
            && Calls(Run(s, es), c) == Calls(s, c)
            ==> Calls(Run(s, es), d) <= Calls(s, d) + 1
  {
    Reachable(n, past);
    var s := Run(Initial(n), past);
    if Fairness.Backlogged(s.sched, c) && c != d && d in s.clients && Fairness.Leave(c) !in Ops(s, es)
       && Calls(Run(s, es), c) == Calls(s, c) {
      RunProjects(s, es, c);
      RunProjects(s, es, d);
      KnownNeverJoins(s, es, d);
      Fairness.NotServedTwice(s.sched, Ops(s, es), c, d);
    }
  }

  lemma {:induction false} KnownNeverJoins(s: Sys, es: seq<Event>, d: ClientId)
    requires d in s.clients
    ensures Fairness.Arrive(d) !in Ops(s, es)
    decreases |es|
  {
    if es != [] {
      hide Dequeue, Remove, Register, Enqueue;
      KnownNeverJoins(Step(s, es[0]), es[1..], d);
    }
  }

  // ---------------------------------------------------------------- shutdown

  function Weight(w: Worker): nat {
    match w
    case Ready => 1
    case Asleep => 1
    case Busy(_, _) => 3
    case Replying(_, _, _) => 2
    case Exited => 0
  }

  function Weights(ws: seq<Worker>): nat {
    if ws == [] then 0 else Weight(ws[0]) + Weights(ws[1..])
  }

  /** What the workers still have to do before all are gone. */
  function WorkLeft(s: Sys): nat {
    3 * s.sched.pending + Weights(s.workers)
  }

  lemma {:induction false} WeightsUpdate(ws: seq<Worker>, w: nat, x: Worker)
    requires w < |ws|
    ensures Weights(ws[w := x]) == Weights(ws) - Weight(ws[w]) + Weight(x)
  {
    if w == 0 {
      assert ws[w := x][1..] == ws[1..];
    } else {
      assert ws[w := x][1..] == ws[1..][w - 1 := x];
      WeightsUpdate(ws[1..], w - 1, x);
    }
  }

  predicate WorkerEvent(e: Event) {
    e.Lock? || e.Finish? || e.Deliver?
  }

  /** During shutdown every worker step uses up work, and nothing else adds any. */
  lemma ShutdownStep(s: Sys, e: Event)
    requires SysInv(s) && s.shutting
    ensures Step(s, e).shutting
    ensures WorkLeft(Step(s, e)) <= WorkLeft(s)
    ensures WorkerEvent(e) && Step(s, e) != s ==> WorkLeft(Step(s, e)) < WorkLeft(s)
  {
    hide ClientOk, Inv, Dequeue, Position, Remove, Register, ReplyRing.Deliver;
    SomeoneAsleep(s.workers);
    match e
    case Accept(c) => if c !in s.clients { RegisterPending(s.sched, c); }
    case Lock(w) =>
      if w < |s.workers| && s.workers[w].Ready? { LockUsesWork(s, w); }
    case Finish(w, result) => if w < |s.workers| { WeightsUpdate(s.workers, w, Step(s, e).workers[w]); }
    case Deliver(w, script) => if w < |s.workers| { WeightsUpdate(s.workers, w, Step(s, e).workers[w]); }
    case CloseRemove(c) => RemoveInv(s.sched, c);
    case Shutdown => assert Step(s, e).workers == s.workers;
    case _ =>
  }

  lemma LockUsesWork(s: Sys, w: nat)
    requires SysInv(s) && s.shutting && w < |s.workers| && s.workers[w].Ready?
    ensures LockStep(s, w).shutting && WorkLeft(LockStep(s, w)) < WorkLeft(s)
  {
    hide ClientOk, Inv, Dequeue, ItemsOf;
    if s.sched.pending > 0 {
      LockTakesKeeps(s, w);
      DequeuePending(s.sched);
      Fairness.ServedIsFirst(s.sched);
    }
    WeightsUpdate(s.workers, w, LockStep(s, w).workers[w]);
  }

  lemma RegisterPending(s: Sched<ClientId>, c: ClientId)
    ensures Register(s, c).pending == s.pending
  {
  }

  /** How many worker steps of a run did something. */
  function WorkerSteps(s: Sys, es: seq<Event>): nat
    decreases |es|
  {
    if es == [] then 0
    else One(WorkerEvent(es[0]) && Step(s, es[0]) != s) + WorkerSteps(Step(s, es[0]), es[1..])
  }

  /** After shutdown begins, only so many worker steps are possible in any run. */
  lemma {:induction false} DrainIsBounded(s: Sys, es: seq<Event>)
    requires SysInv(s) && s.shutting
    ensures WorkerSteps(s, es) + WorkLeft(Run(s, es)) <= WorkLeft(s)
    ensures SysInv(Run(s, es)) && Run(s, es).shutting
    decreases |es|
  {
    if es != [] {
      hide SysInv, Step, WorkLeft;
      ShutdownStep(s, es[0]);
      StepKeeps(s, es[0]);
      DrainIsBounded(Step(s, es[0]), es[1..]);
    }
  }

  /** The next step of a worker, given that handlers return. */
  function NextMove(s: Sys, w: nat): Event
    requires w < |s.workers|
  {
    match s.workers[w]
    case Busy(_, _) => Finish(w, None)
    case Replying(_, _, _) => Deliver(w, [])
    case _ => Lock(w)
  }

  /** While a worker lives during shutdown, it can take a step. */
  lemma DrainNeverStuck(s: Sys, w: nat)
    requires SysInv(s) && s.shutting && w < |s.workers| && !s.workers[w].Exited?
    ensures WorkerEvent(NextMove(s, w)) && WorkLeft(Step(s, NextMove(s, w))) < WorkLeft(s)
  {
    hide ClientOk, Inv, Dequeue, Position, Remove, Register, ReplyRing.Deliver;
    SomeoneAsleep(s.workers);
    var e := NextMove(s, w);
    if s.workers[w].Ready? && s.sched.pending > 0 {
      LockTakesKeeps(s, w);
    }
    assert Step(s, e).workers[w] != s.workers[w];
    ShutdownStep(s, e);
  }

  /** From any moment of a shutdown on, the workers' own steps can bring all of them to their exit. */
  lemma {:induction false} DrainFinishes(s: Sys) returns (es: seq<Event>)
    requires SysInv(s) && s.shutting
    ensures forall i :: 0 <= i < |es| ==> WorkerEvent(es[i])
    ensures forall w :: 0 <= w < |Run(s, es).workers| ==> Run(s, es).workers[w].Exited?
    decreases WorkLeft(s)
  {
    hide SysInv, Step, WorkLeft;
    if w: nat :| w < |s.workers| && !s.workers[w].Exited? {
      var e := NextMove(s, w);
      DrainNeverStuck(s, w);
      ShutdownStep(s, e);
      StepKeeps(s, e);
      var rest := DrainFinishes(Step(s, e));
      es := [e] + rest;
      RunOne(s, e, Step(s, e), rest);
    } else {
      es := [];
    }
  }

  /**
   * Shutting down is final and wakes everybody: in every run after it the pool stays
   * shutting down, nobody sleeps, and no further line is accepted.
   */
  lemma {:induction false} ShutdownIsFinal(s: Sys, es: seq<Event>)
    requires SysInv(s)
    ensures var t := Run(Step(s, Shutdown), es);
            && SysInv(t) && t.shutting && (forall w :: 0 <= w < |t.workers| ==> !t.workers[w].Asleep?)
            && (forall c :: c in s.clients ==> c in t.clients && t.clients[c].accepted == s.clients[c].accepted)
  {
    hide SysInv, Run;
    StepKeeps(s, Shutdown);
    assert Step(s, Shutdown).shutting && Step(s, Shutdown).clients == s.clients;
    ShuttingRun(Step(s, Shutdown), es);
    AwakeInShutdown(Run(Step(s, Shutdown), es));
  }

  lemma AwakeInShutdown(s: Sys)
    requires SysInv(s) && s.shutting
    ensures forall w :: 0 <= w < |s.workers| ==> !s.workers[w].Asleep?
  {
    SomeoneAsleep(s.workers);
  }

  lemma {:induction false} ShuttingRun(s: Sys, es: seq<Event>)
    requires SysInv(s) && s.shutting
    ensures SysInv(Run(s, es)) && Run(s, es).shutting
    ensures forall c :: c in s.clients ==> c in Run(s, es).clients && Run(s, es).clients[c].accepted == s.clients[c].accepted
    decreases |es|
  {
    if es != [] {
      hide SysInv, Step;
      StepKeeps(s, es[0]);
      ShuttingStep(s, es[0]);
      ShuttingRun(Step(s, es[0]), es[1..]);
    }
  }

  lemma ShuttingStep(s: Sys, e: Event)
    requires s.shutting
    ensures Step(s, e).shutting
    ensures forall c :: c in s.clients ==> c in Step(s, e).clients && Step(s, e).clients[c].accepted == s.clients[c].accepted
  {
    hide Dequeue, Remove, Register, Enqueue, ReplyRing.Deliver;
  }

  /**
   * Shutdown drains: when all workers have exited, every queue is empty, and each
   * accepted request was either removed with its client or handed to the handler,
   * exactly once (calls are strictly increasing).
   */
  lemma DrainIsComplete(n: nat, es: seq<Event>)
    requires n > 0
    ensures var s := Run(Initial(n), es);
            (forall w :: 0 <= w < |s.workers| ==> s.workers[w].Exited?) ==>
              && s.shutting
              && (forall c :: c in s.clients ==>
                    && ItemsOf(s.sched, c) == []
                    && Increasing(s.clients[c].calls)
                    && forall k :: 0 <= k < |s.clients[c].accepted| ==> (k in s.clients[c].calls <==> k !in s.clients[c].removed))
  {
    Reachable(n, es);
    WorkersStay(Initial(n), es);
    var s := Run(Initial(n), es);
    if forall w :: 0 <= w < |s.workers| ==> s.workers[w].Exited? {
      assert s.workers[0].Exited?;
      TotalPositive(s.sched.queues);
      forall c | c in s.clients ensures ItemsOf(s.sched, c) == [] {
      }
    }
  }

  lemma {:induction false} WorkersStay(s: Sys, es: seq<Event>)
    ensures |Run(s, es).workers| == |s.workers|
    decreases |es|
  {
    if es != [] {
      WorkersStay(Step(s, es[0]), es[1..]);
    }
  }
}
