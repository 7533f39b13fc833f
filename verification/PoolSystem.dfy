/**
 * The worker pool as a step system: one step per critical section. The main
 * thread accepts clients, submits lines and closes clients; workers take the
 * pool mutex, run the handler and deliver replies in any interleaving. What the
 * environment decides (who is woken, what the handler answers, how writes are
 * split) is part of the event, so a run is a sequence of events.
 */
module PoolSystem {
  import opened Sequences
  import opened Schedule
  import opened ReplyRing

  type ClientId = nat

  datatype Worker =
    | Ready                                              // about to take the pool mutex
    | Asleep                                             // in pthread_cond_wait
    | Busy(client: ClientId, request: Request)           // inside the handler
    | Replying(client: ClientId, seqNum: nat, reply: string) // about to take the output mutex
    | Exited

  /** How far close_client has come. */
  datatype Phase = Open | Closing | Marked | Removed | Closed

  /**
   * accepted: the submitted lines in order, so its length is requests_received;
   * calls: the numbers handed to the handler, in that order; replies: what it
   * answered; removed: numbers still queued when the client was removed;
   * discarded: numbers whose reply was thrown away.
   */
  datatype Client = Client(accepted: seq<string>, out: Output, calls: seq<nat>, replies: map<nat, string>,
                           removed: set<nat>, discarded: set<nat>, phase: Phase)

  datatype Sys = Sys(sched: Sched<ClientId>, shutting: bool, workers: seq<Worker>, clients: map<ClientId, Client>)

  datatype Event =
    | Accept(c: ClientId)
    | Submit(c: ClientId, line: string, woken: set<nat>)
    | Lock(w: nat)
    | Wake(w: nat)
    | Finish(w: nat, result: Option<string>)
    | Deliver(w: nat, script: seq<Answer>)
    | CloseCheck(c: ClientId)
    | CloseMark(c: ClientId)
    | CloseRemove(c: ClientId)
    | CloseFds(c: ClientId)
    | Shutdown

  const NEW_CLIENT: Client := Client([], FRESH, [], map[], {}, {}, Open)

  // ------------------------------------------------------------------ steps

  /** Sleepers in `woken` leave the condition variable. */
  function Rouse(ws: seq<Worker>, woken: set<nat>): (r: seq<Worker>)
    ensures |r| == |ws|
    ensures forall i :: 0 <= i < |ws| ==> r[i] == if ws[i].Asleep? && i in woken then Ready else ws[i]
  {
    seq(|ws|, i requires 0 <= i < |ws| => if ws[i].Asleep? && i in woken then Ready else ws[i])
  }

  /** pthread_cond_broadcast: every sleeper leaves the condition variable. */
  function Broadcast(ws: seq<Worker>): (r: seq<Worker>)
    ensures |r| == |ws|
    ensures forall i :: 0 <= i < |ws| ==> r[i] == if ws[i].Asleep? then Ready else ws[i]
  {
    seq(|ws|, i requires 0 <= i < |ws| => if ws[i].Asleep? then Ready else ws[i])
  }

  /** pthread_cond_signal wakes at least one sleeper if there is one. */
  predicate ValidSignal(ws: seq<Worker>, woken: set<nat>) {
    (exists i :: 0 <= i < |ws| && ws[i].Asleep?) ==> exists i :: 0 <= i < |ws| && ws[i].Asleep? && i in woken
  }

  function Step(s: Sys, e: Event): Sys {
    match e
    case Accept(c) =>
      if c in s.clients then s
      else s.(sched := Register(s.sched, c), clients := s.clients[c := NEW_CLIENT])
    case Submit(c, line, woken) =>
      if CanSubmit(s, c) && ValidSignal(s.workers, woken) then SubmitStep(s, c, line, woken) else s
    case Lock(w) =>
      if w < |s.workers| && s.workers[w].Ready? then LockStep(s, w) else s
    case Wake(w) =>
      if w < |s.workers| && s.workers[w].Asleep? then s.(workers := s.workers[w := Ready]) else s
    case Finish(w, result) =>
      if w < |s.workers| && s.workers[w].Busy? && s.workers[w].client in s.clients then FinishStep(s, w, result) else s
    case Deliver(w, script) =>
      if w < |s.workers| && s.workers[w].Replying? && s.workers[w].client in s.clients then DeliverStep(s, w, script) else s
    case CloseCheck(c) =>
      if c in s.clients && s.clients[c].phase.Open? && !s.clients[c].out.disconnected
      then s.(clients := s.clients[c := s.clients[c].(phase := Closing)]) else s
    case CloseMark(c) =>
      if c in s.clients && s.clients[c].phase.Closing?
      then s.(clients := s.clients[c := s.clients[c].(phase := Marked, out := s.clients[c].out.(disconnected := true))]) else s
    case CloseRemove(c) =>
      if c in s.clients && s.clients[c].phase.Marked? then RemoveStep(s, c) else s
    case CloseFds(c) =>
      if c in s.clients && s.clients[c].phase.Removed?
      then s.(clients := s.clients[c := s.clients[c].(phase := Closed, out := s.clients[c].out.(open := false))]) else s
    case Shutdown =>
      s.(shutting := true, workers := Broadcast(s.workers))
  }

  predicate CanSubmit(s: Sys, c: ClientId) {
    !s.shutting && Registered(s.sched, c) && c in s.clients && !s.clients[c].out.disconnected
  }

  function SubmitStep(s: Sys, c: ClientId, line: string, woken: set<nat>): Sys
    requires c in s.clients
  {
    var cl := s.clients[c];
    s.(sched := Enqueue(s.sched, c, Request(|cl.accepted|, line)),
       clients := s.clients[c := cl.(accepted := cl.accepted + [line])],
       workers := Rouse(s.workers, woken))
  }

  /** One pass of the worker loop under the pool mutex. */
  function LockStep(s: Sys, w: nat): Sys
    requires w < |s.workers|
  {
    if s.sched.pending == 0 then
      s.(workers := s.workers[w := if s.shutting then Exited else Asleep])
    else
      match Dequeue(s.sched)
      case (None, _) => s
      case (Some(Job(c, r)), sched) =>
        if c !in s.clients then s
        else
          var cl := s.clients[c];
          s.(sched := sched, workers := s.workers[w := Busy(c, r)],
             clients := s.clients[c := cl.(calls := cl.calls + [r.seqNum])])
  }

  /** A handler that returns NULL is answered for with "-1". */
  function FinishStep(s: Sys, w: nat, result: Option<string>): Sys
    requires w < |s.workers| && s.workers[w].Busy? && s.workers[w].client in s.clients
  {
    var (c, k) := (s.workers[w].client, s.workers[w].request.seqNum);
    var reply := if result.Some? then result.value else "-1\n";
    var cl := s.clients[c];
    s.(workers := s.workers[w := Replying(c, k, reply)], clients := s.clients[c := cl.(replies := cl.replies[k := reply])])
  }

  /** The numbers a delivery loses: a refused reply, or the one a failed write cut short. */
  function Lost(before: Output, after: Output, k: nat): set<nat> {
    if !Accepts(before, k) then {k} else if after.disconnected then {after.sent} else {}
  }

  function DeliverStep(s: Sys, w: nat, script: seq<Answer>): Sys
    requires w < |s.workers| && s.workers[w].Replying? && s.workers[w].client in s.clients
  {
    var Replying(c, k, reply) := s.workers[w];
    var cl := s.clients[c];
    var before := cl.out.(pipe := cl.out.pipe.(script := script));
    var after := ReplyRing.Deliver(before, k, reply);
    s.(workers := s.workers[w := Ready],
       clients := s.clients[c := cl.(out := after, discarded := cl.discarded + Lost(before, after, k))])
  }

  function RemoveStep(s: Sys, c: ClientId): Sys
    requires c in s.clients
  {
    var cl := s.clients[c];
    s.(sched := Remove(s.sched, c),
       clients := s.clients[c := cl.(phase := Removed, removed := cl.removed + set r | r in ItemsOf(s.sched, c) :: r.seqNum)])
  }

  function Run(s: Sys, es: seq<Event>): Sys
    decreases |es|
  {
    if es == [] then s else Run(Step(s, es[0]), es[1..])
  }

  function Initial(n: nat): Sys {
    Sys(Sched([], 0, 0), false, seq(n, _ => Ready), map[])
  }

  // ------------------------------------------------- where a request can be

  function Numbered(k: nat): Request -> bool {
    (r: Request) => r.seqNum == k
  }

  function Carries(c: ClientId, k: nat): Worker -> bool {
    (w: Worker) => (w.Busy? && w.client == c && w.request.seqNum == k) || (w.Replying? && w.client == c && w.seqNum == k)
  }

  function IsReady(): Worker -> bool { (w: Worker) => w.Ready? }

  function IsAsleep(): Worker -> bool { (w: Worker) => w.Asleep? }

  function One(b: bool): nat { if b then 1 else 0 }

  /** In how many places request k of client c is. */
  function Places(c: ClientId, cl: Client, items: seq<Request>, ws: seq<Worker>, k: nat): nat {
    CountIf(items, Numbered(k)) + CountIf(ws, Carries(c, k)) + One(k in cl.out.buffered) + One(k < cl.out.sent)
    + One(k in cl.removed) + One(k in cl.discarded)
  }

  // ------------------------------------------------------------ invariants

  /** Every accepted number is in exactly one place, no other number is anywhere. */
  ghost predicate Placed(c: ClientId, cl: Client, items: seq<Request>, ws: seq<Worker>) {
    forall k: nat :: Places(c, cl, items, ws, k) == One(k < |cl.accepted|)
  }

  ghost predicate Increasing(ks: seq<nat>) {
    forall i, j :: 0 <= i < j < |ks| ==> ks[i] < ks[j]
  }

  /** Queued requests are the accepted lines, in increasing order, all after the ones already handed out. */
  ghost predicate QueueOk(cl: Client, items: seq<Request>) {
    && (forall i :: 0 <= i < |items| ==> items[i].seqNum < |cl.accepted| && items[i].line == cl.accepted[items[i].seqNum])
    && (forall i, j :: 0 <= i < j < |items| ==> items[i].seqNum < items[j].seqNum)
    && (forall i, k :: 0 <= i < |items| && k in cl.calls ==> k < items[i].seqNum)
    && Increasing(cl.calls)
  }

  /** Work in flight agrees with the logs. */
  ghost predicate FlightOk(c: ClientId, cl: Client, ws: seq<Worker>) {
    && (forall w :: 0 <= w < |ws| && ws[w].Busy? && ws[w].client == c ==>
          var r := ws[w].request;
          r.seqNum < |cl.accepted| && r.line == cl.accepted[r.seqNum] && r.seqNum in cl.calls && r.seqNum !in cl.replies)
    && (forall w :: 0 <= w < |ws| && ws[w].Replying? && ws[w].client == c ==>
          ws[w].seqNum in cl.replies && cl.replies[ws[w].seqNum] == ws[w].reply)
  }

  /** Each accepted number was handed to the handler, was removed, or is still queued; replies come from calls. */
  ghost predicate CallsOk(cl: Client, items: seq<Request>) {
    && (forall k: nat :: k < |cl.accepted| ==> k in cl.calls || k in cl.removed || exists i :: 0 <= i < |items| && items[i].seqNum == k)
    && (forall k :: k in cl.calls ==> k < |cl.accepted| && k !in cl.removed)
    && (forall k :: k in cl.replies ==> k in cl.calls)
  }

  ghost predicate ClientOk(c: ClientId, cl: Client, items: seq<Request>, ws: seq<Worker>) {
    && Placed(c, cl, items, ws)
    && QueueOk(cl, items)
    && FlightOk(c, cl, ws)
    && CallsOk(cl, items)
    && OutputInv(cl.out)
    && Wrote(cl.out, cl.replies)
  }

  /** A removed client is out of the list, a marked one is disconnected, and only closed ones have closed pipes. */
  predicate PhaseOk(s: Sys, c: ClientId)
    requires c in s.clients
  {
    var cl := s.clients[c];
    && (cl.phase.Removed? || cl.phase.Closed? <==> !Registered(s.sched, c))
    && (!cl.phase.Open? && !cl.phase.Closing? ==> cl.out.disconnected)
    && (!cl.phase.Closed? ==> cl.out.open)
    && (cl.removed != {} ==> cl.out.disconnected)
  }

  /** No lost wakeup: while someone sleeps, at most as much is pending as awake idle workers will take. */
  predicate WakeupOk(s: Sys) {
    CountIf(s.workers, IsAsleep()) > 0 ==> !s.shutting && s.sched.pending <= CountIf(s.workers, IsReady())
  }

  /** Workers leave only during shutdown and only once nothing is pending. */
  predicate ExitOk(s: Sys) {
    forall w :: 0 <= w < |s.workers| && s.workers[w].Exited? ==> s.shutting && s.sched.pending == 0
  }

  predicate WorkersKnown(s: Sys) {
    forall w :: 0 <= w < |s.workers| && (s.workers[w].Busy? || s.workers[w].Replying?) ==> s.workers[w].client in s.clients
  }

  ghost predicate SysInv(s: Sys) {
    && Inv(s.sched)
    && (forall c :: Registered(s.sched, c) ==> c in s.clients)
    && WorkersKnown(s)
    && WakeupOk(s)
    && ExitOk(s)
    && (forall c :: c in s.clients ==> PhaseOk(s, c))
    && (forall c :: c in s.clients ==> ClientOk(c, s.clients[c], ItemsOf(s.sched, c), s.workers))
  }
}
