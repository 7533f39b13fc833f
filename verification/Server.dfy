/**
 * The pool and the canvases together: every request handler runs on a pool worker
 * for one client, a Login names the client's user, and close_client takes that
 * user off the canvases.
 */
module Server {
  import opened Auth
  import opened Sequences
  import opened Store
  import opened Meeting
  import B = BarrierSystem
  import opened BarrierInvariant
  import P = PoolSystem
  import PoolInvariant
  import PoolTheorems
  import Schedule
  import Fairness
  import ReplyRing
  import opened BarrierTheorems

  /** users: whom each client is logged in as; a client that is not logged in has no entry. */
  datatype Server = Server(pool: P.Sys, world: B.World, users: map<P.ClientId, string>)

  /**
   * Pool: a step of the pool other than the beginning of close_client; Handle: a
   * critical section of a handler; Login: a Login request that succeeds, the
   * client's first or a later one; Close: close_client up to the pool's part.
   */
  datatype Move = Pool(e: P.Event) | Handle(t: nat, part: B.Event) | Login(t: nat, name: string) | Close(c: P.ClientId)

  /** The handler on worker t is at work for a client. */
  predicate Works(s: Server, t: nat) {
    t < |s.pool.workers| && s.pool.workers[t].Busy?
  }

  function ClientOf(s: Server, t: nat): P.ClientId
    requires Works(s, t)
  {
    s.pool.workers[t].client
  }

  predicate IsUser(s: Server, c: P.ClientId, user: string) {
    c in s.users && s.users[c] == user
  }

  /** The event can be the next part of the request on worker t: a request begins as its client's user, and goes on as the user it began with. */
  predicate Serves(s: Server, t: nat, e: B.Event) {
    && Works(s, t) && B.Enabled(s.world, e)
    && match e
       case Disconnect(worker, user) => worker == Some(t) && IsUser(s, ClientOf(s, t), user)
       case Record(k, _) => k == t
       case Frame(k, _, _) => k == t
       case Stop(k) => k == t
       case Resume(k) => k == t
       case _ => e.t == t && IsUser(s, ClientOf(s, t), e.user)
  }

  /** A handler returns once its request has come to an end. */
  predicate MayFinish(s: Server, e: P.Event) {
    e.Finish? ==> B.Free(s.world, e.w)
  }

  /** close_client does something only for a client that is not disconnected. */
  predicate Closes(s: Server, c: P.ClientId) {
    c in s.pool.clients && s.pool.clients[c].phase.Open? && !s.pool.clients[c].out.disconnected
  }

  predicate LogsIn(s: Server, t: nat, name: string) {
    Works(s, t) && B.Free(s.world, t) && ValidUsername(name)
  }

  /** What a move does to the canvases, if anything. */
  function Part(s: Server, m: Move): Option<B.Event> {
    match m
    case Handle(t, part) => if Serves(s, t, part) then Some(part) else None
    case Close(c) => if Closes(s, c) && c in s.users then Some(B.Disconnect(None, s.users[c])) else None
    case _ => None
  }

  function WorldAfter(s: Server, m: Move): B.World {
    if Part(s, m).Some? then B.Step(s.world, Part(s, m).value) else s.world
  }

  function PoolAfter(s: Server, m: Move): P.Sys {
    match m
    case Pool(e) => if e.CloseCheck? || !MayFinish(s, e) then s.pool else P.Step(s.pool, e)
    case Close(c) => if Closes(s, c) then P.Step(s.pool, P.CloseCheck(c)) else s.pool
    case _ => s.pool
  }

  /** A Login names the client's user; a Disconnect request and close_client log it out. */
  function UsersAfter(s: Server, m: Move): map<P.ClientId, string> {
    match m
    case Handle(t, part) => if Serves(s, t, part) && part.Disconnect? then s.users - {ClientOf(s, t)} else s.users
    case Login(t, name) => if LogsIn(s, t, name) then s.users[ClientOf(s, t) := name] else s.users
    case Close(c) => if Closes(s, c) then s.users - {c} else s.users
    case _ => s.users
  }

  function Step(s: Server, m: Move): Server {
    Server(PoolAfter(s, m), WorldAfter(s, m), UsersAfter(s, m))
  }

  function Run(s: Server, ms: seq<Move>): Server
    decreases |ms|
  {
    if ms == [] then s else Run(Step(s, ms[0]), ms[1..])
  }

  /** n workers, nobody connected. */
  function Start(n: nat): Server {
    Server(P.Initial(n), B.Initial(n), map[])
  }

  ghost predicate Sane(s: Server) {
    P.SysInv(s.pool) && WorldInv(s.world)
  }

  lemma SaneStep(s: Server, m: Move)
    requires Sane(s)
    ensures Sane(Step(s, m))
  {
    hide P.SysInv, WorldInv, P.Step, B.Step, Part;
    if Part(s, m).Some? {
      StepKeeps(s.world, Part(s, m).value);
    }
    if m.Pool? {
      PoolInvariant.StepKeeps(s.pool, m.e);
    } else if m.Close? {
      PoolInvariant.StepKeeps(s.pool, P.CloseCheck(m.c));
    }
  }

  lemma {:induction false} SaneRun(s: Server, ms: seq<Move>)
    requires Sane(s)
    ensures Sane(Run(s, ms))
    decreases |ms|
  {
    if ms != [] {
      hide Sane, Step;
      SaneStep(s, ms[0]);
      SaneRun(Step(s, ms[0]), ms[1..]);
    }
  }

  lemma AlwaysSane(n: nat, ms: seq<Move>)
    ensures Sane(Run(Start(n), ms))
  {
    hide P.SysInv, WorldInv, Run;
    PoolInvariant.InitialInv(n);
    AlwaysInv(n, []);
    InitialWorld(n);
    SaneRun(Start(n), ms);
  }

  lemma InitialWorld(n: nat)
    ensures B.Run(B.Initial(n), []) == B.Initial(n)
  {
  }

  // ------------------------------------------------ handlers run on busy workers

  /** A handler in the middle of a request has its worker busy. */
  predicate Coupled(s: Server) {
    && |s.world.threads| == |s.pool.workers|
    && forall t :: 0 <= t < |s.pool.workers| && !s.world.threads[t].Idle? ==> s.pool.workers[t].Busy?
  }

  lemma BusyStays(s: P.Sys, e: P.Event, t: nat)
    requires t < |s.workers| && s.workers[t].Busy? && !(e.Finish? && e.w == t)
    ensures |P.Step(s, e).workers| == |s.workers| && P.Step(s, e).workers[t] == s.workers[t]
  {
    hide Schedule.Dequeue, Schedule.Remove, Schedule.Register, Schedule.Enqueue, Schedule.ItemsOf, P.CanSubmit, ReplyRing.Deliver;
  }

  lemma CrewStays(s: P.Sys, e: P.Event)
    ensures |P.Step(s, e).workers| == |s.workers|
  {
    hide Schedule.Dequeue, Schedule.Remove, Schedule.Register, Schedule.Enqueue, Schedule.ItemsOf, P.CanSubmit, ReplyRing.Deliver;
  }

  lemma IdleStays(w: B.World, e: B.Event, k: nat)
    requires k < |w.threads| && w.threads[k].Idle? && (e.Disconnect? || e.t != k)
    ensures |B.Step(w, e).threads| == |w.threads| && B.Step(w, e).threads[k].Idle?
  {
    hide B.TableOf, B.Flag, GetCanvas, B.Found, B.Completes, B.ValidEvent;
  }

  lemma CoupledStep(s: Server, m: Move)
    requires Coupled(s)
    ensures Coupled(Step(s, m))
  {
    hide P.Step, B.Step, B.Enabled;
    if Part(s, m).Some? { SameCrew(s.world, Part(s, m).value); }
    if m.Pool? { CrewStays(s.pool, m.e); }
    if m.Close? { CrewStays(s.pool, P.CloseCheck(m.c)); }
    var s' := Step(s, m);
    forall t: nat | t < |s'.pool.workers| && !s'.world.threads[t].Idle? ensures s'.pool.workers[t].Busy? {
      if s.world.threads[t].Idle? {
        if m.Close? || (m.Handle? && m.t != t) { IdleStays(s.world, Part(s, m).value, t); }
      } else if m.Pool? {
        if !(m.e.Finish? && m.e.w == t) { BusyStays(s.pool, m.e, t); }
      } else if m.Close? {
        BusyStays(s.pool, P.CloseCheck(m.c), t);
      }
    }
  }

  lemma {:induction false} CoupledRun(s: Server, ms: seq<Move>)
    requires Coupled(s)
    ensures Coupled(Run(s, ms))
    decreases |ms|
  {
    if ms != [] {
      hide Step, Coupled;
      CoupledStep(s, ms[0]);
      CoupledRun(Step(s, ms[0]), ms[1..]);
    }
  }

  /** In every run a request stays with its worker, which is busy with it until the handler has come to its end. */
  lemma HandlersHaveWorkers(n: nat, ms: seq<Move>)
    ensures Coupled(Run(Start(n), ms))
  {
    CoupledRun(Start(n), ms);
  }

  /** close_client closes a client once at most. */
  lemma {:induction false} ClosedOnce(s: Server, ms: seq<Move>, c: P.ClientId)
    requires c in s.pool.clients && !s.pool.clients[c].phase.Open?
    ensures c in Run(s, ms).pool.clients && !Closes(Run(s, ms), c)
    decreases |ms|
  {
    if ms != [] {
      hide Step;
      PhaseMoves(s, ms[0], c);
      ClosedOnce(Step(s, ms[0]), ms[1..], c);
    }
  }

  lemma PhaseMoves(s: Server, m: Move, c: P.ClientId)
    requires c in s.pool.clients
    ensures c in Step(s, m).pool.clients
    ensures !s.pool.clients[c].phase.Open? ==> !Step(s, m).pool.clients[c].phase.Open?
    ensures m == Close(c) && Closes(s, c) ==> !Step(s, m).pool.clients[c].phase.Open?
  {
    hide Schedule.Dequeue, Schedule.Remove, Schedule.Register, Schedule.Enqueue, Schedule.ItemsOf;
    hide P.CanSubmit, ReplyRing.Deliver, WorldAfter;
  }

  /** Once close_client has closed a client it never does anything for it again. */
  lemma CloseIsFinal(s: Server, ms: seq<Move>, c: P.ClientId)
    requires Closes(s, c)
    ensures var t := Run(Step(s, Close(c)), ms); Step(t, Close(c)) == t
  {
    hide Step, Run;
    PhaseMoves(s, Close(c), c);
    ClosedOnce(Step(s, Close(c)), ms, c);
    CloseIdles(Run(Step(s, Close(c)), ms), c);
  }

  lemma CloseIdles(s: Server, c: P.ClientId)
    requires !Closes(s, c)
    ensures Step(s, Close(c)) == s
  {
  }

  // ------------------------------------------------- whom a client acts as

  /** A Login request of client c succeeds. */
  predicate LogsClientIn(s: Server, m: Move, c: P.ClientId) {
    && m.Login? && m.t < |s.pool.workers| && s.pool.workers[m.t].Busy? && s.pool.workers[m.t].client == c
    && B.Free(s.world, m.t) && ValidUsername(m.name)
  }

  /** A Disconnect request of client c, logged in, is served, or close_client closes c. */
  predicate LogsClientOut(s: Server, m: Move, c: P.ClientId) {
    || (m == Close(c) && c in s.pool.clients && s.pool.clients[c].phase.Open? && !s.pool.clients[c].out.disconnected)
    || (&& m.Handle? && m.t < |s.pool.workers| && s.pool.workers[m.t].Busy? && s.pool.workers[m.t].client == c
        && c in s.users && m.part == B.Disconnect(Some(m.t), s.users[c]) && B.Enabled(s.world, m.part))
  }

  /** One move changes whom a client is logged in as only by that client's own Login, Disconnect or closing. */
  lemma UserMoves(s: Server, m: Move, c: P.ClientId)
    ensures LogsClientIn(s, m, c) ==> IsUser(Step(s, m), c, m.name)
    ensures LogsClientOut(s, m, c) ==> c !in Step(s, m).users
    ensures !LogsClientIn(s, m, c) && !LogsClientOut(s, m, c) ==>
              (c in Step(s, m).users <==> c in s.users) && (c in s.users ==> Step(s, m).users[c] == s.users[c])
  {
    hide PoolAfter, WorldAfter, B.Enabled, B.Free;
  }

  predicate NoLoginBy(s: Server, ms: seq<Move>, c: P.ClientId)
    decreases |ms|
  {
    ms != [] ==> !LogsClientIn(s, ms[0], c) && NoLoginBy(Step(s, ms[0]), ms[1..], c)
  }

  lemma {:induction false} StaysOut(s: Server, ms: seq<Move>, c: P.ClientId)
    requires c !in s.users && NoLoginBy(s, ms, c)
    ensures c !in Run(s, ms).users
    decreases |ms|
  {
    if ms != [] {
      hide Step, LogsClientIn, LogsClientOut;
      UserMoves(s, ms[0], c);
      StaysOut(Step(s, ms[0]), ms[1..], c);
    }
  }

  /** A later critical section of a request already begun. */
  predicate Continues(e: B.Event) {
    e.Record? || e.Frame? || e.Stop? || e.Resume?
  }

  /**
   * Logging out is final: once a Disconnect request of a client has been served, or
   * the client closed, in every run in which it does not log in again it begins
   * nothing on the canvases, and closing it does nothing to them.
   */
  lemma LogoutIsFinal(s: Server, m: Move, ms: seq<Move>, c: P.ClientId)
    requires LogsClientOut(s, m, c) && NoLoginBy(Step(s, m), ms, c)
    ensures var t := Run(Step(s, m), ms);
            && WorldAfter(t, Close(c)) == t.world
            && forall k: nat, e :: k < |t.pool.workers| && t.pool.workers[k].Busy? && t.pool.workers[k].client == c && !Continues(e)
                              ==> Step(t, Handle(k, e)) == t
  {
    hide Step, Run, LogsClientOut;
    UserMoves(s, m, c);
    StaysOut(Step(s, m), ms, c);
    var t := Run(Step(s, m), ms);
    forall k: nat, e | k < |t.pool.workers| && t.pool.workers[k].Busy? && t.pool.workers[k].client == c && !Continues(e)
      ensures Step(t, Handle(k, e)) == t
    {
      NothingBegins(t, k, e);
    }
  }

  lemma NothingBegins(s: Server, t: nat, e: B.Event)
    requires Works(s, t) && ClientOf(s, t) !in s.users && !Continues(e)
    ensures Step(s, Handle(t, e)) == s
  {
  }

  /** Move number i of the run is the last by which client c has logged in, and it has not logged out since. */
  ghost predicate LastLogin(n: nat, ms: seq<Move>, c: P.ClientId, i: nat) {
    && i < |ms| && LogsClientIn(Run(Start(n), ms[..i]), ms[i], c)
    && forall j :: i < j < |ms| ==> Unmoved(Run(Start(n), ms[..j]), ms[j], c)
  }

  predicate Unmoved(s: Server, m: Move, c: P.ClientId) {
    !LogsClientIn(s, m, c) && !LogsClientOut(s, m, c)
  }

  /** In every run a client is logged in as the user of its last Login, if it has not logged out since, and otherwise as nobody. */
  lemma {:induction false} UserIsLastLogin(n: nat, ms: seq<Move>, c: P.ClientId)
    ensures var s := Run(Start(n), ms);
            && (c in s.users <==> exists i: nat :: LastLogin(n, ms, c, i))
            && (forall i: nat :: LastLogin(n, ms, c, i) ==> IsUser(s, c, ms[i].name))
    decreases |ms|
  {
    if ms != [] {
      hide Step, Run, LogsClientIn, LogsClientOut, Unmoved, LastLogin;
      var last := |ms| - 1;
      var init, m := ms[..last], ms[last];
      var s := Run(Start(n), init);
      UserIsLastLogin(n, init, c);
      assert ms == init + [m];
      RunAppend(Start(n), init, [m]);
      RunOne(s, m);
      UserMoves(s, m, c);
      LoginsBefore(n, ms, c);
      if Unmoved(s, m, c) {
        UnmovedIs(s, m, c);
        assert forall i: nat :: LastLogin(n, ms, c, i) <==> LastLogin(n, init, c, i);
      } else if LogsClientIn(s, m, c) {
        assert LastLogin(n, ms, c, last);
      } else {
        UnmovedIs(s, m, c);
      }
    }
  }

  /** The last login of a run is that of the run before its last move, or is that move. */
  lemma LoginsBefore(n: nat, ms: seq<Move>, c: P.ClientId)
    requires ms != []
    ensures var last := |ms| - 1;
            var s := Run(Start(n), ms[..last]);
            && (forall i: nat :: LastLogin(n, ms[..last], c, i) ==> i < last && ms[i] == ms[..last][i])
            && (LogsClientIn(s, ms[last], c) ==> forall i: nat :: LastLogin(n, ms, c, i) <==> i == last)
            && (!LogsClientIn(s, ms[last], c) ==>
                  forall i: nat :: LastLogin(n, ms, c, i) <==> LastLogin(n, ms[..last], c, i) && Unmoved(s, ms[last], c))
  {
    hide Step, Run, LogsClientIn, Unmoved, LastLogin;
    var last := |ms| - 1;
    var s := Run(Start(n), ms[..last]);
    LatestLogin(n, ms, c);
    UnmovedIs(s, ms[last], c);
    forall i: nat
      ensures LastLogin(n, ms[..last], c, i) ==> i < last
      ensures LastLogin(n, ms, c, i) ==> i <= last
      ensures i < last ==> (LastLogin(n, ms, c, i) <==> LastLogin(n, ms[..last], c, i) && Unmoved(s, ms[last], c))
    {
      if LastLogin(n, ms, c, i) { LoginIndex(n, ms, c, i); }
      if LastLogin(n, ms[..last], c, i) { LoginIndex(n, ms[..last], c, i); }
      if i < last { EarlierLogin(n, ms, c, i); }
    }
  }

  lemma UnmovedIs(s: Server, m: Move, c: P.ClientId)
    ensures Unmoved(s, m, c) ==> !LogsClientIn(s, m, c) && !LogsClientOut(s, m, c)
    ensures !Unmoved(s, m, c) ==> LogsClientIn(s, m, c) || LogsClientOut(s, m, c)
    ensures LogsClientIn(s, m, c) ==> !LogsClientOut(s, m, c)
  {
  }

  lemma LoginIndex(n: nat, ms: seq<Move>, c: P.ClientId, i: nat)
    requires LastLogin(n, ms, c, i)
    ensures i < |ms|
  {
  }

  lemma LatestLogin(n: nat, ms: seq<Move>, c: P.ClientId)
    requires ms != []
    ensures LastLogin(n, ms, c, |ms| - 1) <==> LogsClientIn(Run(Start(n), ms[..|ms| - 1]), ms[|ms| - 1], c)
  {
    hide Run, LogsClientIn, Unmoved;
  }

  lemma EarlierLogin(n: nat, ms: seq<Move>, c: P.ClientId, i: nat)
    requires i < |ms| - 1
    ensures var last := |ms| - 1;
            LastLogin(n, ms, c, i) <==> LastLogin(n, ms[..last], c, i) && Unmoved(Run(Start(n), ms[..last]), ms[last], c)
  {
    hide Run, Unmoved, LogsClientIn;
    var last := |ms| - 1;
    assert forall j :: 0 <= j < last ==> ms[..last][..j] == ms[..j] && ms[..last][j] == ms[j];
  }

  /** The worker an event needs. */
  predicate NeedsWorker(e: B.Event, t: nat) {
    if e.Disconnect? then e.worker == Some(t) else e.t == t
  }

  /** Some Login is the client's last in this run, and it was as this user. */
  ghost predicate LastLoginAs(n: nat, ms: seq<Move>, c: P.ClientId, user: string) {
    exists i: nat :: LastLogin(n, ms, c, i) && ms[i].name == user
  }

  /**
   * What a client's request can begin on the canvases, in any run: an event begins
   * on a worker if and only if it is one of the user of the last Login of the client
   * that worker is at work for, and then it happens as it should.
   */
  lemma RequestsActAsLastLogin(n: nat, ms: seq<Move>, t: nat, e: B.Event)
    ensures var s := Run(Start(n), ms);
            !Continues(e) && B.Enabled(s.world, e) ==>
              Step(s, Handle(t, e)).world
              == if && t < |s.pool.workers| && s.pool.workers[t].Busy? && NeedsWorker(e, t)
                    && LastLoginAs(n, ms, s.pool.workers[t].client, Actor(e))
                 then B.Step(s.world, e) else s.world
  {
    hide Run, LastLogin, B.Step, B.Enabled;
    var s := Run(Start(n), ms);
    if Works(s, t) && !Continues(e) {
      UserIsLastLogin(n, ms, ClientOf(s, t));
    }
  }

  // ------------------------------------------- a client with nothing left to do

  /** The client is marked disconnected, as by a failed write, and nothing of it is queued or in flight. */
  predicate CutOff(s: P.Sys, c: P.ClientId) {
    c in s.clients && s.clients[c].out.disconnected && PoolTheorems.Settled(s, c)
  }

  lemma QueueStaysEmpty(s: P.Sys, e: P.Event, c: P.ClientId)
    requires P.SysInv(s) && CutOff(s, c)
    ensures Schedule.ItemsOf(P.Step(s, e).sched, c) == []
  {
    hide P.ClientOk, Schedule.Inv, Schedule.Dequeue, Schedule.Remove, Schedule.Register, Schedule.Enqueue;
    hide Schedule.ItemsOf, Schedule.Registered;
    match e
    case Accept(d) =>
      if d !in s.clients {
        assert !Schedule.Registered(s.sched, d);
        Fairness.ArriveItems(s.sched, c, d);
      }
    case Submit(d, line, woken) =>
      if P.CanSubmit(s, d) {
        Fairness.PutStep(s.sched, c, d, Schedule.Request(|s.clients[d].accepted|, line));
      }
    case Lock(w) =>
      if s.sched.pending > 0 {
        Fairness.TakeItems(s.sched, c);
      }
    case CloseRemove(d) => Fairness.LeaveItems(s.sched, c, d);
    case _ =>
  }

  lemma WorkersStayOff(s: P.Sys, e: P.Event, c: P.ClientId)
    requires P.SysInv(s) && CutOff(s, c)
    ensures forall w :: 0 <= w < |P.Step(s, e).workers| ==> !PoolInvariant.Of(P.Step(s, e).workers[w], c)
  {
    hide P.ClientOk, Schedule.Inv, Schedule.Dequeue, Schedule.Remove, Schedule.Register, Schedule.Enqueue;
    hide Schedule.ItemsOf, Schedule.Registered, P.CanSubmit;
    if e.Lock? && s.sched.pending > 0 {
      Fairness.ServedIsFirst(s.sched);
    }
  }

  lemma StaysDisconnected(s: P.Sys, e: P.Event, c: P.ClientId)
    requires c in s.clients && s.clients[c].out.disconnected
    ensures c in P.Step(s, e).clients && P.Step(s, e).clients[c].out.disconnected
  {
    hide Schedule.Dequeue, Schedule.Remove, Schedule.Register, Schedule.Enqueue, P.CanSubmit, ReplyRing.Drain;
  }

  lemma StaysCutOff(s: P.Sys, e: P.Event, c: P.ClientId)
    requires P.SysInv(s) && CutOff(s, c)
    ensures CutOff(P.Step(s, e), c)
  {
    hide P.SysInv, P.Step, Schedule.ItemsOf;
    QueueStaysEmpty(s, e, c);
    WorkersStayOff(s, e, c);
    StaysDisconnected(s, e, c);
  }

  // --------------------------------------------------- a user nobody takes off

  /** The user is connected to the canvas and not waiting there. */
  predicate Awaited(w: B.World, id: nat, user: string) {
    id in B.TableOf(w) && user in Missing(B.TableOf(w)[id])
  }

  /** Only its own calls and departures take a user off the missing; looking the canvas up does not. */
  lemma StillMissing(w: B.World, e: B.Event, c: Canvas, user: string)
    requires CanvasOk(c) && user in Missing(c) && (Actor(e) == user ==> e.Frame?)
    ensures user in Missing(CanvasAfter(w, e, c))
    ensures !ReleasesBy(w, e, c)
  {
    hide CanvasOk, Missing, Connect, ShareWith, EnterBarrier, Abandon, MaybeDestroy, Store.Leave, B.Enabled, B.Completes;
    var j := FindUser(c.users, Actor(e));
    if j < |c.users| {
      CompletesIff(c, Actor(e));
      if e.Enter? {
        EnteredMissing(c, e.user);
      } else {
        ConnectMissing(c, j);
        ShareMissing(Connect(c, j), if e.ShareCanvas? then e.other else "");
        if Actor(e) != user { LeftMissing(c, user, Actor(e)); }
      }
    } else {
      assert Store.Leave(c, Actor(e)) == c by { NotThere(c, Actor(e)); }
    }
  }

  lemma NotThere(c: Canvas, user: string)
    requires !HasUser(c.users, user)
    ensures Store.Leave(c, user) == c
  {
  }

  /** Somebody else's departure does not make a user less missing. */
  lemma LeftMissing(c: Canvas, user: string, other: string)
    requires user in Missing(c) && HasUser(c.users, other) && other != user
    ensures user in Missing(Store.Leave(c, other)) && user in Missing(MaybeDestroy(Abandon(c, FindUser(c.users, other))))
  {
    var i :| 0 <= i < |c.users| && c.users[i].connected && !c.users[i].waiting && c.users[i].name == user;
    var j := FindUser(c.users, other);
    assert Depart(c, j).users[i] == c.users[i];
    assert Store.Leave(c, other).users[i] == c.users[i];
    assert MaybeDestroy(Abandon(c, j)).users[i] == c.users[i];
  }

  lemma StaysAwaited(w: B.World, e: B.Event, id: nat, user: string)
    requires WorldInv(w) && Awaited(w, id, user) && (Actor(e) == user ==> e.Frame?)
    ensures Awaited(B.Step(w, e), id, user)
    ensures !ReleasesBy(w, e, B.TableOf(w)[id])
  {
    hide StoreInv, B.Step, B.TableOf, ThreadsOk, Provenance, CanvasAfter, Missing, ReleasesBy, CanvasOk;
    TableIsOk(w);
    RecordStep(w, e, id);
    StillMissing(w, e, B.TableOf(w)[id], user);
  }

  /** Every client logged in as this user has been cut off; there may be none. */
  predicate Orphaned(s: Server, user: string) {
    forall c :: c in s.users && s.users[c] == user ==> CutOff(s.pool, c)
  }

  ghost predicate Abandoned(s: Server, id: nat, user: string) {
    Sane(s) && user != "" && Orphaned(s, user) && Awaited(s.world, id, user)
  }

  predicate LoginAs(m: Move, user: string) {
    m.Login? && m.name == user
  }

  lemma PartIsAnothers(s: Server, m: Move, user: string)
    requires Orphaned(s, user) && user != "" && Part(s, m).Some?
    ensures Actor(Part(s, m).value) == user ==> Part(s, m).value.Frame?
  {
    hide Schedule.ItemsOf, B.Enabled;
    if m.Handle? {
      assert forall c :: CutOff(s.pool, c) ==> !PoolInvariant.Of(s.pool.workers[m.t], c);
    }
  }

  lemma StaysOrphaned(s: Server, m: Move, user: string)
    requires P.SysInv(s.pool) && Orphaned(s, user) && !LoginAs(m, user)
    ensures Orphaned(Step(s, m), user)
  {
    hide P.SysInv, P.Step, WorldAfter, CutOff, LogsIn, Closes, Serves;
    forall c | c in Step(s, m).users && Step(s, m).users[c] == user ensures CutOff(Step(s, m).pool, c) {
      assert c in s.users && s.users[c] == user;
      if m.Pool? {
        StaysCutOff(s.pool, m.e, c);
      } else if m.Close? {
        StaysCutOff(s.pool, P.CloseCheck(m.c), c);
      }
    }
  }

  lemma MoveKeeps(s: Server, m: Move, id: nat, user: string)
    requires Abandoned(s, id, user)
    ensures !LoginAs(m, user) ==> Abandoned(Step(s, m), id, user)
    ensures Part(s, m).Some? ==> !ReleasesBy(s.world, Part(s, m).value, B.TableOf(s.world)[id])
  {
    hide P.SysInv, WorldInv, PoolAfter, UsersAfter, B.Step, Orphaned, Awaited, Part, ReleasesBy;
    if Part(s, m).Some? {
      PartIsAnothers(s, m, user);
      StaysAwaited(s.world, Part(s, m).value, id, user);
    }
    if !LoginAs(m, user) {
      SaneStep(s, m);
      StaysOrphaned(s, m, user);
    }
  }

  predicate NoLoginAs(ms: seq<Move>, user: string) {
    forall i :: 0 <= i < |ms| ==> !LoginAs(ms[i], user)
  }

  /**
   * A user whose clients have all been cut off, or have logged in as somebody else, is never taken off its canvases: in every run in which nobody
   * logs in under its name it stays connected where it is not waiting, and no
   * barrier there is ever released again.
   */
  lemma {:induction false} AbandonedForGood(s: Server, ms: seq<Move>, id: nat, user: string)
    requires Abandoned(s, id, user) && NoLoginAs(ms, user)
    ensures Abandoned(Run(s, ms), id, user)
    ensures forall m :: var t := Run(s, ms);
                        Part(t, m).Some? ==> !ReleasesBy(t.world, Part(t, m).value, B.TableOf(t.world)[id])
    decreases |ms|
  {
    hide Step, Part, ReleasesBy, Sane, Orphaned, Missing, LoginAs;
    if ms == [] {
      forall m | Part(s, m).Some? ensures !ReleasesBy(s.world, Part(s, m).value, B.TableOf(s.world)[id]) {
        MoveKeeps(s, m, id, user);
      }
    } else {
      MoveKeeps(s, ms[0], id, user);
      AbandonedForGood(Step(s, ms[0]), ms[1..], id, user);
    }
  }

  // ---------------------------------------------------- when it can be taken off

  /** The client is connected and not in the middle of being closed, or disconnected with nothing queued or in flight. */
  predicate Decided(s: P.Sys, c: P.ClientId) {
    c in s.clients && if s.clients[c].out.disconnected then PoolTheorems.Settled(s, c) else s.clients[c].phase.Open?
  }

  lemma LeaverGone(c: Canvas, user: string)
    requires CanvasOk(c)
    ensures user !in Missing(Store.Leave(c, user))
  {
    var j := FindUser(c.users, user);
    if j < |c.users| {
      assert forall i :: 0 <= i < |c.users| && i != j ==> c.users[i].name != user;
    }
  }

  /** Closing a client that is not disconnected takes its user off every canvas. */
  lemma CloseTakesOff(s: Server, c: P.ClientId, id: nat, user: string)
    requires Sane(s) && Closes(s, c) && IsUser(s, c, user) && ValidUsername(user)
    ensures !Awaited(Step(s, Close(c)).world, id, user)
  {
    hide P.SysInv, StoreInv, PoolAfter, UsersAfter, B.TableOf, Missing, CanvasOk, ThreadsOk, Provenance, Store.Leave;
    var e := B.Disconnect(None, user);
    StepTable(s.world, e);
    TableIsOk(s.world);
    if id in B.TableOf(s.world) {
      LeaverGone(B.TableOf(s.world)[id], user);
    }
  }

  lemma StepTable(w: B.World, e: B.Event)
    requires StoreInv(w.store) && B.Enabled(w, e) && e.Disconnect?
    ensures B.TableOf(B.Step(w, e)) == map id | id in B.TableOf(w) :: Store.Leave(B.TableOf(w)[id], e.user)
  {
    hide StoreInv, B.Step, B.TableOf, B.Enabled, Store.Leave;
    B.StepTable(w, e);
  }

  /**
   * Exactly when a user can be taken off a canvas it is not waiting at, as long as
   * nobody else logs in under its name and no request of a disconnected client of it
   * is left: some client still logged in as this user is connected.
   */
  lemma TakenOffIff(s: Server, id: nat, user: string)
    requires Sane(s) && ValidUsername(user) && Awaited(s.world, id, user)
    requires forall c :: c in s.users && s.users[c] == user ==> Decided(s.pool, c)
    ensures (exists ms :: NoLoginAs(ms, user) && !Awaited(Run(s, ms).world, id, user))
            <==> exists c :: IsUser(s, c, user) && c in s.pool.clients && !s.pool.clients[c].out.disconnected
  {
    hide Sane, Awaited, PoolTheorems.Settled, Step, Run;
    if c :| IsUser(s, c, user) && c in s.pool.clients && !s.pool.clients[c].out.disconnected {
      assert Decided(s.pool, c);
      CloseTakesOff(s, c, id, user);
      RunOne(s, Close(c));
      assert NoLoginAs([Close(c)], user) && !Awaited(Run(s, [Close(c)]).world, id, user);
    } else {
      forall ms | NoLoginAs(ms, user) ensures Awaited(Run(s, ms).world, id, user) {
        AbandonedForGood(s, ms, id, user);
      }
    }
  }

  /** For a user with a single client: it can be taken off exactly if the client's pipe has not failed. */
  lemma AbandonedIff(s: Server, c: P.ClientId, id: nat)
    requires Sane(s) && c in s.users && ValidUsername(s.users[c]) && Awaited(s.world, id, s.users[c])
    requires Decided(s.pool, c) && forall d :: d in s.users && d != c ==> s.users[d] != s.users[c]
    ensures (exists ms :: NoLoginAs(ms, s.users[c]) && !Awaited(Run(s, ms).world, id, s.users[c]))
            <==> !s.pool.clients[c].out.disconnected
  {
    hide Sane, Awaited, PoolTheorems.Settled, Step, Run, NoLoginAs;
    TakenOffIff(s, id, s.users[c]);
    assert IsUser(s, c, s.users[c]);
  }

  lemma RunOne(s: Server, m: Move)
    ensures Run(s, [m]) == Step(s, m)
  {
    hide Step;
    assert [m][1..] == [] && Run(Step(s, m), []) == Step(s, m);
  }

  // -------------------------------------------------------- such users exist

  lemma {:induction false} RunAppend(s: Server, a: seq<Move>, b: seq<Move>)
    ensures Run(s, a + b) == Run(Run(s, a), b)
    decreases |a|
  {
    if a == [] {
      assert a + b == b;
    } else {
      hide Step;
      assert (a + b)[0] == a[0] && (a + b)[1..] == a[1..] + b;
      RunAppend(Step(s, a[0]), a[1..], b);
    }
  }

  function Pools(es: seq<P.Event>): seq<Move> {
    seq(|es|, i requires 0 <= i < |es| => Pool(es[i]))
  }

  lemma {:induction false} PoolRun(s: Server, es: seq<P.Event>)
    requires forall i :: 0 <= i < |es| ==> !es[i].CloseCheck? && MayFinish(s, es[i])
    ensures Run(s, Pools(es)) == s.(pool := P.Run(s.pool, es))
    decreases |es|
  {
    if es != [] {
      hide P.Step, B.Free;
      assert Pools(es)[0] == Pool(es[0]) && Pools(es)[1..] == Pools(es[1..]);
      assert Step(s, Pool(es[0])) == s.(pool := P.Step(s.pool, es[0]));
      PoolRun(s.(pool := P.Step(s.pool, es[0])), es[1..]);
    }
  }

  /** The only client's next request is taken, handled in one part, answered and replied to. */
  function Exchange(line: string, m: Move, reply: string, script: seq<ReplyRing.Answer>): seq<Move> {
    Pools([P.Submit(0, line, {}), P.Lock(0)]) + ([m] + Pools([P.Finish(0, Some(reply)), P.Deliver(0, script)]))
  }

  /** One worker and one client, between two of the client's requests. */
  function Alone(cl: P.Client, w: B.World, users: map<P.ClientId, string>): Server {
    Server(PoolTheorems.Single([], P.Ready, cl), w, users)
  }

  /** The same while the worker handles the next request of the client. */
  function AtWork(cl: P.Client, line: string, w: B.World, users: map<P.ClientId, string>): Server {
    Server(PoolTheorems.Single([], P.Busy(0, Schedule.Request(|cl.accepted|, line)), PoolTheorems.Called(cl, line)), w, users)
  }

  lemma RequestRuns(cl: P.Client, w: B.World, users: map<P.ClientId, string>, line: string, m: Move,
                    w': B.World, users': map<P.ClientId, string>, reply: string, script: seq<ReplyRing.Answer>)
    requires !cl.out.disconnected && B.Free(w', 0)
    requires Step(AtWork(cl, line, w, users), m) == AtWork(cl, line, w', users')
    ensures Run(Alone(cl, w, users), Exchange(line, m, reply, script))
         == Alone(PoolTheorems.Answered(cl, line, reply, script), w', users')
  {
    hide P.Step, P.Run, PoolTheorems.Single, PoolTheorems.Called, PoolTheorems.Answered, Step, Run, B.Free;
    var s0, s1, s2 := Alone(cl, w, users), AtWork(cl, line, w, users), AtWork(cl, line, w', users');
    var before, after := [P.Submit(0, line, {}), P.Lock(0)], [P.Finish(0, Some(reply)), P.Deliver(0, script)];
    PoolTheorems.SingleTakes(cl, line);
    PoolTheorems.SingleAnswers(cl, line, reply, script);
    PoolRun(s0, before);
    PoolRun(s2, after);
    RunOne(s1, m);
    RunAppend(s1, [m], Pools(after));
    RunAppend(s0, Pools(before), [m] + Pools(after));
  }

  /** The client is connected and has been answered in full. */
  predicate UpToDate(cl: P.Client) {
    cl.phase.Open? && !cl.out.disconnected && cl.out.open && cl.out.buffered == map[] && cl.out.sent == |cl.accepted|
  }

  lemma ReplyReaches(cl: P.Client, line: string, reply: string)
    requires UpToDate(cl) && reply != []
    ensures UpToDate(PoolTheorems.Answered(cl, line, reply, []))
    ensures PoolTheorems.Answered(cl, line, reply, [ReplyRing.Failed]).out.disconnected
  {
    hide ReplyRing.Deliver;
    var called := PoolTheorems.Called(cl, line);
    PoolTheorems.DeliverNext(called.(replies := called.replies[|cl.accepted| := reply]), reply);
  }

  /** A login of the only client as this user. */
  lemma LoginMove(cl: P.Client, line: string, w: B.World, users: map<P.ClientId, string>, name: string)
    requires B.Free(w, 0) && ValidUsername(name)
    ensures Step(AtWork(cl, line, w, users), Login(0, name)) == AtWork(cl, line, w, users[0 := name])
  {
  }

  lemma CreateMove(cl: P.Client, line: string, users: map<P.ClientId, string>)
    requires 0 in users && users[0] == "a"
    ensures Step(AtWork(cl, line, B.Initial(1), users), Handle(0, B.CreateCanvas(0, "a"))) == AtWork(cl, line, Created(), users)
  {
  }

  /** User "a" has created canvas 1. */
  function Created(): B.World {
    B.Step(B.Initial(1), B.CreateCanvas(0, "a"))
  }

  lemma CreatedAwaited()
    ensures B.Free(B.Initial(1), 0) && B.Free(Created(), 0) && Awaited(Created(), 1, "a")
  {
    StrandCreate();
    var w := Strand([User("a", true, false)], B.Idle, []);
    assert B.TableOf(w) == map[1 := w.store.canvases[0]];
    assert w.store.canvases[0].users[0].connected && w.store.canvases[0].users[0].name == "a";
  }

  /** Client 0 connects and logs in as "a", then creates canvas 1, the writes of that reply going as the script says. */
  function Beginning(login: string, create: string, script: seq<ReplyRing.Answer>): seq<Move> {
    Pools([P.Accept(0)]) + (Exchange(login, Login(0, "a"), "5\n", [])
                            + Exchange(create, Handle(0, B.CreateCanvas(0, "a")), "1\n", script))
  }

  function Client0(login: string, create: string, script: seq<ReplyRing.Answer>): P.Client {
    PoolTheorems.Answered(PoolTheorems.Answered(P.NEW_CLIENT, login, "5\n", []), create, "1\n", script)
  }

  lemma BeginningRuns(login: string, create: string, script: seq<ReplyRing.Answer>)
    ensures Run(Start(1), Beginning(login, create, script)) == Alone(Client0(login, create, script), Created(), map[0 := "a"])
    ensures UpToDate(PoolTheorems.Answered(P.NEW_CLIENT, login, "5\n", []))
  {
    hide P.Step, B.Step, Step, Run, Exchange, PoolTheorems.Single, PoolTheorems.Answered;
    PoolTheorems.SingleAccept();
    CreatedAwaited();
    var first := PoolTheorems.Answered(P.NEW_CLIENT, login, "5\n", []);
    ReplyReaches(P.NEW_CLIENT, login, "5\n");
    LoginMove(P.NEW_CLIENT, login, B.Initial(1), map[], "a");
    RequestRuns(P.NEW_CLIENT, B.Initial(1), map[], login, Login(0, "a"), B.Initial(1), map[0 := "a"], "5\n", []);
    CreateMove(first, create, map[0 := "a"]);
    RequestRuns(first, B.Initial(1), map[0 := "a"], create, Handle(0, B.CreateCanvas(0, "a")), Created(), map[0 := "a"], "1\n", script);
    PoolRun(Start(1), [P.Accept(0)]);
    PoolTheorems.RunOne(P.Initial(1), P.Accept(0), PoolTheorems.Single([], P.Ready, P.NEW_CLIENT), []);
    PoolTheorems.RunNothing(PoolTheorems.Single([], P.Ready, P.NEW_CLIENT));
    assert [P.Accept(0)] + [] == [P.Accept(0)];
    var logs, creates := Exchange(login, Login(0, "a"), "5\n", []), Exchange(create, Handle(0, B.CreateCanvas(0, "a")), "1\n", script);
    RunAppend(Alone(P.NEW_CLIENT, B.Initial(1), map[]), logs, creates);
    RunAppend(Start(1), Pools([P.Accept(0)]), logs + creates);
  }

  lemma AloneSettled(cl: P.Client, w: B.World, users: map<P.ClientId, string>)
    ensures PoolTheorems.Settled(Alone(cl, w, users).pool, 0)
  {
  }

  /** Client 0 logs in as "a" and creates canvas 1; the reply meets a broken pipe, and "a" is there for good. */
  lemma BrokenRun(login: string, create: string)
    ensures var s := Run(Start(1), Beginning(login, create, [ReplyRing.Failed]));
            s.users == map[0 := "a"] && s.pool.clients.Keys == {0} && Abandoned(s, 1, "a")
  {
    hide Beginning, Run, Sane, Awaited, PoolTheorems.Settled, PoolTheorems.Answered, Created;
    BeginningRuns(login, create, [ReplyRing.Failed]);
    AlwaysSane(1, Beginning(login, create, [ReplyRing.Failed]));
    CreatedAwaited();
    var first := PoolTheorems.Answered(P.NEW_CLIENT, login, "5\n", []);
    ReplyReaches(first, create, "1\n");
    AloneSettled(Client0(login, create, [ReplyRing.Failed]), Created(), map[0 := "a"]);
  }

  /**
   * No pipe need fail: client 0 logs in as "a", creates canvas 1 and logs in again
   * as "b". It is connected and open, but "a" is on its canvas for good.
   */
  lemma SecondLoginRun(login: string, create: string, again: string)
    ensures var s := Run(Start(1), Beginning(login, create, []) + Exchange(again, Login(0, "b"), "7\n", []));
            s.users == map[0 := "b"] && Closes(s, 0) && Abandoned(s, 1, "a")
  {
    hide Beginning, Exchange, Run, Step, B.Step, Sane, Awaited, UpToDate, PoolTheorems.Settled, PoolTheorems.Answered, Created;
    var first := PoolTheorems.Answered(P.NEW_CLIENT, login, "5\n", []);
    var second, more := Client0(login, create, []), Exchange(again, Login(0, "b"), "7\n", []);
    BeginningRuns(login, create, []);
    AlwaysSane(1, Beginning(login, create, []) + more);
    CreatedAwaited();
    ReplyReaches(first, create, "1\n");
    ReplyReaches(second, again, "7\n");
    LoginMove(second, again, Created(), map[0 := "a"], "b");
    assert map[0 := "a"][0 := "b"] == map[0 := "b"];
    Connected(second);
    Connected(PoolTheorems.Answered(second, again, "7\n", []));
    RequestRuns(second, Created(), map[0 := "a"], again, Login(0, "b"), Created(), map[0 := "b"], "7\n", []);
    RunAppend(Start(1), Beginning(login, create, []), more);
  }

  lemma Connected(cl: P.Client)
    requires UpToDate(cl)
    ensures cl.phase.Open? && !cl.out.disconnected
  {
  }
}
