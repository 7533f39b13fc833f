/** What canvas sharing, the barrier and deferred destruction guarantee over all runs. */
module BarrierTheorems {
  import opened Auth
  import opened Sequences
  import opened Store
  import opened BarrierSystem
  import opened BarrierInvariant

  // ---------------------------------------------------------- barrier safety

  /** At this event the barrier of canvas id completes, or the user leaves the canvas. */
  predicate Frees(w: World, e: Event, id: nat, user: string) {
    (id in TableOf(w) && ReleasesBy(w, e, TableOf(w)[id])) || Departs(w, e, id, user)
  }

  lemma FlagStep(w: World, e: Event, id: nat, user: string)
    requires WorldInv(w)
    ensures Flag(TableOf(w), id, user) && !Flag(TableOf(Step(w, e)), id, user) ==> Frees(w, e, id, user)
    ensures !Flag(TableOf(w), id, user) && Flag(TableOf(Step(w, e)), id, user) ==> CallsBarrier(w, e, id, user)
  {
    TableIsOk(w);
    hide StoreInv, Step, TableOf, CanvasAfter, CanvasOk, CallsBarrier, ReleasesBy, Departs, ThreadsOk, Provenance;
    if id in TableOf(w) {
      RecordStep(w, e, id);
      FlagMoves(w, e, TableOf(w)[id], user);
    } else if id in TableOf(Step(w, e)) {
      NewRecord(w, e, id);
      NewcomerFree(id, e.user, user);
    }
  }

  lemma NewcomerFree(id: nat, creator: string, user: string)
    ensures !UserWaits(Canvas(id, true, false, [User(creator, true, false)]).users, user)
  {
  }

  lemma RunSplit(w: World, e: Event, es: seq<Event>, m: nat)
    requires m < |es|
    ensures Run(w, ([e] + es)[..m + 1]) == Run(Step(w, e), es[..m])
  {
    assert ([e] + es)[..m + 1] == [e] + es[..m];
  }

  /** A flag that came down was freed at some moment of the run. */
  lemma {:induction false} FlagFell(w: World, es: seq<Event>, id: nat, user: string)
    requires WorldInv(w) && Flag(TableOf(w), id, user) && !Flag(TableOf(Run(w, es)), id, user)
    ensures exists m :: 0 <= m < |es| && Frees(Run(w, es[..m]), es[m], id, user)
    decreases |es|
  {
    hide WorldInv, Step, TableOf, Frees;
    var w1 := Step(w, es[0]);
    FlagStep(w, es[0], id, user);
    StepKeeps(w, es[0]);
    if Flag(TableOf(w1), id, user) {
      FlagFell(w1, es[1..], id, user);
      var m :| 0 <= m < |es| - 1 && Frees(Run(w1, es[1..][..m]), es[1..][m], id, user);
      RunSplit(w, es[0], es[1..], m);
      assert [es[0]] + es[1..] == es;
      assert Frees(Run(w, es[..m + 1]), es[m + 1], id, user);
    } else {
      assert Frees(Run(w, es[..0]), es[0], id, user);
    }
  }

  /** A flag that went up was raised by a barrier call of that very user. */
  lemma {:induction false} FlagRose(w: World, es: seq<Event>, id: nat, user: string)
    requires WorldInv(w) && !Flag(TableOf(w), id, user) && Flag(TableOf(Run(w, es)), id, user)
    ensures exists m :: 0 <= m < |es| && CallsBarrier(Run(w, es[..m]), es[m], id, user)
    decreases |es|
  {
    hide WorldInv, Step, TableOf, CallsBarrier;
    var w1 := Step(w, es[0]);
    FlagStep(w, es[0], id, user);
    StepKeeps(w, es[0]);
    if !Flag(TableOf(w1), id, user) {
      FlagRose(w1, es[1..], id, user);
      var m :| 0 <= m < |es| - 1 && CallsBarrier(Run(w1, es[1..][..m]), es[1..][m], id, user);
      RunSplit(w, es[0], es[1..], m);
      assert [es[0]] + es[1..] == es;
      assert CallsBarrier(Run(w, es[..m + 1]), es[m + 1], id, user);
    } else {
      assert CallsBarrier(Run(w, es[..0]), es[0], id, user);
    }
  }

  /**
   * Barrier safety: a barrier call that blocked returns only if, since it began,
   * there was a moment when every connected user of the canvas was waiting, or
   * its own user departed.
   */
  lemma BlockedCallReturnsOnlyWhenFreed(n: nat, past: seq<Event>, t: nat, id: nat, user: string, es: seq<Event>)
    ensures var w := Run(Initial(n), past);
            var w1 := Step(w, Enter(t, id, user));
            var w2 := Run(w1, es);
            && t < |w.threads| && w.threads[t].Idle?
            && t < |w1.threads| && w1.threads[t] == AtBarrier(id, user, true)
            && t < |w2.threads| && w2.threads[t].AtBarrier? && w2.threads[t].canvas == id && w2.threads[t].user == user
            && t < |Step(w2, Resume(t)).threads| && Step(w2, Resume(t)).threads[t].Idle?
            ==> exists m :: 0 <= m < |es| && Frees(Run(w1, es[..m]), es[m], id, user)
  {
    var w := Run(Initial(n), past);
    AlwaysInv(n, past);
    StepKeeps(w, Enter(t, id, user));
    var w1 := Step(w, Enter(t, id, user));
    var w2 := Run(w1, es);
    if t < |w1.threads| && w1.threads[t] == AtBarrier(id, user, true)
       && t < |w2.threads| && w2.threads[t].AtBarrier? && w2.threads[t].canvas == id && w2.threads[t].user == user
       && Step(w2, Resume(t)).threads[t].Idle? {
      assert ThreadOk(w1.threads[t], TableOf(w1));
      FlagFell(w1, es, id, user);
    }
  }

  /** The canvas record at the moment a barrier call has raised its flag. */
  function Marked(c: Canvas, user: string): Canvas
    requires HasUser(c.users, user)
  {
    var j := FindUser(c.users, user);
    Wait(Connect(c, j), j)
  }

  /**
   * A release frees exactly the connected users: at that moment those and no
   * others are waiting, afterwards nobody is, and every thread blocked on the
   * canvas has been woken.
   */
  lemma ReleaseFreesExactlyConnected(w: World, e: Event, id: nat)
    requires WorldInv(w) && id in TableOf(w) && ReleasesBy(w, e, TableOf(w)[id])
    ensures HasUser(TableOf(w)[id].users, e.user) && id in TableOf(Step(w, e))
    ensures var marked, after := Marked(TableOf(w)[id], e.user), TableOf(Step(w, e))[id];
            && (forall i :: 0 <= i < |marked.users| ==> (marked.users[i].waiting <==> marked.users[i].connected))
            && after == marked.(users := Release(marked.users))
    ensures forall k :: 0 <= k < |w.threads| && OnCanvas(w.threads[k], id) ==> !Step(w, e).threads[k].asleep
  {
    TableIsOk(w);
    RecordStep(w, e, id);
    FoundIsReachable(w, id, e.user);
    hide StoreInv, Barrier, CanvasTable;
    var c := TableOf(w)[id];
    ConnectOk(c, FindUser(c.users, e.user));
  }

  /**
   * No free ride: between two releases of a canvas, every user the second one
   * frees has made a new barrier call, the releasing call itself included.
   */
  lemma SecondReleaseNeedsFreshCalls(w: World, e1: Event, es: seq<Event>, e2: Event, id: nat, user: string)
    requires WorldInv(w) && id in TableOf(w) && ReleasesBy(w, e1, TableOf(w)[id])
    requires var w2 := Run(Step(w, e1), es);
             id in TableOf(w2) && ReleasesBy(w2, e2, TableOf(w2)[id])
             && HasUser(TableOf(w2)[id].users, e2.user) && UserWaits(Marked(TableOf(w2)[id], e2.user).users, user)
    ensures e2.user == user || exists m :: 0 <= m < |es| && CallsBarrier(Run(Step(w, e1), es[..m]), es[m], id, user)
  {
    var w1 := Step(w, e1);
    ReleaseClearsFlags(w, e1, id, user);
    StepKeeps(w, e1);
    RunKeeps(w1, es);
    hide WorldInv, Step, TableOf, ReleasesBy, CallsBarrier, Marked, UserWaits, HasUser, Flag;
    if e2.user != user {
      MarkedWaits(Run(w1, es), id, e2.user, user);
      FlagRose(w1, es, id, user);
    }
  }

  lemma ReleaseClearsFlags(w: World, e: Event, id: nat, user: string)
    requires WorldInv(w) && id in TableOf(w) && ReleasesBy(w, e, TableOf(w)[id])
    ensures !Flag(TableOf(Step(w, e)), id, user)
  {
    hide WorldInv, Step, TableOf;
    ReleaseFreesExactlyConnected(w, e, id);
    ReleaseWaits(Marked(TableOf(w)[id], e.user).users, user);
  }

  lemma MarkedWaits(w: World, id: nat, caller: string, user: string)
    requires WorldInv(w) && id in TableOf(w) && HasUser(TableOf(w)[id].users, caller) && caller != user
    ensures UserWaits(Marked(TableOf(w)[id], caller).users, user) == Flag(TableOf(w), id, user)
  {
    TableIsOk(w);
    var c := TableOf(w)[id];
    var j := FindUser(c.users, caller);
    ConnectWaits(c, j, user);
    UpdatedWaits(Connect(c, j).users, j, Connect(c, j).users[j].(waiting := true), user);
  }

  /** No missed broadcast: a thread asleep on the condition variable still has its user's flag up. */
  lemma SleepersAreWaiting(n: nat, es: seq<Event>, k: nat)
    ensures var w := Run(Initial(n), es);
            k < |w.threads| && (w.threads[k].AtBarrier? || w.threads[k].AtGate?) && w.threads[k].asleep
            ==> Flag(TableOf(w), w.threads[k].canvas, w.threads[k].user)
  {
    AlwaysInv(n, es);
    var w := Run(Initial(n), es);
    assert k < |w.threads| ==> ThreadOk(w.threads[k], TableOf(w));
  }

  // -------------------------------------------------------- gated operations

  lemma WaitingIsFound(w: World, id: nat, user: string)
    requires StoreInv(w.store) && Flag(TableOf(w), id, user)
    ensures Found(w, id, user)
  {
    TableIsOk(w);
    FoundIsReachable(w, id, user);
  }

  /**
   * Gated library calls respect the barrier: each step makes at most one, and at
   * that moment its user is not waiting at its canvas, also when the canvas
   * lookup failed and the wait was skipped.
   */
  lemma GatedCallsAreFree(w: World, e: Event)
    requires WorldInv(w)
    ensures w.log <= Step(w, e).log && |Step(w, e).log| <= |w.log| + 1
    ensures forall i :: |w.log| <= i < |Step(w, e).log| ==>
                          !Flag(TableOf(Step(w, e)), Step(w, e).log[i].canvas, Step(w, e).log[i].user)
  {
    var id := Subject(w, e);
    if e.Move? && !Found(w, id, e.user) && Flag(TableOf(w), id, e.user) {
      WaitingIsFound(w, id, e.user);
    }
    hide StoreInv, ThreadsOk, Provenance, GetCanvas, CanvasTable, Flag;
  }

  // ---------------------------------------------------------------- lifecycle

  /**
   * In every reachable state a record is deleted exactly when its canvas is gone,
   * nobody is connected to or waiting on a deleted record, and the log of
   * destroyed canvases names the deleted records, each once.
   */
  lemma DeletedMeansDestroyedOnce(n: nat, es: seq<Event>, id: nat)
    ensures var w := Run(Initial(n), es);
            && (forall i, j :: 0 <= i < j < |w.store.destroyed| ==> w.store.destroyed[i] != w.store.destroyed[j])
            && (id in TableOf(w) ==>
                  var c := TableOf(w)[id];
                  && (c.deleted <==> !c.live) && (c.deleted <==> id in w.store.destroyed)
                  && (c.deleted ==> forall i :: 0 <= i < |c.users| ==> !c.users[i].connected && !c.users[i].waiting))
  {
    AlwaysInv(n, es);
    var w := Run(Initial(n), es);
    TableIsOk(w);
    CanvasIdsFall(w.store);
    TableHolds(w.store.canvases);
    if id in TableOf(w) {
      var i :| 0 <= i < |w.store.canvases| && w.store.canvases[i].id == id;
    }
  }

  /** Deletion is for good, and access lists never shrink. */
  lemma {:induction false} DeletedForGood(w: World, es: seq<Event>, id: nat)
    requires WorldInv(w) && id in TableOf(w)
    ensures id in TableOf(Run(w, es))
    ensures TableOf(w)[id].deleted ==> TableOf(Run(w, es))[id].deleted
    ensures Extends(NameList(TableOf(w)[id]), NameList(TableOf(Run(w, es))[id]))
    decreases |es|
  {
    if es != [] {
      TableIsOk(w);
      RecordStep(w, es[0], id);
      NamesStep(w, es[0], TableOf(w)[id]);
      StepKeeps(w, es[0]);
      if TableOf(w)[id].deleted { DeletedStep(w, es[0], TableOf(w)[id]); }
      hide WorldInv, Step, TableOf, CanvasAfter;
      DeletedForGood(Step(w, es[0]), es[1..], id);
      ExtendsTrans(NameList(TableOf(w)[id]), NameList(TableOf(Step(w, es[0]))[id]), NameList(TableOf(Run(w, es))[id]));
    }
  }

  lemma DeletedStep(w: World, e: Event, c: Canvas)
    requires CanvasOk(c) && c.deleted
    ensures CanvasAfter(w, e, c).deleted
  {
    LeaveOk(c, Actor(e));
  }

  lemma ExtendsTrans(a: seq<string>, b: seq<string>, c: seq<string>)
    requires Extends(a, b) && Extends(b, c)
    ensures Extends(a, c)
  {
    assert c[|c| - |a|..] == c[|c| - |b|..][|b| - |a|..];
  }

  /** The underlying canvas is destroyed only when its last connected user destroys it. */
  lemma OnlyLastUserDestroys(w: World, e: Event)
    requires WorldInv(w) && Step(w, e).store.destroyed != w.store.destroyed
    ensures e.DestroyCanvas? && Found(w, e.canvas, e.user)
    ensures Step(w, e).store.destroyed == w.store.destroyed + [e.canvas]
    ensures e.canvas in TableOf(w)
    ensures forall i :: 0 <= i < |TableOf(w)[e.canvas].users| && TableOf(w)[e.canvas].users[i].name != e.user ==>
                          !TableOf(w)[e.canvas].users[i].connected
  {
    hide ThreadsOk, Provenance;
    if e.Disconnect? && ValidEvent(e) {
      DisconnectKeeps(w.store, e.user);
    }
    assert e.DestroyCanvas?;
    FoundIsReachable(w, e.canvas, e.user);
    TableIsOk(w);
    var c := TableOf(w)[e.canvas];
    var j := FindUser(c.users, e.user);
    AbandonOk(c, j);
    var left := Depart(c, j);
    assert !HasConnected(left.users);
    assert forall i :: 0 <= i < |c.users| && i != j ==> left.users[i] == c.users[i];
  }

  // ------------------------------------------------------- stuck and unstuck

  /** Somebody waits although every connected user does: the barrier is complete but nobody was released. */
  predicate Stuck(c: Canvas) {
    (exists i :: 0 <= i < |c.users| && c.users[i].waiting) && Complete(c.users)
  }

  predicate NoneStuck(t: Table) {
    forall id :: id in t ==> !Stuck(t[id])
  }

  /** Right after a barrier call found its canvas, that canvas is not stuck, whatever went before. */
  lemma BarrierCallUnsticks(w: World, t: nat, id: nat, user: string)
    requires WorldInv(w) && Free(w, t) && ValidUsername(user) && Found(w, id, user)
    ensures id in TableOf(Step(w, Enter(t, id, user))) && !Stuck(TableOf(Step(w, Enter(t, id, user)))[id])
  {
    FoundIsReachable(w, id, user);
    TableIsOk(w);
    RecordStep(w, Enter(t, id, user), id);
    hide StoreInv, Step, CanvasTable;
  }

  lemma ConnectUnstuck(c: Canvas, j: nat)
    requires CanvasOk(c) && j < |c.users| && !Stuck(c)
    ensures !Stuck(Connect(c, j))
  {
    var c' := Connect(c, j);
    if i :| 0 <= i < |c'.users| && c'.users[i].waiting {
      assert c.users[i].waiting;
      var k :| 0 <= k < |c.users| && c.users[k].connected && !c.users[k].waiting;
      assert c'.users[k].connected && !c'.users[k].waiting;
    }
  }

  lemma ShareUnstuck(c: Canvas, other: string)
    requires !Stuck(c)
    ensures !Stuck(ShareWith(c, other))
  {
    var c' := ShareWith(c, other);
    if c' != c {
      assert forall i :: 0 <= i < |c.users| ==> c'.users[i + 1] == c.users[i];
      if i :| 0 <= i < |c'.users| && c'.users[i].waiting {
        assert c.users[i - 1].waiting;
        var k :| 0 <= k < |c.users| && c.users[k].connected && !c.users[k].waiting;
        assert c'.users[k + 1].connected && !c'.users[k + 1].waiting;
      }
    }
  }

  /** Without the user, somebody waits and everybody connected waits. */
  predicate LeavesStuck(c: Canvas, user: string) {
    && (exists i :: 0 <= i < |c.users| && c.users[i].name != user && c.users[i].waiting)
    && (forall i :: 0 <= i < |c.users| && c.users[i].name != user && c.users[i].connected ==> c.users[i].waiting)
  }

  /** Either way of departing strands waiting users exactly if somebody else waits and everybody else connected waits too. */
  lemma DepartureStrandsIff(c: Canvas, user: string)
    requires CanvasOk(c) && HasUser(c.users, user)
    ensures Stuck(Store.Leave(c, user)) <==> LeavesStuck(c, user)
    ensures Stuck(MaybeDestroy(Abandon(c, FindUser(c.users, user)))) <==> LeavesStuck(c, user)
  {
    var j := FindUser(c.users, user);
    var left := Depart(c, j);
    assert forall i :: 0 <= i < |c.users| && i != j ==> left.users[i] == c.users[i] && c.users[i].name != user;
    assert !left.users[j].connected && !left.users[j].waiting;
    assert Store.Leave(c, user) == left && MaybeDestroy(Abandon(c, j)).users == left.users;
  }

  /** The event takes its user off a canvas the user is on. */
  predicate TakesOff(w: World, e: Event, c: Canvas) {
    Enabled(w, e) && ((e.Disconnect? && HasUser(c.users, e.user))
                      || (e.DestroyCanvas? && e.canvas == c.id && Usable(c, c.id, e.user)))
  }

  /** A step strands the waiting users of a canvas if and only if it is a departure that meets the condition. */
  lemma StrandedIff(w: World, e: Event, id: nat)
    requires WorldInv(w) && id in TableOf(w) && !Stuck(TableOf(w)[id])
    ensures id in TableOf(Step(w, e))
    ensures Stuck(TableOf(Step(w, e))[id]) <==> TakesOff(w, e, TableOf(w)[id]) && LeavesStuck(TableOf(w)[id], e.user)
  {
    hide StoreInv, Step, TableOf, Stuck, LeavesStuck, CanvasAfter, ThreadsOk, Provenance, CanvasOk;
    TableIsOk(w);
    RecordStep(w, e, id);
    var c := TableOf(w)[id];
    if TakesOff(w, e, c) {
      DepartureStrandsIff(c, e.user);
      TakenOff(w, e, c);
    } else if CanvasAfter(w, e, c) != c {
      UnstuckRecord(w, e, c);
    }
  }

  lemma TakenOff(w: World, e: Event, c: Canvas)
    requires TakesOff(w, e, c)
    ensures CanvasAfter(w, e, c) == if e.Disconnect? then Store.Leave(c, e.user) else MaybeDestroy(Abandon(c, FindUser(c.users, e.user)))
  {
    hide Store.Leave, Abandon, MaybeDestroy, Enabled;
  }

  lemma UnstuckRecord(w: World, e: Event, c: Canvas)
    requires CanvasOk(c) && !Stuck(c) && !TakesOff(w, e, c)
    ensures !Stuck(CanvasAfter(w, e, c))
  {
    var j := FindUser(c.users, Actor(e));
    if j < |c.users| {
      ConnectUnstuck(c, j);
      EnterUnstuck(Connect(c, j), j);
      if e.ShareCanvas? { ShareUnstuck(Connect(c, j), e.other); }
    }
    hide Stuck, Connect, ShareWith, EnterBarrier, CanvasOk, Enabled;
  }

  lemma EnterUnstuck(c: Canvas, j: nat)
    requires j < |c.users|
    ensures !Stuck(EnterBarrier(c, j))
  {
  }

  /** Without a departure no step strands the waiting users of a canvas. */
  lemma UnstuckStep(w: World, e: Event)
    requires WorldInv(w) && NoneStuck(TableOf(w)) && !IsDeparture(e)
    ensures NoneStuck(TableOf(Step(w, e)))
  {
    hide StoreInv, Step, TableOf, Stuck, ThreadsOk, Provenance, Enabled;
    forall id | id in TableOf(Step(w, e)) ensures !Stuck(TableOf(Step(w, e))[id]) {
      if id in TableOf(w) {
        StrandedIff(w, e, id);
      } else {
        NewRecord(w, e, id);
        NewcomerUnstuck(id, e.user);
      }
    }
  }

  lemma NewcomerUnstuck(id: nat, creator: string)
    ensures !Stuck(Canvas(id, true, false, [User(creator, true, false)]))
  {
  }

  predicate IsDeparture(e: Event) {
    e.DestroyCanvas? || e.Disconnect?
  }

  /** In a run without departures, whenever a user of a canvas waits, some connected user of it does not. */
  lemma {:induction false} NoDeparturesNoneStuck(n: nat, es: seq<Event>)
    requires forall i :: 0 <= i < |es| ==> !IsDeparture(es[i])
    ensures NoneStuck(TableOf(Run(Initial(n), es)))
  {
    AlwaysInv(n, []);
    UnstuckRun(Initial(n), es);
  }

  lemma {:induction false} UnstuckRun(w: World, es: seq<Event>)
    requires WorldInv(w) && NoneStuck(TableOf(w))
    requires forall i :: 0 <= i < |es| ==> !IsDeparture(es[i])
    ensures NoneStuck(TableOf(Run(w, es)))
    decreases |es|
  {
    if es != [] {
      hide WorldInv, Step, NoneStuck, TableOf;
      UnstuckStep(w, es[0]);
      StepKeeps(w, es[0]);
      UnstuckRun(Step(w, es[0]), es[1..]);
    }
  }

  function TwoUsers(bOn: bool, aWaits: bool): seq<User> {
    [User("b", bOn, false), User("a", true, aWaits)]
  }

  /** One canvas, one thread: the states of the run below. */
  function Strand(users: seq<User>, th: Thread, shares: seq<(nat, string, string)>): World {
    World(Handles(2, [Canvas(1, true, false, users)], [], [], []), [th], [], shares)
  }

  lemma StrandCreate()
    ensures Step(Initial(1), CreateCanvas(0, "a")) == Strand([User("a", true, false)], Idle, [])
  {
  }

  lemma StrandFind()
    ensures FindUser([User("a", true, false)], "a") == 0 && FindUser([User("a", true, false)], "b") == 1
    ensures forall x, y :: FindUser(TwoUsers(x, y), "a") == 1 && FindUser(TwoUsers(x, y), "b") == 0
  {
    assert forall x, y :: TwoUsers(x, y)[1..] == [User("a", true, y)];
  }

  lemma StrandShare()
    ensures Step(Strand([User("a", true, false)], Idle, []), ShareCanvas(0, 1, "a", "b"))
         == Strand(TwoUsers(false, false), Idle, [(1, "a", "b")])
  {
    StrandFind();
    var w := Strand([User("a", true, false)], Idle, []);
    var c := w.store.canvases[0];
    assert Usable(c, 1, "a");
    assert CanvasFor(w.store, 1, "a") == 0;
    assert Connect(c, 0) == c;
    assert ShareWith(c, "b").users == TwoUsers(false, false);
  }

  lemma StrandUse()
    ensures Step(Strand(TwoUsers(false, false), Idle, [(1, "a", "b")]), Place(0, 1, 0, "b"))
         == Strand(TwoUsers(true, false), Idle, [(1, "a", "b")])
  {
    StrandFind();
    var w := Strand(TwoUsers(false, false), Idle, [(1, "a", "b")]);
    var c := w.store.canvases[0];
    assert CanvasFor(w.store, 1, "b") == 0;
    assert Connect(c, 0).users == TwoUsers(true, false);
  }

  lemma StrandEnter()
    ensures Step(Strand(TwoUsers(true, false), Idle, [(1, "a", "b")]), Enter(0, 1, "a"))
         == Strand(TwoUsers(true, true), AtBarrier(1, "a", true), [(1, "a", "b")])
  {
    StrandFind();
    var w := Strand(TwoUsers(true, false), Idle, [(1, "a", "b")]);
    var c := w.store.canvases[0];
    assert CanvasTable(w.store.canvases) == map[1 := c];
    assert Wait(Connect(c, 1), 1).users == TwoUsers(true, true);
    assert TwoUsers(true, true)[0].connected && !TwoUsers(true, true)[0].waiting;
  }

  lemma StrandLeave()
    ensures Step(Strand(TwoUsers(true, true), AtBarrier(1, "a", true), [(1, "a", "b")]), Disconnect(None, "b"))
         == Strand(TwoUsers(false, true), AtBarrier(1, "a", false), [(1, "a", "b")])
  {
    StrandFind();
    var w := Strand(TwoUsers(true, true), AtBarrier(1, "a", true), [(1, "a", "b")]);
    var c := w.store.canvases[0];
    assert Store.Leave(c, "b") == c.(users := TwoUsers(false, true));
    assert HasUser(w.store.canvases[0].users, "b");
    assert CanvasesOf(w.store.canvases, "b") == {1};
    assert w.store.canvases[1..] == [];
  }

  lemma StrandEnd()
    ensures var w := Strand(TwoUsers(false, true), AtBarrier(1, "a", false), [(1, "a", "b")]);
            && 1 in TableOf(w) && Stuck(TableOf(w)[1])
            && Step(w, Resume(0)).threads == [AtBarrier(1, "a", true)]
  {
    StrandFind();
    var w := Strand(TwoUsers(false, true), AtBarrier(1, "a", false), [(1, "a", "b")]);
    assert CanvasTable(w.store.canvases) == map[1 := w.store.canvases[0]];
    assert w.store.canvases[0].users[1].waiting;
  }

  /** "a" creates canvas 1 and shares it with "b", "b" looks it up, "a" blocks at the barrier. */
  const MEETING: seq<Event> := [CreateCanvas(0, "a"), ShareCanvas(0, 1, "a", "b"), Place(0, 1, 0, "b"), Enter(0, 1, "a")]

  /** One worker, two users, one of them waiting for the other. */
  function Met(): World {
    Strand(TwoUsers(true, true), AtBarrier(1, "a", true), [(1, "a", "b")])
  }

  lemma RunStep(w: World, e: Event, w': World, es: seq<Event>)
    requires Step(w, e) == w'
    ensures Run(w, [e] + es) == Run(w', es)
  {
    assert ([e] + es)[1..] == es;
  }

  lemma MeetingRun(rest: seq<Event>)
    ensures Run(Initial(1), MEETING + rest) == Run(Met(), rest)
  {
    hide Step, Strand, Run, Initial;
    StrandCreate();
    StrandShare();
    StrandUse();
    StrandEnter();
    var es := [MEETING[3]] + rest;
    RunStep(Strand(TwoUsers(true, false), Idle, [(1, "a", "b")]), MEETING[3], Met(), rest);
    RunStep(Strand(TwoUsers(false, false), Idle, [(1, "a", "b")]), MEETING[2], Strand(TwoUsers(true, false), Idle, [(1, "a", "b")]), es);
    RunStep(Strand([User("a", true, false)], Idle, []), MEETING[1], Strand(TwoUsers(false, false), Idle, [(1, "a", "b")]), [MEETING[2]] + es);
    RunStep(Initial(1), MEETING[0], Strand([User("a", true, false)], Idle, []), [MEETING[1]] + ([MEETING[2]] + es));
    assert MEETING + rest == [MEETING[0]] + ([MEETING[1]] + ([MEETING[2]] + es));
  }

  /**
   * Such a run exists: while "a" waits "b" disconnects; then "a" goes back to
   * waiting although it is the only one connected.
   */
  lemma StrandedRun()
    ensures var w := Run(Initial(1), MEETING + [Disconnect(None, "b")]);
            && 1 in TableOf(w) && Stuck(TableOf(w)[1])
            && Step(w, Resume(0)).threads == [AtBarrier(1, "a", true)]
  {
    hide Step, Strand, Initial, TableOf, Stuck;
    MeetingRun([Disconnect(None, "b")]);
    StrandLeave();
    StrandEnd();
    var left := Strand(TwoUsers(false, true), AtBarrier(1, "a", false), [(1, "a", "b")]);
    RunStep(Met(), Disconnect(None, "b"), left, []);
    assert [Disconnect(None, "b")] + [] == [Disconnect(None, "b")];
  }

  // --------------------------------------------------------------- provenance

  predicate SharedNext(id: nat, path: seq<string>, i: nat, shares: seq<(nat, string, string)>)
    requires i + 1 < |path|
  {
    (id, path[i], path[i + 1]) in shares
  }

  /** path leads from the creator of canvas id to the user, each share made by someone on the path before. */
  predicate ShareChain(path: seq<string>, id: nat, shares: seq<(nat, string, string)>) {
    path != [] && forall i :: 0 <= i < |path| - 1 ==> SharedNext(id, path, i, shares)
  }

  lemma {:induction false} ChainTo(id: nat, names: seq<string>, j: nat, shares: seq<(nat, string, string)>)
    returns (path: seq<string>)
    requires SharedIn(id, names, shares) && j < |names|
    ensures ShareChain(path, id, shares) && path[0] == names[|names| - 1] && path[|path| - 1] == names[j]
    decreases |names| - j
  {
    if j == |names| - 1 {
      path := [names[j]];
    } else {
      assert LetIn(id, names, j, shares);
      var m :| j < m < |names| && SharedBy(id, names, m, j, shares);
      var before := ChainTo(id, names, m, shares);
      path := before + [names[j]];
      forall i | 0 <= i < |path| - 1 ensures SharedNext(id, path, i, shares) {
        if i < |before| - 1 { assert SharedNext(id, before, i, shares); }
      }
    }
  }

  /** The event creates canvas id for the user. */
  predicate Creates(w: World, e: Event, id: nat, user: string) {
    Enabled(w, e) && e.CreateCanvas? && w.store.nextId == id && e.user == user
  }

  /** The oldest name on an access list. */
  function Eldest(c: Canvas): string {
    if c.users == [] then "" else c.users[|c.users| - 1].name
  }

  lemma EldestStays(w: World, e: Event, c: Canvas)
    requires c.users != []
    ensures CanvasAfter(w, e, c).users != [] && Eldest(CanvasAfter(w, e, c)) == Eldest(c)
  {
    hide CanvasAfter;
    NamesStep(w, e, c);
    var was, now := NameList(c), NameList(CanvasAfter(w, e, c));
    assert was[|was| - 1] == Eldest(c) && now[|now| - 1] == was[|was| - 1];
  }

  lemma HasUsers(w: World, id: nat)
    requires WorldInv(w) && id in TableOf(w)
    ensures TableOf(w)[id].users != []
  {
    hide StoreInv, TableOf, ThreadsOk, LetIn;
    assert SharedIn(id, NameList(TableOf(w)[id]), w.shares);
  }

  /** The oldest name on a canvas's access list is, for good, that of the user who created it. */
  lemma {:induction false} EldestCreated(w: World, es: seq<Event>, id: nat)
    requires WorldInv(w) && id in TableOf(Run(w, es))
    ensures var name := Eldest(TableOf(Run(w, es))[id]);
            || (id in TableOf(w) && Eldest(TableOf(w)[id]) == name)
            || exists m :: 0 <= m < |es| && Creates(Run(w, es[..m]), es[m], id, name)
    decreases |es|
  {
    if es != [] {
      hide WorldInv, Step, TableOf, Creates, StoreInv, CanvasAfter, Eldest;
      var w1 := Step(w, es[0]);
      StepKeeps(w, es[0]);
      EldestCreated(w1, es[1..], id);
      var name := Eldest(TableOf(Run(w1, es[1..]))[id]);
      if id in TableOf(w1) && Eldest(TableOf(w1)[id]) == name {
        EldestStep(w, es[0], id);
        assert Run(w, es[..0]) == w;
      } else {
        var m :| 0 <= m < |es| - 1 && Creates(Run(w1, es[1..][..m]), es[1..][m], id, name);
        RunSplit(w, es[0], es[1..], m);
        assert [es[0]] + es[1..] == es;
        assert Creates(Run(w, es[..m + 1]), es[m + 1], id, name);
      }
    }
  }

  lemma EldestStep(w: World, e: Event, id: nat)
    requires WorldInv(w) && id in TableOf(Step(w, e))
    ensures var name := Eldest(TableOf(Step(w, e))[id]);
            if id in TableOf(w) then name == Eldest(TableOf(w)[id]) else Creates(w, e, id, name)
  {
    hide StoreInv, Step, TableOf, CanvasAfter, ThreadsOk, Provenance;
    if id in TableOf(w) {
      HasUsers(w, id);
      RecordStep(w, e, id);
      EldestStays(w, e, TableOf(w)[id]);
    } else {
      NewRecord(w, e, id);
    }
  }

  /** Every user on a canvas is linked to the user who created it by a chain of recorded shares. */
  lemma AccessComesFromShares(n: nat, es: seq<Event>, id: nat, user: string)
    ensures var w := Run(Initial(n), es);
            id in TableOf(w) && HasUser(TableOf(w)[id].users, user) ==>
              exists path, m :: ShareChain(path, id, w.shares) && path[|path| - 1] == user
                                && 0 <= m < |es| && Creates(Run(Initial(n), es[..m]), es[m], id, path[0])
  {
    hide WorldInv, TableOf, HasUser, Initial, Run, Creates, Eldest;
    AlwaysInv(n, es);
    var w := Run(Initial(n), es);
    if id in TableOf(w) && HasUser(TableOf(w)[id].users, user) {
      var path := AccessOf(w, id, user);
      NothingYet(n);
      AlwaysInv(n, []);
      EldestCreated(Initial(n), es, id);
      var m :| 0 <= m < |es| && Creates(Run(Initial(n), es[..m]), es[m], id, path[0]);
    }
  }

  lemma NothingYet(n: nat)
    ensures TableOf(Initial(n)) == map[] && Run(Initial(n), []) == Initial(n)
  {
  }

  lemma AccessOf(w: World, id: nat, user: string) returns (path: seq<string>)
    requires WorldInv(w) && id in TableOf(w) && HasUser(TableOf(w)[id].users, user)
    ensures ShareChain(path, id, w.shares) && path[0] == Eldest(TableOf(w)[id]) && path[|path| - 1] == user
  {
    hide ShareChain, StoreInv, TableOk, ThreadsOk;
    var c := TableOf(w)[id];
    assert SharedIn(id, NameList(c), w.shares);
    path := ChainTo(id, NameList(c), FindUser(c.users, user), w.shares);
  }

  /** A share is recorded only when the sharer could use the canvas at that moment. */
  lemma SharersHaveAccess(w: World, e: Event)
    requires WorldInv(w) && Step(w, e).shares != w.shares
    ensures e.ShareCanvas? && Reachable(TableOf(w), e.canvas, e.user)
    ensures Step(w, e).shares == w.shares + [(e.canvas, e.user, e.other)]
  {
    if e.ShareCanvas? {
      FoundIsReachable(w, e.canvas, e.user);
    }
    hide StoreInv, ThreadsOk, Provenance, CanvasTable;
  }
}
