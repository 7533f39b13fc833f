/** Every step of the shared canvases keeps their invariant; how one step moves names and barrier flags. */
module BarrierInvariant {
  import opened Auth
  import opened Sequences
  import opened Store
  import opened BarrierSystem

  // -------------------------------------------------------------- invariant

  /** Every canvas of the table has its own id and is well formed. */
  predicate TableOk(t: Table) {
    forall id :: id in t ==> t[id].id == id && CanvasOk(t[id])
  }

  /** A blocked thread's user is on its canvas, and a thread asleep in cond_wait has its flag up. */
  predicate ThreadOk(th: Thread, t: Table) {
    th.AtBarrier? || th.AtGate? ==>
      && th.canvas in t && HasUser(t[th.canvas].users, th.user)
      && (th.asleep ==> Flag(t, th.canvas, th.user))
  }

  predicate ThreadsOk(ts: seq<Thread>, t: Table) {
    forall k :: 0 <= k < |ts| ==> ThreadOk(ts[k], t)
  }

  /** The m-th name of a list shared canvas id with the j-th. */
  predicate SharedBy(id: nat, names: seq<string>, m: nat, j: nat, shares: seq<(nat, string, string)>)
    requires m < |names| && j < |names|
  {
    (id, names[m], names[j]) in shares
  }

  /** Someone below the j-th name shared the canvas with it. */
  ghost predicate LetIn(id: nat, names: seq<string>, j: nat, shares: seq<(nat, string, string)>)
    requires j < |names|
  {
    exists m :: j < m < |names| && SharedBy(id, names, m, j, shares)
  }

  /** Every name on an access list but the creator's, the last, was let in by a share from a name further down. */
  ghost predicate SharedIn(id: nat, names: seq<string>, shares: seq<(nat, string, string)>) {
    && names != []
    && forall j :: 0 <= j < |names| - 1 ==> LetIn(id, names, j, shares)
  }

  ghost predicate Provenance(t: Table, shares: seq<(nat, string, string)>) {
    forall id :: id in t ==> SharedIn(id, NameList(t[id]), shares)
  }

  ghost predicate WorldInv(w: World) {
    && StoreInv(w.store)
    && ThreadsOk(w.threads, TableOf(w))
    && Provenance(TableOf(w), w.shares)
  }

  lemma TableIsOk(w: World)
    requires StoreInv(w.store)
    ensures TableOk(TableOf(w))
    ensures forall id :: id in TableOf(w) ==> 0 < id < w.store.nextId
  {
    CanvasIdsFall(w.store);
    TableHolds(w.store.canvases);
    var t := TableOf(w);
    forall id | id in t ensures t[id].id == id && CanvasOk(t[id]) && 0 < id < w.store.nextId {
      var i :| 0 <= i < |w.store.canvases| && w.store.canvases[i].id == id;
    }
  }

  lemma StoreKeeps(w: World, e: Event)
    requires StoreInv(w.store)
    ensures StoreInv(Step(w, e).store)
  {
    hide StoreInv, GetCanvas, Barrier, Share, DestroyForUser, DisconnectUser, CanvasFor, Flag, Broadcast;
    if Enabled(w, e) {
      match e
      case CreateCanvas(_, user) => AddCanvasKeeps(w.store, user);
      case CreateSprite(_, user) => AddSpriteKeeps(w.store, user);
      case Place(_, id, sprite, user) => GetKeeps(w.store, id, user);
      case Move(_, placement, user) => GetKeeps(w.store, CanvasOfMove(w, placement, user), user);
      case Generate(_, id, user) => GetKeeps(w.store, id, user);
      case Frame(_, id, user) => GetKeeps(w.store, id, user);
      case Record(t, placed) => AddPlacementKeeps(w.store, w.threads[t].canvas, w.threads[t].sprite, w.threads[t].user);
      case Enter(_, id, user) => BarrierKeeps(w.store, id, user);
      case ShareCanvas(_, id, user, other) => ShareKeeps(w.store, id, user, other);
      case DestroyCanvas(_, id, user) => DestroyKeeps(w.store, id, user);
      case DropSprite(_, id, user, failed) => DestroySpriteKeeps(w.store, id, user, failed);
      case DropPlacement(_, id, user) => DestroyPlacementKeeps(w.store, id, user);
      case Disconnect(_, user) => DisconnectKeeps(w.store, user);
      case Stop(_) =>
      case Resume(_) =>
    }
  }

  // ------------------------------------------ how one canvas record can move

  function NameList(c: Canvas): seq<string> {
    seq(|c.users|, j requires 0 <= j < |c.users| => c.users[j].name)
  }

  /** b is a with the same user names, or with new names in front: access lists never shrink. */
  predicate Extends(a: seq<string>, b: seq<string>) {
    |a| <= |b| && b[|b| - |a|..] == a
  }

  lemma KeepsUser(a: Canvas, b: Canvas, user: string)
    requires Extends(NameList(a), NameList(b)) && HasUser(a.users, user)
    ensures HasUser(b.users, user)
  {
    var j := FindUser(a.users, user);
    var k := |b.users| - |a.users| + j;
    assert NameList(b)[k] == NameList(b)[|b.users| - |a.users|..][j] == NameList(a)[j];
    assert b.users[k].name == user;
  }

  /** The canvas an event acts on through handles_get_canvas; 0 for none. */
  function Subject(w: World, e: Event): nat {
    match e
    case Place(_, id, _, _) => id
    case Move(_, placement, user) => CanvasOfMove(w, placement, user)
    case Generate(_, id, _) => id
    case Frame(_, id, _) => id
    case Enter(_, id, _) => id
    case ShareCanvas(_, id, _, _) => id
    case DestroyCanvas(_, id, _) => id
    case _ => INVALID_HANDLE
  }

  function Actor(e: Event): string {
    match e
    case Record(_, _) => ""
    case Stop(_) => ""
    case Resume(_) => ""
    case _ => e.user
  }

  /** What one event makes of one existing canvas record. */
  function CanvasAfter(w: World, e: Event, c: Canvas): Canvas {
    if !Enabled(w, e) then c
    else if e.Disconnect? then Store.Leave(c, e.user)
    else if Subject(w, e) != c.id || !Usable(c, c.id, Actor(e)) then c
    else
      var j := FindUser(c.users, Actor(e));
      match e
      case Enter(_, _, _) => EnterBarrier(Connect(c, j), j)
      case ShareCanvas(_, _, _, other) => ShareWith(Connect(c, j), other)
      case DestroyCanvas(_, _, _) => MaybeDestroy(Abandon(c, j))
      case Place(_, _, _, _) => Connect(c, j)
      case Move(_, _, _) => Connect(c, j)
      case Generate(_, _, _) => Connect(c, j)
      case Frame(_, _, _) => Connect(c, j)
      case _ => c
  }

  lemma RecordStep(w: World, e: Event, id: nat)
    requires StoreInv(w.store) && id in TableOf(w)
    ensures id in TableOf(Step(w, e)) && TableOf(Step(w, e))[id] == CanvasAfter(w, e, TableOf(w)[id])
  {
    hide Store.Leave, Connect, EnterBarrier, ShareWith, Abandon, MaybeDestroy, HasUser, CanvasOk, Step, TableOf, CanvasOfMove, StoreInv;
    hide Enabled, Usable;
    StepTable(w, e);
    TableIsOk(w);
  }

  lemma NewRecord(w: World, e: Event, id: nat)
    requires StoreInv(w.store) && id in TableOf(Step(w, e)) && id !in TableOf(w)
    ensures e.CreateCanvas? && Enabled(w, e) && id == w.store.nextId
    ensures TableOf(Step(w, e))[id] == Canvas(id, true, false, [User(e.user, true, false)])
  {
    StepTable(w, e);
    hide Store.Leave, Connect, EnterBarrier, ShareWith, Abandon, MaybeDestroy, HasUser, CanvasOk, Step, TableOf, CanvasOfMove, Free, StoreInv;
  }

  lemma FlagsKeepNames(c: Canvas, j: nat)
    requires j < |c.users|
    ensures NameList(Connect(c, j)) == NameList(c) && NameList(Depart(c, j)) == NameList(c)
    ensures NameList(EnterBarrier(c, j)) == NameList(c)
  {
  }

  lemma ShareNames(c: Canvas, j: nat, other: string)
    requires j < |c.users| && ValidUsername(other)
    ensures HasUser(Connect(c, j).users, other) == HasUser(c.users, other)
    ensures NameList(ShareWith(Connect(c, j), other)) == if HasUser(c.users, other) then NameList(c) else [other] + NameList(c)
  {
    SameNamesSameFind(c.users, Connect(c, j).users, other);
  }

  /** Does this event add `e.other` to the access list of c? */
  predicate AddsName(w: World, e: Event, c: Canvas) {
    e.ShareCanvas? && Enabled(w, e) && e.canvas == c.id && Usable(c, c.id, e.user) && !HasUser(c.users, e.other)
  }

  /** One step never takes a name off an access list, and only a share by a user on it adds one. */
  lemma NamesStep(w: World, e: Event, c: Canvas)
    ensures CanvasAfter(w, e, c).id == c.id
    ensures NameList(CanvasAfter(w, e, c)) == if AddsName(w, e, c) then [e.other] + NameList(c) else NameList(c)
    ensures Extends(NameList(c), NameList(CanvasAfter(w, e, c)))
  {
    var j := FindUser(c.users, Actor(e));
    if j < |c.users| {
      FlagsKeepNames(c, j);
      FlagsKeepNames(Connect(c, j), j);
      if e.ShareCanvas? && Enabled(w, e) { ShareNames(c, j, e.other); }
    }
    hide Connect, Depart, EnterBarrier, ShareWith, Usable, CanvasOfMove;
  }

  // --------------------------------------------------- the barrier flag moves

  predicate ReleasesBy(w: World, e: Event, c: Canvas) {
    && e.Enter? && Enabled(w, e) && e.canvas == c.id && Usable(c, c.id, e.user)
    && Completes(map[c.id := c], c.id, e.user)
  }

  /** This event takes the user off the canvas. */
  predicate Departs(w: World, e: Event, id: nat, user: string) {
    Enabled(w, e) && ((e.Disconnect? && e.user == user) || (e.DestroyCanvas? && e.canvas == id && e.user == user))
  }

  /** A barrier call of this user on this canvas. */
  predicate CallsBarrier(w: World, e: Event, id: nat, user: string) {
    e.Enter? && e.canvas == id && e.user == user && Enabled(w, e)
  }

  /** Rewriting one user's flags changes that user's answer only. */
  lemma UpdatedWaits(users: seq<User>, j: nat, u: User, user: string)
    requires j < |users| && u.name == users[j].name && DistinctNames(users)
    ensures FindUser(users[j := u], user) == FindUser(users, user)
    ensures UserWaits(users[j := u], user) == if users[j].name == user then u.waiting else UserWaits(users, user)
    ensures users[j].name == user ==> FindUser(users, user) == j
  {
    SameNamesSameFind(users, users[j := u], user);
  }

  lemma ConnectWaits(c: Canvas, j: nat, user: string)
    requires CanvasOk(c) && j < |c.users|
    ensures UserWaits(Connect(c, j).users, user) == UserWaits(c.users, user)
    ensures DistinctNames(Connect(c, j).users)
  {
    UpdatedWaits(c.users, j, c.users[j].(connected := true), user);
  }

  lemma DepartWaits(c: Canvas, j: nat, user: string)
    requires CanvasOk(c) && j < |c.users|
    ensures UserWaits(Depart(c, j).users, user) <==> UserWaits(c.users, user) && c.users[j].name != user
  {
    UpdatedWaits(c.users, j, c.users[j].(connected := false, waiting := false), user);
  }

  lemma ReleaseWaits(users: seq<User>, user: string)
    ensures !UserWaits(Release(users), user)
  {
    SameNamesSameFind(users, Release(users), user);
  }

  lemma EnterWaits(c: Canvas, j: nat, user: string)
    requires DistinctNames(c.users) && j < |c.users|
    ensures var done := Complete(Wait(c, j).users);
            UserWaits(EnterBarrier(c, j).users, user) <==> !done && (UserWaits(c.users, user) || c.users[j].name == user)
  {
    UpdatedWaits(c.users, j, c.users[j].(waiting := true), user);
    ReleaseWaits(Wait(c, j).users, user);
  }

  lemma ShareWaits(c: Canvas, other: string, user: string)
    requires ValidUsername(other)
    ensures UserWaits(ShareWith(c, other).users, user) == UserWaits(c.users, user)
  {
    if !HasUser(c.users, other) {
      assert ShareWith(c, other).users[1..] == c.users;
    }
  }

  /**
   * A waiting flag comes down only when a barrier call finds every connected user
   * waiting or when that user departs, and goes up only in that user's own call.
   */
  lemma FlagMoves(w: World, e: Event, c: Canvas, user: string)
    requires CanvasOk(c)
    ensures UserWaits(c.users, user) && !UserWaits(CanvasAfter(w, e, c).users, user)
            ==> ReleasesBy(w, e, c) || Departs(w, e, c.id, user)
    ensures !UserWaits(c.users, user) && UserWaits(CanvasAfter(w, e, c).users, user)
            ==> CallsBarrier(w, e, c.id, user)
  {
    if CanvasAfter(w, e, c) != c {
      var j := FindUser(c.users, Actor(e));
      if j < |c.users| {
        ConnectWaits(c, j, user);
        DepartWaits(c, j, user);
        EnterWaits(Connect(c, j), j, user);
        if e.ShareCanvas? { ShareWaits(Connect(c, j), e.other, user); }
      }
      hide UserWaits, Connect, Depart, EnterBarrier, ShareWith, Complete, Wait;
    }
  }

  // ------------------------------------------------------ every step keeps it

  /** Where a thread stands after an event that neither resumes nor starts it. */
  lemma BystanderOk(w: World, e: Event, th: Thread, th': Thread)
    requires StoreInv(w.store) && ThreadOk(th, TableOf(w))
    requires th' == th || ((th.AtBarrier? || th.AtGate?) && th' == Awake(th))
    requires (th.AtBarrier? || th.AtGate?) && th.canvas in TableOf(w) ==>
               var c := TableOf(w)[th.canvas];
               CanvasAfter(w, e, c) != c && (ReleasesBy(w, e, c) || Departs(w, e, th.canvas, th.user)) ==> !th'.asleep
    ensures ThreadOk(th', TableOf(Step(w, e)))
  {
    hide StoreInv, Step, TableOf, CanvasAfter, ReleasesBy, Departs, Extends, NameList, CanvasOk, CallsBarrier;
    if th.AtBarrier? || th.AtGate? {
      var id := th.canvas;
      var c := TableOf(w)[id];
      TableIsOk(w);
      RecordStep(w, e, id);
      NamesStep(w, e, c);
      KeepsUser(c, CanvasAfter(w, e, c), th.user);
      FlagMoves(w, e, c, th.user);
    }
  }

  lemma PassGateOk(w: World, t: nat, gate: Gate, id: nat, user: string)
    requires t < |w.threads| && ThreadsOk(w.threads, TableOf(w))
    ensures ThreadsOk(PassGate(w, t, gate, id, user).threads, TableOf(w))
    ensures PassGate(w, t, gate, id, user).store == w.store
  {
  }

  lemma BystandersOk(w: World, e: Event)
    requires StoreInv(w.store) && ThreadsOk(w.threads, TableOf(w))
    requires !e.Enter? && !e.DestroyCanvas? && !e.Disconnect?
    ensures ThreadsOk(w.threads, TableOf(Step(w, e)))
  {
    hide StoreInv, Step, TableOf, ThreadOk;
    forall k | 0 <= k < |w.threads| ensures ThreadOk(w.threads[k], TableOf(Step(w, e))) {
      BystanderOk(w, e, w.threads[k], w.threads[k]);
    }
  }

  lemma BroadcastOk(w: World, e: Event, ids: set<nat>)
    requires StoreInv(w.store) && ThreadsOk(w.threads, TableOf(w))
    requires forall id :: id in TableOf(w) && CanvasAfter(w, e, TableOf(w)[id]) != TableOf(w)[id] ==> id in ids
    ensures ThreadsOk(Broadcast(w.threads, ids), TableOf(Step(w, e)))
  {
    hide StoreInv, Step, TableOf, CanvasAfter, ThreadOk, ReleasesBy, Departs;
    forall k | 0 <= k < |w.threads| ensures ThreadOk(Broadcast(w.threads, ids)[k], TableOf(Step(w, e))) {
      assert ThreadOk(w.threads[k], TableOf(w));
      BystanderOk(w, e, w.threads[k], Broadcast(w.threads, ids)[k]);
    }
  }

  lemma EnterOkThreads(w: World, t: nat, id: nat, user: string)
    requires StoreInv(w.store) && ThreadsOk(w.threads, TableOf(w))
    ensures ThreadsOk(Step(w, Enter(t, id, user)).threads, TableOf(Step(w, Enter(t, id, user))))
  {
    var e := Enter(t, id, user);
    var tb := TableOf(w);
    FoundIsReachable(w, id, user);
    TableIsOk(w);
    hide StoreInv, TableOf, ThreadOk, CanvasOk, EnterBarrier, Connect, Usable, Barrier;
    if Enabled(w, e) && Found(w, id, user) {
      if Completes(tb, id, user) {
        BroadcastOk(w, e, {id});
      } else {
        forall k | 0 <= k < |w.threads| && k != t ensures ThreadOk(w.threads[k], TableOf(Step(w, e))) {
          BystanderOk(w, e, w.threads[k], w.threads[k]);
        }
        EntererOk(w, t, id, user);
      }
    } else {
      assert Step(w, e) == w;
    }
  }

  lemma EntererOk(w: World, t: nat, id: nat, user: string)
    requires StoreInv(w.store) && ValidUsername(user) && Free(w, t) && Found(w, id, user) && !Completes(TableOf(w), id, user)
    ensures ThreadOk(AtBarrier(id, user, true), TableOf(Step(w, Enter(t, id, user))))
  {
    FoundIsReachable(w, id, user);
    TableIsOk(w);
    EnterTable(w, t, id, user);
    var c := TableOf(w)[id];
    var j := FindUser(c.users, user);
    ConnectWaits(c, j, user);
    EnterWaits(Connect(c, j), j, user);
  }

  lemma ResumeOk(w: World, t: nat)
    requires StoreInv(w.store) && ThreadsOk(w.threads, TableOf(w)) && t < |w.threads|
    ensures ThreadsOk(ResumeStep(w, t).threads, TableOf(w)) && ResumeStep(w, t).store == w.store
  {
    if w.threads[t].AtGate? {
      PassGateOk(w, t, w.threads[t].gate, w.threads[t].canvas, w.threads[t].user);
    }
  }

  lemma GateOkThreads(w: World, e: Event)
    requires StoreInv(w.store) && ThreadsOk(w.threads, TableOf(w))
    requires e.Place? || e.Move? || e.Generate?
    ensures ThreadsOk(Step(w, e).threads, TableOf(Step(w, e)))
  {
    BystandersOk(w, e);
    hide StoreInv, CanvasTable, GetCanvas, Flag;
    var id := Subject(w, e);
    var w1 := Touch(w, id, Actor(e));
    if Step(w, e).threads != w.threads {
      var gate := match e
        case Place(_, _, sprite, _) => PlaceSprite(sprite)
        case Move(_, placement, _) => MovePlacement(placement)
        case _ => FrameSize;
      assert Step(w, e) == PassGate(w1, e.t, gate, id, e.user);
      hide ThreadOk;
      assert TableOf(Step(w, e)) == TableOf(w1);
      PassGateOk(w1, e.t, gate, id, e.user);
    }
  }

  lemma ThreadsKeep(w: World, e: Event)
    requires StoreInv(w.store) && ThreadsOk(w.threads, TableOf(w))
    ensures ThreadsOk(Step(w, e).threads, TableOf(Step(w, e)))
  {
    match e
    case Enter(t, id, user) => EnterOkThreads(w, t, id, user);
    case DestroyCanvas(_, id, user) =>
      FoundIsReachable(w, id, user);
      TableIsOk(w);
      hide StoreInv, ThreadOk, DestroyForUser, CanvasTable, Abandon, MaybeDestroy, CanvasOk;
      BroadcastOk(w, e, {id});
    case Disconnect(worker, user) => DisconnectOkThreads(w, worker, user);
    case Resume(t) => if Enabled(w, e) { ResumeOk(w, t); }
    case Place(_, _, _, _) => GateOkThreads(w, e);
    case Move(_, _, _) => GateOkThreads(w, e);
    case Generate(_, _, _) => GateOkThreads(w, e);
    case _ =>
      BystandersOk(w, e);
      hide StoreInv, CanvasTable, GetCanvas, Share;
  }

  lemma DisconnectOkThreads(w: World, worker: Option<nat>, user: string)
    requires StoreInv(w.store) && ThreadsOk(w.threads, TableOf(w))
    ensures ThreadsOk(Step(w, Disconnect(worker, user)).threads, TableOf(Step(w, Disconnect(worker, user))))
  {
    TableHolds(w.store.canvases) by { CanvasIdsFall(w.store); }
    var ids := CanvasesOf(w.store.canvases, user);
    forall id | id in TableOf(w) && HasUser(TableOf(w)[id].users, user) ensures id in ids {
      var i :| 0 <= i < |w.store.canvases| && w.store.canvases[i].id == id;
    }
    TableIsOk(w);
    hide StoreInv, ThreadOk, DisconnectUser, CanvasTable, CanvasOk, Depart;
    if Enabled(w, Disconnect(worker, user)) {
      BroadcastOk(w, Disconnect(worker, user), ids);
    }
  }

  lemma SharedInMore(id: nat, names: seq<string>, was: seq<(nat, string, string)>, now: seq<(nat, string, string)>, m: nat, other: string)
    requires SharedIn(id, names, was) && was <= now
    ensures SharedIn(id, names, now)
    ensures m < |names| && (id, names[m], other) in now ==> SharedIn(id, [other] + names, now)
  {
    forall j | 0 <= j < |names| - 1 ensures LetIn(id, names, j, now) {
      assert LetIn(id, names, j, was);
      var k :| j < k < |names| && SharedBy(id, names, k, j, was);
      assert SharedBy(id, names, k, j, now);
    }
    if m < |names| && (id, names[m], other) in now {
      forall j | 0 <= j < |names| ensures LetIn(id, [other] + names, j, now) {
        if j == 0 {
          assert SharedBy(id, [other] + names, m + 1, 0, now);
        } else {
          assert LetIn(id, names, j - 1, was);
          var k :| j - 1 < k < |names| && SharedBy(id, names, k, j - 1, was);
          assert SharedBy(id, [other] + names, k + 1, j, now);
        }
      }
    }
  }

  lemma SharedInGrows(w: World, e: Event, c: Canvas)
    requires SharedIn(c.id, NameList(c), w.shares) && CanvasOk(c)
    requires AddsName(w, e, c) ==> (c.id, e.user, e.other) in Step(w, e).shares
    requires w.shares <= Step(w, e).shares
    ensures SharedIn(c.id, NameList(CanvasAfter(w, e, c)), Step(w, e).shares)
  {
    hide SharedIn, Step, CanvasAfter, CanvasOk, CanvasOfMove, Enabled;
    NamesStep(w, e, c);
    var m := FindUser(c.users, Actor(e));
    assert m < |c.users| ==> NameList(c)[m] == Actor(e);
    SharedInMore(c.id, NameList(c), w.shares, Step(w, e).shares, m, if e.ShareCanvas? then e.other else "");
  }

  lemma SharesGrow(w: World, e: Event)
    requires StoreInv(w.store)
    ensures w.shares <= Step(w, e).shares
    ensures forall id :: id in TableOf(w) && AddsName(w, e, TableOf(w)[id]) && TableOf(w)[id].id == id ==> (id, e.user, e.other) in Step(w, e).shares
  {
    if e.ShareCanvas? {
      FoundIsReachable(w, e.canvas, e.user);
    }
    hide StoreInv, Share, GetCanvas, CanvasTable;
  }

  lemma ProvenanceKeeps(w: World, e: Event)
    requires WorldInv(w)
    ensures Provenance(TableOf(Step(w, e)), Step(w, e).shares)
  {
    TableIsOk(w);
    SharesGrow(w, e);
    hide StoreInv, Step, SharedIn, TableOf, AddsName, CanvasAfter, CanvasOk;
    forall id | id in TableOf(Step(w, e)) ensures SharedIn(id, NameList(TableOf(Step(w, e))[id]), Step(w, e).shares) {
      if id in TableOf(w) {
        RecordStep(w, e, id);
        SharedInGrows(w, e, TableOf(w)[id]);
      } else {
        NewRecord(w, e, id);
        CreatorAlone(id, e.user, Step(w, e).shares);
      }
    }
  }

  lemma CreatorAlone(id: nat, user: string, shares: seq<(nat, string, string)>)
    ensures SharedIn(id, NameList(Canvas(id, true, false, [User(user, true, false)])), shares)
  {
  }

  lemma StepKeeps(w: World, e: Event)
    requires WorldInv(w)
    ensures WorldInv(Step(w, e))
  {
    hide StoreInv, Step, TableOf, ThreadsOk, Provenance;
    StoreKeeps(w, e);
    ThreadsKeep(w, e);
    ProvenanceKeeps(w, e);
  }

  lemma {:induction false} RunKeeps(w: World, es: seq<Event>)
    requires WorldInv(w)
    ensures WorldInv(Run(w, es))
    decreases |es|
  {
    if es != [] {
      hide WorldInv, Step;
      StepKeeps(w, es[0]);
      RunKeeps(Step(w, es[0]), es[1..]);
    }
  }

  /** The invariant holds in every state any run of any number of threads reaches. */
  lemma AlwaysInv(n: nat, es: seq<Event>)
    ensures WorldInv(Run(Initial(n), es))
  {
    RunKeeps(Initial(n), es);
  }
}
