/**
 * The shared canvases as a step system: one step per critical section of a
 * request, taken by any worker thread for any logged-in user. A blocked thread
 * waits on its canvas's condition variable; Resume is such a thread getting the
 * mutex back, after a broadcast or spuriously.
 */
module BarrierSystem {
  import opened Auth
  import opened Sequences
  import opened Store

  /** What a gated request does once the barrier lets it: each is one call of the animation library. */
  datatype Gate = PlaceSprite(sprite: nat) | MovePlacement(placement: nat) | FrameSize

  datatype Thread =
    | Idle
    | AtBarrier(canvas: nat, user: string, asleep: bool)
    | AtGate(canvas: nat, user: string, gate: Gate, asleep: bool)
    | Recording(canvas: nat, sprite: nat, user: string)   // placed, handles_add_placement still to come
    | Drawing(canvas: nat, user: string)                  // past the gate of generate: buffers, file, frames, movie

  datatype Call = Call(gate: Gate, canvas: nat, user: string)

  /** log: the gated library calls made; shares: who shared which canvas with whom. */
  datatype World = World(store: Handles, threads: seq<Thread>, log: seq<Call>, shares: seq<(nat, string, string)>)

  /**
   * Requests run on worker thread t. A disconnect is a request, by Some(t), or the
   * main thread closing a client, by None.
   */
  datatype Event =
    | CreateCanvas(t: nat, user: string)
    | CreateSprite(t: nat, user: string)
    | Place(t: nat, canvas: nat, sprite: nat, user: string)
    | Move(t: nat, placement: nat, user: string)
    | Generate(t: nat, canvas: nat, user: string)
    | Frame(t: nat, canvas: nat, user: string)
    | Stop(t: nat)
    | Record(t: nat, placed: bool)
    | Enter(t: nat, canvas: nat, user: string)
    | ShareCanvas(t: nat, canvas: nat, user: string, other: string)
    | DestroyCanvas(t: nat, canvas: nat, user: string)
    | DropSprite(t: nat, sprite: nat, user: string, failed: bool)
    | DropPlacement(t: nat, placement: nat, user: string)
    | Disconnect(worker: Option<nat>, user: string)
    | Resume(t: nat)

  /** Requests come from logged-in users and share only with known users; both are valid names. */
  predicate ValidEvent(e: Event) {
    match e
    case Record(_, _) => true
    case Stop(_) => true
    case Resume(_) => true
    case ShareCanvas(_, _, user, other) => ValidUsername(user) && ValidUsername(other)
    case _ => ValidUsername(e.user)
  }

  predicate Free(w: World, t: nat) {
    t < |w.threads| && w.threads[t].Idle?
  }

  /** The event's thread is at the place where the event begins: idle, but for the later parts of a request. */
  predicate Ready(w: World, e: Event) {
    match e
    case Record(t, _) => t < |w.threads| && w.threads[t].Recording?
    case Frame(t, id, user) => t < |w.threads| && w.threads[t] == Drawing(id, user)
    case Stop(t) => t < |w.threads| && w.threads[t].Drawing?
    case Resume(t) => t < |w.threads| && (w.threads[t].AtBarrier? || w.threads[t].AtGate?)
    case Disconnect(worker, _) => worker.None? || Free(w, worker.value)
    case _ => Free(w, e.t)
  }

  predicate Enabled(w: World, e: Event) {
    ValidEvent(e) && Ready(w, e)
  }

  // ------------------------------------------------------------------ steps

  type Table = map<nat, Canvas>

  function TableOf(w: World): Table {
    CanvasTable(w.store.canvases)
  }

  predicate UserWaits(users: seq<User>, name: string) {
    HasUser(users, name) && users[FindUser(users, name)].waiting
  }

  /** barrier_waiting of the user on the canvas; false if either does not exist. */
  predicate Flag(t: Table, id: nat, user: string) {
    id in t && UserWaits(t[id].users, user)
  }

  predicate Found(w: World, id: nat, user: string) {
    CanvasFor(w.store, id, user) < |w.store.canvases|
  }

  predicate OnCanvas(th: Thread, id: nat) {
    (th.AtBarrier? || th.AtGate?) && th.canvas == id
  }

  function Awake(th: Thread): Thread
    requires th.AtBarrier? || th.AtGate?
  {
    match th
    case AtBarrier(id, user, _) => AtBarrier(id, user, false)
    case AtGate(id, user, gate, _) => AtGate(id, user, gate, false)
  }

  /** pthread_cond_broadcast on the canvases in `ids`. */
  function Broadcast(ts: seq<Thread>, ids: set<nat>): (r: seq<Thread>)
    ensures |r| == |ts|
    ensures forall k :: 0 <= k < |ts| ==>
              r[k] == if (ts[k].AtBarrier? || ts[k].AtGate?) && ts[k].canvas in ids then Awake(ts[k]) else ts[k]
  {
    seq(|ts|, k requires 0 <= k < |ts| =>
      if (ts[k].AtBarrier? || ts[k].AtGate?) && ts[k].canvas in ids then Awake(ts[k]) else ts[k])
  }

  /** Make the library call; a new placement is recorded, and frames are drawn, in later critical sections. */
  function Perform(w: World, t: nat, gate: Gate, id: nat, user: string): World
    requires t < |w.threads|
  {
    w.(log := w.log + [Call(gate, id, user)],
       threads := w.threads[t := match gate
                                 case PlaceSprite(sprite) => Recording(id, sprite, user)
                                 case FrameSize => Drawing(id, user)
                                 case MovePlacement(_) => Idle])
  }

  /** canvas_record_wait_for_barrier, then the call. */
  function PassGate(w: World, t: nat, gate: Gate, id: nat, user: string): World
    requires t < |w.threads|
  {
    if Flag(TableOf(w), id, user) then w.(threads := w.threads[t := AtGate(id, user, gate, true)])
    else Perform(w, t, gate, id, user)
  }

  function Touch(w: World, id: nat, user: string): World {
    w.(store := GetCanvas(w.store, id, user))
  }

  /** Would this user's barrier call complete the barrier right away? */
  predicate Completes(t: Table, id: nat, user: string) {
    id in t && HasUser(t[id].users, user) &&
    var j := FindUser(t[id].users, user);
    Complete(Wait(Connect(t[id], j), j).users)
  }

  function EnterStep(w: World, t: nat, id: nat, user: string): World
    requires t < |w.threads|
  {
    w.(store := Barrier(w.store, id, user),
       threads := if Completes(TableOf(w), id, user) then Broadcast(w.threads, {id})
                  else w.threads[t := AtBarrier(id, user, true)])
  }

  /** Ids of the canvases a user is on. */
  function CanvasesOf(cs: seq<Canvas>, user: string): set<nat> {
    set i | 0 <= i < |cs| && HasUser(cs[i].users, user) :: cs[i].id
  }

  function ResumeStep(w: World, t: nat): World
    requires t < |w.threads|
  {
    match w.threads[t]
    case AtBarrier(id, user, _) =>
      w.(threads := w.threads[t := if Flag(TableOf(w), id, user) then AtBarrier(id, user, true) else Idle])
    case AtGate(id, user, gate, _) =>
      PassGate(w, t, gate, id, user)
    case _ => w
  }

  function Step(w: World, e: Event): World {
    if !Enabled(w, e) then w else
    match e
    case CreateCanvas(_, user) => w.(store := AddCanvas(w.store, user))
    case CreateSprite(_, user) => w.(store := AddSprite(w.store, user))
    case Place(t, id, sprite, user) =>
      if !Found(w, id, user) || SpriteFor(w.store, sprite, user) == |w.store.sprites| then Touch(w, id, user)
      else PassGate(Touch(w, id, user), t, PlaceSprite(sprite), id, user)
    case Move(t, placement, user) =>
      var p := PlacementFor(w.store, placement, user);
      if p == |w.store.placements| then w
      else
        var id := w.store.placements[p].canvasId;
        if Found(w, id, user) then PassGate(Touch(w, id, user), t, MovePlacement(placement), id, user)
        else Perform(w, t, MovePlacement(placement), id, user)
    case Generate(t, id, user) =>
      if !Found(w, id, user) then w else PassGate(Touch(w, id, user), t, FrameSize, id, user)
    case Frame(t, id, user) =>
      if Found(w, id, user) then Touch(w, id, user) else w.(threads := w.threads[t := Idle])
    case Stop(t) => w.(threads := w.threads[t := Idle])
    case Record(t, placed) =>
      var Recording(id, sprite, user) := w.threads[t];
      w.(threads := w.threads[t := Idle],
         store := if placed then AddPlacement(w.store, id, sprite, user) else w.store)
    case Enter(t, id, user) =>
      if !Found(w, id, user) then w else EnterStep(w, t, id, user)
    case ShareCanvas(_, id, user, other) =>
      if !Found(w, id, user) then w
      else w.(store := Share(w.store, id, user, other), shares := w.shares + [(id, user, other)])
    case DestroyCanvas(_, id, user) =>
      if !Found(w, id, user) then w
      else w.(store := DestroyForUser(w.store, id, user), threads := Broadcast(w.threads, {id}))
    case DropSprite(_, id, user, failed) => w.(store := Store.DestroySprite(w.store, id, user, failed))
    case DropPlacement(_, id, user) => w.(store := Store.DestroyPlacement(w.store, id, user))
    case Disconnect(_, user) =>
      w.(store := DisconnectUser(w.store, user), threads := Broadcast(w.threads, CanvasesOf(w.store.canvases, user)))
    case Resume(t) => ResumeStep(w, t)
  }

  function Run(w: World, es: seq<Event>): World
    decreases |es|
  {
    if es == [] then w else Run(Step(w, es[0]), es[1..])
  }

  function Initial(n: nat): World {
    World(EMPTY, seq(n, _ => Idle), [], [])
  }

  // ------------------------------------------- what a step does to the table

  predicate Reachable(t: Table, id: nat, user: string) {
    id in t && Usable(t[id], id, user)
  }

  function Got(t: Table, id: nat, user: string): Table {
    if Reachable(t, id, user) then t[id := Connect(t[id], FindUser(t[id].users, user))] else t
  }

  /** The canvas id a gated placement request ends up at. */
  function CanvasOfMove(w: World, placement: nat, user: string): nat {
    var p := PlacementFor(w.store, placement, user);
    if p < |w.store.placements| then w.store.placements[p].canvasId else INVALID_HANDLE
  }

  /** The canvas table after an event, from the table before it. */
  function After(w: World, e: Event): Table {
    var t := TableOf(w);
    if !Enabled(w, e) then t else
    match e
    case CreateCanvas(_, user) => t[w.store.nextId := Canvas(w.store.nextId, true, false, [User(user, true, false)])]
    case Place(_, id, _, user) => Got(t, id, user)
    case Move(_, placement, user) => Got(t, CanvasOfMove(w, placement, user), user)
    case Generate(_, id, user) => Got(t, id, user)
    case Frame(_, id, user) => Got(t, id, user)
    case Enter(_, id, user) =>
      if !Reachable(t, id, user) then t
      else var j := FindUser(t[id].users, user); t[id := EnterBarrier(Connect(t[id], j), j)]
    case ShareCanvas(_, id, user, other) =>
      if !Reachable(t, id, user) then t
      else t[id := ShareWith(Connect(t[id], FindUser(t[id].users, user)), other)]
    case DestroyCanvas(_, id, user) =>
      if !Reachable(t, id, user) then t
      else t[id := MaybeDestroy(Abandon(t[id], FindUser(t[id].users, user)))]
    case Disconnect(_, user) => map id | id in t :: Store.Leave(t[id], user)
    case _ => t
  }

  /** The table knows exactly what the scan finds. */
  lemma FoundIsReachable(w: World, id: nat, user: string)
    requires StoreInv(w.store)
    ensures Found(w, id, user) <==> Reachable(TableOf(w), id, user)
    ensures Found(w, id, user) ==> TableOf(w)[id] == w.store.canvases[CanvasFor(w.store, id, user)]
  {
    ScanIsLookup(w.store, id, user);
  }

  lemma {:induction false} TableUpdate(cs: seq<Canvas>, i: nat, c: Canvas)
    requires i < |cs| && c.id == cs[i].id
    requires forall k, j :: 0 <= k < j < |cs| ==> cs[k].id > cs[j].id
    ensures CanvasTable(cs[i := c]) == CanvasTable(cs)[c.id := c]
  {
    if i == 0 {
      assert cs[i := c][1..] == cs[1..];
    } else {
      assert cs[i := c][1..] == cs[1..][i - 1 := c];
      assert forall k :: 0 <= k < |cs| - 1 ==> cs[1..][k] == cs[k + 1];
      TableUpdate(cs[1..], i - 1, c);
    }
  }

  lemma {:induction false} TableLeave(cs: seq<Canvas>, r: seq<Canvas>, user: string)
    requires |r| == |cs| && forall i :: 0 <= i < |cs| ==> r[i] == Store.Leave(cs[i], user)
    ensures CanvasTable(r) == map id | id in CanvasTable(cs) :: Store.Leave(CanvasTable(cs)[id], user)
  {
    if cs != [] {
      assert forall k :: 0 <= k < |cs| - 1 ==> cs[1..][k] == cs[k + 1] && r[1..][k] == r[k + 1];
      TableLeave(cs[1..], r[1..], user);
    }
  }

  lemma TableReplace(s: Handles, i: nat, c: Canvas)
    requires StoreInv(s) && i < |s.canvases| && c.id == s.canvases[i].id
    ensures CanvasTable(s.canvases[i := c]) == CanvasTable(s.canvases)[c.id := c]
  {
    CanvasIdsFall(s);
    TableUpdate(s.canvases, i, c);
  }

  lemma TouchTable(w: World, id: nat, user: string)
    requires StoreInv(w.store)
    ensures TableOf(Touch(w, id, user)) == Got(TableOf(w), id, user)
  {
    FoundIsReachable(w, id, user);
    var i := CanvasFor(w.store, id, user);
    if i < |w.store.canvases| {
      TableReplace(w.store, i, Connect(w.store.canvases[i], FindUser(w.store.canvases[i].users, user)));
    }
  }

  lemma EnterTable(w: World, t: nat, id: nat, user: string)
    requires StoreInv(w.store) && Found(w, id, user)
    ensures Reachable(TableOf(w), id, user)
    ensures TableOf(w.(store := Barrier(w.store, id, user)))
         == var c := TableOf(w)[id]; var j := FindUser(c.users, user); TableOf(w)[id := EnterBarrier(Connect(c, j), j)]
  {
    var i := CanvasFor(w.store, id, user);
    FoundIsReachable(w, id, user);
    var j := FindUser(w.store.canvases[i].users, user);
    TableReplace(w.store, i, EnterBarrier(Connect(w.store.canvases[i], j), j));
  }

  lemma ShareTable(w: World, id: nat, user: string, other: string)
    requires StoreInv(w.store) && Found(w, id, user)
    ensures Reachable(TableOf(w), id, user)
    ensures TableOf(w.(store := Share(w.store, id, user, other)))
         == TableOf(w)[id := ShareWith(Connect(TableOf(w)[id], FindUser(TableOf(w)[id].users, user)), other)]
  {
    var i := CanvasFor(w.store, id, user);
    FoundIsReachable(w, id, user);
    var j := FindUser(w.store.canvases[i].users, user);
    TableReplace(w.store, i, ShareWith(Connect(w.store.canvases[i], j), other));
  }

  lemma DestroyTable(w: World, id: nat, user: string)
    requires StoreInv(w.store) && Found(w, id, user)
    ensures Reachable(TableOf(w), id, user)
    ensures TableOf(w.(store := DestroyForUser(w.store, id, user)))
         == TableOf(w)[id := MaybeDestroy(Abandon(TableOf(w)[id], FindUser(TableOf(w)[id].users, user)))]
  {
    var i := CanvasFor(w.store, id, user);
    FoundIsReachable(w, id, user);
    TableReplace(w.store, i, MaybeDestroy(Abandon(w.store.canvases[i], FindUser(w.store.canvases[i].users, user))));
  }

  /** Every step changes the table as After says. */
  lemma StepTable(w: World, e: Event)
    requires StoreInv(w.store)
    ensures TableOf(Step(w, e)) == After(w, e)
  {
    hide StoreInv, CanvasTable, GetCanvas, Barrier, Share, DestroyForUser, DisconnectUser, CanvasFor, Usable;
    if Enabled(w, e) {
      match e
      case CreateCanvas(_, user) => AddTable(w.store, user);
      case Place(_, id, sprite, user) => TouchTable(w, id, user);
      case Move(t, placement, user) => MoveTable(w, t, placement, user);
      case Generate(_, id, user) => TouchTable(w, id, user); FoundIsReachable(w, id, user);
      case Frame(_, id, user) => TouchTable(w, id, user); FoundIsReachable(w, id, user);
      case Enter(t, id, user) => FoundIsReachable(w, id, user); if Found(w, id, user) { EnterTable(w, t, id, user); }
      case ShareCanvas(_, id, user, other) => FoundIsReachable(w, id, user); if Found(w, id, user) { ShareTable(w, id, user, other); }
      case DestroyCanvas(_, id, user) => FoundIsReachable(w, id, user); if Found(w, id, user) { DestroyTable(w, id, user); }
      case Disconnect(_, user) => DisconnectTable(w.store, user);
      case _ =>
    }
  }

  lemma MoveTable(w: World, t: nat, placement: nat, user: string)
    requires StoreInv(w.store) && ValidUsername(user)
    ensures TableOf(Step(w, Move(t, placement, user))) == After(w, Move(t, placement, user))
  {
    var id := CanvasOfMove(w, placement, user);
    TouchTable(w, id, user);
    FoundIsReachable(w, id, user);
  }

  lemma AddTable(s: Handles, user: string)
    requires ValidUsername(user)
    ensures CanvasTable(AddCanvas(s, user).canvases)
         == CanvasTable(s.canvases)[s.nextId := Canvas(s.nextId, true, false, [User(user, true, false)])]
  {
    assert AddCanvas(s, user).canvases[1..] == s.canvases;
  }

  lemma DisconnectTable(s: Handles, user: string)
    requires StoreInv(s) && user != ""
    ensures CanvasTable(DisconnectUser(s, user).canvases) == map id | id in CanvasTable(s.canvases) :: Store.Leave(CanvasTable(s.canvases)[id], user)
  {
    DisconnectKeeps(s, user);
    TableLeave(s.canvases, DisconnectUser(s, user).canvases, user);
  }
}
