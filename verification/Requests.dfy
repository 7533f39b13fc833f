/**
 * What every request does, in terms of who is on a canvas, connected and waiting;
 * and where each call of the animation library and each placement comes from.
 */
module Requests {
  import opened Auth
  import opened Sequences
  import opened Store
  import opened BarrierSystem
  import opened BarrierInvariant
  import opened BarrierTheorems

  // ------------------------------------------------------------- what can happen when

  /** The worker is at this place. */
  predicate Stands(w: World, t: nat, th: Thread) {
    t < |w.threads| && w.threads[t] == th
  }

  predicate Blocked(w: World, t: nat) {
    t < |w.threads| && (w.threads[t].AtBarrier? || w.threads[t].AtGate?)
  }

  /**
   * Requests of users with valid names begin on idle workers, a disconnect also
   * without one; a blocked worker can run again, a drawing one draw a frame of its
   * canvas or stop, and one that has placed a sprite record it or fail to.
   */
  lemma EnabledIff(w: World, e: Event)
    ensures Enabled(w, e) <==>
              match e
              case Record(t, _) => t < |w.threads| && w.threads[t].Recording?
              case Stop(t) => t < |w.threads| && w.threads[t].Drawing?
              case Resume(t) => Blocked(w, t)
              case Frame(t, id, user) => ValidUsername(user) && Stands(w, t, Drawing(id, user))
              case Disconnect(worker, user) => ValidUsername(user) && (worker == None || Stands(w, worker.value, Idle))
              case ShareCanvas(t, _, user, other) => ValidUsername(user) && ValidUsername(other) && Stands(w, t, Idle)
              case _ => ValidUsername(e.user) && Stands(w, e.t, Idle)
  {
    hide ValidUsername;
  }

  // ------------------------------------------------- who is on a canvas, and how

  predicate Listed(users: seq<User>, name: string) {
    exists i :: 0 <= i < |users| && users[i].name == name
  }

  predicate Connected(users: seq<User>, name: string) {
    exists i :: 0 <= i < |users| && users[i].name == name && users[i].connected
  }

  predicate Waiting(users: seq<User>, name: string) {
    exists i :: 0 <= i < |users| && users[i].name == name && users[i].waiting
  }

  /** The event is a request of a user on the canvas that looks the canvas up, or raises its barrier, shares it or leaves it. */
  predicate Uses(w: World, e: Event, c: Canvas) {
    Enabled(w, e) && Subject(w, e) == c.id && c.live && Listed(c.users, Actor(e))
  }

  /** The event is the user's disconnect, or its destroy_canvas of this canvas. */
  predicate Leaves(w: World, e: Event, c: Canvas, name: string) {
    (Enabled(w, e) && e.Disconnect? && e.user == name) || (Uses(w, e, c) && e.DestroyCanvas? && e.user == name)
  }

  /** The event is a barrier call that finds everybody else connected waiting. */
  predicate Completing(w: World, e: Event, c: Canvas) {
    Uses(w, e, c) && e.Enter? && forall i :: 0 <= i < |c.users| && c.users[i].connected && c.users[i].name != e.user ==> c.users[i].waiting
  }

  /** One user's flags rewritten: the others keep theirs. */
  lemma Rewritten(users: seq<User>, j: nat, u: User, name: string)
    requires j < |users| && u.name == users[j].name && DistinctNames(users)
    ensures Listed(users[j := u], name) == Listed(users, name)
    ensures Connected(users[j := u], name) == if users[j].name == name then u.connected else Connected(users, name)
    ensures Waiting(users[j := u], name) == if users[j].name == name then u.waiting else Waiting(users, name)
    ensures DistinctNames(users[j := u])
  {
    var us := users[j := u];
    assert forall i :: 0 <= i < |users| && i != j ==> us[i] == users[i] && users[i].name != users[j].name;
    if users[j].name == name {
      assert us[j].name == name;
    } else {
      assert forall i :: 0 <= i < |users| && users[i].name == name ==> us[i] == users[i];
    }
  }

  lemma Single(users: seq<User>, j: nat)
    requires j < |users| && DistinctNames(users)
    ensures Listed(users, users[j].name)
    ensures Connected(users, users[j].name) == users[j].connected && Waiting(users, users[j].name) == users[j].waiting
  {
    assert forall i :: 0 <= i < |users| && i != j ==> users[i].name != users[j].name;
  }

  lemma ListedIs(users: seq<User>, name: string)
    ensures Listed(users, name) <==> HasUser(users, name)
  {
    var j := FindUser(users, name);
    if j < |users| {
      assert users[j].name == name;
    }
  }

  lemma EnterStatus(c: Canvas, j: nat, name: string)
    requires DistinctNames(c.users) && j < |c.users|
    ensures var caller := c.users[j].name;
            var all := forall i :: 0 <= i < |c.users| && c.users[i].connected && c.users[i].name != caller ==> c.users[i].waiting;
            var us := EnterBarrier(Connect(c, j), j).users;
            && Listed(us, name) == Listed(c.users, name)
            && (Connected(us, name) <==> Connected(c.users, name) || name == caller)
            && (Waiting(us, name) <==> !all && (Waiting(c.users, name) || name == caller))
  {
    var d := Connect(c, j);
    var m := Wait(d, j);
    Rewritten(c.users, j, c.users[j].(connected := true), name);
    Rewritten(d.users, j, d.users[j].(waiting := true), name);
    Single(m.users, j);
    var caller := c.users[j].name;
    var all := forall i :: 0 <= i < |c.users| && c.users[i].connected && c.users[i].name != caller ==> c.users[i].waiting;
    assert forall i :: 0 <= i < |c.users| && i != j ==> m.users[i] == c.users[i] && c.users[i].name != caller;
    assert Complete(m.users) <==> all;
    if all {
      var us := Release(m.users);
      assert forall i :: 0 <= i < |us| ==> us[i].name == m.users[i].name && us[i].connected == m.users[i].connected && !us[i].waiting;
      Renamed(m.users, us, name);
    }
  }

  lemma Renamed(users: seq<User>, us: seq<User>, name: string)
    requires |us| == |users|
    requires forall i :: 0 <= i < |us| ==> us[i].name == users[i].name && us[i].connected == users[i].connected && !us[i].waiting
    ensures Listed(us, name) == Listed(users, name) && Connected(us, name) == Connected(users, name) && !Waiting(us, name)
  {
    if Listed(users, name) {
      var i :| 0 <= i < |users| && users[i].name == name;
      assert us[i].name == name;
    }
    if Connected(users, name) {
      var i :| 0 <= i < |users| && users[i].name == name && users[i].connected;
      assert us[i].name == name && us[i].connected;
    }
  }

  lemma ShareStatus(c: Canvas, j: nat, other: string, name: string)
    requires DistinctNames(c.users) && j < |c.users| && ValidUsername(other)
    ensures var us := ShareWith(Connect(c, j), other).users;
            && (Listed(us, name) <==> Listed(c.users, name) || name == other)
            && (Connected(us, name) <==> Connected(c.users, name) || name == c.users[j].name)
            && Waiting(us, name) == Waiting(c.users, name)
  {
    var d := Connect(c, j);
    Rewritten(c.users, j, c.users[j].(connected := true), name);
    Single(c.users, j);
    ListedIs(d.users, other);
    if !HasUser(d.users, other) {
      var us := ShareWith(d, other).users;
      assert us[0] == User(other, false, false) && forall i :: 1 <= i < |us| ==> us[i] == d.users[i - 1];
      Fronted(d.users, us, other, name);
    }
  }

  lemma Fronted(users: seq<User>, us: seq<User>, other: string, name: string)
    requires |us| == |users| + 1 && us[0] == User(other, false, false) && forall i :: 1 <= i < |us| ==> us[i] == users[i - 1]
    ensures Listed(us, name) <==> Listed(users, name) || name == other
    ensures Connected(us, name) == Connected(users, name) && Waiting(us, name) == Waiting(users, name)
  {
    assert forall i :: 0 <= i < |users| ==> us[i + 1] == users[i];
  }

  lemma DepartStatus(c: Canvas, j: nat, name: string)
    requires CanvasOk(c) && j < |c.users|
    ensures var d := Depart(c, j);
            && Listed(d.users, name) == Listed(c.users, name)
            && (Connected(d.users, name) <==> Connected(c.users, name) && name != c.users[j].name)
            && (Waiting(d.users, name) <==> Waiting(c.users, name) && name != c.users[j].name)
            && (HasConnected(d.users) <==> exists i :: 0 <= i < |c.users| && c.users[i].connected && c.users[i].name != c.users[j].name)
  {
    var d := Depart(c, j);
    Rewritten(c.users, j, c.users[j].(connected := false, waiting := false), name);
    assert forall i :: 0 <= i < |c.users| && i != j ==> d.users[i] == c.users[i] && c.users[i].name != c.users[j].name;
  }

  /** d is what the event makes of record c, for this name. */
  predicate Becomes(w: World, e: Event, c: Canvas, d: Canvas, name: string) {
    && (Listed(d.users, name) <==> Listed(c.users, name) || (Uses(w, e, c) && e.ShareCanvas? && e.other == name))
    && (Connected(d.users, name) <==> !Leaves(w, e, c, name) && (Connected(c.users, name) || (Uses(w, e, c) && Actor(e) == name)))
    && (Waiting(d.users, name) <==>
          && !Leaves(w, e, c, name) && !Completing(w, e, c)
          && (Waiting(c.users, name) || (Uses(w, e, c) && e.Enter? && e.user == name)))
    && (d.live <==> c.live && !(Uses(w, e, c) && e.DestroyCanvas?
                                && forall i :: 0 <= i < |c.users| && c.users[i].connected ==> c.users[i].name == e.user))
  }

  lemma DisconnectBecomes(w: World, e: Event, c: Canvas, name: string)
    requires CanvasOk(c) && c.id > 0 && Enabled(w, e) && e.Disconnect?
    ensures Becomes(w, e, c, Store.Leave(c, e.user), name)
  {
    hide Enabled;
    assert !Uses(w, e, c);
    var j := FindUser(c.users, e.user);
    if j < |c.users| {
      DepartStatus(c, j, name);
    } else {
      ListedIs(c.users, e.user);
      assert name == e.user ==> !Connected(c.users, name) && !Waiting(c.users, name);
    }
  }

  lemma EnterBecomes(w: World, e: Event, c: Canvas, name: string)
    requires CanvasOk(c) && c.id > 0 && Uses(w, e, c) && e.Enter? && HasUser(c.users, e.user)
    ensures var j := FindUser(c.users, e.user); Becomes(w, e, c, EnterBarrier(Connect(c, j), j), name)
  {
    EnterStatus(c, FindUser(c.users, e.user), name);
    hide Enabled, Listed, Connected, Waiting;
  }

  lemma DestroyBecomes(w: World, e: Event, c: Canvas, name: string)
    requires CanvasOk(c) && c.id > 0 && Uses(w, e, c) && e.DestroyCanvas? && HasUser(c.users, e.user)
    ensures Becomes(w, e, c, MaybeDestroy(Abandon(c, FindUser(c.users, e.user))), name)
  {
    DepartStatus(c, FindUser(c.users, e.user), name);
    hide Enabled, Listed, Connected, Waiting, Completing, HasConnected;
  }

  lemma ShareBecomes(w: World, e: Event, c: Canvas, name: string)
    requires CanvasOk(c) && c.id > 0 && Uses(w, e, c) && e.ShareCanvas? && HasUser(c.users, e.user)
    ensures Becomes(w, e, c, ShareWith(Connect(c, FindUser(c.users, e.user)), e.other), name)
  {
    assert ValidUsername(e.other);
    ShareStatus(c, FindUser(c.users, e.user), e.other, name);
    hide Enabled, Listed, Connected, Waiting, Completing, ShareWith;
  }

  lemma LookupBecomes(w: World, e: Event, c: Canvas, name: string)
    requires CanvasOk(c) && c.id > 0 && Uses(w, e, c) && HasUser(c.users, Actor(e)) && (e.Place? || e.Move? || e.Generate? || e.Frame?)
    ensures Becomes(w, e, c, Connect(c, FindUser(c.users, Actor(e))), name)
  {
    var j := FindUser(c.users, Actor(e));
    Rewritten(c.users, j, c.users[j].(connected := true), name);
    Single(c.users, j);
    hide Enabled, Listed, Connected, Waiting, Completing;
  }

  lemma RecordBecomes(w: World, e: Event, c: Canvas, name: string)
    requires CanvasOk(c) && c.id > 0
    ensures Becomes(w, e, c, CanvasAfter(w, e, c), name)
  {
    hide Becomes, Enabled, Listed, CanvasOfMove;
    ListedIs(c.users, Actor(e));
    if Enabled(w, e) && e.Disconnect? {
      DisconnectBecomes(w, e, c, name);
    } else if !Uses(w, e, c) {
      UnusedBecomes(w, e, c, name);
    } else if e.Enter? {
      EnterBecomes(w, e, c, name);
    } else if e.ShareCanvas? {
      ShareBecomes(w, e, c, name);
    } else if e.DestroyCanvas? {
      DestroyBecomes(w, e, c, name);
    } else {
      LookupBecomes(w, e, c, name);
    }
  }

  lemma UnusedBecomes(w: World, e: Event, c: Canvas, name: string)
    requires !Uses(w, e, c) && !(Enabled(w, e) && e.Disconnect?)
    ensures Becomes(w, e, c, c, name)
  {
    hide Uses, Enabled, Listed, Connected, Waiting;
  }

  /**
   * What one step does to one user on one canvas: it is added to the list exactly by
   * a share with it; it becomes connected exactly by using the canvas, and stays so
   * until it leaves; it waits exactly from its own barrier call until it leaves or a
   * call completes the barrier; and the canvas goes exactly when its last connected
   * user destroys it.
   */
  lemma StatusStep(w: World, e: Event, id: nat, name: string)
    requires WorldInv(w) && id in TableOf(w)
    ensures id in TableOf(Step(w, e))
    ensures var c, d := TableOf(w)[id], TableOf(Step(w, e))[id];
            && (Listed(d.users, name) <==> Listed(c.users, name) || (Uses(w, e, c) && e.ShareCanvas? && e.other == name))
            && (Connected(d.users, name) <==> !Leaves(w, e, c, name) && (Connected(c.users, name) || (Uses(w, e, c) && Actor(e) == name)))
            && (Waiting(d.users, name) <==>
                  && !Leaves(w, e, c, name) && !Completing(w, e, c)
                  && (Waiting(c.users, name) || (Uses(w, e, c) && e.Enter? && e.user == name)))
            && (d.live <==> c.live && !(Uses(w, e, c) && e.DestroyCanvas?
                                        && forall i :: 0 <= i < |c.users| && c.users[i].connected ==> c.users[i].name == e.user))
  {
    hide StoreInv, Step, TableOf, ThreadsOk, Provenance, CanvasAfter, CanvasOk, Uses, Leaves, Completing, Listed, Connected, Waiting;
    TableIsOk(w);
    RecordStep(w, e, id);
    RecordBecomes(w, e, TableOf(w)[id], name);
  }

  // ----------------------------------------------------- sprites and placements

  predicate HasSprite(w: World, id: nat, name: string) {
    exists i :: 0 <= i < |w.store.sprites| && SpriteUsable(w.store.sprites[i], id, name)
  }

  predicate IsPlacement(p: Placement, id: nat, canvas: nat, name: string) {
    p.id == id && p.live && !p.deleted && p.owner == name && p.canvasId == canvas
  }

  predicate HasPlacement(w: World, id: nat, canvas: nat, name: string) {
    exists i :: 0 <= i < |w.store.placements| && IsPlacement(w.store.placements[i], id, canvas, name)
  }

  /** The request adds a sprite, for this user and under this id. */
  predicate MakesSprite(w: World, e: Event, id: nat, name: string) {
    Enabled(w, e) && e.CreateSprite? && id == w.store.nextId && e.user == name
  }

  /** The placement a worker has made is recorded under this id. */
  predicate MakesPlacement(w: World, e: Event, id: nat, canvas: nat, name: string) {
    && e.Record? && e.placed && e.t < |w.threads| && w.threads[e.t].Recording?
    && id == w.store.nextId && w.threads[e.t].canvas == canvas && w.threads[e.t].user == name
  }

  lemma OthersKeepRecords(w: World, e: Event)
    ensures !e.CreateSprite? && !e.DropSprite? ==> Step(w, e).store.sprites == w.store.sprites
    ensures !e.Record? && !e.DropPlacement? ==> Step(w, e).store.placements == w.store.placements
  {
    hide CanvasFor, SpriteFor, PlacementFor, Flag, Enabled, Completes, Broadcast;
  }

  lemma SpriteIdsDiffer(s: Handles)
    requires StoreInv(s)
    ensures forall i, j :: 0 <= i < j < |s.sprites| ==> s.sprites[i].id != s.sprites[j].id
    ensures forall i :: 0 <= i < |s.sprites| ==> 0 < s.sprites[i].id < s.nextId
  {
    assert forall i :: 0 <= i < |s.sprites| ==> SpriteIds(s.sprites)[i] == s.sprites[i].id;
  }

  lemma PlacementIdsDiffer(s: Handles)
    requires StoreInv(s)
    ensures forall i, j :: 0 <= i < j < |s.placements| ==> s.placements[i].id != s.placements[j].id
    ensures forall i :: 0 <= i < |s.placements| ==> 0 < s.placements[i].id < s.nextId
  {
    assert forall i :: 0 <= i < |s.placements| ==> PlacementIds(s.placements)[i] == s.placements[i].id;
  }

  /** A user's sprite is there exactly from its create_sprite on until its destroy_sprite, unless the library refuses that. */
  lemma SpriteStep(w: World, e: Event, id: nat, name: string)
    requires StoreInv(w.store)
    ensures HasSprite(Step(w, e), id, name) <==>
              || MakesSprite(w, e, id, name)
              || (HasSprite(w, id, name) && !(Enabled(w, e) && e.DropSprite? && !e.failed && e.sprite == id && e.user == name))
  {
    hide HasSprite, StoreInv;
    OthersKeepRecords(w, e);
    if Enabled(w, e) && e.CreateSprite? {
      SpriteAdded(w, e, id, name);
    } else if Enabled(w, e) && e.DropSprite? {
      SpriteDropped(w, e, id, name);
    } else {
      SameSprites(w, Step(w, e), id, name);
    }
  }

  lemma SameSprites(w: World, w': World, id: nat, name: string)
    requires w'.store.sprites == w.store.sprites
    ensures HasSprite(w', id, name) == HasSprite(w, id, name)
  {
  }

  lemma SpriteAdded(w: World, e: Event, id: nat, name: string)
    requires StoreInv(w.store) && Enabled(w, e) && e.CreateSprite?
    ensures HasSprite(Step(w, e), id, name) <==> (id == w.store.nextId && e.user == name) || HasSprite(w, id, name)
  {
    SpriteIdsDiffer(w.store);
    hide StoreInv;
    var ss := AddSprite(w.store, e.user).sprites;
    assert ss[0] == Sprite(w.store.nextId, true, e.user, false);
    assert forall i :: 0 <= i < |w.store.sprites| ==> ss[i + 1] == w.store.sprites[i];
  }

  lemma SpriteDropped(w: World, e: Event, id: nat, name: string)
    requires StoreInv(w.store) && Enabled(w, e) && e.DropSprite?
    ensures HasSprite(Step(w, e), id, name) <==> HasSprite(w, id, name) && !(!e.failed && e.sprite == id && e.user == name)
  {
    SpriteIdsDiffer(w.store);
    hide StoreInv, FindSprite, Enabled;
    var x, ss := SpriteFor(w.store, e.sprite, e.user), DestroySprite(w.store, e.sprite, e.user, e.failed).sprites;
    assert forall i :: 0 <= i < |ss| && i != x ==> ss[i] == w.store.sprites[i];
    assert x < |ss| ==> ss[x].id == w.store.sprites[x].id == e.sprite && w.store.sprites[x].owner == e.user;
  }

  predicate UserValid(th: Thread) {
    th.AtBarrier? || th.AtGate? || th.Recording? || th.Drawing? ==> ValidUsername(th.user)
  }

  /** Every request is one of a user with a valid name. */
  predicate CrewValid(w: World) {
    forall k :: 0 <= k < |w.threads| ==> UserValid(w.threads[k])
  }

  lemma CrewStep(w: World, e: Event)
    requires CrewValid(w)
    ensures CrewValid(Step(w, e))
  {
    hide TableOf, Flag, GetCanvas, Found, Completes, ValidUsername;
  }

  /** A user's placement on a canvas is there exactly from when it is recorded until its destroy_placement. */
  lemma PlacementStep(w: World, e: Event, id: nat, canvas: nat, name: string)
    requires StoreInv(w.store) && CrewValid(w)
    ensures HasPlacement(Step(w, e), id, canvas, name) <==>
              || MakesPlacement(w, e, id, canvas, name)
              || (HasPlacement(w, id, canvas, name) && !(Enabled(w, e) && e.DropPlacement? && e.placement == id && e.user == name))
  {
    OthersKeepRecords(w, e);
    PlacementIdsDiffer(w.store);
    if Enabled(w, e) && e.Record? {
      var th := w.threads[e.t];
      assert CopyUsername(th.user) == th.user by { assert UserValid(th); }
      if e.placed {
        var ps := AddPlacement(w.store, th.canvas, th.sprite, th.user).placements;
        assert ps[0] == Placement(w.store.nextId, true, th.canvas, th.sprite, th.user, false);
        assert forall i :: 0 <= i < |w.store.placements| ==> ps[i + 1] == w.store.placements[i];
      }
    } else if Enabled(w, e) && e.DropPlacement? {
      var x, ps := PlacementFor(w.store, e.placement, e.user), Step(w, e).store.placements;
      assert forall i :: 0 <= i < |ps| && i != x ==> ps[i] == w.store.placements[i];
    }
    hide StoreInv, FindPlacement, CrewValid;
  }

  // --------------------------------------------------------- calls of the library

  /** The user is on the canvas's list, and the canvas is there. */
  predicate CanUse(w: World, id: nat, name: string) {
    id in TableOf(w) && TableOf(w)[id].live && Listed(TableOf(w)[id].users, name)
  }

  predicate IsWaiting(w: World, id: nat, name: string) {
    id in TableOf(w) && Waiting(TableOf(w)[id].users, name)
  }

  /** The event is a request of this user on worker t that asks for this call of the library on this canvas. */
  predicate Asks(w: World, e: Event, t: nat, call: Call) {
    && Enabled(w, e)
    && match call.gate
       case PlaceSprite(sprite) =>
         e == Place(t, call.canvas, sprite, call.user) && CanUse(w, call.canvas, call.user) && HasSprite(w, sprite, call.user)
       case MovePlacement(placement) => e == Move(t, placement, call.user) && HasPlacement(w, placement, call.canvas, call.user)
       case FrameSize => e == Generate(t, call.canvas, call.user) && CanUse(w, call.canvas, call.user)
  }

  /** Where a call leaves its worker. */
  function Performed(call: Call): Thread {
    match call.gate
    case PlaceSprite(sprite) => Recording(call.canvas, sprite, call.user)
    case MovePlacement(_) => Idle
    case FrameSize => Drawing(call.canvas, call.user)
  }

  predicate Blocks(th: Thread, call: Call) {
    th.AtGate? && th.canvas == call.canvas && th.user == call.user && th.gate == call.gate
  }

  lemma FlagIsWaiting(w: World, id: nat, name: string)
    requires StoreInv(w.store)
    ensures Flag(TableOf(w), id, name) <==> IsWaiting(w, id, name)
  {
    hide StoreInv, TableOf;
    TableIsOk(w);
    if id in TableOf(w) {
      var users := TableOf(w)[id].users;
      ListedIs(users, name);
      if HasUser(users, name) { Single(users, FindUser(users, name)); }
    }
  }

  lemma CanUseIsFound(w: World, id: nat, name: string)
    requires StoreInv(w.store)
    ensures CanUse(w, id, name) <==> Found(w, id, name)
    ensures IsWaiting(w, id, name) ==> CanUse(w, id, name)
  {
    hide StoreInv, TableOf, CanvasFor;
    TableIsOk(w);
    FoundIsReachable(w, id, name);
    if id in TableOf(w) {
      ListedIs(TableOf(w)[id].users, name);
    }
  }

  lemma SpriteIsFound(s: Handles, id: nat, name: string)
    requires StoreInv(s)
    ensures SpriteFor(s, id, name) < |s.sprites| <==> exists i :: 0 <= i < |s.sprites| && SpriteUsable(s.sprites[i], id, name)
  {
    SpriteIdsDiffer(s);
  }

  lemma PlacementIsFound(s: Handles, id: nat, canvas: nat, name: string)
    requires StoreInv(s)
    ensures (exists i :: 0 <= i < |s.placements| && IsPlacement(s.placements[i], id, canvas, name))
            <==> PlacementFor(s, id, name) < |s.placements| && s.placements[PlacementFor(s, id, name)].canvasId == canvas
  {
    PlacementIdsDiffer(s);
  }

  /** Looking a canvas up leaves everybody's waiting flags, the worker threads and the log as they were. */
  lemma TouchKeeps(w: World, id: nat, user: string, other: nat, name: string)
    requires StoreInv(w.store)
    ensures Flag(TableOf(Touch(w, id, user)), other, name) == Flag(TableOf(w), other, name)
    ensures Touch(w, id, user).threads == w.threads && Touch(w, id, user).log == w.log
  {
    hide StoreInv, TableOf;
    TouchTable(w, id, user);
    TableIsOk(w);
    if Reachable(TableOf(w), id, user) {
      ConnectWaits(TableOf(w)[id], FindUser(TableOf(w)[id].users, user), name);
    }
    hide GetCanvas, UserWaits, Connect, Usable;
  }

  /**
   * A request that asks for a call of the library makes it at once if its user is
   * not waiting at the canvas, and otherwise blocks there.
   */
  lemma AskedCall(w: World, e: Event, t: nat, call: Call)
    requires StoreInv(w.store) && Asks(w, e, t, call)
    ensures t < |w.threads|
    ensures var w' := Step(w, e);
            if IsWaiting(w, call.canvas, call.user)
            then w'.log == w.log && w'.threads == w.threads[t := AtGate(call.canvas, call.user, call.gate, true)]
            else w'.log == w.log + [call] && w'.threads == w.threads[t := Performed(call)]
  {
    hide StoreInv, TableOf, Touch, Flag, Found, PlacementFor, SpriteFor, IsWaiting, CanUse;
    FlagIsWaiting(w, call.canvas, call.user);
    CanUseIsFound(w, call.canvas, call.user);
    TouchKeeps(w, call.canvas, call.user, call.canvas, call.user);
    match call.gate
    case PlaceSprite(sprite) => SpriteIsFound(w.store, sprite, call.user);
    case MovePlacement(placement) => PlacementIsFound(w.store, placement, call.canvas, call.user);
    case FrameSize =>
  }

  /** A blocked request, when its worker gets the mutex, makes its call if its user no longer waits, and otherwise stays blocked. */
  lemma ResumedCall(w: World, t: nat, call: Call)
    requires StoreInv(w.store) && t < |w.threads| && Blocks(w.threads[t], call)
    ensures var w' := Step(w, Resume(t));
            if IsWaiting(w, call.canvas, call.user)
            then w'.log == w.log && w'.threads == w.threads[t := AtGate(call.canvas, call.user, call.gate, true)]
            else w'.log == w.log + [call] && w'.threads == w.threads[t := Performed(call)]
  {
    hide StoreInv, TableOf, Flag, IsWaiting;
    FlagIsWaiting(w, call.canvas, call.user);
  }

  /** The event lets worker t make this call, or finds its user waiting. */
  predicate Seeks(w: World, e: Event, t: nat, call: Call) {
    Asks(w, e, t, call) || (e == Resume(t) && t < |w.threads| && Blocks(w.threads[t], call))
  }

  /** The calls an event can be about. */
  function CallOf(w: World, e: Event): Option<(nat, Call)> {
    match e
    case Place(t, id, sprite, user) => Some((t, Call(PlaceSprite(sprite), id, user)))
    case Move(t, placement, user) => Some((t, Call(MovePlacement(placement), CanvasOfMove(w, placement, user), user)))
    case Generate(t, id, user) => Some((t, Call(FrameSize, id, user)))
    case Resume(t) => if t < |w.threads| && w.threads[t].AtGate? then Some((t, Wanted(w.threads[t]))) else None
    case _ => None
  }

  function Wanted(th: Thread): Call
    requires th.AtGate? || th.Recording?
  {
    if th.AtGate? then Call(th.gate, th.canvas, th.user) else Call(PlaceSprite(th.sprite), th.canvas, th.user)
  }

  /** A thread that is b after being a, and at a gate or about to record only if it was so before. */
  predicate StaysPut(a: Thread, b: Thread) {
    (b.AtGate? ==> a.AtGate? && Wanted(a) == Wanted(b)) && (b.Recording? ==> a == b)
  }

  predicate Recorder(e: Event, k: int) {
    e.Record? && e.t == k
  }

  /** A request that asks for no call leaves log, gates and placing workers alone. */
  lemma NoCall(w: World, e: Event)
    requires StoreInv(w.store) && (CallOf(w, e).Some? ==> !Seeks(w, e, CallOf(w, e).value.0, CallOf(w, e).value.1))
    ensures Step(w, e).log == w.log && |Step(w, e).threads| == |w.threads|
    ensures forall k :: 0 <= k < |w.threads| ==>
              && StaysPut(w.threads[k], Step(w, e).threads[k])
              && (w.threads[k].Recording? && !Recorder(e, k) ==> Step(w, e).threads[k] == w.threads[k])
  {
    hide StoreInv, Step, Asks, CanvasOfMove;
    if e.Place? || e.Move? || e.Generate? {
      NoCallAsked(w, e);
    } else {
      OtherRequest(w, e);
    }
  }

  lemma NoCallAsked(w: World, e: Event)
    requires StoreInv(w.store) && (e.Place? || e.Move? || e.Generate?)
    requires !Seeks(w, e, CallOf(w, e).value.0, CallOf(w, e).value.1)
    ensures Step(w, e).log == w.log && Step(w, e).threads == w.threads
  {
    hide StoreInv, TableOf, Touch, Flag, Found, PlacementFor, SpriteFor, CanUse, ValidEvent;
    match e
    case Place(_, _, _, _) => NoCallPlace(w, e);
    case Move(t, placement, user) => PlacementIsFound(w.store, placement, CanvasOfMove(w, placement, user), user);
    case Generate(t, id, user) => CanUseIsFound(w, id, user);
    case _ =>
  }

  lemma OtherRequest(w: World, e: Event)
    requires StoreInv(w.store) && !e.Place? && !e.Move? && !e.Generate?
    requires e.Resume? ==> e.t >= |w.threads| || !w.threads[e.t].AtGate?
    ensures Step(w, e).log == w.log && |Step(w, e).threads| == |w.threads|
    ensures forall k :: 0 <= k < |w.threads| ==>
              && StaysPut(w.threads[k], Step(w, e).threads[k])
              && (w.threads[k].Recording? && !Recorder(e, k) ==> Step(w, e).threads[k] == w.threads[k])
  {
    hide StoreInv, TableOf, Flag, Found, Completes, ValidEvent, GetCanvas;
  }

  lemma NoCallPlace(w: World, e: Event)
    requires StoreInv(w.store) && e.Place? && !Seeks(w, e, e.t, CallOf(w, e).value.1)
    ensures Step(w, e).log == w.log && Step(w, e).threads == w.threads
  {
    hide StoreInv, TableOf, Touch, SpriteFor, CanUse;
    CanUseIsFound(w, e.canvas, e.user);
    SpriteIsFound(w.store, e.sprite, e.user);
    TouchKeeps(w, e.canvas, e.user, e.canvas, e.user);
  }

  // ------------------------------------------------------------ who blocks, who returns

  /** A canvas record appears exactly when it is created: for its creator alone, who is connected. */
  lemma NewCanvasStep(w: World, e: Event, id: nat)
    requires StoreInv(w.store) && id !in TableOf(w)
    ensures id in TableOf(Step(w, e)) <==> Enabled(w, e) && e.CreateCanvas? && id == w.store.nextId
    ensures id in TableOf(Step(w, e)) ==> TableOf(Step(w, e))[id] == Canvas(id, true, false, [User(e.user, true, false)])
  {
    if id in TableOf(Step(w, e)) {
      NewRecord(w, e, id);
    }
    BarrierSystem.StepTable(w, e);
    hide StoreInv, Step, TableOf;
  }

  /** The thread after a broadcast on the canvases of this set. */
  function Roused(th: Thread, ids: set<nat>): Thread {
    if (th.AtBarrier? || th.AtGate?) && th.canvas in ids then Awake(th) else th
  }

  /**
   * A barrier call returns at once exactly if it completes the barrier, which rouses
   * everybody blocked on the canvas; otherwise it blocks. A blocked caller, when its
   * worker gets the mutex, returns exactly if its user no longer waits.
   */
  lemma BarrierCall(w: World, t: nat, id: nat, user: string)
    requires StoreInv(w.store) && Enabled(w, Enter(t, id, user))
    ensures var e, w' := Enter(t, id, user), Step(w, Enter(t, id, user));
            if !CanUse(w, id, user) then w' == w
            else if Completing(w, e, TableOf(w)[id])
            then |w'.threads| == |w.threads| && forall k :: 0 <= k < |w.threads| ==> w'.threads[k] == Roused(w.threads[k], {id})
            else w'.threads == w.threads[t := AtBarrier(id, user, true)]
  {
    hide StoreInv, TableOf, Completes, Listed;
    CanUseIsFound(w, id, user);
    FoundIsReachable(w, id, user);
    if CanUse(w, id, user) {
      TableIsOk(w);
      CompletesIs(TableOf(w), id, user);
      ListedIs(TableOf(w)[id].users, user);
    }
  }

  lemma CompletesIs(t: Table, id: nat, user: string)
    requires id in t && DistinctNames(t[id].users)
    ensures Completes(t, id, user) <==>
              && Listed(t[id].users, user)
              && forall i :: 0 <= i < |t[id].users| && t[id].users[i].connected && t[id].users[i].name != user ==> t[id].users[i].waiting
  {
    ListedIs(t[id].users, user);
    var c := t[id];
    var j := FindUser(c.users, user);
    if j < |c.users| {
      var m := Wait(Connect(c, j), j);
      assert forall i :: 0 <= i < |c.users| && i != j ==> m.users[i] == c.users[i] && c.users[i].name != user;
      assert m.users[j].waiting;
    }
  }

  lemma BarrierReturn(w: World, t: nat)
    requires StoreInv(w.store) && t < |w.threads| && w.threads[t].AtBarrier?
    ensures var th := w.threads[t];
            Step(w, Resume(t)).threads
            == w.threads[t := if IsWaiting(w, th.canvas, th.user) then AtBarrier(th.canvas, th.user, true) else Idle]
  {
    hide StoreInv, TableOf, Flag, IsWaiting;
    FlagIsWaiting(w, w.threads[t].canvas, w.threads[t].user);
  }

  /** The canvases a departure leaves. */
  predicate LeftBy(w: World, e: Event, id: nat) {
    || (e.DestroyCanvas? && id == e.canvas && CanUse(w, id, e.user))
    || (e.Disconnect? && id in TableOf(w) && Listed(TableOf(w)[id].users, e.user))
  }

  /** Where such an event leaves worker k. */
  function Onward(w: World, e: Event, k: nat, th: Thread): Thread {
    match e
    case Frame(t, id, user) => if k == t && !CanUse(w, id, user) then Idle else th
    case Stop(t) => if k == t then Idle else th
    case Record(t, _) => if k == t then Idle else th
    case _ => if (th.AtBarrier? || th.AtGate?) && LeftBy(w, e, th.canvas) then Awake(th) else th
  }

  /**
   * Departures rouse everybody blocked on a canvas that is left; a drawing worker
   * stays at it while the lookups succeed; the end of drawing, and recording a
   * placement, end the request. No other request changes where a worker is.
   */
  lemma ThreadStep(w: World, e: Event, k: nat)
    requires StoreInv(w.store) && Enabled(w, e) && k < |w.threads|
    requires !e.Place? && !e.Move? && !e.Generate? && !e.Enter? && !e.Resume?
    ensures |Step(w, e).threads| == |w.threads|
    ensures Step(w, e).threads[k] == Onward(w, e, k, w.threads[k])
  {
    hide StoreInv, TableOf, CanUse, CanvasFor, GetCanvas, Share, DestroyForUser, DisconnectUser, ValidUsername;
    match e
    case Frame(_, id, user) => CanUseIsFound(w, id, user);
    case DestroyCanvas(_, id, user) => CanUseIsFound(w, id, user);
    case Disconnect(_, user) =>
      if w.threads[k].AtBarrier? || w.threads[k].AtGate? { LeftCanvases(w, w.threads[k].canvas, user); }
    case _ =>
  }

  lemma LeftCanvases(w: World, id: nat, user: string)
    requires StoreInv(w.store)
    ensures id in CanvasesOf(w.store.canvases, user) <==> id in TableOf(w) && Listed(TableOf(w)[id].users, user)
  {
    CanvasIdsFall(w.store);
    TableHolds(w.store.canvases);
    hide StoreInv, CanvasTable, Listed;
    var cs := w.store.canvases;
    if id in TableOf(w) {
      var i :| 0 <= i < |cs| && cs[i].id == id;
      ListedIs(cs[i].users, user);
      assert HasUser(cs[i].users, user) ==> id in CanvasesOf(cs, user);
    }
    if id in CanvasesOf(cs, user) {
      var i :| 0 <= i < |cs| && HasUser(cs[i].users, user) && cs[i].id == id;
      ListedIs(cs[i].users, user);
    }
  }

  // ------------------------------------------------ where calls and placements come from

  /** The state before event m of the run, or at its end. */
  function Then(n: nat, es: seq<Event>, m: nat): World
    requires m <= |es|
  {
    Run(Initial(n), es[..m])
  }

  /** From state a to state b worker t is in the middle of a request. */
  ghost predicate Engaged(n: nat, es: seq<Event>, t: nat, a: nat, b: nat) {
    b <= |es| && forall m: nat :: a <= m <= b ==> Serving(Then(n, es, m), t)
  }

  predicate Serving(w: World, t: nat) {
    t < |w.threads| && !w.threads[t].Idle?
  }

  /** Event j asks for the call on worker t, which is at that request until it makes the call at event g, the user not waiting there. */
  ghost predicate Made(n: nat, es: seq<Event>, t: nat, j: nat, g: nat, call: Call) {
    && j <= g < |es| && Asks(Then(n, es, j), es[j], t, call)
    && (g == j || (es[g] == Resume(t) && Engaged(n, es, t, j + 1, g)))
    && !IsWaiting(Then(n, es, g), call.canvas, call.user)
    && Then(n, es, g + 1).log == Then(n, es, g).log + [call]
  }

  ghost predicate MadeAs(n: nat, es: seq<Event>, t: nat, j: nat, g: nat, call: Call, i: nat) {
    Made(n, es, t, j, g, call) && |Then(n, es, g).log| == i
  }

  /** Entry number i of the log was asked for by a request and made by its worker. */
  ghost predicate CallTraced(n: nat, es: seq<Event>, i: nat, call: Call) {
    exists t: nat, j: nat, g: nat :: MadeAs(n, es, t, j, g, call, i)
  }

  /** Event r records, under this id, the placement that worker t has made at event g. */
  ghost predicate Recorded(n: nat, es: seq<Event>, t: nat, g: nat, r: nat, id: nat) {
    g < r < |es| && Engaged(n, es, t, g + 1, r) && es[r] == Record(t, true) && Then(n, es, r).store.nextId == id
  }

  /** The placement was made, on this canvas and of this sprite, by a place_sprite request of its owner, and got this id. */
  ghost predicate PlacementTraced(n: nat, es: seq<Event>, id: nat, canvas: nat, sprite: nat, owner: string) {
    exists t: nat, j: nat, g: nat, r: nat :: Made(n, es, t, j, g, Call(PlaceSprite(sprite), canvas, owner)) && Recorded(n, es, t, g, r, id)
  }

  ghost predicate GateTraced(n: nat, es: seq<Event>, k: nat, call: Call) {
    exists j: nat :: j < |es| && Asks(Then(n, es, j), es[j], k, call) && Engaged(n, es, k, j + 1, |es|)
  }

  ghost predicate PlacingTraced(n: nat, es: seq<Event>, k: nat, call: Call) {
    exists j: nat, g: nat :: Made(n, es, k, j, g, call) && Engaged(n, es, k, g + 1, |es|)
  }

  ghost predicate ThreadTraced(n: nat, es: seq<Event>, k: nat, th: Thread) {
    (th.AtGate? ==> GateTraced(n, es, k, Wanted(th))) && (th.Recording? ==> PlacingTraced(n, es, k, Wanted(th)))
  }

  ghost predicate Traced(n: nat, es: seq<Event>) {
    var w := Run(Initial(n), es);
    && (forall k :: 0 <= k < |w.threads| ==> ThreadTraced(n, es, k, w.threads[k]))
    && (forall i :: 0 <= i < |w.log| ==> CallTraced(n, es, i, w.log[i]))
    && (forall x :: 0 <= x < |w.store.placements| ==>
          var p := w.store.placements[x]; PlacementTraced(n, es, p.id, p.canvasId, p.spriteId, p.owner))
  }

  lemma Earlier(n: nat, es: seq<Event>, e: Event, m: nat)
    requires m <= |es|
    ensures Then(n, es + [e], m) == Then(n, es, m)
  {
    assert (es + [e])[..m] == es[..m];
  }

  lemma {:induction false} RunLast(w: World, es: seq<Event>, e: Event)
    ensures Run(w, es + [e]) == Step(Run(w, es), e)
    decreases |es|
  {
    if es == [] {
      assert [] + [e] == [e] && [e][1..] == [] && Run(Step(w, e), []) == Step(w, e);
    } else {
      hide Step;
      assert (es + [e])[0] == es[0] && (es + [e])[1..] == es[1..] + [e];
      RunLast(Step(w, es[0]), es[1..], e);
    }
  }

  /** The last event, and the state it leads to. */
  lemma Latest(n: nat, es: seq<Event>, e: Event)
    ensures Then(n, es + [e], |es|) == Run(Initial(n), es)
    ensures Then(n, es + [e], |es| + 1) == Step(Run(Initial(n), es), e) == Run(Initial(n), es + [e])
  {
    assert (es + [e])[..|es|] == es && (es + [e])[..|es| + 1] == es + [e];
    RunLast(Initial(n), es, e);
  }

  lemma EngagedGrows(n: nat, es: seq<Event>, e: Event, t: nat, a: nat, b: nat)
    requires Engaged(n, es, t, a, b)
    ensures Engaged(n, es + [e], t, a, b)
  {
    hide Then, Serving;
    forall m: nat | a <= m <= b ensures Serving(Then(n, es + [e], m), t) {
      Earlier(n, es, e, m);
    }
  }

  lemma StillEngaged(n: nat, es: seq<Event>, e: Event, t: nat, a: nat)
    requires Engaged(n, es, t, a, |es|) && Serving(Run(Initial(n), es + [e]), t)
    ensures Engaged(n, es + [e], t, a, |es| + 1)
  {
    hide Then, Serving, Run;
    EngagedGrows(n, es, e, t, a, |es|);
    Latest(n, es, e);
  }

  lemma MadeGrows(n: nat, es: seq<Event>, e: Event, t: nat, j: nat, g: nat, call: Call)
    requires Made(n, es, t, j, g, call)
    ensures Made(n, es + [e], t, j, g, call)
  {
    hide Then, Asks, IsWaiting, Engaged;
    Earlier(n, es, e, j);
    Earlier(n, es, e, g);
    Earlier(n, es, e, g + 1);
    if g != j { EngagedGrows(n, es, e, t, j + 1, g); }
  }

  lemma TracesGrow(n: nat, es: seq<Event>, e: Event)
    ensures forall i, call :: CallTraced(n, es, i, call) ==> CallTraced(n, es + [e], i, call)
    ensures forall id, canvas, sprite, owner ::
              PlacementTraced(n, es, id, canvas, sprite, owner) ==> PlacementTraced(n, es + [e], id, canvas, sprite, owner)
  {
    hide Then, Made, Engaged;
    forall i, call | CallTraced(n, es, i, call) ensures CallTraced(n, es + [e], i, call) {
      var t: nat, j: nat, g: nat :| MadeAs(n, es, t, j, g, call, i);
      MadeGrows(n, es, e, t, j, g, call);
      MadeBefore(n, es, t, j, g, call);
      Earlier(n, es, e, g);
      assert MadeAs(n, es + [e], t, j, g, call, i);
    }
    forall id, canvas, sprite, owner | PlacementTraced(n, es, id, canvas, sprite, owner)
      ensures PlacementTraced(n, es + [e], id, canvas, sprite, owner)
    {
      var t: nat, j: nat, g: nat, r: nat :| Made(n, es, t, j, g, Call(PlaceSprite(sprite), canvas, owner)) && Recorded(n, es, t, g, r, id);
      MadeGrows(n, es, e, t, j, g, Call(PlaceSprite(sprite), canvas, owner));
      EngagedGrows(n, es, e, t, g + 1, r);
      Earlier(n, es, e, r);
      assert Recorded(n, es + [e], t, g, r, id);
    }
  }

  lemma MadeBefore(n: nat, es: seq<Event>, t: nat, j: nat, g: nat, call: Call)
    requires Made(n, es, t, j, g, call)
    ensures g < |es|
  {
  }

  ghost predicate Sound(n: nat, es: seq<Event>) {
    var w := Run(Initial(n), es);
    WorldInv(w) && CrewValid(w) && Traced(n, es)
  }

  /** The request that seeks a call in the last event began at some event of the run. */
  lemma SeekerAsked(n: nat, es: seq<Event>, e: Event, t: nat, call: Call) returns (j: nat)
    requires Sound(n, es) && Seeks(Run(Initial(n), es), e, t, call)
    ensures var all := es + [e];
            && j < |all| && Asks(Then(n, all, j), all[j], t, call)
            && (j == |es| || (e == Resume(t) && Engaged(n, all, t, j + 1, |es|)))
  {
    hide WorldInv, CrewValid, Asks, Then, Run, Engaged;
    Latest(n, es, e);
    if Asks(Run(Initial(n), es), e, t, call) {
      j := |es|;
    } else {
      assert ThreadTraced(n, es, t, Run(Initial(n), es).threads[t]) && Wanted(Run(Initial(n), es).threads[t]) == call;
      j :| j < |es| && Asks(Then(n, es, j), es[j], t, call) && Engaged(n, es, t, j + 1, |es|);
      Earlier(n, es, e, j);
      EngagedGrows(n, es, e, t, j + 1, |es|);
    }
  }

  /** What the last event, if it seeks a call, leaves behind is traced. */
  lemma SeekTraced(n: nat, es: seq<Event>, e: Event, t: nat, call: Call)
    requires Sound(n, es) && Seeks(Run(Initial(n), es), e, t, call)
    ensures var w, w' := Run(Initial(n), es), Run(Initial(n), es + [e]);
            && t < |w.threads| == |w'.threads| && w'.threads == w.threads[t := w'.threads[t]] && ThreadTraced(n, es + [e], t, w'.threads[t])
            && (w'.log == w.log || (w'.log == w.log + [call] && CallTraced(n, es + [e], |w.log|, call)))
  {
    hide WorldInv, CrewValid, Traced, Asks, Then, Run, IsWaiting, StoreInv;
    var w := Run(Initial(n), es);
    var j := SeekerAsked(n, es, e, t, call);
    Latest(n, es, e);
    SeekStep(w, e, t, call);
    var all, th := es + [e], Run(Initial(n), es + [e]).threads[t];
    if IsWaiting(w, call.canvas, call.user) {
      assert Serving(Then(n, all, |es| + 1), t);
      assert Engaged(n, all, t, j + 1, |es| + 1);
      assert GateTraced(n, all, t, Wanted(th));
    } else {
      assert Made(n, all, t, j, |es|, call);
      assert MadeAs(n, all, t, j, |es|, call, |w.log|);
      if th.Recording? {
        assert Wanted(th) == call && Engaged(n, all, t, |es| + 1, |es| + 1);
        assert PlacingTraced(n, all, t, call);
      }
    }
  }

  lemma SeekStep(w: World, e: Event, t: nat, call: Call)
    requires WorldInv(w) && Seeks(w, e, t, call)
    ensures t < |w.threads|
    ensures var w' := Step(w, e);
            if IsWaiting(w, call.canvas, call.user)
            then w'.log == w.log && w'.threads == w.threads[t := AtGate(call.canvas, call.user, call.gate, true)]
            else w'.log == w.log + [call] && w'.threads == w.threads[t := Performed(call)]
  {
    hide StoreInv, Step, Asks, IsWaiting, TableOf;
    if Asks(w, e, t, call) {
      AskedCall(w, e, t, call);
    } else {
      ResumedCall(w, t, call);
    }
  }

  /** A thread that stays in its request stays traced. */
  lemma StaysTraced(n: nat, es: seq<Event>, e: Event, k: nat, a: Thread, b: Thread)
    requires ThreadTraced(n, es, k, a) && k < |Run(Initial(n), es + [e]).threads| && Run(Initial(n), es + [e]).threads[k] == b
    requires StaysPut(a, b)
    ensures ThreadTraced(n, es + [e], k, b)
  {
    hide Asks, Then, Run, Engaged, Made;
    var all := es + [e];
    if b.AtGate? {
      var call := Wanted(b);
      var j: nat :| j < |es| && Asks(Then(n, es, j), es[j], k, call) && Engaged(n, es, k, j + 1, |es|);
      Earlier(n, es, e, j);
      StillEngaged(n, es, e, k, j + 1);
      assert j < |all| && Asks(Then(n, all, j), all[j], k, call) && Engaged(n, all, k, j + 1, |all|);
    } else if b.Recording? {
      var call := Wanted(b);
      var j: nat, g: nat :| Made(n, es, k, j, g, call) && Engaged(n, es, k, g + 1, |es|);
      MadeGrows(n, es, e, k, j, g, call);
      StillEngaged(n, es, e, k, g + 1);
      assert Made(n, all, k, j, g, call) && Engaged(n, all, k, g + 1, |all|);
    }
  }

  /** After one more event every worker's request and every call is still traced. */
  lemma CallsStayTraced(n: nat, es: seq<Event>, e: Event)
    requires Sound(n, es)
    ensures var w' := Run(Initial(n), es + [e]);
            && (forall k :: 0 <= k < |w'.threads| ==> ThreadTraced(n, es + [e], k, w'.threads[k]))
            && (forall i :: 0 <= i < |w'.log| ==> CallTraced(n, es + [e], i, w'.log[i]))
  {
    hide CrewValid, Run, StoreInv, ThreadsOk, BarrierInvariant.Provenance, Step, ThreadTraced, CallTraced, PlacementTraced, Seeks;
    var w, w' := Run(Initial(n), es), Run(Initial(n), es + [e]);
    Latest(n, es, e);
    TracesGrow(n, es, e);
    var sought := CallOf(w, e);
    if sought.Some? && Seeks(w, e, sought.value.0, sought.value.1) {
      SeekTraced(n, es, e, sought.value.0, sought.value.1);
      forall k | 0 <= k < |w'.threads| && k != sought.value.0 ensures ThreadTraced(n, es + [e], k, w'.threads[k]) {
        StaysTraced(n, es, e, k, w.threads[k], w'.threads[k]);
      }
    } else {
      NoCall(w, e);
      forall k | 0 <= k < |w'.threads| ensures ThreadTraced(n, es + [e], k, w'.threads[k]) {
        StaysTraced(n, es, e, k, w.threads[k], w'.threads[k]);
      }
    }
  }

  /** The placements after an event are those before it, but for their flags, and the one it records. */
  lemma PlacementMoves(w: World, e: Event)
    requires CrewValid(w)
    ensures forall x :: 0 <= x < |Step(w, e).store.placements| ==>
              var p := Step(w, e).store.placements[x];
              || OldPlacement(w, p)
              || (&& Enabled(w, e) && e.Record? && e.placed && p.id == w.store.nextId
                  && w.threads[e.t] == Recording(p.canvasId, p.spriteId, p.owner))
  {
    OthersKeepRecords(w, e);
    if Enabled(w, e) && e.Record? {
      assert UserValid(w.threads[e.t]);
    }
    forall x | 0 <= x < |Step(w, e).store.placements| && !(e.Record? && e.placed && x == 0 && Enabled(w, e))
      ensures OldPlacement(w, Step(w, e).store.placements[x])
    {
      var y := if Enabled(w, e) && e.Record? && e.placed then x - 1 else x;
      assert SamePlacement(w.store.placements[y], Step(w, e).store.placements[x]);
    }
    hide Found, Flag, TableOf;
  }

  predicate SamePlacement(a: Placement, b: Placement) {
    a.id == b.id && a.canvasId == b.canvasId && a.spriteId == b.spriteId && a.owner == b.owner
  }

  predicate OldPlacement(w: World, p: Placement) {
    exists y :: 0 <= y < |w.store.placements| && SamePlacement(w.store.placements[y], p)
  }

  lemma PlacementsStayTraced(n: nat, es: seq<Event>, e: Event)
    requires Sound(n, es)
    ensures var w' := Run(Initial(n), es + [e]);
            forall x :: 0 <= x < |w'.store.placements| ==>
              var p := w'.store.placements[x]; PlacementTraced(n, es + [e], p.id, p.canvasId, p.spriteId, p.owner)
  {
    hide WorldInv, CrewValid, Run, Step, CallTraced, PlacementTraced;
    var w, w' := Run(Initial(n), es), Run(Initial(n), es + [e]);
    Latest(n, es, e);
    TracesGrow(n, es, e);
    PlacementMoves(w, e);
    forall x | 0 <= x < |w'.store.placements|
      ensures var p := w'.store.placements[x]; PlacementTraced(n, es + [e], p.id, p.canvasId, p.spriteId, p.owner)
    {
      var p := w'.store.placements[x];
      if OldPlacement(w, p) {
        var y :| 0 <= y < |w.store.placements| && SamePlacement(w.store.placements[y], p);
      } else {
        assert ThreadTraced(n, es, e.t, w.threads[e.t]);
        NewTraced(n, es, e, p);
      }
    }
  }

  lemma NewTraced(n: nat, es: seq<Event>, e: Event, p: Placement)
    requires e.Record? && e.placed && p.id == Run(Initial(n), es).store.nextId
    requires PlacingTraced(n, es, e.t, Call(PlaceSprite(p.spriteId), p.canvasId, p.owner))
    ensures PlacementTraced(n, es + [e], p.id, p.canvasId, p.spriteId, p.owner)
  {
    hide Run, Then, Made, Engaged;
    var call := Call(PlaceSprite(p.spriteId), p.canvasId, p.owner);
    var j: nat, g: nat :| Made(n, es, e.t, j, g, call) && Engaged(n, es, e.t, g + 1, |es|);
    MadeBefore(n, es, e.t, j, g, call);
    MadeGrows(n, es, e, e.t, j, g, call);
    EngagedGrows(n, es, e, e.t, g + 1, |es|);
    Latest(n, es, e);
    assert Recorded(n, es + [e], e.t, g, |es|, p.id);
  }

  lemma {:induction false} AlwaysSound(n: nat, es: seq<Event>)
    ensures Sound(n, es)
    decreases |es|
  {
    if es == [] {
      AlwaysInv(n, []);
    } else {
      hide WorldInv, CrewValid, Step, ThreadTraced, CallTraced, PlacementTraced;
      var init, e := es[..|es| - 1], es[|es| - 1];
      assert es == init + [e];
      AlwaysSound(n, init);
      Latest(n, init, e);
      BarrierInvariant.StepKeeps(Run(Initial(n), init), e);
      CrewStep(Run(Initial(n), init), e);
      CallsStayTraced(n, init, e);
      PlacementsStayTraced(n, init, e);
    }
  }

  /**
   * Every call of the library was asked for by a request on that canvas, of that user,
   * and of that sprite or placement, which its worker was at until it made the call;
   * at that moment the user was not waiting there.
   */
  lemma CallsWereAsked(n: nat, es: seq<Event>, i: nat)
    ensures var w := Run(Initial(n), es);
            i < |w.log| ==> CallTraced(n, es, i, w.log[i])
  {
    AlwaysSound(n, es);
  }

  /**
   * Every placement record carries the canvas and the sprite of a place_sprite
   * request of its owner, which passed the barrier of that canvas, and the id that
   * request was given.
   */
  lemma PlacementsWerePlaced(n: nat, es: seq<Event>, x: nat)
    ensures var w := Run(Initial(n), es);
            x < |w.store.placements| ==>
              var p := w.store.placements[x]; PlacementTraced(n, es, p.id, p.canvasId, p.spriteId, p.owner)
  {
    AlwaysSound(n, es);
  }

  lemma {:induction false} PlacementsGrow(n: nat, es: seq<Event>, m: nat, id: nat, canvas: nat, sprite: nat, owner: string)
    requires m <= |es| && PlacementTraced(n, es[..m], id, canvas, sprite, owner)
    ensures PlacementTraced(n, es, id, canvas, sprite, owner)
    decreases |es|
  {
    hide PlacementTraced, CallTraced;
    if m == |es| {
      assert es[..m] == es;
    } else {
      var init, e := es[..|es| - 1], es[|es| - 1];
      assert es == init + [e] && init[..m] == es[..m];
      PlacementsGrow(n, init, m, id, canvas, sprite, owner);
      TracesGrow(n, init, e);
    }
  }

  /**
   * Every moving of a placement respects the barrier of the canvas the placement was
   * placed on: the call is about the canvas named in the place_sprite request that
   * made it, and its user is not waiting there.
   */
  lemma MovesRespectPlaces(n: nat, es: seq<Event>, i: nat)
    ensures var w := Run(Initial(n), es);
            i < |w.log| && w.log[i].gate.MovePlacement? ==>
              var call := w.log[i];
              && (exists sprite :: PlacementTraced(n, es, call.gate.placement, call.canvas, sprite, call.user))
              && (exists t: nat, j: nat, g: nat :: MadeAs(n, es, t, j, g, call, i) && !IsWaiting(Then(n, es, g), call.canvas, call.user))
  {
    hide Run, Then, Sound, PlacementTraced, IsWaiting, Engaged;
    var w := Run(Initial(n), es);
    if i < |w.log| && w.log[i].gate.MovePlacement? {
      var call := w.log[i];
      CallsWereAsked(n, es, i);
      var t: nat, j: nat, g: nat :| MadeAs(n, es, t, j, g, call, i);
      var x := MovedPlacement(n, es, t, j, g, call);
      var p := Then(n, es, j).store.placements[x];
      PlacementOf(n, es[..j], x);
      PlacementsGrow(n, es, j, p.id, p.canvasId, p.spriteId, p.owner);
    }
  }

  lemma PlacementOf(n: nat, es: seq<Event>, x: nat)
    requires x < |Then(n, es, |es|).store.placements|
    ensures var p := Then(n, es, |es|).store.placements[x]; PlacementTraced(n, es, p.id, p.canvasId, p.spriteId, p.owner)
  {
    assert es[..|es|] == es;
    PlacementsWerePlaced(n, es, x);
  }

  lemma MovedPlacement(n: nat, es: seq<Event>, t: nat, j: nat, g: nat, call: Call) returns (x: nat)
    requires Made(n, es, t, j, g, call) && call.gate.MovePlacement?
    ensures j <= |es| && es[..j] == es[..j][..j] && Then(n, es, j) == Then(n, es[..j], j)
    ensures x < |Then(n, es, j).store.placements|
    ensures IsPlacement(Then(n, es, j).store.placements[x], call.gate.placement, call.canvas, call.user)
  {
    hide Run, IsWaiting, Engaged;
    var w := Then(n, es, j);
    x :| 0 <= x < |w.store.placements| && IsPlacement(w.store.placements[x], call.gate.placement, call.canvas, call.user);
  }

  // ------------------------------------------------------- every placement is recorded

  function Is(call: Call): Call -> bool {
    (c: Call) => c == call
  }

  function IsPlacing(call: Call): Thread -> bool {
    (th: Thread) => th.Recording? && Wanted(th) == call
  }

  function IsRecordOf(call: Call): Placement -> bool {
    (p: Placement) => call == Call(PlaceSprite(p.spriteId), p.canvasId, p.owner)
  }

  /** The library would not make the placement that this event is to record. */
  predicate FailsToPlace(w: World, e: Event, call: Call) {
    e.Record? && !e.placed && e.t < |w.threads| && IsPlacing(call)(w.threads[e.t])
  }

  function Failures(w: World, es: seq<Event>, call: Call): nat
    decreases |es|
  {
    if es == [] then 0 else (if FailsToPlace(w, es[0], call) then 1 else 0) + Failures(Step(w, es[0]), es[1..], call)
  }

  /** Calls that have placed a sprite, less those still to be recorded and those recorded. */
  function Unrecorded(w: World, call: Call): int {
    CountIf(w.log, Is(call)) - CountIf(w.threads, IsPlacing(call)) - CountIf(w.store.placements, IsRecordOf(call))
  }

  lemma CountFront<T>(x: T, s: seq<T>, p: T -> bool)
    ensures CountIf([x] + s, p) == CountIf(s, p) + if p(x) then 1 else 0
  {
    assert ([x] + s)[1..] == s;
  }

  lemma PlacementCount(w: World, e: Event, call: Call)
    requires CrewValid(w)
    ensures CountIf(Step(w, e).store.placements, IsRecordOf(call))
         == CountIf(w.store.placements, IsRecordOf(call))
            + if e.Record? && e.placed && e.t < |w.threads| && IsPlacing(call)(w.threads[e.t]) then 1 else 0
  {
    OthersKeepRecords(w, e);
    if Enabled(w, e) && e.Record? {
      assert UserValid(w.threads[e.t]);
      if e.placed { CountFront(Step(w, e).store.placements[0], w.store.placements, IsRecordOf(call)); }
    } else if Enabled(w, e) && e.DropPlacement? {
      CountSame(w.store.placements, Step(w, e).store.placements, IsRecordOf(call));
    }
    hide StoreInv, FindPlacement, CrewValid;
  }

  lemma PlacingCount(w: World, e: Event, call: Call)
    requires WorldInv(w) && call.gate.PlaceSprite?
    ensures CountIf(Step(w, e).log, Is(call)) - CountIf(Step(w, e).threads, IsPlacing(call))
         == CountIf(w.log, Is(call)) - CountIf(w.threads, IsPlacing(call))
            + if e.Record? && e.t < |w.threads| && IsPlacing(call)(w.threads[e.t]) then 1 else 0
  {
    var sought, w' := CallOf(w, e), Step(w, e);
    if sought.Some? && Seeks(w, e, sought.value.0, sought.value.1) {
      var (t, other) := sought.value;
      SeekCount(w, e, t, other, call);
    } else if e.Record? && e.t < |w.threads| && w.threads[e.t].Recording? {
      CountUpdate(w.threads, e.t, Idle, IsPlacing(call));
    } else {
      hide WorldInv, Step, CallOf, Seeks;
      assert StoreInv(w.store) by { StoreOf(w); }
      NoCall(w, e);
      CountSame(w.threads, w'.threads, IsPlacing(call));
    }
  }

  lemma StoreOf(w: World)
    requires WorldInv(w)
    ensures StoreInv(w.store)
  {
  }

  lemma SeekerIsFree(w: World, e: Event, t: nat, call: Call)
    requires Seeks(w, e, t, call)
    ensures t < |w.threads| && !w.threads[t].Recording?
  {
    hide CanUse, HasSprite, HasPlacement, ValidEvent;
  }

  lemma SeekCount(w: World, e: Event, t: nat, other: Call, call: Call)
    requires WorldInv(w) && call.gate.PlaceSprite? && Seeks(w, e, t, other)
    ensures CountIf(Step(w, e).log, Is(call)) - CountIf(Step(w, e).threads, IsPlacing(call))
         == CountIf(w.log, Is(call)) - CountIf(w.threads, IsPlacing(call))
  {
    SeekStep(w, e, t, other);
    SeekerIsFree(w, e, t, other);
    hide WorldInv, Step, Seeks, IsWaiting;
    CountUpdate(w.threads, t, Step(w, e).threads[t], IsPlacing(call));
    CountAppend(w.log, other, Is(call));
  }

  lemma {:induction false} PlacementsCounted(w: World, es: seq<Event>, call: Call)
    requires WorldInv(w) && CrewValid(w) && call.gate.PlaceSprite?
    ensures Unrecorded(Run(w, es), call) == Unrecorded(w, call) + Failures(w, es, call)
    decreases |es|
  {
    if es != [] {
      hide WorldInv, CrewValid, Step, IsPlacing;
      PlacementCount(w, es[0], call);
      PlacingCount(w, es[0], call);
      BarrierInvariant.StepKeeps(w, es[0]);
      CrewStep(w, es[0]);
      PlacementsCounted(Step(w, es[0]), es[1..], call);
    }
  }

  /**
   * Conservation of placements: in every run, the calls that placed this sprite on
   * this canvas for this user are as many as its placement records, the workers
   * about to record one, and the calls the library refused, together.
   */
  lemma PlacementsConserved(n: nat, es: seq<Event>, canvas: nat, sprite: nat, user: string)
    ensures var w, call := Run(Initial(n), es), Call(PlaceSprite(sprite), canvas, user);
            CountIf(w.log, Is(call))
            == CountIf(w.store.placements, IsRecordOf(call)) + CountIf(w.threads, IsPlacing(call)) + Failures(Initial(n), es, call)
  {
    var call := Call(PlaceSprite(sprite), canvas, user);
    AlwaysInv(n, []);
    CountZero(Initial(n).threads, IsPlacing(call));
    PlacementsCounted(Initial(n), es, call);
  }
}
