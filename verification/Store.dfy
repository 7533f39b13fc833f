/**
 * The handle store as a value: canvases with their shared users and barrier
 * flags, sprites and placements, newest first as the server's lists keep them.
 * HandleStore refines these functions on the heap; BarrierSystem takes steps
 * with them.
 */
module Store {
  import opened Sequences

  const MAX_USERNAME_LEN: nat := 32
  const INVALID_HANDLE: nat := 0

  datatype User = User(name: string, connected: bool, waiting: bool)
  datatype Canvas = Canvas(id: nat, live: bool, deleted: bool, users: seq<User>)
  datatype Sprite = Sprite(id: nat, live: bool, owner: string, deleted: bool)
  datatype Placement = Placement(id: nat, live: bool, canvasId: nat, spriteId: nat, owner: string, deleted: bool)

  /** `destroyed` logs the canvases whose underlying canvas was handed to animate_destroy_canvas. */
  datatype Handles = Handles(nextId: nat, canvases: seq<Canvas>, sprites: seq<Sprite>, placements: seq<Placement>,
                             destroyed: seq<nat>)

  const EMPTY: Handles := Handles(1, [], [], [], [])

  /** copy_username keeps at most 32 characters. */
  function CopyUsername(name: string): string {
    if |name| <= MAX_USERNAME_LEN then name else name[..MAX_USERNAME_LEN]
  }

  // ---------------------------------------------------------------- scans

  function FindUser(users: seq<User>, name: string): (j: nat)
    ensures j <= |users|
    ensures j < |users| ==> users[j].name == name
    ensures forall i :: 0 <= i < j ==> users[i].name != name
  {
    if users == [] || users[0].name == name then 0
    else
      var j := FindUser(users[1..], name);
      assert forall i :: 1 <= i < j + 1 ==> users[i] == users[1..][i - 1];
      1 + j
  }

  /** The same names give the same lookup. */
  lemma {:induction false} SameNamesSameFind(a: seq<User>, b: seq<User>, user: string)
    requires |a| == |b| && forall j :: 0 <= j < |a| ==> a[j].name == b[j].name
    ensures FindUser(a, user) == FindUser(b, user)
  {
    if a != [] && a[0].name != user {
      assert forall j :: 0 <= j < |a| - 1 ==> a[1..][j] == a[j + 1] && b[1..][j] == b[j + 1];
      SameNamesSameFind(a[1..], b[1..], user);
    }
  }

  predicate HasUser(users: seq<User>, name: string) {
    FindUser(users, name) < |users|
  }

  predicate Usable(c: Canvas, id: nat, name: string) {
    c.id == id && c.live && !c.deleted && HasUser(c.users, name)
  }

  function FindCanvas(cs: seq<Canvas>, id: nat, name: string): (i: nat)
    ensures i <= |cs|
    ensures i < |cs| ==> Usable(cs[i], id, name)
    ensures forall k :: 0 <= k < i ==> !Usable(cs[k], id, name)
  {
    if cs == [] || Usable(cs[0], id, name) then 0
    else
      var i := FindCanvas(cs[1..], id, name);
      assert forall k :: 1 <= k < i + 1 ==> cs[k] == cs[1..][k - 1];
      1 + i
  }

  predicate SpriteUsable(p: Sprite, id: nat, name: string) {
    p.id == id && p.live && !p.deleted && p.owner == name
  }

  function FindSprite(ps: seq<Sprite>, id: nat, name: string): (i: nat)
    ensures i <= |ps|
    ensures i < |ps| ==> SpriteUsable(ps[i], id, name)
    ensures forall k :: 0 <= k < i ==> !SpriteUsable(ps[k], id, name)
  {
    if ps == [] || SpriteUsable(ps[0], id, name) then 0
    else
      var i := FindSprite(ps[1..], id, name);
      assert forall k :: 1 <= k < i + 1 ==> ps[k] == ps[1..][k - 1];
      1 + i
  }

  predicate PlacementUsable(p: Placement, id: nat, name: string) {
    p.id == id && p.live && !p.deleted && p.owner == name
  }

  function FindPlacement(ps: seq<Placement>, id: nat, name: string): (i: nat)
    ensures i <= |ps|
    ensures i < |ps| ==> PlacementUsable(ps[i], id, name)
    ensures forall k :: 0 <= k < i ==> !PlacementUsable(ps[k], id, name)
  {
    if ps == [] || PlacementUsable(ps[0], id, name) then 0
    else
      var i := FindPlacement(ps[1..], id, name);
      assert forall k :: 1 <= k < i + 1 ==> ps[k] == ps[1..][k - 1];
      1 + i
  }

  // ------------------------------------------------------ one canvas record

  predicate HasConnected(users: seq<User>) {
    exists i :: 0 <= i < |users| && users[i].connected
  }

  /** canvas_barrier_complete: every connected user is waiting. */
  predicate Complete(users: seq<User>) {
    forall i :: 0 <= i < |users| && users[i].connected ==> users[i].waiting
  }

  function Release(users: seq<User>): (r: seq<User>)
    ensures |r| == |users|
    ensures forall i :: 0 <= i < |users| ==> r[i] == users[i].(waiting := false)
  {
    seq(|users|, i requires 0 <= i < |users| => users[i].(waiting := false))
  }

  function Connect(c: Canvas, j: nat): Canvas
    requires j < |c.users|
  {
    c.(users := c.users[j := c.users[j].(connected := true)])
  }

  function Wait(c: Canvas, j: nat): Canvas
    requires j < |c.users|
  {
    c.(users := c.users[j := c.users[j].(waiting := true)])
  }

  /** canvas_record_barrier up to the point where the caller would block: raise the flag, release if complete. */
  function EnterBarrier(c: Canvas, j: nat): Canvas
    requires j < |c.users|
  {
    var marked := Wait(c, j);
    if Complete(marked.users) then marked.(users := Release(marked.users)) else marked
  }

  function ShareWith(c: Canvas, name: string): Canvas {
    if HasUser(c.users, name) then c else c.(users := [User(CopyUsername(name), false, false)] + c.users)
  }

  function Depart(c: Canvas, j: nat): Canvas
    requires j < |c.users|
  {
    c.(users := c.users[j := c.users[j].(connected := false, waiting := false)])
  }

  /** Does maybe_destroy_canvas destroy this canvas? */
  predicate Doomed(c: Canvas) {
    c.deleted && c.live && !HasConnected(c.users)
  }

  function MaybeDestroy(c: Canvas): Canvas {
    if Doomed(c) then c.(live := false) else c
  }

  // --------------------------------------------------------- store operations

  function AddCanvas(s: Handles, owner: string): Handles {
    s.(nextId := s.nextId + 1,
       canvases := [Canvas(s.nextId, true, false, [User(CopyUsername(owner), true, false)])] + s.canvases)
  }

  function AddSprite(s: Handles, owner: string): Handles {
    s.(nextId := s.nextId + 1, sprites := [Sprite(s.nextId, true, CopyUsername(owner), false)] + s.sprites)
  }

  function AddPlacement(s: Handles, canvasId: nat, spriteId: nat, owner: string): Handles {
    s.(nextId := s.nextId + 1,
       placements := [Placement(s.nextId, true, canvasId, spriteId, CopyUsername(owner), false)] + s.placements)
  }

  /** The canvas list position handles_get_canvas finds; the list's length if it returns NULL. */
  function CanvasFor(s: Handles, id: nat, name: string): (i: nat)
    ensures i <= |s.canvases|
    ensures i < |s.canvases| ==> Usable(s.canvases[i], id, name)
  {
    if id == INVALID_HANDLE then |s.canvases| else FindCanvas(s.canvases, id, name)
  }

  /** handles_get_canvas: finding a canvas marks the user connected. */
  function GetCanvas(s: Handles, id: nat, name: string): Handles {
    var i := CanvasFor(s, id, name);
    if i == |s.canvases| then s
    else s.(canvases := s.canvases[i := Connect(s.canvases[i], FindUser(s.canvases[i].users, name))])
  }

  function SpriteFor(s: Handles, id: nat, name: string): (i: nat)
    ensures i <= |s.sprites|
  {
    if id == INVALID_HANDLE then |s.sprites| else FindSprite(s.sprites, id, name)
  }

  function PlacementFor(s: Handles, id: nat, name: string): (i: nat)
    ensures i <= |s.placements|
  {
    if id == INVALID_HANDLE then |s.placements| else FindPlacement(s.placements, id, name)
  }

  function Barrier(s: Handles, id: nat, name: string): Handles {
    var i := CanvasFor(s, id, name);
    if i == |s.canvases| then s
    else
      var j := FindUser(s.canvases[i].users, name);
      s.(canvases := s.canvases[i := EnterBarrier(Connect(s.canvases[i], j), j)])
  }

  function Share(s: Handles, id: nat, name: string, other: string): Handles {
    var i := CanvasFor(s, id, name);
    if i == |s.canvases| then s
    else
      var c := Connect(s.canvases[i], FindUser(s.canvases[i].users, name));
      s.(canvases := s.canvases[i := ShareWith(c, other)])
  }

  /** The record after its user j left by destroy_canvas; the last connected user takes the canvas along. */
  function Abandon(c: Canvas, j: nat): Canvas
    requires j < |c.users|
  {
    var left := Depart(c, j);
    if HasConnected(left.users) then left else left.(deleted := true)
  }

  function DestroyForUser(s: Handles, id: nat, name: string): Handles {
    var i := CanvasFor(s, id, name);
    if i == |s.canvases| then s
    else
      var c := Abandon(s.canvases[i], FindUser(s.canvases[i].users, name));
      s.(canvases := s.canvases[i := MaybeDestroy(c)],
         destroyed := if Doomed(c) then s.destroyed + [id] else s.destroyed)
  }

  /** A disconnecting user leaves one canvas record. */
  function Leave(c: Canvas, name: string): Canvas {
    if HasUser(c.users, name) then Depart(c, FindUser(c.users, name)) else c
  }

  /** What a disconnect makes of one record. */
  function LeftBy(c: Canvas, name: string): Canvas {
    if HasUser(c.users, name) then MaybeDestroy(Leave(c, name)) else c
  }

  predicate DestroyedBy(c: Canvas, name: string) {
    HasUser(c.users, name) && Doomed(Leave(c, name))
  }

  function LeaveAll(cs: seq<Canvas>, name: string): (r: seq<Canvas>)
    ensures |r| == |cs|
    ensures forall i :: 0 <= i < |cs| ==> r[i] == LeftBy(cs[i], name)
  {
    seq(|cs|, i requires 0 <= i < |cs| => LeftBy(cs[i], name))
  }

  /** The ids destroyed by a disconnect, in list order. */
  function Destroyed(cs: seq<Canvas>, name: string): seq<nat> {
    if cs == [] then []
    else (if DestroyedBy(cs[0], name) then [cs[0].id] else []) + Destroyed(cs[1..], name)
  }

  function DisconnectUser(s: Handles, name: string): Handles {
    if name == "" then s
    else s.(canvases := LeaveAll(s.canvases, name), destroyed := s.destroyed + Destroyed(s.canvases, name))
  }

  function DestroySprite(s: Handles, id: nat, name: string, failed: bool): Handles {
    var i := SpriteFor(s, id, name);
    if i == |s.sprites| || failed then s
    else s.(sprites := s.sprites[i := s.sprites[i].(live := false, deleted := true)])
  }

  function DestroyPlacement(s: Handles, id: nat, name: string): Handles {
    var i := PlacementFor(s, id, name);
    if i == |s.placements| then s
    else s.(placements := s.placements[i := s.placements[i].(live := false, deleted := true)])
  }

  // -------------------------------------------------------------- invariant

  predicate DistinctNames(users: seq<User>) {
    forall i, j :: 0 <= i < j < |users| ==> users[i].name != users[j].name
  }

  /** A record is deleted exactly when its canvas is gone; nobody is connected to or waits on a deleted one. */
  predicate CanvasOk(c: Canvas) {
    && DistinctNames(c.users)
    && (c.deleted <==> !c.live)
    && (forall i :: 0 <= i < |c.users| && c.users[i].waiting ==> c.users[i].connected)
    && (c.deleted ==> !HasConnected(c.users))
  }

  function CanvasIds(cs: seq<Canvas>): seq<nat> {
    seq(|cs|, i requires 0 <= i < |cs| => cs[i].id)
  }

  function SpriteIds(ps: seq<Sprite>): seq<nat> {
    seq(|ps|, i requires 0 <= i < |ps| => ps[i].id)
  }

  function PlacementIds(ps: seq<Placement>): seq<nat> {
    seq(|ps|, i requires 0 <= i < |ps| => ps[i].id)
  }

  /** Positive, below the bound, and strictly decreasing. */
  predicate Falling(ids: seq<nat>, bound: nat) {
    && (forall i :: 0 <= i < |ids| ==> 0 < ids[i] < bound)
    && (forall i, j :: 0 <= i < j < |ids| ==> ids[i] > ids[j])
  }

  predicate Apart(a: seq<nat>, b: seq<nat>) {
    forall x :: x in a ==> x !in b
  }

  /** Ids are handed out once, in order, from one counter: decreasing down each list, never shared between lists. */
  predicate IdsOk(s: Handles) {
    var (cs, ss, ps) := (CanvasIds(s.canvases), SpriteIds(s.sprites), PlacementIds(s.placements));
    && s.nextId > 0
    && Falling(cs, s.nextId) && Falling(ss, s.nextId) && Falling(ps, s.nextId)
    && Apart(cs, ss) && Apart(cs, ps) && Apart(ss, ps)
  }

  lemma FallingMore(ids: seq<nat>, n: nat)
    requires Falling(ids, n) && n > 0
    ensures Falling([n] + ids, n + 1) && Falling(ids, n + 1)
  {
  }

  lemma ApartMore(a: seq<nat>, b: seq<nat>, n: nat)
    requires Apart(a, b) && Falling(a, n) && Falling(b, n)
    ensures Apart([n] + a, b) && Apart(a, [n] + b)
  {
  }

  /** No two canvas records share an id. */
  lemma CanvasIdsFall(s: Handles)
    requires IdsOk(s)
    ensures forall i :: 0 <= i < |s.canvases| ==> 0 < s.canvases[i].id < s.nextId
    ensures forall i, j :: 0 <= i < j < |s.canvases| ==> s.canvases[i].id > s.canvases[j].id
  {
    assert forall i :: 0 <= i < |s.canvases| ==> CanvasIds(s.canvases)[i] == s.canvases[i].id;
  }

  /** The destroyed canvases are exactly the deleted records, each destroyed once. */
  predicate DestroyedOk(s: Handles) {
    && (forall i, j :: 0 <= i < j < |s.destroyed| ==> s.destroyed[i] != s.destroyed[j])
    && (forall d :: d in s.destroyed ==> d < s.nextId)
    && (forall i :: 0 <= i < |s.canvases| ==> (s.canvases[i].deleted <==> s.canvases[i].id in s.destroyed))
  }

  predicate StoreInv(s: Handles) {
    && IdsOk(s)
    && DestroyedOk(s)
    && (forall i :: 0 <= i < |s.canvases| ==> CanvasOk(s.canvases[i]))
  }

  // ----------------------------------------------- every operation keeps it

  predicate ShortName(name: string) {
    |name| <= MAX_USERNAME_LEN
  }

  /** The next id joins the head of any one list. */
  lemma NextIdFresh(s: Handles)
    requires IdsOk(s)
    ensures var (n, cs, ss, ps) := (s.nextId, CanvasIds(s.canvases), SpriteIds(s.sprites), PlacementIds(s.placements));
            && Falling([n] + cs, n + 1) && Falling([n] + ss, n + 1) && Falling([n] + ps, n + 1)
            && Falling(cs, n + 1) && Falling(ss, n + 1) && Falling(ps, n + 1)
            && Apart([n] + cs, ss) && Apart([n] + cs, ps) && Apart(cs, [n] + ss)
            && Apart([n] + ss, ps) && Apart(cs, [n] + ps) && Apart(ss, [n] + ps)
  {
    var (n, cs, ss, ps) := (s.nextId, CanvasIds(s.canvases), SpriteIds(s.sprites), PlacementIds(s.placements));
    FallingMore(cs, n);
    FallingMore(ss, n);
    FallingMore(ps, n);
    ApartMore(cs, ss, n);
    ApartMore(cs, ps, n);
    ApartMore(ss, ps, n);
  }

  lemma AddIds(s: Handles, owner: string, canvasId: nat, spriteId: nat)
    requires IdsOk(s)
    ensures IdsOk(AddCanvas(s, owner)) && IdsOk(AddSprite(s, owner)) && IdsOk(AddPlacement(s, canvasId, spriteId, owner))
  {
    hide Falling, Apart;
    NextIdFresh(s);
    assert CanvasIds(AddCanvas(s, owner).canvases) == [s.nextId] + CanvasIds(s.canvases);
    assert SpriteIds(AddSprite(s, owner).sprites) == [s.nextId] + SpriteIds(s.sprites);
    assert PlacementIds(AddPlacement(s, canvasId, spriteId, owner).placements) == [s.nextId] + PlacementIds(s.placements);
  }

  lemma AddCanvasKeeps(s: Handles, owner: string)
    requires StoreInv(s)
    ensures StoreInv(AddCanvas(s, owner))
  {
    CanvasIdsFall(s);
    hide IdsOk;
    AddIds(s, owner, 0, 0);
    var s' := AddCanvas(s, owner);
    assert CanvasOk(s'.canvases[0]);
    assert forall i :: 1 <= i < |s'.canvases| ==> s'.canvases[i] == s.canvases[i - 1];
  }

  lemma AddSpriteKeeps(s: Handles, owner: string)
    requires StoreInv(s)
    ensures StoreInv(AddSprite(s, owner))
  {
    hide IdsOk, CanvasOk;
    AddIds(s, owner, 0, 0);
  }

  lemma AddPlacementKeeps(s: Handles, canvasId: nat, spriteId: nat, owner: string)
    requires StoreInv(s)
    ensures StoreInv(AddPlacement(s, canvasId, spriteId, owner))
  {
    hide IdsOk, CanvasOk;
    AddIds(s, owner, canvasId, spriteId);
  }

  /** Operations that create no record leave the ids as they are. */
  lemma SameIds(s: Handles, s': Handles)
    requires IdsOk(s) && s'.nextId == s.nextId
    requires |s'.canvases| == |s.canvases| && |s'.sprites| == |s.sprites| && |s'.placements| == |s.placements|
    requires forall i :: 0 <= i < |s.canvases| ==> s'.canvases[i].id == s.canvases[i].id
    requires forall i :: 0 <= i < |s.sprites| ==> s'.sprites[i].id == s.sprites[i].id
    requires forall i :: 0 <= i < |s.placements| ==> s'.placements[i].id == s.placements[i].id
    ensures IdsOk(s')
  {
    hide Falling, Apart;
    assert CanvasIds(s'.canvases) == CanvasIds(s.canvases);
    assert SpriteIds(s'.sprites) == SpriteIds(s.sprites);
    assert PlacementIds(s'.placements) == PlacementIds(s.placements);
  }

  /** Replacing a canvas record by a well-formed one with the same id and fate keeps the invariant. */
  lemma ReplaceKeeps(s: Handles, i: nat, c: Canvas)
    requires StoreInv(s) && i < |s.canvases| && CanvasOk(c)
    requires c.id == s.canvases[i].id && c.deleted == s.canvases[i].deleted
    ensures StoreInv(s.(canvases := s.canvases[i := c]))
  {
    CanvasIdsFall(s);
    hide IdsOk;
    SameIds(s, s.(canvases := s.canvases[i := c]));
  }

  lemma ConnectOk(c: Canvas, j: nat)
    requires CanvasOk(c) && c.live && j < |c.users|
    ensures CanvasOk(Connect(c, j))
  {
  }

  lemma EnterOk(c: Canvas, j: nat)
    requires CanvasOk(c) && c.live && j < |c.users| && c.users[j].connected
    ensures CanvasOk(EnterBarrier(c, j))
  {
  }

  lemma ShareOk(c: Canvas, name: string)
    requires CanvasOk(c) && c.live && ShortName(name)
    ensures CanvasOk(ShareWith(c, name))
  {
  }

  lemma LeaveOk(c: Canvas, name: string)
    requires CanvasOk(c)
    ensures CanvasOk(Leave(c, name)) && !Doomed(Leave(c, name)) && MaybeDestroy(Leave(c, name)) == Leave(c, name)
  {
    if HasUser(c.users, name) {
      var left := Depart(c, FindUser(c.users, name));
      if HasConnected(left.users) {
        var i :| 0 <= i < |left.users| && left.users[i].connected;
        assert c.users[i].connected;
      }
    }
  }

  lemma AbandonOk(c: Canvas, j: nat)
    requires CanvasOk(c) && c.live && j < |c.users|
    ensures CanvasOk(MaybeDestroy(Abandon(c, j)))
    ensures Doomed(Abandon(c, j)) <==> !HasConnected(Depart(c, j).users)
    ensures MaybeDestroy(Abandon(c, j)).deleted <==> !HasConnected(Depart(c, j).users)
  {
  }

  lemma GetKeeps(s: Handles, id: nat, name: string)
    requires StoreInv(s)
    ensures StoreInv(GetCanvas(s, id, name))
  {
    var i := CanvasFor(s, id, name);
    if i < |s.canvases| {
      var j := FindUser(s.canvases[i].users, name);
      ConnectOk(s.canvases[i], j);
      ReplaceKeeps(s, i, Connect(s.canvases[i], j));
    }
  }

  lemma BarrierKeeps(s: Handles, id: nat, name: string)
    requires StoreInv(s)
    ensures StoreInv(Barrier(s, id, name))
  {
    var i := CanvasFor(s, id, name);
    if i < |s.canvases| {
      var j := FindUser(s.canvases[i].users, name);
      ConnectOk(s.canvases[i], j);
      EnterOk(Connect(s.canvases[i], j), j);
      ReplaceKeeps(s, i, EnterBarrier(Connect(s.canvases[i], j), j));
    }
  }

  lemma ShareKeeps(s: Handles, id: nat, name: string, other: string)
    requires StoreInv(s) && ShortName(other)
    ensures StoreInv(Share(s, id, name, other))
  {
    var i := CanvasFor(s, id, name);
    if i < |s.canvases| {
      var j := FindUser(s.canvases[i].users, name);
      ConnectOk(s.canvases[i], j);
      ShareOk(Connect(s.canvases[i], j), other);
      ReplaceKeeps(s, i, ShareWith(Connect(s.canvases[i], j), other));
    }
  }

  lemma DestroyKeeps(s: Handles, id: nat, name: string)
    requires StoreInv(s)
    ensures StoreInv(DestroyForUser(s, id, name))
  {
    var i := CanvasFor(s, id, name);
    if i < |s.canvases| {
      var s' := DestroyForUser(s, id, name);
      CanvasIdsFall(s);
      assert forall k :: 0 <= k < |s.canvases| && k != i ==> s.canvases[k].id != id;
      assert s.canvases[i].id !in s.destroyed;
      hide IdsOk;
      SameIds(s, s');
      AbandonOk(s.canvases[i], FindUser(s.canvases[i].users, name));
    }
  }

  lemma {:induction false} NoneDestroyed(cs: seq<Canvas>, name: string)
    requires forall i :: 0 <= i < |cs| ==> CanvasOk(cs[i])
    ensures Destroyed(cs, name) == []
  {
    if cs != [] {
      LeaveOk(cs[0], name);
      NoneDestroyed(cs[1..], name);
    }
  }

  /** A disconnect never destroys a canvas: only a record already deleted could be, and those are gone. */
  lemma DisconnectKeeps(s: Handles, name: string)
    requires StoreInv(s)
    ensures StoreInv(DisconnectUser(s, name))
    ensures DisconnectUser(s, name).destroyed == s.destroyed
    ensures |DisconnectUser(s, name).canvases| == |s.canvases|
    ensures name != "" ==> forall i :: 0 <= i < |s.canvases| ==> DisconnectUser(s, name).canvases[i] == Leave(s.canvases[i], name)
  {
    hide IdsOk, CanvasOk, Doomed, MaybeDestroy;
    NoneDestroyed(s.canvases, name);
    forall i | 0 <= i < |s.canvases| ensures CanvasOk(Leave(s.canvases[i], name)) && MaybeDestroy(Leave(s.canvases[i], name)) == Leave(s.canvases[i], name) {
      LeaveOk(s.canvases[i], name);
    }
    if name != "" {
      SameIds(s, DisconnectUser(s, name));
    }
  }

  lemma DestroySpriteKeeps(s: Handles, id: nat, name: string, failed: bool)
    requires StoreInv(s)
    ensures StoreInv(DestroySprite(s, id, name, failed))
  {
    hide IdsOk, CanvasOk;
    SameIds(s, DestroySprite(s, id, name, failed));
  }

  lemma DestroyPlacementKeeps(s: Handles, id: nat, name: string)
    requires StoreInv(s)
    ensures StoreInv(DestroyPlacement(s, id, name))
  {
    hide IdsOk, CanvasOk;
    SameIds(s, DestroyPlacement(s, id, name));
  }

  // ------------------------------------------------ the scans are map lookups

  /** The canvas records keyed by id. */
  function CanvasTable(cs: seq<Canvas>): map<nat, Canvas> {
    if cs == [] then map[] else CanvasTable(cs[1..])[cs[0].id := cs[0]]
  }

  lemma {:induction false} TableHolds(cs: seq<Canvas>)
    requires forall i, j :: 0 <= i < j < |cs| ==> cs[i].id > cs[j].id
    ensures forall i :: 0 <= i < |cs| ==> cs[i].id in CanvasTable(cs) && CanvasTable(cs)[cs[i].id] == cs[i]
    ensures forall id :: id in CanvasTable(cs) ==> exists i :: 0 <= i < |cs| && cs[i].id == id
  {
    if cs != [] {
      TableHolds(cs[1..]);
      assert forall i :: 1 <= i < |cs| ==> cs[i] == cs[1..][i - 1];
      forall id | id in CanvasTable(cs) ensures exists i :: 0 <= i < |cs| && cs[i].id == id {
        if id != cs[0].id {
          var i :| 0 <= i < |cs| - 1 && cs[1..][i].id == id;
          assert cs[i + 1].id == id;
        } else {
          assert cs[0].id == id;
        }
      }
    }
  }

  /**
   * The first-match scan, which skips records the user may not use, is lookup by
   * id followed by one check: it finds a record iff the table has a usable one
   * under that id, and then it finds that one.
   */
  lemma ScanIsLookup(s: Handles, id: nat, name: string)
    requires StoreInv(s)
    ensures var i, t := CanvasFor(s, id, name), CanvasTable(s.canvases);
            && (i < |s.canvases| <==> id in t && Usable(t[id], id, name))
            && (i < |s.canvases| ==> t[id] == s.canvases[i])
  {
    CanvasIdsFall(s);
    TableHolds(s.canvases);
    var t := CanvasTable(s.canvases);
    if id in t && Usable(t[id], id, name) {
      var k :| 0 <= k < |s.canvases| && s.canvases[k].id == id;
      assert Usable(s.canvases[k], id, name);
    }
  }

  /** An id names one record at most, of one kind: whichever scan finds it, that record is the only one under that id. */
  lemma IdNamesOneRecord(s: Handles, id: nat, name: string)
    requires StoreInv(s)
    ensures var (i, j, k) := (CanvasFor(s, id, name), SpriteFor(s, id, name), PlacementFor(s, id, name));
            var (cs, ss, ps) := (CanvasIds(s.canvases), SpriteIds(s.sprites), PlacementIds(s.placements));
            && (i < |s.canvases| ==> id !in ss && id !in ps && forall x :: 0 <= x < |cs| ==> (cs[x] == id <==> x == i))
            && (j < |s.sprites| ==> id !in cs && id !in ps && forall x :: 0 <= x < |ss| ==> (ss[x] == id <==> x == j))
            && (k < |s.placements| ==> id !in cs && id !in ss && forall x :: 0 <= x < |ps| ==> (ps[x] == id <==> x == k))
            && (j < |s.sprites| <==> exists x :: 0 <= x < |s.sprites| && id > 0 && SpriteUsable(s.sprites[x], id, name))
            && (k < |s.placements| <==> exists x :: 0 <= x < |s.placements| && id > 0 && PlacementUsable(s.placements[x], id, name))
  {
    hide FindCanvas, FindSprite, FindPlacement;
    var (i, j, k) := (CanvasFor(s, id, name), SpriteFor(s, id, name), PlacementFor(s, id, name));
    var (cs, ss, ps) := (CanvasIds(s.canvases), SpriteIds(s.sprites), PlacementIds(s.placements));
    assert i < |s.canvases| ==> cs[i] == id;
    assert j < |s.sprites| ==> ss[j] == id;
    assert k < |s.placements| ==> ps[k] == id;
  }

  /** A new canvas is found under the id handed out, by its creator alone; every other lookup is unmoved. */
  lemma AddedCanvasFound(s: Handles, owner: string, id: nat, name: string)
    requires StoreInv(s) && ShortName(owner)
    ensures var i := CanvasFor(AddCanvas(s, owner), id, name);
            if id == s.nextId then i == if name == owner then 0 else |s.canvases| + 1
            else i == CanvasFor(s, id, name) + 1
  {
    CanvasIdsFall(s);
    var s' := AddCanvas(s, owner);
    assert s'.canvases[1..] == s.canvases && CopyUsername(owner) == owner;
    assert s'.canvases[0].users[1..] == [];
    assert forall k :: 1 <= k < |s'.canvases| ==> s'.canvases[k] == s.canvases[k - 1];
  }

  /** A new sprite or placement is found under the id handed out, by its owner alone; a placement refers to the ids it was made with. */
  lemma AddedRecordFound(s: Handles, canvasId: nat, spriteId: nat, owner: string, name: string)
    requires StoreInv(s) && ShortName(owner)
    ensures SpriteFor(AddSprite(s, owner), s.nextId, name) == if name == owner then 0 else |s.sprites| + 1
    ensures var s' := AddPlacement(s, canvasId, spriteId, owner);
            && PlacementFor(s', s.nextId, name) == (if name == owner then 0 else |s.placements| + 1)
            && s'.placements[0].canvasId == canvasId && s'.placements[0].spriteId == spriteId
  {
    assert CopyUsername(owner) == owner;
    assert forall k :: 0 <= k < |s.sprites| ==> SpriteIds(s.sprites)[k] == s.sprites[k].id;
    assert forall k :: 0 <= k < |s.placements| ==> PlacementIds(s.placements)[k] == s.placements[k].id;
    var ss, ps := AddSprite(s, owner).sprites, AddPlacement(s, canvasId, spriteId, owner).placements;
    assert forall k :: 1 <= k < |ss| ==> ss[k] == s.sprites[k - 1];
    assert forall k :: 1 <= k < |ps| ==> ps[k] == s.placements[k - 1];
  }

  /**
   * What has been destroyed is not found again, by anybody; every other lookup stays
   * as it was. Where there is nothing to destroy, or the library refuses to destroy
   * the sprite, nothing changes.
   */
  lemma DestroyedIsGone(s: Handles, id: nat, owner: string, failed: bool, other: nat, name: string)
    requires StoreInv(s)
    ensures var t := DestroySprite(s, id, owner, failed);
            && SpriteFor(t, other, name) == (if other == id && !failed && SpriteFor(s, id, owner) < |s.sprites| then |s.sprites|
                                             else SpriteFor(s, other, name))
            && (failed || SpriteFor(s, id, owner) == |s.sprites| ==> t == s) && t.(sprites := s.sprites) == s
            && (!failed && SpriteFor(s, id, owner) < |s.sprites| ==> t.sprites[SpriteFor(s, id, owner)] == Sprite(id, false, owner, true))
    ensures var t := DestroyPlacement(s, id, owner);
            && PlacementFor(t, other, name) == (if other == id && PlacementFor(s, id, owner) < |s.placements| then |s.placements|
                                                else PlacementFor(s, other, name))
            && (PlacementFor(s, id, owner) == |s.placements| ==> t == s) && t.(placements := s.placements) == s
            && (PlacementFor(s, id, owner) < |s.placements| ==>
                  var p := t.placements[PlacementFor(s, id, owner)]; p.id == id && p.owner == owner && !p.live && p.deleted)
  {
    hide StoreInv, FindSprite, FindPlacement;
    IdNamesOneRecord(s, id, owner);
    IdNamesOneRecord(s, other, name);
    assert forall k :: 0 <= k < |s.sprites| ==> SpriteIds(s.sprites)[k] == s.sprites[k].id;
    assert forall k :: 0 <= k < |s.placements| ==> PlacementIds(s.placements)[k] == s.placements[k].id;
    var ss, ps := DestroySprite(s, id, owner, failed).sprites, DestroyPlacement(s, id, owner).placements;
    assert forall k :: 0 <= k < |ss| ==> ss[k].id == s.sprites[k].id && (ss[k] == s.sprites[k] || ss[k].id == id);
    assert forall k :: 0 <= k < |ps| ==> ps[k].id == s.placements[k].id && (ps[k] == s.placements[k] || ps[k].id == id);
  }
}
