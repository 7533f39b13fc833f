/**
 * The handle store on the heap: record objects changed in place, scanned newest
 * first. Every method refines its Store function.
 */
module HandleStore {
  import opened Sequences
  import opened Store

  class CanvasRecord {
    const id: nat
    /** Is the underlying canvas pointer non-null? */
    var live: bool
    var deleted: bool
    var users: seq<User>

    constructor (id: nat, owner: string)
      ensures View() == Canvas(id, true, false, [User(CopyUsername(owner), true, false)])
    {
      this.id := id;
      live, deleted := true, false;
      users := [User(CopyUsername(owner), true, false)];
    }

    ghost function View(): Canvas
      reads this
    {
      Canvas(id, live, deleted, users)
    }

    method FindSharedUser(username: string) returns (j: nat)
      ensures j == FindUser(users, username)
    {
      j := 0;
      while j < |users|
        invariant j <= |users|
        invariant forall k :: 0 <= k < j ==> users[k].name != username
      {
        if users[j].name == username {
          return;
        }
        j := j + 1;
      }
    }

    /** The test handles_get_canvas makes on one record, with the place of the user. */
    method Offers(id: nat, username: string) returns (usable: bool, j: nat)
      ensures usable <==> Usable(View(), id, username)
      ensures usable ==> j == FindUser(users, username) && j < |users|
    {
      usable, j := false, 0;
      if this.id == id && live && !deleted {
        j := FindSharedUser(username);
        usable := j < |users|;
      }
    }

    method HasConnectedUser() returns (found: bool)
      ensures found == HasConnected(users)
    {
      var j := 0;
      while j < |users|
        invariant j <= |users|
        invariant forall k :: 0 <= k < j ==> !users[k].connected
      {
        if users[j].connected {
          return true;
        }
        j := j + 1;
      }
      return false;
    }

    method BarrierComplete() returns (complete: bool)
      ensures complete == Complete(users)
    {
      var j := 0;
      while j < |users|
        invariant j <= |users|
        invariant forall k :: 0 <= k < j && users[k].connected ==> users[k].waiting
      {
        if users[j].connected && !users[j].waiting {
          return false;
        }
        j := j + 1;
      }
      return true;
    }

    /**
     * canvas_record_barrier up to its wait loop: raise the flag; if the barrier is
     * complete, lower every flag. The result tells whether the caller must block.
     */
    method EnterBarrier(j: nat) returns (mustWait: bool)
      requires j < |users|
      modifies this`users
      ensures View() == Store.EnterBarrier(old(View()), j)
      ensures mustWait <==> !Complete(Wait(old(View()), j).users)
      ensures mustWait <==> users[j].waiting
    {
      users := users[j := users[j].(waiting := true)];
      var complete := BarrierComplete();
      if complete {
        LowerFlags();
        return false;
      }
      return true;
    }

    method LowerFlags()
      modifies this`users
      ensures users == Release(old(users))
    {
      ghost var was := users;
      var k := 0;
      while k < |users|
        invariant k <= |users| == |was|
        invariant forall x :: 0 <= x < |was| ==> users[x] == if x < k then was[x].(waiting := false) else was[x]
      {
        users := users[k := users[k].(waiting := false)];
        k := k + 1;
      }
    }

    /** canvas_record_share */
    method Share(username: string)
      modifies this`users
      ensures View() == ShareWith(old(View()), username)
    {
      var j := FindSharedUser(username);
      if j < |users| {
        return;
      }
      users := [User(CopyUsername(username), false, false)] + users;
    }

    /** A departing user: clear both flags. */
    method Depart(j: nat)
      requires j < |users|
      modifies this`users
      ensures View() == Store.Depart(old(View()), j)
    {
      users := users[j := users[j].(connected := false)];
      users := users[j := users[j].(waiting := false)];
    }

    /** The user at j gives the canvas up; the last connected user takes it along. */
    method AbandonCanvas(j: nat) returns (destroyed: bool)
      requires j < |users|
      modifies this`users, this`live, this`deleted
      ensures View() == Store.MaybeDestroy(Abandon(old(View()), j))
      ensures destroyed == Doomed(Abandon(old(View()), j))
    {
      Depart(j);
      var connected := HasConnectedUser();
      if !connected {
        deleted := true;
      }
      destroyed := MaybeDestroy();
    }

    /** A disconnecting user leaves this canvas, if it is on it; the result tells whether the canvas was destroyed. */
    method LeaveCanvas(username: string) returns (destroyed: bool)
      modifies this`users, this`live
      ensures View() == LeftBy(old(View()), username)
      ensures destroyed == DestroyedBy(old(View()), username)
    {
      destroyed := false;
      var j := FindSharedUser(username);
      if j < |users| {
        Depart(j);
        destroyed := MaybeDestroy();
      }
    }

    /** maybe_destroy_canvas; the result tells whether animate_destroy_canvas was called. */
    method MaybeDestroy() returns (destroyed: bool)
      modifies this`live
      ensures View() == Store.MaybeDestroy(old(View()))
      ensures destroyed == Doomed(old(View()))
    {
      var connected := HasConnectedUser();
      if deleted && live && !connected {
        live := false;
        return true;
      }
      return false;
    }
  }

  class SpriteRecord {
    const id: nat
    const owner: string
    var live: bool
    var deleted: bool

    constructor (id: nat, owner: string)
      ensures View() == Sprite(id, true, CopyUsername(owner), false)
    {
      this.id, this.owner := id, CopyUsername(owner);
      live, deleted := true, false;
    }

    ghost function View(): Sprite
      reads this
    {
      Sprite(id, live, owner, deleted)
    }
  }

  class PlacementRecord {
    const id: nat
    const canvasId: nat
    const spriteId: nat
    const owner: string
    var live: bool
    var deleted: bool

    constructor (id: nat, canvasId: nat, spriteId: nat, owner: string)
      ensures View() == Placement(id, true, canvasId, spriteId, CopyUsername(owner), false)
    {
      this.id, this.canvasId, this.spriteId, this.owner := id, canvasId, spriteId, CopyUsername(owner);
      live, deleted := true, false;
    }

    ghost function View(): Placement
      reads this
    {
      Placement(id, live, canvasId, spriteId, owner, deleted)
    }
  }

  class HandleStore {
    var nextId: nat
    var canvases: seq<CanvasRecord>
    var sprites: seq<SpriteRecord>
    var placements: seq<PlacementRecord>
    /** The ids of the canvases handed to animate_destroy_canvas. */
    ghost var destroyed: seq<nat>
    /** What the records hold, list by list. */
    ghost var cs: seq<Canvas>
    ghost var ss: seq<Sprite>
    ghost var ps: seq<Placement>

    ghost predicate CanvasesHold()
      reads this`canvases, this`cs, canvases
    {
      && |cs| == |canvases|
      && (forall i :: 0 <= i < |canvases| ==> canvases[i].View() == cs[i])
      && (forall i, j :: 0 <= i < j < |canvases| ==> canvases[i] != canvases[j])
    }

    lemma CanvasCount()
      requires CanvasesHold()
      ensures |cs| == |canvases|
    {
    }

    ghost predicate SpritesHold()
      reads this`sprites, this`ss, sprites
    {
      && |ss| == |sprites|
      && (forall i :: 0 <= i < |sprites| ==> sprites[i].View() == ss[i])
      && (forall i, j :: 0 <= i < j < |sprites| ==> sprites[i] != sprites[j])
    }

    ghost predicate PlacementsHold()
      reads this`placements, this`ps, placements
    {
      && |ps| == |placements|
      && (forall i :: 0 <= i < |placements| ==> placements[i].View() == ps[i])
      && (forall i, j :: 0 <= i < j < |placements| ==> placements[i] != placements[j])
    }

    ghost predicate Valid()
      reads this, canvases, sprites, placements
    {
      CanvasesHold() && SpritesHold() && PlacementsHold()
    }

    ghost function View(): Handles
      reads this
    {
      Handles(nextId, cs, ss, ps, destroyed)
    }

    constructor ()
      ensures Valid() && View() == EMPTY
    {
      nextId := 1;
      canvases, sprites, placements := [], [], [];
      cs, ss, ps, destroyed := [], [], [], [];
    }

    method AddCanvas(owner: string) returns (id: nat)
      requires Valid()
      modifies this`nextId, this`canvases, this`cs
      ensures Valid() && id == old(nextId)
      ensures View() == Store.AddCanvas(old(View()), owner)
    {
      id := nextId;
      var record := new CanvasRecord(id, owner);
      nextId := nextId + 1;
      canvases, cs := [record] + canvases, [record.View()] + cs;
    }

    method AddSprite(owner: string) returns (id: nat)
      requires Valid()
      modifies this`nextId, this`sprites, this`ss
      ensures Valid() && id == old(nextId)
      ensures View() == Store.AddSprite(old(View()), owner)
    {
      id := nextId;
      var record := new SpriteRecord(id, owner);
      nextId := nextId + 1;
      sprites, ss := [record] + sprites, [record.View()] + ss;
    }

    method AddPlacement(canvasId: nat, spriteId: nat, owner: string) returns (id: nat)
      requires Valid()
      modifies this`nextId, this`placements, this`ps
      ensures Valid() && id == old(nextId)
      ensures View() == Store.AddPlacement(old(View()), canvasId, spriteId, owner)
    {
      id := nextId;
      var record := new PlacementRecord(id, canvasId, spriteId, owner);
      nextId := nextId + 1;
      placements, ps := [record] + placements, [record.View()] + ps;
    }

    /** The scan of handles_get_canvas; the list's length stands for NULL. */
    method ScanCanvases(id: nat, username: string) returns (i: nat, user: nat)
      requires CanvasesHold()
      ensures i == CanvasFor(View(), id, username)
      ensures i < |canvases| ==> user == FindUser(cs[i].users, username) && user < |cs[i].users|
    {
      i, user := 0, 0;
      if id == INVALID_HANDLE {
        return |canvases|, 0;
      }
      while i < |canvases|
        invariant i <= |canvases|
        invariant forall x :: 0 <= x < i ==> !Usable(cs[x], id, username)
      {
        var record := canvases[i];
        assert record.View() == cs[i];
        var usable, j := record.Offers(id, username);
        if usable {
          return i, j;
        }
        i := i + 1;
      }
    }

    /** handles_get_canvas: finding a usable record marks its user connected. */
    method GetCanvas(id: nat, username: string) returns (i: nat, user: nat)
      requires Valid()
      modifies this`cs, canvases`users
      ensures Valid()
      ensures View() == Store.GetCanvas(old(View()), id, username)
      ensures i == CanvasFor(old(View()), id, username) && i <= |canvases| == |old(cs)|
      ensures i < |canvases| ==> user == FindUser(old(cs)[i].users, username) && user < |old(cs)[i].users|
      ensures i < |canvases| ==> cs == old(cs)[i := Connect(old(cs)[i], user)]
    {
      i, user := ScanCanvases(id, username);
      ghost var n := |canvases|;
      assert |cs| == n;
      hide SpritesHold, PlacementsHold, Usable;
      if i < |canvases| {
        ConnectAt(canvases[i], i, user);
      }
    }

    /** user->connected = true on the user at j of the record at i. */
    method ConnectAt(record: CanvasRecord, ghost i: nat, j: nat)
      requires CanvasesHold() && i < |canvases| && record == canvases[i] && j < |cs[i].users|
      modifies this`cs, record`users
      ensures CanvasesHold() && cs == old(cs)[i := Connect(old(cs[i]), j)]
    {
      assert record.View() == cs[i];
      record.users := record.users[j := record.users[j].(connected := true)];
      cs := cs[i := Connect(cs[i], j)];
    }

    method EnterAt(record: CanvasRecord, ghost i: nat, j: nat) returns (mustWait: bool)
      requires CanvasesHold() && i < |canvases| && record == canvases[i] && j < |cs[i].users|
      modifies this`cs, record`users
      ensures CanvasesHold() && cs == old(cs)[i := Store.EnterBarrier(old(cs[i]), j)]
      ensures mustWait <==> !Complete(Wait(old(cs[i]), j).users)
    {
      assert record.View() == cs[i];
      mustWait := record.EnterBarrier(j);
      cs := cs[i := record.View()];
    }

    method ShareAt(record: CanvasRecord, ghost i: nat, other: string)
      requires CanvasesHold() && i < |canvases| && record == canvases[i]
      modifies this`cs, record`users
      ensures CanvasesHold() && cs == old(cs)[i := ShareWith(old(cs[i]), other)]
    {
      assert record.View() == cs[i];
      record.Share(other);
      cs := cs[i := record.View()];
    }

    method AbandonAt(record: CanvasRecord, ghost i: nat, j: nat) returns (gone: bool)
      requires CanvasesHold() && i < |canvases| && record == canvases[i] && j < |cs[i].users|
      modifies this`cs, record`users, record`deleted, record`live
      ensures CanvasesHold() && cs == old(cs)[i := Store.MaybeDestroy(Abandon(old(cs[i]), j))]
      ensures gone == Doomed(Abandon(old(cs[i]), j))
    {
      assert record.View() == cs[i];
      gone := record.AbandonCanvas(j);
      cs := cs[i := record.View()];
    }

    method GetSprite(id: nat, username: string) returns (i: nat)
      requires Valid()
      ensures i == SpriteFor(View(), id, username)
    {
      i := 0;
      if id == INVALID_HANDLE {
        return |sprites|;
      }
      while i < |sprites|
        invariant i <= |sprites|
        invariant forall x :: 0 <= x < i ==> !SpriteUsable(ss[x], id, username)
      {
        var record := sprites[i];
        assert record.View() == ss[i];
        if record.id == id && record.live && !record.deleted && record.owner == username {
          return;
        }
        i := i + 1;
      }
    }

    method GetPlacement(id: nat, username: string) returns (i: nat)
      requires Valid()
      ensures i == PlacementFor(View(), id, username)
    {
      i := 0;
      if id == INVALID_HANDLE {
        return |placements|;
      }
      while i < |placements|
        invariant i <= |placements|
        invariant forall x :: 0 <= x < i ==> !PlacementUsable(ps[x], id, username)
      {
        var record := placements[i];
        assert record.View() == ps[i];
        if record.id == id && record.live && !record.deleted && record.owner == username {
          return;
        }
        i := i + 1;
      }
    }

    /** The barrier request: look the canvas up and enter its barrier; mustWait tells whether the caller blocks. */
    method Barrier(id: nat, username: string) returns (found: bool, mustWait: bool)
      requires Valid()
      modifies this`cs, canvases`users
      ensures Valid()
      ensures View() == Store.Barrier(old(View()), id, username)
      ensures found <==> CanvasFor(old(View()), id, username) < |canvases|
      ensures !found ==> !mustWait
      ensures found ==> var i := CanvasFor(old(View()), id, username);
                        var j := FindUser(old(cs)[i].users, username);
                        mustWait <==> !Complete(Wait(Connect(old(cs)[i], j), j).users)
    {
      hide CanvasesHold, SpritesHold, PlacementsHold, Usable, Store.EnterBarrier, Connect, Wait;
      var i, j := GetCanvas(id, username);
      if i == |canvases| {
        return false, false;
      }
      ConnectKeepsSize(old(cs)[i], j);
      mustWait := EnterAt(canvases[i], i, j);
      return true, mustWait;
    }

    /** The share_canvas request. */
    method Share(id: nat, username: string, other: string) returns (found: bool)
      requires Valid()
      modifies this`cs, canvases`users
      ensures Valid()
      ensures View() == Store.Share(old(View()), id, username, other)
      ensures found <==> CanvasFor(old(View()), id, username) < |canvases|
    {
      hide CanvasesHold, SpritesHold, PlacementsHold, Usable, ShareWith, Connect;
      var i, j := GetCanvas(id, username);
      if i == |canvases| {
        return false;
      }
      ShareAt(canvases[i], i, other);
      return true;
    }

    /** handles_destroy_canvas_for_user */
    method DestroyCanvasForUser(id: nat, username: string) returns (found: bool)
      requires Valid()
      modifies this`cs, this`destroyed, canvases`users, canvases`deleted, canvases`live
      ensures Valid()
      ensures View() == DestroyForUser(old(View()), id, username)
      ensures found <==> CanvasFor(old(View()), id, username) < |canvases|
    {
      hide CanvasesHold, SpritesHold, PlacementsHold, Usable, Store.MaybeDestroy, Doomed, Abandon, Connect;
      var i, j := GetCanvas(id, username);
      if i == |canvases| {
        return false;
      }
      ConnectKeepsSize(old(cs)[i], j);
      AbandonConnected(old(cs)[i], j);
      var gone := AbandonAt(canvases[i], i, j);
      destroyed := if gone then destroyed + [id] else destroyed;
      return true;
    }

    /** One turn of the disconnect loop. */
    method LeaveAt(k: nat, username: string)
      requires CanvasesHold() && k < |canvases|
      modifies this`cs, this`destroyed, canvases`users, canvases`live
      ensures CanvasesHold() && cs == old(cs)[k := LeftBy(old(cs)[k], username)]
      ensures destroyed == old(destroyed) + if DestroyedBy(old(cs)[k], username) then [old(cs)[k].id] else []
    {
      hide LeftBy, DestroyedBy;
      var record := canvases[k];
      assert record.View() == cs[k];
      var gone := record.LeaveCanvas(username);
      destroyed := if gone then destroyed + [record.id] else destroyed;
      cs := cs[k := record.View()];
    }

    /** handles_disconnect_user: the user leaves every canvas it is on. */
    method DisconnectUser(username: string)
      requires Valid()
      modifies this`cs, this`destroyed, canvases`users, canvases`live
      ensures Valid()
      ensures View() == Store.DisconnectUser(old(View()), username)
    {
      hide CanvasesHold, SpritesHold, PlacementsHold, LeftBy, DestroyedBy;
      CanvasCount();
      if username == "" {
        return;
      }
      ghost var was := cs;
      var k := 0;
      while k < |canvases|
        invariant k <= |canvases| == |was| && CanvasesHold() && |cs| == |was|
        invariant forall x :: 0 <= x < |was| ==> cs[x] == if x < k then LeftBy(was[x], username) else was[x]
        invariant destroyed + Destroyed(was[k..], username) == old(destroyed) + Destroyed(was, username)
        modifies this`cs, this`destroyed, canvases`users, canvases`live
      {
        assert was[k..][1..] == was[k + 1..];
        LeaveAt(k, username);
        k := k + 1;
      }
      assert was[k..] == [];
      assert cs == LeaveAll(was, username);
    }

    /** handles_destroy_sprite; failed is what animate_destroy_sprite answers. The result is the return code. */
    method DestroySprite(id: nat, username: string, failed: bool) returns (code: int)
      requires Valid()
      modifies this`ss, sprites`live, sprites`deleted
      ensures Valid()
      ensures View() == Store.DestroySprite(old(View()), id, username, failed)
      ensures code == if SpriteFor(old(View()), id, username) == |sprites| then -1 else if failed then 1 else 0
    {
      var i := GetSprite(id, username);
      if i == |sprites| {
        return -1;
      }
      if failed {
        return 1;
      }
      assert sprites[i].View() == ss[i];
      sprites[i].live := false;
      sprites[i].deleted := true;
      ss := ss[i := sprites[i].View()];
      return 0;
    }

    method DestroyPlacement(id: nat, username: string) returns (code: int)
      requires Valid()
      modifies this`ps, placements`live, placements`deleted
      ensures Valid()
      ensures View() == Store.DestroyPlacement(old(View()), id, username)
      ensures code == if PlacementFor(old(View()), id, username) == |placements| then -1 else 0
    {
      var i := GetPlacement(id, username);
      if i == |placements| {
        return -1;
      }
      assert placements[i].View() == ps[i];
      placements[i].live := false;
      placements[i].deleted := true;
      ps := ps[i := placements[i].View()];
      return 0;
    }
  }

  lemma AbandonConnected(c: Canvas, j: nat)
    requires j < |c.users|
    ensures Abandon(Connect(c, j), j) == Abandon(c, j)
  {
    assert Store.Depart(Connect(c, j), j) == Store.Depart(c, j);
  }

  lemma ConnectKeepsSize(c: Canvas, j: nat)
    requires j < |c.users|
    ensures |Connect(c, j).users| == |c.users|
  {
  }
}
