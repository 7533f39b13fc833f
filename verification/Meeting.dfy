/**
 * Barriers and workers: a barrier call keeps its worker thread until it returns,
 * so how many users can meet depends on how many workers there are.
 */
module Meeting {
  import opened Auth
  import opened Sequences
  import opened Store
  import opened BarrierSystem
  import opened BarrierInvariant
  import opened BarrierTheorems

  // ------------------------------------------------- raised flags hold workers

  /** The thread is inside a barrier call of this user on this canvas. */
  predicate Holds(th: Thread, id: nat, user: string) {
    th.AtBarrier? && th.canvas == id && th.user == user
  }

  ghost predicate FlagHeld(w: World, id: nat, user: string) {
    Flag(TableOf(w), id, user) ==> exists k :: 0 <= k < |w.threads| && Holds(w.threads[k], id, user)
  }

  /** Every raised flag keeps a worker inside the barrier call that raised it. */
  ghost predicate FlagsHeld(w: World) {
    forall id, user :: FlagHeld(w, id, user)
  }

  /** The same blocked call, awake or asleep. */
  predicate SamePlace(a: Thread, b: Thread) {
    || (a.AtBarrier? && b == AtBarrier(a.canvas, a.user, b.AtBarrier? && b.asleep))
    || (a.AtGate? && b == AtGate(a.canvas, a.user, a.gate, b.AtGate? && b.asleep))
  }

  /** A blocked thread whose flag is up stays where it is. */
  lemma BlockedStays(w: World, e: Event, k: nat)
    requires k < |w.threads| && (w.threads[k].AtBarrier? || w.threads[k].AtGate?)
    requires e == Resume(k) ==> Flag(TableOf(w), w.threads[k].canvas, w.threads[k].user)
    ensures |Step(w, e).threads| == |w.threads|
    ensures SamePlace(w.threads[k], Step(w, e).threads[k])
  {
    hide TableOf, Flag, GetCanvas, Found, Completes, ValidEvent;
  }

  lemma EntererHolds(w: World, e: Event)
    requires e.Enter? && Enabled(w, e) && Found(w, e.canvas, e.user) && !Completes(TableOf(w), e.canvas, e.user)
    ensures |Step(w, e).threads| == |w.threads| && Step(w, e).threads[e.t] == AtBarrier(e.canvas, e.user, true)
  {
    hide TableOf, Found, Completes;
  }

  lemma HeldStep(w: World, e: Event)
    requires WorldInv(w) && FlagsHeld(w)
    ensures FlagsHeld(Step(w, e))
  {
    hide WorldInv, Step, TableOf, Flag;
    forall id, user ensures FlagHeld(Step(w, e), id, user) {
      FlagHeldStep(w, e, id, user);
    }
  }

  lemma FlagHeldStep(w: World, e: Event, id: nat, user: string)
    requires WorldInv(w) && FlagHeld(w, id, user)
    ensures FlagHeld(Step(w, e), id, user)
  {
    hide WorldInv, Step, TableOf, Flag;
    var w' := Step(w, e);
    if Flag(TableOf(w'), id, user) {
      if Flag(TableOf(w), id, user) {
        var k :| 0 <= k < |w.threads| && Holds(w.threads[k], id, user);
        BlockedStays(w, e, k);
        assert Holds(w'.threads[k], id, user);
      } else {
        RaisedByCall(w, e, id, user);
        assert Holds(w'.threads[e.t], id, user);
      }
    }
  }

  lemma RaisedByCall(w: World, e: Event, id: nat, user: string)
    requires WorldInv(w) && !Flag(TableOf(w), id, user) && Flag(TableOf(Step(w, e)), id, user)
    ensures e.Enter? && e.t < |Step(w, e).threads| && Holds(Step(w, e).threads[e.t], id, user)
  {
    hide StoreInv, Step, TableOf, Completes, ThreadsOk, Provenance, Flag, UserWaits;
    FlagStep(w, e, id, user);
    FoundIsReachable(w, id, user);
    TableIsOk(w);
    if !Found(w, id, user) {
      NothingEntered(w, e);
    } else if Completes(TableOf(w), id, user) {
      assert ReleasesBy(w, e, TableOf(w)[id]) by { CompletesAlone(TableOf(w), id, user); }
      ReleaseClearsFlags(w, e, id, user);
    } else {
      EntererHolds(w, e);
    }
  }

  lemma NothingEntered(w: World, e: Event)
    requires e.Enter? && !Found(w, e.canvas, e.user)
    ensures Step(w, e) == w
  {
  }

  lemma CompletesAlone(t: Table, id: nat, user: string)
    requires id in t && t[id].id == id
    ensures Completes(t, id, user) <==> Completes(map[id := t[id]], id, user)
  {
  }

  lemma {:induction false} HeldRun(w: World, es: seq<Event>)
    requires WorldInv(w) && FlagsHeld(w)
    ensures WorldInv(Run(w, es)) && FlagsHeld(Run(w, es)) && |Run(w, es).threads| == |w.threads|
    decreases |es|
  {
    if es != [] {
      hide WorldInv, Step, FlagsHeld;
      StepKeeps(w, es[0]);
      HeldStep(w, es[0]);
      SameCrew(w, es[0]);
      HeldRun(Step(w, es[0]), es[1..]);
    }
  }

  lemma SameCrew(w: World, e: Event)
    ensures |Step(w, e).threads| == |w.threads|
  {
    hide TableOf, Flag, GetCanvas, Found, Completes, ValidEvent;
  }

  lemma AlwaysHeld(n: nat, es: seq<Event>)
    ensures WorldInv(Run(Initial(n), es)) && FlagsHeld(Run(Initial(n), es)) && |Run(Initial(n), es).threads| == n
  {
    AlwaysInv(n, []);
    HeldRun(Initial(n), es);
  }

  // --------------------------------------------------- how many a release frees

  function ConnectedNames(c: Canvas): set<string> {
    set i | 0 <= i < |c.users| && c.users[i].connected :: c.users[i].name
  }

  /** The users a releasing call of this user frees: all who are connected once the caller is. */
  function Freed(c: Canvas, caller: string): set<string> {
    if HasUser(c.users, caller) then ConnectedNames(Marked(c, caller)) else {}
  }

  lemma {:induction false} FewInList(names: seq<string>, s: set<string>)
    requires forall x :: x in s ==> x in names
    ensures |s| <= |names|
  {
    if names == [] {
      assert s == {};
    } else {
      var rest := s - {names[0]};
      assert forall x :: x in rest ==> x in names[1..];
      FewInList(names[1..], rest);
      assert s <= rest + {names[0]};
    }
  }

  /** Whom a thread serves during a release: the caller on its own thread, the waiting users on theirs. */
  function Served(w: World, e: Event): seq<string> {
    seq(|w.threads|, k requires 0 <= k < |w.threads| =>
      if e.Enter? && k == e.t then e.user
      else if w.threads[k].AtBarrier? then w.threads[k].user else "")
  }

  lemma FreedIsServed(w: World, e: Event, id: nat, user: string)
    requires WorldInv(w) && FlagsHeld(w) && id in TableOf(w) && ReleasesBy(w, e, TableOf(w)[id])
    requires user in Freed(TableOf(w)[id], e.user)
    ensures user in Served(w, e)
  {
    hide WorldInv, TableOf, Flag, FlagsHeld;
    if user == e.user {
      assert Served(w, e)[e.t] == user;
    } else {
      FreedWaits(w, e, id, user);
      assert FlagHeld(w, id, user) by { HeldAll(w, id, user); }
      var k :| 0 <= k < |w.threads| && Holds(w.threads[k], id, user);
      assert Served(w, e)[k] == user;
    }
  }

  lemma HeldAll(w: World, id: nat, user: string)
    requires FlagsHeld(w)
    ensures FlagHeld(w, id, user)
  {
  }

  lemma FreedWaits(w: World, e: Event, id: nat, user: string)
    requires WorldInv(w) && id in TableOf(w) && ReleasesBy(w, e, TableOf(w)[id])
    requires user in Freed(TableOf(w)[id], e.user) && user != e.user
    ensures Flag(TableOf(w), id, user)
  {
    TableIsOk(w);
    hide StoreInv, TableOf, ThreadsOk, Provenance;
    var c := TableOf(w)[id];
    var i :| 0 <= i < |Marked(c, e.user).users| && Marked(c, e.user).users[i].connected && Marked(c, e.user).users[i].name == user;
    assert Marked(c, e.user).users[i] == c.users[i];
    assert c.users[i].waiting;
    assert FindUser(c.users, user) == i;
  }

  /**
   * A release frees at most as many users as there are workers: in every run of n
   * workers, with or without departures.
   */
  lemma ReleaseFreesAtMost(n: nat, es: seq<Event>, e: Event, id: nat)
    ensures var w := Run(Initial(n), es);
            id in TableOf(w) && ReleasesBy(w, e, TableOf(w)[id])
            ==> |Freed(TableOf(w)[id], e.user)| <= n && e.user in Freed(TableOf(w)[id], e.user)
  {
    hide WorldInv, FlagsHeld, TableOf, Freed, Initial, Run;
    AlwaysHeld(n, es);
    var w := Run(Initial(n), es);
    if id in TableOf(w) && ReleasesBy(w, e, TableOf(w)[id]) {
      forall user | user in Freed(TableOf(w)[id], e.user) ensures user in Served(w, e) {
        FreedIsServed(w, e, id, user);
      }
      FewInList(Served(w, e), Freed(TableOf(w)[id], e.user));
      CallerFreed(TableOf(w)[id], e.user);
    }
  }

  lemma CallerFreed(c: Canvas, user: string)
    requires HasUser(c.users, user)
    ensures user in Freed(c, user)
  {
    var j := FindUser(c.users, user);
    assert Marked(c, user).users[j].connected && Marked(c, user).users[j].name == user;
  }

  /** With a single worker every barrier call that releases finds its caller as the only connected user. */
  lemma OneWorkerMeetsNobody(es: seq<Event>, e: Event, id: nat)
    ensures var w := Run(Initial(1), es);
            id in TableOf(w) && ReleasesBy(w, e, TableOf(w)[id]) ==> Freed(TableOf(w)[id], e.user) == {e.user}
  {
    hide TableOf, Freed, Initial, Run;
    ReleaseFreesAtMost(1, es, e, id);
    var w := Run(Initial(1), es);
    if id in TableOf(w) && ReleasesBy(w, e, TableOf(w)[id]) {
      OnlyMember(Freed(TableOf(w)[id], e.user), e.user);
    }
  }

  lemma OnlyMember(s: set<string>, x: string)
    requires |s| <= 1 && x in s
    ensures s == {x}
  {
    var rest := s - {x};
    assert |rest| == |s| - 1;
  }

  // ------------------------------------------------------- the missing users

  /** Who is connected and not waiting: the users whose barrier calls are still to come. */
  function Missing(c: Canvas): set<string> {
    set i | 0 <= i < |c.users| && c.users[i].connected && !c.users[i].waiting :: c.users[i].name
  }

  /** A call by a user releases exactly if nobody else is missing. */
  lemma CompletesIff(c: Canvas, user: string)
    requires CanvasOk(c) && HasUser(c.users, user)
    ensures Completes(map[c.id := c], c.id, user) <==> Missing(c) <= {user}
  {
    var j := FindUser(c.users, user);
    var marked := Wait(Connect(c, j), j);
    assert forall i :: 0 <= i < |c.users| && i != j ==> marked.users[i] == c.users[i] && c.users[i].name != user;
    if Complete(marked.users) {
      forall x | x in Missing(c) ensures x == user {
        var i :| 0 <= i < |c.users| && c.users[i].connected && !c.users[i].waiting && c.users[i].name == x;
      }
    } else {
      var i :| 0 <= i < |marked.users| && marked.users[i].connected && !marked.users[i].waiting;
      assert c.users[i].name in Missing(c);
    }
  }

  /** A call that does not release takes its user, and nobody else, off the missing. */
  lemma EnteredMissing(c: Canvas, user: string)
    requires CanvasOk(c) && HasUser(c.users, user) && !(Missing(c) <= {user})
    ensures var j := FindUser(c.users, user);
            Missing(EnterBarrier(Connect(c, j), j)) == Missing(c) - {user}
  {
    CompletesIff(c, user);
    var j := FindUser(c.users, user);
    var c' := EnterBarrier(Connect(c, j), j);
    assert forall i :: 0 <= i < |c.users| && i != j ==> c'.users[i] == c.users[i] && c.users[i].name != user;
    forall x ensures x in Missing(c') <==> x in Missing(c) - {user} {
      if x in Missing(c') {
        var i :| 0 <= i < |c'.users| && c'.users[i].connected && !c'.users[i].waiting && c'.users[i].name == x;
        assert i != j;
      }
      if x in Missing(c) - {user} {
        var i :| 0 <= i < |c.users| && c.users[i].connected && !c.users[i].waiting && c.users[i].name == x;
        assert c'.users[i] == c.users[i];
      }
    }
  }

  /** Without a departure nobody leaves the missing but by a barrier call of their own. */
  lemma MissingStep(w: World, e: Event, c: Canvas)
    requires CanvasOk(c) && !IsDeparture(e) && !ReleasesBy(w, e, c)
    ensures Missing(c) <= Missing(CanvasAfter(w, e, c)) + if CallsBarrier(w, e, c.id, Actor(e)) then {Actor(e)} else {}
  {
    var j := FindUser(c.users, Actor(e));
    var c' := CanvasAfter(w, e, c);
    if c' != c {
      CompletesIff(c, Actor(e));
      hide CanvasOk, Enabled;
      if e.Enter? {
        EnteredMissing(c, e.user);
      } else {
        ConnectMissing(c, j);
        if e.ShareCanvas? { ShareMissing(Connect(c, j), e.other); }
      }
    }
  }

  lemma ConnectMissing(c: Canvas, j: nat)
    requires j < |c.users|
    ensures Missing(c) <= Missing(Connect(c, j))
  {
    forall x | x in Missing(c) ensures x in Missing(Connect(c, j)) {
      var i :| 0 <= i < |c.users| && c.users[i].connected && !c.users[i].waiting && c.users[i].name == x;
      assert Connect(c, j).users[i].connected && !Connect(c, j).users[i].waiting && Connect(c, j).users[i].name == x;
    }
  }

  lemma ShareMissing(c: Canvas, other: string)
    ensures Missing(c) <= Missing(ShareWith(c, other))
  {
    var c' := ShareWith(c, other);
    forall x | x in Missing(c) && c' != c ensures x in Missing(c') {
      var i :| 0 <= i < |c.users| && c.users[i].connected && !c.users[i].waiting && c.users[i].name == x;
      assert c'.users[i + 1] == c.users[i];
    }
  }

  // ------------------------------------------------------ enough workers suffice

  /** Barrier calls on one canvas, one after the other, each on its own worker. */
  function Calls(id: nat, ts: seq<nat>, names: seq<string>): (es: seq<Event>)
    requires |ts| == |names|
    ensures |es| == |ts|
  {
    seq(|ts|, i requires 0 <= i < |ts| => Enter(ts[i], id, names[i]))
  }

  /** Different idle workers for different users of a live canvas. */
  predicate Manned(w: World, id: nat, ts: seq<nat>, names: seq<string>) {
    && |ts| == |names| && id in TableOf(w) && !TableOf(w)[id].deleted
    && (forall i :: 0 <= i < |ts| ==> Free(w, ts[i]) && ValidUsername(names[i]) && HasUser(TableOf(w)[id].users, names[i]))
    && (forall i, j :: 0 <= i < j < |ts| ==> ts[i] != ts[j] && names[i] != names[j])
  }

  /**
   * If the missing users all call, each on an idle worker of its own, the last of
   * these calls releases the barrier.
   */
  lemma {:induction false} MissingCallsRelease(w: World, id: nat, ts: seq<nat>, names: seq<string>)
    requires WorldInv(w) && Manned(w, id, ts, names) && ts != []
    requires forall x :: x in Missing(TableOf(w)[id]) ==> x in names
    requires |names| > 1 ==> forall i :: 0 <= i < |names| ==> names[i] in Missing(TableOf(w)[id])
    ensures var es := Calls(id, ts, names);
            var w' := Run(w, es[..|es| - 1]);
            id in TableOf(w') && ReleasesBy(w', es[|es| - 1], TableOf(w')[id])
    decreases |ts|
  {
    hide WorldInv, TableOf, Step, Missing, Run, ReleasesBy, Calls;
    var es := Calls(id, ts, names);
    CallEnabled(w, id, ts[0], names[0]);
    CallsTail(id, ts, names);
    if |ts| == 1 {
      LastCall(w, id, ts[0], names[0]);
      RunNothing(w);
      assert es[..0] == [];
    } else {
      var rest := Calls(id, ts[1..], names[1..]);
      StepKeeps(w, es[0]);
      FirstCall(w, id, ts, names);
      MissingCallsRelease(Step(w, es[0]), id, ts[1..], names[1..]);
      RunStep(w, es[0], Step(w, es[0]), rest[..|rest| - 1]);
    }
  }

  lemma CallsTail(id: nat, ts: seq<nat>, names: seq<string>)
    requires |ts| == |names| > 0
    ensures var es, rest := Calls(id, ts, names), Calls(id, ts[1..], names[1..]);
            && es[0] == Enter(ts[0], id, names[0])
            && (|ts| > 1 ==> es[..|es| - 1] == [es[0]] + rest[..|rest| - 1] && es[|es| - 1] == rest[|rest| - 1])
  {
  }

  lemma RunNothing(w: World)
    ensures Run(w, []) == w
  {
  }

  lemma CallEnabled(w: World, id: nat, t: nat, name: string)
    requires WorldInv(w) && id in TableOf(w) && !TableOf(w)[id].deleted
    requires Free(w, t) && ValidUsername(name) && HasUser(TableOf(w)[id].users, name)
    ensures Enabled(w, Enter(t, id, name)) && Found(w, id, name) && TableOf(w)[id].id == id && CanvasOk(TableOf(w)[id])
    ensures Usable(TableOf(w)[id], id, name)
  {
    TableIsOk(w);
    FoundIsReachable(w, id, name);
  }

  lemma LastCall(w: World, id: nat, t: nat, name: string)
    requires Enabled(w, Enter(t, id, name)) && id in TableOf(w) && CanvasOk(TableOf(w)[id]) && Usable(TableOf(w)[id], id, name)
    requires forall x :: x in Missing(TableOf(w)[id]) ==> x in [name]
    ensures ReleasesBy(w, Enter(t, id, name), TableOf(w)[id])
  {
    hide TableOf;
    CompletesIff(TableOf(w)[id], name);
  }

  lemma FirstCall(w: World, id: nat, ts: seq<nat>, names: seq<string>)
    requires WorldInv(w) && Manned(w, id, ts, names) && |ts| > 1
    requires forall x :: x in Missing(TableOf(w)[id]) ==> x in names
    requires forall i :: 0 <= i < |names| ==> names[i] in Missing(TableOf(w)[id])
    ensures var w1 := Step(w, Enter(ts[0], id, names[0]));
            && Manned(w1, id, ts[1..], names[1..])
            && (forall x :: x in Missing(TableOf(w1)[id]) ==> x in names[1..])
            && (forall i :: 0 <= i < |names| - 1 ==> names[1..][i] in Missing(TableOf(w1)[id]))
  {
    hide WorldInv, Step, TableOf, Missing;
    var e := Enter(ts[0], id, names[0]);
    var c := TableOf(w)[id];
    CallEnabled(w, id, ts[0], names[0]);
    assert names[1] in Missing(c) && names[1] != names[0];
    PartialCall(w, e, names[1]);
    RestManned(w, Step(w, e), id, ts, names);
  }

  /** What is left of the callers, and of their workers, once the first has called. */
  lemma RestManned(w: World, w1: World, id: nat, ts: seq<nat>, names: seq<string>)
    requires Manned(w, id, ts, names) && |ts| > 1 && id in TableOf(w1)
    requires forall x :: x in Missing(TableOf(w)[id]) ==> x in names
    requires forall i :: 0 <= i < |names| ==> names[i] in Missing(TableOf(w)[id])
    requires w1.threads == w.threads[ts[0] := AtBarrier(id, names[0], true)]
    requires Missing(TableOf(w1)[id]) == Missing(TableOf(w)[id]) - {names[0]} && !TableOf(w1)[id].deleted
    requires forall x :: HasUser(TableOf(w)[id].users, x) ==> HasUser(TableOf(w1)[id].users, x)
    ensures Manned(w1, id, ts[1..], names[1..])
    ensures forall x :: x in Missing(TableOf(w1)[id]) ==> x in names[1..]
    ensures forall i :: 0 <= i < |names| - 1 ==> names[1..][i] in Missing(TableOf(w1)[id])
  {
    hide TableOf, Missing, HasUser, ValidUsername;
    forall i | 0 <= i < |ts| - 1
      ensures Free(w1, ts[1..][i]) && ValidUsername(names[1..][i]) && HasUser(TableOf(w1)[id].users, names[1..][i])
              && names[1..][i] in Missing(TableOf(w1)[id]) {
      assert ts[1..][i] == ts[i + 1] && names[1..][i] == names[i + 1] && names[0] != names[i + 1] && ts[0] != ts[i + 1];
      assert names[i + 1] in Missing(TableOf(w)[id]);
    }
    forall x | x in Missing(TableOf(w1)[id]) ensures x in names[1..] {
      assert x in names && x != names[0];
      assert names == [names[0]] + names[1..];
    }
  }

  /** A call while somebody else is missing: the caller blocks and is missing no more. */
  lemma PartialCall(w: World, e: Event, other: string)
    requires WorldInv(w) && e.Enter? && Enabled(w, e) && e.canvas in TableOf(w) && Usable(TableOf(w)[e.canvas], e.canvas, e.user)
    requires other in Missing(TableOf(w)[e.canvas]) && other != e.user
    ensures var w1 := Step(w, e);
            && w1.threads == w.threads[e.t := AtBarrier(e.canvas, e.user, true)]
            && e.canvas in TableOf(w1)
            && Missing(TableOf(w1)[e.canvas]) == Missing(TableOf(w)[e.canvas]) - {e.user}
            && TableOf(w1)[e.canvas].deleted == TableOf(w)[e.canvas].deleted
            && forall x :: HasUser(TableOf(w)[e.canvas].users, x) ==> HasUser(TableOf(w1)[e.canvas].users, x)
  {
    hide StoreInv, Step, TableOf, Missing, Completes, CanvasOk, EnterBarrier, Connect, ThreadsOk, Provenance;
    var c := TableOf(w)[e.canvas];
    TableIsOk(w);
    FoundIsReachable(w, e.canvas, e.user);
    CompletesIff(c, e.user);
    EnteredMissing(c, e.user);
    CompletesAlone(TableOf(w), e.canvas, e.user);
    RecordStep(w, e, e.canvas);
    CalledThreads(w, e);
    EnteredNames(c, FindUser(c.users, e.user));
  }

  lemma CalledThreads(w: World, e: Event)
    requires e.Enter? && Enabled(w, e) && Found(w, e.canvas, e.user) && !Completes(TableOf(w), e.canvas, e.user)
    ensures Step(w, e).threads == w.threads[e.t := AtBarrier(e.canvas, e.user, true)]
  {
    hide TableOf, Found, Completes;
  }

  lemma EnteredNames(c: Canvas, j: nat)
    requires j < |c.users|
    ensures var c' := EnterBarrier(Connect(c, j), j);
            c'.deleted == c.deleted && c'.id == c.id && forall x :: HasUser(c.users, x) ==> HasUser(c'.users, x)
  {
    var c' := EnterBarrier(Connect(c, j), j);
    assert forall i :: 0 <= i < |c.users| ==> c'.users[i].name == c.users[i].name;
  }

  // --------------------------------------------------- too few workers never do

  /** The thread is kept at one of these canvases: its user's flag there is up. */
  predicate HeldAt(t: Table, hs: set<nat>, th: Thread) {
    (th.AtBarrier? || th.AtGate?) && th.canvas in hs && Flag(t, th.canvas, th.user)
  }

  function IsLoose(t: Table, hs: set<nat>): Thread -> bool {
    (th: Thread) => !HeldAt(t, hs, th)
  }

  /** How many workers are not kept at these canvases. */
  function Loose(w: World, hs: set<nat>): nat {
    CountIf(w.threads, IsLoose(TableOf(w), hs))
  }

  /** On each of these canvases more users are missing than there are workers to make their calls. */
  predicate Jammed(w: World, hs: set<nat>) {
    forall id :: id in hs ==> id in TableOf(w) && |Missing(TableOf(w)[id])| > Loose(w, hs)
  }

  lemma JammedNoRelease(w: World, hs: set<nat>, e: Event, id: nat)
    requires WorldInv(w) && Jammed(w, hs) && id in hs
    ensures !ReleasesBy(w, e, TableOf(w)[id])
  {
    hide TableOf, Missing, StoreInv, ThreadsOk, Provenance, Completes, CanvasOk;
    TableIsOk(w);
    var c := TableOf(w)[id];
    if ReleasesBy(w, e, c) {
      assert IsLoose(TableOf(w), hs)(w.threads[e.t]);
      CountZero(w.threads, IsLoose(TableOf(w), hs));
      CompletesIff(c, e.user);
      SubsetCount(Missing(c), {e.user});
    }
  }

  lemma SubsetCount(a: set<string>, b: set<string>)
    requires a <= b
    ensures |a| <= |b|
  {
    assert b == a + (b - a);
  }

  lemma HeldKeeps(w: World, hs: set<nat>, e: Event, k: nat)
    requires WorldInv(w) && Jammed(w, hs) && !IsDeparture(e)
    requires k < |w.threads| && HeldAt(TableOf(w), hs, w.threads[k])
    ensures |Step(w, e).threads| == |w.threads| && HeldAt(TableOf(Step(w, e)), hs, Step(w, e).threads[k])
    ensures Step(w, e).threads[k].canvas == w.threads[k].canvas && Step(w, e).threads[k].user == w.threads[k].user
  {
    hide WorldInv, Step, TableOf, Flag, ReleasesBy, Jammed;
    var id := w.threads[k].canvas;
    BlockedStays(w, e, k);
    FlagStep(w, e, id, w.threads[k].user);
    JammedNoRelease(w, hs, e, id);
  }

  lemma LooseFalls(w: World, hs: set<nat>, e: Event, k: int)
    requires WorldInv(w) && Jammed(w, hs) && !IsDeparture(e)
    ensures Loose(Step(w, e), hs) <= Loose(w, hs)
    ensures 0 <= k < |w.threads| == |Step(w, e).threads|
            && !HeldAt(TableOf(w), hs, w.threads[k]) && HeldAt(TableOf(Step(w, e)), hs, Step(w, e).threads[k])
            ==> Loose(Step(w, e), hs) < Loose(w, hs)
  {
    hide WorldInv, Step, TableOf, HeldAt, Jammed;
    SameCrew(w, e);
    forall i | 0 <= i < |w.threads| && HeldAt(TableOf(w), hs, w.threads[i])
      ensures HeldAt(TableOf(Step(w, e)), hs, Step(w, e).threads[i]) {
      HeldKeeps(w, hs, e, i);
    }
    CountFewer(w.threads, IsLoose(TableOf(w), hs), Step(w, e).threads, IsLoose(TableOf(Step(w, e)), hs), k);
  }

  /** Without departures a jam stays: each call that brings one more user takes one more worker. */
  lemma JamStep(w: World, hs: set<nat>, e: Event)
    requires WorldInv(w) && Jammed(w, hs) && !IsDeparture(e)
    ensures Jammed(Step(w, e), hs)
  {
    hide WorldInv, Step, TableOf, Missing, Loose;
    forall id | id in hs ensures id in TableOf(Step(w, e)) && |Missing(TableOf(Step(w, e))[id])| > Loose(Step(w, e), hs) {
      JamStepAt(w, hs, e, id);
    }
  }

  lemma JamStepAt(w: World, hs: set<nat>, e: Event, id: nat)
    requires WorldInv(w) && Jammed(w, hs) && !IsDeparture(e) && id in hs
    ensures id in TableOf(Step(w, e)) && |Missing(TableOf(Step(w, e))[id])| > Loose(Step(w, e), hs)
  {
    hide StoreInv, Step, TableOf, Missing, Loose, Enabled, CanvasAfter, ReleasesBy, CanvasOk, ThreadsOk, Provenance, HeldAt, Flag;
    TableIsOk(w);
    RecordStep(w, e, id);
    JammedNoRelease(w, hs, e, id);
    var c, c' := TableOf(w)[id], TableOf(Step(w, e))[id];
    MissingStep(w, e, c);
    if CallsBarrier(w, e, id, Actor(e)) && Found(w, id, e.user) {
      UnionCount(Missing(c), Missing(c'), e.user);
      CallerHeld(w, hs, e);
      LooseFalls(w, hs, e, e.t);
    } else if CallsBarrier(w, e, id, Actor(e)) {
      NothingEntered(w, e);
    } else {
      SubsetCount(Missing(c), Missing(c'));
      LooseFalls(w, hs, e, -1);
    }
  }

  lemma UnionCount(a: set<string>, b: set<string>, x: string)
    requires a <= b + {x}
    ensures |a| <= |b| + 1
  {
    SubsetCount(a, b + {x});
  }

  /** A call that does not release moves its idle worker to the barrier. */
  lemma CallerHeld(w: World, hs: set<nat>, e: Event)
    requires WorldInv(w) && Jammed(w, hs) && e.Enter? && Enabled(w, e) && e.canvas in hs && Found(w, e.canvas, e.user)
    ensures e.t < |w.threads| == |Step(w, e).threads| && !HeldAt(TableOf(w), hs, w.threads[e.t])
    ensures HeldAt(TableOf(Step(w, e)), hs, Step(w, e).threads[e.t])
  {
    hide StoreInv, Step, TableOf, Completes, Flag, Jammed, Provenance;
    TableIsOk(w);
    FoundIsReachable(w, e.canvas, e.user);
    JammedNoRelease(w, hs, e, e.canvas);
    CompletesAlone(TableOf(w), e.canvas, e.user);
    EntererHolds(w, e);
    StepKeeps(w, e);
    assert ThreadOk(Step(w, e).threads[e.t], TableOf(Step(w, e)));
  }

  /**
   * Where more users are missing than workers are left, nobody is ever released
   * and no worker kept there returns, in every run without departures.
   */
  lemma {:induction false} JammedForGood(w: World, hs: set<nat>, es: seq<Event>, k: nat)
    requires WorldInv(w) && Jammed(w, hs) && forall i :: 0 <= i < |es| ==> !IsDeparture(es[i])
    ensures WorldInv(Run(w, es)) && Jammed(Run(w, es), hs)
    ensures k < |w.threads| && HeldAt(TableOf(w), hs, w.threads[k]) ==>
              k < |Run(w, es).threads| && HeldAt(TableOf(Run(w, es)), hs, Run(w, es).threads[k])
    decreases |es|
  {
    if es != [] {
      hide WorldInv, Step, Jammed, TableOf, HeldAt;
      StepKeeps(w, es[0]);
      JamStep(w, hs, es[0]);
      if k < |w.threads| && HeldAt(TableOf(w), hs, w.threads[k]) {
        HeldKeeps(w, hs, es[0], k);
      }
      JammedForGood(Step(w, es[0]), hs, es[1..], k);
    }
  }

  // ----------------------------------------------------- no worker left at all

  predicate Blocked(w: World, th: Thread) {
    (th.AtBarrier? || th.AtGate?) && Flag(TableOf(w), th.canvas, th.user)
  }

  /** Every worker is kept by a barrier. */
  predicate Wedged(w: World) {
    forall k :: 0 <= k < |w.threads| ==> Blocked(w, w.threads[k])
  }

  /** The main thread closes a client. */
  predicate IsClose(e: Event) {
    e.Disconnect? && e.worker.None?
  }

  lemma WedgedStep(w: World, e: Event)
    requires Wedged(w) && !IsClose(e)
    ensures Step(w, e).store == w.store && Wedged(Step(w, e))
    ensures |Step(w, e).threads| == |w.threads| && forall k :: 0 <= k < |w.threads| ==> SamePlace(w.threads[k], Step(w, e).threads[k])
  {
    hide CanvasTable, Flag, ValidEvent;
    if e.Resume? {
      forall k | 0 <= k < |w.threads| ensures SamePlace(w.threads[k], Step(w, e).threads[k]) {
        assert Blocked(w, w.threads[k]);
        BlockedStays(w, e, k);
      }
      assert Step(w, e).store == w.store by {
        assert e.t < |w.threads| ==> Blocked(w, w.threads[e.t]);
      }
      SameCrew(w, e);
      assert TableOf(Step(w, e)) == TableOf(w);
    } else {
      NobodyReady(w, e);
      assert forall k :: 0 <= k < |w.threads| ==> Blocked(w, w.threads[k]);
    }
  }

  lemma NobodyReady(w: World, e: Event)
    requires Wedged(w) && !IsClose(e) && !e.Resume?
    ensures !Ready(w, e)
  {
    hide TableOf, Flag;
    if e.Disconnect? {
      assert e.worker.value < |w.threads| ==> Blocked(w, w.threads[e.worker.value]);
    } else {
      assert e.t < |w.threads| ==> Blocked(w, w.threads[e.t]);
    }
  }

  /**
   * Once every worker is kept by a barrier only the main thread closing a client
   * helps: without that no request of any kind, a departure neither, is served in
   * any run, and the workers and the canvases stay as they are.
   */
  lemma {:induction false} WedgedForGood(w: World, es: seq<Event>)
    requires Wedged(w) && forall i :: 0 <= i < |es| ==> !IsClose(es[i])
    ensures Run(w, es).store == w.store && Wedged(Run(w, es)) && |Run(w, es).threads| == |w.threads|
    ensures forall k :: 0 <= k < |w.threads| ==> SamePlace(w.threads[k], Run(w, es).threads[k])
    decreases |es|
  {
    if es != [] {
      hide Step;
      WedgedStep(w, es[0]);
      SameCrew(w, es[0]);
      WedgedForGood(Step(w, es[0]), es[1..]);
    }
  }

  // ----------------------------------------------- what the free workers can do

  predicate NamesValid(w: World) {
    forall id, i :: id in TableOf(w) && 0 <= i < |TableOf(w)[id].users| ==> ValidUsername(TableOf(w)[id].users[i].name)
  }

  lemma NamesValidStep(w: World, e: Event)
    requires WorldInv(w) && NamesValid(w)
    ensures NamesValid(Step(w, e))
  {
    hide StoreInv, Step, TableOf, CanvasAfter, ThreadsOk, Provenance, ValidUsername, Ready;
    forall id, i | id in TableOf(Step(w, e)) && 0 <= i < |TableOf(Step(w, e))[id].users|
      ensures ValidUsername(TableOf(Step(w, e))[id].users[i].name) {
      if id in TableOf(w) {
        var c := TableOf(w)[id];
        RecordStep(w, e, id);
        NamesStep(w, e, c);
        assert NameList(CanvasAfter(w, e, c))[i] == CanvasAfter(w, e, c).users[i].name;
      } else {
        NewRecord(w, e, id);
      }
    }
  }

  lemma {:induction false} NamesValidRun(w: World, es: seq<Event>)
    requires WorldInv(w) && NamesValid(w)
    ensures NamesValid(Run(w, es))
    decreases |es|
  {
    if es != [] {
      hide WorldInv, Step, NamesValid;
      StepKeeps(w, es[0]);
      NamesValidStep(w, es[0]);
      NamesValidRun(Step(w, es[0]), es[1..]);
    }
  }

  lemma {:induction false} Listing(s: set<string>) returns (names: seq<string>)
    ensures |names| == |s| && (forall x :: x in names <==> x in s)
    ensures forall i, j :: 0 <= i < j < |names| ==> names[i] != names[j]
    decreases |s|
  {
    if s == {} {
      names := [];
    } else {
      var x :| x in s;
      var rest := Listing(s - {x});
      names := [x] + rest;
    }
  }

  /** m different places where p holds, from n on. */
  lemma {:induction false} Picked(ts: seq<Thread>, p: Thread -> bool, m: nat) returns (ks: seq<nat>)
    requires m <= CountIf(ts, p)
    ensures |ks| == m && forall i :: 0 <= i < m ==> ks[i] < |ts| && p(ts[ks[i]])
    ensures forall i, j :: 0 <= i < j < m ==> ks[i] != ks[j]
    decreases |ts|
  {
    if ts == [] {
      ks := [];
    } else {
      var here := m > 0 && p(ts[0]);
      var rest := Picked(ts[1..], p, if here then m - 1 else m);
      var shifted := seq(|rest|, i requires 0 <= i < |rest| => rest[i] + 1);
      assert forall i :: 0 <= i < |rest| ==> ts[shifted[i]] == ts[1..][rest[i]];
      ks := if here then [0] + shifted else shifted;
    }
  }

  predicate Peaceful(es: seq<Event>) {
    forall i :: 0 <= i < |es| ==> !IsDeparture(es[i])
  }

  /** After the run the event releases the barrier of canvas id. */
  predicate ReleasedAfter(w: World, es: seq<Event>, e: Event, id: nat) {
    id in TableOf(Run(w, es)) && ReleasesBy(Run(w, es), e, TableOf(Run(w, es))[id])
  }

  /** Every worker is idle or kept at canvas id. */
  predicate OnlyHere(w: World, id: nat) {
    forall k :: 0 <= k < |w.threads| ==> w.threads[k].Idle? || HeldAt(TableOf(w), {id}, w.threads[k])
  }

  lemma ReleaseNeedsWorkers(w: World, es: seq<Event>, e: Event, id: nat)
    requires WorldInv(w) && id in TableOf(w) && OnlyHere(w, id) && Peaceful(es) && ReleasedAfter(w, es, e, id)
    ensures !TableOf(w)[id].deleted && Loose(w, {id}) > 0 && |Missing(TableOf(w)[id])| <= Loose(w, {id})
  {
    hide WorldInv, TableOf, Missing, Run, HeldAt, Completes;
    DeletedForGood(w, es, id);
    if |Missing(TableOf(w)[id])| > Loose(w, {id}) {
      JammedForGood(w, {id}, es, 0);
      JammedNoRelease(Run(w, es), {id}, e, id);
    } else if Loose(w, {id}) == 0 {
      AllHeldWedged(w, id);
      NoCloseIn(es);
      WedgedForGood(w, es);
      WedgedNoCall(Run(w, es), e);
    }
  }

  lemma NoCloseIn(es: seq<Event>)
    requires Peaceful(es)
    ensures forall i :: 0 <= i < |es| ==> !IsClose(es[i])
  {
  }

  lemma AllHeldWedged(w: World, id: nat)
    requires Loose(w, {id}) == 0
    ensures Wedged(w)
  {
    hide TableOf, Flag;
    CountZero(w.threads, IsLoose(TableOf(w), {id}));
    forall k | 0 <= k < |w.threads| ensures Blocked(w, w.threads[k]) {
      assert !IsLoose(TableOf(w), {id})(w.threads[k]);
    }
  }

  lemma WedgedNoCall(w: World, e: Event)
    requires Wedged(w) && e.Enter?
    ensures !Enabled(w, e)
  {
    NobodyReady(w, e);
  }

  /** The missing users, or anyone if nobody is missing. */
  lemma Callers(w: World, id: nat) returns (names: seq<string>)
    requires NamesValid(w) && id in TableOf(w) && TableOf(w)[id].users != []
    ensures var c := TableOf(w)[id];
            && names != [] && |names| == (if Missing(c) == {} then 1 else |Missing(c)|)
            && (forall x :: x in names ==> ValidUsername(x) && HasUser(c.users, x))
            && (Missing(c) != {} ==> forall x :: x in names <==> x in Missing(c))
    ensures forall i, j :: 0 <= i < j < |names| ==> names[i] != names[j]
  {
    hide TableOf;
    var c := TableOf(w)[id];
    names := Listing(Missing(c));
    if Missing(c) == {} {
      names := [c.users[0].name];
      NameIsValid(w, id, names[0]);
    } else {
      forall x | x in Missing(c) ensures ValidUsername(x) && HasUser(c.users, x) {
        var j :| 0 <= j < |c.users| && c.users[j].connected && !c.users[j].waiting && c.users[j].name == x;
        NameIsValid(w, id, x);
      }
      assert names != [];
    }
  }

  lemma WorkersRelease(w: World, id: nat)
    requires WorldInv(w) && NamesValid(w) && id in TableOf(w) && OnlyHere(w, id)
    requires !TableOf(w)[id].deleted && Loose(w, {id}) > 0 && |Missing(TableOf(w)[id])| <= Loose(w, {id})
    ensures exists es, e :: Peaceful(es) && ReleasedAfter(w, es, e, id)
  {
    hide WorldInv, TableOf, Step, Run;
    var c := TableOf(w)[id];
    HasUsers(w, id);
    var names := Callers(w, id);
    var ts := Picked(w.threads, IsLoose(TableOf(w), {id}), |names|);
    forall i | 0 <= i < |names| ensures Free(w, ts[i]) && ValidUsername(names[i]) && HasUser(c.users, names[i]) {
      assert IsLoose(TableOf(w), {id})(w.threads[ts[i]]);
      assert names[i] in names;
    }
    assert Manned(w, id, ts, names);
    MissingCallsRelease(w, id, ts, names);
    var es := Calls(id, ts, names);
    assert Peaceful(es[..|es| - 1]) && ReleasedAfter(w, es[..|es| - 1], es[|es| - 1], id);
  }

  lemma NameIsValid(w: World, id: nat, x: string)
    requires NamesValid(w) && id in TableOf(w) && exists i :: 0 <= i < |TableOf(w)[id].users| && TableOf(w)[id].users[i].name == x
    ensures ValidUsername(x) && HasUser(TableOf(w)[id].users, x)
  {
  }

  /**
   * How many workers a barrier needs when only one canvas keeps workers: in any
   * reachable state where every worker is idle or kept at that canvas, some run
   * without departures releases it if and only if the canvas still exists, some
   * worker is idle, and as many workers are idle as users are missing.
   */
  lemma ReleasableHereIff(n: nat, past: seq<Event>, id: nat)
    requires id in TableOf(Run(Initial(n), past)) && OnlyHere(Run(Initial(n), past), id)
    ensures var w := Run(Initial(n), past);
            (exists es, e :: Peaceful(es) && ReleasedAfter(w, es, e, id))
            <==> !TableOf(w)[id].deleted && 0 < Loose(w, {id}) && |Missing(TableOf(w)[id])| <= Loose(w, {id})
  {
    hide Initial, WorldInv, Run, TableOf, Loose, OnlyHere, Missing, ReleasedAfter, Peaceful;
    var w := Run(Initial(n), past);
    AlwaysInv(n, past);
    AlwaysInv(n, []);
    NothingYet(n);
    NamesValidRun(Initial(n), past);
    if es, e :| Peaceful(es) && ReleasedAfter(w, es, e, id) {
      ReleaseNeedsWorkers(w, es, e, id);
    }
    if !TableOf(w)[id].deleted && 0 < Loose(w, {id}) && |Missing(TableOf(w)[id])| <= Loose(w, {id}) {
      WorkersRelease(w, id);
    }
  }

  // -------------------------------------------- workers that are not kept come home

  lemma {:induction false} RunAppend(w: World, a: seq<Event>, b: seq<Event>)
    ensures Run(w, a + b) == Run(Run(w, a), b)
    decreases |a|
  {
    if a == [] {
      assert a + b == b;
    } else {
      hide Step;
      assert (a + b)[0] == a[0] && (a + b)[1..] == a[1..] + b;
      RunAppend(Step(w, a[0]), a[1..], b);
    }
  }

  /** How many critical sections a worker that is not kept is from being idle. */
  function Rank(th: Thread): nat {
    match th
    case Idle => 0
    case Recording(_, _, _) => 1
    case Drawing(_, _) => 1
    case _ => 2
  }

  /** The next critical section on the way. */
  function Homeward(th: Thread, k: nat): Event {
    match th
    case Recording(_, _, _) => Record(k, false)
    case Drawing(_, _) => Stop(k)
    case _ => Resume(k)
  }

  lemma HomewardStep(w: World, k: nat)
    requires k < |w.threads| && !w.threads[k].Idle? && !Blocked(w, w.threads[k])
    ensures var w' := Step(w, Homeward(w.threads[k], k));
            && w'.store == w.store && |w'.threads| == |w.threads|
            && (forall j :: 0 <= j < |w.threads| && j != k ==> w'.threads[j] == w.threads[j])
            && Rank(w'.threads[k]) < Rank(w.threads[k]) && !Blocked(w', w'.threads[k])
  {
    hide TableOf, Flag;
  }

  lemma {:induction false} ComeHome(w: World, k: nat) returns (es: seq<Event>)
    requires k < |w.threads| && !Blocked(w, w.threads[k])
    ensures Peaceful(es) && Run(w, es).store == w.store && Run(w, es).threads == w.threads[k := Idle]
    decreases Rank(w.threads[k])
  {
    if w.threads[k].Idle? {
      es := [];
    } else {
      hide Step, Blocked;
      HomewardStep(w, k);
      var e := Homeward(w.threads[k], k);
      var rest := ComeHome(Step(w, e), k);
      es := [e] + rest;
      RunStep(w, e, Step(w, e), rest);
      assert Run(w, es).threads == w.threads[k := Idle];
    }
  }

  /** Every worker from the k-th on is idle or kept by a barrier, all others are where they were. */
  predicate HomeFrom(w: World, w': World, k: nat) {
    && w'.store == w.store && |w'.threads| == |w.threads|
    && forall j :: 0 <= j < |w.threads| ==>
                     w'.threads[j] == if j < k || Blocked(w, w.threads[j]) then w.threads[j] else Idle
  }

  lemma {:induction false} AllComeHome(w: World, k: nat) returns (es: seq<Event>)
    requires k <= |w.threads|
    ensures Peaceful(es) && HomeFrom(w, Run(w, es), k)
    decreases |w.threads| - k
  {
    if k == |w.threads| {
      es := [];
    } else {
      hide Step, Flag, CanvasTable, Run;
      var first: seq<Event> := [];
      if Blocked(w, w.threads[k]) {
        RunNothing(w);
      } else {
        first := ComeHome(w, k);
      }
      var rest := AllComeHome(Run(w, first), k + 1);
      es := first + rest;
      RunAppend(w, first, rest);
      assert TableOf(Run(w, first)) == TableOf(w);
    }
  }

  predicate NoClose(es: seq<Event>) {
    forall i :: 0 <= i < |es| ==> !IsClose(es[i])
  }

  /**
   * Being wedged is the exact condition: unless the main thread closes a client,
   * something can still happen to the store if and only if some worker is not kept.
   */
  lemma WedgedIff(w: World)
    ensures (exists es :: NoClose(es) && Run(w, es).store != w.store) <==> !Wedged(w)
  {
    hide Run, Step;
    if Wedged(w) {
      forall es | NoClose(es) ensures Run(w, es).store == w.store {
        WedgedForGood(w, es);
      }
    } else {
      var k :| 0 <= k < |w.threads| && !Blocked(w, w.threads[k]);
      var es := ComeHome(w, k);
      var e := CreateSprite(k, "a");
      RunAppend(w, es, [e]);
      RunStep(Run(w, es), e, Step(Run(w, es), e), []);
      RunNothing(Step(Run(w, es), e));
      assert [e] + [] == [e];
      SpriteCreated(Run(w, es), k);
      assert NoClose(es + [e]);
    }
  }

  lemma SpriteCreated(w: World, k: nat)
    requires Free(w, k)
    ensures Step(w, CreateSprite(k, "a")).store != w.store
  {
    assert Step(w, CreateSprite(k, "a")).store.nextId == w.store.nextId + 1;
  }

  /** Closing the client of a user whose call keeps a worker frees that worker. */
  lemma CloseUnwedges(n: nat, past: seq<Event>, k: nat)
    ensures var w := Run(Initial(n), past);
            k < |w.threads| && Blocked(w, w.threads[k]) ==>
              var w' := Step(w, Disconnect(None, w.threads[k].user));
              k < |w'.threads| && !Blocked(w', w'.threads[k]) && !Wedged(w')
  {
    hide Initial, WorldInv, Run, NamesValid;
    AlwaysInv(n, past);
    AlwaysInv(n, []);
    NothingYet(n);
    assert NamesValid(Initial(n)) by { NoNamesYet(n); }
    NamesValidRun(Initial(n), past);
    var w := Run(Initial(n), past);
    if k < |w.threads| && Blocked(w, w.threads[k]) {
      CloseFrees(w, k);
    }
  }

  lemma NoNamesYet(n: nat)
    ensures NamesValid(Initial(n))
  {
    NothingYet(n);
  }

  lemma CloseFrees(w: World, k: nat)
    requires WorldInv(w) && NamesValid(w) && k < |w.threads| && Blocked(w, w.threads[k])
    ensures var w' := Step(w, Disconnect(None, w.threads[k].user));
            k < |w'.threads| && !Blocked(w', w'.threads[k])
  {
    hide StoreInv, Step, TableOf, ThreadsOk, Provenance, CanvasOk;
    var id, user := w.threads[k].canvas, w.threads[k].user;
    var e := Disconnect(None, user);
    var c := TableOf(w)[id];
    assert ValidUsername(c.users[FindUser(c.users, user)].name);
    TableIsOk(w);
    RecordStep(w, e, id);
    DepartWaits(c, FindUser(c.users, user), user);
    assert CanvasAfter(w, e, c) == Depart(c, FindUser(c.users, user));
    BlockedStays(w, e, k);
  }

  // ------------------------------------------------ one release after the other

  /** Every worker is idle or kept by some barrier. */
  predicate AtRest(w: World) {
    forall k :: 0 <= k < |w.threads| ==> w.threads[k].Idle? || Blocked(w, w.threads[k])
  }

  function IsIdle(): Thread -> bool { (th: Thread) => th.Idle? }

  function Idles(w: World): nat { CountIf(w.threads, IsIdle()) }

  function IsBlocked(w: World): Thread -> bool { (th: Thread) => Blocked(w, th) }

  /** What a barrier call on canvas g leaves alone: the other canvases and the threads blocked on them. */
  predicate Elsewhere(w: World, w': World, g: nat) {
    && |w'.threads| == |w.threads|
    && TableOf(w').Keys == TableOf(w).Keys
    && (forall x :: x != g && x in TableOf(w) ==> TableOf(w')[x] == TableOf(w)[x])
    && (forall k :: 0 <= k < |w.threads| ==>
          if w.threads[k].Idle? || OnCanvas(w.threads[k], g) then w'.threads[k].Idle? || OnCanvas(w'.threads[k], g)
          else w'.threads[k] == w.threads[k])
  }

  lemma CallElsewhere(w: World, e: Event)
    requires WorldInv(w) && e.Enter?
    ensures Elsewhere(w, Step(w, e), e.canvas)
  {
    hide StoreInv, TableOf, CanvasOk, ThreadsOk, Provenance;
    TableIsOk(w);
    forall x | x in TableOf(w) ensures x in TableOf(Step(w, e)) && (x != e.canvas ==> TableOf(Step(w, e))[x] == TableOf(w)[x]) {
      RecordStep(w, e, x);
    }
    forall x | x in TableOf(Step(w, e)) ensures x in TableOf(w) {
      if x !in TableOf(w) { NewRecord(w, e, x); }
    }
    CallThreads(w, e);
  }

  lemma CallThreads(w: World, e: Event)
    requires e.Enter?
    ensures |Step(w, e).threads| == |w.threads|
    ensures forall k :: 0 <= k < |w.threads| ==>
              if w.threads[k].Idle? || OnCanvas(w.threads[k], e.canvas)
              then Step(w, e).threads[k].Idle? || OnCanvas(Step(w, e).threads[k], e.canvas)
              else Step(w, e).threads[k] == w.threads[k]
  {
    hide TableOf, Found, Completes;
  }

  predicate CallsOn(es: seq<Event>, g: nat) {
    forall i :: 0 <= i < |es| ==> es[i].Enter? && es[i].canvas == g
  }

  lemma {:induction false} CallsElsewhere(w: World, es: seq<Event>, g: nat)
    requires WorldInv(w) && CallsOn(es, g)
    ensures Elsewhere(w, Run(w, es), g) && WorldInv(Run(w, es))
    decreases |es|
  {
    if es != [] {
      hide WorldInv, Step, TableOf, OnCanvas;
      CallElsewhere(w, es[0]);
      StepKeeps(w, es[0]);
      CallsElsewhere(Step(w, es[0]), es[1..], g);
    }
  }

  /** With enough idle workers the missing users of a canvas can call, the last call being a release. */
  lemma CallersRelease(w: World, g: nat) returns (es: seq<Event>, e: Event)
    requires WorldInv(w) && NamesValid(w) && g in TableOf(w) && !TableOf(w)[g].deleted
    requires 0 < Idles(w) && |Missing(TableOf(w)[g])| <= Idles(w)
    ensures CallsOn(es + [e], g) && ReleasedAfter(w, es, e, g)
  {
    hide WorldInv, TableOf, Step, Run, Missing, NamesValid, ValidUsername;
    HasUsers(w, g);
    var names := Callers(w, g);
    var ts := Picked(w.threads, IsIdle(), |names|);
    forall i | 0 <= i < |names| ensures Free(w, ts[i]) && ValidUsername(names[i]) && HasUser(TableOf(w)[g].users, names[i]) {
      assert IsIdle()(w.threads[ts[i]]) && names[i] in names;
    }
    assert Manned(w, g, ts, names);
    MissingCallsRelease(w, g, ts, names);
    var calls := Calls(g, ts, names);
    es, e := calls[..|calls| - 1], calls[|calls| - 1];
    assert CallsOn(calls, g) && es + [e] == calls;
  }

  /** After a release on g, and once the freed workers are back, exactly the workers kept elsewhere are still kept. */
  predicate Cleared(w: World, w': World, g: nat) {
    && |w'.threads| == |w.threads|
    && TableOf(w').Keys == TableOf(w).Keys
    && (forall x :: x != g && x in TableOf(w) ==> TableOf(w')[x] == TableOf(w)[x])
    && forall k :: 0 <= k < |w.threads| ==>
                     if Blocked(w, w.threads[k]) && w.threads[k].canvas != g
                     then w'.threads[k] == w.threads[k] && Blocked(w', w'.threads[k])
                     else w'.threads[k].Idle?
  }

  lemma Clear(w: World, g: nat) returns (es: seq<Event>)
    requires WorldInv(w) && NamesValid(w) && AtRest(w) && g in TableOf(w) && !TableOf(w)[g].deleted
    requires 0 < Idles(w) && |Missing(TableOf(w)[g])| <= Idles(w)
    ensures Peaceful(es) && Cleared(w, Run(w, es), g)
  {
    hide WorldInv, TableOf, Step, Run, NamesValid, ReleasesBy, Missing, Flag;
    var calls, e := CallersRelease(w, g);
    var w1 := Run(w, calls + [e]);
    CallsPeaceful(calls, e, g);
    CallsElsewhere(w, calls, g);
    CallsElsewhere(w, calls + [e], g);
    RunAppend(w, calls, [e]);
    RunStep(Run(w, calls), e, Step(Run(w, calls), e), []);
    RunNothing(Step(Run(w, calls), e));
    assert [e] + [] == [e];
    forall user ensures !Flag(TableOf(w1), g, user) {
      ReleaseClearsFlags(Run(w, calls), e, g, user);
    }
    var home := AllComeHome(w1, 0);
    RunAppend(w, calls + [e], home);
    es := calls + [e] + home;
    ClearedAtHome(w, w1, Run(w, es), g);
  }

  lemma ClearedAtHome(w: World, w1: World, w2: World, g: nat)
    requires WorldInv(w) && AtRest(w) && Elsewhere(w, w1, g) && HomeFrom(w1, w2, 0)
    requires forall user :: !Flag(TableOf(w1), g, user)
    ensures Cleared(w, w2, g)
  {
    hide WorldInv, CanvasTable, UserWaits;
    assert TableOf(w2) == TableOf(w1);
    forall k | 0 <= k < |w.threads|
      ensures if Blocked(w, w.threads[k]) && w.threads[k].canvas != g
              then w2.threads[k] == w.threads[k] && Blocked(w2, w2.threads[k])
              else w2.threads[k].Idle? {
      assert w.threads[k].Idle? || Blocked(w, w.threads[k]);
    }
  }

  /** A jam that shows after a release elsewhere was there before. */
  lemma JamWasThere(w: World, w': World, g: nat, hs: set<nat>)
    requires Cleared(w, w', g) && Jammed(w', hs)
    ensures Jammed(w, hs - {g})
  {
    hide TableOf, Missing, Flag;
    forall k | 0 <= k < |w.threads| && !HeldAt(TableOf(w), hs - {g}, w.threads[k])
      ensures !HeldAt(TableOf(w'), hs, w'.threads[k]) {
    }
    CountFewer(w'.threads, IsLoose(TableOf(w'), hs), w.threads, IsLoose(TableOf(w), hs - {g}), -1);
  }

  lemma FewerBlocked(w: World, w': World, g: nat, k: nat)
    requires Cleared(w, w', g) && k < |w.threads| && Blocked(w, w.threads[k]) && w.threads[k].canvas == g
    ensures CountIf(w'.threads, IsBlocked(w')) < CountIf(w.threads, IsBlocked(w))
  {
    hide TableOf, Flag;
    CountFewer(w.threads, IsBlocked(w), w'.threads, IsBlocked(w'), k);
  }

  /** The canvases that keep workers while more users are missing than workers idle, and id. */
  function Heavy(w: World, id: nat): set<nat>
    requires id in TableOf(w)
  {
    set k | 0 <= k < |w.threads| && Blocked(w, w.threads[k]) && |Missing(TableOf(w)[w.threads[k].canvas])| > Idles(w) :: w.threads[k].canvas
  }

  /** If id misses too many and every kept worker is at such a canvas, these canvases are jammed. */
  lemma HeavyJam(w: World, id: nat)
    requires AtRest(w) && id in TableOf(w) && |Missing(TableOf(w)[id])| > Idles(w)
    requires forall k :: 0 <= k < |w.threads| && Blocked(w, w.threads[k]) ==> |Missing(TableOf(w)[w.threads[k].canvas])| > Idles(w)
    ensures Jammed(w, Heavy(w, id) + {id})
  {
    hide TableOf, Missing;
    var hs := Heavy(w, id) + {id};
    forall k | 0 <= k < |w.threads| && !w.threads[k].Idle? ensures HeldAt(TableOf(w), hs, w.threads[k]) {
      assert Blocked(w, w.threads[k]) && w.threads[k].canvas in hs;
    }
    CountFewer(w.threads, IsIdle(), w.threads, IsLoose(TableOf(w), hs), -1);
  }

  /**
   * Where no jam holds the canvas back and some worker is idle, it can be released:
   * a canvas with few enough missing users is released first, the workers freed
   * there come home, and so on.
   */
  lemma {:induction false} ReleaseInOrder(w: World, id: nat) returns (es: seq<Event>, e: Event)
    requires WorldInv(w) && NamesValid(w) && AtRest(w) && id in TableOf(w) && !TableOf(w)[id].deleted
    requires 0 < Idles(w) && forall hs :: id in hs ==> !Jammed(w, hs)
    ensures Peaceful(es) && ReleasedAfter(w, es, e, id)
    decreases CountIf(w.threads, IsBlocked(w))
  {
    hide WorldInv, TableOf, Step, Run, NamesValid, ReleasesBy, Missing, Jammed, Cleared;
    if |Missing(TableOf(w)[id])| <= Idles(w) {
      es, e := CallersRelease(w, id);
      CallsPeaceful(es, e, id);
    } else if k :| 0 <= k < |w.threads| && Blocked(w, w.threads[k]) && |Missing(TableOf(w)[w.threads[k].canvas])| <= Idles(w) {
      var g := w.threads[k].canvas;
      FlaggedLives(w, g, w.threads[k].user);
      var first := Clear(w, g);
      var w2 := Run(w, first);
      RunKeeps(w, first);
      NamesValidRun(w, first);
      NextStart(w, w2, g, k, id);
      forall hs | id in hs ensures !Jammed(w2, hs) {
        if Jammed(w2, hs) { JamBefore(w, w2, g, id, hs); }
      }
      var rest;
      rest, e := ReleaseInOrder(w2, id);
      es := first + rest;
      RunAppend(w, first, rest);
    } else {
      HeavyJam(w, id);
      assert false;
    }
  }

  lemma CallsPeaceful(es: seq<Event>, e: Event, g: nat)
    requires CallsOn(es + [e], g)
    ensures Peaceful(es) && CallsOn(es, g) && Peaceful(es + [e])
  {
    forall i | 0 <= i < |es| ensures es[i].Enter? && es[i].canvas == g {
      assert (es + [e])[i] == es[i];
    }
  }

  /** A canvas where a flag is up is not deleted. */
  lemma FlaggedLives(w: World, g: nat, user: string)
    requires WorldInv(w) && Flag(TableOf(w), g, user)
    ensures g in TableOf(w) && !TableOf(w)[g].deleted
  {
    hide TableOf, StoreInv, ThreadsOk, Provenance;
    TableIsOk(w);
  }

  lemma NextStart(w: World, w2: World, g: nat, k: nat, id: nat)
    requires Cleared(w, w2, g) && k < |w.threads| && Blocked(w, w.threads[k]) && w.threads[k].canvas == g
    requires id in TableOf(w) && !TableOf(w)[id].deleted && id != g
    ensures AtRest(w2) && 0 < Idles(w2) && id in TableOf(w2) && !TableOf(w2)[id].deleted
    ensures CountIf(w2.threads, IsBlocked(w2)) < CountIf(w.threads, IsBlocked(w))
  {
    hide TableOf, Flag;
    FewerBlocked(w, w2, g, k);
    CountZero(w2.threads, IsIdle());
    assert IsIdle()(w2.threads[k]);
  }

  lemma JamBefore(w: World, w2: World, g: nat, id: nat, hs: set<nat>)
    requires Cleared(w, w2, g) && Jammed(w2, hs) && id in hs && id != g
    ensures exists earlier :: id in earlier && Jammed(w, earlier)
  {
    hide TableOf, Missing, Flag, Loose;
    JamWasThere(w, w2, g, hs);
    assert id in hs - {g};
  }

  lemma SameJam(w: World, w': World, hs: set<nat>)
    requires HomeFrom(w, w', 0)
    ensures Jammed(w', hs) <==> Jammed(w, hs)
  {
    hide CanvasTable, UserWaits, Missing;
    assert TableOf(w') == TableOf(w);
    CountFewer(w.threads, IsLoose(TableOf(w), hs), w'.threads, IsLoose(TableOf(w'), hs), -1);
    CountFewer(w'.threads, IsLoose(TableOf(w'), hs), w.threads, IsLoose(TableOf(w), hs), -1);
  }

  lemma HomeAtRest(w: World, w': World)
    requires HomeFrom(w, w', 0)
    ensures AtRest(w') && TableOf(w') == TableOf(w) && (!Wedged(w) ==> 0 < Idles(w'))
  {
    hide CanvasTable, UserWaits;
    if k :| 0 <= k < |w.threads| && !Blocked(w, w.threads[k]) {
      CountZero(w'.threads, IsIdle());
      assert IsIdle()(w'.threads[k]);
    }
  }

  lemma NotReleasable(w: World, es: seq<Event>, e: Event, id: nat)
    requires WorldInv(w) && id in TableOf(w) && Peaceful(es) && ReleasedAfter(w, es, e, id)
    ensures !TableOf(w)[id].deleted && !Wedged(w) && forall hs :: id in hs ==> !Jammed(w, hs)
  {
    hide WorldInv, TableOf, Missing, Run, HeldAt, Completes, Jammed, Wedged;
    DeletedForGood(w, es, id);
    if Wedged(w) {
      NoCloseIn(es);
      WedgedForGood(w, es);
      WedgedNoCall(Run(w, es), e);
    }
    if hs :| id in hs && Jammed(w, hs) {
      JammedForGood(w, hs, es, 0);
      JammedNoRelease(Run(w, es), hs, e, id);
    }
  }

  lemma Releasable(w: World, id: nat)
    requires WorldInv(w) && NamesValid(w) && id in TableOf(w)
    requires !TableOf(w)[id].deleted && !Wedged(w) && forall hs :: id in hs ==> !Jammed(w, hs)
    ensures exists es, e :: Peaceful(es) && ReleasedAfter(w, es, e, id)
  {
    hide WorldInv, TableOf, Run, NamesValid, Jammed, Wedged, ReleasesBy;
    var home := AllComeHome(w, 0);
    var w' := Run(w, home);
    RunKeeps(w, home);
    NamesValidRun(w, home);
    HomeAtRest(w, w');
    forall hs | id in hs ensures !Jammed(w', hs) {
      SameJam(w, w', hs);
    }
    var es, e := ReleaseInOrder(w', id);
    RunAppend(w, home, es);
    assert Peaceful(home + es) && ReleasedAfter(w, home + es, e, id);
  }

  /**
   * When a canvas can be released without a departure, exactly: in any reachable
   * state some run does it if and only if the canvas still exists, some worker is
   * not kept, and the canvas is in no jam, that is in no set of canvases each
   * missing more users than there are workers not kept at the set.
   */
  lemma ReleasableIff(n: nat, past: seq<Event>, id: nat)
    requires id in TableOf(Run(Initial(n), past))
    ensures var w := Run(Initial(n), past);
            (exists es, e :: Peaceful(es) && ReleasedAfter(w, es, e, id))
            <==> !TableOf(w)[id].deleted && !Wedged(w) && forall hs :: id in hs ==> !Jammed(w, hs)
  {
    hide Initial, WorldInv, Run, TableOf, Jammed, Wedged, ReleasedAfter, Peaceful, NamesValid;
    var w := Run(Initial(n), past);
    AlwaysInv(n, past);
    AlwaysInv(n, []);
    NothingYet(n);
    NoNamesYet(n);
    NamesValidRun(Initial(n), past);
    if es, e :| Peaceful(es) && ReleasedAfter(w, es, e, id) {
      NotReleasable(w, es, e, id);
    }
    if !TableOf(w)[id].deleted && !Wedged(w) && forall hs :: id in hs ==> !Jammed(w, hs) {
      Releasable(w, id);
    }
  }

  /** For instance with one worker: "a" waits for "b" on canvas 1, and no request can ever be served again. */
  lemma MeetingWedges(es: seq<Event>)
    requires forall i :: 0 <= i < |es| ==> !IsClose(es[i])
    ensures Wedged(Run(Initial(1), MEETING + es))
  {
    hide Step, Run, Initial, Wedged;
    MeetingRun(es);
    MetIsWedged();
    WedgedForGood(Met(), es);
  }

  lemma MetIsWedged()
    ensures Wedged(Met())
  {
    StrandFind();
    assert CanvasTable(Met().store.canvases) == map[1 := Met().store.canvases[0]];
  }
}
