/** Every step of the worker pool keeps its invariant. */
module PoolInvariant {
  import opened Sequences
  import opened Schedule
  import opened ReplyRing
  import opened PoolSystem
  import Fairness

  predicate Of(w: Worker, c: ClientId) {
    (w.Busy? || w.Replying?) && w.client == c
  }

  /** A client is not concerned by changes to workers that serve others. */
  lemma OthersUnmoved(c: ClientId, cl: Client, items: seq<Request>, ws: seq<Worker>, ws': seq<Worker>)
    requires ClientOk(c, cl, items, ws) && |ws| == |ws'|
    requires forall i :: 0 <= i < |ws| ==> ws[i] == ws'[i] || (!Of(ws[i], c) && !Of(ws'[i], c))
    ensures ClientOk(c, cl, items, ws')
  {
    forall k: nat ensures Places(c, cl, items, ws', k) == One(k < |cl.accepted|) {
      CountSame(ws, ws', Carries(c, k));
      assert Places(c, cl, items, ws, k) == One(k < |cl.accepted|);
    }
  }

  lemma CountIdle(ws: seq<Worker>, w: nat, x: Worker)
    requires w < |ws|
    ensures CountIf(ws[w := x], IsReady()) == CountIf(ws, IsReady()) - One(ws[w].Ready?) + One(x.Ready?)
    ensures CountIf(ws[w := x], IsAsleep()) == CountIf(ws, IsAsleep()) - One(ws[w].Asleep?) + One(x.Asleep?)
    ensures ws[w].Ready? ==> CountIf(ws, IsReady()) > 0
    ensures ws[w].Asleep? ==> CountIf(ws, IsAsleep()) > 0
  {
    CountUpdate(ws, w, x, IsReady());
    CountUpdate(ws, w, x, IsAsleep());
  }

  // -------------------------------------------------------------- accepting

  lemma AcceptKeeps(s: Sys, c: ClientId)
    requires SysInv(s) && c !in s.clients
    ensures SysInv(Step(s, Accept(c)))
  {
    hide ClientOk, Inv, ItemsOf, Registered, Position;
    var s' := Step(s, Accept(c));
    RegisterInv(s.sched, c);
    forall x ensures Registered(s'.sched, x) <==> Registered(s.sched, x) || x == c
      ensures ItemsOf(s'.sched, x) == ItemsOf(s.sched, x) {
      Fairness.ArriveItems(s.sched, x, c);
    }
    assert ItemsOf(s.sched, c) == [] by { Fairness.DistanceAbsent(s.sched, c); }
    assert s'.sched.pending == s.sched.pending;
    NewClientOk(c, s.workers);
  }

  lemma NewClientOk(c: ClientId, ws: seq<Worker>)
    requires forall w :: 0 <= w < |ws| ==> !Of(ws[w], c)
    ensures ClientOk(c, NEW_CLIENT, [], ws)
  {
    forall k: nat ensures Places(c, NEW_CLIENT, [], ws, k) == 0 {
      CountZero(ws, Carries(c, k));
    }
  }

  // ------------------------------------------------------------- submitting

  lemma {:induction false} SomeoneAsleep(ws: seq<Worker>)
    ensures CountIf(ws, IsAsleep()) > 0 <==> exists i :: 0 <= i < |ws| && ws[i].Asleep?
  {
    CountZero(ws, IsAsleep());
  }

  /** Waking sleepers turns them into idle workers one for one. */
  lemma {:induction false} RouseCounts(ws: seq<Worker>, ws': seq<Worker>)
    requires |ws| == |ws'| && forall i :: 0 <= i < |ws| ==> ws'[i] == ws[i] || (ws[i].Asleep? && ws'[i].Ready?)
    ensures CountIf(ws', IsReady()) + CountIf(ws', IsAsleep()) == CountIf(ws, IsReady()) + CountIf(ws, IsAsleep())
    ensures CountIf(ws', IsReady()) >= CountIf(ws, IsReady())
    ensures (exists i :: 0 <= i < |ws| && ws'[i] != ws[i]) ==> CountIf(ws', IsReady()) > CountIf(ws, IsReady())
  {
    if ws != [] {
      forall i | 0 <= i < |ws| - 1 ensures ws'[1..][i] == ws[1..][i] || (ws[1..][i].Asleep? && ws'[1..][i].Ready?) {
        assert ws[1..][i] == ws[i + 1] && ws'[1..][i] == ws'[i + 1];
      }
      RouseCounts(ws[1..], ws'[1..]);
      if i :| 1 <= i < |ws| && ws'[i] != ws[i] {
        assert ws[1..][i - 1] == ws[i] && ws'[1..][i - 1] == ws'[i];
      }
    }
  }

  lemma AppendedOk(c: ClientId, cl: Client, items: seq<Request>, ws: seq<Worker>, line: string)
    requires ClientOk(c, cl, items, ws)
    ensures ClientOk(c, cl.(accepted := cl.accepted + [line]), items + [Request(|cl.accepted|, line)], ws)
  {
    var n := |cl.accepted|;
    var cl', items' := cl.(accepted := cl.accepted + [line]), items + [Request(n, line)];
    forall k: nat ensures Places(c, cl', items', ws, k) == One(k < n + 1) {
      CountAppend(items, Request(n, line), Numbered(k));
      assert Places(c, cl, items, ws, k) == One(k < n);
    }
    forall k: nat | k < n + 1 ensures k in cl'.calls || k in cl'.removed || exists i :: 0 <= i < |items'| && items'[i].seqNum == k {
      if k == n {
        assert items'[|items|].seqNum == n;
      } else if !(k in cl.calls || k in cl.removed) {
        var i :| 0 <= i < |items| && items[i].seqNum == k;
        assert items'[i] == items[i];
      }
    }
    assert QueueOk(cl', items');
  }

  lemma SubmitKeeps(s: Sys, c: ClientId, line: string, woken: set<nat>)
    requires SysInv(s) && CanSubmit(s, c) && ValidSignal(s.workers, woken)
    ensures SysInv(SubmitStep(s, c, line, woken))
  {
    hide ClientOk, Inv, ItemsOf, Registered, Position;
    var s', cl := SubmitStep(s, c, line, woken), s.clients[c];
    var r := Request(|cl.accepted|, line);
    EnqueueInv(s.sched, c, r);
    PositionProps(s.sched.queues, c);
    forall x ensures Registered(s'.sched, x) <==> Registered(s.sched, x)
      ensures ItemsOf(s'.sched, x) == if x == c then ItemsOf(s.sched, c) + [r] else ItemsOf(s.sched, x) {
      Fairness.PutStep(s.sched, x, c, r);
    }
    RouseCounts(s.workers, s'.workers);
    SomeoneAsleep(s.workers);
    SomeoneAsleep(s'.workers);
    forall x | x in s'.clients ensures ClientOk(x, s'.clients[x], ItemsOf(s'.sched, x), s'.workers) {
      OthersUnmoved(x, s.clients[x], ItemsOf(s.sched, x), s.workers, s'.workers);
      if x == c {
        AppendedOk(c, cl, ItemsOf(s.sched, c), s'.workers, line);
      }
    }
  }

  // ------------------------------------------------------------- taking work

  lemma TakenPlaced(c: ClientId, cl: Client, items: seq<Request>, ws: seq<Worker>, w: nat, calls: seq<nat>)
    requires Placed(c, cl, items, ws) && items != [] && w < |ws| && ws[w].Ready?
    ensures Placed(c, cl.(calls := calls), items[1..], ws[w := Busy(c, items[0])])
    ensures items[0].seqNum !in cl.removed
  {
    var r := items[0];
    assert Places(c, cl, items, ws, r.seqNum) == One(r.seqNum < |cl.accepted|);
    var cl', items', ws' := cl.(calls := calls), items[1..], ws[w := Busy(c, r)];
    forall k: nat ensures Places(c, cl', items', ws', k) == One(k < |cl.accepted|) {
      CountUpdate(ws, w, Busy(c, r), Carries(c, k));
      assert Places(c, cl, items, ws, k) == One(k < |cl.accepted|);
    }
  }

  lemma TakenCalls(cl: Client, items: seq<Request>)
    requires QueueOk(cl, items) && CallsOk(cl, items) && items != [] && items[0].seqNum !in cl.removed
    ensures QueueOk(cl.(calls := cl.calls + [items[0].seqNum]), items[1..])
    ensures CallsOk(cl.(calls := cl.calls + [items[0].seqNum]), items[1..])
  {
    var cl', items' := cl.(calls := cl.calls + [items[0].seqNum]), items[1..];
    forall i, j | 0 <= i < j < |cl'.calls| ensures cl'.calls[i] < cl'.calls[j] {
      assert cl.calls[i] in cl.calls;
    }
    assert forall i :: 0 <= i < |items'| ==> items'[i] == items[i + 1];
    forall k: nat | k < |cl.accepted| ensures k in cl'.calls || k in cl'.removed || exists i :: 0 <= i < |items'| && items'[i].seqNum == k {
      if !(k in cl.calls || k in cl.removed) {
        var i :| 0 <= i < |items| && items[i].seqNum == k;
        if i > 0 { assert items'[i - 1] == items[i]; }
      }
    }
  }

  lemma TakenOk(c: ClientId, cl: Client, items: seq<Request>, ws: seq<Worker>, w: nat)
    requires ClientOk(c, cl, items, ws) && items != [] && w < |ws| && ws[w].Ready?
    ensures ClientOk(c, cl.(calls := cl.calls + [items[0].seqNum]), items[1..], ws[w := Busy(c, items[0])])
  {
    hide Placed, QueueOk, CallsOk, OutputInv, Wrote;
    var r := items[0];
    TakenPlaced(c, cl, items, ws, w, cl.calls + [r.seqNum]);
    TakenCalls(cl, items);
    TakenFlight(c, cl, items, ws, w);
  }

  lemma TakenFlight(c: ClientId, cl: Client, items: seq<Request>, ws: seq<Worker>, w: nat)
    requires FlightOk(c, cl, ws) && QueueOk(cl, items) && CallsOk(cl, items) && items != [] && w < |ws|
    ensures FlightOk(c, cl.(calls := cl.calls + [items[0].seqNum]), ws[w := Busy(c, items[0])])
  {
    var n := items[0].seqNum;
    assert n !in cl.calls;
    assert n !in cl.replies;
  }

  lemma LockIdleKeeps(s: Sys, w: nat)
    requires SysInv(s) && w < |s.workers| && s.workers[w].Ready? && s.sched.pending == 0
    ensures SysInv(LockStep(s, w))
  {
    hide ClientOk, Inv, ItemsOf, Registered, Position;
    var s' := LockStep(s, w);
    CountIdle(s.workers, w, s'.workers[w]);
    forall c | c in s.clients ensures ClientOk(c, s.clients[c], ItemsOf(s.sched, c), s'.workers) {
      OthersUnmoved(c, s.clients[c], ItemsOf(s.sched, c), s.workers, s'.workers);
    }
  }

  /** A worker that finds work pending always gets a request. */
  lemma LockTakesKeeps(s: Sys, w: nat)
    requires SysInv(s) && w < |s.workers| && s.workers[w].Ready? && s.sched.pending > 0
    ensures SysInv(LockStep(s, w)) && LockStep(s, w).workers[w].Busy?
  {
    hide ClientOk, Inv, ItemsOf, Registered, Position, Dequeue;
    var s' := LockStep(s, w);
    Fairness.ServedIsFirst(s.sched);
    DequeueInv(s.sched);
    var Job(c, r) := Dequeue(s.sched).0.value;
    assert s'.sched == Dequeue(s.sched).1;
    assert s'.sched.pending == s.sched.pending - 1 by { DequeuePending(s.sched); }
    forall x ensures Registered(s'.sched, x) <==> Registered(s.sched, x)
      ensures ItemsOf(s'.sched, x) == if x == c then ItemsOf(s.sched, c)[1..] else ItemsOf(s.sched, x) {
      Fairness.TakeItems(s.sched, x);
    }
    CountIdle(s.workers, w, Busy(c, r));
    forall x | x in s'.clients ensures ClientOk(x, s'.clients[x], ItemsOf(s'.sched, x), s'.workers) {
      if x == c {
        TakenOk(c, s.clients[c], ItemsOf(s.sched, c), s.workers, w);
      } else {
        OthersUnmoved(x, s.clients[x], ItemsOf(s.sched, x), s.workers, s'.workers);
      }
    }
  }

  lemma WakeKeeps(s: Sys, w: nat)
    requires SysInv(s) && w < |s.workers| && s.workers[w].Asleep?
    ensures SysInv(s.(workers := s.workers[w := Ready]))
  {
    hide ClientOk, Inv, ItemsOf, Registered, Position;
    CountIdle(s.workers, w, Ready);
    var ws' := s.workers[w := Ready];
    forall c | c in s.clients ensures ClientOk(c, s.clients[c], ItemsOf(s.sched, c), ws') {
      OthersUnmoved(c, s.clients[c], ItemsOf(s.sched, c), s.workers, ws');
    }
  }

  // -------------------------------------------------------------- answering

  lemma WroteMore(o: Output, table: map<nat, string>, k: nat, reply: string)
    requires Wrote(o, table) && k !in table
    ensures Wrote(o, table[k := reply])
  {
    StreamAgrees(table, table[k := reply], o.sent);
    if o.pipe.written != Stream(table, o.sent) {
      var j :| 0 <= j < |table[o.sent]| && o.pipe.written == Stream(table, o.sent) + table[o.sent][..j];
      assert table[k := reply][o.sent] == table[o.sent];
      assert o.pipe.written == Stream(table[k := reply], o.sent) + table[k := reply][o.sent][..j];
    }
  }

  lemma AnsweredOk(c: ClientId, cl: Client, items: seq<Request>, ws: seq<Worker>, w: nat, reply: string)
    requires ClientOk(c, cl, items, ws) && w < |ws| && ws[w].Busy? && ws[w].client == c
    ensures var k := ws[w].request.seqNum;
            ClientOk(c, cl.(replies := cl.replies[k := reply]), items, ws[w := Replying(c, k, reply)])
  {
    var k := ws[w].request.seqNum;
    var cl', ws' := cl.(replies := cl.replies[k := reply]), ws[w := Replying(c, k, reply)];
    WroteMore(cl.out, cl.replies, k, reply);
    forall j: nat ensures Places(c, cl', items, ws', j) == One(j < |cl.accepted|) {
      CountUpdate(ws, w, Replying(c, k, reply), Carries(c, j));
      assert Places(c, cl, items, ws, j) == One(j < |cl.accepted|);
    }
    assert Places(c, cl, items, ws, k) == One(k < |cl.accepted|);
    forall v | 0 <= v < |ws| && v != w && ws[v].Busy? && ws[v].client == c ensures ws[v].request.seqNum != k {
      if ws[v].request.seqNum == k {
        TwoCarriers(ws, v, w, Carries(c, k));
      }
    }
  }

  lemma {:induction false} TwoCarriers(ws: seq<Worker>, v: nat, w: nat, p: Worker -> bool)
    requires v < |ws| && w < |ws| && v != w && p(ws[v]) && p(ws[w])
    ensures CountIf(ws, p) >= 2
  {
    var (a, b) := if v < w then (v, w) else (w, v);
    if a == 0 {
      assert ws[1..][b - 1] == ws[b];
      CountZero(ws[1..], p);
    } else {
      assert ws[1..][a - 1] == ws[a] && ws[1..][b - 1] == ws[b];
      TwoCarriers(ws[1..], a - 1, b - 1, p);
    }
  }

  lemma FinishKeeps(s: Sys, w: nat, result: Option<string>)
    requires SysInv(s) && w < |s.workers| && s.workers[w].Busy? && s.workers[w].client in s.clients
    ensures SysInv(FinishStep(s, w, result))
  {
    hide ClientOk, Inv, ItemsOf, Registered, Position;
    var s', c := FinishStep(s, w, result), s.workers[w].client;
    CountIdle(s.workers, w, s'.workers[w]);
    forall x | x in s'.clients ensures ClientOk(x, s'.clients[x], ItemsOf(s'.sched, x), s'.workers) {
      if x == c {
        AnsweredOk(c, s.clients[c], ItemsOf(s.sched, c), s.workers, w, s'.workers[w].reply);
      } else {
        OthersUnmoved(x, s.clients[x], ItemsOf(s.sched, x), s.workers, s'.workers);
      }
    }
  }

  // -------------------------------------------------------------- delivering

  /** What a delivery does to the number delivered and to every other one. */
  lemma DeliverEffect(o: Output, table: map<nat, string>, k: nat, reply: string)
    requires OutputInv(o) && Wrote(o, table) && k in table && table[k] == reply
    ensures var d := ReplyRing.Deliver(o, k, reply);
            && OutputInv(d) && Wrote(d, table) && d.open == o.open
            && (o.disconnected ==> d == o)
            && (Accepts(o, k) ==> forall j: nat :: One(j in d.buffered) + One(j < d.sent) + One(j in Lost(o, d, k)) ==
                                                   One(j in o.buffered) + One(j < o.sent) + One(j == k))
            && (!Accepts(o, k) ==> d == o)
  {
    if Accepts(o, k) {
      var o' := o.(buffered := o.buffered[k := reply]);
      DrainMoves(o');
      DrainWrites(o', table);
      var d := Drain(o');
      forall j: nat ensures One(j in d.buffered) + One(j < d.sent) + One(j in Lost(o, d, k)) ==
                            One(j in o.buffered) + One(j < o.sent) + One(j == k) {
        assert j in o'.buffered <==> j in o.buffered || j == k;
      }
    }
  }

  lemma WroteAnyScript(o: Output, table: map<nat, string>, script: seq<Answer>)
    requires OutputInv(o) && Wrote(o, table)
    ensures var o' := o.(pipe := o.pipe.(script := script));
            OutputInv(o') && Wrote(o', table)
  {
  }

  lemma DeliveredOk(c: ClientId, cl: Client, items: seq<Request>, ws: seq<Worker>, w: nat, script: seq<Answer>)
    requires ClientOk(c, cl, items, ws) && w < |ws| && ws[w].Replying? && ws[w].client == c
    ensures var before := cl.out.(pipe := cl.out.pipe.(script := script));
            var after := ReplyRing.Deliver(before, ws[w].seqNum, ws[w].reply);
            && ClientOk(c, cl.(out := after, discarded := cl.discarded + Lost(before, after, ws[w].seqNum)), items, ws[w := Ready])
            && after.open == cl.out.open && (cl.out.disconnected ==> after.disconnected)
  {
    var Replying(_, k, reply) := ws[w];
    var before := cl.out.(pipe := cl.out.pipe.(script := script));
    WroteAnyScript(cl.out, cl.replies, script);
    DeliverEffect(before, cl.replies, k, reply);
    var after := ReplyRing.Deliver(before, k, reply);
    var lost := Lost(before, after, k);
    var cl', ws' := cl.(out := after, discarded := cl.discarded + lost), ws[w := Ready];
    forall j: nat ensures Places(c, cl', items, ws', j) == One(j < |cl.accepted|) {
      CountUpdate(ws, w, Ready, Carries(c, j));
      assert Places(c, cl, items, ws, j) == One(j < |cl.accepted|);
      assert One(j in cl'.discarded) <= One(j in cl.discarded) + One(j in lost);
    }
  }

  lemma DeliverKeeps(s: Sys, w: nat, script: seq<Answer>)
    requires SysInv(s) && w < |s.workers| && s.workers[w].Replying? && s.workers[w].client in s.clients
    ensures SysInv(DeliverStep(s, w, script))
  {
    hide ClientOk, Inv, ItemsOf, Registered, Position;
    var s', c := DeliverStep(s, w, script), s.workers[w].client;
    CountIdle(s.workers, w, Ready);
    DeliveredOk(c, s.clients[c], ItemsOf(s.sched, c), s.workers, w, script);
    forall x | x in s'.clients ensures ClientOk(x, s'.clients[x], ItemsOf(s'.sched, x), s'.workers) {
      if x != c {
        OthersUnmoved(x, s.clients[x], ItemsOf(s.sched, x), s.workers, s'.workers);
      }
    }
  }

  // ----------------------------------------------------------------- closing

  lemma MarkedOk(c: ClientId, cl: Client, items: seq<Request>, ws: seq<Worker>)
    requires ClientOk(c, cl, items, ws)
    ensures ClientOk(c, cl.(phase := Marked, out := cl.out.(disconnected := true)), items, ws)
  {
    var cl' := cl.(phase := Marked, out := cl.out.(disconnected := true));
    forall j: nat ensures Places(c, cl', items, ws, j) == One(j < |cl.accepted|) {
      assert Places(c, cl, items, ws, j) == One(j < |cl.accepted|);
    }
  }

  lemma {:induction false} IncreasingCount(items: seq<Request>, k: nat)
    requires forall i, j :: 0 <= i < j < |items| ==> items[i].seqNum < items[j].seqNum
    ensures CountIf(items, Numbered(k)) == One(k in set r | r in items :: r.seqNum)
  {
    if items != [] {
      IncreasingCount(items[1..], k);
      assert forall r :: r in items <==> r == items[0] || r in items[1..];
      forall r | r in items[1..] ensures r.seqNum > items[0].seqNum {
        var i :| 0 <= i < |items| - 1 && items[1..][i] == r;
        assert items[i + 1] == r;
      }
    }
  }

  lemma RemovedOk(c: ClientId, cl: Client, items: seq<Request>, ws: seq<Worker>)
    requires ClientOk(c, cl, items, ws)
    ensures ClientOk(c, cl.(phase := Removed, removed := cl.removed + set r | r in items :: r.seqNum), [], ws)
  {
    var gone := set r | r in items :: r.seqNum;
    var cl' := cl.(phase := Removed, removed := cl.removed + gone);
    forall k: nat ensures Places(c, cl', [], ws, k) == One(k < |cl.accepted|) {
      IncreasingCount(items, k);
      assert Places(c, cl, items, ws, k) == One(k < |cl.accepted|);
    }
    forall k: nat | k < |cl.accepted| ensures k in cl'.calls || k in cl'.removed {
      if !(k in cl.calls || k in cl.removed) {
        var i :| 0 <= i < |items| && items[i].seqNum == k;
        assert items[i] in items;
      }
    }
    forall r | r in items ensures r.seqNum !in cl.calls {
      var i :| 0 <= i < |items| && items[i] == r;
    }
  }

  lemma RemoveKeeps(s: Sys, c: ClientId)
    requires SysInv(s) && c in s.clients && s.clients[c].phase.Marked?
    ensures SysInv(RemoveStep(s, c))
  {
    hide ClientOk, Inv, ItemsOf, Registered, Position;
    var s' := RemoveStep(s, c);
    RemoveInv(s.sched, c);
    forall x ensures Registered(s'.sched, x) <==> Registered(s.sched, x) && x != c
      ensures ItemsOf(s'.sched, x) == if x == c then [] else ItemsOf(s.sched, x) {
      Fairness.LeaveItems(s.sched, x, c);
    }
    forall x | x in s'.clients ensures ClientOk(x, s'.clients[x], ItemsOf(s'.sched, x), s'.workers) {
      if x == c { RemovedOk(c, s.clients[c], ItemsOf(s.sched, c), s.workers); }
    }
  }

  lemma ClosePhasesOk(c: ClientId, cl: Client, items: seq<Request>, ws: seq<Worker>)
    requires ClientOk(c, cl, items, ws)
    ensures ClientOk(c, cl.(phase := Closing), items, ws)
    ensures ClientOk(c, cl.(phase := Closed, out := cl.out.(open := false)), items, ws)
  {
    var a, b := cl.(phase := Closing), cl.(phase := Closed, out := cl.out.(open := false));
    forall j: nat ensures Places(c, a, items, ws, j) == One(j < |cl.accepted|) && Places(c, b, items, ws, j) == One(j < |cl.accepted|) {
      assert Places(c, cl, items, ws, j) == One(j < |cl.accepted|);
    }
  }

  lemma CloseCheckKeeps(s: Sys, c: ClientId)
    requires SysInv(s) && c in s.clients
    ensures SysInv(Step(s, CloseCheck(c)))
  {
    hide ClientOk, Inv, ItemsOf, Registered, Position;
    ClosePhasesOk(c, s.clients[c], ItemsOf(s.sched, c), s.workers);
  }

  lemma CloseMarkKeeps(s: Sys, c: ClientId)
    requires SysInv(s) && c in s.clients
    ensures SysInv(Step(s, CloseMark(c)))
  {
    hide ClientOk, Inv, ItemsOf, Registered, Position;
    MarkedOk(c, s.clients[c], ItemsOf(s.sched, c), s.workers);
  }

  lemma CloseFdsKeeps(s: Sys, c: ClientId)
    requires SysInv(s) && c in s.clients
    ensures SysInv(Step(s, CloseFds(c)))
  {
    hide ClientOk, Inv, ItemsOf, Registered, Position;
    ClosePhasesOk(c, s.clients[c], ItemsOf(s.sched, c), s.workers);
  }

  lemma ShutdownKeeps(s: Sys)
    requires SysInv(s)
    ensures SysInv(Step(s, Shutdown))
  {
    hide ClientOk, Inv, ItemsOf, Registered, Position;
    var s' := Step(s, Shutdown);
    SomeoneAsleep(s'.workers);
    forall c | c in s.clients ensures ClientOk(c, s.clients[c], ItemsOf(s.sched, c), s'.workers) {
      OthersUnmoved(c, s.clients[c], ItemsOf(s.sched, c), s.workers, s'.workers);
    }
  }

  // --------------------------------------------------------------- all steps

  lemma StepKeeps(s: Sys, e: Event)
    requires SysInv(s)
    ensures SysInv(Step(s, e))
  {
    hide SysInv, ClientOk, PhaseOk, SubmitStep, LockStep, FinishStep, DeliverStep, RemoveStep;
    if Step(s, e) != s {
      match e
      case Accept(c) => AcceptKeeps(s, c);
      case Submit(c, line, woken) => SubmitKeeps(s, c, line, woken);
      case Lock(w) => if s.sched.pending == 0 { LockIdleKeeps(s, w); } else { LockTakesKeeps(s, w); }
      case Wake(w) => WakeKeeps(s, w);
      case Finish(w, result) => FinishKeeps(s, w, result);
      case Deliver(w, script) => DeliverKeeps(s, w, script);
      case CloseCheck(c) => CloseCheckKeeps(s, c);
      case CloseMark(c) => CloseMarkKeeps(s, c);
      case CloseRemove(c) => RemoveKeeps(s, c);
      case CloseFds(c) => CloseFdsKeeps(s, c);
      case Shutdown => ShutdownKeeps(s);
    }
  }

  lemma {:induction false} RunKeeps(s: Sys, es: seq<Event>)
    requires SysInv(s)
    ensures SysInv(Run(s, es))
    decreases |es|
  {
    if es != [] {
      StepKeeps(s, es[0]);
      RunKeeps(Step(s, es[0]), es[1..]);
    }
  }

  lemma InitialInv(n: nat)
    ensures SysInv(Initial(n))
  {
    CountZero(Initial(n).workers, IsAsleep());
  }

  /** The invariant holds in every state any run of any number of workers reaches. */
  lemma Reachable(n: nat, es: seq<Event>)
    ensures SysInv(Run(Initial(n), es))
  {
    InitialInv(n);
    RunKeeps(Initial(n), es);
  }
}
