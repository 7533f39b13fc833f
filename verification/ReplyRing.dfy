/**
 * Per-client replies: workers finish in any order, the 1024-slot ring puts the
 * replies back into request order. The abstract Output keeps the buffered
 * replies in a map; class ClientState keeps them in the slots of an array.
 */
module ReplyRing {
  import opened Sequences

  const WINDOW: nat := 1024

  // ------------------------------------------------------- the output pipe

  /** What one write(2) call answers; a count is capped by the bytes offered. */
  datatype Answer = Took(count: nat) | Interrupted | Failed

  /** The bytes written so far and the answers still to come; after those, every write takes all. */
  datatype Pipe = Pipe(written: string, script: seq<Answer>)

  function Min(a: nat, b: nat): nat {
    if a < b then a else b
  }

  /** Write until everything is out or the pipe fails. */
  function SendAll(p: Pipe, s: string): (Pipe, bool)
    decreases |p.script|
  {
    if s == [] then (p, true)
    else if p.script == [] then (Pipe(p.written + s, []), true)
    else
      var rest := p.script[1..];
      match p.script[0]
      case Failed => (Pipe(p.written, rest), false)
      case Interrupted => SendAll(Pipe(p.written, rest), s)
      case Took(n) =>
        if n == 0 then (Pipe(p.written, rest), false)
        else SendAll(Pipe(p.written + s[..Min(n, |s|)], rest), s[Min(n, |s|)..])
  }

  /** However the writes are split, the pipe gains s, or on failure a proper prefix of s. */
  lemma {:induction false} SendAllWrites(p: Pipe, s: string)
    ensures var r := SendAll(p, s);
            && (r.1 ==> r.0.written == p.written + s)
            && (!r.1 ==> exists k :: 0 <= k < |s| && r.0.written == p.written + s[..k])
    decreases |p.script|
  {
    if s != [] && p.script != [] {
      var rest := p.script[1..];
      match p.script[0]
      case Failed => assert p.written == p.written + s[..0];
      case Interrupted => SendAllWrites(Pipe(p.written, rest), s);
      case Took(n) =>
        if n == 0 {
          assert p.written == p.written + s[..0];
        } else {
          var m := Min(n, |s|);
          var p' := Pipe(p.written + s[..m], rest);
          SendAllWrites(p', s[m..]);
          assert s[..m] + s[m..] == s;
          var r := SendAll(p', s[m..]);
          if !r.1 {
            var k :| 0 <= k < |s| - m && r.0.written == p'.written + s[m..][..k];
            assert s[..m] + s[m..][..k] == s[..m + k];
          } else {
            assert p.written + (s[..m] + s[m..]) == p'.written + s[m..];
          }
        }
    }
  }

  /** None of these answers is a failure or a count of zero. */
  predicate Willing(script: seq<Answer>) {
    forall i :: 0 <= i < |script| ==> script[i] != Failed && script[i] != Took(0)
  }

  /** How many bytes these answers have room for. */
  function Room(script: seq<Answer>): nat {
    if script == [] then 0 else (if script[0].Took? then script[0].count else 0) + Room(script[1..])
  }

  /** Sending succeeds exactly if no write fails or takes nothing before all of the text is out. */
  lemma {:induction false} SendAllIff(p: Pipe, s: string)
    ensures SendAll(p, s).1 <==>
            exists n :: 0 <= n <= |p.script| && Willing(p.script[..n]) && (n == |p.script| || Room(p.script[..n]) >= |s|)
    decreases |p.script|
  {
    if s == [] || p.script == [] {
      assert Willing(p.script[..0]) && Room(p.script[..0]) >= 0;
    } else {
      var a, rest := p.script[0], p.script[1..];
      var m := if a.Took? then Min(a.count, |s|) else 0;
      SendAllIff(Pipe(p.written + s[..m], rest), s[m..]);
      assert p.written + s[..0] == p.written && s[0..] == s;
      if SendAll(p, s).1 {
        var n :| 0 <= n <= |rest| && Willing(rest[..n]) && (n == |rest| || Room(rest[..n]) >= |s| - m);
        assert p.script[..n + 1][0] == a && p.script[..n + 1][1..] == rest[..n];
        assert Willing(p.script[..n + 1]);
      }
      if n :| 0 <= n <= |p.script| && Willing(p.script[..n]) && (n == |p.script| || Room(p.script[..n]) >= |s|) {
        assert n > 0;
        assert p.script[..n][0] == a && p.script[..n][1..] == rest[..n - 1];
        assert Willing(rest[..n - 1]) && (n - 1 == |rest| || Room(rest[..n - 1]) >= |s| - m);
      }
    }
  }

  /** One write(2) of buf: the count taken, or -1 with whether it was EINTR. */
  method Write(p: Pipe, buf: string) returns (q: Pipe, n: int, interrupted: bool)
    ensures p.script == [] ==> n == |buf| && q == Pipe(p.written + buf, [])
    ensures p.script != [] ==>
              match p.script[0]
              case Failed => n == -1 && !interrupted && q == Pipe(p.written, p.script[1..])
              case Interrupted => n == -1 && interrupted && q == Pipe(p.written, p.script[1..])
              case Took(m) => n == Min(m, |buf|) && q == Pipe(p.written + buf[..n], p.script[1..])
  {
    interrupted := false;
    if p.script == [] {
      n := |buf|;
      q := Pipe(p.written + buf, []);
    } else {
      match p.script[0]
      case Failed =>
        n := -1;
        q := Pipe(p.written, p.script[1..]);
      case Interrupted =>
        n, interrupted := -1, true;
        q := Pipe(p.written, p.script[1..]);
      case Took(m) =>
        n := Min(m, |buf|);
        q := Pipe(p.written + buf[..n], p.script[1..]);
    }
  }

  /** write_all, of the server and of the client: go on after partial and interrupted writes, give up on a failed one. */
  method WriteAll(p: Pipe, s: string) returns (q: Pipe, ok: bool)
    ensures (q, ok) == SendAll(p, s)
  {
    q := p;
    var total := 0;
    while total < |s|
      invariant 0 <= total <= |s|
      invariant SendAll(q, s[total..]) == SendAll(p, s)
      decreases |q.script|, |s| - total
    {
      var rest := s[total..];
      ghost var was := q.written;
      var n, interrupted;
      q, n, interrupted := Write(q, rest);
      if n == -1 {
        if interrupted {
          continue;
        }
        return q, false;
      }
      if n == 0 {
        assert was + rest[..0] == was;
        return q, false;
      }
      total := total + n;
      assert s[total..] == rest[n..];
    }
    return q, true;
  }

  // ------------------------------------------------- the abstract reorderer

  datatype Output = Output(sent: nat, buffered: map<nat, string>, disconnected: bool, open: bool, pipe: Pipe)

  const FRESH: Output := Output(0, map[], false, true, Pipe([], []))

  predicate Accepts(o: Output, k: nat) {
    !o.disconnected && o.open && o.sent <= k < o.sent + WINDOW && k !in o.buffered
  }

  function Drain(o: Output): Output
    decreases |o.buffered|
  {
    if o.sent !in o.buffered then o
    else
      var (p, ok) := SendAll(o.pipe, o.buffered[o.sent]);
      var rest := o.buffered - {o.sent};
      if ok then Drain(o.(sent := o.sent + 1, buffered := rest, pipe := p))
      else o.(disconnected := true, buffered := rest, pipe := p)
  }

  function Deliver(o: Output, k: nat, reply: string): Output {
    if Accepts(o, k) then Drain(o.(buffered := o.buffered[k := reply])) else o
  }

  /** Everything buffered lies in the window; while connected, the next reply due is not among it. */
  predicate OutputInv(o: Output) {
    && (forall k :: k in o.buffered ==> o.sent <= k < o.sent + WINDOW)
    && (!o.disconnected ==> o.sent !in o.buffered)
  }

  /** Replies 0 .. n-1 of a reply table, concatenated. */
  function Stream(table: map<nat, string>, n: nat): string
    requires forall k :: 0 <= k < n ==> k in table
  {
    if n == 0 then [] else Stream(table, n - 1) + table[n - 1]
  }

  /**
   * The bytes on the pipe agree with a reply table: all replies sent so far in
   * order, then, after a failed write only, a proper prefix of the next one.
   */
  ghost predicate Wrote(o: Output, table: map<nat, string>) {
    && (forall k :: 0 <= k < o.sent ==> k in table)
    && (forall k :: k in o.buffered ==> k in table && table[k] == o.buffered[k])
    && (!o.disconnected ==> o.pipe.written == Stream(table, o.sent))
    && (o.disconnected ==> o.pipe.written == Stream(table, o.sent)
                           || (o.sent in table && exists j :: 0 <= j < |table[o.sent]| && o.pipe.written == Stream(table, o.sent) + table[o.sent][..j]))
  }

  predicate InWindow(o: Output) {
    forall k :: k in o.buffered ==> o.sent <= k < o.sent + WINDOW
  }

  function SentOne(o: Output, p: Pipe): Output
    requires o.sent in o.buffered
  {
    o.(sent := o.sent + 1, buffered := o.buffered - {o.sent}, pipe := p)
  }

  /** Only the maximal consecutive run of numbers leaves the buffer; on a failed write one more is lost. */
  lemma {:induction false} DrainMoves(o: Output)
    requires !o.disconnected && InWindow(o)
    ensures var d := Drain(o);
            && OutputInv(d) && d.open == o.open && o.sent <= d.sent
            && (forall k :: o.sent <= k < d.sent ==> k in o.buffered)
            && (!d.disconnected ==> forall k :: k in d.buffered <==> k in o.buffered && k >= d.sent)
            && (d.disconnected ==> d.sent in o.buffered && forall k :: k in d.buffered <==> k in o.buffered && k > d.sent)
            && (forall k :: k in d.buffered ==> d.buffered[k] == o.buffered[k])
    decreases |o.buffered|
  {
    if o.sent in o.buffered {
      var (p, ok) := SendAll(o.pipe, o.buffered[o.sent]);
      if ok {
        DrainMoves(SentOne(o, p));
        forall k | o.sent <= k < Drain(o).sent ensures k in o.buffered {
          assert k == o.sent || k in SentOne(o, p).buffered;
        }
      }
    }
  }

  lemma DrainStep(o: Output)
    ensures o.sent !in o.buffered ==> Drain(o) == o
    ensures o.sent in o.buffered ==>
              var (p, ok) := SendAll(o.pipe, o.buffered[o.sent]);
              Drain(o) == if ok then Drain(SentOne(o, p))
                          else o.(disconnected := true, buffered := o.buffered - {o.sent}, pipe := p)
  {
    hide SendAll;
  }

  /** Sending keeps the bytes on the pipe in agreement with the reply table. */
  lemma {:induction false} DrainWrites(o: Output, table: map<nat, string>)
    requires !o.disconnected && Wrote(o, table)
    ensures Wrote(Drain(o), table)
    decreases |o.buffered|
  {
    if o.sent in o.buffered {
      hide SendAll;
      var (p, ok) := SendAll(o.pipe, o.buffered[o.sent]);
      if ok {
        SentOneWrites(o, table);
        DrainWrites(SentOne(o, p), table);
      } else {
        CutOffWrites(o, table);
      }
    }
  }

  lemma SentOneWrites(o: Output, table: map<nat, string>)
    requires !o.disconnected && Wrote(o, table) && o.sent in o.buffered && SendAll(o.pipe, o.buffered[o.sent]).1
    ensures Wrote(SentOne(o, SendAll(o.pipe, o.buffered[o.sent]).0), table)
  {
    SendAllWrites(o.pipe, o.buffered[o.sent]);
  }

  lemma CutOffWrites(o: Output, table: map<nat, string>)
    requires !o.disconnected && Wrote(o, table) && o.sent in o.buffered && !SendAll(o.pipe, o.buffered[o.sent]).1
    ensures Wrote(Drain(o), table)
  {
    SendAllWrites(o.pipe, o.buffered[o.sent]);
  }

  // ------------------------------------------------- runs of deliveries

  function DeliverAll(o: Output, ds: seq<(nat, string)>): Output
    decreases |ds|
  {
    if ds == [] then o else DeliverAll(Deliver(o, ds[0].0, ds[0].1), ds[1..])
  }

  /** The numbers the ring took, with the reply it took for each. */
  function Taken(o: Output, ds: seq<(nat, string)>): map<nat, string>
    decreases |ds|
  {
    if ds == [] then map[]
    else
      var later := Taken(Deliver(o, ds[0].0, ds[0].1), ds[1..]);
      if Accepts(o, ds[0].0) then later[ds[0].0 := ds[0].1] else later
  }

  /** The simple set the ring implements: which numbers have been taken, which of them are out. */
  ghost predicate LeastMissing(o: Output, taken: map<nat, string>) {
    && (forall k :: 0 <= k < o.sent ==> k in taken)
    && o.sent !in taken
    && (forall k :: k in taken && k > o.sent <==> k in o.buffered)
    && (forall k :: k in o.buffered ==> o.sent < k < o.sent + WINDOW && o.buffered[k] == taken[k])
    && o.pipe.written == Stream(taken, o.sent)
  }

  lemma {:induction false} StreamAgrees(a: map<nat, string>, b: map<nat, string>, n: nat)
    requires forall k :: 0 <= k < n ==> k in a && k in b && a[k] == b[k]
    ensures Stream(a, n) == Stream(b, n)
  {
    if n > 0 { StreamAgrees(a, b, n - 1); }
  }

  lemma DeliverLeastMissing(o: Output, taken: map<nat, string>, k: nat, reply: string)
    requires !o.disconnected && LeastMissing(o, taken) && Accepts(o, k)
    ensures k !in taken
    ensures !Deliver(o, k, reply).disconnected ==> LeastMissing(Deliver(o, k, reply), taken[k := reply])
  {
    var taken' := taken[k := reply];
    var o' := o.(buffered := o.buffered[k := reply]);
    StreamAgrees(taken, taken', o.sent);
    DrainMoves(o');
    DrainWrites(o', taken');
  }

  lemma {:induction false} DisconnectedForGood(o: Output, ds: seq<(nat, string)>)
    requires o.disconnected
    ensures DeliverAll(o, ds) == o
    decreases |ds|
  {
    if ds != [] { DisconnectedForGood(o, ds[1..]); }
  }

  lemma {:induction false} RunLeastMissing(o: Output, taken: map<nat, string>, ds: seq<(nat, string)>)
    requires !o.disconnected && LeastMissing(o, taken)
    ensures var d := DeliverAll(o, ds);
            !d.disconnected ==>
              && (forall k :: k in taken ==> k !in Taken(o, ds))
              && LeastMissing(d, taken + Taken(o, ds))
    decreases |ds|
  {
    if ds == [] {
      assert taken + map[] == taken;
    } else {
      var (k, reply) := ds[0];
      var o' := Deliver(o, k, reply);
      if o'.disconnected {
        DisconnectedForGood(o', ds[1..]);
      } else if Accepts(o, k) {
        DeliverLeastMissing(o, taken, k, reply);
        RunLeastMissing(o', taken[k := reply], ds[1..]);
        assert taken[k := reply] + Taken(o', ds[1..]) == taken + Taken(o, ds) || DeliverAll(o, ds).disconnected;
      } else {
        RunLeastMissing(o, taken, ds[1..]);
      }
    }
  }

  /**
   * Reorder-buffer theorem: after any deliveries in any order, with any write
   * splits and refusals, a still connected client has sent exactly the replies
   * below the least number never taken, in order, and holds exactly the taken
   * numbers above it.
   */
  lemma ReorderBuffer(script: seq<Answer>, ds: seq<(nat, string)>)
    ensures var o := FRESH.(pipe := Pipe([], script));
            var d := DeliverAll(o, ds);
            !d.disconnected ==> LeastMissing(d, Taken(o, ds))
  {
    var o := FRESH.(pipe := Pipe([], script));
    RunLeastMissing(o, map[], ds);
    assert map[] + Taken(o, ds) == Taken(o, ds);
  }

  /** A number a connected client's ring has refused for being past the window and that is never offered again stalls the stream there. */
  lemma {:induction false} MissingStalls(o: Output, ds: seq<(nat, string)>, k: nat)
    requires OutputInv(o) && k !in o.buffered && o.sent <= k
    requires forall i :: 0 <= i < |ds| ==> ds[i].0 != k
    ensures DeliverAll(o, ds).sent <= k
    decreases |ds|
  {
    if ds != [] {
      var o' := Deliver(o, ds[0].0, ds[0].1);
      assert ds[0].0 != k;
      if Accepts(o, ds[0].0) {
        DrainKeepsMissing(o.(buffered := o.buffered[ds[0].0 := ds[0].1]), k);
      }
      MissingStalls(o', ds[1..], k);
    }
  }

  lemma {:induction false} DrainKeepsMissing(o: Output, k: nat)
    requires forall j :: j in o.buffered ==> o.sent <= j < o.sent + WINDOW
    requires k !in o.buffered && o.sent <= k
    ensures var d := Drain(o);
            d.sent <= k && k !in d.buffered && OutputInv(d)
    decreases |o.buffered|
  {
    if o.sent in o.buffered {
      var (p, ok) := SendAll(o.pipe, o.buffered[o.sent]);
      if ok {
        DrainKeepsMissing(SentOne(o, p), k);
      }
    }
  }

  /**
   * What the ring of a connected client takes: every number from the next one due up
   * to 1023 ahead of it that it does not hold already, and nothing else. A taken
   * reply is held, or has gone out, or is the one a failed write cut short. The ring
   * of a disconnected client takes nothing.
   */
  lemma RingTakes(o: Output, k: nat, reply: string)
    requires OutputInv(o)
    ensures Accepts(o, k) <==> !o.disconnected && o.open && o.sent <= k < o.sent + 1024 && k !in o.buffered
    ensures var d := Deliver(o, k, reply);
            if !o.disconnected && o.open && o.sent <= k < o.sent + 1024 && k !in o.buffered
            then k < d.sent || (k in d.buffered && d.buffered[k] == reply) || (d.disconnected && k == d.sent)
            else d == o
  {
    if Accepts(o, k) {
      DrainMoves(o.(buffered := o.buffered[k := reply]));
    }
  }

  /** For instance the reply to request 1024, when it is the first to be ready: it is thrown away and never sent. */
  lemma OverflowStalls(reply: string, ds: seq<(nat, string)>)
    requires forall i :: 0 <= i < |ds| ==> ds[i].0 != 1024
    ensures Deliver(FRESH, 1024, reply) == FRESH && Deliver(FRESH, 1023, reply).buffered == map[1023 := reply]
    ensures DeliverAll(FRESH, [(1024, reply)] + ds).sent <= 1024
  {
    var all := [(1024, reply)] + ds;
    assert all[0] == (1024, reply) && all[1..] == ds;
    assert DeliverAll(FRESH, all) == DeliverAll(Deliver(FRESH, 1024, reply), ds);
    MissingStalls(FRESH, ds, 1024);
  }

  /** What has been written stays written. */
  lemma {:induction false} DrainAppends(o: Output)
    ensures o.pipe.written <= Drain(o).pipe.written
    decreases |o.buffered|
  {
    if o.sent in o.buffered {
      SendAllWrites(o.pipe, o.buffered[o.sent]);
      var (p, ok) := SendAll(o.pipe, o.buffered[o.sent]);
      if ok {
        DrainAppends(SentOne(o, p));
      }
    }
  }

  // ------------------------------------------------- the ring on the heap

  datatype Slot = Slot(seqNum: nat, reply: string, ready: bool)

  const EMPTY_SLOT: Slot := Slot(0, [], false)

  /** The slot of a sequence number. */
  function SlotOf(k: nat): (i: nat)
    ensures i < WINDOW
  {
    k % WINDOW
  }

  /** 1024 consecutive numbers have 1024 different slots. */
  lemma SlotsApart(base: nat, j: nat, k: nat)
    requires base <= j < base + 1024 && base <= k < base + 1024 && SlotOf(j) == SlotOf(k)
    ensures j == k
  {
  }

  class ClientState {
    const slots: array<Slot>
    var requestsReceived: nat
    var responsesSent: nat
    var disconnected: bool
    var s2cOpen: bool
    var pipe: Pipe
    /** The replies the slots hold, keyed by sequence number. */
    ghost var buffered: map<nat, string>

    /** Each buffered number sits in its own slot, and each ready slot holds a buffered number. */
    ghost predicate SlotsHold()
      reads this`responsesSent, this`buffered, slots
    {
      && slots.Length == WINDOW
      && (forall k :: k in buffered ==>
            responsesSent <= k < responsesSent + WINDOW && slots[SlotOf(k)] == Slot(k, buffered[k], true))
      && (forall i :: 0 <= i < WINDOW && slots[i].ready ==> slots[i].seqNum in buffered && SlotOf(slots[i].seqNum) == i)
    }

    ghost predicate Valid()
      reads this, slots
    {
      SlotsHold() && OutputInv(View())
    }

    ghost function View(): Output
      reads this
    {
      Output(responsesSent, buffered, disconnected, s2cOpen, pipe)
    }

    constructor ()
      ensures Valid() && View() == FRESH && requestsReceived == 0 && fresh(slots)
    {
      slots := new Slot[WINDOW](_ => EMPTY_SLOT);
      requestsReceived, responsesSent := 0, 0;
      disconnected, s2cOpen := false, true;
      pipe := Pipe([], []);
      buffered := map[];
    }

    /** Inside the window a slot is taken only by the very same number. */
    lemma SlotTakenOnlyBySame(k: nat)
      requires SlotsHold() && responsesSent <= k < responsesSent + 1024
      ensures slots.Length == 1024 && SlotOf(k) == k % 1024
      ensures slots[k % 1024].ready <==> k in buffered
      ensures k in buffered ==> slots[k % 1024] == Slot(k, buffered[k], true)
    {
      assert SlotOf(k) == k % 1024;
      hide SlotOf;
      if slots[SlotOf(k)].ready {
        SlotsApart(responsesSent, k, slots[SlotOf(k)].seqNum);
      }
    }

    /** Is the reply that is due in its slot? */
    method Due() returns (due: bool, reply: string)
      requires SlotsHold()
      ensures SlotsHold() && (due <==> responsesSent in buffered)
      ensures due ==> reply == buffered[responsesSent]
    {
      hide SlotOf;
      var pending := slots[SlotOf(responsesSent)];
      due, reply := pending.ready && pending.seqNum == responsesSent, pending.reply;
    }

    /** One turn of the sending loop: write the reply that is due, if it is there. */
    method SendDue() returns (more: bool)
      requires SlotsHold() && !disconnected
      modifies this`responsesSent, this`disconnected, this`pipe, this`buffered, slots
      ensures SlotsHold() && s2cOpen == old(s2cOpen)
      ensures more ==> !disconnected && |buffered| < |old(buffered)| && Drain(View()) == Drain(old(View()))
      ensures !more ==> View() == Drain(old(View()))
    {
      hide SlotsHold, SendAll, Drain;
      ghost var before := View();
      DrainStep(before);
      var due, reply := Due();
      if !due {
        return false;
      }
      pipe, more := WriteAll(pipe, reply);
      ClearDue(more);
      if !more {
        disconnected := true;
      }
    }

    /** free_response of the due slot; responses_sent moves on if its reply went out. */
    method ClearDue(sent: bool)
      requires SlotsHold() && responsesSent in buffered
      modifies this`responsesSent, this`buffered, slots
      ensures SlotsHold() && buffered == old(buffered) - {old(responsesSent)}
      ensures responsesSent == old(responsesSent) + if sent then 1 else 0
    {
      slots[SlotOf(responsesSent)] := EMPTY_SLOT;
      buffered := buffered - {responsesSent};
      if sent {
        responsesSent := responsesSent + 1;
      }
    }

    /** Put an accepted reply into its slot. */
    method Fill(seqNum: nat, reply: string)
      requires SlotsHold() && Accepts(View(), seqNum)
      modifies this`buffered, slots
      ensures SlotsHold() && View() == old(View().(buffered := buffered[seqNum := reply]))
    {
      SlotTakenOnlyBySame(seqNum);
      hide SlotOf;
      slots[SlotOf(seqNum)] := Slot(seqNum, reply, true);
      buffered := buffered[seqNum := reply];
    }

    /** send_ordered_response: buffer the reply in its slot, then send every reply that is due. */
    method SendOrdered(seqNum: nat, reply: string)
      requires Valid()
      modifies this`responsesSent, this`disconnected, this`pipe, this`buffered, slots
      ensures Valid()
      ensures View() == Deliver(old(View()), seqNum, reply)
    {
      hide SlotOf;
      var slot := SlotOf(seqNum);
      if disconnected || !s2cOpen {
        return;
      }
      if seqNum < responsesSent || seqNum >= responsesSent + WINDOW || slots[slot].ready {
        assert !Accepts(View(), seqNum) by {
          if responsesSent <= seqNum < responsesSent + WINDOW { SlotTakenOnlyBySame(seqNum); }
        }
        return;
      }
      hide SlotsHold, Drain, OutputInv;
      Fill(seqNum, reply);
      ghost var filled := View();
      DrainMoves(filled);
      var more := true;
      while more
        invariant SlotsHold() && s2cOpen
        invariant more ==> !disconnected && Drain(View()) == Drain(filled)
        invariant !more ==> View() == Drain(filled)
        decreases if more then |buffered| + 1 else 0
      {
        more := SendDue();
      }
    }
  }
}
