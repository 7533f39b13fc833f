/**
 * From the client's keyboard to its screen: the client's lines through the
 * framer into the pool, the pool's replies through the ring back to the client.
 */
module EndToEnd {
  import opened Sequences
  import opened Schedule
  import opened ReplyRing
  import opened PoolSystem
  import opened PoolInvariant
  import opened PoolTheorems
  import opened Wire
  import opened Client
  import Framing

  // ------------------------------------------------- what is offered, what is accepted

  /** Lines the main thread hands to threadpool_submit for a client it knows. */
  function OfferedBy(s: Sys, e: Event, c: ClientId): seq<string> {
    if e.Submit? && e.c == c && c in s.clients && ValidSignal(s.workers, e.woken) then [e.line] else []
  }

  function Offered(s: Sys, es: seq<Event>, c: ClientId): seq<string>
    decreases |es|
  {
    if es == [] then [] else OfferedBy(s, es[0], c) + Offered(Step(s, es[0]), es[1..], c)
  }

  /** Nothing more will be accepted from c. */
  predicate ShutOut(s: Sys, c: ClientId)
    requires c in s.clients
  {
    s.shutting || s.clients[c].out.disconnected || s.clients[c].phase.Removed? || s.clients[c].phase.Closed?
  }

  lemma ShutOutForGood(s: Sys, e: Event, c: ClientId)
    requires c in s.clients
    ensures c in Step(s, e).clients
    ensures ShutOut(s, c) ==> ShutOut(Step(s, e), c)
  {
    hide Dequeue, Remove, Register, Enqueue, Registered, Drain;
  }

  lemma SubmitAccepts(s: Sys, e: Event, c: ClientId)
    requires c in s.clients
    ensures c in Step(s, e).clients
    ensures Step(s, e).clients[c].accepted == s.clients[c].accepted + if CanSubmit(s, c) then OfferedBy(s, e, c) else []
  {
    hide Dequeue, Remove, Register, Enqueue, Registered, ReplyRing.Deliver;
  }

  lemma ShutOutIff(s: Sys, c: ClientId)
    requires SysInv(s) && c in s.clients
    ensures CanSubmit(s, c) <==> !ShutOut(s, c)
  {
    hide ClientOk, Inv;
    assert PhaseOk(s, c);
  }

  /** A client whose submissions are refused is refused for good. */
  lemma StepAccepts(s: Sys, e: Event, c: ClientId)
    requires SysInv(s) && c in s.clients
    ensures c in Step(s, e).clients
    ensures Step(s, e).clients[c].accepted == s.clients[c].accepted + if CanSubmit(s, c) then OfferedBy(s, e, c) else []
    ensures !CanSubmit(s, c) ==> !CanSubmit(Step(s, e), c)
  {
    hide SysInv, Step, CanSubmit, ShutOut, OfferedBy;
    StepKeeps(s, e);
    SubmitAccepts(s, e, c);
    ShutOutForGood(s, e, c);
    ShutOutIff(s, c);
    ShutOutIff(Step(s, e), c);
  }

  lemma {:induction false} RunAccepts(s: Sys, es: seq<Event>, c: ClientId)
    requires SysInv(s) && c in s.clients
    ensures c in Run(s, es).clients
    ensures Run(s, es).clients[c].accepted <= s.clients[c].accepted + Offered(s, es, c)
    ensures !CanSubmit(s, c) ==> Run(s, es).clients[c].accepted == s.clients[c].accepted
    decreases |es|
  {
    hide SysInv, Step, CanSubmit, OfferedBy;
    if es != [] {
      StepAccepts(s, es[0], c);
      StepKeeps(s, es[0]);
      RunAccepts(Step(s, es[0]), es[1..], c);
    }
  }

  /** The accepted lines of a client are the first ones offered, without a gap. */
  lemma {:induction false} AcceptedArePrefix(s: Sys, es: seq<Event>, c: ClientId)
    requires SysInv(s) && c !in s.clients
    ensures c in Run(s, es).clients ==> Run(s, es).clients[c].accepted <= Offered(s, es, c)
    decreases |es|
  {
    hide SysInv;
    if es != [] {
      StepKeeps(s, es[0]);
      var t := Step(s, es[0]);
      if c in t.clients {
        assert t.clients[c] == NEW_CLIENT;
        RunAccepts(t, es[1..], c);
      } else {
        AcceptedArePrefix(t, es[1..], c);
      }
    }
  }

  // ---------------------------------------------------------- replies are lines

  /** The handler answers with one line or not at all. */
  predicate Speaks(es: seq<Event>) {
    forall i :: 0 <= i < |es| && es[i].Finish? && es[i].result.Some? ==> IsReplyLine(es[i].result.value)
  }

  predicate RepliesAreLines(s: Sys) {
    forall c, k :: c in s.clients && k in s.clients[c].replies ==> IsReplyLine(s.clients[c].replies[k])
  }

  lemma StepRepliesAreLines(s: Sys, e: Event)
    requires RepliesAreLines(s) && (e.Finish? && e.result.Some? ==> IsReplyLine(e.result.value))
    ensures RepliesAreLines(Step(s, e))
  {
    hide Dequeue, Remove, Register, Enqueue, IsReplyLine, ReplyRing.Deliver;
    assert IsReplyLine("-1\n") by { NoReplyLine(); }
  }

  lemma NoReplyLine()
    ensures IsReplyLine("-1\n")
  {
    assert "-1\n"[..2] == "-1";
  }

  lemma {:induction false} RunRepliesAreLines(s: Sys, es: seq<Event>)
    requires RepliesAreLines(s) && Speaks(es)
    ensures RepliesAreLines(Run(s, es))
    decreases |es|
  {
    hide RepliesAreLines, Step, IsReplyLine;
    if es != [] {
      StepRepliesAreLines(s, es[0]);
      assert Speaks(es[1..]) by {
        assert forall i :: 0 <= i < |es| - 1 ==> es[1..][i] == es[i + 1];
      }
      RunRepliesAreLines(Step(s, es[0]), es[1..]);
    }
  }

  // ---------------------------------------------------------- bytes back to lines

  /** Replies 0 .. n-1 as a list. */
  function Replies(table: map<nat, string>, n: nat): (r: seq<string>)
    requires forall k :: 0 <= k < n ==> k in table
    ensures |r| == n && forall k :: 0 <= k < n ==> r[k] == table[k]
  {
    seq(n, k requires 0 <= k < n => table[k])
  }

  lemma {:induction false} StreamIsFlatten(table: map<nat, string>, n: nat)
    requires forall k :: 0 <= k < n ==> k in table
    ensures Stream(table, n) == Flatten(Replies(table, n))
  {
    if n > 0 {
      StreamIsFlatten(table, n - 1);
      assert Replies(table, n) == Replies(table, n - 1) + [table[n - 1]];
      FlattenAppend(Replies(table, n - 1), [table[n - 1]]);
      FlattenSingle(table[n - 1]);
    }
  }

  /** What a client reads line by line are its replies in order, and at most one more that a failed write cut short. */
  lemma ReadBack(o: Output, table: map<nat, string>, broken: bool)
    requires Wrote(o, table) && forall k :: k in table ==> IsReplyLine(table[k])
    ensures var lines := SplitLines(o.pipe.written, broken);
            && o.sent <= |lines| <= o.sent + 1
            && (forall k :: 0 <= k < o.sent ==> lines[k] == table[k])
            && (!o.disconnected ==> |lines| == o.sent)
  {
    hide SplitLines, IsReplyLine;
    var replies := Replies(table, o.sent);
    StreamIsFlatten(table, o.sent);
    var tail := LeftOver(o, table);
    SplitOfFlatten(replies, tail, broken);
  }

  /** The bytes after the last whole reply. */
  lemma LeftOver(o: Output, table: map<nat, string>) returns (tail: string)
    requires Wrote(o, table) && forall k :: k in table ==> IsReplyLine(table[k])
    ensures o.pipe.written == Stream(table, o.sent) + tail
    ensures '\n' !in tail && |tail| < MAX_RESPONSE_LEN
    ensures !o.disconnected ==> tail == []
  {
    if o.pipe.written == Stream(table, o.sent) {
      tail := [];
    } else {
      var j :| 0 <= j < |table[o.sent]| && o.pipe.written == Stream(table, o.sent) + table[o.sent][..j];
      var line := table[o.sent];
      tail := line[..j];
      assert IsReplyLine(line);
      assert forall i :: 0 <= i < j ==> tail[i] == line[..|line| - 1][i];
    }
  }

  // -------------------------------------------------------------------- the whole

  /** The client's session given its input, the bytes it has been sent, and how its reads end and its writes go. */
  function Played(script: seq<Answer>, stdin: string, bytes: string, broken: bool): Session {
    Play(Begin(script), stdin, SplitLines(bytes, broken))
  }

  /**
   * End to end, in every interleaving of the pool and for every splitting and
   * failure of reads and writes on either side: the reply a client takes for its
   * k-th request line is the handler's reply to the request accepted as number k,
   * and that request is that very line.
   */
  lemma EndToEnd(n: nat, es: seq<Event>, c: ClientId, script: seq<Answer>, stdin: string, broken: bool, received: string)
    requires Speaks(es) && c in Run(Initial(n), es).clients
    requires received <= Goodbye(Played(script, stdin, Run(Initial(n), es).clients[c].out.pipe.written, broken)).pipe.written
    requires Offered(Initial(n), es, c) == Framing.Feed(Framing.Framed([], []), received).lines
    ensures var cl := Run(Initial(n), es).clients[c];
            var xs := Played(script, stdin, cl.out.pipe.written, broken).exchanges;
            && |xs| <= cl.out.sent + 1
            && forall k :: 0 <= k < |xs| && k < cl.out.sent ==>
                             k < |cl.accepted| && k in cl.replies && xs[k] == (cl.accepted[k], cl.replies[k])
  {
    hide SysInv, Played, Framing.Feed, IsReplyLine, Goodbye, Step, Offered, Wrote, Speaks, Flatten;
    var s := Run(Initial(n), es);
    Reachable(n, es);
    InitialInv(n);
    RunRepliesAreLines(Initial(n), es);
    AcceptedArePrefix(Initial(n), es, c);
    OutputOf(s, c);
    Matched(s.clients[c], script, stdin, broken, received);
  }

  lemma OutputOf(s: Sys, c: ClientId)
    requires SysInv(s) && c in s.clients
    ensures Wrote(s.clients[c].out, s.clients[c].replies)
    ensures s.clients[c].out.sent <= |s.clients[c].accepted|
  {
    var cl := s.clients[c];
    assert ClientOk(c, cl, ItemsOf(s.sched, c), s.workers);
    if cl.out.sent > 0 {
      var k: nat := cl.out.sent - 1;
      assert Places(c, cl, ItemsOf(s.sched, c), s.workers, k) == One(k < |cl.accepted|);
    }
  }

  lemma Matched(cl: PoolSystem.Client, script: seq<Answer>, stdin: string, broken: bool, received: string)
    requires Wrote(cl.out, cl.replies) && cl.out.sent <= |cl.accepted|
    requires forall k :: k in cl.replies ==> IsReplyLine(cl.replies[k])
    requires received <= Goodbye(Played(script, stdin, cl.out.pipe.written, broken)).pipe.written
    requires cl.accepted <= Framing.Feed(Framing.Framed([], []), received).lines
    ensures var xs := Played(script, stdin, cl.out.pipe.written, broken).exchanges;
            && |xs| <= cl.out.sent + 1
            && forall k :: 0 <= k < |xs| && k < cl.out.sent ==> k in cl.replies && xs[k] == (cl.accepted[k], cl.replies[k])
  {
    hide Play, SplitLines, Framing.Feed, IsReplyLine, Flatten, Permitted, FirstToken, SendAll;
    var lines := SplitLines(cl.out.pipe.written, broken);
    ReadBack(cl.out, cl.replies, broken);
    Lockstep(script, stdin, lines);
    ReceivedAgrees(script, stdin, lines, received);
  }

  /** Whatever part of the client's bytes has arrived, the k-th line framed from it is, if the client sent a k-th line whole, that line. */
  lemma ReceivedAgrees(script: seq<Answer>, stdin: string, replies: seq<string>, received: string)
    requires received <= Goodbye(Play(Begin(script), stdin, replies)).pipe.written
    ensures var lines := Framing.Feed(Framing.Framed([], []), received).lines;
            var sent := Goodbye(Play(Begin(script), stdin, replies)).sent;
            forall k :: 0 <= k < |lines| && k < |sent| ==> lines[k] == sent[k]
    ensures var s := Goodbye(Play(Begin(script), stdin, replies));
            s.whole ==> Framing.Feed(Framing.Framed([], []), received).lines <= s.sent
  {
    hide Play, Framing.Feed, Goodbye;
    var s := Goodbye(Play(Begin(script), stdin, replies));
    var start := Framing.Framed([], []);
    var rest := s.pipe.written[|received|..];
    assert received + rest == s.pipe.written;
    SentIsFramed(script, stdin, replies);
    Framing.FeedAppend(start, received, rest);
    Framing.FeedConserves(start, received);
    Framing.FeedConserves(Framing.Feed(start, received), rest);
  }

  // ------------------------------------------------- a client loses no reply

  /**
   * With the line of event m, all the main thread has handed over for c was framed
   * from bytes that the animate client, having been sent no more than had been
   * written to it by then, has written.
   */
  ghost predicate HandedOver(n: nat, es: seq<Event>, c: ClientId, m: nat, script: seq<Answer>, stdin: string, broken: bool)
    requires m < |es|
  {
    var s := Run(Initial(n), es[..m]);
    c in s.clients ==>
      exists received: string :: received <= Goodbye(Played(script, stdin, s.clients[c].out.pipe.written, broken)).pipe.written
                                 && Offered(Initial(n), es[..m + 1], c) <= Framing.Feed(Framing.Framed([], []), received).lines
  }

  /** The lines submitted for c come from the animate client at the other end of its pipes. */
  ghost predicate Causal(n: nat, es: seq<Event>, c: ClientId, script: seq<Answer>, stdin: string, broken: bool) {
    forall m :: 0 <= m < |es| && es[m].Submit? && es[m].c == c ==> HandedOver(n, es, c, m, script, stdin, broken)
  }

  /** The submission of event e, in state s, finds the client at most three requests ahead. */
  predicate PacedAt(s: Sys, e: Event, c: ClientId) {
    e.Submit? && e.c == c && CanSubmit(s, c) ==> |s.clients[c].accepted| - s.clients[c].out.sent < 4
  }

  lemma {:induction false} PacedThroughout(s: Sys, es: seq<Event>, c: ClientId)
    requires forall m :: 0 <= m < |es| ==> PacedAt(Run(s, es[..m]), es[m], c)
    ensures Paced(s, es, c, 4)
    decreases |es|
  {
    if es != [] {
      hide Step, CanSubmit;
      assert PacedAt(Run(s, es[..0]), es[0], c) && Run(s, es[..0]) == s;
      forall m | 0 <= m < |es| - 1 ensures PacedAt(Run(Step(s, es[0]), es[1..][..m]), es[1..][m], c) {
        assert PacedAt(Run(s, es[..m + 1]), es[m + 1], c);
        assert es[..m + 1][1..] == es[1..][..m];
      }
      PacedThroughout(Step(s, es[0]), es[1..], c);
    }
  }

  lemma {:induction false} OfferedGrows(s: Sys, a: seq<Event>, b: seq<Event>, c: ClientId)
    ensures Offered(s, a, c) <= Offered(s, a + b, c)
    decreases |a|
  {
    if a != [] {
      hide Step, OfferedBy;
      assert (a + b)[0] == a[0] && (a + b)[1..] == a[1..] + b;
      OfferedGrows(Step(s, a[0]), a[1..], b, c);
    }
  }

  /** Having read so much, the client has written at most three lines more than it has been answered. */
  lemma FewAhead(cl: PoolSystem.Client, script: seq<Answer>, stdin: string, broken: bool, received: string)
    requires Wrote(cl.out, cl.replies) && !cl.out.disconnected
    requires forall k :: k in cl.replies ==> IsReplyLine(cl.replies[k])
    requires received <= Goodbye(Played(script, stdin, cl.out.pipe.written, broken)).pipe.written
    ensures |Framing.Feed(Framing.Framed([], []), received).lines| <= cl.out.sent + 3
  {
    hide Play, SplitLines, Framing.Feed, IsReplyLine, Flatten, Permitted, FirstToken, SendAll;
    var lines := SplitLines(cl.out.pipe.written, broken);
    ReadBack(cl.out, cl.replies, broken);
    Lockstep(script, stdin, lines);
    SentIsFramed(script, stdin, lines);
    ReceivedFewer(Goodbye(Play(Begin(script), stdin, lines)).pipe.written, received);
  }

  lemma ReceivedFewer(written: string, received: string)
    requires received <= written
    ensures |Framing.Feed(Framing.Framed([], []), received).lines| <= |Framing.Feed(Framing.Framed([], []), written).lines|
  {
    hide Framing.Feed;
    var start := Framing.Framed([], []);
    assert received + written[|received|..] == written;
    Framing.FeedAppend(start, received, written[|received|..]);
    Framing.FeedCount(start, received);
    Framing.FeedCount(Framing.Feed(start, received), written[|received|..]);
  }

  lemma {:induction false} PacedMore(s: Sys, es: seq<Event>, c: ClientId)
    requires Paced(s, es, c, 4)
    ensures Paced(s, es, c, 1024)
    decreases |es|
  {
    if es != [] {
      hide Step, CanSubmit;
      PacedMore(Step(s, es[0]), es[1..], c);
    }
  }

  /**
   * A client that waits for each reply before its next line never has more than
   * three requests unanswered when one more is accepted.
   */
  lemma ClientIsPaced(n: nat, es: seq<Event>, c: ClientId, script: seq<Answer>, stdin: string, broken: bool)
    requires Speaks(es) && Causal(n, es, c, script, stdin, broken)
    ensures Paced(Initial(n), es, c, 4)
  {
    hide Paced, Speaks, Initial, Run, HandedOver, PacedAt;
    forall m | 0 <= m < |es| ensures PacedAt(Run(Initial(n), es[..m]), es[m], c) {
      InStepAt(n, es, c, m, script, stdin, broken);
    }
    PacedThroughout(Initial(n), es, c);
  }

  lemma InStepAt(n: nat, es: seq<Event>, c: ClientId, m: nat, script: seq<Answer>, stdin: string, broken: bool)
    requires Speaks(es) && m < |es|
    requires es[m].Submit? && es[m].c == c ==> HandedOver(n, es, c, m, script, stdin, broken)
    ensures PacedAt(Run(Initial(n), es[..m]), es[m], c)
  {
    hide SysInv, Played, Framing.Feed, IsReplyLine, Goodbye, Step, Offered, Wrote, Flatten, Initial, Run;
    var past := es[..m];
    var s := Run(Initial(n), past);
    if es[m].Submit? && es[m].c == c && CanSubmit(s, c) {
      Reachable(n, past);
      InitialInv(n);
      NoClientYet(n, c);
      RunRepliesAreLines(Initial(n), past);
      AcceptedArePrefix(Initial(n), past, c);
      OutputOf(s, c);
      OfferedGrows(Initial(n), past, [es[m]], c);
      assert past + [es[m]] == es[..m + 1];
      var received: string :| received <= Goodbye(Played(script, stdin, s.clients[c].out.pipe.written, broken)).pipe.written
                              && Offered(Initial(n), es[..m + 1], c) <= Framing.Feed(Framing.Framed([], []), received).lines;
      FewAhead(s.clients[c], script, stdin, broken, received);
    }
  }

  lemma NoClientYet(n: nat, c: ClientId)
    ensures c !in Initial(n).clients && RepliesAreLines(Initial(n))
  {
  }

  /**
   * The animate client loses no reply: in every run in which it is at the other
   * end, as long as it is connected nothing of it is discarded or removed, and once
   * its requests are worked off it has been written exactly their replies in order.
   */
  lemma ClientLosesNothing(n: nat, es: seq<Event>, c: ClientId, script: seq<Answer>, stdin: string, broken: bool)
    requires Speaks(es) && Causal(n, es, c, script, stdin, broken)
    ensures var s := Run(Initial(n), es);
            c in s.clients && !s.clients[c].out.disconnected ==>
              var cl := s.clients[c];
              && cl.discarded == {} && cl.removed == {}
              && (Settled(s, c) ==> (forall k :: 0 <= k < |cl.accepted| ==> k in cl.replies)
                                    && cl.out.pipe.written == Stream(cl.replies, |cl.accepted|))
  {
    hide Initial, Run, Paced, Causal;
    ClientIsPaced(n, es, c, script, stdin, broken);
    PacedMore(Initial(n), es, c);
    PacedClientLosesNothing(n, es, c);
  }
}
