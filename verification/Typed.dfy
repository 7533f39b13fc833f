/** What the client sends and shows for what its user types: one deed per typed line. */
module Typed {
  import opened Sequences
  import opened Text
  import opened Wire
  import opened ReplyRing
  import opened Client

  // ------------------------------------------------------------- the typed lines

  /** How many bytes stand before the first newline. */
  function ToNewline(s: string): (n: nat)
    ensures n <= |s| && '\n' !in s[..n]
    ensures n < |s| ==> s[n] == '\n'
  {
    if s == [] || s[0] == '\n' then 0
    else
      var n := ToNewline(s[1..]);
      assert s[..n + 1] == [s[0]] + s[1..][..n];
      1 + n
  }

  /** Standard input cut after its newlines; a last line without one gets one. */
  function TypedLines(stdin: string): seq<string>
    decreases |stdin|
  {
    if stdin == [] then []
    else
      var n := ToNewline(stdin);
      if n == |stdin| then [stdin + "\n"] else [stdin[..n + 1]] + TypedLines(stdin[n + 1..])
  }

  predicate EndsItself(l: string) {
    l != [] && l[|l| - 1] == '\n' && '\n' !in l[..|l| - 1]
  }

  /** The input, with a newline at its end if that is missing. */
  function Finished(stdin: string): string {
    if stdin == [] || stdin[|stdin| - 1] == '\n' then stdin else stdin + "\n"
  }

  /** The typed lines are the input, but for a newline at its end, and each has its newline at its end only. */
  lemma {:induction false} TypedLinesAre(stdin: string)
    ensures Flatten(TypedLines(stdin)) == Finished(stdin)
    ensures forall l :: l in TypedLines(stdin) ==> EndsItself(l)
    decreases |stdin|
  {
    if stdin != [] {
      hide Flatten, ToNewline, EndsItself, Finished;
      var n := ToNewline(stdin);
      if n == |stdin| {
        LastLineIs(stdin);
        FlattenSingle(stdin + "\n");
      } else {
        var first, rest := stdin[..n + 1], stdin[n + 1..];
        TypedLinesAre(rest);
        LineIs(stdin, n);
        FlattenAppend([first], TypedLines(rest));
        FlattenSingle(first);
      }
    }
  }

  lemma LastLineIs(stdin: string)
    requires stdin != [] && '\n' !in stdin[..|stdin|]
    ensures EndsItself(stdin + "\n") && Finished(stdin) == stdin + "\n"
  {
    assert stdin[..|stdin|] == stdin && (stdin + "\n")[..|stdin|] == stdin;
    assert stdin[|stdin| - 1] in stdin;
  }

  lemma LineIs(stdin: string, n: nat)
    requires n < |stdin| && stdin[n] == '\n' && '\n' !in stdin[..n]
    ensures EndsItself(stdin[..n + 1]) && stdin[..n + 1] + Finished(stdin[n + 1..]) == Finished(stdin)
  {
    var first, rest := stdin[..n + 1], stdin[n + 1..];
    assert first[..n] == stdin[..n];
    assert first + rest == stdin && first + (rest + "\n") == stdin + "\n";
    assert rest != [] ==> rest[|rest| - 1] == stdin[|stdin| - 1];
  }

  // ----------------------------------------------------------------- the deeds

  /** What became of a typed line: too long, without a command, refused, not written, written without an answer, answered. */
  datatype Deed = TooLong | Blank | Refused | Unwritten | Unanswered | Answered(reply: string)

  predicate IsSent(d: Deed) {
    d.Unanswered? || d.Answered?
  }

  function SentIn(lines: seq<string>, ds: seq<Deed>): seq<string>
    requires |ds| <= |lines|
  {
    if ds == [] then []
    else
      var i := |ds| - 1;
      SentIn(lines, ds[..i]) + if IsSent(ds[i]) then [lines[i]] else []
  }

  /** The lines the client tried to write. */
  function TriedIn(lines: seq<string>, ds: seq<Deed>): seq<string>
    requires |ds| <= |lines|
  {
    if ds == [] then []
    else
      var i := |ds| - 1;
      TriedIn(lines, ds[..i]) + if IsSent(ds[i]) || ds[i].Unwritten? then [lines[i]] else []
  }

  function ExchangesIn(lines: seq<string>, ds: seq<Deed>): seq<(string, string)>
    requires |ds| <= |lines|
  {
    if ds == [] then []
    else
      var i := |ds| - 1;
      ExchangesIn(lines, ds[..i]) + if ds[i].Answered? then [(lines[i], ds[i].reply)] else []
  }

  predicate IsLogin(line: string) {
    FirstToken(line) == Some("Login")
  }

  /** The name a welcome greets. */
  function Greeted(words: seq<string>): string {
    if |words| == 2 && |words[1]| <= 32 then words[1] else ""
  }

  /** A line whose command is Login has Login as its first word. */
  lemma LoginWords(line: string)
    requires IsLogin(line)
    ensures LoginName(line) == Greeted(Tokens(line, " \t\r\n"))
  {
    hide Tokens;
    FirstTokenIs(line, "Login");
    var lead, rest :| StartsWith(line, lead, "Login", rest);
    LeadSkipped(lead, "Login" + rest);
    assert line == lead + ("Login" + rest);
    TokensWord("Login", rest, DELIMS);
  }

  lemma {:induction false} LeadSkipped(lead: string, s: string)
    requires forall k :: 0 <= k < |lead| ==> lead[k] == ' ' || lead[k] == '\t'
    ensures Tokens(lead + s, DELIMS) == Tokens(s, DELIMS)
  {
    hide Tokens;
    if lead == [] {
      assert lead + s == s;
    } else {
      LeadSkipped(lead[1..], s);
      assert lead + s == [lead[0]] + (lead[1..] + s);
      TokensSkip(lead[0], lead[1..] + s, DELIMS);
    }
  }

  /** What the user reads for one line. */
  function Says(line: string, d: Deed): seq<string> {
    match d
    case TooLong => ["Value error"]
    case Refused => ["Not logged in"]
    case Answered(reply) =>
      if !IsLogin(line) then [Display(reply)]
      else
        (match ReadLogin(reply)
         case Rejected(text) => [text]
         case LoggedIn(b) => ["Welcome " + Greeted(Tokens(line, " \t\r\n")) + ". Your balance is " + Int(b)]
         case Unclear(text) => [text])
    case _ => []
  }

  function ShownIn(lines: seq<string>, ds: seq<Deed>): seq<string>
    requires |ds| <= |lines|
  {
    if ds == [] then []
    else
      var i := |ds| - 1;
      ShownIn(lines, ds[..i]) + Says(lines[i], ds[i])
  }

  /** Some line so far was a Login answered with a number. */
  predicate LoggedInBy(lines: seq<string>, ds: seq<Deed>)
    requires |ds| <= |lines|
  {
    exists j :: 0 <= j < |ds| && ds[j].Answered? && IsLogin(lines[j]) && ReadLogin(ds[j].reply).LoggedIn?
  }

  /** The pipe once these lines have been written. */
  function PipeAfter(p: Pipe, lines: seq<string>): Pipe {
    if lines == [] then p else SendAll(PipeAfter(p, lines[..|lines| - 1]), lines[|lines| - 1]).0
  }

  /** After this the client reads no more lines. */
  predicate Ends(line: string, d: Deed) {
    d.Unwritten? || d.Unanswered? || (d.Answered? && IsLogin(line) && ReadLogin(d.reply).Rejected?)
  }

  /** After this the server knows that the client leaves. */
  predicate ServerKnows(line: string, d: Deed) {
    || (d.Unanswered? && FirstToken(line) == Some("Disconnect"))
    || (d.Answered? && IsLogin(line) && ReadLogin(d.reply).Rejected?)
  }

  /** What must become of the next line, after these deeds. */
  function Fate(script: seq<Answer>, lines: seq<string>, replies: seq<string>, past: seq<Deed>): Deed
    requires |past| < |lines|
  {
    var line, k := lines[|past|], |ExchangesIn(lines, past)|;
    var writes := SendAll(PipeAfter(Pipe([], script), TriedIn(lines, past)), line).1;
    if |line| > 4095 then TooLong
    else
      match FirstToken(line)
      case None => Blank
      case Some(command) =>
        if command != "Login" && command != "Disconnect" && !LoggedInBy(lines, past) then Refused
        else if !writes then Unwritten
        else if command == "Disconnect" || k >= |replies| then Unanswered
        else Answered(replies[k])
  }

  /** These deeds are what becomes of the typed lines, up to one that ends the session, or all of them. */
  predicate Story(script: seq<Answer>, lines: seq<string>, replies: seq<string>, ds: seq<Deed>) {
    && |ds| <= |lines|
    && (forall i :: 0 <= i < |ds| ==> ds[i] == Fate(script, lines, replies, ds[..i]))
    && (forall i :: 0 <= i < |ds| - 1 ==> !Ends(lines[i], ds[i]))
    && (|ds| < |lines| ==> ds != [] && Ends(lines[|ds| - 1], ds[|ds| - 1]))
  }

  /** There is one story only. */
  lemma StoryUnique(script: seq<Answer>, lines: seq<string>, replies: seq<string>, a: seq<Deed>, b: seq<Deed>)
    requires Story(script, lines, replies, a) && Story(script, lines, replies, b)
    ensures a == b
  {
    hide Fate, Ends;
    AgreeTo(script, lines, replies, a, b, if |a| < |b| then |a| else |b|);
    assert a[..|a|] == a && b[..|b|] == b;
    if |a| <= |b| {
      AsLong(script, lines, replies, a, b);
    } else {
      AsLong(script, lines, replies, b, a);
    }
  }

  lemma {:induction false} AgreeTo(script: seq<Answer>, lines: seq<string>, replies: seq<string>, a: seq<Deed>, b: seq<Deed>, n: nat)
    requires Story(script, lines, replies, a) && Story(script, lines, replies, b) && n <= |a| && n <= |b|
    ensures a[..n] == b[..n]
  {
    if n > 0 {
      hide Fate, Ends;
      AgreeTo(script, lines, replies, a, b, n - 1);
      TakeGrows(a, n - 1);
      TakeGrows(b, n - 1);
    }
  }

  lemma AsLong(script: seq<Answer>, lines: seq<string>, replies: seq<string>, a: seq<Deed>, b: seq<Deed>)
    requires Story(script, lines, replies, a) && Story(script, lines, replies, b) && |a| <= |b| && a == b[..|a|]
    ensures a == b
  {
    hide Fate, Ends;
    assert a != [] ==> a[|a| - 1] == b[|a| - 1];
  }

  // ------------------------------------------------------- sessions tell the story

  /** Session s is where the client is after these deeds. */
  predicate Tells(script: seq<Answer>, lines: seq<string>, ds: seq<Deed>, s: Session)
    requires |ds| <= |lines|
  {
    && s.sent == SentIn(lines, ds) && s.exchanges == ExchangesIn(lines, ds) && s.shown == ShownIn(lines, ds)
    && (s.loggedIn <==> LoggedInBy(lines, ds))
    && (s.over <==> ds != [] && Ends(lines[|ds| - 1], ds[|ds| - 1]))
    && (s.sentDisconnect <==> ds != [] && ServerKnows(lines[|ds| - 1], ds[|ds| - 1]))
    && s.pipe == PipeAfter(Pipe([], script), TriedIn(lines, ds))
    && (s.whole <==> forall i :: 0 <= i < |ds| ==> !ds[i].Unwritten?)
  }

  /** The first typed line, and where the others begin. */
  lemma FirstLine(stdin: string)
    requires stdin != []
    ensures var n := ToNewline(stdin);
            TypedLines(stdin) == if n == |stdin| then [stdin + "\n"] else [stdin[..n + 1]] + TypedLines(stdin[n + 1..])
    ensures var n := ToNewline(stdin); forall i :: 0 <= i < n ==> stdin[i] != '\n'
  {
    hide ToNewline;
    var n := ToNewline(stdin);
    assert forall i :: 0 <= i < n ==> stdin[i] == stdin[..n][i];
  }

  /** One fgets, and the skipping of an overlong line, take exactly the first typed line. */
  lemma InputTakesLine(s: Session, stdin: string, replies: seq<string>)
    requires stdin != []
    ensures var line := TypedLines(stdin)[0];
            var (t, rest, left) := Input(s, stdin, replies);
            && TypedLines(rest) == TypedLines(stdin)[1..]
            && (t, left) == if |line| > 4095 then (s.(shown := s.shown + ["Value error"]), replies) else Command(s, line, replies)
  {
    hide Command, ToNewline, TypedLines, LineLength, SkipLine;
    FirstLine(stdin);
    var m := ToNewline(stdin);
    if m < |stdin| {
      TakesTerminated(stdin, m);
    } else {
      TakesLast(stdin);
      NoTypedLines();
    }
  }

  lemma NoTypedLines()
    ensures TypedLines([]) == []
  {
  }

  lemma TakesTerminated(stdin: string, m: nat)
    requires m < |stdin| && stdin[m] == '\n' && forall i :: 0 <= i < m ==> stdin[i] != '\n'
    ensures var n := LineLength(stdin, 4095);
            && n > 0
            && if m < 4095 then n == m + 1 else n == 4095 && stdin[n - 1] != '\n' && SkipLine(stdin[n..]) == stdin[m + 1..]
  {
    hide LineLength, SkipLine;
    if m < 4095 {
      LineLengthIs(stdin, 4095, m + 1);
    } else {
      LineLengthIs(stdin, 4095, 4095);
      SkipFinds(stdin[4095..], m - 4095);
      DropDrop(stdin, 4095, m - 4095 + 1);
    }
  }

  lemma TakesLast(stdin: string)
    requires stdin != [] && forall i :: 0 <= i < |stdin| ==> stdin[i] != '\n'
    ensures var n := LineLength(stdin, 4095);
            && n > 0 && stdin[n - 1] != '\n'
            && if |stdin| < 4095 then n == |stdin| && stdin[..n] == stdin && stdin[n..] == [] else n == 4095 && SkipLine(stdin[n..]) == []
  {
    hide LineLength, SkipLine;
    if |stdin| < 4095 {
      LineLengthIs(stdin, 4095, |stdin|);
      assert stdin[..|stdin|] == stdin && stdin[|stdin|..] == [];
    } else {
      LineLengthIs(stdin, 4095, 4095);
      SkipAll(stdin[4095..]);
    }
  }

  lemma {:induction false} SkipFinds(s: string, k: nat)
    requires k < |s| && s[k] == '\n' && forall i :: 0 <= i < k ==> s[i] != '\n'
    ensures SkipLine(s) == s[k + 1..]
    decreases k
  {
    if k > 0 {
      SkipFinds(s[1..], k - 1);
      DropDrop(s, 1, k);
    }
  }

  lemma {:induction false} SkipAll(s: string)
    requires '\n' !in s
    ensures SkipLine(s) == []
  {
    if s != [] {
      assert s[0] in s && forall c :: c in s[1..] ==> c in s;
      SkipAll(s[1..]);
    }
  }

  predicate LoggedInNow(s: Session, line: string, d: Deed) {
    s.loggedIn || (d.Answered? && IsLogin(line) && ReadLogin(d.reply).LoggedIn?)
  }

  /** A line gets its fate: what is sent, exchanged and shown for it. */
  lemma CommandTells(script: seq<Answer>, lines: seq<string>, all: seq<string>, ds: seq<Deed>, s: Session)
    requires |ds| < |lines| && |lines[|ds|]| <= 4095 && Tells(script, lines, ds, s) && !s.over && |s.exchanges| <= |all|
    ensures var line, d := lines[|ds|], Fate(script, lines, all, ds);
            var (t, left) := Command(s, line, all[|s.exchanges|..]);
            && t.sent == s.sent + (if IsSent(d) then [line] else [])
            && t.exchanges == s.exchanges + (if d.Answered? then [(line, d.reply)] else [])
            && t.shown == s.shown + Says(line, d)
            && (t.loggedIn <==> LoggedInNow(s, line, d))
            && (t.over <==> Ends(line, d))
            && (t.sentDisconnect <==> ServerKnows(line, d))
            && t.pipe == (if IsSent(d) || d.Unwritten? then SendAll(s.pipe, line).0 else s.pipe)
            && t.whole == (s.whole && !d.Unwritten?)
            && |t.exchanges| <= |all| && left == all[|t.exchanges|..]
  {
    hide FirstToken, ReadLogin, Display, LoginName, Int, SendAll, SentIn, TriedIn, ShownIn, ExchangesIn, LoggedInBy, PipeAfter;
    var left := all[|s.exchanges|..];
    assert left != [] ==> left[0] == all[|s.exchanges|] && left[1..] == all[|s.exchanges| + 1..];
    assert s.sent + [] == s.sent && s.exchanges + [] == s.exchanges && s.shown + [] == s.shown;
    if left != [] { HandleSays(s, lines[|ds|], left[0]); }
    hide Handle, Says, IsLogin;
    OtherSays(lines[|ds|]);
  }

  /** What an answered line shows, and whether it logs in or ends the session. */
  lemma HandleSays(s: Session, line: string, reply: string)
    ensures var t := Handle(s, line, reply);
            && t.shown == s.shown + Says(line, Answered(reply)) && t.exchanges == s.exchanges + [(line, reply)]
            && t.sent == s.sent && t.pipe == s.pipe && t.whole == s.whole
            && (t.loggedIn <==> s.loggedIn || (IsLogin(line) && ReadLogin(reply).LoggedIn?))
            && (t.over <==> s.over || (IsLogin(line) && ReadLogin(reply).Rejected?))
            && (t.sentDisconnect <==> s.sentDisconnect || (IsLogin(line) && ReadLogin(reply).Rejected?))
  {
    hide FirstToken, ReadLogin, Display, LoginName, Int, Tokens, Greeted;
    if IsLogin(line) { LoginWords(line); }
  }

  lemma OtherSays(line: string)
    ensures Says(line, TooLong) == ["Value error"] && Says(line, Refused) == ["Not logged in"]
    ensures Says(line, Blank) == [] && Says(line, Unwritten) == [] && Says(line, Unanswered) == []
  {
  }

  lemma DeedsGrow(lines: seq<string>, ds: seq<Deed>, d: Deed)
    requires |ds| < |lines|
    ensures var line, more := lines[|ds|], ds + [d];
            && SentIn(lines, more) == SentIn(lines, ds) + (if IsSent(d) then [line] else [])
            && TriedIn(lines, more) == TriedIn(lines, ds) + (if IsSent(d) || d.Unwritten? then [line] else [])
            && ExchangesIn(lines, more) == ExchangesIn(lines, ds) + (if d.Answered? then [(line, d.reply)] else [])
            && ShownIn(lines, more) == ShownIn(lines, ds) + Says(line, d)
  {
    hide Says;
    var more := ds + [d];
    assert more[..|ds|] == ds && more[|ds|] == d;
  }

  lemma LoginGrows(lines: seq<string>, ds: seq<Deed>, d: Deed)
    requires |ds| < |lines|
    ensures LoggedInBy(lines, ds + [d]) <==> LoggedInBy(lines, ds) || (d.Answered? && IsLogin(lines[|ds|]) && ReadLogin(d.reply).LoggedIn?)
  {
    hide IsLogin, ReadLogin;
    var more := ds + [d];
    assert more[|ds|] == d && forall j :: 0 <= j < |ds| ==> more[j] == ds[j];
  }

  lemma PipeGrows(p: Pipe, lines: seq<string>, line: string)
    ensures PipeAfter(p, lines + [line]) == SendAll(PipeAfter(p, lines), line).0
  {
    assert (lines + [line])[..|lines|] == lines;
  }

  lemma StepTells(script: seq<Answer>, lines: seq<string>, all: seq<string>, ds: seq<Deed>, s: Session, t: Session, left: seq<string>)
    requires |ds| < |lines| && Tells(script, lines, ds, s) && !s.over && |s.exchanges| <= |all|
    requires (t, left) == if |lines[|ds|]| > 4095 then (s.(shown := s.shown + ["Value error"]), all[|s.exchanges|..])
                          else Command(s, lines[|ds|], all[|s.exchanges|..])
    ensures Tells(script, lines, ds + [Fate(script, lines, all, ds)], t)
    ensures |t.exchanges| <= |all| && left == all[|t.exchanges|..]
  {
    hide Command, SendAll, SentIn, TriedIn, ShownIn, ExchangesIn, LoggedInBy, PipeAfter, FirstToken, ReadLogin, Display;
    var d := Fate(script, lines, all, ds);
    DeedsGrow(lines, ds, d);
    LoginGrows(lines, ds, d);
    PipeGrows(Pipe([], script), TriedIn(lines, ds), lines[|ds|]);
    if |lines[|ds|]| <= 4095 {
      CommandTells(script, lines, all, ds, s);
    } else {
      assert d == TooLong;
    }
    WholeGrows(ds, d);
    assert s.sent + [] == s.sent && s.exchanges + [] == s.exchanges && s.shown + [] == s.shown;
    assert TriedIn(lines, ds) + [] == TriedIn(lines, ds);
    assert (ds + [d])[|ds|] == d;
  }

  lemma WholeGrows(ds: seq<Deed>, d: Deed)
    ensures (forall i :: 0 <= i < |ds + [d]| ==> !(ds + [d])[i].Unwritten?)
            <==> !d.Unwritten? && forall i :: 0 <= i < |ds| ==> !ds[i].Unwritten?
  {
    assert (ds + [d])[|ds|] == d && forall i :: 0 <= i < |ds| ==> (ds + [d])[i] == ds[i];
  }

  /** Deeds that are all as they must be, none but the last an end. */
  predicate SoFar(script: seq<Answer>, lines: seq<string>, all: seq<string>, ds: seq<Deed>) {
    && |ds| <= |lines|
    && (forall i :: 0 <= i < |ds| ==> ds[i] == Fate(script, lines, all, ds[..i]))
    && (forall i :: 0 <= i < |ds| - 1 ==> !Ends(lines[i], ds[i]))
  }

  lemma SoFarGrows(script: seq<Answer>, lines: seq<string>, all: seq<string>, ds: seq<Deed>)
    requires SoFar(script, lines, all, ds) && |ds| < |lines| && (ds != [] ==> !Ends(lines[|ds| - 1], ds[|ds| - 1]))
    ensures SoFar(script, lines, all, ds + [Fate(script, lines, all, ds)])
  {
    hide Fate, Ends;
    var more := ds + [Fate(script, lines, all, ds)];
    assert forall i :: 0 <= i <= |ds| ==> more[..i] == ds[..i];
    assert ds[..|ds|] == ds;
  }

  lemma {:induction false} PlayTells(script: seq<Answer>, lines: seq<string>, all: seq<string>, ds: seq<Deed>, s: Session, stdin: string)
    returns (end: seq<Deed>)
    requires SoFar(script, lines, all, ds) && Tells(script, lines, ds, s) && |s.exchanges| <= |all| && TypedLines(stdin) == lines[|ds|..]
    ensures Story(script, lines, all, end) && Tells(script, lines, end, Play(s, stdin, all[|s.exchanges|..]))
    decreases |stdin|
  {
    hide Input, Fate, Ends, SentIn, TriedIn, ShownIn, ExchangesIn, LoggedInBy, PipeAfter, Tells;
    if s.over || stdin == [] {
      NoTypedLines();
      end := ds;
      PlayStep(s, stdin, all[|s.exchanges|..]);
      assert s.over ==> ds != [] && Ends(lines[|ds| - 1], ds[|ds| - 1]) by { OverIs(script, lines, ds, s); }
    } else {
      hide TypedLines, Play;
      InputTakesLine(s, stdin, all[|s.exchanges|..]);
      PlayStep(s, stdin, all[|s.exchanges|..]);
      HasLine(stdin);
      var (t, rest, left) := Input(s, stdin, all[|s.exchanges|..]);
      assert lines[|ds|..][0] == lines[|ds|] && lines[|ds|..][1..] == lines[|ds| + 1..];
      OverIs(script, lines, ds, s);
      StepTells(script, lines, all, ds, s, t, left);
      SoFarGrows(script, lines, all, ds);
      end := PlayTells(script, lines, all, ds + [Fate(script, lines, all, ds)], t, rest);
    }
  }

  lemma OverIs(script: seq<Answer>, lines: seq<string>, ds: seq<Deed>, s: Session)
    requires |ds| <= |lines| && Tells(script, lines, ds, s)
    ensures s.over <==> ds != [] && Ends(lines[|ds| - 1], ds[|ds| - 1])
  {
  }

  lemma HasLine(stdin: string)
    requires stdin != []
    ensures TypedLines(stdin) != []
  {
  }

  /**
   * Every session is the one story of what was typed: which lines go out, in order
   * and unchanged, which are skipped as too long or blank, which are refused before a
   * login, what answers are taken for them, what the user reads, and where it ends.
   */
  lemma SessionIsTyped(script: seq<Answer>, stdin: string, replies: seq<string>)
    ensures var s, lines := Play(Begin(script), stdin, replies), TypedLines(stdin);
            exists ds :: Story(script, lines, replies, ds) && Tells(script, lines, ds, s)
  {
    hide Play, Fate;
    var lines := TypedLines(stdin);
    assert lines[0..] == lines && replies[0..] == replies;
    var ds := PlayTells(script, lines, replies, [], Begin(script), stdin);
  }

  /**
   * The farewell: a Disconnect follows what was typed, unless a typed one or a
   * rejected login has told the server already.
   */
  lemma FarewellIsTyped(script: seq<Answer>, stdin: string, replies: seq<string>, ds: seq<Deed>)
    requires Story(script, TypedLines(stdin), replies, ds)
    ensures var s, lines := Goodbye(Play(Begin(script), stdin, replies)), TypedLines(stdin);
            var known := ds != [] && ServerKnows(lines[|ds| - 1], ds[|ds| - 1]);
            var whole := forall i :: 0 <= i < |ds| ==> !ds[i].Unwritten?;
            var (p, ok) := SendAll(PipeAfter(Pipe([], script), TriedIn(lines, ds)), "Disconnect\n");
            && s.sent == SentIn(lines, ds) + (if !known && whole && ok then ["Disconnect\n"] else [])
            && s.pipe == (if known then PipeAfter(Pipe([], script), TriedIn(lines, ds)) else p)
            && s.exchanges == ExchangesIn(lines, ds) && s.shown == ShownIn(lines, ds)
  {
    hide Play, Fate, SendAll, SentIn, TriedIn, ExchangesIn, ShownIn, PipeAfter, ServerKnows, Ends, LoggedInBy;
    SessionIsTyped(script, stdin, replies);
    var lines := TypedLines(stdin);
    var other :| Story(script, lines, replies, other) && Tells(script, lines, other, Play(Begin(script), stdin, replies));
    StoryUnique(script, lines, replies, ds, other);
  }
}
