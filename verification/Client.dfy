/**
 * The client's main loop: one line of standard input is one request line is one
 * reply line. Class Client works byte by byte; Play says what it amounts to on
 * whole reply lines.
 */
module Client {
  import opened Auth
  import opened Sequences
  import opened Text
  import opened Wire
  import opened ReplyRing
  import Framing

  const MAX_INPUT_LEN: nat := 4096
  const MAX_COMMAND_LEN: nat := 64

  // ------------------------------------------------------------ lines of bytes

  /** The bytes up to and including the first newline, at most `limit`. */
  function LineLength(s: string, limit: nat): (n: nat)
    ensures n <= |s| && n <= limit
    ensures s != [] && limit > 0 ==> n > 0
    ensures forall i :: 0 <= i < n - 1 ==> s[i] != '\n'
    ensures n < |s| && 0 < n < limit ==> s[n - 1] == '\n'
  {
    if s == [] || limit == 0 then 0
    else if s[0] == '\n' then 1
    else
      var n := LineLength(s[1..], limit - 1);
      assert forall i :: 1 <= i < n ==> s[i] == s[1..][i - 1];
      1 + n
  }

  lemma LineLengthIs(s: string, limit: nat, n: nat)
    requires 0 < n <= |s| && n <= limit
    requires forall i :: 0 <= i < n - 1 ==> s[i] != '\n'
    requires s[n - 1] == '\n' || n == limit || n == |s|
    ensures LineLength(s, limit) == n
  {
  }

  /** What reading line after line yields. The bytes end with the pipe closed, or broken: then a line cut short is not returned. */
  function SplitLines(bytes: string, broken: bool): seq<string>
    decreases |bytes|
  {
    if bytes == [] then []
    else
      var n := LineLength(bytes, MAX_RESPONSE_LEN - 1);
      if broken && n == |bytes| && bytes[n - 1] != '\n' && n < MAX_RESPONSE_LEN - 1 then []
      else [bytes[..n]] + SplitLines(bytes[n..], broken)
  }

  /** Reading line by line gives back exactly the replies that were written, then what is left of one cut short. */
  lemma {:induction false} SplitOfFlatten(lines: seq<string>, tail: string, broken: bool)
    requires forall i :: 0 <= i < |lines| ==> IsReplyLine(lines[i])
    requires '\n' !in tail && |tail| < MAX_RESPONSE_LEN
    ensures SplitLines(Flatten(lines) + tail, broken) == lines + Remnant(tail, broken)
    decreases |lines|
  {
    hide SplitLines, IsReplyLine;
    var bytes := Flatten(lines) + tail;
    if lines == [] {
      assert bytes == tail;
      SplitTail(tail, broken);
    } else {
      SplitFirst(lines[0], Flatten(lines[1..]) + tail, broken);
      assert bytes == lines[0] + (Flatten(lines[1..]) + tail);
      SplitOfFlatten(lines[1..], tail, broken);
    }
  }

  /** What a line cut short is read as. */
  function Remnant(tail: string, broken: bool): seq<string> {
    if tail == [] || (broken && |tail| < MAX_RESPONSE_LEN - 1) then [] else [tail]
  }

  lemma SplitTail(tail: string, broken: bool)
    requires '\n' !in tail && |tail| < MAX_RESPONSE_LEN
    ensures SplitLines(tail, broken) == Remnant(tail, broken)
  {
    if tail != [] {
      LineLengthIs(tail, MAX_RESPONSE_LEN - 1, |tail|);
      assert tail[..|tail|] == tail && tail[|tail|..] == [];
    }
  }

  lemma SplitFirst(line: string, rest: string, broken: bool)
    requires IsReplyLine(line)
    ensures SplitLines(line + rest, broken) == [line] + SplitLines(rest, broken)
  {
    var s := line + rest;
    assert forall i :: 0 <= i < |line| - 1 ==> s[i] == line[..|line| - 1][i];
    LineLengthIs(s, MAX_RESPONSE_LEN - 1, |line|);
    assert s[..|line|] == line && s[|line|..] == rest;
  }

  /** What is left after the rest of an overlong line has been thrown away. */
  function SkipLine(s: string): (r: string)
    ensures |r| <= |s|
  {
    if s == [] then [] else if s[0] == '\n' then s[1..] else SkipLine(s[1..])
  }

  /** first_token: none if there is no token or it does not fit the command buffer. */
  function FirstToken(line: string): Option<string> {
    var s := line[Span(line, BLANKS, true)..];
    var n := Span(s, DELIMS, false);
    if 0 < n < MAX_COMMAND_LEN then Some(s[..n]) else None
  }

  /** The line is blanks, a word of less than 64 bytes, and the end or a delimiter with what follows. */
  predicate StartsWith(line: string, lead: string, word: string, rest: string) {
    && line == lead + word + rest && 0 < |word| < 64
    && (forall k :: 0 <= k < |lead| ==> lead[k] == ' ' || lead[k] == '\t')
    && (forall k :: 0 <= k < |word| ==> word[k] !in " \t\r\n")
    && (rest != [] ==> rest[0] in " \t\r\n")
  }

  /** first_token finds exactly the word a line starts with. */
  lemma FirstTokenIs(line: string, word: string)
    ensures FirstToken(line) == Some(word) <==> exists lead, rest :: StartsWith(line, lead, word, rest)
  {
    hide Span;
    var i := Span(line, BLANKS, true);
    var s := line[i..];
    var n := Span(s, DELIMS, false);
    if FirstToken(line) == Some(word) {
      assert StartsWith(line, line[..i], s[..n], s[n..]);
    }
    if lead, rest :| StartsWith(line, lead, word, rest) {
      assert line[|lead|..] == word + rest && (word + rest)[..|word|] == word;
      assert line[|lead|] == word[0];
      SpanIs(line, BLANKS, true, |lead|);
      SpanIs(word + rest, DELIMS, false, |word|);
    }
  }

  /** login_username: the name to greet, empty if the line is no Login with one short name. */
  function LoginName(line: string): string {
    var ts := Tokens(line, DELIMS);
    if |ts| == 2 && ts[0] == "Login" && |ts[1]| <= 32 then ts[1] else ""
  }

  // ------------------------------------------------------------ whole sessions

  /**
   * sent: the lines written whole, up to the first failed write, after which
   * `whole` is false; exchanges: the request lines and the reply lines taken for
   * their answers; pipe: the bytes written.
   */
  datatype Session = Session(loggedIn: bool, over: bool, sentDisconnect: bool, whole: bool,
                             sent: seq<string>, exchanges: seq<(string, string)>, shown: seq<string>, pipe: Pipe)

  /** Before the first line; the script is what the writes will come to. */
  function Begin(script: seq<Answer>): Session {
    Session(false, false, false, true, [], [], [], Pipe([], script))
  }

  function Handle(s: Session, line: string, reply: string): Session {
    var t := s.(exchanges := s.exchanges + [(line, reply)]);
    if FirstToken(line) == Some("Login") then
      match ReadLogin(reply)
      case Rejected(text) => t.(shown := t.shown + [text], sentDisconnect := true, over := true)
      case LoggedIn(b) => t.(loggedIn := true, shown := t.shown + ["Welcome " + LoginName(line) + ". Your balance is " + Int(b)])
      case Unclear(text) => t.(shown := t.shown + [text])
    else t.(shown := t.shown + [Display(reply)])
  }

  predicate IsOpen(cmd: string) {
    cmd == "Login" || cmd == "Disconnect"
  }

  /** One input line; the second result is the replies still unread. */
  function Command(s: Session, line: string, replies: seq<string>): (Session, seq<string>) {
    match FirstToken(line)
    case None => (s, replies)
    case Some(cmd) =>
      if !s.loggedIn && !IsOpen(cmd) then (s.(shown := s.shown + ["Not logged in"]), replies)
      else
        var (p, ok) := SendAll(s.pipe, line);
        var t := s.(sent := s.sent + [line], pipe := p);
        if !ok then (s.(pipe := p, whole := false, over := true), replies)
        else if cmd == "Disconnect" then (t.(sentDisconnect := true, over := true), replies)
        else if replies == [] then (t.(over := true), replies)
        else (Handle(t, line, replies[0]), replies[1..])
  }

  /** One fgets and what follows; the second result is the input still unread. */
  function Input(s: Session, stdin: string, replies: seq<string>): (r: (Session, string, seq<string>))
    requires stdin != []
    ensures |r.1| < |stdin|
  {
    var n := LineLength(stdin, MAX_INPUT_LEN - 1);
    if stdin[n - 1] == '\n' then
      var (t, left) := Command(s, stdin[..n], replies);
      (t, stdin[n..], left)
    else if n + 1 >= MAX_INPUT_LEN then (s.(shown := s.shown + ["Value error"]), SkipLine(stdin[n..]), replies)
    else
      var (t, left) := Command(s, stdin[..n] + "\n", replies);
      (t, stdin[n..], left)
  }

  function Play(s: Session, stdin: string, replies: seq<string>): Session
    decreases |stdin|
  {
    if s.over || stdin == [] then s
    else
      var (t, rest, left) := Input(s, stdin, replies);
      Play(t, rest, left)
  }

  lemma PlayStep(s: Session, stdin: string, replies: seq<string>)
    ensures s.over || stdin == [] ==> Play(s, stdin, replies) == s
    ensures !s.over && stdin != [] ==> var (t, rest, left) := Input(s, stdin, replies); Play(s, stdin, replies) == Play(t, rest, left)
  {
  }

  /** Leaving: the server is told unless it knows. */
  function Goodbye(s: Session): Session {
    if s.sentDisconnect then s
    else
      var (p, ok) := SendAll(s.pipe, "Disconnect\n");
      if ok && s.whole then s.(sent := s.sent + ["Disconnect\n"], sentDisconnect := true, pipe := p)
      else s.(whole := false, sentDisconnect := ok, pipe := p)
  }

  // ------------------------------------------------------------------ theorems

  predicate IsRequestLine(l: string) {
    0 < |l| < 4096 && l[|l| - 1] == '\n' && '\n' !in l[..|l| - 1]
  }

  predicate IsLoginOk(x: (string, string)) {
    FirstToken(x.0) == Some("Login") && ReadLogin(x.1).LoggedIn?
  }

  predicate IsDisconnect(line: string) {
    FirstToken(line) == Some("Disconnect")
  }

  /** Line number k may be sent: it needs no login, or an earlier exchange was a login. */
  predicate Permitted(exchanges: seq<(string, string)>, line: string, k: nat) {
    FirstToken(line).Some? && (IsOpen(FirstToken(line).value) || exists j :: 0 <= j < k && j < |exchanges| && IsLoginOk(exchanges[j]))
  }

  /** Request number k and reply number k are partners; only the last request can be without one, and then the session is over. */
  ghost predicate InLockstep(s: Session, replies: seq<string>) {
    && |s.exchanges| <= |s.sent| <= |s.exchanges| + 1 && |s.exchanges| <= |replies|
    && (!s.over ==> |s.sent| == |s.exchanges| && !s.sentDisconnect && s.whole)
    && (forall k :: 0 <= k < |s.exchanges| ==> s.exchanges[k] == (s.sent[k], replies[k]))
    && (forall k :: 0 <= k < |s.sent| ==> IsRequestLine(s.sent[k]))
  }

  ghost predicate WellBehaved(s: Session) {
    && (s.loggedIn ==> exists j :: 0 <= j < |s.exchanges| && IsLoginOk(s.exchanges[j]))
    && (forall k :: 0 <= k < |s.sent| ==> Permitted(s.exchanges, s.sent[k], k))
    && (forall k :: 0 <= k < |s.sent| && IsDisconnect(s.sent[k]) ==> s.sentDisconnect && k == |s.exchanges| == |s.sent| - 1)
    && (s.sentDisconnect ==> if |s.sent| > |s.exchanges| then IsDisconnect(s.sent[|s.sent| - 1])
                             else s.exchanges != [] && ReadLogin(s.exchanges[|s.exchanges| - 1].1).Rejected?)
  }

  /** The bytes written after the lines sent. */
  function Tail(s: Session): string {
    if Flatten(s.sent) <= s.pipe.written then s.pipe.written[|Flatten(s.sent)|..] else []
  }

  /**
   * The bytes written start with the lines sent; as long as no write has failed
   * they are just these, after one a piece of a line, without its newline, follows.
   */
  predicate OnWire(s: Session) {
    && Flatten(s.sent) <= s.pipe.written
    && '\n' !in Tail(s) && |Tail(s)| < 4096
    && (s.whole ==> Tail(s) == [])
  }

  lemma SentOnWire(s: Session, line: string)
    requires Flatten(s.sent) == s.pipe.written && IsRequestLine(line)
    ensures var (p, ok) := SendAll(s.pipe, line);
            if ok then Flatten(s.sent + [line]) == p.written
            else Flatten(s.sent) <= p.written && '\n' !in p.written[|Flatten(s.sent)|..] && |p.written| < |Flatten(s.sent)| + 4096
  {
    hide SendAll, Flatten;
    SendAllWrites(s.pipe, line);
    FlattenAppend(s.sent, [line]);
    FlattenSingle(line);
    var (p, ok) := SendAll(s.pipe, line);
    if !ok {
      var k :| 0 <= k < |line| && p.written == s.pipe.written + line[..k];
      assert p.written[|Flatten(s.sent)|..] == line[..k];
      assert forall i :: 0 <= i < k ==> line[..k][i] == line[..|line| - 1][i];
    }
  }

  lemma CommandOnWire(s: Session, line: string, replies: seq<string>)
    requires OnWire(s) && s.whole && IsRequestLine(line)
    ensures OnWire(Command(s, line, replies).0)
  {
    hide FirstToken, ReadLogin, Display, LoginName, Int, SendAll, Flatten, IsRequestLine;
    SentOnWire(s, line);
  }

  lemma InputOnWire(s: Session, stdin: string, replies: seq<string>)
    requires OnWire(s) && s.whole && stdin != []
    ensures OnWire(Input(s, stdin, replies).0)
  {
    hide Command, OnWire;
    var n := LineLength(stdin, MAX_INPUT_LEN - 1);
    if stdin[n - 1] == '\n' {
      CommandOnWire(s, stdin[..n], replies);
    } else if n + 1 < MAX_INPUT_LEN {
      CommandOnWire(s, stdin[..n] + "\n", replies);
    } else {
      ShownOnWire(s);
    }
  }

  lemma ShownOnWire(s: Session)
    requires OnWire(s)
    ensures forall shown :: OnWire(s.(shown := shown))
  {
  }

  lemma {:induction false} PlayOnWire(s: Session, stdin: string, replies: seq<string>, all: seq<string>)
    requires OnWire(s) && InLockstep(s, all) && WellBehaved(s) && replies == all[|s.exchanges|..]
    ensures OnWire(Play(s, stdin, replies))
    decreases |stdin|
  {
    hide Input, OnWire, WellBehaved;
    if !s.over && stdin != [] {
      InputOnWire(s, stdin, replies);
      InputKeeps(s, stdin, all);
      var (t, rest, left) := Input(s, stdin, replies);
      PlayOnWire(t, rest, left, all);
    }
  }

  lemma CommandKeeps(s: Session, line: string, replies: seq<string>)
    requires InLockstep(s, replies) && WellBehaved(s) && !s.over && IsRequestLine(line)
    ensures var (t, left) := Command(s, line, replies[|s.exchanges|..]);
            InLockstep(t, replies) && WellBehaved(t) && left == replies[|t.exchanges|..]
  {
    hide FirstToken, ReadLogin, Display, LoginName, Int, IsRequestLine, Permitted, SendAll;
    var (t, left) := Command(s, line, replies[|s.exchanges|..]);
    forall k | 0 <= k < |t.sent| ensures Permitted(t.exchanges, t.sent[k], k) {
      if k < |s.sent| {
        PermittedGrows(s.exchanges, t.exchanges, s.sent[k], k);
      } else {
        LinePermitted(s, t, line);
      }
    }
    if s.loggedIn {
      var j :| 0 <= j < |s.exchanges| && IsLoginOk(s.exchanges[j]);
      assert t.exchanges[j] == s.exchanges[j];
    } else if t.loggedIn {
      assert IsLoginOk(t.exchanges[|s.exchanges|]);
    }
  }

  lemma PermittedGrows(a: seq<(string, string)>, b: seq<(string, string)>, line: string, k: nat)
    requires a <= b && Permitted(a, line, k)
    ensures Permitted(b, line, k)
  {
    if !IsOpen(FirstToken(line).value) {
      var j :| 0 <= j < k && j < |a| && IsLoginOk(a[j]);
      assert b[j] == a[j];
    }
  }

  lemma LinePermitted(s: Session, t: Session, line: string)
    requires FirstToken(line).Some? && (s.loggedIn || IsOpen(FirstToken(line).value))
    requires s.loggedIn ==> exists j :: 0 <= j < |s.exchanges| && IsLoginOk(s.exchanges[j])
    requires s.exchanges <= t.exchanges && |s.sent| == |s.exchanges|
    ensures Permitted(t.exchanges, line, |s.sent|)
  {
    if !IsOpen(FirstToken(line).value) {
      var j :| 0 <= j < |s.exchanges| && IsLoginOk(s.exchanges[j]);
      assert t.exchanges[j] == s.exchanges[j];
    }
  }

  lemma InputKeeps(s: Session, stdin: string, replies: seq<string>)
    requires InLockstep(s, replies) && WellBehaved(s) && !s.over && stdin != []
    ensures var (t, rest, left) := Input(s, stdin, replies[|s.exchanges|..]);
            InLockstep(t, replies) && WellBehaved(t) && left == replies[|t.exchanges|..]
  {
    hide Command, IsLoginOk, Permitted, IsDisconnect;
    var n := LineLength(stdin, MAX_INPUT_LEN - 1);
    if stdin[n - 1] == '\n' {
      CommandKeeps(s, stdin[..n], replies);
    } else if n + 1 < MAX_INPUT_LEN {
      CommandKeeps(s, stdin[..n] + "\n", replies);
    }
  }

  lemma {:induction false} PlayKeeps(s: Session, stdin: string, replies: seq<string>)
    requires InLockstep(s, replies) && WellBehaved(s)
    ensures var t := Play(s, stdin, replies[|s.exchanges|..]); InLockstep(t, replies) && WellBehaved(t)
    decreases |stdin|
  {
    hide Input, WellBehaved;
    if !s.over && stdin != [] {
      InputKeeps(s, stdin, replies);
      var (t, rest, left) := Input(s, stdin, replies[|s.exchanges|..]);
      PlayKeeps(t, rest, replies);
    }
  }

  /**
   * Lockstep: the k-th reply line is taken for the answer to the k-th request
   * line, every request is one line the server can frame, and nothing but Login
   * and Disconnect is sent before a Login has been answered with a number.
   */
  lemma Lockstep(script: seq<Answer>, stdin: string, replies: seq<string>)
    ensures var s := Play(Begin(script), stdin, replies);
            && |s.exchanges| <= |replies| && |s.exchanges| <= |s.sent| <= |s.exchanges| + 1
            && (forall k :: 0 <= k < |s.exchanges| ==> s.exchanges[k] == (s.sent[k], replies[k]))
            && (forall k :: 0 <= k < |s.sent| ==> Permitted(s.exchanges, s.sent[k], k))
  {
    assert replies[0..] == replies;
    PlayKeeps(Begin(script), stdin, replies);
  }

  /**
   * However a session goes, the server is told of its end once and last, unless it
   * has rejected the login itself or a write has failed.
   */
  lemma DisconnectSentOnceAndLast(script: seq<Answer>, stdin: string, replies: seq<string>)
    ensures var s := Play(Begin(script), stdin, replies);
            var lines := Goodbye(s).sent;
            && (forall k :: 0 <= k < |lines| - 1 ==> !IsDisconnect(lines[k]))
            && (Goodbye(s).whole ==>
                  || (lines != [] && IsDisconnect(lines[|lines| - 1]))
                  || (s.exchanges != [] && ReadLogin(s.exchanges[|s.exchanges| - 1].1).Rejected?))
  {
    hide ReadLogin, Play, FirstToken, IsDisconnect, IsRequestLine, Permitted, IsLoginOk, SendAll;
    assert replies[0..] == replies;
    PlayKeeps(Begin(script), stdin, replies);
    DisconnectLine();
  }

  lemma FirstTokenOfWords(words: seq<string>)
    requires words != [] && |words[0]| < MAX_COMMAND_LEN && Solid(words[0])
    ensures FirstToken(Join(words) + "\n") == Some(words[0])
  {
    hide Span;
    var w, line := words[0], Join(words) + "\n";
    SolidIsWord(w);
    assert line[..|w|] == w && line[|w|] in DELIMS by {
      assert |words| > 1 ==> Join(words) == w + (" " + Join(words[1..]));
    }
    assert forall k :: 0 <= k < |w| ==> line[k] == w[k];
    assert w[0] !in BLANKS;
    SpanIs(line, BLANKS, true, 0);
    SpanIs(line, DELIMS, false, |w|);
    assert line[0..] == line;
  }

  /** One request and its answer: the line goes out, the reply comes in, the user is shown what it means. */
  lemma RequestShown(s: Session, words: seq<string>, r: Reply, rest: seq<string>)
    requires words != [] && |words[0]| < MAX_COMMAND_LEN && Solid(words[0])
    requires s.loggedIn && !IsOpen(words[0]) && InRange(r)
    requires SendAll(s.pipe, Join(words) + "\n").1
    ensures var line := Join(words) + "\n";
            Command(s, line, [Format(r)] + rest)
            == (s.(pipe := SendAll(s.pipe, line).0, sent := s.sent + [line], exchanges := s.exchanges + [(line, Format(r))], shown := s.shown + [Meaning(r)]), rest)
  {
    hide FirstToken, Display, Format, Join, Meaning, SendAll;
    FirstTokenOfWords(words);
    DisplayRecovers(r);
  }

  /** A login from end to end: the name reaches the server, the balance the user. */
  lemma LoginRoundTrip(s: Session, was: bool, name: string, table: map<string, int>, rest: seq<string>)
    requires ValidUsername(name) && name in table && 0 < table[name] <= INT_MAX
    requires SendAll(s.pipe, Join(["Login", name]) + "\n").1
    ensures var line := Join(["Login", name]) + "\n";
            var reply := Format(ServerLogin(was, Tokens(line, DELIMS), table).0);
            Command(s, line, [reply] + rest)
            == (s.(loggedIn := true, pipe := SendAll(s.pipe, line).0, sent := s.sent + [line], exchanges := s.exchanges + [(line, reply)],
                   shown := s.shown + ["Welcome " + name + ". Your balance is " + Int(table[name])]), rest)
  {
    hide FirstToken, ReadLogin, Format, Join, Tokens, Int, SendAll;
    var words := ["Login", name];
    LoginIsSolid(name);
    FirstTokenOfWords(words);
    RequestRoundTrip(words);
    LoginRead(Balance(table[name]));
  }

  lemma LoginIsSolid(name: string)
    requires ValidUsername(name)
    ensures Solid("Login") && Solid(name)
  {
  }

  lemma DisconnectLine()
    ensures IsDisconnect("Disconnect\n") && IsRequestLine("Disconnect\n")
  {
    var s := "Disconnect\n";
    assert s[0..] == s && s[..10] == "Disconnect";
    assert forall k :: 0 <= k < 10 ==> s[k] !in DELIMS;
    SpanIs(s, BLANKS, true, 0);
    SpanIs(s, DELIMS, false, 10);
  }

  /**
   * Whatever is typed, the server frames the lines the client sent as they were
   * sent; as long as no write has failed it frames nothing else, after one at most
   * two lines more.
   */
  lemma SentIsFramed(script: seq<Answer>, stdin: string, replies: seq<string>)
    ensures var s := Goodbye(Play(Begin(script), stdin, replies));
            var f := Framing.Feed(Framing.Framed([], []), s.pipe.written);
            && s.sent <= f.lines
            && (if s.whole then f == Framing.Framed(s.sent, []) else |f.lines| <= |s.sent| + 2)
  {
    hide Framing.Feed, Play, IsRequestLine, Permitted, IsLoginOk, IsDisconnect, OnWire, SendAll, Flatten;
    assert replies[0..] == replies;
    PlayKeeps(Begin(script), stdin, replies);
    assert OnWire(Begin(script)) by { BeginOnWire(script); }
    PlayOnWire(Begin(script), stdin, replies, replies);
    DisconnectLine();
    var s := Play(Begin(script), stdin, replies);
    GoodbyeOnWire(s);
    var t := Goodbye(s);
    RequestsFramed(t.sent, t.pipe.written[|Flatten(t.sent)|..], t.pipe.written);
  }

  lemma BeginOnWire(script: seq<Answer>)
    ensures OnWire(Begin(script))
  {
  }

  /** What follows the lines sent at the very end: a piece of a line, then what was written of the farewell. */
  lemma GoodbyeOnWire(s: Session)
    requires OnWire(s) && IsRequestLine("Disconnect\n")
    ensures var t := Goodbye(s);
            && Flatten(t.sent) <= t.pipe.written
            && (t.whole ==> Flatten(t.sent) == t.pipe.written)
            && var tail := t.pipe.written[|Flatten(t.sent)|..];
               Framing.Newlines(tail) <= 1 && |tail| < 4096 + 11
  {
    hide Flatten, SendAll;
    var bye := "Disconnect\n";
    SendAllWrites(s.pipe, bye);
    var (p, ok) := SendAll(s.pipe, bye);
    if s.whole {
      SentOnWire(s, bye);
    }
    Framing.NoNewlines(Tail(s));
    if !s.sentDisconnect && !(ok && s.whole) {
      var k :| 0 <= k <= |bye| && p.written == s.pipe.written + bye[..k] by {
        if ok { assert bye[..|bye|] == bye; }
      }
      assert p.written[|Flatten(s.sent)|..] == Tail(s) + bye[..k];
      Framing.NewlinesAppend(Tail(s), bye[..k]);
      OneNewline(k);
    } else if !s.sentDisconnect {
      assert Flatten(Goodbye(s).sent) == p.written;
    }
  }

  lemma OneNewline(k: nat)
    requires k <= 11
    ensures Framing.Newlines("Disconnect\n"[..k]) <= 1
  {
    var bye := "Disconnect\n";
    if k <= 10 {
      Framing.NoNewlines(bye[..k]);
    } else {
      assert bye[..k] == "Disconnect" + "\n";
      Framing.NoNewlines("Disconnect");
      Framing.NewlinesAppend("Disconnect", "\n");
      assert "\n"[1..] == [];
    }
  }

  lemma RequestsFramed(sent: seq<string>, tail: string, written: string)
    requires written == Flatten(sent) + tail && forall k :: 0 <= k < |sent| ==> IsRequestLine(sent[k])
    requires Framing.Newlines(tail) <= 1 && |tail| < 4096 + 11
    ensures var f := Framing.Feed(Framing.Framed([], []), written);
            sent <= f.lines && |f.lines| <= |sent| + 2 && (tail == [] ==> f == Framing.Framed(sent, []))
  {
    hide Framing.Feed, Flatten;
    assert [] + sent == sent;
    Framing.LinesFramedOneByOne([], sent);
    Framing.FeedAppend(Framing.Framed([], []), Flatten(sent), tail);
    LinesOfRequests(sent);
    Framing.FeedConserves(Framing.Framed(sent, []), tail);
    Framing.FeedCount(Framing.Framed(sent, []), tail);
    if tail == [] {
      assert Flatten(sent) + tail == Flatten(sent);
    }
  }

  lemma LinesOfRequests(lines: seq<string>)
    requires forall k :: 0 <= k < |lines| ==> IsRequestLine(lines[k])
    ensures forall l :: l in lines ==> Framing.IsLine(l)
  {
    forall l | l in lines ensures Framing.IsLine(l) {
      assert IsRequestLine(l);
      assert forall i :: 0 <= i < |l| - 1 ==> l[i] == l[..|l| - 1][i];
    }
  }

  // -------------------------------------------------------------- byte by byte

  /** A reply copied into a fixed buffer and cut down in place; `len` stands for the terminating zero byte. */
  class ReplyCopy {
    const bytes: array<char>
    var len: nat

    ghost predicate Valid()
      reads this, bytes
    {
      len <= bytes.Length
    }

    ghost function Text(): string
      requires Valid()
      reads this, bytes
    {
      bytes[..len]
    }

    /** strncpy */
    constructor (response: string)
      ensures Valid() && fresh(bytes)
      ensures Text() == if |response| < MAX_RESPONSE_LEN then response else response[..MAX_RESPONSE_LEN - 1]
    {
      var n := if |response| < MAX_RESPONSE_LEN then |response| else MAX_RESPONSE_LEN - 1;
      bytes := new char[n](i requires 0 <= i < n => response[i]);
      len := n;
    }

    method StripNewline()
      requires Valid()
      modifies this
      ensures Valid() && Text() == Wire.StripNewline(old(Text()))
    {
      while len > 0 && (bytes[len - 1] == '\n' || bytes[len - 1] == '\r')
        invariant Valid() && Wire.StripNewline(Text()) == Wire.StripNewline(old(Text()))
      {
        assert bytes[..len][..len - 1] == bytes[..len - 1];
        len := len - 1;
      }
    }

    method TrimWhitespace() returns (from: nat)
      requires Valid()
      modifies this
      ensures Valid() && from == SkipSpaces(old(Text())) <= len <= old(len)
      ensures bytes[from..len] == StripSpaces(old(Text())[SkipSpaces(old(Text()))..])
    {
      from := LeadingSpaces();
      assert bytes[from..len] == Text()[from..];
      TrimEnd(from);
    }

    method LeadingSpaces() returns (from: nat)
      requires Valid()
      ensures from == SkipSpaces(Text()) <= len
    {
      ghost var text := Text();
      from := 0;
      assert text[0..] == text;
      while from < len && IsSpace(bytes[from])
        invariant from <= len && SkipSpaces(text) == from + SkipSpaces(text[from..])
      {
        DropDrop(text, from, 1);
        from := from + 1;
      }
    }

    method TrimEnd(from: nat)
      requires Valid() && from <= len
      modifies this
      ensures from <= len <= old(len) && bytes[from..len] == StripSpaces(old(bytes[from..len]))
    {
      while len > from && IsSpace(bytes[len - 1])
        invariant from <= len <= old(len) && StripSpaces(bytes[from..len]) == StripSpaces(old(bytes[from..len]))
      {
        assert bytes[from..len][..len - from - 1] == bytes[from..len - 1];
        len := len - 1;
      }
    }
  }

  /** display_rpc_response */
  method DisplayResponse(response: string) returns (text: string)
    ensures text == Display(response)
  {
    hide Wire.StripNewline, StripSpaces, SkipSpaces, Tokens;
    var copy := new ReplyCopy(response);
    copy.StripNewline();
    ghost var whole := copy.Text();
    var from := copy.TrimWhitespace();
    var token := copy.bytes[from..copy.len];
    var lead := copy.bytes[..from];
    assert lead == whole[..from];
    if token == "" { return response; }
    if token == "-1" { return "RPC Failed"; }
    if token == "-2" { return "Value error"; }
    if token == "-3" { return "Internal error"; }
    var ts := Tokens(token, BLANKS);
    if ts == [] { return lead + token; }
    if ts[0] != "0" { return lead + ts[0]; }
    if |ts| == 1 { return "Success"; }
    if ts[1] == "-1" { return "Data write failed"; }
    if ts[1] == "0" {
      return if |ts| == 2 || ts[2] == "0" then "Success" else "Movie write failed";
    }
    return "Success " + ts[1];
  }

  /** first_token: copy the first token into a buffer of MAX_COMMAND_LEN bytes. */
  method ReadFirstToken(line: string) returns (token: Option<string>)
    ensures token == FirstToken(line)
  {
    hide Span;
    var i := Scan(line, 0, BLANKS, true);
    assert line[0..] == line;
    ghost var rest := line[i..];
    var word := "";
    while i < |line| && line[i] !in DELIMS
      invariant |word| < MAX_COMMAND_LEN && |word| <= |rest| && i + |rest| == |line| + |word|
      invariant word == rest[..|word|] && rest[|word|..] == line[i..]
      invariant forall k :: 0 <= k < |word| ==> rest[k] !in DELIMS
    {
      if |word| + 1 >= MAX_COMMAND_LEN {
        LongWord(rest, |word|);
        return None;
      }
      TakeGrows(rest, |word|);
      DropDrop(rest, |word|, 1);
      assert line[i] == rest[|word|];
      word := word + [line[i]];
      i := i + 1;
    }
    SpanIs(rest, DELIMS, false, |word|);
    token := if word != "" then Some(word) else None;
  }

  lemma LongWord(s: string, n: nat)
    requires n < |s| && s[n] !in DELIMS && forall k :: 0 <= k < n ==> s[k] !in DELIMS
    ensures Span(s, DELIMS, false) > n
  {
    var m := Span(s, DELIMS, false);
    assert m < |s| ==> s[m] in DELIMS;
  }

  class Client {
    /** Standard input and the reply pipe, as far as not yet read, and whether the latter ends broken. */
    var stdin: string
    var incoming: string
    const broken: bool
    /** The request pipe. */
    var pipe: Pipe
    var loggedIn: bool
    var sentDisconnect: bool
    /** What was printed. */
    var shown: seq<string>
    /** The lines written whole up to the first failed write, whether there was none, and the answered ones. */
    ghost var sent: seq<string>
    ghost var whole: bool
    ghost var exchanges: seq<(string, string)>

    ghost function View(over: bool): Session
      reads this
    {
      Session(loggedIn, over, sentDisconnect, whole, sent, exchanges, shown, pipe)
    }

    ghost function Replies(): seq<string>
      reads this`incoming
    {
      SplitLines(incoming, broken)
    }

    constructor (input: string, bytes: string, broken: bool, script: seq<Answer>)
      ensures View(false) == Begin(script) && stdin == input && incoming == bytes && this.broken == broken
    {
      stdin, incoming, sent, exchanges, shown := input, bytes, [], [], [];
      loggedIn, sentDisconnect, whole := false, false, true;
      pipe := Pipe([], script);
      this.broken := broken;
    }

    /**
     * read_response_line: byte after byte up to a newline, the end of the buffer or
     * the end of the pipe; a failing read gives up what has been read.
     */
    method ReadResponseLine() returns (buffer: string, ok: bool)
      modifies this`incoming
      ensures ok <==> old(Replies()) != []
      ensures ok ==> [buffer] + Replies() == old(Replies())
      ensures !ok ==> Replies() == []
    {
      hide SplitLines;
      buffer := [];
      ghost var all := incoming;
      SplitOnce(all, broken);
      while |buffer| + 1 < MAX_RESPONSE_LEN
        invariant |buffer| < MAX_RESPONSE_LEN && |buffer| <= |all|
        invariant buffer == all[..|buffer|] && incoming == all[|buffer|..]
        invariant '\n' !in buffer
        decreases |incoming|
      {
        if incoming == [] {
          LinePrefix(all, buffer);
          if broken {
            SplitOnce(incoming, broken);
            return buffer, false;
          }
          break;
        }
        var ch := incoming[0];
        TakeGrows(all, |buffer|);
        DropDrop(all, |buffer|, 1);
        ghost var before := buffer;
        buffer := buffer + [ch];
        incoming := incoming[1..];
        if ch == '\n' {
          LinePrefix(all, buffer);
          return buffer, true;
        }
      }
      LinePrefix(all, buffer);
      ok := |buffer| > 0;
      if !ok { SplitOnce(incoming, broken); }
    }

    /** getchar up to a newline or the end of the input. */
    method SkipRest()
      modifies this`stdin
      ensures stdin == SkipLine(old(stdin))
    {
      while stdin != [] && stdin[0] != '\n'
        invariant SkipLine(stdin) == SkipLine(old(stdin))
        decreases |stdin|
      {
        stdin := stdin[1..];
      }
      if stdin != [] {
        stdin := stdin[1..];
      }
    }

    /** One request line: send it, read its answer, tell the user. */
    method Perform(line: string) returns (over: bool)
      requires !sentDisconnect
      modifies this`incoming, this`sent, this`exchanges, this`shown, this`loggedIn, this`sentDisconnect, this`pipe, this`whole
      ensures (View(over), Replies()) == Command(old(View(false)), line, old(Replies()))
      ensures !over ==> !sentDisconnect
    {
      hide SplitLines, SendAll;
      over := false;
      var token := ReadFirstToken(line);
      if token == None {
        return;
      }
      var command := token.value;
      if !loggedIn && command != "Login" && command != "Disconnect" {
        shown := shown + ["Not logged in"];
        return;
      }
      var written;
      pipe, written := WriteAll(pipe, line);
      if !written {
        whole := false;
        return true;
      }
      sent := sent + [line];
      if command == "Disconnect" {
        sentDisconnect := true;
        return true;
      }
      var response, ok := ReadResponseLine();
      if !ok {
        return true;
      }
      exchanges := exchanges + [(line, response)];
      if command == "Login" {
        match ReadLogin(response)
        case Rejected(text) =>
          shown := shown + [text];
          sentDisconnect, over := true, true;
        case LoggedIn(balance) =>
          loggedIn := true;
          shown := shown + ["Welcome " + LoginName(line) + ". Your balance is " + Int(balance)];
        case Unclear(text) =>
          shown := shown + [text];
      } else {
        var text := DisplayResponse(response);
        shown := shown + [text];
      }
    }

    /** main's loop over standard input and the farewell after it. */
    method Run(ghost script: seq<Answer>)
      requires View(false) == Begin(script)
      modifies this
      ensures View(true) == Goodbye(Play(Begin(script), old(stdin), old(Replies()))).(over := true)
    {
      hide Play, Command, LineLength, SplitLines, SkipLine, SendAll;
      var over := false;
      ghost var end := Play(Begin(script), stdin, Replies());
      while !over && stdin != []
        invariant end == Play(View(over), stdin, Replies())
        invariant !over ==> !sentDisconnect
        decreases |stdin|, !over
      {
        PlayStep(View(over), stdin, Replies());
        var n := LineLength(stdin, MAX_INPUT_LEN - 1);
        var chunk := stdin[..n];
        stdin := stdin[n..];
        if chunk[n - 1] == '\n' {
          over := Perform(chunk);
        } else if n + 1 >= MAX_INPUT_LEN {
          shown := shown + ["Value error"];
          SkipRest();
        } else {
          over := Perform(chunk + "\n");
        }
      }
      PlayStep(View(over), stdin, Replies());
      if !sentDisconnect {
        var written;
        pipe, written := WriteAll(pipe, "Disconnect\n");
        if written {
          sentDisconnect := true;
          sent := if whole then sent + ["Disconnect\n"] else sent;
          var _, _ := ReadResponseLine();
        } else {
          whole := false;
        }
      }
    }
  }

  lemma SplitOnce(bytes: string, broken: bool)
    ensures bytes == [] ==> SplitLines(bytes, broken) == []
    ensures bytes != [] ==> var n := LineLength(bytes, MAX_RESPONSE_LEN - 1);
                            SplitLines(bytes, broken)
                            == if broken && n == |bytes| && bytes[n - 1] != '\n' && n < MAX_RESPONSE_LEN - 1 then []
                               else [bytes[..n]] + SplitLines(bytes[n..], broken)
  {
  }

  /** A prefix without a newline but perhaps at its end, that has one, is full, or is all there is, is the first line. */
  lemma LinePrefix(all: string, buffer: string)
    requires buffer <= all && |buffer| < MAX_RESPONSE_LEN && forall i :: 0 <= i < |buffer| - 1 ==> buffer[i] != '\n'
    requires buffer != [] ==> buffer[|buffer| - 1] == '\n' || |buffer| == MAX_RESPONSE_LEN - 1 || |buffer| == |all|
    ensures buffer != [] ==> LineLength(all, MAX_RESPONSE_LEN - 1) == |buffer|
  {
    if buffer != [] {
      LineLengthIs(all, MAX_RESPONSE_LEN - 1, |buffer|);
    }
  }
}
