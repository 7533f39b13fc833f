/** The wire format: how the server prints replies, how the client shows them. */
module Wire {
  import opened Auth
  import opened Sequences
  import opened Text

  const BLANKS: string := " \t"
  const DELIMS: string := " \t\r\n"
  const MAX_RESPONSE_LEN: nat := 4096
  const INT_MIN: int := -0x8000_0000
  const INT_MAX: int := 0x7FFF_FFFF

  /** What a request can be answered with. */
  datatype Reply =
    | Code(code: int)
    | Value(value: nat)
    | Balance(balance: int)
    | Generated(dat: int, movie: int)
    | RejectUnauthorised
    | RejectBalance

  /** The C types of the values printed. */
  predicate InRange(r: Reply) {
    match r
    case Code(c) => INT_MIN <= c <= INT_MAX
    case Value(n) => n <= ULLONG_MAX
    case Balance(b) => INT_MIN <= b <= INT_MAX
    case Generated(d, m) => INT_MIN <= d <= INT_MAX && INT_MIN <= m <= INT_MAX
    case _ => true
  }

  /** snprintf into a buffer of `size` bytes. */
  function Snprintf(size: nat, s: string): string
    requires size > 0
  {
    if |s| < size then s else s[..size - 1]
  }

  function Format(r: Reply): string {
    match r
    case Code(c) => Snprintf(32, Int(c) + "\n")
    case Value(n) => Snprintf(64, "0 " + Dec(n) + "\n")
    case Balance(b) => Snprintf(64, Int(b) + "\n")
    case Generated(d, m) => Snprintf(64, "0 " + Int(d) + " " + Int(m) + "\n")
    case RejectUnauthorised => "Reject UNAUTHORISED\n"
    case RejectBalance => "Reject BALANCE\n"
  }

  /** The blank-separated words of a reply. */
  function Words(r: Reply): seq<string> {
    match r
    case Code(c) => [Int(c)]
    case Value(n) => ["0", Dec(n)]
    case Balance(b) => [Int(b)]
    case Generated(d, m) => ["0", Int(d), Int(m)]
    case RejectUnauthorised => ["Reject", "UNAUTHORISED"]
    case RejectBalance => ["Reject", "BALANCE"]
  }

  /** One newline, at the end, and short enough to be read whole. */
  predicate IsReplyLine(s: string) {
    0 < |s| < 4096 && s[|s| - 1] == '\n' && '\n' !in s[..|s| - 1]
  }

  /** No white space anywhere. */
  predicate Solid(w: string) {
    w != [] && forall i :: 0 <= i < |w| ==> !IsSpace(w[i])
  }

  lemma IntIsSolid(i: int)
    ensures Solid(Int(i))
  {
    hide Dec;
    var digits := Dec(if i < 0 then -i else i);
    assert forall k :: 0 <= k < |digits| ==> IsDigit(digits[k]);
  }

  lemma DecIsShort(n: nat)
    requires n <= 0x8000_0000
    ensures |Dec(n)| <= 10
  {
    assert Pow10(5) == 100000;
    assert Pow10(10) == 100000 * 100000;
    DecLength(n, 10);
  }

  lemma IntIsShort(i: int)
    requires INT_MIN <= i <= INT_MAX
    ensures |Int(i)| <= 11
  {
    DecIsShort(if i < 0 then -i else i);
  }

  /** No reply is cut short by its buffer: what is sent are the words, blanks between them, and a newline. */
  lemma FormatIsWords(r: Reply)
    requires InRange(r)
    ensures Format(r) == Join(Words(r)) + "\n" && |Format(r)| <= 32
    ensures forall i :: 0 <= i < |Words(r)| ==> Solid(Words(r)[i])
  {
    hide Dec, Int, Join, Solid, Snprintf;
    match r
    case Code(c) => NumberFits(c, 32);
    case Value(n) => ValueFits(n);
    case Balance(b) => NumberFits(b, 64);
    case Generated(d, m) => GeneratedFits(d, m);
    case RejectUnauthorised => RejectWords();
    case RejectBalance => RejectWords();
  }

  lemma NumberFits(i: int, size: nat)
    requires INT_MIN <= i <= INT_MAX && size >= 32
    ensures Snprintf(size, Int(i) + "\n") == Join([Int(i)]) + "\n" && |Join([Int(i)])| <= 11 && Solid(Int(i))
  {
    hide Int, Join, Solid;
    IntIsShort(i);
    IntIsSolid(i);
    JoinOne(Int(i));
  }

  lemma ValueFits(n: nat)
    requires n <= ULLONG_MAX
    ensures Snprintf(64, "0 " + Dec(n) + "\n") == Join(["0", Dec(n)]) + "\n" && |Join(["0", Dec(n)])| <= 22
    ensures Solid("0") && Solid(Dec(n))
  {
    hide Dec, Int, Join, Solid;
    U64Length(n);
    IntIsSolid(n);
    IntOfNat(n);
    ZeroIsSolid();
    JoinTwo("0", Dec(n));
  }

  lemma GeneratedFits(d: int, m: int)
    requires INT_MIN <= d <= INT_MAX && INT_MIN <= m <= INT_MAX
    ensures Snprintf(64, "0 " + Int(d) + " " + Int(m) + "\n") == Join(["0", Int(d), Int(m)]) + "\n"
    ensures |Join(["0", Int(d), Int(m)])| <= 25 && Solid("0") && Solid(Int(d)) && Solid(Int(m))
  {
    hide Int, Join, Solid;
    IntIsShort(d);
    IntIsSolid(d);
    IntIsShort(m);
    IntIsSolid(m);
    ZeroIsSolid();
    JoinThree("0", Int(d), Int(m));
  }

  lemma ZeroIsSolid()
    ensures Solid("0")
  {
  }

  lemma JoinOne(a: string)
    ensures Join([a]) == a
  {
  }

  lemma JoinTwo(a: string, b: string)
    ensures Join([a, b]) == a + " " + b
  {
    assert [a, b][1..] == [b];
  }

  lemma JoinThree(a: string, b: string, c: string)
    ensures Join([a, b, c]) == a + " " + b + " " + c
  {
    hide Join;
    JoinTwo(b, c);
    assert Join([a, b, c]) == a + " " + Join([b, c]) by { JoinMore(a, [b, c]); assert [a] + [b, c] == [a, b, c]; }
  }

  lemma JoinMore(a: string, ws: seq<string>)
    requires ws != []
    ensures Join([a] + ws) == a + " " + Join(ws)
  {
    assert ([a] + ws)[1..] == ws;
  }

  lemma RejectWords()
    ensures Join(["Reject", "UNAUTHORISED"]) == "Reject UNAUTHORISED" && Join(["Reject", "BALANCE"]) == "Reject BALANCE"
    ensures Solid("Reject") && Solid("UNAUTHORISED") && Solid("BALANCE")
  {
    hide Join;
    JoinTwo("Reject", "UNAUTHORISED");
    JoinTwo("Reject", "BALANCE");
  }

  lemma IntOfNat(n: nat)
    ensures Int(n) == Dec(n)
  {
  }

  lemma {:induction false} JoinHasNoNewline(ws: seq<string>)
    requires forall i :: 0 <= i < |ws| ==> Solid(ws[i])
    ensures '\n' !in Join(ws)
    ensures ws != [] ==> Join(ws) != [] && !IsSpace(Join(ws)[0]) && !IsSpace(Join(ws)[|Join(ws)| - 1])
    decreases |ws|
  {
    if |ws| > 0 {
      assert Solid(ws[0]);
      assert '\n' !in ws[0];
      JoinHasNoNewline(ws[1..]);
    }
  }

  /** Every reply is one line. */
  lemma FormatIsOneLine(r: Reply)
    requires InRange(r)
    ensures IsReplyLine(Format(r))
  {
    FormatIsWords(r);
    JoinHasNoNewline(Words(r));
    assert Format(r)[..|Format(r)| - 1] == Join(Words(r));
  }

  // ------------------------------------------------------- the client's reading

  /** strip_newline */
  function StripNewline(s: string): string {
    if s != [] && (s[|s| - 1] == '\n' || s[|s| - 1] == '\r') then StripNewline(s[..|s| - 1]) else s
  }

  function StripSpaces(s: string): string {
    if s != [] && IsSpace(s[|s| - 1]) then StripSpaces(s[..|s| - 1]) else s
  }

  /** strncpy into a buffer of MAX_RESPONSE_LEN bytes, then strip_newline. */
  function Copy(response: string): string {
    StripNewline(if |response| < MAX_RESPONSE_LEN then response else response[..MAX_RESPONSE_LEN - 1])
  }

  /** display_rpc_response: the text printed. */
  function Display(response: string): string {
    var copy := Copy(response);
    var lead := SkipSpaces(copy);
    Shown(copy[..lead], StripSpaces(copy[lead..]), response)
  }

  /** The text for the trimmed token; lead is the white space before it. */
  function Shown(lead: string, token: string, response: string): string {
    if token == [] then response
    else if token == "-1" then "RPC Failed"
    else if token == "-2" then "Value error"
    else if token == "-3" then "Internal error"
    else
      var ts := Tokens(token, BLANKS);
      // strtok has ended the copy after its first token; the blanks before it are still there
      if ts == [] then lead + token
      else if ts[0] != "0" then lead + ts[0]
      else if |ts| == 1 then "Success"
      else if ts[1] == "-1" then "Data write failed"
      else if ts[1] == "0" then (if |ts| == 2 || ts[2] == "0" then "Success" else "Movie write failed")
      else "Success " + ts[1]
  }

  function CodeMeaning(c: int): string {
    if c == 0 then "Success" else if c == -1 then "RPC Failed" else if c == -2 then "Value error"
    else if c == -3 then "Internal error" else Int(c)
  }

  /** What the user is told, by the meaning of the reply. */
  function Meaning(r: Reply): string {
    match r
    case Code(c) => CodeMeaning(c)
    case Balance(b) => CodeMeaning(b)
    case Value(n) => if n == 0 then "Success" else "Success " + Dec(n)
    case Generated(d, m) =>
      if d == -1 then "Data write failed" else if d != 0 then "Success " + Int(d)
      else if m == 0 then "Success" else "Movie write failed"
    case _ => "Reject"
  }

  lemma IntInjective(i: int, j: int)
    ensures Int(i) == Int(j) ==> i == j
  {
    ScanOfInt(i, []);
    ScanOfInt(j, []);
  }

  lemma SmallInts()
    ensures Int(0) == "0" == Dec(0) && Int(-1) == "-1" && Int(-2) == "-2" && Int(-3) == "-3"
  {
  }

  lemma SolidIsWord(w: string)
    requires Solid(w)
    ensures IsWord(w, BLANKS) && IsWord(w, DELIMS)
  {
    forall i | 0 <= i < |w| ensures w[i] !in BLANKS && w[i] !in DELIMS {
      assert !IsSpace(w[i]);
    }
  }

  /** Stripping and trimming a reply line leave its words. */
  lemma CopyOfWords(ws: seq<string>)
    requires ws != [] && |Join(ws)| + 1 < MAX_RESPONSE_LEN && forall i :: 0 <= i < |ws| ==> Solid(ws[i])
    ensures Copy(Join(ws) + "\n") == Join(ws)
    ensures SkipSpaces(Join(ws)) == 0 && StripSpaces(Join(ws)) == Join(ws) && Join(ws) != []
    ensures Tokens(Join(ws), BLANKS) == ws
  {
    hide Join, Tokens;
    JoinHasNoNewline(ws);
    var s := Join(ws) + "\n";
    assert s[..|s| - 1] == Join(ws);
    assert StripNewline(s) == StripNewline(Join(ws)) == Join(ws);
    forall i | 0 <= i < |ws| ensures IsWord(ws[i], BLANKS) {
      SolidIsWord(ws[i]);
    }
    TokensOfJoin(ws, [], BLANKS);
    assert Join(ws) + [] == Join(ws);
  }

  /** The display of a reply line by its words. */
  function DisplayWords(ws: seq<string>): string
    requires ws != []
  {
    if ws == ["-1"] then "RPC Failed"
    else if ws == ["-2"] then "Value error"
    else if ws == ["-3"] then "Internal error"
    else if ws[0] != "0" then ws[0]
    else if |ws| == 1 then "Success"
    else if ws[1] == "-1" then "Data write failed"
    else if ws[1] == "0" then (if |ws| == 2 || ws[2] == "0" then "Success" else "Movie write failed")
    else "Success " + ws[1]
  }

  lemma DisplayOfWords(ws: seq<string>)
    requires ws != [] && |Join(ws)| + 1 < MAX_RESPONSE_LEN && forall i :: 0 <= i < |ws| ==> Solid(ws[i])
    ensures Display(Join(ws) + "\n") == DisplayWords(ws)
  {
    hide Copy, Tokens, Solid, StripSpaces, SkipSpaces, Join, Shown, DisplayWords;
    CopyOfWords(ws);
    var token := Join(ws);
    assert token[0..] == token && token[..0] == [];
    ShownWords(ws, token + "\n");
  }

  lemma ShownWords(ws: seq<string>, response: string)
    requires ws != [] && Join(ws) != [] && Tokens(Join(ws), BLANKS) == ws
    ensures Shown([], Join(ws), response) == DisplayWords(ws)
  {
    hide Join, Tokens;
    SingleWord(ws, "-1");
    SingleWord(ws, "-2");
    SingleWord(ws, "-3");
    assert [] + ws[0] == ws[0];
  }

  lemma SingleWord(ws: seq<string>, w: string)
    requires ws != [] && ' ' !in w
    ensures Join(ws) == w <==> ws == [w]
  {
    if |ws| > 1 {
      assert Join(ws)[|ws[0]|] == ' ';
    }
  }

  /** The client tells its user what the reply means: every code, every 64-bit value, every generate outcome. */
  lemma DisplayRecovers(r: Reply)
    requires InRange(r)
    ensures Display(Format(r)) == Meaning(r)
  {
    hide Dec, Int, Display, Format, Join, Solid;
    FormatIsWords(r);
    DisplayOfWords(Words(r));
    SmallInts();
    match r
    case Code(c) => CodeWords(c);
    case Balance(b) => CodeWords(b);
    case Value(n) => IntOfNat(n); IntInjective(n, 0); IntInjective(n, -1);
    case Generated(d, m) => IntInjective(d, 0); IntInjective(d, -1); IntInjective(m, 0);
    case _ =>
  }

  lemma CodeWords(c: int)
    ensures DisplayWords([Int(c)]) == CodeMeaning(c)
  {
    hide Dec, Int;
    SmallInts();
    IntInjective(c, 0);
    IntInjective(c, -1);
    IntInjective(c, -2);
    IntInjective(c, -3);
  }

  /** What goes over the pipe, byte for byte, and what the user reads for it. */
  lemma RepliesRead(n: nat, b: int)
    requires 0 < n <= ULLONG_MAX && INT_MIN <= b <= INT_MAX
    ensures Format(Code(0)) == "0\n" && Display("0\n") == "Success"
    ensures Format(Code(-1)) == "-1\n" && Display("-1\n") == "RPC Failed"
    ensures Format(Code(-2)) == "-2\n" && Display("-2\n") == "Value error"
    ensures Format(Code(-3)) == "-3\n" && Display("-3\n") == "Internal error"
    ensures Format(Value(n)) == "0 " + Dec(n) + "\n" && Display("0 " + Dec(n) + "\n") == "Success " + Dec(n)
    ensures Format(Balance(b)) == Int(b) + "\n"
    ensures Format(Generated(0, 0)) == "0 0 0\n" && Display("0 0 0\n") == "Success"
    ensures Format(Generated(-1, 0)) == "0 -1 0\n" && Display("0 -1 0\n") == "Data write failed"
    ensures Format(Generated(0, -1)) == "0 0 -1\n" && Display("0 0 -1\n") == "Movie write failed"
    ensures Format(RejectUnauthorised) == "Reject UNAUTHORISED\n" && Format(RejectBalance) == "Reject BALANCE\n"
  {
    hide Dec, Int, Display, Format, Join, Solid;
    SmallInts();
    IntOfNat(n);
    FormatIsWords(Value(n));
    JoinTwo("0", Dec(n));
    DisplayRecovers(Value(n));
    FormatIsWords(Balance(b));
    JoinOne(Int(b));
    CodeRead(0);
    CodeRead(-1);
    CodeRead(-2);
    CodeRead(-3);
    GeneratedRead(0, 0);
    GeneratedRead(-1, 0);
    GeneratedRead(0, -1);
    FormatIsWords(RejectUnauthorised);
    FormatIsWords(RejectBalance);
    RejectWords();
  }

  lemma CodeRead(c: int)
    requires INT_MIN <= c <= INT_MAX
    ensures Format(Code(c)) == Int(c) + "\n" && Display(Int(c) + "\n") == CodeMeaning(c)
  {
    hide Int, Display, Format, Join;
    FormatIsWords(Code(c));
    JoinOne(Int(c));
    DisplayRecovers(Code(c));
  }

  lemma GeneratedRead(d: int, m: int)
    requires INT_MIN <= d <= INT_MAX && INT_MIN <= m <= INT_MAX
    ensures Format(Generated(d, m)) == "0 " + Int(d) + " " + Int(m) + "\n"
    ensures Display("0 " + Int(d) + " " + Int(m) + "\n") == Meaning(Generated(d, m))
  {
    hide Int, Display, Format, Join, Meaning;
    FormatIsWords(Generated(d, m));
    JoinThree("0", Int(d), Int(m));
    DisplayRecovers(Generated(d, m));
  }

  /** The replies the server sends to requests other than Login. */
  predicate IsRpcReply(r: Reply) {
    match r
    case Code(c) => c in {0, -1, -2, -3}
    case Value(n) => n <= ULLONG_MAX
    case Generated(d, m) => (d, m) in {(0, 0), (0, -1), (-1, 0)}
    case _ => false
  }

  predicate IsSuccess(r: Reply) {
    r == Code(0) || r == Value(0) || r == Generated(0, 0)
  }

  /** The user can tell any two replies apart, except the three that all say plain success. */
  lemma DisplaysDiffer(a: Reply, b: Reply)
    requires IsRpcReply(a) && IsRpcReply(b)
    ensures Display(Format(a)) == Display(Format(b)) <==> a == b || (IsSuccess(a) && IsSuccess(b))
  {
    hide Dec, Int, Display, Format;
    DisplayRecovers(a);
    DisplayRecovers(b);
    MeaningOfRpcReply(a);
    MeaningOfRpcReply(b);
    if a.Value? && b.Value? {
      SuccessInjective(a.value, b.value);
    }
  }

  lemma SuccessInjective(m: nat, n: nat)
    ensures "Success " + Dec(m) == "Success " + Dec(n) ==> m == n
  {
    hide Dec, Text.Value;
    ValueOfDec(m);
    ValueOfDec(n);
    assert ("Success " + Dec(m))[8..] == Dec(m) && ("Success " + Dec(n))[8..] == Dec(n);
  }

  lemma MeaningOfRpcReply(r: Reply)
    requires IsRpcReply(r)
    ensures |Meaning(r)| > 8 && Meaning(r)[7] == ' ' <==> r.Value? && r.value > 0
  {
    hide Dec;
    assert Dec(if r.Value? then r.value else 0) != [];
  }

  // -------------------------------------------------------------------- requests

  /** Words a client writes on one line are the tokens the server works with. */
  lemma RequestRoundTrip(words: seq<string>)
    requires forall i :: 0 <= i < |words| ==> Solid(words[i])
    ensures Tokens(Join(words) + "\n", DELIMS) == words
  {
    hide Join, Tokens, Solid, IsWord;
    forall i | 0 <= i < |words| ensures IsWord(words[i], DELIMS) {
      SolidIsWord(words[i]);
    }
    TokensOfJoin(words, "\n", DELIMS);
  }

  /** s is white space, at most one sign and decimal digits in range, and does not start with a minus. */
  predicate Numeric(s: string, spaces: string, sign: string, digits: string) {
    && s == spaces + sign + digits && !("-" <= s)
    && (forall i :: 0 <= i < |spaces| ==> IsSpace(spaces[i]))
    && (sign == "" || sign == "+" || sign == "-")
    && digits != [] && AllDigits(digits) && Text.Value(digits) <= ULLONG_MAX
  }

  lemma SpacesEnd(spaces: string, t: string)
    requires (forall i :: 0 <= i < |spaces| ==> IsSpace(spaces[i])) && t != [] && !IsSpace(t[0])
    ensures SkipSpaces(spaces + t) == |spaces| && (spaces + t)[|spaces|..] == t
  {
    var s := spaces + t;
    assert s[|spaces|] == t[0];
    assert forall k :: 0 <= k < |spaces| ==> s[k] == spaces[k];
  }

  lemma SignedScan(sign: string, digits: string)
    requires (sign == "" || sign == "+" || sign == "-") && digits != [] && AllDigits(digits)
    ensures var t := sign + digits;
            && !IsSpace(t[0]) && t[|sign|..] == digits
            && (t[0] == '-' <==> sign == "-") && (t[0] == '-' || t[0] == '+' <==> sign != "")
    ensures ScanDigits(digits, sign == "-") == Some(Numeral(sign == "-", Text.Value(digits), []))
  {
    hide Text.Value;
    assert IsDigit(digits[0]);
    SkipAllDigits(digits, []);
    assert digits + [] == digits && digits[..|digits|] == digits && digits[|digits|..] == [];
  }

  lemma NumericParses(s: string, spaces: string, sign: string, digits: string)
    requires Numeric(s, spaces, sign, digits)
    ensures var v := Text.Value(digits); ParseU64(s) == Some(if sign == "-" && v > 0 then ULLONG_MAX + 1 - v else v)
  {
    hide Text.Value, SkipSpaces, ScanDigits, IsSpace, AllDigits;
    SignedScan(sign, digits);
    SpacesEnd(spaces, sign + digits);
    assert s == spaces + (sign + digits);
    assert (sign + digits)[0..] == sign + digits;
  }

  lemma ParsedIsNumeric(s: string)
    requires ParseU64(s).Some?
    ensures exists spaces, sign, digits :: Numeric(s, spaces, sign, digits)
  {
    hide Text.Value, SkipSpaces, SkipDigits, IsSpace;
    var n := SkipSpaces(s);
    var t := s[n..];
    var m := if t[0] == '-' || t[0] == '+' then 1 else 0;
    var digits := t[m..];
    assert |digits[SkipDigits(digits)..]| == 0 && digits[..|digits|] == digits;
    assert s == s[..n] + t[..m] + digits;
    assert Numeric(s, s[..n], t[..m], digits);
  }

  /**
   * Which strings the server takes for 64-bit numbers, and for which: decimal digits
   * in range, after white space and at most one sign. A minus that white space hides
   * from the check of the first character counts down from 2^64.
   */
  lemma U64Tokens(s: string)
    ensures ParseU64(s).Some? <==> exists spaces, sign, digits :: Numeric(s, spaces, sign, digits)
    ensures forall spaces, sign, digits :: Numeric(s, spaces, sign, digits) ==>
              var v := Text.Value(digits); ParseU64(s) == Some(if sign == "-" && v > 0 then ULLONG_MAX + 1 - v else v)
  {
    hide Text.Value, ParseU64;
    forall spaces, sign, digits | Numeric(s, spaces, sign, digits)
      ensures var v := Text.Value(digits); ParseU64(s) == Some(if sign == "-" && v > 0 then ULLONG_MAX + 1 - v else v)
    {
      NumericParses(s, spaces, sign, digits);
    }
    if ParseU64(s).Some? {
      ParsedIsNumeric(s);
    }
  }

  /** Such a minus reaches the server, as the strtok call does not cut at a vertical tab. */
  lemma MinusBehindSpace()
    ensures Tokens("\U{0B}-5", DELIMS) == ["\U{0B}-5"]
    ensures ParseU64("\U{0B}-5") == Some(ULLONG_MAX - 4)
  {
    hide ParseU64, Tokens, Text.Value;
    var s := "\U{0B}-5";
    TokensWord(s, [], DELIMS);
    TokensNone([], DELIMS);
    assert s + [] == s && s == "\U{0B}" + "-" + "5" && s[0] == '\U{0B}';
    ValueOfDec(5);
    assert Dec(5) == "5";
    NumericParses(s, "\U{0B}", "-", "5");
  }

  // ----------------------------------------------------------------------- login

  predicate WellFormedLogin(tokens: seq<string>) {
    |tokens| == 2 && ValidUsername(tokens[1])
  }

  predicate Welcome(tokens: seq<string>, table: map<string, int>) {
    WellFormedLogin(tokens) && tokens[1] in table && table[tokens[1]] > 0
  }

  /** The server's answer to a Login request, and whether the client is logged in there afterwards: a refusal leaves that as it was. */
  function ServerLogin(was: bool, tokens: seq<string>, table: map<string, int>): (Reply, bool) {
    if |tokens| != 2 || !ValidUsername(tokens[1]) then (Code(-1), was)
    else if tokens[1] !in table then (RejectUnauthorised, was)
    else if table[tokens[1]] <= 0 then (RejectBalance, was)
    else (Balance(table[tokens[1]]), true)
  }

  datatype LoginOutcome = Rejected(text: string) | LoggedIn(balance: int) | Unclear(text: string)

  /** What the client makes of the reply to its Login. */
  function ReadLogin(response: string): LoginOutcome {
    var display := Copy(response);
    if "Reject" <= display then Rejected(display)
    else
      match ParseLong(display)
      case Some(balance) => LoggedIn(balance)
      case None => Unclear(display)
  }

  /** A text that starts with "Reject" is a rejection; of the others a number is a balance, whatever comes of it. */
  lemma ReadLoginIs(text: string, b: int)
    requires |text| < 4095 && (text != [] ==> text[|text| - 1] != '\n' && text[|text| - 1] != '\r') && LONG_MIN <= b <= LONG_MAX
    ensures ReadLogin(text + "\n").Rejected? <==> |text| >= 6 && text[..6] == "Reject"
    ensures ReadLogin(text + "\n").Rejected? ==> ReadLogin(text + "\n").text == text
    ensures text == Int(b) ==> ReadLogin(text + "\n") == LoggedIn(b)
  {
    hide ParseLong, Int;
    assert (text + "\n")[..|text|] == text && StripNewline(text) == text;
    assert Copy(text + "\n") == text;
    LongRoundTrip(b);
    IntStartsWithNumber(b);
  }

  /** Does the client hold itself logged in after this answer? Rejected, it leaves. */
  predicate Believes(was: bool, response: string) {
    match ReadLogin(response)
    case LoggedIn(_) => true
    case Rejected(_) => false
    case Unclear(_) => was
  }

  /** The client's reading of every possible answer to a Login. */
  lemma LoginRead(r: Reply)
    requires InRange(r) && !r.Value? && !r.Generated?
    ensures ReadLogin(Format(r)) == match r
                                    case Balance(b) => LoggedIn(b)
                                    case Code(c) => LoggedIn(c)
                                    case RejectUnauthorised => Rejected("Reject UNAUTHORISED")
                                    case _ => Rejected("Reject BALANCE")
  {
    hide Dec, Int, Format, Copy, Solid, Join, ParseLong, Tokens, StripSpaces, SkipSpaces;
    FormatIsWords(r);
    CopyOfWords(Words(r));
    match r
    case Balance(b) => NumberIsNoReject(b); JoinOne(Int(b));
    case Code(c) => NumberIsNoReject(c); JoinOne(Int(c));
    case RejectUnauthorised => RejectWords(); assert "Reject" <= "Reject UNAUTHORISED";
    case RejectBalance => RejectWords(); assert "Reject" <= "Reject BALANCE";
  }

  lemma NumberIsNoReject(i: int)
    requires INT_MIN <= i <= INT_MAX
    ensures ParseLong(Int(i)) == Some(i) && !("Reject" <= Int(i))
  {
    LongRoundTrip(i);
    IntStartsWithNumber(i);
  }

  lemma IntStartsWithNumber(i: int)
    ensures Int(i) != [] && Int(i)[0] != 'R'
  {
    hide Dec;
    assert IsDigit(Dec(if i < 0 then -i else i)[0]);
  }

  /**
   * What a Login brings its user, by the conditions on the name, the table and the
   * balance: which refusal comes when, and that only a welcome logs the client in
   * at the server.
   */
  lemma LoginAnswered(was: bool, tokens: seq<string>, table: map<string, int>)
    requires forall name :: name in table ==> INT_MIN <= table[name] <= INT_MAX
    ensures var (r, now) := ServerLogin(was, tokens, table);
            var read := ReadLogin(Format(r));
            var named := |tokens| == 2 && 0 < |tokens[1]| <= 32
                         && forall i :: 0 <= i < |tokens[1]| ==>
                              '0' <= tokens[1][i] <= '9' || 'A' <= tokens[1][i] <= 'Z' || 'a' <= tokens[1][i] <= 'z';
            && (!named <==> read == LoggedIn(-1))
            && (read == Rejected("Reject UNAUTHORISED") <==> named && tokens[1] !in table)
            && (read == Rejected("Reject BALANCE") <==> named && tokens[1] in table && table[tokens[1]] <= 0)
            && (forall b :: b > 0 ==> (read == LoggedIn(b) <==> named && tokens[1] in table && table[tokens[1]] == b))
            && (now <==> was || (named && tokens[1] in table && table[tokens[1]] > 0))
  {
    hide ReadLogin, Format;
    LoginRead(ServerLogin(was, tokens, table).0);
  }

  /**
   * When client and server agree on whether the client is logged in, whatever
   * either held before: a malformed Login, refused with -1, is taken by the client
   * for a balance of -1, so they agree exactly if the server had it logged in; a
   * rejected one makes the client leave, so they agree exactly if the server had
   * not; a welcome one always agrees, and its balance arrives as it was sent.
   */
  lemma LoginAgreesIff(server: bool, client: bool, tokens: seq<string>, table: map<string, int>)
    requires forall name :: name in table ==> INT_MIN <= table[name] <= INT_MAX
    ensures var (r, now) := ServerLogin(server, tokens, table);
            && ((Believes(client, Format(r)) <==> now)
                <==> if WellFormedLogin(tokens) then Welcome(tokens, table) || !server else server)
            && (Welcome(tokens, table) ==> ReadLogin(Format(r)) == LoggedIn(table[tokens[1]]))
            && (now <==> server || Welcome(tokens, table))
  {
    hide ReadLogin, Format, ValidUsername;
    LoginRead(ServerLogin(server, tokens, table).0);
  }

  /** For instance a first Login without a name: nobody is logged in, the client believes otherwise. */
  lemma NamelessLoginMisread(table: map<string, int>)
    ensures ServerLogin(false, ["Login"], table) == (Code(-1), false) && Believes(false, Format(Code(-1)))
  {
    LoginRead(Code(-1));
  }

  /** For instance a second Login by an unknown user: the client leaves, the server keeps it logged in as the first user. */
  lemma SecondLoginMisread(name: string, table: map<string, int>)
    requires ValidUsername(name) && name !in table
    ensures ServerLogin(true, ["Login", name], table) == (RejectUnauthorised, true) && !Believes(true, Format(RejectUnauthorised))
  {
    LoginRead(RejectUnauthorised);
  }
}
