/** The C library text routines the wire format rests on: decimal output, strtoull, strtol, strtok. */
module Text {
  import opened Sequences

  // ---------------------------------------------------------------- decimals

  function Digit(d: nat): char
    requires d < 10
  {
    ['0', '1', '2', '3', '4', '5', '6', '7', '8', '9'][d]
  }

  predicate IsDigit(c: char) {
    '0' <= c <= '9'
  }

  function DigitValue(c: char): (d: nat)
    requires IsDigit(c)
    ensures d < 10 && Digit(d) == c
  {
    c as int - '0' as int
  }

  /** printf %llu */
  function Dec(n: nat): (s: string)
    ensures s != [] && AllDigits(s)
  {
    if n < 10 then [Digit(n)] else Dec(n / 10) + [Digit(n % 10)]
  }

  /** printf %d */
  function Int(i: int): string {
    if i < 0 then ['-'] + Dec(-i) else Dec(i)
  }

  predicate AllDigits(s: string) {
    forall i :: 0 <= i < |s| ==> IsDigit(s[i])
  }

  function Value(s: string): nat
    requires AllDigits(s)
  {
    if s == [] then 0 else 10 * Value(s[..|s| - 1]) + DigitValue(s[|s| - 1])
  }

  lemma {:induction false} ValueOfDec(n: nat)
    ensures Value(Dec(n)) == n
  {
    if n < 10 {
      assert Dec(n)[..0] == [];
    } else {
      ValueOfDec(n / 10);
      var s := Dec(n);
      assert s[..|s| - 1] == Dec(n / 10);
    }
  }

  function Pow10(k: nat): nat {
    if k == 0 then 1 else 10 * Pow10(k - 1)
  }

  lemma {:induction false} DecLength(n: nat, k: nat)
    requires k > 0 && n < Pow10(k)
    ensures |Dec(n)| <= k
    decreases k
  {
    if n >= 10 {
      assert k > 1;
      DecLength(n / 10, k - 1);
    }
  }

  const ULLONG_MAX: nat := 0xFFFF_FFFF_FFFF_FFFF
  const LONG_MAX: int := 0x7FFF_FFFF_FFFF_FFFF
  const LONG_MIN: int := -0x8000_0000_0000_0000

  lemma U64Length(n: nat)
    requires n <= ULLONG_MAX
    ensures |Dec(n)| <= 20
  {
    assert Pow10(5) == 100000;
    assert Pow10(10) == 100000 * 100000;
    assert Pow10(15) == 100000 * 100000 * 100000;
    assert Pow10(20) == 100000 * 100000 * 100000 * 100000;
    DecLength(n, 20);
  }

  // ---------------------------------------------------------- strtoull, strtol

  predicate IsSpace(c: char) {
    c == ' ' || c == '\t' || c == '\n' || c == '\r' || c == '\U{0B}' || c == '\U{0C}'
  }

  /** How many leading characters are white space. */
  function SkipSpaces(s: string): (i: nat)
    ensures i <= |s|
    ensures forall k :: 0 <= k < i ==> IsSpace(s[k])
    ensures i < |s| ==> !IsSpace(s[i])
  {
    if s == [] || !IsSpace(s[0]) then 0
    else
      var i := SkipSpaces(s[1..]);
      assert forall k :: 1 <= k < i + 1 ==> s[k] == s[1..][k - 1];
      1 + i
  }

  function SkipDigits(s: string): (i: nat)
    ensures i <= |s| && AllDigits(s[..i])
  {
    if s == [] || !IsDigit(s[0]) then 0
    else
      var i := SkipDigits(s[1..]);
      assert forall k :: 1 <= k < i + 1 ==> s[k] == s[1..][..i][k - 1];
      1 + i
  }

  /** What strtol and strtoull see: the sign, the magnitude, and what is left; none if there are no digits. */
  datatype Numeral = Numeral(negative: bool, magnitude: nat, left: string)

  function ScanNumeral(s: string): Option<Numeral> {
    var t := s[SkipSpaces(s)..];
    if t != [] && (t[0] == '-' || t[0] == '+') then ScanDigits(t[1..], t[0] == '-') else ScanDigits(t, false)
  }

  function ScanDigits(s: string, negative: bool): Option<Numeral> {
    var d := SkipDigits(s);
    if d == 0 then None else Some(Numeral(negative, Value(s[..d]), s[d..]))
  }

  /** parse_u64: strtoull on a string that does not start with a minus and is used up entirely. */
  function ParseU64(s: string): Option<nat> {
    if s != [] && s[0] == '-' then None
    else
      match ScanNumeral(s)
      case None => None
      case Some(Numeral(negative, magnitude, left)) =>
        if left != [] || magnitude > ULLONG_MAX then None
        else if negative && magnitude > 0 then Some(ULLONG_MAX + 1 - magnitude) else Some(magnitude)
  }

  function SkipBlanks(s: string): (i: nat)
    ensures i <= |s|
  {
    if s == [] || (s[0] != ' ' && s[0] != '\t') then 0 else 1 + SkipBlanks(s[1..])
  }

  /** strtol followed by a check that only blanks are left. */
  function ParseLong(s: string): Option<int> {
    match ScanNumeral(s)
    case None => None
    case Some(Numeral(negative, magnitude, left)) =>
      var value := (if negative then -1 else 1) * magnitude;
      if SkipBlanks(left) == |left| && LONG_MIN <= value <= LONG_MAX then Some(value) else None
  }

  lemma {:induction false} SkipAllDigits(s: string, rest: string)
    requires AllDigits(s) && (rest == [] || !IsDigit(rest[0]))
    ensures SkipDigits(s + rest) == |s|
  {
    if s == [] {
      assert s + rest == rest;
    } else {
      assert (s + rest)[1..] == s[1..] + rest;
      SkipAllDigits(s[1..], rest);
    }
  }

  lemma ScanOfDec(n: nat, rest: string, negative: bool)
    requires rest == [] || !IsDigit(rest[0])
    ensures ScanDigits(Dec(n) + rest, negative) == Some(Numeral(negative, n, rest))
  {
    hide Dec, Value, SkipDigits;
    var digits := Dec(n);
    ValueOfDec(n);
    SkipAllDigits(digits, rest);
    assert (digits + rest)[..|digits|] == digits && (digits + rest)[|digits|..] == rest;
  }

  /** A printed number is scanned back, whatever non-digit follows. */
  lemma ScanOfInt(i: int, rest: string)
    requires rest == [] || !IsDigit(rest[0])
    ensures ScanNumeral(Int(i) + rest) == Some(Numeral(i < 0, if i < 0 then -i else i, rest))
  {
    hide Dec, ScanDigits;
    var n := if i < 0 then -i else i;
    var s := Int(i) + rest;
    ScanOfDec(n, rest, i < 0);
    assert IsDigit(Dec(n)[0]);
    if i < 0 {
      assert s[0] == '-' && s[1..] == Dec(n) + rest;
    } else {
      assert s == Dec(n) + rest && s[0] == Dec(n)[0];
    }
    assert SkipSpaces(s) == 0 && s[0..] == s;
  }

  /** parse_u64 recovers exactly the printed numbers that fit 64 bits. */
  lemma U64RoundTrip(n: nat)
    ensures ParseU64(Dec(n)) == if n <= ULLONG_MAX then Some(n) else None
  {
    ScanOfInt(n, []);
    assert Int(n) + [] == Dec(n);
    assert IsDigit(Dec(n)[0]);
  }

  lemma LongRoundTrip(i: int)
    ensures ParseLong(Int(i)) == if LONG_MIN <= i <= LONG_MAX then Some(i) else None
  {
    ScanOfInt(i, []);
    assert Int(i) + [] == Int(i);
  }

  // ------------------------------------------------------------------- strtok

  predicate Clean(s: string, delims: string) {
    forall i :: 0 <= i < |s| ==> s[i] !in delims
  }

  /** How many leading characters are (not) delimiters. */
  function Span(s: string, delims: string, inside: bool): (i: nat)
    ensures i <= |s|
    ensures forall k :: 0 <= k < i ==> (s[k] in delims <==> inside)
    ensures i < |s| ==> (s[i] in delims <==> !inside)
  {
    if s == [] || (s[0] in delims) != inside then 0
    else
      var i := Span(s[1..], delims, inside);
      assert forall k :: 1 <= k < i + 1 ==> s[k] == s[1..][k - 1];
      1 + i
  }

  /** The tokens strtok_r yields: the maximal runs of characters that are no delimiters. */
  function Tokens(s: string, delims: string): seq<string>
    decreases |s|
  {
    var t := s[Span(s, delims, true)..];
    if t == [] then []
    else
      var n := Span(t, delims, false);
      assert n > 0;
      [t[..n]] + Tokens(t[n..], delims)
  }

  lemma SpanIs(s: string, delims: string, inside: bool, n: nat)
    requires n <= |s| && (forall k :: 0 <= k < n ==> (s[k] in delims <==> inside))
    requires n < |s| ==> (s[n] in delims <==> !inside)
    ensures Span(s, delims, inside) == n
  {
  }

  /** A delimiter in front is skipped. */
  lemma TokensSkip(c: char, s: string, delims: string)
    requires c in delims
    ensures Tokens([c] + s, delims) == Tokens(s, delims)
  {
    hide Span;
    var n := Span(s, delims, true);
    SpanIs([c] + s, delims, true, n + 1);
    assert ([c] + s)[n + 1..] == s[n..];
  }

  predicate IsWord(w: string, delims: string) {
    w != [] && Clean(w, delims)
  }

  /** A word in front, before a delimiter or the end, is the first token. */
  lemma TokensWord(w: string, rest: string, delims: string)
    requires IsWord(w, delims) && (rest == [] || rest[0] in delims)
    ensures Tokens(w + rest, delims) == [w] + Tokens(rest, delims)
  {
    hide Span;
    var s := w + rest;
    SpanIs(s, delims, true, 0);
    SpanIs(s, delims, false, |w|);
    assert s[0..] == s && s[..|w|] == w && s[|w|..] == rest;
  }

  lemma TokensNone(s: string, delims: string)
    requires forall i :: 0 <= i < |s| ==> s[i] in delims
    ensures Tokens(s, delims) == []
  {
    SpanIs(s, delims, true, |s|);
  }

  /** The words with a blank after each but the last. */
  function Join(words: seq<string>): string {
    if words == [] then [] else if |words| == 1 then words[0] else words[0] + [' '] + Join(words[1..])
  }

  /** Words written with blanks between them and an end that is all delimiters come back as they were. */
  lemma {:induction false} TokensOfJoin(words: seq<string>, tail: string, delims: string)
    requires ' ' in delims && (forall i :: 0 <= i < |words| ==> IsWord(words[i], delims))
    requires forall i :: 0 <= i < |tail| ==> tail[i] in delims
    ensures Tokens(Join(words) + tail, delims) == words
    decreases |words|
  {
    hide Span, Tokens, IsWord;
    if words == [] {
      assert Join(words) + tail == tail;
      TokensNone(tail, delims);
    } else if |words| == 1 {
      TokensWord(words[0], tail, delims);
      TokensNone(tail, delims);
    } else {
      var rest := Join(words[1..]) + tail;
      assert Join(words) + tail == words[0] + ([' '] + rest);
      TokensWord(words[0], [' '] + rest, delims);
      TokensSkip(' ', rest, delims);
      TokensOfJoin(words[1..], tail, delims);
    }
  }

  /** The inner scans of strtok_r: over the delimiters, or over a token. */
  method Scan(line: string, at: nat, delims: string, inside: bool) returns (to: nat)
    requires at <= |line|
    ensures to == at + Span(line[at..], delims, inside)
  {
    to := at;
    while to < |line| && (line[to] in delims) == inside
      invariant at <= to <= |line|
      invariant forall k :: at <= k < to ==> (line[k] in delims <==> inside)
    {
      to := to + 1;
    }
    SpanIs(line[at..], delims, inside, to - at);
  }

  /** One strtok_r call. */
  lemma TokensNext(line: string, at: nat, from: nat, to: nat, delims: string)
    requires at <= |line| && from == at + Span(line[at..], delims, true)
    requires to == from + Span(line[from..], delims, false)
    ensures from == |line| ==> Tokens(line[at..], delims) == []
    ensures from < |line| ==> from < to && Tokens(line[at..], delims) == [line[from..to]] + Tokens(line[to..], delims)
  {
    hide Tokens, Span;
    DropDrop(line, at, from - at);
    DropDrop(line, from, to - from);
    TokensUnfold(line[at..], line[from..], delims);
  }

  lemma TokensUnfold(s: string, t: string, delims: string)
    requires t == s[Span(s, delims, true)..]
    ensures t == [] ==> Tokens(s, delims) == []
    ensures t != [] ==> var n := Span(t, delims, false);
                        n > 0 && Tokens(s, delims) == [t[..n]] + Tokens(t[n..], delims)
  {
  }

  /**
   * tokenize: the strtok_r loop with room for `max` tokens. One token too many
   * shows as overflow.
   */
  method Tokenize(line: string, delims: string, max: nat) returns (tokens: seq<string>, overflow: bool)
    ensures overflow <==> |Tokens(line, delims)| > max
    ensures tokens == if overflow then Tokens(line, delims)[..max] else Tokens(line, delims)
  {
    hide Span, Tokens;
    tokens := [];
    var at: nat := 0;
    assert line[0..] == line;
    while true
      invariant 0 <= at <= |line| && |tokens| <= max
      invariant Tokens(line, delims) == tokens + Tokens(line[at..], delims)
      decreases |line| - at
    {
      var from := Scan(line, at, delims, true);
      if from == |line| {
        TokensNext(line, at, from, from, delims);
        return tokens, false;
      }
      var to := Scan(line, from, delims, false);
      var token := line[from..to];
      TokensNext(line, at, from, to, delims);
      assert Tokens(line, delims) == tokens + [token] + Tokens(line[to..], delims);
      if |tokens| == max {
        return tokens, true;
      }
      tokens := tokens + [token];
      at := to;
    }
  }
}
