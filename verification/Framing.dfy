/**
 * Line framing: the server's 4096-byte read buffer, compacted in place, against a
 * framer that takes one byte at a time.
 */
module Framing {
  import opened Sequences

  const CAPACITY: nat := 4096

  /** The lines submitted so far and the bytes not yet part of a line. */
  datatype Framed = Framed(lines: seq<string>, rest: string)

  /** A full rest is submitted as it is. */
  function Flush(f: Framed): Framed {
    if |f.rest| == CAPACITY then Framed(f.lines + [f.rest], []) else f
  }

  /** The reference framer: a line ends at a newline or at 4096 bytes. */
  function FeedByte(f: Framed, c: char): Framed {
    if c == '\n' then Framed(f.lines + [f.rest + [c]], []) else Flush(Framed(f.lines, f.rest + [c]))
  }

  function Feed(f: Framed, input: string): Framed
    decreases |input|
  {
    if input == [] then f else Feed(FeedByte(f, input[0]), input[1..])
  }

  // ------------------------------------------------------ the reference framer

  lemma {:induction false} FeedAppend(f: Framed, a: string, b: string)
    ensures Feed(f, a + b) == Feed(Feed(f, a), b)
    decreases |a|
  {
    if a == [] {
      assert a + b == b;
    } else {
      assert (a + b)[0] == a[0] && (a + b)[1..] == a[1..] + b;
      FeedAppend(FeedByte(f, a[0]), a[1..], b);
    }
  }

  lemma FeedOne(f: Framed, c: char)
    ensures Feed(f, [c]) == FeedByte(f, c)
  {
    assert [c][1..] == [];
  }

  /** The framer taking its input chunk by chunk. */
  function FeedChunks(f: Framed, chunks: seq<string>): Framed
    decreases |chunks|
  {
    if chunks == [] then f else FeedChunks(Feed(f, chunks[0]), chunks[1..])
  }

  /** Chunking is immaterial: only the bytes count, so any two splittings of the same bytes agree. */
  lemma {:induction false} ChunkingIsImmaterial(f: Framed, chunks: seq<string>)
    ensures FeedChunks(f, chunks) == Feed(f, Flatten(chunks))
    decreases |chunks|
  {
    if chunks != [] {
      FeedAppend(f, chunks[0], Flatten(chunks[1..]));
      ChunkingIsImmaterial(Feed(f, chunks[0]), chunks[1..]);
    }
  }

  predicate Unfinished(s: string) {
    |s| < 4096 && '\n' !in s
  }

  /** A submitted line is at most 4096 bytes, has a newline at most at its end, and lacks one only if it is full. */
  predicate IsLine(s: string) {
    && 0 < |s| <= 4096
    && (forall i :: 0 <= i < |s| - 1 ==> s[i] != '\n')
    && (s[|s| - 1] == '\n' || |s| == 4096)
  }

  /** Framing loses, adds and reorders nothing, and cuts only where it should. */
  lemma {:induction false} FeedConserves(f: Framed, input: string)
    requires Unfinished(f.rest) && forall l :: l in f.lines ==> IsLine(l)
    ensures var g := Feed(f, input);
            && Flatten(g.lines) + g.rest == Flatten(f.lines) + f.rest + input
            && Unfinished(g.rest) && f.lines <= g.lines
            && forall l :: l in g.lines ==> IsLine(l)
    decreases |input|
  {
    if input == [] {
      assert Flatten(f.lines) + f.rest + input == Flatten(f.lines) + f.rest;
    } else {
      var g := FeedByte(f, input[0]);
      var line := f.rest + [input[0]];
      FlattenAppend(f.lines, [line]);
      FlattenSingle(line);
      assert Flatten(g.lines) + g.rest == Flatten(f.lines) + f.rest + [input[0]];
      FeedConserves(g, input[1..]);
      assert Flatten(f.lines) + f.rest + input == Flatten(f.lines) + f.rest + [input[0]] + input[1..];
    }
  }

  function Newlines(s: string): nat {
    if s == [] then 0 else (if s[0] == '\n' then 1 else 0) + Newlines(s[1..])
  }

  /** Each line takes a newline of the input or 4096 of its bytes. */
  lemma {:induction false} FeedCount(f: Framed, input: string)
    requires |f.rest| < 4096
    ensures var g := Feed(f, input);
            |f.lines| <= |g.lines| && 4096 * (|g.lines| - |f.lines| - Newlines(input)) + |g.rest| <= |f.rest| + |input|
            && |g.rest| < 4096
    decreases |input|
  {
    if input != [] {
      FeedCount(FeedByte(f, input[0]), input[1..]);
    }
  }

  lemma {:induction false} NewlinesAppend(a: string, b: string)
    ensures Newlines(a + b) == Newlines(a) + Newlines(b)
  {
    if a == [] {
      assert a + b == b;
    } else {
      assert (a + b)[1..] == a[1..] + b;
      NewlinesAppend(a[1..], b);
    }
  }

  lemma {:induction false} NoNewlines(a: string)
    requires '\n' !in a
    ensures Newlines(a) == 0
  {
    if a != [] {
      NoNewlines(a[1..]);
    }
  }

  /** Feeding bytes that stay below the limit and hold no newline only lengthens the rest. */
  lemma {:induction false} FeedQuiet(f: Framed, input: string)
    requires Unfinished(f.rest + input)
    ensures Feed(f, input) == Framed(f.lines, f.rest + input)
    decreases |input|
  {
    if input == [] {
      assert f.rest + input == f.rest;
    } else {
      assert f.rest + input == f.rest + [input[0]] + input[1..];
      assert input[0] in f.rest + input;
      FeedQuiet(FeedByte(f, input[0]), input[1..]);
    }
  }

  /** A client's lines, each with its newline at the end only, are framed as they were sent. */
  lemma {:induction false} LinesFramedOneByOne(done: seq<string>, lines: seq<string>)
    requires forall l :: l in lines ==> 0 < |l| <= 4096 && l[|l| - 1] == '\n' && '\n' !in l[..|l| - 1]
    ensures Feed(Framed(done, []), Flatten(lines)) == Framed(done + lines, [])
    decreases |lines|
  {
    if lines == [] {
      assert done + lines == done;
    } else {
      hide Feed, FeedByte;
      var line := lines[0];
      assert line in lines;
      FeedAppend(Framed(done, []), line, Flatten(lines[1..]));
      FeedLine(done, line);
      LinesFramedOneByOne(done + [line], lines[1..]);
      assert done + [line] + lines[1..] == done + lines;
    }
  }

  lemma FeedLine(done: seq<string>, line: string)
    requires 0 < |line| <= 4096 && line[|line| - 1] == '\n' && '\n' !in line[..|line| - 1]
    ensures Feed(Framed(done, []), line) == Framed(done + [line], [])
  {
    hide Feed;
    var body := line[..|line| - 1];
    assert line == body + ['\n'] && [] + body == body;
    FeedAppend(Framed(done, []), body, ['\n']);
    FeedQuiet(Framed(done, []), body);
    FeedOne(Framed(done, body), '\n');
  }

  // --------------------------------------------------------- the read buffer

  class LineReader {
    const buffer: array<char>
    var readLen: nat
    /** Lines handed to threadpool_submit, in order. */
    var submitted: seq<string>
    /** Bytes in the pipe that have not been read yet. */
    var incoming: string

    ghost predicate Valid()
      reads this, buffer
    {
      buffer.Length == CAPACITY && readLen <= CAPACITY
    }

    /** Between reads no newline is buffered and there is room, so read(2) is never asked for zero bytes. */
    ghost predicate Settled()
      reads this, buffer
    {
      Valid() && Unfinished(buffer[..readLen])
    }

    ghost function View(): Framed
      requires Valid()
      reads this, buffer
    {
      Framed(submitted, buffer[..readLen])
    }

    constructor (bytes: string)
      ensures Settled() && View() == Framed([], []) && incoming == bytes && fresh(buffer)
    {
      buffer := new char[CAPACITY](_ => ' ');
      readLen, submitted, incoming := 0, [], bytes;
    }

    method SubmitLine(start: nat, len: nat)
      requires Valid() && start + len <= CAPACITY
      modifies this`submitted
      ensures submitted == old(submitted) + [buffer[start..start + len]]
    {
      submitted := submitted + [buffer[start..start + len]];
    }

    /** memmove to the front of the buffer. */
    method Compact(start: nat)
      requires Valid() && 0 < start <= readLen
      modifies buffer, this`readLen
      ensures Valid() && readLen == old(readLen) - start
      ensures buffer[..readLen] == old(buffer[start..readLen])
    {
      var k := 0;
      while k < readLen - start
        invariant k <= readLen - start
        invariant forall x :: 0 <= x < k ==> buffer[x] == old(buffer[start + x])
        invariant forall x :: k <= x < CAPACITY ==> buffer[x] == old(buffer[x])
        modifies buffer
      {
        buffer[k] := buffer[start + k];
        k := k + 1;
      }
      readLen := readLen - start;
    }

    /** process_buffered_lines: the buffered bytes end up as the reference framer would leave them. */
    method ProcessBufferedLines()
      requires Valid()
      modifies this`submitted, this`readLen, buffer
      ensures Settled()
      ensures View() == Feed(Framed(old(submitted), []), old(buffer[..readLen]))
    {
      ghost var f0, bytes := Framed(submitted, []), buffer[..readLen];
      var start := 0;
      var i := 0;
      while i < readLen
        invariant start <= i <= readLen
        invariant Valid() && buffer[..readLen] == bytes
        invariant Feed(f0, bytes[..i]) == Flush(Framed(submitted, bytes[start..i]))
        invariant '\n' !in bytes[start..i]
      {
        FeedAppend(f0, bytes[..i], [bytes[i]]);
        FeedOne(Framed(submitted, bytes[start..i]), bytes[i]);
        TakeGrows(bytes, i);
        SliceGrows(bytes, start, i);
        if buffer[i] == '\n' {
          assert buffer[start..i + 1] == bytes[start..i + 1];
          SubmitLine(start, i - start + 1);
          start := i + 1;
          assert bytes[start..i + 1] == [];
        }
        i := i + 1;
      }
      assert bytes[..i] == bytes;
      assert bytes[start..i] == buffer[start..readLen];
      if start > 0 {
        Compact(start);
      }
      if readLen == CAPACITY {
        SubmitLine(0, readLen);
        readLen := 0;
      }
    }

    /** One read(2) of n bytes into the free end of the buffer. */
    method ReadChunk(n: nat)
      requires Settled() && 0 < n <= |incoming| && readLen + n <= CAPACITY
      modifies this`incoming, this`readLen, buffer
      ensures Valid() && incoming == old(incoming[n..])
      ensures buffer[..readLen] == old(buffer[..readLen] + incoming[..n])
    {
      var k := 0;
      while k < n
        invariant k <= n
        invariant forall x :: 0 <= x < k ==> buffer[readLen + x] == incoming[x]
        invariant forall x :: 0 <= x < readLen ==> buffer[x] == old(buffer[x])
        modifies buffer
      {
        buffer[readLen + k] := incoming[k];
        k := k + 1;
      }
      incoming := incoming[n..];
      readLen := readLen + n;
    }

    /**
     * The reading loop until the pipe is empty. How many bytes each read returns is
     * up to the kernel; whatever it chooses, the outcome is that of the
     * one-byte-at-a-time framer.
     */
    method ReadRequests()
      requires Settled()
      modifies this`incoming, this`readLen, this`submitted, buffer
      ensures Settled() && incoming == []
      ensures View() == Feed(old(View()), old(incoming))
    {
      ghost var f0, all := View(), incoming;
      while incoming != []
        invariant Settled() && |incoming| <= |all| && incoming == all[|all| - |incoming|..]
        invariant View() == Feed(f0, all[..|all| - |incoming|])
        decreases |incoming|
      {
        ghost var done, f := |all| - |incoming|, View();
        var n: nat :| 0 < n <= |incoming| && readLen + n <= CAPACITY;
        ghost var chunk := incoming[..n];
        ReadChunk(n);
        FeedFromRest(f, chunk);
        ProcessBufferedLines();
        FeedAppend(f0, all[..done], chunk);
        PrefixGrows(all, done, n);
      }
      assert all[..|all|] == all;
    }
  }

  lemma PrefixGrows(all: string, done: nat, n: nat)
    requires done + n <= |all|
    ensures all[..done] + all[done..][..n] == all[..done + n]
    ensures all[done..][n..] == all[done + n..]
  {
  }

  /** Starting over with the rest in front of the input is the same as going on. */
  lemma FeedFromRest(f: Framed, input: string)
    requires Unfinished(f.rest)
    ensures Feed(Framed(f.lines, []), f.rest + input) == Feed(f, input)
  {
    FeedAppend(Framed(f.lines, []), f.rest, input);
    assert [] + f.rest == f.rest;
    FeedQuiet(Framed(f.lines, []), f.rest);
  }
}
