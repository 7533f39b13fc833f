/** The generate request: its frame loop, and what the user is told of it. */
module Generate {
  import opened Sequences
  import opened Text
  import opened Wire

  const SIZE_MAX: nat := 0xFFFF_FFFF_FFFF_FFFF

  datatype Outcome = AllWritten | CanvasGone | WriteFailed

  /** Frame f can be drawn and is written. */
  predicate Goes(f: nat, found: nat -> bool, wrote: nat -> bool) {
    found(f) && wrote(f)
  }

  /**
   * The loop over a size_t frame counter. Each frame looks the canvas up again
   * (`found`) and writes to the file (`wrote`). The frames drawn are start,
   * start + 1, ... without a gap up to the first that fails, or to the end; the
   * last possible counter value does not wrap around.
   */
  method GenerateFrames(start: nat, end: nat, found: nat -> bool, wrote: nat -> bool) returns (frames: seq<nat>, outcome: Outcome)
    requires start <= end <= SIZE_MAX
    ensures |frames| <= end - start + 1 && forall k :: 0 <= k < |frames| ==> frames[k] == start + k
    ensures forall f :: start <= f < start + |frames| - 1 ==> Goes(f, found, wrote)
    ensures outcome.AllWritten? ==> |frames| == end - start + 1 && wrote(end) && found(end)
    ensures outcome.CanvasGone? ==> start + |frames| <= end && !found(start + |frames|)
                                    && (|frames| > 0 ==> Goes(start + |frames| - 1, found, wrote))
    ensures outcome.WriteFailed? ==> frames != [] && found(start + |frames| - 1) && !wrote(start + |frames| - 1)
  {
    frames := [];
    var frame := start;
    while frame <= end
      invariant start <= frame <= end + 1 && frame <= SIZE_MAX
      invariant |frames| == frame - start && forall k :: 0 <= k < |frames| ==> frames[k] == start + k
      invariant forall f :: start <= f < frame ==> Goes(f, found, wrote)
      decreases end + 1 - frame
    {
      if !found(frame) {
        return frames, CanvasGone;
      }
      frames := frames + [frame];
      if !wrote(frame) {
        return frames, WriteFailed;
      }
      assert Goes(frame, found, wrote);
      if frame == SIZE_MAX {
        break;
      }
      frame := (frame + 1) % (SIZE_MAX + 1);
    }
    assert Goes(end, found, wrote);
    outcome := AllWritten;
  }

  /** valid_filename_base */
  predicate ValidFilename(s: string) {
    s != [] && forall i :: 0 <= i < |s| ==> s[i] !in "/\\;&|<>`$"
  }

  /** parse_size: on a machine whose size_t has 64 bits. */
  predicate IsNumber(s: string) {
    ParseU64(s).Some?
  }

  /** The arguments of a generate request: canvas, file name, first and last frame, frame rate. */
  predicate ValidArguments(tokens: seq<string>) {
    && |tokens| == 6
    && IsNumber(tokens[1]) && ValidFilename(tokens[2]) && IsNumber(tokens[3]) && IsNumber(tokens[4]) && IsNumber(tokens[5])
    && ParseU64(tokens[3]).value <= ParseU64(tokens[4]).value && ParseU64(tokens[5]).value > 0
  }

  /** The arguments are valid and the canvas is found. */
  predicate Begins(tokens: seq<string>, canvas: nat -> bool) {
    ValidArguments(tokens) && canvas(ParseU64(tokens[1]).value)
  }

  /** All the frames asked for can be drawn and are written. */
  predicate AllGo(tokens: seq<string>, found: nat -> bool, wrote: nat -> bool)
    requires ValidArguments(tokens)
  {
    forall f :: ParseU64(tokens[3]).value <= f <= ParseU64(tokens[4]).value ==> Goes(f, found, wrote)
  }

  /** Frame f is asked for, and all before it go. */
  predicate Reaches(tokens: seq<string>, f: nat, found: nat -> bool, wrote: nat -> bool)
    requires ValidArguments(tokens)
  {
    && ParseU64(tokens[3]).value <= f <= ParseU64(tokens[4]).value
    && forall g :: ParseU64(tokens[3]).value <= g < f ==> found(g) && wrote(g)
  }

  /**
   * handle_generate: the arguments, the canvas lookup, the buffers, the file, the
   * frames, closing the file, making the movie. What each of them comes to is given.
   * Each of the six texts is what the user reads exactly when it should be; "Value
   * error" has all the conditions on the arguments.
   */
  method HandleGenerate(tokens: seq<string>, canvas: nat -> bool, buffers: bool, file: bool,
                        found: nat -> bool, wrote: nat -> bool, closed: bool, movie: bool) returns (reply: Reply)
    ensures IsRpcReply(reply)
    ensures Display(Format(reply)) == "RPC Failed" <==> |tokens| != 6
    ensures Display(Format(reply)) == "Value error" <==>
            |tokens| == 6 &&
            (|| ParseU64(tokens[1]).None? || ParseU64(tokens[3]).None? || ParseU64(tokens[4]).None? || ParseU64(tokens[5]).None?
             || tokens[2] == "" || (exists i :: 0 <= i < |tokens[2]| && tokens[2][i] in "/\\;&|<>`$")
             || ParseU64(tokens[3]).value > ParseU64(tokens[4]).value || ParseU64(tokens[5]).value == 0
             || !canvas(ParseU64(tokens[1]).value)
             || (buffers && file && exists f :: && ParseU64(tokens[3]).value <= f <= ParseU64(tokens[4]).value && !found(f)
                                                && forall g :: ParseU64(tokens[3]).value <= g < f ==> found(g) && wrote(g)))
    ensures Display(Format(reply)) == "Data write failed" <==>
            Begins(tokens, canvas) && buffers &&
            (|| !file
             || (exists f :: && ParseU64(tokens[3]).value <= f <= ParseU64(tokens[4]).value && found(f) && !wrote(f)
                             && forall g :: ParseU64(tokens[3]).value <= g < f ==> found(g) && wrote(g))
             || (AllGo(tokens, found, wrote) && !closed))
    ensures Display(Format(reply)) == "Success" <==>
            Begins(tokens, canvas) && buffers && file && AllGo(tokens, found, wrote) && closed && movie
    ensures Display(Format(reply)) == "Movie write failed" <==>
            Begins(tokens, canvas) && buffers && file && AllGo(tokens, found, wrote) && closed && !movie
    ensures Display(Format(reply)) == "Internal error" <==> Begins(tokens, canvas) && !buffers
    ensures Display(Format(reply)) in ["Success", "Movie write failed", "Data write failed", "Value error", "RPC Failed", "Internal error"]
  {
    hide Display, Format, ParseU64, Meaning, AllGo;
    reply := Answer(tokens, canvas, buffers, file, found, wrote, closed, movie);
    DisplayRecovers(reply);
    GenerateMeanings();
    BadArguments(tokens);
    if Begins(tokens, canvas) {
      assert (exists f :: Reaches(tokens, f, found, wrote) && !found(f)) <==>
             (exists f :: && ParseU64(tokens[3]).value <= f <= ParseU64(tokens[4]).value && !found(f)
                          && forall g :: ParseU64(tokens[3]).value <= g < f ==> found(g) && wrote(g));
    }
  }

  lemma BadArguments(tokens: seq<string>)
    ensures |tokens| == 6 ==>
              (ValidArguments(tokens) <==>
                !(|| ParseU64(tokens[1]).None? || ParseU64(tokens[3]).None? || ParseU64(tokens[4]).None? || ParseU64(tokens[5]).None?
                  || tokens[2] == "" || (exists i :: 0 <= i < |tokens[2]| && tokens[2][i] in "/\\;&|<>`$")
                  || ParseU64(tokens[3]).value > ParseU64(tokens[4]).value || ParseU64(tokens[5]).value == 0))
  {
    hide ParseU64;
  }

  lemma GenerateMeanings()
    ensures Meaning(Code(-1)) == "RPC Failed" && Meaning(Code(-2)) == "Value error" && Meaning(Code(-3)) == "Internal error"
    ensures Meaning(Generated(-1, 0)) == "Data write failed" && Meaning(Generated(0, -1)) == "Movie write failed"
    ensures Meaning(Generated(0, 0)) == "Success"
  {
  }

  method Answer(tokens: seq<string>, canvas: nat -> bool, buffers: bool, file: bool,
                found: nat -> bool, wrote: nat -> bool, closed: bool, movie: bool) returns (reply: Reply)
    ensures reply in [Code(-1), Code(-2), Code(-3), Generated(-1, 0), Generated(0, -1), Generated(0, 0)]
    ensures reply == Code(-1) <==> |tokens| != 6
    ensures reply == Code(-2) <==>
            |tokens| == 6 && (!Begins(tokens, canvas) || (buffers && file && exists f :: Reaches(tokens, f, found, wrote) && !found(f)))
    ensures reply == Code(-3) <==> Begins(tokens, canvas) && !buffers
    ensures reply == Generated(-1, 0) <==>
            Begins(tokens, canvas) && buffers
            && (!file || (exists f :: Reaches(tokens, f, found, wrote) && found(f) && !wrote(f)) || (AllGo(tokens, found, wrote) && !closed))
    ensures reply in [Generated(0, 0), Generated(0, -1)] <==>
            Begins(tokens, canvas) && buffers && file && AllGo(tokens, found, wrote) && closed
    ensures reply == Generated(0, 0) ==> movie
    ensures reply == Generated(0, -1) ==> !movie
  {
    hide ParseU64, ValidFilename;
    if |tokens| != 6 {
      return Code(-1);
    }
    if !ValidArguments(tokens) {
      return Code(-2);
    }
    var start, end := ParseU64(tokens[3]).value, ParseU64(tokens[4]).value;
    ParsedFits(tokens[4]);
    if !canvas(ParseU64(tokens[1]).value) {
      return Code(-2);
    }
    if !buffers {
      return Code(-3);
    }
    if !file {
      return Generated(-1, 0);
    }
    var frames, outcome := GenerateFrames(start, end, found, wrote);
    var last := if outcome.CanvasGone? then start + |frames| else if outcome.WriteFailed? then start + |frames| - 1 else end;
    FirstStop(tokens, last, found, wrote);
    match outcome {
      case CanvasGone => return Code(-2);
      case WriteFailed => return Generated(-1, 0);
      case AllWritten => return if !closed then Generated(-1, 0) else if movie then Generated(0, 0) else Generated(0, -1);
    }
  }

  /** If all frames before one go, that one decides. */
  lemma FirstStop(tokens: seq<string>, last: nat, found: nat -> bool, wrote: nat -> bool)
    requires ValidArguments(tokens) && ParseU64(tokens[3]).value <= last <= ParseU64(tokens[4]).value
    requires forall f :: ParseU64(tokens[3]).value <= f < last ==> Goes(f, found, wrote)
    requires Goes(last, found, wrote) ==> last == ParseU64(tokens[4]).value
    ensures Reaches(tokens, last, found, wrote)
    ensures AllGo(tokens, found, wrote) <==> Goes(last, found, wrote)
    ensures Goes(last, found, wrote) <==> found(last) && wrote(last)
    ensures forall f :: Reaches(tokens, f, found, wrote) && !Goes(f, found, wrote) ==> f == last
    ensures forall f :: Goes(f, found, wrote) <==> found(f) && wrote(f)
  {
    hide ParseU64, ValidFilename;
    forall f | ParseU64(tokens[3]).value <= f < last ensures found(f) && wrote(f) {
      assert Goes(f, found, wrote);
    }
    forall f: nat | Reaches(tokens, f, found, wrote) && !Goes(f, found, wrote) ensures f == last {
      assert f > last ==> found(last) && wrote(last);
    }
  }

  lemma ParsedFits(s: string)
    requires IsNumber(s)
    ensures ParseU64(s).value <= SIZE_MAX
  {
    hide ScanNumeral;
  }
}
