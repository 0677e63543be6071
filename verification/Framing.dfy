/**
 Newline-delimited framing of the daemon's socket protocol (lib/ipc-protocol.js).  JSON text is taken as
 an encoder and a decoder.
 */
module Framing {
  import opened Wrappers

  datatype Malformed = InvalidJson | MissingKind

  datatype Parsed<F> = Frame(frame: F) | Bad(reason: Malformed)

  /**
   What one pass over a text gives: the frames up to the first malformed line, that error, and what is left
   unread.
   */
  datatype Scanned<F> = Scanned(frames: seq<F>, error: Option<Malformed>, rest: string)

  /** Encoding then decoding gives the frame back, and JSON text is a nonempty single line. */
  ghost predicate Codec<F(!new)>(text: F -> string, parse: string -> Parsed<F>) {
    forall f :: parse(text(f)) == Frame(f) && text(f) != "" && '\n' !in text(f)
  }

  function EncodeFrame<F>(f: F, text: F -> string): (line: string) {
    text(f) + "\n"
  }

  /** Position of the first newline, or -1. */
  function IndexOfNewline(s: string): (i: int)
    ensures i == -1 <==> '\n' !in s
    ensures i != -1 ==> 0 <= i < |s| && s[i] == '\n' && '\n' !in s[..i]
  {
    if s == "" then -1
    else if s[0] == '\n' then 0
    else
      var i := IndexOfNewline(s[1..]);
      assert i != -1 ==> s[..i + 1] == [s[0]] + s[1..][..i];
      assert '\n' in s <==> '\n' in s[1..];
      if i == -1 then -1 else i + 1
  }

  function Scan<F>(s: string, parse: string -> Parsed<F>): (r: Scanned<F>)
    decreases |s|
  {
    var nl := IndexOfNewline(s);
    if nl == -1 then Scanned([], None, s)
    else if nl == 0 then Scan(s[1..], parse)
    else
      match parse(s[..nl])
      case Bad(e) => Scanned([], Some(e), s[nl + 1..])
      case Frame(f) =>
        var r := Scan(s[nl + 1..], parse);
        r.(frames := [f] + r.frames)
  }

  class FrameParser<F> {
    var buf: string

    constructor ()
      ensures buf == ""
    {
      buf := "";
    }

    /** Feed a chunk: one frame per complete line, until a line is malformed. */
    method Feed(chunk: string, parse: string -> Parsed<F>) returns (frames: seq<F>, error: Option<Malformed>)
      modifies this
      ensures Scanned(frames, error, buf) == Scan(old(buf) + chunk, parse)
    {
      buf := buf + chunk;
      frames, error := [], None;
      ghost var all := Scan(buf, parse);
      var nl := IndexOfNewline(buf);
      while nl != -1
        invariant nl == IndexOfNewline(buf)
        invariant Then(frames, Scan(buf, parse)) == all
        decreases |buf|
      {
        var line := buf[..nl];
        CutAtNewline(buf);
        ScanLine(buf, line, buf[nl + 1..], parse);
        buf := buf[nl + 1..];
        if |line| > 0 {
          match parse(line)
          case Bad(e) =>
            return frames, Some(e);
          case Frame(f) =>
            FrameRead(frames, f, Scan(buf, parse));
            frames := frames + [f];
        }
        nl := IndexOfNewline(buf);
      }
    }
  }

  function Then<F>(frames: seq<F>, r: Scanned<F>): (s: Scanned<F>) {
    r.(frames := frames + r.frames)
  }

  // ---------------------------------------------------------------- chunks do not matter

  lemma {:induction false} FirstNewline(s: string, i: nat)
    requires i < |s| && s[i] == '\n' && '\n' !in s[..i]
    ensures IndexOfNewline(s) == i
    decreases i
  {
    if i > 0 {
      assert s[0] == s[..i][0] && s[1..][..i - 1] == s[..i][1..];
      FirstNewline(s[1..], i - 1);
    }
  }

  function AfterLine<F>(line: string, rest: string, parse: string -> Parsed<F>): (r: Scanned<F>) {
    if line == "" then Scan(rest, parse)
    else if parse(line).Bad? then Scanned([], Some(parse(line).reason), rest)
    else Then([parse(line).frame], Scan(rest, parse))
  }

  /** One complete line at the front of a text. */
  lemma ScanLine<F>(s: string, line: string, rest: string, parse: string -> Parsed<F>)
    requires s == line + "\n" + rest && '\n' !in line
    ensures Scan(s, parse) == AfterLine(line, rest, parse)
  {
    var nl := |line|;
    assert s[..nl] == line && s[nl] == '\n' && s[nl + 1..] == rest;
    FirstNewline(s, nl);
  }

  lemma CutAtNewline(s: string)
    requires '\n' in s
    ensures var nl := IndexOfNewline(s); s == s[..nl] + "\n" + s[nl + 1..] && '\n' !in s[..nl]
  {
  }

  /** Where a scan that gave `r` stands when more text follows. */
  function Resumed<F>(r: Scanned<F>, more: string, parse: string -> Parsed<F>): (s: Scanned<F>) {
    if r.error.Some? then r.(rest := r.rest + more) else Then(r.frames, Scan(r.rest + more, parse))
  }

  lemma NoLineResumes<F>(a: string, b: string, parse: string -> Parsed<F>)
    requires '\n' !in a
    ensures Scan(a + b, parse) == Resumed(Scan(a, parse), b, parse)
  {
    assert Scan(a, parse) == Scanned([], None, a);
    ThenNothing(Scan(a + b, parse));
  }

  lemma ThenNothing<F>(r: Scanned<F>)
    ensures Then([], r) == r
  {
    assert [] + r.frames == r.frames;
  }

  lemma EmptyLineResumes<F>(rest: string, b: string, parse: string -> Parsed<F>)
    requires Scan(rest + b, parse) == Resumed(Scan(rest, parse), b, parse)
    ensures AfterLine("", rest + b, parse) == Resumed(AfterLine("", rest, parse), b, parse)
  {
  }

  lemma BadLineResumes<F>(line: string, rest: string, b: string, parse: string -> Parsed<F>)
    requires line != "" && parse(line).Bad?
    ensures AfterLine(line, rest + b, parse) == Resumed(AfterLine(line, rest, parse), b, parse)
  {
  }

  lemma FrameResumes<F>(line: string, rest: string, b: string, parse: string -> Parsed<F>)
    requires line != "" && parse(line).Frame?
    requires Scan(rest + b, parse) == Resumed(Scan(rest, parse), b, parse)
    ensures AfterLine(line, rest + b, parse) == Resumed(AfterLine(line, rest, parse), b, parse)
  {
    var f, r := parse(line).frame, Scan(rest, parse);
    Regroup(f, r.frames, Scan(r.rest + b, parse));
  }

  /** Scanning more text resumes from what was left. */
  lemma {:induction false} ScanResumes<F>(a: string, b: string, parse: string -> Parsed<F>)
    ensures Scan(a + b, parse) == Resumed(Scan(a, parse), b, parse)
    decreases |a|
  {
    if '\n' !in a {
      NoLineResumes(a, b, parse);
    } else {
      var nl := IndexOfNewline(a);
      var line, rest := a[..nl], a[nl + 1..];
      CutAtNewline(a);
      ScanResumes(rest, b, parse);
      ScanLine(a, line, rest, parse);
      MoreAfterLine(line, rest, b);
      ScanLine(a + b, line, rest + b, parse);
      LineResumes(line, rest, b, parse);
    }
  }

  lemma MoreAfterLine(line: string, rest: string, b: string)
    ensures (line + "\n" + rest) + b == line + "\n" + (rest + b)
  {
  }

  lemma LineResumes<F>(line: string, rest: string, b: string, parse: string -> Parsed<F>)
    requires Scan(rest + b, parse) == Resumed(Scan(rest, parse), b, parse)
    ensures AfterLine(line, rest + b, parse) == Resumed(AfterLine(line, rest, parse), b, parse)
  {
    if line == "" {
      EmptyLineResumes(rest, b, parse);
    } else if parse(line).Bad? {
      BadLineResumes(line, rest, b, parse);
    } else {
      FrameResumes(line, rest, b, parse);
    }
  }

  lemma FrameRead<F>(frames: seq<F>, f: F, t: Scanned<F>)
    ensures Then(frames, Then([f], t)) == Then(frames + [f], t)
  {
    assert frames + ([f] + t.frames) == (frames + [f]) + t.frames;
  }

  lemma Regroup<F>(f: F, frames: seq<F>, t: Scanned<F>)
    ensures Then([f], Then(frames, t)) == Then([f] + frames, t)
  {
    assert [f] + (frames + t.frames) == ([f] + frames) + t.frames;
  }

  /** Feeding chunk after chunk, stopping at the first malformed line. */
  function FeedAll<F>(buf: string, chunks: seq<string>, parse: string -> Parsed<F>): (r: Scanned<F>)
    decreases |chunks|
  {
    if chunks == [] then Scanned([], None, buf)
    else
      var first := Scan(buf + chunks[0], parse);
      if first.error.Some? then first else Then(first.frames, FeedAll(first.rest, chunks[1..], parse))
  }

  function Join(chunks: seq<string>): (s: string) {
    if chunks == [] then "" else chunks[0] + Join(chunks[1..])
  }

  lemma {:induction false} ScanIsStable<F>(s: string, parse: string -> Parsed<F>)
    ensures Scan(s, parse).error.None? ==> Scan(Scan(s, parse).rest, parse) == Scanned([], None, Scan(s, parse).rest)
    decreases |s|
  {
    var nl := IndexOfNewline(s);
    if nl != -1 { ScanIsStable(s[nl + 1..], parse); }
  }

  /**
   However a stream is cut into chunks, the parser yields the same frames and stops at the same malformed
   line as on the whole text; when no line is malformed it is left holding the same unfinished line.
   */
  lemma {:induction false} ChunksDoNotMatter<F>(buf: string, chunks: seq<string>, parse: string -> Parsed<F>)
    requires Scan(buf, parse) == Scanned([], None, buf)
    ensures var whole, parts := Scan(buf + Join(chunks), parse), FeedAll(buf, chunks, parse);
            && parts.frames == whole.frames && parts.error == whole.error
            && (whole.error.None? ==> parts.rest == whole.rest)
    decreases |chunks|
  {
    if chunks == [] {
      assert buf + Join(chunks) == buf;
    } else {
      var first, rest := Scan(buf + chunks[0], parse), Join(chunks[1..]);
      assert buf + Join(chunks) == (buf + chunks[0]) + rest;
      ScanResumes(buf + chunks[0], rest, parse);
      if first.error.None? {
        ScanIsStable(buf + chunks[0], parse);
        ChunksDoNotMatter(first.rest, chunks[1..], parse);
      }
    }
  }

  // ---------------------------------------------------------------- round trip

  function EncodeAll<F>(frames: seq<F>, text: F -> string): (s: string) {
    if frames == [] then "" else EncodeFrame(frames[0], text) + EncodeAll(frames[1..], text)
  }

  lemma {:induction false} ScanEncoded<F(!new)>(frames: seq<F>, tail: string, text: F -> string,
                                                parse: string -> Parsed<F>)
    requires Codec(text, parse) && '\n' !in tail
    ensures Scan(EncodeAll(frames, text) + tail, parse) == Scanned(frames, None, tail)
    decreases |frames|
  {
    if frames == [] {
      assert EncodeAll(frames, text) + tail == tail;
    } else {
      var line, rest := text(frames[0]), EncodeAll(frames[1..], text) + tail;
      assert EncodeAll(frames, text) + tail == line + "\n" + rest;
      ScanLine(EncodeAll(frames, text) + tail, line, rest, parse);
      ScanEncoded(frames[1..], tail, text, parse);
      assert frames == [frames[0]] + frames[1..];
    }
  }

  /**
   Frames encoded, cut anywhere and fed in pieces come out as they were, and only the unfinished tail stays
   buffered.
   */
  lemma FramesSurviveChunking<F(!new)>(frames: seq<F>, tail: string, chunks: seq<string>, text: F -> string,
                                       parse: string -> Parsed<F>)
    requires Codec(text, parse) && '\n' !in tail && Join(chunks) == EncodeAll(frames, text) + tail
    ensures FeedAll("", chunks, parse) == Scanned(frames, None, tail)
  {
    ScanEncoded(frames, tail, text, parse);
    assert "" + Join(chunks) == Join(chunks);
    ChunksDoNotMatter("", chunks, parse);
  }

  /** What stays buffered never holds a newline. */
  lemma {:induction false} BufferIsUnfinished<F>(s: string, parse: string -> Parsed<F>)
    ensures Scan(s, parse).error.None? ==> '\n' !in Scan(s, parse).rest
    decreases |s|
  {
    var nl := IndexOfNewline(s);
    if nl == -1 {
      assert Scan(s, parse).rest == s;
    } else {
      CutAtNewline(s);
      ScanLine(s, s[..nl], s[nl + 1..], parse);
      BufferIsUnfinished(s[nl + 1..], parse);
    }
  }

  /** An empty line says nothing. */
  lemma BlankLine<F>(rest: string, parse: string -> Parsed<F>)
    ensures Scan("\n" + rest, parse) == Scan(rest, parse)
  {
    assert "\n" + rest == "" + "\n" + rest;
    ScanLine("\n" + rest, "", rest, parse);
  }

  lemma BadLine<F>(line: string, more: string, parse: string -> Parsed<F>)
    requires line != "" && '\n' !in line && parse(line).Bad?
    ensures Scan(line + "\n" + more, parse) == Scanned([], Some(parse(line).reason), more)
  {
    ScanLine(line + "\n" + more, line, more, parse);
  }

  lemma FramesThen<F(!new)>(frames: seq<F>, rest: string, text: F -> string, parse: string -> Parsed<F>)
    requires Codec(text, parse)
    ensures Scan(EncodeAll(frames, text) + rest, parse) == Then(frames, Scan(rest, parse))
  {
    var all := EncodeAll(frames, text);
    ScanEncoded(frames, "", text, parse);
    assert all + "" == all;
    ScanResumes(all, rest, parse);
    assert "" + rest == rest;
  }

  /**
   Empty lines say nothing, and a malformed line ends a pass: the frames before it are kept, and what follows it
   stays unread.
   */
  lemma MalformedStops<F(!new)>(frames: seq<F>, line: string, more: string, text: F -> string,
                                parse: string -> Parsed<F>)
    requires Codec(text, parse) && line != "" && '\n' !in line && parse(line).Bad?
    ensures Scan("\n" + (EncodeAll(frames, text) + ("\n" + (line + "\n" + more))), parse)
         == Scanned(frames, Some(parse(line).reason), more)
  {
    var rest := "\n" + (line + "\n" + more);
    BadLine(line, more, parse);
    BlankLine(line + "\n" + more, parse);
    FramesThen(frames, rest, text, parse);
    BlankLine(EncodeAll(frames, text) + rest, parse);
  }
}
