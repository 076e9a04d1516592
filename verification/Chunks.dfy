// Decoding a chunked body (section 3.6.1 of RFC 2616) gives back what was encoded.
module Chunks {
  import opened Chars
  import opened Types
  import opened Events
  import opened Views
  import opened Headers
  import opened Body
  import opened Machine
  import opened Runs
  import opened Lengths

  // One chunk as it is written: any run of hex digits that spells the length, an extension that starts
  // with a semicolon or a space, and the data.
  datatype BodyChunk = BodyChunk(size: string, ext: string, data: string)

  predicate IsExt(s: string) {
    |s| > 0 ==> (s[0] == ';' || s[0] == ' ') && forall k :: 0 <= k < |s| ==> s[k] != CR
  }

  predicate IsChunk(c: BodyChunk) {
    |c.size| > 0 && IsHexText(c.size) && Hex(0, c.size) == |c.data| <= MAX_CHUNK && IsExt(c.ext)
  }

  function SizeLine(c: BodyChunk): string { c.size + c.ext + CRLF }

  function Encode(c: BodyChunk): string { SizeLine(c) + (c.data + CRLF) }

  function EncodeAll(cs: seq<BodyChunk>): string {
    if |cs| == 0 then [] else Encode(cs[0]) + EncodeAll(cs[1..])
  }

  // The callbacks of the chunks: the announced size, the data, the end.
  function Decoded(t: Trace, cs: seq<BodyChunk>): Trace
    decreases |cs|
  {
    if |cs| == 0 then t
    else Decoded(Then(Then(Then(t, ChunkHeader(|cs[0].data|)), Data(Events.Body, cs[0].data)), ChunkComplete), cs[1..])
  }

  lemma ExtByte(v: View, ch: char)
    requires !Halted(v) && v.state == Chunk(Size) && (ch == ';' || ch == ' ')
    ensures Step(v, ch) == v.(state := Chunk(Parameters))
  {
  }

  lemma ParameterByte(v: View, ch: char)
    requires !Halted(v) && v.state == Chunk(Parameters)
    ensures Step(v, ch) == if ch == CR then v.(state := Chunk(SizeAlmostDone)) else v
  {
  }

  lemma {:induction false} ParametersRun(v: View, s: string)
    requires !Halted(v) && v.state == Chunk(Parameters) && forall k :: 0 <= k < |s| ==> s[k] != CR
    ensures Feed(v, s) == v
    decreases |s|
  {
    hide Step, Feed;
    if |s| > 0 {
      FeedCons(v, s);
      ParameterByte(v, s[0]);
      ParametersRun(v, s[1..]);
    } else {
      FeedNothing(v);
    }
  }

  lemma ExtRun(v: View, s: string)
    requires !Halted(v) && v.state == Chunk(Size) && IsExt(s)
    ensures Feed(v, s) == if |s| == 0 then v else v.(state := Chunk(Parameters))
  {
    hide Step, Feed;
    if |s| > 0 {
      FeedCons(v, s);
      ExtByte(v, s[0]);
      ParametersRun(v.(state := Chunk(Parameters)), s[1..]);
    } else {
      FeedNothing(v);
    }
  }

  lemma SizeEnd(v: View)
    requires !Halted(v) && (v.state == Chunk(Size) || v.state == Chunk(Parameters))
    ensures Step(v, CR) == v.(state := Chunk(SizeAlmostDone))
    ensures Step(v.(state := Chunk(SizeAlmostDone)), LF) ==
            if v.contentLength == 0 then
              Tell(v.(flags := v.flags.(trailing := true), state := Hdr(FieldStart)), ChunkHeader(0))
            else Tell(v.(state := Chunk(ChunkData)), ChunkHeader(v.contentLength))
  {
    hide StepHeader, StepMsg;
  }

  lemma FeedTwo(v: View, a: char, b: char)
    requires !Halted(v) && !Halted(Step(v, a))
    ensures Feed(v, [a, b]) == Step(Step(v, a), b)
  {
    hide Step;
    FeedCons(v, [a, b]);
    assert [a, b][1..] == [b];
    FeedOne(Step(v, a), b);
  }

  // The line that announces a chunk.
  lemma SizeLineRun(v: View, c: BodyChunk)
    requires !Halted(v) && v.state == Chunk(SizeStart) && IsChunk(c)
    ensures Feed(v, SizeLine(c)) ==
            if |c.data| == 0 then
              Tell(v.(flags := v.flags.(trailing := true), state := Hdr(FieldStart), contentLength := 0),
                   ChunkHeader(0))
            else Tell(v.(state := Chunk(ChunkData), contentLength := |c.data|), ChunkHeader(|c.data|))
  {
    hide Step, Feed, Hex, IsHexText;
    var w := v.(state := Chunk(Size), contentLength := |c.data|);
    ChunkSizeExact(v, c.size);
    ExtRun(w, c.ext);
    var x := if |c.ext| == 0 then w else w.(state := Chunk(Parameters));
    SizeEnd(x);
    FeedTwo(x, CR, LF);
    FeedConcat(v, c.size + c.ext, CRLF);
    FeedConcat(v, c.size, c.ext);
  }

  lemma LastChunkByte(v: View, ch: char)
    requires !Halted(v) && v.state == Chunk(ChunkData) && v.contentLength == 1
    ensures Step(v, ch) == Tell(v.(contentLength := 0, state := Chunk(DataAlmostDone)), Data(Events.Body, [ch]))
  {
  }

  lemma DataEnd(v: View)
    requires !Halted(v) && v.state == Chunk(DataAlmostDone)
    ensures Step(v, CR) == v.(state := Chunk(DataDone))
    ensures Step(v.(state := Chunk(DataDone)), LF) == Tell(v.(state := Chunk(SizeStart)), ChunkComplete)
  {
  }

  // All the data of a chunk, in one run.
  lemma DataRun(v: View, d: string)
    requires !Halted(v) && v.state == Chunk(ChunkData) && v.contentLength == |d| > 0
    ensures Feed(v, d) == Tell(v.(contentLength := 0, state := Chunk(DataAlmostDone)), Data(Events.Body, d))
  {
    hide Step, Run;
    var k := |d| - 1;
    RunSplit(v, d, 0, k, |d|);
    if k > 0 {
      CountedRun(v, d, 0, k);
      EmitTwice(v.trace, Events.Body, d[0..k], [d[k]]);
      assert d[0..k] + [d[k]] == d;
    } else {
      RunNone(v, d, 0);
      assert [d[0]] == d;
    }
    RunOne(Run(v, d, 0, k), d, k);
    LastChunkByte(Run(v, d, 0, k), d[k]);
  }

  lemma RunNone(v: View, d: string, i: nat)
    requires i <= |d|
    ensures Run(v, d, i, i) == v
  {
  }

  // One chunk of a non-empty body.
  lemma ChunkRun(v: View, c: BodyChunk)
    requires !Halted(v) && v.state == Chunk(SizeStart) && IsChunk(c) && |c.data| > 0
    ensures Feed(v, Encode(c)) == v.(contentLength := 0, trace := Decoded(v.trace, [c]))
  {
    hide Step, Feed, IsChunk, SizeLine;
    var w := Tell(v.(state := Chunk(ChunkData), contentLength := |c.data|), ChunkHeader(|c.data|));
    SizeLineRun(v, c);
    DataRun(w, c.data);
    var x := Tell(w.(contentLength := 0, state := Chunk(DataAlmostDone)), Data(Events.Body, c.data));
    DataEnd(x);
    FeedTwo(x, CR, LF);
    FeedConcat(w, c.data, CRLF);
    FeedConcat(v, SizeLine(c), c.data + CRLF);
    assert [c][1..] == [];
  }

  lemma {:induction false} ChunksRun(v: View, cs: seq<BodyChunk>)
    requires !Halted(v) && v.state == Chunk(SizeStart)
    requires forall k :: 0 <= k < |cs| ==> IsChunk(cs[k]) && |cs[k].data| > 0
    ensures Feed(v, EncodeAll(cs)) ==
            if |cs| == 0 then v else v.(contentLength := 0, trace := Decoded(v.trace, cs))
    decreases |cs|
  {
    hide Step, Feed, IsChunk, Encode;
    if |cs| > 0 {
      ChunkRun(v, cs[0]);
      FeedConcat(v, Encode(cs[0]), EncodeAll(cs[1..]));
      assert [cs[0]][1..] == [];
      ChunksRun(v.(contentLength := 0, trace := Decoded(v.trace, [cs[0]])), cs[1..]);
    } else {
      FeedNothing(v);
    }
  }

  // The end of the body: the zero chunk and an empty line.
  lemma LastLine(v: View)
    requires !Halted(v) && v.state == Hdr(FieldStart) && v.flags.trailing
    ensures Step(v, CR) == v.(state := Msg(HeadersAlmostDone))
    ensures Step(v.(state := Msg(HeadersAlmostDone)), LF) ==
            StepMessageDone(Tell(v.(state := Msg(MessageDone)), ChunkComplete))
  {
    hide StepMessageDone, StepChunk;
  }

  function Join(cs: seq<BodyChunk>): string { if |cs| == 0 then [] else cs[0].data + Join(cs[1..]) }

  // The body bytes of a trace.
  function Payload(t: Trace): string {
    match t
    case Silence => []
    case Then(u, e) => if e.Data? && e.kind == Events.Body then Payload(u) + e.bytes else Payload(u)
  }

  // The body is the concatenation of the chunks.
  lemma {:induction false} PayloadOfChunks(t: Trace, cs: seq<BodyChunk>)
    ensures Payload(Decoded(t, cs)) == Payload(t) + Join(cs)
    decreases |cs|
  {
    if |cs| > 0 {
      var u := Then(Then(t, ChunkHeader(|cs[0].data|)), Data(Events.Body, cs[0].data));
      PayloadOfChunks(Then(u, ChunkComplete), cs[1..]);
      assert Payload(Then(u, ChunkComplete)) == Payload(u) == Payload(t) + cs[0].data;
      assert Payload(t) + cs[0].data + Join(cs[1..]) == Payload(t) + Join(cs);
    }
  }
}
