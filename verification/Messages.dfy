// Whole messages: a printed head and the body it announces.
module Messages {
  import opened Chars
  import opened Alphabets
  import opened Types
  import opened Events
  import opened Views
  import opened Body
  import opened Machine
  import opened Runs
  import opened Lengths
  import opened Chunks
  import opened Monitor
  import opened Values
  import opened Requests
  import opened Responses

  lemma IdentityByte(v: View, ch: char)
    requires !Halted(v) && v.state == Msg(Identity) && v.contentLength == 1
    ensures Step(v, ch) ==
            StepMessageDone(Tell(v.(contentLength := 0, state := Msg(MessageDone)), Data(Events.Body, [ch])))
  {
    hide StepMessageDone;
  }

  // Conservation: short of the announced length the bytes delivered and those to come add up to it, and
  // exactly at it the message is complete.
  lemma BodyExact(v: View, d: string)
    requires !Halted(v) && v.state == Msg(Identity) && 0 < |d| <= v.contentLength
    ensures |d| < v.contentLength ==>
              Feed(v, d) == Tell(v.(contentLength := v.contentLength - |d|), Data(Events.Body, d))
    ensures |d| == v.contentLength ==>
              Feed(v, d) ==
              StepMessageDone(Tell(v.(contentLength := 0, state := Msg(MessageDone)), Data(Events.Body, d)))
  {
    hide Step, Run, StepMessageDone;
    if |d| < v.contentLength {
      CountedRun(v, d, 0, |d|);
      assert d[0..|d|] == d;
    } else {
      var k := |d| - 1;
      RunSplit(v, d, 0, k, |d|);
      if k > 0 {
        CountedRun(v, d, 0, k);
        EmitTwice(v.trace, Events.Body, d[0..k], [d[k]]);
        assert d[0..k] + [d[k]] == d;
      } else {
        RunNone(v, d, 0);
        assert [d[0]] == d;
      }
      RunOne(Run(v, d, 0, k), d, k);
      IdentityByte(Run(v, d, 0, k), d[k]);
    }
  }

  // What the body adds to the callbacks t of the head h, and how the message ends.
  predicate EndsWith(w: View, h: Head, t: Trace) {
    && w.errno == OK && w.trace == Then(t, MessageComplete)
    && w.state == (if Persistent(h) then StartState(w) else Dead) && w.app.left == h.line.upgrade
  }

  lemma MessageEnds(v: View, h: Head)
    requires !Halted(v) && v.state == Msg(MessageDone) && v.contentLength == 0
    requires HeadOf(v).(contentLength := h.contentLength) == h
    requires Framing(h).Counted? && h.contentLength != NO_LENGTH
    ensures EndsWith(StepMessageDone(v), h, v.trace)
  {
  }

  // A counted body after any head that announces it.
  lemma CountedBody(w: View, h: Head, t: Trace, d: string)
    requires Awaits(w, h, t) && t.Then? && t.last == HeadersComplete(h)
    requires d != [] && Framing(h) == Monitor.Counted(|d|)
    ensures EndsWith(Feed(w, d), h, Then(t, Data(Events.Body, d)))
  {
    hide Feed, StepMessageDone, EndsWith, Framing;
    CountedLength(h, |d|);
    BodyExact(w, d);
    MessageEnds(Tell(w.(contentLength := 0, state := Msg(MessageDone)), Data(Events.Body, d)), h);
  }

  // A request with a counted body, printed and parsed.
  lemma CountedRoundTrip(v: View, r: RequestHead, d: string)
    requires !Halted(v) && v.state == Req(StartReq) && IsRequest(r)
    requires d != [] && Framing(RequestShown(v, r)) == Monitor.Counted(|d|)
    ensures var h := RequestShown(v, r);
            var t := Then(RequestTrace(v.trace, r), HeadersComplete(h));
            EndsWith(Feed(v, Print(r) + d), h, Then(t, Data(Events.Body, d)))
  {
    hide Feed, RequestShown, RequestTrace, Print, IsRequest, EndsWith, Framing, Awaits;
    var h := RequestShown(v, r);
    RequestRoundTrip(v, r);
    FeedConcat(v, Print(r), d);
    CountedBody(Feed(v, Print(r)), h, Then(RequestTrace(v.trace, r), HeadersComplete(h)), d);
  }

  // A response with one.
  lemma CountedResponse(v: View, r: ResponseHead, d: string)
    requires !Halted(v) && v.state == Res(StartRes) && IsResponse(r)
    requires d != [] && Framing(ResponseShown(v, r)) == Monitor.Counted(|d|)
    ensures var h := ResponseShown(v, r);
            var t := Then(ResponseTrace(v.trace, r), HeadersComplete(h));
            EndsWith(Feed(v, PrintResponse(r) + d), h, Then(t, Data(Events.Body, d)))
  {
    hide Feed, ResponseShown, ResponseTrace, PrintResponse, IsResponse, EndsWith, Framing, Awaits;
    var h := ResponseShown(v, r);
    ResponseRoundTrip(v, r);
    FeedConcat(v, PrintResponse(r), d);
    CountedBody(Feed(v, PrintResponse(r)), h, Then(ResponseTrace(v.trace, r), HeadersComplete(h)), d);
  }

  // A body that ends with the connection: its bytes, and message_complete at the end of the input.
  lemma BodyUntilEof(w: View, h: Head, t: Trace, d: string)
    requires Awaits(w, h, t) && t.Then? && t.last == HeadersComplete(h) && Framing(h).UntilEof?
    ensures var x, u := Feed(w, d), if d == [] then t else Then(t, Data(Events.Body, d));
            && !Halted(x) && x.state == Msg(IdentityEof) && x.trace == u
            && EndInput(x) == Tell(x, MessageComplete)
  {
    hide Step, Framing;
    if d == [] {
      FeedNothing(w);
    } else {
      UntilEofRun(w, d, 0, |d|);
      assert Slice(d, 0, |d|) == d && d[0..|d|] == d;
    }
  }

  // A response of unknown length, printed, parsed, and ended with the connection.
  lemma ResponseUntilEof(v: View, r: ResponseHead, d: string)
    requires !Halted(v) && v.state == Res(StartRes) && IsResponse(r) && Framing(ResponseShown(v, r)).UntilEof?
    ensures var h, w := ResponseShown(v, r), Feed(v, PrintResponse(r) + d);
            var t := Then(ResponseTrace(v.trace, r), HeadersComplete(h));
            && !Halted(w) && w.trace == (if d == [] then t else Then(t, Data(Events.Body, d)))
            && EndInput(w) == Tell(w, MessageComplete)
  {
    hide Feed, ResponseShown, ResponseTrace, PrintResponse, IsResponse, EndInput, Framing, Awaits;
    var h := ResponseShown(v, r);
    ResponseRoundTrip(v, r);
    FeedConcat(v, PrintResponse(r), d);
    BodyUntilEof(Feed(v, PrintResponse(r)), h, Then(ResponseTrace(v.trace, r), HeadersComplete(h)), d);
  }

  lemma CountedLength(h: Head, n: nat)
    requires Framing(h) == Monitor.Counted(n) && n > 0
    ensures h.contentLength == n != NO_LENGTH
  {
  }

  // The trailers of a chunked body and the line that ends them.
  lemma TrailersRun(v: View, ts: seq<Header>)
    requires !Halted(v) && v.state == Hdr(FieldStart) && v.flags.trailing && !EndsIn(v.trace, Field)
    requires forall k :: 0 <= k < |ts| ==> IsHeader(ts[k])
    ensures var x, w := FrameOf(Frame(v.flags, v.contentLength), ts), Feed(v, HeaderSection(ts));
            && w.errno == OK && w.trace == Then(Then(HeaderTrace(v.trace, ts), ChunkComplete), MessageComplete)
            && w.line == v.line && w.app.left == v.line.upgrade
            && w.state == NewMessage(v.(flags := x.flags, contentLength := x.length))
  {
    hide Step, Feed, IsHeader, NewMessage, FrameOf, Lines;
    FrameFlags(Frame(v.flags, v.contentLength), ts);
    var w := LinesRun(v, ts, CRLF);
    LastLine(w);
    FeedTwo(w, CR, LF);
    NewMessageOf(Tell(w.(state := Msg(MessageDone)), ChunkComplete),
                 v.(flags := w.flags, contentLength := w.contentLength));
  }

  lemma NewMessageOf(v: View, w: View)
    requires v.line == w.line && v.flags == w.flags && v.contentLength == w.contentLength
    ensures NewMessage(v) == NewMessage(w)
  {
  }

  predicate IsChunks(cs: seq<BodyChunk>, last: BodyChunk, ts: seq<Header>) {
    && (forall k :: 0 <= k < |cs| ==> IsChunk(cs[k]) && |cs[k].data| > 0)
    && IsChunk(last) && last.data == [] && forall k :: 0 <= k < |ts| ==> IsHeader(ts[k])
  }

  function PrintChunks(cs: seq<BodyChunk>, last: BodyChunk, ts: seq<Header>): string {
    EncodeAll(cs) + (SizeLine(last) + HeaderSection(ts))
  }

  // The callbacks of a chunked body but for the last two.
  function ChunksTrace(t: Trace, cs: seq<BodyChunk>, ts: seq<Header>): Trace {
    Then(HeaderTrace(Then(Decoded(t, cs), ChunkHeader(0)), ts), ChunkComplete)
  }

  // What the flags of w are after trailers.
  function TrailedFlags(w: View, ts: seq<Header>): Flags
    requires forall k :: 0 <= k < |ts| ==> IsHeader(ts[k])
  {
    FrameOf(Frame(w.flags.(trailing := true), 0), ts).flags
  }

  // Chunked round trip: whatever the chunks, however their sizes are spelled, and whatever the trailers,
  // the callbacks are exactly the chunks, the zero chunk, the trailers, and one message_complete.
  lemma ChunkedRoundTrip(v: View, cs: seq<BodyChunk>, last: BodyChunk, ts: seq<Header>)
    requires !Halted(v) && v.state == Chunk(SizeStart) && IsChunks(cs, last, ts)
    ensures var w, x := Feed(v, PrintChunks(cs, last, ts)), FrameOf(Frame(v.flags.(trailing := true), 0), ts);
            && w.errno == OK && w.trace == Then(ChunksTrace(v.trace, cs, ts), MessageComplete)
            && w.line == v.line && w.app.left == v.line.upgrade
            && w.state == NewMessage(v.(flags := x.flags, contentLength := x.length))
  {
    hide Step, Feed, IsChunk, IsHeader, EncodeAll, SizeLine, Decoded, NewMessage, FrameOf, HeaderSection, HeaderTrace;
    ChunksRun(v, cs);
    var x := if |cs| == 0 then v else v.(contentLength := 0, trace := Decoded(v.trace, cs));
    DecodedNone(v.trace);
    FeedConcat(v, EncodeAll(cs), SizeLine(last) + HeaderSection(ts));
    SizeLineRun(x, last);
    var y := Tell(x.(flags := x.flags.(trailing := true), state := Hdr(FieldStart), contentLength := 0),
                  ChunkHeader(0));
    FeedConcat(x, SizeLine(last), HeaderSection(ts));
    TrailersRun(y, ts);
    var z := FrameOf(Frame(y.flags, 0), ts);
    NewMessageOf(y.(flags := z.flags, contentLength := z.length), v.(flags := z.flags, contentLength := z.length));
  }

  // What the head says once the trailers have had their say.
  function Trailed(h: Head, f: Flags): Head { h.(close := f.close, keepAlive := f.keepAlive) }

  // A chunked body and trailers after any head that announces one. The trailers are delivered like header
  // lines, and may change whether the connection stays open, but nothing else.
  lemma ChunkedBody(w: View, h: Head, t: Trace, cs: seq<BodyChunk>, last: BodyChunk, ts: seq<Header>)
    requires Awaits(w, h, t) && Framing(h).BetweenChunks? && IsChunks(cs, last, ts)
    ensures EndsWith(Feed(w, PrintChunks(cs, last, ts)), Trailed(h, TrailedFlags(w, ts)), ChunksTrace(t, cs, ts))
  {
    hide Step, Feed, Framing, IsChunk, IsHeader, EncodeAll, SizeLine, Decoded, NewMessage, Persistent, FrameOf;
    hide HeaderSection, HeaderTrace;
    ChunkedStarts(w, h);
    var x := Frame(w.flags.(trailing := true), 0);
    FrameChunked(x, ts);
    ChunkedRoundTrip(w, cs, last, ts);
    var z := FrameOf(x, ts);
    ChunkedKeep(w.(flags := z.flags, contentLength := z.length), Trailed(h, z.flags));
  }

  // A request with a chunked body and trailers, printed and parsed.
  lemma ChunkedMessageRoundTrip(v: View, r: RequestHead, cs: seq<BodyChunk>, last: BodyChunk, ts: seq<Header>)
    requires !Halted(v) && v.state == Req(StartReq) && IsRequest(r) && Framing(RequestShown(v, r)).BetweenChunks?
    requires IsChunks(cs, last, ts)
    ensures var h := RequestShown(v, r);
            var t := Then(RequestTrace(v.trace, r), HeadersComplete(h));
            EndsWith(Feed(v, Print(r) + PrintChunks(cs, last, ts)), Trailed(h, TrailedFlags(Feed(v, Print(r)), ts)),
                     ChunksTrace(t, cs, ts))
  {
    hide Feed, RequestShown, RequestTrace, Print, IsRequest, EndsWith, Framing, Awaits, PrintChunks, ChunksTrace;
    hide TrailedFlags;
    var h := RequestShown(v, r);
    RequestRoundTrip(v, r);
    FeedConcat(v, Print(r), PrintChunks(cs, last, ts));
    ChunkedBody(Feed(v, Print(r)), h, Then(RequestTrace(v.trace, r), HeadersComplete(h)), cs, last, ts);
  }

  // A response with one.
  lemma ChunkedResponse(v: View, r: ResponseHead, cs: seq<BodyChunk>, last: BodyChunk, ts: seq<Header>)
    requires !Halted(v) && v.state == Res(StartRes) && IsResponse(r) && Framing(ResponseShown(v, r)).BetweenChunks?
    requires IsChunks(cs, last, ts)
    ensures var h, w := ResponseShown(v, r), Feed(v, PrintResponse(r));
            var t := Then(ResponseTrace(v.trace, r), HeadersComplete(h));
            EndsWith(Feed(v, PrintResponse(r) + PrintChunks(cs, last, ts)), Trailed(h, TrailedFlags(w, ts)),
                     ChunksTrace(t, cs, ts))
  {
    hide Feed, ResponseShown, ResponseTrace, PrintResponse, IsResponse, EndsWith, Framing, Awaits, PrintChunks;
    hide ChunksTrace, TrailedFlags;
    var h := ResponseShown(v, r);
    ResponseRoundTrip(v, r);
    FeedConcat(v, PrintResponse(r), PrintChunks(cs, last, ts));
    ChunkedBody(Feed(v, PrintResponse(r)), h, Then(ResponseTrace(v.trace, r), HeadersComplete(h)), cs, last, ts);
  }

  lemma ChunkedStarts(w: View, h: Head)
    requires HeadOf(w) == h && Framing(h).BetweenChunks?
    ensures w.flags.chunked && w.line == h.line
  {
  }

  lemma DecodedNone(t: Trace)
    ensures Decoded(t, []) == t
  {
  }

  lemma {:induction false} FrameChunked(x: Frame, hs: seq<Header>)
    requires forall k :: 0 <= k < |hs| ==> IsHeader(hs[k])
    ensures x.flags.chunked ==> FrameOf(x, hs).flags.chunked
    decreases |hs|
  {
    if |hs| > 0 {
      FramedChunked(x, hs[0]);
      hide IsHeader, Framed;
      FrameChunked(Framed(x, hs[0]), hs[1..]);
    }
  }

  lemma FramedChunked(x: Frame, h: Header)
    requires IsHeader(h)
    ensures x.flags.chunked ==> Framed(x, h).flags.chunked
  {
    hide Decimal, SameWord, Spells, ScanFirst, IsHeader, Split;
    ScanFirstChunked(x.flags, Split(h.value));
  }

  lemma ScanFirstChunked(f: Flags, es: seq<string>)
    requires |es| > 0
    ensures f.chunked ==> ScanFirst(f, es).chunked
  {
    hide Judged, Scan;
    ScanChunked(f, Pass, es[1..]);
    ScanChunked(Marked(f, Look, Judged(es[0])), NextMode(Look, Judged(es[0])), es[1..]);
  }

  lemma {:induction false} ScanChunked(f: Flags, mode: Mode, es: seq<string>)
    ensures f.chunked ==> Scan(f, mode, es).chunked
    decreases |es|
  {
    hide Judge;
    if |es| > 0 {
      ScanChunked(Marked(f, mode, Judge(es[0])), NextMode(mode, Judge(es[0])), es[1..]);
    }
  }

  lemma ChunkedKeep(w: View, h: Head)
    requires w.flags.chunked && w.line == h.line && w.flags.close == h.close && w.flags.keepAlive == h.keepAlive
    requires h.chunked
    ensures NewMessage(w) == if Persistent(h) then StartState(w) else Dead
  {
  }
}
