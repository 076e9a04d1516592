// Where HTTP ends in an input that goes on with another protocol: whatever follows a message that
// upgrades the connection, and however the input is cut, the parser takes that message and no byte more.
module Exits {
  import opened Chars
  import opened Types
  import opened Events
  import opened Views
  import opened Body
  import opened Machine
  import opened Runs
  import opened Steps
  import opened Calls
  import opened Lengths
  import opened Chunks
  import opened Monitor
  import opened Requests
  import opened Responses
  import opened Messages
  import opened Sessions

  // The parser leaves HTTP at the last byte of msg.
  predicate LeavesWith(v: View, msg: string) {
    && |msg| > 0 && !Halted(Feed(v, msg[..|msg| - 1]))
    && Feed(v, msg).errno == OK && Feed(v, msg).app.left
  }

  lemma PrefixRun(v: View, msg: string, rest: string, k: nat)
    requires k <= |msg|
    ensures Run(v, msg + rest, 0, k) == Feed(v, msg[..k])
  {
    hide Step;
    var prefix := msg[..k];
    assert (msg + rest)[0..k] == prefix[0..k];
    RunShift(v, msg + rest, 0, k, prefix, 0);
  }

  // A session on such a message and other bytes can only end right after the message.
  lemma ExitOffset(v: View, msg: string, rest: string, calls: seq<Call>, c: Call)
    requires !Halted(v) && LeavesWith(v, msg) && Session(v, msg + rest, calls) && Taken(calls) <= |msg + rest|
    requires IsCall(Last(v, calls), (msg + rest)[Taken(calls)..], c) && Ends(c)
    ensures Taken(calls) + c.n == |msg| && Healthy(c.after.errno) && Resumed(c.after) == Feed(v, msg)
  {
    hide Step, Run, Session, Taken, Last, IsCall;
    var input, n, e := msg + rest, |msg|, EndOf(calls, c);
    SessionEndsAt(v, input, calls, c);
    assert msg[..n] == msg;
    PrefixRun(v, msg, rest, n);
    PrefixRun(v, msg, rest, n - 1);
    if e > n {
      StillRuns(v, input, 0, n, e - 1);
    } else if e < n {
      StillRuns(v, input, 0, e, n - 1);
    }
  }

  // One call on all of it, with callbacks that answer 0 and room in the budget, does end there.
  lemma ExitAtOnce(v: View, msg: string, rest: string, n0: nat, n: nat, after: View, n1: nat)
    requires !Halted(v) && LeavesWith(v, msg) && Called(v, n0, msg + rest, n, after, n1)
    requires after.errno == OK
    ensures n == |msg| && after == Feed(v, msg)
  {
    hide Step, Run, Called, Tallied, Outcome;
    var input := msg + rest;
    var c := Call(input, n, n0, n1, after);
    assert input[..|input|] == input && input[0..] == input && Opened(v) == v && msg[..|msg|] == msg;
    PrefixRun(v, msg, rest, |msg|);
    if !after.app.left {
      CallTakesAll(v, n0, input, n, after, n1);
      RunSplit(v, input, 0, |msg|, |input|);
      HaltedStays(Feed(v, msg), input, |msg|);
    } else {
      CallLeaves(v, n0, input, n, after, n1);
      ExitOffset(v, msg, rest, [], c);
    }
  }

  lemma HaltedStays(v: View, data: string, i: nat)
    requires i <= |data| && Halted(v)
    ensures Run(v, data, i, |data|) == v
  {
  }

  lemma CallTakesAll(v: View, n0: nat, data: string, n: nat, after: View, n1: nat)
    requires Called(v, n0, data, n, after, n1) && after.errno == OK && !after.app.left
    ensures Feed(v, data) == after
  {
    hide Step, Run, Tallied;
  }

  lemma CallLeaves(v: View, n0: nat, data: string, n: nat, after: View, n1: nat)
    requires Called(v, n0, data, n, after, n1) && after.errno == OK && after.app.left
    ensures n <= |data|
  {
    hide Step, Run, Tallied;
  }

  lemma {:induction false} LinesSnoc(hs: seq<Header>, a: string, b: string)
    ensures Lines(hs, a + b) == Lines(hs, a) + b
    decreases |hs|
  {
    hide HeaderLine;
    if |hs| > 0 {
      LinesSnoc(hs[1..], a, b);
    }
  }

  lemma ButLast(s: string, ch: char)
    ensures |s + [ch]| == |s| + 1 && (s + [ch])[..|s + [ch]| - 1] == s
  {
  }

  lemma FirstOfTwo(v: View)
    requires !Halted(v) && v.state == Hdr(Types.FieldStart)
    ensures !Halted(Feed(v, [CR]))
  {
    FeedOne(v, CR);
  }

  lemma RequestLineSnoc(r: RequestHead, a: string, b: string)
    ensures RequestLine(r, a + b) == RequestLine(r, a) + b
  {
    hide MethodName;
  }

  lemma StatusLineSnoc(r: ResponseHead, a: string, b: string)
    ensures StatusLine(r, a + b) == StatusLine(r, a) + b
  {
  }

  // A request head ends at its last byte and not before,
  lemma RequestEnds(v: View, r: RequestHead)
    requires !Halted(v) && v.state == Req(StartReq) && IsRequest(r)
    ensures |Print(r)| > 0 && !Halted(Feed(v, Print(r)[..|Print(r)| - 1]))
  {
    hide Step, Feed, IsUrl, Decimal, IsHeader, RequestLine, Lines;
    var most := RequestLine(r, Lines(r.headers, [CR]));
    assert CRLF == [CR] + [LF];
    LinesSnoc(r.headers, [CR], [LF]);
    RequestLineSnoc(r, Lines(r.headers, [CR]), [LF]);
    ButLast(most, LF);
    var x := LineRead(v, r, Lines(r.headers, [CR]));
    var y := LinesRun(x, r.headers, [CR]);
    FirstOfTwo(y);
  }

  // and so does a response head.
  lemma ResponseEnds(v: View, r: ResponseHead)
    requires !Halted(v) && v.state == Res(StartRes) && IsResponse(r)
    ensures |PrintResponse(r)| > 0 && !Halted(Feed(v, PrintResponse(r)[..|PrintResponse(r)| - 1]))
  {
    hide Step, Feed, Decimal, IsHeader, StatusLine, Lines;
    var most := StatusLine(r, Lines(r.headers, [CR]));
    assert CRLF == [CR] + [LF];
    LinesSnoc(r.headers, [CR], [LF]);
    StatusLineSnoc(r, Lines(r.headers, [CR]), [LF]);
    ButLast(most, LF);
    var x := StatusLineRead(v, r, Lines(r.headers, [CR]));
    var y := LinesRun(x, r.headers, [CR]);
    FirstOfTwo(y);
  }

  // A request that upgrades and has no body: the bytes after its head are the other protocol's.
  lemma UpgradeExit(v: View, r: RequestHead)
    requires !Halted(v) && v.state == Req(StartReq) && IsRequest(r)
    requires var h := RequestShown(v, r); Framing(h) == Monitor.Counted(0) && h.line.upgrade
    ensures LeavesWith(v, Print(r))
  {
    hide Feed, Print, IsRequest, RequestShown, RequestTrace, Framing;
    RequestRoundTrip(v, r);
    RequestEnds(v, r);
  }

  // So one call on such a head and any bytes after it, that ends without an error, returns the length of the head.
  lemma UpgradeReturns(v: View, r: RequestHead, rest: string, n0: nat, n: nat, after: View, n1: nat)
    requires !Halted(v) && v.state == Req(StartReq) && IsRequest(r)
    requires var h := RequestShown(v, r); Framing(h) == Monitor.Counted(0) && h.line.upgrade
    requires Called(v, n0, Print(r) + rest, n, after, n1) && after.errno == OK
    ensures n == |Print(r)| && after.app.left
  {
    hide Feed, Print, IsRequest, RequestShown, Framing, Called;
    UpgradeExit(v, r);
    ExitAtOnce(v, Print(r), rest, n0, n, after, n1);
  }

  // A response with which the server switches protocols
  lemma SwitchExit(v: View, r: ResponseHead)
    requires !Halted(v) && v.state == Res(StartRes) && IsResponse(r)
    requires var h := ResponseShown(v, r); Framing(h) == Monitor.Counted(0) && h.line.upgrade
    ensures LeavesWith(v, PrintResponse(r))
  {
    hide Feed, PrintResponse, IsResponse, ResponseShown, ResponseTrace, Framing;
    ResponseRoundTrip(v, r);
    ResponseEnds(v, r);
  }

  // A body that is counted ends at its last byte,
  lemma CountedEnds(w: View, h: Head, t: Trace, d: string)
    requires Awaits(w, h, t) && d != [] && Framing(h) == Monitor.Counted(|d|)
    ensures !Halted(Feed(w, d[..|d| - 1]))
  {
    hide Feed, StepMessageDone, Framing;
    CountedLength(h, |d|);
    if |d| == 1 {
      assert d[..0] == [];
      FeedNothing(w);
    } else {
      BodyExact(w, d[..|d| - 1]);
    }
  }

  // and so do chunks and trailers.
  lemma ChunksEnd(v: View, cs: seq<BodyChunk>, last: BodyChunk, ts: seq<Header>)
    requires !Halted(v) && v.state == Chunk(SizeStart) && IsChunks(cs, last, ts)
    ensures var p := PrintChunks(cs, last, ts); |p| > 0 && !Halted(Feed(v, p[..|p| - 1]))
  {
    hide Step, Feed, IsChunk, IsHeader, EncodeAll, SizeLine, Decoded, Lines;
    var a, b, c := EncodeAll(cs), SizeLine(last), Lines(ts, [CR]);
    assert CRLF == [CR] + [LF];
    LinesSnoc(ts, [CR], [LF]);
    assert a + (b + (c + [LF])) == (a + (b + c)) + [LF];
    ButLast(a + (b + c), LF);
    ChunksRun(v, cs);
    var x := if |cs| == 0 then v else v.(contentLength := 0, trace := Decoded(v.trace, cs));
    FeedConcat(v, a, b + c);
    SizeLineRun(x, last);
    FeedConcat(x, b, c);
    var y := LinesRun(Feed(x, b), ts, [CR]);
    FirstOfTwo(y);
  }

  lemma PartEnds(v: View, head: string, body: string)
    requires body != [] && !Halted(Feed(Feed(v, head), body[..|body| - 1]))
    ensures |head + body| > 0 && !Halted(Feed(v, (head + body)[..|head + body| - 1]))
  {
    hide Step, Feed;
    assert (head + body)[..|head + body| - 1] == head + body[..|body| - 1];
    FeedConcat(v, head, body[..|body| - 1]);
  }

  // A request that upgrades and has a body: the other protocol starts after the body, whether it is counted
  lemma CountedExit(v: View, r: RequestHead, d: string)
    requires !Halted(v) && v.state == Req(StartReq) && IsRequest(r) && d != []
    requires var h := RequestShown(v, r); Framing(h) == Monitor.Counted(|d|) && h.line.upgrade
    ensures LeavesWith(v, Print(r) + d)
  {
    hide Feed, Print, IsRequest, RequestShown, RequestTrace, Framing, Awaits;
    var h := RequestShown(v, r);
    RequestRoundTrip(v, r);
    CountedRoundTrip(v, r, d);
    CountedEnds(Feed(v, Print(r)), h, Then(RequestTrace(v.trace, r), HeadersComplete(h)), d);
    PartEnds(v, Print(r), d);
  }

  // or chunked.
  lemma ChunkedExit(v: View, r: RequestHead, cs: seq<BodyChunk>, last: BodyChunk, ts: seq<Header>)
    requires !Halted(v) && v.state == Req(StartReq) && IsRequest(r) && IsChunks(cs, last, ts)
    requires var h := RequestShown(v, r); Framing(h).BetweenChunks? && h.line.upgrade
    ensures LeavesWith(v, Print(r) + PrintChunks(cs, last, ts))
  {
    hide Feed, Print, IsRequest, RequestShown, RequestTrace, Framing, PrintChunks, ChunksTrace, TrailedFlags;
    RequestRoundTrip(v, r);
    ChunkedMessageRoundTrip(v, r, cs, last, ts);
    ChunksEnd(Feed(v, Print(r)), cs, last, ts);
    PartEnds(v, Print(r), PrintChunks(cs, last, ts));
  }
}
