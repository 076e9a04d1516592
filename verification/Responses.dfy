// Printing a response head and parsing it gives back the response.
module Responses {
  import opened Chars
  import opened Types
  import opened Events
  import opened Views
  import opened StartLine
  import opened Body
  import opened Machine
  import opened Runs
  import opened Lengths
  import opened Numerals
  import opened Values
  import opened Monitor
  import opened Requests

  datatype ResponseHead = ResponseHead(major: string, minor: string, status: string, reason: string,
                                       headers: seq<Header>)

  predicate IsResponse(r: ResponseHead) {
    && IsNumber(r.major) && IsNumber(r.minor) && IsNumber(r.status) && IsLine(r.reason)
    && forall k :: 0 <= k < |r.headers| ==> IsHeader(r.headers[k])
  }

  function StatusLine(r: ResponseHead, rest: string): string {
    "HTTP/" + ((r.major + ['.']) + ((r.minor + [' ']) + ((r.status + [' ']) + ((r.reason + CRLF) + rest))))
  }

  function PrintResponse(r: ResponseHead): string { StatusLine(r, HeaderSection(r.headers)) }

  // The callbacks of a response head, before on_headers_complete.
  function ResponseTrace(t: Trace, r: ResponseHead): Trace {
    var u := Then(t, MessageBegin);
    HeaderTrace(if r.reason == [] then u else Then(u, Data(Events.Status, r.reason)), r.headers)
  }

  // A new response.
  function Opening(v: View): View {
    Tell(v.(flags := NO_FLAGS, contentLength := ULLONG_MAX, state := Res(ResH)), MessageBegin)
  }

  lemma LiteralSteps(v: View)
    requires !Halted(v)
    ensures v.state == Res(StartRes) ==> Step(v, 'H') == Opening(v)
    ensures v.state == Res(ResH) ==> Step(v, 'T') == v.(state := Res(ResHT))
    ensures v.state == Res(ResHT) ==> Step(v, 'T') == v.(state := Res(ResHTT))
    ensures v.state == Res(ResHTT) ==> Step(v, 'P') == v.(state := Res(ResHTTP))
    ensures v.state == Res(ResHTTP) ==> Step(v, '/') == v.(state := Res(ResFirstMajor))
  {
    hide StepStatusCode, MoreMajor, MoreMinor, StepStartReqOrRes;
  }

  lemma HttpRead(v: View)
    requires !Halted(v) && v.state == Res(StartRes)
    ensures Feed(v, "HTTP/") == Opening(v).(state := Res(ResFirstMajor))
  {
    hide Step, Feed;
    var d, w := "HTTP/", Opening(v);
    LiteralSteps(v);
    LiteralSteps(w);
    LiteralSteps(w.(state := Res(ResHT)));
    LiteralSteps(w.(state := Res(ResHTT)));
    LiteralSteps(w.(state := Res(ResHTTP)));
    FeedCons(v, d);
    FeedCons(w, d[1..]);
    FeedCons(w.(state := Res(ResHT)), d[1..][1..]);
    FeedCons(w.(state := Res(ResHTT)), d[1..][1..][1..]);
    assert d[1..][1..][1..][1..] == "/";
    FeedOne(w.(state := Res(ResHTTP)), '/');
  }

  lemma NumberSteps(v: View, ch: char)
    requires !Halted(v)
    ensures v.state == Res(ResFirstMajor) && IsNum(ch) ==>
              Step(v, ch) == v.(state := Res(ResMajor), line := v.line.(major := Digit(ch)))
    ensures v.state == Res(ResMajor) ==> Step(v, '.') == v.(state := Res(ResFirstMinor))
    ensures v.state == Res(ResFirstMinor) && IsNum(ch) ==>
              Step(v, ch) == v.(state := Res(ResMinor), line := v.line.(minor := Digit(ch)))
    ensures v.state == Res(ResMinor) ==> Step(v, ' ') == v.(state := Res(ResFirstStatus))
    ensures v.state == Res(ResFirstStatus) && IsNum(ch) ==>
              Step(v, ch) == v.(state := Res(ResStatusCode), line := v.line.(status := Digit(ch)))
    ensures v.state == Res(ResStatusCode) ==> Step(v, ' ') == v.(state := Res(ResStatusStart))
  {
    hide MoreMajor, MoreMinor, StepStartReqOrRes, StepStartRes;
  }

  // The major version and the dot.
  lemma MajorRead(v: View, s: string)
    requires !Halted(v) && v.state == Res(ResFirstMajor) && IsNumber(s)
    ensures Feed(v, s + ['.']) == v.(state := Res(ResFirstMinor), line := v.line.(major := Decimal(0, s)))
  {
    hide Step, Feed, Digit, Decimal;
    NumberSteps(v, s[0]);
    DecimalFirst(0, s);
    FeedCons(v, s);
    MajorTail(Step(v, s[0]), s[1..]);
    FeedConcat(v, s, ['.']);
    FeedOne(Feed(v, s), '.');
    NumberSteps(Feed(v, s), '.');
  }

  // The minor version and the space.
  lemma MinorRead(v: View, s: string)
    requires !Halted(v) && v.state == Res(ResFirstMinor) && IsNumber(s)
    ensures Feed(v, s + [' ']) == v.(state := Res(ResFirstStatus), line := v.line.(minor := Decimal(0, s)))
  {
    hide Step, Feed, Digit, Decimal;
    NumberSteps(v, s[0]);
    DecimalFirst(0, s);
    FeedCons(v, s);
    MinorTail(Step(v, s[0]), s[1..]);
    FeedConcat(v, s, [' ']);
    FeedOne(Feed(v, s), ' ');
    NumberSteps(Feed(v, s), ' ');
  }

  lemma StatusCodeByte(v: View, ch: char)
    requires !Halted(v) && v.state == Res(ResStatusCode) && IsNum(ch)
    ensures var w := v.(line := v.line.(status := v.line.status * 10 + Digit(ch)));
            Step(v, ch) == if w.line.status <= 999 then w else Fail(w, InvalidStatus)
  {
  }

  lemma {:induction false} StatusCodeTail(v: View, s: string)
    requires !Halted(v) && v.state == Res(ResStatusCode) && AllDigits(s) && v.line.status <= 999
    ensures Decimal(v.line.status, s) <= 999 ==> Feed(v, s) == v.(line := v.line.(status := Decimal(v.line.status, s)))
    ensures Decimal(v.line.status, s) > 999 ==> Feed(v, s).errno == InvalidStatus
    decreases |s|
  {
    hide Step, Feed, Digit, Decimal;
    if |s| == 0 {
      assert s == [];
      DecimalNothing(v.line.status);
      FeedNothing(v);
    } else {
      var n := v.line.status * 10 + Digit(s[0]);
      DecimalFirst(v.line.status, s);
      DecimalGrows(n, s[1..]);
      StatusCodeByte(v, s[0]);
      FeedCons(v, s);
      if n <= 999 {
        StatusCodeTail(v.(line := v.line.(status := n)), s[1..]);
      } else {
        FeedHalted(Step(v, s[0]), s[1..]);
      }
    }
  }

  // The status code and the space.
  lemma StatusRead(v: View, s: string)
    requires !Halted(v) && v.state == Res(ResFirstStatus) && IsNumber(s)
    ensures Feed(v, s + [' ']) == v.(state := Res(ResStatusStart), line := v.line.(status := Decimal(0, s)))
  {
    hide Step, Feed, Digit, Decimal;
    NumberSteps(v, s[0]);
    DecimalFirst(0, s);
    FeedCons(v, s);
    StatusCodeTail(Step(v, s[0]), s[1..]);
    FeedConcat(v, s, [' ']);
    FeedOne(Feed(v, s), ' ');
    NumberSteps(Feed(v, s), ' ');
  }

  lemma ReasonSteps(v: View, ch: char)
    requires !Halted(v) && (v.state == Res(ResStatusStart) || v.state == Res(ResStatus))
    ensures Step(v, CR) == v.(state := Res(ResLineAlmostDone))
    ensures !IsEol(ch) && v.state == Res(ResStatusStart) ==>
              Step(v, ch) == Tell(v.(state := Res(ResStatus), index := 0), Data(Events.Status, [ch]))
    ensures !IsEol(ch) && v.state == Res(ResStatus) ==> Step(v, ch) == Tell(v, Data(Events.Status, [ch]))
  {
    hide MoreMajor, MoreMinor, StepStartReqOrRes, StepStartRes, StepStatusCode;
  }

  lemma LineDone(v: View)
    requires !Halted(v) && v.state == Res(ResLineAlmostDone)
    ensures Step(v, LF) == v.(state := Hdr(FieldStart))
  {
  }

  lemma {:induction false} ReasonTail(v: View, s: string)
    requires !Halted(v) && v.state == Res(ResStatus) && EndsIn(v.trace, Events.Status) && IsLine(s)
    ensures Feed(v, s) == Tell(v, Data(Events.Status, s))
    decreases |s|
  {
    if |s| == 0 {
      assert s == [];
      FeedNothing(v);
      EmitNothing(v.trace, Events.Status);
    } else {
      ReasonSteps(v, s[0]);
      hide Step, Feed;
      FeedCons(v, s);
      ReasonTail(Step(v, s[0]), s[1..]);
      EmitTwice(v.trace, Events.Status, [s[0]], s[1..]);
      assert [s[0]] + s[1..] == s;
    }
  }

  // The reason phrase and the end of the line; an empty phrase is not announced.
  lemma ReasonRead(v: View, s: string) returns (w: View)
    requires !Halted(v) && v.state == Res(ResStatusStart) && IsLine(s) && !EndsIn(v.trace, Events.Status)
    ensures w == Feed(v, s + CRLF) && w.state == Hdr(FieldStart)
    ensures w.trace == if s == [] then v.trace else Then(v.trace, Data(Events.Status, s))
    ensures w == v.(state := w.state, index := w.index, trace := w.trace)
  {
    hide Feed, Step;
    var x := v;
    FeedNothing(v);
    if s != [] {
      ReasonSteps(v, s[0]);
      FeedCons(v, s);
      ReasonTail(Step(v, s[0]), s[1..]);
      EmitTwice(v.trace, Events.Status, [s[0]], s[1..]);
      assert [s[0]] + s[1..] == s;
      x := Feed(v, s);
    }
    ReasonSteps(x, CR);
    var y := x.(state := Res(ResLineAlmostDone));
    LineDone(y);
    FeedCons(x, CRLF);
    assert CRLF[1..] == [LF];
    FeedOne(y, LF);
    FeedConcat(v, s, CRLF);
    w := y.(state := Hdr(FieldStart));
  }

  // The status line.
  lemma StatusLineRead(v: View, r: ResponseHead, rest: string) returns (w: View)
    requires !Halted(v) && v.state == Res(StartRes) && IsResponse(r)
    ensures Feed(v, StatusLine(r, rest)) == Feed(w, rest)
    ensures !Halted(w) && w.state == Hdr(FieldStart) && w.app == v.app
    ensures w.flags == NO_FLAGS && w.contentLength == ULLONG_MAX
    ensures w.line ==
            v.line.(major := Decimal(0, r.major), minor := Decimal(0, r.minor), status := Decimal(0, r.status))
    ensures var u := Then(v.trace, MessageBegin);
            w.trace == if r.reason == [] then u else Then(u, Data(Events.Status, r.reason))
  {
    hide Step, Feed, Decimal, IsLine;
    HttpRead(v);
    var v1 := Opening(v).(state := Res(ResFirstMajor));
    MajorRead(v1, r.major);
    var v2 := v1.(state := Res(ResFirstMinor), line := v1.line.(major := Decimal(0, r.major)));
    MinorRead(v2, r.minor);
    var v3 := v2.(state := Res(ResFirstStatus), line := v2.line.(minor := Decimal(0, r.minor)));
    StatusRead(v3, r.status);
    var v4 := v3.(state := Res(ResStatusStart), line := v3.line.(status := Decimal(0, r.status)));
    w := ReasonRead(v4, r.reason);
    var a := (r.reason + CRLF) + rest;
    var b := (r.status + [' ']) + a;
    var c := (r.minor + [' ']) + b;
    FeedConcat(v4, r.reason + CRLF, rest);
    FeedConcat(v3, r.status + [' '], a);
    FeedConcat(v2, r.minor + [' '], b);
    FeedConcat(v1, r.major + ['.'], c);
    FeedConcat(v, "HTTP/", (r.major + ['.']) + c);
  }

  // What the header lines of a response make on_headers_complete show.
  function ResponseShown(v: View, r: ResponseHead): Head
    requires IsResponse(r)
  {
    HeadShown(v.line.(major := Decimal(0, r.major), minor := Decimal(0, r.minor), status := Decimal(0, r.status)),
              FrameOf(Frame(NO_FLAGS, ULLONG_MAX), r.headers), v.app.heads in v.app.skips)
  }

  // Version and status are the numbers that are written.
  lemma ResponseNumbers(v: View, r: ResponseHead, major: nat, minor: nat, status: nat)
    requires IsResponse(r) && Writes(r.major, major) && Writes(r.minor, minor) && Writes(r.status, status)
    ensures var line := ResponseShown(v, r).line; line.major == major && line.minor == minor && line.status == status
  {
    hide Writes, Decimal, FrameOf;
    NumberWrites(r.major, major);
    NumberWrites(r.minor, minor);
    NumberWrites(r.status, status);
  }

  // Greater ones than 999 are refused.
  lemma NumberLimit(v: View, s: string, n: nat)
    requires !Halted(v) && Writes(s, n) && n > 999
    ensures v.state == Res(ResFirstMajor) || v.state == Res(ResFirstMinor) ==> Feed(v, s).errno == InvalidVersion
    ensures v.state == Res(ResFirstStatus) ==> Feed(v, s).errno == InvalidStatus
  {
    hide Step, Feed, Digit, Decimal;
    NumberWrites(s, n);
    NumberSteps(v, s[0]);
    DecimalFirst(0, s);
    FeedCons(v, s);
    if v.state == Res(ResFirstMajor) {
      MajorTail(Step(v, s[0]), s[1..]);
    } else if v.state == Res(ResFirstMinor) {
      MinorTail(Step(v, s[0]), s[1..]);
    } else if v.state == Res(ResFirstStatus) {
      StatusCodeTail(Step(v, s[0]), s[1..]);
    }
  }

  // Print, then parse: the version, the status, the reason phrase and the header lines come back, and the
  // parser goes on to the body that section 4.4 of RFC 2616 gives the response.
  lemma ResponseRoundTrip(v: View, r: ResponseHead)
    requires !Halted(v) && v.state == Res(StartRes) && IsResponse(r)
    ensures var h := ResponseShown(v, r);
            Awaits(Feed(v, PrintResponse(r)), h, Then(ResponseTrace(v.trace, r), HeadersComplete(h)))
  {
    hide Step, Feed, Decimal, IsHeader, StatusLine, Lines, AnnounceHead, StepHeadersDone, HeadShown, Awaits, FrameOf;
    var x := StatusLineRead(v, r, HeaderSection(r.headers));
    FrameFlags(Frame(NO_FLAGS, ULLONG_MAX), r.headers);
    var y := LinesRun(x, r.headers, CRLF);
    SectionEnds(y);
    Announced(y.(state := Msg(HeadersAlmostDone)));
    HeadEnd(AnnounceHead(y.(state := Msg(HeadersAlmostDone))));
  }

  // A message announced n times
  function Begun(t: Trace, n: nat): Trace
    decreases n
  {
    if n == 0 then t else Begun(Then(t, MessageBegin), n - 1)
  }

  lemma EmptyLineByte(v: View, ch: char)
    requires !Halted(v) && v.state == Res(StartRes) && IsEol(ch)
    ensures Step(v, ch) == v.(flags := NO_FLAGS, contentLength := ULLONG_MAX, trace := Then(v.trace, MessageBegin))
  {
  }

  // Every line end before a response announces a message.
  lemma {:induction false} EmptyLinesAnnounced(v: View, s: string)
    requires !Halted(v) && v.state == Res(StartRes) && |s| > 0 && forall k :: 0 <= k < |s| ==> IsEol(s[k])
    ensures Feed(v, s) == v.(flags := NO_FLAGS, contentLength := ULLONG_MAX, trace := Begun(v.trace, |s|))
    decreases |s|
  {
    EmptyLineByte(v, s[0]);
    hide Step, Feed, IsEol;
    FeedCons(v, s);
    if |s| > 1 {
      EmptyLinesAnnounced(Step(v, s[0]), s[1..]);
    } else {
      assert s[1..] == [];
      FeedNothing(Step(v, s[0]));
    }
  }
}
