// Printing a request head and parsing it gives back the request.
module Requests {
  import opened Chars
  import opened Alphabets
  import opened Types
  import opened Events
  import opened Views
  import opened StartLine
  import opened Urls
  import Syntax
  import opened Headers
  import opened Body
  import opened Machine
  import opened Invariant
  import opened Runs
  import opened Lengths
  import opened Numerals
  import opened Names
  import opened Values
  import opened Methods
  import opened Monitor

  // The URLs the parser takes for a method.
  predicate IsUrl(m: Method, url: string) {
    |url| > 0 && UrlRun(UrlStart(m == CONNECT), url).Some? && Syntax.MayEnd(UrlRun(UrlStart(m == CONNECT), url).value)
  }

  // The same as a syntax: they start like a path or with a letter, or with an authority in a CONNECT request,
  // and do not stop short of the authority.
  lemma UrlSyntaxExact(m: Method, url: string)
    ensures IsUrl(m, url) <==>
            && |url| > 0 && Syntax.Reads(UrlStart(m == CONNECT), url)
            && (m == CONNECT || !Syntax.Incomplete(url))
  {
    hide UrlRun, Syntax.Reads, Syntax.Incomplete;
    Syntax.UrlSyntax(UrlStart(m == CONNECT), url);
    if UrlRun(UrlStart(m == CONNECT), url).Some? {
      Syntax.EndsShort(UrlStart(m == CONNECT), url);
    }
  }

  lemma UrlByte(v: View, u: UrlState, ch: char)
    requires !Halted(v) && v.state == InUrl(u) && !u.SpacesBeforeUrl? && ParseUrlChar(u, ch).Some?
    ensures Step(v, ch) == Tell(v.(state := InUrl(ParseUrlChar(u, ch).value)), Data(Url, [ch]))
    ensures !ParseUrlChar(u, ch).value.SpacesBeforeUrl?
  {
  }

  lemma FirstUrlByte(v: View, ch: char)
    requires !Halted(v) && v.state == InUrl(SpacesBeforeUrl) && ParseUrlChar(UrlStart(v.line.verb == CONNECT), ch).Some?
    ensures Step(v, ch) ==
            Tell(v.(state := InUrl(ParseUrlChar(UrlStart(v.line.verb == CONNECT), ch).value)), Data(Url, [ch]))
    ensures !ParseUrlChar(UrlStart(v.line.verb == CONNECT), ch).value.SpacesBeforeUrl?
  {
  }

  lemma {:induction false} UrlTail(v: View, u: UrlState, s: string)
    requires !Halted(v) && v.state == InUrl(u) && !u.SpacesBeforeUrl? && EndsIn(v.trace, Url) && UrlRun(u, s).Some?
    ensures Feed(v, s) == Tell(v.(state := InUrl(UrlRun(u, s).value)), Data(Url, s))
    ensures !UrlRun(u, s).value.SpacesBeforeUrl?
    decreases |s|
  {
    if |s| == 0 {
      assert s == [];
      FeedNothing(v);
      EmitNothing(v.trace, Url);
    } else {
      UrlByte(v, u, s[0]);
      hide Step, Feed, ParseUrlChar;
      FeedCons(v, s);
      UrlTail(Step(v, s[0]), ParseUrlChar(u, s[0]).value, s[1..]);
      EmitTwice(v.trace, Url, [s[0]], s[1..]);
      assert [s[0]] + s[1..] == s;
    }
  }

  lemma UrlSpace(v: View, u: UrlState)
    requires !Halted(v) && v.state == InUrl(u) && Syntax.MayEnd(u)
    ensures Step(v, ' ') == v.(state := Req(ReqHttpStart))
  {
  }

  lemma UrlRead(v: View, url: string) returns (u: UrlState)
    requires !Halted(v) && v.state == InUrl(SpacesBeforeUrl) && IsUrl(v.line.verb, url)
    ensures Feed(v, url) == Tell(v.(state := InUrl(u)), Data(Url, url)) && Syntax.MayEnd(u)
  {
    hide Step, Feed, ParseUrlChar, UrlStart;
    FirstUrlByte(v, url[0]);
    var first := ParseUrlChar(UrlStart(v.line.verb == CONNECT), url[0]).value;
    FeedCons(v, url);
    UrlTail(Step(v, url[0]), first, url[1..]);
    EmitTwice(v.trace, Url, [url[0]], url[1..]);
    assert [url[0]] + url[1..] == url;
    u := UrlRun(first, url[1..]).value;
  }

  // The URL and the space after it.
  lemma UrlRuns(v: View, url: string)
    requires !Halted(v) && v.state == InUrl(SpacesBeforeUrl) && IsUrl(v.line.verb, url)
    ensures Feed(v, url + [' ']) == Tell(v.(state := Req(ReqHttpStart)), Data(Url, url))
  {
    hide Step, Feed, ParseUrlChar, UrlStart, IsUrl;
    var u := UrlRead(v, url);
    FeedConcat(v, url, [' ']);
    FeedOne(Feed(v, url), ' ');
    UrlSpace(Feed(v, url), u);
  }

  lemma HttpRuns(v: View)
    requires !Halted(v) && v.state == Req(ReqHttpStart)
    ensures Feed(v, "HTTP/") == v.(state := Req(ReqFirstMajor))
  {
    hide Step, Feed;
    var d := "HTTP/";
    LiteralByte(v, ReqHttpStart, 'H', ReqHttpH);
    LiteralByte(v.(state := Req(ReqHttpH)), ReqHttpH, 'T', ReqHttpHT);
    LiteralByte(v.(state := Req(ReqHttpHT)), ReqHttpHT, 'T', ReqHttpHTT);
    LiteralByte(v.(state := Req(ReqHttpHTT)), ReqHttpHTT, 'P', ReqHttpHTTP);
    LiteralByte(v.(state := Req(ReqHttpHTTP)), ReqHttpHTTP, '/', ReqFirstMajor);
    FeedCons(v, d);
    FeedCons(v.(state := Req(ReqHttpH)), d[1..]);
    FeedCons(v.(state := Req(ReqHttpHT)), d[1..][1..]);
    FeedCons(v.(state := Req(ReqHttpHTT)), d[1..][1..][1..]);
    assert d[1..][1..][1..][1..] == "/";
    FeedOne(v.(state := Req(ReqHttpHTTP)), '/');
  }

  lemma LiteralByte(v: View, q: ReqState, ch: char, next: ReqState)
    requires !Halted(v) && v.state == Req(q)
    requires || (q == ReqHttpStart && ch == 'H' && next == ReqHttpH)
             || (q == ReqHttpH && ch == 'T' && next == ReqHttpHT)
             || (q == ReqHttpHT && ch == 'T' && next == ReqHttpHTT)
             || (q == ReqHttpHTT && ch == 'P' && next == ReqHttpHTTP)
             || (q == ReqHttpHTTP && ch == '/' && next == ReqFirstMajor)
    ensures Step(v, ch) == v.(state := Req(next))
  {
  }

  // A version number: digits, at most 999.
  predicate IsNumber(s: string) {
    |s| > 0 && AllDigits(s) && Decimal(0, s) <= 999
  }

  predicate InMajor(s: ParseState) { s == Req(ReqMajor) || s == Res(ResMajor) }

  predicate InMinor(s: ParseState) { s == Req(ReqMinor) || s == Res(ResMinor) }

  lemma MajorByte(v: View, ch: char)
    requires !Halted(v) && InMajor(v.state) && IsNum(ch)
    ensures var w := v.(line := v.line.(major := v.line.major * 10 + Digit(ch)));
            Step(v, ch) == if w.line.major <= 999 then w else Fail(w, InvalidVersion)
  {
  }

  lemma {:induction false} MajorTail(v: View, s: string)
    requires !Halted(v) && InMajor(v.state) && AllDigits(s) && v.line.major <= 999
    ensures Decimal(v.line.major, s) <= 999 ==> Feed(v, s) == v.(line := v.line.(major := Decimal(v.line.major, s)))
    ensures Decimal(v.line.major, s) > 999 ==> Feed(v, s).errno == InvalidVersion
    decreases |s|
  {
    hide Step, Feed, Digit, Decimal;
    if |s| == 0 {
      assert s == [];
      DecimalNothing(v.line.major);
      FeedNothing(v);
    } else {
      var n := v.line.major * 10 + Digit(s[0]);
      DecimalFirst(v.line.major, s);
      DecimalGrows(n, s[1..]);
      MajorByte(v, s[0]);
      FeedCons(v, s);
      if n <= 999 {
        MajorTail(v.(line := v.line.(major := n)), s[1..]);
      } else {
        FeedHalted(Step(v, s[0]), s[1..]);
      }
    }
  }

  lemma MinorByte(v: View, ch: char)
    requires !Halted(v) && InMinor(v.state) && IsNum(ch)
    ensures var w := v.(line := v.line.(minor := v.line.minor * 10 + Digit(ch)));
            Step(v, ch) == if w.line.minor <= 999 then w else Fail(w, InvalidVersion)
  {
  }

  lemma {:induction false} MinorTail(v: View, s: string)
    requires !Halted(v) && InMinor(v.state) && AllDigits(s) && v.line.minor <= 999
    ensures Decimal(v.line.minor, s) <= 999 ==> Feed(v, s) == v.(line := v.line.(minor := Decimal(v.line.minor, s)))
    ensures Decimal(v.line.minor, s) > 999 ==> Feed(v, s).errno == InvalidVersion
    decreases |s|
  {
    hide Step, Feed, Digit, Decimal;
    if |s| == 0 {
      assert s == [];
      DecimalNothing(v.line.minor);
      FeedNothing(v);
    } else {
      var n := v.line.minor * 10 + Digit(s[0]);
      DecimalFirst(v.line.minor, s);
      DecimalGrows(n, s[1..]);
      MinorByte(v, s[0]);
      FeedCons(v, s);
      if n <= 999 {
        MinorTail(v.(line := v.line.(minor := n)), s[1..]);
      } else {
        FeedHalted(Step(v, s[0]), s[1..]);
      }
    }
  }

  lemma VersionSteps(v: View, ch: char)
    requires !Halted(v)
    ensures v.state == Req(ReqFirstMajor) && IsNum(ch) && ch != '0' ==>
              Step(v, ch) == v.(state := Req(ReqMajor), line := v.line.(major := Digit(ch)))
    ensures v.state == Req(ReqMajor) ==> Step(v, '.') == v.(state := Req(ReqFirstMinor))
    ensures v.state == Req(ReqFirstMinor) && IsNum(ch) ==>
              Step(v, ch) == v.(state := Req(ReqMinor), line := v.line.(minor := Digit(ch)))
  {
    hide StepMethod, MoreMajor, MoreMinor, StepStartReq;
  }

  lemma LineEndSteps(v: View)
    requires !Halted(v)
    ensures v.state == Req(ReqMinor) ==> Step(v, CR) == v.(state := Req(ReqLineAlmostDone))
    ensures v.state == Req(ReqLineAlmostDone) ==> Step(v, LF) == v.(state := Hdr(FieldStart))
  {
    hide StepMethod, MoreMajor, MoreMinor, StepStartReq;
  }

  // The major version and the dot.
  lemma MajorRuns(v: View, s: string)
    requires !Halted(v) && v.state == Req(ReqFirstMajor) && IsNumber(s) && s[0] != '0'
    ensures Feed(v, s + ['.']) == v.(state := Req(ReqFirstMinor), line := v.line.(major := Decimal(0, s)))
  {
    hide Step, Feed, Digit, Decimal;
    VersionSteps(v, s[0]);
    DecimalFirst(0, s);
    FeedCons(v, s);
    MajorTail(Step(v, s[0]), s[1..]);
    FeedConcat(v, s, ['.']);
    FeedOne(Feed(v, s), '.');
    VersionSteps(Feed(v, s), '.');
  }

  // The minor version and the end of the line.
  lemma MinorRuns(v: View, s: string)
    requires !Halted(v) && v.state == Req(ReqFirstMinor) && IsNumber(s)
    ensures Feed(v, s + CRLF) == v.(state := Hdr(FieldStart), line := v.line.(minor := Decimal(0, s)))
  {
    hide Step, Feed, Digit, Decimal;
    VersionSteps(v, s[0]);
    DecimalFirst(0, s);
    FeedCons(v, s);
    MinorTail(Step(v, s[0]), s[1..]);
    FeedConcat(v, s, CRLF);
    var w := Feed(v, s);
    LineEndSteps(w);
    LineEndSteps(w.(state := Req(ReqLineAlmostDone)));
    FeedCons(w, CRLF);
    assert CRLF[1..] == [LF];
    FeedOne(w.(state := Req(ReqLineAlmostDone)), LF);
  }

  // The numbers that are accepted are those up to 999.
  lemma NumberWrites(s: string, n: nat)
    requires Writes(s, n)
    ensures AllDigits(s) && IsLengthText(s) && Decimal(0, s) == n && (IsNumber(s) <==> n <= 999)
  {
    hide Writes, Decimal;
    DecimalWrites(s, n);
  }

  // A greater version is refused.
  lemma VersionLimit(v: View, s: string, n: nat)
    requires !Halted(v) && Writes(s, n) && n > 999
    requires (v.state == Req(ReqFirstMajor) && s[0] != '0') || v.state == Req(ReqFirstMinor)
    ensures Feed(v, s).errno == InvalidVersion
  {
    hide Step, Feed, Digit, Decimal;
    NumberWrites(s, n);
    VersionSteps(v, s[0]);
    DecimalFirst(0, s);
    FeedCons(v, s);
    if v.state == Req(ReqFirstMajor) {
      MajorTail(Step(v, s[0]), s[1..]);
    } else {
      MinorTail(Step(v, s[0]), s[1..]);
    }
  }

  // So is a major version that starts with a zero.
  lemma VersionZero(v: View, s: string)
    requires !Halted(v) && v.state == Req(ReqFirstMajor) && |s| > 0 && s[0] == '0'
    ensures Feed(v, s).errno == InvalidVersion
  {
    ZeroStep(v);
    hide Step, Feed;
    FeedCons(v, s);
    FeedHalted(Step(v, '0'), s[1..]);
  }

  lemma ZeroStep(v: View)
    requires !Halted(v) && v.state == Req(ReqFirstMajor)
    ensures Step(v, '0') == Fail(v, InvalidVersion)
  {
  }

  datatype Header = Header(name: string, value: string)

  // A header line the parser takes: a value has no line break and starts with no blank, and that of
  // a Content-Length is a length.
  predicate IsHeader(h: Header) {
    && IsName(h.name) && IsLine(h.value)
    && (|h.value| > 0 ==> !IsBlank(h.value[0]))
    && (|h.value| > 0 && SameWord(h.name, CONTENT_LENGTH_NAME) ==>
          IsNum(h.value[0]) && IsLengthText(h.value) && Decimal(0, h.value) <= MAX_LENGTH)
  }

  function HeaderLine(h: Header): string { (h.name + [':']) + ([' '] + (h.value + CRLF)) }

  function Lines(hs: seq<Header>, rest: string): string
    decreases |hs|
  {
    if |hs| == 0 then rest else HeaderLine(hs[0]) + Lines(hs[1..], rest)
  }

  // The header section, with the empty line that ends it.
  function HeaderSection(hs: seq<Header>): string { Lines(hs, CRLF) }

  // The callbacks of the header lines, in their order.
  function HeaderTrace(t: Trace, hs: seq<Header>): Trace
    decreases |hs|
  {
    if |hs| == 0 then t
    else HeaderTrace(Then(Then(t, Data(Field, hs[0].name)), Data(Events.Value, hs[0].value)), hs[1..])
  }

  // The elements of a comma-separated list.
  function Split(s: string): (es: seq<string>)
    ensures |es| > 0
    decreases |s|
  {
    if |s| == 0 then [[]]
    else
      var es := Split(s[1..]);
      if s[0] == ',' then [[]] + es else [[s[0]] + es[0]] + es[1..]
  }

  lemma {:induction false} SplitRight(s: string)
    requires IsLine(s)
    ensures Listed(Split(s)) == s && forall k :: 0 <= k < |Split(s)| ==> IsItem(Split(s)[k])
    decreases |s|
  {
    if |s| > 0 {
      SplitRight(s[1..]);
      var es := Split(s[1..]);
      if s[0] == ',' {
        assert Split(s)[1..] == es;
      } else {
        ItemCons(s[0], es[0]);
        ListedCons(s[0], es);
      }
    }
  }

  lemma ItemCons(ch: char, e: string)
    requires IsItem(e) && !IsEol(ch) && ch != ','
    ensures IsItem([ch] + e)
  {
  }

  lemma ListedCons(ch: char, es: seq<string>)
    requires |es| > 0
    ensures Listed([[ch] + es[0]] + es[1..]) == [ch] + Listed(es)
  {
    var fs := [[ch] + es[0]] + es[1..];
    assert fs[0] == [ch] + es[0] && fs[1..] == es[1..];
    if |es| > 1 {
      Associates([ch], es[0], [','] + Listed(es[1..]));
    }
  }

  lemma Associates(a: string, b: string, c: string)
    ensures (a + b) + c == a + (b + c)
  {
  }

  // What the header lines say about the body and the connection.
  datatype Frame = Frame(flags: Flags, length: nat)

  // What one header line adds to it.
  function Framed(x: Frame, h: Header): Frame
    requires IsHeader(h)
  {
    var n := h.name;
    if |h.value| == 0 then x
    else if SameWord(n, CONTENT_LENGTH_NAME) then x.(length := Decimal(0, h.value))
    else if SameWord(n, TRANSFER_ENCODING_NAME) then
      if Spells(CHUNKED_NAME, h.value) then x.(flags := x.flags.(chunked := true)) else x
    else if SameWord(n, CONNECTION_NAME) || SameWord(n, PROXY_CONNECTION_NAME) then
      x.(flags := ScanFirst(x.flags, Split(h.value)))
    else if SameWord(n, UPGRADE_NAME) then x.(flags := x.flags.(upgrade := true))
    else x
  }

  function FrameOf(x: Frame, hs: seq<Header>): Frame
    requires forall k :: 0 <= k < |hs| ==> IsHeader(hs[k])
    decreases |hs|
  {
    if |hs| == 0 then x else FrameOf(Framed(x, hs[0]), hs[1..])
  }

  // A value byte changes nothing but flags, recogniser and trace.
  predicate Alike(v: View, w: View) {
    w == v.(flags := w.flags, hstate := w.hstate, index := w.index, trace := w.trace)
  }

  lemma TextByte(v: View, ch: char)
    requires InValue(v) && !IsEol(ch)
    ensures Step(v, ch).trace == Emit(v.trace, Data(Events.Value, [ch]))
    ensures Alike(v, Step(v, ch)) && InValue(Step(v, ch))
  {
    hide Step, ValueNext, IndexNext, FlagsNext;
    Values.ValueByte(v, ch);
    NotLength(v.hstate, v.index, ch);
  }

  lemma NotLength(h: HeaderState, index: nat, ch: char)
    requires !h.ContentLength?
    ensures !ValueNext(h, index, ch).ContentLength?
  {
  }

  lemma {:induction false} TextTail(v: View, s: string)
    requires InValue(v) && IsLine(s)
    ensures Alike(v, Feed(v, s)) && InValue(Feed(v, s))
    decreases |s|
  {
    if |s| == 0 {
      assert s == [];
      FeedNothing(v);
    } else {
      TextByte(v, s[0]);
      hide Step, Feed;
      FeedCons(v, s);
      TextTail(Step(v, s[0]), s[1..]);
    }
  }

  lemma FirstStates(h: HeaderState, c: char)
    ensures !h.ContentLength? ==> !FirstValueState(h, c).ContentLength?
    ensures !h.ContentLength? && !h.TransferEncoding? && !h.Connection? && !h.MatchingTokenStart? ==>
              FirstValueState(h, c) == General
  {
  }

  // A whole value that is no Content-Length changes nothing but flags, recogniser, index and trace.
  lemma TextRuns(v: View, s: string)
    requires !Halted(v) && v.state == Hdr(DiscardWs) && !v.hstate.ContentLength?
    requires |s| > 0 && IsLine(s) && !IsBlank(s[0])
    ensures Alike(v.(state := Hdr(ValueLws)), Feed(v, s + CRLF))
  {
    hide Step, Feed, FirstValueState, Lower, IsBlank;
    FirstByte(v, s[0]);
    FirstStates(v.hstate, Lower(s[0]));
    FeedCons(v, s);
    TextTail(Step(v, s[0]), s[1..]);
    FeedConcat(v, s, CRLF);
    LineEnd(Feed(v, s));
  }

  // A value that says nothing about the message, but that there is an Upgrade header.
  lemma PlainRuns(v: View, s: string)
    requires !Halted(v) && v.state == Hdr(DiscardWs) && |s| > 0 && IsLine(s) && !IsBlank(s[0])
    requires FirstValueState(v.hstate, Lower(s[0])) == General && !v.hstate.ContentLength?
    ensures var w := Feed(v, s + CRLF);
            && w.trace == Emit(v.trace, Data(Events.Value, s))
            && Mark(w.flags, w.hstate) == if v.hstate.Upgrade? then v.flags.(upgrade := true) else v.flags
  {
    hide Step, Feed, FirstValueState, Lower, IsBlank;
    FirstByte(v, s[0]);
    FeedCons(v, s);
    SkipRun(Step(v, s[0]), s[1..]);
    EmitTwice(v.trace, Events.Value, [s[0]], s[1..]);
    assert [s[0]] + s[1..] == s;
    FeedConcat(v, s, CRLF);
    LineEnd(Feed(v, s));
  }

  // The recogniser state at the colon is right for the name.
  predicate Recognised(k: HeaderState, index: nat, name: string) {
    && NameState(k, index)
    && (k == Connection <==> SameWord(name, CONNECTION_NAME) || SameWord(name, PROXY_CONNECTION_NAME))
    && (k == ContentLength <==> SameWord(name, CONTENT_LENGTH_NAME))
    && (k == TransferEncoding <==> SameWord(name, TRANSFER_ENCODING_NAME))
    && (k == Upgrade <==> SameWord(name, UPGRADE_NAME))
  }

  // A value and the end of its line.
  lemma ValueRuns(v: View, h: Header)
    requires !Halted(v) && v.state == Hdr(DiscardWs) && Recognised(v.hstate, v.index, h.name)
    requires IsHeader(h) && |h.value| > 0
    ensures var w := Feed(v, h.value + CRLF);
            && !Halted(w) && w.state == Hdr(ValueLws) && w.line == v.line && w.app == v.app
            && w.trace == Emit(v.trace, Data(Events.Value, h.value))
            && Frame(Mark(w.flags, w.hstate), w.contentLength) == Framed(Frame(v.flags, v.contentLength), h)
  {
    hide Step, Feed, Decimal, IsLengthText, IsLine, IsBlank, SameWord, Spells, ScanFirst, Mark, FirstValueState, Lower;
    var s := h.value;
    if v.hstate.ContentLength? {
      ContentLengthExact(v, s);
      FeedConcat(v, s, CRLF);
      LineEnd(Feed(v, s));
      MarkLength(v.flags);
    } else {
      TextRuns(v, s);
      if v.hstate.TransferEncoding? {
        ChunkedExact(v, s);
      } else if v.hstate.Connection? {
        SplitRight(s);
        ConnectionExact(v, Split(s));
      } else {
        NameStates(v.hstate, v.index);
        FirstStates(v.hstate, Lower(s[0]));
        PlainRuns(v, s);
      }
    }
  }

  lemma MarkLength(f: Flags)
    ensures Mark(f, ContentLength) == f
  {
  }

  lemma NameStates(h: HeaderState, index: nat)
    requires NameState(h, index)
    ensures !h.MatchingTokenStart? && forall f: Flags {:trigger Mark(f, h)} :: Mark(f, h) == f
  {
  }

  // An empty value, to the end of its line.
  lemma EmptyRuns(v: View)
    requires !Halted(v) && v.state == Hdr(DiscardWs)
    ensures Feed(v, CRLF) == v.(state := Hdr(DiscardLws))
  {
    var w := v.(state := Hdr(DiscardWsAlmostDone));
    assert Step(v, CR) == w;
    assert Step(w, LF) == v.(state := Hdr(DiscardLws));
    hide Step, Feed;
    FeedCons(v, CRLF);
    assert CRLF[1..] == [LF];
    FeedOne(w, LF);
  }

  // The parser after a header line whose value turns out not to be folded.
  function Settled(v: View): View {
    var w := v.(flags := Mark(v.flags, v.hstate), state := Hdr(FieldStart));
    if v.state == Hdr(DiscardLws) then Tell(w, Data(Events.Value, [])) else w
  }

  lemma SettledStep(v: View, ch: char)
    requires !Halted(v) && (v.state == Hdr(ValueLws) || v.state == Hdr(DiscardLws)) && !IsBlank(ch)
    ensures Step(v, ch) == Step(Settled(v), ch)
  {
    hide StepFieldStart, Mark;
  }

  lemma BlankStep(v: View)
    requires !Halted(v) && v.state == Hdr(DiscardWs)
    ensures Step(v, ' ') == v
  {
  }

  // One header line, and the first byte of what follows.
  lemma LineRuns(v: View, h: Header, rest: string) returns (w: View)
    requires !Halted(v) && v.state == Hdr(FieldStart) && IsHeader(h) && !EndsIn(v.trace, Field)
    requires |rest| > 0 && !IsBlank(rest[0])
    ensures Feed(v, HeaderLine(h) + rest) == Feed(w, rest)
    ensures !Halted(w) && w.state == Hdr(FieldStart) && w.line == v.line && w.app == v.app
    ensures Frame(w.flags, w.contentLength) == Framed(Frame(v.flags, v.contentLength), h)
    ensures w.trace == Then(Then(v.trace, Data(Field, h.name)), Data(Events.Value, h.value))
  {
    hide Step, Feed, IsName, IsLine, SameWord, Decimal, IsBlank, Framed, NameState;
    NameExact(v, h.name);
    var x := Feed(v, h.name + [':']);
    FeedConcat(v, h.name + [':'], [' '] + (h.value + CRLF));
    FeedConcat(x, [' '], h.value + CRLF);
    FeedOne(x, ' ');
    BlankStep(x);
    if |h.value| > 0 {
      ValueRuns(x, h);
    } else {
      assert h.value == [] && h.value + CRLF == CRLF;
      EmptyRuns(x);
      NameStates(x.hstate, x.index);
      FramedEmpty(Frame(v.flags, v.contentLength), h);
    }
    var y := Feed(v, HeaderLine(h));
    w := Settled(y);
    SettledStep(y, rest[0]);
    FeedConcat(v, HeaderLine(h), rest);
    FeedSame(y, w, rest);
  }

  lemma FramedEmpty(x: Frame, h: Header)
    requires IsHeader(h) && |h.value| == 0
    ensures Framed(x, h) == x
  {
  }

  lemma FeedSame(v: View, w: View, rest: string)
    requires |rest| > 0 && !Halted(v) && !Halted(w) && Step(v, rest[0]) == Step(w, rest[0])
    ensures Feed(v, rest) == Feed(w, rest)
  {
    hide Step;
    RunSameStep(v, w, rest, 0, |rest|);
  }

  lemma LinesStart(hs: seq<Header>, rest: string)
    requires |rest| > 0 && !IsBlank(rest[0]) && forall k :: 0 <= k < |hs| ==> IsHeader(hs[k])
    ensures |Lines(hs, rest)| > 0 && !IsBlank(Lines(hs, rest)[0])
  {
    if |hs| > 0 {
      assert IsToken(hs[0].name[0]);
    }
  }

  // All header lines, up to what follows them.
  lemma {:induction false} LinesRun(v: View, hs: seq<Header>, rest: string) returns (w: View)
    requires !Halted(v) && v.state == Hdr(FieldStart) && !EndsIn(v.trace, Field) && |rest| > 0 && !IsBlank(rest[0])
    requires forall k :: 0 <= k < |hs| ==> IsHeader(hs[k])
    ensures Feed(v, Lines(hs, rest)) == Feed(w, rest)
    ensures !Halted(w) && w.state == Hdr(FieldStart) && w.line == v.line && w.app == v.app
    ensures w.trace == HeaderTrace(v.trace, hs)
    ensures Frame(w.flags, w.contentLength) == FrameOf(Frame(v.flags, v.contentLength), hs)
    decreases |hs|
  {
    hide Step, Feed, IsHeader, HeaderLine, Framed;
    if |hs| == 0 {
      w := v;
    } else {
      LinesStart(hs[1..], rest);
      var x := LineRuns(v, hs[0], Lines(hs[1..], rest));
      w := LinesRun(x, hs[1..], rest);
    }
  }

  // The empty line that ends the header section of a message.
  lemma SectionEnds(v: View)
    requires !Halted(v) && v.state == Hdr(FieldStart) && !v.flags.trailing
    ensures Feed(v, CRLF) == StepHeadersDone(AnnounceHead(v.(state := Msg(HeadersAlmostDone))), LF)
  {
    var w := v.(state := Msg(HeadersAlmostDone));
    assert Step(v, CR) == w;
    assert Step(w, LF) == StepHeadersDone(AnnounceHead(w), LF) by { hide StepHeadersDone, AnnounceHead; }
    hide Step, Feed, StepHeadersDone, AnnounceHead;
    FeedCons(v, CRLF);
    assert CRLF[1..] == [LF];
    FeedOne(w, LF);
  }

  datatype RequestHead = RequestHead(verb: Method, url: string, major: string, minor: string, headers: seq<Header>)

  predicate IsRequest(r: RequestHead) {
    && IsUrl(r.verb, r.url)
    && IsNumber(r.major) && r.major[0] != '0' && IsNumber(r.minor)
    && forall k :: 0 <= k < |r.headers| ==> IsHeader(r.headers[k])
  }

  function Version(r: RequestHead, rest: string): string {
    "HTTP/" + ((r.major + ['.']) + ((r.minor + CRLF) + rest))
  }

  function RequestLine(r: RequestHead, rest: string): string {
    (MethodName(r.verb) + [' ']) + ((r.url + [' ']) + Version(r, rest))
  }

  function Print(r: RequestHead): string { RequestLine(r, HeaderSection(r.headers)) }

  // The callbacks of a request head, before on_headers_complete.
  function RequestTrace(t: Trace, r: RequestHead): Trace {
    HeaderTrace(Then(Then(t, MessageBegin), Data(Url, r.url)), r.headers)
  }

  // What on_headers_complete is shown of a message whose header lines say x.
  function HeadShown(line: Line, x: Frame, skip: bool): Head {
    Head(line.(upgrade := (x.flags.upgrade && x.flags.connUpgrade) || line.verb == CONNECT),
         x.flags.chunked, x.length, x.flags.close, x.flags.keepAlive, skip)
  }

  lemma Announced(v: View)
    requires !Halted(v) && !v.flags.skipBody
    ensures var w := AnnounceHead(v);
            && !Halted(w) && w.state == Msg(HeadersDone) && w.trace == Then(v.trace, HeadersComplete(HeadOf(w)))
            && HeadOf(w) == HeadShown(v.line, Frame(v.flags, v.contentLength), v.app.heads in v.app.skips)
  {
  }

  // A parser that has read a head h, when t is what it has announced so far: it waits for the body that
  // section 4.4 of RFC 2616 gives the message, or the message is over.
  predicate Awaits(w: View, h: Head, t: Trace) {
    && w.errno == OK && HeadOf(w) == h
    && if Framing(h) == Monitor.Counted(0) then
         && w.trace == Then(t, MessageComplete) && w.app.left == h.line.upgrade
         && w.state == if Persistent(h) then StartState(w) else Dead
       else
         && w.trace == t && !w.app.left
         && match Framing(h)
            case Counted(n) => w.state == Msg(Identity)
            case BetweenChunks => w.state == Chunk(SizeStart)
            case UntilEof => w.state == Msg(IdentityEof)
            case _ => false
  }

  lemma HeadEnd(v: View)
    requires !Halted(v) && v.state == Msg(HeadersDone)
    ensures Awaits(StepHeadersDone(v, LF), HeadOf(v), v.trace)
  {
  }

  // The version and the end of the request line.
  lemma VersionRead(v: View, r: RequestHead, rest: string)
    requires !Halted(v) && v.state == Req(ReqHttpStart)
    requires IsNumber(r.major) && r.major[0] != '0' && IsNumber(r.minor)
    ensures var line := v.line.(major := Decimal(0, r.major), minor := Decimal(0, r.minor));
            Feed(v, Version(r, rest)) == Feed(v.(state := Hdr(FieldStart), line := line), rest)
  {
    hide Step, Feed, Decimal;
    HttpRuns(v);
    var w := v.(state := Req(ReqFirstMajor));
    MajorRuns(w, r.major);
    var x := w.(state := Req(ReqFirstMinor), line := w.line.(major := Decimal(0, r.major)));
    MinorRuns(x, r.minor);
    FeedConcat(x, r.minor + CRLF, rest);
    FeedConcat(w, r.major + ['.'], (r.minor + CRLF) + rest);
    FeedConcat(v, "HTTP/", (r.major + ['.']) + ((r.minor + CRLF) + rest));
  }

  // The request line.
  lemma LineRead(v: View, r: RequestHead, rest: string) returns (w: View)
    requires !Halted(v) && v.state == Req(StartReq) && IsUrl(r.verb, r.url)
    requires IsNumber(r.major) && r.major[0] != '0' && IsNumber(r.minor)
    ensures Feed(v, RequestLine(r, rest)) == Feed(w, rest)
    ensures !Halted(w) && w.state == Hdr(FieldStart) && w.app == v.app
    ensures w.flags == NO_FLAGS && w.contentLength == ULLONG_MAX
    ensures w.line == v.line.(verb := r.verb, major := Decimal(0, r.major), minor := Decimal(0, r.minor))
    ensures w.trace == Then(Then(v.trace, MessageBegin), Data(Url, r.url))
  {
    hide Step, Feed, IsUrl, Decimal, MethodName, Version;
    NamesItself(r.verb);
    MethodComplete(v, r.verb, MethodName(r.verb));
    var x := AfterMethod(v, r.verb, |MethodName(r.verb)|);
    UrlRuns(x, r.url);
    var y := Tell(x.(state := Req(ReqHttpStart)), Data(Url, r.url));
    VersionRead(y, r, rest);
    w := y.(state := Hdr(FieldStart), line := y.line.(major := Decimal(0, r.major), minor := Decimal(0, r.minor)));
    FeedConcat(x, r.url + [' '], Version(r, rest));
    FeedConcat(v, MethodName(r.verb) + [' '], (r.url + [' ']) + Version(r, rest));
  }

  lemma NamesItself(m: Method)
    ensures Methods.Names(m, MethodName(m))
  {
    hide MethodName;
  }

  lemma MarkedFlags(f: Flags, mode: Mode, d: Verdict)
    ensures Marked(f, mode, d).skipBody == f.skipBody && Marked(f, mode, d).trailing == f.trailing
  {
  }

  lemma {:induction false} ScanFlags(f: Flags, mode: Mode, es: seq<string>)
    ensures Scan(f, mode, es).skipBody == f.skipBody && Scan(f, mode, es).trailing == f.trailing
    decreases |es|
  {
    hide Judge, NextMode, Marked;
    if |es| > 0 {
      MarkedFlags(f, mode, Judge(es[0]));
      ScanFlags(Marked(f, mode, Judge(es[0])), NextMode(mode, Judge(es[0])), es[1..]);
    }
  }

  lemma {:induction false} FrameFlags(x: Frame, hs: seq<Header>)
    requires forall k :: 0 <= k < |hs| ==> IsHeader(hs[k])
    ensures FrameOf(x, hs).flags.skipBody == x.flags.skipBody && FrameOf(x, hs).flags.trailing == x.flags.trailing
    decreases |hs|
  {
    if |hs| > 0 {
      FramedFlags(x, hs[0]);
      hide IsHeader, Framed;
      FrameFlags(Framed(x, hs[0]), hs[1..]);
    }
  }

  lemma FramedFlags(x: Frame, h: Header)
    requires IsHeader(h)
    ensures Framed(x, h).flags.skipBody == x.flags.skipBody && Framed(x, h).flags.trailing == x.flags.trailing
  {
    hide Decimal, SameWord, Spells, ScanFirst, IsHeader, Split;
    ScanFirstFlags(x.flags, Split(h.value));
  }

  lemma ScanFirstFlags(f: Flags, es: seq<string>)
    requires |es| > 0
    ensures ScanFirst(f, es).skipBody == f.skipBody && ScanFirst(f, es).trailing == f.trailing
  {
    hide Judged, Scan, NextMode, Marked;
    MarkedFlags(f, Look, Judged(es[0]));
    ScanFlags(f, Pass, es[1..]);
    ScanFlags(Marked(f, Look, Judged(es[0])), NextMode(Look, Judged(es[0])), es[1..]);
  }

  // What the header lines of a request make on_headers_complete show.
  function RequestShown(v: View, r: RequestHead): Head
    requires IsRequest(r)
  {
    HeadShown(v.line.(verb := r.verb, major := Decimal(0, r.major), minor := Decimal(0, r.minor)),
              FrameOf(Frame(NO_FLAGS, ULLONG_MAX), r.headers), v.app.heads in v.app.skips)
  }

  // The version is the two numbers that are written.
  lemma RequestNumbers(v: View, r: RequestHead, major: nat, minor: nat)
    requires IsRequest(r) && Writes(r.major, major) && Writes(r.minor, minor)
    ensures RequestShown(v, r).line.major == major && RequestShown(v, r).line.minor == minor
  {
    hide Writes, Decimal, FrameOf;
    NumberWrites(r.major, major);
    NumberWrites(r.minor, minor);
  }

  // The length is the number that is written.
  lemma FramedLength(x: Frame, h: Header, n: nat)
    requires |h.value| > 0 && h.value[0] != ' ' && SameWord(h.name, CONTENT_LENGTH_NAME) && Writes(Unspaced(h.value), n)
    requires IsName(h.name) && n <= MAX_LENGTH
    ensures IsHeader(h) && Framed(x, h).length == n
  {
    hide Writes, Decimal, SameWord, Unspaced, IsName;
    DecimalWrites(Unspaced(h.value), n);
    DecimalUnspaced(0, h.value);
    FirstDigit(h.value);
  }

  lemma FirstDigit(s: string)
    requires |s| > 0 && s[0] != ' ' && IsLengthText(s)
    ensures IsNum(s[0]) && !IsBlank(s[0]) && IsLine(s)
  {
  }

  // Print, then parse: the method, the URL, the version and the header lines come back, in their order;
  // what on_headers_complete is shown is read off the header lines; and the parser goes on to the body
  // they announce, or ends the message.
  lemma RequestRoundTrip(v: View, r: RequestHead)
    requires !Halted(v) && v.state == Req(StartReq) && IsRequest(r)
    ensures var h := RequestShown(v, r);
            Awaits(Feed(v, Print(r)), h, Then(RequestTrace(v.trace, r), HeadersComplete(h)))
  {
    hide Step, Feed, IsUrl, Decimal, IsHeader, RequestLine, Lines, AnnounceHead, StepHeadersDone, HeadShown, Awaits;
    hide FrameOf;
    var x := LineRead(v, r, HeaderSection(r.headers));
    FrameFlags(Frame(NO_FLAGS, ULLONG_MAX), r.headers);
    var y := LinesRun(x, r.headers, CRLF);
    SectionEnds(y);
    Announced(y.(state := Msg(HeadersAlmostDone)));
    HeadEnd(AnnounceHead(y.(state := Msg(HeadersAlmostDone))));
  }

  // A request line without a version
  function ShortLine(verb: Method, url: string, rest: string): string {
    (MethodName(verb) + [' ']) + (url + (CRLF + rest))
  }

  lemma UrlEndSteps(v: View, u: UrlState)
    requires !Halted(v) && v.state == InUrl(u) && Syntax.MayEnd(u)
    ensures var w := v.(state := Req(ReqLineAlmostDone), line := v.line.(major := 0, minor := 9));
            Step(v, CR) == w && Step(w, LF) == w.(state := Hdr(FieldStart))
  {
    hide StepMethod, MoreMajor, MoreMinor, StepStartReq;
  }

  lemma ShortLineRead(v: View, verb: Method, url: string, rest: string) returns (w: View)
    requires !Halted(v) && v.state == Req(StartReq) && IsUrl(verb, url)
    ensures Feed(v, ShortLine(verb, url, rest)) == Feed(w, rest)
    ensures !Halted(w) && w.state == Hdr(FieldStart) && w.app == v.app
    ensures w.flags == NO_FLAGS && w.contentLength == ULLONG_MAX
    ensures w.line == v.line.(verb := verb, major := 0, minor := 9)
    ensures w.trace == Then(Then(v.trace, MessageBegin), Data(Url, url))
  {
    hide Step, Feed, IsUrl, MethodName, UrlRun;
    NamesItself(verb);
    MethodComplete(v, verb, MethodName(verb));
    var x := AfterMethod(v, verb, |MethodName(verb)|);
    var u := UrlRead(x, url);
    var y := Feed(x, url);
    UrlEndSteps(y, u);
    w := y.(state := Hdr(FieldStart), line := y.line.(major := 0, minor := 9));
    FeedCons(y, CRLF);
    assert CRLF[1..] == [LF];
    FeedOne(Step(y, CR), LF);
    FeedConcat(y, CRLF, rest);
    FeedConcat(x, url, CRLF + rest);
    FeedConcat(v, MethodName(verb) + [' '], url + (CRLF + rest));
  }

  // is one of version 0.9, and its header lines are read all the same.
  lemma ShortRoundTrip(v: View, verb: Method, url: string, hs: seq<Header>)
    requires !Halted(v) && v.state == Req(StartReq) && IsUrl(verb, url)
    requires forall k :: 0 <= k < |hs| ==> IsHeader(hs[k])
    ensures var h := HeadShown(v.line.(verb := verb, major := 0, minor := 9), FrameOf(Frame(NO_FLAGS, ULLONG_MAX), hs),
                               v.app.heads in v.app.skips);
            Awaits(Feed(v, ShortLine(verb, url, HeaderSection(hs))), h,
                   Then(HeaderTrace(Then(Then(v.trace, MessageBegin), Data(Url, url)), hs), HeadersComplete(h)))
  {
    hide Step, Feed, IsUrl, IsHeader, ShortLine, Lines, AnnounceHead, StepHeadersDone, HeadShown, Awaits, FrameOf;
    var x := ShortLineRead(v, verb, url, HeaderSection(hs));
    FrameFlags(Frame(NO_FLAGS, ULLONG_MAX), hs);
    var y := LinesRun(x, hs, CRLF);
    SectionEnds(y);
    Announced(y.(state := Msg(HeadersAlmostDone)));
    HeadEnd(AnnounceHead(y.(state := Msg(HeadersAlmostDone))));
  }

  // Any other text of a URL is refused.
  lemma {:induction false} UrlTailRefused(v: View, u: UrlState, s: string)
    requires !Halted(v) && v.state == InUrl(u) && !u.SpacesBeforeUrl?
    requires forall k :: 0 <= k < |s| ==> s[k] != ' ' && !IsEol(s[k])
    requires UrlRun(u, s).None? || !Syntax.MayEnd(UrlRun(u, s).value)
    ensures Feed(v, s + [' ']).errno == InvalidUrl
    decreases |s|
  {
    if |s| == 0 {
      ShortUrlByte(v, u);
      assert s + [' '] == [' '];
      FeedOne(v, ' ');
    } else {
      OtherUrlByte(v, u, s[0]);
      hide Step, Feed, ParseUrlChar;
      FeedCons(v, s + [' ']);
      assert (s + [' '])[1..] == s[1..] + [' '];
      if ParseUrlChar(u, s[0]).Some? {
        UrlTailRefused(Step(v, s[0]), ParseUrlChar(u, s[0]).value, s[1..]);
      } else {
        FeedHalted(Step(v, s[0]), s[1..] + [' ']);
      }
    }
  }

  lemma ShortUrlByte(v: View, u: UrlState)
    requires !Halted(v) && v.state == InUrl(u) && !u.SpacesBeforeUrl? && !Syntax.MayEnd(u)
    ensures Step(v, ' ').errno == InvalidUrl
  {
  }

  lemma OtherUrlByte(v: View, u: UrlState, ch: char)
    requires !Halted(v) && v.state == InUrl(u) && ch != ' ' && (u.SpacesBeforeUrl? || !IsEol(ch))
    ensures var x := ParseUrlChar(if u.SpacesBeforeUrl? then UrlStart(v.line.verb == CONNECT) else u, ch);
            if x.None? then Step(v, ch).errno == InvalidUrl
            else Step(v, ch) == Tell(v.(state := InUrl(x.value)), Data(Url, [ch])) && !x.value.SpacesBeforeUrl?
  {
  }

  lemma UrlRefused(v: View, url: string)
    requires !Halted(v) && v.state == InUrl(SpacesBeforeUrl) && |url| > 0 && !IsUrl(v.line.verb, url)
    requires forall k :: 0 <= k < |url| ==> url[k] != ' ' && !IsEol(url[k])
    ensures Feed(v, url + [' ']).errno == InvalidUrl
  {
    OtherUrlByte(v, SpacesBeforeUrl, url[0]);
    var x := ParseUrlChar(UrlStart(v.line.verb == CONNECT), url[0]);
    hide Step, Feed, ParseUrlChar, UrlStart;
    FeedCons(v, url + [' ']);
    assert (url + [' '])[1..] == url[1..] + [' '];
    if x.Some? {
      UrlTailRefused(Step(v, url[0]), x.value, url[1..]);
    } else {
      FeedHalted(Step(v, url[0]), url[1..] + [' ']);
    }
  }
}
