// A parser of type both finds out what it reads, and goes on like a parser of that type.
module Either {
  import opened Chars
  import opened Types
  import opened Events
  import opened Views
  import opened StartLine
  import opened Machine
  import opened Runs
  import opened Lengths
  import opened Methods
  import opened Requests
  import opened Responses

  function Of(v: View, t: ParserType): View { v.(line := v.line.(ptype := t)) }

  lemma OtherLetter(v: View, ch: char)
    requires !Halted(v) && v.state == Res(StartReqOrRes) && ch != 'H' && !IsEol(ch)
    ensures Step(v, ch) == Step(Of(v, Request).(state := Req(StartReq)), ch)
  {
    hide FirstMethod;
  }

  lemma HeadSteps(v: View, ch: char)
    requires !Halted(v)
    ensures v.state == Res(StartReqOrRes) ==>
              Step(v, 'H') ==
              Tell(v.(flags := NO_FLAGS, contentLength := ULLONG_MAX, state := Res(ResOrRespH)), MessageBegin)
    ensures v.state == Res(ResOrRespH) ==>
              Step(v, 'E') ==
              v.(index := 2, state := Req(ReqMethod), line := v.line.(ptype := Request, verb := HEAD))
    ensures v.state == Res(ResOrRespH) ==> Step(v, 'T') == Of(v, Response).(state := Res(ResHT))
  {
    hide StepStatusCode, MoreMajor, MoreMinor, StepStartReq;
  }

  lemma HeadLetter(m: Method)
    ensures MethodName(m)[0] == 'H' ==> m == HEAD
    ensures MethodName(HEAD) == "HEAD" && !IsEol(MethodName(m)[0])
  {
  }

  lemma HeadWalks()
    ensures Walk(HEAD, 2, "AD") == Some(HEAD) && Expected(HEAD, 4) == NUL
  {
    assert MethodName(HEAD) == "HEAD";
    assert "AD"[1..] == "D" && "D"[1..] == "";
    assert Walk(HEAD, 4, "") == Some(HEAD);
    assert Walk(HEAD, 3, "D") == Some(HEAD);
  }

  lemma HeadRead(v: View)
    requires !Halted(v) && v.state == Res(StartReqOrRes)
    ensures Feed(v, "HEAD" + [' ']) == AfterMethod(Of(v, Request), HEAD, 4)
  {
    hide Step, Feed, Walk, Expected;
    var d := "HEAD";
    HeadSteps(v, 'H');
    var w := Step(v, 'H');
    HeadSteps(w, 'E');
    var x := Step(w, 'E');
    HeadWalks();
    FeedCons(v, d);
    FeedCons(w, d[1..]);
    assert d[1..][1..] == "AD";
    WalkRuns(x, "AD");
    SpaceStep(Feed(v, d));
    FeedOne(Feed(v, d), ' ');
    FeedConcat(v, d, [' ']);
  }

  // Every method name is read as by a parser of requests; here HEAD must be spelled out.
  lemma EitherRequest(v: View, m: Method, n: string)
    requires !Halted(v) && v.state == Res(StartReqOrRes) && Methods.Names(m, n) && (m == HEAD ==> n == "HEAD")
    ensures Feed(v, n + [' ']) == AfterMethod(Of(v, Request), m, |n|)
  {
    hide Step, Feed, MethodName, FirstMethod;
    HeadLetter(m);
    NameStarts(m);
    if n[0] == 'H' {
      HeadRead(v);
    } else {
      var w := Of(v, Request).(state := Req(StartReq));
      OtherLetter(v, n[0]);
      MethodComplete(w, m, n);
      FeedSame(v, w, n + [' ']);
    }
  }

  // Every byte of n but an H at its start leaves the parser at the matcher.
  predicate AtEither(v: View, n: string) {
    forall i :: 0 < i <= |n| ==>
      && Feed(v, n[..i]).errno == OK
      && Feed(v, n[..i]).state == if i == 1 && n[0] == 'H' then Res(ResOrRespH) else Req(ReqMethod)
  }

  lemma {:induction false} HeadWalk(i: nat, s: string)
    requires i >= 2 && Walk(HEAD, i, s).Some?
    ensures Walk(HEAD, i, s) == Some(HEAD) && i + |s| <= Max(i, 4)
    ensures forall k :: 0 <= k < |s| ==> s[k] == Expected(HEAD, i + k)
    decreases |s|
  {
    if |s| > 0 {
      HeadWalk(i + 1, s[1..]);
    }
  }

  function Max(a: nat, b: nat): nat { if a < b then b else a }

  // After an H only "EAD" is read like a method.
  lemma HeadOnly(v: View, n: string, ch: char)
    requires !Halted(v) && v.state == Res(StartReqOrRes) && |n| > 1 && n[0] == 'H' && AtEither(v, n)
    requires Step(Feed(v, n), ch).errno == OK && Step(Feed(v, n), ch).state != Req(ReqMethod)
    ensures ch == ' ' && n == "HEAD" && Step(Feed(v, n), ch).line.verb == HEAD
  {
    hide Step, Feed, Walk, Expected, AtMethod;
    HeadSteps(v, 'H');
    var w := Step(v, 'H');
    assert n[..2] == [n[0], n[1]] && n[..2][1..] == [n[1]];
    FeedCons(v, n[..2]);
    FeedOne(w, n[1]);
    SecondOfHead(w, n[1]);
    HeadSteps(w, 'E');
    var x, s := Step(w, 'E'), n[2..];
    assert n[1..][1..] == s;
    FeedCons(v, n);
    FeedCons(w, n[1..]);
    assert AtMethod(x, s) by {
      forall i | 0 < i <= |s| ensures Feed(x, s[..i]) == Feed(v, n[..i + 2]) {
        assert n[..i + 2][1..] == n[1..i + 2] && n[1..i + 2][1..] == s[..i];
        FeedCons(v, n[..i + 2]);
        FeedCons(w, n[1..i + 2]);
      }
      HereAtMethod(x, s);
    }
    StaysWalks(x, s);
    HeadWalk(2, s);
    WalkRuns(x, s);
    LeaveStep(Feed(v, n), ch);
    HeadSpelled(n);
  }

  lemma HereAtMethod(x: View, s: string)
    requires forall i :: 0 < i <= |s| ==> Feed(x, s[..i]).errno == OK && Feed(x, s[..i]).state == Req(ReqMethod)
    ensures AtMethod(x, s)
  {
  }

  lemma SecondOfHead(w: View, ch: char)
    requires !Halted(w) && w.state == Res(ResOrRespH) && Step(w, ch).errno == OK && Step(w, ch).state.Req?
    ensures ch == 'E'
  {
    hide StepStatusCode, MoreMajor, MoreMinor, StepStartReq;
  }

  lemma HeadSpelled(n: string)
    requires |n| > 1 && n[..2] == "HE" && |n| <= 4 && Expected(HEAD, |n|) == NUL
    requires forall k :: 0 <= k < |n| - 2 ==> n[2..][k] == Expected(HEAD, 2 + k)
    ensures n == "HEAD"
  {
    assert MethodName(HEAD) == "HEAD";
    if |n| == 4 {
      assert n[0] == n[..2][0] && n[1] == n[..2][1] && n[2] == n[2..][0] && n[3] == n[2..][1];
    }
  }

  // Whenever the matcher is left without an error, what has been read is a name of the method, and HEAD is
  // spelled out.
  lemma EitherSound(v: View, n: string, ch: char)
    requires !Halted(v) && v.state == Res(StartReqOrRes) && |n| > 0 && !IsEol(n[0]) && AtEither(v, n)
    requires Feed(v, n).state == Req(ReqMethod)
    requires Step(Feed(v, n), ch).errno == OK && Step(Feed(v, n), ch).state != Req(ReqMethod)
    ensures var m := Step(Feed(v, n), ch).line.verb; ch == ' ' && Methods.Names(m, n) && (m == HEAD ==> n == "HEAD")
  {
    hide Step, Feed, MethodName, FirstMethod, AtMethod;
    assert n[..|n|] == n;
    if n[0] == 'H' {
      HeadOnly(v, n, ch);
      NamesItself(HEAD);
      HeadLetter(HEAD);
    } else {
      var w := Of(v, Request).(state := Req(StartReq));
      OtherLetter(v, n[0]);
      forall i | 0 < i <= |n| ensures Feed(v, n[..i]) == Feed(w, n[..i]) {
        FeedSame(v, w, n[..i]);
      }
      HereAtMethod(w, n);
      MethodSound(w, n, ch);
      HeadLetter(Step(Feed(v, n), ch).line.verb);
    }
  }

  // The start of a status line is read as by a parser of responses.
  lemma EitherResponse(v: View)
    requires !Halted(v) && v.state == Res(StartReqOrRes)
    ensures Feed(v, "HTTP/") == Opening(Of(v, Response)).(state := Res(ResFirstMajor))
  {
    hide Step, Feed;
    var d, w := "HTTP/", Opening(Of(v, Response));
    HeadSteps(v, 'H');
    HeadSteps(Step(v, 'H'), 'T');
    LiteralSteps(w.(state := Res(ResHT)));
    LiteralSteps(w.(state := Res(ResHTT)));
    LiteralSteps(w.(state := Res(ResHTTP)));
    FeedCons(v, d);
    FeedCons(Step(v, 'H'), d[1..]);
    FeedCons(w.(state := Res(ResHT)), d[1..][1..]);
    FeedCons(w.(state := Res(ResHTT)), d[1..][1..][1..]);
    assert d[1..][1..][1..][1..] == "/";
    FeedOne(w.(state := Res(ResHTTP)), '/');
  }

  // A parser of the same fields that knows already that it reads requests, or responses
  function Settle(v: View, t: ParserType): View
    requires !t.Both?
  {
    if v.state == Res(StartReqOrRes) then Of(v, t).(state := FirstState(t)) else v
  }

  // A whole request is read as by a parser of requests.
  lemma EitherPrint(v: View, r: RequestHead)
    requires !Halted(v) && v.state == Res(StartReqOrRes)
    ensures Feed(v, Print(r)) == Feed(Settle(v, Request), Print(r))
  {
    hide Step, Feed, MethodName, Version, Lines;
    var w, a := Settle(v, Request), MethodName(r.verb) + [' '];
    var b := (r.url + [' ']) + Version(r, HeaderSection(r.headers));
    NamesItself(r.verb);
    HeadLetter(r.verb);
    EitherRequest(v, r.verb, MethodName(r.verb));
    MethodComplete(w, r.verb, MethodName(r.verb));
    FeedConcat(v, a, b);
    FeedConcat(w, a, b);
  }

  // So is a whole response as by a parser of responses.
  lemma EitherPrintResponse(v: View, r: ResponseHead)
    requires !Halted(v) && v.state == Res(StartReqOrRes)
    ensures Feed(v, PrintResponse(r)) == Feed(Settle(v, Response), PrintResponse(r))
  {
    hide Step, Feed, Lines;
    var w, b := Settle(v, Response), PrintResponse(r)[5..];
    EitherResponse(v);
    HttpRead(w);
    assert PrintResponse(r) == "HTTP/" + b;
    FeedConcat(v, "HTTP/", b);
    FeedConcat(w, "HTTP/", b);
  }

  // A new parser of requests, or of both, reads a request,
  lemma NewReadsRequest(t: ParserType, skips: set<nat>, r: RequestHead)
    requires !t.Response? && IsRequest(r)
    ensures var v := NewView(t, skips);
            var h := RequestShown(Of(v, Request), r);
            Awaits(Feed(v, Print(r)), h, Then(RequestTrace(Silence, r), HeadersComplete(h)))
  {
    hide Feed, Print, IsRequest, RequestTrace, Awaits, RequestShown;
    var v := NewView(t, skips);
    var w := Of(v, Request).(state := Req(StartReq));
    RequestRoundTrip(w, r);
    SameShown(Of(v, Request), w, r);
    if t.Both? {
      EitherPrint(v, r);
    }
  }

  lemma SameShown(v: View, w: View, r: RequestHead)
    requires v.line == w.line && v.app == w.app && IsRequest(r)
    ensures RequestShown(v, r) == RequestShown(w, r)
  {
    hide Decimal, FrameOf, IsRequest;
  }

  lemma SameResponseShown(v: View, w: View, r: ResponseHead)
    requires v.line == w.line && v.app == w.app && IsResponse(r)
    ensures ResponseShown(v, r) == ResponseShown(w, r)
  {
    hide Decimal, FrameOf, IsResponse;
  }

  // and one of responses, or of both, reads a response.
  lemma NewReadsResponse(t: ParserType, skips: set<nat>, r: ResponseHead)
    requires !t.Request? && IsResponse(r)
    ensures var v := NewView(t, skips);
            var h := ResponseShown(Of(v, Response), r);
            Awaits(Feed(v, PrintResponse(r)), h, Then(ResponseTrace(Silence, r), HeadersComplete(h)))
  {
    hide Feed, PrintResponse, IsResponse, ResponseTrace, Awaits, ResponseShown;
    var v := NewView(t, skips);
    var w := Of(v, Response).(state := Res(StartRes));
    ResponseRoundTrip(w, r);
    SameResponseShown(Of(v, Response), w, r);
    if t.Both? {
      EitherPrintResponse(v, r);
    }
  }
}
