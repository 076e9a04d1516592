// Pipelining: what a parser does with a message does not depend on the messages before it.
module Independence {
  import opened Chars
  import opened Types
  import opened Events
  import opened Views
  import opened StartLine
  import opened Headers
  import opened Body
  import opened Machine
  import opened Invariant
  import opened Runs
  import opened Grammar

  function Append(t: Trace, s: Trace): Trace {
    match s
    case Silence => t
    case Then(r, e) => Then(Append(t, r), e)
  }

  // The callbacks of t, then those of s; unlike Append it can be the trigger of a quantifier.
  function Onto(t: Trace, s: Trace): Trace { Append(t, s) }

  lemma OntoEmit(t: Trace, s: Trace, e: Event)
    requires s.Then? || !e.Data?
    ensures Emit(Onto(t, s), e) == Onto(t, Emit(s, e)) && Emit(s, e).Then?
  {
    if s.Then? {
      assert Append(t, s) == Then(Append(t, s.before), s.last);
    }
  }

  lemma OntoEmits(t: Trace)
    ensures forall s: Trace, e: Event {:trigger Emit(Onto(t, s), e)} ::
              s.Then? || !e.Data? ==> Emit(Onto(t, s), e) == Onto(t, Emit(s, e)) && Emit(s, e).Then?
  {
    forall s: Trace, e: Event | s.Then? || !e.Data?
      ensures Emit(Onto(t, s), e) == Onto(t, Emit(s, e)) && Emit(s, e).Then?
    {
      OntoEmit(t, s, e);
    }
  }

  // A parser that has called back since, or will first say that a message begins.
  predicate Apart(v: View) { v.trace.Then? || Idle(v.state) }

  function Shifted(v: View, t: Trace): View { v.(trace := Onto(t, v.trace)) }

  lemma HeadersDoneShifted(v: View, ch: char, t: Trace)
    requires v.trace.Then?
    ensures StepHeadersDone(Shifted(v, t), ch) == Shifted(StepHeadersDone(v, ch), t)
    ensures StepHeadersDone(v, ch).trace.Then?
  {
    hide Emit, Onto;
    OntoEmits(t);
  }

  lemma AnnounceShifted(v: View, t: Trace)
    requires v.trace.Then?
    ensures AnnounceHead(Shifted(v, t)) == Shifted(AnnounceHead(v), t) && AnnounceHead(v).trace.Then?
  {
    hide Emit, Onto;
    OntoEmits(t);
  }

  lemma CompleteShifted(v: View, t: Trace)
    requires v.trace.Then?
    ensures Complete(Shifted(v, t)) == Shifted(Complete(v), t) && Complete(v).trace.Then?
  {
    hide Emit, Onto;
    OntoEmits(t);
  }

  lemma IdentityShifted(v: View, ch: char, t: Trace)
    requires v.trace.Then?
    ensures StepIdentity(Shifted(v, t), ch) == Shifted(StepIdentity(v, ch), t) && StepIdentity(v, ch).trace.Then?
  {
    OntoEmits(t);
    var w := Tell(v.(contentLength := if v.contentLength > 0 then v.contentLength - 1 else 0), Data(Events.Body, [ch]));
    CompleteShifted(w.(state := Msg(MessageDone)), t);
    hide Emit, Onto, Complete;
  }

  lemma TrailerShifted(v: View, t: Trace)
    requires v.trace.Then?
    ensures var w := Tell(v.(state := Msg(MessageDone)), ChunkComplete);
            && StepMessageDone(Tell(Shifted(v, t).(state := Msg(MessageDone)), ChunkComplete)) ==
               Shifted(StepMessageDone(w), t)
            && StepMessageDone(w).trace.Then?
  {
    OntoEmits(t);
    CompleteShifted(Tell(v.(state := Msg(MessageDone)), ChunkComplete), t);
    hide Emit, Onto, Complete;
  }

  lemma MsgShifted(v: View, m: MsgState, ch: char, t: Trace)
    requires v.trace.Then?
    ensures StepMsg(Shifted(v, t), m, ch) == Shifted(StepMsg(v, m, ch), t) && StepMsg(v, m, ch).trace.Then?
  {
    hide Emit, Onto, AnnounceHead, StepHeadersDone, Complete, StepIdentity;
    AnnounceShifted(v, t);
    HeadersDoneShifted(v, ch, t);
    HeadersDoneShifted(AnnounceHead(v), ch, t);
    TrailerShifted(v, t);
    IdentityShifted(v, ch, t);
    CompleteShifted(v, t);
    OntoEmits(t);
  }

  lemma HeadEndShifted(v: View, ch: char, t: Trace)
    requires v.trace.Then?
    ensures var w := v.(state := Msg(HeadersAlmostDone));
            && StepHeadersAlmostDone(Shifted(w, t), ch) == Shifted(StepHeadersAlmostDone(w, ch), t)
            && StepHeadersAlmostDone(w, ch).trace.Then?
  {
    var w := v.(state := Msg(HeadersAlmostDone));
    MsgShifted(w, HeadersAlmostDone, ch, t);
    assert StepMsg(w, HeadersAlmostDone, ch) == StepHeadersAlmostDone(w, ch) by { hide StepHeadersAlmostDone; }
    assert StepMsg(Shifted(w, t), HeadersAlmostDone, ch) == StepHeadersAlmostDone(Shifted(w, t), ch) by {
      hide StepHeadersAlmostDone;
    }
  }

  lemma FieldStartShifted(v: View, ch: char, t: Trace)
    requires v.trace.Then?
    ensures StepFieldStart(Shifted(v, t), ch) == Shifted(StepFieldStart(v, ch), t) && StepFieldStart(v, ch).trace.Then?
  {
    hide Emit, Onto, Body.StepHeadersAlmostDone, Token, NameStart;
    OntoEmits(t);
    HeadEndShifted(v, ch, t);
  }

  lemma NameShifted(v: View, ch: char, t: Trace)
    requires v.trace.Then?
    ensures StepFieldName(Shifted(v, t), ch) == Shifted(StepFieldName(v, ch), t) && StepFieldName(v, ch).trace.Then?
  {
    hide Emit, Onto, NameNext, Token, Counts;
    OntoEmits(t);
  }

  lemma ValueStartShifted(v: View, ch: char, t: Trace)
    requires v.trace.Then?
    ensures StepValueStart(Shifted(v, t), ch) == Shifted(StepValueStart(v, ch), t)
    ensures StepValueStart(v, ch).trace.Then?
  {
    hide Emit, Onto, Digit, IsNum, Lower, FirstValueState;
    OntoEmits(t);
  }

  lemma ValueShifted(v: View, ch: char, t: Trace)
    requires v.trace.Then?
    ensures StepValue(Shifted(v, t), ch) == Shifted(StepValue(v, ch), t) && StepValue(v, ch).trace.Then?
  {
    hide Emit, Onto, ValueNext, FlagsNext, IndexNext, Wrap64, Digit, IsNum;
    OntoEmits(t);
  }

  lemma ValueLwsShifted(v: View, ch: char, t: Trace)
    requires v.trace.Then?
    ensures StepValueLws(Shifted(v, t), ch) == Shifted(StepValueLws(v, ch), t) && StepValueLws(v, ch).trace.Then?
  {
    hide StepFieldStart, StepValueStart, Onto, Mark;
    ValueStartShifted(v.(state := Hdr(ValueStart)), ch, t);
    FieldStartShifted(v.(flags := Mark(v.flags, v.hstate), state := Hdr(FieldStart)), ch, t);
  }

  lemma DiscardLwsShifted(v: View, ch: char, t: Trace)
    requires v.trace.Then?
    ensures StepDiscardLws(Shifted(v, t), ch) == Shifted(StepDiscardLws(v, ch), t)
    ensures StepDiscardLws(v, ch).trace.Then?
  {
    hide StepFieldStart, Emit, Onto, Mark;
    var w := v.(flags := Mark(v.flags, v.hstate), state := Hdr(FieldStart));
    OntoEmit(t, v.trace, Data(Events.Value, []));
    FieldStartShifted(Tell(w, Data(Events.Value, [])), ch, t);
  }

  lemma HeaderShifted(v: View, h: HdrState, ch: char, t: Trace)
    requires v.trace.Then?
    ensures StepHeader(Shifted(v, t), h, ch) == Shifted(StepHeader(v, h, ch), t) && StepHeader(v, h, ch).trace.Then?
  {
    hide Onto, StepFieldStart, StepFieldName, StepValueStart, StepValue, StepValueLws, StepDiscardLws;
    match h {
      case FieldStart => FieldStartShifted(v, ch, t);
      case FieldName => NameShifted(v, ch, t);
      case DiscardWs => ValueStartShifted(v, ch, t);
      case DiscardWsAlmostDone =>
      case DiscardLws => DiscardLwsShifted(v, ch, t);
      case ValueStart => ValueStartShifted(v, ch, t);
      case FieldValue => ValueShifted(v, ch, t);
      case HeaderAlmostDone =>
      case ValueLws => ValueLwsShifted(v, ch, t);
    }
  }

  lemma ResponseShifted(v: View, r: ResState, ch: char, t: Trace)
    requires v.state == Res(r) && Apart(v)
    ensures StepResponseLine(Shifted(v, t), r, ch) == Shifted(StepResponseLine(v, r, ch), t)
    ensures Apart(StepResponseLine(v, r, ch))
  {
    hide Emit, Onto, FirstMethod, Digit, IsNum;
    OntoEmits(t);
  }

  lemma RequestShifted(v: View, q: ReqState, ch: char, t: Trace)
    requires v.state == Req(q) && Apart(v)
    ensures StepRequestLine(Shifted(v, t), q, ch) == Shifted(StepRequestLine(v, q, ch), t)
    ensures Apart(StepRequestLine(v, q, ch))
  {
    hide Emit, Onto, FirstMethod, Retarget, Expected, Digit, IsNum;
    OntoEmits(t);
  }

  lemma UrlShifted(v: View, u: UrlState, ch: char, t: Trace)
    requires v.trace.Then?
    ensures StepUrl(Shifted(v, t), u, ch) == Shifted(StepUrl(v, u, ch), t) && StepUrl(v, u, ch).trace.Then?
  {
    hide Emit, Onto, ParseUrlChar;
    OntoEmits(t);
  }

  lemma ChunkShifted(v: View, c: ChunkState, ch: char, t: Trace)
    requires v.trace.Then?
    ensures StepChunk(Shifted(v, t), c, ch) == Shifted(StepChunk(v, c, ch), t) && StepChunk(v, c, ch).trace.Then?
  {
    hide Emit, Onto, Wrap64, Unhex;
    OntoEmits(t);
  }

  // The callbacks of earlier messages have no influence.
  lemma StepShifted(v: View, ch: char, t: Trace)
    requires Apart(v)
    ensures Step(Shifted(v, t), ch) == Shifted(Step(v, ch), t) && Apart(Step(v, ch))
  {
    hide StepResponseLine, StepRequestLine, StepUrl, StepHeader, StepChunk, StepMsg;
    match v.state {
      case Hdr(h) => HeaderShifted(v, h, ch, t);
      case Msg(m) => MsgShifted(v, m, ch, t);
      case Res(r) => ResponseShifted(v, r, ch, t);
      case Req(q) => RequestShifted(v, q, ch, t);
      case InUrl(u) => UrlShifted(v, u, ch, t);
      case Chunk(c) => ChunkShifted(v, c, ch, t);
      case Dead =>
    }
  }

  // Whether on_headers_complete is answered with 1 the k-th time from now.
  predicate Skips(a: App, k: nat) { a.heads + k in a.skips }

  ghost predicate SamePlan(a: App, b: App) { forall k: nat :: Skips(a, k) == Skips(b, k) }

  // The version is known, or not looked at before it is overwritten.
  predicate MajorRead(s: ParseState) {
    match s
    case Res(r) => r.ResMajor? || r.ResFirstMinor? || MinorRead(s)
    case Req(q) => q.ReqMajor? || q.ReqFirstMinor? || MinorRead(s)
    case _ => MinorRead(s)
  }

  predicate MinorRead(s: ParseState) {
    match s
    case Res(r) => r.ResMinor? || r.ResFirstStatus? || StatusRead(r)
    case Req(q) => q.ReqMinor? || q.ReqLineAlmostDone?
    case InUrl(_) => false
    case _ => true
  }

  predicate StatusRead(r: ResState) { r.ResStatusCode? || r.ResStatusStart? || r.ResStatus? || r.ResLineAlmostDone? }

  predicate StatusKept(v: View) { v.line.ptype.Request? || !v.state.Res? || StatusRead(v.state.res) }

  predicate UpgradeRead(v: View) {
    v.state.Chunk? || (v.state.Msg? && !v.state.msg.HeadersAlmostDone?) || v.flags.trailing
  }

  predicate Recognising(s: ParseState) { s.Hdr? && !s.hdr.FieldStart? }

  // The fields that still matter inside a message agree.
  predicate SameMessage(v: View, w: View) {
    && v.line.verb == w.line.verb && v.flags == w.flags && v.contentLength == w.contentLength
    && (MajorRead(v.state) ==> v.line.major == w.line.major)
    && (MinorRead(v.state) ==> v.line.minor == w.line.minor)
    && (StatusKept(v) ==> v.line.status == w.line.status)
    && (UpgradeRead(v) ==> v.line.upgrade == w.line.upgrade)
    && (Recognising(v.state) ==> v.hstate == w.hstate)
    && (Recognising(v.state) || v.state == Req(ReqMethod) ==> v.index == w.index)
  }

  // What a message does not set: the status but for a response, the method but for a request.
  predicate SameOutside(v: View, w: View) {
    && (v.line.ptype.Response? || v.line.status == w.line.status)
    && (v.line.ptype.Request? || v.line.verb == w.line.verb)
  }

  // Two parsers that will do the same with the same input.
  ghost predicate Same(v: View, w: View) {
    && v.errno == w.errno && v.state == w.state && v.trace == w.trace
    && v.app.left == w.app.left && SamePlan(v.app, w.app)
    && v.line.ptype == w.line.ptype
    && (v.errno == OK ==> SameOutside(v, w) && (Idle(v.state) || SameMessage(v, w)))
  }

  lemma StartReqSame(v: View, w: View, ch: char)
    requires Same(v, w) && v.errno == OK && v.state == Req(StartReq) && v.line.ptype.Request?
    ensures Same(StepStartReq(v, ch), StepStartReq(w, ch))
  {
    hide Emit, SamePlan, FirstMethod;
  }

  lemma StartResSame(v: View, w: View, ch: char)
    requires Same(v, w) && v.errno == OK && v.state == Res(StartRes) && v.line.ptype.Response?
    ensures Same(StepStartRes(v, ch), StepStartRes(w, ch))
  {
    hide Emit, SamePlan;
  }

  lemma StartReqOrResSame(v: View, w: View, ch: char)
    requires Same(v, w) && v.errno == OK && v.state == Res(StartReqOrRes) && v.line.ptype.Both?
    ensures Same(StepStartReqOrRes(v, ch), StepStartReqOrRes(w, ch))
  {
    hide Emit, SamePlan, StepStartReq;
    StartReqSame(v.(flags := NO_FLAGS, contentLength := ULLONG_MAX, state := Req(StartReq),
                    line := v.line.(ptype := Request)),
                 w.(flags := NO_FLAGS, contentLength := ULLONG_MAX, state := Req(StartReq),
                    line := w.line.(ptype := Request)), ch);
  }

  lemma StartSame(v: View, w: View, ch: char)
    requires Same(v, w) && v.errno == OK && Inv(v) && Inv(w) && Idle(v.state)
    ensures Same(Step(v, ch), Step(w, ch))
  {
    hide Emit, SamePlan, StepHeader, StepMsg, StepChunk, StepUrl, StepMethod, StepStartReq, StepStartRes;
    hide StepStartReqOrRes, StepStatusCode, MoreMajor, MoreMinor, EndStatus, Expect, SameMessage;
    match v.state {
      case Req(_) => StartReqSame(v, w, ch);
      case Res(r) => if r.StartRes? { StartResSame(v, w, ch); } else { StartReqOrResSame(v, w, ch); }
      case Dead =>
    }
  }

  lemma EitherSame(v: View, w: View, ch: char)
    requires Same(v, w) && v.errno == OK && v.state == Res(ResOrRespH) && v.line.ptype.Both?
    ensures Same(StepResponseLine(v, ResOrRespH, ch), StepResponseLine(w, ResOrRespH, ch))
  {
    hide Emit, SamePlan;
  }

  lemma StatusSame(v: View, w: View, r: ResState, ch: char)
    requires Same(v, w) && v.errno == OK && v.state == Res(r) && IsStatus(r)
    ensures Same(StepResponseLine(v, r, ch), StepResponseLine(w, r, ch))
  {
    hide Emit, SamePlan, StepStartReqOrRes, StepStartRes, MoreMajor, MoreMinor, Digit, IsNum;
  }

  lemma MoreSame(v: View, w: View, ch: char)
    requires Same(v, w) && v.errno == OK
    ensures v.state == Res(ResMajor) || v.state == Req(ReqMajor) ==> Same(MoreMajor(v, ch), MoreMajor(w, ch))
    ensures v.state == Res(ResMinor) || v.state == Req(ReqMinor) ==> Same(MoreMinor(v, ch), MoreMinor(w, ch))
  {
    hide SamePlan, Digit, IsNum;
  }

  lemma VersionSame(v: View, w: View, r: ResState, ch: char)
    requires Same(v, w) && v.errno == OK && v.state == Res(r) && !IsStatus(r)
    requires !r.StartRes? && !r.StartReqOrRes? && !r.ResOrRespH?
    ensures Same(StepResponseLine(v, r, ch), StepResponseLine(w, r, ch))
  {
    hide Same, Emit, SamePlan, StepStartReqOrRes, StepStartRes, StepStatusCode, EndStatus, Digit, IsNum, MoreMajor;
    hide MoreMinor, Expect;
    match r {
      case ResH => ExpectSame(v, w, ch, 'T', ResHT);
      case ResHT => ExpectSame(v, w, ch, 'T', ResHTT);
      case ResHTT => ExpectSame(v, w, ch, 'P', ResHTTP);
      case ResHTTP => ExpectSame(v, w, ch, '/', ResFirstMajor);
      case _ => DigitsSame(v, w, r, ch);
    }
  }

  lemma ExpectSame(v: View, w: View, ch: char, want: char, next: ResState)
    requires Same(v, w) && v.errno == OK && v.state.Res? && !Idle(v.state) && !Idle(Res(next)) && !MajorRead(Res(next))
    ensures Same(Expect(v, ch, want, Res(next)), Expect(w, ch, want, Res(next)))
  {
    hide SamePlan;
  }

  lemma DigitsSame(v: View, w: View, r: ResState, ch: char)
    requires Same(v, w) && v.errno == OK && v.state == Res(r)
    requires r.ResFirstMajor? || r.ResMajor? || r.ResFirstMinor? || r.ResMinor?
    ensures Same(StepResponseLine(v, r, ch), StepResponseLine(w, r, ch))
  {
    hide Emit, SamePlan, StepStartReqOrRes, StepStartRes, StepStatusCode, EndStatus, Digit, IsNum, MoreMajor, MoreMinor;
    MoreSame(v, w, ch);
  }

  lemma MethodSame(v: View, w: View, ch: char)
    requires Same(v, w) && v.errno == OK && v.state == Req(ReqMethod)
    ensures Same(StepMethod(v, ch), StepMethod(w, ch))
  {
    hide SamePlan, Retarget, Expected;
  }

  predicate IsNumberState(q: ReqState) { q.ReqFirstMajor? || q.ReqMajor? || q.ReqFirstMinor? || q.ReqMinor? }

  lemma NumberSame(v: View, w: View, q: ReqState, ch: char)
    requires Same(v, w) && v.errno == OK && v.state == Req(q) && IsNumberState(q)
    ensures Same(StepRequestLine(v, q, ch), StepRequestLine(w, q, ch))
  {
    hide SamePlan, StepStartReq, StepMethod, Digit, IsNum, MoreMajor, MoreMinor;
    MoreSame(v, w, ch);
  }

  lemma RequestSame(v: View, w: View, q: ReqState, ch: char)
    requires Same(v, w) && v.errno == OK && v.state == Req(q) && !q.StartReq? && !IsNumberState(q)
    ensures Same(StepRequestLine(v, q, ch), StepRequestLine(w, q, ch))
  {
    hide SamePlan, StepStartReq, StepMethod, MoreMajor, MoreMinor;
    if q.ReqMethod? {
      MethodSame(v, w, ch);
    }
  }

  lemma UrlSame(v: View, w: View, u: UrlState, ch: char)
    requires Same(v, w) && v.errno == OK && v.state == InUrl(u) && Inv(v) && Inv(w)
    ensures Same(StepUrl(v, u, ch), StepUrl(w, u, ch))
  {
    hide Emit, SamePlan, ParseUrlChar;
  }

  lemma SizeSame(v: View, w: View, c: ChunkState, ch: char)
    requires Same(v, w) && v.errno == OK && v.state == Chunk(c) && (c.SizeStart? || c.Size? || c.SizeAlmostDone?)
    ensures Same(StepChunk(v, c, ch), StepChunk(w, c, ch))
  {
    hide Emit, SamePlan, Wrap64, Unhex;
  }

  lemma ChunkSame(v: View, w: View, c: ChunkState, ch: char)
    requires Same(v, w) && v.errno == OK && v.state == Chunk(c)
    ensures Same(StepChunk(v, c, ch), StepChunk(w, c, ch))
  {
    hide Emit, SamePlan, StepChunkSizeStart, StepChunkSize, StepChunkSizeAlmostDone;
    if c.SizeStart? || c.Size? || c.SizeAlmostDone? {
      SizeSame(v, w, c, ch);
    }
  }

  lemma HeadersDoneSame(v: View, w: View, ch: char)
    requires Same(v, w) && v.errno == OK && v.state == Msg(HeadersDone)
    ensures Same(StepHeadersDone(v, ch), StepHeadersDone(w, ch))
  {
    hide Emit, SamePlan;
    PlanLeft(v.app, w.app, true);
  }

  lemma CompleteSame(v: View, w: View)
    requires Same(v, w) && v.errno == OK && v.state == Msg(MessageDone)
    ensures Same(Complete(v), Complete(w)) && Same(StepMessageDone(v), StepMessageDone(w))
  {
    hide Emit, SamePlan;
    PlanLeft(v.app, w.app, v.line.upgrade);
  }

  lemma AnnounceSame(v: View, w: View)
    requires Same(v, w) && v.errno == OK && v.state == Msg(HeadersAlmostDone)
    ensures Same(AnnounceHead(v), AnnounceHead(w)) && AnnounceHead(v).state == Msg(HeadersDone)
  {
    assert Skips(v.app, 0) == Skips(w.app, 0);
    PlanGoesOn(v.app, w.app);
    hide Emit, SamePlan, Skips;
  }

  lemma HeadersAlmostDoneSame(v: View, w: View, ch: char)
    requires Same(v, w) && v.errno == OK && v.state == Msg(HeadersAlmostDone)
    ensures Same(StepHeadersAlmostDone(v, ch), StepHeadersAlmostDone(w, ch))
  {
    hide Emit, SamePlan, AnnounceHead, StepHeadersDone, StepMessageDone;
    if ch == LF && !v.flags.trailing {
      AnnounceSame(v, w);
      AnnounceOk(v);
      HeadersDoneSame(AnnounceHead(v), AnnounceHead(w), ch);
    } else if ch == LF {
      CompleteSame(Tell(v.(state := Msg(MessageDone)), ChunkComplete),
                   Tell(w.(state := Msg(MessageDone)), ChunkComplete));
    }
  }

  lemma AnnounceOk(v: View)
    ensures AnnounceHead(v).errno == v.errno
  {
  }

  lemma MsgSame(v: View, w: View, m: MsgState, ch: char)
    requires Same(v, w) && v.errno == OK && v.state == Msg(m)
    ensures Same(StepMsg(v, m, ch), StepMsg(w, m, ch))
  {
    hide Emit, SamePlan, StepHeadersAlmostDone, StepHeadersDone, StepMessageDone;
    match m {
      case HeadersAlmostDone => HeadersAlmostDoneSame(v, w, ch);
      case HeadersDone => HeadersDoneSame(v, w, ch);
      case Identity =>
        var n := if v.contentLength > 0 then v.contentLength - 1 else 0;
        CompleteSame(Tell(v.(contentLength := n, state := Msg(MessageDone)), Data(Events.Body, [ch])),
                     Tell(w.(contentLength := n, state := Msg(MessageDone)), Data(Events.Body, [ch])));
      case IdentityEof =>
      case MessageDone => CompleteSame(v, w);
    }
  }

  lemma FieldStartSame(v: View, w: View, ch: char)
    requires Same(v, w) && v.errno == OK && v.state == Hdr(FieldStart)
    ensures Same(StepFieldStart(v, ch), StepFieldStart(w, ch))
  {
    hide Emit, SamePlan, StepHeadersAlmostDone, NameStart, Token;
    if ch == LF {
      HeadersAlmostDoneSame(v.(state := Msg(HeadersAlmostDone)), w.(state := Msg(HeadersAlmostDone)), ch);
    }
  }

  lemma SettledSame(v: View, w: View, t: Trace)
    requires Same(v, w) && v.errno == OK && (v.state == Hdr(ValueLws) || v.state == Hdr(DiscardLws))
    ensures Same(v.(flags := Mark(v.flags, v.hstate), state := Hdr(FieldStart), trace := t),
                 w.(flags := Mark(w.flags, w.hstate), state := Hdr(FieldStart), trace := t))
  {
    hide SamePlan, Mark;
    FlagsKept(v.flags, v.hstate, ' ');
  }

  lemma ValueStartSame(v: View, w: View, ch: char)
    requires Same(v, w) && v.errno == OK && Recognising(v.state)
    ensures Same(StepValueStart(v, ch), StepValueStart(w, ch))
  {
    hide Emit, SamePlan, FirstValueState, Lower, IsNum, Digit;
  }

  lemma ValueSame(v: View, w: View, ch: char)
    requires Same(v, w) && v.errno == OK && v.state == Hdr(FieldValue)
    ensures Same(StepValue(v, ch), StepValue(w, ch))
  {
    hide Emit, SamePlan, ValueNext, FlagsNext, IndexNext, Mark, Wrap64, IsNum, Digit;
    FlagsKept(v.flags, v.hstate, ch);
  }

  lemma HeaderSame(v: View, w: View, h: HdrState, ch: char)
    requires Same(v, w) && v.errno == OK && v.state == Hdr(h)
    ensures Same(StepHeader(v, h, ch), StepHeader(w, h, ch))
  {
    hide Emit, SamePlan, StepFieldStart, StepValueStart, StepValue, NameNext, Token, Counts, Mark;
    match h {
      case FieldStart => FieldStartSame(v, w, ch);
      case FieldName =>
      case DiscardWs => ValueStartSame(v, w, ch);
      case DiscardWsAlmostDone =>
      case DiscardLws =>
        var t := Emit(v.trace, Data(Events.Value, []));
        SettledSame(v, w, t);
        FieldStartSame(v.(flags := Mark(v.flags, v.hstate), state := Hdr(FieldStart), trace := t),
                       w.(flags := Mark(w.flags, w.hstate), state := Hdr(FieldStart), trace := t), ch);
      case ValueStart => ValueStartSame(v, w, ch);
      case FieldValue => ValueSame(v, w, ch);
      case HeaderAlmostDone =>
      case ValueLws =>
        SettledSame(v, w, v.trace);
        FieldStartSame(v.(flags := Mark(v.flags, v.hstate), state := Hdr(FieldStart)),
                       w.(flags := Mark(w.flags, w.hstate), state := Hdr(FieldStart)), ch);
        ValueStartSame(v.(state := Hdr(ValueStart)), w.(state := Hdr(ValueStart)), ch);
    }
  }

  // Two such parsers stay so, byte by byte.
  lemma StepSame(v: View, w: View, ch: char)
    requires Same(v, w) && v.errno == OK && Inv(v) && Inv(w)
    ensures Same(Step(v, ch), Step(w, ch))
  {
    if Idle(v.state) {
      StartSame(v, w, ch);
    } else {
      match v.state {
        case Res(r) =>
          if IsStatus(r) {
            StatusSame(v, w, r, ch);
          } else if r.ResOrRespH? {
            EitherSame(v, w, ch);
          } else {
            VersionSame(v, w, r, ch);
          }
        case Req(q) => if IsNumberState(q) { NumberSame(v, w, q, ch); } else { RequestSame(v, w, q, ch); }
        case InUrl(u) => UrlSame(v, w, u, ch);
        case Hdr(h) => HeaderSame(v, w, h, ch);
        case Chunk(c) => ChunkSame(v, w, c, ch);
        case Msg(m) => MsgSame(v, w, m, ch);
      }
      hide StepResponseLine, StepRequestLine, StepUrl, StepHeader, StepChunk, StepMsg, Same;
    }
  }

  lemma {:induction false} RunSame(v: View, w: View, data: string, i: nat, j: nat)
    requires i <= j <= |data| && Same(v, w) && Inv(v) && Inv(w)
    ensures Same(Run(v, data, i, j), Run(w, data, i, j))
    decreases j - i
  {
    hide Step, Inv, SamePlan, SameMessage, SameOutside;
    if i < j && !Halted(v) {
      StepSame(v, w, data[i]);
      if Step(v, data[i]).errno == OK {
        StepKeepsInv(v, data[i]);
        StepKeepsInv(w, data[i]);
        RunSame(Step(v, data[i]), Step(w, data[i]), data, i + 1, j);
      } else {
        RunStopped(Step(v, data[i]), data, i + 1, j);
        RunStopped(Step(w, data[i]), data, i + 1, j);
      }
    }
  }

  lemma RunStopped(v: View, data: string, i: nat, j: nat)
    requires i <= j <= |data| && Halted(v)
    ensures Run(v, data, i, j) == v
  {
  }

  lemma {:induction false} RunShifted(v: View, data: string, i: nat, j: nat, t: Trace)
    requires i <= j <= |data| && Apart(v)
    ensures Run(Shifted(v, t), data, i, j) == Shifted(Run(v, data, i, j), t)
    decreases j - i
  {
    hide Step, Onto;
    if i < j && !Halted(v) {
      StepShifted(v, data[i], t);
      RunShifted(Step(v, data[i]), data, i + 1, j, t);
    }
  }

  // A parser sets the status of responses only, and the method of requests only.
  predicate Unset(v: View) {
    (v.line.ptype.Response? || v.line.status == 0) && (v.line.ptype.Request? || v.line.verb == DELETE)
  }

  // The fields of the line that the header section and the body leave alone.
  predicate LineKept(v: View, w: View) {
    v.line.ptype == w.line.ptype && v.line.status == w.line.status && v.line.verb == w.line.verb
  }

  lemma BodyKeepsLine(v: View, ch: char)
    requires v.state.Msg? || v.state.Chunk?
    ensures LineKept(v, Step(v, ch))
  {
    hide Emit, StepResponseLine, StepRequestLine, StepUrl, StepHeader, Wrap64, Unhex, NewMessage, HeadOf, NeedsEof;
  }

  lemma HeadEndKeepsLine(v: View, ch: char)
    ensures LineKept(v, StepHeadersAlmostDone(v.(state := Msg(HeadersAlmostDone)), ch))
  {
    hide StepHeadersAlmostDone;
    var w := v.(state := Msg(HeadersAlmostDone));
    BodyKeepsLine(w, ch);
    assert Step(w, ch) == StepHeadersAlmostDone(w, ch);
  }

  lemma HeaderKeepsLine(v: View, h: HdrState, ch: char)
    ensures LineKept(v, StepHeader(v, h, ch))
  {
    hide Emit, StepHeadersAlmostDone, Mark, NameNext, Token, Counts, ValueNext, FlagsNext, IndexNext, Wrap64, Digit;
    hide Lower, FirstValueState, NameStart;
    HeadEndKeepsLine(v, ch);
    HeadEndKeepsLine(v.(flags := Mark(v.flags, v.hstate)), ch);
    HeadEndKeepsLine(Tell(v.(flags := Mark(v.flags, v.hstate)), Data(Events.Value, [])), ch);
  }

  lemma LineUnset(v: View, ch: char)
    requires Inv(v) && Unset(v) && (v.state.Dead? || v.state.Res? || v.state.Req? || v.state.InUrl?)
    ensures Unset(Step(v, ch))
  {
    hide Emit, StepHeader, StepChunk, StepMsg, FirstMethod, Retarget, Expected, Digit, ParseUrlChar;
  }

  lemma StepUnset(v: View, ch: char)
    requires Inv(v) && Unset(v)
    ensures Unset(Step(v, ch))
  {
    hide StepResponseLine, StepRequestLine, StepUrl, StepHeader, StepChunk, StepMsg;
    match v.state {
      case Msg(_) => BodyKeepsLine(v, ch);
      case Chunk(_) => BodyKeepsLine(v, ch);
      case Hdr(h) => HeaderKeepsLine(v, h, ch);
      case _ => LineUnset(v, ch);
    }
  }

  lemma {:induction false} RunUnset(v: View, data: string, i: nat, j: nat)
    requires i <= j <= |data| && Inv(v) && Unset(v)
    ensures Unset(Run(v, data, i, j))
    decreases j - i
  {
    hide Step, Inv, Unset;
    if i < j && !Halted(v) {
      StepUnset(v, data[i]);
      if Step(v, data[i]).errno == OK {
        StepKeepsInv(v, data[i]);
        RunUnset(Step(v, data[i]), data, i + 1, j);
      } else {
        RunStopped(Step(v, data[i]), data, i + 1, j);
      }
    }
  }

  // A parser between two messages does with data what any other of its type does, whatever the other
  // fields were left at: its callbacks are those made before, then those of the other one.
  lemma MessageIndependence(v: View, other: View, data: string)
    requires Inv(v) && Unset(v) && Inv(other) && Unset(other)
    requires Idle(v.state) && v.state == other.state && v.errno == other.errno && v.line.ptype == other.line.ptype
    requires v.app.left == other.app.left && SamePlan(v.app, other.app) && other.trace.Silence?
    ensures var w, x := Feed(v, data), Feed(other, data);
            w.trace == Onto(v.trace, x.trace) && w.errno == x.errno && w.state == x.state && w.app.left == x.app.left
  {
    var z := v.(trace := Silence);
    assert Shifted(z, v.trace) == v;
    assert Inv(z) && Same(z, other) && Apart(z);
    hide Step, Inv, Run, Onto;
    RunSame(z, other, data, 0, |data|);
    RunShifted(z, data, 0, |data|, v.trace);
  }

  // The application's answers from now on.
  function Later(a: App): set<nat> {
    set k | k in a.skips && k >= a.heads :: k - a.heads
  }

  lemma LaterPlan(a: App)
    ensures SamePlan(a, App(0, Later(a), a.left))
  {
    var b := App(0, Later(a), a.left);
    forall k: nat {:trigger Skips(a, k)} ensures Skips(a, k) == Skips(b, k) {
      if Skips(a, k) {
        assert (a.heads + k) - a.heads == k;
      }
    }
  }

  // Pipelining: after messages that leave the parser open for another one, more data makes the callbacks
  // that it makes in a new parser of the type that the parser has turned out to be.
  lemma Pipelining(t: ParserType, skips: set<nat>, m: string, data: string)
    requires var w := Feed(NewView(t, skips), m); !Halted(w) && Idle(w.state) && w.state != Dead
    ensures var v, w := NewView(t, skips), Feed(NewView(t, skips), m);
            var x, y := Feed(v, m + data), Feed(NewView(w.line.ptype, Later(w.app)), data);
            && x.trace == Onto(w.trace, y.trace)
            && x.errno == y.errno && x.state == y.state && x.app.left == y.app.left
  {
    var v := NewView(t, skips);
    var w := Feed(v, m);
    var other := NewView(w.line.ptype, Later(w.app));
    NewParser(t, skips);
    NewParser(w.line.ptype, Later(w.app));
    RunKeepsInv(v, m, 0, |m|);
    RunUnset(v, m, 0, |m|);
    assert w.state == other.state;
    LaterPlan(w.app);
    hide Step, Inv, Onto, Run, SamePlan, Unset, NewView;
    FeedConcat(v, m, data);
    MessageIndependence(w, other, data);
  }

  lemma NewParser(t: ParserType, skips: set<nat>)
    ensures Inv(NewView(t, skips)) && Unset(NewView(t, skips))
  {
  }

  lemma PlanLeft(a: App, b: App, leave: bool)
    requires SamePlan(a, b)
    ensures SamePlan(a.(left := leave), b.(left := leave))
  {
    var c, d := a.(left := leave), b.(left := leave);
    forall k: nat {:trigger Skips(c, k)} ensures Skips(c, k) == Skips(d, k) {
      assert Skips(a, k) == Skips(b, k);
    }
  }

  lemma PlanGoesOn(a: App, b: App)
    requires SamePlan(a, b)
    ensures SamePlan(a.(heads := a.heads + 1), b.(heads := b.heads + 1))
    ensures a.heads in a.skips <==> b.heads in b.skips
  {
    var c, d := a.(heads := a.heads + 1), b.(heads := b.heads + 1);
    forall k: nat {:trigger Skips(c, k)} ensures Skips(c, k) == Skips(d, k) {
      assert Skips(a, k + 1) == Skips(b, k + 1);
    }
    assert Skips(a, 0) == Skips(b, 0);
  }
}
