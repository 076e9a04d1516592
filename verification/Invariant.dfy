// What holds of a parser between any two bytes: the assertions of http_parser_execute
// and the bounds its fixed-width fields rely on.
module Invariant {
  import opened Chars
  import opened Types
  import opened Events
  import opened Views
  import opened StartLine
  import opened Headers
  import opened Body
  import opened Machine

  // Recogniser states that can occur inside a header name, with the matched length.
  predicate NameState(h: HeaderState, index: nat) {
    match h
    case General => true
    case C => index == 0
    case CO => index == 1
    case CON => index == 2
    case MatchingConnection => 3 <= index < 9
    case MatchingProxyConnection => index < 15
    case MatchingContentLength => 3 <= index < 13
    case MatchingTransferEncoding => index < 16
    case MatchingUpgrade => index < 6
    case Connection => true
    case ContentLength => true
    case TransferEncoding => true
    case Upgrade => true
    case _ => false
  }

  // Recogniser states that can occur inside a header value.
  predicate ValueState(h: HeaderState, index: nat) {
    match h
    case General => true
    case ContentLength => true
    case MatchingChunked => index < 6
    case MatchingTokenStart => index == 0
    case MatchingKeepAlive => index < 9
    case MatchingClose => index < 4
    case MatchingConnUpgrade => index < 6
    case MatchingToken => true
    case Chunked => true
    case KeepAlive => true
    case Close => true
    case ConnUpgrade => true
    case _ => false
  }

  // The kind of data a byte of this state belongs to, if the run started earlier.
  function RunKind(s: ParseState): Option<Kind> {
    match s
    case Res(r) => if r.ResStatus? then Some(Events.Status) else None
    case InUrl(u) => if u.SpacesBeforeUrl? then None else Some(Url)
    case Hdr(h) => if h.FieldName? then Some(Field) else if h.FieldValue? then Some(Events.Value) else None
    case _ => None
  }

  predicate ResOk(v: View, r: ResState) {
    && (r.StartRes? ==> v.line.ptype.Response?)
    && (r.StartReqOrRes? || r.ResOrRespH? <==> v.line.ptype.Both?)
    && !v.line.ptype.Request?
  }

  predicate ReqOk(v: View, q: ReqState) {
    && v.line.ptype.Request?
    && (q.ReqMethod? ==> 1 <= v.index <= |MethodName(v.line.verb)|)
  }

  predicate HdrOk(v: View, h: HdrState) {
    match h
    case FieldStart => true
    case FieldName => NameState(v.hstate, v.index)
    case DiscardWs => NameState(v.hstate, v.index)
    case DiscardWsAlmostDone => NameState(v.hstate, v.index)
    case DiscardLws => NameState(v.hstate, v.index)
    case ValueStart => NameState(v.hstate, v.index) || ValueState(v.hstate, v.index)
    case FieldValue => ValueState(v.hstate, v.index)
    case HeaderAlmostDone => ValueState(v.hstate, v.index)
    case ValueLws => ValueState(v.hstate, v.index)
  }

  predicate ChunkOk(v: View, c: ChunkState) {
    && v.flags.chunked
    && (match c
        case SizeStart => true
        case ChunkData => v.contentLength != 0 && v.contentLength != ULLONG_MAX
        case DataAlmostDone => v.contentLength == 0
        case DataDone => true
        case _ => v.contentLength != ULLONG_MAX)
  }

  predicate StateOk(v: View) {
    match v.state
    case Dead => true
    case Res(r) => ResOk(v, r)
    case Req(q) => ReqOk(v, q)
    case InUrl(_) => v.line.ptype.Request?
    case Hdr(h) => HdrOk(v, h)
    case Chunk(c) => ChunkOk(v, c)
    case Msg(m) => m.Identity? ==> v.contentLength != 0 && v.contentLength != ULLONG_MAX
  }

  // The widths of the fields, and the run that is being read ends the trace.
  predicate Inv(v: View) {
    && v.index < 256
    && v.contentLength <= ULLONG_MAX
    && v.line.major <= 999 && v.line.minor <= 999 && v.line.status <= 999
    && (v.line.ptype.Both? ==> v.state.Res?)
    && StateOk(v)
    && (RunKind(v.state).Some? ==> EndsIn(v.trace, RunKind(v.state).value))
  }

  // The assertions of http_parser_execute, at the head of its switch, when nread is n.
  predicate Asserted(v: View, n: nat) {
    && (v.state == Hdr(FieldName) ==> NameState(v.hstate, v.index))
    && (v.state == Hdr(FieldValue) ==> ValueState(v.hstate, v.index))
    && (v.state == Msg(Identity) || v.state == Chunk(ChunkData) ==>
          v.contentLength != 0 && v.contentLength != ULLONG_MAX)
    && (v.state == Chunk(SizeStart) ==> n == 1)
    && (v.state.Chunk? ==> v.flags.chunked)
    && (v.state == Chunk(DataAlmostDone) ==> v.contentLength == 0)
  }

  // None of them can fail.
  lemma AssertionsHold(v: View, n: nat)
    requires Inv(v) && (v.state == Chunk(SizeStart) ==> n == 1)
    ensures Asserted(v, n)
  {
  }

  lemma StartReqKeepsInv(v: View, ch: char)
    requires Inv(v) && v.state == Req(StartReq) && StepStartReq(v, ch).errno == OK
    ensures Inv(StepStartReq(v, ch))
  {
  }

  lemma ResponseStartKeepsInv(v: View, r: ResState, ch: char)
    requires Inv(v) && v.state == Res(r) && (r.StartReqOrRes? || r.ResOrRespH? || r.StartRes?)
    requires StepResponseLine(v, r, ch).errno == OK
    ensures Inv(StepResponseLine(v, r, ch))
  {
    if r.StartReqOrRes? && ch != 'H' && !IsEol(ch) {
      StartReqKeepsInv(v.(flags := NO_FLAGS, contentLength := ULLONG_MAX, state := Req(StartReq),
                          line := v.line.(ptype := Request)), ch);
    }
  }

  predicate IsStatus(r: ResState) {
    r.ResFirstStatus? || r.ResStatusCode? || r.ResStatusStart? || r.ResStatus? || r.ResLineAlmostDone?
  }

  lemma ResponseLineKeepsInv(v: View, r: ResState, ch: char)
    requires Inv(v) && v.state == Res(r) && !(r.StartReqOrRes? || r.ResOrRespH? || r.StartRes?)
    requires !IsStatus(r) && StepResponseLine(v, r, ch).errno == OK
    ensures Inv(StepResponseLine(v, r, ch))
  {
  }

  lemma StatusKeepsInv(v: View, r: ResState, ch: char)
    requires Inv(v) && v.state == Res(r) && IsStatus(r) && StepResponseLine(v, r, ch).errno == OK
    ensures Inv(StepResponseLine(v, r, ch))
  {
  }

  lemma MethodLength(m: Method)
    ensures 3 <= |MethodName(m)| <= 11
  {
  }

  // A method the matcher turns to is longer than what has been read.
  lemma RetargetFits(m: Method, index: nat, ch: char)
    requires 1 <= index <= |MethodName(m)| && Retarget(m, index, ch).Some?
    requires ch != Expected(m, index)
    ensures index < |MethodName(Retarget(m, index, ch).value)|
  {
    MethodLength(Retarget(m, index, ch).value);
    assert |MethodName(MKCALENDAR)| == 10 && |MethodName(PROPPATCH)| == 9 && |MethodName(UNLINK)| == 6;
    hide MethodName;
  }

  lemma MethodKeepsInv(v: View, ch: char)
    requires Inv(v) && v.state == Req(ReqMethod) && StepMethod(v, ch).errno == OK
    ensures Inv(StepMethod(v, ch))
  {
    hide Retarget, MethodName;
    if ch != Expected(v.line.verb, v.index) && Retarget(v.line.verb, v.index, ch).Some? {
      RetargetFits(v.line.verb, v.index, ch);
    }
    MethodLength(v.line.verb);
  }

  lemma RequestLineKeepsInv(v: View, q: ReqState, ch: char)
    requires Inv(v) && v.state == Req(q) && !q.StartReq? && !q.ReqMethod?
    requires StepRequestLine(v, q, ch).errno == OK
    ensures Inv(StepRequestLine(v, q, ch))
  {
  }

  lemma UrlKeepsInv(v: View, u: UrlState, ch: char)
    requires Inv(v) && v.state == InUrl(u) && StepUrl(v, u, ch).errno == OK
    ensures Inv(StepUrl(v, u, ch))
  {
  }

  lemma AnnounceHeadKeepsInv(v: View)
    requires Inv(v) && v.state == Msg(HeadersAlmostDone)
    ensures Inv(AnnounceHead(v)) && AnnounceHead(v).state == Msg(HeadersDone)
  {
  }

  lemma HeadersDoneKeepsInv(v: View, ch: char)
    requires Inv(v) && v.state == Msg(HeadersDone) && StepHeadersDone(v, ch).errno == OK
    ensures Inv(StepHeadersDone(v, ch))
  {
  }

  lemma HeadersAlmostDoneKeepsInv(v: View, ch: char)
    requires Inv(v) && v.state == Msg(HeadersAlmostDone) && StepHeadersAlmostDone(v, ch).errno == OK
    ensures Inv(StepHeadersAlmostDone(v, ch))
  {
    if !v.flags.trailing {
      AnnounceHeadKeepsInv(v);
      HeadersDoneKeepsInv(AnnounceHead(v), ch);
    }
  }

  lemma FieldStartKeepsInv(v: View, ch: char)
    requires Inv(v) && v.state == Hdr(FieldStart) && StepFieldStart(v, ch).errno == OK
    ensures Inv(StepFieldStart(v, ch))
  {
    if ch == LF {
      HeadersAlmostDoneKeepsInv(v.(state := Msg(HeadersAlmostDone)), ch);
    }
  }

  lemma NameStateNext(h: HeaderState, index: nat, c: char)
    requires NameState(h, index)
    ensures NameState(NameNext(h, index, c), if Counts(h) then index + 1 else index)
    ensures Counts(h) ==> index < 20
  {
  }

  lemma FieldNameKeepsInv(v: View, ch: char)
    requires Inv(v) && v.state == Hdr(FieldName) && StepFieldName(v, ch).errno == OK
    ensures Inv(StepFieldName(v, ch))
  {
    hide NameNext, Token, Counts;
    NameStateNext(v.hstate, v.index, Token(ch));
  }

  lemma ValueStartKeepsInv(v: View, ch: char)
    requires Inv(v.(state := Hdr(ValueStart))) && StepValueStart(v, ch).errno == OK
    ensures Inv(StepValueStart(v, ch))
  {
  }

  lemma ValueStateNext(h: HeaderState, index: nat, ch: char)
    requires ValueState(h, index) && !h.ContentLength? && index < 256
    ensures ValueState(ValueNext(h, index, ch), IndexNext(h, index, ch)) && IndexNext(h, index, ch) < 256
  {
  }

  lemma FieldValueKeepsInv(v: View, ch: char)
    requires Inv(v) && v.state == Hdr(FieldValue) && StepValue(v, ch).errno == OK
    ensures Inv(StepValue(v, ch))
  {
    hide ValueNext, IndexNext, FlagsNext;
    if !v.hstate.ContentLength? {
      ValueStateNext(v.hstate, v.index, ch);
    }
  }

  lemma HeaderKeepsInv(v: View, h: HdrState, ch: char)
    requires Inv(v) && v.state == Hdr(h) && StepHeader(v, h, ch).errno == OK
    ensures Inv(StepHeader(v, h, ch))
  {
    hide StepFieldStart, StepFieldName, StepValueStart, StepValue;
    match h {
      case FieldStart => FieldStartKeepsInv(v, ch);
      case FieldName => FieldNameKeepsInv(v, ch);
      case DiscardWs =>
        if !IsBlank(ch) && !IsEol(ch) { ValueStartKeepsInv(v, ch); }
      case DiscardWsAlmostDone =>
      case DiscardLws =>
        if !IsBlank(ch) {
          FieldStartKeepsInv(
            Tell(v.(flags := Mark(v.flags, v.hstate), state := Hdr(FieldStart)), Data(Events.Value, [])), ch);
        }
      case ValueStart => ValueStartKeepsInv(v, ch);
      case FieldValue => FieldValueKeepsInv(v, ch);
      case HeaderAlmostDone =>
      case ValueLws =>
        if IsBlank(ch) {
          ValueStartKeepsInv(v.(state := Hdr(ValueStart)), ch);
        } else {
          FieldStartKeepsInv(v.(flags := Mark(v.flags, v.hstate), state := Hdr(FieldStart)), ch);
        }
    }
  }

  lemma ChunkKeepsInv(v: View, c: ChunkState, ch: char)
    requires Inv(v) && v.state == Chunk(c) && StepChunk(v, c, ch).errno == OK
    ensures Inv(StepChunk(v, c, ch))
  {
  }

  lemma MsgKeepsInv(v: View, m: MsgState, ch: char)
    requires Inv(v) && v.state == Msg(m) && StepMsg(v, m, ch).errno == OK
    ensures Inv(StepMsg(v, m, ch))
  {
    hide StepHeadersAlmostDone, StepHeadersDone;
    match m {
      case HeadersAlmostDone => HeadersAlmostDoneKeepsInv(v, ch);
      case HeadersDone => HeadersDoneKeepsInv(v, ch);
      case _ =>
    }
  }

  lemma StepKeepsInv(v: View, ch: char)
    requires Inv(v) && Step(v, ch).errno == OK
    ensures Inv(Step(v, ch))
  {
    hide StepResponseLine, StepRequestLine, StepUrl, StepHeader, StepChunk, StepMsg;
    match v.state {
      case Dead =>
      case Res(r) =>
        if r.StartReqOrRes? || r.ResOrRespH? || r.StartRes? {
          ResponseStartKeepsInv(v, r, ch);
        } else if IsStatus(r) {
          StatusKeepsInv(v, r, ch);
        } else {
          ResponseLineKeepsInv(v, r, ch);
        }
      case Req(q) => RequestKeepsInv(v, q, ch);
      case InUrl(u) => UrlKeepsInv(v, u, ch);
      case Hdr(h) => HeaderKeepsInv(v, h, ch);
      case Chunk(c) => ChunkKeepsInv(v, c, ch);
      case Msg(m) => MsgKeepsInv(v, m, ch);
    }
  }

  lemma RequestKeepsInv(v: View, q: ReqState, ch: char)
    requires Inv(v) && v.state == Req(q) && StepRequestLine(v, q, ch).errno == OK
    ensures Inv(StepRequestLine(v, q, ch))
  {
    match q {
      case StartReq => StartReqKeepsInv(v, ch);
      case ReqMethod => MethodKeepsInv(v, ch);
      case _ => RequestLineKeepsInv(v, q, ch);
    }
  }
}
