// What the parser refuses and with which error, and what it forgives.
module Refusals {
  import opened Chars
  import opened Types
  import opened Views
  import opened StartLine
  import opened Headers
  import opened Body
  import opened Machine
  import opened Alphabets
  import opened Lengths
  import opened Chunks
  import opened Requests
  import Syntax

  predicate IsTokenChar(c: char) { IsLetter(c) || c in DIGITS || c in TOKEN_MARKS }

  // The bytes a state takes, but for the states that depend on more than the byte: in a method, in a URL,
  // in a value, and in a chunk size.
  predicate Takes(s: ParseState, c: char) {
    match s
    case Dead => c in "\r\n"
    case Res(r) => TakesInResponse(r, c)
    case Req(q) => TakesInRequest(q, c)
    case InUrl(_) => true
    case Hdr(h) =>
      (match h
       case FieldStart => c in "\r\n" || IsTokenChar(c)
       case FieldName => c == ':' || IsTokenChar(c)
       case DiscardWsAlmostDone => c == LF
       case DiscardLws => c in " \t\r\n" || IsTokenChar(c)
       case ValueLws => c in " \t\r\n" || IsTokenChar(c)
       case HeaderAlmostDone => c == LF
       case _ => true)
    case Chunk(k) =>
      (match k
       case SizeAlmostDone => c == LF
       case DataAlmostDone => c == CR
       case DataDone => c == LF
       case _ => true)
    case Msg(m) => m.HeadersAlmostDone? || m.HeadersDone? ==> c == LF
  }

  predicate TakesInResponse(r: ResState, c: char) {
    match r
    case StartReqOrRes => c in "\r\n" || c in "ABCDGHLMNOPRSTU"
    case ResOrRespH => c in "TE"
    case StartRes => c in "H\r\n"
    case ResH => c == 'T'
    case ResHT => c == 'T'
    case ResHTT => c == 'P'
    case ResHTTP => c == '/'
    case ResFirstMajor => c in DIGITS
    case ResMajor => c == '.' || c in DIGITS
    case ResFirstMinor => c in DIGITS
    case ResMinor => c == ' ' || c in DIGITS
    case ResFirstStatus => c == ' ' || c in DIGITS
    case ResStatusCode => c in " \r\n" || c in DIGITS
    case ResLineAlmostDone => c == LF
    case _ => true
  }

  predicate TakesInRequest(q: ReqState, c: char) {
    match q
    case StartReq => c in "\r\n" || c in "ABCDGHLMNOPRSTU"
    case ReqMethod => true
    case ReqHttpStart => c in "H "
    case ReqHttpH => c == 'T'
    case ReqHttpHT => c == 'T'
    case ReqHttpHTT => c == 'P'
    case ReqHttpHTTP => c == '/'
    case ReqFirstMajor => c in DIGITS && c != '0'
    case ReqMajor => c == '.' || c in DIGITS
    case ReqFirstMinor => c in DIGITS
    case ReqMinor => c in "\r\n" || c in DIGITS
    case ReqLineAlmostDone => c == LF
  }

  // The error of a state, when a byte is refused.
  function Complaint(s: ParseState): Errno {
    match s
    case Dead => ClosedConnection
    case Res(r) =>
      if r.StartReqOrRes? then InvalidMethod
      else if r.ResOrRespH? || r.StartRes? then InvalidConstant
      else if r.ResFirstMajor? || r.ResMajor? || r.ResFirstMinor? || r.ResMinor? then InvalidVersion
      else if r.ResFirstStatus? || r.ResStatusCode? then InvalidStatus
      else Strict
    case Req(q) =>
      if q.StartReq? || q.ReqMethod? then InvalidMethod
      else if q.ReqHttpStart? then InvalidConstant
      else if q.ReqFirstMajor? || q.ReqMajor? || q.ReqFirstMinor? || q.ReqMinor? then InvalidVersion
      else if q.ReqLineAlmostDone? then LfExpected
      else Strict
    case InUrl(_) => InvalidUrl
    case Hdr(h) =>
      if h.FieldStart? || h.FieldName? || h.DiscardLws? || h.ValueLws? then InvalidHeaderToken
      else if h.DiscardWs? || h.ValueStart? || h.FieldValue? then InvalidContentLength
      else Strict
    case Chunk(k) => if k.SizeStart? || k.Size? then InvalidChunkSize else Strict
    case Msg(_) => Strict
  }

  // Numbers may grow too large on a byte that is taken, and a folded line may be no length.
  predicate OutOfRange(s: ParseState, e: Errno) {
    match s
    case Res(r) => ((r.ResMajor? || r.ResMinor?) && e == InvalidVersion) || (r.ResStatusCode? && e == InvalidStatus)
    case Req(q) => (q.ReqMajor? || q.ReqMinor?) && e == InvalidVersion
    case Hdr(h) => h.ValueLws? && e == InvalidContentLength
    case Chunk(k) => k.Size? && e == InvalidContentLength
    case _ => false
  }

  lemma ClassesExact(c: char)
    ensures IsToken(c) <==> IsTokenChar(c)
    ensures IsNum(c) <==> c in DIGITS
    ensures FirstMethod(c).Some? && IsAlpha(c) <==> c in "ABCDGHLMNOPRSTU"
    ensures IsTokenChar(c) ==> c !in " \t\r\n"
  {
    TokenExact(c);
    DigitExact(c);
    hide IsLetter;
  }

  // Whether a byte is taken depends on the state and the byte alone.
  predicate IsPlain(s: ParseState) {
    match s
    case Req(q) => !q.ReqMethod?
    case InUrl(_) => false
    case Hdr(h) => !(h.DiscardWs? || h.ValueStart? || h.FieldValue?)
    case Chunk(k) => !(k.SizeStart? || k.Size?)
    case _ => true
  }

  // The errno e that a byte leaves is right.
  predicate Right(s: ParseState, ch: char, e: Errno) {
    && (!Takes(s, ch) ==> e == Complaint(s))
    && (e != OK ==> e == Complaint(s) || OutOfRange(s, e))
    && (IsPlain(s) && Takes(s, ch) && e != OK ==> OutOfRange(s, e))
  }

  lemma ResponseRight(v: View, r: ResState, ch: char)
    requires !Halted(v) && v.state == Res(r)
    ensures Right(v.state, ch, StepResponseLine(v, r, ch).errno)
  {
    hide IsToken, IsTokenChar, IsNum, FirstMethod, Digit, IsAlpha;
    ClassesExact(ch);
  }

  lemma RequestRight(v: View, q: ReqState, ch: char)
    requires !Halted(v) && v.state == Req(q)
    ensures Right(v.state, ch, StepRequestLine(v, q, ch).errno)
  {
    hide IsToken, IsTokenChar, IsNum, FirstMethod, Digit, IsAlpha, Expected, Retarget;
    ClassesExact(ch);
  }

  lemma HeaderRight(v: View, h: HdrState, ch: char)
    requires !Halted(v) && v.state == Hdr(h)
    ensures Right(v.state, ch, StepHeader(v, h, ch).errno)
  {
    hide IsTokenChar, IsNum, Digit, NameNext, ValueNext, IndexNext, FlagsNext, IsToken, Mark, StepFieldStart;
    hide FirstValueState;
    ClassesExact(ch);
    forall w: View | w.errno == OK
      ensures StepFieldStart(w, ch).errno == if IsEol(ch) || IsTokenChar(ch) then OK else InvalidHeaderToken
    {
      LineStart(w, ch);
    }
  }

  lemma LineStart(v: View, ch: char)
    requires v.errno == OK
    ensures StepFieldStart(v, ch).errno == if IsEol(ch) || IsTokenChar(ch) then OK else InvalidHeaderToken
  {
    hide IsTokenChar, IsToken, NameStart, StepHeadersAlmostDone;
    ClassesExact(ch);
    HeadDone(v.(state := Msg(HeadersAlmostDone)), ch);
  }

  lemma HeadDone(v: View, ch: char)
    ensures v.errno == OK ==> StepHeadersAlmostDone(v, ch).errno == if ch == LF then OK else Strict
    ensures v.errno == OK ==> StepHeadersDone(v, ch).errno == if ch == LF then OK else Strict
  {
    hide ShouldKeepAlive, NeedsEof;
  }

  lemma ChunkRight(v: View, k: ChunkState, ch: char)
    requires !Halted(v) && v.state == Chunk(k)
    ensures Right(v.state, ch, StepChunk(v, k, ch).errno)
  {
    hide IsTokenChar, Unhex, Wrap64;
  }

  lemma MsgRight(v: View, m: MsgState, ch: char)
    requires !Halted(v) && v.state == Msg(m)
    ensures Right(v.state, ch, StepMsg(v, m, ch).errno)
  {
    hide IsTokenChar, StepHeadersDone, NewMessage, StepHeadersAlmostDone;
    HeadDone(v, ch);
  }

  // Every byte that a state does not take ends the parse with the error of that state, and no other errors
  // are found but those of numbers that are too large, and of a folded length.
  lemma RefusedExactly(v: View, ch: char)
    requires !Halted(v)
    ensures Right(v.state, ch, Step(v, ch).errno)
  {
    hide Right, StepResponseLine, StepRequestLine, StepHeader, StepUrl, StepChunk, StepMsg;
    match v.state {
      case Res(r) => ResponseRight(v, r, ch);
      case Req(q) => RequestRight(v, q, ch);
      case Hdr(h) => HeaderRight(v, h, ch);
      case Chunk(k) => ChunkRight(v, k, ch);
      case Msg(m) => MsgRight(v, m, ch);
      case _ => LineRight(v, ch);
    }
  }

  lemma LineRight(v: View, ch: char)
    requires !Halted(v) && (v.state.Dead? || v.state.InUrl?)
    ensures Right(v.state, ch, Step(v, ch).errno)
  {
    hide ParseUrlChar;
  }

  // A state in which a line may end.
  predicate MayEndLine(s: ParseState) {
    match s
    case Req(q) => q.ReqMinor?
    case Res(r) => r.ResStatusCode? || r.ResStatusStart? || r.ResStatus?
    case InUrl(u) => Syntax.MayEnd(u)
    case Hdr(h) => h.FieldStart? || h.DiscardWs? || h.FieldValue?
    case _ => false
  }

  lemma ReturnStep(v: View)
    requires !Halted(v) && MayEndLine(v.state)
    ensures var w := Step(v, CR);
            && !Halted(w) && Step(w, LF) == Step(v, LF) && forall ch :: ch != LF ==>
              Step(w, ch).errno == if v.state.Req? || v.state.InUrl? then LfExpected else Strict
  {
    hide StepHeadersDone, AnnounceHead, NameNext, ValueNext, IndexNext, FlagsNext, NameStart, StepLengthByte;
    hide ParseUrlChar, IsToken, NewMessage;
  }

  // A line feed alone ends a line of the head as a carriage return and a line feed do,
  lemma BareLineFeed(v: View)
    requires !Halted(v) && MayEndLine(v.state)
    ensures Feed(v, [LF]) == Feed(v, [CR, LF])
  {
    hide Step, Feed, MayEndLine;
    ReturnStep(v);
    FeedOne(v, LF);
    FeedTwo(v, CR, LF);
  }

  // and a carriage return alone does not.
  lemma BareReturn(v: View, ch: char)
    requires !Halted(v) && MayEndLine(v.state) && ch != LF
    ensures Feed(v, [CR, ch]).errno == if v.state.Req? || v.state.InUrl? then LfExpected else Strict
  {
    hide Step, Feed, MayEndLine;
    ReturnStep(v);
    FeedTwo(v, CR, ch);
  }

  // The bytes that change nothing: empty lines before a request, spaces before the URL, the version and the
  // status, blanks before a value, and all of a chunk extension.
  predicate IsSkipped(s: ParseState, ch: char) {
    match s
    case Dead => ch == CR || ch == LF
    case Req(q) => (q.StartReq? && (ch == CR || ch == LF)) || (q.ReqHttpStart? && ch == ' ')
    case Res(r) => (r.StartReqOrRes? && (ch == CR || ch == LF)) || (r.ResFirstStatus? && ch == ' ')
    case InUrl(u) => u.SpacesBeforeUrl? && ch == ' '
    case Hdr(h) => h.DiscardWs? && (ch == ' ' || ch == '\t')
    case Chunk(k) => k.Parameters? && ch != CR
    case Msg(_) => false
  }

  lemma SkippedExactly(v: View, ch: char)
    requires !Halted(v) && IsSkipped(v.state, ch)
    ensures Step(v, ch) == v
  {
    hide StepMethod;
  }

  lemma {:induction false} SkippedRun(v: View, s: string)
    requires !Halted(v) && forall k :: 0 <= k < |s| ==> IsSkipped(v.state, s[k])
    ensures Feed(v, s) == v
    decreases |s|
  {
    hide Step, Feed, IsSkipped;
    if |s| == 0 {
      assert s == [];
      FeedNothing(v);
    } else {
      SkippedExactly(v, s[0]);
      FeedCons(v, s);
      SkippedRun(v, s[1..]);
    }
  }

  lemma CodeEnds(v: View)
    requires !Halted(v) && v.state == Res(ResStatusCode)
    ensures !Halted(Step(v, ' ')) && Step(Step(v, ' '), CR) == Step(v, CR) && Step(Step(v, ' '), LF) == Step(v, LF)
  {
    hide Digit;
  }

  // A status line may end at the status code: the space and the reason phrase may be left out.
  lemma ReasonOmitted(v: View, eol: string, rest: string)
    requires !Halted(v) && v.state == Res(ResStatusCode) && (eol == [CR, LF] || eol == [LF])
    ensures Feed(v, eol + rest) == Feed(v, [' '] + (eol + rest))
  {
    hide Step, Feed;
    CodeEnds(v);
    var w, s := Step(v, ' '), eol + rest;
    assert s[0] == eol[0] && ([' '] + s)[1..] == s;
    FeedCons(v, [' '] + s);
    FeedSame(v, w, s);
  }
}
