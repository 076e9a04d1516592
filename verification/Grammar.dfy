// Every run of the parser is accepted by the monitor.
module Grammar {
  import opened Chars
  import opened Types
  import opened Events
  import opened Views
  import opened StartLine
  import opened Headers
  import opened Body
  import opened Machine
  import opened Invariant
  import opened Runs
  import opened Monitor

  predicate KeepRight(v: View, keep: Option<bool>) { keep.Some? ==> keep.value == ShouldKeepAlive(v) }

  // The phase inside the header section, or inside the trailers of a chunked body.
  predicate Section(v: View, q: Phase, head: bool, trailer: bool) {
    if v.flags.trailing then trailer && q.After? && KeepRight(v, q.keep) else head
  }

  // Between two header lines.
  predicate AtLine(strict: bool, v: View, q: Phase) {
    Section(v, q, q.InLine? || q.Val? || (q.Begun? && !strict), q.After? && (q.part.Trailer? || q.part.TrailerValue?))
  }

  predicate HdrPhase(strict: bool, v: View, h: HdrState, q: Phase) {
    match h
    case FieldStart => AtLine(strict, v, q)
    case ValueStart =>
      Section(v, q, q.Name? || q.Val?, q == After(TrailerField, None) || q == After(TrailerValue, None))
    case FieldValue => Section(v, q, q.Val?, q == After(TrailerValue, None))
    case HeaderAlmostDone => Section(v, q, q.Val?, q == After(TrailerValue, None))
    case ValueLws => Section(v, q, q.Val?, q == After(TrailerValue, None))
    case _ => Section(v, q, q.Name?, q == After(TrailerField, None))
  }

  predicate ResPhase(strict: bool, v: View, r: ResState, q: Phase) {
    && !strict
    && match r
       case StartReqOrRes => q == Over(Some(true))
       case StartRes => q.Begun? || (q.Over? && q.keep != Some(false))
       case ResStatus => q == InLine(Status) && !v.flags.trailing
       case ResLineAlmostDone => (q.Begun? || q == InLine(Status)) && !v.flags.trailing
       case _ => q.Begun? && !v.flags.trailing
  }

  predicate ReqPhase(v: View, r: ReqState, q: Phase) {
    match r
    case StartReq => q.Over? && q.keep != Some(false)
    case ReqMethod => q.Begun? && !v.flags.trailing
    case _ => q == InLine(Url) && !v.flags.trailing
  }

  predicate ChunkPhase(v: View, c: ChunkState, q: Phase) {
    && q.After? && KeepRight(v, q.keep)
    && match c
       case ChunkData => q.part == InChunk(v.contentLength)
       case DataAlmostDone => q.part == InChunk(0)
       case DataDone => q.part == InChunk(0)
       case _ => q.part.BetweenChunks?
  }

  predicate MsgPhase(strict: bool, v: View, m: MsgState, q: Phase) {
    match m
    case HeadersAlmostDone => AtLine(strict, v, q)
    case HeadersDone => q == After(Framing(HeadOf(v)), Some(Persistent(HeadOf(v))))
    case Identity => q.After? && KeepRight(v, q.keep) && q.part == Counted(v.contentLength)
    case IdentityEof => q.After? && q.part.UntilEof?
    case MessageDone => q.After? && KeepRight(v, q.keep) && q.part == Counted(0)
  }

  // The state of the parser agrees with the phase the monitor is in.
  predicate Agrees(strict: bool, v: View, q: Phase) {
    match v.state
    case Dead => q.Over? && q.keep != Some(true)
    case Res(r) => ResPhase(strict, v, r, q)
    case Req(r) => ReqPhase(v, r, q)
    case InUrl(u) => (if u.SpacesBeforeUrl? then q.Begun? else q == InLine(Url)) && !v.flags.trailing
    case Hdr(h) => HdrPhase(strict, v, h, q)
    case Chunk(c) => ChunkPhase(v, c, q)
    case Msg(m) => MsgPhase(strict, v, m, q)
  }

  predicate Tracks(strict: bool, v: View) {
    && (strict ==> v.line.ptype.Request?)
    && Agrees(strict, v, Follow(strict, v.trace))
  }

  // What one byte keeps: no callback out of order, and agreement unless there is an error.
  predicate Kept(strict: bool, w: View) {
    && Accepted(strict, w.trace)
    && (w.errno == OK ==> Tracks(strict, w))
  }

  lemma CompleteTracks(strict: bool, v: View)
    requires Inv(v) && v.state == Msg(MessageDone) && (strict ==> v.line.ptype.Request?)
    requires Agrees(strict, v, Follow(strict, v.trace))
    ensures Kept(strict, Complete(v))
  {
    hide Follow, Emit, Inv;
    FollowEmits(strict);
  }

  lemma HeadersDoneTracks(strict: bool, v: View, ch: char)
    requires Inv(v) && v.state == Msg(HeadersDone) && Tracks(strict, v)
    ensures Kept(strict, StepHeadersDone(v, ch))
  {
    hide Follow, Emit;
    FollowEmits(strict);
  }

  lemma AnnounceHeadTracks(strict: bool, v: View)
    requires Inv(v) && v.state == Msg(HeadersAlmostDone) && Tracks(strict, v) && !v.flags.trailing
    ensures Tracks(strict, AnnounceHead(v))
  {
    hide Follow, Emit, Framing, Persistent;
    FollowEmits(strict);
  }

  lemma HeadersAlmostDoneTracks(strict: bool, v: View, ch: char)
    requires Inv(v) && v.state == Msg(HeadersAlmostDone) && Tracks(strict, v)
    ensures Kept(strict, StepHeadersAlmostDone(v, ch))
  {
    hide StepHeadersDone, AnnounceHead, Follow, Emit;
    if v.flags.trailing {
      FollowEmits(strict);
      CompleteTracks(strict, Tell(v.(state := Msg(MessageDone)), ChunkComplete));
    } else {
      AnnounceHeadKeepsInv(v);
      AnnounceHeadTracks(strict, v);
      HeadersDoneTracks(strict, AnnounceHead(v), ch);
    }
  }

  lemma MsgTracks(strict: bool, v: View, m: MsgState, ch: char)
    requires Inv(v) && v.state == Msg(m) && Tracks(strict, v)
    ensures Kept(strict, StepMsg(v, m, ch))
  {
    hide StepHeadersAlmostDone, StepHeadersDone, Follow, Emit, Complete;
    match m {
      case HeadersAlmostDone => HeadersAlmostDoneTracks(strict, v, ch);
      case HeadersDone => HeadersDoneTracks(strict, v, ch);
      case Identity =>
        FollowEmits(strict);
        var w := Tell(v.(contentLength := v.contentLength - 1), Data(Events.Body, [ch]));
        if w.contentLength == 0 {
          CompleteTracks(strict, w.(state := Msg(MessageDone)));
        }
      case IdentityEof => FollowEmits(strict);
      case MessageDone => CompleteTracks(strict, v);
    }
  }

  lemma ChunkTracks(strict: bool, v: View, c: ChunkState, ch: char)
    requires Inv(v) && v.state == Chunk(c) && Tracks(strict, v)
    ensures Kept(strict, StepChunk(v, c, ch))
  {
    hide Follow, Emit, Wrap64, Unhex;
    FollowEmits(strict);
  }

  lemma FieldStartTracks(strict: bool, v: View, ch: char)
    requires Inv(v) && v.state == Hdr(FieldStart) && Tracks(strict, v)
    ensures Kept(strict, StepFieldStart(v, ch))
  {
    hide Follow, Emit, StepHeadersAlmostDone, NameStart, Token;
    if ch == LF {
      HeadersAlmostDoneTracks(strict, v.(state := Msg(HeadersAlmostDone)), ch);
    } else {
      FollowEmits(strict);
    }
  }

  lemma ValueStartTracks(strict: bool, v: View, ch: char)
    requires Inv(v.(state := Hdr(ValueStart))) && Tracks(strict, v.(state := Hdr(ValueStart)))
    ensures Kept(strict, StepValueStart(v, ch))
  {
    hide Follow, Emit, FirstValueState, Lower, IsNum, Digit;
    FollowEmits(strict);
  }

  lemma FlagsKept(f: Flags, h: HeaderState, ch: char)
    ensures Mark(f, h).trailing == FlagsNext(f, h, ch).trailing == f.trailing
  {
  }

  lemma ValueTracks(strict: bool, v: View, ch: char)
    requires Inv(v) && v.state == Hdr(FieldValue) && Tracks(strict, v)
    ensures Kept(strict, StepValue(v, ch))
  {
    hide Follow, Emit, ValueNext, FlagsNext, IndexNext, Wrap64, Digit, Lower, Inv, Mark;
    FollowEmits(strict);
    FlagsKept(v.flags, v.hstate, ch);
  }

  // An empty value is announced too.
  lemma EmptyTracks(strict: bool, v: View, ch: char)
    requires Inv(v) && v.state == Hdr(DiscardLws) && Tracks(strict, v)
    ensures Kept(strict, StepDiscardLws(v, ch))
  {
    hide Follow, Emit, Mark, StepFieldStart;
    FollowEmits(strict);
    FlagsKept(v.flags, v.hstate, ch);
    if !IsBlank(ch) {
      FieldStartTracks(strict, Tell(v.(flags := Mark(v.flags, v.hstate), state := Hdr(FieldStart)),
                                    Data(Events.Value, [])), ch);
    }
  }

  lemma LwsTracks(strict: bool, v: View, ch: char)
    requires Inv(v) && v.state == Hdr(ValueLws) && Tracks(strict, v)
    ensures Kept(strict, StepValueLws(v, ch))
  {
    hide Follow, Mark, StepFieldStart, StepValueStart;
    FlagsKept(v.flags, v.hstate, ch);
    if IsBlank(ch) {
      ValueStartTracks(strict, v.(state := Hdr(ValueStart)), ch);
    } else {
      FieldStartTracks(strict, v.(flags := Mark(v.flags, v.hstate), state := Hdr(FieldStart)), ch);
    }
  }

  lemma HeaderTracks(strict: bool, v: View, h: HdrState, ch: char)
    requires Inv(v) && v.state == Hdr(h) && Tracks(strict, v)
    ensures Kept(strict, StepHeader(v, h, ch))
  {
    hide Follow, Emit, StepFieldStart, StepValueStart, StepDiscardLws, StepValue, StepValueLws, NameNext, Token;
    hide Counts, ValueNext, FlagsNext, IndexNext, Wrap64, Digit, Lower;
    FollowEmits(strict);
    match h {
      case FieldStart => FieldStartTracks(strict, v, ch);
      case FieldName =>
      case DiscardWs =>
        if !IsBlank(ch) && !IsEol(ch) { ValueStartTracks(strict, v, ch); }
      case DiscardWsAlmostDone =>
      case DiscardLws =>
        EmptyTracks(strict, v, ch);
      case ValueStart => ValueStartTracks(strict, v, ch);
      case FieldValue => ValueTracks(strict, v, ch);
      case HeaderAlmostDone =>
      case ValueLws => LwsTracks(strict, v, ch);
    }
  }

  lemma UrlTracks(strict: bool, v: View, u: UrlState, ch: char)
    requires Inv(v) && v.state == InUrl(u) && Tracks(strict, v)
    ensures Kept(strict, StepUrl(v, u, ch))
  {
    hide Follow, Emit, ParseUrlChar, Inv;
    FollowEmits(strict);
    UrlCharMoves(u, ch);
    UrlCharMoves(ServerStart, ch);
  }

  lemma RequestTracks(strict: bool, v: View, q: ReqState, ch: char)
    requires Inv(v) && v.state == Req(q) && Tracks(strict, v)
    ensures Kept(strict, StepRequestLine(v, q, ch))
  {
    hide Follow, Emit, FirstMethod, Retarget, Expected, Digit;
    FollowEmits(strict);
  }

  lemma ResponseTracks(strict: bool, v: View, r: ResState, ch: char)
    requires Inv(v) && v.state == Res(r) && Tracks(strict, v) && !r.StartReqOrRes?
    ensures Kept(strict, StepResponseLine(v, r, ch))
  {
    hide Follow, Emit, StepStartReqOrRes, Digit;
    FollowEmits(strict);
  }

  lemma EitherTracks(strict: bool, v: View, ch: char)
    requires Inv(v) && v.state == Res(StartReqOrRes) && Tracks(strict, v)
    ensures Kept(strict, StepStartReqOrRes(v, ch))
  {
    hide Follow, Emit, FirstMethod;
    FollowEmits(strict);
  }

  lemma StepTracks(strict: bool, v: View, ch: char)
    requires Inv(v) && Tracks(strict, v)
    ensures Kept(strict, Step(v, ch))
  {
    hide StepResponseLine, StepRequestLine, StepUrl, StepHeader, StepChunk, StepMsg, Follow;
    match v.state {
      case Dead =>
      case Res(r) =>
        if r.StartReqOrRes? {
          EitherTracks(strict, v, ch);
          EitherStep(v, ch);
        } else {
          ResponseTracks(strict, v, r, ch);
        }
      case Req(q) => RequestTracks(strict, v, q, ch);
      case InUrl(u) => UrlTracks(strict, v, u, ch);
      case Hdr(h) => HeaderTracks(strict, v, h, ch);
      case Chunk(c) => ChunkTracks(strict, v, c, ch);
      case Msg(m) => MsgTracks(strict, v, m, ch);
    }
  }

  lemma EitherStep(v: View, ch: char)
    ensures StepResponseLine(v, StartReqOrRes, ch) == StepStartReqOrRes(v, ch)
  {
    hide StepStartReqOrRes;
  }

  // The grammar of the callbacks: every prefix of every run is accepted.
  lemma {:induction false} RunTracks(strict: bool, v: View, data: string, i: nat, j: nat)
    requires i <= j <= |data| && Inv(v) && Tracks(strict, v)
    ensures Kept(strict, Run(v, data, i, j))
    decreases j - i
  {
    hide Step, Follow, Inv;
    if i < j && !Halted(v) {
      StepTracks(strict, v, data[i]);
      if Step(v, data[i]).errno == OK {
        StepKeepsInv(v, data[i]);
        RunTracks(strict, Step(v, data[i]), data, i + 1, j);
      }
    }
  }

  // A parser that must not read another message says nothing more.
  lemma {:induction false} DeadIsSilent(v: View, data: string, i: nat, j: nat)
    requires i <= j <= |data| && v.state == Dead
    ensures Run(v, data, i, j).trace == v.trace
    decreases j - i
  {
    if i < j && !Halted(v) {
      DeadIsSilent(Step(v, data[i]), data, i + 1, j);
    }
  }

  // A new parser is in order.
  lemma NewTracks(strict: bool, t: ParserType, skips: set<nat>)
    requires strict ==> t.Request?
    ensures Inv(NewView(t, skips)) && Tracks(strict, NewView(t, skips)) && Accepted(strict, NewView(t, skips).trace)
  {
  }

  // So is the message_complete that the end of the input brings.
  lemma EofTracks(strict: bool, v: View)
    requires v.state == Msg(IdentityEof) && Tracks(strict, v)
    ensures Tracks(strict, Tell(v, MessageComplete)) && Accepted(strict, Tell(v, MessageComplete).trace)
  {
    hide Follow, Emit;
    FollowEmits(strict);
  }

  // The end of the input is accepted exactly when no message is under way by the callbacks, or one whose body
  // ends with the connection. An end of line before a response begins a message, but the parser does not mind;
  // and one that was stopped while it announced a head has not looked at its body.
  lemma EofExactly(strict: bool, v: View)
    requires !Halted(v) && Tracks(strict, v)
    ensures var q := Follow(strict, v.trace);
            && (EndInput(v).errno == OK <==>
                  || q.Over? || (q.Begun? && v.state == Res(StartRes))
                  || (q.After? && q.part.UntilEof? && v.state != Msg(HeadersDone)))
            && (EndInput(v).errno != OK ==> EndInput(v).errno == InvalidEofState)
            && (EndInput(v).trace != v.trace ==> q.After? && q.part.UntilEof?)
  {
    hide Follow, Emit, ShouldKeepAlive;
  }
}
