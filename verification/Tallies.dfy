// Which bytes the header budget counts, and when the count starts again, told by the callbacks.
module Tallies {
  import opened Chars
  import opened Types
  import opened Events
  import opened Views
  import opened Headers
  import opened Body
  import opened StartLine
  import opened Machine
  import opened Budget
  import opened Chunks

  // How often a head, a chunk size or the end of a chunk has been announced.
  function Parts(t: Trace): nat {
    match t
    case Silence => 0
    case Then(u, e) => Parts(u) + if e.HeadersComplete? || e.ChunkHeader? || e.ChunkComplete? then 1 else 0
  }

  lemma EmitParts(t: Trace, e: Event)
    ensures Parts(Emit(t, e)) == Parts(t) + if e.HeadersComplete? || e.ChunkHeader? || e.ChunkComplete? then 1 else 0
  {
  }

  lemma EmitsParts()
    ensures forall t, e {:trigger Emit(t, e)} ::
              Parts(Emit(t, e)) == Parts(t) + if e.HeadersComplete? || e.ChunkHeader? || e.ChunkComplete? then 1 else 0
  {
    forall t, e
      ensures Parts(Emit(t, e)) == Parts(t) + if e.HeadersComplete? || e.ChunkHeader? || e.ChunkComplete? then 1 else 0
    {
      EmitParts(t, e);
    }
  }

  lemma LineParts(v: View, ch: char)
    requires !Halted(v) && (v.state.Dead? || v.state.Res? || v.state.Req? || v.state.InUrl?)
    ensures Parts(Step(v, ch).trace) == Parts(v.trace) && !Resets(v, ch)
  {
    hide Parts, Emit, ParseUrlChar, FirstMethod, Retarget, Expected, Digit;
    EmitsParts();
  }

  lemma DoneParts(v: View, ch: char)
    requires v.errno == OK
    ensures !v.flags.trailing && ch == LF ==> Parts(StepHeadersAlmostDone(v, ch).trace) == Parts(v.trace) + 1
    ensures Parts(StepHeadersDone(v, ch).trace) == Parts(v.trace)
  {
    hide Parts, Emit, HeadOf, ShouldKeepAlive, NeedsEof;
    EmitsParts();
  }

  lemma HeaderParts(v: View, h: HdrState, ch: char)
    requires !Halted(v) && v.state == Hdr(h) && !v.flags.trailing && StepHeader(v, h, ch).errno == OK
    ensures Parts(StepHeader(v, h, ch).trace) == Parts(v.trace) + if Resets(v, ch) then 1 else 0
  {
    hide Parts, Emit, NameNext, ValueNext, IndexNext, FlagsNext, IsToken, FirstValueState, Digit, StepFieldStart, Mark;
    EmitsParts();
    forall w: View | w.errno == OK && !w.flags.trailing
      ensures Parts(StepFieldStart(w, ch).trace) == Parts(w.trace) + if ch == LF then 1 else 0
    {
      LineStartParts(w, ch);
    }
    MarkTrails(v.flags, v.hstate);
  }

  lemma MarkTrails(f: Flags, h: HeaderState)
    ensures Mark(f, h).trailing == f.trailing
  {
  }

  lemma LineStartParts(v: View, ch: char)
    requires v.errno == OK && !v.flags.trailing
    ensures Parts(StepFieldStart(v, ch).trace) == Parts(v.trace) + if ch == LF then 1 else 0
  {
    hide Parts, Emit, NameStart, Token, StepHeadersAlmostDone;
    EmitsParts();
    DoneParts(v.(state := Msg(HeadersAlmostDone)), ch);
  }

  lemma BodyParts(v: View, ch: char)
    requires !Halted(v) && (v.state.Chunk? || v.state.Msg?) && !v.flags.trailing && v.state != Msg(HeadersDone)
    requires Step(v, ch).errno == OK
    ensures Parts(Step(v, ch).trace) == Parts(v.trace) + if Resets(v, ch) then 1 else 0
  {
    hide Parts, Emit, StepHeadersAlmostDone, StepHeadersDone, ShouldKeepAlive, Unhex;
    EmitsParts();
    DoneParts(v, ch);
    if v.state == Msg(HeadersAlmostDone) {
      OnlyLineFeed(v, ch);
    }
  }

  lemma OnlyLineFeed(v: View, ch: char)
    requires StepHeadersAlmostDone(v, ch).errno == OK
    ensures v.errno == OK ==> ch == LF
  {
    hide StepHeadersDone, StepMessageDone;
  }

  // nread is zero again exactly after the bytes at which a head, a chunk size or the end of a chunk's data is
  // announced, and never in trailers.
  lemma ResetsExactly(v: View, ch: char)
    requires !Halted(v) && Step(v, ch).errno == OK
    ensures !v.flags.trailing && v.state != Msg(HeadersDone) ==>
              Parts(Step(v, ch).trace) == Parts(v.trace) + if Resets(v, ch) then 1 else 0
    ensures v.flags.trailing && (v.state.Hdr? || v.state == Msg(HeadersAlmostDone)) ==> !Resets(v, ch)
  {
    hide StepHeader, StepChunk, StepMsg, StepResponseLine, StepRequestLine, StepUrl, Parts;
    if !v.flags.trailing && v.state != Msg(HeadersDone) {
      match v.state {
        case Hdr(h) => HeaderParts(v, h, ch);
        case Chunk(_) => BodyParts(v, ch);
        case Msg(_) => BodyParts(v, ch);
        case _ => LineParts(v, ch);
      }
    }
  }

  lemma EmitsPayload()
    ensures forall t, e {:trigger Emit(t, e)} ::
              |Payload(Emit(t, e))| == |Payload(t)| + if e.Data? && e.kind == Events.Body then |e.bytes| else 0
  {
  }

  lemma LinePayload(v: View, ch: char)
    requires !Halted(v) && (v.state.Dead? || v.state.Res? || v.state.Req? || v.state.InUrl?)
    ensures |Payload(Step(v, ch).trace)| == |Payload(v.trace)|
  {
    hide Payload, Emit, ParseUrlChar, FirstMethod, Retarget, Expected, Digit;
    EmitsPayload();
  }

  lemma DonePayload(v: View, ch: char)
    ensures |Payload(StepHeadersAlmostDone(v, ch).trace)| == |Payload(v.trace)|
    ensures |Payload(StepHeadersDone(v, ch).trace)| == |Payload(v.trace)|
  {
    hide Payload, Emit, HeadOf, ShouldKeepAlive, NeedsEof;
    EmitsPayload();
  }

  lemma HeaderPayload(v: View, h: HdrState, ch: char)
    requires !Halted(v) && v.state == Hdr(h)
    ensures |Payload(StepHeader(v, h, ch).trace)| == |Payload(v.trace)|
  {
    hide Payload, Emit, NameNext, ValueNext, IndexNext, FlagsNext, NameStart, Token, FirstValueState, Digit;
    hide StepHeadersAlmostDone;
    EmitsPayload();
    forall w: View
      ensures |Payload(StepHeadersAlmostDone(w, ch).trace)| == |Payload(w.trace)|
    {
      DonePayload(w, ch);
    }
  }

  // The line end after the data of a chunk
  predicate AfterData(s: ParseState) { s == Chunk(DataAlmostDone) || s == Chunk(DataDone) }

  lemma BodyPayload(v: View, ch: char)
    requires !Halted(v) && (v.state.Chunk? || v.state.Msg?)
    ensures |Payload(Step(v, ch).trace)| ==
            |Payload(v.trace)| +
            if ParsingHeader(v.state) || AfterData(v.state) || v.state == Msg(MessageDone) then 0 else 1
  {
    hide Payload, Emit, StepHeadersAlmostDone, StepHeadersDone, ShouldKeepAlive, Unhex;
    EmitsPayload();
    DonePayload(v, ch);
  }

  // A byte is counted exactly if it is not delivered as body data and is not the line end after it.
  lemma CountedExactly(v: View, ch: char, count: nat)
    requires !Halted(v) && v.state != Msg(MessageDone)
    ensures WithByte(v, count) == count + 1 <==>
            |Payload(Step(v, ch).trace)| == |Payload(v.trace)| && !AfterData(v.state)
    ensures WithByte(v, count) == count || WithByte(v, count) == count + 1
  {
    hide StepHeader, StepChunk, StepMsg, StepResponseLine, StepRequestLine, StepUrl, Payload;
    match v.state {
      case Hdr(h) => HeaderPayload(v, h, ch);
      case Chunk(_) => BodyPayload(v, ch);
      case Msg(_) => BodyPayload(v, ch);
      case _ => LinePayload(v, ch);
    }
  }
}
