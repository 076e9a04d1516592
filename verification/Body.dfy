// From the end of the headers to the end of the message, one byte at a time.
module Body {
  import opened Chars
  import opened Types
  import opened Events
  import opened Views

  // http_message_needs_eof
  predicate NeedsEof(v: View) {
    && !v.line.ptype.Request?
    && !(100 <= v.line.status < 200 || v.line.status == 204 || v.line.status == 304 || v.flags.skipBody)
    && !(v.flags.chunked || v.contentLength != ULLONG_MAX)
  }

  // http_should_keep_alive
  predicate ShouldKeepAlive(v: View) {
    && (if v.line.major > 0 && v.line.minor > 0 then !v.flags.close else v.flags.keepAlive)
    && !NeedsEof(v)
  }

  function StartState(v: View): ParseState { if v.line.ptype.Request? then Req(StartReq) else Res(StartRes) }

  // NEW_MESSAGE
  function NewMessage(v: View): ParseState { if ShouldKeepAlive(v) then StartState(v) else Dead }

  function HeadOf(v: View): Head {
    Head(v.line, v.flags.chunked, v.contentLength, v.flags.close, v.flags.keepAlive, v.flags.skipBody)
  }

  // The call returns after this byte.
  function Leave(v: View, leave: bool): View { v.(app := v.app.(left := leave)) }

  function Complete(v: View): View { Tell(v.(state := NewMessage(v)), MessageComplete) }

  // The line feed that ends the header section.
  function StepHeadersAlmostDone(v: View, ch: char): View {
    if ch != LF then Fail(v, Strict)
    else if v.flags.trailing then
      StepMessageDone(Tell(v.(state := Msg(MessageDone)), ChunkComplete))
    else StepHeadersDone(AnnounceHead(v), ch)
  }

  // upgrade is set first, so that on_headers_complete sees it.
  function AnnounceHead(v: View): View {
    var w := v.(state := Msg(HeadersDone),
                line := v.line.(upgrade := (v.flags.upgrade && v.flags.connUpgrade) || v.line.verb == CONNECT),
                app := v.app.(heads := v.app.heads + 1));
    var x := if v.app.heads in v.app.skips then w.(flags := w.flags.(skipBody := true)) else w;
    Tell(x, HeadersComplete(HeadOf(x)))
  }

  predicate HasBody(v: View) {
    v.flags.chunked || (v.contentLength > 0 && v.contentLength != ULLONG_MAX)
  }

  function StepHeadersDone(v: View, ch: char): View {
    if ch != LF then Fail(v, Strict)
    else if v.line.upgrade && (v.line.verb == CONNECT || v.flags.skipBody || !HasBody(v)) then
      Leave(Complete(v), true)
    else if v.flags.skipBody then Complete(v)
    else if v.flags.chunked then v.(state := Chunk(SizeStart))
    else if v.contentLength == 0 then Complete(v)
    else if v.contentLength != ULLONG_MAX then v.(state := Msg(Identity))
    else if !NeedsEof(v) then Complete(v)
    else v.(state := Msg(IdentityEof))
  }

  function StepMessageDone(v: View): View { Leave(Complete(v), v.line.upgrade) }

  function StepIdentity(v: View, ch: char): View {
    var w := Tell(v.(contentLength := if v.contentLength > 0 then v.contentLength - 1 else 0), Data(Events.Body, [ch]));
    if w.contentLength == 0 then StepMessageDone(w.(state := Msg(MessageDone))) else w
  }

  function StepChunkSizeStart(v: View, ch: char): View {
    if Unhex(ch) == -1 then Fail(v, InvalidChunkSize)
    else v.(contentLength := Unhex(ch), state := Chunk(Size))
  }

  function StepChunkSize(v: View, ch: char): View {
    if ch == CR then v.(state := Chunk(SizeAlmostDone))
    else if Unhex(ch) == -1 then
      if ch == ';' || ch == ' ' then v.(state := Chunk(Parameters)) else Fail(v, InvalidChunkSize)
    else if CHUNK_GUARD < v.contentLength then Fail(v, InvalidContentLength)
    else v.(contentLength := Wrap64(v.contentLength * 16 + Unhex(ch)))
  }

  function StepChunkSizeAlmostDone(v: View, ch: char): View {
    if ch != LF then Fail(v, Strict)
    else if v.contentLength == 0 then
      Tell(v.(flags := v.flags.(trailing := true), state := Hdr(FieldStart)), ChunkHeader(0))
    else Tell(v.(state := Chunk(ChunkData)), ChunkHeader(v.contentLength))
  }

  function StepChunkData(v: View, ch: char): View {
    var w := Tell(v.(contentLength := if v.contentLength > 0 then v.contentLength - 1 else 0), Data(Events.Body, [ch]));
    if w.contentLength == 0 then w.(state := Chunk(DataAlmostDone)) else w
  }

  function StepChunk(v: View, c: ChunkState, ch: char): View {
    match c
    case SizeStart => StepChunkSizeStart(v, ch)
    case Size => StepChunkSize(v, ch)
    case Parameters => if ch == CR then v.(state := Chunk(SizeAlmostDone)) else v
    case SizeAlmostDone => StepChunkSizeAlmostDone(v, ch)
    case ChunkData => StepChunkData(v, ch)
    case DataAlmostDone => if ch == CR then v.(state := Chunk(DataDone)) else Fail(v, Strict)
    case DataDone =>
      if ch == LF then Tell(v.(state := Chunk(SizeStart)), ChunkComplete) else Fail(v, Strict)
  }

  function StepMsg(v: View, m: MsgState, ch: char): View {
    match m
    case HeadersAlmostDone => StepHeadersAlmostDone(v, ch)
    case HeadersDone => StepHeadersDone(v, ch)
    case Identity => StepIdentity(v, ch)
    case IdentityEof => Tell(v, Data(Events.Body, [ch]))
    case MessageDone => StepMessageDone(v)
  }
}
