// The header section, one byte at a time: names, values, folding, and the
// recognisers of the four names and the value keywords that frame the message.
module Headers {
  import opened Chars
  import opened Types
  import opened Events
  import opened Views
  import Body

  // Advances a keyword matcher. It stays in here, moves to found on the last byte of the
  // keyword, and to other on a mismatch. The index is advanced in every case.
  function Advance(word: string, index: nat, c: char, here: HeaderState, found: HeaderState,
                   other: HeaderState): HeaderState
  {
    if index + 1 >= |word| || c != word[index + 1] then other
    else if index + 1 == |word| - 1 then found
    else here
  }

  predicate Counts(h: HeaderState) {
    h.C? || h.CO? || h.CON? || h.MatchingConnection? || h.MatchingProxyConnection? || h.MatchingContentLength? ||
    h.MatchingTransferEncoding? || h.MatchingUpgrade?
  }

  // The name recogniser after a first byte; c is the lowercased token byte.
  function NameStart(c: char): HeaderState {
    match c
    case 'c' => C
    case 'p' => MatchingProxyConnection
    case 't' => MatchingTransferEncoding
    case 'u' => MatchingUpgrade
    case _ => General
  }

  // A name byte that is no space makes a completed name an ordinary one, and in strict
  // mode a space is no name byte.
  function NameNext(h: HeaderState, index: nat, c: char): HeaderState {
    match h
    case C => if c == 'o' then CO else General
    case CO => if c == 'n' then CON else General
    case CON => if c == 'n' then MatchingConnection else if c == 't' then MatchingContentLength else General
    case MatchingConnection => Advance(CONNECTION_NAME, index, c, h, Connection, General)
    case MatchingProxyConnection => Advance(PROXY_CONNECTION_NAME, index, c, h, Connection, General)
    case MatchingContentLength => Advance(CONTENT_LENGTH_NAME, index, c, h, ContentLength, General)
    case MatchingTransferEncoding => Advance(TRANSFER_ENCODING_NAME, index, c, h, TransferEncoding, General)
    case MatchingUpgrade => Advance(UPGRADE_NAME, index, c, h, Upgrade, General)
    case _ => if c == ' ' then h else General
  }

  function StepFieldStart(v: View, ch: char): View {
    if ch == CR then v.(state := Msg(HeadersAlmostDone))
    else if ch == LF then Body.StepHeadersAlmostDone(v.(state := Msg(HeadersAlmostDone)), ch)
    else if !IsToken(ch) then Fail(v, InvalidHeaderToken)
    else Tell(v.(state := Hdr(FieldName), index := 0, hstate := NameStart(Token(ch))), Data(Field, [ch]))
  }

  function StepFieldName(v: View, ch: char): View {
    if IsToken(ch) then
      Tell(v.(hstate := NameNext(v.hstate, v.index, Token(ch)),
              index := if Counts(v.hstate) then v.index + 1 else v.index),
           Data(Field, [ch]))
    else if ch == ':' then v.(state := Hdr(DiscardWs))
    else Fail(v, InvalidHeaderToken)
  }

  // The value recogniser after a first byte; c is ch | 0x20.
  function FirstValueState(h: HeaderState, c: char): HeaderState {
    match h
    case TransferEncoding => if c == 'c' then MatchingChunked else General
    case ContentLength => h
    case Connection =>
      if c == 'k' then MatchingKeepAlive
      else if c == 'c' then MatchingClose
      else if c == 'u' then MatchingConnUpgrade
      else MatchingToken
    case MatchingTokenStart => h
    case _ => General
  }

  // s_header_value_start: the first byte of a value, or of a folded line of one.
  function StepValueStart(v: View, ch: char): View {
    if v.hstate.ContentLength? && !IsNum(ch) then Fail(v.(state := Hdr(FieldValue), index := 0), InvalidContentLength)
    else
      Tell(v.(state := Hdr(FieldValue), index := 0, hstate := FirstValueState(v.hstate, Lower(ch)),
              flags := if v.hstate.Upgrade? then v.flags.(upgrade := true) else v.flags,
              contentLength := if v.hstate.ContentLength? then Digit(ch) else v.contentLength),
           Data(Events.Value, [ch]))
  }

  // At the start of a list element: c is ch | 0x20, so a NUL is skipped like a space.
  function TokenStart(c: char): HeaderState {
    if c == 'k' then MatchingKeepAlive
    else if c == 'c' then MatchingClose
    else if c == 'u' then MatchingConnUpgrade
    else if IsToken(c) then MatchingToken
    else if c == ' ' || c == '\t' then MatchingTokenStart
    else General
  }

  predicate IsMatcher(h: HeaderState) {
    h.MatchingChunked? || h.MatchingKeepAlive? || h.MatchingClose? || h.MatchingConnUpgrade?
  }

  predicate IsKeyword(h: HeaderState) { h.KeepAlive? || h.Close? || h.ConnUpgrade? }

  // The flag a recognised keyword stands for.
  function Mark(f: Flags, h: HeaderState): Flags {
    match h
    case KeepAlive => f.(keepAlive := true)
    case Close => f.(close := true)
    case ConnUpgrade => f.(connUpgrade := true)
    case Chunked => f.(chunked := true)
    case _ => f
  }

  // The value recogniser after one more byte (Content-Length apart).
  function ValueNext(h: HeaderState, index: nat, ch: char): HeaderState {
    var c := Lower(ch);
    match h
    case MatchingChunked => Advance(CHUNKED_NAME, index, c, h, Chunked, General)
    case MatchingTokenStart => TokenStart(c)
    case MatchingKeepAlive => Advance(KEEP_ALIVE_NAME, index, c, h, KeepAlive, MatchingToken)
    case MatchingClose => Advance(CLOSE_NAME, index, c, h, Close, MatchingToken)
    case MatchingConnUpgrade => Advance(UPGRADE_NAME, index, c, h, ConnUpgrade, MatchingToken)
    case MatchingToken => if ch == ',' then MatchingTokenStart else h
    case Chunked => if ch == ' ' then h else General
    case KeepAlive => AfterKeyword(h, ch)
    case Close => AfterKeyword(h, ch)
    case ConnUpgrade => AfterKeyword(h, ch)
    case _ => General
  }

  function AfterKeyword(h: HeaderState, ch: char): HeaderState {
    if ch == ',' then MatchingTokenStart else if ch == ' ' then h else MatchingToken
  }

  function IndexNext(h: HeaderState, index: nat, ch: char): nat {
    if IsMatcher(h) then index + 1
    else if ch == ',' && (h.MatchingToken? || IsKeyword(h)) then 0
    else index
  }

  // A comma ends a list element; a keyword that is the whole element sets its flag.
  function FlagsNext(f: Flags, h: HeaderState, ch: char): Flags {
    if ch == ',' && IsKeyword(h) then Mark(f, h) else f
  }

  function StepLengthByte(v: View, ch: char): View {
    if ch == ' ' then Tell(v, Data(Events.Value, [ch]))
    else if !IsNum(ch) then Fail(v, InvalidContentLength)
    else if LENGTH_GUARD < v.contentLength then Fail(v, InvalidContentLength)
    else Tell(v.(contentLength := Wrap64(v.contentLength * 10 + Digit(ch))), Data(Events.Value, [ch]))
  }

  function StepValue(v: View, ch: char): View {
    if ch == CR then v.(state := Hdr(HeaderAlmostDone))
    else if ch == LF then StepHeaderAlmostDone(v.(state := Hdr(HeaderAlmostDone)), ch)
    else if v.hstate.ContentLength? then StepLengthByte(v, ch)
    else
      Tell(v.(hstate := ValueNext(v.hstate, v.index, ch), index := IndexNext(v.hstate, v.index, ch),
              flags := FlagsNext(v.flags, v.hstate, ch)),
           Data(Events.Value, [ch]))
  }

  function StepHeaderAlmostDone(v: View, ch: char): View {
    if ch == LF then v.(state := Hdr(ValueLws)) else Fail(v, Strict)
  }

  // The byte after a header line: a blank folds the next line into the value.
  function StepValueLws(v: View, ch: char): View {
    if IsBlank(ch) then StepValueStart(v.(state := Hdr(ValueStart)), ch)
    else StepFieldStart(v.(flags := Mark(v.flags, v.hstate), state := Hdr(FieldStart)), ch)
  }

  function StepDiscardWs(v: View, ch: char): View {
    if IsBlank(ch) then v
    else if ch == CR then v.(state := Hdr(DiscardWsAlmostDone))
    else if ch == LF then v.(state := Hdr(DiscardLws))
    else StepValueStart(v, ch)
  }

  // The header value was empty: it is announced with no bytes.
  function StepDiscardLws(v: View, ch: char): View {
    if IsBlank(ch) then v.(state := Hdr(DiscardWs))
    else
      var w := v.(flags := Mark(v.flags, v.hstate), state := Hdr(FieldStart));
      StepFieldStart(Tell(w, Data(Events.Value, [])), ch)
  }

  function StepHeader(v: View, h: HdrState, ch: char): View {
    match h
    case FieldStart => StepFieldStart(v, ch)
    case FieldName => StepFieldName(v, ch)
    case DiscardWs => StepDiscardWs(v, ch)
    case DiscardWsAlmostDone => if ch == LF then v.(state := Hdr(DiscardLws)) else Fail(v, Strict)
    case DiscardLws => StepDiscardLws(v, ch)
    case ValueStart => StepValueStart(v, ch)
    case FieldValue => StepValue(v, ch)
    case ValueLws => StepValueLws(v, ch)
    case HeaderAlmostDone => StepHeaderAlmostDone(v, ch)
  }
}
