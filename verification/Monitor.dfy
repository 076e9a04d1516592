// A monitor of the callbacks: the order in which they may come, how many body bytes there are,
// and whether another message may follow. It reads the callbacks only, not the parser.
module Monitor {
  import opened Types
  import opened Events

  // Where a message is after its head. A chunk or a counted body has n bytes to come.
  datatype Part =
    | Counted(n: nat)
    | UntilEof
    | BetweenChunks
    | InChunk(n: nat)
    | Trailer | TrailerField | TrailerValue

  // keep says whether another message may follow, if the head alone decides it (trailers may change it).
  datatype Phase =
    | Over(keep: Option<bool>)
    | Begun
    | InLine(kind: Kind)
    | Name
    | Val
    | After(part: Part, keep: Option<bool>)
    | Broken

  predicate Interim(status: nat) { 100 <= status < 200 }

  const NO_LENGTH: nat := 0xFFFF_FFFF_FFFF_FFFF

  // Section 4.4 of RFC 2616: which of the rules gives the length of the body. A message that hands
  // over to another protocol ends with its head, unless it announces a body.
  function Framing(h: Head): Part {
    if h.line.upgrade && (h.line.verb == CONNECT || h.skipBody || !(h.chunked || HasLength(h))) then Counted(0)
    else if h.skipBody then Counted(0)
    else if h.chunked then BetweenChunks
    else if h.contentLength != NO_LENGTH then Counted(h.contentLength)
    else if EndsWithConnection(h) then UntilEof
    else Counted(0)
  }

  predicate HasLength(h: Head) { h.contentLength != NO_LENGTH && h.contentLength > 0 }

  // Only a response has a body that ends with the connection, and only if its status allows a body
  // and nothing else delimits it.
  predicate EndsWithConnection(h: Head) {
    && !h.line.ptype.Request?
    && !Interim(h.line.status) && h.line.status != 204 && h.line.status != 304
    && !h.skipBody && !h.chunked && h.contentLength == NO_LENGTH
  }

  // HTTP/1.1 stays open unless told to close, earlier versions close unless told to stay open.
  predicate Persistent(h: Head) {
    && (if h.line.major > 0 && h.line.minor > 0 then !h.close else h.keepAlive)
    && !EndsWithConnection(h)
  }

  function Take(part: Part, bytes: nat): Option<Part> {
    match part
    case Counted(n) => if bytes <= n then Some(Counted(n - bytes)) else None
    case InChunk(n) => if bytes <= n then Some(InChunk(n - bytes)) else None
    case UntilEof => Some(UntilEof)
    case _ => None
  }

  // A parser for requests only (strict) never announces a message twice or without a URL.
  function Next(strict: bool, q: Phase, e: Event): Phase {
    match e
    case MessageBegin =>
      if (q.Over? && q.keep != Some(false)) || (q.Begun? && !strict) then Begun else Broken
    case Data(k, bytes) => NextData(strict, q, k, |bytes|)
    case HeadersComplete(h) =>
      if q.InLine? || q.Val? || (q.Begun? && !strict) then After(Framing(h), Some(Persistent(h))) else Broken
    case ChunkHeader(n) =>
      if q.After? && q.part.BetweenChunks? then After(if n == 0 then Trailer else InChunk(n), q.keep) else Broken
    case ChunkComplete =>
      if q.After? && q.part == InChunk(0) then After(BetweenChunks, q.keep)
      else if q.After? && (q.part.Trailer? || q.part.TrailerValue?) then After(Counted(0), q.keep)
      else Broken
    case MessageComplete =>
      if q.After? && q.part == Counted(0) then Over(q.keep)
      else if q.After? && q.part.UntilEof? then q
      else Broken
  }

  function NextData(strict: bool, q: Phase, k: Kind, bytes: nat): Phase {
    match k
    case Url => if q.Begun? || q == InLine(Url) then InLine(Url) else Broken
    case Status => if !strict && (q.Begun? || q == InLine(Status)) then InLine(Status) else Broken
    case Field =>
      if q.InLine? || q.Name? || q.Val? || (q.Begun? && !strict) then Name
      else if q.After? && (q.part.Trailer? || q.part.TrailerField? || q.part.TrailerValue?) then
        After(TrailerField, None)
      else Broken
    case Value =>
      if q.Name? || q.Val? then Val
      else if q.After? && (q.part.TrailerField? || q.part.TrailerValue?) then After(TrailerValue, q.keep)
      else Broken
    case Body =>
      if q.After? && Take(q.part, bytes).Some? then After(Take(q.part, bytes).value, q.keep) else Broken
  }

  function Follow(strict: bool, t: Trace): Phase {
    match t
    case Silence => Over(Some(true))
    case Then(u, e) => Next(strict, Follow(strict, u), e)
  }

  predicate Accepted(strict: bool, t: Trace) { Follow(strict, t) != Broken }

  lemma TwoRuns(strict: bool, q: Phase, k: Kind, a: string, b: string)
    ensures Next(strict, Next(strict, q, Data(k, a)), Data(k, b)) == Next(strict, q, Data(k, a + b))
  {
  }

  // The monitor does not see how a run of data was cut into callbacks.
  lemma FollowEmit(strict: bool, t: Trace, e: Event)
    ensures Follow(strict, Emit(t, e)) == Next(strict, Follow(strict, t), e)
  {
    if e.Data? && EndsIn(t, e.kind) {
      TwoRuns(strict, Follow(strict, t.before), e.kind, t.last.bytes, e.bytes);
    }
  }

  lemma FollowEmits(strict: bool)
    ensures forall t, e {:trigger Emit(t, e)} :: Follow(strict, Emit(t, e)) == Next(strict, Follow(strict, t), e)
  {
    forall t, e ensures Follow(strict, Emit(t, e)) == Next(strict, Follow(strict, t), e) {
      FollowEmit(strict, t, e);
    }
  }
}
