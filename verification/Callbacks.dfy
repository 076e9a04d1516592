// What the application answers to its callbacks, and how a call of the parser honours it.
module Callbacks {
  import opened Types
  import opened Events

  // A callback answers 0, pauses the parser and answers 0, or answers something else.
  datatype Reply = Zero | Pauses | Fails

  // HPE_CB_ and the name of the callback
  function CallbackError(e: Event): (r: Errno)
    ensures ByCallback(r)
  {
    match e
    case MessageBegin => CbMessageBegin
    case Data(k, _) =>
      (match k
       case Url => CbUrl
       case Status => CbStatus
       case Field => CbHeaderField
       case Value => CbHeaderValue
       case Body => CbBody)
    case HeadersComplete(_) => CbHeadersComplete
    case ChunkHeader(_) => CbChunkHeader
    case ChunkComplete => CbChunkComplete
    case MessageComplete => CbMessageComplete
  }

  // The name of a callback, without on_, and that of an error, without HPE_.
  function CallbackName(e: Event): string {
    match e
    case MessageBegin => "message_begin"
    case Data(k, _) =>
      (match k
       case Url => "url"
       case Status => "status"
       case Field => "header_field"
       case Value => "header_value"
       case Body => "body")
    case HeadersComplete(_) => "headers_complete"
    case ChunkHeader(_) => "chunk_header"
    case ChunkComplete => "chunk_complete"
    case MessageComplete => "message_complete"
  }

  function ErrnoName(e: Errno): string {
    match e
    case OK => "OK"
    case CbMessageBegin => "CB_" + "message_begin"
    case CbUrl => "CB_" + "url"
    case CbHeaderField => "CB_" + "header_field"
    case CbHeaderValue => "CB_" + "header_value"
    case CbHeadersComplete => "CB_" + "headers_complete"
    case CbBody => "CB_" + "body"
    case CbMessageComplete => "CB_" + "message_complete"
    case CbStatus => "CB_" + "status"
    case CbChunkHeader => "CB_" + "chunk_header"
    case CbChunkComplete => "CB_" + "chunk_complete"
    case InvalidEofState => "INVALID_EOF_STATE"
    case HeaderOverflow => "HEADER_OVERFLOW"
    case ClosedConnection => "CLOSED_CONNECTION"
    case InvalidVersion => "INVALID_VERSION"
    case InvalidStatus => "INVALID_STATUS"
    case InvalidMethod => "INVALID_METHOD"
    case InvalidUrl => "INVALID_URL"
    case LfExpected => "LF_EXPECTED"
    case InvalidHeaderToken => "INVALID_HEADER_TOKEN"
    case InvalidContentLength => "INVALID_CONTENT_LENGTH"
    case InvalidChunkSize => "INVALID_CHUNK_SIZE"
    case InvalidConstant => "INVALID_CONSTANT"
    case Strict => "STRICT"
    case Paused => "PAUSED"
  }

  // The error a callback that refuses to go on leaves.
  function Refusal(r: Reply, e: Event): Errno { if r.Pauses? then Paused else CallbackError(e) }

  // The error of a callback that fails carries the name of that callback; one that pauses leaves none of these.
  lemma ErrorNamed(e: Event)
    ensures ErrnoName(Refusal(Fails, e)) == "CB_" + CallbackName(e) && ErrnoName(Refusal(Pauses, e)) == "PAUSED"
  {
  }

  // The callbacks numbered i to j - 1 answer 0.
  ghost predicate Zeros(replies: nat -> Reply, i: nat, j: nat) {
    forall k: nat :: i <= k < j ==> replies(k) == Zero
  }

  // The trace after the callbacks es, none of which are joined yet.
  function EmitAll(t: Trace, es: seq<Event>): Trace
    decreases |es|
  {
    if |es| == 0 then t else Emit(EmitAll(t, es[..|es| - 1]), es[|es| - 1])
  }

  lemma {:induction false} EmitConcat(t: Trace, a: seq<Event>, b: seq<Event>)
    ensures EmitAll(t, a + b) == EmitAll(EmitAll(t, a), b)
    decreases |b|
  {
    if |b| == 0 {
      assert a + b == a;
    } else {
      assert (a + b)[..|a + b| - 1] == a + b[..|b| - 1];
      EmitConcat(t, a, b[..|b| - 1]);
    }
  }

  // From the callbacks was with trace t0 the parser has come to those in now, with trace t1 and error e:
  // every callback made since has answered 0, but for the last one if it is what has stopped the parser.
  ghost predicate Answered(replies: nat -> Reply, was: seq<Event>, t0: Trace, now: seq<Event>, t1: Trace, e: Errno) {
    && |was| <= |now| && now[..|was|] == was && t1 == EmitAll(t0, now[|was|..])
    && if ByCallback(e) then
         && |was| < |now| && Zeros(replies, |was|, |now| - 1)
         && replies(|now| - 1) != Zero && e == Refusal(replies(|now| - 1), now[|now| - 1])
       else Zeros(replies, |was|, |now|)
  }

  lemma NothingAnswered(replies: nat -> Reply, was: seq<Event>, t: Trace)
    ensures forall e :: !ByCallback(e) ==> Answered(replies, was, t, was, t, e)
  {
    assert was[|was|..] == [];
  }

  lemma OneAnswered(replies: nat -> Reply, was: seq<Event>, t: Trace, ev: Event, e: Errno)
    requires e == if replies(|was|) == Zero then OK else Refusal(replies(|was|), ev)
    ensures Answered(replies, was, t, was + [ev], Emit(t, ev), e)
  {
    assert (was + [ev])[|was|..] == [ev] && [ev][..0] == [];
    assert EmitAll(t, [ev]) == Emit(EmitAll(t, []), ev);
  }

  // An error the parser finds by itself is no answer.
  lemma AnsweredStill(replies: nat -> Reply, was: seq<Event>, t0: Trace, now: seq<Event>, t1: Trace, e: Errno)
    requires Answered(replies, was, t0, now, t1, OK) && !ByCallback(e)
    ensures Answered(replies, was, t0, now, t1, e)
  {
  }

  lemma AnsweredOn(replies: nat -> Reply, was: seq<Event>, t0: Trace, mid: seq<Event>, t1: Trace,
                   now: seq<Event>, t2: Trace, e: Errno)
    requires Answered(replies, was, t0, mid, t1, OK) && Answered(replies, mid, t1, now, t2, e)
    ensures Answered(replies, was, t0, now, t2, e)
  {
    hide EmitAll, Zeros, Refusal;
    EmitConcat(t0, mid[|was|..], now[|mid|..]);
    Joined(was, mid, now);
    ZerosJoin(replies, |was|, |mid|, |now|);
  }

  lemma Joined(was: seq<Event>, mid: seq<Event>, now: seq<Event>)
    requires |was| <= |mid| <= |now| && now[..|mid|] == mid && mid[..|was|] == was
    ensures now[|was|..] == mid[|was|..] + now[|mid|..] && now[..|was|] == was
  {
    assert now == mid + now[|mid|..];
  }

  lemma ZerosJoin(replies: nat -> Reply, i: nat, j: nat, k: nat)
    requires i <= j <= k && Zeros(replies, i, j)
    ensures Zeros(replies, j, k) ==> Zeros(replies, i, k)
    ensures j < k && Zeros(replies, j, k - 1) ==> Zeros(replies, i, k - 1)
  {
  }

  // Callbacks that answer 0 stop nothing.
  lemma ZerosGoOn(replies: nat -> Reply, was: seq<Event>, t0: Trace, now: seq<Event>, t1: Trace, e: Errno)
    requires Answered(replies, was, t0, now, t1, e) && Zeros(replies, |was|, |now|)
    ensures !ByCallback(e)
  {
  }

  // How many of the callbacks numbered i to j - 1 answer something else than 0.
  function Refusals(replies: nat -> Reply, i: nat, j: nat): nat
    requires i <= j
  {
    if i == j then 0 else Refusals(replies, i, j - 1) + if replies(j - 1) == Zero then 0 else 1
  }

  lemma {:induction false} RefusalsSplit(replies: nat -> Reply, i: nat, j: nat, k: nat)
    requires i <= j <= k
    ensures Refusals(replies, i, k) == Refusals(replies, i, j) + Refusals(replies, j, k)
    decreases k - j
  {
    if j < k {
      RefusalsSplit(replies, i, j, k - 1);
    }
  }

  lemma {:induction false} NoRefusals(replies: nat -> Reply, i: nat, j: nat)
    requires i <= j
    ensures Zeros(replies, i, j) <==> Refusals(replies, i, j) == 0
    decreases j - i
  {
    if i < j {
      NoRefusals(replies, i, j - 1);
    }
  }

  // A parser is stopped by exactly one refusal.
  lemma OneRefusal(replies: nat -> Reply, was: seq<Event>, t0: Trace, now: seq<Event>, t1: Trace, e: Errno)
    requires Answered(replies, was, t0, now, t1, e)
    ensures |was| <= |now| && Refusals(replies, |was|, |now|) == if ByCallback(e) then 1 else 0
  {
    if ByCallback(e) {
      NoRefusals(replies, |was|, |now| - 1);
    } else {
      NoRefusals(replies, |was|, |now|);
    }
  }
}
