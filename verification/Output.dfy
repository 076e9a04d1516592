// The output path of an HTTP/2 connection as a machine of events: the session's chunks are packed
// into one buffer with a chunk held over, and the buffer is written asynchronously.
module Output {

  // The size of the write buffer.
  const N: nat := 65536

  // One answer of the HTTP/2 library when it is asked for output: an error, or the next chunk, which
  // is empty if there is no more for now.
  datatype Reply = Failed | Sent(chunk: string)

  // Every chunk fits the buffer.
  predicate Fit(replies: seq<Reply>) {
    forall k :: 0 <= k < |replies| ==> replies[k].Sent? ==> |replies[k].chunk| <= N
  }

  function Flat(chunks: seq<string>): string
    decreases |chunks|
  {
    if |chunks| == 0 then [] else Flat(chunks[..|chunks| - 1]) + chunks[|chunks| - 1]
  }

  // The outcome of packing: what is in the buffer, the chunk held over (empty if there is none), the
  // chunks drained, and whether the library had no more output.
  datatype Packed = Packed(ok: bool, out: string, held: string, drained: seq<string>, quiet: bool)

  // Chunks are appended to out until there are no more, or the next one does not fit.
  function Pack(replies: seq<Reply>, out: string, drained: seq<string>): Packed
    decreases |replies|
  {
    if |replies| == 0 || replies[0] == Sent([]) then Packed(true, out, [], drained, true)
    else match replies[0]
      case Failed => Packed(false, out, [], drained, false)
      case Sent(b) =>
        if |out| + |b| > N then Packed(true, out, b, drained + [b], false)
        else Pack(replies[1..], out + b, drained + [b])
  }

  // Packing fills the buffer at most, and stops for a reason.
  lemma {:induction false} PackFits(replies: seq<Reply>, out: string, drained: seq<string>)
    requires Fit(replies) && |out| <= N
    ensures var r := Pack(replies, out, drained);
            && |out| <= |r.out| <= N && |r.held| <= N
            && (r.held == [] <==> r.quiet || !r.ok) && (r.quiet ==> r.ok)
            && (r.ok && r.out == [] ==> r.quiet) && (r.held != [] ==> |r.out| + |r.held| > N)
    decreases |replies|
  {
    if |replies| > 0 && replies[0].Sent? && replies[0].chunk != [] && |out| + |replies[0].chunk| <= N {
      PackFits(replies[1..], out + replies[0].chunk, drained + [replies[0].chunk]);
    }
  }

  // Packing keeps the order of the chunks and loses none of them.
  lemma {:induction false} PackKeeps(replies: seq<Reply>, out: string, drained: seq<string>, before: string)
    requires before + out == Flat(drained)
    ensures var r := Pack(replies, out, drained); before + r.out + r.held == Flat(r.drained)
    decreases |replies|
  {
    if |replies| > 0 && replies[0].Sent? && replies[0].chunk != [] {
      var b := replies[0].chunk;
      FlatSnoc(drained, b);
      assert before + out + b == before + (out + b);
      if |out| + |b| <= N {
        PackKeeps(replies[1..], out + b, drained + [b], before);
      }
    } else {
      assert before + out + [] == before + out;
    }
  }

  lemma FlatSnoc(chunks: seq<string>, s: string)
    ensures Flat(chunks + [s]) == Flat(chunks) + s
  {
    assert (chunks + [s])[..|chunks|] == chunks;
  }

  // The chunks drained since then are the answers from the first on, each of them once, in order.
  predicate Draws(was: seq<string>, now: seq<string>, replies: seq<Reply>) {
    && |was| <= |now| <= |was| + |replies| && now[..|was|] == was
    && forall i :: 0 <= i < |now| - |was| ==> replies[i] == Sent(now[|was| + i]) && replies[i].chunk != []
  }

  // The library is asked until it fails or has no more, or the buffer is full.
  lemma {:induction false} PackDraws(replies: seq<Reply>, out: string, drained: seq<string>)
    ensures var r := Pack(replies, out, drained);
            var n := |r.drained| - |drained|;
            && Draws(drained, r.drained, replies)
            && (!r.ok ==> n < |replies| && replies[n] == Failed)
            && (r.quiet ==> n == |replies| || replies[n] == Sent([]))
            && (r.held != [] ==> n > 0 && r.held == r.drained[|r.drained| - 1])
            && (r.ok && !r.quiet ==> r.held != [])
    decreases |replies|
  {
    if |replies| > 0 && replies[0].Sent? && replies[0].chunk != [] && |out| + |replies[0].chunk| <= N {
      var b := replies[0].chunk;
      PackDraws(replies[1..], out + b, drained + [b]);
      var r := Pack(replies[1..], out + b, drained + [b]);
      assert r.drained[..|drained|] == r.drained[..|drained + [b]|][..|drained|] == drained;
      assert r.drained[|drained|] == r.drained[..|drained + [b]|][|drained|] == b;
      assert forall i :: 0 < i < |r.drained| - |drained| ==> replies[i] == replies[1..][i - 1];
    }
  }

  // A connection with its session. The fields from handed on only describe what has happened: the
  // buffers handed to the socket, the chunks drained, whether the last request for output was answered
  // by nothing, whether one failed, whether a write and a read are outstanding, and whether output has
  // been asked for at all.
  datatype Wire = Wire(held: string, buffer: string, writing: bool, stopped: bool,
                       handed: seq<string>, drained: seq<string>, quiet: bool, failed: bool,
                       inFlight: bool, reading: bool, primed: bool)

  // What may happen to a connection. The replies are those of the library while the event is handled;
  // quits and closes are its answers when asked whether the session is over.
  datatype Event =
    | ReadDone(error: bool, accepted: bool, replies: seq<Reply>, quits: bool, closes: bool)
    | WriteDone(error: bool, replies: seq<Reply>, quits: bool)
    | Signal(replies: seq<Reply>, quits: bool)
    | Timeout(expired: bool)

  // A completion comes only for an operation that is outstanding.
  predicate Possible(c: Wire, e: Event) {
    match e
    case ReadDone(_, _, replies, _, _) => c.reading && Fit(replies)
    case WriteDone(_, replies, _) => c.inFlight && Fit(replies)
    case Signal(replies, _) => Fit(replies)
    case Timeout(_) => true
  }

  function Overwrite(b: string, s: string): string { if |s| <= |b| then s + b[|s|..] else b }

  function Stop(c: Wire): Wire { c.(stopped := true) }

  // on_write: the chunk held over goes first.
  function OnWrite(c: Wire, replies: seq<Reply>): (Packed, Wire) {
    var r := Pack(replies, c.held, c.drained);
    (r, c.(held := r.held, buffer := Overwrite(c.buffer, r.out), drained := r.drained, quiet := r.quiet,
           failed := c.failed || !r.ok, primed := true))
  }

  // write_data
  function WriteData(c: Wire, replies: seq<Reply>, quits: bool): Wire {
    if c.writing then c
    else
      var (r, d) := OnWrite(c, replies);
      if !r.ok then Stop(d)
      else if r.out == [] then (if quits then Stop(d) else d)
      else d.(writing := true, inFlight := true, handed := d.handed + [r.out])
  }

  // What follows when the session has taken the bytes of a read.
  function Answered(c: Wire, replies: seq<Reply>, quits: bool, closes: bool): Wire {
    var w := WriteData(c, replies, quits);
    if !w.writing && closes then Stop(w) else w.(reading := true)
  }

  function Handle(c: Wire, e: Event): Wire {
    match e
    case ReadDone(error, accepted, replies, quits, closes) =>
      var d := c.(reading := false);
      if error || !accepted then Stop(d)
      else Answered(d, replies, quits, closes)
    case WriteDone(error, replies, quits) =>
      var d := c.(inFlight := false);
      if error then Stop(d) else WriteData(d.(writing := false), replies, quits)
    case Signal(replies, quits) => WriteData(c, replies, quits)
    case Timeout(expired) => if expired then Stop(c) else c
  }

  // A connection after start: reading, with nothing drained.
  predicate Fresh(c: Wire) {
    && c.held == [] && |c.buffer| == N && !c.writing && !c.stopped && c.handed == [] && c.drained == []
    && !c.failed && !c.inFlight && c.reading && !c.primed
  }

  predicate InPlace(buffer: string, s: string) { |s| <= |buffer| && buffer[..|s|] == s }

  // What holds at any time.
  predicate Core(c: Wire) {
    && |c.buffer| == N && |c.held| <= N
    // the bytes handed over, and then the chunk held over, are the chunks drained, in order
    && (!c.failed ==> Flat(c.handed) + c.held == Flat(c.drained))
    && (forall k :: 0 <= k < |c.handed| ==> 0 < |c.handed[k]| <= N)
    // the buffer of an outstanding write is as it was handed over
    && (c.inFlight ==> c.writing && |c.handed| > 0 && InPlace(c.buffer, c.handed[|c.handed| - 1]))
    && (c.writing && !c.inFlight ==> c.stopped)
    && (c.failed ==> c.stopped)
  }

  // Nothing waits for an event that will not come.
  predicate Flushed(c: Wire) { c.primed && !c.stopped && !c.writing ==> c.held == [] && c.quiet }

  // What holds whenever no handler is running: besides, a connection that is not stopped is reading.
  predicate Sound(c: Wire) { Core(c) && Flushed(c) && (!c.stopped ==> c.reading) }

  // Asking for output.
  lemma WriteDataSound(c: Wire, replies: seq<Reply>, quits: bool)
    requires Core(c) && Fit(replies)
    ensures var w := WriteData(c, replies, quits);
            && Core(w) && Flushed(w) && w.reading == c.reading && (c.stopped ==> w.stopped)
            && (w.stopped && !c.stopped && !w.failed ==> w.held == [] && w.quiet && !w.writing)
  {
    hide Pack, Flat;
    if !c.writing {
      var r := Pack(replies, c.held, c.drained);
      PackFits(replies, c.held, c.drained);
      if !c.failed {
        PackKeeps(replies, c.held, c.drained, Flat(c.handed));
      }
      FlatSnoc(c.handed, r.out);
      assert Overwrite(c.buffer, r.out)[..|r.out|] == r.out;
      assert Flat(c.handed) + [] + r.held == Flat(c.handed) + r.held;
    }
  }

  // A completion ends an operation.
  lemma CompletedSound(c: Wire)
    requires Sound(c)
    ensures Core(c.(reading := false)) && Core(Stop(c)) && Core(Stop(c.(reading := false)))
    ensures c.inFlight ==> Core(c.(inFlight := false, writing := false)) && Core(Stop(c.(inFlight := false)))
  {
    hide Flat;
  }

  lemma ReadingSound(c: Wire)
    requires Core(c) && Flushed(c)
    ensures Sound(c.(reading := true)) && Sound(Stop(c))
  {
    hide Flat;
  }

  // Every event keeps it.
  lemma HandleSound(c: Wire, e: Event)
    requires Sound(c) && Possible(c, e)
    ensures Sound(Handle(c, e)) && (c.stopped ==> Handle(c, e).stopped)
  {
    hide Core, WriteData;
    CompletedSound(c);
    match e {
      case ReadDone(error, accepted, replies, quits, _) =>
        WriteDataSound(c.(reading := false), replies, quits);
        ReadingSound(WriteData(c.(reading := false), replies, quits));
      case WriteDone(error, replies, quits) =>
        if !error {
          WriteDataSound(c.(inFlight := false, writing := false), replies, quits);
        }
      case Signal(replies, quits) => WriteDataSound(c, replies, quits);
      case Timeout(_) =>
    }
  }

  predicate Happens(c: Wire, es: seq<Event>)
    decreases |es|
  {
    |es| > 0 ==> Possible(c, es[0]) && Happens(Handle(c, es[0]), es[1..])
  }

  function After(c: Wire, es: seq<Event>): Wire
    decreases |es|
  {
    if |es| == 0 then c else After(Handle(c, es[0]), es[1..])
  }

  // First in, first out: whatever the order of completions, signals and timeouts, the bytes handed to
  // the socket and the chunk held over are exactly the chunks drained, in order.
  lemma {:induction false} OutputFifo(c: Wire, es: seq<Event>)
    requires Sound(c) && Happens(c, es)
    ensures Sound(After(c, es))
    decreases |es|
  {
    hide Core, Handle;
    if |es| > 0 {
      HandleSound(c, es[0]);
      OutputFifo(Handle(c, es[0]), es[1..]);
    }
  }

  lemma FreshSound(c: Wire)
    requires Fresh(c)
    ensures Sound(c)
  {
  }

  // So for every run of a connection from its start: what is in flight or has been handed over, and then what
  // is held, is what was drained; and when it waits for the next event, nothing is left to write.
  lemma FreshFifo(c: Wire, es: seq<Event>)
    requires Fresh(c) && Happens(c, es)
    ensures var d := After(c, es);
            && (!d.failed ==> Flat(d.handed) + d.held == Flat(d.drained))
            && (d.primed && !d.stopped && !d.writing ==> Flat(d.handed) == Flat(d.drained) && d.quiet)
            && (!d.stopped ==> d.reading)
  {
    hide Handle, Flat;
    FreshSound(c);
    OutputFifo(c, es);
    var d := After(c, es);
    assert Flat(d.handed) + [] == Flat(d.handed);
  }

  // At most one write is outstanding, and its buffer does not change until it completes.
  lemma BufferStable(c: Wire, e: Event)
    requires Sound(c) && Possible(c, e) && c.inFlight && !e.WriteDone?
    ensures var d := Handle(c, e); d.buffer == c.buffer && d.handed == c.handed && d.inFlight && d.held == c.held
  {
    hide Core, Pack, Flat;
    assert c.writing by { InFlightWrites(c); }
  }

  lemma InFlightWrites(c: Wire)
    requires Core(c) && c.inFlight
    ensures c.writing
  {
  }

  // An event that closes the connection because the session is over comes when every chunk drained has
  // been handed to the socket.
  lemma CleanStop(c: Wire, e: Event)
    requires Sound(c) && Possible(c, e) && !c.stopped && Handle(c, e).stopped && !Handle(c, e).failed
    requires !e.Timeout? && !(e.ReadDone? && (e.error || !e.accepted)) && !(e.WriteDone? && e.error)
    ensures Flat(Handle(c, e).handed) == Flat(Handle(c, e).drained) && !Handle(c, e).inFlight
  {
    HandleSound(c, e);
    var d := Handle(c, e);
    match e {
      case ReadDone(error, accepted, replies, quits, closes) =>
        WriteDataSound(c.(reading := false), replies, quits);
        WriteDataPrimes(c.(reading := false), replies, quits);
      case WriteDone(error, replies, quits) =>
        WriteDataSound(c.(inFlight := false, writing := false), replies, quits);
      case Signal(replies, quits) => WriteDataSound(c, replies, quits);
    }
    assert Flat(d.handed) + [] == Flat(d.handed);
    hide WriteData, Flat;
  }

  lemma WriteDataPrimes(c: Wire, replies: seq<Reply>, quits: bool)
    ensures c.writing || WriteData(c, replies, quits).primed
  {
  }

  lemma {:induction false} PackGrows(replies: seq<Reply>, out: string, drained: seq<string>)
    ensures |out| <= |Pack(replies, out, drained).out|
    ensures !Pack(replies, out, drained).ok ==> Pack(replies, out, drained).held == []
    decreases |replies|
  {
    if |replies| > 0 && replies[0].Sent? && replies[0].chunk != [] && |out| + |replies[0].chunk| <= N {
      PackGrows(replies[1..], out + replies[0].chunk, drained + [replies[0].chunk]);
    }
  }

  lemma PackFailsEmpty(replies: seq<Reply>, held: string, drained: seq<string>)
    ensures var r := Pack(replies, held, drained);
            !r.ok && r.out == [] <==> held == [] && |replies| > 0 && replies[0] == Failed
  {
    PackGrows(replies, held, drained);
    if |replies| > 0 && replies[0].Sent? && replies[0].chunk != [] {
      PackGrows(replies[1..], held + replies[0].chunk, drained + [replies[0].chunk]);
    }
  }

  // When the library may fail: asking for output keeps every byte if and only if it did not fail, or it
  // failed with nothing packed; and that is so only if nothing was held over and it failed at once.
  lemma FailureExact(c: Wire, replies: seq<Reply>, quits: bool)
    requires Core(c) && !c.failed && !c.writing
    ensures var w, r := WriteData(c, replies, quits), Pack(replies, c.held, c.drained);
            && (Flat(w.handed) + w.held == Flat(w.drained) <==> r.ok || r.out == [])
            && (!r.ok && r.out == [] <==> c.held == [] && |replies| > 0 && replies[0] == Failed)
  {
    hide Flat, Pack;
    var r := Pack(replies, c.held, c.drained);
    PackKeeps(replies, c.held, c.drained, Flat(c.handed));
    PackGrows(replies, c.held, c.drained);
    PackFailsEmpty(replies, c.held, c.drained);
    FlatSnoc(c.handed, r.out);
    KeepsAll(Flat(c.handed), r.out, r.held, Flat(r.drained));
  }

  lemma KeepsAll(a: string, b: string, held: string, all: string)
    requires a + b + held == all
    ensures (b == [] ==> a + held == all) && (held == [] && a + held == all ==> b == [])
  {
    assert |a + b + held| == |a| + |b| + |held|;
    if b == [] {
      assert a + b == a;
    }
  }

  // An instance: the bytes packed before the failure are lost.
  lemma FailureLoses(c: Wire, b: string)
    requires Fresh(c) && 0 < |b| <= N
    ensures var d := Handle(c, Signal([Sent(b), Failed], false));
            d.stopped && Flat(d.handed) + d.held != Flat(d.drained)
  {
    var replies := [Sent(b), Failed];
    assert replies[1..] == [Failed];
    assert Pack(replies, [], []) == Pack([Failed], [] + b, [] + [b]);
    assert Flat([b]) == Flat([b][..0]) + b;
  }

  // What may stop a connection, and what it may have outstanding, in terms of the event alone and of what
  // was outstanding and held over before it.

  // The event reports an error, a refused read or an expired deadline.
  predicate Trouble(e: Event) {
    match e
    case ReadDone(error, accepted, _, _, _) => error || !accepted
    case WriteDone(error, _, _) => error
    case Signal(_, _) => false
    case Timeout(expired) => expired
  }

  // A write is outstanding that the event does not complete.
  predicate StillWriting(c: Wire, e: Event) { c.inFlight && !e.WriteDone? }

  function Replies(e: Event): seq<Reply> {
    match e
    case ReadDone(_, _, replies, _, _) => replies
    case WriteDone(_, replies, _) => replies
    case Signal(replies, _) => replies
    case Timeout(_) => []
  }

  // Output is asked for, unless a write is outstanding.
  predicate Asks(c: Wire, e: Event) { !e.Timeout? && !Trouble(e) && !StillWriting(c, e) }

  // The session says that it is over.
  predicate SessionOver(e: Event) {
    match e
    case ReadDone(_, _, _, quits, closes) => quits || closes
    case WriteDone(_, _, quits) => quits
    case Signal(_, quits) => quits
    case Timeout(_) => false
  }

  function Bytes(replies: seq<Reply>, k: nat): nat
    requires k <= |replies|
    decreases k
  {
    if k == 0 then 0 else Bytes(replies, k - 1) + if replies[k - 1].Sent? then |replies[k - 1].chunk| else 0
  }

  // The k-th answer is an error, and it is asked for: every answer before it is a chunk, and all of them fit
  // the buffer after the chunk held over.
  predicate FailsAt(held: string, replies: seq<Reply>, k: nat) {
    && k < |replies| && replies[k].Failed? && (forall i :: 0 <= i < k ==> replies[i].Sent? && replies[i].chunk != [])
    && |held| + Bytes(replies, k) <= N
  }

  // There is something to write.
  predicate HasOutput(held: string, replies: seq<Reply>) {
    held != [] || (|replies| > 0 && replies[0].Sent? && replies[0].chunk != [])
  }

  // A write is outstanding after the event, if the connection is open.
  predicate Outstanding(c: Wire, e: Event) { StillWriting(c, e) || (Asks(c, e) && HasOutput(c.held, Replies(e))) }

  ghost predicate Fails(held: string, replies: seq<Reply>) { exists k: nat :: FailsAt(held, replies, k) }

  ghost predicate LibraryFails(c: Wire, e: Event) { Asks(c, e) && Fails(c.held, Replies(e)) }

  lemma {:induction false} BytesShift(replies: seq<Reply>, k: nat)
    requires k < |replies| && replies[0].Sent?
    ensures Bytes(replies, k + 1) == |replies[0].chunk| + Bytes(replies[1..], k)
    decreases k
  {
    if k > 0 {
      BytesShift(replies, k - 1);
    }
  }

  lemma {:induction false} BytesGrow(replies: seq<Reply>, j: nat, k: nat)
    requires j <= k <= |replies|
    ensures Bytes(replies, j) <= Bytes(replies, k)
    decreases k
  {
    if j < k {
      BytesGrow(replies, j, k - 1);
    }
  }

  lemma FailsLater(held: string, replies: seq<Reply>, k: nat)
    requires |replies| > 0 && replies[0].Sent? && replies[0].chunk != []
    ensures FailsAt(held, replies, k + 1) <==> FailsAt(held + replies[0].chunk, replies[1..], k)
  {
    if k < |replies| - 1 {
      BytesShift(replies, k);
      assert forall i :: 0 <= i < k ==> replies[1..][i] == replies[i + 1];
      assert forall i :: 0 < i <= k ==> replies[i] == replies[1..][i - 1];
    }
  }

  // Packing fails exactly if an error is asked for.
  lemma {:induction false} PackFails(replies: seq<Reply>, held: string, drained: seq<string>)
    requires Fit(replies) && |held| <= N
    ensures Pack(replies, held, drained).ok <==> !Fails(held, replies)
    decreases |replies|
  {
    if |replies| > 0 && replies[0].Sent? && replies[0].chunk != [] {
      var b := replies[0].chunk;
      if |held| + |b| <= N {
        PackFails(replies[1..], held + b, drained + [b]);
        hide FailsAt;
        forall k: nat
          ensures FailsAt(held, replies, k + 1) <==> FailsAt(held + b, replies[1..], k)
        {
          FailsLater(held, replies, k);
        }
        NotFirst(held, replies);
        if k: nat :| FailsAt(held, replies, k) {
          assert FailsAt(held + b, replies[1..], k - 1);
        }
      } else {
        forall k: nat
          ensures !FailsAt(held, replies, k)
        {
          if 0 < k < |replies| {
            BytesGrow(replies, 1, k);
          }
        }
      }
    } else if |replies| > 0 && replies[0].Failed? {
      assert FailsAt(held, replies, 0);
    }
  }

  lemma NotFirst(held: string, replies: seq<Reply>)
    requires |replies| > 0 && replies[0].Sent?
    ensures !FailsAt(held, replies, 0)
  {
  }

  // There is output exactly if a chunk was held over or the first answer is one.
  lemma PackHasOutput(replies: seq<Reply>, held: string, drained: seq<string>)
    requires Fit(replies) && |held| <= N
    ensures Pack(replies, held, drained).out != [] <==> HasOutput(held, replies)
  {
    PackGrows(replies, held, drained);
    if held == [] && HasOutput(held, replies) {
      PackGrows(replies[1..], held + replies[0].chunk, drained + [replies[0].chunk]);
    }
  }

  // When a connection is not stopped, writing_ says that a write is outstanding.
  lemma WritingInFlight(c: Wire)
    requires Sound(c) && !c.stopped
    ensures c.writing == c.inFlight && !c.failed && |c.held| <= N
  {
  }

  // What asking for output comes to.
  lemma WriteDataStops(c: Wire, replies: seq<Reply>, quits: bool)
    requires |c.held| <= N && Fit(replies) && !c.stopped
    ensures var d := WriteData(c, replies, quits);
            && (c.writing ==> d == c)
            && (!c.writing ==>
                  var fails, has := Fails(c.held, replies), HasOutput(c.held, replies);
                  && (d.stopped <==> fails || (quits && !has))
                  && d.writing == (!fails && has) && (!d.stopped ==> d.inFlight == (c.inFlight || d.writing)))
  {
    hide Pack, Fails, HasOutput;
    PackFails(replies, c.held, c.drained);
    PackHasOutput(replies, c.held, c.drained);
  }

  lemma AnsweredStops(c: Wire, replies: seq<Reply>, quits: bool, closes: bool)
    requires |c.held| <= N && Fit(replies) && !c.stopped && c.writing == c.inFlight
    ensures var d := Answered(c, replies, quits, closes);
            var fails, has := Fails(c.held, replies), HasOutput(c.held, replies);
            && (d.stopped <==> !c.writing && (fails || ((quits || closes) && !has)))
            && (!d.stopped ==> d.inFlight == (c.inFlight || has))
  {
    hide Fails, HasOutput, WriteData;
    WriteDataStops(c, replies, quits);
  }

  lemma OpenReads(c: Wire)
    requires Sound(c) && !c.stopped
    ensures c.reading
  {
  }

  // What an event drains: answers of the library to this event only, and none unless it is asked.
  lemma EventDraws(c: Wire, e: Event)
    requires Sound(c) && Possible(c, e) && !c.stopped
    ensures var d := Handle(c, e);
            && Draws(c.drained, d.drained, Replies(e)) && (!Asks(c, e) ==> d.drained == c.drained)
            && (Asks(c, e) && d.quiet ==>
                  var n := |d.drained| - |c.drained|; n == |Replies(e)| || Replies(e)[n] == Sent([]))
  {
    hide Sound, WriteData, Draws;
    WritingInFlight(c);
    NothingDrawn(c.drained, Replies(e));
    match e {
      case ReadDone(_, _, replies, quits, _) => WriteDataDraws(c.(reading := false), replies, quits);
      case WriteDone(_, replies, quits) => WriteDataDraws(c.(inFlight := false, writing := false), replies, quits);
      case Signal(replies, quits) => WriteDataDraws(c, replies, quits);
      case Timeout(_) =>
    }
  }

  lemma NothingDrawn(drained: seq<string>, replies: seq<Reply>)
    ensures Draws(drained, drained, replies)
  {
  }

  lemma WriteDataDraws(c: Wire, replies: seq<Reply>, quits: bool)
    ensures var d := WriteData(c, replies, quits);
            var n := |d.drained| - |c.drained|;
            && (c.writing ==> d == c)
            && (!c.writing ==> Draws(c.drained, d.drained, replies) && 0 <= n <= |replies| &&
                               (d.quiet ==> n == |replies| || replies[n] == Sent([])))
  {
    hide Pack;
    PackDraws(replies, c.held, c.drained);
  }

  // An open connection is stopped by an error, a refused read or an expired deadline, by a failure of the
  // library, and by a session that is over when no write is outstanding, and by nothing else. Otherwise it
  // stays open and goes on reading, and a write is outstanding exactly if it was and is not complete, or there
  // was something to write.
  lemma StopsExactly(c: Wire, e: Event)
    requires Sound(c) && Possible(c, e) && !c.stopped
    ensures var d := Handle(c, e);
            && (d.stopped <==> Trouble(e) || LibraryFails(c, e) || (SessionOver(e) && !Outstanding(c, e)))
            && (!d.stopped ==> d.reading && (d.inFlight <==> Outstanding(c, e)))
  {
    hide Fails, HasOutput, WriteData, Answered, Sound;
    WritingInFlight(c);
    HandleSound(c, e);
    if !Handle(c, e).stopped {
      OpenReads(Handle(c, e));
    }
    match e {
      case ReadDone(_, _, replies, quits, closes) => AnsweredStops(c.(reading := false), replies, quits, closes);
      case WriteDone(error, replies, quits) =>
        if !error {
          WriteDataStops(c.(inFlight := false, writing := false), replies, quits);
        }
      case Signal(replies, quits) => WriteDataStops(c, replies, quits);
      case Timeout(_) =>
    }
  }
}
