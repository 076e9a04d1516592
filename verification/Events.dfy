// What an application observes: the callbacks in order, where consecutive data callbacks of one
// kind are one run of bytes, because how a run is cut into callbacks depends on how the input is cut.
module Events {
  import opened Types

  datatype Kind = Url | Status | Field | Value | Body

  // What on_headers_complete can read from the parser, and whether it answered 1 (skip the body).
  datatype Head = Head(line: Line, chunked: bool, contentLength: nat, close: bool, keepAlive: bool, skipBody: bool)

  datatype Event =
    | MessageBegin
    | Data(kind: Kind, bytes: string)
    | HeadersComplete(head: Head)
    | ChunkHeader(size: nat)
    | ChunkComplete
    | MessageComplete

  // The callbacks so far, the last one outermost.
  datatype Trace = Silence | Then(before: Trace, last: Event)

  predicate EndsIn(t: Trace, k: Kind) {
    t.Then? && t.last.Data? && t.last.kind == k
  }

  // The trace after one more callback: data extends the run it continues.
  function Emit(t: Trace, e: Event): Trace {
    if e.Data? && EndsIn(t, e.kind) then Then(t.before, Data(e.kind, t.last.bytes + e.bytes)) else Then(t, e)
  }

  // Two data callbacks of one kind add up to one.
  lemma EmitTwice(t: Trace, k: Kind, a: string, b: string)
    ensures Emit(Emit(t, Data(k, a)), Data(k, b)) == Emit(t, Data(k, a + b))
  {
    if EndsIn(t, k) {
      assert (t.last.bytes + a) + b == t.last.bytes + (a + b);
    }
  }

  // A callback with no bytes changes nothing inside a run of its kind.
  lemma EmitNothing(t: Trace, k: Kind)
    requires EndsIn(t, k)
    ensures Emit(t, Data(k, [])) == t
  {
    assert t.last.bytes + [] == t.last.bytes;
  }
}
