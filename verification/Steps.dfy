// The relation between one pass of the parser's switch and the one-byte step,
// and the marks of the data that has not been handed to a callback yet.
module Steps {
  import opened Chars
  import opened Types
  import opened Events
  import opened Views
  import opened Body
  import opened Machine
  import opened Invariant
  import opened Runs
  import opened Budget

  // No error, or one that a callback has set.
  predicate Healthy(e: Errno) { e.OK? || ByCallback(e) }

  // How a pass through the switch ends: break, goto reexecute, or return n.
  datatype Act = Next | Again | Stop(n: nat)

  // The five marks as offsets into the buffer.
  datatype Marks = Marks(url: Option<nat>, field: Option<nat>, val: Option<nat>, body: Option<nat>, status: Option<nat>)

  const NO_MARKS := Marks(None, None, None, None, None)

  // The trace once the marked bytes up to end are handed over.
  function Pending(t: Trace, m: Marks, data: string, end: nat): Trace {
    if m.url.Some? then Emit(t, Data(Url, Slice(data, m.url.value, end)))
    else if m.field.Some? then Emit(t, Data(Field, Slice(data, m.field.value, end)))
    else if m.val.Some? then Emit(t, Data(Events.Value, Slice(data, m.val.value, end)))
    else if m.body.Some? then Emit(t, Data(Events.Body, Slice(data, m.body.value, end)))
    else if m.status.Some? then Emit(t, Data(Events.Status, Slice(data, m.status.value, end)))
    else t
  }

  predicate AtMost(o: Option<nat>, p: nat) { o.Some? ==> o.value <= p }

  predicate Bodied(s: ParseState) {
    match s
    case Chunk(c) => c.ChunkData? || c.DataAlmostDone?
    case Msg(m) => m.Identity? || m.IdentityEof?
    case _ => false
  }

  // The state determines which mark is set; at most one is.
  predicate MarksOk(m: Marks, s: ParseState, p: nat) {
    && (m.url.Some? <==> RunKind(s) == Some(Url))
    && (m.field.Some? <==> RunKind(s) == Some(Field))
    && (m.val.Some? <==> RunKind(s) == Some(Events.Value))
    && (m.status.Some? <==> RunKind(s) == Some(Events.Status))
    && (m.body.Some? ==> Bodied(s))
    && AtMost(m.url, p) && AtMost(m.field, p) && AtMost(m.val, p) && AtMost(m.status, p) && AtMost(m.body, p)
  }

  function Set(o: Option<nat>): nat { if o.Some? then 1 else 0 }

  // The assertion before the last callbacks of a call.
  lemma OneMark(m: Marks, s: ParseState, p: nat)
    requires MarksOk(m, s, p)
    ensures Set(m.url) + Set(m.field) + Set(m.val) + Set(m.body) + Set(m.status) <= 1
  {
  }

  // The rank that goto reexecute decreases.
  function Rank(s: ParseState): nat {
    match s
    case Res(r) => if r.StartReqOrRes? then 1 else 0
    case Hdr(h) =>
      if h.ValueLws? || h.DiscardLws? then 4 else if h.FieldStart? then 3 else if h.FieldValue? then 1 else 0
    case Msg(m) => if m.HeadersAlmostDone? then 2 else if m.HeadersDone? || m.Identity? then 1 else 0
    case _ => 0
  }

  // After a stop inside a callback the parser continues at n as if it had not stopped:
  // the byte at p has been taken, or it is taken again.
  predicate Resumes(before: View, ch: char, p: nat, n: nat, after: View) {
    var w := after.(errno := OK);
    || (n == p + 1 && w == Step(before, ch))
    || (n == p && Held(before, w, ch))
  }

  // A parser w that has seen byte ch already treats it as before does, which has not.
  predicate Held(before: View, w: View, ch: char) {
    && !Halted(w) && Step(w, ch) == Step(before, ch) && Resets(w, ch) == Resets(before, ch)
    && (ParsingHeader(w.state) ==> ParsingHeader(before.state))
  }

  // One pass of the switch over byte ch at p.
  predicate Stepped(before: View, ch: char, p: nat, act: Act, after: View) {
    match act
    case Next => !Halted(after) && after == Step(before, ch)
    case Again => Held(before, after, ch) && Rank(after.state) < Rank(before.state)
    case Stop(n) =>
      if ByCallback(after.errno) then Resumes(before, ch, p, n, after)
      else if after.errno == OK then n == p + 1 && after.app.left && after == Step(before, ch)
      else after.errno != HeaderOverflow && n == p && after == Step(before, ch)
  }

  // A pass that does not consume the byte leaves a parser that satisfies the invariant.
  predicate HeldOk(p: nat, act: Act, after: View) {
    && (act.Again? ==> Inv(after) && after.state != Chunk(SizeStart) && !InText(after.state))
    && (act == Stop(p) && ByCallback(after.errno) ==> Inv(after.(errno := OK)) && after.state != Chunk(SizeStart))
  }

  // Over data[p..q] the one-byte parser went from before to now, and every byte counted one.
  predicate Ran(before: View, c: nat, data: string, p: nat, q: nat, now: View) {
    && p <= q <= |data| && !Halted(now) && Run(before, data, p, q) == now
    && Count(before, c, data, p, q) == c + (q - p)
    && Peak(before, c, data, p, q) == (if q == p then 0 else c + (q - p))
    && Longest(before, c, data, p, q) == 0
  }

  lemma RanNothing(before: View, c: nat, data: string, p: nat)
    requires p <= |data| && !Halted(before)
    ensures Ran(before, c, data, p, p, before)
  {
  }

  lemma RanExtend(before: View, c: nat, data: string, p: nat, q: nat, now: View)
    requires q < |data| && Ran(before, c, data, p, q, now)
    requires !Halted(Step(now, data[q])) && CountNext(now, c + (q - p), data[q]) == c + (q - p) + 1
    requires ParsingHeader(now.state)
    ensures Ran(before, c, data, p, q + 1, Step(now, data[q]))
  {
    assert !Resets(now, data[q]);
    hide Step, CountNext, Resets;
    RunExtend(before, data, p, q);
    CountExtend(before, c, data, p, q);
  }

  // An ordinary header value runs on to the end of its line.
  lemma RanGeneral(before: View, c: nat, data: string, p: nat, q: nat, now: View, r: nat)
    requires Ran(before, c, data, p, q, now) && q < r <= |data|
    requires now.state == Hdr(FieldValue) && now.hstate == General
    requires forall n :: q <= n < r ==> !IsEol(data[n])
    ensures Ran(before, c, data, p, r, Tell(now, Data(Events.Value, Slice(data, q, r))))
  {
    hide Step;
    RunSplit(before, data, p, q, r);
    CountSplit(before, c, data, p, q, r);
    PeakSplit(before, c, data, p, q, r);
    LongestSplit(before, c, data, p, q, r);
    GeneralRun(now, data, q, r);
    GeneralCount(now, c + (q - p), data, q, r);
  }

  function Memchr(data: string, i: nat, j: nat, ch: char): (r: Option<nat>)
    requires i <= j <= |data|
    ensures r.Some? ==> i <= r.value < j && data[r.value] == ch && forall n :: i <= n < r.value ==> data[n] != ch
    ensures r.None? ==> forall n :: i <= n < j ==> data[n] != ch
    decreases j - i
  {
    if i == j then None else if data[i] == ch then Some(i) else Memchr(data, i + 1, j, ch)
  }

  // The jump over an ordinary value: to the next end of line, looked for in the next
  // MAX_HEADER_SIZE bytes only, or else to the end of the buffer.
  function Jump(data: string, q: nat): (r: nat)
    requires q <= |data|
    ensures q <= r <= |data|
    ensures r < |data| ==> IsEol(data[r])
    ensures r - q <= MAX_HEADER_SIZE ==> forall n :: q <= n < r ==> !IsEol(data[n])
    ensures r - q > MAX_HEADER_SIZE ==> r == |data| && forall n :: q <= n < q + MAX_HEADER_SIZE ==> !IsEol(data[n])
  {
    var limit := if |data| - q < MAX_HEADER_SIZE then |data| - q else MAX_HEADER_SIZE;
    var cr, lf := Memchr(data, q, q + limit, CR), Memchr(data, q, q + limit, LF);
    if cr.Some? then if lf.Some? && cr.value >= lf.value then lf.value else cr.value
    else if lf.Some? then lf.value
    else |data|
  }

  // The count before the byte at hand.
  function Uncounted(s: ParseState, nread: nat): nat { if ParsingHeader(s) && nread > 0 then nread - 1 else nread }

  // A parser that has exceeded the header budget is the one-byte parser w but for the error; if it found
  // out at the end of a line, it is in the next state, and the recogniser is not written back yet.
  predicate Overrun(w: View, after: View) {
    && after == w.(errno := HeaderOverflow, state := after.state, hstate := after.hstate)
    && ((after.state == w.state && after.hstate == w.hstate) ||
        (after.state == Hdr(HeaderAlmostDone) && w.state == Hdr(FieldValue)))
  }

  // The bytes of a value that a pass over data[p..] has not counted when on_header_value stops it: those
  // after the first, if it stopped at the carriage return.
  function Missing(w: View, p: nat, q: nat, act: Act): nat
    requires p <= q
  {
    if w.state == Hdr(FieldValue) && act == Stop(q + 1) then q - p else 0
  }

  // A value is left at the end of its line only, and the line feed that ends a line stops nothing.
  predicate LineEnds(data: string, q: nat, act: Act, w: View, after: View)
    requires q < |data|
  {
    && (w.state == Hdr(FieldValue) ==>
          (act.Again? ==> data[q] == LF) && (act.Next? && q + 1 < |data| ==> data[q] == CR))
    && (w.state == Hdr(HeaderAlmostDone) ==> !act.Again? && !ByCallback(after.errno))
    && (w.state == Hdr(FieldName) ==> !act.Again?)
  }

  // A pass of the switch over data[p..], from before with nread n to after with nread n'. It ends at
  // q, and w is the view at r, the last offset it is followed to: q unless the budget is exceeded.
  predicate Passed(before: View, n: nat, data: string, p: nat, act: Act, q: nat, r: nat, w: View,
                   after: View, n': nat)
  {
    var c := Uncounted(before.state, n);
    && p <= r <= q <= |data| && Run(before, data, p, r) == w && !Halted(w)
    && Longest(before, c, data, p, r) == 0
    && (after.errno == HeaderOverflow ==>
          && act == Stop(q) && p < r && Overrun(w, after) && before.state == w.state && TextTo(w.state, data, p, r, q)
          && Count(before, c, data, p, r) + 1 > MAX_HEADER_SIZE && Peak(before, c, data, p, r) + 1 > MAX_HEADER_SIZE)
    && (after.errno != HeaderOverflow ==>
          && r == q < |data| && Stepped(w, data[q], q, act, after) && HeldOk(q, act, after)
          && LineEnds(data, q, act, w, after)
          && (act.Again? ==>
                && (q == p ==> Rank(after.state) < Rank(before.state))
                && (ParsingHeader(after.state) ==> ParsingHeader(w.state))
                && n' == WithByte(w, Count(before, c, data, p, q)))
          && n' <= MAX_HEADER_SIZE
          && (act == Stop(q + 1) && ByCallback(after.errno) && Resets(w, data[q]) ==> n' == 0)
          && (act.Stop? && ByCallback(after.errno) ==> Interrupted(before, c, data, p, q, w, act, n'))
          && (after.errno == OK || w.state != Hdr(FieldValue) ==>
                Peak(before, c, data, p, q + 1) <= MAX_HEADER_SIZE)
          && (ByCallback(after.errno) ==> Peak(before, c, data, p, q + 1) <= MAX_HEADER_SIZE + Missing(w, p, q, act))
          && (act.Next? || (act.Stop? && after.errno == OK && after.app.left) ==>
                n' == Count(before, c, data, p, q + 1) + Once(w.state, after.state, q + 1 == |data|)))
  }

  // A name or value that goes on at the end of a buffer counts one more.
  function Once(was: ParseState, now: ParseState, end: bool): (r: nat)
    ensures r <= 1 && (!end || !InText(now) ==> r == 0)
  {
    if end && InText(now) && was == now then 1 else 0
  }

  // nread after a pass that a callback has stopped: every byte that was taken is counted, and the byte
  // that will be taken again is too, but for the bytes of a value that are missing.
  predicate Interrupted(before: View, c: nat, data: string, p: nat, q: nat, w: View, act: Act, n': nat) {
    && p <= q < |data|
    && n' + Missing(w, p, q, act) ==
       (if act == Stop(q + 1) then Count(before, c, data, p, q + 1) else WithByte(w, Count(before, c, data, p, q)))
    && (w.state == Hdr(FieldValue) ==> before.state == w.state && StopsValue(data, p, q, act))
    && (w.state == Hdr(FieldName) ==> !IsToken(data[q]))
  }

  predicate StopsValue(data: string, p: nat, q: nat, act: Act)
    requires p <= q < |data|
  {
    && (act == Stop(q + 1) ==> data[q] == CR)
    && forall j :: p <= j < q ==> !IsEol(data[j])
  }

  predicate InText(s: ParseState) { s == Hdr(FieldName) || s == Hdr(FieldValue) }

  // The byte belongs to the name or value that the parser is in.
  predicate OfText(s: ParseState, ch: char) { if s == Hdr(FieldName) then IsToken(ch) else !IsEol(ch) }

  // The name or value runs on from p, to r at least, and q is its end or that of the buffer.
  predicate TextTo(s: ParseState, data: string, p: nat, r: nat, q: nat) {
    && p <= r <= q <= |data| && InText(s) && (forall j :: p <= j < r ==> OfText(s, data[j]))
    && (q < |data| ==> r == q && !OfText(s, data[q]))
    && (r < q ==> s == Hdr(FieldValue))
  }

  // A pass over one byte.
  lemma PassedOne(before: View, n: nat, data: string, p: nat, act: Act, after: View, n': nat)
    requires p < |data| && !Halted(before) && n <= MAX_HEADER_SIZE && (ParsingHeader(before.state) ==> n > 0)
    requires !InText(before.state)
    requires before.state == Hdr(HeaderAlmostDone) ==> !act.Again? && !ByCallback(after.errno)
    requires Stepped(before, data[p], p, act, after) && HeldOk(p, act, after) && after.errno != HeaderOverflow
    requires act.Again? ==> n' == n
    requires act.Next? || act == Stop(p + 1) ==> n' == if Resets(before, data[p]) then 0 else n
    requires act == Stop(p) && ByCallback(after.errno) ==> n' == n
    requires n' <= n
    ensures Passed(before, n, data, p, act, p, p, before, after, n')
  {
    hide Step, Resets, Run, Count, Peak, Longest, Inv, Rank;
    var c := Uncounted(before.state, n);
    CountOne(before, c, data, p);
    assert WithByte(before, c) == n;
    PassedNothing(before, c, data, p);
  }

  lemma PassedNothing(before: View, c: nat, data: string, p: nat)
    requires p <= |data|
    ensures Run(before, data, p, p) == before && Count(before, c, data, p, p) == c
    ensures Longest(before, c, data, p, p) == 0
  {
  }

  // A pass over the bytes of a header name or value.
  lemma PassedMany(before: View, n: nat, data: string, p: nat, act: Act, q: nat, r: nat, w: View, after: View, n': nat)
    requires 0 < n <= MAX_HEADER_SIZE && Ran(before, n - 1, data, p, r, w) && r <= q <= |data|
    requires before.state == w.state && (w.state == Hdr(FieldName) || w.state == Hdr(FieldValue))
    requires after.errno == HeaderOverflow ==>
               && act == Stop(q) && n + (r - p) > MAX_HEADER_SIZE && Overrun(w, after)
               && TextTo(w.state, data, p, r, q)
    requires after.errno != HeaderOverflow ==>
               r == q < |data| && Stepped(w, data[q], q, act, after) && HeldOk(q, act, after)
    requires act.Again? ==> n' == n + (q - p)
    requires after.errno != HeaderOverflow ==> n' <= MAX_HEADER_SIZE
    requires !act.Stop? ==> after.errno == OK
    requires after.errno != HeaderOverflow && (!act.Stop? || w.state == Hdr(FieldName)) ==>
               n + (q - p) <= MAX_HEADER_SIZE
    requires act.Next? ==> n' == n + (q - p) + if q + 1 == |data| && after.state == before.state then 1 else 0
    requires act.Stop? && after.errno == OK ==> !after.app.left
    requires after.errno != HeaderOverflow ==> LineEnds(data, q, act, w, after)
    requires act.Stop? && ByCallback(after.errno) ==>
               && n' + Missing(w, p, q, act) == n + (q - p)
               && (if w.state == Hdr(FieldValue) then StopsValue(data, p, q, act) else !IsToken(data[q]))
    ensures Passed(before, n, data, p, act, q, r, w, after, n')
  {
    hide Step, Run, Count, Peak, Longest, Inv, StopsValue, LineEnds, TextTo;
    if after.errno != HeaderOverflow {
      CountExtend(before, n - 1, data, p, q);
    }
  }

  // A pass over body bytes.
  lemma PassedBody(before: View, n: nat, data: string, p: nat, act: Act, q: nat, w: View, after: View)
    requires p <= q < |data| && !Halted(before) && n <= MAX_HEADER_SIZE
    requires before.state == Msg(IdentityEof) || (Counted(before.state) && q - p < before.contentLength)
    requires Run(before, data, p, q) == w && !Halted(w) && w.state == before.state
    requires Stepped(w, data[q], q, act, after) && HeldOk(q, act, after)
    requires act.Stop? ==> ByCallback(after.errno)
    ensures Passed(before, n, data, p, act, q, q, w, after, n)
  {
    hide Step, Run, Count, Peak, Longest, Inv, Rank;
    BodyCount(before, n, data, p, q);
    CountExtend(before, n, data, p, q);
  }
}
