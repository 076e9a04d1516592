// What a call of the parser has done so far, seen from its beginning.
module Calls {
  import opened Chars
  import opened Types
  import opened Events
  import opened Views
  import opened StartLine
  import opened Headers
  import opened Body
  import opened Machine
  import opened Invariant
  import opened Runs
  import opened Budget
  import opened Steps
  import opened Callbacks

  // The parser in the middle of a call: before is its view at p, and the call began with v0.
  predicate Follows(v0: View, n0: nat, data: string, p: nat, before: View, nread: nat) {
    && p < |data| && !Halted(before) && !Halted(Run(v0, data, 0, p))
    && Step(before, data[p]) == Step(Run(v0, data, 0, p), data[p])
    && Resets(before, data[p]) == Resets(Run(v0, data, 0, p), data[p])
    && (ParsingHeader(before.state) ==> ParsingHeader(Run(v0, data, 0, p).state))
    && nread == WithByte(Run(v0, data, 0, p), Count(v0, n0, data, 0, p))
    && Peak(v0, n0, data, 0, p) <= MAX_HEADER_SIZE
    && Settled(v0, data, p, before)
  }

  // A pass that begins in a value begins with the first byte this buffer has of it.
  predicate Settled(v0: View, data: string, p: nat, before: View)
    requires p < |data|
  {
    var u := Run(v0, data, 0, p);
    && (before.state == Hdr(FieldValue) ==> before == u && Entered(v0, data, p))
    && (u.state == Hdr(FieldValue) && before.state != Hdr(FieldValue) ==> data[p] == LF)
    && (u.state == Hdr(HeaderAlmostDone) || before.state == Chunk(SizeStart) ==> before == u)
    && (u.state == Hdr(FieldName) || before.state == Hdr(FieldName) ==> before == u)
  }

  predicate Entered(v0: View, data: string, p: nat)
    requires p <= |data|
  {
    p == 0 || Run(v0, data, 0, p - 1).state != Hdr(FieldValue)
  }

  // Where this buffer's part of the value begins that the parser is in at i.
  function ValueFrom(v0: View, data: string, i: nat): (r: nat)
    requires i <= |data|
    ensures r <= i
  {
    if Entered(v0, data, i) then i else ValueFrom(v0, data, i - 1)
  }

  // What nread lacks when a callback stops a call at n: if on_header_value stops it at the carriage return
  // after a value, the bytes of the value that the loop over it has taken in this call.
  function Forgotten(v0: View, data: string, n: nat): nat
    requires n <= |data|
  {
    if 0 < n && data[n - 1] == CR && Run(v0, data, 0, n - 1).state == Hdr(FieldValue) then
      n - 1 - ValueFrom(v0, data, n - 1)
    else 0
  }

  // What is known of before at p carries over to the start of the call.
  lemma FollowOn(v0: View, n0: nat, data: string, p: nat, before: View, nread: nat, q: nat, w: View)
    requires Follows(v0, n0, data, p, before, nread) && p <= q < |data|
    requires Run(before, data, p, q) == w && !Halted(w)
    ensures !Halted(Run(v0, data, 0, q)) && (p < q ==> w == Run(v0, data, 0, q))
    ensures Run(v0, data, 0, q + 1) == Step(w, data[q])
    ensures Run(v0, data, 0, |data|) == Run(w, data, q, |data|)
    ensures Step(w, data[q]) == Step(Run(v0, data, 0, q), data[q])
  {
    hide Step, Resets, ParsingHeader, WithByte, Count, Peak;
    var u := Run(v0, data, 0, p);
    RunExtend(before, data, p, q);
    RunSplit(before, data, p, q, |data|);
    RunSameStep(before, u, data, p, q + 1);
    RunSameStep(before, u, data, p, |data|);
    RunSplit(v0, data, 0, p, q + 1);
    RunSplit(v0, data, 0, p, |data|);
    if p < q {
      RunSameStep(before, u, data, p, q);
      RunSplit(v0, data, 0, p, q);
    }
    RunExtend(v0, data, 0, q);
  }

  lemma CountOn(v0: View, n0: nat, data: string, p: nat, before: View, nread: nat, r: nat)
    requires Follows(v0, n0, data, p, before, nread) && p < r <= |data| && (ParsingHeader(before.state) ==> nread > 0)
    ensures var c := Uncounted(before.state, nread);
            && Count(v0, n0, data, 0, r) == Count(before, c, data, p, r)
            && Peak(v0, n0, data, 0, r) == Max(Peak(v0, n0, data, 0, p), Peak(before, c, data, p, r))
            && Longest(v0, n0, data, 0, r) == Max(Longest(v0, n0, data, 0, p), Longest(before, c, data, p, r))
            && Longest(v0, n0, data, 0, p) <= MAX_HEADER_SIZE
  {
    hide Step, Resets, Run, Count, Peak, Longest;
    CountSplit(v0, n0, data, 0, p, r);
    PeakSplit(v0, n0, data, 0, p, r);
    LongestSplit(v0, n0, data, 0, p, r);
    LongestBelowPeak(v0, n0, data, 0, p);
    CountSame(before, Uncounted(before.state, nread), Run(v0, data, 0, p), Count(v0, n0, data, 0, p), data, p, r);
  }

  // What a whole call is known to have done when a pass ends at q: v0 and n0 are the view and the
  // count it began with, after and n' those the pass leaves.
  ghost predicate Outcome(v0: View, n0: nat, data: string, act: Act, q: nat, after: View, n': nat) {
    match act
    case Again => Follows(v0, n0, data, q, after, n')
    case Next =>
      && q < |data| && !Halted(after) && Run(v0, data, 0, q + 1) == after
      && Tallied(v0, n0, data, q + 1, n')
      && (q + 1 < |data| && after.state == Hdr(FieldValue) ==> Entered(v0, data, q + 1))
    case Stop(n) =>
      && n <= |data|
      && (after.errno.OK? ==>
            && after.app.left && Run(v0, data, 0, n) == after && Tallied(v0, n0, data, n, n')
            && ExitsAt(v0, data, n))
      && (ByCallback(after.errno) ==>
            var w := after.(errno := OK);
            StopsAfter(v0, n0, data, n, w, n') || StopsBefore(v0, n0, data, n, w, n'))
      && (!Healthy(after.errno) && !after.errno.HeaderOverflow? ==>
            && n < |data| && !Halted(Run(v0, data, 0, n)) && Run(v0, data, 0, n + 1) == after
            && Longest(v0, n0, data, 0, n + 1) <= MAX_HEADER_SIZE
            && (Run(v0, data, 0, n).state != Hdr(FieldValue) ==> Peak(v0, n0, data, 0, n + 1) <= MAX_HEADER_SIZE))
      && (after.errno.HeaderOverflow? ==> exists r: nat, x: nat :: OverranAt(v0, n0, data, n, r, x, after))
  }

  // The byte before n is the one after which the parser takes no more.
  predicate ExitsAt(v0: View, data: string, n: nat) {
    0 < n <= |data| && !Halted(Run(v0, data, 0, n - 1))
  }

  // Stopped by a callback at n, the parser has seen the bytes before n, and counted what it has not forgotten.
  predicate StopsAfter(v0: View, n0: nat, data: string, n: nat, w: View, n': nat) {
    && n <= |data| && Run(v0, data, 0, n) == w && (w.app.left ==> ExitsAt(v0, data, n))
    && n' + Forgotten(v0, data, n) == Count(v0, n0, data, 0, n) + Extra(v0, data, n)
    && Longest(v0, n0, data, 0, n) <= MAX_HEADER_SIZE && n' <= MAX_HEADER_SIZE
    && Peak(v0, n0, data, 0, n) <= MAX_HEADER_SIZE + Forgotten(v0, data, n)
  }

  // Or the byte at n has been seen and counted too, and is seen again.
  predicate StopsBefore(v0: View, n0: nat, data: string, n: nat, w: View, n': nat) {
    && n < |data| && !Halted(Run(v0, data, 0, n)) && Held(Run(v0, data, 0, n), w, data[n])
    && n' == WithByte(Run(v0, data, 0, n), Count(v0, n0, data, 0, n))
    && Run(v0, data, 0, n).state != Hdr(HeaderAlmostDone)
    && Peak(v0, n0, data, 0, n + 1) <= MAX_HEADER_SIZE && n' <= MAX_HEADER_SIZE
  }

  // The byte at x is the first that exceeds the budget. A name or value at the end of a buffer counts one more.
  predicate Exceeds(v0: View, n0: nat, data: string, x: nat) {
    && x <= |data| && !Halted(Run(v0, data, 0, x)) && Peak(v0, n0, data, 0, x) <= MAX_HEADER_SIZE
    && Count(v0, n0, data, 0, x) + 1 > MAX_HEADER_SIZE
    && (if x < |data| then Peak(v0, n0, data, 0, x + 1) > MAX_HEADER_SIZE
        else Peak(v0, n0, data, 0, x) == MAX_HEADER_SIZE)
  }

  // The budget is exceeded by the byte at x. That is where the call ends, or, because the bytes of a name or
  // value are counted all at once, at the end of the name or value the byte is in. The callbacks made and the
  // bytes marked are those of the bytes before r, and no head that was too long has been read to its end.
  predicate OverranAt(v0: View, n0: nat, data: string, n: nat, r: nat, x: nat, after: View) {
    && x <= r <= n <= |data| && !Halted(Run(v0, data, 0, r)) && Overrun(Run(v0, data, 0, r), after)
    && Exceeds(v0, n0, data, x) && (x < n ==> TextTo(Run(v0, data, 0, x).state, data, x, r, n))
    && Longest(v0, n0, data, 0, r) <= MAX_HEADER_SIZE
  }

  // A parser stopped by a callback at n: with the error cleared it takes data[n..] to where the call
  // that began with v0 was going.
  predicate Resumable(v0: View, data: string, n: nat, after: View) {
    var w := after.(errno := OK);
    && n <= |data|
    && (w.app.left ==> Run(v0, data, 0, n) == w)
    && (!w.app.left ==> Run(w, data, n, |data|) == Run(v0, data, 0, |data|))
  }

  lemma StopResumes(v0: View, n0: nat, data: string, n: nat, after: View, n': nat)
    requires var w := after.(errno := OK); StopsAfter(v0, n0, data, n, w, n') || StopsBefore(v0, n0, data, n, w, n')
    ensures Resumable(v0, data, n, after)
  {
    hide Step, Resets, Count, Peak, Longest, Forgotten;
    RunSplit(v0, data, 0, n, |data|);
    if n < |data| && StopsBefore(v0, n0, data, n, after.(errno := OK), n') {
      RunSameStep(after.(errno := OK), Run(v0, data, 0, n), data, n, |data|);
    }
  }

  // A name or value that goes on at the end of the buffer has been counted once more.
  function Extra(v0: View, data: string, q: nat): (r: nat)
    requires q <= |data|
    ensures r <= 1 && (q < |data| || !InText(Run(v0, data, 0, q).state) ==> r == 0)
  {
    if q == 0 then 0 else Once(Run(v0, data, 0, q - 1).state, Run(v0, data, 0, q).state, q == |data|)
  }

  // nread is the number of header bytes.
  predicate Tallied(v0: View, n0: nat, data: string, q: nat, n: nat) {
    && q <= |data| && n == Count(v0, n0, data, 0, q) + Extra(v0, data, q)
    && Peak(v0, n0, data, 0, q) <= MAX_HEADER_SIZE && n <= MAX_HEADER_SIZE
  }

  predicate Sound(v: View, n: nat) {
    Healthy(v.errno) ==> Inv(v.(errno := OK)) && n <= MAX_HEADER_SIZE && (v.state == Chunk(SizeStart) ==> n == 0)
  }

  lemma LineNoSizeStart(v: View, ch: char)
    requires v.state.Dead? || v.state.Res? || v.state.Req? || v.state.InUrl?
    ensures Step(v, ch).state != Chunk(SizeStart)
  {
    hide StepHeader, StepChunk, StepMsg, ParseUrlChar, Retarget, FirstMethod;
  }

  lemma HeaderSizeStart(v: View, h: HdrState, ch: char)
    requires !Halted(v) && v.state == Hdr(h) && StepHeader(v, h, ch).state == Chunk(SizeStart)
    requires StepHeader(v, h, ch).errno == OK
    ensures Resets(v, ch)
  {
    hide NameNext, ValueNext, IndexNext, FlagsNext, FirstValueState;
  }

  // nread is zero when a chunk size starts.
  lemma SizeStartResets(v: View, ch: char)
    requires !Halted(v) && Step(v, ch).state == Chunk(SizeStart) && Step(v, ch).errno == OK
    ensures Resets(v, ch)
  {
    hide StepHeader, StepResponseLine, StepRequestLine, StepUrl;
    match v.state {
      case Hdr(h) => HeaderSizeStart(v, h, ch);
      case Chunk(_) =>
      case Msg(_) =>
      case _ => LineNoSizeStart(v, ch);
    }
  }

  lemma NothingRun(v: View, c: nat, data: string, p: nat)
    requires p <= |data|
    ensures Run(v, data, p, p) == v && Count(v, c, data, p, p) == c
  {
  }

  // Bytes of a value leave the parser in it, and an end of line does not.
  lemma {:induction false} ValueHolds(v: View, data: string, i: nat, j: nat)
    requires i <= j <= |data| && v.state == Hdr(FieldValue) && !Halted(Run(v, data, i, j))
    requires forall n :: i <= n < j ==> !IsEol(data[n])
    ensures forall n :: i <= n <= j ==> Run(v, data, i, n).state == Hdr(FieldValue)
    decreases j - i
  {
    if i < j {
      hide StepLengthByte, ValueNext, IndexNext, FlagsNext, StepUrl, StepChunk, StepMsg, StepRequestLine;
      var w := Step(v, data[i]);
      assert w.state == v.state && Run(w, data, i + 1, j) == Run(v, data, i, j);
      hide Step;
      ValueHolds(w, data, i + 1, j);
    }
  }

  lemma ValueLeft(v: View, ch: char)
    requires v.state == Hdr(FieldValue) && IsEol(ch)
    ensures Step(v, ch).state != Hdr(FieldValue)
    ensures ch == CR ==> Step(v, ch) == v.(state := Hdr(HeaderAlmostDone))
  {
    hide StepLengthByte, ValueNext, IndexNext, FlagsNext;
  }

  lemma {:induction false} ValueStretch(v0: View, data: string, p: nat, q: nat)
    requires p <= q <= |data| && Entered(v0, data, p)
    requires forall n :: p <= n < q ==> Run(v0, data, 0, n).state == Hdr(FieldValue)
    ensures ValueFrom(v0, data, q) == p
    decreases q
  {
    hide Run;
    if p < q {
      ValueStretch(v0, data, p, q - 1);
    }
  }

  // The loop over a value forgets what it has taken.
  lemma PassForgets(v0: View, n0: nat, data: string, p: nat, before: View, n: nat, q: nat)
    requires Follows(v0, n0, data, p, before, n) && p <= q < |data| && before.state == Hdr(FieldValue)
    requires !Halted(Run(before, data, p, q)) && data[q] == CR && forall j :: p <= j < q ==> !IsEol(data[j])
    ensures Forgotten(v0, data, q + 1) == q - p
  {
    hide Step, Resets, Count, Peak, Run;
    ValueHolds(before, data, p, q);
    forall j | p <= j <= q
      ensures Run(v0, data, 0, j).state == Hdr(FieldValue)
    {
      RunSplit(v0, data, 0, p, j);
    }
    ValueStretch(v0, data, p, q);
  }

  lemma NothingForgotten(v0: View, data: string, n: nat)
    requires n <= |data| && !Halted(Run(v0, data, 0, n)) && Run(v0, data, 0, n).state != Hdr(HeaderAlmostDone)
    ensures Forgotten(v0, data, n) == 0
  {
    if 0 < n && data[n - 1] == CR && Run(v0, data, 0, n - 1).state == Hdr(FieldValue) {
      hide Step;
      RunSplit(v0, data, 0, n - 1, n);
      RunOne(Run(v0, data, 0, n - 1), data, n - 1);
      ValueLeft(Run(v0, data, 0, n - 1), CR);
    }
  }

  lemma ConcludeAgain(v0: View, n0: nat, data: string, p: nat, before: View, n: nat,
                      q: nat, r: nat, w: View, after: View, n': nat)
    requires Follows(v0, n0, data, p, before, n) && (ParsingHeader(before.state) ==> n > 0)
    requires Passed(before, n, data, p, Again, q, r, w, after, n') && after.errno == OK
    ensures Follows(v0, n0, data, q, after, n')
  {
    hide Step, Resets, Run, Count, Peak, Inv, Rank;
    NothingRun(before, Uncounted(before.state, n), data, p);
    FollowOn(v0, n0, data, p, before, n, q, w);
    if p < q {
      CountOn(v0, n0, data, p, before, n, q);
      PeakSplit(before, Uncounted(before.state, n), data, p, q, q + 1);
    }
  }

  lemma ConcludeStep(v0: View, n0: nat, data: string, p: nat, before: View, n: nat,
                     act: Act, q: nat, r: nat, w: View, after: View, n': nat)
    requires Follows(v0, n0, data, p, before, n) && Inv(before) && (ParsingHeader(before.state) ==> n > 0)
    requires Passed(before, n, data, p, act, q, r, w, after, n')
    requires act.Next? || (act.Stop? && after.errno == OK)
    ensures Outcome(v0, n0, data, act, q, after, n') && Sound(after, n')
  {
    hide Step, Resets, Run, Count, Peak, Longest, Inv, Rank, WithByte, Settled, LineEnds, Entered, Interrupted;
    FollowOn(v0, n0, data, p, before, n, q, w);
    RunKeepsInv(before, data, p, q);
    StepKeepsInv(w, data[q]);
    CountOn(v0, n0, data, p, before, n, q + 1);
    CountExtend(before, Uncounted(before.state, n), data, p, q);
    ExtraOnce(v0, n0, data, p, before, n, q, w);
    if after.state == Chunk(SizeStart) {
      SizeStartResets(w, data[q]);
    }
    if act.Next? && q + 1 < |data| && after.state == Hdr(FieldValue) {
      EnteredNext(v0, n0, data, p, before, n, q, r, w, after, n');
    }
  }

  // A pass counts once more what the call counts once more.
  lemma ExtraOnce(v0: View, n0: nat, data: string, p: nat, before: View, n: nat, q: nat, w: View)
    requires Follows(v0, n0, data, p, before, n) && p <= q < |data| && Run(before, data, p, q) == w && !Halted(w)
    ensures Extra(v0, data, q + 1) == Once(w.state, Step(w, data[q]).state, q + 1 == |data|)
  {
    hide Step, Resets, Run, Count, Peak, WithByte, Entered;
    FollowOn(v0, n0, data, p, before, n, q, w);
    NothingRun(before, 0, data, p);
    if Run(v0, data, 0, q).state == Hdr(FieldValue) && w.state != Hdr(FieldValue) {
      ValueLeft(Run(v0, data, 0, q), data[q]);
    }
  }

  // Only a byte that is not in a value leads into one within a buffer.
  lemma EnteredNext(v0: View, n0: nat, data: string, p: nat, before: View, n: nat,
                    q: nat, r: nat, w: View, after: View, n': nat)
    requires Follows(v0, n0, data, p, before, n) && Passed(before, n, data, p, Next, q, r, w, after, n')
    requires after.errno == OK && after.state == Hdr(FieldValue) && q + 1 < |data|
    ensures Entered(v0, data, q + 1)
  {
    hide Step, Resets, Run, Count, Peak, Longest, Inv, Rank, WithByte, Interrupted;
    FollowOn(v0, n0, data, p, before, n, q, w);
    NothingRun(before, 0, data, p);
    if Run(v0, data, 0, q).state == Hdr(FieldValue) && IsEol(data[q]) {
      ValueLeft(Run(v0, data, 0, q), data[q]);
    }
  }

  // A pass reads no head to its end that is longer than the budget.
  lemma LongestOn(v0: View, n0: nat, data: string, p: nat, before: View, n: nat,
                  act: Act, q: nat, r: nat, w: View, after: View, n': nat)
    requires Follows(v0, n0, data, p, before, n) && (ParsingHeader(before.state) ==> n > 0) && n <= MAX_HEADER_SIZE
    requires Passed(before, n, data, p, act, q, r, w, after, n') && after.errno != HeaderOverflow
    ensures Longest(v0, n0, data, 0, q) <= MAX_HEADER_SIZE && Longest(v0, n0, data, 0, q + 1) <= MAX_HEADER_SIZE
    ensures Run(v0, data, 0, q).state != Hdr(FieldValue) ==> Peak(v0, n0, data, 0, q + 1) <= MAX_HEADER_SIZE
    ensures ByCallback(after.errno) ==> Peak(v0, n0, data, 0, q + 1) <= MAX_HEADER_SIZE + Missing(w, p, q, act)
  {
    hide Step, Run, Count, Peak, Longest, Inv, Rank, Stepped, Interrupted, Missing;
    var c := Uncounted(before.state, n);
    FollowOn(v0, n0, data, p, before, n, q, w);
    CountOn(v0, n0, data, p, before, n, q + 1);
    CountExtend(before, c, data, p, q);
    CountExtend(v0, n0, data, 0, q);
  }

  // A name or value is left at its end.
  lemma TextLeft(v: View, ch: char)
    requires v.errno == OK
    ensures v.state == Hdr(FieldValue) && IsEol(ch) ==> Step(v, ch).state != v.state
    ensures v.state == Hdr(FieldName) && !IsToken(ch) && Step(v, ch).errno == OK ==> Step(v, ch).state != v.state
  {
    hide StepLengthByte, ValueNext, IndexNext, FlagsNext, NameNext, Token;
  }

  // A callback stops a pass after the byte at q,
  lemma InterruptAfter(v0: View, n0: nat, data: string, p: nat, before: View, n: nat,
                       q: nat, r: nat, w: View, after: View, n': nat)
    requires Follows(v0, n0, data, p, before, n) && (ParsingHeader(before.state) ==> n > 0) && n <= MAX_HEADER_SIZE
    requires Passed(before, n, data, p, Stop(q + 1), q, r, w, after, n') && ByCallback(after.errno)
    ensures StopsAfter(v0, n0, data, q + 1, after.(errno := OK), n')
  {
    hide Step, Run, Count, Peak, Longest, Inv, Rank, Forgotten;
    FollowOn(v0, n0, data, p, before, n, q, w);
    LongestOn(v0, n0, data, p, before, n, Stop(q + 1), q, r, w, after, n');
    CountOn(v0, n0, data, p, before, n, q + 1);
    ExtraOnce(v0, n0, data, p, before, n, q, w);
    TextLeft(w, data[q]);
    if w.state == Hdr(FieldValue) {
      PassForgets(v0, n0, data, p, before, n, q);
    } else {
      NothingForgottenAt(v0, n0, data, p, before, n, q, w);
    }
  }

  lemma NothingForgottenAt(v0: View, n0: nat, data: string, p: nat, before: View, n: nat, q: nat, w: View)
    requires Follows(v0, n0, data, p, before, n) && p <= q < |data| && Run(before, data, p, q) == w && !Halted(w)
    requires w.state != Hdr(FieldValue)
    ensures Forgotten(v0, data, q + 1) == 0
  {
    hide Step, Resets, Count, Peak;
    FollowOn(v0, n0, data, p, before, n, q, w);
    NothingRun(before, 0, data, p);
  }

  // or before it, and then it has been counted.
  lemma InterruptBefore(v0: View, n0: nat, data: string, p: nat, before: View, n: nat,
                        q: nat, r: nat, w: View, after: View, n': nat)
    requires Follows(v0, n0, data, p, before, n) && (ParsingHeader(before.state) ==> n > 0) && n <= MAX_HEADER_SIZE
    requires Passed(before, n, data, p, Stop(q), q, r, w, after, n') && ByCallback(after.errno)
    ensures StopsBefore(v0, n0, data, q, after.(errno := OK), n')
  {
    hide Step, Run, Count, Peak, Longest, Inv, Rank, Forgotten, Resets;
    FollowOn(v0, n0, data, p, before, n, q, w);
    LongestOn(v0, n0, data, p, before, n, Stop(q), q, r, w, after, n');
    NothingRun(before, Uncounted(before.state, n), data, p);
    if p < q {
      CountOn(v0, n0, data, p, before, n, q);
    }
  }

  lemma ConcludeInterrupt(v0: View, n0: nat, data: string, p: nat, before: View, n: nat,
                          act: Act, q: nat, r: nat, w: View, after: View, n': nat)
    requires Follows(v0, n0, data, p, before, n) && Inv(before) && (ParsingHeader(before.state) ==> n > 0)
    requires n <= MAX_HEADER_SIZE && Passed(before, n, data, p, act, q, r, w, after, n')
    requires act.Stop? && ByCallback(after.errno)
    ensures Outcome(v0, n0, data, act, q, after, n') && Sound(after, n')
  {
    hide Step, Resets, Run, Count, Peak, Longest, Inv, Rank, WithByte, Interrupted, Forgotten, LineEnds, Missing;
    hide Follows, StopsAfter, StopsBefore;
    if act.n == q + 1 {
      InterruptAfter(v0, n0, data, p, before, n, q, r, w, after, n');
      RunKeepsInv(before, data, p, q);
      StepKeepsInv(w, data[q]);
      if after.state == Chunk(SizeStart) {
        SizeStartResets(w, data[q]);
      }
    } else {
      InterruptBefore(v0, n0, data, p, before, n, q, r, w, after, n');
    }
  }

  lemma FollowTo(v0: View, n0: nat, data: string, p: nat, before: View, nread: nat, r: nat)
    requires Follows(v0, n0, data, p, before, nread) && p < r <= |data|
    ensures Run(v0, data, 0, r) == Run(before, data, p, r)
  {
    hide Step, Resets, ParsingHeader, WithByte, Count, Peak, Halted;
    RunSameStep(before, Run(v0, data, 0, p), data, p, r);
    RunSplit(v0, data, 0, p, r);
  }

  // A byte of a name or value leaves the parser in it.
  lemma TextByte(v: View, ch: char)
    requires InText(v.state) && OfText(v.state, ch)
    ensures Step(v, ch).state == v.state && ParsingHeader(v.state) && !Resets(v, ch)
  {
    hide StepLengthByte, ValueNext, IndexNext, FlagsNext, NameNext, StepUrl, StepChunk, StepMsg, StepRequestLine;
    hide Counts, Token;
    if v.state == Hdr(FieldValue) && v.hstate.ContentLength? {
      LengthByteStays(v, ch);
    }
  }

  lemma LengthByteStays(v: View, ch: char)
    ensures StepLengthByte(v, ch).state == v.state
  {
  }

  // The bytes of a name or value count one each.
  lemma {:induction false} TextCounts(v: View, c: nat, data: string, i: nat, j: nat)
    requires i <= j <= |data| && !Halted(Run(v, data, i, j)) && InText(v.state)
    requires forall n :: i <= n < j ==> OfText(v.state, data[n])
    ensures Run(v, data, i, j).state == v.state && Count(v, c, data, i, j) == c + (j - i)
    ensures Peak(v, c, data, i, j) == if i < j then c + (j - i) else 0
    decreases j - i
  {
    hide Step, Resets, OfText, Halted;
    if i < j {
      TextByte(v, data[i]);
      TextCounts(Step(v, data[i]), c + 1, data, i + 1, j);
    }
  }

  lemma StillRuns(v: View, data: string, i: nat, j: nat, k: nat)
    requires i <= j <= k <= |data| && !Halted(Run(v, data, i, k))
    ensures !Halted(Run(v, data, i, j))
  {
    hide Step;
    RunSplit(v, data, i, j, k);
  }

  // The byte of a name or value that exceeds the budget.
  lemma ExceedsText(v0: View, n0: nat, data: string, p: nat, before: View, n: nat, q: nat, r: nat) returns (x: nat)
    requires Follows(v0, n0, data, p, before, n) && 0 < n <= MAX_HEADER_SIZE && p < r
    requires TextTo(before.state, data, p, r, q)
    requires !Halted(Run(before, data, p, r)) && Count(before, n - 1, data, p, r) + 1 > MAX_HEADER_SIZE
    ensures x <= r && Exceeds(v0, n0, data, x) && TextTo(Run(v0, data, 0, x).state, data, x, r, q)
  {
    hide Step, Resets, Run, Count, Peak, Longest, OfText, Halted, Settled;
    TextCounts(before, n - 1, data, p, r);
    x := p + (MAX_HEADER_SIZE - (n - 1));
    StillRuns(before, data, p, x, r);
    TextCounts(before, n - 1, data, p, x);
    CountOn(v0, n0, data, p, before, n, x);
    FollowTo(v0, n0, data, p, before, n, x);
    if x < |data| {
      CountExtend(v0, n0, data, 0, x);
    }
  }

  lemma ConcludeError(v0: View, n0: nat, data: string, p: nat, before: View, n: nat,
                      act: Act, q: nat, r: nat, w: View, after: View, n': nat)
    requires Follows(v0, n0, data, p, before, n) && (ParsingHeader(before.state) ==> n > 0) && n <= MAX_HEADER_SIZE
    requires Passed(before, n, data, p, act, q, r, w, after, n')
    requires act.Stop? && !Healthy(after.errno)
    ensures Outcome(v0, n0, data, act, q, after, n')
  {
    hide Step, Resets, Run, Count, Peak, Longest, Inv, Rank, WithByte, Interrupted, OfText;
    if after.errno == HeaderOverflow {
      CountOn(v0, n0, data, p, before, n, r);
      FollowTo(v0, n0, data, p, before, n, r);
      var x := ExceedsText(v0, n0, data, p, before, n, q, r);
      hide Overrun, Exceeds;
      assert OverranAt(v0, n0, data, q, r, x, after);
    } else {
      FollowOn(v0, n0, data, p, before, n, q, w);
      LongestOn(v0, n0, data, p, before, n, act, q, r, w, after, n');
    }
  }

  // What a pass adds to what the call has done.
  lemma Conclude(v0: View, n0: nat, data: string, p: nat, before: View, n: nat,
                 act: Act, q: nat, r: nat, w: View, after: View, n': nat)
    requires Follows(v0, n0, data, p, before, n) && Inv(before) && (ParsingHeader(before.state) ==> n > 0)
    requires n <= MAX_HEADER_SIZE && Passed(before, n, data, p, act, q, r, w, after, n')
    ensures Outcome(v0, n0, data, act, q, after, n')
    ensures !act.Again? ==> Sound(after, n')
    ensures p <= q && (act.Next? ==> q < |data| && !Halted(after))
    ensures act.Stop? && !Healthy(after.errno) ==> act.n == q
    ensures r <= q && (after.errno != HeaderOverflow ==> r == q)
    ensures act.Stop? || after.errno == OK
    ensures act.Stop? && after.errno == OK ==> after.app.left
    ensures act.Again? ==>
              && q < |data| && !Halted(after) && Inv(after) && n' <= MAX_HEADER_SIZE
              && after.state != Chunk(SizeStart) && (ParsingHeader(after.state) ==> n' > 0)
              && (q == p ==> Rank(after.state) < Rank(before.state))
              && Follows(v0, n0, data, q, after, n')
  {
    hide Step, Resets, Run, Count, Peak, Longest, Follows, Inv, Tallied, Rank, StopsAfter, StopsBefore, OverranAt;
    if act.Again? {
      ConcludeAgain(v0, n0, data, p, before, n, q, r, w, after, n');
    } else if act.Next? || after.errno == OK {
      ConcludeStep(v0, n0, data, p, before, n, act, q, r, w, after, n');
    } else if ByCallback(after.errno) {
      ConcludeInterrupt(v0, n0, data, p, before, n, act, q, r, w, after, n');
    } else {
      ConcludeError(v0, n0, data, p, before, n, act, q, r, w, after, n');
    }
  }

  // nread is zero between two bytes when the first digit of a chunk size is to come,
  lemma SizeStartCounts(v0: View, n0: nat, data: string, p: nat)
    requires p <= |data| && !Halted(Run(v0, data, 0, p)) && Run(v0, data, 0, p).state == Chunk(SizeStart)
    requires v0.state == Chunk(SizeStart) ==> n0 == 0
    ensures Count(v0, n0, data, 0, p) == 0
  {
    hide Step, Resets;
    if p > 0 {
      RunSplit(v0, data, 0, p - 1, p);
      RunExtend(v0, data, 0, p - 1);
      CountExtend(v0, n0, data, 0, p - 1);
      SizeStartResets(Run(v0, data, 0, p - 1), data[p - 1]);
    }
  }

  // so that none of the assertions of http_parser_execute fails in a pass of a call.
  lemma AssertionsMet(v0: View, n0: nat, data: string, p: nat, before: View, nread: nat)
    requires Follows(v0, n0, data, p, before, nread) && Inv(before)
    requires v0.state == Chunk(SizeStart) ==> n0 == 0
    ensures Asserted(before, nread)
  {
    hide Step, Resets, Run, Count, Peak, Inv, Held;
    if before.state == Chunk(SizeStart) {
      SizeStartCounts(v0, n0, data, p);
    }
    AssertionsHold(before, nread);
  }

  // The application calls again: whatever made the last call leave is over.
  function Opened(v: View): View { v.(app := v.app.(left := false)) }

  lemma SoundOpened(v: View, n: nat)
    requires Sound(v, n)
    ensures Sound(Opened(v), n)
  {
  }

  // A call with an empty buffer says that the input ends here. on_message_complete may stop it too.
  predicate Ended(v: View, n: nat, after: View) {
    && after.(errno := EndInput(v).errno) == EndInput(v)
    && (after.errno == EndInput(v).errno || (v.state == Msg(IdentityEof) && ByCallback(after.errno)))
    && n == if EndInput(v).errno == OK then 0 else 1
  }

  // The whole contract of one call with a non-empty buffer: it began with v0 and the count n0, returned
  // n, and left after and the count n'. A complete call took every byte. Otherwise it left because of an
  // upgrade, or a callback stopped it, or it found the error the one-byte parser finds at n, or the
  // header budget is exceeded.
  ghost predicate Called(v0: View, n0: nat, data: string, n: nat, after: View, n': nat) {
    if after.errno.OK? && !after.app.left then
      n == |data| && Feed(v0, data) == after && Tallied(v0, n0, data, n, n')
    else
      Outcome(v0, n0, data, Stop(n), n, after, n')
  }

  // A call whose callbacks all answer 0 ends where the one-byte parser ends, unless the header budget is
  // exceeded.
  lemma Undisturbed(v0: View, n0: nat, data: string, n: nat, after: View, n': nat,
                    replies: nat -> Reply, was: seq<Event>, t0: Trace, now: seq<Event>, t1: Trace)
    requires Called(v0, n0, data, n, after, n')
    requires Answered(replies, was, t0, now, t1, after.errno) && Zeros(replies, |was|, |now|)
    ensures after.errno != HeaderOverflow ==> Feed(v0, data) == after
    ensures after.errno == OK && !after.app.left ==> n == |data|
    ensures after.errno == HeaderOverflow ==> exists x: nat :: Exceeds(v0, n0, data, x)
  {
    hide Step, Resets, Count, Peak, Longest, Answered, Zeros, Overrun;
    ZerosGoOn(replies, was, t0, now, t1, after.errno);
    if after.errno != HeaderOverflow {
      var k := if after.errno == OK then n else n + 1;
      RunSplit(v0, data, 0, k, |data|);
    }
  }

  // The marks a call sets on entry.
  function OpenMarks(s: ParseState): Marks {
    match RunKind(s)
    case None => NO_MARKS
    case Some(k) =>
      match k
      case Url => NO_MARKS.(url := Some(0))
      case Field => NO_MARKS.(field := Some(0))
      case Value => NO_MARKS.(val := Some(0))
      case Status => NO_MARKS.(status := Some(0))
      case Body => NO_MARKS
  }

  lemma OpenMarksRight(v: View, n: nat, data: string)
    requires Sound(v, n) && v.errno == OK
    ensures MarksOk(OpenMarks(v.state), v.state, 0) && OpenMarks(v.state).body.None?
    ensures Pending(v.trace, OpenMarks(v.state), data, 0) == v.trace
  {
    if RunKind(v.state).Some? {
      EmitNothing(v.trace, RunKind(v.state).value);
      assert Slice(data, 0, 0) == [];
    }
  }

  // Between two bytes.
  predicate Between(v0: View, n0: nat, data: string, p: nat, now: View, n: nat) {
    && p <= |data| && !Halted(now) && Run(v0, data, 0, p) == now
    && Tallied(v0, n0, data, p, n) && Sound(now, n)
    && (p < |data| && now.state == Hdr(FieldValue) ==> Entered(v0, data, p))
  }

  lemma Begin(v0: View, n0: nat, data: string)
    requires !Halted(v0) && Sound(v0, n0)
    ensures Between(v0, n0, data, 0, v0, n0)
  {
  }

  lemma CountByte(v0: View, n0: nat, data: string, p: nat, now: View, n: nat)
    requires p < |data| && Between(v0, n0, data, p, now, n)
    ensures WithByte(now, n) <= MAX_HEADER_SIZE ==> Follows(v0, n0, data, p, now, WithByte(now, n))
    ensures !Halted(now) && Inv(now) && n <= MAX_HEADER_SIZE && (now.state == Chunk(SizeStart) ==> n == 0)
  {
    hide Step, Resets, Run, Count, Peak, Inv;
  }

  lemma Onward(v0: View, n0: nat, data: string, q: nat, after: View, n: nat)
    requires Outcome(v0, n0, data, Next, q, after, n) && Sound(after, n)
    ensures Between(v0, n0, data, q + 1, after, n)
  {
    hide Step, Resets, Run, Count, Peak, Inv;
  }

  lemma Overflowed(v0: View, n0: nat, data: string, p: nat, now: View, n: nat)
    requires p < |data| && Between(v0, n0, data, p, now, n) && WithByte(now, n) > MAX_HEADER_SIZE
    ensures Called(v0, n0, data, p, now.(errno := HeaderOverflow), WithByte(now, n))
  {
    hide Step, Resets, Run, Count, Peak, Longest, Inv;
    CountExtend(v0, n0, data, 0, p);
    LongestBelowPeak(v0, n0, data, 0, p);
    assert OverranAt(v0, n0, data, p, p, p, now.(errno := HeaderOverflow));
  }

  lemma Unsound(v: View, n: nat)
    requires !Healthy(v.errno)
    ensures Sound(v, n)
  {
  }

  lemma Stopped(v0: View, n0: nat, data: string, act: Act, q: nat, after: View, n: nat)
    requires act.Stop? && Outcome(v0, n0, data, act, q, after, n)
    ensures Called(v0, n0, data, act.n, after, n)
  {
    hide Step, Resets, Run, Count, Peak, Inv, Tallied, Longest, StopsAfter, StopsBefore, OverranAt;
  }

  // The last callbacks of a call hand over the marked bytes.
  lemma Finish(v0: View, n0: nat, data: string, now: View, n: nat, after: View)
    requires Between(v0, n0, data, |data|, now, n) && after.(errno := OK) == now && Healthy(after.errno)
    requires after.errno != OK ==> now.state != Hdr(HeaderAlmostDone)
    ensures Called(v0, n0, data, |data|, after, n) && Sound(after, n)
  {
    assert Run(now, data, |data|, |data|) == now;
    hide Step, Resets, Run, Count, Peak, Longest, Inv;
    LongestBelowPeak(v0, n0, data, 0, |data|);
    if after.errno != OK {
      NothingForgotten(v0, data, |data|);
    }
  }
}
