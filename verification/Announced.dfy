// No head longer than the header budget is announced, and the one pause that lets such a head through.
module Announced {
  import opened Chars
  import opened Types
  import opened Events
  import opened Views
  import opened StartLine
  import opened Headers
  import opened Body
  import opened Machine
  import opened Runs
  import opened Budget
  import opened Steps
  import opened Calls
  import opened Sessions
  import opened Allowance

  // How often on_headers_complete was called.
  function Announcements(t: Trace): nat {
    if t.Silence? then 0 else Announcements(t.before) + if t.last.HeadersComplete? then 1 else 0
  }

  lemma EmitAnnounces()
    ensures forall t, e {:trigger Emit(t, e)} ::
              Announcements(Emit(t, e)) == Announcements(t) + if e.HeadersComplete? then 1 else 0
  {
  }

  // on_headers_complete is called at a byte that resets nread, and nowhere else.
  lemma StepAnnounces(v: View, ch: char)
    ensures Announcements(v.trace) <= Announcements(Step(v, ch).trace)
    ensures !Resets(v, ch) ==> Announcements(v.trace) == Announcements(Step(v, ch).trace)
  {
    hide StepResponseLine, StepRequestLine, StepUrl, StepHeader, StepChunk, StepMsg, Announcements;
    match v.state {
      case Msg(_) => BodyAnnounces(v, ch);
      case Chunk(_) => BodyAnnounces(v, ch);
      case Hdr(h) => HeaderAnnounces(v, h, ch);
      case _ => LineAnnounces(v, ch);
    }
  }

  lemma BodyAnnounces(v: View, ch: char)
    requires v.state.Msg? || v.state.Chunk?
    ensures Announcements(v.trace) <= Announcements(Step(v, ch).trace)
    ensures !Resets(v, ch) ==> Announcements(v.trace) == Announcements(Step(v, ch).trace)
  {
    hide Announcements, Emit, StepResponseLine, StepRequestLine, StepUrl, StepHeader, Wrap64, Unhex, NewMessage;
    hide HeadOf, NeedsEof;
    EmitAnnounces();
  }

  lemma HeadEndAnnounces(v: View, ch: char)
    ensures var w := StepHeadersAlmostDone(v.(state := Msg(HeadersAlmostDone)), ch);
            && Announcements(v.trace) <= Announcements(w.trace)
            && (ch != LF || v.flags.trailing ==> Announcements(v.trace) == Announcements(w.trace))
  {
    hide StepHeadersAlmostDone, Announcements;
    var w := v.(state := Msg(HeadersAlmostDone));
    BodyAnnounces(w, ch);
    assert Step(w, ch) == StepHeadersAlmostDone(w, ch);
  }

  lemma HeaderAnnounces(v: View, h: HdrState, ch: char)
    requires v.state == Hdr(h)
    ensures Announcements(v.trace) <= Announcements(StepHeader(v, h, ch).trace)
    ensures !Resets(v, ch) ==> Announcements(v.trace) == Announcements(StepHeader(v, h, ch).trace)
  {
    hide Announcements, Emit, StepHeadersAlmostDone, NameNext, Token, Counts, ValueNext, FlagsNext, IndexNext, Wrap64;
    hide Digit, Lower, FirstValueState, NameStart;
    EmitAnnounces();
    HeadEndAnnounces(v, ch);
    HeadEndAnnounces(v.(flags := Mark(v.flags, v.hstate)), ch);
    HeadEndAnnounces(Tell(v.(flags := Mark(v.flags, v.hstate)), Data(Events.Value, [])), ch);
  }

  lemma LineAnnounces(v: View, ch: char)
    requires v.state.Dead? || v.state.Res? || v.state.Req? || v.state.InUrl?
    ensures Announcements(v.trace) == Announcements(Step(v, ch).trace)
  {
    hide Announcements, Emit, StepHeader, StepChunk, StepMsg, FirstMethod, Retarget, Expected, Digit, ParseUrlChar;
    EmitAnnounces();
  }

  lemma {:induction false} RunAnnounces(v: View, data: string, i: nat, j: nat)
    requires i <= j <= |data|
    ensures Announcements(v.trace) <= Announcements(Run(v, data, i, j).trace)
    decreases j - i
  {
    hide Step, Resets, Announcements;
    if i < j && !Halted(v) {
      StepAnnounces(v, data[i]);
      RunAnnounces(Step(v, data[i]), data, i + 1, j);
    }
  }

  // Once more than bound has been read no head is announced, if nread is reset from at most that.
  lemma {:induction false} Unannounced(v: View, c: nat, data: string, i: nat, j: nat, bound: nat)
    requires i <= j <= |data| && WithByte(v, c) > bound && Longest(v, c, data, i, j) <= bound
    ensures Announcements(Run(v, data, i, j).trace) == Announcements(v.trace)
    decreases j - i
  {
    hide Step, Resets, ParsingHeader, Announcements;
    if i < j && !Halted(v) {
      StepAnnounces(v, data[i]);
      Unannounced(Step(v, data[i]), CountNext(v, c, data[i]), data, i + 1, j, bound);
    }
  }

  // data[i..i + k] are bytes of one head, which v reads from i on; the last of them may end it.
  predicate InHead(v: View, data: string, i: nat, k: nat) {
    && i + k <= |data|
    && (forall b :: i <= b < i + k ==> !Halted(Run(v, data, i, b)) && ParsingHeader(Run(v, data, i, b).state))
    && (forall b :: i <= b < i + k - 1 ==> !Resets(Run(v, data, i, b), data[b]))
  }

  lemma {:induction false} HeadCounts(v: View, n: nat, data: string, i: nat, k: nat)
    requires k > 0 && InHead(v, data, i, k)
    ensures Count(v, n, data, i, i + k - 1) == n + k - 1
    ensures Announcements(Run(v, data, i, i + k - 1).trace) == Announcements(v.trace)
    decreases k
  {
    hide Step, Resets, ParsingHeader, Announcements;
    if k > 1 {
      HeadCounts(v, n, data, i, k - 1);
      CountExtend(v, n, data, i, i + k - 2);
      RunExtend(v, data, i, i + k - 2);
      StepAnnounces(Run(v, data, i, i + k - 2), data[i + k - 2]);
    }
  }

  lemma HeadTooLong(v: View, n: nat, data: string, i: nat, k: nat, e: nat, bound: nat)
    requires k > 0 && InHead(v, data, i, k) && n + k > bound
    requires i <= e <= |data| && Longest(v, n, data, i, e) <= bound
    ensures Announcements(Run(v, data, i, e).trace) == Announcements(v.trace)
  {
    hide Step, Run, Count, Longest, Resets, Announcements;
    if e < i + k {
      HeadCounts(v, n, data, i, e - i + 1);
    } else {
      HeadCounts(v, n, data, i, k);
      LongestSplit(v, n, data, i, i + k - 1, e);
      RunSplit(v, data, i, i + k - 1, e);
      Unannounced(Run(v, data, i, i + k - 1), n + k - 1, data, i + k - 1, e, bound);
    }
  }

  // A point of the run over the input of a call up to which no head was too long, and by which as many
  // heads had been announced as in the call.
  lemma CallReaches(v: View, input: string, c: Call) returns (e: nat)
    requires IsCall(v, input, c) && !v.app.left
    ensures e <= |input| && Longest(v, c.n0, input, 0, e) <= MAX_HEADER_SIZE
    ensures Announcements(c.after.trace) <= Announcements(Run(v, input, 0, e).trace)
  {
    hide Step, Run, Count, Peak, Longest, Forgotten, Announcements, Resets;
    assert Opened(v) == v;
    if c.after.errno == HeaderOverflow {
      var r: nat, x: nat :| OverranAt(v, c.n0, c.data, c.n, r, x, c.after);
      e := r;
    } else if ByCallback(c.after.errno) && StopsAfter(v, c.n0, c.data, c.n, Resumed(c.after), c.n1) {
      e := c.n;
    } else if ByCallback(c.after.errno) {
      e := c.n + 1;
      LongestBelowPeak(v, c.n0, c.data, 0, e);
      RunExtend(v, c.data, 0, c.n);
      StepAnnounces(Resumed(c.after), c.data[c.n]);
    } else {
      e := if Healthy(c.after.errno) then c.n else c.n + 1;
      LongestBelowPeak(v, c.n0, c.data, 0, e);
    }
    assert input[0..e] == c.data[0..e];
    Moved(v, c.n0, input, 0, e, c.data, 0);
  }

  // The same after a session, by the parser that was never stopped: by the point e it has announced as many
  // heads, and none that began at j or later was longer than the budget and the bytes forgotten since j.
  lemma SessionReaches(v: View, n: nat, input: string, calls: seq<Call>, j: nat, m: nat) returns (e: nat)
    requires Session(v, input, calls) && Chained(n, calls) && !v.app.left && Taken(calls) + m <= |input|
    requires j <= |input| && Starts(v, input, j)
    requires Longest(Last(v, calls), Nread(n, calls), input[Taken(calls)..], 0, m) <= MAX_HEADER_SIZE
    ensures e <= |input|
    ensures Announcements(Run(Last(v, calls), input[Taken(calls)..], 0, m).trace) <=
            Announcements(Run(v, input, 0, e).trace)
    ensures j <= e ==> Longest(Run(v, input, 0, j), Count(v, n, input, 0, j), input, j, e) <=
                       MAX_HEADER_SIZE + Lost(v, calls, j)
  {
    hide Step, Run, Count, Peak, Longest, Called, Session, Announcements, Resets, Lost, Late, Starts, Beside, Held;
    var t, w := Taken(calls), Last(v, calls);
    FromStart(v, input);
    SessionAt(v, n, input, calls, 0, t);
    Standing(w, Nread(n, calls), input[t..]);
    if m == 0 && w != Run(v, input, 0, t) {
      e := HeldReaches(v, n, input, calls, j);
    } else {
      e := t + m;
      SessionRuns(v, n, input, calls, m);
      if j <= t {
        LongestAcross(v, n, input, calls, j, m);
      } else if j <= e {
        LongestWithin(v, n, input, calls, j, m);
      }
    }
  }

  lemma SessionRuns(v: View, n: nat, input: string, calls: seq<Call>, m: nat)
    requires Session(v, input, calls) && Chained(n, calls) && !v.app.left && Taken(calls) + m <= |input|
    requires m > 0 || Last(v, calls) == Run(v, input, 0, Taken(calls))
    ensures Run(Last(v, calls), input[Taken(calls)..], 0, m) == Run(v, input, 0, Taken(calls) + m)
  {
    hide Step, Run, Count, Peak, Longest, Called, Session, Resets, Lost, Late, Starts, Beside, Held;
    var t, w, c := Taken(calls), Last(v, calls), Nread(n, calls);
    var rest, u, d := input[t..], Run(v, input, 0, t), Count(v, n, input, 0, t);
    FromStart(v, input);
    SessionAt(v, n, input, calls, 0, t);
    Standing(w, c, rest);
    BesideMoves(u, d, w, c, input, t, 0, Lost(v, calls, 0), Late(calls, 0));
    BesideOn(u, d, w, c, rest, 0, m, Lost(v, calls, 0), Late(calls, 0));
    Later(v, n, input, t, t + m);
  }

  // The last byte of the session is seen again.
  lemma HeldReaches(v: View, n: nat, input: string, calls: seq<Call>, j: nat) returns (e: nat)
    requires Session(v, input, calls) && Chained(n, calls) && !v.app.left && Taken(calls) <= |input|
    requires j <= |input| && Starts(v, input, j) && Last(v, calls) != Run(v, input, 0, Taken(calls))
    ensures Taken(calls) < e <= |input|
    ensures Announcements(Last(v, calls).trace) <= Announcements(Run(v, input, 0, e).trace)
    ensures j <= e ==> Longest(Run(v, input, 0, j), Count(v, n, input, 0, j), input, j, e) <=
                       MAX_HEADER_SIZE + Lost(v, calls, j)
  {
    hide Step, Run, Count, Peak, Longest, Called, Session, Announcements, Resets, Lost, Late, Starts;
    var t, w := Taken(calls), Last(v, calls);
    var u, d := Run(v, input, 0, t), Count(v, n, input, 0, t);
    e := t + 1;
    FromStart(v, input);
    SessionAt(v, n, input, calls, 0, t);
    Standing(w, Nread(n, calls), input[t..]);
    Standing(v, n, input);
    assert Held(u, w, input[t]);
    StepAnnounces(w, input[t]);
    RunExtend(v, input, 0, t);
    if j <= t {
      NreadBound(v, n, calls, input);
      SessionAt(v, n, input, calls, j, t);
      LongestBefore(v, n, input, calls, j);
      Resplit(v, n, input, j, t);
      CountExtend(Run(v, input, 0, j), Count(v, n, input, 0, j), input, j, t);
    } else {
      NoLongest(Run(v, input, 0, j), Count(v, n, input, 0, j), input, j);
    }
  }

  lemma {:induction false} NreadBound(v: View, n: nat, calls: seq<Call>, input: string)
    requires Session(v, input, calls) && Chained(n, calls) && !v.app.left && |calls| > 0
    ensures Nread(n, calls) <= MAX_HEADER_SIZE
    decreases |calls|
  {
    hide Called, Run, Count, Peak, Longest, Beside;
    CallBeside(v, input, calls[0]);
    if |calls| > 1 {
      NreadBound(Resumed(calls[0].after), calls[0].n1, calls[1..], input[calls[0].n..]);
    }
  }

  lemma NoLongest(v: View, n: nat, data: string, i: nat)
    requires i <= |data|
    ensures Longest(v, n, data, i, i) == 0
  {
  }

  lemma LongestBefore(v: View, n: nat, input: string, calls: seq<Call>, j: nat)
    requires Session(v, input, calls) && Chained(n, calls) && !v.app.left && Taken(calls) <= |input|
    requires j <= Taken(calls) && Starts(v, input, j)
    ensures Longest(Run(v, input, 0, j), Count(v, n, input, 0, j), input, j, Taken(calls)) <=
            MAX_HEADER_SIZE + Lost(v, calls, j)
  {
    hide Run, Count, Peak, Longest, Called, Session, Lost, Late, Starts;
    NreadTallies(v, n, input, calls, j);
    LongestBelowPeak(Run(v, input, 0, j), Count(v, n, input, 0, j), input, j, Taken(calls));
  }

  // A head that began in the session and one more call,
  lemma LongestAcross(v: View, n: nat, input: string, calls: seq<Call>, j: nat, m: nat)
    requires Session(v, input, calls) && Chained(n, calls) && !v.app.left && Taken(calls) + m <= |input|
    requires j <= Taken(calls) && Starts(v, input, j)
    requires Longest(Last(v, calls), Nread(n, calls), input[Taken(calls)..], 0, m) <= MAX_HEADER_SIZE
    ensures Longest(Run(v, input, 0, j), Count(v, n, input, 0, j), input, j, Taken(calls) + m) <=
            MAX_HEADER_SIZE + Lost(v, calls, j)
  {
    hide Step, Run, Count, Peak, Longest, Called, Session, Resets, Lost, Late, Starts, Beside, Held;
    var t, w, c := Taken(calls), Last(v, calls), Nread(n, calls);
    var rest, u, d := input[t..], Run(v, input, 0, t), Count(v, n, input, 0, t);
    LongestBefore(v, n, input, calls, j);
    Resplit(v, n, input, j, t);
    LongestSplit(Run(v, input, 0, j), Count(v, n, input, 0, j), input, j, t, t + m);
    SessionAt(v, n, input, calls, j, t);
    Standing(w, c, rest);
    BesideMoves(u, d, w, c, input, t, 0, Lost(v, calls, j), Late(calls, j));
    BesideOn(u, d, w, c, rest, 0, m, Lost(v, calls, j), Late(calls, j));
    assert input[t..t + m] == rest[0..m];
    Moved(u, d, input, t, t + m, rest, 0);
  }

  // and one that began in that call.
  lemma LongestWithin(v: View, n: nat, input: string, calls: seq<Call>, j: nat, m: nat)
    requires Session(v, input, calls) && Chained(n, calls) && !v.app.left
    requires Taken(calls) < j <= Taken(calls) + m <= |input| && Starts(v, input, j)
    requires Longest(Last(v, calls), Nread(n, calls), input[Taken(calls)..], 0, m) <= MAX_HEADER_SIZE
    ensures Longest(Run(v, input, 0, j), Count(v, n, input, 0, j), input, j, Taken(calls) + m) <= MAX_HEADER_SIZE
  {
    hide Step, Run, Count, Peak, Longest, Called, Session, Resets, Lost, Late, Starts, Beside, Held;
    var t, w, c := Taken(calls), Last(v, calls), Nread(n, calls);
    var rest, u, d := input[t..], Run(v, input, 0, t), Count(v, n, input, 0, t);
    FromStart(v, input);
    SessionAt(v, n, input, calls, 0, t);
    Standing(w, c, rest);
    BesideMoves(u, d, w, c, input, t, 0, Lost(v, calls, 0), Late(calls, 0));
    StartsLater(v, input, t, j);
    BesideReset(u, d, w, c, rest, j - t, m, Lost(v, calls, 0), Late(calls, 0));
    Later(v, n, input, t, j);
    LongestSplit(w, c, rest, 0, j - t, m);
    assert input[j..t + m] == rest[j - t..m];
    Moved(Run(v, input, 0, j), Count(v, n, input, 0, j), input, j, t + m, rest, j - t);
  }

  // No head is announced that is longer than the budget and the bytes forgotten since nread was last reset
  // before it: wherever in the input the head is, however the input was cut, wherever callbacks paused the
  // parser, and whatever the last call ended with.
  lemma NoLongHead(v: View, n: nat, input: string, calls: seq<Call>, c: Call, i: nat, k: nat)
    requires Session(v, input, calls) && Chained(n, calls) && !v.app.left && Taken(calls) <= |input|
    requires IsCall(Last(v, calls), input[Taken(calls)..], c) && c.n0 == Nread(n, calls)
    requires 0 < k && i <= |input| && InHead(Run(v, input, 0, i), input, i, k)
    requires Count(v, n, input, 0, i) + k > MAX_HEADER_SIZE + Lost(v, calls, LastReset(v, input, i))
    ensures Announcements(c.after.trace) <= Announcements(Run(v, input, 0, i).trace)
  {
    hide Run, Count, Longest, Called, Session, Announcements, InHead, Lost, LastReset, Starts;
    SessionFeeds(v, input, calls);
    var j := LastReset(v, input, i);
    var m := CallReaches(Last(v, calls), input[Taken(calls)..], c);
    var e := SessionReaches(v, n, input, calls, j, m);
    if e <= i {
      RunSplit(v, input, 0, e, i);
      RunAnnounces(Run(v, input, 0, e), input, e, i);
    } else {
      Resplit(v, n, input, j, i);
      LongestSplit(Run(v, input, 0, j), Count(v, n, input, 0, j), input, j, i, e);
      RunSplit(v, input, 0, i, e);
      HeadTooLong(Run(v, input, 0, i), Count(v, n, input, 0, i), input, i, k, e,
                  MAX_HEADER_SIZE + Lost(v, calls, j));
    }
  }

  // Bytes that leave the parser inside a value count one each.
  lemma {:induction false} ValueCounts(v: View, c: nat, data: string, i: nat, j: nat)
    requires i <= j <= |data| && !Halted(Run(v, data, i, j))
    requires forall b :: i <= b < j ==> Run(v, data, i, b).state == Hdr(FieldValue)
    ensures Count(v, c, data, i, j) == c + (j - i)
    decreases j - i
  {
    hide Step, Resets;
    if i < j {
      RunSplit(v, data, i, j - 1, j);
      ValueCounts(v, c, data, i, j - 1);
      CountExtend(v, c, data, i, j - 1);
      InValueCounts(Run(v, data, i, j - 1), data[j - 1]);
    }
  }

  lemma InValueCounts(v: View, ch: char)
    requires v.state == Hdr(FieldValue)
    ensures !Resets(v, ch) && ParsingHeader(v.state)
  {
  }

  lemma {:induction false} ValueFromRight(v: View, data: string, i: nat)
    requires i <= |data|
    ensures forall b :: ValueFrom(v, data, i) <= b < i ==> Run(v, data, 0, b).state == Hdr(FieldValue)
    decreases i
  {
    hide Run;
    if !Entered(v, data, i) {
      ValueFromRight(v, data, i - 1);
    }
  }

  // What the budget misses: when on_header_value stops a call at the carriage return after a value, nread
  // is one more than it was before the first byte p that the loop over the value has taken, however many
  // these are.
  lemma ValueForgotten(v: View, input: string, c: Call)
    requires IsCall(v, input, c) && ByCallback(c.after.errno) && !v.app.left && 0 < c.n <= |input|
    requires input[c.n - 1] == CR && Run(v, input, 0, c.n - 1).state == Hdr(FieldValue)
    requires !Halted(Run(v, input, 0, c.n - 1))
    ensures var p := ValueFrom(v, input, c.n - 1);
            && c.n1 == Count(v, c.n0, input, 0, p) + 1
            && Count(v, c.n0, input, 0, c.n) == Count(v, c.n0, input, 0, p) + (c.n - p)
  {
    hide Step, Run, Count, Peak, Longest, Held, ValueFrom;
    var data, l := c.data, c.n - 1;
    assert Opened(v) == v;
    forall b | 0 <= b <= c.n
      ensures Run(v, input, 0, b) == Run(v, data, 0, b) && Count(v, c.n0, input, 0, b) == Count(v, c.n0, data, 0, b)
    {
      assert input[0..b] == data[0..b];
      Moved(v, c.n0, input, 0, b, data, 0);
    }
    SameValueFrom(v, input, data, l);
    var p := ValueFrom(v, data, l);
    ValueFromRight(v, data, l);
    ValueLeft(Run(v, data, 0, l), CR);
    RunExtend(v, data, 0, l);
    RunSplit(v, data, 0, p, c.n);
    CountSplit(v, c.n0, data, 0, p, c.n);
    forall b | p <= b < c.n
      ensures Run(Run(v, data, 0, p), data, p, b).state == Hdr(FieldValue)
    {
      RunSplit(v, data, 0, p, b);
    }
    ValueCounts(Run(v, data, 0, p), Count(v, c.n0, data, 0, p), data, p, c.n);
  }

  lemma {:induction false} SameValueFrom(v: View, a: string, b: string, i: nat)
    requires i <= |a| && i <= |b| && forall k :: 0 <= k <= i ==> Run(v, a, 0, k) == Run(v, b, 0, k)
    ensures ValueFrom(v, a, i) == ValueFrom(v, b, i)
    decreases i
  {
    hide Run;
    if !Entered(v, a, i) {
      SameValueFrom(v, a, b, i - 1);
    }
  }

  // The four bytes that end a value and the head: an empty line.
  lemma EmptyLine(v: View, ch: char)
    ensures v.state == Hdr(HeaderAlmostDone) ==> Step(v, LF) == v.(state := Hdr(ValueLws)) && !Resets(v, ch)
    ensures v.state == Hdr(ValueLws) ==>
              Step(v, CR) == v.(state := Msg(HeadersAlmostDone), flags := Mark(v.flags, v.hstate)) && !Resets(v, CR)
  {
    hide Mark;
  }

  lemma HeadEnds(v: View)
    requires v.state == Msg(HeadersAlmostDone) && !v.flags.trailing && !Halted(v)
    ensures Resets(v, LF) && Step(v, LF).errno == OK
    ensures Announcements(Step(v, LF).trace) == Announcements(v.trace) + 1
    ensures !InText(Step(v, LF).state)
  {
    hide Announcements, Emit, StepResponseLine, StepRequestLine, StepUrl, StepHeader, StepChunk, HeadOf, NeedsEof;
    EmitAnnounces();
  }

  lemma EmptyLineRun(v: View, n: nat, input: string) returns (z: View)
    requires v.state == Hdr(HeaderAlmostDone) && !v.flags.trailing && !Halted(v) && input == [LF, CR, LF]
    ensures z == Run(v, input, 0, 3) && z.errno == OK && !InText(z.state) && !Halted(Run(v, input, 0, 2))
    ensures Count(v, n, input, 0, 3) == 0 && Peak(v, n, input, 0, 3) == n + 3
    ensures Announcements(z.trace) == Announcements(v.trace) + 1
  {
    hide Run, Count, Peak, Longest, Step, AtReset, Resets, Announcements;
    var x := v.(state := Hdr(ValueLws));
    var y := x.(state := Msg(HeadersAlmostDone), flags := Mark(x.flags, x.hstate));
    EmptyLine(v, LF);
    EmptyLine(x, LF);
    HeadEnds(y);
    z := Step(y, LF);
    RunOne(v, input, 0);
    CountOne(v, n, input, 0);
    RunExtend(v, input, 0, 1);
    CountExtend(v, n, input, 0, 1);
    RunExtend(v, input, 0, 2);
    CountExtend(v, n, input, 0, 2);
  }

  // A call that takes an empty line and the line feed before it.
  lemma LastCall(v: View, n: nat, input: string) returns (c: Call)
    requires v.state == Hdr(HeaderAlmostDone) && !v.flags.trailing && !Halted(v) && n + 3 <= MAX_HEADER_SIZE
    requires input == [LF, CR, LF]
    ensures IsCall(v, input, c) && c.n0 == n && c.after.errno == OK
    ensures Announcements(c.after.trace) == Announcements(v.trace) + 1
  {
    hide Run, Count, Peak, Longest, Announcements;
    var z := EmptyLineRun(v, n, input);
    c := Call(input, 3, n, 0, z);
    assert Opened(v) == v && input[..3] == input;
  }

  // A call with the rest of a value that on_header_value stops.
  lemma StoppedCall(v: View, n: nat, input: string, l: nat) returns (c: Call)
    requires v.state == Hdr(FieldValue) && v.hstate == General && !Halted(v)
    requires 0 < l < |input| && input[l] == CR && forall i :: 0 <= i < l ==> !IsEol(input[i])
    requires n < MAX_HEADER_SIZE
    ensures IsCall(v, input, c) && GoesOn(c) && c.n == l + 1 && c.n0 == n && c.n1 == n + 1 && Short(v, c) == l
    ensures Resumed(c.after) == v.(state := Hdr(HeaderAlmostDone), trace := Resumed(c.after).trace)
    ensures Announcements(c.after.trace) == Announcements(v.trace)
    ensures forall i :: 0 <= i <= l ==> Run(v, input, 0, i).state == Hdr(FieldValue)
    ensures Run(v, input, 0, l + 1) == Resumed(c.after)
  {
    hide Step, Longest, Count, Peak, Announcements, Run;
    var data := input[..l + 1];
    GeneralRun(v, data, 0, l);
    GeneralCount(v, n, data, 0, l);
    ValueHolds(v, data, 0, l);
    ValueStretch(v, data, 0, l);
    var u := Run(v, data, 0, l);
    ValueLeft(u, CR);
    RunExtend(v, data, 0, l);
    CountExtend(v, n, data, 0, l);
    EmitAnnounces();
    c := Call(data, l + 1, n, n + 1, Run(v, data, 0, l + 1).(errno := Paused));
    assert Opened(v) == v;
    forall i | 0 <= i <= l + 1
      ensures Run(v, input, 0, i) == Run(v, data, 0, i)
    {
      assert input[0..i] == data[0..i];
      RunShift(v, input, 0, i, data, 0);
    }
  }

  // So a pause after a value lets a head of any length through, and NoLongHead cannot be improved: with
  // n + 4 == MAX_HEADER_SIZE this head has exactly the length it allows.
  lemma LongHeadAnnounced(v: View, n: nat, input: string, l: nat) returns (call: Call, c: Call)
    requires v.state == Hdr(FieldValue) && v.hstate == General && !v.flags.trailing && !Halted(v)
    requires 0 < l && |input| == l + 4 && forall i :: 0 <= i < l ==> !IsEol(input[i])
    requires input[l..] == [CR, LF, CR, LF] && n + 4 <= MAX_HEADER_SIZE
    ensures InHead(v, input, 0, |input|)
    ensures Session(v, input, [call]) && Chained(n, [call]) && Taken([call]) <= |input|
    ensures IsCall(Last(v, [call]), input[Taken([call])..], c) && c.n0 == Nread(n, [call])
    ensures n + |input| == n + 4 + Lost(v, [call], LastReset(v, input, 0))
    ensures Announcements(c.after.trace) == Announcements(v.trace) + 1
  {
    hide Step, Run, Called, InHead, Announcements;
    assert input[l] == input[l..][0] && input[l + 1] == input[l..][1] && input[l + 2] == input[l..][2];
    call := StoppedCall(v, n, input, l);
    var w := Resumed(call.after);
    var rest := input[l + 1..];
    assert rest == input[l..][1..] == [LF, CR, LF];
    c := LastCall(w, n + 1, rest);
    LongHead(v, input, l);
    assert [call][1..] == [];
  }

  lemma LongHead(v: View, input: string, l: nat)
    requires |input| == l + 4 && !Halted(v) && !v.flags.trailing
    requires forall i :: 0 <= i <= l ==> Run(v, input, 0, i).state == Hdr(FieldValue)
    requires var w := Run(v, input, 0, l + 1); w == v.(state := Hdr(HeaderAlmostDone), trace := w.trace)
    requires input[l + 1] == LF && input[l + 2] == CR
    ensures InHead(v, input, 0, |input|)
  {
    hide Step, Mark;
    var w := Run(v, input, 0, l + 1);
    EmptyLine(w, LF);
    var x := w.(state := Hdr(ValueLws));
    EmptyLine(x, LF);
    RunExtend(v, input, 0, l + 1);
    RunExtend(v, input, 0, l + 2);
    forall i | 0 <= i <= l
      ensures !Halted(Run(v, input, 0, i))
    {
      RunSplit(v, input, 0, i, l + 1);
    }
  }
}
