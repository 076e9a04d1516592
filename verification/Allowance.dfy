// The header budget over whole sessions: how far nread may be from the header bytes that have been read,
// in terms of the calls since it was last reset.
module Allowance {
  import opened Types
  import opened Views
  import opened Machine
  import opened Runs
  import opened Budget
  import opened Steps
  import opened Calls
  import opened Sessions

  function Spent(v: View, n: nat, data: string): nat { Count(v, n, data, 0, |data|) }

  function Most(v: View, n: nat, data: string): nat { Peak(v, n, data, 0, |data|) }

  // A higher count to start with is at most as much higher later.
  lemma {:induction false} CountShift(v: View, c: nat, d: nat, data: string, i: nat, j: nat)
    requires i <= j <= |data| && c <= d
    ensures Count(v, c, data, i, j) <= Count(v, d, data, i, j) <= Count(v, c, data, i, j) + (d - c)
    ensures Peak(v, c, data, i, j) <= Peak(v, d, data, i, j) <= Peak(v, c, data, i, j) + (d - c)
    ensures Longest(v, c, data, i, j) <= Longest(v, d, data, i, j) <= Longest(v, c, data, i, j) + (d - c)
    decreases j - i
  {
    hide Step, Resets, ParsingHeader;
    if i < j && !Halted(v) {
      CountShift(Step(v, data[i]), CountNext(v, c, data[i]), CountNext(v, d, data[i]), data, i + 1, j);
    }
  }

  // The count depends on the bytes, not on where they lie.
  lemma {:induction false} CountMoves(v: View, c: nat, a: string, i: nat, j: nat, b: string, k: nat)
    requires i <= j <= |a| && k + (j - i) <= |b| && a[i..j] == b[k..k + (j - i)]
    ensures Count(v, c, a, i, j) == Count(v, c, b, k, k + (j - i))
    ensures Peak(v, c, a, i, j) == Peak(v, c, b, k, k + (j - i))
    ensures Longest(v, c, a, i, j) == Longest(v, c, b, k, k + (j - i))
    decreases j - i
  {
    hide Step, CountNext, WithByte, AtReset;
    if i < j && !Halted(v) {
      assert a[i] == a[i..j][0] == b[k..k + (j - i)][0] == b[k];
      assert a[i + 1..j] == a[i..j][1..] == b[k..k + (j - i)][1..] == b[k + 1..k + (j - i)];
      CountMoves(Step(v, a[i]), CountNext(v, c, a[i]), a, i + 1, j, b, k + 1);
    }
  }

  // What is known of a prefix or a suffix of the input is known of the input.
  lemma Moved(v: View, n: nat, input: string, i: nat, j: nat, part: string, k: nat)
    requires i <= j <= |input| && k + (j - i) <= |part| && input[i..j] == part[k..k + (j - i)]
    ensures Run(v, input, i, j) == Run(v, part, k, k + (j - i))
    ensures Count(v, n, input, i, j) == Count(v, n, part, k, k + (j - i))
    ensures Peak(v, n, input, i, j) == Peak(v, n, part, k, k + (j - i))
    ensures Longest(v, n, input, i, j) == Longest(v, n, part, k, k + (j - i))
  {
    hide Run, Count, Peak, Longest;
    RunShift(v, input, i, j, part, k);
    CountMoves(v, n, input, i, j, part, k);
  }

  lemma {:induction false} PeakBound(v: View, n: nat, data: string, i: nat, j: nat)
    requires i <= j <= |data|
    ensures Peak(v, n, data, i, j) <= n + (j - i)
    decreases j - i
  {
    hide Step, Resets, ParsingHeader;
    if i < j && !Halted(v) {
      PeakBound(Step(v, data[i]), CountNext(v, n, data[i]), data, i + 1, j);
    }
  }

  // A parser w with the count cw goes on at i as u with the count cu does: it is u, or it has seen the byte
  // at i already. It has counted at most extra bytes too many and short bytes too few.
  predicate Beside(u: View, cu: nat, w: View, cw: nat, data: string, i: nat, short: nat, extra: nat) {
    && i <= |data| && cw <= cu + extra
    && ((w == u && cu <= cw + short) ||
        (i < |data| && !Halted(u) && Held(u, w, data[i]) && WithByte(u, cu) <= cw + short))
  }

  lemma SameState(u: View, c: nat, d: nat, data: string, i: nat, j: nat, short: nat, extra: nat)
    requires i <= j <= |data| && d <= c + extra && c <= d + short
    ensures Count(u, d, data, i, j) <= Count(u, c, data, i, j) + extra
    ensures Count(u, c, data, i, j) <= Count(u, d, data, i, j) + short
    ensures Peak(u, c, data, i, j) <= Peak(u, d, data, i, j) + short
    ensures Longest(u, c, data, i, j) <= Longest(u, d, data, i, j) + short
  {
    hide Count, Peak, Longest;
    if d <= c {
      CountShift(u, d, c, data, i, j);
    } else {
      CountShift(u, c, d, data, i, j);
    }
  }

  // It stays so.
  lemma BesideOn(u: View, cu: nat, w: View, cw: nat, data: string, i: nat, j: nat, short: nat, extra: nat)
    requires i <= j <= |data| && Beside(u, cu, w, cw, data, i, short, extra)
    ensures Beside(Run(u, data, i, j), Count(u, cu, data, i, j), Run(w, data, i, j), Count(w, cw, data, i, j),
                   data, j, short, extra)
    ensures i < j || w == u ==> Run(w, data, i, j) == Run(u, data, i, j)
    ensures Peak(u, cu, data, i, j) <= Peak(w, cw, data, i, j) + short
    ensures Longest(u, cu, data, i, j) <= Longest(w, cw, data, i, j) + short
  {
    hide Step, Resets, ParsingHeader;
    if w == u {
      SameState(u, cu, cw, data, i, j, short, extra);
    } else if i < j {
      SameState(Step(u, data[i]), CountNext(u, cu, data[i]), CountNext(w, cw, data[i]), data, i + 1, j, short, extra);
    }
  }

  lemma BesideTrans(a: View, ca: nat, b: View, cb: nat, c: View, cc: nat, data: string, i: nat,
                    s: nat, x: nat, t: nat, y: nat)
    requires Beside(a, ca, b, cb, data, i, s, x) && Beside(b, cb, c, cc, data, i, t, y)
    ensures Beside(a, ca, c, cc, data, i, s + t, x + y)
  {
    hide Step, Resets, ParsingHeader;
  }

  lemma BesideMoves(u: View, cu: nat, w: View, cw: nat, input: string, n: nat, i: nat, s: nat, x: nat)
    requires n + i <= |input|
    ensures Beside(u, cu, w, cw, input[n..], i, s, x) <==> Beside(u, cu, w, cw, input, n + i, s, x)
  {
    hide Held, WithByte;
  }

  // nread has just been reset at offset j, or the input begins there.
  predicate Starts(v: View, data: string, j: nat)
    requires j <= |data|
  {
    j == 0 || (!Halted(Run(v, data, 0, j - 1)) && Resets(Run(v, data, 0, j - 1), data[j - 1]))
  }

  // The last such offset up to e.
  function LastReset(v: View, data: string, e: nat): (j: nat)
    requires e <= |data|
    ensures j <= e && Starts(v, data, j)
  {
    if Starts(v, data, e) then e else LastReset(v, data, e - 1)
  }

  // A reset wipes out what has been counted wrong.
  lemma BesideReset(u: View, cu: nat, w: View, cw: nat, data: string, j: nat, k: nat, short: nat, extra: nat)
    requires 0 < j <= k <= |data| && Beside(u, cu, w, cw, data, 0, short, extra) && Starts(u, data, j)
    ensures Count(u, cu, data, 0, j) == 0
    ensures Run(w, data, 0, j) == Run(u, data, 0, j) && Count(w, cw, data, 0, j) == 0
    ensures Beside(Run(u, data, 0, k), Count(u, cu, data, 0, k), Run(w, data, 0, k), Count(w, cw, data, 0, k),
                   data, k, 0, 0)
  {
    hide Step, Resets, ParsingHeader, Run, Count, Peak, Longest;
    BesideOn(u, cu, w, cw, data, 0, j - 1, short, extra);
    BesideOn(u, cu, w, cw, data, 0, j, short, extra);
    CountExtend(u, cu, data, 0, j - 1);
    CountExtend(w, cw, data, 0, j - 1);
    RunSplit(u, data, 0, j, k);
    RunSplit(w, data, 0, j, k);
    CountSplit(u, cu, data, 0, j, k);
    CountSplit(w, cw, data, 0, j, k);
  }

  // What nread lacks because of how a call was stopped.
  function Short(v: View, c: Call): nat {
    if c.after.errno.OK? || c.n > |c.data| then 0 else Forgotten(Opened(v), c.data, c.n)
  }

  // How a call leaves the parser, beside the run over its input.
  lemma CallBeside(v: View, input: string, c: Call)
    requires IsCall(v, input, c) && GoesOn(c) && !v.app.left
    ensures Beside(Run(v, input, 0, c.n), Count(v, c.n0, input, 0, c.n), Resumed(c.after), c.n1, input, c.n,
                   Short(v, c), 1)
    ensures Peak(v, c.n0, input, 0, c.n) <= MAX_HEADER_SIZE + Short(v, c) && c.n1 <= MAX_HEADER_SIZE
  {
    hide Step, Run, Count, Peak, Longest, Forgotten, Held;
    assert Opened(v) == v && input[0..c.n] == c.data[0..c.n];
    Moved(v, c.n0, input, 0, c.n, c.data, 0);
    if c.n < |c.data| {
      assert input[0..c.n + 1] == c.data[0..c.n + 1];
      Moved(v, c.n0, input, 0, c.n + 1, c.data, 0);
      PeakSplit(v, c.n0, c.data, 0, c.n, c.n + 1);
    }
  }

  // nread is what the call before left.
  predicate Chained(n: nat, calls: seq<Call>)
    decreases |calls|
  {
    |calls| > 0 ==> calls[0].n0 == n && Chained(calls[0].n1, calls[1..])
  }

  function Nread(n: nat, calls: seq<Call>): nat {
    if |calls| == 0 then n else calls[|calls| - 1].n1
  }

  function Left(j: nat, n: nat): nat { if n < j then j - n else 0 }

  // The calls that end at offset j of their input or later,
  function Late(calls: seq<Call>, j: nat): nat
    decreases |calls|
  {
    if |calls| == 0 then 0 else (if calls[0].n < j then 0 else 1) + Late(calls[1..], Left(j, calls[0].n))
  }

  // and what nread lacks because of how they were stopped.
  function Lost(v: View, calls: seq<Call>, j: nat): nat
    decreases |calls|
  {
    if |calls| == 0 then 0
    else
      (if calls[0].n < j then 0 else Short(v, calls[0])) +
      Lost(Resumed(calls[0].after), calls[1..], Left(j, calls[0].n))
  }

  lemma {:induction false} LateBound(calls: seq<Call>, j: nat)
    ensures Late(calls, j) <= |calls|
    decreases |calls|
  {
    if |calls| > 0 {
      LateBound(calls[1..], Left(j, calls[0].n));
    }
  }

  // The next call of a session, which is read by v while u is the parser that was never stopped.
  lemma NextCall(u: View, cu: nat, v: View, input: string, c: Call, j: nat, s: nat, x: nat)
    requires IsCall(v, input, c) && GoesOn(c) && !v.app.left && c.n <= |input| && j <= |input|
    requires Starts(u, input, j) && Beside(u, cu, v, c.n0, input, 0, s, x)
    ensures var u1, c1, rest := Run(u, input, 0, c.n), Count(u, cu, input, 0, c.n), input[c.n..];
            && Starts(u1, rest, Left(j, c.n))
            && Beside(u1, c1, Resumed(c.after), c.n1, rest, 0,
                      (if 0 < j <= c.n then 0 else s) + Short(v, c), (if 0 < j <= c.n then 0 else x) + 1)
  {
    hide Step, Resets, ParsingHeader, Run, Count, Peak, Longest, Short, Held, IsCall;
    CallBeside(v, input, c);
    var a, b, rest := if 0 < j <= c.n then 0 else s, if 0 < j <= c.n then 0 else x, input[c.n..];
    var u1, c1 := Run(u, input, 0, c.n), Count(u, cu, input, 0, c.n);
    if 0 < j <= c.n {
      BesideReset(u, cu, v, c.n0, input, j, c.n, s, x);
    } else {
      BesideOn(u, cu, v, c.n0, input, 0, c.n, s, x);
    }
    BesideTrans(u1, c1, Run(v, input, 0, c.n), Count(v, c.n0, input, 0, c.n), Resumed(c.after), c.n1, input, c.n,
                a, b, Short(v, c), 1);
    if c.n < j {
      RunSplit(u, input, 0, c.n, j - 1);
      assert input[c.n..j - 1] == rest[0..j - 1 - c.n];
      RunShift(u1, input, c.n, j - 1, rest, 0);
    } else {
      FromStart(u1, rest);
    }
  }

  lemma FromStart(v: View, data: string)
    ensures Starts(v, data, 0)
  {
  }

  // What comes after c.n bytes of the input, seen from their end.
  lemma Later(u: View, cu: nat, input: string, n: nat, e: nat)
    requires n <= e <= |input|
    ensures var u1, c1, rest := Run(u, input, 0, n), Count(u, cu, input, 0, n), input[n..];
            && Run(u, input, 0, e) == Run(u1, rest, 0, e - n)
            && Count(u, cu, input, 0, e) == Count(u1, c1, rest, 0, e - n)
  {
    hide Step, Run, Count, Peak, Longest;
    RunSplit(u, input, 0, n, e);
    CountSplit(u, cu, input, 0, n, e);
    assert input[n..e] == input[n..][0..e - n];
    Moved(Run(u, input, 0, n), Count(u, cu, input, 0, n), input, n, e, input[n..], 0);
  }

  // A session leaves the parser beside the one that was never stopped. Since nread was last reset, at j, it
  // has counted at most one byte too many for each call, and those forgotten too few.
  lemma {:induction false} SessionBeside(u: View, cu: nat, v: View, n: nat, input: string, calls: seq<Call>,
                                         j: nat, s: nat, x: nat)
    requires Session(v, input, calls) && Chained(n, calls) && !v.app.left && Taken(calls) <= |input|
    requires j <= Taken(calls) && Starts(u, input, j) && Beside(u, cu, v, n, input, 0, s, x)
    ensures Beside(Run(u, input, 0, Taken(calls)), Count(u, cu, input, 0, Taken(calls)), Last(v, calls),
                   Nread(n, calls), input, Taken(calls),
                   Lost(v, calls, j) + (if j == 0 then s else 0), Late(calls, j) + (if j == 0 then x else 0))
    decreases |calls|
  {
    hide Run, Count, Called, Short, Beside, Starts;
    if |calls| == 0 {
      Standing(u, cu, input);
    } else {
      var c, t := calls[0], Taken(calls[1..]);
      var u1, c1, rest := Run(u, input, 0, c.n), Count(u, cu, input, 0, c.n), input[c.n..];
      NextCall(u, cu, v, input, c, j, s, x);
      SessionBeside(u1, c1, Resumed(c.after), c.n1, rest, calls[1..], Left(j, c.n),
                    (if 0 < j <= c.n then 0 else s) + Short(v, c), (if 0 < j <= c.n then 0 else x) + 1);
      Later(u, cu, input, c.n, c.n + t);
      BesideMoves(Run(u, input, 0, c.n + t), Count(u, cu, input, 0, c.n + t), Last(v, calls), Nread(n, calls),
                  input, c.n, t, Lost(v, calls, j) + (if j == 0 then s else 0),
                  Late(calls, j) + (if j == 0 then x else 0));
    }
  }

  lemma Standing(u: View, cu: nat, data: string)
    ensures Run(u, data, 0, 0) == u && Count(u, cu, data, 0, 0) == cu
  {
  }

  // The highest count of a call since j.
  lemma CallPeak(u: View, cu: nat, v: View, input: string, c: Call, j: nat, s: nat, x: nat)
    requires IsCall(v, input, c) && GoesOn(c) && !v.app.left && j <= c.n <= |input|
    requires Starts(u, input, j) && Beside(u, cu, v, c.n0, input, 0, s, x)
    ensures Peak(Run(u, input, 0, j), Count(u, cu, input, 0, j), input, j, c.n) <=
            MAX_HEADER_SIZE + Short(v, c) + if j == 0 then s else 0
  {
    hide Step, Run, Count, Peak, Longest, Short, Beside, IsCall, Starts;
    CallBeside(v, input, c);
    Standing(u, cu, input);
    if j == 0 {
      BesideOn(u, cu, v, c.n0, input, 0, c.n, s, x);
    } else {
      BesideReset(u, cu, v, c.n0, input, j, c.n, s, x);
      PeakSplit(v, c.n0, input, 0, j, c.n);
    }
  }

  lemma Resplit(v: View, n: nat, input: string, j: nat, t: nat)
    requires j <= t <= |input|
    ensures Run(v, input, 0, t) == Run(Run(v, input, 0, j), input, j, t)
    ensures Count(v, n, input, 0, t) == Count(Run(v, input, 0, j), Count(v, n, input, 0, j), input, j, t)
  {
    hide Run, Count;
    RunSplit(v, input, 0, j, t);
    CountSplit(v, n, input, 0, j, t);
  }

  lemma PeakLater(u: View, cu: nat, input: string, n: nat, j: nat, e: nat)
    requires n <= j <= e <= |input|
    ensures var u1, c1, rest := Run(u, input, 0, n), Count(u, cu, input, 0, n), input[n..];
            Peak(Run(u, input, 0, j), Count(u, cu, input, 0, j), input, j, e) ==
            Peak(Run(u1, rest, 0, j - n), Count(u1, c1, rest, 0, j - n), rest, j - n, e - n)
  {
    hide Run, Count, Peak, Longest;
    Later(u, cu, input, n, j);
    assert input[j..e] == input[n..][j - n..e - n];
    Moved(Run(u, input, 0, j), Count(u, cu, input, 0, j), input, j, e, input[n..], j - n);
  }

  // No head is read beyond the budget, but for the bytes forgotten since it began.
  lemma {:induction false} SessionPeak(u: View, cu: nat, v: View, n: nat, input: string, calls: seq<Call>,
                                       j: nat, s: nat, x: nat)
    requires Session(v, input, calls) && Chained(n, calls) && !v.app.left && Taken(calls) <= |input|
    requires j <= Taken(calls) && Starts(u, input, j) && Beside(u, cu, v, n, input, 0, s, x)
    ensures Peak(Run(u, input, 0, j), Count(u, cu, input, 0, j), input, j, Taken(calls)) <=
            MAX_HEADER_SIZE + Lost(v, calls, j) + if j == 0 then s else 0
    decreases |calls|
  {
    hide Run, Count, Peak, Longest, Called, Short, Beside, Starts;
    if |calls| == 0 {
      NoPeak(Run(u, input, 0, 0), Count(u, cu, input, 0, 0), input, 0);
    } else {
      var c, t := calls[0], Taken(calls[1..]);
      var u1, c1, rest := Run(u, input, 0, c.n), Count(u, cu, input, 0, c.n), input[c.n..];
      NextCall(u, cu, v, input, c, j, s, x);
      SessionPeak(u1, c1, Resumed(c.after), c.n1, rest, calls[1..], Left(j, c.n),
                  (if 0 < j <= c.n then 0 else s) + Short(v, c), (if 0 < j <= c.n then 0 else x) + 1);
      PeakLater(u, cu, input, c.n, if j < c.n then c.n else j, c.n + t);
      if j <= c.n {
        CallPeak(u, cu, v, input, c, j, s, x);
        Resplit(u, cu, input, j, c.n);
        PeakSplit(Run(u, input, 0, j), Count(u, cu, input, 0, j), input, j, c.n, c.n + t);
      }
    }
  }

  lemma NoPeak(v: View, n: nat, data: string, i: nat)
    requires i <= |data|
    ensures Peak(v, n, data, i, i) == 0
  {
  }

  lemma Itself(v: View, n: nat, data: string)
    ensures Beside(v, n, v, n, data, 0, 0, 0)
  {
  }

  // nread is the number of header bytes since it was last reset, at j, but for one byte more for each call
  // since then and the bytes forgotten since then; and but for these no head is read beyond the budget.
  lemma NreadTallies(v: View, n: nat, input: string, calls: seq<Call>, j: nat)
    requires Session(v, input, calls) && Chained(n, calls) && !v.app.left && Taken(calls) <= |input|
    requires j <= Taken(calls) && Starts(v, input, j)
    ensures Nread(n, calls) <= Count(v, n, input, 0, Taken(calls)) + Late(calls, j)
    ensures Count(v, n, input, 0, Taken(calls)) <= Nread(n, calls) + Lost(v, calls, j)
    ensures Peak(Run(v, input, 0, j), Count(v, n, input, 0, j), input, j, Taken(calls)) <=
            MAX_HEADER_SIZE + Lost(v, calls, j)
  {
    hide Run, Count, Peak, Called, Session, Late, Lost, Held, Starts;
    Itself(v, n, input);
    SessionBeside(v, n, v, n, input, calls, j, 0, 0);
    SessionPeak(v, n, v, n, input, calls, j, 0, 0);
  }

  // So it is at any point of one more call.
  lemma SessionAt(v: View, n: nat, input: string, calls: seq<Call>, j: nat, e: nat)
    requires Session(v, input, calls) && Chained(n, calls) && !v.app.left
    requires Taken(calls) <= e <= |input| && j <= e && Starts(v, input, j)
    ensures var w, m, rest, b := Last(v, calls), Nread(n, calls), input[Taken(calls)..], e - Taken(calls);
            Beside(Run(v, input, 0, e), Count(v, n, input, 0, e), Run(w, rest, 0, b), Count(w, m, rest, 0, b),
                   input, e, Lost(v, calls, j), Late(calls, j))
  {
    hide Run, Count, Peak, Longest, Called, Session, Late, Lost, Held, Starts, Last, Nread, Chained, Taken, Beside;
    var t, w, m := Taken(calls), Last(v, calls), Nread(n, calls);
    var rest, u, c := input[t..], Run(v, input, 0, t), Count(v, n, input, 0, t);
    Itself(v, n, input);
    Later(v, n, input, t, e);
    var j0 := if j <= t then j else 0;
    FromStart(v, input);
    SessionBeside(v, n, v, n, input, calls, j0, 0, 0);
    BesideMoves(u, c, w, m, input, t, 0, Lost(v, calls, j0), Late(calls, j0));
    BesideMoves(Run(v, input, 0, e), Count(v, n, input, 0, e), Run(w, rest, 0, e - t), Count(w, m, rest, 0, e - t),
                input, t, e - t, Lost(v, calls, j), Late(calls, j));
    if j <= t {
      BesideOn(u, c, w, m, rest, 0, e - t, Lost(v, calls, j), Late(calls, j));
    } else {
      StartsLater(v, input, t, j);
      BesideReset(u, c, w, m, rest, j - t, e - t, Lost(v, calls, j0), Late(calls, j0));
      BesideMore(Run(v, input, 0, e), Count(v, n, input, 0, e), Run(w, rest, 0, e - t), Count(w, m, rest, 0, e - t),
                 rest, e - t, Lost(v, calls, j), Late(calls, j));
    }
  }

  lemma BesideMore(u: View, cu: nat, w: View, cw: nat, data: string, i: nat, s: nat, x: nat)
    requires Beside(u, cu, w, cw, data, i, 0, 0)
    ensures Beside(u, cu, w, cw, data, i, s, x)
  {
    hide Held, WithByte;
  }

  lemma StartsLater(v: View, input: string, n: nat, j: nat)
    requires n < j <= |input| && Starts(v, input, j)
    ensures Starts(Run(v, input, 0, n), input[n..], j - n)
  {
    hide Step, Run, Resets;
    RunSplit(v, input, 0, n, j - 1);
    assert input[n..j - 1] == input[n..][0..j - 1 - n];
    RunShift(Run(v, input, 0, n), input, n, j - 1, input[n..], 0);
  }

  // The byte that takes the count to its highest.
  lemma {:induction false} PeakByte(v: View, n: nat, data: string, i: nat, j: nat) returns (b: nat)
    requires i <= j <= |data| && Peak(v, n, data, i, j) > 0
    ensures i <= b < j && !Halted(Run(v, data, i, b))
    ensures WithByte(Run(v, data, i, b), Count(v, n, data, i, b)) == Peak(v, n, data, i, j)
    decreases j - i
  {
    hide Step, CountNext, WithByte;
    if WithByte(v, n) == Peak(v, n, data, i, j) {
      b := i;
    } else {
      b := PeakByte(Step(v, data[i]), CountNext(v, n, data[i]), data, i + 1, j);
    }
  }

  // A call that overflows the budget has exceeded it, up to one byte, at a byte of its data.
  lemma OverflowByte(v: View, input: string, c: Call) returns (b: nat)
    requires IsCall(v, input, c) && !v.app.left && c.after.errno == HeaderOverflow
    ensures b < |c.data| <= |input| && !Halted(Run(v, input, 0, b))
    ensures WithByte(Run(v, input, 0, b), Count(v, c.n0, input, 0, b)) + 1 > MAX_HEADER_SIZE
  {
    hide Step, Run, Count, Peak, Longest, Overrun, WithByte;
    assert Opened(v) == v;
    var r: nat, x: nat :| OverranAt(v, c.n0, c.data, c.n, r, x, c.after);
    b := PeakByte(v, c.n0, c.data, 0, if x < |c.data| then x + 1 else x);
    assert input[0..b] == c.data[0..b];
    Moved(v, c.n0, input, 0, b, c.data, 0);
  }

  // The budget has room for the byte at e, also if each call since nread was last reset has cost one.
  predicate Room(v: View, n: nat, input: string, calls: seq<Call>, e: nat) {
    e < |input| && !Halted(Run(v, input, 0, e)) ==>
      var counted := WithByte(Run(v, input, 0, e), Count(v, n, input, 0, e));
      counted + Late(calls, LastReset(v, input, e)) + 1 <= MAX_HEADER_SIZE
  }

  // Heads that leave room for one byte a call never exceed the budget, whatever is before, between and
  // after them.
  lemma NoOverflow(v: View, n: nat, input: string, calls: seq<Call>, c: Call)
    requires Session(v, input, calls) && Chained(n, calls) && !v.app.left && Taken(calls) <= |input|
    requires IsCall(Last(v, calls), input[Taken(calls)..], c) && c.n0 == Nread(n, calls)
    requires forall e :: Taken(calls) <= e < Taken(calls) + |c.data| ==> Room(v, n, input, calls, e)
    ensures c.after.errno != HeaderOverflow
  {
    hide Run, Count, Peak, Session, Called, IsCall, Last, Nread, Chained, Taken, Feed, LastReset, Late, Lost, Beside;
    if c.after.errno == HeaderOverflow {
      var t := Taken(calls);
      SessionFeeds(v, input, calls);
      var b := OverflowByte(Last(v, calls), input[t..], c);
      var j := LastReset(v, input, t + b);
      SessionAt(v, n, input, calls, j, t + b);
      assert Room(v, n, input, calls, t + b);
      BesideByte(Run(v, input, 0, t + b), Count(v, n, input, 0, t + b), Run(Last(v, calls), input[t..], 0, b),
                 Count(Last(v, calls), c.n0, input[t..], 0, b), input, t + b, Lost(v, calls, j), Late(calls, j));
    }
  }

  lemma BesideByte(u: View, cu: nat, w: View, cw: nat, data: string, i: nat, s: nat, x: nat)
    requires Beside(u, cu, w, cw, data, i, s, x) && !Halted(w)
    ensures WithByte(w, cw) <= WithByte(u, cu) + x && !Halted(u)
  {
    hide Step, Resets, ParsingHeader;
  }

  // In particular those whose bytes and the calls of the whole session add up to no more than the budget,
  lemma NoOverflowMost(v: View, n: nat, input: string, calls: seq<Call>, c: Call)
    requires Session(v, input, calls) && Chained(n, calls) && !v.app.left && Taken(calls) <= |input|
    requires IsCall(Last(v, calls), input[Taken(calls)..], c) && c.n0 == Nread(n, calls)
    requires Most(v, n, input[..Taken(calls) + |c.data|]) + |calls| + 1 <= MAX_HEADER_SIZE
    ensures c.after.errno != HeaderOverflow
  {
    hide Run, Count, Peak, Session, Called, Last, Nread, Chained, Taken, LastReset, Late, WithByte;
    var all := input[..Taken(calls) + |c.data|];
    forall e | Taken(calls) <= e < Taken(calls) + |c.data|
      ensures Room(v, n, input, calls, e)
    {
      LateBound(calls, LastReset(v, input, e));
      if e < |input| && !Halted(Run(v, input, 0, e)) {
        ByteBelowMost(v, n, input, e, all);
      }
    }
    NoOverflow(v, n, input, calls, c);
  }

  lemma ByteBelowMost(v: View, n: nat, input: string, e: nat, all: string)
    requires e < |all| <= |input| && all == input[..|all|] && !Halted(Run(v, input, 0, e))
    ensures WithByte(Run(v, input, 0, e), Count(v, n, input, 0, e)) <= Most(v, n, all)
  {
    hide Step, Run, Count, Peak, Longest, WithByte;
    assert input[0..e + 1] == all[0..e + 1];
    CountExtend(v, n, input, 0, e);
    Moved(v, n, input, 0, e + 1, all, 0);
    PeakSplit(v, n, all, 0, e + 1, |all|);
  }

  // or those of a session of few bytes.
  lemma NoOverflowBytes(v: View, n: nat, input: string, calls: seq<Call>, c: Call)
    requires Session(v, input, calls) && Chained(n, calls) && !v.app.left && Taken(calls) <= |input|
    requires IsCall(Last(v, calls), input[Taken(calls)..], c) && c.n0 == Nread(n, calls)
    requires n + Taken(calls) + |c.data| + |calls| + 1 <= MAX_HEADER_SIZE
    ensures c.after.errno != HeaderOverflow
  {
    hide Run, Peak, Last, Chained, Feed, Session, Called;
    var all := input[..Taken(calls) + |c.data|];
    PeakBound(v, n, all, 0, |all|);
    NoOverflowMost(v, n, input, calls, c);
  }
}
