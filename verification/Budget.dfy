// The header budget: how many header bytes a run has read since the last reset
// of nread, counted once per byte.
module Budget {
  import opened Chars
  import opened Types
  import opened Events
  import opened Views
  import opened Machine
  import opened Runs

  // The bytes after which nread is zero again.
  predicate Resets(v: View, ch: char) {
    ch == LF &&
    match v.state
    case Chunk(c) => c.SizeAlmostDone? || c.DataDone?
    case Msg(m) => m.HeadersDone? || (m.HeadersAlmostDone? && !v.flags.trailing)
    case Hdr(h) => (h.FieldStart? || h.ValueLws? || h.DiscardLws?) && !v.flags.trailing
    case _ => false
  }

  function WithByte(v: View, count: nat): nat { if ParsingHeader(v.state) then count + 1 else count }

  function CountNext(v: View, count: nat, ch: char): nat {
    if Resets(v, ch) then 0 else WithByte(v, count)
  }

  // The header bytes since the last reset, after data[i..j].
  function Count(v: View, count: nat, data: string, i: nat, j: nat): nat
    requires i <= j <= |data|
    decreases j - i
  {
    if i == j || Halted(v) then count
    else Count(Step(v, data[i]), CountNext(v, count, data[i]), data, i + 1, j)
  }

  // The highest count any byte of data[i..j] takes it to.
  function Peak(v: View, count: nat, data: string, i: nat, j: nat): nat
    requires i <= j <= |data|
    decreases j - i
  {
    if i == j || Halted(v) then 0
    else Max(WithByte(v, count), Peak(Step(v, data[i]), CountNext(v, count, data[i]), data, i + 1, j))
  }

  // The highest count at which it was reset: the longest head, or chunk-size line, that was read to its end.
  function Longest(v: View, count: nat, data: string, i: nat, j: nat): nat
    requires i <= j <= |data|
    decreases j - i
  {
    if i == j || Halted(v) then 0
    else Max(AtReset(v, count, data[i]), Longest(Step(v, data[i]), CountNext(v, count, data[i]), data, i + 1, j))
  }

  function AtReset(v: View, count: nat, ch: char): nat { if Resets(v, ch) then WithByte(v, count) else 0 }

  function Max(a: nat, b: nat): nat { if a < b then b else a }

  lemma {:induction false} CountSplit(v: View, count: nat, data: string, i: nat, j: nat, k: nat)
    requires i <= j <= k <= |data|
    ensures Count(v, count, data, i, k) == Count(Run(v, data, i, j), Count(v, count, data, i, j), data, j, k)
    decreases j - i
  {
    hide Step, CountNext;
    if i < j && !Halted(v) {
      CountSplit(Step(v, data[i]), CountNext(v, count, data[i]), data, i + 1, j, k);
    }
  }

  lemma {:induction false} PeakSplit(v: View, count: nat, data: string, i: nat, j: nat, k: nat)
    requires i <= j <= k <= |data|
    ensures Peak(v, count, data, i, k) ==
            Max(Peak(v, count, data, i, j), Peak(Run(v, data, i, j), Count(v, count, data, i, j), data, j, k))
    decreases j - i
  {
    hide Step, CountNext, WithByte;
    if i < j && !Halted(v) {
      PeakSplit(Step(v, data[i]), CountNext(v, count, data[i]), data, i + 1, j, k);
    }
  }

  lemma {:induction false} LongestSplit(v: View, count: nat, data: string, i: nat, j: nat, k: nat)
    requires i <= j <= k <= |data|
    ensures Longest(v, count, data, i, k) ==
            Max(Longest(v, count, data, i, j),
                Longest(Run(v, data, i, j), Count(v, count, data, i, j), data, j, k))
    decreases j - i
  {
    hide Step, CountNext, AtReset;
    if i < j && !Halted(v) {
      LongestSplit(Step(v, data[i]), CountNext(v, count, data[i]), data, i + 1, j, k);
    }
  }

  lemma {:induction false} LongestBelowPeak(v: View, count: nat, data: string, i: nat, j: nat)
    requires i <= j <= |data|
    ensures Longest(v, count, data, i, j) <= Peak(v, count, data, i, j)
    decreases j - i
  {
    hide Step, CountNext, WithByte, Resets;
    if i < j && !Halted(v) {
      LongestBelowPeak(Step(v, data[i]), CountNext(v, count, data[i]), data, i + 1, j);
    }
  }

  lemma CountOne(v: View, count: nat, data: string, i: nat)
    requires i < |data| && !Halted(v)
    ensures Count(v, count, data, i, i + 1) == CountNext(v, count, data[i])
    ensures Peak(v, count, data, i, i + 1) == WithByte(v, count)
    ensures Longest(v, count, data, i, i + 1) == AtReset(v, count, data[i])
  {
    hide Step, CountNext, WithByte, AtReset;
    var w, c := Step(v, data[i]), CountNext(v, count, data[i]);
    assert Longest(w, c, data, i + 1, i + 1) == 0;
    assert Count(w, c, data, i + 1, i + 1) == c;
    assert Peak(w, c, data, i + 1, i + 1) == 0;
  }

  lemma CountExtend(v: View, count: nat, data: string, i: nat, j: nat)
    requires i <= j < |data| && !Halted(Run(v, data, i, j))
    ensures var w, c := Run(v, data, i, j), Count(v, count, data, i, j);
            && Count(v, count, data, i, j + 1) == CountNext(w, c, data[j])
            && Peak(v, count, data, i, j + 1) == Max(Peak(v, count, data, i, j), WithByte(w, c))
            && Longest(v, count, data, i, j + 1) == Max(Longest(v, count, data, i, j), AtReset(w, c, data[j]))
  {
    hide Step, CountNext, WithByte, AtReset;
    LongestSplit(v, count, data, i, j, j + 1);
    CountSplit(v, count, data, i, j, j + 1);
    PeakSplit(v, count, data, i, j, j + 1);
    CountOne(Run(v, data, i, j), Count(v, count, data, i, j), data, j);
  }

  // Bytes of an ordinary header value count one each.
  lemma {:induction false} GeneralCount(v: View, count: nat, data: string, i: nat, j: nat)
    requires i < j <= |data| && !Halted(v) && v.state == Hdr(FieldValue) && v.hstate == General
    requires forall n :: i <= n < j ==> !IsEol(data[n])
    ensures Count(v, count, data, i, j) == Peak(v, count, data, i, j) == count + (j - i)
    ensures Longest(v, count, data, i, j) == 0
    decreases j - i
  {
    GeneralRun(v, data, i, i + 1);
    RunOne(v, data, i);
    assert CountNext(v, count, data[i]) == count + 1 == WithByte(v, count) && AtReset(v, count, data[i]) == 0;
    hide Step, CountNext, WithByte, AtReset;
    var w := Step(v, data[i]);
    if i + 1 < j {
      GeneralCount(w, count + 1, data, i + 1, j);
    } else {
      assert Count(w, count + 1, data, j, j) == count + 1 && Peak(w, count + 1, data, j, j) == 0;
      assert Longest(w, count + 1, data, j, j) == 0;
    }
  }

  // Body bytes are not counted.
  lemma {:induction false} BodyCount(v: View, count: nat, data: string, i: nat, j: nat)
    requires i <= j <= |data| && !Halted(v)
    requires v.state == Msg(IdentityEof) || (Counted(v.state) && j - i < v.contentLength)
    ensures Count(v, count, data, i, j) == count && Peak(v, count, data, i, j) <= count
    ensures Longest(v, count, data, i, j) == 0
    decreases j - i
  {
    if i < j {
      var w := Step(v, data[i]);
      if v.state == Msg(IdentityEof) {
        UntilEofRun(v, data, i, i + 1);
      } else {
        CountedRun(v, data, i, i + 1);
      }
      RunOne(v, data, i);
      assert CountNext(v, count, data[i]) == count == WithByte(v, count) && AtReset(v, count, data[i]) == 0;
      hide Step, CountNext, WithByte, AtReset, Run;
      BodyCount(w, count, data, i + 1, j);
    }
  }

  // Two parsers in step with each other and with the count stay so.
  lemma CountSame(v: View, c: nat, w: View, d: nat, data: string, i: nat, j: nat)
    requires i < j <= |data| && !Halted(v) && !Halted(w) && Step(v, data[i]) == Step(w, data[i])
    requires WithByte(v, c) == WithByte(w, d) && Resets(v, data[i]) == Resets(w, data[i])
    ensures Count(v, c, data, i, j) == Count(w, d, data, i, j) && Peak(v, c, data, i, j) == Peak(w, d, data, i, j)
    ensures Longest(v, c, data, i, j) == Longest(w, d, data, i, j)
  {
    hide Step, Resets, WithByte;
  }
}
