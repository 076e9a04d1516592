// The two 64-bit accumulators: Content-Length and the chunk size.
module Lengths {
  import opened Chars
  import opened Types
  import opened Events
  import opened Views
  import opened Machine
  import opened Runs

  // The largest values the guards let through.
  const MAX_LENGTH: int := TWO_64 - 7
  const MAX_CHUNK: int := TWO_64 - 17

  lemma FeedOne(v: View, ch: char)
    requires !Halted(v)
    ensures Feed(v, [ch]) == Step(v, ch)
  {
    RunOne(v, [ch], 0);
  }

  lemma FeedHalted(v: View, data: string)
    requires Halted(v)
    ensures Feed(v, data) == v
  {
  }

  lemma FeedCons(v: View, data: string)
    requires |data| > 0 && !Halted(v)
    ensures Feed(v, data) == Feed(Step(v, data[0]), data[1..])
  {
    hide Step;
    assert data == [data[0]] + data[1..];
    FeedConcat(v, [data[0]], data[1..]);
    FeedOne(v, data[0]);
  }

  // A Content-Length value after its first digit: digits, and spaces that are dropped.
  predicate IsLengthText(s: string) { forall k :: 0 <= k < |s| ==> IsNum(s[k]) || s[k] == ' ' }

  function Decimal(n: nat, s: string): nat
    requires IsLengthText(s)
    decreases |s|
  {
    if |s| == 0 then n
    else if s[0] == ' ' then Decimal(n, s[1..])
    else Decimal(n * 10 + Digit(s[0]), s[1..])
  }

  lemma {:induction false} DecimalGrows(n: nat, s: string)
    requires IsLengthText(s)
    ensures Decimal(n, s) >= n
    decreases |s|
  {
    if |s| > 0 {
      DecimalGrows(if s[0] == ' ' then n else n * 10 + Digit(s[0]), s[1..]);
    }
  }

  lemma LengthByte(v: View, ch: char)
    requires !Halted(v) && v.state == Hdr(FieldValue) && v.hstate.ContentLength? && v.contentLength <= MAX_LENGTH
    requires IsNum(ch) || ch == ' '
    ensures var n := if ch == ' ' then v.contentLength else v.contentLength * 10 + Digit(ch);
            Step(v, ch) == if n <= MAX_LENGTH then Tell(v.(contentLength := n), Data(Events.Value, [ch]))
                           else Fail(v, InvalidContentLength)
  {
  }

  // The value is accepted exactly when it is at most 2^64 - 7, and then it is what is stored.
  lemma {:induction false} LengthExact(v: View, s: string)
    requires !Halted(v) && v.state == Hdr(FieldValue) && v.hstate.ContentLength? && v.contentLength <= MAX_LENGTH
    requires IsLengthText(s) && |s| > 0
    ensures Decimal(v.contentLength, s) <= MAX_LENGTH ==>
              Feed(v, s) == Tell(v.(contentLength := Decimal(v.contentLength, s)), Data(Events.Value, s))
    ensures Decimal(v.contentLength, s) > MAX_LENGTH ==> Feed(v, s).errno == InvalidContentLength
    decreases |s|
  {
    hide Step, Feed;
    var ch, w := s[0], Step(v, s[0]);
    LengthByte(v, ch);
    FeedCons(v, s);
    if Halted(w) {
      FeedHalted(w, s[1..]);
      DecimalGrows(v.contentLength * 10 + Digit(ch), s[1..]);
    } else if |s| > 1 {
      LengthExact(w, s[1..]);
      EmitTwice(v.trace, Events.Value, [ch], s[1..]);
      assert [ch] + s[1..] == s;
    } else {
      assert s[1..] == [] && s == [ch];
      assert Decimal(w.contentLength, []) == w.contentLength;
      FeedNothing(w);
    }
  }

  lemma FeedNothing(v: View)
    ensures Feed(v, []) == v
  {
  }

  lemma DecimalFirst(n: nat, s: string)
    requires IsLengthText(s) && |s| > 0 && IsNum(s[0])
    ensures Decimal(n, s) == Decimal(n * 10 + Digit(s[0]), s[1..]) && Digit(s[0]) <= 9
    ensures |s| == 1 ==> Decimal(n, s) == n * 10 + Digit(s[0])
  {
  }

  lemma DecimalNothing(n: nat)
    ensures Decimal(n, []) == n
  {
  }

  lemma FirstLengthByte(v: View, ch: char)
    requires !Halted(v) && v.state == Hdr(DiscardWs) && v.hstate.ContentLength? && IsNum(ch)
    ensures Step(v, ch) == Tell(v.(state := Hdr(FieldValue), index := 0, contentLength := Digit(ch)),
                                Data(Events.Value, [ch]))
  {
  }

  // The whole value of an unfolded Content-Length header, after blanks: 2^64 - 7 is the exact limit, so
  // the value never wraps and never is the marker of an absent length.
  lemma ContentLengthExact(v: View, s: string)
    requires !Halted(v) && v.state == Hdr(DiscardWs) && v.hstate.ContentLength?
    requires |s| > 0 && IsLengthText(s) && IsNum(s[0])
    ensures Decimal(0, s) <= MAX_LENGTH ==>
              Decimal(0, s) < ULLONG_MAX &&
              Feed(v, s) == Tell(v.(state := Hdr(FieldValue), index := 0, contentLength := Decimal(0, s)),
                                 Data(Events.Value, s))
    ensures Decimal(0, s) > MAX_LENGTH ==> Feed(v, s).errno == InvalidContentLength
  {
    hide Step, Feed, Decimal, IsNum, Digit, Emit, IsLengthText;
    DecimalFirst(0, s);
    FeedCons(v, s);
    FirstLengthByte(v, s[0]);
    var w := Step(v, s[0]);
    Tail(s);
    if |s| > 1 {
      LengthExact(w, s[1..]);
      EmitTwice(v.trace, Events.Value, [s[0]], s[1..]);
    } else {
      FeedNothing(w);
    }
  }

  lemma Tail(s: string)
    requires |s| > 0
    ensures [s[0]] + s[1..] == s && (|s| == 1 ==> s[1..] == [] && s == [s[0]])
    ensures IsLengthText(s) ==> IsLengthText(s[1..])
  {
  }

  predicate IsHexText(s: string) { forall k :: 0 <= k < |s| ==> Unhex(s[k]) != -1 }

  // The value of a run of unhex digits.
  function Hex(n: nat, s: string): nat
    requires IsHexText(s)
    decreases |s|
  {
    if |s| == 0 then n else Hex(n * 16 + Unhex(s[0]), s[1..])
  }

  lemma {:induction false} HexGrows(n: nat, s: string)
    requires IsHexText(s)
    ensures Hex(n, s) >= n
    decreases |s|
  {
    if |s| > 0 {
      HexGrows(n * 16 + Unhex(s[0]), s[1..]);
    }
  }

  lemma SizeByte(v: View, ch: char)
    requires !Halted(v) && v.state == Chunk(Size) && v.contentLength <= MAX_CHUNK && Unhex(ch) != -1
    ensures var n := v.contentLength * 16 + Unhex(ch);
            Step(v, ch) == if n <= MAX_CHUNK then v.(contentLength := n) else Fail(v, InvalidContentLength)
  {
    assert ch != CR;
  }

  lemma {:induction false} SizeExact(v: View, s: string)
    requires !Halted(v) && v.state == Chunk(Size) && v.contentLength <= MAX_CHUNK && IsHexText(s)
    ensures Hex(v.contentLength, s) <= MAX_CHUNK ==> Feed(v, s) == v.(contentLength := Hex(v.contentLength, s))
    ensures Hex(v.contentLength, s) > MAX_CHUNK ==> Feed(v, s).errno == InvalidContentLength
    decreases |s|
  {
    if |s| > 0 {
      SizeByte(v, s[0]);
      FeedCons(v, s);
      hide Step, Feed;
      if Halted(Step(v, s[0])) {
        FeedHalted(Step(v, s[0]), s[1..]);
        HexGrows(v.contentLength * 16 + Unhex(s[0]), s[1..]);
      } else {
        SizeExact(Step(v, s[0]), s[1..]);
      }
    } else {
      FeedNothing(v);
    }
  }

  lemma HexFirst(n: nat, s: string)
    requires IsHexText(s) && |s| > 0
    ensures Hex(n, s) == Hex(n * 16 + Unhex(s[0]), s[1..])
  {
  }

  lemma FirstSizeByte(v: View, ch: char)
    requires !Halted(v) && v.state == Chunk(SizeStart) && Unhex(ch) != -1
    ensures Step(v, ch) == v.(state := Chunk(Size), contentLength := Unhex(ch)) && Unhex(ch) <= 15
  {
  }

  // A chunk size is accepted exactly when it is at most 2^64 - 17, and then it is what is stored.
  lemma ChunkSizeExact(v: View, s: string)
    requires !Halted(v) && v.state == Chunk(SizeStart) && |s| > 0 && IsHexText(s)
    ensures Hex(0, s) <= MAX_CHUNK ==> Feed(v, s) == v.(state := Chunk(Size), contentLength := Hex(0, s))
    ensures Hex(0, s) > MAX_CHUNK ==> Feed(v, s).errno == InvalidContentLength
  {
    hide Step, Feed, Hex, Unhex;
    HexFirst(0, s);
    FeedCons(v, s);
    FirstSizeByte(v, s[0]);
    SizeExact(Step(v, s[0]), s[1..]);
  }
}
