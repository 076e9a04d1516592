// Numbers as they are written: what a text is worth is told by the places of its characters among the
// digits, and the parser's accumulators come to that.
module Numerals {
  import opened Chars
  import opened Types
  import opened Events
  import opened Views
  import opened Machine
  import opened Lengths
  import opened Values
  import opened Alphabets

  // s is n in base 10, with any number of leading zeros.
  predicate Writes(s: string, n: nat)
    decreases |s|
  {
    && |s| > 0 && s[|s| - 1] == DIGITS[n % 10]
    && if |s| == 1 then n < 10 else Writes(s[..|s| - 1], n / 10)
  }

  // s is n in base 16, with letters in any case.
  predicate WritesHex(s: string, n: nat)
    decreases |s|
  {
    && |s| > 0 && (s[|s| - 1] == LOWER_HEX[n % 16] || s[|s| - 1] == UPPER_HEX[n % 16])
    && if |s| == 1 then n < 16 else WritesHex(s[..|s| - 1], n / 16)
  }

  // The usual texts of a number.
  function DecimalText(n: nat): string {
    if n < 10 then [DIGITS[n]] else DecimalText(n / 10) + [DIGITS[n % 10]]
  }

  function HexText(n: nat): string {
    if n < 16 then [LOWER_HEX[n]] else HexText(n / 16) + [LOWER_HEX[n % 16]]
  }

  lemma {:induction false} TextWrites(n: nat)
    ensures Writes(DecimalText(n), n)
  {
    if n >= 10 {
      TextWrites(n / 10);
      assert DecimalText(n)[..|DecimalText(n)| - 1] == DecimalText(n / 10);
    }
  }

  lemma {:induction false} HexTextWrites(n: nat)
    ensures WritesHex(HexText(n), n)
  {
    if n >= 16 {
      HexTextWrites(n / 16);
      assert HexText(n)[..|HexText(n)| - 1] == HexText(n / 16);
    }
  }

  predicate AllDigits(s: string) { forall k :: 0 <= k < |s| ==> IsNum(s[k]) }

  lemma {:induction false} DecimalSnoc(n: nat, s: string, ch: char)
    requires IsLengthText(s) && IsNum(ch)
    ensures IsLengthText(s + [ch]) && Decimal(n, s + [ch]) == Decimal(n, s) * 10 + Digit(ch)
    decreases |s|
  {
    if |s| == 0 {
      assert s + [ch] == [ch];
      assert Decimal(n, [ch]) == Decimal(n * 10 + Digit(ch), [ch][1..]);
    } else {
      assert (s + [ch])[1..] == s[1..] + [ch];
      DecimalSnoc(if s[0] == ' ' then n else n * 10 + Digit(s[0]), s[1..], ch);
    }
  }

  // A text of digits writes exactly one number, the one that is accumulated.
  lemma {:induction false} DecimalWrites(s: string, n: nat)
    ensures Writes(s, n) <==> |s| > 0 && AllDigits(s) && IsLengthText(s) && Decimal(0, s) == n
    decreases |s|
  {
    if |s| > 0 {
      var most, ch := s[..|s| - 1], s[|s| - 1];
      assert s == most + [ch];
      DigitExact(ch);
      if |most| > 0 {
        DecimalWrites(most, n / 10);
      } else {
        assert most == [];
      }
      if AllDigits(s) {
        DecimalSnoc(0, most, ch);
      }
    }
  }

  lemma {:induction false} HexSnoc(n: nat, s: string, ch: char)
    requires IsHexText(s) && Unhex(ch) != -1
    ensures IsHexText(s + [ch]) && Hex(n, s + [ch]) == Hex(n, s) * 16 + Unhex(ch)
    decreases |s|
  {
    if |s| == 0 {
      assert s + [ch] == [ch];
      assert Hex(n, [ch]) == Hex(n * 16 + Unhex(ch), [ch][1..]);
    } else {
      assert (s + [ch])[1..] == s[1..] + [ch];
      HexSnoc(n * 16 + Unhex(s[0]), s[1..], ch);
    }
  }

  predicate IsAscii(s: string) { forall k :: 0 <= k < |s| ==> s[k] as int < 128 }

  // A text of hexadecimal digits, in whatever mix of cases, writes the number that is accumulated.
  lemma {:induction false} HexWrites(s: string, n: nat)
    ensures WritesHex(s, n) <==> |s| > 0 && IsAscii(s) && IsHexText(s) && Hex(0, s) == n
    decreases |s|
  {
    hide Unhex;
    if |s| > 0 {
      var most, ch := s[..|s| - 1], s[|s| - 1];
      assert s == most + [ch];
      HexDigitExact(ch, n % 16);
      if |most| > 0 {
        HexWrites(most, n / 16);
      } else {
        assert most == [];
      }
      if IsHexText(s) {
        HexSnoc(0, most, ch);
      }
    }
  }

  // A Content-Length value without its spaces.
  function Unspaced(s: string): string {
    if |s| == 0 then [] else if s[0] == ' ' then Unspaced(s[1..]) else [s[0]] + Unspaced(s[1..])
  }

  lemma AllDigitsCons(ch: char, s: string)
    ensures AllDigits([ch] + s) <==> IsNum(ch) && AllDigits(s)
  {
    var x := [ch] + s;
    assert x[0] == ch && x[1..] == s;
    assert forall k :: 0 <= k < |s| ==> s[k] == x[k + 1];
  }

  lemma {:induction false} DecimalUnspaced(n: nat, s: string)
    ensures IsLengthText(s) <==> AllDigits(Unspaced(s))
    ensures IsLengthText(s) ==> IsLengthText(Unspaced(s)) && Decimal(n, s) == Decimal(n, Unspaced(s))
    decreases |s|
  {
    if |s| > 0 {
      var rest := Unspaced(s[1..]);
      assert IsLengthText(s) <==> (IsNum(s[0]) || s[0] == ' ') && IsLengthText(s[1..]);
      if s[0] == ' ' {
        DecimalUnspaced(n, s[1..]);
      } else {
        DecimalUnspaced(if IsNum(s[0]) then n * 10 + Digit(s[0]) else n, s[1..]);
        assert Unspaced(s)[1..] == rest;
        AllDigitsCons(s[0], rest);
      }
    }
  }

  // The value of an unfolded Content-Length header, after blanks: the number it writes is stored, if it is
  // at most 2^64 - 7.
  lemma LengthStored(v: View, s: string, n: nat)
    requires !Halted(v) && v.state == Hdr(DiscardWs) && v.hstate.ContentLength?
    requires |s| > 0 && s[0] != ' ' && Writes(Unspaced(s), n)
    ensures n <= 18446744073709551609 ==>
              Feed(v, s) == Tell(v.(state := Hdr(FieldValue), index := 0, contentLength := n), Data(Events.Value, s))
    ensures n > 18446744073709551609 ==> Feed(v, s).errno == InvalidContentLength
  {
    hide Feed, Decimal, Writes, Step;
    DecimalWrites(Unspaced(s), n);
    DecimalUnspaced(0, s);
    ContentLengthExact(v, s);
  }

  lemma {:induction false} BadLength(v: View, s: string)
    requires !Halted(v) && v.state == Hdr(FieldValue) && v.hstate.ContentLength? && v.contentLength <= MAX_LENGTH
    requires IsLine(s) && !IsLengthText(s)
    ensures Feed(v, s).errno == InvalidContentLength
    decreases |s|
  {
    hide Step, Feed;
    FeedCons(v, s);
    if IsNum(s[0]) || s[0] == ' ' {
      LengthByte(v, s[0]);
    } else {
      BadLengthByte(v, s[0]);
    }
    if Halted(Step(v, s[0])) {
      FeedHalted(Step(v, s[0]), s[1..]);
    } else {
      BadLength(Step(v, s[0]), s[1..]);
    }
  }

  lemma BadLengthByte(v: View, ch: char)
    requires v.state == Hdr(FieldValue) && v.hstate.ContentLength? && !IsEol(ch) && !IsNum(ch) && ch != ' '
    ensures Step(v, ch) == Fail(v, InvalidContentLength)
  {
  }

  lemma FirstBadLengthByte(v: View, ch: char)
    requires !Halted(v) && v.state == Hdr(DiscardWs) && v.hstate.ContentLength?
    requires !IsBlank(ch) && !IsEol(ch) && !IsNum(ch)
    ensures Step(v, ch).errno == InvalidContentLength
  {
  }

  // Any other value is refused.
  lemma LengthRefused(v: View, s: string)
    requires !Halted(v) && v.state == Hdr(DiscardWs) && v.hstate.ContentLength?
    requires |s| > 0 && IsLine(s) && !IsBlank(s[0]) && forall n: nat :: !Writes(Unspaced(s), n)
    ensures Feed(v, s).errno == InvalidContentLength
  {
    hide Feed, Decimal, Writes, Step, Unspaced;
    FeedCons(v, s);
    DecimalUnspaced(0, s);
    if IsNum(s[0]) {
      FirstLengthByte(v, s[0]);
      Tail(s);
      if IsLengthText(s) {
        DigitsRemain(s);
        DecimalWrites(Unspaced(s), Decimal(0, Unspaced(s)));
      }
      BadLength(Step(v, s[0]), s[1..]);
    } else {
      FirstBadLengthByte(v, s[0]);
      FeedHalted(Step(v, s[0]), s[1..]);
    }
  }

  lemma DigitsRemain(s: string)
    requires |s| > 0 && s[0] != ' '
    ensures |Unspaced(s)| > 0
  {
  }

  // A chunk size: the number it writes is stored, if it is at most 2^64 - 17.
  lemma SizeStored(v: View, s: string, n: nat)
    requires !Halted(v) && v.state == Chunk(SizeStart) && WritesHex(s, n)
    ensures n <= 18446744073709551599 ==> Feed(v, s) == v.(state := Chunk(Size), contentLength := n)
    ensures n > 18446744073709551599 ==> Feed(v, s).errno == InvalidContentLength
  {
    hide Feed, Hex, WritesHex, Step;
    HexWrites(s, n);
    ChunkSizeExact(v, s);
  }

  // What may follow it, and what may not be there instead.
  lemma SizeByteExact(v: View, ch: char)
    requires !Halted(v) && (v.state == Chunk(SizeStart) || v.state == Chunk(Size)) && ch as int < 128
    requires ch !in LOWER_HEX && ch !in UPPER_HEX
    ensures Step(v, ch) ==
            if v.state == Chunk(Size) && ch == CR then v.(state := Chunk(SizeAlmostDone))
            else if v.state == Chunk(Size) && (ch == ';' || ch == ' ') then v.(state := Chunk(Parameters))
            else Fail(v, InvalidChunkSize)
  {
    UnhexExact(ch);
    hide Unhex;
  }
}
