// Header values that go on on the next line, after a blank.
module Folding {
  import opened Chars
  import opened Types
  import opened Events
  import opened Views
  import opened Headers
  import opened Machine
  import opened Invariant
  import opened Runs
  import opened Lengths
  import opened Values
  import opened Requests

  lemma FoldByte(v: View, ch: char)
    requires !Halted(v) && v.state == Hdr(ValueLws) && IsBlank(ch) && ValueState(v.hstate, v.index)
    ensures v.hstate.ContentLength? ==> Step(v, ch).errno == InvalidContentLength
    ensures !v.hstate.ContentLength? ==>
              Step(v, ch) ==
              Tell(v.(state := Hdr(FieldValue), index := 0,
                      hstate := if v.hstate.MatchingTokenStart? then MatchingTokenStart else General),
                   Data(Events.Value, [ch]))
  {
    hide Lower, Digit;
  }

  // A folded length is refused.
  lemma FoldedLength(v: View, s: string)
    requires !Halted(v) && v.state == Hdr(ValueLws) && v.hstate.ContentLength?
    requires |s| > 0 && IsBlank(s[0])
    ensures Feed(v, s).errno == InvalidContentLength
  {
    FoldByte(v, s[0]);
    hide Step, Feed;
    FeedCons(v, s);
    FeedHalted(Step(v, s[0]), s[1..]);
  }

  // The folded line is part of the value, with the blank before it. But what the recogniser has found in the
  // line before is forgotten: a keyword that ends a line that is folded sets no flag, and nothing in the folded
  // line does,
  lemma FoldForgets(v: View, s: string)
    requires !Halted(v) && v.state == Hdr(ValueLws) && ValueState(v.hstate, v.index) && EndsIn(v.trace, Events.Value)
    requires !v.hstate.ContentLength? && !v.hstate.MatchingTokenStart?
    requires |s| > 0 && IsBlank(s[0]) && IsLine(s)
    ensures Feed(v, s + [CR, LF]) ==
            v.(hstate := General, index := 0, trace := Emit(v.trace, Data(Events.Value, s)))
    ensures Mark(v.flags, General) == v.flags
  {
    FoldByte(v, s[0]);
    hide Step, Feed, IsBlank;
    var w := Step(v, s[0]);
    FeedCons(v, s);
    SkipRun(w, s[1..]);
    EmitTwice(v.trace, Events.Value, [s[0]], s[1..]);
    assert [s[0]] + s[1..] == s;
    FeedConcat(v, s, [CR, LF]);
    LineEnd(Feed(v, s));
  }

  // but that a list goes on after a comma at the end of the line before.
  lemma FoldGoesOn(v: View, s: string)
    requires !Halted(v) && v.state == Hdr(ValueLws) && v.hstate.MatchingTokenStart? && EndsIn(v.trace, Events.Value)
    requires |s| > 0 && IsBlank(s[0]) && IsLine(s)
    ensures var w := Feed(v, s + [CR, LF]);
            && !Halted(w) && w.state == Hdr(ValueLws) && w.trace == Emit(v.trace, Data(Events.Value, s))
            && Mark(w.flags, w.hstate) == Scan(v.flags, Look, Split(s[1..]))
  {
    FoldStart(v, s[0]);
    hide Step, Feed, IsBlank, Mark, Scan;
    var x := Step(v, s[0]);
    FeedCons(v, s);
    SplitRight(s[1..]);
    var f, h, index := ListRun(x, Look, Split(s[1..]));
    EmitTwice(v.trace, Events.Value, [s[0]], s[1..]);
    assert [s[0]] + s[1..] == s;
    FeedConcat(v, s, [CR, LF]);
    LineEnd(Feed(v, s));
  }

  lemma FoldStart(v: View, ch: char)
    requires !Halted(v) && v.state == Hdr(ValueLws) && v.hstate.MatchingTokenStart? && IsBlank(ch)
    ensures Step(v, ch) == Tell(v.(state := Hdr(FieldValue), index := 0), Data(Events.Value, [ch]))
  {
    hide Lower;
  }

  // A value that has not begun when its line is folded begins after the fold.
  lemma FoldedEmpty(v: View, ch: char)
    requires !Halted(v) && v.state == Hdr(DiscardWs) && IsBlank(ch)
    ensures Feed(v, [CR, LF] + [ch]) == v
  {
    EmptyRuns(v);
    FeedConcat(v, [CR, LF], [ch]);
    var w := v.(state := Hdr(DiscardLws));
    assert Step(w, ch) == v;
    hide Step, Feed;
    FeedOne(w, ch);
  }
}
