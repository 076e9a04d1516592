// The header-value recognisers: a Transfer-Encoding value is compared with "chunked", and a
// Connection value is read as a comma-separated list of keywords.
module Values {
  import opened Chars
  import opened Alphabets
  import opened Types
  import opened Events
  import opened Views
  import opened Headers
  import opened Machine
  import opened Runs
  import opened Lengths

  // t is the beginning of a keyword, in any case.
  predicate Starts(word: string, t: string) {
    |t| <= |word| && forall k :: 0 <= k < |t| ==> SameLetter(t[k], word[k])
  }

  predicate Spaces(s: string) { forall k :: 0 <= k < |s| ==> s[k] == ' ' }

  // t is the keyword in any case, followed by spaces only.
  predicate Spells(word: string, t: string) {
    |word| <= |t| && Starts(word, t[..|word|]) && Spaces(t[|word|..])
  }

  predicate Partly(word: string, t: string) { 0 < |t| < |word| && Starts(word, t) }

  // Text of one value line without a comma, and without one.
  predicate IsLine(s: string) { forall k :: 0 <= k < |s| ==> !IsEol(s[k]) }
  predicate IsItem(s: string) { forall k :: 0 <= k < |s| ==> !IsEol(s[k]) && s[k] != ',' }

  // How far the matcher of a keyword has come in t.
  predicate Match(word: string, t: string, h: HeaderState, index: nat, here: HeaderState, found: HeaderState) {
    Progress(word, t, index, h == here, h == found)
  }

  predicate Progress(word: string, t: string, index: nat, within: bool, done: bool) {
    && (within ==> Partly(word, t) && index == |t| - 1)
    && (done ==> Spells(word, t))
    && (!within && !done ==> !Partly(word, t) && !Spells(word, t))
  }

  predicate IsKeywordText(word: string) { forall k :: 0 <= k < |word| ==> word[k] in LOWER || word[k] == '-' }

  lemma StartsSnoc(word: string, t: string, c: char)
    requires IsKeywordText(word) && !IsEol(c)
    ensures Starts(word, t + [c]) <==> Starts(word, t) && |t| < |word| && Lower(c) == word[|t|]
  {
    hide SameLetter, Lower;
    var x := t + [c];
    if |t| < |word| {
      LowerSame(c, word[|t|]);
    }
    assert forall k :: 0 <= k < |t| ==> x[k] == t[k];
    assert x[|t|] == c;
  }

  lemma StartsOne(word: string, c: char)
    requires IsKeywordText(word) && !IsEol(c)
    ensures Starts(word, [c]) <==> |word| > 0 && Lower(c) == word[0]
  {
    hide SameLetter, Lower, IsKeywordText;
    StartsSnoc(word, [], c);
    assert [] + [c] == [c];
  }

  lemma SpellsSnoc(word: string, t: string, c: char)
    requires |word| > 0 && word[|word| - 1] != ' '
    ensures Spells(word, t + [c]) <==>
            (|t| + 1 == |word| && Starts(word, t + [c])) || (Spells(word, t) && c == ' ')
  {
    var x := t + [c];
    if |t| + 1 == |word| {
      assert x[..|word|] == x && x[|word|..] == [];
    } else if |word| <= |t| {
      assert x[..|word|] == t[..|word|];
      assert x[|word|..] == t[|word|..] + [c];
      assert x[|word|..][|t| - |word|] == c;
      assert forall k :: 0 <= k < |t| - |word| ==> x[|word|..][k] == t[|word|..][k];
    }
  }

  lemma KeywordTexts()
    ensures IsKeywordText(KEEP_ALIVE_NAME) && IsKeywordText(CLOSE_NAME) && IsKeywordText(UPGRADE_NAME)
    ensures IsKeywordText(CHUNKED_NAME)
  {
    KeywordText(KEEP_ALIVE_NAME);
    KeywordText(CLOSE_NAME);
    KeywordText(UPGRADE_NAME);
    KeywordText(CHUNKED_NAME);
  }

  lemma KeywordText(word: string)
    requires forall k :: 0 <= k < |word| ==> 'a' <= word[k] <= 'z' || word[k] == '-'
    ensures IsKeywordText(word)
  {
    forall k | 0 <= k < |word| && word[k] != '-'
      ensures word[k] in LOWER
    {
      LettersAt(word[k] as int - 'a' as int);
      assert LOWER[word[k] as int - 'a' as int] == word[k];
    }
  }

  lemma SpellsLong(word: string, t: string)
    ensures Spells(word, t) ==> |word| <= |t|
    ensures |t| == |word| ==> (Spells(word, t) <==> Starts(word, t))
  {
    if |t| == |word| {
      assert t[..|word|] == t && t[|word|..] == [];
    }
  }

  // One more byte for the matcher of a keyword.
  lemma MatchNext(word: string, t: string, h: HeaderState, index: nat, ch: char,
                  here: HeaderState, found: HeaderState, other: HeaderState, h': HeaderState)
    requires |word| > 1 && word[|word| - 1] != ' ' && |t| > 0
    requires here != found && other != here && other != found && IsKeywordText(word) && !IsEol(ch)
    requires Match(word, t, h, index, here, found)
    requires h == here ==> h' == Advance(word, index, Lower(ch), here, found, other)
    requires h == found ==> h' == if ch == ' ' then found else other
    requires h != here && h != found ==> h' != here && h' != found
    ensures Match(word, t + [ch], h', if h == here then index + 1 else index, here, found)
  {
    hide Lower, IsKeywordText, Progress, IsEol;
    ProgressNext(word, t, index, ch, h == here, h == found, h' == here, h' == found);
  }

  lemma ProgressNext(word: string, t: string, index: nat, ch: char,
                     within: bool, done: bool, within': bool, done': bool)
    requires |word| > 1 && word[|word| - 1] != ' ' && |t| > 0 && IsKeywordText(word) && !IsEol(ch)
    requires Progress(word, t, index, within, done) && !(within && done)
    requires var on := index + 1 < |word| && Lower(ch) == word[index + 1];
             && (within ==> within' == (on && index + 2 < |word|) && done' == (on && index + 2 == |word|))
             && (done ==> !within' && done' == (ch == ' '))
             && (!within && !done ==> !within' && !done')
    ensures Progress(word, t + [ch], if within then index + 1 else index, within', done')
  {
    hide Lower, IsKeywordText, Starts, Spells, IsEol;
    StartsSnoc(word, t, ch);
    SpellsSnoc(word, t, ch);
    SpellsLong(word, t);
    SpellsLong(word, t + [ch]);
  }

  // The first byte.
  lemma MatchOne(word: string, ch: char, h: HeaderState, here: HeaderState, found: HeaderState)
    requires |word| > 1 && IsKeywordText(word) && !IsEol(ch)
    requires (h == here <==> Lower(ch) == word[0]) && h != found
    ensures Match(word, [ch], h, 0, here, found)
  {
    hide IsKeywordText, Starts, Lower, Spells;
    StartsOne(word, ch);
    SpellsLong(word, [ch]);
  }

  // Transfer-Encoding: what the recogniser state says about the value read so far.
  predicate Coding(t: string, h: HeaderState, index: nat) {
    && (h.MatchingChunked? || h.Chunked? || h.General?)
    && Match(CHUNKED_NAME, t, h, index, MatchingChunked, Chunked)
  }

  lemma CodingNext(t: string, h: HeaderState, index: nat, ch: char)
    requires |t| > 0 && Coding(t, h, index) && !IsEol(ch)
    ensures Coding(t + [ch], ValueNext(h, index, ch), IndexNext(h, index, ch))
    ensures forall f {:trigger FlagsNext(f, h, ch)} :: FlagsNext(f, h, ch) == f
  {
    hide IsKeywordText;
    KeywordTexts();
    MatchNext(CHUNKED_NAME, t, h, index, ch, MatchingChunked, Chunked, General, ValueNext(h, index, ch));
  }

  // Connection: what the recogniser state says about the list element read so far.
  predicate Element(t: string, h: HeaderState, index: nat) {
    && (h.MatchingKeepAlive? || h.KeepAlive? || h.MatchingClose? || h.Close? || h.MatchingConnUpgrade? ||
        h.ConnUpgrade? || h.MatchingToken?)
    && Match(KEEP_ALIVE_NAME, t, h, index, MatchingKeepAlive, KeepAlive)
    && Match(CLOSE_NAME, t, h, index, MatchingClose, Close)
    && Match(UPGRADE_NAME, t, h, index, MatchingConnUpgrade, ConnUpgrade)
  }

  lemma ElementNext(t: string, h: HeaderState, index: nat, ch: char)
    requires |t| > 0 && Element(t, h, index) && !IsEol(ch) && ch != ','
    ensures Element(t + [ch], ValueNext(h, index, ch), IndexNext(h, index, ch))
    ensures forall f {:trigger FlagsNext(f, h, ch)} :: FlagsNext(f, h, ch) == f
  {
    hide IsKeywordText, Partly, Spells, Lower;
    KeywordTexts();
    var h' := ValueNext(h, index, ch);
    MatchNext(KEEP_ALIVE_NAME, t, h, index, ch, MatchingKeepAlive, KeepAlive, MatchingToken, h');
    MatchNext(CLOSE_NAME, t, h, index, ch, MatchingClose, Close, MatchingToken, h');
    MatchNext(UPGRADE_NAME, t, h, index, ch, MatchingConnUpgrade, ConnUpgrade, MatchingToken, h');
  }

  lemma ValueByte(v: View, ch: char)
    requires !Halted(v) && v.state == Hdr(FieldValue) && !v.hstate.ContentLength? && !IsEol(ch)
    ensures Step(v, ch) ==
            Tell(v.(hstate := ValueNext(v.hstate, v.index, ch), index := IndexNext(v.hstate, v.index, ch),
                    flags := FlagsNext(v.flags, v.hstate, ch)),
                 Data(Events.Value, [ch]))
  {
    hide ValueNext, IndexNext, FlagsNext;
  }

  lemma FirstByte(v: View, ch: char)
    requires !Halted(v) && v.state == Hdr(DiscardWs) && !IsBlank(ch) && !IsEol(ch) && !v.hstate.ContentLength?
    ensures Step(v, ch) ==
            Tell(v.(state := Hdr(FieldValue), index := 0, hstate := FirstValueState(v.hstate, Lower(ch)),
                    flags := if v.hstate.Upgrade? then v.flags.(upgrade := true) else v.flags),
                 Data(Events.Value, [ch]))
  {
    hide FirstValueState, Lower;
  }

  // The end of a value line.
  lemma LineEnd(v: View)
    requires !Halted(v) && v.state == Hdr(FieldValue)
    ensures Feed(v, [CR, LF]) == v.(state := Hdr(ValueLws))
  {
    var w := v.(state := Hdr(HeaderAlmostDone));
    assert Step(v, CR) == w;
    assert Step(w, LF) == v.(state := Hdr(ValueLws));
    hide Step, Feed;
    FeedCons(v, [CR, LF]);
    assert [CR, LF][1..] == [LF];
    FeedOne(w, LF);
  }

  // The value goes on with s: its bytes are collected, and the recogniser moves to h.
  predicate Moves(v: View, s: string, f: Flags, h: HeaderState, index: nat) {
    Feed(v, s) == v.(flags := f, hstate := h, index := index, trace := Emit(v.trace, Data(Events.Value, s)))
  }

  predicate InValue(v: View) {
    !Halted(v) && v.state == Hdr(FieldValue) && !v.hstate.ContentLength? && EndsIn(v.trace, Events.Value)
  }

  lemma MovesNowhere(v: View)
    requires InValue(v)
    ensures Moves(v, [], v.flags, v.hstate, v.index)
  {
    FeedNothing(v);
    EmitNothing(v.trace, Events.Value);
  }

  lemma MovesCons(v: View, s: string, f: Flags, h: HeaderState, index: nat)
    requires InValue(v) && |s| > 0 && !IsEol(s[0]) && Moves(Step(v, s[0]), s[1..], f, h, index)
    ensures Moves(v, s, f, h, index)
  {
    hide Step, Feed, ValueNext, IndexNext, FlagsNext;
    ValueByte(v, s[0]);
    FeedCons(v, s);
    EmitTwice(v.trace, Events.Value, [s[0]], s[1..]);
    assert [s[0]] + s[1..] == s;
  }

  lemma MovesOn(v: View, s: string, f: Flags, h: HeaderState, index: nat, u: string,
                f': Flags, h': HeaderState, index': nat)
    requires InValue(v) && Moves(v, s, f, h, index) && Moves(Feed(v, s), u, f', h', index')
    ensures Moves(v, s + u, f', h', index')
  {
    hide Feed;
    FeedConcat(v, s, u);
    EmitTwice(v.trace, Events.Value, s, u);
  }

  lemma {:induction false} CodingTail(v: View, t: string, s: string) returns (h: HeaderState, index: nat)
    requires InValue(v) && |t| > 0 && Coding(t, v.hstate, v.index) && IsLine(s)
    ensures Moves(v, s, v.flags, h, index) && Coding(t + s, h, index)
    decreases |s|
  {
    hide Step, Coding, Moves, InValue;
    if |s| == 0 {
      assert s == [] && t + s == t;
      MovesNowhere(v);
      return v.hstate, v.index;
    }
    var w := CodingByte(v, t, s[0]);
    h, index := CodingTail(w, t + [s[0]], s[1..]);
    MovesCons(v, s, v.flags, h, index);
    assert t + [s[0]] + s[1..] == t + s;
  }

  lemma CodingByte(v: View, t: string, ch: char) returns (w: View)
    requires InValue(v) && |t| > 0 && Coding(t, v.hstate, v.index) && !IsEol(ch)
    ensures w == Step(v, ch) && InValue(w) && Coding(t + [ch], w.hstate, w.index) && w.flags == v.flags
  {
    hide Step, Coding, ValueNext, IndexNext, FlagsNext;
    ValueByte(v, ch);
    CodingNext(t, v.hstate, v.index, ch);
    w := Step(v, ch);
    CodingNotLength(t + [ch], w.hstate, w.index);
  }

  lemma CodingNotLength(t: string, h: HeaderState, index: nat)
    requires Coding(t, h, index)
    ensures !h.ContentLength?
  {
  }

  lemma CodingFirst(ch: char)
    requires !IsEol(ch)
    ensures Coding([ch], FirstValueState(TransferEncoding, Lower(ch)), 0)
  {
    hide IsKeywordText, Match, Lower;
    KeywordTexts();
    MatchOne(CHUNKED_NAME, ch, FirstValueState(TransferEncoding, Lower(ch)), MatchingChunked, Chunked);
  }

  lemma CodingWhole(t: string, h: HeaderState, index: nat, f: Flags)
    requires Coding(t, h, index)
    ensures Mark(f, h) == if Spells(CHUNKED_NAME, t) then f.(chunked := true) else f
  {
    hide Starts;
  }

  // F_CHUNKED is set by an unfolded value exactly when it is "chunked" in any case, then only spaces.
  lemma ChunkedExact(v: View, s: string)
    requires !Halted(v) && v.state == Hdr(DiscardWs) && v.hstate == TransferEncoding
    requires |s| > 0 && IsLine(s) && !IsBlank(s[0])
    ensures var w := Feed(v, s + [CR, LF]);
            && !Halted(w) && w.state == Hdr(ValueLws) && w.trace == Emit(v.trace, Data(Events.Value, s))
            && Mark(w.flags, w.hstate) == if Spells(CHUNKED_NAME, s) then v.flags.(chunked := true) else v.flags
  {
    hide Step, Feed, Coding, Mark, FirstValueState, Spells;
    FirstByte(v, s[0]);
    CodingFirst(s[0]);
    var w := Step(v, s[0]);
    CodingNotLength([s[0]], w.hstate, w.index);
    var h, index := CodingTail(w, [s[0]], s[1..]);
    FeedCons(v, s);
    EmitTwice(v.trace, Events.Value, [s[0]], s[1..]);
    assert [s[0]] + s[1..] == s;
    CodingWhole(s, h, index, v.flags);
    FeedConcat(v, s, [CR, LF]);
    LineEnd(Feed(v, s));
  }

  lemma {:induction false} ElementTail(v: View, t: string, s: string) returns (h: HeaderState, index: nat)
    requires InValue(v) && |t| > 0 && Element(t, v.hstate, v.index) && IsItem(s)
    ensures Moves(v, s, v.flags, h, index) && Element(t + s, h, index)
    decreases |s|
  {
    hide Step, Element, Moves, InValue;
    if |s| == 0 {
      assert s == [] && t + s == t;
      MovesNowhere(v);
      return v.hstate, v.index;
    }
    var w := ElementByte(v, t, s[0]);
    h, index := ElementTail(w, t + [s[0]], s[1..]);
    MovesCons(v, s, v.flags, h, index);
    assert t + [s[0]] + s[1..] == t + s;
  }

  lemma ElementByte(v: View, t: string, ch: char) returns (w: View)
    requires InValue(v) && |t| > 0 && Element(t, v.hstate, v.index) && !IsEol(ch) && ch != ','
    ensures w == Step(v, ch) && InValue(w) && Element(t + [ch], w.hstate, w.index) && w.flags == v.flags
  {
    hide Step, Element, ValueNext, IndexNext, FlagsNext;
    ValueByte(v, ch);
    ElementNext(t, v.hstate, v.index, ch);
    w := Step(v, ch);
    ElementNotLength(t + [ch], w.hstate, w.index);
  }

  lemma ElementNotLength(t: string, h: HeaderState, index: nat)
    requires Element(t, h, index)
    ensures !h.ContentLength?
  {
  }

  // How the recogniser judges a list element (or the part of one that it looks at).
  datatype Verdict = Keyword(h: HeaderState) | Beginning | Other | Nothing | Lost

  // t starts with the first byte of the element that is no space.
  function Judged(t: string): Verdict {
    if Spells(KEEP_ALIVE_NAME, t) then Keyword(KeepAlive)
    else if Spells(CLOSE_NAME, t) then Keyword(Close)
    else if Spells(UPGRADE_NAME, t) then Keyword(ConnUpgrade)
    else if Partly(KEEP_ALIVE_NAME, t) || Partly(CLOSE_NAME, t) || Partly(UPGRADE_NAME, t) then Beginning
    else Other
  }

  // Leading spaces are skipped in all elements but the first; a NUL passes for a space.
  function Trimmed(e: string): string
    decreases |e|
  {
    if |e| > 0 && (e[0] == ' ' || e[0] == NUL) then Trimmed(e[1..]) else e
  }

  // An element after the first is looked at only if, folded, it starts like a token.
  function Judge(e: string): Verdict {
    var t := Trimmed(e);
    if |t| == 0 then Nothing else if IsToken(Lower(t[0])) then Judged(t) else Lost
  }

  // What the recogniser does with the next element: it looks at it, it lets it pass because the comma
  // before it was taken for the end of a keyword that was only begun, or it has given up.
  datatype Mode = Look | Pass | GaveUp

  function NextMode(mode: Mode, d: Verdict): Mode {
    match mode
    case Look => if d.Beginning? then Pass else if d.Nothing? || d.Lost? then GaveUp else Look
    case Pass => Look
    case GaveUp => GaveUp
  }

  function Marked(f: Flags, mode: Mode, d: Verdict): Flags {
    if mode.Look? && d.Keyword? then Mark(f, d.h) else f
  }

  // The flags after the elements, the first of which is met in the given mode.
  function Scan(f: Flags, mode: Mode, es: seq<string>): Flags
    decreases |es|
  {
    if |es| == 0 then f
    else Scan(Marked(f, mode, Judge(es[0])), NextMode(mode, Judge(es[0])), es[1..])
  }

  function Listed(es: seq<string>): string
    decreases |es|
  {
    if |es| == 0 then [] else if |es| == 1 then es[0] else es[0] + ([','] + Listed(es[1..]))
  }

  // The recogniser state between two elements.
  predicate AtElement(h: HeaderState, index: nat, mode: Mode) {
    match mode
    case Look => h == MatchingTokenStart && index == 0
    case Pass => h == MatchingToken
    case GaveUp => h == General
  }

  // The recogniser state at the end of an element with verdict d.
  predicate AtEnd(h: HeaderState, mode: Mode, d: Verdict) {
    match mode
    case Look =>
      (match d
       case Keyword(k) => h == k
       case Beginning => IsMatcher(h) && !h.MatchingChunked?
       case Other => h == MatchingToken
       case Nothing => h == MatchingTokenStart
       case Lost => h == General)
    case Pass => h == MatchingToken
    case GaveUp => h == General
  }

  lemma JudgedRight(t: string, h: HeaderState, index: nat)
    requires Element(t, h, index) && |t| > 0
    ensures AtEnd(h, Look, Judged(t))
  {
    hide Starts, Lower;
    assert KEEP_ALIVE_NAME[0] == 'k' && CLOSE_NAME[0] == 'c' && UPGRADE_NAME[0] == 'u';
  }

  lemma ElementFirst(ch: char, h: HeaderState)
    requires h == FirstValueState(Connection, Lower(ch)) || (h == TokenStart(Lower(ch)) && IsToken(Lower(ch)))
    requires !IsEol(ch)
    ensures Element([ch], h, 0)
  {
    hide IsKeywordText, Match, Lower, Token;
    KeywordTexts();
    MatchOne(KEEP_ALIVE_NAME, ch, h, MatchingKeepAlive, KeepAlive);
    MatchOne(CLOSE_NAME, ch, h, MatchingClose, Close);
    MatchOne(UPGRADE_NAME, ch, h, MatchingConnUpgrade, ConnUpgrade);
  }

  // In an element that is not looked at nothing changes.
  lemma {:induction false} SkipRun(v: View, s: string)
    requires InValue(v) && ((v.hstate == MatchingToken && IsItem(s)) || (v.hstate == General && IsLine(s)))
    ensures Moves(v, s, v.flags, v.hstate, v.index)
    decreases |s|
  {
    hide Step, Moves;
    if |s| == 0 {
      assert s == [];
      MovesNowhere(v);
    } else {
      ValueByte(v, s[0]);
      SkipRun(Step(v, s[0]), s[1..]);
      MovesCons(v, s, v.flags, v.hstate, v.index);
    }
  }

  lemma StartByte(v: View, ch: char) returns (w: View)
    requires InValue(v) && v.hstate == MatchingTokenStart && v.index == 0 && !IsEol(ch)
    ensures w == Step(v, ch) && InValue(w) && w.flags == v.flags && w.index == 0
    ensures w.hstate == if ch == ' ' || ch == NUL then MatchingTokenStart
                        else if IsToken(Lower(ch)) then TokenStart(Lower(ch)) else General
  {
    hide Step, Token;
    ValueByte(v, ch);
    w := Step(v, ch);
    assert Token('k') != NUL && Token('c') != NUL && Token('u') != NUL && Token(' ') == NUL by { Letters(); }
  }

  lemma Letters()
    ensures Token('k') != NUL && Token('c') != NUL && Token('u') != NUL && Token(' ') == NUL
  {
  }

  // One element that is looked at.
  lemma {:induction false} LookRun(v: View, e: string) returns (h: HeaderState, index: nat)
    requires InValue(v) && v.hstate == MatchingTokenStart && v.index == 0 && IsItem(e)
    ensures Moves(v, e, v.flags, h, index) && AtEnd(h, Look, Judge(e))
    decreases |e|
  {
    hide Step, Moves, Judged, InValue, Element, IsToken, Lower, TokenStart;
    if |e| == 0 {
      assert e == [];
      MovesNowhere(v);
      return v.hstate, v.index;
    }
    var w := StartByte(v, e[0]);
    if e[0] == ' ' || e[0] == NUL {
      h, index := LookRun(w, e[1..]);
    } else if IsToken(Lower(e[0])) {
      ElementFirst(e[0], w.hstate);
      h, index := ElementTail(w, [e[0]], e[1..]);
      assert [e[0]] + e[1..] == e;
      JudgedRight(e, h, index);
    } else {
      h, index := w.hstate, w.index;
      SkipRun(w, e[1..]);
    }
    MovesCons(v, e, v.flags, h, index);
  }

  // One element, from the comma before it to the one after it.
  lemma ElementRun(v: View, mode: Mode, e: string) returns (h: HeaderState, index: nat)
    requires InValue(v) && AtElement(v.hstate, v.index, mode) && IsItem(e)
    ensures Moves(v, e, v.flags, h, index) && AtEnd(h, mode, Judge(e))
  {
    hide Moves, Judge;
    if mode.Look? {
      h, index := LookRun(v, e);
    } else {
      SkipRun(v, e);
      h, index := v.hstate, v.index;
    }
  }

  lemma Comma(v: View, mode: Mode, d: Verdict) returns (w: View)
    requires InValue(v) && AtEnd(v.hstate, mode, d) && (d.Keyword? ==> IsKeyword(d.h))
    ensures w == Step(v, ',') && InValue(w) && AtElement(w.hstate, w.index, NextMode(mode, d))
    ensures w.flags == Marked(v.flags, mode, d)
  {
    hide Step;
    ValueByte(v, ',');
    w := Step(v, ',');
  }

  lemma JudgeKeyword(e: string)
    ensures Judge(e).Keyword? ==> IsKeyword(Judge(e).h)
    ensures Judged(e).Keyword? ==> IsKeyword(Judged(e).h)
  {
    hide Spells, Partly;
  }

  lemma EndMark(f: Flags, h: HeaderState, mode: Mode, d: Verdict)
    requires AtEnd(h, mode, d)
    ensures Mark(f, h) == Marked(f, mode, d)
  {
  }

  lemma MovedInto(v: View, s: string, f: Flags, h: HeaderState, index: nat)
    requires InValue(v) && Moves(v, s, f, h, index) && !h.ContentLength?
    ensures InValue(Feed(v, s)) && Feed(v, s).hstate == h && Feed(v, s).index == index && Feed(v, s).flags == f
  {
    hide Feed;
  }

  // The elements of a list, one after the other.
  lemma {:induction false} ListRun(v: View, mode: Mode, es: seq<string>)
      returns (f: Flags, h: HeaderState, index: nat)
    requires InValue(v) && AtElement(v.hstate, v.index, mode)
    requires |es| > 0 && forall k :: 0 <= k < |es| ==> IsItem(es[k])
    ensures Moves(v, Listed(es), f, h, index) && !h.ContentLength? && Mark(f, h) == Scan(v.flags, mode, es)
    decreases |es|
  {
    hide Step, Moves, InValue, Judge, IsItem, Mark;
    var d := Judge(es[0]);
    h, index := ElementRun(v, mode, es[0]);
    f := v.flags;
    JudgeKeyword(es[0]);
    AtEndNotLength(h, mode, d);
    if |es| == 1 {
      EndMark(f, h, mode, d);
      assert Scan(f, mode, es) == Scan(Marked(f, mode, d), NextMode(mode, d), es[1..]) == Marked(f, mode, d);
    } else {
      var x, rest := Feed(v, es[0]), Listed(es[1..]);
      MovedInto(v, es[0], f, h, index);
      var w := Comma(x, mode, d);
      var h0, i0, g := h, index, f;
      f, h, index := ListRun(w, NextMode(mode, d), es[1..]);
      assert ([','] + rest)[1..] == rest;
      MovesCons(x, [','] + rest, f, h, index);
      MovesOn(v, es[0], g, h0, i0, [','] + rest, f, h, index);
    }
  }

  lemma AtEndNotLength(h: HeaderState, mode: Mode, d: Verdict)
    requires AtEnd(h, mode, d) && (d.Keyword? ==> IsKeyword(d.h))
    ensures !h.ContentLength?
  {
  }

  // The first element starts at a byte that is no blank. If it is empty, its comma is taken for a byte
  // of it, so that the next element passes.
  function ScanFirst(f: Flags, es: seq<string>): Flags
    requires |es| > 0
  {
    if |es[0]| == 0 then Scan(f, Pass, es[1..])
    else Scan(Marked(f, Look, Judged(es[0])), NextMode(Look, Judged(es[0])), es[1..])
  }

  lemma FirstElement(v: View, e: string) returns (w: View, h: HeaderState, index: nat)
    requires !Halted(v) && v.state == Hdr(DiscardWs) && v.hstate == Connection
    requires |e| > 0 && IsItem(e) && !IsBlank(e[0])
    ensures w == Feed(v, e) && InValue(w) && w.hstate == h && w.flags == v.flags
    ensures w == v.(state := Hdr(FieldValue), hstate := h, index := index,
                    trace := Emit(v.trace, Data(Events.Value, e)))
    ensures AtEnd(h, Look, Judged(e))
  {
    hide Step, Feed, FirstValueState, Element, AtEnd, Judged;
    FirstByte(v, e[0]);
    ElementFirst(e[0], FirstValueState(Connection, Lower(e[0])));
    var x := Step(v, e[0]);
    ElementNotLength([e[0]], x.hstate, x.index);
    h, index := ElementTail(x, [e[0]], e[1..]);
    assert [e[0]] + e[1..] == e;
    ElementNotLength(e, h, index);
    JudgedRight(e, h, index);
    FeedCons(v, e);
    EmitTwice(v.trace, Events.Value, [e[0]], e[1..]);
    w := Feed(v, e);
  }

  // What an unfolded Connection or Proxy-Connection value does to the flags, exactly.
  lemma ConnectionExact(v: View, es: seq<string>)
    requires !Halted(v) && v.state == Hdr(DiscardWs) && v.hstate == Connection
    requires |es| > 0 && forall k :: 0 <= k < |es| ==> IsItem(es[k])
    requires |Listed(es)| > 0 && !IsBlank(Listed(es)[0])
    ensures var w := Feed(v, Listed(es) + [CR, LF]);
            && !Halted(w) && w.state == Hdr(ValueLws) && w.trace == Emit(v.trace, Data(Events.Value, Listed(es)))
            && Mark(w.flags, w.hstate) == ScanFirst(v.flags, es)
  {
    hide Step, Feed, Judged, Mark, AtElement, AtEnd, Scan;
    var x, rest, mode := FirstPart(v, es);
    FeedConcat(v, Listed(es), [CR, LF]);
    if |es| == 1 && |es[0]| > 0 {
      LineEnd(x);
    } else {
      var g, h, index := ListRun(x, mode, es[1..]);
      FeedConcat(v, rest, Listed(es[1..]));
      EmitTwice(v.trace, Events.Value, rest, Listed(es[1..]));
      LineEnd(Feed(v, Listed(es)));
    }
  }

  // The first element and the comma after it, if there is one.
  lemma FirstPart(v: View, es: seq<string>) returns (x: View, part: string, mode: Mode)
    requires !Halted(v) && v.state == Hdr(DiscardWs) && v.hstate == Connection
    requires |es| > 0 && forall k :: 0 <= k < |es| ==> IsItem(es[k])
    requires |Listed(es)| > 0 && !IsBlank(Listed(es)[0])
    ensures x == Feed(v, part) && InValue(x)
    ensures x.trace == Emit(v.trace, Data(Events.Value, part))
    ensures |es| == 1 ==> part == Listed(es) && Mark(x.flags, x.hstate) == ScanFirst(v.flags, es)
    ensures |es| > 1 ==> part + Listed(es[1..]) == Listed(es) && AtElement(x.hstate, x.index, mode)
    ensures |es| > 1 ==> Scan(x.flags, mode, es[1..]) == ScanFirst(v.flags, es)
  {
    hide Step, Feed, Judged, AtEnd;
    if |es[0]| == 0 {
      mode, part := Pass, [','];
      assert es[0] == [] && Listed(es) == [','] + Listed(es[1..]);
      x := CommaFirst(v);
    } else {
      var h, index;
      x, h, index := FirstElement(v, es[0]);
      JudgeKeyword(es[0]);
      part, mode := es[0], NextMode(Look, Judged(es[0]));
      if |es| == 1 {
        EndMark(v.flags, h, Look, Judged(es[0]));
        hide Mark, Marked;
        assert Scan(Marked(v.flags, Look, Judged(es[0])), mode, es[1..]) == Marked(v.flags, Look, Judged(es[0]));
      } else {
        hide Scan, InValue, Marked;
        var w := Comma(x, Look, Judged(es[0]));
        CommaAfter(v, x, es[0]);
        x, part := w, es[0] + [','];
        assert es[0] + [','] + Listed(es[1..]) == es[0] + ([','] + Listed(es[1..]));
      }
    }
  }

  lemma CommaFirst(v: View) returns (x: View)
    requires !Halted(v) && v.state == Hdr(DiscardWs) && v.hstate == Connection
    ensures x == Feed(v, [',']) && InValue(x) && x.hstate == MatchingToken && x.flags == v.flags
    ensures x.trace == Emit(v.trace, Data(Events.Value, [',']))
  {
    hide Step, Feed;
    FirstByte(v, ',');
    FeedOne(v, ',');
    x := Feed(v, [',']);
  }

  lemma CommaAfter(v: View, x: View, e: string)
    requires x == Feed(v, e) && InValue(x) && x.trace == Emit(v.trace, Data(Events.Value, e))
    ensures Feed(v, e + [',']) == Step(x, ',') && Step(x, ',').trace == Emit(v.trace, Data(Events.Value, e + [',']))
  {
    hide Step, Feed;
    ValueByte(x, ',');
    FeedConcat(v, e, [',']);
    FeedOne(x, ',');
    EmitTwice(v.trace, Events.Value, e, [',']);
  }

  predicate Has(f: Flags, h: HeaderState) {
    (h == KeepAlive && f.keepAlive) || (h == Close && f.close) || (h == ConnUpgrade && f.connUpgrade)
  }

  // The mode in which the k-th element is met.
  function ModeAt(mode: Mode, es: seq<string>, k: nat): Mode
    requires k <= |es|
    decreases k
  {
    if k == 0 then mode else NextMode(ModeAt(mode, es, k - 1), Judge(es[k - 1]))
  }

  predicate SetBy(mode: Mode, es: seq<string>, k: nat, h: HeaderState) {
    k < |es| && ModeAt(mode, es, k).Look? && Judge(es[k]) == Keyword(h)
  }

  // A flag is set exactly if some element that is looked at is its keyword, with the spaces around it
  // dropped and in lower case.
  lemma {:induction false} ScanExact(f: Flags, mode: Mode, es: seq<string>, h: HeaderState)
    requires IsKeyword(h)
    ensures Has(Scan(f, mode, es), h) <==> Has(f, h) || exists k: nat :: SetBy(mode, es, k, h)
    decreases |es|
  {
    hide Judge, NextMode;
    if |es| > 0 {
      var d, rest := Judge(es[0]), es[1..];
      JudgeKeyword(es[0]);
      MarkedHas(f, mode, d, h);
      ScanExact(Marked(f, mode, d), NextMode(mode, d), rest, h);
      assert SetBy(mode, es, 0, h) <==> mode.Look? && d == Keyword(h);
      hide Marked, Has, SetBy;
      forall k: nat ensures SetBy(NextMode(mode, d), rest, k, h) <==> SetBy(mode, es, k + 1, h) {
        SetByShift(mode, es, k, h);
      }
      if exists k: nat :: SetBy(mode, es, k, h) {
        var k: nat :| SetBy(mode, es, k, h);
        if k > 0 {
          assert SetBy(NextMode(mode, d), rest, k - 1, h);
        }
      }
    }
  }

  lemma MarkedHas(f: Flags, mode: Mode, d: Verdict, h: HeaderState)
    requires IsKeyword(h) && (d.Keyword? ==> IsKeyword(d.h))
    ensures Has(Marked(f, mode, d), h) <==> Has(f, h) || (mode.Look? && d == Keyword(h))
  {
  }

  lemma {:induction false} ModeShift(mode: Mode, es: seq<string>, k: nat)
    requires k < |es|
    ensures ModeAt(NextMode(mode, Judge(es[0])), es[1..], k) == ModeAt(mode, es, k + 1)
    decreases k
  {
    hide Judge, NextMode;
    if k > 0 {
      ModeShift(mode, es, k - 1);
    }
  }

  lemma SetByShift(mode: Mode, es: seq<string>, k: nat, h: HeaderState)
    requires |es| > 0
    ensures SetBy(NextMode(mode, Judge(es[0])), es[1..], k, h) <==> SetBy(mode, es, k + 1, h)
  {
    hide Judge, NextMode, ModeAt;
    if k < |es| {
      ModeShift(mode, es, k);
    }
  }

  // Every element is looked at as long as none of those before it is empty, or only the beginning of a
  // keyword, or no token.
  lemma {:induction false} AllLookedAt(es: seq<string>, k: nat)
    requires k <= |es| && forall i :: 0 <= i < k ==> Judge(es[i]).Keyword? || Judge(es[i]).Other?
    ensures ModeAt(Look, es, k).Look?
    decreases k
  {
    hide Judge;
    if k > 0 {
      AllLookedAt(es, k - 1);
    }
  }

  // What an unfolded value does to one flag. The first element is looked at without dropping spaces.
  lemma ConnectionFlag(f: Flags, es: seq<string>, h: HeaderState)
    requires |es| > 0 && IsKeyword(h)
    ensures var mode := if es[0] == [] then Pass else NextMode(Look, Judged(es[0]));
            Has(ScanFirst(f, es), h) <==>
              Has(f, h) || (es[0] != [] && Judged(es[0]) == Keyword(h)) || exists k: nat :: SetBy(mode, es[1..], k, h)
  {
    hide Judged, NextMode, Marked, Has, Scan;
    JudgeKeyword(es[0]);
    MarkedHas(f, Look, Judged(es[0]), h);
    if es[0] == [] {
      ScanExact(f, Pass, es[1..], h);
    } else {
      ScanExact(Marked(f, Look, Judged(es[0])), NextMode(Look, Judged(es[0])), es[1..], h);
    }
  }

  // An element that only begins a keyword hides the element after it: "clo,close" does not close.
  lemma BeginningHides(f: Flags)
    ensures ScanFirst(f, ["clo", "close"]) == f
  {
    var e := "clo";
    assert |e| == 3 && e[0] == 'c' && e[1] == 'l' && e[2] == 'o';
    assert Starts(CLOSE_NAME, e);
    assert Judged(e).Beginning?;
    assert ["clo", "close"][1..] == ["close"];
    hide Judge, Judged, Spells, Partly, Starts;
    assert Scan(f, Pass, ["close"]) == Scan(Marked(f, Pass, Judge("close")), Look, ["close"][1..]) == f;
  }
}
