// The header-name recogniser is a case-insensitive comparison with five names.
module Names {
  import opened Chars
  import opened Alphabets
  import opened Types
  import opened Events
  import opened Views
  import opened Headers
  import opened Machine
  import opened Invariant
  import opened Runs
  import opened Lengths

  predicate IsName(s: string) { |s| > 0 && forall k :: 0 <= k < |s| ==> IsToken(s[k]) }

  // A name in lower case.
  function Lowered(s: string): string { seq(|s|, k requires 0 <= k < |s| => Token(s[k])) }

  predicate Begins(word: string, w: string) { |w| <= |word| && forall k :: 0 <= k < |w| ==> w[k] == word[k] }

  predicate Ordinary(w: string) {
    && !Begins(CONNECTION_NAME, w) && !Begins(PROXY_CONNECTION_NAME, w) && !Begins(CONTENT_LENGTH_NAME, w)
    && !Begins(TRANSFER_ENCODING_NAME, w) && !Begins(UPGRADE_NAME, w)
  }

  predicate Partly(word: string, w: string, least: nat, index: nat) {
    least <= |w| < |word| && index == |w| - 1 && Begins(word, w)
  }

  // What a recogniser state says about the name read so far.
  predicate Means(w: string, h: HeaderState, index: nat) {
    && |w| > 0
    && match h
       case General => Ordinary(w)
       case C => |w| == 1 && index == 0 && Begins(CONNECTION_NAME, w)
       case CO => |w| == 2 && index == 1 && Begins(CONNECTION_NAME, w)
       case CON => |w| == 3 && index == 2 && Begins(CONNECTION_NAME, w)
       case MatchingConnection => Partly(CONNECTION_NAME, w, 4, index)
       case MatchingProxyConnection => Partly(PROXY_CONNECTION_NAME, w, 1, index)
       case MatchingContentLength => Partly(CONTENT_LENGTH_NAME, w, 4, index)
       case MatchingTransferEncoding => Partly(TRANSFER_ENCODING_NAME, w, 1, index)
       case MatchingUpgrade => Partly(UPGRADE_NAME, w, 1, index)
       case Connection => w == CONNECTION_NAME || w == PROXY_CONNECTION_NAME
       case ContentLength => w == CONTENT_LENGTH_NAME
       case TransferEncoding => w == TRANSFER_ENCODING_NAME
       case Upgrade => w == UPGRADE_NAME
       case _ => false
  }

  lemma MeansFirst(c: char)
    ensures Means([c], NameStart(c), 0)
  {
    Apart([c]);
  }

  // Two of the five names agree on at most three letters.
  lemma Apart(w: string)
    requires |w| > 0
    ensures |w| > 3 ==> !(Begins(CONNECTION_NAME, w) && Begins(CONTENT_LENGTH_NAME, w))
    ensures w[0] != 'c' ==> !Begins(CONNECTION_NAME, w) && !Begins(CONTENT_LENGTH_NAME, w)
    ensures w[0] != 'p' ==> !Begins(PROXY_CONNECTION_NAME, w)
    ensures w[0] != 't' ==> !Begins(TRANSFER_ENCODING_NAME, w)
    ensures w[0] != 'u' ==> !Begins(UPGRADE_NAME, w)
  {
    if |w| > 3 && Begins(CONNECTION_NAME, w) {
      assert w[3] == 'n';
    }
  }

  lemma BeginsSnoc(word: string, w: string, c: char)
    ensures Begins(word, w + [c]) <==> Begins(word, w) && |w| < |word| && c == word[|w|]
  {
    var x := w + [c];
    assert forall k :: 0 <= k < |w| ==> x[k] == w[k];
    assert x[|w|] == c;
  }

  lemma BeginsWhole(word: string, w: string)
    ensures |w| == |word| ==> (Begins(word, w) <==> w == word)
  {
  }

  // The whole names, and the letters that two of them share.
  lemma WholeNames(w: string)
    requires |w| > 0
    ensures |w| == |CONNECTION_NAME| ==> (Begins(CONNECTION_NAME, w) <==> w == CONNECTION_NAME)
    ensures |w| == |PROXY_CONNECTION_NAME| ==> (Begins(PROXY_CONNECTION_NAME, w) <==> w == PROXY_CONNECTION_NAME)
    ensures |w| == |CONTENT_LENGTH_NAME| ==> (Begins(CONTENT_LENGTH_NAME, w) <==> w == CONTENT_LENGTH_NAME)
    ensures |w| == |TRANSFER_ENCODING_NAME| ==> (Begins(TRANSFER_ENCODING_NAME, w) <==> w == TRANSFER_ENCODING_NAME)
    ensures |w| == |UPGRADE_NAME| ==> (Begins(UPGRADE_NAME, w) <==> w == UPGRADE_NAME)
    ensures |w| <= 3 ==> (Begins(CONNECTION_NAME, w) <==> Begins(CONTENT_LENGTH_NAME, w))
  {
    BeginsWhole(CONNECTION_NAME, w);
    BeginsWhole(PROXY_CONNECTION_NAME, w);
    BeginsWhole(CONTENT_LENGTH_NAME, w);
    BeginsWhole(TRANSFER_ENCODING_NAME, w);
    BeginsWhole(UPGRADE_NAME, w);
  }

  lemma MeansNext(w: string, h: HeaderState, index: nat, c: char)
    requires Means(w, h, index) && c != ' '
    ensures Means(w + [c], NameNext(h, index, c), if Counts(h) then index + 1 else index)
  {
    hide Begins;
    var x := w + [c];
    BeginsSnoc(CONNECTION_NAME, w, c);
    BeginsSnoc(PROXY_CONNECTION_NAME, w, c);
    BeginsSnoc(CONTENT_LENGTH_NAME, w, c);
    BeginsSnoc(TRANSFER_ENCODING_NAME, w, c);
    BeginsSnoc(UPGRADE_NAME, w, c);
    WholeNames(x);
    WholeNames(w);
    Apart(x);
    Apart(w);
    assert x[0] == w[0];
  }

  lemma NameByte(v: View, ch: char)
    requires !Halted(v) && v.state == Hdr(FieldName) && IsToken(ch)
    ensures Step(v, ch) == Tell(v.(hstate := NameNext(v.hstate, v.index, Token(ch)),
                                   index := if Counts(v.hstate) then v.index + 1 else v.index), Data(Field, [ch]))
    ensures Token(ch) != ' '
  {
    hide NameNext, Counts;
  }

  lemma LoweredCons(s: string)
    requires |s| > 0
    ensures Lowered(s) == [Token(s[0])] + Lowered(s[1..])
  {
  }

  lemma NameTailNone(v: View, w: string, s: string)
    requires |s| == 0
    ensures Feed(v, s) == v && w + Lowered(s) == w && s == []
    ensures EndsIn(v.trace, Field) ==> Emit(v.trace, Data(Field, s)) == v.trace
  {
    assert s == [];
    FeedNothing(v);
    if EndsIn(v.trace, Field) {
      EmitNothing(v.trace, Field);
    }
  }

  // One more byte of a name.
  lemma NameOn(v: View, w: string, s: string) returns (x: View)
    requires !Halted(v) && v.state == Hdr(FieldName) && Means(w, v.hstate, v.index)
    requires |s| > 0 && IsToken(s[0])
    ensures x == v.(hstate := x.hstate, index := x.index, trace := Emit(v.trace, Data(Field, [s[0]])))
    ensures Feed(v, s) == Feed(x, s[1..]) && Means(w + [Token(s[0])], x.hstate, x.index)
  {
    hide Step, Feed, NameNext, Means, IsToken, Counts, Emit;
    NameByte(v, s[0]);
    MeansNext(w, v.hstate, v.index, Token(s[0]));
    FeedCons(v, s);
    x := Step(v, s[0]);
  }

  // The rest of a name, after w.
  lemma {:induction false} NameTail(v: View, w: string, s: string) returns (h: HeaderState, index: nat)
    requires !Halted(v) && v.state == Hdr(FieldName) && Means(w, v.hstate, v.index) && EndsIn(v.trace, Field)
    requires forall k :: 0 <= k < |s| ==> IsToken(s[k])
    ensures Means(w + Lowered(s), h, index)
    ensures Feed(v, s) == Tell(v.(hstate := h, index := index), Data(Field, s))
    decreases |s|
  {
    hide Step, Feed, NameNext, Means, IsToken, Token, Counts, Lowered;
    if |s| == 0 {
      NameTailNone(v, w, s);
      return v.hstate, v.index;
    }
    var x := NameOn(v, w, s);
    h, index := NameTail(x, w + [Token(s[0])], s[1..]);
    LoweredCons(s);
    assert w + [Token(s[0])] + Lowered(s[1..]) == w + ([Token(s[0])] + Lowered(s[1..]));
    EmitTwice(v.trace, Field, [s[0]], s[1..]);
    assert [s[0]] + s[1..] == s;
  }

  lemma NameFirst(v: View, ch: char)
    requires !Halted(v) && v.state == Hdr(FieldStart) && IsToken(ch)
    ensures Step(v, ch) ==
            Tell(v.(state := Hdr(FieldName), index := 0, hstate := NameStart(Token(ch))), Data(Field, [ch]))
  {
    hide NameStart;
  }

  lemma Colon(v: View)
    requires !Halted(v) && v.state == Hdr(FieldName)
    ensures Step(v, ':') == v.(state := Hdr(DiscardWs))
  {
  }

  lemma LoweredSame(s: string, word: string)
    requires IsName(s) && forall k :: 0 <= k < |word| ==> word[k] !in UPPER
    ensures Lowered(s) == word <==> SameWord(s, word)
  {
    hide Token, SameLetter;
    if |s| == |word| {
      forall k | 0 <= k < |s|
        ensures Lowered(s)[k] == word[k] <==> SameLetter(s[k], word[k])
      {
        FoldExact(s[k], word[k]);
      }
      assert Lowered(s) == word <==> forall k :: 0 <= k < |s| ==> Lowered(s)[k] == word[k];
    }
  }

  lemma NoCapitals(word: string)
    requires || word == CONNECTION_NAME || word == PROXY_CONNECTION_NAME || word == CONTENT_LENGTH_NAME
             || word == TRANSFER_ENCODING_NAME || word == UPGRADE_NAME
    ensures forall k :: 0 <= k < |word| ==> word[k] !in UPPER
  {
    forall k | 0 <= k < |word|
      ensures word[k] !in UPPER
    {
      NoCapital(word[k]);
    }
  }

  // So the comparison is one up to the case of letters.
  lemma NamesSame(s: string)
    requires IsName(s)
    ensures Lowered(s) == CONNECTION_NAME <==> SameWord(s, CONNECTION_NAME)
    ensures Lowered(s) == PROXY_CONNECTION_NAME <==> SameWord(s, PROXY_CONNECTION_NAME)
    ensures Lowered(s) == CONTENT_LENGTH_NAME <==> SameWord(s, CONTENT_LENGTH_NAME)
    ensures Lowered(s) == TRANSFER_ENCODING_NAME <==> SameWord(s, TRANSFER_ENCODING_NAME)
    ensures Lowered(s) == UPGRADE_NAME <==> SameWord(s, UPGRADE_NAME)
  {
    hide Lowered, SameWord, IsName;
    NoCapitals(CONNECTION_NAME);
    NoCapitals(PROXY_CONNECTION_NAME);
    NoCapitals(CONTENT_LENGTH_NAME);
    NoCapitals(TRANSFER_ENCODING_NAME);
    NoCapitals(UPGRADE_NAME);
    LoweredSame(s, CONNECTION_NAME);
    LoweredSame(s, PROXY_CONNECTION_NAME);
    LoweredSame(s, CONTENT_LENGTH_NAME);
    LoweredSame(s, TRANSFER_ENCODING_NAME);
    LoweredSame(s, UPGRADE_NAME);
  }

  // At the colon the recogniser has compared the name with the five names that matter, whatever the case of
  // its letters.
  lemma NameExact(v: View, s: string)
    requires !Halted(v) && v.state == Hdr(FieldStart) && IsName(s)
    ensures var w := Feed(v, s + [':']);
            && w == Tell(v.(state := Hdr(DiscardWs), hstate := w.hstate, index := w.index), Data(Field, s))
            && (w.hstate == Connection <==> SameWord(s, CONNECTION_NAME) || SameWord(s, PROXY_CONNECTION_NAME))
            && (w.hstate == ContentLength <==> SameWord(s, CONTENT_LENGTH_NAME))
            && (w.hstate == TransferEncoding <==> SameWord(s, TRANSFER_ENCODING_NAME))
            && (w.hstate == Upgrade <==> SameWord(s, UPGRADE_NAME))
            && NameState(w.hstate, w.index)
  {
    hide Step, Feed, NameNext, NameStart, Lowered, NameState, Token, Means, SameWord;
    NamesSame(s);
    MeansFirst(Token(s[0]));
    NameFirst(v, s[0]);
    var w := Step(v, s[0]);
    FeedCons(v, s);
    var h, index := NameTail(w, [Token(s[0])], s[1..]);
    LoweredCons(s);
    EmitTwice(v.trace, Field, [s[0]], s[1..]);
    assert [s[0]] + s[1..] == s;
    FeedConcat(v, s, [':']);
    Colon(Feed(v, s));
    FeedOne(Feed(v, s), ':');
    MeansWhole(Lowered(s), h, index);
  }

  lemma MeansWhole(w: string, h: HeaderState, index: nat)
    requires Means(w, h, index)
    ensures h == Connection <==> w == CONNECTION_NAME || w == PROXY_CONNECTION_NAME
    ensures h == ContentLength <==> w == CONTENT_LENGTH_NAME
    ensures h == TransferEncoding <==> w == TRANSFER_ENCODING_NAME
    ensures h == Upgrade <==> w == UPGRADE_NAME
    ensures NameState(h, index)
  {
    Apart(w);
    assert Begins(w, w);
    assert |CONNECTION_NAME| == 10 && |PROXY_CONNECTION_NAME| == 16 && |CONTENT_LENGTH_NAME| == 14;
    assert |TRANSFER_ENCODING_NAME| == 17 && |UPGRADE_NAME| == 7;
    assert CONNECTION_NAME[0] == CONTENT_LENGTH_NAME[0] == 'c' && PROXY_CONNECTION_NAME[0] == 'p';
    assert TRANSFER_ENCODING_NAME[0] == 't' && UPGRADE_NAME[0] == 'u';
  }
}
