// The fields of an accepted URL tile it: they are in order, they do not overlap, and every byte that
// is in none of them is a delimiter.
module Tiling {
  import opened Types
  import opened StartLine
  import opened Urls

  // The order of the parts of a URL.
  function Order(f: Field): nat {
    match f
    case UfSchema => 0
    case UfUserinfo => 1
    case UfHost => 2
    case UfPort => 3
    case UfPath => 4
    case UfQuery => 5
    case UfFragment => 6
  }

  predicate IsDelimiter(ch: char) {
    ch == ':' || ch == '/' || ch == '@' || ch == '[' || ch == ']' || ch == '?' || ch == '#'
  }

  predicate Holds(x: Span, j: nat) { x.off <= j < x.off + x.len }

  // The labels come in the order of the fields.
  predicate InOrder(ls: Labels, f: Field, g: Field) {
    forall i, k :: 0 <= i < |ls| && 0 <= k < |ls| && ls[i] == Some(f) && ls[k] == Some(g) ==> i < k
  }

  lemma UrlInOrder(u: UrlState, s: string, f: Field, g: Field)
    requires Order(f) < Order(g)
    ensures InOrder(UrlLabels(u, s), f, g)
  {
    var ls := UrlLabels(u, s);
    forall i, k | 0 <= i < |ls| && 0 <= k < |ls| && ls[i] == Some(f) && ls[k] == Some(g) ensures i < k {
      hide UrlRun;
      if k <= i {
        UrlRankGrows(u, s, k + 1, i + 1);
      }
    }
  }

  lemma HostInOrder(h: HostState, s: string, f: Field, g: Field)
    requires Order(f) < Order(g)
    ensures InOrder(HostLabels(h, s), f, g)
  {
    var ls := HostLabels(h, s);
    forall i, k | 0 <= i < |ls| && 0 <= k < |ls| && ls[i] == Some(f) && ls[k] == Some(g) ensures i < k {
      hide HostRun;
      if k <= i {
        HostRankGrows(h, s, k + 1, i + 1);
      }
    }
  }

  // Spans whose labels are in order do not overlap.
  lemma SpansInOrder(ls: Labels, f: Field, g: Field)
    requires Together(ls, f) && Together(ls, g) && InOrder(ls, f, g) && Count(ls, f) > 0 && Count(ls, g) > 0
    ensures SpanOf(ls, f).off + SpanOf(ls, f).len <= SpanOf(ls, g).off
  {
    hide Count, First;
    SpanExact(ls, f);
    SpanExact(ls, g);
    assert ls[First(ls, f) + Count(ls, f) - 1] == Some(f) && ls[First(ls, g)] == Some(g);
  }

  lemma UrlDelimiter(u: UrlState, s: string, j: nat)
    requires j < |s| && UrlRun(u, s).Some? && UrlLabels(u, s)[j].None?
    ensures IsDelimiter(s[j])
  {
    hide UrlRun, ParseUrlChar;
    assert s[..|s|] == s;
    UrlRankGrows(u, s, j + 1, |s|);
    UrlRunNext(u, s, j);
    UrlRankNext(UrlRun(u, s[..j]).value, s[j]);
  }

  lemma HostDelimiter(h: HostState, s: string, j: nat)
    requires j < |s| && HostRun(h, s).Some? && HostLabels(h, s)[j].None?
    ensures IsDelimiter(s[j])
  {
    hide HostRun, ParseHostChar;
    assert s[..|s|] == s;
    HostRankGrows(h, s, j + 1, |s|);
    HostRunNext(h, s, j);
    HostRankNext(HostRun(h, s[..j]).value, s[j]);
  }

  // Where the two labellings put a field.
  lemma WhereExact(s: string, isConnect: bool, f: Field)
    ensures var ls := UrlLabels(UrlStart(isConnect), s);
            var a := Authority(s, isConnect);
            var x, auth := Where(s, isConnect, f), SpanOf(ls, UfHost);
            && x.off + x.len <= |s| && auth.off + auth.len <= |s| && |a| == auth.len
            && (forall k :: 0 <= k < |a| ==> a[k] == s[auth.off + k])
            && (forall j :: 0 <= j < |s| ==> (ls[j] == Some(UfHost) <==> Holds(auth, j)))
            && (!InHost(f) ==>
                  && x == SpanOf(ls, f)
                  && forall j :: 0 <= j < |s| ==> (ls[j] == Some(f) <==> Holds(x, j)))
            && (InHost(f) ==>
                  && x == Span(auth.off + First(AuthorityLabels(a), f), Count(AuthorityLabels(a), f))
                  && (x.len > 0 ==> x.off + x.len <= auth.off + auth.len)
                  && forall k :: 0 <= k < |a| ==> (AuthorityLabels(a)[k] == Some(f) <==> Holds(x, auth.off + k)))
  {
    hide UrlLabels, HostLabels, Count, First, Together, AuthorityStart;
    var u, a := UrlStart(isConnect), Authority(s, isConnect);
    UrlTogether(u, s, UfHost);
    SpanExact(UrlLabels(u, s), UfHost);
    UrlTogether(u, s, f);
    SpanExact(UrlLabels(u, s), f);
    HostTogether(AuthorityStart(a), a, f);
    SpanExact(AuthorityLabels(a), f);
  }

  // In order, and without overlap.
  lemma FieldsInOrder(s: string, isConnect: bool, f: Field, g: Field)
    requires Order(f) < Order(g) && Where(s, isConnect, f).len > 0 && Where(s, isConnect, g).len > 0
    ensures Where(s, isConnect, f).off + Where(s, isConnect, f).len <= Where(s, isConnect, g).off
  {
    var u, a := UrlStart(isConnect), Authority(s, isConnect);
    var ls, hs := UrlLabels(u, s), AuthorityLabels(a);
    WhereExact(s, isConnect, f);
    WhereExact(s, isConnect, g);
    var f', g' := if InHost(f) then UfHost else f, if InHost(g) then UfHost else g;
    if f' == g' {
      HostInOrder(AuthorityStart(a), a, f, g);
      HostTogether(AuthorityStart(a), a, f);
      HostTogether(AuthorityStart(a), a, g);
      hide HostLabels, UrlLabels, Count, First, Together, InOrder, Authority;
      SpansInOrder(hs, f, g);
    } else {
      UrlInOrder(u, s, f', g');
      UrlTogether(u, s, f');
      UrlTogether(u, s, g');
      hide HostLabels, UrlLabels, Count, First, Together, InOrder, Authority;
      SpansInOrder(ls, f', g');
    }
  }

  // Every byte is in a field, or a delimiter.
  lemma ByteOwned(s: string, isConnect: bool, j: nat)
    requires Accepts(s, isConnect) && j < |s|
    ensures IsDelimiter(s[j]) || exists f :: Holds(Where(s, isConnect, f), j)
  {
    hide UrlRun, HostRun, UrlLabels, HostLabels, Count, First, AuthorityStart, Part, Where, Authority, Holds;
    var u, a := UrlStart(isConnect), Authority(s, isConnect);
    var l := UrlLabels(u, s)[j];
    if l.None? {
      UrlDelimiter(u, s, j);
    } else if l == Some(UfHost) {
      AuthorityByte(s, isConnect, j);
    } else {
      PlainByte(s, isConnect, j, l.value);
    }
  }

  lemma PlainByte(s: string, isConnect: bool, j: nat, f: Field)
    requires j < |s| && UrlLabels(UrlStart(isConnect), s)[j] == Some(f) && !f.UfHost?
    ensures Holds(Where(s, isConnect, f), j)
  {
    hide UrlRun, HostRun, HostLabels, Count, First;
    WhereExact(s, isConnect, f);
  }

  lemma AuthorityByte(s: string, isConnect: bool, j: nat)
    requires j < |s| && UrlLabels(UrlStart(isConnect), s)[j] == Some(UfHost)
    requires Authority(s, isConnect) != [] ==> HostAccepts(Authority(s, isConnect))
    ensures IsDelimiter(s[j]) || exists f :: Holds(Where(s, isConnect, f), j)
  {
    hide UrlRun, HostRun, UrlLabels, HostLabels, Count, First, AuthorityStart, Where, Authority;
    var u, a := UrlStart(isConnect), Authority(s, isConnect);
    WhereExact(s, isConnect, UfHost);
    var off := SpanOf(UrlLabels(u, s), UfHost).off;
    var k := j - off;
    assert 0 <= k < |a| && a[k] == s[j];
    var m := AuthorityLabels(a)[k];
    if m.None? {
      HostDelimiter(AuthorityStart(a), a, k);
    } else {
      LabelInHost(AuthorityStart(a), a, k);
      WhereExact(s, isConnect, m.value);
      assert Holds(Where(s, isConnect, m.value), j);
    }
  }

  lemma LabelInHost(h: HostState, s: string, k: nat)
    requires k < |s| && HostLabels(h, s)[k].Some?
    ensures InHost(HostLabels(h, s)[k].value)
  {
    hide HostRun;
  }
}
