// http_parser_parse_url as it is written: one pass that finds the fields, and a second one over the
// authority, which re-splits it in place.
module UrlParser {
  import opened Chars
  import opened Types
  import opened StartLine
  import opened Lengths
  import opened Numerals
  import opened Urls

  // f is set exactly if some byte has its label, and then it is where these bytes are.
  predicate Placed(fields: map<Field, Span>, f: Field, base: nat, ls: Labels) {
    && (f in fields <==> Count(ls, f) > 0)
    && (f in fields ==> fields[f] == Span(base + First(ls, f), Count(ls, f)))
  }

  // One more label.
  lemma LabelNext(ls: Labels, i: nat, f: Field)
    requires i < |ls|
    ensures Count(ls[..i + 1], f) == Count(ls[..i], f) + if ls[i] == Some(f) then 1 else 0
    ensures Count(ls[..i], f) == 0 && ls[i] == Some(f) ==> First(ls[..i + 1], f) == i
    ensures Count(ls[..i], f) > 0 ==> First(ls[..i + 1], f) == First(ls[..i], f)
  {
    assert ls[..i + 1][..i] == ls[..i];
    NoneFirst(ls[..i], f);
  }

  // The same for the parts of the authority. The host is always set; it is empty before its first byte.
  predicate HostPlaced(fields: map<Field, Span>, off: nat, ls: Labels) {
    && Placed(fields, UfPort, off, ls) && Placed(fields, UfUserinfo, off, ls)
    && (if Count(ls, UfHost) == 0 then UfHost in fields && fields[UfHost] == Span(off, 0)
        else Placed(fields, UfHost, off, ls))
  }

  // The fields after the byte at p, with label f.
  function Grown(fields: map<Field, Span>, f: Option<Field>, p: nat, ls: Labels): map<Field, Span> {
    if f.None? then fields
    else if Count(ls, f.value) == 0 then fields[f.value := Span(p, 1)]
    else if f.value in fields then fields[f.value := Span(fields[f.value].off, fields[f.value].len + 1)]
    else fields
  }

  lemma PlacedNext(fields: map<Field, Span>, f: Field, base: nat, ls: Labels, i: nat)
    requires i < |ls| && Placed(fields, f, base, ls[..i])
    ensures Placed(Grown(fields, ls[i], base + i, ls[..i]), f, base, ls[..i + 1])
  {
    hide Count, First;
    LabelNext(ls, i, f);
  }

  lemma HostPlacedNow(fields: map<Field, Span>, off: nat, ls: Labels)
    requires HostPlaced(fields, off, ls)
    ensures UfHost in fields && (Count(ls, UfHost) == 0 ==> fields[UfHost].len == 0)
    ensures (Count(ls, UfPort) > 0 ==> UfPort in fields) && (Count(ls, UfUserinfo) > 0 ==> UfUserinfo in fields)
  {
  }

  lemma HostPlacedNext(fields: map<Field, Span>, off: nat, ls: Labels, i: nat)
    requires i < |ls| && HostPlaced(fields, off, ls[..i]) && (exists h :: ls[i] == HostField(h))
    ensures var now := Grown(fields, ls[i], off + i, ls[..i]);
            HostPlaced(now, off, ls[..i + 1]) && Beside(now, fields)
  {
    hide Count, First;
    PlacedNext(fields, UfPort, off, ls, i);
    PlacedNext(fields, UfUserinfo, off, ls, i);
    LabelNext(ls, i, UfHost);
    if Count(ls[..i], UfHost) > 0 {
      PlacedNext(fields, UfHost, off, ls, i);
    }
  }

  // Nothing but the parts of the authority has changed.
  predicate Beside(fields: map<Field, Span>, was: map<Field, Span>) {
    forall f: Field :: !InHost(f) ==> (f in fields <==> f in was) && (f in fields ==> fields[f] == was[f])
  }

  lemma BesideToo(a: map<Field, Span>, b: map<Field, Span>, c: map<Field, Span>)
    requires Beside(a, b) && Beside(b, c)
    ensures Beside(a, c)
  {
  }

  lemma HostNothing(fields: map<Field, Span>, off: nat, foundAt: bool)
    requires UfPort !in fields && UfUserinfo !in fields
    ensures var h := if foundAt then UserinfoStart else HostStart;
            HostRun(h, []) == Some(h) && HostSeen([], h)
    ensures HostPlaced(fields[UfHost := Span(off, 0)], off, []) && Beside(fields[UfHost := Span(off, 0)], fields)
  {
  }

  // http_parse_host in the middle of its loop, i bytes into the authority.
  ghost predicate AtHost(fields: map<Field, Span>, was: map<Field, Span>, off: nat, h: HostState, text: string,
                         i: nat, s: HostState)
  {
    && i <= |text| && HostRun(h, text[..i]) == Some(s)
    && HostPlaced(fields, off, HostLabels(h, text)[..i]) && HostSeen(HostLabels(h, text)[..i], s)
    && Beside(fields, was)
  }

  lemma HostBegins(fields: map<Field, Span>, off: nat, foundAt: bool, text: string)
    requires UfPort !in fields && UfUserinfo !in fields
    ensures var h := if foundAt then UserinfoStart else HostStart;
            AtHost(fields[UfHost := Span(off, 0)], fields, off, h, text, 0, h)
  {
    hide HostRun, HostPlaced, HostSeen, Beside;
    HostNothing(fields, off, foundAt);
    assert text[..0] == [];
  }

  // One more byte.
  lemma HostGoesOn(fields: map<Field, Span>, was: map<Field, Span>, off: nat, h: HostState, text: string,
                   i: nat, s: HostState)
    requires AtHost(fields, was, off, h, text, i, s) && i < |text|
    ensures var next, ls := ParseHostChar(s, text[i]), HostLabels(h, text)[..i];
            && (next.None? ==> HostRun(h, text).None? && Beside(fields, was))
            && (next.Some? ==>
                  && HostMoves(ls, s, next.value) && UfHost in fields
                  && (Count(ls, UfHost) == 0 ==> fields[UfHost].len == 0)
                  && (Count(ls, UfPort) > 0 ==> UfPort in fields)
                  && (Count(ls, UfUserinfo) > 0 ==> UfUserinfo in fields)
                  && AtHost(Grown(fields, HostField(next.value), off + i, ls), was, off, h, text, i + 1, next.value))
  {
    hide HostPlaced, HostSeen, HostRun, HostMoves, Grown, Count, Beside, ParseHostChar, HostLabels, HostField;
    var next, ls := ParseHostChar(s, text[i]), HostLabels(h, text);
    HostRunNext(h, text, i);
    if next.None? {
      DeadHost(h, text, i + 1);
    } else {
      HostLabel(h, text, i);
      HostSeenNext(ls, i, s, text[i], next.value);
      HostPlacedNow(fields, off, ls[..i]);
      HostPlacedNext(fields, off, ls, i);
      BesideToo(Grown(fields, ls[i], off + i, ls[..i]), fields, was);
    }
  }

  lemma HostEnds(fields: map<Field, Span>, was: map<Field, Span>, off: nat, h: HostState, text: string, s: HostState)
    requires AtHost(fields, was, off, h, text, |text|, s)
    ensures HostRun(h, text) == Some(s) && HostPlaced(fields, off, HostLabels(h, text)) && Beside(fields, was)
    ensures MayEndHost(s) ==> Count(HostLabels(h, text), UfHost) > 0
  {
    assert text[..|text|] == text && HostLabels(h, text)[..|text|] == HostLabels(h, text);
    hide HostRun, HostPlaced, HostSeen, HostLabels;
  }

  // The fields in the order of their parts of a URL.
  function FieldRank(f: Field): nat {
    match f
    case UfSchema => 1
    case UfHost => 5
    case UfPath => 6
    case UfQuery => 8
    case UfFragment => 10
    case UfPort => 11
    case UfUserinfo => 12
  }

  // last is the field of the last byte that is no delimiter.
  predicate UrlSeen(ls: Labels, s: UrlState, last: Option<Field>) {
    && (last.Some? ==> Count(ls, last.value) > 0 && FieldRank(last.value) <= UrlRank(s))
    && forall f: Field :: Count(ls, f) > 0 ==> last.Some? && FieldRank(f) <= FieldRank(last.value)
  }

  // The field of a byte is that of its rank, and no other field has its rank.
  lemma RankOfField(s: UrlState, f: Field)
    ensures UrlField(s) == Some(f) ==> FieldRank(f) == UrlRank(s)
    ensures forall g: Field :: FieldRank(f) == FieldRank(g) ==> f == g
  {
  }

  lemma UrlSeenNext(ls: Labels, i: nat, s: UrlState, last: Option<Field>, ch: char, next: UrlState)
    requires i < |ls| && UrlSeen(ls[..i], s, last)
    requires ParseUrlChar(s, ch) == Some(next) && ls[i] == UrlField(next)
    ensures UrlSeen(ls[..i + 1], next, if ls[i].Some? then ls[i] else last)
    ensures ls[i].Some? ==> (ls[i] == last <==> Count(ls[..i], ls[i].value) > 0)
  {
    hide ParseUrlChar, UrlField, UrlRank, FieldRank, Count, First;
    UrlRankNext(s, ch);
    if ls[i].Some? {
      RankOfField(next, ls[i].value);
      LabelNext(ls, i, ls[i].value);
    }
    if last.Some? {
      LabelNext(ls, i, last.value);
    }
    var was, now, l := ls[..i], ls[..i + 1], if ls[i].Some? then ls[i] else last;
    forall f: Field | Count(now, f) > 0
      ensures l.Some? && FieldRank(f) <= FieldRank(l.value)
    {
      LabelNext(ls, i, f);
      if ls[i] != Some(f) {
        assert Count(was, f) > 0;
      }
    }
  }

  ghost predicate AllPlaced(fields: map<Field, Span>, ls: Labels) { forall f: Field :: Placed(fields, f, 0, ls) }

  lemma AllPlacedNext(fields: map<Field, Span>, ls: Labels, i: nat)
    requires i < |ls| && AllPlaced(fields, ls[..i])
    ensures AllPlaced(Grown(fields, ls[i], i, ls[..i]), ls[..i + 1])
    ensures ls[i].Some? && Count(ls[..i], ls[i].value) > 0 ==> ls[i].value in fields
  {
    hide Grown, Count, First;
    var now, seen := Grown(fields, ls[i], i, ls[..i]), ls[..i + 1];
    forall f: Field ensures Placed(now, f, 0, seen) {
      PlacedNext(fields, f, 0, ls, i);
    }
    if ls[i].Some? {
      assert Placed(fields, ls[i].value, 0, ls[..i]);
    }
  }

  // The first i bytes hold an @ of the authority.
  ghost predicate HasAt(ls: Labels, buf: string, i: nat) {
    i <= |ls| == |buf| && exists j :: 0 <= j < i && ls[j] == Some(UfHost) && buf[j] == '@'
  }

  lemma HasAtNext(ls: Labels, buf: string, i: nat)
    requires i < |ls| == |buf|
    ensures HasAt(ls, buf, i + 1) <==> HasAt(ls, buf, i) || (ls[i] == Some(UfHost) && buf[i] == '@')
  {
  }

  // http_parser_parse_url in the middle of its loop, i bytes into the buffer.
  ghost predicate AtUrl(fields: map<Field, Span>, u: UrlState, buf: string, i: nat, s: UrlState,
                        last: Option<Field>, foundAt: bool)
  {
    && i <= |buf| && UrlRun(u, buf[..i]) == Some(s)
    && AllPlaced(fields, UrlLabels(u, buf)[..i]) && UrlSeen(UrlLabels(u, buf)[..i], s, last)
    && (foundAt <==> HasAt(UrlLabels(u, buf), buf, i))
  }

  lemma UrlBegins(u: UrlState, buf: string)
    ensures AtUrl(map[], u, buf, 0, u, None, false)
  {
    hide UrlLabels;
    assert buf[..0] == [] && UrlLabels(u, buf)[..0] == [];
  }

  lemma DeadUrl(u: UrlState, s: string, i: nat)
    requires i <= |s| && UrlRun(u, s[..i]).None?
    ensures UrlRun(u, s).None?
  {
    assert s == s[..i] + s[i..];
    UrlRunConcat(u, s[..i], s[i..]);
  }

  // One more byte.
  lemma UrlGoesOn(fields: map<Field, Span>, u: UrlState, buf: string, i: nat, s: UrlState,
                  last: Option<Field>, foundAt: bool)
    requires AtUrl(fields, u, buf, i, s, last, foundAt) && i < |buf|
    ensures var next, ls := ParseUrlChar(s, buf[i]), UrlLabels(u, buf)[..i];
            && (next.None? ==> UrlRun(u, buf).None?)
            && (next.Some? ==>
                  var f := UrlField(next.value);
                  && !next.value.SpacesBeforeUrl?
                  && (f.Some? ==> (f == last <==> Count(ls, f.value) > 0) && (f == last ==> f.value in fields))
                  && AtUrl(Grown(fields, f, i, ls), u, buf, i + 1, next.value, if f.Some? then f else last,
                           foundAt || next.value.ServerWithAt?))
  {
    hide UrlLabels, UrlRun, Placed, Grown, UrlSeen, Count, ParseUrlChar, UrlField;
    var next, ls := ParseUrlChar(s, buf[i]), UrlLabels(u, buf);
    UrlRunNext(u, buf, i);
    if next.None? {
      DeadUrl(u, buf, i + 1);
    } else {
      UrlLabel(u, buf, i);
      UrlRankNext(s, buf[i]);
      AtIsHost(next.value);
      UrlSeenNext(ls, i, s, last, buf[i], next.value);
      hide AllPlaced, HasAt;
      AllPlacedNext(fields, ls, i);
      HasAtNext(ls, buf, i);
    }
  }

  lemma AtIsHost(u: UrlState)
    ensures UrlField(u) == Some(UfHost) <==> u.Server? || u.ServerWithAt?
  {
  }

  lemma UrlEnds(fields: map<Field, Span>, u: UrlState, buf: string, s: UrlState, last: Option<Field>, foundAt: bool)
    requires AtUrl(fields, u, buf, |buf|, s, last, foundAt)
    ensures UrlRun(u, buf) == Some(s) && AllPlaced(fields, UrlLabels(u, buf))
    ensures foundAt <==> HasAt(UrlLabels(u, buf), buf, |buf|)
  {
    hide UrlRun, UrlLabels, AllPlaced, UrlSeen, HasAt;
    assert buf[..|buf|] == buf && UrlLabels(u, buf)[..|buf|] == UrlLabels(u, buf);
  }

  // A field is set exactly if it is there, and then to where it is.
  predicate Found(fields: map<Field, Span>, buf: string, isConnect: bool, f: Field) {
    && (f in fields <==> Part(buf, isConnect, f) != [])
    && (f in fields ==> fields[f] == Where(buf, isConnect, f))
  }

  lemma UrlFound(fields: map<Field, Span>, buf: string, isConnect: bool, f: Field)
    requires AllPlaced(fields, UrlLabels(UrlStart(isConnect), buf)) && !InHost(f)
    ensures Found(fields, buf, isConnect, f)
  {
    hide UrlLabels, Together, Count, First;
    var ls := UrlLabels(UrlStart(isConnect), buf);
    assert Placed(fields, f, 0, ls);
    UrlTogether(UrlStart(isConnect), buf, f);
    SpanExact(ls, f);
  }

  // What the first pass has found is what Where says, and the authority.
  lemma FoundRight(fields: map<Field, Span>, buf: string, isConnect: bool, foundAt: bool)
    requires AllPlaced(fields, UrlLabels(UrlStart(isConnect), buf))
    requires foundAt <==> HasAt(UrlLabels(UrlStart(isConnect), buf), buf, |buf|)
    ensures forall f: Field :: !InHost(f) ==> Found(fields, buf, isConnect, f)
    ensures UfPort !in fields && UfUserinfo !in fields
    ensures UfHost in fields <==> Authority(buf, isConnect) != []
    ensures UfHost in fields ==>
              && fields[UfHost].off + fields[UfHost].len <= |buf|
              && Authority(buf, isConnect) == Cut(buf, fields[UfHost])
              && fields[UfHost].off == First(UrlLabels(UrlStart(isConnect), buf), UfHost)
              && (foundAt <==> '@' in Authority(buf, isConnect))
  {
    var u := UrlStart(isConnect);
    var ls := UrlLabels(u, buf);
    forall f: Field | !InHost(f) ensures Found(fields, buf, isConnect, f) {
      UrlFound(fields, buf, isConnect, f);
    }
    assert Placed(fields, UfHost, 0, ls) && Placed(fields, UfPort, 0, ls) && Placed(fields, UfUserinfo, 0, ls);
    NoneLabelled(u, buf, UfPort);
    NoneLabelled(u, buf, UfUserinfo);
    UrlTogether(u, buf, UfHost);
    SpanExact(ls, UfHost);
    hide UrlLabels, Together, AllPlaced, Count, First, Found;
  }

  lemma {:induction false} NoneCounted(ls: Labels, f: Field)
    requires forall j :: 0 <= j < |ls| ==> ls[j] != Some(f)
    ensures Count(ls, f) == 0
    decreases |ls|
  {
    if |ls| > 0 {
      NoneCounted(ls[..|ls| - 1], f);
    }
  }

  lemma NoneLabelled(u: UrlState, buf: string, f: Field)
    requires f.UfPort? || f.UfUserinfo?
    ensures Count(UrlLabels(u, buf), f) == 0
  {
    hide UrlRun;
    NoneCounted(UrlLabels(u, buf), f);
  }

  // The leading digits of s as strtoul reads them in base 10; s starts with a digit.
  function Digits(n: nat, s: string): nat
    decreases |s|
  {
    if |s| == 0 || !IsNum(s[0]) then n else Digits(n * 10 + Digit(s[0]), s[1..])
  }

  // unsigned long has 64 bits; too large a number saturates.
  function Strtoul(s: string): nat { if Digits(0, s) < TWO_64 then Digits(0, s) else ULLONG_MAX }

  lemma {:induction false} DigitsExact(n: nat, s: string, rest: string)
    requires (forall k :: 0 <= k < |s| ==> IsNum(s[k])) && (|rest| > 0 ==> !IsNum(rest[0]))
    ensures IsLengthText(s) && Digits(n, s + rest) == Decimal(n, s)
    decreases |s|
  {
    if |s| == 0 {
      assert s + rest == rest;
    } else {
      assert (s + rest)[1..] == s[1..] + rest;
      DigitsExact(n * 10 + Digit(s[0]), s[1..], rest);
    }
  }

  lemma DigitsAt(s: string, off: nat, p: string)
    requires off + |p| <= |s| && p == s[off..off + |p|] && forall k :: 0 <= k < |p| ==> IsNum(p[k])
    requires off + |p| < |s| ==> !IsNum(s[off + |p|])
    ensures IsLengthText(p) && Digits(0, s[off..]) == Decimal(0, p)
  {
    hide Digits, Decimal;
    assert s[off..] == p + s[off + |p|..];
    DigitsExact(0, p, s[off + |p|..]);
  }

  // Nothing of the authority follows the port.
  lemma PortLast(h: HostState, a: string)
    requires HostRun(h, a).Some? && Count(HostLabels(h, a), UfPort) > 0
    ensures var x := SpanOf(HostLabels(h, a), UfPort);
            x.off + x.len == |a| && forall k :: x.off <= k < |a| ==> IsNum(a[k])
  {
    var ls := HostLabels(h, a);
    HostTogether(h, a, UfPort);
    SpanExact(ls, UfPort);
    var i := First(ls, UfPort);
    hide HostLabels, HostRun, Count, First, Together;
    forall k | i <= k < |a| ensures ls[k] == Some(UfPort) && IsNum(a[k]) {
      PortGoesOn(h, a, i, k);
    }
  }

  lemma PortGoesOn(h: HostState, a: string, i: nat, k: nat)
    requires i <= k < |a| && HostRun(h, a).Some? && HostLabels(h, a)[i] == Some(UfPort)
    ensures HostLabels(h, a)[k] == Some(UfPort) && IsNum(a[k])
  {
    hide HostLabels, HostRun;
    assert a[..|a|] == a;
    HostRankGrows(h, a, k + 1, |a|);
    HostRankGrows(h, a, i + 1, k + 1);
    HostRunNext(h, a, k);
    HostLabel(h, a, i);
    HostLabel(h, a, k);
    OnlyPort(HostRun(h, a[..k]).value, a[k]);
  }

  lemma OnlyPort(h: HostState, ch: char)
    requires ParseHostChar(h, ch).Some? && HostRank(ParseHostChar(h, ch).value) >= 7
    ensures ParseHostChar(h, ch) == Some(Port) && IsNum(ch)
  {
  }

  // The byte after an authority is none of it, and no digit.
  lemma AfterAuthority(u: UrlState, s: string, i: nat)
    requires i < |s| && UrlRun(u, s).Some? && i > 0
    requires UrlLabels(u, s)[i - 1] == Some(UfHost) && UrlLabels(u, s)[i] != Some(UfHost)
    ensures !IsNum(s[i])
  {
    hide UrlRun;
    assert s[..|s|] == s;
    UrlRankGrows(u, s, i + 1, |s|);
    UrlRunNext(u, s, i);
  }

  lemma AfterHost(u: UrlState, s: string)
    requires UrlRun(u, s).Some?
    ensures var end := First(UrlLabels(u, s), UfHost) + Count(UrlLabels(u, s), UfHost);
            Count(UrlLabels(u, s), UfHost) > 0 && end < |s| ==> !IsNum(s[end])
  {
    hide UrlLabels, UrlRun, First, Count, Together;
    var ls := UrlLabels(u, s);
    UrlTogether(u, s, UfHost);
    SpanExact(ls, UfHost);
    var end := First(ls, UfHost) + Count(ls, UfHost);
    if Count(ls, UfHost) > 0 && end < |s| {
      assert ls[end - 1] == Some(UfHost) && ls[end] != Some(UfHost);
      AfterAuthority(u, s, end);
    }
  }

  // The port is the end of the authority, and it is all digits.
  lemma PortSpan(buf: string, isConnect: bool)
    requires HostRun(AuthorityStart(Authority(buf, isConnect)), Authority(buf, isConnect)).Some?
    requires Part(buf, isConnect, UfPort) != []
    ensures var ls := UrlLabels(UrlStart(isConnect), buf);
            var x, p := Where(buf, isConnect, UfPort), Part(buf, isConnect, UfPort);
            && x.off + x.len == First(ls, UfHost) + Count(ls, UfHost) <= |buf| && x.len == |p|
            && p == buf[x.off..x.off + x.len] && Count(ls, UfHost) > 0
            && (forall k :: 0 <= k < |p| ==> IsNum(p[k]))
  {
    hide UrlRun, HostRun, UrlLabels, HostLabels, Count, First, Together;
    var a, ls := Authority(buf, isConnect), UrlLabels(UrlStart(isConnect), buf);
    var x, p := Where(buf, isConnect, UfPort), Part(buf, isConnect, UfPort);
    UrlTogether(UrlStart(isConnect), buf, UfHost);
    SpanExact(ls, UfHost);
    PortLast(AuthorityStart(a), a);
    var base := First(ls, UfHost);
    assert a == buf[base..base + Count(ls, UfHost)];
    forall k | 0 <= k < |p| ensures IsNum(p[k]) {
      assert p[k] == buf[x.off + k] == a[x.off - base + k];
    }
  }

  // The number that is written as the port, or 0 if there is none.
  predicate PortIs(buf: string, isConnect: bool, given: bool, port: nat) {
    port <= 65535 && if given then Writes(Part(buf, isConnect, UfPort), port) else port == 0
  }

  lemma NoPort(buf: string, isConnect: bool)
    ensures PortIs(buf, isConnect, false, 0)
  {
  }

  lemma PortWritten(buf: string, isConnect: bool)
    requires AllDigits(Part(buf, isConnect, UfPort)) && Part(buf, isConnect, UfPort) != []
    requires IsPort(Part(buf, isConnect, UfPort))
    ensures PortIs(buf, isConnect, true, Decimal(0, Part(buf, isConnect, UfPort)))
  {
    hide Part, Writes, Decimal;
    DecimalWrites(Part(buf, isConnect, UfPort), Decimal(0, Part(buf, isConnect, UfPort)));
  }

  // A port is accepted exactly if the number it writes is at most 65535.
  lemma PortLimit(s: string, n: nat)
    requires Writes(s, n)
    ensures IsPort(s) <==> n <= 65535
  {
    hide Writes, Decimal;
    DecimalWrites(s, n);
  }

  lemma PortAuthority(buf: string, isConnect: bool)
    requires Part(buf, isConnect, UfPort) != []
    ensures Authority(buf, isConnect) != []
  {
    hide UrlLabels;
  }

  // What strtoul reads is the value of the port.
  lemma PortRead(buf: string, isConnect: bool)
    requires UrlRun(UrlStart(isConnect), buf).Some?
    requires HostRun(AuthorityStart(Authority(buf, isConnect)), Authority(buf, isConnect)).Some?
    requires Part(buf, isConnect, UfPort) != []
    ensures var x := Where(buf, isConnect, UfPort);
            && x.off <= |buf| && IsLengthText(Part(buf, isConnect, UfPort)) && AllDigits(Part(buf, isConnect, UfPort))
            && Digits(0, buf[x.off..]) == Decimal(0, Part(buf, isConnect, UfPort))
  {
    hide UrlRun, HostRun, UrlLabels, Count, First, Decimal, Digits, Where, Authority, Part, AuthorityStart, UrlStart;
    PortSpan(buf, isConnect);
    AfterHost(UrlStart(isConnect), buf);
    var x := Where(buf, isConnect, UfPort);
    DigitsAt(buf, x.off, Part(buf, isConnect, UfPort));
  }

  // Every field is where it is, and there are no others.
  ghost predicate Located(fields: map<Field, Span>, buf: string, isConnect: bool) {
    forall f: Field :: Found(fields, buf, isConnect, f)
  }

  lemma HostFound(fields: map<Field, Span>, buf: string, isConnect: bool, f: Field)
    requires var base := First(UrlLabels(UrlStart(isConnect), buf), UfHost);
             Placed(fields, f, base, AuthorityLabels(Authority(buf, isConnect)))
    requires InHost(f)
    ensures Found(fields, buf, isConnect, f)
  {
    hide UrlLabels, HostLabels, Count, First, Together;
    var ls, a := UrlLabels(UrlStart(isConnect), buf), Authority(buf, isConnect);
    UrlTogether(UrlStart(isConnect), buf, UfHost);
    SpanExact(ls, UfHost);
    HostTogether(AuthorityStart(a), a, f);
    SpanExact(AuthorityLabels(a), f);
  }

  // What the second pass adds.
  lemma HostLocated(was: map<Field, Span>, fields: map<Field, Span>, buf: string, isConnect: bool)
    requires forall f: Field :: !InHost(f) ==> Found(was, buf, isConnect, f)
    requires Beside(fields, was)
    requires var base := First(UrlLabels(UrlStart(isConnect), buf), UfHost);
             var hs := AuthorityLabels(Authority(buf, isConnect));
             HostPlaced(fields, base, hs) && Count(hs, UfHost) > 0
    ensures Located(fields, buf, isConnect)
  {
    hide UrlLabels, AuthorityLabels, Authority, Count, First, Placed, Part, Where;
    forall f: Field ensures Found(fields, buf, isConnect, f) {
      if InHost(f) {
        HostFound(fields, buf, isConnect, f);
      } else {
        assert Found(was, buf, isConnect, f);
      }
    }
  }

  // Without an authority there is nothing to split.
  lemma NoHost(fields: map<Field, Span>, buf: string, isConnect: bool)
    requires forall f: Field :: !InHost(f) ==> Found(fields, buf, isConnect, f)
    requires Authority(buf, isConnect) == [] && forall f: Field :: InHost(f) ==> f !in fields
    ensures Located(fields, buf, isConnect)
  {
    hide UrlLabels;
    forall f: Field ensures Found(fields, buf, isConnect, f) {
      if InHost(f) {
        assert Where(buf, isConnect, f).len == 0;
      }
    }
  }

  lemma OnlyHostAndPort(fields: map<Field, Span>, buf: string, isConnect: bool)
    requires Located(fields, buf, isConnect)
    ensures fields.Keys == {UfHost, UfPort} <==>
              && Part(buf, isConnect, UfHost) != [] && Part(buf, isConnect, UfPort) != []
              && forall f: Field :: !f.UfHost? && !f.UfPort? ==> Part(buf, isConnect, f) == []
  {
    hide Part, Where;
    forall f: Field ensures f in fields.Keys <==> Part(buf, isConnect, f) != [] {
      assert Found(fields, buf, isConnect, f);
    }
  }

  // struct http_parser_url. A field is in the map when its bit of field_set is set.
  class ParsedUrl {
    var fields: map<Field, Span>
    var port: nat

    // field_data[f].len++
    method Grow(f: Field)
      requires f in fields
      modifies `fields
      ensures fields == old(fields)[f := Span(old(fields)[f].off, old(fields)[f].len + 1)]
    {
      fields := fields[f := Span(fields[f].off, fields[f].len + 1)];
    }

    // The switch of http_parse_host: s and next are the states before and after the byte at p, ls the
    // labels before it.
    method HostByte(p: nat, s: HostState, next: HostState, ghost ls: Labels)
      requires HostMoves(ls, s, next)
      requires UfHost in fields && (Count(ls, UfHost) == 0 ==> fields[UfHost].len == 0)
      requires (Count(ls, UfPort) > 0 ==> UfPort in fields) && (Count(ls, UfUserinfo) > 0 ==> UfUserinfo in fields)
      modifies `fields
      ensures fields == Grown(old(fields), HostField(next), p, ls)
    {
      hide Count;
      match next {
        case Host =>
          if !s.Host? {
            fields := fields[UfHost := Span(p, fields[UfHost].len)];
          }
          Grow(UfHost);
        case HostV6 =>
          if !s.HostV6? {
            fields := fields[UfHost := Span(p, fields[UfHost].len)];
          }
          Grow(UfHost);
        case HostV6ZoneStart => Grow(UfHost);
        case HostV6Zone => Grow(UfHost);
        case Port =>
          if !s.Port? {
            fields := fields[UfPort := Span(p, 0)];
          }
          Grow(UfPort);
        case Userinfo =>
          if !s.Userinfo? {
            fields := fields[UfUserinfo := Span(p, 0)];
          }
          Grow(UfUserinfo);
        case _ =>
      }
    }

    // http_parse_host
    method ParseHost(buf: string, foundAt: bool) returns (failed: bool)
      requires UfHost in fields && UfPort !in fields && UfUserinfo !in fields
      requires fields[UfHost].off + fields[UfHost].len <= |buf|
      modifies `fields
      ensures var x := old(fields)[UfHost];
              var start := if foundAt then UserinfoStart else HostStart;
              var h := HostRun(start, Cut(buf, x));
              && (!failed <==> h.Some? && MayEndHost(h.value))
              && (!failed ==> HostPlaced(fields, x.off, HostLabels(start, Cut(buf, x))) &&
                              Count(HostLabels(start, Cut(buf, x)), UfHost) > 0)
      ensures Beside(fields, old(fields))
    {
      hide AtHost, HostPlaced, HostMoves, Grown, Count, ParseHostChar, InHost, HostLabels, HostField, HostRun;
      ghost var h, was := if foundAt then UserinfoStart else HostStart, fields;
      var off, len := fields[UfHost].off, fields[UfHost].len;
      ghost var text := Cut(buf, fields[UfHost]);
      HostBegins(fields, off, foundAt, text);
      fields := fields[UfHost := Span(off, 0)];
      var s := if foundAt then UserinfoStart else HostStart;
      var p := off;
      while p < off + len
        invariant off <= p <= off + len && AtHost(fields, was, off, h, text, p - off, s)
      {
        HostGoesOn(fields, was, off, h, text, p - off, s);
        var next := ParseHostChar(s, buf[p]);
        if next.None? {
          return true;
        }
        HostByte(p, s, next.value, HostLabels(h, text)[..p - off]);
        s := next.value;
        p := p + 1;
      }
      HostEnds(fields, was, off, h, text, s);
      failed := !MayEndHost(s);
    }

    // http_parser_parse_url. The offsets are 16 bits wide, so the buffer must be shorter than that.
    method Parse(buf: string, isConnect: bool) returns (failed: bool)
      requires |buf| <= 0xFFFF
      modifies this
      ensures !failed <==> Accepts(buf, isConnect)
      ensures !failed ==> Located(fields, buf, isConnect)
      ensures !failed ==> PortIs(buf, isConnect, UfPort in fields, port)
    {
      hide AtUrl, Count, First, UrlLabels, UrlRun, ParseUrlChar, UrlField, Placed, AllPlaced, HasAt, UrlSeen, PortIs;
      ghost var u := UrlStart(isConnect);
      port, fields := 0, map[];
      var s := if isConnect then ServerStart else SpacesBeforeUrl;
      var last: Option<Field> := None;
      var foundAt := false;
      UrlBegins(u, buf);
      var p := 0;
      while p < |buf|
        invariant p <= |buf| && port == 0 && AtUrl(fields, u, buf, p, s, last, foundAt)
      {
        UrlGoesOn(fields, u, buf, p, s, last, foundAt);
        var next := ParseUrlChar(s, buf[p]);
        if next.None? {
          return true;
        }
        ghost var seen := UrlLabels(u, buf)[..p];
        s := next.value;
        assert !s.SpacesBeforeUrl?;
        foundAt := foundAt || s.ServerWithAt?;
        var f := UrlField(s);
        if f.Some? {
          if f == last {
            Grow(f.value);
          } else {
            fields := fields[f.value := Span(p, 1)];
            last := f;
          }
        }
        p := p + 1;
      }
      UrlEnds(fields, u, buf, s, last, foundAt);
      failed := Finish(buf, isConnect, foundAt);
    }

    // The second half of http_parser_parse_url.
    method Finish(buf: string, isConnect: bool, foundAt: bool) returns (failed: bool)
      requires UrlRun(UrlStart(isConnect), buf).Some? && port == 0
      requires AllPlaced(fields, UrlLabels(UrlStart(isConnect), buf))
      requires foundAt <==> HasAt(UrlLabels(UrlStart(isConnect), buf), buf, |buf|)
      modifies this
      ensures !failed <==> Accepts(buf, isConnect)
      ensures !failed ==> Located(fields, buf, isConnect)
      ensures !failed ==> PortIs(buf, isConnect, UfPort in fields, port)
    {
      hide IsPort, AllPlaced, HasAt, Where, Part, Authority, Count, First, UrlLabels, HostLabels, HostPlaced, UrlRun;
      hide HostRun, Beside, Decimal, Located, PortIs;
      FoundRight(fields, buf, isConnect, foundAt);
      ghost var was := fields;
      assert Found(fields, buf, isConnect, UfSchema);
      if UfSchema in fields && UfHost !in fields {
        return true;
      }
      if UfHost in fields {
        failed := ParseHost(buf, foundAt);
        if failed {
          return;
        }
        HostLocated(was, fields, buf, isConnect);
      } else {
        NoHost(fields, buf, isConnect);
      }
      OnlyHostAndPort(fields, buf, isConnect);
      if isConnect && fields.Keys != {UfHost, UfPort} {
        return true;
      }
      failed := ReadPort(buf, isConnect);
    }

    // The value of the port
    method ReadPort(buf: string, isConnect: bool) returns (failed: bool)
      requires Located(fields, buf, isConnect) && port == 0 && UrlRun(UrlStart(isConnect), buf).Some?
      requires Authority(buf, isConnect) != [] ==> HostAccepts(Authority(buf, isConnect))
      modifies `port
      ensures !failed <==> (Part(buf, isConnect, UfPort) != [] ==> IsPort(Part(buf, isConnect, UfPort)))
      ensures !failed ==> PortIs(buf, isConnect, UfPort in fields, port)
    {
      hide Where, Authority, Count, First, UrlLabels, HostLabels, UrlRun, HostRun, Decimal, Digits, Part, PortIs;
      assert Found(fields, buf, isConnect, UfPort);
      if UfPort in fields {
        PortAuthority(buf, isConnect);
        PortRead(buf, isConnect);
        var v := Strtoul(buf[fields[UfPort].off..]);
        if v > 0xFFFF {
          return true;
        }
        port := v;
        PortWritten(buf, isConnect);
      } else {
        NoPort(buf, isConnect);
      }
      failed := false;
    }
  }

  // The labels so far are those of the part s is in, and of earlier ones.
  predicate HostSeen(ls: Labels, s: HostState) {
    && (HostField(s).Some? ==> Count(ls, HostField(s).value) > 0)
    && (Count(ls, UfUserinfo) > 0 ==> HostRank(s) >= 1)
    && (Count(ls, UfHost) > 0 ==> HostRank(s) >= 4)
    && (Count(ls, UfPort) > 0 ==> HostRank(s) >= 7)
    && (HostRank(s) >= 4 ==> Count(ls, UfHost) > 0)
  }

  // A part that starts is new, and one that goes on has been seen.
  predicate HostMoves(ls: Labels, s: HostState, next: HostState) {
    && (next.Host? ==> (s.Host? <==> Count(ls, UfHost) > 0))
    && (next.HostV6? ==> (s.HostV6? <==> Count(ls, UfHost) > 0))
    && (next.HostV6ZoneStart? || next.HostV6Zone? ==> Count(ls, UfHost) > 0)
    && (next.Port? ==> (s.Port? <==> Count(ls, UfPort) > 0))
    && (next.Userinfo? ==> (s.Userinfo? <==> Count(ls, UfUserinfo) > 0))
  }

  lemma HostSeenNext(ls: Labels, i: nat, s: HostState, ch: char, next: HostState)
    requires i < |ls| && HostSeen(ls[..i], s) && ParseHostChar(s, ch) == Some(next) && ls[i] == HostField(next)
    ensures HostSeen(ls[..i + 1], next)
    ensures HostMoves(ls[..i], s, next)
  {
    HostRankNext(s, ch);
    LabelNext(ls, i, UfHost);
    LabelNext(ls, i, UfPort);
    LabelNext(ls, i, UfUserinfo);
  }

  lemma DeadHost(h: HostState, s: string, i: nat)
    requires i <= |s| && HostRun(h, s[..i]).None?
    ensures HostRun(h, s).None?
  {
    assert s == s[..i] + s[i..];
    HostRunConcat(h, s[..i], s[i..]);
  }
}
