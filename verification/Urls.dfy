// Where the fields of a URL are: the URL machine labels every byte, and the bytes of the authority
// are labelled again by the host machine (section 3 of RFC 3986).
module Urls {
  import opened Chars
  import opened Types
  import opened StartLine
  import opened Lengths

  // enum http_parser_url_fields
  datatype Field = UfSchema | UfHost | UfPort | UfPath | UfQuery | UfFragment | UfUserinfo

  // A field of the buffer: field_data
  datatype Span = Span(off: nat, len: nat)

  // enum http_host_state, without s_http_host_dead
  datatype HostState =
    | UserinfoStart | Userinfo
    | HostStart | HostV6Start | Host | HostV6 | HostV6End | HostV6ZoneStart | HostV6Zone
    | PortStart | Port

  // http_parse_host_char; None is s_http_host_dead. Zone ids are those of RFC 6874.
  function ParseHostChar(s: HostState, ch: char): Option<HostState> {
    match s
    case Userinfo => ParseUserinfoChar(ch)
    case UserinfoStart => ParseUserinfoChar(ch)
    case HostStart => if ch == '[' then Some(HostV6Start) else if IsHostChar(ch) then Some(Host) else None
    case Host => if IsHostChar(ch) then Some(Host) else if ch == ':' then Some(PortStart) else None
    case HostV6End => if ch == ':' then Some(PortStart) else None
    case HostV6 =>
      if ch == ']' then Some(HostV6End)
      else if IsAddressChar(ch) then Some(HostV6)
      else if ch == '%' then Some(HostV6ZoneStart)
      else None
    case HostV6Start => if IsAddressChar(ch) then Some(HostV6) else None
    case HostV6Zone => if ch == ']' then Some(HostV6End) else if IsZoneChar(ch) then Some(HostV6Zone) else None
    case HostV6ZoneStart => if IsZoneChar(ch) then Some(HostV6Zone) else None
    case Port => if IsNum(ch) then Some(Port) else None
    case PortStart => if IsNum(ch) then Some(Port) else None
  }

  function ParseUserinfoChar(ch: char): Option<HostState> {
    if ch == '@' then Some(HostStart) else if IsUserInfoChar(ch) then Some(Userinfo) else None
  }

  predicate IsAddressChar(ch: char) { IsHex(ch) || ch == ':' || ch == '.' }

  predicate IsZoneChar(ch: char) {
    IsAlphaNum(ch) || ch == '%' || ch == '.' || ch == '-' || ch == '_' || ch == '~'
  }

  // The state of the URL machine after s.
  function UrlRun(u: UrlState, s: string): Option<UrlState>
    decreases |s|
  {
    if |s| == 0 then Some(u)
    else match ParseUrlChar(u, s[0])
      case None => None
      case Some(x) => UrlRun(x, s[1..])
  }

  function HostRun(h: HostState, s: string): Option<HostState>
    decreases |s|
  {
    if |s| == 0 then Some(h)
    else match ParseHostChar(h, s[0])
      case None => None
      case Some(x) => HostRun(x, s[1..])
  }

  lemma {:induction false} UrlRunConcat(u: UrlState, a: string, b: string)
    ensures UrlRun(u, a + b) == if UrlRun(u, a).Some? then UrlRun(UrlRun(u, a).value, b) else None
    decreases |a|
  {
    hide ParseUrlChar;
    if |a| == 0 {
      assert a + b == b;
    } else {
      assert (a + b)[1..] == a[1..] + b;
      if ParseUrlChar(u, a[0]).Some? {
        UrlRunConcat(ParseUrlChar(u, a[0]).value, a[1..], b);
      }
    }
  }

  lemma {:induction false} HostRunConcat(h: HostState, a: string, b: string)
    ensures HostRun(h, a + b) == if HostRun(h, a).Some? then HostRun(HostRun(h, a).value, b) else None
    decreases |a|
  {
    hide ParseHostChar;
    if |a| == 0 {
      assert a + b == b;
    } else {
      assert (a + b)[1..] == a[1..] + b;
      if ParseHostChar(h, a[0]).Some? {
        HostRunConcat(ParseHostChar(h, a[0]).value, a[1..], b);
      }
    }
  }

  // After one more byte.
  lemma UrlRunNext(u: UrlState, s: string, i: nat)
    requires i < |s|
    ensures UrlRun(u, s[..i + 1]) ==
            if UrlRun(u, s[..i]).Some? then ParseUrlChar(UrlRun(u, s[..i]).value, s[i]) else None
  {
    hide ParseUrlChar;
    assert s[..i + 1] == s[..i] + [s[i]];
    UrlRunConcat(u, s[..i], [s[i]]);
    assert [s[i]][1..] == [];
  }

  lemma HostRunNext(h: HostState, s: string, i: nat)
    requires i < |s|
    ensures HostRun(h, s[..i + 1]) ==
            if HostRun(h, s[..i]).Some? then ParseHostChar(HostRun(h, s[..i]).value, s[i]) else None
  {
    hide ParseHostChar;
    assert s[..i + 1] == s[..i] + [s[i]];
    HostRunConcat(h, s[..i], [s[i]]);
    assert [s[i]][1..] == [];
  }

  // The field a byte belongs to that leads to u; None for a delimiter.
  function UrlField(u: UrlState): Option<Field> {
    match u
    case Schema => Some(UfSchema)
    case Server => Some(UfHost)
    case ServerWithAt => Some(UfHost)
    case Path => Some(UfPath)
    case Query => Some(UfQuery)
    case Fragment => Some(UfFragment)
    case _ => None
  }

  function HostField(h: HostState): Option<Field> {
    match h
    case Userinfo => Some(UfUserinfo)
    case Host => Some(UfHost)
    case HostV6 => Some(UfHost)
    case HostV6ZoneStart => Some(UfHost)
    case HostV6Zone => Some(UfHost)
    case Port => Some(UfPort)
    case _ => None
  }

  type Labels = seq<Option<Field>>

  // The label of every byte.
  function UrlLabels(u: UrlState, s: string): (ls: Labels)
    ensures |ls| == |s|
  {
    seq(|s|, i requires 0 <= i < |s| =>
      if UrlRun(u, s[..i + 1]).Some? then UrlField(UrlRun(u, s[..i + 1]).value) else None)
  }

  function HostLabels(h: HostState, s: string): (ls: Labels)
    ensures |ls| == |s|
  {
    seq(|s|, i requires 0 <= i < |s| =>
      if HostRun(h, s[..i + 1]).Some? then HostField(HostRun(h, s[..i + 1]).value) else None)
  }

  // How many bytes have a label, and where the first of them is.
  function Count(ls: Labels, f: Field): nat {
    if |ls| == 0 then 0 else Count(ls[..|ls| - 1], f) + if ls[|ls| - 1] == Some(f) then 1 else 0
  }

  function First(ls: Labels, f: Field): (i: nat)
    ensures i <= |ls|
  {
    if |ls| == 0 then 0
    else
      var i := First(ls[..|ls| - 1], f);
      if i < |ls| - 1 then i else if ls[|ls| - 1] == Some(f) then |ls| - 1 else |ls|
  }

  lemma {:induction false} NoneFirst(ls: Labels, f: Field)
    ensures Count(ls, f) == 0 <==> First(ls, f) == |ls|
    decreases |ls|
  {
    if |ls| > 0 {
      NoneFirst(ls[..|ls| - 1], f);
    }
  }

  ghost predicate Together(ls: Labels, f: Field) {
    forall i, j, k :: 0 <= i < j < k < |ls| && ls[i] == Some(f) && ls[k] == Some(f) ==> ls[j] == Some(f)
  }

  // The bytes with one label lie together, so count and first byte say where they are.
  lemma {:induction false} SpanExact(ls: Labels, f: Field)
    requires Together(ls, f)
    ensures First(ls, f) + Count(ls, f) <= |ls|
    ensures Count(ls, f) == 0 <==> First(ls, f) == |ls|
    ensures forall j :: 0 <= j < |ls| ==> (ls[j] == Some(f) <==> First(ls, f) <= j < First(ls, f) + Count(ls, f))
    decreases |ls|
  {
    if |ls| > 0 {
      var n := |ls| - 1;
      var xs := ls[..n];
      SpanExact(xs, f);
      if ls[n] == Some(f) && Count(xs, f) > 0 {
        assert xs[First(xs, f)] == Some(f) == ls[First(xs, f)];
      }
      assert forall j :: 0 <= j < n ==> ls[j] == xs[j];
    }
  }

  // The machines never go back to an earlier part.
  function UrlRank(u: UrlState): nat {
    match u
    case SpacesBeforeUrl => 0
    case Schema => 1
    case SchemaSlash => 2
    case SchemaSlashSlash => 3
    case ServerStart => 4
    case Server => 5
    case ServerWithAt => 5
    case Path => 6
    case QueryStart => 7
    case Query => 8
    case FragmentStart => 9
    case Fragment => 10
  }

  function HostRank(h: HostState): nat {
    match h
    case UserinfoStart => 0
    case Userinfo => 1
    case HostStart => 2
    case HostV6Start => 3
    case Host => 4
    case HostV6 => 4
    case HostV6ZoneStart => 4
    case HostV6Zone => 4
    case HostV6End => 5
    case PortStart => 6
    case Port => 7
  }

  lemma UrlRankNext(u: UrlState, ch: char)
    requires ParseUrlChar(u, ch).Some?
    ensures var x := ParseUrlChar(u, ch).value;
            && UrlRank(u) <= UrlRank(x) && !x.SpacesBeforeUrl?
            && (UrlField(x).None? ==> ch == ':' || ch == '/' || ch == '?' || ch == '#')
            && (x.ServerWithAt? ==> ch == '@') && (x.Server? ==> ch != '@')
  {
  }

  lemma HostRankNext(h: HostState, ch: char)
    requires ParseHostChar(h, ch).Some?
    ensures var x := ParseHostChar(h, ch).value;
            && HostRank(h) <= HostRank(x) && !x.UserinfoStart?
            && (HostField(x).None? ==> ch == ':' || ch == '@' || ch == '[' || ch == ']')
  {
  }

  lemma {:induction false} UrlRankGrows(u: UrlState, s: string, i: nat, j: nat)
    requires i <= j <= |s| && UrlRun(u, s[..j]).Some?
    ensures UrlRun(u, s[..i]).Some? && UrlRank(UrlRun(u, s[..i]).value) <= UrlRank(UrlRun(u, s[..j]).value)
    decreases j - i
  {
    hide UrlRun, ParseUrlChar, UrlRank;
    if i < j {
      UrlRunNext(u, s, j - 1);
      UrlRankNext(UrlRun(u, s[..j - 1]).value, s[j - 1]);
      UrlRankGrows(u, s, i, j - 1);
    }
  }

  lemma {:induction false} HostRankGrows(h: HostState, s: string, i: nat, j: nat)
    requires i <= j <= |s| && HostRun(h, s[..j]).Some?
    ensures HostRun(h, s[..i]).Some? && HostRank(HostRun(h, s[..i]).value) <= HostRank(HostRun(h, s[..j]).value)
    decreases j - i
  {
    hide HostRun, ParseHostChar, HostRank;
    if i < j {
      HostRunNext(h, s, j - 1);
      HostRankNext(HostRun(h, s[..j - 1]).value, s[j - 1]);
      HostRankGrows(h, s, i, j - 1);
    }
  }

  lemma UrlBetween(u: UrlState, s: string, i: nat, j: nat, k: nat, f: Field)
    requires i < j < k < |s| && UrlLabels(u, s)[i] == Some(f) && UrlLabels(u, s)[k] == Some(f)
    ensures UrlLabels(u, s)[j] == Some(f)
  {
    hide UrlRun;
    UrlRankGrows(u, s, j + 1, k + 1);
    UrlRankGrows(u, s, i + 1, j + 1);
    hide UrlLabels;
    UrlLabel(u, s, i);
    UrlLabel(u, s, j);
    UrlLabel(u, s, k);
  }

  lemma UrlLabel(u: UrlState, s: string, i: nat)
    requires i < |s|
    ensures var x := UrlRun(u, s[..i + 1]);
            UrlLabels(u, s)[i] == if x.Some? then UrlField(x.value) else None
  {
    hide UrlRun, UrlField;
  }

  // A field is one stretch of the URL.
  lemma UrlTogether(u: UrlState, s: string, f: Field)
    ensures Together(UrlLabels(u, s), f)
  {
    hide UrlLabels, UrlRun;
    var ls := UrlLabels(u, s);
    forall i, j, k | 0 <= i < j < k < |ls| && ls[i] == Some(f) && ls[k] == Some(f) ensures ls[j] == Some(f) {
      UrlBetween(u, s, i, j, k, f);
    }
  }

  lemma HostBetween(h: HostState, s: string, i: nat, j: nat, k: nat, f: Field)
    requires i < j < k < |s| && HostLabels(h, s)[i] == Some(f) && HostLabels(h, s)[k] == Some(f)
    ensures HostLabels(h, s)[j] == Some(f)
  {
    hide HostRun;
    HostRankGrows(h, s, j + 1, k + 1);
    HostRankGrows(h, s, i + 1, j + 1);
    hide HostLabels;
    HostLabel(h, s, i);
    HostLabel(h, s, j);
    HostLabel(h, s, k);
  }

  lemma HostLabel(h: HostState, s: string, i: nat)
    requires i < |s|
    ensures var x := HostRun(h, s[..i + 1]);
            HostLabels(h, s)[i] == if x.Some? then HostField(x.value) else None
  {
    hide HostRun, HostField;
  }

  lemma HostTogether(h: HostState, s: string, f: Field)
    ensures Together(HostLabels(h, s), f)
  {
    hide HostLabels, HostRun;
    var ls := HostLabels(h, s);
    forall i, j, k | 0 <= i < j < k < |ls| && ls[i] == Some(f) && ls[k] == Some(f) ensures ls[j] == Some(f) {
      HostBetween(h, s, i, j, k, f);
    }
  }

  function UrlStart(isConnect: bool): UrlState { if isConnect then ServerStart else SpacesBeforeUrl }

  // The states a host may end in.
  predicate MayEndHost(h: HostState) { h.Host? || h.HostV6End? || h.Port? }

  predicate InHost(f: Field) { f.UfHost? || f.UfPort? || f.UfUserinfo? }

  function Cut(s: string, x: Span): string { if x.off + x.len <= |s| then s[x.off..x.off + x.len] else [] }

  function SpanOf(ls: Labels, f: Field): Span { Span(First(ls, f), Count(ls, f)) }

  // userinfo, host and port together
  function Authority(s: string, isConnect: bool): string {
    Cut(s, SpanOf(UrlLabels(UrlStart(isConnect), s), UfHost))
  }

  // Only after an @ is there a userinfo.
  function AuthorityStart(a: string): HostState { if '@' in a then UserinfoStart else HostStart }

  function AuthorityLabels(a: string): Labels { HostLabels(AuthorityStart(a), a) }

  // Where a field is; its length is 0 if there is none.
  function Where(s: string, isConnect: bool, f: Field): Span {
    var ls := UrlLabels(UrlStart(isConnect), s);
    if InHost(f) then
      var x := SpanOf(AuthorityLabels(Authority(s, isConnect)), f);
      Span(First(ls, UfHost) + x.off, x.len)
    else SpanOf(ls, f)
  }

  function Part(s: string, isConnect: bool, f: Field): string { Cut(s, Where(s, isConnect, f)) }

  predicate IsPort(s: string) { IsLengthText(s) && Decimal(0, s) <= 65535 }

  // The URLs that are accepted.
  predicate Accepts(s: string, isConnect: bool) {
    && UrlRun(UrlStart(isConnect), s).Some?
    && (Part(s, isConnect, UfSchema) != [] ==> Authority(s, isConnect) != [])
    && (Authority(s, isConnect) != [] ==> HostAccepts(Authority(s, isConnect)))
    && (isConnect ==> Part(s, isConnect, UfHost) != [] && Part(s, isConnect, UfPort) != [] &&
                      forall f: Field :: !f.UfHost? && !f.UfPort? ==> Part(s, isConnect, f) == [])
    && (Part(s, isConnect, UfPort) != [] ==> IsPort(Part(s, isConnect, UfPort)))
  }

  predicate HostAccepts(a: string) {
    HostRun(AuthorityStart(a), a).Some? && MayEndHost(HostRun(AuthorityStart(a), a).value)
  }
}
