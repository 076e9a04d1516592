// Printing the parts of a URL and parsing it gives back the parts, each where it was printed.
module Parts {
  import opened Chars
  import opened Types
  import opened StartLine
  import opened Urls
  import opened Tiling
  import opened Syntax

  // Text that is labelled alike.
  datatype Piece = Piece(mark: Option<Field>, text: string)

  function Join(ps: seq<Piece>): string
    decreases |ps|
  {
    if |ps| == 0 then [] else Join(ps[..|ps| - 1]) + ps[|ps| - 1].text
  }

  function Alike(l: Option<Field>, n: nat): Labels { seq(n, _ => l) }

  function LabelsOf(ps: seq<Piece>): (ls: Labels)
    ensures |ls| == |Join(ps)|
    decreases |ps|
  {
    if |ps| == 0 then [] else LabelsOf(ps[..|ps| - 1]) + Alike(ps[|ps| - 1].mark, |ps[|ps| - 1].text|)
  }

  // p is read from u to v.
  predicate UrlReads(u: UrlState, p: Piece, v: UrlState) {
    UrlRun(u, p.text) == Some(v) && UrlLabels(u, p.text) == Alike(p.mark, |p.text|)
  }

  predicate HostReads(u: HostState, p: Piece, v: HostState) {
    HostRun(u, p.text) == Some(v) && HostLabels(u, p.text) == Alike(p.mark, |p.text|)
  }

  lemma UrlLabelsConcat(u: UrlState, a: string, b: string)
    requires UrlRun(u, a).Some?
    ensures UrlLabels(u, a + b) == UrlLabels(u, a) + UrlLabels(UrlRun(u, a).value, b)
  {
    var x, y := UrlLabels(u, a + b), UrlLabels(u, a) + UrlLabels(UrlRun(u, a).value, b);
    forall j | 0 <= j < |x| ensures x[j] == y[j] {
      hide UrlRun;
      if j < |a| {
        assert (a + b)[..j + 1] == a[..j + 1];
      } else {
        assert (a + b)[..j + 1] == a + b[..j - |a| + 1];
        UrlRunConcat(u, a, b[..j - |a| + 1]);
      }
    }
  }

  lemma HostLabelsConcat(u: HostState, a: string, b: string)
    requires HostRun(u, a).Some?
    ensures HostLabels(u, a + b) == HostLabels(u, a) + HostLabels(HostRun(u, a).value, b)
  {
    var x, y := HostLabels(u, a + b), HostLabels(u, a) + HostLabels(HostRun(u, a).value, b);
    forall j | 0 <= j < |x| ensures x[j] == y[j] {
      hide HostRun;
      if j < |a| {
        assert (a + b)[..j + 1] == a[..j + 1];
      } else {
        assert (a + b)[..j + 1] == a + b[..j - |a| + 1];
        HostRunConcat(u, a, b[..j - |a| + 1]);
      }
    }
  }

  lemma {:induction false} UrlChain(ps: seq<Piece>, us: seq<UrlState>)
    requires |us| == |ps| + 1 && forall i :: 0 <= i < |ps| ==> UrlReads(us[i], ps[i], us[i + 1])
    ensures UrlRun(us[0], Join(ps)) == Some(us[|ps|]) && UrlLabels(us[0], Join(ps)) == LabelsOf(ps)
    decreases |ps|
  {
    if |ps| > 0 {
      var n := |ps| - 1;
      UrlChain(ps[..n], us[..n + 1]);
      assert UrlReads(us[n], ps[n], us[n + 1]);
      UrlRunConcat(us[0], Join(ps[..n]), ps[n].text);
      UrlLabelsConcat(us[0], Join(ps[..n]), ps[n].text);
    }
    hide UrlRun, UrlLabels;
  }

  lemma {:induction false} HostChain(ps: seq<Piece>, us: seq<HostState>)
    requires |us| == |ps| + 1 && forall i :: 0 <= i < |ps| ==> HostReads(us[i], ps[i], us[i + 1])
    ensures HostRun(us[0], Join(ps)) == Some(us[|ps|]) && HostLabels(us[0], Join(ps)) == LabelsOf(ps)
    decreases |ps|
  {
    if |ps| > 0 {
      var n := |ps| - 1;
      HostChain(ps[..n], us[..n + 1]);
      assert HostReads(us[n], ps[n], us[n + 1]);
      HostRunConcat(us[0], Join(ps[..n]), ps[n].text);
      HostLabelsConcat(us[0], Join(ps[..n]), ps[n].text);
    }
    hide HostRun, HostLabels;
  }

  lemma {:induction false} CountConcat(a: Labels, b: Labels, f: Field)
    ensures Count(a + b, f) == Count(a, f) + Count(b, f)
    ensures First(a + b, f) == if Count(a, f) > 0 then First(a, f) else |a| + First(b, f)
    decreases |b|
  {
    if |b| == 0 {
      assert a + b == a;
      NoneFirst(a, f);
    } else {
      var n := |b| - 1;
      assert (a + b)[..|a + b| - 1] == a + b[..n];
      CountConcat(a, b[..n], f);
      NoneFirst(a, f);
    }
  }

  lemma {:induction false} CountAlike(l: Option<Field>, n: nat, f: Field)
    ensures Count(Alike(l, n), f) == if l == Some(f) then n else 0
    ensures First(Alike(l, n), f) == if l == Some(f) then 0 else n
    decreases n
  {
    if n > 0 {
      assert Alike(l, n)[..n - 1] == Alike(l, n - 1);
      CountAlike(l, n - 1, f);
    }
  }

  // No piece with this label and any text.
  predicate Without(ps: seq<Piece>, f: Field) {
    forall i :: 0 <= i < |ps| ==> ps[i].mark != Some(f) || ps[i].text == []
  }

  lemma {:induction false} CountWithout(ps: seq<Piece>, f: Field)
    requires Without(ps, f)
    ensures Count(LabelsOf(ps), f) == 0
    decreases |ps|
  {
    if |ps| > 0 {
      var p := ps[|ps| - 1];
      CountWithout(ps[..|ps| - 1], f);
      CountConcat(LabelsOf(ps[..|ps| - 1]), Alike(p.mark, |p.text|), f);
      CountAlike(p.mark, |p.text|, f);
    }
  }

  lemma {:induction false} JoinConcat(a: seq<Piece>, b: seq<Piece>)
    ensures Join(a + b) == Join(a) + Join(b) && LabelsOf(a + b) == LabelsOf(a) + LabelsOf(b)
    decreases |b|
  {
    if |b| == 0 {
      assert a + b == a;
    } else {
      var n := |b| - 1;
      assert (a + b)[..|a + b| - 1] == a + b[..n];
      JoinConcat(a, b[..n]);
    }
  }

  // A piece with a label of its own is the span of that label.
  lemma SpanOfPiece(ps: seq<Piece>, k: nat, f: Field)
    requires k < |ps| && ps[k].mark == Some(f) && ps[k].text != []
    requires Without(ps[..k], f) && Without(ps[k + 1..], f)
    ensures SpanOf(LabelsOf(ps), f) == Span(|Join(ps[..k])|, |ps[k].text|)
    ensures Cut(Join(ps), SpanOf(LabelsOf(ps), f)) == ps[k].text
  {
    hide LabelsOf, Join, Alike, Without, Count, First;
    var a, p, b := ps[..k], [ps[k]], ps[k + 1..];
    assert ps == a + (p + b);
    OnePiece(ps[k]);
    JoinConcat(a, p + b);
    JoinConcat(p, b);
    CountWithout(a, f);
    CountWithout(b, f);
    SpanMiddle(LabelsOf(a), |ps[k].text|, LabelsOf(b), f);
    CutMiddle(Join(a), ps[k].text, Join(b));
  }

  lemma SpanMiddle(a: Labels, n: nat, b: Labels, f: Field)
    requires n > 0 && Count(a, f) == 0 && Count(b, f) == 0
    ensures SpanOf(a + (Alike(Some(f), n) + b), f) == Span(|a|, n)
  {
    hide Count, First, Alike;
    CountAlike(Some(f), n, f);
    CountConcat(a, Alike(Some(f), n) + b, f);
    CountConcat(Alike(Some(f), n), b, f);
  }

  lemma CutMiddle(a: string, p: string, b: string)
    ensures Cut(a + (p + b), Span(|a|, |p|)) == p
  {
    var s := a + (p + b);
    assert s[|a|..] == p + b;
    assert s[|a|..|a| + |p|] == s[|a|..][..|p|];
  }

  lemma OnePiece(p: Piece)
    ensures Join([p]) == p.text && LabelsOf([p]) == Alike(p.mark, |p.text|)
  {
    assert [p][..0] == [];
  }

  // The parts of a URL; an empty part is absent. A bracketed host is an IPv6 address, maybe with a zone. An
  // at-sign, a question mark and hashes may be there also when the part they delimit is empty.
  datatype UrlParts = UrlParts(schema: string, userinfo: string, at: bool, host: string, bracketed: bool, port: string,
                               path: string, mark: bool, query: string, hashes: string, fragment: string)

  function If(c: bool, s: string): string { if c then s else [] }

  function AuthorityPieces(x: UrlParts): seq<Piece> {
    [Piece(Some(UfUserinfo), x.userinfo), Piece(None, If(x.at, "@")),
     Piece(None, If(x.bracketed, "[")), Piece(Some(UfHost), x.host), Piece(None, If(x.bracketed, "]")),
     Piece(None, If(x.port != [], ":")), Piece(Some(UfPort), x.port)]
  }

  function PrintAuthority(x: UrlParts): string { Join(AuthorityPieces(x)) }

  function UrlPieces(x: UrlParts): seq<Piece> {
    [Piece(Some(UfSchema), x.schema), Piece(None, If(x.schema != [], "://")),
     Piece(Some(UfHost), PrintAuthority(x)), Piece(Some(UfPath), x.path),
     Piece(None, If(x.mark, "?")), Piece(Some(UfQuery), x.query),
     Piece(None, x.hashes), Piece(Some(UfFragment), x.fragment)]
  }

  // schema://userinfo@host:port/path?query#fragment
  function PrintUrl(x: UrlParts): string { Join(UrlPieces(x)) }

  // The parts that are read: a URL with an authority has a schema or belongs to CONNECT, one without starts
  // with its path, or is empty; hashes need a path or a question mark before them.
  predicate IsUrlShape(x: UrlParts, isConnect: bool) {
    && All(x.schema, IsAlpha) && IsAuthority(x) && IsTail(x)
    && (if isConnect || x.schema != [] then
          && (isConnect ==> x.schema == []) && x.host != [] && (x.path != [] ==> x.path[0] == '/')
        else
          && !x.at && x.host == [] && x.port == []
          && (if x.path == [] then !x.mark else x.path[0] == '/' || x.path[0] == '*'))
  }

  // Those that are accepted: the port is in range, and a CONNECT request has host and port only.
  predicate IsUrlParts(x: UrlParts, isConnect: bool) {
    && IsUrlShape(x, isConnect) && (x.port != [] ==> IsPort(x.port))
    && (isConnect ==> x.port != [] && x.userinfo == [] && x.path == [] && x.query == [] && x.fragment == [])
  }

  predicate IsAuthority(x: UrlParts) {
    && All(x.userinfo, IsUserInfoChar) && (x.userinfo != [] ==> x.at) && IsHost(x) && All(x.port, IsNum)
  }

  // Path, query and fragment
  predicate IsTail(x: UrlParts) {
    && All(x.path, IsUrlChar) && All(x.query, IsQueryChar) && All(x.fragment, IsFragmentChar) && All(x.hashes, IsHash)
    && (x.query != [] ==> x.mark) && (x.hashes != [] ==> x.path != [] || x.mark)
    && (x.fragment != [] ==> x.hashes != [] && x.fragment[0] != '#')
  }

  predicate IsHash(ch: char) { ch == '#' }

  predicate IsQueryChar(ch: char) { IsUrlChar(ch) || ch == '?' }

  predicate IsFragmentChar(ch: char) { IsUrlChar(ch) || ch == '?' || ch == '#' }

  predicate IsHost(x: UrlParts) {
    if x.bracketed then
      x.host != [] && (HostRun(HostV6Start, x.host) == Some(HostV6) || HostRun(HostV6Start, x.host) == Some(HostV6Zone))
    else All(x.host, IsHostChar)
  }

  function Text(x: UrlParts, f: Field): string {
    match f
    case UfSchema => x.schema
    case UfUserinfo => x.userinfo
    case UfHost => x.host
    case UfPort => x.port
    case UfPath => x.path
    case UfQuery => x.query
    case UfFragment => x.fragment
  }

  // A run of bytes that keep the machine in one state.
  lemma {:induction false} UrlStay(u: UrlState, v: UrlState, s: string, p: char -> bool)
    requires All(s, p) && s != []
    requires forall ch {:trigger p(ch)} :: p(ch) ==> ParseUrlChar(v, ch) == Some(v)
    requires ParseUrlChar(u, s[0]) == Some(v)
    ensures UrlReads(u, Piece(UrlField(v), s), v)
    decreases |s|
  {
    hide ParseUrlChar;
    var n := |s| - 1;
    if n == 0 {
      assert s == [s[0]];
      UrlOne(u, s[0]);
    } else {
      UrlStay(u, v, s[..n], p);
      UrlRunNext(u, s, n);
      assert s[..n + 1] == s;
      UrlLabelsConcat(u, s[..n], [s[n]]);
      assert s[..n] + [s[n]] == s;
      UrlOne(v, s[n]);
    }
  }

  lemma UrlOne(u: UrlState, ch: char)
    requires ParseUrlChar(u, ch).Some?
    ensures var v := ParseUrlChar(u, ch).value; UrlReads(u, Piece(UrlField(v), [ch]), v)
  {
    hide ParseUrlChar;
    assert [ch][1..] == [] && [ch][..1] == [ch];
    assert UrlRun(u, [ch]) == ParseUrlChar(u, ch);
  }

  lemma UrlNone(u: UrlState, f: Option<Field>)
    ensures UrlReads(u, Piece(f, []), u)
  {
  }

  lemma HostOne(u: HostState, ch: char)
    requires ParseHostChar(u, ch).Some?
    ensures var v := ParseHostChar(u, ch).value; HostReads(u, Piece(HostField(v), [ch]), v)
  {
    hide ParseHostChar;
    assert [ch][1..] == [] && [ch][..1] == [ch];
    assert HostRun(u, [ch]) == ParseHostChar(u, ch);
  }

  lemma HostNone(u: HostState, f: Option<Field>)
    ensures HostReads(u, Piece(f, []), u)
  {
  }

  lemma {:induction false} HostStay(u: HostState, v: HostState, s: string, p: char -> bool)
    requires All(s, p) && s != []
    requires forall ch {:trigger p(ch)} :: p(ch) ==> ParseHostChar(v, ch) == Some(v)
    requires ParseHostChar(u, s[0]) == Some(v)
    ensures HostReads(u, Piece(HostField(v), s), v)
    decreases |s|
  {
    hide ParseHostChar;
    var n := |s| - 1;
    if n == 0 {
      assert s == [s[0]];
      HostOne(u, s[0]);
    } else {
      HostStay(u, v, s[..n], p);
      HostRunNext(u, s, n);
      assert s[..n + 1] == s;
      HostLabelsConcat(u, s[..n], [s[n]]);
      assert s[..n] + [s[n]] == s;
      HostOne(v, s[n]);
    }
  }

  // The bytes of an IPv6 address and its zone are all of the host.
  lemma AddressReads(s: string, v: HostState)
    requires s != [] && HostRun(HostV6Start, s) == Some(v) && (v.HostV6? || v.HostV6Zone?)
    ensures HostReads(HostV6Start, Piece(Some(UfHost), s), v) && All(s, IsUserInfoChar)
  {
    assert s[..|s|] == s && s[..0] == [];
    var ls := HostLabels(HostV6Start, s);
    forall j | 0 <= j < |s| ensures ls[j] == Some(UfHost) && IsUserInfoChar(s[j]) {
      HostRankGrows(HostV6Start, s, j + 1, |s|);
      HostRankGrows(HostV6Start, s, j, j + 1);
      HostRankGrows(HostV6Start, s, 0, j);
      HostRunNext(HostV6Start, s, j);
      hide HostRun, IsUserInfoChar;
      AddressByte(HostRun(HostV6Start, s[..j]).value, s[j]);
    }
    assert ls == Alike(Some(UfHost), |s|);
  }

  lemma AddressByte(h: HostState, ch: char)
    requires HostRank(h) >= 3 && ParseHostChar(h, ch).Some? && HostRank(ParseHostChar(h, ch).value) <= 4
    ensures HostField(ParseHostChar(h, ch).value) == Some(UfHost) && IsUserInfoChar(ch)
  {
  }

  // The authority as the host machine reads it.
  lemma AuthorityHost(x: UrlParts)
    requires IsAuthority(x) && x.host != []
    ensures var h := if x.at then UserinfoStart else HostStart;
            var r := HostRun(h, PrintAuthority(x));
            r.Some? && MayEndHost(r.value) && HostLabels(h, PrintAuthority(x)) == LabelsOf(AuthorityPieces(x))
  {
    hide HostReads, HostRun, HostLabels, All, Join, LabelsOf;
    var ps := AuthorityPieces(x);
    var h0 := if x.at then UserinfoStart else HostStart;
    var h1 := if x.userinfo != [] then Userinfo else h0;
    var h3 := if x.bracketed then HostV6Start else HostStart;
    var h4 := if x.bracketed then HostRun(HostV6Start, x.host).value else Host;
    var h5 := if x.bracketed then HostV6End else Host;
    var h6 := if x.port != [] then PortStart else h5;
    var h7 := if x.port != [] then Port else h5;
    UserinfoReads(x.userinfo, x.at);
    HostTextReads(x);
    PortReads(h5, x.port);
    HostChain(ps, [h0, h1, HostStart, h3, h4, h5, h6, h7]);
  }

  lemma UserinfoReads(s: string, at: bool)
    requires All(s, IsUserInfoChar) && (s != [] ==> at)
    ensures var h0 := if at then UserinfoStart else HostStart;
            var h1 := if s != [] then Userinfo else h0;
            HostReads(h0, Piece(Some(UfUserinfo), s), h1) && HostReads(h1, Piece(None, If(at, "@")), HostStart)
  {
    HostOne(Userinfo, '@');
    HostOne(UserinfoStart, '@');
    HostNone(HostStart, None);
    HostNone(if at then UserinfoStart else HostStart, Some(UfUserinfo));
    if s != [] {
      assert !IsUserInfoChar('@');
      HostStay(UserinfoStart, Userinfo, s, IsUserInfoChar);
    }
  }

  lemma HostTextReads(x: UrlParts)
    requires IsHost(x) && x.host != []
    ensures x.bracketed ==> HostReads(HostStart, Piece(None, "["), HostV6Start)
    ensures x.bracketed ==> HostReads(HostV6Start, Piece(Some(UfHost), x.host), HostRun(HostV6Start, x.host).value)
    ensures x.bracketed ==> HostReads(HostRun(HostV6Start, x.host).value, Piece(None, "]"), HostV6End)
    ensures !x.bracketed ==> HostReads(HostStart, Piece(None, []), HostStart)
    ensures !x.bracketed ==> HostReads(HostStart, Piece(Some(UfHost), x.host), Host)
    ensures !x.bracketed ==> HostReads(Host, Piece(None, []), Host)
  {
    if x.bracketed {
      var v := HostRun(HostV6Start, x.host).value;
      HostOne(HostStart, '[');
      AddressReads(x.host, v);
      HostOne(v, ']');
    } else {
      HostNone(HostStart, None);
      HostNone(Host, None);
      HostStay(HostStart, Host, x.host, IsHostChar);
    }
  }

  lemma PortReads(h: HostState, s: string)
    requires All(s, IsNum) && (h.Host? || h.HostV6End?)
    ensures s != [] ==> HostReads(h, Piece(None, ":"), PortStart)
    ensures s != [] ==> HostReads(PortStart, Piece(Some(UfPort), s), Port)
    ensures s == [] ==> HostReads(h, Piece(None, []), h) && HostReads(h, Piece(Some(UfPort), s), h)
  {
    HostNone(h, None);
    HostNone(h, Some(UfPort));
    if s != [] {
      HostOne(h, ':');
      HostStay(PortStart, Port, s, IsNum);
    }
  }

  predicate IsServerChar(ch: char) { IsUserInfoChar(ch) || ch == '[' || ch == ']' }

  // The authority as the URL machine reads it: all of it is of one label.
  function ServerPieces(x: UrlParts): seq<Piece> {
    seq(7, i requires 0 <= i < 7 => Piece(Some(UfHost), AuthorityPieces(x)[i].text))
  }

  lemma {:induction false} SameJoin(ps: seq<Piece>, qs: seq<Piece>)
    requires |ps| == |qs| && forall i :: 0 <= i < |ps| ==> ps[i].text == qs[i].text
    ensures Join(ps) == Join(qs)
    decreases |ps|
  {
    if |ps| > 0 {
      SameJoin(ps[..|ps| - 1], qs[..|ps| - 1]);
    }
  }

  lemma {:induction false} OneLabel(ps: seq<Piece>, f: Option<Field>)
    requires forall i :: 0 <= i < |ps| ==> ps[i].mark == f
    ensures LabelsOf(ps) == Alike(f, |Join(ps)|)
    decreases |ps|
  {
    if |ps| > 0 {
      OneLabel(ps[..|ps| - 1], f);
    }
  }

  lemma ServerReads(u: UrlState, s: string)
    requires (u.ServerStart? || u.Server? || u.ServerWithAt?) && All(s, IsServerChar)
    ensures UrlReads(u, Piece(Some(UfHost), s), if s == [] then u else Server)
  {
    UrlNone(u, Some(UfHost));
    if s != [] {
      UrlStay(u, Server, s, IsServerChar);
    }
  }

  lemma AuthorityChars(x: UrlParts)
    requires IsAuthority(x)
    ensures All(x.userinfo, IsServerChar) && All(x.host, IsServerChar) && All(x.port, IsServerChar)
    ensures All("[", IsServerChar) && All("]", IsServerChar) && All(":", IsServerChar) && All([], IsServerChar)
  {
    hide HostRun;
    if x.bracketed {
      AddressReads(x.host, HostRun(HostV6Start, x.host).value);
    }
  }

  lemma AuthorityUrl(x: UrlParts)
    requires IsAuthority(x) && x.host != []
    ensures UrlReads(ServerStart, Piece(Some(UfHost), PrintAuthority(x)), Server)
  {
    hide UrlRun, UrlLabels, All, Join, LabelsOf, IsHost, UrlReads, IsAuthority;
    AtFollows(x);
    var ps := ServerPieces(x);
    SameJoin(ps, AuthorityPieces(x));
    OneLabel(ps, Some(UfHost));
    AuthorityChars(x);
    UrlOne(Server, '@');
    UrlOne(ServerStart, '@');
    var u1 := if x.userinfo != [] then Server else ServerStart;
    var u2 := if x.at then ServerWithAt else ServerStart;
    var u3 := if x.bracketed then Server else u2;
    ServerReads(ServerStart, x.userinfo);
    UrlNone(u1, Some(UfHost));
    ServerReads(u2, If(x.bracketed, "["));
    ServerReads(u3, x.host);
    ServerReads(Server, If(x.bracketed, "]"));
    ServerReads(Server, If(x.port != [], ":"));
    ServerReads(Server, x.port);
    UrlChain(ps, [ServerStart, u1, u2, u3, Server, Server, Server, Server]);
    AuthorityJoined(x);
  }

  lemma AtFollows(x: UrlParts)
    requires IsAuthority(x)
    ensures x.userinfo != [] ==> x.at
  {
  }

  lemma AuthorityJoined(x: UrlParts)
    requires UrlRun(ServerStart, Join(ServerPieces(x))) == Some(Server)
    requires UrlLabels(ServerStart, Join(ServerPieces(x))) == LabelsOf(ServerPieces(x))
    ensures UrlReads(ServerStart, Piece(Some(UfHost), PrintAuthority(x)), Server)
  {
    hide UrlRun, UrlLabels, Join, LabelsOf;
    var ps := ServerPieces(x);
    SameJoin(ps, AuthorityPieces(x));
    OneLabel(ps, Some(UfHost));
  }

  lemma SchemaReads(s: string)
    requires All(s, IsAlpha)
    ensures s != [] ==> UrlReads(SpacesBeforeUrl, Piece(Some(UfSchema), s), Schema)
    ensures UrlReads(Schema, Piece(None, "://"), ServerStart)
  {
    if s != [] {
      UrlStay(SpacesBeforeUrl, Schema, s, IsAlpha);
    }
    var t := "://";
    assert t[1..][1..][1..] == [] && t[1..][1..][0] == '/' && t[1..][0] == '/';
    assert ParseUrlChar(Schema, ':') == Some(SchemaSlash) && ParseUrlChar(SchemaSlash, '/') == Some(SchemaSlashSlash);
    assert ParseUrlChar(SchemaSlashSlash, '/') == Some(ServerStart);
    UrlRunNext(Schema, t, 0);
    UrlRunNext(Schema, t, 1);
    UrlRunNext(Schema, t, 2);
    assert t[..3] == t && t[..0] == [];
    hide ParseUrlChar;
    assert UrlLabels(Schema, t) == Alike(None, 3);
  }

  predicate IsServerState(u: UrlState) { u.ServerStart? || u.Server? || u.ServerWithAt? }

  lemma PathReads(u: UrlState, s: string)
    requires All(s, IsUrlChar)
    requires s != [] ==> (IsServerState(u) && s[0] == '/') || (u.SpacesBeforeUrl? && (s[0] == '/' || s[0] == '*'))
    ensures UrlReads(u, Piece(Some(UfPath), s), if s == [] then u else Path)
  {
    UrlNone(u, Some(UfPath));
    if s != [] {
      UrlStay(u, Path, s, IsUrlChar);
    }
  }

  lemma QueryReads(u: UrlState, mark: bool, s: string)
    requires All(s, IsQueryChar) && (s != [] ==> mark) && (mark ==> IsServerState(u) || u.Path?)
    ensures var v := if mark then QueryStart else u;
            && UrlReads(u, Piece(None, If(mark, "?")), v)
            && UrlReads(v, Piece(Some(UfQuery), s), if s == [] then v else Query)
  {
    UrlNone(u, None);
    UrlNone(if mark then QueryStart else u, Some(UfQuery));
    if mark {
      UrlOne(u, '?');
    }
    if s != [] {
      UrlStay(QueryStart, Query, s, IsQueryChar);
    }
  }

  lemma FragmentReads(u: UrlState, hashes: string, s: string)
    requires All(s, IsFragmentChar) && All(hashes, IsHash) && (s != [] ==> hashes != [] && s[0] != '#')
    requires hashes != [] ==> u.Path? || u.QueryStart? || u.Query?
    ensures var v := if hashes == [] then u else FragmentStart;
            && UrlReads(u, Piece(None, hashes), v)
            && UrlReads(v, Piece(Some(UfFragment), s), if s == [] then v else Fragment)
  {
    UrlNone(u, None);
    UrlNone(if hashes == [] then u else FragmentStart, Some(UfFragment));
    if hashes != [] {
      UrlStay(u, FragmentStart, hashes, IsHash);
    }
    if s != [] {
      UrlStay(FragmentStart, Fragment, s, IsFragmentChar);
    }
  }

  // The schema and the authority.
  lemma FrontReads(x: UrlParts, isConnect: bool)
    requires IsUrlShape(x, isConnect)
    ensures var u0 := UrlStart(isConnect);
            var u1, u2 := if x.schema != [] then Schema else u0, if x.schema != [] then ServerStart else u0;
            && UrlReads(u0, Piece(Some(UfSchema), x.schema), u1)
            && UrlReads(u1, Piece(None, If(x.schema != [], "://")), u2)
            && UrlReads(u2, Piece(Some(UfHost), PrintAuthority(x)), if x.host != [] then Server else u0)
  {
    var u0 := UrlStart(isConnect);
    SchemaReads(x.schema);
    UrlNone(u0, Some(UfSchema));
    UrlNone(u0, None);
    if x.host != [] {
      AuthorityUrl(x);
    } else {
      NoAuthority(x);
      UrlNone(u0, Some(UfHost));
    }
    hide UrlReads, IsHost, All, PrintAuthority;
  }

  // The path, the query and the fragment.
  lemma BackReads(x: UrlParts, isConnect: bool)
    requires IsUrlShape(x, isConnect)
    ensures var u3 := if x.host != [] then Server else UrlStart(isConnect);
            var u4 := if x.path != [] then Path else u3;
            var u5 := if x.mark then QueryStart else u4;
            var u6 := if x.query != [] then Query else u5;
            var u7 := if x.hashes != [] then FragmentStart else u6;
            var u8 := if x.fragment != [] then Fragment else u7;
            && UrlReads(u3, Piece(Some(UfPath), x.path), u4)
            && UrlReads(u4, Piece(None, If(x.mark, "?")), u5) && UrlReads(u5, Piece(Some(UfQuery), x.query), u6)
            && UrlReads(u6, Piece(None, x.hashes), u7)
            && UrlReads(u7, Piece(Some(UfFragment), x.fragment), u8)
  {
    hide UrlReads, IsHost, All;
    var u3 := if x.host != [] then Server else UrlStart(isConnect);
    var u4 := if x.path != [] then Path else u3;
    PathReads(u3, x.path);
    QueryReads(u4, x.mark, x.query);
    FragmentReads(if x.query != [] then Query else if x.mark then QueryStart else u4, x.hashes, x.fragment);
  }

  lemma UrlReadsAll(x: UrlParts, isConnect: bool)
    requires IsUrlShape(x, isConnect)
    ensures UrlRun(UrlStart(isConnect), PrintUrl(x)).Some?
    ensures UrlLabels(UrlStart(isConnect), PrintUrl(x)) == LabelsOf(UrlPieces(x))
  {
    hide UrlReads, UrlRun, UrlLabels, IsUrlShape, Join, LabelsOf, PrintAuthority;
    FrontReads(x, isConnect);
    BackReads(x, isConnect);
    var u0 := UrlStart(isConnect);
    var u1, u2 := if x.schema != [] then Schema else u0, if x.schema != [] then ServerStart else u0;
    var u3 := if x.host != [] then Server else u0;
    var u4 := if x.path != [] then Path else u3;
    var u5 := if x.mark then QueryStart else u4;
    var u6 := if x.query != [] then Query else u5;
    var u7 := if x.hashes != [] then FragmentStart else u6;
    var u8 := if x.fragment != [] then Fragment else u7;
    UrlChain(UrlPieces(x), [u0, u1, u2, u3, u4, u5, u6, u7, u8]);
  }

  lemma NoAuthority(x: UrlParts)
    requires x.userinfo == [] && !x.at && x.host == [] && x.port == [] && !x.bracketed
    ensures PrintAuthority(x) == []
  {
    var ps := AuthorityPieces(x);
    NoText(ps);
  }

  lemma {:induction false} NoText(ps: seq<Piece>)
    requires forall i :: 0 <= i < |ps| ==> ps[i].text == []
    ensures Join(ps) == []
    decreases |ps|
  {
    if |ps| > 0 {
      NoText(ps[..|ps| - 1]);
    }
  }

  // The only piece with a label, empty or not.
  lemma PartOfPiece(ps: seq<Piece>, k: nat, f: Field)
    requires k < |ps| && ps[k].mark == Some(f) && Without(ps[..k], f) && Without(ps[k + 1..], f)
    ensures Cut(Join(ps), SpanOf(LabelsOf(ps), f)) == ps[k].text
    ensures Count(LabelsOf(ps), f) == |ps[k].text|
    ensures ps[k].text != [] ==> First(LabelsOf(ps), f) == |Join(ps[..k])|
  {
    if ps[k].text == [] {
      forall i | 0 <= i < |ps| ensures ps[i].mark != Some(f) || ps[i].text == [] {
        if i < k {
          assert ps[i] == ps[..k][i];
        } else if i > k {
          assert ps[i] == ps[k + 1..][i - k - 1];
        }
      }
      CountWithout(ps, f);
    } else {
      SpanOfPiece(ps, k, f);
    }
    hide LabelsOf, Join, Count, First, Without;
  }

  // Only a userinfo, be it empty, brings an @.
  lemma AtOfUserinfo(x: UrlParts)
    requires IsAuthority(x)
    ensures '@' in PrintAuthority(x) <==> x.at
  {
    hide HostRun;
    if x.bracketed {
      AddressReads(x.host, HostRun(HostV6Start, x.host).value);
    }
    var ps := AuthorityPieces(x);
    if x.at {
      JoinHas(ps, 1, '@');
    } else {
      forall i | 0 <= i < 7 ensures '@' !in ps[i].text {
        assert !IsUserInfoChar('@') && !IsHostChar('@') && !IsNum('@');
      }
      JoinHasNot(ps, '@');
    }
  }

  lemma {:induction false} JoinHas(ps: seq<Piece>, k: nat, ch: char)
    requires k < |ps| && ch in ps[k].text
    ensures ch in Join(ps)
    decreases |ps|
  {
    if k < |ps| - 1 {
      JoinHas(ps[..|ps| - 1], k, ch);
    }
  }

  lemma {:induction false} JoinHasNot(ps: seq<Piece>, ch: char)
    requires forall i :: 0 <= i < |ps| ==> ch !in ps[i].text
    ensures ch !in Join(ps)
    decreases |ps|
  {
    if |ps| > 0 {
      JoinHasNot(ps[..|ps| - 1], ch);
    }
  }

  // The place of a field among the pieces.
  function UrlPlace(f: Field): nat
    requires !f.UfPort? && !f.UfUserinfo?
  {
    match f
    case UfSchema => 0
    case UfHost => 2
    case UfPath => 3
    case UfQuery => 5
    case UfFragment => 7
  }

  function HostPlace(f: Field): nat
    requires InHost(f)
  {
    match f
    case UfUserinfo => 0
    case UfHost => 3
    case UfPort => 6
  }

  lemma UrlPart(x: UrlParts, f: Field)
    requires !f.UfPort? && !f.UfUserinfo?
    ensures var ps, k := UrlPieces(x), UrlPlace(f);
            && Cut(Join(ps), SpanOf(LabelsOf(ps), f)) == ps[k].text && Count(LabelsOf(ps), f) == |ps[k].text|
            && (ps[k].text != [] ==> First(LabelsOf(ps), f) == |Join(ps[..k])|)
  {
    hide Join, LabelsOf, Count, First;
    PartOfPiece(UrlPieces(x), UrlPlace(f), f);
  }

  lemma AuthorityPart(x: UrlParts, f: Field)
    requires InHost(f)
    ensures var ps, k := AuthorityPieces(x), HostPlace(f);
            && Cut(Join(ps), SpanOf(LabelsOf(ps), f)) == ps[k].text && Count(LabelsOf(ps), f) == |ps[k].text|
            && (ps[k].text != [] ==> First(LabelsOf(ps), f) == |Join(ps[..k])|)
  {
    hide Join, LabelsOf, Count, First;
    PartOfPiece(AuthorityPieces(x), HostPlace(f), f);
  }

  // Where a part is printed.
  function Printed(x: UrlParts, f: Field): Span {
    if InHost(f) then
      Span(|Join(UrlPieces(x)[..2])| + |Join(AuthorityPieces(x)[..HostPlace(f)])|, |Text(x, f)|)
    else Span(|Join(UrlPieces(x)[..UrlPlace(f)])|, |Text(x, f)|)
  }

  // The authority is found, and re-split as it was put together.
  lemma AuthorityFound(x: UrlParts, isConnect: bool)
    requires IsUrlShape(x, isConnect)
    ensures Authority(PrintUrl(x), isConnect) == PrintAuthority(x)
    ensures x.host != [] ==> HostAccepts(PrintAuthority(x))
    ensures AuthorityLabels(PrintAuthority(x)) == LabelsOf(AuthorityPieces(x))
    ensures x.host == [] ==> PrintAuthority(x) == []
  {
    UrlReadsAll(x, isConnect);
    UrlPart(x, UfHost);
    if x.host != [] {
      AuthorityHost(x);
      AtOfUserinfo(x);
    } else {
      NoAuthority(x);
    }
    hide UrlRun, HostRun, UrlLabels, HostLabels, Join, LabelsOf, Count, First, All, IsHost;
  }

  lemma SliceInside(s: string, i: nat, n: nat, j: nat, m: nat)
    requires i + n <= |s| && j + m <= n
    ensures s[i..i + n][j..j + m] == s[i + j..i + j + m]
  {
    var t, r := s[i..i + n], s[i + j..i + j + m];
    forall k | 0 <= k < m ensures t[j..j + m][k] == r[k] {
      assert t[j + k] == s[i + (j + k)];
    }
  }

  lemma CutInside(s: string, a: Span, x: Span)
    requires a.off + a.len <= |s| && x.off + x.len <= a.len
    ensures Cut(s, Span(a.off + x.off, x.len)) == Cut(Cut(s, a), x)
  {
    SliceInside(s, a.off, a.len, x.off, x.len);
  }

  // A part outside the authority is found where it was printed.
  lemma UrlPartFound(x: UrlParts, isConnect: bool, f: Field)
    requires IsUrlShape(x, isConnect) && !InHost(f)
    ensures Part(PrintUrl(x), isConnect, f) == Text(x, f)
    ensures Text(x, f) != [] ==> Where(PrintUrl(x), isConnect, f) == Printed(x, f)
  {
    hide UrlPieces, UrlRun, UrlLabels, Join, LabelsOf, Count, First, IsUrlShape, Authority, AuthorityLabels;
    UrlReadsAll(x, isConnect);
    UrlPart(x, f);
    TextPlace(x, f);
  }

  // So is a part of it.
  lemma HostPartFound(x: UrlParts, isConnect: bool, f: Field)
    requires IsUrlShape(x, isConnect) && InHost(f)
    ensures Part(PrintUrl(x), isConnect, f) == Text(x, f)
    ensures Text(x, f) != [] ==> Where(PrintUrl(x), isConnect, f) == Printed(x, f)
  {
    hide UrlRun, UrlLabels, Join, LabelsOf, Count, First, IsUrlShape, AuthorityLabels, Authority, UrlPieces;
    hide AuthorityPieces;
    UrlReadsAll(x, isConnect);
    AuthorityFound(x, isConnect);
    UrlPart(x, UfHost);
    AuthorityPart(x, f);
    WhereExact(PrintUrl(x), isConnect, f);
    AuthorityCut(PrintUrl(x), isConnect, f);
    TextPlace(x, f);
  }

  lemma TextPlace(x: UrlParts, f: Field)
    ensures InHost(f) ==> AuthorityPieces(x)[HostPlace(f)].text == Text(x, f)
    ensures InHost(f) ==> UrlPieces(x)[2].text == PrintAuthority(x)
    ensures !InHost(f) ==> UrlPieces(x)[UrlPlace(f)].text == Text(x, f)
  {
    hide Join;
  }

  lemma AuthorityCut(s: string, isConnect: bool, f: Field)
    requires InHost(f)
    ensures Part(s, isConnect, f) ==
            Cut(Authority(s, isConnect), SpanOf(AuthorityLabels(Authority(s, isConnect)), f))
  {
    hide UrlLabels, AuthorityLabels, Authority, Count, First, Holds;
    var ls := UrlLabels(UrlStart(isConnect), s);
    var a := Authority(s, isConnect);
    WhereExact(s, isConnect, f);
    if Count(AuthorityLabels(a), f) > 0 {
      assert Authority(s, isConnect) == Cut(s, SpanOf(ls, UfHost)) by { AuthorityIs(s, isConnect); }
      CutInside(s, SpanOf(ls, UfHost), SpanOf(AuthorityLabels(a), f));
    }
  }

  lemma AuthorityIs(s: string, isConnect: bool)
    ensures Authority(s, isConnect) == Cut(s, SpanOf(UrlLabels(UrlStart(isConnect), s), UfHost))
  {
    hide UrlLabels;
  }

  lemma Texts(x: UrlParts)
    ensures Text(x, UfSchema) == x.schema && Text(x, UfHost) == x.host && Text(x, UfPort) == x.port
    ensures Text(x, UfUserinfo) == x.userinfo && Text(x, UfPath) == x.path && Text(x, UfQuery) == x.query
    ensures Text(x, UfFragment) == x.fragment
    ensures PrintAuthority(x) == [] ==> x.host == []
  {
    if x.host != [] {
      JoinHas(AuthorityPieces(x), 3, x.host[0]);
    }
    hide Join;
  }

  // What is read is found where it was printed.
  lemma PartsFound(x: UrlParts, isConnect: bool)
    requires IsUrlShape(x, isConnect)
    ensures forall f :: Part(PrintUrl(x), isConnect, f) == Text(x, f)
    ensures forall f :: Text(x, f) != [] ==> Where(PrintUrl(x), isConnect, f) == Printed(x, f)
  {
    hide *;
    forall f: Field
      ensures Part(PrintUrl(x), isConnect, f) == Text(x, f)
      ensures Text(x, f) != [] ==> Where(PrintUrl(x), isConnect, f) == Printed(x, f)
    {
      if InHost(f) {
        HostPartFound(x, isConnect, f);
      } else {
        UrlPartFound(x, isConnect, f);
      }
    }
  }

  // Print, then parse: the URL is accepted, every part is found where it was printed, and nothing else.
  lemma UrlRoundTrip(x: UrlParts, isConnect: bool)
    requires IsUrlParts(x, isConnect)
    ensures Accepts(PrintUrl(x), isConnect)
    ensures forall f :: Part(PrintUrl(x), isConnect, f) == Text(x, f)
    ensures forall f :: Text(x, f) != [] ==> Where(PrintUrl(x), isConnect, f) == Printed(x, f)
  {
    hide UrlRun, HostRun, UrlLabels, HostLabels, Join, LabelsOf, Where, Part, Authority, HostAccepts, All, IsHost;
    hide Printed, PrintUrl, PrintAuthority, IsAuthority, IsTail, UrlPieces, AuthorityPieces, Text, AuthorityLabels;
    hide IsPort;
    UrlReadsAll(x, isConnect);
    AuthorityFound(x, isConnect);
    Texts(x);
    PartsFound(x, isConnect);
  }
}
