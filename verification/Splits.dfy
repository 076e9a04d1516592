// Every URL that is accepted is one that can be printed: it splits into parts, and printing these gives it back.
module Splits {
  import opened Chars
  import opened Types
  import opened StartLine
  import opened Alphabets
  import opened Urls
  import opened Syntax
  import opened Parts

  lemma {:induction false} LeadAll(s: string, p: char -> bool)
    ensures All(s[..Lead(s, p)], p) && (Lead(s, p) < |s| ==> !p(s[Lead(s, p)]))
    decreases |s|
  {
    if |s| > 0 && p(s[0]) {
      LeadAll(s[1..], p);
      var k := Lead(s[1..], p);
      assert s[..k + 1][1..] == s[1..][..k];
      AllCons(s[..k + 1], p);
    }
  }

  // A text is its leading run and the rest.
  lemma Parted(s: string, p: char -> bool) returns (a: string, b: string)
    ensures s == a + b && All(a, p) && (b != [] ==> !p(b[0])) && a == s[..Lead(s, p)] && b == s[Lead(s, p)..]
  {
    LeadAll(s, p);
    a, b := s[..Lead(s, p)], s[Lead(s, p)..];
  }

  lemma AllRest(s: string, i: nat, p: char -> bool)
    requires i <= |s| && All(s, p)
    ensures All(s[i..], p) && All(s[..i], p)
  {
  }

  // The rest of a URL from its path on.
  datatype Tail = Tail(path: string, mark: bool, query: string, hashes: string, fragment: string)

  function PrintTail(t: Tail): string { t.path + (If(t.mark, "?") + (t.query + (t.hashes + t.fragment))) }

  predicate IsTailText(t: Tail) {
    && All(t.path, IsUrlChar) && All(t.query, IsQueryChar) && All(t.fragment, IsFragmentChar) && All(t.hashes, IsHash)
    && (t.query != [] ==> t.mark) && (t.fragment != [] ==> t.hashes != [] && t.fragment[0] != '#')
  }

  lemma Visible(s: string)
    requires All(s, IsVisible)
    ensures All(s, IsFragmentChar)
  {
    forall k | 0 <= k < |s| ensures IsFragmentChar(s[k]) {
      assert IsVisible(s[k]);
    }
  }

  lemma HashesSplit(s: string) returns (hashes: string, fragment: string)
    requires All(s, IsFragmentChar) && (s != [] ==> s[0] == '#')
    ensures s == hashes + fragment && All(hashes, IsHash) && All(fragment, IsFragmentChar)
    ensures fragment != [] ==> hashes != [] && fragment[0] != '#'
    ensures hashes == [] <==> s == []
  {
    hide IsFragmentChar;
    hashes, fragment := Parted(s, IsHash);
    AllRest(s, |hashes|, IsFragmentChar);
  }

  lemma QuerySplit(s: string) returns (query: string, hashes: string, fragment: string)
    requires All(s, IsFragmentChar)
    ensures s == query + (hashes + fragment) && All(query, IsQueryChar)
    ensures All(hashes, IsHash) && All(fragment, IsFragmentChar)
    ensures fragment != [] ==> hashes != [] && fragment[0] != '#'
    ensures s == [] || s[0] == '#' ==> query == []
  {
    var rest;
    query, rest := Parted(s, IsQueryChar);
    AllRest(s, |query|, IsFragmentChar);
    if rest != [] {
      assert IsFragmentChar(rest[0]) && !IsQueryChar(rest[0]);
    }
    if s != [] && s[0] == '#' {
      assert !IsQueryChar('#');
    }
    hashes, fragment := HashesSplit(rest);
  }

  lemma TailSplit(s: string) returns (t: Tail)
    requires All(s, IsVisible)
    ensures PrintTail(t) == s && IsTailText(t)
    ensures s != [] && s[0] != '?' && s[0] != '#' ==> t.path != [] && t.path[0] == s[0]
    ensures s != [] && s[0] == '?' ==> t.path == [] && t.mark
    ensures s == [] ==> t.path == [] && !t.mark && t.hashes == []
    ensures t.hashes != [] && s[0] != '#' ==> t.path != [] || t.mark
  {
    Visible(s);
    var path, rest := Parted(s, IsUrlChar);
    AllRest(s, |path|, IsFragmentChar);
    if rest != [] {
      assert IsFragmentChar(rest[0]) && !IsUrlChar(rest[0]);
    }
    if s != [] {
      assert IsVisible(s[0]) && !IsUrlChar('?');
      assert path == [] || path[0] == s[0];
    }
    hide IsFragmentChar, IsQueryChar, IsUrlChar, IsVisible;
    var mark := rest != [] && rest[0] == '?';
    AllRest(rest, if mark then 1 else 0, IsFragmentChar);
    var after := rest[if mark then 1 else 0..];
    assert rest == If(mark, "?") + after;
    var query, hashes, fragment := QuerySplit(after);
    t := Tail(path, mark, query, hashes, fragment);
  }

  // Inside an authority the URL machine stays in three states.
  lemma {:induction false} ServerState(u: UrlState, s: string, i: nat)
    requires i <= |s| && IsServerState(u) && UrlRun(u, s).Some? && All(s, Syntax.IsServerChar)
    ensures UrlRun(u, s[..i]).Some? && IsServerState(UrlRun(u, s[..i]).value)
    ensures i > 0 ==> UrlField(UrlRun(u, s[..i]).value) == Some(UfHost)
    decreases i
  {
    hide ParseUrlChar, Syntax.IsServerChar;
    assert s[..|s|] == s && s[..0] == [];
    UrlRankGrows(u, s, i, |s|);
    if i > 0 {
      ServerState(u, s, i - 1);
      UrlRunNext(u, s, i - 1);
      ServerNext(UrlRun(u, s[..i - 1]).value, s[i - 1]);
    }
  }

  lemma ServerNext(u: UrlState, c: char)
    requires IsServerState(u) && Syntax.IsServerChar(c) && ParseUrlChar(u, c).Some?
    ensures ParseUrlChar(u, c).value.Server? || ParseUrlChar(u, c).value.ServerWithAt?
  {
    UrlClasses(c);
    hide Syntax.IsServerChar;
  }

  lemma ServerText(u: UrlState, s: string) returns (v: UrlState)
    requires IsServerState(u) && UrlRun(u, s).Some? && All(s, Syntax.IsServerChar)
    ensures UrlReads(u, Piece(Some(UfHost), s), v) && IsServerState(v)
  {
    hide ParseUrlChar, Syntax.IsServerChar, UrlRun;
    assert s[..|s|] == s;
    ServerState(u, s, |s|);
    v := UrlRun(u, s).value;
    forall i | 0 <= i < |s|
      ensures UrlLabels(u, s)[i] == Some(UfHost)
    {
      ServerState(u, s, i + 1);
      UrlLabel(u, s, i);
    }
    assert UrlLabels(u, s) == Alike(Some(UfHost), |s|);
  }

  // The pieces of a URL with whatever authority.
  function ShapePieces(schema: string, server: string, t: Tail): seq<Piece> {
    [Piece(Some(UfSchema), schema), Piece(None, If(schema != [], "://")),
     Piece(Some(UfHost), server), Piece(Some(UfPath), t.path),
     Piece(None, If(t.mark, "?")), Piece(Some(UfQuery), t.query),
     Piece(None, t.hashes), Piece(Some(UfFragment), t.fragment)]
  }

  predicate IsShape(schema: string, server: string, t: Tail, isConnect: bool) {
    && All(schema, IsAlpha) && IsTailText(t) && (t.hashes != [] ==> t.path != [] || t.mark)
    && (if isConnect || schema != [] then
          && (isConnect ==> schema == []) && All(server, Syntax.IsServerChar)
          && UrlRun(ServerStart, server).Some? && (t.path != [] ==> t.path[0] == '/')
        else server == [] && (if t.path == [] then !t.mark else t.path[0] == '/' || t.path[0] == '*'))
  }

  lemma ShapeReads(schema: string, server: string, t: Tail, isConnect: bool)
    requires IsShape(schema, server, t, isConnect)
    ensures var s := Join(ShapePieces(schema, server, t));
            UrlLabels(UrlStart(isConnect), s) == LabelsOf(ShapePieces(schema, server, t))
  {
    hide UrlReads, UrlRun, UrlLabels, Join, LabelsOf, All, Syntax.IsServerChar;
    var u0 := UrlStart(isConnect);
    var u1 := if schema != [] then Schema else u0;
    var u2 := if schema != [] then ServerStart else u0;
    SchemaReads(schema);
    UrlNone(u0, Some(UfSchema));
    UrlNone(u0, None);
    UrlNone(u2, Some(UfHost));
    var u3 := u2;
    if isConnect || schema != [] {
      u3 := ServerText(u2, server);
    }
    var u4 := if t.path != [] then Path else u3;
    PathReads(u3, t.path);
    QueryReads(u4, t.mark, t.query);
    var u5 := if t.mark then QueryStart else u4;
    var u6 := if t.query != [] then Query else u5;
    FragmentReads(u6, t.hashes, t.fragment);
    var u7 := if t.hashes != [] then FragmentStart else u6;
    var u8 := if t.fragment != [] then Fragment else u7;
    UrlChain(ShapePieces(schema, server, t), [u0, u1, u2, u3, u4, u5, u6, u7, u8]);
  }

  // The authority is the server text.
  lemma ShapeAuthority(schema: string, server: string, t: Tail, isConnect: bool)
    requires IsShape(schema, server, t, isConnect)
    ensures var s := Join(ShapePieces(schema, server, t));
            Authority(s, isConnect) == server && (schema != [] ==> Part(s, isConnect, UfSchema) != [])
  {
    hide UrlLabels, Join, LabelsOf, Count, First, IsShape;
    ShapeReads(schema, server, t, isConnect);
    PartOfPiece(ShapePieces(schema, server, t), 2, UfHost);
    PartOfPiece(ShapePieces(schema, server, t), 0, UfSchema);
  }

  lemma JoinFrom(ps: seq<Piece>, k: nat)
    requires k <= |ps|
    ensures k == |ps| ==> Join(ps[k..]) == []
    ensures k < |ps| ==> Join(ps[k..]) == ps[k].text + Join(ps[k + 1..])
  {
    if k < |ps| {
      assert ps[k..] == [ps[k]] + ps[k + 1..];
      JoinConcat([ps[k]], ps[k + 1..]);
      OnePiece(ps[k]);
    } else {
      assert ps[k..] == [];
    }
  }

  lemma JoinSeven(ps: seq<Piece>)
    requires |ps| >= 7
    ensures Join(ps) ==
            ps[0].text + (ps[1].text + (ps[2].text + (ps[3].text + (ps[4].text + (ps[5].text +
            (ps[6].text + Join(ps[7..])))))))
  {
    hide Join;
    assert ps[0..] == ps;
    JoinFrom(ps, 0);
    JoinFrom(ps, 1);
    JoinFrom(ps, 2);
    JoinFrom(ps, 3);
    JoinFrom(ps, 4);
    JoinFrom(ps, 5);
    JoinFrom(ps, 6);
  }

  lemma Nothing(s: string)
    ensures s + [] == s
  {
  }

  // A host without its brackets, and a port.
  lemma PortSplit(s: string) returns (port: string)
    requires PortOrEnd(s)
    ensures s == If(port != [], ":") + port && All(port, IsNum)
  {
    port := if s == [] then [] else s[1..];
    forall k | 0 <= k < |port| ensures IsNum(port[k]) {
      assert IsDigit(s[1..][k]);
      DigitExact(port[k]);
    }
  }

  datatype HostText = HostText(host: string, bracketed: bool, port: string)

  function PrintHost(h: HostText): string {
    If(h.bracketed, "[") + (h.host + (If(h.bracketed, "]") + (If(h.port != [], ":") + h.port)))
  }

  lemma NameSplit(s: string) returns (h: HostText)
    requires HostPort(s) && s[0] != '['
    ensures s == PrintHost(h) && !h.bracketed && h.host != [] && All(h.host, IsHostChar) && All(h.port, IsNum)
  {
    hide Syntax.IsName, IsHostChar;
    var host, rest := Parted(s, Syntax.IsName);
    assert host != [];
    forall k | 0 <= k < |host| ensures IsHostChar(host[k]) {
      HostClasses(host[k]);
    }
    var port := PortSplit(rest);
    h := HostText(host, false, port);
  }

  // A bracket is closed in two states only.
  lemma Closes(h: HostState)
    requires ParseHostChar(h, ']').Some?
    ensures h.HostV6? || h.HostV6Zone?
  {
  }

  lemma BracketText(s: string) returns (host: string, rest: string)
    requires |s| > 0 && IsAddress(s[0]) && Bracketed(s)
    ensures s == host + ([']'] + rest) && host != [] && PortOrEnd(rest)
  {
    hide IsAddress, IsZone, PortOrEnd;
    var address, t := Parted(s, IsAddress);
    assert address != [];
    if Closed(t) {
      host, rest := address, t[1..];
      assert t == [']'] + rest;
    } else {
      var zone, u := Parted(t[1..], IsZone);
      host, rest := address + (['%'] + zone), u[1..];
      assert u == [']'] + rest && t == ['%'] + (zone + u);
    }
  }

  lemma BracketRuns(host: string, rest: string)
    requires HostRun(HostStart, ['['] + (host + ([']'] + rest))).Some?
    ensures var v := HostRun(HostV6Start, host); v == Some(HostV6) || v == Some(HostV6Zone)
  {
    var s := host + ([']'] + rest);
    assert ([']'] + rest)[0] == ']' && (['['] + s)[1..] == s;
    assert HostRun(HostStart, ['['] + s) == HostRun(HostV6Start, s);
    HostRunConcat(HostV6Start, host, [']'] + rest);
    Closes(HostRun(HostV6Start, host).value);
  }

  lemma BracketSplit(s: string) returns (h: HostText)
    requires HostPort(s) && s[0] == '[' && HostRun(HostStart, s).Some?
    ensures s == PrintHost(h) && h.bracketed && h.host != [] && All(h.port, IsNum)
    ensures var v := HostRun(HostV6Start, h.host); v == Some(HostV6) || v == Some(HostV6Zone)
  {
    hide IsAddress, Bracketed, HostRun, PortOrEnd, All;
    var host, rest := BracketText(s[1..]);
    var port := PortSplit(rest);
    h := HostText(host, true, port);
    assert s == ['['] + s[1..];
    BracketRuns(host, rest);
  }

  // An authority that is accepted is one that can be printed.
  lemma AuthoritySplit(a: string) returns (userinfo: string, at: bool, h: HostText)
    requires HostAccepts(a)
    ensures a == userinfo + (If(at, "@") + PrintHost(h)) && All(userinfo, IsUserInfoChar) && (userinfo != [] ==> at)
    ensures h.host != [] && All(h.port, IsNum)
    ensures if h.bracketed then
              HostRun(HostV6Start, h.host) == Some(HostV6) || HostRun(HostV6Start, h.host) == Some(HostV6Zone)
            else All(h.host, IsHostChar)
  {
    hide HostRun, IsUserInfo, PrintHost, PortOrEnd, NameEnds, Bracketed, Syntax.IsName, IsAddress;
    HostSyntax(AuthorityStart(a), a);
    userinfo, at := [], '@' in a;
    var t := a;
    if at {
      userinfo, t := UserSplit(a);
    }
    if t[0] == '[' {
      h := BracketSplit(t);
    } else {
      h := NameSplit(t);
    }
    assert a == userinfo + (If(at, "@") + t);
  }

  lemma UserSplit(a: string) returns (userinfo: string, t: string)
    requires UserHostPort(a) && HostRun(UserinfoStart, a).Some?
    ensures a == userinfo + (['@'] + t) && All(userinfo, IsUserInfoChar) && HostPort(t) && HostRun(HostStart, t).Some?
  {
    hide IsUserInfo, IsUserInfoChar, HostPort, HostRun;
    var rest;
    userinfo, rest := Parted(a, IsUserInfo);
    t := rest[1..];
    assert rest == ['@'] + t;
    forall k | 0 <= k < |userinfo| ensures IsUserInfoChar(userinfo[k]) {
      HostClasses(userinfo[k]);
    }
    UserRuns(userinfo, t);
  }

  lemma UserRuns(userinfo: string, t: string)
    requires HostRun(UserinfoStart, userinfo + (['@'] + t)).Some? && All(userinfo, IsUserInfoChar)
    ensures HostRun(HostStart, t).Some?
  {
    HostRunConcat(UserinfoStart, userinfo, ['@'] + t);
    UserinfoReads(userinfo, true);
    assert (['@'] + t)[1..] == t;
    hide All;
  }

  function Assembled(schema: string, userinfo: string, at: bool, h: HostText, t: Tail): UrlParts {
    UrlParts(schema, userinfo, at, h.host, h.bracketed, h.port, t.path, t.mark, t.query, t.hashes, t.fragment)
  }

  // The parts are printed as the pieces.
  lemma AssembledPieces(schema: string, userinfo: string, at: bool, h: HostText, t: Tail)
    ensures var x := Assembled(schema, userinfo, at, h, t);
            && PrintAuthority(x) == userinfo + (If(at, "@") + PrintHost(h))
            && UrlPieces(x) == ShapePieces(schema, PrintAuthority(x), t)
  {
    hide Join;
    var ps := AuthorityPieces(Assembled(schema, userinfo, at, h, t));
    JoinSeven(ps);
    JoinFrom(ps, 7);
    Nothing(h.port);
  }

  lemma ShapeText(schema: string, server: string, t: Tail)
    ensures Join(ShapePieces(schema, server, t)) == schema + (If(schema != [], "://") + (server + PrintTail(t)))
  {
    hide Join;
    var ps := ShapePieces(schema, server, t);
    JoinSeven(ps);
    JoinFrom(ps, 7);
    JoinFrom(ps, 8);
    Nothing(t.fragment);
  }

  // The text of a URL that is read: up to the authority and from there on.
  lemma FrontSplit(s: string, isConnect: bool) returns (schema: string, server: string, t: Tail)
    requires UrlRun(UrlStart(isConnect), s).Some? && (isConnect || !Incomplete(s))
    ensures s == schema + (If(schema != [], "://") + (server + PrintTail(t)))
    ensures IsShape(schema, server, t, isConnect)
  {
    hide UrlRun, IsLetter, IsVisible, Syntax.IsServerChar, IsTailText, PrintTail, SingleAts;
    UrlSyntax(UrlStart(isConnect), s);
    if isConnect {
      schema := [];
      server, t := ServerSplit(s);
    } else if s == [] || s[0] == '/' || s[0] == '*' {
      AllOfNothing();
      schema, server := [], [];
      t := TailSplit(s);
    } else {
      var rest;
      schema, rest := SchemaSplit(s);
      server, t := ServerSplit(rest);
    }
  }

  lemma SchemaSplit(s: string) returns (schema: string, rest: string)
    requires |s| > 0 && IsLetter(s[0]) && HasSchema(s) && !Incomplete(s)
    ensures s == schema + ("://" + rest) && schema != [] && All(schema, IsAlpha) && IsServer(rest, false)
  {
    hide IsLetter, IsServer;
    var u;
    schema, u := Parted(s, IsLetter);
    rest := u[3..];
    assert u == "://" + rest;
    forall k | 0 <= k < |schema| ensures IsAlpha(schema[k]) {
      AlphaExact(schema[k]);
    }
  }

  lemma ServerSplit(s: string) returns (server: string, t: Tail)
    requires IsServer(s, false)
    ensures s == server + PrintTail(t) && All(server, Syntax.IsServerChar) && UrlRun(ServerStart, server).Some?
    ensures IsTailText(t) && (t.hashes != [] ==> t.path != [] || t.mark) && (t.path != [] ==> t.path[0] == '/')
  {
    hide Syntax.IsServerChar, IsVisible, All, SingleAts, IsTailText, PrintTail, UrlRun;
    var rest;
    server, rest := Parted(s, Syntax.IsServerChar);
    AllOfNothing();
    t := TailSplit(rest);
    ServerOnly(server);
    UrlSyntax(ServerStart, server);
  }

  lemma AllOfNothing()
    ensures All([], IsVisible)
  {
  }

  lemma ServerOnly(s: string)
    requires All(s, Syntax.IsServerChar) && SingleAts(s, false)
    ensures IsServer(s, false)
  {
    LeadWhole(s, Syntax.IsServerChar);
    assert s[..|s|] == s;
    hide SingleAts, All;
  }

  lemma {:induction false} LeadWhole(s: string, p: char -> bool)
    requires All(s, p)
    ensures Lead(s, p) == |s|
    decreases |s|
  {
    if |s| > 0 {
      AllCons(s, p);
      LeadWhole(s[1..], p);
    }
  }

  // A URL that stops before its authority is refused.
  lemma IncompleteRefused(s: string)
    requires UrlRun(SpacesBeforeUrl, s).Some? && Incomplete(s)
    ensures Part(s, false, UfSchema) != [] && Authority(s, false) == []
  {
    hide UrlRun, UrlLabels, Together, Count, First, ParseUrlChar;
    var ls := UrlLabels(SpacesBeforeUrl, s);
    assert s[..|s|] == s;
    EndsShort(SpacesBeforeUrl, s);
    UrlTogether(SpacesBeforeUrl, s, UfHost);
    SpanExact(ls, UfHost);
    if Count(ls, UfHost) > 0 {
      var i := First(ls, UfHost);
      assert ls[i] == Some(UfHost);
      UrlLabel(SpacesBeforeUrl, s, i);
      UrlRankGrows(SpacesBeforeUrl, s, i + 1, |s|);
    }
    FirstIsSchema(s);
    UrlTogether(SpacesBeforeUrl, s, UfSchema);
    SpanExact(ls, UfSchema);
  }

  lemma FirstIsSchema(s: string)
    requires |s| > 0 && IsLetter(s[0])
    ensures UrlLabels(SpacesBeforeUrl, s)[0] == Some(UfSchema)
  {
    UrlClasses(s[0]);
    hide IsLetter;
    UrlLabel(SpacesBeforeUrl, s, 0);
    UrlRunNext(SpacesBeforeUrl, s, 0);
    assert s[..0] == [];
  }

  lemma NoHostPart(s: string, isConnect: bool)
    requires Authority(s, isConnect) == []
    ensures Part(s, isConnect, UfHost) == []
  {
    hide UrlLabels;
  }

  // A URL that is accepted has an authority if it must have one.
  lemma AuthorityThere(schema: string, server: string, t: Tail, isConnect: bool)
    requires IsShape(schema, server, t, isConnect) && Accepts(Join(ShapePieces(schema, server, t)), isConnect)
    ensures isConnect || schema != [] ==> server != [] && HostAccepts(server)
  {
    hide UrlRun, HostAccepts, Part, Authority, Join, IsShape, UrlLabels;
    ShapeAuthority(schema, server, t, isConnect);
    if isConnect && server == [] {
      NoHostPart(Join(ShapePieces(schema, server, t)), isConnect);
    }
  }

  // The parts of what is accepted.
  lemma AcceptedShape(s: string, isConnect: bool) returns (x: UrlParts)
    requires Accepts(s, isConnect)
    ensures IsUrlShape(x, isConnect) && PrintUrl(x) == s
  {
    hide UrlRun, HostAccepts, Part, Authority, Join, IsShape, PrintTail, PrintHost, Incomplete, All, UrlLabels, HostRun;
    if !isConnect && Incomplete(s) {
      IncompleteRefused(s);
    }
    var schema, server, t := FrontSplit(s, isConnect);
    ShapeText(schema, server, t);
    AuthorityThere(schema, server, t, isConnect);
    x := Assemble(schema, server, t, isConnect);
  }

  lemma Assemble(schema: string, server: string, t: Tail, isConnect: bool) returns (x: UrlParts)
    requires IsShape(schema, server, t, isConnect)
    requires isConnect || schema != [] ==> server != [] && HostAccepts(server)
    ensures IsUrlShape(x, isConnect) && PrintUrl(x) == Join(ShapePieces(schema, server, t))
  {
    hide UrlRun, Join, PrintHost, HostRun, UrlPieces, ShapePieces;
    if isConnect || schema != [] {
      var userinfo, at, h := AuthoritySplit(server);
      x := Assembled(schema, userinfo, at, h, t);
      AssembledPieces(schema, userinfo, at, h, t);
    } else {
      x := UrlParts([], [], false, [], false, [], t.path, t.mark, t.query, t.hashes, t.fragment);
      AssembledPieces([], [], false, HostText([], false, []), t);
      NoAuthority(x);
    }
  }

  // A URL is accepted exactly if it is the print of parts; and where each part is UrlRoundTrip says.
  lemma AcceptedExactly(s: string, isConnect: bool)
    ensures Accepts(s, isConnect) <==> exists x :: IsUrlParts(x, isConnect) && PrintUrl(x) == s
  {
    hide IsUrlShape, PrintUrl, Part, Authority, HostAccepts, UrlRun, IsPort, Text, Accepts;
    if Accepts(s, isConnect) {
      var x := AcceptedShape(s, isConnect);
      AcceptedParts(x, isConnect);
    }
    if x :| IsUrlParts(x, isConnect) && PrintUrl(x) == s {
      UrlRoundTrip(x, isConnect);
    }
  }

  lemma AcceptedParts(x: UrlParts, isConnect: bool)
    requires IsUrlShape(x, isConnect) && Accepts(PrintUrl(x), isConnect)
    ensures IsUrlParts(x, isConnect)
  {
    hide IsUrlShape, PrintUrl, Part, Authority, HostAccepts, UrlRun, IsPort, Text;
    PartsFound(x, isConnect);
    Texts(x);
  }
}
