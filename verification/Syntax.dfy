// Which URLs and authorities the two machines read, written as a syntax.
module Syntax {
  import opened Chars
  import opened Types
  import opened StartLine
  import opened Alphabets
  import opened Urls

  predicate All(s: string, p: char -> bool) { forall k :: 0 <= k < |s| ==> p(s[k]) }

  // How many bytes s begins with that satisfy p.
  function Lead(s: string, p: char -> bool): (k: nat)
    ensures k <= |s|
  {
    if |s| > 0 && p(s[0]) then 1 + Lead(s[1..], p) else 0
  }

  predicate IsVisible(c: char) { '!' <= c <= '~' }

  // A byte of the authority, as far as the first machine looks at it.
  predicate IsServerChar(c: char) {
    IsLetter(c) || c in DIGITS || c in URL_MARKS || c in "%;:&=+$," || c in "[]@"
  }

  // No two at-signs one after the other; at says that one is before s.
  predicate SingleAts(s: string, at: bool) {
    && (at && |s| > 0 ==> s[0] != '@')
    && forall k :: 0 < k < |s| ==> !(s[k - 1] == '@' && s[k] == '@')
  }

  // The authority, and then visible characters from a slash or a question mark on.
  predicate IsServer(s: string, at: bool) {
    var k := Lead(s, IsServerChar);
    SingleAts(s[..k], at) && (k < |s| ==> (s[k] == '/' || s[k] == '?') && All(s[k..], IsVisible))
  }

  // The marks after the schema, or the beginning of them.
  predicate HasMarks(s: string, marks: string) {
    s <= marks || (marks <= s && IsServer(s[|marks|..], false))
  }

  predicate HasSchema(s: string) { HasMarks(s[Lead(s, IsLetter)..], "://") }

  // What is read from state u: from the first on, a path, or a schema, the marks, and what follows them.
  predicate Reads(u: UrlState, s: string) {
    match u
    case SpacesBeforeUrl =>
      |s| > 0 ==> if s[0] == '/' || s[0] == '*' then All(s, IsVisible) else IsLetter(s[0]) && HasSchema(s)
    case Schema => HasSchema(s)
    case SchemaSlash => HasMarks(s, "//")
    case SchemaSlashSlash => HasMarks(s, "/")
    case ServerStart => IsServer(s, false)
    case Server => IsServer(s, false)
    case ServerWithAt => IsServer(s, true)
    case _ => All(s, IsVisible)
  }

  lemma AllCons(s: string, p: char -> bool)
    requires |s| > 0
    ensures All(s, p) <==> p(s[0]) && All(s[1..], p)
  {
    assert forall k :: 0 < k < |s| ==> s[k] == s[1..][k - 1];
  }

  lemma SingleAtsCons(s: string, at: bool)
    requires |s| > 0
    ensures SingleAts(s, at) <==> !(at && s[0] == '@') && SingleAts(s[1..], s[0] == '@')
  {
    assert forall k :: 0 < k < |s| ==> s[k] == s[1..][k - 1];
    if !(at && s[0] == '@') && SingleAts(s[1..], s[0] == '@') {
      forall k | 0 < k < |s|
        ensures !(s[k - 1] == '@' && s[k] == '@')
      {
        if k > 1 {
          assert !(s[1..][k - 2] == '@' && s[1..][k - 1] == '@');
        }
      }
    }
    if SingleAts(s, at) {
      forall k | 0 < k < |s[1..]|
        ensures !(s[1..][k - 1] == '@' && s[1..][k] == '@')
      {
        assert !(s[k] == '@' && s[k + 1] == '@');
      }
    }
  }

  lemma ServerCons(s: string, at: bool)
    requires |s| > 0
    ensures IsServer(s, at) <==>
            if IsServerChar(s[0]) then !(at && s[0] == '@') && IsServer(s[1..], s[0] == '@')
            else (s[0] == '/' || s[0] == '?') && All(s[1..], IsVisible)
  {
    hide SingleAts, IsServerChar, All;
    var k := Lead(s, IsServerChar);
    if IsServerChar(s[0]) {
      assert s[..k][1..] == s[1..][..k - 1] && s[k..] == s[1..][k - 1..];
      SingleAtsCons(s[..k], at);
    } else {
      NoAts(at);
      assert s[..0] == [] && s[0..] == s;
      AllCons(s, IsVisible);
      assert IsVisible('/') && IsVisible('?');
    }
  }

  lemma NoAts(at: bool)
    ensures SingleAts([], at)
  {
  }

  lemma MarksCons(s: string, marks: string)
    requires |s| > 0 && |marks| > 0
    ensures HasMarks(s, marks) <==> s[0] == marks[0] && HasMarks(s[1..], marks[1..])
  {
    hide IsServer;
    if |marks| <= |s| {
      assert s[|marks|..] == s[1..][|marks| - 1..];
    }
    assert s <= marks <==> s[0] == marks[0] && s[1..] <= marks[1..];
    assert marks <= s <==> s[0] == marks[0] && marks[1..] <= s[1..];
  }

  lemma NoMarks(s: string)
    ensures HasMarks(s, []) <==> IsServer(s, false)
  {
    hide All, SingleAts, IsServerChar;
    assert s[0..] == s;
    if s == [] {
      assert s[..0] == [];
      NoAts(false);
    }
  }

  lemma SchemaCons(s: string)
    requires |s| > 0
    ensures HasSchema(s) <==> if IsLetter(s[0]) then HasSchema(s[1..]) else s[0] == ':' && HasMarks(s[1..], "//")
  {
    hide HasMarks, IsLetter;
    var k := Lead(s, IsLetter);
    if IsLetter(s[0]) {
      assert s[k..] == s[1..][k - 1..];
    } else {
      assert s[0..] == s && "://"[1..] == "//";
      MarksCons(s, "://");
    }
  }

  // The classes of the bytes that the machine looks at.
  lemma UrlClasses(c: char)
    ensures IsAlpha(c) <==> IsLetter(c)
    ensures IsServerChar(c) <==> IsUserInfoChar(c) || c == '[' || c == ']' || c == '@'
    ensures IsVisible(c) <==> IsUrlChar(c) || c == '?' || c == '#'
    ensures IsServerChar(c) ==> IsVisible(c) && c != '/' && c != '?'
    ensures IsLetter(c) ==> c != '/' && c != '*' && c != ':' && IsVisible(c)
  {
    AlphaExact(c);
    UserInfoExact(c);
    hide IsLetter;
  }

  lemma ReadsNext(u: UrlState, s: string)
    requires |s| > 0
    ensures Reads(u, s) <==> ParseUrlChar(u, s[0]).Some? && Reads(ParseUrlChar(u, s[0]).value, s[1..])
  {
    hide IsServer, HasMarks, HasSchema, All, IsServerChar, IsLetter, IsVisible, IsAlpha, IsUserInfoChar, IsUrlChar;
    UrlClasses(s[0]);
    AllCons(s, IsVisible);
    SchemaCons(s);
    ServerCons(s, false);
    ServerCons(s, true);
    MarksCons(s, "//");
    MarksCons(s, "/");
    assert "//"[1..] == "/" && "/"[1..] == "";
    NoMarks(s[1..]);
    Invisible(s[0]);
  }

  lemma Invisible(c: char)
    ensures c == ' ' || c == CR || c == LF || c == '\t' || c as int == 12 ==> !IsVisible(c)
    ensures IsVisible('/') && IsVisible('*') && IsVisible('?') && IsVisible('#')
  {
  }

  lemma ReadsNothing(u: UrlState)
    ensures Reads(u, [])
  {
    hide IsLetter, IsServerChar;
    var s: string := [];
    assert s[0..] == s && s[..0] == s && s <= "://" && s <= "//" && s <= "/";
  }

  // The URLs that are read are those of the syntax.
  lemma {:induction false} UrlSyntax(u: UrlState, s: string)
    ensures UrlRun(u, s).Some? <==> Reads(u, s)
    decreases |s|
  {
    hide Reads, ParseUrlChar;
    if |s| == 0 {
      assert s == [];
      ReadsNothing(u);
    } else {
      ReadsNext(u, s);
      if ParseUrlChar(u, s[0]).Some? {
        UrlSyntax(ParseUrlChar(u, s[0]).value, s[1..]);
      }
    }
  }

  predicate IsHexDigit(c: char) { c in LOWER_HEX || c in UPPER_HEX }

  // The characters of a name or an IPv4 address, of an IPv6 address, and of its zone.
  predicate IsName(c: char) { IsLetter(c) || c in DIGITS || c in ".-" }
  predicate IsAddress(c: char) { IsHexDigit(c) || c in ":." }
  predicate IsZone(c: char) { IsLetter(c) || c in DIGITS || c in "%.-_~" }
  predicate IsUserInfo(c: char) { IsLetter(c) || c in DIGITS || c in URL_MARKS || c in "%;:&=+$," }
  predicate IsDigit(c: char) { c in DIGITS }

  // Nothing, or a port with at least one digit.
  predicate PortOrEnd(s: string) { s == [] || (s[0] == ':' && |s| > 1 && All(s[1..], IsDigit)) }

  predicate Closed(s: string) { |s| > 0 && s[0] == ']' && PortOrEnd(s[1..]) }

  predicate ZoneClosed(s: string) { Closed(s[Lead(s, IsZone)..]) }

  // The rest of a host in brackets: an address, and maybe a zone that is not empty.
  predicate Bracketed(s: string) {
    var t := s[Lead(s, IsAddress)..];
    Closed(t) || (|t| > 1 && t[0] == '%' && IsZone(t[1]) && ZoneClosed(t[1..]))
  }

  predicate NameEnds(s: string) { PortOrEnd(s[Lead(s, IsName)..]) }

  predicate HostPort(s: string) {
    |s| > 0 &&
    if s[0] == '[' then |s| > 1 && IsAddress(s[1]) && Bracketed(s[1..]) else IsName(s[0]) && NameEnds(s)
  }

  predicate UserHostPort(s: string) {
    var t := s[Lead(s, IsUserInfo)..];
    |t| > 0 && t[0] == '@' && HostPort(t[1..])
  }

  // What is read from state h to the end of an authority.
  predicate HostReads(h: HostState, s: string) {
    match h
    case UserinfoStart => UserHostPort(s)
    case Userinfo => UserHostPort(s)
    case HostStart => HostPort(s)
    case Host => NameEnds(s)
    case HostV6Start => |s| > 0 && IsAddress(s[0]) && Bracketed(s)
    case HostV6 => Bracketed(s)
    case HostV6ZoneStart => |s| > 0 && IsZone(s[0]) && ZoneClosed(s)
    case HostV6Zone => ZoneClosed(s)
    case HostV6End => PortOrEnd(s)
    case PortStart => |s| > 0 && All(s, IsDigit)
    case Port => All(s, IsDigit)
  }

  // The first byte of a run.
  lemma LeadCons(s: string, p: char -> bool)
    requires |s| > 0
    ensures p(s[0]) ==> Lead(s, p) == 1 + Lead(s[1..], p) && s[Lead(s, p)..] == s[1..][Lead(s[1..], p)..]
    ensures !p(s[0]) ==> Lead(s, p) == 0 && s[Lead(s, p)..] == s
  {
    if p(s[0]) {
      assert s[1 + Lead(s[1..], p)..] == s[1..][Lead(s[1..], p)..];
    }
  }

  lemma HostClasses(c: char)
    ensures IsNum(c) <==> IsDigit(c)
    ensures IsHostChar(c) <==> IsName(c)
    ensures IsAddressChar(c) <==> IsAddress(c)
    ensures IsZoneChar(c) <==> IsZone(c)
    ensures IsUserInfoChar(c) <==> IsUserInfo(c)
    ensures IsName(c) ==> c != '[' && c != ':'
    ensures IsAddress(c) ==> c != ']' && c != '%'
    ensures IsZone(c) ==> c != ']'
    ensures IsUserInfo(c) ==> c != '@'
  {
    AlphaExact(c);
    DigitExact(c);
    UserInfoExact(c);
    HexExact(c);
    hide IsLetter, IsHexDigit, IsHex;
  }

  lemma HexExact(c: char)
    ensures IsHex(c) <==> IsHexDigit(c)
    ensures IsHex(c) ==> c != ']' && c != '%'
  {
    UnhexExact(c);
  }

  lemma HostReadsNext(h: HostState, s: string)
    requires |s| > 0
    ensures HostReads(h, s) <==> ParseHostChar(h, s[0]).Some? && HostReads(ParseHostChar(h, s[0]).value, s[1..])
  {
    hide All, IsName, IsAddress, IsZone, IsUserInfo, IsDigit, IsNum, IsHostChar, IsAddressChar, IsZoneChar;
    hide IsUserInfoChar, NameEnds, Bracketed, ZoneClosed, UserHostPort;
    HostClasses(s[0]);
    NameCons(s);
    BracketedCons(s);
    ZoneCons(s);
    UserCons(s);
    AllCons(s, IsDigit);
  }

  lemma NameCons(s: string)
    requires |s| > 0
    ensures NameEnds(s) <==> if IsName(s[0]) then NameEnds(s[1..]) else PortOrEnd(s)
  {
    hide IsName, PortOrEnd;
    LeadCons(s, IsName);
  }

  lemma ZoneCons(s: string)
    requires |s| > 0
    ensures ZoneClosed(s) <==> if IsZone(s[0]) then ZoneClosed(s[1..]) else Closed(s)
  {
    hide IsZone, Closed;
    LeadCons(s, IsZone);
  }

  lemma BracketedCons(s: string)
    requires |s| > 0
    ensures Bracketed(s) <==>
            if IsAddress(s[0]) then Bracketed(s[1..])
            else Closed(s) || (|s| > 1 && s[0] == '%' && IsZone(s[1]) && ZoneClosed(s[1..]))
  {
    hide IsAddress, IsZone, Closed, ZoneClosed;
    LeadCons(s, IsAddress);
  }

  lemma UserCons(s: string)
    requires |s| > 0
    ensures UserHostPort(s) <==>
            if IsUserInfo(s[0]) then UserHostPort(s[1..]) else s[0] == '@' && HostPort(s[1..])
  {
    hide IsUserInfo, HostPort;
    LeadCons(s, IsUserInfo);
  }

  // The authorities that are accepted are those of the syntax.
  lemma {:induction false} HostSyntax(h: HostState, s: string)
    ensures HostRun(h, s).Some? && MayEndHost(HostRun(h, s).value) <==> HostReads(h, s)
    decreases |s|
  {
    hide HostReads, ParseHostChar;
    if |s| == 0 {
      assert s == [];
      HostReadsNothing(h);
    } else {
      HostReadsNext(h, s);
      if ParseHostChar(h, s[0]).Some? {
        HostSyntax(ParseHostChar(h, s[0]).value, s[1..]);
      }
    }
  }

  lemma HostReadsNothing(h: HostState)
    ensures HostReads(h, []) <==> MayEndHost(h)
  {
    var s: string := [];
    assert s[0..] == s && Lead(s, IsName) == Lead(s, IsAddress) == Lead(s, IsZone) == Lead(s, IsUserInfo) == 0;
  }

  // A URL that ends before its authority begins.
  predicate Incomplete(s: string) { |s| > 0 && IsLetter(s[0]) && s[Lead(s, IsLetter)..] <= "://" }

  // The states a request URL may end in.
  predicate MayEnd(u: UrlState) {
    !(u.SpacesBeforeUrl? || u.Schema? || u.SchemaSlash? || u.SchemaSlashSlash? || u.ServerStart?)
  }

  // What is read from u leads to a state that may not end.
  predicate StopsShort(u: UrlState, s: string) {
    match u
    case SpacesBeforeUrl => s == [] || Incomplete(s)
    case Schema => s[Lead(s, IsLetter)..] <= "://"
    case SchemaSlash => s <= "//"
    case SchemaSlashSlash => s <= "/"
    case ServerStart => s == []
    case _ => false
  }

  lemma StopsShortNext(u: UrlState, s: string)
    requires |s| > 0 && ParseUrlChar(u, s[0]).Some?
    ensures StopsShort(u, s) <==> StopsShort(ParseUrlChar(u, s[0]).value, s[1..])
  {
    hide IsLetter, IsServerChar, IsUserInfoChar, IsUrlChar, IsAlpha, IsVisible;
    UrlClasses(s[0]);
    LeadCons(s, IsLetter);
    assert s <= "://" <==> s[0] == ':' && s[1..] <= "//";
    assert s <= "//" <==> s[0] == '/' && s[1..] <= "/";
    assert s <= "/" <==> s[0] == '/' && s[1..] == "";
  }

  lemma {:induction false} EndsShort(u: UrlState, s: string)
    requires UrlRun(u, s).Some?
    ensures MayEnd(UrlRun(u, s).value) <==> !StopsShort(u, s)
    decreases |s|
  {
    hide ParseUrlChar, IsLetter;
    if |s| == 0 {
      assert s == [] && s[Lead(s, IsLetter)..] == [] && [] <= "://" && [] <= "//" && [] <= "/";
    } else {
      hide StopsShort;
      StopsShortNext(u, s);
      EndsShort(ParseUrlChar(u, s[0]).value, s[1..]);
    }
  }
}
