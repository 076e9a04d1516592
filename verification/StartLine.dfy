// The first line of a message, one byte at a time: response line, request
// method, URL and HTTP version.
module StartLine {
  import opened Chars
  import opened Types
  import opened Events
  import opened Views

  // parse_url_char; None is its error result s_dead.
  function ParseUrlChar(s: UrlState, ch: char): Option<UrlState> {
    if ch == ' ' || ch == CR || ch == LF || ch == '\t' || ch as int == 12 then None
    else match s
      case SpacesBeforeUrl =>
        if ch == '/' || ch == '*' then Some(Path) else if IsAlpha(ch) then Some(Schema) else None
      case Schema =>
        if IsAlpha(ch) then Some(Schema) else if ch == ':' then Some(SchemaSlash) else None
      case SchemaSlash =>
        if ch == '/' then Some(SchemaSlashSlash) else None
      case SchemaSlashSlash =>
        if ch == '/' then Some(ServerStart) else None
      case ServerWithAt =>
        if ch == '@' then None else ParseServerChar(ch)
      case ServerStart => ParseServerChar(ch)
      case Server => ParseServerChar(ch)
      case Path =>
        if IsUrlChar(ch) then Some(Path)
        else if ch == '?' then Some(QueryStart)
        else if ch == '#' then Some(FragmentStart)
        else None
      case QueryStart => ParseQueryChar(ch)
      case Query => ParseQueryChar(ch)
      case FragmentStart =>
        if IsUrlChar(ch) || ch == '?' then Some(Fragment) else if ch == '#' then Some(FragmentStart) else None
      case Fragment =>
        if IsUrlChar(ch) || ch == '?' || ch == '#' then Some(Fragment) else None
  }

  // No byte leads back to the spaces before the URL.
  lemma UrlCharMoves(u: UrlState, ch: char)
    ensures ParseUrlChar(u, ch) != Some(SpacesBeforeUrl)
  {
  }

  function ParseServerChar(ch: char): Option<UrlState> {
    if ch == '/' then Some(Path)
    else if ch == '?' then Some(QueryStart)
    else if ch == '@' then Some(ServerWithAt)
    else if IsUserInfoChar(ch) || ch == '[' || ch == ']' then Some(Server)
    else None
  }

  function ParseQueryChar(ch: char): Option<UrlState> {
    if IsUrlChar(ch) || ch == '?' then Some(Query) else if ch == '#' then Some(FragmentStart) else None
  }

  // The method a first byte stands for.
  function FirstMethod(ch: char): Option<Method> {
    match ch
    case 'A' => Some(ACL)
    case 'B' => Some(BIND)
    case 'C' => Some(CONNECT)
    case 'D' => Some(DELETE)
    case 'G' => Some(GET)
    case 'H' => Some(HEAD)
    case 'L' => Some(LOCK)
    case 'M' => Some(MKCOL)
    case 'N' => Some(NOTIFY)
    case 'O' => Some(OPTIONS)
    case 'P' => Some(POST)
    case 'R' => Some(REPORT)
    case 'S' => Some(SUBSCRIBE)
    case 'T' => Some(TRACE)
    case 'U' => Some(UNLOCK)
    case _ => None
  }

  // The method the matcher turns to when ch is not the byte it expects at index.
  // At index 1 a method with no alternative there is kept, whatever ch is.
  function Retarget(m: Method, index: nat, ch: char): Option<Method> {
    if m == CONNECT then
      if index == 1 && ch == 'H' then Some(CHECKOUT)
      else if index == 2 && ch == 'P' then Some(COPY)
      else None
    else if m == MKCOL then
      if index == 1 && ch == 'O' then Some(MOVE)
      else if index == 1 && ch == 'E' then Some(MERGE)
      else if index == 1 && ch == '-' then Some(MSEARCH)
      else if index == 2 && ch == 'A' then Some(MKACTIVITY)
      else if index == 3 && ch == 'A' then Some(MKCALENDAR)
      else None
    else if m == SUBSCRIBE then
      if index == 1 && ch == 'E' then Some(SEARCH) else None
    else if m == REPORT then
      if index == 2 && ch == 'B' then Some(REBIND) else None
    else if index == 1 then
      if m == POST then
        if ch == 'R' then Some(PROPFIND)
        else if ch == 'U' then Some(PUT)
        else if ch == 'A' then Some(PATCH)
        else None
      else if m == LOCK then
        if ch == 'I' then Some(LINK) else None
      else Some(m)
    else if index == 2 then
      if m == PUT then
        if ch == 'R' then Some(PURGE) else None
      else if m == UNLOCK then
        if ch == 'S' then Some(UNSUBSCRIBE)
        else if ch == 'B' then Some(UNBIND)
        else None
      else None
    else if index == 4 && m == PROPFIND && ch == 'P' then Some(PROPPATCH)
    else if index == 3 && m == UNLOCK && ch == 'I' then Some(UNLINK)
    else None
  }

  // matcher[index] of the C string, whose terminator is NUL.
  function Expected(m: Method, index: nat): char {
    if index < |MethodName(m)| then MethodName(m)[index] else NUL
  }

  function StepStartReq(v: View, ch: char): View {
    if IsEol(ch) then v
    else
      var w := v.(flags := NO_FLAGS, contentLength := ULLONG_MAX);
      if !IsAlpha(ch) then Fail(w, InvalidMethod)
      else
        match FirstMethod(ch)
        case None => Fail(w.(index := 1, line := w.line.(verb := DELETE)), InvalidMethod)
        case Some(m) => Tell(w.(index := 1, state := Req(ReqMethod), line := w.line.(verb := m)), MessageBegin)
  }

  function StepMethod(v: View, ch: char): View {
    if ch == NUL then Fail(v, InvalidMethod)
    else if ch == ' ' && Expected(v.line.verb, v.index) == NUL then
      v.(state := InUrl(SpacesBeforeUrl), index := v.index + 1)
    else if ch == Expected(v.line.verb, v.index) then
      v.(index := v.index + 1)
    else
      match Retarget(v.line.verb, v.index, ch)
      case None => Fail(v, InvalidMethod)
      case Some(m) => v.(index := v.index + 1, line := v.line.(verb := m))
  }

  // One byte of the URL: it joins the URL run, or the URL is wrong.
  function StepUrlByte(v: View, from: UrlState, ch: char): View {
    match ParseUrlChar(from, ch)
    case None => Fail(v.(state := Dead), InvalidUrl)
    case Some(u) => Tell(v.(state := InUrl(u)), Data(Url, [ch]))
  }

  // Only the later URL states may be ended by a space or an end of line.
  function StepUrl(v: View, u: UrlState, ch: char): View {
    if u.SpacesBeforeUrl? then
      if ch == ' ' then v
      else StepUrlByte(v, if v.line.verb == CONNECT then ServerStart else SpacesBeforeUrl, ch)
    else if ch == ' ' || IsEol(ch) then
      if u.Schema? || u.SchemaSlash? || u.SchemaSlashSlash? || u.ServerStart? then
        Fail(v, InvalidUrl)
      else if ch == ' ' then v.(state := Req(ReqHttpStart))
      else
        v.(state := if ch == CR then Req(ReqLineAlmostDone) else Hdr(FieldStart),
           line := v.line.(major := 0, minor := 9))
    else StepUrlByte(v, u, ch)
  }

  function StepRequestLine(v: View, q: ReqState, ch: char): View {
    match q
    case StartReq => StepStartReq(v, ch)
    case ReqMethod => StepMethod(v, ch)
    case ReqHttpStart =>
      if ch == 'H' then v.(state := Req(ReqHttpH)) else if ch == ' ' then v else Fail(v, InvalidConstant)
    case ReqHttpH => Expect(v, ch, 'T', Req(ReqHttpHT))
    case ReqHttpHT => Expect(v, ch, 'T', Req(ReqHttpHTT))
    case ReqHttpHTT => Expect(v, ch, 'P', Req(ReqHttpHTTP))
    case ReqHttpHTTP => Expect(v, ch, '/', Req(ReqFirstMajor))
    case ReqFirstMajor =>
      if IsNum(ch) && ch != '0' then v.(state := Req(ReqMajor), line := v.line.(major := Digit(ch)))
      else Fail(v, InvalidVersion)
    case ReqMajor => if ch == '.' then v.(state := Req(ReqFirstMinor)) else MoreMajor(v, ch)
    case ReqFirstMinor =>
      if IsNum(ch) then v.(state := Req(ReqMinor), line := v.line.(minor := Digit(ch))) else Fail(v, InvalidVersion)
    case ReqMinor =>
      if ch == CR then v.(state := Req(ReqLineAlmostDone))
      else if ch == LF then v.(state := Hdr(FieldStart))
      else MoreMinor(v, ch)
    case ReqLineAlmostDone => if ch == LF then v.(state := Hdr(FieldStart)) else Fail(v, LfExpected)
  }

  function Expect(v: View, ch: char, want: char, next: ParseState): View {
    if ch == want then v.(state := next) else Fail(v, Strict)
  }

  function MoreMajor(v: View, ch: char): View {
    if !IsNum(ch) then Fail(v, InvalidVersion)
    else
      var w := v.(line := v.line.(major := v.line.major * 10 + Digit(ch)));
      if w.line.major > 999 then Fail(w, InvalidVersion) else w
  }

  function MoreMinor(v: View, ch: char): View {
    if !IsNum(ch) then Fail(v, InvalidVersion)
    else
      var w := v.(line := v.line.(minor := v.line.minor * 10 + Digit(ch)));
      if w.line.minor > 999 then Fail(w, InvalidVersion) else w
  }

  function StepStartReqOrRes(v: View, ch: char): View {
    if IsEol(ch) then v
    else
      var w := v.(flags := NO_FLAGS, contentLength := ULLONG_MAX);
      if ch == 'H' then Tell(w.(state := Res(ResOrRespH)), MessageBegin)
      else StepStartReq(w.(state := Req(StartReq), line := w.line.(ptype := Request)), ch)
  }

  // An end of line before a response also announces a message.
  function StepStartRes(v: View, ch: char): View {
    var w := v.(flags := NO_FLAGS, contentLength := ULLONG_MAX);
    if ch == 'H' then Tell(w.(state := Res(ResH)), MessageBegin)
    else if IsEol(ch) then Tell(w, MessageBegin)
    else Fail(w, InvalidConstant)
  }

  function StepResponseLine(v: View, r: ResState, ch: char): View {
    match r
    case StartReqOrRes => StepStartReqOrRes(v, ch)
    case ResOrRespH =>
      if ch == 'T' then v.(state := Res(ResHT), line := v.line.(ptype := Response))
      else if ch == 'E' then v.(index := 2, state := Req(ReqMethod), line := v.line.(ptype := Request, verb := HEAD))
      else Fail(v, InvalidConstant)
    case StartRes => StepStartRes(v, ch)
    case ResH => Expect(v, ch, 'T', Res(ResHT))
    case ResHT => Expect(v, ch, 'T', Res(ResHTT))
    case ResHTT => Expect(v, ch, 'P', Res(ResHTTP))
    case ResHTTP => Expect(v, ch, '/', Res(ResFirstMajor))
    case ResFirstMajor =>
      if IsNum(ch) then v.(state := Res(ResMajor), line := v.line.(major := Digit(ch))) else Fail(v, InvalidVersion)
    case ResMajor => if ch == '.' then v.(state := Res(ResFirstMinor)) else MoreMajor(v, ch)
    case ResFirstMinor =>
      if IsNum(ch) then v.(state := Res(ResMinor), line := v.line.(minor := Digit(ch))) else Fail(v, InvalidVersion)
    case ResMinor => if ch == ' ' then v.(state := Res(ResFirstStatus)) else MoreMinor(v, ch)
    case ResFirstStatus =>
      if IsNum(ch) then v.(state := Res(ResStatusCode), line := v.line.(status := Digit(ch)))
      else if ch == ' ' then v
      else Fail(v, InvalidStatus)
    case ResStatusCode => StepStatusCode(v, ch)
    case ResStatusStart =>
      if IsEol(ch) then EndStatus(v, ch)
      else Tell(v.(state := Res(ResStatus), index := 0), Data(Status, [ch]))
    case ResStatus => if IsEol(ch) then EndStatus(v, ch) else Tell(v, Data(Status, [ch]))
    case ResLineAlmostDone => Expect(v, ch, LF, Hdr(FieldStart))
  }

  function StepStatusCode(v: View, ch: char): View {
    if IsNum(ch) then
      var w := v.(line := v.line.(status := v.line.status * 10 + Digit(ch)));
      if w.line.status > 999 then Fail(w, InvalidStatus) else w
    else if ch == ' ' then v.(state := Res(ResStatusStart))
    else if IsEol(ch) then EndStatus(v, ch)
    else Fail(v, InvalidStatus)
  }

  function EndStatus(v: View, ch: char): View {
    v.(state := if ch == CR then Res(ResLineAlmostDone) else Hdr(FieldStart))
  }
}
