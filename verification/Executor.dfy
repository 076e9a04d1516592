// http_parser_execute as it is written: marks, fast paths, re-execution and early
// returns, proved against the one-byte step.
module Executor {
  import opened Chars
  import opened Types
  import opened Events
  import opened Views
  import opened StartLine
  import opened Headers
  import opened Body
  import opened Machine
  import opened Invariant
  import opened Runs
  import opened Budget
  import opened Steps
  import opened Calls
  import opened Callbacks

  class HttpParser {
    var line: Line
    var flags: Flags
    var state: ParseState
    var hstate: HeaderState
    var index: nat
    var nread: nat
    var contentLength: nat
    var errno: Errno

    // The application: what its k-th callback answers, its plan, the callbacks it was given, and these
    // with their runs of data joined.
    const replies: nat -> Reply
    var app: App
    var told: seq<Event>
    var log: Trace

    // http_parser_init; skips and replies are the application's plan.
    constructor (t: ParserType, skips: set<nat>, replies: nat -> Reply)
      ensures V() == NewView(t, skips) && nread == 0 && Valid()
      ensures this.replies == replies && told == []
    {
      line, flags, state := Line(t, DELETE, 0, 0, 0, false), NO_FLAGS, FirstState(t);
      hstate, index, nread, contentLength, errno := General, 0, 0, 0, OK;
      app, told, log := App(0, skips, false), [], Silence;
      this.replies := replies;
    }

    // http_parser_pause. A parser that has found an error is left alone.
    method Pause(paused: bool)
      requires Valid()
      modifies `errno
      ensures Valid()
      ensures errno == if old(errno).OK? || old(errno).Paused? then (if paused then Paused else OK) else old(errno)
    {
      hide Inv;
      if errno == OK || errno == Paused {
        errno := if paused then Paused else OK;
      }
    }

    // The fields as a value, with trace t.
    function With(t: Trace): View reads this {
      View(line, flags, state, hstate, index, contentLength, errno, app, t)
    }

    function V(): View reads this { With(log) }

    // What the one-byte parser has seen when the bytes before p are done: the marked bytes included.
    ghost function Seen(m: Marks, data: string, p: nat): View reads this {
      With(Pending(log, m, data, p))
    }

    // The view a pass of the switch leaves behind.
    ghost function After(act: Act, m: Marks, data: string, p: nat): View reads this {
      if act.Next? then Seen(m, data, p + 1)
      else if act.Stop? && Healthy(errno) then V()
      else Seen(m, data, p)
    }

    // A callback that takes no data. It answers 0, pauses the parser, or fails.
    method Notify(e: Event) returns (stop: bool)
      requires errno == OK
      modifies `told, `log, `errno
      ensures log == Emit(old(log), e) && told == old(told) + [e]
      ensures Answered(replies, old(told), old(log), told, log, errno)
      ensures errno == OK || ByCallback(errno)
      ensures stop <==> errno != OK
    {
      var reply := replies(|told|);
      OneAnswered(replies, told, log, e, if reply == Zero then OK else Refusal(reply, e));
      hide Answered;
      told, log := told + [e], Emit(log, e);
      if reply == Pauses {
        errno := Paused;
      } else if reply == Fails {
        errno := CallbackError(e);
      }
      stop := errno != OK;
    }

    // CALLBACK_DATA_: hands over the marked bytes, if there is a mark.
    method Deliver(k: Kind, mark: Option<nat>, data: string, end: nat) returns (stop: bool)
      requires errno == OK
      requires mark.Some? ==> mark.value <= end <= |data|
      modifies `told, `log, `errno
      ensures log == if mark.Some? then Emit(old(log), Data(k, Slice(data, mark.value, end))) else old(log)
      ensures Answered(replies, old(told), old(log), told, log, errno)
      ensures errno == OK || ByCallback(errno)
      ensures (stop <==> errno != OK) && (mark.None? ==> !stop)
    {
      hide Answered;
      NothingAnswered(replies, told, log);
      stop := false;
      if mark.Some? {
        stop := Notify(Data(k, data[mark.value..end]));
      }
    }

    // COUNT_HEADER_SIZE
    method CountHeader(k: nat)
      requires errno == OK
      modifies `nread, `errno
      ensures nread == old(nread) + k && errno == if nread > MAX_HEADER_SIZE then HeaderOverflow else OK
    {
      nread := nread + k;
      if nread > MAX_HEADER_SIZE {
        errno := HeaderOverflow;
      }
    }

    // STRICT_CHECK on one literal
    method Literal(ch: char, want: char, next: ParseState)
      requires errno == OK
      modifies `state, `errno
      ensures V() == Expect(old(V()), ch, want, next)
    {
      if ch != want {
        errno := Strict;
        return;
      }
      state := next;
    }

    // s_res_http_major and s_req_http_major, but for the dot
    method MajorDigit(ch: char)
      requires errno == OK
      modifies `line, `errno
      ensures V() == MoreMajor(old(V()), ch)
    {
      if !IsNum(ch) {
        errno := InvalidVersion;
        return;
      }
      line := line.(major := line.major * 10 + Digit(ch));
      if line.major > 999 {
        errno := InvalidVersion;
      }
    }

    // s_res_http_minor and s_req_http_minor, but for what may follow
    method MinorDigit(ch: char)
      requires errno == OK
      modifies `line, `errno
      ensures V() == MoreMinor(old(V()), ch)
    {
      if !IsNum(ch) {
        errno := InvalidVersion;
        return;
      }
      line := line.(minor := line.minor * 10 + Digit(ch));
      if line.minor > 999 {
        errno := InvalidVersion;
      }
    }

    // s_req_method, at a byte that is not the next one of the method: another method that begins like it,
    // the same one if no other has been found by its second byte, or an error.
    method TurnMethod(ch: char)
      requires errno == OK
      modifies `line, `errno
      ensures match Retarget(old(line.verb), index, ch)
              case None => V() == Fail(old(V()), InvalidMethod)
              case Some(m) => V() == old(V()).(line := old(line).(verb := m))
    {
      if line.verb == CONNECT {
        if index == 1 && ch == 'H' {
          line := line.(verb := CHECKOUT);
        } else if index == 2 && ch == 'P' {
          line := line.(verb := COPY);
        } else {
          errno := InvalidMethod;
        }
      } else if line.verb == MKCOL {
        if index == 1 && ch == 'O' {
          line := line.(verb := MOVE);
        } else if index == 1 && ch == 'E' {
          line := line.(verb := MERGE);
        } else if index == 1 && ch == '-' {
          line := line.(verb := MSEARCH);
        } else if index == 2 && ch == 'A' {
          line := line.(verb := MKACTIVITY);
        } else if index == 3 && ch == 'A' {
          line := line.(verb := MKCALENDAR);
        } else {
          errno := InvalidMethod;
        }
      } else if line.verb == SUBSCRIBE {
        if index == 1 && ch == 'E' {
          line := line.(verb := SEARCH);
        } else {
          errno := InvalidMethod;
        }
      } else if line.verb == REPORT {
        if index == 2 && ch == 'B' {
          line := line.(verb := REBIND);
        } else {
          errno := InvalidMethod;
        }
      } else if index == 1 {
        if line.verb == POST {
          if ch == 'R' {
            line := line.(verb := PROPFIND);
          } else if ch == 'U' {
            line := line.(verb := PUT);
          } else if ch == 'A' {
            line := line.(verb := PATCH);
          } else {
            errno := InvalidMethod;
          }
        } else if line.verb == LOCK {
          if ch == 'I' {
            line := line.(verb := LINK);
          } else {
            errno := InvalidMethod;
          }
        }
      } else if index == 2 {
        if line.verb == PUT {
          if ch == 'R' {
            line := line.(verb := PURGE);
          } else {
            errno := InvalidMethod;
          }
        } else if line.verb == UNLOCK {
          if ch == 'S' {
            line := line.(verb := UNSUBSCRIBE);
          } else if ch == 'B' {
            line := line.(verb := UNBIND);
          } else {
            errno := InvalidMethod;
          }
        } else {
          errno := InvalidMethod;
        }
      } else if index == 4 && line.verb == PROPFIND && ch == 'P' {
        line := line.(verb := PROPPATCH);
      } else if index == 3 && line.verb == UNLOCK && ch == 'I' {
        line := line.(verb := UNLINK);
      } else {
        errno := InvalidMethod;
      }
    }

    // s_req_method
    method MethodByte(ch: char)
      requires errno == OK && state == Req(ReqMethod)
      modifies `line, `state, `index, `errno
      ensures V() == StepMethod(old(V()), ch)
    {
      hide Expected, Retarget;
      if ch == NUL {
        errno := InvalidMethod;
        return;
      }
      var matcher := Expected(line.verb, index);
      if ch == ' ' && matcher == NUL {
        state := InUrl(SpacesBeforeUrl);
      } else if ch != matcher {
        TurnMethod(ch);
        if errno != OK {
          return;
        }
      }
      index := index + 1;
    }

    // The rest of a request line
    method RequestLineByte(ch: char)
      requires errno == OK && state.Req? && !state.req.StartReq?
      modifies `line, `state, `index, `errno
      ensures V() == StepRequestLine(old(V()), old(state).req, ch)
    {
      hide StepMethod, MoreMajor, MoreMinor;
      match state.req {
        case ReqMethod => MethodByte(ch);
        case ReqHttpStart =>
          if ch == 'H' {
            state := Req(ReqHttpH);
          } else if ch != ' ' {
            errno := InvalidConstant;
          }
        case ReqHttpH => Literal(ch, 'T', Req(ReqHttpHT));
        case ReqHttpHT => Literal(ch, 'T', Req(ReqHttpHTT));
        case ReqHttpHTT => Literal(ch, 'P', Req(ReqHttpHTTP));
        case ReqHttpHTTP => Literal(ch, '/', Req(ReqFirstMajor));
        case ReqFirstMajor =>
          if !IsNum(ch) || ch == '0' {
            errno := InvalidVersion;
          } else {
            line := line.(major := Digit(ch));
            state := Req(ReqMajor);
          }
        case ReqMajor =>
          if ch == '.' {
            state := Req(ReqFirstMinor);
          } else {
            MajorDigit(ch);
          }
        case ReqFirstMinor =>
          if !IsNum(ch) {
            errno := InvalidVersion;
          } else {
            line := line.(minor := Digit(ch));
            state := Req(ReqMinor);
          }
        case ReqMinor =>
          if ch == CR {
            state := Req(ReqLineAlmostDone);
          } else if ch == LF {
            state := Hdr(FieldStart);
          } else {
            MinorDigit(ch);
          }
        case ReqLineAlmostDone =>
          if ch != LF {
            errno := LfExpected;
          } else {
            state := Hdr(FieldStart);
          }
      }
    }

    // s_res_status_code
    method StatusCodeByte(ch: char)
      requires errno == OK && state == Res(ResStatusCode)
      modifies `line, `state, `errno
      ensures V() == StepStatusCode(old(V()), ch)
    {
      if IsNum(ch) {
        line := line.(status := line.status * 10 + Digit(ch));
        if line.status > 999 {
          errno := InvalidStatus;
        }
      } else if ch == ' ' {
        state := Res(ResStatusStart);
      } else if ch == CR {
        state := Res(ResLineAlmostDone);
      } else if ch == LF {
        state := Hdr(FieldStart);
      } else {
        errno := InvalidStatus;
      }
    }

    // The status line, but for its start and the reason phrase
    method ResponseLineByte(ch: char)
      requires errno == OK && state.Res? && IsPlain(state, ch)
      modifies `line, `state, `index, `errno
      ensures V() == StepResponseLine(old(V()), old(state).res, ch)
    {
      hide StepStatusCode, MoreMajor, MoreMinor, StepStartReqOrRes, StepStartRes;
      match state.res {
        case ResOrRespH =>
          if ch == 'T' {
            line := line.(ptype := Response);
            state := Res(ResHT);
          } else if ch != 'E' {
            errno := InvalidConstant;
          } else {
            line := line.(ptype := Request, verb := HEAD);
            index := 2;
            state := Req(ReqMethod);
          }
        case ResH => Literal(ch, 'T', Res(ResHT));
        case ResHT => Literal(ch, 'T', Res(ResHTT));
        case ResHTT => Literal(ch, 'P', Res(ResHTTP));
        case ResHTTP => Literal(ch, '/', Res(ResFirstMajor));
        case ResFirstMajor =>
          if !IsNum(ch) {
            errno := InvalidVersion;
          } else {
            line := line.(major := Digit(ch));
            state := Res(ResMajor);
          }
        case ResMajor =>
          if ch == '.' {
            state := Res(ResFirstMinor);
          } else {
            MajorDigit(ch);
          }
        case ResFirstMinor =>
          if !IsNum(ch) {
            errno := InvalidVersion;
          } else {
            line := line.(minor := Digit(ch));
            state := Res(ResMinor);
          }
        case ResMinor =>
          if ch == ' ' {
            state := Res(ResFirstStatus);
          } else {
            MinorDigit(ch);
          }
        case ResFirstStatus =>
          if IsNum(ch) {
            line := line.(status := Digit(ch));
            state := Res(ResStatusCode);
          } else if ch != ' ' {
            errno := InvalidStatus;
          }
        case ResStatusCode => StatusCodeByte(ch);
        case ResLineAlmostDone => Literal(ch, LF, Hdr(FieldStart));
      }
    }

    // s_chunk_size_start, s_chunk_size and s_chunk_parameters
    method ChunkSizeByte(ch: char)
      requires errno == OK && state.Chunk? && IsPlain(state, ch)
      modifies `state, `contentLength, `errno
      ensures V() == StepChunk(old(V()), old(state).chunk, ch)
    {
      hide Unhex, Wrap64;
      var unhexVal := Unhex(ch);
      match state.chunk {
        case SizeStart =>
          if unhexVal == -1 {
            errno := InvalidChunkSize;
            return;
          }
          contentLength := unhexVal;
          state := Chunk(Size);
        case Size =>
          if ch == CR {
            state := Chunk(SizeAlmostDone);
          } else if unhexVal == -1 {
            if ch == ';' || ch == ' ' {
              state := Chunk(Parameters);
              return;
            }
            errno := InvalidChunkSize;
          } else {
            var t := Wrap64(contentLength * 16 + unhexVal);
            if CHUNK_GUARD < contentLength {
              errno := InvalidContentLength;
              return;
            }
            contentLength := t;
          }
        case Parameters =>
          if ch == CR {
            state := Chunk(SizeAlmostDone);
          }
      }
    }

    // s_header_value_discard_ws before the value, s_header_value_discard_ws_almost_done and
    // s_header_almost_done
    method BlankByte(ch: char)
      requires errno == OK && state.Hdr? && IsPlain(state, ch)
      modifies `state, `errno
      ensures V() == StepHeader(old(V()), old(state).hdr, ch)
    {
      match state.hdr {
        case DiscardWs =>
          if ch == CR {
            state := Hdr(DiscardWsAlmostDone);
          } else if ch == LF {
            state := Hdr(DiscardLws);
          }
        case DiscardWsAlmostDone => Literal(ch, LF, Hdr(DiscardLws));
        case HeaderAlmostDone => Literal(ch, LF, Hdr(ValueLws));
      }
    }

    // The arms of the switch that make no callback.
    method Plain(ch: char, p: nat) returns (act: Act)
      requires errno == OK && !app.left && IsPlain(state, ch)
      modifies `line, `flags, `state, `hstate, `index, `contentLength, `errno
      ensures act.Next? || act.Stop?
      ensures Stepped(old(V()), ch, p, act, V())
      ensures !Resets(old(V()), ch)
      ensures act.Next? ==> RunKind(state).None? && !Bodied(state)
      ensures act == Next || !ByCallback(errno)
    {
      hide Step, StepRequestLine, StepResponseLine, StepHeader, StepChunk;
      PlainStep(V(), ch);
      LayerStep(V(), ch);
      match state {
        case Dead =>
          if !IsEol(ch) {
            errno := ClosedConnection;
          }
        case Res(_) => ResponseLineByte(ch);
        case Req(_) => RequestLineByte(ch);
        case InUrl(_) =>
        case Hdr(_) => BlankByte(ch);
        case Chunk(_) => ChunkSizeByte(ch);
      }
      act := if errno == OK then Next else Stop(p);
    }

    // The switch of s_start_req
    method FirstLetter(ch: char)
      requires errno == OK
      modifies `line, `errno
      ensures match FirstMethod(ch)
              case None => V() == Fail(old(V()), InvalidMethod)
              case Some(m) => V() == old(V()).(line := old(line).(verb := m))
    {
      match ch {
        case 'A' => line := line.(verb := ACL);
        case 'B' => line := line.(verb := BIND);
        case 'C' => line := line.(verb := CONNECT);
        case 'D' => line := line.(verb := DELETE);
        case 'G' => line := line.(verb := GET);
        case 'H' => line := line.(verb := HEAD);
        case 'L' => line := line.(verb := LOCK);
        case 'M' => line := line.(verb := MKCOL);
        case 'N' => line := line.(verb := NOTIFY);
        case 'O' => line := line.(verb := OPTIONS);
        case 'P' => line := line.(verb := POST);
        case 'R' => line := line.(verb := REPORT);
        case 'S' => line := line.(verb := SUBSCRIBE);
        case 'T' => line := line.(verb := TRACE);
        case 'U' => line := line.(verb := UNLOCK);
        case _ => errno := InvalidMethod;
      }
    }

    // s_start_req
    method StartRequest(ch: char, p: nat) returns (act: Act)
      requires errno == OK && !app.left && state == Req(StartReq)
      modifies `state, `contentLength, `flags, `line, `index, `errno, `told, `log
      ensures Answered(replies, old(told), old(log), told, log, errno)
      ensures Stepped(old(V()), ch, p, act, V())
      ensures !act.Again? && (act == Stop(p) ==> !ByCallback(errno))
      ensures act.Next? ==> RunKind(state).None? && !Bodied(state)
    {
      hide Emit, Answered;
      NothingAnswered(replies, told, log);
      hide FirstMethod, StepResponseLine, StepUrl, StepHeader, StepChunk, StepMsg, StepMethod, MoreMajor, MoreMinor;
      hide Expect;
      act := Next;
      if !IsEol(ch) {
        flags, contentLength := NO_FLAGS, ULLONG_MAX;
        if !IsAlpha(ch) {
          errno := InvalidMethod;
          return Stop(p);
        }
        line, index := line.(verb := DELETE), 1;
        FirstLetter(ch);
        if errno != OK {
          return Stop(p);
        }
        state := Req(ReqMethod);
        var stop := Notify(MessageBegin);
        if stop {
          return Stop(p + 1);
        }
      }
    }

    // s_start_res
    method StartResponse(ch: char, p: nat) returns (act: Act)
      requires errno == OK && !app.left && state == Res(StartRes)
      modifies `state, `contentLength, `flags, `errno, `told, `log
      ensures Answered(replies, old(told), old(log), told, log, errno)
      ensures Stepped(old(V()), ch, p, act, V())
      ensures !act.Again? && (act == Stop(p) ==> !ByCallback(errno))
      ensures act.Next? ==> RunKind(state).None? && !Bodied(state)
    {
      hide Emit, Answered;
      NothingAnswered(replies, told, log);
      hide StepRequestLine, StepUrl, StepHeader, StepChunk, StepMsg, StepStartReqOrRes, StepStatusCode, MoreMajor;
      hide MoreMinor, Expect, EndStatus, Resets, Rank;
      flags, contentLength := NO_FLAGS, ULLONG_MAX;
      if ch == 'H' {
        state := Res(ResH);
      } else if !IsEol(ch) {
        errno := InvalidConstant;
        return Stop(p);
      }
      var stop := Notify(MessageBegin);
      act := if stop then Stop(p + 1) else Next;
    }

    // s_start_req_or_res
    method StartEither(ch: char, p: nat) returns (act: Act)
      requires errno == OK && !app.left && state == Res(StartReqOrRes) && Inv(V())
      modifies `state, `line, `contentLength, `flags, `errno, `told, `log
      ensures Answered(replies, old(told), old(log), told, log, errno)
      ensures Stepped(old(V()), ch, p, act, V()) && HeldOk(p, act, V())
      ensures !act.Stop? ==> RunKind(state).None? && !Bodied(state)
    {
      hide Answered;
      NothingAnswered(replies, told, log);
      hide StepUrl, StepHeader, StepChunk, StepMsg, StepStartRes, StepStatusCode, MoreMajor, MoreMinor;
      act := Next;
      if !IsEol(ch) {
        flags, contentLength := NO_FLAGS, ULLONG_MAX;
        if ch == 'H' {
          state := Res(ResOrRespH);
          var stop := Notify(MessageBegin);
          if stop {
            return Stop(p + 1);
          }
        } else {
          line := line.(ptype := Request);
          state := Req(StartReq);
          return Again;
        }
      }
    }

    // A space or an end of line inside the URL
    method UrlEnd(data: string, p: nat, m: Marks) returns (act: Act, m': Marks)
      requires p < |data| && errno == OK && !app.left && state.InUrl? && MarksOk(m, state, p)
      requires !state.url.SpacesBeforeUrl? && (data[p] == ' ' || IsEol(data[p]))
      modifies `state, `line, `errno, `told, `log
      ensures Answered(replies, old(told), old(log), told, log, errno)
      ensures Stepped(old(Seen(m, data, p)), data[p], p, act, After(act, m', data, p))
      ensures act.Next? || (act.Stop? && act != Stop(p)) || !ByCallback(errno)
      ensures !act.Again? && (act.Next? ==> MarksOk(m', state, p + 1))
      ensures m'.body == m.body
    {
      hide Answered;
      NothingAnswered(replies, told, log);
      hide Step, Stepped, ParseUrlChar;
      UrlStep(Seen(m, data, p), state.url, data[p]);
      var ch, from := data[p], state.url;
      ghost var v := Seen(m, data, p);
      if from.Schema? || from.SchemaSlash? || from.SchemaSlashSlash? || from.ServerStart? {
        errno := InvalidUrl;
        Takes(v, ch, p, Seen(m, data, p));
        return Stop(p), m;
      }
      if ch == ' ' {
        state := Req(ReqHttpStart);
      } else {
        line := line.(major := 0, minor := 9);
        state := if ch == CR then Req(ReqLineAlmostDone) else Hdr(FieldStart);
      }
      var stop := Deliver(Url, m.url, data, p);
      Takes(v, ch, p, V());
      return if stop then Stop(p + 1) else Next, m.(url := None);
    }

    // The states inside the URL
    method UrlByte(data: string, p: nat, m: Marks) returns (act: Act, m': Marks)
      requires p < |data| && errno == OK && !app.left && state.InUrl? && MarksOk(m, state, p)
      requires Inv(Seen(m, data, p))
      modifies `state, `line, `errno, `told, `log
      ensures Answered(replies, old(told), old(log), told, log, errno)
      ensures Stepped(old(Seen(m, data, p)), data[p], p, act, After(act, m', data, p))
      ensures act.Next? || (act.Stop? && act != Stop(p)) || !ByCallback(errno)
      ensures !act.Again? && (act.Next? ==> MarksOk(m', state, p + 1))
      ensures m'.body == m.body
    {
      hide Answered;
      NothingAnswered(replies, told, log);
      hide Step, Stepped, Inv, ParseUrlChar;
      UrlStep(Seen(m, data, p), state.url, data[p]);
      var ch, from := data[p], state.url;
      ghost var v := Seen(m, data, p);
      m' := m;
      if from.SpacesBeforeUrl? {
        if ch == ' ' {
          Takes(v, ch, p, v);
          return Next, m;
        }
        m' := m'.(url := Some(p));
        from := if line.verb == CONNECT then ServerStart else SpacesBeforeUrl;
      } else if ch == ' ' || IsEol(ch) {
        act, m' := UrlEnd(data, p, m);
        return;
      }
      match ParseUrlChar(from, ch) {
        case None =>
          state, errno := Dead, InvalidUrl;
          Takes(v, ch, p, Seen(m, data, p));
          return Stop(p), m;
        case Some(u) =>
          SliceGrows(log, Url, data, m'.url.value, p);
          state := InUrl(u);
          UrlCharMoves(from, ch);
          Takes(v, ch, p, Seen(m', data, p + 1));
      }
      act := Next;
    }

    // s_res_status_start and s_res_status
    method StatusByte(data: string, p: nat, m: Marks) returns (act: Act, m': Marks)
      requires p < |data| && errno == OK && !app.left && MarksOk(m, state, p)
      requires state == Res(ResStatusStart) || state == Res(ResStatus)
      requires Inv(Seen(m, data, p))
      modifies `state, `index, `errno, `told, `log
      ensures Answered(replies, old(told), old(log), told, log, errno)
      ensures Stepped(old(Seen(m, data, p)), data[p], p, act, After(act, m', data, p))
      ensures act.Next? || (act.Stop? && act != Stop(p)) || !ByCallback(errno)
      ensures !act.Again? && (act.Next? ==> MarksOk(m', state, p + 1))
      ensures m'.body == m.body
    {
      hide Answered;
      NothingAnswered(replies, told, log);
      hide Step, Stepped, Inv;
      StatusStep(Seen(m, data, p), data[p]);
      var ch := data[p];
      ghost var v := Seen(m, data, p);
      m' := m;
      if IsEol(ch) {
        state := if ch == CR then Res(ResLineAlmostDone) else Hdr(FieldStart);
        var stop := Deliver(Events.Status, m.status, data, p);
        Takes(v, ch, p, V());
        return if stop then Stop(p + 1) else Next, m.(status := None);
      }
      if state == Res(ResStatusStart) {
        m' := m'.(status := Some(p));
        state, index := Res(ResStatus), 0;
      }
      SliceGrows(log, Events.Status, data, m'.status.value, p);
      Takes(v, ch, p, Seen(m', data, p + 1));
      act := Next;
    }

    // s_header_field_start
    method FieldStartByte(data: string, p: nat, m: Marks) returns (act: Act, m': Marks)
      requires p < |data| && errno == OK && !app.left && MarksOk(m, state, p) && state == Hdr(FieldStart)
      requires Inv(Seen(m, data, p))
      modifies `state, `hstate, `index, `errno
      ensures Stepped(old(Seen(m, data, p)), data[p], p, act, After(act, m', data, p))
      ensures HeldOk(p, act, After(act, m', data, p))
      ensures act.Stop? ==> !ByCallback(errno)
      ensures m'.body == m.body
      ensures act.Next? ==> data[p] != LF
      ensures !act.Stop? ==> MarksOk(m', state, p + if act.Next? then 1 else 0)
    {
      hide StepResponseLine, StepRequestLine, StepUrl, StepChunk, StepFieldName, StepValueStart, StepValue;
      hide StepHeadersAlmostDone;
      var ch := data[p];
      m' := m;
      if ch == CR {
        state := Msg(HeadersAlmostDone);
        return Next, m;
      }
      if ch == LF {
        state := Msg(HeadersAlmostDone);
        return Again, m;
      }
      if !IsToken(ch) {
        errno := InvalidHeaderToken;
        return Stop(p), m;
      }
      m' := m.(field := Some(p));
      SliceGrows(log, Field, data, p, p);
      index, state := 0, Hdr(FieldName);
      match Token(ch) {
        case 'c' => hstate := C;
        case 'p' => hstate := MatchingProxyConnection;
        case 't' => hstate := MatchingTransferEncoding;
        case 'u' => hstate := MatchingUpgrade;
        case _ => hstate := General;
      }
      act := Next;
    }

    // s_header_value_start, but for the mark; t stands for the trace.
    method FirstValueByte(ch: char, ghost t: Trace)
      requires errno == OK
      modifies `state, `hstate, `index, `flags, `contentLength, `errno
      ensures state == Hdr(FieldValue)
      ensures errno == OK ==> With(Emit(t, Data(Events.Value, [ch]))) == StepValueStart(old(With(t)), ch)
      ensures errno != OK ==> errno == InvalidContentLength && With(t) == StepValueStart(old(With(t)), ch)
    {
      hide Lower, Digit, IsNum;
      state, index := Hdr(FieldValue), 0;
      var c := Lower(ch);
      match hstate {
        case Upgrade =>
          flags := flags.(upgrade := true);
          hstate := General;
        case TransferEncoding =>
          hstate := if c == 'c' then MatchingChunked else General;
        case ContentLength =>
          if !IsNum(ch) {
            errno := InvalidContentLength;
            return;
          }
          contentLength := Digit(ch);
        case Connection =>
          if c == 'k' {
            hstate := MatchingKeepAlive;
          } else if c == 'c' {
            hstate := MatchingClose;
          } else if c == 'u' {
            hstate := MatchingConnUpgrade;
          } else {
            hstate := MatchingToken;
          }
        case MatchingTokenStart =>
        case _ => hstate := General;
      }
    }

    // s_header_value_start, also reached from s_header_value_discard_ws
    method ValueStartByte(data: string, p: nat, m: Marks) returns (act: Act, m': Marks)
      requires p < |data| && errno == OK && !app.left && MarksOk(m, state, p)
      requires state == Hdr(ValueStart) || (state == Hdr(DiscardWs) && !IsBlank(data[p]) && !IsEol(data[p]))
      requires Inv(Seen(m, data, p))
      modifies `state, `hstate, `index, `flags, `contentLength, `errno
      ensures Stepped(old(Seen(m, data, p)), data[p], p, act, After(act, m', data, p))
      ensures act.Stop? ==> !ByCallback(errno)
      ensures act.Stop? ==> errno != OK
      ensures !act.Again? && (act.Next? ==> MarksOk(m', state, p + 1))
      ensures m'.body == m.body
    {
      hide Step, Stepped, Inv, StepValueStart;
      ghost var v := Seen(m, data, p);
      ValueStarts(v, data[p]);
      SliceGrows(log, Events.Value, data, p, p);
      FirstValueByte(data[p], log);
      if errno != OK {
        Takes(v, data[p], p, Seen(m, data, p));
        return Stop(p), m;
      }
      m' := m.(val := Some(p));
      Takes(v, data[p], p, Seen(m', data, p + 1));
      act := Next;
    }

    // s_header_value_lws
    method ValueLwsByte(ch: char, p: nat) returns (act: Act)
      requires errno == OK && !app.left && state == Hdr(ValueLws) && Inv(V())
      modifies `state, `flags
      ensures act.Again? && Stepped(old(V()), ch, p, act, V()) && HeldOk(p, act, V())
      ensures RunKind(state).None? && !Bodied(state)
    {
      hide StepResponseLine, StepRequestLine, StepUrl, StepChunk, StepMsg, StepFieldStart, StepValueStart;
      act := Again;
      if IsBlank(ch) {
        state := Hdr(ValueStart);
      } else {
        flags := Mark(flags, hstate);
        state := Hdr(FieldStart);
      }
    }

    // s_header_value_discard_lws: after an empty value it is announced, with no bytes.
    method DiscardLwsByte(ch: char, p: nat) returns (act: Act)
      requires errno == OK && !app.left && state == Hdr(DiscardLws) && Inv(V())
      modifies `state, `flags, `errno, `told, `log
      ensures Answered(replies, old(told), old(log), told, log, errno)
      ensures Stepped(old(V()), ch, p, act, V()) && HeldOk(p, act, V())
      ensures !act.Stop? ==> RunKind(state).None? && !Bodied(state)
      ensures act.Next? ==> ch != LF
      ensures act.Stop? ==> act == Stop(p)
    {
      hide Emit, Answered;
      NothingAnswered(replies, told, log);
      hide StepResponseLine, StepRequestLine, StepUrl, StepChunk, StepMsg, StepFieldStart, StepValueStart;
      if IsBlank(ch) {
        state := Hdr(DiscardWs);
        return Next;
      }
      flags := Mark(flags, hstate);
      state := Hdr(FieldStart);
      var stop := Notify(Data(Events.Value, []));
      act := if stop then Stop(p) else Again;
    }

    // s_headers_almost_done, with the call of on_headers_complete
    method HeadersAlmostDoneByte(ch: char, p: nat) returns (act: Act)
      requires errno == OK && !app.left && state == Msg(HeadersAlmostDone) && Inv(V())
      modifies `state, `line, `flags, `app, `errno, `told, `log
      ensures Answered(replies, old(told), old(log), told, log, errno)
      ensures Stepped(old(V()), ch, p, act, V()) && HeldOk(p, act, V())
      ensures act.Again? || act == Stop(p)
      ensures act.Again? ==> RunKind(state).None? && !Bodied(state)
      ensures act.Stop? ==> errno != OK
    {
      hide Emit, Answered;
      NothingAnswered(replies, told, log);
      hide Step, Stepped, HeldOk, Inv;
      ghost var v := V();
      if ch != LF {
        errno := Strict;
        HeadNotDone(v, ch);
        NotHeld(v, ch, p, V());
        return Stop(p);
      }
      var stop;
      if flags.trailing {
        state := Msg(MessageDone);
        stop := Notify(ChunkComplete);
        TrailersEnd(v, p, V());
      } else {
        state := Msg(HeadersDone);
        line := line.(upgrade := (flags.upgrade && flags.connUpgrade) || line.verb == CONNECT);
        // an answer of 1 says that the message has no body
        if app.heads in app.skips {
          flags := flags.(skipBody := true);
        }
        app := app.(heads := app.heads + 1);
        stop := Notify(HeadersComplete(Head(line, flags.chunked, contentLength, flags.close, flags.keepAlive,
                                            flags.skipBody)));
        HeadersEnd(v, p, V());
      }
      act := if stop then Stop(p) else Again;
    }

    // UPDATE_STATE(NEW_MESSAGE()); CALLBACK_NOTIFY(message_complete)
    method FinishMessage(leave: bool, p: nat) returns (act: Act)
      requires errno == OK && !app.left
      modifies `state, `app, `errno, `told, `log
      ensures Answered(replies, old(told), old(log), told, log, errno)
      ensures errno == OK || ByCallback(errno)
      ensures V().(errno := OK) == Leave(Complete(old(V())), leave)
      ensures act == if errno != OK || leave then Stop(p + 1) else Next
    {
      hide Answered;
      NothingAnswered(replies, told, log);
      state := NewMessage(V());
      app := app.(left := leave);
      var stop := Notify(MessageComplete);
      act := if stop || leave then Stop(p + 1) else Next;
    }

    // s_headers_done
    method HeadersDoneByte(ch: char, p: nat) returns (act: Act)
      requires errno == OK && !app.left && state == Msg(HeadersDone)
      modifies `state, `nread, `app, `errno, `told, `log
      ensures Answered(replies, old(told), old(log), told, log, errno)
      ensures !act.Again? && Stepped(old(V()), ch, p, act, V())
      ensures act == Stop(p) ==> !ByCallback(errno)
      ensures if act == Stop(p) then nread == old(nread) else nread == 0 && ch == LF
      ensures act.Next? ==> RunKind(state).None?
    {
      hide Emit, Answered;
      NothingAnswered(replies, told, log);
      hide StepResponseLine, StepRequestLine, StepUrl, StepChunk, StepHeader, StepHeadersAlmostDone, StepIdentity;
      if ch != LF {
        errno := Strict;
        return Stop(p);
      }
      nread := 0;
      act := Next;
      if line.upgrade && (line.verb == CONNECT || flags.skipBody || !HasBody(V())) {
        act := FinishMessage(true, p);
      } else if flags.skipBody {
        act := FinishMessage(false, p);
      } else if flags.chunked {
        state := Chunk(SizeStart);
      } else if contentLength == 0 {
        act := FinishMessage(false, p);
      } else if contentLength != ULLONG_MAX {
        state := Msg(Identity);
      } else if !NeedsEof(V()) {
        act := FinishMessage(false, p);
      } else {
        state := Msg(IdentityEof);
      }
    }

    // s_message_done
    method MessageDoneByte(ch: char, p: nat) returns (act: Act)
      requires errno == OK && !app.left && state == Msg(MessageDone)
      modifies `state, `app, `errno, `told, `log
      ensures Answered(replies, old(told), old(log), told, log, errno)
      ensures !act.Again? && Stepped(old(V()), ch, p, act, V())
      ensures act == Stop(p) ==> !ByCallback(errno)
      ensures act.Next? ==> RunKind(state).None? && !Bodied(state)
    {
      hide Answered;
      NothingAnswered(replies, told, log);
      hide StepResponseLine, StepRequestLine, StepUrl, StepChunk, StepHeader, StepHeadersAlmostDone, StepHeadersDone;
      hide StepIdentity;
      act := FinishMessage(line.upgrade, p);
    }

    // s_chunk_size_almost_done
    method SizeAlmostDoneByte(ch: char, p: nat) returns (act: Act)
      requires errno == OK && !app.left && state == Chunk(SizeAlmostDone)
      modifies `state, `nread, `flags, `errno, `told, `log
      ensures Answered(replies, old(told), old(log), told, log, errno)
      ensures !act.Again? && Stepped(old(V()), ch, p, act, V())
      ensures act == Stop(p) ==> !ByCallback(errno)
      ensures act.Next? ==> RunKind(state).None?
      ensures if act == Stop(p) then nread == old(nread) else nread == 0 && ch == LF
      ensures act.Stop? ==> errno != OK
    {
      hide Emit, Answered;
      NothingAnswered(replies, told, log);
      hide StepResponseLine, StepRequestLine, StepUrl, StepHeader, StepMsg, StepChunkSize, StepChunkData;
      if ch != LF {
        errno := Strict;
        return Stop(p);
      }
      nread := 0;
      if contentLength == 0 {
        flags := flags.(trailing := true);
        state := Hdr(FieldStart);
      } else {
        state := Chunk(ChunkData);
      }
      var stop := Notify(ChunkHeader(contentLength));
      act := if stop then Stop(p + 1) else Next;
    }

    // s_chunk_data_almost_done and s_chunk_data_done
    method DataEndByte(data: string, p: nat, m: Marks) returns (act: Act, m': Marks)
      requires p < |data| && errno == OK && !app.left && MarksOk(m, state, p)
      requires state == Chunk(DataAlmostDone) || state == Chunk(DataDone)
      modifies `state, `nread, `errno, `told, `log
      ensures Answered(replies, old(told), old(log), told, log, errno)
      ensures !act.Again? && Stepped(old(Seen(m, data, p)), data[p], p, act, After(act, m', data, p))
      ensures act == Stop(p) ==> !ByCallback(errno)
      ensures act.Next? ==> MarksOk(m', state, p + 1)
      ensures if act == Stop(p) || old(state) == Chunk(DataAlmostDone) then nread == old(nread)
              else nread == 0 && data[p] == LF
      ensures act.Stop? ==> errno != OK
      ensures m'.body.Some? ==> act.Stop?
    {
      hide Answered;
      NothingAnswered(replies, told, log);
      hide Step, Stepped;
      ghost var v := Seen(m, data, p);
      DataEndStep(v, data[p]);
      var stop;
      if state == Chunk(DataAlmostDone) {
        if data[p] != CR {
          errno := Strict;
          Takes(v, data[p], p, Seen(m, data, p));
          return Stop(p), m;
        }
        state := Chunk(DataDone);
        stop := Deliver(Events.Body, m.body, data, p);
      } else {
        if data[p] != LF {
          errno := Strict;
          Takes(v, data[p], p, Seen(m, data, p));
          return Stop(p), m;
        }
        nread := 0;
        state := Chunk(SizeStart);
        stop := Notify(ChunkComplete);
      }
      Takes(v, data[p], p, V());
      return if stop then Stop(p + 1) else Next, m.(body := None);
    }

    // The switch in the inner loop of s_header_field; c is a token byte, so no space.
    method MatchName(c: char)
      requires c != ' '
      modifies `hstate, `index
      ensures hstate == NameNext(old(hstate), old(index), c)
      ensures index == if Counts(old(hstate)) then old(index) + 1 else old(index)
    {
      match hstate {
        case C =>
          index := index + 1;
          hstate := if c == 'o' then CO else General;
        case CO =>
          index := index + 1;
          hstate := if c == 'n' then CON else General;
        case CON =>
          index := index + 1;
          hstate := if c == 'n' then MatchingConnection else if c == 't' then MatchingContentLength else General;
        case MatchingConnection =>
          index := index + 1;
          hstate := MatchAt(CONNECTION_NAME, index, c, hstate, Connection, General);
        case MatchingProxyConnection =>
          index := index + 1;
          hstate := MatchAt(PROXY_CONNECTION_NAME, index, c, hstate, Connection, General);
        case MatchingContentLength =>
          index := index + 1;
          hstate := MatchAt(CONTENT_LENGTH_NAME, index, c, hstate, ContentLength, General);
        case MatchingTransferEncoding =>
          index := index + 1;
          hstate := MatchAt(TRANSFER_ENCODING_NAME, index, c, hstate, TransferEncoding, General);
        case MatchingUpgrade =>
          index := index + 1;
          hstate := MatchAt(UPGRADE_NAME, index, c, hstate, Upgrade, General);
        case _ => hstate := General;
      }
    }

    // The inner loop of s_header_field
    method NameLoop(data: string, p: nat, m: Marks, ghost c: nat) returns (q: nat, ghost last: View)
      requires p < |data| && errno == OK && !app.left && state == Hdr(FieldName) && MarksOk(m, state, p)
      requires Inv(Seen(m, data, p))
      modifies `hstate, `index
      ensures p <= q <= |data| && Ran(old(Seen(m, data, p)), c, data, p, q, Seen(m, data, q))
      ensures !Halted(Seen(m, data, q))
      ensures (forall j :: p <= j < q ==> IsToken(data[j])) && (q < |data| ==> !IsToken(data[q]))
      ensures q > p ==> Ran(old(Seen(m, data, p)), c, data, p, q - 1, last) && last.state == Hdr(FieldName) &&
                        Step(last, data[q - 1]) == Seen(m, data, q)
    {
      hide Step, Ran, Inv, NameNext, Counts;
      ghost var before := Seen(m, data, p);
      RanNothing(before, c, data, p);
      RanWithin(before, c, data, p, p, before);
      q, last := p, before;
      while q < |data| && IsToken(data[q])
        invariant p <= q <= |data| && forall j :: p <= j < q ==> IsToken(data[j])
        invariant Ran(before, c, data, p, q, Seen(m, data, q)) && Inv(Seen(m, data, q)) && !Halted(Seen(m, data, q))
        invariant q > p ==> Ran(before, c, data, p, q - 1, last) && last.state == Hdr(FieldName) &&
                            Step(last, data[q - 1]) == Seen(m, data, q)
      {
        last := Seen(m, data, q);
        RanName(before, c, data, p, q, last);
        SliceGrows(log, Field, data, m.field.value, q);
        MatchName(Token(data[q]));
        q := q + 1;
      }
    }

    // The byte after a name
    method EndName(data: string, q: nat, m: Marks) returns (act: Act, m': Marks)
      requires q < |data| && !IsToken(data[q]) && errno == OK && !app.left
      requires state == Hdr(FieldName) && MarksOk(m, state, q)
      modifies `state, `errno, `told, `log
      ensures Answered(replies, old(told), old(log), told, log, errno)
      ensures Stepped(old(Seen(m, data, q)), data[q], q, act, After(act, m', data, q))
      ensures !act.Again? && (act == Stop(q) ==> !ByCallback(errno)) && errno != HeaderOverflow
      ensures act.Next? ==> errno == OK && state == Hdr(DiscardWs) && MarksOk(m', state, q + 1)
      ensures m'.body == m.body
    {
      hide Answered;
      NothingAnswered(replies, told, log);
      hide Step, Stepped, IsToken;
      ghost var w := Seen(m, data, q);
      NameEnd(w, data[q]);
      if data[q] == ':' {
        state := Hdr(DiscardWs);
        var stop := Deliver(Field, m.field, data, q);
        Takes(w, data[q], q, V());
        return if stop then Stop(q + 1) else Next, m.(field := None);
      }
      errno := InvalidHeaderToken;
      Takes(w, data[q], q, Seen(m, data, q));
      return Stop(q), m;
    }

    // s_header_field: the bytes of the name are counted at once, after the loop. w is the view at q.
    method NameBytes(data: string, p: nat, m: Marks, ghost c: nat)
      returns (act: Act, q: nat, m': Marks, ghost w: View)
      requires p < |data| && errno == OK && !app.left && state == Hdr(FieldName) && MarksOk(m, state, p)
      requires Inv(Seen(m, data, p)) && nread == c + 1 <= MAX_HEADER_SIZE
      modifies `state, `hstate, `index, `nread, `errno, `told, `log
      ensures Answered(replies, old(told), old(log), told, log, errno)
      ensures p <= q <= |data| && Ran(old(Seen(m, data, p)), c, data, p, q, w) && w.state == Hdr(FieldName)
      ensures errno != HeaderOverflow ==>
                && q < |data| && Stepped(w, data[q], q, act, After(act, m', data, q))
                && c + (q - p) + 1 <= MAX_HEADER_SIZE
      ensures act.Next? ==> c + (q - p) + 1 <= MAX_HEADER_SIZE && MarksOk(m', state, q + 1)
      ensures errno != HeaderOverflow ==> nread <= MAX_HEADER_SIZE
      ensures act.Next? ==> nread == c + (q - p) + 1 + if q + 1 == |data| && state == old(state) then 1 else 0
      ensures !act.Again? && (act == Stop(q) ==> !ByCallback(errno)) && (act.Next? ==> errno == OK)
      ensures m'.body == m.body
      ensures act.Stop? && ByCallback(errno) ==> nread == c + (q - p) + 1 && !IsToken(data[q])
      ensures errno == HeaderOverflow ==>
                && act == Stop(q) && c + (q - p) + 1 > MAX_HEADER_SIZE && Overrun(w, Seen(m', data, q))
                && TextTo(w.state, data, p, q, q)
    {
      hide Answered;
      NothingAnswered(replies, told, log);
      hide Step, Stepped, Run, Count, Peak, Longest, Ran, Inv, NameNext, IsToken;
      ghost var last;
      q, last := NameLoop(data, p, m, c);
      m', w := m, Seen(m, data, q);
      CountHeader(q - p);
      if errno != OK {
        return Stop(q), q, m, w;
      }
      if q == |data| {
        q := q - 1;
        RanWithin(old(Seen(m, data, p)), c, data, p, q, last);
        Takes(last, data[q], q, w);
        return Next, q, m, last;
      }
      act, m' := EndName(data, q, m);
    }

    // The arms of the inner switch of s_header_value for the recognised values.
    method MatchValue(ch: char, h: HeaderState) returns (h': HeaderState)
      requires !h.ContentLength?
      modifies `index, `flags
      ensures h' == ValueNext(h, old(index), ch) && index == IndexNext(h, old(index), ch)
      ensures flags == FlagsNext(old(flags), h, ch)
    {
      hide Lower, Token;
      var c := Lower(ch);
      h' := h;
      match h {
        case MatchingChunked =>
          index := index + 1;
          h' := MatchAt(CHUNKED_NAME, index, c, h, Chunked, General);
        case MatchingTokenStart =>
          if c == 'k' {
            h' := MatchingKeepAlive;
          } else if c == 'c' {
            h' := MatchingClose;
          } else if c == 'u' {
            h' := MatchingConnUpgrade;
          } else if IsToken(c) {
            h' := MatchingToken;
          } else if c != ' ' && c != '\t' {
            h' := General;
          }
        case MatchingKeepAlive =>
          index := index + 1;
          h' := MatchAt(KEEP_ALIVE_NAME, index, c, h, KeepAlive, MatchingToken);
        case MatchingClose =>
          index := index + 1;
          h' := MatchAt(CLOSE_NAME, index, c, h, Close, MatchingToken);
        case MatchingConnUpgrade =>
          index := index + 1;
          h' := MatchAt(UPGRADE_NAME, index, c, h, ConnUpgrade, MatchingToken);
        case MatchingToken =>
          if ch == ',' {
            h', index := MatchingTokenStart, 0;
          }
        case Chunked =>
          if ch != ' ' {
            h' := General;
          }
        case KeepAlive => h' := EndElement(ch, h);
        case Close => h' := EndElement(ch, h);
        case ConnUpgrade => h' := EndElement(ch, h);
        case _ => h' := General;
      }
    }

    // A byte after a keyword of a Connection list
    method EndElement(ch: char, h: HeaderState) returns (h': HeaderState)
      requires IsKeyword(h)
      modifies `index, `flags
      ensures h' == AfterKeyword(h, ch) && index == IndexNext(h, old(index), ch)
      ensures flags == FlagsNext(old(flags), h, ch)
    {
      h' := h;
      if ch == ',' {
        if h.KeepAlive? {
          flags := flags.(keepAlive := true);
        } else if h.Close? {
          flags := flags.(close := true);
        } else {
          flags := flags.(connUpgrade := true);
        }
        h', index := MatchingTokenStart, 0;
      } else if ch != ' ' {
        h' := MatchingToken;
      }
    }

    // The inner switch of s_header_value; h is the local copy of header_state, t stands for the trace.
    method ValueByte(ch: char, h: HeaderState, ghost t: Trace) returns (h': HeaderState)
      requires errno == OK && !app.left && state == Hdr(FieldValue) && !IsEol(ch)
      modifies `index, `flags, `contentLength, `errno
      ensures errno == StepValue(old(With(t)).(hstate := h), ch).errno
      ensures errno == OK ==>
                With(Emit(t, Data(Events.Value, [ch]))).(hstate := h') == StepValue(old(With(t)).(hstate := h), ch)
      ensures errno != OK ==>
                errno == InvalidContentLength && With(t).(hstate := h') == StepValue(old(With(t)).(hstate := h), ch)
    {
      hide Wrap64, Digit;
      h' := h;
      if h.ContentLength? {
        if ch != ' ' {
          if !IsNum(ch) {
            errno := InvalidContentLength;
            return;
          }
          var n := Wrap64(contentLength * 10 + Digit(ch));
          if LENGTH_GUARD < contentLength {
            errno := InvalidContentLength;
            return;
          }
          contentLength := n;
        }
      } else {
        h' := MatchValue(ch, h);
        hide ValueNext, FlagsNext, IndexNext;
      }
    }

    // The inner loop of s_header_value, up to an end of line. w is the view at r; r is q unless
    // the jump gave up the search, and then more than the budget has been read.
    method ValueLoop(data: string, p: nat, m: Marks, ghost c: nat)
      returns (q: nat, h: HeaderState, ghost r: nat, ghost w: View, ghost last: View)
      requires p < |data| && errno == OK && !app.left && state == Hdr(FieldValue) && MarksOk(m, state, p)
      requires Inv(Seen(m, data, p))
      modifies `index, `flags, `contentLength, `errno
      ensures p <= r <= q <= |data| && Ran(old(Seen(m, data, p)), c, data, p, r, w)
      ensures w.state == Hdr(FieldValue) && !Halted(w) && Inv(w)
      ensures r == q || (q == |data| && errno == OK && r - p >= MAX_HEADER_SIZE)
      ensures errno == OK ==> w == Seen(m, data, r).(hstate := h) && (q < |data| ==> IsEol(data[q]))
      ensures forall j :: p <= j < r ==> !IsEol(data[j])
      ensures errno == OK && p < r == q ==>
                Ran(old(Seen(m, data, p)), c, data, p, q - 1, last) && last.state == Hdr(FieldValue) &&
                Step(last, data[q - 1]) == w
      ensures errno != OK ==> errno == InvalidContentLength && r == q < |data|
      ensures errno != OK ==> Seen(m, data, q).(hstate := h) == Step(w, data[q])
    {
      hide Step, Run, Count, Peak, Longest, Inv, Ran, StepValue, Jump;
      ghost var before := Seen(m, data, p);
      RanNothing(before, c, data, p);
      q, h, r, w, last := p, hstate, p, before, before;
      while q < |data| && !IsEol(data[q])
        invariant p <= r <= q <= |data| && errno == OK
        invariant Ran(before, c, data, p, r, w) && Inv(w) && w.state == Hdr(FieldValue) && !Halted(w)
        invariant r == q || (q == |data| && r - p >= MAX_HEADER_SIZE)
        invariant w == Seen(m, data, r).(hstate := h)
        invariant forall j :: p <= j < r ==> !IsEol(data[j])
        invariant p < r == q ==> Ran(before, c, data, p, q - 1, last) && last.state == Hdr(FieldValue) &&
                                 Step(last, data[q - 1]) == w
      {
        if h.General? {
          r, w, last := Jumped(before, c, data, p, q, w, log, m.val.value);
          q := Jump(data, q);
        } else {
          last := w;
          ValueStep(w, data[q]);
          h := ValueByte(data[q], h, Pending(log, m, data, q));
          if errno != OK {
            return;
          }
          SliceGrows(log, Events.Value, data, m.val.value, q);
          w := RanValue(before, c, data, p, q, w);
          q := q + 1;
          r := q;
        }
      }
    }

    // The line feed that ends a value is not consumed; the carriage return is, and counted later.
    method EndValue(data: string, p: nat, q: nat, m: Marks, h: HeaderState, ghost c: nat, ghost w: View)
      returns (act: Act, m': Marks)
      requires p <= q < |data| && IsEol(data[q]) && errno == OK && !app.left && nread == c + 1 <= MAX_HEADER_SIZE
      requires state == Hdr(FieldValue) && MarksOk(m, state, q)
      requires w == Seen(m, data, q).(hstate := h) && Inv(w)
      modifies `state, `hstate, `nread, `errno, `told, `log
      ensures Answered(replies, old(told), old(log), told, log, errno)
      ensures errno != HeaderOverflow ==>
                Stepped(w, data[q], q, act, After(act, m', data, q)) && HeldOk(q, act, After(act, m', data, q))
      ensures act.Next? || act.Again? ==> errno == OK && MarksOk(m', state, q)
      ensures act.Again? ==> nread == c + (q - p) + 1 <= MAX_HEADER_SIZE && state == Hdr(HeaderAlmostDone)
      ensures errno != HeaderOverflow ==> nread <= MAX_HEADER_SIZE
      ensures act.Next? ==> nread == c + 1 && state == Hdr(HeaderAlmostDone) && hstate == h
      ensures act.Next? ==> Seen(m', data, q) == w.(state := Hdr(HeaderAlmostDone)) && data[q] == CR
      ensures act.Stop? && ByCallback(errno) ==> nread + Missing(w, p, q, act) == c + (q - p) + 1
      ensures errno != HeaderOverflow ==> LineEnds(data, q, act, w, After(act, m', data, q))
      ensures act == Stop(q + 1) && ByCallback(errno) ==> data[q] == CR
      ensures errno == HeaderOverflow ==>
                act == Stop(q) && c + (q - p) + 1 > MAX_HEADER_SIZE && Overrun(w, Seen(m', data, q))
      ensures m'.body == m.body
    {
      hide Answered;
      NothingAnswered(replies, told, log);
      hide Step, Inv, Stepped, HeldOk;
      state := Hdr(HeaderAlmostDone);
      if data[q] == LF {
        CountHeader(q - p);
        if errno != OK {
          return Stop(q), m;
        }
      }
      hstate := h;
      m' := m.(val := None);
      var stop := Deliver(Events.Value, m.val, data, q);
      ValueEnds(w, data[q], q, V());
      if data[q] == LF {
        act := if stop then Stop(q) else Again;
      } else {
        act := if stop then Stop(q + 1) else Next;
      }
    }

    // The end of line after a value, and the count after a carriage return
    method FinishValue(data: string, p: nat, q: nat, m: Marks, h: HeaderState, ghost c: nat, ghost w: View)
      returns (act: Act, m': Marks)
      requires p <= q < |data| && IsEol(data[q]) && errno == OK && !app.left && nread == c + 1 <= MAX_HEADER_SIZE
      requires state == Hdr(FieldValue) && MarksOk(m, state, q)
      requires w == Seen(m, data, q).(hstate := h) && Inv(w)
      modifies `state, `hstate, `nread, `errno, `told, `log
      ensures Answered(replies, old(told), old(log), told, log, errno)
      ensures errno != HeaderOverflow ==>
                Stepped(w, data[q], q, act, After(act, m', data, q)) && HeldOk(q, act, After(act, m', data, q))
      ensures act.Next? || act.Again? ==>
                errno == OK && MarksOk(m', state, q) && nread == c + (q - p) + 1 && state == Hdr(HeaderAlmostDone)
      ensures errno != HeaderOverflow ==> nread <= MAX_HEADER_SIZE
      ensures act.Stop? && ByCallback(errno) ==> nread + Missing(w, p, q, act) == c + (q - p) + 1
      ensures errno != HeaderOverflow ==> LineEnds(data, q, act, w, After(act, m', data, q))
      ensures act == Stop(q + 1) && ByCallback(errno) ==> data[q] == CR
      ensures errno == HeaderOverflow ==>
                act == Stop(q) && c + (q - p) + 1 > MAX_HEADER_SIZE && Overrun(w, Seen(m', data, q))
      ensures m'.body == m.body
    {
      hide Pending, Step, Inv, Stepped, HeldOk, Answered, LineEnds, Missing;
      act, m' := EndValue(data, p, q, m, h, c, w);
      if act.Next? {
        CountHeader(q - p);
        if errno != OK {
          AnsweredStill(replies, old(told), old(log), told, log, HeaderOverflow);
          act := Stop(q);
        }
      }
    }

    // The end of the buffer inside a value; its last byte is what the pass ends at.
    method CutValue(data: string, p: nat, m: Marks, h: HeaderState, ghost c: nat, ghost w: View, ghost r: nat,
                    ghost last: View, ghost before: View)
      returns (act: Act, q: nat, ghost r': nat, ghost w': View)
      requires p < |data| && errno == OK && !app.left && state == Hdr(FieldValue) && MarksOk(m, state, p)
      requires p <= r <= |data| && Ran(before, c, data, p, r, w) && w == Seen(m, data, r).(hstate := h)
      requires r == |data| || r - p >= MAX_HEADER_SIZE
      requires r == |data| ==>
                 Ran(before, c, data, p, |data| - 1, last) && last.state == Hdr(FieldValue) &&
                 Step(last, data[|data| - 1]) == w
      requires nread == c + 1 <= MAX_HEADER_SIZE
      modifies `hstate, `nread, `errno
      ensures p <= r' <= q <= |data| && Ran(before, c, data, p, r', w') && w'.state == Hdr(FieldValue)
      ensures errno == OK || errno == HeaderOverflow
      ensures errno == OK ==>
                && act.Next? && r' == q && q + 1 == |data| && Stepped(w', data[q], q, Next, Seen(m, data, q + 1))
                && c + (q - p) + 2 == nread <= MAX_HEADER_SIZE && HeldOk(q, Next, Seen(m, data, q + 1))
                && LineEnds(data, q, Next, w', Seen(m, data, q + 1))
      ensures errno == HeaderOverflow ==>
                && act == Stop(q) && c + (r' - p) + 1 > MAX_HEADER_SIZE
                && Overrun(w', Seen(m, data, r')) && r' == r && q == |data|
    {
      hide Step, Stepped, Ran, Run, Count, Peak, Longest;
      hstate := h;
      q, r', w' := |data|, r, w;
      CountHeader(q - p);
      if errno != OK {
        return Stop(q), q, r, w;
      }
      q := q - 1;
      RanWithin(before, c, data, p, q, last);
      Takes(last, data[q], q, w);
      return Next, q, q, last;
    }

    // s_header_value: w is the view at r, the last offset the one-byte parser is followed to.
    method ValueBytes(data: string, p: nat, m: Marks, ghost c: nat)
      returns (act: Act, q: nat, m': Marks, ghost r: nat, ghost w: View)
      requires p < |data| && errno == OK && !app.left && state == Hdr(FieldValue) && MarksOk(m, state, p)
      requires Inv(Seen(m, data, p)) && nread == c + 1 <= MAX_HEADER_SIZE
      modifies `state, `hstate, `index, `flags, `contentLength, `nread, `errno, `told, `log
      ensures Answered(replies, old(told), old(log), told, log, errno)
      ensures p <= r <= q <= |data| && Ran(old(Seen(m, data, p)), c, data, p, r, w) && w.state == Hdr(FieldValue)
      ensures errno != HeaderOverflow ==>
                r == q < |data| && Stepped(w, data[q], q, act, After(act, m', data, r))
      ensures errno != HeaderOverflow ==> HeldOk(q, act, After(act, m', data, r))
      ensures act.Next? || act.Again? ==> errno == OK && c + (q - p) + 1 <= MAX_HEADER_SIZE
      ensures act.Next? ==> c + (q - p) + 1 <= MAX_HEADER_SIZE && MarksOk(m', state, q + 1)
      ensures errno != HeaderOverflow ==> nread <= MAX_HEADER_SIZE
      ensures act.Next? ==> nread == c + (q - p) + 1 + if q + 1 == |data| && state == old(state) then 1 else 0
      ensures act.Again? ==> nread == c + (q - p) + 1 && MarksOk(m', state, q)
      ensures act.Stop? && ByCallback(errno) ==>
                nread + Missing(w, p, q, act) == c + (q - p) + 1 && StopsValue(data, p, q, act)
      ensures errno != HeaderOverflow ==> LineEnds(data, q, act, w, After(act, m', data, r))
      ensures errno == HeaderOverflow ==>
                && act == Stop(q) && c + (r - p) + 1 > MAX_HEADER_SIZE && Overrun(w, After(act, m', data, r))
                && TextTo(w.state, data, p, r, q)
      ensures m'.body == m.body
    {
      hide Step, Stepped, HeldOk, Run, Count, Peak, Longest, Ran, Inv, Missing, Answered, LineEnds, Overrun, Pending;
      var h;
      ghost var last;
      q, h, r, w, last := ValueLoop(data, p, m, c);
      m', act := m, Next;
      if q == |data| || errno != OK {
        NothingAnswered(replies, told, log);
      }
      if errno != OK {
        hstate := h;
        NotHeld(w, data[q], q, Seen(m, data, q));
        ErrorEnds(data, q, w, Seen(m, data, q));
        return Stop(q), q, m, r, w;
      }
      if q < |data| {
        act, m' := FinishValue(data, p, q, m, h, c, w);
        return;
      }
      act, q, r, w := CutValue(data, p, m, h, c, w, r, last, old(Seen(m, data, p)));
    }

    // s_body_identity_eof: all the bytes there are.
    method EofBytes(data: string, p: nat, m: Marks) returns (q: nat, m': Marks, ghost w: View)
      requires p < |data| && errno == OK && !app.left && MarksOk(m, state, p) && m.body.None?
      requires state == Msg(IdentityEof)
      ensures p <= q < |data| && Run(Seen(m, data, p), data, p, q) == w && !Halted(w) && w.state == state
      ensures q + 1 == |data|
      ensures Stepped(w, data[q], q, Next, After(Next, m', data, q)) && MarksOk(m', state, q + 1)
    {
      hide StepResponseLine, StepRequestLine, StepUrl, StepHeader, StepChunk, StepHeadersAlmostDone, StepHeadersDone;
      m' := m.(body := Some(p));
      q := |data| - 1;
      w := BodyRan(Seen(m, data, p), data, p, q);
    }

    // s_chunk_data: as many bytes of the chunk as there are, at once.
    method ChunkBytes(data: string, p: nat, m: Marks) returns (q: nat, m': Marks, ghost w: View)
      requires p < |data| && errno == OK && !app.left && MarksOk(m, state, p) && m.body.None?
      requires state == Chunk(ChunkData) && contentLength > 0
      modifies `state, `contentLength
      ensures p <= q < |data| && Run(old(Seen(m, data, p)), data, p, q) == w && !Halted(w) && w.state == old(state)
      ensures q - p < old(contentLength) && (q + 1 < |data| ==> state == Chunk(DataAlmostDone))
      ensures Stepped(w, data[q], q, Next, After(Next, m', data, q)) && MarksOk(m', state, q + 1)
    {
      hide StepResponseLine, StepRequestLine, StepUrl, StepHeader, StepMsg, StepChunkSizeStart, StepChunkSize;
      hide StepChunkSizeAlmostDone;
      m' := m.(body := Some(p));
      var toRead := if contentLength < |data| - p then contentLength else |data| - p;
      q := p + toRead - 1;
      w := BodyRan(Seen(m, data, p), data, p, q);
      contentLength := contentLength - toRead;
      if contentLength == 0 {
        state := Chunk(DataAlmostDone);
      }
    }

    // s_body_identity: the last byte of the body is seen again to complete the message.
    method IdentityBytes(data: string, p: nat, m: Marks) returns (act: Act, q: nat, m': Marks, ghost w: View)
      requires p < |data| && errno == OK && !app.left && MarksOk(m, state, p) && m.body.None?
      requires state == Msg(Identity) && contentLength > 0
      requires Inv(Seen(m, data, p))
      modifies `state, `contentLength, `errno, `told, `log
      ensures Answered(replies, old(told), old(log), told, log, errno)
      ensures p <= q < |data| && Run(old(Seen(m, data, p)), data, p, q) == w && !Halted(w) && w.state == old(state)
      ensures q - p < old(contentLength) && (act.Next? ==> q + 1 == |data|) && (act.Stop? ==> ByCallback(errno))
      ensures act.Again? ==> m'.body.None?
      ensures Stepped(w, data[q], q, act, After(act, m', data, q)) && HeldOk(q, act, After(act, m', data, q))
      ensures act.Next? ==> errno == OK && MarksOk(m', state, q + 1)
      ensures act.Again? ==> errno == OK && MarksOk(m', state, q)
    {
      hide Answered;
      NothingAnswered(replies, told, log);
      hide Emit, Slice, ParsingHeader, Step, Run, Inv, Stepped, HeldOk;
      m', act := m.(body := Some(p)), Next;
      var toRead := if contentLength < |data| - p then contentLength else |data| - p;
      q := p + toRead - 1;
      w := BodyRan(Seen(m, data, p), data, p, q);
      IdentityNext(w, data[q], q);
      contentLength := contentLength - toRead;
      if contentLength == 0 {
        state := Msg(MessageDone);
        BodyRead(old(Seen(m, data, p)), With(Emit(log, Data(Events.Body, Slice(data, p, q + 1)))));
        var stop := Deliver(Events.Body, m'.body, data, q + 1);
        IdentityLast(w, data[q], q, V());
        return if stop then Stop(q) else Again, q, m, w;
      }
    }

    // The switch, for the first line of a message.
    method SwitchLine(data: string, p: nat, m: Marks) returns (act: Act, m': Marks)
      requires p < |data| && errno == OK && !app.left && MarksOk(m, state, p) && Inv(Seen(m, data, p))
      requires state.Dead? || state.Res? || state.Req? || state.InUrl?
      requires 0 < nread <= MAX_HEADER_SIZE
      modifies `line, `flags, `state, `hstate, `index, `contentLength, `errno, `told, `log
      ensures Answered(replies, old(told), old(log), told, log, errno)
      ensures Passed(old(Seen(m, data, p)), old(nread), data, p, act, p, p, old(Seen(m, data, p)),
                     After(act, m', data, p), nread)
      ensures act.Next? ==> MarksOk(m', state, p + 1)
      ensures act.Again? ==> MarksOk(m', state, p)
      ensures m'.body.None?
    {
      hide Answered;
      NothingAnswered(replies, told, log);
      hide Passed, Step, Inv;
      ghost var before := Seen(m, data, p);
      m' := m;
      if IsPlain(state, data[p]) {
        act := Plain(data[p], p);
      } else {
        match state {
          case Res(r) =>
            if r.StartReqOrRes? {
              act := StartEither(data[p], p);
            } else if r.StartRes? {
              act := StartResponse(data[p], p);
            } else {
              act, m' := StatusByte(data, p, m);
            }
          case Req(_) =>
            act := StartRequest(data[p], p);
          case InUrl(_) =>
            act, m' := UrlByte(data, p, m);
        }
      }
      PassedOne(before, nread, data, p, act, After(act, m', data, p), nread);
    }

    // The switch, for the bytes of the header section taken one at a time.
    method SwitchHeader(data: string, p: nat, m: Marks) returns (act: Act, m': Marks)
      requires p < |data| && errno == OK && !app.left && MarksOk(m, state, p) && Inv(Seen(m, data, p))
      requires state.Hdr? && !state.hdr.FieldName? && !state.hdr.FieldValue?
      requires 0 < nread <= MAX_HEADER_SIZE
      modifies `line, `flags, `state, `hstate, `index, `contentLength, `errno, `told, `log
      ensures Answered(replies, old(told), old(log), told, log, errno)
      ensures Passed(old(Seen(m, data, p)), old(nread), data, p, act, p, p, old(Seen(m, data, p)),
                     After(act, m', data, p), nread)
      ensures act.Next? ==> MarksOk(m', state, p + 1)
      ensures act.Again? ==> MarksOk(m', state, p)
      ensures m'.body.None?
    {
      hide Answered;
      NothingAnswered(replies, told, log);
      hide Passed, Step, Inv;
      ghost var before := Seen(m, data, p);
      m' := m;
      if IsPlain(state, data[p]) {
        act := Plain(data[p], p);
      } else if state == Hdr(FieldStart) {
        act, m' := FieldStartByte(data, p, m);
      } else if state == Hdr(DiscardLws) {
        act := DiscardLwsByte(data[p], p);
      } else if state == Hdr(ValueLws) {
        act := ValueLwsByte(data[p], p);
      } else {
        act, m' := ValueStartByte(data, p, m);
      }
      PassedOne(before, nread, data, p, act, After(act, m', data, p), nread);
    }

    // The switch, for header names
    method SwitchName(data: string, p: nat, m: Marks) returns (act: Act, q: nat, m': Marks, ghost w: View)
      requires p < |data| && errno == OK && !app.left && MarksOk(m, state, p) && Inv(Seen(m, data, p))
      requires state == Hdr(FieldName) && 0 < nread <= MAX_HEADER_SIZE
      modifies `state, `hstate, `index, `nread, `errno, `told, `log
      ensures Answered(replies, old(told), old(log), told, log, errno)
      ensures Passed(old(Seen(m, data, p)), old(nread), data, p, act, q, q, w, After(act, m', data, q), nread)
      ensures !act.Again? && (act.Next? ==> MarksOk(m', state, q + 1))
      ensures m'.body.None?
    {
      hide Pending, Answered;
      NothingAnswered(replies, told, log);
      hide Step, Inv, Ran, Passed, Stepped;
      ghost var before, n := Seen(m, data, p), nread;
      act, q, m', w := NameBytes(data, p, m, nread - 1);
      PassedMany(before, n, data, p, act, q, q, w, After(act, m', data, q), nread);
    }

    // and values.
    method SwitchValue(data: string, p: nat, m: Marks)
      returns (act: Act, q: nat, m': Marks, ghost r: nat, ghost w: View)
      requires p < |data| && errno == OK && !app.left && MarksOk(m, state, p) && Inv(Seen(m, data, p))
      requires state == Hdr(FieldValue) && 0 < nread <= MAX_HEADER_SIZE
      modifies `state, `hstate, `index, `flags, `contentLength, `nread, `errno, `told, `log
      ensures Answered(replies, old(told), old(log), told, log, errno)
      ensures Passed(old(Seen(m, data, p)), old(nread), data, p, act, q, r, w, After(act, m', data, r), nread)
      ensures act.Next? ==> MarksOk(m', state, q + 1)
      ensures act.Again? ==> MarksOk(m', state, q)
      ensures m'.body.None?
    {
      hide Pending, Answered;
      NothingAnswered(replies, told, log);
      hide Step, Inv, Ran, Passed, HeldOk, Stepped, LineEnds, StopsValue, Missing, Overrun, TextTo;
      ghost var before, n := Seen(m, data, p), nread;
      act, q, m', r, w := ValueBytes(data, p, m, nread - 1);
      PassedMany(before, n, data, p, act, q, r, w, After(act, m', data, r), nread);
    }

    // The switch, for chunks
    method SwitchChunk(data: string, p: nat, m: Marks) returns (act: Act, q: nat, m': Marks, ghost w: View)
      requires p < |data| && errno == OK && !app.left && MarksOk(m, state, p) && Inv(Seen(m, data, p))
      requires state.Chunk?
      requires m.body.Some? ==> state == Chunk(DataAlmostDone)
      requires nread <= MAX_HEADER_SIZE && (ParsingHeader(state) ==> 0 < nread)
      requires state == Chunk(SizeStart) ==> nread == 1
      modifies this
      ensures Answered(replies, old(told), old(log), told, log, errno)
      ensures Passed(old(Seen(m, data, p)), old(nread), data, p, act, q, q, w, After(act, m', data, q), nread)
      ensures act.Next? ==> MarksOk(m', state, q + 1)
      ensures act.Next? && m'.body.Some? && q + 1 < |data| ==> state == Chunk(DataAlmostDone)
      ensures act.Again? ==> MarksOk(m', state, q) && m'.body.None?
    {
      hide Answered;
      NothingAnswered(replies, told, log);
      hide Passed, Step, HasBody, Run;
      ghost var before, n := Seen(m, data, p), nread;
      q, m', w := p, m, before;
      if IsPlain(state, data[p]) {
        act := Plain(data[p], p);
      } else if state == Chunk(SizeAlmostDone) {
        act := SizeAlmostDoneByte(data[p], p);
      } else if state == Chunk(DataAlmostDone) || state == Chunk(DataDone) {
        act, m' := DataEndByte(data, p, m);
      } else {
        q, m', w := ChunkBytes(data, p, m);
        act := Next;
        PassedBody(before, n, data, p, act, q, w, After(act, m', data, q));
        return;
      }
      PassedOne(before, n, data, p, act, After(act, m', data, p), nread);
    }

    // and from the end of the headers on.
    method SwitchMsg(data: string, p: nat, m: Marks) returns (act: Act, q: nat, m': Marks, ghost w: View)
      requires p < |data| && errno == OK && !app.left && MarksOk(m, state, p) && Inv(Seen(m, data, p))
      requires state.Msg? && m.body.None?
      requires nread <= MAX_HEADER_SIZE && (ParsingHeader(state) ==> 0 < nread)
      modifies this
      ensures Answered(replies, old(told), old(log), told, log, errno)
      ensures Passed(old(Seen(m, data, p)), old(nread), data, p, act, q, q, w, After(act, m', data, q), nread)
      ensures act.Next? ==> MarksOk(m', state, q + 1)
      ensures act.Next? && m'.body.Some? ==> q + 1 == |data|
      ensures act.Again? ==> MarksOk(m', state, q) && m'.body.None?
    {
      hide Answered;
      NothingAnswered(replies, told, log);
      hide Passed, Step;
      ghost var before, n := Seen(m, data, p), nread;
      q, m', w := p, m, before;
      match state.msg {
        case HeadersAlmostDone =>
          act := HeadersAlmostDoneByte(data[p], p);
        case HeadersDone =>
          act := HeadersDoneByte(data[p], p);
        case MessageDone =>
          act := MessageDoneByte(data[p], p);
        case Identity =>
          act, q, m', w := IdentityBytes(data, p, m);
          PassedBody(before, n, data, p, act, q, w, After(act, m', data, q));
          return;
        case IdentityEof =>
          q, m', w := EofBytes(data, p, m);
          act := Next;
          PassedBody(before, n, data, p, act, q, w, After(act, m', data, q));
          return;
      }
      PassedOne(before, n, data, p, act, After(act, m', data, p), nread);
    }

    // One pass of the switch.
    method Switch(data: string, p: nat, m: Marks)
      returns (act: Act, q: nat, m': Marks, ghost r: nat, ghost w: View)
      requires p < |data| && errno == OK && !app.left && MarksOk(m, state, p) && Inv(Seen(m, data, p))
      requires m.body.Some? ==> state == Chunk(DataAlmostDone)
      requires nread <= MAX_HEADER_SIZE && (ParsingHeader(state) ==> 0 < nread)
      requires state == Chunk(SizeStart) ==> nread == 1
      modifies this
      ensures Answered(replies, old(told), old(log), told, log, errno)
      ensures Passed(old(Seen(m, data, p)), old(nread), data, p, act, q, r, w, After(act, m', data, r), nread)
      ensures act.Next? ==> MarksOk(m', state, q + 1)
      ensures act.Next? && m'.body.Some? && q + 1 < |data| ==> state == Chunk(DataAlmostDone)
      ensures act.Again? ==> MarksOk(m', state, q) && m'.body.None?
    {
      hide Answered, Passed, Inv, Asserted;
      AssertionsHold(Seen(m, data, p), nread);
      assert Asserted(Seen(m, data, p), nread);
      q, r, w := p, p, Seen(m, data, p);
      if state == Hdr(FieldName) {
        act, q, m', w := SwitchName(data, p, m);
        r := q;
      } else if state == Hdr(FieldValue) {
        act, q, m', r, w := SwitchValue(data, p, m);
      } else if state.Hdr? {
        act, m' := SwitchHeader(data, p, m);
      } else if state.Chunk? {
        act, q, m', w := SwitchChunk(data, p, m);
        r := q;
      } else if state.Msg? {
        act, q, m', w := SwitchMsg(data, p, m);
        r := q;
      } else {
        act, m' := SwitchLine(data, p, m);
      }
    }

    // The passes over data[p]: re-executed until the byte is consumed or the call returns.
    method Passes(data: string, p: nat, m: Marks, ghost v0: View, ghost n0: nat)
      returns (act: Act, q: nat, m': Marks, ghost r: nat)
      requires p < |data| && errno == OK && !app.left && MarksOk(m, state, p) && Inv(Seen(m, data, p))
      requires m.body.Some? ==> state == Chunk(DataAlmostDone)
      requires nread <= MAX_HEADER_SIZE && (ParsingHeader(state) ==> 0 < nread)
      requires state == Chunk(SizeStart) ==> nread == 1
      requires Follows(v0, n0, data, p, Seen(m, data, p), nread)
      modifies this
      ensures Answered(replies, old(told), old(log), told, log, errno)
      ensures !act.Again? && Outcome(v0, n0, data, act, q, After(act, m', data, r), nread)
      ensures Sound(After(act, m', data, r), nread) && r <= q && (errno != HeaderOverflow ==> r == q)
      ensures act.Next? ==> p <= q < |data| && errno == OK && !app.left && MarksOk(m', state, q + 1)
      ensures act.Next? && m'.body.Some? && q + 1 < |data| ==> state == Chunk(DataAlmostDone)
      ensures act.Stop? && !Healthy(errno) ==> act.n == q
      ensures act.Stop? && errno == OK ==> app.left
    {
      hide Answered;
      NothingAnswered(replies, told, log);
      hide Follows, Outcome, Sound, Inv, Passed, MarksOk, Rank;
      act, q, m', r := Again, p, m, p;
      while act.Again?
        invariant p <= q && Answered(replies, old(told), old(log), told, log, errno)
        invariant act.Again? ==>
            && q < |data| && errno == OK && !app.left && MarksOk(m', state, q) && Inv(Seen(m', data, q))
            && (m'.body.Some? ==> state == Chunk(DataAlmostDone))
            && nread <= MAX_HEADER_SIZE && (ParsingHeader(state) ==> 0 < nread)
            && (state == Chunk(SizeStart) ==> nread == 1)
            && Follows(v0, n0, data, q, Seen(m', data, q), nread)
        invariant !act.Again? ==>
            && Outcome(v0, n0, data, act, q, After(act, m', data, r), nread)
            && Sound(After(act, m', data, r), nread) && r <= q && (errno != HeaderOverflow ==> r == q)
            && (act.Next? ==> q < |data| && errno == OK && !app.left && MarksOk(m', state, q + 1))
            && (act.Stop? && !Healthy(errno) ==> act.n == q) && (act.Stop? && errno == OK ==> app.left)
            && (act.Next? && m'.body.Some? && q + 1 < |data| ==> state == Chunk(DataAlmostDone))
        decreases if act.Again? then 1 else 0, |data| - q, Rank(state)
      {
        ghost var before, n, from := Seen(m', data, q), nread, q;
        ghost var w, t, l;
        t, l := told, log;
        act, q, m', r, w := Switch(data, q, m');
        AnsweredOn(replies, old(told), old(log), t, l, told, log, errno);
        Conclude(v0, n0, data, from, before, n, act, q, r, w, After(act, m', data, r), nread);
      }
    }

    // Between calls: the invariant holds, unless the parser has found an error.
    ghost predicate Valid() reads this {
      Sound(V(), nread)
    }

    // The callbacks for the data that is still marked when the buffer ends.
    method Flush(data: string, m: Marks) returns (stop: bool)
      requires errno == OK && MarksOk(m, state, |data|)
      modifies `told, `log, `errno
      ensures Answered(replies, old(told), old(log), told, log, errno)
      ensures log == Pending(old(log), m, data, |data|)
      ensures errno == OK || (ByCallback(errno) && state != Hdr(HeaderAlmostDone))
    {
      hide Answered;
      NothingAnswered(replies, told, log);
      OneMark(m, state, |data|);
      stop := Deliver(Field, m.field, data, |data|);
      if stop { return; }
      ghost var t, l;
      t, l := told, log;
      stop := Deliver(Events.Value, m.val, data, |data|);
      AnsweredOn(replies, old(told), old(log), t, l, told, log, errno);
      if stop { return; }
      t, l := told, log;
      stop := Deliver(Url, m.url, data, |data|);
      AnsweredOn(replies, old(told), old(log), t, l, told, log, errno);
      if stop { return; }
      t, l := told, log;
      stop := Deliver(Events.Body, m.body, data, |data|);
      AnsweredOn(replies, old(told), old(log), t, l, told, log, errno);
      if stop { return; }
      t, l := told, log;
      stop := Deliver(Events.Status, m.status, data, |data|);
      AnsweredOn(replies, old(told), old(log), t, l, told, log, errno);
    }

    // The end of the input
    method EndOfInput() returns (n: nat)
      requires errno == OK && Valid()
      modifies `told, `log, `errno
      ensures Answered(replies, old(told), old(log), told, log, errno)
      ensures Valid()
      ensures Ended(old(V()), n, V())
    {
      hide Answered;
      NothingAnswered(replies, told, log);
      n := 0;
      if state == Msg(IdentityEof) {
        var _ := Notify(MessageComplete);
      } else if !Idle(state) {
        errno := InvalidEofState;
        n := 1;
      }
    }

    // The bytes of a buffer that is not empty. lost are the marks of the data that an error left
    // undelivered, up to seen.
    method Bytes(data: string) returns (n: nat, ghost lost: Marks, ghost seen: nat)
      requires Valid() && errno == OK && !app.left && 0 < |data|
      requires |data| + MAX_HEADER_SIZE < 0x1_0000_0000
      modifies this
      ensures Answered(replies, old(told), old(log), told, log, errno)
      ensures Valid()
      ensures Called(old(V()), old(nread), data, n, if Healthy(errno) then V() else Seen(lost, data, seen), nread)
      ensures seen <= n && (errno != HeaderOverflow ==> seen == n)
    {
      hide Answered;
      NothingAnswered(replies, told, log);
      hide Sound, Called, Between, Outcome, Follows, MarksOk, Pending, Inv, OpenMarks;
      ghost var v0, n0 := V(), nread;
      OpenMarksRight(V(), nread, data);
      Begin(v0, n0, data);
      var p, m := 0, OpenMarks(state);
      while p < |data|
        invariant p <= |data| && errno == OK && MarksOk(m, state, p)
        invariant m.body.Some? && p < |data| ==> state == Chunk(DataAlmostDone)
        invariant Between(v0, n0, data, p, Seen(m, data, p), nread)
        invariant Answered(replies, old(told), old(log), told, log, errno)
      {
        ghost var at, count := Seen(m, data, p), nread;
        CountByte(v0, n0, data, p, at, count);
        if ParsingHeader(state) {
          CountHeader(1);
          if errno != OK {
            AnsweredStill(replies, old(told), old(log), told, log, HeaderOverflow);
            Unsound(V(), nread);
            Overflowed(v0, n0, data, p, at, count);
            return p, m, p;
          }
        }
        var act, q;
        ghost var r, t, l;
        t, l := told, log;
        act, q, m, r := Passes(data, p, m, v0, n0);
        AnsweredOn(replies, old(told), old(log), t, l, told, log, errno);
        if act.Stop? {
          Stopped(v0, n0, data, act, q, After(act, m, data, r), nread);
          if !Healthy(errno) {
            Unsound(V(), nread);
          }
          return act.n, m, if Healthy(errno) then act.n else r;
        }
        Onward(v0, n0, data, q, Seen(m, data, q + 1), nread);
        p := q + 1;
      }
      ghost var now := Seen(m, data, |data|);
      ghost var t, l := told, log;
      var _ := Flush(data, m);
      AnsweredOn(replies, old(told), old(log), t, l, told, log, errno);
      Finish(v0, n0, data, now, nread, V());
      n, lost, seen := |data|, NO_MARKS, |data|;
    }

    // http_parser_execute
    method Execute(data: string) returns (n: nat, ghost lost: Marks, ghost seen: nat)
      requires Valid()
      requires |data| + MAX_HEADER_SIZE < 0x1_0000_0000
      modifies this
      ensures Valid()
      ensures old(errno) != OK ==> n == 0 && V() == old(V()) && nread == old(nread) && told == old(told)
      ensures old(errno) == OK ==> Answered(replies, old(told), old(log), told, log, errno)
      ensures old(errno) == OK && |data| == 0 ==> Ended(Opened(old(V())), n, V()) && nread == old(nread)
      ensures old(errno) == OK && |data| > 0 ==>
                Called(Opened(old(V())), old(nread), data, n,
                       if Healthy(errno) then V() else Seen(lost, data, seen), nread)
      ensures seen <= n && (errno != HeaderOverflow ==> seen == n)
      // callbacks that answer 0 leave the parser where the bytes one by one leave it
      ensures old(errno) == OK && |data| > 0 && errno != HeaderOverflow && Zeros(replies, |old(told)|, |told|) ==>
                && Feed(Opened(old(V())), data) == (if errno == OK then V() else Seen(lost, data, n))
                && (errno == OK && !app.left ==> n == |data|)
    {
      hide Zeros, Feed, Answered, Sound, Called, Pending, Ended, Inv;
      n, lost, seen := 0, NO_MARKS, 0;
      if errno != OK {
        return;
      }
      app := app.(left := false);
      SoundOpened(old(V()), nread);
      if |data| == 0 {
        n := EndOfInput();
        seen := n;
        return;
      }
      n, lost, seen := Bytes(data);
      if Zeros(replies, |old(told)|, |told|) {
        ZerosGoOn(replies, old(told), old(log), told, log, errno);
        Undisturbed(Opened(old(V())), old(nread), data, n, if Healthy(errno) then V() else Seen(lost, data, seen),
                    nread, replies, old(told), old(log), told, log);
      }
    }
  }

  // Byte i of a keyword: the recogniser stays here, or moves to found or other.
  method MatchAt<T>(word: string, i: nat, c: char, here: T, found: T, other: T) returns (r: T)
    ensures i >= |word| || c != word[i] ==> r == other
    ensures i < |word| && c == word[i] ==> r == if i == |word| - 1 then found else here
  {
    r := here;
    if i >= |word| || c != word[i] {
      r := other;
    } else if i == |word| - 1 {
      r := found;
    }
  }

  predicate IsPlain(s: ParseState, ch: char) {
    match s
    case Dead => true
    case Res(r) => !(r.StartReqOrRes? || r.StartRes? || r.ResStatusStart? || r.ResStatus?)
    case Req(q) => !q.StartReq?
    case InUrl(u) => u.SpacesBeforeUrl? && ch == ' '
    case Hdr(h) => h.DiscardWsAlmostDone? || h.HeaderAlmostDone? || (h.DiscardWs? && (IsBlank(ch) || IsEol(ch)))
    case Chunk(c) => c.SizeStart? || c.Size? || c.Parameters?
    case Msg(_) => false
  }

  // The arms of a layer.
  lemma LayerStep(v: View, ch: char)
    requires IsPlain(v.state, ch)
    ensures v.state.Dead? ==> Step(v, ch) == if IsEol(ch) then v else Fail(v, ClosedConnection)
    ensures v.state.Res? ==> Step(v, ch) == StepResponseLine(v, v.state.res, ch)
    ensures v.state.Req? ==> Step(v, ch) == StepRequestLine(v, v.state.req, ch)
    ensures v.state.InUrl? ==> Step(v, ch) == v
    ensures v.state.Hdr? ==> Step(v, ch) == StepHeader(v, v.state.hdr, ch)
    ensures v.state.Chunk? ==> Step(v, ch) == StepChunk(v, v.state.chunk, ch)
  {
    hide StepResponseLine, StepRequestLine, StepHeader, StepChunk;
  }

  lemma PlainStep(v: View, ch: char)
    requires !Halted(v) && IsPlain(v.state, ch)
    ensures var w := Step(v, ch);
            && w.trace == v.trace && w.app == v.app && !ByCallback(w.errno) && w.errno != HeaderOverflow
            && (w.errno == OK ==> RunKind(w.state).None? && !Bodied(w.state))
            && !Resets(v, ch)
  {
    hide StepResponseLine, StepRequestLine, StepMsg;
    match v.state {
      case Dead =>
      case Res(r) => PlainResponse(v, r, ch);
      case Req(q) => PlainRequest(v, q, ch);
      case InUrl(_) =>
      case Hdr(_) =>
      case Chunk(_) =>
    }
  }

  lemma PlainResponse(v: View, r: ResState, ch: char)
    requires !Halted(v) && v.state == Res(r) && IsPlain(v.state, ch)
    ensures var w := StepResponseLine(v, r, ch);
            && w.trace == v.trace && w.app == v.app && !ByCallback(w.errno) && w.errno != HeaderOverflow
            && (w.errno == OK ==> RunKind(w.state).None? && !Bodied(w.state))
  {
  }

  lemma PlainRequest(v: View, q: ReqState, ch: char)
    requires !Halted(v) && v.state == Req(q) && IsPlain(v.state, ch)
    ensures var w := StepRequestLine(v, q, ch);
            && w.trace == v.trace && w.app == v.app && !ByCallback(w.errno) && w.errno != HeaderOverflow
            && (w.errno == OK ==> RunKind(w.state).None? && !Bodied(w.state))
  {
  }

  // A byte that is taken: the pass ends with break, in a callback, or with an error.
  lemma Takes(v: View, ch: char, p: nat, after: View)
    requires !Halted(v) && after.errno != HeaderOverflow
    ensures after == Step(v, ch) && !Halted(after) ==> Stepped(v, ch, p, Next, after)
    ensures after.(errno := OK) == Step(v, ch) && ByCallback(after.errno) ==> Stepped(v, ch, p, Stop(p + 1), after)
    ensures after == Step(v, ch) && !Healthy(after.errno) ==> Stepped(v, ch, p, Stop(p), after)
  {
    hide Step;
  }

  // A byte taken by a pass that leaves no callback to return to.
  lemma NotHeld(v: View, ch: char, p: nat, after: View)
    requires !Halted(v) && after == Step(v, ch) && after.errno != HeaderOverflow && !ByCallback(after.errno)
    ensures !Halted(after) ==> Stepped(v, ch, p, Next, after) && HeldOk(p, Next, after)
    ensures after.errno != OK ==> Stepped(v, ch, p, Stop(p), after) && HeldOk(p, Stop(p), after)
  {
    hide Step;
  }

  lemma ErrorEnds(data: string, q: nat, w: View, after: View)
    requires q < |data| && w.state == Hdr(FieldValue)
    ensures LineEnds(data, q, Stop(q), w, after)
  {
  }

  lemma UrlStep(v: View, u: UrlState, ch: char)
    requires v.state == InUrl(u)
    ensures Step(v, ch) == StepUrl(v, u, ch)
  {
    hide StepUrl;
  }

  lemma StatusStep(v: View, ch: char)
    requires v.state == Res(ResStatusStart) || v.state == Res(ResStatus)
    ensures Step(v, ch) ==
            if IsEol(ch) then v.(state := if ch == CR then Res(ResLineAlmostDone) else Hdr(FieldStart))
            else if v.state == Res(ResStatusStart) then
              Tell(v.(state := Res(ResStatus), index := 0), Data(Events.Status, [ch]))
            else Tell(v, Data(Events.Status, [ch]))
  {
  }

  // The first byte of a value.
  lemma ValueStarts(v: View, ch: char)
    requires v.state == Hdr(ValueStart) || (v.state == Hdr(DiscardWs) && !IsBlank(ch) && !IsEol(ch))
    ensures Step(v, ch) == StepValueStart(v, ch)
  {
    hide StepValueStart;
  }

  // The byte after a name.
  lemma NameEnd(v: View, ch: char)
    requires v.state == Hdr(FieldName) && !IsToken(ch)
    ensures Step(v, ch) == if ch == ':' then v.(state := Hdr(DiscardWs)) else Fail(v, InvalidHeaderToken)
  {
  }

  // The end of line after a value: a line feed is taken again in the next state.
  lemma ValueEnd(v: View, ch: char)
    requires v.state == Hdr(FieldValue) && IsEol(ch)
    ensures ch == CR ==> Step(v, ch) == v.(state := Hdr(HeaderAlmostDone))
    ensures ch == LF ==> Step(v.(state := Hdr(HeaderAlmostDone)), ch) == Step(v, ch)
  {
    hide StepLengthByte, ValueNext, IndexNext, FlagsNext;
  }

  lemma ValueStep(v: View, ch: char)
    requires v.state == Hdr(FieldValue)
    ensures Step(v, ch) == StepValue(v, ch)
  {
    hide StepValue;
  }

  // One more byte of a name.
  lemma RanName(before: View, c: nat, data: string, p: nat, q: nat, now: View)
    requires q < |data| && Ran(before, c, data, p, q, now) && Inv(now)
    requires now.state == Hdr(FieldName) && IsToken(data[q])
    ensures Step(now, data[q]) == StepFieldName(now, data[q])
    ensures Ran(before, c, data, p, q + 1, Step(now, data[q])) && Inv(Step(now, data[q]))
  {
    hide Run, Count, Peak, Longest, Inv, NameNext, Token, Counts;
    StepKeepsInv(now, data[q]);
    RanExtend(before, c, data, p, q, now);
  }

  // One more byte of a value.
  lemma RanValue(before: View, c: nat, data: string, p: nat, q: nat, now: View) returns (w: View)
    requires q < |data| && Ran(before, c, data, p, q, now) && Inv(now)
    requires now.state == Hdr(FieldValue) && !IsEol(data[q]) && StepValue(now, data[q]).errno == OK
    ensures w == Step(now, data[q]) && Ran(before, c, data, p, q + 1, w)
    ensures Inv(w) && !Halted(w) && w.state == Hdr(FieldValue)
  {
    hide Step, Run, Count, Peak, Inv, StepValue;
    ValueStep(now, data[q]);
    ValueStays(now, data[q]);
    StepKeepsInv(now, data[q]);
    RanExtend(before, c, data, p, q, now);
    w := Step(now, data[q]);
  }

  lemma ValueStays(v: View, ch: char)
    requires !IsEol(ch)
    ensures StepValue(v, ch).state == v.state && StepValue(v, ch).app == v.app
  {
    hide ValueNext, IndexNext, FlagsNext, Wrap64, Digit;
  }

  // The end of the line after the data of a chunk.
  lemma DataEndStep(v: View, ch: char)
    ensures v.state == Chunk(DataAlmostDone) ==>
              Step(v, ch) == if ch == CR then v.(state := Chunk(DataDone)) else Fail(v, Strict)
    ensures v.state == Chunk(DataDone) ==>
              Step(v, ch) == if ch == LF then Tell(v.(state := Chunk(SizeStart)), ChunkComplete) else Fail(v, Strict)
  {
  }

  lemma HeadNotDone(v: View, ch: char)
    requires v.state == Msg(HeadersAlmostDone) && ch != LF
    ensures Step(v, ch) == Fail(v, Strict)
  {
  }

  // The line feed is taken again: after the trailers in the state that completes the message,
  lemma TrailersEnd(v: View, p: nat, after: View)
    requires !Halted(v) && v.state == Msg(HeadersAlmostDone) && v.flags.trailing && Inv(v)
    requires after.(errno := OK) == Tell(v.(state := Msg(MessageDone)), ChunkComplete)
    ensures after.errno == OK ==> Stepped(v, LF, p, Again, after) && HeldOk(p, Again, after)
    ensures ByCallback(after.errno) ==> Stepped(v, LF, p, Stop(p), after) && HeldOk(p, Stop(p), after)
  {
    hide StepResponseLine, StepRequestLine, StepUrl, StepChunk, StepHeader, StepHeadersDone, StepMessageDone;
  }

  // and after the headers in the state that looks for the body.
  lemma HeadersEnd(v: View, p: nat, after: View)
    requires !Halted(v) && v.state == Msg(HeadersAlmostDone) && !v.flags.trailing && Inv(v)
    requires after.(errno := OK) == AnnounceHead(v)
    ensures after.errno == OK ==> Stepped(v, LF, p, Again, after) && HeldOk(p, Again, after)
    ensures ByCallback(after.errno) ==> Stepped(v, LF, p, Stop(p), after) && HeldOk(p, Stop(p), after)
  {
    hide StepResponseLine, StepRequestLine, StepUrl, StepChunk, StepHeader, StepHeadersDone, StepMessageDone;
    AnnounceHeadKeepsInv(v);
  }

  // What the end of line after a value does, when after has the value handed over.
  lemma ValueEnds(v: View, ch: char, q: nat, after: View)
    requires !Halted(v) && v.state == Hdr(FieldValue) && IsEol(ch) && Inv(v)
    requires after.(errno := OK) == v.(state := Hdr(HeaderAlmostDone))
    ensures ch == CR && after.errno == OK ==> Stepped(v, ch, q, Next, after) && HeldOk(q, Next, after)
    ensures ch == CR && ByCallback(after.errno) ==>
              Stepped(v, ch, q, Stop(q + 1), after) && HeldOk(q, Stop(q + 1), after)
    ensures ch == LF && after.errno == OK ==> Stepped(v, ch, q, Again, after) && HeldOk(q, Again, after)
    ensures ch == LF && ByCallback(after.errno) ==> Stepped(v, ch, q, Stop(q), after) && HeldOk(q, Stop(q), after)
  {
    hide Step;
    ValueEnd(v, ch);
  }

  // What the jump over an ordinary value does to the one-byte parser.
  lemma Jumped(before: View, c: nat, data: string, p: nat, q: nat, now: View, t: Trace, from: nat)
    returns (r: nat, w: View, last: View)
    requires q < |data| && !IsEol(data[q]) && Ran(before, c, data, p, q, now) && Inv(now)
    requires now.state == Hdr(FieldValue) && now.hstate == General
    requires from <= q && now.trace == Emit(t, Data(Events.Value, Slice(data, from, q)))
    ensures q < r <= Jump(data, q) && Ran(before, c, data, p, r, w) && Inv(w) && !Halted(w)
    ensures w == now.(trace := Emit(t, Data(Events.Value, Slice(data, from, r))))
    ensures r == Jump(data, q) || (Jump(data, q) == |data| && r - p >= MAX_HEADER_SIZE)
    ensures forall n :: q <= n < r ==> !IsEol(data[n])
    ensures Ran(before, c, data, p, r - 1, last) && last.state == Hdr(FieldValue) && Step(last, data[r - 1]) == w
  {
    hide Ran, Step, Inv, Jump, Emit;
    JumpClear(data, q);
    r := if Jump(data, q) - q <= MAX_HEADER_SIZE then Jump(data, q) else q + MAX_HEADER_SIZE;
    RanWithin(before, c, data, p, q, now);
    w, last := RanOn(before, c, data, p, q, now, r);
    InvTell(now, Events.Value, Slice(data, q, r));
    SliceJoin(t, Events.Value, data, from, q, r);
  }

  // An ordinary value, as it runs on to r, and its last byte.
  lemma RanOn(before: View, c: nat, data: string, p: nat, q: nat, now: View, r: nat) returns (w: View, last: View)
    requires q < r <= |data| && Ran(before, c, data, p, q, now)
    requires now.state == Hdr(FieldValue) && now.hstate == General
    requires forall n :: q <= n < r ==> !IsEol(data[n])
    ensures w == Tell(now, Data(Events.Value, Slice(data, q, r))) && !Halted(w) && Ran(before, c, data, p, r, w)
    ensures Ran(before, c, data, p, r - 1, last) && last.state == Hdr(FieldValue) && Step(last, data[r - 1]) == w
  {
    hide Ran, Step, Emit;
    w, last := Tell(now, Data(Events.Value, Slice(data, q, r))), now;
    RanGeneral(before, c, data, p, q, now, r);
    RanWithin(before, c, data, p, r, w);
    if r - 1 > q {
      last := Tell(now, Data(Events.Value, Slice(data, q, r - 1)));
      RanGeneral(before, c, data, p, q, now, r - 1);
    }
    SliceGrows(now.trace, Events.Value, data, q, r - 1);
    GeneralByte(last, data[r - 1]);
  }

  lemma JumpClear(data: string, q: nat)
    requires q < |data| && !IsEol(data[q])
    ensures q < Jump(data, q) <= |data|
    ensures forall n :: q <= n < Jump(data, q) && n < q + MAX_HEADER_SIZE ==> !IsEol(data[n])
    ensures Jump(data, q) - q > MAX_HEADER_SIZE ==> Jump(data, q) == |data|
  {
    hide Jump;
  }

  lemma RanWithin(before: View, c: nat, data: string, p: nat, q: nat, now: View)
    requires Ran(before, c, data, p, q, now)
    ensures p <= q <= |data| && !Halted(now)
  {
  }

  // What the jump over body bytes does to the one-byte parser: w is its view before the last byte.
  lemma BodyRan(v: View, data: string, p: nat, q: nat) returns (w: View)
    requires p <= q < |data| && !Halted(v)
    requires v.state == Msg(IdentityEof) || (Counted(v.state) && q - p < v.contentLength)
    ensures Run(v, data, p, q) == w && !Halted(w) && w.state == v.state
    ensures w.(trace := v.trace) ==
            v.(contentLength := if v.state == Msg(IdentityEof) then v.contentLength else v.contentLength - (q - p))
    ensures Emit(w.trace, Data(Events.Body, [data[q]])) == Emit(v.trace, Data(Events.Body, Slice(data, p, q + 1)))
  {
    w := Run(v, data, p, q);
    SliceGrows(v.trace, Events.Body, data, p, q);
    if p < q {
      if v.state == Msg(IdentityEof) {
        UntilEofRun(v, data, p, q);
      } else {
        CountedRun(v, data, p, q);
      }
    }
  }

  lemma IdentityStep(v: View, ch: char)
    requires v.state == Msg(Identity) && v.contentLength > 0
    ensures var w := Tell(v.(contentLength := v.contentLength - 1), Data(Events.Body, [ch]));
            Step(v, ch) == if v.contentLength == 1 then Step(w.(state := Msg(MessageDone)), ch) else w
  {
    hide StepResponseLine, StepRequestLine, StepUrl, StepHeader, StepChunk, StepMessageDone;
  }

  // A body byte that is not the last one.
  lemma IdentityNext(v: View, ch: char, q: nat)
    requires !Halted(v) && v.state == Msg(Identity) && v.contentLength > 0
    ensures var w := Tell(v.(contentLength := v.contentLength - 1), Data(Events.Body, [ch]));
            v.contentLength > 1 ==> Stepped(v, ch, q, Next, w) && HeldOk(q, Next, w)
  {
    hide Step;
    IdentityStep(v, ch);
  }

  // The last one is taken again, in the state that completes the message.
  lemma IdentityLast(v: View, ch: char, q: nat, after: View)
    requires !Halted(v) && v.state == Msg(Identity) && v.contentLength == 1 && Inv(after.(errno := OK))
    requires after.(errno := OK) ==
             Tell(v.(contentLength := 0, state := Msg(MessageDone)), Data(Events.Body, [ch]))
    ensures after.errno == OK ==> Stepped(v, ch, q, Again, after) && HeldOk(q, Again, after)
    ensures ByCallback(after.errno) ==> Stepped(v, ch, q, Stop(q), after) && HeldOk(q, Stop(q), after)
  {
    hide Step, Inv;
    IdentityStep(v, ch);
  }

  lemma BodyRead(v: View, w: View)
    requires Inv(v) && v.state == Msg(Identity)
    requires w.(trace := v.trace) == v.(state := Msg(MessageDone), contentLength := 0)
    ensures Inv(w)
  {
  }
}
