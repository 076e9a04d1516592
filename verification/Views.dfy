// The state of a parser as a value: its fields and the history of its callbacks.
module Views {
  import opened Types
  import opened Events

  // The application's side: heads counts the calls of on_headers_complete, skips holds the
  // ordinals of those it answers with 1, and left says that a call returned early because the
  // rest of the input belongs to another protocol.
  datatype App = App(heads: nat, skips: set<nat>, left: bool)

  // nread is kept apart (see Budget): it depends on how the input is cut.
  datatype View = View(line: Line, flags: Flags, state: ParseState, hstate: HeaderState, index: nat,
                       contentLength: nat, errno: Errno, app: App, trace: Trace)

  function Fail(v: View, e: Errno): View { v.(errno := e) }

  function Tell(v: View, e: Event): View { v.(trace := Emit(v.trace, e)) }

  predicate Halted(v: View) { v.errno != OK || v.app.left }

  function FirstState(t: ParserType): ParseState {
    match t
    case Request => Req(StartReq)
    case Response => Res(StartRes)
    case Both => Res(StartReqOrRes)
  }

  // A new parser: every field is zero but type and state.
  function NewView(t: ParserType, skips: set<nat>): View {
    View(Line(t, DELETE, 0, 0, 0, false), NO_FLAGS, FirstState(t), General, 0, 0, OK, App(0, skips, false), Silence)
  }
}
