// The parser as a one-byte step function, and its runs. This is the simple form
// that HttpParser.Execute refines.
module Machine {
  import opened Chars
  import opened Types
  import opened Events
  import opened Views
  import opened StartLine
  import opened Headers
  import opened Body

  function Step(v: View, ch: char): View {
    match v.state
    case Dead => if IsEol(ch) then v else Fail(v, ClosedConnection)
    case Res(r) => StepResponseLine(v, r, ch)
    case Req(q) => StepRequestLine(v, q, ch)
    case InUrl(u) => StepUrl(v, u, ch)
    case Hdr(h) => StepHeader(v, h, ch)
    case Chunk(c) => StepChunk(v, c, ch)
    case Msg(m) => StepMsg(v, m, ch)
  }

  // The bytes data[i..j] one by one, until an error or the end of HTTP.
  function Run(v: View, data: string, i: nat, j: nat): View
    requires i <= j <= |data|
    decreases j - i
  {
    if i == j || Halted(v) then v else Run(Step(v, data[i]), data, i + 1, j)
  }

  function Feed(v: View, data: string): View { Run(v, data, 0, |data|) }

  // No message is under way.
  predicate Idle(s: ParseState) {
    s == Dead || s == Res(StartReqOrRes) || s == Res(StartRes) || s == Req(StartReq)
  }

  // The end of the input: only a body that ends with the connection, or no message at all, may end here.
  function EndInput(v: View): View {
    if v.state == Msg(IdentityEof) then Tell(v, MessageComplete)
    else if Idle(v.state) then v
    else Fail(v, InvalidEofState)
  }
}
