// The enumerations and the parser record of the HTTP/1.x parser.
module Types {

  datatype Option<+T> = None | Some(value: T)

  datatype ParserType = Request | Response | Both

  // enum state, layer by layer.
  datatype ParseState =
    | Dead
    | Res(res: ResState)
    | Req(req: ReqState)
    | InUrl(url: UrlState)
    | Hdr(hdr: HdrState)
    | Chunk(chunk: ChunkState)
    | Msg(msg: MsgState)

  datatype ResState =
    | StartReqOrRes | ResOrRespH
    | StartRes | ResH | ResHT | ResHTT | ResHTTP
    | ResFirstMajor | ResMajor | ResFirstMinor | ResMinor
    | ResFirstStatus | ResStatusCode | ResStatusStart | ResStatus | ResLineAlmostDone

  datatype ReqState =
    | StartReq | ReqMethod
    | ReqHttpStart | ReqHttpH | ReqHttpHT | ReqHttpHTT | ReqHttpHTTP
    | ReqFirstMajor | ReqMajor | ReqFirstMinor | ReqMinor | ReqLineAlmostDone

  datatype UrlState =
    | SpacesBeforeUrl
    | Schema | SchemaSlash | SchemaSlashSlash | ServerStart | Server | ServerWithAt
    | Path | QueryStart | Query | FragmentStart | Fragment

  datatype HdrState =
    | FieldStart | FieldName | DiscardWs | DiscardWsAlmostDone | DiscardLws
    | ValueStart | FieldValue | ValueLws | HeaderAlmostDone

  datatype ChunkState =
    | SizeStart | Size | Parameters | SizeAlmostDone
    | ChunkData | DataAlmostDone | DataDone

  datatype MsgState =
    | HeadersAlmostDone | HeadersDone
    | Identity | IdentityEof
    | MessageDone

  // The states up to s_headers_done, whose bytes count against the header budget.
  predicate ParsingHeader(s: ParseState) {
    match s
    case Chunk(c) => !(c.ChunkData? || c.DataAlmostDone? || c.DataDone?)
    case Msg(m) => m.HeadersAlmostDone? || m.HeadersDone?
    case _ => true
  }

  datatype HeaderState =
    | General | C | CO | CON
    | MatchingConnection | MatchingProxyConnection | MatchingContentLength
    | MatchingTransferEncoding | MatchingUpgrade
    | Connection | ContentLength | TransferEncoding | Upgrade
    | MatchingChunked
    | MatchingTokenStart | MatchingKeepAlive | MatchingClose | MatchingConnUpgrade | MatchingToken
    | Chunked | KeepAlive | Close | ConnUpgrade

  datatype Method =
    | DELETE | GET | HEAD | POST | PUT
    | CONNECT | OPTIONS | TRACE
    | COPY | LOCK | MKCOL | MOVE | PROPFIND | PROPPATCH | SEARCH | UNLOCK | BIND | REBIND | UNBIND | ACL
    | REPORT | MKACTIVITY | CHECKOUT | MERGE
    | MSEARCH | NOTIFY | SUBSCRIBE | UNSUBSCRIBE
    | PATCH | PURGE
    | MKCALENDAR
    | LINK | UNLINK

  function MethodName(m: Method): string {
    match m
    case DELETE => "DELETE"
    case GET => "GET"
    case HEAD => "HEAD"
    case POST => "POST"
    case PUT => "PUT"
    case CONNECT => "CONNECT"
    case OPTIONS => "OPTIONS"
    case TRACE => "TRACE"
    case COPY => "COPY"
    case LOCK => "LOCK"
    case MKCOL => "MKCOL"
    case MOVE => "MOVE"
    case PROPFIND => "PROPFIND"
    case PROPPATCH => "PROPPATCH"
    case SEARCH => "SEARCH"
    case UNLOCK => "UNLOCK"
    case BIND => "BIND"
    case REBIND => "REBIND"
    case UNBIND => "UNBIND"
    case ACL => "ACL"
    case REPORT => "REPORT"
    case MKACTIVITY => "MKACTIVITY"
    case CHECKOUT => "CHECKOUT"
    case MERGE => "MERGE"
    case MSEARCH => "M-SEARCH"
    case NOTIFY => "NOTIFY"
    case SUBSCRIBE => "SUBSCRIBE"
    case UNSUBSCRIBE => "UNSUBSCRIBE"
    case PATCH => "PATCH"
    case PURGE => "PURGE"
    case MKCALENDAR => "MKCALENDAR"
    case LINK => "LINK"
    case UNLINK => "UNLINK"
  }

  // The bits of parser->flags.
  datatype Flags = Flags(chunked: bool, keepAlive: bool, close: bool, connUpgrade: bool,
                         trailing: bool, upgrade: bool, skipBody: bool)

  const NO_FLAGS := Flags(false, false, false, false, false, false, false)

  datatype Errno =
    | OK
    | CbMessageBegin | CbUrl | CbHeaderField | CbHeaderValue | CbHeadersComplete | CbBody
    | CbMessageComplete | CbStatus | CbChunkHeader | CbChunkComplete
    | InvalidEofState | HeaderOverflow | ClosedConnection | InvalidVersion | InvalidStatus
    | InvalidMethod | InvalidUrl | LfExpected | InvalidHeaderToken | InvalidContentLength
    | InvalidChunkSize | InvalidConstant | Strict | Paused

  // The two ways an application stops the parser from inside a callback.
  predicate ByCallback(e: Errno) {
    e.Paused? || e.CbMessageBegin? || e.CbUrl? || e.CbHeaderField? || e.CbHeaderValue? || e.CbHeadersComplete? ||
    e.CbBody? || e.CbMessageComplete? || e.CbStatus? || e.CbChunkHeader? || e.CbChunkComplete?
  }

  const MAX_HEADER_SIZE: nat := 81920

  const CONNECTION_NAME := "connection"
  const PROXY_CONNECTION_NAME := "proxy-connection"
  const CONTENT_LENGTH_NAME := "content-length"
  const TRANSFER_ENCODING_NAME := "transfer-encoding"
  const UPGRADE_NAME := "upgrade"
  const CHUNKED_NAME := "chunked"
  const KEEP_ALIVE_NAME := "keep-alive"
  const CLOSE_NAME := "close"

  // The type of the parser and what the read-only fields say about the current message.
  datatype Line = Line(ptype: ParserType, verb: Method, major: nat, minor: nat, status: nat, upgrade: bool)
}
