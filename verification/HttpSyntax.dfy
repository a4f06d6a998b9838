/** Bytes, character classes and the enumerations of the HTTP request parser. */
module HttpSyntax {

  /** One input byte.  Bytes of 128 and above are ordinary values here, as they
      are in the source once it casts to `unsigned char`. */
  type Byte = c: char | c as int < 256 witness ' '

  const CR: Byte := '\r'
  const LF: Byte := '\n'
  const FF: Byte := '\U{000C}'

  /** Sets bit 5, which lower-cases ASCII letters. */
  function Lower(c: Byte): Byte {
    if (c as int / 32) % 2 == 0 then (c as int + 32) as char else c
  }

  predicate IsAlpha(c: Byte) { 'a' <= c <= 'z' || 'A' <= c <= 'Z' }

  predicate IsNum(c: Byte) { '0' <= c <= '9' }

  predicate IsAlphaNum(c: Byte) { IsAlpha(c) || IsNum(c) }

  predicate IsHex(c: Byte) { IsNum(c) || 'a' <= c <= 'f' || 'A' <= c <= 'F' }

  predicate IsMark(c: Byte) {
    c == '-' || c == '_' || c == '.' || c == '!' || c == '~' || c == '*' || c == '\'' || c == '(' || c == ')'
  }

  predicate IsUserinfoChar(c: Byte) {
    || IsAlphaNum(c) || IsMark(c)
    || c == '%' || c == ';' || c == ':' || c == '&' || c == '=' || c == '+' || c == '$' || c == ','
  }

  predicate IsHostChar(c: Byte) { IsAlphaNum(c) || c == '.' || c == '-' }

  /** The strict-mode bit table: printable ASCII except blank, `#` and `?`. */
  predicate IsUrlChar(c: Byte) { '!' <= c <= '~' && c != '#' && c != '?' }

  /** A token byte, lower-cased, or NUL when the byte is no token. */
  function Token(c: Byte): Byte {
    if 'A' <= c <= 'Z' then (c as int + 32) as char
    else if 'a' <= c <= 'z' || IsNum(c) then c
    else if c == '!' || c == '#' || c == '$' || c == '%' || c == '&' || c == '\'' || c == '*' || c == '+' then c
    else if c == '-' || c == '.' || c == '^' || c == '_' || c == '`' || c == '|' || c == '~' then c
    else '\0'
  }

  predicate IsToken(c: Byte) { Token(c) != '\0' }

  /** The value of a hexadecimal digit or -1.  Only the first 128 entries of the
      source's table are written out, so every byte of 128 and above reads as 0. */
  function Unhex(c: Byte): int {
    if IsNum(c) then c as int - '0' as int
    else if 'a' <= c <= 'f' then c as int - 'a' as int + 10
    else if 'A' <= c <= 'F' then c as int - 'A' as int + 10
    else if c as int >= 128 then 0
    else -1
  }

  /** The source spells its letter test with LOWER; the plain ranges agree with it. */
  lemma LowerIsAlpha(c: Byte)
    ensures IsAlpha(c) <==> 'a' <= Lower(c) <= 'z'
    ensures IsHex(c) <==> IsNum(c) || 'a' <= Lower(c) <= 'f'
    ensures IsAlpha(c) ==> Token(c) == Lower(c)
  {
  }

  datatype Method =
    | DELETE | GET | HEAD | POST | PUT | CONNECT | OPTIONS | TRACE
    | COPY | LOCK | MKCOL | MOVE | PROPFIND | PROPPATCH | SEARCH | UNLOCK
    | REPORT | MKACTIVITY | CHECKOUT | MERGE
    | MSEARCH | NOTIFY | SUBSCRIBE | UNSUBSCRIBE
    | PATCH | PURGE

  function MethodString(m: Method): (s: seq<Byte>)
    ensures 3 <= |s| <= 11
  {
    match m
    case DELETE => "DELETE"
    case GET => "GET"
    case HEAD => "HEAD"
    case POST => "POST"
    case PUT => "PUT"
    case CONNECT => "CONNECT"
    case OPTIONS => "OPTIONS"
    case TRACE => "TRACE"
    case COPY => "COPY"
    case LOCK => "LOCK"
    case MKCOL => "MKCOL"
    case MOVE => "MOVE"
    case PROPFIND => "PROPFIND"
    case PROPPATCH => "PROPPATCH"
    case SEARCH => "SEARCH"
    case UNLOCK => "UNLOCK"
    case REPORT => "REPORT"
    case MKACTIVITY => "MKACTIVITY"
    case CHECKOUT => "CHECKOUT"
    case MERGE => "MERGE"
    case MSEARCH => "M-SEARCH"
    case NOTIFY => "NOTIFY"
    case SUBSCRIBE => "SUBSCRIBE"
    case UNSUBSCRIBE => "UNSUBSCRIBE"
    case PATCH => "PATCH"
    case PURGE => "PURGE"
  }

  /** The request states of the source, in its order. */
  datatype State =
    | Dead | StartReq | ReqMethod | ReqSpacesBeforeUrl
    | ReqSchema | ReqSchemaSlash | ReqSchemaSlashSlash
    | ReqServerStart | ReqServer | ReqServerWithAt
    | ReqPath | ReqQueryStringStart | ReqQueryString | ReqFragmentStart | ReqFragment
    | ReqHttpStart | ReqHttpH | ReqHttpHT | ReqHttpHTT | ReqHttpHTTP
    | ReqFirstHttpMajor | ReqHttpMajor | ReqFirstHttpMinor | ReqHttpMinor | ReqLineAlmostDone
    | HeaderFieldStart | HeaderField | HeaderValueStart | HeaderValue | HeaderValueLws | HeaderAlmostDone
    | ChunkSizeStart | ChunkSize | ChunkParameters | ChunkSizeAlmostDone
    | HeadersAlmostDone | HeadersDone
    | ChunkData | ChunkDataAlmostDone | ChunkDataDone
    | BodyIdentity | MessageDone

  /** PARSING_HEADER: every state up to and including `HeadersDone`. */
  predicate ParsingHeader(s: State) {
    !(s.ChunkData? || s.ChunkDataAlmostDone? || s.ChunkDataDone? || s.BodyIdentity? || s.MessageDone?)
  }

  /** The states in which a URL mark is live. */
  predicate InUrl(s: State) {
    || s.ReqSchema? || s.ReqSchemaSlash? || s.ReqSchemaSlashSlash?
    || s.ReqServerStart? || s.ReqServer? || s.ReqServerWithAt?
    || s.ReqPath? || s.ReqQueryStringStart? || s.ReqQueryString? || s.ReqFragmentStart? || s.ReqFragment?
  }

  /** The URL states that accept the blank or line end after the URL. */
  predicate UrlMayEnd(s: State) {
    InUrl(s) && !s.ReqSchema? && !s.ReqSchemaSlash? && !s.ReqSchemaSlashSlash? && !s.ReqServerStart?
  }

  datatype HeaderState =
    | General | C | CO | CON
    | MatchingConnection | MatchingProxyConnection | MatchingContentLength
    | MatchingTransferEncoding | MatchingUpgrade
    | Connection | ContentLength | TransferEncoding | Upgrade
    | MatchingChunked | MatchingKeepAlive | MatchingClose
    | Chunked | KeepAlive | Close

  const PROXY_CONNECTION: seq<Byte> := "proxy-connection"
  const CONNECTION: seq<Byte> := "connection"
  const CONTENT_LENGTH: seq<Byte> := "content-length"
  const TRANSFER_ENCODING: seq<Byte> := "transfer-encoding"
  const UPGRADE: seq<Byte> := "upgrade"
  const CHUNKED: seq<Byte> := "chunked"
  const KEEP_ALIVE: seq<Byte> := "keep-alive"
  const CLOSE: seq<Byte> := "close"

  datatype Errno =
    | Ok | InvalidEofState | HeaderOverflow | ClosedConnection | InvalidVersion | InvalidMethod | InvalidUrl
    | LfExpected | InvalidHeaderToken | InvalidContentLength | InvalidChunkSize | InvalidConstant
    | InvalidInternalState | Strict

  datatype Flags = Flags(chunked: bool, keepAlive: bool, close: bool, trailing: bool, upgrade: bool)

  const NO_FLAGS := Flags(false, false, false, false, false)

  const HTTP_MAX_HEADER_SIZE: nat := 80 * 1024
  const ULLONG_MAX: nat := 0xFFFF_FFFF_FFFF_FFFF

  /** The fields of `struct http_parser`. */
  datatype Parser = Parser(
    state: State,
    headerState: HeaderState,
    index: nat,
    flags: Flags,
    nread: nat,
    contentLength: nat,
    httpMajor: nat,
    httpMinor: nat,
    meth: Method,
    errno: Errno,
    upgrade: bool)

  /** `http_parser_init` for a request parser: all fields zero except the state. */
  function Init(): Parser {
    Parser(StartReq, General, 0, NO_FLAGS, 0, 0, 0, 0, DELETE, Ok, false)
  }

  datatype Kind = Url | Field | Value | Body

  /** What an observer of the callbacks learns, one event for every data byte. */
  datatype Event = MessageBegin | HeadersComplete | MessageComplete | Data(kind: Kind, byte: Byte)

  function DataEvents(k: Kind, s: seq<Byte>): (ev: seq<Event>)
    ensures |ev| == |s|
  {
    seq(|s|, i requires 0 <= i < |s| => Data(k, s[i]))
  }
}
