/** The request parser one byte at a time.

    `Micro` is one pass through the parser's switch.  `React` repeats it while the
    source jumps back to the same byte, `Feed` adds the header-size limit, and
    `Run` folds `Feed` over a buffer.  A data byte is reported as soon as it is
    read, so a run is independent of how the input was cut into buffers. */
module HttpStep {
  import opened HttpSyntax

  /** How one pass ends: the byte is used up, the same byte is looked at again, the
      parse fails before using the byte, or the parser gives up the connection
      to another protocol after using it. */
  datatype Ctl = Consume | Reexecute | Error | Leave

  datatype Out = Out(p: Parser, ev: seq<Event>, ctl: Ctl)

  function Fail(p: Parser, e: Errno): Out { Out(p.(errno := e), [], Error) }

  function Goto(p: Parser, s: State): Out { Out(p.(state := s), [], Consume) }

  function ShouldKeepAlive(p: Parser): bool {
    if p.httpMajor > 0 && p.httpMinor > 0 then !p.flags.close else p.flags.keepAlive
  }

  /** NEW_MESSAGE in strict mode. */
  function NewMessage(p: Parser): State { if ShouldKeepAlive(p) then StartReq else Dead }

  function Complete(p: Parser): Out {
    Out(p.(state := NewMessage(p)), [MessageComplete], Consume)
  }

  // ----- request line -----

  datatype MethodOption = NoMethod | SomeMethod(m: Method)

  /** The candidate chosen by the first letter of the method. */
  function FirstMethod(ch: Byte): MethodOption {
    match ch
    case 'C' => SomeMethod(CONNECT)
    case 'D' => SomeMethod(DELETE)
    case 'G' => SomeMethod(GET)
    case 'H' => SomeMethod(HEAD)
    case 'L' => SomeMethod(LOCK)
    case 'M' => SomeMethod(MKCOL)
    case 'N' => SomeMethod(NOTIFY)
    case 'O' => SomeMethod(OPTIONS)
    case 'P' => SomeMethod(POST)
    case 'R' => SomeMethod(REPORT)
    case 'S' => SomeMethod(SUBSCRIBE)
    case 'T' => SomeMethod(TRACE)
    case 'U' => SomeMethod(UNLOCK)
    case _ => NoMethod
  }

  /** The candidate to switch to when `ch` is not the next letter of `m`. */
  function OtherMethod(m: Method, index: nat, ch: Byte): MethodOption {
    if m == CONNECT then
      if index == 1 && ch == 'H' then SomeMethod(CHECKOUT)
      else if index == 2 && ch == 'P' then SomeMethod(COPY)
      else NoMethod
    else if m == MKCOL then
      if index == 1 && ch == 'O' then SomeMethod(MOVE)
      else if index == 1 && ch == 'E' then SomeMethod(MERGE)
      else if index == 1 && ch == '-' then SomeMethod(MSEARCH)
      else if index == 2 && ch == 'A' then SomeMethod(MKACTIVITY)
      else NoMethod
    else if m == SUBSCRIBE then
      if index == 1 && ch == 'E' then SomeMethod(SEARCH) else NoMethod
    else if index == 1 && m == POST then
      if ch == 'R' then SomeMethod(PROPFIND)
      else if ch == 'U' then SomeMethod(PUT)
      else if ch == 'A' then SomeMethod(PATCH)
      else NoMethod
    else if index == 2 then
      if m == PUT then
        if ch == 'R' then SomeMethod(PURGE) else NoMethod
      else if m == UNLOCK then
        if ch == 'S' then SomeMethod(UNSUBSCRIBE) else NoMethod
      else NoMethod
    else if index == 4 && m == PROPFIND && ch == 'P' then SomeMethod(PROPPATCH)
    else NoMethod
  }

  function MicroMethod(p: Parser, ch: Byte): Out {
    if p.state.Dead? then
      if ch == CR || ch == LF then Out(p, [], Consume) else Fail(p, ClosedConnection)
    else if p.state.StartReq? then
      if ch == CR || ch == LF then Out(p, [], Consume)
      else
        var q := p.(flags := NO_FLAGS, contentLength := ULLONG_MAX);
        if !IsAlpha(ch) then Fail(q, InvalidMethod)
        else
          var first := FirstMethod(ch);
          if first.NoMethod? then Fail(q.(meth := DELETE, index := 1), InvalidMethod)
          else Out(q.(meth := first.m, index := 1, state := ReqMethod), [MessageBegin], Consume)
    else
      var name := MethodString(p.meth);
      if ch == '\0' then Fail(p, InvalidMethod)
      else if ch == ' ' && p.index == |name| then
        Out(p.(state := ReqSpacesBeforeUrl, index := p.index + 1), [], Consume)
      else if p.index < |name| && ch == name[p.index] then Out(p.(index := p.index + 1), [], Consume)
      else
        var other := OtherMethod(p.meth, p.index, ch);
        if other.NoMethod? then Fail(p, InvalidMethod)
        else Out(p.(meth := other.m, index := p.index + 1), [], Consume)
  }

  // ----- URL -----

  /** `parse_url_char`: the state after a URL byte, `Dead` when it is not allowed. */
  function ParseUrlChar(s: State, ch: Byte): State {
    if ch == ' ' || ch == CR || ch == LF || ch == '\t' || ch == FF then Dead
    else match s
      case ReqSpacesBeforeUrl =>
        if ch == '/' || ch == '*' then ReqPath
        else if IsAlpha(ch) then ReqSchema
        else Dead
      case ReqSchema =>
        if IsAlpha(ch) then ReqSchema else if ch == ':' then ReqSchemaSlash else Dead
      case ReqSchemaSlash =>
        if ch == '/' then ReqSchemaSlashSlash else Dead
      case ReqSchemaSlashSlash =>
        if ch == '/' then ReqServerStart else Dead
      case ReqServerWithAt =>
        if ch == '@' then Dead else ParseServerChar(ch)
      case ReqServerStart => ParseServerChar(ch)
      case ReqServer => ParseServerChar(ch)
      case ReqPath =>
        if IsUrlChar(ch) then ReqPath
        else if ch == '?' then ReqQueryStringStart
        else if ch == '#' then ReqFragmentStart
        else Dead
      case ReqQueryStringStart => ParseQueryChar(ch)
      case ReqQueryString => ParseQueryChar(ch)
      case ReqFragmentStart =>
        if IsUrlChar(ch) || ch == '?' then ReqFragment
        else if ch == '#' then ReqFragmentStart
        else Dead
      case ReqFragment =>
        if IsUrlChar(ch) || ch == '?' || ch == '#' then ReqFragment else Dead
      case _ => Dead
  }

  function ParseServerChar(ch: Byte): State {
    if ch == '/' then ReqPath
    else if ch == '?' then ReqQueryStringStart
    else if ch == '@' then ReqServerWithAt
    else if IsUserinfoChar(ch) || ch == '[' || ch == ']' then ReqServer
    else Dead
  }

  function ParseQueryChar(ch: Byte): State {
    if IsUrlChar(ch) || ch == '?' then ReqQueryString
    else if ch == '#' then ReqFragmentStart
    else Dead
  }

  function UrlStep(p: Parser, s: State, ch: Byte): Out {
    var t := ParseUrlChar(s, ch);
    if t.Dead? then Fail(p.(state := Dead), InvalidUrl)
    else Out(p.(state := t), [Data(Url, ch)], Consume)
  }

  function MicroUrl(p: Parser, ch: Byte): Out {
    if p.state.ReqSpacesBeforeUrl? then
      if ch == ' ' then Out(p, [], Consume)
      else UrlStep(p, if p.meth == CONNECT then ReqServerStart else p.state, ch)
    else if ch == ' ' then
      if UrlMayEnd(p.state) then Goto(p, ReqHttpStart) else Fail(p, InvalidUrl)
    else if ch == CR || ch == LF then
      if UrlMayEnd(p.state) then
        Goto(p.(httpMajor := 0, httpMinor := 9), if ch == CR then ReqLineAlmostDone else HeaderFieldStart)
      else Fail(p, InvalidUrl)
    else UrlStep(p, p.state, ch)
  }

  // ----- protocol version -----

  function Digit(ch: Byte): nat requires IsNum(ch) { ch as int - '0' as int }

  function MicroVersion(p: Parser, ch: Byte): Out {
    match p.state
    case ReqHttpStart =>
      if ch == 'H' then Goto(p, ReqHttpH) else if ch == ' ' then Out(p, [], Consume) else Fail(p, InvalidConstant)
    case ReqHttpH => if ch == 'T' then Goto(p, ReqHttpHT) else Fail(p, Strict)
    case ReqHttpHT => if ch == 'T' then Goto(p, ReqHttpHTT) else Fail(p, Strict)
    case ReqHttpHTT => if ch == 'P' then Goto(p, ReqHttpHTTP) else Fail(p, Strict)
    case ReqHttpHTTP => if ch == '/' then Goto(p, ReqFirstHttpMajor) else Fail(p, Strict)
    case ReqFirstHttpMajor =>
      if '1' <= ch <= '9' then Goto(p.(httpMajor := Digit(ch)), ReqHttpMajor) else Fail(p, InvalidVersion)
    case ReqHttpMajor =>
      if ch == '.' then Goto(p, ReqFirstHttpMinor)
      else if !IsNum(ch) then Fail(p, InvalidVersion)
      else
        var q := p.(httpMajor := p.httpMajor * 10 + Digit(ch));
        if q.httpMajor > 999 then Fail(q, InvalidVersion) else Out(q, [], Consume)
    case ReqFirstHttpMinor =>
      if IsNum(ch) then Goto(p.(httpMinor := Digit(ch)), ReqHttpMinor) else Fail(p, InvalidVersion)
    case ReqHttpMinor =>
      if ch == CR then Goto(p, ReqLineAlmostDone)
      else if ch == LF then Goto(p, HeaderFieldStart)
      else if !IsNum(ch) then Fail(p, InvalidVersion)
      else
        var q := p.(httpMinor := p.httpMinor * 10 + Digit(ch));
        if q.httpMinor > 999 then Fail(q, InvalidVersion) else Out(q, [], Consume)
    case _ => // ReqLineAlmostDone
      if ch == LF then Goto(p, HeaderFieldStart) else Fail(p, LfExpected)
  }

  // ----- header fields -----

  /** One step of a name or value matcher: `word` is matched up to `index`; at its
      last letter the matcher moves to `full`, on a mismatch to `General`. */
  function MatchStep(word: seq<Byte>, index: nat, c: Byte, same: HeaderState, full: HeaderState): HeaderState {
    if index > |word| || (if index < |word| then c != word[index] else c != '\0') then General
    else if index == |word| - 1 then full
    else same
  }

  function FirstFieldState(c: Byte): HeaderState {
    match c
    case 'c' => C
    case 'p' => MatchingProxyConnection
    case 't' => MatchingTransferEncoding
    case 'u' => MatchingUpgrade
    case _ => General
  }

  /** The matcher after a further token byte `c` (lower-cased) of a field name. */
  function FieldMatch(h: HeaderState, index: nat, c: Byte): (HeaderState, nat) {
    match h
    case General => (General, index)
    case C => (if c == 'o' then CO else General, index + 1)
    case CO => (if c == 'n' then CON else General, index + 1)
    case CON =>
      (if c == 'n' then MatchingConnection else if c == 't' then MatchingContentLength else General, index + 1)
    case MatchingConnection => (MatchStep(CONNECTION, index + 1, c, h, Connection), index + 1)
    case MatchingProxyConnection => (MatchStep(PROXY_CONNECTION, index + 1, c, h, Connection), index + 1)
    case MatchingContentLength => (MatchStep(CONTENT_LENGTH, index + 1, c, h, ContentLength), index + 1)
    case MatchingTransferEncoding => (MatchStep(TRANSFER_ENCODING, index + 1, c, h, TransferEncoding), index + 1)
    case MatchingUpgrade => (MatchStep(UPGRADE, index + 1, c, h, Upgrade), index + 1)
    case _ => (if c != ' ' then General else h, index) // a complete name
  }

  function MicroField(p: Parser, ch: Byte): Out {
    var c := Token(ch);
    if p.state.HeaderFieldStart? then
      if ch == CR then Goto(p, HeadersAlmostDone)
      else if ch == LF then Out(p.(state := HeadersAlmostDone), [], Reexecute)
      else if c == '\0' then Fail(p, InvalidHeaderToken)
      else
        Out(p.(index := 0, state := HeaderField, headerState := FirstFieldState(c)), [Data(Field, ch)], Consume)
    else if c != '\0' then
      var (h, i) := FieldMatch(p.headerState, p.index, c);
      Out(p.(headerState := h, index := i), [Data(Field, ch)], Consume)
    else if ch == ':' then Goto(p, HeaderValueStart)
    else if ch == CR then Goto(p, HeaderAlmostDone)
    else if ch == LF then Goto(p, HeaderFieldStart)
    else Fail(p, InvalidHeaderToken)
  }

  // ----- header values -----

  /** The first byte of a value, which is neither blank nor line end. */
  function ValueStart(p: Parser, ch: Byte): Out {
    var c := Lower(ch);
    var q := p.(state := HeaderValue, index := 0);
    var ev := [Data(Value, ch)];
    match p.headerState
    case Upgrade => Out(q.(flags := q.flags.(upgrade := true), headerState := General), ev, Consume)
    case TransferEncoding => Out(q.(headerState := if c == 'c' then MatchingChunked else General), ev, Consume)
    case ContentLength =>
      if IsNum(ch) then Out(q.(contentLength := Digit(ch)), ev, Consume) else Fail(q, InvalidContentLength)
    case Connection =>
      Out(q.(headerState := if c == 'k' then MatchingKeepAlive else if c == 'c' then MatchingClose else General),
          ev, Consume)
    case _ => Out(q.(headerState := General), ev, Consume)
  }

  /** The size accumulated by one more digit, unless the guard for the 64-bit range
      refuses it.  The product is taken modulo 2^64 as `uint64_t` does. */
  function PushDigit(n: nat, base: nat, d: nat): (bool, nat)
    requires base > 0
  {
    ((ULLONG_MAX - base) / base >= n, (n * base + d) % (ULLONG_MAX + 1))
  }

  /** The matcher after a further byte of a value. */
  function ValueMatch(h: HeaderState, index: nat, ch: Byte): (HeaderState, nat) {
    var c := Lower(ch);
    match h
    case MatchingChunked => (MatchStep(CHUNKED, index + 1, c, h, Chunked), index + 1)
    case MatchingKeepAlive => (MatchStep(KEEP_ALIVE, index + 1, c, h, KeepAlive), index + 1)
    case MatchingClose => (MatchStep(CLOSE, index + 1, c, h, Close), index + 1)
    case Chunked | KeepAlive | Close => (if ch != ' ' then General else h, index) // a complete word
    case _ => (General, index)
  }

  /** A further byte of a value. */
  function ValueNext(p: Parser, ch: Byte): Out {
    var ev := [Data(Value, ch)];
    match p.headerState
    case General => Out(p, ev, Consume)
    case ContentLength =>
      if ch == ' ' then Out(p, ev, Consume)
      else if !IsNum(ch) then Fail(p, InvalidContentLength)
      else
        var (fits, t) := PushDigit(p.contentLength, 10, Digit(ch));
        if fits then Out(p.(contentLength := t), ev, Consume) else Fail(p, InvalidContentLength)
    case _ =>
      var (h, i) := ValueMatch(p.headerState, p.index, ch);
      Out(p.(headerState := h, index := i), ev, Consume)
  }

  /** The flag a complete value word raises at the end of its line. */
  function RaiseFlag(f: Flags, h: HeaderState): Flags {
    match h
    case KeepAlive => f.(keepAlive := true)
    case Close => f.(close := true)
    case Chunked => f.(chunked := true)
    case _ => f
  }

  function MicroValue(p: Parser, ch: Byte): Out {
    match p.state
    case HeaderValueStart =>
      if ch == ' ' || ch == '\t' then Out(p, [], Consume)
      else if ch == CR then Goto(p.(index := 0, headerState := General), HeaderAlmostDone)
      else if ch == LF then Goto(p.(index := 0), HeaderFieldStart)
      else ValueStart(p, ch)
    case HeaderValue =>
      if ch == CR then Goto(p, HeaderAlmostDone)
      else if ch == LF then Out(p.(state := HeaderAlmostDone), [], Reexecute)
      else ValueNext(p, ch)
    case HeaderAlmostDone =>
      if ch != LF then Fail(p, Strict)
      else Goto(p.(flags := RaiseFlag(p.flags, p.headerState)), HeaderValueLws)
    case _ => // HeaderValueLws
      if ch == ' ' || ch == '\t' then Goto(p, HeaderValueStart)
      else Out(p.(state := HeaderFieldStart), [], Reexecute)
  }

  // ----- end of the headers -----

  function MicroHeadersEnd(p: Parser, ch: Byte): Out {
    if ch != LF then Fail(p, Strict)
    else if p.state.HeadersAlmostDone? then
      if p.flags.trailing then Complete(p)
      else
        Out(p.(state := HeadersDone, upgrade := p.flags.upgrade || p.meth == CONNECT), [HeadersComplete], Reexecute)
    else
      var q := p.(nread := 0);
      if q.upgrade then Out(q.(state := NewMessage(q)), [MessageComplete], Leave)
      else if q.flags.chunked then Goto(q, ChunkSizeStart)
      else if q.contentLength == 0 || q.contentLength == ULLONG_MAX then Complete(q)
      else Goto(q, BodyIdentity)
  }

  // ----- bodies -----

  function MicroBody(p: Parser, ch: Byte): Out {
    match p.state
    case BodyIdentity =>
      if p.contentLength == 0 then Fail(p, InvalidInternalState) // excluded by the invariant
      else if p.contentLength == 1 then
        Out(p.(contentLength := 0, state := MessageDone), [Data(Body, ch)], Reexecute)
      else Out(p.(contentLength := p.contentLength - 1), [Data(Body, ch)], Consume)
    case MessageDone => Complete(p)
    case ChunkData =>
      if p.contentLength == 0 then Fail(p, InvalidInternalState) // excluded by the invariant
      else
        var q := p.(contentLength := p.contentLength - 1);
        Out(if q.contentLength == 0 then q.(state := ChunkDataAlmostDone) else q, [Data(Body, ch)], Consume)
    case ChunkDataAlmostDone => if ch == CR then Goto(p, ChunkDataDone) else Fail(p, Strict)
    case _ => // ChunkDataDone
      if ch == LF then Goto(p.(nread := 0), ChunkSizeStart) else Fail(p, Strict)
  }

  function MicroChunk(p: Parser, ch: Byte): Out {
    match p.state
    case ChunkSizeStart =>
      if Unhex(ch) == -1 then Fail(p, InvalidChunkSize)
      else Goto(p.(contentLength := Unhex(ch)), ChunkSize)
    case ChunkSize =>
      if ch == CR then Goto(p, ChunkSizeAlmostDone)
      else if Unhex(ch) == -1 then
        if ch == ';' || ch == ' ' then Goto(p, ChunkParameters) else Fail(p, InvalidChunkSize)
      else
        var (fits, t) := PushDigit(p.contentLength, 16, Unhex(ch));
        if fits then Out(p.(contentLength := t), [], Consume) else Fail(p, InvalidContentLength)
    case ChunkParameters =>
      if ch == CR then Goto(p, ChunkSizeAlmostDone) else Out(p, [], Consume)
    case _ => // ChunkSizeAlmostDone
      if ch != LF then Fail(p, Strict)
      else
        var q := p.(nread := 0);
        if q.contentLength == 0 then Goto(q.(flags := q.flags.(trailing := true)), HeaderFieldStart)
        else Goto(q, ChunkData)
  }

  // ----- the switch -----

  datatype Group = GMethod | GUrl | GVersion | GField | GValue | GHeadersEnd | GChunk | GBody

  function GroupOf(s: State): Group {
    match s
    case Dead | StartReq | ReqMethod => GMethod
    case ReqHttpStart | ReqHttpH | ReqHttpHT | ReqHttpHTT | ReqHttpHTTP => GVersion
    case ReqFirstHttpMajor | ReqHttpMajor | ReqFirstHttpMinor | ReqHttpMinor | ReqLineAlmostDone => GVersion
    case HeaderFieldStart | HeaderField => GField
    case HeaderValueStart | HeaderValue | HeaderValueLws | HeaderAlmostDone => GValue
    case HeadersAlmostDone | HeadersDone => GHeadersEnd
    case ChunkSizeStart | ChunkSize | ChunkParameters | ChunkSizeAlmostDone => GChunk
    case ChunkData | ChunkDataAlmostDone | ChunkDataDone | BodyIdentity | MessageDone => GBody
    case _ => GUrl
  }

  /** One pass through the switch. */
  function Micro(p: Parser, ch: Byte): Out {
    match GroupOf(p.state)
    case GMethod => MicroMethod(p, ch)
    case GUrl => MicroUrl(p, ch)
    case GVersion => MicroVersion(p, ch)
    case GField => MicroField(p, ch)
    case GValue => MicroValue(p, ch)
    case GHeadersEnd => MicroHeadersEnd(p, ch)
    case GChunk => MicroChunk(p, ch)
    case GBody => MicroBody(p, ch)
  }

  /** Drops on every jump back to the same byte. */
  function Rank(s: State): nat {
    match s
    case HeaderValueLws => 4
    case HeaderFieldStart => 3
    case HeadersAlmostDone => 2
    case HeaderValue => 1
    case HeadersDone => 1
    case BodyIdentity => 1
    case _ => 0
  }

  lemma ReexecuteTerminates(p: Parser, ch: Byte)
    ensures Micro(p, ch).ctl == Reexecute ==> Rank(Micro(p, ch).p.state) < Rank(p.state)
  {
  }

  /** The byte with all jumps back to it. */
  function React(p: Parser, ch: Byte): (o: Out)
    ensures o.ctl != Reexecute
    decreases Rank(p.state)
  {
    var o := Micro(p, ch);
    if o.ctl == Reexecute then
      ReexecuteTerminates(p, ch);
      var o' := React(o.p, ch);
      Out(o'.p, o.ev + o'.ev, o'.ctl)
    else o
  }

  function CountHeader(p: Parser): Parser {
    if ParsingHeader(p.state) then p.(nread := p.nread + 1) else p
  }

  function Feed(p: Parser, ch: Byte): (o: Out)
    ensures o.ctl != Reexecute
  {
    var q := CountHeader(p);
    if ParsingHeader(p.state) && q.nread > HTTP_MAX_HEADER_SIZE then Fail(q, HeaderOverflow)
    else React(q, ch)
  }

  /** A run over some input: the parser at its end, what was reported, how many
      bytes were used and whether the run used them all (`Consume`), hit an
      error, or left after an upgrade. */
  datatype Trace = Trace(p: Parser, ev: seq<Event>, used: nat, ctl: Ctl)

  function Run(p: Parser, s: seq<Byte>): (t: Trace)
    ensures t.ctl != Reexecute
    ensures t.used <= |s|
    ensures t.ctl == Consume ==> t.used == |s|
    ensures t.ctl == Error ==> t.used < |s|
    decreases |s|
  {
    if s == [] then Trace(p, [], 0, Consume)
    else
      var o := Feed(p, s[0]);
      if o.ctl == Consume then
        var t := Run(o.p, s[1..]);
        Trace(t.p, o.ev + t.ev, t.used + 1, t.ctl)
      else Trace(o.p, o.ev, if o.ctl == Leave then 1 else 0, o.ctl)
  }

  /** Continues the run `t` with further input, if it is still going. */
  function Then(t: Trace, s: seq<Byte>): Trace {
    if t.ctl != Consume then t
    else
      var u := Run(t.p, s);
      Trace(u.p, t.ev + u.ev, t.used + u.used, u.ctl)
  }

  /** Segmentation invariance of the fold: cutting the input anywhere changes nothing. */
  lemma {:induction false} RunSplit(p: Parser, a: seq<Byte>, b: seq<Byte>)
    ensures Run(p, a + b) == Then(Run(p, a), b)
    decreases |a|
  {
    hide Feed;
    if a == [] {
      assert a + b == b;
    } else {
      var o := Feed(p, a[0]);
      assert (a + b)[1..] == a[1..] + b;
      RunSplit(o.p, a[1..], b);
      if o.ctl == Consume {
        var t := Run(o.p, a[1..]);
        if t.ctl == Consume {
          var u := Run(t.p, b);
          assert o.ev + (t.ev + u.ev) == (o.ev + t.ev) + u.ev;
        }
      }
    }
  }

  lemma RunEmpty(p: Parser)
    ensures Run(p, []) == Trace(p, [], 0, Consume)
  {
  }

  /** A run over a prefix, continued. */
  lemma RunJump(p: Parser, s: seq<Byte>, i: nat, j: nat)
    requires i <= j <= |s|
    ensures Run(p, s[..j]) == Then(Run(p, s[..i]), s[i..j])
  {
    hide Run;
    assert s[..j] == s[..i] + s[i..j];
    RunSplit(p, s[..i], s[i..j]);
  }

  /** One more byte of a run that is still going. */
  lemma RunByte(p: Parser, s: seq<Byte>, i: nat)
    requires i < |s| && Run(p, s[..i]).ctl == Consume
    ensures var o := Feed(Run(p, s[..i]).p, s[i]);
            Run(p, s[..i + 1]) ==
            Trace(o.p, Run(p, s[..i]).ev + o.ev, if o.ctl == Error then i else i + 1, o.ctl)
    ensures Feed(Run(p, s[..i]).p, s[i]).ctl != Consume ==> Run(p, s) == Run(p, s[..i + 1])
  {
    hide Feed;
    RunJump(p, s, i, i + 1);
    RunJump(p, s, i + 1, |s|);
    assert s[..|s|] == s;
    var q := Run(p, s[..i]).p;
    assert s[i..i + 1] == [s[i]];
    assert Run(Feed(q, s[i]).p, []) == Trace(Feed(q, s[i]).p, [], 0, Consume);
  }
}
