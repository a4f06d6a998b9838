/** A parser that has come back to the start state, compared with a new one: they differ
    exactly in the header bytes that a trailer leaves counted. */
module HttpReuse {
  import opened HttpSyntax
  import opened HttpStep
  import opened HttpInvariant
  import opened HttpMethods
  import opened HttpHeaders
  import opened HttpNumbers
  import opened HttpChunked
  import opened HttpRecycle
  import opened HttpRequest

  /** Both parsers report the same, use as many bytes and end in the same way, whatever comes. */
  ghost predicate SameFuture(p: Parser, q: Parser) {
    forall s: seq<Byte> :: SameReport(Run(p, s), Run(q, s))
  }

  predicate SameReport(t: Trace, u: Trace) { t.ev == u.ev && t.used == u.used && t.ctl == u.ctl }

  function CarriageReturns(n: nat): (s: seq<Byte>)
    ensures |s| == n && Newlines(s)
  {
    seq(n, _ => CR)
  }

  /** Line ends before a request use up what is left of the header limit, and one more is an
      error. */
  lemma LimitReached(p: Parser, n: nat)
    requires p.state.StartReq? && n == if p.nread <= HTTP_MAX_HEADER_SIZE then HTTP_MAX_HEADER_SIZE - p.nread else 0
    ensures var t := Run(p, CarriageReturns(n) + [CR]);
            t.ctl == Error && t.used == n && t.ev == [] && t.p.errno == HeaderOverflow
  {
    hide Run, Feed, CarriageReturns;
    var w := CarriageReturns(n);
    var q := p.(nread := p.nread + n);
    if n == 0 {
      assert w == [];
      RunEmpty(p);
    } else {
      RunNewlines(p, w);
    }
    MethodByte(q, CR);
    RefusedByte(q, CR);
    RunSplit(p, w, [CR]);
    assert Run(q, [CR]).ev == [];
  }

  lemma RefusedByte(p: Parser, ch: Byte)
    requires Feed(p, ch).ctl == Error
    ensures Run(p, [ch]) == Trace(Feed(p, ch).p, Feed(p, ch).ev, 0, Error)
  {
    hide Feed;
  }

  /** A parser back in the start state behaves like a newly initialised one, on every further
      input, if and only if no header byte is counted any more. */
  lemma FreshExactly(p: Parser)
    requires p.state.StartReq? && p.errno == Ok
    ensures SameFuture(p, Init()) <==> p.nread == 0
  {
    hide Run, CarriageReturns;
    if p.nread == 0 {
      forall s: seq<Byte> ensures SameReport(Run(p, s), Run(Init(), s)) {
        RecycledIsFresh(p, s);
      }
    } else {
      var n := if p.nread <= HTTP_MAX_HEADER_SIZE then HTTP_MAX_HEADER_SIZE - p.nread else 0;
      var w := CarriageReturns(n) + [CR];
      LimitReached(p, n);
      RunNewlines(Init(), w);
      assert !SameReport(Run(p, w), Run(Init(), w));
    }
  }

  /** After a request, the next one is parsed as by a new parser if and only if the request
      was not chunked: the bytes of a trailer, two at the least, stay counted. */
  lemma FreshAfterRequest(r: Request)
    requires RequestOkay(r) && |Head(r)| <= HTTP_MAX_HEADER_SIZE && KeepsAlive(r)
    ensures var t := Run(Init(), Build(r));
            && t.ctl == Consume && t.p.state.StartReq? && t.p.errno == Ok && t.p.nread == TrailerSize(r.body)
            && (SameFuture(t.p, Init()) <==> !Info(r).flags.chunked)
  {
    hide Run, Build, KeepsAlive, HeadOkay, Head, Upgrades, SameFuture, Info, DecValue;
    RequestRoundTrip(Init(), r);
    FreshExactly(Run(Init(), Build(r)).p);
    TrailerIsCounted(r);
  }

  lemma TrailerIsCounted(r: Request)
    requires BodyOkay(r)
    ensures TrailerSize(r.body) > 0 <==> Info(r).flags.chunked
  {
    hide Info, SizeLine, ValidChunk, HeaderOkay;
  }

  // ----- an input -----

  function EncodingHeader(): Header { Header(TRANSFER_ENCODING, [' '], CHUNKED, CRLF, []) }

  /** A request with an empty chunked body and an empty trailer. */
  function ChunkedRequest(): Request {
    Request(GET, ['/'], Version(['1'], ['1']), CRLF, [EncodingHeader()], CRLF, Chunks([], ['0'], [], [], CRLF))
  }

  lemma LowerNameStays(s: seq<Byte>)
    requires forall i | 0 <= i < |s| :: 'a' <= s[i] <= 'z' || s[i] == '-'
    ensures LowerName(s) == s && AllTokens(s)
  {
  }

  lemma WordItself(s: seq<Byte>)
    requires forall i | 0 <= i < |s| :: 'a' <= s[i] <= 'z'
    ensures WordAndBlanks(s, s)
  {
    assert LowerAll(s) == s;
  }

  lemma EncodingHeaderOkay()
    ensures var h := EncodingHeader();
            HeaderOkay(h) && Apply(Summary(NO_FLAGS, ULLONG_MAX), h) == Summary(NO_FLAGS.(chunked := true), ULLONG_MAX)
            && |Line(h)| == 28
  {
    hide LowerName, WordAndBlanks, LowerAll, LengthText;
    LowerNameStays(TRANSFER_ENCODING);
    WordItself(CHUNKED);
    assert |TRANSFER_ENCODING| == 17 && |CHUNKED| == 7;
    NameIsEncoding();
  }

  lemma NameIsEncoding()
    ensures HeaderOf(TRANSFER_ENCODING) == TransferEncoding
  {
    assert TRANSFER_ENCODING[0] == 't' && CONNECTION[0] == 'c' && PROXY_CONNECTION[0] == 'p' && CONTENT_LENGTH[0] == 'c';
  }

  lemma ChunkedInfo()
    ensures Info(ChunkedRequest()) == Summary(NO_FLAGS.(chunked := true), ULLONG_MAX)
    ensures |Lines(ChunkedRequest().headers)| == 28
  {
    hide Apply, Line;
    EncodingHeaderOkay();
    var hs := ChunkedRequest().headers;
    assert hs[..0] == [] && hs[0] == EncodingHeader();
  }

  lemma ChunkedLine()
    ensures var r := ChunkedRequest();
            UrlOkay(r.meth, r.url) && VersionOkay(r.version) && |RequestLine(r)| == 16
  {
    hide IsUrlChar;
    assert UrlState(ReqSpacesBeforeUrl, []) == ReqSpacesBeforeUrl;
    assert ['/'][..0] == [];
    One();
    assert |HTTP_SLASH| == 6 && |MethodString(GET)| == 3;
  }

  lemma One()
    ensures DecValue(['1']) == 1 && HexBytes(['0']) && HexValue(['0']) == 0
  {
    assert ['1'][..0] == [] && ['0'][..0] == [];
    assert DecValue([]) == 0 && HexValue([]) == 0;
  }

  lemma ChunkedRequestOkay()
    ensures var r := ChunkedRequest();
            RequestOkay(r) && |Head(r)| <= HTTP_MAX_HEADER_SIZE && KeepsAlive(r) && Info(r).flags.chunked
            && TrailerSize(r.body) == 2
  {
    hide UrlOkay, VersionOkay, HeaderOkay, Info, RequestLine, Lines, DecValue, HexBytes, HexValue;
    EncodingHeaderOkay();
    ChunkedInfo();
    ChunkedLine();
    One();
    NoLines();
  }

  lemma NoLines()
    ensures Lines([]) == [] && forall s: Summary :: Summarise(s, []) == s
  {
  }

  /** That request, then line ends that a new parser accepts and this one refuses. */
  lemma LineEndsRefused()
    ensures var w := Build(ChunkedRequest());
            var s := CarriageReturns(HTTP_MAX_HEADER_SIZE - 2) + [CR];
            && Run(Init(), w).ctl == Consume && Run(Init(), w).p.state.StartReq?
            && Run(Init(), s).ctl == Consume
            && Run(Init(), w + s).ctl == Error && Run(Init(), w + s).p.errno == HeaderOverflow
  {
    hide Run, Build, KeepsAlive, RequestOkay, Head, SameFuture, Info, CarriageReturns, ChunkedRequest;
    var r, s := ChunkedRequest(), CarriageReturns(HTTP_MAX_HEADER_SIZE - 2) + [CR];
    ChunkedRequestOkay();
    FreshAfterRequest(r);
    LimitReached(Run(Init(), Build(r)).p, HTTP_MAX_HEADER_SIZE - 2);
    RunSplit(Init(), Build(r), s);
    RunNewlines(Init(), s);
  }
}
