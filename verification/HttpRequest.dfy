/** Whole requests: writing a request and parsing it gives the request back, also when
    several follow each other on one connection. */
module HttpRequest {
  import opened HttpSyntax
  import opened HttpStep
  import opened HttpInvariant
  import opened HttpBodies
  import opened HttpMethods
  import opened HttpHeaders
  import opened HttpNumbers
  import opened HttpChunked

  // ----- putting runs together -----

  /** The input takes the parser from `p` to `q` and reports `ev`. */
  ghost predicate Goes(p: Parser, w: seq<Byte>, q: Parser, ev: seq<Event>) {
    Run(p, w) == Trace(q, ev, |w|, Consume)
  }

  lemma GoOn(p: Parser, a: seq<Byte>, q: Parser, ea: seq<Event>, b: seq<Byte>, r: Parser, eb: seq<Event>)
    requires Goes(p, a, q, ea) && Goes(q, b, r, eb)
    ensures Goes(p, a + b, r, ea + eb)
  {
    hide Run;
    RunSplit(p, a, b);
  }

  lemma GoNowhere(p: Parser)
    ensures Goes(p, [], p, [])
  {
    RunEmpty(p);
  }

  lemma GoByte(p: Parser, ch: Byte, q: Parser, ev: seq<Event>)
    requires Feed(p, ch) == Out(q, ev, Consume)
    ensures Goes(p, [ch], q, ev)
  {
    hide Feed;
    RunEmpty(q);
    assert [ch][1..] == [] && ev + [] == ev;
  }

  // ----- the request line -----

  /** The state after the bytes of a URL. */
  function UrlState(s: State, w: seq<Byte>): State {
    if w == [] then s else ParseUrlChar(UrlState(s, w[..|w| - 1]), w[|w| - 1])
  }

  function UrlStart(m: Method): State { if m == CONNECT then ReqServerStart else ReqSpacesBeforeUrl }

  predicate UrlOkay(m: Method, url: seq<Byte>) { url != [] && UrlMayEnd(UrlState(UrlStart(m), url)) }

  lemma UrlByte(p: Parser, ch: Byte)
    requires p.state.ReqSpacesBeforeUrl? || InUrl(p.state)
    requires p.nread < HTTP_MAX_HEADER_SIZE
    requires !ParseUrlChar(if p.state.ReqSpacesBeforeUrl? then UrlStart(p.meth) else p.state, ch).Dead?
    ensures var t := ParseUrlChar(if p.state.ReqSpacesBeforeUrl? then UrlStart(p.meth) else p.state, ch);
            InUrl(t) && Goes(p, [ch], p.(state := t, nread := p.nread + 1), [Data(Url, ch)])
  {
    hide MicroMethod, MicroVersion, MicroField, MicroValue, MicroHeadersEnd, MicroChunk, MicroBody, IsUrlChar, IsUserinfoChar, Run;
    ParseUrlCharInUrl(if p.state.ReqSpacesBeforeUrl? then UrlStart(p.meth) else p.state, ch);
    GoByte(p, ch, Feed(p, ch).p, Feed(p, ch).ev);
  }

  lemma DeadUrl(w: seq<Byte>, ch: Byte, s: State)
    ensures UrlState(s, w).Dead? ==> UrlState(s, w + [ch]).Dead?
  {
    assert (w + [ch])[..|w|] == w;
  }

  lemma {:induction false} RunUrl(p: Parser, url: seq<Byte>)
    requires p.state.ReqSpacesBeforeUrl? && url != [] && !UrlState(UrlStart(p.meth), url).Dead?
    requires p.nread + |url| <= HTTP_MAX_HEADER_SIZE
    ensures InUrl(UrlState(UrlStart(p.meth), url))
    ensures Goes(p, url, p.(state := UrlState(UrlStart(p.meth), url), nread := p.nread + |url|), DataEvents(Url, url))
  {
    hide ParseUrlChar, Goes, UrlStart;
    var n := |url| - 1;
    var before := url[..n];
    assert before + [url[n]] == url;
    DeadUrl(before, url[n], UrlStart(p.meth));
    if n == 0 {
      assert UrlState(UrlStart(p.meth), []) == UrlStart(p.meth);
      UrlByte(p, url[0]);
      assert url == [url[0]] && DataEvents(Url, url) == [Data(Url, url[0])];
    } else {
      RunUrl(p, before);
      var q := p.(state := UrlState(UrlStart(p.meth), before), nread := p.nread + n);
      UrlByte(q, url[n]);
      GoOn(p, before, q, DataEvents(Url, before), [url[n]], q.(state := UrlState(UrlStart(p.meth), url), nread := q.nread + 1),
           [Data(Url, url[n])]);
    }
    DataEventsSnoc(Url, before, url[n]);
  }

  lemma DataEventsSnoc(k: Kind, s: seq<Byte>, ch: Byte)
    ensures DataEvents(k, s + [ch]) == DataEvents(k, s) + [Data(k, ch)]
  {
  }

  /** The version as it is written. */
  datatype Version = Version(major: seq<Byte>, minor: seq<Byte>)

  predicate Decimal(s: seq<Byte>) { s != [] && (forall i | 0 <= i < |s| :: IsNum(s[i])) && DecValue(s) <= 999 }

  predicate VersionOkay(v: Version) { Decimal(v.major) && v.major[0] != '0' && Decimal(v.minor) }

  const HTTP_SLASH: seq<Byte> := " HTTP/"

  function VersionText(v: Version): seq<Byte> { HTTP_SLASH + v.major + ['.'] + v.minor }

  lemma VersionByte(p: Parser, ch: Byte)
    requires GroupOf(p.state) == GVersion && p.nread < HTTP_MAX_HEADER_SIZE
    ensures Feed(p, ch) == MicroVersion(p.(nread := p.nread + 1), ch)
  {
    hide MicroMethod, MicroUrl, MicroVersion, MicroField, MicroValue, MicroHeadersEnd, MicroChunk, MicroBody;
    VersionNoJump(p.(nread := p.nread + 1), ch);
  }

  lemma VersionNoJump(p: Parser, ch: Byte)
    ensures MicroVersion(p, ch).ctl != Reexecute
  {
  }

  lemma VersionGo(p: Parser, ch: Byte, q: Parser)
    requires GroupOf(p.state) == GVersion && p.nread < HTTP_MAX_HEADER_SIZE
    requires MicroVersion(p.(nread := p.nread + 1), ch) == Out(q, [], Consume)
    ensures Goes(p, [ch], q, [])
  {
    hide Goes, Feed, MicroVersion;
    VersionByte(p, ch);
    GoByte(p, ch, q, []);
  }

  lemma UrlEnds(p: Parser)
    requires UrlMayEnd(p.state) && p.nread < HTTP_MAX_HEADER_SIZE
    ensures Goes(p, [' '], p.(state := ReqHttpStart, nread := p.nread + 1), [])
  {
    hide MicroMethod, MicroVersion, MicroField, MicroValue, MicroHeadersEnd, MicroChunk, MicroBody, Run;
    GoByte(p, ' ', Feed(p, ' ').p, Feed(p, ' ').ev);
  }

  lemma GoQuietly(p: Parser, a: seq<Byte>, q: Parser, b: seq<Byte>, r: Parser)
    requires Goes(p, a, q, []) && Goes(q, b, r, [])
    ensures Goes(p, a + b, r, [])
  {
    hide Goes;
    GoOn(p, a, q, [], b, r, []);
    var none: seq<Event> := [];
    assert none + none == none;
  }

  lemma RunHttpSlash(p: Parser)
    requires UrlMayEnd(p.state) && p.nread + 6 <= HTTP_MAX_HEADER_SIZE
    ensures Goes(p, HTTP_SLASH, p.(state := ReqFirstHttpMajor, nread := p.nread + 6), [])
  {
    hide Goes, UrlMayEnd;
    var n := p.nread;
    var p1, p2 := p.(state := ReqHttpStart, nread := n + 1), p.(state := ReqHttpH, nread := n + 2);
    var p3, p4 := p.(state := ReqHttpHT, nread := n + 3), p.(state := ReqHttpHTT, nread := n + 4);
    var p5, p6 := p.(state := ReqHttpHTTP, nread := n + 5), p.(state := ReqFirstHttpMajor, nread := n + 6);
    UrlEnds(p);
    LetterGo(p1, 'H', ReqHttpH);
    LetterGo(p2, 'T', ReqHttpHT);
    LetterGo(p3, 'T', ReqHttpHTT);
    LetterGo(p4, 'P', ReqHttpHTTP);
    LetterGo(p5, '/', ReqFirstHttpMajor);
    GoSix(p, p1, p2, p3, p4, p5, p6, HTTP_SLASH);
  }

  lemma LetterGo(p: Parser, ch: Byte, t: State)
    requires (p.state, ch, t) in {(ReqHttpStart, 'H', ReqHttpH), (ReqHttpH, 'T', ReqHttpHT), (ReqHttpHT, 'T', ReqHttpHTT),
                                  (ReqHttpHTT, 'P', ReqHttpHTTP), (ReqHttpHTTP, '/', ReqFirstHttpMajor)}
    requires p.nread < HTTP_MAX_HEADER_SIZE
    ensures Goes(p, [ch], p.(state := t, nread := p.nread + 1), [])
  {
    hide Goes;
    VersionGo(p, ch, p.(state := t, nread := p.nread + 1));
  }

  lemma GoSix(p: Parser, p1: Parser, p2: Parser, p3: Parser, p4: Parser, p5: Parser, p6: Parser, w: seq<Byte>)
    requires |w| == 6
    requires Goes(p, [w[0]], p1, []) && Goes(p1, [w[1]], p2, []) && Goes(p2, [w[2]], p3, [])
    requires Goes(p3, [w[3]], p4, []) && Goes(p4, [w[4]], p5, []) && Goes(p5, [w[5]], p6, [])
    ensures Goes(p, w, p6, [])
  {
    hide Goes;
    assert w[..1] == [w[0]];
    GoQuietly(p, w[..1], p1, [w[1]], p2);
    assert w[..1] + [w[1]] == w[..2];
    GoQuietly(p, w[..2], p2, [w[2]], p3);
    assert w[..2] + [w[2]] == w[..3];
    GoQuietly(p, w[..3], p3, [w[3]], p4);
    assert w[..3] + [w[3]] == w[..4];
    GoQuietly(p, w[..4], p4, [w[4]], p5);
    assert w[..4] + [w[4]] == w[..5];
    GoQuietly(p, w[..5], p5, [w[5]], p6);
    assert w[..5] + [w[5]] == w;
  }

  lemma {:induction false} RunMajor(p: Parser, d: seq<Byte>)
    requires p.state.ReqFirstHttpMajor? && Decimal(d) && d[0] != '0' && p.nread + |d| <= HTTP_MAX_HEADER_SIZE
    ensures Goes(p, d, p.(state := ReqHttpMajor, httpMajor := DecValue(d), nread := p.nread + |d|), [])
  {
    hide Goes, DecValue;
    var n := |d| - 1;
    DecValueSnoc(d[..n], d[n]);
    assert d[..n] + [d[n]] == d;
    if n == 0 {
      DecValueOfNone();
      VersionGo(p, d[0], p.(state := ReqHttpMajor, httpMajor := Digit(d[0]), nread := p.nread + 1));
      assert d == [d[0]];
    } else {
      RunMajor(p, d[..n]);
      var q := p.(state := ReqHttpMajor, httpMajor := DecValue(d[..n]), nread := p.nread + n);
      var r := q.(httpMajor := DecValue(d), nread := q.nread + 1);
      VersionGo(q, d[n], r);
      GoQuietly(p, d[..n], q, [d[n]], r);
    }
  }

  lemma DecValueOfNone()
    ensures DecValue([]) == 0
  {
  }

  lemma {:induction false} RunMinor(p: Parser, d: seq<Byte>)
    requires p.state.ReqFirstHttpMinor? && Decimal(d) && p.nread + |d| <= HTTP_MAX_HEADER_SIZE
    ensures Goes(p, d, p.(state := ReqHttpMinor, httpMinor := DecValue(d), nread := p.nread + |d|), [])
  {
    hide Goes, DecValue;
    var n := |d| - 1;
    DecValueSnoc(d[..n], d[n]);
    assert d[..n] + [d[n]] == d;
    if n == 0 {
      DecValueOfNone();
      VersionGo(p, d[0], p.(state := ReqHttpMinor, httpMinor := Digit(d[0]), nread := p.nread + 1));
      assert d == [d[0]];
    } else {
      RunMinor(p, d[..n]);
      var q := p.(state := ReqHttpMinor, httpMinor := DecValue(d[..n]), nread := p.nread + n);
      var r := q.(httpMinor := DecValue(d), nread := q.nread + 1);
      VersionGo(q, d[n], r);
      GoQuietly(p, d[..n], q, [d[n]], r);
    }
  }

  predicate LineEnd(eol: seq<Byte>) { eol == CRLF || eol == [LF] }

  lemma RunRequestLineEnd(p: Parser, eol: seq<Byte>)
    requires p.state.ReqHttpMinor? && LineEnd(eol) && p.nread + |eol| <= HTTP_MAX_HEADER_SIZE
    ensures Goes(p, eol, p.(state := HeaderFieldStart, nread := p.nread + |eol|), [])
  {
    hide Goes;
    if eol == [LF] {
      VersionGo(p, LF, p.(state := HeaderFieldStart, nread := p.nread + 1));
    } else {
      var q := p.(state := ReqLineAlmostDone, nread := p.nread + 1);
      VersionGo(p, CR, q);
      VersionGo(q, LF, p.(state := HeaderFieldStart, nread := p.nread + 2));
      GoQuietly(p, [CR], q, [LF], p.(state := HeaderFieldStart, nread := p.nread + 2));
      assert [CR] + [LF] == CRLF;
    }
  }

  lemma RunVersion(p: Parser, v: Version, eol: seq<Byte>)
    requires UrlMayEnd(p.state) && VersionOkay(v) && LineEnd(eol)
    requires p.nread + |VersionText(v)| + |eol| <= HTTP_MAX_HEADER_SIZE
    ensures Goes(p, VersionText(v) + eol,
                 p.(state := HeaderFieldStart, httpMajor := DecValue(v.major), httpMinor := DecValue(v.minor),
                    nread := p.nread + |VersionText(v)| + |eol|), [])
  {
    hide Goes, DecValue, Decimal, UrlMayEnd;
    RunHttpSlash(p);
    var p1 := p.(state := ReqFirstHttpMajor, nread := p.nread + 6);
    RunMajor(p1, v.major);
    var p2 := p1.(state := ReqHttpMajor, httpMajor := DecValue(v.major), nread := p1.nread + |v.major|);
    GoQuietly(p, HTTP_SLASH, p1, v.major, p2);
    var p3 := p2.(state := ReqFirstHttpMinor, nread := p2.nread + 1);
    VersionGo(p2, '.', p3);
    GoQuietly(p, HTTP_SLASH + v.major, p2, ['.'], p3);
    RunMinor(p3, v.minor);
    var p4 := p3.(state := ReqHttpMinor, httpMinor := DecValue(v.minor), nread := p3.nread + |v.minor|);
    GoQuietly(p, HTTP_SLASH + v.major + ['.'], p3, v.minor, p4);
    RunRequestLineEnd(p4, eol);
    GoQuietly(p, VersionText(v), p4, eol, p4.(state := HeaderFieldStart, nread := p4.nread + |eol|));
  }

  // ----- header lines -----

  /** A line that continues a value. */
  datatype Fold = Fold(blanks: seq<Byte>, value: seq<Byte>, eol: seq<Byte>)

  /** A header as it is written: a line, and lines that continue its value. */
  datatype Header = Header(name: seq<Byte>, blanks: seq<Byte>, value: seq<Byte>, eol: seq<Byte>, folds: seq<Fold>)

  predicate AllBlank(s: seq<Byte>) { forall i | 0 <= i < |s| :: s[i] == ' ' || s[i] == '\t' }

  /** What the header means to the parser: nothing if there is no value on its first line. */
  function Meaning(h: Header): HeaderState { if h.value == [] then General else HeaderOf(LowerName(h.name)) }

  predicate LengthText(v: seq<Byte>) { LengthBytes(v) && DecValue(v) <= MAX_CONTENT_LENGTH }

  predicate FoldOkay(f: Fold, x: HeaderState) {
    && f.blanks != [] && AllBlank(f.blanks) && ValueText(f.value) && LineEnd(f.eol)
    && (x == ContentLength ==> LengthText(f.value))
  }

  predicate HeaderOkay(h: Header) {
    && h.name != [] && AllTokens(h.name) && AllBlank(h.blanks) && LineEnd(h.eol)
    && (ValueText(h.value) || (h.value == [] && (h.eol == CRLF || h.folds == [])))
    && (Meaning(h) == ContentLength ==> LengthText(h.value))
    && forall i | 0 <= i < |h.folds| :: FoldOkay(h.folds[i], Meaning(h))
  }

  function FoldText(f: Fold): seq<Byte> { f.blanks + f.value + f.eol }

  function FoldsText(fs: seq<Fold>): seq<Byte> {
    if fs == [] then [] else FoldsText(fs[..|fs| - 1]) + FoldText(fs[|fs| - 1])
  }

  function FoldsValue(fs: seq<Fold>): seq<Byte> {
    if fs == [] then [] else FoldsValue(fs[..|fs| - 1]) + fs[|fs| - 1].value
  }

  function FirstLine(h: Header): seq<Byte> { h.name + [':'] + h.blanks + (h.value + h.eol) }

  function Line(h: Header): seq<Byte> { FirstLine(h) + FoldsText(h.folds) }

  function LastValue(h: Header): seq<Byte> { if h.folds == [] then h.value else h.folds[|h.folds| - 1].value }

  /** What the parser remembers of the headers. */
  datatype Summary = Summary(flags: Flags, length: nat)

  /** The flags are decided by the first line, the length by the last one. */
  function FlagsOf(f: Flags, h: Header): Flags {
    var x := Meaning(h);
    f.(chunked := f.chunked || (x == TransferEncoding && WordAndBlanks(h.value, CHUNKED)),
       keepAlive := f.keepAlive || (x == Connection && WordAndBlanks(h.value, KEEP_ALIVE)),
       close := f.close || (x == Connection && WordAndBlanks(h.value, CLOSE)),
       upgrade := f.upgrade || x == Upgrade)
  }

  function Apply(s: Summary, h: Header): Summary {
    Summary(FlagsOf(s.flags, h), if Meaning(h) == ContentLength then DecValue(LastValue(h)) else s.length)
  }

  function SummaryOf(p: Parser): Summary { Summary(p.flags, p.contentLength) }

  /** A parser that differs from `p` in what the matchers remember. */
  function Rematched(p: Parser, q: Parser): Parser { p.(headerState := q.headerState, index := q.index) }

  /** The matcher knows that the header is `x`, or that it is none of the four names. */
  predicate Knows(h: HeaderState, x: HeaderState) {
    if x == General then h !in {Connection, ContentLength, TransferEncoding, Upgrade} else h == x
  }

  lemma RunColon(p: Parser, name: seq<Byte>, x: HeaderState)
    requires p.state.HeaderFieldStart? && name != [] && AllTokens(name) && x == HeaderOf(LowerName(name))
    requires p.nread + |name| + 1 <= HTTP_MAX_HEADER_SIZE
    ensures var q := Run(p, name + [':']).p;
            && Goes(p, name + [':'], q, DataEvents(Field, name))
            && q == Rematched(p.(state := HeaderValueStart, nread := p.nread + |name| + 1), q)
            && Knows(q.headerState, x)
  {
    hide HeaderOf, LowerName, AllTokens, Run;
    NameDecided(p, name, Connection);
    NameDecided(p, name, ContentLength);
    NameDecided(p, name, TransferEncoding);
    NameDecided(p, name, Upgrade);
    HeaderOfIs(LowerName(name));
  }

  lemma HeaderOfIs(name: seq<Byte>)
    ensures HeaderOf(name) in {Connection, ContentLength, TransferEncoding, Upgrade, General}
  {
  }

  lemma ValueGo(p: Parser, ch: Byte, q: Parser, ev: seq<Event>)
    requires (p.state.HeaderValue? && ch != LF) || p.state.HeaderValueStart?
    requires p.nread < HTTP_MAX_HEADER_SIZE && MicroValue(p.(nread := p.nread + 1), ch) == Out(q, ev, Consume)
    ensures Goes(p, [ch], q, ev)
  {
    hide Goes, Feed, MicroValue;
    ValueByte(p, ch);
    GoByte(p, ch, q, ev);
  }

  lemma {:induction false} RunValueBlanks(p: Parser, w: seq<Byte>)
    requires p.state.HeaderValueStart? && AllBlank(w) && p.nread + |w| <= HTTP_MAX_HEADER_SIZE
    ensures Goes(p, w, p.(nread := p.nread + |w|), [])
  {
    hide Goes;
    if w == [] {
      GoNowhere(p);
    } else {
      var n := |w| - 1;
      RunValueBlanks(p, w[..n]);
      var q := p.(nread := p.nread + n);
      ValueGo(q, w[n], q.(nread := q.nread + 1), []);
      GoQuietly(p, w[..n], q, [w[n]], q.(nread := q.nread + 1));
      assert w[..n] + [w[n]] == w;
    }
  }

  lemma ValueTextEnds(v: seq<Byte>)
    requires ValueText(v)
    ensures v != [] && v[0] != ' ' && v[0] != '\t' && v[|v| - 1] != CR && v[|v| - 1] != LF
    ensures |v| > 1 ==> ValueText(v[..|v| - 1])
  {
  }

  /** A value the parser does not look into. */
  lemma {:induction false} RunAnyValue(p: Parser, v: seq<Byte>)
    requires p.state.HeaderValueStart? && p.headerState !in {Connection, ContentLength, TransferEncoding}
    requires ValueText(v) && p.nread + |v| <= HTTP_MAX_HEADER_SIZE
    ensures Goes(p, v, p.(state := HeaderValue, headerState := General, index := 0, nread := p.nread + |v|,
                          flags := p.flags.(upgrade := p.flags.upgrade || p.headerState == Upgrade)), DataEvents(Value, v))
  {
    hide Goes, ValueText;
    ValueTextEnds(v);
    var n := |v| - 1;
    var fl := p.flags.(upgrade := p.flags.upgrade || p.headerState == Upgrade);
    assert v[..n] + [v[n]] == v;
    DataEventsSnoc(Value, v[..n], v[n]);
    if n == 0 {
      assert v == [v[0]] && DataEvents(Value, v) == [Data(Value, v[0])];
      ValueGo(p, v[0], p.(state := HeaderValue, headerState := General, index := 0, nread := p.nread + 1, flags := fl),
              [Data(Value, v[0])]);
    } else {
      RunAnyValue(p, v[..n]);
      var q := p.(state := HeaderValue, headerState := General, index := 0, nread := p.nread + n, flags := fl);
      ValueGo(q, v[n], q.(nread := q.nread + 1), [Data(Value, v[n])]);
      GoOn(p, v[..n], q, DataEvents(Value, v[..n]), [v[n]], q.(nread := q.nread + 1), [Data(Value, v[n])]);
    }
  }

  lemma GoLineEnd(p: Parser, a: seq<Byte>, q: Parser, ev: seq<Event>, eol: seq<Byte>, r: Parser)
    requires Goes(p, a, q, ev) && q.state.HeaderValue? && LineEnd(eol) && q.nread + |eol| <= HTTP_MAX_HEADER_SIZE
    requires r == q.(state := HeaderValueLws, nread := q.nread + |eol|, flags := RaiseFlag(q.flags, q.headerState))
    ensures Goes(p, a + eol, r, ev)
  {
    hide RaiseFlag;
    RunLineEnd(q, eol);
    GoOn(p, a, q, ev, eol, r, []);
    assert ev + [] == ev;
  }

  /** After a line with a value: only a length stays of interest. */
  function Continues(x: HeaderState): HeaderState { if x == ContentLength then ContentLength else General }

  lemma WordIsKnown(h: HeaderState, te: bool)
    requires WordState(h, te)
    ensures Knows(h, General)
  {
  }

  /** The value of the first line and the end of that line. */
  lemma RunValueLine(p: Parser, h: Header, x: HeaderState)
    requires p.state.HeaderValueStart? && ValueText(h.value) && LineEnd(h.eol) && x == Meaning(h) && Knows(p.headerState, x)
    requires x == ContentLength ==> LengthText(h.value)
    requires p.nread + |h.value| + |h.eol| <= HTTP_MAX_HEADER_SIZE
    ensures var q := Run(p, h.value + h.eol).p;
            && Goes(p, h.value + h.eol, q, DataEvents(Value, h.value))
            && q == Rematched(p.(state := HeaderValueLws, nread := p.nread + |h.value| + |h.eol|, flags := FlagsOf(p.flags, h),
                                 contentLength := if x == ContentLength then DecValue(h.value) else p.contentLength), q)
            && Knows(q.headerState, Continues(x))
  {
    hide Run, WordAndBlanks, ValueText, LengthBytes, DecValue, HeaderOf, LowerName, WordState;
    HeaderOfIs(LowerName(h.name));
    var v, n := h.value, p.nread + |h.value|;
    if x == Connection || x == TransferEncoding {
      ValueDecided(p, v, h.eol);
      WordIsKnown(Run(p, v + h.eol).p.headerState, x == TransferEncoding);
    } else if x == ContentLength {
      RunLengthLine(p, v, h.eol);
    } else {
      RunAnyLine(p, v, h.eol);
    }
  }

  lemma RunLengthLine(p: Parser, v: seq<Byte>, eol: seq<Byte>)
    requires p.state.HeaderValueStart? && p.headerState == ContentLength
    requires ValueText(v) && LengthText(v) && LineEnd(eol) && p.nread + |v| + |eol| <= HTTP_MAX_HEADER_SIZE
    ensures Goes(p, v + eol, p.(state := HeaderValueLws, index := 0, contentLength := DecValue(v),
                                nread := p.nread + |v| + |eol|), DataEvents(Value, v))
  {
    hide Run, ValueText, LengthBytes, DecValue;
    ContentLengthDecided(p, v);
    var q := p.(state := HeaderValue, index := 0, contentLength := DecValue(v), nread := p.nread + |v|);
    GoLineEnd(p, v, q, DataEvents(Value, v), eol, q.(state := HeaderValueLws, nread := q.nread + |eol|));
  }

  lemma RunAnyLine(p: Parser, v: seq<Byte>, eol: seq<Byte>)
    requires p.state.HeaderValueStart? && p.headerState !in {Connection, ContentLength, TransferEncoding}
    requires ValueText(v) && LineEnd(eol) && p.nread + |v| + |eol| <= HTTP_MAX_HEADER_SIZE
    ensures Goes(p, v + eol, p.(state := HeaderValueLws, headerState := General, index := 0, nread := p.nread + |v| + |eol|,
                                flags := p.flags.(upgrade := p.flags.upgrade || p.headerState == Upgrade)),
                 DataEvents(Value, v))
  {
    hide Run, ValueText;
    RunAnyValue(p, v);
    var q := p.(state := HeaderValue, headerState := General, index := 0, nread := p.nread + |v|,
                flags := p.flags.(upgrade := p.flags.upgrade || p.headerState == Upgrade));
    GoLineEnd(p, v, q, DataEvents(Value, v), eol, q.(state := HeaderValueLws, nread := q.nread + |eol|));
  }

  /** A first line without a value: whatever its name, the header means nothing. */
  lemma RunNoValue(p: Parser, eol: seq<Byte>)
    requires p.state.HeaderValueStart? && LineEnd(eol) && p.nread + |eol| <= HTTP_MAX_HEADER_SIZE
    ensures var q := Run(p, eol).p;
            && Goes(p, eol, q, []) && (eol == CRLF ==> q.state.HeaderValueLws? && q.headerState == General)
            && (eol == [LF] ==> q.state.HeaderFieldStart?)
            && q == Rematched(p.(state := q.state, nread := p.nread + |eol|), q)
  {
    hide Goes, Run;
    if eol == [LF] {
      var q := p.(state := HeaderFieldStart, index := 0, nread := p.nread + 1);
      EmptyGo(p);
      EndOf(p, eol, q, []);
    } else {
      var q := p.(state := HeaderAlmostDone, index := 0, headerState := General, nread := p.nread + 1);
      var r := q.(state := HeaderValueLws, nread := p.nread + 2);
      EmptyGo(p);
      AlmostDoneGo(q);
      GoQuietly(p, [CR], q, [LF], r);
      assert [CR] + [LF] == CRLF;
      EndOf(p, eol, r, []);
    }
  }

  lemma EmptyGo(p: Parser)
    requires p.state.HeaderValueStart? && p.nread < HTTP_MAX_HEADER_SIZE
    ensures Goes(p, [LF], p.(state := HeaderFieldStart, index := 0, nread := p.nread + 1), [])
    ensures Goes(p, [CR], p.(state := HeaderAlmostDone, index := 0, headerState := General, nread := p.nread + 1), [])
  {
    hide Goes, ValueStart, ValueNext;
    ValueGo(p, LF, p.(state := HeaderFieldStart, index := 0, nread := p.nread + 1), []);
    ValueGo(p, CR, p.(state := HeaderAlmostDone, index := 0, headerState := General, nread := p.nread + 1), []);
  }

  lemma AlmostDoneGo(p: Parser)
    requires p.state.HeaderAlmostDone? && p.headerState == General && p.nread < HTTP_MAX_HEADER_SIZE
    ensures Goes(p, [LF], p.(state := HeaderValueLws, nread := p.nread + 1), [])
  {
    hide Goes, Feed;
    ValueByte(p, LF);
    GoByte(p, LF, p.(state := HeaderValueLws, nread := p.nread + 1), []);
  }

  lemma EndOf(p: Parser, w: seq<Byte>, q: Parser, ev: seq<Event>)
    requires Goes(p, w, q, ev)
    ensures Run(p, w).p == q
  {
  }

  /** A line that continues the value is reported as more of the value.  It raises no flag;
      under Content-Length it replaces the length. */
  lemma RunFold(p: Parser, f: Fold, x: HeaderState)
    requires p.state.HeaderValueLws? && Knows(p.headerState, Continues(x)) && FoldOkay(f, x)
    requires p.nread + |FoldText(f)| <= HTTP_MAX_HEADER_SIZE
    ensures var q := Run(p, FoldText(f)).p;
            && Goes(p, FoldText(f), q, DataEvents(Value, f.value)) && Knows(q.headerState, Continues(x))
            && q == Rematched(p.(nread := p.nread + |FoldText(f)|,
                                 contentLength := if x == ContentLength then DecValue(f.value) else p.contentLength), q)
  {
    hide Run, Goes, ValueText, LengthBytes, DecValue, AllBlank;
    RunFoldBlanks(p, f.blanks);
    var q := p.(state := HeaderValueStart, nread := p.nread + |f.blanks|);
    if x == ContentLength {
      RunLengthLine(q, f.value, f.eol);
    } else {
      RunAnyLine(q, f.value, f.eol);
    }
    var r := q.(state := HeaderValueLws, index := 0, nread := q.nread + |f.value| + |f.eol|,
                headerState := Continues(x), contentLength := if x == ContentLength then DecValue(f.value) else p.contentLength);
    GoOn(p, f.blanks, q, [], f.value + f.eol, r, DataEvents(Value, f.value));
    assert f.blanks + (f.value + f.eol) == FoldText(f) && [] + DataEvents(Value, f.value) == DataEvents(Value, f.value);
    EndOf(p, FoldText(f), r, DataEvents(Value, f.value));
  }

  lemma RunFoldBlanks(p: Parser, w: seq<Byte>)
    requires p.state.HeaderValueLws? && w != [] && AllBlank(w) && p.nread + |w| <= HTTP_MAX_HEADER_SIZE
    ensures Goes(p, w, p.(state := HeaderValueStart, nread := p.nread + |w|), [])
  {
    hide Goes;
    var q := p.(state := HeaderValueStart, nread := p.nread + 1);
    FirstFoldBlank(p, w[0]);
    RunValueBlanks(q, w[1..]);
    GoQuietly(p, [w[0]], q, w[1..], q.(nread := p.nread + |w|));
    assert [w[0]] + w[1..] == w;
  }

  lemma FirstFoldBlank(p: Parser, ch: Byte)
    requires p.state.HeaderValueLws? && (ch == ' ' || ch == '\t') && p.nread < HTTP_MAX_HEADER_SIZE
    ensures Goes(p, [ch], p.(state := HeaderValueStart, nread := p.nread + 1), [])
  {
    hide MicroMethod, MicroUrl, MicroVersion, MicroHeadersEnd, MicroChunk, MicroBody, MicroField, Run;
    GoByte(p, ch, p.(state := HeaderValueStart, nread := p.nread + 1), []);
  }

  lemma {:induction false} RunFolds(p: Parser, fs: seq<Fold>, x: HeaderState)
    requires (fs != [] ==> p.state.HeaderValueLws?) && Knows(p.headerState, Continues(x))
    requires forall i | 0 <= i < |fs| :: FoldOkay(fs[i], x)
    requires p.nread + |FoldsText(fs)| <= HTTP_MAX_HEADER_SIZE
    ensures var q := Run(p, FoldsText(fs)).p;
            && Goes(p, FoldsText(fs), q, DataEvents(Value, FoldsValue(fs))) && Knows(q.headerState, Continues(x))
            && q == Rematched(p.(nread := p.nread + |FoldsText(fs)|,
                                 contentLength := if fs != [] && x == ContentLength then DecValue(fs[|fs| - 1].value)
                                                  else p.contentLength), q)
  {
    hide Run, FoldOkay, FoldText, DecValue, Knows;
    if fs == [] {
      GoNowhere(p);
    } else {
      var n := |fs| - 1;
      RunFolds(p, fs[..n], x);
      var q := Run(p, FoldsText(fs[..n])).p;
      RunFold(q, fs[n], x);
      var r := Run(q, FoldText(fs[n])).p;
      GoOn(p, FoldsText(fs[..n]), q, DataEvents(Value, FoldsValue(fs[..n])), FoldText(fs[n]), r, DataEvents(Value, fs[n].value));
      DataEventsJoin(Value, FoldsValue(fs[..n]), fs[n].value);
    }
  }

  lemma DataEventsJoin(k: Kind, a: seq<Byte>, b: seq<Byte>)
    ensures DataEvents(k, a) + DataEvents(k, b) == DataEvents(k, a + b)
  {
  }

  /** The states in which a new line begins. */
  predicate AtLine(s: State) { s.HeaderFieldStart? || s.HeaderValueLws? }

  /** Behind a line anything but a blank begins a new one. */
  lemma NextLine(p: Parser, s: seq<Byte>)
    requires AtLine(p.state) && s != [] && s[0] != ' ' && s[0] != '\t' && p.nread < HTTP_MAX_HEADER_SIZE
    ensures Run(p, s) == Run(p.(state := HeaderFieldStart), s)
  {
    hide Feed;
    LwsFeed(p, s[0]);
  }

  lemma LwsFeed(p: Parser, ch: Byte)
    requires AtLine(p.state) && ch != ' ' && ch != '\t' && p.nread < HTTP_MAX_HEADER_SIZE
    ensures Feed(p, ch) == Feed(p.(state := HeaderFieldStart), ch)
  {
    hide Micro, React;
    if p.state.HeaderValueLws? {
      var q := CountHeader(p);
      LwsMicro(q, ch);
      JumpsTo(q, ch, q.(state := HeaderFieldStart));
    }
  }

  /** A pass that only jumps. */
  lemma JumpsTo(p: Parser, ch: Byte, r: Parser)
    requires Micro(p, ch) == Out(r, [], Reexecute)
    ensures React(p, ch) == React(r, ch)
  {
    hide Micro;
    var o := React(r, ch);
    assert React(p, ch) == Out(o.p, [] + o.ev, o.ctl);
    assert [] + o.ev == o.ev;
  }

  lemma LwsMicro(p: Parser, ch: Byte)
    requires p.state.HeaderValueLws? && ch != ' ' && ch != '\t'
    ensures Micro(p, ch) == Out(p.(state := HeaderFieldStart), [], Reexecute)
  {
    hide MicroMethod, MicroUrl, MicroVersion, MicroHeadersEnd, MicroChunk, MicroBody, MicroField;
  }

  // ----- all header lines -----

  function Lines(hs: seq<Header>): seq<Byte> {
    if hs == [] then [] else Lines(hs[..|hs| - 1]) + Line(hs[|hs| - 1])
  }

  function HeaderEvents(hs: seq<Header>): seq<Event> {
    if hs == [] then []
    else
      var h := hs[|hs| - 1];
      HeaderEvents(hs[..|hs| - 1]) + (DataEvents(Field, h.name) + DataEvents(Value, h.value + FoldsValue(h.folds)))
  }

  function Summarise(s: Summary, hs: seq<Header>): Summary {
    if hs == [] then s else Apply(Summarise(s, hs[..|hs| - 1]), hs[|hs| - 1])
  }

  lemma NameIsNoBlank(h: Header)
    requires HeaderOkay(h)
    ensures FirstLine(h)[0] != ' ' && FirstLine(h)[0] != '\t'
  {
    hide LengthText, HeaderOf, LowerName, AllBlank, ValueText, FoldOkay;
    assert IsToken(h.name[0]);
  }

  /** The first line of a header, behind the request line or another header. */
  lemma RunFirstLine(p: Parser, h: Header)
    requires AtLine(p.state) && HeaderOkay(h) && p.nread + |FirstLine(h)| <= HTTP_MAX_HEADER_SIZE
    ensures var q := Run(p, FirstLine(h)).p;
            && Goes(p, FirstLine(h), q, DataEvents(Field, h.name) + DataEvents(Value, h.value))
            && AtLine(q.state) && (h.folds != [] ==> q.state.HeaderValueLws?)
            && (h.folds != [] ==> Knows(q.headerState, Continues(Meaning(h))))
            && q == Rematched(p.(state := q.state, nread := p.nread + |FirstLine(h)|, flags := FlagsOf(p.flags, h),
                                 contentLength := if Meaning(h) == ContentLength then DecValue(h.value) else p.contentLength), q)
  {
    hide Run, FlagsOf, HeaderOf, LowerName, AllTokens, AllBlank, ValueText, LengthText, DecValue, FoldOkay;
    NameIsNoBlank(h);
    NextLine(p, FirstLine(h));
    var p0 := p.(state := HeaderFieldStart);
    RunColon(p0, h.name, HeaderOf(LowerName(h.name)));
    var p1 := Run(p0, h.name + [':']).p;
    RunValueBlanks(p1, h.blanks);
    var p2 := p1.(nread := p1.nread + |h.blanks|);
    GoOn(p0, h.name + [':'], p1, DataEvents(Field, h.name), h.blanks, p2, []);
    assert DataEvents(Field, h.name) + [] == DataEvents(Field, h.name);
    RunFirstValue(p2, h);
    var q := Run(p2, h.value + h.eol).p;
    GoOn(p0, h.name + [':'] + h.blanks, p2, DataEvents(Field, h.name), h.value + h.eol, q, DataEvents(Value, h.value));
  }

  /** The value of the first line, or none. */
  lemma RunFirstValue(p: Parser, h: Header)
    requires p.state.HeaderValueStart? && HeaderOkay(h) && Knows(p.headerState, HeaderOf(LowerName(h.name)))
    requires p.nread + |h.value| + |h.eol| <= HTTP_MAX_HEADER_SIZE
    ensures var q := Run(p, h.value + h.eol).p;
            && Goes(p, h.value + h.eol, q, DataEvents(Value, h.value))
            && AtLine(q.state)
            && (h.folds != [] ==> q.state.HeaderValueLws? && Knows(q.headerState, Continues(Meaning(h))))
            && q == Rematched(p.(state := q.state, nread := p.nread + |h.value| + |h.eol|, flags := FlagsOf(p.flags, h),
                                 contentLength := if Meaning(h) == ContentLength then DecValue(h.value) else p.contentLength), q)
  {
    hide Run, HeaderOf, LowerName, AllTokens, AllBlank, LengthText, DecValue, FoldOkay, WordAndBlanks;
    if h.value == [] {
      RunNoValue(p, h.eol);
      assert h.value + h.eol == h.eol && DataEvents(Value, []) == [];
      assert FlagsOf(p.flags, h) == p.flags;
    } else {
      RunValueLine(p, h, Meaning(h));
    }
  }

  lemma FoldsOkay(h: Header)
    requires HeaderOkay(h)
    ensures forall i | 0 <= i < |h.folds| :: FoldOkay(h.folds[i], Meaning(h))
  {
  }

  /** A header, behind the request line or another header: its first line decides the flags,
      its last one the length. */
  lemma RunHeader(p: Parser, h: Header)
    requires AtLine(p.state) && HeaderOkay(h) && p.nread + |Line(h)| <= HTTP_MAX_HEADER_SIZE
    ensures var q := Run(p, Line(h)).p;
            var s := Apply(SummaryOf(p), h);
            && Goes(p, Line(h), q, DataEvents(Field, h.name) + DataEvents(Value, h.value + FoldsValue(h.folds)))
            && AtLine(q.state)
            && q == Rematched(p.(state := q.state, nread := p.nread + |Line(h)|, flags := s.flags,
                                 contentLength := s.length), q)
  {
    hide Run, Goes, FlagsOf, FirstLine, Meaning, HeaderOkay, Knows, DecValue, FoldOkay;
    RunFirstLine(p, h);
    var q := Run(p, FirstLine(h)).p;
    var ev := DataEvents(Field, h.name) + DataEvents(Value, h.value);
    if h.folds == [] {
      assert FoldsText(h.folds) == [] && FoldsValue(h.folds) == [];
      assert FirstLine(h) + [] == FirstLine(h) && h.value + [] == h.value;
    } else {
      FoldsOkay(h);
      RunFolds(q, h.folds, Meaning(h));
      var r := Run(q, FoldsText(h.folds)).p;
      GoOn(p, FirstLine(h), q, ev, FoldsText(h.folds), r, DataEvents(Value, FoldsValue(h.folds)));
      DataEventsJoin(Value, h.value, FoldsValue(h.folds));
      assert ev + DataEvents(Value, FoldsValue(h.folds)) ==
             DataEvents(Field, h.name) + DataEvents(Value, h.value + FoldsValue(h.folds));
      EndOf(p, Line(h), r, DataEvents(Field, h.name) + DataEvents(Value, h.value + FoldsValue(h.folds)));
    }
  }

  lemma {:induction false} RunHeaders(p: Parser, hs: seq<Header>)
    requires AtLine(p.state) && (forall i | 0 <= i < |hs| :: HeaderOkay(hs[i]))
    requires p.nread + |Lines(hs)| <= HTTP_MAX_HEADER_SIZE
    ensures var q := Run(p, Lines(hs)).p;
            var s := Summarise(SummaryOf(p), hs);
            && Goes(p, Lines(hs), q, HeaderEvents(hs)) && AtLine(q.state)
            && q == Rematched(p.(state := q.state, nread := p.nread + |Lines(hs)|, flags := s.flags,
                                 contentLength := s.length), q)
  {
    hide Run, Apply, HeaderOkay, Line;
    if hs == [] {
      GoNowhere(p);
    } else {
      var n := |hs| - 1;
      RunHeaders(p, hs[..n]);
      var q := Run(p, Lines(hs[..n])).p;
      RunHeader(q, hs[n]);
      var r := Run(q, Line(hs[n])).p;
      GoOn(p, Lines(hs[..n]), q, HeaderEvents(hs[..n]), Line(hs[n]), r,
           DataEvents(Field, hs[n].name) + DataEvents(Value, hs[n].value + FoldsValue(hs[n].folds)));
    }
  }

  // ----- the end of the headers -----

  /** The parser when the headers are complete. */
  function Completed(p: Parser): Parser {
    p.(state := HeadersDone, upgrade := p.flags.upgrade || p.meth == CONNECT)
  }

  /** Whether, and how, a body follows. */
  function AfterHeaders(p: Parser): Trace {
    var q := Completed(p).(nread := 0);
    if q.upgrade then Trace(q.(state := HttpStep.NewMessage(q)), [HeadersComplete, MessageComplete], 1, Leave)
    else if q.flags.chunked then Trace(q.(state := ChunkSizeStart), [HeadersComplete], 1, Consume)
    else if q.contentLength == 0 || q.contentLength == ULLONG_MAX then
      Trace(q.(state := HttpStep.NewMessage(q)), [HeadersComplete, MessageComplete], 1, Consume)
    else Trace(q.(state := BodyIdentity), [HeadersComplete], 1, Consume)
  }

  lemma HeadersEndMicro(p: Parser)
    requires (p.state.HeadersAlmostDone? && !p.flags.trailing) || p.state.HeadersDone?
    ensures Micro(p, LF) == MicroHeadersEnd(p, LF)
  {
    hide MicroMethod, MicroUrl, MicroVersion, MicroField, MicroValue, MicroChunk, MicroBody;
  }

  lemma AlmostDoneFeeds(p: Parser)
    requires p.state.HeadersAlmostDone? && !p.flags.trailing && p.nread < HTTP_MAX_HEADER_SIZE
    ensures var o := Feed(p, LF);
            Trace(o.p, o.ev, 1, o.ctl) == AfterHeaders(p.(nread := p.nread + 1))
  {
    hide Micro;
    var q := p.(nread := p.nread + 1);
    HeadersEndMicro(q);
    var r := Completed(q);
    HeadersEndMicro(r);
    var o := Micro(r, LF);
    assert React(r, LF) == o;
    assert React(q, LF) == Out(o.p, [HeadersComplete] + o.ev, o.ctl);
  }

  /** The trace `t` of the last byte, behind what the bytes before it have reported. */
  function Behind(ev: seq<Event>, n: nat, t: Trace): Trace { Trace(t.p, ev + t.ev, n, t.ctl) }

  lemma RunOneByte(p: Parser, ch: Byte)
    requires Feed(p, ch).ctl == Consume || Feed(p, ch).ctl == Leave
    ensures Run(p, [ch]) == Trace(Feed(p, ch).p, Feed(p, ch).ev, 1, Feed(p, ch).ctl)
  {
    hide Feed;
    RunEmpty(Feed(p, ch).p);
    var ev := Feed(p, ch).ev;
    assert ev + [] == ev;
  }

  lemma FieldStartMicro(p: Parser)
    requires p.state.HeaderFieldStart?
    ensures Micro(p, LF) == Out(p.(state := HeadersAlmostDone), [], Reexecute)
    ensures Micro(p, CR) == Out(p.(state := HeadersAlmostDone), [], Consume)
  {
    hide MicroMethod, MicroUrl, MicroVersion, MicroValue, MicroHeadersEnd, MicroChunk, MicroBody;
  }

  /** The empty line behind the headers. */
  lemma RunEmptyLine(p: Parser, eol: seq<Byte>)
    requires AtLine(p.state) && !p.flags.trailing && LineEnd(eol) && p.nread + |eol| <= HTTP_MAX_HEADER_SIZE
    ensures Run(p, eol) == Behind([], |eol|, AfterHeaders(p))
  {
    hide Micro, Feed, Run;
    NextLine(p, eol);
    var p0 := p.(state := HeaderFieldStart);
    var p1 := p0.(nread := p.nread + 1);
    var q := p1.(state := HeadersAlmostDone);
    FieldStartMicro(p1);
    if eol == [LF] {
      LineFeedEnds(p0);
      RunOneByte(p0, LF);
    } else {
      CarriageReturnFeeds(p0);
      AlmostDoneFeeds(q);
      RunOneByte(q, LF);
      GoByte(p0, CR, q, []);
      RunSplit(p0, [CR], [LF]);
      assert [CR] + [LF] == CRLF;
    }
  }

  lemma CarriageReturnFeeds(p: Parser)
    requires p.state.HeaderFieldStart? && p.nread < HTTP_MAX_HEADER_SIZE
    ensures Feed(p, CR) == Out(p.(state := HeadersAlmostDone, nread := p.nread + 1), [], Consume)
  {
    hide Micro;
    FieldStartMicro(p.(nread := p.nread + 1));
  }

  lemma LineFeedEnds(p: Parser)
    requires p.state.HeaderFieldStart? && !p.flags.trailing && p.nread < HTTP_MAX_HEADER_SIZE
    ensures var o := Feed(p, LF);
            Trace(o.p, o.ev, 1, o.ctl) == AfterHeaders(p)
  {
    hide Micro, React;
    var q := p.(nread := p.nread + 1);
    FieldStartMicro(q);
    JumpsTo(q, LF, q.(state := HeadersAlmostDone));
    AlmostDoneFeeds(p.(state := HeadersAlmostDone));
  }

  // ----- requests -----

  /** A body of the announced length, or chunks, the size line of the last chunk, the headers
      of the trailer and the empty line behind them. */
  datatype Body =
    | Plain(data: seq<Byte>)
    | Chunks(cs: seq<Chunk>, size: seq<Byte>, ext: seq<Byte>, trailer: seq<Header>, end: seq<Byte>)

  /** A request as it is written; `eol` ends the request line, `end` is the empty line. */
  datatype Request = Request(
    meth: Method, url: seq<Byte>, version: Version, eol: seq<Byte>, headers: seq<Header>, end: seq<Byte>, body: Body)

  function RequestLine(r: Request): seq<Byte> {
    MethodString(r.meth) + [' '] + r.url + (VersionText(r.version) + r.eol)
  }

  function Head(r: Request): seq<Byte> { RequestLine(r) + Lines(r.headers) + r.end }

  function BodyText(b: Body): seq<Byte> {
    match b
    case Plain(data) => data
    case Chunks(cs, size, ext, trailer, end) => EncodeAll(cs) + LastSize(size, ext) + (Lines(trailer) + end)
  }

  function BodyData(b: Body): seq<Byte> {
    match b
    case Plain(data) => data
    case Chunks(cs, _, _, _, _) => DataOf(cs)
  }

  function TrailerEvents(b: Body): seq<Event> { if b.Plain? then [] else HeaderEvents(b.trailer) }

  /** The header bytes that stay counted when the message is complete. */
  function TrailerSize(b: Body): nat { if b.Plain? then 0 else |Lines(b.trailer)| + |b.end| }

  function Build(r: Request): seq<Byte> { Head(r) + BodyText(r.body) }

  /** What the headers say. */
  function Info(r: Request): Summary { Summarise(Summary(NO_FLAGS, ULLONG_MAX), r.headers) }

  /** The connection goes to another protocol behind the headers. */
  predicate Upgrades(r: Request) { Info(r).flags.upgrade || r.meth == CONNECT }

  /** What headers and trailer say: the headers of the trailer count like the other ones. */
  function Final(r: Request): Summary {
    if r.body.Plain? then Info(r)
    else Summarise(Summary(Info(r).flags.(trailing := true), 0), r.body.trailer)
  }

  /** Another request may follow. */
  predicate KeepsAlive(r: Request) {
    if DecValue(r.version.major) > 0 && DecValue(r.version.minor) > 0 then !Final(r).flags.close
    else Final(r).flags.keepAlive
  }

  predicate HeadOkay(r: Request) {
    && UrlOkay(r.meth, r.url) && VersionOkay(r.version) && LineEnd(r.eol) && LineEnd(r.end)
    && forall i | 0 <= i < |r.headers| :: HeaderOkay(r.headers[i])
  }

  /** The body is what the headers announce. */
  predicate BodyOkay(r: Request) {
    if Info(r).flags.chunked then
      && r.body.Chunks? && (forall i | 0 <= i < |r.body.cs| :: ValidChunk(r.body.cs[i]))
      && SizeLine(r.body.size, r.body.ext, 0)
      && (forall i | 0 <= i < |r.body.trailer| :: HeaderOkay(r.body.trailer[i])) && LineEnd(r.body.end)
      && TrailerSize(r.body) <= HTTP_MAX_HEADER_SIZE
    else r.body.Plain? && |r.body.data| == if Info(r).length == ULLONG_MAX then 0 else Info(r).length
  }

  function HeadEvents(r: Request): seq<Event> {
    [MessageBegin] + DataEvents(Url, r.url) + HeaderEvents(r.headers)
  }

  function Events(r: Request): seq<Event> {
    HeadEvents(r) + [HeadersComplete] + BodyEvents(r.body)
  }

  function BodyEvents(b: Body): seq<Event> {
    DataEvents(HttpSyntax.Body, BodyData(b)) + TrailerEvents(b) + [MessageComplete]
  }

  lemma RunRequestLine(p: Parser, r: Request)
    requires p.state.StartReq? && UrlOkay(r.meth, r.url) && VersionOkay(r.version) && LineEnd(r.eol)
    requires p.nread + |RequestLine(r)| <= HTTP_MAX_HEADER_SIZE
    ensures var q := Run(p, RequestLine(r)).p;
            && Goes(p, RequestLine(r), q, [MessageBegin] + DataEvents(Url, r.url))
            && q == Rematched(p.(state := HeaderFieldStart, meth := r.meth, flags := NO_FLAGS, contentLength := ULLONG_MAX,
                                 httpMajor := DecValue(r.version.major), httpMinor := DecValue(r.version.minor),
                                 nread := p.nread + |RequestLine(r)|), q)
  {
    hide Run, VersionOkay, VersionText, DecValue, ParseUrlChar, MethodString, UrlStart, UrlState;
    var w := MethodString(r.meth) + [' '];
    RunMethod(p, r.meth);
    var q := p.(state := ReqSpacesBeforeUrl, meth := r.meth, index := |w|, nread := p.nread + |w|, flags := NO_FLAGS,
                contentLength := ULLONG_MAX);
    var s := UrlState(UrlStart(r.meth), r.url);
    EndIsAlive(s);
    RunUrl(q, r.url);
    var q1 := q.(state := s, nread := q.nread + |r.url|);
    GoOn(p, w, q, [MessageBegin], r.url, q1, DataEvents(Url, r.url));
    RunVersion(q1, r.version, r.eol);
    var n := q1.nread + |VersionText(r.version)| + |r.eol|;
    var q2 := q1.(state := HeaderFieldStart, httpMajor := DecValue(r.version.major),
                  httpMinor := DecValue(r.version.minor), nread := n);
    var ev := [MessageBegin] + DataEvents(Url, r.url);
    GoOn(p, w + r.url, q1, ev, VersionText(r.version) + r.eol, q2, []);
    assert ev + [] == ev;
  }

  lemma EndIsAlive(s: State)
    requires UrlMayEnd(s)
    ensures !s.Dead?
  {
  }

  /** The parser with everything the head of a request says. */
  function Informed(p: Parser, r: Request): Parser {
    p.(meth := r.meth, flags := Info(r).flags, contentLength := Info(r).length,
       httpMajor := DecValue(r.version.major), httpMinor := DecValue(r.version.minor))
  }

  lemma RunHead(p: Parser, r: Request) returns (q: Parser)
    requires p.state.StartReq? && HeadOkay(r) && p.nread + |Head(r)| <= HTTP_MAX_HEADER_SIZE
    ensures q == Rematched(Informed(p, r).(state := q.state, nread := q.nread), q)
    ensures Run(p, Head(r)) == Behind(HeadEvents(r), |Head(r)|, AfterHeaders(q))
  {
    hide Run, UrlOkay, VersionOkay, DecValue, RequestLine, HeaderOkay, AfterHeaders, Apply;
    RunRequestLine(p, r);
    var q0 := Run(p, RequestLine(r)).p;
    RunHeaders(q0, r.headers);
    q := Run(q0, Lines(r.headers)).p;
    var ev := [MessageBegin] + DataEvents(Url, r.url);
    GoOn(p, RequestLine(r), q0, ev, Lines(r.headers), q, HeaderEvents(r.headers));
    SummariseKeeps(Summary(NO_FLAGS, ULLONG_MAX), r.headers);
    RunEmptyLine(q, r.end);
    RunSplit(p, RequestLine(r) + Lines(r.headers), r.end);
    assert HeadEvents(r) + ([] + AfterHeaders(q).ev) == HeadEvents(r) + AfterHeaders(q).ev;
  }

  lemma {:induction false} SummariseKeeps(s: Summary, hs: seq<Header>)
    ensures Summarise(s, hs).flags.trailing == s.flags.trailing
  {
    hide Meaning, WordAndBlanks;
    if hs != [] {
      SummariseKeeps(s, hs[..|hs| - 1]);
    }
  }

  /** A request that switches protocols ends with its headers, whatever follows. */
  lemma UpgradeLeaves(p: Parser, r: Request, rest: seq<Byte>)
    requires p.state.StartReq? && HeadOkay(r) && p.nread + |Head(r)| <= HTTP_MAX_HEADER_SIZE && Upgrades(r)
    ensures var t := Run(p, Head(r) + rest);
            t.ctl == Leave && t.used == |Head(r)| && t.ev == HeadEvents(r) + [HeadersComplete, MessageComplete]
  {
    hide Run, HeadOkay, Head, Info, HeadEvents, DecValue;
    var q := RunHead(p, r);
    RunSplit(p, Head(r), rest);
  }

  // ----- the trailer -----

  /** The empty line behind the trailer. */
  lemma RunTrailerEnd(p: Parser, eol: seq<Byte>)
    requires AtLine(p.state) && p.flags.trailing && LineEnd(eol) && p.nread + |eol| <= HTTP_MAX_HEADER_SIZE
    ensures Goes(p, eol, p.(state := HttpStep.NewMessage(p), nread := p.nread + |eol|), [MessageComplete])
  {
    hide Micro, Feed, Run, Goes, HttpStep.NewMessage;
    NextLine(p, eol);
    var p0 := p.(state := HeaderFieldStart);
    var q := p0.(state := HeadersAlmostDone, nread := p.nread + 1);
    SameNewMessage(p, p0);
    SameNewMessage(p, q);
    if eol == [LF] {
      TrailerLineFeed(p0);
      GoByte(p0, LF, p.(state := HttpStep.NewMessage(p), nread := p.nread + 1), [MessageComplete]);
    } else {
      CarriageReturnFeeds(p0);
      TrailerLf(q);
      GoByte(p0, CR, q, []);
      GoByte(q, LF, p.(state := HttpStep.NewMessage(p), nread := p.nread + 2), [MessageComplete]);
      GoOn(p0, [CR], q, [], [LF], p.(state := HttpStep.NewMessage(p), nread := p.nread + 2), [MessageComplete]);
      assert [CR] + [LF] == CRLF && [] + [MessageComplete] == [MessageComplete];
    }
    FromLine(p, eol, p.(state := HttpStep.NewMessage(p), nread := p.nread + |eol|), [MessageComplete]);
  }

  lemma SameNewMessage(p: Parser, q: Parser)
    requires q.flags == p.flags && q.httpMajor == p.httpMajor && q.httpMinor == p.httpMinor
    ensures HttpStep.NewMessage(q) == HttpStep.NewMessage(p)
  {
  }

  lemma FromLine(p: Parser, w: seq<Byte>, q: Parser, ev: seq<Event>)
    requires Run(p, w) == Run(p.(state := HeaderFieldStart), w) && Goes(p.(state := HeaderFieldStart), w, q, ev)
    ensures Goes(p, w, q, ev)
  {
    hide Run;
  }

  lemma TrailerLineFeed(p: Parser)
    requires p.state.HeaderFieldStart? && p.flags.trailing && p.nread < HTTP_MAX_HEADER_SIZE
    ensures Feed(p, LF) == Out(p.(state := HttpStep.NewMessage(p), nread := p.nread + 1), [MessageComplete], Consume)
  {
    hide Micro, React, HttpStep.NewMessage;
    var q := p.(nread := p.nread + 1);
    FieldStartMicro(q);
    var r := q.(state := HeadersAlmostDone);
    JumpsTo(q, LF, r);
    TrailerLf(p.(state := HeadersAlmostDone));
    SameNewMessage(p, p.(state := HeadersAlmostDone));
  }

  /** The headers of the trailer are reported like the other ones, and complete the message. */
  lemma RunTrailer(p: Parser, hs: seq<Header>, end: seq<Byte>)
    requires AtLine(p.state) && p.flags.trailing && (forall i | 0 <= i < |hs| :: HeaderOkay(hs[i])) && LineEnd(end)
    requires p.nread + |Lines(hs)| + |end| <= HTTP_MAX_HEADER_SIZE
    ensures var q := Run(p, Lines(hs) + end).p;
            var s := Summarise(SummaryOf(p), hs);
            var c := p.(flags := s.flags, contentLength := s.length);
            && Goes(p, Lines(hs) + end, q, HeaderEvents(hs) + [MessageComplete])
            && q == Rematched(c.(state := HttpStep.NewMessage(c), nread := p.nread + |Lines(hs)| + |end|), q)
  {
    hide Run, HeaderOkay, Goes, HttpStep.NewMessage, Apply, Summarise, Lines, HeaderEvents, LineEnd, AtLine;
    RunHeaders(p, hs);
    var q := Run(p, Lines(hs)).p;
    SummariseKeeps(SummaryOf(p), hs);
    RunTrailerEnd(q, end);
    var r := q.(state := HttpStep.NewMessage(q), nread := q.nread + |end|);
    GoOn(p, Lines(hs), q, HeaderEvents(hs), end, r, [MessageComplete]);
    EndOf(p, Lines(hs) + end, r, HeaderEvents(hs) + [MessageComplete]);
    var s := Summarise(SummaryOf(p), hs);
    SameNewMessage(q, p.(flags := s.flags, contentLength := s.length));
  }

  // ----- the body -----

  /** The parser behind a whole request. */
  predicate Finished(q: Parser, r: Request) {
    && q.state == (if KeepsAlive(r) then StartReq else Dead) && q.nread == TrailerSize(r.body)
    && q.meth == r.meth && q.httpMajor == DecValue(r.version.major) && q.httpMinor == DecValue(r.version.minor)
    && q.errno == Ok
  }

  lemma NewMessageIs(p: Parser, r: Request)
    requires p.httpMajor == DecValue(r.version.major) && p.httpMinor == DecValue(r.version.minor)
    requires p.flags.keepAlive == Final(r).flags.keepAlive && p.flags.close == Final(r).flags.close
    ensures HttpStep.NewMessage(p) == if KeepsAlive(r) then StartReq else Dead
  {
    hide DecValue, Final;
  }

  /** Chunks and trailer. */
  lemma RunChunkedBody(b: Parser, r: Request)
    requires AtChunk(b) && b == Informed(b, r) && b.errno == Ok && Info(r).flags.chunked && BodyOkay(r)
    ensures var t := Run(b, BodyText(r.body));
            t.ctl == Consume && t.used == |BodyText(r.body)| && Finished(t.p, r) && t.ev == BodyEvents(r.body)
  {
    hide Run, DecValue, Info, KeepsAlive, EncodeAll, DataOf, LastSize, SizeLine, ValidChunk, HttpStep.NewMessage, Lines,
         HeaderEvents, HeaderOkay, Summarise, Finished, AtLine, LineEnd;
    var cs, w, e := r.body.cs, EncodeAll(r.body.cs) + LastSize(r.body.size, r.body.ext), Lines(r.body.trailer) + r.body.end;
    RunToTrailer(b, cs, r.body.size, r.body.ext);
    var q := AfterSize(b.(contentLength := 0));
    StartsLine(q);
    RunTrailer(q, r.body.trailer, r.body.end);
    RunSplit(b, w, e);
    TrailerFinishes(b, r, Run(q, e).p);
    var data := DataEvents(HttpSyntax.Body, DataOf(cs));
    assert data + (HeaderEvents(r.body.trailer) + [MessageComplete]) == data + HeaderEvents(r.body.trailer) + [MessageComplete];
  }

  lemma StartsLine(p: Parser)
    requires p.state.HeaderFieldStart?
    ensures AtLine(p.state)
  {
  }

  lemma TrailerFinishes(b: Parser, r: Request, q: Parser)
    requires b == Informed(b, r) && b.errno == Ok && r.body.Chunks?
    requires var c := AfterSize(b.(contentLength := 0)).(flags := Final(r).flags, contentLength := Final(r).length);
             q == Rematched(c.(state := HttpStep.NewMessage(c), nread := TrailerSize(r.body)), q)
    ensures Finished(q, r)
  {
    hide DecValue, Final, KeepsAlive, HttpStep.NewMessage, Lines;
    NewMessageIs(AfterSize(b.(contentLength := 0)).(flags := Final(r).flags, contentLength := Final(r).length), r);
  }

  /** The body behind the headers. */
  lemma RunBody(q: Parser, r: Request)
    requires q == Rematched(Informed(q, r), q) && !Upgrades(r) && BodyOkay(r) && q.errno == Ok
    ensures var t := Then(AfterHeaders(q), BodyText(r.body));
            && t.ctl == Consume && t.used == 1 + |BodyText(r.body)| && Finished(t.p, r)
            && t.ev == [HeadersComplete] + BodyEvents(r.body)
  {
    hide Run, DecValue, Info, KeepsAlive, BodyText, HttpStep.NewMessage;
    var c := Completed(q).(nread := 0);
    if c.flags.chunked {
      var b := c.(state := ChunkSizeStart);
      hide BodyOkay, BodyEvents, Finished;
      RunChunkedBody(b, r);
    } else {
      RunPlainBody(q, r);
    }
  }

  lemma RunPlainBody(q: Parser, r: Request)
    requires q == Rematched(Informed(q, r), q) && !Upgrades(r) && BodyOkay(r) && !Info(r).flags.chunked && q.errno == Ok
    ensures var t := Then(AfterHeaders(q), BodyText(r.body));
            && t.ctl == Consume && t.used == 1 + |BodyText(r.body)| && Finished(t.p, r)
            && t.ev == [HeadersComplete] + BodyEvents(r.body)
  {
    hide Run, DecValue, Info, KeepsAlive, HttpStep.NewMessage;
    var c := Completed(q).(nread := 0);
    var text := BodyText(r.body);
    NewMessageIs(c, r);
    var data := DataEvents(HttpSyntax.Body, text);
    assert data + [] + [MessageComplete] == data + [MessageComplete];
    if c.contentLength == 0 || c.contentLength == ULLONG_MAX {
      RunEmpty(c.(state := HttpStep.NewMessage(c)));
      assert text == [] && data == [];
    } else {
      var b := c.(state := BodyIdentity);
      IdentityRun(b, text);
      NewMessageIs(b, r);
    }
  }

  /** Whatever the method, the URL, the version, the headers (continued or not), the body and
      its trailer: a request that is written in the usual form is reported piece by piece as
      it was written, completes once, and leaves the parser where the next message starts, or
      closed. */
  lemma RequestRoundTrip(p: Parser, r: Request)
    requires p.state.StartReq? && p.errno == Ok && HeadOkay(r) && BodyOkay(r) && !Upgrades(r)
    requires p.nread + |Head(r)| <= HTTP_MAX_HEADER_SIZE
    ensures var t := Run(p, Build(r));
            t.ctl == Consume && t.used == |Build(r)| && t.ev == Events(r) && Finished(t.p, r)
  {
    hide Run, HeadOkay, BodyOkay, Head, Upgrades, HeadEvents, BodyText, BodyEvents, AfterHeaders, Finished, Informed;
    var q := RunHead(p, r);
    InformedTwice(p, q, r);
    RunBody(q, r);
    RunSplit(p, Head(r), BodyText(r.body));
    AfterHeadersUsed(q);
    assert HeadEvents(r) + ([HeadersComplete] + BodyEvents(r.body)) == Events(r);
  }

  lemma InformedTwice(p: Parser, q: Parser, r: Request)
    requires q == Rematched(Informed(p, r).(state := q.state, nread := q.nread), q)
    ensures q == Rematched(Informed(q, r), q) && q.errno == p.errno
  {
    hide DecValue, Info;
  }

  lemma AfterHeadersUsed(q: Parser)
    ensures AfterHeaders(q).used == 1
  {
  }

  // ----- several requests -----

  function BuildAll(rs: seq<Request>): seq<Byte> {
    if rs == [] then [] else BuildAll(rs[..|rs| - 1]) + Build(rs[|rs| - 1])
  }

  function EventsAll(rs: seq<Request>): seq<Event> {
    if rs == [] then [] else EventsAll(rs[..|rs| - 1]) + Events(rs[|rs| - 1])
  }

  predicate RequestOkay(r: Request) { HeadOkay(r) && BodyOkay(r) && !Upgrades(r) }

  /** The requests fit on one connection: each but the last lets another one follow, and its
      head fits the header limit together with the trailer of the request before it. */
  predicate Pipelined(nread: nat, rs: seq<Request>)
    decreases |rs|
  {
    if rs == [] then true
    else
      var before := rs[..|rs| - 1];
      && Pipelined(nread, before) && (before == [] || KeepsAlive(before[|before| - 1]))
      && RequestOkay(rs[|rs| - 1]) && Counted(nread, before) + |Head(rs[|rs| - 1])| <= HTTP_MAX_HEADER_SIZE
  }

  /** The header bytes counted behind the requests. */
  function Counted(nread: nat, rs: seq<Request>): nat {
    if rs == [] then nread else TrailerSize(rs[|rs| - 1].body)
  }

  /** Requests on one connection are reported one after the other, none leaking into the
      next. */
  lemma {:induction false} PipelineRoundTrip(p: Parser, rs: seq<Request>)
    requires p.state.StartReq? && p.errno == Ok && Pipelined(p.nread, rs)
    ensures var t := Run(p, BuildAll(rs));
            && t.ctl == Consume && t.used == |BuildAll(rs)| && t.ev == EventsAll(rs)
            && t.p.nread == Counted(p.nread, rs) && t.p.errno == Ok
            && (rs == [] || KeepsAlive(rs[|rs| - 1]) ==> t.p.state.StartReq?)
  {
    hide Run, Build, Events, KeepsAlive, RequestOkay, TrailerSize, Head;
    if rs == [] {
      RunEmpty(p);
    } else {
      var n := |rs| - 1;
      PipelineRoundTrip(p, rs[..n]);
      var q := Run(p, BuildAll(rs[..n])).p;
      OneMore(q, rs[n]);
      RunSplit(p, BuildAll(rs[..n]), Build(rs[n]));
    }
  }

  lemma OneMore(q: Parser, r: Request)
    requires q.state.StartReq? && q.errno == Ok && RequestOkay(r) && q.nread + |Head(r)| <= HTTP_MAX_HEADER_SIZE
    ensures var t := Run(q, Build(r));
            && t.ctl == Consume && t.used == |Build(r)| && t.ev == Events(r)
            && t.p.nread == TrailerSize(r.body) && t.p.errno == Ok && (KeepsAlive(r) ==> t.p.state.StartReq?)
  {
    hide Run, Build, Events, KeepsAlive, HeadOkay, BodyOkay, Upgrades, Head;
    RequestRoundTrip(q, r);
  }
}
