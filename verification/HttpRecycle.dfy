/** Pipelined messages: nothing of one message is visible to the next, except the header
    bytes of a trailer, which stay counted (`HttpReuse`). */
module HttpRecycle {
  import opened HttpSyntax
  import opened HttpStep
  import opened HttpInvariant

  /** The states before the major version number has been read. */
  predicate BeforeMajor(s: State) {
    || s.ReqSpacesBeforeUrl? || InUrl(s) || s.Dead? || s.StartReq? || s.ReqMethod?
    || s.ReqHttpStart? || s.ReqHttpH? || s.ReqHttpHT? || s.ReqHttpHTT? || s.ReqHttpHTTP? || s.ReqFirstHttpMajor?
  }

  predicate BeforeMinor(s: State) { BeforeMajor(s) || s.ReqHttpMajor? || s.ReqFirstHttpMinor? }

  /** The states in which the matcher for names and values is in use. */
  predicate MatcherLive(s: State) {
    s.HeaderField? || s.HeaderValueStart? || s.HeaderValue? || s.HeaderAlmostDone? || s.HeaderValueLws?
  }

  /** The parsers agree on every field the future can depend on in their state, except
      that `p` may have counted more header bytes unless `exact`. */
  predicate Alike(p: Parser, q: Parser, exact: bool) {
    && p.state == q.state && p.errno == Ok == q.errno
    && (if exact then p.nread == q.nread else p.nread >= q.nread)
    && (!p.state.StartReq? && !p.state.Dead? ==>
          p.flags == q.flags && p.contentLength == q.contentLength && p.meth == q.meth)
    && (p.state.ReqMethod? ==> p.index == q.index)
    && (MatcherLive(p.state) ==> p.headerState == q.headerState && p.index == q.index)
    && (!BeforeMajor(p.state) ==> p.httpMajor == q.httpMajor)
    && (!BeforeMinor(p.state) ==> p.httpMinor == q.httpMinor)
    && (p.state.HeadersDone? ==> p.upgrade == q.upgrade)
  }

  /** The same report, and afterwards alike again. */
  predicate SameOut(o: Out, u: Out, exact: bool) {
    && o.ctl == u.ctl && o.ev == u.ev
    && if o.ctl == Error then o.p.errno == u.p.errno else Alike(o.p, u.p, exact)
  }

  lemma MethodAlike(p: Parser, q: Parser, exact: bool, ch: Byte)
    requires Alike(p, q, exact) && GroupOf(p.state) == GMethod
    ensures SameOut(MicroMethod(p, ch), MicroMethod(q, ch), exact)
  {
    hide FirstMethod, OtherMethod, MethodString;
  }

  lemma UrlStartAlike(p: Parser, q: Parser, exact: bool, ch: Byte)
    requires Alike(p, q, exact) && p.state.ReqSpacesBeforeUrl?
    ensures SameOut(MicroUrl(p, ch), MicroUrl(q, ch), exact)
  {
    hide ParseUrlChar;
    ParseUrlCharInUrl(ReqServerStart, ch);
    ParseUrlCharInUrl(p.state, ch);
  }

  lemma UrlAlike(p: Parser, q: Parser, exact: bool, ch: Byte)
    requires Alike(p, q, exact) && InUrl(p.state)
    ensures SameOut(MicroUrl(p, ch), MicroUrl(q, ch), exact)
  {
    hide ParseUrlChar, UrlMayEnd;
    ParseUrlCharInUrl(p.state, ch);
  }

  lemma VersionAlike(p: Parser, q: Parser, exact: bool, ch: Byte)
    requires Alike(p, q, exact) && (p.state.ReqHttpStart? || p.state.ReqHttpH? || p.state.ReqHttpHT?)
    ensures SameOut(MicroVersion(p, ch), MicroVersion(q, ch), exact)
  {
  }

  lemma SlashAlike(p: Parser, q: Parser, exact: bool, ch: Byte)
    requires Alike(p, q, exact) && (p.state.ReqHttpHTT? || p.state.ReqHttpHTTP? || p.state.ReqLineAlmostDone?)
    ensures SameOut(MicroVersion(p, ch), MicroVersion(q, ch), exact)
  {
  }

  lemma MajorAlike(p: Parser, q: Parser, exact: bool, ch: Byte)
    requires Alike(p, q, exact) && (p.state.ReqFirstHttpMajor? || p.state.ReqHttpMajor?)
    ensures SameOut(MicroVersion(p, ch), MicroVersion(q, ch), exact)
  {
  }

  lemma MinorAlike(p: Parser, q: Parser, exact: bool, ch: Byte)
    requires Alike(p, q, exact) && (p.state.ReqFirstHttpMinor? || p.state.ReqHttpMinor?)
    ensures SameOut(MicroVersion(p, ch), MicroVersion(q, ch), exact)
  {
  }

  lemma FieldAlike(p: Parser, q: Parser, exact: bool, ch: Byte)
    requires Alike(p, q, exact) && GroupOf(p.state) == GField
    ensures SameOut(MicroField(p, ch), MicroField(q, ch), exact)
  {
    hide FieldMatch, FirstFieldState, Token;
  }

  lemma ValueAlike(p: Parser, q: Parser, exact: bool, ch: Byte)
    requires Alike(p, q, exact) && GroupOf(p.state) == GValue
    ensures SameOut(MicroValue(p, ch), MicroValue(q, ch), exact)
  {
    hide ValueMatch, Lower, PushDigit, RaiseFlag;
  }

  lemma HeadersEndAlike(p: Parser, q: Parser, exact: bool, ch: Byte)
    requires Alike(p, q, exact) && GroupOf(p.state) == GHeadersEnd
    ensures SameOut(MicroHeadersEnd(p, ch), MicroHeadersEnd(q, ch), exact)
  {
  }

  lemma ChunkStartAlike(p: Parser, q: Parser, exact: bool, ch: Byte)
    requires Alike(p, q, exact) && p.state.ChunkSizeStart?
    ensures SameOut(MicroChunk(p, ch), MicroChunk(q, ch), exact)
  {
    hide Unhex;
    UnhexRange(ch);
  }

  lemma ChunkSizeAlike(p: Parser, q: Parser, exact: bool, ch: Byte)
    requires Alike(p, q, exact) && p.state.ChunkSize?
    ensures SameOut(MicroChunk(p, ch), MicroChunk(q, ch), exact)
  {
    hide Unhex, PushDigit;
    UnhexRange(ch);
  }

  lemma ChunkEndAlike(p: Parser, q: Parser, exact: bool, ch: Byte)
    requires Alike(p, q, exact) && (p.state.ChunkParameters? || p.state.ChunkSizeAlmostDone?)
    ensures SameOut(MicroChunk(p, ch), MicroChunk(q, ch), exact)
  {
  }

  lemma IdentityAlike(p: Parser, q: Parser, exact: bool, ch: Byte)
    requires Alike(p, q, exact) && (p.state.BodyIdentity? || p.state.MessageDone?)
    ensures SameOut(MicroBody(p, ch), MicroBody(q, ch), exact)
  {
  }

  lemma ChunkDataAlike(p: Parser, q: Parser, exact: bool, ch: Byte)
    requires Alike(p, q, exact) && (p.state.ChunkData? || p.state.ChunkDataAlmostDone? || p.state.ChunkDataDone?)
    ensures SameOut(MicroBody(p, ch), MicroBody(q, ch), exact)
  {
  }

  lemma MicroAlike(p: Parser, q: Parser, exact: bool, ch: Byte)
    requires Alike(p, q, exact)
    ensures SameOut(Micro(p, ch), Micro(q, ch), exact)
  {
    hide SameOut, MicroMethod, MicroUrl, MicroVersion, MicroField, MicroValue, MicroHeadersEnd, MicroChunk, MicroBody;
    match p.state
    case Dead | StartReq | ReqMethod => MethodAlike(p, q, exact, ch);
    case ReqHttpStart | ReqHttpH | ReqHttpHT => VersionAlike(p, q, exact, ch);
    case ReqHttpHTT | ReqHttpHTTP | ReqLineAlmostDone => SlashAlike(p, q, exact, ch);
    case ReqFirstHttpMajor | ReqHttpMajor => MajorAlike(p, q, exact, ch);
    case ReqFirstHttpMinor | ReqHttpMinor => MinorAlike(p, q, exact, ch);
    case HeaderFieldStart | HeaderField => FieldAlike(p, q, exact, ch);
    case HeaderValueStart | HeaderValue | HeaderValueLws | HeaderAlmostDone => ValueAlike(p, q, exact, ch);
    case HeadersAlmostDone | HeadersDone => HeadersEndAlike(p, q, exact, ch);
    case ChunkSizeStart => ChunkStartAlike(p, q, exact, ch);
    case ChunkSize => ChunkSizeAlike(p, q, exact, ch);
    case ChunkParameters | ChunkSizeAlmostDone => ChunkEndAlike(p, q, exact, ch);
    case BodyIdentity | MessageDone => IdentityAlike(p, q, exact, ch);
    case ChunkData | ChunkDataAlmostDone | ChunkDataDone => ChunkDataAlike(p, q, exact, ch);
    case ReqSpacesBeforeUrl => UrlStartAlike(p, q, exact, ch);
    case _ => UrlAlike(p, q, exact, ch);
  }

  lemma {:induction false} ReactAlike(p: Parser, q: Parser, exact: bool, ch: Byte)
    requires Alike(p, q, exact)
    ensures SameOut(React(p, ch), React(q, ch), exact)
    decreases Rank(p.state)
  {
    hide Micro;
    MicroAlike(p, q, exact, ch);
    ReexecuteTerminates(p, ch);
    ReexecuteTerminates(q, ch);
    if Micro(p, ch).ctl == Reexecute {
      ReactAlike(Micro(p, ch).p, Micro(q, ch).p, exact, ch);
    }
  }

  lemma FeedAlike(p: Parser, q: Parser, exact: bool, ch: Byte)
    requires Alike(p, q, exact)
    requires exact || Feed(p, ch).ctl != Error || Feed(p, ch).p.errno != HeaderOverflow
    ensures SameOut(Feed(p, ch), Feed(q, ch), exact)
  {
    hide React;
    ReactAlike(CountHeader(p), CountHeader(q), exact, ch);
  }

  /** Alike parsers report the same for every input, unless the one that has counted
      more header bytes hits the header limit. */
  lemma {:induction false} RunAlike(p: Parser, q: Parser, exact: bool, s: seq<Byte>)
    requires Alike(p, q, exact)
    requires exact || Run(p, s).p.errno != HeaderOverflow
    ensures Run(p, s).ev == Run(q, s).ev && Run(p, s).used == Run(q, s).used && Run(p, s).ctl == Run(q, s).ctl
    ensures if Run(p, s).ctl == Error then Run(p, s).p.errno == Run(q, s).p.errno
            else Alike(Run(p, s).p, Run(q, s).p, exact)
    decreases |s|
  {
    hide Feed;
    if s != [] {
      FeedAlike(p, q, exact, s[0]);
      if Feed(p, s[0]).ctl == Consume {
        RunAlike(Feed(p, s[0]).p, Feed(q, s[0]).p, exact, s[1..]);
      }
    }
  }

  /** A parser that has come back to the start state after a message behaves on any
      further input like one newly initialised: no flag, length, matcher index, method
      or version of the earlier message is visible.  The one exception is the header
      size limit, because the bytes of a trailer stay counted. */
  lemma RecycledIsFresh(p: Parser, s: seq<Byte>)
    requires p.state.StartReq? && p.errno == Ok
    requires p.nread == 0 || Run(p, s).p.errno != HeaderOverflow
    ensures var t, u := Run(p, s), Run(Init(), s);
            && t.ev == u.ev && t.used == u.used && t.ctl == u.ctl && t.p.errno == u.p.errno
            && (t.ctl != Error ==> t.p.state == u.p.state)
  {
    hide Run;
    RunAlike(p, Init(), p.nread == 0, s);
  }
}
