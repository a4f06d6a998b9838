/** What holds of the parser between any two bytes. */
module HttpInvariant {
  import opened HttpSyntax
  import opened HttpStep

  /** The largest sizes the digit loops can store. */
  const MAX_CONTENT_LENGTH: nat := 18446744073709551609
  const MAX_CHUNK_SIZE: nat := 0x1_0000_0000_0000_0000 - 17

  predicate FieldMatcherOk(h: HeaderState, index: nat) {
    match h
    case General => index <= 16
    case C => index == 0
    case CO => index == 1
    case CON => index == 2
    case MatchingConnection => 3 <= index < 9
    case MatchingContentLength => 3 <= index < 13
    case MatchingProxyConnection => index < 15
    case MatchingTransferEncoding => index < 16
    case MatchingUpgrade => index < 6
    case Connection => index == 9 || index == 15
    case ContentLength => index == 13
    case TransferEncoding => index == 16
    case Upgrade => index == 6
    case _ => false
  }

  predicate ValueMatcherOk(h: HeaderState, index: nat) {
    match h
    case General => index <= 9
    case ContentLength => index == 0
    case MatchingChunked => index < 6
    case MatchingKeepAlive => index < 9
    case MatchingClose => index < 4
    case Chunked => index == 6
    case KeepAlive => index == 9
    case Close => index == 4
    case _ => false
  }

  /** The constraint a state puts on the other fields: what the assertions of the
      source rely on. */
  predicate StateOk(p: Parser) {
    && (p.state.ReqMethod? ==> 1 <= p.index <= |MethodString(p.meth)|)
    && (p.state.HeaderField? ==> FieldMatcherOk(p.headerState, p.index))
    && (p.state.HeaderValue? ==> ValueMatcherOk(p.headerState, p.index))
    && (p.state.ChunkSizeStart? ==> p.flags.chunked && p.nread == 0)
    && (p.state.ChunkSize? || p.state.ChunkParameters? || p.state.ChunkSizeAlmostDone? ==>
          p.flags.chunked && p.contentLength <= MAX_CHUNK_SIZE)
    && (p.state.ChunkData? ==> p.flags.chunked && 0 < p.contentLength <= MAX_CHUNK_SIZE)
    && (p.state.ChunkDataAlmostDone? ==> p.flags.chunked && p.contentLength == 0)
    && (p.state.ChunkDataDone? ==> p.flags.chunked)
    && (p.state.BodyIdentity? ==> 0 < p.contentLength <= MAX_CONTENT_LENGTH)
  }

  /** Holds also while the source jumps back to the current byte. */
  predicate MidInv(p: Parser) {
    && p.errno == Ok
    && p.index <= 18
    && p.httpMajor <= 999 && p.httpMinor <= 999
    && (p.contentLength <= MAX_CONTENT_LENGTH || p.contentLength == ULLONG_MAX)
    && p.nread <= HTTP_MAX_HEADER_SIZE
    && (p.state.ChunkSizeStart? || StateOk(p))
    && (p.state.ChunkSizeStart? ==> p.flags.chunked && p.nread == 1)
  }

  /** Holds between bytes.  `HeadersDone` and `MessageDone` are never at rest. */
  predicate Inv(p: Parser) {
    && p.errno == Ok
    && p.index <= 18
    && p.httpMajor <= 999 && p.httpMinor <= 999
    && (p.contentLength <= MAX_CONTENT_LENGTH || p.contentLength == ULLONG_MAX)
    && p.nread <= HTTP_MAX_HEADER_SIZE
    && StateOk(p)
    && !p.state.HeadersDone? && !p.state.MessageDone?
  }

  lemma InitInv()
    ensures Inv(Init())
  {
  }

  /** The 64-bit guard: an accepted digit is pushed without wrap-around. */
  lemma PushDigitExact(n: nat, base: nat, d: nat)
    requires base == 10 || base == 16
    requires d < base
    ensures PushDigit(n, base, d).0 <==> n * base + d <= if base == 10 then MAX_CONTENT_LENGTH else MAX_CHUNK_SIZE
    ensures PushDigit(n, base, d).0 ==> PushDigit(n, base, d).1 == n * base + d
  {
  }

  lemma UnhexRange(ch: Byte)
    ensures -1 <= Unhex(ch) < 16
  {
  }

  lemma FieldMatchOk(h: HeaderState, index: nat, c: Byte)
    requires FieldMatcherOk(h, index) && index <= 18
    requires c != '\0'
    ensures FieldMatcherOk(FieldMatch(h, index, c).0, FieldMatch(h, index, c).1)
  {
  }

  ghost predicate Rests(o: Out) {
    if o.ctl == Error then o.p.errno != Ok && o.p.errno != InvalidInternalState && o.ev == []
    else if o.ctl == Reexecute then MidInv(o.p)
    else Inv(o.p)
  }

  lemma OtherMethodFits(m: Method, index: nat, ch: Byte)
    requires OtherMethod(m, index, ch).SomeMethod?
    ensures index + 1 <= |MethodString(OtherMethod(m, index, ch).m)|
  {
  }

  lemma MicroMethodInv(p: Parser, ch: Byte)
    requires MidInv(p) && p.state.ReqMethod?
    ensures Rests(MicroMethod(p, ch))
  {
    var name := MethodString(p.meth);
    assert |name| <= 11;
    if ch == '\0' {
    } else if ch == ' ' && p.index == |name| {
    } else if p.index < |name| && ch == name[p.index] {
    } else {
      var other := OtherMethod(p.meth, p.index, ch);
      if other.SomeMethod? {
        OtherMethodFits(p.meth, p.index, ch);
      }
    }
  }

  lemma MicroStartInv(p: Parser, ch: Byte)
    requires MidInv(p) && (p.state.Dead? || p.state.StartReq?)
    ensures Rests(MicroMethod(p, ch))
  {
  }

  lemma ParseUrlCharInUrl(s: State, ch: Byte)
    ensures ParseUrlChar(s, ch).Dead? || InUrl(ParseUrlChar(s, ch))
  {
  }

  lemma MicroUrlInv(p: Parser, ch: Byte)
    requires MidInv(p) && (p.state.ReqSpacesBeforeUrl? || InUrl(p.state))
    ensures Rests(MicroUrl(p, ch))
  {
    hide ParseUrlChar;
    ParseUrlCharInUrl(ReqServerStart, ch);
    ParseUrlCharInUrl(p.state, ch);
  }

  predicate VersionLiteral(s: State) {
    s.ReqHttpStart? || s.ReqHttpH? || s.ReqHttpHT? || s.ReqHttpHTT? || s.ReqHttpHTTP?
  }

  lemma MicroVersionInv(p: Parser, ch: Byte)
    requires MidInv(p) && (p.state.ReqHttpStart? || p.state.ReqHttpH? || p.state.ReqHttpHT?)
    ensures Rests(MicroVersion(p, ch))
  {
  }

  lemma MicroSlashInv(p: Parser, ch: Byte)
    requires MidInv(p) && (p.state.ReqHttpHTT? || p.state.ReqHttpHTTP? || p.state.ReqLineAlmostDone?)
    ensures Rests(MicroVersion(p, ch))
  {
  }

  lemma MicroMajorInv(p: Parser, ch: Byte)
    requires MidInv(p) && (p.state.ReqFirstHttpMajor? || p.state.ReqHttpMajor?)
    ensures Rests(MicroVersion(p, ch))
  {
    hide FieldMatcherOk, ValueMatcherOk;
  }

  lemma MicroMinorInv(p: Parser, ch: Byte)
    requires MidInv(p) && (p.state.ReqFirstHttpMinor? || p.state.ReqHttpMinor?)
    ensures Rests(MicroVersion(p, ch))
  {
    hide FieldMatcherOk, ValueMatcherOk;
    if p.state.ReqFirstHttpMinor? {
    } else if ch == CR {
    } else if ch == LF {
    } else if IsNum(ch) {
    } else {
    }
  }

  lemma MicroFieldStartInv(p: Parser, ch: Byte)
    requires MidInv(p) && p.state.HeaderFieldStart?
    ensures Rests(MicroField(p, ch))
  {
  }

  lemma MicroFieldInv(p: Parser, ch: Byte)
    requires MidInv(p) && p.state.HeaderField?
    ensures Rests(MicroField(p, ch))
  {
    hide FieldMatch, FieldMatcherOk, ValueMatcherOk, FirstFieldState;
    if Token(ch) != '\0' {
      FieldMatchOk(p.headerState, p.index, Token(ch));
    }
  }

  lemma LengthStartInv(p: Parser, ch: Byte)
    requires MidInv(p) && p.headerState.ContentLength?
    ensures Rests(ValueStart(p, ch))
  {
  }

  lemma WordStartInv(p: Parser, ch: Byte)
    requires MidInv(p) && (p.headerState.Connection? || p.headerState.TransferEncoding?)
    ensures Rests(ValueStart(p, ch))
  {
    hide IsNum;
  }

  lemma ValueStartInv(p: Parser, ch: Byte)
    requires MidInv(p)
    ensures Rests(ValueStart(p, ch))
  {
    hide Lower;
    if p.headerState.ContentLength? {
      LengthStartInv(p, ch);
    } else if p.headerState.Connection? || p.headerState.TransferEncoding? {
      WordStartInv(p, ch);
    }
  }

  lemma ValueMatchOk(h: HeaderState, index: nat, ch: Byte)
    requires ValueMatcherOk(h, index) && h != ContentLength
    ensures ValueMatcherOk(ValueMatch(h, index, ch).0, ValueMatch(h, index, ch).1)
    ensures ValueMatch(h, index, ch).1 <= 18
  {
  }

  lemma ValueNextInv(p: Parser, ch: Byte)
    requires MidInv(p) && p.state.HeaderValue?
    ensures Rests(ValueNext(p, ch))
  {
    hide ValueMatch;
    if p.headerState.ContentLength? {
      if IsNum(ch) {
        PushDigitExact(p.contentLength, 10, Digit(ch));
      }
    } else if !p.headerState.General? {
      ValueMatchOk(p.headerState, p.index, ch);
    }
  }

  lemma MicroValueStartInv(p: Parser, ch: Byte)
    requires MidInv(p) && (p.state.HeaderValueStart? || p.state.HeaderAlmostDone?)
    ensures Rests(MicroValue(p, ch))
  {
    hide ValueStart, ValueNext;
    if p.state.HeaderValueStart? {
      ValueStartInv(p, ch);
    }
  }

  lemma MicroValueInv(p: Parser, ch: Byte)
    requires MidInv(p) && (p.state.HeaderValue? || p.state.HeaderValueLws?)
    ensures Rests(MicroValue(p, ch))
  {
    hide FieldMatcherOk, ValueMatcherOk, ValueNext, ValueStart;
    if p.state.HeaderValue? {
      ValueNextInv(p, ch);
    }
  }

  lemma MicroHeadersEndInv(p: Parser, ch: Byte)
    requires MidInv(p) && GroupOf(p.state) == GHeadersEnd
    ensures Rests(MicroHeadersEnd(p, ch))
  {
    hide FieldMatcherOk, ValueMatcherOk;
  }

  lemma MicroChunkSizeInv(p: Parser, ch: Byte)
    requires MidInv(p) && (p.state.ChunkSizeStart? || p.state.ChunkSize?)
    ensures Rests(MicroChunk(p, ch))
  {
    hide FieldMatcherOk, ValueMatcherOk, Unhex;
    UnhexRange(ch);
    if Unhex(ch) != -1 {
      PushDigitExact(p.contentLength, 16, Unhex(ch));
    }
  }

  lemma MicroChunkEndInv(p: Parser, ch: Byte)
    requires MidInv(p) && (p.state.ChunkParameters? || p.state.ChunkSizeAlmostDone?)
    ensures Rests(MicroChunk(p, ch))
  {
  }

  lemma MicroIdentityInv(p: Parser, ch: Byte)
    requires MidInv(p) && (p.state.BodyIdentity? || p.state.MessageDone?)
    ensures Rests(MicroBody(p, ch))
  {
  }

  lemma MicroChunkDataInv(p: Parser, ch: Byte)
    requires MidInv(p) && (p.state.ChunkData? || p.state.ChunkDataAlmostDone? || p.state.ChunkDataDone?)
    ensures Rests(MicroBody(p, ch))
  {
  }

  lemma MicroInv(p: Parser, ch: Byte)
    requires MidInv(p)
    ensures Rests(Micro(p, ch))
  {
    hide MicroMethod, MicroUrl, MicroVersion, MicroField, MicroValue, MicroHeadersEnd, MicroChunk, MicroBody, Rests;
    match p.state
    case ReqMethod => MicroMethodInv(p, ch);
    case Dead | StartReq => MicroStartInv(p, ch);
    case ReqHttpStart | ReqHttpH | ReqHttpHT => MicroVersionInv(p, ch);
    case ReqHttpHTT | ReqHttpHTTP | ReqLineAlmostDone => MicroSlashInv(p, ch);
    case ReqFirstHttpMajor | ReqHttpMajor => MicroMajorInv(p, ch);
    case ReqFirstHttpMinor | ReqHttpMinor => MicroMinorInv(p, ch);
    case HeaderFieldStart => MicroFieldStartInv(p, ch);
    case HeaderField => MicroFieldInv(p, ch);
    case HeaderValueStart | HeaderAlmostDone => MicroValueStartInv(p, ch);
    case HeaderValue | HeaderValueLws => MicroValueInv(p, ch);
    case HeadersAlmostDone | HeadersDone => MicroHeadersEndInv(p, ch);
    case ChunkSizeStart | ChunkSize => MicroChunkSizeInv(p, ch);
    case ChunkParameters | ChunkSizeAlmostDone => MicroChunkEndInv(p, ch);
    case BodyIdentity | MessageDone => MicroIdentityInv(p, ch);
    case ChunkData | ChunkDataAlmostDone | ChunkDataDone => MicroChunkDataInv(p, ch);
    case _ => MicroUrlInv(p, ch);
  }

  /** A byte with all jumps back to it keeps the invariant, or fails with an ordinary error. */
  lemma {:induction false} ReactInv(p: Parser, ch: Byte)
    requires MidInv(p)
    ensures React(p, ch).ctl == Error ==> React(p, ch).p.errno !in {Ok, InvalidInternalState}
    ensures React(p, ch).ctl != Error ==> Inv(React(p, ch).p)
    decreases Rank(p.state)
  {
    hide Micro;
    MicroInv(p, ch);
    var o := Micro(p, ch);
    if o.ctl == Reexecute {
      ReexecuteTerminates(p, ch);
      ReactInv(o.p, ch);
    }
  }

  lemma InvMid(p: Parser)
    requires Inv(p) && !p.state.ChunkSizeStart?
    ensures MidInv(p)
  {
  }

  lemma CountedMidInv(p: Parser)
    requires Inv(p)
    requires ParsingHeader(p.state) ==> p.nread < HTTP_MAX_HEADER_SIZE
    ensures MidInv(CountHeader(p))
  {
  }

  lemma FeedInv(p: Parser, ch: Byte)
    requires Inv(p)
    ensures Feed(p, ch).ctl == Error ==> Feed(p, ch).p.errno !in {Ok, InvalidInternalState}
    ensures Feed(p, ch).ctl != Error ==> Inv(Feed(p, ch).p)
  {
    hide React;
    if !ParsingHeader(p.state) || p.nread < HTTP_MAX_HEADER_SIZE {
      CountedMidInv(p);
      ReactInv(CountHeader(p), ch);
    }
  }

  /** Every state that any input reaches satisfies the invariant: no default branch
      of the switch is taken, every matcher index stays inside its word, and stored
      sizes stay below the limits or are the sentinel ULLONG_MAX. */
  lemma {:induction false} RunInv(p: Parser, s: seq<Byte>)
    requires Inv(p)
    ensures Run(p, s).ctl == Error ==> Run(p, s).p.errno !in {Ok, InvalidInternalState}
    ensures Run(p, s).ctl != Error ==> Inv(Run(p, s).p)
    decreases |s|
  {
    hide Feed;
    if s != [] {
      FeedInv(p, s[0]);
      if Feed(p, s[0]).ctl == Consume {
        RunInv(Feed(p, s[0]).p, s[1..]);
      }
    }
  }
}
