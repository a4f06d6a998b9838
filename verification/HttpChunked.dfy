/** The chunked coding of section 3.6.1 of RFC 2616: writing a body in chunks and
    parsing it gives the body back. */
module HttpChunked {
  import opened HttpSyntax
  import opened HttpStep
  import opened HttpInvariant
  import opened HttpBodies
  import opened HttpNumbers

  const CRLF: seq<Byte> := [CR, LF]

  /** One chunk as it is sent: the digits of its size, an extension, and the data. */
  datatype Chunk = Chunk(size: seq<Byte>, ext: seq<Byte>, data: seq<Byte>)

  predicate NoCr(s: seq<Byte>) { forall i | 0 <= i < |s| :: s[i] != CR }

  predicate ChunkExtension(ext: seq<Byte>) {
    ext == [] || ((ext[0] == ';' || ext[0] == ' ') && NoCr(ext))
  }

  /** A size line that announces `n` bytes. */
  predicate SizeLine(size: seq<Byte>, ext: seq<Byte>, n: nat) {
    && size != [] && HexBytes(size) && HexValue(size) == n <= MAX_CHUNK_SIZE
    && ChunkExtension(ext)
    && |size| + |ext| + 2 <= HTTP_MAX_HEADER_SIZE
  }

  predicate ValidChunk(c: Chunk) { c.data != [] && SizeLine(c.size, c.ext, |c.data|) }

  function Encode(c: Chunk): seq<Byte> { c.size + c.ext + CRLF + c.data + CRLF }

  function EncodeAll(cs: seq<Chunk>): seq<Byte> {
    if cs == [] then [] else Encode(cs[0]) + EncodeAll(cs[1..])
  }

  function DataOf(cs: seq<Chunk>): seq<Byte> {
    if cs == [] then [] else cs[0].data + DataOf(cs[1..])
  }

  /** A parser about to read a chunk. */
  predicate AtChunk(p: Parser) { p.state.ChunkSizeStart? && p.nread == 0 }

  lemma {:induction false} RunParameters(p: Parser, w: seq<Byte>)
    requires p.state.ChunkParameters? && NoCr(w) && p.nread + |w| <= HTTP_MAX_HEADER_SIZE
    ensures Run(p, w) == Trace(p.(nread := p.nread + |w|), [], |w|, Consume)
    decreases |w|
  {
    hide Feed;
    if w != [] {
      ChunkStateByte(p, w[0]);
      RunParameters(p.(nread := p.nread + 1), w[1..]);
    }
  }

  lemma ExtensionStart(p: Parser, ch: Byte)
    requires p.state.ChunkSize? && (ch == ';' || ch == ' ') && p.nread < HTTP_MAX_HEADER_SIZE
    ensures Feed(p, ch) == Out(p.(state := ChunkParameters, nread := p.nread + 1), [], Consume)
  {
    hide Feed;
    ChunkStateByte(p, ch);
  }

  /** The extension is skipped, whatever it says. */
  lemma RunExtension(p: Parser, ext: seq<Byte>)
    requires p.state.ChunkSize? && ChunkExtension(ext) && p.nread + |ext| <= HTTP_MAX_HEADER_SIZE
    ensures Run(p, ext) == Trace(p.(state := if ext == [] then ChunkSize else ChunkParameters, nread := p.nread + |ext|),
                                 [], |ext|, Consume)
  {
    hide Feed;
    if ext != [] {
      ExtensionStart(p, ext[0]);
      RunParameters(Feed(p, ext[0]).p, ext[1..]);
    }
  }

  lemma SizeCr(p: Parser)
    requires (p.state.ChunkSize? || p.state.ChunkParameters?) && p.nread < HTTP_MAX_HEADER_SIZE
    ensures Feed(p, CR) == Out(p.(state := ChunkSizeAlmostDone, nread := p.nread + 1), [], Consume)
  {
    hide Feed;
    ChunkStateByte(p, CR);
  }

  /** The state after the size line of a chunk with `contentLength` bytes. */
  function AfterSize(p: Parser): Parser {
    if p.contentLength == 0 then p.(nread := 0, flags := p.flags.(trailing := true), state := HeaderFieldStart)
    else p.(nread := 0, state := ChunkData)
  }

  lemma SizeLf(p: Parser)
    requires p.state.ChunkSizeAlmostDone? && p.nread < HTTP_MAX_HEADER_SIZE
    ensures Feed(p, LF) == Out(AfterSize(p), [], Consume)
  {
    hide Feed;
    ChunkStateByte(p, LF);
  }

  lemma RunSizeEnd(p: Parser)
    requires (p.state.ChunkSize? || p.state.ChunkParameters?) && p.nread + 2 <= HTTP_MAX_HEADER_SIZE
    ensures Run(p, CRLF) == Trace(AfterSize(p), [], 2, Consume)
  {
    hide Feed;
    SizeCr(p);
    var q := p.(state := ChunkSizeAlmostDone, nread := p.nread + 1);
    SizeLf(q);
    assert CRLF[1..] == [LF] && [LF][1..] == [];
    assert AfterSize(q) == AfterSize(p);
    assert Run(q, [LF]) == Trace(AfterSize(q), [], 1, Consume);
  }

  lemma RunSizeLine(p: Parser, size: seq<Byte>, ext: seq<Byte>, n: nat)
    requires AtChunk(p) && SizeLine(size, ext, n)
    ensures Run(p, size + ext + CRLF) == Trace(AfterSize(p.(contentLength := n)), [], |size| + |ext| + 2, Consume)
  {
    hide Run, HexBytes, HexValue;
    ChunkSizeDecided(p, size);
    var q := Run(p, size).p;
    RunExtension(q, ext);
    RunSplit(p, size, ext);
    var r := Run(p, size + ext).p;
    RunSizeEnd(r);
    RunSplit(p, size + ext, CRLF);
    assert AfterSize(r) == AfterSize(p.(contentLength := n));
  }

  lemma DataCr(p: Parser)
    requires p.state.ChunkDataAlmostDone?
    ensures Feed(p, CR) == Out(p.(state := ChunkDataDone), [], Consume)
  {
    hide MicroMethod, MicroUrl, MicroVersion, MicroField, MicroValue, MicroHeadersEnd, MicroChunk;
  }

  lemma DataLf(p: Parser)
    requires p.state.ChunkDataDone?
    ensures Feed(p, LF) == Out(p.(state := ChunkSizeStart, nread := 0), [], Consume)
  {
    hide MicroMethod, MicroUrl, MicroVersion, MicroField, MicroValue, MicroHeadersEnd, MicroChunk;
  }

  lemma RunDataEnd(p: Parser)
    requires p.state.ChunkDataAlmostDone?
    ensures Run(p, CRLF) == Trace(p.(state := ChunkSizeStart, nread := 0), [], 2, Consume)
  {
    hide Feed;
    DataCr(p);
    var q := p.(state := ChunkDataDone);
    DataLf(q);
    assert CRLF[1..] == [LF] && [LF][1..] == [];
    assert Run(q, [LF]) == Trace(q.(state := ChunkSizeStart, nread := 0), [], 1, Consume);
  }

  /** One chunk delivers its data and leaves the parser before the next one. */
  lemma RunChunk(p: Parser, c: Chunk)
    requires AtChunk(p) && ValidChunk(c)
    ensures Run(p, Encode(c)) == Trace(p.(contentLength := 0), DataEvents(Body, c.data), |Encode(c)|, Consume)
  {
    hide Run, SizeLine;
    var line := c.size + c.ext + CRLF;
    SizeLineFacts(c.size, c.ext, |c.data|);
    RunSizeLine(p, c.size, c.ext, |c.data|);
    var q := p.(contentLength := |c.data|, nread := 0, state := ChunkData);
    ChunkRun(q, c.data);
    RunSplit(p, line, c.data);
    var r := q.(contentLength := 0, state := ChunkDataAlmostDone);
    RunDataEnd(r);
    RunSplit(p, line + c.data, CRLF);
    assert [] + DataEvents(Body, c.data) == DataEvents(Body, c.data) == DataEvents(Body, c.data) + [];
  }

  lemma SizeLineFacts(size: seq<Byte>, ext: seq<Byte>, n: nat)
    requires SizeLine(size, ext, n)
    ensures n <= MAX_CHUNK_SIZE
  {
  }

  lemma {:induction false} RunChunks(p: Parser, cs: seq<Chunk>)
    requires AtChunk(p) && (forall i | 0 <= i < |cs| :: ValidChunk(cs[i]))
    requires cs != [] || p.contentLength == 0
    ensures Run(p, EncodeAll(cs)) == Trace(p.(contentLength := 0), DataEvents(Body, DataOf(cs)), |EncodeAll(cs)|, Consume)
    decreases |cs|
  {
    hide ValidChunk, Encode;
    if cs == [] {
      RunEmpty(p);
    } else {
      hide Run;
      RunChunk(p, cs[0]);
      RunSplit(p, Encode(cs[0]), EncodeAll(cs[1..]));
      RunChunks(p.(contentLength := 0), cs[1..]);
      DataEventsSplit(cs[0].data, DataOf(cs[1..]));
    }
  }

  lemma DataEventsSplit(a: seq<Byte>, b: seq<Byte>)
    ensures DataEvents(Body, a) + DataEvents(Body, b) == DataEvents(Body, a + b)
  {
  }

  lemma TrailerCr(p: Parser)
    requires p.state.HeaderFieldStart? && p.nread < HTTP_MAX_HEADER_SIZE
    ensures Feed(p, CR) == Out(p.(state := HeadersAlmostDone, nread := p.nread + 1), [], Consume)
  {
    hide MicroMethod, MicroUrl, MicroVersion, MicroValue, MicroHeadersEnd, MicroChunk, MicroBody, FieldMatch;
  }

  lemma TrailerLf(p: Parser)
    requires p.state.HeadersAlmostDone? && p.flags.trailing && p.nread < HTTP_MAX_HEADER_SIZE
    ensures Feed(p, LF) == Out(p.(state := NewMessage(p), nread := p.nread + 1), [MessageComplete], Consume)
  {
    hide MicroMethod, MicroUrl, MicroVersion, MicroField, MicroValue, MicroChunk, MicroBody;
  }

  /** The empty trailer after the last chunk. */
  lemma RunEmptyTrailer(p: Parser)
    requires p.state.HeaderFieldStart? && p.flags.trailing && p.nread == 0
    ensures Run(p, CRLF) == Trace(p.(state := NewMessage(p), nread := 2), [MessageComplete], 2, Consume)
  {
    hide Feed;
    TrailerCr(p);
    var q := p.(state := HeadersAlmostDone, nread := 1);
    TrailerLf(q);
    assert CRLF[1..] == [LF] && [LF][1..] == [];
    assert Run(q, [LF]) == Trace(q.(state := NewMessage(q), nread := 2), [MessageComplete], 1, Consume);
  }

  /** The size line of the last chunk, behind which the trailer begins. */
  function LastSize(size: seq<Byte>, ext: seq<Byte>): seq<Byte> { size + ext + CRLF }

  /** The chunks up to the trailer. */
  lemma RunToTrailer(p: Parser, cs: seq<Chunk>, size: seq<Byte>, ext: seq<Byte>)
    requires AtChunk(p) && (forall i | 0 <= i < |cs| :: ValidChunk(cs[i])) && SizeLine(size, ext, 0)
    ensures var w := EncodeAll(cs) + LastSize(size, ext);
            Run(p, w) == Trace(AfterSize(p.(contentLength := 0)), DataEvents(Body, DataOf(cs)), |w|, Consume)
  {
    hide Run, ValidChunk, SizeLine, EncodeAll, DataOf;
    var q := if cs == [] then p else p.(contentLength := 0);
    if cs == [] {
      RunEmpty(p);
      EmptyList();
    } else {
      RunChunks(p, cs);
    }
    RunSizeLine(q, size, ext, 0);
    RunSplit(p, EncodeAll(cs), LastSize(size, ext));
    var data := DataEvents(Body, DataOf(cs));
    assert data + [] == data;
  }

  /** Round trip: for every list of non-empty chunks, in any spelling of their sizes and
      with any extensions, and an empty trailer, the parser delivers exactly the
      concatenated data, then completes the message once and is back where a new message
      starts. */
  lemma ChunkedRoundTrip(p: Parser, cs: seq<Chunk>, size: seq<Byte>, ext: seq<Byte>)
    requires AtChunk(p) && (forall i | 0 <= i < |cs| :: ValidChunk(cs[i])) && SizeLine(size, ext, 0)
    ensures var body := EncodeAll(cs) + LastSize(size, ext) + CRLF;
            Run(p, body) ==
            Trace(p.(contentLength := 0, flags := p.flags.(trailing := true), nread := 2, state := NewMessage(p)),
                  DataEvents(Body, DataOf(cs)) + [MessageComplete], |body|, Consume)
  {
    hide Run, ValidChunk, SizeLine, EncodeAll, DataOf;
    RunToTrailer(p, cs, size, ext);
    var r := AfterSize(p.(contentLength := 0));
    RunEmptyTrailer(r);
    RunSplit(p, EncodeAll(cs) + LastSize(size, ext), CRLF);
  }

  lemma EmptyList()
    ensures EncodeAll([]) == [] && DataOf([]) == []
  {
  }

  /** The chunk a sender writes for `data`. */
  function ChunkFor(data: seq<Byte>): Chunk { Chunk(HexDigits(|data|), [], data) }

  lemma ChunkForIsValid(data: seq<Byte>)
    requires 0 < |data| <= MAX_CHUNK_SIZE
    ensures ValidChunk(ChunkFor(data))
  {
    HexRoundTrip(|data|);
    HexDigitsShort(|data|);
  }
}
