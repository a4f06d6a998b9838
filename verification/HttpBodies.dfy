/** Bodies: bytes with a declared length, and chunks. */
module HttpBodies {
  import opened HttpSyntax
  import opened HttpStep

  lemma IdentityByte(p: Parser, ch: Byte)
    requires p.state.BodyIdentity? && p.contentLength > 0
    ensures Feed(p, ch) ==
            if p.contentLength > 1 then Out(p.(contentLength := p.contentLength - 1), [Data(Body, ch)], Consume)
            else Out(p.(contentLength := 0, state := NewMessage(p)), [Data(Body, ch), MessageComplete], Consume)
  {
    hide MicroMethod, MicroUrl, MicroVersion, MicroField, MicroValue, MicroHeadersEnd, MicroChunk;
    var o := Micro(p, ch);
    if p.contentLength == 1 {
      assert React(o.p, ch) == Complete(o.p);
      assert [Data(Body, ch)] + [MessageComplete] == [Data(Body, ch), MessageComplete];
    }
  }

  /** A body of declared length: as long as fewer bytes have come, delivered bytes and
      remaining length add up to the declared length and nothing else happens; the
      message completes with exactly the last declared byte. */
  lemma {:induction false} IdentityRun(p: Parser, s: seq<Byte>)
    requires p.state.BodyIdentity? && |s| <= p.contentLength && p.contentLength > 0
    ensures |s| < p.contentLength ==>
              Run(p, s) == Trace(p.(contentLength := p.contentLength - |s|), DataEvents(Body, s), |s|, Consume)
    ensures |s| == p.contentLength ==>
              Run(p, s) == Trace(p.(contentLength := 0, state := NewMessage(p)),
                                 DataEvents(Body, s) + [MessageComplete], |s|, Consume)
    decreases |s|
  {
    hide Feed;
    if s != [] {
      IdentityByte(p, s[0]);
      if |s| == 1 {
        assert s[1..] == [];
      } else {
        var q := p.(contentLength := p.contentLength - 1);
        IdentityRun(q, s[1..]);
      }
      assert DataEvents(Body, s) == [Data(Body, s[0])] + DataEvents(Body, s[1..]);
    }
  }

  /** Whatever follows the body is parsed as the next message. */
  lemma IdentityConservation(p: Parser, body: seq<Byte>, rest: seq<Byte>)
    requires p.state.BodyIdentity? && |body| == p.contentLength > 0
    ensures Run(p, body + rest) ==
            Then(Trace(p.(contentLength := 0, state := NewMessage(p)),
                       DataEvents(Body, body) + [MessageComplete], |body|, Consume), rest)
  {
    RunSplit(p, body, rest);
    IdentityRun(p, body);
  }

  lemma ChunkByte(p: Parser, ch: Byte)
    requires p.state.ChunkData? && p.contentLength > 0
    ensures Feed(p, ch) ==
            Out(p.(contentLength := p.contentLength - 1,
                   state := if p.contentLength == 1 then ChunkDataAlmostDone else ChunkData), [Data(Body, ch)], Consume)
  {
    hide MicroMethod, MicroUrl, MicroVersion, MicroField, MicroValue, MicroHeadersEnd, MicroChunk;
  }

  /** The data of one chunk. */
  lemma {:induction false} ChunkRun(p: Parser, s: seq<Byte>)
    requires p.state.ChunkData? && 0 < |s| <= p.contentLength
    ensures Run(p, s) == Trace(p.(contentLength := p.contentLength - |s|,
                                  state := if |s| == p.contentLength then ChunkDataAlmostDone else ChunkData),
                               DataEvents(Body, s), |s|, Consume)
    decreases |s|
  {
    ChunkByte(p, s[0]);
    if |s| == 1 {
      assert s[1..] == [];
    } else {
      ChunkRun(p.(contentLength := p.contentLength - 1), s[1..]);
    }
    assert DataEvents(Body, s) == [Data(Body, s[0])] + DataEvents(Body, s[1..]);
  }
}
