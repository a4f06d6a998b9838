/** Sizes in messages: exactly the values that fit are accepted, and stored exactly. */
module HttpNumbers {
  import opened HttpSyntax
  import opened HttpStep
  import opened HttpInvariant
  import opened HttpHeaders

  // ----- Content-Length -----

  /** Digits and blanks, starting with a digit: the value may contain blanks anywhere. */
  predicate LengthBytes(v: seq<Byte>) { forall i | 0 <= i < |v| :: IsNum(v[i]) || v[i] == ' ' }

  /** The number its digits spell, blanks ignored. */
  function DecValue(v: seq<Byte>): nat {
    if v == [] then 0
    else
      var n := |v| - 1;
      if IsNum(v[n]) then DecValue(v[..n]) * 10 + Digit(v[n]) else DecValue(v[..n])
  }

  lemma DecValueSnoc(v: seq<Byte>, ch: Byte)
    ensures DecValue(v + [ch]) == if IsNum(ch) then DecValue(v) * 10 + Digit(ch) else DecValue(v)
  {
    assert (v + [ch])[..|v|] == v;
  }

  lemma {:induction false} DecValueGrows(v: seq<Byte>, w: seq<Byte>)
    ensures DecValue(v) <= DecValue(v + w)
    decreases |w|
  {
    if w == [] {
      assert v + w == v;
    } else {
      var n := |w| - 1;
      DecValueGrows(v, w[..n]);
      DecValueSnoc(v + w[..n], w[n]);
      assert v + w == (v + w[..n]) + [w[n]];
    }
  }

  /** One more byte of a Content-Length value. */
  lemma LengthByte(p: Parser, ch: Byte)
    requires p.state.HeaderValue? && p.headerState == ContentLength && ch != CR && ch != LF
    requires p.nread < HTTP_MAX_HEADER_SIZE
    ensures var q := p.(nread := p.nread + 1);
            Feed(p, ch) ==
            if ch == ' ' then Out(q, [Data(Value, ch)], Consume)
            else if IsNum(ch) && p.contentLength * 10 + Digit(ch) <= MAX_CONTENT_LENGTH then
              Out(q.(contentLength := p.contentLength * 10 + Digit(ch)), [Data(Value, ch)], Consume)
            else Fail(q, InvalidContentLength)
  {
    hide Feed;
    ValueByte(p, ch);
    if IsNum(ch) {
      PushDigitExact(p.contentLength, 10, Digit(ch));
    }
  }

  lemma {:induction false} RunLength(p: Parser, pre: seq<Byte>, w: seq<Byte>)
    requires p.state.HeaderValue? && p.headerState == ContentLength && p.contentLength == DecValue(pre)
    requires p.contentLength <= MAX_CONTENT_LENGTH
    requires forall i | 0 <= i < |w| :: w[i] != CR && w[i] != LF
    requires p.nread + |w| <= HTTP_MAX_HEADER_SIZE
    ensures if LengthBytes(w) && DecValue(pre + w) <= MAX_CONTENT_LENGTH then
              Run(p, w) == Trace(p.(contentLength := DecValue(pre + w), nread := p.nread + |w|),
                                 DataEvents(Value, w), |w|, Consume)
            else Run(p, w).ctl == Error && Run(p, w).p.errno == InvalidContentLength
    decreases |w|
  {
    hide Feed;
    if w == [] {
      assert pre + w == pre;
    } else {
      LengthByte(p, w[0]);
      DecValueSnoc(pre, w[0]);
      assert pre + w == (pre + [w[0]]) + w[1..];
      if Feed(p, w[0]).ctl == Consume {
        RunLength(Feed(p, w[0]).p, pre + [w[0]], w[1..]);
        assert DataEvents(Value, w) == [Data(Value, w[0])] + DataEvents(Value, w[1..]);
        assert LengthBytes(w) <==> LengthBytes(w[1..]);
      } else {
        DecValueGrows(pre + [w[0]], w[1..]);
      }
    }
  }

  lemma LengthFirstByte(p: Parser, ch: Byte)
    requires p.state.HeaderValueStart? && p.headerState == ContentLength
    requires ch != CR && ch != LF && ch != ' ' && ch != '\t' && p.nread < HTTP_MAX_HEADER_SIZE
    ensures var q := p.(state := HeaderValue, index := 0, nread := p.nread + 1);
            Feed(p, ch) ==
            if IsNum(ch) then Out(q.(contentLength := Digit(ch)), [Data(Value, ch)], Consume)
            else Fail(q, InvalidContentLength)
  {
    hide Feed;
    ValueByte(p, ch);
  }

  /** A Content-Length value is accepted if and only if it starts with a digit, consists
      of digits and blanks, and its number is at most 18446744073709551609; then that
      number is stored, whatever the value was before. */
  lemma ContentLengthDecided(p: Parser, v: seq<Byte>)
    requires p.state.HeaderValueStart? && p.headerState == ContentLength && ValueText(v)
    requires p.nread + |v| <= HTTP_MAX_HEADER_SIZE
    ensures if LengthBytes(v) && DecValue(v) <= MAX_CONTENT_LENGTH then
              Run(p, v) == Trace(p.(state := HeaderValue, index := 0, contentLength := DecValue(v), nread := p.nread + |v|),
                                 DataEvents(Value, v), |v|, Consume)
            else Run(p, v).ctl == Error && Run(p, v).p.errno == InvalidContentLength
  {
    hide Feed;
    LengthFirstByte(p, v[0]);
    if IsNum(v[0]) {
      DecValueSnoc([], v[0]);
      assert [v[0]] == [] + [v[0]];
      RunLength(Feed(p, v[0]).p, [v[0]], v[1..]);
      assert v == [v[0]] + v[1..];
      assert DataEvents(Value, v) == [Data(Value, v[0])] + DataEvents(Value, v[1..]);
      assert LengthBytes(v) <==> LengthBytes(v[1..]);
    }
  }

  // ----- chunk sizes -----

  predicate HexBytes(v: seq<Byte>) { forall i | 0 <= i < |v| :: Unhex(v[i]) != -1 }

  function HexValue(v: seq<Byte>): nat
    requires HexBytes(v)
  {
    if v == [] then 0 else HexValue(v[..|v| - 1]) * 16 + Unhex(v[|v| - 1])
  }

  lemma HexValueSnoc(v: seq<Byte>, ch: Byte)
    requires HexBytes(v) && Unhex(ch) != -1
    ensures HexBytes(v + [ch]) && HexValue(v + [ch]) == HexValue(v) * 16 + Unhex(ch)
  {
    assert (v + [ch])[..|v|] == v;
  }

  lemma {:induction false} HexValueGrows(v: seq<Byte>, w: seq<Byte>)
    requires HexBytes(v) && HexBytes(w)
    ensures HexBytes(v + w) && HexValue(v) <= HexValue(v + w)
    decreases |w|
  {
    hide Unhex;
    if w == [] {
      assert v + w == v;
    } else {
      var n := |w| - 1;
      HexValueGrows(v, w[..n]);
      UnhexRange(w[n]);
      HexValueSnoc(v + w[..n], w[n]);
      assert v + w == (v + w[..n]) + [w[n]];
    }
  }

  lemma ChunkStateByte(p: Parser, ch: Byte)
    requires GroupOf(p.state) == GChunk && p.nread < HTTP_MAX_HEADER_SIZE
    ensures Feed(p, ch) == MicroChunk(p.(nread := p.nread + 1), ch)
  {
    hide MicroMethod, MicroUrl, MicroVersion, MicroField, MicroValue, MicroHeadersEnd, MicroBody, MicroChunk;
    ChunkNoJump(p.(nread := p.nread + 1), ch);
  }

  lemma ChunkNoJump(p: Parser, ch: Byte)
    requires GroupOf(p.state) == GChunk
    ensures MicroChunk(p, ch).ctl != Reexecute
  {
    hide Unhex;
  }

  lemma HexIsNoEnd(ch: Byte)
    requires Unhex(ch) != -1
    ensures ch != CR && ch != LF && ch != ';' && ch != ' '
  {
  }

  lemma SizeByte(p: Parser, ch: Byte)
    requires p.state.ChunkSize? && Unhex(ch) != -1 && p.nread < HTTP_MAX_HEADER_SIZE
    ensures var q := p.(nread := p.nread + 1);
            Feed(p, ch) ==
            if p.contentLength * 16 + Unhex(ch) <= MAX_CHUNK_SIZE then
              Out(q.(contentLength := p.contentLength * 16 + Unhex(ch)), [], Consume)
            else Fail(q, InvalidContentLength)
  {
    hide Feed, Unhex;
    UnhexRange(ch);
    HexIsNoEnd(ch);
    ChunkStateByte(p, ch);
    PushDigitExact(p.contentLength, 16, Unhex(ch));
  }

  lemma {:induction false} RunSize(p: Parser, pre: seq<Byte>, w: seq<Byte>)
    requires p.state.ChunkSize? && HexBytes(pre) && HexBytes(w)
    requires p.contentLength == HexValue(pre) <= MAX_CHUNK_SIZE
    requires p.nread + |w| <= HTTP_MAX_HEADER_SIZE
    ensures HexBytes(pre + w)
    ensures if HexValue(pre + w) <= MAX_CHUNK_SIZE then
              Run(p, w) == Trace(p.(contentLength := HexValue(pre + w), nread := p.nread + |w|), [], |w|, Consume)
            else Run(p, w).ctl == Error && Run(p, w).p.errno == InvalidContentLength
    decreases |w|
  {
    hide Feed, Unhex;
    if w == [] {
      assert pre + w == pre;
    } else {
      SizeByte(p, w[0]);
      HexValueSnoc(pre, w[0]);
      assert pre + w == (pre + [w[0]]) + w[1..];
      if Feed(p, w[0]).ctl == Consume {
        RunSize(Feed(p, w[0]).p, pre + [w[0]], w[1..]);
      } else {
        HexValueGrows(pre + [w[0]], w[1..]);
      }
    }
  }

  lemma SizeFirstByte(p: Parser, ch: Byte)
    requires p.state.ChunkSizeStart? && Unhex(ch) != -1 && p.nread < HTTP_MAX_HEADER_SIZE
    ensures Feed(p, ch) == Out(p.(state := ChunkSize, contentLength := Unhex(ch), nread := p.nread + 1), [], Consume)
  {
    hide Feed, Unhex;
    ChunkStateByte(p, ch);
  }

  /** A chunk size is accepted if and only if its value is at most 2^64 - 17, and then
      stored exactly. */
  lemma ChunkSizeDecided(p: Parser, v: seq<Byte>)
    requires p.state.ChunkSizeStart? && v != [] && HexBytes(v)
    requires p.nread + |v| <= HTTP_MAX_HEADER_SIZE
    ensures if HexValue(v) <= MAX_CHUNK_SIZE then
              Run(p, v) == Trace(p.(state := ChunkSize, contentLength := HexValue(v), nread := p.nread + |v|), [], |v|, Consume)
            else Run(p, v).ctl == Error && Run(p, v).p.errno == InvalidContentLength
  {
    hide Feed, Unhex;
    UnhexRange(v[0]);
    SizeFirstByte(p, v[0]);
    HexValueSnoc([], v[0]);
    assert [v[0]] == [] + [v[0]];
    RunSize(Feed(p, v[0]).p, [v[0]], v[1..]);
    assert v == [v[0]] + v[1..];
  }

  // ----- writing sizes -----

  function HexDigit(d: nat): (ch: Byte)
    requires d < 16
    ensures Unhex(ch) == d
  {
    if d < 10 then (d + '0' as int) as char else (d - 10 + 'a' as int) as char
  }

  /** The usual hexadecimal notation. */
  function HexDigits(n: nat): (v: seq<Byte>)
    ensures v != [] && HexBytes(v)
  {
    if n < 16 then [HexDigit(n)] else HexDigits(n / 16) + [HexDigit(n % 16)]
  }

  lemma {:induction false} HexRoundTrip(n: nat)
    ensures HexValue(HexDigits(n)) == n
  {
    if n < 16 {
      HexValueSnoc([], HexDigit(n));
      assert [HexDigit(n)] == [] + [HexDigit(n)];
    } else {
      HexRoundTrip(n / 16);
      HexValueSnoc(HexDigits(n / 16), HexDigit(n % 16));
    }
  }

  lemma {:induction false} HexDigitsShort(n: nat)
    requires n <= MAX_CHUNK_SIZE
    ensures |HexDigits(n)| <= 16
  {
    assert Pow16(2) == 0x100 && Pow16(4) == 0x1_0000;
    assert Pow16(6) == 0x100_0000 && Pow16(8) == 0x1_0000_0000;
    assert Pow16(10) == 0x100_0000_0000 && Pow16(12) == 0x1_0000_0000_0000;
    assert Pow16(14) == 0x100_0000_0000_0000 && Pow16(16) == 0x1_0000_0000_0000_0000;
    HexDigitsBound(n, 16);
  }

  function Pow16(k: nat): nat { if k == 0 then 1 else 16 * Pow16(k - 1) }

  lemma {:induction false} HexDigitsBound(n: nat, k: nat)
    requires k >= 1 && n < Pow16(k)
    ensures |HexDigits(n)| <= k
  {
    if n >= 16 {
      HexDigitsBound(n / 16, k - 1);
    }
  }
}
