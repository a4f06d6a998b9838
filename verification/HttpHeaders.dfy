/** The matchers for header names and values, one letter at a time, decide the same as
    comparing whole words without regard to case. */
module HttpHeaders {
  import opened HttpSyntax
  import opened HttpStep

  // ----- names -----

  predicate AllTokens(s: seq<Byte>) { forall i | 0 <= i < |s| :: IsToken(s[i]) }

  function LowerName(s: seq<Byte>): (r: seq<Byte>)
    ensures |r| == |s|
  {
    seq(|s|, i requires 0 <= i < |s| => Token(s[i]))
  }

  /** No header the parser cares about starts with `pre`. */
  predicate NoName(pre: seq<Byte>) {
    && !(pre <= CONNECTION) && !(pre <= PROXY_CONNECTION) && !(pre <= CONTENT_LENGTH)
    && !(pre <= TRANSFER_ENCODING) && !(pre <= UPGRADE)
  }

  /** `pre` is the proper prefix of `word` that ends at `index`. */
  predicate PartOf(word: seq<Byte>, pre: seq<Byte>, index: nat) {
    index + 1 < |word| && pre == word[..index + 1]
  }

  /** What the matcher knows after the lower-cased letters `pre`. */
  predicate Knows(h: HeaderState, index: nat, pre: seq<Byte>) {
    match h
    case General => NoName(pre)
    case C => pre == "c" && index == 0
    case CO => pre == "co" && index == 1
    case CON => pre == "con" && index == 2
    case MatchingConnection => index >= 3 && PartOf(CONNECTION, pre, index)
    case MatchingContentLength => index >= 3 && PartOf(CONTENT_LENGTH, pre, index)
    case MatchingProxyConnection => PartOf(PROXY_CONNECTION, pre, index)
    case MatchingTransferEncoding => PartOf(TRANSFER_ENCODING, pre, index)
    case MatchingUpgrade => PartOf(UPGRADE, pre, index)
    case Connection => pre == CONNECTION || pre == PROXY_CONNECTION
    case ContentLength => pre == CONTENT_LENGTH
    case TransferEncoding => pre == TRANSFER_ENCODING
    case Upgrade => pre == UPGRADE
    case _ => false
  }

  lemma PrefixSnoc(pre: seq<Byte>, c: Byte, word: seq<Byte>)
    ensures pre + [c] <= word <==> pre <= word && |pre| < |word| && word[|pre|] == c
  {
    if pre <= word && |pre| < |word| && word[|pre|] == c {
      assert word[..|pre| + 1] == pre + [c];
    }
    if pre + [c] <= word {
      assert word[|pre|] == (pre + [c])[|pre|];
      assert word[..|pre|] == (pre + [c])[..|pre|];
    }
  }

  lemma NoNameGrows(pre: seq<Byte>, c: Byte)
    requires NoName(pre)
    ensures NoName(pre + [c])
  {
    PrefixSnoc(pre, c, CONNECTION);
    PrefixSnoc(pre, c, PROXY_CONNECTION);
    PrefixSnoc(pre, c, CONTENT_LENGTH);
    PrefixSnoc(pre, c, TRANSFER_ENCODING);
    PrefixSnoc(pre, c, UPGRADE);
  }

  /** The five names differ at their first, fourth or later letters. */
  lemma PartOfOne(pre: seq<Byte>, c: Byte, word: seq<Byte>, index: nat)
    requires word in {CONNECTION, PROXY_CONNECTION, CONTENT_LENGTH, TRANSFER_ENCODING, UPGRADE}
    requires PartOf(word, pre, index) && c != word[index + 1]
    requires word == CONNECTION || word == CONTENT_LENGTH ==> index >= 3
    ensures NoName(pre + [c])
  {
    PrefixSnoc(pre, c, CONNECTION);
    PrefixSnoc(pre, c, PROXY_CONNECTION);
    PrefixSnoc(pre, c, CONTENT_LENGTH);
    PrefixSnoc(pre, c, TRANSFER_ENCODING);
    PrefixSnoc(pre, c, UPGRADE);
    assert pre[0] == word[0];
    if index >= 3 {
      assert pre[3] == word[3];
    }
  }

  lemma FullNameIsNoPart(pre: seq<Byte>, c: Byte)
    requires pre in {CONNECTION, PROXY_CONNECTION, CONTENT_LENGTH, TRANSFER_ENCODING, UPGRADE}
    ensures NoName(pre + [c])
  {
    assert pre[0] in {'c', 'p', 't', 'u'} && pre[3] in {'n', 'x', 't', 'r'};
    PrefixSnoc(pre, c, CONNECTION);
    PrefixSnoc(pre, c, PROXY_CONNECTION);
    PrefixSnoc(pre, c, CONTENT_LENGTH);
    PrefixSnoc(pre, c, TRANSFER_ENCODING);
    PrefixSnoc(pre, c, UPGRADE);
  }

  lemma FirstLetter(c: Byte)
    requires c != '\0'
    ensures Knows(FirstFieldState(c), 0, [c])
  {
    assert [c] == [] + [c];
    PrefixSnoc([], c, CONNECTION);
    PrefixSnoc([], c, PROXY_CONNECTION);
    PrefixSnoc([], c, CONTENT_LENGTH);
    PrefixSnoc([], c, TRANSFER_ENCODING);
    PrefixSnoc([], c, UPGRADE);
  }

  /** A matcher for `word` keeps what it knows. */
  lemma MatchKnows(word: seq<Byte>, index: nat, pre: seq<Byte>, c: Byte, same: HeaderState, full: HeaderState)
    requires c != '\0' && PartOf(word, pre, index) && same != full && same != General && full != General
    ensures var h := MatchStep(word, index + 1, c, same, full);
            && (h == General <==> c != word[index + 1])
            && (h == full <==> c == word[index + 1] && pre + [c] == word)
            && (h == same ==> PartOf(word, pre + [c], index + 1))
            && h in {General, same, full}
  {
    if c == word[index + 1] {
      assert word[..index + 2] == pre + [c];
      if index + 2 == |word| {
        assert word[..index + 2] == word;
      }
    }
  }

  lemma StemKnows(h: HeaderState, index: nat, pre: seq<Byte>, c: Byte)
    requires c != '\0' && h in {C, CO, CON} && Knows(h, index, pre)
    ensures Knows(FieldMatch(h, index, c).0, FieldMatch(h, index, c).1, pre + [c])
  {
    assert pre[0] == 'c';
    PrefixSnoc(pre, c, CONNECTION);
    PrefixSnoc(pre, c, PROXY_CONNECTION);
    PrefixSnoc(pre, c, CONTENT_LENGTH);
    PrefixSnoc(pre, c, TRANSFER_ENCODING);
    PrefixSnoc(pre, c, UPGRADE);
    if h == CON && c == 'n' {
      assert CONNECTION[..4] == pre + [c];
    } else if h == CON && c == 't' {
      assert CONTENT_LENGTH[..4] == pre + [c];
    }
  }

  lemma FieldMatchKnows(h: HeaderState, index: nat, pre: seq<Byte>, c: Byte)
    requires c != '\0' && c != ' ' && Knows(h, index, pre)
    ensures Knows(FieldMatch(h, index, c).0, FieldMatch(h, index, c).1, pre + [c])
  {
    hide MatchStep, NoName, PartOf;
    match h
    case General => NoNameGrows(pre, c);
    case C | CO | CON => StemKnows(h, index, pre, c);
    case MatchingConnection => WordKnows(CONNECTION, index, pre, c, h, Connection);
    case MatchingContentLength => WordKnows(CONTENT_LENGTH, index, pre, c, h, ContentLength);
    case MatchingProxyConnection => WordKnows(PROXY_CONNECTION, index, pre, c, h, Connection);
    case MatchingTransferEncoding => WordKnows(TRANSFER_ENCODING, index, pre, c, h, TransferEncoding);
    case MatchingUpgrade => WordKnows(UPGRADE, index, pre, c, h, Upgrade);
    case _ => FullNameIsNoPart(pre, c);
  }

  lemma WordKnows(word: seq<Byte>, index: nat, pre: seq<Byte>, c: Byte, same: HeaderState, full: HeaderState)
    requires word in {CONNECTION, PROXY_CONNECTION, CONTENT_LENGTH, TRANSFER_ENCODING, UPGRADE}
    requires PartOf(word, pre, index) && (word == CONNECTION || word == CONTENT_LENGTH ==> index >= 3)
    requires c != '\0' && same != full && same != General && full != General
    ensures var h := MatchStep(word, index + 1, c, same, full);
            && (h == General ==> NoName(pre + [c]))
            && (h == full ==> pre + [c] == word)
            && (h == same ==> PartOf(word, pre + [c], index + 1))
            && h in {General, same, full}
  {
    hide NoName, MatchStep;
    MatchKnows(word, index, pre, c, same, full);
    if c != word[index + 1] {
      PartOfOne(pre, c, word, index);
    }
  }

  // ----- a whole name -----

  lemma TokenIsLower(ch: Byte)
    ensures Token(ch) != ' '
    ensures IsToken(ch) ==> ch != CR && ch != LF && ch != ':'
  {
  }

  lemma FieldByte(p: Parser, ch: Byte)
    requires p.state.HeaderField? || (p.state.HeaderFieldStart? && ch != LF)
    requires p.nread < HTTP_MAX_HEADER_SIZE
    ensures Feed(p, ch) == MicroField(p.(nread := p.nread + 1), ch)
  {
    hide MicroMethod, MicroUrl, MicroVersion, MicroValue, MicroHeadersEnd, MicroChunk, MicroBody, FieldMatch, FirstFieldState;
    FieldNoJump(p.(nread := p.nread + 1), ch);
  }

  lemma FieldNoJump(p: Parser, ch: Byte)
    requires p.state.HeaderField? || (p.state.HeaderFieldStart? && ch != LF)
    ensures MicroField(p, ch).ctl != Reexecute
  {
  }

  lemma {:induction false} RunTokens(p: Parser, pre: seq<Byte>, w: seq<Byte>)
    requires p.state.HeaderField? && Knows(p.headerState, p.index, pre) && AllTokens(w)
    requires p.nread + |w| <= HTTP_MAX_HEADER_SIZE
    ensures var t := Run(p, w);
            && t == Trace(p.(headerState := t.p.headerState, index := t.p.index, nread := p.nread + |w|),
                          DataEvents(Field, w), |w|, Consume)
            && Knows(t.p.headerState, t.p.index, pre + LowerName(w))
    decreases |w|
  {
    hide Feed, FieldMatch, Knows, Token;
    if w == [] {
      assert pre + LowerName(w) == pre;
    } else {
      var c := Token(w[0]);
      FieldByte(p, w[0]);
      TokenIsLower(w[0]);
      FieldMatchKnows(p.headerState, p.index, pre, c);
      var (h, i) := FieldMatch(p.headerState, p.index, c);
      RunTokens(p.(headerState := h, index := i, nread := p.nread + 1), pre + [c], w[1..]);
      assert pre + LowerName(w) == (pre + [c]) + LowerName(w[1..]);
      assert DataEvents(Field, w) == [Data(Field, w[0])] + DataEvents(Field, w[1..]);
    }
  }

  /** The header a lower-cased name stands for, `General` when the parser ignores it. */
  function HeaderOf(name: seq<Byte>): HeaderState {
    if name == CONNECTION || name == PROXY_CONNECTION then Connection
    else if name == CONTENT_LENGTH then ContentLength
    else if name == TRANSFER_ENCODING then TransferEncoding
    else if name == UPGRADE then Upgrade
    else General
  }

  lemma PartIsNoName(word: seq<Byte>, name: seq<Byte>, index: nat)
    requires word in {CONNECTION, PROXY_CONNECTION, CONTENT_LENGTH, TRANSFER_ENCODING, UPGRADE}
    requires PartOf(word, name, index)
    ensures HeaderOf(name) == General
  {
    assert name[0] == word[0];
    if index >= 3 {
      assert name[3] == word[3];
    }
  }

  lemma NamesDiffer()
    ensures HeaderOf(CONNECTION) == HeaderOf(PROXY_CONNECTION) == Connection
    ensures HeaderOf(CONTENT_LENGTH) == ContentLength && HeaderOf(TRANSFER_ENCODING) == TransferEncoding
    ensures HeaderOf(UPGRADE) == Upgrade
    ensures HeaderOf("c") == HeaderOf("co") == HeaderOf("con") == General
  {
  }

  lemma KnowsDecides(h: HeaderState, index: nat, name: seq<Byte>, x: HeaderState)
    requires Knows(h, index, name) && x in {Connection, ContentLength, TransferEncoding, Upgrade}
    ensures h == x <==> HeaderOf(name) == x
  {
    hide PartOf;
    NamesDiffer();
    match h
    case MatchingConnection => PartIsNoName(CONNECTION, name, index);
    case MatchingContentLength => PartIsNoName(CONTENT_LENGTH, name, index);
    case MatchingProxyConnection => PartIsNoName(PROXY_CONNECTION, name, index);
    case MatchingTransferEncoding => PartIsNoName(TRANSFER_ENCODING, name, index);
    case MatchingUpgrade => PartIsNoName(UPGRADE, name, index);
    case _ =>
  }

  lemma NameStart(p: Parser, ch: Byte)
    requires p.state.HeaderFieldStart? && IsToken(ch) && p.nread < HTTP_MAX_HEADER_SIZE
    ensures Feed(p, ch) ==
            Out(p.(state := HeaderField, headerState := FirstFieldState(Token(ch)), index := 0, nread := p.nread + 1),
                [Data(Field, ch)], Consume)
  {
    hide Feed, FirstFieldState;
    TokenIsLower(ch);
    FieldByte(p, ch);
  }

  /** The name up to the colon. */
  lemma RunName(p: Parser, name: seq<Byte>)
    requires p.state.HeaderFieldStart? && name != [] && AllTokens(name)
    requires p.nread + |name| + 1 <= HTTP_MAX_HEADER_SIZE
    ensures var t := Run(p, name);
            && t == Trace(p.(state := HeaderField, headerState := t.p.headerState, index := t.p.index,
                             nread := p.nread + |name|), DataEvents(Field, name), |name|, Consume)
            && Knows(t.p.headerState, t.p.index, LowerName(name))
  {
    hide Feed, FieldMatch, FirstFieldState, Knows, Token, AllTokens;
    assert IsToken(name[0]) && AllTokens(name[1..]) by {
      TokensTail(name);
    }
    NameStart(p, name[0]);
    FirstLetter(Token(name[0]));
    RunTokens(Feed(p, name[0]).p, [Token(name[0])], name[1..]);
    assert [Token(name[0])] + LowerName(name[1..]) == LowerName(name);
    assert [Data(Field, name[0])] + DataEvents(Field, name[1..]) == DataEvents(Field, name);
  }

  lemma TokensTail(name: seq<Byte>)
    requires name != [] && AllTokens(name)
    ensures IsToken(name[0]) && AllTokens(name[1..])
  {
  }

  /** At the colon the matcher is in the state of a known header if and only if the
      whole name, without regard to case, is that header's name. */
  lemma NameDecided(p: Parser, name: seq<Byte>, x: HeaderState)
    requires p.state.HeaderFieldStart? && name != [] && AllTokens(name)
    requires p.nread + |name| + 1 <= HTTP_MAX_HEADER_SIZE
    requires x in {Connection, ContentLength, TransferEncoding, Upgrade}
    ensures var t := Run(p, name + [':']);
            && t == Trace(p.(state := HeaderValueStart, headerState := t.p.headerState, index := t.p.index,
                             nread := p.nread + |name| + 1), DataEvents(Field, name), |name| + 1, Consume)
            && (t.p.headerState == x <==> HeaderOf(LowerName(name)) == x)
  {
    hide Feed, FieldMatch, FirstFieldState, Knows, Token, HeaderOf;
    RunName(p, name);
    var r := Run(p, name).p;
    KnowsDecides(r.headerState, r.index, LowerName(name), x);
    FieldByte(r, ':');
    ColonIsNoToken();
    RunSplit(p, name, [':']);
    RunEmpty(Feed(r, ':').p);
  }

  lemma ColonIsNoToken()
    ensures Token(':') == '\0'
  {
  }

  // ----- values -----

  function LowerAll(s: seq<Byte>): (r: seq<Byte>)
    ensures |r| == |s|
  {
    seq(|s|, i requires 0 <= i < |s| => Lower(s[i]))
  }

  /** The value is `word`, without regard to case, and blanks. */
  predicate WordAndBlanks(v: seq<Byte>, word: seq<Byte>) {
    && |word| <= |v|
    && LowerAll(v)[..|word|] == word
    && forall i | |word| <= i < |v| :: v[i] == ' '
  }

  /** What the state says about the value `v` so far, where `same` and `full` are the
      states that match `word` and have matched it. */
  predicate KnowsValue(h: HeaderState, index: nat, v: seq<Byte>, word: seq<Byte>, same: HeaderState, full: HeaderState) {
    if h == same then PartOf(word, LowerAll(v), index)
    else if h == full then WordAndBlanks(v, word)
    else !(LowerAll(v) <= word) && !WordAndBlanks(v, word)
  }

  lemma LowerAllSnoc(v: seq<Byte>, ch: Byte)
    ensures LowerAll(v + [ch]) == LowerAll(v) + [Lower(ch)]
  {
  }

  /** A value that is no start of `word`, and not `word` with blanks, never becomes it. */
  lemma NoWordGrows(v: seq<Byte>, ch: Byte, word: seq<Byte>)
    requires !(LowerAll(v) <= word) && !WordAndBlanks(v, word)
    ensures !(LowerAll(v + [ch]) <= word) && !WordAndBlanks(v + [ch], word)
  {
    LowerAllSnoc(v, ch);
    PrefixSnoc(LowerAll(v), Lower(ch), word);
    if |word| == |v| + 1 {
      assert LowerAll(v + [ch])[..|word|] == LowerAll(v + [ch]);
    } else if |word| <= |v| {
      assert LowerAll(v)[..|word|] == LowerAll(v + [ch])[..|word|];
      if LowerAll(v)[..|word|] == word {
        var i :| |word| <= i < |v| && v[i] != ' ';
        assert (v + [ch])[i] != ' ';
      }
    }
  }

  /** A complete word followed by one more byte. */
  lemma WordThenByte(v: seq<Byte>, ch: Byte, word: seq<Byte>)
    requires WordAndBlanks(v, word) && |word| > 0
    ensures WordAndBlanks(v + [ch], word) <==> ch == ' '
    ensures !(LowerAll(v + [ch]) <= word)
  {
    LowerAllSnoc(v, ch);
    assert LowerAll(v + [ch])[..|word|] == LowerAll(v)[..|word|];
    assert (v + [ch])[|v|] == ch;
  }

  lemma PartThenByte(v: seq<Byte>, ch: Byte, word: seq<Byte>, index: nat, same: HeaderState, full: HeaderState)
    requires PartOf(word, LowerAll(v), index) && same != full && same != General && full != General
    ensures KnowsValue(MatchStep(word, index + 1, Lower(ch), same, full), index + 1, v + [ch], word, same, full)
  {
    hide MatchStep, Lower;
    var c := Lower(ch);
    LowerNotNul(ch);
    LowerAllSnoc(v, ch);
    MatchKnows(word, index, LowerAll(v), c, same, full);
    PrefixSnoc(LowerAll(v), c, word);
    assert word[index + 1] == word[|v|];
  }

  lemma LowerNotNul(ch: Byte)
    ensures Lower(ch) != '\0'
  {
  }

  lemma ValueMatchKnows(h: HeaderState, index: nat, v: seq<Byte>, ch: Byte, word: seq<Byte>, same: HeaderState, full: HeaderState)
    requires KnowsValue(h, index, v, word, same, full) && h != ContentLength
    requires (word, same, full) in {(CHUNKED, MatchingChunked, Chunked), (KEEP_ALIVE, MatchingKeepAlive, KeepAlive), (CLOSE, MatchingClose, Close)}
    ensures KnowsValue(ValueMatch(h, index, ch).0, ValueMatch(h, index, ch).1, v + [ch], word, same, full)
  {
    hide MatchStep, Lower, WordAndBlanks;
    if h == same {
      PartThenByte(v, ch, word, index, same, full);
    } else if h == full {
      WordThenByte(v, ch, word);
    } else {
      NoWordGrows(v, ch, word);
      ValueMatchElsewhere(h, index, ch, same, full);
    }
  }

  lemma ValueMatchElsewhere(h: HeaderState, index: nat, ch: Byte, same: HeaderState, full: HeaderState)
    requires (same, full) in {(MatchingChunked, Chunked), (MatchingKeepAlive, KeepAlive), (MatchingClose, Close)}
    requires h != same && h != full
    ensures ValueMatch(h, index, ch).0 != same && ValueMatch(h, index, ch).0 != full
  {
    hide Lower;
  }

  // ----- a whole value -----

  /** No line end inside, and it does not start with a blank. */
  predicate ValueText(v: seq<Byte>) {
    && v != [] && v[0] != ' ' && v[0] != '\t'
    && forall i | 0 <= i < |v| :: v[i] != CR && v[i] != LF
  }

  lemma ValueByte(p: Parser, ch: Byte)
    requires (p.state.HeaderValue? && ch != LF) || p.state.HeaderValueStart? || p.state.HeaderAlmostDone?
    requires p.nread < HTTP_MAX_HEADER_SIZE
    ensures Feed(p, ch) == MicroValue(p.(nread := p.nread + 1), ch)
  {
    hide MicroMethod, MicroUrl, MicroVersion, MicroField, MicroHeadersEnd, MicroChunk, MicroBody;
    ValueNoJump(p.(nread := p.nread + 1), ch);
  }

  lemma ValueNoJump(p: Parser, ch: Byte)
    requires (p.state.HeaderValue? && ch != LF) || p.state.HeaderValueStart? || p.state.HeaderAlmostDone?
    ensures MicroValue(p, ch).ctl != Reexecute
  {
    hide Lower, MatchStep;
  }

  /** A line feed inside a value ends it without a carriage return. */
  lemma ValueLf(p: Parser)
    requires p.state.HeaderValue? && p.nread < HTTP_MAX_HEADER_SIZE
    ensures Feed(p, LF) ==
            Out(p.(state := HeaderValueLws, nread := p.nread + 1, flags := RaiseFlag(p.flags, p.headerState)), [], Consume)
  {
    hide MicroMethod, MicroUrl, MicroVersion, MicroField, MicroHeadersEnd, MicroChunk, MicroBody, ValueNext, RaiseFlag;
    var q := p.(nread := p.nread + 1);
    var r := q.(state := HeaderAlmostDone);
    assert Micro(q, LF) == Out(r, [], Reexecute);
    assert React(r, LF) == Micro(r, LF);
  }

  lemma ValueCr(p: Parser)
    requires p.state.HeaderValue? && p.nread < HTTP_MAX_HEADER_SIZE
    ensures Feed(p, CR) == Out(p.(state := HeaderAlmostDone, nread := p.nread + 1), [], Consume)
  {
    hide Feed, ValueNext;
    ValueByte(p, CR);
  }

  lemma AlmostDoneLf(p: Parser)
    requires p.state.HeaderAlmostDone? && p.nread < HTTP_MAX_HEADER_SIZE
    ensures Feed(p, LF) ==
            Out(p.(state := HeaderValueLws, nread := p.nread + 1, flags := RaiseFlag(p.flags, p.headerState)), [], Consume)
  {
    hide Feed, RaiseFlag;
    ValueByte(p, LF);
  }

  /** The end of a value line raises the flag of a complete word. */
  lemma RunLineEnd(p: Parser, eol: seq<Byte>)
    requires p.state.HeaderValue? && eol in {[CR, LF], [LF]} && p.nread + |eol| <= HTTP_MAX_HEADER_SIZE
    ensures Run(p, eol) == Trace(p.(state := HeaderValueLws, nread := p.nread + |eol|,
                                    flags := RaiseFlag(p.flags, p.headerState)), [], |eol|, Consume)
  {
    hide Feed, RaiseFlag;
    if eol == [LF] {
      ValueLf(p);
      assert eol[1..] == [];
    } else {
      ValueCr(p);
      AlmostDoneLf(p.(state := HeaderAlmostDone, nread := p.nread + 1));
      assert eol[1..] == [LF] && [LF][1..] == [];
      assert Run(p.(state := HeaderAlmostDone, nread := p.nread + 1), [LF]).ctl == Consume;
    }
  }

  /** A matcher state of a transfer-encoding (`te`) or connection value. */
  predicate WordState(h: HeaderState, te: bool) {
    h == General || (if te then h in {MatchingChunked, Chunked}
                     else h in {MatchingKeepAlive, MatchingClose, KeepAlive, Close})
  }

  lemma WordByte(p: Parser, ch: Byte, te: bool)
    requires p.state.HeaderValue? && WordState(p.headerState, te) && ch != CR && ch != LF
    requires p.nread < HTTP_MAX_HEADER_SIZE
    ensures var (h, i) := ValueMatch(p.headerState, p.index, ch);
            WordState(h, te) && Feed(p, ch) == Out(p.(headerState := h, index := i, nread := p.nread + 1), [Data(Value, ch)], Consume)
  {
    hide Feed, Lower, MatchStep;
    ValueByte(p, ch);
    ValueMatchWord(p.headerState, p.index, ch, te);
  }

  lemma ValueMatchWord(h: HeaderState, index: nat, ch: Byte, te: bool)
    requires WordState(h, te)
    ensures WordState(ValueMatch(h, index, ch).0, te)
  {
    hide Lower;
  }

  /** The rest of a value, after the bytes `pre`, for one word of interest. */
  lemma {:induction false} RunWord(p: Parser, pre: seq<Byte>, w: seq<Byte>, word: seq<Byte>, same: HeaderState, full: HeaderState)
    requires p.state.HeaderValue? && WordState(p.headerState, word == CHUNKED)
    requires KnowsValue(p.headerState, p.index, pre, word, same, full)
    requires (word, same, full) in {(CHUNKED, MatchingChunked, Chunked), (KEEP_ALIVE, MatchingKeepAlive, KeepAlive), (CLOSE, MatchingClose, Close)}
    requires forall i | 0 <= i < |w| :: w[i] != CR && w[i] != LF
    requires p.nread + |w| <= HTTP_MAX_HEADER_SIZE
    ensures var t := Run(p, w);
            && t == Trace(p.(headerState := t.p.headerState, index := t.p.index, nread := p.nread + |w|),
                          DataEvents(Value, w), |w|, Consume)
            && WordState(t.p.headerState, word == CHUNKED)
            && KnowsValue(t.p.headerState, t.p.index, pre + w, word, same, full)
    decreases |w|
  {
    hide Feed, ValueMatch, LowerAll, PartOf, WordAndBlanks;
    if w == [] {
      assert pre + w == pre;
    } else {
      WordByte(p, w[0], word == CHUNKED);
      ValueMatchKnows(p.headerState, p.index, pre, w[0], word, same, full);
      RunWord(Feed(p, w[0]).p, pre + [w[0]], w[1..], word, same, full);
      assert pre + w == (pre + [w[0]]) + w[1..];
      assert DataEvents(Value, w) == [Data(Value, w[0])] + DataEvents(Value, w[1..]);
    }
  }

  /** The state after the first byte of a value. */
  function FirstWordState(h: HeaderState, ch: Byte): HeaderState {
    if h == TransferEncoding && Lower(ch) == 'c' then MatchingChunked
    else if h == Connection && Lower(ch) == 'k' then MatchingKeepAlive
    else if h == Connection && Lower(ch) == 'c' then MatchingClose
    else General
  }

  lemma FirstWordByte(p: Parser, ch: Byte)
    requires p.state.HeaderValueStart? && p.headerState in {Connection, TransferEncoding}
    requires ch != CR && ch != LF && ch != ' ' && ch != '\t' && p.nread < HTTP_MAX_HEADER_SIZE
    ensures Feed(p, ch) ==
            Out(p.(state := HeaderValue, headerState := FirstWordState(p.headerState, ch), index := 0, nread := p.nread + 1),
                [Data(Value, ch)], Consume)
  {
    hide Feed, Lower;
    ValueByte(p, ch);
  }

  lemma FirstKnowsValue(h: HeaderState, ch: Byte, word: seq<Byte>, same: HeaderState, full: HeaderState)
    requires ch != ' '
    requires (word, same, full) in {(CHUNKED, MatchingChunked, Chunked), (KEEP_ALIVE, MatchingKeepAlive, KeepAlive), (CLOSE, MatchingClose, Close)}
    requires h == if word == CHUNKED then TransferEncoding else Connection
    ensures KnowsValue(FirstWordState(h, ch), 0, [ch], word, same, full)
  {
    hide Lower;
    assert LowerAll([ch]) == [Lower(ch)];
    assert [Lower(ch)] == [] + [Lower(ch)];
    PrefixSnoc([], Lower(ch), word);
    assert word[..1] == [word[0]];
  }

  /** The whole value, for one word of interest. */
  lemma RunValue(p: Parser, v: seq<Byte>, word: seq<Byte>, same: HeaderState, full: HeaderState)
    requires p.state.HeaderValueStart? && ValueText(v) && p.nread + |v| <= HTTP_MAX_HEADER_SIZE
    requires (word, same, full) in {(CHUNKED, MatchingChunked, Chunked), (KEEP_ALIVE, MatchingKeepAlive, KeepAlive), (CLOSE, MatchingClose, Close)}
    requires p.headerState == if word == CHUNKED then TransferEncoding else Connection
    ensures var t := Run(p, v);
            && t == Trace(p.(state := HeaderValue, headerState := t.p.headerState, index := t.p.index,
                             nread := p.nread + |v|), DataEvents(Value, v), |v|, Consume)
            && (t.p.headerState == full <==> WordAndBlanks(v, word))
            && WordState(t.p.headerState, word == CHUNKED)
  {
    hide Run, Feed, FirstWordState, WordAndBlanks, LowerAll, KnowsValue, WordState;
    var q := p.(state := HeaderValue, headerState := FirstWordState(p.headerState, v[0]), index := 0, nread := p.nread + 1);
    FirstWordByte(p, v[0]);
    FirstKnowsValue(p.headerState, v[0], word, same, full);
    FirstWordStateIsWord(p.headerState, v[0]);
    RunWord(q, [v[0]], v[1..], word, same, full);
    RunFirst(p, v, q, Value);
    assert [v[0]] + v[1..] == v;
    KnownIsDecided(Run(p, v).p.headerState, Run(p, v).p.index, v, word, same, full);
  }

  /** One byte of data, and then more of it. */
  lemma RunFirst(p: Parser, v: seq<Byte>, q: Parser, k: Kind)
    requires v != [] && Feed(p, v[0]) == Out(q, [Data(k, v[0])], Consume)
    requires Run(q, v[1..]).ctl == Consume && Run(q, v[1..]).ev == DataEvents(k, v[1..])
    ensures Run(p, v) == Trace(Run(q, v[1..]).p, DataEvents(k, v), |v|, Consume)
  {
    hide Feed;
    assert [Data(k, v[0])] + DataEvents(k, v[1..]) == DataEvents(k, v);
  }

  lemma KnownIsDecided(h: HeaderState, index: nat, v: seq<Byte>, word: seq<Byte>, same: HeaderState, full: HeaderState)
    requires KnowsValue(h, index, v, word, same, full) && same != full
    ensures h == full <==> WordAndBlanks(v, word)
  {
    hide WordAndBlanks;
    PartIsNotWhole(v, word);
  }

  lemma FirstWordStateIsWord(h: HeaderState, ch: Byte)
    ensures h == TransferEncoding ==> WordState(FirstWordState(h, ch), true)
    ensures h == Connection ==> WordState(FirstWordState(h, ch), false)
  {
  }

  lemma WordsDiffer()
    ensures KEEP_ALIVE != CHUNKED && CLOSE != CHUNKED && KEEP_ALIVE != CLOSE
  {
    assert KEEP_ALIVE[0] == 'k' && CHUNKED[0] == 'c' && |CLOSE| == 5;
  }

  lemma PartIsNotWhole(v: seq<Byte>, word: seq<Byte>)
    ensures |v| < |word| ==> !WordAndBlanks(v, word)
  {
  }

  lemma EncodingDecided(p: Parser, v: seq<Byte>, eol: seq<Byte>)
    requires p.state.HeaderValueStart? && p.headerState == TransferEncoding
    requires ValueText(v) && eol in {[CR, LF], [LF]} && p.nread + |v| + |eol| <= HTTP_MAX_HEADER_SIZE
    ensures var t := Run(p, v + eol);
            t == Trace(p.(state := HeaderValueLws, headerState := t.p.headerState, index := t.p.index,
                          nread := p.nread + |v| + |eol|,
                          flags := p.flags.(chunked := p.flags.chunked || WordAndBlanks(v, CHUNKED))),
                       DataEvents(Value, v), |v| + |eol|, Consume)
            && WordState(t.p.headerState, true)
  {
    hide Run, WordAndBlanks, ValueText, WordState, RaiseFlag;
    var q := Run(p, v).p;
    RunValue(p, v, CHUNKED, MatchingChunked, Chunked);
    EncodingFlags(q.flags, q.headerState);
    RunLineEnd(q, eol);
    RunSplit(p, v, eol);
    assert DataEvents(Value, v) + [] == DataEvents(Value, v);
  }

  lemma ConnectionWord(p: Parser, v: seq<Byte>)
    requires p.state.HeaderValueStart? && p.headerState == Connection
    requires ValueText(v) && p.nread + |v| <= HTTP_MAX_HEADER_SIZE
    ensures var t := Run(p, v);
            && t == Trace(p.(state := HeaderValue, headerState := t.p.headerState, index := t.p.index,
                             nread := p.nread + |v|), DataEvents(Value, v), |v|, Consume)
            && WordState(t.p.headerState, false)
            && RaiseFlag(p.flags, t.p.headerState) ==
               p.flags.(keepAlive := p.flags.keepAlive || WordAndBlanks(v, KEEP_ALIVE),
                        close := p.flags.close || WordAndBlanks(v, CLOSE))
  {
    hide Run, WordAndBlanks, ValueText, WordState, RaiseFlag;
    WordsDiffer();
    RunValue(p, v, KEEP_ALIVE, MatchingKeepAlive, KeepAlive);
    RunValue(p, v, CLOSE, MatchingClose, Close);
    ConnectionFlags(p.flags, Run(p, v).p.headerState);
  }

  lemma ConnectionDecided(p: Parser, v: seq<Byte>, eol: seq<Byte>)
    requires p.state.HeaderValueStart? && p.headerState == Connection
    requires ValueText(v) && eol in {[CR, LF], [LF]} && p.nread + |v| + |eol| <= HTTP_MAX_HEADER_SIZE
    ensures var t := Run(p, v + eol);
            t == Trace(p.(state := HeaderValueLws, headerState := t.p.headerState, index := t.p.index,
                          nread := p.nread + |v| + |eol|,
                          flags := p.flags.(keepAlive := p.flags.keepAlive || WordAndBlanks(v, KEEP_ALIVE),
                                            close := p.flags.close || WordAndBlanks(v, CLOSE))),
                       DataEvents(Value, v), |v| + |eol|, Consume)
            && WordState(t.p.headerState, false)
  {
    hide Run, WordAndBlanks, ValueText, WordState, RaiseFlag;
    var q := Run(p, v).p;
    ConnectionWord(p, v);
    RunLineEnd(q, eol);
    RunSplit(p, v, eol);
    assert DataEvents(Value, v) + [] == DataEvents(Value, v);
  }

  /** A header line (not continued on the next line) raises the flags for `chunked`,
      `keep-alive` and `close` if and only if its value is that word, without regard
      to case, followed by blanks only. */
  lemma ValueDecided(p: Parser, v: seq<Byte>, eol: seq<Byte>)
    requires p.state.HeaderValueStart? && p.headerState in {Connection, TransferEncoding}
    requires ValueText(v) && eol in {[CR, LF], [LF]} && p.nread + |v| + |eol| <= HTTP_MAX_HEADER_SIZE
    ensures var t := Run(p, v + eol);
            && t == Trace(p.(state := HeaderValueLws, headerState := t.p.headerState, index := t.p.index,
                             nread := p.nread + |v| + |eol|, flags := t.p.flags), DataEvents(Value, v), |v| + |eol|, Consume)
            && var te := p.headerState == TransferEncoding;
            && t.p.flags == p.flags.(chunked := p.flags.chunked || (te && WordAndBlanks(v, CHUNKED)),
                                     keepAlive := p.flags.keepAlive || (!te && WordAndBlanks(v, KEEP_ALIVE)),
                                     close := p.flags.close || (!te && WordAndBlanks(v, CLOSE)))
    ensures WordState(Run(p, v + eol).p.headerState, p.headerState == TransferEncoding)
  {
    hide Run, WordAndBlanks, ValueText, WordState;
    if p.headerState == TransferEncoding {
      EncodingDecided(p, v, eol);
    } else {
      ConnectionDecided(p, v, eol);
    }
  }

  lemma EncodingFlags(f: Flags, h: HeaderState)
    requires WordState(h, true)
    ensures RaiseFlag(f, h) == f.(chunked := f.chunked || h == Chunked)
  {
  }

  lemma ConnectionFlags(f: Flags, h: HeaderState)
    requires WordState(h, false)
    ensures RaiseFlag(f, h) == f.(keepAlive := f.keepAlive || h == KeepAlive, close := f.close || h == Close)
  {
  }
}
