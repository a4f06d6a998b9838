/** `http_parser_execute` with its own buffer handling: marks that are re-seeded at
    entry, slices handed to callbacks, body bytes skipped in bulk, and left-over
    slices flushed at the end of the buffer. */
module HttpExecute {
  import opened HttpSyntax
  import opened HttpStep
  import opened HttpInvariant
  import opened HttpCallbacks
  import opened HttpBodies

  /** Offset of the first byte not handled after a pass over byte `i`. */
  function NextOf(i: nat, ctl: Ctl): nat { if ctl == Consume || ctl == Leave then i + 1 else i }

  function NoteOf(e: Event): Callback
    requires !e.Data?
  {
    match e
    case MessageBegin => OnMessageBegin
    case HeadersComplete => OnHeadersComplete
    case MessageComplete => OnMessageComplete
  }

  /** The mark of kind `k` after MARK at offset `i`. */
  function Marked(m: Marks, k: Kind, i: nat): Marks {
    if MarkOf(m, k) >= 0 then m else WithMark(m, k, i)
  }

  /** What a pass over byte `i` does to the log and the marks, `k` being the only kind
      it may mark: it notifies, lets the marked slice grow, or hands the slice out.
      A failing pass hands out nothing. */
  ghost predicate Effect(o: Out, k: Kind, i: nat, ch: Byte,
                         calls: seq<Callback>, m: Marks, calls': seq<Callback>, m': Marks)
  {
    if o.ctl == Error then calls' == calls && (m' == m || (m == NO_MARKS && m' == Marked(m, k, i)))
    else
      && MarksMatch(o.p.state, m')
      && if m' != NO_MARKS then
           && (m == NO_MARKS || MarkOf(m, k) >= 0)
           && m' == Marked(m, k, i) && calls' == calls && o.ev == [Data(k, ch)] && o.ctl == Consume
         else if m != NO_MARKS then
           0 <= MarkOf(m, k) <= i && calls' == calls + [OnData(k, MarkOf(m, k), i - MarkOf(m, k))] && o.ev == []
         else
           || (o.ev == [] && (calls' == calls || calls' == calls + [OnData(k, i, 0)]))
           || (|o.ev| == 1 && !o.ev[0].Data? && calls' == calls + [NoteOf(o.ev[0])])
  }

  /** The effect of a pass that marks nothing: at most one notification. */
  ghost predicate Quiet(ev: seq<Event>, calls: seq<Callback>, calls': seq<Callback>) {
    if ev == [] then calls' == calls
    else |ev| == 1 && !ev[0].Data? && calls' == calls + [NoteOf(ev[0])]
  }

  predicate Unmarked(s: State) { !InUrl(s) && !s.HeaderField? && !s.HeaderValue? }

  lemma QuietEffect(o: Out, k: Kind, i: nat, ch: Byte, calls: seq<Callback>, calls': seq<Callback>)
    requires Quiet(o.ev, calls, calls')
    requires o.ctl == Error ==> o.ev == []
    requires o.ctl != Error ==> Unmarked(o.p.state)
    ensures Effect(o, k, i, ch, calls, NO_MARKS, calls', NO_MARKS)
  {
  }

  lemma MethodUnmarked(p: Parser, ch: Byte)
    requires GroupOf(p.state) == GMethod
    ensures MicroMethod(p, ch).ctl != Reexecute
    ensures MicroMethod(p, ch).ctl == Error ==> MicroMethod(p, ch).ev == []
    ensures MicroMethod(p, ch).ctl != Error ==> Unmarked(MicroMethod(p, ch).p.state)
  {
  }

  lemma VersionUnmarked(p: Parser, ch: Byte)
    requires GroupOf(p.state) == GVersion
    ensures MicroVersion(p, ch).ev == []
    ensures MicroVersion(p, ch).ctl != Reexecute
    ensures MicroVersion(p, ch).ctl != Error ==> Unmarked(MicroVersion(p, ch).p.state)
  {
  }

  lemma ValueEndUnmarked(p: Parser, ch: Byte)
    requires p.state.HeaderAlmostDone? || p.state.HeaderValueLws?
    ensures MicroValue(p, ch).ev == []
    ensures MicroValue(p, ch).ctl != Error ==> Unmarked(MicroValue(p, ch).p.state)
  {
  }

  lemma HeadersEndUnmarked(p: Parser, ch: Byte)
    requires GroupOf(p.state) == GHeadersEnd
    ensures MicroHeadersEnd(p, ch).ctl == Error ==> MicroHeadersEnd(p, ch).ev == []
    ensures MicroHeadersEnd(p, ch).ctl == Reexecute ==> p.state.HeadersAlmostDone?
    ensures MicroHeadersEnd(p, ch).ctl != Error ==> Unmarked(MicroHeadersEnd(p, ch).p.state)
  {
  }

  lemma ChunkUnmarked(p: Parser, ch: Byte)
    requires GroupOf(p.state) == GChunk
    ensures MicroChunk(p, ch).ev == []
    ensures MicroChunk(p, ch).ctl != Reexecute
    ensures MicroChunk(p, ch).ctl != Error ==> Unmarked(MicroChunk(p, ch).p.state)
  {
  }

  /** Delivered and pending data up to `hi` are the events `ev`. */
  ghost predicate StreamIs(calls: seq<Callback>, m: Marks, data: seq<Byte>, hi: nat, ev: seq<Event>) {
    LogOk(calls, m, data, hi) && Stream(calls, m, data, hi) == ev
  }

  lemma MarkIsSet(calls: seq<Callback>, data: seq<Byte>, k: Kind, i: nat, ev: seq<Event>)
    requires StreamIs(calls, NO_MARKS, data, i, ev)
    ensures StreamIs(calls, WithMark(NO_MARKS, k, i), data, i, ev)
  {
    hide Flat, Ordered, EndOf;
    StreamMark(calls, data, k, i);
  }

  lemma SliceGrows(calls: seq<Callback>, m: Marks, data: seq<Byte>, k: Kind, i: nat, ev: seq<Event>)
    requires i < |data| && StreamIs(calls, m, data, i, ev) && MarkOf(m, k) >= 0
    ensures StreamIs(calls, m, data, i + 1, ev + [Data(k, data[i])])
  {
    hide Flat, Ordered, EndOf;
    StreamGrows(calls, m, data, k, i, i + 1);
    assert data[i..i + 1] == [data[i]];
    assert DataEvents(k, [data[i]]) == [Data(k, data[i])];
  }

  lemma SliceHandedOut(calls: seq<Callback>, m: Marks, data: seq<Byte>, k: Kind, i: nat, hi: nat, ev: seq<Event>)
    requires i <= hi <= |data| && StreamIs(calls, m, data, i, ev) && MarkOf(m, k) >= 0
    ensures StreamIs(calls + [OnData(k, MarkOf(m, k), i - MarkOf(m, k))], NO_MARKS, data, hi, ev)
  {
    hide Flat, Ordered, EndOf;
    StreamFlush(calls, m, data, k, i);
    StreamStays(calls + [OnData(k, MarkOf(m, k), i - MarkOf(m, k))], data, i, hi);
  }

  lemma NothingMarked(calls: seq<Callback>, data: seq<Byte>, i: nat, hi: nat, ev: seq<Event>)
    requires i <= hi <= |data| && StreamIs(calls, NO_MARKS, data, i, ev)
    ensures StreamIs(calls, NO_MARKS, data, hi, ev)
  {
    hide Flat, Ordered, EndOf;
    StreamStays(calls, data, i, hi);
  }

  lemma Notified(calls: seq<Callback>, e: Event, data: seq<Byte>, i: nat, hi: nat, ev: seq<Event>)
    requires i <= hi <= |data| && StreamIs(calls, NO_MARKS, data, i, ev) && !e.Data?
    ensures StreamIs(calls + [NoteOf(e)], NO_MARKS, data, hi, ev + [e])
  {
    hide Flat, Ordered, EndOf;
    StreamNotify(calls, NoteOf(e), data, i);
    StreamStays(calls + [NoteOf(e)], data, i, hi);
  }

  /** A pass with the effect of outcome `o` extends the stream by the events of `o`. */
  lemma EffectPasses(o: Out, k: Kind, data: seq<Byte>, i: nat, calls: seq<Callback>, m: Marks,
                     calls': seq<Callback>, m': Marks, ev: seq<Event>)
    requires i < |data| && StreamIs(calls, m, data, i, ev)
    requires Effect(o, k, i, data[i], calls, m, calls', m')
    requires o.ctl == Error ==> o.ev == []
    ensures StreamIs(calls', m', data, NextOf(i, o.ctl), ev + o.ev)
  {
    hide StreamIs, MarksMatch, NoteOf;
    var hi := NextOf(i, o.ctl);
    assert o.ev == [] ==> ev + o.ev == ev;
    if m == NO_MARKS {
      MarkIsSet(calls, data, k, i, ev);
    }
    if o.ctl == Error {
    } else if m' != NO_MARKS {
      SliceGrows(calls, m', data, k, i, ev);
    } else if m != NO_MARKS {
      SliceHandedOut(calls, m, data, k, i, hi, ev);
    } else if o.ev == [] {
      SliceHandedOut(calls, WithMark(NO_MARKS, k, i), data, k, i, hi, ev);
      NothingMarked(calls, data, i, hi, ev);
    } else {
      assert o.ev == [o.ev[0]];
      Notified(calls, o.ev[0], data, i, hi, ev);
    }
  }

  /** A failing pass hands out nothing and marks at most the empty slice. */
  lemma EffectOfError(o: Out, k: Kind, data: seq<Byte>, i: nat, calls: seq<Callback>, m: Marks,
                      calls': seq<Callback>, m': Marks)
    requires i < |data| && Effect(o, k, i, data[i], calls, m, calls', m') && o.ctl == Error
    ensures calls' == calls && (m' == m || (m == NO_MARKS && MarksWithin(m', i, i)))
  {
  }

  lemma EffectMarks(o: Out, k: Kind, data: seq<Byte>, i: nat, calls: seq<Callback>, m: Marks,
                    calls': seq<Callback>, m': Marks)
    requires i < |data| && Effect(o, k, i, data[i], calls, m, calls', m') && o.ctl != Error
    ensures MarksMatch(o.p.state, m')
  {
  }

  /** The outcome `o` after the events `ev`. */
  function Before(ev: seq<Event>, o: Out): Out { Out(o.p, ev + o.ev, o.ctl) }

  /** A pass that jumps back leaves the rest of the byte to the next pass. */
  lemma ReactUnfolds(p: Parser, ch: Byte, ev: seq<Event>)
    ensures Micro(p, ch).ctl == Reexecute ==>
              Before(ev, React(p, ch)) == Before(ev + Micro(p, ch).ev, React(Micro(p, ch).p, ch))
    ensures Micro(p, ch).ctl != Reexecute ==> React(p, ch) == Micro(p, ch)
  {
    hide Micro;
    ReexecuteTerminates(p, ch);
    var o := Micro(p, ch);
    if o.ctl == Reexecute {
      assert ev + (o.ev + React(o.p, ch).ev) == (ev + o.ev) + React(o.p, ch).ev;
    }
  }

  /** Without a live mark everything has been handed out. */
  lemma AllDelivered(calls: seq<Callback>, data: seq<Byte>, hi: nat, ev: seq<Event>)
    requires StreamIs(calls, NO_MARKS, data, hi, ev)
    ensures Ordered(calls, |data|) && Flat(calls, data) == ev
  {
  }

  /** Body bytes skipped under a body mark, set here unless it is live already. */
  lemma BodySkipped(calls: seq<Callback>, m: Marks, data: seq<Byte>, i: nat, j: nat, ev: seq<Event>)
    requires i <= j <= |data| && StreamIs(calls, m, data, i, ev)
    requires m == NO_MARKS || m.body >= 0
    ensures StreamIs(calls, Marked(m, Body, i), data, j, ev + DataEvents(Body, data[i..j]))
    ensures Marked(m, Body, i) == WithMark(NO_MARKS, Body, Marked(m, Body, i).body) && 0 <= Marked(m, Body, i).body <= j
  {
    hide Flat, Ordered, EndOf;
    if m == NO_MARKS {
      StreamMark(calls, data, Body, i);
    }
    StreamGrows(calls, Marked(m, Body, i), data, Body, i, j);
  }

  /** The slice of a complete body and the notification after it. */
  lemma BodyHandedOut(calls: seq<Callback>, mark: nat, data: seq<Byte>, hi: nat, ev: seq<Event>)
    requires StreamIs(calls, WithMark(NO_MARKS, Body, mark), data, hi, ev) && mark <= hi
    ensures StreamIs(calls + [OnData(Body, mark, hi - mark)] + [OnMessageComplete], NO_MARKS, data, hi, ev + [MessageComplete])
  {
    hide Flat, Ordered, EndOf;
    StreamFlush(calls, WithMark(NO_MARKS, Body, mark), data, Body, hi);
    StreamNotify(calls + [OnData(Body, mark, hi - mark)], OnMessageComplete, data, hi);
  }

  lemma BodyMarks(s: State, m: Marks, calls: seq<Callback>, data: seq<Byte>, hi: nat, ev: seq<Event>)
    requires s in {BodyIdentity, ChunkData} && MarksMatch(s, m) && StreamIs(calls, m, data, hi, ev)
    ensures m == NO_MARKS || m.body >= 0
  {
  }

  lemma NothingYet(m: Marks, data: seq<Byte>)
    requires AtMostOneMark(m) && MarksWithin(m, 0, 0)
    ensures StreamIs([], m, data, 0, [])
  {
  }

  /** A mark set at the failing byte itself stands for no data. */
  lemma LostSlice(calls: seq<Callback>, m: Marks, m': Marks, data: seq<Byte>, i: nat, ev: seq<Event>)
    requires StreamIs(calls, m', data, i, ev)
    requires m' == m || (m == NO_MARKS && MarksWithin(m', i, i))
    ensures StreamIs(calls, m, data, i, ev)
  {
  }

  lemma NoMarkAtStart(s: State, m: Marks, calls: seq<Callback>, data: seq<Byte>, hi: nat, ev: seq<Event>)
    requires s in {Dead, StartReq} && MarksMatch(s, m) && StreamIs(calls, m, data, hi, ev)
    ensures m == NO_MARKS
  {
  }

  lemma {:induction false} LeaveAtStart(p: Parser, ch: Byte)
    requires React(p, ch).ctl == Leave
    ensures React(p, ch).p.state in {Dead, StartReq}
    decreases Rank(p.state)
  {
    hide Micro;
    ReexecuteTerminates(p, ch);
    ReactUnfolds(p, ch, []);
    if Micro(p, ch).ctl == Reexecute {
      LeaveAtStart(Micro(p, ch).p, ch);
    } else {
      MicroLeave(p, ch);
    }
  }

  lemma MicroLeave(p: Parser, ch: Byte)
    requires Micro(p, ch).ctl == Leave
    ensures Micro(p, ch).p.state in {Dead, StartReq}
  {
  }

  /** A pass that jumps back never does so into a body. */
  lemma ReexecuteStates(p: Parser, ch: Byte)
    requires Micro(p, ch).ctl == Reexecute && !p.state.BodyIdentity?
    ensures Micro(p, ch).p.state !in {BodyIdentity, ChunkData, MessageDone}
  {
    hide MicroMethod, MicroVersion, MicroChunk, ParseUrlChar, FieldMatch, FirstFieldState, ValueMatch, PushDigit;
    var g := GroupOf(p.state);
    if g == GMethod {
      MethodUnmarked(p, ch);
    } else if g == GVersion {
      VersionUnmarked(p, ch);
    } else if g == GChunk {
      ChunkUnmarked(p, ch);
    }
  }

  /** Once a pass has handed something out before jumping back, the byte cannot fail. */
  lemma HandedOutNoError(p: Parser, ch: Byte)
    requires Micro(p, ch).ctl == Reexecute && (p.state.HeaderValue? || p.state.HeadersAlmostDone?)
    ensures React(Micro(p, ch).p, ch).ctl != Error
  {
    var q := Micro(p, ch).p;
    hide MicroMethod, MicroUrl, MicroVersion, MicroField, MicroChunk, MicroBody;
    assert ch == LF;
    assert React(q, ch) == Micro(q, ch);
  }

  /** The kind of mark a pass in state `s` may set or clear. */
  function KindOf(s: State): Kind {
    if GroupOf(s) == GUrl then Url else if GroupOf(s) == GField then Field else if GroupOf(s) == GValue then Value else Body
  }

  /** What a call on a non-empty buffer achieves: parser fields, consumed count and
      outcome are those of the fold.  Without an error the slices handed out are the
      fold's data events; on an error exactly the slice under the live mark `lost` of
      the failing byte is missing. */
  ghost predicate Executed(p: Parser, data: seq<Byte>, p': Parser, calls: seq<Callback>, used: nat, lost: Marks) {
    var t := Run(p, data);
    && p' == t.p && used == t.used
    && (t.ctl != Error ==> Inv(p') && Ordered(calls, |data|) && Flat(calls, data) == t.ev)
    && (t.ctl == Error ==> MarksMatch(Run(p, data[..used]).p.state, lost) && StreamIs(calls, lost, data, used, t.ev))
  }

  lemma BodyLength(p: Parser)
    requires MidInv(p) && p.state.BodyIdentity?
    ensures 0 < p.contentLength <= MAX_CONTENT_LENGTH
  {
  }

  lemma NotAtBody(p: Parser)
    ensures HttpStep.NewMessage(p) == StartReq || HttpStep.NewMessage(p) == Dead
    ensures HttpStep.NewMessage(p.(contentLength := 0)) == HttpStep.NewMessage(p)
  {
  }

  class HttpParser {
    var state: State
    var headerState: HeaderState
    var index: nat
    var flags: Flags
    var nread: nat
    var contentLength: nat
    var httpMajor: nat
    var httpMinor: nat
    var meth: Method
    var errno: Errno
    var upgrade: bool

    /** What the callbacks were told during the current call. */
    var calls: seq<Callback>

    ghost function View(): Parser
      reads this
    {
      Parser(state, headerState, index, flags, nread, contentLength, httpMajor, httpMinor, meth, errno, upgrade)
    }

    /** `http_parser_init` */
    constructor ()
      ensures View() == Init() && calls == []
    {
      state, headerState, index, flags := StartReq, General, 0, NO_FLAGS;
      nread, contentLength, httpMajor, httpMinor := 0, 0, 0, 0;
      meth, errno, upgrade := DELETE, Ok, false;
      calls := [];
    }

    method MayKeepAlive() returns (b: bool)
      ensures b == ShouldKeepAlive(View())
    {
      if httpMajor > 0 && httpMinor > 0 {
        if flags.close { return false; }
      } else {
        if !flags.keepAlive { return false; }
      }
      return true; // http_message_needs_eof is false for every request
    }

    method NewMessage() returns (s: State)
      ensures s == HttpStep.NewMessage(View())
    {
      var b := MayKeepAlive();
      s := if b then StartReq else Dead;
    }

    /** CALLBACK_DATA_ for the mark `mark` of kind `k`, up to offset `hi`. */
    method CallbackData(k: Kind, mark: int, hi: nat)
      requires mark <= hi
      modifies `calls
      ensures calls == if mark >= 0 then old(calls) + [OnData(k, mark, hi - mark)] else old(calls)
    {
      if mark >= 0 {
        calls := calls + [OnData(k, mark, hi - mark)];
      }
    }

    /** States `Dead` and `StartReq`. */
    method OnStart(data: seq<Byte>, i: nat) returns (ctl: Ctl)
      requires i < |data| && (state == Dead || state == StartReq)
      modifies this
      ensures var o := MicroMethod(old(View()), data[i]);
              View() == o.p && ctl == o.ctl && Quiet(o.ev, old(calls), calls)
    {
      var ch := data[i];
      ctl := Consume;
      if ch == CR || ch == LF {
        return;
      }
      if state == Dead {
        errno, ctl := ClosedConnection, Error;
        return;
      }
      flags, contentLength := NO_FLAGS, ULLONG_MAX;
      LowerIsAlpha(ch);
      var c := Lower(ch);
      if !('a' <= c <= 'z') {
        errno, ctl := InvalidMethod, Error;
        return;
      }
      meth, index := DELETE, 1;
      var first := FirstMethod(ch);
      if first.NoMethod? {
        errno, ctl := InvalidMethod, Error;
        return;
      }
      meth, state := first.m, ReqMethod;
      calls := calls + [OnMessageBegin];
    }

    method OnMethod(data: seq<Byte>, i: nat) returns (ctl: Ctl)
      requires i < |data| && state == ReqMethod
      modifies this
      ensures var o := MicroMethod(old(View()), data[i]);
              View() == o.p && ctl == o.ctl && Quiet(o.ev, old(calls), calls)
    {
      var ch := data[i];
      ctl := Consume;
      var matcher := MethodString(meth);
      if ch == '\0' {
        errno, ctl := InvalidMethod, Error;
        return;
      }
      if ch == ' ' && index == |matcher| {
        state := ReqSpacesBeforeUrl;
      } else if index < |matcher| && ch == matcher[index] {
      } else {
        var other := OtherMethod(meth, index, ch);
        if other.NoMethod? {
          errno, ctl := InvalidMethod, Error;
          return;
        }
        meth := other.m;
      }
      index := index + 1;
    }

    method OnUrl(data: seq<Byte>, i: nat, m: Marks) returns (m': Marks, ctl: Ctl)
      requires i < |data| && (state == ReqSpacesBeforeUrl || InUrl(state))
      requires MarksMatch(state, m) && MarksWithin(m, 0, i)
      modifies this
      ensures var o := MicroUrl(old(View()), data[i]);
              View() == o.p && ctl == o.ctl && Effect(o, Url, i, data[i], old(calls), m, calls, m')
      ensures ctl != Reexecute
    {
      var ch := data[i];
      if ch != ' ' && (state == ReqSpacesBeforeUrl || (ch != CR && ch != LF)) {
        m' := Marked(m, Url, i);
        ctl := OnUrlByte(ch);
      } else if state == ReqSpacesBeforeUrl {
        m', ctl := m, Consume;
      } else {
        m' := m;
        ctl := OnUrlEnd(ch);
        if ctl == Consume {
          CallbackData(Url, m.url, i);
          m' := NO_MARKS;
        }
      }
    }

    method OnUrlByte(ch: Byte) returns (ctl: Ctl)
      requires state == ReqSpacesBeforeUrl || (InUrl(state) && ch != CR && ch != LF)
      requires ch != ' '
      modifies this
      ensures var o := MicroUrl(old(View()), ch);
              View() == o.p && ctl == o.ctl && (ctl == Error || (ctl == Consume && InUrl(state) && o.ev == [Data(Url, ch)]))
      ensures calls == old(calls)
    {
      ctl := Consume;
      if state == ReqSpacesBeforeUrl && meth == CONNECT {
        state := ReqServerStart;
      }
      ParseUrlCharInUrl(state, ch);
      state := ParseUrlChar(state, ch);
      if state == Dead {
        errno, ctl := InvalidUrl, Error;
      }
    }

    method OnUrlEnd(ch: Byte) returns (ctl: Ctl)
      requires InUrl(state) && (ch == ' ' || ch == CR || ch == LF)
      modifies this
      ensures var o := MicroUrl(old(View()), ch);
              View() == o.p && ctl == o.ctl && (ctl == Error || (ctl == Consume && Unmarked(state) && o.ev == []))
      ensures calls == old(calls)
    {
      ctl := Consume;
      if !UrlMayEnd(state) {
        errno, ctl := InvalidUrl, Error;
      } else if ch == ' ' {
        state := ReqHttpStart;
      } else {
        httpMajor, httpMinor := 0, 9;
        state := if ch == CR then ReqLineAlmostDone else HeaderFieldStart;
      }
    }

    method OnVersion(data: seq<Byte>, i: nat) returns (ctl: Ctl)
      requires i < |data| && GroupOf(state) == GVersion
      modifies this
      ensures var o := MicroVersion(old(View()), data[i]); View() == o.p && ctl == o.ctl
      ensures calls == old(calls)
    {
      var ch := data[i];
      if VersionLiteral(state) {
        ctl := OnVersionLiteral(ch);
      } else if state == ReqLineAlmostDone {
        if ch == LF {
          state, ctl := HeaderFieldStart, Consume;
        } else {
          errno, ctl := LfExpected, Error;
        }
      } else {
        ctl := OnVersionNumber(ch);
      }
    }

    method OnVersionLiteral(ch: Byte) returns (ctl: Ctl)
      requires VersionLiteral(state)
      modifies this
      ensures var o := MicroVersion(old(View()), ch); View() == o.p && ctl == o.ctl
      ensures calls == old(calls)
    {
      ctl := Consume;
      if state == ReqHttpStart {
        if ch == 'H' {
          state := ReqHttpH;
        } else if ch != ' ' {
          errno, ctl := InvalidConstant, Error;
        }
      } else if state == ReqHttpH {
        if ch != 'T' { errno, ctl := Strict, Error; return; }
        state := ReqHttpHT;
      } else if state == ReqHttpHT {
        if ch != 'T' { errno, ctl := Strict, Error; return; }
        state := ReqHttpHTT;
      } else if state == ReqHttpHTT {
        if ch != 'P' { errno, ctl := Strict, Error; return; }
        state := ReqHttpHTTP;
      } else {
        if ch != '/' { errno, ctl := Strict, Error; return; }
        state := ReqFirstHttpMajor;
      }
    }

    method OnVersionNumber(ch: Byte) returns (ctl: Ctl)
      requires state in {ReqFirstHttpMajor, ReqHttpMajor, ReqFirstHttpMinor, ReqHttpMinor}
      modifies this
      ensures var o := MicroVersion(old(View()), ch); View() == o.p && ctl == o.ctl
      ensures calls == old(calls)
    {
      ctl := Consume;
      if state == ReqFirstHttpMajor {
        if ch < '1' || ch > '9' { errno, ctl := InvalidVersion, Error; return; }
        httpMajor, state := Digit(ch), ReqHttpMajor;
      } else if state == ReqHttpMajor {
        if ch == '.' { state := ReqFirstHttpMinor; return; }
        if !IsNum(ch) { errno, ctl := InvalidVersion, Error; return; }
        httpMajor := httpMajor * 10;
        httpMajor := httpMajor + Digit(ch);
        if httpMajor > 999 { errno, ctl := InvalidVersion, Error; }
      } else if state == ReqFirstHttpMinor {
        if !IsNum(ch) { errno, ctl := InvalidVersion, Error; return; }
        httpMinor, state := Digit(ch), ReqHttpMinor;
      } else {
        if ch == CR { state := ReqLineAlmostDone; return; }
        if ch == LF { state := HeaderFieldStart; return; }
        if !IsNum(ch) { errno, ctl := InvalidVersion, Error; return; }
        httpMinor := httpMinor * 10;
        httpMinor := httpMinor + Digit(ch);
        if httpMinor > 999 { errno, ctl := InvalidVersion, Error; }
      }
    }

    method OnFieldStart(data: seq<Byte>, i: nat) returns (m': Marks, ctl: Ctl)
      requires i < |data| && state == HeaderFieldStart
      modifies this
      ensures var o := MicroField(old(View()), data[i]);
              View() == o.p && ctl == o.ctl && Effect(o, Field, i, data[i], old(calls), NO_MARKS, calls, m')
      ensures ctl == Reexecute ==> calls == old(calls) && m' == NO_MARKS
    {
      var ch := data[i];
      m', ctl := NO_MARKS, Consume;
      if ch == CR {
        state := HeadersAlmostDone;
        return;
      }
      if ch == LF {
        state, ctl := HeadersAlmostDone, Reexecute;
        return;
      }
      var c := Token(ch);
      if c == '\0' {
        errno, ctl := InvalidHeaderToken, Error;
        return;
      }
      m' := Marked(NO_MARKS, Field, i);
      index, state := 0, HeaderField;
      match c {
        case 'c' => headerState := C;
        case 'p' => headerState := MatchingProxyConnection;
        case 't' => headerState := MatchingTransferEncoding;
        case 'u' => headerState := MatchingUpgrade;
        case _ => headerState := General;
      }
    }

    /** A matcher of the source: count the byte, then compare it with the word. */
    method Match(word: seq<Byte>, c: Byte, full: HeaderState)
      requires |word| > 0 && index < |word| - 1
      modifies `index, `headerState
      ensures index == old(index) + 1
      ensures headerState == MatchStep(word, old(index) + 1, c, old(headerState), full)
    {
      index := index + 1;
      if c != word[index] {
        headerState := General;
      } else if index == |word| - 1 {
        headerState := full;
      }
    }

    method OnFieldToken(c: Byte)
      requires FieldMatcherOk(headerState, index)
      modifies `index, `headerState
      ensures (headerState, index) == FieldMatch(old(headerState), old(index), c)
    {
      if headerState == General {
      } else if headerState == C {
        index := index + 1;
        headerState := if c == 'o' then CO else General;
      } else if headerState == CO {
        index := index + 1;
        headerState := if c == 'n' then CON else General;
      } else if headerState == CON {
        index := index + 1;
        headerState := if c == 'n' then MatchingConnection else if c == 't' then MatchingContentLength else General;
      } else if headerState == MatchingConnection {
        Match(CONNECTION, c, Connection);
      } else if headerState == MatchingProxyConnection {
        Match(PROXY_CONNECTION, c, Connection);
      } else if headerState == MatchingContentLength {
        Match(CONTENT_LENGTH, c, ContentLength);
      } else if headerState == MatchingTransferEncoding {
        Match(TRANSFER_ENCODING, c, TransferEncoding);
      } else if headerState == MatchingUpgrade {
        Match(UPGRADE, c, Upgrade);
      } else {
        assert headerState in {Connection, ContentLength, TransferEncoding, Upgrade};
        if c != ' ' { headerState := General; }
      }
    }

    method OnField(data: seq<Byte>, i: nat, m: Marks) returns (m': Marks, ctl: Ctl)
      requires i < |data| && state == HeaderField && FieldMatcherOk(headerState, index)
      requires MarksMatch(state, m) && MarksWithin(m, 0, i)
      modifies this
      ensures var o := MicroField(old(View()), data[i]);
              View() == o.p && ctl == o.ctl && Effect(o, Field, i, data[i], old(calls), m, calls, m')
      ensures ctl != Reexecute
    {
      hide Token, FieldMatch, FirstFieldState;
      var ch := data[i];
      m', ctl := m, Consume;
      var c := Token(ch);
      if c != '\0' {
        OnFieldToken(c);
        return;
      }
      if ch == ':' {
        state := HeaderValueStart;
      } else if ch == CR {
        state := HeaderAlmostDone;
      } else if ch == LF {
        state := HeaderFieldStart;
      } else {
        errno, ctl := InvalidHeaderToken, Error;
        return;
      }
      CallbackData(Field, m.field, i);
      m' := NO_MARKS;
    }

    method OnValueStart(data: seq<Byte>, i: nat) returns (m': Marks, ctl: Ctl)
      requires i < |data| && state == HeaderValueStart
      modifies this
      ensures var o := MicroValue(old(View()), data[i]);
              View() == o.p && ctl == o.ctl && Effect(o, Value, i, data[i], old(calls), NO_MARKS, calls, m')
      ensures data[i] == CR || data[i] == LF ==> calls == old(calls) + [OnData(Value, i, 0)]
      ensures ctl != Reexecute
    {
      hide ValueStart, ValueNext, Effect;
      var ch := data[i];
      m', ctl := NO_MARKS, Consume;
      if ch == ' ' || ch == '\t' {
        BlankEffect(View(), i, ch, calls);
        return;
      }
      m' := Marked(m', Value, i);
      if ch == CR || ch == LF {
        EmptyValueEffect(View(), i, ch, calls);
        OnEmptyValue(ch);
        CallbackData(Value, m'.value, i);
        m' := NO_MARKS;
      } else {
        FirstByteEffect(View(), i, ch, calls);
        ctl := OnFirstValueByte(ch);
      }
    }

    static lemma BlankEffect(p: Parser, i: nat, ch: Byte, calls: seq<Callback>)
      requires p.state.HeaderValueStart? && (ch == ' ' || ch == '\t')
      ensures MicroValue(p, ch) == Out(p, [], Consume)
      ensures Effect(MicroValue(p, ch), Value, i, ch, calls, NO_MARKS, calls, NO_MARKS)
    {
    }

    static lemma EmptyValueEffect(p: Parser, i: nat, ch: Byte, calls: seq<Callback>)
      requires p.state.HeaderValueStart? && (ch == CR || ch == LF)
      ensures Effect(MicroValue(p, ch), Value, i, ch, calls, NO_MARKS, calls + [OnData(Value, i, 0)], NO_MARKS)
    {
    }

    static lemma FirstByteEffect(p: Parser, i: nat, ch: Byte, calls: seq<Callback>)
      requires p.state.HeaderValueStart? && ch != ' ' && ch != '\t' && ch != CR && ch != LF
      ensures MicroValue(p, ch) == ValueStart(p, ch)
      ensures Effect(MicroValue(p, ch), Value, i, ch, calls, NO_MARKS, calls, Marked(NO_MARKS, Value, i))
    {
      hide Lower, IsNum;
    }

    method OnEmptyValue(ch: Byte)
      requires ch == CR || ch == LF
      modifies this
      ensures View() == if ch == CR then old(View()).(index := 0, headerState := General, state := HeaderAlmostDone)
                        else old(View()).(index := 0, state := HeaderFieldStart)
      ensures calls == old(calls)
    {
      index := 0;
      if ch == CR {
        headerState, state := General, HeaderAlmostDone;
      } else {
        state := HeaderFieldStart;
      }
    }

    method OnFirstValueByte(ch: Byte) returns (ctl: Ctl)
      modifies this
      ensures var o := ValueStart(old(View()), ch);
              View() == o.p && ctl == o.ctl && (ctl == Error || (ctl == Consume && o.ev == [Data(Value, ch)]))
      ensures calls == old(calls) && state == HeaderValue
    {
      state, index := HeaderValue, 0;
      var c := Lower(ch);
      ctl := Consume;
      match headerState {
        case Upgrade =>
          flags, headerState := flags.(upgrade := true), General;
        case TransferEncoding =>
          headerState := if c == 'c' then MatchingChunked else General;
        case ContentLength =>
          if !IsNum(ch) {
            errno, ctl := InvalidContentLength, Error;
            return;
          }
          contentLength := Digit(ch);
        case Connection =>
          if c == 'k' {
            headerState := MatchingKeepAlive;
          } else if c == 'c' {
            headerState := MatchingClose;
          } else {
            headerState := General;
          }
        case _ =>
          headerState := General;
      }
    }

    method OnNextValueByte(ch: Byte) returns (ctl: Ctl)
      requires ValueMatcherOk(headerState, index)
      modifies this
      ensures var o := ValueNext(old(View()), ch);
              View() == o.p && ctl == o.ctl && (ctl == Error || (ctl == Consume && o.ev == [Data(Value, ch)]))
      ensures calls == old(calls) && state == old(state)
    {
      var c := Lower(ch);
      ctl := Consume;
      if headerState == General {
      } else if headerState == ContentLength {
        if ch == ' ' {
          return;
        }
        if !IsNum(ch) {
          errno, ctl := InvalidContentLength, Error;
          return;
        }
        var t := (contentLength * 10 + Digit(ch)) % (ULLONG_MAX + 1);
        if (ULLONG_MAX - 10) / 10 < contentLength {
          errno, ctl := InvalidContentLength, Error;
          return;
        }
        contentLength := t;
      } else if headerState == MatchingChunked {
        Match(CHUNKED, c, Chunked);
      } else if headerState == MatchingKeepAlive {
        Match(KEEP_ALIVE, c, KeepAlive);
      } else if headerState == MatchingClose {
        Match(CLOSE, c, Close);
      } else {
        assert headerState in {Chunked, KeepAlive, Close};
        if ch != ' ' { headerState := General; }
      }
    }

    method OnValue(data: seq<Byte>, i: nat, m: Marks) returns (m': Marks, ctl: Ctl)
      requires i < |data| && state == HeaderValue && ValueMatcherOk(headerState, index)
      requires MarksMatch(state, m) && MarksWithin(m, 0, i)
      modifies this
      ensures var o := MicroValue(old(View()), data[i]);
              View() == o.p && ctl == o.ctl && Effect(o, Value, i, data[i], old(calls), m, calls, m')
    {
      var ch := data[i];
      m', ctl := m, Consume;
      if ch == CR || ch == LF {
        state := HeaderAlmostDone;
        CallbackData(Value, m.value, i);
        m' := NO_MARKS;
        if ch == LF { ctl := Reexecute; }
        return;
      }
      ctl := OnNextValueByte(ch);
    }

    method OnHeaderAlmostDone(ch: Byte) returns (ctl: Ctl)
      requires state == HeaderAlmostDone
      modifies this
      ensures var o := MicroValue(old(View()), ch); View() == o.p && ctl == o.ctl
      ensures calls == old(calls)
    {
      if ch != LF {
        errno, ctl := Strict, Error;
        return;
      }
      state, ctl := HeaderValueLws, Consume;
      match headerState {
        case KeepAlive => flags := flags.(keepAlive := true);
        case Close => flags := flags.(close := true);
        case Chunked => flags := flags.(chunked := true);
        case _ =>
      }
    }

    method OnHeaderValueLws(ch: Byte) returns (ctl: Ctl)
      requires state == HeaderValueLws
      modifies this
      ensures var o := MicroValue(old(View()), ch); View() == o.p && ctl == o.ctl
      ensures calls == old(calls)
    {
      if ch == ' ' || ch == '\t' {
        state, ctl := HeaderValueStart, Consume;
      } else {
        state, ctl := HeaderFieldStart, Reexecute;
      }
    }

    method OnHeadersAlmostDone(ch: Byte) returns (ctl: Ctl)
      requires state == HeadersAlmostDone
      modifies this
      ensures var o := MicroHeadersEnd(old(View()), ch);
              View() == o.p && ctl == o.ctl && Quiet(o.ev, old(calls), calls)
    {
      ctl := Consume;
      if ch != LF {
        errno, ctl := Strict, Error;
        return;
      }
      if flags.trailing {
        state := NewMessage();
        calls := calls + [OnMessageComplete];
        return;
      }
      state := HeadersDone;
      upgrade := flags.upgrade || meth == CONNECT;
      calls := calls + [OnHeadersComplete];
      ctl := Reexecute;
    }

    method OnHeadersDone(ch: Byte) returns (ctl: Ctl)
      requires state == HeadersDone
      modifies this
      ensures var o := MicroHeadersEnd(old(View()), ch);
              View() == o.p && ctl == o.ctl && Quiet(o.ev, old(calls), calls)
    {
      ctl := Consume;
      if ch != LF {
        errno, ctl := Strict, Error;
        return;
      }
      nread := 0;
      if upgrade {
        state := NewMessage();
        calls := calls + [OnMessageComplete];
        ctl := Leave;
      } else if flags.chunked {
        state := ChunkSizeStart;
      } else if contentLength == 0 {
        state := NewMessage();
        calls := calls + [OnMessageComplete];
      } else if contentLength != ULLONG_MAX {
        state := BodyIdentity;
      } else {
        state := NewMessage(); // a request without a length has no body
        calls := calls + [OnMessageComplete];
      }
    }

    method OnChunkSize(ch: Byte) returns (ctl: Ctl)
      requires flags.chunked && (state == ChunkSize || (state == ChunkSizeStart && nread == 1))
      modifies this
      ensures var o := MicroChunk(old(View()), ch); View() == o.p && ctl == o.ctl
      ensures calls == old(calls)
    {
      hide Unhex;
      UnhexRange(ch);
      ctl := Consume;
      assert flags.chunked;
      var unhexVal := Unhex(ch);
      if state == ChunkSizeStart {
        assert nread == 1;
        if unhexVal == -1 {
          errno, ctl := InvalidChunkSize, Error;
          return;
        }
        contentLength, state := unhexVal, ChunkSize;
        return;
      }
      if ch == CR {
        state := ChunkSizeAlmostDone;
        return;
      }
      if unhexVal == -1 {
        if ch == ';' || ch == ' ' {
          state := ChunkParameters;
          return;
        }
        errno, ctl := InvalidChunkSize, Error;
        return;
      }
      var t := (contentLength * 16 + unhexVal) % (ULLONG_MAX + 1);
      if (ULLONG_MAX - 16) / 16 < contentLength {
        errno, ctl := InvalidContentLength, Error;
        return;
      }
      contentLength := t;
    }

    method OnChunkSizeEnd(ch: Byte) returns (ctl: Ctl)
      requires flags.chunked && (state == ChunkParameters || state == ChunkSizeAlmostDone)
      modifies this
      ensures var o := MicroChunk(old(View()), ch); View() == o.p && ctl == o.ctl
      ensures calls == old(calls)
    {
      ctl := Consume;
      assert flags.chunked;
      if state == ChunkParameters {
        if ch == CR {
          state := ChunkSizeAlmostDone;
        }
        return;
      }
      if ch != LF {
        errno, ctl := Strict, Error;
        return;
      }
      nread := 0;
      if contentLength == 0 {
        flags, state := flags.(trailing := true), HeaderFieldStart;
      } else {
        state := ChunkData;
      }
    }

    method OnChunkDataEnd(data: seq<Byte>, i: nat, m: Marks) returns (m': Marks, ctl: Ctl)
      requires i < |data| && (state == ChunkDataAlmostDone || state == ChunkDataDone)
      requires flags.chunked && (state == ChunkDataAlmostDone ==> contentLength == 0)
      requires MarksMatch(state, m) && MarksWithin(m, 0, i)
      modifies this
      ensures var o := MicroBody(old(View()), data[i]);
              View() == o.p && ctl == o.ctl && Effect(o, Body, i, data[i], old(calls), m, calls, m')
      ensures ctl != Reexecute
    {
      m', ctl := m, Consume;
      assert flags.chunked;
      if state == ChunkDataAlmostDone {
        assert contentLength == 0;
        m', ctl := OnChunkDataCr(data, i, m);
      } else {
        ctl := OnChunkDataLf(data[i]);
      }
    }

    method OnChunkDataCr(data: seq<Byte>, i: nat, m: Marks) returns (m': Marks, ctl: Ctl)
      requires i < |data| && state == ChunkDataAlmostDone && MarksMatch(state, m) && MarksWithin(m, 0, i)
      modifies this
      ensures var o := MicroBody(old(View()), data[i]);
              View() == o.p && ctl == o.ctl && Effect(o, Body, i, data[i], old(calls), m, calls, m')
      ensures ctl != Reexecute
    {
      if data[i] != CR {
        errno, m', ctl := Strict, m, Error;
        return;
      }
      ctl := Consume;
      state := ChunkDataDone;
      CallbackData(Body, m.body, i);
      m' := NO_MARKS;
    }

    method OnChunkDataLf(ch: Byte) returns (ctl: Ctl)
      requires state == ChunkDataDone
      modifies `errno, `nread, `state
      ensures var o := MicroBody(old(View()), ch);
              View() == o.p && ctl == o.ctl && o.ev == [] && ctl != Reexecute
    {
      if ch != LF {
        errno := Strict;
        return Error;
      }
      nread := 0;
      state := ChunkSizeStart;
      return Consume;
    }

    /** The switch, for every state but the two that skip ahead. */
    method OnByte(data: seq<Byte>, i: nat, m: Marks) returns (m': Marks, ctl: Ctl)
      requires i < |data| && MidInv(View())
      requires state !in {BodyIdentity, ChunkData, MessageDone}
      requires MarksMatch(state, m) && MarksWithin(m, 0, i)
      modifies this
      ensures var o := Micro(old(View()), data[i]);
              View() == o.p && ctl == o.ctl && Effect(o, KindOf(old(state)), i, data[i], old(calls), m, calls, m')
      ensures ctl == Reexecute && old(state) != HeaderValue && old(state) != HeadersAlmostDone ==>
                calls == old(calls) && m' == m
    {
      hide Effect, MicroMethod, MicroUrl, MicroVersion, MicroField, MicroValue, MicroHeadersEnd, MicroChunk, MicroBody;
      if state == ReqSpacesBeforeUrl || InUrl(state) {
        m', ctl := OnUrl(data, i, m);
      } else if state == HeaderFieldStart {
        m', ctl := OnFieldStart(data, i);
      } else if state == HeaderField {
        m', ctl := OnField(data, i, m);
      } else if state == HeaderValueStart {
        m', ctl := OnValueStart(data, i);
      } else if state == HeaderValue {
        m', ctl := OnValue(data, i, m);
      } else if state == ChunkDataAlmostDone || state == ChunkDataDone {
        m', ctl := OnChunkDataEnd(data, i, m);
      } else {
        m' := m;
        ctl := OnQuietByte(data, i);
      }
    }

    /** The states that neither set nor clear a mark. */
    method OnQuietByte(data: seq<Byte>, i: nat) returns (ctl: Ctl)
      requires i < |data| && MidInv(View())
      requires GroupOf(state) in {GMethod, GVersion, GHeadersEnd, GChunk} || state == HeaderAlmostDone || state == HeaderValueLws
      modifies this
      ensures var o := Micro(old(View()), data[i]);
              View() == o.p && ctl == o.ctl
              && Effect(o, KindOf(old(state)), i, data[i], old(calls), NO_MARKS, calls, NO_MARKS)
      ensures ctl == Reexecute && old(state) != HeadersAlmostDone ==> calls == old(calls)
    {
      hide Effect, MicroMethod, MicroUrl, MicroVersion, MicroField, MicroValue, MicroHeadersEnd, MicroChunk, MicroBody;
      ghost var p := View();
      var ch := data[i];
      if state == Dead || state == StartReq {
        MethodUnmarked(p, ch);
        ctl := OnStart(data, i);
      } else if state == ReqMethod {
        MethodUnmarked(p, ch);
        ctl := OnMethod(data, i);
      } else if GroupOf(state) == GVersion {
        VersionUnmarked(p, ch);
        ctl := OnVersion(data, i);
      } else if state == HeaderAlmostDone {
        ValueEndUnmarked(p, ch);
        ctl := OnHeaderAlmostDone(ch);
      } else if state == HeaderValueLws {
        ValueEndUnmarked(p, ch);
        ctl := OnHeaderValueLws(ch);
      } else if state == HeadersAlmostDone {
        HeadersEndUnmarked(p, ch);
        ctl := OnHeadersAlmostDone(ch);
      } else if state == HeadersDone {
        HeadersEndUnmarked(p, ch);
        ctl := OnHeadersDone(ch);
      } else {
        ChunkUnmarked(p, ch);
        if state == ChunkSizeStart || state == ChunkSize {
          ctl := OnChunkSize(ch);
        } else {
          ctl := OnChunkSizeEnd(ch);
        }
      }
      QuietEffect(Micro(p, ch), KindOf(p.state), i, ch, old(calls), calls);
    }

    /** One pass over byte `i`; `ev` is what the buffer has reported before. */
    method OnPass(data: seq<Byte>, i: nat, m: Marks, ghost ev: seq<Event>) returns (m': Marks, ctl: Ctl)
      requires i < |data| && MidInv(View())
      requires state !in {BodyIdentity, ChunkData, MessageDone}
      requires MarksMatch(state, m) && StreamIs(calls, m, data, i, ev)
      modifies this
      ensures var o := Micro(old(View()), data[i]);
              View() == o.p && ctl == o.ctl && StreamIs(calls, m', data, NextOf(i, ctl), ev + o.ev)
      ensures ctl == Reexecute ==> MidInv(View()) && state !in {BodyIdentity, ChunkData, MessageDone}
      ensures ctl != Error ==> MarksMatch(state, m')
      ensures ctl == Consume || ctl == Leave ==> Inv(View())
      ensures ctl == Error ==> calls == old(calls) && (m' == m || (m == NO_MARKS && MarksWithin(m', i, i)))
      ensures ctl == Reexecute ==> (calls == old(calls) && m' == m) || React(View(), data[i]).ctl != Error
    {
      hide Effect, Micro, React, Inv, MidInv;
      ghost var p, calls0, ch := View(), calls, data[i];
      ghost var o := Micro(p, ch);
      MicroInv(p, ch);
      m', ctl := OnByte(data, i, m);
      EffectPasses(o, KindOf(p.state), data, i, calls0, m, calls, m', ev);
      if ctl == Error {
        EffectOfError(o, KindOf(p.state), data, i, calls0, m, calls, m');
      } else {
        EffectMarks(o, KindOf(p.state), data, i, calls0, m, calls, m');
      }
      if ctl == Reexecute {
        ReexecuteStates(p, ch);
        if p.state.HeaderValue? || p.state.HeadersAlmostDone? {
          HandedOutNoError(p, ch);
        }
      }
    }

    /** Byte `i` with all jumps back to it (`goto reexecute_byte`). */
    method OnByteRepeated(data: seq<Byte>, i: nat, m: Marks, ghost ev: seq<Event>) returns (m': Marks, ctl: Ctl)
      requires i < |data| && MidInv(View())
      requires state !in {BodyIdentity, ChunkData, MessageDone}
      requires MarksMatch(state, m) && StreamIs(calls, m, data, i, ev)
      modifies this
      ensures var o := React(old(View()), data[i]);
              View() == o.p && ctl == o.ctl && StreamIs(calls, m', data, NextOf(i, ctl), ev + o.ev)
      ensures ctl != Error ==> Inv(View()) && MarksMatch(state, m')
      ensures ctl == Error ==> calls == old(calls) && (m' == m || (m == NO_MARKS && MarksWithin(m', i, i)))
    {
      hide StreamIs, Micro, React, Inv, MidInv, MarksMatch, MarksWithin;
      ghost var p, calls0, ch := View(), calls, data[i];
      ghost var now: seq<Event> := [];
      assert Before([], React(p, ch)) == React(p, ch);
      assert ev + [] == ev;
      m' := m;
      while true
        invariant MidInv(View()) && state !in {BodyIdentity, ChunkData, MessageDone}
        invariant MarksMatch(state, m')
        invariant StreamIs(calls, m', data, i, ev + now)
        invariant React(p, ch) == Before(now, React(View(), ch))
        invariant (calls == calls0 && m' == m) || React(View(), ch).ctl != Error
        decreases Rank(state)
      {
        ghost var o := Micro(View(), ch);
        ReexecuteTerminates(View(), ch);
        ReactUnfolds(View(), ch, now);
        m', ctl := OnPass(data, i, m', ev + now);
        assert (ev + now) + o.ev == ev + (now + o.ev);
        now := now + o.ev;
        if ctl != Reexecute {
          return;
        }
      }
    }

    /** State `BodyIdentity`: all available body bytes at once (`p += to_read - 1`).  At
        the end of the body the slice is handed out including the last byte, which is
        then looked at again in state `MessageDone`.  The result `i'` is the last byte used. */
    method SkipIdentity(data: seq<Byte>, i: nat, m: Marks, ghost ev: seq<Event>) returns (m': Marks, i': nat)
      requires i < |data| && MidInv(View()) && state == BodyIdentity
      requires m == NO_MARKS || m.body >= 0
      requires StreamIs(calls, m, data, i, ev)
      modifies this
      ensures i <= i' < |data|
      ensures var t := Run(old(View()), data[i..i' + 1]);
              t.ctl == Consume && View() == t.p && StreamIs(calls, m', data, i' + 1, ev + t.ev)
      ensures MarksMatch(state, m')
    {
      hide Run, StreamIs, MidInv, HttpStep.NewMessage;
      ghost var p := View();
      BodyLength(p);
      assert contentLength != 0 && contentLength != ULLONG_MAX;
      var toRead := if contentLength < |data| - i then contentLength else |data| - i;
      m' := Marked(m, Body, i);
      contentLength := contentLength - toRead;
      i' := i + toRead - 1;
      ghost var body := data[i..i' + 1];
      BodySkipped(calls, m, data, i, i' + 1, ev);
      IdentityRun(p, body);
      NotAtBody(p);
      if contentLength == 0 {
        EndBody(data, m'.body, i' + 1, ev + DataEvents(Body, body));
        m' := NO_MARKS;
        assert (ev + DataEvents(Body, body)) + [MessageComplete] == ev + (DataEvents(Body, body) + [MessageComplete]);
      }
    }

    /** The end of the body: the slice is handed out and the message completed. */
    method EndBody(data: seq<Byte>, mark: nat, hi: nat, ghost ev: seq<Event>)
      requires state == BodyIdentity && mark <= hi && StreamIs(calls, WithMark(NO_MARKS, Body, mark), data, hi, ev)
      modifies this
      ensures View() == old(View()).(state := HttpStep.NewMessage(old(View())))
      ensures StreamIs(calls, NO_MARKS, data, hi, ev + [MessageComplete])
    {
      hide StreamIs;
      BodyHandedOut(calls, mark, data, hi, ev);
      state := MessageDone;
      CallbackData(Body, mark, hi);
      OnMessageDone();
    }

    method OnMessageDone()
      requires state == MessageDone
      modifies this
      ensures View() == old(View()).(state := HttpStep.NewMessage(old(View())))
      ensures calls == old(calls) + [OnMessageComplete]
    {
      state := NewMessage();
      calls := calls + [OnMessageComplete];
    }

    /** State `ChunkData`: all available bytes of the chunk at once. */
    method SkipChunk(data: seq<Byte>, i: nat, m: Marks, ghost ev: seq<Event>) returns (m': Marks, i': nat)
      requires i < |data| && MidInv(View()) && state == ChunkData
      requires m == NO_MARKS || m.body >= 0
      requires StreamIs(calls, m, data, i, ev)
      modifies this
      ensures i <= i' < |data|
      ensures var t := Run(old(View()), data[i..i' + 1]);
              t.ctl == Consume && View() == t.p && StreamIs(calls, m', data, i' + 1, ev + t.ev)
      ensures MarksMatch(state, m')
    {
      hide Run, StreamIs;
      ghost var p := View();
      assert flags.chunked;
      var toRead := if contentLength < |data| - i then contentLength else |data| - i;
      assert contentLength != 0 && contentLength != ULLONG_MAX;
      m' := Marked(m, Body, i);
      contentLength := contentLength - toRead;
      i' := i + toRead - 1;
      ChunkRun(p, data[i..i' + 1]);
      BodySkipped(calls, m, data, i, i' + 1, ev);
      if contentLength == 0 {
        state := ChunkDataAlmostDone;
      }
    }

    /** The marks a call starts with: data that was cut by the buffer boundary goes on. */
    method SeedMarks() returns (m: Marks)
      ensures MarksMatch(state, m) && MarksWithin(m, 0, 0) && m.body == -1
    {
      m := NO_MARKS;
      if state == HeaderField { m := m.(field := 0); }
      if state == HeaderValue { m := m.(value := 0); }
      if InUrl(state) { m := m.(url := 0); }
    }

    /** Hands out what is left under a mark at the end of the buffer. */
    method FlushMarks(data: seq<Byte>, m: Marks, ghost ev: seq<Event>)
      requires StreamIs(calls, m, data, |data|, ev)
      modifies `calls
      ensures StreamIs(calls, NO_MARKS, data, |data|, ev)
    {
      hide Flat, Ordered, EndOf;
      if m != NO_MARKS {
        StreamFlush(calls, m, data, if m.url >= 0 then Url else if m.field >= 0 then Field else if m.value >= 0 then Value else Body, |data|);
      }
      CallbackData(Field, m.field, |data|);
      CallbackData(Value, m.value, |data|);
      CallbackData(Url, m.url, |data|);
      CallbackData(Body, m.body, |data|);
    }

    /** The parser has used the first `i` bytes of the buffer; `p` is the parser at its start. */
    ghost predicate At(p: Parser, data: seq<Byte>, i: nat, m: Marks)
      reads this
    {
      && i <= |data|
      && Run(p, data[..i]).ctl == Consume && Run(p, data[..i]).p == View()
      && Inv(View()) && MarksMatch(state, m)
      && StreamIs(calls, m, data, i, Run(p, data[..i]).ev)
    }

    /** One turn of the loop over the buffer. */
    method Advance(data: seq<Byte>, i: nat, m: Marks, ghost p: Parser) returns (m': Marks, i': nat, ctl: Ctl)
      requires i < |data| && At(p, data, i, m)
      modifies this
      ensures i' == i || i < i' <= |data|
      ensures ctl == Consume ==> i < i' && At(p, data, i', m')
      ensures ctl != Consume ==>
                var t := Run(p, data);
                && ctl == t.ctl && View() == t.p && i' == t.used
                && (ctl == Leave ==> Inv(View()) && m' == NO_MARKS && StreamIs(calls, m', data, i', t.ev))
                && (ctl == Error ==> i' == i && m' == m && StreamIs(calls, m, data, i, t.ev))
    {
      hide Run, StreamIs, Inv, MidInv, MarksMatch, Feed;
      if state == BodyIdentity || state == ChunkData {
        m', i' := AdvanceBody(data, i, m, p);
        ctl := Consume;
      } else {
        ghost var t := Run(p, data[..i]);
        RunByte(p, data, i);
        m', ctl := OnCountedByte(data, i, m, t.ev);
        i' := NextOf(i, ctl);
        if ctl == Error {
          m' := m;
        }
      }
    }

    method AdvanceBody(data: seq<Byte>, i: nat, m: Marks, ghost p: Parser) returns (m': Marks, i': nat)
      requires i < |data| && At(p, data, i, m) && (state == BodyIdentity || state == ChunkData)
      modifies this
      ensures i < i' <= |data| && At(p, data, i', m')
    {
      hide Run, StreamIs, Inv, MidInv, MarksMatch;
      ghost var t := Run(p, data[..i]);
      BodyMarks(state, m, calls, data, i, t.ev);
      InvMid(View());
      var last: nat;
      if state == BodyIdentity {
        m', last := SkipIdentity(data, i, m, t.ev);
      } else {
        m', last := SkipChunk(data, i, m, t.ev);
      }
      i' := last + 1;
      RunInv(t.p, data[i..i']);
      RunJump(p, data, i, i');
    }

    /** `http_parser_execute` on a non-empty buffer. */
    method ExecuteBuffer(data: seq<Byte>) returns (used: nat, ghost lost: Marks)
      requires data != [] && Inv(View())
      modifies this
      ensures Executed(old(View()), data, View(), calls, used, lost)
    {
      hide Run, StreamIs, Inv, MarksMatch;
      ghost var p := View();
      calls := [];
      var m := SeedMarks();
      var i: nat, ctl := 0, Consume;
      NothingYet(m, data);
      RunEmpty(p);
      assert data[..0] == [];
      while i < |data|
        invariant At(p, data, i, m)
      {
        m, i, ctl := Advance(data, i, m, p);
        if ctl != Consume {
          used, lost := i, m;
          if ctl == Leave {
            AllDelivered(calls, data, i, Run(p, data).ev);
          }
          return;
        }
      }
      assert data[..i] == data;
      FlushMarks(data, m, Run(p, data).ev);
      AllDelivered(calls, data, |data|, Run(p, data).ev);
      used, lost := |data|, NO_MARKS;
    }

    /** `http_parser_execute`.  A parser in an error state ignores its input, and an
        empty buffer means the end of the input. */
    method Execute(data: seq<Byte>) returns (used: nat, ghost lost: Marks)
      requires errno == Ok ==> Inv(View())
      modifies this
      ensures old(errno) != Ok ==> used == 0 && View() == old(View()) && calls == []
      ensures old(errno) == Ok && data == [] ==>
                && calls == []
                && used == (if old(state) in {Dead, StartReq} then 0 else 1)
                && View() == if used == 0 then old(View()) else old(View()).(errno := InvalidEofState)
      ensures old(errno) == Ok && data != [] ==> Executed(old(View()), data, View(), calls, used, lost)
    {
      hide Executed, Inv;
      used, lost := 0, NO_MARKS;
      if errno != Ok {
        calls := [];
        return;
      }
      if |data| == 0 {
        calls := [];
        if state != Dead && state != StartReq {
          errno := InvalidEofState;
          used := 1;
        }
        return;
      }
      used, lost := ExecuteBuffer(data);
    }

    static lemma NotYetDone(p: Parser)
      requires Inv(p)
      ensures !p.state.MessageDone?
    {
    }

    /** A byte outside body data, after it has been counted. */
    method OnReacted(data: seq<Byte>, i: nat, m: Marks, ghost ev: seq<Event>) returns (m': Marks, ctl: Ctl)
      requires i < |data| && MidInv(View())
      requires state !in {BodyIdentity, ChunkData, MessageDone}
      requires MarksMatch(state, m) && StreamIs(calls, m, data, i, ev)
      modifies this
      ensures var o := React(old(View()), data[i]);
              View() == o.p && ctl == o.ctl && StreamIs(calls, m', data, NextOf(i, ctl), ev + o.ev)
              && (ctl == Error ==> StreamIs(calls, m, data, i, ev + o.ev))
      ensures ctl != Error ==> Inv(View()) && MarksMatch(state, m')
      ensures ctl == Leave ==> m' == NO_MARKS
    {
      hide React, StreamIs, MarksMatch, MarksWithin, Inv, MidInv;
      ghost var q := View();
      m', ctl := OnByteRepeated(data, i, m, ev);
      if ctl == Error {
        LostSlice(calls, m, m', data, i, ev + React(q, data[i]).ev);
      } else if ctl == Leave {
        LeaveAtStart(q, data[i]);
        NoMarkAtStart(state, m', calls, data, i + 1, ev + React(q, data[i]).ev);
      }
    }

    /** A byte outside body data, with the limit on the size of the headers. */
    method OnCountedByte(data: seq<Byte>, i: nat, m: Marks, ghost ev: seq<Event>) returns (m': Marks, ctl: Ctl)
      requires i < |data| && Inv(View()) && state != BodyIdentity && state != ChunkData
      requires MarksMatch(state, m) && StreamIs(calls, m, data, i, ev)
      modifies this
      ensures var o := Feed(old(View()), data[i]);
              View() == o.p && ctl == o.ctl && StreamIs(calls, m', data, NextOf(i, ctl), ev + o.ev)
      ensures ctl != Error ==> Inv(View()) && MarksMatch(state, m')
      ensures ctl == Error ==> StreamIs(calls, m, data, i, ev + Feed(old(View()), data[i]).ev)
      ensures ctl == Leave ==> m' == NO_MARKS
    {
      hide React, StreamIs, MarksMatch, Inv, MidInv;
      ghost var p := View();
      NotYetDone(p);
      if ParsingHeader(state) {
        nread := nread + 1;
        if nread > HTTP_MAX_HEADER_SIZE {
          errno := HeaderOverflow;
          m', ctl := m, Error;
          assert ev + [] == ev;
          return;
        }
      }
      CountedMidInv(p);
      m', ctl := OnReacted(data, i, m, ev);
    }
  }
}
