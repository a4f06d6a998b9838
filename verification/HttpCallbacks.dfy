/** Data callbacks hand out slices of the buffer being parsed.  This module relates a
    log of callbacks, together with the marks still open, to the byte-wise events of
    the fold. */
module HttpCallbacks {
  import opened HttpSyntax
  import opened HttpStep

  /** One callback; `at` is an offset into the buffer of the current call. */
  datatype Callback = OnMessageBegin | OnHeadersComplete | OnMessageComplete | OnData(kind: Kind, at: nat, len: nat)

  /** The mark variables of `http_parser_execute`, -1 for a null pointer. */
  datatype Marks = Marks(url: int, field: int, value: int, body: int)

  const NO_MARKS := Marks(-1, -1, -1, -1)

  /** The offset after the last slice handed out. */
  ghost function EndOf(calls: seq<Callback>): nat {
    if calls == [] then 0
    else
      var c := calls[|calls| - 1];
      if c.OnData? then c.at + c.len else EndOf(calls[..|calls| - 1])
  }

  /** Slices lie inside the first `hi` bytes, in order and without overlap. */
  ghost predicate Ordered(calls: seq<Callback>, hi: nat) {
    calls != [] ==>
      var rest := calls[..|calls| - 1];
      var c := calls[|calls| - 1];
      && (c.OnData? ==> EndOf(rest) <= c.at && c.at + c.len <= hi)
      && Ordered(rest, hi)
  }

  ghost function EventsOf(c: Callback, data: seq<Byte>): seq<Event>
    requires c.OnData? ==> c.at + c.len <= |data|
  {
    match c
    case OnMessageBegin => [MessageBegin]
    case OnHeadersComplete => [HeadersComplete]
    case OnMessageComplete => [MessageComplete]
    case OnData(k, at, len) => DataEvents(k, data[at..at + len])
  }

  /** The log as byte-wise events. */
  ghost function Flat(calls: seq<Callback>, data: seq<Byte>): seq<Event>
    requires Ordered(calls, |data|)
  {
    if calls == [] then []
    else Flat(calls[..|calls| - 1], data) + EventsOf(calls[|calls| - 1], data)
  }

  predicate AtMostOneMark(m: Marks) {
    && (m.url >= 0 ==> m.field < 0 && m.value < 0 && m.body < 0)
    && (m.field >= 0 ==> m.value < 0 && m.body < 0)
    && (m.value >= 0 ==> m.body < 0)
  }

  /** Which mark is live is determined by the state. */
  predicate MarksMatch(s: State, m: Marks) {
    && AtMostOneMark(m)
    && (m.url >= 0 <==> InUrl(s))
    && (m.field >= 0 <==> s.HeaderField?)
    && (m.value >= 0 <==> s.HeaderValue?)
    && (m.body >= 0 ==> s.BodyIdentity? || s.ChunkData? || s.ChunkDataAlmostDone?)
  }

  predicate MarksWithin(m: Marks, lo: nat, hi: nat) {
    && (m.url == -1 || lo <= m.url <= hi)
    && (m.field == -1 || lo <= m.field <= hi)
    && (m.value == -1 || lo <= m.value <= hi)
    && (m.body == -1 || lo <= m.body <= hi)
  }

  /** The log and the open marks are consistent at offset `hi`. */
  ghost predicate LogOk(calls: seq<Callback>, m: Marks, data: seq<Byte>, hi: nat) {
    && hi <= |data|
    && Ordered(calls, |data|)
    && EndOf(calls) <= hi
    && AtMostOneMark(m)
    && MarksWithin(m, EndOf(calls), hi)
  }

  /** Data read since the live mark and not handed out yet. */
  ghost function Pending(m: Marks, data: seq<Byte>, hi: nat): seq<Event>
    requires hi <= |data| && MarksWithin(m, 0, hi)
  {
    if m.url >= 0 then DataEvents(Url, data[m.url..hi])
    else if m.field >= 0 then DataEvents(Field, data[m.field..hi])
    else if m.value >= 0 then DataEvents(Value, data[m.value..hi])
    else if m.body >= 0 then DataEvents(Body, data[m.body..hi])
    else []
  }

  /** Everything read up to `hi`, delivered or pending. */
  ghost function Stream(calls: seq<Callback>, m: Marks, data: seq<Byte>, hi: nat): seq<Event>
    requires LogOk(calls, m, data, hi)
  {
    Flat(calls, data) + Pending(m, data, hi)
  }

  function MarkOf(m: Marks, k: Kind): int {
    match k
    case Url => m.url
    case Field => m.field
    case Value => m.value
    case Body => m.body
  }

  function WithMark(m: Marks, k: Kind, at: int): Marks {
    match k
    case Url => m.(url := at)
    case Field => m.(field := at)
    case Value => m.(value := at)
    case Body => m.(body := at)
  }

  lemma DataEventsConcat(k: Kind, a: seq<Byte>, b: seq<Byte>)
    ensures DataEvents(k, a + b) == DataEvents(k, a) + DataEvents(k, b)
  {
  }

  /** Bytes passed under a live mark are pending. */
  lemma StreamGrows(calls: seq<Callback>, m: Marks, data: seq<Byte>, k: Kind, i: nat, j: nat)
    requires LogOk(calls, m, data, i) && i <= j <= |data|
    requires MarkOf(m, k) >= 0
    ensures LogOk(calls, m, data, j)
    ensures Stream(calls, m, data, j) == Stream(calls, m, data, i) + DataEvents(k, data[i..j])
  {
    var mark := MarkOf(m, k);
    assert data[mark..j] == data[mark..i] + data[i..j];
    DataEventsConcat(k, data[mark..i], data[i..j]);
    assert Pending(m, data, j) == DataEvents(k, data[mark..i] + data[i..j]);
  }

  /** Bytes passed without a mark are reported by nobody. */
  lemma StreamStays(calls: seq<Callback>, data: seq<Byte>, i: nat, j: nat)
    requires LogOk(calls, NO_MARKS, data, i) && i <= j <= |data|
    ensures LogOk(calls, NO_MARKS, data, j)
    ensures Stream(calls, NO_MARKS, data, j) == Stream(calls, NO_MARKS, data, i)
  {
  }

  /** Setting a mark changes nothing yet. */
  lemma StreamMark(calls: seq<Callback>, data: seq<Byte>, k: Kind, i: nat)
    requires LogOk(calls, NO_MARKS, data, i)
    ensures LogOk(calls, WithMark(NO_MARKS, k, i), data, i)
    ensures Stream(calls, WithMark(NO_MARKS, k, i), data, i) == Stream(calls, NO_MARKS, data, i)
  {
  }

  /** Handing out the marked slice moves its bytes from pending to delivered. */
  lemma StreamFlush(calls: seq<Callback>, m: Marks, data: seq<Byte>, k: Kind, hi: nat)
    requires LogOk(calls, m, data, hi) && MarkOf(m, k) >= 0
    ensures LogOk(calls + [OnData(k, MarkOf(m, k), hi - MarkOf(m, k))], NO_MARKS, data, hi)
    ensures Stream(calls + [OnData(k, MarkOf(m, k), hi - MarkOf(m, k))], NO_MARKS, data, hi) == Stream(calls, m, data, hi)
  {
    var calls' := calls + [OnData(k, MarkOf(m, k), hi - MarkOf(m, k))];
    assert calls'[..|calls'| - 1] == calls;
  }

  /** A notification is delivered at once. */
  lemma StreamNotify(calls: seq<Callback>, c: Callback, data: seq<Byte>, hi: nat)
    requires LogOk(calls, NO_MARKS, data, hi) && !c.OnData?
    ensures LogOk(calls + [c], NO_MARKS, data, hi)
    ensures Stream(calls + [c], NO_MARKS, data, hi) == Stream(calls, NO_MARKS, data, hi) + EventsOf(c, data)
  {
    assert (calls + [c])[..|calls|] == calls;
  }
}
