/** Cutting what the MCU sends into lines. */
module LannerFraming {
  import opened HttpSyntax

  const NUL: Byte := '\0'
  const NEWLINE: Byte := '\n'

  /** `sizeof(buf_input)`; `input_progress` is an `uint8_t` */
  const SIZE := 256
  const PROGRESS_RANGE := 256

  /** A message ends with a line feed; the buffer holds 256 bytes, which eight bits cannot count. */
  lemma CodesAndSizes()
    ensures NUL as int == 0 && NEWLINE as int == 10 && SIZE == 256 == PROGRESS_RANGE
  {
  }

  type Line = seq<Byte>

  /** The messages so far and the unfinished one. */
  datatype Framed = Framed(msgs: seq<Line>, tail: Line)

  // ----- the rule: drop NULs before a message, end it at a newline -----

  function PutByte(f: Framed, c: Byte): Framed {
    if f.tail == [] && c == NUL then f
    else if c == NEWLINE then Framed(f.msgs + [f.tail], [])
    else Framed(f.msgs, f.tail + [c])
  }

  function Cut(f: Framed, data: seq<Byte>): Framed {
    if data == [] then f else PutByte(Cut(f, data[..|data| - 1]), data[|data| - 1])
  }

  lemma {:induction false} CutAppend(f: Framed, a: seq<Byte>, b: seq<Byte>)
    ensures Cut(f, a + b) == Cut(Cut(f, a), b)
  {
    if b == [] {
      assert a + b == a;
    } else {
      assert (a + b)[..|a + b| - 1] == a + b[..|b| - 1];
      CutAppend(f, a, b[..|b| - 1]);
    }
  }

  /** An unfinished message: it does not start with a NUL and has no newline. */
  predicate Partial(s: Line) { NEWLINE !in s && Begins(s) }

  predicate Begins(s: seq<Byte>) { s == [] || s[0] != NUL }

  predicate AllNul(s: seq<Byte>) { forall k | 0 <= k < |s| :: s[k] == NUL }

  lemma {:induction false} CutPartial(msgs: seq<Line>, s: Line)
    requires Partial(s)
    ensures Cut(Framed(msgs, []), s) == Framed(msgs, s)
  {
    if s != [] {
      var n := |s| - 1;
      assert s[n] in s;
      CutPartial(msgs, s[..n]);
      assert s[..n] + [s[n]] == s;
    }
  }

  lemma {:induction false} CutNuls(msgs: seq<Line>, s: seq<Byte>)
    requires AllNul(s)
    ensures Cut(Framed(msgs, []), s) == Framed(msgs, [])
  {
    if s != [] {
      CutNuls(msgs, s[..|s| - 1]);
    }
  }

  lemma CutLine(msgs: seq<Line>, line: Line)
    requires Partial(line)
    ensures Cut(Framed(msgs, []), line + [NEWLINE]) == Framed(msgs + [line], [])
  {
    CutPartial(msgs, line);
    CutAppend(Framed(msgs, []), line, [NEWLINE]);
    CutOne(Framed(msgs, line), NEWLINE);
  }

  lemma CutOne(f: Framed, c: Byte)
    ensures Cut(f, [c]) == PutByte(f, c)
  {
    assert [c][..0] == [];
  }

  lemma {:induction false} CutKeepsPartial(f: Framed, data: seq<Byte>)
    requires Partial(f.tail)
    ensures Partial(Cut(f, data).tail)
  {
    if data != [] {
      CutKeepsPartial(f, data[..|data| - 1]);
    }
  }

  /** A message as the MCU sends it, after any number of NULs. */
  datatype Sent = Sent(nuls: nat, line: Line)

  function Nuls(n: nat): seq<Byte> { seq(n, i => NUL) }

  function Wire(ms: seq<Sent>): seq<Byte> {
    if ms == [] then []
    else
      var m := ms[|ms| - 1];
      Wire(ms[..|ms| - 1]) + Nuls(m.nuls) + (m.line + [NEWLINE])
  }

  function Lines(ms: seq<Sent>): seq<Line> { seq(|ms|, i requires 0 <= i < |ms| => ms[i].line) }

  /** Every list of messages comes out as it was sent, whatever NULs lie between them. */
  lemma {:induction false} WireRoundTrip(ms: seq<Sent>)
    requires forall i | 0 <= i < |ms| :: Partial(ms[i].line)
    ensures Cut(Framed([], []), Wire(ms)) == Framed(Lines(ms), [])
  {
    if ms != [] {
      var n := |ms| - 1;
      var m := ms[n];
      WireRoundTrip(ms[..n]);
      CutAppend(Framed([], []), Wire(ms[..n]) + Nuls(m.nuls), m.line + [NEWLINE]);
      CutAppend(Framed([], []), Wire(ms[..n]), Nuls(m.nuls));
      CutNuls(Lines(ms[..n]), Nuls(m.nuls));
      CutLine(Lines(ms[..n]), m.line);
      assert Lines(ms[..n]) + [m.line] == Lines(ms);
    }
  }

  // ----- reading -----

  function LeadingNuls(data: seq<Byte>): (n: nat)
    ensures n <= |data| && AllNul(data[..n])
    ensures n < |data| ==> data[n] != NUL
  {
    if data == [] || data[0] != NUL then 0
    else
      var n := LeadingNuls(data[1..]);
      assert data[..n + 1] == [data[0]] + data[1..][..n];
      n + 1
  }

  /** The bytes a read leaves in the buffer before lines are taken out of it. */
  function Buffered(tail: Line, data: seq<Byte>): seq<Byte> {
    if tail == [] then data[LeadingNuls(data)..] else tail + data
  }

  lemma BufferedCut(msgs: seq<Line>, tail: Line, data: seq<Byte>)
    requires Partial(tail)
    ensures Cut(Framed(msgs, []), Buffered(tail, data)) == Cut(Framed(msgs, tail), data)
  {
    if tail == [] {
      var n := LeadingNuls(data);
      assert data[..n] + data[n..] == data;
      CutNuls(msgs, data[..n]);
      CutAppend(Framed(msgs, []), data[..n], data[n..]);
    } else {
      CutPartial(msgs, tail);
      CutAppend(Framed(msgs, []), tail, data);
    }
  }

  /** What one read makes of the messages so far.  When the buffer is filled completely the
      8-bit count wraps to 0, and everything in the buffer is forgotten. */
  function Received(f: Framed, data: seq<Byte>): Framed {
    if |Buffered(f.tail, data)| < PROGRESS_RANGE then Cut(f, data) else Framed(f.msgs, [])
  }

  /** A read follows the rule exactly when it does not fill the buffer. */
  lemma FollowsRuleExactly(f: Framed, data: seq<Byte>)
    requires Partial(f.tail) && |f.tail| < SIZE && |data| <= SIZE - |f.tail|
    ensures Received(f, data) == Cut(f, data) <==> |Buffered(f.tail, data)| < SIZE
  {
    var b := Buffered(f.tail, data);
    if |b| >= SIZE {
      BufferedCut(f.msgs, f.tail, data);
      assert b[..1] + b[1..] == b;
      CutAppend(Framed(f.msgs, []), b[..1], b[1..]);
      CutOne(Framed(f.msgs, []), b[0]);
      assert b[..1] == [b[0]];
      StaysBeyond(PutByte(Framed(f.msgs, []), b[0]), b[1..], |f.msgs|);
    }
  }

  /** More has been received than `m` messages. */
  predicate Beyond(f: Framed, m: nat) { |f.msgs| > m || (|f.msgs| == m && f.tail != []) }

  lemma {:induction false} StaysBeyond(f: Framed, data: seq<Byte>, m: nat)
    requires Beyond(f, m)
    ensures Beyond(Cut(f, data), m)
  {
    if data != [] {
      StaysBeyond(f, data[..|data| - 1], m);
    }
  }

  /** A full buffer that loses a reply: 255 bytes of a message wait, and the newline that
      would end it arrives. */
  lemma LostReply(c: Byte)
    requires c != NUL && c != NEWLINE
    ensures var tail := seq(255, i => c);
            && Partial(tail)
            && Received(Framed([], tail), [NEWLINE]) == Framed([], [])
            && Cut(Framed([], tail), [NEWLINE]) == Framed([tail], [])
  {
    CutOne(Framed([], seq(255, i => c)), NEWLINE);
  }

  // ----- the handler's buffer -----

  class Input {
    /** `buf_input` */
    const buf: array<Byte>
    /** `input_progress` */
    var progress: nat
    /** the messages handed to `lanner_handler_handle_msg` */
    var log: seq<Line>

    ghost predicate Valid()
      reads this, buf
    {
      buf.Length == SIZE && progress < PROGRESS_RANGE && Partial(buf[..progress])
    }

    ghost function View(): Framed
      reads this, buf
      requires Valid()
    {
      Framed(log, buf[..progress])
    }

    constructor ()
      ensures Valid() && fresh(buf) && View() == Framed([], [])
    {
      buf := new Byte[SIZE](i => NUL);
      progress := 0;
      log := [];
    }

    /** `memmove` to the start of the buffer */
    method MoveDown(from: nat, n: nat)
      requires from + n <= buf.Length
      modifies buf
      ensures buf[..n] == old(buf[from..from + n])
    {
      forall k | 0 <= k < n {
        buf[k] := buf[from + k];
      }
    }

    /** `memset` of the buffer from an index on */
    method Wipe(from: nat)
      requires from <= buf.Length
      modifies buf
      ensures buf[..from] == old(buf[..from])
    {
      forall k | from <= k < buf.Length {
        buf[k] := NUL;
      }
    }

    /** The first newline among the buffered bytes, or their number. */
    method FindNewline() returns (i: nat)
      requires progress <= buf.Length
      ensures i <= progress && NEWLINE !in buf[..i]
      ensures i < progress ==> buf[i] == NEWLINE
    {
      i := 0;
      while i < progress && buf[i] != NEWLINE
        invariant i <= progress && NEWLINE !in buf[..i]
      {
        i := i + 1;
      }
    }

    /** The first byte from `from` on that is not NUL, or the number of bytes. */
    method SkipNuls(from: nat, n: nat) returns (i: nat)
      requires from <= n <= buf.Length
      ensures from <= i <= n && AllNul(buf[from..i])
      ensures i < n ==> buf[i] != NUL
    {
      i := from;
      while i < n && buf[i] == NUL
        invariant from <= i <= n && AllNul(buf[from..i])
      {
        i := i + 1;
      }
    }

    /** `lanner_handler_handle_input` with a read that succeeds: `data` are the bytes that
        `read` puts behind the ones already there. */
    method HandleInput(data: seq<Byte>)
      requires Valid() && 1 <= |data| <= SIZE - progress
      modifies this, buf
      ensures Valid() && View() == Received(old(View()), data)
    {
      hide Cut, Partial, Begins, Buffered;
      ghost var f := View();
      var numbytes := Append(data);
      BufferedCut(f.msgs, f.tail, data);
      BufferedBegins(f.tail, data);
      NothingCut(f.msgs);
      progress := (progress + numbytes) % PROGRESS_RANGE;
      assert buf[..0] == [];
      TakeLines();
    }

    /** Puts the bytes of a read behind the waiting ones; returns their number without the
        NULs before a message. */
    method Append(data: seq<Byte>) returns (n: nat)
      requires Valid() && |data| <= SIZE - progress
      modifies buf
      ensures n <= |data| && buf[..progress + n] == Buffered(old(buf[..progress]), data)
    {
      hide Partial;
      n := |data|;
      forall k | 0 <= k < |data| {
        buf[progress + k] := data[k];
      }
      if progress == 0 {
        n := StripNuls(data);
      }
    }

    /** The NULs before a message are moved out of the buffer; returns what is left. */
    method StripNuls(data: seq<Byte>) returns (n: nat)
      requires |data| <= buf.Length && buf[..|data|] == data
      modifies buf
      ensures n <= |data| && buf[..n] == data[LeadingNuls(data)..]
    {
      hide AllNul;
      var i := SkipNuls(0, |data|);
      assert buf[..i] == data[..i];
      LeadingNulsUnique(data, i);
      n := |data| - i;
      if i != 0 {
        MoveDown(i, n);
      }
    }

    /** The loop of `lanner_handler_handle_input`. */
    method TakeLines()
      requires buf.Length == SIZE && progress < PROGRESS_RANGE && Begins(buf[..progress])
      modifies this, buf
      ensures Valid() && View() == Cut(Framed(old(log), []), old(buf[..progress]))
    {
      hide Cut, Begins, Partial;
      var more := true;
      while more
        invariant progress < PROGRESS_RANGE && Begins(buf[..progress])
        invariant Cut(Framed(log, []), buf[..progress]) == Cut(Framed(old(log), []), old(buf[..progress]))
        invariant !more ==> Valid() && Framed(log, buf[..progress]) == Cut(Framed(log, []), buf[..progress])
        decreases more, progress
      {
        more := TakeLine();
      }
    }

    /** One turn of it: hands on the first line, if there is one, and moves the next message
        to the start of the buffer. */
    method TakeLine() returns (more: bool)
      requires buf.Length == SIZE && progress < PROGRESS_RANGE && Begins(buf[..progress])
      modifies this, buf
      ensures progress < PROGRESS_RANGE && Begins(buf[..progress])
      ensures Cut(Framed(log, []), buf[..progress]) == Cut(Framed(old(log), []), old(buf[..progress]))
      ensures if more then progress < old(progress)
              else Valid() && Framed(log, buf[..progress]) == Cut(Framed(log, []), buf[..progress])
    {
      hide Cut, AllNul;
      CutPartial(log, []);
      var i := FindNewline();
      if i == progress {
        // the test for an oversized reply cannot succeed
        assert progress != SIZE;
        CutPartial(log, buf[..progress]);
        return false;
      }
      ghost var s, was := buf[..progress], log;
      LineTaken(was, s, i);
      buf[i] := NUL;
      log := log + [buf[..i]];
      assert buf[..i] == s[..i];
      CutPartial(log, []);
      var next := i + 1;
      assert buf[next..progress] == s[next..];
      if next == progress {
        progress := 0;
        Wipe(0);
        return false;
      }
      i := SkipNuls(next, progress);
      assert buf[next..i] == s[next..][..i - next] && buf[i..progress] == s[next..][i - next..];
      NulsTaken(log, s[next..], i - next);
      if i == progress {
        progress := 0;
        Wipe(0);
        return false;
      }
      progress := progress - i;
      MoveDown(i, progress);
      Wipe(progress);
      return true;
    }
  }

  lemma NothingCut(msgs: seq<Line>)
    ensures Begins([]) && Cut(Framed(msgs, []), []) == Framed(msgs, [])
  {
  }

  lemma BufferedBegins(tail: Line, data: seq<Byte>)
    requires Partial(tail)
    ensures Begins(Buffered(tail, data))
  {
  }

  lemma LeadingNulsUnique(data: seq<Byte>, i: nat)
    requires i <= |data| && AllNul(data[..i]) && (i < |data| ==> data[i] != NUL)
    ensures i == LeadingNuls(data)
  {
    var n := LeadingNuls(data);
    assert forall k | 0 <= k < n :: data[k] == data[..n][k];
    assert forall k | 0 <= k < i :: data[k] == data[..i][k];
  }

  lemma LineTaken(msgs: seq<Line>, s: seq<Byte>, i: nat)
    requires i < |s| && s[0] != NUL && NEWLINE !in s[..i] && s[i] == NEWLINE
    ensures Cut(Framed(msgs, []), s) == Cut(Framed(msgs + [s[..i]], []), s[i + 1..])
  {
    assert s[..i] + [NEWLINE] == s[..i + 1] && s[..i + 1] + s[i + 1..] == s;
    CutLine(msgs, s[..i]);
    CutAppend(Framed(msgs, []), s[..i + 1], s[i + 1..]);
  }

  lemma NulsTaken(msgs: seq<Line>, s: seq<Byte>, k: nat)
    requires k <= |s| && AllNul(s[..k])
    ensures Cut(Framed(msgs, []), s) == Cut(Framed(msgs, []), s[k..])
  {
    assert s[..k] + s[k..] == s;
    CutNuls(msgs, s[..k]);
    CutAppend(Framed(msgs, []), s[..k], s[k..]);
  }

  // ----- any number of reads -----

  function Joined(parts: seq<seq<Byte>>): seq<Byte> {
    if parts == [] then [] else Joined(parts[..|parts| - 1]) + parts[|parts| - 1]
  }

  /** Every read returns something and leaves room for at least one more byte. */
  predicate Fits(parts: seq<seq<Byte>>) {
    parts == [] ||
    (var n := |parts| - 1;
     && Fits(parts[..n]) && parts[n] != []
     && |Buffered(Cut(Framed([], []), Joined(parts[..n])).tail, parts[n])| < SIZE)
  }

  lemma {:induction false} FitsPrefix(parts: seq<seq<Byte>>, k: nat)
    requires k <= |parts| && Fits(parts)
    ensures Fits(parts[..k])
  {
    hide Cut, Joined;
    if k < |parts| {
      FitsPrefix(parts[..|parts| - 1], k);
      assert parts[..|parts| - 1][..k] == parts[..k];
    } else {
      assert parts[..k] == parts;
    }
  }

  /** However the bytes are cut into reads, the messages handed on are those of the rule,
      and the buffer holds the unfinished message. */
  method ReadAll(parts: seq<seq<Byte>>) returns (input: Input)
    requires Fits(parts)
    requires forall k | 0 <= k < |parts| :: |parts[k]| <= SIZE - |Cut(Framed([], []), Joined(parts[..k])).tail|
    ensures input.Valid() && input.View() == Cut(Framed([], []), Joined(parts))
  {
    CutPartial([], []);
    hide Cut, Buffered, Partial;
    input := new Input();
    assert parts[..0] == [];
    for k := 0 to |parts|
      invariant fresh(input) && fresh(input.buf)
      invariant input.Valid() && input.View() == Cut(Framed([], []), Joined(parts[..k]))
    {
      FitsPrefix(parts, k + 1);
      assert parts[..k + 1][..k] == parts[..k] && parts[..k + 1][k] == parts[k];
      CutAppend(Framed([], []), Joined(parts[..k]), parts[k]);
      input.HandleInput(parts[k]);
    }
    assert parts[..|parts|] == parts;
  }
}
