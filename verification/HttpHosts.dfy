/** Which host parts a URL may have, written out by the codes of their bytes. */
module HttpHosts {
  import opened HttpSyntax
  import opened HttpStep
  import opened HttpUrl
  import opened HttpTargets
  import opened HttpWords

  /** The state after some bytes of the host part. */
  function StateAfter(s: HostState, w: seq<Byte>): HostState {
    if w == [] then s else ParseHostChar(StateAfter(s, w[..|w| - 1]), w[|w| - 1])
  }

  lemma {:induction false} StatesOfScan(h: HostScan, w: seq<Byte>)
    ensures HostAll(h, w).s == StateAfter(h.s, w)
  {
    hide ParseHostChar;
    if w != [] {
      StatesOfScan(h, w[..|w| - 1]);
    }
  }

  lemma StateSnoc(s: HostState, w: seq<Byte>, ch: Byte)
    ensures StateAfter(s, w + [ch]) == ParseHostChar(StateAfter(s, w), ch)
  {
    assert (w + [ch])[..|w|] == w;
  }

  lemma {:induction false} StateSplit(s: HostState, a: seq<Byte>, b: seq<Byte>)
    ensures StateAfter(s, a + b) == StateAfter(StateAfter(s, a), b)
  {
    hide ParseHostChar;
    if b == [] {
      assert a + b == a;
    } else {
      var n := |b| - 1;
      StateSplit(s, a, b[..n]);
      assert a + b == (a + b[..n]) + [b[n]];
      StateSnoc(s, a + b[..n], b[n]);
    }
  }

  // ----- host texts -----

  predicate HostCode(n: int) { Letter(n) || DigitCode(n) || n == 45 || n == 46 }

  predicate V6Code(n: int) { DigitCode(n) || 65 <= n <= 70 || 97 <= n <= 102 || n == 58 || n == 46 }

  predicate UserinfoCode(n: int) { ServerCode(n) && n != 64 && n != 91 && n != 93 }

  /** Letters, digits, hyphens and points. */
  predicate NameText(w: seq<Byte>) { w != [] && forall i | 0 <= i < |w| :: HostCode(w[i] as int) }

  predicate V6Text(w: seq<Byte>) { w != [] && forall i | 0 <= i < |w| :: V6Code(w[i] as int) }

  /** An address in brackets (91, 93). */
  predicate BracketText(w: seq<Byte>) {
    |w| >= 2 && w[0] as int == 91 && w[|w| - 1] as int == 93 && V6Text(w[1..|w| - 1])
  }

  predicate PlainHost(w: seq<Byte>) { NameText(w) || BracketText(w) }

  /** A colon (58) at `e` and at least one digit behind it. */
  predicate PortAt(w: seq<Byte>, e: nat) {
    e + 1 < |w| && PlainHost(w[..e]) && w[e] as int == 58 && AllDigits(w[e + 1..])
  }

  ghost predicate HostText(w: seq<Byte>) { PlainHost(w) || exists e: nat :: PortAt(w, e) }

  /** Userinfo, empty or not, ends with the at sign at `k`. */
  ghost predicate UserinfoAt(w: seq<Byte>, k: nat) {
    k < |w| && w[k] as int == 64 && (forall i | 0 <= i < k :: UserinfoCode(w[i] as int)) && HostText(w[k + 1..])
  }

  /** The host part behind a scan that has seen an at sign, or none. */
  ghost predicate AuthorityText(w: seq<Byte>, at: bool) {
    if at then exists k: nat :: UserinfoAt(w, k) else HostText(w)
  }

  // ----- what the scan takes is such a text -----

  ghost predicate HostMeaning(t: HostState, w: seq<Byte>) {
    match t
    case HostStart => w == []
    case HostName => NameText(w)
    case HostV6Start => w == ['[']
    case HostV6 => |w| >= 2 && w[0] as int == 91 && V6Text(w[1..])
    case HostV6End => BracketText(w)
    case HostPortStart => w != [] && w[|w| - 1] as int == 58 && PlainHost(w[..|w| - 1])
    case HostPort => exists e: nat :: PortAt(w, e)
    case _ => t.HostDead?
  }

  lemma HostByte(s: HostState, ch: Byte)
    ensures var t, n := ParseHostChar(s, ch), ch as int;
            match s
            case UserinfoStart | Userinfo => t == if n == 64 then HostStart else if UserinfoCode(n) then Userinfo else HostDead
            case HostStart => t == if n == 91 then HostV6Start else if HostCode(n) then HostName else HostDead
            case HostName => t == if HostCode(n) then HostName else if n == 58 then HostPortStart else HostDead
            case HostV6Start => t == if V6Code(n) then HostV6 else HostDead
            case HostV6 => t == if n == 93 then HostV6End else if V6Code(n) then HostV6 else HostDead
            case HostV6End => t == if n == 58 then HostPortStart else HostDead
            case HostPortStart | HostPort => t == if DigitCode(n) then HostPort else HostDead
            case HostDead => t == HostDead
  {
    HostTable(ch);
  }

  lemma AddressStep(t: HostState, w: seq<Byte>, ch: Byte)
    requires HostMeaning(t, w) && (t.HostV6Start? || t.HostV6?)
    ensures HostMeaning(ParseHostChar(t, ch), w + [ch])
  {
    hide ParseHostChar, HostCode, V6Code, DigitCode, PortAt, PlainHost;
    HostByte(t, ch);
    var v := w + [ch];
    if t.HostV6Start? {
      assert v[1..] == [ch];
    } else {
      assert v[1..] == w[1..] + [ch] && v[1..|v| - 1] == w[1..];
    }
  }

  lemma PortStep(t: HostState, w: seq<Byte>, ch: Byte)
    requires HostMeaning(t, w) && (t.HostPortStart? || t.HostPort?)
    ensures HostMeaning(ParseHostChar(t, ch), w + [ch])
  {
    hide ParseHostChar, HostCode, V6Code, DigitCode, PlainHost;
    HostByte(t, ch);
    var v := w + [ch];
    if DigitCode(ch as int) {
      if t.HostPortStart? {
        var n := |w| - 1;
        assert v[..n] == w[..n] && v[n + 1..] == [ch];
        assert PortAt(v, n);
      } else {
        var e: nat :| PortAt(w, e);
        assert v[..e] == w[..e] && v[e + 1..] == w[e + 1..] + [ch];
        assert PortAt(v, e);
      }
    }
  }

  lemma HostMeaningStep(t: HostState, w: seq<Byte>, ch: Byte)
    requires HostMeaning(t, w)
    ensures HostMeaning(ParseHostChar(t, ch), w + [ch])
  {
    hide ParseHostChar, HostCode, V6Code, DigitCode, PortAt, BracketText, V6Text;
    if t.HostV6Start? || t.HostV6? {
      AddressStep(t, w, ch);
    } else if t.HostPortStart? || t.HostPort? {
      PortStep(t, w, ch);
    } else {
      HostByte(t, ch);
      var v := w + [ch];
      assert v[..|v| - 1] == w && v[|v| - 1] == ch;
      assert w == [] ==> v == [ch];
    }
  }

  lemma {:induction false} HostSound(w: seq<Byte>)
    ensures HostMeaning(StateAfter(HostStart, w), w)
  {
    hide ParseHostChar, HostMeaning;
    if w == [] {
      NothingRead();
    } else {
      var n := |w| - 1;
      HostSound(w[..n]);
      assert w[..n] + [w[n]] == w;
      HostMeaningStep(StateAfter(HostStart, w[..n]), w[..n], w[n]);
    }
  }

  lemma NothingRead()
    ensures HostMeaning(HostStart, [])
  {
  }

  // ----- such a text is taken -----

  lemma {:induction false} NameRuns(w: seq<Byte>)
    requires NameText(w)
    ensures StateAfter(HostStart, w) == HostName
  {
    hide ParseHostChar, HostCode;
    var n := |w| - 1;
    if n == 0 {
      assert StateAfter(HostStart, w[..0]) == HostStart;
      NoBracket(w[0] as int);
      HostByte(HostStart, w[0]);
    } else {
      NameRuns(w[..n]);
      HostByte(HostName, w[n]);
    }
  }

  lemma NoBracket(n: int)
    ensures HostCode(n) ==> n != 91
    ensures V6Code(n) ==> n != 93
    ensures UserinfoCode(n) ==> n != 64
  {
  }

  lemma {:induction false} V6Runs(w: seq<Byte>)
    requires V6Text(w)
    ensures StateAfter(HostV6Start, w) == HostV6
  {
    hide ParseHostChar, V6Code;
    var n := |w| - 1;
    NoBracket(w[n] as int);
    if n == 0 {
      assert StateAfter(HostV6Start, w[..0]) == HostV6Start;
      HostByte(HostV6Start, w[0]);
    } else {
      V6Runs(w[..n]);
      HostByte(HostV6, w[n]);
    }
  }

  lemma {:induction false} DigitsRun(s: HostState, w: seq<Byte>)
    requires s == HostPortStart && AllDigits(w) && w != []
    ensures StateAfter(s, w) == HostPort
  {
    hide ParseHostChar, DigitCode;
    var n := |w| - 1;
    if n == 0 {
      assert StateAfter(s, w[..0]) == s;
      HostByte(s, w[0]);
    } else {
      DigitsRun(s, w[..n]);
      HostByte(HostPort, w[n]);
    }
  }

  lemma {:induction false} UserinfoRuns(w: seq<Byte>)
    requires forall i | 0 <= i < |w| :: UserinfoCode(w[i] as int)
    ensures StateAfter(UserinfoStart, w) == if w == [] then UserinfoStart else Userinfo
  {
    hide ParseHostChar, UserinfoCode;
    if w != [] {
      var n := |w| - 1;
      UserinfoRuns(w[..n]);
      NoBracket(w[n] as int);
      HostByte(StateAfter(UserinfoStart, w[..n]), w[n]);
    }
  }

  lemma StateOne(s: HostState, ch: Byte)
    ensures StateAfter(s, [ch]) == ParseHostChar(s, ch)
  {
    assert [ch][..0] == [] && StateAfter(s, []) == s;
  }

  lemma PlainRuns(w: seq<Byte>)
    requires PlainHost(w)
    ensures StateAfter(HostStart, w) in {HostName, HostV6End}
  {
    hide ParseHostChar, StateAfter, V6Text, NameText;
    if NameText(w) {
      NameRuns(w);
    } else {
      var n := |w| - 1;
      var inner := w[1..n];
      assert w[..n] == ['['] + inner && w[..n] + [w[n]] == w;
      StateOne(HostStart, '[');
      HostByte(HostStart, '[');
      StateSplit(HostStart, ['['], inner);
      V6Runs(inner);
      StateSnoc(HostStart, w[..n], w[n]);
      HostByte(HostV6, w[n]);
    }
  }

  lemma HostRuns(w: seq<Byte>)
    requires HostText(w)
    ensures HostMayEnd(StateAfter(HostStart, w))
  {
    hide ParseHostChar, StateAfter, PlainHost;
    if PlainHost(w) {
      PlainRuns(w);
    } else {
      var e: nat :| PortAt(w, e);
      PlainRuns(w[..e]);
      assert w[..e] + [w[e]] == w[..e + 1] && w[..e + 1] + w[e + 1..] == w;
      StateSnoc(HostStart, w[..e], w[e]);
      ColonEnds(StateAfter(HostStart, w[..e]));
      StateSplit(HostStart, w[..e + 1], w[e + 1..]);
      DigitsRun(HostPortStart, w[e + 1..]);
    }
  }

  lemma ColonEnds(s: HostState)
    requires s == HostName || s == HostV6End
    ensures ParseHostChar(s, ':') == HostPortStart
  {
  }

  lemma HostExactly(w: seq<Byte>)
    ensures HostMayEnd(StateAfter(HostStart, w)) <==> HostText(w)
  {
    hide StateAfter, NameText, BracketText, PortAt;
    HostSound(w);
    if HostText(w) {
      HostRuns(w);
    }
  }

  /** The number of bytes of userinfo at the start. */
  function UserinfoLength(w: seq<Byte>): (k: nat)
    ensures k <= |w| && (forall i | 0 <= i < k :: UserinfoCode(w[i] as int)) && (k < |w| ==> !UserinfoCode(w[k] as int))
  {
    if w == [] || !UserinfoCode(w[0] as int) then 0 else 1 + UserinfoLength(w[1..])
  }

  lemma {:induction false} DeadStaysDead(w: seq<Byte>)
    ensures StateAfter(HostDead, w) == HostDead
  {
    if w != [] {
      DeadStaysDead(w[..|w| - 1]);
    }
  }

  lemma UserinfoExactly(w: seq<Byte>)
    ensures HostMayEnd(StateAfter(UserinfoStart, w)) <==> exists k: nat :: UserinfoAt(w, k)
  {
    hide ParseHostChar, StateAfter, UserinfoCode, HostText;
    var k := UserinfoLength(w);
    UserinfoRuns(w[..k]);
    NoBracket(64);
    assert forall j: nat :: UserinfoAt(w, j) ==> j == k;
    if k == |w| {
      assert w[..k] == w;
    } else {
      var s := StateAfter(UserinfoStart, w[..k]);
      assert w[..k] + [w[k]] == w[..k + 1] && w[..k + 1] + w[k + 1..] == w;
      StateSnoc(UserinfoStart, w[..k], w[k]);
      HostByte(s, w[k]);
      StateSplit(UserinfoStart, w[..k + 1], w[k + 1..]);
      if w[k] as int == 64 {
        HostExactly(w[k + 1..]);
        assert UserinfoAt(w, k) <==> HostText(w[k + 1..]);
      } else {
        DeadStaysDead(w[k + 1..]);
      }
    }
  }

  /** Exactly these are host parts; the structure that is filled makes no difference. */
  lemma HostDecided(mem: seq<Byte>, u: ParsedUrl, at: bool)
    requires Readable(u, mem)
    ensures var r := u.data[UF_HOST];
            !HttpUrl.ParseHost(mem, u, at).err <==> AuthorityText(mem[r.off..r.off + r.len], at)
  {
    hide HostMayEnd, HostText, UserinfoAt, HostAll, StateAfter;
    var r := u.data[UF_HOST];
    var w := mem[r.off..r.off + r.len];
    StatesOfScan(HostBegin(u, at), w);
    if at {
      UserinfoExactly(w);
    } else {
      HostExactly(w);
    }
  }
}
