/** The method recogniser accepts exactly the 26 method names. */
module HttpMethods {
  import opened HttpSyntax
  import opened HttpStep

  predicate Newlines(s: seq<Byte>) { forall i | 0 <= i < |s| :: s[i] == CR || s[i] == LF }

  predicate Blanks(s: seq<Byte>) { forall i | 0 <= i < |s| :: s[i] == ' ' }

  lemma EarlySwitchPrefix(m: Method, k: nat, ch: Byte)
    requires m in {CONNECT, MKCOL, SUBSCRIBE} && OtherMethod(m, k, ch).SomeMethod? && k <= |MethodString(m)|
    ensures var m' := OtherMethod(m, k, ch).m;
            k < |MethodString(m')| && MethodString(m')[k] == ch && MethodString(m')[..k] == MethodString(m)[..k]
  {
  }

  /** Switching to another candidate keeps the letters read so far. */
  lemma OtherMethodPrefix(m: Method, k: nat, ch: Byte)
    requires OtherMethod(m, k, ch).SomeMethod? && k <= |MethodString(m)|
    ensures var m' := OtherMethod(m, k, ch).m;
            k < |MethodString(m')| && MethodString(m')[k] == ch && MethodString(m')[..k] == MethodString(m)[..k]
  {
    if m in {CONNECT, MKCOL, SUBSCRIBE} {
      EarlySwitchPrefix(m, k, ch);
    }
  }

  lemma FirstMethodLetter(ch: Byte)
    requires FirstMethod(ch).SomeMethod?
    ensures MethodString(FirstMethod(ch).m)[..1] == [ch]
  {
  }

  /** A byte in the states of the recogniser. */
  lemma MethodByte(p: Parser, ch: Byte)
    requires GroupOf(p.state) == GMethod
    ensures Feed(p, ch) ==
            if p.nread + 1 > HTTP_MAX_HEADER_SIZE then Fail(p.(nread := p.nread + 1), HeaderOverflow)
            else MicroMethod(p.(nread := p.nread + 1), ch)
  {
    hide MicroMethod, MicroUrl, MicroVersion, MicroField, MicroValue, MicroHeadersEnd, MicroChunk, MicroBody;
    MethodNoJump(p.(nread := p.nread + 1), ch);
  }

  lemma MethodNoJump(p: Parser, ch: Byte)
    requires GroupOf(p.state) == GMethod
    ensures MicroMethod(p, ch).ctl != Reexecute
  {
  }

  lemma BlankByte(p: Parser, ch: Byte)
    requires p.state.ReqSpacesBeforeUrl?
    ensures ch == ' ' && p.nread < HTTP_MAX_HEADER_SIZE ==>
              Feed(p, ch) == Out(p.(nread := p.nread + 1), [], Consume)
    ensures ch != ' ' ==> Feed(p, ch).ctl == Error || Feed(p, ch).ev == [Data(Url, ch)]
    ensures Feed(p, ch).ctl == Consume && Feed(p, ch).ev == [] ==> ch == ' ' && p.nread < HTTP_MAX_HEADER_SIZE
  {
    hide MicroMethod, MicroVersion, MicroField, MicroValue, MicroHeadersEnd, MicroChunk, MicroBody;
  }

  /** The input `w` read from the start: line ends, then the letters of the current
      candidate, then blanks. */
  ghost predicate Recognised(q: Parser, w: seq<Byte>, ev: seq<Event>, nl: nat) {
    && nl <= |w| && Newlines(w[..nl])
    && match q.state
       case StartReq => nl == |w| && ev == []
       case ReqMethod =>
         ev == [MessageBegin] && 1 <= q.index <= |MethodString(q.meth)| && w[nl..] == MethodString(q.meth)[..q.index]
       case ReqSpacesBeforeUrl =>
         var n := nl + |MethodString(q.meth)|;
         ev == [MessageBegin] && n < |w| && w[nl..n] == MethodString(q.meth) && Blanks(w[n..])
       case _ => false
  }

  lemma StartStep(q: Parser, w: seq<Byte>, ch: Byte, nl: nat)
    requires q.state.StartReq? && Recognised(q, w, [], nl) && MicroMethod(q, ch).ctl == Consume
    ensures Recognised(MicroMethod(q, ch).p, w + [ch], MicroMethod(q, ch).ev, if ch == CR || ch == LF then nl + 1 else nl)
  {
    if ch != CR && ch != LF {
      FirstMethodLetter(ch);
      assert (w + [ch])[nl..] == [ch];
      assert (w + [ch])[..nl] == w[..nl];
    } else {
      assert (w + [ch])[..nl + 1] == w[..nl] + [ch];
    }
  }

  lemma MethodStep(q: Parser, w: seq<Byte>, ch: Byte, nl: nat)
    requires q.state.ReqMethod? && Recognised(q, w, [MessageBegin], nl) && MicroMethod(q, ch).ctl == Consume
    ensures Recognised(MicroMethod(q, ch).p, w + [ch], [MessageBegin], nl)
    ensures MicroMethod(q, ch).ev == []
  {
    hide MethodString, FirstMethod, OtherMethod;
    var name := MethodString(q.meth);
    var w' := w + [ch];
    assert w'[..nl] == w[..nl];
    assert w'[nl..] == w[nl..] + [ch];
    if ch == ' ' && q.index == |name| {
      var n := nl + |name|;
      assert w'[nl..n] == w[nl..];
      assert w'[n..] == [' '];
    } else if q.index < |name| && ch == name[q.index] {
      assert name[..q.index + 1] == name[..q.index] + [ch];
    } else {
      OtherMethodPrefix(q.meth, q.index, ch);
      var name' := MethodString(OtherMethod(q.meth, q.index, ch).m);
      assert name'[..q.index + 1] == name'[..q.index] + [ch];
    }
  }

  lemma BlankStep(q: Parser, w: seq<Byte>, nl: nat, nread: nat)
    requires q.state.ReqSpacesBeforeUrl? && Recognised(q, w, [MessageBegin], nl)
    ensures Recognised(q.(nread := nread), w + [' '], [MessageBegin], nl)
  {
    var n := nl + |MethodString(q.meth)|;
    var w' := w + [' '];
    assert w'[..nl] == w[..nl] && w'[nl..n] == w[nl..n] && w'[n..] == w[n..] + [' '];
  }

  /** Whatever the recogniser has read without reporting more than the begin of the
      message has the form line ends, prefix of the candidate, blanks. */
  lemma {:induction false} RecogniserSound(p: Parser, w: seq<Byte>) returns (nl: nat)
    requires p.state.StartReq?
    requires Run(p, w).ctl == Consume && (Run(p, w).ev == [] || Run(p, w).ev == [MessageBegin])
    ensures Recognised(Run(p, w).p, w, Run(p, w).ev, nl)
    decreases |w|
  {
    hide Feed, MicroMethod, Recognised, Newlines, Blanks;
    if w == [] {
      nl := 0;
      EmptyRecognised(p);
    } else {
      var n := |w| - 1;
      var u, ch := w[..n], w[n];
      assert w == u + [ch];
      RunSplit(p, u, [ch]);
      var t := Run(p, u);
      RunByte(p, w, n);
      assert w[..n + 1] == w;
      nl := RecogniserSound(p, u);
      RecognisedState(t.p, u, t.ev, nl);
      if t.p.state.ReqSpacesBeforeUrl? {
        BlankByte(t.p, ch);
        BlankStep(t.p, u, nl, t.p.nread + 1);
      } else {
        MethodByte(t.p, ch);
        CountedRecognised(t.p, u, t.ev, nl);
        if t.p.state.StartReq? {
          StartStep(t.p.(nread := t.p.nread + 1), u, ch, nl);
          nl := if ch == CR || ch == LF then nl + 1 else nl;
        } else {
          MethodStep(t.p.(nread := t.p.nread + 1), u, ch, nl);
        }
      }
    }
  }

  lemma EmptyRecognised(p: Parser)
    requires p.state.StartReq?
    ensures Recognised(p, [], [], 0)
  {
  }

  lemma RecognisedState(q: Parser, w: seq<Byte>, ev: seq<Event>, nl: nat)
    requires Recognised(q, w, ev, nl)
    ensures q.state in {StartReq, ReqMethod, ReqSpacesBeforeUrl}
    ensures ev == if q.state.StartReq? then [] else [MessageBegin]
  {
  }

  lemma CountedRecognised(q: Parser, w: seq<Byte>, ev: seq<Event>, nl: nat)
    requires Recognised(q, w, ev, nl)
    ensures Recognised(q.(nread := q.nread + 1), w, ev, nl)
  {
  }

  // ----- every name is accepted -----

  /** The candidate after one more letter. */
  function NextMethod(m: Method, k: nat, ch: Byte): MethodOption {
    if k < |MethodString(m)| && ch == MethodString(m)[k] then SomeMethod(m) else OtherMethod(m, k, ch)
  }

  /** The candidate after the letters `w`, starting from candidate `m` at letter `k`. */
  function Reads(m: Method, k: nat, w: seq<Byte>): MethodOption
    decreases |w|
  {
    if w == [] then SomeMethod(m)
    else
      var next := NextMethod(m, k, w[0]);
      if next.NoMethod? then NoMethod else Reads(next.m, k + 1, w[1..])
  }

  /** A candidate reads the rest of its own name. */
  lemma {:induction false} ReadsItself(m: Method, k: nat)
    requires k <= |MethodString(m)|
    ensures Reads(m, k, MethodString(m)[k..]) == SomeMethod(m)
    decreases |MethodString(m)| - k
  {
    hide MethodString, OtherMethod;
    if k < |MethodString(m)| {
      assert MethodString(m)[k..][1..] == MethodString(m)[k + 1..];
      ReadsItself(m, k + 1);
    }
  }

  lemma {:induction false} ReadsSplit(m: Method, k: nat, a: seq<Byte>, b: seq<Byte>)
    requires Reads(m, k, a).SomeMethod?
    ensures Reads(m, k, a + b) == Reads(Reads(m, k, a).m, k + |a|, b)
    decreases |a|
  {
    hide NextMethod;
    if a == [] {
      assert a + b == b;
    } else {
      assert (a + b)[1..] == a[1..] + b;
      ReadsSplit(NextMethod(m, k, a[0]).m, k + 1, a[1..], b);
    }
  }

  /** The name of `m` up to its last branching letter, which selects `m` for good. */
  function BranchPoint(m: Method): nat {
    match m
    case CHECKOUT | MOVE | MERGE | MSEARCH | SEARCH | PROPFIND | PUT | PATCH => 2
    case COPY | MKACTIVITY | PURGE | UNSUBSCRIBE => 3
    case PROPPATCH => 5
    case _ => 1
  }

  lemma BranchPointFits(m: Method)
    ensures 1 <= BranchPoint(m) <= |MethodString(m)|
    ensures FirstMethod(MethodString(m)[0]).SomeMethod?
  {
  }

  lemma ReadsToBranchPoint(m: Method)
    requires m != PROPPATCH
    ensures FirstMethod(MethodString(m)[0]).SomeMethod?
    ensures BranchPoint(m) <= |MethodString(m)|
    ensures Reads(FirstMethod(MethodString(m)[0]).m, 1, MethodString(m)[1..BranchPoint(m)]) == SomeMethod(m)
  {
    hide Reads;
    BranchPointFits(m);
    var name := MethodString(m);
    var first := FirstMethod(name[0]).m;
    if BranchPoint(m) == 1 {
      ReadsLetters(first, name, 1, first, first);
    } else if BranchPoint(m) == 2 {
      ReadsLetters(first, name, 2, m, m);
    } else {
      ReadsLetters(first, name, 3, NextMethod(first, 1, name[1]).m, m);
    }
  }

  lemma ReadsPropPatch()
    ensures Reads(POST, 1, MethodString(PROPPATCH)[1..5]) == SomeMethod(PROPPATCH)
  {
    hide Reads;
    var name := MethodString(PROPPATCH);
    ReadsLetters(POST, name, 3, PROPFIND, PROPFIND);
    assert name[3..5] == ['P', 'P'];
    ReadsTwo(PROPFIND, 3, 'P', 'P');
    ReadsSplit(POST, 1, name[1..3], name[3..5]);
    assert name[1..5] == name[1..3] + name[3..5];
  }

  lemma ReadsTwo(m: Method, k: nat, a: Byte, b: Byte)
    requires NextMethod(m, k, a).SomeMethod? && NextMethod(NextMethod(m, k, a).m, k + 1, b).SomeMethod?
    ensures Reads(m, k, [a, b]) == NextMethod(NextMethod(m, k, a).m, k + 1, b)
  {
    hide NextMethod;
    var m2 := NextMethod(m, k, a).m;
    assert [a, b][1..] == [b];
    assert [b][1..] == [];
    assert Reads(NextMethod(m2, k + 1, b).m, k + 2, []) == NextMethod(m2, k + 1, b);
    assert Reads(m2, k + 1, [b]) == NextMethod(m2, k + 1, b);
  }

  /** Reading the letters of `name` from the second on, through `m2` to `m3`. */
  lemma ReadsLetters(first: Method, name: seq<Byte>, n: nat, m2: Method, m3: Method)
    requires 1 <= n <= 3 && n <= |name|
    requires n == 1 ==> m3 == first
    requires n >= 2 ==> NextMethod(first, 1, name[1]) == SomeMethod(m2)
    requires n == 2 ==> m3 == m2
    requires n == 3 ==> NextMethod(m2, 2, name[2]) == SomeMethod(m3)
    ensures Reads(first, 1, name[1..n]) == SomeMethod(m3)
  {
    hide NextMethod;
    if n == 1 {
      assert name[1..1] == [];
    } else if n == 2 {
      assert name[1..2] == [name[1]];
      assert [name[1]][1..] == [];
    } else {
      assert name[1..3] == [name[1], name[2]];
      ReadsTwo(first, 1, name[1], name[2]);
    }
  }

  lemma ReadsName(m: Method)
    ensures FirstMethod(MethodString(m)[0]).SomeMethod?
    ensures Reads(FirstMethod(MethodString(m)[0]).m, 1, MethodString(m)[1..]) == SomeMethod(m)
  {
    hide Reads, OtherMethod;
    var name, b := MethodString(m), BranchPoint(m);
    BranchPointFits(m);
    if m == PROPPATCH {
      ReadsPropPatch();
    } else {
      ReadsToBranchPoint(m);
    }
    assert name[1..] == name[1..b] + name[b..];
    ReadsSplit(FirstMethod(name[0]).m, 1, name[1..b], name[b..]);
    ReadsItself(m, b);
  }

  /** The parser follows `Reads`. */
  lemma {:induction false} RunReads(p: Parser, w: seq<Byte>)
    requires p.state.ReqMethod? && Reads(p.meth, p.index, w).SomeMethod?
    requires forall i | 0 <= i < |w| :: w[i] != ' ' && w[i] != '\0'
    requires p.nread + |w| <= HTTP_MAX_HEADER_SIZE
    ensures Run(p, w) == Trace(p.(meth := Reads(p.meth, p.index, w).m, index := p.index + |w|, nread := p.nread + |w|),
                               [], |w|, Consume)
    decreases |w|
  {
    hide Feed, MethodString, OtherMethod;
    if w != [] {
      MethodByte(p, w[0]);
      RunReads(p.(meth := NextMethod(p.meth, p.index, w[0]).m, index := p.index + 1, nread := p.nread + 1), w[1..]);
    }
  }

  lemma {:induction false} RunNewlines(p: Parser, w: seq<Byte>)
    requires p.state.StartReq? && Newlines(w) && p.nread + |w| <= HTTP_MAX_HEADER_SIZE
    ensures Run(p, w) == Trace(p.(nread := p.nread + |w|), [], |w|, Consume)
    decreases |w|
  {
    hide Feed;
    if w != [] {
      MethodByte(p, w[0]);
      RunNewlines(p.(nread := p.nread + 1), w[1..]);
    }
  }

  lemma {:induction false} RunBlanks(p: Parser, w: seq<Byte>)
    requires p.state.ReqSpacesBeforeUrl? && Blanks(w) && p.nread + |w| <= HTTP_MAX_HEADER_SIZE
    ensures Run(p, w) == Trace(p.(nread := p.nread + |w|), [], |w|, Consume)
    decreases |w|
  {
    hide Feed;
    if w != [] {
      BlankByte(p, w[0]);
      RunBlanks(p.(nread := p.nread + 1), w[1..]);
    }
  }

  lemma NameLetters(m: Method)
    ensures forall i | 0 <= i < |MethodString(m)| :: IsAlpha(MethodString(m)[i]) || MethodString(m)[i] == '-'
  {
  }

  /** The parser after line ends, the name of `m` and a blank. */
  lemma RunMethod(p: Parser, m: Method)
    requires p.state.StartReq? && p.nread + |MethodString(m)| + 1 <= HTTP_MAX_HEADER_SIZE
    ensures var w := MethodString(m) + [' '];
            Run(p, w) == Trace(p.(state := ReqSpacesBeforeUrl, meth := m, index := |w|, nread := p.nread + |w|,
                                  flags := NO_FLAGS, contentLength := ULLONG_MAX), [MessageBegin], |w|, Consume)
  {
    hide Feed, MethodString, OtherMethod, FirstMethod, Reads;
    var name := MethodString(m);
    NameLetters(m);
    ReadsName(m);
    var q := p.(flags := NO_FLAGS, contentLength := ULLONG_MAX, meth := FirstMethod(name[0]).m, index := 1,
                state := ReqMethod, nread := p.nread + 1);
    FirstLetterIsAlpha(name[0]);
    MethodByte(p, name[0]);
    assert Feed(p, name[0]) == Out(q, [MessageBegin], Consume);
    assert name == [name[0]] + name[1..];
    RunReads(q, name[1..]);
    var r := q.(meth := m, index := |name|, nread := p.nread + |name|);
    assert Run(p, name) == Trace(r, [MessageBegin], |name|, Consume);
    MethodByte(r, ' ');
    RunSplit(p, name, [' ']);
    RunEmpty(r.(state := ReqSpacesBeforeUrl, index := |name| + 1, nread := r.nread + 1));
  }

  lemma FirstLetterIsAlpha(ch: Byte)
    requires FirstMethod(ch).SomeMethod?
    ensures IsAlpha(ch) && ch != CR && ch != LF
  {
  }

  lemma RecogniserComplete(p: Parser, nl: seq<Byte>, m: Method, blanks: seq<Byte>)
    requires p.state.StartReq? && Newlines(nl) && Blanks(blanks) && blanks != []
    requires p.nread + |nl| + |MethodString(m)| + |blanks| <= HTTP_MAX_HEADER_SIZE
    ensures var t := Run(p, nl + MethodString(m) + blanks);
            t.ctl == Consume && t.p.state.ReqSpacesBeforeUrl? && t.p.meth == m && t.ev == [MessageBegin]
  {
    hide Run, MethodString;
    var name := MethodString(m);
    var w := name + [' '];
    assert nl + name + blanks == nl + (w + blanks[1..]);
    RunNewlines(p, nl);
    var q := p.(nread := p.nread + |nl|);
    RunMethod(q, m);
    RunSplit(p, nl, w + blanks[1..]);
    RunSplit(q, w, blanks[1..]);
    RunBlanks(Run(q, w).p, blanks[1..]);
  }

  /** Line ends, the name of `m`, at least one blank. */
  ghost predicate MethodLine(w: seq<Byte>, m: Method) {
    exists nl: nat, n: nat | nl <= n < |w| ::
      Newlines(w[..nl]) && w[nl..n] == MethodString(m) && Blanks(w[n..])
  }

  /** The recogniser: from the start state, the URL is awaited exactly after line ends,
      one of the 26 method names and blanks, and then `meth` is that method. */
  lemma MethodRecogniser(p: Parser, w: seq<Byte>, m: Method)
    requires p.state.StartReq? && p.nread + |w| <= HTTP_MAX_HEADER_SIZE
    ensures (var t := Run(p, w);
             t.ctl == Consume && t.ev == [MessageBegin] && t.p.state.ReqSpacesBeforeUrl? && t.p.meth == m)
            <==> MethodLine(w, m)
  {
    hide Run, MethodString;
    var t := Run(p, w);
    if MethodLine(w, m) {
      var nl: nat, n: nat :| nl <= n < |w| && Newlines(w[..nl]) && w[nl..n] == MethodString(m) && Blanks(w[n..]);
      assert w == w[..nl] + w[nl..n] + w[n..];
      RecogniserComplete(p, w[..nl], m, w[n..]);
    }
    if t.ctl == Consume && t.ev == [MessageBegin] && t.p.state.ReqSpacesBeforeUrl? {
      var nl := RecogniserSound(p, w);
    }
  }
}
