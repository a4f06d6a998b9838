/** Which request targets the parser takes, written out by the codes of their bytes: it reports
    exactly these, and refuses every other one as an invalid URL. */
module HttpTargets {
  import opened HttpSyntax
  import opened HttpStep
  import opened HttpInvariant
  import opened HttpMethods
  import opened HttpHeaders
  import opened HttpNumbers
  import opened HttpChunked
  import opened HttpRequest

  // ----- targets -----

  predicate Letter(n: int) { 65 <= n <= 90 || 97 <= n <= 122 }

  /** The bytes of an authority: letters, digits and `!$%&'()*+,-.:;=@[]_~`. */
  predicate ServerCode(n: int) {
    || n == 33 || 36 <= n <= 46 || 48 <= n <= 59 || n == 61 || 64 <= n <= 91 || n == 93 || n == 95
    || 97 <= n <= 122 || n == 126
  }

  predicate Letters(w: seq<Byte>) { forall i | 0 <= i < |w| :: Letter(w[i] as int) }

  /** All bytes from `!` to `~`, question marks and number signs among them. */
  predicate Printable(w: seq<Byte>) { forall i | 0 <= i < |w| :: 33 <= w[i] as int <= 126 }

  /** No two at signs (64) next to each other. */
  predicate ServerPart(w: seq<Byte>) {
    && (forall i | 0 <= i < |w| :: ServerCode(w[i] as int))
    && forall i | 0 < i < |w| :: w[i] as int == 64 ==> w[i - 1] as int != 64
  }

  /** A slash (47) or a question mark (63) ends the authority at `e`. */
  predicate TailFrom(w: seq<Byte>, e: nat) {
    e < |w| && ServerPart(w[..e]) && (w[e] as int == 47 || w[e] as int == 63) && Printable(w[e..])
  }

  ghost predicate ServerThenTail(w: seq<Byte>) { ServerPart(w) || exists e: nat :: TailFrom(w, e) }

  /** Letters, `://` and an authority that is not empty, or a tail. */
  ghost predicate AbsoluteForm(w: seq<Byte>, k: nat) {
    && 0 < k && k + 3 < |w| && Letters(w[..k])
    && w[k] as int == 58 && w[k + 1] as int == 47 && w[k + 2] as int == 47
    && ServerThenTail(w[k + 3..])
  }

  /** The targets of requests. */
  ghost predicate Target(m: Method, w: seq<Byte>) {
    && w != []
    && if m == CONNECT then ServerThenTail(w)
       else ((w[0] as int == 47 || w[0] as int == 42) && Printable(w)) || exists k: nat :: AbsoluteForm(w, k)
  }

  /** The states behind the authority. */
  predicate InTail(s: State) {
    s in {ReqPath, ReqQueryStringStart, ReqQueryString, ReqFragmentStart, ReqFragment}
  }

  predicate InServer(s: State) { s in {ReqServerStart, ReqServer, ReqServerWithAt} }

  lemma TailByte(s: State, ch: Byte)
    requires InTail(s)
    ensures var t, n := ParseUrlChar(s, ch), ch as int;
            && (InTail(t) <==> 33 <= n <= 126) && (!InTail(t) ==> t.Dead?)
            && (s.ReqPath? ==> t == if n == 35 then ReqFragmentStart else if n == 63 then ReqQueryStringStart
                                    else if 33 <= n <= 126 then ReqPath else Dead)
            && (s.ReqQueryStringStart? || s.ReqQueryString? ==>
                  t == if n == 35 then ReqFragmentStart else if 33 <= n <= 126 then ReqQueryString else Dead)
            && (s.ReqFragmentStart? ==>
                  t == if n == 35 then ReqFragmentStart else if 33 <= n <= 126 then ReqFragment else Dead)
            && (s.ReqFragment? ==> t == if 33 <= n <= 126 then ReqFragment else Dead)
  {
  }

  lemma ServerByte(s: State, ch: Byte)
    requires InServer(s)
    ensures var n := ch as int;
            ParseUrlChar(s, ch) ==
            if n == 47 then ReqPath
            else if n == 63 then ReqQueryStringStart
            else if n == 64 then (if s.ReqServerWithAt? then Dead else ReqServerWithAt)
            else if ServerCode(n) then ReqServer
            else Dead
  {
  }

  lemma SchemaByte(s: State, ch: Byte)
    requires s in {ReqSpacesBeforeUrl, ReqSchema, ReqSchemaSlash, ReqSchemaSlashSlash}
    ensures var t, n := ParseUrlChar(s, ch), ch as int;
            match s
            case ReqSpacesBeforeUrl =>
              t == if n == 47 || n == 42 then ReqPath else if Letter(n) then ReqSchema else Dead
            case ReqSchema => t == if n == 58 then ReqSchemaSlash else if Letter(n) then ReqSchema else Dead
            case ReqSchemaSlash => t == if n == 47 then ReqSchemaSlashSlash else Dead
            case _ => t == if n == 47 then ReqServerStart else Dead
  {
  }

  lemma UrlSnoc(s: State, w: seq<Byte>, ch: Byte)
    ensures UrlState(s, w + [ch]) == ParseUrlChar(UrlState(s, w), ch)
  {
    assert (w + [ch])[..|w|] == w;
  }

  lemma {:induction false} UrlSplit(s: State, a: seq<Byte>, b: seq<Byte>)
    ensures UrlState(s, a + b) == UrlState(UrlState(s, a), b)
  {
    hide ParseUrlChar;
    if b == [] {
      assert a + b == a;
    } else {
      var n := |b| - 1;
      UrlSplit(s, a, b[..n]);
      assert a + b == (a + b[..n]) + [b[n]];
      UrlSnoc(s, a + b[..n], b[n]);
    }
  }

  /** Behind the authority every printable byte is taken. */
  lemma {:induction false} TailExactly(s: State, w: seq<Byte>)
    requires InTail(s)
    ensures if Printable(w) then InTail(UrlState(s, w)) else UrlState(s, w).Dead?
  {
    hide ParseUrlChar;
    if w != [] {
      var n := |w| - 1;
      TailExactly(s, w[..n]);
      if Printable(w[..n]) {
        TailByte(UrlState(s, w[..n]), w[n]);
      } else {
        DeadStays(w[n]);
      }
    }
  }

  lemma ServerPartSnoc(w: seq<Byte>, ch: Byte)
    ensures ServerPart(w + [ch]) <==>
            ServerPart(w) && ServerCode(ch as int) && !(ch as int == 64 && w != [] && w[|w| - 1] as int == 64)
  {
    hide ServerCode;
    var v := w + [ch];
    assert forall i | 0 <= i < |w| :: v[i] == w[i];
    assert v[|w|] == ch;
  }

  lemma TailSnoc(w: seq<Byte>, ch: Byte, e: nat)
    requires e < |w|
    ensures TailFrom(w + [ch], e) <==> TailFrom(w, e) && 33 <= ch as int <= 126
  {
    hide ServerPart;
    assert (w + [ch])[..e] == w[..e];
    assert (w + [ch])[e..] == w[e..] + [ch];
    var v := w[e..];
    assert Printable(v + [ch]) <==> Printable(v) && 33 <= ch as int <= 126 by {
      assert forall i | 0 <= i < |v| :: (v + [ch])[i] == v[i];
      assert (v + [ch])[|v|] == ch;
    }
  }

  lemma TailStarts(w: seq<Byte>, ch: Byte)
    ensures TailFrom(w + [ch], |w|) <==> ServerPart(w) && (ch as int == 47 || ch as int == 63)
  {
    hide ServerPart;
    assert (w + [ch])[..|w|] == w && (w + [ch])[|w|..] == [ch];
  }

  /** What the state says about the bytes read since the authority began. */
  ghost predicate ServerMeaning(t: State, w: seq<Byte>) {
    match t
    case ReqServerStart => w == []
    case ReqServer => w != [] && ServerPart(w) && w[|w| - 1] as int != 64
    case ReqServerWithAt => w != [] && ServerPart(w) && w[|w| - 1] as int == 64
    case Dead => !ServerThenTail(w)
    case _ => InTail(t) && exists e: nat :: TailFrom(w, e)
  }

  /** One more byte inside the authority, or the one that ends it. */
  lemma ServerGoesOn(t: State, w: seq<Byte>, ch: Byte)
    requires InServer(t) && ServerMeaning(t, w)
    ensures ServerMeaning(ParseUrlChar(t, ch), w + [ch])
  {
    hide ParseUrlChar, ServerPart, TailFrom, ServerCode;
    var v := w + [ch];
    ServerPartSnoc(w, ch);
    TailStarts(w, ch);
    EmptyIsServer();
    NoTailYet(w, ch);
    ServerIsPrintable(ch as int);
    ServerByte(t, ch);
    assert TailFrom(v, |w|) <==> ch as int == 47 || ch as int == 63;
    assert v[|w|] == ch;
  }

  /** An authority has no tail; with one more byte only that byte can begin one. */
  lemma NoTailYet(w: seq<Byte>, ch: Byte)
    requires ServerPart(w)
    ensures forall e: nat :: TailFrom(w + [ch], e) ==> e == |w|
  {
    hide ServerPart, TailFrom;
    forall e: nat | TailFrom(w + [ch], e) ensures e == |w| {
      TailInside(w + [ch]);
      if e < |w| {
        TailSnoc(w, ch, e);
        TailIsNoServer(w, e);
      }
    }
  }

  lemma ServerMeaningStep(t: State, w: seq<Byte>, ch: Byte)
    requires ServerMeaning(t, w)
    ensures ServerMeaning(ParseUrlChar(t, ch), w + [ch])
  {
    hide ParseUrlChar, ServerPart, TailFrom, ServerCode;
    if InServer(t) {
      ServerGoesOn(t, w, ch);
    } else if t.Dead? {
      DeadStays(ch);
      RefusedStays(w, ch);
    } else {
      TailByte(t, ch);
      var e: nat :| TailFrom(w, e);
      TailInside(w);
      TailSnoc(w, ch, e);
      TailGoesOn(w, ch, e);
    }
  }

  /** A byte behind a text that is neither an authority nor one with a tail. */
  lemma RefusedStays(w: seq<Byte>, ch: Byte)
    requires !ServerThenTail(w)
    ensures !ServerThenTail(w + [ch])
  {
    hide ServerPart, TailFrom, ServerCode;
    ServerPartSnoc(w, ch);
    TailStarts(w, ch);
    TailInside(w + [ch]);
    forall e: nat | e < |w| ensures TailFrom(w + [ch], e) ==> TailFrom(w, e) {
      TailSnoc(w, ch, e);
    }
  }

  /** A byte behind a tail. */
  lemma TailGoesOn(w: seq<Byte>, ch: Byte, e: nat)
    requires TailFrom(w, e)
    ensures ServerThenTail(w + [ch]) <==> 33 <= ch as int <= 126
  {
    hide ServerPart, TailFrom, ServerCode;
    TailInside(w);
    TailInside(w + [ch]);
    TailSnoc(w, ch, e);
    TailIsNoServer(w, e);
    ServerPartSnoc(w, ch);
    TailStarts(w, ch);
    forall f: nat | f < |w| ensures TailFrom(w + [ch], f) ==> 33 <= ch as int <= 126 {
      TailSnoc(w, ch, f);
    }
  }

  lemma DeadStays(ch: Byte)
    ensures ParseUrlChar(Dead, ch) == Dead
  {
  }

  lemma EmptyIsServer()
    ensures ServerPart([]) && forall e: nat :: !TailFrom([], e)
  {
  }

  lemma ServerIsPrintable(n: int)
    ensures ServerCode(n) ==> 33 <= n <= 126 && n != 47 && n != 63
    ensures ServerCode(64)
  {
  }

  lemma TailInside(w: seq<Byte>)
    ensures forall e: nat :: TailFrom(w, e) ==> e < |w|
  {
  }

  lemma TailIsNoServer(w: seq<Byte>, e: nat)
    requires TailFrom(w, e)
    ensures !ServerPart(w)
  {
    assert !ServerCode(w[e] as int);
  }

  lemma {:induction false} ServerExactly(w: seq<Byte>)
    ensures ServerMeaning(UrlState(ReqServerStart, w), w)
  {
    hide ParseUrlChar, ServerMeaning;
    if w == [] {
      StartMeaning();
    } else {
      var n := |w| - 1;
      ServerExactly(w[..n]);
      assert w[..n] + [w[n]] == w;
      ServerMeaningStep(UrlState(ReqServerStart, w[..n]), w[..n], w[n]);
    }
  }

  lemma StartMeaning()
    ensures ServerMeaning(ReqServerStart, [])
  {
  }

  /** A byte sequence ends the URL in good order behind an authority if and only if it is not
      empty and is an authority with or without a tail. */
  lemma ServerEnds(w: seq<Byte>)
    ensures UrlMayEnd(UrlState(ReqServerStart, w)) <==> w != [] && ServerThenTail(w)
  {
    hide UrlState, ServerPart, TailFrom;
    ServerExactly(w);
    EmptyIsServer();
  }

  // ----- absolute targets -----

  lemma {:induction false} DeadForever(w: seq<Byte>)
    ensures UrlState(Dead, w).Dead?
  {
    hide ParseUrlChar;
    if w != [] {
      DeadForever(w[..|w| - 1]);
      DeadStays(w[|w| - 1]);
    }
  }

  lemma {:induction false} SchemaRuns(w: seq<Byte>)
    requires w != [] && Letters(w)
    ensures UrlState(ReqSpacesBeforeUrl, w) == ReqSchema
  {
    hide ParseUrlChar;
    var n := |w| - 1;
    if n == 0 {
      assert UrlState(ReqSpacesBeforeUrl, w[..0]) == ReqSpacesBeforeUrl;
      SchemaByte(ReqSpacesBeforeUrl, w[0]);
    } else {
      SchemaRuns(w[..n]);
      SchemaByte(ReqSchema, w[n]);
    }
  }

  /** The number of letters at the start. */
  function LettersAt(w: seq<Byte>): (k: nat)
    ensures k <= |w| && Letters(w[..k]) && (k < |w| ==> !Letter(w[k] as int))
  {
    if w == [] || !Letter(w[0] as int) then 0 else 1 + LettersAt(w[1..])
  }

  /** The states after a prefix, its next byte, and the rest. */
  lemma UrlNext(s: State, w: seq<Byte>, k: nat)
    requires k < |w|
    ensures UrlState(s, w[..k + 1]) == ParseUrlChar(UrlState(s, w[..k]), w[k])
    ensures UrlState(s, w) == UrlState(UrlState(s, w[..k + 1]), w[k + 1..])
  {
    hide ParseUrlChar, UrlState;
    assert w[..k] + [w[k]] == w[..k + 1] && w[..k + 1] + w[k + 1..] == w;
    UrlSnoc(s, w[..k], w[k]);
    UrlSplit(s, w[..k + 1], w[k + 1..]);
  }

  /** Letters only begin an absolute target at `k` if they end there. */
  lemma AbsoluteAt(w: seq<Byte>, k: nat)
    requires AbsoluteForm(w, k)
    ensures k == LettersAt(w)
  {
    var n := LettersAt(w);
    assert forall i | 0 <= i < k :: w[..k][i] == w[i];
    assert forall i | 0 <= i < n :: w[..n][i] == w[i];
  }

  lemma AbsoluteExactly(w: seq<Byte>)
    requires w != [] && Letter(w[0] as int)
    ensures UrlMayEnd(UrlState(ReqSpacesBeforeUrl, w)) <==> exists k: nat :: AbsoluteForm(w, k)
  {
    hide ParseUrlChar, UrlState, ServerThenTail, Letter;
    var s := ReqSpacesBeforeUrl;
    var k := LettersAt(w);
    forall j: nat | AbsoluteForm(w, j) ensures j == k { AbsoluteAt(w, j); }
    assert k > 0;
    SchemaRuns(w[..k]);
    if k == |w| {
      assert w[..k] == w;
    } else if !SlashesAt(w, k) {
      NoSlashes(w, k);
    } else {
      ThreeSlashes(w, k);
      ServerEnds(w[k + 3..]);
      assert AbsoluteForm(w, k) <==> w[k + 3..] != [] && ServerThenTail(w[k + 3..]);
    }
  }

  /** `://` begins at `k`. */
  predicate SlashesAt(w: seq<Byte>, k: nat) {
    k + 2 < |w| && w[k] as int == 58 && w[k + 1] as int == 47 && w[k + 2] as int == 47
  }

  lemma ThreeSlashes(w: seq<Byte>, k: nat)
    requires SlashesAt(w, k) && UrlState(ReqSpacesBeforeUrl, w[..k]) == ReqSchema
    ensures UrlState(ReqSpacesBeforeUrl, w) == UrlState(ReqServerStart, w[k + 3..])
  {
    hide ParseUrlChar, UrlState;
    var s := ReqSpacesBeforeUrl;
    UrlNext(s, w, k);
    SchemaByte(ReqSchema, w[k]);
    UrlNext(s, w, k + 1);
    SchemaByte(ReqSchemaSlash, w[k + 1]);
    UrlNext(s, w, k + 2);
    SchemaByte(ReqSchemaSlashSlash, w[k + 2]);
  }

  lemma NoSlashes(w: seq<Byte>, k: nat)
    requires k < |w| && !SlashesAt(w, k) && UrlState(ReqSpacesBeforeUrl, w[..k]) == ReqSchema && !Letter(w[k] as int)
    ensures !UrlMayEnd(UrlState(ReqSpacesBeforeUrl, w))
  {
    hide ParseUrlChar, UrlState;
    var s := ReqSpacesBeforeUrl;
    UrlNext(s, w, k);
    SchemaByte(ReqSchema, w[k]);
    DeadForever(w[k + 1..]);
    if w[k] as int == 58 && k + 1 < |w| {
      UrlNext(s, w, k + 1);
      SchemaByte(ReqSchemaSlash, w[k + 1]);
      DeadForever(w[k + 2..]);
      if w[k + 1] as int == 47 && k + 2 < |w| {
        UrlNext(s, w, k + 2);
        SchemaByte(ReqSchemaSlashSlash, w[k + 2]);
        DeadForever(w[k + 3..]);
      } else {
        assert k + 2 == |w| ==> w[..k + 2] == w;
      }
    } else {
      assert k + 1 == |w| ==> w[..k + 1] == w;
    }
  }

  /** The parser takes these targets and no others. */
  lemma TargetExactly(m: Method, w: seq<Byte>)
    ensures UrlOkay(m, w) <==> Target(m, w)
  {
    hide ParseUrlChar, UrlState, ServerThenTail, AbsoluteForm, Printable;
    if w != [] {
      if m == CONNECT {
        ServerEnds(w);
      } else {
        FirstByte(w);
        if Letter(w[0] as int) {
          AbsoluteExactly(w);
        } else if w[0] as int == 47 || w[0] as int == 42 {
          TailExactly(ReqPath, w[1..]);
          PrintableTail(w);
        } else {
          DeadForever(w[1..]);
        }
      }
    }
  }

  lemma FirstByte(w: seq<Byte>)
    requires w != []
    ensures var s := ParseUrlChar(ReqSpacesBeforeUrl, w[0]);
            && UrlState(ReqSpacesBeforeUrl, w) == UrlState(s, w[1..])
            && (w[0] as int == 47 || w[0] as int == 42 ==> s == ReqPath)
            && (w[0] as int != 47 && w[0] as int != 42 && !Letter(w[0] as int) ==> s.Dead?)
    ensures !Letter(w[0] as int) ==> forall k: nat :: !AbsoluteForm(w, k)
  {
    hide ParseUrlChar, ServerThenTail;
    SchemaByte(ReqSpacesBeforeUrl, w[0]);
    UrlNext(ReqSpacesBeforeUrl, w, 0);
    assert UrlState(ReqSpacesBeforeUrl, w[..0]) == ReqSpacesBeforeUrl;
    forall k: nat | AbsoluteForm(w, k) ensures Letter(w[0] as int) {
      assert w[..k][0] == w[0];
    }
  }

  lemma PrintableTail(w: seq<Byte>)
    requires w != [] && 33 <= w[0] as int <= 126
    ensures Printable(w) <==> Printable(w[1..])
  {
    assert w == [w[0]] + w[1..];
    if Printable(w[1..]) {
      forall i | 0 <= i < |w| ensures 33 <= w[i] as int <= 126 {
        if i > 0 { assert w[1..][i - 1] == w[i]; }
      }
    }
  }

  // ----- runs over targets -----

  /** A URL byte that is not allowed. */
  lemma UrlRefuses(p: Parser, ch: Byte)
    requires (p.state.ReqSpacesBeforeUrl? || InUrl(p.state)) && p.nread < HTTP_MAX_HEADER_SIZE
    requires ch as int != 10 && ch as int != 13 && ch as int != 32
    requires ParseUrlChar(if p.state.ReqSpacesBeforeUrl? then UrlStart(p.meth) else p.state, ch).Dead?
    ensures Feed(p, ch).ctl == Error && Feed(p, ch).p.errno == InvalidUrl
  {
    hide MicroMethod, MicroVersion, MicroField, MicroValue, MicroHeadersEnd, MicroChunk, MicroBody, ParseUrlChar;
  }

  /** The blank (32) or line end (10, 13) behind the URL. */
  lemma UrlStops(p: Parser, end: Byte)
    requires InUrl(p.state) && p.nread < HTTP_MAX_HEADER_SIZE
    requires end as int == 10 || end as int == 13 || end as int == 32
    ensures UrlMayEnd(p.state) ==> Feed(p, end) == Out(Stopped(p, end, 1), [], Consume)
    ensures !UrlMayEnd(p.state) ==> Feed(p, end).ctl == Error && Feed(p, end).p.errno == InvalidUrl
  {
    hide MicroMethod, MicroVersion, MicroField, MicroValue, MicroHeadersEnd, MicroChunk, MicroBody, ParseUrlChar;
  }

  /** Behind a URL and its end: a version follows a blank; without one it is 0.9. */
  function Stopped(p: Parser, end: Byte, n: nat): Parser {
    if end as int == 32 then p.(state := ReqHttpStart, nread := p.nread + n)
    else p.(state := if end as int == 13 then ReqLineAlmostDone else HeaderFieldStart,
            httpMajor := 0, httpMinor := 9, nread := p.nread + n)
  }

  /** The byte that is refused. */
  lemma {:induction false} DeadAt(s: State, w: seq<Byte>) returns (n: nat)
    requires !s.Dead? && UrlState(s, w).Dead?
    ensures n < |w| && !UrlState(s, w[..n]).Dead? && ParseUrlChar(UrlState(s, w[..n]), w[n]).Dead?
  {
    hide ParseUrlChar;
    n := |w| - 1;
    if UrlState(s, w[..n]).Dead? {
      var k := DeadAt(s, w[..n]);
      assert w[..n][..k] == w[..k] && w[..n][k] == w[k];
      n := k;
    }
  }

  lemma RunFails(p: Parser, w: seq<Byte>, n: nat, q: Parser, ev: seq<Event>)
    requires n < |w| && Goes(p, w[..n], q, ev) && Feed(q, w[n]).ctl == Error
    ensures Run(p, w).ctl == Error && Run(p, w).p == Feed(q, w[n]).p && Run(p, w).used == n
  {
    hide Feed, Run;
    RunByte(p, w, n);
  }

  /** In front of the limit on header bytes exactly the targets are reported, and every other
      text up to a blank or line end is an invalid URL. */
  lemma TargetDecided(p: Parser, w: seq<Byte>, end: Byte)
    requires p.state.ReqSpacesBeforeUrl? && w != [] && p.nread + |w| < 81920
    requires forall i | 0 <= i < |w| :: w[i] as int != 10 && w[i] as int != 13 && w[i] as int != 32
    requires end as int == 10 || end as int == 13 || end as int == 32
    ensures var t := Run(p, w + [end]);
            if Target(p.meth, w) then t == Trace(Stopped(p, end, |w| + 1), DataEvents(Url, w), |w| + 1, Consume)
            else t.ctl == Error && t.p.errno == InvalidUrl
  {
    hide ParseUrlChar, Run, UrlState, Target, UrlStart, Feed, UrlMayEnd;
    TargetExactly(p.meth, w);
    var s := UrlStart(p.meth);
    var v := w + [end];
    assert v[..|w|] == w && v[|w|] == end;
    if UrlState(s, w).Dead? {
      StartAlive(p.meth);
      EndNotDead();
      var n := DeadAt(s, w);
      assert v[..n] == w[..n] && v[n] == w[n];
      UrlFails(p, w, n);
      var q := Run(p, w[..n]).p;
      RunFails(p, v, n, q, Run(p, w[..n]).ev);
    } else {
      RunUrl(p, w);
      var q := p.(state := UrlState(s, w), nread := p.nread + |w|);
      UrlStops(q, end);
      RunByte(p, v, |w|);
      assert v[..|w| + 1] == v;
      assert DataEvents(Url, w) + [] == DataEvents(Url, w);
    }
  }

  lemma StartAlive(m: Method)
    ensures !UrlStart(m).Dead?
  {
  }

  lemma EndNotDead()
    ensures !UrlMayEnd(Dead)
  {
  }

  lemma UrlFails(p: Parser, w: seq<Byte>, n: nat)
    requires p.state.ReqSpacesBeforeUrl? && n < |w| && p.nread + n < HTTP_MAX_HEADER_SIZE
    requires w[n] as int != 10 && w[n] as int != 13 && w[n] as int != 32
    requires !UrlState(UrlStart(p.meth), w[..n]).Dead?
    requires ParseUrlChar(UrlState(UrlStart(p.meth), w[..n]), w[n]).Dead?
    ensures var q := Run(p, w[..n]).p;
            && Goes(p, w[..n], q, Run(p, w[..n]).ev)
            && Feed(q, w[n]).ctl == Error && Feed(q, w[n]).p.errno == InvalidUrl
  {
    hide ParseUrlChar, Feed, UrlStart;
    if n == 0 {
      GoNowhere(p);
      assert w[..n] == [];
      UrlRefuses(p, w[0]);
    } else {
      RunUrl(p, w[..n]);
      UrlRefuses(p.(state := UrlState(UrlStart(p.meth), w[..n]), nread := p.nread + n), w[n]);
    }
  }
}
