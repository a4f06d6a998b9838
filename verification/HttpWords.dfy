/** Which words the request parser takes, written out by the codes of their bytes: names of
    headers and methods, values with a meaning, versions and numbers. */
module HttpWords {
  import opened HttpSyntax
  import opened HttpStep
  import opened HttpInvariant
  import opened HttpMethods
  import opened HttpHeaders
  import opened HttpNumbers
  import opened HttpChunked
  import opened HttpRequest
  import opened HttpTargets

  // ----- bytes -----

  predicate DigitCode(n: int) { 48 <= n <= 57 }

  /** Letters, digits and "!#$%&'*+-.^_`|~". */
  predicate TokenCode(n: int) {
    || n == 33 || 35 <= n <= 39 || n == 42 || n == 43 || n == 45 || n == 46 || DigitCode(n) || Letter(n)
    || 94 <= n <= 96 || n == 124 || n == 126
  }

  lemma TokenTable(ch: Byte)
    ensures var n := ch as int;
            Token(ch) as int == if 65 <= n <= 90 then n + 32 else if TokenCode(n) then n else 0
  {
  }

  /** The characters of userinfo and host names. */
  lemma HostTable(ch: Byte)
    ensures var n := ch as int;
            && (IsUserinfoChar(ch) <==> ServerCode(n) && n != 64 && n != 91 && n != 93)
            && (IsHostChar(ch) <==> Letter(n) || DigitCode(n) || n == 45 || n == 46)
            && (IsNum(ch) <==> DigitCode(n))
            && (IsHex(ch) <==> DigitCode(n) || 65 <= n <= 70 || 97 <= n <= 102)
  {
  }

  /** Digits count 0 to 9, letters 10 to 15 in either case, and bytes from 128 on 0. */
  lemma HexTable(ch: Byte)
    ensures var n := ch as int;
            Unhex(ch) == if DigitCode(n) then n - 48 else if 65 <= n <= 70 then n - 55
                         else if 97 <= n <= 102 then n - 87 else if n >= 128 then 0 else -1
  {
  }

  // ----- words without regard to case -----

  /** The byte is `c`, or its capital. */
  predicate SameLetter(ch: Byte, c: Byte) {
    ch == c || (97 <= c as int <= 122 && ch as int == c as int - 32)
  }

  predicate SameWord(s: seq<Byte>, word: seq<Byte>) {
    |s| == |word| && forall i | 0 <= i < |s| :: SameLetter(s[i], word[i])
  }

  predicate LowerCase(word: seq<Byte>) { forall i | 0 <= i < |word| :: 97 <= word[i] as int <= 122 || word[i] == '-' }

  lemma LowerNameIs(s: seq<Byte>, word: seq<Byte>)
    requires LowerCase(word)
    ensures LowerName(s) == word <==> SameWord(s, word)
  {
    forall i | 0 <= i < |s| && |s| == |word| ensures LowerName(s)[i] == word[i] <==> SameLetter(s[i], word[i]) {
      TokenTable(s[i]);
    }
  }

  /** The names with a meaning. */
  lemma NamesExactly(s: seq<Byte>)
    ensures var h := HeaderOf(LowerName(s));
            && (h == Connection <==> SameWord(s, "connection") || SameWord(s, "proxy-connection"))
            && (h == ContentLength <==> SameWord(s, "content-length"))
            && (h == TransferEncoding <==> SameWord(s, "transfer-encoding"))
            && (h == Upgrade <==> SameWord(s, "upgrade"))
  {
    hide SameWord;
    LowerNameIs(s, "connection");
    LowerNameIs(s, "proxy-connection");
    LowerNameIs(s, "content-length");
    LowerNameIs(s, "transfer-encoding");
    LowerNameIs(s, "upgrade");
  }

  /** The value is the word and blanks (32). */
  predicate ValueIs(v: seq<Byte>, word: seq<Byte>) {
    |word| <= |v| && SameWord(v[..|word|], word) && forall i | |word| <= i < |v| :: v[i] as int == 32
  }

  lemma ValueExactly(v: seq<Byte>, word: seq<Byte>)
    requires LowerCase(word) && forall i | 0 <= i < |v| :: v[i] as int != 13
    ensures WordAndBlanks(v, word) <==> ValueIs(v, word)
  {
    if |word| <= |v| {
      forall i | 0 <= i < |word| ensures LowerAll(v)[..|word|][i] == word[i] <==> SameLetter(v[..|word|][i], word[i]) {
        LowerTable(v[i]);
      }
    }
  }

  lemma LowerTable(ch: Byte)
    ensures 97 <= Lower(ch) as int <= 122 ==> Lower(ch) == ch || Lower(ch) as int == ch as int + 32
    ensures 97 <= ch as int <= 122 ==> Lower(ch) == ch
    ensures 65 <= ch as int <= 90 ==> Lower(ch) as int == ch as int + 32
    ensures Lower(ch) as int == 45 <==> ch as int == 45 || ch as int == 13
  {
  }

  predicate IsConnection(name: seq<Byte>) { SameWord(name, "connection") || SameWord(name, "proxy-connection") }

  /** What the first line of a header says, by its words. */
  lemma FlagsExactly(f: Flags, h: Header)
    requires HeaderOkay(h)
    ensures var g := FlagsOf(f, h);
            && (g.chunked <==> f.chunked || (SameWord(h.name, "transfer-encoding") && ValueIs(h.value, "chunked")))
            && (g.keepAlive <==> (f.keepAlive || (IsConnection(h.name) && ValueIs(h.value, "keep-alive"))))
            && (g.close <==> (f.close || (IsConnection(h.name) && ValueIs(h.value, "close"))))
            && (g.upgrade <==> f.upgrade || (SameWord(h.name, "upgrade") && h.value != []))
            && g.trailing == f.trailing
  {
    hide SameWord, WordAndBlanks, LowerName, HeaderOf;
    NamesExactly(h.name);
    ValueHasNoCr(h);
    ValueExactly(h.value, "chunked");
    ValueExactly(h.value, "keep-alive");
    ValueExactly(h.value, "close");
  }

  lemma ValueHasNoCr(h: Header)
    requires HeaderOkay(h)
    ensures forall i | 0 <= i < |h.value| :: h.value[i] as int != 13
  {
    hide AllTokens, AllBlank, LengthText, FoldOkay;
  }

  // ----- names of headers -----

  predicate TokenCodes(s: seq<Byte>) { forall i | 0 <= i < |s| :: TokenCode(s[i] as int) }

  lemma TokensAre(s: seq<Byte>)
    ensures AllTokens(s) <==> TokenCodes(s)
  {
    forall i | 0 <= i < |s| ensures IsToken(s[i]) <==> TokenCode(s[i] as int) {
      TokenTable(s[i]);
    }
  }

  /** A byte of a name that is no token. */
  lemma FieldRefuses(p: Parser, ch: Byte)
    requires (p.state.HeaderFieldStart? || p.state.HeaderField?) && p.nread < HTTP_MAX_HEADER_SIZE
    requires !TokenCode(ch as int) && ch as int != 10 && ch as int != 13
    requires ch as int == 58 ==> p.state.HeaderFieldStart?
    ensures Feed(p, ch).ctl == Error && Feed(p, ch).p.errno == InvalidHeaderToken
  {
    hide MicroMethod, MicroVersion, MicroUrl, MicroValue, MicroHeadersEnd, MicroChunk, MicroBody, Token;
    TokenTable(ch);
  }

  /** The first byte of a name that is no token. */
  function FirstBad(s: seq<Byte>): (n: nat)
    ensures n <= |s| && TokenCodes(s[..n]) && (n < |s| ==> !TokenCode(s[n] as int))
  {
    if s == [] || !TokenCode(s[0] as int) then 0 else 1 + FirstBad(s[1..])
  }

  /** Exactly the tokens are names of headers. */
  lemma NameAccepted(p: Parser, s: seq<Byte>)
    requires p.state.HeaderFieldStart? && s != [] && p.nread + |s| < 81920
    requires forall i | 0 <= i < |s| :: s[i] as int != 10 && s[i] as int != 13 && s[i] as int != 58
    ensures var t := Run(p, s + [':']);
            if TokenCodes(s) then
              t.ctl == Consume && t.p.state.HeaderValueStart? && t.ev == DataEvents(Field, s)
            else t.ctl == Error && t.p.errno == InvalidHeaderToken
  {
    hide Run, HeaderOf, LowerName, TokenCode, Feed;
    TokensAre(s);
    if TokenCodes(s) {
      NameDecided(p, s, Upgrade);
    } else {
      var n := FirstBad(s);
      var v := s + [':'];
      assert v[..n] == s[..n] && v[n] == s[n];
      if n == 0 {
        GoNowhere(p);
        FieldRefuses(p, s[0]);
        RunFails(p, v, 0, p, []);
      } else {
        TokensAre(s[..n]);
        RunName(p, s[..n]);
        var q := Run(p, s[..n]).p;
        FieldRefuses(q, s[n]);
        RunFails(p, v, n, q, Run(p, s[..n]).ev);
      }
    }
  }

  // ----- names of methods -----

  /** The names of the methods. */
  lemma MethodNames()
    ensures MethodString(DELETE) == "DELETE" && MethodString(GET) == "GET" && MethodString(HEAD) == "HEAD"
    ensures MethodString(POST) == "POST" && MethodString(PUT) == "PUT" && MethodString(CONNECT) == "CONNECT"
    ensures MethodString(OPTIONS) == "OPTIONS" && MethodString(TRACE) == "TRACE" && MethodString(COPY) == "COPY"
    ensures MethodString(LOCK) == "LOCK" && MethodString(MKCOL) == "MKCOL" && MethodString(MOVE) == "MOVE"
    ensures MethodString(PROPFIND) == "PROPFIND" && MethodString(PROPPATCH) == "PROPPATCH"
    ensures MethodString(SEARCH) == "SEARCH" && MethodString(UNLOCK) == "UNLOCK" && MethodString(REPORT) == "REPORT"
    ensures MethodString(MKACTIVITY) == "MKACTIVITY" && MethodString(CHECKOUT) == "CHECKOUT"
    ensures MethodString(MERGE) == "MERGE" && MethodString(MSEARCH) == "M-SEARCH" && MethodString(NOTIFY) == "NOTIFY"
    ensures MethodString(SUBSCRIBE) == "SUBSCRIBE" && MethodString(UNSUBSCRIBE) == "UNSUBSCRIBE"
    ensures MethodString(PATCH) == "PATCH" && MethodString(PURGE) == "PURGE"
  {
  }

  // ----- versions -----

  predicate AllDigits(s: seq<Byte>) { forall i | 0 <= i < |s| :: DigitCode(s[i] as int) }

  /** At most three digits, the first one not 0 (48). */
  predicate MajorText(s: seq<Byte>) { 1 <= |s| <= 3 && AllDigits(s) && s[0] as int != 48 }

  /** At most three digits behind leading zeros. */
  predicate MinorText(s: seq<Byte>) { s != [] && AllDigits(s) && forall i | 0 <= i < |s| - 3 :: s[i] as int == 48 }

  /** A point (46) at `k` divides the version. */
  predicate VersionAt(w: seq<Byte>, k: nat) {
    k < |w| && MajorText(w[..k]) && w[k] as int == 46 && MinorText(w[k + 1..])
  }

  lemma {:induction false} ZerosAreZero(s: seq<Byte>)
    requires AllDigits(s)
    ensures DecValue(s) == 0 <==> forall i | 0 <= i < |s| :: s[i] as int == 48
  {
    if s != [] {
      var n := |s| - 1;
      ZerosAreZero(s[..n]);
      assert (forall i | 0 <= i < |s| :: s[i] as int == 48) <==> (forall i | 0 <= i < n :: s[..n][i] as int == 48) && s[n] as int == 48;
    }
  }

  lemma LastThree(s: seq<Byte>, a: Byte, b: Byte, c: Byte)
    requires IsNum(a) && IsNum(b) && IsNum(c)
    ensures 1000 * DecValue(s) <= DecValue(s + [a, b, c]) <= 1000 * DecValue(s) + 999
  {
    hide DecValue;
    DecValueSnoc(s, a);
    DecValueSnoc(s + [a], b);
    DecValueSnoc(s + [a] + [b], c);
    assert s + [a] + [b] + [c] == s + [a, b, c];
  }

  lemma MinorExactly(s: seq<Byte>)
    ensures Decimal(s) <==> MinorText(s)
  {
    hide DecValue;
    if s != [] && AllDigits(s) {
      if |s| <= 3 {
        ShortIsSmall(s);
      } else {
        var n := |s| - 3;
        assert s == s[..n] + [s[n], s[n + 1], s[n + 2]];
        LastThree(s[..n], s[n], s[n + 1], s[n + 2]);
        ZerosAreZero(s[..n]);
      }
    }
  }

  lemma ShortIsSmall(s: seq<Byte>)
    requires AllDigits(s) && |s| <= 3
    ensures DecValue(s) <= 999
  {
    hide DecValue;
    DecValueOfNone();
    if |s| >= 1 {
      var e: seq<Byte> := [];
      DecValueSnoc(e, s[0]);
      assert s[..1] == e + [s[0]];
      if |s| >= 2 {
        DecValueSnoc(s[..1], s[1]);
        assert s[..2] == s[..1] + [s[1]];
        if |s| == 3 {
          DecValueSnoc(s[..2], s[2]);
          assert s == s[..2] + [s[2]];
        } else {
          assert s == s[..2];
        }
      } else {
        assert s == s[..1];
      }
    }
  }

  lemma MajorExactly(s: seq<Byte>)
    ensures Decimal(s) && s[0] != '0' <==> MajorText(s)
  {
    hide Decimal;
    MinorExactly(s);
  }

  /** The digits of a major version at the start: none if it begins with 0. */
  function MajorAt(w: seq<Byte>): (k: nat)
    ensures k <= |w| && (k > 0 ==> MajorText(w[..k])) && (k < |w| ==> !MajorText(w[..k + 1]))
    ensures k == 0 && w != [] ==> w[0] as int == 48 || !DigitCode(w[0] as int)
    ensures k < |w| && DigitCode(w[k] as int) && k > 0 ==> k == 3
  {
    if w == [] || !DigitCode(w[0] as int) || w[0] as int == 48 then 0
    else if |w| == 1 || !DigitCode(w[1] as int) then 1
    else if |w| == 2 || !DigitCode(w[2] as int) then 2
    else 3
  }

  /** The longest start that is a minor version. */
  function MinorAt(u: seq<Byte>): (m: nat)
    ensures m <= |u| && (m > 0 ==> Decimal(u[..m])) && (m < |u| ==> !Decimal(u[..m + 1]))
  {
    if u == [] || !Decimal(u[..1]) then 0 else MinorFrom(u, 1)
  }

  function MinorFrom(u: seq<Byte>, n: nat): (m: nat)
    requires 0 < n <= |u| && Decimal(u[..n])
    ensures n <= m <= |u| && Decimal(u[..m]) && (m < |u| ==> !Decimal(u[..m + 1]))
    decreases |u| - n
  {
    if n == |u| || !Decimal(u[..n + 1]) then n else MinorFrom(u, n + 1)
  }

  lemma VersionFails(p: Parser, ch: Byte)
    requires p.nread < HTTP_MAX_HEADER_SIZE
    requires match p.state
             case ReqFirstHttpMajor => !(49 <= ch as int <= 57)
             case ReqHttpMajor => ch as int != 46 && (DigitCode(ch as int) ==> p.httpMajor * 10 + ch as int - 48 > 999)
             case ReqFirstHttpMinor => !DigitCode(ch as int)
             case ReqHttpMinor =>
               ch as int != 10 && ch as int != 13 && (DigitCode(ch as int) ==> p.httpMinor * 10 + ch as int - 48 > 999)
             case _ => false
    ensures Feed(p, ch).ctl == Error && Feed(p, ch).p.errno == InvalidVersion
  {
    hide Feed;
    VersionByte(p, ch);
  }

  lemma DecimalGoesOn(d: seq<Byte>, ch: Byte)
    requires d == [] || Decimal(d)
    requires !Decimal(d + [ch])
    ensures DigitCode(ch as int) ==> d != [] && DecValue(d) * 10 + ch as int - 48 > 999
  {
    hide DecValue;
    DecValueOfNone();
    DecValueSnoc(d, ch);
  }

  /** The version is not taken because of its major part. */
  lemma BadMajor(p: Parser, v: seq<Byte>, k: nat)
    requires p.state.ReqFirstHttpMajor? && k < |v| && k == MajorAt(v) && (k > 0 ==> v[k] as int != 46) && p.nread + k < HTTP_MAX_HEADER_SIZE
    ensures Run(p, v).ctl == Error && Run(p, v).p.errno == InvalidVersion
  {
    hide Run, Goes, Feed, DecValue;
    if k == 0 {
      GoNowhere(p);
      assert v[..0] == [];
      VersionFails(p, v[0]);
      RunFails(p, v, 0, p, []);
    } else {
      MajorExactly(v[..k]);
      RunMajor(p, v[..k]);
      var q := p.(state := ReqHttpMajor, httpMajor := DecValue(v[..k]), nread := p.nread + k);
      assert v[..k] + [v[k]] == v[..k + 1];
      MajorExactly(v[..k + 1]);
      DecimalGoesOn(v[..k], v[k]);
      VersionFails(q, v[k]);
      RunFails(p, v, k, q, []);
    }
  }

  /** The major part and the point. */
  lemma GoodMajor(p: Parser, v: seq<Byte>, k: nat)
    requires p.state.ReqFirstHttpMajor? && 0 < k < |v| && k == MajorAt(v) && v[k] as int == 46
    requires p.nread + k < HTTP_MAX_HEADER_SIZE
    ensures Goes(p, v[..k + 1], p.(state := ReqFirstHttpMinor, httpMajor := DecValue(v[..k]), nread := p.nread + k + 1), [])
  {
    hide Goes, DecValue;
    MajorExactly(v[..k]);
    RunMajor(p, v[..k]);
    var q := p.(state := ReqHttpMajor, httpMajor := DecValue(v[..k]), nread := p.nread + k);
    var r := q.(state := ReqFirstHttpMinor, nread := q.nread + 1);
    VersionGo(q, '.', r);
    GoQuietly(p, v[..k], q, ['.'], r);
    assert v[..k] + ['.'] == v[..k + 1];
  }

  lemma PrefixIsDecimal(u: seq<Byte>, n: nat)
    requires Decimal(u) && 0 < n <= |u|
    ensures Decimal(u[..n])
  {
    hide DecValue;
    assert u == u[..n] + u[n..];
    DecValueGrows(u[..n], u[n..]);
  }

  /** The state behind the version, where its line ends. */
  function LineEnded(end: Byte): State { if end as int == 13 then ReqLineAlmostDone else HeaderFieldStart }

  lemma GoodMinor(p: Parser, u: seq<Byte>, end: Byte)
    requires p.state.ReqFirstHttpMinor? && p.nread + |u| < HTTP_MAX_HEADER_SIZE && Decimal(u)
    requires end as int == 10 || end as int == 13
    ensures Goes(p, u + [end], p.(state := LineEnded(end), httpMinor := DecValue(u), nread := p.nread + |u| + 1), [])
  {
    hide Goes, DecValue;
    RunMinor(p, u);
    var q := p.(state := ReqHttpMinor, httpMinor := DecValue(u), nread := p.nread + |u|);
    var r := q.(state := LineEnded(end), nread := q.nread + 1);
    VersionGo(q, end, r);
    GoQuietly(p, u, q, [end], r);
  }

  /** The version is not taken because of its minor part. */
  lemma BadMinor(p: Parser, v: seq<Byte>, m: nat)
    requires p.state.ReqFirstHttpMinor? && m < |v| && p.nread + m < HTTP_MAX_HEADER_SIZE
    requires (m > 0 ==> Decimal(v[..m])) && !Decimal(v[..m + 1])
    requires m > 0 ==> v[m] as int != 10 && v[m] as int != 13
    ensures Run(p, v).ctl == Error && Run(p, v).p.errno == InvalidVersion
  {
    hide Run, Goes, Feed, DecValue, Decimal;
    assert v[..m] + [v[m]] == v[..m + 1];
    DecimalGoesOn(v[..m], v[m]);
    if m == 0 {
      GoNowhere(p);
      VersionFails(p, v[0]);
      RunFails(p, v, 0, p, []);
    } else {
      RunMinor(p, v[..m]);
      var q := p.(state := ReqHttpMinor, httpMinor := DecValue(v[..m]), nread := p.nread + m);
      VersionFails(q, v[m]);
      RunFails(p, v, m, q, []);
    }
  }

  /** The minor part and the byte behind it. */
  lemma MinorDecided(p: Parser, u: seq<Byte>, end: Byte)
    requires p.state.ReqFirstHttpMinor? && p.nread + |u| < HTTP_MAX_HEADER_SIZE
    requires end as int == 10 || end as int == 13
    requires forall i | 0 <= i < |u| :: u[i] as int != 10 && u[i] as int != 13
    ensures if MinorText(u) then
              Goes(p, u + [end], p.(state := LineEnded(end), httpMinor := DecValue(u), nread := p.nread + |u| + 1), [])
            else Run(p, u + [end]).ctl == Error && Run(p, u + [end]).p.errno == InvalidVersion
  {
    hide Run, Goes, Feed, DecValue, MinorText, Decimal;
    MinorExactly(u);
    if MinorText(u) {
      GoodMinor(p, u, end);
    } else {
      var m := MinorAt(u);
      var v := u + [end];
      assert v[..m] == u[..m];
      if m == |u| {
        assert u[..m] == u;
        NoneIsDecimal(end);
        assert m == 0 && v[..1] == [end];
      } else {
        assert v[..m + 1] == u[..m + 1] && v[m] == u[m];
      }
      BadMinor(p, v, m);
    }
  }

  lemma NoneIsDecimal(end: Byte)
    requires end as int == 10 || end as int == 13
    ensures !Decimal([end])
  {
  }

  lemma VersionIsAt(w: seq<Byte>, k: nat)
    requires VersionAt(w, k)
    ensures k == MajorAt(w)
  {
  }

  lemma MajorIsSame(w: seq<Byte>, end: Byte)
    requires end as int == 10 || end as int == 13
    ensures MajorAt(w + [end]) == MajorAt(w)
    ensures !VersionAt(w, 0)
  {
  }

  /** A major part with its point, and what is behind it. */
  lemma BehindMajor(p: Parser, w: seq<Byte>, k: nat, end: Byte)
    requires p.state.ReqFirstHttpMajor? && 0 < k < |w| && k == MajorAt(w) && w[k] as int == 46
    requires p.nread + |w| < HTTP_MAX_HEADER_SIZE
    requires end as int == 10 || end as int == 13
    requires forall i | 0 <= i < |w| :: w[i] as int != 10 && w[i] as int != 13
    ensures if MinorText(w[k + 1..]) then
              Goes(p, w + [end], p.(state := LineEnded(end), httpMajor := DecValue(w[..k]), httpMinor := DecValue(w[k + 1..]),
                                    nread := p.nread + |w| + 1), [])
            else Run(p, w + [end]).ctl == Error && Run(p, w + [end]).p.errno == InvalidVersion
  {
    hide Run, Goes, Feed, DecValue, MajorText, MinorText, MajorAt;
    GoodMajor(p, w, k);
    var q := p.(state := ReqFirstHttpMinor, httpMajor := DecValue(w[..k]), nread := p.nread + k + 1);
    var u := w[k + 1..];
    MinorDecided(q, u, end);
    assert w + [end] == w[..k + 1] + (u + [end]);
    if MinorText(u) {
      GoQuietly(p, w[..k + 1], q, u + [end],
                q.(state := LineEnded(end), httpMinor := DecValue(u), nread := q.nread + |u| + 1));
    } else {
      GoThenFail(p, w[..k + 1], q, u + [end]);
    }
  }

  lemma GoThenFail(p: Parser, a: seq<Byte>, q: Parser, b: seq<Byte>)
    requires Goes(p, a, q, []) && Run(q, b).ctl == Error
    ensures Run(p, a + b).ctl == Error && Run(p, a + b).p == Run(q, b).p
  {
    hide Run;
    RunSplit(p, a, b);
  }

  /** These are versions, and their numbers are stored. */
  lemma VersionAccepted(p: Parser, w: seq<Byte>, k: nat, end: Byte)
    requires p.state.ReqFirstHttpMajor? && p.nread + |w| < 81920
    requires end as int == 10 || end as int == 13
    requires forall i | 0 <= i < |w| :: w[i] as int != 10 && w[i] as int != 13
    requires VersionAt(w, k)
    ensures Run(p, w + [end]) ==
            Trace(p.(state := LineEnded(end), httpMajor := DecValue(w[..k]), httpMinor := DecValue(w[k + 1..]),
                     nread := p.nread + |w| + 1), [], |w| + 1, Consume)
  {
    hide Run, DecValue, MajorText, MinorText, MajorAt;
    MajorIsSame(w, end);
    VersionIsAt(w, k);
    BehindMajor(p, w, k, end);
  }

  /** And no others. */
  lemma VersionRefused(p: Parser, w: seq<Byte>, end: Byte)
    requires p.state.ReqFirstHttpMajor? && p.nread + |w| < 81920
    requires end as int == 10 || end as int == 13
    requires forall i | 0 <= i < |w| :: w[i] as int != 10 && w[i] as int != 13
    requires forall k: nat :: !VersionAt(w, k)
    ensures Run(p, w + [end]).ctl == Error && Run(p, w + [end]).p.errno == InvalidVersion
  {
    hide Run, Feed, DecValue, MajorText, MinorText, MajorAt;
    var k := MajorAt(w);
    MajorIsSame(w, end);
    assert !VersionAt(w, k);
    if k == 0 || k == |w| || w[k] as int != 46 {
      BadMajor(p, w + [end], k);
    } else {
      BehindMajor(p, w, k, end);
    }
  }

  // ----- numbers -----

  /** The limits: 2^64 - 7 for a declared length, 2^64 - 17 for a chunk, 2^64 - 1 for no length,
      and 80 KiB of header bytes. */
  lemma Limits()
    ensures MAX_CONTENT_LENGTH == 18446744073709551609 && MAX_CHUNK_SIZE == 18446744073709551599
    ensures ULLONG_MAX == 18446744073709551615 && HTTP_MAX_HEADER_SIZE == 81920
  {
  }

  function DecimalOf(n: nat): seq<Byte> {
    (if n < 10 then [] else DecimalOf(n / 10)) + [(48 + n % 10) as char]
  }

  /** The decimal digits of a number read back as the number. */
  lemma {:induction false} DecimalRoundTrip(n: nat)
    ensures DecValue(DecimalOf(n)) == n
  {
    var ch: Byte := (48 + n % 10) as char;
    if n < 10 {
      DecValueSnoc([], ch);
    } else {
      DecimalRoundTrip(n / 10);
      DecValueSnoc(DecimalOf(n / 10), ch);
    }
  }

  /** The header bytes of a message are counted up to the limit; bodies are not counted. */
  lemma HeaderLimit(p: Parser, ch: Byte)
    requires p.errno == Ok
    ensures Feed(p, ch).ctl == Error && Feed(p, ch).p.errno == HeaderOverflow <==>
            p.nread >= 81920 &&
            p.state !in {ChunkData, ChunkDataAlmostDone, ChunkDataDone, BodyIdentity, MessageDone}
  {
    hide Micro;
    NoOverflow(CountHeader(p), ch);
  }

  lemma {:induction false} NoOverflow(p: Parser, ch: Byte)
    ensures React(p, ch).ctl == Error ==> React(p, ch).p.errno != HeaderOverflow
    decreases Rank(p.state)
  {
    hide Micro;
    ErrorsAre(p, ch);
    ReexecuteTerminates(p, ch);
    if Micro(p, ch).ctl == Reexecute {
      NoOverflow(Micro(p, ch).p, ch);
    }
  }

  // ----- errors -----

  /** The error of each state. */
  predicate ErrorOf(s: State, e: Errno) {
    match s
    case Dead => e == ClosedConnection
    case StartReq | ReqMethod => e == InvalidMethod
    case ReqHttpStart => e == InvalidConstant
    case ReqHttpH | ReqHttpHT | ReqHttpHTT | ReqHttpHTTP => e == Strict
    case ReqFirstHttpMajor | ReqHttpMajor | ReqFirstHttpMinor | ReqHttpMinor => e == InvalidVersion
    case ReqLineAlmostDone => e == LfExpected
    case HeaderFieldStart | HeaderField => e == InvalidHeaderToken
    case HeaderValueStart | HeaderValue => e == InvalidContentLength
    case HeaderAlmostDone | HeadersAlmostDone | HeadersDone => e == Strict
    case ChunkSizeStart => e == InvalidChunkSize
    case ChunkSize => e == InvalidChunkSize || e == InvalidContentLength
    case ChunkSizeAlmostDone | ChunkDataAlmostDone | ChunkDataDone => e == Strict
    case BodyIdentity | ChunkData => e == InvalidInternalState // excluded by the invariant
    case HeaderValueLws | ChunkParameters | MessageDone => false
    case _ => e == InvalidUrl
  }

  lemma ErrorsAre(p: Parser, ch: Byte)
    ensures Micro(p, ch).ctl == Error ==> ErrorOf(p.state, Micro(p, ch).p.errno)
  {
    hide MethodString, OtherMethod, FirstMethod, ParseUrlChar, Token, Unhex, FieldMatch, ValueMatch, PushDigit, Lower;
  }

  /** The bytes that do not end the parse in states that wait for a fixed byte. */
  predicate Awaited(s: State, n: int) {
    match s
    case Dead => n == 10 || n == 13
    case ReqHttpStart => n == 32 || n == 72
    case ReqHttpH => n == 84
    case ReqHttpHT => n == 84
    case ReqHttpHTT => n == 80
    case ReqHttpHTTP => n == 47
    case ReqLineAlmostDone => n == 10
    case HeaderFieldStart => TokenCode(n) || n == 10 || n == 13
    case HeaderField => TokenCode(n) || n == 10 || n == 13 || n == 58
    case HeaderAlmostDone => n == 10
    case HeadersAlmostDone => n == 10
    case HeadersDone => n == 10
    case ChunkSizeStart => DigitCode(n) || 65 <= n <= 70 || 97 <= n <= 102 || n >= 128
    case ChunkSizeAlmostDone => n == 10
    case ChunkDataAlmostDone => n == 13
    case ChunkDataDone => n == 10
    case _ => true
  }

  /** These states wait for certain bytes and refuse all others. */
  lemma AwaitedExactly(p: Parser, ch: Byte)
    requires p.state in {Dead, ReqHttpStart, ReqHttpH, ReqHttpHT, ReqHttpHTT, ReqHttpHTTP, ReqLineAlmostDone,
                         HeaderFieldStart, HeaderField, HeaderAlmostDone, HeaderValueLws, HeadersAlmostDone, HeadersDone,
                         ChunkSizeStart, ChunkParameters, ChunkSizeAlmostDone, ChunkDataAlmostDone, ChunkDataDone, MessageDone}
    ensures Micro(p, ch).ctl != Error <==> Awaited(p.state, ch as int)
  {
    hide MethodString, OtherMethod, FirstMethod, ParseUrlChar, Token, Unhex, FieldMatch, ValueMatch, PushDigit, Lower;
    TokenTable(ch);
    HexTable(ch);
  }

  /** Where a byte that is taken leads in the states that only follow the form of the text. */
  function Following(s: State, n: int): State {
    match s
    case Dead => Dead
    case ReqHttpStart => if n == 72 then ReqHttpH else ReqHttpStart
    case ReqHttpH => ReqHttpHT
    case ReqHttpHT => ReqHttpHTT
    case ReqHttpHTT => ReqHttpHTTP
    case ReqHttpHTTP => ReqFirstHttpMajor
    case ReqLineAlmostDone => HeaderFieldStart
    case HeaderFieldStart => if n == 10 || n == 13 then HeadersAlmostDone else HeaderField
    case HeaderField =>
      if n == 58 then HeaderValueStart else if n == 13 then HeaderAlmostDone
      else if n == 10 then HeaderFieldStart else HeaderField
    case HeaderValueStart =>
      if n == 32 || n == 9 then HeaderValueStart else if n == 13 then HeaderAlmostDone
      else if n == 10 then HeaderFieldStart else HeaderValue
    case HeaderValue => if n == 10 || n == 13 then HeaderAlmostDone else HeaderValue
    case HeaderAlmostDone => HeaderValueLws
    case HeaderValueLws => if n == 32 || n == 9 then HeaderValueStart else HeaderFieldStart
    case ChunkSizeStart => ChunkSize
    case ChunkSize => if n == 13 then ChunkSizeAlmostDone else if n == 59 || n == 32 then ChunkParameters else ChunkSize
    case ChunkParameters => if n == 13 then ChunkSizeAlmostDone else ChunkParameters
    case ChunkDataAlmostDone => ChunkDataDone
    case ChunkDataDone => ChunkSizeStart
    case _ => s
  }

  /** And whether the same byte is looked at again there: a line feed without a carriage return,
      and the first byte of a new line. */
  predicate LooksAgain(s: State, n: int) {
    || ((s.HeaderFieldStart? || s.HeaderValue?) && n == 10)
    || (s.HeaderValueLws? && n != 32 && n != 9)
  }

  predicate Follows(p: Parser, ch: Byte) {
    var o := Micro(p, ch);
    o.ctl != Error ==> o.p.state == Following(p.state, ch as int) && (o.ctl == Reexecute <==> LooksAgain(p.state, ch as int))
  }

  lemma HeaderFollows(p: Parser, ch: Byte)
    requires p.state in {HeaderFieldStart, HeaderField, HeaderValueStart, HeaderValue, HeaderAlmostDone, HeaderValueLws}
    ensures Follows(p, ch)
  {
    hide MicroMethod, MicroUrl, MicroVersion, MicroHeadersEnd, MicroChunk, MicroBody;
    hide Token, FieldMatch, ValueMatch, PushDigit, Lower;
    TokenTable(ch);
  }

  lemma OtherFollows(p: Parser, ch: Byte)
    requires p.state in {Dead, ReqHttpStart, ReqHttpH, ReqHttpHT, ReqHttpHTT, ReqHttpHTTP, ReqLineAlmostDone,
                         ChunkSizeStart, ChunkSize, ChunkParameters, ChunkDataAlmostDone, ChunkDataDone}
    ensures Follows(p, ch)
  {
    hide MicroUrl, MicroField, MicroValue, MicroHeadersEnd, Unhex, PushDigit;
    HexTable(ch);
  }

  lemma FollowingExactly(p: Parser, ch: Byte)
    requires p.state in {Dead, ReqHttpStart, ReqHttpH, ReqHttpHT, ReqHttpHTT, ReqHttpHTTP, ReqLineAlmostDone,
                         HeaderFieldStart, HeaderField, HeaderValueStart, HeaderValue, HeaderAlmostDone, HeaderValueLws,
                         ChunkSizeStart, ChunkSize, ChunkParameters, ChunkDataAlmostDone, ChunkDataDone}
    ensures var o := Micro(p, ch);
            o.ctl != Error ==> o.p.state == Following(p.state, ch as int) && (o.ctl == Reexecute <==> LooksAgain(p.state, ch as int))
  {
    hide Micro, Following, LooksAgain;
    if p.state in {HeaderFieldStart, HeaderField, HeaderValueStart, HeaderValue, HeaderAlmostDone, HeaderValueLws} {
      HeaderFollows(p, ch);
    } else {
      OtherFollows(p, ch);
    }
  }

  /** A line without a colon is reported as a name without a value, and raises no flag. */
  lemma LineWithoutColon(p: Parser, s: seq<Byte>)
    requires p.state.HeaderFieldStart? && s != [] && TokenCodes(s) && p.nread + |s| + 2 <= 81920
    ensures var t := Run(p, s + ['\n']);
            t.ctl == Consume && t.p.state.HeaderFieldStart? && t.ev == DataEvents(Field, s) && SummaryOf(t.p) == SummaryOf(p)
    ensures var t := Run(p, s + ['\r', '\n']);
            t.ctl == Consume && t.p.state.HeaderValueLws? && t.ev == DataEvents(Field, s) && SummaryOf(t.p) == SummaryOf(p)
  {
    hide Run, Feed, HttpHeaders.Knows, LowerName, TokenCode;
    TokensAre(s);
    RunName(p, s);
    var q := Run(p, s).p;
    KnowsNames(q.headerState, q.index, LowerName(s));
    NameEnds(q);
    var ev := DataEvents(Field, s);
    GoByte(q, LF, q.(state := HeaderFieldStart, nread := q.nread + 1), []);
    GoOn(p, s, q, ev, [LF], q.(state := HeaderFieldStart, nread := q.nread + 1), []);
    var r := q.(state := HeaderAlmostDone, nread := q.nread + 1);
    GoByte(q, CR, r, []);
    GoByte(r, LF, r.(state := HeaderValueLws, nread := r.nread + 1), []);
    GoQuietly(q, [CR], r, [LF], r.(state := HeaderValueLws, nread := r.nread + 1));
    GoOn(p, s, q, ev, [CR] + [LF], r.(state := HeaderValueLws, nread := r.nread + 1), []);
    assert [CR] + [LF] == ['\r', '\n'] && ev + [] == ev;
  }

  /** The matcher for names is at work. */
  predicate NameMatching(h: HeaderState) { h !in {Chunked, KeepAlive, Close} }

  lemma KnowsNames(h: HeaderState, index: nat, pre: seq<Byte>)
    requires HttpHeaders.Knows(h, index, pre)
    ensures NameMatching(h)
  {
  }

  lemma NameEnds(q: Parser)
    requires q.state.HeaderField? && q.nread + 2 <= HTTP_MAX_HEADER_SIZE && NameMatching(q.headerState)
    ensures Feed(q, LF) == Out(q.(state := HeaderFieldStart, nread := q.nread + 1), [], Consume)
    ensures Feed(q, CR) == Out(q.(state := HeaderAlmostDone, nread := q.nread + 1), [], Consume)
    ensures var r := q.(state := HeaderAlmostDone, nread := q.nread + 1);
            Feed(r, LF) == Out(r.(state := HeaderValueLws, nread := r.nread + 1), [], Consume)
  {
    hide Feed, Token;
    TokenTable(LF);
    TokenTable(CR);
    FieldByte(q, LF);
    FieldByte(q, CR);
    ValueByte(q.(state := HeaderAlmostDone, nread := q.nread + 1), LF);
  }

  // ----- heads of requests -----

  predicate BlankText(s: seq<Byte>) { forall i | 0 <= i < |s| :: s[i] as int == 32 || s[i] as int == 9 }

  predicate EndText(s: seq<Byte>) { s == ['\r', '\n'] || s == ['\n'] }

  predicate LineText(v: seq<Byte>) {
    && v != [] && v[0] as int != 32 && v[0] as int != 9
    && forall i | 0 <= i < |v| :: v[i] as int != 13 && v[i] as int != 10
  }

  /** A number that fits 64 bits and is below the sentinel; blanks may stand anywhere in it. */
  predicate NumberText(v: seq<Byte>) {
    (forall i | 0 <= i < |v| :: DigitCode(v[i] as int) || v[i] as int == 32) && DecValue(v) <= 18446744073709551609
  }

  predicate FoldText(f: Fold, length: bool) {
    && f.blanks != [] && BlankText(f.blanks) && LineText(f.value) && EndText(f.eol)
    && (length ==> NumberText(f.value))
  }

  predicate HeaderText(h: Header) {
    var length := SameWord(h.name, "content-length") && h.value != [];
    && h.name != [] && TokenCodes(h.name) && BlankText(h.blanks) && EndText(h.eol)
    && (LineText(h.value) || (h.value == [] && (h.eol == ['\r', '\n'] || h.folds == [])))
    && (length ==> NumberText(h.value))
    && forall i | 0 <= i < |h.folds| :: FoldText(h.folds[i], length)
  }

  /** The head of a request, by the codes of its bytes. */
  ghost predicate HeadText(r: Request) {
    && Target(r.meth, r.url) && MajorText(r.version.major) && MinorText(r.version.minor)
    && EndText(r.eol) && EndText(r.end)
    && forall i | 0 <= i < |r.headers| :: HeaderText(r.headers[i])
  }

  lemma LineTextIs(v: seq<Byte>)
    ensures ValueText(v) <==> LineText(v)
    ensures LengthText(v) <==> NumberText(v)
  {
    hide DecValue;
  }

  lemma FoldTextIs(f: Fold, x: HeaderState)
    ensures FoldOkay(f, x) <==> FoldText(f, x == ContentLength)
  {
    hide ValueText, LineText, LengthText, NumberText;
    LineTextIs(f.value);
  }

  lemma HeaderTextIs(h: Header)
    ensures HeaderOkay(h) <==> HeaderText(h)
  {
    hide ValueText, LineText, LengthText, NumberText, FoldText, FoldOkay, SameWord, LowerName, HeaderOf, AllTokens, TokenCodes;
    NamesExactly(h.name);
    TokensAre(h.name);
    LineTextIs(h.value);
    forall i | 0 <= i < |h.folds|
      ensures FoldOkay(h.folds[i], Meaning(h)) <==> FoldText(h.folds[i], Meaning(h) == ContentLength)
    {
      FoldTextIs(h.folds[i], Meaning(h));
    }
  }

  lemma HeadExactly(r: Request)
    ensures HeadOkay(r) <==> HeadText(r)
  {
    hide UrlOkay, Target, HeaderOkay, HeaderText, Decimal, MajorText, MinorText;
    TargetExactly(r.meth, r.url);
    MajorExactly(r.version.major);
    MinorExactly(r.version.minor);
    forall i | 0 <= i < |r.headers| ensures HeaderOkay(r.headers[i]) <==> HeaderText(r.headers[i]) {
      HeaderTextIs(r.headers[i]);
    }
  }

  /** A request whose head is spelled by these codes, for example with a target of a slash and
      any printable bytes, is reported as it was written. */
  lemma TextRoundTrip(p: Parser, r: Request)
    requires p.state.StartReq? && p.errno == Ok && HeadText(r) && BodyOkay(r) && !Upgrades(r)
    requires p.nread + |Head(r)| <= 81920
    ensures var t := Run(p, Build(r));
            t.ctl == Consume && t.used == |Build(r)| && t.ev == Events(r) && Finished(t.p, r)
  {
    hide Run, HeadOkay, HeadText, BodyOkay, Head, Upgrades, Finished, Events;
    HeadExactly(r);
    RequestRoundTrip(p, r);
  }

  lemma OriginTarget(r: Request)
    requires r.meth != CONNECT && r.url != [] && r.url[0] as int == 47
    ensures Target(r.meth, r.url) <==> forall i | 0 <= i < |r.url| :: 33 <= r.url[i] as int <= 126
  {
    forall k: nat ensures !AbsoluteForm(r.url, k) {
      assert k > 0 && k <= |r.url| ==> r.url[..k][0] == r.url[0];
    }
  }
}
