/** Exactly which URLs `http_parser_parse_url` accepts. */
module HttpUrlLanguage {
  import opened HttpSyntax
  import opened HttpStep
  import opened HttpRequest
  import opened HttpNumbers
  import opened HttpUrl
  import opened HttpTargets
  import opened HttpWords
  import opened HttpHosts
  import HttpUrlBuild

  // ----- the accepted URLs -----

  /** The authority ends at the first slash (47) or question mark (63). */
  function AuthorityEnd(w: seq<Byte>): (e: nat)
    ensures e <= |w| && (e < |w| ==> w[e] as int == 47 || w[e] as int == 63)
    ensures forall i | 0 <= i < e :: w[i] as int != 47 && w[i] as int != 63
  {
    if w == [] || w[0] as int == 47 || w[0] as int == 63 then 0 else 1 + AuthorityEnd(w[1..])
  }

  /** In the authority `v` the host begins at `c`, behind userinfo and an at sign (64) or not,
      and the port at `q`, where 0 stands for none. */
  predicate Places(v: seq<Byte>, c: nat, q: nat) {
    && c <= |v|
    && (c > 0 ==> v[c - 1] as int == 64 && forall i | 0 <= i < c - 1 :: UserinfoCode(v[i] as int))
    && if q == 0 then PlainHost(v[c..]) else c < q && PortAt(v[c..], q - 1 - c)
  }

  /** The digits from `i` on, as far as they go in memory, are a port number. */
  predicate PortFits(mem: seq<Byte>, i: nat)
    requires i <= |mem|
  {
    DecValue(mem[i..i + Digits(mem, i)]) <= 65535
  }

  /** Nothing but a question mark and number signs (35). */
  predicate Marks(t: seq<Byte>) {
    t == [] || (t[0] as int == 63 && forall i | 0 < i < |t| :: t[i] as int == 35)
  }

  /** An authority begins at `b`.  For CONNECT it has a port and no userinfo, and nothing
      follows it. */
  ghost predicate AuthorityAt(mem: seq<Byte>, b: nat, n: nat, isConnect: bool)
    requires b <= n <= |mem|
  {
    var w := mem[b..n];
    var e := AuthorityEnd(w);
    && Printable(w[e..])
    && (isConnect ==> Marks(w[e..]))
    && exists c: nat, q: nat :: Fitting(mem, b, w[..e], c, q, isConnect)
  }

  predicate Fitting(mem: seq<Byte>, b: nat, v: seq<Byte>, c: nat, q: nat, isConnect: bool) {
    && b + |v| <= |mem| && Places(v, c, q) && q <= |v|
    && (q > 0 ==> PortFits(mem, b + q))
    && (isConnect ==> c <= 1 && q > 0)
  }

  ghost predicate WithSchema(mem: seq<Byte>, n: nat, k: nat)
    requires n <= |mem|
  {
    0 < k && k + 3 <= n && HttpTargets.Letters(mem[..k]) && SlashesAt(mem[..n], k) && AuthorityAt(mem, k + 3, n, false)
  }

  /** The first `n` bytes of the memory are an accepted URL. */
  ghost predicate Accepted(mem: seq<Byte>, n: nat, isConnect: bool)
    requires n <= |mem|
  {
    if isConnect then AuthorityAt(mem, 0, n, true)
    else
      || n == 0
      || ((mem[0] as int == 47 || mem[0] as int == 42) && Printable(mem[..n]))
      || exists k: nat :: WithSchema(mem, n, k)
  }

  // ----- the scan -----

  lemma {:induction false} ScanStates(sc: Scan, w: seq<Byte>)
    ensures ScanAll(sc, w).s == UrlState(sc.s, w)
  {
    hide ParseUrlChar;
    if w != [] {
      ScanStates(sc, w[..|w| - 1]);
      HttpTargets.DeadStays(w[|w| - 1]);
    }
  }

  lemma {:induction false} ServerScan(sc: Scan, v: seq<Byte>)
    requires sc.s == ReqServerStart && sc.oldUf != UF_HOST && v != [] && ServerPart(v) && sc.i + |v| <= 65535
    ensures ScanAll(sc, v) ==
            Scan(if v[|v| - 1] as int == 64 then ReqServerWithAt else ReqServer, UF_HOST, sc.at || '@' in v,
                 HttpUrlBuild.With(sc.u, UF_HOST, sc.i, |v|), sc.i + |v|)
  {
    hide ParseUrlChar, U16, ServerPart;
    var n := |v| - 1;
    assert v == v[..n] + [v[n]];
    ServerPartSnoc(v[..n], v[n]);
    SlashIsNoServer();
    if n == 0 {
      assert v[..0] == [] && ScanAll(sc, []) == sc;
      ServerByte(ReqServerStart, v[0]);
    } else {
      ServerScan(sc, v[..n]);
      ServerByte(if v[n - 1] as int == 64 then ReqServerWithAt else ReqServer, v[n]);
    }
  }

  lemma SlashIsNoServer()
    ensures !ServerCode(47) && !ServerCode(63) && ServerCode(64)
  {
  }

  predicate TailField(u: ParsedUrl) { UF_PATH in u.fields || UF_QUERY in u.fields || UF_FRAGMENT in u.fields }

  /** Only path, query and fragment differ. */
  predicate SameFront(u: ParsedUrl, v: ParsedUrl) {
    && v.data[UF_HOST] == u.data[UF_HOST]
    && forall f: Field | f in {UF_SCHEMA, UF_HOST, UF_PORT, UF_USERINFO} :: f in v.fields <==> f in u.fields
  }

  /** The field of the byte before has been noted. */
  predicate Noted(sc: Scan) { sc.oldUf < UF_MAX ==> sc.oldUf in sc.u.fields }

  lemma TailStep(sc: Scan, ch: Byte)
    requires InTail(sc.s) && 33 <= ch as int <= 126 && Noted(sc)
    ensures var r := ScanStep(sc, ch);
            && Noted(r) && InTail(r.s) && r.at == sc.at && SameFront(sc.u, r.u) && (TailField(sc.u) ==> TailField(r.u))
            && (sc.s in {ReqQueryStringStart, ReqFragmentStart} ==>
                  if ch as int == 35 then r.s == ReqFragmentStart && r.u == sc.u else TailField(r.u))
  {
    hide ParseUrlChar, U16;
    TailByte(sc.s, ch);
  }

  lemma {:induction false} TailKeeps(sc: Scan, t: seq<Byte>)
    requires InTail(sc.s) && Printable(t) && Noted(sc)
    ensures var r := ScanAll(sc, t);
            && Noted(r) && InTail(r.s) && r.at == sc.at && SameFront(sc.u, r.u) && (TailField(sc.u) ==> TailField(r.u))
            && (sc.s in {ReqQueryStringStart, ReqFragmentStart} ==>
                  if forall i | 0 <= i < |t| :: t[i] as int == 35 then
                    r.s in {sc.s, ReqFragmentStart} && r.u == sc.u
                  else TailField(r.u))
  {
    hide ScanStep, SameFront, TailField, Noted;
    if t == [] {
      SameAsItself(sc.u);
    } else {
      var n := |t| - 1;
      TailKeeps(sc, t[..n]);
      var m := ScanAll(sc, t[..n]);
      TailStep(m, t[n]);
      FrontTransitive(sc.u, m.u, ScanStep(m, t[n]).u);
      assert (forall i | 0 <= i < |t| :: t[i] as int == 35) <==>
             (forall i | 0 <= i < n :: t[..n][i] as int == 35) && t[n] as int == 35;
    }
  }

  lemma SameAsItself(u: ParsedUrl)
    ensures SameFront(u, u)
  {
  }

  lemma FrontTransitive(u: ParsedUrl, v: ParsedUrl, w: ParsedUrl)
    requires SameFront(u, v) && SameFront(v, w)
    ensures SameFront(u, w)
  {
  }

  /** The slash or question mark behind an authority, empty or not. */
  lemma FirstTailByte(sc: Scan, ch: Byte)
    requires InServer(sc.s) && (ch as int == 47 || ch as int == 63) && sc.oldUf in {UF_HOST, UF_SCHEMA, UF_MAX} && Noted(sc)
    ensures var r := ScanStep(sc, ch);
            && Noted(r) && r.at == sc.at && SameFront(sc.u, r.u)
            && if ch as int == 63 then r.s == ReqQueryStringStart && r.u == sc.u else r.s == ReqPath && TailField(r.u)
  {
    hide ParseUrlChar, U16;
    ServerByte(sc.s, ch);
  }

  lemma BehindAuthority(sc: Scan, t: seq<Byte>)
    requires InServer(sc.s) && sc.oldUf in {UF_HOST, UF_SCHEMA, UF_MAX} && Noted(sc)
    requires t != [] ==> (t[0] as int == 47 || t[0] as int == 63)
    requires Printable(t)
    ensures var r := ScanAll(sc, t);
            && !r.s.Dead? && r.at == sc.at && SameFront(sc.u, r.u)
            && if Marks(t) then r.u.fields == sc.u.fields else TailField(r.u)
  {
    hide ScanAll, ScanStep, SameFront, TailField, Noted;
    if t == [] {
      HttpUrl.ScanNone(sc);
      SameAsItself(sc.u);
    } else {
      assert t == [t[0]] + t[1..];
      HttpUrlBuild.ScanAppend(sc, [t[0]], t[1..]);
      HttpUrlBuild.ScanOne(sc, t[0]);
      FirstTailByte(sc, t[0]);
      PrintableTail(t);
      var m := ScanStep(sc, t[0]);
      TailKeeps(m, t[1..]);
      FrontTransitive(sc.u, m.u, ScanAll(m, t[1..]).u);
      assert (forall i | 0 < i < |t| :: t[i] as int == 35) <==> (forall i | 0 <= i < |t| - 1 :: t[1..][i] as int == 35) by {
        assert forall i | 0 < i < |t| :: t[i] == t[1..][i - 1];
      }
    }
  }

  // ----- the host part -----

  lemma PlainIsNoAt(v: seq<Byte>)
    requires PlainHost(v)
    ensures ServerPart(v) && '@' !in v
  {
    if NameText(v) {
      assert forall i | 0 <= i < |v| :: HostCode(v[i] as int);
    } else {
      var n := |v| - 1;
      assert forall i | 0 < i < n :: v[i] == v[1..n][i - 1];
      forall i | 0 <= i < |v| ensures ServerCode(v[i] as int) && v[i] as int != 64 {
        if 0 < i < n {
          assert V6Code(v[1..n][i - 1] as int);
        }
      }
    }
  }

  lemma HostIsNoAt(v: seq<Byte>)
    requires PlainHost(v) || exists e: nat :: PortAt(v, e)
    ensures ServerPart(v) && '@' !in v
  {
    hide PlainHost;
    if PlainHost(v) {
      PlainIsNoAt(v);
    } else {
      var e: nat :| PortAt(v, e);
      PlainIsNoAt(v[..e]);
      forall i | 0 <= i < |v| ensures ServerCode(v[i] as int) && v[i] as int != 64 {
        if i < e {
          assert v[..e][i] == v[i];
        } else if i > e {
          assert v[e + 1..][i - e - 1] == v[i];
        }
      }
    }
  }

  lemma PlacesAre(v: seq<Byte>, c: nat, q: nat)
    requires Places(v, c, q)
    ensures ServerPart(v) && v != [] && ('@' in v <==> c > 0) && q <= |v| && AuthorityText(v, c > 0)
    ensures forall i | 0 <= i < |v| :: v[i] as int == 64 ==> i == c - 1
  {
    hide PlainHost;
    var h := v[c..];
    if q > 0 { assert PortAt(h, q - 1 - c); }
    HostIsNoAt(h);
    NotEmpty(h);
    NoBracket(0);
    forall i | 0 <= i < |v| ensures ServerCode(v[i] as int) && (v[i] as int == 64 ==> i == c - 1) {
      if i >= c {
        assert v[i] == h[i - c];
      }
    }
    if c == 0 {
      assert h == v;
    } else {
      assert UserinfoAt(v, c - 1);
    }
  }

  lemma NotEmpty(h: seq<Byte>)
    requires PlainHost(h) || exists e: nat :: PortAt(h, e)
    ensures h != []
  {
  }

  /** A host part is one with places. */
  lemma PlacesExist(v: seq<Byte>)
    ensures AuthorityText(v, '@' in v) <==> exists c: nat, q: nat :: Places(v, c, q)
  {
    hide PlainHost;
    if c: nat, q: nat :| Places(v, c, q) {
      PlacesAre(v, c, q);
    }
    if AuthorityText(v, '@' in v) {
      var c: nat := 0;
      if '@' in v {
        var k: nat :| UserinfoAt(v, k);
        c := k + 1;
      } else {
        assert v[0..] == v;
      }
      var h := v[c..];
      if PlainHost(h) {
        assert Places(v, c, 0);
      } else {
        var e: nat :| PortAt(h, e);
        assert Places(v, c, c + 1 + e);
      }
    }
  }

  /** What the host part adds to the fields, and where the port begins. */
  ghost predicate Added(u: ParsedUrl, r: ParsedUrl, b: nat, c: nat, q: nat) {
    && r.fields == u.fields + (if c > 1 then {UF_USERINFO} else {}) + (if q > 0 then {UF_PORT} else {})
    && (q > 0 ==> r.data[UF_PORT].off == b + q)
  }

  lemma PlainRun(h: HostScan, v: seq<Byte>)
    requires PlainHost(v) && h.s == HostStart && h.u.data[UF_HOST].len == 0 && h.i + |v| <= 65535
    ensures var r := HostAll(h, v);
            (r.s == HostName || r.s == HostV6End) && r.i == h.i + |v| && r.u.fields == h.u.fields
  {
    hide HostAll;
    if NameText(v) {
      assert HttpUrlBuild.AllHost(v) by {
        forall i | 0 <= i < |v| ensures IsHostChar(v[i]) { HostTable(v[i]); }
      }
      HttpUrlBuild.NameRun(h, v);
    } else {
      var n := |v| - 1;
      var t := v[1..n];
      assert HttpUrlBuild.AllV6(t) by {
        forall i | 0 <= i < |t| ensures HttpUrlBuild.IsV6(t[i]) { HostTable(t[i]); }
      }
      assert v == ['['] + t + [']'];
      HttpUrlBuild.BracketsRun(h, t);
    }
  }

  lemma HostRun(h: HostScan, v: seq<Byte>, q: nat)
    requires if q == 0 then PlainHost(v) else PortAt(v, q - 1)
    requires h.s == HostStart && h.u.data[UF_HOST].len == 0 && h.i + |v| <= 65535
    ensures var r := HostAll(h, v);
            HostMayEnd(r.s) && Added(h.u, r.u, h.i, 0, q)
  {
    hide HostAll, PlainHost;
    if q == 0 {
      PlainRun(h, v);
    } else {
      var a, d := v[..q - 1], v[q..];
      PlainRun(h, a);
      assert HttpUrlBuild.AllNum(d) by {
        forall i | 0 <= i < |d| ensures IsNum(d[i]) { HostTable(d[i]); }
      }
      assert v == a + HttpUrlBuild.Lead(':', d);
      HttpUrlBuild.HostAppend(h, a, HttpUrlBuild.Lead(':', d));
      HttpUrlBuild.PortPartRun(HostAll(h, a), d);
    }
  }

  lemma UserinfoRuns(h: HostScan, v: seq<Byte>)
    requires h.s == UserinfoStart && (forall i | 0 <= i < |v| :: UserinfoCode(v[i] as int)) && h.i + |v| + 1 <= 65535
    ensures var r := HostAll(h, v + ['@']);
            && r.s == HostStart && r.i == h.i + |v| + 1 && r.u.data[UF_HOST] == h.u.data[UF_HOST]
            && r.u.fields == h.u.fields + if v == [] then {} else {UF_USERINFO}
  {
    hide HostAll, UserinfoCode;
    if v == [] {
      assert v + ['@'] == ['@'];
      HttpUrlBuild.HostOne(h, '@');
    } else {
      assert HttpUrlBuild.AllUserinfo(v) by {
        forall i | 0 <= i < |v| ensures IsUserinfoChar(v[i]) { UserinfoIs(v[i]); }
      }
      HttpUrlBuild.UserinfoRun(h, v);
      HttpUrlBuild.HostAppend(h, v, ['@']);
      HttpUrlBuild.HostOne(HostAll(h, v), '@');
    }
  }

  lemma UserinfoIs(ch: Byte)
    ensures IsUserinfoChar(ch) <==> UserinfoCode(ch as int)
  {
    HostTable(ch);
  }

  lemma PlacesRun(u: ParsedUrl, v: seq<Byte>, c: nat, q: nat)
    requires Places(v, c, q) && u.data[UF_HOST].off + |v| <= 65535
    ensures var r := HostAll(HostBegin(u, c > 0), v);
            HostMayEnd(r.s) && Added(u, r.u, u.data[UF_HOST].off, c, q)
  {
    hide HostAll, PlainHost, PortAt, HostMayEnd;
    var h := HostBegin(u, c > 0);
    if c == 0 {
      assert v[0..] == v;
      HostRun(h, v, q);
    } else {
      var a := v[..c - 1];
      assert a + ['@'] == v[..c] && v[..c] + v[c..] == v;
      UserinfoRuns(h, a);
      HttpUrlBuild.HostAppend(h, v[..c], v[c..]);
      HostRun(HostAll(h, v[..c]), v[c..], if q == 0 then 0 else q - c);
    }
  }

  // ----- the whole URL -----

  /** The scan at the start of an authority at `b`. */
  ghost predicate AtAuthority(mem: seq<Byte>, b: nat, isConnect: bool, prior: ParsedUrl, sc: Scan) {
    && b <= |mem| && ScanAll(ScanStart(isConnect, prior), mem[..b]) == sc
    && sc.s == ReqServerStart && sc.i == b && !sc.at && sc.u.port == 0
    && sc.u.data[UF_HOST] == prior.data[UF_HOST] && prior.data[UF_HOST].len == 0
    && if isConnect then b == 0 && sc.oldUf == UF_MAX && sc.u.fields == {}
       else b > 0 && sc.oldUf == UF_SCHEMA && sc.u.fields == {UF_SCHEMA}
  }

  /** The scan over an authority and what follows it is over `w`, from `b` to `n`. */
  lemma ScanBehind(mem: seq<Byte>, b: nat, n: nat, isConnect: bool, prior: ParsedUrl, sc: Scan)
    requires AtAuthority(mem, b, isConnect, prior, sc) && b <= n <= |mem|
    ensures ScanAll(ScanStart(isConnect, prior), mem[..n]) == ScanAll(sc, mem[b..n])
  {
    hide ScanAll;
    assert mem[..n] == mem[..b] + mem[b..n];
    HttpUrlBuild.ScanAppend(ScanStart(isConnect, prior), mem[..b], mem[b..n]);
  }

  /** The scan fails if and only if the authority or what follows it has a wrong byte. */
  lemma ScanLives(w: seq<Byte>)
    ensures var e := AuthorityEnd(w);
            UrlState(ReqServerStart, w).Dead? <==> !(ServerPart(w[..e]) && Printable(w[e..]))
  {
    hide UrlState, ServerPart, ServerCode;
    var e := AuthorityEnd(w);
    ServerExactly(w);
    EmptyIsServer();
    SlashIsNoServer();
    if e == |w| {
      assert w[..e] == w && w[e..] == [];
      forall f: nat ensures !TailFrom(w, f) { }
    } else {
      forall f: nat | TailFrom(w, f) ensures f == e {
        EndIsEnd(w, f);
      }
      assert TailFrom(w, e) <==> ServerPart(w[..e]) && Printable(w[e..]);
      if ServerPart(w) {
        SlashInside(w, e);
      }
    }
  }

  lemma EndIsEnd(w: seq<Byte>, f: nat)
    requires TailFrom(w, f)
    ensures f == AuthorityEnd(w)
  {
    var e := AuthorityEnd(w);
    SlashIsNoServer();
    assert forall i | 0 <= i < f :: w[..f][i] == w[i];
  }

  lemma SlashInside(w: seq<Byte>, e: nat)
    requires e < |w| && (w[e] as int == 47 || w[e] as int == 63)
    ensures !ServerPart(w)
  {
    SlashIsNoServer();
  }

  /** A whole authority with its tail. */
  lemma ScanWhole(sc: Scan, w: seq<Byte>)
    requires sc.s == ReqServerStart && sc.oldUf in {UF_SCHEMA, UF_MAX} && Noted(sc) && sc.i + |w| <= 65535
    requires var e := AuthorityEnd(w); ServerPart(w[..e]) && Printable(w[e..])
    ensures var e, r := AuthorityEnd(w), ScanAll(sc, w);
            && !r.s.Dead? && r.at == (sc.at || '@' in w[..e])
            && var u := if e == 0 then sc.u else HttpUrlBuild.With(sc.u, UF_HOST, sc.i, e);
               SameFront(u, r.u) && if Marks(w[e..]) then r.u.fields == u.fields else TailField(r.u)
  {
    hide ScanAll, ScanStep, ServerPart, Marks, TailField, SameFront, HttpUrlBuild.With;
    var e := AuthorityEnd(w);
    assert w == w[..e] + w[e..];
    HttpUrlBuild.ScanAppend(sc, w[..e], w[e..]);
    if e == 0 {
      HttpUrl.ScanNone(sc);
      BehindAuthority(sc, w[e..]);
    } else {
      ServerScan(sc, w[..e]);
      HttpUrlBuild.WithAt(sc.u, UF_HOST, sc.i, e, UF_HOST);
      BehindAuthority(ScanAll(sc, w[..e]), w[e..]);
    }
  }

  /** The places are the only ones: the scan finds one port and one userinfo. */
  lemma PlacesUnique(v: seq<Byte>, c: nat, q: nat, c': nat, q': nat)
    requires Places(v, c, q) && Places(v, c', q') && |v| <= 65535
    ensures c == c' && q == q'
  {
    hide HostAll, Places;
    PlacesAre(v, c, q);
    PlacesAre(v, c', q');
    AtSignAt(v, c, q);
    AtSignAt(v, c', q');
    var u := ParsedUrl({}, 0, seq(UF_MAX, i => Range(0, 0)));
    PlacesRun(u, v, c, q);
    PlacesRun(u, v, c', q');
  }

  lemma AtSignAt(v: seq<Byte>, c: nat, q: nat)
    requires Places(v, c, q)
    ensures c <= |v| && (c > 0 ==> v[c - 1] as int == 64)
  {
  }

  /** The end of the function, behind a host part with these places. */
  lemma FinishIs(mem: seq<Byte>, u: ParsedUrl, r: ParsedUrl, b: nat, c: nat, q: nat, isConnect: bool, marks: bool)
    requires Added(u, r, b, c, q) && r.data[UF_PORT].off <= |mem| && (q > 0 ==> b + q <= |mem|)
    requires UF_PORT !in u.fields && UF_USERINFO !in u.fields && UF_HOST in u.fields
    requires isConnect ==> if marks then u.fields == {UF_HOST} else TailField(u)
    ensures !HttpUrl.Finish(mem, r, isConnect).err <==>
            (q > 0 ==> PortFits(mem, b + q)) && (isConnect ==> marks && c <= 1 && q > 0)
  {
    hide DecValue;
    assert UF_USERINFO in r.fields <==> c > 1;
    assert UF_PORT in r.fields <==> q > 0;
    assert TailField(u) ==> TailField(r);
    if isConnect && marks && c <= 1 && q > 0 {
      assert r.fields == {UF_HOST, UF_PORT};
    }
  }

  /** The authority has places. */
  lemma HostPlaced(mem: seq<Byte>, b: nat, v: seq<Byte>, u: ParsedUrl, c: nat, q: nat, isConnect: bool, marks: bool)
    requires Readable(u, mem) && b + |v| <= |mem| && v == mem[b..b + |v|] && u.data[UF_HOST] == Range(b, |v|) && b + |v| <= 65535
    requires Places(v, c, q)
    requires UF_PORT !in u.fields && UF_USERINFO !in u.fields && UF_HOST in u.fields
    requires isConnect ==> if marks then u.fields == {UF_HOST} else TailField(u)
    ensures var h := HttpUrl.ParseHost(mem, u, c > 0);
            && !h.err && Readable(h.u, mem)
            && (!HttpUrl.Finish(mem, h.u, isConnect).err <==> Fitting(mem, b, v, c, q, isConnect) && (isConnect ==> marks))
  {
    hide HostAll, HttpUrl.Finish, Places, Readable, HostMayEnd;
    PlacesAre(v, c, q);
    PlacesRun(u, v, c, q);
    HostReadable(mem, u, c > 0);
    var h := HttpUrl.ParseHost(mem, u, c > 0);
    ReadablePort(h.u, mem);
    FinishIs(mem, u, h.u, b, c, q, isConnect, marks);
  }

  lemma ReadablePort(u: ParsedUrl, mem: seq<Byte>)
    requires Readable(u, mem)
    ensures u.data[UF_PORT].off <= |mem|
  {
  }

  /** No places: the host part is refused. */
  lemma HostMisplaced(mem: seq<Byte>, u: ParsedUrl, v: seq<Byte>)
    requires Readable(u, mem) && v == mem[u.data[UF_HOST].off..u.data[UF_HOST].off + u.data[UF_HOST].len]
    requires forall c: nat, q: nat :: !Places(v, c, q)
    ensures HttpUrl.ParseHost(mem, u, '@' in v).err
  {
    hide HttpUrl.ParseHost, AuthorityText, Places;
    HostDecided(mem, u, '@' in v);
    PlacesExist(v);
  }

  lemma NothingPlaced()
    ensures forall c: nat, q: nat :: !Places([], c, q)
  {
    forall c: nat, q: nat ensures !Places([], c, q) {
      if Places([], c, q) {
        PlacesAre([], c, q);
      }
    }
  }

  /** A host part that is empty is refused. */
  lemma EmptyHost(mem: seq<Byte>, u: ParsedUrl)
    requires Readable(u, mem) && u.data[UF_HOST].len == 0
    ensures HttpUrl.ParseHost(mem, u, false).err
  {
    hide HttpUrl.ParseHost, Places;
    NothingPlaced();
    HostMisplaced(mem, u, []);
  }

  /** Without an authority a URL is refused. */
  lemma NoAuthority(mem: seq<Byte>, u: ParsedUrl, isConnect: bool)
    requires Readable(u, mem) && u.data[UF_HOST].len == 0 && UF_HOST !in u.fields && (UF_SCHEMA in u.fields <==> !isConnect)
    ensures if isConnect then u.fields * {UF_SCHEMA, UF_HOST} == {} && HttpUrl.Finish(mem, u, true).err
            else u.fields * {UF_SCHEMA, UF_HOST} != {} && HttpUrl.ParseHost(mem, u, false).err
  {
    hide HttpUrl.ParseHost;
    EmptyHost(mem, u);
    if !isConnect {
      assert UF_SCHEMA in u.fields * {UF_SCHEMA, UF_HOST};
    }
  }

  /** The host part, and the end of the function. */
  lemma HostAndFinish(mem: seq<Byte>, b: nat, v: seq<Byte>, u: ParsedUrl, isConnect: bool, marks: bool)
    requires Readable(u, mem) && b + |v| <= |mem| && v == mem[b..b + |v|] && u.data[UF_HOST] == Range(b, |v|) && b + |v| <= 65535
    requires UF_PORT !in u.fields && UF_USERINFO !in u.fields && UF_HOST in u.fields
    requires isConnect ==> if marks then u.fields == {UF_HOST} else TailField(u)
    ensures var h := HttpUrl.ParseHost(mem, u, '@' in v);
            && Readable(h.u, mem)
            && (!h.err && !HttpUrl.Finish(mem, h.u, isConnect).err <==>
                (isConnect ==> marks) && exists c: nat, q: nat :: Fitting(mem, b, v, c, q, isConnect))
  {
    hide HttpUrl.ParseHost, HttpUrl.Finish, Readable, Places, Fitting;
    HostReadable(mem, u, '@' in v);
    forall c: nat, q: nat | Fitting(mem, b, v, c, q, isConnect) ensures Places(v, c, q) {
      FittingPlaces(mem, b, v, c, q, isConnect);
    }
    if c: nat, q: nat :| Places(v, c, q) {
      PlacesAre(v, c, q);
      HostPlaced(mem, b, v, u, c, q, isConnect, marks);
      forall c': nat, q': nat | Fitting(mem, b, v, c', q', isConnect) ensures Fitting(mem, b, v, c, q, isConnect) {
        PlacesUnique(v, c, q, c', q');
      }
    } else {
      HostMisplaced(mem, u, v);
    }
  }

  lemma FrontIs(sc: Scan, r: ParsedUrl, b: nat, e: nat, isConnect: bool, marks: bool)
    requires sc.u.fields == if isConnect then {} else {UF_SCHEMA}
    requires var u := HttpUrlBuild.With(sc.u, UF_HOST, b, e);
             SameFront(u, r) && if marks then r.fields == u.fields else TailField(r)
    ensures r.data[UF_HOST] == Range(b, e)
    ensures UF_PORT !in r.fields && UF_USERINFO !in r.fields && UF_HOST in r.fields
    ensures isConnect ==> if marks then r.fields == {UF_HOST} else TailField(r)
  {
    assert forall f: Field | f in {UF_SCHEMA, UF_HOST, UF_PORT, UF_USERINFO} ::
        f in r.fields <==> f in HttpUrlBuild.With(sc.u, UF_HOST, b, e).fields;
  }

  /** From the start of an authority on. */
  lemma FromAuthority(mem: seq<Byte>, b: nat, n: nat, isConnect: bool, prior: ParsedUrl, sc: Scan)
    requires b <= n <= |mem| && n <= 65535 && Readable(prior, mem) && AtAuthority(mem, b, isConnect, prior, sc)
    ensures !HttpUrl.ParseUrl(mem, n, isConnect, prior).err <==> AuthorityAt(mem, b, n, isConnect)
  {
    hide ScanAll, HttpUrl.ParseHost, HttpUrl.Finish, Readable, ServerPart, Printable, Marks, Places, Fitting, HttpUrlBuild.With;
    var w := mem[b..n];
    var e := AuthorityEnd(w);
    var v := w[..e];
    var r := ScanAll(sc, w);
    ScanBehind(mem, b, n, isConnect, prior, sc);
    ScanReadable(mem, n, isConnect, prior);
    ScanStates(sc, w);
    ScanLives(w);
    forall c: nat, q: nat | Fitting(mem, b, v, c, q, isConnect) ensures Places(v, c, q) && ServerPart(v) {
      FittingPlaces(mem, b, v, c, q, isConnect);
      PlacesAre(v, c, q);
    }
    if !r.s.Dead? {
      ScanWhole(sc, w);
      if e == 0 {
        assert v == [];
        NothingPlaced();
        NoAuthority(mem, r.u, isConnect);
      } else {
        HttpUrlBuild.WithAt(sc.u, UF_HOST, b, e, UF_HOST);
        assert v == mem[b..b + |v|];
        FrontIs(sc, r.u, b, e, isConnect, Marks(w[e..]));
        assert UF_HOST in r.u.fields * {UF_SCHEMA, UF_HOST};
        HostAndFinish(mem, b, v, r.u, isConnect, Marks(w[e..]));
      }
    }
  }

  lemma FittingPlaces(mem: seq<Byte>, b: nat, v: seq<Byte>, c: nat, q: nat, isConnect: bool)
    requires Fitting(mem, b, v, c, q, isConnect)
    ensures Places(v, c, q)
  {
  }

  // ----- URLs without CONNECT -----

  lemma ScanDead(sc: Scan, w: seq<Byte>)
    requires sc.s.Dead?
    ensures ScanAll(sc, w).s.Dead?
  {
    ScanStates(sc, w);
    DeadForever(w);
  }

  /** The delimiter bytes behind a schema. */
  lemma SchemaDelimiter(sc: Scan, ch: Byte)
    requires sc.s in {ReqSchema, ReqSchemaSlash} && (sc.s == ReqSchema ==> !Letter(ch as int))
    ensures var r := ScanStep(sc, ch);
            if ch as int == (if sc.s == ReqSchema then 58 else 47) then
              r == sc.(s := if sc.s == ReqSchema then ReqSchemaSlash else ReqSchemaSlashSlash, i := sc.i + 1)
            else r.s.Dead?
  {
    hide ParseUrlChar;
    SchemaByte(sc.s, ch);
  }

  /** Behind the letters at the start there is no `://`: the scan fails, or has found just the
      schema. */
  lemma SchemaOnly(sc: Scan, t: seq<Byte>)
    requires sc.s == ReqSchema && (t != [] ==> !Letter(t[0] as int)) && !SlashesAt(t, 0)
    ensures var r := ScanAll(sc, t); r.s.Dead? || (r.u == sc.u && r.at == sc.at)
  {
    hide ScanAll, ScanStep;
    HttpUrl.ScanNone(sc);
    if t != [] {
      var m := ScanStep(sc, t[0]);
      SchemaDelimiter(sc, t[0]);
      Onward(sc, t);
      if m.s.Dead? {
        ScanDead(m, t[1..]);
      } else if |t| == 1 {
        HttpUrl.ScanNone(m);
      } else {
        var m' := ScanStep(m, t[1]);
        SchemaDelimiter(m, t[1]);
        Onward(m, t[1..]);
        if m'.s.Dead? {
          ScanDead(m', t[1..][1..]);
        } else if |t| == 2 {
          assert t[1..][1..] == [];
          HttpUrl.ScanNone(m');
        } else {
          ThirdSlash(m', t[1..][1..]);
        }
      }
    }
  }

  lemma Onward(sc: Scan, t: seq<Byte>)
    requires t != []
    ensures ScanAll(sc, t) == ScanAll(ScanStep(sc, t[0]), t[1..])
  {
    hide ScanAll, ScanStep;
    assert t == [t[0]] + t[1..];
    HttpUrlBuild.ScanAppend(sc, [t[0]], t[1..]);
    HttpUrlBuild.ScanOne(sc, t[0]);
  }

  lemma ThirdSlash(sc: Scan, t: seq<Byte>)
    requires sc.s == ReqSchemaSlashSlash && t != [] && t[0] as int != 47
    ensures ScanAll(sc, t).s.Dead?
  {
    hide ScanAll, ParseUrlChar;
    SchemaByte(sc.s, t[0]);
    Onward(sc, t);
    ScanDead(ScanStep(sc, t[0]), t[1..]);
  }

  lemma SchemaFound(prior: ParsedUrl, w: seq<Byte>, k: nat)
    requires 0 < k <= |w| && HttpTargets.Letters(w[..k]) && k <= 65535
    ensures var sc := ScanStart(false, prior);
            ScanAll(sc, w[..k]) == Scan(ReqSchema, UF_SCHEMA, false, HttpUrlBuild.With(sc.u, UF_SCHEMA, 0, k), k)
  {
    hide ScanAll;
    AllLetters(w[..k]);
    assert HttpUrlBuild.RunsIn(ReqSpacesBeforeUrl, ReqSchema, w[..k]) by { HttpUrlBuild.SchemaRuns(w[..k]); }
    HttpUrlBuild.RunOpen(ScanStart(false, prior), ReqSchema, w[..k]);
  }

  lemma AllLetters(w: seq<Byte>)
    ensures HttpTargets.Letters(w) ==> HttpUrlBuild.AllAlpha(w)
  {
  }

  /** A URL that begins with letters. */
  lemma SchemaDecided(mem: seq<Byte>, n: nat, prior: ParsedUrl)
    requires 0 < n <= |mem| && n <= 65535 && Readable(prior, mem) && prior.data[UF_HOST].len == 0
    requires Letter(mem[0] as int)
    ensures !HttpUrl.ParseUrl(mem, n, false, prior).err <==> exists k: nat :: WithSchema(mem, n, k)
  {
    hide ScanAll, HttpUrl.ParseUrl, Readable, AuthorityAt, Letter, HttpUrlBuild.With;
    var w := mem[..n];
    var k := LettersAt(w);
    forall j: nat | WithSchema(mem, n, j) ensures j == k {
      assert w[..j] == mem[..j];
      LettersEnd(w, j);
    }
    assert k > 0 && w[..k] == mem[..k];
    SchemaFound(prior, w, k);
    if SlashesAt(w, k) {
      var sc := ScanAll(ScanStart(false, prior), mem[..k + 3]);
      AllLetters(w[..k]);
      assert mem[..k + 3] == w[..k] + HttpUrlBuild.COLON_SLASHES;
      HttpUrlBuild.SchemaScan(prior, w[..k]);
      HttpUrlBuild.WithAt(ScanStart(false, prior).u, UF_SCHEMA, 0, k, UF_HOST);
      assert AtAuthority(mem, k + 3, false, prior, sc) by { SchemaFields(prior, k); }
      FromAuthority(mem, k + 3, n, false, prior, sc);
      assert WithSchema(mem, n, k) <==> AuthorityAt(mem, k + 3, n, false);
    } else {
      assert w == w[..k] + w[k..];
      HttpUrlBuild.ScanAppend(ScanStart(false, prior), w[..k], w[k..]);
      var sc := ScanAll(ScanStart(false, prior), w[..k]);
      SchemaOnly(sc, w[k..]);
      HttpUrlBuild.WithAt(ScanStart(false, prior).u, UF_SCHEMA, 0, k, UF_HOST);
      SchemaFields(prior, k);
      SchemaRefused(mem, n, prior, sc.u);
    }
  }

  lemma LettersEnd(w: seq<Byte>, k: nat)
    requires k < |w| && HttpTargets.Letters(w[..k]) && w[k] as int == 58
    ensures k == LettersAt(w)
  {
    var n := LettersAt(w);
    assert forall i | 0 <= i < k :: w[..k][i] == w[i];
    assert forall i | 0 <= i < n :: w[..n][i] == w[i];
  }

  lemma SchemaFields(prior: ParsedUrl, k: nat)
    ensures var u := HttpUrlBuild.With(ScanStart(false, prior).u, UF_SCHEMA, 0, k);
            u.fields == {UF_SCHEMA} && u.port == 0
  {
  }

  /** Nothing but a schema: the URL is refused. */
  lemma SchemaRefused(mem: seq<Byte>, n: nat, prior: ParsedUrl, u: ParsedUrl)
    requires n <= |mem| && Readable(prior, mem)
    requires var r := ScanAll(ScanStart(false, prior), mem[..n]); r.s.Dead? || (r.u == u && !r.at)
    requires u.fields == {UF_SCHEMA} && u.data[UF_HOST].len == 0
    ensures HttpUrl.ParseUrl(mem, n, false, prior).err
  {
    hide ScanAll, HttpUrl.ParseHost, HttpUrl.Finish, Readable;
    ScanReadable(mem, n, false, prior);
    var r := ScanAll(ScanStart(false, prior), mem[..n]);
    if !r.s.Dead? {
      NoAuthority(mem, u, false);
    }
  }

  /** A URL that begins with a slash or an asterisk. */
  lemma PathDecided(mem: seq<Byte>, n: nat, prior: ParsedUrl)
    requires 0 < n <= |mem| && Readable(prior, mem) && (mem[0] as int == 47 || mem[0] as int == 42)
    ensures !HttpUrl.ParseUrl(mem, n, false, prior).err <==> Printable(mem[..n])
  {
    hide ScanAll, HttpUrl.ParseHost, Readable, Printable, TailField, InTail;
    var w := mem[..n];
    var sc := ScanStart(false, prior);
    var m := ScanStep(sc, w[0]);
    Onward(sc, w);
    FirstIsPath(sc, w[0]);
    PrintableTail(w);
    TailIsAlive();
    TailExactly(ReqPath, w[1..]);
    ScanStates(m, w[1..]);
    if Printable(w) {
      TailKeeps(m, w[1..]);
      var r := ScanAll(m, w[1..]);
      NoPort(mem, m.u, r.u);
    }
  }

  lemma TailIsAlive()
    ensures !InTail(Dead) && InTail(ReqPath)
  {
  }

  lemma FirstIsPath(sc: Scan, ch: Byte)
    requires sc.s == ReqSpacesBeforeUrl && sc.oldUf == UF_MAX && (ch as int == 47 || ch as int == 42)
    ensures var r := ScanStep(sc, ch); r.s == ReqPath && Noted(r) && r.u.fields == sc.u.fields + {UF_PATH}
  {
    hide ParseUrlChar, U16;
    SchemaByte(sc.s, ch);
  }

  lemma NoPort(mem: seq<Byte>, u: ParsedUrl, r: ParsedUrl)
    requires u.fields == {UF_PATH} && SameFront(u, r)
    ensures r.fields * {UF_SCHEMA, UF_HOST} == {} && UF_PORT !in r.fields
  {
    assert forall f: Field | f in {UF_SCHEMA, UF_HOST, UF_PORT, UF_USERINFO} :: f in r.fields <==> f in u.fields;
  }

  /** A first byte with which no URL begins. */
  lemma WrongStart(mem: seq<Byte>, n: nat, prior: ParsedUrl)
    requires 0 < n <= |mem| && Readable(prior, mem)
    requires mem[0] as int != 47 && mem[0] as int != 42 && !Letter(mem[0] as int)
    ensures HttpUrl.ParseUrl(mem, n, false, prior).err
  {
    hide ScanAll, HttpUrl.ParseHost, HttpUrl.Finish, Readable, Letter;
    var w := mem[..n];
    ScanStates(ScanStart(false, prior), w);
    FirstByte(w);
    DeadForever(w[1..]);
  }

  lemma NoSchema(mem: seq<Byte>, n: nat)
    requires 0 < n <= |mem| && !Letter(mem[0] as int)
    ensures forall k: nat :: !WithSchema(mem, n, k)
  {
    hide AuthorityAt;
    forall k: nat ensures !WithSchema(mem, n, k) {
      assert 0 < k <= n ==> mem[..k][0] == mem[0];
    }
  }

  lemma EmptyAccepted(mem: seq<Byte>, prior: ParsedUrl)
    requires Readable(prior, mem)
    ensures !HttpUrl.ParseUrl(mem, 0, false, prior).err
  {
    hide HttpUrl.ParseHost, Readable;
    assert mem[..0] == [];
    HttpUrl.ScanNone(ScanStart(false, prior));
  }

  /** With no host of an earlier call in the structure, exactly these URLs of at most 65535 bytes
      are accepted. */
  lemma UrlDecided(mem: seq<Byte>, n: nat, isConnect: bool, prior: ParsedUrl)
    requires n <= |mem| && n <= 65535 && Readable(prior, mem) && prior.data[UF_HOST].len == 0
    ensures !HttpUrl.ParseUrl(mem, n, isConnect, prior).err <==> Accepted(mem, n, isConnect)
  {
    hide HttpUrl.ParseUrl, ScanAll, Readable, AuthorityAt, WithSchema, Letter, Printable;
    if isConnect {
      var sc := ScanStart(true, prior);
      HttpUrl.ScanNone(sc);
      assert mem[..0] == [];
      FromAuthority(mem, 0, n, true, prior, sc);
    } else if n == 0 {
      EmptyAccepted(mem, prior);
    } else if Letter(mem[0] as int) {
      SchemaDecided(mem, n, prior);
      SlashIsNoLetter();
    } else {
      NoSchema(mem, n);
      if mem[0] as int == 47 || mem[0] as int == 42 {
        PathDecided(mem, n, prior);
      } else {
        WrongStart(mem, n, prior);
      }
    }
  }

  lemma SlashIsNoLetter()
    ensures !Letter(47) && !Letter(42)
  {
  }
}
