/** Taking apart a URL that was put together from its components. */
module HttpUrlBuild {
  import opened HttpSyntax
  import opened HttpStep
  import opened HttpNumbers
  import opened HttpUrl

  // ----- putting a URL together -----

  datatype HostText = Name(text: seq<Byte>) | V6(text: seq<Byte>)

  /** The components; an empty one is absent.  Without a schema there is no host either. */
  datatype Parts = Parts(
    schema: seq<Byte>, userinfo: seq<Byte>, host: HostText, port: seq<Byte>,
    path: seq<Byte>, query: seq<Byte>, fragment: seq<Byte>)

  predicate AllAlpha(s: seq<Byte>) { forall i | 0 <= i < |s| :: IsAlpha(s[i]) }

  predicate AllUserinfo(s: seq<Byte>) { forall i | 0 <= i < |s| :: IsUserinfoChar(s[i]) }

  predicate AllHost(s: seq<Byte>) { forall i | 0 <= i < |s| :: IsHostChar(s[i]) }

  predicate IsV6(c: Byte) { IsHex(c) || c == ':' || c == '.' }

  predicate AllV6(s: seq<Byte>) { forall i | 0 <= i < |s| :: IsV6(s[i]) }

  predicate AllNum(s: seq<Byte>) { forall i | 0 <= i < |s| :: IsNum(s[i]) }

  predicate AllUrl(s: seq<Byte>) { forall i | 0 <= i < |s| :: IsUrlChar(s[i]) }

  predicate AllQuery(s: seq<Byte>) { forall i | 0 <= i < |s| :: IsUrlChar(s[i]) || s[i] == '?' }

  predicate AllFragment(s: seq<Byte>) { forall i | 0 <= i < |s| :: IsUrlChar(s[i]) || s[i] == '?' || s[i] == '#' }

  predicate HostOkay(h: HostText) {
    h.text != [] && match h case Name(t) => AllHost(t) case V6(t) => AllV6(t)
  }

  predicate AuthorityOkay(p: Parts) {
    AllUserinfo(p.userinfo) && HostOkay(p.host) && AllNum(p.port) && DecValue(p.port) <= 0xffff
  }

  predicate TailOkay(p: Parts) {
    && AllUrl(p.path) && (p.path != [] ==> p.path[0] == '/')
    && AllQuery(p.query)
    && AllFragment(p.fragment) && (p.fragment != [] ==> p.fragment[0] != '#')
    && (p.fragment != [] && p.query == [] ==> p.path != [])
  }

  predicate WellFormed(p: Parts) {
    && (if p.schema != [] then AllAlpha(p.schema) && AuthorityOkay(p) else p.path != [])
    && TailOkay(p)
  }

  function Lead(c: Byte, s: seq<Byte>): seq<Byte> { if s == [] then [] else [c] + s }

  function UserinfoPart(p: Parts): seq<Byte> { if p.userinfo == [] then [] else p.userinfo + ['@'] }

  function HostPart(h: HostText): seq<Byte> {
    match h case Name(t) => t case V6(t) => ['['] + t + [']']
  }

  function Authority(p: Parts): seq<Byte> { UserinfoPart(p) + (HostPart(p.host) + Lead(':', p.port)) }

  const COLON_SLASHES: seq<Byte> := "://"

  function Origin(p: Parts): seq<Byte> {
    if p.schema == [] then [] else p.schema + COLON_SLASHES + Authority(p)
  }

  function Tail(p: Parts): seq<Byte> { p.path + Lead('?', p.query) + Lead('#', p.fragment) }

  function Build(p: Parts): seq<Byte> { Origin(p) + Tail(p) }

  // ----- what the parser should report -----

  function Has(p: Parts, f: nat): bool {
    if f == UF_SCHEMA || f == UF_HOST then p.schema != []
    else if f == UF_USERINFO then p.schema != [] && p.userinfo != []
    else if f == UF_PORT then p.schema != [] && p.port != []
    else if f == UF_PATH then p.path != []
    else if f == UF_QUERY then p.query != []
    else f == UF_FRAGMENT && p.fragment != []
  }

  function Text(p: Parts, f: nat): seq<Byte> {
    if f == UF_SCHEMA then p.schema
    else if f == UF_HOST then p.host.text
    else if f == UF_USERINFO then p.userinfo
    else if f == UF_PORT then p.port
    else if f == UF_PATH then p.path
    else if f == UF_QUERY then p.query
    else p.fragment
  }

  /** Where a component begins. */
  function Offset(p: Parts, f: nat): nat {
    var a := |p.schema| + 3;
    var h := a + |UserinfoPart(p)|;
    var t := |Origin(p)|;
    if f == UF_SCHEMA then 0
    else if f == UF_USERINFO then a
    else if f == UF_HOST then h + if p.host.V6? then 1 else 0
    else if f == UF_PORT then h + |HostPart(p.host)| + 1
    else if f == UF_PATH then t
    else if f == UF_QUERY then t + |p.path| + 1
    else t + |p.path| + |Lead('?', p.query)| + 1
  }

  // ----- runs of bytes of one field -----

  /** A field of known range. */
  function With(u: ParsedUrl, f: Field, off: nat, len: nat): ParsedUrl {
    Put(u, f, Range(off, len)).(fields := u.fields + {f})
  }

  lemma {:induction false} ScanAppend(sc: Scan, a: seq<Byte>, b: seq<Byte>)
    ensures ScanAll(sc, a + b) == ScanAll(ScanAll(sc, a), b)
  {
    hide ScanStep;
    if b == [] {
      assert a + b == a;
    } else {
      assert (a + b)[..|a + b| - 1] == a + b[..|b| - 1];
      ScanAppend(sc, a, b[..|b| - 1]);
    }
  }

  /** The bytes lead into a state and stay there. */
  ghost predicate RunsIn(s: State, t: State, text: seq<Byte>) {
    && FieldOf(t) < UF_MAX && !t.ReqServerWithAt? && !s.Dead?
    && text != [] && ParseUrlChar(s, text[0]) == t
    && forall i | 0 < i < |text| :: ParseUrlChar(t, text[i]) == t
  }

  lemma {:induction false} RunOpen(sc: Scan, t: State, text: seq<Byte>)
    requires RunsIn(sc.s, t, text) && sc.oldUf != FieldOf(t) && sc.i + |text| <= 0xffff
    ensures ScanAll(sc, text) == Scan(t, FieldOf(t), sc.at, With(sc.u, FieldOf(t), sc.i, |text|), sc.i + |text|)
  {
    hide ParseUrlChar, U16;
    var n := |text| - 1;
    if n == 0 {
      assert text[..0] == [];
    } else {
      RunOpen(sc, t, text[..n]);
    }
  }

  lemma {:induction false} RunExtend(sc: Scan, t: State, text: seq<Byte>)
    requires RunsIn(sc.s, t, text) && sc.oldUf == FieldOf(t)
    requires sc.u.data[FieldOf(t)].len + |text| <= 0xffff
    ensures ScanAll(sc, text) ==
            Scan(t, FieldOf(t), sc.at, Put(sc.u, FieldOf(t), sc.u.data[FieldOf(t)].(len := sc.u.data[FieldOf(t)].len + |text|)),
                 sc.i + |text|)
  {
    hide ParseUrlChar, U16;
    var n := |text| - 1;
    if n == 0 {
      assert text[..0] == [];
    } else {
      RunExtend(sc, t, text[..n]);
    }
  }

  lemma ScanOne(sc: Scan, ch: Byte)
    ensures ScanAll(sc, [ch]) == ScanStep(sc, ch)
  {
    ScanNone(sc);
    assert [ch][..0] == [];
  }

  // ----- path, query and fragment -----

  function WithTail(u: ParsedUrl, p: Parts, t: nat): ParsedUrl {
    var u1 := if p.path == [] then u else With(u, UF_PATH, t, |p.path|);
    var u2 := if p.query == [] then u1 else With(u1, UF_QUERY, t + |p.path| + 1, |p.query|);
    if p.fragment == [] then u2 else With(u2, UF_FRAGMENT, t + |p.path| + |Lead('?', p.query)| + 1, |p.fragment|)
  }

  lemma PathScan(sc: Scan, path: seq<Byte>)
    requires sc.s == ReqServer || (sc.s == ReqSpacesBeforeUrl && path != [])
    requires AllUrl(path) && (path != [] ==> path[0] == '/') && sc.i + |path| <= 0xffff && FieldRank(sc.oldUf) <= 5
    ensures var r := ScanAll(sc, path);
            && (path == [] ==> r == sc)
            && (path != [] ==> r == Scan(ReqPath, UF_PATH, sc.at, With(sc.u, UF_PATH, sc.i, |path|), sc.i + |path|))
  {
    ScanNone(sc);
    if path != [] {
      assert RunsIn(sc.s, ReqPath, path) by { PathRuns(sc.s, path); }
      RunOpen(sc, ReqPath, path);
    }
  }

  lemma PathRuns(s: State, path: seq<Byte>)
    requires (s == ReqServer || s == ReqSpacesBeforeUrl) && AllUrl(path) && path != [] && path[0] == '/'
    ensures RunsIn(s, ReqPath, path)
  {
  }

  lemma QueryScan(sc: Scan, query: seq<Byte>)
    requires (sc.s == ReqServer || sc.s == ReqPath) && AllQuery(query) && sc.i + |Lead('?', query)| <= 0xffff
    requires FieldRank(sc.oldUf) <= 6
    ensures var r := ScanAll(sc, Lead('?', query));
            && (query == [] ==> r == sc)
            && (query != [] ==>
                  r == Scan(ReqQueryString, UF_QUERY, sc.at, With(sc.u, UF_QUERY, sc.i + 1, |query|), sc.i + 1 + |query|))
  {
    hide IsUrlChar, ScanAll, ScanStep, RunsIn, ParseUrlChar;
    ScanNone(sc);
    if query != [] {
      ScanOne(sc, '?');
      var t := sc.(s := ReqQueryStringStart, i := sc.i + 1);
      assert ScanStep(sc, '?') == t by { QuestionMark(sc); }
      ScanAppend(sc, ['?'], query);
      assert RunsIn(ReqQueryStringStart, ReqQueryString, query) by { QueryRuns(query); }
      RunOpen(t, ReqQueryString, query);
    }
  }

  lemma QuestionMark(sc: Scan)
    requires sc.s == ReqServer || sc.s == ReqPath
    ensures ScanStep(sc, '?') == sc.(s := ReqQueryStringStart, i := sc.i + 1)
  {
  }

  lemma QueryRuns(query: seq<Byte>)
    requires AllQuery(query) && query != []
    ensures RunsIn(ReqQueryStringStart, ReqQueryString, query)
  {
  }

  lemma FragmentScan(sc: Scan, fragment: seq<Byte>)
    requires fragment != [] ==> sc.s == ReqPath || sc.s == ReqQueryString
    requires AllFragment(fragment) && (fragment != [] ==> fragment[0] != '#') && sc.i + |Lead('#', fragment)| <= 0xffff
    requires FieldRank(sc.oldUf) <= 8
    ensures var r := ScanAll(sc, Lead('#', fragment));
            && (fragment == [] ==> r == sc)
            && (fragment != [] ==>
                  r == Scan(ReqFragment, UF_FRAGMENT, sc.at, With(sc.u, UF_FRAGMENT, sc.i + 1, |fragment|),
                            sc.i + 1 + |fragment|))
  {
    hide IsUrlChar, ScanAll, ScanStep, RunsIn, ParseUrlChar;
    ScanNone(sc);
    if fragment != [] {
      ScanOne(sc, '#');
      var t := sc.(s := ReqFragmentStart, i := sc.i + 1);
      assert ScanStep(sc, '#') == t by { NumberSign(sc); }
      ScanAppend(sc, ['#'], fragment);
      assert RunsIn(ReqFragmentStart, ReqFragment, fragment) by { FragmentRuns(fragment); }
      RunOpen(t, ReqFragment, fragment);
    }
  }

  lemma NumberSign(sc: Scan)
    requires sc.s == ReqPath || sc.s == ReqQueryString
    ensures ScanStep(sc, '#') == sc.(s := ReqFragmentStart, i := sc.i + 1)
  {
  }

  lemma FragmentRuns(fragment: seq<Byte>)
    requires AllFragment(fragment) && fragment != [] && fragment[0] != '#'
    ensures RunsIn(ReqFragmentStart, ReqFragment, fragment)
  {
  }

  lemma PathQueryScan(sc: Scan, p: Parts)
    requires TailOkay(p) && sc.i + |Tail(p)| <= 0xffff && FieldRank(sc.oldUf) <= 5
    requires sc.s == ReqServer || (sc.s == ReqSpacesBeforeUrl && p.path != [])
    ensures var r := ScanAll(sc, p.path + Lead('?', p.query));
            && (p.fragment != [] ==> r.s == ReqPath || r.s == ReqQueryString) && !r.s.Dead? && FieldRank(r.oldUf) <= 8
            && r.at == sc.at && r.u == WithTail(sc.u, p.(fragment := []), sc.i) && r.i == sc.i + |p.path| + |Lead('?', p.query)|
  {
    hide ScanAll, With, AllUrl, AllQuery, AllFragment;
    ScanAppend(sc, p.path, Lead('?', p.query));
    PathScan(sc, p.path);
    QueryScan(ScanAll(sc, p.path), p.query);
  }

  lemma TailScan(sc: Scan, p: Parts)
    requires TailOkay(p) && sc.i + |Tail(p)| <= 0xffff && FieldRank(sc.oldUf) <= 5
    requires sc.s == ReqServer || (sc.s == ReqSpacesBeforeUrl && p.path != [])
    ensures var r := ScanAll(sc, Tail(p));
            !r.s.Dead? && r.at == sc.at && r.u == WithTail(sc.u, p, sc.i)
  {
    hide ScanAll, With, AllUrl, AllQuery, AllFragment, FieldRank;
    var q := p.path + Lead('?', p.query);
    ScanAppend(sc, q, Lead('#', p.fragment));
    PathQueryScan(sc, p);
    FragmentScan(ScanAll(sc, q), p.fragment);
  }

  // ----- schema and authority -----

  predicate AllServer(s: seq<Byte>) { forall i | 0 <= i < |s| :: IsUserinfoChar(s[i]) || s[i] == '[' || s[i] == ']' }

  /** The authority behind the userinfo. */
  function HostAndPort(p: Parts): seq<Byte> { HostPart(p.host) + Lead(':', p.port) }

  lemma HostAndPortIsServer(p: Parts)
    requires AuthorityOkay(p)
    ensures AllServer(HostAndPort(p)) && HostAndPort(p) != [] && AllServer(p.userinfo)
  {
    hide DecValue;
  }

  lemma ServerRuns(s: State, text: seq<Byte>)
    requires (s == ReqServerStart || s == ReqServer || s == ReqServerWithAt) && AllServer(text) && text != []
    ensures RunsIn(s, ReqServer, text)
  {
  }

  lemma SchemaScan(prior: ParsedUrl, schema: seq<Byte>)
    requires AllAlpha(schema) && schema != [] && |schema| + 3 <= 0xffff
    ensures var sc := ScanStart(false, prior);
            ScanAll(sc, schema + COLON_SLASHES) ==
            Scan(ReqServerStart, UF_SCHEMA, false, With(sc.u, UF_SCHEMA, 0, |schema|), |schema| + 3)
  {
    hide With, ScanAll;
    var sc := ScanStart(false, prior);
    assert RunsIn(sc.s, ReqSchema, schema) by { SchemaRuns(schema); }
    RunOpen(sc, ReqSchema, schema);
    var t := ScanAll(sc, schema);
    ScanAppend(sc, schema, COLON_SLASHES);
    var s0: seq<Byte>, s1: seq<Byte>, s2: seq<Byte> := [], ":", ":/";
    assert s0 + [':'] == s1 && s1 + ['/'] == s2 && s2 + ['/'] == COLON_SLASHES;
    ScanNone(t);
    ScanSnoc(t, s0, ':');
    ScanSnoc(t, s1, '/');
    ScanSnoc(t, s2, '/');
  }

  lemma SchemaRuns(schema: seq<Byte>)
    requires AllAlpha(schema) && schema != []
    ensures RunsIn(ReqSpacesBeforeUrl, ReqSchema, schema)
  {
  }

  lemma AtSign(sc: Scan)
    requires sc.s == ReqServer && sc.oldUf == UF_HOST && sc.u.data[UF_HOST].len < 0xffff
    ensures ScanStep(sc, '@') ==
            Scan(ReqServerWithAt, UF_HOST, true, Put(sc.u, UF_HOST, sc.u.data[UF_HOST].(len := sc.u.data[UF_HOST].len + 1)),
                 sc.i + 1)
  {
  }

  lemma AuthorityScan(sc: Scan, p: Parts)
    requires sc.s == ReqServerStart && sc.oldUf != UF_HOST && AuthorityOkay(p) && sc.i + |Authority(p)| <= 0xffff
    ensures ScanAll(sc, Authority(p)) ==
            Scan(ReqServer, UF_HOST, sc.at || p.userinfo != [], With(sc.u, UF_HOST, sc.i, |Authority(p)|),
                 sc.i + |Authority(p)|)
  {
    hide ScanAll, RunsIn, AllServer, AuthorityOkay, HostAndPort;
    HostAndPortIsServer(p);
    AuthorityIs(p);
    if p.userinfo == [] {
      assert Authority(p) == HostAndPort(p);
      ServerRuns(sc.s, HostAndPort(p));
      RunOpen(sc, ReqServer, HostAndPort(p));
    } else {
      AtScan(sc, p.userinfo, HostAndPort(p));
    }
  }

  lemma UserinfoScan(sc: Scan, userinfo: seq<Byte>)
    requires sc.s == ReqServerStart && sc.oldUf != UF_HOST && sc.i + |userinfo| + 1 <= 0xffff
    requires AllServer(userinfo) && userinfo != []
    ensures ScanAll(sc, userinfo + ['@']) ==
            Scan(ReqServerWithAt, UF_HOST, true, With(sc.u, UF_HOST, sc.i, |userinfo| + 1), sc.i + |userinfo| + 1)
  {
    hide ScanAll, ScanStep, RunsIn, AllServer, With, Put;
    var n := |userinfo|;
    ScanSnoc(sc, userinfo, '@');
    ServerRuns(sc.s, userinfo);
    RunOpen(sc, ReqServer, userinfo);
    WithLonger(sc.u, UF_HOST, sc.i, n, 1);
    AtSign(ScanAll(sc, userinfo));
  }

  lemma AtScan(sc: Scan, userinfo: seq<Byte>, rest: seq<Byte>)
    requires sc.s == ReqServerStart && sc.oldUf != UF_HOST && sc.i + |userinfo| + 1 + |rest| <= 0xffff
    requires AllServer(userinfo) && userinfo != [] && AllServer(rest) && rest != []
    ensures var n := |userinfo| + 1 + |rest|;
            ScanAll(sc, userinfo + ['@'] + rest) ==
            Scan(ReqServer, UF_HOST, true, With(sc.u, UF_HOST, sc.i, n), sc.i + n)
  {
    hide ScanAll, ScanStep, RunsIn, AllServer, With, Put;
    var n := |userinfo|;
    ScanAppend(sc, userinfo + ['@'], rest);
    UserinfoScan(sc, userinfo);
    ServerRuns(ReqServerWithAt, rest);
    WithLonger(sc.u, UF_HOST, sc.i, n + 1, |rest|);
    RunExtend(ScanAll(sc, userinfo + ['@']), ReqServer, rest);
  }

  lemma WithLonger(u: ParsedUrl, f: Field, off: nat, len: nat, k: nat)
    ensures With(u, f, off, len).data[f] == Range(off, len)
    ensures Put(With(u, f, off, len), f, Range(off, len + k)) == With(u, f, off, len + k)
  {
  }

  // ----- inside the authority -----

  lemma {:induction false} HostAppend(h: HostScan, a: seq<Byte>, b: seq<Byte>)
    ensures HostAll(h, a + b) == HostAll(HostAll(h, a), b)
  {
    hide HostStep;
    if b == [] {
      assert a + b == a;
    } else {
      assert (a + b)[..|a + b| - 1] == a + b[..|b| - 1];
      HostAppend(h, a, b[..|b| - 1]);
    }
  }

  lemma HostNone(h: HostScan)
    ensures HostAll(h, []) == h
  {
  }

  lemma {:induction false} UserinfoRun(h: HostScan, text: seq<Byte>)
    requires h.s == UserinfoStart && AllUserinfo(text) && text != [] && h.i + |text| <= 0xffff
    ensures HostAll(h, text) == HostScan(Userinfo, With(h.u, UF_USERINFO, h.i, |text|), h.i + |text|)
  {
    hide U16;
    var n := |text| - 1;
    if n == 0 {
      assert text[..0] == [];
    } else {
      UserinfoRun(h, text[..n]);
    }
  }

  lemma {:induction false} NameRun(h: HostScan, text: seq<Byte>)
    requires h.s == HostStart && h.u.data[UF_HOST].len == 0 && AllHost(text) && text != [] && h.i + |text| <= 0xffff
    ensures HostAll(h, text) == HostScan(HostName, Put(h.u, UF_HOST, Range(h.i, |text|)), h.i + |text|)
  {
    hide U16;
    var n := |text| - 1;
    if n == 0 {
      assert text[..0] == [];
    } else {
      NameRun(h, text[..n]);
    }
  }

  lemma {:induction false} V6Run(h: HostScan, text: seq<Byte>)
    requires h.s == HostV6Start && h.u.data[UF_HOST].len == 0 && AllV6(text) && text != [] && h.i + |text| <= 0xffff
    ensures HostAll(h, text) == HostScan(HostV6, Put(h.u, UF_HOST, Range(h.i, |text|)), h.i + |text|)
  {
    hide U16;
    var n := |text| - 1;
    if n == 0 {
      assert text[..0] == [];
    } else {
      V6Run(h, text[..n]);
    }
  }

  lemma {:induction false} PortRun(h: HostScan, text: seq<Byte>)
    requires h.s == HostPortStart && AllNum(text) && text != [] && h.i + |text| <= 0xffff
    ensures HostAll(h, text) == HostScan(HostPort, With(h.u, UF_PORT, h.i, |text|), h.i + |text|)
  {
    hide U16;
    var n := |text| - 1;
    if n == 0 {
      assert text[..0] == [];
    } else {
      PortRun(h, text[..n]);
    }
  }

  /** What the host part adds, for an authority at `o`. */
  function WithAuthority(u: ParsedUrl, p: Parts, o: nat): ParsedUrl {
    var h := o + |UserinfoPart(p)|;
    var u1 := Put(u, UF_HOST, Range(o, 0));
    var u2 := if p.userinfo == [] then u1 else With(u1, UF_USERINFO, o, |p.userinfo|);
    var u3 := Put(u2, UF_HOST, Range(h + if p.host.V6? then 1 else 0, |p.host.text|));
    if p.port == [] then u3 else With(u3, UF_PORT, h + |HostPart(p.host)| + 1, |p.port|)
  }

  lemma UserinfoPartRun(h: HostScan, p: Parts)
    requires AllUserinfo(p.userinfo) && h.s == (if p.userinfo == [] then HostStart else UserinfoStart)
    requires h.i + |UserinfoPart(p)| <= 0xffff
    ensures HostAll(h, UserinfoPart(p)) ==
            HostScan(HostStart, if p.userinfo == [] then h.u else With(h.u, UF_USERINFO, h.i, |p.userinfo|),
                     h.i + |UserinfoPart(p)|)
  {
    HostNone(h);
    if p.userinfo != [] {
      HostSnoc(h, p.userinfo, '@');
      UserinfoRun(h, p.userinfo);
    }
  }

  lemma HostPartRun(h: HostScan, t: HostText)
    requires HostOkay(t) && h.s == HostStart && h.u.data[UF_HOST].len == 0 && h.i + |HostPart(t)| <= 0xffff
    ensures HostAll(h, HostPart(t)) ==
            HostScan(if t.V6? then HostV6End else HostName,
                     Put(h.u, UF_HOST, Range(h.i + if t.V6? then 1 else 0, |t.text|)), h.i + |HostPart(t)|)
  {
    hide AllV6, AllHost, HostAll, HostStep;
    match t
    case Name(text) => NameRun(h, text);
    case V6(text) => BracketsRun(h, text);
  }

  lemma BracketsRun(h: HostScan, text: seq<Byte>)
    requires h.s == HostStart && h.u.data[UF_HOST].len == 0 && AllV6(text) && text != [] && h.i + |text| + 2 <= 0xffff
    ensures HostAll(h, ['['] + text + [']']) ==
            HostScan(HostV6End, Put(h.u, UF_HOST, Range(h.i + 1, |text|)), h.i + |text| + 2)
  {
    hide AllV6, HostAll, Put;
    HostSnoc(h, ['['] + text, ']');
    HostAppend(h, ['['], text);
    HostOne(h, '[');
    V6Run(HostScan(HostV6Start, h.u, h.i + 1), text);
  }

  lemma HostOne(h: HostScan, ch: Byte)
    ensures HostAll(h, [ch]) == HostStep(h, ch)
  {
    assert [ch][..0] == [];
  }

  lemma PortPartRun(h: HostScan, port: seq<Byte>)
    requires (h.s == HostName || h.s == HostV6End) && AllNum(port) && h.i + |Lead(':', port)| <= 0xffff
    ensures var r := HostAll(h, Lead(':', port));
            HostMayEnd(r.s) && r.u == if port == [] then h.u else With(h.u, UF_PORT, h.i + 1, |port|)
  {
    hide AllNum, HostAll;
    HostNone(h);
    if port != [] {
      HostOne(h, ':');
      HostAppend(h, [':'], port);
      PortRun(HostScan(HostPortStart, h.u, h.i + 1), port);
    }
  }

  lemma AuthorityRun(h: HostScan, p: Parts)
    requires AuthorityOkay(p) && h.s == (if p.userinfo == [] then HostStart else UserinfoStart)
    requires h.u.data[UF_HOST] == Range(h.i, 0) && h.i + |Authority(p)| <= 0xffff
    ensures var r := HostAll(h, Authority(p));
            HostMayEnd(r.s) && r.u == WithAuthority(h.u, p, h.i)
  {
    hide HostAll, AllUserinfo, AllNum, DecValue, HostMayEnd, HostOkay;
    HostAppend(h, UserinfoPart(p), HostPart(p.host) + Lead(':', p.port));
    UserinfoPartRun(h, p);
    var h1 := HostAll(h, UserinfoPart(p));
    HostAppend(h1, HostPart(p.host), Lead(':', p.port));
    HostPartRun(h1, p.host);
    PortPartRun(HostAll(h1, HostPart(p.host)), p.port);
    assert Put(h.u, UF_HOST, Range(h.i, 0)) == h.u;
  }

  // ----- the whole URL -----

  function WithOrigin(u: ParsedUrl, p: Parts): ParsedUrl {
    if p.schema == [] then u
    else With(With(u, UF_SCHEMA, 0, |p.schema|), UF_HOST, |p.schema| + 3, |Authority(p)|)
  }

  lemma BuildScan(p: Parts, prior: ParsedUrl)
    requires WellFormed(p) && |Build(p)| <= 0xffff
    ensures var sc := ScanStart(false, prior);
            var r := ScanAll(sc, Build(p));
            && !r.s.Dead? && r.at == (p.schema != [] && p.userinfo != [])
            && r.u == WithTail(WithOrigin(sc.u, p), p, |Origin(p)|)
  {
    hide ScanAll, AuthorityOkay, TailOkay, Authority, Tail, With, AllAlpha;
    var sc := ScanStart(false, prior);
    ScanAppend(sc, Origin(p), Tail(p));
    ScanNone(sc);
    if p.schema != [] {
      ScanAppend(sc, p.schema + COLON_SLASHES, Authority(p));
      SchemaScan(prior, p.schema);
      AuthorityScan(ScanAll(sc, p.schema + COLON_SLASHES), p);
    }
    TailScan(ScanAll(sc, Origin(p)), p);
  }

  /** The range of each field after the scan and after the host part. */
  predicate Reports(u: ParsedUrl, p: Parts, f: Field) {
    && (f in u.fields <==> Has(p, f))
    && (Has(p, f) ==> u.data[f] == Range(Offset(p, f), |Text(p, f)|))
  }

  function Final(u: ParsedUrl, p: Parts): ParsedUrl {
    if p.schema == [] then u else WithAuthority(u, p, |p.schema| + 3)
  }

  lemma WithAt(u: ParsedUrl, f: Field, off: nat, len: nat, g: Field)
    ensures var r := With(u, f, off, len);
            (g in r.fields <==> g in u.fields || g == f) && r.data[g] == if g == f then Range(off, len) else u.data[g]
  {
  }

  lemma PutAt(u: ParsedUrl, f: Field, r: Range, g: Field)
    ensures Put(u, f, r).fields == u.fields && Put(u, f, r).data[g] == if g == f then r else u.data[g]
  {
  }

  lemma OriginAt(u: ParsedUrl, p: Parts, f: Field)
    requires u.fields == {}
    ensures var r := WithOrigin(u, p);
            && (f in r.fields <==> p.schema != [] && (f == UF_SCHEMA || f == UF_HOST))
            && (f == UF_SCHEMA && p.schema != [] ==> r.data[f] == Range(0, |p.schema|))
  {
    hide With, Authority;
    var u1 := With(u, UF_SCHEMA, 0, |p.schema|);
    WithAt(u, UF_SCHEMA, 0, |p.schema|, f);
    WithAt(u1, UF_HOST, |p.schema| + 3, |Authority(p)|, f);
  }

  lemma TailAt(u: ParsedUrl, p: Parts, t: nat, f: Field)
    requires t == |Origin(p)|
    ensures var r := WithTail(u, p, t);
            if f == UF_PATH || f == UF_QUERY || f == UF_FRAGMENT then
              && (f in r.fields <==> f in u.fields || Has(p, f))
              && (Has(p, f) ==> r.data[f] == Range(Offset(p, f), |Text(p, f)|))
            else (f in r.fields <==> f in u.fields) && r.data[f] == u.data[f]
  {
    hide With, Origin, Lead;
    var u1 := if p.path == [] then u else With(u, UF_PATH, t, |p.path|);
    var u2 := if p.query == [] then u1 else With(u1, UF_QUERY, t + |p.path| + 1, |p.query|);
    WithAt(u, UF_PATH, t, |p.path|, f);
    WithAt(u1, UF_QUERY, t + |p.path| + 1, |p.query|, f);
    WithAt(u2, UF_FRAGMENT, t + |p.path| + |Lead('?', p.query)| + 1, |p.fragment|, f);
  }

  lemma AuthorityAt(u: ParsedUrl, p: Parts, o: nat, f: Field)
    requires o == |p.schema| + 3 && p.schema != []
    ensures var r := WithAuthority(u, p, o);
            if f == UF_USERINFO || f == UF_PORT then
              && (f in r.fields <==> f in u.fields || Has(p, f))
              && (Has(p, f) ==> r.data[f] == Range(Offset(p, f), |Text(p, f)|))
            else
              && (f in r.fields <==> f in u.fields)
              && r.data[f] == if f == UF_HOST then Range(Offset(p, f), |Text(p, f)|) else u.data[f]
  {
    hide With, Put, UserinfoPart, HostPart, Origin;
    var h := o + |UserinfoPart(p)|;
    var host := Range(h + if p.host.V6? then 1 else 0, |p.host.text|);
    var u1 := Put(u, UF_HOST, Range(o, 0));
    var u2 := if p.userinfo == [] then u1 else With(u1, UF_USERINFO, o, |p.userinfo|);
    PutAt(u, UF_HOST, Range(o, 0), f);
    WithAt(u1, UF_USERINFO, o, |p.userinfo|, f);
    PutAt(u2, UF_HOST, host, f);
    WithAt(Put(u2, UF_HOST, host), UF_PORT, h + |HostPart(p.host)| + 1, |p.port|, f);
  }

  lemma FinalReports(prior: ParsedUrl, p: Parts, f: Field)
    requires prior.fields == {}
    ensures Reports(Final(WithTail(WithOrigin(prior, p), p, |Origin(p)|), p), p, f)
  {
    hide WithOrigin, WithTail, WithAuthority, Origin, Offset;
    var u1 := WithOrigin(prior, p);
    var u2 := WithTail(u1, p, |Origin(p)|);
    OriginAt(prior, p, f);
    TailAt(u1, p, |Origin(p)|, f);
    if p.schema != [] {
      AuthorityAt(u2, p, |p.schema| + 3, f);
      SchemaFirst(p);
    }
  }

  lemma SchemaFirst(p: Parts)
    ensures Offset(p, UF_SCHEMA) == 0
  {
  }

  lemma OriginField(u: ParsedUrl, p: Parts)
    ensures var r := WithTail(WithOrigin(u, p), p, |Origin(p)|);
            && (p.schema != [] ==> r.data[UF_HOST] == Range(|p.schema| + 3, |Authority(p)|) && UF_HOST in r.fields)
            && (p.schema == [] && u.fields == {} ==> UF_HOST !in r.fields && UF_SCHEMA !in r.fields)
            && r.data[UF_PORT] == u.data[UF_PORT]
  {
  }

  lemma AuthorityInBuild(p: Parts, mem: seq<Byte>)
    requires p.schema != [] && Build(p) <= mem
    ensures |p.schema| + 3 + |Authority(p)| <= |mem|
    ensures mem[|p.schema| + 3..|p.schema| + 3 + |Authority(p)|] == Authority(p)
  {
    hide Authority, Tail;
    assert Build(p) == (p.schema + COLON_SLASHES) + (Authority(p) + Tail(p));
  }

  /** The digits in the memory from position `i` on. */
  function DigitsFrom(mem: seq<Byte>, i: nat): (d: seq<Byte>)
    requires i <= |mem|
    ensures AllNum(d)
  {
    mem[i..i + Digits(mem, i)]
  }

  /** What `strtoul` takes for the port: if the URL ends with it, the digits that follow the
      URL in memory belong to it. */
  function ReadPort(p: Parts, mem: seq<Byte>): seq<Byte>
    requires Build(p) <= mem
  {
    if p.schema == [] || p.port == [] then []
    else if Tail(p) == [] then p.port + DigitsFrom(mem, |Build(p)|)
    else p.port
  }

  lemma PortInBuild(p: Parts, mem: seq<Byte>)
    requires WellFormed(p) && p.schema != [] && p.port != [] && Build(p) <= mem
    ensures Offset(p, UF_PORT) <= |mem| && DigitsFrom(mem, Offset(p, UF_PORT)) == ReadPort(p, mem)
  {
    hide DecValue, Tail, HostPart, UserinfoPart, AuthorityOkay, TailOkay, Build, Offset, DigitsFrom;
    var before := p.schema + COLON_SLASHES + UserinfoPart(p) + HostPart(p.host) + [':'];
    PortSplits(p, before);
    TailBegins(p);
    PortDigits(p);
    DigitsBetween(mem, before, p.port, Tail(p));
  }

  lemma DigitsBetween(mem: seq<Byte>, a: seq<Byte>, b: seq<Byte>, c: seq<Byte>)
    requires a + b + c <= mem && AllNum(b) && (c != [] ==> !IsNum(c[0]))
    ensures DigitsFrom(mem, |a|) == if c == [] then b + DigitsFrom(mem, |a + b + c|) else b
  {
    hide Digits;
    Middle(mem, a, b, c);
    SliceDigits(mem, |a|, b);
    if c == [] {
      var n, k := |a| + |b|, Digits(mem, |a| + |b|);
      DigitsAre(mem, |a|, |b| + k);
      assert mem[|a|..n + k] == mem[|a|..n] + mem[n..n + k];
    } else {
      DigitsAre(mem, |a|, |b|);
    }
  }

  lemma SliceDigits(mem: seq<Byte>, o: nat, port: seq<Byte>)
    requires o + |port| <= |mem| && mem[o..o + |port|] == port && forall k | 0 <= k < |port| :: IsNum(port[k])
    ensures forall k | o <= k < o + |port| :: IsNum(mem[k])
  {
    assert forall k | o <= k < o + |port| :: mem[k] == port[k - o];
  }

  lemma PortSplits(p: Parts, before: seq<Byte>)
    requires p.schema != [] && p.port != []
    requires before == p.schema + COLON_SLASHES + UserinfoPart(p) + HostPart(p.host) + [':']
    ensures Build(p) == before + p.port + Tail(p) && Offset(p, UF_PORT) == |before|
  {
    hide Tail, HostPart, UserinfoPart;
  }

  lemma Middle(mem: seq<Byte>, a: seq<Byte>, b: seq<Byte>, c: seq<Byte>)
    requires a + b + c <= mem
    ensures mem[|a|..|a| + |b|] == b && (c != [] ==> |a| + |b| < |mem| && mem[|a| + |b|] == c[0])
  {
  }

  lemma TailBegins(p: Parts)
    requires TailOkay(p)
    ensures Tail(p) != [] ==> !IsNum(Tail(p)[0])
  {
  }

  lemma PortDigits(p: Parts)
    requires WellFormed(p) && p.schema != []
    ensures forall k | 0 <= k < |p.port| :: IsNum(p.port[k])
  {
    hide DecValue, TailOkay, AllAlpha, HostOkay;
  }

  lemma {:induction false} DigitsAre(mem: seq<Byte>, off: nat, n: nat)
    requires off + n <= |mem| && (forall k | off <= k < off + n :: IsNum(mem[k]))
    requires off + n < |mem| ==> !IsNum(mem[off + n])
    ensures Digits(mem, off) == n
    decreases n
  {
    if n > 0 {
      DigitsAre(mem, off + 1, n - 1);
    }
  }

  lemma HostBuilt(p: Parts, u: ParsedUrl, mem: seq<Byte>)
    requires WellFormed(p) && p.schema != [] && |Build(p)| <= 0xffff && Build(p) <= mem
    requires u.data[UF_HOST] == Range(|p.schema| + 3, |Authority(p)|)
    ensures u.data[UF_HOST].off + u.data[UF_HOST].len <= |mem|
    ensures ParseHost(mem, u, p.userinfo != []) == Result(false, WithAuthority(u, p, |p.schema| + 3))
  {
    hide AuthorityOkay, TailOkay, Authority, Tail, HostAll, WithAuthority, HostMayEnd;
    AuthorityInBuild(p, mem);
    var h := HostBegin(u, p.userinfo != []);
    AuthorityRun(h, p);
    BeginIrrelevant(u, p, |p.schema| + 3);
  }

  lemma BeginIrrelevant(u: ParsedUrl, p: Parts, o: nat)
    requires u.data[UF_HOST].off == o
    ensures WithAuthority(HostBegin(u, p.userinfo != []).u, p, o) == WithAuthority(u, p, o)
  {
    assert HostBegin(u, p.userinfo != []).u == Put(u, UF_HOST, Range(o, 0));
    assert Put(Put(u, UF_HOST, Range(o, 0)), UF_HOST, Range(o, 0)) == Put(u, UF_HOST, Range(o, 0));
  }

  /** The step after the scan, in terms of the components. */
  lemma FinishBuilt(p: Parts, u: ParsedUrl, mem: seq<Byte>)
    requires WellFormed(p) && Build(p) <= mem && u.data[UF_PORT].off <= |mem| && u.port == 0
    requires forall f: Field :: Reports(u, p, f)
    ensures var r, v := Finish(mem, u, false), DecValue(ReadPort(p, mem));
            && r.err == (v > 0xffff) && (!r.err ==> (forall f: Field :: Reports(r.u, p, f)) && r.u.port == v)
  {
    hide Build, Digits, Offset;
    var v := Finish(mem, u, false).u.port;
    NoNumber();
    assert Reports(u, p, UF_PORT);
    if Has(p, UF_PORT) {
      PortInBuild(p, mem);
    }
    forall f: Field ensures Reports(u.(port := v), p, f) {
      assert Reports(u, p, f);
    }
  }

  lemma NoNumber()
    ensures DecValue([]) == 0
  {
  }

  /** A URL put together from well-formed components of at most 65535 bytes is taken apart
      into just these components, and the port is the number of the digits that `strtoul`
      reads, unless that number is too large. */
  lemma RoundTrip(p: Parts, mem: seq<Byte>, prior: ParsedUrl)
    requires WellFormed(p) && |Build(p)| <= 0xffff && Build(p) <= mem && Readable(prior, mem)
    ensures var r, v := ParseUrl(mem, |Build(p)|, false, prior), DecValue(ReadPort(p, mem));
            && r.err == (v > 0xffff) && (!r.err ==> (forall f: Field :: Reports(r.u, p, f)) && r.u.port == v)
  {
    hide ScanAll, ScanStart, Reports, WithTail, WithOrigin, Build, Finish, DecValue, WithAuthority, ParseHost, WellFormed,
         ReadPort;
    var n := |Build(p)|;
    assert mem[..n] == Build(p);
    var u0 := prior.(fields := {}, port := 0);
    BuildScan(p, prior);
    StartUrl(prior);
    ScanReadable(mem, n, false, prior);
    var u := WithTail(WithOrigin(u0, p), p, |Origin(p)|);
    OriginField(u0, p);
    Either(u.fields);
    forall f: Field ensures Reports(Final(u, p), p, f) {
      FinalReports(u0, p, f);
    }
    if p.schema != [] {
      HostReadable(mem, u, p.userinfo != []);
      HostBuilt(p, u, mem);
    }
    PortStillZero(u0, p);
    FinishBuilt(p, Final(u, p), mem);
  }

  lemma PortStillZero(u: ParsedUrl, p: Parts)
    ensures Final(WithTail(WithOrigin(u, p), p, |Origin(p)|), p).port == u.port
  {
  }

  lemma StartUrl(prior: ParsedUrl)
    ensures ScanStart(false, prior).u == prior.(fields := {}, port := 0)
  {
  }

  lemma OriginText(p: Parts, f: Field)
    requires Has(p, f) && (f == UF_SCHEMA || f == UF_USERINFO || f == UF_HOST || f == UF_PORT)
    ensures var o := Offset(p, f);
            o + |Text(p, f)| <= |Build(p)| && Build(p)[o..o + |Text(p, f)|] == Text(p, f)
  {
    hide UserinfoPart, Tail, HostAndPort, HostPart, Build, Lead;
    var b := Build(p);
    if f == UF_SCHEMA {
      SchemaSplits(p);
      Piece(b, [], p.schema, COLON_SLASHES + Authority(p) + Tail(p));
    } else if f == UF_USERINFO {
      UserinfoSplits(p);
      Piece(b, p.schema + COLON_SLASHES, p.userinfo, ['@'] + HostAndPort(p) + Tail(p));
    } else if f == UF_HOST {
      HostSplits(p);
      Piece(b, p.schema + COLON_SLASHES + UserinfoPart(p) + (if p.host.V6? then ['['] else []), p.host.text,
            (if p.host.V6? then [']'] else []) + Lead(':', p.port) + Tail(p));
    } else {
      var before := p.schema + COLON_SLASHES + UserinfoPart(p) + HostPart(p.host) + [':'];
      PortSplits(p, before);
      Piece(b, before, p.port, Tail(p));
    }
  }

  lemma SchemaSplits(p: Parts)
    requires p.schema != []
    ensures Build(p) == [] + p.schema + (COLON_SLASHES + Authority(p) + Tail(p))
  {
    hide Authority, Tail;
  }

  /** The reported ranges hold the components. */
  lemma TextAt(p: Parts, f: Field)
    requires Has(p, f)
    ensures var o := Offset(p, f);
            o + |Text(p, f)| <= |Build(p)| && Build(p)[o..o + |Text(p, f)|] == Text(p, f)
  {
    hide Origin;
    if f == UF_PATH {
      Piece(Build(p), Origin(p), p.path, Lead('?', p.query) + Lead('#', p.fragment));
    } else if f == UF_QUERY {
      Piece(Build(p), Origin(p) + p.path + ['?'], p.query, Lead('#', p.fragment));
    } else if f == UF_FRAGMENT {
      Piece(Build(p), Origin(p) + p.path + Lead('?', p.query) + ['#'], p.fragment, []);
    } else {
      OriginText(p, f);
    }
  }

  lemma Piece(s: seq<Byte>, a: seq<Byte>, b: seq<Byte>, c: seq<Byte>)
    requires s == a + b + c
    ensures |a| + |b| <= |s| && s[|a|..|a| + |b|] == b
  {
  }

  lemma UserinfoSplits(p: Parts)
    requires p.schema != [] && p.userinfo != []
    ensures Build(p) == p.schema + COLON_SLASHES + p.userinfo + (['@'] + HostAndPort(p) + Tail(p))
  {
    hide Tail, HostAndPort, HostPart;
    assert Authority(p) == p.userinfo + ['@'] + HostAndPort(p) by { AuthorityIs(p); }
  }

  lemma AuthorityIs(p: Parts)
    ensures Authority(p) == UserinfoPart(p) + HostAndPort(p)
    ensures p.userinfo != [] ==> UserinfoPart(p) == p.userinfo + ['@']
  {
  }

  lemma HostSplits(p: Parts)
    requires p.schema != []
    ensures Build(p) ==
            p.schema + COLON_SLASHES + UserinfoPart(p) + (if p.host.V6? then ['['] else []) + p.host.text +
            ((if p.host.V6? then [']'] else []) + Lead(':', p.port) + Tail(p))
  {
    hide Tail, UserinfoPart, Lead;
    if p.host.Name? {
      assert HostPart(p.host) == p.host.text;
    }
  }

  // ----- CONNECT -----

  /** A CONNECT target is accepted when it is a host and a port whose number, with the digits
      that follow it in memory, is not too large. */
  lemma ConnectRoundTrip(p: Parts, mem: seq<Byte>, prior: ParsedUrl)
    requires HostOkay(p.host) && AllNum(p.port) && p.port != [] && DecValue(p.port) <= 0xffff && p.userinfo == []
    requires var n := |Authority(p)|;
             n <= 0xffff && Authority(p) <= mem && Readable(prior, mem)
    ensures var r, v := ParseUrl(mem, |Authority(p)|, true, prior), DecValue(p.port + DigitsFrom(mem, |Authority(p)|));
            && r.err == (v > 0xffff)
            && (!r.err ==>
                  && r.u.fields == {UF_HOST, UF_PORT} && r.u.port == v
                  && r.u.data[UF_HOST] == Range(if p.host.V6? then 1 else 0, |p.host.text|)
                  && r.u.data[UF_PORT] == Range(|HostPart(p.host)| + 1, |p.port|))
  {
    hide ScanAll, HostAll, DecValue, HostPart, HostOkay, Finish, HostMayEnd, AllNum, WithAuthority, Authority;
    var n := |Authority(p)|;
    var sc := ScanStart(true, prior);
    assert mem[..n] == mem[0..n] == Authority(p);
    ScanReadable(mem, n, true, prior);
    AuthorityScan(sc, p);
    var u := With(sc.u, UF_HOST, 0, n);
    Either(u.fields);
    HostReadable(mem, u, false);
    AuthorityRun(HostBegin(u, false), p);
    BeginIrrelevant(u, p, 0);
    ConnectFields(u, p);
    FinishConnect(p, WithAuthority(u, p, 0), mem);
  }

  lemma FinishConnect(p: Parts, u: ParsedUrl, mem: seq<Byte>)
    requires p.userinfo == [] && p.port != [] && AllNum(p.port) && Authority(p) <= mem
    requires u.fields == {UF_HOST, UF_PORT} && u.data[UF_PORT] == Range(|HostPart(p.host)| + 1, |p.port|)
    ensures u.data[UF_PORT].off <= |mem|
    ensures var v := DecValue(p.port + DigitsFrom(mem, |Authority(p)|));
            Finish(mem, u, true) == if v > 0xffff then Result(true, u) else Result(false, u.(port := v))
  {
    hide DecValue, HostPart, Digits;
    assert HostPart(p.host) + [':'] + p.port + [] == Authority(p);
    DigitsBetween(mem, HostPart(p.host) + [':'], p.port, []);
  }

  lemma ConnectFields(u: ParsedUrl, p: Parts)
    requires u.fields == {UF_HOST} && p.userinfo == [] && p.port != []
    ensures var r := WithAuthority(u, p, 0);
            && r.fields == {UF_HOST, UF_PORT}
            && r.data[UF_HOST] == Range(if p.host.V6? then 1 else 0, |p.host.text|)
            && r.data[UF_PORT] == Range(|HostPart(p.host)| + 1, |p.port|)
  {
  }

  /** The number is not always the one in the URL: `a:1` followed in memory by the digit 2
      has port 12. */
  lemma PortOverrun(prior: ParsedUrl)
    requires Readable(prior, "a:12")
    ensures ParseUrl("a:12", 3, true, prior).u.port == 12 && !ParseUrl("a:12", 3, true, prior).err
  {
    hide ScanAll, HostAll, Digits, DecValue, HostMayEnd, WithAuthority;
    var mem: seq<Byte> := "a:12";
    var p := Parts([], [], Name("a"), "1", [], [], []);
    assert Authority(p) == "a:1" == mem[..3] == mem[0..3] by { assert [':'] + "1" == ":1"; }
    NumberTwelve();
    var sc := ScanStart(true, prior);
    ScanReadable(mem, 3, true, prior);
    AuthorityScan(sc, p);
    var u := With(sc.u, UF_HOST, 0, 3);
    Either(u.fields);
    HostReadable(mem, u, false);
    AuthorityRun(HostBegin(u, false), p);
    BeginIrrelevant(u, p, 0);
    ConnectFields(u, p);
    DigitsAre(mem, 2, 2);
    assert mem[2..4] == "12";
  }

  lemma NumberTwelve()
    ensures DecValue("1") == 1 && DecValue("12") == 12
  {
    DecValueSnoc("", '1');
    DecValueSnoc("1", '2');
    assert "" + ['1'] == "1" && "1" + ['2'] == "12";
  }

  lemma {:induction false} NumberJoin(a: seq<Byte>, d: seq<Byte>)
    requires AllNum(d) && d != []
    ensures DecValue(a + d) >= 10 * DecValue(a) + DecValue(d)
    ensures DecValue(a) == 0 ==> DecValue(a + d) == DecValue(d)
    decreases |d|
  {
    var n := |d| - 1;
    assert d[..n] + [d[n]] == d && a + d == (a + d[..n]) + [d[n]];
    DecValueSnoc(d[..n], d[n]);
    DecValueSnoc(a + d[..n], d[n]);
    if n == 0 {
      assert a + d[..0] == a;
    } else {
      NumberJoin(a, d[..n]);
    }
  }

  /** A URL is accepted with the port it was built with if and only if no digit follows it in
      memory that could count: something stands behind the port, or there is no port, or no
      digit comes next, or the port and the digits behind it are zero. */
  lemma PortExactly(p: Parts, mem: seq<Byte>, prior: ParsedUrl)
    requires WellFormed(p) && p.schema != [] && |Build(p)| <= 0xffff && Build(p) <= mem && Readable(prior, mem)
    ensures var r, d := ParseUrl(mem, |Build(p)|, false, prior), DigitsFrom(mem, |Build(p)|);
            (!r.err && r.u.port == DecValue(p.port)) <==>
            (p.port == [] || Tail(p) != [] || d == [] || (DecValue(p.port) == 0 && DecValue(d) == 0))
  {
    hide ParseUrl, Build, DecValue, Tail, DigitsFrom;
    RoundTrip(p, mem, prior);
    PortFits(p);
    NoNumber();
    var d := DigitsFrom(mem, |Build(p)|);
    if p.port != [] && Tail(p) == [] {
      if d == [] {
        assert p.port + d == p.port;
      } else {
        NumberJoin(p.port, d);
      }
    }
  }

  lemma PortFits(p: Parts)
    requires WellFormed(p) && p.schema != []
    ensures DecValue(p.port) <= 0xffff
  {
  }
}
