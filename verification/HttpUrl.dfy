/** Splitting a URL into its components: `http_parser_parse_url` and
    `http_parse_host`. */
module HttpUrl {
  import opened HttpSyntax
  import opened HttpStep
  import opened HttpNumbers

  /** `enum http_parser_url_fields` */
  const UF_SCHEMA := 0
  const UF_HOST := 1
  const UF_PORT := 2
  const UF_PATH := 3
  const UF_QUERY := 4
  const UF_FRAGMENT := 5
  const UF_USERINFO := 6
  const UF_MAX := 7

  type Field = f: nat | f < UF_MAX

  datatype Range = Range(off: nat, len: nat)

  /** `field_data` */
  type FieldData = d: seq<Range> | |d| == UF_MAX witness seq(UF_MAX, i => Range(0, 0))

  /** `struct http_parser_url` */
  datatype ParsedUrl = ParsedUrl(fields: set<Field>, port: nat, data: FieldData)

  /** Offsets and lengths have 16 bits. */
  function U16(x: nat): (r: nat)
    ensures r <= x && (x < 0x1_0000 ==> r == x)
  {
    x % 0x1_0000
  }

  function Put(u: ParsedUrl, f: Field, r: Range): ParsedUrl { u.(data := u.data[f := r]) }

  /** A field that starts at byte `i`. */
  function Open(u: ParsedUrl, f: Field, i: nat): ParsedUrl {
    Put(u, f, Range(U16(i), 1)).(fields := u.fields + {f})
  }

  /** One more byte of a field. */
  function Extend(u: ParsedUrl, f: Field): ParsedUrl {
    Put(u, f, u.data[f].(len := U16(u.data[f].len + 1)))
  }

  // ----- the scan of the whole URL -----

  /** The field that a byte belongs to, by the state after it; none for a delimiter. */
  function FieldOf(s: State): (f: nat)
    ensures f <= UF_MAX
  {
    match s
    case ReqSchema => UF_SCHEMA
    case ReqServer => UF_HOST
    case ReqServerWithAt => UF_HOST
    case ReqPath => UF_PATH
    case ReqQueryString => UF_QUERY
    case ReqFragment => UF_FRAGMENT
    case _ => UF_MAX
  }

  /** The variables of the loop: state, `old_uf`, `found_at`, the result so far, and the
      position. */
  datatype Scan = Scan(s: State, oldUf: nat, at: bool, u: ParsedUrl, i: nat)

  function ScanStep(sc: Scan, ch: Byte): Scan {
    var s := ParseUrlChar(sc.s, ch);
    var f := FieldOf(s);
    if sc.s.Dead? || s.Dead? then sc.(s := Dead)
    else if f == UF_MAX then sc.(s := s, i := sc.i + 1)
    else if f == sc.oldUf then Scan(s, f, sc.at || s.ReqServerWithAt?, Extend(sc.u, f), sc.i + 1)
    else Scan(s, f, sc.at || s.ReqServerWithAt?, Open(sc.u, f, sc.i), sc.i + 1)
  }

  function ScanAll(sc: Scan, text: seq<Byte>): Scan {
    if text == [] then sc else ScanStep(ScanAll(sc, text[..|text| - 1]), text[|text| - 1])
  }

  function ScanStart(isConnect: bool, prior: ParsedUrl): Scan {
    Scan(if isConnect then ReqServerStart else ReqSpacesBeforeUrl, UF_MAX, false, prior.(fields := {}, port := 0), 0)
  }

  // ----- the scan of the host part -----

  datatype HostState =
    | HostDead | UserinfoStart | Userinfo | HostStart | HostV6Start
    | HostName | HostV6 | HostV6End | HostPortStart | HostPort

  /** `http_parse_host_char` */
  function ParseHostChar(s: HostState, ch: Byte): HostState {
    match s
    case Userinfo => if ch == '@' then HostStart else if IsUserinfoChar(ch) then Userinfo else HostDead
    case UserinfoStart => if ch == '@' then HostStart else if IsUserinfoChar(ch) then Userinfo else HostDead
    case HostStart => if ch == '[' then HostV6Start else if IsHostChar(ch) then HostName else HostDead
    case HostName => if IsHostChar(ch) then HostName else if ch == ':' then HostPortStart else HostDead
    case HostV6End => if ch == ':' then HostPortStart else HostDead
    case HostV6 => if ch == ']' then HostV6End else ParseV6Char(ch)
    case HostV6Start => ParseV6Char(ch)
    case HostPort => if IsNum(ch) then HostPort else HostDead
    case HostPortStart => if IsNum(ch) then HostPort else HostDead
    case HostDead => HostDead
  }

  function ParseV6Char(ch: Byte): HostState {
    if IsHex(ch) || ch == ':' || ch == '.' then HostV6 else HostDead
  }

  datatype HostScan = HostScan(s: HostState, u: ParsedUrl, i: nat)

  function HostStep(h: HostScan, ch: Byte): HostScan {
    var t := ParseHostChar(h.s, ch);
    if t.HostDead? then h.(s := t)
    else HostScan(t, HostNote(h.s, t, h.u, h.i), h.i + 1)
  }

  /** What is recorded for a byte.  The host keeps the length it has, which was set to 0,
      while userinfo and port start their own. */
  function HostNote(s: HostState, t: HostState, u: ParsedUrl, i: nat): ParsedUrl {
    match t
    case HostName => Extend(if s != t then Put(u, UF_HOST, u.data[UF_HOST].(off := U16(i))) else u, UF_HOST)
    case HostV6 => Extend(if s != t then Put(u, UF_HOST, u.data[UF_HOST].(off := U16(i))) else u, UF_HOST)
    case HostPort => if s != t then Open(u, UF_PORT, i) else Extend(u, UF_PORT)
    case Userinfo => if s != t then Open(u, UF_USERINFO, i) else Extend(u, UF_USERINFO)
    case _ => u
  }

  function HostAll(h: HostScan, text: seq<Byte>): HostScan {
    if text == [] then h else HostStep(HostAll(h, text[..|text| - 1]), text[|text| - 1])
  }

  /** The states in which the host part may end. */
  predicate HostMayEnd(s: HostState) { s.HostName? || s.HostV6End? || s.HostPort? }

  function HostBegin(u: ParsedUrl, at: bool): HostScan {
    HostScan(if at then UserinfoStart else HostStart, Put(u, UF_HOST, u.data[UF_HOST].(len := 0)), u.data[UF_HOST].off)
  }

  datatype Result = Result(err: bool, u: ParsedUrl)

  /** `http_parse_host`; `mem` is the memory from the start of the buffer on. */
  function ParseHost(mem: seq<Byte>, u: ParsedUrl, at: bool): Result
    requires u.data[UF_HOST].off + u.data[UF_HOST].len <= |mem|
  {
    var r := u.data[UF_HOST];
    var h := HostAll(HostBegin(u, at), mem[r.off..r.off + r.len]);
    Result(!HostMayEnd(h.s), h.u)
  }

  // ----- the port number -----

  /** The digits that `strtoul` reads. */
  function Digits(mem: seq<Byte>, off: nat): (n: nat)
    requires off <= |mem|
    ensures off + n <= |mem| && (forall k | off <= k < off + n :: IsNum(mem[k]))
    ensures off + n < |mem| ==> !IsNum(mem[off + n])
    decreases |mem| - off
  {
    if off < |mem| && IsNum(mem[off]) then 1 + Digits(mem, off + 1) else 0
  }

  function Finish(mem: seq<Byte>, u: ParsedUrl, isConnect: bool): Result
    requires u.data[UF_PORT].off <= |mem|
  {
    if isConnect && u.fields != {UF_HOST, UF_PORT} then Result(true, u)
    else if UF_PORT !in u.fields then Result(false, u)
    else
      var off := u.data[UF_PORT].off;
      var v := DecValue(mem[off..off + Digits(mem, off)]);
      if v > 0xffff then Result(true, u) else Result(false, u.(port := v))
  }

  /** Ranges left in the structure by an earlier call that can still be read. */
  predicate Readable(u: ParsedUrl, mem: seq<Byte>) {
    u.data[UF_HOST].off + u.data[UF_HOST].len <= |mem| && u.data[UF_PORT].off <= |mem|
  }

  /** `http_parser_parse_url` on the first `n` bytes of the memory. */
  function ParseUrl(mem: seq<Byte>, n: nat, isConnect: bool, prior: ParsedUrl): Result
    requires n <= |mem| && Readable(prior, mem)
  {
    var sc := ScanAll(ScanStart(isConnect, prior), mem[..n]);
    ScanReadable(mem, n, isConnect, prior);
    if sc.s.Dead? then Result(true, sc.u)
    else if sc.u.fields * {UF_SCHEMA, UF_HOST} == {} then Finish(mem, sc.u, isConnect)
    else
      var h := ParseHost(mem, sc.u, sc.at);
      HostReadable(mem, sc.u, sc.at);
      if h.err then h else Finish(mem, h.u, isConnect)
  }

  predicate HostEnds(u: ParsedUrl, i: nat) { u.data[UF_HOST].off + u.data[UF_HOST].len <= i }

  lemma ScanStepReadable(mem: seq<Byte>, sc: Scan, ch: Byte)
    requires Readable(sc.u, mem) && sc.i < |mem| && (sc.oldUf == UF_HOST ==> HostEnds(sc.u, sc.i))
    ensures var r := ScanStep(sc, ch);
            Readable(r.u, mem) && r.i <= sc.i + 1 && (r.oldUf == UF_HOST ==> HostEnds(r.u, r.i))
  {
    hide ParseUrlChar, U16, FieldOf;
  }

  lemma {:induction false} ScanReadable(mem: seq<Byte>, n: nat, isConnect: bool, prior: ParsedUrl)
    requires n <= |mem| && Readable(prior, mem)
    ensures var sc := ScanAll(ScanStart(isConnect, prior), mem[..n]);
            Readable(sc.u, mem) && sc.i <= n && (sc.oldUf == UF_HOST ==> HostEnds(sc.u, sc.i))
  {
    hide ScanStep, HostEnds;
    if n > 0 {
      assert mem[..n][..n - 1] == mem[..n - 1];
      ScanReadable(mem, n - 1, isConnect, prior);
      ScanStepReadable(mem, ScanAll(ScanStart(isConnect, prior), mem[..n - 1]), mem[n - 1]);
    }
  }

  /** The states before the first byte of the host itself. */
  predicate BeforeHost(s: HostState) { s.UserinfoStart? || s.Userinfo? || s.HostStart? || s.HostV6Start? }

  predicate HostOk(h: HostScan) {
    HostEnds(h.u, h.i) && (BeforeHost(h.s) ==> h.u.data[UF_HOST].len == 0)
  }

  lemma HostStepReadable(mem: seq<Byte>, h: HostScan, ch: Byte)
    requires Readable(h.u, mem) && h.i < |mem| && HostOk(h)
    ensures var r := HostStep(h, ch);
            Readable(r.u, mem) && r.i <= h.i + 1 && HostOk(r)
  {
    hide U16, IsUserinfoChar, IsHostChar, IsHex, IsNum;
  }

  lemma {:induction false} HostAllReadable(mem: seq<Byte>, h: HostScan, k: nat)
    requires Readable(h.u, mem) && h.i + k <= |mem| && HostOk(h)
    ensures var r := HostAll(h, mem[h.i..h.i + k]);
            Readable(r.u, mem) && r.i <= h.i + k && HostOk(r)
  {
    hide HostStep, HostOk, Readable;
    if k > 0 {
      assert mem[h.i..h.i + k][..k - 1] == mem[h.i..h.i + (k - 1)];
      HostAllReadable(mem, h, k - 1);
      HostStepReadable(mem, HostAll(h, mem[h.i..h.i + (k - 1)]), mem[h.i + k - 1]);
    }
  }

  lemma HostReadable(mem: seq<Byte>, u: ParsedUrl, at: bool)
    requires Readable(u, mem)
    ensures Readable(ParseHost(mem, u, at).u, mem)
  {
    hide HostAll;
    HostAllReadable(mem, HostBegin(u, at), u.data[UF_HOST].len);
  }

  // ----- fields are in bounds and disjoint -----

  function End(u: ParsedUrl, f: Field): nat { u.data[f].off + u.data[f].len }

  predicate Inside(u: ParsedUrl, f: Field, lo: nat, hi: nat) {
    lo <= u.data[f].off && u.data[f].len > 0 && End(u, f) <= hi
  }

  predicate Disjoint(u: ParsedUrl, f: Field, g: Field) {
    End(u, f) <= u.data[g].off || End(u, g) <= u.data[f].off
  }

  /** The fields that are set lie within the first `n` bytes and share none. */
  ghost predicate RangesOk(u: ParsedUrl, n: nat) {
    && (forall f: Field | f in u.fields :: Inside(u, f, 0, n))
    && (forall f: Field, g: Field | f in u.fields && g in u.fields && f != g :: Disjoint(u, f, g))
  }

  /** States in the order in which the scan goes through them. */
  function Rank(s: State): nat {
    match s
    case ReqSpacesBeforeUrl => 0
    case ReqSchema => 1
    case ReqSchemaSlash => 2
    case ReqSchemaSlashSlash => 3
    case ReqServerStart => 4
    case ReqServer => 5
    case ReqServerWithAt => 5
    case ReqPath => 6
    case ReqQueryStringStart => 7
    case ReqQueryString => 8
    case ReqFragmentStart => 9
    case ReqFragment => 10
    case _ => 11
  }

  function FieldRank(f: nat): nat {
    if f == UF_SCHEMA then 1 else if f == UF_HOST then 5 else if f == UF_PATH then 6
    else if f == UF_QUERY then 8 else if f == UF_FRAGMENT then 10 else 0
  }

  lemma RankGrows(s: State, ch: Byte)
    requires !ParseUrlChar(s, ch).Dead?
    ensures var t := ParseUrlChar(s, ch);
            && Rank(s) <= Rank(t) && (FieldOf(s) != UF_MAX && FieldOf(t) == UF_MAX ==> Rank(s) < Rank(t))
            && (FieldOf(t) != UF_MAX ==> FieldRank(FieldOf(t)) == Rank(t))
  {
    hide IsUrlChar, IsUserinfoChar, IsAlpha;
  }

  ghost predicate ScanOk(sc: Scan) {
    && RangesOk(sc.u, sc.i) && !(UF_PORT in sc.u.fields || UF_USERINFO in sc.u.fields)
    && (sc.oldUf < UF_MAX ==> sc.oldUf in sc.u.fields) && sc.oldUf <= UF_MAX
    && FieldRank(sc.oldUf) <= Rank(sc.s) && (FieldOf(sc.s) == UF_MAX ==> FieldRank(sc.oldUf) < Rank(sc.s) || sc.oldUf == UF_MAX)
    && (FieldOf(sc.s) != UF_MAX ==> sc.oldUf == FieldOf(sc.s) && End(sc.u, sc.oldUf) == sc.i)
  }

  lemma OpenOk(u: ParsedUrl, f: Field, i: nat)
    requires RangesOk(u, i) && i < 0x1_0000
    ensures RangesOk(Open(u, f, i), i + 1) && End(Open(u, f, i), f) == i + 1
  {
    hide U16;
  }

  lemma ExtendOk(u: ParsedUrl, f: Field, i: nat)
    requires RangesOk(u, i) && i < 0xffff && f in u.fields && End(u, f) == i
    ensures RangesOk(Extend(u, f), i + 1) && End(Extend(u, f), f) == i + 1
  {
    hide U16;
    assert Inside(u, f, 0, i);
    forall g: Field | g in u.fields && g != f ensures Disjoint(Extend(u, f), f, g) && Inside(u, g, 0, i) {
      assert Disjoint(u, f, g);
    }
  }

  lemma RangesOkLater(u: ParsedUrl, i: nat)
    requires RangesOk(u, i)
    ensures RangesOk(u, i + 1)
  {
    forall f: Field | f in u.fields ensures Inside(u, f, 0, i + 1) {
      assert Inside(u, f, 0, i);
    }
  }

  lemma ScanStepOk(sc: Scan, ch: Byte)
    requires ScanOk(sc) && sc.i < 0xffff && !ScanStep(sc, ch).s.Dead?
    ensures ScanOk(ScanStep(sc, ch))
  {
    hide RangesOk, ParseUrlChar, Rank, FieldOf, Open, Extend, Disjoint, Inside;
    RankGrows(sc.s, ch);
    var f := FieldOf(ParseUrlChar(sc.s, ch));
    if f == UF_MAX {
      RangesOkLater(sc.u, sc.i);
    } else if f == sc.oldUf {
      SameFieldContinues(sc, ch);
      ExtendOk(sc.u, f, sc.i);
      OnlyScanned(sc.s, ch);
      assert Extend(sc.u, f).fields == sc.u.fields by { FieldsKept(sc.u, f, 0); }
    } else {
      OpenOk(sc.u, f, sc.i);
      OnlyScanned(sc.s, ch);
      FieldsKept(sc.u, f, sc.i);
    }
  }

  lemma FieldsKept(u: ParsedUrl, f: Field, i: nat)
    ensures Extend(u, f).fields == u.fields && Open(u, f, i).fields == u.fields + {f}
  {
  }

  lemma OnlyScanned(s: State, ch: Byte)
    ensures FieldOf(ParseUrlChar(s, ch)) != UF_PORT && FieldOf(ParseUrlChar(s, ch)) != UF_USERINFO
  {
    hide ParseUrlChar;
  }

  lemma SameFieldContinues(sc: Scan, ch: Byte)
    requires ScanOk(sc) && !ParseUrlChar(sc.s, ch).Dead?
    requires FieldOf(ParseUrlChar(sc.s, ch)) == sc.oldUf < UF_MAX
    ensures FieldOf(sc.s) == sc.oldUf && End(sc.u, sc.oldUf) == sc.i
  {
    hide RangesOk, ParseUrlChar, Rank, FieldOf;
    RankGrows(sc.s, ch);
  }

  lemma {:induction false} ScanAllOk(mem: seq<Byte>, n: nat, isConnect: bool, prior: ParsedUrl)
    requires n <= |mem| && n <= 0xffff && !ScanAll(ScanStart(isConnect, prior), mem[..n]).s.Dead?
    ensures var sc := ScanAll(ScanStart(isConnect, prior), mem[..n]);
            ScanOk(sc) && sc.i == n
  {
    hide ScanStep, ScanOk;
    if n > 0 {
      assert mem[..n][..n - 1] == mem[..n - 1];
      var sc := ScanAll(ScanStart(isConnect, prior), mem[..n - 1]);
      StepAlive(sc, mem[n - 1]);
      ScanAllOk(mem, n - 1, isConnect, prior);
      ScanStepOk(sc, mem[n - 1]);
    } else {
      StartOk(isConnect, prior);
    }
  }

  lemma StartOk(isConnect: bool, prior: ParsedUrl)
    ensures ScanOk(ScanStart(isConnect, prior))
  {
  }

  lemma StepAlive(sc: Scan, ch: Byte)
    requires !ScanStep(sc, ch).s.Dead?
    ensures !sc.s.Dead? && ScanStep(sc, ch).i == sc.i + 1
  {
  }

  predicate IsHostPart(f: nat) { f == UF_HOST || f == UF_PORT || f == UF_USERINFO }

  /** The ranges found so far in the host part, which starts at `o`. */
  predicate HostRanges(h: HostScan, o: nat) {
    var u := h.u;
    && o <= h.i
    && (UF_USERINFO in u.fields ==> Inside(u, UF_USERINFO, o, h.i))
    && (UF_PORT in u.fields <==> h.s.HostPort?)
    && match h.s
       case UserinfoStart => UF_USERINFO !in u.fields && u.data[UF_HOST].len == 0
       case Userinfo => UF_USERINFO in u.fields && End(u, UF_USERINFO) == h.i && u.data[UF_HOST].len == 0
       case HostStart => u.data[UF_HOST].len == 0
       case HostV6Start => u.data[UF_HOST].len == 0
       case HostName => HostFound(u, o, h.i) && End(u, UF_HOST) == h.i
       case HostV6 => HostFound(u, o, h.i) && End(u, UF_HOST) == h.i
       case HostV6End => HostFound(u, o, h.i)
       case HostPortStart => HostFound(u, o, h.i)
       case HostPort =>
         && HostFound(u, o, h.i)
         && Inside(u, UF_PORT, o, h.i) && End(u, UF_PORT) == h.i && End(u, UF_HOST) <= u.data[UF_PORT].off
       case HostDead => false
  }

  predicate HostFound(u: ParsedUrl, o: nat, i: nat) {
    && Inside(u, UF_HOST, o, i)
    && (UF_USERINFO in u.fields ==> End(u, UF_USERINFO) <= u.data[UF_HOST].off)
  }

  lemma HostStepRanges(h: HostScan, ch: Byte, o: nat)
    requires HostRanges(h, o) && h.i < 0xffff && !HostStep(h, ch).s.HostDead?
    ensures HostRanges(HostStep(h, ch), o)
  {
    hide U16, IsUserinfoChar, IsHostChar, IsHex, IsNum;
  }

  /** The host part leaves the other fields alone. */
  ghost predicate OthersKept(u: ParsedUrl, r: ParsedUrl) {
    && (forall f: Field | !IsHostPart(f) :: r.data[f] == u.data[f])
    && (forall f | f != UF_PORT && f != UF_USERINFO :: f in r.fields <==> f in u.fields)
  }

  lemma HostStepKeeps(h: HostScan, ch: Byte)
    ensures OthersKept(h.u, HostStep(h, ch).u)
  {
    hide U16, ParseHostChar;
  }

  lemma {:induction false} HostAllOk(h: HostScan, text: seq<Byte>, o: nat)
    requires HostRanges(h, o) && h.i + |text| <= 0xffff && !HostAll(h, text).s.HostDead?
    ensures HostRanges(HostAll(h, text), o) && HostAll(h, text).i == h.i + |text|
    ensures OthersKept(h.u, HostAll(h, text).u)
  {
    hide HostStep, HostRanges;
    if text != [] {
      var n := |text| - 1;
      var g := HostAll(h, text[..n]);
      HostAlive(g, text[n]);
      HostAllOk(h, text[..n], o);
      HostStepRanges(g, text[n], o);
      HostStepKeeps(g, text[n]);
    }
  }

  lemma HostAlive(h: HostScan, ch: Byte)
    requires !HostStep(h, ch).s.HostDead?
    ensures !h.s.HostDead? && HostStep(h, ch).i == h.i + 1
  {
  }

  /** The parts of the host lie where the whole was, so all fields stay disjoint. */
  lemma PartsOfHost(u: ParsedUrl, r: ParsedUrl, s: HostState, n: nat)
    requires RangesOk(u, n) && UF_HOST in u.fields && UF_PORT !in u.fields && UF_USERINFO !in u.fields
    requires OthersKept(u, r) && HostMayEnd(s) && HostRanges(HostScan(s, r, End(u, UF_HOST)), u.data[UF_HOST].off)
    ensures RangesOk(r, n)
  {
    var o, e := u.data[UF_HOST].off, End(u, UF_HOST);
    assert Inside(u, UF_HOST, 0, n);
    forall f: Field | f in r.fields ensures Inside(r, f, 0, n) && (IsHostPart(f) ==> Inside(r, f, o, e)) {
      if !IsHostPart(f) {
        assert Inside(u, f, 0, n);
      }
    }
    forall f: Field, g: Field | f in r.fields && g in r.fields && f != g ensures Disjoint(r, f, g) {
      if !IsHostPart(f) && !IsHostPart(g) {
        assert Disjoint(u, f, g);
      } else if !IsHostPart(f) {
        assert Disjoint(u, f, UF_HOST) && Inside(r, g, o, e);
      } else if !IsHostPart(g) {
        assert Disjoint(u, g, UF_HOST) && Inside(r, f, o, e);
      }
    }
  }

  lemma {:induction false} HostFields(h: HostScan, text: seq<Byte>)
    ensures forall f | f != UF_PORT && f != UF_USERINFO :: f in HostAll(h, text).u.fields <==> f in h.u.fields
  {
    hide U16, ParseHostChar;
    if text != [] {
      HostFields(h, text[..|text| - 1]);
    }
  }

  lemma HostRangesStart(u: ParsedUrl, at: bool)
    requires UF_PORT !in u.fields && UF_USERINFO !in u.fields
    ensures HostRanges(HostBegin(u, at), u.data[UF_HOST].off) && OthersKept(u, HostBegin(u, at).u)
  {
  }

  /** On success every field that is set is a non-empty range of the URL, and no two of them
      overlap, if the URL has a host or needs none. */
  lemma HostFieldsDisjoint(mem: seq<Byte>, n: nat, isConnect: bool, prior: ParsedUrl)
    requires n <= |mem| && n <= 0xffff && Readable(prior, mem) && !ParseUrl(mem, n, isConnect, prior).err
    requires var u := ParseUrl(mem, n, isConnect, prior).u; UF_HOST in u.fields || UF_SCHEMA !in u.fields
    ensures RangesOk(ParseUrl(mem, n, isConnect, prior).u, n)
  {
    hide ScanAll, HostAll, RangesOk, HostRanges, ScanStart, Digits, DecValue, HostMayEnd;
    var sc := ScanAll(ScanStart(isConnect, prior), mem[..n]);
    ScanReadable(mem, n, isConnect, prior);
    ScanAllOk(mem, n, isConnect, prior);
    var u := sc.u;
    Either(u.fields);
    if UF_HOST in u.fields || UF_SCHEMA in u.fields {
      HostReadable(mem, u, sc.at);
      var o := u.data[UF_HOST].off;
      var text := mem[o..End(u, UF_HOST)];
      var h := HostAll(HostBegin(u, sc.at), text);
      HostRangesStart(u, sc.at);
      assert ParseHost(mem, u, sc.at) == Result(!HostMayEnd(h.s), h.u);
      MayEndAlive(h.s);
      UrlInBounds(u, n);
      HostFields(HostBegin(u, sc.at), text);
      if UF_HOST in u.fields {
        HostAllOk(HostBegin(u, sc.at), text, o);
        PartsOfHost(u, h.u, h.s, n);
        RangesOfPort(h.u, Finish(mem, h.u, isConnect).u, n);
      }
    }
  }

  lemma MayEndAlive(s: HostState)
    requires HostMayEnd(s)
    ensures !s.HostDead?
  {
  }

  lemma UrlInBounds(u: ParsedUrl, n: nat)
    requires RangesOk(u, n)
    ensures UF_HOST in u.fields ==> End(u, UF_HOST) <= n
  {
    assert UF_HOST in u.fields ==> Inside(u, UF_HOST, 0, n);
  }

  lemma RangesOfPort(u: ParsedUrl, r: ParsedUrl, n: nat)
    requires RangesOk(u, n) && r == u.(port := r.port)
    ensures RangesOk(r, n)
  {
    forall f: Field | f in r.fields ensures Inside(r, f, 0, n) {
      assert Inside(u, f, 0, n);
    }
    forall f: Field, g: Field | f in r.fields && g in r.fields && f != g ensures Disjoint(r, f, g) {
      assert Disjoint(u, f, g);
    }
  }

  // ----- a schema without a host -----

  lemma {:induction false} HostUntouched(sc: Scan, text: seq<Byte>)
    requires UF_HOST !in ScanAll(sc, text).u.fields && (sc.oldUf == UF_HOST ==> UF_HOST in sc.u.fields)
    ensures UF_HOST !in sc.u.fields && ScanAll(sc, text).u.data[UF_HOST] == sc.u.data[UF_HOST]
    ensures ScanAll(sc, text).oldUf != UF_HOST
  {
    hide U16, ParseUrlChar, FieldOf;
    if text != [] {
      HostUntouched(sc, text[..|text| - 1]);
    }
  }

  /** With a structure that was cleared before the call, a schema needs a host. */
  lemma SchemaNeedsHost(mem: seq<Byte>, n: nat, isConnect: bool, prior: ParsedUrl)
    requires n <= |mem| && Readable(prior, mem) && prior.data[UF_HOST].len == 0
    requires !ParseUrl(mem, n, isConnect, prior).err && UF_SCHEMA in ParseUrl(mem, n, isConnect, prior).u.fields
    ensures UF_HOST in ParseUrl(mem, n, isConnect, prior).u.fields
  {
    hide ScanStep, HostStep, Digits, DecValue, FieldOf;
    var sc := ScanAll(ScanStart(isConnect, prior), mem[..n]);
    ScanReadable(mem, n, isConnect, prior);
    HostReadable(mem, sc.u, sc.at);
    Either(sc.u.fields);
    if UF_HOST !in sc.u.fields {
      HostUntouched(ScanStart(isConnect, prior), mem[..n]);
      EmptyHostFails(mem, sc.u, sc.at);
    } else {
      HostKeepsSet(HostBegin(sc.u, sc.at), mem[sc.u.data[UF_HOST].off..End(sc.u, UF_HOST)]);
    }
  }

  lemma Either(fields: set<nat>)
    ensures UF_SCHEMA in fields || UF_HOST in fields <==> fields * {UF_SCHEMA, UF_HOST} != {}
  {
    assert UF_SCHEMA in fields ==> UF_SCHEMA in fields * {UF_SCHEMA, UF_HOST};
    assert UF_HOST in fields ==> UF_HOST in fields * {UF_SCHEMA, UF_HOST};
  }

  lemma EmptyHostFails(mem: seq<Byte>, u: ParsedUrl, at: bool)
    requires u.data[UF_HOST].len == 0 && u.data[UF_HOST].off <= |mem|
    ensures ParseHost(mem, u, at).err
  {
    assert mem[u.data[UF_HOST].off..u.data[UF_HOST].off] == [];
  }

  lemma {:induction false} HostKeepsSet(h: HostScan, text: seq<Byte>)
    ensures h.u.fields <= HostAll(h, text).u.fields
  {
    hide U16, ParseHostChar;
    if text != [] {
      HostKeepsSet(h, text[..|text| - 1]);
    }
  }

  lemma ScanSnoc(sc: Scan, text: seq<Byte>, ch: Byte)
    ensures ScanAll(sc, text + [ch]) == ScanStep(ScanAll(sc, text), ch)
  {
    assert (text + [ch])[..|text|] == text;
  }

  lemma HostSnoc(h: HostScan, text: seq<Byte>, ch: Byte)
    ensures HostAll(h, text + [ch]) == HostStep(HostAll(h, text), ch)
  {
    assert (text + [ch])[..|text|] == text;
  }

  lemma ScanNone(sc: Scan)
    ensures ScanAll(sc, []) == sc
  {
  }

  // ----- a host left by an earlier call -----

  /** Success with a schema means that there is a host as well. */
  ghost predicate SchemaHasHost(prior: ParsedUrl) {
    forall mem: seq<Byte>, n: nat, isConnect: bool |
        n <= |mem| && Readable(prior, mem) && !ParseUrl(mem, n, isConnect, prior).err
        && UF_SCHEMA in ParseUrl(mem, n, isConnect, prior).u.fields ::
      UF_HOST in ParseUrl(mem, n, isConnect, prior).u.fields
  }

  function Letters(n: nat): (s: seq<Byte>)
    ensures |s| == n && forall i | 0 <= i < n :: s[i] == 'a'
  {
    seq(n, _ => 'a')
  }

  /** The scan has seen a schema, and no host or port has been touched. */
  predicate SchemaSeen(sc: Scan, s: State, prior: ParsedUrl, n: nat) {
    && sc.s == s && sc.oldUf == UF_SCHEMA && !sc.at && sc.i == n && sc.u.fields == {UF_SCHEMA}
    && sc.u.data[UF_HOST] == prior.data[UF_HOST] && sc.u.data[UF_PORT] == prior.data[UF_PORT]
  }

  lemma {:induction false} ScanLetters(prior: ParsedUrl, n: nat)
    requires n > 0
    ensures SchemaSeen(ScanAll(ScanStart(false, prior), Letters(n)), ReqSchema, prior, n)
  {
    hide U16;
    assert Letters(n)[..n - 1] == Letters(n - 1);
    if n > 1 {
      ScanLetters(prior, n - 1);
    } else {
      ScanNone(ScanStart(false, prior));
    }
  }

  lemma ScanSchema(prior: ParsedUrl, n: nat)
    requires n > 0
    ensures var sc := ScanAll(ScanStart(false, prior), Letters(n) + ":///");
            && sc.s == ReqPath && !sc.at && sc.u.fields == {UF_SCHEMA, UF_PATH}
            && sc.u.data[UF_HOST] == prior.data[UF_HOST] && sc.u.data[UF_PORT] == prior.data[UF_PORT]
  {
    hide ScanAll, ScanStep, U16, Letters, ScanStart;
    var sc, a := ScanStart(false, prior), Letters(n);
    ScanLetters(prior, n);
    ScanSnoc(sc, a, ':');
    ScanDelimiter(ScanAll(sc, a), ':', prior, n);
    ScanSnoc(sc, a + ":", '/');
    ScanDelimiter(ScanAll(sc, a + ":"), '/', prior, n + 1);
    assert a + ":" + "/" == a + ":/";
    ScanSnoc(sc, a + ":/", '/');
    ScanDelimiter(ScanAll(sc, a + ":/"), '/', prior, n + 2);
    assert a + ":/" + "/" == a + "://";
    ScanSnoc(sc, a + "://", '/');
    ScanDelimiter(ScanAll(sc, a + "://"), '/', prior, n + 3);
    assert a + "://" + "/" == a + ":///";
  }

  /** The delimiters behind a schema, and the slash that begins the path. */
  lemma ScanDelimiter(sc: Scan, ch: Byte, prior: ParsedUrl, n: nat)
    requires SchemaSeen(sc, sc.s, prior, n)
    ensures sc.s.ReqSchema? && ch == ':' ==> SchemaSeen(ScanStep(sc, ch), ReqSchemaSlash, prior, n + 1)
    ensures sc.s.ReqSchemaSlash? && ch == '/' ==> SchemaSeen(ScanStep(sc, ch), ReqSchemaSlashSlash, prior, n + 1)
    ensures sc.s.ReqSchemaSlashSlash? && ch == '/' ==> SchemaSeen(ScanStep(sc, ch), ReqServerStart, prior, n + 1)
    ensures sc.s.ReqServerStart? && ch == '/' ==>
              var r := ScanStep(sc, ch);
              && r.s == ReqPath && !r.at && r.u.fields == {UF_SCHEMA, UF_PATH}
              && r.u.data[UF_HOST] == prior.data[UF_HOST] && r.u.data[UF_PORT] == prior.data[UF_PORT]
  {
    hide U16;
  }

  lemma {:induction false} HostLetters(h: HostScan, n: nat)
    requires h.s.HostStart?
    ensures HostAll(h, Letters(n)).u.fields == h.u.fields
    ensures HostAll(h, Letters(n)).s == if n == 0 then HostStart else HostName
  {
    hide U16;
    if n > 0 {
      assert Letters(n)[..n - 1] == Letters(n - 1);
      HostLetters(h, n - 1);
    }
  }

  /** If the structure still holds a host of an earlier call, then there is a URL with a
      schema and an empty host that passes: the old range is taken for the host. */
  lemma StaleHost(prior: ParsedUrl) returns (mem: seq<Byte>)
    requires prior.data[UF_HOST].len > 0
    ensures Readable(prior, mem) && !ParseUrl(mem, |mem|, false, prior).err
    ensures ParseUrl(mem, |mem|, false, prior).u.fields == {UF_SCHEMA, UF_PATH}
  {
    hide ScanAll, ScanStart, HostAll, U16, Letters;
    var r := prior.data[UF_HOST];
    var n := r.off + r.len + prior.data[UF_PORT].off;
    mem := Letters(n) + ":///";
    assert mem[..|mem|] == mem;
    ScanSchema(prior, n);
    var sc := ScanAll(ScanStart(false, prior), mem);
    Either(sc.u.fields);
    assert mem[r.off..r.off + r.len] == Letters(r.len);
    HostLetters(HostBegin(sc.u, false), r.len);
    HostReadable(mem, sc.u, false);
  }

  /** A URL with a schema always has a host if and only if the structure holds no host when
      the function is called. */
  lemma SchemaNeedsHostExactly(prior: ParsedUrl)
    ensures SchemaHasHost(prior) <==> prior.data[UF_HOST].len == 0
  {
    hide ParseUrl;
    if prior.data[UF_HOST].len == 0 {
      forall mem: seq<Byte>, n: nat, isConnect: bool |
          n <= |mem| && Readable(prior, mem) && !ParseUrl(mem, n, isConnect, prior).err
          && UF_SCHEMA in ParseUrl(mem, n, isConnect, prior).u.fields
        ensures UF_HOST in ParseUrl(mem, n, isConnect, prior).u.fields {
        SchemaNeedsHost(mem, n, isConnect, prior);
      }
    } else {
      var mem := StaleHost(prior);
      assert UF_SCHEMA in ParseUrl(mem, |mem|, false, prior).u.fields;
    }
  }

  // ----- URLs longer than the 16-bit fields can describe -----

  /** No field that is set reaches behind position `i`. */
  ghost predicate Within(u: ParsedUrl, i: nat) {
    forall f: Field | f in u.fields :: End(u, f) <= i
  }

  lemma ScanStepWithin(sc: Scan, ch: Byte)
    requires Within(sc.u, sc.i) && (sc.oldUf < UF_MAX ==> sc.oldUf in sc.u.fields)
    ensures var r := ScanStep(sc, ch);
            Within(r.u, r.i) && (r.oldUf < UF_MAX ==> r.oldUf in r.u.fields)
  {
    hide ParseUrlChar, FieldOf, U16;
    var f := FieldOf(ParseUrlChar(sc.s, ch));
    if f < UF_MAX && f == sc.oldUf {
      assert End(sc.u, f) <= sc.i;
    }
  }

  lemma {:induction false} ScanAllWithin(mem: seq<Byte>, n: nat, isConnect: bool, prior: ParsedUrl)
    requires n <= |mem|
    ensures var sc := ScanAll(ScanStart(isConnect, prior), mem[..n]);
            && Within(sc.u, sc.i) && sc.i <= n && (sc.oldUf < UF_MAX ==> sc.oldUf in sc.u.fields)
            && UF_PORT !in sc.u.fields && UF_USERINFO !in sc.u.fields
  {
    hide ScanStep, Within;
    if n > 0 {
      assert mem[..n][..n - 1] == mem[..n - 1];
      ScanAllWithin(mem, n - 1, isConnect, prior);
      ScanStepWithin(ScanAll(ScanStart(isConnect, prior), mem[..n - 1]), mem[n - 1]);
      ScanStepOnly(ScanAll(ScanStart(isConnect, prior), mem[..n - 1]), mem[n - 1]);
    } else {
      assert Within(ScanStart(isConnect, prior).u, 0) by {
        StartWithin(isConnect, prior);
      }
    }
  }

  lemma StartWithin(isConnect: bool, prior: ParsedUrl)
    ensures Within(ScanStart(isConnect, prior).u, 0)
  {
  }

  lemma ScanStepOnly(sc: Scan, ch: Byte)
    requires UF_PORT !in sc.u.fields && UF_USERINFO !in sc.u.fields
    ensures var r := ScanStep(sc, ch);
            UF_PORT !in r.u.fields && UF_USERINFO !in r.u.fields && r.i <= sc.i + 1
  {
    hide ParseUrlChar;
  }

  /** The host scan: what it has found ends where it stands. */
  predicate HostWithin(h: HostScan) {
    && End(h.u, UF_HOST) <= h.i
    && (UF_PORT in h.u.fields ==> End(h.u, UF_PORT) <= h.i)
    && (UF_USERINFO in h.u.fields ==> End(h.u, UF_USERINFO) <= h.i)
    && (h.s.HostPort? ==> UF_PORT in h.u.fields) && (h.s.Userinfo? ==> UF_USERINFO in h.u.fields)
    && (BeforeHost(h.s) ==> h.u.data[UF_HOST].len == 0)
  }

  lemma HostStepWithin(h: HostScan, ch: Byte)
    requires HostWithin(h)
    ensures HostWithin(HostStep(h, ch)) && OthersKept(h.u, HostStep(h, ch).u) && HostStep(h, ch).i <= h.i + 1
  {
    hide U16, IsUserinfoChar, IsHostChar, IsHex, IsNum;
  }

  lemma {:induction false} HostAllWithin(h: HostScan, text: seq<Byte>)
    requires HostWithin(h)
    ensures HostWithin(HostAll(h, text)) && OthersKept(h.u, HostAll(h, text).u) && HostAll(h, text).i <= h.i + |text|
  {
    hide HostStep, HostWithin;
    if text != [] {
      var n := |text| - 1;
      HostAllWithin(h, text[..n]);
      HostStepWithin(HostAll(h, text[..n]), text[n]);
    }
  }

  lemma HostPartWithin(u: ParsedUrl, h: HostScan, n: nat)
    requires Within(u, n) && OthersKept(u, h.u) && HostWithin(h) && h.i <= n
    ensures Within(h.u, n)
  {
    forall f: Field | f in h.u.fields ensures End(h.u, f) <= n {
      if !IsHostPart(f) {
        assert f in u.fields && End(u, f) <= n;
      }
    }
  }

  /** However long the URL is: on success no field reaches behind its end, if the URL has a
      host or needs none. */
  lemma HostFieldsInside(mem: seq<Byte>, n: nat, isConnect: bool, prior: ParsedUrl)
    requires n <= |mem| && Readable(prior, mem) && !ParseUrl(mem, n, isConnect, prior).err
    requires var u := ParseUrl(mem, n, isConnect, prior).u; UF_HOST in u.fields || UF_SCHEMA !in u.fields
    ensures Within(ParseUrl(mem, n, isConnect, prior).u, n)
  {
    hide ScanAll, HostAll, ScanStart, Digits, DecValue, HostMayEnd, U16;
    var sc := ScanAll(ScanStart(isConnect, prior), mem[..n]);
    ScanReadable(mem, n, isConnect, prior);
    ScanAllWithin(mem, n, isConnect, prior);
    var u := sc.u;
    Either(u.fields);
    if UF_HOST in u.fields || UF_SCHEMA in u.fields {
      HostReadable(mem, u, sc.at);
      var h := HostAll(HostBegin(u, sc.at), mem[u.data[UF_HOST].off..End(u, UF_HOST)]);
      HostAllWithin(HostBegin(u, sc.at), mem[u.data[UF_HOST].off..End(u, UF_HOST)]);
      HostKept(u, sc.at, h);
      if UF_HOST in u.fields {
        assert End(u, UF_HOST) <= n;
        HostPartWithin(u, h, n);
      }
    }
  }

  lemma HostKept(u: ParsedUrl, at: bool, h: HostScan)
    requires OthersKept(HostBegin(u, at).u, h.u)
    ensures OthersKept(u, h.u) && (UF_HOST in h.u.fields <==> UF_HOST in u.fields)
  {
    forall f: Field | !IsHostPart(f) ensures h.u.data[f] == u.data[f] {
      assert HostBegin(u, at).u.data[f] == u.data[f];
    }
  }

  // ----- a host left by an earlier call, again -----

  /** A host of at most two bytes has no port. */
  lemma ShortHost(u: ParsedUrl, text: seq<Byte>)
    requires |text| < 3 && UF_PORT !in u.fields && UF_USERINFO !in u.fields
    ensures HostAll(HostBegin(u, false), text).u.fields == u.fields
  {
    hide IsUserinfoChar, IsHostChar, IsHex, IsNum;
    var h := HostBegin(u, false);
    HostNone(h);
    if |text| == 1 {
      assert text[..0] == [];
    } else if |text| == 2 {
      assert text[..1][..0] == [] && text[..1] == [text[0]];
      HostSnoc(h, [], text[0]);
      HostSnoc(h, [text[0]], text[1]);
      assert [] + [text[0]] == [text[0]] && [text[0]] + [text[1]] == text;
    }
  }

  lemma HostNone(h: HostScan)
    ensures HostAll(h, []) == h
  {
  }

  lemma {:induction false} NoHostNoAt(sc: Scan, text: seq<Byte>)
    requires UF_HOST !in ScanAll(sc, text).u.fields && !sc.at && sc.oldUf != UF_HOST
    ensures !ScanAll(sc, text).at && UF_HOST !in sc.u.fields && ScanAll(sc, text).oldUf != UF_HOST
  {
    hide U16, ParseUrlChar;
    if text != [] {
      NoHostNoAt(sc, text[..|text| - 1]);
    }
  }

  /** With at most two bytes of an earlier host, a URL that has a schema and no host sets
      nothing but what the scan has found. */
  lemma ShortStaleHost(mem: seq<Byte>, n: nat, isConnect: bool, prior: ParsedUrl)
    requires n <= |mem| && Readable(prior, mem) && prior.data[UF_HOST].len < 3
    requires !ParseUrl(mem, n, isConnect, prior).err && UF_HOST !in ParseUrl(mem, n, isConnect, prior).u.fields
    ensures var u, v := ScanAll(ScanStart(isConnect, prior), mem[..n]).u, ParseUrl(mem, n, isConnect, prior).u;
            v.fields == u.fields && forall f | f in u.fields :: v.data[f] == u.data[f]
  {
    hide ScanStep, HostStep, HostAll, Digits, DecValue, FieldOf, ScanAll;
    var sc := ScanAll(ScanStart(isConnect, prior), mem[..n]);
    ScanReadable(mem, n, isConnect, prior);
    ScanAllWithin(mem, n, isConnect, prior);
    HostReadable(mem, sc.u, sc.at);
    Either(sc.u.fields);
    var text := mem[sc.u.data[UF_HOST].off..End(sc.u, UF_HOST)];
    HostKeepsSet(HostBegin(sc.u, sc.at), text);
    HostUntouched(ScanStart(isConnect, prior), mem[..n]);
    NoHostNoAt(ScanStart(isConnect, prior), mem[..n]);
    ShortHost(sc.u, text);
    HostAllOthers(HostBegin(sc.u, false), text);
    HostKept(sc.u, false, HostAll(HostBegin(sc.u, false), text));
    assert forall f | f in sc.u.fields :: !IsHostPart(f);
  }

  lemma {:induction false} HostAllOthers(h: HostScan, text: seq<Byte>)
    ensures OthersKept(h.u, HostAll(h, text).u)
  {
    hide HostStep;
    if text != [] {
      HostAllOthers(h, text[..|text| - 1]);
      HostStepKeeps(HostAll(h, text[..|text| - 1]), text[|text| - 1]);
    }
  }

  /** On success every field that is set is a non-empty range of the URL, and no two of them
      overlap, if the structure holds at most two bytes of an earlier host. */
  lemma FieldsDisjoint(mem: seq<Byte>, n: nat, isConnect: bool, prior: ParsedUrl)
    requires n <= |mem| && n <= 0xffff && Readable(prior, mem) && prior.data[UF_HOST].len < 3
    requires !ParseUrl(mem, n, isConnect, prior).err
    ensures RangesOk(ParseUrl(mem, n, isConnect, prior).u, n)
  {
    hide ParseUrl, RangesOk, ScanAll;
    var u, v := ScanAll(ScanStart(isConnect, prior), mem[..n]).u, ParseUrl(mem, n, isConnect, prior).u;
    if UF_HOST in v.fields {
      HostFieldsDisjoint(mem, n, isConnect, prior);
    } else {
      ShortStaleHost(mem, n, isConnect, prior);
      SuccessIsAlive(mem, n, isConnect, prior);
      ScanAllOk(mem, n, isConnect, prior);
      SameRanges(u, v, n);
    }
  }

  lemma SuccessIsAlive(mem: seq<Byte>, n: nat, isConnect: bool, prior: ParsedUrl)
    requires n <= |mem| && Readable(prior, mem) && !ParseUrl(mem, n, isConnect, prior).err
    ensures !ScanAll(ScanStart(isConnect, prior), mem[..n]).s.Dead?
  {
  }

  lemma SameRanges(u: ParsedUrl, v: ParsedUrl, n: nat)
    requires RangesOk(u, n) && v.fields == u.fields && forall f | f in u.fields :: v.data[f] == u.data[f]
    ensures RangesOk(v, n)
  {
    forall f: Field | f in v.fields ensures Inside(v, f, 0, n) {
      assert Inside(u, f, 0, n);
    }
    forall f: Field, g: Field | f in v.fields && g in v.fields && f != g ensures Disjoint(v, f, g) {
      assert Disjoint(u, f, g);
    }
  }

  /** However long the URL is: on success no field reaches behind its end, under the same
      condition on the structure. */
  lemma FieldsInside(mem: seq<Byte>, n: nat, isConnect: bool, prior: ParsedUrl)
    requires n <= |mem| && Readable(prior, mem) && prior.data[UF_HOST].len < 3
    requires !ParseUrl(mem, n, isConnect, prior).err
    ensures Within(ParseUrl(mem, n, isConnect, prior).u, n)
  {
    hide ParseUrl, ScanAll;
    var u, v := ScanAll(ScanStart(isConnect, prior), mem[..n]).u, ParseUrl(mem, n, isConnect, prior).u;
    if UF_HOST in v.fields {
      HostFieldsInside(mem, n, isConnect, prior);
    } else {
      ShortStaleHost(mem, n, isConnect, prior);
      ScanAllWithin(mem, n, isConnect, prior);
      assert forall f: Field | f in v.fields :: End(v, f) == End(u, f);
    }
  }

  /** Three bytes of an earlier host are enough for a port: the URL `a` is accepted with a
      port that does not lie behind its schema inside the URL. */
  lemma StalePort(prior: ParsedUrl) returns (mem: seq<Byte>)
    requires prior.data[UF_HOST].len >= 3
    ensures 1 <= |mem| && Readable(prior, mem) && !ParseUrl(mem, 1, false, prior).err
    ensures !RangesOk(ParseUrl(mem, 1, false, prior).u, 1)
  {
    hide ScanAll, ScanStart, HostAll, U16, Letters, Digits, DecValue;
    var r := prior.data[UF_HOST];
    var k := r.off + r.len - 2;
    mem := Letters(k) + ":1" + Letters(prior.data[UF_PORT].off);
    assert mem[..1] == Letters(1);
    ScanLetters(prior, 1);
    SchemaOfOne(prior);
    var sc := ScanAll(ScanStart(false, prior), mem[..1]);
    ScanReadable(mem, 1, false, prior);
    Either(sc.u.fields);
    HostReadable(mem, sc.u, false);
    assert mem[r.off..r.off + r.len] == Letters(r.len - 2) + ":1";
    HostWithPort(HostBegin(sc.u, false), r.len - 2);
    var h := HostAll(HostBegin(sc.u, false), Letters(r.len - 2) + ":1");
    HostAllOthers(HostBegin(sc.u, false), Letters(r.len - 2) + ":1");
    HostKept(sc.u, false, h);
    WrapsFar(k + 1);
    SmallPort(mem, k, prior.data[UF_PORT].off, U16(k + 1));
    PortNotInUrl(h.u, U16(k + 1));
    PortNotInUrl(ParseUrl(mem, 1, false, prior).u, U16(k + 1));
  }

  lemma WrapsFar(x: nat)
    ensures U16(x) == x || U16(x) + 0x1_0000 <= x
  {
    assert x == x / 0x1_0000 * 0x1_0000 + x % 0x1_0000;
  }

  lemma SchemaOfOne(prior: ParsedUrl)
    ensures ScanAll(ScanStart(false, prior), Letters(1)).u.data[UF_SCHEMA] == Range(0, 1)
  {
    hide U16;
    ScanNone(ScanStart(false, prior));
    assert Letters(1)[..0] == [];
  }

  lemma {:induction false} HostLettersAt(h: HostScan, n: nat)
    requires h.s.HostStart?
    ensures HostAll(h, Letters(n)).i == h.i + n
  {
    hide U16;
    if n > 0 {
      assert Letters(n)[..n - 1] == Letters(n - 1);
      HostLetters(h, n - 1);
      HostLettersAt(h, n - 1);
    }
  }

  lemma HostWithPort(h: HostScan, n: nat)
    requires h.s.HostStart? && n > 0
    ensures var r := HostAll(h, Letters(n) + ":1");
            r.s.HostPort? && r.u.fields == h.u.fields + {UF_PORT} && r.u.data[UF_PORT] == Range(U16(h.i + n + 1), 1)
  {
    hide HostAll, Letters, U16;
    HostLetters(h, n);
    HostLettersAt(h, n);
    HostSnoc(h, Letters(n), ':');
    HostSnoc(h, Letters(n) + [':'], '1');
    assert Letters(n) + [':'] + ['1'] == Letters(n) + ":1";
  }

  /** Wherever the offset of the port points: the digits there are `1` or none. */
  lemma SmallPort(mem: seq<Byte>, k: nat, m: nat, o: nat)
    requires mem == Letters(k) + ":1" + Letters(m) && (o == k + 1 || o < k)
    ensures o <= |mem| && DecValue(mem[o..o + Digits(mem, o)]) <= 0xffff
  {
    hide Letters, DecValue;
    if o < k {
      assert mem[o] == 'a';
      assert mem[o..o + Digits(mem, o)] == [];
      DecValueOfNone();
    } else {
      assert mem[o] == '1' && (o + 1 < |mem| ==> mem[o + 1] == 'a');
      assert Digits(mem, o) == 1 by {
        assert o + 1 < |mem| ==> !IsNum(mem[o + 1]);
        assert Digits(mem, o) == 1 + Digits(mem, o + 1) && Digits(mem, o + 1) == 0;
      }
      assert mem[o..o + 1] == [] + ['1'];
      DecValueSnoc([], '1');
      DecValueOfNone();
    }
  }

  lemma DecValueOfNone()
    ensures DecValue([]) == 0
  {
  }

  lemma PortNotInUrl(u: ParsedUrl, o: nat)
    requires UF_SCHEMA in u.fields && UF_PORT in u.fields
    requires u.data[UF_SCHEMA] == Range(0, 1) && u.data[UF_PORT] == Range(o, 1)
    ensures !RangesOk(u, 1)
  {
    assert o > 0 ==> !Inside(u, UF_PORT, 0, 1);
    assert o == 0 ==> !Disjoint(u, UF_SCHEMA, UF_PORT);
  }

  /** Success means disjoint, non-empty ranges for all URLs of at most 65535 bytes if and only
      if the structure holds at most two bytes of an earlier host at the call. */
  lemma StaleHostExactly(prior: ParsedUrl)
    ensures (forall mem: seq<Byte>, n: nat, isConnect: bool |
               n <= |mem| && n <= 0xffff && Readable(prior, mem) && !ParseUrl(mem, n, isConnect, prior).err ::
               RangesOk(ParseUrl(mem, n, isConnect, prior).u, n))
            <==> prior.data[UF_HOST].len < 3
  {
    hide ParseUrl, RangesOk;
    if prior.data[UF_HOST].len < 3 {
      forall mem: seq<Byte>, n: nat, isConnect: bool |
          n <= |mem| && n <= 0xffff && Readable(prior, mem) && !ParseUrl(mem, n, isConnect, prior).err
        ensures RangesOk(ParseUrl(mem, n, isConnect, prior).u, n) {
        FieldsDisjoint(mem, n, isConnect, prior);
      }
    } else {
      var mem := StalePort(prior);
      assert !RangesOk(ParseUrl(mem, 1, false, prior).u, 1);
    }
  }

  // ----- lengths that do not fit 16 bits -----

  function Slashes(n: nat): (s: seq<Byte>)
    ensures |s| == n && forall i | 0 <= i < n :: s[i] == '/'
  {
    seq(n, _ => '/')
  }

  lemma {:induction false} ScanSlashes(prior: ParsedUrl, n: nat)
    requires n > 0
    ensures var sc := ScanAll(ScanStart(false, prior), Slashes(n));
            && sc == Scan(ReqPath, UF_PATH, false, sc.u, n)
            && sc.u.fields == {UF_PATH} && sc.u.data[UF_PATH] == Range(0, U16(n))
  {
    hide Slashes, ScanAll, ScanStep, U16;
    var sc := ScanStart(false, prior);
    SlashesSnoc(n);
    ScanSnoc(sc, Slashes(n - 1), '/');
    if n > 1 {
      ScanSlashes(prior, n - 1);
      NextSlash(ScanAll(sc, Slashes(n - 1)));
    } else {
      ScanNone(sc);
      assert Slashes(0) == [];
      FirstSlash(sc);
    }
  }

  lemma SlashesSnoc(n: nat)
    requires n > 0
    ensures Slashes(n) == Slashes(n - 1) + ['/']
  {
  }

  lemma FirstSlash(sc: Scan)
    requires sc == Scan(ReqSpacesBeforeUrl, UF_MAX, false, sc.u, 0) && sc.u.fields == {}
    ensures var r := ScanStep(sc, '/');
            r == Scan(ReqPath, UF_PATH, false, r.u, 1) && r.u.fields == {UF_PATH} && r.u.data[UF_PATH] == Range(0, U16(1))
  {
  }

  lemma NextSlash(sc: Scan)
    requires sc == Scan(ReqPath, UF_PATH, false, sc.u, sc.i) && sc.u.fields == {UF_PATH}
    requires sc.u.data[UF_PATH] == Range(0, U16(sc.i))
    ensures var r := ScanStep(sc, '/');
            && r == Scan(ReqPath, UF_PATH, false, r.u, sc.i + 1)
            && r.u.fields == {UF_PATH} && r.u.data[UF_PATH] == Range(0, U16(sc.i + 1))
  {
  }

  /** A path of 65535 bytes: the query behind it begins at offset 65536, which is stored as 0. */
  function LongQuery(m: nat): seq<Byte> { Slashes(0xffff) + ['?'] + Letters(m) }

  predicate InLongQuery(sc: Scan, m: nat) {
    && !sc.at && sc.i == 0x1_0000 + m && sc.u.data[UF_PATH] == Range(0, 0xffff)
    && if m == 0 then sc.s == ReqQueryStringStart && sc.oldUf == UF_PATH && sc.u.fields == {UF_PATH}
       else sc.s == ReqQueryString && sc.oldUf == UF_QUERY && sc.u.fields == {UF_PATH, UF_QUERY}
            && sc.u.data[UF_QUERY] == Range(0, U16(m))
  }

  lemma {:induction false} ScanLongQuery(prior: ParsedUrl, m: nat)
    ensures InLongQuery(ScanAll(ScanStart(false, prior), LongQuery(m)), m)
  {
    hide Slashes, Letters, ScanStart, InLongQuery, ScanStep, ScanAll;
    var sc := ScanStart(false, prior);
    if m == 0 {
      assert LongQuery(0) == Slashes(0xffff) + ['?'];
      ScanSlashes(prior, 0xffff);
      ScanSnoc(sc, Slashes(0xffff), '?');
      QueryBegins(ScanAll(sc, Slashes(0xffff)));
    } else {
      ScanLongQuery(prior, m - 1);
      LettersSnoc(m);
      assert LongQuery(m) == LongQuery(m - 1) + ['a'];
      ScanSnoc(sc, LongQuery(m - 1), 'a');
      QueryGoesOn(ScanAll(sc, LongQuery(m - 1)), m);
    }
  }

  lemma QueryBegins(sc: Scan)
    requires sc == Scan(ReqPath, UF_PATH, false, sc.u, 0xffff)
    requires sc.u.fields == {UF_PATH} && sc.u.data[UF_PATH] == Range(0, U16(0xffff))
    ensures InLongQuery(ScanStep(sc, '?'), 0)
  {
  }

  lemma QueryGoesOn(sc: Scan, m: nat)
    requires m > 0 && InLongQuery(sc, m - 1)
    ensures InLongQuery(ScanStep(sc, 'a'), m)
  {
    WrapsToNone();
  }

  lemma LettersSnoc(m: nat)
    requires m > 0
    ensures Letters(m) == Letters(m - 1) + ['a']
  {
  }

  /** A URL that is too long by any number of bytes passes with ranges that are empty or
      overlap. */
  lemma TooLong(n: nat, prior: ParsedUrl) returns (mem: seq<Byte>)
    requires n > 0xffff
    ensures n <= |mem| && Readable(prior, mem) && !ParseUrl(mem, n, false, prior).err
    ensures !RangesOk(ParseUrl(mem, n, false, prior).u, n)
  {
    hide ScanAll, ScanStart, U16, LongQuery, Slashes, Letters;
    var url := if n == 0x1_0000 then Slashes(n) else LongQuery(n - 0x1_0000);
    assert |url| == n by {
      if n > 0x1_0000 {
        LongLength(n);
      }
    }
    mem := url + Letters(End(prior, UF_HOST) + prior.data[UF_PORT].off);
    assert mem[..n] == url;
    var sc := ScanAll(ScanStart(false, prior), url);
    if n == 0x1_0000 {
      ScanSlashes(prior, n);
      assert U16(n) == 0 by { WrapsToNone(); }
      assert !Inside(sc.u, UF_PATH, 0, n);
    } else {
      ScanLongQuery(prior, n - 0x1_0000);
      assert UF_PATH in sc.u.fields && UF_QUERY in sc.u.fields;
      assert !Inside(sc.u, UF_QUERY, 0, n) || !Disjoint(sc.u, UF_PATH, UF_QUERY);
    }
    NeitherIn(sc.u.fields);
  }

  lemma LongLength(n: nat)
    requires n > 0x1_0000
    ensures |LongQuery(n - 0x1_0000)| == n
  {
  }

  lemma WrapsToNone()
    ensures U16(0x1_0000) == 0
  {
  }

  lemma NeitherIn(fields: set<Field>)
    requires UF_SCHEMA !in fields && UF_HOST !in fields
    ensures fields * {UF_SCHEMA, UF_HOST} == {}
  {
  }

  /** With at most two bytes of an earlier host in the structure, success means disjoint,
      non-empty ranges for all URLs of a length if and only if that length fits the 16-bit
      offsets. */
  lemma FieldsDisjointExactly(n: nat, prior: ParsedUrl)
    requires prior.data[UF_HOST].len < 3
    ensures (forall mem: seq<Byte>, isConnect: bool |
               n <= |mem| && Readable(prior, mem) && !ParseUrl(mem, n, isConnect, prior).err ::
               RangesOk(ParseUrl(mem, n, isConnect, prior).u, n))
            <==> n <= 0xffff
  {
    hide ParseUrl, RangesOk;
    if n <= 0xffff {
      forall mem: seq<Byte>, isConnect: bool |
          n <= |mem| && Readable(prior, mem) && !ParseUrl(mem, n, isConnect, prior).err
        ensures RangesOk(ParseUrl(mem, n, isConnect, prior).u, n) {
        FieldsDisjoint(mem, n, isConnect, prior);
      }
    } else {
      var mem := TooLong(n, prior);
      assert !RangesOk(ParseUrl(mem, n, false, prior).u, n);
    }
  }
}
