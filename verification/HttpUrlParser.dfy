/** `http_parser_parse_url` and `http_parse_host` on the structure they fill in. */
module HttpUrlParser {
  import opened HttpSyntax
  import opened HttpStep
  import opened HttpNumbers
  import opened HttpUrl

  /** The scan up to a byte decides the scan of everything when it has failed. */
  lemma {:induction false} ScanFailed(sc: Scan, text: seq<Byte>, k: nat)
    requires k <= |text| && ScanAll(sc, text[..k]).s.Dead?
    ensures ScanAll(sc, text) == ScanAll(sc, text[..k])
  {
    hide ScanStep;
    if k < |text| {
      var n := |text| - 1;
      assert text[..n][..k] == text[..k];
      ScanFailed(sc, text[..n], k);
      DeadStep(ScanAll(sc, text[..n]), text[n]);
    } else {
      assert text[..k] == text;
    }
  }

  lemma DeadStep(sc: Scan, ch: Byte)
    requires sc.s.Dead?
    ensures ScanStep(sc, ch) == sc
  {
  }

  lemma {:induction false} HostFailed(h: HostScan, text: seq<Byte>, k: nat)
    requires k <= |text| && HostAll(h, text[..k]).s.HostDead?
    ensures HostAll(h, text) == HostAll(h, text[..k])
  {
    if k < |text| {
      var n := |text| - 1;
      assert text[..n][..k] == text[..k];
      HostFailed(h, text[..n], k);
    } else {
      assert text[..k] == text;
    }
  }

  class UrlFields {
    var fieldSet: set<Field>
    var port: nat
    const fieldData: array<Range>

    ghost function View(): ParsedUrl
      requires fieldData.Length == UF_MAX
      reads this, fieldData
    {
      ParsedUrl(fieldSet, port, fieldData[..])
    }

    /** One more byte of a field that goes on. */
    method Lengthen(f: Field)
      requires fieldData.Length == UF_MAX
      modifies fieldData
      ensures View() == Extend(old(View()), f)
    {
      fieldData[f] := fieldData[f].(len := U16(fieldData[f].len + 1));
    }

    /** The first byte of a field. */
    method Begin(f: Field, i: nat)
      requires fieldData.Length == UF_MAX
      modifies this, fieldData
      ensures View() == Open(old(View()), f, i)
    {
      fieldData[f] := Range(U16(i), 1);
      fieldSet := fieldSet + {f};
    }

    /** The switch on the new state in `http_parse_host`. */
    method Note(s: HostState, newS: HostState, p: nat)
      requires fieldData.Length == UF_MAX
      modifies this, fieldData
      ensures View() == HostNote(s, newS, old(View()), p)
    {
      hide Extend, Open;
      if newS == HostName || newS == HostV6 {
        if s != newS {
          ghost var u := View();
          fieldData[UF_HOST] := fieldData[UF_HOST].(off := U16(p));
          assert View() == Put(u, UF_HOST, u.data[UF_HOST].(off := U16(p)));
        }
        Lengthen(UF_HOST);
      } else if newS == HostPort {
        if s != newS {
          Begin(UF_PORT, p);
        } else {
          Lengthen(UF_PORT);
        }
      } else if newS == Userinfo {
        if s != newS {
          Begin(UF_USERINFO, p);
        } else {
          Lengthen(UF_USERINFO);
        }
      }
    }

    /** `http_parse_host` */
    method ParseHost(buf: array<Byte>, foundAt: bool) returns (err: bool)
      requires fieldData.Length == UF_MAX && Readable(View(), buf[..]) && buf as object != fieldData
      modifies this, fieldData
      ensures Result(err, View()) == HttpUrl.ParseHost(buf[..], old(View()), foundAt)
    {
      hide HostStep, HostMayEnd;
      ghost var u, mem := View(), buf[..];
      var off := fieldData[UF_HOST].off;
      var buflen := off + fieldData[UF_HOST].len;
      ghost var text := mem[off..buflen];
      fieldData[UF_HOST] := fieldData[UF_HOST].(len := 0);
      var s := if foundAt then UserinfoStart else HostStart;
      assert HostScan(s, View(), off) == HostBegin(u, foundAt);
      var p := off;
      while p < buflen
        invariant off <= p <= buflen && !s.HostDead? && buf[..] == mem
        invariant HostScan(s, View(), p) == HostAll(HostBegin(u, foundAt), text[..p - off])
      {
        assert text[..p + 1 - off][..p - off] == text[..p - off] && text[..p + 1 - off][p - off] == buf[p];
        var newS := ParseHostChar(s, buf[p]);
        HostStepIs(HostScan(s, View(), p), buf[p]);
        if newS == HostDead {
          HostFailed(HostBegin(u, foundAt), text, p + 1 - off);
          EndsBadly();
          return true;
        }
        Note(s, newS, p);
        s := newS;
        p := p + 1;
      }
      assert text[..buflen - off] == text;
      err := !HostMayEnd(s);
    }

    static lemma HostStepIs(h: HostScan, ch: Byte)
      ensures var t := ParseHostChar(h.s, ch);
              HostStep(h, ch) == if t.HostDead? then h.(s := t) else HostScan(t, HostNote(h.s, t, h.u, h.i), h.i + 1)
    {
    }

    static lemma EndsBadly()
      ensures !HostMayEnd(HostDead)
    {
    }

    /** The number that `strtoul` finds; the end of the array stands for a byte that is no
        digit. */
    method Number(buf: array<Byte>, off: nat) returns (v: nat)
      requires off <= buf.Length
      ensures v == DecValue(buf[off..off + Digits(buf[..], off)])
    {
      DecValueNone();
      hide Digits, DecValue;
      v := 0;
      var k := off;
      assert buf[off..off] == [];
      while k < buf.Length && IsNum(buf[k])
        invariant off <= k <= buf.Length && v == DecValue(buf[off..k])
        invariant forall j | off <= j < k :: IsNum(buf[j])
      {
        DecValueSnoc(buf[off..k], buf[k]);
        assert buf[off..k + 1] == buf[off..k] + [buf[k]];
        v := v * 10 + Digit(buf[k]);
        k := k + 1;
      }
      DigitsUpTo(buf[..], off, k - off);
    }

    static lemma DecValueNone()
      ensures DecValue([]) == 0
    {
    }

    static lemma {:induction false} DigitsUpTo(mem: seq<Byte>, off: nat, n: nat)
      requires off + n <= |mem| && (forall k | off <= k < off + n :: IsNum(mem[k]))
      requires off + n < |mem| ==> !IsNum(mem[off + n])
      ensures Digits(mem, off) == n
      decreases n
    {
      if n > 0 {
        DigitsUpTo(mem, off + 1, n - 1);
      }
    }

    /** `http_parser_parse_url` on the first `buflen` bytes of the memory `buf`. */
    method ParseUrl(buf: array<Byte>, buflen: nat, isConnect: bool) returns (err: bool)
      requires fieldData.Length == UF_MAX && buflen <= buf.Length && Readable(View(), buf[..]) && buf as object != fieldData
      modifies this, fieldData
      ensures Result(err, View()) == HttpUrl.ParseUrl(buf[..], buflen, isConnect, old(View()))
    {
      hide ScanStep, ScanAll, HttpUrl.ParseHost, Finish, FieldOf;
      ghost var prior, mem := View(), buf[..];
      ghost var sc := ScanStart(isConnect, prior);
      ScanReadable(mem, buflen, isConnect, prior);
      port := 0;
      fieldSet := {};
      var dead, foundAt := ScanFields(buf, buflen, isConnect);
      if dead {
        return true;
      }
      Either(fieldSet);
      ghost var u := View();
      if UF_SCHEMA in fieldSet || UF_HOST in fieldSet {
        HostReadable(mem, u, foundAt);
        var bad := ParseHost(buf, foundAt);
        if bad {
          return true;
        }
      }
      err := FinishUrl(buf, isConnect);
    }

    /** The loop of `http_parser_parse_url`. */
    method ScanFields(buf: array<Byte>, buflen: nat, isConnect: bool) returns (dead: bool, foundAt: bool)
      requires fieldData.Length == UF_MAX && buflen <= buf.Length && buf as object != fieldData
      requires fieldSet == {} && port == 0
      modifies this, fieldData
      ensures var sc := ScanAll(ScanStart(isConnect, old(View())), buf[..buflen]);
              View() == sc.u && dead == sc.s.Dead? && (!dead ==> foundAt == sc.at)
    {
      hide ScanStep, ParseUrlChar, FieldOf;
      ghost var sc, text := ScanStart(isConnect, View()), buf[..buflen];
      var s := if isConnect then ReqServerStart else ReqSpacesBeforeUrl;
      var oldUf: nat := UF_MAX;
      foundAt := false;
      var p := 0;
      while p < buflen
        invariant p <= buflen && !s.Dead? && buf[..buflen] == text
        invariant Scan(s, oldUf, foundAt, View(), p) == ScanAll(sc, text[..p])
      {
        assert text[..p + 1][..p] == text[..p] && text[..p + 1][p] == buf[p];
        ScanStepIs(Scan(s, oldUf, foundAt, View(), p), buf[p]);
        s := ParseUrlChar(s, buf[p]);
        if s == Dead {
          ScanFailed(sc, text, p + 1);
          return true, foundAt;
        }
        var uf := FieldOf(s);
        p := p + 1;
        if uf == UF_MAX {
          continue;
        }
        if s == ReqServerWithAt {
          foundAt := true;
        }
        if uf == oldUf {
          Lengthen(uf);
          continue;
        }
        Begin(uf, p - 1);
        oldUf := uf;
      }
      assert text[..buflen] == text;
      dead := false;
    }

    static lemma ScanStepIs(sc: Scan, ch: Byte)
      requires !sc.s.Dead?
      ensures var s := ParseUrlChar(sc.s, ch);
              var f := FieldOf(s);
              && (s.Dead? ==> ScanStep(sc, ch) == sc.(s := s))
              && (!s.Dead? && f == UF_MAX ==> ScanStep(sc, ch) == sc.(s := s, i := sc.i + 1))
              && (!s.Dead? && f != UF_MAX ==>
                    ScanStep(sc, ch) ==
                    Scan(s, f, sc.at || s.ReqServerWithAt?,
                         if f == sc.oldUf then Extend(sc.u, f) else Open(sc.u, f, sc.i), sc.i + 1))
    {
      hide ParseUrlChar;
    }

    /** The end of `http_parser_parse_url`: the test for CONNECT, and the port. */
    method FinishUrl(buf: array<Byte>, isConnect: bool) returns (err: bool)
      requires fieldData.Length == UF_MAX && fieldData[UF_PORT].off <= buf.Length
      modifies `port
      ensures Result(err, View()) == Finish(buf[..], old(View()), isConnect)
    {
      hide Digits, DecValue;
      if isConnect && fieldSet != {UF_HOST, UF_PORT} {
        return true;
      }
      if UF_PORT in fieldSet {
        var v := Number(buf, fieldData[UF_PORT].off);
        ghost var off := fieldData[UF_PORT].off;
        assert buf[..][off..off + Digits(buf[..], off)] == buf[off..off + Digits(buf[..], off)];
        if v > 0xffff {
          return true;
        }
        port := v;
      }
      return false;
    }
  }
}
