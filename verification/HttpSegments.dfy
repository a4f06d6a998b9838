/** A request arriving in arbitrary pieces. */
module HttpSegments {
  import opened HttpSyntax
  import opened HttpStep
  import opened HttpInvariant
  import opened HttpCallbacks
  import opened HttpExecute

  ghost function Concat(bufs: seq<seq<Byte>>): seq<Byte> {
    if bufs == [] then [] else bufs[0] + Concat(bufs[1..])
  }

  lemma {:induction false} ConcatSnoc(bufs: seq<seq<Byte>>, b: seq<Byte>)
    ensures Concat(bufs + [b]) == Concat(bufs) + b
    decreases |bufs|
  {
    if bufs == [] {
      assert bufs + [b] == [b];
      assert Concat([b][1..]) == [];
    } else {
      assert (bufs + [b])[1..] == bufs[1..] + [b];
      ConcatSnoc(bufs[1..], b);
    }
  }

  lemma {:induction false} ConcatSplit(bufs: seq<seq<Byte>>, k: nat)
    requires k <= |bufs|
    ensures Concat(bufs) == Concat(bufs[..k]) + Concat(bufs[k..])
    decreases |bufs| - k
  {
    if k == |bufs| {
      assert bufs[..k] == bufs;
    } else {
      assert bufs[..k + 1] == bufs[..k] + [bufs[k]];
      assert bufs[k..][1..] == bufs[k + 1..];
      ConcatSnoc(bufs[..k], bufs[k]);
      ConcatSplit(bufs, k + 1);
    }
  }

  /** The callbacks of several calls, one log for each buffer. */
  ghost predicate LogsIn(logs: seq<seq<Callback>>, bufs: seq<seq<Byte>>) {
    |logs| <= |bufs| && forall k | 0 <= k < |logs| :: Ordered(logs[k], |bufs[k]|)
  }

  ghost function FlatAll(logs: seq<seq<Callback>>, bufs: seq<seq<Byte>>): seq<Event>
    requires LogsIn(logs, bufs)
  {
    if logs == [] then []
    else
      var n := |logs| - 1;
      FlatAll(logs[..n], bufs) + Flat(logs[n], bufs[n])
  }

  // ----- the upgrade field tells a parser that has left from one that goes on -----

  ghost predicate UpgradeMid(p: Parser) { p.upgrade ==> p.state.HeadersDone? }

  ghost predicate UpgradeOut(o: Out) {
    && (o.ctl == Consume ==> !o.p.upgrade)
    && (o.ctl == Leave ==> o.p.upgrade)
    && (o.ctl == Reexecute ==> UpgradeMid(o.p))
  }

  lemma MicroUpgrade(p: Parser, ch: Byte)
    requires UpgradeMid(p)
    ensures UpgradeOut(Micro(p, ch))
  {
    match GroupOf(p.state)
    case GMethod =>
      hide MicroUrl, MicroVersion, MicroField, MicroValue, MicroHeadersEnd, MicroChunk, MicroBody;
    case GUrl =>
      hide MicroMethod, MicroVersion, MicroField, MicroValue, MicroHeadersEnd, MicroChunk, MicroBody;
    case GVersion =>
      hide MicroMethod, MicroUrl, MicroField, MicroValue, MicroHeadersEnd, MicroChunk, MicroBody;
    case GField =>
      hide MicroMethod, MicroUrl, MicroVersion, MicroValue, MicroHeadersEnd, MicroChunk, MicroBody;
    case GValue =>
      hide MicroMethod, MicroUrl, MicroVersion, MicroField, MicroHeadersEnd, MicroChunk, MicroBody;
    case GHeadersEnd =>
      hide MicroMethod, MicroUrl, MicroVersion, MicroField, MicroValue, MicroChunk, MicroBody;
    case GChunk =>
      hide MicroMethod, MicroUrl, MicroVersion, MicroField, MicroValue, MicroHeadersEnd, MicroBody;
    case GBody =>
      hide MicroMethod, MicroUrl, MicroVersion, MicroField, MicroValue, MicroHeadersEnd, MicroChunk;
  }

  lemma {:induction false} ReactUpgrade(p: Parser, ch: Byte)
    requires UpgradeMid(p)
    ensures UpgradeOut(React(p, ch))
    decreases Rank(p.state)
  {
    hide Micro;
    MicroUpgrade(p, ch);
    ReexecuteTerminates(p, ch);
    ReactUnfolds(p, ch, []);
    if Micro(p, ch).ctl == Reexecute {
      ReactUpgrade(Micro(p, ch).p, ch);
    }
  }

  /** A parser that starts without the upgrade field set has it set at the end of a
      run if and only if it left the connection (errors apart). */
  lemma {:induction false} RunUpgrade(p: Parser, s: seq<Byte>)
    requires !p.upgrade
    ensures Run(p, s).ctl == Consume ==> !Run(p, s).p.upgrade
    ensures Run(p, s).ctl == Leave ==> Run(p, s).p.upgrade
    decreases |s|
  {
    hide React;
    if s != [] {
      ReactUpgrade(CountHeader(p), s[0]);
      if Feed(p, s[0]).ctl == Consume {
        RunUpgrade(Feed(p, s[0]).p, s[1..]);
      }
    }
  }

  /** One more buffer of a run that is still going. */
  lemma SegmentStep(p: Parser, bufs: seq<seq<Byte>>, k: nat)
    requires k < |bufs| && Run(p, Concat(bufs[..k])).ctl == Consume
    ensures Run(p, Concat(bufs[..k + 1])) == Then(Run(p, Concat(bufs[..k])), bufs[k])
    ensures Run(p, Concat(bufs[..k + 1])).ctl != Consume ==> Run(p, Concat(bufs)) == Run(p, Concat(bufs[..k + 1]))
  {
    hide Run;
    assert bufs[..k + 1] == bufs[..k] + [bufs[k]];
    ConcatSnoc(bufs[..k], bufs[k]);
    RunSplit(p, Concat(bufs[..k]), bufs[k]);
    ConcatSplit(bufs, k + 1);
    RunSplit(p, Concat(bufs[..k + 1]), Concat(bufs[k + 1..]));
  }

  lemma FlatAllSnoc(logs: seq<seq<Callback>>, log: seq<Callback>, bufs: seq<seq<Byte>>)
    requires |logs| < |bufs| && LogsIn(logs, bufs) && Ordered(log, |bufs[|logs|]|)
    ensures LogsIn(logs + [log], bufs)
    ensures FlatAll(logs + [log], bufs) == FlatAll(logs, bufs) + Flat(log, bufs[|logs|])
  {
    hide Flat, Ordered;
    assert (logs + [log])[..|logs|] == logs;
  }

  /** What a failing call reported, split into what was handed out and what was lost. */
  lemma ErrorSplit(calls: seq<Callback>, m: Marks, data: seq<Byte>, hi: nat, ev: seq<Event>) returns (lost: seq<Event>)
    requires StreamIs(calls, m, data, hi, ev)
    ensures Ordered(calls, |data|) && ev == Flat(calls, data) + lost
  {
    lost := Pending(m, data, hi);
  }

  /** The receive loop: one `Execute` for every buffer, until the parser fails, leaves,
      or does not use a whole buffer.  However the input is cut, the parser fields, the
      number of bytes used and the delivered data are those of one run over the whole
      input. */
  method ExecuteAll(parser: HttpParser, bufs: seq<seq<Byte>>)
    returns (total: nat, logs: seq<seq<Callback>>, ghost lost: seq<Event>)
    requires Inv(parser.View()) && !parser.upgrade
    requires forall k | 0 <= k < |bufs| :: bufs[k] != []
    modifies parser
    ensures LogsIn(logs, bufs)
    ensures var t := Run(old(parser.View()), Concat(bufs));
            && parser.View() == t.p && total == t.used
            && FlatAll(logs, bufs) + lost == t.ev
            && (t.ctl != Error ==> lost == [])
  {
    hide Run, Flat, StreamIs, MarksMatch;
    ghost var p := parser.View();
    total, logs, lost := 0, [], [];
    RunEmpty(p);
    var k := 0;
    while k < |bufs|
      invariant 0 <= k <= |bufs| && |logs| == k && LogsIn(logs, bufs)
      invariant Run(p, Concat(bufs[..k])) == Trace(parser.View(), FlatAll(logs, bufs), total, Consume)
      invariant Inv(parser.View()) && !parser.upgrade && lost == []
    {
      ghost var q := parser.View();
      ghost var marks;
      var used;
      used, marks := parser.Execute(bufs[k]);
      ghost var u := Run(q, bufs[k]);
      RunUpgrade(q, bufs[k]);
      RunInv(q, bufs[k]);
      SegmentStep(p, bufs, k);
      if u.ctl == Error {
        lost := ErrorSplit(parser.calls, marks, bufs[k], used, u.ev);
      }
      assert u.ev == Flat(parser.calls, bufs[k]) + lost;
      FlatAllSnoc(logs, parser.calls, bufs);
      assert FlatAll(logs, bufs) + (Flat(parser.calls, bufs[k]) + lost) == (FlatAll(logs, bufs) + Flat(parser.calls, bufs[k])) + lost;
      logs, total := logs + [parser.calls], total + used;
      if used != |bufs[k]| || parser.errno != Ok || parser.upgrade {
        return;
      }
      k := k + 1;
    }
    assert bufs[..k] == bufs;
  }
}
