/** Whole runs of the MCU transaction: what it leaves in the MCU and in the ports, that
    something always drives it, and that it ends. */
module LannerOutcome {
  import opened LannerModel
  import opened LannerProof
  import LannerEffects

  // ----- runs -----

  /** The handler at start-up. */
  function Start(ports: seq<Port>, mcu: Mask): Sys {
    Sys(Shared(ports, IDLE, 0, GetVersion, 0, 0, 0, false, false, false, false), mcu, false, mcu, 0)
  }

  function Run(s: Sys, es: seq<Event>): Sys {
    if es == [] then s else Step(Run(s, es[..|es| - 1]), es[|es| - 1])
  }

  /** Every event can happen when it does. */
  predicate Possible(s: Sys, es: seq<Event>) {
    es == [] || (Possible(s, es[..|es| - 1]) && Enabled(Run(s, es[..|es| - 1]), es[|es| - 1]))
  }

  lemma StartInv(ports: seq<Port>, mcu: Mask)
    requires DistinctBits(ports)
    ensures Inv(Start(ports, mcu))
  {
    hide DistinctBits, AllBits, Has;
    SubFacts(0, 0, AllBits(ports));
    NothingPending(0);
  }

  lemma NothingPending(b: Mask)
    ensures !Has(0, b)
    ensures forall a :: !Has(0, a)
  {
  }

  /** The invariant holds in every reachable state. */
  lemma {:induction false} RunKeeps(s: Sys, es: seq<Event>)
    requires Inv(s) && Possible(s, es)
    ensures Inv(Run(s, es))
  {
    hide Inv, Step, Enabled;
    if es != [] {
      RunKeeps(s, es[..|es| - 1]);
      StepKeeps(Run(s, es[..|es| - 1]), es[|es| - 1]);
    }
  }

  // ----- something always drives the transaction -----

  function Drivers(s: Sys): nat {
    (if s.sh.itr then 1 else 0) + (if s.sh.timer then 1 else 0) + (if s.sh.out then 1 else 0) + (if s.waiting then 1 else 0)
  }

  /** Outside IDLE exactly one thing is due: the iteration callback, the private timer, more
      room to write, or a reply; and the lock is held exactly while the MCU is in use. */
  lemma NeverStuck(ports: seq<Port>, mcu: Mask, es: seq<Event>)
    requires DistinctBits(ports) && Possible(Start(ports, mcu), es)
    ensures var s := Run(Start(ports, mcu), es);
            && Drivers(s) == (if s.sh.state == IDLE then 0 else 1)
            && (s.sh.locked <==> s.sh.state in {GET_VERSION, GET_DIGITAL_OUT, SET_DIGITAL_OUT, UPDATE_DONE})
  {
    hide Run, Possible, PortsOk, History, CreateMask, Start;
    StartInv(ports, mcu);
    RunKeeps(Start(ports, mcu), es);
  }

  // ----- the number of rounds -----

  /** The rounds a port still needs: two for a restart that is still to be switched off. */
  function Phase(p: Port, pending: Mask): nat {
    if !IsPending(pending, p) then 0
    else if p.curCmd == CMD_RESTART && p.restartCmd == CMD_DISABLE then 2
    else 1
  }

  /** The rounds the transaction still needs. */
  function Rounds(ports: seq<Port>, pending: Mask): nat {
    if ports == [] then 0
    else
      var rest := Rounds(ports[..|ports| - 1], pending);
      var p := Phase(ports[|ports| - 1], pending);
      if rest < p then p else rest
  }

  lemma {:induction false} RoundsBound(ports: seq<Port>, pending: Mask, i: nat)
    requires i < |ports|
    ensures Phase(ports[i], pending) <= Rounds(ports, pending) <= 2
  {
    hide IsPending;
    var n := |ports| - 1;
    if i < n {
      RoundsBound(ports[..n], pending, i);
    } else if n > 0 {
      RoundsBound(ports[..n], pending, n - 1);
    }
  }

  lemma {:induction false} RoundsReached(ports: seq<Port>, pending: Mask)
    ensures Rounds(ports, pending) <= 2
    ensures Rounds(ports, pending) != 0 ==> exists i | 0 <= i < |ports| :: Phase(ports[i], pending) == Rounds(ports, pending)
  {
    hide Phase;
    if ports != [] {
      var n := |ports| - 1;
      RoundsReached(ports[..n], pending);
      assert Phase(ports[n], pending) <= 2 by { PhaseBound(ports[n], pending); }
      if Rounds(ports, pending) == Phase(ports[n], pending) {
      } else {
        var i :| 0 <= i < n && Phase(ports[..n][i], pending) == Rounds(ports[..n], pending);
        assert Phase(ports[i], pending) == Rounds(ports, pending);
      }
    }
  }

  lemma PhaseBound(p: Port, pending: Mask)
    ensures Phase(p, pending) <= 2
    ensures Phase(p, pending) == 0 <==> !IsPending(pending, p)
  {
  }

  predicate OneLess(a: nat, b: nat) { b == if a == 0 then 0 else a - 1 }

  lemma {:induction false} RoundsDrop(ports: seq<Port>, r: seq<Port>, pending: Mask, left: Mask)
    requires |r| == |ports|
    requires forall i | 0 <= i < |ports| :: OneLess(Phase(ports[i], pending), Phase(r[i], left))
    ensures OneLess(Rounds(ports, pending), Rounds(r, left))
  {
    hide Phase;
    if ports != [] {
      var n := |ports| - 1;
      assert OneLess(Phase(ports[n], pending), Phase(r[n], left));
      RoundsDrop(ports[..n], r[..n], pending, left);
    }
  }

  lemma PhaseDrops(ports: seq<Port>, pending: Mask, i: nat)
    requires PortsOk(ports, pending) && i < |ports|
    ensures OneLess(Phase(ports[i], pending), Phase(OkPort(ports[i], pending), OkPending(ports, pending)))
  {
    hide DistinctBits, Covered, OkPending, Has;
    assert RestartOk(ports[i], pending);
    OkPendingPort(ports, pending, i);
  }

  /** Nothing is pending exactly when no round is left. */
  lemma NoRoundsLeft(ports: seq<Port>, pending: Mask)
    requires Covered(ports, pending)
    ensures pending == 0 <==> Rounds(ports, pending) == 0
  {
    hide Phase, IsPending, Covered, Rounds;
    if pending != 0 {
      CoveredPort(ports, pending);
      var i :| 0 <= i < |ports| && IsPending(pending, ports[i]);
      RoundsBound(ports, pending, i);
      PhaseBound(ports[i], pending);
    } else {
      RoundsReached(ports, pending);
      if Rounds(ports, pending) != 0 {
        var i :| 0 <= i < |ports| && Phase(ports[i], pending) == Rounds(ports, pending);
        PhaseBound(ports[i], pending);
        NotPendingInNothing(ports[i]);
      }
    }
  }

  lemma NotPendingInNothing(p: Port)
    ensures !IsPending(0, p)
  {
  }

  /** Every OK takes one round off, and the transaction is over exactly when none is left:
      at most two commands are carried out. */
  lemma OkTakesOneRound(s: Sys, w: WriteResult)
    requires Inv(s) && s.sh.state == SET_DIGITAL_OUT && s.waiting
    ensures var r := Step(s, McuReply(true, w));
            && 1 <= Rounds(s.sh.ports, s.sh.pending) <= 2
            && Rounds(r.sh.ports, r.sh.pending) == Rounds(s.sh.ports, s.sh.pending) - 1
            && (r.sh.state == UPDATE_DONE <==> Rounds(s.sh.ports, s.sh.pending) == 1)
  {
    hide CreateMask, History, Phase, Rounds, OkPending, OkPorts, Covered, DistinctBits, OkPort, OneHot;
    var ports, pending := s.sh.ports, s.sh.pending;
    var r, left := OkPorts(ports, pending), OkPending(ports, pending);
    forall i | 0 <= i < |ports| ensures OneLess(Phase(ports[i], pending), Phase(r[i], left)) {
      PhaseDrops(ports, pending, i);
      OkPortsAt(ports, pending, i);
    }
    RoundsDrop(ports, r, pending, left);
    RoundsReached(ports, pending);
    NoRoundsLeft(ports, pending);
    StillCovered(ports, pending);
    NoRoundsLeft(r, left);
  }

  lemma OkPortsAt(ports: seq<Port>, pending: Mask, i: nat)
    requires i < |ports|
    ensures OkPorts(ports, pending)[i] == OkPort(ports[i], pending)
  {
    hide OkPort;
  }

  lemma StillCovered(ports: seq<Port>, pending: Mask)
    requires Covered(ports, pending)
    ensures Covered(OkPorts(ports, pending), OkPending(ports, pending))
  {
    hide Sub, OkPending, OkPorts, AllBits;
    OkPendingWithin(ports, pending);
    OkSameBits(ports, pending);
    AllBitsSame(ports, OkPorts(ports, pending));
    SubFacts(OkPending(ports, pending), pending, AllBits(ports));
  }

  // ----- the transaction ends -----

  /** An event with which the transaction gets on: no failure, and at least a byte
      written. */
  predicate Helpful(e: Event) {
    match e
    case Iterate(lockOk, openOk, w) => lockOk && openOk && w.Room? && w.n > 0
    case Timer(lockOk, openOk, w) => lockOk && openOk && w.Room? && w.n > 0
    case Writable(w) => w.Room? && w.n > 0
    case McuReply(ok, w) => ok && w.Room? && w.n > 0
    case Request(_, _) => false
    case Outside(_) => false
  }

  /** What the current command still needs: bytes and the reply. */
  function Left(s: Sys): nat {
    if s.waiting || s.sh.progress >= Length(s.sh.cmd) then 1 else 1 + Length(s.sh.cmd) - s.sh.progress
  }

  /** A bound on the helpful events the transaction still needs. */
  function Rank(s: Sys): nat {
    match s.sh.state
    case IDLE => 0
    case UPDATE_DONE => 1
    case SET_DIGITAL_OUT => 100 * Rounds(s.sh.ports, s.sh.pending) + if s.sh.timer then 50 else Left(s)
    case GET_DIGITAL_OUT => 300 + Left(s)
    case GET_VERSION => 400 + Left(s)
    case PENDING => 500
  }

  lemma SetOutRank(s: Sys, w: WriteResult)
    requires w.Room? && w.n > 0 && s.sh.state == SET_DIGITAL_OUT && !s.sh.timer && !s.waiting && s.sh.progress == 0
    ensures var r := After(s, SetOut(s.sh, w));
            && r.sh.state == SET_DIGITAL_OUT && Rank(r) < 100 * Rounds(s.sh.ports, s.sh.pending) + 50
  {
    hide CreateMask, Rounds;
  }

  lemma ReplyRank(s: Sys, w: WriteResult)
    requires Inv(s) && s.waiting && w.Room? && w.n > 0
    ensures Rank(Step(s, McuReply(true, w))) < Rank(s)
  {
    hide PortsOk, History, CreateMask, Rounds, SetOut;
    if s.sh.state == GET_DIGITAL_OUT {
      var t := s.(waiting := false, sh := s.sh.(mask := s.mcu, state := SET_DIGITAL_OUT));
      SetOutRank(t, w);
      RoundsReached(s.sh.ports, s.sh.pending);
      assert Step(s, McuReply(true, w)) == After(t, SetOut(t.sh, w));
    } else if s.sh.state == SET_DIGITAL_OUT {
      hide OkPorts, OkPending;
      OkTakesOneRound(s, w);
    }
  }

  lemma TimerRank(s: Sys, w: WriteResult)
    requires Inv(s) && s.sh.timer && w.Room? && w.n > 0
    ensures Rank(Step(s, Timer(true, true, w))) < Rank(s)
  {
    hide PortsOk, History, CreateMask, Rounds, SetOut;
    if s.sh.state == SET_DIGITAL_OUT {
      SetOutRank(s.(sh := s.sh.(timer := false)), w);
    }
  }

  lemma HelpfulDescends(s: Sys, e: Event)
    requires Inv(s) && Enabled(s, e) && Helpful(e)
    ensures Rank(Step(s, e)) < Rank(s)
  {
    hide PortsOk, History, CreateMask, Rounds, SetOut;
    match e
    case Iterate(lockOk, openOk, w) =>
    case Timer(lockOk, openOk, w) => TimerRank(s, w);
    case Writable(w) =>
    case McuReply(ok, w) => ReplyRank(s, w);
  }

  /** A helpful event can always happen before the handler is idle again. */
  lemma HelpfulPossible(s: Sys)
    requires Inv(s) && s.sh.state != IDLE
    ensures exists e :: Helpful(e) && Enabled(s, e)
  {
    hide PortsOk, History, CreateMask;
    var w := Room(1);
    if s.sh.itr {
      assert Helpful(Iterate(true, true, w)) && Enabled(s, Iterate(true, true, w));
    } else if s.sh.timer {
      assert Helpful(Timer(true, true, w)) && Enabled(s, Timer(true, true, w));
    } else if s.sh.out {
      assert Helpful(Writable(w)) && Enabled(s, Writable(w));
    } else {
      assert Helpful(McuReply(true, w)) && Enabled(s, McuReply(true, w));
    }
  }

  /** Without failures the transaction ends: no run of helpful events is longer than the
      rank, and at most 500 of them bring the handler back to IDLE. */
  lemma {:induction false} Finishes(s: Sys, es: seq<Event>)
    requires Inv(s) && Possible(s, es) && forall e | e in es :: Helpful(e)
    ensures |es| + Rank(Run(s, es)) <= Rank(s) <= 500
  {
    hide Inv, Step, Enabled, Helpful, Rank;
    RankBound(s);
    if es != [] {
      var before := es[..|es| - 1];
      assert forall e | e in before :: Helpful(e) by {
        forall e | e in before ensures Helpful(e) { assert e in es; }
      }
      Finishes(s, before);
      RunKeeps(s, before);
      HelpfulDescends(Run(s, before), es[|es| - 1]);
    }
  }

  lemma RankBound(s: Sys)
    ensures Rank(s) <= 500
  {
    hide Rounds;
    RoundsReached(s.sh.ports, s.sh.pending);
  }

  // ----- the outcome -----

  /** The last command for each port of the current batch of requests; a batch begins with
      the first request accepted in IDLE. */
  function Asked(s: Sys, es: seq<Event>): map<nat, Cmd> {
    if es == [] then map[]
    else
      var rest := Asked(s, es[..|es| - 1]);
      var t := Run(s, es[..|es| - 1]);
      var e := es[|es| - 1];
      if e.Request? && e.port < |t.sh.ports| && Accepts(t.sh) then
        (if t.sh.state == IDLE then map[] else rest)[e.port := e.cmd]
      else rest
  }

  /** The batch is recorded in the ports and in the mask of touched bits. */
  ghost predicate Recorded(s: Sys, asked: map<nat, Cmd>) {
    forall i: nat | i < |s.sh.ports| :: RecordedAt(s.sh.ports[i], s.touched, asked, i)
  }

  predicate RecordedAt(p: Port, touched: Mask, asked: map<nat, Cmd>, i: nat) {
    && (IsPending(touched, p) <==> i in asked)
    && (i in asked ==> p.curCmd == asked[i])
  }

  /** Bits and commands of all ports, which only requests change. */
  predicate SameCommands(ports: seq<Port>, r: seq<Port>) {
    && |r| == |ports|
    && forall i | 0 <= i < |ports| ::
         && r[i].bit == ports[i].bit && r[i].curCmd == ports[i].curCmd
         && (ports[i].curCmd == CMD_DISABLE ==> r[i].msgMode == ports[i].msgMode)
  }

  predicate CarriedOut(s: Sys, e: Event) {
    e.McuReply? && e.ok && s.sh.cmd.SetDigitalOut? && s.sh.state == SET_DIGITAL_OUT
  }

  /** Only accepted requests and an OK change ports. */
  lemma PortsKept(s: Sys, e: Event)
    requires !(e.Request? && Accepts(s.sh)) && !CarriedOut(s, e)
    ensures Step(s, e).sh.ports == s.sh.ports && Step(s, e).sh.pending == s.sh.pending && Step(s, e).touched == s.touched
    ensures s.sh.locked ==> Step(s, e).base == s.base
  {
    hide CreateMask, WriteCmd, StartUpdate, HandleMsg;
    match e
    case Request(_, _) =>
    case Iterate(lockOk, openOk, w) => StartKeepsPorts(s.sh, lockOk, openOk, w);
    case Timer(lockOk, openOk, w) => StartKeepsPorts(s.sh.(timer := false), lockOk, openOk, w);
    case Writable(w) => WriteKeepsPorts();
    case McuReply(ok, w) => MsgKeepsPorts(s.sh, Answer(s.sh.cmd, s.mcu, ok).0, w);
    case Outside(_) =>
  }

  lemma WriteKeepsPorts()
    ensures forall sh, w :: WriteCmd(sh, w).sh.ports == sh.ports && WriteCmd(sh, w).sh.pending == sh.pending
                        && WriteCmd(sh, w).sh.state == sh.state
  {
  }

  lemma StartKeepsPorts(sh: Shared, lockOk: bool, openOk: bool, w: WriteResult)
    ensures var r := StartUpdate(sh, lockOk, openOk, w).sh; r.ports == sh.ports && r.pending == sh.pending
  {
    hide CreateMask, WriteCmd;
    WriteKeepsPorts();
  }

  lemma MsgKeepsPorts(sh: Shared, reply: Reply, w: WriteResult)
    requires !(sh.state == SET_DIGITAL_OUT && reply.OkReply?)
    ensures var r := HandleMsg(sh, reply, w).sh; r.ports == sh.ports && r.pending == sh.pending
  {
    hide CreateMask, WriteCmd;
    WriteKeepsPorts();
  }

  lemma StepCommands(s: Sys, e: Event)
    requires Enabled(s, e) && !(e.Request? && Accepts(s.sh))
    ensures SameCommands(s.sh.ports, Step(s, e).sh.ports) && Step(s, e).touched == s.touched
  {
    hide Step, SameCommands;
    if CarriedOut(s, e) {
      CarriedStep(s, e);
      OkCommands(s.sh.ports, s.sh.pending);
    } else {
      PortsKept(s, e);
      NoOtherCommands(s.sh.ports);
    }
  }

  lemma CarriedStep(s: Sys, e: Event)
    requires CarriedOut(s, e)
    ensures Step(s, e).sh.ports == OkPorts(s.sh.ports, s.sh.pending) && Step(s, e).touched == s.touched
  {
    hide CreateMask, OkPending, OkPorts, IterCb, PrivateTimeout, WriteCmd;
  }

  lemma OkCommands(ports: seq<Port>, pending: Mask)
    ensures SameCommands(ports, OkPorts(ports, pending))
  {
    hide IsPending;
  }

  lemma NoOtherCommands(ports: seq<Port>)
    ensures SameCommands(ports, ports)
  {
  }

  lemma RequestRecorded(s: Sys, i: nat, cmd: Cmd, asked: map<nat, Cmd>)
    requires DistinctBits(s.sh.ports) && i < |s.sh.ports| && Accepts(s.sh) && Recorded(s, asked)
    ensures Recorded(Step(s, Request(i, cmd)), (if s.sh.state == IDLE then map[] else asked)[i := cmd])
  {
    hide With, Has, OneHot, Apart;
    var r := Step(s, Request(i, cmd));
    var was := if s.sh.state == IDLE then 0 else s.touched;
    NothingPending(0);
    forall j: nat | j < |r.sh.ports|
      ensures RecordedAt(r.sh.ports[j], r.touched, (if s.sh.state == IDLE then map[] else asked)[i := cmd], j)
    {
      assert RecordedAt(s.sh.ports[j], s.touched, asked, j);
      if j == i {
        OwnBit(was, s.sh.ports[i].bit);
      } else {
        OtherBit(was, s.sh.ports[j].bit, s.sh.ports[i].bit);
      }
    }
  }

  /** In every reachable state the ports hold the last command asked for. */
  lemma {:induction false} RunRecords(ports: seq<Port>, mcu: Mask, es: seq<Event>)
    requires DistinctBits(ports) && Possible(Start(ports, mcu), es)
    ensures Recorded(Run(Start(ports, mcu), es), Asked(Start(ports, mcu), es))
    ensures SameBits(ports, Run(Start(ports, mcu), es).sh.ports)
  {
    hide Step, DistinctBits, Has;
    var s := Start(ports, mcu);
    if es == [] {
      NothingPending(0);
    } else {
      var before, e := es[..|es| - 1], es[|es| - 1];
      var t := Run(s, before);
      RunRecords(ports, mcu, before);
      SameBitsDistinct(ports, t.sh.ports);
      RunRecordsStep(t, Asked(s, before), e);
    }
  }

  lemma RunRecordsStep(t: Sys, asked: map<nat, Cmd>, e: Event)
    requires DistinctBits(t.sh.ports) && Recorded(t, asked) && Enabled(t, e)
    ensures SameBits(t.sh.ports, Step(t, e).sh.ports)
    ensures Recorded(Step(t, e),
                     if e.Request? && Accepts(t.sh) then (if t.sh.state == IDLE then map[] else asked)[e.port := e.cmd] else asked)
  {
    hide DistinctBits, Has;
    if e.Request? && Accepts(t.sh) {
      RequestRecorded(t, e.port, e.cmd, asked);
    } else {
      hide Step;
      StepCommands(t, e);
      forall i: nat | i < |t.sh.ports| ensures RecordedAt(Step(t, e).sh.ports[i], t.touched, asked, i) {
        assert RecordedAt(t.sh.ports[i], t.touched, asked, i);
      }
    }
  }

  /** What a port and its bit in the MCU's mask look like after a command. */
  predicate Settled(p: Port, cmd: Cmd, mcu: Mask) {
    && (Has(mcu, p.bit) <==> cmd == CMD_DISABLE)
    && p.enabled == p.pwr == (cmd != CMD_DISABLE)
    && (cmd != CMD_DISABLE ==> p.msgMode == IDLE_MODE)
  }

  lemma UntouchedBit(a: Mask, b: Mask, t: Mask, bit: Mask)
    requires SameOutside(a, b, t) && OneHot(bit) && !Has(t, bit)
    ensures Has(a, bit) == Has(b, bit)
  {
  }

  /** When a transaction is done the MCU's mask is the one it had when the lock was taken,
      with exactly the bits of the ports asked for rewritten by the last command for each:
      cleared by ENABLE and RESTART, set by DISABLE; these ports agree with their bits, and
      nothing is pending.  Errors and retransmissions along the way do not matter. */
  lemma Outcome(ports: seq<Port>, mcu: Mask, es: seq<Event>)
    requires DistinctBits(ports) && Possible(Start(ports, mcu), es)
    requires Run(Start(ports, mcu), es).sh.state == UPDATE_DONE
    ensures var s := Run(Start(ports, mcu), es);
            var asked := Asked(Start(ports, mcu), es);
            && s.sh.pending == 0 && SameOutside(s.mcu, s.base, s.touched) && |s.sh.ports| == |ports|
            && forall i: nat | i < |ports| ::
              if i in asked then Settled(s.sh.ports[i], asked[i], s.mcu)
              else Has(s.mcu, ports[i].bit) == Has(s.base, ports[i].bit)
  {
    hide Run, Possible, Asked, Start, PortsOk, CreateMask, Has, Sub, SameOutside, OneHot, Apart;
    StartInv(ports, mcu);
    RunKeeps(Start(ports, mcu), es);
    RunRecords(ports, mcu, es);
    var s := Run(Start(ports, mcu), es);
    var asked := Asked(Start(ports, mcu), es);
    assert History(s.sh.ports, 0, s.touched, s.mcu, s.base);
    NothingPending(0);
    forall i: nat | i < |ports|
      ensures if i in asked then Settled(s.sh.ports[i], asked[i], s.mcu)
              else Has(s.mcu, ports[i].bit) == Has(s.base, ports[i].bit)
    {
      assert RecordedAt(s.sh.ports[i], s.touched, asked, i);
      assert Accounted(s.sh.ports[i], s.touched, 0, s.mcu);
      if i !in asked {
        UntouchedBit(s.mcu, s.base, s.touched, ports[i].bit);
      }
    }
  }

  // ----- one transaction, from taking the lock -----

  /** All states after the first are ones in which the lock is held. */
  predicate Locked(s: Sys, es: seq<Event>) {
    es == [] || (Locked(s, es[..|es| - 1]) && Run(s, es).sh.locked)
  }

  /** What a transaction leaves alone. */
  ghost predicate Frame(s: Sys, r: Sys) {
    && r.base == s.base && r.touched == s.touched && |r.sh.ports| == |s.sh.ports|
    && forall i | 0 <= i < |s.sh.ports| :: !IsPending(s.touched, s.sh.ports[i]) ==> r.sh.ports[i] == s.sh.ports[i]
  }

  lemma NotPendingWithin(pending: Mask, touched: Mask, p: Port)
    requires Sub(pending, touched) && !IsPending(touched, p)
    ensures !IsPending(pending, p)
  {
  }

  /** Once the lock is held, a step changes no port that was not asked for, takes no new
      request, and keeps the mask the transaction started from. */
  lemma LockedFrame(s: Sys, e: Event)
    requires Inv(s) && s.sh.locked && Enabled(s, e)
    ensures Frame(s, Step(s, e))
  {
    hide PortsOk, CreateMask, OkPending, SameOutside, IsPending;
    if CarriedOut(s, e) {
      forall i | 0 <= i < |s.sh.ports| && !IsPending(s.touched, s.sh.ports[i])
        ensures OkPorts(s.sh.ports, s.sh.pending)[i] == s.sh.ports[i]
      {
        NotPendingWithin(s.sh.pending, s.touched, s.sh.ports[i]);
      }
    } else {
      hide Step, History;
      PortsKept(s, e);
    }
  }

  lemma LockTaken(s: Sys, e: Event)
    requires Inv(s) && s.sh.state == PENDING && Enabled(s, e) && Step(s, e).sh.locked
    ensures var r := Step(s, e); r.base == s.mcu && r.touched == s.sh.pending
    ensures Step(s, e).sh.ports == s.sh.ports && Step(s, e).sh.pending == s.sh.pending
  {
    hide PortsOk, CreateMask, History;
    if e.Iterate? || e.Timer? {
      LockByCallback(s, e);
    } else {
      LannerEffects.OthersDoNotLock(s, e);
    }
  }

  lemma LockByCallback(s: Sys, e: Event)
    requires (e.Iterate? || e.Timer?) && s.sh.state == PENDING && !s.sh.locked && s.sh.pending == s.touched
    ensures var r := Step(s, e);
            && r.sh.ports == s.sh.ports && r.sh.pending == s.sh.pending && r.touched == s.sh.pending
            && (r.sh.locked ==> r.base == s.mcu)
  {
    hide Step, StartUpdate, Length;
    LannerEffects.CallbackStep(s, e);
    LannerEffects.PendingStarts(s.sh, e.lockOk, e.openOk, e.w);
    LannerEffects.PendingStarts(s.sh.(timer := false), e.lockOk, e.openOk, e.w);
  }

  /** The commands the MCU has carried out in a run. */
  function Carried(s: Sys, es: seq<Event>): nat {
    if es == [] then 0
    else
      Carried(s, es[..|es| - 1]) + if CarriedOut(Run(s, es[..|es| - 1]), es[|es| - 1]) then 1 else 0
  }

  lemma LockedSilent(s: Sys)
    requires Inv(s) && s.sh.locked
    ensures !Accepts(s.sh)
  {
    hide PortsOk, CreateMask, History;
  }

  lemma CarriedIsWaiting(s: Sys, e: Event)
    requires Inv(s) && Enabled(s, e) && CarriedOut(s, e)
    ensures s.waiting && e == McuReply(true, e.w) && s.sh.state == SET_DIGITAL_OUT
  {
  }

  lemma {:induction false} LockedRun(s: Sys, es: seq<Event>)
    requires Inv(s) && s.sh.locked && Possible(s, es) && Locked(s, es)
    ensures var r := Run(s, es);
            && Inv(r) && Frame(s, r) && SameCommands(s.sh.ports, r.sh.ports)
            && Carried(s, es) + Rounds(r.sh.ports, r.sh.pending) == Rounds(s.sh.ports, s.sh.pending)
  {
    hide Inv, Step, Enabled, Rounds, IsPending, CarriedOut;
    if es != [] {
      var before, e := es[..|es| - 1], es[|es| - 1];
      LockedRun(s, before);
      var t := Run(s, before);
      LockedSilent(t);
      StepKeeps(t, e);
      LockedFrame(t, e);
      StepCommands(t, e);
      if CarriedOut(t, e) {
        CarriedIsWaiting(t, e);
        OkTakesOneRound(t, e.w);
      } else {
        PortsKept(t, e);
      }
      SameBitsFrame(s, t, Step(t, e));
    }
  }

  lemma SameBitsFrame(s: Sys, t: Sys, r: Sys)
    requires Frame(s, t) && Frame(t, r)
    ensures Frame(s, r)
  {
    hide IsPending;
    forall i | 0 <= i < |s.sh.ports| && !IsPending(s.touched, s.sh.ports[i]) ensures r.sh.ports[i] == s.sh.ports[i] {
      assert t.sh.ports[i] == s.sh.ports[i];
    }
  }

  /** One transaction, from the step that takes the lock to the last OK: in the MCU's mask
      exactly the bits of the pending ports are rewritten, each by the command its port
      held; ports that were not pending are untouched; and the MCU carries out one command,
      or two when a restart was among them. */
  lemma TransactionOutcome(s: Sys, e: Event, es: seq<Event>)
    requires Inv(s) && s.sh.state == PENDING && Enabled(s, e) && Step(s, e).sh.locked
    requires Possible(Step(s, e), es) && Locked(Step(s, e), es)
    requires Run(Step(s, e), es).sh.state == UPDATE_DONE
    ensures var r := Run(Step(s, e), es);
            && r.sh.pending == 0 && SameOutside(r.mcu, s.mcu, s.sh.pending) && |r.sh.ports| == |s.sh.ports|
            && (forall i | 0 <= i < |s.sh.ports| ::
                  var p := s.sh.ports[i];
                  if IsPending(s.sh.pending, p) then
                    && Settled(r.sh.ports[i], p.curCmd, r.mcu)
                    && r.sh.ports[i].msgMode == (if p.curCmd == CMD_DISABLE then p.msgMode else IDLE_MODE)
                  else r.sh.ports[i] == p && Has(r.mcu, p.bit) == Has(s.mcu, p.bit))
            && Carried(Step(s, e), es) == Rounds(s.sh.ports, s.sh.pending)
  {
    var t := Step(s, e);
    var r := Run(t, es);
    hide Step, Enabled, Possible, Locked, Run, Carried, Rounds, Has, OneHot, Apart, Sub, SameOutside, CreateMask, AllBits;
    StepKeeps(s, e);
    LockTaken(s, e);
    LockedRun(t, es);
    NothingPending(0);
    NoRoundsLeft(r.sh.ports, 0);
    forall i | 0 <= i < |s.sh.ports|
      ensures var p := s.sh.ports[i];
              if IsPending(s.sh.pending, p) then
                && Settled(r.sh.ports[i], p.curCmd, r.mcu)
                && r.sh.ports[i].msgMode == (if p.curCmd == CMD_DISABLE then p.msgMode else IDLE_MODE)
              else r.sh.ports[i] == p && Has(r.mcu, p.bit) == Has(s.mcu, p.bit)
    {
      assert Accounted(r.sh.ports[i], r.touched, 0, r.mcu);
      assert r.sh.ports[i].curCmd == s.sh.ports[i].curCmd;
      if !IsPending(s.sh.pending, s.sh.ports[i]) {
        UntouchedBit(r.mcu, s.mcu, r.touched, s.sh.ports[i].bit);
      }
    }
  }

  /** Until its last OK a port that is restarted takes no devices and no further restarts: in
      every reachable state its mode is RESET. */
  lemma RestartingMode(ports: seq<Port>, mcu: Mask, es: seq<Event>, i: nat)
    requires DistinctBits(ports) && Possible(Start(ports, mcu), es)
    requires var s := Run(Start(ports, mcu), es);
             i < |s.sh.ports| && s.sh.pending & s.sh.ports[i].bit != 0 && s.sh.ports[i].curCmd == CMD_RESTART
    ensures Run(Start(ports, mcu), es).sh.ports[i].msgMode == RESET
  {
    hide Run, Start, Possible, Control, History, CreateMask;
    StartInv(ports, mcu);
    RunKeeps(Start(ports, mcu), es);
    var s := Run(Start(ports, mcu), es);
    assert RestartOk(s.sh.ports[i], s.sh.pending);
  }

  // ----- when two rounds are needed -----

  /** A restart waiting for the lock has not been switched off yet. */
  ghost predicate FreshRestarts(s: Sys) {
    s.sh.state == PENDING ==>
      forall i | 0 <= i < |s.sh.ports| :: FreshRestart(s.sh.ports[i], s.sh.pending)
  }

  predicate FreshRestart(p: Port, pending: Mask) {
    IsPending(pending, p) && p.curCmd == CMD_RESTART ==> p.restartCmd == CMD_DISABLE
  }

  lemma StaysPending(s: Sys, e: Event)
    requires Inv(s) && !(e.Request? && Accepts(s.sh)) && Step(s, e).sh.state == PENDING && Enabled(s, e)
    ensures s.sh.state == PENDING && !CarriedOut(s, e)
  {
    hide PortsOk, History, OkPorts, OkPending, CreateMask, WriteCmd, Length;
    WriteKeepsPorts();
  }

  lemma FreshAt(p: Port, pending: Mask, waits: bool, b: Mask)
    requires Apart(p.bit, b) && (if waits then FreshRestart(p, pending) else pending == 0)
    ensures FreshRestart(p, With(pending, b))
  {
    hide With, Has, Apart;
    OtherBit(pending, p.bit, b);
    NothingPending(0);
  }

  lemma FreshRequest(s: Sys, i: nat, cmd: Cmd)
    requires Inv(s) && FreshRestarts(s) && i < |s.sh.ports| && Accepts(s.sh)
    ensures FreshRestarts(Step(s, Request(i, cmd)))
  {
    hide With, OneHot, Apart, Covered, CreateMask, History, FreshRestart, IsPending, Talking;
    var r := Step(s, Request(i, cmd));
    forall j | 0 <= j < |r.sh.ports| ensures FreshRestart(r.sh.ports[j], r.sh.pending) {
      if j != i {
        FreshAt(s.sh.ports[j], s.sh.pending, s.sh.state == PENDING, s.sh.ports[i].bit);
      } else {
        RegisteredFresh(s.sh.ports[i], cmd, r.sh.pending);
      }
    }
  }

  lemma RegisteredFresh(p: Port, cmd: Cmd, pending: Mask)
    ensures FreshRestart(Registered(p, cmd), pending)
  {
  }

  lemma {:induction false} RunFresh(ports: seq<Port>, mcu: Mask, es: seq<Event>)
    requires DistinctBits(ports) && Possible(Start(ports, mcu), es)
    ensures FreshRestarts(Run(Start(ports, mcu), es))
  {
    hide Step, Inv, DistinctBits, FreshRestart, Enabled, CarriedOut;
    var s := Start(ports, mcu);
    if es != [] {
      var before, e := es[..|es| - 1], es[|es| - 1];
      var t := Run(s, before);
      RunFresh(ports, mcu, before);
      StartInv(ports, mcu);
      RunKeeps(s, before);
      if e.Request? && Accepts(t.sh) {
        EnabledRequest(t, e);
        FreshRequest(t, e.port, e.cmd);
      } else if Step(t, e).sh.state == PENDING {
        StaysPending(t, e);
        PortsKept(t, e);
      }
    }
  }

  lemma EnabledRequest(s: Sys, e: Event)
    requires Enabled(s, e) && e.Request?
    ensures e.port < |s.sh.ports|
  {
  }

  /** A batch waiting for the lock takes two rounds exactly when it asks some port for a
      restart, and otherwise one. */
  lemma RoundsOfBatch(ports: seq<Port>, mcu: Mask, es: seq<Event>)
    requires DistinctBits(ports) && Possible(Start(ports, mcu), es)
    requires Run(Start(ports, mcu), es).sh.state == PENDING
    ensures var s := Run(Start(ports, mcu), es);
            var asked := Asked(Start(ports, mcu), es);
            Rounds(s.sh.ports, s.sh.pending) ==
            if exists i | 0 <= i < |ports| :: i in asked && asked[i] == CMD_RESTART then 2 else 1
  {
    var s := Run(Start(ports, mcu), es);
    var asked := Asked(Start(ports, mcu), es);
    hide Run, Possible, Asked, Start, History, CreateMask, IsPending, Rounds, DistinctBits, Covered;
    StartInv(ports, mcu);
    RunKeeps(Start(ports, mcu), es);
    RunRecords(ports, mcu, es);
    RunFresh(ports, mcu, es);
    NoRoundsLeft(s.sh.ports, s.sh.pending);
    RoundsReached(s.sh.ports, s.sh.pending);
    forall i: nat | i < |ports|
      ensures Phase(s.sh.ports[i], s.sh.pending) == if i !in asked then 0 else if asked[i] == CMD_RESTART then 2 else 1
    {
      assert RecordedAt(s.sh.ports[i], s.touched, asked, i);
      assert FreshRestart(s.sh.ports[i], s.sh.pending);
    }
    forall i: nat | i < |ports| ensures Phase(s.sh.ports[i], s.sh.pending) <= Rounds(s.sh.ports, s.sh.pending) {
      RoundsBound(s.sh.ports, s.sh.pending, i);
    }
  }
}
