/** What every run of the MCU transaction keeps, how it ends, and that it never gets stuck. */
module LannerProof {
  import opened LannerModel

  // ----- bits -----

  predicate OneHot(b: Mask) { b != 0 && b & (b - 1) == 0 }

  predicate Apart(a: Mask, b: Mask) { a & b == 0 }

  predicate Sub(a: Mask, b: Mask) { a & !b == 0 }

  /** The masks agree on the bits outside `t`. */
  predicate SameOutside(a: Mask, b: Mask, t: Mask) { a & !t == b & !t }

  /** Each port has a bit of its own. */
  ghost predicate DistinctBits(ports: seq<Port>) {
    && (forall i | 0 <= i < |ports| :: OneHot(ports[i].bit))
    && (forall i, j | 0 <= i < |ports| && 0 <= j < |ports| && i != j :: Apart(ports[i].bit, ports[j].bit))
  }

  lemma OtherBit(m: Mask, a: Mask, b: Mask)
    requires Apart(a, b)
    ensures Has(With(m, b), a) == Has(m, a) && Has(Without(m, b), a) == Has(m, a)
  {
  }

  lemma OwnBit(m: Mask, b: Mask)
    requires OneHot(b)
    ensures Has(With(m, b), b) && !Has(Without(m, b), b) && With(m, b) != 0 && With(0, b) == b
  {
  }

  lemma PendingBitOnly(m: Mask, b: Mask, p: Mask)
    requires OneHot(b) && Has(p, b)
    ensures SameOutside(With(m, b), m, p) && SameOutside(Without(m, b), m, p)
  {
  }

  lemma SameOutsideTrans(a: Mask, b: Mask, c: Mask, p: Mask, t: Mask)
    requires SameOutside(a, b, p) && SameOutside(b, c, t) && Sub(p, t)
    ensures SameOutside(a, c, t)
  {
  }

  lemma SubFacts(a: Mask, b: Mask, u: Mask)
    ensures Sub(a, a) && SameOutside(a, a, u)
    ensures Sub(a, u) && Sub(b, u) ==> Sub(With(a, b), u)
    ensures Sub(a, u) ==> Sub(Without(a, b), u) && Sub(a, With(u, b)) && Sub(a, With(b, u))
    ensures Sub(a, b) && Sub(b, u) ==> Sub(a, u)
    ensures Sub(0, u)
  {
  }

  // ----- the mask for the MCU -----

  lemma MaskStepRest(p: Port, pending: Mask, mask: Mask)
    requires OneHot(p.bit)
    ensures SameOutside(MaskStep(p, pending, mask), mask, pending)
  {
    hide With, Without, Has, OneHot, SameOutside, Sub;
    SubFacts(mask, mask, pending);
    if IsPending(pending, p) {
      PendingBitOnly(mask, p.bit, pending);
    }
  }

  /** Bits of ports that are not pending are left as they are, also bits of no port. */
  lemma {:induction false} CreateMaskRest(ports: seq<Port>, pending: Mask, mask: Mask)
    requires DistinctBits(ports)
    ensures SameOutside(CreateMask(ports, pending, mask), mask, pending)
  {
    hide OneHot, MaskStep, SameOutside, Sub, Apart;
    SubFacts(mask, pending, pending);
    SubFacts(pending, pending, pending);
    if ports != [] {
      var n := |ports| - 1;
      CreateMaskRest(ports[..n], pending, mask);
      MaskStepRest(ports[n], pending, CreateMask(ports[..n], pending, mask));
      SameOutsideTrans(CreateMask(ports, pending, mask), CreateMask(ports[..n], pending, mask), mask, pending, pending);
    }
  }

  lemma {:induction false} CreateMaskOther(ports: seq<Port>, pending: Mask, mask: Mask, b: Mask)
    requires forall i | 0 <= i < |ports| :: Apart(b, ports[i].bit)
    ensures Has(CreateMask(ports, pending, mask), b) == Has(mask, b)
  {
    hide With, Without, Has, Apart;
    if ports != [] {
      var n := |ports| - 1;
      CreateMaskOther(ports[..n], pending, mask, b);
      OtherBit(CreateMask(ports[..n], pending, mask), b, ports[n].bit);
    }
  }

  /** The bit of every port after `lanner_handler_create_mcu_bitmask`: set for a pending
      port exactly unless it is to be switched on, unchanged for any other. */
  lemma {:induction false} CreateMaskPort(ports: seq<Port>, pending: Mask, mask: Mask, i: nat)
    requires DistinctBits(ports) && i < |ports|
    ensures Has(CreateMask(ports, pending, mask), ports[i].bit) <==>
            if IsPending(pending, ports[i]) then CmdToCheck(ports[i]) != CMD_ENABLE else Has(mask, ports[i].bit)
  {
    hide With, Without, Has, Apart, OneHot, CmdToCheck;
    var n := |ports| - 1;
    var rest := CreateMask(ports[..n], pending, mask);
    if i < n {
      CreateMaskPort(ports[..n], pending, mask, i);
      OtherBit(rest, ports[i].bit, ports[n].bit);
    } else {
      CreateMaskOther(ports[..n], pending, mask, ports[n].bit);
      OwnBit(rest, ports[n].bit);
    }
  }

  // ----- the pending mask after an OK -----

  lemma {:induction false} OkPendingWithin(ports: seq<Port>, pending: Mask)
    ensures Sub(OkPending(ports, pending), pending)
  {
    hide With, Without, Has, Sub, Completes;
    SubFacts(pending, pending, pending);
    if ports != [] {
      var n := |ports| - 1;
      OkPendingWithin(ports[..n], pending);
      SubFacts(OkPending(ports[..n], pending), ports[n].bit, pending);
    }
  }

  lemma {:induction false} OkPendingOther(ports: seq<Port>, pending: Mask, b: Mask)
    requires forall i | 0 <= i < |ports| :: Apart(b, ports[i].bit)
    ensures Has(OkPending(ports, pending), b) == Has(pending, b)
  {
    hide With, Without, Has, Apart, Completes;
    if ports != [] {
      var n := |ports| - 1;
      OkPendingOther(ports[..n], pending, b);
      OtherBit(OkPending(ports[..n], pending), b, ports[n].bit);
    }
  }

  /** An OK takes exactly the completed ports out of the pending mask. */
  lemma {:induction false} OkPendingPort(ports: seq<Port>, pending: Mask, i: nat)
    requires DistinctBits(ports) && i < |ports|
    ensures IsPending(OkPending(ports, pending), ports[i]) <==> IsPending(pending, ports[i]) && !Completes(ports[i])
  {
    hide With, Without, Has, Apart, OneHot, Completes;
    var n := |ports| - 1;
    var rest := OkPending(ports[..n], pending);
    if i < n {
      OkPendingPort(ports[..n], pending, i);
      OtherBit(rest, ports[i].bit, ports[n].bit);
    } else {
      OkPendingOther(ports[..n], pending, ports[n].bit);
      OwnBit(rest, ports[n].bit);
    }
  }

  // ----- the invariant -----

  function AllBits(ports: seq<Port>): Mask {
    if ports == [] then 0 else With(AllBits(ports[..|ports| - 1]), ports[|ports| - 1].bit)
  }

  /** Every pending bit belongs to a port. */
  ghost predicate Covered(ports: seq<Port>, pending: Mask) { Sub(pending, AllBits(ports)) }

  predicate SameBits(ports: seq<Port>, r: seq<Port>) {
    |r| == |ports| && forall i | 0 <= i < |ports| :: r[i].bit == ports[i].bit
  }

  lemma {:induction false} AllBitsSame(ports: seq<Port>, r: seq<Port>)
    requires SameBits(ports, r)
    ensures AllBits(ports) == AllBits(r)
  {
    hide With;
    if ports != [] {
      AllBitsSame(ports[..|ports| - 1], r[..|r| - 1]);
    }
  }

  lemma {:induction false} BitInAllBits(ports: seq<Port>, i: nat)
    requires i < |ports|
    ensures Sub(ports[i].bit, AllBits(ports))
  {
    hide With, Sub, Without;
    var n := |ports| - 1;
    if i < n {
      BitInAllBits(ports[..n], i);
      SubFacts(ports[i].bit, ports[n].bit, AllBits(ports[..n]));
    } else {
      SubFacts(ports[n].bit, AllBits(ports[..n]), ports[n].bit);
    }
  }

  /** A mask of port bits that is not zero has some port's bit. */
  lemma {:induction false} CoveredPort(ports: seq<Port>, pending: Mask)
    requires Covered(ports, pending) && pending != 0
    ensures exists i | 0 <= i < |ports| :: IsPending(pending, ports[i])
  {
    hide With, Sub, Has;
    if ports == [] {
      NotWithinNothing(pending);
    } else {
      var n := |ports| - 1;
      if !IsPending(pending, ports[n]) {
        WithinRest(pending, AllBits(ports[..n]), ports[n].bit);
        CoveredPort(ports[..n], pending);
        var i :| 0 <= i < n && IsPending(pending, ports[..n][i]);
        assert IsPending(pending, ports[i]);
      }
    }
  }

  lemma NotWithinNothing(m: Mask)
    ensures Sub(m, 0) ==> m == 0
  {
  }

  lemma WithinRest(m: Mask, u: Mask, b: Mask)
    requires Sub(m, With(u, b)) && !Has(m, b)
    ensures Sub(m, u)
  {
  }

  /** The outcome the last request of a port asked for. */
  predicate Done(p: Port, mcu: Mask) {
    && (IsPending(mcu, p) <==> p.curCmd == CMD_DISABLE)
    && p.enabled == p.pwr == (p.curCmd != CMD_DISABLE)
    && (p.curCmd != CMD_DISABLE ==> p.msgMode == IDLE_MODE)
  }

  /** A port asked for is either still pending or done. */
  predicate Accounted(p: Port, touched: Mask, pending: Mask, mcu: Mask) {
    IsPending(touched, p) ==> IsPending(pending, p) || Done(p, mcu)
  }

  /** Ports asked for are pending or done; everything else in the MCU is as it was when
      the lock was taken. */
  ghost predicate History(ports: seq<Port>, pending: Mask, touched: Mask, mcu: Mask, base: Mask) {
    && Sub(pending, touched)
    && SameOutside(mcu, base, touched)
    && forall i | 0 <= i < |ports| :: Accounted(ports[i], touched, pending, mcu)
  }

  /** A pending restart is a disable that is still to come, or an enable; until then the port
      takes no devices. */
  predicate RestartOk(p: Port, pending: Mask) {
    IsPending(pending, p) && p.curCmd == CMD_RESTART ==> p.restartCmd != CMD_RESTART && p.msgMode == RESET
  }

  ghost predicate PortsOk(ports: seq<Port>, pending: Mask) {
    && DistinctBits(ports) && Covered(ports, pending)
    && forall i | 0 <= i < |ports| :: RestartOk(ports[i], pending)
  }

  /** Nothing of the current command is under way. */
  predicate Silent(s: Sys) { !s.sh.out && !s.waiting && s.sh.progress == 0 }

  /** A command is being written, or has been sent and awaits its reply. */
  predicate Talking(s: Sys, c: Command) {
    && s.sh.cmd == c && !s.sh.timer && !s.sh.itr
    && s.sh.out != s.waiting && s.sh.progress < Length(c) && (s.waiting ==> s.sh.progress == 0)
  }

  predicate Running(st: McuState) { st in {GET_VERSION, GET_DIGITAL_OUT, SET_DIGITAL_OUT, UPDATE_DONE} }

  predicate HasHistory(st: McuState) { st == SET_DIGITAL_OUT || st == UPDATE_DONE }

  /** What drives the transaction in each state. */
  predicate Control(s: Sys) {
    var sh := s.sh;
    && (sh.locked <==> Running(sh.state))
    && (sh.pending == 0 <==> sh.state in {IDLE, UPDATE_DONE})
    && (!HasHistory(sh.state) && sh.state != IDLE ==> sh.pending == s.touched)
    && match sh.state
       case IDLE => Silent(s) && !sh.timer && !sh.itr
       case PENDING => Silent(s) && sh.timer != sh.itr
       case GET_VERSION => Talking(s, GetVersion) && s.mcu == s.base
       case GET_DIGITAL_OUT => Talking(s, GetDigitalOut) && s.mcu == s.base
       case SET_DIGITAL_OUT =>
         sh.mask == s.mcu && if sh.timer then Silent(s) && !sh.itr else Talking(s, SetDigitalOut(sh.toWrite))
       case UPDATE_DONE => Silent(s) && sh.itr && !sh.timer
  }

  ghost predicate Inv(s: Sys) {
    var sh := s.sh;
    && PortsOk(sh.ports, sh.pending)
    && Control(s)
    && (HasHistory(sh.state) ==> History(sh.ports, sh.pending, s.touched, s.mcu, s.base))
    && (sh.state == SET_DIGITAL_OUT && !sh.timer ==> sh.toWrite == CreateMask(sh.ports, sh.pending, sh.mask))
  }

  // ----- steps -----

  lemma SameBitsDistinct(ports: seq<Port>, r: seq<Port>)
    requires SameBits(ports, r) && DistinctBits(ports)
    ensures DistinctBits(r)
  {
    hide OneHot, Apart;
  }

  lemma RequestPortsOk(ports: seq<Port>, pending: Mask, i: nat, cmd: Cmd)
    requires PortsOk(ports, pending) && i < |ports|
    ensures PortsOk(ports[i := Registered(ports[i], cmd)], With(pending, ports[i].bit))
  {
    hide With, Without, Has, Sub, OneHot, Apart;
    var r := ports[i := Registered(ports[i], cmd)];
    AllBitsSame(ports, r);
    SameBitsDistinct(ports, r);
    BitInAllBits(ports, i);
    SubFacts(pending, ports[i].bit, AllBits(ports));
    forall j | 0 <= j < |r| ensures RestartOk(r[j], With(pending, ports[i].bit)) {
      if j != i {
        OtherBit(pending, ports[j].bit, ports[i].bit);
        assert RestartOk(ports[j], pending);
      }
    }
  }

  lemma PortBitNotZero(ports: seq<Port>, pending: Mask, i: nat)
    requires PortsOk(ports, pending) && i < |ports|
    ensures With(pending, ports[i].bit) != 0
  {
    OwnBit(pending, ports[i].bit);
  }

  lemma RequestKeeps(s: Sys, i: nat, cmd: Cmd)
    requires Inv(s) && i < |s.sh.ports| && Accepts(s.sh)
    ensures Inv(Step(s, Request(i, cmd)))
  {
    hide PortsOk, History, CreateMask, Registered, With;
    RequestPortsOk(s.sh.ports, s.sh.pending, i, cmd);
    PortBitNotZero(s.sh.ports, s.sh.pending, i);
  }

  /** Writing the command in the buffer, from its start or from where it stopped. */
  lemma WriteTalks(s: Sys, c: Command, w: WriteResult)
    requires s.sh.cmd == c && !s.sh.timer && !s.sh.itr && !s.waiting && s.sh.progress < Length(c)
    ensures Talking(After(s, WriteCmd(s.sh, w)), c)
    ensures var r := After(s, WriteCmd(s.sh, w));
            r == s.(waiting := r.waiting, sh := s.sh.(progress := r.sh.progress, out := r.sh.out))
  {
  }

  lemma StartKeeps(s: Sys, lockOk: bool, openOk: bool, w: WriteResult)
    requires Inv(s.(sh := s.sh.(itr := true))) && s.sh.state == PENDING && !s.sh.timer && !s.sh.itr
    ensures var r := After(s, StartUpdate(s.sh, lockOk, openOk, w));
            Inv(if r.sh.locked && !s.sh.locked then r.(base := s.mcu) else r)
  {
    hide PortsOk, History, CreateMask;
    var sh := s.sh;
    if lockOk && openOk {
      var t := s.(sh := sh.(locked := true, state := GET_VERSION, cmd := GetVersion));
      WriteTalks(t, GetVersion, w);
    }
  }

  lemma SetOutKeeps(s: Sys, w: WriteResult)
    requires var sh := s.sh;
             && PortsOk(sh.ports, sh.pending) && sh.locked && sh.state == SET_DIGITAL_OUT && sh.pending != 0
             && Silent(s) && !sh.timer && !sh.itr && sh.mask == s.mcu
             && History(sh.ports, sh.pending, s.touched, s.mcu, s.base)
    ensures Inv(After(s, SetOut(s.sh, w)))
  {
    hide PortsOk, History, CreateMask;
    var m := CreateMask(s.sh.ports, s.sh.pending, s.sh.mask);
    var t := s.(sh := s.sh.(toWrite := m, cmd := SetDigitalOut(m)));
    WriteTalks(t, SetDigitalOut(m), w);
  }

  lemma OkAccounted(ports: seq<Port>, pending: Mask, touched: Mask, mask: Mask, i: nat)
    requires PortsOk(ports, pending) && i < |ports| && Accounted(ports[i], touched, pending, mask)
    ensures Accounted(OkPort(ports[i], pending), touched, OkPending(ports, pending), CreateMask(ports, pending, mask))
    ensures RestartOk(OkPort(ports[i], pending), OkPending(ports, pending))
  {
    hide DistinctBits, Covered, OkPending, CreateMask, Has;
    assert RestartOk(ports[i], pending);
    OkPendingPort(ports, pending, i);
    CreateMaskPort(ports, pending, mask, i);
  }

  /** The ports and masks after the MCU has carried out the command. */
  lemma OkHistory(ports: seq<Port>, pending: Mask, touched: Mask, mask: Mask, base: Mask)
    requires PortsOk(ports, pending) && History(ports, pending, touched, mask, base)
    ensures History(OkPorts(ports, pending), OkPending(ports, pending), touched, CreateMask(ports, pending, mask), base)
    ensures PortsOk(OkPorts(ports, pending), OkPending(ports, pending))
  {
    hide Accounted, RestartOk, DistinctBits, Sub, SameOutside, OkPort, CreateMask, OkPending;
    var r, left := OkPorts(ports, pending), OkPending(ports, pending);
    OkPendingWithin(ports, pending);
    SubFacts(left, pending, touched);
    CreateMaskRest(ports, pending, mask);
    SameOutsideTrans(CreateMask(ports, pending, mask), mask, base, pending, touched);
    forall i | 0 <= i < |r|
      ensures Accounted(r[i], touched, left, CreateMask(ports, pending, mask)) && RestartOk(r[i], left)
    {
      assert Accounted(ports[i], touched, pending, mask);
      OkAccounted(ports, pending, touched, mask, i);
    }
    OkSameBits(ports, pending);
    AllBitsSame(ports, r);
    SameBitsDistinct(ports, r);
    SubFacts(left, pending, AllBits(ports));
  }

  lemma OkSameBits(ports: seq<Port>, pending: Mask)
    ensures SameBits(ports, OkPorts(ports, pending))
  {
    hide IsPending;
  }

  lemma OkKeeps(s: Sys)
    requires Inv(s) && s.sh.state == SET_DIGITAL_OUT && s.waiting
    ensures Inv(s.(mcu := s.sh.toWrite, waiting := false, sh := OkReplied(s.sh)))
  {
    hide PortsOk, History, OkPorts, OkPending, CreateMask;
    OkHistory(s.sh.ports, s.sh.pending, s.touched, s.sh.mask, s.base);
  }

  lemma CommandsAreLong(m: Mask)
    ensures Length(GetVersion) > 0 && Length(GetDigitalOut) > 0 && Length(SetDigitalOut(m)) > 0
  {
  }

  /** After an error reply the command is sent again, from its start. */
  lemma RetransmitKeeps(s: Sys, w: WriteResult)
    requires Inv(s) && s.waiting
    ensures Inv(Step(s, McuReply(false, w)))
  {
    hide PortsOk, CreateMask, History, Length;
    CommandsAreLong(s.sh.toWrite);
    WriteTalks(s.(waiting := false), s.sh.cmd, w);
  }

  lemma VersionKeeps(s: Sys, w: WriteResult)
    requires Inv(s) && s.waiting && s.sh.state == GET_VERSION
    ensures Inv(Step(s, McuReply(true, w)))
  {
    hide PortsOk, CreateMask, History, Length;
    CommandsAreLong(0);
    var t := s.(waiting := false, sh := s.sh.(state := GET_DIGITAL_OUT, cmd := GetDigitalOut));
    WriteTalks(t, GetDigitalOut, w);
    assert Step(s, McuReply(true, w)) == After(t, WriteCmd(t.sh, w));
  }

  lemma MaskReplyKeeps(s: Sys, w: WriteResult)
    requires Inv(s) && s.waiting && s.sh.state == GET_DIGITAL_OUT
    ensures Inv(Step(s, McuReply(true, w)))
  {
    hide PortsOk, CreateMask, History, Length, SetOut;
    var t := s.(waiting := false, sh := s.sh.(mask := s.mcu, state := SET_DIGITAL_OUT));
    HistoryStarts(s.sh.ports, s.sh.pending, s.mcu);
    SetOutKeeps(t, w);
    assert Step(s, McuReply(true, w)) == After(t, SetOut(t.sh, w));
  }

  lemma OkReplyKeeps(s: Sys, w: WriteResult)
    requires Inv(s) && s.waiting && s.sh.state == SET_DIGITAL_OUT
    ensures Inv(Step(s, McuReply(true, w)))
  {
    hide PortsOk, CreateMask, History, Length, OkReplied;
    OkKeeps(s);
  }

  lemma ReplyKeeps(s: Sys, ok: bool, w: WriteResult)
    requires Inv(s) && s.waiting
    ensures Inv(Step(s, McuReply(ok, w)))
  {
    hide PortsOk, CreateMask, History, Length, Step;
    if !ok {
      RetransmitKeeps(s, w);
    } else if s.sh.state == GET_VERSION {
      VersionKeeps(s, w);
    } else if s.sh.state == GET_DIGITAL_OUT {
      MaskReplyKeeps(s, w);
    } else {
      OkReplyKeeps(s, w);
    }
  }

  lemma HistoryStarts(ports: seq<Port>, pending: Mask, mcu: Mask)
    ensures History(ports, pending, pending, mcu, mcu)
  {
    hide Done, IsPending, Sub, SameOutside;
    SubFacts(pending, pending, pending);
    SubFacts(mcu, mcu, pending);
  }

  lemma TimerKeeps(s: Sys, lockOk: bool, openOk: bool, w: WriteResult)
    requires Inv(s) && s.sh.timer
    ensures Inv(Step(s, Timer(lockOk, openOk, w)))
  {
    hide PortsOk, CreateMask, History;
    var t := s.(sh := s.sh.(timer := false));
    if s.sh.state == PENDING {
      StartKeeps(t, lockOk, openOk, w);
    } else {
      SetOutKeeps(t, w);
    }
  }

  lemma IterateKeeps(s: Sys, lockOk: bool, openOk: bool, w: WriteResult)
    requires Inv(s) && s.sh.itr
    ensures Inv(Step(s, Iterate(lockOk, openOk, w)))
  {
    hide PortsOk, CreateMask, History;
    if s.sh.state == PENDING {
      IterIsStart(s.sh, lockOk, openOk, w);
      StartKeeps(s.(sh := s.sh.(itr := false)), lockOk, openOk, w);
    }
  }

  /** Taking the callback out after the update has started is the same as before it: the
      update does not ask for another turn. */
  lemma IterIsStart(sh: Shared, lockOk: bool, openOk: bool, w: WriteResult)
    requires sh.state == PENDING
    ensures IterCb(sh, lockOk, openOk, w) == StartUpdate(sh.(itr := false), lockOk, openOk, w)
  {
  }

  /** The invariant holds in every reachable state. */
  lemma StepKeeps(s: Sys, e: Event)
    requires Inv(s) && Enabled(s, e)
    ensures Inv(Step(s, e))
  {
    match e
    case Request(i, cmd) =>
      if Accepts(s.sh) {
        RequestKeeps(s, i, cmd);
      }
    case Iterate(lockOk, openOk, w) => IterateKeeps(s, lockOk, openOk, w);
    case Timer(lockOk, openOk, w) => TimerKeeps(s, lockOk, openOk, w);
    case Writable(w) =>
      hide PortsOk, CreateMask, History;
      WriteTalks(s, s.sh.cmd, w);
    case McuReply(ok, w) => ReplyKeeps(s, ok, w);
    case Outside(m) =>
      hide PortsOk, CreateMask, History;
  }
}
