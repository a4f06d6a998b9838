/** The Lanner handler's functions on the shared structure and the ports themselves. */
module LannerHandler {
  import opened LannerModel
  import opened LannerProof
  import opened LannerOutcome

  /** `struct lanner_port` */
  class LannerPort {
    const bit: Mask
    var curCmd: Cmd
    var restartCmd: Cmd
    var enabled: bool
    var pwr: bool
    var msgMode: MsgMode

    ghost function View(): Port
      reads this
    {
      Port(bit, curCmd, restartCmd, enabled, pwr, msgMode)
    }
  }

  /** `struct lanner_shared`, the Lanner ports of `port_list`, and what the event loop has
      armed for the handler. */
  class LannerShared {
    const ports: seq<LannerPort>
    var state: McuState
    var pending: Mask
    var cmd: Command
    var progress: nat
    var mask: Mask
    var toWrite: Mask
    var timer: bool
    var itr: bool
    var locked: bool
    var out: bool

    ghost predicate Valid() {
      && (forall i, j | 0 <= i < j < |ports| :: ports[i] != ports[j])
      && (forall i | 0 <= i < |ports| :: OneHot(ports[i].bit))
      && (forall i, j | 0 <= i < |ports| && 0 <= j < |ports| && i != j :: Apart(ports[i].bit, ports[j].bit))
    }

    ghost function Views(): (s: seq<Port>)
      reads ports
      ensures |s| == |ports|
    {
      seq(|ports|, i requires 0 <= i < |ports| reads ports => ports[i].View())
    }

    ghost function View(): Shared
      reads this, ports
    {
      Shared(Views(), state, pending, cmd, progress, mask, toWrite, timer, itr, locked, out)
    }

    /** `lanner_update_port` */
    method UpdatePort(i: nat, c: Cmd) returns (code: nat)
      requires Valid() && i < |ports|
      modifies this, ports
      ensures View() == LannerModel.UpdatePort(old(View()), i, c)
      ensures code == if Accepts(old(View())) then 0 else 503
    {
      hide With, Has, OneHot, Apart, Registered;
      if state != IDLE && state != PENDING {
        return 503;
      }
      ghost var s := Views();
      Register(i, c);
      assert Views() == s[i := Registered(s[i], c)];
      pending := With(pending, ports[i].bit);
      state := PENDING;
      if !timer {
        itr := true;
      }
      return 0;
    }

    /** The port's part of `lanner_update_port`. */
    method Register(i: nat, c: Cmd)
      requires Valid() && i < |ports|
      modifies ports[i]
      ensures ports[i].View() == Registered(old(ports[i].View()), c)
    {
      var port := ports[i];
      port.curCmd := c;
      if c == CMD_RESTART {
        port.restartCmd := CMD_DISABLE;
        port.msgMode := RESET;
      }
    }

    /** `lanner_handler_start_private_timer`: the handle must not be in the queue yet. */
    method StartPrivateTimer()
      requires !timer
      modifies `timer
      ensures timer
    {
      timer := true;
    }

    /** `lanner_handler_write_cmd_buf`; `sent` says that the whole command is out. */
    method WriteCmdBuf(w: WriteResult) returns (sent: bool)
      modifies this`progress, this`out
      ensures Effect(View(), sent) == WriteCmd(old(View()), w)
    {
      if w.Again? {
        out := true;
        return false;
      }
      progress := progress + w.n;
      if progress >= Length(cmd) {
        progress := 0;
        out := false;
        return true;
      }
      out := true;
      return false;
    }

    /** `lanner_handler_create_mcu_bitmask` */
    method CreateMcuBitmask(fromMcu: Mask) returns (toMcu: Mask)
      ensures toMcu == CreateMask(Views(), pending, fromMcu)
    {
      hide With, Without, Has;
      ghost var s := Views();
      toMcu := fromMcu;
      for i := 0 to |ports|
        invariant toMcu == CreateMask(s[..i], pending, fromMcu)
      {
        assert s[..i + 1][..i] == s[..i] && s[..i + 1][i] == ports[i].View();
        var port := ports[i];
        if !Has(pending, port.bit) {
          continue;
        }
        var cmdToCheck := if port.curCmd == CMD_RESTART then port.restartCmd else port.curCmd;
        if cmdToCheck == CMD_ENABLE {
          toMcu := Without(toMcu, port.bit);
        } else {
          toMcu := With(toMcu, port.bit);
        }
      }
      assert s[..|ports|] == s;
    }

    /** `lanner_handler_set_digital_out` */
    method SetDigitalOut(w: WriteResult) returns (sent: bool)
      modifies this`toWrite, this`cmd, this`progress, this`out
      ensures Effect(View(), sent) == SetOut(old(View()), w)
    {
      hide CreateMask;
      toWrite := CreateMcuBitmask(mask);
      cmd := Command.SetDigitalOut(toWrite);
      sent := WriteCmdBuf(w);
    }

    /** `lanner_handler_ok_reply` */
    method OkReply()
      requires Valid() && !timer
      modifies this`pending, this`mask, this`toWrite, this`state, this`itr, this`timer, ports
      ensures View() == OkReplied(old(View()))
    {
      hide OkPorts, OkPending, OneHot, Apart;
      OkAll();
      mask := toWrite;
      toWrite := 0;
      if pending == 0 {
        state := UPDATE_DONE;
        itr := true;
      } else {
        StartPrivateTimer();
      }
    }

    /** The loop of `lanner_handler_ok_reply`.  It takes bits out of the pending mask while
        it tests that mask; as every port has its own bit, no port notices. */
    method OkAll()
      requires Valid()
      modifies this`pending, ports
      ensures Views() == OkPorts(old(Views()), old(pending)) && pending == OkPending(old(Views()), old(pending))
    {
      hide With, Without, Has, OneHot, Apart, OkPort, Completes;
      ghost var s, before := Views(), pending;
      for i := 0 to |ports|
        invariant forall j | 0 <= j < i :: ports[j].View() == OkPort(s[j], before)
        invariant forall j | i <= j < |ports| :: ports[j].View() == s[j]
        invariant pending == OkPending(s[..i], before)
      {
        ghost var was := pending;
        OkPendingOther(s[..i], before, s[i].bit);
        OkOne(ports[i]);
        OkPortPending(s[i], was, before);
        assert s[..i + 1][..i] == s[..i] && s[..i + 1][i] == s[i];
      }
      assert s[..|ports|] == s;
    }

    static lemma OkPortPending(p: Port, a: Mask, b: Mask)
      requires Has(a, p.bit) == Has(b, p.bit)
      ensures OkPort(p, a) == OkPort(p, b)
    {
    }

    /** The body of the loop in `lanner_handler_ok_reply`. */
    method OkOne(port: LannerPort)
      modifies this`pending, port
      ensures port.View() == OkPort(old(port.View()), old(pending))
      ensures pending == if Has(old(pending), port.bit) && Completes(old(port.View())) then Without(old(pending), port.bit)
                         else old(pending)
    {
      hide Without, Has;
      if !Has(pending, port.bit) {
        return;
      }
      var cmdToCheck := if port.curCmd == CMD_RESTART then port.restartCmd else port.curCmd;
      if cmdToCheck == CMD_ENABLE {
        port.enabled := true;
        port.pwr := true;
        port.msgMode := IDLE_MODE;
        pending := Without(pending, port.bit);
      } else if cmdToCheck == CMD_DISABLE {
        port.enabled := false;
        port.pwr := false;
        if port.curCmd != CMD_RESTART {
          pending := Without(pending, port.bit);
        } else {
          port.restartCmd := CMD_ENABLE;
        }
      }
    }

    /** `lanner_handler_handle_msg` */
    method HandleMsg(reply: Reply, w: WriteResult) returns (sent: bool)
      requires Valid() && !timer
      modifies this, ports
      ensures Effect(View(), sent) == LannerModel.HandleMsg(old(View()), reply, w)
    {
      hide CreateMask, WriteCmd, OkReplied;
      if reply.ErrorReply? && progress == 0 {
        sent := WriteCmdBuf(w);
        return;
      }
      sent := false;
      match state {
        case GET_VERSION =>
          if reply.VersionReply? {
            state := GET_DIGITAL_OUT;
            cmd := GetDigitalOut;
            sent := WriteCmdBuf(w);
          }
        case GET_DIGITAL_OUT =>
          if reply.MaskReply? {
            mask := reply.mask;
            state := SET_DIGITAL_OUT;
            sent := SetDigitalOut(w);
          }
        case SET_DIGITAL_OUT =>
          if reply.OkReply? {
            OkReply();
          }
        case IDLE =>
        case PENDING =>
        case UPDATE_DONE =>
      }
    }

    /** `lanner_handler_start_mcu_update` */
    method StartMcuUpdate(lockOk: bool, openOk: bool, w: WriteResult) returns (sent: bool)
      requires !timer
      modifies this
      ensures Effect(View(), sent) == StartUpdate(old(View()), lockOk, openOk, w)
    {
      hide CreateMask, WriteCmd;
      sent := false;
      if state == PENDING {
        if !lockOk {
          StartPrivateTimer();
          return;
        }
        locked := true;
        if !openOk {
          locked := false;
          StartPrivateTimer();
          return;
        }
        state := GET_VERSION;
      }
      match state {
        case GET_VERSION =>
          cmd := GetVersion;
          sent := WriteCmdBuf(w);
        case GET_DIGITAL_OUT =>
          cmd := GetDigitalOut;
          sent := WriteCmdBuf(w);
        case SET_DIGITAL_OUT =>
          sent := SetDigitalOut(w);
        case IDLE =>
        case PENDING =>
        case UPDATE_DONE =>
      }
    }

    /** `lanner_handler_itr_cb`, called by `usb_monitor_itr_cb`, which then takes the
        callback out. */
    method ItrCb(lockOk: bool, openOk: bool, w: WriteResult) returns (sent: bool)
      requires !timer
      modifies this
      ensures Effect(View(), sent) == IterCb(old(View()), lockOk, openOk, w)
    {
      sent := false;
      if state == UPDATE_DONE {
        locked := false;
        state := IDLE;
      } else {
        sent := StartMcuUpdate(lockOk, openOk, w);
      }
      itr := false;
    }

    /** The event loop takes the private timer out of its queue and calls
        `lanner_handle_private_timeout`. */
    method FireTimer(lockOk: bool, openOk: bool, w: WriteResult) returns (sent: bool)
      requires timer
      modifies this
      ensures Effect(View(), sent) == PrivateTimeout(old(View()), lockOk, openOk, w)
    {
      timer := false;
      sent := StartMcuUpdate(lockOk, openOk, w);
    }
  }

  /** The MCU behind the serial line: its mask, and whether it has a command to answer. */
  class Mcu {
    var mask: Mask
    var waiting: bool
  }

  ghost predicate Shows(shared: LannerShared, mcu: Mcu, s: Sys)
    reads shared, shared.ports, mcu
  {
    shared.View() == s.sh && mcu.mask == s.mcu && mcu.waiting == s.waiting
  }

  /** One event, handled by the functions of the handler and by the MCU. */
  method Handle(shared: LannerShared, mcu: Mcu, e: Event, ghost s: Sys)
    requires shared.Valid() && Shows(shared, mcu, s) && Inv(s) && Enabled(s, e)
    modifies shared, shared.ports, mcu
    ensures Shows(shared, mcu, Step(s, e))
  {
    hide PortsOk, History, CreateMask, LannerModel.UpdatePort, LannerModel.HandleMsg, IterCb, PrivateTimeout, WriteCmd, Talking;
    var sent := false;
    match e {
      case Request(i, cmd) =>
        var code := shared.UpdatePort(i, cmd);
        RefusedUnchanged(s.sh, i, cmd);
      case Iterate(lockOk, openOk, w) =>
        NoTimerWithItr(s);
        sent := shared.ItrCb(lockOk, openOk, w);
      case Timer(lockOk, openOk, w) =>
        sent := shared.FireTimer(lockOk, openOk, w);
      case Writable(w) =>
        sent := shared.WriteCmdBuf(w);
      case McuReply(ok, w) =>
        McuAnswers(shared, mcu, ok, w, s);
        return;
      case Outside(m) =>
        mcu.mask := m;
    }
    if sent {
      mcu.waiting := true;
    }
  }

  /** The MCU answers the command it has got, and the handler reads the answer. */
  method McuAnswers(shared: LannerShared, mcu: Mcu, ok: bool, w: WriteResult, ghost s: Sys)
    requires shared.Valid() && Shows(shared, mcu, s) && Inv(s) && s.waiting
    modifies shared, shared.ports, mcu
    ensures Shows(shared, mcu, Step(s, McuReply(ok, w)))
  {
    hide PortsOk, History, CreateMask, LannerModel.HandleMsg, Talking;
    NoTimerWhileWaiting(s);
    var (reply, mask) := Answer(shared.cmd, mcu.mask, ok);
    mcu.mask := mask;
    var sent := shared.HandleMsg(reply, w);
    mcu.waiting := sent;
  }

  lemma RefusedUnchanged(sh: Shared, i: nat, cmd: Cmd)
    requires i < |sh.ports|
    ensures !Accepts(sh) ==> LannerModel.UpdatePort(sh, i, cmd) == sh
  {
  }

  lemma NoTimerWithItr(s: Sys)
    requires Inv(s) && s.sh.itr
    ensures !s.sh.timer
  {
    hide PortsOk, History, CreateMask;
  }

  lemma NoTimerWhileWaiting(s: Sys)
    requires Inv(s) && s.waiting
    ensures !s.sh.timer
  {
    hide PortsOk, History, CreateMask;
  }

  /** A whole run from start-up: the handler never inserts its timer twice, and it and the
      MCU end as the transitions say. */
  method Transact(shared: LannerShared, mcu: Mcu, es: seq<Event>)
    requires shared.Valid() && Shows(shared, mcu, Start(shared.Views(), mcu.mask))
    requires Possible(Start(shared.Views(), mcu.mask), es)
    modifies shared, shared.ports, mcu
    ensures Shows(shared, mcu, Run(old(Start(shared.Views(), mcu.mask)), es))
  {
    hide Step, Enabled, Start, Inv, Shows;
    ghost var first := Start(shared.Views(), mcu.mask);
    ValidIsDistinct(shared);
    StartInv(shared.Views(), mcu.mask);
    for k := 0 to |es|
      invariant Shows(shared, mcu, Run(first, es[..k])) && Inv(Run(first, es[..k]))
    {
      assert es[..k + 1][..k] == es[..k] && es[..k + 1][k] == es[k];
      PossiblePrefix(first, es, k + 1);
      StepKeeps(Run(first, es[..k]), es[k]);
      Handle(shared, mcu, es[k], Run(first, es[..k]));
    }
    assert es[..|es|] == es;
  }

  lemma ValidIsDistinct(shared: LannerShared)
    requires shared.Valid()
    ensures DistinctBits(shared.Views())
  {
    hide OneHot, Apart;
  }

  lemma {:induction false} PossiblePrefix(s: Sys, es: seq<Event>, k: nat)
    requires k <= |es| && Possible(s, es)
    ensures Possible(s, es[..k])
  {
    hide Enabled, Run;
    if k < |es| {
      PossiblePrefix(s, es[..|es| - 1], k);
      assert es[..|es| - 1][..k] == es[..k];
    } else {
      assert es[..k] == es;
    }
  }
}
