/** The transaction with the Lanner MCU: batched requests, the exclusive lock, the
    commands and their replies. */
module LannerModel {

  type Mask = bv8

  function With(m: Mask, b: Mask): Mask { m | b }

  function Without(m: Mask, b: Mask): Mask { m & !b }

  predicate Has(m: Mask, b: Mask) { m & b != 0 }

  datatype Cmd = CMD_RESTART | CMD_ENABLE | CMD_DISABLE

  datatype MsgMode = IDLE_MODE | PING | RESET | PROBE

  datatype McuState = IDLE | PENDING | GET_VERSION | GET_DIGITAL_OUT | SET_DIGITAL_OUT | UPDATE_DONE

  /** The line in the output buffer. */
  datatype Command = GetVersion | GetDigitalOut | SetDigitalOut(mask: Mask)

  /** Its length, newline included. */
  function Length(c: Command): nat {
    match c
    case GetVersion => 12
    case GetDigitalOut => 16
    case SetDigitalOut(m) => if m < 10 then 18 else if m < 100 then 19 else 20
  }

  /** A reply line, as far as the handler looks at it. */
  datatype Reply = ErrorReply | VersionReply | MaskReply(mask: Mask) | OkReply

  /** The result of one `write`: not now, or room for so many bytes. */
  datatype WriteResult = Again | Room(n: nat)

  datatype Port = Port(
    bit: Mask, curCmd: Cmd, restartCmd: Cmd, enabled: bool, pwr: bool, msgMode: MsgMode)

  /** `struct lanner_shared` with the ports; `timer` and `itr` say that the private timer
      and the iteration callback are armed, `out` that the handler waits until it can
      write the rest of its command. */
  datatype Shared = Shared(
    ports: seq<Port>,
    state: McuState, pending: Mask,
    cmd: Command, progress: nat,
    mask: Mask, toWrite: Mask,
    timer: bool, itr: bool, locked: bool, out: bool)

  /** The shared state after a function, and whether it has sent a whole command. */
  datatype Effect = Effect(sh: Shared, sent: bool)

  function Quiet(sh: Shared): Effect { Effect(sh, false) }

  predicate IsPending(pending: Mask, p: Port) { Has(pending, p.bit) }

  /** The command to carry out next; a restart is a disable and then an enable. */
  function CmdToCheck(p: Port): Cmd { if p.curCmd == CMD_RESTART then p.restartCmd else p.curCmd }

  // ----- requests -----

  /** `lanner_update_port`: refused (503) while a transaction is running. */
  function Accepts(sh: Shared): bool { sh.state == IDLE || sh.state == PENDING }

  function Registered(p: Port, cmd: Cmd): Port {
    if cmd == CMD_RESTART then p.(curCmd := cmd, restartCmd := CMD_DISABLE, msgMode := RESET) else p.(curCmd := cmd)
  }

  function UpdatePort(sh: Shared, i: nat, cmd: Cmd): (r: Shared)
    requires i < |sh.ports|
  {
    if !Accepts(sh) then sh
    else
      sh.(ports := sh.ports[i := Registered(sh.ports[i], cmd)],
          pending := With(sh.pending, sh.ports[i].bit),
          state := PENDING,
          itr := sh.itr || !sh.timer)
  }

  // ----- writing -----

  /** `lanner_handler_write_cmd_buf` */
  function WriteCmd(sh: Shared, w: WriteResult): Effect {
    match w
    case Again => Quiet(sh.(out := true))
    case Room(n) =>
      var progress := sh.progress + n;
      if progress >= Length(sh.cmd) then Effect(sh.(progress := 0, out := false), true)
      else Quiet(sh.(progress := progress, out := true))
  }

  /** `lanner_handler_create_mcu_bitmask`, one port. */
  function MaskStep(p: Port, pending: Mask, mask: Mask): Mask {
    if !IsPending(pending, p) then mask
    else if CmdToCheck(p) == CMD_ENABLE then Without(mask, p.bit)
    else With(mask, p.bit)
  }

  /** `lanner_handler_create_mcu_bitmask`: the mask with the bits of the pending ports set
      as their commands say; a set bit switches a port off. */
  function CreateMask(ports: seq<Port>, pending: Mask, mask: Mask): Mask {
    if ports == [] then mask
    else
      var n := |ports| - 1;
      MaskStep(ports[n], pending, CreateMask(ports[..n], pending, mask))
  }

  function SetOut(sh: Shared, w: WriteResult): Effect {
    var m := CreateMask(sh.ports, sh.pending, sh.mask);
    WriteCmd(sh.(toWrite := m, cmd := SetDigitalOut(m)), w)
  }

  // ----- replies -----

  /** `lanner_handler_ok_reply`, one port. */
  function OkPort(p: Port, pending: Mask): Port {
    if !IsPending(pending, p) then p
    else if CmdToCheck(p) == CMD_ENABLE then p.(enabled := true, pwr := true, msgMode := IDLE_MODE)
    else if CmdToCheck(p) == CMD_DISABLE then
      var q := p.(enabled := false, pwr := false);
      if p.curCmd == CMD_RESTART then q.(restartCmd := CMD_ENABLE) else q
    else p
  }

  /** Whether an OK completes the command of the port. */
  predicate Completes(p: Port) {
    CmdToCheck(p) == CMD_ENABLE || (CmdToCheck(p) == CMD_DISABLE && p.curCmd != CMD_RESTART)
  }

  function OkPorts(ports: seq<Port>, pending: Mask): (r: seq<Port>)
    ensures |r| == |ports|
  {
    seq(|ports|, i requires 0 <= i < |ports| => OkPort(ports[i], pending))
  }

  /** The pending mask after an OK: completed ports leave it. */
  function OkPending(ports: seq<Port>, pending: Mask): Mask {
    if ports == [] then pending
    else
      var n := |ports| - 1;
      var rest := OkPending(ports[..n], pending);
      if IsPending(pending, ports[n]) && Completes(ports[n]) then Without(rest, ports[n].bit) else rest
  }

  /** `lanner_handler_ok_reply` */
  function OkReplied(sh: Shared): Shared {
    var pending := OkPending(sh.ports, sh.pending);
    var r := sh.(ports := OkPorts(sh.ports, sh.pending), pending := pending, mask := sh.toWrite, toWrite := 0);
    if pending == 0 then r.(state := UPDATE_DONE, itr := true) else r.(timer := true)
  }

  /** `lanner_handler_handle_msg` */
  function HandleMsg(sh: Shared, reply: Reply, w: WriteResult): Effect {
    if reply.ErrorReply? && sh.progress == 0 then WriteCmd(sh, w) // retransmission
    else if sh.state == GET_VERSION && reply.VersionReply? then
      WriteCmd(sh.(state := GET_DIGITAL_OUT, cmd := GetDigitalOut), w)
    else if sh.state == GET_DIGITAL_OUT && reply.MaskReply? then
      SetOut(sh.(mask := reply.mask, state := SET_DIGITAL_OUT), w)
    else if sh.state == SET_DIGITAL_OUT && reply.OkReply? then Quiet(OkReplied(sh))
    else Quiet(sh)
  }

  // ----- starting and ending -----

  /** `lanner_handler_start_mcu_update`; the flags say whether the lock file could be
      locked and the device opened. */
  function StartUpdate(sh: Shared, lockOk: bool, openOk: bool, w: WriteResult): Effect {
    if sh.state == PENDING && !(lockOk && openOk) then
      Quiet(sh.(timer := true, locked := sh.locked && !lockOk))
    else
      var r := if sh.state == PENDING then sh.(locked := true, state := GET_VERSION) else sh;
      match r.state
      case GET_VERSION => WriteCmd(r.(cmd := GetVersion), w)
      case GET_DIGITAL_OUT => WriteCmd(r.(cmd := GetDigitalOut), w)
      case SET_DIGITAL_OUT => SetOut(r, w)
      case _ => Quiet(r)
  }

  /** `lanner_handler_itr_cb` followed by the removal of the callback
      (`usb_monitor_itr_cb`). */
  function IterCb(sh: Shared, lockOk: bool, openOk: bool, w: WriteResult): Effect {
    if sh.state == UPDATE_DONE then Quiet(sh.(locked := false, state := IDLE, itr := false))
    else
      var e := StartUpdate(sh, lockOk, openOk, w);
      e.(sh := e.sh.(itr := false))
  }

  /** The private timer fires; the event loop has taken it out of its list. */
  function PrivateTimeout(sh: Shared, lockOk: bool, openOk: bool, w: WriteResult): Effect {
    StartUpdate(sh.(timer := false), lockOk, openOk, w)
  }

  // ----- the MCU -----

  /** The handler together with the MCU: its mask, and whether it has a whole command to
      reply to.  `base` remembers the mask at the moment the lock was taken, `touched` the
      ports asked for since the handler was last idle. */
  datatype Sys = Sys(sh: Shared, mcu: Mask, waiting: bool, base: Mask, touched: Mask)

  datatype Event =
    | Request(port: nat, cmd: Cmd)
    | Iterate(lockOk: bool, openOk: bool, w: WriteResult)
    | Timer(lockOk: bool, openOk: bool, w: WriteResult)
    | Writable(w: WriteResult)
    | McuReply(ok: bool, w: WriteResult) // the MCU carries the command out, or reports an error
    | Outside(mask: Mask)                // another program changes the MCU

  /** When the environment can produce the event. */
  predicate Enabled(s: Sys, e: Event) {
    match e
    case Request(i, cmd) => i < |s.sh.ports|
    case Iterate(_, _, _) => s.sh.itr
    case Timer(_, _, _) => s.sh.timer
    case Writable(w) => s.sh.out
    case McuReply(ok, w) => s.waiting
    case Outside(m) => !s.sh.locked
  }

  /** The MCU's answer to a command, and its mask afterwards. */
  function Answer(c: Command, mcu: Mask, ok: bool): (Reply, Mask) {
    if !ok then (ErrorReply, mcu)
    else match c
      case GetVersion => (VersionReply, mcu)
      case GetDigitalOut => (MaskReply(mcu), mcu)
      case SetDigitalOut(m) => (OkReply, m)
  }

  function After(s: Sys, e: Effect): Sys {
    s.(sh := e.sh, waiting := s.waiting || e.sent)
  }

  function Step(s: Sys, e: Event): Sys {
    match e
    case Request(i, cmd) =>
      if i < |s.sh.ports| && Accepts(s.sh) then
        s.(sh := UpdatePort(s.sh, i, cmd),
           touched := With(if s.sh.state == IDLE then 0 else s.touched, s.sh.ports[i].bit))
      else s
    case Iterate(lockOk, openOk, w) =>
      var r := After(s, IterCb(s.sh, lockOk, openOk, w));
      if r.sh.locked && !s.sh.locked then r.(base := s.mcu) else r
    case Timer(lockOk, openOk, w) =>
      var r := After(s, PrivateTimeout(s.sh, lockOk, openOk, w));
      if r.sh.locked && !s.sh.locked then r.(base := s.mcu) else r
    case Writable(w) => After(s, WriteCmd(s.sh, w))
    case McuReply(ok, w) =>
      var (reply, mcu) := Answer(s.sh.cmd, s.mcu, ok);
      After(s.(mcu := mcu, waiting := false), HandleMsg(s.sh, reply, w))
    case Outside(m) => s.(mcu := m)
  }
}
