/** The state of the ports while the mapping from GPIO pins to USB paths is probed and
    afterwards, and what each event does to it. */
module GpioModel {

  /** A USB path: bus number and port numbers. */
  type Path = seq<nat>

  /** An entry of a port's path array; `Free` stands for the null pointer. */
  datatype Slot = Free | Used(path: Path)

  const MAX_NUM_PATHS := 2

  datatype MsgMode = IDLE | PING | RESET | PROBE

  datatype ProbeState =
    PROBE_IDLE | PROBE_DOWN | PROBE_DOWN_DONE | PROBE_UP | PROBE_DOWN_2 | PROBE_DONE | PROBE_WRITE_FILE

  datatype Cmd = CMD_RESTART | CMD_ENABLE | CMD_DISABLE

  datatype Device = NoDevice | Device(id: nat)

  const DEFAULT_TIMEOUT_SEC := 5
  const ADDED_TIMEOUT_SEC := 10
  const GPIO_TIMEOUT_SLEEP_SEC := 10
  const GPIO_TIMEOUT_PROBE_DISABLE_SEC := 5
  const GPIO_TIMEOUT_PROBE_ENABLE_SEC := 60

  /** The fields of a port that probing reads or writes.  `armed` says that the port is
      in the timeout list, `wait` the seconds it was put there for. */
  datatype Port = Port(
    isGpio: bool,
    slots: seq<Slot>,
    vid: nat, pid: nat, connected: bool, dev: Device,
    enabled: bool, pwr: bool,
    msgMode: MsgMode, probe: ProbeState,
    armed: bool, wait: nat)

  type Ports = seq<Port>

  function Arm(v: Port, sec: nat): Port { v.(armed := true, wait := sec) }

  /** `gpio_update_port`, GPIO writes succeeding. */
  function Update(v: Port, cmd: Cmd): Port {
    match cmd
    case CMD_ENABLE => v.(enabled := true, pwr := true)
    case CMD_DISABLE => v.(enabled := false, pwr := false, msgMode := IDLE)
    case CMD_RESTART =>
      if !v.enabled then v
      else if v.pwr then Arm(v.(msgMode := RESET, pwr := false), GPIO_TIMEOUT_SLEEP_SEC)
      else v.(msgMode := IDLE, pwr := true, armed := false)
  }

  /** `gpio_update_port` with its return code: `written` tells whether the GPIO file could be
      written, `failed` whether the function returns an error. */
  function TryUpdate(v: Port, cmd: Cmd, written: bool): (r: (Port, bool)) {
    if written || (cmd == CMD_RESTART && !v.enabled) then (Update(v, cmd), false)
    else if cmd == CMD_RESTART then (Arm(v.(msgMode := RESET), DEFAULT_TIMEOUT_SEC), true)
    else (v, true)
  }

  predicate Waiting(v: Port) { v.isGpio && v.probe == PROBE_DOWN_DONE }

  predicate IsUp(v: Port) { v.isGpio && v.probe == PROBE_UP }

  /** The first index from `k` on at which `f` holds, or the length. */
  function FirstFrom(s: Ports, k: nat, f: Port -> bool): (i: nat)
    requires k <= |s|
    ensures k <= i <= |s|
    ensures forall j | k <= j < i :: !f(s[j])
    ensures i < |s| ==> f(s[i])
    decreases |s| - k
  {
    if k == |s| || f(s[k]) then k else FirstFrom(s, k + 1, f)
  }

  function First(s: Ports, f: Port -> bool): (i: nat)
    ensures i <= |s| && (i < |s| ==> f(s[i])) && forall j | 0 <= j < i :: !f(s[j])
  {
    FirstFrom(s, 0, f)
  }

  /** A pin powered for probing. */
  function PowerUp(v: Port): Port {
    Arm(Update(v, CMD_ENABLE).(probe := PROBE_UP), GPIO_TIMEOUT_PROBE_ENABLE_SEC)
  }

  /** `gpio_probe_enable_port`: powers the first waiting pin, if there is one. */
  function EnableNext(s: Ports): (Ports, bool) {
    var i := First(s, v => Waiting(v));
    if i < |s| then (s[i := PowerUp(s[i])], true) else (s, false)
  }

  /** The same when the pin may fail to be switched on: it is tried again later. */
  function TryEnableNext(s: Ports, written: bool): (Ports, bool) {
    var i := First(s, v => Waiting(v));
    if written || i == |s| then EnableNext(s)
    else (s[i := Arm(s[i], GPIO_TIMEOUT_PROBE_DISABLE_SEC)], true)
  }

  function RestartOne(v: Port): Port {
    if !v.isGpio then v
    else if !v.enabled then Update(v.(msgMode := IDLE), CMD_ENABLE)
    else Update(v, CMD_RESTART)
  }

  /** `gpio_handler_restart_all_ports` */
  function RestartAll(s: Ports): (r: Ports)
    ensures |r| == |s|
  {
    seq(|s|, i requires 0 <= i < |s| => RestartOne(s[i]))
  }

  /** What becomes of an event: a new state of the ports, a null pointer that is followed,
      or a port that is put into the timeout list although it is in the list already. */
  datatype Outcome = Handled(s: Ports) | NullDereference | DoubleInsertion

  /** The three ways in which writing the configuration can go: the temporary file cannot be
      written, it is written but `link` fails (for example because the mapping file exists
      already), or all is well. */
  datatype Written = WriteFailed | LinkFailed | Stored

  /** The port waits before the configuration is written again. */
  function Postpone(s: Ports, i: nat): (r: Ports)
    requires i < |s|
    ensures |r| == |s|
  {
    s[i := Arm(s[i].(probe := PROBE_WRITE_FILE), GPIO_TIMEOUT_PROBE_DISABLE_SEC)]
  }

  /** `gpio_write_config`: the ports are restarted as soon as the temporary file is written,
      before `link`. */
  function WriteConfig(s: Ports, i: nat, w: Written): (r: Outcome)
    requires i < |s|
    ensures r.Handled? ==> |r.s| == |s|
  {
    match w
    case WriteFailed => Handled(Postpone(s, i))
    case LinkFailed =>
      var r := RestartAll(s);
      if r[i].armed then DoubleInsertion else Handled(Postpone(r, i))
    case Stored => Handled(RestartAll(s))
  }

  /** Port `i` is done: probe the next one or, after the last, write the result. */
  function Advance(s: Ports, i: nat, w: Written): (r: Outcome)
    requires i < |s|
    ensures r.Handled? ==> |r.s| == |s|
  {
    var s1 := s[i := s[i].(probe := PROBE_DONE)];
    var (s2, more) := EnableNext(s1);
    if more then Handled(s2) else WriteConfig(s2, i, w)
  }

  predicate HasDevice(v: Port) { v.vid != 0 || v.pid != 0 }

  /** `gpio_on_probe_down_done` from list position `k` on. */
  function DownScan(s: Ports, k: nat): (r: Ports)
    requires k <= |s|
    ensures |r| == |s|
    decreases |s| - k
  {
    if k == |s| then EnableNext(s).0
    else if !s[k].isGpio then DownScan(s, k + 1)
    else if HasDevice(s[k]) then s[k := Arm(s[k], GPIO_TIMEOUT_PROBE_DISABLE_SEC)]
    else DownScan(s[k := s[k].(probe := PROBE_DOWN_DONE)], k + 1)
  }

  /** `gpio_handle_probe_up_timeout` */
  function UpTimeout(s: Ports, i: nat): (r: Ports)
    requires i < |s|
    ensures |r| == |s|
  {
    s[i := Arm(Update(s[i], CMD_DISABLE).(probe := PROBE_DOWN_2, msgMode := PROBE), GPIO_TIMEOUT_PROBE_DISABLE_SEC)]
  }

  /** The same when the pin may fail to be switched off: it is tried again later. */
  function TryUpTimeout(s: Ports, i: nat, written: bool): (r: Ports)
    requires i < |s|
    ensures |r| == |s|
  {
    if written then UpTimeout(s, i) else s[i := Arm(s[i], GPIO_TIMEOUT_PROBE_DISABLE_SEC)]
  }

  /** `gpio_on_probe_timeout` for port `i`, already removed from the timeout list. */
  function OnProbeTimeout(s: Ports, i: nat, w: Written): (r: Outcome)
    requires i < |s|
    ensures r.Handled? ==> |r.s| == |s|
  {
    match s[i].probe
    case PROBE_DOWN | PROBE_DOWN_DONE => Handled(DownScan(s[i := s[i].(probe := PROBE_DOWN_DONE)], 0))
    case PROBE_UP => Handled(UpTimeout(s, i))
    case PROBE_DOWN_2 => Advance(s, i, w)
    case PROBE_WRITE_FILE => WriteConfig(s, i, w)
    case _ => Handled(s)
  }

  /** The timer of port `i` fires. */
  function OnTimeout(s: Ports, i: nat, w: Written): (r: Outcome)
    requires i < |s|
    ensures r.Handled? ==> |r.s| == |s|
  {
    OnProbeTimeout(s[i := s[i].(armed := false)], i, w)
  }

  // ----- devices -----

  /** The path is in the used part of a path array. */
  predicate Lists(slots: seq<Slot>, p: Path) {
    exists k | 0 <= k < |slots| :: slots[k] == Used(p) && forall j | 0 <= j < k :: slots[j].Used?
  }

  predicate Owns(v: Port, p: Path) { Lists(v.slots, p) }

  /** `usb_monitor_lists_find_port_path` */
  function FindPath(s: Ports, p: Path): (i: nat)
    ensures i <= |s|
  {
    First(s, v => Owns(v, p))
  }

  /** `gpio_handler_swap_port_info`: port `m` that matched gives its paths and the device
      to port `u` that is being probed, and takes the paths of `u`. */
  function Swap(s: Ports, m: nat, u: nat): (r: Ports)
    requires m < |s| && u < |s| && m != u
    ensures |r| == |s|
  {
    var vm, vu := s[m], s[u];
    s[u := vu.(slots := vm.slots, vid := vm.vid, pid := vm.pid, connected := vm.connected, dev := vm.dev)]
     [m := vm.(slots := vu.slots, vid := 0, pid := 0, connected := false, dev := NoDevice)]
  }

  /** `gpio_handler_handle_probe_connect` for port `m`. */
  function HandleConnect(s: Ports, m: nat, w: Written): (r: Outcome)
    requires m < |s| && s[m].isGpio
    ensures r.Handled? ==> |r.s| == |s|
  {
    if s[m].probe == PROBE_DOWN_2 then Handled(s)
    else if s[m].probe == PROBE_UP then
      Advance(s[m := s[m].(armed := false)], m, w)
    else
      var u := First(s, v => IsUp(v));
      if u == |s| then NullDereference
      else
        var s1 := Swap(s, m, u);
        Advance(s1[u := s1[u].(armed := false)], u, w)
  }

  function WithDevice(v: Port, id: nat, vid: nat, pid: nat): Port {
    v.(vid := vid, pid := pid, connected := true, dev := Device(id))
  }

  /** `usb_device_added` for port `m` outside probe mode: the port is pinged from now on, or
      restarted at once if the device is `bad` (`usb_helpers_check_bad_id`). */
  function OnAdded(s: Ports, m: nat, id: nat, vid: nat, pid: nat, bad: bool): (r: Outcome)
    requires m < |s|
    ensures r.Handled? ==> |r.s| == |s|
  {
    if s[m].msgMode == RESET || !s[m].enabled || s[m].dev == Device(id) then Handled(s)
    else if s[m].armed then DoubleInsertion
    else
      var v := Arm(WithDevice(s[m], id, vid, pid).(msgMode := PING), ADDED_TIMEOUT_SEC);
      Handled(s[m := if bad then Update(v, CMD_RESTART) else v])
  }

  /** `usb_device_added` on a path of a GPIO port, or of none. */
  function OnConnect(s: Ports, p: Path, id: nat, vid: nat, pid: nat, bad: bool, w: Written): (r: Outcome)
    ensures r.Handled? ==> |r.s| == |s|
  {
    var m := FindPath(s, p);
    if m == |s| || !s[m].isGpio then Handled(s) // no port of ours
    else if s[m].msgMode != PROBE then OnAdded(s, m, id, vid, pid, bad)
    else if s[m].dev == Device(id) then Handled(s)
    else HandleConnect(s[m := WithDevice(s[m], id, vid, pid)], m, w)
  }

  /** `usb_helpers_reset_port` */
  function ResetPort(v: Port): Port {
    v.(vid := 0, pid := 0, connected := false, dev := NoDevice,
       armed := v.armed && (v.msgMode == RESET || v.msgMode == PROBE))
  }

  /** `usb_device_removed` on a path of a GPIO port, or of none. */
  function OnRemove(s: Ports, p: Path): (r: Ports)
    ensures |r| == |s|
  {
    var m := FindPath(s, p);
    if m == |s| || !s[m].isGpio then s else s[m := ResetPort(s[m])]
  }

  // ----- what else happens to ports outside probe mode -----

  /** The timer of a port outside probe mode fires.  A port with a device is pinged, and the
      timer runs again if that is not possible; any other port is switched.  `ok` says
      whether the ping can be sent or the GPIO file written. */
  function Expired(v: Port, ok: bool): Port {
    var u := v.(armed := false);
    if !v.enabled then u
    else if v.msgMode == PING then if ok then u else Arm(u, DEFAULT_TIMEOUT_SEC)
    else TryUpdate(u, CMD_RESTART, ok).0
  }

  function OnExpire(s: Ports, i: nat, ok: bool): (r: Ports)
    ensures |r| == |s|
  {
    if i < |s| && s[i].isGpio && s[i].armed && s[i].msgMode != PROBE then s[i := Expired(s[i], ok)] else s
  }

  /** How a ping ends: the next one is awaited, or there were too many failures and the port
      is restarted, where the GPIO file may fail to be `written`. */
  datatype Ping = Again | TooMany(written: bool)

  /** `usb_helpers_ping_cb`.  A restart that fails has started the timer already. */
  function OnPinged(s: Ports, i: nat, ping: Ping): (r: Outcome)
    ensures r.Handled? ==> |r.s| == |s|
  {
    if i >= |s| || !s[i].isGpio || !s[i].enabled || s[i].msgMode != PING then Handled(s)
    else if ping.TooMany? then
      var (v, failed) := TryUpdate(s[i], CMD_RESTART, ping.written);
      if failed then DoubleInsertion else Handled(s[i := v])
    else if s[i].armed then DoubleInsertion
    else Handled(s[i := Arm(s[i], DEFAULT_TIMEOUT_SEC)])
  }

  /** The client's request makes no difference (`usb_monitor_client_update_ports`). */
  predicate Idle(v: Port, cmd: Cmd) {
    || v.msgMode == PROBE
    || (cmd == CMD_ENABLE && v.enabled) || (cmd == CMD_DISABLE && !v.enabled)
    || (cmd == CMD_RESTART && v.msgMode == RESET)
  }

  /** A request of a client for the port that owns the path. */
  function OnRequest(s: Ports, p: Path, cmd: Cmd, written: bool): (r: Ports)
    ensures |r| == |s|
  {
    var m := FindPath(s, p);
    if m == |s| || !s[m].isGpio || Idle(s[m], cmd) then s else s[m := TryUpdate(s[m], cmd, written).0]
  }

  /** `usb_helpers_reset_all_ports`, one port. */
  function ResetOne(v: Port, forced: bool, written: bool): Port {
    if v.isGpio && v.msgMode != RESET && v.enabled && v.msgMode != PROBE && (forced || !v.connected)
    then TryUpdate(v, CMD_RESTART, written).0
    else v
  }

  function OnResetAll(s: Ports, forced: bool, written: bool): (r: Ports)
    ensures |r| == |s|
  {
    seq(|s|, i requires 0 <= i < |s| => ResetOne(s[i], forced, written))
  }

  // ----- the start -----

  function StartOne(v: Port): Port {
    if v.isGpio then Update(v, CMD_DISABLE).(probe := PROBE_DOWN, msgMode := PROBE, armed := false) else v
  }

  /** The last GPIO port of the list, or the length if there is none. */
  function LastGpio(s: Ports): (i: nat)
    ensures i <= |s|
    ensures i < |s| ==> s[i].isGpio
    ensures i == |s| ==> forall j | 0 <= j < |s| :: !s[j].isGpio
  {
    if s == [] then 0
    else
      var n := |s| - 1;
      if s[n].isGpio then n
      else
        var i := LastGpio(s[..n]);
        if i == n then |s| else i
  }

  /** `gpio_handler_start_probe` */
  function Start(s: Ports): (r: Ports)
    ensures |r| == |s|
  {
    var t := seq(|s|, i requires 0 <= i < |s| => StartOne(s[i]));
    var i := LastGpio(t);
    if i < |t| then t[i := Arm(t[i], GPIO_TIMEOUT_PROBE_DISABLE_SEC)] else t
  }
}
