/** The GPIO handler's functions on the ports themselves. */
module GpioHandler {
  import opened GpioModel

  /** `struct gpio_port`, as far as probing is concerned. */
  class UsbPort {
    const isGpio: bool
    const path: array<Slot>
    var vid: nat
    var pid: nat
    var connected: bool
    var dev: Device
    var enabled: bool
    var pwr: bool
    var msgMode: MsgMode
    var probe: ProbeState
    var armed: bool
    var wait: nat

    ghost function View(): Port
      reads this, path
    {
      Port(isGpio, path[..], vid, pid, connected, dev, enabled, pwr, msgMode, probe, armed, wait)
    }

    /** `usb_helpers_start_timeout`: the port must not be in the list yet. */
    method StartTimeout(sec: nat)
      requires !armed
      modifies `armed, `wait
      ensures armed && wait == sec
    {
      armed, wait := true, sec;
    }

    /** `usb_monitor_lists_del_timeout`: the port must be in the list. */
    method DelTimeout()
      requires armed
      modifies `armed
      ensures !armed
    {
      armed := false;
    }

    /** `gpio_update_port`; `written` says whether the GPIO file can be written. */
    method UpdatePort(cmd: Cmd, written: bool) returns (failed: bool)
      modifies this
      ensures (View(), failed) == TryUpdate(old(View()), cmd, written)
    {
      if cmd == CMD_ENABLE {
        if !written {
          return true;
        }
        enabled := true;
        pwr := true;
        return false;
      } else if cmd == CMD_DISABLE {
        if !written {
          return true;
        }
        enabled := false;
        pwr := false;
        msgMode := IDLE;
        return false;
      }
      if !enabled {
        return false;
      }
      msgMode := RESET;
      if armed {
        DelTimeout();
      }
      if !written {
        StartTimeout(DEFAULT_TIMEOUT_SEC);
        return true;
      }
      pwr := !pwr;
      if pwr {
        msgMode := IDLE;
        return false;
      }
      StartTimeout(GPIO_TIMEOUT_SLEEP_SEC);
      return false;
    }

    /** The end of `usb_device_added` outside probe mode. */
    method StartPing(bad: bool)
      requires !armed
      modifies this
      ensures var v := Arm(old(View()).(msgMode := PING), ADDED_TIMEOUT_SEC);
              View() == if bad then Update(v, CMD_RESTART) else v
    {
      msgMode := PING;
      StartTimeout(ADDED_TIMEOUT_SEC);
      if bad {
        var _ := UpdatePort(CMD_RESTART, true);
      }
    }

    /** `usb_helpers_reset_port` */
    method Reset()
      modifies this
      ensures View() == ResetPort(old(View()))
    {
      if msgMode != RESET && msgMode != PROBE && armed {
        DelTimeout();
      }
      vid := 0;
      pid := 0;
      dev := NoDevice;
      connected := false;
    }

    /** `gpio_handle_timeout` outside probe mode, with the guard of the caller; the port has
        left the timeout list. */
    method RunningTimeout(ok: bool)
      requires !armed
      modifies this
      ensures View() == Expired(old(View()), ok)
    {
      if !enabled {
        return;
      }
      if msgMode == PING {
        if !ok {
          StartTimeout(DEFAULT_TIMEOUT_SEC);
        }
        return;
      }
      var _ := UpdatePort(CMD_RESTART, ok);
    }

    /** `usb_helpers_ping_cb`: the timer must not run, and a restart must not fail. */
    method PingCb(ping: Ping)
      requires enabled && msgMode == PING ==> if ping.TooMany? then ping.written else !armed
      modifies this
      ensures View() == if !old(enabled) || old(msgMode) != PING then old(View())
                        else if ping.TooMany? then Update(old(View()), CMD_RESTART)
                        else Arm(old(View()), DEFAULT_TIMEOUT_SEC)
    {
      if !enabled || msgMode != PING {
        return;
      }
      if ping.TooMany? {
        var failed := UpdatePort(CMD_RESTART, ping.written);
        if !failed {
          return;
        }
      }
      StartTimeout(DEFAULT_TIMEOUT_SEC);
    }
  }

  /** The paths come first in the array, without gaps. */
  predicate Dense(slots: seq<Slot>) {
    forall i, j | 0 <= i < j < |slots| && slots[j].Used? :: slots[i].Used?
  }

  class Monitor {
    /** `port_list` */
    const ports: seq<UsbPort>

    ghost predicate Valid() {
      && (forall i, j | 0 <= i < j < |ports| :: ports[i] != ports[j] && ports[i].path != ports[j].path)
      && (forall i | 0 <= i < |ports| :: ports[i].path.Length == MAX_NUM_PATHS)
    }

    ghost function Views(): (s: Ports)
      reads ports, set p | p in ports :: p.path
      ensures |s| == |ports|
    {
      seq(|ports|, i requires 0 <= i < |ports| reads ports, set p | p in ports :: p.path => ports[i].View())
    }

    twostate lemma OneChanged(i: nat)
      requires Valid() && i < |ports|
      requires forall j | 0 <= j < |ports| && j != i :: ports[j].View() == old(ports[j].View())
      ensures Views() == old(Views())[i := ports[i].View()]
    {
      ghost var s := old(Views());
      forall j | 0 <= j < |ports| ensures s[j] == old(ports[j].View()) && Views()[j] == ports[j].View() {
      }
    }

    /** `usb_monitor_lists_del_timeout` for port `i` of the list. */
    method StopTimeout(i: nat)
      requires Valid() && i < |ports| && ports[i].armed
      modifies ports[i]
      ensures Views() == old(Views())[i := old(Views())[i].(armed := false)]
      ensures forall j | 0 <= j < |ports| :: ports[j].armed == (j != i && old(ports[j].armed))
    {
      assert Views()[i] == ports[i].View();
      ports[i].DelTimeout();
      OneChanged(i);
    }

    /** `gpio_probe_enable_port`; `written` says whether the pin can be switched on. */
    method ProbeEnablePort(written: bool) returns (more: bool)
      requires Valid()
      requires forall i | 0 <= i < |ports| && ports[i].isGpio :: !ports[i].armed
      modifies ports
      ensures (Views(), more) == TryEnableNext(old(Views()), written)
    {
      ghost var s := Views();
      for i := 0 to |ports|
        invariant Views() == s
        invariant forall j | 0 <= j < i :: !Waiting(s[j])
      {
        var itr := ports[i];
        assert s[i] == itr.View();
        if !itr.isGpio {
          continue;
        }
        if itr.probe == PROBE_DOWN_DONE {
          assert First(s, v => Waiting(v)) == i;
          EnablePort(i, written);
          return true;
        }
      }
      assert First(s, v => Waiting(v)) == |s|;
      return false;
    }

    /** The body of that loop for the first waiting port. */
    method EnablePort(i: nat, written: bool)
      requires Valid() && i < |ports| && ports[i].isGpio && !ports[i].armed
      modifies ports[i]
      ensures var s := old(Views());
              Views() == s[i := if written then PowerUp(s[i]) else Arm(s[i], GPIO_TIMEOUT_PROBE_DISABLE_SEC)]
    {
      ghost var s := Views();
      var itr := ports[i];
      assert s[i] == itr.View();
      var failed := itr.UpdatePort(CMD_ENABLE, written);
      assert itr.armed == itr.View().armed;
      if failed {
        itr.StartTimeout(GPIO_TIMEOUT_PROBE_DISABLE_SEC);
      } else {
        itr.probe := PROBE_UP;
        itr.StartTimeout(GPIO_TIMEOUT_PROBE_ENABLE_SEC);
      }
      OneChanged(i);
    }

    /** `gpio_handler_restart_all_ports` */
    method RestartAllPorts()
      requires Valid()
      modifies ports
      ensures Views() == RestartAll(old(Views()))
    {
      ghost var s := Views();
      for i := 0 to |ports|
        invariant forall j | 0 <= j < i :: ports[j].View() == RestartOne(s[j])
        invariant forall j | i <= j < |ports| :: ports[j].View() == s[j]
      {
        var itr := ports[i];
        if !itr.isGpio {
          continue;
        }
        if !itr.enabled {
          itr.msgMode := IDLE;
          var _ := itr.UpdatePort(CMD_ENABLE, true);
        } else {
          var _ := itr.UpdatePort(CMD_RESTART, true);
        }
      }
    }

    /** `gpio_write_config` for port `i`; `w` says how far writing the file gets.  When only
        `link` fails, the ports have been restarted before the port is put into the timeout
        list, and it must not be there by then. */
    method WriteConfig(i: nat, w: Written)
      requires Valid() && i < |ports| && !ports[i].armed
      requires GpioModel.WriteConfig(Views(), i, w).Handled?
      modifies ports
      ensures Handled(Views()) == GpioModel.WriteConfig(old(Views()), i, w)
    {
      ghost var s := Views();
      assert s[i] == ports[i].View();
      if w == WriteFailed {
        PostponePort(i);
        return;
      }
      RestartAllPorts();
      if w == LinkFailed {
        assert Views()[i] == ports[i].View();
        PostponePort(i);
      }
    }

    /** The port waits before the configuration is written again. */
    method PostponePort(i: nat)
      requires Valid() && i < |ports| && !ports[i].armed
      modifies ports[i]
      ensures Views() == Postpone(old(Views()), i)
    {
      ghost var s := Views();
      assert s[i] == ports[i].View();
      ports[i].probe := PROBE_WRITE_FILE;
      ports[i].StartTimeout(GPIO_TIMEOUT_PROBE_DISABLE_SEC);
      OneChanged(i);
    }

    /** What follows when port `i` has been probed (`gpio_handle_probe_down_2` and the end
        of `gpio_handler_handle_probe_connect`). */
    method ProbeNext(i: nat, w: Written)
      requires Valid() && i < |ports|
      requires forall j | 0 <= j < |ports| && ports[j].isGpio :: !ports[j].armed
      requires ports[i].isGpio && Advance(Views(), i, w).Handled?
      modifies ports
      ensures Handled(Views()) == Advance(old(Views()), i, w)
    {
      hide GpioModel.WriteConfig;
      ghost var s := Views();
      ports[i].probe := PROBE_DONE;
      ghost var s1 := Views();
      assert s1 == s[i := s[i].(probe := PROBE_DONE)];
      var more := ProbeEnablePort(true);
      if !more {
        assert Views() == s1;
        assert s1[i] == ports[i].View();
        WriteConfig(i, w);
      }
    }

    /** `gpio_on_probe_down_done` */
    method OnProbeDownDone()
      requires Valid()
      requires forall j | 0 <= j < |ports| && ports[j].isGpio :: !ports[j].armed
      modifies ports
      ensures Views() == DownScan(old(Views()), 0)
    {
      hide EnableNext, Update;
      ghost var s := Views();
      for i := 0 to |ports|
        invariant DownScan(s, 0) == DownScan(Views(), i)
        invariant forall j | 0 <= j < |ports| && ports[j].isGpio :: !ports[j].armed
      {
        ghost var t := Views();
        assert t[i := t[i]] == t && t[i].isGpio == ports[i].isGpio;
        var busy := CheckDown(i);
        if busy {
          return;
        }
      }
      var more := ProbeEnablePort(true);
    }

    /** One turn of that loop: a port with a device is given more time, any other is down. */
    method CheckDown(i: nat) returns (busy: bool)
      requires Valid() && i < |ports| && (ports[i].isGpio ==> !ports[i].armed)
      modifies ports[i]
      ensures var s := old(Views());
              && busy == (s[i].isGpio && HasDevice(s[i]))
              && Views() == s[i := if busy then Arm(s[i], GPIO_TIMEOUT_PROBE_DISABLE_SEC)
                                   else if s[i].isGpio then s[i].(probe := PROBE_DOWN_DONE) else s[i]]
      ensures !busy ==> ports[i].armed == old(ports[i].armed)
    {
      ghost var s := Views();
      var itr := ports[i];
      assert s[i] == itr.View();
      if !itr.isGpio {
        return false;
      }
      if itr.vid != 0 || itr.pid != 0 {
        itr.StartTimeout(GPIO_TIMEOUT_PROBE_DISABLE_SEC);
        assert Views() == s[i := Arm(s[i], GPIO_TIMEOUT_PROBE_DISABLE_SEC)];
        return true;
      }
      itr.probe := PROBE_DOWN_DONE;
      assert Views() == s[i := s[i].(probe := PROBE_DOWN_DONE)];
      return false;
    }

    /** `gpio_handle_probe_up_timeout`; `written` says whether the pin can be switched off. */
    method HandleProbeUpTimeout(i: nat, written: bool)
      requires Valid() && i < |ports| && !ports[i].armed && ports[i].probe == PROBE_UP
      modifies ports
      ensures Views() == TryUpTimeout(old(Views()), i, written)
    {
      ghost var s := Views();
      assert s[i] == ports[i].View();
      var failed := ports[i].UpdatePort(CMD_DISABLE, written);
      assert ports[i].armed == ports[i].View().armed;
      if !failed {
        ports[i].probe := PROBE_DOWN_2;
        ports[i].msgMode := PROBE;
      }
      ports[i].StartTimeout(GPIO_TIMEOUT_PROBE_DISABLE_SEC);
      assert Views() == TryUpTimeout(s, i, written);
    }

    /** `gpio_on_probe_timeout` */
    method ProbeTimeout(i: nat, w: Written)
      requires Valid() && i < |ports| && ports[i].isGpio
      requires forall j | 0 <= j < |ports| && ports[j].isGpio :: !ports[j].armed
      requires OnProbeTimeout(Views(), i, w).Handled?
      modifies ports
      ensures Handled(Views()) == OnProbeTimeout(old(Views()), i, w)
    {
      ghost var s := Views();
      assert s[i] == ports[i].View();
      if ports[i].probe == PROBE_DOWN || ports[i].probe == PROBE_DOWN_DONE {
        ports[i].probe := PROBE_DOWN_DONE;
        assert Views() == s[i := s[i].(probe := PROBE_DOWN_DONE)];
        OnProbeDownDone();
      } else if ports[i].probe == PROBE_UP {
        HandleProbeUpTimeout(i, true);
      } else if ports[i].probe == PROBE_DOWN_2 {
        ProbeNext(i, w);
      } else if ports[i].probe == PROBE_WRITE_FILE {
        WriteConfig(i, w);
      }
    }

    /** The expired port `i` is taken out of the timeout list and its handler called. */
    method FireTimeout(i: nat, w: Written)
      requires Valid() && i < |ports| && ports[i].isGpio && ports[i].armed && ports[i].msgMode == PROBE
      requires forall j | 0 <= j < |ports| && ports[j].isGpio && j != i :: !ports[j].armed
      requires OnTimeout(Views(), i, w).Handled?
      modifies ports
      ensures Handled(Views()) == OnTimeout(old(Views()), i, w)
    {
      assert Views()[i] == ports[i].View();
      StopTimeout(i);
      ProbeTimeout(i, w);
    }

    /** `usb_monitor_lists_find_port_path` */
    method FindPortPath(p: Path) returns (m: nat)
      requires Valid()
      ensures m == FindPath(Views(), p)
    {
      ghost var s := Views();
      for i := 0 to |ports|
        invariant forall j | 0 <= j < i :: !Owns(s[j], p)
      {
        assert s[i] == ports[i].View();
        var k := 0;
        while k < MAX_NUM_PATHS
          invariant 0 <= k <= MAX_NUM_PATHS
          invariant forall j | 0 <= j < k :: s[i].slots[j].Used? && s[i].slots[j] != Used(p)
        {
          if ports[i].path[k] == Free {
            break;
          }
          if ports[i].path[k] == Used(p) {
            assert s[i].slots[k] == Used(p);
            assert Owns(s[i], p);
            return i;
          }
          k := k + 1;
        }
        assert !Owns(s[i], p);
      }
      return |ports|;
    }

    /** Moves the used entries of `source` to the start of `target` and clears them. */
    static method MovePaths(source: array<Slot>, target: array<Slot>)
      requires source != target && source.Length == target.Length == MAX_NUM_PATHS
      requires Dense(source[..]) && (forall j | 0 <= j < MAX_NUM_PATHS :: target[j] == Free)
      modifies source, target
      ensures target[..] == old(source[..])
      ensures forall j | 0 <= j < MAX_NUM_PATHS :: source[j] == Free
    {
      var i := 0;
      while i < MAX_NUM_PATHS
        invariant 0 <= i <= MAX_NUM_PATHS
        invariant forall j | 0 <= j < i :: target[j] == old(source[j]) && source[j] == Free
        invariant forall j | i <= j < MAX_NUM_PATHS :: source[j] == old(source[j]) && target[j] == Free
      {
        if source[i] == Free {
          assert forall j | i <= j < MAX_NUM_PATHS :: old(source[..])[j] == Free;
          break;
        }
        target[i] := source[i];
        source[i] := Free;
        i := i + 1;
      }
    }

    /** Exchanges two path arrays through a temporary one. */
    static method SwapPaths(a: array<Slot>, b: array<Slot>)
      requires a != b && a.Length == b.Length == MAX_NUM_PATHS && Dense(a[..]) && Dense(b[..])
      modifies a, b
      ensures a[..] == old(b[..]) && b[..] == old(a[..])
    {
      var pathTmp := new Slot[MAX_NUM_PATHS](_ => Free);
      MovePaths(a, pathTmp);
      MovePaths(b, a);
      MovePaths(pathTmp, b);
    }

    /** `gpio_handler_swap_port_info`: exchanges the paths and hands the device over. */
    method SwapPortInfo(m: nat, u: nat)
      requires Valid() && m < |ports| && u < |ports| && m != u
      requires Dense(ports[m].path[..]) && Dense(ports[u].path[..])
      modifies ports[m], ports[u], ports[m].path, ports[u].path
      ensures Views() == Swap(old(Views()), m, u)
    {
      ghost var s := Views();
      assert s[m] == ports[m].View() && s[u] == ports[u].View();
      ExchangePaths(m, u);
      HandOver(m, u);
    }

    method ExchangePaths(m: nat, u: nat)
      requires Valid() && m < |ports| && u < |ports| && m != u
      requires Dense(ports[m].path[..]) && Dense(ports[u].path[..])
      modifies ports[m].path, ports[u].path
      ensures var s := old(Views());
              Views() == s[u := s[u].(slots := s[m].slots)][m := s[m].(slots := s[u].slots)]
    {
      ghost var s := Views();
      assert ports[m] != ports[u] && ports[m].path != ports[u].path;
      SwapPaths(ports[m].path, ports[u].path);
      forall j | 0 <= j < |ports| && j != m && j != u ensures ports[j].View() == s[j] {
        assert s[j] == old(ports[j].View());
      }
    }

    /** Port `u` gets the device of port `m`. */
    method HandOver(m: nat, u: nat)
      requires Valid() && m < |ports| && u < |ports| && m != u
      modifies ports[m], ports[u]
      ensures var s := old(Views());
              Views() == s[u := s[u].(vid := s[m].vid, pid := s[m].pid, connected := s[m].connected, dev := s[m].dev)]
                          [m := s[m].(vid := 0, pid := 0, connected := false, dev := NoDevice)]
    {
      var portMatch, portProbe := ports[m], ports[u];
      assert Views()[m] == portMatch.View() && Views()[u] == portProbe.View();
      portProbe.vid := portMatch.vid;
      portProbe.pid := portMatch.pid;
      portProbe.connected := portMatch.connected;
      portProbe.dev := portMatch.dev;
      OneChanged(u);

      assert Views()[m] == portMatch.View();
      label L:
      portMatch.vid, portMatch.pid, portMatch.connected := 0, 0, false;
      portMatch.dev := NoDevice;
      OneChanged@L(m);
    }

    /** Port `u` is the one powered for probing, and holds the only probe timer. */
    ghost predicate Powered(u: nat)
      reads ports
    {
      && u < |ports| && ports[u].isGpio && ports[u].probe == PROBE_UP && ports[u].armed
      && forall j | 0 <= j < |ports| && ports[j].isGpio && j != u :: !ports[j].armed && ports[j].probe != PROBE_UP
    }

    /** `gpio_handler_handle_probe_connect` for port `m`, which just got a device.  The
        caller must see to it that a pin `a` is powered, or that the port is the one being
        switched off. */
    method HandleProbeConnect(m: nat, w: Written, ghost a: nat)
      requires Valid() && m < |ports| && ports[m].isGpio
      requires ports[m].probe == PROBE_DOWN_2 || Powered(a)
      requires forall j | 0 <= j < |ports| :: Dense(ports[j].path[..])
      requires HandleConnect(Views(), m, w).Handled?
      modifies ports, set p | p in ports :: p.path
      ensures Handled(Views()) == HandleConnect(old(Views()), m, w)
    {
      hide Advance, EnableNext, GpioModel.WriteConfig;
      ghost var s := Views();
      assert s[m] == ports[m].View();
      for i := 0 to |ports|
        invariant i > m ==> ports[m].probe != PROBE_DOWN_2
      {
        if !ports[i].isGpio {
          continue;
        }
        if ports[m].probe == PROBE_DOWN_2 { // tests the port itself in every turn
          return;
        }
      }
      if ports[m].probe == PROBE_UP {
        StopTimeout(m);
        ProbeNext(m, w);
        return;
      }
      ConnectMismatch(m, w, a);
    }

    /** The second half of that function: the path belongs to another port. */
    method ConnectMismatch(m: nat, w: Written, ghost a: nat)
      requires Valid() && m < |ports| && ports[m].isGpio
      requires ports[m].probe != PROBE_DOWN_2 && ports[m].probe != PROBE_UP && Powered(a)
      requires forall j | 0 <= j < |ports| :: Dense(ports[j].path[..])
      requires HandleConnect(Views(), m, w).Handled?
      modifies ports, set p | p in ports :: p.path
      ensures Handled(Views()) == HandleConnect(old(Views()), m, w)
    {
      hide Advance;
      ghost var s := Views();
      assert s[m] == ports[m].View();
      var u := FindPowered(a);
      forall j | 0 <= j < |ports| ensures s[j].armed == ports[j].armed && s[j].isGpio == ports[j].isGpio {
        assert s[j] == ports[j].View();
      }
      SwapPortInfo(m, u);
      forall j | 0 <= j < |ports| ensures ports[j].armed == s[j].armed {
        assert Views()[j] == ports[j].View();
      }
      StopTimeout(u);
      ProbeNext(u, w);
    }

    /** The loop that looks for the port being probed. */
    method FindPowered(ghost a: nat) returns (u: nat)
      requires Valid() && Powered(a)
      ensures Powered(u) && u == First(Views(), v => IsUp(v))
    {
      ghost var s := Views();
      assert s[a] == ports[a].View() && IsUp(s[a]);
      u := 0;
      while !(ports[u].isGpio && ports[u].probe == PROBE_UP)
        invariant 0 <= u <= a
        invariant forall j | 0 <= j < u :: !IsUp(s[j])
        decreases a - u
      {
        assert s[u] == ports[u].View();
        u := u + 1;
      }
      assert s[u] == ports[u].View();
    }

    /** `usb_device_added` for a path that belongs to a GPIO port, or to none. */
    method DeviceAdded(p: Path, id: nat, vid: nat, pid: nat, bad: bool, w: Written, ghost a: nat)
      requires Valid()
      requires OnConnect(Views(), p, id, vid, pid, bad, w).Handled?
      requires Powered(a) || forall u | 0 <= u < |ports| :: !IsUp(ports[u].View())
      requires forall j | 0 <= j < |ports| :: Dense(ports[j].path[..])
      modifies ports, set p | p in ports :: p.path
      ensures Handled(Views()) == OnConnect(old(Views()), p, id, vid, pid, bad, w)
    {
      hide HandleConnect, FindPath, OnAdded;
      ghost var s := Views();
      var m := FindPortPath(p);
      if m == |ports| {
        return;
      }
      assert s[m] == ports[m].View();
      if !ports[m].isGpio {
        return; // handled elsewhere
      }
      if ports[m].msgMode != PROBE {
        RunningDevice(m, id, vid, pid, bad);
        return;
      }
      if ports[m].dev == Device(id) {
        return;
      }
      SetDevice(m, id, vid, pid);
      ghost var t := Views();
      if ports[m].probe != PROBE_DOWN_2 {
        SafeMeansPowered(t, m, w);
        ghost var u := First(t, v => IsUp(v));
        assert IsUp(t[u]) && t[u] == ports[u].View();
        assert Powered(a);
      }
      HandleProbeConnect(m, w, a);
    }

    /** The part of that function for a port outside probe mode. */
    method RunningDevice(m: nat, id: nat, vid: nat, pid: nat, bad: bool)
      requires Valid() && m < |ports| && OnAdded(Views(), m, id, vid, pid, bad).Handled?
      modifies ports[m]
      ensures Handled(Views()) == OnAdded(old(Views()), m, id, vid, pid, bad)
    {
      hide Update;
      ghost var s := Views();
      assert s[m] == ports[m].View();
      if ports[m].msgMode == RESET || !ports[m].enabled {
        return;
      }
      if ports[m].dev == Device(id) {
        return;
      }
      SetDevice(m, id, vid, pid);
      assert Views()[m] == ports[m].View();
      ghost var t := Views();
      label L:
      ports[m].StartPing(bad);
      OneChanged@L(m);
      assert s[m := t[m]] == t;
    }

    method SetDevice(m: nat, id: nat, vid: nat, pid: nat)
      requires Valid() && m < |ports|
      modifies ports[m]
      ensures Views() == old(Views())[m := WithDevice(old(Views())[m], id, vid, pid)]
      ensures forall j | 0 <= j < |ports| :: ports[j].probe == old(ports[j].probe) && ports[j].armed == old(ports[j].armed)
    {
      ghost var s := Views();
      assert s[m] == ports[m].View();
      ports[m].vid := vid;
      ports[m].pid := pid;
      ports[m].connected := true;
      ports[m].dev := Device(id);
      OneChanged(m);
    }

    static lemma SafeMeansPowered(t: Ports, m: nat, w: Written)
      requires m < |t| && t[m].isGpio && t[m].probe != PROBE_DOWN_2 && HandleConnect(t, m, w).Handled?
      ensures First(t, v => IsUp(v)) < |t|
    {
      hide Advance, Swap;
      if t[m].probe == PROBE_UP {
        assert IsUp(t[m]);
      }
    }

    /** `usb_device_removed` for a path that belongs to a GPIO port, or to none. */
    method DeviceRemoved(p: Path)
      requires Valid()
      modifies ports
      ensures Views() == OnRemove(old(Views()), p)
    {
      hide FindPath;
      ghost var s := Views();
      var m := FindPortPath(p);
      if m == |ports| {
        return;
      }
      assert s[m] == ports[m].View();
      if !ports[m].isGpio {
        return; // handled elsewhere
      }
      ports[m].Reset();
      OneChanged(m);
    }

    /** The expired port `i`, which is not in probe mode, leaves the timeout list, and its
        handler is called if it is enabled. */
    method FireRunning(i: nat, ok: bool)
      requires Valid()
      modifies ports
      ensures Views() == OnExpire(old(Views()), i, ok)
    {
      hide Expired;
      ghost var s := Views();
      if i < |ports| {
        assert s[i] == ports[i].View();
        if ports[i].isGpio && ports[i].armed && ports[i].msgMode != PROBE {
          ports[i].DelTimeout();
          ExpiredAnyway(s[i], ok);
          ports[i].RunningTimeout(ok);
          OneChanged(i);
        }
      }
    }

    static lemma ExpiredAnyway(v: Port, ok: bool)
      ensures Expired(v.(armed := false), ok) == Expired(v, ok)
    {
    }

    /** A ping of port `i` ends. */
    method PingEnds(i: nat, ping: Ping)
      requires Valid() && OnPinged(Views(), i, ping).Handled?
      modifies ports
      ensures Handled(Views()) == OnPinged(old(Views()), i, ping)
    {
      hide Update;
      ghost var s := Views();
      if i < |ports| && ports[i].isGpio {
        assert s[i] == ports[i].View();
        ports[i].PingCb(ping);
        OneChanged(i);
      }
      assert i < |s| ==> s[i].isGpio == ports[i].isGpio;
    }

    /** One port of a request of a client (`usb_monitor_client_update_ports`). */
    method UpdateRequested(p: Path, cmd: Cmd, written: bool)
      requires Valid()
      modifies ports
      ensures Views() == OnRequest(old(Views()), p, cmd, written)
    {
      hide FindPath, TryUpdate;
      ghost var s := Views();
      var m := FindPortPath(p);
      if m == |ports| {
        return;
      }
      var port := ports[m];
      assert s[m] == port.View();
      if !port.isGpio || port.msgMode == PROBE {
        return;
      }
      if (cmd == CMD_ENABLE && port.enabled) || (cmd == CMD_DISABLE && !port.enabled) {
        return;
      }
      if cmd == CMD_RESTART && port.msgMode == RESET {
        return;
      }
      var _ := port.UpdatePort(cmd, written);
      OneChanged(m);
    }

    /** `usb_helpers_reset_all_ports` */
    method ResetAllPorts(forced: bool, written: bool)
      requires Valid()
      modifies ports
      ensures Views() == OnResetAll(old(Views()), forced, written)
    {
      hide TryUpdate;
      ghost var s := Views();
      for i := 0 to |ports|
        invariant forall j | 0 <= j < i :: ports[j].View() == ResetOne(s[j], forced, written)
        invariant forall j | i <= j < |ports| :: ports[j].View() == s[j]
      {
        var itr := ports[i];
        if itr.msgMode == RESET || !itr.enabled || itr.msgMode == PROBE {
          continue;
        }
        if itr.isGpio && (forced || !itr.connected) {
          var _ := itr.UpdatePort(CMD_RESTART, written);
        }
      }
    }

    /** `gpio_handler_start_probe`; `stuck` is the port, if any, that cannot be switched off. */
    method StartProbe(stuck: nat) returns (failed: bool)
      requires Valid()
      requires exists i :: 0 <= i < |ports| && ports[i].isGpio
      modifies ports
      ensures failed == (stuck < |ports| && ports[stuck].isGpio)
      ensures Views() == if failed then StartedUntil(old(Views()), stuck) else Start(old(Views()))
    {
      hide StartedUntil, Start;
      ghost var s := Views();
      var last;
      last, failed := SwitchOff(stuck);
      if !failed {
        assert Views()[last] == ports[last].View();
        StartIs(s, last);
        label L:
        ports[last].StartTimeout(GPIO_TIMEOUT_PROBE_DISABLE_SEC);
        OneChanged@L(last);
      }
    }

    /** The ports before position `n` are switched off, and no timer runs on them. */
    static ghost function StartedUntil(s: Ports, n: nat): (r: Ports)
      ensures |r| == |s|
    {
      seq(|s|, i requires 0 <= i < |s| => if i < n then StartOne(s[i]) else s[i])
    }

    static lemma StartIs(s: Ports, i: nat)
      requires i == LastGpio(StartedUntil(s, |s|)) < |s|
      ensures var t := StartedUntil(s, |s|);
              Start(s) == t[i := Arm(t[i], GPIO_TIMEOUT_PROBE_DISABLE_SEC)]
    {
      hide LastGpio;
      assert StartedUntil(s, |s|) == seq(|s|, j requires 0 <= j < |s| => StartOne(s[j]));
    }

    static lemma StartedNone(s: Ports)
      ensures StartedUntil(s, 0) == s
    {
    }

    static lemma StartedNext(s: Ports, i: nat)
      requires i < |s|
      ensures StartedUntil(s, i)[i] == s[i]
      ensures StartedUntil(s, i + 1) == StartedUntil(s, i)[i := StartOne(s[i])]
    {
    }

    method SwitchOff(stuck: nat) returns (last: nat, failed: bool)
      requires Valid()
      requires exists i :: 0 <= i < |ports| && ports[i].isGpio
      modifies ports
      ensures failed == (stuck < |ports| && ports[stuck].isGpio)
      ensures Views() == StartedUntil(old(Views()), if failed then stuck else |ports|)
      ensures !failed ==> last == LastGpio(Views()) < |ports| && !ports[last].armed
    {
      hide StartOne, StartedUntil;
      ghost var s := Views();
      assert StartedUntil(s, 0) == s by {
        StartedNone(s);
      }
      last := |ports|;
      for i := 0 to |ports|
        invariant Views() == StartedUntil(s, i)
        invariant last < i || last == |ports|
        invariant last < |ports| ==> ports[last].isGpio && !ports[last].armed
        invariant forall j | 0 <= j < i && ports[j].isGpio :: j <= last < |ports|
        invariant stuck < i ==> !ports[stuck].isGpio
      {
        ghost var t := Views();
        assert t[i] == ports[i].View();
        label L:
        last, failed := StartPort(i, last, i != stuck);
        OneChanged@L(i);
        if failed {
          return;
        }
        StartedNext(s, i);
      }
      LastIs(Views(), last);
      return last, false;
    }

    /** One turn of the loop that switches the pins off. */
    method StartPort(i: nat, last: nat, written: bool) returns (last': nat, failed: bool)
      requires Valid() && i < |ports|
      modifies ports[i]
      ensures failed == (ports[i].isGpio && !written)
      ensures ports[i].View() == if failed then old(ports[i].View()) else StartOne(old(ports[i].View()))
      ensures ports[i].isGpio && !failed ==> !ports[i].armed
      ensures last' == if ports[i].isGpio then i else last
    {
      var itr := ports[i];
      if !itr.isGpio {
        return last, false;
      }
      failed := itr.UpdatePort(CMD_DISABLE, written);
      if failed {
        return i, true;
      }
      itr.probe := PROBE_DOWN;
      itr.msgMode := PROBE;
      if itr.armed {
        itr.DelTimeout();
      }
      return i, false;
    }

    static lemma {:induction false} LastIs(t: Ports, i: nat)
      requires i < |t| && t[i].isGpio && forall j | i < j < |t| :: !t[j].isGpio
      ensures LastGpio(t) == i
      decreases |t|
    {
      var n := |t| - 1;
      if i < n {
        assert !t[n].isGpio;
        LastIs(t[..n], i);
      }
    }
  }
}
