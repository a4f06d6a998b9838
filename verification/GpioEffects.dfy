/** What each event does to the fields of the ports: power, timers, modes and devices, with
    all seconds written out. */
module GpioEffects {
  import opened GpioModel
  import opened GpioProbe
  import GpioFaults

  /** Port `m` is the first one that owns the path. */
  predicate Owner(s: Ports, p: Path, m: nat) {
    m < |s| && Owns(s[m], p) && forall j | 0 <= j < m :: !Owns(s[j], p)
  }

  lemma OwnerIsFound(s: Ports, p: Path, m: nat)
    requires Owner(s, p, m)
    ensures FindPath(s, p) == m
  {
  }

  /** A port owns the paths in front of the first gap of its array: all of them if there is no
      gap. */
  lemma OwnsExactly(v: Port, p: Path)
    ensures Owns(v, p) <==> exists k: nat | k < |v.slots| :: v.slots[k] == Used(p) && Free !in v.slots[..k]
    ensures (forall i, j | 0 <= i < j < |v.slots| && v.slots[j].Used? :: v.slots[i].Used?) ==>
              (Owns(v, p) <==> Used(p) in v.slots)
  {
    forall k: nat | k < |v.slots| ensures Free !in v.slots[..k] <==> forall j | 0 <= j < k :: v.slots[j].Used? {
      if Free !in v.slots[..k] {
        forall j | 0 <= j < k ensures v.slots[j].Used? {
          assert v.slots[..k][j] == v.slots[j];
        }
      }
    }
    if Used(p) in v.slots {
      var k :| 0 <= k < |v.slots| && v.slots[k] == Used(p);
    }
  }

  predicate Awaits(v: Port) { v.isGpio && v.probe == PROBE_DOWN_DONE }

  /** Nothing changes but at the ports `i` and `k`. */
  ghost predicate SameBut(s: Ports, r: Ports, i: nat, k: nat) {
    |r| == |s| && forall j | 0 <= j < |s| && j != i && j != k :: r[j] == s[j]
  }

  predicate SameDevice(v: Port, w: Port) {
    w.vid == v.vid && w.pid == v.pid && w.connected == v.connected && w.dev == v.dev && w.slots == v.slots && w.isGpio == v.isGpio
  }

  /** The pin is on, and its device has 60 seconds to appear. */
  predicate PoweredForProbe(v: Port, w: Port) {
    SameDevice(v, w) && w.enabled && w.pwr && w.probe == PROBE_UP && w.msgMode == v.msgMode && w.armed && w.wait == 60
  }

  /** The restart at the end of probing: a port that is on is switched off for ten seconds, any
      other one is switched on. */
  predicate RestartedAtEnd(v: Port, w: Port) {
    if !v.isGpio then w == v
    else
      && SameDevice(v, w) && w.probe == v.probe && w.enabled
      && if v.enabled then !w.pwr && w.msgMode == RESET && w.armed && w.wait == 10
         else w.pwr && w.msgMode == IDLE && w.armed == v.armed && w.wait == v.wait
  }

  /** The file is tried again in five seconds. */
  predicate TriedAgain(v: Port, w: Port) {
    SameDevice(v, w) && w.enabled == v.enabled && w.pwr == v.pwr && w.msgMode == v.msgMode
    && w.probe == PROBE_WRITE_FILE && w.armed && w.wait == 5
  }

  /** Writing the mapping for port `i`. */
  ghost predicate Writing(s: Ports, i: nat, w: Written, r: Ports) {
    && i < |s| == |r|
    && match w
       case WriteFailed => SameBut(s, r, i, i) && TriedAgain(s[i], r[i])
       case Stored => forall j | 0 <= j < |s| :: RestartedAtEnd(s[j], r[j])
       case LinkFailed =>
         && (forall j | 0 <= j < |s| && j != i :: RestartedAtEnd(s[j], r[j]))
         && !s[i].enabled && SameDevice(s[i], r[i]) && r[i].enabled && r[i].pwr && r[i].msgMode == IDLE
         && r[i].probe == PROBE_WRITE_FILE && r[i].armed && r[i].wait == 5
  }

  /** Port `i` is finished, with its timer stopped: the first pin that waits is next; behind
      the last one the mapping is written. */
  ghost predicate Finishing(s: Ports, i: nat, w: Written, r: Ports) {
    && i < |s| == |r|
    && (forall n | 0 <= n < |s| && n != i && Awaits(s[n]) && (forall j | 0 <= j < n && j != i :: !Awaits(s[j])) ::
          SameBut(s, r, i, n) && r[i] == s[i].(probe := PROBE_DONE) && PoweredForProbe(s[n], r[n]))
    && ((forall n | 0 <= n < |s| && n != i :: !Awaits(s[n])) ==> Writing(s[i := s[i].(probe := PROBE_DONE)], i, w, r))
  }

  lemma WritingIs(s: Ports, i: nat, w: Written)
    requires i < |s| && s[i].isGpio && InProbe(s) && NoneArmed(s)
    ensures WriteConfig(s, i, w).Handled? ==> Writing(s, i, w, WriteConfig(s, i, w).s)
  {
    if w != WriteFailed {
      var r := RestartAll(s);
      assert forall j | 0 <= j < |s| :: RestartedAtEnd(s[j], r[j]);
    }
  }

  lemma FinishingIs(s: Ports, i: nat, w: Written)
    requires i < |s| && s[i].isGpio && InProbe(s) && NoneArmed(s)
    ensures Advance(s, i, w).Handled? ==> Finishing(s, i, w, Advance(s, i, w).s)
  {
    hide WriteConfig, Writing;
    var s1 := s[i := s[i].(probe := PROBE_DONE)];
    var k := First(s1, v => Waiting(v));
    assert forall j | 0 <= j < |s| && j != i :: s1[j] == s[j];
    if k == |s| {
      forall n | 0 <= n < |s| && n != i ensures !Awaits(s[n]) { assert !Waiting(s1[n]); }
      WritingIs(s1, i, w);
    } else {
      assert Waiting(s1[k]) && k != i && Awaits(s[k]);
      forall n | 0 <= n < |s| && n != i && Awaits(s[n]) && (forall j | 0 <= j < n && j != i :: !Awaits(s[j])) ensures n == k {
        assert Waiting(s1[n]) && k <= n;
      }
    }
  }

  // ----- while pins are probed -----

  /** The time of the pin in hand is up. */
  lemma TimeoutEffect(s: Ports, a: nat, w: Written)
    requires a < |s| && ActivePhase(s, a) && Step(s, Timeout(w)).Handled?
    ensures var r := Step(s, Timeout(w)).s;
            var t := s[a := s[a].(armed := false)];
            && (s[a].probe == PROBE_UP ==>
                  && SameBut(s, r, a, a) && SameDevice(s[a], r[a]) && !r[a].enabled && !r[a].pwr
                  && r[a].probe == PROBE_DOWN_2 && r[a].msgMode == PROBE && r[a].armed && r[a].wait == 5)
            && (s[a].probe == PROBE_DOWN_2 ==> Finishing(t, a, w, r))
            && (s[a].probe == PROBE_WRITE_FILE ==> Writing(t, a, w, r))
  {
    hide Advance, WriteConfig, Finishing, Writing;
    TimerIsTheOne(s, a);
    var t := s[a := s[a].(armed := false)];
    TimerStopped(s, a);
    if s[a].probe == PROBE_DOWN_2 {
      FinishingIs(t, a, w);
    } else if s[a].probe == PROBE_WRITE_FILE {
      WritingIs(t, a, w);
    }
  }

  lemma TimerStopped(s: Ports, a: nat)
    requires a < |s| && ActivePhase(s, a)
    ensures var t := s[a := s[a].(armed := false)];
            t[a].isGpio && InProbe(t) && NoneArmed(t)
  {
  }

  /** The device goes to pin `a`, whose timer stops; if the path belonged to another port `m`,
      the two exchange their paths, and `m` is left without a device. */
  ghost predicate HandedOver(s: Ports, t: Ports, a: nat, m: nat, e: Event)
    requires e.Connect?
  {
    && a < |s| && m < |s| && SameBut(s, t, a, m)
    && t[a] == s[a].(slots := s[m].slots, vid := e.vid, pid := e.pid, connected := true, dev := Device(e.id), armed := false)
    && (m != a ==> t[m] == s[m].(slots := s[a].slots, vid := 0, pid := 0, connected := false, dev := NoDevice))
  }

  lemma HandingOver(s: Ports, a: nat, m: nat, e: Event) returns (t: Ports)
    requires a < |s| && ActivePhase(s, a) && s[a].probe == PROBE_UP
    requires e.Connect? && m < |s| && s[m].isGpio
    ensures HandedOver(s, t, a, m, e)
    ensures HandleConnect(s[m := WithDevice(s[m], e.id, e.vid, e.pid)], m, e.w) == Advance(t, a, e.w)
    ensures InProbe(t) && NoneArmed(t) && t[a].isGpio
  {
    hide Advance;
    var s0 := s[m := WithDevice(s[m], e.id, e.vid, e.pid)];
    DeviceKeepsPhase(s, a, m, s0[m]);
    if m == a {
      t := s0[a := s0[a].(armed := false)];
    } else {
      NotTheOne(s, a, m);
      FirstUp(s0, a);
      var s1 := Swap(s0, m, a);
      t := s1[a := s1[a].(armed := false)];
    }
    assert forall j | 0 <= j < |s| :: t[j].isGpio == s[j].isGpio && t[j].msgMode == s[j].msgMode
                                      && t[j].enabled == s[j].enabled && t[j].pwr == s[j].pwr;
  }

  lemma NotTheOne(s: Ports, a: nat, m: nat)
    requires a < |s| && ActivePhase(s, a) && s[a].probe == PROBE_UP && m < |s| && s[m].isGpio && m != a
    ensures s[m].probe != PROBE_UP && s[m].probe != PROBE_DOWN_2
  {
    assert Settled(s[m]);
  }

  /** A device appears while pin `a` is powered, on a path of a port that does not have that
      device already: it goes to pin `a`, which is then finished. */
  lemma ConnectEffect(s: Ports, a: nat, m: nat, e: Event) returns (t: Ports)
    requires a < |s| && ActivePhase(s, a) && s[a].probe == PROBE_UP
    requires e.Connect? && Owner(s, e.path, m) && s[m].isGpio && s[m].dev != Device(e.id) && Step(s, e).Handled?
    ensures HandedOver(s, t, a, m, e) && Finishing(t, a, e.w, Step(s, e).s)
  {
    hide Advance, HandleConnect, Finishing, HandedOver;
    OwnerIsFound(s, e.path, m);
    t := HandingOver(s, a, m, e);
    assert s[m].msgMode == PROBE;
    FinishingIs(t, a, e.w);
  }

  /** Finishing a port changes no device and no path. */
  lemma FinishingKeepsDevices(s: Ports, i: nat, w: Written, r: Ports)
    requires Finishing(s, i, w, r)
    ensures forall j | 0 <= j < |s| :: SameDevice(s[j], r[j])
  {
    if n :| 0 <= n < |s| && n != i && Awaits(s[n]) {
      var k := FirstAwaiting(s, i, n);
    } else {
      var t := s[i := s[i].(probe := PROBE_DONE)];
      forall j | 0 <= j < |s| ensures SameDevice(s[j], r[j]) {
        assert SameDevice(s[j], t[j]);
      }
    }
  }

  lemma {:induction false} FirstAwaiting(s: Ports, i: nat, n: nat) returns (k: nat)
    requires n < |s| && n != i && Awaits(s[n])
    ensures k <= n && k != i && Awaits(s[k]) && forall j | 0 <= j < k && j != i :: !Awaits(s[j])
  {
    if j :| 0 <= j < n && j != i && Awaits(s[j]) {
      k := FirstAwaiting(s, i, j);
    } else {
      k := n;
    }
  }

  /** So the powered pin has exactly this device, and the port whose path it was has none. */
  lemma DeviceFound(s: Ports, a: nat, m: nat, e: Event)
    requires a < |s| && ActivePhase(s, a) && s[a].probe == PROBE_UP
    requires e.Connect? && Owner(s, e.path, m) && s[m].isGpio && s[m].dev != Device(e.id) && Step(s, e).Handled?
    ensures var r := Step(s, e).s;
            && r[a].vid == e.vid && r[a].pid == e.pid && r[a].connected && r[a].dev == Device(e.id)
            && r[a].slots == s[m].slots
            && (m != a ==> r[m].vid == 0 && r[m].pid == 0 && !r[m].connected && r[m].dev == NoDevice && r[m].slots == s[a].slots)
            && (forall j | 0 <= j < |s| && j != a && j != m :: SameDevice(s[j], r[j]))
  {
    hide Step, Finishing, ActivePhase;
    var t := ConnectEffect(s, a, m, e);
    FinishingKeepsDevices(t, a, e.w, Step(s, e).s);
  }

  /** While pin `a` is being switched off, its own device only leaves its name. */
  lemma LateDevice(s: Ports, a: nat, e: Event)
    requires a < |s| && ActivePhase(s, a) && s[a].probe == PROBE_DOWN_2
    requires e.Connect? && Owner(s, e.path, a) && s[a].dev != Device(e.id)
    ensures Step(s, e) == Handled(s[a := s[a].(vid := e.vid, pid := e.pid, connected := true, dev := Device(e.id))])
  {
    OwnerIsFound(s, e.path, a);
  }

  // ----- while pins are being switched off -----

  predicate Present(v: Port) { v.isGpio && (v.vid != 0 || v.pid != 0) }

  /** The scan begins with the timer of port `a` stopped and that port marked. */
  lemma ScanStarts(s: Ports, a: nat, w: Written)
    requires a < |s| && DownPhase(s, a)
    ensures var t := s[a := s[a].(armed := false, probe := PROBE_DOWN_DONE)];
            Step(s, Timeout(w)) == Handled(DownScan(t, 0)) && forall j | 0 <= j < |s| :: Present(s[j]) == GpioFaults.Busy(t[j])
  {
    hide DownScan;
    TimerIsTheOne(s, a);
    var u := s[a := s[a].(armed := false)];
    assert u[a := u[a].(probe := PROBE_DOWN_DONE)] == s[a := s[a].(armed := false, probe := PROBE_DOWN_DONE)];
    assert s[a].probe in {PROBE_DOWN, PROBE_DOWN_DONE};
  }

  /** The timer of port `a` fires while devices may still be there: the ports up to the first
      one with a device, `k`, are down, and that one is looked at again in five seconds. */
  lemma StillThere(s: Ports, a: nat, k: nat, w: Written)
    requires a < |s| && DownPhase(s, a) && k < |s| && Present(s[k]) && forall j | 0 <= j < k :: !Present(s[j])
    ensures var o := Step(s, Timeout(w));
            && o.Handled?
            && forall j | 0 <= j < |s| ::
                 o.s[j] == s[j].(probe := if s[j].isGpio && (j < k || j == a) then PROBE_DOWN_DONE else s[j].probe,
                                 armed := j == k || (j != a && s[j].armed),
                                 wait := if j == k then 5 else s[j].wait)
  {
    hide Step, DownScan;
    ScanStarts(s, a, w);
    var t := s[a := s[a].(armed := false, probe := PROBE_DOWN_DONE)];
    GpioFaults.DownScanIs(t, 0, k);
  }

  /** When no device is left, all pins are down and the first one is powered. */
  lemma AllGone(s: Ports, a: nat, n: nat, w: Written)
    requires a < |s| && DownPhase(s, a) && forall j | 0 <= j < |s| :: !Present(s[j])
    requires n < |s| && s[n].isGpio && forall j | 0 <= j < n :: !s[j].isGpio
    ensures var o := Step(s, Timeout(w));
            && o.Handled? && PoweredForProbe(s[n], o.s[n])
            && forall j | 0 <= j < |s| && j != n ::
                 o.s[j] == s[j].(probe := if s[j].isGpio then PROBE_DOWN_DONE else s[j].probe, armed := j != a && s[j].armed)
  {
    hide Step, DownScan, EnableNext;
    ScanStarts(s, a, w);
    var t := s[a := s[a].(armed := false, probe := PROBE_DOWN_DONE)];
    GpioFaults.DownScanIs(t, 0, |s|);
    var u := GpioFaults.Marked(t, 0, |s|);
    FirstIsNext(u, n);
  }

  lemma FirstIsNext(u: Ports, n: nat)
    requires n < |u| && Awaits(u[n]) && forall j | 0 <= j < n :: !u[j].isGpio
    ensures var r := EnableNext(u).0;
            SameBut(u, r, n, n) && PoweredForProbe(u[n], r[n])
  {
    assert Waiting(u[n]);
  }

  // ----- outside probe mode -----

  /** Switched off for ten seconds. */
  predicate SwitchedOff(v: Port, w: Port) {
    w == v.(pwr := false, msgMode := RESET, armed := true, wait := 10)
  }

  predicate SwitchedOn(v: Port, w: Port) { w == v.(pwr := true, msgMode := IDLE, armed := false) }

  /** The GPIO file could not be written: the port stays as it is for five seconds. */
  predicate TriedLater(v: Port, w: Port) { w == v.(msgMode := RESET, armed := true, wait := 5) }

  /** The switch of an enabled port. */
  predicate Toggled(v: Port, w: Port, written: bool) {
    if !written then TriedLater(v, w) else if v.pwr then SwitchedOff(v, w) else SwitchedOn(v, w)
  }

  /** A new device outside probe mode is noted, and pinged in ten seconds; the port of a bad one
      is switched at once. */
  lemma AddedEffect(s: Ports, m: nat, e: Event)
    requires e.Connect? && Owner(s, e.path, m) && s[m].isGpio && s[m].msgMode != PROBE
    ensures var o := Step(s, e);
            if s[m].msgMode == RESET || !s[m].enabled || s[m].dev == Device(e.id) then o == Handled(s)
            else if s[m].armed then o == DoubleInsertion
            else
              && o.Handled? && SameBut(s, o.s, m, m)
              && var v := s[m].(vid := e.vid, pid := e.pid, connected := true, dev := Device(e.id), msgMode := PING);
                 if !e.bad then o.s[m] == v.(armed := true, wait := 10)
                 else if v.pwr then SwitchedOff(v, o.s[m])
                 else o.s[m] == v.(pwr := true, msgMode := IDLE, wait := 10)
  {
    hide FindPath;
    OwnerIsFound(s, e.path, m);
  }

  /** A device disappears: nothing is left of it.  The timer only runs on for a port that is
      being reset or probed. */
  lemma RemovedEffect(s: Ports, m: nat, p: Path)
    requires Owner(s, p, m) && s[m].isGpio
    ensures var o := Step(s, Remove(p));
            && o.Handled? && SameBut(s, o.s, m, m)
            && o.s[m] == s[m].(vid := 0, pid := 0, connected := false, dev := NoDevice,
                               armed := s[m].armed && s[m].msgMode in {RESET, PROBE})
  {
    hide FindPath;
    OwnerIsFound(s, p, m);
  }

  /** The timer of a port outside probe mode: one that awaits a ping is pinged, or tried again
      in five seconds; any other enabled one is switched. */
  lemma ExpiredEffect(s: Ports, i: nat, ok: bool)
    requires i < |s| && s[i].isGpio && s[i].armed && s[i].msgMode != PROBE
    ensures var o := Step(s, Expire(i, ok));
            && o.Handled? && SameBut(s, o.s, i, i)
            && if !s[i].enabled || (s[i].msgMode == PING && ok) then o.s[i] == s[i].(armed := false)
               else if s[i].msgMode == PING then o.s[i] == s[i].(armed := true, wait := 5)
               else Toggled(s[i], o.s[i], ok)
  {
  }

  /** The end of a ping of an enabled port: the next one in five seconds, or a restart. */
  lemma PingedEffect(s: Ports, i: nat, ping: Ping)
    requires i < |s| && s[i].isGpio && s[i].enabled && s[i].msgMode == PING
    ensures var o := Step(s, Pinged(i, ping));
            if ping.TooMany? then
              if ping.written then o.Handled? && SameBut(s, o.s, i, i) && Toggled(s[i], o.s[i], true)
              else o == DoubleInsertion
            else if s[i].armed then o == DoubleInsertion
            else o.Handled? && SameBut(s, o.s, i, i) && o.s[i] == s[i].(armed := true, wait := 5)
  {
  }

  /** A client's request for the port of a path: what is asked for already is not done again,
      and a port in probe mode is left alone. */
  lemma RequestEffect(s: Ports, m: nat, p: Path, cmd: Cmd, written: bool)
    requires Owner(s, p, m) && s[m].isGpio
    ensures var o := Step(s, Request(p, cmd, written));
            && o.Handled? && SameBut(s, o.s, m, m)
            && match cmd
               case CMD_ENABLE =>
                 o.s[m] == (if s[m].msgMode == PROBE || s[m].enabled || !written then s[m]
                            else s[m].(enabled := true, pwr := true))
               case CMD_DISABLE =>
                 o.s[m] == (if s[m].msgMode == PROBE || !s[m].enabled || !written then s[m]
                            else s[m].(enabled := false, pwr := false, msgMode := IDLE))
               case CMD_RESTART =>
                 if s[m].msgMode == PROBE || s[m].msgMode == RESET || !s[m].enabled then o.s[m] == s[m]
                 else Toggled(s[m], o.s[m], written)
  {
    hide FindPath;
    OwnerIsFound(s, p, m);
  }

  /** The restart of all ports, or of those without a device. */
  lemma ResetAllEffect(s: Ports, forced: bool, written: bool)
    ensures var o := Step(s, ResetAll(forced, written));
            && o.Handled?
            && forall j | 0 <= j < |s| ::
                 if s[j].isGpio && s[j].enabled && s[j].msgMode != RESET && s[j].msgMode != PROBE && (forced || !s[j].connected)
                 then Toggled(s[j], o.s[j], written)
                 else o.s[j] == s[j]
  {
  }

  /** A client restarts a port that is on, and nothing else happens to it until its timer
      fires: it is off for ten seconds, and then on again as it was. */
  lemma RestartCycle(s: Ports, m: nat, p: Path)
    requires Owner(s, p, m) && s[m].isGpio && s[m].enabled && s[m].pwr && s[m].msgMode in {IDLE, PING}
    ensures var o := Step(s, Request(p, CMD_RESTART, true));
            && o.Handled? && !o.s[m].pwr && o.s[m].armed && o.s[m].wait == 10
            && var q := Step(o.s, Expire(m, true));
               && q.Handled? && SameBut(s, q.s, m, m)
               && q.s[m] == s[m].(msgMode := IDLE, armed := false, wait := 10)
  {
    hide Step;
    RequestEffect(s, m, p, CMD_RESTART, true);
    ExpiredEffect(Step(s, Request(p, CMD_RESTART, true)).s, m, true);
  }

  // ----- GPIO files that cannot be written -----

  /** The switching function fails exactly if the file has to be written and cannot be; then the
      power stays as it is, and only a restart is remembered. */
  lemma FailedUpdate(v: Port, cmd: Cmd)
    ensures var (w, failed) := TryUpdate(v, cmd, false);
            && (failed <==> cmd != CMD_RESTART || v.enabled)
            && if cmd == CMD_RESTART && v.enabled then TriedLater(v, w) else w == v
    ensures !TryUpdate(v, cmd, true).1
  {
  }

  /** The first waiting pin cannot be switched on: it is tried again in five seconds. */
  lemma FailedPowerUp(s: Ports, n: nat)
    requires n < |s| && Awaits(s[n]) && forall j | 0 <= j < n :: !Awaits(s[j])
    ensures TryEnableNext(s, false) == (s[n := s[n].(armed := true, wait := 5)], true)
  {
    assert Waiting(s[n]) && forall j | 0 <= j < n :: !Waiting(s[j]);
  }

  /** A pin cannot be switched off behind its 60 seconds: it is tried again in five. */
  lemma FailedPowerDown(s: Ports, a: nat)
    requires a < |s|
    ensures TryUpTimeout(s, a, false) == s[a := s[a].(armed := true, wait := 5)]
  {
  }

  // ----- the start -----

  lemma {:induction false} LastGpioIs(s: Ports, n: nat)
    requires n < |s| && s[n].isGpio && forall j | n < j < |s| :: !s[j].isGpio
    ensures LastGpio(s) == n
  {
    if n < |s| - 1 {
      LastGpioIs(s[..|s| - 1], n);
    }
  }

  /** All pins are off and marked, no timer runs but that of the last GPIO port, for five
      seconds; other ports are untouched. */
  lemma StartEffect(s: Ports, n: nat)
    requires n < |s| && s[n].isGpio && forall j | n < j < |s| :: !s[j].isGpio
    ensures forall j | 0 <= j < |s| ::
              Start(s)[j] == if !s[j].isGpio then s[j]
                             else s[j].(enabled := false, pwr := false, msgMode := PROBE, probe := PROBE_DOWN,
                                        armed := j == n, wait := if j == n then 5 else s[j].wait)
  {
    hide LastGpio;
    var t := seq(|s|, i requires 0 <= i < |s| => StartOne(s[i]));
    LastGpioIs(t, n);
  }
}
