/** What every run of the probing protocol keeps, and where it ends. */
module GpioProbe {
  import opened GpioModel

  // ----- phases -----

  /** All GPIO ports are in probe mode, and power follows the enabled flag. */
  ghost predicate InProbe(s: Ports) {
    forall i | 0 <= i < |s| && s[i].isGpio :: s[i].msgMode == PROBE && s[i].enabled == s[i].pwr
  }

  /** Port `a` is the only GPIO port in the timeout list. */
  ghost predicate OnlyArmed(s: Ports, a: nat) {
    && a < |s| && s[a].isGpio && s[a].armed
    && forall i | 0 <= i < |s| && s[i].isGpio && i != a :: !s[i].armed
  }

  ghost predicate NoneArmed(s: Ports) {
    forall i | 0 <= i < |s| && s[i].isGpio :: !s[i].armed
  }

  ghost predicate AllDown(s: Ports) {
    forall i | 0 <= i < |s| && s[i].isGpio :: s[i].probe in {PROBE_DOWN, PROBE_DOWN_DONE} && !s[i].enabled
  }

  /** The pins are being switched off, and devices still have to disappear. */
  ghost predicate DownPhase(s: Ports, a: nat) {
    InProbe(s) && OnlyArmed(s, a) && AllDown(s)
  }

  /** Port `i` either waits, switched off, or has been probed. */
  predicate Settled(v: Port) {
    v.isGpio ==> v.probe == PROBE_DONE || (v.probe == PROBE_DOWN_DONE && !v.enabled)
  }

  /** No pin is being probed at the moment. */
  ghost predicate Between(s: Ports) {
    && InProbe(s) && NoneArmed(s)
    && forall i | 0 <= i < |s| :: Settled(s[i])
  }

  /** Pins are probed one at a time; `a` is the one in hand. */
  ghost predicate ActivePhase(s: Ports, a: nat) {
    && InProbe(s) && OnlyArmed(s, a)
    && s[a].probe in {PROBE_UP, PROBE_DOWN_2, PROBE_WRITE_FILE}
    && (s[a].probe == PROBE_UP ==> s[a].enabled)
    && (s[a].probe == PROBE_DOWN_2 ==> !s[a].enabled)
    && (s[a].probe == PROBE_WRITE_FILE ==> forall i | 0 <= i < |s| && s[i].isGpio && i != a :: s[i].probe == PROBE_DONE)
    && forall i | 0 <= i < |s| && i != a :: Settled(s[i])
  }

  predicate Probed(v: Port) { v.probe in {PROBE_DONE, PROBE_WRITE_FILE} }

  /** A port when probing has just ended: powered on, or waiting to be powered on again.  A
      timer runs on a powered port only when the mapping file could not be linked. */
  predicate Restarted(v: Port) {
    v.isGpio ==>
      && Probed(v) && v.enabled
      && if v.pwr then v.msgMode == IDLE && (v.armed ==> v.probe == PROBE_WRITE_FILE) else v.msgMode == RESET && v.armed
  }

  ghost predicate JustEnded(s: Ports) {
    forall i | 0 <= i < |s| :: Restarted(s[i])
  }

  /** A port at any time after probing: if it is enabled, it is powered on, or its timer runs
      until it is. */
  predicate Running(v: Port) {
    v.isGpio ==>
      && Probed(v) && v.msgMode != PROBE
      && (v.msgMode == RESET ==> v.enabled && v.armed)
      && (v.enabled && !v.pwr ==> v.msgMode == RESET)
  }

  ghost predicate Ended(s: Ports) {
    forall i | 0 <= i < |s| :: Running(s[i])
  }

  /** Exactly one GPIO port has the probe timer, and at most one is powered for probing or
      being switched off. */
  ghost predicate Probing(s: Ports) {
    exists a | 0 <= a < |s| :: DownPhase(s, a) || ActivePhase(s, a)
  }

  /** What every reachable state satisfies. */
  ghost predicate Good(s: Ports) { Ended(s) || Probing(s) }

  /** What an event leads to while probing goes on. */
  ghost predicate Proceeds(s: Ports) { JustEnded(s) || Probing(s) }

  lemma ProceedsIsGood(s: Ports)
    requires Proceeds(s)
    ensures Good(s) && (Ended(s) ==> JustEnded(s))
  {
    if !JustEnded(s) {
      var a :| 0 <= a < |s| && (DownPhase(s, a) || ActivePhase(s, a));
      assert !Running(s[a]);
    } else {
      assert forall i | 0 <= i < |s| :: Restarted(s[i]);
    }
  }

  // ----- one step -----

  lemma EnableNextBetween(s: Ports)
    requires Between(s)
    ensures var (r, more) := EnableNext(s);
            if more then exists a | 0 <= a < |s| :: |r| == |s| && Waiting(s[a]) && r == s[a := PowerUp(s[a])] && ActivePhase(r, a)
            else r == s && forall i | 0 <= i < |s| && s[i].isGpio :: s[i].probe == PROBE_DONE
  {
    var i := First(s, v => Waiting(v));
    if i < |s| {
      var r := s[i := PowerUp(s[i])];
      assert ActivePhase(r, i);
    }
  }

  lemma RestartEnds(s: Ports)
    requires InProbe(s) && NoneArmed(s)
    requires forall j | 0 <= j < |s| && s[j].isGpio :: Probed(s[j])
    ensures JustEnded(RestartAll(s))
  {
  }

  /** Writing the configuration when all ports have been probed.  When only `link` fails, the
      ports have been restarted already: a port that was powered is in the timeout list
      again and is inserted twice; one that was off is powered, and probing has ended
      although the file is missing. */
  lemma WriteConfigPhase(s: Ports, i: nat, w: Written)
    requires i < |s| && s[i].isGpio && InProbe(s) && NoneArmed(s)
    requires Probed(s[i]) && forall j | 0 <= j < |s| && s[j].isGpio && j != i :: s[j].probe == PROBE_DONE
    ensures var r := WriteConfig(s, i, w);
            && !r.NullDereference?
            && (r.DoubleInsertion? <==> w == LinkFailed && s[i].enabled)
            && (r.Handled? ==> if w == WriteFailed then ActivePhase(r.s, i) && r.s[i].probe == PROBE_WRITE_FILE
                               else JustEnded(r.s))
  {
    if w != WriteFailed {
      RestartEnds(s);
    }
  }

  /** The configuration is written next, port `i` is powered, and `link` will fail. */
  ghost predicate LastLink(s: Ports, i: nat, w: Written)
    requires i < |s|
  {
    w == LinkFailed && s[i].enabled && forall j | 0 <= j < |s| && j != i :: !Waiting(s[j])
  }

  /** Port `i` is finished: the next pin is powered, or probing ends. */
  lemma AdvancePhase(s: Ports, i: nat, w: Written)
    requires i < |s| && s[i].isGpio && Between(s[i := s[i].(probe := PROBE_DONE)])
    ensures var r := Advance(s, i, w);
            !r.NullDereference? && (r.Handled? ==> Proceeds(r.s)) && (r.DoubleInsertion? <==> LastLink(s, i, w))
  {
    var s1 := s[i := s[i].(probe := PROBE_DONE)];
    EnableNextBetween(s1);
    assert forall j | 0 <= j < |s| && j != i :: s1[j] == s[j];
    if EnableNext(s1).1 {
      var a :| 0 <= a < |s1| && Waiting(s1[a]);
      assert a != i && Waiting(s[a]);
    } else {
      WriteConfigPhase(s1, i, w);
    }
  }

  /** The scan over the ports that should be down by now. */
  lemma {:induction false} DownScanPhase(s: Ports, k: nat)
    requires k <= |s| && InProbe(s) && NoneArmed(s) && AllDown(s)
    requires forall j | 0 <= j < k && s[j].isGpio :: s[j].probe == PROBE_DOWN_DONE
    requires exists j :: 0 <= j < |s| && s[j].isGpio
    ensures Proceeds(DownScan(s, k))
    decreases |s| - k
  {
    if k == |s| {
      assert Between(s);
      EnableNextBetween(s);
      var j :| 0 <= j < |s| && s[j].isGpio;
      assert s[j].probe == PROBE_DOWN_DONE;
    } else if !s[k].isGpio {
      DownScanPhase(s, k + 1);
    } else if HasDevice(s[k]) {
      assert DownPhase(DownScan(s, k), k);
    } else {
      var t := s[k := s[k].(probe := PROBE_DOWN_DONE)];
      assert t[k].isGpio;
      DownScanPhase(t, k + 1);
    }
  }

  lemma TimeoutPhase(s: Ports, a: nat, w: Written)
    requires a < |s| && (DownPhase(s, a) || ActivePhase(s, a))
    ensures var r := OnTimeout(s, a, w);
            && !r.NullDereference? && (r.Handled? ==> Proceeds(r.s))
            && (r.DoubleInsertion? <==> s[a].probe == PROBE_WRITE_FILE && LastLink(s, a, w))
  {
    hide Advance, WriteConfig;
    var t := s[a := s[a].(armed := false)];
    if DownPhase(s, a) {
      var d := t[a := t[a].(probe := PROBE_DOWN_DONE)];
      assert d[a].isGpio;
      DownScanPhase(d, 0);
    } else if s[a].probe == PROBE_UP {
      assert ActivePhase(UpTimeout(t, a), a);
    } else if s[a].probe == PROBE_DOWN_2 {
      AdvancePhase(t, a, w);
    } else {
      WriteConfigPhase(t, a, w);
    }
  }

  lemma UpIsActive(s: Ports, a: nat, u: nat)
    requires a < |s| && (DownPhase(s, a) || ActivePhase(s, a)) && u < |s| && IsUp(s[u])
    ensures ActivePhase(s, a) && u == a
  {
  }

  /** The connect event of a device keeps the phase, provided a pin is powered. */
  lemma HandleConnectPhase(s: Ports, a: nat, m: nat, w: Written)
    requires a < |s| && ActivePhase(s, a) && s[a].probe == PROBE_UP && m < |s| && s[m].isGpio
    ensures var r := HandleConnect(s, m, w);
            && !r.NullDereference? && (r.Handled? ==> Proceeds(r.s))
            && (r.DoubleInsertion? <==> LastLink(s, a, w))
  {
    hide Advance, Proceeds;
    if m == a {
      var t := s[m := s[m].(armed := false)];
      AdvancePhase(t, m, w);
      SameLastLink(s, t, m, w);
    } else {
      var u := First(s, v => IsUp(v));
      assert IsUp(s[a]);
      assert u == a;
      var s1 := Swap(s, m, u);
      var t := s1[u := s1[u].(armed := false)];
      AdvancePhase(t, u, w);
      SameLastLink(s, t, u, w);
    }
  }

  lemma SameLastLink(s: Ports, t: Ports, i: nat, w: Written)
    requires i < |s| == |t| && t[i].enabled == s[i].enabled
    requires forall j | 0 <= j < |s| :: t[j].isGpio == s[j].isGpio && t[j].probe == s[j].probe
    ensures LastLink(t, i, w) == LastLink(s, i, w)
  {
    assert forall j | 0 <= j < |s| :: Waiting(t[j]) == Waiting(s[j]);
  }

  lemma DeviceKeepsPhase(s: Ports, a: nat, m: nat, v: Port)
    requires a < |s| && m < |s| && (DownPhase(s, a) || ActivePhase(s, a))
    requires v == s[m].(vid := v.vid, pid := v.pid, connected := v.connected, dev := v.dev)
    ensures DownPhase(s, a) ==> DownPhase(s[m := v], a)
    ensures ActivePhase(s, a) ==> ActivePhase(s[m := v], a) && s[m := v][a].probe == s[a].probe
  {
  }

  // ----- when a connect event is safe -----

  /** The event reaches `gpio_handler_handle_probe_connect`. */
  predicate Reaches(s: Ports, p: Path, id: nat) {
    var m := FindPath(s, p);
    m < |s| && s[m].isGpio && s[m].msgMode == PROBE && s[m].dev != Device(id)
  }

  /** The source dereferences a null pointer on a connect event if and only if no pin is
      powered for probing and the port that owns the path is not the one just being
      switched off.  Its guard against late events tests the port that owns the path
      instead of every port. */
  lemma ConnectSafeExactly(s: Ports, p: Path, id: nat, vid: nat, pid: nat, bad: bool, w: Written)
    ensures OnConnect(s, p, id, vid, pid, bad, w).NullDereference? <==>
            && Reaches(s, p, id)
            && s[FindPath(s, p)].probe != PROBE_DOWN_2
            && (forall i | 0 <= i < |s| :: !IsUp(s[i]))
  {
    var m := FindPath(s, p);
    if Reaches(s, p, id) {
      var t := s[m := WithDevice(s[m], id, vid, pid)];
      assert forall i | 0 <= i < |s| :: IsUp(t[i]) <==> IsUp(s[i]);
      if t[m].probe != PROBE_DOWN_2 && t[m].probe != PROBE_UP {
        var u := First(t, v => IsUp(v));
        if u < |t| {
          assert IsUp(s[u]);
        } else {
          assert forall i | 0 <= i < |s| :: !IsUp(t[i]);
        }
      } else if t[m].probe == PROBE_UP {
        assert IsUp(s[m]);
      }
    }
  }

  // ----- runs -----

  /** Everything that touches the timeout list or the power of a GPIO port: the probe timer
      fires, a device appears or disappears, the timer of another port fires, a ping ends, a
      client asks for a port to be switched, and the restart of all idle ports.  `w` tells
      how writing the configuration goes if the event leads to it, `bad` that the device is
      one of those that are restarted at once. */
  datatype Event =
    | Timeout(w: Written)
    | Connect(path: Path, id: nat, vid: nat, pid: nat, bad: bool, w: Written)
    | Remove(path: Path)
    | Expire(port: nat, ok: bool)
    | Pinged(port: nat, ping: Ping)
    | Request(path: Path, cmd: Cmd, written: bool)
    | ResetAll(forced: bool, written: bool)

  predicate ProbeTimer(v: Port) { v.isGpio && v.armed && v.msgMode == PROBE }

  function Step(s: Ports, e: Event): (r: Outcome)
    ensures r.Handled? ==> |r.s| == |s|
  {
    match e
    case Timeout(w) =>
      var a := First(s, v => ProbeTimer(v));
      if a < |s| then OnTimeout(s, a, w) else Handled(s)
    case Connect(p, id, vid, pid, bad, w) => OnConnect(s, p, id, vid, pid, bad, w)
    case Remove(p) => Handled(OnRemove(s, p))
    case Expire(i, ok) => Handled(OnExpire(s, i, ok))
    case Pinged(i, ping) => OnPinged(s, i, ping)
    case Request(p, cmd, written) => Handled(OnRequest(s, p, cmd, written))
    case ResetAll(forced, written) => Handled(OnResetAll(s, forced, written))
  }

  /** A device only appears on a GPIO path while some pin is powered for probing. */
  predicate Timely(s: Ports, e: Event) {
    e.Connect? && Reaches(s, e.path, e.id) ==> exists i | 0 <= i < |s| :: IsUp(s[i])
  }

  lemma TimerIsTheOne(s: Ports, a: nat)
    requires a < |s| && (DownPhase(s, a) || ActivePhase(s, a))
    ensures First(s, v => ProbeTimer(v)) == a
  {
    assert ProbeTimer(s[a]);
  }

  /** The event completes the last pin, that pin is powered, and `link` will fail. */
  predicate LinkDoubles(s: Ports, e: Event) {
    && (e.Timeout? || e.Connect?) && e.w == LinkFailed
    && (forall j | 0 <= j < |s| :: !Waiting(s[j]))
    && (exists a | 0 <= a < |s| :: s[a].enabled &&
          if e.Timeout? then ProbeTimer(s[a]) && s[a].probe == PROBE_WRITE_FILE
          else IsUp(s[a]) && Reaches(s, e.path, e.id))
  }

  /** Outside probe mode: a device that is new to the port appears on a path of an enabled
      port that is not being reset and whose timer runs. */
  predicate AddedDoubles(s: Ports, p: Path, id: nat) {
    var m := FindPath(s, p);
    && m < |s| && s[m].isGpio && s[m].msgMode != PROBE && s[m].msgMode != RESET
    && s[m].enabled && s[m].armed && s[m].dev != Device(id)
  }

  /** Outside probe mode: a ping of an enabled port ends while its timer runs, or leads to a
      restart that cannot be written. */
  predicate PingDoubles(s: Ports, i: nat, ping: Ping) {
    && i < |s| && s[i].isGpio && s[i].enabled && s[i].msgMode == PING
    && if ping.TooMany? then !ping.written else s[i].armed
  }

  /** The events that insert a port twice into the timeout list. */
  predicate DoublesUp(s: Ports, e: Event) {
    || LinkDoubles(s, e)
    || (e.Connect? && AddedDoubles(s, e.path, e.id))
    || (e.Pinged? && PingDoubles(s, e.port, e.ping))
  }

  /** While probing goes on, only the mapping file matters. */
  lemma ProbingDoubles(s: Ports, e: Event)
    requires InProbe(s)
    ensures DoublesUp(s, e) <==> LinkDoubles(s, e)
  {
    hide LinkDoubles, FindPath;
  }

  lemma LinkDoublesIs(s: Ports, a: nat, e: Event)
    requires a < |s| && ActivePhase(s, a)
    ensures e.Timeout? ==> (LinkDoubles(s, e) <==> s[a].probe == PROBE_WRITE_FILE && LastLink(s, a, e.w))
    ensures e.Connect? ==>
              (LinkDoubles(s, e) <==> s[a].probe == PROBE_UP && Reaches(s, e.path, e.id) && LastLink(s, a, e.w))
  {
    hide Reaches;
    assert !Waiting(s[a]) && ProbeTimer(s[a]);
    assert s[a].probe == PROBE_UP ==> IsUp(s[a]);
    assert forall b | 0 <= b < |s| && b != a :: !IsUp(s[b]) && !ProbeTimer(s[b]);
  }

  lemma DownNeverDoubles(s: Ports, a: nat, e: Event)
    requires a < |s| && DownPhase(s, a)
    ensures !LinkDoubles(s, e)
  {
    hide Reaches;
  }

  lemma EndedNeverLinks(s: Ports, e: Event)
    requires Ended(s)
    ensures !LinkDoubles(s, e)
  {
    hide Reaches;
    assert forall b | 0 <= b < |s| :: Running(s[b]);
  }

  lemma TimeoutGood(s: Ports, a: nat, w: Written)
    requires a < |s| && (DownPhase(s, a) || ActivePhase(s, a))
    ensures var r := Step(s, Timeout(w));
            && !r.NullDereference? && (r.Handled? ==> Proceeds(r.s))
            && (r.DoubleInsertion? <==> LinkDoubles(s, Timeout(w)))
  {
    hide OnTimeout, Proceeds, LinkDoubles, LastLink;
    TimerIsTheOne(s, a);
    TimeoutPhase(s, a, w);
    if DownPhase(s, a) {
      DownNeverDoubles(s, a, Timeout(w));
    } else {
      LinkDoublesIs(s, a, Timeout(w));
    }
  }

  /** While probing goes on, a device that is not accepted changes nothing. */
  lemma UnreachedConnect(s: Ports, e: Event)
    requires InProbe(s) && e.Connect? && !Reaches(s, e.path, e.id)
    ensures Step(s, e) == Handled(s)
  {
    hide FindPath, OnAdded, HandleConnect;
  }

  lemma ConnectGood(s: Ports, a: nat, e: Event)
    requires a < |s| && (DownPhase(s, a) || ActivePhase(s, a)) && e.Connect? && Timely(s, e)
    ensures var r := Step(s, e);
            && !r.NullDereference? && (r.Handled? ==> Proceeds(r.s))
            && (r.DoubleInsertion? <==> LinkDoubles(s, e))
  {
    hide HandleConnect, LinkDoubles, LastLink, FindPath, OnAdded;
    if Reaches(s, e.path, e.id) {
      var m := FindPath(s, e.path);
      var u :| 0 <= u < |s| && IsUp(s[u]);
      UpIsActive(s, a, u);
      var v := WithDevice(s[m], e.id, e.vid, e.pid);
      DeviceKeepsPhase(s, a, m, v);
      HandleConnectPhase(s[m := v], a, m, e.w);
      SameLastLink(s, s[m := v], a, e.w);
      LinkDoublesIs(s, a, e);
    } else {
      UnreachedConnect(s, e);
      if DownPhase(s, a) {
        DownNeverDoubles(s, a, e);
      } else {
        LinkDoublesIs(s, a, e);
      }
    }
  }

  lemma RemoveGood(s: Ports, a: nat, e: Event)
    requires a < |s| && (DownPhase(s, a) || ActivePhase(s, a)) && e.Remove?
    ensures Step(s, e).Handled? && Proceeds(Step(s, e).s)
  {
    hide FindPath;
    var m := FindPath(s, e.path);
    if m < |s| && s[m].isGpio {
      assert s[m].msgMode == PROBE;
      DeviceKeepsPhase(s, a, m, s[m].(vid := 0, pid := 0, connected := false, dev := NoDevice));
    }
  }

  lemma PhaseInProbe(s: Ports, a: nat)
    requires a < |s| && (DownPhase(s, a) || ActivePhase(s, a))
    ensures InProbe(s)
  {
  }

  /** The events of running ports do not touch ports in probe mode. */
  lemma InProbeQuiet(s: Ports, e: Event)
    requires InProbe(s) && (e.Expire? || e.Pinged? || e.Request? || e.ResetAll?)
    ensures Step(s, e) == Handled(s)
  {
    hide FindPath;
    if e.ResetAll? {
      assert OnResetAll(s, e.forced, e.written) == s;
    }
  }

  lemma ProbingStep(s: Ports, e: Event)
    requires Probing(s) && Timely(s, e)
    ensures var r := Step(s, e);
            && !r.NullDereference? && (r.Handled? ==> Proceeds(r.s))
            && (r.DoubleInsertion? <==> DoublesUp(s, e))
  {
    hide Step, DoublesUp, Timely, LinkDoubles;
    var a :| 0 <= a < |s| && (DownPhase(s, a) || ActivePhase(s, a));
    ProbingDoubles(s, e);
    match e
    case Timeout(w) => TimeoutGood(s, a, w);
    case Connect(_, _, _, _, _, _) => ConnectGood(s, a, e);
    case Remove(_) => RemoveGood(s, a, e); OnlyTwoLink(s, e);
    case _ => InProbeQuiet(s, e); OnlyTwoLink(s, e);
  }

  lemma OnlyTwoLink(s: Ports, e: Event)
    requires !e.Timeout? && !e.Connect?
    ensures !LinkDoubles(s, e)
  {
  }

  /** How one event may change a port after probing. */
  predicate RunsOn(v: Port, w: Port) {
    w.isGpio == v.isGpio && w.probe == v.probe && w.slots == v.slots && (Running(v) ==> Running(w))
  }

  ghost predicate AllRunOn(s: Ports, r: Ports) { |r| == |s| && forall i | 0 <= i < |s| :: RunsOn(s[i], r[i]) }

  lemma AddedRunsOn(s: Ports, m: nat, id: nat, vid: nat, pid: nat, bad: bool)
    requires m < |s| && s[m].msgMode != PROBE
    ensures var r := OnAdded(s, m, id, vid, pid, bad);
            && !r.NullDereference? && (r.Handled? ==> AllRunOn(s, r.s) && (s[m].enabled ==> r.s[m].enabled))
  {
  }

  lemma PingedRunsOn(s: Ports, i: nat, ping: Ping)
    ensures var r := OnPinged(s, i, ping);
            && !r.NullDereference? && (r.Handled? ==> AllRunOn(s, r.s)) && (r.DoubleInsertion? <==> PingDoubles(s, i, ping))
  {
  }

  lemma ExpiredRunsOn(v: Port, ok: bool)
    requires v.isGpio && v.msgMode != PROBE
    ensures RunsOn(v, Expired(v, ok))
  {
  }

  lemma OthersRunOn(s: Ports, e: Event)
    requires Ended(s) && (e.Expire? || e.Request? || e.ResetAll? || e.Remove?)
    ensures Step(s, e).Handled? && AllRunOn(s, Step(s, e).s)
  {
    hide FindPath, Expired;
    if e.Expire? {
      if OnExpire(s, e.port, e.ok) != s {
        ExpiredRunsOn(s[e.port], e.ok);
      }
    }
  }

  /** After probing, an event leaves wiring and probe states alone, or inserts a port twice. */
  lemma EndedStep(s: Ports, e: Event)
    requires Ended(s)
    ensures var r := Step(s, e);
            && !r.NullDereference? && (r.Handled? ==> AllRunOn(s, r.s) && Ended(r.s))
            && (r.DoubleInsertion? <==> DoublesUp(s, e))
  {
    hide OnAdded, OnPinged, FindPath, LinkDoubles;
    EndedNeverLinks(s, e);
    match e
    case Timeout(w) => assert forall i | 0 <= i < |s| :: Running(s[i]) && !ProbeTimer(s[i]);
    case Connect(p, id, vid, pid, bad, w) =>
      var m := FindPath(s, p);
      if m < |s| && s[m].isGpio {
        assert Running(s[m]);
        AddedRunsOn(s, m, id, vid, pid, bad);
        AddedDoublesIs(s, m, id, vid, pid, bad);
      }
    case Pinged(i, ping) => PingedRunsOn(s, i, ping);
    case _ => OthersRunOn(s, e);
  }

  lemma AddedDoublesIs(s: Ports, m: nat, id: nat, vid: nat, pid: nat, bad: bool)
    requires m < |s|
    ensures OnAdded(s, m, id, vid, pid, bad).DoubleInsertion? <==>
            s[m].msgMode != RESET && s[m].enabled && s[m].armed && s[m].dev != Device(id)
  {
  }

  /** Every timely event keeps the protocol in a good state, unless it inserts a port twice
      into the timeout list; and it does that exactly as `DoublesUp` says. */
  lemma StepGood(s: Ports, e: Event)
    requires Good(s) && Timely(s, e)
    ensures var r := Step(s, e);
            && !r.NullDereference? && (r.Handled? ==> Good(r.s))
            && (r.DoubleInsertion? <==> DoublesUp(s, e))
  {
    hide Step, DoublesUp, Timely, Ended, Probing, Proceeds;
    if Ended(s) {
      EndedStep(s, e);
    } else {
      ProbingStep(s, e);
      if Step(s, e).Handled? {
        ProceedsIsGood(Step(s, e).s);
      }
    }
  }

  /** Probing starts in the down phase. */
  lemma StartGood(s: Ports)
    requires exists i :: 0 <= i < |s| && s[i].isGpio
    ensures exists a | 0 <= a < |s| :: DownPhase(Start(s), a)
  {
    var t := seq(|s|, i requires 0 <= i < |s| => StartOne(s[i]));
    var i :| 0 <= i < |s| && s[i].isGpio;
    assert t[i].isGpio;
    var a := LastGpio(t);
    assert DownPhase(Start(s), a);
  }

  /** A whole run. */
  function RunAll(s: Ports, es: seq<Event>): (r: Outcome)
    ensures r.Handled? ==> |r.s| == |s|
    decreases |es|
  {
    if es == [] then Handled(s)
    else
      var r := Step(s, es[0]);
      if r.Handled? then RunAll(r.s, es[1..]) else r
  }

  // ----- each pin is powered exactly once -----

  predicate Pending(v: Port) { v.probe in {PROBE_DOWN, PROBE_DOWN_DONE} }

  /** How one step may change a port: a pending pin stays pending or is powered, a probed
      one stays probed, and only pending pins are powered. */
  predicate Moves(v: Port, w: Port) {
    && w.isGpio == v.isGpio
    && (v.isGpio ==>
          && (Pending(v) ==> Pending(w) || IsUp(w))
          && (!Pending(v) ==> !Pending(w))
          && (IsUp(w) ==> Pending(v) || IsUp(v))
          && (Probed(v) ==> Probed(w)))
  }

  ghost predicate AllMove(s: Ports, r: Ports) {
    |r| == |s| && forall i | 0 <= i < |s| :: Moves(s[i], r[i])
  }

  ghost predicate SameSlots(s: Ports, r: Ports) {
    |r| == |s| && forall i | 0 <= i < |s| :: r[i].slots == s[i].slots
  }

  lemma EnableNextMoves(s: Ports)
    ensures AllMove(s, EnableNext(s).0) && SameSlots(s, EnableNext(s).0)
  {
  }

  lemma RestartOneMoves(v: Port)
    requires v.isGpio ==> Probed(v)
    ensures Moves(v, RestartOne(v)) && RestartOne(v).slots == v.slots
  {
  }

  lemma WriteConfigMoves(s: Ports, i: nat, w: Written)
    requires i < |s| && s[i].isGpio && Probed(s[i]) && forall j | 0 <= j < |s| && s[j].isGpio :: Probed(s[j])
    ensures var r := WriteConfig(s, i, w);
            r.Handled? ==> AllMove(s, r.s) && SameSlots(s, r.s)
  {
    hide Moves, RestartOne;
    var r := WriteConfig(s, i, w);
    if r.Handled? {
      forall j | 0 <= j < |s| ensures Moves(s[j], r.s[j]) && r.s[j].slots == s[j].slots {
        RestartOneMoves(s[j]);
        var v := if w == WriteFailed then s[j] else RestartOne(s[j]);
        MovesToProbed(s[j], s[j]);
        if s[j].isGpio {
          ProbedStays(s[j], v);
          MovesToProbed(s[j], r.s[j]);
        }
      }
    }
  }

  lemma MovesToProbed(v: Port, w: Port)
    requires w == v || (w.isGpio == v.isGpio && Probed(w) && !Pending(v))
    ensures Moves(v, w)
  {
  }

  lemma AdvanceMoves(s: Ports, i: nat, w: Written)
    requires i < |s| && s[i].isGpio && Between(s[i := s[i].(probe := PROBE_DONE)]) && !Pending(s[i])
    ensures var r := Advance(s, i, w);
            r.Handled? ==> AllMove(s, r.s) && SameSlots(s, r.s)
  {
    hide EnableNext, WriteConfig, Moves;
    var s1 := s[i := s[i].(probe := PROBE_DONE)];
    EnableNextMoves(s1);
    EnableNextBetween(s1);
    if !EnableNext(s1).1 {
      WriteConfigMoves(s1, i, w);
    }
    if Advance(s, i, w).Handled? {
      var r := Advance(s, i, w).s;
      forall j | 0 <= j < |s| ensures Moves(s[j], r[j]) {
        assert Moves(s1[j], r[j]);
        if j == i {
          ProbedStays(s1[i], r[i]);
          MovesToProbed(s[i], r[i]);
        }
      }
    }
  }

  lemma ProbedStays(v: Port, w: Port)
    requires Moves(v, w) && v.isGpio && Probed(v)
    ensures Probed(w) && w.isGpio
  {
  }

  lemma {:induction false} DownScanMoves(s: Ports, k: nat)
    requires k <= |s| && AllDown(s)
    ensures AllMove(s, DownScan(s, k)) && SameSlots(s, DownScan(s, k))
    decreases |s| - k
  {
    if k < |s| {
      if !s[k].isGpio {
        DownScanMoves(s, k + 1);
      } else if !HasDevice(s[k]) {
        DownScanMoves(s[k := s[k].(probe := PROBE_DOWN_DONE)], k + 1);
      }
    }
  }

  /** A change that leaves the probe state alone does not count as a move. */
  lemma MovesAfterSame(s: Ports, t: Ports, r: Ports)
    requires |t| == |s| && (forall i | 0 <= i < |s| :: t[i].isGpio == s[i].isGpio && t[i].probe == s[i].probe)
    requires AllMove(t, r)
    ensures AllMove(s, r)
  {
    forall i | 0 <= i < |s| ensures Moves(s[i], r[i]) {
      assert Moves(t[i], r[i]);
    }
  }

  lemma UpTimeoutMoves(s: Ports, a: nat)
    requires a < |s| && s[a].probe == PROBE_UP
    ensures AllMove(s, UpTimeout(s[a := s[a].(armed := false)], a))
    ensures SameSlots(s, UpTimeout(s[a := s[a].(armed := false)], a))
  {
  }

  lemma TimeoutMoves(s: Ports, a: nat, w: Written)
    requires a < |s| && (DownPhase(s, a) || ActivePhase(s, a))
    ensures var r := OnTimeout(s, a, w);
            r.Handled? ==> AllMove(s, r.s) && SameSlots(s, r.s)
  {
    hide Advance, WriteConfig, DownScan, Moves, UpTimeout;
    var t := s[a := s[a].(armed := false)];
    var r := OnTimeout(s, a, w);
    if DownPhase(s, a) {
      var d := t[a := t[a].(probe := PROBE_DOWN_DONE)];
      DownScanMoves(d, 0);
      forall i | 0 <= i < |s| ensures Moves(s[i], r.s[i]) {
        assert Moves(d[i], r.s[i]);
        PendingMoves(s[i], d[i], r.s[i]);
      }
    } else if s[a].probe == PROBE_UP {
      UpTimeoutMoves(s, a);
    } else if s[a].probe == PROBE_DOWN_2 {
      AdvanceMoves(t, a, w);
      if r.Handled? {
        MovesAfterSame(s, t, r.s);
      }
    } else {
      WriteConfigMoves(t, a, w);
      if r.Handled? {
        MovesAfterSame(s, t, r.s);
      }
    }
  }

  lemma PendingMoves(u: Port, v: Port, w: Port)
    requires Moves(v, w) && u.isGpio == v.isGpio
    requires v.probe == u.probe || (Pending(u) && Pending(v))
    ensures Moves(u, w)
  {
  }

  lemma ConnectMoves(s: Ports, a: nat, m: nat, w: Written)
    requires a < |s| && ActivePhase(s, a) && s[a].probe == PROBE_UP && m < |s| && s[m].isGpio
    ensures HandleConnect(s, m, w).Handled? ==> AllMove(s, HandleConnect(s, m, w).s)
  {
    hide Advance, Moves;
    var r := HandleConnect(s, m, w);
    FirstUp(s, a);
    var s1 := if m == a then s else Swap(s, m, a);
    var t := s1[a := s1[a].(armed := false)];
    AdvanceMoves(t, a, w);
    if r.Handled? {
      MovesAfterSame(s, t, r.s);
    }
  }

  lemma RunOnMoves(s: Ports, r: Ports)
    requires Ended(s) && AllRunOn(s, r)
    ensures AllMove(s, r) && SameSlots(s, r)
  {
    forall i | 0 <= i < |s| ensures Moves(s[i], r[i]) && r[i].slots == s[i].slots {
      assert Running(s[i]) && RunsOn(s[i], r[i]);
    }
  }

  lemma ReachedMoves(s: Ports, a: nat, e: Event)
    requires a < |s| && (DownPhase(s, a) || ActivePhase(s, a)) && Timely(s, e)
    requires e.Connect? && Reaches(s, e.path, e.id)
    ensures Step(s, e).Handled? ==> AllMove(s, Step(s, e).s)
  {
    hide HandleConnect, FindPath, First, OnAdded, Moves;
    var m := FindPath(s, e.path);
    var u :| 0 <= u < |s| && IsUp(s[u]);
    UpIsActive(s, a, u);
    var v := WithDevice(s[m], e.id, e.vid, e.pid);
    DeviceKeepsPhase(s, a, m, v);
    ConnectMoves(s[m := v], a, m, e.w);
    if Step(s, e).Handled? {
      MovesAfterSame(s, s[m := v], Step(s, e).s);
    }
  }

  lemma RemoveMoves(s: Ports, p: Path)
    ensures AllMove(s, OnRemove(s, p)) && SameSlots(s, OnRemove(s, p))
  {
    hide FindPath;
  }

  lemma StaysPut(s: Ports)
    ensures AllMove(s, s) && SameSlots(s, s)
  {
  }

  lemma StepMoves(s: Ports, e: Event)
    requires Good(s) && Timely(s, e)
    ensures Step(s, e).Handled? ==> AllMove(s, Step(s, e).s)
  {
    hide AllMove, OnTimeout, OnConnect, Ended, OnRemove, First, OnPinged, OnExpire, OnRequest, OnResetAll, DoublesUp, Reaches;
    if Ended(s) {
      EndedStep(s, e);
      if Step(s, e).Handled? {
        RunOnMoves(s, Step(s, e).s);
      }
    } else {
      var a :| 0 <= a < |s| && (DownPhase(s, a) || ActivePhase(s, a));
      if e.Timeout? {
        TimerIsTheOne(s, a);
        TimeoutMoves(s, a, e.w);
      } else if e.Connect? {
        if Reaches(s, e.path, e.id) {
          ReachedMoves(s, a, e);
        } else {
          UnreachedConnect(s, e);
          StaysPut(s);
        }
      } else if e.Remove? {
        RemoveMoves(s, e.path);
      } else {
        InProbeQuiet(s, e);
        StaysPut(s);
      }
    }
  }

  /** Every event of the run happens in time. */
  ghost predicate AllTimely(s: Ports, es: seq<Event>)
    decreases |es|
  {
    es != [] ==> Timely(s, es[0]) && (Step(s, es[0]).Handled? ==> AllTimely(Step(s, es[0]).s, es[1..]))
  }

  /** No event of the run inserts a port twice into the timeout list. */
  ghost predicate NeverDoubles(s: Ports, es: seq<Event>)
    decreases |es|
  {
    es != [] ==> !DoublesUp(s, es[0]) && (Step(s, es[0]).Handled? ==> NeverDoubles(Step(s, es[0]).s, es[1..]))
  }

  /** How often pin `i` is powered for probing during a run. */
  ghost function PowerUps(s: Ports, es: seq<Event>, i: nat): nat
    requires i < |s|
    decreases |es|
  {
    if es == [] || !Step(s, es[0]).Handled? then 0
    else
      var t := Step(s, es[0]).s;
      (if !IsUp(s[i]) && IsUp(t[i]) then 1 else 0) + PowerUps(t, es[1..], i)
  }

  /** Runs follow no null pointer, and stay good up to a double insertion, which a run meets
      exactly at an event as in `DoublesUp`.  A pin is powered at most once, and exactly once
      if the run takes it from pending to probed. */
  lemma {:induction false} RunGood(s: Ports, es: seq<Event>, i: nat)
    requires Good(s) && AllTimely(s, es) && i < |s| && s[i].isGpio
    ensures var r := RunAll(s, es);
            && !r.NullDereference? && (r.Handled? <==> NeverDoubles(s, es))
            && PowerUps(s, es, i) <= (if Pending(s[i]) then 1 else 0)
            && (r.Handled? ==>
                  && Good(r.s) && r.s[i].isGpio
                  && (Pending(r.s[i]) ==> Pending(s[i]))
                  && PowerUps(s, es, i) == (if Pending(s[i]) && !Pending(r.s[i]) then 1 else 0))
    decreases |es|
  {
    hide Step, Good, DoublesUp;
    if es != [] {
      StepGood(s, es[0]);
      StepMoves(s, es[0]);
      if Step(s, es[0]).Handled? {
        var t := Step(s, es[0]).s;
        assert Moves(s[i], t[i]);
        RunGood(t, es[1..], i);
      }
    }
  }

  /** A client switches a port off. */
  predicate Disables(e: Event) { e.Request? && e.cmd == CMD_DISABLE }

  ghost predicate AllOn(s: Ports) { forall i | 0 <= i < |s| && s[i].isGpio :: s[i].enabled }

  lemma EndedStaysOn(s: Ports, e: Event)
    requires Ended(s) && AllOn(s) && !Disables(e) && Step(s, e).Handled?
    ensures AllOn(Step(s, e).s)
  {
    hide FindPath, Running;
    assert forall i | 0 <= i < |s| :: Running(s[i]);
    if e.Timeout? {
      EndedStep(s, e);
      assert forall i | 0 <= i < |s| :: !ProbeTimer(s[i]) by {
        EndedHasNoProbeTimer(s);
      }
    }
    if e.Connect? {
      EndedReachesNot(s, e);
    }
  }

  lemma EndedHasNoProbeTimer(s: Ports)
    requires Ended(s)
    ensures forall i | 0 <= i < |s| :: !ProbeTimer(s[i])
  {
    assert forall i | 0 <= i < |s| :: Running(s[i]);
  }

  lemma EndedReachesNot(s: Ports, e: Event)
    requires Ended(s) && e.Connect?
    ensures !Reaches(s, e.path, e.id)
  {
  }

  /** When probing has ended, all ports are enabled unless a client has switched one off. */
  lemma {:induction false} RunOn(s: Ports, es: seq<Event>)
    requires Good(s) && (Ended(s) ==> AllOn(s)) && AllTimely(s, es) && forall e | e in es :: !Disables(e)
    ensures var r := RunAll(s, es); r.Handled? && Ended(r.s) ==> AllOn(r.s)
    decreases |es|
  {
    hide Step, Ended, Probing, DoublesUp, AllOn, Disables, JustEnded;
    if es != [] {
      StepGood(s, es[0]);
      if Step(s, es[0]).Handled? {
        var t := Step(s, es[0]).s;
        if Ended(s) {
          EndedStaysOn(s, es[0]);
        } else {
          ProbingStep(s, es[0]);
          ProceedsIsGood(t);
          if Ended(t) {
            JustEndedIsOn(t);
          }
        }
        RunOn(t, es[1..]);
      }
    }
  }

  lemma JustEndedIsOn(s: Ports)
    requires JustEnded(s)
    ensures AllOn(s) && Ended(s)
  {
    assert forall i | 0 <= i < |s| :: Restarted(s[i]);
  }

  /** From the start to the end of probing, whatever devices and clients do, whichever pins
      time out and however the writing of the configuration goes, every GPIO pin is powered
      for probing exactly once.  Afterwards a port that is enabled is powered on or about to
      be, and every port is enabled that no client switches off. */
  lemma PoweredExactlyOnce(s: Ports, es: seq<Event>, i: nat)
    requires i < |s| && s[i].isGpio && AllTimely(Start(s), es)
    ensures var r := RunAll(Start(s), es);
            && !r.NullDereference? && (r.Handled? <==> NeverDoubles(Start(s), es))
            && PowerUps(Start(s), es, i) <= 1
            && (r.Handled? ==> Good(r.s))
            && (r.Handled? && Ended(r.s) ==>
                  && PowerUps(Start(s), es, i) == 1 && Running(r.s[i])
                  && ((forall e | e in es :: !Disables(e)) ==> r.s[i].enabled))
  {
    hide Ended, RunAll, Start, DownPhase, AllTimely, NeverDoubles, PowerUps;
    StartGood(s);
    var a :| 0 <= a < |Start(s)| && DownPhase(Start(s), a);
    StartIsPending(s, a, i);
    RunGood(Start(s), es, i);
    var r := RunAll(Start(s), es);
    if r.Handled? && Ended(r.s) {
      RunningIs(r.s, i);
      if forall e | e in es :: !Disables(e) {
        RunOn(Start(s), es);
      }
    }
  }

  lemma StartIsPending(s: Ports, a: nat, i: nat)
    requires a < |Start(s)| && DownPhase(Start(s), a) && i < |s| && s[i].isGpio
    ensures Good(Start(s)) && !Ended(Start(s)) && Start(s)[i].isGpio && Pending(Start(s)[i])
  {
    assert !Running(Start(s)[a]);
  }

  lemma RunningIs(s: Ports, i: nat)
    requires Ended(s) && i < |s|
    ensures Running(s[i]) && (s[i].isGpio ==> !Pending(s[i]))
  {
  }

  // ----- probing comes to an end -----

  function CountWaiting(s: Ports): nat {
    if s == [] then 0 else CountWaiting(s[..|s| - 1]) + if Waiting(s[|s| - 1]) then 1 else 0
  }

  lemma {:induction false} CountUpdate(s: Ports, i: nat, v: Port)
    requires i < |s|
    ensures CountWaiting(s[i := v]) == CountWaiting(s) - (if Waiting(s[i]) then 1 else 0) + (if Waiting(v) then 1 else 0)
    decreases |s|
  {
    var n := |s| - 1;
    var t := s[i := v];
    if i == n {
      assert t[..n] == s[..n];
    } else {
      assert t[..n] == s[..n][i := v];
      CountUpdate(s[..n], i, v);
    }
  }

  /** How far the pin in hand has come. */
  function Stage(v: Port): nat {
    if v.probe == PROBE_UP then 2 else if v.probe == PROBE_DOWN_2 then 1 else 0
  }

  /** Fewer pins wait, or as many wait and the pin in hand has come further. */
  predicate Less(n: nat, k: nat, n': nat, k': nat) { n < n' || (n == n' && k < k') }

  /** Probing is over, or one pin fewer waits. */
  ghost predicate Nearer(s: Ports, r: Ports) {
    JustEnded(r) || exists b | 0 <= b < |r| :: ActivePhase(r, b) && CountWaiting(r) + 1 == CountWaiting(s)
  }

  lemma AdvanceDescends(s: Ports, i: nat, w: Written)
    requires i < |s| && s[i].isGpio && Between(s[i := s[i].(probe := PROBE_DONE)]) && !Waiting(s[i])
    requires w != WriteFailed
    ensures Advance(s, i, w).Handled? ==> Nearer(s, Advance(s, i, w).s)
  {
    var s1 := s[i := s[i].(probe := PROBE_DONE)];
    CountUpdate(s, i, s1[i]);
    EnableNextBetween(s1);
    var j := First(s1, v => Waiting(v));
    if j < |s1| {
      CountUpdate(s1, j, PowerUp(s1[j]));
    } else {
      WriteConfigPhase(s1, i, w);
    }
  }

  /** After a swap the pin that was powered is done. */
  lemma SwapDescends(s: Ports, a: nat, m: nat)
    requires a < |s| && ActivePhase(s, a) && s[a].probe == PROBE_UP && m < |s| && s[m].isGpio && m != a
    ensures var s1 := Swap(s, m, a);
            var t := s1[a := s1[a].(armed := false)];
            && CountWaiting(t) == CountWaiting(s)
            && Between(t[a := t[a].(probe := PROBE_DONE)]) && t[a].isGpio && !Waiting(t[a])
  {
    hide CountWaiting;
    SwapCounts(s, m, a);
    var s1 := Swap(s, m, a);
    CountUpdate(s1, a, s1[a].(armed := false));
  }

  lemma SwapConnectDescends(s: Ports, a: nat, m: nat, w: Written)
    requires a < |s| && ActivePhase(s, a) && s[a].probe == PROBE_UP && m < |s| && s[m].isGpio && m != a
    requires w != WriteFailed
    ensures HandleConnect(s, m, w).Handled? ==> Nearer(s, HandleConnect(s, m, w).s)
  {
    hide Advance, CountWaiting, Swap;
    FirstUp(s, a);
    SwapDescends(s, a, m);
    var s1 := Swap(s, m, a);
    hide Between, ActivePhase, JustEnded;
    AdvanceDescends(s1[a := s1[a].(armed := false)], a, w);
  }

  lemma ConnectDescends(s: Ports, a: nat, m: nat, w: Written)
    requires a < |s| && ActivePhase(s, a) && s[a].probe == PROBE_UP && m < |s| && s[m].isGpio
    requires w != WriteFailed
    ensures HandleConnect(s, m, w).Handled? ==> Nearer(s, HandleConnect(s, m, w).s)
  {
    hide Advance, CountWaiting, Swap, JustEnded;
    if m == a {
      var t := s[m := s[m].(armed := false)];
      CountUpdate(s, m, t[m]);
      AdvanceDescends(t, m, w);
    } else {
      SwapConnectDescends(s, a, m, w);
    }
  }

  lemma FirstUp(s: Ports, a: nat)
    requires a < |s| && ActivePhase(s, a) && s[a].probe == PROBE_UP
    ensures First(s, v => IsUp(v)) == a
  {
    assert IsUp(s[a]);
  }

  lemma SwapCounts(s: Ports, m: nat, u: nat)
    requires m < |s| && u < |s| && m != u
    ensures CountWaiting(Swap(s, m, u)) == CountWaiting(s)
  {
    hide CountWaiting;
    var s1 := Swap(s, m, u);
    CountUpdate(s, u, s1[u]);
    CountUpdate(s[u := s1[u]], m, s1[m]);
  }

  lemma UpTimeoutDescends(s: Ports, a: nat)
    requires a < |s| && ActivePhase(s, a) && s[a].probe == PROBE_UP
    ensures var r := UpTimeout(s[a := s[a].(armed := false)], a);
            ActivePhase(r, a) && CountWaiting(r) == CountWaiting(s) && Stage(r[a]) < Stage(s[a])
  {
    hide CountWaiting;
    var r := UpTimeout(s[a := s[a].(armed := false)], a);
    CountUpdate(s, a, r[a]);
    assert r == s[a := r[a]];
  }

  /** Probing is over, or the rest of it has become smaller. */
  ghost predicate Closer(s: Ports, a: nat, r: Ports)
    requires a < |s|
  {
    JustEnded(r) || exists b | 0 <= b < |r| ::
      ActivePhase(r, b) && Less(CountWaiting(r), Stage(r[b]), CountWaiting(s), Stage(s[a]))
  }

  lemma TimeoutDescends(s: Ports, a: nat, w: Written)
    requires a < |s| && ActivePhase(s, a) && w != WriteFailed
    ensures OnTimeout(s, a, w).Handled? ==> Closer(s, a, OnTimeout(s, a, w).s)
  {
    hide CountWaiting, Advance, WriteConfig, JustEnded, Update, UpTimeout;
    if s[a].probe == PROBE_UP {
      UpTimeoutDescends(s, a);
    } else {
      var t := s[a := s[a].(armed := false)];
      CountUpdate(s, a, t[a]);
      if s[a].probe == PROBE_DOWN_2 {
        AdvanceDescends(t, a, w);
      } else {
        WriteConfigPhase(t, a, w);
      }
    }
  }

  /** Once all ports are down, every timeout and every device that appears brings the run
      closer to its end (when the temporary file can be written), so it is finite. */
  lemma StepDescends(s: Ports, a: nat, e: Event)
    requires a < |s| && ActivePhase(s, a) && Timely(s, e)
    requires Progress(s, e) && Writes(e)
    ensures Step(s, e).Handled? ==> Closer(s, a, Step(s, e).s)
  {
    hide CountWaiting, OnTimeout, HandleConnect;
    if e.Timeout? {
      TimerIsTheOne(s, a);
      TimeoutDescends(s, a, e.w);
    } else {
      var m := FindPath(s, e.path);
      var u :| 0 <= u < |s| && IsUp(s[u]);
      UpIsActive(s, a, u);
      var v := WithDevice(s[m], e.id, e.vid, e.pid);
      DeviceKeepsPhase(s, a, m, v);
      CountUpdate(s, m, v);
      ConnectDescends(s[m := v], a, m, e.w);
    }
  }

  // ----- a bound on the whole run -----

  /** A timeout, or a device that shows up on a path of a GPIO port. */
  predicate Progress(s: Ports, e: Event) { e.Timeout? || (e.Connect? && Reaches(s, e.path, e.id)) }

  /** The temporary file can be written whenever the event leads to it. */
  predicate Writes(e: Event) { e.Timeout? || e.Connect? ==> e.w != WriteFailed }

  ghost function CountProgress(s: Ports, es: seq<Event>): nat
    decreases |es|
  {
    if es == [] then 0
    else
      var r := Step(s, es[0]);
      (if Progress(s, es[0]) then 1 else 0) + if r.Handled? then CountProgress(r.s, es[1..]) else 0
  }

  /** The number of such events that can still happen. */
  function Remaining(s: Ports, a: nat): nat
    requires a < |s|
  {
    3 * CountWaiting(s) + Stage(s[a])
  }

  /** What is over stays over, and leaves wiring and probe states alone. */
  lemma {:induction false} EndedStays(s: Ports, es: seq<Event>)
    requires Ended(s)
    ensures var r := RunAll(s, es);
            && !r.NullDereference? && (r.Handled? <==> NeverDoubles(s, es))
            && (r.Handled? ==> AllRunOn(s, r.s) && Ended(r.s))
    decreases |es|
  {
    hide Step, Running, DoublesUp;
    if es != [] {
      EndedStep(s, es[0]);
      if Step(s, es[0]).Handled? {
        EndedStays(Step(s, es[0]).s, es[1..]);
      }
    }
  }

  /** All other events change a device at most. */
  lemma QuietStep(s: Ports, a: nat, e: Event)
    requires a < |s| && ActivePhase(s, a) && !Progress(s, e)
    ensures var r := Step(s, e);
            r.Handled? && ActivePhase(r.s, a) && Remaining(r.s, a) == Remaining(s, a)
  {
    hide CountWaiting, HandleConnect, OnAdded, OnPinged, OnExpire, OnRequest, OnResetAll;
    if e.Connect? {
      UnreachedConnect(s, e);
    } else if e.Remove? {
      var m := FindPath(s, e.path);
      if m < |s| && s[m].isGpio {
        assert s[m].msgMode == PROBE;
        var v := s[m].(vid := 0, pid := 0, connected := false, dev := NoDevice);
        DeviceKeepsPhase(s, a, m, v);
        CountUpdate(s, m, v);
      }
    } else {
      InProbeQuiet(s, e);
    }
  }

  /** Whatever devices do: from the moment all pins are off, probing has ended (or stopped at
      a double insertion) once more timeouts and devices have been handled than the measure
      says at that moment. */
  lemma {:induction false} ProbingEnds(s: Ports, a: nat, es: seq<Event>)
    requires a < |s| && ActivePhase(s, a) && AllTimely(s, es) && forall e | e in es :: Writes(e)
    requires CountProgress(s, es) > Remaining(s, a)
    ensures RunAll(s, es).Handled? ==> Ended(RunAll(s, es).s)
    decreases |es|
  {
    hide Step, Ended, JustEnded, ActivePhase, CountWaiting, Progress;
    var e, rest := es[0], es[1..];
    assert Writes(e) && forall x | x in rest :: Writes(x);
    if Progress(s, e) {
      StepDescends(s, a, e);
      if Step(s, e).Handled? {
        var r := Step(s, e).s;
        if JustEnded(r) {
          JustEndedIsOn(r);
          EndedStays(r, rest);
        } else {
          var b :| 0 <= b < |r| && ActivePhase(r, b) && Less(CountWaiting(r), Stage(r[b]), CountWaiting(s), Stage(s[a]));
          ProbingEnds(r, b, rest);
        }
      }
    } else {
      QuietStep(s, a, e);
      ProbingEnds(Step(s, e).s, a, rest);
    }
  }
}
