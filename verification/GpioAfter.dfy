/** The time after probing: ports are pinged, restarted and switched by clients, and their
    timers share the list with the one of a mapping file that could not be linked. */
module GpioAfter {
  import opened GpioModel
  import opened GpioProbe

  // ----- the mapping file is left alone -----

  /** The event with another outcome of writing the configuration. */
  function Rewritten(e: Event, w: Written): Event {
    if e.Timeout? || e.Connect? then e.(w := w) else e
  }

  function AllRewritten(es: seq<Event>, w: Written): (r: seq<Event>)
    ensures |r| == |es|
  {
    seq(|es|, k requires 0 <= k < |es| => Rewritten(es[k], w))
  }

  lemma EndedIgnoresWriting(s: Ports, e: Event, w: Written)
    requires Ended(s)
    ensures Step(s, Rewritten(e, w)) == Step(s, e)
  {
    hide OnAdded, FindPath;
    if e.Timeout? {
      EndedHasNoProbeTimer(s);
    } else if e.Connect? {
      EndedReachesNot(s, e);
    }
  }

  /** After probing nothing depends on whether the configuration can be written. */
  lemma {:induction false} NeverWritten(s: Ports, es: seq<Event>, w: Written)
    requires Ended(s)
    ensures RunAll(s, AllRewritten(es, w)) == RunAll(s, es)
    decreases |es|
  {
    hide Step, Ended, DoublesUp, Rewritten;
    if es != [] {
      EndedStep(s, es[0]);
      EndedIgnoresWriting(s, es[0], w);
      assert AllRewritten(es, w)[1..] == AllRewritten(es[1..], w);
      if Step(s, es[0]).Handled? {
        NeverWritten(Step(s, es[0]).s, es[1..], w);
      }
    }
  }

  // ----- a mapping file that cannot be linked -----

  /** All ports have been probed, and the last one, `i`, is off. */
  ghost predicate LastIsOff(s: Ports, i: nat) {
    && i < |s| && s[i].isGpio && InProbe(s) && NoneArmed(s) && !s[i].enabled && Probed(s[i])
    && forall j | 0 <= j < |s| && s[j].isGpio && j != i :: s[j].probe == PROBE_DONE
  }

  /** The ports when `link` has failed after a pin that is off. */
  lemma AfterLinkFailure(s: Ports, i: nat)
    requires LastIsOff(s, i)
    ensures var r := WriteConfig(s, i, LinkFailed);
            && r.Handled? && JustEnded(r.s)
            && r.s[i] == Arm(Update(s[i].(msgMode := IDLE), CMD_ENABLE).(probe := PROBE_WRITE_FILE), GPIO_TIMEOUT_PROBE_DISABLE_SEC)
            && forall j | 0 <= j < |s| && j != i :: r.s[j] == RestartOne(s[j])
  {
    WriteConfigPhase(s, i, LinkFailed);
  }

  /** When `link` fails after a pin that is off, the port waits to write the file again, but
      it has left probe mode: whatever happens, the file is not written, and the timer of the
      port only switches it off and on. */
  lemma LinkFailureNotRetried(s: Ports, i: nat, es: seq<Event>, w: Written)
    requires LastIsOff(s, i)
    ensures var r := WriteConfig(s, i, LinkFailed);
            && r.Handled? && r.s[i].probe == PROBE_WRITE_FILE && r.s[i].armed && r.s[i].pwr
            && RunAll(r.s, AllRewritten(es, w)) == RunAll(r.s, es)
            && (RunAll(r.s, es).Handled? ==> RunAll(r.s, es).s[i].probe == PROBE_WRITE_FILE && Ended(RunAll(r.s, es).s))
            && var off := OnExpire(r.s, i, true);
            && off[i].armed && !off[i].pwr && off[i].msgMode == RESET
            && var on := OnExpire(off, i, true);
            !on[i].armed && on[i].pwr && on[i].msgMode == IDLE
  {
    hide RunAll, JustEnded, Ended, AllRewritten;
    AfterLinkFailure(s, i);
    var r := WriteConfig(s, i, LinkFailed).s;
    JustEndedIsOn(r);
    NeverWritten(r, es, w);
    EndedStays(r, es);
  }

  /** And until that timer fires, a device that is new to the port and appears on one of its
      paths inserts the port twice into the timeout list, and no other device does. */
  lemma LinkFailureDoubles(s: Ports, i: nat, p: Path, id: nat, vid: nat, pid: nat, bad: bool, w: Written)
    requires LastIsOff(s, i)
    ensures var r := WriteConfig(s, i, LinkFailed);
            && r.Handled?
            && (Step(r.s, Connect(p, id, vid, pid, bad, w)).DoubleInsertion? <==>
                FindPath(r.s, p) == i && s[i].dev != Device(id))
  {
    hide FindPath, LinkDoubles, JustEnded, Ended, WriteConfig;
    AfterLinkFailure(s, i);
    var r := WriteConfig(s, i, LinkFailed).s;
    JustEndedIsOn(r);
    var e := Connect(p, id, vid, pid, bad, w);
    EndedStep(r, e);
    EndedNeverLinks(r, e);
    var m := FindPath(r, p);
    if m < |r| && m != i {
      assert r[m] == RestartOne(s[m]);
    }
  }

  // ----- when nothing is inserted twice -----

  /** The timer of an enabled port runs only for a restart, or to ping the device of the port. */
  predicate Tidy(v: Port) {
    v.isGpio && v.enabled && v.armed ==> v.msgMode == RESET || (v.msgMode == PING && v.dev != NoDevice)
  }

  ghost predicate AllTidy(s: Ports) { forall i | 0 <= i < |s| :: Tidy(s[i]) }

  predicate FreeFor(v: Port, id: nat) { v.isGpio ==> v.dev == NoDevice || v.dev == Device(id) }

  /** What may be expected of devices, pings and clients: a device appears on a port when the
      one before it is gone; a ping ends while its device is there, before the timer runs
      again, and restarts succeed; a port is not enabled while its timer still runs. */
  predicate Calm(s: Ports, e: Event) {
    match e
    case Connect(p, id, _, _, _, _) => FindPath(s, p) < |s| ==> FreeFor(s[FindPath(s, p)], id)
    case Pinged(i, ping) =>
      i < |s| && s[i].isGpio ==> !s[i].armed && s[i].dev != NoDevice && (ping.TooMany? ==> ping.written)
    case Request(p, cmd, _) => cmd == CMD_ENABLE && FindPath(s, p) < |s| ==> !s[FindPath(s, p)].armed
    case _ => true
  }

  lemma CalmIsSafe(s: Ports, e: Event)
    requires Ended(s) && AllTidy(s) && Calm(s, e)
    ensures Step(s, e).Handled?
  {
    hide FindPath, LinkDoubles;
    EndedStep(s, e);
    EndedNeverLinks(s, e);
    if e.Connect? {
      var m := FindPath(s, e.path);
      assert m < |s| ==> Tidy(s[m]);
    }
  }

  lemma AddedTidy(s: Ports, m: nat, id: nat, vid: nat, pid: nat, bad: bool)
    requires m < |s| && s[m].isGpio && s[m].msgMode != PROBE && AllTidy(s)
    ensures var r := OnAdded(s, m, id, vid, pid, bad); r.Handled? ==> AllTidy(r.s)
  {
  }

  lemma ExpiredTidy(v: Port, ok: bool)
    requires v.isGpio && v.msgMode != PROBE && Tidy(v) && v.armed
    ensures Tidy(Expired(v, ok))
  {
  }

  lemma PingedTidy(s: Ports, i: nat, ping: Ping)
    requires AllTidy(s) && Calm(s, Pinged(i, ping)) && OnPinged(s, i, ping).Handled?
    ensures AllTidy(OnPinged(s, i, ping).s)
  {
  }

  lemma RequestTidy(s: Ports, p: Path, cmd: Cmd, written: bool)
    requires AllTidy(s) && Calm(s, Request(p, cmd, written))
    ensures AllTidy(OnRequest(s, p, cmd, written))
  {
    hide FindPath;
  }

  lemma ResetTidy(s: Ports, forced: bool, written: bool)
    requires AllTidy(s)
    ensures AllTidy(OnResetAll(s, forced, written))
  {
    forall i | 0 <= i < |s| ensures Tidy(ResetOne(s[i], forced, written)) {
      assert Tidy(s[i]);
    }
  }

  lemma CalmStaysTidy(s: Ports, e: Event)
    requires Ended(s) && AllTidy(s) && Calm(s, e) && Step(s, e).Handled?
    ensures AllTidy(Step(s, e).s)
  {
    hide FindPath, OnAdded, OnPinged, OnRequest, OnResetAll, Expired, Calm, Running;
    match e
    case Timeout(w) => EndedHasNoProbeTimer(s);
    case Connect(p, id, vid, pid, bad, w) =>
      EndedReachesNot(s, e);
      var m := FindPath(s, p);
      if m < |s| && s[m].isGpio && s[m].msgMode != PROBE {
        AddedTidy(s, m, id, vid, pid, bad);
      }
    case Remove(p) =>
      var m := FindPath(s, p);
      assert m < |s| ==> Tidy(s[m]) && Running(s[m]);
      RemovedTidy(s, p);
    case Expire(i, ok) =>
      if i < |s| && s[i].isGpio && s[i].armed && s[i].msgMode != PROBE {
        ExpiredTidy(s[i], ok);
      }
    case Pinged(i, ping) => PingedTidy(s, i, ping);
    case Request(p, cmd, written) => RequestTidy(s, p, cmd, written);
    case ResetAll(forced, written) => ResetTidy(s, forced, written);
  }

  lemma RemovedTidy(s: Ports, p: Path)
    requires Ended(s) && AllTidy(s)
    ensures AllTidy(OnRemove(s, p))
  {
    hide FindPath;
    var m := FindPath(s, p);
    assert m < |s| ==> Running(s[m]);
  }

  ghost predicate AllCalm(s: Ports, es: seq<Event>)
    decreases |es|
  {
    es != [] ==> Calm(s, es[0]) && (Step(s, es[0]).Handled? ==> AllCalm(Step(s, es[0]).s, es[1..]))
  }

  lemma {:induction false} CalmRun(s: Ports, es: seq<Event>)
    requires Ended(s) && AllTidy(s) && AllCalm(s, es)
    ensures RunAll(s, es).Handled? && Ended(RunAll(s, es).s) && AllTidy(RunAll(s, es).s)
    decreases |es|
  {
    hide Step, Ended, AllTidy, Calm, DoublesUp;
    if es != [] {
      EndedStep(s, es[0]);
      CalmIsSafe(s, es[0]);
      CalmStaysTidy(s, es[0]);
      CalmRun(Step(s, es[0]).s, es[1..]);
    }
  }

  /** Once the mapping file is stored, no port is ever inserted twice in a calm run; in
      particular a device that appears on a port which waits for its restart is ignored. */
  lemma StoredNeverDoubles(s: Ports, i: nat, es: seq<Event>)
    requires i < |s| && s[i].isGpio && InProbe(s) && NoneArmed(s)
    requires Probed(s[i]) && forall j | 0 <= j < |s| && s[j].isGpio && j != i :: s[j].probe == PROBE_DONE
    ensures var r := WriteConfig(s, i, Stored);
            && r.Handled?
            && (AllCalm(r.s, es) ==> RunAll(r.s, es).Handled? && Ended(RunAll(r.s, es).s))
            && (forall p, id, vid, pid, bad, w :: !Step(r.s, Connect(p, id, vid, pid, bad, w)).DoubleInsertion?)
  {
    hide RunAll, AllCalm, JustEnded;
    WriteConfigPhase(s, i, Stored);
    var r := WriteConfig(s, i, Stored).s;
    JustEndedIsOn(r);
    StoredIsTidy(s, i);
    if AllCalm(r, es) {
      CalmRun(r, es);
    }
    forall p, id, vid, pid, bad, w ensures !Step(r, Connect(p, id, vid, pid, bad, w)).DoubleInsertion? {
      WaitingIgnored(r, Connect(p, id, vid, pid, bad, w));
    }
  }

  lemma StoredIsTidy(s: Ports, i: nat)
    requires i < |s| && InProbe(s) && NoneArmed(s)
    ensures var r := RestartAll(s); AllTidy(r) && forall j | 0 <= j < |r| && r[j].isGpio && r[j].armed :: r[j].msgMode == RESET
  {
  }

  /** A port whose timer runs for a restart accepts no device. */
  lemma WaitingIgnored(s: Ports, e: Event)
    requires Ended(s) && e.Connect?
    requires forall j | 0 <= j < |s| && s[j].isGpio && s[j].armed :: s[j].msgMode == RESET
    ensures !Step(s, e).DoubleInsertion?
  {
    hide FindPath, LinkDoubles;
    EndedStep(s, e);
    EndedNeverLinks(s, e);
  }
}
