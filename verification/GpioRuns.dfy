/** Whole runs of the handler on the ports themselves: in every reachable state the
    handler's functions may be called.  No port is taken out of the timeout list when it is
    not there, and none is put there twice, except by the events that `DoublesUp` names. */
module GpioRuns {
  import opened GpioModel
  import opened GpioProbe
  import opened GpioHandler

  ghost predicate AllDense(s: Ports) { forall i | 0 <= i < |s| :: Dense(s[i].slots) }

  lemma SameSlotsDense(s: Ports, r: Ports)
    requires SameSlots(s, r) && AllDense(s)
    ensures AllDense(r)
  {
  }

  lemma SwapDense(s: Ports, m: nat, u: nat)
    requires m < |s| && u < |s| && m != u && AllDense(s)
    ensures AllDense(Swap(s, m, u))
  {
  }

  lemma ConnectDense(s: Ports, a: nat, m: nat, w: Written)
    requires a < |s| && ActivePhase(s, a) && s[a].probe == PROBE_UP && m < |s| && s[m].isGpio && AllDense(s)
    requires HandleConnect(s, m, w).Handled?
    ensures AllDense(HandleConnect(s, m, w).s)
  {
    hide Advance, Dense;
    if m == a {
      var t := s[m := s[m].(armed := false)];
      AdvanceMoves(t, m, w);
      SameSlotsDense(t, Advance(t, m, w).s);
    } else {
      FirstUp(s, a);
      SwapDescends(s, a, m);
      SwapDense(s, m, a);
      var s1 := Swap(s, m, a);
      var t := s1[a := s1[a].(armed := false)];
      AdvanceMoves(t, a, w);
      SameSlotsDense(t, Advance(t, a, w).s);
    }
  }

  /** Path arrays stay dense. */
  lemma StepDense(s: Ports, e: Event)
    requires Good(s) && Timely(s, e) && AllDense(s) && Step(s, e).Handled?
    ensures AllDense(Step(s, e).s)
  {
    hide OnTimeout, OnConnect, OnRemove, Ended, First, Dense, SameSlots, Reaches;
    hide OnPinged, OnExpire, OnRequest, OnResetAll, DoublesUp;
    if Ended(s) {
      EndedStep(s, e);
      RunOnMoves(s, Step(s, e).s);
      SameSlotsDense(s, Step(s, e).s);
    } else {
      var a :| 0 <= a < |s| && (DownPhase(s, a) || ActivePhase(s, a));
      PhaseInProbe(s, a);
      if e.Timeout? {
        TimerIsTheOne(s, a);
        TimeoutMoves(s, a, e.w);
        SameSlotsDense(s, Step(s, e).s);
      } else if e.Connect? {
        if Reaches(s, e.path, e.id) {
          ReachedDense(s, a, e);
        } else {
          UnreachedConnect(s, e);
        }
      } else if e.Remove? {
        RemoveMoves(s, e.path);
        SameSlotsDense(s, Step(s, e).s);
      } else {
        InProbeQuiet(s, e);
      }
    }
  }

  lemma ReachedDense(s: Ports, a: nat, e: Event)
    requires a < |s| && (DownPhase(s, a) || ActivePhase(s, a)) && Timely(s, e) && AllDense(s)
    requires e.Connect? && Reaches(s, e.path, e.id) && Step(s, e).Handled?
    ensures AllDense(Step(s, e).s)
  {
    hide HandleConnect, FindPath, First, Dense, OnAdded;
    var m := FindPath(s, e.path);
    var u :| 0 <= u < |s| && IsUp(s[u]);
    UpIsActive(s, a, u);
    var v := WithDevice(s[m], e.id, e.vid, e.pid);
    DeviceKeepsPhase(s, a, m, v);
    ConnectDense(s[m := v], a, m, e.w);
  }

  /** The GPIO port whose probe timer runs, or the number of ports. */
  method FindTimer(mon: Monitor) returns (a: nat)
    requires mon.Valid()
    ensures a == First(mon.Views(), v => ProbeTimer(v))
  {
    ghost var s := mon.Views();
    a := 0;
    while a < |mon.ports| && !(mon.ports[a].isGpio && mon.ports[a].armed && mon.ports[a].msgMode == PROBE)
      invariant 0 <= a <= |mon.ports|
      invariant forall j | 0 <= j < a :: !ProbeTimer(s[j])
    {
      assert s[a] == mon.ports[a].View();
      a := a + 1;
    }
    assert a < |s| ==> s[a] == mon.ports[a].View();
  }

  lemma TimerAlone(s: Ports, a: nat)
    requires Good(s) && a == First(s, v => ProbeTimer(v)) < |s|
    ensures OnlyArmed(s, a)
  {
    assert ProbeTimer(s[a]);
    assert Ended(s) ==> Running(s[a]);
    if !Ended(s) {
      var b :| 0 <= b < |s| && (DownPhase(s, b) || ActivePhase(s, b));
      TimerIsTheOne(s, b);
    }
  }

  lemma UpIsPowered(s: Ports, u: nat)
    requires Good(s) && u < |s| && IsUp(s[u])
    ensures OnlyArmed(s, u) && forall j | 0 <= j < |s| && j != u :: !IsUp(s[j])
  {
    assert Ended(s) ==> Running(s[u]);
    if !Ended(s) {
      var b :| 0 <= b < |s| && (DownPhase(s, b) || ActivePhase(s, b));
      UpIsActive(s, b, u);
      assert forall j | 0 <= j < |s| && j != u :: Settled(s[j]);
    }
  }

  /** One event, handled by the functions of the handler, unless it inserts a port twice. */
  method HandleEvent(mon: Monitor, e: Event)
    requires mon.Valid() && Good(mon.Views()) && AllDense(mon.Views()) && Timely(mon.Views(), e)
    requires !DoublesUp(mon.Views(), e)
    modifies mon.ports, set p | p in mon.ports :: p.path
    ensures Handled(mon.Views()) == Step(old(mon.Views()), e)
    ensures Good(mon.Views()) && AllDense(mon.Views())
  {
    hide OnTimeout, OnConnect, OnRemove, OnExpire, OnPinged, OnRequest, OnResetAll, Good, Dense, DoublesUp;
    ghost var s := mon.Views();
    StepGood(s, e);
    StepDense(s, e);
    forall j | 0 <= j < |mon.ports| ensures s[j] == mon.ports[j].View() && Dense(mon.ports[j].path[..]) {
      assert Dense(s[j].slots);
    }
    match e {
      case Timeout(w) =>
        var a := FindTimer(mon);
        if a < |mon.ports| {
          TimerAlone(s, a);
          mon.FireTimeout(a, w);
        }
      case Connect(p, id, vid, pid, bad, w) =>
        ghost var u := First(s, v => IsUp(v));
        if u < |s| {
          UpIsPowered(s, u);
        }
        mon.DeviceAdded(p, id, vid, pid, bad, w, u);
      case Remove(p) =>
        mon.DeviceRemoved(p);
      case Expire(i, ok) =>
        mon.FireRunning(i, ok);
      case Pinged(i, ping) =>
        mon.PingEnds(i, ping);
      case Request(p, cmd, written) =>
        mon.UpdateRequested(p, cmd, written);
      case ResetAll(forced, written) =>
        mon.ResetAllPorts(forced, written);
    }
  }

  /** Probing from its start through any timely sequence of events. */
  method Probe(mon: Monitor, es: seq<Event>)
    requires mon.Valid() && AllDense(mon.Views())
    requires exists i :: 0 <= i < |mon.ports| && mon.ports[i].isGpio
    requires AllTimely(Start(mon.Views()), es) && NeverDoubles(Start(mon.Views()), es)
    modifies mon.ports, set p | p in mon.ports :: p.path
    ensures Handled(mon.Views()) == RunAll(Start(old(mon.Views())), es)
    ensures Good(mon.Views()) && AllDense(mon.Views())
  {
    hide Step, Good, Dense, Start, DownPhase, DoublesUp;
    ghost var s := mon.Views();
    forall i | 0 <= i < |mon.ports| ensures s[i].isGpio == mon.ports[i].isGpio {
      assert s[i] == mon.ports[i].View();
    }
    StartGood(s);
    StartIsGood(s);
    var _ := mon.StartProbe(|mon.ports|);
    ghost var t := mon.Views();
    for k := 0 to |es|
      invariant Good(mon.Views()) && AllDense(mon.Views())
      invariant RunAll(t, es) == RunAll(mon.Views(), es[k..])
      invariant AllTimely(mon.Views(), es[k..]) && NeverDoubles(mon.Views(), es[k..])
    {
      assert es[k..][0] == es[k] && es[k..][1..] == es[k + 1..];
      HandleEvent(mon, es[k]);
    }
  }

  lemma StartIsGood(s: Ports)
    requires AllDense(s) && exists a | 0 <= a < |Start(s)| :: DownPhase(Start(s), a)
    ensures Good(Start(s)) && AllDense(Start(s))
  {
    var r := Start(s);
    forall i | 0 <= i < |r| ensures r[i].slots == s[i].slots {
    }
  }
}
