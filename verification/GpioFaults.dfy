/** GPIO files that cannot be written while pins are probed. */
module GpioFaults {
  import opened GpioModel
  import opened GpioProbe
  import opened GpioWiring
  import opened GpioLimits

  // ----- a pin that cannot be switched off -----

  /** The ports after the time of pin `a` has been up `n` times and each time the pin could not
      be switched off. */
  function FailedDisables(s: Ports, a: nat, n: nat): (r: Ports)
    requires a < |s|
    ensures |r| == |s|
  {
    if n == 0 then s else
      var t := FailedDisables(s, a, n - 1);
      TryUpTimeout(t[a := t[a].(armed := false)], a, false)
  }

  lemma {:induction false} FailedDisablesAre(s: Ports, a: nat, n: nat)
    requires a < |s| && s[a].armed
    ensures var r := FailedDisables(s, a, n); r == s[a := s[a].(wait := r[a].wait)]
  {
    if n > 0 {
      FailedDisablesAre(s, a, n - 1);
    }
  }

  lemma WaitKeepsPhase(s: Ports, a: nat, n: nat)
    requires a < |s| && ActivePhase(s, a)
    ensures ActivePhase(s[a := s[a].(wait := n)], a)
  {
  }

  /** However often that fails, the pin stays the one in hand and keeps its timer, and nothing
      else changes; the first time it succeeds, probing goes on as if it had never failed. */
  lemma FailedDisableRetries(s: Ports, a: nat, n: nat, w: Written)
    requires a < |s| && ActivePhase(s, a) && s[a].probe == PROBE_UP
    ensures var r := FailedDisables(s, a, n);
            && ActivePhase(r, a) && r == s[a := s[a].(wait := r[a].wait)]
            && Step(r, Timeout(w)) == Step(s, Timeout(w))
  {
    hide UpTimeout, FailedDisables;
    var r := FailedDisables(s, a, n);
    FailedDisablesAre(s, a, n);
    WaitKeepsPhase(s, a, r[a].wait);
    TimerIsTheOne(s, a);
    TimerIsTheOne(r, a);
    SameUpTimeout(s, r, a);
  }

  lemma SameUpTimeout(s: Ports, r: Ports, a: nat)
    requires a < |s| == |r| && r == s[a := s[a].(wait := r[a].wait)]
    ensures UpTimeout(r[a := r[a].(armed := false)], a) == UpTimeout(s[a := s[a].(armed := false)], a)
  {
  }

  // ----- a pin that cannot be switched on -----

  /** The GPIO ports from `i` to `k` are marked as down. */
  function Marked(s: Ports, i: nat, k: nat): (r: Ports)
    ensures |r| == |s|
  {
    seq(|s|, j requires 0 <= j < |s| => if i <= j < k && s[j].isGpio then s[j].(probe := PROBE_DOWN_DONE) else s[j])
  }

  predicate Busy(v: Port) { v.isGpio && HasDevice(v) }

  lemma {:induction false} DownScanIs(s: Ports, i: nat, k: nat)
    requires i <= k <= |s| && (forall j | i <= j < k :: !Busy(s[j])) && (k < |s| ==> Busy(s[k]))
    ensures DownScan(s, i) ==
            if k < |s| then Marked(s, i, k)[k := Arm(s[k], GPIO_TIMEOUT_PROBE_DISABLE_SEC)]
            else EnableNext(Marked(s, i, k)).0
    decreases k - i
  {
    hide EnableNext;
    if i == k {
      assert Marked(s, i, k) == s;
    } else if s[i].isGpio {
      var t := s[i := s[i].(probe := PROBE_DOWN_DONE)];
      DownScanIs(t, i + 1, k);
      assert Marked(t, i + 1, k) == Marked(s, i, k);
    } else {
      DownScanIs(s, i + 1, k);
      assert Marked(s, i + 1, k) == Marked(s, i, k);
    }
  }

  lemma OnlyTimer(s: Ports, a: nat)
    requires InProbe(s) && OnlyArmed(s, a)
    ensures First(s, v => ProbeTimer(v)) == a
  {
    assert ProbeTimer(s[a]);
  }

  lemma NoTimer(s: Ports, w: Written)
    requires NoneArmed(s)
    ensures Step(s, Timeout(w)) == Handled(s)
  {
    assert forall j | 0 <= j < |s| :: !ProbeTimer(s[j]);
  }

  /** Pin `i` could not be switched on: no pin is powered for probing, and the timer runs. */
  ghost predicate Refused(s: Ports, i: nat) {
    i < |s| && Waiting(s[i]) && s[i].armed && Between(s[i := s[i].(armed := false)])
  }

  /** The state `s` after the first waiting pin could not be switched on. */
  function FailedEnable(s: Ports): (r: Ports)
    ensures |r| == |s|
  {
    TryEnableNext(s, false).0
  }

  lemma FailedEnableRefused(s: Ports)
    requires Between(s)
    ensures var i := First(s, v => Waiting(v)); i < |s| ==> Refused(FailedEnable(s), i)
  {
    var i := First(s, v => Waiting(v));
    if i < |s| {
      var r := s[i := Arm(s[i], GPIO_TIMEOUT_PROBE_DISABLE_SEC)];
      var u := r[i := r[i].(armed := false)];
      assert forall j | 0 <= j < |s| :: Settled(u[j]);
    }
  }

  /** While no pin is powered, a timely event other than a timeout can only take a device
      away. */
  lemma NothingUp(s: Ports, e: Event)
    requires InProbe(s) && (forall j | 0 <= j < |s| :: !IsUp(s[j])) && Timely(s, e) && !e.Timeout?
    ensures Step(s, e) == Handled(if e.Remove? then OnRemove(s, e.path) else s)
  {
    hide FindPath, OnAdded, HandleConnect;
    if e.Connect? {
      UnreachedConnect(s, e);
    } else if !e.Remove? {
      InProbeQuiet(s, e);
    }
  }

  lemma RefusedFacts(s: Ports, i: nat)
    requires Refused(s, i)
    ensures InProbe(s) && OnlyArmed(s, i) && forall j | 0 <= j < |s| :: !IsUp(s[j])
  {
    var t := s[i := s[i].(armed := false)];
    forall j | 0 <= j < |s| ensures t[j].isGpio == s[j].isGpio && !IsUp(s[j]) {
      assert Settled(t[j]);
    }
  }

  /** Devices may go before the timer fires. */
  lemma RefusedStays(s: Ports, i: nat, e: Event)
    requires Refused(s, i) && Timely(s, e) && !e.Timeout?
    ensures Step(s, e).Handled? && Refused(Step(s, e).s, i)
  {
    hide Step, FindPath;
    RefusedFacts(s, i);
    NothingUp(s, e);
    if e.Remove? {
      var r := OnRemove(s, e.path);
      var u, t := r[i := r[i].(armed := false)], s[i := s[i].(armed := false)];
      forall j | 0 <= j < |s| ensures Settled(u[j]) {
        assert Settled(t[j]);
      }
    }
  }

  lemma {:induction false} RefusedRun(s: Ports, i: nat, es: seq<Event>)
    requires Refused(s, i) && AllTimely(s, es) && forall e | e in es :: !e.Timeout?
    ensures RunAll(s, es).Handled? && Refused(RunAll(s, es).s, i)
    decreases |es|
  {
    hide Step, Refused, Timely;
    if es != [] {
      RefusedStays(s, i, es[0]);
      RefusedRun(Step(s, es[0]).s, i, es[1..]);
    }
  }

  /** The timeout is taken for the end of the switching-off: the scan for ports that still
      have a device begins anew. */
  lemma RefusedScans(s: Ports, i: nat, w: Written)
    requires Refused(s, i)
    ensures var k, t := First(s, v => Busy(v)), s[i := s[i].(armed := false)];
            Step(s, Timeout(w)) == Handled(
              if k < |s| then Marked(t, 0, k)[k := Arm(t[k], GPIO_TIMEOUT_PROBE_DISABLE_SEC)]
              else EnableNext(Marked(t, 0, k)).0)
  {
    hide DownScan, EnableNext, Marked;
    var k, t := First(s, v => Busy(v)), s[i := s[i].(armed := false)];
    RefusedFacts(s, i);
    OnlyTimer(s, i);
    assert t[i := t[i].(probe := PROBE_DOWN_DONE)] == t;
    assert forall j | 0 <= j < |s| :: Busy(t[j]) == Busy(s[j]);
    DownScanIs(t, 0, k);
  }

  // ----- probing that has stopped -----

  /** Pins wait, none is powered, and no timer runs. */
  ghost predicate Stopped(s: Ports) {
    InProbe(s) && NoneArmed(s) && (forall j | 0 <= j < |s| :: !IsUp(s[j])) && exists i :: 0 <= i < |s| && Waiting(s[i])
  }

  /** The same with a timer whose timeout does nothing. */
  ghost predicate Stopping(s: Ports, k: nat) {
    && InProbe(s) && OnlyArmed(s, k) && s[k].probe == PROBE_DONE
    && (forall j | 0 <= j < |s| :: !IsUp(s[j])) && exists i :: 0 <= i < |s| && Waiting(s[i])
  }

  lemma StoppedStays(s: Ports, e: Event)
    requires Stopped(s) && Timely(s, e)
    ensures Step(s, e).Handled? && Stopped(Step(s, e).s)
  {
    hide Step, FindPath;
    if e.Timeout? {
      NoTimer(s, e.w);
    } else {
      NothingUp(s, e);
      var i :| 0 <= i < |s| && Waiting(s[i]);
      if e.Remove? {
        assert Waiting(OnRemove(s, e.path)[i]);
      }
    }
  }

  lemma StoppingStep(s: Ports, k: nat, e: Event)
    requires Stopping(s, k) && Timely(s, e)
    ensures var r := Step(s, e);
            r.Handled? && if e.Timeout? then Stopped(r.s) else Stopping(r.s, k)
  {
    hide FindPath, DownScan;
    var i :| 0 <= i < |s| && Waiting(s[i]);
    if e.Timeout? {
      OnlyTimer(s, k);
      assert Step(s, e) == Handled(s[k := s[k].(armed := false)]);
      assert Waiting(s[k := s[k].(armed := false)][i]);
    } else {
      NothingUp(s, e);
      if e.Remove? {
        assert Waiting(OnRemove(s, e.path)[i]);
      }
    }
  }

  lemma {:induction false} StoppedRun(s: Ports, es: seq<Event>)
    requires Stopped(s) && AllTimely(s, es)
    ensures RunAll(s, es).Handled? && Stopped(RunAll(s, es).s)
    decreases |es|
  {
    hide Step, Stopped, Timely;
    if es != [] {
      StoppedStays(s, es[0]);
      StoppedRun(Step(s, es[0]).s, es[1..]);
    }
  }

  lemma {:induction false} StoppingRun(s: Ports, k: nat, es: seq<Event>)
    requires Stopping(s, k) && AllTimely(s, es)
    ensures var r := RunAll(s, es);
            r.Handled? && (Stopping(r.s, k) || Stopped(r.s)) && ((exists e | e in es :: e.Timeout?) ==> Stopped(r.s))
    decreases |es|
  {
    hide Step, Stopping, Stopped, Timely;
    if es != [] {
      StoppingStep(s, k, es[0]);
      var t := Step(s, es[0]).s;
      if es[0].Timeout? {
        StoppedRun(t, es[1..]);
      } else {
        StoppingRun(t, k, es[1..]);
      }
    }
  }

  /** Probing has come to a halt: whatever happens, no pin is powered any more though pins
      wait, and after the next timeout no timer runs either. */
  ghost predicate Stalled(s: Ports) {
    forall es: seq<Event> | AllTimely(s, es) :: StaysStalled(s, es)
  }

  ghost predicate StaysStalled(s: Ports, es: seq<Event>) {
    var r := RunAll(s, es);
    && r.Handled? && (forall j | 0 <= j < |r.s| :: !IsUp(r.s[j])) && (exists i :: 0 <= i < |r.s| && Waiting(r.s[i]))
    && ((exists e | e in es :: e.Timeout?) ==> NoneArmed(r.s))
  }

  lemma StoppingStalls(s: Ports, k: nat)
    requires Stopping(s, k)
    ensures Stalled(s)
  {
    hide RunAll, AllTimely;
    forall es: seq<Event> | AllTimely(s, es) ensures StaysStalled(s, es) {
      StoppingRun(s, k, es);
    }
  }

  lemma ArmedAgain(s: Ports, w: Written)
    requires Step(s, Timeout(w)).Handled? && !NoneArmed(Step(s, Timeout(w)).s)
    ensures !Stalled(s)
  {
    hide Step, NoneArmed;
    var es := [Timeout(w)];
    assert es[1..] == [] && es[0] in es && es[0].Timeout?;
    assert RunAll(s, es) == Step(s, Timeout(w));
    assert AllTimely(s, es);
    assert !StaysStalled(s, es);
  }

  /** The port that got the timer still waits: its timeout scans once more. */
  lemma ScannedWaiting(t: Ports, k: nat, w: Written)
    requires Between(t) && k == First(t, v => Busy(v)) < |t| && t[k].probe == PROBE_DOWN_DONE
    ensures var r := Marked(t, 0, k)[k := Arm(t[k], GPIO_TIMEOUT_PROBE_DISABLE_SEC)];
            Step(r, Timeout(w)).Handled? && !NoneArmed(Step(r, Timeout(w)).s)
  {
    hide DownScan;
    var r := Marked(t, 0, k)[k := Arm(t[k], GPIO_TIMEOUT_PROBE_DISABLE_SEC)];
    OnlyTimer(r, k);
    var d := r[k := r[k].(armed := false)];
    assert d[k := d[k].(probe := PROBE_DOWN_DONE)] == d;
    assert forall j | 0 <= j < |t| :: Busy(d[j]) == Busy(t[j]);
    DownScanIs(d, 0, k);
    assert d[k].isGpio && Step(r, Timeout(w)) == Handled(DownScan(d, 0));
    assert DownScan(d, 0)[k].armed && DownScan(d, 0)[k].isGpio;
  }

  /** No port has a device: all of them are probed again. */
  lemma AllMarked(t: Ports, i: nat, w: Written)
    requires Between(t) && i < |t| && Waiting(t[i])
    ensures var r := EnableNext(Marked(t, 0, |t|)).0;
            Step(r, Timeout(w)).Handled? && !NoneArmed(Step(r, Timeout(w)).s)
  {
    var m := Marked(t, 0, |t|);
    var u := First(m, v => Waiting(v));
    assert Waiting(m[i]);
    var r := EnableNext(m).0;
    assert r == m[u := PowerUp(m[u])];
    OnlyTimer(r, u);
    assert Step(r, Timeout(w)).s[u].armed;
  }

  /** The port that got the timer has been probed: its timeout does nothing. */
  lemma ScannedDone(t: Ports, i: nat, k: nat)
    requires Between(t) && i < |t| && Waiting(t[i]) && k < |t| && t[k].isGpio && t[k].probe == PROBE_DONE
    ensures Stopping(Marked(t, 0, k)[k := Arm(t[k], GPIO_TIMEOUT_PROBE_DISABLE_SEC)], k)
  {
    var r := Marked(t, 0, k)[k := Arm(t[k], GPIO_TIMEOUT_PROBE_DISABLE_SEC)];
    assert Waiting(r[i]);
    forall j | 0 <= j < |r| ensures !IsUp(r[j]) {
      assert Settled(t[j]);
    }
  }

  /** After a pin could not be switched on, and whatever happens until the timer fires, probing
      halts with that timeout if and only if the first GPIO port that has a device at this
      moment has been probed already. */
  lemma FailedEnableStalls(s: Ports, es: seq<Event>, w: Written)
    requires Between(s) && (exists i :: 0 <= i < |s| && Waiting(s[i]))
    requires AllTimely(FailedEnable(s), es) && forall e | e in es :: !e.Timeout?
    ensures var t := RunAll(FailedEnable(s), es);
            && t.Handled? && Step(t.s, Timeout(w)).Handled?
            && var k := First(t.s, v => Busy(v));
               (Stalled(Step(t.s, Timeout(w)).s) <==> k < |t.s| && t.s[k].probe == PROBE_DONE)
  {
    hide Step, Refused, FailedEnable, RunAll, AllTimely, Stalled, Between;
    var i := First(s, v => Waiting(v));
    FailedEnableRefused(s);
    RefusedRun(FailedEnable(s), i, es);
    RefusedTimeout(RunAll(FailedEnable(s), es).s, i, w);
  }

  lemma RefusedTimeout(t: Ports, i: nat, w: Written)
    requires Refused(t, i)
    ensures var k, r := First(t, v => Busy(v)), Step(t, Timeout(w));
            r.Handled? && (Stalled(r.s) <==> k < |t| && t[k].probe == PROBE_DONE)
  {
    hide Step, Stalled, Marked, EnableNext, DownScan;
    var k, u := First(t, v => Busy(v)), t[i := t[i].(armed := false)];
    RefusedScans(t, i, w);
    assert Waiting(u[i]) && forall j | 0 <= j < |t| :: Busy(u[j]) == Busy(t[j]);
    if k == |t| {
      AllMarked(u, i, w);
      ArmedAgain(EnableNext(Marked(u, 0, |u|)).0, w);
    } else if t[k].probe == PROBE_DONE {
      ScannedDone(u, i, k);
      StoppingStalls(Marked(u, 0, k)[k := Arm(u[k], GPIO_TIMEOUT_PROBE_DISABLE_SEC)], k);
    } else {
      assert Settled(u[k]);
      ScannedWaiting(u, k, w);
      ArmedAgain(Marked(u, 0, k)[k := Arm(u[k], GPIO_TIMEOUT_PROBE_DISABLE_SEC)], w);
    }
  }

  // ----- an input -----

  /** The device of the first pin has been found, and the second pin is about to be powered. */
  function BetweenState(p: Path, q: Path, id: nat): Ports {
    [SecondUpState(p, q, id)[0], FirstUpState(p, q)[1]]
  }

  /** A run of two pins in which the device of the first one is found: the handler goes on to
      switch on the second one, and if this fails and the device stays, probing halts. */
  lemma FailedEnableRun(p: Path, q: Path, id: nat, w: Written)
    requires p != q
    ensures var b := BetweenState(p, q, id);
            && RunAll(Start(TwoPorts(p, q)), [Timeout(w)] + [Appears(p, id, w)]) == Handled(EnableNext(b).0)
            && EnableNext(b).1 && Between(b)
            && Step(FailedEnable(b), Timeout(w)).Handled? && Stalled(Step(FailedEnable(b), Timeout(w)).s)
  {
    hide Step, Start, Stalled, FailedEnable;
    var b, s2 := BetweenState(p, q, id), SecondUpState(p, q, id);
    FirstTimeout(p, q, w);
    FirstConnect(p, q, id, w);
    RunCons(FirstUpState(p, q), Appears(p, id, w), s2, []);
    assert [Appears(p, id, w)] + [] == [Appears(p, id, w)];
    RunCons(Start(TwoPorts(p, q)), Timeout(w), FirstUpState(p, q), [Appears(p, id, w)]);
    FirstOfTwo(b[0], b[1], v => Waiting(v));
    assert b == [b[0], b[1]] && Waiting(b[1]) && b[1 := PowerUp(b[1])] == s2;
    assert Between(b);
    FailedEnableRefused(b);
    RefusedTimeout(FailedEnable(b), 1, w);
    FailedEnableIs(b);
    FirstOfTwo(b[0], FailedEnable(b)[1], v => Busy(v));
  }

  lemma FailedEnableIs(b: Ports)
    requires |b| == 2 && First(b, v => Waiting(v)) == 1
    ensures FailedEnable(b) == [b[0], Arm(b[1], GPIO_TIMEOUT_PROBE_DISABLE_SEC)]
  {
  }
}
