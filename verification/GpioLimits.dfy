/** Where probing goes wrong: inputs that reach each of the limits of the protocol. */
module GpioLimits {
  import opened GpioModel
  import opened GpioProbe
  import opened GpioWiring
  import opened GpioAfter

  // ----- examples -----

  /** A GPIO port in probe mode that is switched off and has no device. */
  function Off(p: Path, probe: ProbeState): Port {
    Port(true, [Used(p), Free], 0, 0, false, NoDevice, false, false, PROBE, probe, false, 0)
  }

  /** Two ports at rest, each with one configured path. */
  function TwoPorts(p: Path, q: Path): Ports {
    [Off(p, PROBE_IDLE), Off(q, PROBE_IDLE)]
  }

  /** A device of some kind appears. */
  function Appears(p: Path, id: nat, w: Written): Event { Connect(p, id, 1, 1, false, w) }

  lemma FirstOfTwo(v: Port, w: Port, f: Port -> bool)
    ensures First([v, w], f) == if f(v) then 0 else if f(w) then 1 else 2
  {
    assert [v, w][0] == v && [v, w][1] == w;
  }

  lemma PathOfTwo(v: Port, w: Port, p: Path, q: Path)
    requires p != q && v.slots == [Used(p), Free] && w.slots == [Used(q), Free]
    ensures FindPath([v, w], p) == 0 && FindPath([v, w], q) == 1
  {
    assert v.slots[0] == Used(p) && w.slots[0] == Used(q);
    assert Owns(v, p) && Owns(w, q) && !Owns(v, q);
    FirstOfTwo(v, w, u => Owns(u, p));
    FirstOfTwo(v, w, u => Owns(u, q));
  }

  /** All pins are down and the first one is powered. */
  function FirstUpState(p: Path, q: Path): Ports {
    [PowerUp(Off(p, PROBE_DOWN_DONE)), Off(q, PROBE_DOWN_DONE).(wait := GPIO_TIMEOUT_PROBE_DISABLE_SEC)]
  }

  /** After the first timeout the first pin is powered. */
  lemma FirstTimeout(p: Path, q: Path, w: Written)
    ensures Step(Start(TwoPorts(p, q)), Timeout(w)) == Handled(FirstUpState(p, q))
  {
    var s := TwoPorts(p, q);
    var d := Off(p, PROBE_DOWN);
    var l := Arm(Off(q, PROBE_DOWN), GPIO_TIMEOUT_PROBE_DISABLE_SEC);
    assert Start(s) == [d, l];
    FirstOfTwo(d, l, v => ProbeTimer(v));
    var l1 := l.(armed := false, probe := PROBE_DOWN_DONE);
    assert [d, l][1 := l.(armed := false)][1 := l1] == [d, l1];
    var d1 := d.(probe := PROBE_DOWN_DONE);
    assert [d, l1][0 := d1] == [d1, l1] && [d1, l1][1 := l1] == [d1, l1];
    assert DownScan([d1, l1], 2) == EnableNext([d1, l1]).0;
    assert DownScan([d1, l1], 1) == DownScan([d1, l1], 2);
    assert DownScan([d, l1], 0) == DownScan([d1, l1], 1);
    FirstOfTwo(d1, l1, v => Waiting(v));
    assert [d1, l1][0 := PowerUp(d1)] == [PowerUp(d1), l1];
  }

  // ----- a device that comes too late -----

  /** The case the guard of `gpio_handler_handle_probe_connect` was written for: a pin has
      timed out and is being switched off.  If its device appears on a path of another
      port, the null pointer is followed. */
  lemma LateConnect(s: Ports, a: nat, p: Path, id: nat, vid: nat, pid: nat, bad: bool, w: Written)
    requires a < |s| && ActivePhase(s, a) && s[a].probe == PROBE_DOWN_2
    requires Reaches(s, p, id)
    ensures Step(s, Connect(p, id, vid, pid, bad, w)).NullDereference? <==> FindPath(s, p) != a
  {
    hide FindPath;
    ConnectSafeExactly(s, p, id, vid, pid, bad, w);
    var m := FindPath(s, p);
    assert m != a ==> Settled(s[m]);
    assert forall i | 0 <= i < |s| && i != a :: Settled(s[i]) && !IsUp(s[i]);
  }

  /** That case at an input: two pins whose configured paths are exchanged, and a device on
      the first one that needs longer than the timeout. */
  lemma LateConnectRun(p: Path, q: Path, id: nat, w: Written)
    requires p != q
    ensures RunAll(Start(TwoPorts(p, q)), [Timeout(w), Timeout(w), Appears(q, id, w)]).NullDereference?
  {
    hide Step;
    var s1 := FirstUpState(p, q);
    FirstTimeout(p, q, w);
    var off := Arm(Off(p, PROBE_DOWN_2), GPIO_TIMEOUT_PROBE_DISABLE_SEC);
    var s2 := [off, s1[1]];
    UpTimeoutOfTwo(p, q, w);
    PathOfTwo(off, s1[1], p, q);
    assert ActivePhase(s2, 0);
    LateConnect(s2, 0, q, id, 1, 1, false, w);
    RunOfThree(Start(TwoPorts(p, q)), s1, s2, Timeout(w), Timeout(w), Appears(q, id, w));
  }

  lemma UpTimeoutOfTwo(p: Path, q: Path, w: Written)
    ensures var s := FirstUpState(p, q);
            Step(s, Timeout(w)) == Handled([Arm(Off(p, PROBE_DOWN_2), GPIO_TIMEOUT_PROBE_DISABLE_SEC), s[1]])
  {
    var s := FirstUpState(p, q);
    FirstOfTwo(s[0], s[1], v => ProbeTimer(v));
  }

  lemma RunOfThree(s: Ports, s1: Ports, s2: Ports, e: Event, f: Event, g: Event)
    requires Step(s, e) == Handled(s1) && Step(s1, f) == Handled(s2)
    ensures RunAll(s, [e, f, g]) == Step(s2, g)
    ensures Found(s, [e, f, g]) == Finds(s, e) + Finds(s1, f) + Finds(s2, g)
  {
    hide Step, Finds;
    assert [e, f, g][1..] == [f, g] && [f, g][1..] == [g] && [g][1..] == [];
    assert RunAll(s2, [g]) == Step(s2, g);
    assert RunAll(s1, [f, g]) == RunAll(s2, [g]);
    assert Found(s2, [g]) == Finds(s2, g) + {} && Found(s1, [f, g]) == Finds(s1, f) + Found(s2, [g]);
  }

  // ----- a device that comes back -----

  /** The device of the first pin has been found, and the second pin is powered. */
  function SecondUpState(p: Path, q: Path, id: nat): Ports {
    [FirstUpState(p, q)[0].(probe := PROBE_DONE, armed := false, vid := 1, pid := 1, connected := true, dev := Device(id)),
     PowerUp(Off(q, PROBE_DOWN_DONE))]
  }

  lemma FirstConnect(p: Path, q: Path, id: nat, w: Written)
    requires p != q
    ensures Step(FirstUpState(p, q), Appears(p, id, w)) == Handled(SecondUpState(p, q, id))
    ensures Finds(FirstUpState(p, q), Appears(p, id, w)) == {0}
    ensures Timely(FirstUpState(p, q), Appears(p, id, w))
  {
    var s := FirstUpState(p, q);
    assert IsUp(s[0]);
    PathOfTwo(s[0], s[1], p, q);
    var t := SecondUpState(p, q, id);
    FirstOfTwo(s[0], s[1], v => IsUp(v));
    assert [s[0], s[1]] == s;
    FirstOfTwo(t[0], s[1], v => Waiting(v));
    var d := WithDevice(s[0], id, 1, 1);
    assert s[0 := d][0 := d.(armed := false)][0 := t[0]] == [t[0], s[1]];
    assert [t[0], s[1]][1 := PowerUp(s[1])] == t;
  }

  /** `GpioWiring.Truthful` is needed over a whole run.  The configured paths are the true
      ones and both pins show their device, but the device of the first pin comes back while
      the second is powered: both ports end with each other's paths, and the file that is
      written says so. */
  lemma MisplacedRun(p: Path, q: Path, id: nat, id': nat, w: Written)
    requires p != q && id != id'
    ensures var s := Start(TwoPorts(p, q));
            var truth := Groups(TwoPorts(p, q));
            var es := [Timeout(w), Appears(p, id, w), Appears(p, id', Stored)];
            && Disjoint(TwoPorts(p, q)) && Configured(TwoPorts(p, q), truth)
            && AllTimely(s, es) && RunAll(s, es).Handled?
            && Found(s, es) == {0, 1}
            && forall k <- Found(s, es) :: RunAll(s, es).s[k].slots == truth[1 - k] != truth[k]
  {
    hide Step, Finds, Owns, AllTimely, Timely, Found, RunAll, Start, FirstUpState, SecondUpState;
    var s1, s2 := FirstUpState(p, q), SecondUpState(p, q, id);
    var es := [Timeout(w), Appears(p, id, w), Appears(p, id', Stored)];
    FirstTimeout(p, q, w);
    FirstConnect(p, q, id, w);
    RunOfThree(Start(TwoPorts(p, q)), s1, s2, es[0], es[1], es[2]);
    TimeoutFindsNothing(Start(TwoPorts(p, q)), w);
    ReturnOfTwo(p, q, id, id');
    TimelyRunOfThree(Start(TwoPorts(p, q)), s1, s2, es[0], es[1], es[2]);
    TwoPortsConfigured(p, q);
    assert {} + {0} + {1} == {0, 1};
    SecondUpSlots(p, q, id);
  }

  lemma TimeoutFindsNothing(s: Ports, w: Written)
    ensures Timely(s, Timeout(w)) && Finds(s, Timeout(w)) == {}
  {
  }

  lemma SecondUpSlots(p: Path, q: Path, id: nat)
    ensures var s, g := SecondUpState(p, q, id), Groups(TwoPorts(p, q));
            |g| == 2 && s[0].slots == g[0] && s[1].slots == g[1] && (p != q ==> g[0] != g[1])
  {
    var g := Groups(TwoPorts(p, q));
    assert g[0][0] == Used(p) && g[1][0] == Used(q);
  }

  lemma TimelyRunOfThree(s: Ports, s1: Ports, s2: Ports, e: Event, f: Event, g: Event)
    requires Step(s, e) == Handled(s1) && Step(s1, f) == Handled(s2)
    requires Timely(s, e) && Timely(s1, f) && Timely(s2, g)
    ensures AllTimely(s, [e, f, g])
  {
    hide Step, Timely;
    assert [e, f, g][1..] == [f, g] && [f, g][1..] == [g] && [g][1..] == [];
    assert AllTimely(s2, [g]);
    assert AllTimely(s1, [f, g]);
  }

  lemma TwoPortsConfigured(p: Path, q: Path)
    requires p != q
    ensures Disjoint(TwoPorts(p, q)) && Configured(TwoPorts(p, q), Groups(TwoPorts(p, q)))
  {
    var s := TwoPorts(p, q);
    assert s[0].slots[0] == Used(p) && s[1].slots[0] == Used(q);
    assert s[0].slots[1] == Free && s[1].slots[1] == Free;
  }

  /** The device of the first pin is back while the second one is powered. */
  lemma ReturnOfTwo(p: Path, q: Path, id: nat, id': nat)
    requires p != q && id != id'
    ensures var s, e := SecondUpState(p, q, id), Appears(p, id', Stored);
            && Timely(s, e) && Finds(s, e) == {1} && Step(s, e).Handled?
            && Step(s, e).s[0].slots == s[1].slots && Step(s, e).s[1].slots == s[0].slots
  {
    hide Owns;
    var s := SecondUpState(p, q, id);
    PathOfTwo(s[0], s[1], p, q);
    assert s == [s[0], s[1]] && IsUp(s[1]);
    FirstOfTwo(s[0], s[1], v => IsUp(v));
    assert ActivePhase(s, 1);
    StepGood(s, Appears(p, id', Stored));
    ReconnectMisplaces(s, 1, p, id', 1, 1, false, Stored);
  }

  // ----- a port that is inserted twice -----

  /** Both pins show their device, and the mapping file exists already: the second port is
      put into the timeout list twice. */
  lemma DoubleInsertionRun(p: Path, q: Path, id: nat, id': nat, w: Written)
    requires p != q
    ensures RunAll(Start(TwoPorts(p, q)), [Timeout(w), Appears(p, id, w), Appears(q, id', LinkFailed)]).DoubleInsertion?
  {
    hide Step, Owns;
    var s, s1, s2 := Start(TwoPorts(p, q)), FirstUpState(p, q), SecondUpState(p, q, id);
    var e := Appears(q, id', LinkFailed);
    FirstTimeout(p, q, w);
    FirstConnect(p, q, id, w);
    RunOfThree(s, s1, s2, Timeout(w), Appears(p, id, w), e);
    PathOfTwo(s2[0], s2[1], p, q);
    assert s2 == [s2[0], s2[1]] && IsUp(s2[1]);
    assert ActivePhase(s2, 1);
    StepGood(s2, e);
  }

  lemma RunCons(s: Ports, e: Event, t: Ports, es: seq<Event>)
    requires Step(s, e) == Handled(t)
    ensures RunAll(s, [e] + es) == RunAll(t, es)
    ensures AllTimely(s, [e] + es) <==> Timely(s, e) && AllTimely(t, es)
  {
    hide Step, Timely;
    assert ([e] + es)[1..] == es;
  }

  /** The second pin has timed out, and its time to be switched off is over. */
  function LastOffState(p: Path, q: Path, id: nat): Ports {
    [SecondUpState(p, q, id)[0], Off(q, PROBE_DONE).(wait := GPIO_TIMEOUT_PROBE_DISABLE_SEC)]
  }

  lemma SecondTimeouts(p: Path, q: Path, id: nat, w: Written)
    ensures var s := SecondUpState(p, q, id);
            var t := [s[0], Arm(Off(q, PROBE_DOWN_2), GPIO_TIMEOUT_PROBE_DISABLE_SEC)];
            && Step(s, Timeout(w)) == Handled(t)
            && Step(t, Timeout(LinkFailed)) == WriteConfig(LastOffState(p, q, id), 1, LinkFailed)
  {
    hide WriteConfig;
    var s := SecondUpState(p, q, id);
    var d := Arm(Off(q, PROBE_DOWN_2), GPIO_TIMEOUT_PROBE_DISABLE_SEC);
    FirstOfTwo(s[0], s[1], v => ProbeTimer(v));
    assert s == [s[0], s[1]];
    FirstOfTwo(s[0], d, v => ProbeTimer(v));
    var l := LastOffState(p, q, id);
    FirstOfTwo(l[0], l[1], v => Waiting(v));
    assert [s[0], d][1 := d.(armed := false)][1 := l[1]] == l;
  }

  /** A timely run in which the second pin times out and `link` fails: a device that appears
      on it afterwards, before the port is restarted, inserts the port twice. */
  lemma LateDoubleInsertionRun(p: Path, q: Path, id: nat, id': nat, w: Written)
    requires p != q
    ensures var s := Start(TwoPorts(p, q));
            var es := [Timeout(w)] + ([Appears(p, id, w)] + ([Timeout(w)] + ([Timeout(LinkFailed)] + [Appears(q, id', w)])));
            AllTimely(s, es) && RunAll(s, es).DoubleInsertion?
  {
    hide Step, Owns, WriteConfig, FindPath, Start, LinkDoubles;
    var s1, s2, l := FirstUpState(p, q), SecondUpState(p, q, id), LastOffState(p, q, id);
    var s3 := [s2[0], Arm(Off(q, PROBE_DOWN_2), GPIO_TIMEOUT_PROBE_DISABLE_SEC)];
    FirstTimeout(p, q, w);
    FirstConnect(p, q, id, w);
    SecondTimeouts(p, q, id, w);
    AfterLinkFailure(l, 1);
    var r := WriteConfig(l, 1, LinkFailed).s;
    assert r == [r[0], r[1]] && r[0] == RestartOne(l[0]);
    PathOfTwo(r[0], r[1], p, q);
    LinkFailureDoubles(l, 1, q, id', 1, 1, false, w);
    JustEndedIsOn(r);
    var e := Appears(q, id', w);
    EndedReachesNot(r, e);
    LastEvent(r, e);
    RunCons(s3, Timeout(LinkFailed), r, [e]);
    RunCons(s2, Timeout(w), s3, [Timeout(LinkFailed)] + [e]);
    RunCons(s1, Appears(p, id, w), s2, [Timeout(w)] + ([Timeout(LinkFailed)] + [e]));
    RunCons(Start(TwoPorts(p, q)), Timeout(w), s1, [Appears(p, id, w)] + ([Timeout(w)] + ([Timeout(LinkFailed)] + [e])));
  }

  lemma LastEvent(s: Ports, e: Event)
    requires Timely(s, e) && !Step(s, e).Handled?
    ensures RunAll(s, [e]) == Step(s, e) && AllTimely(s, [e])
  {
    hide Step, Timely;
    assert [e][1..] == [];
  }

  // ----- ports in use -----

  /** A port after probing without a device: switched on again, nothing runs. */
  function On(p: Path): Port {
    Port(true, [Used(p), Free], 0, 0, false, NoDevice, true, true, IDLE, PROBE_DONE, false, GPIO_TIMEOUT_PROBE_DISABLE_SEC)
  }

  function ServingState(p: Path, q: Path): Ports { [On(p), On(q)] }

  lemma ThirdTimeout(p: Path, q: Path)
    ensures var s := [Arm(Off(p, PROBE_DOWN_2), GPIO_TIMEOUT_PROBE_DISABLE_SEC), FirstUpState(p, q)[1]];
            var t := [Off(p, PROBE_DONE).(wait := GPIO_TIMEOUT_PROBE_DISABLE_SEC), PowerUp(Off(q, PROBE_DOWN_DONE))];
            Step(s, Timeout(Stored)) == Handled(t)
  {
    var d, l := Arm(Off(p, PROBE_DOWN_2), GPIO_TIMEOUT_PROBE_DISABLE_SEC), FirstUpState(p, q)[1];
    var d1 := Off(p, PROBE_DONE).(wait := GPIO_TIMEOUT_PROBE_DISABLE_SEC);
    FirstOfTwo(d, l, v => ProbeTimer(v));
    FirstOfTwo(d1, l, v => Waiting(v));
    assert [d, l][0 := d.(armed := false)][0 := d1] == [d1, l];
    assert [d1, l][1 := PowerUp(l)] == [d1, PowerUp(Off(q, PROBE_DOWN_DONE))];
  }

  lemma LastTimeouts(p: Path, q: Path)
    ensures var d := Off(p, PROBE_DONE).(wait := GPIO_TIMEOUT_PROBE_DISABLE_SEC);
            var t, u := [d, PowerUp(Off(q, PROBE_DOWN_DONE))], [d, Arm(Off(q, PROBE_DOWN_2), GPIO_TIMEOUT_PROBE_DISABLE_SEC)];
            Step(t, Timeout(Stored)) == Handled(u) && Step(u, Timeout(Stored)) == Handled(ServingState(p, q))
  {
    var d, v := Off(p, PROBE_DONE).(wait := GPIO_TIMEOUT_PROBE_DISABLE_SEC), PowerUp(Off(q, PROBE_DOWN_DONE));
    var w := Arm(Off(q, PROBE_DOWN_2), GPIO_TIMEOUT_PROBE_DISABLE_SEC);
    var l := Off(q, PROBE_DONE).(wait := GPIO_TIMEOUT_PROBE_DISABLE_SEC);
    FirstOfTwo(d, v, x => ProbeTimer(x));
    FirstOfTwo(d, w, x => ProbeTimer(x));
    FirstOfTwo(d, l, x => Waiting(x));
    assert [d, w][1 := w.(armed := false)][1 := l] == [d, l];
    assert RestartAll([d, l]) == ServingState(p, q);
  }

  /** Two pins without devices: five timeouts lead from the start to ports in use. */
  lemma ServingRun(p: Path, q: Path, es: seq<Event>)
    ensures var s, t := Start(TwoPorts(p, q)), Timeout(Stored);
            var all := [t] + ([t] + ([t] + ([t] + ([t] + es))));
            && RunAll(s, all) == RunAll(ServingState(p, q), es)
            && (AllTimely(s, all) <==> AllTimely(ServingState(p, q), es))
  {
    hide Step, Start, ServingState;
    var s, t := Start(TwoPorts(p, q)), Timeout(Stored);
    var s1 := FirstUpState(p, q);
    var s2 := [Arm(Off(p, PROBE_DOWN_2), GPIO_TIMEOUT_PROBE_DISABLE_SEC), s1[1]];
    var d := Off(p, PROBE_DONE).(wait := GPIO_TIMEOUT_PROBE_DISABLE_SEC);
    var s3, s4 := [d, PowerUp(Off(q, PROBE_DOWN_DONE))], [d, Arm(Off(q, PROBE_DOWN_2), GPIO_TIMEOUT_PROBE_DISABLE_SEC)];
    FirstTimeout(p, q, Stored);
    UpTimeoutOfTwo(p, q, Stored);
    ThirdTimeout(p, q);
    LastTimeouts(p, q);
    RunCons(s4, t, ServingState(p, q), es);
    RunCons(s3, t, s4, [t] + es);
    RunCons(s2, t, s3, [t] + ([t] + es));
    RunCons(s1, t, s2, [t] + ([t] + ([t] + es)));
    RunCons(s, t, s1, [t] + ([t] + ([t] + ([t] + es))));
  }

  /** The first of two ports in use with device `id`; `armed` says that its timer runs. */
  function PingedState(p: Path, q: Path, id: nat, armed: bool): Ports {
    [On(p).(vid := 1, pid := 1, connected := true, dev := Device(id), msgMode := PING, armed := armed, wait := ADDED_TIMEOUT_SEC),
     On(q)]
  }

  lemma PingSteps(p: Path, q: Path, id: nat, w: Written)
    requires p != q
    ensures var s, t, u := ServingState(p, q), PingedState(p, q, id, true), PingedState(p, q, id, false);
            && Step(s, Appears(p, id, w)) == Handled(t) && Timely(s, Appears(p, id, w))
            && Step(t, Expire(0, true)) == Handled(u)
            && Step(u, Pinged(0, TooMany(false))).DoubleInsertion?
            && Step(t, Pinged(0, Again)).DoubleInsertion?
            && Step(t, Appears(p, id + 1, w)).DoubleInsertion? && Timely(t, Appears(p, id + 1, w))
  {
    var s, t, u := ServingState(p, q), PingedState(p, q, id, true), PingedState(p, q, id, false);
    PathOfTwo(s[0], s[1], p, q);
    PathOfTwo(t[0], t[1], p, q);
    assert s == [s[0], s[1]] && t == [t[0], t[1]];
    assert s[0 := t[0]] == t && t[0 := u[0]] == u;
  }

  /** A ping fails too often, and the restart of its port cannot be written. */
  lemma FailedRestartRun(p: Path, q: Path, id: nat, w: Written)
    requires p != q
    ensures var es := [Appears(p, id, w)] + ([Expire(0, true)] + [Pinged(0, TooMany(false))]);
            AllTimely(ServingState(p, q), es) && RunAll(ServingState(p, q), es).DoubleInsertion?
  {
    hide Step, ServingState, PingedState;
    var s, t, u := ServingState(p, q), PingedState(p, q, id, true), PingedState(p, q, id, false);
    PingSteps(p, q, id, w);
    LastEvent(u, Pinged(0, TooMany(false)));
    RunCons(t, Expire(0, true), u, [Pinged(0, TooMany(false))]);
    RunCons(s, Appears(p, id, w), t, [Expire(0, true)] + [Pinged(0, TooMany(false))]);
  }

  /** A ping is under way while its device goes and comes back. */
  lemma LatePingRun(p: Path, q: Path, id: nat, w: Written)
    requires p != q
    ensures var es := [Appears(p, id, w)] + ([Expire(0, true)] + ([Remove(p)] + ([Appears(p, id, w)] + [Pinged(0, Again)])));
            AllTimely(ServingState(p, q), es) && RunAll(ServingState(p, q), es).DoubleInsertion?
  {
    hide Step, ServingState, PingedState;
    var s, t, u := ServingState(p, q), PingedState(p, q, id, true), PingedState(p, q, id, false);
    PingSteps(p, q, id, w);
    GoneAndBack(p, q, id, w);
    var v := OnRemove(u, p);
    LastEvent(t, Pinged(0, Again));
    RunCons(v, Appears(p, id, w), t, [Pinged(0, Again)]);
    RunCons(u, Remove(p), v, [Appears(p, id, w)] + [Pinged(0, Again)]);
    RunCons(t, Expire(0, true), u, [Remove(p)] + ([Appears(p, id, w)] + [Pinged(0, Again)]));
    RunCons(s, Appears(p, id, w), t, [Expire(0, true)] + ([Remove(p)] + ([Appears(p, id, w)] + [Pinged(0, Again)])));
  }

  lemma GoneAndBack(p: Path, q: Path, id: nat, w: Written)
    requires p != q
    ensures var t, u := PingedState(p, q, id, true), PingedState(p, q, id, false);
            var v := OnRemove(u, p);
            && Step(u, Remove(p)) == Handled(v) && Timely(v, Appears(p, id, w)) && Step(v, Appears(p, id, w)) == Handled(t)
  {
    var t, u := PingedState(p, q, id, true), PingedState(p, q, id, false);
    PathOfTwo(u[0], u[1], p, q);
    assert u == [u[0], u[1]];
    var v := [ResetPort(u[0]), u[1]];
    assert OnRemove(u, p) == v;
    PathOfTwo(v[0], v[1], p, q);
    assert v[0 := t[0]] == t;
  }

  /** A client restarts a port, disables it and enables it again before the restart is over;
      its device then inserts the port twice. */
  lemma RequestsRun(p: Path, q: Path, id: nat, w: Written)
    requires p != q
    ensures var es := [Request(p, CMD_RESTART, true)] + ([Request(p, CMD_DISABLE, true)] +
                      ([Request(p, CMD_ENABLE, true)] + [Appears(p, id, w)]));
            AllTimely(ServingState(p, q), es) && RunAll(ServingState(p, q), es).DoubleInsertion?
  {
    hide Step, ServingState, FindPath;
    var s := ServingState(p, q);
    var s1, s2, s3, e := Switched(p, q, 1), Switched(p, q, 2), Switched(p, q, 3), Appears(p, id, w);
    SwitchSteps(p, q, id, w);
    LastEvent(s3, e);
    RunCons(s2, Request(p, CMD_ENABLE, true), s3, [e]);
    RunCons(s1, Request(p, CMD_DISABLE, true), s2, [Request(p, CMD_ENABLE, true)] + [e]);
    RunCons(s, Request(p, CMD_RESTART, true), s1, [Request(p, CMD_DISABLE, true)] + ([Request(p, CMD_ENABLE, true)] + [e]));
  }

  /** The first port after so many of these requests. */
  function Switched(p: Path, q: Path, n: nat): Ports {
    var v := Arm(On(p).(msgMode := RESET, pwr := false), GPIO_TIMEOUT_SLEEP_SEC);
    [if n == 1 then v else if n == 2 then v.(enabled := false, msgMode := IDLE) else v.(pwr := true, msgMode := IDLE), On(q)]
  }

  lemma SwitchSteps(p: Path, q: Path, id: nat, w: Written)
    requires p != q
    ensures var s, s1, s2, s3 := ServingState(p, q), Switched(p, q, 1), Switched(p, q, 2), Switched(p, q, 3);
            && Step(s, Request(p, CMD_RESTART, true)) == Handled(s1)
            && Step(s1, Request(p, CMD_DISABLE, true)) == Handled(s2)
            && Step(s2, Request(p, CMD_ENABLE, true)) == Handled(s3)
            && Timely(s3, Appears(p, id, w)) && Step(s3, Appears(p, id, w)).DoubleInsertion?
  {
    var s, s1, s2, s3 := ServingState(p, q), Switched(p, q, 1), Switched(p, q, 2), Switched(p, q, 3);
    PathOfTwo(s[0], s[1], p, q);
    PathOfTwo(s1[0], s1[1], p, q);
    PathOfTwo(s2[0], s2[1], p, q);
    PathOfTwo(s3[0], s3[1], p, q);
    assert s == [s[0], s[1]] && s1 == [s1[0], s1[1]] && s2 == [s2[0], s2[1]] && s3 == [s3[0], s3[1]];
    assert s[0 := s1[0]] == s1 && s1[0 := s2[0]] == s2 && s2[0 := s3[0]] == s3;
  }
}
