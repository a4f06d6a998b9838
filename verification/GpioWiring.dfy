/** Probing recovers the true wiring between pins and USB paths. */
module GpioWiring {
  import opened GpioModel
  import opened GpioProbe

  /** `truth[k]` is the path array that pin `k` really powers. */
  type Wiring = seq<seq<Slot>>

  /** No path is listed twice. */
  ghost predicate Disjoint(s: Ports) {
    forall i, j, p: Path | 0 <= i < |s| && 0 <= j < |s| && Owns(s[i], p) && Owns(s[j], p) :: i == j
  }

  /** The path array is configured on some GPIO port. */
  ghost predicate Known(s: Ports, slots: seq<Slot>) {
    exists j | 0 <= j < |s| :: s[j].isGpio && s[j].slots == slots
  }

  /** Every true path array is configured on some GPIO port, and no two pins share one. */
  ghost predicate Configured(s: Ports, truth: Wiring) {
    && |truth| == |s|
    && (forall k {:trigger truth[k]} | 0 <= k < |truth| && s[k].isGpio :: Known(s, truth[k]))
    && (forall k, l {:trigger truth[k], truth[l]} |
          0 <= k < |truth| && 0 <= l < |truth| && s[k].isGpio && s[l].isGpio && k != l :: truth[k] != truth[l])
  }

  /** A device that appears while pin `a` is powered appears on a path of that pin. */
  ghost predicate Truthful(s: Ports, e: Event, truth: Wiring) {
    e.Connect? && Reaches(s, e.path, e.id) ==>
      exists a | 0 <= a < |s| && a < |truth| :: IsUp(s[a]) && Lists(truth[a], e.path)
  }

  ghost predicate AllTruthful(s: Ports, es: seq<Event>, truth: Wiring)
    decreases |es|
  {
    es != [] ==> Truthful(s, es[0], truth) && (Step(s, es[0]).Handled? ==> AllTruthful(Step(s, es[0]).s, es[1..], truth))
  }

  /** The pin whose device a step finds. */
  ghost function Finds(s: Ports, e: Event): set<nat> {
    if e.Connect? && Reaches(s, e.path, e.id) then {First(s, v => IsUp(v))} else {}
  }

  /** The pins whose devices appear during a run. */
  ghost function Found(s: Ports, es: seq<Event>): set<nat>
    decreases |es|
  {
    if es == [] then {}
    else Finds(s, es[0]) + if Step(s, es[0]).Handled? then Found(Step(s, es[0]).s, es[1..]) else {}
  }

  /** The pins in `found` have been probed and own their true paths. */
  ghost predicate Placed(s: Ports, truth: Wiring, found: set<nat>) {
    |truth| == |s| && forall k <- found :: k < |s| && s[k].isGpio && Probed(s[k]) && s[k].slots == truth[k]
  }

  function Groups(s: Ports): (g: seq<seq<Slot>>)
    ensures |g| == |s|
  {
    seq(|s|, i requires 0 <= i < |s| => s[i].slots)
  }

  // ----- steps that leave the paths alone -----

  lemma SameKnown(s: Ports, r: Ports, slots: seq<Slot>)
    requires |r| == |s| && (forall i | 0 <= i < |s| :: r[i].slots == s[i].slots && r[i].isGpio == s[i].isGpio)
    requires Known(s, slots)
    ensures Known(r, slots)
  {
    var j :| 0 <= j < |s| && s[j].isGpio && s[j].slots == slots;
    assert r[j].isGpio && r[j].slots == slots;
  }

  lemma SameConfigured(s: Ports, r: Ports, truth: Wiring)
    requires |r| == |s| && (forall i | 0 <= i < |s| :: r[i].slots == s[i].slots && r[i].isGpio == s[i].isGpio)
    requires Disjoint(s) && Configured(s, truth)
    ensures Disjoint(r) && Configured(r, truth)
  {
    hide Known;
    forall k | 0 <= k < |truth| && r[k].isGpio ensures Known(r, truth[k]) {
      SameKnown(s, r, truth[k]);
    }
    forall i, j, p: Path | 0 <= i < |r| && 0 <= j < |r| && Owns(r[i], p) && Owns(r[j], p) ensures i == j {
      assert Owns(s[i], p) && Owns(s[j], p);
    }
  }

  lemma SameSlotsKeep(s: Ports, r: Ports, truth: Wiring, found: set<nat>)
    requires SameSlots(s, r) && AllMove(s, r)
    requires Disjoint(s) && Configured(s, truth) && Placed(s, truth, found)
    ensures Disjoint(r) && Configured(r, truth) && Placed(r, truth, found)
    ensures Groups(r) == Groups(s)
  {
    forall i | 0 <= i < |s| ensures r[i].isGpio == s[i].isGpio && (s[i].isGpio && Probed(s[i]) ==> Probed(r[i])) {
      assert Moves(s[i], r[i]);
    }
    hide Disjoint, Configured, Moves;
    SameConfigured(s, r, truth);
  }

  // ----- the swap -----

  lemma SwapGroups(s: Ports, m: nat, u: nat)
    requires m < |s| && u < |s| && m != u
    ensures multiset(Groups(Swap(s, m, u))) == multiset(Groups(s))
  {
    var g, h := Groups(s), Groups(Swap(s, m, u));
    assert h == g[u := g[m]][m := g[u]];
    assert multiset(g[u := g[m]]) == multiset(g) - multiset{g[u]} + multiset{g[m]};
    assert multiset(h) == multiset(g[u := g[m]]) - multiset{g[m]} + multiset{g[u]};
  }

  lemma SwapKnown(s: Ports, m: nat, u: nat, slots: seq<Slot>)
    requires m < |s| && u < |s| && m != u && s[m].isGpio && s[u].isGpio && Known(s, slots)
    ensures Known(Swap(s, m, u), slots)
  {
    var r := Swap(s, m, u);
    var j :| 0 <= j < |s| && s[j].isGpio && s[j].slots == slots;
    var j' := if j == m then u else if j == u then m else j;
    assert r[j'].isGpio && r[j'].slots == slots;
  }

  lemma SwapConfigured(s: Ports, m: nat, u: nat, truth: Wiring)
    requires m < |s| && u < |s| && m != u && s[m].isGpio && s[u].isGpio
    requires Disjoint(s) && Configured(s, truth)
    ensures Disjoint(Swap(s, m, u)) && Configured(Swap(s, m, u), truth)
  {
    hide Known;
    var r := Swap(s, m, u);
    forall k | 0 <= k < |truth| && r[k].isGpio ensures Known(r, truth[k]) {
      SwapKnown(s, m, u, truth[k]);
    }
    forall i, j, p: Path | 0 <= i < |r| && 0 <= j < |r| && Owns(r[i], p) && Owns(r[j], p) ensures i == j {
      var i' := if i == m then u else if i == u then m else i;
      var j' := if j == m then u else if j == u then m else j;
      assert Owns(s[i'], p) && Owns(s[j'], p);
    }
  }

  lemma SwapKeeps(s: Ports, m: nat, u: nat, truth: Wiring, found: set<nat>)
    requires m < |s| && u < |s| && m != u && s[m].isGpio && s[u].isGpio
    requires Disjoint(s) && Configured(s, truth) && Placed(s, truth, found)
    requires u !in found && s[m].slots == truth[u]
    ensures var r := Swap(s, m, u);
            Disjoint(r) && Configured(r, truth) && Placed(r, truth, found) && r[u].slots == truth[u]
  {
    SwapConfigured(s, m, u, truth);
    hide Disjoint, Known;
    assert truth[m] != truth[u];
    assert m !in found;
  }

  /** The port that lists the path of the event lists all true paths of the powered pin. */
  lemma OwnerHasTruth(s: Ports, truth: Wiring, a: nat, p: Path)
    requires Disjoint(s) && Configured(s, truth) && a < |s| && s[a].isGpio && Lists(truth[a], p)
    ensures FindPath(s, p) < |s| && s[FindPath(s, p)].isGpio && s[FindPath(s, p)].slots == truth[a]
  {
    assert Known(s, truth[a]);
    hide Lists, Configured;
    var j :| 0 <= j < |s| && s[j].isGpio && s[j].slots == truth[a];
    assert Owns(s[j], p);
    var m := FindPath(s, p);
    assert Owns(s[m], p);
  }

  lemma AdvanceKeeps(s: Ports, i: nat, w: Written, truth: Wiring, found: set<nat>)
    requires i < |s| && s[i].isGpio && Between(s[i := s[i].(probe := PROBE_DONE)]) && !Pending(s[i])
    requires Disjoint(s) && Configured(s, truth) && Placed(s, truth, found) && s[i].slots == truth[i]
    requires Advance(s, i, w).Handled?
    ensures var r := Advance(s, i, w).s;
            Disjoint(r) && Configured(r, truth) && Placed(r, truth, found + {i}) && Groups(r) == Groups(s)
  {
    hide Advance, Moves, Disjoint, Configured;
    AdvanceMoves(s, i, w);
    SameSlotsKeep(s, Advance(s, i, w).s, truth, found);
    AdvanceProbes(s, i, w);
  }

  lemma AdvanceProbes(s: Ports, i: nat, w: Written)
    requires i < |s| && s[i].isGpio && Between(s[i := s[i].(probe := PROBE_DONE)]) && !Pending(s[i])
    requires Advance(s, i, w).Handled?
    ensures Probed(Advance(s, i, w).s[i]) && Advance(s, i, w).s[i].isGpio
  {
    hide EnableNext, WriteConfig, Moves;
    var s1 := s[i := s[i].(probe := PROBE_DONE)];
    EnableNextMoves(s1);
    EnableNextBetween(s1);
    if !EnableNext(s1).1 {
      WriteConfigMoves(s1, i, w);
    }
    ProbedStays(s1[i], Advance(s, i, w).s[i]);
  }

  /** The heart of the matter: when the device of the powered pin `a` shows up on a path
      listed by port `m`, exchanging the path arrays of the two ports gives `a` its true
      paths and takes none away from a port that has found its own already. */
  lemma ConnectPlaces(s: Ports, a: nat, m: nat, w: Written, truth: Wiring, found: set<nat>)
    requires a < |s| && ActivePhase(s, a) && s[a].probe == PROBE_UP && m < |s| && s[m].isGpio
    requires Disjoint(s) && Configured(s, truth) && Placed(s, truth, found) && s[m].slots == truth[a]
    requires HandleConnect(s, m, w).Handled?
    ensures var r := HandleConnect(s, m, w);
            && Disjoint(r.s) && Configured(r.s, truth) && Placed(r.s, truth, found + {a})
            && multiset(Groups(r.s)) == multiset(Groups(s))
  {
    hide Advance, Disjoint, Configured, Owns;
    assert a !in found;
    if m == a {
      var t := s[m := s[m].(armed := false)];
      SameButTimer(s, m, truth, found);
      AdvanceKeeps(t, m, w, truth, found);
    } else {
      FirstUp(s, a);
      SwapKeeps(s, m, a, truth, found);
      SwapGroups(s, m, a);
      SwapDescends(s, a, m);
      var s1 := Swap(s, m, a);
      SameButTimer(s1, a, truth, found);
      AdvanceKeeps(s1[a := s1[a].(armed := false)], a, w, truth, found);
    }
  }

  lemma SameButTimer(s: Ports, i: nat, truth: Wiring, found: set<nat>)
    requires i < |s| && Disjoint(s) && Configured(s, truth) && Placed(s, truth, found)
    ensures var t := s[i := s[i].(armed := false)];
            Disjoint(t) && Configured(t, truth) && Placed(t, truth, found) && Groups(t) == Groups(s)
  {
    hide Disjoint, Configured;
    var t := s[i := s[i].(armed := false)];
    SameSlotsKeep(s, t, truth, found);
  }

  lemma SameButDevice(s: Ports, i: nat, v: Port, truth: Wiring, found: set<nat>)
    requires i < |s| && Disjoint(s) && Configured(s, truth) && Placed(s, truth, found)
    requires v == s[i].(vid := v.vid, pid := v.pid, connected := v.connected, dev := v.dev)
    ensures var t := s[i := v];
            Disjoint(t) && Configured(t, truth) && Placed(t, truth, found) && Groups(t) == Groups(s)
  {
    hide Disjoint, Configured;
    var t := s[i := v];
    SameSlotsKeep(s, t, truth, found);
  }

  lemma StepPlaces(s: Ports, e: Event, truth: Wiring, found: set<nat>)
    requires Good(s) && Truthful(s, e, truth)
    requires Disjoint(s) && Configured(s, truth) && Placed(s, truth, found)
    ensures Timely(s, e)
    ensures var r := Step(s, e);
            && !r.NullDereference?
            && (r.Handled? ==>
                  && Good(r.s) && Disjoint(r.s) && Configured(r.s, truth)
                  && Placed(r.s, truth, found + Finds(s, e))
                  && multiset(Groups(r.s)) == multiset(Groups(s)))
  {
    hide OnTimeout, OnConnect, Ended, Disjoint, Configured, First, FindPath, Owns, Lists, DownPhase, Reaches, DoublesUp, OnRemove;
    hide OnPinged, OnExpire, OnRequest, OnResetAll, AllMove, SameSlots;
    StepGood(s, e);
    if Ended(s) {
      EndedStep(s, e);
      if e.Connect? {
        EndedReachesNot(s, e);
      }
      if Step(s, e).Handled? {
        RunOnMoves(s, Step(s, e).s);
        SameSlotsKeep(s, Step(s, e).s, truth, found);
      }
    } else {
      var a :| 0 <= a < |s| && (DownPhase(s, a) || ActivePhase(s, a));
      PhaseInProbe(s, a);
      if e.Timeout? {
        TimerIsTheOne(s, a);
        TimeoutMoves(s, a, e.w);
        if Step(s, e).Handled? {
          SameSlotsKeep(s, Step(s, e).s, truth, found);
        }
      } else if e.Connect? {
        if !Reaches(s, e.path, e.id) {
          UnreachedConnect(s, e);
        } else if Step(s, e).Handled? {
          TruthfulConnectPlaces(s, e, a, truth, found);
        }
      } else if e.Remove? {
        RemoveMoves(s, e.path);
        SameSlotsKeep(s, Step(s, e).s, truth, found);
      } else {
        InProbeQuiet(s, e);
      }
    }
  }

  lemma TruthfulConnectPlaces(s: Ports, e: Event, a: nat, truth: Wiring, found: set<nat>)
    requires a < |s| && (DownPhase(s, a) || ActivePhase(s, a))
    requires e.Connect? && Reaches(s, e.path, e.id) && Truthful(s, e, truth)
    requires Disjoint(s) && Configured(s, truth) && Placed(s, truth, found)
    requires Step(s, e).Handled?
    ensures var r := Step(s, e);
            && Disjoint(r.s) && Configured(r.s, truth)
            && Placed(r.s, truth, found + Finds(s, e))
            && multiset(Groups(r.s)) == multiset(Groups(s))
  {
    hide HandleConnect, Disjoint, Configured, FindPath, Owns, Lists, OnAdded;
    var u :| 0 <= u < |s| && u < |truth| && IsUp(s[u]) && Lists(truth[u], e.path);
    UpIsActive(s, a, u);
    FirstUp(s, a);
    OwnerHasTruth(s, truth, a, e.path);
    var m := FindPath(s, e.path);
    var v := WithDevice(s[m], e.id, e.vid, e.pid);
    DeviceKeepsPhase(s, a, m, v);
    SameButDevice(s, m, v, truth, found);
    ConnectPlaces(s[m := v], a, m, e.w, truth, found);
  }

  lemma {:induction false} RunPlaces(s: Ports, es: seq<Event>, truth: Wiring, found: set<nat>)
    requires Good(s) && AllTruthful(s, es, truth)
    requires Disjoint(s) && Configured(s, truth) && Placed(s, truth, found)
    ensures var r := RunAll(s, es);
            && !r.NullDereference? && (r.Handled? <==> NeverDoubles(s, es))
            && (r.Handled? ==>
                  && Good(r.s) && Placed(r.s, truth, found + Found(s, es))
                  && multiset(Groups(r.s)) == multiset(Groups(s)))
    decreases |es|
  {
    hide Good, Disjoint, Configured, Placed, Step, Truthful, Finds, DoublesUp;
    if es == [] {
      assert found + Found(s, es) == found;
    } else {
      StepPlaces(s, es[0], truth, found);
      StepGood(s, es[0]);
      if Step(s, es[0]).Handled? {
        var t := Step(s, es[0]).s;
        RunPlaces(t, es[1..], truth, found + Finds(s, es[0]));
        assert (found + Finds(s, es[0])) + Found(t, es[1..]) == found + Found(s, es);
      }
    }
  }

  /** Probing recovers the true wiring.  Whatever the configured order of the path arrays
      was, whichever pins time out and whenever devices disappear: at every point of a run
      each port whose device has appeared owns its true path array, and the path arrays as
      a whole are only ever permuted.  (The run goes on until an event inserts a port twice
      into the timeout list.) */
  lemma WiringRecovered(s: Ports, es: seq<Event>, truth: Wiring)
    requires exists i :: 0 <= i < |s| && s[i].isGpio
    requires Disjoint(s) && Configured(s, truth) && AllTruthful(Start(s), es, truth)
    ensures var r := RunAll(Start(s), es);
            && !r.NullDereference? && (r.Handled? <==> NeverDoubles(Start(s), es))
            && (r.Handled? ==>
                  && Good(r.s) && |r.s| == |s|
                  && (forall k <- Found(Start(s), es) :: k < |s| && r.s[k].slots == truth[k])
                  && multiset(Groups(r.s)) == multiset(Groups(s)))
  {
    hide Good, Step, Disjoint, Configured, DownPhase;
    StartGood(s);
    var t := Start(s);
    StartIsGood(t);
    StartKeeps(s, truth);
    RunPlaces(t, es, truth, {});
    assert {} + Found(t, es) == Found(t, es);
  }

  lemma StartIsGood(t: Ports)
    requires exists a | 0 <= a < |t| :: DownPhase(t, a)
    ensures Good(t)
  {
  }

  lemma StartKeeps(s: Ports, truth: Wiring)
    requires Disjoint(s) && Configured(s, truth)
    ensures Disjoint(Start(s)) && Configured(Start(s), truth) && Placed(Start(s), truth, {})
    ensures Groups(Start(s)) == Groups(s)
  {
    hide Disjoint, Configured;
    var r := Start(s);
    assert forall i | 0 <= i < |s| :: r[i].slots == s[i].slots && r[i].isGpio == s[i].isGpio;
    SameConfigured(s, r, truth);
    ConfiguredLength(s, truth);
  }

  lemma ConfiguredLength(s: Ports, truth: Wiring)
    requires Configured(s, truth)
    ensures |truth| == |s|
  {
  }

  /** The assumption that only the device of the powered pin appears is needed: a device
      that comes back on a path of another port `m`, which owned its true paths, makes
      that port lose them. */
  lemma ReconnectMisplaces(s: Ports, a: nat, p: Path, id: nat, vid: nat, pid: nat, bad: bool, w: Written)
    requires a < |s| && ActivePhase(s, a) && s[a].probe == PROBE_UP && Reaches(s, p, id)
    requires OnConnect(s, p, id, vid, pid, bad, w).Handled?
    ensures var m, r := FindPath(s, p), OnConnect(s, p, id, vid, pid, bad, w);
            && r.s[m].slots == s[a].slots && r.s[a].slots == s[m].slots
            && (forall k | 0 <= k < |s| && k != a && k != m :: r.s[k].slots == s[k].slots)
            && (r.s[m].slots == s[m].slots <==> m == a || s[a].slots == s[m].slots)
  {
    hide Advance, Lists;
    var m := FindPath(s, p);
    var v := WithDevice(s[m], id, vid, pid);
    var t := s[m := v];
    DeviceKeepsPhase(s, a, m, v);
    if m == a {
      AdvanceMoves(t[m := t[m].(armed := false)], m, w);
    } else {
      FirstUp(t, a);
      SwapDescends(t, a, m);
      var s1 := Swap(t, m, a);
      AdvanceMoves(s1[a := s1[a].(armed := false)], a, w);
    }
  }

  /** When all but at most one pin have found their device, the whole mapping is right:
      the last path array is what remains. */
  lemma AllButOneIsEnough(g: seq<seq<Slot>>, truth: Wiring, k: nat)
    requires |g| == |truth| && k < |g| && multiset(g) == multiset(truth)
    requires forall i | 0 <= i < |g| && i != k :: g[i] == truth[i]
    ensures g == truth
  {
    assert g == truth[k := g[k]];
    assert multiset(g) == multiset(truth) - multiset{truth[k]} + multiset{g[k]};
    assert multiset(g)[g[k]] == multiset(truth)[g[k]];
  }

  /** With GPIO ports only and a configuration that lists each true path array once: as
      soon as all pins but at most one have shown their device, the mapping is the truth. */
  lemma MappingComplete(s: Ports, es: seq<Event>, truth: Wiring, k: nat)
    requires k < |s| && (forall i | 0 <= i < |s| :: s[i].isGpio)
    requires Disjoint(s) && Configured(s, truth) && AllTruthful(Start(s), es, truth)
    requires multiset(truth) == multiset(Groups(s))
    requires forall i | 0 <= i < |s| && i != k :: i in Found(Start(s), es)
    requires NeverDoubles(Start(s), es)
    ensures RunAll(Start(s), es).Handled? && Groups(RunAll(Start(s), es).s) == truth
  {
    hide Disjoint, Configured, AllTruthful, Found, Good, NeverDoubles;
    assert s[k].isGpio;
    WiringRecovered(s, es, truth);
    ConfiguredLength(s, truth);
    AllButOneIsEnough(Groups(RunAll(Start(s), es).s), truth, k);
  }
}
