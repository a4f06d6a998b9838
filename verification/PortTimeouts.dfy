/** The sweep over the ports whose timeout has expired. */
module PortTimeouts {
  import opened Lists

  /** `timeout_expire`, `enabled` and whether `msg_mode` is PROBE */
  datatype PortData = PortData(expire: nat, enabled: bool, probing: bool)

  type Port = Node<nat, PortData> // the number is only a name

  type Datas = map<Port, PortData>

  /** What a timeout handler does to ports: it starts a timeout, or changes a port's state. */
  datatype Action =
    | Start(port: Port, expire: nat)
    | SetEnabled(port: Port, enabled: bool)
    | SetProbing(port: Port, probing: bool)

  /** Calls of handlers: what the k-th one does. */
  type Calls = nat -> seq<Action>

  // ----- the sweep on values -----

  /** The list while it is walked: ports that handlers have put at its head, and ports that
      have been passed; the ports whose handler has been called; and the fields of all. */
  datatype Sweep = Sweep(added: seq<Port>, kept: seq<Port>, called: seq<Port>, datas: Datas)

  function Act(s: Sweep, a: Action): Sweep {
    if a.port !in s.datas then s
    else
      var d := s.datas[a.port];
      match a
      case Start(p, e) => s.(added := [p] + s.added, datas := s.datas[p := d.(expire := e)])
      case SetEnabled(p, b) => s.(datas := s.datas[p := d.(enabled := b)])
      case SetProbing(p, b) => s.(datas := s.datas[p := d.(probing := b)])
  }

  /** A timeout that is started puts its port first and sets its expiry; nothing else moves a
      port. */
  lemma ActExactly(s: Sweep, a: Action)
    requires a.port in s.datas
    ensures var t := Act(s, a);
            && t.kept == s.kept && t.called == s.called && t.datas.Keys == s.datas.Keys
            && t.added == (if a.Start? then [a.port] + s.added else s.added)
            && t.datas[a.port].expire == (if a.Start? then a.expire else s.datas[a.port].expire)
            && t.datas[a.port].enabled == (if a.SetEnabled? then a.enabled else s.datas[a.port].enabled)
            && t.datas[a.port].probing == (if a.SetProbing? then a.probing else s.datas[a.port].probing)
            && forall q | q in s.datas && q != a.port :: t.datas[q] == s.datas[q]
  {
  }

  function Acts(s: Sweep, acts: seq<Action>): Sweep {
    if acts == [] then s else Act(Acts(s, acts[..|acts| - 1]), acts[|acts| - 1])
  }

  predicate Expired(d: PortData, now: nat) { now >= d.expire }

  /** The guard before the handler is called. */
  predicate Ready(d: PortData) { d.enabled || d.probing }

  function Visit(s: Sweep, p: Port, now: nat, calls: Calls): Sweep {
    if p !in s.datas then s
    else if !Expired(s.datas[p], now) then s.(kept := s.kept + [p])
    else if Ready(s.datas[p]) then Acts(s.(called := s.called + [p]), calls(|s.called|))
    else s
  }

  function Swept(ports: seq<Port>, datas: Datas, now: nat, calls: Calls): Sweep {
    if ports == [] then Sweep([], [], [], datas)
    else Visit(Swept(ports[..|ports| - 1], datas, now, calls), ports[|ports| - 1], now, calls)
  }

  /** A handler may start the timeout of a port that is in the list neither before nor behind
      the walk; `rest` is the part not yet walked. */
  predicate ActOk(s: Sweep, rest: seq<Port>, a: Action) {
    a.port in s.datas && (a.Start? ==> a.port !in s.added + s.kept + rest)
  }

  ghost predicate ActsOk(s: Sweep, rest: seq<Port>, acts: seq<Action>) {
    forall j | 0 <= j < |acts| :: ActOk(Acts(s, acts[..j]), rest, acts[j])
  }

  ghost predicate CallOk(ports: seq<Port>, datas: Datas, now: nat, calls: Calls, i: nat)
    requires i < |ports|
  {
    var s := Swept(ports[..i], datas, now, calls);
    ports[i] in s.datas && Expired(s.datas[ports[i]], now) && Ready(s.datas[ports[i]]) ==>
      ActsOk(s.(called := s.called + [ports[i]]), ports[i + 1..], calls(|s.called|))
  }

  ghost predicate WellBehaved(ports: seq<Port>, datas: Datas, now: nat, calls: Calls) {
    forall i | 0 <= i < |ports| :: CallOk(ports, datas, now, calls, i)
  }

  // ----- the walk -----

  ghost function DatasOf(all: set<Port>): Datas
    reads all
  {
    map p | p in all :: p.data
  }

  ghost predicate Within(list: List<nat, PortData>, all: set<Port>)
    reads list
  {
    forall p | p in list.nodes :: p in all
  }

  /** `usb_monitor_lists_add_timeout`, after the expiry has been set. */
  method AddTimeout(list: List<nat, PortData>, p: Port, expire: nat)
    requires list.Valid() && p !in list.nodes
    modifies list, p, list.nodes`prev
    ensures list.Valid() && list.nodes == [p] + old(list.nodes)
    ensures p.data == old(p.data).(expire := expire)
  {
    p.data := p.data.(expire := expire);
    list.InsertHead(p);
  }

  /** A timeout handler. */
  method Handler(list: List<nat, PortData>, acts: seq<Action>, ghost s: Sweep, ghost rest: seq<Port>, ghost all: set<Port>)
    requires list.Valid() && Within(list, all)
    requires list.nodes == s.added + s.kept + rest && s.datas == DatasOf(all) && ActsOk(s, rest, acts)
    modifies list, all
    ensures list.Valid() && Within(list, all)
    ensures list.nodes == Acts(s, acts).added + Acts(s, acts).kept + rest && Acts(s, acts).datas == DatasOf(all)
  {
    hide ActOk;
    for j := 0 to |acts|
      invariant list.Valid() && Within(list, all)
      invariant list.nodes == Acts(s, acts[..j]).added + Acts(s, acts[..j]).kept + rest
      invariant Acts(s, acts[..j]).datas == DatasOf(all)
    {
      ghost var t := Acts(s, acts[..j]);
      assert acts[..j + 1][..j] == acts[..j] && acts[..j + 1][j] == acts[j];
      DoAction(list, acts[j], t, rest, all);
    }
    assert acts[..|acts|] == acts;
  }

  method DoAction(list: List<nat, PortData>, a: Action, ghost s: Sweep, ghost rest: seq<Port>, ghost all: set<Port>)
    requires list.Valid() && Within(list, all)
    requires list.nodes == s.added + s.kept + rest && s.datas == DatasOf(all) && ActOk(s, rest, a)
    modifies list, all
    ensures list.Valid() && Within(list, all)
    ensures list.nodes == Act(s, a).added + Act(s, a).kept + rest && Act(s, a).datas == DatasOf(all)
  {
    match a {
      case Start(p, e) => AddTimeout(list, p, e);
      case SetEnabled(p, b) => SetData(list, p, p.data.(enabled := b));
      case SetProbing(p, b) => SetData(list, p, p.data.(probing := b));
    }
  }

  method SetData(list: List<nat, PortData>, p: Port, d: PortData)
    requires list.Valid()
    modifies p`data
    ensures list.Valid() && p.data == d
  {
    p.data := d;
    forall i | 0 <= i < |list.nodes| ensures list.LinkedAt(i) {
      assert old(list.LinkedAt(i));
    }
  }

  /** The port that is visited next, or none, and the fields of the ports. */
  ghost predicate Walking(list: List<nat, PortData>, s: Sweep, rest: seq<Port>, all: set<Port>)
    reads list, list.nodes, all
  {
    list.Valid() && Within(list, all) && list.nodes == s.added + s.kept + rest && DatasOf(all) == s.datas
  }

  /** An expired port leaves the list before its handler is called. */
  method Expire(list: List<nat, PortData>, p: Port, now: nat, calls: Calls, n: nat,
                ghost s: Sweep, ghost rest: seq<Port>, ghost all: set<Port>)
    returns (ran: bool)
    requires Walking(list, s, [p] + rest, all) && n == |s.called| && now >= p.data.expire
    requires Ready(p.data) ==> ActsOk(s.(called := s.called + [p]), rest, calls(n))
    modifies list, all
    ensures Walking(list, Visit(s, p, now, calls), rest, all) && ran == Ready(old(p.data))
    ensures Visit(s, p, now, calls).called == if ran then s.called + [p] else s.called
  {
    hide Acts, ActsOk;
    ghost var at := |s.added| + |s.kept|;
    assert list.nodes[at] == p;
    list.Remove(p, at);
    assert list.nodes == s.added + s.kept + rest;
    assert DatasOf(all) == s.datas;
    ran := p.data.enabled || p.data.probing;
    if ran {
      ActsCalled(s.(called := s.called + [p]), calls(n));
      Handler(list, calls(n), s.(called := s.called + [p]), rest, all);
    }
  }

  lemma {:induction false} ActsCalled(s: Sweep, acts: seq<Action>)
    ensures Acts(s, acts).called == s.called && Acts(s, acts).kept == s.kept
    ensures Acts(s, acts).datas.Keys == s.datas.Keys
  {
    if acts != [] {
      ActsCalled(s, acts[..|acts| - 1]);
    }
  }

  method Next(list: List<nat, PortData>, p: Port, ghost s: Sweep, ghost rest: seq<Port>, ghost all: set<Port>)
    returns (next: Node?<nat, PortData>)
    requires Walking(list, s, [p] + rest, all)
    ensures next == if rest == [] then null else rest[0]
    ensures p in s.datas && s.datas[p] == p.data
  {
    ghost var at := |s.added| + |s.kept|;
    assert list.nodes[at] == p && list.LinkedAt(at);
    next := p.next;
    assert rest != [] ==> list.nodes[at + 1] == rest[0];
  }

  /** One turn of the loop; the next port is read before the current one leaves the list. */
  method VisitPort(list: List<nat, PortData>, itr: Port, now: nat, calls: Calls, n: nat,
                   ghost s: Sweep, ghost rest: seq<Port>, ghost all: set<Port>)
    returns (next: Node?<nat, PortData>, ran: bool)
    requires Walking(list, s, [itr] + rest, all) && n == |s.called|
    requires Expired(itr.data, now) && Ready(itr.data) ==> ActsOk(s.(called := s.called + [itr]), rest, calls(n))
    modifies list, all
    ensures Walking(list, Visit(s, itr, now, calls), rest, all)
    ensures Visit(s, itr, now, calls).called == if ran then s.called + [itr] else s.called
    ensures next == if rest == [] then null else rest[0]
  {
    hide Acts, ActsOk;
    next := Next(list, itr, s, rest, all);
    ran := false;
    if now >= itr.data.expire {
      ran := Expire(list, itr, now, calls, n, s, rest, all);
    } else {
      assert s.added + s.kept + ([itr] + rest) == s.added + (s.kept + [itr]) + rest;
    }
  }

  /** `usb_monitor_check_timeouts` at time `now`. */
  method CheckTimeouts(list: List<nat, PortData>, now: nat, calls: Calls, ghost all: set<Port>) returns (called: seq<Port>)
    requires list.Valid() && Within(list, all) && WellBehaved(list.nodes, DatasOf(all), now, calls)
    modifies list, all
    ensures Walking(list, Swept(old(list.nodes), old(DatasOf(all)), now, calls), [], all)
    ensures called == Swept(old(list.nodes), old(DatasOf(all)), now, calls).called
  {
    hide Acts, ActsOk, DatasOf, Visit, Walking;
    ghost var ports, datas := list.nodes, DatasOf(all);
    ghost var i := 0;
    called := [];
    var itr := list.first;
    assert Walking(list, Sweep([], [], [], datas), ports, all) by { StartWalk(list, all); }
    while itr != null
      invariant i <= |ports| && Walking(list, Swept(ports[..i], datas, now, calls), ports[i..], all)
      invariant called == Swept(ports[..i], datas, now, calls).called
      invariant itr == if i < |ports| then ports[i] else null
      decreases |ports| - i
    {
      ghost var s := Swept(ports[..i], datas, now, calls);
      assert ports[..i + 1][..i] == ports[..i] && ports[..i + 1][i] == ports[i];
      assert ports[i..] == [itr] + ports[i + 1..];
      assert CallOk(ports, datas, now, calls, i);
      WalkingData(list, s, itr, ports[i + 1..], all);
      var next, ran := VisitPort(list, itr, now, calls, |called|, s, ports[i + 1..], all);
      if ran {
        called := called + [itr];
      }
      itr := next;
      i := i + 1;
    }
    assert ports[..|ports|] == ports;
  }

  lemma StartWalk(list: List<nat, PortData>, all: set<Port>)
    requires list.Valid() && Within(list, all)
    ensures Walking(list, Sweep([], [], [], DatasOf(all)), list.nodes, all)
  {
  }

  lemma WalkingData(list: List<nat, PortData>, s: Sweep, p: Port, rest: seq<Port>, all: set<Port>)
    requires Walking(list, s, [p] + rest, all)
    ensures p in s.datas && s.datas[p] == p.data
  {
    assert list.nodes[|s.added| + |s.kept|] == p;
  }

  // ----- what the sweep does -----

  /** The ports that have not expired when the sweep starts. */
  function Unexpired(ports: seq<Port>, datas: Datas, now: nat): seq<Port> {
    if ports == [] then []
    else
      var p := ports[|ports| - 1];
      Unexpired(ports[..|ports| - 1], datas, now) + if p in datas && now < datas[p].expire then [p] else []
  }

  /** The fields of all ports when the i-th port is visited. */
  function DatasAt(ports: seq<Port>, datas: Datas, now: nat, calls: Calls, i: nat): Datas
    requires i <= |ports|
  {
    Swept(ports[..i], datas, now, calls).datas
  }

  /** The port has expired, and is enabled or probed when its turn comes. */
  predicate DueFor(ports: seq<Port>, datas: Datas, now: nat, calls: Calls, i: nat)
    requires i < |ports|
  {
    var d := DatasAt(ports, datas, now, calls, i);
    ports[i] in datas && ports[i] in d && now >= datas[ports[i]].expire && (d[ports[i]].enabled || d[ports[i]].probing)
  }

  predicate SameExpiry(a: Datas, b: Datas, p: Port) { p in a && p in b && a[p].expire == b[p].expire }

  lemma {:induction false} ActsKeepExpiry(s: Sweep, rest: seq<Port>, acts: seq<Action>, p: Port)
    requires ActsOk(s, rest, acts) && p in rest && p in s.datas
    ensures SameExpiry(Acts(s, acts).datas, s.datas, p)
  {
    if acts != [] {
      var n := |acts| - 1;
      assert ActsOk(s, rest, acts[..n]) by {
        forall j | 0 <= j < n ensures ActOk(Acts(s, acts[..n][..j]), rest, acts[..n][j]) {
          assert acts[..n][..j] == acts[..j] && ActOk(Acts(s, acts[..j]), rest, acts[j]);
        }
      }
      ActsKeepExpiry(s, rest, acts[..n], p);
      ActsCalled(s, acts[..n]);
      assert ActOk(Acts(s, acts[..n]), rest, acts[n]);
    }
  }

  lemma VisitKeepsExpiry(s: Sweep, p: Port, rest: seq<Port>, now: nat, calls: Calls, q: Port)
    requires p in s.datas && q in rest && q in s.datas
    requires Expired(s.datas[p], now) && Ready(s.datas[p]) ==> ActsOk(s.(called := s.called + [p]), rest, calls(|s.called|))
    ensures SameExpiry(Visit(s, p, now, calls).datas, s.datas, q)
  {
    hide Acts, ActsOk;
    if Expired(s.datas[p], now) && Ready(s.datas[p]) {
      ActsKeepExpiry(s.(called := s.called + [p]), rest, calls(|s.called|), q);
    }
  }

  /** A port's expiry is untouched until its turn. */
  lemma {:induction false} ExpiryKept(ports: seq<Port>, datas: Datas, now: nat, calls: Calls, i: nat, j: nat)
    requires i <= j < |ports| && WellBehaved(ports, datas, now, calls) && forall p | p in ports :: p in datas
    ensures SameExpiry(DatasAt(ports, datas, now, calls, i), datas, ports[j])
  {
    hide Visit, ActsOk;
    if i > 0 {
      ExpiryKept(ports, datas, now, calls, i - 1, i - 1);
      ExpiryKept(ports, datas, now, calls, i - 1, j);
      assert ports[..i][..i - 1] == ports[..i - 1] && ports[..i][i - 1] == ports[i - 1];
      assert CallOk(ports, datas, now, calls, i - 1);
      assert ports[j] in ports[i..] by { assert ports[j] == ports[i..][j - i]; }
      VisitKeepsExpiry(Swept(ports[..i - 1], datas, now, calls), ports[i - 1], ports[i..], now, calls, ports[j]);
    }
  }

  lemma VisitResult(s: Sweep, p: Port, now: nat, calls: Calls)
    requires p in s.datas
    ensures var r := Visit(s, p, now, calls);
            && r.kept == s.kept + (if now >= s.datas[p].expire then [] else [p])
            && r.called == s.called + (if now >= s.datas[p].expire && (s.datas[p].enabled || s.datas[p].probing) then [p] else [])
  {
    hide Acts;
    ActsCalled(s.(called := s.called + [p]), calls(|s.called|));
  }

  /** The i-th visit, in terms of the fields at the start. */
  lemma NthVisit(ports: seq<Port>, datas: Datas, now: nat, calls: Calls, i: nat)
    requires i < |ports| && WellBehaved(ports, datas, now, calls) && forall p | p in ports :: p in datas
    ensures var s, r := Swept(ports[..i], datas, now, calls), Swept(ports[..i + 1], datas, now, calls);
            && r.kept == s.kept + (if now >= datas[ports[i]].expire then [] else [ports[i]])
            && r.called == s.called + (if DueFor(ports, datas, now, calls, i) then [ports[i]] else [])
  {
    hide WellBehaved, Visit, Expired, Ready;
    ExpiryKept(ports, datas, now, calls, i, i);
    assert ports[..i + 1][..i] == ports[..i] && ports[..i + 1][i] == ports[i];
    SameExpiryExpired(DatasAt(ports, datas, now, calls, i), datas, ports[i], now);
    VisitResult(Swept(ports[..i], datas, now, calls), ports[i], now, calls);
  }

  /** The sweep takes exactly the expired ports out of the list and leaves the others in
      place; ports that handlers put at the head are not visited, even when their own
      timeouts have passed. */
  lemma {:induction false} KeptExactly(ports: seq<Port>, datas: Datas, now: nat, calls: Calls, i: nat)
    requires i <= |ports| && WellBehaved(ports, datas, now, calls) && forall p | p in ports :: p in datas
    ensures Swept(ports[..i], datas, now, calls).kept == Unexpired(ports[..i], datas, now)
  {
    hide WellBehaved, Visit, Expired, Swept;
    if i > 0 {
      KeptExactly(ports, datas, now, calls, i - 1);
      NthVisit(ports, datas, now, calls, i - 1);
      assert ports[..i][..i - 1] == ports[..i - 1] && ports[..i][i - 1] == ports[i - 1];
    } else {
      assert Swept(ports[..0], datas, now, calls).kept == [] by { NothingSwept(datas, now, calls); }
    }
  }

  lemma NothingSwept(datas: Datas, now: nat, calls: Calls)
    ensures Swept([], datas, now, calls) == Sweep([], [], [], datas)
  {
  }

  lemma FirstVisited(ports: seq<Port>, i: nat)
    requires Distinct(ports) && i < |ports|
    ensures ports[i] !in ports[..i] && ports[..i] + [ports[i]] == ports[..i + 1]
  {
  }

  /** The calls follow the order of the list, and no port is called twice. */
  lemma {:induction false} CalledInOrder(ports: seq<Port>, datas: Datas, now: nat, calls: Calls, i: nat)
    requires i <= |ports| && WellBehaved(ports, datas, now, calls)
    requires Distinct(ports) && forall p | p in ports :: p in datas
    ensures InOrder(Swept(ports[..i], datas, now, calls).called, ports[..i])
  {
    hide WellBehaved, DueFor, Swept, InOrder, Distinct;
    if i > 0 {
      CalledInOrder(ports, datas, now, calls, i - 1);
      NthVisit(ports, datas, now, calls, i - 1);
      FirstVisited(ports, i - 1);
      InOrderNext(Swept(ports[..i - 1], datas, now, calls).called, ports[..i - 1], ports[i - 1],
                  DueFor(ports, datas, now, calls, i - 1));
    } else {
      NothingSwept(datas, now, calls);
      assert ports[..0] == [];
      InOrderNone();
    }
  }

  /** A port's handler is called if and only if its expiry has passed and the port, when its
      turn comes, is enabled or in probe mode; each port that has not expired stays. */
  lemma {:induction false} CalledExactly(ports: seq<Port>, datas: Datas, now: nat, calls: Calls, i: nat, j: nat)
    requires j < i <= |ports| && WellBehaved(ports, datas, now, calls)
    requires Distinct(ports) && forall p | p in ports :: p in datas
    ensures var r, s := Swept(ports[..i], datas, now, calls), Swept(ports[..j], datas, now, calls);
            && ports[j] in s.datas
            && (ports[j] in r.called <==>
                now >= datas[ports[j]].expire && (s.datas[ports[j]].enabled || s.datas[ports[j]].probing))
            && (ports[j] in r.kept <==> now < datas[ports[j]].expire)
  {
    hide WellBehaved, DueFor, Swept, InOrder;
    TurnOf(ports, datas, now, calls, j);
    NthVisit(ports, datas, now, calls, i - 1);
    KeptExactly(ports, datas, now, calls, i - 1);
    if j < i - 1 {
      CalledExactly(ports, datas, now, calls, i - 1, j);
    } else {
      CalledInOrder(ports, datas, now, calls, j);
      InOrderMembers(Swept(ports[..j], datas, now, calls).called, ports[..j]);
      FirstVisited(ports, j);
      UnexpiredMember(ports[..j], datas, now, ports[j]);
    }
  }

  lemma TurnOf(ports: seq<Port>, datas: Datas, now: nat, calls: Calls, j: nat)
    requires j < |ports| && WellBehaved(ports, datas, now, calls) && forall p | p in ports :: p in datas
    ensures ports[j] in Swept(ports[..j], datas, now, calls).datas
    ensures var d := Swept(ports[..j], datas, now, calls).datas;
            DueFor(ports, datas, now, calls, j) <==>
            now >= datas[ports[j]].expire && (d[ports[j]].enabled || d[ports[j]].probing)
  {
    hide WellBehaved, Swept;
    ExpiryKept(ports, datas, now, calls, j, j);
  }

  lemma {:induction false} UnexpiredMember(ports: seq<Port>, datas: Datas, now: nat, p: Port)
    requires p !in ports
    ensures p !in Unexpired(ports, datas, now)
  {
    if ports != [] {
      UnexpiredMember(ports[..|ports| - 1], datas, now, p);
    }
  }

  /** The ports of `a` come in the order in which they are in `b`, each one once. */
  predicate InOrder(a: seq<Port>, b: seq<Port>) {
    if a == [] then true
    else if b == [] then false
    else if a[|a| - 1] == b[|b| - 1] then InOrder(a[..|a| - 1], b[..|b| - 1])
    else InOrder(a, b[..|b| - 1])
  }

  lemma InOrderNone()
    ensures InOrder([], [])
  {
  }

  lemma InOrderGrows(a: seq<Port>, b: seq<Port>, p: Port)
    requires InOrder(a, b) && p !in a
    ensures InOrder(a, b + [p]) && InOrder(a + [p], b + [p])
  {
    assert (b + [p])[..|b|] == b && (a + [p])[..|a|] == a;
  }

  lemma InOrderNext(a: seq<Port>, b: seq<Port>, p: Port, c: bool)
    requires InOrder(a, b) && p !in b
    ensures InOrder(a + (if c then [p] else []), b + [p])
  {
    hide InOrder;
    InOrderMembers(a, b);
    InOrderGrows(a, b, p);
    assert a + [] == a;
  }

  lemma {:induction false} InOrderMembers(a: seq<Port>, b: seq<Port>)
    requires InOrder(a, b)
    ensures forall p | p in a :: p in b
  {
    if a != [] {
      var n := |a| - 1;
      if a[n] == b[|b| - 1] {
        InOrderMembers(a[..n], b[..|b| - 1]);
        assert forall p | p in a :: p in a[..n] || p == a[n];
      } else {
        InOrderMembers(a, b[..|b| - 1]);
      }
    }
  }

  lemma SameExpiryExpired(a: Datas, b: Datas, p: Port, now: nat)
    requires SameExpiry(a, b, p)
    ensures now >= a[p].expire <==> now >= b[p].expire
  {
  }
}
