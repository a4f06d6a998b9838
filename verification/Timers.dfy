/** The event loop's timer queue. */
module Timers {
  import opened Lists

  /** `intvl` and `auto_free` */
  datatype Kind = Kind(intvl: nat, autoFree: bool)

  /** `timeout_clock`, and whether the handle has been given to `free`. */
  datatype Clock = Clock(at: nat, freed: bool)

  type Handle = Node<Kind, Clock>

  /** A timer in the queue, or a call that puts it there. */
  datatype Entry = Entry(h: Handle, at: nat)

  type Queue = seq<Entry>

  // ----- the queue as a value -----

  predicate Sorted(q: Queue) {
    forall i, j | 0 <= i < j < |q| :: q[i].at <= q[j].at
  }

  /** The entries at the start of the queue that are due at a time. */
  function Due(q: Queue, time: nat): (n: nat)
    ensures n <= |q|
    ensures forall i | 0 <= i < n :: q[i].at <= time
    ensures n < |q| ==> time < q[n].at
  {
    if q == [] || time < q[0].at then 0 else 1 + Due(q[1..], time)
  }

  function Inserted(q: Queue, e: Entry): Queue {
    var n := Due(q, e.at);
    q[..n] + [e] + q[n..]
  }

  lemma WithoutSorted(q: Queue, i: nat)
    requires Sorted(q) && i < |q|
    ensures Sorted(q[..i] + q[i + 1..])
  {
  }

  lemma InsertedLength(q: Queue, e: Entry)
    ensures |Inserted(q, e)| == |q| + 1
  {
  }

  lemma MemberAt(hs: seq<Handle>, h: Handle, n: nat, i: nat)
    requires n <= |hs| && i <= |hs|
    ensures (hs[..n] + [h] + hs[n..])[i] == if i < n then hs[i] else if i == n then h else hs[i - 1]
  {
  }

  lemma InsertedAt(q: Queue, e: Entry, i: nat)
    requires i <= |q|
    ensures var n := Due(q, e.at);
            Inserted(q, e)[i] == if i < n then q[i] else if i == n then e else q[i - 1]
  {
    hide Due;
  }

  function InsertAll(q: Queue, es: seq<Entry>): Queue {
    if es == [] then q else Inserted(InsertAll(q, es[..|es| - 1]), es[|es| - 1])
  }

  function Handles(q: Queue): (hs: seq<Handle>)
    ensures |hs| == |q|
  {
    seq(|q|, i requires 0 <= i < |q| => q[i].h)
  }

  lemma DueUnique(q: Queue, time: nat, n: nat)
    requires n <= |q| && (forall i | 0 <= i < n :: q[i].at <= time) && (n < |q| ==> time < q[n].at)
    ensures n == Due(q, time)
  {
  }

  /** The queue stays sorted, and a timer comes after those due at the same time. */
  lemma InsertedSorted(q: Queue, e: Entry)
    requires Sorted(q)
    ensures Sorted(Inserted(q, e))
    ensures var r, n := Inserted(q, e), Due(q, e.at);
            r[n] == e && (forall i | 0 <= i < n :: r[i].at <= e.at) && (forall i | n < i < |r| :: e.at < r[i].at)
  {
  }

  lemma {:induction false} InsertAllSorted(q: Queue, es: seq<Entry>)
    requires Sorted(q)
    ensures Sorted(InsertAll(q, es)) && multiset(InsertAll(q, es)) == multiset(q) + multiset(es)
  {
    hide Inserted, Sorted;
    if es != [] {
      var n := |es| - 1;
      InsertAllSorted(q, es[..n]);
      InsertedSorted(InsertAll(q, es[..n]), es[n]);
      InsertedAdds(InsertAll(q, es[..n]), es[n]);
      assert es[..n] + [es[n]] == es;
    }
  }

  lemma InsertedAdds(q: Queue, e: Entry)
    ensures multiset(Inserted(q, e)) == multiset(q) + multiset{e}
  {
    assert q[..Due(q, e.at)] + q[Due(q, e.at)..] == q;
  }

  /** What is due later goes behind everything that is due. */
  lemma InsertedBehind(p: Queue, s: Queue, e: Entry)
    requires forall i | 0 <= i < |p| :: p[i].at <= e.at
    ensures Inserted(p + s, e) == p + Inserted(s, e)
  {
    var n := Due(s, e.at);
    assert forall i | |p| <= i < |p| + n :: (p + s)[i] == s[i - |p|];
    DueUnique(p + s, e.at, |p| + n);
  }

  predicate AllBy(q: Queue, time: nat) { forall i | 0 <= i < |q| :: q[i].at <= time }

  predicate AllLater(q: Queue, time: nat) { forall i | 0 <= i < |q| :: time < q[i].at }

  lemma {:induction false} InsertAllBehind(p: Queue, s: Queue, es: seq<Entry>, time: nat)
    requires AllBy(p, time) && AllLater(es, time)
    ensures InsertAll(p + s, es) == p + InsertAll(s, es)
  {
    hide Inserted;
    if es != [] {
      var n := |es| - 1;
      InsertAllBehind(p, s, es[..n], time);
      InsertedBehind(p, InsertAll(s, es[..n]), es[n]);
    }
  }

  lemma {:induction false} InsertAllAppend(q: Queue, a: seq<Entry>, b: seq<Entry>)
    ensures InsertAll(q, a + b) == InsertAll(InsertAll(q, a), b)
  {
    if b == [] {
      assert a + b == a;
    } else {
      assert (a + b)[..|a + b| - 1] == a + b[..|b| - 1];
      InsertAllAppend(q, a, b[..|b| - 1]);
    }
  }

  /** The members after insertions. */
  lemma {:induction false} InsertAllHandles(q: Queue, es: seq<Entry>, h: Handle)
    ensures h in Handles(InsertAll(q, es)) <==> h in Handles(q) || h in Handles(es)
  {
    hide Inserted;
    if es != [] {
      var n := |es| - 1;
      InsertAllHandles(q, es[..n], h);
      InsertedHandles(InsertAll(q, es[..n]), es[n], h);
      assert Handles(es) == Handles(es[..n]) + [es[n].h];
    }
  }

  lemma InsertedHandles(q: Queue, e: Entry, h: Handle)
    ensures h in Handles(Inserted(q, e)) <==> h in Handles(q) || h == e.h
  {
    hide Due;
    var n := Due(q, e.at);
    assert Handles(Inserted(q, e)) == Handles(q)[..n] + [e.h] + Handles(q)[n..];
    assert Handles(q) == Handles(q)[..n] + Handles(q)[n..];
  }

  // ----- one pass -----

  function Rearm(h: Handle, now: nat): seq<Entry> {
    if h.conf.intvl != 0 then [Entry(h, now + h.conf.intvl)] else []
  }

  /** Everything put into the queue while the handles `due` fire in turn; `calls(k)` are the
      timers that the k-th callback starts. */
  function New(due: seq<Handle>, now: nat, calls: nat -> seq<Entry>): seq<Entry> {
    if due == [] then []
    else
      var n := |due| - 1;
      New(due[..n], now, calls) + calls(n) + Rearm(due[n], now)
  }

  /** A one-shot timer that the loop frees after its callback. */
  predicate FreedAfter(h: Handle) { h.conf.intvl == 0 && h.conf.autoFree }

  /** What the k-th callback may start: timers due later than now that are in nobody's
      queue and not freed; itself only when the loop does not touch it again. */
  predicate MayStart(q: Queue, now: nat, calls: nat -> seq<Entry>, k: nat, j: nat)
    requires k < Due(q, now) && j < |calls(k)|
  {
    var a := calls(k)[j];
    && a.at > now
    && a.h !in Handles(q)[k + 1..]
    && a.h !in Handles(New(Handles(q)[..k], now, calls)) && a.h !in Handles(calls(k))[..j]
    && (a.h == q[k].h ==> a.h.conf.intvl == 0 && !a.h.conf.autoFree)
    && (a.h in Handles(q)[..k] ==> !FreedAfter(a.h))
  }

  ghost predicate WellBehaved(q: Queue, now: nat, calls: nat -> seq<Entry>) {
    forall k, j | 0 <= k < Due(q, now) && 0 <= j < |calls(k)| :: MayStart(q, now, calls, k, j)
  }

  /** The queue after `k` callbacks: the timers still due, then everything later. */
  function Midway(q: Queue, now: nat, calls: nat -> seq<Entry>, k: nat): Queue
    requires k <= Due(q, now)
  {
    var d := Due(q, now);
    q[k..d] + InsertAll(q[d..], New(Handles(q)[..k], now, calls))
  }

  lemma {:induction false} NewLater(q: Queue, now: nat, calls: nat -> seq<Entry>, k: nat)
    requires k <= Due(q, now) && WellBehaved(q, now, calls)
    ensures AllLater(New(Handles(q)[..k], now, calls), now)
  {
    if k > 0 {
      NewLater(q, now, calls, k - 1);
      assert Handles(q)[..k][..k - 1] == Handles(q)[..k - 1];
      var arms := calls(k - 1);
      forall j | 0 <= j < |arms| ensures now < arms[j].at {
        assert MayStart(q, now, calls, k - 1, j);
      }
      AllLaterAppend(New(Handles(q)[..k - 1], now, calls), calls(k - 1), now);
      AllLaterAppend(New(Handles(q)[..k - 1], now, calls) + calls(k - 1), Rearm(q[k - 1].h, now), now);
    }
  }

  lemma AllLaterAppend(a: Queue, b: Queue, time: nat)
    requires AllLater(a, time) && AllLater(b, time)
    ensures AllLater(a + b, time)
  {
  }

  lemma MidwayEnds(q: Queue, now: nat, calls: nat -> seq<Entry>)
    ensures Midway(q, now, calls, 0) == q
    ensures Midway(q, now, calls, Due(q, now)) == InsertAll(q[Due(q, now)..], New(Handles(q)[..Due(q, now)], now, calls))
  {
    assert Handles(q)[..0] == [];
  }

  lemma RestLater(q: Queue, now: nat, es: seq<Entry>)
    requires Sorted(q) && AllLater(es, now)
    ensures AllLater(InsertAll(q[Due(q, now)..], es), now)
  {
    var rest := q[Due(q, now)..];
    InsertAllSorted(rest, es);
    var r := InsertAll(rest, es);
    forall i | 0 <= i < |r| ensures now < r[i].at {
      assert r[i] in multiset(r);
    }
  }

  /** The next callback leads from one state to the next. */
  lemma MidwayStep(q: Queue, now: nat, calls: nat -> seq<Entry>, k: nat)
    requires k < Due(q, now) && WellBehaved(q, now, calls)
    ensures InsertAll(Midway(q, now, calls, k)[1..], calls(k) + Rearm(q[k].h, now)) == Midway(q, now, calls, k + 1)
  {
    hide InsertAll;
    var d, due := Due(q, now), Handles(q);
    var new0, more := New(due[..k], now, calls), calls(k) + Rearm(q[k].h, now);
    assert Midway(q, now, calls, k)[1..] == q[k + 1..d] + InsertAll(q[d..], new0);
    NewLater(q, now, calls, k + 1);
    assert due[..k + 1][..k] == due[..k] && due[..k + 1][k] == q[k].h;
    assert New(due[..k + 1], now, calls) == new0 + more;
    assert forall j | 0 <= j < |more| :: more[j] == (new0 + more)[|new0| + j];
    InsertAllBehind(q[k + 1..d], InsertAll(q[d..], new0), more, now);
    InsertAllAppend(q[d..], new0, more);
  }

  /** What is in the queue besides the timer that fires: the other ones of the start, and
      the new ones. */
  lemma MidwayHandles(q: Queue, now: nat, calls: nat -> seq<Entry>, k: nat, h: Handle)
    requires k < Due(q, now) && h in Handles(Midway(q, now, calls, k)[1..])
    ensures h in Handles(q)[k + 1..] || h in Handles(New(Handles(q)[..k], now, calls))
  {
    hide InsertAll, Due, New;
    var d, new0 := Due(q, now), New(Handles(q)[..k], now, calls);
    var r := InsertAll(q[d..], new0);
    InsertAllHandles(q[d..], new0, h);
    assert Midway(q, now, calls, k)[1..] == q[k + 1..d] + r;
    assert Handles(q[k + 1..d] + r) == Handles(q[k + 1..d]) + Handles(r);
    assert Handles(q[k + 1..d]) + Handles(q[d..]) == Handles(q)[k + 1..];
  }

  // ----- what is in the queue afterwards -----

  /** The entry is what one of the first `n` callbacks starts. */
  ghost predicate StartedBy(e: Entry, calls: nat -> seq<Entry>, n: nat) {
    exists k | 0 <= k < n :: e in calls(k)
  }

  /** The entry is a periodic timer of `due`, due one interval after `now`. */
  predicate Periodic(e: Entry, due: seq<Handle>, now: nat) {
    e.h in due && e.h.conf.intvl != 0 && e.at == now + e.h.conf.intvl
  }

  lemma {:induction false} NewExactly(due: seq<Handle>, now: nat, calls: nat -> seq<Entry>, e: Entry)
    ensures e in New(due, now, calls) <==> StartedBy(e, calls, |due|) || Periodic(e, due, now)
  {
    if due != [] {
      var n := |due| - 1;
      NewExactly(due[..n], now, calls, e);
      assert e.h in due <==> e.h in due[..n] || e.h == due[n];
      assert StartedBy(e, calls, |due|) <==> StartedBy(e, calls, n) || e in calls(n);
    }
  }

  lemma InsertAllExactly(q: Queue, es: seq<Entry>, e: Entry)
    requires Sorted(q)
    ensures e in InsertAll(q, es) <==> e in q || e in es
  {
    InsertAllSorted(q, es);
    assert e in InsertAll(q, es) <==> e in multiset(q) + multiset(es);
  }

  lemma DueSplit(q: Queue, d: nat, e: Entry)
    requires d <= |q|
    ensures e in q <==> e in q[..d] || e in q[d..]
  {
    assert q == q[..d] + q[d..];
  }

  lemma DueExactly(q: Queue, now: nat, e: Entry)
    requires Sorted(q)
    ensures e in q[Due(q, now)..] <==> e in q && e.at > now
  {
    var d := Due(q, now);
    DueSplit(q, d, e);
    if e in q[d..] {
      var i :| 0 <= i < |q[d..]| && q[d..][i] == e;
      assert q[d + i] == e;
    }
  }

  /** The queue after all due timers have fired holds exactly the timers that were not due,
      those that callbacks have started, and the periodic ones, one interval later. */
  lemma PassExactly(q: Queue, now: nat, calls: nat -> seq<Entry>, e: Entry)
    requires Sorted(q)
    ensures var d := Due(q, now);
            e in InsertAll(q[d..], New(Handles(q)[..d], now, calls)) <==>
            || (e in q && e.at > now)
            || (exists k | 0 <= k < d :: e in calls(k))
            || (e.h in Handles(q)[..d] && e.h.conf.intvl != 0 && e.at == now + e.h.conf.intvl)
  {
    hide InsertAll, New, Due;
    var d := Due(q, now);
    assert Sorted(q[d..]);
    InsertAllExactly(q[d..], New(Handles(q)[..d], now, calls), e);
    NewExactly(Handles(q)[..d], now, calls, e);
    DueExactly(q, now, e);
  }

  /** All entries of that queue, which are later than now. */
  lemma PassEffect(q: Queue, now: nat, calls: nat -> seq<Entry>)
    requires Sorted(q) && WellBehaved(q, now, calls)
    ensures var d := Due(q, now);
            var r := InsertAll(q[d..], New(Handles(q)[..d], now, calls));
            && (forall i | 0 <= i < |r| :: now < r[i].at)
            && forall e :: e in r <==>
                 || (e in q && e.at > now)
                 || (exists k | 0 <= k < d :: e in calls(k))
                 || (e.h in Handles(q)[..d] && e.h.conf.intvl != 0 && e.at == now + e.h.conf.intvl)
  {
    hide InsertAll, New, Due, Sorted, MayStart;
    var d := Due(q, now);
    NewLater(q, now, calls, d);
    RestLater(q, now, New(Handles(q)[..d], now, calls));
    forall e ensures e in InsertAll(q[d..], New(Handles(q)[..d], now, calls)) <==>
              || (e in q && e.at > now)
              || (exists k | 0 <= k < d :: e in calls(k))
              || (e.h in Handles(q)[..d] && e.h.conf.intvl != 0 && e.at == now + e.h.conf.intvl) {
      PassExactly(q, now, calls, e);
    }
  }

  class EventLoop {
    /** `timeout_list` */
    const list: List<Kind, Clock>

    ghost predicate Valid()
      reads list, list.nodes
    {
      && list.Valid() && Sorted(Timeouts())
      && forall h | h in list.nodes :: !h.data.freed
    }

    ghost function Timeouts(): (q: Queue)
      reads list, list.nodes
      ensures |q| == |list.nodes|
    {
      seq(|list.nodes|, i requires 0 <= i < |list.nodes| reads list, list.nodes => Entry(list.nodes[i], list.nodes[i].data.at))
    }

    constructor ()
      ensures fresh(list) && Valid() && Timeouts() == []
    {
      list := new List();
    }

    /** `backend_insert_timeout` */
    method InsertTimeout(h: Handle)
      requires Valid() && h !in list.nodes && !h.data.freed
      modifies list, h`next, h`prev, list.nodes`next, list.nodes`prev
      ensures Valid() && Timeouts() == Inserted(old(Timeouts()), Entry(h, h.data.at))
      ensures forall g :: g in list.nodes <==> g in old(list.nodes) || g == h
    {
      hide Sorted, Inserted, List.Valid, Due;
      ghost var q, e := Timeouts(), Entry(h, h.data.at);
      InsertedSorted(q, e);
      ghost var k := Link(h);
      assert Handles(q) == old(list.nodes);
      TimeoutsAfter(q, e, k);
    }

    /** Puts the timer into the list where the queue wants it. */
    method Link(h: Handle) returns (ghost k: nat)
      requires Valid() && h !in list.nodes
      modifies list, h`next, h`prev, list.nodes`next, list.nodes`prev
      ensures list.Valid() && k == old(Due(Timeouts(), h.data.at))
      ensures list.nodes == old(list.nodes)[..k] + [h] + old(list.nodes)[k..]
    {
      hide Sorted, List.Valid;
      list.FirstMember();
      var itr := list.first;
      if itr == null || h.data.at < itr.data.at {
        DueUnique(Timeouts(), h.data.at, 0);
        k := 0;
        list.InsertHead(h);
        return;
      }
      var prevItr;
      prevItr, k := FindPlace(h);
      list.InsertAfter(prevItr, h, k - 1);
    }

    lemma TimeoutsAfter(q: Queue, e: Entry, k: nat)
      requires k == Due(q, e.at) && list.nodes == Handles(q)[..k] + [e.h] + Handles(q)[k..]
      requires e.at == e.h.data.at && forall i | 0 <= i < |q| :: q[i].at == q[i].h.data.at
      ensures Timeouts() == Inserted(q, e)
    {
      hide Due, Inserted;
      var r, t := Inserted(q, e), Timeouts();
      InsertedLength(q, e);
      forall i | 0 <= i <= |q| ensures t[i] == r[i] {
        InsertedAt(q, e, i);
        MemberAt(Handles(q), e.h, k, i);
        assert list.nodes[i] == r[i].h;
      }
    }

    /** The last timer that is due no later than `h`. */
    method FindPlace(h: Handle) returns (prevItr: Handle, ghost k: nat)
      requires Valid() && list.first != null && list.first.data.at <= h.data.at
      ensures 0 < k <= |list.nodes| && k == Due(Timeouts(), h.data.at) && prevItr == list.nodes[k - 1]
    {
      hide Sorted;
      ghost var q := Timeouts();
      var itr := list.first;
      prevItr := itr;
      k := 0;
      while itr != null
        invariant k <= |q| && itr == list.NodeAt(k)
        invariant if k > 0 then prevItr == list.nodes[k - 1] else itr == list.first
        invariant forall j | 0 <= j < k :: q[j].at <= h.data.at
        decreases |q| - k
      {
        if h.data.at < itr.data.at {
          break;
        }
        assert list.LinkedAt(k);
        prevItr := itr;
        itr := itr.next;
        k := k + 1;
      }
      DueUnique(q, h.data.at, k);
    }

    /** `backend_delete_timeout`: nothing happens to a timer that is in no list. */
    method DeleteTimeout(h: Handle)
      requires Valid() && (h in list.nodes || !h.Active())
      modifies list, h`next, h`prev, list.nodes`next, list.nodes`prev
      ensures Valid() && !h.Active()
      ensures h !in old(list.nodes) ==> Timeouts() == old(Timeouts())
      ensures forall i | 0 <= i < |old(list.nodes)| && old(list.nodes)[i] == h ::
                Timeouts() == old(Timeouts())[..i] + old(Timeouts())[i + 1..]
    {
      list.MembersDiffer();
      if !h.Active() {
        if h in list.nodes {
          list.MemberIsActive(h);
        }
        return;
      }
      hide Sorted, List.Valid;
      ghost var q := Timeouts();
      ghost var i :| 0 <= i < |list.nodes| && list.nodes[i] == h;
      list.Remove(h, i);
      assert Timeouts() == q[..i] + q[i + 1..];
      WithoutSorted(q, i);
    }

    /** Timers that a callback can start: in no list, not freed, each one once. */
    ghost predicate Startable(arms: seq<Entry>, all: set<Handle>)
      reads list, all
    {
      forall j | 0 <= j < |arms| ::
        && arms[j].h in all && arms[j].h !in list.nodes && arms[j].h !in Handles(arms)[..j] && !arms[j].h.data.freed
    }

    ghost predicate Within(all: set<Handle>)
      reads list
    {
      forall h | h in list.nodes :: h in all
    }

    /** What a callback does to the queue: it sets timers and inserts them. */
    method Callback(arms: seq<Entry>, ghost all: set<Handle>)
      requires Valid() && Within(all) && Startable(arms, all)
      modifies list, all
      ensures Valid() && Within(all) && Timeouts() == InsertAll(old(Timeouts()), arms)
      ensures forall h | h in all :: h.data.freed == old(h.data.freed)
      ensures forall h | h in all && h !in Handles(arms) :: h.data == old(h.data)
    {
      hide Inserted, Sorted;
      ghost var q := Timeouts();
      for j := 0 to |arms|
        invariant Valid() && Within(all) && Timeouts() == InsertAll(q, arms[..j])
        invariant forall h | h in all :: h.data.freed == old(h.data.freed)
        invariant forall h | h in all && h !in Handles(arms) :: h.data == old(h.data)
      {
        var h := arms[j].h;
        InsertAllHandles(q, arms[..j], h);
        assert Handles(arms[..j]) == Handles(arms)[..j];
        assert Handles(q) == old(list.nodes) && Handles(Timeouts()) == list.nodes;
        StartOne(h, arms[j].at);
        assert h == Handles(arms)[j];
        assert arms[..j + 1][..j] == arms[..j] && arms[..j + 1][j] == arms[j];
      }
      assert arms[..|arms|] == arms;
    }

    /** Sets a timer and puts it into the queue. */
    method StartOne(h: Handle, at: nat)
      requires Valid() && h !in list.nodes && !h.data.freed
      modifies list, h, list.nodes`next, list.nodes`prev
      ensures Valid() && Timeouts() == Inserted(old(Timeouts()), Entry(h, at))
      ensures forall g :: g in list.nodes <==> g in old(list.nodes) || g == h
      ensures h.data == Clock(at, false)
    {
      hide Inserted, Sorted;
      ghost var q := Timeouts();
      h.data := h.data.(at := at);
      assert Timeouts() == q;
      InsertTimeout(h);
    }

    /** After the callback a periodic timer is armed again, counted from `now`, and an
        automatic one is freed. */
    method Finish(cur: Handle, now: nat)
      requires Valid() && !cur.data.freed
      requires cur.conf.intvl != 0 || cur.conf.autoFree ==> cur !in list.nodes
      modifies list, cur, list.nodes`next, list.nodes`prev
      ensures Valid() && Timeouts() == InsertAll(old(Timeouts()), Rearm(cur, now))
      ensures forall g | g in list.nodes :: g in old(list.nodes) || g == cur
      ensures cur.data.freed <==> FreedAfter(cur)
    {
      hide Inserted, Sorted, List.Valid;
      ghost var q := Timeouts();
      if cur.conf.intvl != 0 {
        StartOne(cur, now + cur.conf.intvl);
        InsertAllOne(q, Entry(cur, now + cur.conf.intvl));
      } else if cur.conf.autoFree {
        cur.data := cur.data.(freed := true);
        assert Timeouts() == q;
      }
    }

    /** Timers that the callback of `cur` can start. */
    ghost predicate StartableBy(cur: Handle, arms: seq<Entry>, all: set<Handle>)
      reads list, all
    {
      forall j | 0 <= j < |arms| ::
        && arms[j].h in all && (arms[j].h == cur || arms[j].h !in list.nodes) && arms[j].h !in Handles(arms)[..j]
        && !arms[j].h.data.freed
        && (arms[j].h == cur ==> cur.conf.intvl == 0 && !cur.conf.autoFree)
    }

    /** The first timer is taken out of the queue, and then its callback runs. */
    method RunCallback(cur: Handle, arms: seq<Entry>, ghost all: set<Handle>)
      requires Valid() && Within(all) && list.nodes != [] && list.nodes[0] == cur && StartableBy(cur, arms, all)
      modifies list, all
      ensures Valid() && Within(all) && Timeouts() == InsertAll(old(Timeouts())[1..], arms)
      ensures forall h | h in all :: h.data.freed == old(h.data.freed)
      ensures cur in list.nodes ==> cur.conf.intvl == 0 && !cur.conf.autoFree
    {
      hide Inserted, Sorted, InsertAll;
      ghost var q := Timeouts();
      DeleteTimeout(cur);
      assert Timeouts() == q[1..];
      assert Handles(q[1..]) == list.nodes == old(list.nodes)[1..];
      Callback(arms, all);
      assert Handles(Timeouts()) == list.nodes;
      InsertAllHandles(q[1..], arms, cur);
      assert forall j | 0 <= j < |arms| :: Handles(arms)[j] == arms[j].h;
    }

    /** One turn of the loop in `backend_event_loop_run_timers`: the first timer leaves the
        queue, its callback runs, and it is armed again or freed. */
    method Fire(cur: Handle, now: nat, arms: seq<Entry>, ghost all: set<Handle>)
      requires Valid() && Within(all) && list.nodes != [] && list.nodes[0] == cur && StartableBy(cur, arms, all)
      modifies list, all
      ensures Valid() && Within(all) && Timeouts() == InsertAll(old(Timeouts())[1..], arms + Rearm(cur, now))
      ensures forall h | h in all :: h.data.freed <==> old(h.data.freed) || (h == cur && FreedAfter(cur))
    {
      hide Inserted, Sorted, InsertAll, Rearm, FreedAfter, StartableBy, List.Valid;
      InsertAllAppend(Timeouts()[1..], arms, Rearm(cur, now));
      RunCallback(cur, arms, all);
      Finish(cur, now);
    }

    /** The body of the loop: the pointer moves to the next timer before the current one is
        taken out and fires. */
    method Advance(cur: Handle, now: nat, calls: nat -> seq<Entry>, k: nat, ghost q: Queue, ghost all: set<Handle>)
      returns (timeout: Node?<Kind, Clock>)
      requires Valid() && Within(all) && WellBehaved(q, now, calls) && Sorted(q)
      requires k < Due(q, now) && cur == q[k].h && Timeouts() == Midway(q, now, calls, k)
      requires forall j | 0 <= j < |calls(k)| :: calls(k)[j].h in all
      requires forall j | 0 <= j < |calls(k)| && calls(k)[j].h.data.freed :: calls(k)[j].h in Handles(q)[..k] && FreedAfter(calls(k)[j].h)
      modifies list, all
      ensures Valid() && Within(all) && Timeouts() == Midway(q, now, calls, k + 1)
      ensures if k + 1 < Due(q, now) then timeout == q[k + 1].h else timeout != null ==> timeout.data.at > now
      ensures forall h | h in all :: h.data.freed <==> old(h.data.freed) || (h == cur && FreedAfter(cur))
    {
      hide InsertAll, Sorted, New, Due;
      ghost var d, t := Due(q, now), Timeouts();
      assert t[0] == q[k] && list.LinkedAt(0);
      timeout := cur.next;
      assert timeout == if |t| == 1 then null else t[1].h;
      forall j | 0 <= j < |calls(k)|
        ensures MayStart(q, now, calls, k, j) && (calls(k)[j].h == cur || calls(k)[j].h !in list.nodes)
      {
        assert list.nodes == [cur] + Handles(t[1..]);
        if calls(k)[j].h in Handles(t[1..]) {
          MidwayHandles(q, now, calls, k, calls(k)[j].h);
        }
      }
      Fire(cur, now, calls(k), all);
      MidwayStep(q, now, calls, k);
      ghost var r := Timeouts();
      if k + 1 < d {
        assert t[1] == q[k + 1];
      } else if timeout != null {
        NewLater(q, now, calls, k);
        RestLater(q, now, New(Handles(q)[..k], now, calls));
        InsertAllKeeps(t[1..], calls(k) + Rearm(cur, now), t[1]);
        ghost var i :| 0 <= i < |r| && r[i] == t[1];
      }
    }

    /** `backend_event_loop_run_timers` with the clock at `now`: exactly the due timers fire,
        once each and in their order, although callbacks and periodic timers insert into the
        queue that is being walked. */
    method RunTimers(now: nat, calls: nat -> seq<Entry>, ghost all: set<Handle>) returns (fired: seq<Handle>)
      requires Valid() && Within(all) && WellBehaved(Timeouts(), now, calls)
      requires forall k, j | 0 <= k < Due(Timeouts(), now) && 0 <= j < |calls(k)| ::
                 calls(k)[j].h in all && !calls(k)[j].h.data.freed
      modifies list, all
      ensures Valid() && Within(all)
      ensures fired == Handles(old(Timeouts()))[..Due(old(Timeouts()), now)]
      ensures Timeouts() == InsertAll(old(Timeouts())[|fired|..], New(fired, now, calls))
      ensures forall i | 0 <= i < |Timeouts()| :: now < Timeouts()[i].at
      ensures forall i, j | 0 <= i < j < |Timeouts()| :: Timeouts()[i].at <= Timeouts()[j].at && Timeouts()[i].h != Timeouts()[j].h
      ensures forall e :: e in Timeouts() <==>
                || (e in old(Timeouts()) && e.at > now)
                || (exists k | 0 <= k < |fired| :: e in calls(k))
                || (e.h in fired && e.h.conf.intvl != 0 && e.at == now + e.h.conf.intvl)
      ensures forall h | h in all :: h.data.freed <==> old(h.data.freed) || (h in fired && h.conf.intvl == 0 && h.conf.autoFree)
    {
      hide InsertAll, Sorted, Due, New, MayStart, List.Valid;
      ghost var q := Timeouts();
      list.FirstMember();
      ghost var d := Due(q, now);
      MidwayEnds(q, now, calls);
      fired := [];
      var timeout := list.first;
      while timeout != null
        invariant Valid() && Within(all) && |fired| <= d && fired == Handles(q)[..|fired|]
        invariant Timeouts() == Midway(q, now, calls, |fired|)
        invariant if |fired| < d then timeout == q[|fired|].h else timeout != null ==> timeout.data.at > now
        invariant forall h | h in all :: h.data.freed <==> old(h.data.freed) || (h in fired && FreedAfter(h))
        decreases d - |fired|
      {
        assert |fired| < d ==> Timeouts()[0] == q[|fired|];
        if timeout.data.at > now {
          break;
        }
        fired := fired + [timeout];
        timeout := Advance(timeout, now, calls, |fired| - 1, q, all);
      }
      PassEffect(q, now, calls);
      QueueIsOrdered();
    }

    /** The timers in the queue are in order, and different ones. */
    lemma QueueIsOrdered()
      requires Valid()
      ensures forall i, j | 0 <= i < j < |Timeouts()| ::
                Timeouts()[i].at <= Timeouts()[j].at && Timeouts()[i].h != Timeouts()[j].h
    {
    }
  }

  lemma {:induction false} InsertAllKeeps(q: Queue, es: seq<Entry>, e: Entry)
    requires e in q
    ensures e in InsertAll(q, es)
  {
    if es != [] {
      var n := |es| - 1;
      InsertAllKeeps(q, es[..n], e);
      var r := InsertAll(q, es[..n]);
      assert r[..Due(r, es[n].at)] + r[Due(r, es[n].at)..] == r;
    }
  }

  lemma InsertAllOne(q: Queue, e: Entry)
    ensures InsertAll(q, [e]) == Inserted(q, e)
  {
    assert [e][..0] == [];
  }

  // ----- how long to sleep -----

  /** The conversion of an `uint64_t` to `int`. */
  function ToInt(x: int): (r: int)
    ensures -0x8000_0000 <= r < 0x8000_0000
    ensures exists k: int :: x == r + k * 0x1_0000_0000
    ensures -0x8000_0000 <= x < 0x8000_0000 ==> r == x
  {
    var k := (x + 0x8000_0000) / 0x1_0000_0000;
    assert x == x - k * 0x1_0000_0000 + k * 0x1_0000_0000;
    x - k * 0x1_0000_0000
  }

  /** The timeout for `epoll_wait` in `backend_event_loop_run`; -1 waits for ever. */
  method SleepTime(loop: EventLoop, now: nat) returns (ms: int)
    requires loop.Valid()
    ensures ms == Sleep(loop.Timeouts(), now)
  {
    var timeout := loop.list.first;
    if timeout != null {
      if now > timeout.data.at {
        ms := 0;
      } else {
        ms := ToInt(timeout.data.at - now);
      }
    } else {
      ms := -1;
    }
  }

  function Sleep(q: Queue, now: nat): int {
    if q == [] then -1 else if now > q[0].at then 0 else ToInt(q[0].at - now)
  }

  /** When the loop has slept that long some timer is due, and none was due before. */
  predicate WakesOnTime(q: Queue, now: nat, ms: int) {
    && ms >= 0
    && Due(q, now + ms) > 0
    && forall t: nat | now <= t < now + ms :: Due(q, t) == 0
  }

  /** The loop wakes up exactly when the first timer is due, if and only if the time until
      then fits into an `int`. */
  lemma SleepExactly(q: Queue, now: nat)
    requires Sorted(q)
    ensures q != [] ==> (WakesOnTime(q, now, Sleep(q, now)) <==> q[0].at - now < 0x8000_0000)
    ensures q == [] ==> Sleep(q, now) == -1
  {
    if q == [] {
      return;
    }
    var ms := Sleep(q, now);
    if q[0].at - now >= 0x8000_0000 {
      if 0 <= ms {
        assert now + ms < q[0].at;
        assert Due(q, now + ms) == 0;
      }
    }
  }
}
