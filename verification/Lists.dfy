/** The doubly linked lists of `sys/queue.h`. */
module Lists {

  /** `le_prev`: the place that points to the node. */
  datatype Link<C, D> = Nowhere | AtHead | After(node: Node<C, D>)

  /** A structure with a `LIST_ENTRY`; `conf` are the fields that are set once, `data` the
      other ones. */
  class Node<C, D> {
    const conf: C
    var next: Node?<C, D>
    var prev: Link<C, D>
    var data: D

    /** The test with which the program asks whether a structure is in a list. */
    predicate Active()
      reads this
    {
      next != null || prev != Nowhere
    }

    constructor (conf: C, data: D)
      ensures !Active() && this.conf == conf && this.data == data
    {
      this.conf := conf;
      next := null;
      prev := Nowhere;
      this.data := data;
    }
  }

  ghost predicate Distinct<T>(s: seq<T>) {
    forall i, j | 0 <= i < j < |s| :: s[i] != s[j]
  }

  /** `LIST_HEAD`; `nodes` are the members in order. */
  class List<C, D> {
    var first: Node?<C, D>
    ghost var nodes: seq<Node<C, D>>

    ghost predicate Valid()
      reads this, nodes
    {
      && Distinct(nodes)
      && first == NodeAt(0)
      && forall i | 0 <= i < |nodes| :: LinkedAt(i)
    }

    ghost predicate LinkedAt(i: nat)
      requires i < |nodes|
      reads this, nodes
    {
      nodes[i].next == NodeAt(i + 1) && nodes[i].prev == if i == 0 then AtHead else After(nodes[i - 1])
    }

    ghost function NodeAt(i: nat): Node?<C, D>
      reads this
    {
      if i < |nodes| then nodes[i] else null
    }

    lemma FirstMember()
      requires Valid()
      ensures first == NodeAt(0)
    {
    }

    lemma MembersDiffer()
      requires Valid()
      ensures Distinct(nodes)
    {
    }

    /** The program's test agrees with membership. */
    lemma MemberIsActive(n: Node<C, D>)
      requires Valid() && n in nodes
      ensures n.Active()
    {
      var i :| 0 <= i < |nodes| && nodes[i] == n;
      assert LinkedAt(i);
    }

    constructor ()
      ensures Valid() && nodes == []
    {
      first := null;
      nodes := [];
    }

    /** `LIST_INSERT_HEAD` */
    method InsertHead(n: Node<C, D>)
      requires Valid() && n !in nodes
      modifies this, n`next, n`prev, nodes`prev
      ensures Valid() && nodes == [n] + old(nodes)
    {
      ghost var was := nodes;
      assert was != [] ==> LinkedAt(0);
      n.next := first;
      if n.next != null {
        first.prev := After(n);
      }
      first := n;
      n.prev := AtHead;
      nodes := [n] + nodes;
      forall j | 0 < j < |nodes| ensures LinkedAt(j) {
        assert old(LinkedAt(j - 1)) && nodes[j] == was[j - 1];
      }
    }

    /** `LIST_INSERT_HEAD` of a node that is in the list already: the members up to that
        node become a cycle, so that a walk from the head never reaches the end. */
    method InsertMember(n: Node<C, D>, ghost i: nat)
      requires Valid() && i < |nodes| && nodes[i] == n
      modifies this`first, n`next, n`prev, nodes`prev
      ensures nodes == old(nodes) && first == nodes[i] && nodes[i].next == nodes[0]
      ensures forall j | 0 <= j < i :: nodes[j].next == NodeAt(j + 1)
    {
      forall j | 0 <= j < i ensures nodes[j] != n && nodes[j].next == NodeAt(j + 1) {
        assert LinkedAt(j);
      }
      n.next := first;
      if n.next != null {
        first.prev := After(n);
      }
      first := n;
      n.prev := AtHead;
    }

    /** `LIST_INSERT_AFTER` */
    method InsertAfter(p: Node<C, D>, n: Node<C, D>, ghost i: nat)
      requires Valid() && n !in nodes && i < |nodes| && nodes[i] == p
      modifies this`nodes, n`next, n`prev, nodes`next, nodes`prev
      ensures Valid() && nodes == old(nodes[..i + 1]) + [n] + old(nodes[i + 1..])
    {
      ghost var was := nodes;
      assert LinkedAt(i);
      n.next := p.next;
      if n.next != null {
        assert LinkedAt(i + 1);
        n.next.prev := After(n);
      }
      p.next := n;
      n.prev := After(p);
      nodes := was[..i + 1] + [n] + was[i + 1..];
      forall j | 0 <= j < |nodes| ensures LinkedAt(j) {
        if j <= i {
          assert old(LinkedAt(j)) && nodes[j] == was[j];
        } else if j > i + 1 {
          assert old(LinkedAt(j - 1)) && nodes[j] == was[j - 1];
        }
      }
    }

    /** `LIST_REMOVE`, after which the program clears both pointers. */
    method Remove(n: Node<C, D>, ghost i: nat)
      requires Valid() && i < |nodes| && nodes[i] == n
      modifies this, nodes`next, nodes`prev
      ensures Valid() && nodes == old(nodes[..i]) + old(nodes[i + 1..])
      ensures !n.Active()
    {
      ghost var was := nodes;
      assert LinkedAt(i) && (i > 0 ==> LinkedAt(i - 1));
      if n.next != null {
        assert LinkedAt(i + 1);
        n.next.prev := n.prev;
      }
      match n.prev {
        case AtHead => first := n.next;
        case After(p) => p.next := n.next;
        case Nowhere =>
      }
      n.next := null;
      n.prev := Nowhere;
      nodes := was[..i] + was[i + 1..];
      forall j | 0 <= j < |nodes| ensures LinkedAt(j) {
        if j < i {
          assert old(LinkedAt(j)) && nodes[j] == was[j];
        } else {
          assert old(LinkedAt(j + 1)) && nodes[j] == was[j + 1];
        }
      }
    }
  }
}
