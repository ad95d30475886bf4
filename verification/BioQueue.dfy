/** The linked list under the driver's queues, and the in-place dequeue that
    delays reads behind overlapping writes. */
module BioQueue {
  import opened Blocks
  import DelayRead

  class Node {
    var bio: Bio
    var next: Node?

    constructor (bio: Bio)
      ensures this.bio == bio && next == null
    {
      this.bio, next := bio, null;
    }
  }

  class BioList {
    var head: Node?
    var tail: Node?
    ghost var nodes: seq<Node>

    /** A proper list: no node twice, linked in order, ended by the tail. */
    ghost predicate Valid()
      reads this, nodes
    {
      && (forall i, j :: 0 <= i < j < |nodes| ==> nodes[i] != nodes[j])
      && (nodes == [] ==> head == null && tail == null)
      && (nodes != [] ==> head == nodes[0] && tail == nodes[|nodes| - 1] && tail.next == null)
      && forall i {:trigger nodes[i].next} :: 0 <= i < |nodes| - 1 ==> nodes[i].next == nodes[i + 1]
    }

    ghost function Contents(): (q: seq<Bio>)
      reads this, nodes
      ensures |q| == |nodes| && forall i :: 0 <= i < |q| ==> q[i] == nodes[i].bio
    {
      seq(|nodes|, i requires 0 <= i < |nodes| reads this, nodes => nodes[i].bio)
    }

    constructor ()
      ensures Valid() && nodes == []
    {
      head, tail, nodes := null, null, [];
    }

    /** Appends a request. */
    method Add(n: Node)
      requires Valid() && n !in nodes
      modifies this, nodes, n`next
      ensures Valid() && nodes == old(nodes) + [n]
      ensures Contents() == old(Contents()) + [n.bio] && n.bio == old(n.bio)
    {
      n.next := null;
      if tail != null {
        tail.next := n;
      } else {
        head := n;
      }
      tail := n;
      nodes := nodes + [n];
    }

    /** Takes the oldest request, if there is one. */
    method Pop() returns (n: Node?)
      requires Valid()
      modifies this, nodes
      ensures Valid()
      ensures old(nodes) == [] ==> n == null && nodes == []
      ensures old(nodes) != [] ==>
        && n == old(nodes)[0] && n.next == null && nodes == old(nodes)[1..]
        && Contents() == old(Contents())[1..]
      ensures forall m :: m in old(nodes) ==> m.bio == old(m.bio)
    {
      n := head;
      if n != null {
        head := head.next;
        if head == null { tail := null; }
        n.next := null;
        nodes := nodes[1..];
      }
    }

    /** Looks for the first queued write that overlaps a read. */
    method FindOverlap(read: Bio) returns (tmp: Node?, prev: Node?, ghost i: nat)
      requires Valid()
      ensures i == DelayRead.FirstOverlap(read, Contents())
      ensures tmp == null <==> DelayRead.FirstOverlap(read, Contents()) == |nodes|
      ensures var k := DelayRead.FirstOverlap(read, Contents());
              k < |nodes| ==> tmp == nodes[k] && prev == (if k == 0 then null else nodes[k - 1])
    {
      tmp, prev, i := head, null, 0;
      while tmp != null && !(tmp.bio.write && DelayRead.Overlap(read, tmp.bio))
        invariant i <= |nodes|
        invariant tmp == (if i < |nodes| then nodes[i] else null)
        invariant prev == (if i == 0 then null else nodes[i - 1])
        invariant forall j :: 0 <= j < i ==> !(nodes[j].bio.write && DelayRead.Overlap(read, nodes[j].bio))
        decreases |nodes| - i
      {
        prev := tmp;
        tmp := tmp.next;
        i := i + 1;
      }
      FirstOverlapIs(read, Contents(), i);
    }

    /** Takes the oldest request, unless it is a read that overlaps a queued
        write: then that write is taken, and the read put in its place. */
    method DequeueDelayRead() returns (n: Node)
      requires Valid() && nodes != []
      modifies this, nodes
      ensures Valid() && n.next == null
      ensures n == old(nodes)[DelayRead.Picked(old(Contents()))]
      ensures nodes == Without(old(nodes), DelayRead.Picked(old(Contents())))
      ensures Contents() == DelayRead.Rest(old(Contents()))
      ensures forall m :: m in old(nodes) ==> m.bio == old(m.bio)
    {
      ghost var q, k := Contents(), 0;
      n := Pop();
      assert n.bio == q[0];
      if n.bio.write {
        WriteFirst(q);
      } else {
        n, k := Delay(n);
        ReadFirst(q, k);
      }
    }

    /** Exchanges a popped read with the first queued write that overlaps it;
        k counts from one, zero if there is none. */
    method Delay(read: Node) returns (n: Node, ghost k: nat)
      requires Valid() && read !in nodes && read.next == null
      modifies this, nodes, read
      ensures Valid() && n.next == null && k <= |old(nodes)|
      ensures var i := DelayRead.FirstOverlap(old(read.bio), old(Contents()));
              k == if i == |old(nodes)| then 0 else i + 1
      ensures n == if k == 0 then read else old(nodes)[k - 1]
      ensures nodes == if k == 0 then old(nodes) else old(nodes)[k - 1 := read]
      ensures Contents() == if k == 0 then old(Contents()) else old(Contents())[k - 1 := old(read.bio)]
      ensures read.bio == old(read.bio) && forall m :: m in old(nodes) ==> m.bio == old(m.bio)
    {
      var tmp, prev;
      ghost var i;
      tmp, prev, i := FindOverlap(read.bio);
      n, k := read, 0;
      if tmp != null {
        n := Swap(read, tmp, prev, i);
        k := i + 1;
      }
    }

    /** Puts `n` where `tmp` is. */
    method Swap(n: Node, tmp: Node, prev: Node?, ghost i: nat) returns (out: Node)
      requires Valid() && n !in nodes && i < |nodes| && tmp == nodes[i]
      requires prev == if i == 0 then null else nodes[i - 1]
      modifies this, nodes, n
      ensures Valid() && out == tmp && out.next == null
      ensures nodes == old(nodes)[i := n]
      ensures n.bio == old(n.bio) && forall m :: m in old(nodes) ==> m.bio == old(m.bio)
    {
      if prev != null {
        prev.next := n;
      } else {
        head := n;
      }
      if tail == tmp { tail := n; }
      n.next := tmp.next;
      tmp.next := null;
      nodes := nodes[i := n];
      out := tmp;
    }
  }

  /** A list without its k-th element, the first one standing in for it. */
  ghost function Without<T>(s: seq<T>, k: nat): seq<T>
    requires k < |s|
  {
    if k == 0 then s[1..] else s[1..][k - 1 := s[0]]
  }

  lemma PickedWhen(q: seq<Bio>, k: nat)
    requires q != [] && !q[0].write
    requires var i := DelayRead.FirstOverlap(q[0], q[1..]); k == if i == |q| - 1 then 0 else i + 1
    ensures DelayRead.Picked(q) == k
  {
  }

  lemma WriteFirst(q: seq<Bio>)
    requires q != [] && q[0].write
    ensures DelayRead.Picked(q) == 0 && DelayRead.Rest(q) == q[1..]
  {
  }

  lemma ReadFirst(q: seq<Bio>, k: nat)
    requires q != [] && !q[0].write
    requires var i := DelayRead.FirstOverlap(q[0], q[1..]); k == if i == |q| - 1 then 0 else i + 1
    ensures DelayRead.Picked(q) == k
    ensures DelayRead.Rest(q) == if k == 0 then q[1..] else q[1..][k - 1 := q[0]]
  {
    PickedWhen(q, k);
    RestIsWithout(q);
  }

  lemma RestIsWithout(q: seq<Bio>)
    requires q != []
    ensures DelayRead.Rest(q) == Without(q, DelayRead.Picked(q))
  {
    var k := DelayRead.Picked(q);
    if k > 0 { assert q[1..][k - 1 := q[0]] == q[1..k] + [q[0]] + q[k + 1..]; }
  }

  lemma FirstOverlapIs(read: Bio, q: seq<Bio>, k: nat)
    requires k <= |q|
    requires k < |q| ==> q[k].write && DelayRead.Overlap(read, q[k])
    requires forall i :: 0 <= i < k ==> !(q[i].write && DelayRead.Overlap(read, q[i]))
    ensures DelayRead.FirstOverlap(read, q) == k
  {
  }
}
