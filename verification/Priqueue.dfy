/** The singly linked priority queue, and the job records its nodes point to. */
module Priqueue {
  import opened Jobs
  import opened QueueSpec

  /** A `job_t`. */
  class JobRecord {
    var id: int
    var core: int
    var arrival: int
    var run: int
    var priority: int
    var start: int
    var remaining: int
    var pause: int
    var responded: bool

    constructor (id: int, core: int, arrival: int, run: int, priority: int, start: int, remaining: int, pause: int)
      ensures Value() == Job(id, core, arrival, run, priority, start, remaining, pause, false)
    {
      this.id, this.core, this.arrival, this.run, this.priority := id, core, arrival, run, priority;
      this.start, this.remaining, this.pause, this.responded := start, remaining, pause, false;
    }

    function Value(): Job
      reads this
    {
      Job(id, core, arrival, run, priority, start, remaining, pause, responded)
    }
  }

  ghost function Values(items: seq<JobRecord>): (v: seq<Job>)
    reads items
    ensures |v| == |items|
    ensures forall i :: 0 <= i < |items| ==> v[i] == items[i].Value()
  {
    seq(|items|, i requires 0 <= i < |items| reads items => items[i].Value())
  }

  class Node {
    var data: JobRecord
    var next: Node?

    constructor (data: JobRecord)
      ensures this.data == data && next == null
    {
      this.data := data;
      next := null;
    }
  }

  ghost function NodeAt(nodes: seq<Node>, i: int): Node? {
    if 0 <= i < |nodes| then nodes[i] else null
  }

  /** Node `i` carries item `i` and leads to the next one. */
  ghost predicate LinkAt(nodes: seq<Node>, items: seq<JobRecord>, i: int)
    requires 0 <= i < |nodes| == |items|
    reads nodes
  {
    nodes[i].data == items[i] && nodes[i].next == NodeAt(nodes, i + 1)
  }

  /** Following `next` from `head` leads through exactly `nodes`, which carry `items`. */
  ghost predicate Linked(head: Node?, nodes: seq<Node>, items: seq<JobRecord>)
    reads nodes
  {
    && |nodes| == |items|
    && head == NodeAt(nodes, 0)
    && Different(nodes)
    && forall i :: 0 <= i < |nodes| ==> LinkAt(nodes, items, i)
  }

  lemma InsertDifferent(nodes: seq<Node>, k: nat, n: Node)
    requires k <= |nodes| && Different(nodes) && n !in nodes
    ensures Different(Insert(nodes, k, n))
    ensures forall m :: m in Insert(nodes, k, n) ==> m == n || m in nodes
  {
  }

  /** All links as before, except that node `k - 1`, if there is one, leads to `n`. */
  ghost predicate Redirected(nodes: seq<Node>, items: seq<JobRecord>, k: int, n: Node?, i: int)
    requires 0 <= i < |nodes| == |items|
    reads nodes
  {
    nodes[i].data == items[i] && nodes[i].next == if i + 1 == k then n else NodeAt(nodes, i + 1)
  }

  /** A new node linked in at position `k`. */
  lemma InsertLinked(head: Node?, nodes: seq<Node>, items: seq<JobRecord>, k: nat, n: Node)
    requires |nodes| == |items| && k <= |nodes| && Different(nodes) && n !in nodes
    requires head == if k == 0 then n else nodes[0]
    requires n.next == NodeAt(nodes, k)
    requires forall i :: 0 <= i < |nodes| ==> Redirected(nodes, items, k, n, i)
    ensures Linked(head, Insert(nodes, k, n), Insert(items, k, n.data))
  {
    var r, s := Insert(nodes, k, n), Insert(items, k, n.data);
    InsertDifferent(nodes, k, n);
    InsertIndex(nodes, k, n, 0);
    InsertIndex(items, k, n.data, 0);
    hide Insert, Different;
    forall i | 0 <= i < |r|
      ensures LinkAt(r, s, i)
    {
      InsertIndex(nodes, k, n, i);
      InsertIndex(items, k, n.data, i);
      if i < |nodes| {
        InsertIndex(nodes, k, n, i + 1);
      }
      if i < k {
        assert Redirected(nodes, items, k, n, i);
      } else if i > k {
        assert Redirected(nodes, items, k, n, i - 1);
      }
    }
  }

  lemma RemoveDifferent(nodes: seq<Node>, k: nat)
    requires k < |nodes| && Different(nodes)
    ensures Different(RemoveAt(nodes, k))
    ensures forall m :: m in RemoveAt(nodes, k) ==> m in nodes
  {
  }

  /** The node at position `k` linked out. */
  lemma RemoveLinked(head: Node?, nodes: seq<Node>, items: seq<JobRecord>, k: nat, after: Node?)
    requires |nodes| == |items| && k < |nodes| && Different(nodes)
    requires after == NodeAt(nodes, k + 1)
    requires head == if k == 0 then after else nodes[0]
    requires forall i :: 0 <= i < |nodes| ==> Redirected(nodes, items, k, after, i)
    ensures Linked(head, RemoveAt(nodes, k), RemoveAt(items, k))
  {
    var r, s := RemoveAt(nodes, k), RemoveAt(items, k);
    RemoveDifferent(nodes, k);
    assert |r| == |s| == |nodes| - 1;
    if |r| > 0 {
      RemoveIndex(nodes, k, 0);
    }
    hide RemoveAt, Different;
    forall i | 0 <= i < |r|
      ensures LinkAt(r, s, i)
    {
      RemoveIndex(nodes, k, i);
      RemoveIndex(items, k, i);
      if i + 1 < |r| {
        RemoveIndex(nodes, k, i + 1);
      }
      assert Redirected(nodes, items, k, after, if i < k then i else i + 1);
    }
  }

  lemma FirstOnly(nodes: seq<Node>, k: nat)
    requires Different(nodes) && k < |nodes|
    ensures nodes[k] == nodes[0] <==> k == 0
  {
  }

  /** How the search for the place of a new element begins and goes on. */
  lemma OfferStarts(cmp: (Job, Job) -> int, q: seq<Job>, x: Job)
    ensures OfferIndex(cmp, q, x) == if q == [] || cmp(x, q[0]) < 0 then 0 else Walk(cmp, q, x, 1)
  {
  }

  lemma WalkStep(cmp: (Job, Job) -> int, q: seq<Job>, x: Job, k: nat)
    requires k <= |q|
    ensures Walk(cmp, q, x, k) == if k < |q| && cmp(x, q[k]) > 0 then Walk(cmp, q, x, k + 1) else k
  {
  }

  class Priqueue {
    var head: Node?
    const cmp: (Job, Job) -> int
    ghost var nodes: seq<Node>
    ghost var items: seq<JobRecord>

    ghost predicate Valid()
      reads this, nodes
    {
      Linked(head, nodes, items)
    }

    constructor (cmp: (Job, Job) -> int)
      ensures Valid() && items == [] && nodes == [] && this.cmp == cmp
    {
      head := null;
      this.cmp := cmp;
      nodes, items := [], [];
    }

    /** Links `insert`, whose `next` is already set, in after `previous`, or at the head. */
    method Link(insert: Node, previous: Node?, ghost k: nat)
      requires Valid() && insert !in nodes
      requires k <= |nodes| && previous == NodeAt(nodes, k - 1) && insert.next == NodeAt(nodes, k)
      modifies this, nodes
      ensures Valid()
      ensures nodes == Insert(old(nodes), k, insert) && items == Insert(old(items), k, insert.data)
    {
      hide Different;
      ghost var nodes0, items0 := nodes, items;
      OthersDiffer(nodes, k - 1);
      if previous == null {
        head := insert;
      } else {
        previous.next := insert;
      }
      nodes, items := Insert(nodes, k, insert), Insert(items, k, insert.data);
      forall i | 0 <= i < |nodes0|
        ensures Redirected(nodes0, items0, k, insert, i)
      {
        assert old(LinkAt(nodes, items, i));
      }
      InsertLinked(head, nodes0, items0, k, insert);
    }

    /** The nodes between which a new node for `x` belongs. */
    method FindPlace(x: JobRecord) returns (previous: Node?, next: Node?, ghost k: nat)
      requires Valid()
      ensures k == OfferIndex(cmp, Values(items), x.Value()) <= |nodes|
      ensures previous == NodeAt(nodes, OfferIndex(cmp, Values(items), x.Value()) - 1)
      ensures next == NodeAt(nodes, OfferIndex(cmp, Values(items), x.Value()))
    {
      hide Values, OfferIndex, Walk, Different;
      ghost var vals, job := Values(items), x.Value();
      OfferStarts(cmp, vals, job);
      previous, next, k := null, head, 0;
      if head != null {
        assert LinkAt(nodes, items, 0);
        if cmp(x.Value(), head.data.Value()) >= 0 {
          previous, next, k := head, head.next, 1;
          while next != null && cmp(x.Value(), next.data.Value()) > 0
            invariant 1 <= k <= |nodes|
            invariant previous == NodeAt(nodes, k - 1) && next == NodeAt(nodes, k)
            invariant OfferIndex(cmp, vals, job) == Walk(cmp, vals, job, k)
            decreases |nodes| - k
          {
            assert LinkAt(nodes, items, k);
            WalkStep(cmp, vals, job, k);
            previous, next, k := next, next.next, k + 1;
          }
          assert k < |nodes| ==> LinkAt(nodes, items, k);
          WalkStep(cmp, vals, job, k);
        }
      }
    }

    /** Inserts `x` where `OfferIndex` says; answers the new size less one. */
    method Offer(x: JobRecord) returns (r: int)
      requires Valid()
      modifies this, nodes
      ensures Valid() && forall n :: n in nodes && n !in old(nodes) ==> fresh(n)
      ensures items == Insert(old(items), OfferIndex(cmp, old(Values(items)), old(x.Value())), x)
      ensures r == |items| - 1
    {
      hide Values, OfferIndex, Linked;
      var previous, next, k := FindPlace(x);
      var insert := new Node(x);
      insert.next := next;
      assert Valid();
      Link(insert, previous, k);
      r := Size();
      r := r - 1;
    }

    /** The walk that `priqueue_at` and `priqueue_remove_at` share, with the node walked over last.
        It ends on a node exactly when there is an element with that index; both functions then
        follow the pointer, so an index out of range is an error and not the documented NULL. */
    method Seek(index: int) returns (prev: Node?, n: Node?)
      requires Valid()
      ensures n == NodeAt(nodes, index) && (n != null <==> 0 <= index < |items|)
      ensures 0 < index < |nodes| ==> prev == nodes[index - 1]
    {
      var i := 0;
      prev, n := null, head;
      while i != index && n != null
        invariant 0 <= i <= |nodes| && n == NodeAt(nodes, i)
        invariant 0 < i ==> prev == nodes[i - 1]
        invariant 0 <= index ==> i <= index
        decreases |nodes| - i
      {
        assert LinkAt(nodes, items, i);
        prev := n;
        n := n.next;
        i := i + 1;
      }
    }

    method At(index: nat) returns (x: JobRecord)
      requires Valid() && index < |items|
      ensures x == items[index]
    {
      var prev, n := Seek(index);
      assert LinkAt(nodes, items, index);
      x := n.data;
    }

    method RemoveAt(index: nat) returns (x: JobRecord)
      requires Valid() && index < |items|
      modifies this, nodes
      ensures Valid() && forall n :: n in nodes ==> n in old(nodes)
      ensures x == old(items)[index] && items == QueueSpec.RemoveAt(old(items), index)
    {
      hide Different;
      var prev, n := Seek(index);
      assert LinkAt(nodes, items, index);
      FirstOnly(nodes, index);
      OthersDiffer(nodes, index - 1);
      ghost var nodes0, items0, after := nodes, items, NodeAt(nodes, index + 1);
      if n == head {
        head := head.next;
      } else if n != null {
        prev.next := n.next;
      }
      x := n.data;
      RemoveDifferent(nodes0, index);
      nodes, items := QueueSpec.RemoveAt(nodes, index), QueueSpec.RemoveAt(items, index);
      forall j | 0 <= j < |nodes0|
        ensures Redirected(nodes0, items0, index, after, j)
      {
        assert old(LinkAt(nodes, items, j));
      }
      RemoveLinked(head, nodes0, items0, index, after);
    }

    method Size() returns (count: nat)
      requires Valid()
      ensures count == |items|
    {
      count := 0;
      var n := head;
      while n != null
        invariant 0 <= count <= |nodes| && n == NodeAt(nodes, count)
        decreases |nodes| - count
      {
        assert LinkAt(nodes, items, count);
        n := n.next;
        count := count + 1;
      }
    }
  }
}
