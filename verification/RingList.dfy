/** The intrusive circular doubly linked list of `list.h`. */
module RingList {
  import opened QueueSpec

  /** A `list_head`.  A null link stands for the poison value that `list_del` leaves behind. */
  class Node {
    var next: Node?
    var prev: Node?
  }

  /** Position `i` on a ring, one step beyond either end included. */
  ghost function At(ns: seq<Node>, i: int): Node
    requires ns != [] && -1 <= i <= |ns|
  {
    if i == -1 then ns[|ns| - 1] else if i == |ns| then ns[0] else ns[i]
  }

  /** The nodes of `ns`, in this order, form a closed ring in both directions. */
  ghost predicate Ring(ns: seq<Node>)
    reads ns
  {
    ns != [] && Different(ns) && Looped(ns)
  }

  ghost predicate Looped(ns: seq<Node>)
    requires ns != []
    reads ns
  {
    forall i :: 0 <= i < |ns| ==> LinkedAt(ns, i)
  }

  /** Position `i` is linked to its neighbours. */
  ghost predicate LinkedAt(ns: seq<Node>, i: int)
    requires 0 <= i < |ns|
    reads ns
  {
    ns[i].next == At(ns, i + 1) && ns[i].prev == At(ns, i - 1)
  }

  /** The same, except that position `p` leads on to `a` and position `q` leads back to `b`. */
  ghost predicate BentAt(ns: seq<Node>, i: int, p: int, a: Node?, q: int, b: Node?)
    requires 0 <= i < |ns|
    reads ns
  {
    && ns[i].next == (if i == p then a else At(ns, i + 1))
    && ns[i].prev == (if i == q then b else At(ns, i - 1))
  }

  // ----- what a ring determines -----

  /** `next` and `prev` undo each other on a ring. */
  lemma MutuallyInverse(ns: seq<Node>, i: nat)
    requires Ring(ns) && i < |ns|
    ensures ns[i].next != null && ns[i].next.prev == ns[i]
    ensures ns[i].prev != null && ns[i].prev.next == ns[i]
  {
    var j := if i + 1 == |ns| then 0 else i + 1;
    var k := if i == 0 then |ns| - 1 else i - 1;
    assert LinkedAt(ns, i) && LinkedAt(ns, j) && LinkedAt(ns, k);
  }

  lemma {:induction false} SamePrefix(a: seq<Node>, b: seq<Node>, k: nat)
    requires a != [] && b != [] && Looped(a) && Looped(b) && a[0] == b[0] && k < |a| && k < |b|
    ensures a[k] == b[k]
  {
    if k > 0 {
      SamePrefix(a, b, k - 1);
      assert LinkedAt(a, k - 1) && LinkedAt(b, k - 1);
    }
  }

  /** A longer loop from the same node would come back to it too early. */
  lemma WrapAround(a: seq<Node>, b: seq<Node>)
    requires a != [] && b != [] && Looped(a) && Looped(b) && a[0] == b[0]
    ensures |b| < |a| ==> a[|b|] == a[0]
  {
    if |b| < |a| {
      var n := |b| - 1;
      SamePrefix(a, b, n);
      assert LinkedAt(a, n) && LinkedAt(b, n);
    }
  }

  /** The links determine the sequence: two rings that start at the same head are the same. */
  lemma RingIsUnique(a: seq<Node>, b: seq<Node>)
    requires Ring(a) && Ring(b) && a[0] == b[0]
    ensures a == b
  {
    WrapAround(a, b);
    WrapAround(b, a);
    forall k | 0 <= k < |a|
      ensures a[k] == b[k]
    {
      SamePrefix(a, b, k);
    }
  }

  // ----- linking in and out -----

  lemma InsertAt(ns: seq<Node>, k: nat, n: Node, i: int)
    requires ns != [] && 1 <= k <= |ns| && -1 <= i <= |ns| + 1
    ensures |Insert(ns, k, n)| == |ns| + 1
    ensures At(Insert(ns, k, n), i) ==
      if i == -1 then (if k == |ns| then n else ns[|ns| - 1])
      else if i == |ns| + 1 then ns[0] else if i < k then ns[i] else if i == k then n else ns[i - 1]
  {
  }

  lemma InsertDifferent(ns: seq<Node>, k: nat, n: Node)
    requires k <= |ns| && Different(ns) && n !in ns
    ensures Different(Insert(ns, k, n))
  {
  }

  /** The links after a node has been put in front of position `k`. */
  lemma InsertRing(ns: seq<Node>, k: nat, n: Node, p: nat, q: nat)
    requires ns != [] && Different(ns) && n !in ns && 1 <= k <= |ns|
    requires p == k - 1 && q == if k == |ns| then 0 else k
    requires n.next == ns[q] && n.prev == ns[p]
    requires forall i :: 0 <= i < |ns| ==> BentAt(ns, i, p, n, q, n)
    ensures Ring(Insert(ns, k, n))
  {
    var r := Insert(ns, k, n);
    InsertDifferent(ns, k, n);
    InsertAt(ns, k, n, 0);
    hide Insert, Different;
    forall i | 0 <= i < |r|
      ensures LinkedAt(r, i)
    {
      InsertAt(ns, k, n, i - 1);
      InsertAt(ns, k, n, i);
      InsertAt(ns, k, n, i + 1);
      if i != k {
        assert BentAt(ns, if i < k then i else i - 1, p, n, q, n);
      }
    }
  }

  lemma RemovedAt(ns: seq<Node>, k: nat, i: int)
    requires |ns| >= 2 && k < |ns| && -1 <= i <= |ns| - 1
    ensures |RemoveAt(ns, k)| == |ns| - 1
    ensures At(RemoveAt(ns, k), i) ==
      if i == -1 then (if k == |ns| - 1 then ns[|ns| - 2] else ns[|ns| - 1])
      else if i == |ns| - 1 then (if k == 0 then ns[1] else ns[0]) else ns[if i < k then i else i + 1]
  {
  }

  lemma RemovedDifferent(ns: seq<Node>, k: nat)
    requires Different(ns) && k < |ns|
    ensures Different(RemoveAt(ns, k)) && ns[k] !in RemoveAt(ns, k)
    ensures forall n :: n in RemoveAt(ns, k) ==> n in ns
  {
  }

  /** The position before and after `k` on a ring. */
  function Before(ns: seq<Node>, k: nat): nat
    requires k < |ns|
  {
    if k == 0 then |ns| - 1 else k - 1
  }

  function Behind(ns: seq<Node>, k: nat): nat
    requires k < |ns|
  {
    if k == |ns| - 1 then 0 else k + 1
  }

  /** The links after the node at position `k` has been bridged. */
  lemma RemoveRing(ns: seq<Node>, k: nat)
    requires |ns| >= 2 && Different(ns) && k < |ns|
    requires forall i :: 0 <= i < |ns| && i != k ==>
      BentAt(ns, i, Before(ns, k), ns[Behind(ns, k)], Behind(ns, k), ns[Before(ns, k)])
    ensures Ring(RemoveAt(ns, k))
  {
    var r := RemoveAt(ns, k);
    RemovedDifferent(ns, k);
    RemovedAt(ns, k, 0);
    hide RemoveAt, Different;
    forall i | 0 <= i < |r|
      ensures LinkedAt(r, i)
    {
      RemovedAt(ns, k, i - 1);
      RemovedAt(ns, k, i);
      RemovedAt(ns, k, i + 1);
      assert BentAt(ns, if i < k then i else i + 1, Before(ns, k), ns[Behind(ns, k)], Behind(ns, k), ns[Before(ns, k)]);
    }
  }

  // ----- the operations -----

  /** `INIT_LIST_HEAD`. */
  method Init(n: Node)
    modifies n
    ensures Ring([n])
  {
    n.next := n;
    n.prev := n;
  }

  /** `__list_add`: in front of position `k`. */
  method AddBetween(n: Node, prev: Node, next: Node, ghost ns: seq<Node>, ghost k: nat)
    requires Ring(ns) && n !in ns && 1 <= k <= |ns| && prev == ns[k - 1] && next == At(ns, k)
    modifies n, prev, next
    ensures Ring(Insert(ns, k, n))
  {
    ghost var p, q := k - 1, if k == |ns| then 0 else k;
    OthersDiffer(ns, p);
    OthersDiffer(ns, q);
    hide Different;
    next.prev := n;
    n.next := next;
    n.prev := prev;
    prev.next := n;
    forall i | 0 <= i < |ns|
      ensures BentAt(ns, i, p, n, q, n)
    {
      assert old(LinkedAt(ns, i));
    }
    InsertRing(ns, k, n, p, q);
  }

  /** `list_add`: the new node comes first. */
  method ListAdd(n: Node, head: Node, ghost ns: seq<Node>)
    requires Ring(ns) && ns[0] == head && n !in ns
    modifies n, ns
    ensures Ring([head, n] + ns[1..])
  {
    assert LinkedAt(ns, 0);
    AddBetween(n, head, head.next, ns, 1);
    assert Insert(ns, 1, n) == [head, n] + ns[1..];
  }

  /** `list_add_tail`: the new node comes last. */
  method ListAddTail(n: Node, head: Node, ghost ns: seq<Node>)
    requires Ring(ns) && ns[0] == head && n !in ns
    modifies n, ns
    ensures Ring(ns + [n])
  {
    assert LinkedAt(ns, 0);
    AddBetween(n, head.prev, head, ns, |ns|);
    assert Insert(ns, |ns|, n) == ns + [n];
  }

  /** `__list_del`: bridges the node at position `k`; a ring of one node stays as it is. */
  method DelBetween(prev: Node, next: Node, ghost ns: seq<Node>, ghost k: nat)
    requires Ring(ns) && k < |ns| && prev == At(ns, k - 1) && next == At(ns, k + 1)
    modifies prev, next
    ensures Ring(if |ns| == 1 then ns else RemoveAt(ns, k))
  {
    ghost var p, q := Before(ns, k), Behind(ns, k);
    OthersDiffer(ns, p);
    OthersDiffer(ns, q);
    hide Different;
    assert old(LinkedAt(ns, k));
    next.prev := prev;
    prev.next := next;
    if |ns| > 1 {
      forall i | 0 <= i < |ns| && i != k
        ensures BentAt(ns, i, p, ns[q], q, ns[p])
      {
        assert old(LinkedAt(ns, i));
      }
      RemoveRing(ns, k);
    } else {
      assert LinkedAt(ns, 0);
    }
  }

  /** `list_del`: the others, if there are any, close ranks; the entry's links are poisoned. */
  method ListDel(entry: Node, ghost ns: seq<Node>, ghost k: nat)
    requires Ring(ns) && k < |ns| && ns[k] == entry
    modifies ns
    ensures (|ns| > 1 ==> Ring(RemoveAt(ns, k))) && entry.next == null && entry.prev == null
  {
    assert LinkedAt(ns, k);
    RemovedDifferent(ns, k);
    DelBetween(entry.prev, entry.next, ns, k);
    entry.next := null;
    entry.prev := null;
  }

  /** `list_del_init`: the entry becomes a ring of its own. */
  method ListDelInit(entry: Node, ghost ns: seq<Node>, ghost k: nat)
    requires Ring(ns) && k < |ns| && ns[k] == entry
    modifies ns
    ensures (|ns| > 1 ==> Ring(RemoveAt(ns, k))) && Ring([entry])
  {
    assert LinkedAt(ns, k);
    RemovedDifferent(ns, k);
    DelBetween(entry.prev, entry.next, ns, k);
    Init(entry);
  }

  /** `list_move`: from its place to the front of the list of `head`, which is what is left of the
      same ring (`same`) or another ring. */
  method ListMove(entry: Node, head: Node, ghost from: seq<Node>, ghost k: nat, ghost to: seq<Node>, ghost same: bool)
    requires Ring(from) && k < |from| && from[k] == entry
    requires to != [] && to[0] == head
    requires if same then k > 0 && to == RemoveAt(from, k) else Ring(to) && forall n :: n in from ==> n !in to
    modifies from, to
    ensures Ring([head, entry] + to[1..])
    ensures !same && |from| > 1 ==> Ring(RemoveAt(from, k))
  {
    assert LinkedAt(from, k);
    RemovedDifferent(from, k);
    assert entry.prev in from && entry.next in from && entry in from;
    DelBetween(entry.prev, entry.next, from, k);
    ghost var rest := RemoveAt(from, k);
    assert !same ==> forall i :: 0 <= i < |rest| ==> rest[i] in from && rest[i] != entry && rest[i] !in to;
    ListAdd(entry, head, to);
  }

  /** `list_move_tail`: the same, to the back. */
  method ListMoveTail(entry: Node, head: Node, ghost from: seq<Node>, ghost k: nat, ghost to: seq<Node>,
    ghost same: bool)
    requires Ring(from) && k < |from| && from[k] == entry
    requires to != [] && to[0] == head
    requires if same then k > 0 && to == RemoveAt(from, k) else Ring(to) && forall n :: n in from ==> n !in to
    modifies from, to
    ensures Ring(to + [entry])
    ensures !same && |from| > 1 ==> Ring(RemoveAt(from, k))
  {
    assert LinkedAt(from, k);
    RemovedDifferent(from, k);
    assert entry.prev in from && entry.next in from && entry in from;
    DelBetween(entry.prev, entry.next, from, k);
    ghost var rest := RemoveAt(from, k);
    assert !same ==> forall i :: 0 <= i < |rest| ==> rest[i] in from && rest[i] != entry && rest[i] !in to;
    ListAddTail(entry, head, to);
  }

  /** `list_empty`. */
  method ListEmpty(head: Node, ghost ns: seq<Node>) returns (empty: bool)
    requires Ring(ns) && ns[0] == head
    ensures empty <==> ns == [head]
  {
    assert LinkedAt(ns, 0);
    empty := head.next == head;
  }

  // ----- splicing -----

  /** Entry `i` of a list leads to its neighbours, with `before` in front of the first and `behind`
      after the last one. */
  ghost predicate EntryAt(es: seq<Node>, i: int, before: Node, behind: Node)
    requires 0 <= i < |es|
    reads es
  {
    && es[i].next == (if i < |es| - 1 then es[i + 1] else behind)
    && es[i].prev == (if i == 0 then before else es[i - 1])
  }

  /** The links after the entries `ls` of one list have been hung in behind `head`, in front of `hs`. */
  lemma SpliceRing(head: Node, ls: seq<Node>, hs: seq<Node>, last: Node, at: Node)
    requires ls != [] && Different([head] + ls + hs)
    requires last == ls[|ls| - 1] && at == (if hs == [] then head else hs[0])
    requires head.next == ls[0] && head.prev == (if hs == [] then last else hs[|hs| - 1])
    requires forall i :: 0 <= i < |ls| ==> EntryAt(ls, i, head, at)
    requires forall i :: 0 <= i < |hs| ==> EntryAt(hs, i, last, head)
    ensures Ring([head] + ls + hs)
  {
    var r := [head] + ls + hs;
    SpliceAt(head, ls, hs, 0);
    hide Different;
    forall i | 0 <= i < |r|
      ensures LinkedAt(r, i)
    {
      SpliceAt(head, ls, hs, i - 1);
      SpliceAt(head, ls, hs, i);
      SpliceAt(head, ls, hs, i + 1);
      if 0 < i <= |ls| {
        assert EntryAt(ls, i - 1, head, at);
      } else if i > |ls| {
        assert EntryAt(hs, i - 1 - |ls|, last, head);
      }
    }
  }

  lemma SpliceAt(head: Node, ls: seq<Node>, hs: seq<Node>, i: int)
    requires ls != [] && -1 <= i <= 1 + |ls| + |hs|
    ensures |[head] + ls + hs| == 1 + |ls| + |hs|
    ensures At([head] + ls + hs, i) ==
      if i == -1 then (if hs == [] then ls[|ls| - 1] else hs[|hs| - 1])
      else if i == 0 || i == 1 + |ls| + |hs| then head
      else if i <= |ls| then ls[i - 1] else hs[i - 1 - |ls|]
  {
  }

  /** What a ring with its head apart says about the head and about each entry. */
  lemma HeadLinks(head: Node, es: seq<Node>)
    requires Ring([head] + es)
    ensures head.next == (if es == [] then head else es[0]) && head.prev == (if es == [] then head else es[|es| - 1])
    ensures forall i :: 0 <= i < |es| ==> EntryAt(es, i, head, head)
  {
    var r := [head] + es;
    assert LinkedAt(r, 0);
    forall i | 0 <= i < |es|
      ensures EntryAt(es, i, head, head)
    {
      assert r[i + 1] == es[i] && LinkedAt(r, i + 1);
    }
  }

  ghost predicate Disjoint(a: seq<Node>, b: seq<Node>) {
    forall i, j :: 0 <= i < |a| && 0 <= j < |b| ==> a[i] != b[j]
  }

  lemma SplicedDifferent(list: Node, ls: seq<Node>, head: Node, hs: seq<Node>)
    requires Different([list] + ls) && Different([head] + hs) && Disjoint([list] + ls, [head] + hs)
    ensures Different([head] + ls + hs) && list !in [head] + ls + hs
  {
    var a, b, r := [list] + ls, [head] + hs, [head] + ls + hs;
    forall i | 0 <= i < |r|
      ensures r[i] == (if i == 0 then b[0] else if i <= |ls| then a[i] else b[i - |ls|]) && r[i] != a[0]
    {
    }
    forall i, j | 0 <= i < j < |r|
      ensures r[i] != r[j]
    {
      if i == 0 < j <= |ls| {
        assert a[j] != b[0];
      } else if 0 < i <= |ls| < j {
        assert a[i] != b[j - |ls|];
      }
    }
  }

  /** `__list_splice`: the entries of a non-empty list go to the front of another. */
  method SpliceEntries(list: Node, head: Node, ghost ls: seq<Node>, ghost hs: seq<Node>)
    requires Ring([list] + ls) && Ring([head] + hs) && Disjoint([list] + ls, [head] + hs) && ls != []
    modifies ls, head, hs
    ensures Ring([head] + ls + hs)
  {
    HeadLinks(list, ls);
    HeadLinks(head, hs);
    SplicedDifferent(list, ls, head, hs);
    ghost var r := [head] + ls + hs;
    assert r[0] == head && r[1] == ls[0] && r[|ls|] == ls[|ls| - 1] && (hs != [] ==> r[1 + |ls|] == hs[0]);
    OthersDiffer(r, 0);
    OthersDiffer(r, 1);
    OthersDiffer(r, |ls|);
    OthersDiffer(r, if hs == [] then 0 else 1 + |ls|);
    hide Different, Disjoint, Ring;
    var first, last, at := list.next, list.prev, head.next;
    assert EntryAt(ls, 0, list, list) && EntryAt(ls, |ls| - 1, list, list);
    assert hs != [] ==> EntryAt(hs, 0, head, head);
    first.prev := head;
    head.next := first;
    last.next := at;
    at.prev := last;
    forall i | 0 <= i < |ls|
      ensures EntryAt(ls, i, head, at)
    {
      assert r[i + 1] == ls[i] && old(EntryAt(ls, i, list, list));
    }
    forall i | 0 <= i < |hs|
      ensures EntryAt(hs, i, last, head)
    {
      assert r[i + 1 + |ls|] == hs[i] && old(EntryAt(hs, i, head, head));
    }
    assert head.next == ls[0] && head.prev == (if hs == [] then last else hs[|hs| - 1]);
    SpliceRing(head, ls, hs, last, at);
  }

  /** `list_splice`: the list is concatenated in front of the other's entries; nothing is lost or
      duplicated.  The emptied list's own head keeps its links. */
  method ListSplice(list: Node, head: Node, ghost ls: seq<Node>, ghost hs: seq<Node>)
    requires Ring([list] + ls) && Ring([head] + hs) && Disjoint([list] + ls, [head] + hs)
    modifies ls, head, hs
    ensures Ring([head] + ls + hs)
  {
    var empty := ListEmpty(list, [list] + ls);
    if !empty {
      SpliceEntries(list, head, ls, hs);
    } else {
      assert ls == [] && [head] + ls + hs == [head] + hs;
    }
  }

  /** `list_splice_init`: the same, and the emptied list is an empty list again. */
  method ListSpliceInit(list: Node, head: Node, ghost ls: seq<Node>, ghost hs: seq<Node>)
    requires Ring([list] + ls) && Ring([head] + hs) && Disjoint([list] + ls, [head] + hs)
    modifies list, ls, head, hs
    ensures Ring([head] + ls + hs) && Ring([list])
  {
    SplicedDifferent(list, ls, head, hs);
    var empty := ListEmpty(list, [list] + ls);
    if !empty {
      SpliceEntries(list, head, ls, hs);
      hide Ring;
      Init(list);
    } else {
      assert ls == [] && [head] + ls + hs == [head] + hs && [list] + ls == [list];
    }
  }

  // ----- traversal -----

  /** The entries that are not in `doomed`, in order. */
  function Kept(es: seq<Node>, doomed: set<Node>): seq<Node> {
    if es == [] then [] else
      Kept(es[..|es| - 1], doomed) + if es[|es| - 1] in doomed then [] else [es[|es| - 1]]
  }

  lemma KeptStep(es: seq<Node>, doomed: set<Node>, i: nat)
    requires i < |es|
    ensures Kept(es[..i + 1], doomed) == Kept(es[..i], doomed) + if es[i] in doomed then [] else [es[i]]
  {
    assert es[..i + 1][..i] == es[..i];
  }

  /** The ring in the middle of a traversal: what has been kept, and what is still to come. */
  function Remaining(head: Node, kept: seq<Node>, es: seq<Node>, i: nat): seq<Node>
    requires i <= |es|
  {
    [head] + kept + es[i..]
  }

  lemma RemainingShape(head: Node, kept: seq<Node>, es: seq<Node>, i: nat)
    requires i < |es|
    ensures var r, k := Remaining(head, kept, es, i), 1 + |kept|;
            && |r| == 1 + |kept| + |es| - i && r[0] == head && r[k] == es[i]
            && At(r, k + 1) == (if i + 1 < |es| then es[i + 1] else head)
            && (i + 1 < |es| ==> r[k + 1] == es[i + 1])
            && RemoveAt(r, k) == Remaining(head, kept, es, i + 1)
            && r == Remaining(head, kept + [es[i]], es, i + 1)
  {
  }

  /** Where the traversal stands and where it goes next. */
  lemma NextInLine(head: Node, kept: seq<Node>, es: seq<Node>, i: nat)
    requires i <= |es| && Ring(Remaining(head, kept, es, i))
    ensures head.next != null
    ensures i < |es| ==>
      && es[i] != head && es[i].next == (if i + 1 < |es| then es[i + 1] else head)
      && (i + 1 < |es| ==> es[i + 1].next != null)
      && 1 + |kept| < |Remaining(head, kept, es, i)| && Remaining(head, kept, es, i)[1 + |kept|] == es[i]
      && RemoveAt(Remaining(head, kept, es, i), 1 + |kept|) == Remaining(head, kept, es, i + 1)
      && Remaining(head, kept, es, i) == Remaining(head, kept + [es[i]], es, i + 1)
  {
    var r := Remaining(head, kept, es, i);
    assert r[0] == head && LinkedAt(r, 0);
    if i < |es| {
      RemainingShape(head, kept, es, i);
      hide Remaining, RemoveAt;
      assert r[0] != r[1 + |kept|] && LinkedAt(r, 1 + |kept|);
      if i + 1 < |es| {
        assert LinkedAt(r, 2 + |kept|);
      }
    }
  }

  /** `list_for_each_safe` with a body that deletes some of the entries it visits: every entry is
      visited once, in order, and exactly the entries in `doomed` are gone afterwards. */
  method ForEachSafe(head: Node, doomed: set<Node>, ghost es: seq<Node>) returns (visited: seq<Node>)
    requires Ring([head] + es)
    modifies [head] + es
    ensures visited == es && Ring([head] + Kept(es, doomed))
  {
    hide Ring, RemoveAt, Remaining, Kept, EntryAt;
    ghost var i := 0;
    ghost var kept: seq<Node> := [];
    StartOfLine(head, es, doomed);
    visited := [];
    NextInLine(head, kept, es, i);
    HeadLinks(head, es);
    var pos := head.next;
    var n := pos.next;
    while pos != head
      invariant 0 <= i <= |es| && visited == es[..i] && kept == Kept(es[..i], doomed)
      invariant Ring(Remaining(head, kept, es, i))
      invariant pos == (if i < |es| then es[i] else head) && n == pos.next && n != null
      invariant forall j :: 0 <= j < |kept| ==> kept[j] in es
      decreases |es| - i
    {
      NextInLine(head, kept, es, i);
      visited := visited + [pos];
      assert visited == es[..i + 1];
      KeptStep(es, doomed, i);
      if pos in doomed {
        InLine(head, kept, es, i);
        ListDel(pos, Remaining(head, kept, es, i), 1 + |kept|);
      } else {
        kept := kept + [pos];
      }
      i := i + 1;
      NextInLine(head, kept, es, i);
      pos := n;
      n := pos.next;
    }
    NextInLine(head, kept, es, i);
    EndOfLine(head, kept, es, i);
  }

  lemma InLine(head: Node, kept: seq<Node>, es: seq<Node>, i: nat)
    requires i < |es| && forall j :: 0 <= j < |kept| ==> kept[j] in es
    ensures |Remaining(head, kept, es, i)| >= 2
    ensures forall j :: 0 <= j < |Remaining(head, kept, es, i)| ==> Remaining(head, kept, es, i)[j] in [head] + es
  {
  }

  lemma StartOfLine(head: Node, es: seq<Node>, doomed: set<Node>)
    ensures Remaining(head, [], es, 0) == [head] + es && Kept(es[..0], doomed) == []
  {
  }

  lemma EndOfLine(head: Node, kept: seq<Node>, es: seq<Node>, i: nat)
    requires i <= |es|
    ensures i == |es| ==> Remaining(head, kept, es, i) == [head] + kept && es[..i] == es
    ensures i < |es| ==> es[i] in es
  {
  }
}
