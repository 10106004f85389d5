/** What the priority queue operations mean on sequences, for any comparison function. */
module QueueSpec {

  function Insert<T>(q: seq<T>, k: nat, x: T): seq<T>
    requires k <= |q|
  {
    q[..k] + [x] + q[k..]
  }

  function RemoveAt<T>(q: seq<T>, k: nat): seq<T>
    requires k < |q|
  {
    q[..k] + q[k + 1..]
  }

  lemma InsertIndex<T>(q: seq<T>, k: nat, x: T, i: nat)
    requires k <= |q| && i <= |q|
    ensures |Insert(q, k, x)| == |q| + 1
    ensures Insert(q, k, x)[i] == if i < k then q[i] else if i == k then x else q[i - 1]
  {
  }

  lemma RemoveIndex<T>(q: seq<T>, k: nat, i: nat)
    requires k < |q| && i < |q| - 1
    ensures |RemoveAt(q, k)| == |q| - 1
    ensures RemoveAt(q, k)[i] == q[if i < k then i else i + 1]
  {
  }

  ghost predicate Different<T>(s: seq<T>) {
    forall i, j :: 0 <= i < j < |s| ==> s[i] != s[j]
  }

  lemma OthersDiffer<T>(s: seq<T>, k: int)
    requires Different(s) && k < |s|
    ensures k >= 0 ==> forall i :: 0 <= i < |s| && i != k ==> s[i] != s[k]
  {
  }

  /** Index of the first element that satisfies `p`, or `|q|` when there is none. */
  function First<T>(p: T -> bool, q: seq<T>): (k: nat)
    ensures k <= |q|
    ensures forall i :: 0 <= i < k ==> !p(q[i])
    ensures k < |q| ==> p(q[k])
  {
    if q == [] || p(q[0]) then 0 else
      var k := First(p, q[1..]);
      assert forall i :: 0 < i < k + 1 ==> q[i] == q[1..][i - 1];
      k + 1
  }

  /** `First` is the only index with its three properties: what a search loop finds. */
  lemma FirstUnique<T>(p: T -> bool, q: seq<T>, k: nat)
    requires k <= |q|
    requires forall i :: 0 <= i < k ==> !p(q[i])
    requires k < |q| ==> p(q[k])
    ensures First(p, q) == k
  {
  }

  /** Where the insertion walk stops when it has reached index `i`: the first element from
      `i` on that the new element does not follow. */
  function Walk<T>(cmp: (T, T) -> int, q: seq<T>, x: T, i: nat): (k: nat)
    requires i <= |q|
    ensures i <= k <= |q|
    ensures forall j :: i <= j < k ==> cmp(x, q[j]) > 0
    ensures k < |q| ==> cmp(x, q[k]) <= 0
    decreases |q| - i
  {
    if i < |q| && cmp(x, q[i]) > 0 then Walk(cmp, q, x, i + 1) else i
  }

  /** The index at which an offered element lands.  The head is passed on ties, later elements are not. */
  function OfferIndex<T>(cmp: (T, T) -> int, q: seq<T>, x: T): (k: nat)
    ensures k <= |q|
  {
    if q == [] || cmp(x, q[0]) < 0 then 0 else Walk(cmp, q, x, 1)
  }

  function Offer<T>(cmp: (T, T) -> int, q: seq<T>, x: T): seq<T> {
    Insert(q, OfferIndex(cmp, q, x), x)
  }

  /** A comparison function that describes a total preorder. */
  ghost predicate Consistent<T(!new)>(cmp: (T, T) -> int) {
    && (forall a, b :: cmp(a, b) < 0 <==> cmp(b, a) > 0)
    && (forall a, b, c :: cmp(a, b) <= 0 && cmp(b, c) <= 0 ==> cmp(a, c) <= 0)
  }

  ghost predicate Sorted<T>(cmp: (T, T) -> int, q: seq<T>) {
    forall i, j :: 0 <= i < j < |q| ==> cmp(q[i], q[j]) <= 0
  }

  /** Everything before the insertion point may stay before `x`, everything from it on after `x`. */
  lemma OfferSplits<T(!new)>(cmp: (T, T) -> int, q: seq<T>, x: T, i: nat)
    requires Consistent(cmp) && Sorted(cmp, q) && i < |q|
    ensures i < OfferIndex(cmp, q, x) ==> cmp(q[i], x) <= 0
    ensures OfferIndex(cmp, q, x) <= i ==> cmp(x, q[i]) <= 0
  {
  }

  lemma InsertKeepsSorted<T>(cmp: (T, T) -> int, q: seq<T>, k: nat, x: T)
    requires Sorted(cmp, q) && k <= |q|
    requires forall i :: 0 <= i < k ==> cmp(q[i], x) <= 0
    requires forall i :: k <= i < |q| ==> cmp(x, q[i]) <= 0
    ensures Sorted(cmp, Insert(q, k, x))
  {
  }

  /** A consistent comparison function keeps the queue sorted, ties or not. */
  lemma OfferKeepsSorted<T(!new)>(cmp: (T, T) -> int, q: seq<T>, x: T)
    requires Consistent(cmp) && Sorted(cmp, q)
    ensures Sorted(cmp, Offer(cmp, q, x))
  {
    forall i | 0 <= i < |q|
      ensures i < OfferIndex(cmp, q, x) ==> cmp(q[i], x) <= 0
      ensures OfferIndex(cmp, q, x) <= i ==> cmp(x, q[i]) <= 0
    {
      OfferSplits(cmp, q, x, i);
    }
    InsertKeepsSorted(cmp, q, OfferIndex(cmp, q, x), x);
  }

  lemma RemoveKeepsSorted<T(!new)>(cmp: (T, T) -> int, q: seq<T>, k: nat)
    requires Sorted(cmp, q) && k < |q|
    ensures Sorted(cmp, RemoveAt(q, k))
  {
  }

  /** The round robin comparison function, which always answers 1, makes offering an append. */
  lemma AlwaysLaterAppends<T(!new)>(cmp: (T, T) -> int, q: seq<T>, x: T)
    requires forall a, b :: cmp(a, b) > 0
    ensures Offer(cmp, q, x) == q + [x]
  {
  }

  /** `priqueue_offer` answers the new size less one, documented as the index where the element
      landed: right exactly when the element goes last, that is, when it does not go before the
      head and strictly follows every other element. */
  lemma OfferAnswersIndexIffLast<T>(cmp: (T, T) -> int, q: seq<T>, x: T)
    ensures |Offer(cmp, q, x)| - 1 == OfferIndex(cmp, q, x) <==>
            q == [] || (cmp(x, q[0]) >= 0 && forall i :: 1 <= i < |q| ==> cmp(x, q[i]) > 0)
  {
  }

  /** A shorter job offered to a queue of one lands at index 0, and the answer is 1. */
  lemma OfferAnswerExample(cmp: (int, int) -> int)
    requires forall a, b :: cmp(a, b) == a - b
    ensures Offer(cmp, [8], 3) == [3, 8] && |Offer(cmp, [8], 3)| - 1 == 1 != OfferIndex(cmp, [8], 3)
  {
  }

  /** Removing what was just offered restores the queue, wherever it landed. */
  lemma RemoveUndoesOffer<T>(cmp: (T, T) -> int, q: seq<T>, x: T)
    ensures RemoveAt(Offer(cmp, q, x), OfferIndex(cmp, q, x)) == q
  {
  }
}
