/** Sequences whose elements carry distinct keys, seen as finite maps from key to element. */
module Tables {
  import opened QueueSpec

  ghost predicate Distinct<T>(key: T -> int, s: seq<T>) {
    forall i, j :: 0 <= i < j < |s| ==> key(s[i]) != key(s[j])
  }

  ghost function Table<T>(key: T -> int, s: seq<T>): map<int, T>
    requires Distinct(key, s)
  {
    map i | 0 <= i < |s| :: key(s[i]) := s[i]
  }

  lemma TableIndex<T>(key: T -> int, s: seq<T>, id: int) returns (i: nat)
    requires Distinct(key, s) && id in Table(key, s)
    ensures i < |s| && s[i] == Table(key, s)[id] && key(s[i]) == id
  {
    i :| 0 <= i < |s| && key(s[i]) == id;
  }

  /** A map is the table of `s` when it holds every element of `s` under its key and nothing else. */
  lemma TableIs<T>(key: T -> int, s: seq<T>, m: map<int, T>)
    requires Distinct(key, s)
    requires forall i :: 0 <= i < |s| ==> key(s[i]) in m && m[key(s[i])] == s[i]
    requires forall id :: id in m ==> exists i :: 0 <= i < |s| && key(s[i]) == id
    ensures Table(key, s) == m
  {
    var t := Table(key, s);
    forall id
      ensures id in t <==> id in m
      ensures id in m ==> t[id] == m[id]
    {
      if id in m {
        var i :| 0 <= i < |s| && key(s[i]) == id;
      }
    }
  }

  lemma InsertDistinct<T>(key: T -> int, s: seq<T>, k: nat, x: T)
    requires Distinct(key, s) && k <= |s|
    requires forall i :: 0 <= i < |s| ==> key(s[i]) != key(x)
    ensures Distinct(key, Insert(s, k, x))
  {
  }

  lemma InsertHas<T>(key: T -> int, s: seq<T>, k: nat, x: T, id: int)
    requires Distinct(key, s) && k <= |s| && id in Table(key, s)[key(x) := x]
    ensures exists i :: 0 <= i < |Insert(s, k, x)| && key(Insert(s, k, x)[i]) == id
  {
    var r := Insert(s, k, x);
    if id == key(x) {
      assert r[k] == x;
    } else {
      var i := TableIndex(key, s, id);
      assert r[if i < k then i else i + 1] == s[i];
    }
  }

  lemma TableInsert<T>(key: T -> int, s: seq<T>, k: nat, x: T)
    requires Distinct(key, s) && k <= |s| && key(x) !in Table(key, s)
    ensures Distinct(key, Insert(s, k, x))
    ensures Table(key, Insert(s, k, x)) == Table(key, s)[key(x) := x]
  {
    var r, m := Insert(s, k, x), Table(key, s)[key(x) := x];
    InsertDistinct(key, s, k, x);
    forall i | 0 <= i < |r|
      ensures key(r[i]) in m && m[key(r[i])] == r[i]
    {
      assert r[i] == if i < k then s[i] else if i == k then x else s[i - 1];
    }
    forall id | id in m
      ensures exists i :: 0 <= i < |r| && key(r[i]) == id
    {
      InsertHas(key, s, k, x, id);
    }
    TableIs(key, r, m);
  }

  lemma TableUpdate<T>(key: T -> int, s: seq<T>, k: nat, x: T)
    requires Distinct(key, s) && k < |s| && key(x) == key(s[k])
    ensures Distinct(key, s[k := x])
    ensures Table(key, s[k := x]) == Table(key, s)[key(x) := x]
  {
    var r, m := s[k := x], Table(key, s)[key(x) := x];
    forall id | id in m
      ensures exists i :: 0 <= i < |r| && key(r[i]) == id
    {
      var i :| 0 <= i < |s| && key(s[i]) == id;
      assert key(r[i]) == id;
    }
    TableIs(key, r, m);
  }

  lemma RemoveDistinct<T>(key: T -> int, s: seq<T>, k: nat)
    requires Distinct(key, s) && k < |s|
    ensures Distinct(key, RemoveAt(s, k))
    ensures forall i :: 0 <= i < |RemoveAt(s, k)| ==> key(RemoveAt(s, k)[i]) != key(s[k])
  {
  }

  lemma TableRemove<T>(key: T -> int, s: seq<T>, k: nat)
    requires Distinct(key, s) && k < |s|
    ensures Distinct(key, RemoveAt(s, k))
    ensures Table(key, RemoveAt(s, k)) == Table(key, s) - {key(s[k])}
  {
    var r, m := RemoveAt(s, k), Table(key, s) - {key(s[k])};
    RemoveDistinct(key, s, k);
    forall id | id in m
      ensures exists i :: 0 <= i < |r| && key(r[i]) == id
    {
      var i :| 0 <= i < |s| && key(s[i]) == id;
      assert r[if i < k then i else i - 1] == s[i];
    }
    TableIs(key, r, m);
  }

  /** The first element with key `id` is the table's entry for it, if there is one. */
  lemma TableFirst<T>(key: T -> int, s: seq<T>, p: T -> bool, id: int)
    requires Distinct(key, s)
    requires forall i :: 0 <= i < |s| ==> (p(s[i]) <==> key(s[i]) == id)
    ensures First(p, s) < |s| <==> id in Table(key, s)
    ensures First(p, s) < |s| ==> key(s[First(p, s)]) == id && s[First(p, s)] == Table(key, s)[id]
  {
  }
}
