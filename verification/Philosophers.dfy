/** The dining philosophers as threads that interleave their lock and unlock calls, for any
    number of philosophers, in the symmetric and the asymmetric version. */
module Philosophers {

  /** Which chopstick is locked first: always the left one, or the left one by even philosophers only. */
  datatype Style = Symmetric | Asymmetric

  /** Where a thread is in its cycle, and so which chopsticks it holds: none, its first one, both, or
      (after the first unlock) only its left one. */
  datatype Place = Thinking | HoldsFirst | Eating | HoldsLeft

  /** `owner[c]` is the philosopher that has locked chopstick `c`, or -1. */
  datatype Table = Table(place: seq<Place>, owner: seq<int>)

  function LeftChop(i: nat): nat { i }

  function RightChop(n: nat, i: nat): (c: nat)
    requires i < n
    ensures c < n
  {
    if i == 0 then n - 1 else i - 1
  }

  function First(style: Style, n: nat, i: nat): (c: nat)
    requires i < n
    ensures c < n
  {
    if style == Symmetric || i % 2 == 0 then LeftChop(i) else RightChop(n, i)
  }

  function Second(style: Style, n: nat, i: nat): (c: nat)
    requires i < n
    ensures c < n
  {
    if style == Symmetric || i % 2 == 0 then RightChop(n, i) else LeftChop(i)
  }

  function Start(n: nat): Table {
    Table(seq(n, _ => Thinking), seq(n, _ => -1))
  }

  predicate Seating(n: nat, t: Table) {
    |t.place| == |t.owner| == n
  }

  /** The chopstick whose lock call philosopher `i` is at, if it is at one. */
  function Wanted(style: Style, n: nat, t: Table, i: nat): (c: int)
    requires Seating(n, t) && i < n
    ensures -1 <= c < n
  {
    match t.place[i]
    case Thinking => First(style, n, i)
    case HoldsFirst => Second(style, n, i)
    case Eating => -1
    case HoldsLeft => -1
  }

  /** A thread can take its next step unless it would block on a locked chopstick. */
  predicate CanStep(style: Style, n: nat, t: Table, i: nat)
    requires Seating(n, t)
  {
    i < n && (Wanted(style, n, t, i) == -1 || t.owner[Wanted(style, n, t, i)] == -1)
  }

  /** The next step of philosopher `i`: lock the first, lock the second, unlock right, unlock left. */
  function Step(style: Style, n: nat, t: Table, i: nat): (r: Table)
    requires Seating(n, t) && CanStep(style, n, t, i)
    ensures Seating(n, r)
  {
    match t.place[i]
    case Thinking => Table(t.place[i := HoldsFirst], t.owner[First(style, n, i) := i])
    case HoldsFirst => Table(t.place[i := Eating], t.owner[Second(style, n, i) := i])
    case Eating => Table(t.place[i := HoldsLeft], t.owner[RightChop(n, i) := -1])
    case HoldsLeft => Table(t.place[i := Thinking], t.owner[LeftChop(i) := -1])
  }

  /** A schedule says whose thread runs next; each step must be possible. */
  predicate CanRun(style: Style, n: nat, t: Table, schedule: seq<nat>)
    requires Seating(n, t)
    decreases |schedule|
  {
    schedule == [] || (CanStep(style, n, t, schedule[0])
      && CanRun(style, n, Step(style, n, t, schedule[0]), schedule[1..]))
  }

  function Run(style: Style, n: nat, t: Table, schedule: seq<nat>): (r: Table)
    requires Seating(n, t) && CanRun(style, n, t, schedule)
    ensures Seating(n, r)
    decreases |schedule|
  {
    if schedule == [] then t else Run(style, n, Step(style, n, t, schedule[0]), schedule[1..])
  }

  ghost predicate Reachable(style: Style, n: nat, t: Table) {
    exists schedule :: CanRun(style, n, Start(n), schedule) && Run(style, n, Start(n), schedule) == t
  }

  /** Philosopher `i` holds chopstick `c`, judging by its place in the cycle. */
  predicate Holds(style: Style, n: nat, t: Table, i: nat, c: nat)
    requires Seating(n, t) && i < n
  {
    match t.place[i]
    case Thinking => false
    case HoldsFirst => c == First(style, n, i)
    case Eating => c == LeftChop(i) || c == RightChop(n, i)
    case HoldsLeft => c == LeftChop(i)
  }

  /** A chopstick's owner is the philosopher that holds it, and there is only one. */
  ghost predicate Consistent(style: Style, n: nat, t: Table) {
    && Seating(n, t)
    && (forall i, c :: 0 <= i < n && 0 <= c < n ==> (t.owner[c] == i <==> Holds(style, n, t, i, c)))
    && (forall c :: 0 <= c < n ==> -1 <= t.owner[c] < n)
  }

  lemma StepConsistent(style: Style, n: nat, t: Table, i: nat)
    requires n >= 2 && Consistent(style, n, t) && CanStep(style, n, t, i)
    ensures Consistent(style, n, Step(style, n, t, i))
  {
    var r := Step(style, n, t, i);
    forall j, c | 0 <= j < n && 0 <= c < n
      ensures r.owner[c] == j <==> Holds(style, n, r, j, c)
    {
      assert t.owner[c] == j <==> Holds(style, n, t, j, c);
      assert t.owner[c] == i <==> Holds(style, n, t, i, c);
    }
  }

  function NextPlace(p: Place): Place {
    match p
    case Thinking => HoldsFirst
    case HoldsFirst => Eating
    case Eating => HoldsLeft
    case HoldsLeft => Thinking
  }

  /** Every step is one lock or one unlock call: it changes the owner of exactly one chopstick, which
      was free and is the philosopher's on the way to eating, and was its own and is free after it. */
  lemma StepOneChopstick(style: Style, n: nat, t: Table, i: nat) returns (c: nat)
    requires n >= 2 && Consistent(style, n, t) && CanStep(style, n, t, i)
    ensures c < n && (c == LeftChop(i) || c == RightChop(n, i))
    ensures var r := Step(style, n, t, i);
            && r.place == t.place[i := NextPlace(t.place[i])]
            && (if t.place[i] == Thinking || t.place[i] == HoldsFirst
                then t.owner[c] == -1 && r.owner == t.owner[c := i]
                else t.owner[c] == i && r.owner == t.owner[c := -1])
  {
    c := match t.place[i]
         case Thinking => First(style, n, i)
         case HoldsFirst => Second(style, n, i)
         case Eating => RightChop(n, i)
         case HoldsLeft => LeftChop(i);
    assert t.owner[c] == i <==> Holds(style, n, t, i, c);
  }

  lemma {:induction false} RunConsistent(style: Style, n: nat, t: Table, schedule: seq<nat>)
    requires n >= 2 && Consistent(style, n, t) && CanRun(style, n, t, schedule)
    ensures Consistent(style, n, Run(style, n, t, schedule))
    decreases |schedule|
  {
    if schedule != [] {
      StepConsistent(style, n, t, schedule[0]);
      RunConsistent(style, n, Step(style, n, t, schedule[0]), schedule[1..]);
    }
  }

  lemma ReachableConsistent(style: Style, n: nat, t: Table)
    requires n >= 2 && Reachable(style, n, t)
    ensures Consistent(style, n, t)
  {
    var schedule :| CanRun(style, n, Start(n), schedule) && Run(style, n, Start(n), schedule) == t;
    RunConsistent(style, n, Start(n), schedule);
  }

  /** In both versions neighbours never eat at the same time. */
  lemma NeighboursExclude(style: Style, n: nat, t: Table, i: nat)
    requires n >= 2 && Reachable(style, n, t) && i < n && t.place[i] == Eating
    ensures t.place[RightChop(n, i)] != Eating
  {
    ReachableConsistent(style, n, t);
    var j := RightChop(n, i);
    assert t.owner[j] == i <==> Holds(style, n, t, i, j);
    assert t.owner[j] == j <==> Holds(style, n, t, j, j);
  }

  // ----- waiting -----

  /** `i` is blocked on a chopstick that `j` holds. */
  ghost predicate WaitsFor(style: Style, n: nat, t: Table, i: nat, j: nat)
    requires Seating(n, t)
  {
    i < n && j < n && Wanted(style, n, t, i) != -1 && t.owner[Wanted(style, n, t, i)] == j
  }

  /** A philosopher is blocked exactly when another one holds the chopstick it is about to lock. */
  lemma BlockedIffWaits(style: Style, n: nat, t: Table, i: nat)
    requires n >= 2 && Consistent(style, n, t) && i < n
    ensures !CanStep(style, n, t, i) <==> exists j: nat :: j != i && WaitsFor(style, n, t, i, j)
  {
    var c := Wanted(style, n, t, i);
    if c != -1 {
      assert t.owner[c] == i <==> Holds(style, n, t, i, c);
      if t.owner[c] != -1 {
        assert WaitsFor(style, n, t, i, t.owner[c]);
      }
    }
  }

  ghost predicate Chain(style: Style, n: nat, t: Table, ps: seq<nat>)
    requires Seating(n, t)
  {
    && (forall k :: 0 <= k < |ps| ==> ps[k] < n)
    && (forall k :: 0 <= k < |ps| - 1 ==> WaitsFor(style, n, t, ps[k], ps[k + 1]))
  }

  /** Chopsticks in the order in which asymmetric philosophers lock them: even ones, then the last
      one when it is even (its neighbours disagree about it), then odd ones. */
  function Rank(n: nat, c: int): (r: nat)
    ensures r <= 2
  {
    if c % 2 == 1 then 2 else if c == n - 1 then 1 else 0
  }

  lemma LocksInOrder(n: nat, i: nat)
    requires n >= 2 && i < n
    ensures Rank(n, First(Asymmetric, n, i)) < Rank(n, Second(Asymmetric, n, i))
  {
  }

  /** Whoever is blocked waits for someone who, if blocked too, waits for a later chopstick. */
  lemma WaitsUpwards(n: nat, t: Table, i: nat, j: nat)
    requires n >= 2 && Consistent(Asymmetric, n, t) && WaitsFor(Asymmetric, n, t, i, j)
    ensures Wanted(Asymmetric, n, t, j) != -1 ==>
      Rank(n, Wanted(Asymmetric, n, t, i)) < Rank(n, Wanted(Asymmetric, n, t, j))
  {
    var c := Wanted(Asymmetric, n, t, i);
    assert t.owner[c] == j <==> Holds(Asymmetric, n, t, j, c);
    LocksInOrder(n, j);
  }

  lemma {:induction false} ChainRanks(n: nat, t: Table, ps: seq<nat>)
    requires n >= 2 && Consistent(Asymmetric, n, t) && Chain(Asymmetric, n, t, ps) && |ps| >= 2
    ensures Wanted(Asymmetric, n, t, ps[|ps| - 2]) != -1
    ensures Rank(n, Wanted(Asymmetric, n, t, ps[|ps| - 2])) >= if n % 2 == 0 then 2 * (|ps| - 2) else |ps| - 2
  {
    var m := |ps| - 1;
    assert WaitsFor(Asymmetric, n, t, ps[m - 1], ps[m]);
    if m >= 2 {
      ChainRanks(n, t, ps[..m]);
      assert WaitsFor(Asymmetric, n, t, ps[m - 2], ps[m - 1]);
      WaitsUpwards(n, t, ps[m - 2], ps[m - 1]);
    }
  }

  /** In the asymmetric version every chain of waiting has at most three links, and with an even
      number of philosophers at most two. */
  lemma ShortChains(n: nat, t: Table, ps: seq<nat>)
    requires n >= 2 && Reachable(Asymmetric, n, t) && Chain(Asymmetric, n, t, ps)
    ensures |ps| <= if n % 2 == 0 then 3 else 4
  {
    ReachableConsistent(Asymmetric, n, t);
    if |ps| >= 2 {
      ChainRanks(n, t, ps);
    }
  }

  /** Three links do occur, for every odd number of philosophers from five on. */
  lemma LongestChain(n: nat) returns (t: Table)
    requires n >= 5 && n % 2 == 1
    ensures Reachable(Asymmetric, n, t) && Seating(n, t) && Chain(Asymmetric, n, t, [1, 0, n - 1, n - 2])
  {
    t := ChainTable(n);
    hide Reachable;
    assert WaitsFor(Asymmetric, n, t, 1, 0) && WaitsFor(Asymmetric, n, t, 0, n - 1);
    assert WaitsFor(Asymmetric, n, t, n - 1, n - 2);
  }

  lemma ChainTable(n: nat) returns (t: Table)
    requires n >= 5 && n % 2 == 1
    ensures Reachable(Asymmetric, n, t) && Seating(n, t)
    ensures t.place[1] == Thinking && t.place[0] == t.place[n - 1] == HoldsFirst
    ensures t.owner[0] == 0 && t.owner[n - 1] == n - 1 && t.owner[n - 2] == n - 2
  {
    var t0 := Start(n);
    assert CanRun(Asymmetric, n, t0, []) && Run(Asymmetric, n, t0, []) == t0;
    hide CanRun, Run;
    RunOne(Asymmetric, n, t0, [], 0);
    var s1 := [] + [0];
    RunOne(Asymmetric, n, t0, s1, n - 1);
    var s2 := s1 + [n - 1];
    RunOne(Asymmetric, n, t0, s2, n - 2);
    var s3 := s2 + [n - 2];
    RunOne(Asymmetric, n, t0, s3, n - 2);
    var s4 := s3 + [n - 2];
    t := Run(Asymmetric, n, t0, s4);
    assert CanRun(Asymmetric, n, t0, s4);
  }

  /** From every philosopher the chain of waiting leads to one that can step. */
  lemma {:induction false} SomeoneAhead(n: nat, t: Table, i: nat) returns (ps: seq<nat>)
    requires n >= 2 && Consistent(Asymmetric, n, t) && i < n
    ensures ps != [] && ps[0] == i && Chain(Asymmetric, n, t, ps) && CanStep(Asymmetric, n, t, ps[|ps| - 1])
    decreases if Wanted(Asymmetric, n, t, i) == -1 then 0 else 3 - Rank(n, Wanted(Asymmetric, n, t, i))
  {
    if CanStep(Asymmetric, n, t, i) {
      ps := [i];
    } else {
      var j := t.owner[Wanted(Asymmetric, n, t, i)];
      assert WaitsFor(Asymmetric, n, t, i, j);
      WaitsUpwards(n, t, i, j);
      var rest := SomeoneAhead(n, t, j);
      ps := [i] + rest;
    }
  }

  /** The asymmetric version has no deadlock: in every reachable state every philosopher can step
      or is at most three waits behind one that can. */
  lemma NoDeadlock(n: nat, t: Table, i: nat) returns (ps: seq<nat>)
    requires n >= 2 && Reachable(Asymmetric, n, t) && i < n
    ensures 1 <= |ps| <= 4 && ps[0] == i
    ensures Seating(n, t) && Chain(Asymmetric, n, t, ps) && CanStep(Asymmetric, n, t, ps[|ps| - 1])
  {
    ReachableConsistent(Asymmetric, n, t);
    ps := SomeoneAhead(n, t, i);
    ShortChains(n, t, ps);
  }

  // ----- serving a chosen philosopher -----

  lemma {:induction false} RunConcat(style: Style, n: nat, t: Table, a: seq<nat>, b: seq<nat>)
    requires Seating(n, t) && CanRun(style, n, t, a) && CanRun(style, n, Run(style, n, t, a), b)
    ensures CanRun(style, n, t, a + b) && Run(style, n, t, a + b) == Run(style, n, Run(style, n, t, a), b)
    decreases |a|
  {
    if a == [] {
      assert a + b == b;
    } else {
      RunConcat(style, n, Step(style, n, t, a[0]), a[1..], b);
      assert (a + b)[1..] == a[1..] + b;
    }
  }

  lemma RunOne(style: Style, n: nat, t: Table, a: seq<nat>, i: nat)
    requires Seating(n, t) && CanRun(style, n, t, a) && CanStep(style, n, Run(style, n, t, a), i)
    ensures CanRun(style, n, t, a + [i]) && Run(style, n, t, a + [i]) == Step(style, n, Run(style, n, t, a), i)
  {
    var m := Run(style, n, t, a);
    assert [i][1..] == [];
    assert Run(style, n, m, [i]) == Run(style, n, Step(style, n, m, i), []);
    RunConcat(style, n, t, a, [i]);
  }

  /** All that philosopher `j` holds ranks below `r`. */
  ghost predicate HoldsBelow(n: nat, t: Table, j: nat, r: nat)
    requires Seating(n, t) && j < n
  {
    forall e :: 0 <= e < n && Holds(Asymmetric, n, t, j, e) ==> Rank(n, e) < r
  }

  /** A philosopher that has both chopsticks, or only its left one again, can put them down. */
  lemma Drain(n: nat, t: Table, q: nat) returns (schedule: seq<nat>)
    requires n >= 2 && Consistent(Asymmetric, n, t) && q < n
    requires t.place[q] == Eating || t.place[q] == HoldsLeft
    ensures CanRun(Asymmetric, n, t, schedule)
    ensures Run(Asymmetric, n, t, schedule).place == t.place[q := Thinking]
  {
    var m := Step(Asymmetric, n, t, q);
    schedule := [];
    RunOne(Asymmetric, n, t, [], q);
    if t.place[q] == Eating {
      RunOne(Asymmetric, n, t, [q], q);
      schedule := [q, q];
      assert [q] + [q] == [q, q];
    } else {
      schedule := [q];
      assert [] + [q] == [q];
    }
  }

  /** Any chopstick can be brought to lie on the table without touching those who hold only
      lower-ranked ones. */
  lemma {:induction false} Clear(n: nat, t: Table, c: nat) returns (schedule: seq<nat>)
    requires n >= 2 && Consistent(Asymmetric, n, t) && c < n
    ensures CanRun(Asymmetric, n, t, schedule)
    ensures Run(Asymmetric, n, t, schedule).owner[c] == -1
    ensures forall j: nat :: j < n && HoldsBelow(n, t, j, Rank(n, c)) ==>
      Run(Asymmetric, n, t, schedule).place[j] == t.place[j]
    decreases 3 - Rank(n, c)
  {
    schedule := [];
    if t.owner[c] != -1 {
      var q := t.owner[c];
      assert Holds(Asymmetric, n, t, q, c);
      var m := t;
      if t.place[q] == HoldsFirst {
        LocksInOrder(n, q);
        var d := Second(Asymmetric, n, q);
        assert HoldsBelow(n, t, q, Rank(n, d));
        var first := Clear(n, t, d);
        m := Run(Asymmetric, n, t, first);
        RunOne(Asymmetric, n, t, first, q);
        schedule := first + [q];
        forall j: nat | j < n && HoldsBelow(n, t, j, Rank(n, c))
          ensures j != q && HoldsBelow(n, t, j, Rank(n, d))
        {
        }
        m := Step(Asymmetric, n, m, q);
      }
      RunConsistent(Asymmetric, n, t, schedule);
      var last := Drain(n, m, q);
      RunConcat(Asymmetric, n, t, schedule, last);
      schedule := schedule + last;
      RunConsistent(Asymmetric, n, t, schedule);
      Dropped(n, t, m, Run(Asymmetric, n, t, schedule), q, c);
    }
  }

  /** Once `q` thinks again, chopstick `c`, which it held and nobody else does, is free. */
  lemma Dropped(n: nat, t: Table, m: Table, r: Table, q: nat, c: nat)
    requires n >= 2 && Consistent(Asymmetric, n, m) && Consistent(Asymmetric, n, r) && q < n && c < n
    requires Holds(Asymmetric, n, m, q, c) && r.place == m.place[q := Thinking] && Seating(n, t)
    ensures r.owner[c] == -1
  {
    assert m.owner[c] == q;
    forall o | 0 <= o < n
      ensures !Holds(Asymmetric, n, r, o, c)
    {
      assert m.owner[c] == o <==> Holds(Asymmetric, n, m, o, c);
      assert r.owner[c] == o <==> Holds(Asymmetric, n, r, o, c);
    }
    OwnedIsHeld(n, r, c);
  }

  lemma OwnedIsHeld(n: nat, t: Table, c: nat)
    requires Consistent(Asymmetric, n, t) && c < n
    ensures t.owner[c] != -1 ==> exists o :: 0 <= o < n && Holds(Asymmetric, n, t, o, c)
  {
    if t.owner[c] != -1 {
      assert Holds(Asymmetric, n, t, t.owner[c], c);
    }
  }

  /** From a state in which `p` thinks, some schedule lets it eat. */
  lemma Feed(n: nat, t: Table, p: nat) returns (schedule: seq<nat>)
    requires n >= 2 && Consistent(Asymmetric, n, t) && p < n && t.place[p] == Thinking
    ensures CanRun(Asymmetric, n, t, schedule) && Run(Asymmetric, n, t, schedule).place[p] == Eating
  {
    var a := Clear(n, t, First(Asymmetric, n, p));
    RunOne(Asymmetric, n, t, a, p);
    var m := Run(Asymmetric, n, t, a + [p]);
    RunConsistent(Asymmetric, n, t, a + [p]);
    LocksInOrder(n, p);
    assert HoldsBelow(n, m, p, Rank(n, Second(Asymmetric, n, p)));
    var b := Clear(n, m, Second(Asymmetric, n, p));
    RunOne(Asymmetric, n, m, b, p);
    RunConcat(Asymmetric, n, t, a + [p], b + [p]);
    schedule := a + [p] + (b + [p]);
  }

  lemma FeedSecond(n: nat, t: Table, p: nat) returns (schedule: seq<nat>)
    requires n >= 2 && Consistent(Asymmetric, n, t) && p < n && t.place[p] == HoldsFirst
    ensures CanRun(Asymmetric, n, t, schedule) && Run(Asymmetric, n, t, schedule).place[p] == Eating
  {
    LocksInOrder(n, p);
    assert HoldsBelow(n, t, p, Rank(n, Second(Asymmetric, n, p)));
    var b := Clear(n, t, Second(Asymmetric, n, p));
    RunOne(Asymmetric, n, t, b, p);
    schedule := b + [p];
  }

  /** In the asymmetric version any philosopher can be brought to eating from any reachable state
      by finitely many steps. */
  lemma AnyoneCanEat(n: nat, t: Table, p: nat) returns (schedule: seq<nat>)
    requires n >= 2 && Reachable(Asymmetric, n, t) && p < n
    ensures Seating(n, t) && CanRun(Asymmetric, n, t, schedule)
    ensures Run(Asymmetric, n, t, schedule).place[p] == Eating
  {
    ReachableConsistent(Asymmetric, n, t);
    match t.place[p] {
      case Thinking =>
        schedule := Feed(n, t, p);
      case HoldsFirst =>
        schedule := FeedSecond(n, t, p);
      case Eating =>
        schedule := [];
      case HoldsLeft =>
        var a := Drain(n, t, p);
        RunConsistent(Asymmetric, n, t, a);
        var b := Feed(n, Run(Asymmetric, n, t, a), p);
        RunConcat(Asymmetric, n, t, a, b);
        schedule := a + b;
    }
  }

  // ----- the symmetric version -----

  /** Nobody can take a step. */
  ghost predicate Stuck(style: Style, n: nat, t: Table)
    requires Seating(n, t)
  {
    forall i :: 0 <= i < n ==> !CanStep(style, n, t, i)
  }

  /** In the symmetric version a reachable state is a deadlock exactly when every philosopher holds
      its left chopstick and waits for its right one. */
  lemma StuckIffAllHoldLeft(n: nat, t: Table)
    requires n >= 2 && Reachable(Symmetric, n, t)
    ensures Seating(n, t)
    ensures Stuck(Symmetric, n, t) <==> forall i :: 0 <= i < n ==> t.place[i] == HoldsFirst && t.owner[LeftChop(i)] == i
  {
    ReachableConsistent(Symmetric, n, t);
    forall i | 0 <= i < n
      ensures Stuck(Symmetric, n, t) ==> t.place[i] == HoldsFirst && t.owner[i] == i
      ensures (forall j :: 0 <= j < n ==> t.place[j] == HoldsFirst && t.owner[LeftChop(j)] == j) ==>
        !CanStep(Symmetric, n, t, i)
    {
      assert t.owner[i] == i <==> Holds(Symmetric, n, t, i, i);
      if Stuck(Symmetric, n, t) {
        assert !CanStep(Symmetric, n, t, i);
        if t.place[i] == Thinking {
          ThinkerBlocked(n, t, i);
        }
      }
      if forall j :: 0 <= j < n ==> t.place[j] == HoldsFirst && t.owner[LeftChop(j)] == j {
        assert t.owner[LeftChop(RightChop(n, i))] == RightChop(n, i);
      }
    }
  }

  /** A thinker is only ever blocked by its left neighbour, who must have both chopsticks. */
  lemma ThinkerBlocked(n: nat, t: Table, i: nat)
    requires n >= 2 && Consistent(Symmetric, n, t) && i < n && t.place[i] == Thinking && t.owner[LeftChop(i)] != -1
    ensures exists j :: 0 <= j < n && t.place[j] == Eating && CanStep(Symmetric, n, t, j)
  {
    var j := t.owner[i];
    assert Holds(Symmetric, n, t, j, i);
  }

  /** The schedule in which the first `k` philosophers each take their left chopstick. */
  function AllTakeLeft(k: nat): (r: seq<nat>) {
    if k == 0 then [] else AllTakeLeft(k - 1) + [k - 1]
  }

  ghost predicate TookLeft(n: nat, k: nat, t: Table) {
    Seating(n, t) && forall i :: 0 <= i < n ==>
      t.place[i] == (if i < k then HoldsFirst else Thinking) && t.owner[i] == (if i < k then i else -1)
  }

  lemma {:induction false} TakeLeftRuns(n: nat, k: nat)
    requires n >= 2 && k <= n
    ensures CanRun(Symmetric, n, Start(n), AllTakeLeft(k))
    ensures TookLeft(n, k, Run(Symmetric, n, Start(n), AllTakeLeft(k)))
  {
    if k > 0 {
      TakeLeftRuns(n, k - 1);
      var m := Run(Symmetric, n, Start(n), AllTakeLeft(k - 1));
      assert m.place[k - 1] == Thinking && m.owner[k - 1] == -1;
      assert TookLeft(n, k, Step(Symmetric, n, m, k - 1));
      RunOne(Symmetric, n, Start(n), AllTakeLeft(k - 1), k - 1);
    }
  }

  /** That deadlock can be reached from the start, for any number of philosophers. */
  lemma DeadlockReachable(n: nat) returns (t: Table)
    requires n >= 2
    ensures Reachable(Symmetric, n, t) && Seating(n, t) && Stuck(Symmetric, n, t)
  {
    TakeLeftRuns(n, n);
    t := Run(Symmetric, n, Start(n), AllTakeLeft(n));
    assert CanRun(Symmetric, n, Start(n), AllTakeLeft(n)) && Run(Symmetric, n, Start(n), AllTakeLeft(n)) == t;
    assert TookLeft(n, n, t);
    StuckIffAllHoldLeft(n, t);
  }

  // ----- between the two unlock calls -----

  /** After eating, philosopher `p` still holds its left chopstick, and its right neighbour has
      already locked the other one. */
  ghost predicate LeftAlone(n: nat, t: Table, p: nat)
    requires p < n
  {
    && Seating(n, t) && t.place[p] == HoldsLeft && t.owner[LeftChop(p)] == p
    && t.owner[RightChop(n, p)] == RightChop(n, p)
  }

  /** With two philosophers of whom one goes left first and the other right first, both have eaten
      and hold a chopstick at no time. */
  ghost predicate OneAtATime(t: Table) {
    && Consistent(Asymmetric, 2, t)
    && !((t.place[0] == Eating || t.place[0] == HoldsLeft) && (t.place[1] == Eating || t.place[1] == HoldsLeft))
  }

  lemma StepOneAtATime(t: Table, i: nat)
    requires OneAtATime(t) && CanStep(Asymmetric, 2, t, i)
    ensures OneAtATime(Step(Asymmetric, 2, t, i))
  {
    StepConsistent(Asymmetric, 2, t, i);
    assert t.owner[0] == 0 <==> Holds(Asymmetric, 2, t, 0, 0);
    assert t.owner[0] == 1 <==> Holds(Asymmetric, 2, t, 1, 0);
    assert t.owner[1] == 0 <==> Holds(Asymmetric, 2, t, 0, 1);
    assert t.owner[1] == 1 <==> Holds(Asymmetric, 2, t, 1, 1);
    hide Consistent;
  }

  lemma {:induction false} RunOneAtATime(t: Table, schedule: seq<nat>)
    requires OneAtATime(t) && CanRun(Asymmetric, 2, t, schedule)
    ensures OneAtATime(Run(Asymmetric, 2, t, schedule))
    decreases |schedule|
  {
    if schedule != [] {
      StepOneAtATime(t, schedule[0]);
      RunOneAtATime(Step(Asymmetric, 2, t, schedule[0]), schedule[1..]);
    }
  }

  lemma NeverLeftAlone(t: Table)
    requires Reachable(Asymmetric, 2, t)
    ensures !LeftAlone(2, t, 0)
  {
    var schedule :| CanRun(Asymmetric, 2, Start(2), schedule) && Run(Asymmetric, 2, Start(2), schedule) == t;
    RunOneAtATime(Start(2), schedule);
    assert t.owner[1] == 1 <==> Holds(Asymmetric, 2, t, 1, 1);
  }

  /** Philosopher `p` has eaten and unlocked its right chopstick; nobody else has done anything. */
  lemma EatenAlone(style: Style, n: nat, p: nat) returns (t: Table)
    requires n >= 2 && p < n
    ensures CanRun(style, n, Start(n), [p, p, p]) && Run(style, n, Start(n), [p, p, p]) == t
    ensures t == Table(Start(n).place[p := HoldsLeft], Start(n).owner[LeftChop(p) := p])
  {
    var t0 := Start(n);
    assert CanRun(style, n, t0, []) && Run(style, n, t0, []) == t0;
    hide CanRun, Run;
    RunOne(style, n, t0, [], p);
    assert [] + [p] == [p];
    RunOne(style, n, t0, [p], p);
    assert [p] + [p] == [p, p];
    RunOne(style, n, t0, [p, p], p);
    assert [p, p] + [p] == [p, p, p];
    t := Run(style, n, t0, [p, p, p]);
  }

  lemma NeighbourLocks(style: Style, n: nat, p: nat) returns (t: Table)
    requires n >= 2 && p < n && !(style == Asymmetric && n == 2 && p == 0)
    ensures Reachable(style, n, t) && LeftAlone(n, t, p)
  {
    var q := RightChop(n, p);
    hide CanRun, Run;
    var m := EatenAlone(style, n, p);
    RunOne(style, n, Start(n), [p, p, p], q);
    t := Run(style, n, Start(n), [p, p, p] + [q]);
    if First(style, n, q) != q {
      assert p != q && RightChop(n, q) != p;
      RunOne(style, n, Start(n), [p, p, p] + [q], q);
      t := Run(style, n, Start(n), [p, p, p] + [q] + [q]);
    }
  }

  /** That state is reached for every philosopher in both versions, except that of two asymmetric
      philosophers the odd one needs the even one's left chopstick first. */
  lemma LeftAloneReachable(style: Style, n: nat, p: nat)
    requires n >= 2 && p < n
    ensures (exists t :: Reachable(style, n, t) && LeftAlone(n, t, p)) <==> !(style == Asymmetric && n == 2 && p == 0)
  {
    if style == Asymmetric && n == 2 && p == 0 {
      forall t | Reachable(style, n, t)
        ensures !LeftAlone(n, t, p)
      {
        NeverLeftAlone(t);
      }
    } else {
      var t := NeighbourLocks(style, n, p);
    }
  }
}
