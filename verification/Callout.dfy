/**
 The callout list of ken/clock.c: each entry holds how many ticks it comes after the one before it.
 */
module Callout {

  const NCALL := 20

  /** func 0 ends the list. */
  datatype Callo = Callo(time: int, func: int, arg: int)

  /** What the list stands for: functions to be called, each at a tick of its own. */
  datatype Job = Job(func: int, arg: int, due: int)

  ghost predicate Sorted(q: seq<Job>) {
    forall i, j :: 0 <= i < j < |q| ==> q[i].due <= q[j].due
  }

  /** How many jobs go before one that is due at `due`: those due no later. */
  function Place(q: seq<Job>, due: int): (k: nat)
    ensures k <= |q| && (forall i :: 0 <= i < k ==> q[i].due <= due) && (k < |q| ==> q[k].due > due)
  {
    if q == [] || q[0].due > due then 0 else 1 + Place(q[1..], due)
  }

  /** A new job goes behind all that are due no later: so ties are served in the order they were asked for. */
  function Queued(q: seq<Job>, j: Job): seq<Job> {
    var k := Place(q, j.due);
    q[..k] + [j] + q[k..]
  }

  lemma QueuedSorted(q: seq<Job>, j: Job)
    requires Sorted(q)
    ensures Sorted(Queued(q, j))
  {
    hide Place;
    var k, r := Place(q, j.due), Queued(q, j);
    PlaceFacts(q, j.due);
    forall a, b | 0 <= a < b < |r| ensures r[a].due <= r[b].due {
      assert r[a] == if a < k then q[a] else if a == k then j else q[a - 1];
      assert r[b] == if b < k then q[b] else if b == k then j else q[b - 1];
    }
  }

  lemma QueuedSame(q: seq<Job>, j: Job)
    ensures multiset(Queued(q, j)) == multiset(q) + multiset{j}
  {
    hide Place;
    var k := Place(q, j.due);
    PlaceFacts(q, j.due);
    assert q == q[..k] + q[k..];
  }

  lemma PlaceFacts(q: seq<Job>, due: int)
    ensures Place(q, due) <= |q| && (forall i :: 0 <= i < Place(q, due) ==> q[i].due <= due)
    ensures Place(q, due) < |q| ==> q[Place(q, due)].due > due
  {
  }

  /** The jobs called, then those to be called, are in order of their ticks; none was called before its own. */
  ghost predicate InOrder(log: seq<Job>, q: seq<Job>, now: int) {
    Sorted(log + q) && forall j :: j in log ==> j.due <= now
  }

  lemma OrderQueued(log: seq<Job>, q: seq<Job>, now: int, job: Job)
    requires InOrder(log, q, now) && Sorted(q) && job.due >= now
    ensures InOrder(log, Queued(q, job), now)
  {
    QueuedSorted(q, job);
    var s, r := log + q, Queued(q, job);
    forall a, b | 0 <= a < |log| && 0 <= b < |r| ensures log[a].due <= r[b].due {
      assert log[a] in log && s[a] == log[a];
      QueuedFrom(q, job, b);
      if r[b] in q {
        var c :| 0 <= c < |q| && q[c] == r[b];
        assert s[|log| + c] == q[c];
      }
    }
    OrderJoin(log, q, r);
  }

  lemma QueuedFrom(q: seq<Job>, job: Job, b: nat)
    requires b < |Queued(q, job)|
    ensures Queued(q, job)[b] in q || Queued(q, job)[b] == job
  {
    PlaceFacts(q, job.due);
  }

  lemma OrderJoin(log: seq<Job>, q: seq<Job>, r: seq<Job>)
    requires Sorted(log + q) && Sorted(r)
    requires forall a, b :: 0 <= a < |log| && 0 <= b < |r| ==> log[a].due <= r[b].due
    ensures Sorted(log + r)
  {
    assert forall a :: 0 <= a < |log| ==> (log + q)[a] == log[a];
  }

  lemma OrderCalled(log: seq<Job>, q: seq<Job>, now: int)
    requires InOrder(log, q, now) && q != [] && q[0].due <= now
    ensures InOrder(log + [q[0]], q[1..], now)
  {
    assert log + [q[0]] + q[1..] == log + q;
  }

  lemma OrderTick(log: seq<Job>, q: seq<Job>, now: int)
    requires InOrder(log, q, now)
    ensures InOrder(log, q, now + 1)
  {
  }

  lemma OrderNone(now: int)
    ensures InOrder([], [], now)
  {
  }

  /** Ticks left. */
  function Rest(j: Job, now: int): int {
    if j.due > now then j.due - now else 0
  }

  /** The entry that stands for job `i`: what is left of its time beyond the job before it. */
  function Delta(q: seq<Job>, now: int, i: nat): int
    requires i < |q|
  {
    Rest(q[i], now) - if i > 0 then Rest(q[i - 1], now) else 0
  }

  ghost function Spelled(q: seq<Job>, now: int, i: nat): Callo
    requires i < |q|
  {
    Callo(Delta(q, now, i), q[i].func, q[i].arg)
  }

  // ------------------------------------------------------------ the list as it is, whatever the times

  /** The entries before the one that ends the list, and how far the sweep has got; 0 between sweeps. */
  datatype List = List(es: seq<Callo>, p1: nat)

  function Sum(es: seq<Callo>, k: nat): int
    requires k <= |es|
  {
    if k == 0 then 0 else Sum(es, k - 1) + es[k - 1].time
  }

  /** timeout's search from entry `i` on: it stops at the first that takes more than is left of the time. */
  function StopFrom(es: seq<Callo>, tim: int, i: nat): (k: nat)
    requires i <= |es|
    ensures i <= k <= |es|
    decreases |es| - i
  {
    if i < |es| && es[i].time <= tim - Sum(es, i) then StopFrom(es, tim, i + 1) else i
  }

  function Stop(es: seq<Callo>, tim: int): (k: nat)
    ensures k <= |es|
  {
    StopFrom(es, tim, 0)
  }

  /** timeout: the new entry has what is left of its time, and the one it goes before gives that up. */
  function Inserted(es: seq<Callo>, c: Callo): seq<Callo> {
    var k := Stop(es, c.time);
    var t := c.time - Sum(es, k);
    es[..k] + [c.(time := t)] + if k == |es| then [] else [es[k].(time := es[k].time - t)] + es[k + 1..]
  }

  /** The first entry from `i` on with time left. */
  function FirstLeft(es: seq<Callo>, i: nat): (k: nat)
    requires i <= |es|
    ensures i <= k <= |es| && (forall j :: i <= j < k ==> es[j].time <= 0) && (k < |es| ==> es[k].time > 0)
    decreases |es| - i
  {
    if i < |es| && es[i].time <= 0 then FirstLeft(es, i + 1) else i
  }

  function Asked(s: List, c: Callo): List {
    s.(es := Inserted(s.es, c))
  }

  function Passed(s: List): List {
    var k := FirstLeft(s.es, 0);
    if k == |s.es| then s else s.(es := s.es[k := s.es[k].(time := s.es[k].time - 1)])
  }

  predicate Due(s: List) {
    s.p1 < |s.es| && s.es[s.p1].time <= 0
  }

  function Called(s: List): List {
    s.(p1 := s.p1 + 1)
  }

  function Compacted(s: List): List
    requires s.p1 <= |s.es|
  {
    List(s.es[s.p1..], 0)
  }

  lemma InsertedAt(es: seq<Callo>, c: Callo, j: nat)
    requires j <= |es|
    ensures |Inserted(es, c)| == |es| + 1
    ensures var k := Stop(es, c.time);
      var t := c.time - Sum(es, k);
      Inserted(es, c)[j] == if j < k then es[j] else if j == k then c.(time := t)
                            else if j == k + 1 then es[k].(time := es[k].time - t) else es[j - 1]
  {
    hide Stop, Sum;
  }

  /** The search stops where it first cannot go on, and nowhere else. */
  lemma {:induction false} StopIs(es: seq<Callo>, tim: int, i: nat, k: nat)
    requires i <= k <= |es| && (forall j: nat :: i <= j < k ==> es[j].time <= tim - Sum(es, j))
    requires k < |es| ==> es[k].time > tim - Sum(es, k)
    ensures StopFrom(es, tim, i) == k
    decreases k - i
  {
    if i < k {
      StopIs(es, tim, i + 1, k);
    }
  }

  lemma {:induction false} StopFacts(es: seq<Callo>, tim: int, i: nat)
    requires i <= |es|
    ensures var k := StopFrom(es, tim, i);
      && (forall j: nat :: i <= j < k ==> es[j].time <= tim - Sum(es, j))
      && (k < |es| ==> es[k].time > tim - Sum(es, k))
    decreases |es| - i
  {
    if i < |es| && es[i].time <= tim - Sum(es, i) {
      StopFacts(es, tim, i + 1);
    }
  }

  // ------------------------------------------------------------ the list between jobs all in good time

  /** The list from p1 on spells the queue; before p1 lie entries already called. */
  ghost predicate Spells(s: List, q: seq<Job>, log: seq<Job>, now: int) {
    && |s.es| == s.p1 + |q| && Sorted(q) && InOrder(log, q, now)
    && (forall j :: 0 <= j < s.p1 ==> s.es[j].time == 0)
    && (forall j :: s.p1 <= j < |s.es| ==> s.es[j] == Spelled(q, now, j - s.p1))
  }

  lemma {:induction false} SumSpelled(s: List, q: seq<Job>, now: int, j: nat)
    requires |s.es| == s.p1 + |q| && j <= |s.es| && (forall i :: 0 <= i < s.p1 ==> s.es[i].time == 0)
    requires forall i :: s.p1 <= i < |s.es| ==> s.es[i] == Spelled(q, now, i - s.p1)
    ensures Sum(s.es, j) == if j > s.p1 then Rest(q[j - s.p1 - 1], now) else 0
  {
    if j > 0 {
      SumSpelled(s, q, now, j - 1);
      if j > s.p1 {
        DeltaIs(q, now, j - 1 - s.p1);
      }
    }
  }

  lemma StopSpelled(s: List, q: seq<Job>, log: seq<Job>, now: int, tim: int)
    requires Spells(s, q, log, now) && tim >= 0
    ensures Place(q, now + tim) <= |q| && Stop(s.es, tim) == s.p1 + Place(q, now + tim)
    ensures tim - Sum(s.es, Stop(s.es, tim)) == tim - NextTo(q, Place(q, now + tim), now)
  {
    hide Place, Sorted, Delta, Rest, Sum, InOrder;
    PlaceFacts(q, now + tim);
    var k := s.p1 + Place(q, now + tim);
    forall j: nat | j < k ensures s.es[j].time <= tim - Sum(s.es, j) {
      SumSpelled(s, q, now, j);
      if j >= s.p1 { SearchStep(q, now, tim, j - s.p1); }
    }
    SumSpelled(s, q, now, k);
    if k < |s.es| { SearchStep(q, now, tim, k - s.p1); }
    StopIs(s.es, tim, 0, k);
  }

  /** A timeout of a time not negative queues its job, and all others stay as they were. */
  lemma AskedSpells(s: List, q: seq<Job>, log: seq<Job>, now: int, c: Callo)
    requires Spells(s, q, log, now) && c.time >= 0
    ensures Spells(Asked(s, c), Queued(q, Job(c.func, c.arg, now + c.time)), log, now)
  {
    hide Place, Sorted, InOrder, Queued, Delta, Rest, Sum, Spelled, Inserted, Stop;
    var job := Job(c.func, c.arg, now + c.time);
    StopSpelled(s, q, log, now, c.time);
    QueuedLen(q, job);
    QueuedSorted(q, job);
    OrderQueued(log, q, now, job);
    InsertedAt(s.es, c, 0);
    forall j: nat | j <= |s.es|
      ensures j < s.p1 ==> Inserted(s.es, c)[j].time == 0
      ensures j >= s.p1 ==> Inserted(s.es, c)[j] == Spelled(Queued(q, job), now, j - s.p1)
    {
      InsertedAt(s.es, c, j);
      if j >= s.p1 { QueuedAt(q, job, now, j - s.p1); }
    }
  }

  lemma PassedSpells(s: List, q: seq<Job>, log: seq<Job>, now: int)
    requires Spells(s, q, log, now)
    ensures Spells(Passed(s), q, log, now + 1)
  {
    hide Sorted, Delta, Spelled, Rest, InOrder;
    OrderTick(log, q, now);
    var k := FirstLeft(s.es, 0);
    assert k >= s.p1;
    forall i | 0 <= i < k - s.p1 ensures Spelled(q, now, i).time <= 0 {
      assert s.es[s.p1 + i].time <= 0;
    }
    forall i: nat | i < |q| ensures Spelled(q, now + 1, i) == Ticked(Spelled(q, now, i), i == k - s.p1) {
      TickAt(q, now, k - s.p1, i);
    }
  }

  /** What is due is the first job whose tick has come. */
  lemma DueSpells(s: List, q: seq<Job>, log: seq<Job>, now: int)
    requires Spells(s, q, log, now)
    ensures Due(s) == (q != [] && q[0].due <= now)
    ensures q != [] ==> s.es[s.p1].func == q[0].func && s.es[s.p1].arg == q[0].arg
    ensures !Due(s) ==> forall j :: j in q ==> j.due > now
    ensures Due(s) ==> q == [q[0]] + q[1..] && Spells(Called(s), q[1..], log + [q[0]], now)
  {
    hide Delta, Sorted, Spelled, Rest, InOrder;
    if q != [] {
      DeltaFirst(q, now);
      if q[0].due <= now {
        RestSpelled(q, now);
        SortedRest(q);
        OrderCalled(log, q, now);
      }
    }
  }

  // ------------------------------------------------------------ the class

  /** One timeout asked for. */
  datatype Ask = Ask(func: int, arg: int, tim: int)

  function JobsOf(a: seq<Ask>, now: int): seq<Job> {
    seq(|a|, i requires 0 <= i < |a| => Job(a[i].func, a[i].arg, now + a[i].tim))
  }

  /** The jobs the first `m` functions called ask for. */
  function AllJobs(asks: seq<seq<Ask>>, m: nat, now: int): seq<Job> {
    if m == 0 then [] else AllJobs(asks, m - 1, now) + (if m <= |asks| then JobsOf(asks[m - 1], now) else [])
  }

  /** How many timeouts those called from the `m`th on will ask for. */
  function AsksLeft(asks: seq<seq<Ask>>, m: nat): nat
    decreases |asks| - m
  {
    if m >= |asks| then 0 else |asks[m]| + AsksLeft(asks, m + 1)
  }

  ghost predicate Sane(a: seq<Ask>) {
    forall i :: 0 <= i < |a| ==> a[i].func != 0 && a[i].tim >= 0
  }

  ghost predicate Shifted(a: seq<Callo>, b: seq<Callo>, i: nat, c: Callo, n: nat) {
    && i <= n && n + 1 < |a| == |b|
    && (forall j :: 0 <= j < i ==> b[j] == a[j]) && b[i] == c
    && b[i + 1] == a[i].(time := a[i].time - c.time) && forall j :: i + 1 < j <= n + 1 ==> b[j] == a[j - 1]
  }

  lemma ShiftedIs(a: seq<Callo>, b: seq<Callo>, es: seq<Callo>, c: Callo)
    requires |es| + 1 < |a| && a[|es|].func == 0 && c.func != 0
    requires forall j :: 0 <= j < |es| ==> a[j] == es[j] && es[j].func != 0
    requires var k := Stop(es, c.time); Shifted(a, b, k, c.(time := c.time - Sum(es, k)), |es|)
    ensures var r := Inserted(es, c);
      && |r| == |es| + 1 && b[|r|].func == 0
      && forall j :: 0 <= j < |r| ==> b[j] == r[j] && r[j].func != 0
  {
    hide Stop, Sum, Inserted;
    InsertedAt(es, c, 0);
    forall j: nat | j <= |es| ensures b[j] == Inserted(es, c)[j] && b[j].func != 0 {
      InsertedAt(es, c, j);
    }
  }

  class Clock {
    const callout: array<Callo>
    var p1: nat
    ghost var es: seq<Callo>
    ghost var now: int      // ticks so far
    ghost var queue: seq<Job>
    ghost var log: seq<Job> // the calls made, in order

    ghost function Now(): List
      reads this
    {
      List(es, p1)
    }

    /** The table holds the list, with an entry to end it. */
    ghost predicate Shape()
      reads this, callout
    {
      && callout.Length == NCALL && p1 <= |es| < NCALL && callout[|es|].func == 0
      && forall j :: 0 <= j < |es| ==> callout[j] == es[j] && es[j].func != 0
    }

    /** And the list spells the queue: so it does as long as no time is negative. */
    ghost predicate Valid()
      reads this, callout
    {
      Shape() && Spells(Now(), queue, log, now)
    }

    constructor ()
      ensures Valid() && queue == [] && log == [] && p1 == 0 && es == [] && now == 0
    {
      callout := new Callo[NCALL](_ => Callo(0, 0, 0));
      p1, es, now, queue, log := 0, [], 0, [], [];
      OrderNone(0);
    }

    /** timeout's search. */
    method Search(tim: int) returns (i: nat, t: int)
      requires Shape()
      ensures i == Stop(es, tim) && t == tim - Sum(es, i)
    {
      t := tim;
      i := 0;
      while callout[i].func != 0 && callout[i].time <= t
        invariant i <= |es| && t == tim - Sum(es, i) && StopFrom(es, tim, i) == Stop(es, tim)
        decreases |es| - i
      {
        t := t - callout[i].time;
        i := i + 1;
      }
    }

    /** timeout's loops that make room: every entry from `i` on, and the end of the list, move up one. */
    method MakeRoom(i: nat, ghost n: nat)
      requires i <= n < callout.Length - 1 && callout[n].func == 0 && forall j :: 0 <= j < n ==> callout[j].func != 0
      modifies callout
      ensures forall j :: 0 <= j <= i ==> callout[j] == old(callout[j])
      ensures forall j :: i < j <= n + 1 ==> callout[j] == old(callout[j - 1])
    {
      var p2 := i;
      while callout[p2].func != 0
        invariant i <= p2 <= n
        decreases n - p2
      {
        p2 := p2 + 1;
      }
      while p2 >= i
        invariant i - 1 <= p2 <= n
        invariant forall j :: 0 <= j <= p2 + 1 && j <= n ==> callout[j] == old(callout[j])
        invariant forall j :: p2 + 1 < j <= n + 1 ==> callout[j] == old(callout[j - 1])
        decreases p2 - i + 1
      {
        callout[p2 + 1] := callout[p2];
        p2 := p2 - 1;
      }
    }

    /** timeout's insertion: the entry at `i` gives up the time of the new one, which takes its place. */
    method Put(i: nat, c: Callo, ghost n: nat)
      requires i <= n < callout.Length - 1 && forall j :: 0 <= j < n ==> callout[j].func != 0
      requires callout[n].func == 0
      modifies callout
      ensures Shifted(old(callout[..]), callout[..], i, c, n)
    {
      callout[i] := callout[i].(time := callout[i].time - c.time);
      MakeRoom(i, n);
      callout[i] := c;
    }

    /** timeout, in a sweep or out of it, of any time, with an entry to spare. */
    method Timeout(fun: int, arg: int, tim: int)
      requires Shape() && fun != 0 && |es| + 1 < NCALL
      modifies callout, this`es, this`queue
      ensures Shape() && Now() == Asked(old(Now()), Callo(tim, fun, arg))
      ensures old(Valid()) && tim >= 0 ==>
        var job := Job(fun, arg, now + tim);
        Valid() && queue == Queued(old(queue), job) && multiset(queue) == multiset(old(queue)) + multiset{job}
      ensures !(old(Valid()) && tim >= 0) ==> queue == old(queue)
    {
      hide Shifted, Stop, Sum, Inserted, Spells, Queued;
      ghost var n, was, keeps := Now(), callout[..], Valid() && tim >= 0;
      ghost var c := Callo(tim, fun, arg);
      var i, t := Search(tim);
      Put(i, Callo(t, fun, arg), |es|);
      ShiftedIs(was, callout[..], es, c);
      es := Inserted(es, c);
      if keeps {
        AskedSpells(n, queue, log, now, c);
        QueuedSame(queue, Job(fun, arg, now + tim));
        queue := Queued(queue, Job(fun, arg, now + tim));
      }
    }

    /** The clock's tick: the first entry with time left loses one. */
    method Tick()
      requires Shape()
      modifies callout, this`es, this`now
      ensures Shape() && Now() == Passed(old(Now())) && now == old(now) + 1 && (old(Valid()) ==> Valid())
    {
      hide Spells;
      if Valid() { PassedSpells(Now(), queue, log, now); }
      if callout[0].func == 0 {
        now := now + 1;
        return;
      }
      var p2 := 0;
      while callout[p2].time <= 0 && callout[p2].func != 0
        invariant 0 <= p2 <= |es| && FirstLeft(es, p2) == FirstLeft(es, 0)
        decreases |es| - p2
      {
        p2 := p2 + 1;
      }
      callout[p2] := callout[p2].(time := callout[p2].time - 1);
      es := Passed(Now()).es;
      now := now + 1;
    }

    /** The clock at low priority: whether the sweep has another function to call, and which. */
    method Fire() returns (called: bool, func: int, arg: int)
      requires Shape()
      modifies this`p1, this`queue, this`log
      ensures Shape() && called == Due(old(Now())) && Now() == if called then Called(old(Now())) else old(Now())
      ensures called ==> func == es[old(p1)].func && arg == es[old(p1)].arg
      ensures old(Valid()) ==> Valid() && called == (old(queue) != [] && old(queue)[0].due <= now)
      ensures old(Valid()) && called ==>
        old(queue) == [Job(func, arg, old(queue)[0].due)] + queue && log == old(log) + [old(queue)[0]]
      ensures old(Valid()) && !called ==>
        queue == old(queue) && log == old(log) && forall j :: j in queue ==> j.due > now
    {
      hide Spells;
      ghost var n, keeps := Now(), Valid();
      if keeps { DueSpells(n, queue, log, now); QueueLength(n, queue, log, now); }
      called := callout[p1].func != 0 && callout[p1].time <= 0;
      func, arg := callout[p1].func, callout[p1].arg;
      if called {
        p1 := p1 + 1;
        if keeps {
          log, queue := log + [queue[0]], queue[1..];
        }
      }
    }

    /** The end of the sweep: what is left moves to the front. */
    method Compact()
      requires Shape()
      modifies callout, this`p1, this`es
      ensures Shape() && Now() == Compacted(old(Now())) && (old(Valid()) ==> Valid())
    {
      hide Sorted, InOrder, Spelled;
      ghost var rest := es[p1..];
      var from, p2 := p1, 0;
      while callout[from].func != 0
        invariant p1 == old(p1) && es == old(es) && p1 <= from <= |es| && p2 == from - p1
        invariant forall j :: 0 <= j < p2 ==> callout[j] == rest[j]
        invariant forall j :: from <= j < |es| ==> callout[j] == es[j]
        invariant callout[|es|].func == 0
        decreases |es| - from
      {
        callout[p2] := callout[from];
        from := from + 1;
        p2 := p2 + 1;
      }
      callout[p2] := callout[p2].(func := 0);
      p1, es := 0, rest;
    }

    /** What one function called asks for. */
    method AskAll(a: seq<Ask>)
      requires Valid() && Sane(a) && |es| + |a| < NCALL
      modifies callout, this`es, this`queue
      ensures Valid() && |es| == |old(es)| + |a| && |queue| == |old(queue)| + |a|
      ensures multiset(queue) == multiset(old(queue)) + multiset(JobsOf(a, now))
    {
      hide Valid, Shape, Inserted;
      ghost var js := JobsOf(a, now);
      var i := 0;
      while i < |a|
        invariant 0 <= i <= |a| && Valid() && |es| == |old(es)| + i && |queue| == |old(queue)| + i
        invariant multiset(queue) == multiset(old(queue)) + multiset(JobsOf(a, now)[..i])
      {
        ShapeOf();
        InsertedAt(es, Callo(a[i].tim, a[i].func, a[i].arg), 0);
        Timeout(a[i].func, a[i].arg, a[i].tim);
        OneJobMore(JobsOf(a, now), i);
        i := i + 1;
      }
      assert JobsOf(a, now)[..|a|] == JobsOf(a, now);
    }

    lemma ShapeOf()
      requires Valid()
      ensures Shape()
    {
    }

    /** One function called, if any is due, and what it asks for. */
    method CallOne(a: seq<Ask>) returns (called: bool)
      requires Valid() && Sane(a) && |es| + |a| < NCALL
      modifies callout, this`p1, this`es, this`queue, this`log
      ensures Valid() && called == (old(queue) != [] && old(queue)[0].due <= now)
      ensures called ==> log == old(log) + [old(queue)[0]] && |es| == |old(es)| + |a|
      ensures called ==> |queue| + 1 == |old(queue)| + |a|
      ensures called ==> multiset(queue) == multiset(old(queue)[1..]) + multiset(JobsOf(a, now))
      ensures !called ==> queue == old(queue) && log == old(log) && es == old(es)
      ensures !called ==> forall j :: j in queue ==> j.due > now
    {
      hide Valid, Shape, Sane;
      ShapeOf();
      var func, arg;
      called, func, arg := Fire();
      if called {
        AskAll(a);
      }
    }

    /**
     A whole sweep, of functions that ask for timeouts of times not negative: the `m`th called asks for
     asks[m].  All that is due is called, in order, those asked for in the sweep included, and no more.
     */
    method Sweep(asks: seq<seq<Ask>>)
      requires Valid() && (forall i :: 0 <= i < |asks| ==> Sane(asks[i])) && |es| + AsksLeft(asks, 0) < NCALL
      modifies callout, this`p1, this`es, this`queue, this`log
      ensures Valid() && p1 == 0 && forall j :: j in queue ==> j.due > now
      ensures |log| >= |old(log)| && Swept(old(log), old(queue), log, queue, asks, |log| - |old(log)|, now)
    {
      hide Valid, Shape, Swept;
      var more, m := true, 0;
      SweptNone(log, queue, asks, now);
      while more
        invariant Valid() && |es| + AsksLeft(asks, m) < NCALL && |log| == |old(log)| + m
        invariant Swept(old(log), old(queue), log, queue, asks, m, now)
        invariant !more ==> forall j :: j in queue ==> j.due > now
        decreases |queue| + AsksLeft(asks, m), more
      {
        ghost var l, q := log, queue;
        more := CallOne(if m < |asks| then asks[m] else []);
        if more {
          SweptMore(old(log), old(queue), l, q, log, queue, asks, m, now);
          m := m + 1;
        }
      }
      CompactValid();
    }

    method CompactValid()
      requires Valid()
      modifies callout, this`p1, this`es
      ensures Valid() && p1 == 0
    {
      Compact();
    }
  }

  lemma QueueLength(s: List, q: seq<Job>, log: seq<Job>, now: int)
    requires Spells(s, q, log, now)
    ensures |s.es| == s.p1 + |q|
  {
  }

  lemma OneJobMore(js: seq<Job>, i: nat)
    requires i < |js|
    ensures multiset(js[..i + 1]) == multiset(js[..i]) + multiset{js[i]}
  {
    assert js[..i + 1] == js[..i] + [js[i]];
  }

  /** `m` calls: of jobs that were due, after those made before; none is lost, and those asked for are there. */
  ghost predicate Swept(l0: seq<Job>, q0: seq<Job>, l: seq<Job>, q: seq<Job>, asks: seq<seq<Ask>>, m: nat, now: int) {
    && |l| == |l0| + m && l[..|l0|] == l0 && (forall j :: j in l[|l0|..] ==> j.due <= now)
    && multiset(l) + multiset(q) == multiset(l0) + multiset(q0) + multiset(AllJobs(asks, m, now))
  }

  lemma SweptNone(l: seq<Job>, q: seq<Job>, asks: seq<seq<Ask>>, now: int)
    ensures Swept(l, q, l, q, asks, 0, now)
  {
  }

  lemma SweptMore(l0: seq<Job>, q0: seq<Job>, l: seq<Job>, q: seq<Job>, l': seq<Job>, q': seq<Job>,
                  asks: seq<seq<Ask>>, m: nat, now: int)
    requires Swept(l0, q0, l, q, asks, m, now) && q != [] && q[0].due <= now && l' == l + [q[0]]
    requires multiset(q') == multiset(q[1..]) + multiset(JobsOf(if m < |asks| then asks[m] else [], now))
    ensures Swept(l0, q0, l', q', asks, m + 1, now)
  {
    hide JobsOf, AllJobs;
    assert l'[|l0|..] == l[|l0|..] + [q[0]];
    AllJobsMore(asks, m, now);
    HeadMoves(l, q, l');
    Counted(multiset(l'), multiset(q'), multiset(l), multiset(q[1..]), multiset(q), q[0],
            multiset(JobsOf(if m < |asks| then asks[m] else [], now)));
  }

  lemma AllJobsMore(asks: seq<seq<Ask>>, m: nat, now: int)
    ensures multiset(AllJobs(asks, m + 1, now))
      == multiset(AllJobs(asks, m, now)) + multiset(JobsOf(if m < |asks| then asks[m] else [], now))
  {
    assert JobsOf([], now) == [];
  }

  lemma HeadMoves(l: seq<Job>, q: seq<Job>, l': seq<Job>)
    requires q != [] && l' == l + [q[0]]
    ensures multiset(l') == multiset(l) + multiset{q[0]} && multiset(q) == multiset(q[1..]) + multiset{q[0]}
  {
    assert q == [q[0]] + q[1..];
  }

  lemma Counted(l': multiset<Job>, q': multiset<Job>, l: multiset<Job>, rest: multiset<Job>, q: multiset<Job>, x: Job,
                a: multiset<Job>)
    requires l' == l + multiset{x} && q' == rest + a && q == rest + multiset{x}
    ensures l' + q' == l + q + a
  {
  }

  lemma PlaceIff(q: seq<Job>, due: int, j: nat)
    requires Sorted(q) && j < |q|
    ensures j < Place(q, due) <==> q[j].due <= due
  {
    PlaceFacts(q, due);
  }

  lemma SearchStep(q: seq<Job>, now: int, tim: int, j: nat)
    requires Sorted(q) && j < |q| && tim >= 0
    ensures var before := if j > 0 then Rest(q[j - 1], now) else 0;
      && (Spelled(q, now, j).time <= tim - before <==> j < Place(q, now + tim))
      && Spelled(q, now, j).time == Rest(q[j], now) - before
  {
    hide Place;
    PlaceIff(q, now + tim, j);
    DeltaIs(q, now, j);
  }

  lemma SortedRest(q: seq<Job>)
    requires Sorted(q) && q != []
    ensures Sorted(q[1..]) && q == [q[0]] + q[1..]
  {
  }

  lemma DeltaIs(q: seq<Job>, now: int, i: nat)
    requires i < |q|
    ensures Delta(q, now, i) == Rest(q[i], now) - (if i > 0 then Rest(q[i - 1], now) else 0)
    ensures Rest(q[i], now) == if q[i].due > now then q[i].due - now else 0
  {
  }

  lemma QueuedLen(q: seq<Job>, j: Job)
    ensures |Queued(q, j)| == |q| + 1
  {
  }

  /** Each entry of the new list, from the old one: the entry after the new one gives up what the new one has. */
  lemma QueuedAt(q: seq<Job>, job: Job, now: int, j: nat)
    requires Sorted(q) && job.due >= now && j <= |q|
    ensures |Queued(q, job)| == |q| + 1 && Place(q, job.due) <= |q|
    ensures var k := Place(q, job.due);
      var t := job.due - now - (if k > 0 then Rest(q[k - 1], now) else 0);
      Spelled(Queued(q, job), now, j) ==
        if j < k then Spelled(q, now, j) else if j == k then Callo(t, job.func, job.arg)
        else if j == k + 1 then Spelled(q, now, k).(time := Spelled(q, now, k).time - t) else Spelled(q, now, j - 1)
  {
    hide Place, Sorted;
    PlaceFacts(q, job.due);
    var k, r := Place(q, job.due), Queued(q, job);
    assert r[j] == if j < k then q[j] else if j == k then job else q[j - 1];
    assert j > 0 ==> r[j - 1] == if j - 1 < k then q[j - 1] else if j - 1 == k then job else q[j - 2];
  }

  /** What is left of the time of the job before place `k`. */
  function NextTo(q: seq<Job>, k: nat, now: int): int
    requires k <= |q|
  {
    if k > 0 then Rest(q[k - 1], now) else 0
  }

  lemma DeltaFirst(q: seq<Job>, now: int)
    requires Sorted(q) && q != []
    ensures Spelled(q, now, 0).time <= 0 <==> q[0].due <= now
    ensures q[0].due <= now ==> Spelled(q, now, 0).time == 0
    ensures Spelled(q, now, 0).func == q[0].func && Spelled(q, now, 0).arg == q[0].arg
    ensures q[0].due > now ==> forall j :: j in q ==> j.due > now
  {
  }

  lemma RestSpelled(q: seq<Job>, now: int)
    requires Sorted(q) && q != [] && q[0].due <= now
    ensures forall j {:trigger Spelled(q[1..], now, j)} :: 0 <= j < |q| - 1 ==>
        Spelled(q[1..], now, j) == Spelled(q, now, j + 1)
  {
  }

  function Ticked(c: Callo, first: bool): Callo {
    if first then c.(time := c.time - 1) else c
  }

  /** A tick takes one from the entry of the first job not yet due, and that brings all later ones closer. */
  lemma {:induction false} TickAt(q: seq<Job>, now: int, p: int, j: nat)
    requires Sorted(q) && 0 <= p <= |q| && j < |q| && forall i :: 0 <= i < p ==> Spelled(q, now, i).time <= 0
    requires p < |q| ==> Spelled(q, now, p).time > 0
    ensures Spelled(q, now + 1, j) == Ticked(Spelled(q, now, j), j == p)
  {
    AllDue(q, now, p);
  }

  lemma {:induction false} AllDue(q: seq<Job>, now: int, p: nat)
    requires p <= |q| && forall i :: 0 <= i < p ==> Spelled(q, now, i).time <= 0
    ensures forall i :: 0 <= i < p ==> q[i].due <= now
  {
    if p > 0 {
      AllDue(q, now, p - 1);
      assert Spelled(q, now, p - 1).time <= 0;
    }
  }

  // ------------------------------------------------------------ when each job is called, whatever the times

  function Pos(t: int): nat {
    if t > 0 then t else 0
  }

  function Neg(t: int): nat {
    if t < 0 then -t else 0
  }

  /** The ticks the entries from `p` up to `k` take: one that is not positive takes none. */
  function WaitSum(es: seq<Callo>, p: nat, k: nat): nat
    requires p <= k <= |es|
  {
    if k == p then 0 else WaitSum(es, p, k - 1) + Pos(es[k - 1].time)
  }

  /** How many ticks from now entry `i`, not yet called, is called. */
  function Wait(s: List, i: nat): nat
    requires s.p1 <= i < |s.es|
  {
    WaitSum(s.es, s.p1, i + 1)
  }

  /** The entries the sweep has passed were due. */
  ghost predicate Calling(s: List) {
    s.p1 <= |s.es| && forall j :: 0 <= j < s.p1 ==> s.es[j].time <= 0
  }

  predicate SameJob(c: Callo, d: Callo) {
    c.func == d.func && c.arg == d.arg
  }

  lemma {:induction false} WaitNone(es: seq<Callo>, p: nat, k: nat)
    requires p <= k <= |es|
    ensures WaitSum(es, p, k) == 0 <==> forall j :: p <= j < k ==> es[j].time <= 0
  {
    if p < k {
      WaitNone(es, p, k - 1);
    }
  }

  /** A sweep calls every job that has no ticks to wait, and no other. */
  lemma CalledIff(s: List, i: nat)
    requires s.p1 <= i < |s.es|
    ensures Wait(s, i) == 0 <==> forall j :: s.p1 <= j <= i ==> s.es[j].time <= 0
  {
    WaitNone(s.es, s.p1, i + 1);
  }

  lemma {:induction false} WaitSame(es: seq<Callo>, es': seq<Callo>, p: nat, k: nat)
    requires p <= k <= |es| && k <= |es'| && forall j :: p <= j < k ==> es'[j].time == es[j].time
    ensures WaitSum(es', p, k) == WaitSum(es, p, k)
  {
    if p < k {
      WaitSame(es, es', p, k - 1);
    }
  }

  lemma {:induction false} WaitLess(es: seq<Callo>, k: nat, p: nat, i: nat)
    requires p <= k < i <= |es| && es[k].time > 0
    ensures WaitSum(es, p, i) > 0
    ensures WaitSum(es[k := es[k].(time := es[k].time - 1)], p, i) == WaitSum(es, p, i) - 1
  {
    var es' := es[k := es[k].(time := es[k].time - 1)];
    if i == k + 1 {
      WaitSame(es, es', p, k);
    } else {
      WaitLess(es, k, p, i - 1);
    }
  }

  /** A tick brings every job that has ticks to wait one closer. */
  lemma TickBrings(s: List, i: nat)
    requires Calling(s) && s.p1 <= i < |s.es|
    ensures var s' := Passed(s);
      && Calling(s') && s'.p1 == s.p1 && |s'.es| == |s.es| && SameJob(s'.es[i], s.es[i])
      && Wait(s', i) == if Wait(s, i) > 0 then Wait(s, i) - 1 else 0
  {
    var k := FirstLeft(s.es, 0);
    CalledIff(s, i);
    if k <= i {
      assert k >= s.p1;
      WaitLess(s.es, k, s.p1, i + 1);
    } else {
      WaitSame(s.es, Passed(s).es, s.p1, i + 1);
    }
  }

  function Moved(i: nat, k: nat): nat {
    if i < k then i else i + 1
  }

  /** The job asked for is entry `k`, still to be called; so are all the others, each when it was. */
  ghost predicate PutAt(s: List, s': List, c: Callo, k: nat) {
    && s.p1 <= k <= |s.es| && s'.p1 == s.p1 && |s'.es| == |s.es| + 1 && SameJob(s'.es[k], c)
    && forall i: nat :: s.p1 <= i < |s.es| ==>
         SameJob(s'.es[Moved(i, k)], s.es[i]) && Wait(s', Moved(i, k)) == Wait(s, i)
  }

  ghost predicate Honoured(s: List, s': List, c: Callo) {
    exists k: nat :: PutAt(s, s', c, k)
  }

  /** What a caller of timeout could look at. */
  ghost predicate Harmless(es: seq<Callo>, tim: int) {
    tim >= 0 || es == [] || es[0].time <= tim
  }

  /** The search leaves something of the time, but for a negative time at the very front. */
  lemma StopLeaves(es: seq<Callo>, tim: int)
    ensures var k := Stop(es, tim); (k > 0 || tim >= 0) ==> tim - Sum(es, k) >= 0
    ensures Stop(es, tim) == 0 <==> es == [] || es[0].time > tim
  {
    StopFacts(es, tim, 0);
    var k := Stop(es, tim);
    if k > 0 {
      var j: nat := k - 1;
      assert es[j].time <= tim - Sum(es, j);
    }
  }

  lemma {:induction false} SumCalled(es: seq<Callo>, p: nat, j: nat)
    requires j <= p <= |es| && forall i :: 0 <= i < p ==> es[i].time <= 0
    ensures Sum(es, j) <= 0 && (j > 0 ==> Sum(es, j) <= es[0].time)
  {
    if j > 0 {
      SumCalled(es, p, j - 1);
    }
  }

  lemma {:induction false} StopPast(es: seq<Callo>, tim: int, p: nat, i: nat)
    requires i <= p <= |es| && forall j: nat :: i <= j < p ==> es[j].time <= tim - Sum(es, j)
    ensures StopFrom(es, tim, i) >= p
    decreases p - i
  {
    if i < p {
      StopPast(es, tim, p, i + 1);
    }
  }

  /** A harmless time takes the search past all that has been called. */
  lemma PastCalled(s: List, tim: int)
    requires Calling(s) && Harmless(s.es, tim)
    ensures Stop(s.es, tim) >= s.p1
  {
    forall j: nat | j < s.p1 ensures s.es[j].time <= tim - Sum(s.es, j) {
      SumCalled(s.es, s.p1, j);
    }
    StopPast(s.es, tim, s.p1, 0);
  }

  /** The waits after the new entry: its time is taken from the one behind it. */
  lemma {:induction false} WaitAfter(es: seq<Callo>, c: Callo, p: nat, i: nat)
    requires var k := Stop(es, c.time);
      p <= k < i <= |es| && c.time - Sum(es, k) >= 0 && es[k].time > c.time - Sum(es, k)
    ensures |Inserted(es, c)| == |es| + 1 && WaitSum(Inserted(es, c), p, i + 1) == WaitSum(es, p, i)
  {
    hide Stop, Sum, Inserted;
    var k, r := Stop(es, c.time), Inserted(es, c);
    InsertedAt(es, c, i);
    if i == k + 1 {
      InsertedAt(es, c, k);
      forall j: nat | j < k ensures r[j] == es[j] {
        InsertedAt(es, c, j);
      }
      WaitSame(es, r, p, k);
    } else {
      WaitAfter(es, c, p, i - 1);
    }
  }

  /** A harmless timeout. */
  lemma HarmlessPuts(s: List, c: Callo)
    requires Calling(s) && Harmless(s.es, c.time)
    ensures PutAt(s, Asked(s, c), c, Stop(s.es, c.time))
  {
    hide Stop, Sum, Inserted, Wait;
    var k, r := Stop(s.es, c.time), Inserted(s.es, c);
    PastCalled(s, c.time);
    StopLeaves(s.es, c.time);
    InsertedAt(s.es, c, k);
    forall i: nat | s.p1 <= i < |s.es|
      ensures SameJob(r[Moved(i, k)], s.es[i]) && Wait(Asked(s, c), Moved(i, k)) == Wait(s, i)
    {
      HarmlessAt(s, c, i);
    }
  }

  lemma HarmlessAt(s: List, c: Callo, i: nat)
    requires Calling(s) && Harmless(s.es, c.time) && s.p1 <= i < |s.es|
    ensures |Inserted(s.es, c)| == |s.es| + 1
    ensures var j := Moved(i, Stop(s.es, c.time));
      SameJob(Inserted(s.es, c)[j], s.es[i]) && Wait(Asked(s, c), j) == Wait(s, i)
  {
    hide Stop, Sum, Inserted;
    var k, r := Stop(s.es, c.time), Inserted(s.es, c);
    PastCalled(s, c.time);
    StopLeaves(s.es, c.time);
    InsertedAt(s.es, c, Moved(i, k));
    if i < k {
      forall j: nat | j <= i ensures r[j] == s.es[j] {
        InsertedAt(s.es, c, j);
      }
      WaitSame(s.es, r, s.p1, i + 1);
    } else {
      StopTakes(s.es, c.time);
      WaitAfter(s.es, c, s.p1, i + 1);
    }
  }

  lemma StopTakes(es: seq<Callo>, tim: int)
    ensures var k := Stop(es, tim); k < |es| ==> es[k].time > tim - Sum(es, k)
  {
    StopFacts(es, tim, 0);
  }

  /** A function that no entry has. */
  function Unused(es: seq<Callo>): int {
    if es == [] then 1 else if Unused(es[1..]) > es[0].func then Unused(es[1..]) else es[0].func + 1
  }

  lemma {:induction false} UnusedIs(es: seq<Callo>)
    ensures forall j :: 0 <= j < |es| ==> es[j].func < Unused(es)
  {
    if es != [] {
      UnusedIs(es[1..]);
      assert forall j :: 1 <= j < |es| ==> es[j] == es[1..][j - 1];
    }
  }

  /** A time that is not harmless puts the new entry at the very front. */
  lemma HarmfulFront(es: seq<Callo>, c: Callo)
    requires !Harmless(es, c.time)
    ensures Stop(es, c.time) == 0 && Inserted(es, c) == [c, es[0].(time := es[0].time - c.time)] + es[1..]
  {
  }

  /** Out of a sweep all others are late then; in a sweep the new job is not even among those to be called. */
  lemma HarmfulLate(s: List, c: Callo)
    requires Calling(s) && !Harmless(s.es, c.time) && c.func == Unused(s.es)
    ensures !Honoured(s, Asked(s, c), c)
  {
    HarmfulFront(s.es, c);
    UnusedIs(s.es);
    forall k: nat ensures !PutAt(s, Asked(s, c), c, k) {
      if PutAt(s, Asked(s, c), c, k) {
        HarmfulAt(s, c, k);
      }
    }
  }

  lemma HarmfulAt(s: List, c: Callo, k: nat)
    requires !Harmless(s.es, c.time) && forall j :: 0 <= j < |s.es| ==> s.es[j].func < c.func
    requires Inserted(s.es, c) == [c, s.es[0].(time := s.es[0].time - c.time)] + s.es[1..]
    ensures !PutAt(s, Asked(s, c), c, k)
  {
    hide Inserted;
    var r := Inserted(s.es, c);
    if s.p1 <= k < |r| && SameJob(r[k], c) {
      assert k == 0;
      var s' := Asked(s, c);
      assert s'.es[Moved(0, k)] == r[1];
      assert WaitSum(r, 0, 0) == 0 && WaitSum(r, 0, 1) == 0 && WaitSum(r, 0, 2) == s.es[0].time - c.time;
      assert WaitSum(s.es, 0, 0) == 0 && WaitSum(s.es, 0, 1) == Pos(s.es[0].time);
      assert Wait(s', Moved(0, k)) != Wait(s, 0);
    }
  }

  /**
   In a sweep or out of it, whatever negative times there may be: a timeout puts its job among those to
   be called and leaves every other to be called when it was, if and only if its time is not negative,
   or the list is empty, or its first entry is due even sooner.
   */
  lemma TimeoutHonoured(s: List, tim: int)
    requires Calling(s)
    ensures (forall fun: int, arg: int {:trigger Callo(tim, fun, arg)} ::
               Honoured(s, Asked(s, Callo(tim, fun, arg)), Callo(tim, fun, arg)))
      <==> Harmless(s.es, tim)
  {
    hide Calling, Honoured, Harmless, Asked, PutAt;
    if Harmless(s.es, tim) {
      forall fun: int, arg: int ensures Honoured(s, Asked(s, Callo(tim, fun, arg)), Callo(tim, fun, arg)) {
        HarmlessPuts(s, Callo(tim, fun, arg));
        HonouredBy(s, Callo(tim, fun, arg));
      }
    } else {
      HarmfulLate(s, Callo(tim, Unused(s.es), 0));
    }
  }

  lemma HonouredBy(s: List, c: Callo)
    requires PutAt(s, Asked(s, c), c, Stop(s.es, c.time))
    ensures Honoured(s, Asked(s, c), c)
  {
  }

  function NegSum(es: seq<Callo>, k: nat): nat
    requires k <= |es|
  {
    if k == 0 then 0 else NegSum(es, k - 1) + Neg(es[k - 1].time)
  }

  lemma {:induction false} WaitIsSum(s: List, k: nat)
    requires Calling(s) && k <= |s.es|
    ensures k >= s.p1 ==> WaitSum(s.es, s.p1, k) == Sum(s.es, k) + NegSum(s.es, k)
    ensures k < s.p1 ==> Sum(s.es, k) + NegSum(s.es, k) == 0
  {
    if k > 0 {
      WaitIsSum(s, k - 1);
    }
  }

  lemma {:induction false} NegNone(es: seq<Callo>, k: nat)
    requires k <= |es|
    ensures NegSum(es, k) == 0 <==> forall j :: 0 <= j < k ==> es[j].time >= 0
  {
    if k > 0 {
      NegNone(es, k - 1);
    }
  }

  /**
   How late the new job itself is: by what the negative entries before it, called or not, fall short of
   zero, less its own.  So a timeout of a time not negative is kept to the tick if and only if it goes
   behind no negative entry.
   */
  lemma NewOnTime(s: List, c: Callo)
    requires Calling(s) && Harmless(s.es, c.time)
    ensures var k := Stop(s.es, c.time);
      && s.p1 <= k <= |s.es| && |Inserted(s.es, c)| == |s.es| + 1
      && Wait(Asked(s, c), k) == Pos(c.time) + NegSum(s.es, k) - (if k == 0 then 0 else Neg(c.time))
      && (c.time >= 0 ==>
            (Wait(Asked(s, c), k) == c.time <==> forall j :: 0 <= j < k ==> s.es[j].time >= 0))
  {
    hide Stop, Sum, Inserted, Harmless;
    var k, r := Stop(s.es, c.time), Inserted(s.es, c);
    PastCalled(s, c.time);
    StopLeaves(s.es, c.time);
    InsertedAt(s.es, c, k);
    forall j: nat | j < k ensures r[j] == s.es[j] {
      InsertedAt(s.es, c, j);
    }
    WaitSame(s.es, r, s.p1, k);
    WaitIsSum(s, k);
    NegNone(s.es, k);
    NothingYet(s.es);
  }

  lemma NothingYet(es: seq<Callo>)
    ensures Sum(es, 0) == 0 && NegSum(es, 0) == 0
  {
  }

  /** As long as every time was harmless, what a sweep has passed was due; so the two lemmas apply again. */
  lemma CallingKept(s: List, c: Callo)
    requires Calling(s)
    ensures Harmless(s.es, c.time) ==> Calling(Asked(s, c))
    ensures Due(s) ==> Calling(Called(s))
    ensures Calling(Passed(s)) && Calling(Compacted(s))
  {
    if Harmless(s.es, c.time) {
      PastCalled(s, c.time);
      CalledStay(s, c);
    }
  }

  lemma CalledStay(s: List, c: Callo)
    requires Calling(s) && Stop(s.es, c.time) >= s.p1
    ensures Calling(Asked(s, c))
  {
    hide Stop, Sum, Inserted;
    InsertedAt(s.es, c, 0);
    forall j: nat | j < s.p1 ensures Inserted(s.es, c)[j] == s.es[j] {
      InsertedAt(s.es, c, j);
    }
  }

  /** Where the list spells a queue the condition is that the time is not negative, or the list empty. */
  lemma SpellsHonoured(s: List, q: seq<Job>, log: seq<Job>, now: int, tim: int)
    requires Spells(s, q, log, now)
    ensures Calling(s) && (forall j :: 0 <= j < |s.es| ==> s.es[j].time >= 0)
    ensures Harmless(s.es, tim) <==> tim >= 0 || s.es == []
  {
    hide InOrder, Sorted;
    forall j: nat | j < |s.es| ensures s.es[j].time >= 0 && (j < s.p1 ==> s.es[j].time <= 0) {
      if j >= s.p1 { DeltaRises(q, log, now, j - s.p1); }
    }
  }

  lemma DeltaRises(q: seq<Job>, log: seq<Job>, now: int, i: nat)
    requires Sorted(q) && i < |q|
    ensures Delta(q, now, i) >= 0
  {
  }

  // ------------------------------------------------------------ two sweeps that go wrong

  /** A function that is called, and each time asks to be called again in -60 ticks. */
  function Round(s: List): List {
    if Due(s) then Asked(Called(s), s.es[s.p1].(time := -60)) else s
  }

  function Rounds(s: List, n: nat): List {
    if n == 0 then s else Round(Rounds(s, n - 1))
  }

  /** Function 7, about to be called, is the second in the list. */
  function SecondInLine(): List {
    List([Callo(0, 3, 0), Callo(0, 7, 0), Callo(5, 9, 0)], 1)
  }

  function Zeros(n: nat): (r: seq<Callo>)
    ensures |r| == n && forall i :: 0 <= i < n ==> r[i] == Callo(0, 7, 0)
  {
    seq(n, _ => Callo(0, 7, 0))
  }

  /** The list after `n` rounds, more than none. */
  function Stack(n: nat): List
    requires n > 0
  {
    List([Callo(-60, 7, 0)] + Zeros(n - 1) + [Callo(60, 3, 0), Callo(0, 7, 0), Callo(5, 9, 0)], n + 1)
  }

  /** The sweep never comes to an end: the same entry is called again and again, and the list grows each
      time, until the table is full. */
  lemma {:induction false} SweepRunsAway(n: nat)
    ensures var s := Rounds(SecondInLine(), n);
      Due(s) && SameJob(s.es[s.p1], Callo(0, 7, 0)) && |s.es| == 3 + n && s.p1 == 1 + n
    ensures n > 0 ==> Rounds(SecondInLine(), n) == Stack(n)
  {
    if n > 0 {
      SweepRunsAway(n - 1);
      if n == 1 {
        FirstRound();
      } else {
        NextRound(n - 1);
      }
    }
  }

  lemma FirstRound()
    ensures Round(SecondInLine()) == Stack(1)
  {
    var es := SecondInLine().es;
    HarmfulFront(es, Callo(-60, 7, 0));
    assert Inserted(es, Callo(-60, 7, 0)) == Stack(1).es;
  }

  lemma NextRound(n: nat)
    requires n > 0
    ensures Round(Stack(n)) == Stack(n + 1)
  {
    hide Stop, Sum, Inserted;
    var es, c := Stack(n).es, Callo(-60, 7, 0);
    forall j: nat | 0 < j <= n ensures Sum(es, j) == -60 {
      SumStack(n, j);
    }
    NothingYet(es);
    StopStack(es, n);
    InsertedAt(es, c, 0);
    forall j: nat | j <= |es| ensures Inserted(es, c)[j] == Stack(n + 1).es[j] {
      InsertedAt(es, c, j);
    }
    assert Inserted(es, c) == Stack(n + 1).es;
  }

  lemma {:induction false} SumStack(n: nat, j: nat)
    requires 0 < j <= n
    ensures Sum(Stack(n).es, j) == -60
  {
    if j > 1 {
      SumStack(n, j - 1);
    } else {
      NothingYet(Stack(n).es);
    }
  }

  lemma StopStack(es: seq<Callo>, n: nat)
    requires n < |es| && es[0].time == -60 && (forall j :: 0 < j < n ==> es[j].time == 0) && es[n].time == 60 && n > 0
    requires Sum(es, 0) == 0 && forall j: nat :: 0 < j <= n ==> Sum(es, j) == -60
    ensures Stop(es, -60) == n
  {
    StopIs(es, -60, 0, n);
  }

  /** First in the list, it is not called again at once; but what is compacted away is the new entry, and
      the old one stays, with all behind it, 60 ticks late. */
  lemma NewEntryDropped()
    ensures var s := List([Callo(0, 7, 0), Callo(5, 9, 0)], 0);
      var s' := Round(s);
      && Due(s) && !Due(s') && s'.p1 <= |s'.es|
      && Compacted(s').es == [Callo(60, 7, 0), Callo(5, 9, 0)] && Compacted(s').p1 == 0
      && Wait(s, 1) == 5 && Wait(Compacted(s'), 1) == 65
  {
    var s := List([Callo(0, 7, 0), Callo(5, 9, 0)], 0);
    HarmfulFront(s.es, Callo(-60, 7, 0));
    var r := [Callo(60, 7, 0), Callo(5, 9, 0)];
    assert Inserted(s.es, Callo(-60, 7, 0)) == [Callo(-60, 7, 0)] + r;
    assert ([Callo(-60, 7, 0)] + r)[1..] == r;
    assert WaitSum(s.es, 0, 0) == 0 && WaitSum(s.es, 0, 1) == 0 && WaitSum(s.es, 0, 2) == 5;
    assert WaitSum(r, 0, 0) == 0 && WaitSum(r, 0, 1) == 60 && WaitSum(r, 0, 2) == 65;
  }
}
