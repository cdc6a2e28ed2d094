/**
 The disk queue of dmr/rp.c: requests are chained through av_forw from d_actf, and a new one goes
 into the first gap whose cylinders it lies between.
 */
module Elevator {

  type Node = nat // a buffer header; 0 ends the chain

  predicate Fits(a: int, x: int, b: int) {
    (a <= x && x < b) || (a >= x && x > b)
  }

  /** The first gap that takes cylinder `x`, or the end. */
  function Gap(c: seq<int>, x: int): (k: nat)
    requires c != []
    ensures k < |c| && (k + 1 < |c| ==> Fits(c[k], x, c[k + 1])) && forall i :: 0 <= i < k ==> !Fits(c[i], x, c[i + 1])
  {
    if |c| == 1 || Fits(c[0], x, c[1]) then 0 else 1 + Gap(c[1..], x)
  }

  function Placed(c: seq<int>, x: int): seq<int> {
    if c == [] then [x] else c[..Gap(c, x) + 1] + [x] + c[Gap(c, x) + 1..]
  }

  /** Cylinder `k` is as far out, one way or the other, as any before it. */
  ghost predicate Extreme(c: seq<int>, k: nat)
    requires k < |c|
  {
    (forall i :: 0 <= i < k ==> c[i] <= c[k]) || (forall i :: 0 <= i < k ==> c[i] >= c[k])
  }

  /** The arm may turn round at `k`. */
  ghost predicate Turn(c: seq<int>, k: nat)
    requires 0 < k < |c| - 1
  {
    (c[k - 1] <= c[k] && c[k] > c[k + 1]) || (c[k - 1] >= c[k] && c[k] < c[k + 1])
  }

  /** The arm turns round, and comes to rest, only where it has gone as far as anything before asked. */
  ghost predicate Sweeps(c: seq<int>) {
    && (c != [] ==> Extreme(c, |c| - 1))
    && forall k :: 0 < k < |c| - 1 && Turn(c, k) ==> Extreme(c, k)
  }

  /** What no gap up to `k` takes lies beyond everything up to `k`. */
  lemma {:induction false} NoGap(c: seq<int>, x: int, k: nat)
    requires k < |c| && forall i :: 0 <= i < k ==> !Fits(c[i], x, c[i + 1])
    ensures (forall i :: 0 <= i <= k ==> c[i] <= x) || (forall i :: 0 <= i <= k ==> c[i] >= x)
  {
    if k > 0 {
      NoGap(c, x, k - 1);
      assert !Fits(c[k - 1], x, c[k]);
    }
  }

  lemma GapFacts(c: seq<int>, x: int)
    requires c != []
    ensures Gap(c, x) < |c| && (Gap(c, x) + 1 < |c| ==> Fits(c[Gap(c, x)], x, c[Gap(c, x) + 1]))
    ensures forall i :: 0 <= i < Gap(c, x) ==> !Fits(c[i], x, c[i + 1])
  {
  }

  /** Placing a request keeps the order of the rest, the first in front, and the sweeps. */
  lemma {:induction false} PlacedSweeps(c: seq<int>, x: int)
    requires Sweeps(c)
    ensures Sweeps(Placed(c, x))
  {
    if c != [] {
      var g, r := Gap(c, x) + 1, Placed(c, x);
      NoGap(c, x, g - 1);
      forall k | 0 < k < |r| - 1 && Turn(r, k) ensures Extreme(r, k) {
        PlacedTurn(c, x, k);
      }
      PlacedLast(c, x);
    }
  }

  lemma PlacedLast(c: seq<int>, x: int)
    requires Sweeps(c) && c != []
    ensures Extreme(Placed(c, x), |c|)
  {
    hide Gap, Extreme, Turn;
    GapFacts(c, x);
    PlacedExtreme(c, x, |c|);
  }

  /** An entry after the new one that was extreme still is: the new one lies between two before it. */
  lemma PlacedExtreme(c: seq<int>, x: int, k: nat)
    requires c != [] && (k == Gap(c, x) + 1 || (Gap(c, x) + 1 < k <= |c| && Extreme(c, k - 1)))
    ensures k <= |c| && Extreme(Placed(c, x), k)
  {
    hide Gap;
    GapFacts(c, x);
    var g, r := Gap(c, x) + 1, Placed(c, x);
    if k == g {
      NoGap(c, x, g - 1);
    } else {
      assert Fits(c[g - 1], x, c[g]);
      assert r[k] == c[k - 1];
      if forall i :: 0 <= i < k - 1 ==> c[i] <= c[k - 1] {
        forall i | 0 <= i < k ensures r[i] <= r[k] {
          assert r[i] == if i < g then c[i] else if i == g then x else c[i - 1];
        }
      } else {
        forall i | 0 <= i < k ensures r[i] >= r[k] {
          assert r[i] == if i < g then c[i] else if i == g then x else c[i - 1];
        }
      }
    }
  }

  lemma PlacedTurn(c: seq<int>, x: int, k: nat)
    requires Sweeps(c) && c != [] && 0 < k < |c| && Turn(Placed(c, x), k)
    ensures Extreme(Placed(c, x), k)
  {
    var g, r := Gap(c, x) + 1, Placed(c, x);
    assert r[k - 1] == (if k - 1 < g then c[k - 1] else if k - 1 == g then x else c[k - 2]);
    assert r[k] == (if k < g then c[k] else if k == g then x else c[k - 1]);
    assert r[k + 1] == (if k + 1 < g then c[k + 1] else if k + 1 == g then x else c[k]);
    if k < g {
      assert k < |c| - 1 ==> Turn(c, k);
      assert Extreme(c, k);
      assert forall i :: 0 <= i <= k ==> r[i] == c[i];
    } else if k == g {
      PlacedExtreme(c, x, k);
    } else {
      assert Turn(c, k - 1);
      PlacedExtreme(c, x, k);
    }
  }

  /** When the first request is done the rest still sweeps. */
  lemma RestSweeps(c: seq<int>)
    requires Sweeps(c) && c != []
    ensures Sweeps(c[1..])
  {
    var r := c[1..];
    forall k | 0 < k < |r| - 1 && Turn(r, k) ensures Extreme(r, k) {
      assert Turn(c, k + 1) && Extreme(c, k + 1);
    }
    if r != [] {
      assert Extreme(c, |c| - 1);
    }
  }

  /** No gap before request `j` takes it. */
  ghost predicate InPlace(c: seq<int>, j: nat)
    requires j < |c|
  {
    forall i :: 0 <= i < j ==> !Fits(c[i], c[j], c[i + 1])
  }

  ghost predicate Settled(c: seq<int>) {
    forall j :: 0 <= j < |c| ==> InPlace(c, j)
  }

  /** Placing a request makes no gap that would take one behind it: each stays where it was settled. */
  lemma PlacedSettled(c: seq<int>, x: int)
    requires Settled(c)
    ensures Settled(Placed(c, x))
  {
    if c != [] {
      forall j | 0 <= j < |Placed(c, x)| ensures InPlace(Placed(c, x), j) {
        PlacedInPlace(c, x, j);
      }
    }
  }

  lemma PlacedInPlace(c: seq<int>, x: int, j: nat)
    requires Settled(c) && c != [] && j < |Placed(c, x)|
    ensures InPlace(Placed(c, x), j)
  {
    hide Gap;
    GapFacts(c, x);
    var g, r := Gap(c, x) + 1, Placed(c, x);
    assert forall i :: 0 <= i < |r| ==> r[i] == if i < g then c[i] else if i == g then x else c[i - 1];
    if j < g {
      assert InPlace(c, j);
    } else if j > g {
      assert InPlace(c, j - 1);
      assert !Fits(c[g - 1], c[j - 1], c[g]);
      forall i | 0 <= i < j ensures !Fits(r[i], r[j], r[i + 1]) {
        if i < g - 1 {
          assert !Fits(c[i], c[j - 1], c[i + 1]);
        } else if i > g {
          assert !Fits(c[i - 1], c[j - 1], c[i]);
        }
      }
    }
  }

  lemma RestSettled(c: seq<int>)
    requires Settled(c) && c != []
    ensures Settled(c[1..])
  {
    forall j | 0 <= j < |c[1..]| ensures InPlace(c[1..], j) {
      assert InPlace(c, j + 1);
    }
  }

  /** Requests for one cylinder are served in the order they were asked for: the new one is behind them all. */
  lemma PlacedBehindEqual(c: seq<int>, x: int)
    requires Settled(c) && c != []
    ensures Gap(c, x) + 1 <= |c| && x !in c[Gap(c, x) + 1..]
  {
    hide Gap;
    GapFacts(c, x);
    var g := Gap(c, x) + 1;
    forall j | g <= j < |c| ensures c[j] != x {
      assert InPlace(c, j);
      assert !Fits(c[g - 1], c[j], c[g]);
    }
  }

  lemma PlacedSame(c: seq<int>, x: int)
    ensures multiset(Placed(c, x)) == multiset(c) + multiset{x}
    ensures c != [] ==> Placed(c, x)[0] == c[0]
  {
    if c != [] {
      assert c == c[..Gap(c, x) + 1] + c[Gap(c, x) + 1..];
    }
  }

  function Cyls(q: seq<Node>, cylin: map<Node, int>): (c: seq<int>)
    ensures |c| == |q| && forall i :: 0 <= i < |q| ==> c[i] == if q[i] in cylin then cylin[q[i]] else 0
  {
    seq(|q|, i requires 0 <= i < |q| => if q[i] in cylin then cylin[q[i]] else 0)
  }

  ghost predicate NextIs(forw: map<Node, Node>, cylin: map<Node, int>, q: seq<Node>, i: nat)
    requires i < |q|
  {
    && q[i] != 0 && q[i] in cylin && q[i] in forw
    && forw[q[i]] == if i + 1 < |q| then q[i + 1] else 0
  }

  /** The chain from `actf` is `q`. */
  ghost predicate Chained(actf: Node, forw: map<Node, Node>, cylin: map<Node, int>, q: seq<Node>) {
    && (forall i :: 0 <= i < |q| ==> NextIs(forw, cylin, q, i))
    && (forall i, j :: 0 <= i < j < |q| ==> q[i] != q[j])
    && actf == if q == [] then 0 else q[0]
  }

  lemma ChainInsert(actf: Node, forw: map<Node, Node>, cylin: map<Node, int>, q: seq<Node>, i: nat, bp: Node, cyl: int)
    requires Chained(actf, forw, cylin, q) && bp != 0 && bp !in q && i < |q| && q[i] in forw
    ensures Chained(actf, forw[bp := forw[q[i]]][q[i] := bp], cylin[bp := cyl], q[..i + 1] + [bp] + q[i + 1..])
  {
    hide Cyls;
    var r, f, cs := q[..i + 1] + [bp] + q[i + 1..], forw[bp := forw[q[i]]][q[i] := bp], cylin[bp := cyl];
    assert NextIs(forw, cylin, q, i);
    forall a, b | 0 <= a < b < |r| ensures r[a] != r[b] {
      assert r[a] == if a <= i then q[a] else if a == i + 1 then bp else q[a - 1];
      assert r[b] == if b <= i then q[b] else if b == i + 1 then bp else q[b - 1];
    }
    assert forall a :: 0 <= a < |r| ==> r[a] == if a <= i then q[a] else if a == i + 1 then bp else q[a - 1];
    forall a | 0 <= a < |r| ensures NextIs(f, cs, r, a) {
      if a <= i {
        assert NextIs(forw, cylin, q, a);
      } else if a > i + 1 {
        assert NextIs(forw, cylin, q, a - 1) && q[a - 1] != q[i];
      }
    }
  }

  lemma CylsInsert(cylin: map<Node, int>, q: seq<Node>, i: nat, bp: Node, cyl: int)
    requires i < |q| && bp !in q
    ensures Cyls(q[..i + 1] + [bp] + q[i + 1..], cylin[bp := cyl])
         == Cyls(q, cylin)[..i + 1] + [cyl] + Cyls(q, cylin)[i + 1..]
  {
    var r, cs := q[..i + 1] + [bp] + q[i + 1..], cylin[bp := cyl];
    var x, y := Cyls(r, cs), Cyls(q, cylin)[..i + 1] + [cyl] + Cyls(q, cylin)[i + 1..];
    forall a | 0 <= a < |r| ensures x[a] == y[a] {
      assert r[a] == if a <= i then q[a] else if a == i + 1 then bp else q[a - 1];
      assert a != i + 1 ==> r[a] in q;
    }
  }

  class Disk {
    var actf: Node          // d_actf
    var forw: map<Node, Node>
    var cylin: map<Node, int>
    ghost var queue: seq<Node>

    ghost predicate Valid()
      reads this
    {
      Chained(actf, forw, cylin, queue) && Sweeps(Cyls(queue, cylin)) && Settled(Cyls(queue, cylin))
    }

    constructor ()
      ensures Valid() && queue == []
    {
      actf, forw, cylin, queue := 0, map[], map[], [];
    }

    /** rpstrategy: buffer `bp`, for cylinder `cyl`, joins the queue. */
    method Strategy(bp: Node, cyl: int)
      requires Valid() && bp != 0 && bp !in queue
      modifies this
      ensures Valid() && Cyls(queue, cylin) == Placed(old(Cyls(queue, cylin)), cyl)
      ensures queue == Behind(old(queue), bp, Gap0(old(Cyls(queue, cylin)), cyl))
      ensures multiset(queue) == multiset(old(queue)) + multiset{bp} && (old(queue) != [] ==> queue[0] == old(queue)[0])
      ensures multiset(Cyls(queue, cylin)) == multiset(old(Cyls(queue, cylin))) + multiset{cyl}
      ensures LastFor(queue, Cyls(queue, cylin), bp, cyl)
    {
      hide Gap, Placed, Sweeps, Settled, Chained, LastFor;
      ghost var q, c := queue, Cyls(queue, cylin);
      PlacedSweeps(c, cyl);
      PlacedSettled(c, cyl);
      PlacedSame(c, cyl);
      ChainEnds(actf, forw, cylin, q);
      if actf == 0 {
        forw, cylin := forw[bp := 0], cylin[bp := cyl];
        actf := bp;
        queue := [bp];
        PlacedNone(cyl);
        ChainOne(actf, forw, cylin, bp);
        assert c == [] && Cyls(queue, cylin) == [cyl];
        OnlyFor(bp, cyl);
        return;
      }
      var p1 := Find(cyl);
      ghost var i := Gap(c, cyl);
      PlacedBehindEqual(c, cyl);
      ChainInsert(actf, forw, cylin, q, i, bp, cyl);
      CylsInsert(cylin, q, i, bp, cyl);
      PlacedAt(c, cyl, i);
      cylin := cylin[bp := cyl];
      forw := forw[bp := forw[p1]];
      forw := forw[p1 := bp];
      queue := q[..i + 1] + [bp] + q[i + 1..];
      BehindSame(q, bp, i + 1);
      BehindOthers(q, c, bp, cyl, i + 1);
    }

    /** rpstrategy's search: the request the new one goes behind. */
    method Find(cyl: int) returns (p1: Node)
      requires Chained(actf, forw, cylin, queue) && queue != []
      ensures Gap(Cyls(queue, cylin), cyl) < |queue| && p1 == queue[Gap(Cyls(queue, cylin), cyl)] && p1 in forw
    {
      hide Gap;
      ghost var c := Cyls(queue, cylin);
      p1 := actf;
      ghost var i := 0;
      GapFrom(c, cyl, 0);
      assert NextIs(forw, cylin, queue, 0) && (1 < |queue| ==> NextIs(forw, cylin, queue, 1));
      var p2 := forw[p1];
      while p2 != 0 && !Fits(cylin[p1], cyl, cylin[p2])
        invariant 0 <= i < |queue| && p1 == queue[i] && p2 == (if i + 1 < |queue| then queue[i + 1] else 0)
        invariant NextIs(forw, cylin, queue, i) && (i + 1 < |queue| ==> NextIs(forw, cylin, queue, i + 1))
        invariant Gap(c, cyl) == i + Gap(c[i..], cyl)
        decreases |queue| - i
      {
        GapFrom(c, cyl, i);
        p1 := p2;
        i := i + 1;
        p2 := forw[p1];
        if i + 1 < |queue| { assert NextIs(forw, cylin, queue, i + 1); }
      }
      GapFrom(c, cyl, i);
    }

    /** rpintr, with no error: the first request is done. */
    method Done() returns (bp: Node)
      requires Valid() && queue != []
      modifies this`actf, this`queue
      ensures Valid() && old(queue) == [bp] + queue && Cyls(queue, cylin) == Cyls(old(queue), cylin)[1..]
    {
      hide Sweeps, Settled, Chained;
      RestSweeps(Cyls(queue, cylin));
      RestSettled(Cyls(queue, cylin));
      ChainRest(actf, forw, cylin, queue);
      bp := actf;
      actf := forw[bp];
      assert Cyls(queue[1..], cylin) == Cyls(queue, cylin)[1..];
      queue := queue[1..];
    }
  }

  lemma ChainRest(actf: Node, forw: map<Node, Node>, cylin: map<Node, int>, q: seq<Node>)
    requires Chained(actf, forw, cylin, q) && q != []
    ensures actf in forw && q == [actf] + q[1..] && Chained(forw[actf], forw, cylin, q[1..])
  {
    assert NextIs(forw, cylin, q, 0);
    forall i | 0 <= i < |q[1..]| ensures NextIs(forw, cylin, q[1..], i) {
      assert NextIs(forw, cylin, q, i + 1);
    }
  }

  function Gap0(c: seq<int>, x: int): nat {
    if c == [] then 0 else Gap(c, x) + 1
  }

  function Behind(q: seq<Node>, bp: Node, k: nat): seq<Node> {
    if k <= |q| then q[..k] + [bp] + q[k..] else q
  }

  lemma ChainEnds(actf: Node, forw: map<Node, Node>, cylin: map<Node, int>, q: seq<Node>)
    requires Chained(actf, forw, cylin, q)
    ensures actf == 0 <==> q == []
  {
    if q != [] {
      assert NextIs(forw, cylin, q, 0);
    }
  }

  lemma ChainOne(actf: Node, forw: map<Node, Node>, cylin: map<Node, int>, bp: Node)
    requires actf == bp && bp != 0 && bp in forw && forw[bp] == 0 && bp in cylin
    ensures Chained(actf, forw, cylin, [bp])
  {
    assert NextIs(forw, cylin, [bp], 0);
  }

  lemma GapFrom(c: seq<int>, x: int, i: nat)
    requires i < |c|
    ensures Gap(c[i..], x) == if i + 1 == |c| || Fits(c[i], x, c[i + 1]) then 0 else 1 + Gap(c[i + 1..], x)
    ensures c[0..] == c
  {
    if i + 1 < |c| {
      assert c[i..][1..] == c[i + 1..] && c[i..][1] == c[i + 1];
    }
  }

  lemma PlacedNone(x: int)
    ensures Placed([], x) == [x]
  {
  }

  lemma BehindSame(q: seq<Node>, bp: Node, k: nat)
    requires 0 < k <= |q|
    ensures var r := q[..k] + [bp] + q[k..]; multiset(r) == multiset(q) + multiset{bp} && r[0] == q[0]
  {
    assert q == q[..k] + q[k..];
  }

  /** Of the requests `q` for cylinders `c` the last for `cyl` is `bp`. */
  ghost predicate LastFor(q: seq<Node>, c: seq<int>, bp: Node, cyl: int) {
    |q| == |c| && exists k :: 0 <= k < |q| && q[k] == bp && c[k] == cyl && forall i :: k < i < |c| ==> c[i] != cyl
  }

  lemma OnlyFor(bp: Node, cyl: int)
    ensures LastFor([bp], [cyl], bp, cyl)
  {
    assert [bp][0] == bp && [cyl][0] == cyl;
  }

  lemma BehindOthers(q: seq<Node>, c: seq<int>, bp: Node, x: int, k: nat)
    requires k <= |c| == |q| && x !in c[k..]
    ensures LastFor(q[..k] + [bp] + q[k..], c[..k] + [x] + c[k..], bp, x)
  {
    var r, d := q[..k] + [bp] + q[k..], c[..k] + [x] + c[k..];
    forall i | k < i < |d| ensures d[i] != x {
      assert d[i] == c[k..][i - k - 1];
    }
    assert r[k] == bp && d[k] == x;
  }

  lemma PlacedAt(c: seq<int>, x: int, i: nat)
    requires c != [] && i == Gap(c, x)
    ensures i < |c| && Placed(c, x) == c[..i + 1] + [x] + c[i + 1..]
  {
  }
}
