/**
 The resource maps of ken/malloc.c: coremap and swapmap, arrays of (size, address) pairs ended by a
 zero size.
 */
module ResourceMap {

  datatype Entry = Entry(size: int, addr: int)

  /** Sorted, with a gap after every entry, and no entry empty; address 0 is never free (it would
      read as failure). */
  ghost predicate Proper(e: seq<Entry>) {
    && (forall i :: 0 <= i < |e| ==> e[i].size > 0 && e[i].addr > 0)
    && forall i, j :: 0 <= i < j < |e| ==> e[i].addr + e[i].size < e[j].addr
  }

  ghost predicate In(e: seq<Entry>, u: int) {
    exists i :: 0 <= i < |e| && e[i].addr <= u < e[i].addr + e[i].size
  }

  ghost predicate Has(x: Entry, u: int) {
    x.addr <= u < x.addr + x.size
  }

  /** None of the `size` units from `a` on is free. */
  ghost predicate NoneFree(e: seq<Entry>, a: int, size: int) {
    forall u :: a <= u < a + size ==> !In(e, u)
  }

  // ------------------------------------------------------------ what malloc and mfree come to

  /** First fit. */
  function Fit(e: seq<Entry>, size: int): (k: nat)
    ensures k <= |e| && (k < |e| ==> e[k].size >= size) && forall i :: 0 <= i < k ==> e[i].size < size
  {
    if e == [] || e[0].size >= size then 0 else 1 + Fit(e[1..], size)
  }

  /** What malloc answers: the address of the first entry that is big enough, or 0 if there is none. */
  ghost predicate FirstFit(e: seq<Entry>, size: int, a: int) {
    if a == 0 then forall i :: 0 <= i < |e| ==> e[i].size < size
    else exists k :: 0 <= k < |e| && e[k].addr == a && e[k].size >= size && forall i :: 0 <= i < k ==> e[i].size < size
  }

  function Taken(e: seq<Entry>, size: int): seq<Entry> {
    var k := Fit(e, size);
    if k == |e| then e
    else e[..k] + (if e[k].size == size then [] else [Entry(e[k].size - size, e[k].addr + size)]) + e[k + 1..]
  }

  /** How many entries start at or before `a`. */
  function Before(e: seq<Entry>, a: int): (k: nat)
    ensures k <= |e| && (k < |e| ==> e[k].addr > a) && forall i :: 0 <= i < k ==> e[i].addr <= a
  {
    if e == [] || e[0].addr > a then 0 else 1 + Before(e[1..], a)
  }

  predicate Left(e: seq<Entry>, a: int) {
    var k := Before(e, a);
    k > 0 && e[k - 1].addr + e[k - 1].size == a
  }

  predicate Right(e: seq<Entry>, size: int, a: int) {
    var k := Before(e, a);
    k < |e| && a + size == e[k].addr
  }

  /** The freed interval with the entries it touches. */
  function Merged(e: seq<Entry>, size: int, a: int): seq<Entry> {
    var k := Before(e, a);
    var more := if Right(e, size, a) then e[k].size else 0;
    if Left(e, a) then [Entry(e[k - 1].size + size + more, e[k - 1].addr)]
    else if size + more != 0 then [Entry(size + more, a)]
    else []
  }

  function Given(e: seq<Entry>, size: int, a: int): seq<Entry> {
    var k := Before(e, a);
    e[..if Left(e, a) then k - 1 else k] + Merged(e, size, a) + e[if Right(e, size, a) then k + 1 else k..]
  }

  lemma InSum(a: seq<Entry>, b: seq<Entry>, u: int)
    ensures In(a + b, u) <==> In(a, u) || In(b, u)
  {
    var s := a + b;
    if In(a, u) {
      var i :| 0 <= i < |a| && a[i].addr <= u < a[i].addr + a[i].size;
      assert s[i] == a[i];
    }
    if In(b, u) {
      var i :| 0 <= i < |b| && b[i].addr <= u < b[i].addr + b[i].size;
      assert s[|a| + i] == b[i];
    }
    if In(s, u) {
      var i :| 0 <= i < |s| && s[i].addr <= u < s[i].addr + s[i].size;
      if i < |a| {
        assert a[i] == s[i];
      } else {
        assert b[i - |a|] == s[i];
      }
    }
  }

  lemma InOne(x: Entry, u: int)
    ensures In([x], u) <==> x.addr <= u < x.addr + x.size
  {
    assert [x][0] == x;
  }

  lemma InFew(s: seq<Entry>, u: int)
    requires |s| <= 1
    ensures In(s, u) <==> |s| == 1 && s[0].addr <= u < s[0].addr + s[0].size
  {
  }

  lemma InThree(a: seq<Entry>, m: seq<Entry>, b: seq<Entry>, u: int)
    ensures In(a + m + b, u) <==> In(a, u) || In(m, u) || In(b, u)
  {
    hide In;
    InSum(a + m, b, u);
    InSum(a, m, u);
  }

  lemma ProperSum(a: seq<Entry>, b: seq<Entry>)
    requires Proper(a) && Proper(b)
    requires a != [] && b != [] ==> a[|a| - 1].addr + a[|a| - 1].size < b[0].addr
    ensures Proper(a + b)
  {
    var s := a + b;
    forall i, j | 0 <= i < j < |s| ensures s[i].addr + s[i].size < s[j].addr {
      if i < |a| && j >= |a| {
        assert a[i].addr + a[i].size <= a[|a| - 1].addr + a[|a| - 1].size && b[0].addr <= b[j - |a|].addr;
      }
    }
  }

  lemma ProperSlice(e: seq<Entry>, i: nat, j: nat)
    requires Proper(e) && i <= j <= |e|
    ensures Proper(e[i..j])
  {
  }

  /** malloc takes `size` units that were free, and only them, or fails when no entry is big enough. */
  lemma TakenExact(e: seq<Entry>, size: int, u: int)
    requires Proper(e) && size >= 0 && Fit(e, size) < |e|
    ensures var x := e[Fit(e, size)];
      In(Taken(e, size), u) <==> In(e, u) && !(x.addr <= u < x.addr + size)
    ensures e[Fit(e, size)].addr <= u < e[Fit(e, size)].addr + size ==> In(e, u)
    ensures e[Fit(e, size)].addr > 0
  {
    hide In, Proper, Fit;
    Order(e, Fit(e, size));
    var k := Fit(e, size);
    assert e == e[..k] + [e[k]] + e[k + 1..];
    OutsideEntry(e, k, u);
    CutExact(e[..k], e[k], e[k + 1..], size, u);
  }

  lemma CutExact(a: seq<Entry>, x: Entry, b: seq<Entry>, size: int, u: int)
    requires 0 <= size <= x.size && (x.addr <= u < x.addr + x.size ==> !In(a, u) && !In(b, u))
    ensures var mid := if x.size == size then [] else [Entry(x.size - size, x.addr + size)];
      In(a + mid + b, u) <==> In(a + [x] + b, u) && !(x.addr <= u < x.addr + size)
    ensures x.addr <= u < x.addr + size ==> In(a + [x] + b, u)
  {
    hide In;
    var mid := if x.size == size then [] else [Entry(x.size - size, x.addr + size)];
    InThree(a, [x], b, u);
    InThree(a, mid, b, u);
    InFew([x], u);
    InFew(mid, u);
  }

  /** The other entries do not meet entry `k`. */
  lemma OutsideEntry(e: seq<Entry>, k: nat, u: int)
    requires Proper(e) && k < |e|
    ensures e[k].addr <= u < e[k].addr + e[k].size ==> !In(e[..k], u) && !In(e[k + 1..], u)
  {
  }

  lemma InNone(u: int)
    ensures !In([], u)
  {
  }

  /** Entry `k` among its neighbours. */
  lemma Order(e: seq<Entry>, k: nat)
    requires Proper(e) && k < |e|
    ensures e[k].size > 0 && e[k].addr > 0
    ensures k > 0 ==> e[k - 1].addr + e[k - 1].size < e[k].addr && e[k - 1].size > 0 && e[k - 1].addr > 0
    ensures k + 1 < |e| ==> e[k].addr + e[k].size < e[k + 1].addr
    ensures k > 0 && k + 1 < |e| ==> e[k - 1].addr + e[k - 1].size < e[k + 1].addr
  {
  }

  /** One entry, or none, put between two stretches of entries. */
  lemma ProperJoin(e: seq<Entry>, lo: nat, mid: seq<Entry>, hi: nat)
    requires Proper(e) && lo <= hi <= |e| && |mid| <= 1
    requires mid != [] ==> mid[0].size > 0 && mid[0].addr > 0
    requires mid != [] && lo > 0 ==> e[lo - 1].addr + e[lo - 1].size < mid[0].addr
    requires mid != [] && hi < |e| ==> mid[0].addr + mid[0].size < e[hi].addr
    ensures Proper(e[..lo] + mid + e[hi..])
  {
    hide Proper;
    ProperSlice(e, 0, lo);
    ProperSlice(e, hi, |e|);
    assert Proper(mid) by { ProperOne(mid); }
    ProperSum(e[..lo], mid);
    if 0 < lo && hi < |e| { Apart(e, lo - 1, hi); }
    ProperSum(e[..lo] + mid, e[hi..]);
  }

  lemma ProperOne(mid: seq<Entry>)
    requires |mid| <= 1 && (mid != [] ==> mid[0].size > 0 && mid[0].addr > 0)
    ensures Proper(mid)
  {
  }

  lemma Apart(e: seq<Entry>, i: nat, j: nat)
    requires Proper(e) && i < j < |e|
    ensures e[i].addr + e[i].size < e[j].addr
  {
  }

  lemma TakenProper(e: seq<Entry>, size: int)
    requires Proper(e) && size >= 0
    ensures Proper(Taken(e, size))
  {
    hide Proper;
    var k := Fit(e, size);
    if k < |e| {
      Order(e, k);
      var mid := if e[k].size == size then [] else [Entry(e[k].size - size, e[k].addr + size)];
      ProperJoin(e, k, mid, k + 1);
    }
  }

  /** What is not free does not overlap an entry. */
  lemma Clear(e: seq<Entry>, size: int, a: int, i: nat)
    requires Proper(e) && size > 0 && NoneFree(e, a, size) && i < |e|
    ensures e[i].addr + e[i].size <= a || a + size <= e[i].addr
  {
    var u := if e[i].addr < a then a else e[i].addr;
    assert e[i].addr <= u < e[i].addr + e[i].size ==> In(e, u);
  }

  /** The interval lies between its neighbours. */
  lemma Between(e: seq<Entry>, size: int, a: int)
    requires Proper(e) && size >= 0 && a > 0 && NoneFree(e, a, size)
    ensures var k := Before(e, a);
      && (k < |e| ==> a + size <= e[k].addr)
      && (k > 0 && size > 0 ==> e[k - 1].addr + e[k - 1].size <= a)
  {
    hide Before, NoneFree;
    var k := Before(e, a);
    if size > 0 {
      if k < |e| { Clear(e, size, a, k); }
      if k > 0 { Clear(e, size, a, k - 1); }
    }
  }

  /** mfree adds exactly the units it is given; nothing is left uncoalesced. */
  lemma GivenProper(e: seq<Entry>, size: int, a: int)
    requires Proper(e) && size >= 0 && a > 0 && NoneFree(e, a, size)
    ensures Proper(Given(e, size, a))
  {
    hide Proper, NoneFree;
    Between(e, size, a);
    var k := Before(e, a);
    var lo, hi := if Left(e, a) then k - 1 else k, if Right(e, size, a) then k + 1 else k;
    if k < |e| { Order(e, k); }
    if k > 0 { Order(e, k - 1); }
    if 0 < lo < k { Order(e, lo); }
    ProperJoin(e, lo, Merged(e, size, a), hi);
  }

  lemma GivenExact(e: seq<Entry>, size: int, a: int, u: int)
    requires Proper(e) && size >= 0 && a > 0 && NoneFree(e, a, size)
    ensures In(Given(e, size, a), u) <==> In(e, u) || a <= u < a + size
  {
    hide Proper, In, NoneFree;
    var k := Before(e, a);
    var lo, hi := if Left(e, a) then k - 1 else k, if Right(e, size, a) then k + 1 else k;
    var mid := Merged(e, size, a);
    InSum(e[..lo] + mid, e[hi..], u);
    InSum(e[..lo], mid, u);
    assert e == e[..lo] + e[lo..hi] + e[hi..];
    InSum(e[..lo] + e[lo..hi], e[hi..], u);
    InSum(e[..lo], e[lo..hi], u);
    MiddleExact(e, size, a, lo, hi, u);
  }

  lemma MiddleExact(e: seq<Entry>, size: int, a: int, lo: nat, hi: nat, u: int)
    requires Proper(e) && size >= 0 && a > 0 && NoneFree(e, a, size)
    requires var k := Before(e, a);
      lo == (if Left(e, a) then k - 1 else k) && hi == (if Right(e, size, a) then k + 1 else k)
    ensures In(Merged(e, size, a), u) <==> In(e[lo..hi], u) || a <= u < a + size
  {
    hide In, NoneFree, Proper, Merged, LeftPart, RightPart;
    MiddleSplit(e, size, a, lo, hi);
    var l, r := LeftPart(e, a), RightPart(e, size, a);
    InSum(l, r, u);
    InFew(l, u);
    InFew(r, u);
    InFew(Merged(e, size, a), u);
    MergedSpan(e, size, a, u);
  }

  function LeftPart(e: seq<Entry>, a: int): seq<Entry> {
    if Left(e, a) then [e[Before(e, a) - 1]] else []
  }

  function RightPart(e: seq<Entry>, size: int, a: int): seq<Entry> {
    if Right(e, size, a) then [e[Before(e, a)]] else []
  }

  lemma MiddleSplit(e: seq<Entry>, size: int, a: int, lo: nat, hi: nat)
    requires var k := Before(e, a);
      lo == (if Left(e, a) then k - 1 else k) && hi == (if Right(e, size, a) then k + 1 else k)
    ensures lo <= hi <= |e| && e[lo..hi] == LeftPart(e, a) + RightPart(e, size, a)
    ensures |LeftPart(e, a)| <= 1 && |RightPart(e, size, a)| <= 1 && |Merged(e, size, a)| <= 1
  {
    hide Before;
    AroundSplit(e, Before(e, a), Left(e, a), Right(e, size, a));
  }

  lemma AroundSplit(e: seq<Entry>, k: nat, left: bool, right: bool)
    requires k <= |e| && (left ==> k > 0) && (right ==> k < |e|)
    ensures e[(if left then k - 1 else k)..(if right then k + 1 else k)]
      == (if left then [e[k - 1]] else []) + (if right then [e[k]] else [])
  {
  }

  /** The merged entry spans what it is merged from. */
  lemma MergedSpan(e: seq<Entry>, size: int, a: int, u: int)
    requires Proper(e) && size >= 0 && a > 0 && NoneFree(e, a, size)
    ensures var m, l, r := Merged(e, size, a), LeftPart(e, a), RightPart(e, size, a);
      (|m| == 1 && m[0].addr <= u < m[0].addr + m[0].size) <==>
      (|l| == 1 && l[0].addr <= u < l[0].addr + l[0].size)
      || (|r| == 1 && r[0].addr <= u < r[0].addr + r[0].size) || a <= u < a + size
  {
    hide NoneFree, Proper;
    Between(e, size, a);
    var k := Before(e, a);
    if k < |e| { Order(e, k); } else if k > 0 { Order(e, k - 1); }
  }

  /** The live entries are determined by which units are free. */
  lemma {:induction false} Canonical(e: seq<Entry>, f: seq<Entry>)
    requires Proper(e) && Proper(f) && forall u :: In(e, u) <==> In(f, u)
    ensures e == f
    decreases |e|
  {
    if e == [] {
      if f != [] {
        assert f[0].addr <= f[0].addr < f[0].addr + f[0].size;
        assert In(f, f[0].addr);
      }
    } else {
      assert e[0].addr <= e[0].addr < e[0].addr + e[0].size;
      assert In(e, e[0].addr);
      SameFirst(e, f);
      RestSame(e, f);
      Canonical(e[1..], f[1..]);
      assert e == [e[0]] + e[1..] && f == [f[0]] + f[1..];
    }
  }

  lemma FirstUnit(e: seq<Entry>)
    requires Proper(e) && e != []
    ensures In(e, e[0].addr) && forall u :: In(e, u) ==> u >= e[0].addr
    ensures !In(e, e[0].addr + e[0].size) && forall u :: e[0].addr <= u < e[0].addr + e[0].size ==> In(e, u)
  {
    assert e[0].addr <= e[0].addr < e[0].addr + e[0].size;
  }

  lemma SameFirst(e: seq<Entry>, f: seq<Entry>)
    requires Proper(e) && Proper(f) && e != [] && forall u :: In(e, u) <==> In(f, u)
    ensures f != [] && f[0] == e[0]
  {
    hide Proper, In;
    FirstUnit(e);
    NonEmpty(f, e[0].addr);
    FirstUnit(f);
    SizePositive(e);
    SizePositive(f);
    var x, y := e[0].addr + e[0].size, f[0].addr + f[0].size;
    assert e[0].addr == f[0].addr;
    assert x < y ==> In(f, x);
    assert y < x ==> In(e, y);
  }

  lemma SizePositive(e: seq<Entry>)
    requires Proper(e) && e != []
    ensures e[0].size > 0
  {
  }

  lemma NonEmpty(f: seq<Entry>, u: int)
    requires In(f, u)
    ensures f != []
  {
  }

  lemma RestSame(e: seq<Entry>, f: seq<Entry>)
    requires Proper(e) && Proper(f) && e != [] && f != [] && e[0] == f[0] && forall u :: In(e, u) <==> In(f, u)
    ensures Proper(e[1..]) && Proper(f[1..]) && forall u :: In(e[1..], u) <==> In(f[1..], u)
  {
    hide Proper, In;
    RestIn(e);
    RestIn(f);
  }

  lemma RestIn(e: seq<Entry>)
    requires Proper(e) && e != []
    ensures Proper(e[1..]) && forall u :: In(e[1..], u) <==> In(e, u) && u >= e[0].addr + e[0].size
  {
    forall u | In(e, u) && u >= e[0].addr + e[0].size ensures In(e[1..], u) {
      var i :| 0 <= i < |e| && e[i].addr <= u < e[i].addr + e[i].size;
      assert e[1..][i - 1] == e[i];
    }
    forall u | In(e[1..], u) ensures In(e, u) && u >= e[0].addr + e[0].size {
      var i :| 0 <= i < |e[1..]| && e[1..][i].addr <= u < e[1..][i].addr + e[1..][i].size;
      assert e[i + 1] == e[1..][i];
    }
  }

  /** Freeing what malloc just gave restores the map, entry for entry. */
  lemma {:induction false} FreeUndoesMalloc(e: seq<Entry>, size: int)
    requires Proper(e) && size >= 0 && Fit(e, size) < |e|
    ensures Given(Taken(e, size), size, e[Fit(e, size)].addr) == e
  {
    hide Proper, In, Fit, Taken, Given;
    var a, t := e[Fit(e, size)].addr, Taken(e, size);
    TakenProper(e, size);
    TakenExact(e, size, a);
    forall u ensures In(t, u) <==> In(e, u) && !(a <= u < a + size) {
      TakenExact(e, size, u);
    }
    GivenProper(t, size, a);
    forall u ensures In(Given(t, size, a), u) <==> In(e, u) {
      GivenExact(t, size, a, u);
      TakenExact(e, size, u);
    }
    Canonical(Given(t, size, a), e);
  }

  /** Freeing a list of pieces, one after another. */
  function GiveAll(e: seq<Entry>, ps: seq<Entry>): seq<Entry>
    decreases |ps|
  {
    if ps == [] then e else GiveAll(Given(e, ps[0].size, ps[0].addr), ps[1..])
  }

  /** The pieces overlap neither each other nor what is free. */
  ghost predicate Loose(e: seq<Entry>, ps: seq<Entry>) {
    && (forall i :: 0 <= i < |ps| ==> ps[i].size >= 0 && ps[i].addr > 0 && NoneFree(e, ps[i].addr, ps[i].size))
    && forall i, j, u :: 0 <= i < j < |ps| && Has(ps[i], u) ==> !Has(ps[j], u)
  }

  lemma LooseRest(e: seq<Entry>, ps: seq<Entry>)
    requires Proper(e) && Loose(e, ps) && ps != []
    ensures Loose(Given(e, ps[0].size, ps[0].addr), ps[1..])
  {
    hide Proper, In, Given;
    var x, f := ps[0], Given(e, ps[0].size, ps[0].addr);
    forall i | 0 <= i < |ps[1..]| ensures NoneFree(f, ps[1..][i].addr, ps[1..][i].size) {
      var y := ps[i + 1];
      forall u | y.addr <= u < y.addr + y.size ensures !In(f, u) {
        GivenExact(e, x.size, x.addr, u);
        assert Has(y, u) && !In(e, u) && !Has(x, u);
      }
    }
    forall i, j, u | 0 <= i < j < |ps[1..]| && Has(ps[1..][i], u) ensures !Has(ps[1..][j], u) {
      assert Has(ps[i + 1], u) && ps[1..][j] == ps[j + 1];
    }
  }

  lemma {:induction false} GiveAllExact(e: seq<Entry>, ps: seq<Entry>)
    requires Proper(e) && Loose(e, ps)
    ensures Proper(GiveAll(e, ps)) && forall u :: In(GiveAll(e, ps), u) <==> In(e, u) || In(ps, u)
    decreases |ps|
  {
    hide Proper, In, Given, Loose;
    if ps == [] {
      forall u ensures !In(ps, u) {
        InNone(u);
      }
    } else {
      var x := ps[0];
      var f := Given(e, x.size, x.addr);
      LooseFirst(e, ps);
      GivenProper(e, x.size, x.addr);
      LooseRest(e, ps);
      GiveAllExact(f, ps[1..]);
      forall u ensures In(GiveAll(e, ps), u) <==> In(e, u) || In(ps, u) {
        GivenExact(e, x.size, x.addr, u);
        assert ps == [x] + ps[1..];
        InSum([x], ps[1..], u);
        InOne(x, u);
      }
    }
  }

  lemma LooseFirst(e: seq<Entry>, ps: seq<Entry>)
    requires Loose(e, ps) && ps != []
    ensures ps[0].size >= 0 && ps[0].addr > 0 && NoneFree(e, ps[0].addr, ps[0].size)
  {
  }

  /** In whatever order pieces are freed, the live entries end up the same. */
  lemma {:induction false} AnyOrder(e: seq<Entry>, ps: seq<Entry>, qs: seq<Entry>)
    requires Proper(e) && Loose(e, ps) && Loose(e, qs) && multiset(ps) == multiset(qs)
    ensures GiveAll(e, ps) == GiveAll(e, qs)
  {
    hide Proper, Given, Loose, GiveAll;
    GiveAllExact(e, ps);
    GiveAllExact(e, qs);
    forall u ensures In(ps, u) <==> In(qs, u) {
      if In(ps, u) { SamePieces(ps, qs, u); }
      if In(qs, u) { SamePieces(qs, ps, u); }
    }
    Canonical(GiveAll(e, ps), GiveAll(e, qs));
  }

  /** One malloc after another: what is free then, and the pieces given out by those that did not fail. */
  function TakeAll(e: seq<Entry>, sizes: seq<int>): seq<Entry>
    decreases |sizes|
  {
    if sizes == [] then e else TakeAll(Taken(e, sizes[0]), sizes[1..])
  }

  function Piece(e: seq<Entry>, size: int): seq<Entry> {
    if Fit(e, size) == |e| then [] else [Entry(size, e[Fit(e, size)].addr)]
  }

  function Pieces(e: seq<Entry>, sizes: seq<int>): seq<Entry>
    decreases |sizes|
  {
    if sizes == [] then [] else Piece(e, sizes[0]) + Pieces(Taken(e, sizes[0]), sizes[1..])
  }

  /** Whatever was allocated, once it has all been freed, in any order, the map is what it was. */
  lemma {:induction false} AllGivenBack(e: seq<Entry>, sizes: seq<int>, ps: seq<Entry>)
    requires Proper(e) && (forall i :: 0 <= i < |sizes| ==> sizes[i] >= 0) && multiset(ps) == multiset(Pieces(e, sizes))
    ensures GiveAll(TakeAll(e, sizes), ps) == e
  {
    hide Proper, In, Loose, GiveAll, TakeAll, Pieces;
    var t, qs := TakeAll(e, sizes), Pieces(e, sizes);
    TakeAllExact(e, sizes);
    LooseAnyOrder(t, qs, ps);
    GiveAllExact(t, ps);
    forall u ensures In(GiveAll(t, ps), u) <==> In(e, u) {
      if In(ps, u) { SamePieces(ps, qs, u); }
      if In(qs, u) { SamePieces(qs, ps, u); }
    }
    Canonical(GiveAll(t, ps), e);
  }

  /** What is still free and what was given out make up what was free. */
  lemma {:induction false} TakeAllExact(e: seq<Entry>, sizes: seq<int>)
    requires Proper(e) && forall i :: 0 <= i < |sizes| ==> sizes[i] >= 0
    ensures var t, ps := TakeAll(e, sizes), Pieces(e, sizes);
      Proper(t) && Loose(t, ps) && forall u :: In(e, u) <==> In(t, u) || In(ps, u)
    decreases |sizes|
  {
    hide Proper, In, Loose, Taken, Piece;
    if sizes == [] {
      forall u ensures !In([], u) {
        InNone(u);
      }
      NoneLoose(e);
    } else {
      var f, x := Taken(e, sizes[0]), Piece(e, sizes[0]);
      TakenProper(e, sizes[0]);
      TakeAllExact(f, sizes[1..]);
      var t, ps := TakeAll(f, sizes[1..]), Pieces(f, sizes[1..]);
      forall u ensures In(e, u) <==> In(t, u) || In(x + ps, u) {
        PieceExact(e, sizes[0], u);
        InSum(x, ps, u);
      }
      forall u ensures In(x, u) ==> !In(t, u) && !In(ps, u) {
        PieceExact(e, sizes[0], u);
      }
      PieceIs(e, sizes[0]);
      OneMoreLoose(t, x, ps);
    }
  }

  lemma PieceIs(e: seq<Entry>, size: int)
    requires Proper(e) && size >= 0
    ensures var x := Piece(e, size); |x| <= 1 && (x != [] ==> x[0].addr > 0 && x[0].size >= 0)
  {
    hide Fit;
  }

  lemma PieceExact(e: seq<Entry>, size: int, u: int)
    requires Proper(e) && size >= 0
    ensures (In(e, u) <==> In(Taken(e, size), u) || In(Piece(e, size), u))
    ensures In(Piece(e, size), u) ==> !In(Taken(e, size), u)
  {
    hide Proper, In, Fit, Taken;
    InFew(Piece(e, size), u);
    if Fit(e, size) < |e| {
      TakenExact(e, size, u);
    } else {
      TakenNone(e, size);
    }
  }

  lemma NoneLoose(e: seq<Entry>)
    ensures Loose(e, [])
  {
  }

  lemma OneMoreLoose(t: seq<Entry>, x: seq<Entry>, ps: seq<Entry>)
    requires |x| <= 1 && (x != [] ==> x[0].addr > 0 && x[0].size >= 0) && Loose(t, ps)
    requires forall u :: In(x, u) ==> !In(t, u) && !In(ps, u)
    ensures Loose(t, x + ps)
  {
    hide In;
    if x == [] {
      assert x + ps == ps;
    } else {
      forall u | Has(x[0], u) ensures !In(t, u) && forall j :: 0 <= j < |ps| ==> !Has(ps[j], u) {
        InFew(x, u);
        HasIn(ps, u);
      }
      FrontLoose(t, x[0], ps);
      assert x == [x[0]];
    }
  }

  lemma HasIn(ps: seq<Entry>, u: int)
    ensures In(ps, u) <==> exists j :: 0 <= j < |ps| && Has(ps[j], u)
  {
  }

  lemma FrontLoose(t: seq<Entry>, x: Entry, ps: seq<Entry>)
    requires Loose(t, ps) && x.addr > 0 && x.size >= 0
    requires forall u :: Has(x, u) ==> !In(t, u) && forall j :: 0 <= j < |ps| ==> !Has(ps[j], u)
    ensures Loose(t, [x] + ps)
  {
    hide In;
    var qs := [x] + ps;
    forall u | x.addr <= u < x.addr + x.size ensures !In(t, u) {
      assert Has(x, u);
    }
    forall i, j, u | 0 <= i < j < |qs| && Has(qs[i], u) ensures !Has(qs[j], u) {
      assert qs[j] == ps[j - 1] && (i > 0 ==> qs[i] == ps[i - 1]);
    }
  }

  lemma {:induction false} LooseAnyOrder(t: seq<Entry>, ps: seq<Entry>, qs: seq<Entry>)
    requires Loose(t, ps) && multiset(ps) == multiset(qs)
    ensures Loose(t, qs)
    decreases |qs|
  {
    hide Loose, In, Has;
    if qs == [] {
      NoneLoose(t);
    } else {
      assert qs[0] in multiset(qs);
      var i :| 0 <= i < |ps| && ps[i] == qs[0];
      var rest := ps[..i] + ps[i + 1..];
      RestMembers(ps, i, qs);
      LooseWithout(t, ps, i);
      LooseAnyOrder(t, rest, qs[1..]);
      forall u | Has(qs[0], u)
        ensures !In(t, u) && forall j :: 0 <= j < |qs[1..]| ==> !Has(qs[1..][j], u)
      {
        forall j | 0 <= j < |qs[1..]| ensures !Has(qs[1..][j], u) {
          SameMember(rest, qs[1..], j);
        }
      }
      FrontLoose(t, qs[0], qs[1..]);
      assert qs == [qs[0]] + qs[1..];
    }
  }

  lemma RestMembers(ps: seq<Entry>, i: nat, qs: seq<Entry>)
    requires i < |ps| && qs != [] && ps[i] == qs[0] && multiset(ps) == multiset(qs)
    ensures multiset(ps[..i] + ps[i + 1..]) == multiset(qs[1..])
  {
    assert ps == ps[..i] + [ps[i]] + ps[i + 1..];
    assert qs == [qs[0]] + qs[1..];
    var a, b := multiset(ps[..i] + ps[i + 1..]), multiset(qs[1..]);
    assert multiset(ps) == a + multiset{qs[0]} && multiset(qs) == b + multiset{qs[0]};
    DropBoth(a, b, qs[0]);
  }

  lemma DropBoth(a: multiset<Entry>, b: multiset<Entry>, x: Entry)
    requires a + multiset{x} == b + multiset{x}
    ensures a == b
  {
    assert a == a + multiset{x} - multiset{x};
  }

  lemma SameMember(ps: seq<Entry>, qs: seq<Entry>, j: nat)
    requires multiset(ps) == multiset(qs) && j < |qs|
    ensures exists k :: 0 <= k < |ps| && ps[k] == qs[j]
  {
    assert qs[j] in multiset(qs) && qs[j] in multiset(ps);
    assert qs[j] in ps;
  }

  lemma LooseWithout(t: seq<Entry>, ps: seq<Entry>, i: nat)
    requires Loose(t, ps) && i < |ps|
    ensures var rest := ps[..i] + ps[i + 1..];
      Loose(t, rest) && forall u, k :: Has(ps[i], u) && 0 <= k < |rest| ==> !Has(rest[k], u)
    ensures ps[i].addr > 0 && ps[i].size >= 0 && forall u :: Has(ps[i], u) ==> !In(t, u)
  {
    hide In;
    var rest := ps[..i] + ps[i + 1..];
    forall k | 0 <= k < |rest| ensures rest[k] == ps[if k < i then k else k + 1] {
    }
  }

  lemma SamePieces(ps: seq<Entry>, qs: seq<Entry>, u: int)
    requires multiset(ps) == multiset(qs) && In(ps, u)
    ensures In(qs, u)
  {
    var i :| 0 <= i < |ps| && ps[i].addr <= u < ps[i].addr + ps[i].size;
    assert ps[i] in multiset(ps);
    assert ps[i] in qs;
    var j :| 0 <= j < |qs| && qs[j] == ps[i];
  }

  lemma FitFrom(e: seq<Entry>, size: int, i: nat)
    requires i <= |e|
    ensures Fit(e[i..], size) == if i == |e| || e[i].size >= size then 0 else 1 + Fit(e[i + 1..], size)
    ensures e[0..] == e
  {
    if i < |e| {
      assert e[i..][0] == e[i] && e[i..][1..] == e[i + 1..];
    }
  }

  lemma BeforeFrom(e: seq<Entry>, a: int, i: nat)
    requires i <= |e|
    ensures Before(e[i..], a) == if i == |e| || e[i].addr > a then 0 else 1 + Before(e[i + 1..], a)
    ensures e[0..] == e
  {
    if i < |e| {
      assert e[i..][0] == e[i] && e[i..][1..] == e[i + 1..];
    }
  }

  lemma SpliceOne(e: seq<Entry>, k: nat, x: Entry)
    requires k < |e|
    ensures e[..k] + [x] + e[k + 1..] == e[k := x]
  {
  }

  lemma SpliceNone(e: seq<Entry>, k: nat, j: nat)
    requires k <= j <= |e|
    ensures e[..k] + [] + e[j..] == e[..k] + e[j..]
    ensures e[..k] + e[k..] == e
  {
  }

  lemma TakenWhole(e: seq<Entry>, size: int, k: nat)
    requires k == Fit(e, size) && k < |e| && e[k].size == size
    ensures Taken(e, size) == e[..k] + e[k + 1..]
  {
    hide Fit;
    SpliceNone(e, k, k + 1);
  }

  lemma TakenPart(e: seq<Entry>, size: int, k: nat)
    requires k == Fit(e, size) && k < |e| && e[k].size != size
    ensures Taken(e, size) == e[k := Entry(e[k].size - size, e[k].addr + size)]
  {
    hide Fit;
    SpliceOne(e, k, Entry(e[k].size - size, e[k].addr + size));
  }

  lemma TakenNone(e: seq<Entry>, size: int)
    requires Fit(e, size) == |e|
    ensures Taken(e, size) == e
  {
  }

  /** The ways mfree can go, by what lies at `k`, the first entry past the interval. */
  lemma GivenLeft(e: seq<Entry>, size: int, a: int, k: nat)
    requires k == Before(e, a) && 0 < k <= |e| && e[k - 1].addr + e[k - 1].size == a
    ensures k < |e| && a + size == e[k].addr ==>
      Given(e, size, a) == e[..k - 1] + [Entry(e[k - 1].size + size + e[k].size, e[k - 1].addr)] + e[k + 1..]
    ensures !(k < |e| && a + size == e[k].addr) ==>
        Given(e, size, a) == e[k - 1 := Entry(e[k - 1].size + size, e[k - 1].addr)]
  {
    hide Before;
    SpliceOne(e, k - 1, Entry(e[k - 1].size + size, e[k - 1].addr));
  }

  lemma GivenRight(e: seq<Entry>, size: int, a: int, k: nat)
    requires k == Before(e, a) && k < |e| && !(k > 0 && e[k - 1].addr + e[k - 1].size == a) && size >= 0
    requires a + size == e[k].addr && e[k].size > 0
    ensures Given(e, size, a) == e[k := Entry(e[k].size + size, a)]
  {
    hide Before;
    SpliceOne(e, k, Entry(e[k].size + size, a));
  }

  lemma GivenApart(e: seq<Entry>, size: int, a: int, k: nat)
    requires k == Before(e, a) && k <= |e| && !(k > 0 && e[k - 1].addr + e[k - 1].size == a) && size >= 0
    requires !(k < |e| && a + size == e[k].addr)
    ensures Given(e, size, a) == if size != 0 then e[..k] + [Entry(size, a)] + e[k..] else e
  {
    hide Before, Left, Right, Merged;
    MergedApart(e, size, a, k);
    SpliceNone(e, k, k);
  }

  lemma MergedApart(e: seq<Entry>, size: int, a: int, k: nat)
    requires k == Before(e, a) && k <= |e| && !(k > 0 && e[k - 1].addr + e[k - 1].size == a) && size >= 0
    requires !(k < |e| && a + size == e[k].addr)
    ensures !Left(e, a) && !Right(e, size, a) && Merged(e, size, a) == if size != 0 then [Entry(size, a)] else []
  {
    hide Before;
  }

  lemma Positive(e: seq<Entry>)
    requires Proper(e)
    ensures forall i :: 0 <= i < |e| ==> e[i].size > 0
  {
  }

  class Map {
    const mp: array<Entry>
    ghost var live: seq<Entry>

    /** The array: the live entries, then nothing but zero sizes. */
    ghost predicate Holds(e: seq<Entry>)
      reads mp
    {
      && |e| < mp.Length && mp[..|e|] == e
      && forall i :: |e| <= i < mp.Length ==> mp[i].size == 0
    }

    ghost predicate Valid()
      reads this, mp
    {
      Proper(live) && Holds(live)
    }

    /** malloc's search, up to the entry that fits or the terminator. */
    method FindFit(size: int) returns (bp: nat)
      requires Valid()
      ensures bp == Fit(live, size) && (bp < |live| ==> mp[bp].size != 0 && mp[bp].size >= size)
      ensures bp == |live| ==> mp[bp].size == 0
    {
      hide Proper, Fit;
      Positive(live);
      bp := 0;
      FitFrom(live, size, 0);
      while mp[bp].size != 0
        invariant 0 <= bp <= |live| && Fit(live, size) == bp + Fit(live[bp..], size)
        decreases |live| - bp
      {
        FitFrom(live, size, bp);
        if mp[bp].size >= size {
          return;
        }
        bp := bp + 1;
      }
      FitFrom(live, size, bp);
    }

    /** malloc. */
    method Malloc(size: int) returns (a: int)
      requires Valid() && size >= 0
      modifies mp, this`live
      ensures Valid() && live == Taken(old(live), size)
      ensures a == if Fit(old(live), size) < |old(live)| then old(live)[Fit(old(live), size)].addr else 0
    {
      hide Proper, Fit, Taken;
      Positive(live);
      TakenProper(live, size);
      var bp := FindFit(size);
      if mp[bp].size == 0 {
        TakenNone(live, size);
        return 0;
      }
      a := mp[bp].addr;
      mp[bp] := Entry(mp[bp].size - size, mp[bp].addr + size);
      if mp[bp].size == 0 {
        TakenWhole(live, size, bp);
        Shift(live, bp);
      } else {
        TakenPart(live, size, bp);
      }
      live := Taken(live, size);
    }

    /** The loop that closes a gap: every later entry moves down one, and the terminator with them. */
    method Shift(ghost e: seq<Entry>, k: int)
      requires 0 <= k < |e| < mp.Length && (forall i :: 0 <= i < |e| ==> e[i].size != 0)
      requires forall i :: 0 <= i < |e| && i != k ==> mp[i] == e[i]
      requires forall i :: |e| <= i < mp.Length ==> mp[i].size == 0
      modifies mp
      ensures Holds(e[..k] + e[k + 1..])
    {
      var bp := k;
      var more := true;
      while more
        invariant k <= bp <= |e| && (more ==> bp < |e|) && (!more ==> bp == |e| && mp[bp - 1].size == 0 && bp > k)
        invariant forall i :: 0 <= i < k ==> mp[i] == e[i]
        invariant forall i :: k <= i < bp && i + 1 < |e| ==> mp[i] == e[i + 1]
        invariant forall i :: bp < i < |e| ==> mp[i] == e[i]
        invariant forall i :: |e| <= i < mp.Length ==> mp[i].size == 0
        decreases |e| - bp, more
      {
        bp := bp + 1;
        mp[bp - 1] := mp[bp];
        more := mp[bp - 1].size != 0;
      }
      assert mp[..|e| - 1] == e[..k] + e[k + 1..];
    }

    /** mfree's exchange loop: a new entry goes in, and every later one moves up. */
    method Insert(ghost e: seq<Entry>, k: int, x: Entry)
      requires 0 <= k <= |e| && |e| + 1 < mp.Length && x.size != 0 && Holds(e)
      requires forall i :: 0 <= i < |e| ==> e[i].size != 0
      modifies mp
      ensures Holds(e[..k] + [x] + e[k..])
    {
      ghost var w := e[..k] + [x] + e[k..];
      var bp := k;
      var carry := x;
      while carry.size != 0
        invariant k <= bp <= |w| && (if bp < |w| then carry == w[bp] else carry.size == 0)
        invariant forall i :: 0 <= i < bp ==> mp[i] == w[i]
        invariant forall i :: bp <= i < |e| ==> mp[i] == e[i]
        invariant forall i :: |w| <= i < mp.Length ==> mp[i].size == 0
        invariant bp <= |e| ==> mp[|e|].size == 0
        decreases |w| - bp
      {
        var t := mp[bp];
        mp[bp] := carry;
        carry := t;
        bp := bp + 1;
      }
      assert mp[..|w|] == w;
    }

    /** mfree's search for the first entry past `a`. */
    method FindPast(a: int) returns (bp: nat)
      requires Valid()
      ensures bp == Before(live, a)
    {
      hide Proper, Before;
      Positive(live);
      bp := 0;
      BeforeFrom(live, a, 0);
      while mp[bp].addr <= a && mp[bp].size != 0
        invariant 0 <= bp <= |live| && Before(live, a) == bp + Before(live[bp..], a)
        decreases |live| - bp
      {
        BeforeFrom(live, a, bp);
        bp := bp + 1;
      }
      BeforeFrom(live, a, bp);
    }

    /** mfree of an interval that starts where entry `bp` - 1 ends. */
    method Extend(size: int, aa: int, bp: nat)
      requires Valid() && 0 < bp <= |live| && bp == Before(live, aa) && live[bp - 1].addr + live[bp - 1].size == aa
      requires size >= 0
      modifies mp
      ensures Holds(Given(live, size, aa))
    {
      hide Proper, Before, Given;
      ghost var e := live;
      Positive(e);
      GivenLeft(e, size, aa, bp);
      mp[bp - 1] := Entry(mp[bp - 1].size + size, mp[bp - 1].addr);
      if aa + size == mp[bp].addr {
        mp[bp - 1] := Entry(mp[bp - 1].size + mp[bp].size, mp[bp - 1].addr);
        if mp[bp].size != 0 {
          Shift(e[bp - 1 := mp[bp - 1]], bp);
        }
      }
    }

    /** mfree, with a slot to spare. */
    method MFree(size: int, aa: int)
      requires Valid() && size >= 0 && aa > 0 && NoneFree(live, aa, size) && |live| + 1 < mp.Length
      modifies mp, this`live
      ensures Valid() && live == Given(old(live), size, aa)
    {
      hide Proper, NoneFree, Given, Before;
      ghost var e := live;
      GivenProper(e, size, aa);
      Positive(e);
      var bp := FindPast(aa);
      if bp > 0 && mp[bp - 1].addr + mp[bp - 1].size == aa {
        Extend(size, aa, bp);
      } else {
        if aa + size == mp[bp].addr && mp[bp].size != 0 {
          GivenRight(e, size, aa, bp);
          mp[bp] := Entry(mp[bp].size + size, mp[bp].addr - size);
        } else {
          GivenApart(e, size, aa, bp);
          if size != 0 {
            Insert(e, bp, Entry(size, aa));
          }
        }
      }
      live := Given(e, size, aa);
    }
  }
}
