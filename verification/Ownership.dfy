/**
 Who holds the units of core and of swap: the state of ken/slp.c, ken/text.c, and exit and wait of
 ken/sys1.c, as a value.

 A unit of core is 64 bytes, a unit of swap 512, so an image of n units of core takes Blocks(n) of
 swap.  Each `led` gives every unit of one space its holder.
 */
module Ownership {
  import opened ResourceMap

  datatype Owner = Nobody | Img(p: nat) | Txt(t: nat) | Grave(q: nat)

  type Ledger = map<int, Owner>

  datatype Ext = Ext(a: int, size: int)

  const NONE := Ext(0, 0)

  /**
   Where a process is.  Leaving: xswap waits for the image to be written, from `os` units of core
   that are its own, or, if `lender` is a process, that process's.  TextComing, Coming: sched waits
   for the text, then for the image, to be read into core it has taken at `a`.
   */
  datatype Phase = NoProc | Loaded | Leaving(to: int, os: int, lender: int) | Out
                 | TextComing(a: int, ts: int) | Coming(a: int) | Zombie

  /** `making` is a text xalloc is still reading in, `grave` the swap block that keeps the u area of
      a process that exits, `lending` is state SIDL in newproc.  -1 is no text. */
  datatype Proc = Proc(phase: Phase, addr: int, size: int, text: int, making: int, lending: bool, grave: int)

  datatype Text = Text(used: bool, sticky: bool, count: int, ccount: int, caddr: int, daddr: int, size: int)

  /** `cunits` and `sunits` are the units of core and of swap there are. */
  datatype Sys = Sys(procs: map<nat, Proc>, texts: map<nat, Text>, core: seq<Entry>, swap: seq<Entry>,
                     cled: Ledger, sled: Ledger, cunits: set<int>, sunits: set<int>)

  function Blocks(n: int): (b: int)
    ensures 8 * b >= n > 8 * (b - 1)
  {
    (n + 7) / 8
  }

  // ------------------------------------------------------------ one space

  ghost predicate Within(x: Ext, u: int) {
    x.a <= u < x.a + x.size
  }

  /** The map's free units are the ones the ledger gives to nobody. */
  ghost predicate Space(live: seq<Entry>, led: Ledger) {
    && Proper(live) && (forall u :: In(live, u) <==> u in led && led[u] == Nobody)
    && forall u :: u in led ==> u > 0
  }

  ghost function Paint(led: Ledger, a: int, size: int, o: Owner): (r: Ledger)
    ensures r.Keys == led.Keys
  {
    map u | u in led :: if a <= u < a + size then o else led[u]
  }

  /** All these units are `o`'s. */
  ghost predicate All(led: Ledger, a: int, size: int, o: Owner) {
    forall u :: a <= u < a + size ==> u in led && led[u] == o
  }

  lemma TakeSpace(live: seq<Entry>, led: Ledger, size: int, o: Owner)
    requires Space(live, led) && size > 0 && Fit(live, size) < |live| && o != Nobody
    ensures var a := live[Fit(live, size)].addr;
      a > 0 && All(led, a, size, Nobody) && Space(Taken(live, size), Paint(led, a, size, o))
  {
    hide Proper, In, Taken, Fit;
    var a, led' := live[Fit(live, size)].addr, Paint(led, live[Fit(live, size)].addr, size, o);
    TakenProper(live, size);
    TakenExact(live, size, a);
    forall u ensures In(Taken(live, size), u) <==> u in led' && led'[u] == Nobody {
      TakenExact(live, size, u);
    }
    forall u | a <= u < a + size ensures u in led && led[u] == Nobody {
      TakenExact(live, size, u);
    }
  }

  lemma GiveSpace(live: seq<Entry>, led: Ledger, size: int, a: int, o: Owner)
    requires Space(live, led) && size >= 0 && a > 0 && o != Nobody && All(led, a, size, o)
    ensures NoneFree(live, a, size) && Space(Given(live, size, a), Paint(led, a, size, Nobody))
  {
    hide Proper, In, Given;
    var led' := Paint(led, a, size, Nobody);
    assert NoneFree(live, a, size);
    GivenProper(live, size, a);
    forall u ensures In(Given(live, size, a), u) <==> u in led' && led'[u] == Nobody {
      GivenExact(live, size, a, u);
    }
  }

  /** Units that change hands without passing through the map. */
  lemma PassSpace(live: seq<Entry>, led: Ledger, size: int, a: int, o: Owner, o': Owner)
    requires Space(live, led) && o != Nobody && o' != Nobody && All(led, a, size, o)
    ensures Space(live, Paint(led, a, size, o'))
  {
  }

  // ------------------------------------------------------------ who holds what

  ghost function ProcCore(q: Proc): Ext {
    match q.phase
    case Loaded => Ext(q.addr, q.size)
    case Leaving(_, os, lender) => if lender < 0 then Ext(q.addr, os) else NONE
    case TextComing(a, ts) => Ext(a, ts + q.size)
    case Coming(a) => Ext(a, q.size)
    case _ => NONE
  }

  ghost function ProcSwap(q: Proc): Ext {
    match q.phase
    case Leaving(to, _, _) => Ext(to, Blocks(q.size))
    case Out => Ext(q.addr, Blocks(q.size))
    case TextComing(_, _) => Ext(q.addr, Blocks(q.size))
    case Coming(_) => Ext(q.addr, Blocks(q.size))
    case _ => NONE
  }

  ghost function CoreExt(n: Sys, o: Owner): Ext {
    match o
    case Img(p) => if p in n.procs then ProcCore(n.procs[p]) else NONE
    case Txt(t) => if t in n.texts && n.texts[t].ccount > 0 then Ext(n.texts[t].caddr, n.texts[t].size) else NONE
    case _ => NONE
  }

  ghost function SwapExt(n: Sys, o: Owner): Ext {
    match o
    case Img(p) => if p in n.procs then ProcSwap(n.procs[p]) else NONE
    case Txt(t) => if t in n.texts && n.texts[t].used then Ext(n.texts[t].daddr, Blocks(n.texts[t].size)) else NONE
    case Grave(p) => if p in n.procs && n.procs[p].grave != 0 then Ext(n.procs[p].grave, 1) else NONE
    case Nobody => NONE
  }

  ghost predicate Mine(led: Ledger, o: Owner, u: int) {
    u in led && led[u] == o
  }

  /** Each holder's units are exactly those of its extent: so extents are apart, lie in the space, and
      with the free units make it up. */
  ghost predicate CoreOwned(n: Sys) {
    forall o, u {:trigger Mine(n.cled, o, u)} :: o != Nobody ==> (Mine(n.cled, o, u) <==> Within(CoreExt(n, o), u))
  }

  ghost predicate SwapOwned(n: Sys) {
    forall o, u {:trigger Mine(n.sled, o, u)} :: o != Nobody ==> (Mine(n.sled, o, u) <==> Within(SwapExt(n, o), u))
  }

  // ------------------------------------------------------------ texts and their users

  ghost function Users(n: Sys, t: nat): set<nat> {
    set p | p in n.procs && (n.procs[p].text == t || n.procs[p].making == t)
  }

  predicate Here(q: Proc) {
    q.phase.Loaded? || q.phase.Coming?
  }

  ghost function LoadedUsers(n: Sys, t: nat): set<nat> {
    set p | p in n.procs && n.procs[p].text == t && Here(n.procs[p])
  }

  /** x_count counts the users of a text, x_ccount those that are loaded; it is in use while it has
      users, or its file is sticky. */
  ghost predicate TextOk(n: Sys, t: nat)
    requires t in n.texts
  {
    var x := n.texts[t];
    && x.count == |Users(n, t)| && x.ccount == |LoadedUsers(n, t)|
    && (x.count > 0 ==> x.used) && (x.used ==> (x.count > 0 || x.sticky) && x.size > 0)
  }

  ghost predicate ProcOk(n: Sys, p: nat)
    requires p in n.procs
  {
    var q := n.procs[p];
    && (!q.phase.NoProc? && !q.phase.Zombie? ==> q.size > 0)
    && (q.text >= 0 ==> q.text in n.texts) && (q.making >= 0 ==> q.making in n.texts)
    && (q.making >= 0 ==> q.text < 0)
    && (q.phase.NoProc? || q.phase.Zombie? ==> q.text < 0 && q.making < 0)
    && (q.grave != 0 ==> q.text < 0 && q.making < 0) && (q.phase.Zombie? ==> q.grave != 0)
    && (q.phase.NoProc? ==> q.grave == 0)
    && (q.lending ==> q.phase.Loaded?)
    && (q.phase.Leaving? ==> q.phase.os > 0)
    && (q.phase.Leaving? && q.phase.lender >= 0 ==> LentBy(n, q))
    && (q.phase.TextComing? ==>
          q.text >= 0 && q.text in n.texts && n.texts[q.text].ccount == 0 && n.texts[q.text].size == q.phase.ts)
  }

  /** A child being written out from its parent's core: the parent stays there, unchanged. */
  ghost predicate LentBy(n: Sys, q: Proc)
    requires q.phase.Leaving? && q.phase.lender >= 0
  {
    var l := q.phase.lender;
    && l in n.procs && n.procs[l].lending && n.procs[l].phase.Loaded?
    && n.procs[l].addr == q.addr && n.procs[l].size == q.phase.os == q.size
  }

  predicate Entering(q: Proc) {
    q.phase.TextComing? || q.phase.Coming?
  }

  /** There is one scheduler, and it brings in one process at a time. */
  ghost predicate OneComing(n: Sys) {
    forall p, r {:trigger n.procs[p], n.procs[r]} ::
      p in n.procs && r in n.procs && Entering(n.procs[p]) && Entering(n.procs[r]) ==> p == r
  }

  predicate Borrows(q: Proc, l: nat) {
    q.phase.Leaving? && q.phase.lender == l
  }

  /** A parent lends its core to one child at a time. */
  ghost predicate OneBorrower(n: Sys) {
    forall c, d, l: nat {:trigger Borrows(n.procs[c], l), Borrows(n.procs[d], l)} ::
      c in n.procs && d in n.procs && Borrows(n.procs[c], l) && Borrows(n.procs[d], l) ==> c == d
  }

  ghost predicate Spaces(n: Sys) {
    Space(n.core, n.cled) && Space(n.swap, n.sled) && n.cled.Keys == n.cunits && n.sled.Keys == n.sunits
  }

  ghost predicate Tables(n: Sys) {
    (forall p :: p in n.procs ==> ProcOk(n, p)) && (forall t :: t in n.texts ==> TextOk(n, t))
    && OneComing(n) && OneBorrower(n)
  }

  ghost predicate Inv(n: Sys) {
    Spaces(n) && CoreOwned(n) && SwapOwned(n) && Tables(n)
  }

  // ------------------------------------------------------------ one change at a time

  ghost predicate SameCover(x: Ext, y: Ext) {
    forall u :: Within(x, u) <==> Within(y, u)
  }

  ghost predicate Shrunk(x: Ext, x': Ext, a: int, size: int) {
    forall u :: Within(x', u) <==> Within(x, u) && !(a <= u < a + size)
  }

  ghost predicate Grown(x: Ext, x': Ext, a: int, size: int) {
    forall u :: Within(x', u) <==> Within(x, u) || a <= u < a + size
  }

  /** Units pass from `x` to `y`, in core. */
  lemma CoreMoved(n: Sys, n': Sys, a: int, size: int, x: Owner, y: Owner)
    requires CoreOwned(n) && n'.cled == Paint(n.cled, a, size, y) && x != y && All(n.cled, a, size, x)
    requires forall o :: o != x && o != y ==> SameCover(CoreExt(n, o), CoreExt(n', o))
    requires x != Nobody ==> Shrunk(CoreExt(n, x), CoreExt(n', x), a, size)
    requires y != Nobody ==> Grown(CoreExt(n, y), CoreExt(n', y), a, size)
    ensures CoreOwned(n')
  {
    forall o, u | o != Nobody ensures Mine(n'.cled, o, u) <==> Within(CoreExt(n', o), u) {
      assert Mine(n.cled, o, u) <==> Within(CoreExt(n, o), u);
      if a <= u < a + size {
        assert u in n.cled && n.cled[u] == x;
      }
      if o != x && o != y {
        assert SameCover(CoreExt(n, o), CoreExt(n', o));
      }
    }
  }

  lemma CoreSame(n: Sys, n': Sys)
    requires CoreOwned(n) && n'.cled == n.cled && forall o :: SameCover(CoreExt(n, o), CoreExt(n', o))
    ensures CoreOwned(n')
  {
    forall o, u | o != Nobody ensures Mine(n'.cled, o, u) <==> Within(CoreExt(n', o), u) {
      assert Mine(n.cled, o, u) <==> Within(CoreExt(n, o), u);
      assert SameCover(CoreExt(n, o), CoreExt(n', o));
    }
  }

  lemma SwapMoved(n: Sys, n': Sys, a: int, size: int, x: Owner, y: Owner)
    requires SwapOwned(n) && n'.sled == Paint(n.sled, a, size, y) && x != y && All(n.sled, a, size, x)
    requires forall o :: o != x && o != y ==> SameCover(SwapExt(n, o), SwapExt(n', o))
    requires x != Nobody ==> Shrunk(SwapExt(n, x), SwapExt(n', x), a, size)
    requires y != Nobody ==> Grown(SwapExt(n, y), SwapExt(n', y), a, size)
    ensures SwapOwned(n')
  {
    forall o, u | o != Nobody ensures Mine(n'.sled, o, u) <==> Within(SwapExt(n', o), u) {
      assert Mine(n.sled, o, u) <==> Within(SwapExt(n, o), u);
      if a <= u < a + size {
        assert u in n.sled && n.sled[u] == x;
      }
      if o != x && o != y {
        assert SameCover(SwapExt(n, o), SwapExt(n', o));
      }
    }
  }

  lemma SwapSame(n: Sys, n': Sys)
    requires SwapOwned(n) && n'.sled == n.sled && forall o :: SameCover(SwapExt(n, o), SwapExt(n', o))
    ensures SwapOwned(n')
  {
    forall o, u | o != Nobody ensures Mine(n'.sled, o, u) <==> Within(SwapExt(n', o), u) {
      assert Mine(n.sled, o, u) <==> Within(SwapExt(n, o), u);
      assert SameCover(SwapExt(n, o), SwapExt(n', o));
    }
  }

  /** A holder's extent is its own, throughout, and clear of address 0. */
  lemma CoreAll(n: Sys, o: Owner)
    requires CoreOwned(n) && o != Nobody
    ensures All(n.cled, CoreExt(n, o).a, CoreExt(n, o).size, o)
  {
    forall u | Within(CoreExt(n, o), u) ensures u in n.cled && n.cled[u] == o {
      assert Mine(n.cled, o, u);
    }
  }

  lemma SwapAll(n: Sys, o: Owner)
    requires SwapOwned(n) && o != Nobody
    ensures All(n.sled, SwapExt(n, o).a, SwapExt(n, o).size, o)
  {
    forall u | Within(SwapExt(n, o), u) ensures u in n.sled && n.sled[u] == o {
      assert Mine(n.sled, o, u);
    }
  }

  function One(b: bool): int {
    if b then 1 else 0
  }

  predicate Uses(q: Proc, t: nat) {
    q.text == t || q.making == t
  }

  /** When one process changes, each text gains or loses it as a user. */
  lemma UsersBy(n: Sys, n': Sys, p: nat, t: nat)
    requires p in n.procs && p in n'.procs && n'.procs == n.procs[p := n'.procs[p]]
    ensures |Users(n', t)| == |Users(n, t)| - One(Uses(n.procs[p], t)) + One(Uses(n'.procs[p], t))
    ensures |LoadedUsers(n', t)| == |LoadedUsers(n, t)| - One(n.procs[p].text == t && Here(n.procs[p]))
              + One(n'.procs[p].text == t && Here(n'.procs[p]))
  {
    OneMore(Users(n, t), Users(n', t), p);
    OneMore(LoadedUsers(n, t), LoadedUsers(n', t), p);
  }

  lemma OneMore(s: set<nat>, s': set<nat>, p: nat)
    requires forall x :: x != p ==> (x in s <==> x in s')
    ensures |s'| == |s| - One(p in s) + One(p in s')
  {
    assert s - {p} == s' - {p};
    if p in s { assert s == (s - {p}) + {p}; } else { assert s == s - {p}; }
    if p in s' { assert s' == (s' - {p}) + {p}; } else { assert s' == s' - {p}; }
  }

  /** A loaded user of a text keeps its core from being given up. */
  lemma SomeLoaded(n: Sys, p: nat)
    requires Tables(n) && p in n.procs && n.procs[p].text >= 0 && Here(n.procs[p])
    ensures n.procs[p].text in n.texts && n.texts[n.procs[p].text].ccount > 0 && n.texts[n.procs[p].text].count > 0
  {
    var t := n.procs[p].text;
    assert ProcOk(n, p) && TextOk(n, t);
    assert p in LoadedUsers(n, t) && p in Users(n, t);
  }

  /** What one process's change may do to text `t`. */
  ghost predicate TextStep(n: Sys, n': Sys, p: nat, t: nat)
    requires p in n.procs && p in n'.procs && t in n.texts
  {
    && t in n'.texts
    && var x, x' := n.texts[t], n'.texts[t];
       && x'.size == x.size
       && x'.count == x.count - One(Uses(n.procs[p], t)) + One(Uses(n'.procs[p], t))
       && x'.ccount == x.ccount - One(n.procs[p].text == t && Here(n.procs[p]))
                                + One(n'.procs[p].text == t && Here(n'.procs[p]))
       && (x'.count > 0 ==> x'.used) && (x'.used ==> (x'.count > 0 || x'.sticky) && x'.size > 0)
  }

  ghost predicate Idle(n: Sys) {
    forall p :: p in n.procs ==> !Entering(n.procs[p])
  }

  /** The tables after one process `p`, not one that lends its core, has changed. */
  lemma TablesBy(n: Sys, n': Sys, p: nat)
    requires Tables(n) && p in n.procs && p in n'.procs && n'.procs == n.procs[p := n'.procs[p]]
    requires n'.texts.Keys == n.texts.Keys && forall t :: t in n.texts ==> TextStep(n, n', p, t)
    requires ProcOk(n', p) && (n.procs[p].lending ==>
      n'.procs[p].lending && n'.procs[p].addr == n.procs[p].addr && n'.procs[p].size == n.procs[p].size)
    requires Entering(n'.procs[p]) ==> Entering(n.procs[p]) || Idle(n)
    requires forall l: nat :: Borrows(n'.procs[p], l) ==>
        Borrows(n.procs[p], l) || (l in n.procs && !n.procs[l].lending)
    requires Idle(n) || Entering(n.procs[p]) || forall t :: t in n.texts && n.texts[t].ccount == 0 ==>
        n'.texts[t].ccount == 0
    ensures Tables(n')
  {
    hide ProcOk, TextOk, TextStep, OneBorrower;
    forall r | r in n'.procs ensures ProcOk(n', r) {
      if r != p {
        OtherProc(n, n', p, r);
      }
    }
    forall t | t in n'.texts ensures TextOk(n', t) {
      TextBy(n, n', p, t);
    }
    BorrowersBy(n, n', p);
  }

  lemma BorrowersBy(n: Sys, n': Sys, p: nat)
    requires Tables(n) && p in n.procs && p in n'.procs && n'.procs == n.procs[p := n'.procs[p]]
    requires forall l: nat :: Borrows(n'.procs[p], l) ==>
        Borrows(n.procs[p], l) || (l in n.procs && !n.procs[l].lending)
    ensures OneBorrower(n')
  {
    forall c, d, l: nat | c in n'.procs && d in n'.procs && Borrows(n'.procs[c], l) && Borrows(n'.procs[d], l)
      ensures c == d
    {
      assert ProcOk(n, c) && ProcOk(n, d);
    }
  }

  lemma OtherProc(n: Sys, n': Sys, p: nat, r: nat)
    requires Tables(n) && p in n.procs && p in n'.procs && n'.procs == n.procs[p := n'.procs[p]]
    requires n'.texts.Keys == n.texts.Keys && forall t :: t in n.texts ==> TextStep(n, n', p, t)
    requires ProcOk(n', p) && (n.procs[p].lending ==>
      n'.procs[p].lending && n'.procs[p].addr == n.procs[p].addr && n'.procs[p].size == n.procs[p].size)
    requires Idle(n) || Entering(n.procs[p]) || forall t :: t in n.texts && n.texts[t].ccount == 0 ==>
        n'.texts[t].ccount == 0
    requires r in n.procs && r != p
    ensures ProcOk(n', r)
  {
    assert ProcOk(n, r);
    var q := n.procs[r];
    if q.phase.TextComing? {
      assert Entering(q);
      assert TextStep(n, n', p, q.text);
    }
  }

  lemma GoodAddress(led: Ledger, a: int, size: int, o: Owner)
    requires (forall u :: u in led ==> u > 0) && All(led, a, size, o) && size > 0
    ensures a > 0
  {
    assert a in led;
  }

  // ------------------------------------------------------------ the operations

  function Dropped(x: Text): Text {
    x.(ccount := if x.ccount != 0 then x.ccount - 1 else 0)
  }

  /** The core ledger after xccdec. */
  ghost function AfterDrop(n: Sys, t: int): (r: Ledger)
    ensures r.Keys == n.cled.Keys
  {
    if t >= 0 && t in n.texts && n.texts[t].ccount == 1 then Paint(n.cled, n.texts[t].caddr, n.texts[t].size, Nobody)
    else n.cled
  }

  ghost predicate Running(n: Sys, p: nat) {
    p in n.procs && n.procs[p].phase.Loaded? && !n.procs[p].lending
  }

  /** xswap up to its wait, of a process in core, perhaps with a new size to come back with. */
  ghost predicate LeaveStep(n: Sys, n': Sys, p: nat, to: int, size: int) {
    && Running(n, p) && size > 0 && All(n.sled, to, Blocks(size), Nobody)
    && var q := n.procs[p];
       n' == n.(procs := n.procs[p := q.(phase := Leaving(to, q.size, -1), size := size)],
                texts := if q.text >= 0 && q.text in n.texts
                         then n.texts[q.text := Dropped(n.texts[q.text])] else n.texts,
                core := n'.core, cled := AfterDrop(n, q.text),
                swap := n'.swap, sled := Paint(n.sled, to, Blocks(size), Img(p)))
  }

  lemma LeaveKeeps(n: Sys, n': Sys, p: nat, to: int, size: int)
    requires Inv(n) && LeaveStep(n, n', p, to, size) && Spaces(n')
    ensures Inv(n')
  {
    hide Spaces, Tables, CoreOwned, SwapOwned, Paint, All;
    LeaveTables(n, n', p, to, size);
    LeaveCore(n, n', p, to, size);
    LeaveSwap(n, n', p, to, size);
  }

  lemma LeaveSwap(n: Sys, n': Sys, p: nat, to: int, size: int)
    requires SwapOwned(n) && LeaveStep(n, n', p, to, size)
    ensures SwapOwned(n')
  {
    hide SwapOwned, Paint, All;
    SwapMoved(n, n', to, Blocks(size), Nobody, Img(p));
  }

  lemma LeaveCore(n: Sys, n': Sys, p: nat, to: int, size: int)
    requires CoreOwned(n) && Tables(n) && LeaveStep(n, n', p, to, size)
    ensures CoreOwned(n')
  {
    hide CoreOwned, Tables, Paint, All;
    var t := n.procs[p].text;
    if t >= 0 && t in n.texts && n.texts[t].ccount == 1 {
      CoreAll(n, Txt(t));
      CoreMoved(n, n', n.texts[t].caddr, n.texts[t].size, Txt(t), Nobody);
    } else {
      CoreSame(n, n');
    }
  }

  lemma LeaveTables(n: Sys, n': Sys, p: nat, to: int, size: int)
    requires Tables(n) && LeaveStep(n, n', p, to, size)
    ensures Tables(n')
  {
    hide All, Paint, Tables;
    ProcAt(n, p);
    forall t | t in n.texts ensures TextStep(n, n', p, t) {
      LeaveText(n, n', p, to, size, t);
    }
    TablesBy(n, n', p);
  }

  lemma LeaveText(n: Sys, n': Sys, p: nat, to: int, size: int, t: nat)
    requires Tables(n) && LeaveStep(n, n', p, to, size) && t in n.texts
    ensures TextStep(n, n', p, t)
  {
    hide All, Paint, Tables;
    ProcAt(n, p);
    TextAt(n, t);
    if n.procs[p].text >= 0 {
      SomeLoaded(n, p);
    }
  }

  /** The end of xswap: the image is out; its core is free, or its parent's again. */
  ghost predicate GoneStep(n: Sys, n': Sys, p: nat) {
    && p in n.procs && n.procs[p].phase.Leaving?
    && var q, l := n.procs[p], n.procs[p].phase.lender;
       var procs := n.procs[p := q.(phase := Out, addr := q.phase.to)];
       n' == n.(procs := if l >= 0 && l in procs then procs[l := procs[l].(lending := false)] else procs,
                core := n'.core, cled := if l < 0 then Paint(n.cled, q.addr, q.phase.os, Nobody) else n.cled)
  }

  lemma GoneKeeps(n: Sys, n': Sys, p: nat)
    requires Inv(n) && GoneStep(n, n', p) && Spaces(n')
    ensures Inv(n')
  {
    hide Spaces, Tables, CoreOwned, SwapOwned, Paint, All;
    assert ProcOk(n, p) by { ProcAt(n, p); }
    GoneTables(n, n', p);
    if n.procs[p].phase.lender < 0 {
      CoreAll(n, Img(p));
      CoreMoved(n, n', n.procs[p].addr, n.procs[p].phase.os, Img(p), Nobody);
    } else {
      CoreSame(n, n');
    }
    SwapSame(n, n');
  }

  lemma ProcAt(n: Sys, p: nat)
    requires Tables(n) && p in n.procs
    ensures ProcOk(n, p)
  {
  }

  lemma GoneTables(n: Sys, n': Sys, p: nat)
    requires Tables(n) && GoneStep(n, n', p)
    ensures Tables(n')
  {
    hide Paint;
    ProcAt(n, p);
    var q, l := n.procs[p], n.procs[p].phase.lender;
    var m := n.(procs := n.procs[p := q.(phase := Out, addr := q.phase.to)]);
    forall t | t in n.texts ensures TextStep(n, m, p, t) {
      assert TextOk(n, t);
    }
    if l >= 0 {
      assert Borrows(q, l);
    }
    TablesBy(n, m, p);
    if l >= 0 {
      forall c | c in m.procs ensures !Borrows(m.procs[c], l) {
        assert c != p ==> !Borrows(n.procs[c], l);
      }
      Unlent(m, n', l);
    } else {
      SameTables(m, n');
    }
  }

  lemma SameTables(m: Sys, n': Sys)
    requires Tables(m) && n'.procs == m.procs && n'.texts == m.texts
    ensures Tables(n')
  {
    forall r | r in n'.procs ensures ProcOk(n', r) {
      assert ProcOk(m, r);
    }
    forall t | t in n'.texts ensures TextOk(n', t) {
      assert TextOk(m, t) && Users(n', t) == Users(m, t) && LoadedUsers(n', t) == LoadedUsers(m, t);
    }
  }

  /** With its child's image written, the parent is a process like any other. */
  lemma Unlent(m: Sys, n': Sys, l: nat)
    requires Tables(m) && l in m.procs && forall c :: c in m.procs ==> !Borrows(m.procs[c], l)
    requires n'.procs == m.procs[l := m.procs[l].(lending := false)] && n'.texts == m.texts
    ensures Tables(n')
  {
    hide OneComing, OneBorrower, TextOk, Tables;
    forall r | r in n'.procs ensures ProcOk(n', r) {
      ProcAt(m, r);
      assert !Borrows(m.procs[r], l);
    }
    LendingOnly(m, n', l);
    TablesFrom(n');
  }

  /** sched's start on process `p`: core for the image, and for the text if nobody has it in core. */
  ghost predicate InStep(n: Sys, n': Sys, p: nat, a: int) {
    && Idle(n) && p in n.procs && n.procs[p].phase.Out?
    && var q, t := n.procs[p], n.procs[p].text;
       var ts := if t >= 0 && t in n.texts && n.texts[t].ccount == 0 then n.texts[t].size else 0;
       All(n.cled, a, ts + q.size, Nobody) &&
       n' == n.(procs := n.procs[p := q.(phase := if ts > 0 then TextComing(a, ts) else Coming(a))],
                texts := if t >= 0 && t in n.texts && ts == 0
                         then n.texts[t := n.texts[t].(ccount := n.texts[t].ccount + 1)] else n.texts,
                core := n'.core, cled := Paint(n.cled, a, ts + q.size, Img(p)))
  }

  lemma InKeeps(n: Sys, n': Sys, p: nat, a: int)
    requires Inv(n) && InStep(n, n', p, a) && Spaces(n')
    ensures Inv(n')
  {
    hide Spaces, Tables, CoreOwned, SwapOwned, Paint, All;
    ProcAt(n, p);
    InTables(n, n', p, a);
    var t := n.procs[p].text;
    var ts := if t >= 0 && t in n.texts && n.texts[t].ccount == 0 then n.texts[t].size else 0;
    if t >= 0 { TextAt(n, t); }
    CoreMoved(n, n', a, ts + n.procs[p].size, Nobody, Img(p));
    SwapSame(n, n');
  }

  lemma TextAt(n: Sys, t: nat)
    requires Tables(n) && t in n.texts
    ensures TextOk(n, t)
    ensures n.texts[t].ccount > 0 ==> n.texts[t].count > 0 && n.texts[t].used && n.texts[t].size > 0
    ensures n.texts[t].ccount >= 0 && n.texts[t].count >= 0
    ensures forall p :: p in n.procs && Uses(n.procs[p], t) ==> n.texts[t].count > 0
  {
    assert TextOk(n, t);
    if n.texts[t].ccount > 0 {
      var p :| p in LoadedUsers(n, t);
      assert p in Users(n, t);
    }
    forall p | p in n.procs && Uses(n.procs[p], t) ensures n.texts[t].count > 0 {
      assert p in Users(n, t);
    }
  }

  lemma InTables(n: Sys, n': Sys, p: nat, a: int)
    requires Tables(n) && InStep(n, n', p, a)
    ensures Tables(n')
  {
    hide Paint, All, Tables;
    ProcAt(n, p);
    forall t | t in n.texts ensures TextStep(n, n', p, t) {
      TextAt(n, t);
    }
    TablesBy(n, n', p);
  }

  /** The text is in: it has its core, the rest is for the image. */
  ghost predicate TextInStep(n: Sys, n': Sys, p: nat) {
    && p in n.procs && n.procs[p].phase.TextComing? && n.procs[p].text >= 0 && n.procs[p].text in n.texts
    && var q, t := n.procs[p], n.procs[p].text;
       var a, ts := q.phase.a, q.phase.ts;
       n' == n.(procs := n.procs[p := q.(phase := Coming(a + ts))],
                texts := n.texts[t := n.texts[t].(caddr := a, ccount := n.texts[t].ccount + 1)],
                cled := Paint(n.cled, a, ts, Txt(t)))
  }

  lemma TextInKeeps(n: Sys, n': Sys, p: nat)
    requires Inv(n) && TextInStep(n, n', p) && Spaces(n')
    ensures Inv(n')
  {
    hide Spaces, Tables, CoreOwned, SwapOwned, Paint;
    ProcAt(n, p);
    TextInTables(n, n', p);
    var q := n.procs[p];
    TextAt(n, q.text);
    CoreAll(n, Img(p));
    CoreMoved(n, n', q.phase.a, q.phase.ts, Img(p), Txt(q.text));
    SwapSame(n, n');
  }

  lemma TextInTables(n: Sys, n': Sys, p: nat)
    requires Tables(n) && TextInStep(n, n', p)
    ensures Tables(n')
  {
    hide Paint, Tables;
    ProcAt(n, p);
    forall t | t in n.texts ensures TextStep(n, n', p, t) {
      TextAt(n, t);
    }
    TablesBy(n, n', p);
  }

  /** The image is in: its swap space is free. */
  ghost predicate ImageInStep(n: Sys, n': Sys, p: nat) {
    && p in n.procs && n.procs[p].phase.Coming?
    && var q := n.procs[p];
       n' == n.(procs := n.procs[p := q.(phase := Loaded, addr := q.phase.a)],
                swap := n'.swap, sled := Paint(n.sled, q.addr, Blocks(q.size), Nobody))
  }

  lemma ImageInKeeps(n: Sys, n': Sys, p: nat)
    requires Inv(n) && ImageInStep(n, n', p) && Spaces(n')
    ensures Inv(n')
  {
    hide Spaces, Tables, CoreOwned, SwapOwned, Paint, All;
    ProcAt(n, p);
    ImageInTables(n, n', p);
    CoreSame(n, n');
    SwapAll(n, Img(p));
    SwapMoved(n, n', n.procs[p].addr, Blocks(n.procs[p].size), Img(p), Nobody);
  }

  lemma ImageInTables(n: Sys, n': Sys, p: nat)
    requires Tables(n) && ImageInStep(n, n', p)
    ensures Tables(n')
  {
    hide Paint;
    ProcAt(n, p);
    forall t | t in n.texts ensures TextStep(n, n', p, t) {
      TextAt(n, t);
    }
    TablesBy(n, n', p);
  }

  // ------------------------------------------------------------ expand

  ghost predicate ShrinkStep(n: Sys, n': Sys, p: nat, size: int) {
    && Running(n, p) && 0 < size <= n.procs[p].size
    && var q := n.procs[p];
       n' == n.(procs := n.procs[p := q.(size := size)],
                core := n'.core, cled := Paint(n.cled, q.addr + size, q.size - size, Nobody))
  }

  lemma ShrinkKeeps(n: Sys, n': Sys, p: nat, size: int)
    requires Inv(n) && ShrinkStep(n, n', p, size) && Spaces(n')
    ensures Inv(n')
  {
    hide Spaces, Tables, CoreOwned, SwapOwned, Paint;
    SizeTables(n, n', p);
    CoreAll(n, Img(p));
    CoreMoved(n, n', n.procs[p].addr + size, n.procs[p].size - size, Img(p), Nobody);
    SwapSame(n, n');
  }

  lemma SizeTables(n: Sys, n': Sys, p: nat)
    requires Tables(n) && Running(n, p) && p in n'.procs && n'.procs == n.procs[p := n'.procs[p]] && n'.texts == n.texts
    requires n'.procs[p].size > 0 && n'.procs[p] == n.procs[p].(addr := n'.procs[p].addr, size := n'.procs[p].size)
    ensures Tables(n')
  {
    ProcAt(n, p);
    forall t | t in n.texts ensures TextStep(n, n', p, t) {
      TextAt(n, t);
    }
    TablesBy(n, n', p);
  }

  ghost predicate GrowStep(n: Sys, n': Sys, p: nat, size: int, a: int) {
    && Running(n, p) && size > 0 && All(n.cled, a, size, Nobody)
    && var q := n.procs[p];
       n' == n.(procs := n.procs[p := q.(size := size, addr := a)],
                core := n'.core, cled := Paint(Paint(n.cled, a, size, Img(p)), q.addr, q.size, Nobody))
  }

  lemma GrowKeeps(n: Sys, n': Sys, p: nat, size: int, a: int)
    requires Inv(n) && GrowStep(n, n', p, size, a) && Spaces(n')
    ensures Inv(n')
  {
    hide Spaces, Tables, CoreOwned, SwapOwned;
    SizeTables(n, n', p);
    var q := n.procs[p];
    CoreAll(n, Img(p));
    var m := n.(procs := n.procs[p := q.(phase := Out)], cled := Paint(n.cled, q.addr, q.size, Nobody));
    CoreMoved(n, m, q.addr, q.size, Img(p), Nobody);
    PaintApart(n.cled, a, size, q.addr, q.size, Img(p));
    CoreMoved(m, n', a, size, Nobody, Img(p));
    SwapSame(n, n');
  }

  lemma PaintApart(led: Ledger, a: int, size: int, b: int, was: int, o: Owner)
    requires o != Nobody && All(led, a, size, Nobody) && All(led, b, was, o)
    ensures Paint(Paint(led, a, size, o), b, was, Nobody) == Paint(Paint(led, b, was, Nobody), a, size, o)
    ensures All(Paint(led, b, was, Nobody), a, size, Nobody)
    ensures All(Paint(led, a, size, o), b, was, o)
  {
    forall u | u in led && a <= u < a + size ensures !(b <= u < b + was) {
      assert led[u] == Nobody;
    }
  }

  // ------------------------------------------------------------ newproc

  ghost predicate ForkStep(n: Sys, n': Sys, p: nat, c: nat, a: int) {
    && Running(n, p) && c in n.procs && n.procs[c].phase.NoProc? && n.procs[p].making < 0 && n.procs[p].grave == 0
    && All(n.cled, a, n.procs[p].size, Nobody)
    && var q, t := n.procs[p], n.procs[p].text;
       n' == n.(procs := n.procs[c := Proc(Loaded, a, q.size, t, -1, false, 0)],
                texts := if t >= 0 && t in n.texts
                         then n.texts[t := n.texts[t].(count := n.texts[t].count + 1, ccount := n.texts[t].ccount + 1)]
                         else n.texts,
                core := n'.core, cled := Paint(n.cled, a, q.size, Img(c)))
  }

  lemma ForkKeeps(n: Sys, n': Sys, p: nat, c: nat, a: int)
    requires Inv(n) && ForkStep(n, n', p, c, a) && Spaces(n')
    ensures Inv(n')
  {
    hide Spaces, Tables, CoreOwned, SwapOwned, Paint, All;
    ForkTables(n, n', p, c, a);
    ProcAt(n, p);
    ProcAt(n, c);
    if n.procs[p].text >= 0 { SomeLoaded(n, p); }
    CoreMoved(n, n', a, n.procs[p].size, Nobody, Img(c));
    SwapSame(n, n');
  }

  lemma ForkTables(n: Sys, n': Sys, p: nat, c: nat, a: int)
    requires Tables(n) && ForkStep(n, n', p, c, a)
    ensures Tables(n')
  {
    hide All, Paint, Tables;
    ProcAt(n, p);
    ProcAt(n, c);
    if n.procs[p].text >= 0 { SomeLoaded(n, p); }
    forall t | t in n.texts ensures TextStep(n, n', c, t) {
      TextAt(n, t);
    }
    TablesBy(n, n', c);
  }

  /** No core for the child: it is made by writing the parent out as the child's image. */
  ghost predicate ForkOutStep(n: Sys, n': Sys, p: nat, c: nat, to: int) {
    && Running(n, p) && c in n.procs && n.procs[c].phase.NoProc? && n.procs[p].making < 0 && n.procs[p].grave == 0
    && All(n.sled, to, Blocks(n.procs[p].size), Nobody)
    && var q, t := n.procs[p], n.procs[p].text;
       n' == n.(procs := n.procs[c := Proc(Leaving(to, q.size, p), q.addr, q.size, t, -1, false, 0)]
                                [p := q.(lending := true)],
                texts := if t >= 0 && t in n.texts
                         then n.texts[t := n.texts[t].(count := n.texts[t].count + 1)] else n.texts,
                swap := n'.swap, sled := Paint(n.sled, to, Blocks(q.size), Img(c)))
  }

  lemma ForkOutKeeps(n: Sys, n': Sys, p: nat, c: nat, to: int)
    requires Inv(n) && ForkOutStep(n, n', p, c, to) && Spaces(n')
    ensures Inv(n')
  {
    hide Spaces, Tables, CoreOwned, SwapOwned, Paint, All;
    ForkOutTables(n, n', p, c, to);
    ProcAt(n, c);
    if n.procs[p].text >= 0 { SomeLoaded(n, p); }
    CoreSame(n, n');
    SwapMoved(n, n', to, Blocks(n.procs[p].size), Nobody, Img(c));
  }

  /** The parent starts to lend its core; nobody borrows it yet. */
  lemma Lent(n: Sys, m: Sys, p: nat)
    requires Tables(n) && Running(n, p) && m.procs == n.procs[p := n.procs[p].(lending := true)] && m.texts == n.texts
    ensures Tables(m) && forall c :: c in m.procs ==> !Borrows(m.procs[c], p)
  {
    hide OneComing, OneBorrower, TextOk, Tables;
    forall c | c in n.procs ensures !Borrows(n.procs[c], p) {
      ProcAt(n, c);
    }
    forall r | r in m.procs ensures ProcOk(m, r) {
      ProcAt(n, r);
    }
    LendingOnly(n, m, p);
    TablesFrom(m);
  }

  lemma TablesFrom(n: Sys)
    requires (forall p :: p in n.procs ==> ProcOk(n, p)) && (forall t :: t in n.texts ==> TextOk(n, t))
    requires OneComing(n) && OneBorrower(n)
    ensures Tables(n)
  {
  }

  /** Lending or not makes no difference to the texts, nor to who borrows or comes in. */
  lemma LendingOnly(n: Sys, m: Sys, p: nat)
    requires Tables(n) && p in n.procs && m.texts == n.texts
    requires exists b :: m.procs == n.procs[p := n.procs[p].(lending := b)]
    ensures (forall t :: t in m.texts ==> TextOk(m, t)) && OneComing(m) && OneBorrower(m)
  {
    hide ProcOk;
    forall t | t in m.texts ensures TextOk(m, t) {
      assert TextOk(n, t);
      UsersBy(n, m, p, t);
    }
    forall c, d, k: nat | c in m.procs && d in m.procs && Borrows(m.procs[c], k) && Borrows(m.procs[d], k)
      ensures c == d
    {
      assert Borrows(n.procs[c], k) && Borrows(n.procs[d], k);
    }
  }

  lemma ForkOutTables(n: Sys, n': Sys, p: nat, c: nat, to: int)
    requires Tables(n) && ForkOutStep(n, n', p, c, to)
    ensures Tables(n')
  {
    hide All, Paint, Tables;
    ProcAt(n, p);
    ProcAt(n, c);
    if n.procs[p].text >= 0 { SomeLoaded(n, p); }
    var m := n.(procs := n.procs[p := n.procs[p].(lending := true)]);
    Lent(n, m, p);
    forall t | t in m.texts ensures TextStep(m, n', c, t) {
      TextAt(n, t);
    }
    assert n'.procs == m.procs[c := n'.procs[c]];
    LendTables(m, n', p, c);
  }

  /** The child that borrows is the only one. */
  lemma LendTables(m: Sys, n': Sys, p: nat, c: nat)
    requires Tables(m) && c in m.procs && p in m.procs && p != c && m.procs[p].lending && m.procs[c].phase.NoProc?
    requires forall d :: d in m.procs ==> !Borrows(m.procs[d], p)
    requires c in n'.procs && n'.procs == m.procs[c := n'.procs[c]] && ProcOk(n', c)
    requires n'.procs[c].phase.Leaving? && n'.procs[c].phase.lender == p
    requires n'.texts.Keys == m.texts.Keys
    requires forall t :: t in m.texts ==> TextStep(m, n', c, t) && m.texts[t].ccount == n'.texts[t].ccount
    ensures Tables(n')
  {
    hide OneBorrower, OneComing, Tables, ProcOk, TextOk, TextStep;
    forall r | r in n'.procs ensures ProcOk(n', r) {
      if r != c {
        LendOther(m, n', c, r);
      }
    }
    forall t | t in n'.texts ensures TextOk(n', t) {
      TextBy(m, n', c, t);
    }
    TablesParts(m);
    LendBorrowers(m, n', p, c);
    TablesFrom(n');
  }

  lemma TablesParts(n: Sys)
    requires Tables(n)
    ensures OneComing(n) && OneBorrower(n)
  {
  }

  lemma TextBy(n: Sys, n': Sys, p: nat, t: nat)
    requires Tables(n) && p in n.procs && p in n'.procs && n'.procs == n.procs[p := n'.procs[p]]
    requires t in n.texts && TextStep(n, n', p, t)
    ensures TextOk(n', t)
  {
    assert TextOk(n, t);
    UsersBy(n, n', p, t);
  }

  lemma LendOther(m: Sys, n': Sys, c: nat, r: nat)
    requires Tables(m) && c in m.procs && m.procs[c].phase.NoProc? && c in n'.procs && ProcOk(n', c)
    requires n'.procs == m.procs[c := n'.procs[c]] && r in m.procs && r != c && n'.texts.Keys == m.texts.Keys
    requires forall t :: t in m.texts ==> TextStep(m, n', c, t) && m.texts[t].ccount == n'.texts[t].ccount
    ensures ProcOk(n', r)
  {
    ProcAt(m, c);
    OtherProc(m, n', c, r);
  }

  lemma LendBorrowers(m: Sys, n': Sys, p: nat, c: nat)
    requires OneBorrower(m) && c in m.procs && c in n'.procs && n'.procs == m.procs[c := n'.procs[c]]
    requires forall d :: d in m.procs ==> !Borrows(m.procs[d], p)
    requires n'.procs[c].phase.Leaving? && n'.procs[c].phase.lender == p && OneComing(m)
    ensures OneBorrower(n') && OneComing(n')
  {
    forall d, e, k: nat | d in n'.procs && e in n'.procs && Borrows(n'.procs[d], k) && Borrows(n'.procs[e], k)
      ensures d == e
    {
      if d != c && e != c {
        assert Borrows(m.procs[d], k) && Borrows(m.procs[e], k);
      }
    }
  }

  // ------------------------------------------------------------ shared text

  /** xfree: process `p` gives up its text; the last user of a text that is not sticky takes it away. */
  ghost predicate FreeTextStep(n: Sys, n': Sys, p: nat) {
    && Running(n, p) && n.procs[p].text >= 0 && n.procs[p].text in n.texts
    && var q, t := n.procs[p], n.procs[p].text;
       var x := Dropped(n.texts[t]).(count := n.texts[t].count - 1);
       var gone := x.count == 0 && !x.sticky;
       n' == n.(procs := n.procs[p := q.(text := -1)], texts := n.texts[t := x.(used := x.used && !gone)],
                core := n'.core, cled := AfterDrop(n, t),
                swap := n'.swap, sled := if gone then Paint(n.sled, x.daddr, Blocks(x.size), Nobody) else n.sled)
  }

  lemma FreeTextKeeps(n: Sys, n': Sys, p: nat)
    requires Inv(n) && FreeTextStep(n, n', p) && Spaces(n')
    ensures Inv(n')
  {
    hide Spaces, Tables, CoreOwned, SwapOwned, Paint, All;
    FreeTextTables(n, n', p);
    FreeTextCore(n, n', p);
    SomeLoaded(n, p);
    var t := n.procs[p].text;
    TextAt(n, t);
    SwapAll(n, Txt(t));
    if n.texts[t].count == 1 && !n.texts[t].sticky {
      SwapMoved(n, n', n.texts[t].daddr, Blocks(n.texts[t].size), Txt(t), Nobody);
    } else {
      SwapSame(n, n');
    }
  }

  lemma FreeTextCore(n: Sys, n': Sys, p: nat)
    requires CoreOwned(n) && Tables(n) && FreeTextStep(n, n', p)
    ensures CoreOwned(n')
  {
    hide CoreOwned, Tables, Paint, All;
    var t := n.procs[p].text;
    if n.texts[t].ccount == 1 {
      CoreAll(n, Txt(t));
      CoreMoved(n, n', n.texts[t].caddr, n.texts[t].size, Txt(t), Nobody);
    } else {
      CoreSame(n, n');
    }
  }

  lemma FreeTextTables(n: Sys, n': Sys, p: nat)
    requires Tables(n) && FreeTextStep(n, n', p)
    ensures Tables(n')
  {
    hide Paint, Tables;
    ProcAt(n, p);
    SomeLoaded(n, p);
    forall t | t in n.texts ensures TextStep(n, n', p, t) {
      TextAt(n, t);
    }
    TablesBy(n, n', p);
  }

  /** xalloc finds the text in core. */
  ghost predicate AttachStep(n: Sys, n': Sys, p: nat, t: nat) {
    && Running(n, p) && n.procs[p].text < 0 && n.procs[p].grave == 0 && t in n.texts && n.texts[t].ccount > 0
    && (n.procs[p].making == t || n.procs[p].making < 0)
    && var q, x := n.procs[p], n.texts[t];
       n' == n.(procs := n.procs[p := q.(text := t, making := -1)],
                texts := n.texts[t := x.(count := x.count + One(q.making != t), ccount := x.ccount + 1)])
  }

  lemma AttachKeeps(n: Sys, n': Sys, p: nat, t: nat)
    requires Inv(n) && AttachStep(n, n', p, t)
    ensures Inv(n')
  {
    hide Tables, CoreOwned, SwapOwned, Space;
    ProcAt(n, p);
    TextAt(n, t);
    AttachTables(n, n', p, t);
    CoreSame(n, n');
    SwapSame(n, n');
  }

  lemma AttachTables(n: Sys, n': Sys, p: nat, t: nat)
    requires Tables(n) && AttachStep(n, n', p, t)
    ensures Tables(n')
  {
    hide Tables;
    ProcAt(n, p);
    forall s | s in n.texts ensures TextStep(n, n', p, s) {
      TextAt(n, s);
    }
    TablesBy(n, n', p);
  }

  /** xalloc finds the text out of core: the process swaps itself out, to come back with it. */
  ghost predicate AttachOutStep(n: Sys, n': Sys, p: nat, t: nat, to: int) {
    && Running(n, p) && n.procs[p].text < 0 && n.procs[p].grave == 0 && t in n.texts && n.texts[t].ccount == 0
    && n.texts[t].used && (n.procs[p].making == t || n.procs[p].making < 0)
    && All(n.sled, to, Blocks(n.procs[p].size), Nobody)
    && var q, x := n.procs[p], n.texts[t];
       n' == n.(procs := n.procs[p := q.(text := t, making := -1, phase := Leaving(to, q.size, -1))],
                texts := n.texts[t := x.(count := x.count + One(q.making != t))],
                swap := n'.swap, sled := Paint(n.sled, to, Blocks(q.size), Img(p)))
  }

  lemma AttachOutKeeps(n: Sys, n': Sys, p: nat, t: nat, to: int)
    requires Inv(n) && AttachOutStep(n, n', p, t, to) && Spaces(n')
    ensures Inv(n')
  {
    hide Spaces, Tables, CoreOwned, SwapOwned, Paint, All;
    AttachOutTables(n, n', p, t, to);
    CoreSame(n, n');
    SwapMoved(n, n', to, Blocks(n.procs[p].size), Nobody, Img(p));
  }

  lemma AttachOutTables(n: Sys, n': Sys, p: nat, t: nat, to: int)
    requires Tables(n) && AttachOutStep(n, n', p, t, to)
    ensures Tables(n')
  {
    hide All, Paint, Tables;
    ProcAt(n, p);
    forall s | s in n.texts ensures TextStep(n, n', p, s) {
      TextAt(n, s);
    }
    TablesBy(n, n', p);
  }

  /** xalloc sets up a text nobody has: one user, none loaded, room on the swap device. */
  ghost predicate NewTextStep(n: Sys, n': Sys, p: nat, t: nat, ts: int, sticky: bool, daddr: int) {
    && Running(n, p) && n.procs[p].text < 0 && n.procs[p].making < 0 && n.procs[p].grave == 0
    && t in n.texts && !n.texts[t].used && ts > 0 && All(n.sled, daddr, Blocks(ts), Nobody)
    && n' == n.(procs := n.procs[p := n.procs[p].(making := t)],
                texts := n.texts[t := Text(true, sticky, 1, 0, n.texts[t].caddr, daddr, ts)],
                swap := n'.swap, sled := Paint(n.sled, daddr, Blocks(ts), Txt(t)))
  }

  lemma NewTextKeeps(n: Sys, n': Sys, p: nat, t: nat, ts: int, sticky: bool, daddr: int)
    requires Inv(n) && NewTextStep(n, n', p, t, ts, sticky, daddr) && Spaces(n')
    ensures Inv(n')
  {
    hide Spaces, Tables, CoreOwned, SwapOwned, Paint, All;
    NewTextTables(n, n', p, t, ts, sticky, daddr);
    TextAt(n, t);
    CoreSame(n, n');
    SwapMoved(n, n', daddr, Blocks(ts), Nobody, Txt(t));
  }

  lemma NewTextTables(n: Sys, n': Sys, p: nat, t: nat, ts: int, sticky: bool, daddr: int)
    requires Tables(n) && NewTextStep(n, n', p, t, ts, sticky, daddr)
    ensures Tables(n')
  {
    hide All, Paint, Tables;
    ProcAt(n, p);
    TextAt(n, t);
    var m := n.(texts := n.texts[t := Text(false, sticky, 0, 0, n.texts[t].caddr, daddr, ts)]);
    Renamed(n, m, t);
    forall s | s in n.texts ensures TextStep(m, n', p, s) {
      TextAt(n, s);
    }
    TablesBy(m, n', p);
  }

  /** An unused text slot's contents do not matter. */
  lemma Renamed(n: Sys, m: Sys, t: nat)
    requires Tables(n) && t in n.texts && !n.texts[t].used && m.procs == n.procs && t in m.texts
    requires m.texts == n.texts[t := m.texts[t]] && !m.texts[t].used && m.texts[t].count == 0 && m.texts[t].ccount == 0
    ensures Tables(m)
  {
    TextAt(n, t);
    forall r | r in m.procs ensures ProcOk(m, r) {
      assert ProcOk(n, r);
    }
    forall s | s in m.texts ensures TextOk(m, s) {
      assert TextOk(n, s) && Users(m, s) == Users(n, s) && LoadedUsers(m, s) == LoadedUsers(n, s);
    }
  }

  // ------------------------------------------------------------ exit and wait

  /** exit has given up its text and got a block of swap for its u area. */
  ghost predicate GraveStep(n: Sys, n': Sys, p: nat, a: int) {
    && Running(n, p) && n.procs[p].text < 0 && n.procs[p].making < 0 && n.procs[p].grave == 0
    && a > 0 && All(n.sled, a, 1, Nobody)
    && n' == n.(procs := n.procs[p := n.procs[p].(grave := a)],
                swap := n'.swap, sled := Paint(n.sled, a, 1, Grave(p)))
  }

  lemma GraveKeeps(n: Sys, n': Sys, p: nat, a: int)
    requires Inv(n) && GraveStep(n, n', p, a) && Spaces(n')
    ensures Inv(n')
  {
    hide Spaces, Tables, CoreOwned, SwapOwned, Paint, All;
    GraveTables(n, n', p);
    CoreSame(n, n');
    SwapMoved(n, n', a, 1, Nobody, Grave(p));
  }

  lemma GraveTables(n: Sys, n': Sys, p: nat)
    requires Tables(n) && Running(n, p) && n.procs[p].text < 0 && n.procs[p].making < 0
    requires p in n'.procs && n'.procs == n.procs[p := n.procs[p].(grave := n'.procs[p].grave)] && n'.texts == n.texts
    ensures Tables(n')
  {
    ProcAt(n, p);
    forall t | t in n.texts ensures TextStep(n, n', p, t) {
      TextAt(n, t);
    }
    TablesBy(n, n', p);
  }

  /** exit lets go of its core: a zombie. */
  ghost predicate DieStep(n: Sys, n': Sys, p: nat) {
    && Running(n, p) && n.procs[p].grave != 0
    && var q := n.procs[p];
       n' == n.(procs := n.procs[p := q.(phase := Zombie, addr := q.grave)],
                core := n'.core, cled := Paint(n.cled, q.addr, q.size, Nobody))
  }

  lemma DieKeeps(n: Sys, n': Sys, p: nat)
    requires Inv(n) && DieStep(n, n', p) && Spaces(n')
    ensures Inv(n')
  {
    hide Spaces, Tables, CoreOwned, SwapOwned, Paint, All;
    DieTables(n, n', p);
    CoreAll(n, Img(p));
    CoreMoved(n, n', n.procs[p].addr, n.procs[p].size, Img(p), Nobody);
    SwapSame(n, n');
  }

  lemma DieTables(n: Sys, n': Sys, p: nat)
    requires Tables(n) && DieStep(n, n', p)
    ensures Tables(n')
  {
    hide Paint;
    ProcAt(n, p);
    forall t | t in n.texts ensures TextStep(n, n', p, t) {
      TextAt(n, t);
    }
    TablesBy(n, n', p);
  }

  /** wait: the zombie's block is free, and its slot. */
  ghost predicate ReapStep(n: Sys, n': Sys, p: nat) {
    && p in n.procs && n.procs[p].phase.Zombie?
    && n' == n.(procs := n.procs[p := n.procs[p].(phase := NoProc, grave := 0)],
                swap := n'.swap, sled := Paint(n.sled, n.procs[p].grave, 1, Nobody))
  }

  lemma ReapKeeps(n: Sys, n': Sys, p: nat)
    requires Inv(n) && ReapStep(n, n', p) && Spaces(n')
    ensures Inv(n')
  {
    hide Spaces, Tables, CoreOwned, SwapOwned, Paint, All;
    ProcAt(n, p);
    ReapTables(n, n', p);
    CoreSame(n, n');
    SwapAll(n, Grave(p));
    SwapMoved(n, n', n.procs[p].grave, 1, Grave(p), Nobody);
  }

  lemma ReapTables(n: Sys, n': Sys, p: nat)
    requires Tables(n) && ReapStep(n, n', p)
    ensures Tables(n')
  {
    hide Paint;
    ProcAt(n, p);
    forall t | t in n.texts ensures TextStep(n, n', p, t) {
      TextAt(n, t);
    }
    TablesBy(n, n', p);
  }

  // ------------------------------------------------------------ what it comes to

  ghost predicate OtherUser(n: Sys, p: nat, t: nat) {
    exists r :: r in n.procs && r != p && Uses(n.procs[r], t)
  }

  ghost predicate OtherLoaded(n: Sys, p: nat, t: nat) {
    exists r :: r in n.procs && r != p && n.procs[r].text == t && Here(n.procs[r])
  }

  /** xfree: a text with other users, or a sticky one, keeps its copy on the swap device, and otherwise those
      blocks are free; its core is free unless another user is loaded. */
  lemma TextOutlives(n: Sys, n': Sys, p: nat)
    requires Inv(n) && Inv(n') && FreeTextStep(n, n', p)
    ensures var t := n.procs[p].text;
      && n.texts[t].used && t in n'.texts
      && (n'.texts[t].used <==> n.texts[t].sticky || OtherUser(n, p, t))
      && (n'.texts[t].used ==> SwapExt(n', Txt(t)) == SwapExt(n, Txt(t)))
      && (!n'.texts[t].used ==> forall u :: Within(SwapExt(n, Txt(t)), u) ==> In(n'.swap, u))
      && (OtherLoaded(n, p, t) ==> CoreExt(n', Txt(t)) == CoreExt(n, Txt(t)))
      && (!OtherLoaded(n, p, t) ==> forall u :: Within(CoreExt(n, Txt(t)), u) ==> In(n'.core, u))
  {
    hide Proper, In, Tables, CoreOwned, SwapOwned, OtherUser, OtherLoaded, Users, LoadedUsers;
    var t := n.procs[p].text;
    InUsers(n, p);
    SomeLoaded(n, p);
    TextAt(n, t);
    Alone(Users(n, t), p);
    Alone(LoadedUsers(n, t), p);
    OthersAre(n, p, t);
    forall u | Within(SwapExt(n, Txt(t)), u) ensures u in n.sled {
      SwapAll(n, Txt(t));
    }
    forall u | Within(CoreExt(n, Txt(t)), u) ensures u in n.cled {
      CoreAll(n, Txt(t));
    }
  }

  lemma InUsers(n: Sys, p: nat)
    requires Running(n, p) && n.procs[p].text >= 0
    ensures p in Users(n, n.procs[p].text) && p in LoadedUsers(n, n.procs[p].text)
  {
  }

  lemma OthersAre(n: Sys, p: nat, t: nat)
    ensures OtherUser(n, p, t) <==> exists r :: r in Users(n, t) && r != p
    ensures OtherLoaded(n, p, t) <==> exists r :: r in LoadedUsers(n, t) && r != p
  {
    if OtherUser(n, p, t) {
      var r :| r in n.procs && r != p && Uses(n.procs[r], t);
      assert r in Users(n, t);
    }
    if OtherLoaded(n, p, t) {
      var r :| r in n.procs && r != p && n.procs[r].text == t && Here(n.procs[r]);
      assert r in LoadedUsers(n, t);
    }
  }

  lemma Alone(s: set<nat>, p: nat)
    requires p in s
    ensures |s| > 1 <==> exists r :: r in s && r != p
  {
    assert s == (s - {p}) + {p};
    if r :| r in s && r != p {
      assert r in s - {p};
    } else {
      assert s - {p} == {};
    }
  }

  /** Every unit of core there is, is free in the map or lies in exactly one holder's extent, never both;
      and neither the map nor an extent has any other. */
  lemma {:induction false} CorePartition(n: Sys, u: int)
    requires Inv(n)
    ensures u in n.cunits ==> (In(n.core, u) <==> forall o :: o != Nobody ==> !Within(CoreExt(n, o), u))
    ensures In(n.core, u) ==> u in n.cunits
    ensures forall o :: o != Nobody && Within(CoreExt(n, o), u) ==> u in n.cunits && !In(n.core, u)
    ensures forall o, o' {:trigger CoreExt(n, o), CoreExt(n, o')} ::
      o != Nobody && o' != Nobody && Within(CoreExt(n, o), u) && Within(CoreExt(n, o'), u) ==> o == o'
  {
    hide Proper, In, Tables, SwapOwned;
    assert u in n.cunits <==> u in n.cled.Keys;
    forall o | o != Nobody ensures Within(CoreExt(n, o), u) <==> u in n.cled && n.cled[u] == o {
      assert Mine(n.cled, o, u) <==> Within(CoreExt(n, o), u);
    }
    if u in n.cled {
      assert n.cled[u] != Nobody ==> Within(CoreExt(n, n.cled[u]), u);
    }
  }

  lemma {:induction false} SwapPartition(n: Sys, u: int)
    requires Inv(n)
    ensures u in n.sunits ==> (In(n.swap, u) <==> forall o :: o != Nobody ==> !Within(SwapExt(n, o), u))
    ensures In(n.swap, u) ==> u in n.sunits
    ensures forall o :: o != Nobody && Within(SwapExt(n, o), u) ==> u in n.sunits && !In(n.swap, u)
    ensures forall o, o' {:trigger SwapExt(n, o), SwapExt(n, o')} ::
      o != Nobody && o' != Nobody && Within(SwapExt(n, o), u) && Within(SwapExt(n, o'), u) ==> o == o'
  {
    hide Proper, In, Tables, CoreOwned;
    assert u in n.sunits <==> u in n.sled.Keys;
    forall o | o != Nobody ensures Within(SwapExt(n, o), u) <==> u in n.sled && n.sled[u] == o {
      assert Mine(n.sled, o, u) <==> Within(SwapExt(n, o), u);
    }
    if u in n.sled {
      assert n.sled[u] != Nobody ==> Within(SwapExt(n, n.sled[u]), u);
    }
  }
}
