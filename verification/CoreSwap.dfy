/**
 Swapping, growth, fork, shared text and death of processes, as far as core and swap space go:
 ken/slp.c, ken/text.c, and exit and wait1 of ken/sys1.c.  Each method is one stretch of the kernel
 from a wait for the disk to the next.  Where the kernel would panic for want of swap space the
 method says so and changes nothing.
 */
module CoreSwap {
  import opened ResourceMap
  import opened Ownership

  const USIZE := 16

  function FirstProc(p: nat, addr: int): Proc {
    Proc(if p == 0 then Loaded else NoProc, addr, USIZE, -1, -1, false, 0)
  }

  function FirstText(t: nat): Text {
    Text(false, false, 0, 0, 0, 0, 0)
  }

  /** All slots but that of process 0 are free. */
  ghost predicate Empty(procs: map<nat, Proc>, texts: map<nat, Text>, nproc: nat, ntext: nat) {
    && (forall p: nat :: p in procs <==> p < nproc) && (forall t: nat :: t in texts <==> t < ntext)
    && (forall p :: p in procs && p > 0 ==> procs[p].phase.NoProc?) && (forall t :: t in texts ==> !texts[t].used)
  }

  lemma EmptyTables(addr: int, nproc: nat, ntext: nat)
    ensures Empty(map p: nat | p < nproc :: FirstProc(p, addr), map t: nat | t < ntext :: FirstText(t), nproc, ntext)
  {
  }

  datatype Growth = Grown | SwappedOut(to: int) | NoSwap

  /** The core process `p` needs to come in: its own, and its text's if nobody has that in core. */
  function Need(n: Sys, p: nat): int
    requires p in n.procs
  {
    var t := n.procs[p].text;
    n.procs[p].size + if t >= 0 && t in n.texts && n.texts[t].ccount == 0 then n.texts[t].size else 0
  }

  /** expand grows a process out by way of the swap device just when no core is big enough, and fails just
      when no swap space is either. */
  ghost predicate Fate(n: Sys, p: nat, newsize: int, g: Growth)
    requires p in n.procs
  {
    && (g.Grown? <==> newsize <= n.procs[p].size || !FirstFit(n.core, newsize, 0))
    && (!g.Grown? ==> FirstFit(n.swap, Blocks(newsize), if g.SwappedOut? then g.to else 0))
    && (g.SwappedOut? ==> g.to != 0)
  }

  class Memory {
    var procs: map<nat, Proc>
    var texts: map<nat, Text>
    var core: seq<Entry>    // the live entries of coremap
    var swap: seq<Entry>    // and of swapmap
    ghost var cled: Ledger
    ghost var sled: Ledger
    ghost const cunits: set<int>
    ghost const sunits: set<int>

    ghost function Now(): Sys
      reads this
    {
      Sys(procs, texts, core, swap, cled, sled, cunits, sunits)
    }

    /** After main: the free core and swap are as the maps say, process 0 has a u area at `addr`, no other
        process and no text exists.  `top` is past the end of both spaces. */
    constructor (e: seq<Entry>, f: seq<Entry>, addr: int, nproc: nat, ntext: nat, ghost top: int)
      requires Proper(e) && Proper(f) && addr > 0 && NoneFree(e, addr, USIZE) && nproc > 0
      requires (forall u :: In(e, u) || In(f, u) ==> u < top) && addr + USIZE < top
      ensures Inv(Now()) && core == e && swap == f && Running(Now(), 0)
      ensures Empty(procs, texts, nproc, ntext)
      ensures forall u :: u in cunits <==> In(e, u) || addr <= u < addr + USIZE
      ensures forall u :: u in sunits <==> In(f, u)
    {
      procs := map p: nat | p < nproc :: FirstProc(p, addr);
      texts := map t: nat | t < ntext :: FirstText(t);
      core, swap := e, f;
      cled := map u | 0 < u < top && (In(e, u) || addr <= u < addr + USIZE) :: if In(e, u) then Nobody else Img(0);
      sled := map u | 0 < u < top && In(f, u) :: Nobody;
      cunits := set u | 0 < u < top && (In(e, u) || addr <= u < addr + USIZE);
      sunits := set u | 0 < u < top && In(f, u);
      new;
      hide Empty;
      EmptyTables(addr, nproc, ntext);
      Booted(Now(), addr, top);
    }

    /** malloc(coremap, size), for `o`. */
    method TakeCore(size: int, ghost o: Owner) returns (a: int)
      requires Space(core, cled) && size > 0 && o != Nobody
      modifies this`core, this`cled
      ensures Space(core, cled) && FirstFit(old(core), size, a)
      ensures a == 0 ==> core == old(core) && cled == old(cled)
      ensures a != 0 ==> a > 0 && All(old(cled), a, size, Nobody) && cled == Paint(old(cled), a, size, o)
    {
      hide Space, Taken, Paint, All;
      var k := Fit(core, size);
      if k == |core| {
        return 0;
      }
      TakeSpace(core, cled, size, o);
      a := core[k].addr;
      core := Taken(core, size);
      cled := Paint(cled, a, size, o);
    }

    /** mfree(coremap, size, a), of what `o` held. */
    method GiveCore(size: int, a: int, ghost o: Owner)
      requires Space(core, cled) && size >= 0 && o != Nobody && All(cled, a, size, o) && (size > 0 || a > 0)
      modifies this`core, this`cled
      ensures Space(core, cled) && cled == Paint(old(cled), a, size, Nobody)
    {
      hide Fit, Given, Paint, Proper, In;
      if size > 0 { GoodAddress(cled, a, size, o); }
      GiveSpace(core, cled, size, a, o);
      core := Given(core, size, a);
      cled := Paint(cled, a, size, Nobody);
    }

    method TakeSwap(size: int, ghost o: Owner) returns (a: int)
      requires Space(swap, sled) && size > 0 && o != Nobody
      modifies this`swap, this`sled
      ensures Space(swap, sled) && FirstFit(old(swap), size, a)
      ensures a == 0 ==> swap == old(swap) && sled == old(sled)
      ensures a != 0 ==> a > 0 && All(old(sled), a, size, Nobody) && sled == Paint(old(sled), a, size, o)
    {
      hide Space, Taken, Paint, All;
      var k := Fit(swap, size);
      if k == |swap| {
        return 0;
      }
      TakeSpace(swap, sled, size, o);
      a := swap[k].addr;
      swap := Taken(swap, size);
      sled := Paint(sled, a, size, o);
    }

    method GiveSwap(size: int, a: int, ghost o: Owner)
      requires Space(swap, sled) && size >= 0 && o != Nobody && All(sled, a, size, o) && (size > 0 || a > 0)
      modifies this`swap, this`sled
      ensures Space(swap, sled) && sled == Paint(old(sled), a, size, Nobody)
    {
      hide Fit, Given, Paint, Proper, In;
      if size > 0 { GoodAddress(sled, a, size, o); }
      GiveSpace(swap, sled, size, a, o);
      swap := Given(swap, size, a);
      sled := Paint(sled, a, size, Nobody);
    }

    /** xccdec: one loaded user fewer; the last one's going frees the text's core. */
    method Xccdec(t: int)
      requires Space(core, cled) && (t >= 0 ==> t in texts && texts[t].ccount >= 0)
      requires t >= 0 && texts[t].ccount == 1 ==> All(cled, texts[t].caddr, texts[t].size, Txt(t)) && texts[t].size > 0
      modifies this`core, this`cled, this`texts
      ensures Space(core, cled) && cled == AfterDrop(old(Now()), t)
      ensures texts == if t >= 0 then old(texts)[t := Dropped(old(texts)[t])] else old(texts)
    {
      hide Space, Paint, All;
      if t >= 0 && texts[t].ccount != 0 {
        texts := texts[t := texts[t].(ccount := texts[t].ccount - 1)];
        if texts[t].ccount == 0 {
          GiveCore(texts[t].size, texts[t].caddr, Txt(t));
        }
      } else if t >= 0 {
        assert texts == texts[t := Dropped(texts[t])];
      }
    }

    /** xswap, to its wait: process `p` goes out, to come back with `size` units. */
    method Xswap(p: nat, size: int) returns (to: int)
      requires Inv(Now()) && Running(Now(), p) && size > 0
      modifies this
      ensures Inv(Now())
      ensures FirstFit(old(swap), Blocks(size), to)
      ensures if to == 0 then Now() == old(Now()) else LeaveStep(old(Now()), Now(), p, to, size)
    {
      hide Inv, Space, Paint, All;
      ghost var n := Now();
      Parts(n);
      TextHeld(n, p);
      to := TakeSwap(Blocks(size), Img(p));
      if to == 0 {
        return;
      }
      Xccdec(procs[p].text);
      procs := procs[p := procs[p].(phase := Leaving(to, procs[p].size, -1), size := size)];
      LeaveKeeps(n, Now(), p, to, size);
    }

    /** The end of xswap. */
    method SwapDone(p: nat)
      requires Inv(Now()) && p in procs && procs[p].phase.Leaving?
      modifies this
      ensures Inv(Now()) && GoneStep(old(Now()), Now(), p)
    {
      hide Inv, Space, Paint, All;
      ghost var n := Now();
      Parts(n);
      ImageHeld(n, p);
      var q := procs[p];
      if q.phase.lender < 0 {
        GiveCore(q.phase.os, q.addr, Img(p));
      }
      procs := procs[p := q.(phase := Out, addr := q.phase.to)];
      var l := q.phase.lender;
      if l >= 0 && l in procs {
        procs := procs[l := procs[l].(lending := false)];
      }
      GoneKeeps(n, Now(), p);
    }

    /** expand: smaller at once, larger where there is core, or else by way of the swap device. */
    method Expand(p: nat, newsize: int) returns (g: Growth)
      requires Inv(Now()) && Running(Now(), p) && newsize > 0
      modifies this
      ensures Inv(Now()) && Fate(old(Now()), p, newsize, g)
      ensures g.Grown? && newsize > old(procs)[p].size ==>
          p in procs && FirstFit(old(core), newsize, procs[p].addr)
      ensures g.Grown? && newsize <= old(procs)[p].size ==> ShrinkStep(old(Now()), Now(), p, newsize)
      ensures g.Grown? && newsize > old(procs)[p].size ==>
          p in procs && GrowStep(old(Now()), Now(), p, newsize, procs[p].addr)
      ensures g.SwappedOut? ==> newsize > old(procs)[p].size && LeaveStep(old(Now()), Now(), p, g.to, newsize)
      ensures g.NoSwap? ==> newsize > old(procs)[p].size && Now() == old(Now())
    {
      hide Inv, Space, Paint, All, LeaveStep;
      ghost var n := Now();
      Parts(n);
      ImageHeld(n, p);
      var size, a1 := procs[p].size, procs[p].addr;
      if size >= newsize {
        Tail(cled, a1, size, newsize, Img(p));
        GiveCore(size - newsize, a1 + newsize, Img(p));
        procs := procs[p := procs[p].(size := newsize)];
        ShrinkKeeps(n, Now(), p, newsize);
        return Growth.Grown;
      }
      var a2 := TakeCore(newsize, Img(p));
      if a2 == 0 {
        var to := Xswap(p, newsize);
        return if to == 0 then NoSwap else SwappedOut(to);
      }
      PaintApart(n.cled, a2, newsize, a1, size, Img(p));
      GiveCore(size, a1, Img(p));
      procs := procs[p := procs[p].(size := newsize, addr := a2)];
      GrowKeeps(n, Now(), p, newsize, a2);
      return Growth.Grown;
    }

    /** sched, once it has chosen whom to bring in: core for it, and for its text if that is out. */
    method BringIn(p: nat) returns (a: int)
      requires Inv(Now()) && Idle(Now()) && p in procs && procs[p].phase.Out?
      modifies this
      ensures Inv(Now())
      ensures FirstFit(old(core), Need(old(Now()), p), a)
      ensures if a == 0 then Now() == old(Now()) else InStep(old(Now()), Now(), p, a)
    {
      hide Inv, Space, Paint, All;
      ghost var n := Now();
      Parts(n);
      var q := procs[p];
      OutFacts(n, p);
      var size, ts := q.size, 0;
      if q.text >= 0 && texts[q.text].ccount == 0 {
        ts := texts[q.text].size;
        size := size + ts;
      }
      a := TakeCore(size, Img(p));
      if a == 0 {
        return;
      }
      if q.text >= 0 && ts == 0 {
        texts := texts[q.text := texts[q.text].(ccount := texts[q.text].ccount + 1)];
      }
      procs := procs[p := q.(phase := if ts > 0 then TextComing(a, ts) else Coming(a))];
      InKeeps(n, Now(), p, a);
    }

    /** sched, with the text read in. */
    method TextDone(p: nat)
      requires Inv(Now()) && p in procs && procs[p].phase.TextComing?
      modifies this
      ensures Inv(Now()) && TextInStep(old(Now()), Now(), p)
    {
      hide Inv, Space, Paint, All;
      ghost var n := Now();
      Parts(n);
      ComingFacts(n, p);
      var q := procs[p];
      texts := texts[q.text := texts[q.text].(caddr := q.phase.a, ccount := texts[q.text].ccount + 1)];
      procs := procs[p := q.(phase := Coming(q.phase.a + q.phase.ts))];
      PassSpace(core, cled, q.phase.ts, q.phase.a, Img(p), Txt(q.text));
      cled := Paint(cled, q.phase.a, q.phase.ts, Txt(q.text));
      TextInKeeps(n, Now(), p);
    }

    /** sched, with the image read in. */
    method ImageDone(p: nat)
      requires Inv(Now()) && p in procs && procs[p].phase.Coming?
      modifies this
      ensures Inv(Now()) && ImageInStep(old(Now()), Now(), p)
    {
      hide Inv, Space, Paint, All;
      ghost var n := Now();
      Parts(n);
      SwapHeld(n, p);
      var q := procs[p];
      GiveSwap(Blocks(q.size), q.addr, Img(p));
      procs := procs[p := q.(phase := Loaded, addr := q.phase.a)];
      ImageInKeeps(n, Now(), p);
    }

    /** newproc: process `c` is a copy of `p`, in core or, failing that, on the swap device. */
    method NewProc(p: nat, c: nat) returns (a2: int, to: int)
      requires Inv(Now()) && Running(Now(), p) && procs[p].making < 0 && procs[p].grave == 0
      requires c in procs && procs[c].phase.NoProc?
      modifies this
      ensures Inv(Now())
      ensures FirstFit(old(core), old(procs)[p].size, a2)
      ensures if a2 != 0 then to == 0 else FirstFit(old(swap), Blocks(old(procs)[p].size), to)
      ensures a2 != 0 ==> ForkStep(old(Now()), Now(), p, c, a2)
      ensures a2 == 0 && to != 0 ==> ForkOutStep(old(Now()), Now(), p, c, to)
      ensures a2 == 0 && to == 0 ==> Now() == old(Now())
    {
      hide Inv, Space, Paint, All;
      ghost var n := Now();
      Parts(n);
      TextHeld(n, p);
      var q := procs[p];
      to := 0;
      a2 := TakeCore(q.size, Img(c));
      if a2 == 0 {
        to := TakeSwap(Blocks(q.size), Img(c));
        if to == 0 {
          return;
        }
        if q.text >= 0 {
          // the child's x_ccount goes up in newproc and down again in xswap's xccdec
          texts := texts[q.text := texts[q.text].(count := texts[q.text].count + 1)];
        }
        procs := procs[c := Proc(Leaving(to, q.size, p), q.addr, q.size, q.text, -1, false, 0)]
                      [p := q.(lending := true)];
        ForkOutKeeps(n, Now(), p, c, to);
        return;
      }
      if q.text >= 0 {
        texts := texts[q.text := texts[q.text].(count := texts[q.text].count + 1, ccount := texts[q.text].ccount + 1)];
      }
      procs := procs[c := Proc(Loaded, a2, q.size, q.text, -1, false, 0)];
      ForkKeeps(n, Now(), p, c, a2);
    }

    /** xfree. */
    method Xfree(p: nat)
      requires Inv(Now()) && Running(Now(), p)
      modifies this
      ensures Inv(Now())
      ensures if old(procs)[p].text < 0 then Now() == old(Now()) else FreeTextStep(old(Now()), Now(), p)
    {
      hide Inv, Space, Paint, All;
      ghost var n := Now();
      Parts(n);
      TextHeld(n, p);
      var t := procs[p].text;
      if t < 0 {
        return;
      }
      procs := procs[p := procs[p].(text := -1)];
      Xccdec(t);
      texts := texts[t := texts[t].(count := texts[t].count - 1)];
      if texts[t].count == 0 {
        if !texts[t].sticky {
          texts := texts[t := texts[t].(used := false)];
          GiveSwap(Blocks(texts[t].size), texts[t].daddr, Txt(t));
        }
      }
      FreeTextKeeps(n, Now(), p);
    }

    /** xalloc from "out:": the process joins text `t`, in core, or by swapping itself out. */
    method Attach(p: nat, t: nat) returns (to: int)
      requires Inv(Now()) && Running(Now(), p) && procs[p].text < 0 && procs[p].grave == 0
      requires t in texts && texts[t].used && (procs[p].making == t || procs[p].making < 0)
      modifies this
      ensures Inv(Now())
      ensures if old(texts)[t].ccount > 0 then to == 0 else FirstFit(old(swap), Blocks(old(procs)[p].size), to)
      ensures if old(texts)[t].ccount > 0 then AttachStep(old(Now()), Now(), p, t)
              else if to != 0 then AttachOutStep(old(Now()), Now(), p, t, to) else Now() == old(Now())
    {
      hide Inv, Space, Paint, All;
      ghost var n := Now();
      Parts(n);
      TextCounts(n, t, p);
      to := 0;
      var x, more := texts[t], if procs[p].making != t then 1 else 0;
      if x.ccount == 0 {
        to := TakeSwap(Blocks(procs[p].size), Img(p));
        if to == 0 {
          return;
        }
        // xccdec does nothing: nobody has the text in core
        texts := texts[t := x.(count := x.count + more)];
        procs := procs[p := procs[p].(text := t, making := -1, phase := Leaving(to, procs[p].size, -1))];
        AttachOutKeeps(n, Now(), p, t, to);
        return;
      }
      texts := texts[t := x.(count := x.count + more, ccount := x.ccount + 1)];
      procs := procs[p := procs[p].(text := t, making := -1)];
      AttachKeeps(n, Now(), p, t);
    }

    /** xalloc for a text nobody uses, up to its expand: a slot, and room on the swap device. */
    method NewText(p: nat, t: nat, ts: int, sticky: bool) returns (daddr: int)
      requires Inv(Now()) && Running(Now(), p) && procs[p].text < 0 && procs[p].making < 0 && procs[p].grave == 0
      requires t in texts && !texts[t].used && ts > 0
      modifies this
      ensures Inv(Now())
      ensures FirstFit(old(swap), Blocks(ts), daddr)
      ensures if daddr == 0 then Now() == old(Now()) else NewTextStep(old(Now()), Now(), p, t, ts, sticky, daddr)
    {
      hide Inv, Space, Paint, All;
      ghost var n := Now();
      Parts(n);
      daddr := TakeSwap(Blocks(ts), Txt(t));
      if daddr == 0 {
        return;
      }
      texts := texts[t := Text(true, sticky, 1, 0, texts[t].caddr, daddr, ts)];
      procs := procs[p := procs[p].(making := t)];
      NewTextKeeps(n, Now(), p, t, ts, sticky, daddr);
    }

    /** xalloc once the new text is on the swap device: back to the u area alone, and join. */
    method TextMade(p: nat) returns (to: int, ghost m: Sys)
      requires Inv(Now()) && Running(Now(), p) && procs[p].making >= 0 && procs[p].size >= USIZE && procs[p].grave == 0
      modifies this
      ensures Inv(Now()) && ShrinkStep(old(Now()), m, p, USIZE) && old(procs)[p].making in m.texts
      ensures if m.texts[old(procs)[p].making].ccount > 0 then to == 0 else FirstFit(m.swap, Blocks(USIZE), to)
      ensures if m.texts[old(procs)[p].making].ccount > 0 then AttachStep(m, Now(), p, old(procs)[p].making)
              else if to != 0 then AttachOutStep(m, Now(), p, old(procs)[p].making, to) else Now() == m
    {
      hide Inv, Space, Paint, All, AttachStep, AttachOutStep;
      MakingFacts(Now(), p);
      var t := procs[p].making;
      var g := Expand(p, USIZE);
      m := Now();
      to := Attach(p, t);
    }

    /** exit, to the write of the u area. */
    method Exit(p: nat) returns (a: int, ghost m: Sys)
      requires Inv(Now()) && Running(Now(), p) && procs[p].making < 0 && procs[p].grave == 0
      modifies this
      ensures Inv(Now())
      ensures if old(procs)[p].text < 0 then m == old(Now()) else FreeTextStep(old(Now()), m, p)
      ensures FirstFit(m.swap, 1, a)
      ensures if a == 0 then Now() == m else GraveStep(m, Now(), p, a)
    {
      hide Inv, Space, Paint, All, FreeTextStep;
      Xfree(p);
      m := Now();
      FreeTextOnly(old(Now()), m, p);
      Parts(m);
      a := TakeSwap(1, Grave(p));
      if a != 0 {
        procs := procs[p := procs[p].(grave := a)];
        GraveKeeps(m, Now(), p, a);
      }
    }

    /** exit, after the write. */
    method Die(p: nat)
      requires Inv(Now()) && Running(Now(), p) && procs[p].grave != 0
      modifies this
      ensures Inv(Now()) && DieStep(old(Now()), Now(), p)
    {
      hide Inv, Space, Paint, All;
      ghost var n := Now();
      Parts(n);
      ImageHeld(n, p);
      GiveCore(procs[p].size, procs[p].addr, Img(p));
      procs := procs[p := procs[p].(phase := Zombie, addr := procs[p].grave)];
      DieKeeps(n, Now(), p);
    }

    /** wait1, on a zombie child. */
    method Reap(p: nat)
      requires Inv(Now()) && p in procs && procs[p].phase.Zombie?
      modifies this
      ensures Inv(Now()) && ReapStep(old(Now()), Now(), p)
    {
      hide Inv, Space, Paint, All;
      ghost var n := Now();
      Parts(n);
      GraveHeld(n, p);
      GiveSwap(1, procs[p].grave, Grave(p));
      procs := procs[p := procs[p].(phase := NoProc, grave := 0)];
      ReapKeeps(n, Now(), p);
    }
  }

  lemma Booted(n: Sys, addr: int, top: int)
    requires Proper(n.core) && Proper(n.swap) && addr > 0 && NoneFree(n.core, addr, USIZE) && addr + USIZE < top
    requires forall u :: In(n.core, u) || In(n.swap, u) ==> u < top
    requires forall u :: u in n.cled <==> 0 < u < top && (In(n.core, u) || addr <= u < addr + USIZE)
    requires forall u :: u in n.cled ==> n.cled[u] == if In(n.core, u) then Nobody else Img(0)
    requires forall u :: u in n.sled <==> 0 < u < top && In(n.swap, u)
    requires forall u :: u in n.sled ==> n.sled[u] == Nobody
    requires n.cunits == n.cled.Keys && n.sunits == n.sled.Keys
    requires 0 in n.procs && forall p :: p in n.procs ==> n.procs[p] == FirstProc(p, addr)
    requires forall t :: t in n.texts ==> n.texts[t] == FirstText(t)
    ensures Inv(n)
  {
    hide In, Proper;
    forall u | In(n.core, u) || In(n.swap, u) ensures u > 0 {
      if In(n.core, u) { FreePositive(n.core, u); } else { FreePositive(n.swap, u); }
    }
    forall t | t in n.texts ensures TextOk(n, t) {
      assert Users(n, t) == {} && LoadedUsers(n, t) == {};
    }
    forall o, u | o != Nobody ensures Mine(n.cled, o, u) <==> Within(CoreExt(n, o), u) {
    }
    forall o, u | o != Nobody ensures Mine(n.sled, o, u) <==> Within(SwapExt(n, o), u) {
    }
  }

  lemma FreePositive(e: seq<Entry>, u: int)
    requires Proper(e) && In(e, u)
    ensures u > 0
  {
  }

  lemma Parts(n: Sys)
    requires Inv(n)
    ensures Space(n.core, n.cled) && Space(n.swap, n.sled) && n.cled.Keys == n.cunits && n.sled.Keys == n.sunits
  {
  }

  lemma TextHeld(n: Sys, p: nat)
    requires Inv(n) && Running(n, p)
    ensures n.procs[p].size > 0
    ensures n.procs[p].text >= 0 ==>
      var t := n.procs[p].text;
      && t in n.texts && n.texts[t].ccount > 0 && n.texts[t].count > 0 && n.texts[t].used && n.texts[t].size > 0
      && All(n.cled, n.texts[t].caddr, n.texts[t].size, Txt(t))
      && All(n.sled, n.texts[t].daddr, Blocks(n.texts[t].size), Txt(t))
  {
    hide Tables, Spaces, CoreOwned, SwapOwned;
    ProcAt(n, p);
    if n.procs[p].text >= 0 {
      SomeLoaded(n, p);
      TextAt(n, n.procs[p].text);
      CoreAll(n, Txt(n.procs[p].text));
      SwapAll(n, Txt(n.procs[p].text));
    }
  }

  lemma ImageHeld(n: Sys, p: nat)
    requires Inv(n) && p in n.procs
    ensures n.procs[p].phase.Loaded? ==> n.procs[p].size > 0 && n.procs[p].addr > 0
    ensures n.procs[p].phase.Loaded? ==> All(n.cled, n.procs[p].addr, n.procs[p].size, Img(p))
    ensures n.procs[p].phase.Leaving? ==> n.procs[p].phase.os > 0
    ensures n.procs[p].phase.Leaving? && n.procs[p].phase.lender < 0 ==>
      All(n.cled, n.procs[p].addr, n.procs[p].phase.os, Img(p))
  {
    hide Tables, CoreOwned, SwapOwned, Proper, In;
    ProcAt(n, p);
    CoreAll(n, Img(p));
    if n.procs[p].phase.Loaded? {
      GoodAddress(n.cled, n.procs[p].addr, n.procs[p].size, Img(p));
    }
  }

  lemma SwapHeld(n: Sys, p: nat)
    requires Inv(n) && p in n.procs && n.procs[p].phase.Coming?
    ensures n.procs[p].size > 0 && All(n.sled, n.procs[p].addr, Blocks(n.procs[p].size), Img(p))
  {
    hide Tables, CoreOwned, SwapOwned, Spaces;
    ProcAt(n, p);
    SwapAll(n, Img(p));
  }

  lemma GraveHeld(n: Sys, p: nat)
    requires Inv(n) && p in n.procs && n.procs[p].phase.Zombie?
    ensures n.procs[p].grave != 0 && All(n.sled, n.procs[p].grave, 1, Grave(p))
  {
    hide Tables, CoreOwned, SwapOwned, Spaces;
    ProcAt(n, p);
    SwapAll(n, Grave(p));
  }

  lemma OutFacts(n: Sys, p: nat)
    requires Inv(n) && p in n.procs && n.procs[p].phase.Out?
    ensures n.procs[p].size > 0
    ensures n.procs[p].text >= 0 ==> n.procs[p].text in n.texts && n.texts[n.procs[p].text].size > 0
    ensures n.procs[p].text >= 0 ==> n.texts[n.procs[p].text].ccount >= 0
  {
    hide Tables, CoreOwned, SwapOwned, Spaces;
    ProcAt(n, p);
    if n.procs[p].text >= 0 {
      TextAt(n, n.procs[p].text);
    }
  }

  lemma ComingFacts(n: Sys, p: nat)
    requires Inv(n) && p in n.procs && n.procs[p].phase.TextComing?
    ensures n.procs[p].text >= 0 && n.procs[p].text in n.texts
    ensures All(n.cled, n.procs[p].phase.a, n.procs[p].phase.ts, Img(p))
  {
    hide Tables, CoreOwned, SwapOwned, Spaces;
    ProcAt(n, p);
    CoreAll(n, Img(p));
  }

  lemma TextCounts(n: Sys, t: nat, p: nat)
    requires Inv(n) && t in n.texts && Running(n, p)
    ensures n.texts[t].ccount >= 0 && n.procs[p].size > 0
  {
    hide Tables, CoreOwned, SwapOwned, Spaces;
    ProcAt(n, p);
    TextAt(n, t);
  }

  lemma MakingFacts(n: Sys, p: nat)
    requires Inv(n) && p in n.procs && n.procs[p].making >= 0
    ensures n.procs[p].making in n.texts && n.texts[n.procs[p].making].used && n.procs[p].text < 0
  {
    hide Tables, CoreOwned, SwapOwned, Spaces;
    ProcAt(n, p);
    TextAt(n, n.procs[p].making);
  }

  lemma FreeTextOnly(n: Sys, m: Sys, p: nat)
    requires Running(n, p) && (if n.procs[p].text < 0 then m == n else FreeTextStep(n, m, p))
    ensures p in m.procs && m.procs[p] == n.procs[p].(text := m.procs[p].text) && m.procs[p].text < 0
  {
  }

  lemma Tail(led: Ledger, a: int, size: int, newsize: int, o: Owner)
    requires All(led, a, size, o) && 0 < newsize <= size && a > 0
    ensures All(led, a + newsize, size - newsize, o)
  {
  }
}
