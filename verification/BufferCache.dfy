/**
 dmr/bio.c: the block buffer cache.  Each method runs from one sleep to the next; a process that
 must sleep is entered in `asleep` and calls again when it is woken, as the retry loops do.
 */
module BufferCache {
  import opened DList
  import opened CacheInv

  datatype Outcome = Got(bp: Node) | Asleep

  // ------------------------------------------------------------ what the operations promise

  /** `x` left the available list and is busy; nothing else changed. */
  ghost predicate IsHold(n: Cache, n': Cache, x: Node) {
    exists k {:trigger n.av[k]} :: 0 <= k < |n.av| && n.av[k] == x
      && n.av[k] in n.buf && n.av[k] in n.avf && n.av[k] in n.avb && n' == HoldStep(n, k)
  }

  /** The available list without `x`, in the same order. */
  ghost predicate TakenOff(av: seq<Node>, av': seq<Node>, x: Node) {
    exists k {:trigger av[k]} :: 0 <= k < |av| && av[k] == x && av' == av[..k] + av[k + 1..]
  }

  ghost predicate Caches(n: Cache, x: Node, key: Key) {
    x in n.buf && n.buf[x].key == key
  }

  /** The first available buffer that owes the disk nothing, or |av|. */
  ghost function FirstClean(av: seq<Node>, buf: map<Node, Hdr>): (k: nat)
    ensures k <= |av| && forall j :: 0 <= j < k ==> av[j] in buf && buf[av[j]].flags.delwri
    ensures k < |av| ==> !(av[k] in buf && buf[av[k]].flags.delwri)
  {
    if av == [] || !(av[0] in buf && buf[av[0]].flags.delwri) then 0
    else 1 + FirstClean(av[1..], buf)
  }

  ghost predicate SameTruth(n: Cache, m: Cache) {
    forall k :: Look(m.truth, k) == Look(n.truth, k)
  }

  /** Nothing but the first steps of some delayed writes has happened. */
  ghost predicate Flushing(n: Cache, m: Cache) {
    && SameTruth(n, m) && m.disk == n.disk && m.dirty == n.dirty && m.asleep == n.asleep
    && m.buf.Keys == n.buf.Keys && (forall x :: x in n.buf ==> m.buf[x].key == n.buf[x].key)
    && n.io <= m.io && Others(n, m, FREE)
    && (forall x :: x in m.av ==> x in n.av && (x in n.buf ==> m.buf[x] == n.buf[x]))
    && forall x :: x in n.av && x !in m.av ==>
         x in m.io && x in m.buf && m.buf[x].flags.busy && !m.buf[x].flags.read && m.buf[x].flags.async
  }

  /**
   getblk: a cached block's buffer is taken as it is, or waited for if busy; else the first available
   buffer with nothing owed is reassigned, empty; if all owe, every one of them starts to be written
   and the caller waits.
   */
  ghost predicate GetBlkDone(n: Cache, n': Cache, p: Proc, key: Key, r: Outcome) {
    && SameTruth(n, n') && n'.disk == n.disk && n'.dirty == n.dirty
    && (forall x :: key.dev >= 0 && Caches(n, x, key) ==>
         if n.buf[x].flags.busy
         then r == Asleep
              && n' == FlagStep(n, x, n.buf[x].flags.(wanted := true)).(asleep := n.asleep[p := ForBuffer(x)])
         else r == Got(x) && IsHold(n, n', x))
    && ((key.dev >= 0 ==> forall x :: !Caches(n, x, key)) ==>
         var k := FirstClean(n.av, n.buf);
         if k < |n.av|
         then r == Got(n.av[k]) && n'.io == n.io && n'.asleep == n.asleep && Reassigned(n, n', n.av[k], key)
              && TakenOff(n.av, n'.av, n.av[k])
         else r == Asleep && n'.av == [] && n'.asleep == n.asleep[p := ForFree] && Others(n, n', FREE)
              && forall x :: x in n.av ==> x in n'.io && x in n'.buf && !n'.buf[x].flags.read
                                           && (x in n.buf ==> n'.buf[x].key == n.buf[x].key))
  }

  ghost predicate Reassigned(n: Cache, n': Cache, x: Node, key: Key) {
    && x in n.buf && x in n'.buf && n'.buf == n.buf[x := Hdr(BUSYONLY, key, n.buf[x].data)]
    && Others(n, n', x)
  }

  ghost predicate BRelseDone(n: Cache, n': Cache, x: Node) {
    x in n.buf && IsRelease(SettleStep(n, x), n', x)
  }

  ghost predicate IsRelease(n: Cache, n': Cache, x: Node) {
    x in n.buf && FREE in n.avf && FREE in n.avb && n' == ReleaseStep(n, x)
  }

  /** bwrite: on its way; who must wait for it sleeps; a delayed write will be aged when it ends. */
  ghost predicate BWriteDone(n: Cache, n': Cache, p: Proc, x: Node) {
    && x in n.buf
    && var h := n.buf[x];
       n' == n.(io := n.io + {x}, dirty := n.dirty - {x}, truth := n.truth[h.key := h.data],
                buf := n.buf[x := h.(flags := Sent(h.flags))],
                asleep := if h.flags.async then n.asleep else n.asleep[p := ForTransfer(x)])
  }

  ghost function Sent(fl: Flags): Flags {
    Flags(false, false, fl.busy, fl.wanted, fl.async && fl.delwri, fl.async, false)
  }

  /** What getblk returns was available, is held, is the block asked for, and is not changed yet. */
  ghost predicate Fresh(n: Cache, n': Cache, x: Node, key: Key) {
    && x in n.av && Held(n', x) && x !in n'.dirty && n'.buf[x].key == key && !n'.buf[x].flags.async
    && Others(n, n', x)
  }

  ghost predicate Misses(n: Cache, key: Key) {
    key.dev >= 0 ==> forall x :: !Caches(n, x, key)
  }

  ghost predicate AllOwe(n: Cache) {
    FirstClean(n.av, n.buf) == |n.av|
  }

  lemma FlushingSelf(n: Cache)
    ensures Flushing(n, n)
  {
  }

  /** A hit can only be found on the first time round. */
  lemma StillCached(n: Cache, m: Cache, key: Key)
    requires Flushing(n, m) && !Misses(m, key) && (m == n || (AllOwe(n) && Misses(n, key)))
    ensures m == n
  {
    SameMisses(n, m, key);
  }

  lemma HoldTakesOff(m: Cache, m1: Cache, x: Node)
    requires IsHold(m, m1, x)
    ensures TakenOff(m.av, m1.av, x)
  {
  }

  lemma DoneHitBusy(n: Cache, p: Proc, key: Key, x: Node, n': Cache)
    requires Inv(n) && key.dev >= 0 && Caches(n, x, key) && n.buf[x].flags.busy
    requires n' == FlagStep(n, x, n.buf[x].flags.(wanted := true)).(asleep := n.asleep[p := ForBuffer(x)])
    ensures Inv(n') && GetBlkDone(n, n', p, key, Asleep) && Others(n, n', FREE)
  {
    hide Avail, Devs, Coherent, Sleepers, Unique, Others;
    HitUnique(n, x, key);
    var m := FlagStep(n, x, n.buf[x].flags.(wanted := true));
    FlagKeeps(n, x, n.buf[x].flags.(wanted := true));
    SleepKeeps(m, p, ForBuffer(x), n');
    WantedOnly(n, x, n');
  }

  lemma WantedOnly(n: Cache, x: Node, n': Cache)
    requires x in n.buf && n'.buf == n.buf[x := n.buf[x].(flags := n.buf[x].flags.(wanted := true))]
    requires n'.io == n.io && n'.dirty == n.dirty
    ensures Others(n, n', FREE)
  {
  }

  lemma DoneHitFree(n: Cache, p: Proc, key: Key, x: Node, n': Cache)
    requires Inv(n) && key.dev >= 0 && Caches(n, x, key) && !n.buf[x].flags.busy
    requires IsHold(n, n', x) && Others(n, n', x) && x in n.av && Held(n', x) && x !in n'.dirty
    ensures GetBlkDone(n, n', p, key, Got(x)) && Fresh(n, n', x, key)
  {
    hide Avail, Devs, Coherent, Sleepers, Unique, Others;
    HitUnique(n, x, key);
    DoneIsTruth(n, x);
    HoldBuf(n, n', x);
  }

  lemma WantFree(m: Cache)
    requires Inv(m)
    ensures Inv(m.(freeWanted := true))
  {
    hide Avail, Devs, Coherent, Unique;
    var n' := m.(freeWanted := true);
    AvailKept(m, n');
    DevsKept(m, n');
    UniqueKept(m, n');
    SameCoherent(m, n');
    forall q | q in n'.asleep ensures Justified(n', n'.asleep[q]) {
      assert Justified(m, m.asleep[q]);
    }
  }

  lemma SameMisses(n: Cache, m: Cache, key: Key)
    requires Flushing(n, m)
    ensures Misses(n, key) <==> Misses(m, key)
  {
    assert forall x :: Caches(n, x, key) <==> Caches(m, x, key);
  }

  /** No buffer at all: every one that was available is now being written. */
  lemma DoneNone(n: Cache, m: Cache, p: Proc, key: Key, n': Cache)
    requires Inv(m) && Flushing(n, m) && m.av == [] && Misses(m, key) && (m == n || AllOwe(n))
    requires n' == m.(freeWanted := true, asleep := m.asleep[p := ForFree])
    ensures Inv(n') && GetBlkDone(n, n', p, key, Asleep) && Others(n, n', FREE)
  {
    hide Inv;
    WantFree(m);
    SleepKeeps(m.(freeWanted := true), p, ForFree, n');
    NoneSpec(n, m, p, key, n');
  }

  lemma NoneSpec(n: Cache, m: Cache, p: Proc, key: Key, n': Cache)
    requires Flushing(n, m) && m.av == [] && Misses(m, key) && (m == n || AllOwe(n))
    requires n' == m.(freeWanted := true, asleep := m.asleep[p := ForFree])
    ensures GetBlkDone(n, n', p, key, Asleep) && Others(n, n', FREE)
  {
    SameMisses(n, m, key);
    OthersSame(n, m, n', FREE);
    assert forall x :: key.dev >= 0 ==> !Caches(n, x, key);
  }

  /** The buffer getblk settles on: the first that owes nothing, or failing that the first of all. */
  ghost predicate Picked(n: Cache, x: Node) {
    n.av != [] && x == if FirstClean(n.av, n.buf) < |n.av| then n.av[FirstClean(n.av, n.buf)] else n.av[0]
  }

  /** Once all owe, all that are left owe. */
  lemma OweKept(n: Cache, m: Cache)
    requires Flushing(n, m) && FREE !in n.buf
    ensures AllOwe(n) ==> AllOwe(m)
  {
    assert AllOwe(n) ==> forall x :: x in m.av ==> x in n.av && x in n.buf;
  }

  lemma DoneAssign(n: Cache, n1: Cache, p: Proc, key: Key, x: Node, n': Cache)
    requires Picked(n, x) && x in n.buf && !n.buf[x].flags.delwri
    requires Misses(n, key) && IsHold(n, n1, x) && x in n.av && Others(n, n1, x)
    requires Reassigned(n1, n', x, key) && n' == n1.(f := n'.f, b := n'.b, dl := n'.dl, buf := n'.buf)
    requires Held(n1, x) && x !in n1.dirty
    ensures GetBlkDone(n, n', p, key, Got(x)) && Fresh(n, n', x, key) && !AllOwe(n)
  {
    hide Others, HoldStep;
    OthersTrans(n, n1, n', x);
    HoldBuf(n, n1, x);
    HoldTakesOff(n, n1, x);
    var owes := n.buf[x].flags.delwri;
    assert AllOwe(n) ==> owes;
    assert n'.buf == n.buf[x := Hdr(BUSYONLY, key, n.buf[x].data)];
    assert forall y :: key.dev >= 0 ==> !Caches(n, y, key);
  }

  lemma HoldBuf(m: Cache, m1: Cache, x: Node)
    requires IsHold(m, m1, x)
    ensures x in m.buf && m1.buf == m.buf[x := m.buf[x].(flags := m.buf[x].flags.(busy := true))]
    ensures m1 == m.(avf := m1.avf, avb := m1.avb, av := m1.av, buf := m1.buf)
  {
  }

  lemma HoldMisses(m: Cache, m1: Cache, x: Node, key: Key)
    requires IsHold(m, m1, x) && Misses(m, key)
    ensures Misses(m1, key)
  {
    HoldBuf(m, m1, x);
    assert forall y :: Caches(m1, y, key) ==> Caches(m, y, key);
  }

  /** Writing out one more delayed write on the way. */
  lemma FlushMore(n: Cache, m: Cache, n': Cache, key: Key)
    requires Flushing(n, m) && Flushing(m, n') && FREE !in m.buf && Misses(m, key)
    ensures Flushing(n, n') && Misses(n, key)
  {
    hide Flushing, Misses;
    FlushingTrans(n, m, n');
    SameMisses(n, m, key);
  }

  lemma DelwriDev(n: Cache, x: Node)
    requires Inv(n) && x in n.buf && n.buf[x].flags.delwri
    ensures n.buf[x].key.dev >= 0
  {
    DoneIsTruth(n, x);
  }

  lemma PickedOwes(n: Cache, x: Node)
    requires Picked(n, x) && x in n.buf && n.buf[x].flags.delwri
    ensures AllOwe(n)
  {
  }

  lemma FlushOne(m: Cache, m1: Cache, x: Node, n': Cache)
    requires x in m.buf && m.buf[x].data == Look(m.truth, m.buf[x].key) && !m.buf[x].flags.busy && x !in m.dirty
    requires m1.buf == m.buf[x := m.buf[x].(flags := m.buf[x].flags.(busy := true))]
    requires m1 == m.(avf := m1.avf, avb := m1.avb, av := m1.av, buf := m1.buf) && BAWriteDone(m1, n', x)
    requires forall y :: y in m1.av <==> y in m.av && y != x
    ensures Flushing(m, n')
  {
    hide Flushing;
    var h := m.buf[x];
    assert n'.buf == m.buf[x := h.(flags := Sent(h.flags.(busy := true, async := true)))];
    FlushedOne(m, x, n');
  }

  lemma OwedIsTruth(m: Cache, x: Node)
    requires Inv(m) && x in m.buf && m.buf[x].flags.delwri && !m.buf[x].flags.busy && x !in m.dirty
    ensures m.buf[x].data == Look(m.truth, m.buf[x].key)
  {
    hide Bufs, Avail, Devs, Unique, Coherent, Sleepers;
    DoneIsTruth(m, x);
  }

  lemma FlushedOne(m: Cache, x: Node, n': Cache)
    requires x in m.buf && m.buf[x].data == Look(m.truth, m.buf[x].key) && !m.buf[x].flags.busy
    requires n'.buf == m.buf[x := m.buf[x].(flags := Sent(m.buf[x].flags.(busy := true, async := true)))]
    requires n'.io == m.io + {x} && n'.truth == m.truth[m.buf[x].key := m.buf[x].data] && n'.dirty == m.dirty
    requires n'.disk == m.disk && n'.asleep == m.asleep && forall y :: y in n'.av <==> y in m.av && y != x
    ensures Flushing(m, n')
  {
  }

  lemma FlushingTrans(n: Cache, m: Cache, n': Cache)
    requires Flushing(n, m) && Flushing(m, n') && FREE !in m.buf
    ensures Flushing(n, n')
  {
    hide Others;
    OthersTrans(n, m, n', FREE);
    forall x | x in n.av && x !in n'.av
      ensures x in n'.io && x in n'.buf && n'.buf[x].flags.busy && !n'.buf[x].flags.read && n'.buf[x].flags.async
    {
      if x !in m.av {
        BusyAt(m, n', FREE, x);
      }
    }
  }

  lemma BusyAt(n: Cache, n': Cache, x: Node, y: Node)
    requires Others(n, n', x) && y in n.buf && n.buf[y].flags.busy && y != x
    ensures y in n'.buf && n'.buf[y].flags.(wanted := n.buf[y].flags.wanted) == n.buf[y].flags
    ensures y in n'.io <==> y in n.io
  {
  }

  lemma AvFirst(n: Cache)
    requires Inv(n)
    ensures FREE !in n.buf && FREE in n.avf && n.avf[FREE] == (if n.av == [] then FREE else n.av[0])
    ensures n.av != [] ==> n.av[0] in n.buf && n.av[0] != FREE
    ensures forall x :: x in n.av ==> x in n.buf && !n.buf[x].flags.busy && x !in n.dirty && x !in n.io
    ensures forall x, p :: x in n.av && p in n.asleep ==> n.asleep[p] != ForBuffer(x)
  {
    hide Devs, Unique, DRing;
    AvWalk(n, 0);
    forall x | x in n.av ensures x !in n.dirty && x !in n.io {
      assert DataOk(n, x);
    }
    forall x, p | x in n.av && p in n.asleep ensures n.asleep[p] != ForBuffer(x) {
      NobodyWaits(n, x);
    }
  }

  lemma HitUnique(n: Cache, x: Node, key: Key)
    requires Unique(n) && key.dev >= 0 && Caches(n, x, key)
    ensures forall y :: Caches(n, y, key) ==> y == x
  {
  }

  /** Walking a device's ring by the forward links from its head. */
  lemma Walk(n: Cache, h: Node, i: nat)
    requires Bufs(n) && IsHead(n, h) && OnHead(n, h) && i <= |n.dl[h]|
    ensures h in n.f && ([h] + n.dl[h])[i] in n.f
    ensures i < |n.dl[h]| ==> n.dl[h][i] in n.f && n.dl[h][i] in n.buf && n.dl[h][i] != h
    ensures n.f[([h] + n.dl[h])[i]] == if i < |n.dl[h]| then n.dl[h][i] else h
  {
    assert LinkedAt(n.f, n.b, [h] + n.dl[h], i);
    if i < |n.dl[h]| {
      assert LinkedAt(n.f, n.b, [h] + n.dl[h], i + 1);
      assert n.dl[h][i] in n.dl[h];
    }
    HeadInF(n, h);
  }

  lemma WalkAll(n: Cache, h: Node, x: Node)
    requires OnHead(n, h) && x in n.buf && HeadOf(n.buf[x].key.dev) == h
    ensures x in n.dl[h]
  {
    hide DRing;
  }

  lemma DevAt(n: Cache, dev: int)
    requires Devs(n) && IsHead(n, HeadOf(dev))
    ensures OnHead(n, HeadOf(dev)) && HeadOf(dev) in n.dl && HeadOf(dev) in n.f
  {
    HeadInF(n, HeadOf(dev));
  }

  lemma AvWalk(n: Cache, i: nat)
    requires Bufs(n) && Avail(n) && i <= |n.av|
    ensures ([FREE] + n.av)[i] in n.avf
    ensures i < |n.av| ==> n.av[i] in n.buf && n.av[i] in n.avf && n.av[i] != FREE
    ensures n.avf[([FREE] + n.av)[i]] == if i < |n.av| then n.av[i] else FREE
  {
    assert LinkedAt(n.avf, n.avb, [FREE] + n.av, i);
    if i < |n.av| {
      assert LinkedAt(n.avf, n.avb, [FREE] + n.av, i + 1);
      assert n.av[i] in n.av;
    }
  }

  lemma FreeIsAvail(n: Cache, x: Node) returns (k: nat)
    requires Avail(n) && x in n.buf && !n.buf[x].flags.busy
    ensures k < |n.av| && n.av[k] == x && x in n.avf && x in n.avb
  {
    assert x in n.av;
    k :| 0 <= k < |n.av| && n.av[k] == x;
    AvAt(n, k);
  }

  lemma NobodyWaits(n: Cache, x: Node)
    requires Sleepers(n) && x in n.buf && !n.buf[x].flags.busy
    ensures forall p :: p in n.asleep ==> n.asleep[p] != ForBuffer(x)
  {
    forall p | p in n.asleep ensures n.asleep[p] != ForBuffer(x) {
      assert Justified(n, n.asleep[p]);
    }
  }

  /** A buffer that is up to date and unchanged by its holder holds its block. */
  lemma DoneIsTruth(n: Cache, x: Node)
    requires Coherent(n) && x in n.buf
    ensures n.buf[x].flags.done && n.buf[x].key.dev >= 0 && x !in n.dirty ==>
        n.buf[x].data == Look(n.truth, n.buf[x].key)
    ensures n.buf[x].flags.delwri ==> n.buf[x].flags.done && n.buf[x].key.dev >= 0
    ensures n.buf[x].flags.busy || (x !in n.io && x !in n.dirty && !n.buf[x].flags.async)
  {
    assert DataOk(n, x);
  }

  /** With no write under way and none delayed, the disk is exactly what the kernel's callers were told. */
  lemma {:induction false} SettledDiskIsTruth(n: Cache)
    requires Inv(n) && forall x :: x in n.buf ==> x !in n.io && !n.buf[x].flags.delwri
    ensures forall k :: Look(n.disk, k) == Look(n.truth, k)
  {
    hide Bufs, Avail, Devs, Unique, Sleepers;
    forall k ensures Look(n.disk, k) == Look(n.truth, k) {
      assert forall x :: !Owes(n, x, k);
    }
  }

  // ------------------------------------------------------------ releasing what was changed

  /** A changed buffer that is released is the block's new contents if it is a delayed write; if the
      contents were never valid, or belong to no device, they are given up. */
  ghost predicate Releasable(n: Cache, x: Node) {
    Held(n, x) && (x in n.dirty ==> n.buf[x].flags.delwri || !n.buf[x].flags.done || n.buf[x].key.dev < 0)
  }

  ghost function SettleStep(n: Cache, x: Node): Cache
    requires x in n.buf
  {
    if x in n.dirty && n.buf[x].flags.delwri then DelayStep(n, x) else n.(dirty := n.dirty - {x})
  }

  lemma SettleKeeps(n: Cache, x: Node)
    requires Inv(n) && Releasable(n, x)
    ensures Inv(SettleStep(n, x)) && Held(SettleStep(n, x), x) && x !in SettleStep(n, x).dirty
    ensures Others(n, SettleStep(n, x), x)
    ensures SettleStep(n, x) == n.(truth := SettleStep(n, x).truth, dirty := SettleStep(n, x).dirty)
  {
    hide Inv, DelayStep, Others;
    SettleOnly(n, x);
    if x in n.dirty && n.buf[x].flags.delwri {
      DelayAgain(n, x);
      DelayKeeps(n, x);
    } else {
      DropKeeps(n, x);
    }
  }

  lemma SettleOnly(n: Cache, x: Node)
    requires Inv(n) && Held(n, x)
    ensures SettleStep(n, x) == n.(truth := SettleStep(n, x).truth, dirty := n.dirty - {x})
  {
    hide Inv, DelayStep;
    if x in n.dirty && n.buf[x].flags.delwri {
      DelayAgain(n, x);
    }
  }

  lemma DelayAgain(n: Cache, x: Node)
    requires Inv(n) && Held(n, x) && n.buf[x].flags.delwri
    ensures n.buf[x].key.dev >= 0 && DelayStep(n, x) == n.(truth := DelayStep(n, x).truth, dirty := n.dirty - {x})
  {
    hide Avail, Devs, Unique, Coherent, Sleepers;
    DoneIsTruth(n, x);
    assert n.buf[x].flags.(done := true, delwri := true) == n.buf[x].flags;
  }

  lemma DropKeeps(n: Cache, x: Node)
    requires Inv(n) && Releasable(n, x) && !(x in n.dirty && n.buf[x].flags.delwri)
    ensures Inv(n.(dirty := n.dirty - {x})) && Others(n, n.(dirty := n.dirty - {x}), x)
  {
    hide Avail, Devs, Unique, Coherent, Sleepers;
    var n' := n.(dirty := n.dirty - {x});
    AvailKept(n, n');
    DevsKept(n, n');
    UniqueKept(n, n');
    SettleCoherent(n, x);
    IoSleepers(n, n', x);
  }

  lemma SettleCoherent(n: Cache, x: Node)
    requires Coherent(n) && Releasable(n, x) && !(x in n.dirty && n.buf[x].flags.delwri)
    ensures Coherent(n.(dirty := n.dirty - {x}))
  {
    var n' := n.(dirty := n.dirty - {x});
    forall y | y in n'.buf ensures DataOk(n', y) {
      assert DataOk(n, y);
    }
    forall k | Look(n'.disk, k) != Look(n'.truth, k) ensures exists y :: Owes(n', y, k) {
      var y :| Owes(n, y, k);
      assert Owes(n', y, k);
    }
  }

  class BufferCache {
    const majors: nat
    const tapes: set<int>   // the block majors whose d_tab is tmtab or httab
    var f: Links            // b_forw
    var b: Links            // b_back
    var avf: Links          // av_forw
    var avb: Links          // av_back
    var buf: map<Node, Hdr>
    var freeWanted: bool    // bfreelist.b_flags & B_WANTED
    var disk: map<Key, Block>
    var io: set<Node>       // the drivers' queues
    var asleep: map<Proc, Channel>
    ghost var av: seq<Node>
    ghost var dl: map<Node, seq<Node>>
    ghost var truth: map<Key, Block>
    ghost var dirty: set<Node>

    ghost function Now(): Cache
      reads this
    {
      Cache(f, b, avf, avb, buf, disk, freeWanted, io, asleep, majors, av, dl, truth, dirty)
    }

    /** binit: no buffer is for any block, all are available, and no device has any. */
    constructor (majors: nat, tapes: set<int>, disk: map<Key, Block>)
      ensures Inv(Now()) && this.majors == majors && this.disk == disk && truth == disk && io == {} && asleep == map[]
      ensures this.tapes == tapes && dirty == {} && !freeWanted
      ensures forall x: Node :: x < NBUF ==> x in av && Blank(Now(), x)
    {
      hide Booted, Heads, Inv;
      this.majors, this.tapes, this.disk, this.truth := majors, tapes, disk, disk;
      io, asleep, freeWanted, dirty := {}, map[], false, {};
      f, b, avf, avb := map[FREE := FREE], map[FREE := FREE], map[FREE := FREE], map[FREE := FREE];
      buf, av, dl := map[], [], map[FREE := []];
      new;
      BootNone(Now());
      BootBuffers();
      BootHeads();
      BootEnds(Now());
    }

    /** binit's first loop: each buffer onto both rings of bfreelist. */
    method BootBuffers()
      requires Booted(Now(), 0)
      modifies this`f, this`b, this`dl, this`avf, this`avb, this`av, this`buf
      ensures Booted(Now(), NBUF)
    {
      hide Booted;
      var i: Node := 0;
      while i < NBUF
        invariant i <= NBUF && Booted(Now(), i)
      {
        BootOne(i);
        i := i + 1;
      }
    }

    method BootOne(i: Node)
      requires Booted(Now(), i) && i < NBUF
      modifies this`f, this`b, this`dl, this`avf, this`avb, this`av, this`buf
      ensures Booted(Now(), i + 1)
    {
      hide Booted;
      ghost var n := Now();
      BootLinks(n, i);
      BootDev(i);
      BootAvail(i);
      buf := buf[i := Hdr(Released(BUSYONLY), Key(-1, 0), [])];
      BootMore(n, i, Now());
    }

    method BootDev(i: Node)
      requires FREE in f && FREE in b && FREE in dl
      modifies this`f, this`b, this`dl
      ensures f == old(f[i := f[FREE]][FREE := i]) && b == old(b[i := FREE][f[FREE] := i])
      ensures dl == old(dl[FREE := [i] + dl[FREE]])
    {
      b := b[i := FREE][f[FREE] := i];
      f := f[i := f[FREE]][FREE := i];
      dl := dl[FREE := [i] + dl[FREE]];
    }

    method BootAvail(i: Node)
      requires FREE in avf && FREE in avb
      modifies this`avf, this`avb, this`av
      ensures avf == old(avf[avb[FREE] := i][i := FREE]) && avb == old(avb[i := avb[FREE]][FREE := i])
      ensures av == old(av) + [i]
    {
      avf := avf[avb[FREE] := i][i := FREE];
      avb := avb[i := avb[FREE]][FREE := i];
      av := av + [i];
    }

    /** binit's second loop: the devices' own rings, empty. */
    method BootHeads()
      requires Booted(Now(), NBUF)
      modifies this`f, this`b, this`dl
      ensures Booted(Now(), NBUF) && Heads(Now(), FREE + 1 + majors)
    {
      hide Booted;
      var h: Node := FREE + 1;
      while h <= FREE + majors
        invariant FREE + 1 <= h <= FREE + majors + 1 && Booted(Now(), NBUF) && Heads(Now(), h)
      {
        ghost var n := Now();
        f, b := f[h := h], b[h := h];
        dl := dl[h := []];
        HeadMore(n, h, Now());
        h := h + 1;
      }
    }

    /** incore: the buffer of a device's block, if there is one. */
    method Incore(dev: int, blkno: int) returns (found: bool, bp: Node)
      requires Inv(Now()) && 0 <= dev / 256 < majors && dev >= 0
      ensures found ==> Caches(Now(), bp, Key(dev, blkno))
      ensures !found ==> forall x :: !Caches(Now(), x, Key(dev, blkno))
    {
      hide Avail, Devs, Unique, Coherent, Sleepers, OnHead;
      ghost var n := Now();
      var dp := HeadOf(dev);
      DevAt(n, dev);
      ghost var l := n.dl[dp];
      ghost var i := 0;
      Walk(n, dp, 0);
      bp := f[dp];
      while bp != dp
        invariant Now() == n && 0 <= i <= |l| && bp == if i < |l| then l[i] else dp
        invariant i < |l| ==> bp in n.buf && bp in n.f
        invariant forall j :: 0 <= j < i ==> !Caches(n, l[j], Key(dev, blkno))
        decreases |l| - i
      {
        if buf[bp].key.blkno == blkno && buf[bp].key.dev == dev {
          return true, bp;
        }
        i := i + 1;
        Walk(n, dp, i);
        assert ([dp] + l)[i] == bp;
        bp := f[bp];
      }
      assert forall x :: x in l ==> !Caches(n, x, Key(dev, blkno));
      forall x ensures !Caches(n, x, Key(dev, blkno)) {
        if Caches(n, x, Key(dev, blkno)) {
          WalkAll(n, dp, x);
        }
      }
      return false, bp;
    }

    /** notavail. */
    method NotAvail(bp: Node)
      requires Inv(Now()) && bp in buf && !buf[bp].flags.busy
      modifies this`avf, this`avb, this`av, this`buf
      ensures Inv(Now()) && IsHold(old(Now()), Now(), bp) && Others(old(Now()), Now(), bp)
      ensures Held(Now(), bp) && bp !in dirty && bp in old(av)
      ensures buf == old(buf)[bp := old(buf[bp]).(flags := old(buf[bp]).flags.(busy := true))]
      ensures forall x :: x in av <==> x in old(av) && x != bp
      ensures |av| == |old(av)| - 1
    {
      hide Avail, Devs, Unique, Coherent, Sleepers, Others;
      ghost var n := Now();
      ghost var k := FreeIsAvail(n, bp);
      HoldKeeps(n, k);
      avf, avb := avf[avb[bp] := avf[bp]], avb[avf[bp] := avb[bp]];
      buf := buf[bp := buf[bp].(flags := buf[bp].flags.(busy := true))];
      av := av[..k] + av[k + 1..];
      assert Now() == HoldStep(n, k);
      AvNoDup(n);
      RemovedOne(n.av, k);
    }

    /** wakeup on a buffer and on bfreelist. */
    method Wakeup(bp: Node, onBuf: bool, onFree: bool)
      modifies this`asleep
      ensures asleep == Woken(old(asleep), bp, onBuf, onFree)
    {
      if onBuf {
        asleep := map p | p in asleep && asleep[p] != ForBuffer(bp) && asleep[p] != ForTransfer(bp) :: asleep[p];
      }
      if onFree {
        asleep := map p | p in asleep && asleep[p] != ForFree :: asleep[p];
      }
    }

    /** brelse's surgery on the available list. */
    method LinkAvail(bp: Node)
      requires bp in buf && FREE in avf && FREE in avb
      modifies this`avf, this`avb, this`av
      ensures IsIntoAvail(old(Now()), Now(), bp)
    {
      if buf[bp].flags.age {
        var backp := avf[FREE];
        avf, avb := avf[bp := backp][FREE := bp], avb[bp := FREE][backp := bp];
        av := [bp] + av;
      } else {
        var backp := avb[FREE];
        avf, avb := avf[backp := bp][bp := FREE], avb[bp := backp][FREE := bp];
        av := av + [bp];
      }
    }

    ghost method Settle(bp: Node)
      requires Inv(Now()) && Releasable(Now(), bp)
      modifies this`truth, this`dirty
      ensures Now() == SettleStep(old(Now()), bp)
    {
      hide Inv, SettleStep;
      SettleKeeps(Now(), bp);
      ghost var m := SettleStep(Now(), bp);
      truth, dirty := m.truth, m.dirty;
    }

    /** brelse: a held buffer becomes available, and whoever waits for it or for any is woken. */
    method BRelse(bp: Node)
      requires Inv(Now()) && Releasable(Now(), bp)
      modifies this`avf, this`avb, this`av, this`buf, this`asleep, this`freeWanted, this`truth, this`dirty
      ensures Inv(Now()) && BRelseDone(old(Now()), Now(), bp) && Others(old(Now()), Now(), bp)
      ensures BRelseMeets(old(Now()), Now(), bp)
    {
      hide Inv, Others, SettleStep, Woken, BRelseDone, ReleaseStep, IntoAvail, IsIntoAvail, BRelseMeets;
      ghost var n := Now();
      SettleKeeps(n, bp);
      Settle(bp);
      ghost var m := Now();
      ReleaseKeeps(m, bp);
      Wakeup(bp, buf[bp].flags.wanted, freeWanted);
      freeWanted := false;
      LinkAvail(bp);
      buf := buf[bp := buf[bp].(flags := Released(buf[bp].flags))];
      ReleaseEnds(n, m, bp, Now());
      RelseMeets(n, m, bp, Now());
    }

    /** d_strategy of a write: the buffer is in the driver's hands. */
    method StartWrite(bp: Node)
      requires Inv(Now()) && Held(Now(), bp) && buf[bp].key.dev >= 0
      modifies this`io, this`buf, this`truth, this`dirty
      ensures Inv(Now()) && IsWrite(old(Now()), Now(), bp) && Others(old(Now()), Now(), bp)
    {
      hide Inv, Others;
      ghost var n := Now();
      WriteKeeps(n, bp);
      var h := buf[bp];
      buf := buf[bp := h.(flags := h.flags.(read := false, done := false, delwri := false, age := false))];
      io := io + {bp};
      truth, dirty := truth[h.key := h.data], dirty - {bp};
      assert Now() == WriteStep(n, bp);
    }

    /** bwrite, up to iowait: the contents are on their way; a caller that must wait for them sleeps. */
    method BWrite(p: Proc, bp: Node)
      requires Inv(Now()) && Held(Now(), bp) && buf[bp].key.dev >= 0
      modifies this`io, this`buf, this`asleep, this`truth, this`dirty
      ensures Inv(Now()) && BWriteDone(old(Now()), Now(), p, bp) && Others(old(Now()), Now(), bp)
    {
      hide Inv, Others, BWriteDone;
      ghost var n := Now();
      var flag := buf[bp].flags;
      StartWrite(bp);
      ghost var m := Now();
      AwaitOrAge(p, bp, flag);
      WriteEnds(n, m, p, bp, Now());
    }

    method AwaitOrAge(p: Proc, bp: Node, flag: Flags)
      requires bp in buf
      modifies this`buf, this`asleep
      ensures Now() == Awaited(old(Now()), p, bp, flag)
    {
      if !flag.async {
        asleep := asleep[p := ForTransfer(bp)];
      } else if flag.delwri {
        buf := buf[bp := buf[bp].(flags := buf[bp].flags.(age := true))];
      }
    }

    /** bawrite. */
    method BAWrite(bp: Node)
      requires Inv(Now()) && Held(Now(), bp) && buf[bp].key.dev >= 0
      modifies this`io, this`buf, this`asleep, this`truth, this`dirty
      ensures Inv(Now()) && BAWriteDone(old(Now()), Now(), bp) && Others(old(Now()), Now(), bp)
    {
      hide Inv, Others, BWriteDone, BAWriteDone;
      ghost var n := Now();
      ghost var g := buf[bp].flags.(async := true);
      FlagKeeps(n, bp, g);
      buf := buf[bp := buf[bp].(flags := buf[bp].flags.(async := true))];
      ghost var m := Now();
      BWrite(0, bp);
      OthersTrans(n, m, Now(), bp);
      SentAsync(n, m, bp, Now());
    }

    /** getblk's search for a free buffer that owes nothing; FREE if there is none. */
    method FindClean() returns (bp: Node)
      requires Inv(Now())
      ensures bp == if FirstClean(av, buf) < |av| then av[FirstClean(av, buf)] else FREE
      ensures bp != FREE ==> bp in av
    {
      hide Avail, Devs, Unique, Coherent, Sleepers;
      ghost var n := Now();
      ghost var i := 0;
      AvWalk(n, 0);
      bp := avf[FREE];
      while bp != FREE && bp in buf && buf[bp].flags.delwri
        invariant Now() == n && 0 <= i <= |av| && bp == if i < |av| then av[i] else FREE
        invariant i < |av| ==> bp in buf && bp in avf && bp != FREE
        invariant FirstClean(av, buf) == i + FirstClean(av[i..], buf)
        decreases |av| - i
      {
        assert av[i..][0] == bp && av[i..][1..] == av[i + 1..];
        i := i + 1;
        AvWalk(n, i);
        assert ([FREE] + av)[i] == bp;
        bp := avf[bp];
      }
    }

    /** The end of getblk: the buffer changes device and block, and its device's ring. */
    method Relink(bp: Node, dev: int, blkno: int, ghost was: Node, ghost k: nat)
      requires bp in buf && bp in f && bp in b && HeadOf(dev) in f && HeadOf(dev) in dl && f[bp] != bp && b[bp] != bp
      requires was in dl && k < |dl[was]| && dl[was][k] == bp
      modifies this`f, this`b, this`dl, this`buf
      ensures IsAssign(old(Now()), Now(), was, k, bp, Key(dev, blkno))
    {
      UnlinkOld(bp, was, k);
      LinkNew(bp, HeadOf(dev));
      buf := buf[bp := Hdr(BUSYONLY, Key(dev, blkno), buf[bp].data)];
    }

    method UnlinkOld(bp: Node, ghost was: Node, ghost k: nat)
      requires bp in f && bp in b && was in dl && k < |dl[was]|
      modifies this`f, this`b, this`dl
      ensures f == old(f[b[bp] := f[bp]]) && b == old(b[f[bp] := b[bp]])
      ensures dl == old(dl[was := dl[was][..k] + dl[was][k + 1..]])
    {
      f, b := f[b[bp] := f[bp]], b[f[bp] := b[bp]];
      dl := dl[was := dl[was][..k] + dl[was][k + 1..]];
    }

    method LinkNew(bp: Node, dp: Node)
      requires dp in f && dp in dl
      modifies this`f, this`b, this`dl
      ensures f == old(f[bp := f[dp]][dp := bp]) && b == old(b[bp := dp][f[dp] := bp])
      ensures dl == old(dl[dp := [bp] + dl[dp]])
    {
      var first := f[dp];
      f, b := f[bp := first][dp := bp], b[bp := dp][first := bp];
      dl := dl[dp := [bp] + dl[dp]];
    }

    method Reassign(bp: Node, dev: int, blkno: int)
      requires Inv(Now()) && Held(Now(), bp) && !buf[bp].flags.delwri && bp !in dirty
      requires IsHead(Now(), HeadOf(dev)) && forall p :: p in asleep ==> asleep[p] != ForBuffer(bp)
      requires Misses(Now(), Key(dev, blkno))
      modifies this`f, this`b, this`dl, this`buf
      ensures Inv(Now()) && Reassigned(old(Now()), Now(), bp, Key(dev, blkno))
    {
      hide Inv, Others, OnHead, AssignStep, Reassigned, Misses;
      ghost var n := Now();
      ghost var k := AssignFits(n, bp, Key(dev, blkno));
      Relink(bp, dev, blkno, HeadOf(buf[bp].key.dev), k);
      AssignEnds(n, k, bp, Key(dev, blkno), Now());
    }

    /** getblk's search: the block's buffer if it has one and it is not busy. */
    method TryHit(p: Proc, dev: int, blkno: int) returns (hit: bool, r: Outcome)
      requires Inv(Now()) && IsHead(Now(), HeadOf(dev)) && dev >= 0
      modifies this`avf, this`avb, this`av, this`buf, this`asleep
      ensures Inv(Now()) && (if hit then !Misses(old(Now()), Key(dev, blkno)) else Misses(Now(), Key(dev, blkno)))
      ensures if hit then GetBlkDone(old(Now()), Now(), p, Key(dev, blkno), r) else Now() == old(Now())
      ensures hit && r.Got? ==> Fresh(old(Now()), Now(), r.bp, Key(dev, blkno))
      ensures hit && r.Asleep? ==> Others(old(Now()), Now(), FREE)
    {
      hide Inv, Others, GetBlkDone, Fresh, IsHold;
      ghost var n := Now();
      ghost var key := Key(dev, blkno);
      var found, bp := Incore(dev, blkno);
      if !found {
        return false, Asleep;
      }
      if buf[bp].flags.busy {
        buf := buf[bp := buf[bp].(flags := buf[bp].flags.(wanted := true))];
        asleep := asleep[p := ForBuffer(bp)];
        DoneHitBusy(n, p, key, bp, Now());
        return true, Asleep;
      }
      NotAvail(bp);
      DoneHitFree(n, p, key, bp, Now());
      return true, Got(bp);
    }

    method Choose() returns (bp: Node)
      requires Inv(Now()) && av != []
      ensures Picked(Now(), bp) && bp in av && bp in buf && bp != FREE && !buf[bp].flags.busy
      ensures bp !in dirty && bp !in io && forall p :: p in asleep ==> asleep[p] != ForBuffer(bp)
    {
      hide Inv;
      AvFirst(Now());
      bp := FindClean();
      if bp == FREE {
        bp := avf[FREE];
      }
    }

    /** getblk's use of a free buffer: given to the block, or, if it owes, on its way to the disk. */
    method Claim(p: Proc, dev: int, blkno: int) returns (claimed: bool, r: Outcome)
      requires Inv(Now()) && av != [] && IsHead(Now(), HeadOf(dev)) && Misses(Now(), Key(dev, blkno))
      modifies this
      ensures Inv(Now()) && AllOwe(old(Now())) == !claimed
      ensures claimed ==> r.Got? && GetBlkDone(old(Now()), Now(), p, Key(dev, blkno), r)
      ensures !claimed ==> Flushing(old(Now()), Now())
      ensures claimed && r.Got? ==> Fresh(old(Now()), Now(), r.bp, Key(dev, blkno))
      ensures |av| < |old(av)|
    {
      hide Inv, Others, GetBlkDone, Fresh, Flushing, IsHold, BAWriteDone, Reassigned, Misses, AllOwe, Picked;
      ghost var m := Now();
      ghost var key := Key(dev, blkno);
      var bp := Choose();
      NotAvail(bp);
      ghost var m1 := Now();
      if !buf[bp].flags.delwri {
        HoldMisses(m, m1, bp, key);
        Reassign(bp, dev, blkno);
        DoneAssign(m, m1, p, key, bp, Now());
        return true, Got(bp);
      }
      DelwriDev(m, bp);
      BAWrite(bp);
      PickedOwes(m, bp);
      OwedIsTruth(m, bp);
      HoldBuf(m, m1, bp);
      FlushOne(m, m1, bp, Now());
      return false, Asleep;
    }

    /** getblk, one uninterrupted run: a buffer for the block, or process `p` asleep. */
    method GetBlk(p: Proc, dev: int, blkno: int) returns (r: Outcome)
      requires Inv(Now()) && IsHead(Now(), HeadOf(dev))
      modifies this
      ensures Inv(Now()) && GetBlkDone(old(Now()), Now(), p, Key(dev, blkno), r)
      ensures r.Got? ==> Fresh(old(Now()), Now(), r.bp, Key(dev, blkno))
      ensures r.Asleep? ==> Others(old(Now()), Now(), FREE)
    {
      hide Inv, Others, GetBlkDone, Fresh, Flushing, Misses, AllOwe;
      ghost var n := Now();
      ghost var key := Key(dev, blkno);
      ghost var m := n;
      FlushingSelf(n);
      AvFirst(n);
      while true
        invariant m == Now() && Inv(m) && Flushing(n, m)
        invariant m == n || (AllOwe(n) && Misses(n, key))
        decreases |av|
      {
        var done := false;
        if dev >= 0 {
          done, r := TryHit(p, dev, blkno);
          if done {
            StillCached(n, m, key);
            return;
          }
        }
        NoDevMisses(m, key);
        AvFirst(m);
        if avf[FREE] == FREE {
          freeWanted := true;
          asleep := asleep[p := ForFree];
          DoneNone(n, m, p, key, Now());
          return Asleep;
        }
        done, r := Claim(p, dev, blkno);
        OweKept(n, m);
        if done {
          return;
        }
        FlushMore(n, m, Now(), key);
        m := Now();
      }
    }

    /** The holder of a buffer puts new contents in it. */
    method Modify(bp: Node, data: Block)
      requires Inv(Now()) && Held(Now(), bp)
      modifies this`buf, this`dirty
      ensures Inv(Now()) && Others(old(Now()), Now(), bp)
      ensures dirty == old(dirty) + {bp} && buf == old(buf)[bp := old(buf)[bp].(data := data)]
    {
      hide Inv, Others;
      ModifyKeeps(Now(), bp, data);
      ghost var n := Now();
      buf := buf[bp := buf[bp].(data := data)];
      dirty := dirty + {bp};
      assert Now() == ModifyStep(n, bp, data);
    }

    /** bdwrite: magtapes are written in the order asked; other devices can wait. */
    method BDWrite(bp: Node)
      requires Inv(Now()) && Held(Now(), bp) && buf[bp].key.dev >= 0
      modifies this
      ensures Inv(Now()) && Others(old(Now()), Now(), bp) && TruthBecomes(old(Now()), Now(), bp)
      ensures DelayedOrSent(Now(), bp, old(buf[bp]).key.dev / 256 in tapes)
      ensures if old(buf[bp]).key.dev / 256 in tapes then BAWriteDone(old(Now()), Now(), bp)
              else BRelseMeets(DelayStep(old(Now()), bp), Now(), bp)
    {
      hide Inv, Others, BRelseDone, BAWriteDone, DelayStep, TruthBecomes, DelayedOrSent, BRelseMeets;
      ghost var n := Now();
      if buf[bp].key.dev / 256 in tapes {
        BAWrite(bp);
        SentTruth(n, bp, Now());
      } else {
        MarkDelayed(bp);
        ghost var m := Now();
        BRelse(bp);
        OthersTrans(n, m, Now(), bp);
        DelayedTruth(n, m, bp, Now());
      }
    }

    method MarkDelayed(bp: Node)
      requires Inv(Now()) && Held(Now(), bp) && buf[bp].key.dev >= 0
      modifies this`buf, this`truth, this`dirty
      ensures Inv(Now()) && Now() == DelayStep(old(Now()), bp) && Others(old(Now()), Now(), bp)
      ensures Releasable(Now(), bp)
    {
      hide Inv, Others;
      ghost var n := Now();
      DelayKeeps(n, bp);
      buf := buf[bp := buf[bp].(flags := buf[bp].flags.(done := true, delwri := true))];
      truth, dirty := truth[buf[bp].key := buf[bp].data], dirty - {bp};
      assert Now() == DelayStep(n, bp);
    }

    /** iowait: whether the transfer is over; if not, process `p` sleeps for it. */
    method IoWait(p: Proc, bp: Node) returns (ready: bool)
      requires Inv(Now()) && bp in buf && (buf[bp].flags.done || (bp in io && !buf[bp].flags.async))
      modifies this`asleep
      ensures Inv(Now()) && ready == buf[bp].flags.done
      ensures asleep == if ready then old(asleep) else old(asleep)[p := ForTransfer(bp)]
      ensures ready && bp !in dirty && buf[bp].key.dev >= 0 ==> buf[bp].data == Look(truth, buf[bp].key)
    {
      hide Inv;
      ghost var n := Now();
      ready := buf[bp].flags.done;
      UpToDate(n, bp);
      if !ready {
        asleep := asleep[p := ForTransfer(bp)];
        SleepKeeps(n, p, ForTransfer(bp), Now());
      }
    }

    /** d_strategy of a read. */
    method StartRead(bp: Node)
      requires Inv(Now()) && Held(Now(), bp) && bp !in dirty && !buf[bp].flags.done && buf[bp].key.dev >= 0
      modifies this`io, this`buf
      ensures Inv(Now()) && Now() == ReadStep(old(Now()), bp) && Others(old(Now()), Now(), bp)
    {
      hide Inv, Others;
      ghost var n := Now();
      ReadKeeps(n, bp);
      buf := buf[bp := buf[bp].(flags := buf[bp].flags.(read := true))];
      io := io + {bp};
      assert Now() == ReadStep(n, bp);
    }

    /** bread, up to iowait: the block's buffer, with the block in it or on its way. */
    method BRead(p: Proc, dev: int, blkno: int) returns (r: Outcome, ready: bool)
      requires Inv(Now()) && IsHead(Now(), HeadOf(dev)) && dev >= 0
      modifies this
      ensures Inv(Now()) && SameTruth(old(Now()), Now()) && BReadMeets(old(Now()), Now(), p, Key(dev, blkno), r, ready)
      ensures r.Asleep? <==> MustWait(old(Now()), Key(dev, blkno))
      ensures r.Got? ==> r.bp in old(av) && BReadDone(Now(), p, r.bp, Key(dev, blkno), ready)
      ensures r.Got? ==> Others(old(Now()), Now(), r.bp)
    {
      hide Inv, Others, GetBlkDone, Fresh, BReadDone, BReadMeets, MustWait, ReadStep;
      ghost var n := Now();
      r := GetBlk(p, dev, blkno);
      GotFacts(n, Now(), p, Key(dev, blkno), r);
      WaitsIff(n, Now(), p, Key(dev, blkno), r);
      if r.Asleep? {
        return r, false;
      }
      ghost var m := Now();
      ready := buf[r.bp].flags.done;
      if ready {
        UpToDate(m, r.bp);
      } else {
        StartRead(r.bp);
        ghost var m1 := Now();
        asleep := asleep[p := ForTransfer(r.bp)];
        ReadFacts(m, r.bp);
        OthersSame(m, m1, Now(), r.bp);
        OthersTrans(n, m, Now(), r.bp);
        SleepKeeps(m1, p, ForTransfer(r.bp), Now());
      }
      GotMeets(n, m, Now(), p, Key(dev, blkno), r, ready);
      BReadEnds(Now(), p, r.bp, Key(dev, blkno), ready);
    }

    /** The first part of breada: unless the block is cached a buffer is got for it, and the read started;
        what is left is bread if it was, iowait if not. */
    method ReadWanted(p: Proc, dev: int, blkno: int) returns (cached: bool, r: Outcome)
      requires Inv(Now()) && IsHead(Now(), HeadOf(dev)) && dev >= 0
      modifies this
      ensures Inv(Now()) && SameTruth(old(Now()), Now())
      ensures cached ==> Now() == old(Now()) && exists x :: Caches(Now(), x, Key(dev, blkno))
      ensures !cached ==> forall x :: !Caches(old(Now()), x, Key(dev, blkno))
      ensures !cached ==> MissMeets(old(Now()), Now(), p, Key(dev, blkno), r)
      ensures !cached && r.Got? ==> r.bp in old(av) && Reading(Now(), r.bp, Key(dev, blkno))
      ensures !cached && r.Asleep? ==> Others(old(Now()), Now(), FREE)
    {
      hide Inv, Others, GetBlkDone, Fresh, MissMeets;
      ghost var n := Now();
      var bp;
      cached, bp := Incore(dev, blkno);
      r := Asleep;
      if !cached {
        r := GetBlk(p, dev, blkno);
        ghost var m := Now();
        GotFacts(n, m, p, Key(dev, blkno), r);
        NotCached(n, m, p, Key(dev, blkno), r);
        if r.Got? {
          StartRead(r.bp);
        }
        MissIs(n, m, Now(), p, Key(dev, blkno), r);
      }
    }

    /** The read-ahead part of breada: start reading a block nobody waits for, if a buffer seems free. */
    method ReadAhead(p: Proc, dev: int, rablkno: int) returns (slept: bool)
      requires Inv(Now()) && IsHead(Now(), HeadOf(dev)) && dev >= 0
      modifies this
      ensures Inv(Now()) && SameTruth(old(Now()), Now()) && Others(old(Now()), Now(), FREE)
      ensures rablkno != 0 && old(av) != [] && !slept ==> exists x :: Caches(Now(), x, Key(dev, rablkno))
      ensures if rablkno != 0 && old(av) != [] && Misses(old(Now()), Key(dev, rablkno))
              then AheadMeets(old(Now()), Now(), p, Key(dev, rablkno), slept)
              else !slept && Now() == old(Now())
    {
      hide Inv, Others, GetBlkDone, Fresh, BRelseDone, AheadMeets;
      ghost var n := Now();
      OthersSelf(n, FREE);
      slept := false;
      if rablkno != 0 {
        AvFirst(n);
        var found, bp := Incore(dev, rablkno);
        if !found && avf[FREE] != FREE {
          var r := GetBlk(p, dev, rablkno);
          ghost var m := Now();
          GotFacts(n, m, p, Key(dev, rablkno), r);
          NotCached(n, m, p, Key(dev, rablkno), r);
          slept := r.Asleep?;
          if !slept {
            AheadOf(p, r.bp, n);
          }
          AheadIs(n, m, Now(), p, Key(dev, rablkno), r);
        }
      }
    }

    method AheadOf(p: Proc, bp: Node, ghost n: Cache)
      requires Inv(Now()) && Held(Now(), bp) && bp !in dirty && buf[bp].key.dev >= 0 && Fresh(n, Now(), bp, buf[bp].key)
      requires forall x :: x in n.av ==> x in n.buf && !n.buf[x].flags.busy && x !in n.dirty && x !in n.io
      requires SameTruth(n, Now())
      modifies this
      ensures Inv(Now()) && SameTruth(n, Now()) && Others(n, Now(), FREE)
      ensures Caches(Now(), bp, old(buf[bp].key))
      ensures !old(buf[bp].flags.done) ==> AheadStarted(old(Now()), Now(), bp)
    {
      hide Inv, Others, BRelseDone, FlagStep, ReadStep;
      ghost var m := Now();
      if buf[bp].flags.done {
        BRelse(bp);
        RelseTruth(m, bp, Now());
        RelseKey(m, bp, Now());
      } else {
        ghost var g := buf[bp].flags.(async := true);
        FlagKeeps(m, bp, g);
        buf := buf[bp := buf[bp].(flags := buf[bp].flags.(async := true))];
        ghost var m1 := Now();
        FlagIs(m, bp, g, m1);
        StartRead(bp);
        OthersTrans(m, m1, Now(), bp);
        ReadIs(m1, bp);
        AheadSteps(m, m1, bp, g);
      }
      OthersTrans(n, m, Now(), bp);
      OthersOfFree(n, Now(), bp);
    }

    /** iodone: the transfer is over.  If nobody asked to wait for it the buffer is released. */
    method IoDone(bp: Node)
      requires Inv(Now()) && bp in io && bp in buf
      modifies this
      ensures Inv(Now()) && IoIsDone(old(Now()), Now(), bp) && Others(old(Now()), Now(), bp)
    {
      hide Inv, Others, TransferStep, BRelseDone, IoIsDone;
      ghost var n := Now();
      Transfer(bp);
      ghost var m := Now();
      TransferIs(n, bp);
      if buf[bp].flags.async {
        AsyncDone(n, bp);
        BRelse(bp);
        OthersTrans(n, m, Now(), bp);
        AsyncIsDone(n, m, bp, Now());
      } else {
        WakeKeeps(n, bp);
        buf := buf[bp := buf[bp].(flags := buf[bp].flags.(wanted := false))];
        Wakeup(bp, true, false);
        assert Now() == WakeStep(m, bp);
        SyncIsDone(n, m, bp, Now());
      }
    }

    /** What the device does, and iodone's B_DONE. */
    method Transfer(bp: Node)
      requires bp in buf
      modifies this`io, this`disk, this`buf
      ensures Now() == TransferStep(old(Now()), bp)
    {
      var h := buf[bp];
      if h.flags.read {
        buf := buf[bp := h.(data := Look(disk, h.key), flags := h.flags.(done := true))];
      } else {
        disk := disk[h.key := h.data];
        buf := buf[bp := h.(flags := h.flags.(done := true))];
      }
      io := io - {bp};
    }

    /** bflush's scan: an available buffer that owes to `dev`, or to any device if that is NODEV. */
    method FindOwing(dev: int) returns (bp: Node)
      requires Inv(Now())
      ensures bp != FREE ==> bp in av && bp in buf && OwesTo(buf[bp], dev)
      ensures bp == FREE ==> forall x :: x in av ==> x in buf && !OwesTo(buf[x], dev)
    {
      hide Avail, Devs, Unique, Coherent, Sleepers;
      ghost var n := Now();
      ghost var i := 0;
      AvWalk(n, 0);
      bp := avf[FREE];
      while bp != FREE
        invariant Now() == n && 0 <= i <= |av| && bp == if i < |av| then av[i] else FREE
        invariant i < |av| ==> bp in buf && bp in avf && bp != FREE
        invariant forall j :: 0 <= j < i ==> av[j] in buf && !OwesTo(buf[av[j]], dev)
        decreases |av| - i
      {
        if buf[bp].flags.delwri && (dev == -1 || dev == buf[bp].key.dev) {
          return;
        }
        i := i + 1;
        AvWalk(n, i);
        assert ([FREE] + av)[i] == bp;
        bp := avf[bp];
      }
    }

    /** bflush: every available buffer that owes to `dev` starts to be written. */
    method BFlush(dev: int)
      requires Inv(Now())
      modifies this
      ensures Inv(Now()) && Flushing(old(Now()), Now())
      ensures forall x :: x in old(av) ==> x in old(buf) && (x in av <==> !OwesTo(old(buf)[x], dev))
    {
      hide Inv, Others, Flushing, IsHold, BAWriteDone;
      ghost var n := Now();
      FlushingSelf(n);
      var bp := FindOwing(dev);
      while bp != FREE
        invariant Inv(Now()) && Flushing(n, Now())
        invariant bp != FREE ==> bp in av && bp in buf && OwesTo(buf[bp], dev)
        invariant bp == FREE ==> forall x :: x in av ==> x in buf && !OwesTo(buf[x], dev)
        invariant OnlyOwing(n, Now(), dev)
        decreases |av|
      {
        AllAvailKnown(n, Now());
        FlushBuf(bp, n);
        bp := FindOwing(dev);
      }
      AllAvailKnown(n, Now());
    }

    method FlushBuf(bp: Node, ghost n: Cache)
      requires Inv(Now()) && Flushing(n, Now()) && bp in av && bp in buf && buf[bp].flags.delwri
      modifies this
      ensures Inv(Now()) && Flushing(n, Now()) && |av| < |old(av)|
      ensures forall x :: x in av <==> x in old(av) && x != bp
    {
      hide Inv, Others, Flushing, IsHold, BAWriteDone;
      ghost var m := Now();
      AvFirst(m);
      DelwriDev(m, bp);
      NotAvail(bp);
      ghost var m1 := Now();
      BAWrite(bp);
      OwedIsTruth(m, bp);
      HoldBuf(m, m1, bp);
      FlushOne(m, m1, bp, Now());
      FlushingTrans(n, m, Now());
    }
  }

  /** The first `i` buffers are set up. */
  ghost predicate Booted(n: Cache, i: nat) {
    && FREE in n.dl && DRing(n.f, n.b, [FREE] + n.dl[FREE]) && DRing(n.avf, n.avb, [FREE] + n.av)
    && (forall x: Node :: x in n.dl[FREE] <==> x < i) && (forall x: Node :: x in n.av <==> x < i)
    && (forall x: Node :: x in n.buf <==> x < i)
    && forall x :: x in n.buf ==> n.buf[x] == Hdr(Released(BUSYONLY), Key(-1, 0), [])
  }

  /** Buffer `x` is for no block and owes nothing. */
  ghost predicate Blank(n: Cache, x: Node) {
    x in n.buf && n.buf[x].key.dev < 0 && !n.buf[x].flags.done && !n.buf[x].flags.delwri
  }

  ghost predicate Heads(n: Cache, h: Node) {
    forall g: Node :: FREE < g < h ==> EmptyHead(n, g)
  }

  ghost predicate EmptyHead(n: Cache, g: Node) {
    g in n.dl && n.dl[g] == [] && DRing(n.f, n.b, [g])
  }

  lemma BootNone(n: Cache)
    requires n.f == map[FREE := FREE] && n.b == n.f && n.avf == n.f && n.avb == n.f
    requires n.buf == map[] && n.av == [] && n.dl == map[FREE := []]
    ensures Booted(n, 0)
  {
    assert [FREE] + n.av == [FREE];
  }

  lemma BootLinks(n: Cache, i: nat)
    requires Booted(n, i)
    ensures FREE in n.f && FREE in n.avb && FREE in n.b && FREE in n.avf && FREE in n.dl
  {
    assert LinkedAt(n.f, n.b, [FREE] + n.dl[FREE], 0);
    assert LinkedAt(n.avf, n.avb, [FREE] + n.av, 0);
  }

  lemma BootMore(n: Cache, i: nat, n': Cache)
    requires Booted(n, i) && i < NBUF
    requires FREE in n.f && FREE in n.avb && FREE in n.b && FREE in n.avf
    requires n'.f == n.f[i := n.f[FREE]][FREE := i] && n'.b == n.b[i := FREE][n.f[FREE] := i]
    requires n'.avf == n.avf[n.avb[FREE] := i][i := FREE] && n'.avb == n.avb[i := n.avb[FREE]][FREE := i]
    requires n'.dl == n.dl[FREE := [i] + n.dl[FREE]] && n'.av == n.av + [i]
    requires n'.buf == n.buf[i := Hdr(Released(BUSYONLY), Key(-1, 0), [])]
    ensures Booted(n', i + 1)
  {
    var s, t := [FREE] + n.dl[FREE], [FREE] + n.av;
    LinkFront(n.f, n.b, s, i, n'.f, n'.b);
    assert [FREE, i] + s[1..] == [FREE] + n'.dl[FREE];
    LinkBack(n.avf, n.avb, t, i, n'.avf, n'.avb);
    assert t + [i] == [FREE] + n'.av;
  }

  lemma HeadMore(n: Cache, h: Node, n': Cache)
    requires Booted(n, NBUF) && Heads(n, h) && h > FREE
    requires n'.f == n.f[h := h] && n'.b == n.b[h := h] && n'.dl == n.dl[h := []]
    requires n'.avf == n.avf && n'.avb == n.avb && n'.av == n.av && n'.buf == n.buf
    ensures Booted(n', NBUF) && Heads(n', h + 1)
  {
    RingKept(n.f, n.b, [FREE] + n.dl[FREE], n'.f, n'.b, {h});
    forall g: Node | FREE < g < h + 1 ensures EmptyHead(n', g) {
      if g < h {
        assert EmptyHead(n, g);
        RingKept(n.f, n.b, [g], n'.f, n'.b, {h});
      } else {
        assert LinkedAt(n'.f, n'.b, [g], 0);
      }
    }
  }

  lemma BootEnds(n: Cache)
    requires Booted(n, NBUF) && Heads(n, FREE + 1 + n.majors)
    requires n.truth == n.disk && n.io == {} && n.asleep == map[] && !n.freeWanted && n.dirty == {}
    ensures Inv(n) && forall x: Node :: x < NBUF ==> x in n.av && Blank(n, x)
  {
    hide DRing;
    forall h: Node | IsHead(n, h) ensures OnHead(n, h) {
      assert h > FREE ==> EmptyHead(n, h);
      assert [h] + [] == [h];
    }
    assert Coherent(n) by {
      forall x | x in n.buf ensures DataOk(n, x) {
      }
    }
  }

  /** Whatever is no longer available owed to `dev`. */
  ghost predicate OnlyOwing(n: Cache, m: Cache, dev: int) {
    forall x :: x in n.av && x !in m.av ==> x in n.buf && OwesTo(n.buf[x], dev)
  }

  /** What is still available is as it was. */
  lemma AllAvailKnown(n: Cache, m: Cache)
    requires Inv(n) && Inv(m) && Flushing(n, m)
    ensures forall x :: x in n.av ==> x in n.buf
    ensures forall x :: x in m.av ==> x in n.av && x in n.buf && m.buf[x] == n.buf[x]
  {
    hide Devs, Unique, Coherent, Sleepers, Others;
  }

  predicate OwesTo(h: Hdr, dev: int) {
    h.flags.delwri && (dev == -1 || dev == h.key.dev)
  }

  /** After iodone: block and buffer agree, the disk has what was written, nobody sleeps on it in vain. */
  ghost predicate IoIsDone(n: Cache, n': Cache, x: Node) {
    && x in n.buf && x in n'.buf && n'.buf[x].key == n.buf[x].key && SameTruth(n, n') && n'.io == n.io - {x}
    && n'.buf[x].flags.done && n'.buf[x].data == Look(n.truth, n.buf[x].key)
    && n'.disk == (if n.buf[x].flags.read then n.disk else n.disk[n.buf[x].key := n.buf[x].data])
    && (if n.buf[x].flags.async then x in n'.av && !n'.buf[x].flags.busy else n'.buf[x].flags.busy)
    && n'.av == (if !n.buf[x].flags.async then n.av else if n.buf[x].flags.age then [x] + n.av else n.av + [x])
    && (forall p :: p in n'.asleep <==> p in n.asleep && n.asleep[p] != ForBuffer(x) && n.asleep[p] != ForTransfer(x)
                                        && !(n.buf[x].flags.async && n.asleep[p] == ForFree))
    && forall p :: p in n'.asleep ==> n'.asleep[p] == n.asleep[p]
  }

  lemma OthersSelf(n: Cache, x: Node)
    ensures Others(n, n, x)
  {
  }

  lemma OthersOfFree(n: Cache, n': Cache, x: Node)
    requires Others(n, n', x) && x in n.buf && !n.buf[x].flags.busy
    ensures Others(n, n', FREE)
  {
  }

  /**
   brelse, for those who wait: nobody is left asleep for buffer `x` or for any buffer, and everybody else
   sleeps on.  The buffer is the first to be taken for another block if it was aged, and the last if not;
   it keeps its block, its contents and whether they are valid and owed.
   */
  ghost predicate BRelseMeets(n: Cache, n': Cache, x: Node) {
    && x in n.buf && x in n'.buf
    && (forall p :: p in n'.asleep <==> p in n.asleep && n.asleep[p] != ForBuffer(x) && n.asleep[p] != ForFree)
    && (forall p :: p in n'.asleep ==> n'.asleep[p] == n.asleep[p])
    && n'.av == (if n.buf[x].flags.age then [x] + n.av else n.av + [x])
    && n'.buf[x].key == n.buf[x].key && n'.buf[x].data == n.buf[x].data
    && n'.buf[x].flags == n.buf[x].flags.(busy := false, wanted := false, async := false, age := false)
    && n'.io == n.io && n'.disk == n.disk && !n'.freeWanted
  }

  lemma RelseMeets(n: Cache, m: Cache, x: Node, n': Cache)
    requires Inv(n) && Held(n, x) && m == SettleStep(n, x) && BRelseDone(n, n', x)
    requires m == n.(truth := m.truth, dirty := m.dirty)
    ensures BRelseMeets(n, n', x)
  {
    hide SettleStep, Coherent, Unique, Devs, Avail, Bufs, Sleepers;
    WhoSleeps(n, x);
  }

  lemma RelseTruth(n: Cache, x: Node, n': Cache)
    requires BRelseDone(n, n', x) && x !in n.dirty
    ensures SameTruth(n, n')
  {
  }

  lemma FlagIs(n: Cache, x: Node, g: Flags, n': Cache)
    requires x in n.buf && n' == n.(buf := n.buf[x := n.buf[x].(flags := g)])
    ensures n' == FlagStep(n, x, g)
  {
  }

  lemma ReadIs(n: Cache, x: Node)
    requires x in n.buf
    ensures ReadStep(n, x).truth == n.truth && Caches(ReadStep(n, x), x, n.buf[x].key)
  {
  }

  lemma TransferIs(n: Cache, x: Node)
    requires x in n.buf
    ensures x in TransferStep(n, x).buf && TransferStep(n, x).buf[x].flags == n.buf[x].flags.(done := true)
  {
  }

  lemma AsyncIsDone(n: Cache, m: Cache, x: Node, n': Cache)
    requires Inv(n) && x in n.buf && x in n.io && n.buf[x].flags.async
    requires m == TransferStep(n, x) && BRelseDone(m, n', x)
    ensures IoIsDone(n, n', x)
  {
    hide Bufs, Avail, Devs, Sleepers, Unique, Coherent;
    TransferCoherent(n, x);
    InIo(n, x);
    WhoSleeps(n, x);
  }

  lemma WhoSleeps(n: Cache, x: Node)
    requires Sleepers(n) && x in n.buf
    ensures forall p :: p in n.asleep && n.asleep[p] == ForBuffer(x) ==> n.buf[x].flags.wanted
    ensures forall p :: p in n.asleep && n.asleep[p] == ForTransfer(x) ==> x in n.io && !n.buf[x].flags.async
    ensures forall p :: p in n.asleep && n.asleep[p] == ForFree ==> n.freeWanted
  {
    forall p | p in n.asleep ensures Justified(n, n.asleep[p]) {
    }
  }

  lemma SyncIsDone(n: Cache, m: Cache, x: Node, n': Cache)
    requires Inv(n) && x in n.buf && x in n.io && !n.buf[x].flags.async
    requires m == TransferStep(n, x) && n' == WakeStep(m, x)
    ensures IoIsDone(n, n', x)
  {
    hide Bufs, Avail, Devs, Sleepers, Unique, Coherent;
    TransferCoherent(n, x);
    InIo(n, x);
  }

  ghost predicate TruthBecomes(n: Cache, n': Cache, x: Node) {
    && x in n.buf && Look(n'.truth, n.buf[x].key) == n.buf[x].data
    && forall k :: k != n.buf[x].key ==> Look(n'.truth, k) == Look(n.truth, k)
  }

  /** What bdwrite leaves: a buffer being written with nobody waiting, or an available one that owes. */
  ghost predicate DelayedOrSent(n: Cache, x: Node, tape: bool) {
    && x in n.buf
    && if tape then x in n.io && !n.buf[x].flags.read && n.buf[x].flags.async
       else x in n.av && n.buf[x].flags.delwri && n.buf[x].flags.done
  }

  lemma SentTruth(n: Cache, x: Node, n': Cache)
    requires BAWriteDone(n, n', x)
    ensures TruthBecomes(n, n', x) && DelayedOrSent(n', x, true)
  {
  }

  lemma DelayedTruth(n: Cache, m: Cache, x: Node, n': Cache)
    requires x in n.buf && m == DelayStep(n, x) && BRelseDone(m, n', x)
    ensures TruthBecomes(n, n', x) && DelayedOrSent(n', x, false)
  {
  }

  lemma UpToDate(n: Cache, x: Node)
    requires Inv(n) && x in n.buf
    ensures n.buf[x].flags.done && x !in n.dirty && n.buf[x].key.dev >= 0 ==>
        n.buf[x].data == Look(n.truth, n.buf[x].key)
  {
    DoneIsTruth(n, x);
  }

  /** bread has the block, or sleeps until a read of it is over. */
  ghost predicate BReadDone(n: Cache, p: Proc, x: Node, key: Key, ready: bool) {
    && x in n.buf && n.buf[x].key == key && n.buf[x].flags.busy && x !in n.dirty
    && if ready then x !in n.io && n.buf[x].flags.done && n.buf[x].data == Look(n.truth, key)
       else x in n.io && n.buf[x].flags.read && p in n.asleep && n.asleep[p] == ForTransfer(x)
  }

  /** Whoever asks for the block must wait: its buffer is busy, or it has none and no available one is clean. */
  ghost predicate MustWait(n: Cache, key: Key) {
    (exists x :: Caches(n, x, key) && n.buf[x].flags.busy) || ((forall x :: !Caches(n, x, key)) && AllOwe(n))
  }

  /**
   bread from the caller's side.  A cached block: process `p` sleeps for its buffer if that is busy, has it
   at once if B_DONE is on, and otherwise sleeps for the read.  A block not cached: the first clean available
   buffer is being read into and `p` sleeps for that, or, there being none, `p` sleeps for any buffer.
   */
  ghost predicate BReadMeets(n: Cache, n': Cache, p: Proc, key: Key, r: Outcome, ready: bool) {
    && (r.Asleep? ==> !ready)
    && (forall x :: Caches(n, x, key) ==>
          if n.buf[x].flags.busy
          then r == Asleep && n'.asleep == n.asleep[p := ForBuffer(x)] && n'.io == n.io && n'.av == n.av
          else r == Got(x) && TakenOff(n.av, n'.av, x) && (ready <==> n.buf[x].flags.done)
               && n'.asleep == (if ready then n.asleep else n.asleep[p := ForTransfer(x)])
               && n'.io == (if ready then n.io else n.io + {x}))
    && ((forall x :: !Caches(n, x, key)) ==>
          !ready && var k := FirstClean(n.av, n.buf);
          if k < |n.av|
          then r == Got(n.av[k]) && n'.asleep == n.asleep[p := ForTransfer(n.av[k])] && n'.io == n.io + {n.av[k]}
               && TakenOff(n.av, n'.av, n.av[k])
          else r == Asleep && n'.asleep == n.asleep[p := ForFree] && n'.av == []
               && forall x :: x in n.av ==> x in n'.io)
  }

  lemma WaitsIff(n: Cache, m: Cache, p: Proc, key: Key, r: Outcome)
    requires GetBlkDone(n, m, p, key, r) && key.dev >= 0
    ensures r.Asleep? <==> MustWait(n, key)
    ensures r.Asleep? ==> BReadMeets(n, m, p, key, r, false)
  {
    hide IsHold, Others, Reassigned, SameTruth;
    assert (exists x :: Caches(n, x, key)) || forall x :: !Caches(n, x, key);
  }

  lemma ReadFacts(m: Cache, x: Node)
    requires x in m.buf
    ensures ReadStep(m, x).io == m.io + {x} && ReadStep(m, x).asleep == m.asleep && ReadStep(m, x).av == m.av
    ensures x in ReadStep(m, x).buf && ReadStep(m, x).buf[x] == m.buf[x].(flags := m.buf[x].flags.(read := true))
  {
  }

  /** From getblk's buffer to bread's: B_DONE decides. */
  lemma GotMeets(n: Cache, m: Cache, n': Cache, p: Proc, key: Key, r: Outcome, ready: bool)
    requires GetBlkDone(n, m, p, key, r) && key.dev >= 0 && r.Got? && r.bp in m.buf && r.bp in n.av
    requires ready <==> m.buf[r.bp].flags.done
    requires n'.io == (if ready then m.io else m.io + {r.bp}) && n'.av == m.av
    requires n'.asleep == if ready then m.asleep else m.asleep[p := ForTransfer(r.bp)]
    ensures BReadMeets(n, n', p, key, r, ready)
  {
    hide Others, SameTruth, HoldStep;
    if x :| Caches(n, x, key) {
      assert IsHold(n, m, r.bp);
      HoldBuf(n, m, r.bp);
      HoldTakesOff(n, m, r.bp);
    }
  }

  lemma GotFacts(n: Cache, n': Cache, p: Proc, key: Key, r: Outcome)
    requires GetBlkDone(n, n', p, key, r) && (r.Got? ==> Fresh(n, n', r.bp, key))
    ensures SameTruth(n, n')
    ensures r.Got? ==> r.bp in n.av && Held(n', r.bp) && r.bp !in n'.dirty && n'.buf[r.bp].key == key
    ensures r.Got? ==> !n'.buf[r.bp].flags.async && Others(n, n', r.bp)
  {
    hide Others;
  }

  /** A read of the block is under way, for whoever called. */
  ghost predicate Reading(n: Cache, x: Node, key: Key) {
    && x in n.buf && n.buf[x].key == key && n.buf[x].flags.busy && x !in n.dirty
    && x in n.io && n.buf[x].flags.read && !n.buf[x].flags.async
  }

  /** For a block not cached: the first clean available buffer is being read into, or, there being none, every
      one is being written and process `p` sleeps for any. */
  ghost predicate MissMeets(n: Cache, n': Cache, p: Proc, key: Key, r: Outcome) {
    var k := FirstClean(n.av, n.buf);
    if k < |n.av|
    then r == Got(n.av[k]) && n'.asleep == n.asleep && n'.io == n.io + {n.av[k]} && TakenOff(n.av, n'.av, n.av[k])
    else r == Asleep && n'.asleep == n.asleep[p := ForFree] && n'.av == [] && forall x :: x in n.av ==> x in n'.io
  }

  lemma MissIs(n: Cache, m: Cache, n': Cache, p: Proc, key: Key, r: Outcome)
    requires GetBlkDone(n, m, p, key, r) && key.dev >= 0 && forall x :: !Caches(n, x, key)
    requires if r.Got? then n'.io == m.io + {r.bp} && n'.asleep == m.asleep && n'.av == m.av else n' == m
    ensures MissMeets(n, n', p, key, r)
  {
    hide Others, IsHold, SameTruth, Reassigned;
  }

  /** The read of buffer `x` is started and nobody sleeps for it. */
  ghost predicate AheadStarted(m: Cache, n': Cache, x: Node) {
    && n'.io == m.io + {x} && n'.asleep == m.asleep && n'.av == m.av && x in n'.buf
    && n'.buf[x].flags.busy && n'.buf[x].flags.read && n'.buf[x].flags.async
  }

  lemma AheadSteps(m: Cache, m1: Cache, x: Node, g: Flags)
    requires x in m.buf && m1 == FlagStep(m, x, g) && g == m.buf[x].flags.(async := true) && g.busy
    ensures x in m1.buf && AheadStarted(m, ReadStep(m1, x), x)
  {
  }

  /** breada's second block, not cached, with a buffer that seems free: read for nobody, unless all owe. */
  ghost predicate AheadMeets(n: Cache, n': Cache, p: Proc, key: Key, slept: bool) {
    var k := FirstClean(n.av, n.buf);
    && (slept <==> AllOwe(n)) && MissMeets(n, n', p, key, if k < |n.av| then Got(n.av[k]) else Asleep)
    && (k < |n.av| ==> Caches(n', n.av[k], key) && n'.buf[n.av[k]].flags.read && n'.buf[n.av[k]].flags.async)
  }

  lemma AheadIs(n: Cache, m: Cache, n': Cache, p: Proc, key: Key, r: Outcome)
    requires GetBlkDone(n, m, p, key, r) && key.dev >= 0 && forall x :: !Caches(n, x, key)
    requires if r.Got? then AheadStarted(m, n', r.bp) && Caches(n', r.bp, key) else n' == m
    ensures AheadMeets(n, n', p, key, r.Asleep?)
  {
    hide Others, IsHold, SameTruth, Reassigned;
  }

  lemma NotCached(n: Cache, n': Cache, p: Proc, key: Key, r: Outcome)
    requires GetBlkDone(n, n', p, key, r) && key.dev >= 0 && forall x :: !Caches(n, x, key)
    ensures r.Got? ==> r.bp in n'.buf && !n'.buf[r.bp].flags.done
  {
  }

  lemma RelseKey(n: Cache, x: Node, n': Cache)
    requires BRelseDone(n, n', x)
    ensures x in n'.buf && n'.buf[x].key == n.buf[x].key
  {
    hide ReleaseStep, SettleStep;
    SettleKey(n, x);
    ReleaseFacts(SettleStep(n, x), x);
  }

  lemma SettleKey(n: Cache, x: Node)
    requires x in n.buf
    ensures x in SettleStep(n, x).buf && SettleStep(n, x).buf[x].key == n.buf[x].key
  {
    hide DelayStep;
    DelayKey(n, x);
  }

  lemma DelayKey(n: Cache, x: Node)
    requires x in n.buf
    ensures x in DelayStep(n, x).buf && DelayStep(n, x).buf[x].key == n.buf[x].key
  {
  }

  lemma BReadEnds(n: Cache, p: Proc, x: Node, key: Key, ready: bool)
    requires Inv(n) && x in n.buf && n.buf[x].key == key && x !in n.dirty && key.dev >= 0
    requires if ready then Held(n, x) && n.buf[x].flags.done
             else x in n.io && n.buf[x].flags.read && p in n.asleep && n.asleep[p] == ForTransfer(x)
    ensures BReadDone(n, p, x, key, ready)
  {
    UpToDate(n, x);
    if !ready {
      InIo(n, x);
    }
  }

  lemma NoDevMisses(m: Cache, key: Key)
    ensures key.dev < 0 ==> Misses(m, key)
  {
  }

  ghost predicate BAWriteDone(n: Cache, n': Cache, x: Node) {
    && x in n.buf
    && var h := n.buf[x];
       n' == n.(io := n.io + {x}, dirty := n.dirty - {x}, truth := n.truth[h.key := h.data],
                buf := n.buf[x := h.(flags := Sent(h.flags.(async := true)))])
  }

  lemma AssignLinks(n: Cache, x: Node, dp: Node)
    requires Bufs(n) && Devs(n) && x in n.buf && IsHead(n, dp)
    ensures HeadOf(n.buf[x].key.dev) in n.dl
    ensures x in n.f && x in n.b && dp in n.f && dp in n.dl && n.f[x] != x && n.b[x] != x
  {
    var was := HeadOf(n.buf[x].key.dev);
    assert OnHead(n, was) && OnHead(n, dp);
    HeadInF(n, dp);
    assert x in n.dl[was];
    var k :| 0 <= k < |n.dl[was]| && n.dl[was][k] == x;
    var s := [was] + n.dl[was];
    assert LinkedAt(n.f, n.b, s, k + 1) && s[0] == was && s[k + 1] == x;
  }

  ghost predicate IsAssign(n: Cache, n': Cache, was: Node, k: nat, x: Node, key: Key) {
    && was in n.dl && k < |n.dl[was]| && n.dl[was][k] == x && n.dl[was][k] in n.buf
    && n.dl[was][k] in n.f && n.dl[was][k] in n.b
    && HeadOf(key.dev) in n.dl && HeadOf(key.dev) in n.f[n.b[n.dl[was][k]] := n.f[n.dl[was][k]]]
    && n' == AssignStep(n, was, k, key)
  }

  lemma AssignFits(n: Cache, x: Node, key: Key) returns (k: nat)
    requires Inv(n) && x in n.buf && IsHead(n, HeadOf(key.dev))
    ensures var was := HeadOf(n.buf[x].key.dev);
      && IsHead(n, was) && OnHead(n, was) && was in n.dl && k < |n.dl[was]| && n.dl[was][k] == x
    ensures x in n.f && x in n.b && n.f[x] != x && n.b[x] != x && HeadOf(key.dev) in n.f && HeadOf(key.dev) in n.dl
  {
    hide Avail, Devs, Unique, Coherent, Sleepers, OnHead;
    k := AssignReady(n, x, key);
    AssignLinks(n, x, HeadOf(key.dev));
  }

  lemma AssignEnds(n: Cache, k: nat, x: Node, key: Key, n': Cache)
    requires Inv(n) && Held(n, x) && !n.buf[x].flags.delwri && x !in n.dirty
    requires IsHead(n, HeadOf(key.dev)) && forall p :: p in n.asleep ==> n.asleep[p] != ForBuffer(x)
    requires Misses(n, key)
    requires IsAssign(n, n', HeadOf(n.buf[x].key.dev), k, x, key)
    requires IsHead(n, HeadOf(n.buf[x].key.dev)) && OnHead(n, HeadOf(n.buf[x].key.dev)) && HeadOf(key.dev) in n.f
    ensures Inv(n') && Reassigned(n, n', x, key)
  {
    hide Inv, Others, OnHead;
    assert key.dev >= 0 ==> forall y :: y in n.buf ==> !Caches(n, y, key);
    AssignKeeps(n, HeadOf(n.buf[x].key.dev), k, key);
  }

  lemma SentAsync(n: Cache, m: Cache, x: Node, n': Cache)
    requires x in n.buf && m == FlagStep(n, x, n.buf[x].flags.(async := true)) && BWriteDone(m, n', 0, x)
    ensures BAWriteDone(n, n', x)
  {
    assert n'.buf == n.buf[x := n'.buf[x]];
  }

  ghost predicate IsWrite(n: Cache, n': Cache, x: Node) {
    x in n.buf && n' == WriteStep(n, x)
  }

  ghost predicate IsIntoAvail(n: Cache, n': Cache, x: Node) {
    x in n.buf && FREE in n.avf && FREE in n.avb && n' == IntoAvail(n, x)
  }

  lemma ReleaseEnds(n: Cache, m: Cache, x: Node, n': Cache)
    requires x in n.buf && m == SettleStep(n, x) && x in m.buf && FREE in m.avf && FREE in m.avb
    requires m.avf == n.avf && m.avb == n.avb && Inv(ReleaseStep(m, x))
    requires Others(n, m, x) && Others(m, ReleaseStep(m, x), x)
    requires var k := m.(asleep := Woken(m.asleep, x, m.buf[x].flags.wanted, m.freeWanted), freeWanted := false);
      IsIntoAvail(k, n'.(buf := m.buf), x) && n'.buf == m.buf[x := m.buf[x].(flags := Released(m.buf[x].flags))]
    ensures Inv(n') && BRelseDone(n, n', x) && Others(n, n', x)
  {
    hide Inv, Others, SettleStep, Woken;
    assert n' == ReleaseStep(m, x);
    OthersTrans(n, m, n', x);
  }

  ghost function Awaited(m: Cache, p: Proc, x: Node, flag: Flags): Cache
    requires x in m.buf
  {
    if !flag.async then m.(asleep := m.asleep[p := ForTransfer(x)])
    else if flag.delwri then m.(buf := m.buf[x := m.buf[x].(flags := m.buf[x].flags.(age := true))])
    else m
  }

  lemma WriteEnds(n: Cache, m: Cache, p: Proc, x: Node, n': Cache)
    requires IsWrite(n, m, x) && Inv(m) && Others(n, m, x)
    requires n' == Awaited(m, p, x, n.buf[x].flags)
    ensures Inv(n') && BWriteDone(n, n', p, x) && Others(n, n', x)
  {
    hide Inv, Others, BWriteDone, Awaited, WriteStep;
    SentAll(n, m, p, x);
    SentFlags(n, x);
    AwaitedKeeps(m, p, x, n.buf[x].flags);
    OthersTrans(n, m, n', x);
  }

  lemma SentFlags(n: Cache, x: Node)
    requires x in n.buf
    ensures var m := WriteStep(n, x);
      x in m.buf && x in m.io && m.buf[x].flags.async == n.buf[x].flags.async
  {
  }

  lemma AwaitedKeeps(m: Cache, p: Proc, x: Node, flag: Flags)
    requires Inv(m) && x in m.buf && x in m.io && m.buf[x].flags.async == flag.async
    ensures Inv(Awaited(m, p, x, flag)) && Others(m, Awaited(m, p, x, flag), x)
  {
    hide Inv, Others;
    if !flag.async {
      SleepKeeps(m, p, ForTransfer(x), m.(asleep := m.asleep[p := ForTransfer(x)]));
      OthersSame(m, m, Awaited(m, p, x, flag), x);
    } else if flag.delwri {
      FlagKeeps(m, x, m.buf[x].flags.(age := true));
    }
    OthersSelf(m, x);
  }

  lemma SentAll(n: Cache, m: Cache, p: Proc, x: Node)
    requires IsWrite(n, m, x)
    ensures BWriteDone(n, Awaited(m, p, x, n.buf[x].flags), p, x)
  {
    var n' := Awaited(m, p, x, n.buf[x].flags);
    assert n'.buf == n.buf[x := n.buf[x].(flags := Sent(n.buf[x].flags))];
  }

  lemma AvNoDup(n: Cache)
    requires Avail(n)
    ensures NoDup(n.av)
  {
    TailNoDup([FREE] + n.av);
    assert ([FREE] + n.av)[1..] == n.av;
  }

  lemma OthersSame(n: Cache, m: Cache, n': Cache, x: Node)
    requires Others(n, m, x) && n'.buf == m.buf && n'.io == m.io && n'.dirty == m.dirty
    ensures Others(n, n', x)
  {
  }
}
