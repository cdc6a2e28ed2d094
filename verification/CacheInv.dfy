/**
 The state of the block buffer cache (dmr/bio.c, h/buf.h) as a value, what holds of it between any
 two steps, and the steps themselves.

 Buffers are the nodes 0 to NBUF - 1.  Node FREE is bfreelist, which heads two rings: the available
 list through the av links, and through the device links the buffers of no device.  The devtab of
 block major m is node FREE + 1 + m.
 */
module CacheInv {
  import opened DList

  const NBUF: nat := 10
  const FREE: Node := NBUF

  type Block = seq<bv8>
  type Proc = nat

  datatype Flags = Flags(read: bool, done: bool, busy: bool, wanted: bool, age: bool, async: bool, delwri: bool)
  datatype Key = Key(dev: int, blkno: int)
  datatype Hdr = Hdr(flags: Flags, key: Key, data: Block)

  // What a process sleeps for: a busy buffer, the end of a transfer, or any available buffer.
  datatype Channel = ForBuffer(bp: Node) | ForTransfer(bp: Node) | ForFree

  const BUSYONLY := Flags(false, false, true, false, false, false, false)

  /**
   `io` is the set of buffers handed to a driver and not yet done.  `truth` says what each block
   holds for the kernel's callers, `dirty` which held buffers were changed since.  `av` lists the
   available buffers and `dl` those of each device, in ring order.
   */
  datatype Cache = Cache(f: Links, b: Links, avf: Links, avb: Links, buf: map<Node, Hdr>, disk: map<Key, Block>,
                         freeWanted: bool, io: set<Node>, asleep: map<Proc, Channel>, majors: nat,
                         av: seq<Node>, dl: map<Node, seq<Node>>, truth: map<Key, Block>, dirty: set<Node>)

  function Look(m: map<Key, Block>, k: Key): Block {
    if k in m then m[k] else []
  }

  function HeadOf(dev: int): Node {
    if dev < 0 then FREE else FREE + 1 + dev / 256
  }

  ghost predicate IsHead(n: Cache, h: Node) {
    FREE <= h <= FREE + n.majors
  }

  ghost predicate Bufs(n: Cache) {
    && (forall x: Node :: x in n.buf <==> x < NBUF)
    && forall x :: x in n.buf ==> IsHead(n, HeadOf(n.buf[x].key.dev))
  }

  /** A buffer is on the available list if and only if it is not busy. */
  ghost predicate Avail(n: Cache) {
    && DRing(n.avf, n.avb, [FREE] + n.av)
    && forall x :: x in n.av <==> x in n.buf && !n.buf[x].flags.busy
  }

  /** The ring of head `h` holds exactly the buffers of its device. */
  ghost predicate OnHead(n: Cache, h: Node) {
    && h in n.dl && DRing(n.f, n.b, [h] + n.dl[h])
    && forall x :: x in n.dl[h] <==> x in n.buf && HeadOf(n.buf[x].key.dev) == h
  }

  ghost predicate Devs(n: Cache) {
    forall h: Node :: IsHead(n, h) ==> OnHead(n, h)
  }

  /** No block of a device is in two buffers. */
  ghost predicate Unique(n: Cache) {
    forall x, y {:trigger n.buf[x], n.buf[y]} ::
      x in n.buf && y in n.buf && n.buf[x].key == n.buf[y].key && n.buf[x].key.dev >= 0 ==> x == y
  }

  ghost predicate DataOk(n: Cache, x: Node)
    requires x in n.buf
  {
    var h, fl := n.buf[x], n.buf[x].flags;
    && (x in n.io ==> fl.busy && !fl.done && !fl.delwri && h.key.dev >= 0 && x !in n.dirty)
    && (x in n.io && !fl.read ==> h.data == Look(n.truth, h.key))
    && (fl.delwri ==> fl.done && h.key.dev >= 0)
    && (x in n.dirty || fl.async ==> fl.busy)
    && (fl.done && h.key.dev >= 0 && x !in n.dirty ==> h.data == Look(n.truth, h.key))
  }

  /** Buffer `x` holds contents of block `k` that the disk still has to be given. */
  ghost predicate Owes(n: Cache, x: Node, k: Key) {
    && x in n.buf && n.buf[x].key == k && k.dev >= 0
    && (n.buf[x].flags.delwri || (x in n.io && !n.buf[x].flags.read))
  }

  ghost predicate Coherent(n: Cache) {
    && (forall x :: x in n.io ==> x in n.buf)
    && (forall x :: x in n.buf ==> DataOk(n, x))
    && forall k :: Look(n.disk, k) == Look(n.truth, k) || exists x :: Owes(n, x, k)
  }

  /** Whoever sleeps has cause to, and the flag that will wake it is set. */
  ghost predicate Justified(n: Cache, c: Channel) {
    match c
    case ForBuffer(x) => x in n.buf && n.buf[x].flags.busy && n.buf[x].flags.wanted
    case ForTransfer(x) => x in n.buf && x in n.io && !n.buf[x].flags.async
    case ForFree => n.freeWanted && n.av == []
  }

  ghost predicate Sleepers(n: Cache) {
    forall p :: p in n.asleep ==> Justified(n, n.asleep[p])
  }

  ghost predicate Inv(n: Cache) {
    Bufs(n) && Avail(n) && Devs(n) && Unique(n) && Coherent(n) && Sleepers(n)
  }

  // ------------------------------------------------------------ what a step leaves alone

  /** Everybody's busy buffers but `x` are as before, save for B_WANTED. */
  ghost predicate Others(n: Cache, n': Cache, x: Node) {
    forall y :: y in n.buf && n.buf[y].flags.busy && y != x ==>
      && y in n'.buf && n'.buf[y].key == n.buf[y].key && n'.buf[y].data == n.buf[y].data
      && n'.buf[y].flags.(wanted := n.buf[y].flags.wanted) == n.buf[y].flags
      && (y in n'.io <==> y in n.io) && (y in n'.dirty <==> y in n.dirty)
  }

  lemma OthersTrans(n: Cache, m: Cache, n': Cache, x: Node)
    requires Others(n, m, x) && Others(m, n', x)
    ensures Others(n, n', x)
  {
  }

  /** Device rings depend only on the device links and on which device each buffer is for. */
  lemma DevsKept(n: Cache, n': Cache)
    requires Devs(n) && n'.f == n.f && n'.b == n.b && n'.dl == n.dl && n'.majors == n.majors
    requires n'.buf.Keys == n.buf.Keys && forall x :: x in n.buf ==> n'.buf[x].key == n.buf[x].key
    ensures Devs(n')
  {
    hide DRing;
    forall h: Node | IsHead(n', h) ensures OnHead(n', h) {
      assert OnHead(n, h);
    }
  }

  lemma AvailKept(n: Cache, n': Cache)
    requires Avail(n) && n'.avf == n.avf && n'.avb == n.avb && n'.av == n.av
    requires n'.buf.Keys == n.buf.Keys && forall x :: x in n.buf ==> n'.buf[x].flags.busy == n.buf[x].flags.busy
    ensures Avail(n')
  {
    hide DRing;
  }

  lemma UniqueKept(n: Cache, n': Cache)
    requires Unique(n) && Bufs(n) && n'.majors == n.majors
    requires n'.buf.Keys == n.buf.Keys && forall x :: x in n.buf ==> n'.buf[x].key == n.buf[x].key
    ensures Unique(n') && Bufs(n')
  {
    forall x | x in n'.buf ensures IsHead(n', HeadOf(n'.buf[x].key.dev)) {
      assert IsHead(n, HeadOf(n.buf[x].key.dev));
    }
  }

  /** Flags other than READ, DONE and DELWRI do not bear on what the cache holds. */
  lemma CoherentKept(n: Cache, n': Cache, x: Node, g: Flags)
    requires Coherent(n) && x in n.buf && n'.buf == n.buf[x := n.buf[x].(flags := g)]
    requires var fl := n.buf[x].flags; g.read == fl.read && g.done == fl.done && g.delwri == fl.delwri
    requires x in n.io || x in n.dirty ==> g.busy
    requires g.async ==> g.busy || (n.buf[x].flags.async && g.busy == n.buf[x].flags.busy)
    requires n'.disk == n.disk && n'.truth == n.truth && n'.io == n.io && n'.dirty == n.dirty
    ensures Coherent(n')
  {
    forall y | y in n'.buf ensures DataOk(n', y) {
      assert DataOk(n, y);
    }
    forall key | Look(n'.disk, key) != Look(n'.truth, key) ensures exists y :: Owes(n', y, key) {
      var y :| Owes(n, y, key);
      assert Owes(n', y, key);
    }
  }

  // ------------------------------------------------------------ notavail

  /** notavail: buffer av[k] leaves the available list and is busy. */
  ghost function HoldStep(n: Cache, k: nat): Cache
    requires k < |n.av| && n.av[k] in n.buf && n.av[k] in n.avf && n.av[k] in n.avb
  {
    var x := n.av[k];
    n.(avf := n.avf[n.avb[x] := n.avf[x]], avb := n.avb[n.avf[x] := n.avb[x]],
       av := n.av[..k] + n.av[k + 1..],
       buf := n.buf[x := n.buf[x].(flags := n.buf[x].flags.(busy := true))])
  }

  lemma AvAt(n: Cache, k: nat)
    requires Avail(n) && k < |n.av|
    ensures n.av[k] in n.buf && n.av[k] in n.avf && n.av[k] in n.avb && !n.buf[n.av[k]].flags.busy
  {
    assert LinkedAt(n.avf, n.avb, [FREE] + n.av, k + 1);
    assert n.av[k] in n.av;
  }

  lemma HoldAvail(n: Cache, k: nat)
    requires Bufs(n) && Avail(n) && k < |n.av| && n.av[k] in n.buf && n.av[k] in n.avf && n.av[k] in n.avb
    ensures Avail(HoldStep(n, k))
  {
    var n' := HoldStep(n, k);
    var s := [FREE] + n.av;
    var x := n.av[k];
    assert s[k + 1] == x && s[..k + 1] + s[k + 2..] == [FREE] + n'.av;
    Unlink(n.avf, n.avb, s, k + 1, n'.avf, n'.avb);
    assert NoDup(n.av) by { TailNoDup(s); }
    RemovedOne(n.av, k);
  }

  lemma TailNoDup(s: seq<Node>)
    requires NoDup(s) && s != []
    ensures NoDup(s[1..]) && s[0] !in s[1..]
  {
  }

  lemma RemovedOne(s: seq<Node>, k: nat)
    requires NoDup(s) && k < |s|
    ensures forall x :: x in s[..k] + s[k + 1..] <==> x in s && x != s[k]
  {
    var t := s[..k] + s[k + 1..];
    forall x | x in s && x != s[k] ensures x in t {
      var j :| 0 <= j < |s| && s[j] == x;
      assert t[if j < k then j else j - 1] == x;
    }
    forall x | x in t ensures x in s && x != s[k] {
      var j :| 0 <= j < |t| && t[j] == x;
      assert s[if j < k then j else j + 1] == x;
    }
  }

  lemma HoldSleepers(n: Cache, k: nat)
    requires Avail(n) && Sleepers(n) && k < |n.av| && n.av[k] in n.buf && n.av[k] in n.avf && n.av[k] in n.avb
    ensures Sleepers(HoldStep(n, k))
  {
    var n' := HoldStep(n, k);
    forall p | p in n'.asleep ensures Justified(n', n'.asleep[p]) {
      assert Justified(n, n.asleep[p]);
    }
  }

  lemma HoldKeeps(n: Cache, k: nat)
    requires Inv(n) && k < |n.av|
    ensures n.av[k] in n.buf && n.av[k] in n.avf && n.av[k] in n.avb
    ensures Inv(HoldStep(n, k)) && Others(n, HoldStep(n, k), n.av[k])
    ensures !n.buf[n.av[k]].flags.busy && n.av[k] !in n.io && n.av[k] !in n.dirty
  {
    hide Avail, Devs, Unique, Coherent, Sleepers;
    AvAt(n, k);
    var n' := HoldStep(n, k);
    HoldAvail(n, k);
    DevsKept(n, n');
    UniqueKept(n, n');
    CoherentKept(n, n', n.av[k], n.buf[n.av[k]].flags.(busy := true));
    HoldSleepers(n, k);
    CleanWhenFree(n, n.av[k]);
  }

  lemma CleanWhenFree(n: Cache, x: Node)
    requires Coherent(n) && x in n.buf && !n.buf[x].flags.busy
    ensures x !in n.io && x !in n.dirty
  {
    assert DataOk(n, x);
  }

  // ------------------------------------------------------------ brelse

  /** wakeup of everyone asleep on buffer `x`, and of those waiting for any buffer. */
  ghost function Woken(asleep: map<Proc, Channel>, x: Node, onX: bool, onFree: bool): map<Proc, Channel> {
    map p | p in asleep && !(if asleep[p].ForFree? then onFree else onX && asleep[p].bp == x) :: asleep[p]
  }

  /** Buffer `x` goes to the front of the available list if it was aged, to the end if not. */
  ghost function IntoAvail(n: Cache, x: Node): Cache
    requires x in n.buf && FREE in n.avf && FREE in n.avb
  {
    var age, last := n.buf[x].flags.age, n.avb[FREE];
    n.(avf := if age then n.avf[x := n.avf[FREE]][FREE := x] else n.avf[last := x][x := FREE],
       avb := if age then n.avb[x := FREE][n.avf[FREE] := x] else n.avb[x := last][FREE := x],
       av := if age then [x] + n.av else n.av + [x])
  }

  ghost function ReleaseStep(n: Cache, x: Node): Cache
    requires x in n.buf && FREE in n.avf && FREE in n.avb
  {
    var fl := n.buf[x].flags;
    IntoAvail(n, x).(asleep := Woken(n.asleep, x, fl.wanted, n.freeWanted), freeWanted := false,
                     buf := n.buf[x := n.buf[x].(flags := Released(fl))])
  }

  lemma ReleaseAvail(n: Cache, x: Node)
    requires Bufs(n) && Avail(n) && x in n.buf && n.buf[x].flags.busy && FREE in n.avf && FREE in n.avb
    ensures Avail(ReleaseStep(n, x))
  {
    var n' := ReleaseStep(n, x);
    var s := [FREE] + n.av;
    assert x !in n.av && s[1..] == n.av;
    if n.buf[x].flags.age {
      LinkFront(n.avf, n.avb, s, x, n'.avf, n'.avb);
      assert [FREE, x] + n.av == [FREE] + n'.av;
    } else {
      LinkBack(n.avf, n.avb, s, x, n'.avf, n'.avb);
      assert s + [x] == [FREE] + n'.av;
    }
  }

  function Released(fl: Flags): Flags {
    fl.(wanted := false, busy := false, async := false, age := false)
  }

  lemma ReleaseFacts(n: Cache, x: Node)
    requires x in n.buf && FREE in n.avf && FREE in n.avb
    ensures var n' := ReleaseStep(n, x);
      && n'.buf == n.buf[x := n.buf[x].(flags := Released(n.buf[x].flags))]
      && n'.asleep == Woken(n.asleep, x, n.buf[x].flags.wanted, n.freeWanted) && !n'.freeWanted
      && n'.f == n.f && n'.b == n.b && n'.dl == n.dl && n'.majors == n.majors
      && n'.disk == n.disk && n'.truth == n.truth && n'.io == n.io && n'.dirty == n.dirty
  {
  }

  lemma ReleaseSleepers(n: Cache, x: Node, n': Cache)
    requires Sleepers(n) && x in n.buf && x !in n.io
    requires n'.buf == n.buf[x := n.buf[x].(flags := Released(n.buf[x].flags))] && n'.io == n.io
    requires n'.asleep == Woken(n.asleep, x, n.buf[x].flags.wanted, n.freeWanted)
    ensures Sleepers(n')
  {
    forall p | p in n'.asleep ensures Justified(n', n'.asleep[p]) {
      assert Justified(n, n.asleep[p]);
    }
  }

  lemma HeadLinked(n: Cache)
    requires Avail(n)
    ensures FREE in n.avf && FREE in n.avb
  {
    assert LinkedAt(n.avf, n.avb, [FREE] + n.av, 0);
  }

  lemma ReleaseKeeps(n: Cache, x: Node)
    requires Inv(n) && x in n.buf && n.buf[x].flags.busy && x !in n.io && x !in n.dirty
    ensures FREE in n.avf && FREE in n.avb
    ensures Inv(ReleaseStep(n, x)) && Others(n, ReleaseStep(n, x), x)
  {
    hide Avail, Devs, Unique, Coherent, Sleepers, ReleaseStep;
    HeadLinked(n);
    var n' := ReleaseStep(n, x);
    ReleaseFacts(n, x);
    ReleaseAvail(n, x);
    DevsKept(n, n');
    UniqueKept(n, n');
    CoherentKept(n, n', x, Released(n.buf[x].flags));
    ReleaseSleepers(n, x, n');
  }

  // ------------------------------------------------------------ reassignment

  /** The end of getblk: held buffer dl[was][k] becomes the buffer of block `key`, with nothing in it. */
  ghost function AssignStep(n: Cache, was: Node, k: nat, key: Key): Cache
    requires was in n.dl && k < |n.dl[was]| && n.dl[was][k] in n.buf
    requires n.dl[was][k] in n.f && n.dl[was][k] in n.b
    requires HeadOf(key.dev) in n.dl && HeadOf(key.dev) in n.f[n.b[n.dl[was][k]] := n.f[n.dl[was][k]]]
  {
    var x, dp := n.dl[was][k], HeadOf(key.dev);
    var f1, b1 := n.f[n.b[x] := n.f[x]], n.b[n.f[x] := n.b[x]];
    var dl1 := n.dl[was := n.dl[was][..k] + n.dl[was][k + 1..]];
    n.(f := f1[x := f1[dp]][dp := x], b := b1[x := dp][f1[dp] := x],
       dl := dl1[dp := [x] + dl1[dp]],
       buf := n.buf[x := Hdr(BUSYONLY, key, n.buf[x].data)])
  }

  lemma OnHeadAt(n: Cache, h: Node, k: nat)
    requires OnHead(n, h) && k < |n.dl[h]|
    ensures n.dl[h][k] in n.buf && n.dl[h][k] in n.f && n.dl[h][k] in n.b && n.dl[h][k] in n.dl[h]
    ensures h in n.f
  {
    assert LinkedAt(n.f, n.b, [h] + n.dl[h], k + 1);
    assert LinkedAt(n.f, n.b, [h] + n.dl[h], 0);
  }

  /** Unlinked from its ring, the buffer is on none. */
  ghost predicate Between(n: Cache, x: Node, f1: Links, b1: Links, dl1: map<Node, seq<Node>>) {
    forall h: Node :: IsHead(n, h) ==>
      && h in dl1 && DRing(f1, b1, [h] + dl1[h])
      && forall y :: y in dl1[h] <==> y in n.buf && HeadOf(n.buf[y].key.dev) == h && y != x
  }

  lemma UnlinkDev(n: Cache, was: Node, k: nat, f1: Links, b1: Links, dl1: map<Node, seq<Node>>)
    requires Bufs(n) && Devs(n) && IsHead(n, was) && OnHead(n, was) && k < |n.dl[was]|
    requires n.dl[was][k] in n.f && n.dl[was][k] in n.b
    requires var x := n.dl[was][k]; f1 == n.f[n.b[x] := n.f[x]] && b1 == n.b[n.f[x] := n.b[x]]
    requires dl1 == n.dl[was := n.dl[was][..k] + n.dl[was][k + 1..]]
    ensures Between(n, n.dl[was][k], f1, b1, dl1)
  {
    var x, s := n.dl[was][k], [was] + n.dl[was];
    assert s[k + 1] == x && s[..k + 1] + s[k + 2..] == [was] + dl1[was];
    assert x in n.dl[was];
    forall h: Node | IsHead(n, h)
      ensures h in dl1 && DRing(f1, b1, [h] + dl1[h])
      ensures forall y :: y in dl1[h] <==> y in n.buf && HeadOf(n.buf[y].key.dev) == h && y != x
    {
      assert OnHead(n, h);
      if h == was {
        Unlink(n.f, n.b, s, k + 1, f1, b1);
        TailNoDup(s);
        assert s[1..] == n.dl[was];
        RemovedOne(n.dl[was], k);
      } else {
        OtherRing(n, was, h, k + 1, f1, b1);
      }
    }
  }

  /** What hangs on another head is out of reach of surgery on ring `was`. */
  lemma OtherRing(n: Cache, was: Node, h: Node, i: nat, f1: Links, b1: Links)
    requires Bufs(n) && IsHead(n, was) && IsHead(n, h) && h != was && OnHead(n, was) && OnHead(n, h)
    requires i < |n.dl[was]| + 1
    requires ([was] + n.dl[was])[i] in n.f && ([was] + n.dl[was])[i] in n.b
    requires var x := ([was] + n.dl[was])[i]; f1 == n.f[n.b[x] := n.f[x]] && b1 == n.b[n.f[x] := n.b[x]]
    ensures DRing(f1, b1, [h] + n.dl[h])
  {
    var s, t := [was] + n.dl[was], [h] + n.dl[h];
    var x := s[i];
    assert LinkedAt(n.f, n.b, s, i);
    Neighbours(n.f, n.b, s, i);
    RingsApart(n, was, h);
    assert forall y :: y in t ==> y !in s;
    RingKept(n.f, n.b, t, f1, b1, {n.b[x], n.f[x]});
  }

  lemma RingsApart(n: Cache, was: Node, h: Node)
    requires Bufs(n) && IsHead(n, was) && IsHead(n, h) && h != was && OnHead(n, was) && OnHead(n, h)
    ensures forall y :: y in [h] + n.dl[h] ==> y !in [was] + n.dl[was]
  {
    hide DRing;
  }

  lemma RelinkDev(n: Cache, x: Node, key: Key, f1: Links, b1: Links, dl1: map<Node, seq<Node>>, n': Cache)
    requires Bufs(n) && x in n.buf && Between(n, x, f1, b1, dl1) && IsHead(n, HeadOf(key.dev))
    requires HeadOf(key.dev) in dl1 && HeadOf(key.dev) in f1
    requires n' == n.(f := f1[x := f1[HeadOf(key.dev)]][HeadOf(key.dev) := x],
                      b := b1[x := HeadOf(key.dev)][f1[HeadOf(key.dev)] := x],
                      dl := dl1[HeadOf(key.dev) := [x] + dl1[HeadOf(key.dev)]],
                      buf := n.buf[x := Hdr(BUSYONLY, key, n.buf[x].data)])
    ensures Devs(n')
  {
    hide DRing;
    var dp := HeadOf(key.dev);
    forall h: Node | IsHead(n', h) ensures OnHead(n', h) {
      assert IsHead(n, h);
      if h == dp {
        RelinkHead(f1, b1, dp, x, dl1[dp], n'.f, n'.b);
      } else {
        assert x !in [h] + dl1[h] && x !in [dp] + dl1[dp] && forall y :: y in [h] + dl1[h] ==> y !in [dp] + dl1[dp];
        RelinkOther(f1, b1, dp, x, dl1[dp], [h] + dl1[h], n'.f, n'.b);
      }
    }
  }

  lemma RelinkHead(f: Links, b: Links, dp: Node, x: Node, l: seq<Node>, f': Links, b': Links)
    requires DRing(f, b, [dp] + l) && x != dp && x !in l && dp in f
    requires f' == f[x := f[dp]][dp := x] && b' == b[x := dp][f[dp] := x]
    ensures DRing(f', b', [dp] + ([x] + l))
  {
    hide DRing;
    assert ([dp] + l)[1..] == l && [dp, x] + l == [dp] + ([x] + l);
    LinkFront(f, b, [dp] + l, x, f', b');
  }

  lemma RelinkOther(f: Links, b: Links, dp: Node, x: Node, l: seq<Node>, t: seq<Node>, f': Links, b': Links)
    requires DRing(f, b, [dp] + l) && DRing(f, b, t) && dp in f
    requires x !in t && forall y :: y in t ==> y !in [dp] + l
    requires f' == f[x := f[dp]][dp := x] && b' == b[x := dp][f[dp] := x]
    ensures DRing(f', b', t)
  {
    assert LinkedAt(f, b, [dp] + l, 0);
    Neighbours(f, b, [dp] + l, 0);
    RingKept(f, b, t, f', b', {x, dp, f[dp]});
  }

  lemma AssignCoherent(n: Cache, x: Node, key: Key, n': Cache)
    requires Coherent(n) && Unique(n) && x in n.buf && n.buf[x].flags.busy && !n.buf[x].flags.delwri
    requires x !in n.io && x !in n.dirty
    requires n'.buf == n.buf[x := Hdr(BUSYONLY, key, n.buf[x].data)]
    requires n'.disk == n.disk && n'.truth == n.truth && n'.io == n.io && n'.dirty == n.dirty
    ensures Coherent(n')
  {
    forall y | y in n'.buf ensures DataOk(n', y) {
      assert DataOk(n, y);
    }
    forall k | Look(n'.disk, k) != Look(n'.truth, k) ensures exists y :: Owes(n', y, k) {
      var y :| Owes(n, y, k);
      assert Owes(n', y, k);
    }
  }

  lemma AssignSleepers(n: Cache, x: Node, key: Key, n': Cache)
    requires Sleepers(n) && x in n.buf && x !in n.io
    requires forall p :: p in n.asleep ==> n.asleep[p] != ForBuffer(x)
    requires n'.buf == n.buf[x := Hdr(BUSYONLY, key, n.buf[x].data)]
    requires n'.io == n.io && n'.asleep == n.asleep && n'.freeWanted == n.freeWanted && n'.av == n.av
    ensures Sleepers(n')
  {
    forall p | p in n'.asleep ensures Justified(n', n'.asleep[p]) {
      assert Justified(n, n.asleep[p]);
    }
  }

  lemma AssignUnique(n: Cache, x: Node, key: Key, n': Cache)
    requires Unique(n) && Bufs(n) && x in n.buf && n'.buf == n.buf[x := Hdr(BUSYONLY, key, n.buf[x].data)]
    requires n'.majors == n.majors && IsHead(n, HeadOf(key.dev))
    requires key.dev >= 0 ==> forall y :: y in n.buf ==> n.buf[y].key != key
    ensures Unique(n') && Bufs(n')
  {
    forall y | y in n'.buf ensures IsHead(n', HeadOf(n'.buf[y].key.dev)) {
      assert IsHead(n, HeadOf(n.buf[y].key.dev));
    }
  }

  lemma AssignReady(n: Cache, x: Node, key: Key) returns (k: nat)
    requires Bufs(n) && Devs(n) && x in n.buf && IsHead(n, HeadOf(key.dev))
    ensures var was := HeadOf(n.buf[x].key.dev);
      && IsHead(n, was) && OnHead(n, was) && k < |n.dl[was]| && n.dl[was][k] == x && x in n.f && x in n.b
    ensures HeadOf(key.dev) in n.dl && HeadOf(key.dev) in n.f
  {
    hide DRing;
    var was := HeadOf(n.buf[x].key.dev);
    assert OnHead(n, was) && OnHead(n, HeadOf(key.dev));
    assert x in n.dl[was];
    k :| 0 <= k < |n.dl[was]| && n.dl[was][k] == x;
    OnHeadAt(n, was, k);
    HeadInF(n, HeadOf(key.dev));
  }

  lemma HeadInF(n: Cache, h: Node)
    requires OnHead(n, h)
    ensures h in n.f && h in n.b
  {
    assert LinkedAt(n.f, n.b, [h] + n.dl[h], 0);
  }

  /** The buffer just taken off the available list changes hands; nothing the cache owes is lost. */
  lemma AssignKeeps(n: Cache, was: Node, k: nat, key: Key)
    requires Inv(n) && IsHead(n, was) && OnHead(n, was) && was in n.dl && k < |n.dl[was]| && n.dl[was][k] in n.buf
    requires n.dl[was][k] in n.f && n.dl[was][k] in n.b
    requires IsHead(n, HeadOf(key.dev)) && HeadOf(key.dev) in n.dl && HeadOf(key.dev) in n.f
    requires var x := n.dl[was][k];
      && n.buf[x].flags.busy && !n.buf[x].flags.delwri && x !in n.io && x !in n.dirty
      && forall p :: p in n.asleep ==> n.asleep[p] != ForBuffer(x)
    requires key.dev >= 0 ==> forall y :: y in n.buf ==> n.buf[y].key != key
    ensures Inv(AssignStep(n, was, k, key))
    ensures Others(n, AssignStep(n, was, k, key), n.dl[was][k])
  {
    hide Avail, Devs, Unique, Coherent, Sleepers, OnHead, DRing;
    var x, n' := n.dl[was][k], AssignStep(n, was, k, key);
    AvailKept(n, n');
    AssignUnique(n, x, key, n');
    AssignCoherent(n, x, key, n');
    AssignSleepers(n, x, key, n');
    AssignDevs(n, was, k, key);
  }

  lemma AssignDevs(n: Cache, was: Node, k: nat, key: Key)
    requires Bufs(n) && Devs(n) && IsHead(n, was) && OnHead(n, was) && was in n.dl && k < |n.dl[was]|
    requires n.dl[was][k] in n.buf && n.dl[was][k] in n.f && n.dl[was][k] in n.b
    requires IsHead(n, HeadOf(key.dev)) && HeadOf(key.dev) in n.dl && HeadOf(key.dev) in n.f
    ensures Devs(AssignStep(n, was, k, key))
  {
    hide Devs, OnHead, DRing;
    var x, n' := n.dl[was][k], AssignStep(n, was, k, key);
    var f1, b1 := n.f[n.b[x] := n.f[x]], n.b[n.f[x] := n.b[x]];
    var dl1 := n.dl[was := n.dl[was][..k] + n.dl[was][k + 1..]];
    UnlinkDev(n, was, k, f1, b1, dl1);
    RelinkDev(n, x, key, f1, b1, dl1, n');
  }

  // ------------------------------------------------------------ transfers

  /** A held buffer goes to the driver, to be read. */
  ghost function ReadStep(n: Cache, x: Node): Cache
    requires x in n.buf
  {
    n.(io := n.io + {x}, buf := n.buf[x := n.buf[x].(flags := n.buf[x].flags.(read := true))])
  }

  /** bwrite: a held buffer goes to the driver, to be written; the block is now what it holds. */
  ghost function WriteStep(n: Cache, x: Node): Cache
    requires x in n.buf
  {
    var h := n.buf[x];
    n.(io := n.io + {x}, dirty := n.dirty - {x}, truth := n.truth[h.key := h.data],
       buf := n.buf[x := h.(flags := h.flags.(read := false, done := false, delwri := false, age := false))])
  }

  /** bdwrite: the block is what the buffer holds, and the buffer owes it to the disk. */
  ghost function DelayStep(n: Cache, x: Node): Cache
    requires x in n.buf
  {
    var h := n.buf[x];
    n.(dirty := n.dirty - {x}, truth := n.truth[h.key := h.data],
       buf := n.buf[x := h.(flags := h.flags.(done := true, delwri := true))])
  }

  /** The caller that holds a buffer changes what is in it. */
  ghost function ModifyStep(n: Cache, x: Node, data: Block): Cache
    requires x in n.buf
  {
    n.(dirty := n.dirty + {x}, buf := n.buf[x := n.buf[x].(data := data)])
  }

  ghost predicate Held(n: Cache, x: Node) {
    x in n.buf && n.buf[x].flags.busy && x !in n.io
  }

  lemma ReadKeeps(n: Cache, x: Node)
    requires Inv(n) && Held(n, x) && x !in n.dirty && !n.buf[x].flags.done && n.buf[x].key.dev >= 0
    ensures Inv(ReadStep(n, x)) && Others(n, ReadStep(n, x), x)
  {
    hide Avail, Devs, Unique, Coherent, Sleepers;
    var n' := ReadStep(n, x);
    AvailKept(n, n');
    DevsKept(n, n');
    UniqueKept(n, n');
    ReadCoherent(n, x);
    IoSleepers(n, n', x);
  }

  lemma ReadCoherent(n: Cache, x: Node)
    requires Coherent(n) && Held(n, x) && x !in n.dirty && !n.buf[x].flags.done && n.buf[x].key.dev >= 0
    ensures Coherent(ReadStep(n, x))
  {
    var n' := ReadStep(n, x);
    forall y | y in n'.buf ensures DataOk(n', y) {
      assert DataOk(n, y);
    }
    forall k | Look(n'.disk, k) != Look(n'.truth, k) ensures exists y :: Owes(n', y, k) {
      var y :| Owes(n, y, k);
      assert DataOk(n, y) && Owes(n', y, k);
    }
  }

  lemma IoSleepers(n: Cache, n': Cache, x: Node)
    requires Sleepers(n) && x in n.buf && x in n'.buf && x !in n.io && n.io <= n'.io && n'.av == n.av
    requires n'.buf.Keys == n.buf.Keys && forall y :: y in n.buf && y != x ==> n'.buf[y] == n.buf[y]
    requires n'.buf[x].flags.busy == n.buf[x].flags.busy && n'.buf[x].flags.wanted == n.buf[x].flags.wanted
    requires n'.asleep == n.asleep && n'.freeWanted == n.freeWanted
    ensures Sleepers(n')
  {
    forall p | p in n'.asleep ensures Justified(n', n'.asleep[p]) {
      assert Justified(n, n.asleep[p]);
    }
  }

  lemma WriteKeeps(n: Cache, x: Node)
    requires Inv(n) && Held(n, x) && n.buf[x].key.dev >= 0
    ensures Inv(WriteStep(n, x)) && Others(n, WriteStep(n, x), x)
  {
    hide Avail, Devs, Unique, Coherent, Sleepers;
    var n' := WriteStep(n, x);
    AvailKept(n, n');
    DevsKept(n, n');
    UniqueKept(n, n');
    TruthCoherent(n, x, n', n.io + {x});
    IoSleepers(n, n', x);
  }

  /** One block's contents change hands: no other buffer is for it. */
  lemma TruthCoherent(n: Cache, x: Node, n': Cache, io: set<Node>)
    requires Coherent(n) && Unique(n) && Held(n, x) && n.buf[x].key.dev >= 0
    requires n'.buf.Keys == n.buf.Keys && forall y :: y in n.buf && y != x ==> n'.buf[y] == n.buf[y]
    requires n'.buf[x].key == n.buf[x].key && n'.buf[x].data == n.buf[x].data && n'.buf[x].flags.busy
    requires n'.truth == n.truth[n.buf[x].key := n.buf[x].data] && n'.dirty == n.dirty - {x} && n'.disk == n.disk
    requires n'.io == io
    requires var fl := n'.buf[x].flags;
      || (io == n.io + {x} && !fl.done && !fl.delwri && !fl.read)
      || (io == n.io && fl.done && fl.delwri)
    ensures Coherent(n')
  {
    hide Unique, DataOk;
    forall y | y in n'.buf ensures DataOk(n', y) {
      assert DataOk(n, y);
      TruthDataOk(n, x, n', io, y);
    }
    forall k | Look(n'.disk, k) != Look(n'.truth, k) ensures exists y :: Owes(n', y, k) {
      if k == n.buf[x].key {
        assert Owes(n', x, k);
      } else {
        var y :| Owes(n, y, k);
        assert Owes(n', y, k);
      }
    }
  }

  lemma TruthDataOk(n: Cache, x: Node, n': Cache, io: set<Node>, y: Node)
    requires Unique(n) && Held(n, x) && n.buf[x].key.dev >= 0 && y in n.buf && DataOk(n, y)
    requires n'.buf.Keys == n.buf.Keys && (y != x ==> n'.buf[y] == n.buf[y])
    requires n'.buf[x].key == n.buf[x].key && n'.buf[x].data == n.buf[x].data && n'.buf[x].flags.busy
    requires n'.truth == n.truth[n.buf[x].key := n.buf[x].data] && n'.dirty == n.dirty - {x} && n'.io == io
    requires var fl := n'.buf[x].flags;
      || (io == n.io + {x} && !fl.done && !fl.delwri && !fl.read)
      || (io == n.io && fl.done && fl.delwri)
    ensures DataOk(n', y)
  {
  }

  lemma DelayKeeps(n: Cache, x: Node)
    requires Inv(n) && Held(n, x) && n.buf[x].key.dev >= 0
    ensures Inv(DelayStep(n, x)) && Others(n, DelayStep(n, x), x)
  {
    hide Avail, Devs, Unique, Coherent, Sleepers;
    var n' := DelayStep(n, x);
    AvailKept(n, n');
    DevsKept(n, n');
    UniqueKept(n, n');
    TruthCoherent(n, x, n', n.io);
    IoSleepers(n, n', x);
  }

  lemma ModifyKeeps(n: Cache, x: Node, data: Block)
    requires Inv(n) && Held(n, x)
    ensures Inv(ModifyStep(n, x, data)) && Others(n, ModifyStep(n, x, data), x)
  {
    hide Avail, Devs, Unique, Coherent, Sleepers;
    var n' := ModifyStep(n, x, data);
    AvailKept(n, n');
    DevsKept(n, n');
    UniqueKept(n, n');
    ModifyCoherent(n, x, data);
    IoSleepers(n, n', x);
  }

  lemma ModifyCoherent(n: Cache, x: Node, data: Block)
    requires Coherent(n) && Held(n, x)
    ensures Coherent(ModifyStep(n, x, data))
  {
    var n' := ModifyStep(n, x, data);
    forall y | y in n'.buf ensures DataOk(n', y) {
      assert DataOk(n, y);
    }
    forall k | Look(n'.disk, k) != Look(n'.truth, k) ensures exists y :: Owes(n', y, k) {
      var y :| Owes(n, y, k);
      assert Owes(n', y, k);
    }
  }

  /** The driver is done with `x`: the data has moved, B_DONE is on, and it is off the driver's queue. */
  ghost function TransferStep(n: Cache, x: Node): Cache
    requires x in n.buf
  {
    var h := n.buf[x];
    var moved := if h.flags.read then h.(data := Look(n.disk, h.key)) else h;
    n.(io := n.io - {x}, disk := if h.flags.read then n.disk else n.disk[h.key := h.data],
       buf := n.buf[x := moved.(flags := h.flags.(done := true))])
  }

  /** iodone on a buffer somebody waits for. */
  ghost function WakeStep(n: Cache, x: Node): Cache
    requires x in n.buf
  {
    n.(asleep := Woken(n.asleep, x, true, false),
       buf := n.buf[x := n.buf[x].(flags := n.buf[x].flags.(wanted := false))])
  }

  lemma TransferCoherent(n: Cache, x: Node)
    requires Coherent(n) && Unique(n) && x in n.buf && x in n.io
    ensures Coherent(TransferStep(n, x))
    ensures TransferStep(n, x).buf[x].data == Look(n.truth, n.buf[x].key)
  {
    var n' := TransferStep(n, x);
    var key := n.buf[x].key;
    assert DataOk(n, x);
    if n.buf[x].flags.read {
      assert forall y :: !Owes(n, y, key);
    }
    forall y | y in n'.buf ensures DataOk(n', y) {
      assert DataOk(n, y);
    }
    forall k | Look(n'.disk, k) != Look(n'.truth, k) ensures exists y :: Owes(n', y, k) {
      var y :| Owes(n, y, k);
      assert Owes(n', y, k);
    }
  }

  /** All of Inv but what is said of those waiting for this transfer. */
  lemma TransferKeeps(n: Cache, x: Node)
    requires Inv(n) && x in n.buf && x in n.io
    ensures var n' := TransferStep(n, x);
      Bufs(n') && Avail(n') && Devs(n') && Unique(n') && Coherent(n') && Others(n, n', x) && n'.buf[x].flags.busy
    ensures TransferStep(n, x).buf[x].data == Look(n.truth, n.buf[x].key) && x !in n.dirty
  {
    hide Avail, Devs, Unique, Coherent, Sleepers;
    var n' := TransferStep(n, x);
    AvailKept(n, n');
    DevsKept(n, n');
    UniqueKept(n, n');
    TransferCoherent(n, x);
    InIo(n, x);
  }

  lemma InIo(n: Cache, x: Node)
    requires Coherent(n) && x in n.io
    ensures x in n.buf && n.buf[x].flags.busy && !n.buf[x].flags.done && x !in n.dirty && n.buf[x].key.dev >= 0
  {
    assert DataOk(n, x);
  }

  lemma WakeKeeps(n: Cache, x: Node)
    requires Inv(n) && x in n.buf && x in n.io
    ensures Inv(WakeStep(TransferStep(n, x), x)) && Others(n, WakeStep(TransferStep(n, x), x), x)
  {
    hide Avail, Devs, Unique, Coherent, Sleepers, TransferStep, WakeStep, Others;
    TransferKeeps(n, x);
    var m, n' := TransferStep(n, x), WakeStep(TransferStep(n, x), x);
    WakeRest(m, x);
    TransferFacts(n, x);
    WakeFacts(m, x);
    WokenSleepers(n, x, n');
    OthersTrans(n, m, n', x);
  }

  lemma TransferFacts(n: Cache, x: Node)
    requires x in n.buf
    ensures var m := TransferStep(n, x);
      && m.buf.Keys == n.buf.Keys && (forall y :: y in n.buf && y != x ==> m.buf[y] == n.buf[y])
      && m.io == n.io - {x} && m.av == n.av && m.asleep == n.asleep && m.freeWanted == n.freeWanted
  {
  }

  lemma WakeFacts(n: Cache, x: Node)
    requires x in n.buf
    ensures var m := WakeStep(n, x);
      && m.buf.Keys == n.buf.Keys && (forall y :: y in n.buf && y != x ==> m.buf[y] == n.buf[y])
      && m.io == n.io && m.av == n.av && m.asleep == Woken(n.asleep, x, true, false) && m.freeWanted == n.freeWanted
  {
  }

  lemma WakeRest(m: Cache, x: Node)
    requires Bufs(m) && Avail(m) && Devs(m) && Unique(m) && Coherent(m) && x in m.buf && m.buf[x].flags.busy
    ensures var n' := WakeStep(m, x);
      Bufs(n') && Avail(n') && Devs(n') && Unique(n') && Coherent(n') && Others(m, n', x)
  {
    hide Avail, Devs, Unique, Coherent, Others;
    var n' := WakeStep(m, x);
    AvailKept(m, n');
    DevsKept(m, n');
    UniqueKept(m, n');
    CoherentKept(m, n', x, m.buf[x].flags.(wanted := false));
    OthersFlag(m, x, m.buf[x].flags.(wanted := false), n');
  }

  lemma OthersFlag(n: Cache, x: Node, g: Flags, n': Cache)
    requires x in n.buf && n'.buf == n.buf[x := n.buf[x].(flags := g)] && n'.io == n.io && n'.dirty == n.dirty
    ensures Others(n, n', x)
  {
  }

  lemma WokenSleepers(n: Cache, x: Node, n': Cache)
    requires Sleepers(n) && x in n.buf && n'.io == n.io - {x} && n'.av == n.av
    requires n'.buf.Keys == n.buf.Keys && forall y :: y in n.buf && y != x ==> n'.buf[y] == n.buf[y]
    requires n'.asleep == Woken(n.asleep, x, true, false) && n'.freeWanted == n.freeWanted
    ensures Sleepers(n')
  {
    forall p | p in n'.asleep ensures Justified(n', n'.asleep[p]) {
      assert Justified(n, n.asleep[p]);
    }
  }

  /** iodone on a buffer nobody waits for: nobody sleeps on its transfer, so it can be released. */
  lemma AsyncDone(n: Cache, x: Node)
    requires Inv(n) && x in n.buf && x in n.io && n.buf[x].flags.async
    ensures Inv(TransferStep(n, x)) && Others(n, TransferStep(n, x), x) && Held(TransferStep(n, x), x)
    ensures x !in TransferStep(n, x).dirty
  {
    hide Avail, Devs, Unique, Coherent, Sleepers;
    TransferKeeps(n, x);
    AsyncSleepers(n, x);
  }

  lemma AsyncSleepers(n: Cache, x: Node)
    requires Sleepers(n) && x in n.buf && x in n.io && n.buf[x].flags.async
    ensures Sleepers(TransferStep(n, x))
  {
    var n' := TransferStep(n, x);
    forall p | p in n'.asleep ensures Justified(n', n'.asleep[p]) {
      assert Justified(n, n.asleep[p]);
    }
  }

  // ------------------------------------------------------------ flags and sleep

  ghost function FlagStep(n: Cache, x: Node, g: Flags): Cache
    requires x in n.buf
  {
    n.(buf := n.buf[x := n.buf[x].(flags := g)])
  }

  /** Turning on B_WANTED, B_AGE or B_ASYNC (the last only while no transfer is on). */
  lemma FlagKeeps(n: Cache, x: Node, g: Flags)
    requires Inv(n) && x in n.buf
    requires var fl := n.buf[x].flags; g == fl.(wanted := g.wanted, age := g.age, async := g.async)
    requires (n.buf[x].flags.wanted ==> g.wanted) && (x in n.io ==> g.async == n.buf[x].flags.async)
    requires g.async ==> n.buf[x].flags.async || n.buf[x].flags.busy
    ensures Inv(FlagStep(n, x, g)) && Others(n, FlagStep(n, x, g), x)
  {
    hide Avail, Devs, Unique, Coherent, Sleepers, Others;
    var n' := FlagStep(n, x, g);
    AvailKept(n, n');
    DevsKept(n, n');
    UniqueKept(n, n');
    BusyInIo(n);
    CoherentKept(n, n', x, g);
    FlagSleepers(n, x, g);
    OthersFlag(n, x, g, n');
  }

  lemma BusyInIo(n: Cache)
    requires Coherent(n)
    ensures forall x :: x in n.buf && (x in n.io || x in n.dirty) ==> n.buf[x].flags.busy
  {
    forall x | x in n.buf && (x in n.io || x in n.dirty) ensures n.buf[x].flags.busy {
      assert DataOk(n, x);
    }
  }

  lemma FlagSleepers(n: Cache, x: Node, g: Flags)
    requires Sleepers(n) && x in n.buf
    requires var fl := n.buf[x].flags; g == fl.(wanted := g.wanted, age := g.age, async := g.async)
    requires (n.buf[x].flags.wanted ==> g.wanted) && (x in n.io ==> g.async == n.buf[x].flags.async)
    ensures Sleepers(FlagStep(n, x, g))
  {
    var n' := FlagStep(n, x, g);
    forall p | p in n'.asleep ensures Justified(n', n'.asleep[p]) {
      assert Justified(n, n.asleep[p]);
    }
  }

  /** Process `p` goes to sleep where its wakeup is sure to come. */
  lemma SleepKeeps(n: Cache, p: Proc, c: Channel, n': Cache)
    requires Inv(n) && n' == n.(asleep := n.asleep[p := c]) && Justified(n, c)
    ensures Inv(n')
  {
    hide Avail, Devs, Unique, Coherent;
    AvailKept(n, n');
    DevsKept(n, n');
    UniqueKept(n, n');
    SameCoherent(n, n');
    forall q | q in n'.asleep ensures Justified(n', n'.asleep[q]) {
      assert q != p ==> Justified(n, n.asleep[q]);
    }
  }

  lemma SameCoherent(n: Cache, n': Cache)
    requires Coherent(n) && n'.buf == n.buf && n'.disk == n.disk && n'.truth == n.truth
    requires n'.io == n.io && n'.dirty == n.dirty
    ensures Coherent(n')
  {
    forall y | y in n'.buf ensures DataOk(n', y) {
      assert DataOk(n, y);
    }
    forall k | Look(n'.disk, k) != Look(n'.truth, k) ensures exists y :: Owes(n', y, k) {
      var y :| Owes(n, y, k);
      assert Owes(n', y, k);
    }
  }
}
