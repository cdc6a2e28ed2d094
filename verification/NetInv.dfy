/**
 The state of the network buffer pool (h/netbuf.h, ncpkernel/kerbuf.c) as a value, the invariant
 that ties its rings and its redundant counters together, and one lemma per kind of step saying
 that the step keeps it.  The routines themselves are in NetPool.dfy.
 */
module NetInv {
  import opened NetChunks
  import opened NetRings

  const NET_B_PER_K_B: nat := 8
  const KB_HIWAT: nat := 4
  const RBUF_MAX: nat := 80

  /** A slot of net_b.kb_: empty, or a system block with its count of free netbufs. */
  datatype KSlot = NoBlock | Held(base: Addr, freect: int)

  /** The addresses at which getkb carves a block of 512 bytes into netbufs of 64. */
  function Cut(base: Addr, k: nat): Addr { base + 64 * k }

  function Block(base: Addr): set<Addr> {
    set k | 0 <= k < NET_B_PER_K_B :: Cut(base, k)
  }

  function Resv(b: Netbuf): nat {
    b.member + (if b.raw then 64 else 0) + (if b.eom then 128 else 0)
  }

  ghost function HeldSlots(kb: seq<KSlot>): set<nat> {
    set i | 0 <= i < |kb| && kb[i].Held?
  }

  ghost function FreeOf(mem: Memory, free: seq<Addr>, i: nat): set<Addr> {
    set a | a in free && a in mem && mem[a].member == i
  }

  ghost function RawSet(mem: Memory): set<Addr> {
    set a | a in mem && mem[a].raw
  }

  ghost function ChunkAt(mem: Memory, a: Addr): Chunk {
    if a in mem && mem[a].len <= |mem[a].data| then mem[a].data[..mem[a].len] else []
  }

  ghost function Chunks(mem: Memory, s: seq<Addr>): (cs: seq<Chunk>)
    ensures |cs| == |s|
  {
    seq(|s|, i requires 0 <= i < |s| => ChunkAt(mem, s[i]))
  }

  ghost predicate Shape(mem: Memory, p: Parts, freel: Addr) {
    && 0 !in mem
    && Partition(mem.Keys, p)
    && Linked(mem, p.free)
    && (forall h :: h in p.msgs ==> Linked(mem, p.msgs[h]))
    && freel == Handle(p.free)
  }

  ghost predicate Sound(mem: Memory) {
    forall a :: a in mem ==> mem[a].len <= NET_B_SIZE == |mem[a].data|
  }

  /** The netbufs in memory are exactly those of the held blocks, each marked with its slot. */
  ghost predicate Carved(mem: Memory, kb: seq<KSlot>) {
    && |kb| == KB_HIWAT
    && (forall a :: a in mem ==>
          mem[a].member < KB_HIWAT && kb[mem[a].member].Held? && a in Block(kb[mem[a].member].base))
    && (forall i, a {:trigger a in Block(kb[i].base)} ::
          0 <= i < KB_HIWAT && kb[i].Held? && a in Block(kb[i].base) ==> a in mem && mem[a].member == i)
  }

  /** b_freect is exact for every held block (but `skip`), and free buffers have a clean b_resv. */
  ghost predicate Counted(mem: Memory, kb: seq<KSlot>, free: seq<Addr>, skip: int) {
    && (forall i :: 0 <= i < |kb| && kb[i].Held? && i != skip ==> kb[i].freect == |FreeOf(mem, free, i)|)
    && (forall a :: a in free && a in mem ==> !mem[a].raw && !mem[a].eom)
  }

  /** Blocks the system can give: clear of those held and of each other. */
  ghost predicate Supply(mem: Memory, sys: set<Addr>) {
    && (forall b :: b in sys ==> 0 !in Block(b) && Block(b) !! mem.Keys)
    && (forall b, c {:trigger b in sys, c in sys} :: b in sys && c in sys && b != c ==> Block(b) !! Block(c))
  }

  /** Rings of `except` aside, every message is where and what it was. */
  ghost predicate OthersKept(m: Memory, p: Parts, m': Memory, p': Parts, except: set<Addr>) {
    forall g :: g in p.msgs && g !in except ==>
      g in p'.msgs && p'.msgs[g] == p.msgs[g] && SameBufs(m, m', p.msgs[g])
  }

  ghost predicate SameBufs(m: Memory, m': Memory, s: seq<Addr>) {
    forall a :: a in s ==> a in m && a in m' && m'[a] == m[a]
  }

  /** Same contents, whatever the links. */
  ghost predicate SameContents(m: Memory, m': Memory, s: seq<Addr>) {
    forall a :: a in s ==> a in m && a in m' && m'[a] == m[a].(qlink := m'[a].qlink)
  }

  /** The whole pool as a value. */
  datatype Net = Net(mem: Memory, kb: seq<KSlot>, alloc: int, freel: Addr, rbufCount: int,
                     sys: set<Addr>, pending: nat, parts: Parts)

  /**
   The pool invariant.  Every netbuf of every held block is in exactly one place (Partition, Carved),
   the rings are rings (Shape), and the redundant counters are exact: b_freect per block (Counted),
   rbuf_count against the buffers marked raw, b_alloc against the blocks held or being waited for.
   */
  ghost predicate Inv(n: Net) {
    && Shape(n.mem, n.parts, n.freel)
    && Sound(n.mem)
    && Carved(n.mem, n.kb)
    && Counted(n.mem, n.kb, n.parts.free, -1)
    && n.rbufCount == |RawSet(n.mem)| <= RBUF_MAX
    && Supply(n.mem, n.sys)
    && n.alloc == |HeldSlots(n.kb)| + n.pending <= KB_HIWAT
  }

  /** The system blocks the pool holds or may be given: none is ever lost or made. */
  ghost function Bases(n: Net): set<Addr> {
    n.sys + set i | 0 <= i < |n.kb| && n.kb[i].Held? :: n.kb[i].base
  }

  /** How many buffers getbuf could hand out one after another before anyone has to sleep. */
  ghost function Stock(n: Net): int {
    |n.parts.free| + NET_B_PER_K_B * (if KB_HIWAT - n.alloc < |n.sys| then KB_HIWAT - n.alloc else |n.sys|)
  }

  /** There is a free buffer, or the system has a block and the pool has not its fill. */
  ghost predicate CanGet(n: Net) {
    n.parts.free != [] || (n.alloc < KB_HIWAT && n.sys != {})
  }

  lemma StockIff(n: Net)
    requires Inv(n)
    ensures Stock(n) >= 0 && (Stock(n) > 0 <==> CanGet(n))
  {
    hide Shape, Sound, Carved, Counted, Supply, RawSet, HeldSlots;
    assert n.sys == {} <==> |n.sys| == 0;
  }

  /** The last buffer of message `h` is raw; it has room; more can be put at the end of the message, in its
      last buffer or, within the raw limit if that is raw, in a new one.  No message is the handle 0. */
  ghost predicate LastRaw(n: Net, h: Addr) {
    h in n.mem && n.mem[h].raw
  }

  ghost predicate HasRoom(n: Net, h: Addr) {
    h in n.mem && n.mem[h].len < NET_B_SIZE
  }

  ghost predicate CanAppend(n: Net, h: Addr) {
    HasRoom(n, h) || (CanGet(n) && (LastRaw(n, h) ==> n.rbufCount < RBUF_MAX))
  }

  lemma StockSame(n: Net, mem: Memory, p: Parts)
    requires |p.free| == |n.parts.free|
    ensures Stock(n.(mem := mem, parts := p)) == Stock(n)
  {
  }

  lemma NoRoomStill(n: Net, n': Net, h: Addr)
    requires Inv(n) && Inv(n') && (h == 0 || h in n.parts.msgs)
    requires OthersKept(n.mem, n.parts, n'.mem, n'.parts, {})
    requires Stock(n') == Stock(n) && n'.rbufCount == n.rbufCount && !CanAppend(n, h)
    ensures !CanAppend(n', h) && LastRaw(n', h) == LastRaw(n, h)
  {
    hide Inv, Stock, CanGet, OthersKept;
    StockIff(n);
    StockIff(n');
    FreeFacts(n);
    FreeFacts(n');
    if h != 0 {
      LastChunk(n, h);
      MsgFacts(n, h);
      KeptBuf(n, n', {}, h);
    }
  }

  lemma KeptBuf(n: Net, n': Net, e: set<Addr>, h: Addr)
    requires OthersKept(n.mem, n.parts, n'.mem, n'.parts, e)
    requires h in n.parts.msgs && h in n.parts.msgs[h] && h !in e
    ensures h in n.mem && h in n'.mem && n'.mem[h] == n.mem[h]
  {
  }

  // ------------------------------------------------------------------ facts about the counters

  lemma FreeOfAdd(mem: Memory, free: seq<Addr>, a: Addr, i: nat)
    requires a in mem && a !in free
    ensures FreeOf(mem, free + [a], i) == FreeOf(mem, free, i) + (if mem[a].member == i then {a} else {})
    ensures |FreeOf(mem, free + [a], i)| == |FreeOf(mem, free, i)| + (if mem[a].member == i then 1 else 0)
  {
    assert FreeOf(mem, free + [a], i) == FreeOf(mem, free, i) + (if mem[a].member == i then {a} else {});
  }

  lemma FreeOfTake(mem: Memory, free: seq<Addr>, i: nat)
    requires free != [] && Distinct(free) && free[0] in mem
    ensures FreeOf(mem, free[1..], i) == FreeOf(mem, free, i) - (if mem[free[0]].member == i then {free[0]} else {})
    ensures |FreeOf(mem, free[1..], i)| == |FreeOf(mem, free, i)| - (if mem[free[0]].member == i then 1 else 0)
  {
    assert free == [free[0]] + free[1..];
    assert free[0] in free;
    assert mem[free[0]].member == i ==> free[0] in FreeOf(mem, free, i);
    assert FreeOf(mem, free[1..], i) == FreeOf(mem, free, i) - (if mem[free[0]].member == i then {free[0]} else {});
  }

  lemma FreeOfSame(m: Memory, m': Memory, free: seq<Addr>, i: nat)
    requires forall a :: a in free ==> a in m && a in m' && m'[a].member == m[a].member
    ensures FreeOf(m', free, i) == FreeOf(m, free, i)
  {
  }

  lemma BlockSize(base: Addr)
    ensures |Block(base)| == NET_B_PER_K_B
  {
    assert Block(base) == {Cut(base, 0), Cut(base, 1), Cut(base, 2), Cut(base, 3),
                           Cut(base, 4), Cut(base, 5), Cut(base, 6), Cut(base, 7)};
  }

  lemma SubsetSize<T>(a: set<T>, b: set<T>)
    requires a <= b
    ensures |a| <= |b|
    ensures |a| == |b| ==> a == b
  {
    assert b == a + (b - a);
  }

  /** A block whose b_freect says so has all its netbufs on the free list: none is in use. */
  lemma WholeBlockFree(mem: Memory, kb: seq<KSlot>, free: seq<Addr>, i: nat)
    requires Carved(mem, kb) && i < KB_HIWAT && kb[i].Held?
    ensures FreeOf(mem, free, i) <= Block(kb[i].base)
    ensures |FreeOf(mem, free, i)| <= NET_B_PER_K_B
    ensures |FreeOf(mem, free, i)| == NET_B_PER_K_B ==> FreeOf(mem, free, i) == Block(kb[i].base)
  {
    BlockSize(kb[i].base);
    SubsetSize(FreeOf(mem, free, i), Block(kb[i].base));
  }

  lemma SameChunks(m: Memory, m': Memory, s: seq<Addr>)
    requires SameContents(m, m', s)
    ensures Chunks(m', s) == Chunks(m, s)
  {
    forall i | 0 <= i < |s| ensures ChunkAt(m', s[i]) == ChunkAt(m, s[i]) {
      assert s[i] in s;
    }
  }

  /** Rings none of whose buffers is among those touched stay as they are. */
  lemma LinksUntouched(m: Memory, m': Memory, touched: set<Addr>, s: seq<Addr>)
    requires Linked(m, s)
    requires forall a :: a in m && a !in touched ==> a in m' && m'[a] == m[a]
    requires forall a :: a in s ==> a !in touched
    ensures Linked(m', s) && SameBufs(m, m', s)
  {
    forall i | 0 <= i < |s|
      ensures s[i] in m' && m'[s[i]].qlink == (if i + 1 < |s| then s[i + 1] else s[0])
    {
      assert s[i] in s && s[i] in m;
    }
    forall a | a in s ensures a in m && a in m' && m'[a] == m[a] {
      var i :| 0 <= i < |s| && s[i] == a;
      assert s[i] in m;
    }
  }

  lemma AllHeld(kb: seq<KSlot>)
    requires |kb| == KB_HIWAT && forall k :: 0 <= k < KB_HIWAT ==> kb[k].Held?
    ensures |HeldSlots(kb)| == KB_HIWAT
  {
    assert HeldSlots(kb) == {0, 1, 2, 3};
  }

  lemma AHole(kb: seq<KSlot>)
    requires |kb| == KB_HIWAT && |HeldSlots(kb)| < KB_HIWAT
    ensures exists k :: 0 <= k < KB_HIWAT && !kb[k].Held?
  {
    if forall k :: 0 <= k < KB_HIWAT ==> kb[k].Held? {
      AllHeld(kb);
    }
  }

  /** Carving depends only on which slot each netbuf names and where each block lies. */
  lemma StillCarved(m: Memory, kb: seq<KSlot>, m': Memory, kb': seq<KSlot>)
    requires Carved(m, kb) && |kb'| == |kb|
    requires m'.Keys == m.Keys && forall a :: a in m ==> m'[a].member == m[a].member
    requires forall i :: 0 <= i < |kb| ==> kb'[i].Held? == kb[i].Held? && (kb[i].Held? ==> kb'[i].base == kb[i].base)
    ensures Carved(m', kb')
  {
  }

  /** One netbuf more on the free list: the counts follow. */
  lemma MoreFree(m: Memory, kb: seq<KSlot>, free: seq<Addr>, buf: Addr, m': Memory, kb': seq<KSlot>)
    requires |kb| == KB_HIWAT && Counted(m, kb, free, -1)
    requires buf in m && buf !in free && forall a :: a in free ==> a in m
    requires m'.Keys == m.Keys && forall a :: a in m ==> m'[a].member == m[a].member
    requires forall a :: a in free ==> m'[a].raw == m[a].raw && m'[a].eom == m[a].eom
    requires !m'[buf].raw && !m'[buf].eom
    requires m[buf].member < |kb| && kb[m[buf].member].Held?
    requires kb' == kb[m[buf].member := kb[m[buf].member].(freect := kb[m[buf].member].freect + 1)]
    ensures Counted(m', kb', free + [buf], -1)
  {
    forall i | 0 <= i < |kb'| && kb'[i].Held? ensures kb'[i].freect == |FreeOf(m', free + [buf], i)| {
      FreeOfAdd(m', free, buf, i);
      FreeOfSame(m, m', free, i);
      assert kb[i].Held?;
    }
  }

  /** A loose netbuf linked to the end of the free list. */
  lemma FreeShape(m: Memory, p: Parts, freel: Addr, buf: Addr, m': Memory)
    requires Shape(m, p, freel) && buf in p.loose && m'.Keys == m.Keys
    requires Linked(m', p.free + [buf])
    requires forall a :: a in m && a != buf && a != freel ==> m'[a] == m[a]
    ensures Shape(m', p.(free := p.free + [buf], loose := p.loose - {buf}), buf)
  {
    PutFree(m.Keys, p, buf);
    forall h | h in p.msgs ensures Linked(m', p.msgs[h]) {
      assert freel != 0 ==> freel in p.free;
      LinksUntouched(m, m', {buf, freel}, p.msgs[h]);
    }
  }

  /** The first free netbuf unlinked. */
  lemma TakeShape(m: Memory, p: Parts, freel: Addr, m': Memory)
    requires Shape(m, p, freel) && p.free != [] && m'.Keys == m.Keys
    requires Linked(m', p.free[1..])
    requires forall a :: a in m && a != p.free[0] && a != freel ==> m'[a] == m[a]
    ensures Shape(m', p.(free := p.free[1..], loose := p.loose + {p.free[0]}), if |p.free| == 1 then 0 else freel)
  {
    TakeFree(m.Keys, p);
    assert p.free[0] in p.free && freel in p.free;
    forall h | h in p.msgs ensures Linked(m', p.msgs[h]) {
      LinksUntouched(m, m', {p.free[0], freel}, p.msgs[h]);
    }
  }

  /** A block taken in: its netbufs are loose until they are put on the free list. */
  lemma NewBlockShape(m: Memory, p: Parts, freel: Addr, cut: set<Addr>, m': Memory)
    requires Shape(m, p, freel) && p.loose == {}
    requires 0 !in cut && cut !! m.Keys
    requires m'.Keys == m.Keys + cut && forall a :: a in m ==> m'[a] == m[a]
    ensures Shape(m', p.(loose := cut), freel)
  {
    LinksUntouched(m, m', {}, p.free);
    forall h | h in p.msgs ensures Linked(m', p.msgs[h]) {
      LinksUntouched(m, m', {}, p.msgs[h]);
    }
  }

  lemma NewBlockCounted(m: Memory, kb: seq<KSlot>, free: seq<Addr>, base: Addr, index: nat, m': Memory)
    requires Carved(m, kb) && Counted(m, kb, free, -1) && forall a :: a in free ==> a in m
    requires index < KB_HIWAT && !kb[index].Held?
    requires forall a :: a in m ==> a in m' && m'[a] == m[a]
    ensures Counted(m', kb[index := Held(base, 0)], free, -1)
  {
    var kb' := kb[index := Held(base, 0)];
    forall i | 0 <= i < |kb'| && kb'[i].Held? ensures kb'[i].freect == |FreeOf(m', free, i)| {
      FreeOfSame(m, m', free, i);
      if i == index {
        assert FreeOf(m, free, i) == {};
      }
    }
  }

  lemma NewBlockCarved(m: Memory, kb: seq<KSlot>, base: Addr, index: nat, m': Memory)
    requires Carved(m, kb) && index < KB_HIWAT && !kb[index].Held? && Block(base) !! m.Keys
    requires m'.Keys == m.Keys + Block(base) && forall a :: a in m ==> m'[a] == m[a]
    requires forall a :: a in Block(base) ==> m'[a].member == index
    ensures Carved(m', kb[index := Held(base, 0)])
  {
  }

  lemma SupplyLess(m: Memory, sys: set<Addr>, base: Addr, m': Memory)
    requires Supply(m, sys) && base in sys && m'.Keys == m.Keys + Block(base)
    ensures Supply(m', sys - {base})
  {
  }

  // ------------------------------------------------------------------ each step keeps the invariant

  lemma MsgFacts(n: Net, h: Addr)
    requires Inv(n) && h in n.parts.msgs
    ensures n.parts.msgs[h] != [] && Distinct(n.parts.msgs[h]) && Linked(n.mem, n.parts.msgs[h])
    ensures Handle(n.parts.msgs[h]) == h && h != 0 && h in n.parts.msgs[h]
    ensures forall a :: a in n.parts.msgs[h] ==>
      a in n.mem && a != 0 && a !in n.parts.free && n.mem[a].len <= NET_B_SIZE == |n.mem[a].data|
  {
  }

  lemma FreeFacts(n: Net)
    requires Inv(n)
    ensures 0 !in n.mem && Distinct(n.parts.free) && Linked(n.mem, n.parts.free) && n.freel == Handle(n.parts.free)
    ensures forall a :: a in n.parts.free ==> a in n.mem && !n.mem[a].raw && !n.mem[a].eom
    ensures n.freel == 0 <==> n.parts.free == []
  {
    if n.parts.free != [] {
      assert n.parts.free[|n.parts.free| - 1] in n.parts.free;
    }
  }

  lemma SlotFacts(n: Net, a: Addr)
    requires Inv(n) && a in n.mem
    ensures n.mem[a].member < KB_HIWAT == |n.kb| && n.kb[n.mem[a].member].Held?
  {
  }

  ghost function Clean(n: Net, buf: Addr): Net
    requires buf in n.mem
  {
    n.(mem := n.mem[buf := n.mem[buf].(raw := false, eom := false)])
  }

  ghost function Freed(n: Net, buf: Addr, mem: Memory): Net
    requires buf in n.mem && n.mem[buf].member < |n.kb| && n.kb[n.mem[buf].member].Held?
  {
    var i := n.mem[buf].member;
    n.(mem := mem, freel := buf,
       kb := n.kb[i := n.kb[i].(freect := n.kb[i].freect + 1)],
       parts := n.parts.(free := n.parts.free + [buf], loose := n.parts.loose - {buf}))
  }

  /** A step that touches links, end marks and counts leaves the rest of the invariant alone. */
  lemma SameFields(m: Memory, kb: seq<KSlot>, sys: set<Addr>, m': Memory, kb': seq<KSlot>)
    requires m.Keys == m'.Keys && |kb'| == |kb|
    requires forall a :: a in m ==>
      m'[a].raw == m[a].raw && m'[a].member == m[a].member
    requires forall i :: 0 <= i < |kb| ==> kb'[i].Held? == kb[i].Held? && (kb[i].Held? ==> kb'[i].base == kb[i].base)
    requires Carved(m, kb) && Supply(m, sys)
    ensures RawSet(m') == RawSet(m) && Carved(m', kb') && Supply(m', sys)
  {
    StillCarved(m, kb, m', kb');
  }

  lemma SoundSame(m: Memory, m': Memory)
    requires Sound(m) && m'.Keys == m.Keys
    requires forall a :: a in m ==> m'[a].len == m[a].len && m'[a].data == m[a].data
    ensures Sound(m')
  {
  }

  lemma SlotsSame(kb: seq<KSlot>, i: nat, k: KSlot)
    requires i < |kb| && kb[i].Held? && k.Held? && k.base == kb[i].base
    ensures HeldSlots(kb[i := k]) == HeldSlots(kb)
  {
  }

  lemma BasesSame(n: Net, n': Net)
    requires n'.sys == n.sys && |n'.kb| == |n.kb|
    requires forall i :: 0 <= i < |n.kb| ==>
        n'.kb[i].Held? == n.kb[i].Held? && (n.kb[i].Held? ==> n'.kb[i].base == n.kb[i].base)
    ensures Bases(n') == Bases(n)
  {
    assert forall i :: 0 <= i < |n.kb| && n.kb[i].Held? ==> n'.kb[i].base in Bases(n');
    assert forall i :: 0 <= i < |n.kb| && n.kb[i].Held? ==> n.kb[i].base in Bases(n);
  }

  /** freeb: the loose buffer `buf`, cleaned, goes to the end of the free list. */
  lemma FreeStep(n: Net, buf: Addr, mem: Memory)
    requires Inv(n) && buf in n.parts.loose && buf in n.mem && !n.mem[buf].raw
    requires n.mem[buf].member < |n.kb| && n.kb[n.mem[buf].member].Held?
    requires OnlyLinks(Clean(n, buf).mem, mem, {buf, n.freel}) && Linked(mem, n.parts.free + [buf])
    ensures Inv(Freed(n, buf, mem)) && Bases(Freed(n, buf, mem)) == Bases(n)
  {
    hide Shape, Distinct, Partition, Linked, Sound, Carved, Counted, Supply, RawSet, HeldSlots, Bases, OnlyLinks;
    var n' := Freed(n, buf, mem);
    var i := n.mem[buf].member;
    FreeStepShape(n, buf, mem);
    FreeStepCounts(n, buf, mem);
    SlotsSame(n.kb, i, n'.kb[i]);
    BasesSame(n, n');
  }

  lemma FreeStepShape(n: Net, buf: Addr, mem: Memory)
    requires Inv(n) && buf in n.parts.loose && buf in n.mem
    requires OnlyLinks(Clean(n, buf).mem, mem, {buf, n.freel}) && Linked(mem, n.parts.free + [buf])
    ensures Shape(mem, n.parts.(free := n.parts.free + [buf], loose := n.parts.loose - {buf}), buf)
    ensures Sound(mem)
  {
    hide Shape, Distinct, Partition, Linked, Sound, Carved, Counted, Supply, RawSet, HeldSlots, Bases;
    FreeShape(n.mem, n.parts, n.freel, buf, mem);
    SoundSame(n.mem, mem);
  }

  lemma FreeStepCounts(n: Net, buf: Addr, mem: Memory)
    requires Inv(n) && buf in n.parts.loose && buf in n.mem && !n.mem[buf].raw
    requires n.mem[buf].member < |n.kb| && n.kb[n.mem[buf].member].Held?
    requires OnlyLinks(Clean(n, buf).mem, mem, {buf, n.freel})
    ensures Counted(mem, Freed(n, buf, mem).kb, n.parts.free + [buf], -1)
    ensures RawSet(mem) == RawSet(n.mem) && Carved(mem, Freed(n, buf, mem).kb) && Supply(mem, n.sys)
  {
    hide Shape, Distinct, Partition, Linked, Sound, Carved, Counted, Supply, RawSet, HeldSlots, Bases;
    FreeFacts(n);
    LooseFacts(n, buf);
    SlotFacts(n, buf);
    MoreFree(n.mem, n.kb, n.parts.free, buf, mem, Freed(n, buf, mem).kb);
    SameFields(n.mem, n.kb, n.sys, mem, Freed(n, buf, mem).kb);
  }

  lemma FreeStepElse(n: Net, buf: Addr, mem: Memory)
    requires Inv(n) && buf in n.mem && OnlyLinks(Clean(n, buf).mem, mem, {buf, n.freel})
    ensures mem.Keys == n.mem.Keys
    ensures forall a :: a in n.mem && a != buf && a !in n.parts.free ==> mem[a] == n.mem[a]
  {
    hide Linked, Distinct, Partition, Sound, Carved, Counted, Supply, RawSet, HeldSlots;
    FreeFacts(n);
    assert n.parts.free != [] ==> n.freel in n.parts.free;
  }

  lemma LooseFacts(n: Net, buf: Addr)
    requires Inv(n) && buf in n.parts.loose
    ensures buf in n.mem && buf !in n.parts.free && buf != 0
  {
  }

  ghost function Taken(n: Net, mem: Memory): Net
    requires n.parts.free != [] && n.parts.free[0] in n.mem
    requires n.mem[n.parts.free[0]].member < |n.kb| && n.kb[n.mem[n.parts.free[0]].member].Held?
  {
    var f := n.parts.free[0];
    var i := n.mem[f].member;
    n.(mem := mem, freel := Handle(n.parts.free[1..]),
       kb := n.kb[i := n.kb[i].(freect := n.kb[i].freect - 1)],
       parts := n.parts.(free := n.parts.free[1..], loose := n.parts.loose + {f}))
  }

  lemma LessFree(m: Memory, kb: seq<KSlot>, free: seq<Addr>, m': Memory, kb': seq<KSlot>)
    requires |kb| == KB_HIWAT && Counted(m, kb, free, -1)
    requires free != [] && Distinct(free) && forall a :: a in free ==> a in m
    requires m'.Keys == m.Keys
    requires forall a :: a in m ==> m'[a].member == m[a].member && m'[a].raw == m[a].raw && m'[a].eom == m[a].eom
    requires m[free[0]].member < |kb| && kb[m[free[0]].member].Held?
    requires kb' == kb[m[free[0]].member := kb[m[free[0]].member].(freect := kb[m[free[0]].member].freect - 1)]
    ensures Counted(m', kb', free[1..], -1)
  {
    assert free == [free[0]] + free[1..];
    assert free[0] in free && forall a :: a in free[1..] ==> a in free;
    forall i | 0 <= i < |kb'| && kb'[i].Held? ensures kb'[i].freect == |FreeOf(m', free[1..], i)| {
      FreeOfTake(m', free, i);
      FreeOfSame(m, m', free, i);
      assert kb[i].Held?;
    }
  }

  /** getbuf: the first free buffer is unlinked and its block's count goes down. */
  lemma TakeStep(n: Net, mem: Memory)
    requires Inv(n) && n.parts.free != [] && n.parts.free[0] in n.mem
    requires n.mem[n.parts.free[0]].member < |n.kb| && n.kb[n.mem[n.parts.free[0]].member].Held?
    requires OnlyLinks(n.mem, mem, {n.parts.free[0], n.freel}) && Linked(mem, n.parts.free[1..])
    ensures Inv(Taken(n, mem)) && Bases(Taken(n, mem)) == Bases(n)
    ensures OthersKept(n.mem, n.parts, mem, Taken(n, mem).parts, {})
    ensures n.parts.free[0] !in n.parts.msgs && !mem[n.parts.free[0]].raw && !mem[n.parts.free[0]].eom
  {
    hide Shape, Distinct, Partition, Linked, Sound, Carved, Counted, Supply, RawSet, HeldSlots, Bases, OthersKept;
    var f := n.parts.free[0];
    FreeFacts(n);
    SlotFacts(n, f);
    assert f in n.parts.free && n.freel in n.parts.free;
    TakeShape(n.mem, n.parts, n.freel, mem);
    LessFree(n.mem, n.kb, n.parts.free, mem, Taken(n, mem).kb);
    SameFields(n.mem, n.kb, n.sys, mem, Taken(n, mem).kb);
    SoundSame(n.mem, mem);
    SlotsSame(n.kb, n.mem[f].member, n.kb[n.mem[f].member].(freect := n.kb[n.mem[f].member].freect - 1));
    BasesSame(n, Taken(n, mem));
    FreeTouched(n, mem, Taken(n, mem).parts);
    FreeNotMsg(n, f);
  }

  lemma FreeNotMsg(n: Net, f: Addr)
    requires Inv(n) && (f in n.parts.free || f in n.parts.loose)
    ensures f !in n.parts.msgs
  {
  }

  /** Touching only free and loose buffers leaves every message as it was. */
  lemma FreeTouched(n: Net, mem: Memory, p: Parts)
    requires Inv(n) && forall h :: h in n.parts.msgs ==> h in p.msgs && p.msgs[h] == n.parts.msgs[h]
    requires forall a :: a in n.mem && a !in n.parts.free && a !in n.parts.loose ==> a in mem && mem[a] == n.mem[a]
    ensures OthersKept(n.mem, n.parts, mem, p, {})
  {
  }

  ghost function Born(n: Net, f: Addr): Net
    requires f in n.mem
  {
    n.(mem := n.mem[f := n.mem[f].(len := 0, qlink := f)],
       parts := n.parts.(msgs := n.parts.msgs[f := [f]], loose := n.parts.loose - {f}))
  }

  /** A loose buffer set up as an empty one-buffer message. */
  lemma BornStep(n: Net, f: Addr)
    requires Inv(n) && f in n.parts.loose && f in n.mem && !n.mem[f].raw && !n.mem[f].eom
    ensures Inv(Born(n, f)) && Bases(Born(n, f)) == Bases(n)
    ensures OthersKept(n.mem, n.parts, Born(n, f).mem, Born(n, f).parts, {})
    ensures f !in n.parts.msgs
  {
    hide Shape, Distinct, Partition, Linked, Sound, Carved, Counted, Supply, RawSet, HeldSlots, Bases, OthersKept;
    var n' := Born(n, f);
    FreeFacts(n);
    LooseFacts(n, f);
    BornShape(n, f);
    SoundFacts(n, f);
    SoundWrite(n.mem, f, n'.mem[f]);
    SameFields(n.mem, n.kb, n.sys, n'.mem, n.kb);
    CountedSame(n.mem, n'.mem, n.kb, n.parts.free);
    BasesSame(n, n');
    FreeNotMsg(n, f);
    FreeTouched(n, n'.mem, n'.parts);
  }

  lemma SoundFacts(n: Net, a: Addr)
    requires Inv(n) && a in n.mem
    ensures n.mem[a].len <= NET_B_SIZE == |n.mem[a].data|
  {
  }

  lemma SoundWrite(m: Memory, a: Addr, b: Netbuf)
    requires Sound(m) && b.len <= NET_B_SIZE == |b.data|
    ensures Sound(m[a := b])
  {
  }

  lemma CountedSame(m: Memory, m': Memory, kb: seq<KSlot>, free: seq<Addr>)
    requires Counted(m, kb, free, -1)
    requires forall a :: a in free ==>
      a in m && a in m' && m'[a].member == m[a].member && m'[a].raw == m[a].raw && m'[a].eom == m[a].eom
    ensures Counted(m', kb, free, -1)
  {
    forall i | 0 <= i < |kb| && kb[i].Held? ensures kb[i].freect == |FreeOf(m', free, i)| {
      FreeOfSame(m, m', free, i);
    }
  }

  lemma BornShape(n: Net, f: Addr)
    requires Inv(n) && f in n.parts.loose && f in n.mem
    ensures Shape(Born(n, f).mem, Born(n, f).parts, n.freel)
  {
    hide Sound, Carved, Counted, Supply, Distinct;
    var n' := Born(n, f);
    NewMessage(n.mem.Keys, n.parts, f);
    LinksUntouched(n.mem, n'.mem, {f}, n.parts.free);
    forall h | h in n'.parts.msgs ensures Linked(n'.mem, n'.parts.msgs[h]) {
      BornRing(n, f, h);
    }
  }

  lemma BornRing(n: Net, f: Addr, h: Addr)
    requires Shape(n.mem, n.parts, n.freel) && f in n.parts.loose && f in n.mem && h in Born(n, f).parts.msgs
    ensures Linked(Born(n, f).mem, Born(n, f).parts.msgs[h])
  {
    if h != f {
      LinksUntouched(n.mem, Born(n, f).mem, {f}, n.parts.msgs[h]);
    }
  }

  ghost function Opened(n: Net, base: Addr, index: nat, mem: Memory): Net
    requires index < |n.kb| && n.pending > 0
  {
    n.(mem := mem, kb := n.kb[index := Held(base, 0)], sys := n.sys - {base}, pending := n.pending - 1,
       parts := n.parts.(loose := Block(base)))
  }

  /** getkb: a system block becomes eight loose netbufs in a slot that was empty. */
  lemma OpenStep(n: Net, base: Addr, index: nat, mem: Memory)
    requires Inv(n) && n.parts.loose == {} && base in n.sys && n.pending > 0
    requires index < |n.kb| && !n.kb[index].Held?
    requires mem.Keys == n.mem.Keys + Block(base)
    requires forall a :: a in n.mem && a !in Block(base) ==> mem[a] == n.mem[a]
    requires forall a :: a in Block(base) ==>
      mem[a].len <= NET_B_SIZE && |mem[a].data| == NET_B_SIZE && mem[a].member == index && !mem[a].raw && !mem[a].eom
    ensures Inv(Opened(n, base, index, mem)) && Bases(Opened(n, base, index, mem)) == Bases(n)
    ensures OthersKept(n.mem, n.parts, mem, Opened(n, base, index, mem).parts, {})
    ensures Block(base) !! n.mem.Keys
    ensures |HeldSlots(Opened(n, base, index, mem).kb)| == |HeldSlots(n.kb)| + 1
  {
    hide Shape, Distinct, Partition, Linked, Sound, Carved, Counted, Supply, RawSet, HeldSlots, Bases, OthersKept;
    var n' := Opened(n, base, index, mem);
    FreeFacts(n);
    SupplyFacts(n, base);
    SlotCount(n);
    NewBlockShape(n.mem, n.parts, n.freel, Block(base), mem);
    NewBlockCarved(n.mem, n.kb, base, index, mem);
    NewBlockCounted(n.mem, n.kb, n.parts.free, base, index, mem);
    SupplyLess(n.mem, n.sys, base, mem);
    NewBlockSound(n.mem, base, mem);
    OneMoreHeld(n.kb, index, base);
    FreeTouched(n, mem, n'.parts);
    OpenBases(n, base, index, mem);
  }

  lemma SlotCount(n: Net)
    requires Inv(n)
    ensures |n.kb| == KB_HIWAT
  {
  }

  lemma SupplyFacts(n: Net, base: Addr)
    requires Inv(n) && base in n.sys
    ensures 0 !in Block(base) && Block(base) !! n.mem.Keys
  {
  }

  lemma NewBlockSound(m: Memory, base: Addr, m': Memory)
    requires Sound(m) && m'.Keys == m.Keys + Block(base) && forall a :: a in m ==> m'[a] == m[a]
    requires Block(base) !! m.Keys
    requires forall a :: a in Block(base) ==> m'[a].len <= NET_B_SIZE == |m'[a].data| && !m'[a].raw
    ensures Sound(m') && RawSet(m') == RawSet(m)
  {
  }

  lemma OneMoreHeld(kb: seq<KSlot>, index: nat, base: Addr)
    requires index < |kb| && !kb[index].Held?
    ensures HeldSlots(kb[index := Held(base, 0)]) == HeldSlots(kb) + {index}
    ensures |HeldSlots(kb[index := Held(base, 0)])| == |HeldSlots(kb)| + 1
  {
    assert HeldSlots(kb[index := Held(base, 0)]) == HeldSlots(kb) + {index};
  }

  lemma OpenBases(n: Net, base: Addr, index: nat, mem: Memory)
    requires base in n.sys && n.pending > 0 && index < |n.kb| && !n.kb[index].Held?
    ensures Bases(Opened(n, base, index, mem)) == Bases(n)
  {
    var n' := Opened(n, base, index, mem);
    assert n'.kb[index].base == base;
    assert forall i :: 0 <= i < |n.kb| && n.kb[i].Held? ==> n'.kb[i] == n.kb[i];
    assert forall i :: 0 <= i < |n'.kb| && n'.kb[i].Held? ==> n'.kb[i].base in Bases(n);
  }

  lemma OthersTrans(n1: Net, n2: Net, n3: Net, e1: set<Addr>, e2: set<Addr>)
    requires OthersKept(n1.mem, n1.parts, n2.mem, n2.parts, e1)
    requires OthersKept(n2.mem, n2.parts, n3.mem, n3.parts, e2)
    requires forall a :: a in e2 && a in n1.parts.msgs ==> a in e1
    ensures OthersKept(n1.mem, n1.parts, n3.mem, n3.parts, e1)
  {
  }

  lemma HoleFacts(n: Net)
    requires Inv(n) && n.pending > 0
    ensures |n.kb| == KB_HIWAT && exists k :: 0 <= k < KB_HIWAT && !n.kb[k].Held?
  {
    AHole(n.kb);
  }

  lemma LooseNotFree(n: Net)
    requires Inv(n)
    ensures forall a :: a in n.parts.loose ==> a !in n.parts.free
  {
  }

  lemma KeptSelf(n: Net)
    requires Inv(n)
    ensures OthersKept(n.mem, n.parts, n.mem, n.parts, {})
  {
  }

  lemma WaitStep(n: Net)
    requires Inv(n) && n.alloc < KB_HIWAT
    ensures Inv(n.(alloc := n.alloc + 1, pending := n.pending + 1))
    ensures OthersKept(n.mem, n.parts, n.mem, n.parts, {})
    ensures Bases(n.(alloc := n.alloc + 1, pending := n.pending + 1)) == Bases(n)
  {
    hide Shape, Distinct, Partition, Linked, Sound, Carved, Counted, Supply, RawSet, HeldSlots, OthersKept;
    KeptSelf(n);
  }

  lemma FirstIs(mem: Memory, s: seq<Addr>)
    requires s != [] && Linked(mem, s)
    ensures Handle(s) in mem && s[0] in mem && mem[Handle(s)].qlink == s[0]
  {
    var k := |s| - 1;
    assert Handle(s) == s[k];
    assert s[k] in mem && mem[s[k]].qlink == s[0];
    assert s[0] in mem;
  }

  ghost function Released(n: Net, i: nat, ring: seq<Addr>, mem: Memory): Net
    requires i < |n.kb| && n.kb[i].Held?
  {
    n.(mem := mem - Block(n.kb[i].base), freel := Handle(ring), kb := n.kb[i := NoBlock], alloc := n.alloc - 1,
       sys := n.sys + {n.kb[i].base}, parts := n.parts.(free := ring))
  }

  /** `ring` is what is left of the free list once the netbufs of block `i` are unlinked from it. */
  ghost predicate LeftOver(n: Net, i: nat, ring: seq<Addr>, mem: Memory) {
    && Distinct(ring) && Linked(mem, ring) && mem.Keys == n.mem.Keys
    && (forall a :: a in ring <==> a in n.parts.free && a in n.mem && n.mem[a].member != i)
    && (forall a :: a in n.mem && a !in n.parts.free ==> mem[a] == n.mem[a])
    && (forall a :: a in ring ==> mem[a] == n.mem[a].(qlink := mem[a].qlink))
  }

  /** freekb: a block all of whose netbufs are free goes back to the system; no message notices. */
  lemma ReleaseStep(n: Net, i: nat, ring: seq<Addr>, mem: Memory)
    requires Inv(n) && n.parts.loose == {} && i < |n.kb| && n.kb[i].Held? && n.kb[i].freect == NET_B_PER_K_B
    requires LeftOver(n, i, ring, mem)
    ensures Inv(Released(n, i, ring, mem)) && Bases(Released(n, i, ring, mem)) == Bases(n)
    ensures OthersKept(n.mem, n.parts, Released(n, i, ring, mem).mem, Released(n, i, ring, mem).parts, {})
    ensures Released(n, i, ring, mem).kb[i] == NoBlock
    ensures forall a :: a in Block(n.kb[i].base) ==> a in n.parts.free
    ensures |HeldSlots(Released(n, i, ring, mem).kb)| == |HeldSlots(n.kb)| - 1
  {
    hide Shape, Distinct, Partition, Linked, Sound, Carved, Counted, Supply, RawSet, HeldSlots, Bases, OthersKept,
      LeftOver;
    var n' := Released(n, i, ring, mem);
    WholeBlock(n, i);
    ReleaseShape(n, i, ring, mem);
    ReleaseFields(n, i, ring, mem);
    ReleaseCarved(n, i, ring, mem);
    ReleaseCounted(n, i, ring, mem);
    ReleaseSupply(n, i, ring, mem);
    OneLessHeld(n.kb, i);
    ReleaseBases(n, i, ring, mem);
  }

  lemma WholeBlock(n: Net, i: nat)
    requires Inv(n) && i < |n.kb| && n.kb[i].Held? && n.kb[i].freect == NET_B_PER_K_B
    ensures forall a :: a in n.mem ==> (a in Block(n.kb[i].base) <==> n.mem[a].member == i)
    ensures forall a :: a in Block(n.kb[i].base) ==> a in n.parts.free && a in n.mem
    ensures |FreeOf(n.mem, n.parts.free, i)| == NET_B_PER_K_B
  {
    hide Shape, Distinct, Partition, Linked, Sound, Supply, RawSet, HeldSlots;
    WholeBlockFree(n.mem, n.kb, n.parts.free, i);
    assert forall a :: a in Block(n.kb[i].base) ==> a in FreeOf(n.mem, n.parts.free, i);
    OneOwner(n.mem, n.kb, i);
  }

  lemma OneOwner(m: Memory, kb: seq<KSlot>, i: nat)
    requires Carved(m, kb) && i < |kb| && kb[i].Held?
    ensures forall a :: a in m ==> (a in Block(kb[i].base) <==> m[a].member == i)
  {
  }

  lemma ReleaseShape(n: Net, i: nat, ring: seq<Addr>, mem: Memory)
    requires Inv(n) && n.parts.loose == {} && i < |n.kb| && n.kb[i].Held? && n.kb[i].freect == NET_B_PER_K_B
    requires LeftOver(n, i, ring, mem)
    ensures Shape(mem - Block(n.kb[i].base), n.parts.(free := ring), Handle(ring))
    ensures OthersKept(n.mem, n.parts, mem - Block(n.kb[i].base), n.parts.(free := ring), {})
  {
    hide Carved, Counted, Sound, Supply, RawSet, HeldSlots, FreeOf;
    var cut := Block(n.kb[i].base);
    var m' := mem - cut;
    WholeBlock(n, i);
    hide Block;
    forall h | h in n.parts.msgs ensures Linked(m', n.parts.msgs[h]) && SameBufs(n.mem, m', n.parts.msgs[h]) {
      RingSurvives(n, h, m');
    }
    RingStays(mem, m', ring);
    ReleasePartition(n, cut, ring);
  }

  lemma RingSurvives(n: Net, h: Addr, m': Memory)
    requires Inv(n) && h in n.parts.msgs
    requires forall a :: a in n.mem && a !in n.parts.free ==> a in m' && m'[a] == n.mem[a]
    ensures Linked(m', n.parts.msgs[h]) && SameBufs(n.mem, m', n.parts.msgs[h])
  {
    hide Carved, Counted, Sound, Supply, RawSet, HeldSlots, Distinct, Linked, SameBufs;
    MsgFacts(n, h);
    LinksUntouched(n.mem, m', (set a | a in n.parts.free), n.parts.msgs[h]);
  }

  lemma RingStays(m: Memory, m': Memory, s: seq<Addr>)
    requires Linked(m, s) && forall a :: a in s ==> a in m' && a in m && m'[a] == m[a]
    ensures Linked(m', s)
  {
    forall i | 0 <= i < |s|
      ensures s[i] in m' && m'[s[i]].qlink == (if i + 1 < |s| then s[i + 1] else s[0])
    {
      assert s[i] in s && s[i] in m;
    }
  }

  lemma ReleasePartition(n: Net, cut: set<Addr>, ring: seq<Addr>)
    requires Inv(n) && n.parts.loose == {} && Distinct(ring)
    requires forall a :: a in ring <==> a in n.parts.free && a !in cut
    requires forall a :: a in cut ==> a in n.parts.free
    ensures Partition(n.mem.Keys - cut, n.parts.(free := ring))
  {
    hide Carved, Counted, Sound, Supply, RawSet, HeldSlots, Linked;
  }

  lemma ReleaseFields(n: Net, i: nat, ring: seq<Addr>, mem: Memory)
    requires Inv(n) && i < |n.kb| && n.kb[i].Held? && n.kb[i].freect == NET_B_PER_K_B
    requires LeftOver(n, i, ring, mem)
    ensures Sound(mem - Block(n.kb[i].base))
    ensures RawSet(mem - Block(n.kb[i].base)) == RawSet(n.mem)
  {
    hide Shape, Carved, Counted, Supply, HeldSlots, FreeOf, Distinct, Linked;
    WholeBlock(n, i);
    FreeFacts(n);
    LeftEither(n, i, ring, mem);
    var m' := mem - Block(n.kb[i].base);
    forall a ensures a in RawSet(m') <==> a in RawSet(n.mem) {
    }
  }

  lemma LeftEither(n: Net, i: nat, ring: seq<Addr>, mem: Memory)
    requires Inv(n) && LeftOver(n, i, ring, mem)
    ensures forall a :: a in n.mem && (a !in n.parts.free || n.mem[a].member != i) ==>
      a in mem && mem[a] == n.mem[a].(qlink := mem[a].qlink)
  {
    hide Inv, Distinct, Linked;
  }

  lemma ReleaseCarved(n: Net, i: nat, ring: seq<Addr>, mem: Memory)
    requires Inv(n) && i < |n.kb| && n.kb[i].Held? && n.kb[i].freect == NET_B_PER_K_B
    requires LeftOver(n, i, ring, mem)
    ensures Carved(mem - Block(n.kb[i].base), n.kb[i := NoBlock])
  {
    hide Shape, Counted, Supply, HeldSlots, FreeOf, Distinct, Linked, RawSet, Sound, LeftOver;
    WholeBlock(n, i);
    LeftEither(n, i, ring, mem);
    LeftKeys(n, i, ring, mem);
  }

  lemma LeftKeys(n: Net, i: nat, ring: seq<Addr>, mem: Memory)
    requires LeftOver(n, i, ring, mem)
    ensures mem.Keys == n.mem.Keys
  {
  }

  lemma ReleaseCounted(n: Net, i: nat, ring: seq<Addr>, mem: Memory)
    requires Inv(n) && i < |n.kb| && n.kb[i].Held? && n.kb[i].freect == NET_B_PER_K_B
    requires LeftOver(n, i, ring, mem)
    ensures Counted(mem - Block(n.kb[i].base), n.kb[i := NoBlock], ring, -1)
  {
    hide Shape, Carved, Supply, HeldSlots, Distinct, Linked, RawSet, Sound;
    WholeBlock(n, i);
    FreeFacts(n);
    var m' := mem - Block(n.kb[i].base);
    var kb' := n.kb[i := NoBlock];
    forall k | 0 <= k < |kb'| && kb'[k].Held? ensures kb'[k].freect == |FreeOf(m', ring, k)| {
      assert FreeOf(m', ring, k) == FreeOf(n.mem, n.parts.free, k);
    }
  }

  lemma ReleaseSupply(n: Net, i: nat, ring: seq<Addr>, mem: Memory)
    requires Inv(n) && i < |n.kb| && n.kb[i].Held? && n.kb[i].freect == NET_B_PER_K_B
    requires LeftOver(n, i, ring, mem)
    ensures Supply(mem - Block(n.kb[i].base), n.sys + {n.kb[i].base})
  {
    hide Shape, Carved, Counted, HeldSlots, Distinct, Linked, RawSet, Sound, FreeOf, LeftOver;
    WholeBlock(n, i);
    FreeFacts(n);
    LeftKeys(n, i, ring, mem);
  }

  lemma OneLessHeld(kb: seq<KSlot>, i: nat)
    requires i < |kb| && kb[i].Held?
    ensures |HeldSlots(kb[i := NoBlock])| == |HeldSlots(kb)| - 1
  {
    assert HeldSlots(kb[i := NoBlock]) == HeldSlots(kb) - {i};
  }

  lemma ReleaseBases(n: Net, i: nat, ring: seq<Addr>, mem: Memory)
    requires i < |n.kb| && n.kb[i].Held?
    ensures Bases(Released(n, i, ring, mem)) == Bases(n)
  {
    var n' := Released(n, i, ring, mem);
    assert n.kb[i].base in Bases(n);
    assert forall k :: 0 <= k < |n.kb| && n.kb[k].Held? && k != i ==> n'.kb[k] == n.kb[k];
    assert forall k :: 0 <= k < |n'.kb| && n'.kb[k].Held? ==> n'.kb[k].base in Bases(n);
    assert forall k :: 0 <= k < |n.kb| && n.kb[k].Held? ==> n.kb[k].base in Bases(n');
  }

  // ------------------------------------------------------------------ steps on one message

  /** A loose or queued buffer loses its raw mark and the count goes down with it. */
  ghost function Unrawed(n: Net, a: Addr): Net
    requires a in n.mem
  {
    if n.mem[a].raw then n.(mem := n.mem[a := n.mem[a].(raw := false)], rbufCount := n.rbufCount - 1) else n
  }

  ghost predicate SameButMarks(b: Netbuf, c: Netbuf) {
    b == c.(raw := b.raw, eom := b.eom, len := b.len, data := b.data)
  }

  /** Rewriting a buffer of message `h` in place: data, length or marks, not its link or slot. */
  lemma WriteShape(n: Net, h: Addr, a: Addr, b: Netbuf)
    requires Inv(n) && h in n.parts.msgs && a in n.parts.msgs[h] && a in n.mem && SameButMarks(b, n.mem[a])
    ensures Shape(n.mem[a := b], n.parts, n.freel)
    ensures OthersKept(n.mem, n.parts, n.mem[a := b], n.parts, {h})
    ensures Counted(n.mem[a := b], n.kb, n.parts.free, -1)
  {
    hide Sound, Carved, Supply, RawSet, HeldSlots, Distinct, Linked, Counted;
    var m' := n.mem[a := b];
    MsgFacts(n, h);
    FreeFacts(n);
    SameLinks(n.mem, m', n.parts.free);
    forall g | g in n.parts.msgs ensures Linked(m', n.parts.msgs[g]) {
      MsgFacts(n, g);
      SameLinks(n.mem, m', n.parts.msgs[g]);
    }
    CountedSame(n.mem, m', n.kb, n.parts.free);
  }

  lemma SameLinks(m: Memory, m': Memory, s: seq<Addr>)
    requires Linked(m, s) && forall a :: a in m ==> a in m' && m'[a].qlink == m[a].qlink
    ensures Linked(m', s)
  {
    forall i | 0 <= i < |s|
      ensures s[i] in m' && m'[s[i]].qlink == (if i + 1 < |s| then s[i + 1] else s[0])
    {
      assert s[i] in m;
    }
  }

  lemma WriteStep(n: Net, h: Addr, a: Addr, b: Netbuf)
    requires Inv(n) && h in n.parts.msgs && a in n.parts.msgs[h] && a in n.mem && SameButMarks(b, n.mem[a])
    requires b.raw == n.mem[a].raw && b.len <= NET_B_SIZE == |b.data|
    ensures Inv(n.(mem := n.mem[a := b])) && Bases(n.(mem := n.mem[a := b])) == Bases(n)
    ensures OthersKept(n.mem, n.parts, n.mem[a := b], n.parts, {h})
  {
    hide Shape, Distinct, Partition, Linked, Sound, Carved, Counted, Supply, RawSet, HeldSlots, Bases, OthersKept;
    WriteShape(n, h, a, b);
    SoundWrite(n.mem, a, b);
    SameFields(n.mem, n.kb, n.sys, n.mem[a := b], n.kb);
    BasesSame(n, n.(mem := n.mem[a := b]));
  }

  /** rawbuf's mark, counted. */
  lemma RawStep(n: Net, h: Addr, a: Addr)
    requires Inv(n) && h in n.parts.msgs && a in n.parts.msgs[h] && a in n.mem && !n.mem[a].raw
    requires n.rbufCount < RBUF_MAX
    ensures var n' := n.(mem := n.mem[a := n.mem[a].(raw := true)], rbufCount := n.rbufCount + 1);
      Inv(n') && Bases(n') == Bases(n) && OthersKept(n.mem, n.parts, n'.mem, n'.parts, {h})
  {
    hide Shape, Distinct, Partition, Linked, Sound, Carved, Counted, Supply, HeldSlots, Bases, OthersKept;
    var b := n.mem[a].(raw := true);
    MsgFacts(n, h);
    WriteShape(n, h, a, b);
    SoundWrite(n.mem, a, b);
    SameSlots(n.mem, n.kb, n.sys, n.mem[a := b]);
    assert RawSet(n.mem[a := b]) == RawSet(n.mem) + {a};
    BasesSame(n, n.(mem := n.mem[a := b], rbufCount := n.rbufCount + 1));
  }

  lemma UnrawStep(n: Net, h: Addr, a: Addr)
    requires Inv(n) && h in n.parts.msgs && a in n.parts.msgs[h] && a in n.mem
    ensures Inv(Unrawed(n, a)) && Bases(Unrawed(n, a)) == Bases(n)
    ensures OthersKept(n.mem, n.parts, Unrawed(n, a).mem, n.parts, {h})
  {
    hide Shape, Distinct, Partition, Linked, Sound, Carved, Counted, Supply, HeldSlots, Bases, OthersKept;
    var b := n.mem[a].(raw := false);
    MsgFacts(n, h);
    WriteShape(n, h, a, b);
    SoundWrite(n.mem, a, b);
    SameSlots(n.mem, n.kb, n.sys, n.mem[a := b]);
    if n.mem[a].raw {
      assert a in RawSet(n.mem);
      assert RawSet(n.mem[a := b]) == RawSet(n.mem) - {a};
    } else {
      assert n.mem[a := b] == n.mem;
    }
    BasesSame(n, Unrawed(n, a));
  }

  lemma SameSlots(m: Memory, kb: seq<KSlot>, sys: set<Addr>, m': Memory)
    requires m.Keys == m'.Keys && forall a :: a in m ==> m'[a].member == m[a].member
    requires Carved(m, kb) && Supply(m, sys)
    ensures Carved(m', kb) && Supply(m', sys)
  {
    StillCarved(m, kb, m', kb);
    SupplySame(m, sys, m');
  }

  lemma SupplySame(m: Memory, sys: set<Addr>, m': Memory)
    requires Supply(m, sys) && m'.Keys == m.Keys
    ensures Supply(m', sys)
  {
    hide Block;
  }

  /** The first buffer of message `h` is unlinked and in hand. */
  lemma BeheadStep(n: Net, h: Addr, mem: Memory)
    requires Inv(n) && h in n.parts.msgs && n.parts.msgs[h] != []
    requires Linked(mem, n.parts.msgs[h][1..]) && OnlyLinks(n.mem, mem, {n.parts.msgs[h][0], h})
    ensures var n' := n.(mem := mem, parts := Beheaded(n.parts, h));
      Inv(n') && Bases(n') == Bases(n) && OthersKept(n.mem, n.parts, n'.mem, n'.parts, {h})
  {
    hide Shape, Distinct, Partition, Linked, Sound, Carved, Counted, Supply, RawSet, HeldSlots, Bases, OthersKept;
    BeheadShape(n, h, mem);
    FreeFacts(n);
    MsgFacts(n, h);
    assert n.parts.msgs[h][0] in n.parts.msgs[h];
    SoundSame(n.mem, mem);
    SameFields(n.mem, n.kb, n.sys, mem, n.kb);
    CountedSame(n.mem, mem, n.kb, n.parts.free);
    BasesSame(n, n.(mem := mem, parts := Beheaded(n.parts, h)));
  }

  lemma BeheadShape(n: Net, h: Addr, mem: Memory)
    requires Inv(n) && h in n.parts.msgs && n.parts.msgs[h] != []
    requires Linked(mem, n.parts.msgs[h][1..]) && OnlyLinks(n.mem, mem, {n.parts.msgs[h][0], h})
    ensures Shape(mem, Beheaded(n.parts, h), n.freel)
    ensures OthersKept(n.mem, n.parts, mem, Beheaded(n.parts, h), {h})
  {
    hide Sound, Carved, Counted, Supply, RawSet, HeldSlots, Distinct, Linked, SameBufs;
    var s := n.parts.msgs[h];
    var p' := Beheaded(n.parts, h);
    MsgFacts(n, h);
    FreeFacts(n);
    Behead(n.mem.Keys, n.parts, h);
    assert s[0] in s;
    LinksUntouched(n.mem, mem, {s[0], h}, n.parts.free);
    forall g | g in n.parts.msgs && g != h
      ensures Linked(mem, n.parts.msgs[g]) && SameBufs(n.mem, mem, n.parts.msgs[g])
    {
      MsgFacts(n, g);
      OneRing(n, g, h);
      LinksUntouched(n.mem, mem, {s[0], h}, n.parts.msgs[g]);
    }
  }

  lemma OneRing(n: Net, g: Addr, h: Addr)
    requires Inv(n) && g in n.parts.msgs && h in n.parts.msgs && g != h
    ensures forall a :: a in n.parts.msgs[g] ==> a !in n.parts.msgs[h]
  {
    hide Sound, Carved, Counted, Supply, RawSet, HeldSlots, Linked;
  }

  ghost function Joined(n: Net, g: Addr, h: Addr, mem: Memory): Net
    requires g in n.parts.msgs && h in n.parts.msgs && n.parts.msgs[h] != []
  {
    n.(mem := mem, parts := n.parts.(msgs := Rehandled(n.parts.msgs, {g, h}, n.parts.msgs[g] + n.parts.msgs[h])))
  }

  /** Two messages linked into one: linkbuf of a one-buffer message, or the end of catmsg. */
  lemma JoinStep(n: Net, g: Addr, h: Addr, mem: Memory)
    requires Inv(n) && g in n.parts.msgs && h in n.parts.msgs && g != h && n.parts.msgs[h] != []
    requires Linked(mem, n.parts.msgs[g] + n.parts.msgs[h]) && OnlyLinks(n.mem, mem, {g, h})
    ensures Inv(Joined(n, g, h, mem)) && Bases(Joined(n, g, h, mem)) == Bases(n)
    ensures OthersKept(n.mem, n.parts, mem, Joined(n, g, h, mem).parts, {g, h})
    ensures Joined(n, g, h, mem).parts.msgs == (n.parts.msgs - {g, h})[h := n.parts.msgs[g] + n.parts.msgs[h]]
  {
    hide Shape, Distinct, Partition, Linked, Sound, Carved, Counted, Supply, RawSet, HeldSlots, Bases, OthersKept;
    FreeFacts(n);
    MsgFacts(n, g);
    MsgFacts(n, h);
    JoinShape(n, g, h, mem);
    SoundSame(n.mem, mem);
    SameFields(n.mem, n.kb, n.sys, mem, n.kb);
    CountedSame(n.mem, mem, n.kb, n.parts.free);
    BasesSame(n, Joined(n, g, h, mem));
  }

  lemma JoinShape(n: Net, g: Addr, h: Addr, mem: Memory)
    requires Inv(n) && g in n.parts.msgs && h in n.parts.msgs && g != h && n.parts.msgs[h] != []
    requires Linked(mem, n.parts.msgs[g] + n.parts.msgs[h]) && OnlyLinks(n.mem, mem, {g, h})
    ensures Shape(mem, Joined(n, g, h, mem).parts, n.freel)
    ensures OthersKept(n.mem, n.parts, mem, Joined(n, g, h, mem).parts, {g, h})
  {
    hide Sound, Carved, Counted, Supply, RawSet, HeldSlots, Linked, SameBufs, Distinct, Partition;
    FreeFacts(n);
    MsgFacts(n, g);
    MsgFacts(n, h);
    JoinPartition(n, g, h);
    LinksUntouched(n.mem, mem, {g, h}, n.parts.free);
    forall k | k in n.parts.msgs && k != g && k != h
      ensures Linked(mem, n.parts.msgs[k]) && SameBufs(n.mem, mem, n.parts.msgs[k])
    {
      OneRing(n, k, g);
      OneRing(n, k, h);
      LinksUntouched(n.mem, mem, {g, h}, n.parts.msgs[k]);
    }
  }

  lemma JoinPartition(n: Net, g: Addr, h: Addr)
    requires Inv(n) && g in n.parts.msgs && h in n.parts.msgs && g != h && n.parts.msgs[h] != []
    ensures Partition(n.mem.Keys, Joined(n, g, h, n.mem).parts)
  {
    hide Sound, Carved, Counted, Supply, RawSet, HeldSlots, Linked, Distinct;
    var s, t := n.parts.msgs[g], n.parts.msgs[h];
    MsgFacts(n, g);
    MsgFacts(n, h);
    OneRing(n, g, h);
    DistinctConcat(s, t);
    assert forall a :: a in s + t <==> exists k :: k in {g, h} && a in n.parts.msgs[k];
    hide Partition;
    Regroup(n.mem.Keys, n.parts, {g, h}, {}, s + t);
    assert n.parts.loose - {} == n.parts.loose;
  }

  lemma DistinctConcat(s: seq<Addr>, t: seq<Addr>)
    requires Distinct(s) && Distinct(t) && forall a :: a in s ==> a !in t
    ensures Distinct(s + t)
  {
    forall i, j | 0 <= i < j < |s + t| ensures (s + t)[i] != (s + t)[j] {
      if i < |s| <= j {
        assert s[i] in s && t[j - |s|] in t;
      }
    }
  }

  // ------------------------------------------------------------------ what the steps do to the chunks

  lemma ChunksTail(m: Memory, m': Memory, s: seq<Addr>)
    requires s != [] && SameContents(m, m', s[1..])
    ensures Chunks(m', s[1..]) == Chunks(m, s)[1..]
  {
    SameChunks(m, m', s[1..]);
    assert Chunks(m, s[1..]) == Chunks(m, s)[1..];
  }

  lemma ChunksConcat(m: Memory, m': Memory, s: seq<Addr>, t: seq<Addr>)
    requires SameContents(m, m', s) && SameContents(m, m', t)
    ensures Chunks(m', s + t) == Chunks(m, s) + Chunks(m, t)
  {
    SameChunks(m, m', s);
    SameChunks(m, m', t);
    assert Chunks(m', s + t) == Chunks(m', s) + Chunks(m', t);
  }

  lemma ChunksWrite(m: Memory, s: seq<Addr>, k: nat, b: Netbuf)
    requires k < |s| && Distinct(s) && s[k] in m && b.len <= |b.data|
    ensures Chunks(m[s[k] := b], s) == Chunks(m, s)[k := b.data[..b.len]]
  {
  }

  lemma LinksOnlyContents(m: Memory, m': Memory, changed: set<Addr>, s: seq<Addr>)
    requires OnlyLinks(m, m', changed) && forall a :: a in s ==> a in m
    ensures SameContents(m, m', s)
  {
  }

  lemma SameBufsContents(m: Memory, m': Memory, s: seq<Addr>)
    requires SameBufs(m, m', s)
    ensures SameContents(m, m', s) && Chunks(m', s) == Chunks(m, s)
  {
    SameChunks(m, m', s);
  }

  lemma OthersMsg(n: Net, n': Net, e: set<Addr>, h: Addr)
    requires OthersKept(n.mem, n.parts, n'.mem, n'.parts, e) && h in n.parts.msgs && h !in e
    ensures h in n'.parts.msgs && n'.parts.msgs[h] == n.parts.msgs[h]
    ensures SameBufs(n.mem, n'.mem, n.parts.msgs[h])
    ensures Chunks(n'.mem, n.parts.msgs[h]) == Chunks(n.mem, n.parts.msgs[h])
  {
    SameBufsContents(n.mem, n'.mem, n.parts.msgs[h]);
  }

  lemma FirstOnce(s: seq<Addr>)
    requires s != [] && Distinct(s)
    ensures s[0] in s && Handle(s) in s && s[0] !in s[1..]
    ensures forall a :: a in s[1..] ==> a in s
  {
  }

  /** Unmarking the first buffer and unlinking it leaves the others' contents alone. */
  lemma TailKept(n: Net, h: Addr, mem: Memory)
    requires Inv(n) && h in n.parts.msgs && n.parts.msgs[h] != [] && n.parts.msgs[h][0] in n.mem
    requires OnlyLinks(Unrawed(n, n.parts.msgs[h][0]).mem, mem, {n.parts.msgs[h][0], h})
    ensures Chunks(mem, n.parts.msgs[h][1..]) == Chunks(n.mem, n.parts.msgs[h])[1..]
  {
    hide Inv, Chunks, Linked;
    var s := n.parts.msgs[h];
    MsgFacts(n, h);
    FirstOnce(s);
    hide Distinct;
    ChunksTail(n.mem, mem, s);
  }

  lemma OnlyLinksRaw(m: Memory, m': Memory, changed: set<Addr>)
    requires OnlyLinks(m, m', changed)
    ensures m'.Keys == m.Keys && forall a :: a in m ==> m'[a].raw == m[a].raw && m'[a].eom == m[a].eom
  {
  }

  lemma ChunksLength(m: Memory, s: seq<Addr>)
    ensures |Chunks(m, s)| == |s|
    ensures |s| == 1 ==> Chunks(m, s)[1..] == []
  {
  }

  lemma NullNotMsg(n: Net)
    requires Inv(n)
    ensures 0 !in n.parts.msgs
  {
    if 0 in n.parts.msgs {
      MsgFacts(n, 0);
    }
  }

  lemma KeptExcept(n: Net, e: set<Addr>)
    requires Inv(n)
    ensures OthersKept(n.mem, n.parts, n.mem, n.parts, e)
  {
  }

  /** What a buffer of a message holds, seen as a chunk of the message. */
  lemma LastChunk(n: Net, h: Addr)
    requires Inv(n) && h in n.parts.msgs
    ensures n.parts.msgs[h] != [] && h in n.mem && n.mem[h].len <= NET_B_SIZE == |n.mem[h].data|
    ensures Chunks(n.mem, n.parts.msgs[h])[|n.parts.msgs[h]| - 1] == n.mem[h].data[..n.mem[h].len]
  {
    hide Linked, Distinct, Partition, Carved, Counted, Supply, RawSet, HeldSlots;
    MsgFacts(n, h);
  }

  lemma FirstChunk(n: Net, h: Addr)
    requires Inv(n) && h in n.parts.msgs
    ensures n.parts.msgs[h] != [] && h in n.mem && n.mem[h].qlink == n.parts.msgs[h][0]
    ensures n.parts.msgs[h][0] in n.mem && n.parts.msgs[h][0] in n.parts.msgs[h]
    ensures n.mem[n.parts.msgs[h][0]].len <= NET_B_SIZE == |n.mem[n.parts.msgs[h][0]].data|
    ensures Chunks(n.mem, n.parts.msgs[h])[0] == n.mem[n.parts.msgs[h][0]].data[..n.mem[n.parts.msgs[h][0]].len]
  {
    hide Linked, Distinct, Partition, Carved, Counted, Supply, RawSet, HeldSlots;
    MsgFacts(n, h);
    FirstIs(n.mem, n.parts.msgs[h]);
    assert n.parts.msgs[h][0] in n.parts.msgs[h];
  }

  lemma ChunksSized(n: Net, h: Addr)
    requires Inv(n) && h in n.parts.msgs
    ensures Sized(Chunks(n.mem, n.parts.msgs[h]))
  {
    hide Linked, Distinct, Partition, Carved, Counted, Supply, RawSet, HeldSlots;
    MsgFacts(n, h);
    forall i | 0 <= i < |n.parts.msgs[h]| ensures |ChunkAt(n.mem, n.parts.msgs[h][i])| <= NET_B_SIZE {
      assert n.parts.msgs[h][i] in n.parts.msgs[h];
    }
  }

  /** Bytes added at the end of the last buffer of `h`. */
  ghost function Extended(b: Netbuf, bs: seq<Byte>): Netbuf
    requires b.len + |bs| <= |b.data|
  {
    b.(len := b.len + |bs|, data := b.data[..b.len] + bs + b.data[b.len + |bs|..])
  }

  lemma ExtendStep(n: Net, h: Addr, bs: seq<Byte>)
    requires Inv(n) && h in n.parts.msgs && h in n.mem && n.mem[h].len + |bs| <= NET_B_SIZE == |n.mem[h].data|
    ensures n.parts.msgs[h] != []
    ensures var m := n.mem[h := Extended(n.mem[h], bs)];
      && Inv(n.(mem := m)) && Bases(n.(mem := m)) == Bases(n)
      && OthersKept(n.mem, n.parts, m, n.parts, {h})
      && Chunks(m, n.parts.msgs[h]) == AddToLast(Chunks(n.mem, n.parts.msgs[h]), bs)
  {
    hide Inv, Bases, OthersKept, Distinct, Linked, Chunks;
    var s := n.parts.msgs[h];
    var b := Extended(n.mem[h], bs);
    MsgFacts(n, h);
    LastChunk(n, h);
    WriteStep(n, h, h, b);
    ChunksWrite(n.mem, s, |s| - 1, b);
    assert b.data[..b.len] == n.mem[h].data[..n.mem[h].len] + bs;
  }

  lemma ExtendIs(b: Netbuf, bs: seq<Byte>)
    requires b.len + |bs| <= |b.data|
    ensures Extended(b, bs) == b.(len := b.len + |bs|, data := b.data[..b.len] + bs + b.data[b.len + |bs|..])
  {
  }

  /** The first `k` bytes of the first buffer of `h` gone, the rest moved up. */
  ghost function Shifted(b: Netbuf, k: nat): Netbuf
    requires k <= b.len <= |b.data|
  {
    b.(len := b.len - k, data := b.data[k..b.len] + b.data[b.len - k..])
  }

  lemma ShiftStep(n: Net, h: Addr, k: nat)
    requires Inv(n) && h in n.parts.msgs && n.parts.msgs[h] != []
    requires var a := n.parts.msgs[h][0]; a in n.mem && k <= n.mem[a].len <= NET_B_SIZE == |n.mem[a].data|
    ensures var a := n.parts.msgs[h][0];
      var m := n.mem[a := Shifted(n.mem[a], k)];
      var cs := Chunks(n.mem, n.parts.msgs[h]);
      && Inv(n.(mem := m)) && Bases(n.(mem := m)) == Bases(n)
      && OthersKept(n.mem, n.parts, m, n.parts, {h})
      && k <= |cs[0]| && Chunks(m, n.parts.msgs[h]) == cs[0 := cs[0][k..]]
  {
    hide Inv, Bases, OthersKept, Distinct, Linked, Chunks;
    var s := n.parts.msgs[h];
    var b := Shifted(n.mem[s[0]], k);
    MsgFacts(n, h);
    FirstChunk(n, h);
    WriteStep(n, h, s[0], b);
    ChunksWrite(n.mem, s, 0, b);
    assert b.data[..b.len] == n.mem[s[0]].data[..n.mem[s[0]].len][k..];
  }

  lemma Others2(n1: Net, n2: Net, e: set<Addr>, e': set<Addr>)
    requires OthersKept(n1.mem, n1.parts, n2.mem, n2.parts, e)
    requires forall a :: a in e && a in n1.parts.msgs ==> a in e'
    ensures OthersKept(n1.mem, n1.parts, n2.mem, n2.parts, e')
  {
  }

  /** A message made since `n1` is no concern of the messages of `n1`. */
  lemma OthersNew(n1: Net, n2: Net, n3: Net, b: Addr)
    requires OthersKept(n1.mem, n1.parts, n2.mem, n2.parts, {})
    requires OthersKept(n2.mem, n2.parts, n3.mem, n3.parts, {b}) && b !in n1.parts.msgs
    ensures OthersKept(n1.mem, n1.parts, n3.mem, n3.parts, {})
  {
  }

  lemma OthersNew2(n1: Net, n2: Net, n3: Net, b: Addr, msg: Addr)
    requires OthersKept(n1.mem, n1.parts, n2.mem, n2.parts, {msg})
    requires OthersKept(n2.mem, n2.parts, n3.mem, n3.parts, {b, msg}) && b !in n1.parts.msgs
    ensures OthersKept(n1.mem, n1.parts, n3.mem, n3.parts, {msg})
  {
  }

  lemma OnlyLinksOrder(m: Memory, m': Memory, a: Addr, b: Addr)
    requires OnlyLinks(m, m', {a, b})
    ensures OnlyLinks(m, m', {b, a})
  {
    assert {a, b} == {b, a};
  }

  lemma SameLens(m: Memory, m': Memory, changed: set<Addr>)
    requires OnlyLinks(m, m', changed)
    ensures m'.Keys == m.Keys && forall a :: a in m ==> m'[a].len == m[a].len
  {
  }

  /** A message that has grown from `msg` to handle `h` grows on to `p`: no other is touched. */
  lemma NewHandle(n: Net, n1: Net, n2: Net, msg: Addr, h: Addr, p: Addr)
    requires OthersKept(n.mem, n.parts, n1.mem, n1.parts, {msg})
    requires OthersKept(n1.mem, n1.parts, n2.mem, n2.parts, {h})
    requires h == msg || h !in n.parts.msgs
    requires p == h || p !in n1.parts.msgs
    ensures OthersKept(n.mem, n.parts, n2.mem, n2.parts, {msg})
    ensures p == msg || p !in n.parts.msgs
  {
    hide SameBufs;
    OthersTrans(n, n1, n2, {msg}, {h});
  }

  lemma NewHandle2(n: Net, n1: Net, n2: Net, msg: Addr, p: Addr)
    requires OthersKept(n.mem, n.parts, n1.mem, n1.parts, {msg})
    requires OthersKept(n1.mem, n1.parts, n2.mem, n2.parts, {p})
    requires p == msg || p !in n.parts.msgs
    ensures OthersKept(n.mem, n.parts, n2.mem, n2.parts, {msg})
  {
  }

  lemma MsgNonEmpty(n: Net, h: Addr)
    requires Inv(n)
    ensures h in n.parts.msgs ==> n.parts.msgs[h] != [] && Chunks(n.mem, n.parts.msgs[h]) != []
  {
    hide Linked, Distinct, Carved, Counted, Supply, RawSet, HeldSlots;
  }

  /** catmsg's loop ends when the next buffer does not fit whole: the rest is linked on. */
  lemma CatStops(n: Net, msg1: Addr, msg2: Addr)
    requires Inv(n) && msg1 in n.parts.msgs && msg2 in n.parts.msgs && msg1 in n.mem && msg2 in n.mem
    requires n.mem[msg2].qlink in n.mem && NET_B_SIZE - n.mem[msg1].len < n.mem[n.mem[msg2].qlink].len
    ensures Cat(Chunks(n.mem, n.parts.msgs[msg1]), Chunks(n.mem, n.parts.msgs[msg2]))
      == Chunks(n.mem, n.parts.msgs[msg1]) + Chunks(n.mem, n.parts.msgs[msg2])
  {
    hide Inv, Chunks;
    LastChunk(n, msg1);
    FirstChunk(n, msg2);
    ChunksLength(n.mem, n.parts.msgs[msg1]);
    ChunksLength(n.mem, n.parts.msgs[msg2]);
  }

  lemma TurnStep(n: Net, h: Addr, k: nat)
    requires Inv(n) && h in n.parts.msgs && k < |n.parts.msgs[h]|
    ensures var s := n.parts.msgs[h]; var t := s[k + 1..] + s[..k + 1];
      var n' := n.(parts := n.parts.(msgs := Rehandled(n.parts.msgs, {h}, t)));
      && Inv(n') && Bases(n') == Bases(n) && n'.parts.msgs == (n.parts.msgs - {h})[s[k] := t]
      && OthersKept(n.mem, n.parts, n.mem, n'.parts, {h})
      && Chunks(n.mem, t) == Chunks(n.mem, s)[k + 1..] + Chunks(n.mem, s)[..k + 1]
    ensures n.parts.msgs[h][k] == h || n.parts.msgs[h][k] !in n.parts.msgs
  {
    hide Shape, Sound, Carved, Counted, Supply, RawSet, HeldSlots, Linked, Distinct, Partition, OthersKept;
    var s := n.parts.msgs[h];
    var t := s[k + 1..] + s[..k + 1];
    TurnShape(n, h, k);
    assert Handle(t) == s[k];
    assert Chunks(n.mem, t) == Chunks(n.mem, s)[k + 1..] + Chunks(n.mem, s)[..k + 1];
  }

  lemma TurnShape(n: Net, h: Addr, k: nat)
    requires Inv(n) && h in n.parts.msgs && k < |n.parts.msgs[h]|
    ensures var s := n.parts.msgs[h]; var t := s[k + 1..] + s[..k + 1];
      var p' := n.parts.(msgs := Rehandled(n.parts.msgs, {h}, t));
      Shape(n.mem, p', n.freel) && OthersKept(n.mem, n.parts, n.mem, p', {h})
    ensures n.parts.msgs[h][k] == h || n.parts.msgs[h][k] !in n.parts.msgs
  {
    hide Sound, Carved, Counted, Supply, RawSet, HeldSlots, Linked, Distinct, Partition, SameBufs;
    var s := n.parts.msgs[h];
    var t := s[k + 1..] + s[..k + 1];
    MsgFacts(n, h);
    FreeFacts(n);
    TurnRing(n.mem, s, k + 1);
    assert Handle(t) == s[k];
    assert forall a :: a in t <==> exists g :: g in {h} && a in n.parts.msgs[g];
    Regroup(n.mem.Keys, n.parts, {h}, {}, t);
    assert n.parts.loose - {} == n.parts.loose;
    forall g | g in n.parts.msgs ensures SameBufs(n.mem, n.mem, n.parts.msgs[g]) {
      MsgFacts(n, g);
      SameSelf(n.mem, n.parts.msgs[g]);
    }
  }

  lemma SameSelf(m: Memory, s: seq<Addr>)
    requires forall a :: a in s ==> a in m
    ensures SameBufs(m, m, s)
  {
  }

  lemma ChunkOf(n: Net, h: Addr, k: nat)
    requires Inv(n) && h in n.parts.msgs && k < |n.parts.msgs[h]|
    ensures var s := n.parts.msgs[h];
      && s[k] in s && s[k] in n.mem && n.mem[s[k]].len <= NET_B_SIZE == |n.mem[s[k]].data|
      && Chunks(n.mem, s)[k] == n.mem[s[k]].data[..n.mem[s[k]].len]
      && n.mem[s[k]].qlink == (if k + 1 < |s| then s[k + 1] else s[0])
  {
    hide Sound, Carved, Counted, Supply, RawSet, HeldSlots, Distinct, Partition;
    var s := n.parts.msgs[h];
    MsgFacts(n, h);
    assert s[k] in s;
    assert s[k] in n.mem;
  }

  /** Going round a ring one is back at the first buffer only after the last. */
  lemma NotWrapped(n: Net, h: Addr, k: nat)
    requires Inv(n) && h in n.parts.msgs && k < |n.parts.msgs[h]|
    ensures var s := n.parts.msgs[h];
      (if k + 1 < |s| then s[k + 1] else s[0]) == s[0] <==> k + 1 == |s|
  {
    hide Sound, Carved, Counted, Supply, RawSet, HeldSlots, Linked, Partition;
    MsgFacts(n, h);
  }

  lemma TurnedRing(n: Net, h: Addr, k: nat)
    requires Inv(n) && h in n.parts.msgs && k < |n.parts.msgs[h]|
    ensures var s := n.parts.msgs[h]; forall j :: k < j < |s| ==> s[j] != s[0]
  {
    hide Sound, Carved, Counted, Supply, RawSet, HeldSlots, Linked, Partition;
    MsgFacts(n, h);
  }

  lemma ChunksSizedOr(n: Net, h: Addr)
    requires Inv(n)
    ensures Sized(if h in n.parts.msgs then Chunks(n.mem, n.parts.msgs[h]) else [])
  {
    hide Inv, Chunks;
    if h in n.parts.msgs {
      ChunksSized(n, h);
    }
  }

  /** A message made since `n` and used up with `msg`: the others are as they were in `n`. */
  lemma FreedNew(n: Net, n1: Net, n2: Net, newmsg: Addr, msg: Addr)
    requires OthersKept(n.mem, n.parts, n1.mem, n1.parts, {})
    requires newmsg !in n.parts.msgs
    requires OthersKept(n1.mem, n1.parts, n2.mem, n2.parts, {newmsg})
      || OthersKept(n1.mem, n1.parts, n2.mem, n2.parts, {newmsg, msg})
    ensures OthersKept(n.mem, n.parts, n2.mem, n2.parts, {msg})
  {
  }

  lemma OthersGrown(n: Net, n1: Net, n2: Net, msg: Addr, q: Addr, msgp: Addr)
    requires OthersKept(n.mem, n.parts, n1.mem, n1.parts, {msg, q})
    requires OthersKept(n1.mem, n1.parts, n2.mem, n2.parts, {msgp})
      || OthersKept(n1.mem, n1.parts, n2.mem, n2.parts, {msgp, q})
    requires msgp == msg || msgp !in n.parts.msgs
    ensures OthersKept(n.mem, n.parts, n2.mem, n2.parts, {msg, q})
  {
  }

  // ------------------------------------------------------------------ freekb's search of the free ring

  /** Part way round: some netbufs of block `i` are already unlinked, `ring` is the rest, turned. */
  ghost predicate LeftSoFar(n: Net, i: nat, ring: seq<Addr>, mem: Memory) {
    && Distinct(ring) && Linked(mem, ring) && mem.Keys == n.mem.Keys
    && (forall a :: a in ring ==> a in n.parts.free && a in n.mem && mem[a] == n.mem[a].(qlink := mem[a].qlink))
    && (forall a :: a in n.parts.free && a in n.mem && a !in ring ==> n.mem[a].member == i)
    && (forall a :: a in n.mem && a !in n.parts.free ==> mem[a] == n.mem[a])
  }

  /** How far the search has to go to the next netbuf of block `i`. */
  ghost function Distance(mem: Memory, ring: seq<Addr>, i: nat): nat {
    if ring == [] || (ring[0] in mem && mem[ring[0]].member == i) then 0 else 1 + Distance(mem, ring[1..], i)
  }

  lemma {:induction false} DistancePrefix(mem: Memory, s: seq<Addr>, t: seq<Addr>, i: nat)
    requires FreeOf(mem, s, i) != {}
    ensures Distance(mem, s + t, i) == Distance(mem, s, i)
  {
    if s != [] && !(s[0] in mem && mem[s[0]].member == i) {
      assert (s + t)[1..] == s[1..] + t;
      assert s == [s[0]] + s[1..];
      assert FreeOf(mem, s[1..], i) == FreeOf(mem, s, i);
      DistancePrefix(mem, s[1..], t, i);
    }
  }

  lemma NotEmpty(mem: Memory, ring: seq<Addr>, i: nat)
    requires |FreeOf(mem, ring, i)| > 0
    ensures ring != []
  {
    assert ring == [] ==> FreeOf(mem, ring, i) == {};
  }

  lemma LeftStart(n: Net, i: nat)
    requires Inv(n)
    ensures LeftSoFar(n, i, n.parts.free, n.mem)
  {
    hide Distinct, Linked;
    FreeFacts(n);
  }

  lemma LeftFacts(n: Net, i: nat, ring: seq<Addr>, mem: Memory)
    requires LeftSoFar(n, i, ring, mem)
    ensures Distinct(ring) && Linked(mem, ring) && mem.Keys == n.mem.Keys
    ensures forall a :: a in ring ==> a in mem && a in n.mem && mem[a].member == n.mem[a].member
  {
  }

  lemma LinkedLen(m: Memory, s: seq<Addr>, b: Addr)
    requires Linked(m, s) && b in m
    ensures Linked(m[b := m[b].(len := 0)], s)
  {
  }

  lemma LeftRemove(n: Net, i: nat, was: seq<Addr>, m: Memory, m': Memory)
    requires LeftSoFar(n, i, was, m) && was != [] && was[0] in m && was[0] in n.mem && n.mem[was[0]].member == i
    requires OnlyLinks(m[was[0] := m[was[0]].(len := 0)], m', {was[0], Handle(was)})
    requires Linked(m', was[1..]) && Distinct(was[1..])
    ensures LeftSoFar(n, i, was[1..], m')
    ensures |FreeOf(n.mem, was[1..], i)| == |FreeOf(n.mem, was, i)| - 1
  {
    hide LeftSoFar, Linked, FreeOf, Distinct, OnlyLinks;
    LeftFacts(n, i, was, m);
    FreeOfTake(n.mem, was, i);
    FirstOnce(was);
    LeftLess(n, i, was, m, m');
  }

  lemma LeftLess(n: Net, i: nat, was: seq<Addr>, m: Memory, m': Memory)
    requires LeftSoFar(n, i, was, m) && was != [] && was[0] in m && was[0] in n.mem && n.mem[was[0]].member == i
    requires OnlyLinks(m[was[0] := m[was[0]].(len := 0)], m', {was[0], Handle(was)}) && was[0] !in was[1..]
    requires Linked(m', was[1..]) && Distinct(was[1..])
    ensures LeftSoFar(n, i, was[1..], m')
  {
    hide Linked, Distinct;
    assert was == [was[0]] + was[1..];
    forall a | a in was[1..]
      ensures a in n.parts.free && a in n.mem && a in m' && m'[a] == n.mem[a].(qlink := m'[a].qlink)
    {
      LeftAt(n, i, was, m, m', a);
    }
  }

  lemma LeftAt(n: Net, i: nat, was: seq<Addr>, m: Memory, m': Memory, a: Addr)
    requires LeftSoFar(n, i, was, m) && was != [] && was[0] in m && a in was && a != was[0]
    requires OnlyLinks(m[was[0] := m[was[0]].(len := 0)], m', {was[0], Handle(was)})
    ensures a in n.parts.free && a in n.mem && a in m' && m'[a] == n.mem[a].(qlink := m'[a].qlink)
  {
    hide Linked, Distinct;
  }

  lemma LeftSkip(n: Net, i: nat, was: seq<Addr>, m: Memory)
    requires LeftSoFar(n, i, was, m) && was != [] && was[0] in n.mem && n.mem[was[0]].member != i
    requires |FreeOf(n.mem, was, i)| > 0
    ensures LeftSoFar(n, i, was[1..] + was[..1], m)
    ensures FreeOf(n.mem, was[1..] + was[..1], i) == FreeOf(n.mem, was, i)
    ensures Distance(n.mem, was[1..] + was[..1], i) < Distance(n.mem, was, i)
    ensures Handle(was[1..] + was[..1]) == was[0]
  {
    hide Linked, Distinct;
    LeftFacts(n, i, was, m);
    TurnRing(m, was, 1);
    SkipCounts(n.mem, was, i);
  }

  lemma SkipCounts(mem: Memory, was: seq<Addr>, i: nat)
    requires was != [] && was[0] in mem && mem[was[0]].member != i && |FreeOf(mem, was, i)| > 0
    ensures FreeOf(mem, was[1..] + was[..1], i) == FreeOf(mem, was, i)
    ensures Distance(mem, was[1..] + was[..1], i) < Distance(mem, was, i)
    ensures Handle(was[1..] + was[..1]) == was[0]
  {
    assert was == [was[0]] + was[1..];
    assert FreeOf(mem, was[1..], i) == FreeOf(mem, was, i);
    DistancePrefix(mem, was[1..], was[..1], i);
  }

  lemma LeftDone(n: Net, i: nat, ring: seq<Addr>, mem: Memory)
    requires Inv(n) && LeftSoFar(n, i, ring, mem) && |FreeOf(n.mem, ring, i)| == 0
    ensures LeftOver(n, i, ring, mem)
  {
    hide Linked, Distinct;
    FreeFacts(n);
    forall a | a in ring ensures n.mem[a].member != i {
      assert a !in FreeOf(n.mem, ring, i);
    }
  }
}
