/**
 The network buffer pool of ncpkernel/kerbuf.c, with rawbuf of ncpkernel/rawtable.c.

 Each method is one uninterrupted stretch of the kernel: the code between two sleeps, with the IMP
 interrupt locked out.  Where the kernel would sleep for want of a buffer the method returns 0 (or
 the count not yet moved) and the sleeper calls again later.
 */
module NetPool {
  import opened NetChunks
  import opened NetRings
  import opened NetInv

  /** bytesout's inner loop: `s` bytes from index `size` move to the front of the buffer. */
  method MoveUp(data: seq<Byte>, size: nat, s: nat) returns (moved: seq<Byte>)
    requires size + s <= |data|
    ensures moved == data[size..size + s] + data[s..]
  {
    moved := data;
    var i := 0;
    while i < s
      invariant 0 <= i <= s && |moved| == |data|
      invariant forall j :: 0 <= j < i ==> moved[j] == data[size + j]
      invariant forall j :: i <= j < |data| ==> moved[j] == data[j]
    {
      moved := moved[i := moved[size + i]];
      i := i + 1;
    }
  }

  /** to_ncp's inner loops: the first `l` bytes move along, last first, and `vec` goes in front. */
  method MoveDown(data: seq<Byte>, l: nat, vec: seq<Byte>) returns (moved: seq<Byte>)
    requires l + |vec| <= |data|
    ensures moved == vec + data[..l] + data[l + |vec|..]
  {
    var len := |vec|;
    moved := data;
    var k := l;
    while k > 0
      invariant 0 <= k <= l && |moved| == |data|
      invariant forall j :: 0 <= j < k + len || l + len <= j < |data| ==> moved[j] == data[j]
      invariant forall j :: k <= j < l ==> moved[j + len] == data[j]
    {
      moved := moved[k + len - 1 := moved[k - 1]];
      k := k - 1;
    }
    var i := 0;
    while i < len
      invariant 0 <= i <= len && |moved| == |data|
      invariant forall j :: 0 <= j < i ==> moved[j] == vec[j]
      invariant forall j :: 0 <= j < l ==> moved[j + len] == data[j]
      invariant forall j :: l + len <= j < |data| ==> moved[j] == data[j]
    {
      moved := moved[i := vec[i]];
      i := i + 1;
    }
    assert forall j :: len <= j < l + len ==> moved[j] == moved[(j - len) + len];
  }

  /**
   What to_ncp puts in front of a message for the last `len` bytes of a vector: its loop hands vectomsg
   the same address each time, so every full buffer gets the first bytes again.
   */
  function Gone(vec: seq<Byte>, len: nat): seq<Byte>
    requires len <= |vec|
  {
    if len <= NET_B_SIZE then vec[..len] else vec[..NET_B_SIZE] + Gone(vec, len - NET_B_SIZE)
  }

  /** The vector fits in a buffer, or repeats itself from buffer to buffer. */
  ghost predicate Repeats(vec: seq<Byte>) {
    forall i :: NET_B_SIZE <= i < |vec| ==> vec[i] == vec[i % NET_B_SIZE]
  }

  lemma {:induction false} GoneAt(vec: seq<Byte>, len: nat, i: nat)
    requires i < len <= |vec|
    ensures |Gone(vec, len)| == len && Gone(vec, len)[i] == vec[i % NET_B_SIZE]
  {
    if len > NET_B_SIZE {
      GoneAt(vec, len - NET_B_SIZE, if i < NET_B_SIZE then 0 else i - NET_B_SIZE);
      assert i >= NET_B_SIZE ==> i % NET_B_SIZE == (i - NET_B_SIZE) % NET_B_SIZE;
    }
  }

  lemma GoneIff(vec: seq<Byte>)
    ensures Gone(vec, |vec|) == vec <==> Repeats(vec)
    ensures |vec| <= NET_B_SIZE ==> Repeats(vec)
  {
    hide Gone;
    forall i: nat | i < |vec| ensures |Gone(vec, |vec|)| == |vec| && Gone(vec, |vec|)[i] == vec[i % NET_B_SIZE] {
      GoneAt(vec, |vec|, i);
    }
    if vec == [] { GoneNone(vec); } else { GoneAt(vec, |vec|, 0); }
    if Gone(vec, |vec|) == vec {
      forall i | NET_B_SIZE <= i < |vec| ensures vec[i] == vec[i % NET_B_SIZE] {
        assert Gone(vec, |vec|)[i] == vec[i];
      }
    }
    if Repeats(vec) {
      forall i | 0 <= i < |vec| ensures Gone(vec, |vec|)[i] == vec[i] {
        assert i < NET_B_SIZE ==> i % NET_B_SIZE == i;
      }
      assert Gone(vec, |vec|) == vec;
    }
  }

  /** The last byte of 61 comes out as the first. */
  lemma LongVectorMangled()
    ensures var vec: seq<Byte> := seq(NET_B_SIZE + 1, i requires 0 <= i <= NET_B_SIZE => i as Byte);
      Gone(vec, |vec|)[..NET_B_SIZE] == vec[..NET_B_SIZE] && Gone(vec, |vec|)[NET_B_SIZE..] == [0] && !Repeats(vec)
  {
    var vec: seq<Byte> := seq(NET_B_SIZE + 1, i requires 0 <= i <= NET_B_SIZE => i as Byte);
    assert Gone(vec, 1) == vec[..1] == [0];
    assert Gone(vec, |vec|) == vec[..NET_B_SIZE] + [0];
    assert vec[NET_B_SIZE] == 60 && vec[NET_B_SIZE % NET_B_SIZE] == 0;
  }

  lemma GoneNone(vec: seq<Byte>)
    ensures Gone(vec, 0) == []
  {
  }

  lemma GoneAll(vec: seq<Byte>, len: nat)
    requires len <= |vec| && len <= NET_B_SIZE
    ensures Gone(vec, len) == vec[..len]
  {
  }

  lemma GoneStart(vec: seq<Byte>)
    ensures Flatten([]) + Gone(vec, |vec|) == Gone(vec, |vec|)
  {
  }

  lemma GonePiece(vec: seq<Byte>, len: nat)
    requires 0 < len <= |vec|
    ensures var l := if len < NET_B_SIZE then len else NET_B_SIZE;
      Gone(vec, len) == vec[..l] + Gone(vec, len - l)
  {
    if len <= NET_B_SIZE {
      assert vec[..len] + [] == vec[..len];
    }
  }

  /** The buffers to_ncp needs for `len` bytes when `room` bytes go in front of the message as it is. */
  function Wanted(len: nat, room: nat): nat {
    if len <= room then 0 else (len - room + NET_B_SIZE - 1) / NET_B_SIZE
  }

  /** The room in front of the data of the first buffer of a message. */
  function FrontRoom(cs: seq<Chunk>): nat {
    if cs == [] || |cs[0]| > NET_B_SIZE then 0 else NET_B_SIZE - |cs[0]|
  }

  lemma WantedStep(len: nat, room: nat)
    requires room < len && room <= NET_B_SIZE
    ensures Wanted(len, room) == 1 + Wanted(if len < NET_B_SIZE then 0 else len - NET_B_SIZE, room)
  {
  }

  lemma WantedFits(len: nat, room: nat)
    requires len <= room
    ensures Wanted(len, room) == 0
  {
  }

  lemma WantedNone(room: nat)
    ensures Wanted(0, room) == 0
  {
  }

  lemma RoomOf(n: Net, h: Addr)
    requires Inv(n) && (h == 0 || h in n.parts.msgs)
    ensures var cs := if h in n.parts.msgs then Chunks(n.mem, n.parts.msgs[h]) else [];
      && FrontRoom(cs) <= NET_B_SIZE && (h == 0 ==> FrontRoom(cs) == 0)
      && (h != 0 ==> n.parts.msgs[h] != [] && n.parts.msgs[h][0] in n.mem
                     && FrontRoom(cs) == NET_B_SIZE - n.mem[n.parts.msgs[h][0]].len)
  {
    hide Inv, Chunks;
    NullNotMsg(n);
    if h != 0 {
      FirstChunk(n, h);
      ChunksLength(n.mem, n.parts.msgs[h]);
    }
  }

  ghost predicate FullEnd(cs: seq<Chunk>) {
    cs != [] && |cs[|cs| - 1]| == NET_B_SIZE
  }

  /** A piece of a buffer's size or less, at the end of full buffers: it takes one buffer, if there is one. */
  lemma PieceTakesOne(n1: Net, n2: Net, cs: seq<Chunk>, bs: seq<Byte>, left: nat, h: Addr, ds: seq<Chunk>)
    requires Inv(n1) && Inv(n2) && 0 < |bs| <= NET_B_SIZE && left <= |bs| && (cs == [] || FullEnd(cs))
    requires ds == Fill(cs, bs[..|bs| - left]) && Stock(n2) + |ds| == Stock(n1) + |cs|
    requires left > 0 ==> !CanAppend(n2, h)
    requires (h == 0 && ds == []) || (h in n2.parts.msgs && ds == Chunks(n2.mem, n2.parts.msgs[h]))
    requires !LastRaw(n2, h)
    ensures left == 0 <==> Stock(n1) > 0
    ensures left == 0 ==> Stock(n2) == Stock(n1) - 1 && ds == cs + [bs]
  {
    hide Inv, Stock, CanGet, Fill, Chunks;
    StockIff(n1);
    StockIff(n2);
    var put := bs[..|bs| - left];
    if put == [] {
      FillNone(cs);
      assert !HasRoom(n2, h);
    } else {
      FillNew(cs, put);
      LastChunk(n2, h);
      ChunksLength(n2.mem, n2.parts.msgs[h]);
      assert |ds[|ds| - 1]| == |put| && n2.mem[h].len == |put|;
      assert left == 0 ==> put == bs;
    }
  }

  lemma NothingBefore(s: seq<Byte>)
    ensures Flatten([]) + s == s && [] + s == s && s + [] == s
  {
  }

  lemma Others3(n: Net, n1: Net, n2: Net, msg: Addr)
    requires OthersKept(n.mem, n.parts, n1.mem, n1.parts, {}) && OthersKept(n1.mem, n1.parts, n2.mem, n2.parts, {msg})
    ensures OthersKept(n.mem, n.parts, n2.mem, n2.parts, {msg})
  {
  }

  lemma FreedLate(n: Net, n1: Net, n2: Net, newmsg: Addr, msg: Addr)
    requires OthersKept(n.mem, n.parts, n1.mem, n1.parts, {msg}) && newmsg !in n.parts.msgs
    requires OthersKept(n1.mem, n1.parts, n2.mem, n2.parts, {newmsg, msg})
    ensures OthersKept(n.mem, n.parts, n2.mem, n2.parts, {msg})
  {
  }

  lemma HandlesOne(was: set<Addr>, now: set<Addr>, newmsg: Addr, msg: Addr, r: Addr)
    requires 0 !in was && (msg == 0 || msg in was) && (newmsg == 0 || newmsg !in was) && (newmsg != 0 || msg != 0)
    requires r == newmsg || r == msg
    requires r == if msg == 0 then newmsg else if newmsg == 0 then msg else r
    requires now == was + (if newmsg == 0 then {} else {newmsg}) - {newmsg, msg} + (if r == 0 then {} else {r})
    ensures r in now && now == was - {msg} + {r} && (r == msg || r !in was)
  {
  }

  /** The byte count in a leader, in bytes of the connection's size, as eight-bit bytes. */
  function Octets(bcnt: nat, bsize: nat): nat { bcnt * bsize / 8 }

  function Missing(cnt: nat, rBsize: nat): nat
    requires rBsize > 0
  {
    cnt * 8 / rBsize
  }

  /** When as many connection bytes as eight-bit bytes are missing. */
  ghost predicate SameCount(cnt: int, rBsize: nat) {
    cnt <= 0 || (rBsize <= 8 && 8 * cnt < (cnt + 1) * rBsize)
  }

  lemma MissingExact(cnt: nat, rBsize: nat)
    requires rBsize > 0
    ensures Missing(cnt, rBsize) == cnt <==> SameCount(cnt, rBsize)
  {
    Quotient(cnt * 8, rBsize, cnt * 8 / rBsize);
    SameOrNot(cnt, rBsize, cnt * 8 / rBsize);
  }

  lemma SameOrNot(cnt: nat, r: nat, q: nat)
    requires r > 0 && q * r <= 8 * cnt < (q + 1) * r
    ensures q == cnt <==> SameCount(cnt, r)
  {
    assert cnt * r == r * cnt;
    if q < cnt {
      Product(q + 1, cnt, r);
      if r <= 8 { Product(r, 8, cnt); }
    } else if q > cnt {
      Product(cnt + 1, q, r);
    } else if cnt > 0 && r > 8 {
      Product(9, r, cnt);
    }
  }

  /** Nine bytes missing of a connection of 16-bit bytes are taken for four. */
  lemma MissingWrong()
    ensures Missing(9, 16) == 4 && !SameCount(9, 16)
  {
  }

  lemma Quotient(a: nat, b: nat, q: nat)
    requires b > 0 && q == a / b
    ensures q * b <= a < (q + 1) * b
  {
    assert a == a / b * b + a % b;
    assert (q + 1) * b == q * b + b;
  }

  lemma Product(a: nat, b: nat, c: nat)
    requires a <= b
    ensures a * c <= b * c
  {
    assert b * c == a * c + (b - a) * c;
  }

  /** rmovepad's second loop: what is freed comes off the front, down to the buffers that stay. */
  function Back<T>(s: seq<T>, k: nat, rest: nat): seq<T>
    requires k < |s| && rest <= |s|
  {
    s[|s| - rest..] + s[..k + 1]
  }

  lemma RestStep<T>(s: seq<T>, k: nat, rest: nat)
    requires k < |s| && rest <= |s| - k - 1
    ensures |Back(s, k, rest)| > 0 && Back(s, k, |s| - k - 1) == s[k + 1..] + s[..k + 1]
    ensures rest == 0 ==> Back(s, k, rest) == s[..k + 1] && Back(s, k, rest)[0] == s[0]
    ensures rest > 0 ==> |Back(s, k, rest)| > 1 && Back(s, k, rest)[1..] == Back(s, k, rest - 1)
  {
  }

  lemma RestDone(s: seq<Addr>, k: nat, rest: nat)
    requires k < |s| && rest <= |s| - k - 1 && forall j :: k < j < |s| ==> s[j] != s[0]
    requires Back(s, k, rest) != [] && Back(s, k, rest)[0] == s[0]
    ensures rest == 0
  {
  }

  lemma NothingHeld(n: Net)
    requires n == Net(map[], seq(KB_HIWAT, _ => NoBlock), 0, 0, 0, n.sys, 0, Parts([], map[], {}))
    requires Supply(map[], n.sys)
    ensures Inv(n) && Bases(n) == n.sys
  {
    assert HeldSlots(n.kb) == {} && RawSet(n.mem) == {};
  }

  class NetPool {
    var mem: Memory
    var kb: seq<KSlot>      // net_b.kb_
    var alloc: int          // net_b.b_alloc
    var cntfree: int        // net_b.b_cntfree
    var freel: Addr         // net_b.b_freel
    var hyster: nat         // net_b.b_hyster
    var rbufCount: int      // rbuf_count
    var sys: set<Addr>      // blocks getblk(NODEV) could return without sleeping
    ghost var pending: nat  // processes asleep in getkb's getblk
    ghost var parts: Parts

    ghost function Now(): Net
      reads this
    {
      Net(mem, kb, alloc, freel, rbufCount, sys, pending, parts)
    }

    /** What holds whenever no pool routine is running. */
    ghost predicate Valid()
      reads this
    {
      Inv(Now()) && cntfree == |parts.free| && parts.loose == {}
    }

    /** The pool before the daemon opens: no block is held, and `supply` is what the system has to give. */
    constructor (supply: set<Addr>, surplus: nat)
      requires Supply(map[], supply)
      ensures Valid() && Bases(Now()) == supply && hyster == surplus
      ensures parts == Parts([], map[], {}) && cntfree == alloc == rbufCount == 0 && pending == 0
    {
      mem, parts, kb := map[], Parts([], map[], {}), seq(KB_HIWAT, _ => NoBlock);
      alloc, cntfree, freel, rbufCount, hyster := 0, 0, 0, 0, surplus;
      sys, pending := supply, 0;
      new;
      hide Inv, Bases;
      NothingHeld(Now());
    }

    /** The message with handle `h`, as chunks; the null handle is the empty message. */
    ghost function Msg(h: Addr): seq<Chunk>
      reads this
    {
      if h in parts.msgs then Chunks(mem, parts.msgs[h]) else []
    }

    // kerbuf.c linkbuf
    method LinkBuf(buf: Addr, msg: Addr, ghost s: seq<Addr>) returns (r: Addr)
      requires Distinct(s) && Linked(mem, s) && msg == Handle(s) && 0 !in mem
      requires buf in mem && buf !in s
      modifies this`mem
      ensures r == buf && Linked(mem, s + [buf]) && OnlyLinks(old(mem), mem, {buf, msg})
    {
      var last := if msg == 0 then buf else msg;
      assert s != [] ==> s[|s| - 1] in mem;
      mem := mem[buf := mem[buf].(qlink := mem[last].qlink)];
      mem := mem[last := mem[last].(qlink := buf)];
      if s != [] {
        ghost var n := |s| - 1;
        assert s[n] in old(mem) && old(mem)[s[n]].qlink == s[0];
        assert s[n] in s;
        LinkAtEnd(old(mem), s, buf, mem);
      } else {
        assert s + [buf] == [buf];
      }
      r := buf;
    }

    // kerbuf.c ifreebuf
    method IFreeBuf(prev: Addr, ghost s: seq<Addr>) returns (r: Addr)
      requires s != [] && Distinct(s) && Linked(mem, s) && prev == Handle(s)
      modifies this`mem
      ensures r == if |s| == 1 then 0 else prev
      ensures Linked(mem, s[1..]) && Distinct(s[1..]) && OnlyLinks(old(mem), mem, {s[0], prev})
      ensures s[0] in mem && mem[s[0]].qlink == s[0]
    {
      ghost var n := |s| - 1;
      assert s[n] in mem && s[0] in mem && mem[s[n]].qlink == s[0];
      var p := mem[prev].qlink;
      mem := mem[prev := mem[prev].(qlink := mem[p].qlink)];
      mem := mem[p := mem[p].(qlink := p)];
      if |s| > 1 {
        UnlinkFirst(old(mem), s, mem);
      }
      r := if prev == p then 0 else prev;
    }

    // kerbuf.c freeb
    method FreeB(buf: Addr)
      requires Inv(Now()) && buf in parts.loose && buf in mem && !mem[buf].raw
      modifies this`mem, this`kb, this`freel, this`parts
      ensures Inv(Now()) && Bases(Now()) == old(Bases(Now()))
      ensures parts == old(parts).(free := old(parts.free) + [buf], loose := old(parts.loose) - {buf})
      ensures mem.Keys == old(mem).Keys
      ensures forall a :: a in old(mem) && a !in old(parts.free) && a != buf ==> mem[a] == old(mem)[a]
    {
      hide Inv, Bases, Distinct, Linked, OnlyLinks;
      ghost var n := Now();
      FreeFacts(n);
      LooseFacts(n, buf);
      SlotFacts(n, buf);
      mem := mem[buf := mem[buf].(raw := false, eom := false)];
      LinksUntouched(n.mem, mem, {buf}, parts.free);
      freel := LinkBuf(buf, freel, parts.free);
      FreeStep(n, buf, mem);
      FreeStepElse(n, buf, mem);
      var i := mem[buf].member;
      kb := kb[i := kb[i].(freect := kb[i].freect + 1)];
      parts := parts.(free := parts.free + [buf], loose := parts.loose - {buf});
      assert Now() == Freed(n, buf, mem);
    }

    /** The netbufs of a block just taken in go to the free list one by one. */
    method CarveBlock(base: Addr)
      requires Inv(Now()) && parts.loose == Block(base)
      requires forall a :: a in Block(base) ==> a in mem && !mem[a].raw
      modifies this`mem, this`kb, this`freel, this`parts
      ensures Inv(Now()) && Bases(Now()) == old(Bases(Now())) && parts.loose == {}
      ensures parts.msgs == old(parts.msgs) && |parts.free| == |old(parts.free)| + NET_B_PER_K_B
      ensures old(parts.free) <= parts.free
      ensures OthersKept(old(mem), old(parts), mem, parts, {})
    {
      hide Inv, OthersKept, Bases;
      ghost var n := Now();
      KeptSelf(n);
      var k := 0;
      while k < NET_B_PER_K_B
        invariant 0 <= k <= NET_B_PER_K_B
        invariant Inv(Now()) && Bases(Now()) == Bases(n)
        invariant parts.msgs == n.parts.msgs && |parts.free| == |n.parts.free| + k && n.parts.free <= parts.free
        invariant parts.loose == set j | k <= j < NET_B_PER_K_B :: Cut(base, j)
        invariant forall a :: a in parts.loose ==> a in mem && !mem[a].raw
        invariant OthersKept(n.mem, n.parts, mem, parts, {})
      {
        ghost var n1 := Now();
        FreeB(Cut(base, k));
        LooseNotFree(n1);
        FreeTouched(n1, mem, parts);
        OthersTrans(n, n1, Now(), {}, {});
        k := k + 1;
      }
    }

    // kerbuf.c getkb: find hole in kb_; the panic after the loop is out of reach
    method FindHole() returns (index: nat)
      requires Valid() && pending > 0
      ensures index < KB_HIWAT == |kb| && !kb[index].Held?
    {
      hide Inv;
      HoleFacts(Now());
      index := 0;
      while kb[index].Held?
        invariant 0 <= index < KB_HIWAT
        invariant exists k :: index <= k < KB_HIWAT && !kb[k].Held?
        decreases KB_HIWAT - index
      {
        index := index + 1;
      }
    }

    // kerbuf.c getkb, from where getblk has returned: the block is cut up on to the free list
    method InstallKb(base: Addr)
      requires Valid() && base in sys && pending > 0
      modifies this`mem, this`kb, this`freel, this`parts, this`sys, this`pending, this`cntfree
      ensures Valid() && Bases(Now()) == old(Bases(Now())) && pending == old(pending) - 1 && sys == old(sys) - {base}
      ensures parts.msgs == old(parts.msgs) && |parts.free| == |old(parts.free)| + NET_B_PER_K_B
      ensures old(parts.free) <= parts.free
      ensures OthersKept(old(mem), old(parts), mem, parts, {})
    {
      hide Inv, OthersKept, Bases, Block;
      ghost var n := Now();
      OpenBlock(base);
      ghost var n1 := Now();
      CarveBlock(base);
      OthersTrans(n, n1, Now(), {}, {});
      cntfree := cntfree + NET_B_PER_K_B;
    }

    /** A slot for the block, and whatever words it holds are netbufs of that slot from here on. */
    method OpenBlock(base: Addr)
      requires Valid() && base in sys && pending > 0
      modifies this`mem, this`kb, this`parts, this`sys, this`pending
      ensures Inv(Now()) && Bases(Now()) == old(Bases(Now())) && pending == old(pending) - 1 && sys == old(sys) - {base}
      ensures parts == old(parts).(loose := Block(base)) && OthersKept(old(mem), old(parts), mem, parts, {})
      ensures forall a :: a in Block(base) ==> a in mem && !mem[a].raw
    {
      hide Inv, OthersKept, Bases, Block;
      ghost var n := Now();
      var index := FindHole();
      kb := kb[index := Held(base, 0)];
      var zeros: seq<Byte> := seq(NET_B_SIZE, _ => 0);
      mem := mem + map a | a in Block(base) :: Netbuf(0, 0, index, false, false, zeros);
      sys := sys - {base};
      pending := pending - 1;
      parts := parts.(loose := Block(base));
      OpenStep(n, base, index, mem);
      assert Now() == Opened(n, base, index, mem);
    }

    /** getkb: take another system block unless the pool has its fill; asleep if there is none. */
    method GetKb()
      requires Valid()
      modifies this`mem, this`kb, this`freel, this`parts, this`sys, this`pending, this`cntfree, this`alloc
      ensures Valid() && Bases(Now()) == old(Bases(Now()))
      ensures parts.msgs == old(parts.msgs)
      ensures OthersKept(old(mem), old(parts), mem, parts, {})
      ensures |parts.free| == |old(parts.free)| + (if old(alloc) < KB_HIWAT && old(sys) != {} then NET_B_PER_K_B else 0)
      ensures pending == old(pending) + (if old(alloc) < KB_HIWAT && old(sys) == {} then 1 else 0)
      ensures old(parts.free) <= parts.free && Stock(Now()) == old(Stock(Now()))
    {
      hide Inv, OthersKept, Bases;
      if alloc >= KB_HIWAT {
        KeptSelf(Now());
        return;
      }
      ghost var n := Now();
      alloc := alloc + 1;
      pending := pending + 1;
      WaitStep(n);
      assert Now() == n.(alloc := n.alloc + 1, pending := n.pending + 1);
      if sys == {} {
        return;
      }
      var bufp :| bufp in sys;
      ghost var n1 := Now();
      InstallKb(bufp);
      OthersTrans(n, n1, Now(), {}, {});
      assert sys + {bufp} == n.sys;
    }

    // kerbuf.c getbuf, once the free list is not empty
    method TakeBuf() returns (b: Addr)
      requires Valid() && parts.free != []
      modifies this`mem, this`kb, this`freel, this`parts, this`cntfree
      ensures Valid() && Bases(Now()) == old(Bases(Now()))
      ensures OthersKept(old(mem), old(parts), mem, parts, {})
      ensures b !in old(parts.msgs) && parts.msgs == old(parts.msgs)[b := [b]]
      ensures b != 0 && b in mem && mem[b].len == 0 && !mem[b].raw && !mem[b].eom
      ensures b == old(parts.free)[0] && parts.free == old(parts.free)[1..]
    {
      hide Inv, OthersKept, Bases, Distinct, Linked, OnlyLinks;
      ghost var n := Now();
      FreeFacts(n);
      ghost var f := parts.free[0];
      assert f in parts.free && freel in parts.free;
      SlotFacts(n, f);
      FirstIs(mem, parts.free);
      b := mem[freel].qlink;
      var i := Resv(mem[b]);
      kb := kb[i := kb[i].(freect := kb[i].freect - 1)];
      cntfree := cntfree - 1;
      freel := IFreeBuf(freel, parts.free);
      TakeStep(n, mem);
      parts := parts.(free := parts.free[1..], loose := {b});
      assert Now() == Taken(n, mem);
      ghost var n1 := Now();
      Birth(b);
      OthersTrans(n, n1, Now(), {}, {});
    }

    /** The buffer taken is an empty message. */
    method Birth(b: Addr)
      requires Inv(Now()) && parts.loose == {b} && b in mem && !mem[b].raw && !mem[b].eom
      modifies this`mem, this`parts
      ensures Inv(Now()) && Bases(Now()) == old(Bases(Now())) && parts.loose == {} && parts.free == old(parts.free)
      ensures OthersKept(old(mem), old(parts), mem, parts, {})
      ensures b !in old(parts.msgs) && parts.msgs == old(parts.msgs)[b := [b]]
      ensures b in mem && mem[b].len == 0 && !mem[b].raw && !mem[b].eom
    {
      hide Inv, OthersKept, Bases;
      ghost var n := Now();
      mem := mem[b := mem[b].(len := 0)];
      mem := mem[b := mem[b].(qlink := b)];
      BornStep(n, b);
      parts := parts.(msgs := parts.msgs[b := [b]], loose := {});
      assert Now() == Born(n, b);
    }

    // kerbuf.c getbuf; 0 when it would sleep on the free list
    method GetBuf() returns (b: Addr)
      requires Valid()
      modifies this`mem, this`kb, this`freel, this`parts, this`sys, this`pending, this`cntfree, this`alloc
      ensures Valid() && Bases(Now()) == old(Bases(Now()))
      ensures OthersKept(old(mem), old(parts), mem, parts, {})
      ensures b != 0 <==> CanGet(old(Now()))
      ensures b == 0 ==> parts.msgs == old(parts.msgs)
      ensures b != 0 ==> b !in old(parts.msgs) && parts.msgs == old(parts.msgs)[b := [b]]
      ensures b != 0 ==> b in mem && mem[b].len == 0 && !mem[b].raw && !mem[b].eom
      ensures old(parts.free) != [] ==>
        b == old(parts.free)[0] && parts.free == old(parts.free)[1..] && alloc == old(alloc) && sys == old(sys)
      ensures Stock(Now()) == old(Stock(Now())) - (if b == 0 then 0 else 1)
    {
      hide Inv, OthersKept, Bases, Distinct, Linked;
      ghost var n := Now();
      KeptSelf(n);
      FreeFacts(n);
      if freel == 0 {
        GetKb();
        FreeFacts(Now());
        if freel == 0 {
          return 0;
        }
      }
      ghost var n1 := Now();
      b := TakeBuf();
      OthersTrans(n, n1, Now(), {}, {});
    }

    // kerbuf.c freekb, inner loop: find and unlink all the netbufs of one kernel buffer
    method UnlinkBlock(i: nat) returns (newfreelist: Addr, ghost ring: seq<Addr>)
      requires Valid() && i < |kb| && kb[i].Held? && kb[i].freect == NET_B_PER_K_B
      modifies this`mem
      ensures LeftOver(old(Now()), i, ring, mem) && newfreelist == Handle(ring)
      ensures |ring| == |parts.free| - NET_B_PER_K_B
    {
      hide Inv, Bases, Distinct, Linked, OnlyLinks, LeftOver, LeftSoFar, FreeOf, Block;
      ghost var n := Now();
      FreeFacts(n);
      WholeBlock(n, i);
      ring := parts.free;
      NotEmpty(n.mem, ring, i);
      FirstIs(mem, ring);
      var prev := freel;
      var bufp := mem[prev].qlink;
      newfreelist := 0;
      var found := NET_B_PER_K_B;
      LeftStart(n, i);
      while found > 0
        invariant 0 <= found == |FreeOf(n.mem, ring, i)|
        invariant LeftSoFar(n, i, ring, mem)
        invariant |ring| == |n.parts.free| - (NET_B_PER_K_B - found)
        invariant prev in mem && (ring != [] ==> prev == Handle(ring) && bufp == ring[0])
        invariant found == 0 ==> newfreelist == Handle(ring)
        decreases found, Distance(n.mem, ring, i)
      {
        LeftFacts(n, i, ring, mem);
        NotEmpty(n.mem, ring, i);
        ghost var was := ring;
        ghost var m := mem;
        if mem[bufp].member == i {
          LinkedLen(m, was, bufp);
          mem := mem[bufp := mem[bufp].(len := 0)];
          newfreelist := IFreeBuf(prev, was);
          found := found - 1;
          ring := was[1..];
          LeftRemove(n, i, was, m, mem);
        } else {
          prev := bufp;
          ring := was[1..] + was[..1];
          LeftSkip(n, i, was, mem);
        }
        if ring != [] {
          LeftFacts(n, i, ring, mem);
          assert Handle(ring) == prev;
          FirstIs(mem, ring);
        }
        bufp := mem[prev].qlink;
      }
      LeftDone(n, i, ring, mem);
    }

    // kerbuf.c freekb, one block: off the free list and back to the system
    method ReleaseBlock(i: nat)
      requires Valid() && i < |kb| && kb[i].Held? && kb[i].freect == NET_B_PER_K_B
      modifies this`mem, this`kb, this`alloc, this`cntfree, this`freel, this`sys, this`parts
      ensures Valid() && Bases(Now()) == old(Bases(Now()))
      ensures parts.msgs == old(parts.msgs) && OthersKept(old(mem), old(parts), mem, parts, {})
      ensures kb == old(kb)[i := NoBlock] && forall a :: a in Block(old(kb)[i].base) ==> a in old(parts.free)
      ensures |parts.free| == |old(parts.free)| - NET_B_PER_K_B
    {
      hide Inv, OthersKept, Bases, LeftOver, Block;
      ghost var n := Now();
      ghost var ring;
      freel, ring := UnlinkBlock(i);
      ghost var m := mem;
      ReleaseStep(n, i, ring, m);
      sys := sys + {kb[i].base};
      mem := mem - Block(kb[i].base);
      kb := kb[i := NoBlock];
      alloc := alloc - 1;
      cntfree := cntfree - NET_B_PER_K_B;
      parts := parts.(free := ring);
      assert Now() == Released(n, i, ring, m);
    }

    // kerbuf.c freekb
    method FreeKb()
      requires Valid()
      modifies this`mem, this`kb, this`alloc, this`cntfree, this`freel, this`sys, this`parts
      ensures Valid() && Bases(Now()) == old(Bases(Now()))
      ensures parts.msgs == old(parts.msgs) && OthersKept(old(mem), old(parts), mem, parts, {})
      ensures old(cntfree) <= hyster * NET_B_PER_K_B ==> Now() == old(Now())
      ensures old(cntfree) > hyster * NET_B_PER_K_B ==>
        |kb| == |old(kb)| && forall i :: 0 <= i < |kb| ==>
          kb[i] == if old(kb)[i].Held? && old(kb)[i].freect == NET_B_PER_K_B then NoBlock else old(kb)[i]
    {
      hide Inv, OthersKept, Bases;
      ghost var n := Now();
      KeptSelf(n);
      SlotCount(n);
      if cntfree > hyster * NET_B_PER_K_B {
        var i := 0;
        while i < KB_HIWAT
          invariant 0 <= i <= KB_HIWAT
          invariant Valid() && Bases(Now()) == Bases(n)
          invariant parts.msgs == n.parts.msgs && OthersKept(n.mem, n.parts, mem, parts, {})
          invariant |kb| == |n.kb| == KB_HIWAT && forall k :: i <= k < KB_HIWAT ==> kb[k] == n.kb[k]
          invariant forall k :: 0 <= k < i ==>
            kb[k] == if n.kb[k].Held? && n.kb[k].freect == NET_B_PER_K_B then NoBlock else n.kb[k]
        {
          if kb[i].Held? && kb[i].freect == NET_B_PER_K_B {
            ghost var n1 := Now();
            ReleaseBlock(i);
            OthersTrans(n, n1, Now(), {}, {});
          }
          i := i + 1;
        }
      }
    }

    // kerbuf.c freebuf, to the ifreebuf: the raw mark goes and the buffer is off its message
    method Delink(prev: Addr) returns (r: Addr, freedbuf: Addr)
      requires Valid() && prev in parts.msgs
      modifies this`mem, this`rbufCount, this`parts
      ensures Inv(Now()) && Bases(Now()) == old(Bases(Now()))
      ensures parts == Beheaded(old(parts), prev) && OthersKept(old(mem), old(parts), mem, parts, {prev})
      ensures old(parts).msgs[prev] != [] && freedbuf == old(parts).msgs[prev][0]
      ensures freedbuf in mem && !mem[freedbuf].raw
      ensures r == if |old(parts).msgs[prev]| == 1 then 0 else prev
      ensures Chunks(mem, old(parts).msgs[prev][1..]) == Chunks(old(mem), old(parts).msgs[prev])[1..]
    {
      hide Inv, OthersKept, Bases, Distinct, Linked, OnlyLinks, Chunks;
      ghost var n := Now();
      ghost var s := parts.msgs[prev];
      MsgFacts(n, prev);
      FirstIs(mem, s);
      FirstOnce(s);
      freedbuf := mem[prev].qlink;
      if mem[freedbuf].raw {
        mem := mem[freedbuf := mem[freedbuf].(raw := false)];
        rbufCount := rbufCount - 1;
      }
      UnrawStep(n, prev, freedbuf);
      ghost var n1 := Now();
      assert n1 == Unrawed(n, freedbuf);
      MsgFacts(n1, prev);
      r := IFreeBuf(prev, s);
      BeheadStep(n1, prev, mem);
      TailKept(n, prev, mem);
      OnlyLinksRaw(n1.mem, mem, {freedbuf, prev});
      parts := Beheaded(parts, prev);
      OthersTrans(n, n1, Now(), {prev}, {prev});
    }

    /** No more free buffers than the surplus allowed, or none of the blocks held is all free. */
    ghost predicate Lean()
      reads this
    {
      cntfree > hyster * NET_B_PER_K_B ==>
        forall i :: 0 <= i < |kb| && kb[i].Held? ==> kb[i].freect != NET_B_PER_K_B
    }

    // kerbuf.c freebuf: the buffer after `prev` in its message goes back to the pool
    method FreeBuf(prev: Addr) returns (r: Addr)
      requires Valid() && prev in parts.msgs
      modifies this`mem, this`kb, this`alloc, this`cntfree, this`freel, this`sys, this`rbufCount, this`parts
      ensures Valid() && Bases(Now()) == old(Bases(Now()))
      ensures old(parts.msgs[prev]) != []
      ensures parts.msgs == Beheaded(old(parts), prev).msgs && OthersKept(old(mem), old(parts), mem, parts, {prev})
      ensures r == if |old(parts).msgs[prev]| == 1 then 0 else prev
      ensures Msg(r) == old(Msg(prev))[1..] && Lean()
    {
      hide Inv, OthersKept, Bases, Chunks;
      ghost var n := Now();
      var freedbuf;
      r, freedbuf := Delink(prev);
      ghost var n2 := Now();
      FreeB(freedbuf);
      LooseNotFree(n2);
      FreeTouched(n2, mem, parts);
      cntfree := cntfree + 1;
      ghost var n3 := Now();
      FreeKb();
      OthersTrans(n2, n3, Now(), {}, {});
      OthersTrans(n, n2, Now(), {prev}, {});
      if r != 0 {
        OthersMsg(n2, Now(), {}, prev);
      } else {
        NullNotMsg(Now());
        ChunksLength(n.mem, n.parts.msgs[prev]);
      }
    }

    // kerbuf.c freemsg
    method FreeMsg(msg: Addr)
      requires Valid() && (msg == 0 || msg in parts.msgs)
      modifies this`mem, this`kb, this`alloc, this`cntfree, this`freel, this`sys, this`rbufCount, this`parts
      ensures Valid() && Bases(Now()) == old(Bases(Now()))
      ensures parts.msgs == old(parts).msgs - {msg} && OthersKept(old(mem), old(parts), mem, parts, {msg})
      ensures if msg == 0 then Now() == old(Now()) else Lean()
    {
      hide Inv, OthersKept, Bases, Chunks;
      ghost var n := Now();
      NullNotMsg(n);
      KeptExcept(n, {msg});
      var m := msg;
      while m != 0
        invariant Valid() && Bases(Now()) == Bases(n)
        invariant m == 0 || (m == msg && m in parts.msgs)
        invariant parts.msgs - {msg} == n.parts.msgs - {msg} && (m == 0 ==> msg !in parts.msgs)
        invariant if msg == 0 then Now() == n else m == 0 ==> Lean()
        invariant OthersKept(n.mem, n.parts, mem, parts, {msg})
        decreases if m in parts.msgs then |parts.msgs[m]| else 0
      {
        ghost var n1 := Now();
        MsgFacts(n1, m);
        m := FreeBuf(m);
        OthersTrans(n, n1, Now(), {msg}, {msg});
      }
    }

    // rawtable.c rawbuf, from where getbuf has returned: the quota is looked at again
    method MarkRaw(bp: Addr) returns (r: Addr)
      requires Valid() && bp in parts.msgs && parts.msgs[bp] == [bp] && bp in mem && !mem[bp].raw
      modifies this`mem, this`kb, this`alloc, this`cntfree, this`freel, this`sys, this`rbufCount, this`parts
      ensures Valid() && Bases(Now()) == old(Bases(Now()))
      ensures OthersKept(old(mem), old(parts), mem, parts, {bp})
      ensures old(rbufCount) >= RBUF_MAX ==> r == 0 && parts.msgs == old(parts).msgs - {bp}
      ensures old(rbufCount) < RBUF_MAX ==> r == bp && parts == old(parts) && rbufCount == old(rbufCount) + 1
      ensures old(rbufCount) < RBUF_MAX ==> alloc == old(alloc) && sys == old(sys)
      ensures old(rbufCount) < RBUF_MAX ==> mem == old(mem)[bp := old(mem)[bp].(raw := true)]
    {
      hide Inv, OthersKept, Bases, Chunks, Distinct, Linked;
      if rbufCount >= RBUF_MAX {
        var _ := FreeBuf(bp);
        return 0;
      }
      ghost var n := Now();
      RawStep(n, bp, bp);
      rbufCount := rbufCount + 1;
      mem := mem[bp := mem[bp].(raw := true)];
      assert Now() == n.(mem := mem, rbufCount := n.rbufCount + 1);
      r := bp;
    }

    // rawtable.c rawbuf
    method RawBuf() returns (b: Addr)
      requires Valid()
      modifies this
      ensures Valid() && Bases(Now()) == old(Bases(Now())) && hyster == old(hyster)
      ensures OthersKept(old(mem), old(parts), mem, parts, {})
      ensures b != 0 <==> old(rbufCount) < RBUF_MAX && CanGet(old(Now()))
      ensures b == 0 ==> parts.msgs == old(parts.msgs)
      ensures rbufCount == old(rbufCount) + if b == 0 then 0 else 1
      ensures b != 0 ==> b !in old(parts.msgs) && parts.msgs == old(parts.msgs)[b := [b]]
      ensures b != 0 ==> b in mem && mem[b].len == 0 && mem[b].raw
      ensures Stock(Now()) == old(Stock(Now())) - (if b == 0 then 0 else 1)
    {
      hide Inv, OthersKept, Bases, Distinct, Linked;
      ghost var n := Now();
      KeptSelf(n);
      if rbufCount >= RBUF_MAX {
        return 0;
      }
      b := GetBuf();
      if b == 0 {
        return 0;
      }
      ghost var n1 := Now();
      b := MarkRaw(b);
      Others2(n1, Now(), {b}, {b});
      OthersNew(n, n1, Now(), b);
    }

    /** A one-buffer message linked to the end of another, or standing alone. */
    method Attach(b: Addr, msg: Addr)
      requires Valid() && b in parts.msgs && parts.msgs[b] == [b] && b in mem && mem[b].len == 0
      requires msg != b && (msg == 0 || msg in parts.msgs)
      modifies this`mem, this`parts
      ensures Valid() && Bases(Now()) == old(Bases(Now()))
      ensures OthersKept(old(mem), old(parts), mem, parts, {b, msg})
      ensures parts.msgs.Keys == old(parts).msgs.Keys - {msg} && b in parts.msgs
      ensures Msg(b) == old(Msg(msg)) + [[]] && parts.free == old(parts.free)
      ensures b in mem && mem[b].len == 0 && mem[b].raw == old(mem)[b].raw
    {
      hide Inv, OthersKept, Bases, Distinct, Linked, Chunks, OnlyLinks;
      ghost var n := Now();
      NullNotMsg(n);
      MsgFacts(n, b);
      LastChunk(n, b);
      ChunksLength(mem, [b]);
      assert mem[b].data[..0] == [];
      assert Chunks(mem, [b]) == [[]];
      if msg == 0 {
        KeptExcept(n, {b, msg});
        assert parts.msgs.Keys - {msg} == parts.msgs.Keys;
        assert [] + [[]] == Chunks(mem, [b]);
      } else {
        AttachTo(b, msg);
      }
    }

    method AttachTo(b: Addr, msg: Addr)
      requires Valid() && b in parts.msgs && parts.msgs[b] == [b] && b in mem && Chunks(mem, [b]) == [[]]
      requires msg != b && msg in parts.msgs && mem[b].len == 0
      modifies this`mem, this`parts
      ensures Valid() && Bases(Now()) == old(Bases(Now()))
      ensures OthersKept(old(mem), old(parts), mem, parts, {b, msg})
      ensures parts.msgs.Keys == old(parts).msgs.Keys - {msg} && b in parts.msgs
      ensures Msg(b) == old(Msg(msg)) + [[]] && parts.free == old(parts.free)
      ensures b in mem && mem[b].len == 0 && mem[b].raw == old(mem)[b].raw
    {
      hide Inv, OthersKept, Bases, Distinct, Linked, Chunks, OnlyLinks;
      ghost var n := Now();
      NullNotMsg(n);
      FreeFacts(n);
      MsgFacts(n, b);
      ghost var s := parts.msgs[msg];
      MsgFacts(n, msg);
      OneRing(n, b, msg);
      assert b in parts.msgs[b];
      var _ := LinkBuf(b, msg, s);
      OnlyLinksOrder(n.mem, mem, b, msg);
      JoinStep(n, msg, b, mem);
      LinksOnlyContents(n.mem, mem, {msg, b}, s);
      LinksOnlyContents(n.mem, mem, {msg, b}, [b]);
      ChunksConcat(n.mem, mem, s, [b]);
      SameLens(n.mem, mem, {msg, b});
      parts := parts.(msgs := Rehandled(parts.msgs, {msg, b}, s + [b]));
      assert Now() == Joined(n, msg, b, mem);
      assert parts.msgs == (n.parts.msgs - {msg, b})[b := s + [b]];
      assert (n.parts.msgs - {msg, b}).Keys + {b} == n.parts.msgs.Keys - {msg};
      Others2(n, Now(), {msg, b}, {b, msg});
    }

    // kerbuf.c appendb
    method AppendB(msg: Addr) returns (r: Addr)
      requires Valid() && (msg == 0 || msg in parts.msgs)
      modifies this
      ensures Valid() && Bases(Now()) == old(Bases(Now())) && hyster == old(hyster)
      ensures OthersKept(old(mem), old(parts), mem, parts, {msg})
      ensures r != 0 <==> CanAppend(old(Now()), msg)
      ensures r == 0 ==> parts.msgs == old(parts.msgs) && Msg(msg) == old(Msg(msg)) && !CanAppend(Now(), msg)
      ensures r != 0 ==> r in parts.msgs && parts.msgs.Keys == old(parts).msgs.Keys - {msg} + {r}
      ensures r != 0 ==> r in mem && mem[r].len < NET_B_SIZE && (r == msg || r !in old(parts).msgs)
      ensures HasRoom(old(Now()), msg) ==> r == msg && Now() == old(Now())
      ensures r != 0 && r == msg ==> HasRoom(old(Now()), msg)
      ensures LastRaw(Now(), if r == 0 then msg else r) == LastRaw(old(Now()), msg)
      ensures r != 0 && r != msg ==>
        Msg(r) == old(Msg(msg)) + [[]] && (old(Msg(msg)) == [] || |old(Msg(msg))[|old(Msg(msg))| - 1]| >= NET_B_SIZE)
      ensures Stock(Now()) == old(Stock(Now())) - (if r == 0 || r == msg then 0 else 1)
    {
      hide Inv, OthersKept, Bases, Distinct, Linked, Chunks, Stock, CanGet;
      ghost var n := Now();
      NullNotMsg(n);
      FreeFacts(n);
      KeptExcept(n, {msg});
      if msg != 0 {
        LastChunk(n, msg);
        ChunksLength(mem, parts.msgs[msg]);
        if mem[msg].len < NET_B_SIZE {
          return msg;
        }
      }
      var b;
      if msg != 0 && mem[msg].raw {
        b := RawBuf();
      } else {
        b := GetBuf();
      }
      ghost var n1 := Now();
      Others2(n, n1, {}, {msg});
      if msg != 0 {
        OthersMsg(n, n1, {}, msg);
      }
      if b == 0 {
        NoRoomStill(n, n1, msg);
        return 0;
      }
      NullNotMsg(n1);
      Attach(b, msg);
      StockSame(n1, mem, parts);
      OthersNew2(n, n1, Now(), b, msg);
      r := b;
    }

    // kerbuf.c vectomsg: one chunk moved into the space at the end of the message
    method CopyIn(p: Addr, bs: seq<Byte>)
      requires Valid() && p in parts.msgs && p in mem && mem[p].len + |bs| <= NET_B_SIZE
      modifies this`mem
      ensures Valid() && Bases(Now()) == old(Bases(Now()))
      ensures OthersKept(old(mem), old(parts), mem, parts, {p})
      ensures old(Msg(p)) != [] && Msg(p) == AddToLast(old(Msg(p)), bs)
      ensures p in mem && mem[p].len == old(mem)[p].len + |bs| && mem[p].raw == old(mem)[p].raw
    {
      hide Inv, OthersKept, Bases, Chunks, AddToLast, Extended;
      ghost var n := Now();
      LastChunk(n, p);
      ChunksLength(mem, parts.msgs[p]);
      ExtendStep(n, p, bs);
      ExtendIs(mem[p], bs);
      mem := mem[p := mem[p].(len := mem[p].len + |bs|,
                              data := mem[p].data[..mem[p].len] + bs + mem[p].data[mem[p].len + |bs|..])];
      assert Now() == n.(mem := mem);
    }

    // kerbuf.c vectomsg, the body of the loop; 0 when there is no space to be had
    method OneTurn(vec: seq<Byte>, msg: Addr) returns (p: Addr, size: nat)
      requires Valid() && (msg == 0 || msg in parts.msgs) && vec != []
      modifies this
      ensures Valid() && Bases(Now()) == old(Bases(Now())) && hyster == old(hyster)
      ensures OthersKept(old(mem), old(parts), mem, parts, {msg})
      ensures p == 0 ==> size == 0 && parts.msgs == old(parts.msgs) && Msg(msg) == old(Msg(msg))
      ensures p != 0 ==> 0 < size <= |vec| && Msg(p) == Fill(old(Msg(msg)), vec[..size])
      ensures p != 0 ==> p in parts.msgs && parts.msgs.Keys == old(parts).msgs.Keys - {msg} + {p}
      ensures p == 0 || p == msg || p !in old(parts).msgs
      ensures (p != 0 <==> CanAppend(old(Now()), msg)) && (p == 0 ==> !CanAppend(Now(), msg))
      ensures LastRaw(Now(), if p == 0 then msg else p) == LastRaw(old(Now()), msg)
      ensures p != 0 ==> |Msg(p)| == |old(Msg(msg))| + (if p == msg then 0 else 1)
      ensures Stock(Now()) == old(Stock(Now())) - (if p == 0 || p == msg then 0 else 1)
      ensures msg in old(parts).msgs && msg in old(mem) && old(mem)[msg].len + |vec| <= NET_B_SIZE ==>
        p == msg && size == |vec| && parts == old(parts) && msg in mem && mem[msg].len == old(mem)[msg].len + size
    {
      hide Inv, OthersKept, Bases, Chunks, Fill, AddToLast, Stock, CanGet, CanAppend;
      ghost var n := Now();
      ghost var cs := Msg(msg);
      NullNotMsg(n);
      p := AppendB(msg);
      size := 0;
      if p == 0 {
        return;
      }
      ghost var n1 := Now();
      NullNotMsg(n1);
      LastChunk(n1, p);
      ChunksLength(mem, parts.msgs[p]);
      size := if NET_B_SIZE - mem[p].len < |vec| then NET_B_SIZE - mem[p].len else |vec|;
      FillPiece(cs, Msg(p), vec[..size], p == msg);
      AddToLastCount(Msg(p), vec[..size]);
      CopyIn(p, vec[..size]);
      StockSame(n1, mem, parts);
      NewHandle2(n, n1, Now(), msg, p);
    }

    // kerbuf.c vectomsg; `left` bytes are not moved, for want of a buffer
    method VecToMsg(vec: seq<Byte>, msg: Addr) returns (msg': Addr, left: nat)
      requires Valid() && (msg == 0 || msg in parts.msgs)
      modifies this
      ensures Valid() && Bases(Now()) == old(Bases(Now())) && hyster == old(hyster)
      ensures OthersKept(old(mem), old(parts), mem, parts, {msg})
      ensures left <= |vec| && Msg(msg') == Fill(old(Msg(msg)), vec[..|vec| - left])
      ensures Flatten(Msg(msg')) == Flatten(old(Msg(msg))) + vec[..|vec| - left]
      ensures left > 0 ==> !CanAppend(Now(), msg')
      ensures msg' != 0 ==> LastRaw(Now(), msg') == LastRaw(old(Now()), msg)
      ensures Stock(Now()) + |Msg(msg')| == old(Stock(Now())) + |old(Msg(msg))|
      ensures msg' == 0 || (msg' in parts.msgs && (msg' == msg || msg' !in old(parts).msgs))
      ensures parts.msgs.Keys == old(parts).msgs.Keys - {msg} + (if msg' == 0 then {} else {msg'})
      ensures msg' == 0 <==> msg == 0 && left == |vec|
      ensures msg in old(parts).msgs && msg in old(mem) && old(mem)[msg].len + |vec| <= NET_B_SIZE ==>
        left == 0 && msg' == msg && parts == old(parts)
    {
      hide Inv, OthersKept, Bases, Chunks, Fill, AddToLast, Flatten, Stock, CanAppend, LastRaw;
      ghost var n := Now();
      NullNotMsg(n);
      KeptExcept(n, {msg});
      FillNone(Msg(msg));
      msg' := msg;
      left := |vec|;
      var at := 0;
      ghost var fits := msg in parts.msgs && msg in mem && mem[msg].len + |vec| <= NET_B_SIZE;
      assert vec[..0] == [];
      assert msg != 0 ==> parts.msgs.Keys - {msg} + {msg} == parts.msgs.Keys;
      assert msg == 0 ==> parts.msgs.Keys - {msg} == parts.msgs.Keys;
      while left > 0
        invariant 0 <= at == |vec| - left <= |vec|
        invariant Valid() && Bases(Now()) == Bases(n) && hyster == old(hyster)
        invariant OthersKept(n.mem, n.parts, mem, parts, {msg})
        invariant Msg(msg') == Fill(old(Msg(msg)), vec[..at])
        invariant msg' == 0 || msg' in parts.msgs
        invariant parts.msgs.Keys == n.parts.msgs.Keys - {msg} + (if msg' == 0 then {} else {msg'})
        invariant msg' == 0 <==> msg == 0 && at == 0
        invariant msg' == msg || msg' !in n.parts.msgs
        invariant LastRaw(Now(), msg') == LastRaw(n, msg)
        invariant Stock(Now()) + |Msg(msg')| == Stock(n) + |old(Msg(msg))|
        invariant fits ==> msg' == msg && parts == n.parts && msg in mem && mem[msg].len + left <= NET_B_SIZE
      {
        ghost var n1 := Now();
        ghost var cs := Msg(msg');
        var p, size := OneTurn(vec[at..], msg');
        NewHandle(n, n1, Now(), msg, msg', p);
        if p == 0 {
          FillAppends(old(Msg(msg)), vec[..at]);
          return;
        }
        FillResumes(old(Msg(msg)), vec[..at], vec[at..][..size]);
        assert vec[..at] + vec[at..][..size] == vec[..at + size];
        msg' := p;
        at := at + size;
        left := left - size;
      }
      FillAppends(old(Msg(msg)), vec[..at]);
    }

    // kerbuf.c bytesout; `out` is what reaches the vector, `left` what the count had too much
    method BytesOut(msg: Addr, count: nat) returns (msg': Addr, out: seq<Byte>, left: nat)
      requires Valid() && (msg == 0 || msg in parts.msgs)
      modifies this
      ensures Valid() && Bases(Now()) == old(Bases(Now())) && hyster == old(hyster)
      ensures OthersKept(old(mem), old(parts), mem, parts, {msg})
      ensures Msg(msg') == Drop(old(Msg(msg)), count)
      ensures |out| == Min(count, |Flatten(old(Msg(msg)))|) && |out| + left == count
      ensures out == Flatten(old(Msg(msg)))[..|out|] && Flatten(Msg(msg')) == Flatten(old(Msg(msg)))[|out|..]
      ensures msg' == 0 || (msg' == msg && msg' in parts.msgs)
      ensures parts.msgs.Keys == old(parts).msgs.Keys - {msg} + (if msg' == 0 then {} else {msg'})
    {
      hide Inv, OthersKept, Bases, Chunks, Drop, Flatten;
      ghost var n := Now();
      ghost var cs := Msg(msg);
      NullNotMsg(n);
      KeptExcept(n, {msg});
      msg', out, left := msg, [], count;
      assert msg != 0 ==> parts.msgs.Keys - {msg} + {msg} == parts.msgs.Keys;
      assert msg == 0 ==> parts.msgs.Keys - {msg} == parts.msgs.Keys;
      DropBegin(cs);
      while msg' != 0 && left > 0
        invariant Valid() && Bases(Now()) == Bases(n) && hyster == old(hyster)
        invariant OthersKept(n.mem, n.parts, mem, parts, {msg})
        invariant msg' == 0 || (msg' == msg && msg' in parts.msgs)
        invariant parts.msgs.Keys == n.parts.msgs.Keys - {msg} + (if msg' == 0 then {} else {msg'})
        invariant Drop(Msg(msg'), left) == Drop(cs, count)
        invariant out + Flatten(Msg(msg')) == Flatten(cs) && |out| + left == count
        decreases left, |Msg(msg')|
      {
        ghost var n1 := Now();
        ghost var ds := Msg(msg');
        var piece;
        msg', piece := OneTake(msg', left);
        OthersTrans(n, n1, Now(), {msg}, {msg});
        DropTurn(ds, Msg(msg'), left, |piece|);
        ConcatAssoc(out, piece, Flatten(Msg(msg')));
        out := out + piece;
        left := left - |piece|;
      }
      NullNotMsg(Now());
      DropEnd(Msg(msg'), left, out, cs, count);
    }

    // kerbuf.c bytesout, the body of the loop
    method OneTake(msg: Addr, count: nat) returns (msg': Addr, piece: seq<Byte>)
      requires Valid() && msg in parts.msgs && count > 0
      modifies this
      ensures Valid() && Bases(Now()) == old(Bases(Now())) && hyster == old(hyster)
      ensures OthersKept(old(mem), old(parts), mem, parts, {msg})
      ensures msg' == 0 || (msg' == msg && msg' in parts.msgs)
      ensures parts.msgs.Keys == old(parts).msgs.Keys - {msg} + (if msg' == 0 then {} else {msg'})
      ensures old(Msg(msg)) != [] && |piece| == Min(count, |old(Msg(msg))[0]|)
      ensures piece == old(Msg(msg))[0][..|piece|]
      ensures Msg(msg') == if |piece| < |old(Msg(msg))[0]|
        then old(Msg(msg))[0 := old(Msg(msg))[0][|piece|..]]
        else old(Msg(msg))[1..]
    {
      hide Inv, OthersKept, Bases, Chunks;
      ghost var n := Now();
      NullNotMsg(n);
      FirstChunk(n, msg);
      ChunksLength(mem, parts.msgs[msg]);
      msg' := msg;
      var p := mem[msg].qlink;
      var size := Min(count, mem[p].len);
      piece := mem[p].data[..size];
      assert mem[p].data[..mem[p].len][..size] == piece;
      if mem[p].len - size > 0 {
        var s := mem[p].len - size;
        ShiftStep(n, msg, size);
        var data := MoveUp(mem[p].data, size, s);
        mem := mem[p := mem[p].(len := s, data := data)];
        assert Now() == n.(mem := mem);
        assert parts.msgs.Keys - {msg} + {msg} == parts.msgs.Keys;
      } else {
        ghost var s := parts.msgs[msg];
        msg' := FreeBuf(msg);
        assert msg' != 0 ==> parts.msgs.Keys == n.parts.msgs.Keys - {msg} + {msg};
      }
    }

    // kerbuf.c catmsg
    method CatMsg(msgp1: Addr, msgp2: Addr) returns (r: Addr)
      requires Valid() && (msgp1 == 0 || msgp1 in parts.msgs) && (msgp2 == 0 || msgp2 in parts.msgs)
      requires msgp1 != 0 ==> msgp1 != msgp2
      modifies this
      ensures Valid() && Bases(Now()) == old(Bases(Now())) && hyster == old(hyster)
      ensures OthersKept(old(mem), old(parts), mem, parts, {msgp1, msgp2})
      ensures Msg(r) == Cat(old(Msg(msgp1)), old(Msg(msgp2)))
      ensures Flatten(Msg(r)) == Flatten(old(Msg(msgp1))) + Flatten(old(Msg(msgp2)))
      ensures r == 0 || r in parts.msgs
      ensures r == if msgp2 == 0 then msgp1 else if msgp1 == 0 then msgp2 else r
      ensures r == msgp1 || r == msgp2
      ensures parts.msgs.Keys == old(parts).msgs.Keys - {msgp1, msgp2} + (if r == 0 then {} else {r})
    {
      hide Inv, OthersKept, Bases, Chunks, Cat, Distinct, Linked, OnlyLinks, Flatten, Sized;
      ghost var n := Now();
      ghost var c1, c2 := Msg(msgp1), Msg(msgp2);
      NullNotMsg(n);
      ChunksSizedOr(n, msgp1);
      ChunksSizedOr(n, msgp2);
      CatConcatenates(c1, c2);
      KeptExcept(n, {msgp1, msgp2});
      MsgNonEmpty(n, msgp1);
      MsgNonEmpty(n, msgp2);
      CatEmpty(c1, c2);
      if msgp2 == 0 {
        assert msgp1 != 0 ==> parts.msgs.Keys - {msgp1, 0} + {msgp1} == parts.msgs.Keys;
        assert msgp1 == 0 ==> parts.msgs.Keys - {0, 0} == parts.msgs.Keys;
        return msgp1;
      }
      if msgp1 == 0 {
        assert parts.msgs.Keys - {0, msgp2} + {msgp2} == parts.msgs.Keys;
        return msgp2;
      }
      var msg1, msg2 := msgp1, msgp2;
      LastChunk(n, msg1);
      FirstChunk(n, msg2);
      MsgFacts(n, msg2);
      while NET_B_SIZE - mem[msg1].len >= mem[mem[msg2].qlink].len
        invariant Valid() && Bases(Now()) == Bases(n) && hyster == old(hyster)
        invariant OthersKept(n.mem, n.parts, mem, parts, {msgp1, msgp2})
        invariant msg1 == msgp1 && msg2 == msgp2 && msg1 in parts.msgs && msg2 in parts.msgs
        invariant parts.msgs.Keys == n.parts.msgs.Keys
        invariant Cat(Msg(msg1), Msg(msg2)) == Cat(c1, c2)
        invariant msg1 in mem && msg2 in mem && mem[msg2].qlink in mem
        decreases |Msg(msg2)|
      {
        ghost var n1 := Now();
        msg2 := MergeFirst(msg1, msg2);
        OthersTrans(n, n1, Now(), {msgp1, msgp2}, {msgp1, msgp2});
        if msg2 == 0 {
          assert n.parts.msgs.Keys - {msgp1, msgp2} + {msg1} == n.parts.msgs.Keys - {msgp2};
          CatEmpty(Msg(msg1), []);
          return msg1;
        }
        LastChunk(Now(), msg1);
        FirstChunk(Now(), msg2);
        MsgFacts(Now(), msg2);
      }
      ghost var n1 := Now();
      CatStops(n1, msg1, msg2);
      LinkEnds(msg1, msg2);
      OthersTrans(n, n1, Now(), {msgp1, msgp2}, {msgp1, msgp2});
      r := msg2;
      assert n.parts.msgs.Keys - {msgp1, msgp2} + {msgp2} == n.parts.msgs.Keys - {msgp1};
    }

    // kerbuf.c catmsg, one turn of the loop: all of first of two goes into last of one
    method MergeFirst(msg1: Addr, msg2: Addr) returns (msg2': Addr)
      requires Valid() && msg1 in parts.msgs && msg2 in parts.msgs && msg1 != msg2
      requires msg1 in mem && msg2 in mem && mem[msg2].qlink in mem
      requires NET_B_SIZE - mem[msg1].len >= mem[mem[msg2].qlink].len
      modifies this
      ensures Valid() && Bases(Now()) == old(Bases(Now())) && hyster == old(hyster)
      ensures OthersKept(old(mem), old(parts), mem, parts, {msg1, msg2})
      ensures msg2' == 0 || msg2' == msg2
      ensures msg1 in parts.msgs && (msg2' != 0 ==> msg2 in parts.msgs)
      ensures parts.msgs.Keys == if msg2' == 0 then old(parts).msgs.Keys - {msg2} else old(parts).msgs.Keys
      ensures Cat(Msg(msg1), Msg(msg2')) == Cat(old(Msg(msg1)), old(Msg(msg2)))
      ensures |Msg(msg2')| < |old(Msg(msg2))|
    {
      hide Inv, OthersKept, Bases, Chunks, Cat, Fill, AddToLast;
      ghost var n := Now();
      ghost var c1, c2 := Msg(msg1), Msg(msg2);
      LastChunk(n, msg1);
      FirstChunk(n, msg2);
      ChunksLength(mem, parts.msgs[msg1]);
      ChunksLength(mem, parts.msgs[msg2]);
      var first := mem[msg2].qlink;
      var vec := mem[first].data[..mem[first].len];
      var m1, left := VecToMsg(vec, msg1);
      assert vec[..|vec|] == vec;
      ghost var n1 := Now();
      OthersMsg(n, n1, {msg1}, msg2);
      msg2' := FreeBuf(msg2);
      OthersMsg(n1, Now(), {msg2}, msg1);
      Others2(n, n1, {msg1}, {msg1, msg2});
      OthersTrans(n, n1, Now(), {msg1, msg2}, {msg2});
      NullNotMsg(Now());
      CatMerge(c1, c2);
    }

    // kerbuf.c catmsg, the end: last of one points at first of two and last of two at first of one
    method LinkEnds(msg1: Addr, msg2: Addr)
      requires Valid() && msg1 in parts.msgs && msg2 in parts.msgs && msg1 != msg2
      modifies this`mem, this`parts
      ensures Valid() && Bases(Now()) == old(Bases(Now()))
      ensures OthersKept(old(mem), old(parts), mem, parts, {msg1, msg2})
      ensures msg2 in parts.msgs && parts.msgs.Keys == old(parts).msgs.Keys - {msg1}
      ensures Msg(msg2) == old(Msg(msg1)) + old(Msg(msg2))
      ensures forall a :: a in old(mem) ==> a in mem && mem[a].eom == old(mem)[a].eom
    {
      hide Inv, OthersKept, Bases, Chunks, Distinct, Linked, OnlyLinks;
      ghost var n := Now();
      ghost var s, t := parts.msgs[msg1], parts.msgs[msg2];
      MsgFacts(n, msg1);
      MsgFacts(n, msg2);
      OneRing(n, msg1, msg2);
      FirstIs(mem, s);
      FirstIs(mem, t);
      var p := mem[msg1].qlink;
      mem := mem[msg1 := mem[msg1].(qlink := mem[msg2].qlink)];
      mem := mem[msg2 := mem[msg2].(qlink := p)];
      JoinRings(n.mem, s, t, mem);
      JoinStep(n, msg1, msg2, mem);
      OnlyLinksRaw(n.mem, mem, {msg1, msg2});
      LinksOnlyContents(n.mem, mem, {msg1, msg2}, s);
      LinksOnlyContents(n.mem, mem, {msg1, msg2}, t);
      ChunksConcat(n.mem, mem, s, t);
      parts := parts.(msgs := Rehandled(parts.msgs, {msg1, msg2}, s + t));
      assert Now() == Joined(n, msg1, msg2, mem);
      assert (n.parts.msgs - {msg1, msg2}).Keys + {msg2} == n.parts.msgs.Keys - {msg1};
    }

    /** The message `h` taken by its buffer `k`: a ring may be held anywhere. */
    ghost method Turn(h: Addr, k: nat)
      requires Valid() && h in parts.msgs && k < |parts.msgs[h]|
      modifies this`parts
      ensures Valid() && Bases(Now()) == old(Bases(Now()))
      ensures var s := old(parts).msgs[h]; var t := s[k + 1..] + s[..k + 1];
        && parts.msgs == (old(parts).msgs - {h})[s[k] := t]
        && Msg(s[k]) == old(Msg(h))[k + 1..] + old(Msg(h))[..k + 1]
      ensures OthersKept(old(mem), old(parts), mem, parts, {h})
      ensures old(parts).msgs[h][k] == h || old(parts).msgs[h][k] !in old(parts).msgs
    {
      hide Inv, OthersKept, Bases, Chunks;
      ghost var n := Now();
      ghost var s := parts.msgs[h];
      TurnStep(n, h, k);
      parts := parts.(msgs := Rehandled(parts.msgs, {h}, s[k + 1..] + s[..k + 1]));
    }

    /** Buffer `k` of message `h` cut to its first `len` bytes. */
    method Truncate(h: Addr, a: Addr, len: nat, ghost k: nat)
      requires Valid() && h in parts.msgs && k < |parts.msgs[h]| && a == parts.msgs[h][k]
      requires a in mem && len <= mem[a].len
      modifies this`mem
      ensures Valid() && Bases(Now()) == old(Bases(Now()))
      ensures OthersKept(old(mem), old(parts), mem, parts, {h})
      ensures k < |old(Msg(h))| && len <= |old(Msg(h))[k]|
      ensures Msg(h) == old(Msg(h))[k := old(Msg(h))[k][..len]]
      ensures forall b :: b in mem ==> b in old(mem) && mem[b].qlink == old(mem)[b].qlink
    {
      hide Inv, OthersKept, Bases, Chunks, Distinct;
      ghost var n := Now();
      MsgFacts(n, h);
      ChunkOf(n, h, k);
      ghost var b := mem[a].(len := len);
      WriteStep(n, h, a, b);
      ChunksWrite(mem, parts.msgs[h], k, b);
      assert mem[a].data[..mem[a].len][..len] == b.data[..len];
      mem := mem[a := mem[a].(len := len)];
      assert Now() == n.(mem := mem);
    }

    // impio.c rmovepad, to the end of its first loop and the cut: the last buffer with valid data
    method FindEnd(msg: Addr, declared: nat) returns (bfrp: Addr, cnt: int, ghost k: nat)
      requires Valid() && msg in parts.msgs
      modifies this`mem
      ensures Valid() && Bases(Now()) == old(Bases(Now()))
      ensures OthersKept(old(mem), old(parts), mem, parts, {msg})
      ensures k < |parts.msgs[msg]| && bfrp == parts.msgs[msg][k]
      ensures |Msg(msg)| == |parts.msgs[msg]| && Msg(msg)[..k + 1] == TakeBytes(old(Msg(msg)), declared)
      ensures cnt == declared - |Flatten(old(Msg(msg))[..k + 1])|
      ensures cnt > 0 ==> k + 1 == |parts.msgs[msg]|
    {
      hide Inv, OthersKept, Bases, Chunks, Distinct, Linked, TakeBytes, Flatten;
      ghost var n := Now();
      ghost var s := parts.msgs[msg];
      ghost var cs := Msg(msg);
      KeptExcept(n, {msg});
      ChunksLength(mem, s);
      FirstChunk(n, msg);
      ChunkOf(n, msg, 0);
      var first := mem[msg].qlink;
      bfrp := first;
      k := 0;
      TakeStart(cs, declared);
      cnt := declared - mem[bfrp].len;
      while cnt > 0 && mem[bfrp].qlink != first
        invariant Now() == n
        invariant 0 <= k < |s| && bfrp == s[k] && bfrp in mem && mem[bfrp].len == |cs[k]|
        invariant mem[bfrp].qlink == (if k + 1 < |s| then s[k + 1] else s[0])
        invariant cnt == declared - |Flatten(cs[..k + 1])|
        invariant cnt + mem[bfrp].len >= 0 && TakesPast(cs, declared, k)
        decreases |s| - k
      {
        NotWrapped(n, msg, k);
        TakeOn(cs, declared, k);
        bfrp := mem[bfrp].qlink;
        k := k + 1;
        ChunkOf(n, msg, k);
        cnt := cnt - mem[bfrp].len;
      }
      NotWrapped(n, msg, k);
      TakeEnd(cs, declared, k);
      if cnt < 0 {
        Truncate(msg, bfrp, mem[bfrp].len + cnt, k);
      }
    }

    /** The buffer after `bfrp` goes, and is not the last. */
    method DropNext(bfrp: Addr, ghost n: Net)
      requires Valid() && bfrp in parts.msgs && |parts.msgs[bfrp]| > 1
      requires Bases(Now()) == Bases(n) && OthersKept(n.mem, n.parts, mem, parts, {bfrp})
      modifies this
      ensures Valid() && Bases(Now()) == Bases(n) && hyster == old(hyster)
      ensures OthersKept(n.mem, n.parts, mem, parts, {bfrp})
      ensures parts.msgs.Keys == old(parts).msgs.Keys && bfrp in parts.msgs
      ensures parts.msgs[bfrp] == old(parts).msgs[bfrp][1..] && Msg(bfrp) == old(Msg(bfrp))[1..]
    {
      hide Inv, OthersKept, Bases, Chunks, Distinct, Linked;
      ghost var n1 := Now();
      var _ := FreeBuf(bfrp);
      OthersTrans(n, n1, Now(), {bfrp}, {bfrp});
    }

    // impio.c rmovepad, second loop: what follows `bfrp` is freed until the first buffer comes round
    method DropRest(bfrp: Addr, first: Addr, ghost s: seq<Addr>, ghost k: nat, ghost ds: seq<Chunk>)
      requires Valid() && bfrp in parts.msgs && k < |s| && |ds| == |s| && first == s[0]
      requires parts.msgs[bfrp] == s[k + 1..] + s[..k + 1] && Msg(bfrp) == ds[k + 1..] + ds[..k + 1]
      requires forall j :: k < j < |s| ==> s[j] != s[0]
      modifies this
      ensures Valid() && Bases(Now()) == old(Bases(Now())) && hyster == old(hyster)
      ensures OthersKept(old(mem), old(parts), mem, parts, {bfrp})
      ensures parts.msgs.Keys == old(parts).msgs.Keys
      ensures Msg(bfrp) == ds[..k + 1]
    {
      hide Inv, OthersKept, Bases, Chunks, Distinct, Linked, Flatten, Back;
      ghost var n := Now();
      ghost var rest := |s| - k - 1;
      KeptExcept(n, {bfrp});
      FirstChunk(n, bfrp);
      RestStep(s, k, rest);
      RestStep(ds, k, rest);
      while mem[bfrp].qlink != first
        invariant Valid() && Bases(Now()) == Bases(n) && hyster == old(hyster)
        invariant OthersKept(n.mem, n.parts, mem, parts, {bfrp})
        invariant bfrp in parts.msgs && parts.msgs.Keys == n.parts.msgs.Keys && bfrp in mem
        invariant 0 <= rest <= |s| - k - 1
        invariant parts.msgs[bfrp] == Back(s, k, rest) != [] && Msg(bfrp) == Back(ds, k, rest)
        invariant mem[bfrp].qlink == Back(s, k, rest)[0]
        decreases rest
      {
        RestStep(s, k, rest);
        RestStep(ds, k, rest);
        DropNext(bfrp, n);
        rest := rest - 1;
        FirstChunk(Now(), bfrp);
      }
      RestDone(s, k, rest);
      RestStep(ds, k, rest);
    }

    /** impio.c rmovepad: the padding the IMP adds is cut off; `mlen` is the length left. */
    method RMovePad(msg: Addr, bcnt: nat, bsize: nat, rBsize: nat) returns (msg': Addr, mlen: int)
      requires Valid() && msg in parts.msgs && rBsize > 0
      modifies this
      ensures Valid() && Bases(Now()) == old(Bases(Now())) && hyster == old(hyster)
      ensures OthersKept(old(mem), old(parts), mem, parts, {msg})
      ensures msg' in parts.msgs && parts.msgs.Keys == old(parts).msgs.Keys - {msg} + {msg'}
      ensures msg' == msg || msg' !in old(parts).msgs
      ensures Msg(msg') == TakeBytes(old(Msg(msg)), Octets(bcnt, bsize))
      ensures Flatten(Msg(msg')) == Flatten(old(Msg(msg)))[..Min(Octets(bcnt, bsize), |Flatten(old(Msg(msg)))|)]
      ensures mlen == Min(Octets(bcnt, bsize), |Flatten(old(Msg(msg)))|)
        <==> SameCount(Octets(bcnt, bsize) - |Flatten(old(Msg(msg)))|, rBsize)
    {
      hide Inv, OthersKept, Bases, Chunks, Distinct, Linked, TakeBytes, Flatten, Octets, Missing;
      ghost var n := Now();
      ghost var cs := Msg(msg);
      var declared := Octets(bcnt, bsize);
      mlen := declared;
      FirstChunk(n, msg);
      var first := mem[msg].qlink;
      ghost var s := parts.msgs[msg];
      var bfrp, cnt; ghost var k;
      bfrp, cnt, k := FindEnd(msg, declared);
      if cnt > 0 {
        MissingExact(cnt, rBsize);
        mlen := mlen - Missing(cnt, rBsize);
      }
      ghost var n1 := Now();
      ghost var ds := Msg(msg);
      TakeCount(cs, declared, k, cnt);
      TakeKeepsPrefix(cs, declared);
      TurnedRing(n1, msg, k);
      Turn(msg, k);
      ghost var n2 := Now();
      OthersTrans(n, n1, n2, {msg}, {msg});
      DropRest(bfrp, first, s, k, ds);
      NewHandle2(n, n2, Now(), msg, bfrp);
      msg' := bfrp;
    }

    // ncpio.c to_ncp, when the vector fits in front of the data of the first buffer
    method PutInFront(vec: seq<Byte>, msg: Addr)
      requires Valid() && msg in parts.msgs && msg in mem && mem[msg].qlink in mem
      requires |vec| + mem[mem[msg].qlink].len <= NET_B_SIZE
      modifies this`mem
      ensures Valid() && Bases(Now()) == old(Bases(Now()))
      ensures OthersKept(old(mem), old(parts), mem, parts, {msg})
      ensures old(Msg(msg)) != [] && Msg(msg) == old(Msg(msg))[0 := vec + old(Msg(msg))[0]]
    {
      hide Inv, OthersKept, Bases, Chunks, Distinct;
      ghost var n := Now();
      FirstChunk(n, msg);
      MsgFacts(n, msg);
      ChunksLength(mem, parts.msgs[msg]);
      var a := mem[msg].qlink;
      var l := mem[a].len;
      var data := MoveDown(mem[a].data, l, vec);
      ghost var b := mem[a].(len := l + |vec|, data := data);
      WriteStep(n, msg, a, b);
      ChunksWrite(mem, parts.msgs[msg], 0, b);
      assert data[..l + |vec|] == vec + mem[a].data[..l];
      mem := mem[a := mem[a].(len := l + |vec|, data := data)];
      assert Now() == n.(mem := mem);
    }

    /** b_resv =| b_eom on the last buffer of a message. */
    method MarkEnd(msg: Addr)
      requires Valid() && msg in parts.msgs && msg in mem
      modifies this`mem
      ensures Valid() && Bases(Now()) == old(Bases(Now()))
      ensures OthersKept(old(mem), old(parts), mem, parts, {msg})
      ensures Msg(msg) == old(Msg(msg)) && msg in mem && mem[msg].eom
    {
      hide Inv, OthersKept, Bases, Chunks, Distinct, Linked;
      ghost var n := Now();
      MsgFacts(n, msg);
      LastChunk(n, msg);
      ghost var b := mem[msg].(eom := true);
      ghost var s := parts.msgs[msg];
      WriteStep(n, msg, msg, b);
      ChunksWrite(mem, s, |s| - 1, b);
      ChunksLength(mem, s);
      assert Chunks(mem, s)[|s| - 1 := Chunks(mem, s)[|s| - 1]] == Chunks(mem, s);
      mem := mem[msg := mem[msg].(eom := true)];
      assert Now() == n.(mem := mem);
    }

    /** The first two bytes of a message, which are in its first buffer, written over. */
    method PutWord(msg: Addr, w: seq<Byte>)
      requires Valid() && msg in parts.msgs && |w| == 2 && Msg(msg) != [] && |Msg(msg)[0]| >= 2
      modifies this`mem
      ensures Valid() && Bases(Now()) == old(Bases(Now()))
      ensures OthersKept(old(mem), old(parts), mem, parts, {msg})
      ensures old(Msg(msg)) != [] && Msg(msg) == old(Msg(msg))[0 := w + old(Msg(msg))[0][2..]]
    {
      hide Inv, OthersKept, Bases, Chunks, Distinct;
      ghost var n := Now();
      FirstChunk(n, msg);
      MsgFacts(n, msg);
      ChunksLength(mem, parts.msgs[msg]);
      var a := mem[msg].qlink;
      var data := w + mem[a].data[2..];
      ghost var b := mem[a].(data := data);
      WriteStep(n, msg, a, b);
      ChunksWrite(mem, parts.msgs[msg], 0, b);
      assert data[..mem[a].len] == w + mem[a].data[..mem[a].len][2..];
      mem := mem[a := mem[a].(data := data)];
      assert Now() == n.(mem := mem);
    }

    // ncpio.c to_ncp, to the catmsg: the vector put in front of the message, in it or in new ones
    method Prefixed(vec: seq<Byte>, msg: Addr) returns (ok: bool, msgp: Addr)
      requires Valid() && (vec != [] || msg != 0) && (msg == 0 || msg in parts.msgs)
      modifies this
      ensures Valid() && Bases(Now()) == old(Bases(Now()))
      ensures OthersKept(old(mem), old(parts), mem, parts, {msg})
      ensures ok <==> Wanted(|vec|, FrontRoom(old(Msg(msg)))) <= old(Stock(Now()))
      ensures !ok ==> parts.msgs.Keys == old(parts).msgs.Keys && Msg(msg) == old(Msg(msg))
      ensures ok ==> Flatten(Msg(msgp)) == Gone(vec, |vec|) + Flatten(old(Msg(msg)))
      ensures ok ==> msgp in parts.msgs && parts.msgs.Keys == old(parts).msgs.Keys - {msg} + {msgp}
      ensures ok ==> msgp == msg || msgp !in old(parts).msgs
    {
      hide Inv, OthersKept, Bases, Chunks, Cat, Flatten, Gone, Stock, Wanted, FrontRoom;
      ghost var n := Now();
      ghost var cs := Msg(msg);
      NullNotMsg(n);
      MsgNonEmpty(n, msg);
      ok, msgp := true, msg;
      var newmsg, len;
      ok, newmsg, len := Pieces(vec, msg);
      ghost var n1 := Now();
      if !ok {
        Others2(n, n1, {}, {msg});
        return;
      }
      NullNotMsg(n1);
      ghost var front := Flatten(Msg(newmsg));
      if len > 0 {
        PutInFront(vec[..len], msg);
        FrontBytes(cs, vec[..len]);
        if newmsg != 0 { OthersMsg(n1, Now(), {msg}, newmsg); }
        GoneAll(vec, len);
      } else {
        KeptExcept(n1, {msg});
        GoneNone(vec);
      }
      ghost var n2 := Now();
      Others3(n, n1, n2, msg);
      ConcatAssoc(front, Gone(vec, len), Flatten(cs));
      NothingBefore(Flatten(cs));
      msgp := CatMsg(newmsg, msg);
      FreedLate(n, n2, Now(), newmsg, msg);
      HandlesOne(n.parts.msgs.Keys, parts.msgs.Keys, newmsg, msg, msgp);
    }

    /** to_ncp's loop: pieces of the vector go into a new message, until what is left fits in front. */
    method Pieces(vec: seq<Byte>, msg: Addr) returns (ok: bool, newmsg: Addr, len: nat)
      requires Valid() && (msg == 0 || msg in parts.msgs)
      modifies this
      ensures Valid() && Bases(Now()) == old(Bases(Now())) && OthersKept(old(mem), old(parts), mem, parts, {})
      ensures Msg(msg) == old(Msg(msg)) && (msg == 0 || msg in parts.msgs)
      ensures ok <==> Wanted(|vec|, FrontRoom(old(Msg(msg)))) <= old(Stock(Now()))
      ensures !ok ==> parts.msgs.Keys == old(parts).msgs.Keys
      ensures ok ==> newmsg == 0 || (newmsg in parts.msgs && newmsg !in old(parts).msgs)
      ensures ok ==> parts.msgs.Keys == old(parts).msgs.Keys + (if newmsg == 0 then {} else {newmsg})
      ensures ok ==> len <= |vec| && Flatten(Msg(newmsg)) + Gone(vec, len) == Gone(vec, |vec|)
      ensures ok && len > 0 ==> msg in parts.msgs && msg in mem && mem[msg].qlink in mem
      ensures ok && len > 0 ==> len + mem[mem[msg].qlink].len <= NET_B_SIZE
      ensures ok && len == |vec| ==> newmsg == 0
      ensures ok && newmsg == 0 ==> len == |vec|
    {
      hide Inv, OthersKept, Bases, Chunks, Flatten, Gone, Fill, Stock, Wanted, FrontRoom, LastRaw, FullEnd;
      ghost var n := Now();
      ghost var cs := Msg(msg);
      ghost var room := FrontRoom(cs);
      NullNotMsg(n);
      KeptSelf(n);
      StockIff(n);
      RoomOf(n, msg);
      WantedNone(room);
      ok, newmsg, len := true, 0, |vec|;
      GoneStart(vec);
      while len > 0
        invariant Valid() && Bases(Now()) == Bases(n) && OthersKept(n.mem, n.parts, mem, parts, {}) && ok
        invariant Msg(msg) == cs && (msg == 0 || msg in parts.msgs)
        invariant newmsg == 0 || (newmsg in parts.msgs && newmsg !in n.parts.msgs)
        invariant parts.msgs.Keys == n.parts.msgs.Keys + (if newmsg == 0 then {} else {newmsg})
        invariant len <= |vec| && Flatten(Msg(newmsg)) + Gone(vec, len) == Gone(vec, |vec|)
        invariant newmsg == 0 <==> len == |vec|
        invariant newmsg != 0 && len > 0 ==> FullEnd(Msg(newmsg)) && !LastRaw(Now(), newmsg)
        invariant Stock(n) - Stock(Now()) == Wanted(|vec|, room) - Wanted(len, room) && Stock(Now()) >= 0
      {
        RoomOf(Now(), msg);
        if msg != 0 {
          FirstChunk(Now(), msg);
          LastChunk(Now(), msg);
          if len + mem[mem[msg].qlink].len <= NET_B_SIZE {
            WantedFits(len, room);
            return;
          }
        }
        var l := if len < NET_B_SIZE then len else NET_B_SIZE;
        WantedStep(len, room);
        GonePiece(vec, len);
        ghost var bs := Flatten(Msg(newmsg));
        ok, newmsg := OnePiece(vec[..l], newmsg, msg, n);
        if !ok {
          return;
        }
        NullNotMsg(Now());
        ConcatAssoc(bs, vec[..l], Gone(vec, len - l));
        len := len - l;
      }
    }

    /** One turn of to_ncp's loop; a message that cannot be gone on with is freed. */
    method OnePiece(bs: seq<Byte>, newmsg: Addr, msg: Addr, ghost n: Net) returns (ok: bool, newmsg': Addr)
      requires Valid() && OthersKept(n.mem, n.parts, mem, parts, {}) && Bases(Now()) == Bases(n) && bs != []
      requires newmsg == 0 || (newmsg in parts.msgs && newmsg !in n.parts.msgs)
      requires parts.msgs.Keys == n.parts.msgs.Keys + (if newmsg == 0 then {} else {newmsg})
      requires (msg == 0 || msg in n.parts.msgs) && 0 !in n.parts.msgs && |bs| <= NET_B_SIZE
      requires newmsg != 0 ==> FullEnd(Msg(newmsg)) && !LastRaw(Now(), newmsg)
      modifies this
      ensures Valid() && OthersKept(n.mem, n.parts, mem, parts, {}) && Bases(Now()) == Bases(n)
      ensures Msg(msg) == old(Msg(msg)) && (ok <==> old(Stock(Now())) > 0)
      ensures ok ==> Stock(Now()) == old(Stock(Now())) - 1 && !LastRaw(Now(), newmsg')
      ensures ok && |bs| == NET_B_SIZE ==> FullEnd(Msg(newmsg'))
      ensures !ok ==> parts.msgs.Keys == n.parts.msgs.Keys
      ensures ok ==> newmsg' in parts.msgs && newmsg' !in n.parts.msgs
      ensures ok ==> parts.msgs.Keys == n.parts.msgs.Keys + {newmsg'}
      ensures ok ==> Flatten(Msg(newmsg')) == Flatten(old(Msg(newmsg))) + bs
    {
      hide Inv, OthersKept, Bases, Chunks, Flatten, Fill, Stock, CanAppend;
      ghost var n1 := Now();
      ghost var cs := Msg(newmsg);
      NullNotMsg(n1);
      FreeFacts(n1);
      var left;
      newmsg', left := VecToMsg(bs, newmsg);
      ghost var n2 := Now();
      NullNotMsg(n2);
      FreeFacts(n2);
      PieceTakesOne(n1, n2, cs, bs, left, newmsg', Msg(newmsg'));
      OthersTrans(n, n1, n2, {}, {newmsg});
      if msg != 0 { OthersMsg(n1, n2, {newmsg}, msg); }
      ok := left == 0;
      if !ok {
        GiveUp(newmsg', msg, n);
      } else {
        assert bs[..|bs| - left] == bs;
      }
    }

    method GiveUp(newmsg: Addr, msg: Addr, ghost n: Net)
      requires Valid() && OthersKept(n.mem, n.parts, mem, parts, {}) && Bases(Now()) == Bases(n)
      requires newmsg == 0 || (newmsg in parts.msgs && newmsg !in n.parts.msgs)
      requires parts.msgs.Keys == n.parts.msgs.Keys + (if newmsg == 0 then {} else {newmsg})
      requires (msg == 0 || msg in n.parts.msgs) && 0 !in n.parts.msgs
      modifies this
      ensures Valid() && OthersKept(n.mem, n.parts, mem, parts, {}) && Bases(Now()) == Bases(n)
      ensures Msg(msg) == old(Msg(msg)) && parts.msgs.Keys == n.parts.msgs.Keys
    {
      hide Inv, OthersKept, Bases, Chunks;
      ghost var n2 := Now();
      FreeMsg(newmsg);
      OthersTrans(n, n2, Now(), {}, {newmsg});
      NullNotMsg(Now());
      if msg != 0 { OthersMsg(n2, Now(), {newmsg}, msg); }
    }

    /**
     ncpio.c to_ncp, for a running daemon: the vector, or what the loop makes of it, goes in front of
     the message and both go to the end of the daemon's queue `q`.  When a buffer is needed and none is
     to be had, nothing has happened yet.
     */
    method ToNcp(vec: seq<Byte>, msg: Addr, q: Addr) returns (ok: bool, q': Addr)
      requires Valid() && (vec != [] || msg != 0)
      requires (msg == 0 || msg in parts.msgs) && (q == 0 || q in parts.msgs) && (msg == 0 || msg != q)
      modifies this
      ensures Valid() && Bases(Now()) == old(Bases(Now()))
      ensures OthersKept(old(mem), old(parts), mem, parts, {msg, q})
      ensures ok <==> Wanted(|vec|, FrontRoom(old(Msg(msg)))) <= old(Stock(Now()))
      ensures !ok ==> parts.msgs.Keys == old(parts).msgs.Keys && q' == q
      ensures !ok ==> Msg(q) == old(Msg(q)) && Msg(msg) == old(Msg(msg))
      ensures ok ==> Flatten(Msg(q')) == Flatten(old(Msg(q))) + (Gone(vec, |vec|) + Flatten(old(Msg(msg))))
      ensures ok ==> (Gone(vec, |vec|) == vec <==> Repeats(vec))
      ensures ok ==> |old(Msg(q))| < |Msg(q')| && Msg(q')[..|old(Msg(q))|] == old(Msg(q))
      ensures ok ==> q' in parts.msgs && q' in mem && mem[q'].eom
      ensures ok ==> parts.msgs.Keys == old(parts).msgs.Keys - {msg, q} + {q'}
    {
      hide Inv, OthersKept, Bases, Chunks, Flatten, Gone, Stock, Wanted, FrontRoom;
      ghost var n := Now();
      ghost var qs := Msg(q);
      GoneIff(vec);
      NullNotMsg(n);
      q' := q;
      var msgp;
      ok, msgp := Prefixed(vec, msg);
      ghost var n1 := Now();
      NullNotMsg(n1);
      Others2(n, n1, {msg}, {msg, q});
      if q != 0 {
        OthersMsg(n, n1, {msg}, q);
      }
      if !ok {
        return;
      }
      ghost var ms := Msg(msgp);
      MsgNonEmpty(n1, msgp);
      q' := msgp;
      if q == 0 {
        LastChunk(n1, msgp);
        MarkEnd(msgp);
        FlattenNone();
        assert [] + Flatten(ms) == Flatten(ms);
      } else {
        Enqueue(msgp, q);
        FlattenConcat(qs, ms);
      }
      OthersGrown(n, n1, Now(), msg, q, msgp);
      assert parts.msgs.Keys == n.parts.msgs.Keys - {msg, q} + {q'};
    }

    // ncpio.c to_ncp: mark the end and link last to first
    method Enqueue(msgp: Addr, q: Addr)
      requires Valid() && msgp in parts.msgs && q in parts.msgs && msgp != q
      modifies this`mem, this`parts
      ensures Valid() && Bases(Now()) == old(Bases(Now()))
      ensures OthersKept(old(mem), old(parts), mem, parts, {msgp, q})
      ensures msgp in parts.msgs && parts.msgs.Keys == old(parts).msgs.Keys - {q}
      ensures Msg(msgp) == old(Msg(q)) + old(Msg(msgp))
      ensures msgp in mem && mem[msgp].eom
    {
      hide Inv, OthersKept, Bases, Chunks;
      ghost var n := Now();
      LastChunk(n, msgp);
      MarkEnd(msgp);
      ghost var n1 := Now();
      OthersMsg(n, n1, {msgp}, q);
      Others2(n, n1, {msgp}, {msgp, q});
      LinkEnds(q, msgp);
      Others2(n1, Now(), {q, msgp}, {msgp, q});
      OthersTrans(n, n1, Now(), {msgp, q}, {msgp, q});
    }
  }
}
