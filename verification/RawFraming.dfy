/**
 Raw-message framing (ncpkernel/rawmain.c).  Messages from the IMP are queued on a socket as one
 ring of netbufs, each message led by its own length in two bytes.  catmsg packs several messages
 into one buffer and bytesout cuts buffers up; the reader finds the next length by looking at the
 first two bytes of the first buffer.  This works because no length word ever straddles two buffers.
 */
module RawFraming {
  import opened NetChunks
  import opened NetRings
  import opened NetInv
  import NP = NetPool

  const MAXMSG: nat := 1008 + 12
  const RAWPAD: nat := 4

  type Message = seq<Byte>

  /** A PDP-11 word: low byte first. */
  function Word(lo: Byte, hi: Byte): nat { lo as nat + 256 * (hi as nat) }

  /** A message as rawhh leaves it: its first word is its length, that word included. */
  ghost predicate Proper(m: Message) {
    2 <= |m| && Word(m[0], m[1]) == |m|
  }

  ghost function Concat(ms: seq<Message>): seq<Byte> {
    if ms == [] then [] else ms[0] + Concat(ms[1..])
  }

  lemma {:induction false} ConcatAppend(ms: seq<Message>, m: Message)
    ensures Concat(ms + [m]) == Concat(ms) + m
  {
    if ms == [] {
      assert [m][1..] == [];
    } else {
      assert (ms + [m])[1..] == ms[1..] + [m];
      ConcatAppend(ms[1..], m);
    }
  }

  /** The two bytes at offset `o` of the message lie in one buffer. */
  ghost predicate WordWhole(cs: seq<Chunk>, o: nat)
    decreases |cs|
  {
    cs != [] && if o < |cs[0]| then o + 2 <= |cs[0]| else WordWhole(cs[1..], o - |cs[0]|)
  }

  /** So do all the length words of `ms`, which start at offset `o`. */
  ghost predicate Framed(cs: seq<Chunk>, o: nat, ms: seq<Message>)
    decreases |ms|
  {
    ms != [] ==> WordWhole(cs, o) && Framed(cs, o + |ms[0]|, ms[1..])
  }

  ghost predicate NonEmptyButLast(cs: seq<Chunk>) {
    forall i :: 0 <= i < |cs| - 1 ==> cs[i] != []
  }

  lemma {:induction false} WordWholeDrop(cs: seq<Chunk>, o: nat, k: nat)
    requires WordWhole(cs, o) && k <= o
    ensures WordWhole(Drop(cs, k), o - k)
    decreases |cs|
  {
    if k == 0 {
    } else if k < |cs[0]| {
      assert ([cs[0][k..]] + cs[1..])[1..] == cs[1..];
    } else {
      WordWholeDrop(cs[1..], o - |cs[0]|, k - |cs[0]|);
    }
  }

  lemma {:induction false} FramedDrop(cs: seq<Chunk>, o: nat, ms: seq<Message>, k: nat)
    requires Framed(cs, o, ms) && k <= o
    ensures Framed(Drop(cs, k), o - k, ms)
    decreases |ms|
  {
    if ms != [] {
      WordWholeDrop(cs, o, k);
      FramedDrop(cs, o + |ms[0]|, ms[1..], k);
    }
  }

  lemma {:induction false} NonEmptyDrop(cs: seq<Chunk>, k: nat)
    requires NonEmptyButLast(cs)
    ensures NonEmptyButLast(Drop(cs, k))
    decreases |cs|
  {
    if cs == [] || k == 0 || k < |cs[0]| {
    } else {
      NonEmptyDrop(cs[1..], k - |cs[0]|);
    }
  }

  lemma {:induction false} WordWholeConcat(c1: seq<Chunk>, c2: seq<Chunk>, o: nat)
    ensures WordWhole(c1, o) ==> WordWhole(c1 + c2, o)
    ensures o >= |Flatten(c1)| && WordWhole(c2, o - |Flatten(c1)|) ==> WordWhole(c1 + c2, o)
    decreases |c1|
  {
    if c1 == [] {
      assert c1 + c2 == c2;
    } else {
      assert (c1 + c2)[1..] == c1[1..] + c2;
      if o >= |c1[0]| {
        WordWholeConcat(c1[1..], c2, o - |c1[0]|);
      }
    }
  }

  lemma {:induction false} WordWholeAdd(c1: seq<Chunk>, bs: seq<Byte>, o: nat)
    requires c1 != []
    ensures WordWhole(c1, o) ==> WordWhole(AddToLast(c1, bs), o)
    ensures o == |Flatten(c1)| && |bs| >= 2 ==> WordWhole(AddToLast(c1, bs), o)
    decreases |c1|
  {
    if |c1| == 1 {
      assert c1 == [c1[0]];
      FlattenOne(c1[0]);
      assert AddToLast(c1, bs) == [c1[0] + bs];
      assert c1[1..] == [] && !WordWhole(c1[1..], o);
      assert o >= |c1[0]| ==> !WordWhole(c1[1..], o - |c1[0]|);
    } else {
      assert AddToLast(c1, bs)[1..] == AddToLast(c1[1..], bs);
      assert AddToLast(c1, bs)[0] == c1[0];
      if o >= |c1[0]| {
        WordWholeAdd(c1[1..], bs, o - |c1[0]|);
      }
    }
  }

  /** catmsg never splits a length word: those queued stay whole... */
  lemma {:induction false} WordWholeCat(c1: seq<Chunk>, c2: seq<Chunk>, o: nat)
    requires WordWhole(c1, o)
    ensures WordWhole(Cat(c1, c2), o)
    decreases |c2|
  {
    if c2 == [] || c1 == [] {
    } else if |c1[|c1| - 1]| + |c2[0]| <= NET_B_SIZE {
      WordWholeAdd(c1, c2[0], o);
      WordWholeCat(AddToLast(c1, c2[0]), c2[1..], o);
    } else {
      WordWholeConcat(c1, c2, o);
    }
  }

  /** ...and so is the one at the head of the message added. */
  lemma NewWordWhole(c1: seq<Chunk>, c2: seq<Chunk>)
    requires c2 != [] && |c2[0]| >= 2
    ensures WordWhole(Cat(c1, c2), |Flatten(c1)|)
  {
    if c1 == [] {
    } else if |c1[|c1| - 1]| + |c2[0]| <= NET_B_SIZE {
      WordWholeAdd(c1, c2[0], |Flatten(c1)|);
      WordWholeCat(AddToLast(c1, c2[0]), c2[1..], |Flatten(c1)|);
    } else {
      WordWholeConcat(c1, c2, |Flatten(c1)|);
    }
  }

  lemma {:induction false} FramedCat(c1: seq<Chunk>, c2: seq<Chunk>, o: nat, ms: seq<Message>, m: Message)
    requires Framed(c1, o, ms) && o + |Concat(ms)| == |Flatten(c1)|
    requires c2 != [] && |c2[0]| >= 2
    ensures Framed(Cat(c1, c2), o, ms + [m])
    decreases |ms|
  {
    if ms == [] {
      NewWordWhole(c1, c2);
      assert [m][1..] == [];
    } else {
      WordWholeCat(c1, c2, o);
      assert (ms + [m])[1..] == ms[1..] + [m];
      FramedCat(c1, c2, o + |ms[0]|, ms[1..], m);
    }
  }

  lemma {:induction false} NonEmptyCat(c1: seq<Chunk>, c2: seq<Chunk>)
    requires NonEmptyButLast(c1) && NonEmptyButLast(c2) && Sized(c2)
    requires c2 != [] ==> c2[0] != []
    ensures NonEmptyButLast(Cat(c1, c2))
    decreases |c2|
  {
    if c2 == [] || c1 == [] {
    } else if |c1[|c1| - 1]| + |c2[0]| <= NET_B_SIZE {
      if |c2| > 1 && c2[1] == [] {
        assert c2[1..] == [c2[1]];
        MergeEmpty(AddToLast(c1, c2[0]), c2[1..]);
      } else {
        NonEmptyCat(AddToLast(c1, c2[0]), c2[1..]);
      }
    } else {
      assert forall i :: 0 <= i < |c1| ==> c1[i] != [];
    }
  }

  /** A trailing empty buffer is always absorbed. */
  lemma MergeEmpty(c: seq<Chunk>, e: seq<Chunk>)
    requires c != [] && NonEmptyButLast(c) && |e| == 1 && e[0] == []
    ensures NonEmptyButLast(Cat(c, e))
  {
    assert e[1..] == [];
  }

  /**
   The queue of a socket: the bytes of its ring are what is left of the message being read, then the
   messages waiting, whole; every waiting length word lies in one buffer; v_bytes and v_qtotal count.
   */
  ghost predicate Queue(cs: seq<Chunk>, cur: seq<Byte>, ms: seq<Message>, vbytes: int, qtotal: int) {
    && Flatten(cs) == cur + Concat(ms)
    && vbytes == |cur| && qtotal == |Flatten(cs)|
    && Framed(cs, |cur|, ms) && NonEmptyButLast(cs) && Sized(cs)
    && forall i :: 0 <= i < |ms| ==> Proper(ms[i])
  }

  /** rawstrat: a message goes to the end of the queue. */
  lemma QueueAdd(cs: seq<Chunk>, cur: seq<Byte>, ms: seq<Message>, vbytes: int, qtotal: int, c2: seq<Chunk>, m: Message)
    requires Queue(cs, cur, ms, vbytes, qtotal)
    requires Proper(m) && Flatten(c2) == m && c2 != [] && |c2[0]| >= 2 && NonEmptyButLast(c2) && Sized(c2)
    ensures Queue(Cat(cs, c2), cur, ms + [m], vbytes, qtotal + |m|)
  {
    hide Flatten, Cat, WordWhole, Framed;
    CatConcatenates(cs, c2);
    ConcatAppend(ms, m);
    assert (cur + Concat(ms)) + m == cur + (Concat(ms) + m);
    FramedCat(cs, c2, |cur|, ms, m);
    NonEmptyCat(cs, c2);
  }

  /** rawread within a message: at most what is left of it is taken. */
  lemma QueueTake(cs: seq<Chunk>, cur: seq<Byte>, ms: seq<Message>, vbytes: int, qtotal: int, k: nat)
    requires Queue(cs, cur, ms, vbytes, qtotal) && k <= |cur|
    ensures Queue(Drop(cs, k), cur[k..], ms, vbytes - k, qtotal - k)
    ensures k <= |Flatten(cs)| && Flatten(cs)[..k] == cur[..k]
  {
    hide Flatten, Drop, WordWhole, Framed;
    DropRemovesPrefix(cs, k);
    FramedDrop(cs, |cur|, ms, k);
    NonEmptyDrop(cs, k);
  }

  /** At a message boundary the first two bytes of the first buffer are the next message's length. */
  lemma NextLength(cs: seq<Chunk>, ms: seq<Message>, qtotal: int)
    requires Queue(cs, [], ms, 0, qtotal) && ms != []
    ensures cs != [] && |cs[0]| >= 2 && Word(cs[0][0], cs[0][1]) == |ms[0]| <= qtotal
    ensures Queue(cs, ms[0], ms[1..], |ms[0]|, qtotal)
  {
    assert Flatten(cs) == ms[0] + Concat(ms[1..]);
    assert Flatten(cs)[0] == ms[0][0] && Flatten(cs)[1] == ms[0][1];
    assert WordWhole(cs, 0);
    FrontNotEmpty(cs);
    assert Flatten(cs)[0] == cs[0][0] && Flatten(cs)[1] == cs[0][1];
  }

  lemma FrontNotEmpty(cs: seq<Chunk>)
    requires NonEmptyButLast(cs) && Flatten(cs) != []
    ensures cs != [] && cs[0] != []
  {
    assert |cs| == 1 ==> cs[1..] == [] && Flatten(cs) == cs[0];
  }

  lemma NoMessages(cs: seq<Chunk>, cur: seq<Byte>, ms: seq<Message>, vbytes: int, qtotal: int)
    requires Queue(cs, cur, ms, vbytes, qtotal)
    ensures qtotal == 0 <==> cur == [] && ms == []
  {
    if ms != [] {
      assert Proper(ms[0]);
    }
  }

  lemma EmptyQueue()
    ensures Queue([], [], [], 0, 0)
  {
  }

  ghost predicate TooLong(ms: seq<Message>) {
    ms != [] && |ms[0]| > MAXMSG + RAWPAD
  }

  /**
   One read of `u` bytes: they come from one message only, the one being read or, that being
   finished, the next; when its last byte goes the whole message counts as done.
   */
  ghost predicate HandedOver(u: nat, out: seq<Byte>, cur: seq<Byte>, ms: seq<Message>, taken: seq<Byte>,
                             done: seq<Message>, cur': seq<Byte>, ms': seq<Message>, taken': seq<Byte>,
                             done': seq<Message>)
  {
    var m := if cur != [] then cur else if ms != [] then ms[0] else [];
    && ms' == (if cur == [] && ms != [] then ms[1..] else ms)
    && out + cur' == m && |out| == Min(u, |m|)
    && (m == [] ==> done' == done)
    && (m != [] && cur' == [] ==> done' == done + [taken + m])
    && (m != [] && cur' != [] ==> done' == done && taken' == taken + out)
  }

  class RawSkt {
    const pool: NP.NetPool
    var msgq: Addr       // v_msgq
    var qtotal: int      // v_qtotal
    var vbytes: int      // v_bytes
    ghost var cur: seq<Byte>       // what is left of the message being read
    ghost var waiting: seq<Message>
    ghost var taken: seq<Byte>     // what has been read of it
    ghost var done: seq<Message>   // the messages read to the end
    ghost var queued: seq<Message> // all that were ever queued

    ghost predicate Valid()
      reads this, pool
    {
      && pool.Valid() && (msgq == 0 || msgq in pool.parts.msgs)
      && Queue(pool.Msg(msgq), cur, waiting, vbytes, qtotal)
      && queued == done + (if taken + cur == [] then [] else [taken + cur]) + waiting
      && (cur == [] ==> taken == [])
    }

    constructor (p: NP.NetPool)
      requires p.Valid()
      ensures Valid() && pool == p && queued == [] && msgq == 0
    {
      hide Inv, Queue, Chunks;
      pool, msgq, qtotal, vbytes := p, 0, 0, 0;
      cur, waiting, taken, done, queued := [], [], [], [], [];
      new;
      NullNotMsg(pool.Now());
      EmptyQueue();
    }

    // rawmain.c rawstrat, for a socket that is open
    method Strat(impiMsg: Addr, impiMlen: int, ghost m: Message)
      requires Valid() && impiMsg in pool.parts.msgs && impiMsg != msgq
      requires Proper(m) && Flatten(pool.Msg(impiMsg)) == m && impiMlen == |m|
      requires |pool.Msg(impiMsg)| > 0 && |pool.Msg(impiMsg)[0]| >= 2 && NonEmptyButLast(pool.Msg(impiMsg))
      modifies this, pool
      ensures Valid() && queued == old(queued) + [m] && done == old(done) && taken == old(taken)
      ensures cur == old(cur) && waiting == old(waiting) + [m]
      ensures pool.parts.msgs.Keys == old(pool.parts).msgs.Keys - {old(msgq), impiMsg} + {msgq}
      ensures OthersKept(old(pool.mem), old(pool.parts), pool.mem, pool.parts, {old(msgq), impiMsg})
    {
      hide Inv, Queue, OthersKept, Bases, Chunks, Flatten, NonEmptyButLast;
      ghost var n := pool.Now();
      ghost var cs, c2 := pool.Msg(msgq), pool.Msg(impiMsg);
      NullNotMsg(n);
      ChunksSized(n, impiMsg);
      QueueAdd(cs, cur, waiting, vbytes, qtotal, c2, m);
      msgq := pool.CatMsg(msgq, impiMsg);
      qtotal := qtotal + impiMlen;
      waiting := waiting + [m];
      queued := queued + [m];
    }

    /**
     rawmain.c rawread, for an open raw socket and a count that is not zero.  What is handed over is
     the next bytes of one message; a message too long to be read empties the queue.
     */
    method Read(ucount: nat) returns (out: seq<Byte>, error: bool)
      requires Valid() && ucount > 0
      modifies this, pool
      ensures Valid()
      ensures OthersKept(old(pool.mem), old(pool.parts), pool.mem, pool.parts, {old(msgq)})
      ensures msgq == 0 || msgq == old(msgq)
      ensures error <==> old(cur) == [] && TooLong(old(waiting))
      ensures error ==> out == [] && cur == [] && waiting == [] && msgq == 0 && queued == done == old(done)
      ensures !error ==> queued == old(queued)
      ensures !error ==>
        HandedOver(ucount, out, old(cur), old(waiting), old(taken), old(done), cur, waiting, taken, done)
    {
      hide Inv, Queue, OthersKept, Bases, Chunks, Flatten, Drop, Proper;
      ghost var n := pool.Now();
      KeptExcept(n, {msgq});
      QueueFacts(pool.Msg(msgq), cur, waiting, vbytes, qtotal);
      NoMessages(pool.Msg(msgq), cur, waiting, vbytes, qtotal);
      out, error := [], false;
      if qtotal == 0 {
        return;
      }
      if vbytes == 0 {
        error := NextMessage();
        if error {
          return;
        }
      }
      out := Part(ucount);
    }

    // rawmain.c rawread, starting a new message: find its length, or flush if it makes no sense
    method NextMessage() returns (error: bool)
      requires Valid() && vbytes == 0 && qtotal != 0
      modifies this, pool
      ensures old(cur) == [] && old(waiting) != []
      ensures Valid() && OthersKept(old(pool.mem), old(pool.parts), pool.mem, pool.parts, {old(msgq)})
      ensures error <==> |old(waiting)[0]| > MAXMSG + RAWPAD
      ensures error ==> cur == [] && waiting == [] && msgq == 0 && queued == done == old(done)
      ensures !error ==>
          pool.Now() == old(pool.Now()) && msgq == old(msgq) && queued == old(queued) && done == old(done)
      ensures !error ==>
          cur == old(waiting)[0] && cur != [] && waiting == old(waiting)[1..] && taken == old(taken) == []
    {
      hide Inv, Queue, OthersKept, Bases, Chunks, Flatten, Drop, Proper;
      ghost var n := pool.Now();
      KeptExcept(n, {msgq});
      NullNotMsg(n);
      var amt := Peek();
      error := amt < 2 || amt > MAXMSG + RAWPAD || amt > qtotal;
      if error {
        Flush();
      } else {
        vbytes := amt;
        NextWhole(queued, done, taken, waiting);
        cur, waiting := waiting[0], waiting[1..];
      }
    }

    // rawmain.c rawread, of a length that makes no sense: everything queued goes
    method Flush()
      requires Valid() && cur == [] && vbytes == 0
      modifies this, pool
      ensures Valid() && OthersKept(old(pool.mem), old(pool.parts), pool.mem, pool.parts, {old(msgq)})
      ensures cur == [] && waiting == [] && msgq == 0 && queued == done == old(done)
    {
      hide Inv, Queue, OthersKept, Bases, Chunks, Flatten, Drop, Proper;
      QueueFacts(pool.Msg(msgq), cur, waiting, vbytes, qtotal);
      qtotal := 0;
      pool.FreeMsg(msgq);
      msgq := 0;
      NullNotMsg(pool.Now());
      EmptyQueue();
      cur, waiting, taken, queued := [], [], [], done;
    }

    // rawmain.c rawread: some of the current message goes to the user
    method Part(ucount: nat) returns (out: seq<Byte>)
      requires Valid() && ucount > 0 && cur != []
      modifies this, pool
      ensures Valid() && OthersKept(old(pool.mem), old(pool.parts), pool.mem, pool.parts, {old(msgq)})
      ensures queued == old(queued) && waiting == old(waiting) && (msgq == 0 || msgq == old(msgq))
      ensures out == old(cur)[..Min(ucount, |old(cur)|)] && cur == old(cur)[Min(ucount, |old(cur)|)..]
      ensures cur == [] ==> done == old(done) + [old(taken) + old(cur)]
      ensures cur != [] ==> done == old(done) && taken == old(taken) + out
    {
      hide Inv, Queue, OthersKept, Bases, Chunks, Flatten, Drop, Proper;
      QueueFacts(pool.Msg(msgq), cur, waiting, vbytes, qtotal);
      ghost var m := cur;
      var amt := if ucount < vbytes then ucount else vbytes;
      out := Take(amt);
      ghost var all := taken + m;
      cur := m[amt..];
      assert out + cur == m;
      if cur == [] {
        assert out == m;
        done, taken := done + [all], [];
        assert taken + cur == [];
        assert done + [] == done;
      } else {
        taken := taken + out;
        assert taken + cur == all;
      }
    }

    // rawmain.c rawread: the length of the next message, from its first buffer
    method Peek() returns (amt: int)
      requires Valid() && vbytes == 0 && qtotal != 0
      ensures cur == [] && waiting != [] && amt == |waiting[0]| && 2 <= amt <= qtotal
      ensures Queue(pool.Msg(msgq), waiting[0], waiting[1..], |waiting[0]|, qtotal)
    {
      hide Inv, Queue, Chunks, Flatten;
      ghost var n := pool.Now();
      ghost var cs := pool.Msg(msgq);
      QueueFacts(cs, cur, waiting, vbytes, qtotal);
      NoMessages(cs, cur, waiting, vbytes, qtotal);
      NextLength(cs, waiting, qtotal);
      FirstChunk(n, msgq);
      ChunksLength(n.mem, n.parts.msgs[msgq]);
      var nb := pool.mem[msgq].qlink;
      var d := pool.mem[nb].data;
      assert d[..pool.mem[nb].len][0] == d[0] && d[..pool.mem[nb].len][1] == d[1];
      amt := Word(d[0], d[1]);
    }

    // rawmain.c rawread: bytesout and the two counts
    method Take(amt: nat) returns (out: seq<Byte>)
      requires pool.Valid() && (msgq == 0 || msgq in pool.parts.msgs) && amt <= vbytes
      requires Queue(pool.Msg(msgq), cur, waiting, vbytes, qtotal)
      modifies this`msgq, this`qtotal, this`vbytes, pool
      ensures pool.Valid() && (msgq == 0 || msgq in pool.parts.msgs)
      ensures OthersKept(old(pool.mem), old(pool.parts), pool.mem, pool.parts, {old(msgq)})
      ensures amt <= |cur| == old(vbytes) && Queue(pool.Msg(msgq), cur[amt..], waiting, vbytes, qtotal)
      ensures out == cur[..amt] && (msgq == 0 || msgq == old(msgq))
    {
      hide Inv, Queue, OthersKept, Bases, Chunks, Flatten, Drop;
      ghost var cs := pool.Msg(msgq);
      QueueFacts(cs, cur, waiting, vbytes, qtotal);
      QueueTake(cs, cur, waiting, vbytes, qtotal, amt);
      var left;
      msgq, out, left := pool.BytesOut(msgq, amt);
      vbytes := vbytes - (amt - left);
      qtotal := qtotal - (amt - left);
    }
  }

  /** A message too long, and one of two bytes behind it: the read that fails loses both. */
  lemma LongLosesShort()
    ensures var long, short: Message := [1, 4] + seq(MAXMSG + RAWPAD - 1, _ => 0), [2, 0];
      Proper(long) && Proper(short) && TooLong([long, short]) && !TooLong([short])
  {
  }

  lemma NextWhole(queued: seq<Message>, done: seq<Message>, taken: seq<Byte>, ms: seq<Message>)
    requires ms != [] && taken == [] && queued == done + [] + ms
    ensures queued == done + [taken + ms[0]] + ms[1..]
  {
    assert ms == [ms[0]] + ms[1..] && taken + ms[0] == ms[0];
  }

  lemma QueueFacts(cs: seq<Chunk>, cur: seq<Byte>, ms: seq<Message>, vbytes: int, qtotal: int)
    requires Queue(cs, cur, ms, vbytes, qtotal)
    ensures vbytes == |cur| && qtotal == |Flatten(cs)|
    ensures forall i :: 0 <= i < |ms| ==> 2 <= |ms[i]|
  {
    hide Flatten, Framed, NonEmptyButLast, Sized;
  }
}
