/**
 How a raw message comes in from the IMP (rawlget and rawhh of ncpkernel/rawmain.c, ihbget of
 ncpkernel/impio.c): its leader and then its data, buffer after buffer, are counted, and at the end
 the length goes into the two bytes kept for it and the message to its socket.
 */
module RawInput {
  import opened NetChunks
  import opened NetRings
  import opened NetInv
  import opened RawFraming
  import NP = NetPool

  /** impi_msg and impi_mlen while a raw message comes in. */
  datatype Incoming = Incoming(msg: seq<Chunk>, mlen: int)

  /** All but the last buffer hold something, two bytes are kept in the first, and the count is right. */
  ghost predicate InProgress(a: Incoming, bytes: seq<Byte>) {
    && a.msg != [] && |a.msg[0]| >= 2 && NonEmptyButLast(a.msg) && Sized(a.msg)
    && a.mlen == |Flatten(a.msg)| == 2 + |bytes| && Flatten(a.msg)[2..] == bytes
  }

  function Bytes2(n: int): seq<Byte>
    requires 0 <= n < 65536
  {
    [(n % 256) as Byte, (n / 256) as Byte]
  }

  /** The message these bytes make: their count, its own two bytes included, and they. */
  function Whole(bytes: seq<Byte>): Message
    requires |bytes| + 2 < 65536
  {
    Bytes2(|bytes| + 2) + bytes
  }

  lemma WordOfBytes(n: int)
    requires 0 <= n < 65536
    ensures |Bytes2(n)| == 2 && Word(Bytes2(n)[0], Bytes2(n)[1]) == n
  {
  }

  /** rawlget: the leader, behind two bytes kept for the length. */
  lemma LeaderInProgress(w: seq<Byte>, leader: seq<Byte>)
    requires |w| == 2 && 2 + |leader| <= NET_B_SIZE
    ensures InProgress(Incoming([w + leader], 2 + |leader|), leader)
  {
    FlattenOne(w + leader);
  }

  /** rawhh: what the interface has put in the last buffer is counted. */
  lemma DataInProgress(a: Incoming, bytes: seq<Byte>, bs: seq<Byte>)
    requires InProgress(a, bytes) && |a.msg[|a.msg| - 1]| + |bs| <= NET_B_SIZE
    ensures InProgress(Incoming(AddToLast(a.msg, bs), a.mlen + |bs|), bytes + bs)
  {
    AddToLastBytes(a.msg, bs);
    assert (Flatten(a.msg) + bs)[2..] == Flatten(a.msg)[2..] + bs;
  }

  /** ihbget: a full buffer is followed by an empty one. */
  lemma BufferInProgress(a: Incoming, bytes: seq<Byte>)
    requires InProgress(a, bytes) && |a.msg[|a.msg| - 1]| == NET_B_SIZE
    ensures InProgress(a.(msg := a.msg + [[]]), bytes)
  {
    FlattenConcat(a.msg, [[]]);
    FlattenOne([]);
    assert Flatten(a.msg) + [] == Flatten(a.msg);
  }

  /** With its length written in, the message is fit to be queued. */
  lemma SealedIsWhole(a: Incoming, bytes: seq<Byte>)
    requires InProgress(a, bytes) && a.mlen < 65536
    ensures var cs := a.msg[0 := Bytes2(a.mlen) + a.msg[0][2..]];
      && Flatten(cs) == Whole(bytes) && Proper(Whole(bytes)) && |Whole(bytes)| == a.mlen
      && cs != [] && |cs[0]| >= 2 && NonEmptyButLast(cs)
  {
    hide Bytes2, Word;
    var w := Bytes2(a.mlen);
    WordOfBytes(a.mlen);
    SealedBytes(a.msg, w);
    assert Whole(bytes)[0] == w[0] && Whole(bytes)[1] == w[1];
  }

  lemma SealedBytes(cs: seq<Chunk>, w: seq<Byte>)
    requires cs != [] && |cs[0]| >= 2 && |w| == 2
    ensures |Flatten(cs)| >= 2 && Flatten(cs[0 := w + cs[0][2..]]) == w + Flatten(cs)[2..]
  {
    assert cs[0 := w + cs[0][2..]][1..] == cs[1..];
    assert (cs[0] + Flatten(cs[1..]))[2..] == cs[0][2..] + Flatten(cs[1..]);
  }

  /** A raw buffer is to be had: the limit is not reached, and getbuf need not sleep. */
  ghost predicate RawToHave(n: Net) {
    n.rbufCount < RBUF_MAX && CanGet(n)
  }

  class RawIn {
    const pool: NP.NetPool
    const skt: RawSkt
    var impiMsg: Addr
    var impiMlen: int
    var impiFlush: bool
    ghost var bytes: seq<Byte> // the leader and data taken in so far

    ghost predicate Valid()
      reads this, skt, skt.pool
    {
      && skt.pool == pool && skt.Valid()
      && (impiMsg != 0 ==> impiMsg in pool.parts.msgs && impiMsg != skt.msgq)
      && (impiMsg != 0 && !impiFlush ==>
            InProgress(Incoming(pool.Msg(impiMsg), impiMlen), bytes) && LastRaw(pool.Now(), impiMsg))
    }

    constructor (p: NP.NetPool, s: RawSkt)
      requires s.Valid() && s.pool == p
      ensures Valid() && pool == p && skt == s && impiMsg == 0 && !impiFlush
    {
      pool, skt, impiMsg, impiMlen, impiFlush, bytes := p, s, 0, 0, false, [];
    }

    /** rawlget, of what was read as the leader; with no buffer for it, what follows of the message is flushed. */
    method LeaderIn(leader: seq<Byte>, endmsg: bool) returns (got: bool)
      requires Valid() && impiMsg == 0
      modifies this, pool
      ensures Valid()
      ensures got <==> 2 + |leader| <= NET_B_SIZE && RawToHave(old(pool.Now()))
      ensures got ==> impiMsg != 0 && impiMsg !in old(pool.parts.msgs)
      ensures got ==> pool.parts.msgs == old(pool.parts.msgs)[impiMsg := [impiMsg]]
      ensures got ==> bytes == leader && impiFlush == old(impiFlush)
      ensures !got ==> impiMsg == 0 && pool.parts.msgs == old(pool.parts.msgs)
      ensures !got ==> (impiFlush <==> old(impiFlush) || !endmsg || RawToHave(old(pool.Now())))
    {
      hide Inv, OthersKept, Bases, Chunks, Queue, InProgress, Flatten, Stock, CanGet;
      ghost var n := pool.Now();
      NullNotMsg(n);
      var bp := pool.RawBuf();
      SktKept({});
      if bp == 0 {
        impiFlush := impiFlush || !endmsg;
        return false;
      }
      NullNotMsg(pool.Now());
      var amt := 2 + |leader|;
      if amt > NET_B_SIZE {
        ghost var n1 := pool.Now();
        Discard(bp);
        impiFlush := true;
        return false;
      }
      label here:
      OneEmpty(pool.Now(), bp);
      pool.CopyIn(bp, Bytes2(amt) + leader);
      SktKept@here({bp});
      AddFirst(Bytes2(amt) + leader);
      LeaderInProgress(Bytes2(amt), leader);
      impiMsg, impiMlen, bytes := bp, amt, leader;
      got := true;
    }

    /**
     rawhh, of what the interface put into the space it was given: the rest of the last buffer, or the
     emergency buffer.  `open`: the socket the message is for is still open.
     */
    method DataIn(bs: seq<Byte>, endmsg: bool, open: bool)
      requires Valid() && (impiFlush || impiMsg != 0)
      requires !impiFlush ==> impiMsg in pool.mem && pool.mem[impiMsg].len + |bs| <= NET_B_SIZE
      requires !impiFlush ==> impiMlen + |bs| < 65536
      modifies this, skt, pool
      ensures Valid() && (endmsg ==> impiMsg == 0 && !impiFlush)
      ensures !endmsg ==> skt.waiting == old(skt.waiting)
      ensures !endmsg && old(impiFlush) ==> impiFlush && impiMsg == old(impiMsg) && pool.Now() == old(pool.Now())
      ensures !endmsg && !old(impiFlush) ==> impiMsg != 0 && bytes == old(bytes) + bs
      ensures !endmsg && !old(impiFlush) ==>
        (impiFlush <==> old(pool.mem[impiMsg].len) + |bs| == NET_B_SIZE && !RawToHave(old(pool.Now())))
      ensures endmsg && (old(impiFlush) || !open) ==>
        pool.parts.msgs == old(pool.parts.msgs) - {old(impiMsg)} && skt.waiting == old(skt.waiting)
      ensures endmsg && open && !old(impiFlush) ==> skt.waiting == old(skt.waiting) + [Whole(old(bytes) + bs)]
      ensures skt.cur == old(skt.cur) && skt.done == old(skt.done)
      ensures skt.queued == old(skt.queued)
        + if endmsg && open && !old(impiFlush) then [Whole(old(bytes) + bs)] else []
    {
      hide Inv, OthersKept, Bases, Chunks, Queue, InProgress, Flatten, Whole, Stock;
      if impiFlush {
        if endmsg {
          Discard(impiMsg);
          impiMsg, impiFlush := 0, false;
        }
        return;
      }
      var room := NET_B_SIZE - pool.mem[impiMsg].len;
      Count(bs);
      if endmsg {
        EndMsg(open);
      } else if |bs| == room {
        IHBGet();
      }
    }

    /** rawhh: the bytes are counted, in the message and in its last buffer. */
    method Count(bs: seq<Byte>)
      requires Valid() && !impiFlush && impiMsg != 0
      requires impiMsg in pool.mem && pool.mem[impiMsg].len + |bs| <= NET_B_SIZE
      modifies this`impiMlen, this`bytes, pool`mem
      ensures Valid() && impiMsg in pool.mem && pool.mem[impiMsg].len == old(pool.mem)[impiMsg].len + |bs|
      ensures bytes == old(bytes) + bs && impiMlen == old(impiMlen) + |bs|
    {
      hide Inv, OthersKept, Bases, Chunks, Queue, InProgress, Flatten;
      LastSpace(pool.Now(), impiMsg);
      LastHas(Incoming(pool.Msg(impiMsg), impiMlen), bytes);
      DataInProgress(Incoming(pool.Msg(impiMsg), impiMlen), bytes, bs);
      pool.CopyIn(impiMsg, bs);
      SktKept({impiMsg});
      impiMlen, bytes := impiMlen + |bs|, bytes + bs;
    }

    /** rawhh at the end: the length is written in, and the message goes to the socket, or nowhere. */
    method EndMsg(open: bool)
      requires Valid() && !impiFlush && impiMsg != 0 && impiMlen < 65536
      modifies this`impiMsg, skt, pool
      ensures Valid() && impiMsg == 0 && |bytes| + 2 < 65536
      ensures skt.queued == old(skt.queued) + if open then [Whole(bytes)] else []
      ensures skt.waiting == old(skt.waiting) + if open then [Whole(bytes)] else []
      ensures skt.cur == old(skt.cur) && skt.done == old(skt.done)
      ensures open ==>
        pool.parts.msgs.Keys == old(pool.parts.msgs).Keys - {old(skt.msgq), old(impiMsg)} + {skt.msgq}
      ensures !open ==> pool.parts.msgs == old(pool.parts.msgs) - {old(impiMsg)}
    {
      hide Inv, OthersKept, Bases, Chunks, Queue, InProgress, Flatten, Whole;
      ghost var a := Incoming(pool.Msg(impiMsg), impiMlen);
      LastHas(a, bytes);
      SealedIsWhole(a, bytes);
      pool.PutWord(impiMsg, Bytes2(impiMlen));
      SktKept({impiMsg});
      NullNotMsg(pool.Now());
      if open {
        skt.Strat(impiMsg, impiMlen, Whole(bytes));
      } else {
        Discard(impiMsg);
      }
      impiMsg := 0;
    }

    /** ihbget: another buffer, or the rest of the message is flushed. */
    method IHBGet()
      requires Valid() && !impiFlush && impiMsg != 0 && impiMsg in pool.mem && pool.mem[impiMsg].len == NET_B_SIZE
      modifies this`impiMsg, this`impiFlush, pool
      ensures Valid() && impiMsg != 0 && (impiFlush <==> !RawToHave(old(pool.Now())))
      ensures if impiFlush then impiMsg == old(impiMsg) && pool.parts.msgs == old(pool.parts.msgs)
              else pool.parts.msgs.Keys == old(pool.parts.msgs).Keys - {old(impiMsg)} + {impiMsg}
    {
      hide Inv, OthersKept, Bases, Chunks, Queue, InProgress, Flatten, Stock, CanGet;
      NullNotMsg(pool.Now());
      LastSpace(pool.Now(), impiMsg);
      BufferInProgress(Incoming(pool.Msg(impiMsg), impiMlen), bytes);
      LastHas(Incoming(pool.Msg(impiMsg), impiMlen), bytes);
      var bp := pool.AppendB(impiMsg);
      NullNotMsg(pool.Now());
      SktKept({impiMsg});
      if bp == 0 {
        impiFlush := true;
      } else {
        impiMsg := bp;
      }
    }

    /** A process reads from the socket meanwhile. */
    method Read(ucount: nat) returns (out: seq<Byte>, error: bool)
      requires Valid() && ucount > 0
      modifies skt, pool
      ensures Valid() && impiMsg == old(impiMsg) && (!error ==> skt.queued == old(skt.queued))
      ensures error <==> old(skt.cur) == [] && TooLong(old(skt.waiting))
      ensures error ==> out == [] && skt.cur == [] && skt.waiting == []
      ensures !error ==> HandedOver(ucount, out, old(skt.cur), old(skt.waiting), old(skt.taken), old(skt.done),
                                    skt.cur, skt.waiting, skt.taken, skt.done)
    {
      hide Inv, OthersKept, Bases, Chunks, Queue, InProgress, HandedOver;
      NullNotMsg(pool.Now());
      ghost var n, e := pool.Now(), skt.msgq;
      out, error := skt.Read(ucount);
      NullNotMsg(pool.Now());
      if impiMsg != 0 {
        OthersMsg(n, pool.Now(), {e}, impiMsg);
        MsgFacts(n, impiMsg);
        KeptBuf(n, pool.Now(), {e}, impiMsg);
      }
    }

    /** A message that nobody gets. */
    method Discard(h: Addr)
      requires skt.pool == pool && skt.Valid() && (h == 0 || (h in pool.parts.msgs && h != skt.msgq))
      modifies pool
      ensures skt.Valid() && pool.parts.msgs == old(pool.parts.msgs) - {h}
      ensures OthersKept(old(pool.mem), old(pool.parts), pool.mem, pool.parts, {h})
    {
      hide Inv, OthersKept, Bases, Chunks, Queue;
      NullNotMsg(pool.Now());
      pool.FreeMsg(h);
      if h == 0 {
        KeptSame(old(pool.Now()), pool.Now());
        SktKept({});
      } else {
        SktKept({h});
      }
    }

    /** What goes on elsewhere in the pool is nothing to the socket's queue. */
    twostate lemma SktKept(e: set<Addr>)
      requires old(skt.Valid()) && skt.pool == pool && pool.Valid() && unchanged(skt)
      requires OthersKept(old(pool.mem), old(pool.parts), pool.mem, pool.parts, e) && skt.msgq !in e
      ensures skt.Valid()
    {
      hide Inv, OthersKept, Queue, Chunks;
      NullNotMsg(pool.Now());
      NullNotMsg(old(pool.Now()));
      if skt.msgq != 0 {
        OthersMsg(old(pool.Now()), pool.Now(), e, skt.msgq);
      }
    }
  }

  /** A buffer just got, as a message. */
  lemma OneEmpty(n: Net, b: Addr)
    requires Inv(n) && b in n.parts.msgs && n.parts.msgs[b] == [b] && b in n.mem && n.mem[b].len == 0
    ensures Chunks(n.mem, n.parts.msgs[b]) == [[]]
  {
    hide Inv;
    LastChunk(n, b);
    ChunksLength(n.mem, [b]);
  }

  lemma AddFirst(bs: seq<Byte>)
    ensures AddToLast([[]], bs) == [bs]
  {
    assert [] + bs == bs;
  }

  lemma LastSpace(n: Net, h: Addr)
    requires Inv(n) && h in n.parts.msgs && h in n.mem
    ensures var cs := Chunks(n.mem, n.parts.msgs[h]); cs != [] && |cs[|cs| - 1]| == n.mem[h].len
  {
    hide Inv;
    LastChunk(n, h);
    ChunksLength(n.mem, n.parts.msgs[h]);
  }

  lemma LastHas(a: Incoming, bytes: seq<Byte>)
    requires InProgress(a, bytes)
    ensures a.msg != [] && |a.msg[0]| >= 2 && a.mlen == 2 + |bytes|
  {
  }

  lemma KeptSame(n: Net, n': Net)
    requires OthersKept(n.mem, n.parts, n'.mem, n'.parts, {0}) && 0 !in n.parts.msgs
    ensures OthersKept(n.mem, n.parts, n'.mem, n'.parts, {})
  {
  }
}
