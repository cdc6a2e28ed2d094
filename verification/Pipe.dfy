/**
 ken/pipe.c: pipes, with what readi and writei (ken/rdwri.c) and bdfree (dmr/bio.c) do to the two
 pages a pipe is kept in.
 */
module Pipe {
  import opened PipeEnds

  const BLKSIZE := 512

  type Byte = bv8

  /** What goes through a pipe. */
  datatype Item = Data(b: Byte) | Eof

  /** A block of the pipe: its buffer, if it has one, whether a write of it is delayed, and the disk. */
  datatype Page = Page(cached: bool, data: seq<Byte>, delwri: bool, disk: seq<Byte>)

  ghost predicate Whole(pages: seq<Page>) {
    |pages| == 2 && forall j :: 0 <= j < 2 ==> |pages[j].data| == BLKSIZE && |pages[j].disk| == BLKSIZE
  }

  /** Byte `q` of the pipe is `b`, and will be when its buffer is given to another block. */
  ghost predicate Safe(pages: seq<Page>, q: nat, b: Byte)
    requires Whole(pages) && q < PIPSIZ
  {
    var pg, o := pages[q / BLKSIZE], q % BLKSIZE;
    if pg.cached then pg.data[o] == b && (pg.delwri || pg.disk[o] == b) else pg.disk[o] == b
  }

  ghost predicate Intact(pages: seq<Page>, off: nat, pend: seq<Byte>) {
    && Whole(pages) && off + |pend| <= PIPSIZ
    && forall i :: 0 <= i < |pend| ==> Safe(pages, off + i, pend[i])
  }

  function Items(s: seq<Byte>): (r: seq<Item>)
    ensures |r| == |s| && forall i :: 0 <= i < |s| ==> r[i] == Data(s[i])
  {
    seq(|s|, i requires 0 <= i < |s| => Data(s[i]))
  }

  lemma ItemsSum(a: seq<Byte>, b: seq<Byte>)
    ensures Items(a + b) == Items(a) + Items(b)
  {
  }

  // ------------------------------------------------------------ the cache, behind the pipe's back

  /** bread: the page has a buffer. */
  function Fetched(pg: Page): Page {
    if pg.cached then pg else Page(true, pg.disk, false, pg.disk)
  }

  /** A delayed write is done, as bflush or getblk may do at any time. */
  function Written(pg: Page): (r: Page)
    ensures !Owes(r) && (Owes(pg) ==> r.disk == pg.data)
  {
    if pg.cached && pg.delwri then pg.(delwri := false, disk := pg.data) else pg
  }

  /** The buffer goes to another block, after its delayed write if it has one. */
  function Evicted(pg: Page): Page {
    Written(pg).(cached := false)
  }

  lemma CacheKeeps(pages: seq<Page>, j: nat, pg: Page, off: nat, pend: seq<Byte>)
    requires Intact(pages, off, pend) && j < 2
    requires pg == Fetched(pages[j]) || pg == Written(pages[j]) || pg == Evicted(pages[j])
    ensures Intact(pages[j := pg], off, pend)
  {
    forall i | 0 <= i < |pend| ensures Safe(pages[j := pg], off + i, pend[i]) {
      assert Safe(pages, off + i, pend[i]);
    }
  }

  /** bdfree: the page's delayed write is called off. */
  function Unneeded(pg: Page): Page {
    if pg.cached then pg.(delwri := false) else pg
  }

  /** A delayed write of the page is still to be done. */
  predicate Owes(pg: Page) {
    pg.cached && pg.delwri
  }

  /** Pages may have come in, and what pages below `k` owed is called off. */
  ghost predicate FreedBelow(was: seq<Page>, now: seq<Page>, k: nat) {
    |was| == |now| == 2 && forall j :: 0 <= j < 2 ==> FreedPage(was[j], now[j], j < k)
  }

  ghost predicate FreedPage(was: Page, now: Page, freed: bool) {
    && now.disk == was.disk && (was.cached ==> now.cached && now.data == was.data)
    && (Owes(now) <==> Owes(was) && !freed)
  }

  lemma FreedTrans(a: seq<Page>, b: seq<Page>, c: seq<Page>, k: nat)
    requires FreedBelow(a, b, 0) && FreedBelow(b, c, k)
    ensures FreedBelow(a, c, k)
  {
  }

  lemma FreedMore(a: seq<Page>, b: seq<Page>, k: nat)
    requires FreedBelow(a, b, k)
    ensures FreedBelow(a, if k < 2 then b[k := Unneeded(b[k])] else b, k + 1)
  {
  }

  lemma FreedNone(a: seq<Page>)
    requires |a| == 2
    ensures FreedBelow(a, a, 0)
  {
  }

  /** Of the pages written from `u` to `u'` those still to be filled owe their write, and all do if `delay`;
      the others are as they were. */
  ghost predicate PagesWritten(was: seq<Page>, now: seq<Page>, u: nat, u': nat, delay: bool) {
    |was| == |now| == 2 && forall j: nat :: j < 2 ==>
      if u < (j + 1) * BLKSIZE && j * BLKSIZE < u' && u < u'
      then (Owes(now[j]) <==> delay || u' < (j + 1) * BLKSIZE) && (Owes(now[j]) ==> now[j].disk == was[j].disk)
      else now[j] == was[j]
  }

  lemma PagesWrittenNone(was: seq<Page>, u: nat, delay: bool)
    requires |was| == 2
    ensures PagesWritten(was, was, u, u, delay)
  {
  }

  lemma PagesWrittenMore(a: seq<Page>, b: seq<Page>, c: seq<Page>, u: nat, v: nat, w: nat, delay: bool)
    requires PagesWritten(a, b, u, v, delay) && u <= v < w <= PIPSIZ && w <= (v / BLKSIZE + 1) * BLKSIZE
    requires v == u || v % BLKSIZE == 0
    requires |c| == 2 && c == b[v / BLKSIZE := c[v / BLKSIZE]]
    requires Owes(c[v / BLKSIZE]) <==> delay || w % BLKSIZE != 0
    requires Owes(c[v / BLKSIZE]) ==> c[v / BLKSIZE].disk == b[v / BLKSIZE].disk
    ensures PagesWritten(a, c, u, w, delay)
  {
  }

  /** None of `len` unread bytes from `off` on is on page `j`. */
  ghost predicate NoneOn(j: nat, off: nat, len: nat) {
    len == 0 || (j + 1) * BLKSIZE <= off || off + len <= j * BLKSIZE
  }

  /** Calling off a write loses no unread byte when none is on the page. */
  lemma FreeKeeps(pages: seq<Page>, j: nat, off: nat, pend: seq<Byte>)
    requires Intact(pages, off, pend) && j < 2 && NoneOn(j, off, |pend|)
    ensures Intact(pages[j := Unneeded(pages[j])], off, pend)
  {
    forall i | 0 <= i < |pend| ensures Safe(pages[j := Unneeded(pages[j])], off + i, pend[i]) {
      assert Safe(pages, off + i, pend[i]);
    }
  }

  /** If one is, it may be lost: whatever the pages and the bytes, the condition is the exact one. */
  lemma FreeKeepsIff(j: nat, off: nat, len: nat)
    requires j < 2 && off + len <= PIPSIZ
    ensures NoneOn(j, off, len) <==>
              forall pages: seq<Page>, pend: seq<Byte> :: |pend| == len && Intact(pages, off, pend) ==>
                Intact(pages[j := Unneeded(pages[j])], off, pend)
  {
    if NoneOn(j, off, len) {
      forall pages: seq<Page>, pend: seq<Byte> | |pend| == len && Intact(pages, off, pend)
        ensures Intact(pages[j := Unneeded(pages[j])], off, pend)
      {
        FreeKeeps(pages, j, off, pend);
      }
    } else {
      var pg := Page(true, seq(BLKSIZE, _ => 1), true, seq(BLKSIZE, _ => 0));
      var pages, pend: seq<Byte> := [pg, pg], seq(len, _ => 1);
      FreeTooSoon(pg, j, off, pend);
    }
  }

  lemma FreeTooSoon(pg: Page, j: nat, off: nat, pend: seq<Byte>)
    requires pg == Page(true, seq(BLKSIZE, _ => 1), true, seq(BLKSIZE, _ => 0)) && pend == seq(|pend|, _ => 1)
    requires j < 2 && off + |pend| <= PIPSIZ && !NoneOn(j, off, |pend|)
    ensures Intact([pg, pg], off, pend) && !Intact([pg, pg][j := Unneeded(pg)], off, pend)
  {
    forall i | 0 <= i < |pend| ensures Safe([pg, pg], off + i, pend[i]) {
    }
    var i := if off < j * BLKSIZE then j * BLKSIZE - off else 0;
    assert (off + i) / BLKSIZE == j;
    assert !Safe([pg, pg][j := Unneeded(pg)], off + i, pend[i]);
  }

  /** iomove into the page's buffer, and bdwrite or bawrite. */
  function Stored(pg: Page, on: nat, s: seq<Byte>, delayed: bool): Page
    requires on + |s| <= |pg.data|
  {
    var data := pg.data[..on] + s + pg.data[on + |s|..];
    Page(true, data, delayed, if delayed then pg.disk else data)
  }

  /** Bytes written after the unread ones join them. */
  lemma StoreKeeps(pages: seq<Page>, off: nat, pend: seq<Byte>, s: seq<Byte>, bp: Page, delayed: bool)
    requires Intact(pages, off, pend) && off + |pend| + |s| <= PIPSIZ
    requires var q := off + |pend|; q < PIPSIZ && q % BLKSIZE + |s| <= BLKSIZE
    requires var q := off + |pend|; |bp.data| == BLKSIZE && bp.disk == pages[q / BLKSIZE].disk
    requires var q := off + |pend|; |s| == BLKSIZE || bp == Fetched(pages[q / BLKSIZE])
    ensures var q := off + |pend|;
      Intact(pages[q / BLKSIZE := Stored(bp, q % BLKSIZE, s, delayed)], off, pend + s)
  {
    var q := off + |pend|;
    var j, on := q / BLKSIZE, q % BLKSIZE;
    var pages' := pages[j := Stored(bp, on, s, delayed)];
    forall i | 0 <= i < |pend + s| ensures Safe(pages', off + i, (pend + s)[i]) {
      StoreAt(pages, off, pend, s, bp, delayed, i);
    }
  }

  lemma StoreAt(pages: seq<Page>, off: nat, pend: seq<Byte>, s: seq<Byte>, bp: Page, delayed: bool, i: nat)
    requires Intact(pages, off, pend) && off + |pend| + |s| <= PIPSIZ && i < |pend + s|
    requires var q := off + |pend|; q < PIPSIZ && q % BLKSIZE + |s| <= BLKSIZE
    requires var q := off + |pend|; |bp.data| == BLKSIZE && bp.disk == pages[q / BLKSIZE].disk
    requires var q := off + |pend|; |s| == BLKSIZE || bp == Fetched(pages[q / BLKSIZE])
    ensures var q := off + |pend|;
      Safe(pages[q / BLKSIZE := Stored(bp, q % BLKSIZE, s, delayed)], off + i, (pend + s)[i])
  {
    hide Intact;
    IntactAt(pages, off, pend, i);
    assert (pend + s)[i] == if i < |pend| then pend[i] else s[i - |pend|];
  }

  lemma IntactAt(pages: seq<Page>, off: nat, pend: seq<Byte>, i: nat)
    requires Intact(pages, off, pend)
    ensures Whole(pages) && off + |pend| <= PIPSIZ && (i < |pend| ==> Safe(pages, off + i, pend[i]))
  {
  }

  /** What was read, then what is pending, is what was written; the pending bytes are safe. */
  ghost predicate StreamOk(size: nat, off: nat, eofp: bool, pages: seq<Page>, pend: seq<Byte>,
                           written: seq<Item>, taken: seq<Item>)
  {
    && off <= size && |pend| == size - off && Intact(pages, off, pend)
    && written == taken + Items(pend) + (if eofp then [Eof] else [])
  }

  // ------------------------------------------------------------ the pipe

  class Pipe {
    var size1: nat      // i_size1
    var offset: nat     // the reader's f_offset
    var eofp: bool      // IEOFP
    var lock: bool      // ILOCK
    var want: bool      // IWANT
    var iread: bool     // IREAD: a reader waits
    var iwrite: bool    // IWRITE: a writer waits
    var ipipe: bool     // IPIPE: all writes are delayed
    var count: nat      // i_count
    var pages: seq<Page>
    var at: map<Proc, Spot>         // the processes in a call on the pipe
    ghost var r: End
    ghost var w: End
    ghost var pend: seq<Byte>       // written and not read
    ghost var written: seq<Item>    // all that was ever written, in the order writers held the lock
    ghost var taken: seq<Item>      // all that was ever read

    ghost function Now(): Ctl
      reads this
    {
      Ctl(size1, offset, eofp, lock, want, iread, iwrite, r, w, at)
    }

    ghost predicate Stream()
      reads this
    {
      StreamOk(size1, offset, eofp, pages, pend, written, taken)
    }

    ghost predicate Valid()
      reads this
    {
      Stream() && Ok(Now()) && count == Count(Now())
    }

    constructor ()
      ensures Valid() && written == [] && taken == [] && at == map[] && r == Open && w == Open && ipipe
      ensures size1 == offset == 0 && !eofp && !lock && !want && !iread && !iwrite
      ensures forall j :: 0 <= j < |pages| ==> !pages[j].cached
    {
      size1, offset, eofp, lock, want, iread, iwrite, ipipe, count := 0, 0, false, false, false, false, false, true, 2;
      var blank := seq(BLKSIZE, _ => 0);
      pages := [Page(false, blank, false, blank), Page(false, blank, false, blank)];
      at, r, w, pend, written, taken := map[], Open, Open, [], [], [];
    }

    method Wakeup(c: Channel)
      modifies this`at
      ensures at == Rouse(old(at), c)
    {
      at := map p | p in at :: Spot(at[p].task, Woken(at[p].where, c));
    }

    /** prele. */
    method PRele()
      modifies this`lock, this`want, this`at
      ensures Now() == Release(old(Now()))
    {
      lock := false;
      if want {
        want := false;
        Wakeup(ForLock);
      }
    }

    method WakeReaders()
      modifies this`iread, this`at
      ensures Now() == TellReaders(old(Now()))
    {
      if iread {
        iread := false;
        Wakeup(ForData);
      }
    }

    /** A process calls read, write or eofp on an end that is open. */
    method Call(p: Proc, task: Task)
      requires Valid() && Can(Now(), Step.Call(p, task))
      modifies this`at
      ensures Valid() && Now() == Put(old(Now()), p, task, Ready(false))
    {
      hide Ok, Intact, Items;
      ApplyOk(Now(), Step.Call(p, task));
      at := at[p := Spot(task, Ready(false))];
    }

    /** plock, and if the lock is to be had, what follows up to the next wait. */
    method Go(p: Proc)
      requires Valid() && p in at && at[p].where.Ready?
      modifies this
      ensures Valid() && Now() == Enter(old(Now()), p) && pages == old(pages) && pend == old(pend)
      ensures offset == old(offset) && ipipe == old(ipipe)
      ensures taken == if TakesEof(old(Now()), p) then old(taken) + [Eof] else old(taken)
      ensures written == if SendsEof(old(Now()), p) then old(written) + [Eof] else old(written)
    {
      hide Ok, StreamOk, EnterReader, EnterWriter, EnterEof, EnterCloser;
      EnterOk(Now(), p);
      if lock {
        want := true;
        at := at[p := Spot(at[p].task, OnLock(at[p].where.again))];
      } else {
        Pass(p);
      }
    }

    /** What follows plock, up to the next wait. */
    method Pass(p: Proc)
      requires Stream() && Ok(Now()) && count == Count(Now()) && p in at && at[p].where.Ready? && !lock
      modifies this
      ensures Stream() && count == Count(Now()) && Now() == Enter(old(Now()), p)
      ensures pages == old(pages) && pend == old(pend) && offset == old(offset) && ipipe == old(ipipe)
      ensures taken == if TakesEof(old(Now()), p) then old(taken) + [Eof] else old(taken)
      ensures written == if SendsEof(old(Now()), p) then old(written) + [Eof] else old(written)
    {
      hide Ok, StreamOk, EnterReader, EnterWriter, EnterEof, EnterCloser;
      OkFacts(Now());
      EmptyPend(size1, offset, eofp, pages, pend, written, taken);
      match at[p].task
      case Reader(n) => ReadP(p, n);
      case Writer(c) => WriteP(p, c, at[p].where.again);
      case EofSender => EofP(p, at[p].where.again);
      case Closer(reader) => PassCloser(p, reader);
      case Updater => at := at - {p};
    }

    method PassCloser(p: Proc, reader: bool)
      requires Ok(Now()) && p in at && at[p].task == Closer(reader) && count == Count(Now())
      modifies this`count, this`at, this`r, this`w
      ensures Now() == EnterCloser(old(Now()), p, reader) && count == Count(Now())
    {
      hide Ok, EnterCloser;
      CloserCounts(Now(), p, reader);
      IPut(p, reader);
    }

    /** readp, with the lock to be had. */
    method ReadP(p: Proc, n: nat)
      requires Stream() && count == Count(Now()) && p in at && !lock && !want && (size1 == 0 ==> pend == [])
      modifies this`eofp, this`taken, this`iread, this`lock, this`at
      ensures Stream() && Now() == EnterReader(old(Now()), p, n)
      ensures taken == if old(size1) == 0 && old(eofp) then old(taken) + [Eof] else old(taken)
    {
      hide Intact;
      if size1 == 0 {
        if eofp {
          eofp := false;
          taken := taken + [Eof];
          Wakeup(ForEof);
          at := at - {p};
        } else if count < 2 {
          at := at - {p};
        } else {
          iread := true;
          at := at[p := Spot(Reader(n), OnData)];
        }
      } else {
        lock := true;
        at := at[p := Spot(Reader(n), Busy)];
      }
    }

    /** writep, with the lock to be had: i_count counts only at the top of its loop. */
    method WriteP(p: Proc, c: nat, again: bool)
      requires count == Count(Now()) && p in at && !lock && !want
      modifies this`iwrite, this`lock, this`at
      ensures Now() == EnterWriter(old(Now()), p, c, again)
    {
      if !again && c == 0 {
        at := at - {p};
      } else if !again && count < 2 {
        at := at - {p};
      } else if eofp {
        at := at[p := Spot(Writer(c), OnEof)];
      } else if size1 == PIPSIZ {
        iwrite := true;
        at := at[p := Spot(Writer(c), OnRoom)];
      } else {
        lock := true;
        at := at[p := Spot(Writer(c), Busy)];
      }
    }

    /** eofp, with the lock to be had. */
    method EofP(p: Proc, again: bool)
      requires Stream() && count == Count(Now()) && p in at && !lock && !want
      modifies this`eofp, this`written, this`iread, this`at
      ensures Stream() && Now() == EnterEof(old(Now()), p, again)
      ensures written == if !old(eofp) && (again || count >= 2) then old(written) + [Eof] else old(written)
    {
      hide Intact;
      if !again && count < 2 {
        at := at - {p};
      } else if eofp {
        at := at[p := Spot(EofSender, OnEof)];
      } else {
        eofp := true;
        written := written + [Eof];
        WakeReaders();
        at := at - {p};
      }
    }

    /** iput, of an inode in use at the other end or not at all. */
    method IPut(p: Proc, reader: bool)
      requires p in at && count > 0 && Count(EnterCloser(Now(), p, reader)) == count - 1
      modifies this`count, this`at, this`r, this`w
      ensures Now() == EnterCloser(old(Now()), p, reader) && count == Count(Now())
    {
      count := count - 1;
      if reader { r := Gone; } else { w := Gone; }
      at := at - {p};
    }

    /** Another part of the kernel brings in, writes out or takes away one of the pipe's buffers. */
    method Disturb(j: nat, pg: Page)
      requires Valid() && j < 2 && |pages| == 2
      requires pg == Fetched(pages[j]) || pg == Written(pages[j]) || pg == Evicted(pages[j])
      modifies this`pages
      ensures Valid()
    {
      hide Ok, Intact, Items;
      CacheKeeps(pages, j, pg, offset, pend);
      pages := pages[j := pg];
    }

    /** readi: the next `n` bytes, a page at a time, as far as there are any. */
    method Readi(n: nat) returns (out: seq<Byte>)
      requires Stream()
      modifies this`pages
      ensures Stream() && out == pend[..Min(n, |pend|)] && FreedBelow(old(pages), pages, 0)
    {
      hide Intact, Items, FreedBelow;
      TwoPages();
      FreedNone(pages);
      var u := offset;
      var left := n;
      out := [];
      while left != 0 && size1 > u
        invariant 0 <= u - offset <= |pend| && 0 <= left == n - (u - offset) && Stream()
        invariant out == pend[..u - offset] && FreedBelow(old(pages), pages, 0)
        decreases left
      {
        ghost var was := pages;
        var k: nat := Min(Min(BLKSIZE - u % BLKSIZE, left), size1 - u);
        ghost var d := u - offset;
        var part := PageIn(u, k);
        FreedTrans(old(pages), was, pages, 0);
        assert pend[..d] + pend[d..d + k] == pend[..d + k];
        out := out + part;
        u, left := u + k, left - k;
      }
    }

    /** bread and iomove of unread bytes on one page. */
    method PageIn(u: nat, k: nat) returns (part: seq<Byte>)
      requires Stream() && offset <= u && u + k <= size1 && 0 < k <= BLKSIZE - u % BLKSIZE
      modifies this`pages
      ensures Stream() && part == pend[u - offset..u - offset + k] && FreedBelow(old(pages), pages, 0)
    {
      hide Intact, Items;
      IntactFacts(pages, offset, pend);
      var j, on := u / BLKSIZE, u % BLKSIZE;
      CacheKeeps(pages, j, Fetched(pages[j]), offset, pend);
      pages := pages[j := Fetched(pages[j])];
      IntactFacts(pages, offset, pend);
      ReadPage(pages, offset, pend, u, k);
      part := pages[j].data[on..on + k];
    }

    /** readi, and the rest of readp: the bytes are gone from the pipe, and so is the need to write out
        pages that hold nothing else. */
    method EndRead(p: Proc) returns (out: seq<Byte>)
      requires Valid() && Can(Now(), Step.EndRead(p))
      modifies this
      ensures Valid() && Now() == ReadEnd(old(Now()), p) && written == old(written)
      ensures out == old(pend)[..Min(old(at)[p].task.n, |old(pend)|)] && taken == old(taken) + Items(out)
      ensures FreedBelow(old(pages), pages, (old(offset) + |out|) / BLKSIZE + (if size1 == 0 then 1 else 0))
    {
      hide Ok, StreamOk, Items, ReadEnd, Advanced, Release, FreedBelow;
      ghost var s := Now();
      ReadEndOk(s, p);
      out := ReadAndFree(at[p].task.n);
      at := at - {p};
      ReadEndIs(s, p, Now());
    }

    method ReadAndFree(n: nat) returns (out: seq<Byte>)
      requires Stream()
      modifies this`pages, this`offset, this`size1, this`iwrite, this`at, this`pend, this`taken, this`lock, this`want
      ensures Stream() && Now() == Release(Advanced(old(Now()), old(offset) + Min(n, old(size1) - old(offset))))
      ensures out == old(pend)[..Min(n, |old(pend)|)] && taken == old(taken) + Items(out)
      ensures FreedBelow(old(pages), pages, (old(offset) + |out|) / BLKSIZE + (if size1 == 0 then 1 else 0))
    {
      hide StreamOk, Items, Advanced, Release, FreedBelow;
      out := ReadOut(n);
      PRele();
    }

    method ReadOut(n: nat) returns (out: seq<Byte>)
      requires Stream()
      modifies this`pages, this`offset, this`size1, this`iwrite, this`at, this`pend, this`taken
      ensures Stream() && Now() == Advanced(old(Now()), old(offset) + Min(n, old(size1) - old(offset)))
      ensures out == old(pend)[..Min(n, |old(pend)|)] && taken == old(taken) + Items(out)
      ensures FreedBelow(old(pages), pages, (old(offset) + |out|) / BLKSIZE + (if size1 == 0 then 1 else 0))
    {
      hide Intact, Items, Advanced, FreedBelow;
      out := Readi(n);
      ghost var was := pages;
      Consume(out);
      FreedTrans(old(pages), was, pages, (offset + |out|) / BLKSIZE);
      FreedMore(old(pages), pages, (offset + |out|) / BLKSIZE);
      Advance(offset + |out|);
    }

    /** bdfree of each page that is used up, and the bytes are off the stream. */
    method Consume(out: seq<Byte>)
      requires Stream() && |out| <= |pend| && out == pend[..|out|]
      modifies this`pages, this`pend, this`taken
      ensures taken == old(taken) + Items(out) && |pend| == |old(pend)| - |out|
      ensures Intact(pages, offset + |out|, pend) && written == taken + Items(pend) + (if eofp then [Eof] else [])
      ensures FreedBelow(old(pages), pages, (offset + |out|) / BLKSIZE)
    {
      hide Intact, Items, FreedBelow;
      ghost var rest := pend[|out|..];
      Split(taken, pend, |out|, if eofp then [Eof] else []);
      IntactRest(pages, offset, pend, |out|);
      IntactFacts(pages, offset, pend);
      var u := offset + |out|;
      FreePages(u, u / BLKSIZE, rest);
      pend := rest;
      taken := taken + Items(out);
    }

    method Advance(u: nat)
      requires u <= size1 && |pend| == size1 - u && Intact(pages, u, pend)
      requires written == taken + Items(pend) + (if eofp then [Eof] else [])
      modifies this`pages, this`offset, this`size1, this`iwrite, this`at
      ensures Stream() && Now() == Advanced(old(Now()), u)
      ensures pages == if size1 == 0 && u / BLKSIZE < 2
        then old(pages)[u / BLKSIZE := Unneeded(old(pages)[u / BLKSIZE])] else old(pages)
    {
      hide Intact, Items;
      offset := u;
      if offset == size1 {
        StartOver();
      }
    }

    /** The reader has caught up: both ends go back to the start of the pipe. */
    method StartOver()
      requires offset == size1 && pend == [] && Intact(pages, size1, pend)
      requires written == taken + Items(pend) + (if eofp then [Eof] else [])
      modifies this`pages, this`offset, this`size1, this`iwrite, this`at
      ensures Stream() && size1 == 0 && offset == 0 && !iwrite
      ensures at == if old(iwrite) then Rouse(old(at), ForRoom) else old(at)
      ensures |old(pages)| == 2
      ensures pages == if old(size1) / BLKSIZE < 2
        then old(pages)[old(size1) / BLKSIZE := Unneeded(old(pages)[old(size1) / BLKSIZE])] else old(pages)
    {
      hide Intact, Items;
      ghost var u := size1;
      IntactFacts(pages, u, []);
      var curpage := offset / BLKSIZE;
      offset := 0;
      size1 := 0;
      if curpage < 2 {
        FreeKeeps(pages, curpage, u, []);
        pages := pages[curpage := Unneeded(pages[curpage])];
      }
      IntactNone(pages, u);
      if iwrite {
        iwrite := false;
        Wakeup(ForRoom);
      }
    }

    method FreePages(u: nat, curpage: nat, ghost rest: seq<Byte>)
      requires Intact(pages, u, rest) && curpage == u / BLKSIZE && u <= PIPSIZ
      modifies this`pages
      ensures Intact(pages, u, rest) && FreedBelow(old(pages), pages, curpage)
    {
      hide Intact, FreedBelow;
      IntactFacts(pages, u, rest);
      FreedNone(pages);
      var i := 0;
      while i < curpage
        invariant 0 <= i <= curpage && Intact(pages, u, rest) && FreedBelow(old(pages), pages, i)
      {
        IntactFacts(pages, u, rest);
        FreeKeeps(pages, i, u, rest);
        FreedMore(old(pages), pages, i);
        pages := pages[i := Unneeded(pages[i])];
        i := i + 1;
      }
    }

    /** writei of at most what there is room for, a page at a time. */
    method Writei(s: seq<Byte>)
      requires Stream() && !eofp && size1 + |s| <= PIPSIZ
      modifies this`pages, this`size1, this`pend, this`written
      ensures Stream() && pend == old(pend) + s && written == old(written) + Items(s) && size1 == old(size1) + |s|
      ensures PagesWritten(old(pages), pages, old(size1), size1, ipipe)
    {
      hide Intact, Items, StreamOk, PagesWritten;
      TwoPages();
      PagesWrittenNone(pages, size1, ipipe);
      var k := 0;
      ItemsNone();
      assert pend + s[..0] == pend && written + [] == written;
      while k < |s|
        invariant 0 <= k <= |s| && Stream() && size1 == old(size1) + k
        invariant pend == old(pend) + s[..k] && written == old(written) + Items(s[..k])
        invariant PagesWritten(old(pages), pages, old(size1), size1, ipipe)
        invariant k == 0 || k == |s| || size1 % BLKSIZE == 0
      {
        var n := Min(BLKSIZE - size1 % BLKSIZE, |s| - k);
        ghost var was, v := pages, size1;
        WritePage(s[k..k + n]);
        PagesWrittenMore(old(pages), was, pages, old(size1), v, size1, ipipe);
        Onward(old(pend), old(written), s, k, n);
        k := k + n;
      }
      assert s[..k] == s;
    }

    method WritePage(part: seq<Byte>)
      requires Stream() && !eofp && 0 < |part| <= BLKSIZE - size1 % BLKSIZE && size1 + |part| <= PIPSIZ
      modifies this`pages, this`size1, this`pend, this`written
      ensures Stream() && pend == old(pend) + part && written == old(written) + Items(part)
      ensures size1 == old(size1) + |part| && |pages| == 2
      ensures pages == old(pages)[old(size1) / BLKSIZE := pages[old(size1) / BLKSIZE]]
      ensures Owes(pages[old(size1) / BLKSIZE]) <==> ipipe || size1 % BLKSIZE != 0
      ensures Owes(pages[old(size1) / BLKSIZE]) ==>
        pages[old(size1) / BLKSIZE].disk == old(pages)[old(size1) / BLKSIZE].disk
    {
      hide Intact, Items;
      IntactFacts(pages, offset, pend);
      var u := size1;
      var j, on := u / BLKSIZE, u % BLKSIZE;
      var bp := Buffer(j, |part|);
      var delayed := (u + |part|) % BLKSIZE != 0 || ipipe;
      StoreKeeps(pages, offset, pend, part, bp, delayed);
      ItemsSum(pend, part);
      pages := pages[j := Stored(bp, on, part, delayed)];
      size1 := u + |part|;
      pend := pend + part;
      written := written + Items(part);
    }

    lemma TwoPages()
      requires Stream()
      ensures |pages| == 2
    {
      hide Items;
      IntactFacts(pages, offset, pend);
    }

    /** bread, or getblk, which reads nothing, for a page all of which is to be written. */
    method Buffer(j: nat, n: nat) returns (bp: Page)
      requires Whole(pages) && j < 2
      ensures |bp.data| == BLKSIZE && bp.disk == pages[j].disk && (n == BLKSIZE || bp == Fetched(pages[j]))
    {
      bp := Fetched(pages[j]);
      if n == BLKSIZE {
        var junk: seq<Byte> := *;
        if |junk| == BLKSIZE {
          bp := Page(true, junk, false, pages[j].disk);
        }
      }
    }

    method WriteAndFree(s: seq<Byte>)
      requires Stream() && !eofp && size1 + |s| <= PIPSIZ
      modifies this`pages, this`size1, this`pend, this`written, this`lock, this`want, this`iread, this`at
      ensures Stream() && written == old(written) + Items(s)
      ensures PagesWritten(old(pages), pages, old(size1), old(size1) + |s|, ipipe)
      ensures Now() == TellReaders(Release(old(Now()).(size := old(size1) + |s|)))
    {
      hide StreamOk, Items, Release, TellReaders, PagesWritten;
      Writei(s);
      PRele();
      WakeReaders();
    }

    /** writei of what there is room for out of `s`, and the rest of a turn of writep's loop. */
    method EndWrite(p: Proc, s: seq<Byte>)
      requires Valid() && Can(Now(), Step.EndWrite(p)) && |s| == at[p].task.c
      modifies this
      ensures Valid() && Now() == WriteEnd(old(Now()), p) && taken == old(taken)
      ensures written == old(written) + Items(s[..Min(|s|, PIPSIZ - old(size1))]) && ipipe == old(ipipe)
      ensures PagesWritten(old(pages), pages, old(size1), old(size1) + Min(|s|, PIPSIZ - old(size1)), ipipe)
    {
      hide Ok, StreamOk, Items, WriteEnd, Release, TellReaders, PagesWritten;
      ghost var c := Now();
      WriteEndOk(c, p);
      WriterBusy(c, p);
      var n := Min(|s|, PIPSIZ - size1);
      WriteAndFree(s[..n]);
      at := at[p := Spot(Writer(|s| - n), Ready(false))];
      WriteEndIs(c, p, Now());
    }

    /** update gets to the inode, and finds it free. */
    method Update(p: Proc)
      requires Valid() && Can(Now(), Step.Update(p))
      modifies this`lock, this`at
      ensures Valid() && Now() == UpdateStart(old(Now()), p)
    {
      hide Ok, StreamOk;
      UpdateOk(Now(), p);
      lock := true;
      at := at[p := Spot(Updater, Busy)];
    }

    /** ... and is through with it. */
    method EndUpdate(p: Proc)
      requires Valid() && Can(Now(), Step.EndUpdate(p))
      modifies this`lock, this`want, this`at
      ensures Valid() && Now() == Leave(Release(old(Now())), p)
    {
      hide Ok, StreamOk, Release;
      EndUpdateOk(Now(), p);
      ReleaseFacts(Now());
      PRele();
      at := at - {p};
    }

    /** The part of closef common to all closes of a pipe: whoever sleeps for it is woken. */
    method CloseShared()
      requires Valid()
      modifies this`iread, this`iwrite, this`ipipe, this`at
      ensures Valid() && Now() == Wakeups(old(Now())) && !ipipe
    {
      hide Ok, Intact, Items;
      WakeupsOk(Now());
      iread, iwrite, ipipe := false, false, false;
      Wakeup(ForRoom);
      Wakeup(ForData);
      Wakeup(ForEof);
    }

    /** closef of the last descriptor of an end, up to closei's plock. */
    method Begin(p: Proc, reader: bool)
      requires Valid() && Can(Now(), Step.Close(p, reader))
      modifies this`iread, this`iwrite, this`ipipe, this`at, this`r, this`w
      ensures Valid() && p in at && at[p] == Spot(Closer(reader), Ready(false))
      ensures Now() == Begun(Wakeups(old(Now())), p, reader) && !ipipe
    {
      hide Ok, StreamOk, Wakeups;
      BegunOk(Now(), p, reader);
      CloseShared();
      if reader { r := Closing; } else { w := Closing; }
      at := at[p := Spot(Closer(reader), Ready(false))];
    }

    /** closef of the last descriptor of an end, with closei's plock and iput. */
    method Close(p: Proc, reader: bool)
      requires Valid() && Can(Now(), Step.Close(p, reader))
      modifies this
      ensures Valid() && Now() == CloseEnd(old(Now()), p, reader) && taken == old(taken) && written == old(written)
      ensures !ipipe && pages == old(pages) && pend == old(pend)
    {
      hide Ok, StreamOk, Enter, Wakeups, Begun;
      Begin(p, reader);
      Go(p);
    }
  }

  /** `p` is about to read an end of file; to send one. */
  ghost predicate TakesEof(s: Ctl, p: Proc)
    requires p in s.at
  {
    !s.lock && s.at[p].task.Reader? && s.size == 0 && s.eofp
  }

  ghost predicate SendsEof(s: Ctl, p: Proc)
    requires p in s.at && s.at[p].where.Ready?
  {
    !s.lock && s.at[p].task.EofSender? && !s.eofp && (s.at[p].where.again || Count(s) >= 2)
  }

  lemma ReadEndIs(s: Ctl, p: Proc, s': Ctl)
    requires p in s.at && s.at[p].task.Reader? && s.off <= s.size
    requires s' == Leave(Release(Advanced(s, s.off + Min(s.at[p].task.n, s.size - s.off))), p)
    ensures s' == ReadEnd(s, p)
  {
    hide Advanced, Release;
  }

  lemma EmptyPend(size: nat, off: nat, eofp: bool, pages: seq<Page>, pend: seq<Byte>, written: seq<Item>,
                  taken: seq<Item>)
    requires StreamOk(size, off, eofp, pages, pend, written, taken)
    ensures size == 0 ==> pend == []
  {
  }

  lemma OkFacts(s: Ctl)
    requires Ok(s)
    ensures (s.want ==> s.lock) && s.size <= PIPSIZ && s.off <= s.size && (s.size == 0 ==> s.off == 0)
  {
  }

  lemma CloserCounts(s: Ctl, p: Proc, reader: bool)
    requires Ok(s) && p in s.at && s.at[p].task == Closer(reader)
    ensures Count(s) > 0 && Count(EnterCloser(s, p, reader)) == Count(s) - 1
  {
    hide Justified, BusyOne;
  }

  lemma WriteEndIs(s: Ctl, p: Proc, s': Ctl)
    requires p in s.at && s.at[p].task.Writer? && s.size <= PIPSIZ
    requires var n := Min(s.at[p].task.c, PIPSIZ - s.size);
      s' == Put(TellReaders(Release(s.(size := s.size + n))), p, Writer(s.at[p].task.c - n), Ready(false))
    ensures s' == WriteEnd(s, p)
  {
    hide TellReaders, Release;
  }

  lemma WriterBusy(s: Ctl, p: Proc)
    requires Ok(s) && Can(s, Step.EndWrite(p))
    ensures !s.eofp && s.size < PIPSIZ
  {
    assert Justified(s, s.at[p]);
  }

  lemma ItemsNone()
    ensures Items([]) == []
  {
  }

  lemma Onward(pend: seq<Byte>, written: seq<Item>, s: seq<Byte>, k: nat, n: nat)
    requires k + n <= |s|
    ensures pend + s[..k] + s[k..k + n] == pend + s[..k + n]
    ensures written + Items(s[..k]) + Items(s[k..k + n]) == written + Items(s[..k + n])
  {
    hide Items;
    assert s[..k + n] == s[..k] + s[k..k + n];
    ItemsSum(s[..k], s[k..k + n]);
  }

  lemma Split(taken: seq<Item>, pend: seq<Byte>, k: nat, tail: seq<Item>)
    requires k <= |pend|
    ensures taken + Items(pend) + tail == (taken + Items(pend[..k])) + Items(pend[k..]) + tail
  {
    hide Items;
    assert pend == pend[..k] + pend[k..];
    ItemsSum(pend[..k], pend[k..]);
  }

  lemma IntactFacts(pages: seq<Page>, off: nat, pend: seq<Byte>)
    requires Intact(pages, off, pend)
    ensures Whole(pages) && off + |pend| <= PIPSIZ
  {
  }

  /** An empty pipe can start over anywhere. */
  lemma IntactNone(pages: seq<Page>, off: nat)
    requires Intact(pages, off, [])
    ensures Intact(pages, 0, [])
  {
  }

  /** A page's buffer holds the unread bytes that are on the page. */
  lemma ReadPage(pages: seq<Page>, off: nat, pend: seq<Byte>, u: nat, k: nat)
    requires Intact(pages, off, pend) && off <= u && u + k <= off + |pend| && 0 < k <= BLKSIZE - u % BLKSIZE
    requires Whole(pages) && pages[u / BLKSIZE].cached
    ensures pages[u / BLKSIZE].data[u % BLKSIZE..u % BLKSIZE + k] == pend[u - off..u - off + k]
  {
    var a, b := pages[u / BLKSIZE].data[u % BLKSIZE..u % BLKSIZE + k], pend[u - off..u - off + k];
    forall i | 0 <= i < k ensures a[i] == b[i] {
      assert Safe(pages, off + (u - off + i), pend[u - off + i]);
    }
  }

  lemma IntactRest(pages: seq<Page>, off: nat, pend: seq<Byte>, k: nat)
    requires Intact(pages, off, pend) && k <= |pend|
    ensures Intact(pages, off + k, pend[k..])
  {
    forall i | 0 <= i < |pend[k..]| ensures Safe(pages, off + k + i, pend[k..][i]) {
      assert Safe(pages, off + (k + i), pend[k + i]);
    }
  }
}
