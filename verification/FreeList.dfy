/**
 The chained free list of a file system: ken/alloc.c, and the rebuilding of it by progs/icheck.c.

 The super block remembers up to 100 block numbers; the first of them is the number of a block that
 holds another count and 100 more.  What the kernel means by this is a stack, `st`, with its top last.
 */
module FreeList {

  type Words = seq<int>

  const NICFREE := 100
  const WORDS := 256

  function Zeros(): (w: Words)
    ensures |w| == WORDS && forall j :: 0 <= j < WORDS ==> w[j] == 0
  {
    seq(WORDS, _ => 0)
  }

  ghost predicate NoDup(s: seq<int>) {
    forall i, j :: 0 <= i < j < |s| ==> s[i] != s[j]
  }

  /** The chain that starts with these `nfree` remembered blocks spells the stack `st`. */
  ghost predicate Chain(disk: map<int, Words>, nfree: int, free: Words, st: seq<int>)
    decreases |st|
  {
    && nfree <= NICFREE && |free| == NICFREE
    && if nfree <= 0 then st == []
       else if free[0] == 0 then st == free[1..nfree]
       else
         && |st| >= nfree && st[|st| - nfree..] == free[..nfree]
         && free[0] in disk && |disk[free[0]]| == WORDS
         && Chain(disk, disk[free[0]][0], disk[free[0]][1..NICFREE + 1], st[..|st| - nfree])
  }

  /** A chain depends only on the blocks in it. */
  lemma {:induction false} ChainFrame(disk: map<int, Words>, disk': map<int, Words>, nfree: int, free: Words,
                                      st: seq<int>)
    requires Chain(disk, nfree, free, st)
    requires forall b :: b in st && b in disk ==> b in disk' && disk'[b] == disk[b]
    ensures Chain(disk', nfree, free, st)
    decreases |st|
  {
    if nfree > 0 && free[0] != 0 {
      var l := free[0];
      assert st[|st| - nfree] == free[..nfree][0] == l;
      assert l in st;
      ChainFrame(disk, disk', disk[l][0], disk[l][1..NICFREE + 1], st[..|st| - nfree]);
    }
  }

  /** Taking the last remembered block pops the stack; the block that was link brings in its list. */
  lemma Pop(disk: map<int, Words>, nfree: int, free: Words, st: seq<int>)
    requires Chain(disk, nfree, free, st) && st != []
    ensures nfree > 0 && free[nfree - 1] == st[|st| - 1]
    ensures nfree > 1 ==> Chain(disk, nfree - 1, free, st[..|st| - 1])
    ensures nfree == 1 ==> free[0] in disk && |disk[free[0]]| == WORDS
    ensures nfree == 1 ==> Chain(disk, disk[free[0]][0], disk[free[0]][1..NICFREE + 1], st[..|st| - 1])
  {
    var t := st[..|st| - 1];
    if free[0] == 0 {
      assert t == free[1..nfree - 1];
    } else {
      assert st[|st| - 1] == st[|st| - nfree..][nfree - 1];
      if nfree > 1 {
        assert t[|t| - (nfree - 1)..] == st[|st| - nfree..][..nfree - 1];
        assert free[..nfree][..nfree - 1] == free[..nfree - 1];
        assert t[..|t| - (nfree - 1)] == st[..|st| - nfree];
      }
    }
  }

  /** An empty stack shows as no remembered block, or as the single number 0. */
  lemma PopNone(disk: map<int, Words>, nfree: int, free: Words)
    requires Chain(disk, nfree, free, [])
    ensures nfree <= 0 || (nfree == 1 && free[0] == 0)
  {
  }

  lemma PushRoom(disk: map<int, Words>, nfree: int, free: Words, st: seq<int>, bno: int)
    requires Chain(disk, nfree, free, st) && 0 < nfree < NICFREE
    ensures Chain(disk, nfree + 1, free[nfree := bno], st + [bno])
  {
    var free', t := free[nfree := bno], st + [bno];
    if free[0] == 0 {
      assert t == free'[1..nfree + 1];
    } else {
      assert t[|t| - (nfree + 1)..] == st[|st| - nfree..] + [bno];
      assert free'[..nfree + 1] == free[..nfree] + [bno];
      assert t[..|t| - (nfree + 1)] == st[..|st| - nfree];
    }
  }

  /** The 101st block freed carries the other hundred. */
  lemma PushSpill(disk: map<int, Words>, free: Words, st: seq<int>, bno: int, contents: Words)
    requires Chain(disk, NICFREE, free, st) && bno !in st && bno != 0
    requires |contents| == WORDS && contents[0] == NICFREE && contents[1..NICFREE + 1] == free
    ensures Chain(disk[bno := contents], 1, free[0 := bno], st + [bno])
  {
    var disk', t := disk[bno := contents], st + [bno];
    ChainFrame(disk, disk', NICFREE, free, st);
    assert t[|t| - 1..] == free[0 := bno][..1];
    assert t[..|t| - 1] == st;
  }

  /** `addr`, `large` are i_addr and ILARG of the inode in hand; the rest is the file system's. */
  datatype Fs = Fs(nfree: int, free: Words, disk: map<int, Words>, isize: int, fsize: int, st: seq<int>,
                   addr: seq<int>, large: bool)

  predicate BadBlock(isize: int, fsize: int, bn: int) {
    bn < isize + 2 || bn >= fsize
  }

  ghost predicate DiskOk(n: Fs) {
    n.isize >= 0 && forall b :: !BadBlock(n.isize, n.fsize, b) ==> b in n.disk && |n.disk[b]| == WORDS
  }

  ghost predicate ListOk(n: Fs) {
    && DiskOk(n) && Chain(n.disk, n.nfree, n.free, n.st) && NoDup(n.st)
    && forall b :: b in n.st ==> !BadBlock(n.isize, n.fsize, b)
  }

  /** Nothing but the free list has changed: the stack lost its top, if it had one. */
  ghost predicate Popped(n: Fs, n': Fs, bno: int) {
    && n' == n.(nfree := n'.nfree, free := n'.free, st := n'.st)
    && if n.st == [] then bno == 0 && n'.st == []
       else bno == n.st[|n.st| - 1] && n'.st == n.st[..|n.st| - 1] && bno != 0 && bno !in n'.st
  }

  /** One block was pushed; its own contents are all that may have changed on the disk. */
  ghost predicate Pushed(n: Fs, n': Fs, bno: int) {
    && n' == n.(nfree := n'.nfree, free := n'.free, st := n.st + [bno], disk := n'.disk)
    && n'.disk.Keys == n.disk.Keys && forall b :: b in n.disk && b != bno ==> n'.disk[b] == n.disk[b]
  }

  lemma PopKeeps(n: Fs, n': Fs)
    requires ListOk(n) && n.st != [] && n.nfree > 0
    requires var l := n.free[n.nfree - 1];
      n' == n.(st := n.st[..|n.st| - 1],
               nfree := if n.nfree == 1 && l in n.disk && |n.disk[l]| == WORDS then n.disk[l][0] else n.nfree - 1,
               free := if n.nfree == 1 && l in n.disk && |n.disk[l]| == WORDS
                       then n.disk[l][1..NICFREE + 1] else n.free)
    ensures ListOk(n') && Popped(n, n', n.free[n.nfree - 1])
  {
    Pop(n.disk, n.nfree, n.free, n.st);
    assert n.st[|n.st| - 1] in n.st;
    assert forall b :: b in n'.st ==> b in n.st;
  }

  lemma PushKeeps(n: Fs, n': Fs, bno: int)
    requires ListOk(n) && !BadBlock(n.isize, n.fsize, bno) && bno !in n.st
    requires Chain(n'.disk, n'.nfree, n'.free, n.st + [bno]) && Pushed(n, n', bno)
    requires bno in n'.disk && |n'.disk[bno]| == WORDS
    ensures ListOk(n')
  {
  }
}
