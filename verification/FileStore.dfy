/**
 Allocation and mapping of file blocks: alloc and free of ken/alloc.c, bmap of ken/subr.c, itrunc of
 ken/iget.c, on the super block of one file system and one inode.
 */
module FileStore {
  import opened FreeList
  import opened FileTree
  import opened FileTrunc

  // ------------------------------------------------------------ what bmap promises

  /** How many blocks bmap must allocate below a large inode's entry `i`, entry `j` of it, entry `k` of that. */
  ghost function NeedMid(n: Fs, i: nat, j: nat): nat
  {
    if At(n, Mid(i, j)) != 0 then 0 else if At(n, Top(i)) != 0 then 1 else 2
  }

  ghost function NeedLeaf(n: Fs, j: nat, k: nat): nat
  {
    if At(n, Leaf(j, k)) != 0 then 0 else if At(n, Mid(7, j)) != 0 then 1 else if At(n, Top(7)) != 0 then 2 else 3
  }

  /** Block `b` is an indirect block on the way to `p`. */
  ghost predicate OnWay(n: Fs, p: Pos, b: int) {
    && b != 0
    && match p
       case Top(_) => false
       case Mid(i, _) => b == At(n, Top(i))
       case Leaf(j, _) => b == At(n, Top(7)) || b == At(n, Mid(7, j))
  }

  /** Just `k` free blocks were taken, and only they and indirect blocks on the way to `p` were written. */
  ghost predicate Spent(n: Fs, n': Fs, k: nat, p: Pos) {
    && k <= |n.st| && n'.st == n.st[..|n.st| - k] && n'.isize == n.isize && n'.fsize == n.fsize
    && forall b :: b in n.disk && b !in n.st && !OnWay(n, p, b) ==> b in n'.disk && n'.disk[b] == n.disk[b]
  }

  /** How many blocks are missing at `p` and on the way to it. */
  ghost function Lacking(n: Fs, p: Pos): nat {
    match p
    case Top(i) => if At(n, Top(i)) != 0 then 0 else 1
    case Mid(i, j) => NeedMid(n, i, j)
    case Leaf(j, k) => NeedLeaf(n, j, k)
  }

  /** The data block at `p` is there or has just been put there, empty, and nothing else has moved. */
  ghost predicate Mapped(n: Fs, n': Fs, p: Pos, bn: nat, nb: int) {
    && FsOk(n') && n'.large == n.large && nb != 0 && At(n', p) == nb && Kept(n, n', bn)
    && (At(n, p) != 0 ==> n' == n) && (At(n, p) == 0 ==> nb in n'.disk && n'.disk[nb] == Zeros())
    && Spent(n, n', Lacking(n, p), p)
  }

  /** The free list ran out: `n'` has all of `n` but its free blocks. */
  ghost predicate Drained(n: Fs, n': Fs) {
    n' == n.(nfree := n'.nfree, free := n'.free, st := []) && ListOk(n')
  }

  ghost predicate MidDone(n: Fs, n': Fs, i: nat, j: nat, nb: int) {
    && |n.addr| == 8 && i < 7 && j < WORDS
    && if |n.st| >= NeedMid(n, i, j) then Mapped(n, n', Mid(i, j), i * 256 + j, nb)
       else nb == 0 && Drained(HalfMid(n, i), n')
  }

  ghost predicate LeafDone(n: Fs, n': Fs, j: nat, k: nat, nb: int) {
    && |n.addr| == 8 && j <= 120 && k < WORDS
    && if |n.st| >= NeedLeaf(n, j, k) then Mapped(n, n', Leaf(j, k), (j + 7) * 256 + k, nb)
       else nb == 0 && Drained(HalfLeaf(n, j), n')
  }

  /** How many blocks bmap must allocate in all: one more if the inode must first become large. */
  ghost function Need(n: Fs, bn: nat): nat {
    if n.large then (if bn / 256 < 7 then NeedMid(n, bn / 256, bn % 256) else NeedLeaf(n, bn / 256 - 7, bn % 256))
    else if bn < 8 then (if At(n, Top(bn)) != 0 then 0 else 1)
    else if bn < 256 then 2 else if bn / 256 < 7 then 3 else 4
  }

  /** The inode made large with the free block on top. */
  ghost function Enlarged(n: Fs): Fs
    requires n.st != [] && |n.addr| == 8
  {
    var b := n.st[|n.st| - 1];
    n.(large := true, addr := Zeros()[..8][0 := b],
       disk := n.disk[b := n.addr + Zeros()[8..]], st := n.st[..|n.st| - 1])
  }

  /** What a failing call leaves of the file once the free blocks are used up. */
  ghost function HalfMid(n: Fs, i: nat): Fs
    requires |n.addr| == 8 && i < 8
  {
    if n.st == [] || n.addr[i] != 0 then n else Stranded(n, Top(i))
  }

  ghost function HalfLeaf(n: Fs, j: nat): Fs
    requires |n.addr| == 8
  {
    if n.st == [] || At(n, Mid(7, j)) != 0 then n
    else if n.addr[7] != 0 then Stranded(n, Mid(7, j))
    else if |n.st| == 1 then Stranded(n, Top(7))
    else Stranded(WithTop(n, 7, n.st[1]), Mid(7, j))
  }

  ghost function HalfLarge(n: Fs, bn: nat): Fs
    requires |n.addr| == 8
  {
    if bn / 256 < 7 then HalfMid(n, bn / 256) else HalfLeaf(n, bn / 256 - 7)
  }

  ghost function Half(n: Fs, bn: nat): Fs
    requires |n.addr| == 8
  {
    if n.large then HalfLarge(n, bn) else if bn < 8 || n.st == [] then n else HalfLarge(Enlarged(n), bn)
  }

  /** bmap: with blocks enough, the one entry is there and all others are as they were. */
  ghost predicate BmapDone(n: Fs, n': Fs, bn: int, nb: int) {
    && |n.addr| == 8
    && if bn < 0 || bn > MAXBN then n' == n && nb == 0
       else if |n.st| < Need(n, bn) then nb == 0 && Drained(Half(n, bn), n')
       else
         && FsOk(n') && Kept(n, n', bn) && nb != 0 && nb == Lookup(n', bn)
         && (Lookup(n, bn) != 0 ==> n' == n) && (Lookup(n, bn) == 0 ==> nb in n'.disk && n'.disk[nb] == Zeros())
         && Spent(n, n', Need(n, bn), PosOf(n.large, bn))
  }

  /** `n` with an empty block `b` for entry `i` of the inode. */
  ghost function WithTop(n: Fs, i: nat, b: int): Fs
    requires i < |n.addr|
  {
    n.(addr := n.addr[i := b], disk := n.disk[b := Zeros()])
  }

  /** `n` with its last free block as an indirect block at `p`, of which nothing was ever written. */
  ghost function Stranded(n: Fs, p: Pos): Fs
    requires n.st != [] && |n.addr| == 8
  {
    match p
    case Top(i) => if i < 8 then n.(addr := n.addr[i := n.st[0]]) else n
    case Mid(i, j) =>
      if i < 8 && n.addr[i] in n.disk && j < |n.disk[n.addr[i]]|
      then n.(disk := n.disk[n.addr[i] := n.disk[n.addr[i]][j := n.st[0]]]) else n
    case Leaf(_, _) => n
  }

  class FileSys {
    const isize: int
    const fsize: int
    var nfree: int
    var free: Words
    var disk: map<int, Words>
    var addr: seq<int>
    var large: bool
    ghost var st: seq<int>

    ghost function Now(): Fs
      reads this
    {
      Fs(nfree, free, disk, isize, fsize, st, addr, large)
    }

    /** alloc: the number of a block that was free, or 0. */
    method Alloc() returns (bno: int)
      requires ListOk(Now())
      modifies this`nfree, this`free, this`st
      ensures ListOk(Now()) && Popped(old(Now()), Now(), bno)
    {
      hide Chain, ListOk, Popped;
      ghost var n := Now();
      ListFacts(n);
      bno := 0;
      var bad := true;
      while bad
        invariant if bad then Now() == n else Now() == n.(nfree := n.nfree - 1) && n.st != [] && n.nfree > 0
        invariant !bad ==> bno == n.free[nfree]
        decreases bad
      {
        if nfree <= 0 {
          nfree := 0;
          NoSpace(n, Now());
          return 0;
        }
        nfree := nfree - 1;
        bno := free[nfree];
        if bno == 0 {
          nfree := 0;
          NoSpace(n, Now());
          return 0;
        }
        InRange(n);
        bad := BadBlock(isize, fsize, bno);
      }
      InRange(n);
      st := st[..|st| - 1];
      if nfree <= 0 {
        nfree, free := disk[bno][0], disk[bno][1..NICFREE + 1];
      }
      PopKeeps(n, Now());
    }

    /** The list in core, moved out to block `bno`; what else of the buffer goes to the disk is not known. */
    method Spill(bno: int)
      requires |free| == NICFREE
      modifies this`nfree, this`disk
      ensures nfree == 0 && bno in disk && disk == old(disk)[bno := disk[bno]] && |disk[bno]| == WORDS
      ensures disk[bno][..NICFREE + 1] == [old(nfree)] + free
    {
      var junk: Words := *;
      if |junk| != WORDS {
        junk := Zeros();
      }
      disk := disk[bno := [nfree] + free + junk[NICFREE + 1..]];
      nfree := 0;
    }

    /** free: block `bno` back on the list, unless it is no block of the volume. */
    method Free(bno: int)
      requires ListOk(Now()) && bno !in st
      modifies this`nfree, this`free, this`st, this`disk
      ensures ListOk(Now())
      ensures if BadBlock(isize, fsize, bno) then Now() == old(Now()) else Pushed(old(Now()), Now(), bno)
    {
      hide Chain, ListOk;
      ghost var n := Now();
      if BadBlock(isize, fsize, bno) {
        return;
      }
      ListFacts(n);
      if nfree <= 0 {
        nfree := 1;
        free := free[0 := 0];
        EmptyChain(n, free);
      }
      ghost var m := Now();
      if nfree >= NICFREE {
        Spill(bno);
      }
      free := free[nfree := bno];
      nfree := nfree + 1;
      st := st + [bno];
      PushEither(m, Now(), bno);
      PushKeeps(n, Now(), bno);
    }

    /** bmap on an inode that stays small. */
    method SmallMap(bn: nat) returns (nb: int)
      requires FsOk(Now()) && !large && bn < 8
      modifies this`nfree, this`free, this`st, this`disk, this`addr
      ensures SmallDone(old(Now()), Now(), bn, nb)
    {
      hide ListOk, TreeOk, Popped, SmallDone;
      ghost var n := Now();
      TreeFacts(n, bn);
      nb := addr[bn];
      if nb == 0 {
        var b := Alloc();
        if b == 0 {
          NoneLeft(n, Now());
          SmallNone(n, Now(), bn);
          return 0;
        }
        ghost var m := Now();
        disk := disk[b := Zeros()];
        addr := addr[bn := b];
        nb := b;
        SmallStep(n, m, Now(), bn, b);
      } else {
        SmallThere(n, bn);
      }
    }

    /** bmap's large file algorithm with one indirect block. */
    method LargeMap(i: nat, j: nat) returns (nb: int)
      requires FsOk(Now()) && large && i < 7 && j < WORDS
      modifies this`nfree, this`free, this`st, this`disk, this`addr
      ensures MidDone(old(Now()), Now(), i, j, nb)
    {
      hide ListOk, TreeOk, Popped, MidDone;
      ghost var n := Now();
      TreeFacts(n, i);
      Blocks(n, Top(i));
      if addr[i] == 0 {
        var bp := Alloc();
        if bp == 0 {
          NoneLeft(n, Now());
          MidNone(n, Now(), i, j);
          return 0;
        }
        ghost var m := Now();
        addr := addr[i := bp];
        SameList(m, Now());
        var bap := Zeros();
        nb := Alloc();
        if nb != 0 {
          bap := bap[j := nb];
          disk := disk[nb := Zeros()];
          disk := disk[bp := bap];
        }
        MidFresh(n, m, Now(), i, j, bp, nb);
      } else {
        var bp := addr[i];
        var bap := disk[bp];
        nb := bap[j];
        if nb == 0 {
          nb := Alloc();
          if nb != 0 {
            bap := bap[j := nb];
            disk := disk[nb := Zeros()];
            disk := disk[bp := bap];
          }
          MidMore(n, Now(), i, j, nb);
        } else {
          MidThere(n, i, j);
        }
      }
    }

    /** The last step of bmap: the data block number in buffer `bap` of block `bp`, put there if there is none. */
    method Fetch(bp: int, bap: Words, k: nat) returns (nb: int)
      requires ListOk(Now()) && |bap| == WORDS && k < WORDS && bp !in st
      modifies this`nfree, this`free, this`st, this`disk
      ensures Fetched(old(Now()), Now(), bp, bap, k, nb)
    {
      hide ListOk, Popped, Fetched;
      ghost var n := Now();
      nb := bap[k];
      if nb == 0 {
        nb := Alloc();
        if nb != 0 {
          disk := disk[nb := Zeros()];
          disk := disk[bp := bap[k := nb]];
        }
        FetchedNew(n, Now(), bp, bap, k, nb);
      } else {
        FetchedOld(n, bp, bap, k);
      }
    }

    /** bmap's large file algorithm with two indirect blocks. */
    method HugeMap(j: nat, k: nat) returns (nb: int)
      requires FsOk(Now()) && large && j <= 120 && k < WORDS
      modifies this`nfree, this`free, this`st, this`disk, this`addr
      ensures LeafDone(old(Now()), Now(), j, k, nb)
    {
      hide ListOk, TreeOk, Popped, LeafDone, Fetched;
      ghost var n := Now();
      TreeFacts(n, 7);
      Blocks(n, Top(7));
      Blocks(n, Mid(7, j));
      var bp := addr[7];
      var bap := Zeros();
      if bp == 0 {
        bp := Alloc();
        if bp == 0 {
          NoneLeft(n, Now());
          LeafNone(n, Now(), j, k);
          return 0;
        }
        addr := addr[7 := bp];
      } else {
        bap := disk[bp];
      }
      ghost var m := Now();
      var nbp := bap[j];
      if nbp == 0 {
        TopEither(n, m, bp);
        nbp := Alloc();
        if nbp == 0 {
          LeafHalf(n, m, Now(), j, k, bp);
          return 0;
        }
        ghost var m1 := Now();
        disk := disk[bp := bap[j := nbp]];
        LeafReady(n, m, m1, Now(), j, bp, nbp);
        ghost var m2 := Now();
        nb := Fetch(nbp, Zeros(), k);
        LeafFresh(n, m, m1, m2, Now(), j, k, bp, nbp, nb);
      } else {
        nb := Fetch(nbp, disk[nbp], k);
        LeafMore(n, Now(), j, k, nb);
      }
    }

    /** bmap's conversion: the direct blocks move under a new indirect block. */
    method Convert() returns (ok: bool)
      requires FsOk(Now()) && !large
      modifies this`nfree, this`free, this`st, this`disk, this`addr, this`large
      ensures ConvertDone(old(Now()), Now(), ok)
    {
      hide ListOk, TreeOk, Popped, ConvertDone;
      ghost var n := Now();
      SmallSize(n);
      var bp := Alloc();
      if bp == 0 {
        NoneLeft(n, Now());
        ConvertNone(n, Now());
        return false;
      }
      ghost var m := Now();
      var bap := Zeros();
      var i := 0;
      while i < 8
        invariant 0 <= i <= 8 && |bap| == WORDS && |addr| == 8 && Now() == m.(addr := addr)
        invariant forall j :: 0 <= j < i ==> bap[j] == n.addr[j] && addr[j] == 0
        invariant forall j :: i <= j < 8 ==> addr[j] == n.addr[j]
        invariant forall j :: i <= j < WORDS ==> bap[j] == 0
      {
        bap := bap[i := addr[i]];
        addr := addr[i := 0];
        i := i + 1;
      }
      addr := addr[0 := bp];
      disk := disk[bp := bap];
      large := true;
      assert bap == n.addr + Zeros()[8..] && addr == Zeros()[..8][0 := bp];
      ConvertStep(n, m, Now(), bp);
      return true;
    }

    /** bmap: the disk block of block `bn` of the file, allocated if need be; 0 when it cannot be had. */
    method Bmap(bn: int) returns (nb: int)
      requires FsOk(Now())
      modifies this`nfree, this`free, this`st, this`disk, this`addr, this`large
      ensures BmapDone(old(Now()), Now(), bn, nb)
    {
      hide FsOk, SmallDone, ConvertDone, MidDone, LeafDone, BmapDone;
      ghost var n := Now();
      SmallSize(n);
      if bn < 0 || bn > MAXBN {
        TooBig(n, bn);
        return 0;
      }
      if !large {
        if bn < 8 {
          nb := SmallMap(bn);
          SmallEnds(n, Now(), bn, nb);
          return;
        }
        var ok := Convert();
        if !ok {
          ConvertFails(n, Now(), bn);
          return 0;
        }
      }
      ghost var m := Now();
      LargeStart(n, m, bn);
      var i := bn / 256;
      if bn / 2048 != 0 {
        i := 7;
      }
      if i < 7 {
        nb := LargeMap(i, bn % 256);
        MidEnds(n, m, Now(), bn, nb);
      } else {
        nb := HugeMap(bn / 256 - 7, bn % 256);
        LeafEnds(n, m, Now(), bn, nb);
      }
    }

    /** itrunc's loops over an indirect block in its buffer, last entry first, and over those it names. */
    method FreeLevel(w: Words, double: bool)
      requires ListOk(Now()) && Freeable(Now(), Level(disk, w, double, |w|))
      modifies this`nfree, this`free, this`st, this`disk
      ensures ListOk(Now()) && FreedAll(old(Now()), Now(), Level(old(disk), w, double, |w|))
      decreases double
    {
      hide ListOk, Freeable, FreedAll, Level, Pushed, Below, Going;
      ghost var n := Now();
      ghost var done: seq<int> := [];
      GoStart(n, Level(disk, w, double, |w|));
      var k := |w|;
      while k > 0
        invariant 0 <= k <= |w| && ListOk(Now()) && Going(n, Now(), done, Level(n.disk, w, double, k))
        invariant done + Level(n.disk, w, double, k) == Level(n.disk, w, double, |w|)
      {
        LevelStep(n.disk, w, double, k, done);
        k := k - 1;
        var c := w[k];
        ghost var rest := Level(n.disk, w, double, k);
        if c != 0 {
          ghost var m := Now();
          if double {
            GoBelow(n, m, done, c, rest);
            FreeLevel(disk[c], false);
          }
          GoDown(n, m, Now(), done, c, double, rest);
          done := done + Below(n.disk, c, double);
          ghost var m1 := Now();
          GoFree(n, m1, done, c, rest);
          Free(c);
          GoNext(n, m1, Now(), done, c, rest);
          done := done + [c];
        }
      }
      LevelNone(n.disk, w, double, done);
      GoDone(n, Now(), done, Level(n.disk, w, double, 0));
    }

    /** itrunc: the blocks of the file go back to the free list, last first, and the inode is empty.
        Special files have none. */
    method Itrunc(special: bool)
      requires FsOk(Now())
      modifies this`nfree, this`free, this`st, this`disk, this`addr, this`large
      ensures FsOk(Now())
      ensures special ==> Now() == old(Now())
      ensures !special ==> addr == [0, 0, 0, 0, 0, 0, 0, 0] && !large
      ensures !special ==> st == old(st) + Entries(old(disk), old(addr), old(large), |old(addr)|)
      ensures disk.Keys == old(disk).Keys
      ensures forall b :: b in old(disk) && b !in Entries(old(disk), old(addr), old(large), |old(addr)|) ==>
        disk[b] == old(disk)[b]
    {
      hide FsOk, ListOk, Freeable, FreedAll, Level, Pushed, Going, Entries;
      ghost var n := Now();
      TruncStart(n);
      if special {
        return;
      }
      ghost var done: seq<int> := [];
      var ip := 8;
      while ip > 0
        invariant 0 <= ip <= 8 && ListOk(Now()) && |addr| == 8 && large == n.large
        invariant Going(n, Now().(addr := n.addr), done, Entries(n.disk, n.addr, n.large, ip))
        invariant done + Entries(n.disk, n.addr, n.large, ip) == Entries(n.disk, n.addr, n.large, 8)
        invariant forall j :: 0 <= j < 8 ==> addr[j] == if j < ip then n.addr[j] else 0
      {
        EntriesStep(n.disk, n.addr, n.large, ip);
        ip := ip - 1;
        var c := addr[ip];
        ghost var rest := Entries(n.disk, n.addr, n.large, ip);
        if c != 0 {
          ghost var m := Now().(addr := n.addr);
          ghost var under, before := Under(n, ip), done;
          if large {
            GoEntry(n, m, done, ip, rest);
            FreeableAddr(Now(), under, n.addr);
            ghost var m0 := Now();
            FreeLevel(disk[c], ip == 7);
            FreedAddr(m0, Now(), under, n.addr);
          }
          GoUnder(n, m, Now().(addr := n.addr), done, ip, rest);
          done := done + under;
          ghost var m1 := Now().(addr := n.addr);
          GoFree(n, m1, done, c, rest);
          Regroup(before, under, c, rest);
          ghost var m2 := Now();
          Free(c);
          PushedAddr(m2, Now(), c, n.addr);
          GoNext(n, m1, Now().(addr := n.addr), done, c, rest);
          done := done + [c];
          ghost var m3 := Now();
          addr := addr[ip := 0];
          SameList(m3, Now());
        }
      }
      large := false;
      TruncEnd(n, done, Now());
      EmptyFileOk(Now());
    }
  }

  /** These blocks may be freed, in this order. */
  ghost predicate Freeable(n: Fs, s: seq<int>) {
    NoDup(n.st + s) && forall x :: x in s ==> !BadBlock(n.isize, n.fsize, x)
  }

  ghost predicate FreedAll(n: Fs, n': Fs, s: seq<int>) {
    && n' == n.(nfree := n'.nfree, free := n'.free, st := n.st + s, disk := n'.disk)
    && n'.disk.Keys == n.disk.Keys && forall b :: b in n.disk && b !in s ==> n'.disk[b] == n.disk[b]
  }

  /** On the way: `done` has been freed since `n`, and `todo` can be. */
  ghost predicate Going(n: Fs, m: Fs, done: seq<int>, todo: seq<int>) {
    Freeable(n, done + todo) && FreedAll(n, m, done) && DiskOk(n)
  }

  lemma GoStart(n: Fs, s: seq<int>)
    requires Freeable(n, s) && ListOk(n)
    ensures Going(n, n, [], s) && [] + s == s
  {
    hide Chain;
    assert n.st + [] == n.st && [] + s == s;
  }

  lemma GoDone(n: Fs, m: Fs, done: seq<int>, todo: seq<int>)
    requires Going(n, m, done, todo)
    ensures FreedAll(n, m, done)
  {
  }

  lemma LevelStep(disk: map<int, Words>, w: Words, double: bool, k: nat, done: seq<int>)
    requires 0 < k <= |w|
    ensures var rest := Level(disk, w, double, k - 1);
      && Level(disk, w, double, k)
         == (if w[k - 1] == 0 then rest else Below(disk, w[k - 1], double) + ([w[k - 1]] + rest))
      && (w[k - 1] != 0 ==>
            done + Level(disk, w, double, k) == done + Below(disk, w[k - 1], double) + [w[k - 1]] + rest)
      && (w[k - 1] == 0 ==> done + Level(disk, w, double, k) == done + rest)
  {
    hide Below, Level;
    LevelOne(disk, w, double, k);
    Regroups(done, Below(disk, w[k - 1], double), w[k - 1], Level(disk, w, double, k - 1));
  }

  lemma LevelOne(disk: map<int, Words>, w: Words, double: bool, k: nat)
    requires 0 < k <= |w|
    ensures var rest := Level(disk, w, double, k - 1);
      Level(disk, w, double, k) == if w[k - 1] == 0 then rest else Below(disk, w[k - 1], double) + [w[k - 1]] + rest
  {
    hide Below;
    assert [] + Level(disk, w, double, k - 1) == Level(disk, w, double, k - 1);
  }

  lemma Regroups(done: seq<int>, b: seq<int>, c: int, rest: seq<int>)
    ensures b + [c] + rest == b + ([c] + rest) && done + (b + [c] + rest) == done + b + [c] + rest
  {
  }

  lemma LevelNone(disk: map<int, Words>, w: Words, double: bool, done: seq<int>)
    ensures done + Level(disk, w, double, 0) == done
  {
    assert done + [] == done;
  }

  lemma LevelFlat(d: map<int, Words>, d': map<int, Words>, w: Words, k: nat)
    requires k <= |w|
    ensures Level(d, w, false, k) == Level(d', w, false, k)
  {
  }

  /** The next block to free is not free, and is on the disk as it was at the start. */
  lemma GoFree(n: Fs, m: Fs, done: seq<int>, c: int, rest: seq<int>)
    requires Going(n, m, done, [c] + rest)
    ensures c !in m.st && !BadBlock(n.isize, n.fsize, c) && m.isize == n.isize && m.fsize == n.fsize
    ensures c in m.disk && c in n.disk && m.disk[c] == n.disk[c] && c !in done
  {
    var s := [c] + rest;
    assert n.st + (done + s) == (n.st + done) + s && s[0] == c;
    NoDupParts(n.st + done, s);
    assert forall x :: x in done ==> x in n.st + done;
    assert c in s && c in done + s;
  }

  lemma GoNext(n: Fs, m: Fs, m': Fs, done: seq<int>, c: int, rest: seq<int>)
    requires Going(n, m, done, [c] + rest) && Pushed(m, m', c)
    ensures Going(n, m', done + [c], rest)
  {
    assert done + ([c] + rest) == (done + [c]) + rest;
    assert n.st + done + [c] == n.st + (done + [c]);
  }

  lemma GoSplit(n: Fs, m: Fs, done: seq<int>, a: seq<int>, rest: seq<int>)
    requires Going(n, m, done, a + rest)
    ensures Freeable(m, a)
  {
    assert n.st + (done + (a + rest)) == (m.st + a) + rest;
    NoDupParts(m.st + a, rest);
    assert forall x :: x in a ==> x in done + (a + rest);
  }

  lemma GoMany(n: Fs, m: Fs, m': Fs, done: seq<int>, a: seq<int>, rest: seq<int>)
    requires Going(n, m, done, a + rest) && FreedAll(m, m', a)
    ensures Going(n, m', done + a, rest)
  {
    assert done + (a + rest) == (done + a) + rest;
    assert n.st + done + a == n.st + (done + a);
  }

  /** The entries of a second-level block can be freed. */
  lemma GoBelow(n: Fs, m: Fs, done: seq<int>, c: int, rest: seq<int>)
    requires Going(n, m, done, Below(n.disk, c, true) + ([c] + rest))
    ensures c in m.disk && c in n.disk && m.disk[c] == n.disk[c]
    ensures Freeable(m, Level(m.disk, m.disk[c], false, |m.disk[c]|))
  {
    hide Level, Going;
    GoRead(n, m, done, Below(n.disk, c, true), c, rest);
    GoSplit(n, m, done, Below(n.disk, c, true), [c] + rest);
    LevelFlat(n.disk, m.disk, n.disk[c], |n.disk[c]|);
  }

  lemma GoRead(n: Fs, m: Fs, done: seq<int>, b: seq<int>, c: int, rest: seq<int>)
    requires Going(n, m, done, b + ([c] + rest))
    ensures c in m.disk && c in n.disk && m.disk[c] == n.disk[c]
  {
    var s := b + ([c] + rest);
    assert n.st + (done + s) == (n.st + done) + s && s[|b|] == c;
    NoDupParts(n.st + done, s);
    assert forall x :: x in done ==> x in n.st + done;
    assert c in s && c in done + s;
  }

  lemma GoDown(n: Fs, m: Fs, m': Fs, done: seq<int>, c: int, double: bool, rest: seq<int>)
    requires Going(n, m, done, Below(n.disk, c, double) + ([c] + rest))
    requires if double then c in m.disk && FreedAll(m, m', Level(m.disk, m.disk[c], false, |m.disk[c]|)) else m' == m
    ensures Going(n, m', done + Below(n.disk, c, double), [c] + rest)
  {
    hide Level, Going, FreedAll;
    var b := Below(n.disk, c, double);
    if double {
      GoRead(n, m, done, b, c, rest);
      LevelFlat(n.disk, m.disk, n.disk[c], |n.disk[c]|);
      GoMany(n, m, m', done, b, [c] + rest);
    } else {
      assert done + [] == done && [] + ([c] + rest) == [c] + rest;
    }
  }

  /** What lies under entry `i` of the inode. */
  ghost function Under(n: Fs, i: nat): seq<int>
    requires i < |n.addr|
  {
    if n.large && n.addr[i] in n.disk then Level(n.disk, n.disk[n.addr[i]], i == 7, |n.disk[n.addr[i]]|) else []
  }

  lemma TruncStart(n: Fs)
    requires FsOk(n)
    ensures |n.addr| == 8 && ListOk(n) && Going(n, n.(addr := n.addr), [], Entries(n.disk, n.addr, n.large, 8))
    ensures [] + Entries(n.disk, n.addr, n.large, 8) == Entries(n.disk, n.addr, n.large, 8)
  {
    hide Entries, Chain, TreeOk;
    FreedExactly(n);
    SmallSize(n);
    GoStart(n, Entries(n.disk, n.addr, n.large, 8));
  }

  lemma EntriesStep(disk: map<int, Words>, addr: seq<int>, large: bool, k: nat)
    requires 0 < k <= |addr|
    ensures var rest := Entries(disk, addr, large, k - 1); var a := addr[k - 1];
      var u := if large && a in disk then Level(disk, disk[a], k - 1 == 7, |disk[a]|) else [];
      Entries(disk, addr, large, k) == if a == 0 then rest else u + ([a] + rest)
  {
    hide Level, Entries;
    EntriesOpen(disk, addr, large, k);
    var rest, a := Entries(disk, addr, large, k - 1), addr[k - 1];
    var u := if large && a in disk then Level(disk, disk[a], k - 1 == 7, |disk[a]|) else [];
    if a == 0 {
      assert [] + rest == rest;
    } else {
      assert (u + [a]) + rest == u + ([a] + rest);
    }
  }

  lemma EntriesOpen(disk: map<int, Words>, addr: seq<int>, large: bool, k: nat)
    requires 0 < k <= |addr|
    ensures Entries(disk, addr, large, k) == Entry(disk, addr, large, k - 1) + Entries(disk, addr, large, k - 1)
  {
  }

  lemma Regroup(done: seq<int>, u: seq<int>, a: int, rest: seq<int>)
    ensures done + (u + ([a] + rest)) == done + u + [a] + rest
  {
  }

  /** The list does not depend on the inode. */
  lemma FreedAddr(a: Fs, b: Fs, s: seq<int>, addr: seq<int>)
    requires FreedAll(a, b, s)
    ensures FreedAll(a.(addr := addr), b.(addr := addr), s)
  {
  }

  lemma PushedAddr(a: Fs, b: Fs, c: int, addr: seq<int>)
    requires Pushed(a, b, c)
    ensures Pushed(a.(addr := addr), b.(addr := addr), c)
  {
  }

  lemma FreeableAddr(a: Fs, s: seq<int>, addr: seq<int>)
    requires Freeable(a.(addr := addr), s)
    ensures Freeable(a, s)
  {
  }

  /** Deeper lists read only blocks that are not freed before them. */
  lemma {:induction false} LevelKept(n: Fs, m: Fs, w: Words, double: bool, k: nat)
    requires k <= |w|
    requires forall b :: b in Level(n.disk, w, double, k) && b in n.disk ==> b in m.disk && m.disk[b] == n.disk[b]
    requires n.disk.Keys == m.disk.Keys
    ensures Level(m.disk, w, double, k) == Level(n.disk, w, double, k)
    decreases double, k
  {
    if k > 0 {
      var c, rest := w[k - 1], Level(n.disk, w, double, k - 1);
      assert forall b :: b in rest ==> b in Level(n.disk, w, double, k);
      LevelKept(n, m, w, double, k - 1);
      if c != 0 {
        assert Level(n.disk, w, double, k)[|Below(n.disk, c, double)|] == c;
        assert c in Level(n.disk, w, double, k);
        if double && c in n.disk {
          LevelFlat(n.disk, m.disk, n.disk[c], |n.disk[c]|);
        }
      }
    }
  }

  lemma GoEntry(n: Fs, m: Fs, done: seq<int>, i: nat, rest: seq<int>)
    requires i < |n.addr| && n.large && n.addr[i] != 0
    requires Going(n, m, done, Under(n, i) + ([n.addr[i]] + rest))
    ensures n.addr[i] in m.disk && n.addr[i] in n.disk && m.disk[n.addr[i]] == n.disk[n.addr[i]]
    ensures Level(m.disk, m.disk[n.addr[i]], i == 7, |m.disk[n.addr[i]]|) == Under(n, i)
    ensures Freeable(m, Under(n, i))
  {
    hide Level, Going;
    var c := n.addr[i];
    GoRead(n, m, done, Under(n, i), c, rest);
    GoSplit(n, m, done, Under(n, i), [c] + rest);
    GoKept(n, m, done, Under(n, i), [c] + rest);
    LevelKept(n, m, n.disk[c], i == 7, |n.disk[c]|);
  }

  lemma GoKept(n: Fs, m: Fs, done: seq<int>, a: seq<int>, rest: seq<int>)
    requires Going(n, m, done, a + rest)
    ensures n.disk.Keys == m.disk.Keys && forall b :: b in a && b in n.disk ==> m.disk[b] == n.disk[b]
  {
    assert n.st + (done + (a + rest)) == (n.st + done) + (a + rest);
    NoDupParts(n.st + done, a + rest);
    assert forall x :: x in done ==> x in n.st + done;
    assert forall x :: x in a ==> x in a + rest;
  }

  lemma GoUnder(n: Fs, m: Fs, m': Fs, done: seq<int>, i: nat, rest: seq<int>)
    requires i < |n.addr| && n.addr[i] != 0
    requires Going(n, m, done, Under(n, i) + ([n.addr[i]] + rest))
    requires if n.large then FreedAll(m, m', Under(n, i)) else m' == m
    ensures Going(n, m', done + Under(n, i), [n.addr[i]] + rest)
  {
    hide Level, Going, FreedAll;
    if n.large {
      GoMany(n, m, m', done, Under(n, i), [n.addr[i]] + rest);
    } else {
      assert done + [] == done && [] + ([n.addr[i]] + rest) == [n.addr[i]] + rest;
    }
  }

  lemma EmptyFileOk(n: Fs)
    requires ListOk(n) && !n.large && n.addr == [0, 0, 0, 0, 0, 0, 0, 0]
    ensures FsOk(n)
  {
    hide ListOk;
    assert forall p :: At(n, p) == 0;
  }

  lemma TruncEnd(n: Fs, done: seq<int>, n': Fs)
    requires |n.addr| == 8 && |n'.addr| == 8 && forall j :: 0 <= j < 8 ==> n'.addr[j] == 0
    requires Going(n, n'.(addr := n.addr, large := n.large), done, Entries(n.disk, n.addr, n.large, 0))
    requires done + Entries(n.disk, n.addr, n.large, 0) == Entries(n.disk, n.addr, n.large, 8)
    requires ListOk(n'.(large := n.large))
    ensures ListOk(n') && n'.addr == [0, 0, 0, 0, 0, 0, 0, 0] && n'.st == n.st + Entries(n.disk, n.addr, n.large, 8)
    ensures n'.disk.Keys == n.disk.Keys
    ensures forall b :: b in n.disk && b !in Entries(n.disk, n.addr, n.large, 8) ==> n'.disk[b] == n.disk[b]
  {
    hide Chain;
    SameList(n'.(large := n.large), n');
    assert done + [] == done;
  }

  ghost predicate Fetched(n: Fs, n': Fs, bp: int, bap: Words, k: nat, nb: int) {
    && |bap| == WORDS && k < WORDS && ListOk(n')
    && if bap[k] != 0 then n' == n && nb == bap[k]
       else
         && Popped(n, n.(nfree := n'.nfree, free := n'.free, st := n'.st), nb)
         && n' == n.(nfree := n'.nfree, free := n'.free, st := n'.st,
                     disk := if nb == 0 then n.disk else n.disk[bp := bap[k := nb]][nb := Zeros()])
  }

  lemma FetchedOld(n: Fs, bp: int, bap: Words, k: nat)
    requires ListOk(n) && |bap| == WORDS && k < WORDS && bap[k] != 0
    ensures Fetched(n, n, bp, bap, k, bap[k])
  {
  }

  lemma FetchedNew(n: Fs, n': Fs, bp: int, bap: Words, k: nat, nb: int)
    requires ListOk(n) && |bap| == WORDS && k < WORDS && bap[k] == 0 && bp !in n.st
    requires var m := n.(nfree := n'.nfree, free := n'.free, st := n'.st);
      && ListOk(m) && Popped(n, m, nb)
      && n' == if nb == 0 then m else m.(disk := m.disk[nb := Zeros()][bp := bap[k := nb]])
    ensures Fetched(n, n', bp, bap, k, nb)
  {
    hide ListOk, Popped;
    var m := n.(nfree := n'.nfree, free := n'.free, st := n'.st);
    PoppedSame(n, m, nb);
    if nb != 0 {
      WriteTwo(n, m, n', nb, bp, bap[k := nb]);
    }
  }

  lemma LeafNone(n: Fs, n': Fs, j: nat, k: nat)
    requires n.st == [] && Drained(n, n') && |n.addr| == 8 && j <= 120 && k < WORDS && n.addr[7] == 0
    ensures LeafDone(n, n', j, k, 0)
  {
  }

  /** The double indirect block of `n` as bmap holds it: the one there was, or a new one. */
  ghost predicate TopHeld(n: Fs, m: Fs, bp: int) {
    && |n.addr| == 8 && ListOk(m)
    && if n.addr[7] != 0 then m == n && bp == n.addr[7]
       else bp != 0 && Popped(n, m.(addr := n.addr), bp) && m.addr == n.addr[7 := bp]
  }

  lemma TopEither(n: Fs, m: Fs, bp: int)
    requires |n.addr| == 8 && FsOk(n)
    requires if n.addr[7] != 0 then m == n && bp == n.addr[7]
             else bp != 0 && Popped(n, m.(addr := n.addr), bp) && ListOk(m.(addr := n.addr))
                  && m.addr == n.addr[7 := bp]
    ensures TopHeld(n, m, bp) && ListOk(m) && |m.addr| == 8 && bp !in m.st
  {
    hide ListOk, Popped, TreeOk;
    Blocks(n, Top(7));
    if n.addr[7] == 0 {
      SameList(m.(addr := n.addr), m);
      PoppedSame(n, m.(addr := n.addr), bp);
    }
  }

  /** No block for the second level. */
  lemma LeafHalf(n: Fs, m: Fs, n': Fs, j: nat, k: nat, bp: int)
    requires FsOk(n) && n.large && TopHeld(n, m, bp) && j <= 120 && k < WORDS && At(n, Mid(7, j)) == 0
    requires Popped(m, n', 0) && ListOk(n')
    ensures LeafDone(n, n', j, k, 0)
  {
    hide ListOk, TreeOk, Popped;
    PoppedSame(m, n', 0);
    if n.addr[7] == 0 {
      PoppedSame(n, m.(addr := n.addr), bp);
    }
  }

  /** The tree with the second-level block `nbp` in it, empty. */
  ghost function WithMid(v: Fs, j: nat, nbp: int): Fs
    requires |v.addr| == 8 && v.addr[7] in v.disk && j < |v.disk[v.addr[7]]|
  {
    v.(disk := v.disk[v.addr[7] := v.disk[v.addr[7]][j := nbp]][nbp := Zeros()])
  }

  /** What the blocks of level one amount to once the new one, if any, is taken as empty. */
  ghost function Base(n: Fs, m: Fs, bp: int): Fs
    requires |n.addr| == 8
  {
    if n.addr[7] != 0 then n else m.(disk := n.disk[bp := Zeros()])
  }

  lemma BaseKeeps(n: Fs, m: Fs, bp: int)
    requires FsOk(n) && n.large && TopHeld(n, m, bp)
    ensures var v := Base(n, m, bp);
      && TreeOk(v) && v.large && v.addr == m.addr && v.addr[7] == bp && bp != 0 && Kept(n, v, -1) && v.st == m.st
      && v.isize == n.isize && v.fsize == n.fsize && bp in v.disk && |v.disk[bp]| == WORDS && ListOk(v)
      && v.nfree == m.nfree && v.free == m.free && m.large && m.isize == n.isize && m.fsize == n.fsize && bp !in m.st
    ensures ListOk(m) && |m.addr| == 8
  {
    hide ListOk, TreeOk, Popped, Kept;
    TreeFacts(n, 7);
    Blocks(n, Top(7));
    if n.addr[7] == 0 {
      var k, v := m.(addr := n.addr), Base(n, m, bp);
      PoppedSame(n, k, bp);
      SameList(m, k);
      PoppedFacts(n, k, bp);
      TopTree(n, v, 7, bp);
      WriteKeepsList(m, v, bp, Zeros());
    } else {
      KeptSelf(n, -1);
    }
  }

  /** Ready to fetch: the second-level number is written; neither level is free. */
  lemma LeafReady(n: Fs, m: Fs, m1: Fs, m2: Fs, j: nat, bp: int, nbp: int)
    requires FsOk(n) && n.large && TopHeld(n, m, bp) && j <= 120 && At(n, Mid(7, j)) == 0
    requires ListOk(m1) && Popped(m, m1, nbp) && nbp != 0
    requires var bap := if n.addr[7] != 0 && bp in n.disk then n.disk[bp] else Zeros();
      |bap| == WORDS && m2 == m1.(disk := m1.disk[bp := bap[j := nbp]])
    ensures ListOk(m2) && nbp !in m2.st && bp !in m2.st && bp != nbp
  {
    hide ListOk, TreeOk, Popped;
    BaseKeeps(n, m, bp);
    PoppedSame(m, m1, nbp);
    var bap := if n.addr[7] != 0 && bp in n.disk then n.disk[bp] else Zeros();
    WriteKeepsList(m1, m2, bp, bap[j := nbp]);
  }

  lemma LeafFresh(n: Fs, m: Fs, m1: Fs, m2: Fs, n': Fs, j: nat, k: nat, bp: int, nbp: int, nb: int)
    requires FsOk(n) && n.large && TopHeld(n, m, bp) && j <= 120 && k < WORDS && At(n, Mid(7, j)) == 0
    requires ListOk(m1) && Popped(m, m1, nbp) && nbp != 0
    requires var bap := if n.addr[7] != 0 && bp in n.disk then n.disk[bp] else Zeros();
      |bap| == WORDS && m2 == m1.(disk := m1.disk[bp := bap[j := nbp]])
    requires Fetched(m2, n', nbp, Zeros(), k, nb)
    ensures LeafDone(n, n', j, k, nb)
  {
    hide ListOk, TreeOk, Popped, Kept, TopHeld;
    SmallSize(n);
    BaseKeeps(n, m, bp);
    PoppedSame(m, m1, nbp);
    var v := Base(n, m, bp);
    HeldSame(n, m, bp);
    PoppedFacts(m, m1, nbp);
    PoppedSame(m2, n'.(disk := m2.disk), nb);
    if nb == 0 {
      assert m1.st == [] && m.st == [nbp];
    } else {
      LeafReady(n, m, m1, m2, j, bp, nbp);
      PoppedFacts(m2, n'.(disk := m2.disk), nb);
      var w := WithMid(v, j, nbp).(st := m1.st);
      assert At(v, Mid(7, j)) == 0;
      MidTree(v, w, 7, j, nbp);
      assert w.disk == m2.disk[nbp := Zeros()];
      assert n'.disk == w.disk[nbp := w.disk[nbp][k := nb]][nb := Zeros()];
      LeafTree(w, n', j, k, nb);
      KeptTrans(n, v, w, -1);
      KeptTrans(n, w, n', (j + 7) * 256 + k);
    }
  }

  lemma HeldSame(n: Fs, m: Fs, bp: int)
    requires TopHeld(n, m, bp)
    ensures if n.addr[7] != 0 then m == n
            else m.disk == n.disk && |n.st| == |m.st| + 1 && bp == n.st[|n.st| - 1] && m.st == n.st[..|n.st| - 1]
                 && m.addr == n.addr[7 := bp] && m == n.(nfree := m.nfree, free := m.free, st := m.st, addr := m.addr)
  {
  }

  lemma LeafMore(n: Fs, n': Fs, j: nat, k: nat, nb: int)
    requires FsOk(n) && n.large && j <= 120 && k < WORDS && At(n, Mid(7, j)) != 0
    requires At(n, Mid(7, j)) in n.disk && Fetched(n, n', At(n, Mid(7, j)), n.disk[At(n, Mid(7, j))], k, nb)
    ensures LeafDone(n, n', j, k, nb)
  {
    hide ListOk, TreeOk, Popped, Kept;
    SmallSize(n);
    var d := At(n, Mid(7, j));
    Blocks(n, Mid(7, j));
    if n.disk[d][k] != 0 {
      KeptSelf(n, (j + 7) * 256 + k);
    } else {
      PoppedSame(n, n'.(disk := n.disk), nb);
      if nb != 0 {
        PoppedFacts(n, n'.(disk := n.disk), nb);
        LeafTree(n, n', j, k, nb);
      }
    }
  }

  ghost predicate ConvertDone(n: Fs, n': Fs, ok: bool) {
    && |n.addr| == 8 && ok == (n.st != [])
    && if ok then FsOk(n') && n' == Enlarged(n).(nfree := n'.nfree, free := n'.free) && Kept(n, n', -1)
       else Drained(n, n')
  }

  lemma ConvertNone(n: Fs, n': Fs)
    requires n.st == [] && Drained(n, n') && |n.addr| == 8
    ensures ConvertDone(n, n', false)
  {
  }

  lemma ConvertStep(n: Fs, m: Fs, n': Fs, bp: int)
    requires FsOk(n) && !n.large && |n.addr| == 8 && ListOk(m) && Popped(n, m, bp) && bp != 0
    requires n' == m.(addr := Zeros()[..8][0 := bp], disk := n.disk[bp := n.addr + Zeros()[8..]], large := true)
    ensures ConvertDone(n, n', true)
  {
    hide ListOk, TreeOk, Popped, Kept;
    PoppedFacts(n, m, bp);
    PoppedSame(n, m, bp);
    var w := n.addr + Zeros()[8..];
    WriteKeepsList(m, m.(disk := n.disk[bp := w]), bp, w);
    SameList(m.(disk := n.disk[bp := w]), n');
    ConvertKeeps(n, n', bp);
    ConvertKept(n, n', bp);
  }

  lemma TooBig(n: Fs, bn: int)
    requires |n.addr| == 8 && (bn < 0 || bn > MAXBN)
    ensures BmapDone(n, n, bn, 0)
  {
  }

  lemma SmallEnds(n: Fs, n': Fs, bn: nat, nb: int)
    requires FsOk(n) && !n.large && bn < 8 && SmallDone(n, n', bn, nb)
    ensures BmapDone(n, n', bn, nb)
  {
    hide FsOk, Kept, Drained;
  }

  lemma ConvertFails(n: Fs, n': Fs, bn: nat)
    requires !n.large && 8 <= bn <= MAXBN && ConvertDone(n, n', false)
    ensures BmapDone(n, n', bn, 0)
  {
    hide FsOk, Kept, Drained;
  }

  /** The file as the large algorithm finds it. */
  ghost predicate Start(n: Fs, m: Fs, bn: nat) {
    && |n.addr| == 8 && FsOk(n) && FsOk(m) && m.large && bn <= MAXBN && Kept(n, m, -1)
    && if n.large then m == n
       else bn >= 8 && n.st != [] && m == Enlarged(n).(nfree := m.nfree, free := m.free)
  }

  lemma LargeStart(n: Fs, m: Fs, bn: nat)
    requires FsOk(n) && |n.addr| == 8 && bn <= MAXBN
    requires if n.large then m == n else bn >= 8 && ConvertDone(n, m, true)
    ensures Start(n, m, bn)
  {
    hide FsOk, Kept;
    KeptSelf(n, -1);
  }

  /** What must be allocated below the inode entry, plus the block the conversion took, is what was needed. */
  lemma NeedsAgree(n: Fs, m: Fs, bn: nat)
    requires Start(n, m, bn)
    ensures Need(n, bn) == Need(m, bn) + (if n.large then 0 else 1)
    ensures |m.st| == |n.st| - (if n.large then 0 else 1) && |m.addr| == 8
    ensures Lookup(m, bn) == Lookup(n, bn) && (!n.large ==> Lookup(n, bn) == 0)
    ensures n.large || (m.st == Enlarged(n).st && m.addr == Enlarged(n).addr && m.disk == Enlarged(n).disk)
  {
    if !n.large {
      var b := n.st[|n.st| - 1];
      assert b in n.st;
      ConvertedAt(n, m, b, PosOf(true, bn));
      ConvertedAt(n, m, b, Top(if bn / 256 < 7 then bn / 256 else 7));
      if bn / 256 >= 7 {
        ConvertedAt(n, m, b, Mid(7, bn / 256 - 7));
      }
    }
  }

  lemma LargeEnds(n: Fs, m: Fs, n': Fs, bn: nat, nb: int)
    requires Start(n, m, bn) && |m.st| >= Need(m, bn) && Mapped(m, n', PosOf(true, bn), bn, nb)
    ensures BmapDone(n, n', bn, nb)
  {
    hide FsOk, Kept;
    NeedsAgree(n, m, bn);
    KeptTrans(n, m, n', bn);
  }

  lemma LargeFails(n: Fs, m: Fs, n': Fs, bn: nat)
    requires Start(n, m, bn) && |m.addr| == 8 && |m.st| < Need(m, bn) && Drained(HalfLarge(m, bn), n')
    ensures BmapDone(n, n', bn, 0)
  {
    hide FsOk, Kept, ListOk;
    NeedsAgree(n, m, bn);
    if !n.large {
      var k := Enlarged(n);
      assert m == k.(nfree := m.nfree, free := m.free);
      HalfSame(k, m, bn);
    }
  }

  lemma HalfSame(k: Fs, m: Fs, bn: nat)
    requires m == k.(nfree := m.nfree, free := m.free) && |k.addr| == 8
    ensures HalfLarge(m, bn) == HalfLarge(k, bn).(nfree := m.nfree, free := m.free)
  {
    hide HalfMid, HalfLeaf;
    HalfMidSame(k, m, bn / 256);
    if bn / 256 >= 7 {
      HalfLeafSame(k, m, bn / 256 - 7);
    }
  }

  lemma HalfMidSame(k: Fs, m: Fs, i: nat)
    requires m == k.(nfree := m.nfree, free := m.free) && |k.addr| == 8
    ensures i < 7 ==> HalfMid(m, i) == HalfMid(k, i).(nfree := m.nfree, free := m.free)
  {
  }

  lemma HalfLeafSame(k: Fs, m: Fs, j: nat)
    requires m == k.(nfree := m.nfree, free := m.free) && |k.addr| == 8
    ensures HalfLeaf(m, j) == HalfLeaf(k, j).(nfree := m.nfree, free := m.free)
  {
  }

  lemma MidEnds(n: Fs, m: Fs, n': Fs, bn: nat, nb: int)
    requires Start(n, m, bn) && bn / 256 < 7 && MidDone(m, n', bn / 256, bn % 256, nb)
    ensures BmapDone(n, n', bn, nb)
  {
    hide FsOk, Kept, Mapped, Drained;
    if |m.st| >= Need(m, bn) {
      LargeEnds(n, m, n', bn, nb);
    } else {
      LargeFails(n, m, n', bn);
    }
  }

  lemma LeafEnds(n: Fs, m: Fs, n': Fs, bn: nat, nb: int)
    requires Start(n, m, bn) && bn / 256 >= 7 && LeafDone(m, n', bn / 256 - 7, bn % 256, nb)
    ensures BmapDone(n, n', bn, nb)
  {
    hide FsOk, Kept, Mapped, Drained;
    if |m.st| >= Need(m, bn) {
      LargeEnds(n, m, n', bn, nb);
    } else {
      LargeFails(n, m, n', bn);
    }
  }

  ghost predicate SmallDone(n: Fs, n': Fs, bn: nat, nb: int) {
    && |n.addr| == 8 && bn < 8
    && if n.addr[bn] != 0 || n.st != [] then Mapped(n, n', Top(bn), bn, nb)
       else nb == 0 && Drained(n, n')
  }

  lemma NoneLeft(n: Fs, n': Fs)
    requires Popped(n, n', 0) && ListOk(n')
    ensures n.st == [] && Drained(n, n')
  {
  }

  lemma SmallNone(n: Fs, n': Fs, bn: nat)
    requires n.st == [] && Drained(n, n') && |n.addr| == 8 && bn < 8 && n.addr[bn] == 0
    ensures SmallDone(n, n', bn, 0)
  {
  }

  lemma MidNone(n: Fs, n': Fs, i: nat, j: nat)
    requires n.st == [] && Drained(n, n') && |n.addr| == 8 && i < 7 && j < WORDS && n.addr[i] == 0
    ensures MidDone(n, n', i, j, 0)
  {
  }

  lemma KeptSelf(n: Fs, bn: int)
    ensures Kept(n, n, bn)
  {
  }

  lemma SmallThere(n: Fs, bn: nat)
    requires FsOk(n) && !n.large && bn < 8 && n.addr[bn] != 0
    ensures SmallDone(n, n, bn, n.addr[bn])
  {
    hide FsOk, Kept;
    KeptSelf(n, bn);
    SmallSize(n);
  }

  lemma SmallSize(n: Fs)
    requires FsOk(n)
    ensures |n.addr| == 8
  {
  }

  /** A block kept in the tree is on the disk, whole. */
  lemma Blocks(n: Fs, p: Pos)
    requires FsOk(n)
    ensures At(n, p) != 0 ==> At(n, p) in n.disk && |n.disk[At(n, p)]| == WORDS && At(n, p) !in n.st
  {
  }

  lemma SmallStep(n: Fs, m: Fs, n': Fs, bn: nat, b: int)
    requires FsOk(n) && !n.large && bn < 8 && |n.addr| == 8 && n.addr[bn] == 0
    requires ListOk(m) && Popped(n, m, b) && b != 0
    requires n' == m.(disk := m.disk[b := Zeros()], addr := n.addr[bn := b])
    ensures SmallDone(n, n', bn, b)
  {
    hide ListOk, TreeOk, Popped, Kept;
    PoppedFacts(n, m, b);
    PoppedSame(n, m, b);
    WriteKeepsList(m, n', b, Zeros());
    SmallTree(n, n', bn, b);
  }

  lemma PoppedSame(n: Fs, m: Fs, b: int)
    requires Popped(n, m, b)
    ensures m == n.(nfree := m.nfree, free := m.free, st := m.st)
    ensures |m.st| == if n.st == [] then 0 else |n.st| - 1
    ensures b != 0 <==> n.st != []
    ensures b != 0 ==> b == n.st[|n.st| - 1] && b !in m.st && b in n.st && m.st == n.st[..|n.st| - 1]
  {
  }

  lemma MidThere(n: Fs, i: nat, j: nat)
    requires FsOk(n) && n.large && i < 7 && j < WORDS && At(n, Mid(i, j)) != 0
    ensures MidDone(n, n, i, j, At(n, Mid(i, j)))
  {
    hide FsOk, Kept;
    KeptSelf(n, i * 256 + j);
    SmallSize(n);
  }

  /** A data block more, or none, under an indirect block that is there. */
  lemma MidMore(n: Fs, n': Fs, i: nat, j: nat, nb: int)
    requires FsOk(n) && n.large && i < 7 && j < WORDS && |n.addr| == 8 && n.addr[i] != 0
    requires n.addr[i] in n.disk && |n.disk[n.addr[i]]| == WORDS && n.disk[n.addr[i]][j] == 0
    requires var m := n.(nfree := n'.nfree, free := n'.free, st := n'.st);
      && ListOk(m) && Popped(n, m, nb)
      && n' == if nb == 0 then m else m.(disk := m.disk[nb := Zeros()][n.addr[i] := n.disk[n.addr[i]][j := nb]])
    ensures MidDone(n, n', i, j, nb)
  {
    hide ListOk, TreeOk, Popped, Kept;
    var m := n.(nfree := n'.nfree, free := n'.free, st := n'.st);
    PoppedSame(n, m, nb);
    Blocks(n, Top(i));
    if nb != 0 {
      PoppedFacts(n, m, nb);
      WriteTwo(n, m, n', nb, n.addr[i], n.disk[n.addr[i]][j := nb]);
      MidTree(n, n', i, j, nb);
    }
  }

  lemma WriteTwo(n: Fs, m: Fs, n': Fs, b: int, a: int, w: Words)
    requires ListOk(m) && b !in m.st && a !in m.st && |w| == WORDS && a != b
    requires n'.disk == m.disk[b := Zeros()][a := w]
    requires n'.nfree == m.nfree && n'.free == m.free && n'.st == m.st && n'.isize == m.isize && n'.fsize == m.fsize
    ensures ListOk(n') && n'.disk == m.disk[a := w][b := Zeros()]
  {
    hide ListOk;
    var k := m.(disk := m.disk[b := Zeros()]);
    WriteKeepsList(m, k, b, Zeros());
    WriteKeepsList(k, n', a, w);
  }

  /** A new indirect block and a data block under it, or only the first, or neither. */
  lemma MidFresh(n: Fs, m: Fs, n': Fs, i: nat, j: nat, bp: int, nb: int)
    requires FsOk(n) && n.large && i < 7 && j < WORDS && |n.addr| == 8 && n.addr[i] == 0
    requires ListOk(m) && Popped(n, m, bp) && bp != 0
    requires var k := m.(addr := n.addr[i := bp]); var l := k.(nfree := n'.nfree, free := n'.free, st := n'.st);
      && ListOk(l) && Popped(k, l, nb)
      && n' == if nb == 0 then l else l.(disk := l.disk[nb := Zeros()][bp := Zeros()[j := nb]])
    ensures MidDone(n, n', i, j, nb)
  {
    hide ListOk, TreeOk, Popped, Kept;
    var k := m.(addr := n.addr[i := bp]);
    var l := k.(nfree := n'.nfree, free := n'.free, st := n'.st);
    PoppedFacts(n, m, bp);
    PoppedSame(n, m, bp);
    PoppedSame(k, l, nb);
    if nb == 0 {
      assert |n.st| == 1 && n.st[0] == bp;
    } else {
      SameList(m, k);
      PoppedFacts(k, l, nb);
      WriteTwo(n, l, n', nb, bp, Zeros()[j := nb]);
      var v := m.(addr := n.addr[i := bp], disk := n.disk[bp := Zeros()]);
      TopTree(n, v, i, bp);
      assert n'.disk == v.disk[bp := v.disk[bp][j := nb]][nb := Zeros()];
      MidTree(v, n', i, j, nb);
      KeptTrans(n, v, n', i * 256 + j);
    }
  }

  lemma SameList(n: Fs, n': Fs)
    requires ListOk(n) && n' == n.(addr := n'.addr, large := n'.large)
    ensures ListOk(n')
  {
  }

  lemma ListFacts(n: Fs)
    requires ListOk(n)
    ensures n.nfree <= NICFREE && |n.free| == NICFREE && Chain(n.disk, n.nfree, n.free, n.st) && DiskOk(n)
    ensures n.nfree <= 0 ==> n.st == []
    ensures n.nfree > 0 ==> (n.free[n.nfree - 1] == 0 <==> n.st == [])
  {
    if n.st == [] {
      PopNone(n.disk, n.nfree, n.free);
    } else {
      Pop(n.disk, n.nfree, n.free, n.st);
      assert n.st[|n.st| - 1] in n.st;
    }
  }

  lemma NoSpace(n: Fs, n': Fs)
    requires ListOk(n) && n.st == [] && n' == n.(nfree := 0)
    ensures ListOk(n') && Popped(n, n', 0)
  {
  }

  lemma InRange(n: Fs)
    requires ListOk(n) && n.st != [] && n.nfree > 0
    ensures n.free[n.nfree - 1] == n.st[|n.st| - 1] && !BadBlock(n.isize, n.fsize, n.free[n.nfree - 1])
    ensures n.free[n.nfree - 1] in n.disk && |n.disk[n.free[n.nfree - 1]]| == WORDS
  {
    Pop(n.disk, n.nfree, n.free, n.st);
    assert n.st[|n.st| - 1] in n.st;
  }

  lemma EmptyChain(n: Fs, free: Words)
    requires ListOk(n) && n.nfree <= 0 && |free| == NICFREE && free[0] == 0
    ensures Chain(n.disk, 1, free, n.st)
  {
  }

  lemma PushEither(m: Fs, n': Fs, bno: int)
    requires Chain(m.disk, m.nfree, m.free, m.st) && 0 < m.nfree && bno !in m.st && bno != 0
    requires n'.st == m.st + [bno] && |m.free| == NICFREE
    requires if m.nfree < NICFREE
             then n'.disk == m.disk && n'.nfree == m.nfree + 1 && n'.free == m.free[m.nfree := bno]
             else n'.nfree == 1 && n'.free == m.free[0 := bno] && bno in n'.disk && |n'.disk[bno]| == WORDS
                  && n'.disk[bno][..NICFREE + 1] == [m.nfree] + m.free && n'.disk == m.disk[bno := n'.disk[bno]]
    ensures Chain(n'.disk, n'.nfree, n'.free, n'.st)
  {
    if m.nfree < NICFREE {
      PushRoom(m.disk, m.nfree, m.free, m.st, bno);
    } else {
      assert n'.disk[bno][1..NICFREE + 1] == n'.disk[bno][..NICFREE + 1][1..] == m.free;
      assert n'.disk[bno][0] == n'.disk[bno][..NICFREE + 1][0];
      PushSpill(m.disk, m.free, m.st, bno, n'.disk[bno]);
    }
  }

  // ------------------------------------------------------------ when bmap cannot get its blocks

  ghost predicate SameMap(n: Fs, n': Fs) {
    forall cn: nat :: cn <= MAXBN ==> Lookup(n', cn) == Lookup(n, cn)
  }

  /** The inode as the large file algorithm will find it. */
  ghost function Begun(n: Fs): Fs
    requires n.large || (n.st != [] && |n.addr| == 8)
  {
    if n.large then n else Enlarged(n)
  }

  /** A failing call got an indirect block of level one or two, but not the block it should name. */
  ghost predicate Unwritten(n: Fs, bn: nat)
    requires |n.addr| == 8
  {
    if n.large then n.st != [] && (if bn / 256 < 7 then n.addr[bn / 256] == 0 else At(n, Mid(7, bn / 256 - 7)) == 0)
    else bn >= 256 && |n.st| >= 2
  }

  /** The last free block, whose contents nobody cleared, happens to name nothing when read as that
      indirect block. */
  ghost predicate ReadsEmpty(m: Fs, bn: nat)
    requires |m.addr| == 8 && m.st != []
  {
    if bn / 256 >= 7 && m.addr[7] == 0 && |m.st| == 1
    then forall j: nat, k: nat {:trigger Word(m.disk, Word(m.disk, m.st[0], j), k)} ::
           j <= 120 && k < WORDS ==> Word(m.disk, Word(m.disk, m.st[0], j), k) == 0
    else forall k: nat :: k < WORDS ==> Word(m.disk, m.st[0], k) == 0
  }

  /** What is left of ListOk when only the free blocks matter, not how they are remembered. */
  ghost predicate StackOk(n: Fs) {
    DiskOk(n) && NoDup(n.st) && forall b :: b in n.st ==> !BadBlock(n.isize, n.fsize, b)
  }

  lemma StrandTop(m: Fs, i: nat)
    requires |m.addr| == 8 && m.large && i < 7 && m.addr[i] == 0 && m.st != [] && m.st[0] != 0
    ensures SameMap(m, Stranded(m, Top(i))) <==> forall k: nat :: k < WORDS ==> Word(m.disk, m.st[0], k) == 0
  {
    var s := Stranded(m, Top(i));
    forall k: nat | k < WORDS
      ensures Lookup(s, i * 256 + k) == Word(m.disk, m.st[0], k) && Lookup(m, i * 256 + k) == 0
    {
      assert PosOf(true, i * 256 + k) == Mid(i, k);
    }
    forall cn: nat | cn <= MAXBN && cn / 256 != i ensures Lookup(s, cn) == Lookup(m, cn) {
    }
    if forall k: nat :: k < WORDS ==> Word(m.disk, m.st[0], k) == 0 {
      forall cn: nat | cn <= MAXBN ensures Lookup(s, cn) == Lookup(m, cn) {
        assert cn == cn / 256 * 256 + cn % 256;
      }
    }
  }

  lemma StrandDouble(m: Fs)
    requires |m.addr| == 8 && m.large && m.addr[7] == 0 && m.st != [] && m.st[0] != 0
    ensures SameMap(m, Stranded(m, Top(7))) <==>
              forall j: nat, k: nat {:trigger Word(m.disk, Word(m.disk, m.st[0], j), k)} ::
                j <= 120 && k < WORDS ==> Word(m.disk, Word(m.disk, m.st[0], j), k) == 0
  {
    var s := Stranded(m, Top(7));
    var b := m.st[0];
    forall cn: nat | cn <= MAXBN && cn / 256 < 7 ensures Lookup(s, cn) == Lookup(m, cn) {
    }
    forall cn: nat | 7 * 256 <= cn <= MAXBN
      ensures Lookup(m, cn) == 0 && Lookup(s, cn) == Word(m.disk, Word(m.disk, b, cn / 256 - 7), cn % 256)
    {
    }
    if SameMap(m, s) {
      forall j: nat, k: nat | j <= 120 && k < WORDS ensures Word(m.disk, Word(m.disk, b, j), k) == 0 {
        var cn := (j + 7) * 256 + k;
        assert cn / 256 - 7 == j && cn % 256 == k;
        assert Lookup(s, cn) == Lookup(m, cn);
      }
    }
  }

  lemma StrandMid(m: Fs, j: nat)
    requires TreeOk(m) && m.large && j <= 120 && m.addr[7] != 0 && At(m, Mid(7, j)) == 0 && m.st != [] && m.st[0] != 0
    requires m.addr[7] in m.disk && |m.disk[m.addr[7]]| == WORDS
    ensures SameMap(m, Stranded(m, Mid(7, j))) <==> forall k: nat :: k < WORDS ==> Word(m.disk, m.st[0], k) == 0
  {
    var s, b := Stranded(m, Mid(7, j)), m.st[0];
    NotFree(m, Top(7));
    assert b in m.st && b != m.addr[7];
    forall cn: nat | cn <= MAXBN && cn / 256 != j + 7 ensures Lookup(s, cn) == Lookup(m, cn) {
      OtherLookup(m, j, cn);
    }
    forall k: nat | k < WORDS
      ensures Lookup(s, (j + 7) * 256 + k) == Word(m.disk, b, k) && Lookup(m, (j + 7) * 256 + k) == 0
    {
      var cn := (j + 7) * 256 + k;
      assert cn / 256 == j + 7 && cn % 256 == k;
      assert PosOf(true, cn) == Leaf(j, k) && Word(s.disk, s.addr[7], j) == b;
    }
    if forall k: nat :: k < WORDS ==> Word(m.disk, b, k) == 0 {
      forall cn: nat | cn <= MAXBN ensures Lookup(s, cn) == Lookup(m, cn) {
        if cn / 256 == j + 7 {
          assert PosOf(true, cn) == Leaf(j, cn % 256) && Word(s.disk, s.addr[7], j) == b;
          assert Word(m.disk, b, cn % 256) == 0;
        }
      }
    }
  }

  lemma OtherLookup(m: Fs, j: nat, cn: nat)
    requires TreeOk(m) && m.large && m.addr[7] != 0 && cn <= MAXBN && cn / 256 != j + 7 && m.st != []
    requires m.addr[7] in m.disk && |m.disk[m.addr[7]]| == WORDS && j <= 120
    ensures Lookup(Stranded(m, Mid(7, j)), cn) == Lookup(m, cn)
  {
    match PosOf(true, cn)
    case Mid(i, _) => if m.addr[i] != 0 { Apart(m, Top(7), Top(i)); }
    case Leaf(j', _) => Apart(m, Top(7), Mid(7, j'));
    case Top(_) =>
  }

  lemma SameMapTrans(n: Fs, m: Fs, s: Fs)
    requires SameMap(n, m)
    ensures SameMap(n, s) <==> SameMap(m, s)
  {
    if SameMap(n, s) {
      forall cn: nat | cn <= MAXBN ensures Lookup(s, cn) == Lookup(m, cn) {
        assert Lookup(m, cn) == Lookup(n, cn) && Lookup(s, cn) == Lookup(n, cn);
      }
    }
    if SameMap(m, s) {
      forall cn: nat | cn <= MAXBN ensures Lookup(s, cn) == Lookup(n, cn) {
        assert Lookup(m, cn) == Lookup(n, cn) && Lookup(s, cn) == Lookup(m, cn);
      }
    }
  }

  /** The large file algorithm running out of blocks. */
  lemma LargeFailure(m: Fs, bn: nat)
    requires StackOk(m) && TreeOk(m) && m.large && bn <= MAXBN && |m.st| < Need(m, bn)
    ensures SameMap(m, HalfLarge(m, bn)) <==> (Unwritten(m, bn) ==> ReadsEmpty(m, bn))
  {
    hide SameMap;
    if m.st == [] {
      SameMapSelf(m);
    } else {
      assert m.st[0] in m.st;
      assert At(m, Top(7)) == m.addr[7];
      if bn / 256 < 7 {
        if m.addr[bn / 256] != 0 { SameMapSelf(m); } else { StrandTop(m, bn / 256); }
      } else if At(m, Mid(7, bn / 256 - 7)) != 0 {
        SameMapSelf(m);
      } else if m.addr[7] != 0 {
        StrandMid(m, bn / 256 - 7);
      } else if |m.st| == 1 {
        StrandDouble(m);
      } else {
        StrandSecond(m, bn / 256 - 7);
      }
    }
  }

  lemma SameMapSelf(m: Fs)
    ensures SameMap(m, m)
  {
  }

  lemma StrandSecond(m: Fs, j: nat)
    requires StackOk(m) && TreeOk(m) && m.large && j <= 120 && |m.st| == 2 && m.addr[7] == 0
    ensures SameMap(m, Stranded(WithTop(m, 7, m.st[1]), Mid(7, j)))
      <==> forall k: nat :: k < WORDS ==> Word(m.disk, m.st[0], k) == 0
  {
    hide SameMap;
    assert m.st[0] in m.st && m.st[1] in m.st && m.st[0] != m.st[1];
    var w := WithTop(m, 7, m.st[1]).(st := [m.st[0]]);
    TopTree(m, w, 7, m.st[1]);
    KeptSame(m, w);
    StrandMid(w, j);
    SameMapTrans(m, w, Stranded(w, Mid(7, j)));
    SameMapSt(m, Stranded(w, Mid(7, j)), Stranded(WithTop(m, 7, m.st[1]), Mid(7, j)));
    assert forall k: nat :: Word(w.disk, m.st[0], k) == Word(m.disk, m.st[0], k);
  }

  lemma SameMapSt(m: Fs, s: Fs, s': Fs)
    requires s.addr == s'.addr && s.large == s'.large && s.disk == s'.disk
    ensures SameMap(m, s) <==> SameMap(m, s')
  {
    assert forall cn: nat :: Lookup(s, cn) == Lookup(s', cn);
  }

  lemma KeptSame(n: Fs, n': Fs)
    requires Kept(n, n', -1)
    ensures SameMap(n, n')
  {
  }

  /**
   When the free list runs out under bmap the file keeps its contents, unless an indirect block was
   obtained for it and the block it should name was not: that block is attached without being
   written, and the file then reads through whatever the disk held there.

   The disk here is without buffers.  Should the last free block still have one, marked B_DELWRI,
   alloc's clearing of it does reach the disk, and the file reads zeros; marked only B_DONE, reads
   find the zeros until the buffer is used for another block.
   */
  lemma {:induction false} FailureKeepsMap(n: Fs, bn: nat)
    requires FsOk(n) && bn <= MAXBN && |n.addr| == 8 && |n.st| < Need(n, bn)
    ensures SameMap(n, Half(n, bn)) <==> (Unwritten(n, bn) ==> ReadsEmpty(Begun(n), bn))
  {
    hide TreeOk, ListOk, SameMap, Kept;
    if n.large {
      FsStack(n);
      LargeFailure(n, bn);
    } else if bn < 8 || n.st == [] {
      SameMapSelf(n);
    } else {
      var m := Enlarged(n);
      EnlargedOk(n);
      KeptSame(n, m);
      SameMapTrans(n, m, HalfLarge(m, bn));
      EnlargedFails(n, m, bn);
    }
  }

  lemma FsStack(n: Fs)
    requires FsOk(n)
    ensures StackOk(n)
  {
  }

  lemma EnlargedOk(n: Fs)
    requires FsOk(n) && !n.large && n.st != [] && |n.addr| == 8
    ensures TreeOk(Enlarged(n)) && Kept(n, Enlarged(n), -1)
  {
    hide Chain;
    var b, m := n.st[|n.st| - 1], Enlarged(n);
    assert b in n.st && forall c :: c in m.st ==> c in n.st;
    ConvertKeeps(n, m, b);
    ConvertKept(n, m, b);
  }

  /** Like LargeFailure, where the file was small: only its new top block is in use. */
  lemma EnlargedFails(n: Fs, m: Fs, bn: nat)
    requires FsOk(n) && !n.large && n.st != [] && |n.addr| == 8 && m == Enlarged(n) && TreeOk(m)
    requires 8 <= bn <= MAXBN && |n.st| < Need(n, bn)
    ensures SameMap(m, HalfLarge(m, bn)) <==> (Unwritten(n, bn) ==> ReadsEmpty(m, bn))
  {
    hide SameMap, TreeOk, ListOk;
    EnlargedStack(n);
    var b := n.st[|n.st| - 1];
    assert b in n.st;
    ConvertedAt(n, m, b, PosOf(true, bn));
    ConvertedAt(n, m, b, Top(if bn / 256 < 7 then bn / 256 else 7));
    if bn / 256 >= 7 {
      ConvertedAt(n, m, b, Mid(7, bn / 256 - 7));
    }
    LargeFailure(m, bn);
  }

  lemma EnlargedStack(n: Fs)
    requires FsOk(n) && n.st != [] && |n.addr| == 8
    ensures StackOk(Enlarged(n)) && n.st[|n.st| - 1] != 0
  {
    hide Chain;
    assert n.st[|n.st| - 1] in n.st;
    assert forall c :: c in n.st[..|n.st| - 1] ==> c in n.st;
  }

  /** A small file of one block, 3, on a volume with an inode block and the free blocks 4 and 5; block 4 still
      holds what some other file left there, and 6 is a block of another file. */
  ghost function TwoFree(): Fs {
    var stale: Words := seq(WORDS, _ => 6);
    Fs(3, [0, 4, 5] + Zeros()[..NICFREE - 3], map[3 := Zeros(), 4 := stale, 5 := Zeros(), 6 := Zeros()], 1, 7, [4, 5],
       [3, 0, 0, 0, 0, 0, 0, 0], false)
  }

  /** Block 256 of it is asked for: 5 makes the file large, 4 is hung in as its second indirect block, and
      there is none left to name.  What was a hole then reads as block 6. */
  lemma FailureCanCorrupt()
    ensures FsOk(TwoFree()) && |TwoFree().st| < Need(TwoFree(), 256)
    ensures Lookup(TwoFree(), 256) == 0 && Lookup(Half(TwoFree(), 256), 256) == 6
  {
    var n := TwoFree();
    assert n.free[1..3] == [4, 5];
    forall p | At(n, p) != 0 ensures p == Top(0) {
    }
    var m := Enlarged(n);
    assert m.st == [4] && m.addr[1] == 0;
    var s := Stranded(m, Top(1));
    assert Half(n, 256) == s && s.addr[1] == 4;
    assert m.disk[4] == n.disk[4] && |m.disk[4]| == WORDS;
  }
}
