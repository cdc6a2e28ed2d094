/**
 The blocks of a file as its inode reaches them (ken/subr.c bmap, ken/iget.c itrunc): directly, through
 an indirect block, or for the last part of a huge file through two.
 */
module FileTree {
  import opened FreeList

  /** A place a block number is kept in: the inode, a block it names, or a block such a block names. */
  datatype Pos = Top(i: nat) | Mid(i: nat, j: nat) | Leaf(j: nat, k: nat)

  ghost function Word(disk: map<int, Words>, b: int, j: nat): int {
    if b != 0 && b in disk && j < |disk[b]| then disk[b][j] else 0
  }

  /** The block number kept at `p`; 0 for none. */
  ghost function At(n: Fs, p: Pos): int {
    match p
    case Top(i) => if i < |n.addr| && i < 8 then n.addr[i] else 0
    case Mid(i, j) => if n.large && i < |n.addr| && i < 8 then Word(n.disk, n.addr[i], j) else 0
    case Leaf(j, k) => if n.large && 7 < |n.addr| then Word(n.disk, Word(n.disk, n.addr[7], j), k) else 0
  }

  /** Every block of the file is a block of the volume, is not free, and is reached once. */
  ghost predicate TreeOk(n: Fs) {
    && |n.addr| == 8
    && (forall p :: At(n, p) != 0 ==> !BadBlock(n.isize, n.fsize, At(n, p)) && At(n, p) !in n.st)
    && forall p, q {:trigger At(n, p), At(n, q)} :: At(n, p) != 0 && At(n, p) == At(n, q) ==> p == q
  }

  ghost predicate FsOk(n: Fs) {
    ListOk(n) && TreeOk(n)
  }

  /** Where block `bn` of the file is looked for (bmap's shifts and masks). */
  ghost function PosOf(large: bool, bn: nat): Pos {
    if !large then Top(bn)
    else if bn / 256 < 7 then Mid(bn / 256, bn % 256)
    else Leaf(bn / 256 - 7, bn % 256)
  }

  const MAXBN := 0x7fff // 077777

  ghost function Lookup(n: Fs, bn: nat): int {
    At(n, PosOf(n.large, bn))
  }

  /** No two blocks of the file are the same block of the disk. */
  lemma LookupInjective(n: Fs, bn: nat, cn: nat)
    requires TreeOk(n) && Lookup(n, bn) != 0 && Lookup(n, bn) == Lookup(n, cn)
    ensures bn == cn
  {
    assert PosOf(n.large, bn) == PosOf(n.large, cn);
  }

  /** The file has got block `b`, empty, at `p`; nothing else of it moved. */
  ghost predicate Grafted(n: Fs, n': Fs, p: Pos, b: int) {
    && At(n, p) == 0 && At(n', p) == b
    && forall q :: q != p ==> At(n', q) == At(n, q)
  }

  /** Block `b`, just allocated, is taken into the tree. */
  lemma GraftKeeps(n: Fs, n': Fs, p: Pos, b: int)
    requires TreeOk(n) && Grafted(n, n', p, b) && |n'.addr| == 8
    requires n'.isize == n.isize && n'.fsize == n.fsize
    requires b in n.st && !BadBlock(n.isize, n.fsize, b) && b !in n'.st && forall c :: c in n'.st ==> c in n.st
    ensures TreeOk(n')
  {
    forall q | At(n', q) != 0 ensures !BadBlock(n.isize, n.fsize, At(n', q)) && At(n', q) !in n'.st {
      assert q != p ==> At(n', q) == At(n, q);
    }
    forall q, r | At(n', q) != 0 && At(n', q) == At(n', r) ensures q == r {
      assert q != p ==> At(n', q) == At(n, q);
      assert r != p ==> At(n', r) == At(n, r);
    }
  }

  /** Block `b` becomes entry `i` of the inode. */
  lemma GraftTop(n: Fs, n': Fs, i: nat, b: int)
    requires TreeOk(n) && i < 8 && n.addr[i] == 0 && n'.addr == n.addr[i := b] && n'.large == n.large
    requires n'.disk == n.disk[b := Zeros()] && b in n.st && b != 0
    ensures Grafted(n, n', Top(i), b)
  {
    forall q | q != Top(i) ensures At(n', q) == At(n, q) {
      Reads(n, q);
    }
  }

  /** The blocks `q` is read through are blocks of the file. */
  lemma Reads(n: Fs, q: Pos)
    requires TreeOk(n)
    ensures forall b :: b in n.st ==> ThroughOther(n, q, b)
  {
    match q
    case Top(_) =>
    case Mid(i, j) =>
      NotFree(n, Top(i));
    case Leaf(j, k) =>
      NotFree(n, Top(7));
      NotFree(n, Mid(7, j));
  }

  lemma NotFree(n: Fs, p: Pos)
    requires TreeOk(n)
    ensures At(n, p) != 0 ==> At(n, p) !in n.st
  {
  }

  ghost predicate ThroughOther(n: Fs, q: Pos, b: int) {
    match q
    case Top(_) => true
    case Mid(i, j) => i < |n.addr| && i < 8 && n.addr[i] != 0 ==> n.addr[i] != b
    case Leaf(j, k) =>
      n.large && 7 < |n.addr| && n.addr[7] != 0 ==>
        n.addr[7] != b && (Word(n.disk, n.addr[7], j) != 0 ==> Word(n.disk, n.addr[7], j) != b)
  }

  lemma Apart(n: Fs, p: Pos, q: Pos)
    requires TreeOk(n) && p != q && At(n, p) != 0
    ensures At(n, p) != At(n, q)
  {
  }

  /** Block `b` becomes entry `j` of the block the inode's entry `i` names. */
  lemma GraftMid(n: Fs, n': Fs, i: nat, j: nat, b: int)
    requires TreeOk(n) && n.large && i < 8 && n.addr[i] != 0 && At(n, Mid(i, j)) == 0 && j < WORDS
    requires n.addr[i] in n.disk && |n.disk[n.addr[i]]| == WORDS
    requires n'.addr == n.addr && n'.large && b in n.st && b != 0
    requires n'.disk == n.disk[n.addr[i] := n.disk[n.addr[i]][j := b]][b := Zeros()]
    ensures Grafted(n, n', Mid(i, j), b)
  {
    var a := n.addr[i];
    NotFree(n, Top(i));
    forall q | q != Mid(i, j) ensures At(n', q) == At(n, q) {
      Reads(n, q);
      assert ThroughOther(n, q, b);
      match q
      case Top(_) =>
      case Mid(i', _) => if i' < 8 && i' != i { Apart(n, Top(i), Top(i')); }
      case Leaf(j', _) => Apart(n, Top(i), Mid(7, j')); if i != 7 { Apart(n, Top(i), Top(7)); }
    }
  }

  /** Block `b` becomes entry `k` of the second-level block `j`. */
  lemma GraftLeaf(n: Fs, n': Fs, j: nat, k: nat, b: int)
    requires TreeOk(n) && n.large && At(n, Mid(7, j)) != 0 && At(n, Leaf(j, k)) == 0 && k < WORDS
    requires At(n, Mid(7, j)) in n.disk && |n.disk[At(n, Mid(7, j))]| == WORDS
    requires n'.addr == n.addr && n'.large && b in n.st && b != 0
    requires n'.disk == n.disk[At(n, Mid(7, j)) := n.disk[At(n, Mid(7, j))][k := b]][b := Zeros()]
    ensures Grafted(n, n', Leaf(j, k), b)
  {
    var d := At(n, Mid(7, j));
    NotFree(n, Mid(7, j));
    forall q | q != Leaf(j, k) ensures At(n', q) == At(n, q) {
      Reads(n, q);
      assert ThroughOther(n, q, b);
      match q
      case Top(_) =>
      case Mid(i', _) => Apart(n, Mid(7, j), Top(i'));
      case Leaf(j', _) => Apart(n, Mid(7, j), Top(7)); if j' != j { Apart(n, Mid(7, j), Mid(7, j')); }
    }
  }

  /** The file's own: its blocks, and those it may yet get. */
  ghost predicate Mine(n: Fs, b: int) {
    b in n.st || exists p :: At(n, p) == b
  }

  ghost predicate SameBlock(n: Fs, n': Fs, b: int) {
    b in n.disk ==> b in n'.disk && n'.disk[b] == n.disk[b]
  }

  /** The map from logical to physical blocks is as it was, but for one entry that was empty; so are
      the blocks the file had, and everything on the disk that is not the file's. */
  ghost predicate Kept(n: Fs, n': Fs, bn: int) {
    && (forall b :: b != 0 && Mine(n', b) ==> Mine(n, b))
    && (forall b :: b != 0 && !Mine(n, b) ==> SameBlock(n, n', b))
    && (forall cn: nat :: cn <= MAXBN && cn != bn ==> Lookup(n', cn) == Lookup(n, cn))
    && forall cn: nat :: cn <= MAXBN && Lookup(n, cn) != 0 ==>
         Lookup(n', cn) == Lookup(n, cn) && SameBlock(n, n', Lookup(n, cn))
  }

  lemma KeptTrans(n: Fs, m: Fs, n': Fs, bn: int)
    requires Kept(n, m, -1) && Kept(m, n', bn)
    ensures Kept(n, n', bn)
  {
    forall b | b != 0 && Mine(n', b) ensures Mine(n, b) {
      assert Mine(m, b);
    }
    forall b | b != 0 && !Mine(n, b) ensures SameBlock(n, n', b) {
      assert SameBlock(n, m, b) && SameBlock(m, n', b);
    }
    forall cn: nat | cn <= MAXBN && cn != bn ensures Lookup(n', cn) == Lookup(n, cn) {
      assert Lookup(m, cn) == Lookup(n, cn);
    }
    forall cn: nat | cn <= MAXBN && Lookup(n, cn) != 0
      ensures Lookup(n', cn) == Lookup(n, cn) && SameBlock(n, n', Lookup(n, cn))
    {
      assert Lookup(m, cn) == Lookup(n, cn) && SameBlock(n, m, Lookup(n, cn));
      assert SameBlock(m, n', Lookup(m, cn));
    }
  }

  /** Not a place where the file's own data is kept. */
  ghost predicate Inner(large: bool, p: Pos) {
    forall cn: nat :: cn <= MAXBN ==> PosOf(large, cn) != p
  }

  /** A graft at `p`, written into the indirect block kept at `s`, leaves the rest alone. */
  lemma GraftKept(n: Fs, n': Fs, p: Pos, b: int, s: Pos, bn: int)
    requires TreeOk(n) && Grafted(n, n', p, b) && n'.large == n.large && b in n.st && b != 0
    requires forall c :: c in n'.st ==> c in n.st
    requires forall c :: c in n.disk && c != b && c != At(n, s) ==> c in n'.disk && n'.disk[c] == n.disk[c]
    requires Inner(n.large, s) || At(n, s) == 0
    requires if 0 <= bn <= MAXBN then p == PosOf(n.large, bn) else Inner(n.large, p)
    ensures Kept(n, n', bn)
  {
    forall c | c != 0 && Mine(n', c) ensures Mine(n, c) {
      if c !in n'.st {
        var q :| At(n', q) == c;
        assert q != p ==> At(n, q) == c;
      }
    }
    forall c | c != 0 && !Mine(n, c) ensures SameBlock(n, n', c) {
      assert At(n, s) != c;
    }
    forall cn: nat | cn <= MAXBN && cn != bn ensures Lookup(n', cn) == Lookup(n, cn) {
      assert PosOf(n.large, cn) != p;
    }
    forall cn: nat | cn <= MAXBN && Lookup(n, cn) != 0
      ensures Lookup(n', cn) == Lookup(n, cn) && SameBlock(n, n', Lookup(n, cn))
    {
      var q := PosOf(n.large, cn);
      assert q != p;
      NotFree(n, q);
      if At(n, s) != 0 {
        Apart(n, q, s);
      }
    }
  }

  // ------------------------------------------------------------ small to large

  ghost predicate Converted(n: Fs, n': Fs, b: int) {
    && |n.addr| == 8 && !n.large && n'.large && n'.addr == Zeros()[..8][0 := b]
    && n'.disk == n.disk[b := n.addr + Zeros()[8..]]
  }

  /** After the conversion each direct block is one below, under the new indirect block. */
  lemma ConvertedAt(n: Fs, n': Fs, b: int, p: Pos)
    requires Converted(n, n', b) && b != 0
    ensures At(n', p) == match p
      case Top(i) => if i == 0 then b else 0
      case Mid(i, j) => if i == 0 then At(n, Top(j)) else 0
      case Leaf(j, k) => 0
  {
  }

  lemma ConvertKeeps(n: Fs, n': Fs, b: int)
    requires TreeOk(n) && Converted(n, n', b) && b != 0
    requires n'.isize == n.isize && n'.fsize == n.fsize
    requires b in n.st && !BadBlock(n.isize, n.fsize, b) && b !in n'.st && forall c :: c in n'.st ==> c in n.st
    ensures TreeOk(n')
  {
    forall p | At(n', p) != 0 ensures !BadBlock(n.isize, n.fsize, At(n', p)) && At(n', p) !in n'.st {
      ConvertedAt(n, n', b, p);
      ConvertedFrom(n, n', b, p);
    }
    forall p, q | At(n', p) != 0 && At(n', p) == At(n', q) ensures p == q {
      ConvertedAt(n, n', b, p);
      ConvertedAt(n, n', b, q);
      ConvertedFrom(n, n', b, p);
      ConvertedFrom(n, n', b, q);
    }
  }

  lemma ConvertedFrom(n: Fs, n': Fs, b: int, p: Pos)
    requires TreeOk(n) && Converted(n, n', b) && b != 0 && b in n.st && At(n', p) != 0
    ensures p == Top(0) || (p.Mid? && p.i == 0 && At(n', p) == At(n, Top(p.j)) && At(n', p) != b)
  {
    ConvertedAt(n, n', b, p);
    if p.Mid? {
      NotFree(n, Top(p.j));
    }
  }

  lemma ConvertKept(n: Fs, n': Fs, b: int)
    requires TreeOk(n) && Converted(n, n', b) && b != 0 && b in n.st && forall c :: c in n'.st ==> c in n.st
    ensures Kept(n, n', -1)
  {
    forall c | c != 0 && Mine(n', c) ensures Mine(n, c) {
      if c !in n'.st {
        var q :| At(n', q) == c;
        ConvertedFrom(n, n', b, q);
      }
    }
    forall c | c != 0 && !Mine(n, c) ensures SameBlock(n, n', c) {
      assert c != b;
    }
    forall cn: nat | cn <= MAXBN
      ensures Lookup(n', cn) == Lookup(n, cn) && (Lookup(n, cn) != 0 ==> SameBlock(n, n', Lookup(n, cn)))
    {
      ConvertedAt(n, n', b, PosOf(true, cn));
      NotFree(n, Top(cn));
    }
  }

  // ------------------------------------------------------------ one step of bmap each

  /** Room for a graft of `b`: it was free and is so no longer, and nothing else became free. */
  ghost predicate TookOff(n: Fs, n': Fs, b: int) {
    && n'.isize == n.isize && n'.fsize == n.fsize && b != 0 && b in n.st && b !in n'.st
    && !BadBlock(n.isize, n.fsize, b) && forall c :: c in n'.st ==> c in n.st
  }

  lemma PoppedFacts(n: Fs, n': Fs, b: int)
    requires ListOk(n) && Popped(n, n', b) && b != 0
    ensures TookOff(n, n', b) && n.st != [] && b in n.disk && |n.disk[b]| == WORDS
  {
    assert n.st[|n.st| - 1] in n.st;
    assert forall c :: c in n'.st ==> c in n.st;
  }

  lemma InnerTop(i: nat)
    ensures Inner(true, Top(i))
  {
  }

  lemma InnerMid(j: nat)
    ensures Inner(true, Mid(7, j))
  {
  }

  lemma SmallTree(n: Fs, n': Fs, bn: nat, b: int)
    requires TreeOk(n) && !n.large && !n'.large && bn < 8 && n.addr[bn] == 0 && TookOff(n, n', b)
    requires n'.addr == n.addr[bn := b] && n'.disk == n.disk[b := Zeros()]
    ensures TreeOk(n') && Kept(n, n', bn)
  {
    GraftTop(n, n', bn, b);
    GraftKeeps(n, n', Top(bn), b);
    GraftKept(n, n', Top(bn), b, Top(bn), bn);
  }

  lemma TopTree(n: Fs, n': Fs, i: nat, b: int)
    requires TreeOk(n) && n.large && n'.large && i < 8 && n.addr[i] == 0 && TookOff(n, n', b)
    requires n'.addr == n.addr[i := b] && n'.disk == n.disk[b := Zeros()]
    ensures TreeOk(n') && Kept(n, n', -1)
  {
    hide Kept;
    GraftTop(n, n', i, b);
    GraftKeeps(n, n', Top(i), b);
    InnerTop(i);
    GraftKept(n, n', Top(i), b, Top(i), -1);
  }

  lemma MidTree(n: Fs, n': Fs, i: nat, j: nat, b: int)
    requires TreeOk(n) && n.large && n'.large && i < 8 && n.addr[i] != 0 && j < WORDS && TookOff(n, n', b)
    requires n.addr[i] in n.disk && |n.disk[n.addr[i]]| == WORDS && At(n, Mid(i, j)) == 0
    requires n'.addr == n.addr && n'.disk == n.disk[n.addr[i] := n.disk[n.addr[i]][j := b]][b := Zeros()]
    ensures TreeOk(n') && Kept(n, n', if i < 7 then i * 256 + j else -1)
    ensures At(n', Mid(i, j)) == b && n.addr[i] != b
  {
    hide Kept, TreeOk;
    TreeFacts(n, i);
    GraftMid(n, n', i, j, b);
    GraftKeeps(n, n', Mid(i, j), b);
    InnerTop(i);
    InnerMid(j);
    GraftKept(n, n', Mid(i, j), b, Top(i), if i < 7 then i * 256 + j else -1);
  }

  lemma TreeFacts(n: Fs, i: nat)
    requires TreeOk(n)
    ensures |n.addr| == 8 && (i < 8 && n.addr[i] != 0 ==> n.addr[i] !in n.st && !BadBlock(n.isize, n.fsize, n.addr[i]))
  {
    NotFree(n, Top(i));
  }

  lemma LeafTree(n: Fs, n': Fs, j: nat, k: nat, b: int)
    requires TreeOk(n) && n.large && n'.large && At(n, Mid(7, j)) != 0 && k < WORDS && TookOff(n, n', b)
    requires At(n, Mid(7, j)) in n.disk && |n.disk[At(n, Mid(7, j))]| == WORDS && At(n, Leaf(j, k)) == 0
    requires n'.addr == n.addr && n'.disk == n.disk[At(n, Mid(7, j)) := n.disk[At(n, Mid(7, j))][k := b]][b := Zeros()]
    requires j <= 120
    ensures TreeOk(n') && Kept(n, n', (j + 7) * 256 + k)
    ensures At(n', Leaf(j, k)) == b && At(n, Mid(7, j)) != b
  {
    hide Kept, TreeOk;
    TreeFacts(n, 7);
    GraftLeaf(n, n', j, k, b);
    GraftKeeps(n, n', Leaf(j, k), b);
    InnerMid(j);
    GraftKept(n, n', Leaf(j, k), b, Mid(7, j), (j + 7) * 256 + k);
    MidFacts(n, j);
  }

  lemma MidFacts(n: Fs, j: nat)
    requires TreeOk(n)
    ensures At(n, Mid(7, j)) != 0 ==> At(n, Mid(7, j)) !in n.st && !BadBlock(n.isize, n.fsize, At(n, Mid(7, j)))
  {
  }

  /** Writing a block that is not free does not disturb the list. */
  lemma WriteKeepsList(n: Fs, n': Fs, b: int, w: Words)
    requires ListOk(n) && b !in n.st && |w| == WORDS && n'.disk == n.disk[b := w]
    requires n'.nfree == n.nfree && n'.free == n.free && n'.st == n.st && n'.isize == n.isize && n'.fsize == n.fsize
    ensures ListOk(n')
  {
    ChainFrame(n.disk, n'.disk, n.nfree, n.free, n.st);
  }
}
