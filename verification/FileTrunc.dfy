/**
 The order in which itrunc (ken/iget.c) gives back the blocks of a file, and that it is every block
 of the file, each once.
 */
module FileTrunc {
  import opened FreeList
  import opened FileTree

  function WordsOf(disk: map<int, Words>, b: int): Words {
    if b in disk then disk[b] else []
  }

  /** The blocks the first `k` entries of an indirect block lead to, last entry first; below each
      entry of a double indirect block, what it leads to comes before it. */
  function Level(disk: map<int, Words>, w: Words, double: bool, k: nat): seq<int>
    requires k <= |w|
    decreases double, k
  {
    if k == 0 then []
    else (if w[k - 1] == 0 then [] else Below(disk, w[k - 1], double) + [w[k - 1]]) + Level(disk, w, double, k - 1)
  }

  function Below(disk: map<int, Words>, b: int, double: bool): seq<int>
    decreases double, 0
  {
    if double && b in disk then Level(disk, disk[b], false, |disk[b]|) else []
  }

  /** What entry `i` of the inode leads to. */
  function Entry(disk: map<int, Words>, addr: seq<int>, large: bool, i: nat): seq<int>
    requires i < |addr|
  {
    if addr[i] == 0 then []
    else (if large && addr[i] in disk then Level(disk, disk[addr[i]], i == 7, |disk[addr[i]]|) else []) + [addr[i]]
  }

  function Entries(disk: map<int, Words>, addr: seq<int>, large: bool, k: nat): seq<int>
    requires k <= |addr|
  {
    if k == 0 then [] else Entry(disk, addr, large, k - 1) + Entries(disk, addr, large, k - 1)
  }

  lemma NoDupSum(a: seq<int>, b: seq<int>)
    requires NoDup(a) && NoDup(b) && forall x :: x in a ==> x !in b
    ensures NoDup(a + b)
  {
    var s := a + b;
    forall i, j | 0 <= i < j < |s| ensures s[i] != s[j] {
      if i < |a| && j >= |a| {
        assert a[i] in a && b[j - |a|] in b;
      }
    }
  }

  lemma NoDupParts(a: seq<int>, b: seq<int>)
    requires NoDup(a + b)
    ensures NoDup(a) && NoDup(b) && forall x :: x in a ==> x !in b
  {
    var s := a + b;
    assert forall i :: 0 <= i < |a| ==> s[i] == a[i];
    assert forall i :: 0 <= i < |b| ==> s[|a| + i] == b[i];
  }

  // ------------------------------------------------------------ every block, each once

  /** One level: the nonzero entries, if they all differ. */
  lemma {:induction false} FlatLevel(disk: map<int, Words>, w: Words, k: nat)
    requires k <= |w| && forall i, j :: 0 <= i < k && 0 <= j < k && w[i] != 0 && w[i] == w[j] ==> i == j
    ensures NoDup(Level(disk, w, false, k))
    ensures forall x :: x in Level(disk, w, false, k) <==> x != 0 && exists l: nat :: l < k && w[l] == x
  {
    if k > 0 {
      FlatLevel(disk, w, k - 1);
      var x, rest := w[k - 1], Level(disk, w, false, k - 1);
      if x != 0 {
        assert forall l: nat :: l < k - 1 ==> w[l] != x;
        NoDupSum([x], rest);
        assert Level(disk, w, false, k) == [x] + rest;
      } else {
        assert Level(disk, w, false, k) == rest;
      }
      forall y
        ensures y in Level(disk, w, false, k) <==> y != 0 && exists l: nat :: l < k && w[l] == y
      {
        FlatAt(w, k, rest, y);
      }
    }
  }

  lemma FlatAt(w: Words, k: nat, rest: seq<int>, y: int)
    requires 0 < k <= |w| && (y in rest <==> y != 0 && exists l: nat :: l < k - 1 && w[l] == y)
    ensures y in rest || (y == w[k - 1] && y != 0) <==> y != 0 && exists l: nat :: l < k && w[l] == y
  {
    if y != 0 && y == w[k - 1] {
      var l: nat := k - 1;
      assert w[l] == y;
    }
  }

  /** Block `x` is entry `j` of the double indirect block, or under it. */
  ghost predicate Sub(n: Fs, j: nat, x: int) {
    At(n, Mid(7, j)) == x || exists l: nat :: At(n, Leaf(j, l)) == x
  }

  lemma SubApart(n: Fs, i: nat, j: nat, x: int)
    requires TreeOk(n) && x != 0 && Sub(n, i, x) && Sub(n, j, x)
    ensures i == j
  {
    var p := if At(n, Mid(7, i)) == x then Mid(7, i) else var l: nat :| At(n, Leaf(i, l)) == x; Leaf(i, l);
    var q := if At(n, Mid(7, j)) == x then Mid(7, j) else var l: nat :| At(n, Leaf(j, l)) == x; Leaf(j, l);
    if p != q {
      Apart(n, p, q);
    }
  }

  /** One entry of the double indirect block and all below it. */
  lemma SubLevel(n: Fs, j: nat)
    requires TreeOk(n) && DiskOk(n) && n.large && At(n, Mid(7, j)) != 0
    ensures var c := At(n, Mid(7, j)); var s := Below(n.disk, c, true) + [c];
      NoDup(s) && forall x :: x in s <==> x != 0 && Sub(n, j, x)
  {
    hide TreeOk, Level;
    var c := At(n, Mid(7, j));
    MidBlock(n, j);
    var w := n.disk[c];
    LeafWords(n, j, w);
    FlatLevel(n.disk, w, |w|);
    var s := Level(n.disk, w, false, |w|);
    assert Below(n.disk, c, true) == s;
    NoDupSum(s, [c]);
  }

  lemma MidBlock(n: Fs, j: nat)
    requires TreeOk(n) && DiskOk(n) && n.large && At(n, Mid(7, j)) != 0
    ensures At(n, Mid(7, j)) in n.disk && |n.addr| == 8
  {
  }

  lemma LeafWords(n: Fs, j: nat, w: Words)
    requires TreeOk(n) && n.large && At(n, Mid(7, j)) != 0 && At(n, Mid(7, j)) in n.disk
    requires w == n.disk[At(n, Mid(7, j))]
    ensures forall l: nat :: At(n, Leaf(j, l)) == if l < |w| then w[l] else 0
    ensures forall i, l :: 0 <= i < |w| && 0 <= l < |w| && w[i] != 0 && w[i] == w[l] ==> i == l
    ensures forall l: nat :: l < |w| ==> w[l] != At(n, Mid(7, j))
  {
    assert forall l: nat :: l < |w| ==> w[l] == At(n, Leaf(j, l));
    forall i, l | 0 <= i < |w| && 0 <= l < |w| && w[i] != 0 && w[i] == w[l] ensures i == l {
      if i != l { Apart(n, Leaf(j, i), Leaf(j, l)); }
    }
    forall l: nat | l < |w| ensures w[l] != At(n, Mid(7, j)) {
      Apart(n, Mid(7, j), Leaf(j, l));
    }
  }

  /** The list `s` holds what the first `k` words lead to, each block once. */
  ghost predicate Spread(n: Fs, w: Words, k: nat, s: seq<int>)
    requires k <= |w|
  {
    NoDup(s) && forall x :: x in s <==> x != 0 && exists j: nat :: j < k && w[j] != 0 && Sub(n, j, x)
  }

  lemma {:induction false} DoubleLevel(n: Fs, w: Words, k: nat)
    requires TreeOk(n) && DiskOk(n) && n.large && k <= |w| && forall j: nat :: j < |w| ==> w[j] == At(n, Mid(7, j))
    ensures Spread(n, w, k, Level(n.disk, w, true, k))
  {
    hide TreeOk, DiskOk, Below, Spread;
    if k == 0 {
      NothingSpread(n, w);
    } else {
      DoubleLevel(n, w, k - 1);
      var c, rest := w[k - 1], Level(n.disk, w, true, k - 1);
      if c != 0 {
        SubLevel(n, k - 1);
        SpreadMore(n, w, k, Below(n.disk, c, true) + [c], rest);
      } else {
        SpreadNone(n, w, k, rest);
        assert Level(n.disk, w, true, k) == rest;
      }
    }
  }

  lemma NothingSpread(n: Fs, w: Words)
    ensures Spread(n, w, 0, [])
  {
  }

  lemma SpreadNone(n: Fs, w: Words, k: nat, rest: seq<int>)
    requires 0 < k <= |w| && w[k - 1] == 0 && Spread(n, w, k - 1, rest)
    ensures Spread(n, w, k, rest)
  {
    hide Sub, NoDup;
  }

  lemma SpreadMore(n: Fs, w: Words, k: nat, s: seq<int>, rest: seq<int>)
    requires TreeOk(n) && 0 < k <= |w| && w[k - 1] != 0 && Spread(n, w, k - 1, rest)
    requires NoDup(s) && forall x :: x in s <==> x != 0 && Sub(n, k - 1, x)
    ensures Spread(n, w, k, s + rest)
  {
    hide TreeOk, Sub, NoDup;
    forall x | x in s ensures x !in rest {
      forall j: nat | j < k - 1 && w[j] != 0 ensures !Sub(n, j, x) {
        if Sub(n, j, x) { SubApart(n, j, k - 1, x); }
      }
    }
    NoDupSum(s, rest);
    forall x
      ensures x in s + rest <==> x != 0 && exists j: nat :: j < k && w[j] != 0 && Sub(n, j, x)
    {
      SpreadAt(n, w, k, s, rest, x);
    }
  }

  lemma SpreadAt(n: Fs, w: Words, k: nat, s: seq<int>, rest: seq<int>, x: int)
    requires 0 < k <= |w| && w[k - 1] != 0 && (x in s <==> x != 0 && Sub(n, k - 1, x))
    requires x in rest <==> x != 0 && exists j: nat :: j < k - 1 && w[j] != 0 && Sub(n, j, x)
    ensures x in s + rest <==> x != 0 && exists j: nat :: j < k && w[j] != 0 && Sub(n, j, x)
  {
    hide Sub;
  }

  function Root(p: Pos): nat {
    match p
    case Top(i) => i
    case Mid(i, _) => i
    case Leaf(_, _) => 7
  }

  /** Block `x` of the file is found by way of entry `i` of the inode. */
  ghost predicate Via(n: Fs, i: nat, x: int) {
    exists p :: Root(p) == i && At(n, p) == x
  }

  lemma ViaApart(n: Fs, i: nat, j: nat, x: int)
    requires TreeOk(n) && x != 0 && Via(n, i, x) && Via(n, j, x)
    ensures i == j
  {
    var p :| Root(p) == i && At(n, p) == x;
    var q :| Root(q) == j && At(n, q) == x;
    if p != q {
      Apart(n, p, q);
    }
  }

  lemma ViaIs(n: Fs, i: nat, x: int, p: Pos)
    requires Root(p) == i && At(n, p) == x
    ensures Via(n, i, x)
  {
  }

  lemma DirectEntry(n: Fs, i: nat)
    requires TreeOk(n) && i < 8 && (n.addr[i] == 0 || !n.large)
    ensures forall x :: x != 0 ==> (Via(n, i, x) <==> x == n.addr[i])
  {
    ViaIs(n, i, n.addr[i], Top(i));
    forall x | x != 0 && Via(n, i, x) ensures x == n.addr[i] {
      var p :| Root(p) == i && At(n, p) == x;
    }
  }

  lemma MidEntry(n: Fs, i: nat)
    requires |n.addr| == 8 && TreeOk(n) && DiskOk(n) && n.large && i < 7 && n.addr[i] != 0
    ensures var s := Level(n.disk, WordsOf(n.disk, n.addr[i]), false, |WordsOf(n.disk, n.addr[i])|) + [n.addr[i]];
      NoDup(s) && forall x :: x in s <==> x != 0 && Via(n, i, x)
  {
    hide TreeOk, Level;
    var a := n.addr[i];
    TopBlock(n, i);
    var w := n.disk[a];
    MidWords(n, i, w);
    FlatLevel(n.disk, w, |w|);
    var s := Level(n.disk, w, false, |w|);
    forall x | x in s + [a] ensures x != 0 && Via(n, i, x) {
      if x == a {
        ViaIs(n, i, x, Top(i));
      } else {
        var j: nat :| j < |w| && w[j] == x;
        ViaIs(n, i, x, Mid(i, j));
      }
    }
    forall x | x != 0 && Via(n, i, x) ensures x in s + [a] {
      var p :| Root(p) == i && At(n, p) == x;
    }
    NoDupSum(s, [a]);
  }

  lemma TopBlock(n: Fs, i: nat)
    requires TreeOk(n) && DiskOk(n) && i < 8 && n.addr[i] != 0
    ensures n.addr[i] in n.disk && |n.addr| == 8
  {
    assert At(n, Top(i)) == n.addr[i];
  }

  lemma MidWords(n: Fs, i: nat, w: Words)
    requires TreeOk(n) && n.large && i < 7 && n.addr[i] != 0 && n.addr[i] in n.disk && w == n.disk[n.addr[i]]
    ensures forall l: nat :: At(n, Mid(i, l)) == if l < |w| then w[l] else 0
    ensures forall j, l :: 0 <= j < |w| && 0 <= l < |w| && w[j] != 0 && w[j] == w[l] ==> j == l
    ensures forall l: nat :: l < |w| ==> w[l] != n.addr[i]
  {
    assert forall l: nat :: l < |w| ==> w[l] == At(n, Mid(i, l));
    forall j, l | 0 <= j < |w| && 0 <= l < |w| && w[j] != 0 && w[j] == w[l] ensures j == l {
      if j != l { Apart(n, Mid(i, j), Mid(i, l)); }
    }
    forall l: nat | l < |w| ensures w[l] != n.addr[i] {
      Apart(n, Top(i), Mid(i, l));
    }
  }

  lemma DoubleEntry(n: Fs)
    requires TreeOk(n) && DiskOk(n) && n.large && n.addr[7] != 0
    ensures var s := Level(n.disk, WordsOf(n.disk, n.addr[7]), true, |WordsOf(n.disk, n.addr[7])|) + [n.addr[7]];
      NoDup(s) && forall x :: x in s <==> x != 0 && Via(n, 7, x)
  {
    hide Below, Level;
    var a := n.addr[7];
    assert At(n, Top(7)) == a;
    var w := n.disk[a];
    DoubleLevel(n, w, |w|);
    var s := Level(n.disk, w, true, |w|);
    forall x | x in s + [a] ensures x != 0 && Via(n, 7, x) {
      if x == a {
        ViaIs(n, 7, x, Top(7));
      } else {
        var j: nat :| j < |w| && w[j] != 0 && Sub(n, j, x);
        var p := if At(n, Mid(7, j)) == x then Mid(7, j) else var l: nat :| At(n, Leaf(j, l)) == x; Leaf(j, l);
        ViaIs(n, 7, x, p);
      }
    }
    forall x | x != 0 && Via(n, 7, x) ensures x in s + [a] {
      var p :| Root(p) == 7 && At(n, p) == x;
      ViaSub(n, w, p, x);
    }
    forall j: nat, x | Used(w, j) && Sub(n, j, x) && x != 0 ensures x != a {
      SubNotTop(n, j, x);
    }
    NoDupSum(s, [a]);
  }

  ghost predicate Used(w: Words, j: nat) {
    j < |w| && w[j] != 0
  }

  lemma SubNotTop(n: Fs, j: nat, x: int)
    requires TreeOk(n) && Sub(n, j, x) && x != 0
    ensures x != At(n, Top(7))
  {
    var p := if At(n, Mid(7, j)) == x then Mid(7, j) else var l: nat :| At(n, Leaf(j, l)) == x; Leaf(j, l);
    Apart(n, p, Top(7));
  }

  /** A block found through entry 7 of a huge file is the double indirect block or under an entry of it. */
  lemma ViaSub(n: Fs, w: Words, p: Pos, x: int)
    requires |n.addr| == 8 && n.large && n.addr[7] in n.disk && w == n.disk[n.addr[7]] && n.addr[7] != 0
    requires Root(p) == 7 && At(n, p) == x && x != 0
    ensures x == n.addr[7] || exists j: nat :: j < |w| && w[j] != 0 && Sub(n, j, x)
  {
    match p
    case Top(_) =>
    case Mid(_, j) => assert j < |w| && w[j] != 0 && Sub(n, j, x);
    case Leaf(j, l) => assert j < |w| && w[j] != 0 && Sub(n, j, x);
  }

  lemma EntryExact(n: Fs, i: nat)
    requires TreeOk(n) && DiskOk(n) && i < 8
    ensures NoDup(Entry(n.disk, n.addr, n.large, i))
    ensures forall x :: x in Entry(n.disk, n.addr, n.large, i) <==> x != 0 && Via(n, i, x)
  {
    hide Below, Level, Via;
    var a := n.addr[i];
    assert At(n, Top(i)) == a;
    if a == 0 || !n.large {
      DirectEntry(n, i);
    } else if i == 7 {
      DoubleEntry(n);
    } else {
      MidEntry(n, i);
    }
  }

  lemma {:induction false} EntriesExact(n: Fs, k: nat)
    requires TreeOk(n) && DiskOk(n) && |n.addr| == 8 && k <= 8
    ensures NoDup(Entries(n.disk, n.addr, n.large, k))
    ensures forall x :: x in Entries(n.disk, n.addr, n.large, k) <==> x != 0 && exists i: nat :: i < k && Via(n, i, x)
  {
    hide TreeOk, DiskOk, Via, Entry;
    if k > 0 {
      EntriesExact(n, k - 1);
      EntryExact(n, k - 1);
      var s, rest := Entry(n.disk, n.addr, n.large, k - 1), Entries(n.disk, n.addr, n.large, k - 1);
      forall x | x in s ensures x !in rest {
        forall i: nat | i < k - 1 ensures !Via(n, i, x) {
          if Via(n, i, x) { ViaApart(n, i, k - 1, x); }
        }
      }
      NoDupSum(s, rest);
    }
  }

  /** itrunc's order lists exactly the blocks the inode reaches, direct or indirect, each once; none is free. */
  lemma {:induction false} FreedExactly(n: Fs)
    requires FsOk(n)
    ensures var s := Entries(n.disk, n.addr, n.large, 8);
      && NoDup(n.st + s) && (forall x :: x in s <==> x != 0 && exists p :: At(n, p) == x)
      && forall x :: x in s ==> !BadBlock(n.isize, n.fsize, x)
  {
    hide Entries, Chain;
    var s := Entries(n.disk, n.addr, n.large, 8);
    EntriesExact(n, 8);
    forall x | x in s ensures x != 0 && exists p :: At(n, p) == x {
      var i: nat :| i < 8 && Via(n, i, x);
    }
    forall x | x != 0 && exists p :: At(n, p) == x ensures x in s {
      var p :| At(n, p) == x;
      ViaIs(n, Root(p), x, p);
    }
    NoDupSum(n.st, s);
  }
}
