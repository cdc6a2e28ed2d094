/**
 progs/icheck.c: the bit map of blocks in use, and the free list rebuilt from it.
 */
module ICheck {
  import opened FreeList

  const NMARKS := 4096 // words of bmap: one bit for each of 65536 blocks

  /** 1 << k. */
  function Bit(k: nat): bv16
    requires k < 16
  {
    match k
    case 0 => 0x1 case 1 => 0x2 case 2 => 0x4 case 3 => 0x8
    case 4 => 0x10 case 5 => 0x20 case 6 => 0x40 case 7 => 0x80
    case 8 => 0x100 case 9 => 0x200 case 10 => 0x400 case 11 => 0x800
    case 12 => 0x1000 case 13 => 0x2000 case 14 => 0x4000 case _ => 0x8000
  }

  function Or(w: bv16, m: bv16): bv16 {
    w | m
  }

  function And(w: bv16, m: bv16): bv16 {
    w & m
  }

  predicate On(w: bv16, m: bv16) {
    And(w, m) != 0
  }

  lemma BitsApart(i: nat, j: nat)
    requires i < 16 && j < 16
    ensures On(Bit(i), Bit(j)) <==> i == j
  {
    hide Bit, On, Single, Index;
    IndexOf(i);
    IndexOf(j);
    SingleApart(Bit(i), Bit(j));
  }

  /** Which bit of a word with one bit set. */
  function Index(m: bv16): nat {
    if m == 0x1 then 0 else if m == 0x2 then 1 else if m == 0x4 then 2 else if m == 0x8 then 3
    else if m == 0x10 then 4 else if m == 0x20 then 5 else if m == 0x40 then 6 else if m == 0x80 then 7
    else if m == 0x100 then 8 else if m == 0x200 then 9 else if m == 0x400 then 10 else if m == 0x800 then 11
    else if m == 0x1000 then 12 else if m == 0x2000 then 13 else if m == 0x4000 then 14 else 15
  }

  predicate Single(m: bv16) {
    m != 0 && And(m, m - 1) == 0
  }

  lemma IndexOf(k: nat)
    requires k < 16
    ensures Single(Bit(k)) && Index(Bit(k)) == k
  {
  }

  lemma SingleApart(a: bv16, b: bv16)
    requires Single(a) && Single(b)
    ensures On(a, b) <==> a == b
  {
  }

  lemma OrMarks(w: bv16, a: bv16, b: bv16)
    ensures On(Or(w, a), b) <==> On(w, b) || On(a, b)
  {
    hide Or, And;
    OrBit(w, a, b);
    OrZero(And(w, b), And(a, b));
  }

  lemma OrBit(w: bv16, a: bv16, b: bv16)
    ensures And(Or(w, a), b) == Or(And(w, b), And(a, b))
  {
  }

  lemma OrZero(a: bv16, b: bv16)
    ensures Or(a, b) != 0 <==> a != 0 || b != 0
  {
  }

  predicate Marked(marks: seq<bv16>, b: int)
    requires |marks| == NMARKS && 0 <= b < 65536
  {
    On(marks[b / 16], Bit(b % 16))
  }

  /** bmap[n] =| m. */
  function SetMark(marks: seq<bv16>, b: int): (r: seq<bv16>)
    requires |marks| == NMARKS && 0 <= b < 65536
    ensures |r| == NMARKS
  {
    marks[b / 16 := Or(marks[b / 16], Bit(b % 16))]
  }

  /** Setting one bit marks one block and no other. */
  lemma MarkOne(marks: seq<bv16>, b: int, c: int)
    requires |marks| == NMARKS && 0 <= b < 65536 && 0 <= c < 65536
    ensures Marked(SetMark(marks, b), c) <==> Marked(marks, c) || c == b
  {
    hide Bit, On, Or;
    if c / 16 == b / 16 {
      OrMarks(marks[b / 16], Bit(b % 16), Bit(c % 16));
      BitsApart(b % 16, c % 16);
    }
  }

  ghost predicate AlsoMarked(marks: seq<bv16>, marks': seq<bv16>, b: int) {
    && |marks| == NMARKS && |marks'| == NMARKS
    && forall c :: 0 <= c < 65536 ==> (Marked(marks', c) <==> Marked(marks, c) || c == b)
  }

  lemma MarkEach(marks: seq<bv16>, b: int)
    requires |marks| == NMARKS && 0 <= b < 65536
    ensures AlsoMarked(marks, SetMark(marks, b), b)
  {
    hide SetMark, Marked;
    forall c | 0 <= c < 65536 ensures Marked(SetMark(marks, b), c) <==> Marked(marks, c) || c == b {
      MarkOne(marks, b, c);
    }
  }

  /** The unmarked blocks from `hi` - 1 down to `lo`. */
  function Unmarked(marks: seq<bv16>, lo: int, hi: int): seq<int>
    requires |marks| == NMARKS && 0 <= lo && hi <= 65536
    decreases hi - lo
  {
    if hi <= lo then []
    else (if Marked(marks, hi - 1) then [] else [hi - 1]) + Unmarked(marks, lo, hi - 1)
  }

  function Reversed(s: seq<int>): seq<int> {
    if s == [] then [] else Reversed(s[1..]) + [s[0]]
  }

  lemma {:induction false} ReversedAt(s: seq<int>, k: nat)
    requires k < |s|
    ensures |Reversed(s)| == |s| && Reversed(s)[k] == s[|s| - 1 - k]
    decreases |s|
  {
    if |s| > 1 {
      ReversedAt(s[1..], if k < |s| - 1 then k else 0);
    }
  }

  lemma {:induction false} UnmarkedExact(marks: seq<bv16>, lo: int, hi: int)
    requires |marks| == NMARKS && 0 <= lo && hi <= 65536
    ensures var s := Unmarked(marks, lo, hi);
      && (forall x :: x in s <==> lo <= x < hi && !Marked(marks, x))
      && forall i, j :: 0 <= i < j < |s| ==> s[i] > s[j]
    decreases hi - lo
  {
    hide Marked, Unmarked;
    UnmarkedOpen(marks, lo, hi);
    if hi > lo {
      UnmarkedExact(marks, lo, hi - 1);
      var rest := Unmarked(marks, lo, hi - 1);
      if !Marked(marks, hi - 1) {
        var s := [hi - 1] + rest;
        forall i, j | 0 <= i < j < |s| ensures s[i] > s[j] {
          assert s[j] == rest[j - 1] && rest[j - 1] in rest;
        }
      }
    }
  }

  lemma UnmarkedOpen(marks: seq<bv16>, lo: int, hi: int)
    requires |marks| == NMARKS && 0 <= lo && hi <= 65536
    ensures Unmarked(marks, lo, hi) ==
      if hi <= lo then [] else if Marked(marks, hi - 1) then Unmarked(marks, lo, hi - 1)
      else [hi - 1] + Unmarked(marks, lo, hi - 1)
  {
    hide Marked;
    if lo < hi && Marked(marks, hi - 1) {
      assert [] + Unmarked(marks, lo, hi - 1) == Unmarked(marks, lo, hi - 1);
    }
  }

  /** Draining the rebuilt list gives the unmarked blocks in ascending order. */
  lemma {:induction false} DrainAscends(marks: seq<bv16>, lo: int, hi: int)
    requires |marks| == NMARKS && 0 <= lo && hi <= 65536
    ensures var r := Reversed(Unmarked(marks, lo, hi));
      && (forall x :: x in r <==> lo <= x < hi && !Marked(marks, x))
      && forall i, j :: 0 <= i < j < |r| ==> r[i] < r[j]
  {
    hide Marked, Unmarked, Reversed;
    UnmarkedExact(marks, lo, hi);
    var s := Unmarked(marks, lo, hi);
    var r := Reversed(s);
    ReversedLen(s);
    forall k | 0 <= k < |r| ensures r[k] == s[|s| - 1 - k] {
      ReversedAt(s, k);
    }
    forall x | x in s ensures x in r {
      var i :| 0 <= i < |s| && s[i] == x;
      assert r[|s| - 1 - i] == x;
    }
  }

  lemma ReversedLen(s: seq<int>)
    ensures |Reversed(s)| == |s|
  {
    if s != [] {
      ReversedAt(s, 0);
    }
  }

  class ICheck {
    const isize: int    // sblock.s_isize
    const fsize: int
    var nfree: int
    var free: Words
    var disk: map<int, Words>
    var marks: seq<bv16>
    ghost var st: seq<int>

    ghost predicate Valid()
      reads this
    {
      && 0 <= isize && fsize <= 65536 && |marks| == NMARKS && |free| == NICFREE
      && forall b :: isize + 2 <= b < fsize ==> b in disk && |disk[b]| == WORDS
    }

    /** chk: a block in use is marked; whether it was out of range, and whether it was in use twice. */
    method Chk(b: int) returns (bad: bool, dup: bool)
      requires Valid()
      modifies this`marks
      ensures Valid() && bad == !(isize + 2 <= b < fsize)
      ensures bad ==> marks == old(marks) && !dup
      ensures !bad ==> dup == Marked(old(marks), b)
      ensures !bad ==> AlsoMarked(old(marks), marks, b)
    {
      hide Marked, SetMark, AlsoMarked;
      if b < isize + 2 || b >= fsize {
        return true, false;
      }
      MarkEach(marks, b);
      dup := Marked(marks, b);
      marks := SetMark(marks, b);
      bad := false;
    }

    /** icheck's free. */
    method Free(bno: int)
      requires Valid() && (bno == 0 || isize + 2 <= bno < fsize) && bno !in st && 0 <= nfree <= NICFREE
      requires if bno == 0 then nfree == 0 && st == [] else nfree > 0 && Chain(disk, nfree, free, st)
      modifies this`nfree, this`free, this`disk, this`st
      ensures Valid() && 0 < nfree <= NICFREE && Chain(disk, nfree, free, st)
      ensures st == if bno == 0 then [] else old(st) + [bno]
      ensures forall b :: b in old(disk) && (b != bno || bno == 0) ==> b in disk && disk[b] == old(disk)[b]
    {
      hide Chain;
      if bno == 0 {
        EmptyList(disk, free[0 := 0]);
      } else if nfree < NICFREE {
        PushRoom(disk, nfree, free, st, bno);
      }
      ghost var was, list := disk, free;
      if nfree >= NICFREE {
        var junk: Words := *;
        if |junk| != WORDS {
          junk := Zeros();
        }
        disk := disk[bno := [nfree] + free + junk[NICFREE + 1..]];
        assert disk[bno][1..NICFREE + 1] == free;
        PushSpill(was, free, st, bno, disk[bno]);
        nfree := 0;
      }
      free := free[nfree := bno];
      nfree := nfree + 1;
      st := if bno == 0 then [] else st + [bno];
    }

    /** icheck's alloc. */
    method Alloc() returns (b: int)
      requires Valid() && Chain(disk, nfree, free, st) && forall x :: x in st ==> isize + 2 <= x < fsize
      modifies this`nfree, this`free, this`st
      ensures Valid() && Chain(disk, nfree, free, st)
      ensures if old(st) == [] then b == 0 && st == []
              else b == old(st)[|old(st)| - 1] && st == old(st)[..|old(st)| - 1] && b != 0
      ensures forall x :: x in st ==> x in old(st)
    {
      hide Chain;
      ghost var n := nfree;
      Shape(disk, nfree, free, st);
      if st != [] {
        Pop(disk, nfree, free, st);
        assert st[|st| - 1] in st;
      } else {
        PopNone(disk, nfree, free);
        Spent(disk, free, nfree - 1);
      }
      nfree := nfree - 1;
      var i := nfree;
      if i < 0 || i >= NICFREE {
        return 0;
      }
      b := free[i];
      if b == 0 {
        return 0;
      }
      if nfree <= 0 {
        nfree, free := disk[b][0], disk[b][1..NICFREE + 1];
      }
      st := st[..|st| - 1];
    }

    /** makefree: the free list is exactly the unmarked blocks, the lowest on top. */
    method MakeFree()
      requires Valid()
      modifies this`nfree, this`free, this`disk, this`st
      ensures Valid() && Chain(disk, nfree, free, st)
      ensures st == Unmarked(marks, isize + 2, fsize)
      ensures forall b :: b in old(disk) && b !in st ==> b in disk && disk[b] == old(disk)[b]
    {
      hide Chain, Marked, Unmarked;
      nfree := 0;
      st := [];
      Free(0);
      ghost var lo := isize + 2;
      ghost var all := Unmarked(marks, lo, fsize);
      var il := fsize - 1;
      assert [] + all == all;
      while il >= isize + 2
        invariant il < fsize && Valid() && 0 < nfree <= NICFREE && Chain(disk, nfree, free, st)
        invariant st + Unmarked(marks, lo, il + 1) == all
        invariant forall x :: x in st ==> x > il
        invariant forall b :: b in old(disk) && b !in st ==> b in disk && disk[b] == old(disk)[b]
      {
        Visit(il, all);
        il := il - 1;
      }
      UnmarkedOpen(marks, lo, il + 1);
      assert st + [] == st;
    }

    /** One block looked at by makefree: freed if it is not marked. */
    method Visit(il: int, ghost all: seq<int>)
      requires Valid() && 0 < nfree <= NICFREE && Chain(disk, nfree, free, st) && isize + 2 <= il < fsize
      requires st + Unmarked(marks, isize + 2, il + 1) == all && forall x :: x in st ==> x > il
      modifies this`nfree, this`free, this`disk, this`st
      ensures Valid() && 0 < nfree <= NICFREE && Chain(disk, nfree, free, st)
      ensures st + Unmarked(marks, isize + 2, il) == all && forall x :: x in st ==> x > il - 1
      ensures old(st) <= st && forall b :: b in old(disk) && b !in st ==> b in disk && disk[b] == old(disk)[b]
    {
      hide Chain, Marked, Unmarked;
      UnmarkedOpen(marks, isize + 2, il + 1);
      if !Marked(marks, il) {
        assert st + ([il] + Unmarked(marks, isize + 2, il)) == (st + [il]) + Unmarked(marks, isize + 2, il);
        Free(il);
      }
    }

    /** Taking blocks until none is left. */
    method Drain() returns (out: seq<int>)
      requires Valid() && Chain(disk, nfree, free, st) && forall x :: x in st ==> isize + 2 <= x < fsize
      modifies this`nfree, this`free, this`st
      ensures out == Reversed(old(st)) && st == []
    {
      hide Chain;
      ghost var s := st;
      out := [];
      var b := Alloc();
      ReversedEnd(s);
      while b != 0
        invariant Valid() && Chain(disk, nfree, free, st) && forall x :: x in st ==> isize + 2 <= x < fsize
        invariant b == 0 ==> st == [] && out == Reversed(s)
        invariant b != 0 ==> out + [b] + Reversed(st) == Reversed(s)
        decreases if b == 0 then 0 else |st| + 1
      {
        out := out + [b];
        ReversedEnd(st);
        b := Alloc();
      }
    }
  }

  lemma ReversedEnd(s: seq<int>)
    ensures s == [] ==> Reversed(s) == []
    ensures s != [] ==> Reversed(s) == [s[|s| - 1]] + Reversed(s[..|s| - 1])
    decreases |s|
  {
    if |s| > 1 {
      ReversedEnd(s[1..]);
      assert s[1..][..|s| - 2] == s[..|s| - 1][1..];
    }
  }

  lemma EmptyList(disk: map<int, Words>, free: Words)
    requires |free| == NICFREE && free[0] == 0
    ensures Chain(disk, 1, free, [])
  {
  }

  lemma Spent(disk: map<int, Words>, free: Words, nfree: int)
    requires |free| == NICFREE && nfree <= 0
    ensures Chain(disk, nfree, free, [])
  {
  }

  lemma Shape(disk: map<int, Words>, nfree: int, free: Words, st: seq<int>)
    requires Chain(disk, nfree, free, st)
    ensures nfree <= NICFREE && |free| == NICFREE
  {
  }
}
