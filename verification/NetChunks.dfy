/**
 What a message means.  A network message is a ring of netbufs; read in ring order, from the
 buffer after the handle round to the handle itself, it is a sequence of chunks (one per netbuf)
 and, flattened, a sequence of bytes.  This module gives the chunk-level effect of the message
 primitives of ncpkernel/kerbuf.c and proves what each one does to the bytes.
 */
module NetChunks {

  newtype Byte = x: int | 0 <= x < 256
  type Chunk = seq<Byte>

  const NET_B_SIZE: nat := 60

  function Min(a: nat, b: nat): nat { if a < b then a else b }

  function Flatten(cs: seq<Chunk>): seq<Byte> {
    if cs == [] then [] else cs[0] + Flatten(cs[1..])
  }

  ghost predicate Sized(cs: seq<Chunk>) {
    forall i :: 0 <= i < |cs| ==> |cs[i]| <= NET_B_SIZE
  }

  lemma ConcatAssoc(a: seq<Byte>, b: seq<Byte>, c: seq<Byte>)
    ensures (a + b) + c == a + (b + c)
  {
  }

  lemma {:induction false} FlattenConcat(a: seq<Chunk>, b: seq<Chunk>)
    ensures Flatten(a + b) == Flatten(a) + Flatten(b)
  {
    if a == [] {
      assert a + b == b;
    } else {
      FlattenConcat(a[1..], b);
      assert (a + b)[0] == a[0] && (a + b)[1..] == a[1..] + b;
      ConcatAssoc(a[0], Flatten(a[1..]), Flatten(b));
    }
  }

  lemma FlattenOne(c: Chunk)
    ensures Flatten([c]) == c
  {
    assert [c][1..] == [];
  }

  /** A message seen as its last chunk and everything before it. */
  lemma FlattenLast(cs: seq<Chunk>)
    requires cs != []
    ensures Flatten(cs) == Flatten(cs[..|cs| - 1]) + cs[|cs| - 1]
  {
    assert cs == cs[..|cs| - 1] + [cs[|cs| - 1]];
    FlattenConcat(cs[..|cs| - 1], [cs[|cs| - 1]]);
    FlattenOne(cs[|cs| - 1]);
  }

  /** `cs` with `bs` added to the end of its last chunk. */
  function AddToLast(cs: seq<Chunk>, bs: seq<Byte>): seq<Chunk>
    requires cs != []
  {
    cs[..|cs| - 1] + [cs[|cs| - 1] + bs]
  }

  lemma AddToLastBytes(cs: seq<Chunk>, bs: seq<Byte>)
    requires cs != []
    ensures Flatten(AddToLast(cs, bs)) == Flatten(cs) + bs
  {
    FlattenLast(cs);
    FlattenLast(AddToLast(cs, bs));
    assert AddToLast(cs, bs)[..|cs| - 1] == cs[..|cs| - 1];
  }

  /** vectomsg: fill the last buffer up to NET_B_SIZE, then buffers of NET_B_SIZE, then the rest. */
  function Fill(cs: seq<Chunk>, bs: seq<Byte>): seq<Chunk>
    decreases |bs|
  {
    if bs == [] then cs
    else if cs != [] && |cs[|cs| - 1]| < NET_B_SIZE then
      var k := Min(NET_B_SIZE - |cs[|cs| - 1]|, |bs|);
      Fill(AddToLast(cs, bs[..k]), bs[k..])
    else
      var k := Min(NET_B_SIZE, |bs|);
      Fill(cs + [bs[..k]], bs[k..])
  }

  /** bytesout: what is left after taking `n` bytes; buffers emptied on the way are released. */
  function Drop(cs: seq<Chunk>, n: nat): seq<Chunk>
    decreases |cs|
  {
    if cs == [] || n == 0 then cs
    else if n < |cs[0]| then [cs[0][n..]] + cs[1..]
    else Drop(cs[1..], n - |cs[0]|)
  }

  /** catmsg: whole leading buffers of the second message move into the last buffer of the first. */
  function Cat(c1: seq<Chunk>, c2: seq<Chunk>): seq<Chunk>
    decreases |c2|
  {
    if c2 == [] then c1
    else if c1 == [] then c2
    else if |c1[|c1| - 1]| + |c2[0]| <= NET_B_SIZE then Cat(AddToLast(c1, c2[0]), c2[1..])
    else c1 + c2
  }

  /** vectomsg appends exactly the bytes moved. */
  lemma {:induction false} FillAppends(cs: seq<Chunk>, bs: seq<Byte>)
    ensures Flatten(Fill(cs, bs)) == Flatten(cs) + bs
    decreases |bs|
  {
    if bs == [] {
    } else if cs != [] && |cs[|cs| - 1]| < NET_B_SIZE {
      var k := Min(NET_B_SIZE - |cs[|cs| - 1]|, |bs|);
      FillAppends(AddToLast(cs, bs[..k]), bs[k..]);
      AddToLastBytes(cs, bs[..k]);
      SplitAgain(Flatten(cs), bs, k);
    } else {
      var k := Min(NET_B_SIZE, |bs|);
      FillAppends(cs + [bs[..k]], bs[k..]);
      FlattenConcat(cs, [bs[..k]]);
      FlattenOne(bs[..k]);
      SplitAgain(Flatten(cs), bs, k);
    }
  }

  lemma SplitAgain(a: seq<Byte>, b: seq<Byte>, k: nat)
    requires k <= |b|
    ensures (a + b[..k]) + b[k..] == a + b
  {
  }

  /** No buffer is overfilled. */
  lemma {:induction false} FillSized(cs: seq<Chunk>, bs: seq<Byte>)
    requires Sized(cs)
    ensures Sized(Fill(cs, bs)) && |cs| <= |Fill(cs, bs)|
    decreases |bs|
  {
    if bs == [] {
    } else if cs != [] && |cs[|cs| - 1]| < NET_B_SIZE {
      var k := Min(NET_B_SIZE - |cs[|cs| - 1]|, |bs|);
      FillSized(AddToLast(cs, bs[..k]), bs[k..]);
    } else {
      var k := Min(NET_B_SIZE, |bs|);
      FillSized(cs + [bs[..k]], bs[k..]);
    }
  }

  /** Two transfers in a row are one transfer: a vectomsg put to sleep half way may be resumed. */
  lemma {:induction false} FillResumes(cs: seq<Chunk>, vs: seq<Byte>, bs: seq<Byte>)
    ensures Fill(Fill(cs, vs), bs) == Fill(cs, vs + bs)
    decreases |vs|
  {
    hide AddToLast;
    if vs == [] {
      assert vs + bs == bs;
    } else if cs != [] && |cs[|cs| - 1]| < NET_B_SIZE {
      var k := Min(NET_B_SIZE - |cs[|cs| - 1]|, |vs|);
      FillResumes(AddToLast(cs, vs[..k]), vs[k..], bs);
      assert (vs + bs)[..k] == vs[..k] && (vs + bs)[k..] == vs[k..] + bs;
      FillStep(cs, vs + bs, k);
    } else {
      var k := Min(NET_B_SIZE, |vs|);
      FillResumes(cs + [vs[..k]], vs[k..], bs);
      assert (vs + bs)[..k] == vs[..k] && (vs + bs)[k..] == vs[k..] + bs;
      FillStepNew(cs, vs + bs, k);
    }
  }

  /** Filling the last buffer may be done in two goes. */
  lemma {:induction false} FillStep(cs: seq<Chunk>, bs: seq<Byte>, k: nat)
    requires cs != [] && |cs[|cs| - 1]| < NET_B_SIZE
    requires k <= |bs| && k <= NET_B_SIZE - |cs[|cs| - 1]|
    ensures Fill(cs, bs) == Fill(AddToLast(cs, bs[..k]), bs[k..])
  {
    var m := Min(NET_B_SIZE - |cs[|cs| - 1]|, |bs|);
    var one := AddToLast(cs, bs[..k]);
    if k == 0 {
      assert bs[..k] == [] && bs[k..] == bs;
      assert cs[|cs| - 1] + [] == cs[|cs| - 1];
      assert one == cs;
    } else if k < m {
      assert bs[k..][..m - k] == bs[k..m] && bs[k..][m - k..] == bs[m..];
      assert bs[..k] + bs[k..m] == bs[..m];
      var last := cs[|cs| - 1];
      assert (last + bs[..k]) + bs[k..m] == last + bs[..m];
      assert AddToLast(one, bs[k..m]) == AddToLast(cs, bs[..m]);
    }
  }

  lemma {:induction false} FillStepNew(cs: seq<Chunk>, bs: seq<Byte>, k: nat)
    requires cs == [] || |cs[|cs| - 1]| >= NET_B_SIZE
    requires 0 < k <= |bs| && k <= NET_B_SIZE
    ensures Fill(cs, bs) == Fill(cs + [bs[..k]], bs[k..])
  {
    hide Fill;
    var m := Min(NET_B_SIZE, |bs|);
    var one := cs + [bs[..k]];
    FillOnce(cs, bs);
    if k < m {
      FillOnce(one, bs[k..]);
      assert bs[k..][..m - k] == bs[k..m] && bs[k..][m - k..] == bs[m..];
      assert bs[..k] + bs[k..m] == bs[..m];
      assert one[..|one| - 1] == cs;
    }
  }

  lemma FillOnce(cs: seq<Chunk>, bs: seq<Byte>)
    requires bs != []
    ensures cs == [] || |cs[|cs| - 1]| >= NET_B_SIZE ==>
      var k := Min(NET_B_SIZE, |bs|); Fill(cs, bs) == Fill(cs + [bs[..k]], bs[k..])
    ensures cs != [] && |cs[|cs| - 1]| < NET_B_SIZE ==>
      var k := Min(NET_B_SIZE - |cs[|cs| - 1]|, |bs|); Fill(cs, bs) == Fill(AddToLast(cs, bs[..k]), bs[k..])
  {
  }

  /** bytesout removes exactly a prefix. */
  lemma {:induction false} DropRemovesPrefix(cs: seq<Chunk>, n: nat)
    ensures Flatten(Drop(cs, n)) == Flatten(cs)[Min(n, |Flatten(cs)|)..]
    ensures Sized(cs) ==> Sized(Drop(cs, n))
    decreases |cs|
  {
    if cs == [] || n == 0 {
    } else if n < |cs[0]| {
      assert ([cs[0][n..]] + cs[1..])[1..] == cs[1..];
    } else {
      DropRemovesPrefix(cs[1..], n - |cs[0]|);
    }
  }

  /** catmsg concatenates, even when it merges buffers. */
  lemma {:induction false} CatConcatenates(c1: seq<Chunk>, c2: seq<Chunk>)
    requires Sized(c1) && Sized(c2)
    ensures Flatten(Cat(c1, c2)) == Flatten(c1) + Flatten(c2)
    ensures Sized(Cat(c1, c2))
    ensures |Cat(c1, c2)| <= |c1| + |c2|
    decreases |c2|
  {
    if c2 == [] || c1 == [] {
    } else if |c1[|c1| - 1]| + |c2[0]| <= NET_B_SIZE {
      CatConcatenates(AddToLast(c1, c2[0]), c2[1..]);
      AddToLastBytes(c1, c2[0]);
    } else {
      FlattenConcat(c1, c2);
    }
  }

  /** A transfer that fits in the last buffer. */
  lemma FillFits(cs: seq<Chunk>, bs: seq<Byte>)
    requires cs != [] && |cs[|cs| - 1]| + |bs| <= NET_B_SIZE
    ensures Fill(cs, bs) == AddToLast(cs, bs)
  {
    if bs == [] {
      assert cs[|cs| - 1] + bs == cs[|cs| - 1];
    } else {
      assert bs[..|bs|] == bs && bs[|bs|..] == [];
    }
  }

  /** A transfer that takes one new buffer. */
  lemma FillNew(cs: seq<Chunk>, bs: seq<Byte>)
    requires cs == [] || |cs[|cs| - 1]| >= NET_B_SIZE
    requires 0 < |bs| <= NET_B_SIZE
    ensures Fill(cs, bs) == cs + [bs]
    ensures AddToLast(cs + [[]], bs) == cs + [bs]
  {
    assert bs[..|bs|] == bs && bs[|bs|..] == [];
    assert [] + bs == bs;
  }

  lemma FillNone(cs: seq<Chunk>)
    ensures Fill(cs, []) == cs
  {
  }

  /** One turn of vectomsg: `room` is the message once appendb has found space at its end. */
  lemma FillPiece(cs: seq<Chunk>, room: seq<Chunk>, bs: seq<Byte>, had: bool)
    requires room != [] && |room[|room| - 1]| + |bs| <= NET_B_SIZE && bs != []
    requires had ==> room == cs
    requires !had ==> room == cs + [[]] && (cs == [] || |cs[|cs| - 1]| >= NET_B_SIZE)
    ensures AddToLast(room, bs) == Fill(cs, bs)
  {
    if had {
      FillFits(cs, bs);
    } else {
      FillNew(cs, bs);
    }
  }

  lemma AddToLastCount(cs: seq<Chunk>, bs: seq<Byte>)
    requires cs != []
    ensures |AddToLast(cs, bs)| == |cs|
  {
  }

  // ------------------------------------------------------------------ one turn of each loop

  lemma FlattenNone()
    ensures Flatten([]) == []
  {
  }

  lemma FrontBytes(cs: seq<Chunk>, vec: seq<Byte>)
    requires cs != []
    ensures Flatten(cs[0 := vec + cs[0]]) == vec + Flatten(cs)
  {
    assert cs[0 := vec + cs[0]][1..] == cs[1..];
  }

  lemma DropBegin(cs: seq<Chunk>)
    ensures [] + Flatten(cs) == Flatten(cs)
  {
  }

  /** One turn of bytesout: `k` bytes leave the first chunk, which goes when nothing is left in it. */
  lemma DropTurn(ds: seq<Chunk>, es: seq<Chunk>, n: nat, k: nat)
    requires ds != [] && n > 0 && k == Min(n, |ds[0]|)
    requires es == if k < |ds[0]| then ds[0 := ds[0][k..]] else ds[1..]
    ensures Drop(es, n - k) == Drop(ds, n)
    ensures ds[0][..k] + Flatten(es) == Flatten(ds)
    ensures n - k < n || |es| < |ds|
  {
    if k < |ds[0]| {
      assert ds[0 := ds[0][k..]] == [ds[0][k..]] + ds[1..];
      assert es[1..] == ds[1..];
      assert ds[0][..k] + (ds[0][k..] + Flatten(ds[1..])) == ds[0] + Flatten(ds[1..]);
    } else {
      assert ds[0][..k] == ds[0];
    }
  }

  lemma DropEnd(es: seq<Chunk>, left: nat, out: seq<Byte>, cs: seq<Chunk>, n: nat)
    requires Drop(es, left) == Drop(cs, n) && out + Flatten(es) == Flatten(cs) && |out| + left == n
    requires es == [] || left == 0
    ensures es == Drop(cs, n) && out == Flatten(cs)[..|out|] && |out| == Min(n, |Flatten(cs)|)
    ensures Flatten(es) == Flatten(cs)[|out|..]
  {
  }

  lemma CatEmpty(c1: seq<Chunk>, c2: seq<Chunk>)
    ensures c2 == [] ==> Cat(c1, c2) == c1
    ensures c1 == [] ==> Cat(c1, c2) == c2
  {
  }

  lemma CatMerge(c1: seq<Chunk>, c2: seq<Chunk>)
    requires c1 != [] && c2 != [] && |c1[|c1| - 1]| + |c2[0]| <= NET_B_SIZE
    ensures Cat(c1, c2) == Cat(Fill(c1, c2[0]), c2[1..])
  {
    FillFits(c1, c2[0]);
  }

  // ------------------------------------------------------------------ cutting a message short

  /** rmovepad: the first `n` bytes, buffer by buffer; the last buffer kept may end up empty. */
  function TakeBytes(cs: seq<Chunk>, n: nat): seq<Chunk>
    decreases |cs|
  {
    if cs == [] then []
    else if n <= |cs[0]| then [cs[0][..n]]
    else [cs[0]] + TakeBytes(cs[1..], n - |cs[0]|)
  }

  /** rmovepad keeps exactly the first declared bytes, or all there are. */
  lemma {:induction false} TakeKeepsPrefix(cs: seq<Chunk>, n: nat)
    ensures Flatten(TakeBytes(cs, n)) == Flatten(cs)[..Min(n, |Flatten(cs)|)]
    ensures |TakeBytes(cs, n)| <= |cs|
    decreases |cs|
  {
    if cs != [] {
      if n <= |cs[0]| {
        FlattenOne(cs[0][..n]);
      } else {
        TakeKeepsPrefix(cs[1..], n - |cs[0]|);
        var t := TakeBytes(cs[1..], n - |cs[0]|);
        assert ([cs[0]] + t)[1..] == t;
      }
    }
  }

  /** The cut is at or after chunk `k`: everything before it is kept whole. */
  ghost predicate TakesPast(cs: seq<Chunk>, n: nat, k: nat) {
    && k < |cs| && |Flatten(cs[..k])| <= n
    && TakeBytes(cs, n) == cs[..k] + TakeBytes(cs[k..], n - |Flatten(cs[..k])|)
  }

  lemma TakeStart(cs: seq<Chunk>, n: nat)
    requires cs != []
    ensures TakesPast(cs, n, 0) && |Flatten(cs[..1])| == |cs[0]|
  {
    assert cs[..0] == [] && cs[0..] == cs;
    assert cs[..1] == [cs[0]];
    FlattenOne(cs[0]);
  }

  lemma TakeOn(cs: seq<Chunk>, n: nat, k: nat)
    requires TakesPast(cs, n, k) && k + 1 < |cs| && n > |Flatten(cs[..k + 1])|
    ensures TakesPast(cs, n, k + 1) && |Flatten(cs[..k + 2])| == |Flatten(cs[..k + 1])| + |cs[k + 1]|
    ensures n - |Flatten(cs[..k + 2])| + |cs[k + 1]| >= 0
  {
    FlattenLast(cs[..k + 1]);
    assert cs[..k + 1][..k] == cs[..k];
    FlattenLast(cs[..k + 2]);
    assert cs[..k + 2][..k + 1] == cs[..k + 1];
    assert cs[k..][1..] == cs[k + 1..];
    assert cs[..k] + [cs[k]] == cs[..k + 1];
  }

  lemma TakeEnd(cs: seq<Chunk>, n: nat, k: nat)
    requires TakesPast(cs, n, k)
    requires n <= |Flatten(cs[..k + 1])| || k + 1 == |cs|
    ensures n <= |Flatten(cs[..k + 1])| ==> 0 <= |cs[k]| + n - |Flatten(cs[..k + 1])| <= |cs[k]|
    ensures TakeBytes(cs, n) == if n < |Flatten(cs[..k + 1])|
      then cs[..k] + [cs[k][..|cs[k]| + n - |Flatten(cs[..k + 1])|]]
      else cs[..k + 1]
  {
    FlattenLast(cs[..k + 1]);
    assert cs[..k + 1][..k] == cs[..k];
    assert cs[k..][0] == cs[k];
    assert cs[..k] + [cs[k]] == cs[..k + 1];
    var m := n - |Flatten(cs[..k])|;
    assert TakeBytes(cs, n) == cs[..k] + TakeBytes(cs[k..], m);
    if m <= |cs[k]| {
      assert TakeBytes(cs[k..], m) == [cs[k][..m]];
      assert m == |cs[k]| ==> cs[k][..m] == cs[k];
    } else {
      assert cs[k..][1..] == [];
      assert TakeBytes(cs[k..], m) == [cs[k]];
    }
  }

  lemma TakeCount(cs: seq<Chunk>, n: nat, k: nat, cnt: int)
    requires k < |cs| && cnt == n - |Flatten(cs[..k + 1])| && (cnt > 0 ==> k + 1 == |cs|)
    ensures Min(n, |Flatten(cs)|) == if cnt > 0 then n - cnt else n
  {
    FlattenConcat(cs[..k + 1], cs[k + 1..]);
    assert cs[..k + 1] + cs[k + 1..] == cs;
    assert k + 1 == |cs| ==> cs[..k + 1] == cs;
  }
}
