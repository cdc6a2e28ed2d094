/**
 The IMP output machine: impstrat and imp_odone of ncpkernel/impio.c, imp_output of
 ncpkernel/imp11a.c, and the message building of sndnetbytes in ncpkernel/kerbuf.c.

 A message queued for output carries its I/O header (h/buf.h) in the first BUFSIZE data bytes of
 its own first buffer, so the header is gone once that buffer is freed: `hdr` maps the first
 buffer's address to the header, and freeing the message takes it out.
 */
module ImpOutput {
  import opened NetChunks
  import opened NetRings
  import opened NetInv
  import NP = NetPool

  const BUFSIZE: nat := 20

  /** What one transfer puts on the line. */
  datatype Frame = Frame(bytes: seq<Byte>, endmsg: bool)

  /** h/buf.h, as sndnetbytes fills it in; `start` and `off` are b_addr, `more` is b_blkno. */
  datatype Header = Header(forw: Addr, avForw: Addr, start: Addr, off: nat, wcount: nat, dev: Addr, more: bool)

  datatype Out = Out(actf: Addr, actl: Addr, active: nat, hdr: map<Addr, Header>,
                     queue: seq<Addr>, pos: nat, sent: seq<Frame>, promised: seq<Frame>)

  /** The interface counts words, rounding up. */
  function Even(n: nat): nat { 2 * ((n + 1) / 2) }

  ghost function First(n: Net, h: Addr): Addr {
    if h in n.parts.msgs && n.parts.msgs[h] != [] then n.parts.msgs[h][0] else 0
  }

  ghost function Line(mem: Memory, a: Addr, off: nat, wcount: nat): seq<Byte> {
    if a in mem && off + Even(wcount) <= |mem[a].data| then mem[a].data[off..off + Even(wcount)] else []
  }

  /** What sending buffer `i` of a message means: all its data, past the header in the first. */
  ghost function FrameAt(mem: Memory, s: seq<Addr>, i: nat): Frame
    requires i < |s|
  {
    var off := if i == 0 then BUFSIZE else 0;
    var len := if s[i] in mem then mem[s[i]].len else 0;
    Frame(Line(mem, s[i], off, if off <= len then len - off else 0), i + 1 == |s|)
  }

  /** Every buffer once, in ring order, the end of message on the last. */
  ghost function Frames(mem: Memory, s: seq<Addr>): (fs: seq<Frame>)
    ensures |fs| == |s|
  {
    seq(|s|, i requires 0 <= i < |s| => FrameAt(mem, s, i))
  }

  ghost function FramesOf(n: Net, h: Addr): seq<Frame> {
    if h in n.parts.msgs then Frames(n.mem, n.parts.msgs[h]) else []
  }

  ghost function AllFrames(n: Net, q: seq<Addr>): seq<Frame> {
    if q == [] then [] else FramesOf(n, q[0]) + AllFrames(n, q[1..])
  }

  /** A message ready to go: its header describes its first buffer and leads to its second. */
  ghost predicate Fit(n: Net, hdr: map<Addr, Header>, h: Addr) {
    var f := First(n, h);
    && h in n.parts.msgs && n.parts.msgs[h] != [] && f in hdr && f in n.mem && n.mem[f].len >= BUFSIZE
    && hdr[f].dev == h && hdr[f].start == f && hdr[f].off == BUFSIZE
    && Even(hdr[f].wcount) == Even(n.mem[f].len - BUFSIZE)
    && hdr[f].more == (|n.parts.msgs[h]| > 1)
    && (|n.parts.msgs[h]| > 1 ==> hdr[f].avForw == n.parts.msgs[h][1])
  }

  /** The message being sent, `pos` of its buffers already started. */
  ghost predicate Going(n: Net, hdr: map<Addr, Header>, h: Addr, pos: nat) {
    var f := First(n, h);
    && h in n.parts.msgs && 1 <= pos <= |n.parts.msgs[h]| && f in hdr && hdr[f].dev == h
    && hdr[f].more == (pos < |n.parts.msgs[h]|)
    && (pos < |n.parts.msgs[h]| ==> hdr[f].avForw == n.parts.msgs[h][pos])
  }

  ghost predicate Chained(n: Net, hdr: map<Addr, Header>, q: seq<Addr>) {
    forall j {:trigger q[j]} :: 0 <= j < |q| ==>
      First(n, q[j]) in hdr && hdr[First(n, q[j])].forw == (if j + 1 < |q| then First(n, q[j + 1]) else 0)
  }

  /** FIFO: what is on the line, then what the queue still holds, is all that was ever queued. */
  ghost predicate OutInv(n: Net, o: Out) {
    && Distinct(o.queue)
    && Chained(n, o.hdr, o.queue)
    && (forall j {:trigger o.queue[j]} :: 1 <= j < |o.queue| ==> Fit(n, o.hdr, o.queue[j]))
    && (o.queue != [] ==> Going(n, o.hdr, o.queue[0], o.pos))
    && o.actf == (if o.queue == [] then 0 else First(n, o.queue[0]))
    && o.actl == (if o.queue == [] then 0 else First(n, o.queue[|o.queue| - 1]))
    && (o.active == 0 <==> o.queue == [])
    && o.promised == o.sent + Left(n, o)
  }

  ghost function Left(n: Net, o: Out): seq<Frame> {
    if o.queue == [] then []
    else Tail(FramesOf(n, o.queue[0]), o.pos) + AllFrames(n, o.queue[1..])
  }

  function Tail<T>(s: seq<T>, k: nat): seq<T> {
    if k <= |s| then s[k..] else []
  }

  lemma FirstsDiffer(n: Net, g: Addr, h: Addr)
    requires Inv(n) && g in n.parts.msgs && h in n.parts.msgs && g != h
    ensures First(n, g) != First(n, h)
    ensures First(n, g) != 0
  {
    hide Inv;
    FirstChunk(n, g);
    FirstChunk(n, h);
    OneRing(n, g, h);
    MsgFacts(n, g);
  }

  /** Pool work on other messages does not disturb the output queue. */
  lemma OutUndisturbed(n: Net, n': Net, o: Out, e: set<Addr>)
    requires OutInv(n, o) && OthersKept(n.mem, n.parts, n'.mem, n'.parts, e)
    requires forall h :: h in o.queue ==> h !in e
    ensures OutInv(n', o)
  {
    hide Distinct, Fit, Going, Chained, OthersKept, FramesOf, AllFrames, First;
    var q := o.queue;
    forall j | 0 <= j < |q| ensures q[j] in q && Stays(n, n', o.hdr, q[j], o.pos) {
      InQueue(n, o, j);
      StaysLemma(n, n', o.hdr, q[j], o.pos, e);
    }
    AllFramesStay(n, n', q);
    ChainedStays(n, n', o, e);
  }

  ghost predicate Stays(n: Net, n': Net, hdr: map<Addr, Header>, h: Addr, pos: nat) {
    && First(n', h) == First(n, h) && FramesOf(n', h) == FramesOf(n, h)
    && (Fit(n, hdr, h) ==> Fit(n', hdr, h)) && (Going(n, hdr, h, pos) ==> Going(n', hdr, h, pos))
  }

  lemma InQueue(n: Net, o: Out, j: nat)
    requires OutInv(n, o) && j < |o.queue|
    ensures o.queue[j] in o.queue && o.queue[j] in n.parts.msgs
  {
  }

  lemma StaysLemma(n: Net, n': Net, hdr: map<Addr, Header>, h: Addr, pos: nat, e: set<Addr>)
    requires OthersKept(n.mem, n.parts, n'.mem, n'.parts, e) && h in n.parts.msgs && h !in e
    ensures Stays(n, n', hdr, h, pos)
  {
    hide OthersKept, FrameAt;
    var s := n.parts.msgs[h];
    OthersMsg(n, n', e, h);
    forall i | 0 <= i < |s| ensures FrameAt(n'.mem, s, i) == FrameAt(n.mem, s, i) {
      FrameSame(n.mem, n'.mem, s, i);
    }
    assert s != [] ==> s[0] in s;
  }

  lemma FrameSame(mem: Memory, mem': Memory, s: seq<Addr>, i: nat)
    requires i < |s| && SameBufs(mem, mem', s)
    ensures FrameAt(mem', s, i) == FrameAt(mem, s, i)
  {
    assert s[i] in s;
  }

  lemma ChainedStays(n: Net, n': Net, o: Out, e: set<Addr>)
    requires OutInv(n, o) && forall j :: 0 <= j < |o.queue| ==> First(n', o.queue[j]) == First(n, o.queue[j])
    ensures Chained(n', o.hdr, o.queue)
  {
    hide First, Fit, Going, Left;
  }

  lemma {:induction false} AllFramesStay(n: Net, n': Net, q: seq<Addr>)
    requires forall j {:trigger q[j]} :: 0 <= j < |q| ==> FramesOf(n', q[j]) == FramesOf(n, q[j])
    ensures AllFrames(n', q) == AllFrames(n, q)
    ensures q != [] ==> AllFrames(n', q[1..]) == AllFrames(n, q[1..])
  {
    hide FramesOf;
    if q != [] {
      AllFramesStay(n, n', q[1..]);
    }
  }

  // ------------------------------------------------------------------ the steps

  lemma {:induction false} AllFramesConcat(n: Net, q: seq<Addr>, r: seq<Addr>)
    ensures AllFrames(n, q + r) == AllFrames(n, q) + AllFrames(n, r)
  {
    hide FramesOf;
    if q == [] {
      assert q + r == r;
    } else {
      assert (q + r)[1..] == q[1..] + r;
      AllFramesConcat(n, q[1..], r);
    }
  }

  lemma AllFramesOne(n: Net, h: Addr)
    ensures AllFrames(n, [h]) == FramesOf(n, h)
  {
    assert [h][1..] == [];
  }

  /** impstrat's linking: the header goes last in the chain. */
  function Linked2(hdr: map<Addr, Header>, actl: Addr, bp: Addr): map<Addr, Header>
    requires bp in hdr
  {
    var h1 := hdr[bp := hdr[bp].(forw := 0)];
    if actl != 0 && actl in h1 then h1[actl := h1[actl].(forw := bp)] else h1
  }

  ghost function Queued(n: Net, o: Out, h: Addr): Out
    requires First(n, h) in o.hdr
  {
    o.(hdr := Linked2(o.hdr, o.actl, First(n, h)), actl := First(n, h), queue := o.queue + [h],
       promised := o.promised + FramesOf(n, h))
  }

  /** impstrat on a busy line. */
  lemma QueueStep(n: Net, o: Out, h: Addr)
    requires Inv(n) && OutInv(n, o) && o.queue != [] && h !in o.queue && Fit(n, o.hdr, h) && First(n, h) in o.hdr
    ensures OutInv(n, Queued(n, o, h))
  {
    hide Inv, Distinct, Fit, Going, FramesOf, AllFrames, First, Chained;
    var o' := Queued(n, o, h);
    GoingFacts(n, o.hdr, o.queue[0], o.pos);
    DistinctOne(o.queue, h);
    QueueChained(n, o, h);
    QueueFit(n, o, h);
    GoingKeeps(n, o.hdr, o'.hdr, o.queue[0], o.pos);
    hide Left;
    LeftQueued(n, o, h);
  }

  lemma LeftQueued(n: Net, o: Out, h: Addr)
    requires o.queue != [] && o.promised == o.sent + Left(n, o) && First(n, h) in o.hdr
    ensures o.promised + FramesOf(n, h) == o.sent + Left(n, Queued(n, o, h))
  {
    hide FramesOf, AllFrames, First, Tail;
    AllFramesConcat(n, o.queue[1..], [h]);
    AllFramesOne(n, h);
    assert (o.queue + [h])[1..] == o.queue[1..] + [h];
    var t, a, f := Tail(FramesOf(n, o.queue[0]), o.pos), AllFrames(n, o.queue[1..]), FramesOf(n, h);
    assert (t + a) + f == t + (a + f);
    assert (o.sent + (t + a)) + f == o.sent + ((t + a) + f);
  }

  lemma QueueFit(n: Net, o: Out, h: Addr)
    requires Inv(n) && OutInv(n, o) && o.queue != [] && h !in o.queue && Fit(n, o.hdr, h) && First(n, h) in o.hdr
    ensures forall j {:trigger (o.queue + [h])[j]} :: 1 <= j <= |o.queue| ==>
        Fit(n, Queued(n, o, h).hdr, (o.queue + [h])[j])
  {
    hide Inv, Distinct, Fit, Going, FramesOf, AllFrames, First, Chained;
    var o' := Queued(n, o, h);
    forall j | 1 <= j < |o'.queue| ensures Fit(n, o'.hdr, o'.queue[j]) {
      if j < |o.queue| {
        assert o.queue[j] in o.queue && Fit(n, o.hdr, o.queue[j]);
        FitFacts(n, o.hdr, o.queue[j]);
        FitKeeps(n, o.hdr, o'.hdr, o.queue[j]);
      } else {
        FitKeeps(n, o.hdr, o'.hdr, h);
      }
    }
  }

  lemma DistinctOne(s: seq<Addr>, a: Addr)
    requires Distinct(s) && a !in s
    ensures Distinct(s + [a])
  {
  }

  lemma FitFacts(n: Net, hdr: map<Addr, Header>, h: Addr)
    requires Fit(n, hdr, h)
    ensures First(n, h) in hdr && h in n.parts.msgs
  {
  }

  lemma GoingFacts(n: Net, hdr: map<Addr, Header>, h: Addr, pos: nat)
    requires Going(n, hdr, h, pos)
    ensures First(n, h) in hdr && h in n.parts.msgs && hdr[First(n, h)].dev == h
    ensures hdr[First(n, h)].more == (pos < |n.parts.msgs[h]|) && 1 <= pos <= |n.parts.msgs[h]|
    ensures pos < |n.parts.msgs[h]| ==> hdr[First(n, h)].avForw == n.parts.msgs[h][pos]
  {
  }

  lemma FitKeeps(n: Net, hdr: map<Addr, Header>, hdr': map<Addr, Header>, h: Addr)
    requires Fit(n, hdr, h)
    requires First(n, h) in hdr' && hdr'[First(n, h)] == hdr[First(n, h)].(forw := hdr'[First(n, h)].forw)
    ensures Fit(n, hdr', h)
  {
    hide First;
  }

  lemma GoingKeeps(n: Net, hdr: map<Addr, Header>, hdr': map<Addr, Header>, h: Addr, pos: nat)
    requires Going(n, hdr, h, pos)
    requires First(n, h) in hdr' && hdr'[First(n, h)] == hdr[First(n, h)].(forw := hdr'[First(n, h)].forw)
    ensures Going(n, hdr', h, pos)
  {
    hide First;
  }

  lemma QueueChained(n: Net, o: Out, h: Addr)
    requires Inv(n) && OutInv(n, o) && o.queue != [] && h !in o.queue && Fit(n, o.hdr, h)
    requires First(n, h) in o.hdr
    ensures Chained(n, Queued(n, o, h).hdr, o.queue + [h])
  {
    hide Inv, FramesOf, AllFrames, Going, First;
    var q := o.queue;
    var f := First(n, h);
    forall j {:trigger q[j]} | 0 <= j < |q|
      ensures First(n, q[j]) != f && First(n, q[j]) != 0
      ensures j + 1 < |q| ==> First(n, q[j]) != First(n, q[|q| - 1])
    {
      InQueue(n, o, j);
      InQueue(n, o, |q| - 1);
      FitFacts(n, o.hdr, h);
      FirstsDiffer(n, q[j], h);
      if j + 1 < |q| {
        FirstsDiffer(n, q[j], q[|q| - 1]);
      }
    }
    hide Fit, Distinct;
    var t := q + [h];
    forall j {:trigger t[j]} | 0 <= j < |t|
      ensures First(n, t[j]) in Queued(n, o, h).hdr
      ensures Queued(n, o, h).hdr[First(n, t[j])].forw == (if j + 1 < |t| then First(n, t[j + 1]) else 0)
    {
      if j < |q| {
        assert t[j] == q[j];
      }
    }
  }

  /** imp_odone in the middle of a message: the next buffer's address and count go into the header. */
  ghost function Advanced(n: Net, o: Out): Out
    requires o.actf in o.hdr && o.hdr[o.actf].avForw in n.mem && o.queue != []
  {
    var h := o.hdr[o.actf];
    var b := h.avForw;
    var h' := h.(start := b, off := 0, wcount := n.mem[b].len, more := b != h.dev, avForw := n.mem[b].qlink);
    o.(hdr := o.hdr[o.actf := h'], pos := o.pos + 1, active := o.active + 1,
       sent := o.sent + [Frame(Line(n.mem, b, 0, n.mem[b].len), b == h.dev)])
  }

  lemma AdvanceStep(n: Net, o: Out)
    requires Inv(n) && OutInv(n, o) && o.queue != [] && o.actf in o.hdr && o.hdr[o.actf].more
    requires o.hdr[o.actf].avForw in n.mem
    ensures OutInv(n, Advanced(n, o))
  {
    hide Inv, Distinct, Fit, Chained, AllFrames, First, FrameAt, Going, FramesOf, Left, Line;
    var o' := Advanced(n, o);
    var h := o.queue[0];
    GoingFacts(n, o.hdr, h, o.pos);
    AdvanceHead(n, o);
    AdvanceOthers(n, o);
    ChainKeeps(n, o.hdr, o'.hdr, o.queue);
    LeftAdvanced(n, o);
  }

  lemma LeftAdvanced(n: Net, o: Out)
    requires o.queue != [] && o.actf in o.hdr && o.hdr[o.actf].avForw in n.mem
    requires Tail(FramesOf(n, o.queue[0]), o.pos)
      == [Advanced(n, o).sent[|o.sent|]] + Tail(FramesOf(n, o.queue[0]), o.pos + 1)
    ensures Advanced(n, o).sent + Left(n, Advanced(n, o)) == o.sent + Left(n, o)
  {
    hide FramesOf, AllFrames, Tail;
    FrameAssoc2(o.sent, Advanced(n, o).sent[|o.sent|], Tail(FramesOf(n, o.queue[0]), o.pos + 1),
                AllFrames(n, o.queue[1..]));
  }

  lemma FrameAssoc2(s: seq<Frame>, f: Frame, t: seq<Frame>, rest: seq<Frame>)
    ensures s + (([f] + t) + rest) == (s + [f]) + (t + rest)
  {
  }

  lemma AdvanceHead(n: Net, o: Out)
    requires Inv(n) && OutInv(n, o) && o.queue != [] && o.actf in o.hdr && o.hdr[o.actf].more
    requires o.hdr[o.actf].avForw in n.mem
    ensures Going(n, Advanced(n, o).hdr, o.queue[0], o.pos + 1)
    ensures Tail(FramesOf(n, o.queue[0]), o.pos)
      == [Advanced(n, o).sent[|o.sent|]] + Tail(FramesOf(n, o.queue[0]), o.pos + 1)
  {
    hide Inv, Distinct, Fit, Chained, AllFrames, First, FrameAt, Going, FramesOf;
    var o' := Advanced(n, o);
    var h := o.queue[0];
    GoingFacts(n, o.hdr, h, o.pos);
    var s := n.parts.msgs[h];
    ChunkOf(n, h, o.pos);
    MsgFacts(n, h);
    LastOnly(s, o.pos);
    GoingOn(n, o.hdr, o'.hdr, h, o.pos);
    AdvanceFrame(n, o);
  }

  lemma AdvanceFrame(n: Net, o: Out)
    requires OutInv(n, o) && o.queue != [] && o.actf in o.hdr && o.hdr[o.actf].more && o.hdr[o.actf].avForw in n.mem
    requires o.queue[0] in n.parts.msgs && Distinct(n.parts.msgs[o.queue[0]])
    requires Handle(n.parts.msgs[o.queue[0]]) == o.queue[0]
    ensures Tail(FramesOf(n, o.queue[0]), o.pos)
      == [Advanced(n, o).sent[|o.sent|]] + Tail(FramesOf(n, o.queue[0]), o.pos + 1)
  {
    hide Distinct, Fit, Chained, AllFrames, First, Going, FramesOf, Line, Left;
    var h := o.queue[0];
    GoingFacts(n, o.hdr, h, o.pos);
    LastOnly(n.parts.msgs[h], o.pos);
    NextFrame(n, h, o.pos);
  }

  lemma AdvanceOthers(n: Net, o: Out)
    requires Inv(n) && OutInv(n, o) && o.queue != [] && o.actf in o.hdr && o.hdr[o.actf].avForw in n.mem
    ensures forall j {:trigger o.queue[j]} :: 1 <= j < |o.queue| ==> Fit(n, Advanced(n, o).hdr, o.queue[j])
  {
    hide Inv, Distinct, Fit, Chained, AllFrames, First, FrameAt, Going, FramesOf;
    var o' := Advanced(n, o);
    forall j | 1 <= j < |o.queue| ensures Fit(n, o'.hdr, o.queue[j]) {
      InQueue(n, o, 0);
      InQueue(n, o, j);
      assert Fit(n, o.hdr, o.queue[j]);
      QueueDistinct(n, o, j);
      FitFacts(n, o.hdr, o.queue[j]);
      FirstsDiffer(n, o.queue[0], o.queue[j]);
      FitKeeps(n, o.hdr, o'.hdr, o.queue[j]);
    }
  }

  lemma QueueDistinct(n: Net, o: Out, j: nat)
    requires OutInv(n, o) && 1 <= j < |o.queue|
    ensures o.queue[j] != o.queue[0]
  {
    hide Fit, Going, Chained, FramesOf, AllFrames, First;
  }

  lemma LastOnly(s: seq<Addr>, k: nat)
    requires Distinct(s) && k < |s|
    ensures s[k] == Handle(s) <==> k + 1 == |s|
  {
  }

  lemma GoingOn(n: Net, hdr: map<Addr, Header>, hdr': map<Addr, Header>, h: Addr, pos: nat)
    requires Going(n, hdr, h, pos) && pos < |n.parts.msgs[h]|
    requires First(n, h) in hdr' && hdr'[First(n, h)].dev == h
    requires hdr'[First(n, h)].more == (pos + 1 < |n.parts.msgs[h]|)
    requires pos + 1 < |n.parts.msgs[h]| ==> hdr'[First(n, h)].avForw == n.parts.msgs[h][pos + 1]
    ensures Going(n, hdr', h, pos + 1)
  {
    hide First;
  }

  lemma NextFrame(n: Net, h: Addr, k: nat)
    requires h in n.parts.msgs && 1 <= k < |n.parts.msgs[h]|
    ensures var s := n.parts.msgs[h];
      var len := if s[k] in n.mem then n.mem[s[k]].len else 0;
      Tail(FramesOf(n, h), k) == [Frame(Line(n.mem, s[k], 0, len), k + 1 == |s|)] + Tail(FramesOf(n, h), k + 1)
  {
    var fs := FramesOf(n, h);
    assert fs[k..] == [fs[k]] + fs[k + 1..];
  }

  lemma ChainKeeps(n: Net, hdr: map<Addr, Header>, hdr': map<Addr, Header>, q: seq<Addr>)
    requires Chained(n, hdr, q)
    requires forall f :: f in hdr ==> f in hdr' && hdr'[f].forw == hdr[f].forw
    ensures Chained(n, hdr', q)
  {
    hide First;
  }

  /** The first buffer of a message that is fit to go, put on the line. */
  lemma FirstFrame(n: Net, hdr: map<Addr, Header>, h: Addr)
    requires Fit(n, hdr, h)
    ensures var f := First(n, h);
      FramesOf(n, h)
      == [Frame(Line(n.mem, hdr[f].start, hdr[f].off, hdr[f].wcount), !hdr[f].more)] + Tail(FramesOf(n, h), 1)
    ensures Going(n, hdr, h, 1)
  {
    var fs := FramesOf(n, h);
    assert fs == [fs[0]] + fs[1..];
  }

  /** imp_odone at the end of a message: it leaves the queue, its buffers go, the next one starts. */
  ghost function Finished(n: Net, o: Out): Out
    requires o.queue != [] && o.actf in o.hdr
    requires |o.queue| > 1 ==> o.hdr[o.actf].forw in o.hdr && o.hdr[o.actf].forw != o.actf
  {
    var next := o.hdr[o.actf].forw;
    var hdr' := o.hdr - {o.actf};
    if |o.queue| == 1 then
      o.(actf := 0, actl := 0, active := 0, hdr := hdr', queue := [], pos := 0)
    else
      o.(actf := next, active := o.active + 1, hdr := hdr', queue := o.queue[1..], pos := 1,
         sent := o.sent + [Frame(Line(n.mem, hdr'[next].start, hdr'[next].off, hdr'[next].wcount), !hdr'[next].more)])
  }

  lemma FinishStep(n: Net, o: Out)
    requires Inv(n) && OutInv(n, o) && o.queue != [] && o.actf in o.hdr && !o.hdr[o.actf].more
    ensures |o.queue| == 1 <==> o.hdr[o.actf].forw == 0
    ensures |o.queue| > 1 ==> o.hdr[o.actf].forw in o.hdr && o.hdr[o.actf].forw != o.actf
    ensures OutInv(n, Finished(n, o))
  {
    hide Inv, Distinct, Fit, Chained, FramesOf, First, Going, AllFrames;
    var h := o.queue[0];
    GoingFacts(n, o.hdr, h, o.pos);
    NoneLeft(n, h, o.pos);
    HeadChained(n, o);
    AllFramesNil(n, o.queue[1..]);
    if |o.queue| > 1 {
      FinishRest(n, o);
    } else {
      assert o.queue[1..] == [];
      NoQueue(n, Finished(n, o).hdr);
    }
  }

  lemma NoQueue(n: Net, hdr: map<Addr, Header>)
    ensures Chained(n, hdr, []) && Distinct([])
  {
  }

  lemma NoneLeft(n: Net, h: Addr, pos: nat)
    requires h in n.parts.msgs && pos == |n.parts.msgs[h]|
    ensures Tail(FramesOf(n, h), pos) == []
  {
  }

  lemma AllFramesNil(n: Net, q: seq<Addr>)
    ensures q == [] ==> AllFrames(n, q) == []
    ensures q != [] ==> AllFrames(n, q) == FramesOf(n, q[0]) + AllFrames(n, q[1..])
  {
  }

  lemma HeadChained(n: Net, o: Out)
    requires Inv(n) && OutInv(n, o) && o.queue != []
    ensures o.actf in o.hdr && o.hdr[o.actf].forw == (if |o.queue| > 1 then First(n, o.queue[1]) else 0)
    ensures |o.queue| > 1 ==>
        First(n, o.queue[1]) in o.hdr && First(n, o.queue[1]) != o.actf && First(n, o.queue[1]) != 0
  {
    hide Inv, Distinct, Fit, FramesOf, First, Going, AllFrames;
    InQueue(n, o, 0);
    if |o.queue| > 1 {
      InQueue(n, o, 1);
      QueueDistinct(n, o, 1);
      FirstsDiffer(n, o.queue[1], o.queue[0]);
    }
  }

  lemma FinishRest(n: Net, o: Out)
    requires Inv(n) && OutInv(n, o) && |o.queue| > 1 && o.actf in o.hdr && !o.hdr[o.actf].more
    requires o.hdr[o.actf].forw == First(n, o.queue[1]) && First(n, o.queue[1]) in o.hdr
    requires First(n, o.queue[1]) != o.actf
    requires Tail(FramesOf(n, o.queue[0]), o.pos) == []
    requires AllFrames(n, o.queue[1..]) == FramesOf(n, o.queue[1..][0]) + AllFrames(n, o.queue[1..][1..])
    ensures OutInv(n, Finished(n, o))
  {
    hide Inv, Distinct, Fit, FramesOf, First, Going, AllFrames, Chained;
    var o' := Finished(n, o);
    var q := o.queue;
    forall j | 1 <= j < |q| ensures Fit(n, o'.hdr, q[j]) && First(n, q[j]) != o.actf && First(n, q[j]) in o.hdr {
      InQueue(n, o, 0);
      InQueue(n, o, j);
      QueueDistinct(n, o, j);
      assert Fit(n, o.hdr, q[j]);
      FitFacts(n, o.hdr, q[j]);
      FirstsDiffer(n, q[j], q[0]);
      FitKeeps(n, o.hdr, o'.hdr, q[j]);
    }
    DistinctTail(q);
    ChainTail(n, o.hdr, o'.hdr, q);
    FirstFrame(n, o'.hdr, q[1]);
    FrameAssoc(o.sent, FramesOf(n, q[1]), AllFrames(n, q[1..][1..]));
  }

  lemma FrameAssoc(s: seq<Frame>, fs: seq<Frame>, rest: seq<Frame>)
    requires fs != []
    ensures s + (fs + rest) == (s + [fs[0]]) + (Tail(fs, 1) + rest)
  {
  }

  lemma DistinctTail(s: seq<Addr>)
    requires Distinct(s) && s != []
    ensures Distinct(s[1..])
  {
  }

  lemma ChainTail(n: Net, hdr: map<Addr, Header>, hdr': map<Addr, Header>, q: seq<Addr>)
    requires Chained(n, hdr, q) && q != []
    requires forall j :: 1 <= j < |q| ==>
        First(n, q[j]) in hdr' && (First(n, q[j]) in hdr ==> hdr'[First(n, q[j])] == hdr[First(n, q[j])])
    ensures Chained(n, hdr', q[1..])
  {
    hide First;
    var t := q[1..];
    forall j {:trigger t[j]} | 0 <= j < |t|
      ensures First(n, t[j]) in hdr'
      ensures hdr'[First(n, t[j])].forw == (if j + 1 < |t| then First(n, t[j + 1]) else 0)
    {
      assert t[j] == q[j + 1];
    }
  }

  /** impstrat on an idle line: the message starts at once. */
  ghost function Started(n: Net, o: Out, h: Addr): Out
    requires First(n, h) in o.hdr
  {
    var f := First(n, h);
    var hd := o.hdr[f].(forw := 0);
    o.(actf := f, actl := f, active := o.active + 1, hdr := o.hdr[f := hd], queue := [h], pos := 1,
       promised := o.promised + FramesOf(n, h),
       sent := o.sent + [Frame(Line(n.mem, hd.start, hd.off, hd.wcount), !hd.more)])
  }

  lemma StartStep(n: Net, o: Out, h: Addr)
    requires Inv(n) && OutInv(n, o) && o.queue == [] && Fit(n, o.hdr, h) && First(n, h) in o.hdr
    ensures OutInv(n, Started(n, o, h))
  {
    hide Inv, Distinct, Fit, FramesOf, First, Going, Chained;
    var o' := Started(n, o, h);
    FitKeeps(n, o.hdr, o'.hdr, h);
    FirstFrame(n, o'.hdr, h);
    OneQueued(n, o'.hdr, h);
    FrameAssoc(o.sent, FramesOf(n, h), []);
    assert FramesOf(n, h) + [] == FramesOf(n, h);
    assert [h][1..] == [];
    AllFramesNil(n, []);
    assert Tail(FramesOf(n, h), 1) + [] == Tail(FramesOf(n, h), 1);
  }

  lemma OneQueued(n: Net, hdr: map<Addr, Header>, h: Addr)
    requires First(n, h) in hdr && hdr[First(n, h)].forw == 0
    ensures Chained(n, hdr, [h]) && Distinct([h])
  {
  }

  /** When the line falls idle everything ever queued has been sent, in order. */
  lemma IdleMeansAllSent(n: Net, o: Out)
    requires OutInv(n, o) && o.active == 0
    ensures o.sent == o.promised
  {
  }

  lemma NothingQueued(n: Net, o: Out)
    requires o.queue == [] && o.actf == o.actl == o.active == 0 && o.promised == o.sent == []
    ensures OutInv(n, o)
  {
  }

  class ImpOut {
    const pool: NP.NetPool
    var actf: Addr                // impotab.d_actf
    var actl: Addr                // impotab.d_actl
    var active: nat               // impotab.d_active
    var hdr: map<Addr, Header>
    ghost var queue: seq<Addr>    // handles of the messages queued, the one being sent first
    ghost var pos: nat            // its buffers started so far
    ghost var sent: seq<Frame>    // all that has gone to the interface
    ghost var promised: seq<Frame> // all that was ever queued

    ghost function Now(): Out
      reads this
    {
      Out(actf, actl, active, hdr, queue, pos, sent, promised)
    }

    ghost predicate Valid()
      reads this, pool
    {
      pool.Valid() && OutInv(pool.Now(), Now())
    }

    constructor (p: NP.NetPool)
      requires p.Valid()
      ensures Valid() && pool == p && queue == [] && sent == promised == [] && active == 0
    {
      pool, actf, actl, active, hdr := p, 0, 0, 0, map[];
      queue, pos, sent, promised := [], 0, [], [];
      new;
      hide Inv, OutInv;
      NothingQueued(p.Now(), Now());
    }

    // imp11a.c imp_output
    method Output()
      requires actf in hdr
      modifies this`active, this`sent
      ensures active == old(active) + 1
      ensures sent == old(sent)
                      + [Frame(Line(pool.mem, hdr[actf].start, hdr[actf].off, hdr[actf].wcount), !hdr[actf].more)]
    {
      active := active + 1;
      sent := sent + [Frame(Line(pool.mem, hdr[actf].start, hdr[actf].off, hdr[actf].wcount), !hdr[actf].more)];
    }

    // impio.c impstrat
    method Strat(bp: Addr, ghost h: Addr)
      requires Valid() && Fit(pool.Now(), hdr, h) && bp == First(pool.Now(), h) && h !in queue
      modifies this
      ensures Valid() && queue == old(queue) + [h]
      ensures promised == old(promised) + FramesOf(pool.Now(), h)
      ensures active != 0 && |sent| == |old(sent)| + (if old(active) == 0 then 1 else 0)
      ensures sent[..|old(sent)|] == old(sent)
    {
      hide OutInv, Fit, FramesOf, First, Inv;
      ghost var n := pool.Now();
      ghost var o := Now();
      FitFacts(n, hdr, h);
      ActiveFacts(n, o);
      hdr := hdr[bp := hdr[bp].(forw := 0)];
      if actf == 0 {
        actf := bp;
      } else {
        hdr := hdr[actl := hdr[actl].(forw := bp)];
      }
      actl := bp;
      queue := queue + [h];
      promised := promised + FramesOf(n, h);
      if active == 0 {
        pos := 1;
        Output();
        StartStep(n, o, h);
        assert Now() == Started(n, o, h);
      } else {
        QueueStep(n, o, h);
        assert Now() == Queued(n, o, h);
      }
    }

    // impio.c imp_odone, without a device error
    method ODone()
      requires Valid() && active != 0
      modifies this, pool
      ensures Valid() && promised == old(promised) && |sent| >= |old(sent)| && sent[..|old(sent)|] == old(sent)
      ensures old(queue) != [] && queue == (if old(hdr[actf].more) then old(queue) else old(queue)[1..])
      ensures !old(hdr[actf].more) ==> pool.parts.msgs == old(pool.parts).msgs - {old(queue)[0]}
      ensures OthersKept(old(pool.mem), old(pool.parts), pool.mem, pool.parts, {old(queue)[0]})
      ensures old(hdr[actf].more) ==> pool.Now() == old(pool.Now())
      ensures |sent| == |old(sent)| + (if queue == [] then 0 else 1) && (active != 0 <==> queue != [])
    {
      hide OutInv, Inv, First, FramesOf, OthersKept;
      ActiveFacts(pool.Now(), Now());
      if hdr[actf].more {
        SendMore();
        KeptExcept(pool.Now(), {old(queue)[0]});
      } else {
        SendNext();
      }
    }

    /** Inside a message: the next buffer's address and count go into the header, and that is sent. */
    method SendMore()
      requires Valid() && active != 0 && actf in hdr && hdr[actf].more
      modifies this`hdr, this`active, this`sent, this`pos
      ensures Valid() && old(queue) != [] && active != 0
      ensures |sent| == |old(sent)| + 1 && sent[..|old(sent)|] == old(sent)
    {
      hide OutInv, Inv, First, FramesOf;
      ghost var n := pool.Now();
      ghost var o := Now();
      ActiveFacts(n, o);
      HeadFacts(n, o);
      var buffer := actf;
      var msg := hdr[buffer].avForw;
      hdr := hdr[buffer := hdr[buffer].(start := msg, off := 0)];
      hdr := hdr[buffer := hdr[buffer].(wcount := pool.mem[msg].len)];
      hdr := hdr[buffer := hdr[buffer].(more := msg != hdr[buffer].dev)];
      hdr := hdr[buffer := hdr[buffer].(avForw := pool.mem[msg].qlink)];
      Output();
      pos := pos + 1;
      AdvanceStep(n, o);
      assert Now() == Advanced(n, o);
    }

    /** A message sent: it is freed, and the next one, if any, is started. */
    method SendNext()
      requires Valid() && active != 0 && actf in hdr && !hdr[actf].more
      modifies this, pool
      ensures Valid() && promised == old(promised)
      ensures old(queue) != [] && queue == old(queue)[1..]
      ensures |sent| == |old(sent)| + (if queue == [] then 0 else 1) && sent[..|old(sent)|] == old(sent)
      ensures active != 0 <==> queue != []
      ensures OthersKept(old(pool.mem), old(pool.parts), pool.mem, pool.parts, {old(queue)[0]})
      ensures pool.parts.msgs == old(pool.parts).msgs - {old(queue)[0]}
    {
      hide OutInv, Inv, First, FramesOf;
      ghost var n := pool.Now();
      ghost var o := Now();
      ActiveFacts(n, o);
      var buffer := actf;
      HeadFacts(n, o);
      FinishStep(n, o);
      var msg := hdr[buffer].dev;
      actf := hdr[buffer].forw;
      hdr := hdr - {buffer};
      ghost var h := queue[0];
      if |queue| == 1 {
        queue, pos := [], 0;
      } else {
        queue, pos := queue[1..], 1;
      }
      pool.FreeMsg(msg);
      if actf == 0 {
        actl := 0;
        active := 0;
        assert Now() == Finished(n, o);
      } else {
        NextStays(n, o, pool.Now(), {h}, hdr);
        Output();
        assert Now() == Finished(n, o);
      }
      OutUndisturbed(n, pool.Now(), Now(), {h});
    }

    // kerbuf.c sndnetbytes: the first buffer, with room for the I/O header and the leader in it
    method Begin(header: seq<Byte>, leader: seq<Byte>, ucnt: nat) returns (firstbuf: Addr, wcount: nat)
      requires Valid() && |header| == BUFSIZE && |header + leader| <= NET_B_SIZE
      modifies pool
      ensures Valid() && OthersKept(old(pool.mem), old(pool.parts), pool.mem, pool.parts, {})
      ensures firstbuf != 0 <==> CanGet(old(pool.Now()))
      ensures firstbuf != 0 ==> firstbuf in pool.parts.msgs && firstbuf !in old(pool.parts).msgs
      ensures firstbuf != 0 ==> pool.Msg(firstbuf) == Fill([header + leader], [])
      ensures wcount == |leader| + Min(NET_B_SIZE - BUFSIZE - |leader|, ucnt)
    {
      hide OutInv, Inv, OthersKept, Bases, Fill, Chunks, Stock, CanGet;
      ghost var n := pool.Now();
      FreeFacts(n);
      wcount := |leader| + Min(NET_B_SIZE - BUFSIZE - |leader|, ucnt);
      NullNotMsg(n);
      firstbuf := pool.AppendB(0);
      ghost var n1 := pool.Now();
      Others2(n, n1, {0}, {});
      if firstbuf != 0 {
        LastChunk(n1, firstbuf);
        ChunksLength(n1.mem, n1.parts.msgs[firstbuf]);
        pool.CopyIn(firstbuf, header + leader);
        OthersNew(n, n1, pool.Now(), firstbuf);
        AddOne(header + leader);
        FillNone([header + leader]);
      }
      OutUndisturbed(n, pool.Now(), Now(), {});
    }

    // kerbuf.c sndnetbytes: the data; called again with the rest if vectomsg had to sleep
    method Feed(msg: Addr, ghost sofar: seq<Byte>, ghost first: Chunk, more: seq<Byte>) returns (msg': Addr, left: nat)
      requires Valid() && msg in pool.parts.msgs && msg !in queue && pool.Msg(msg) == Fill([first], sofar)
      modifies pool
      ensures Valid() && OthersKept(old(pool.mem), old(pool.parts), pool.mem, pool.parts, {msg})
      ensures left <= |more| && msg' in pool.parts.msgs && msg' !in queue
      ensures pool.Msg(msg') == Fill([first], sofar + more[..|more| - left])
      ensures left > 0 ==> !CanAppend(pool.Now(), msg')
    {
      hide OutInv, Inv, OthersKept, Bases, Fill, Chunks, Stock, CanAppend;
      ghost var n := pool.Now();
      NullNotMsg(n);
      msg', left := pool.VecToMsg(more, msg);
      FillResumes([first], sofar, more[..|more| - left]);
      QueueOld(n, Now());
      OutUndisturbed(n, pool.Now(), Now(), {msg});
    }

    /** A byte is added to a message whose last buffer holds an odd number of bytes. */
    method PadEven(msg: Addr)
      requires Valid() && msg in pool.parts.msgs && msg !in queue && msg in pool.mem
      requires pool.mem[msg].len % 2 == 1 ==> pool.mem[msg].len < NET_B_SIZE
      modifies pool
      ensures Valid() && OthersKept(old(pool.mem), old(pool.parts), pool.mem, pool.parts, {msg})
      ensures msg in pool.parts.msgs
      ensures old(pool.mem)[msg].len % 2 == 0 ==> pool.Msg(msg) == old(pool.Msg(msg))
      ensures old(pool.mem)[msg].len % 2 == 1 ==>
          old(pool.Msg(msg)) != [] && pool.Msg(msg) == AddToLast(old(pool.Msg(msg)), [0])
    {
      hide OutInv, Inv, OthersKept, Bases, Chunks, AddToLast;
      ghost var n := pool.Now();
      KeptExcept(n, {msg});
      if pool.mem[msg].len % 2 == 1 {
        pool.CopyIn(msg, [0]);
      }
      OutUndisturbed(n, pool.Now(), Now(), {msg});
    }

    // kerbuf.c sndnetbytes, the rest: pad to even, fill in the header, give it to impstrat
    method Finish(msg: Addr, wcount: nat, ghost header: seq<Byte>, ghost leader: seq<Byte>, ghost data: seq<Byte>)
      requires Valid() && msg in pool.parts.msgs && msg !in queue
      requires |header| == BUFSIZE && |header + leader| <= NET_B_SIZE
      requires pool.Msg(msg) == Fill([header + leader], data)
      requires wcount == |leader| + Min(NET_B_SIZE - BUFSIZE - |leader|, |data|)
      modifies this, pool
      ensures Valid() && queue == old(queue) + [msg]
      ensures OthersKept(old(pool.mem), old(pool.parts), pool.mem, pool.parts, {msg})
      ensures pool.Msg(msg) == Built(header, leader, data)
      ensures promised == old(promised) + FramesOf(pool.Now(), msg)
    {
      hide OutInv, Inv, OthersKept, Bases, Fill, Chunks, Flatten, FramesOf, First, AddToLast;
      ghost var n := pool.Now();
      ghost var cs := pool.Msg(msg);
      LastChunk(n, msg);
      ChunksLength(n.mem, n.parts.msgs[msg]);
      BuiltFirst(header, leader, data);
      PadEven(msg);
      ghost var n1 := pool.Now();
      FirstChunk(n1, msg);
      FirstHere(n1, msg);
      SecondIs(n1, msg);
      PadFirst(cs);
      ChunksLength(n1.mem, n1.parts.msgs[msg]);
      var first := pool.mem[msg].qlink;
      var w := if wcount % 2 == 1 then wcount + 1 else wcount;
      ghost var o := Now();
      hdr := hdr[first := Header(0, pool.mem[first].qlink, first, BUFSIZE, w, msg, first != msg)];
      NewHeader(n1, o, msg, hdr[first]);
      Strat(first, msg);
    }
  }

  // ------------------------------------------------------------------ sndnetbytes

  /** Every chunk but the last is a full buffer. */
  ghost predicate FullButLast(cs: seq<Chunk>) {
    forall i :: 0 <= i < |cs| - 1 ==> |cs[i]| == NET_B_SIZE
  }

  lemma {:induction false} FillFull(cs: seq<Chunk>, bs: seq<Byte>)
    requires FullButLast(cs) && Sized(cs)
    ensures FullButLast(Fill(cs, bs))
    ensures cs != [] ==> Fill(cs, bs) != [] && cs[0] <= Fill(cs, bs)[0]
    decreases |bs|
  {
    if bs == [] {
    } else if cs != [] && |cs[|cs| - 1]| < NET_B_SIZE {
      var k := Min(NET_B_SIZE - |cs[|cs| - 1]|, |bs|);
      FillFull(AddToLast(cs, bs[..k]), bs[k..]);
    } else {
      var k := Min(NET_B_SIZE, |bs|);
      FillFull(cs + [bs[..k]], bs[k..]);
    }
  }

  /** The message sndnetbytes builds: header, leader and data, the last buffer padded to even. */
  function Built(header: seq<Byte>, leader: seq<Byte>, data: seq<Byte>): seq<Chunk>
  {
    var cs := Fill([header + leader], data);
    if cs != [] && |cs[|cs| - 1]| % 2 == 1 then AddToLast(cs, [0]) else cs
  }

  function Padding(n: nat): seq<Byte> { if n % 2 == 1 then [0] else [] }

  lemma BuiltShape(header: seq<Byte>, leader: seq<Byte>, data: seq<Byte>)
    requires |header| == BUFSIZE && |header + leader| <= NET_B_SIZE
    ensures var cs := Built(header, leader, data);
      && cs != [] && Sized(cs) && FullButLast(cs) && |cs[|cs| - 1]| % 2 == 0 && header <= cs[0]
  {
    hide Fill;
    FillFull([header + leader], data);
    FillSized([header + leader], data);
  }

  lemma BuiltBytes(header: seq<Byte>, leader: seq<Byte>, data: seq<Byte>)
    requires |header| == BUFSIZE && |header + leader| <= NET_B_SIZE
    ensures Flatten(Built(header, leader, data)) == header + (leader + data + Padding(|leader + data|))
  {
    hide Fill, Flatten, AddToLast, FullButLast, Sized;
    var c0 := [header + leader];
    var cs := Fill(c0, data);
    OneFull(header + leader);
    FillFull(c0, data);
    FillAppends(c0, data);
    FlattenOne(header + leader);
    FullEven(cs);
    AddToLastBytes(cs, [0]);
    Grouped(header, leader, data, Padding(|leader + data|));
    assert ((header + leader) + data) + [] == (header + leader) + data;
  }

  lemma OneFull(c: Chunk)
    ensures FullButLast([c])
    ensures |c| <= NET_B_SIZE ==> Sized([c])
  {
  }

  lemma Grouped(a: seq<Byte>, b: seq<Byte>, c: seq<Byte>, d: seq<Byte>)
    ensures ((a + b) + c) + d == a + (b + c + d)
  {
  }

  /** Full buffers are even, so a message is odd exactly when its last buffer is. */
  lemma {:induction false} FullEven(cs: seq<Chunk>)
    requires cs != [] && FullButLast(cs)
    ensures |Flatten(cs)| % 2 == |cs[|cs| - 1]| % 2
  {
    if |cs| == 1 {
      FlattenOne(cs[0]);
      assert cs == [cs[0]];
    } else {
      FullEven(cs[1..]);
    }
  }

  ghost function BytesOf(fs: seq<Frame>): seq<Byte> {
    if fs == [] then [] else fs[0].bytes + BytesOf(fs[1..])
  }

  /** Frames of a message all of whose buffers hold an even number of bytes are its chunks. */
  lemma EvenFrames(n: Net, h: Addr, cs: seq<Chunk>)
    requires Inv(n) && h in n.parts.msgs && Chunks(n.mem, n.parts.msgs[h]) == cs
    requires forall i :: 0 <= i < |cs| ==> |cs[i]| % 2 == 0
    requires cs != [] && |cs[0]| >= BUFSIZE
    ensures |FramesOf(n, h)| == |cs|
    ensures forall i :: 0 <= i < |cs| ==>
      FramesOf(n, h)[i] == Frame(if i == 0 then cs[0][BUFSIZE..] else cs[i], i + 1 == |cs|)
  {
    hide Inv, Chunks;
    var s := n.parts.msgs[h];
    ChunksLength(n.mem, s);
    forall i | 0 <= i < |s|
      ensures FramesOf(n, h)[i] == Frame(if i == 0 then cs[0][BUFSIZE..] else cs[i], i + 1 == |cs|)
    {
      ChunkOf(n, h, i);
      var d := n.mem[s[i]];
      assert cs[i] == d.data[..d.len];
      assert d.data[..d.len] == d.data[0..d.len];
      assert i == 0 ==> d.data[BUFSIZE..d.len] == d.data[..d.len][BUFSIZE..];
    }
  }

  lemma {:induction false} FramesJoin(fs: seq<Frame>, cs: seq<Chunk>)
    requires |fs| == |cs| && forall i :: 0 <= i < |cs| ==> fs[i].bytes == cs[i]
    ensures BytesOf(fs) == Flatten(cs)
  {
    if cs != [] {
      FramesJoin(fs[1..], cs[1..]);
    }
  }

  /**
   What sndnetbytes puts on the line: leader, data and at most one byte of padding, in order, in
   pieces of an even number of bytes, the end of message on the last piece only.
   */
  lemma SndNetBytesOnLine(n: Net, h: Addr, header: seq<Byte>, leader: seq<Byte>, data: seq<Byte>)
    requires Inv(n) && h in n.parts.msgs && |header| == BUFSIZE && |header + leader| <= NET_B_SIZE
    requires Chunks(n.mem, n.parts.msgs[h]) == Built(header, leader, data)
    ensures var fs := FramesOf(n, h);
      && BytesOf(fs) == leader + data + Padding(|leader + data|)
      && fs != []
      && forall i :: 0 <= i < |fs| ==> |fs[i].bytes| % 2 == 0 && (fs[i].endmsg <==> i == |fs| - 1)
  {
    hide Inv, Built, Chunks, FramesOf;
    var cs := Built(header, leader, data);
    var fs := FramesOf(n, h);
    BuiltShape(header, leader, data);
    BuiltBytes(header, leader, data);
    assert forall i :: 0 <= i < |cs| ==> |cs[i]| % 2 == 0;
    EvenFrames(n, h, cs);
    var ds := cs[0 := cs[0][BUFSIZE..]];
    FramesJoin(fs, ds);
    assert ds[1..] == cs[1..];
    assert cs[0] == header + cs[0][BUFSIZE..];
    PrefixCut(header, cs[0][BUFSIZE..], Flatten(cs[1..]), leader + data + Padding(|leader + data|));
  }

  lemma PrefixCut(a: seq<Byte>, b: seq<Byte>, c: seq<Byte>, d: seq<Byte>)
    requires (a + b) + c == a + d
    ensures b + c == d
  {
    assert ((a + b) + c)[|a|..] == b + c;
    assert (a + d)[|a|..] == d;
  }

  lemma AddOne(c: Chunk)
    ensures AddToLast([[]], c) == [c]
    ensures AddToLast([] + [[]], c) == [c]
  {
    assert [] + c == c;
  }

  lemma QueueOld(n: Net, o: Out)
    requires OutInv(n, o)
    ensures forall h :: h in o.queue ==> h in n.parts.msgs
  {
    hide Fit, Chained, FramesOf, AllFrames, First;
    forall h | h in o.queue ensures h in n.parts.msgs {
      var j :| 0 <= j < |o.queue| && o.queue[j] == h;
      InQueue(n, o, j);
    }
  }

  lemma FirstHere(n: Net, h: Addr)
    requires Inv(n) && h in n.parts.msgs
    ensures n.parts.msgs[h] != [] && First(n, h) == n.parts.msgs[h][0]
  {
    hide Inv;
    FirstChunk(n, h);
  }

  lemma SecondIs(n: Net, h: Addr)
    requires Inv(n) && h in n.parts.msgs
    ensures var s := n.parts.msgs[h];
      && s != [] && s[0] in n.mem && (s[0] == h <==> |s| == 1)
      && (|s| > 1 ==> n.mem[s[0]].qlink == s[1])
  {
    hide Inv;
    FirstChunk(n, h);
    ChunkOf(n, h, 0);
    MsgFacts(n, h);
    LastOnly(n.parts.msgs[h], 0);
  }

  /** The first buffer sndnetbytes fills: its count is what b_wcount is set to, but for the padding. */
  lemma BuiltFirst(header: seq<Byte>, leader: seq<Byte>, data: seq<Byte>)
    requires |header| == BUFSIZE && |header + leader| <= NET_B_SIZE
    ensures var cs := Fill([header + leader], data);
      && cs != [] && |cs[0]| == Min(NET_B_SIZE, BUFSIZE + |leader| + |data|)
      && (|cs| > 1 ==> |cs[0]| == NET_B_SIZE)
  {
    hide Fill, Flatten;
    var c0 := [header + leader];
    var cs := Fill(c0, data);
    FillFull(c0, data);
    FillSized(c0, data);
    FillAppends(c0, data);
    FlattenOne(header + leader);
    if |cs| == 1 {
      assert cs == [cs[0]];
      FlattenOne(cs[0]);
    } else {
      FlattenAtLeast(cs);
    }
  }

  lemma PadFirst(cs: seq<Chunk>)
    requires cs != []
    ensures |AddToLast(cs, [0])| == |cs|
    ensures |AddToLast(cs, [0])[0]| == if |cs| == 1 then |cs[0]| + 1 else |cs[0]|
  {
  }

  lemma FlattenAtLeast(cs: seq<Chunk>)
    requires cs != []
    ensures |cs[0]| <= |Flatten(cs)|
  {
  }

  /** A header written for a message not yet queued. */
  lemma NewHeader(n: Net, o: Out, h: Addr, d: Header)
    requires Inv(n) && OutInv(n, o) && h in n.parts.msgs && h !in o.queue
    requires var s := n.parts.msgs[h];
      && s != [] && s[0] in n.mem && n.mem[s[0]].len >= BUFSIZE
      && d.dev == h && d.start == s[0] && d.off == BUFSIZE && d.more == (|s| > 1)
      && Even(d.wcount) == Even(n.mem[s[0]].len - BUFSIZE)
      && (|s| > 1 ==> d.avForw == s[1])
    ensures OutInv(n, o.(hdr := o.hdr[First(n, h) := d]))
    ensures Fit(n, o.hdr[First(n, h) := d], h)
  {
    hide Inv, Going, Fit, Distinct, FramesOf, AllFrames, First, Chained;
    var f := First(n, h);
    var hdr' := o.hdr[f := d];
    FitHere(n, hdr', h, d);
    forall j | 0 <= j < |o.queue| ensures First(n, o.queue[j]) != f {
      InQueue(n, o, j);
      FirstsDiffer(n, o.queue[j], h);
    }
    forall j | 1 <= j < |o.queue| ensures Fit(n, hdr', o.queue[j]) {
      assert Fit(n, o.hdr, o.queue[j]);
      FitFacts(n, o.hdr, o.queue[j]);
      FitKeeps(n, o.hdr, hdr', o.queue[j]);
    }
    if o.queue != [] {
      GoingFacts(n, o.hdr, o.queue[0], o.pos);
      GoingKeeps(n, o.hdr, hdr', o.queue[0], o.pos);
    }
    ChainSame(n, o.hdr, hdr', o.queue);
  }

  lemma FitHere(n: Net, hdr: map<Addr, Header>, h: Addr, d: Header)
    requires h in n.parts.msgs && First(n, h) in hdr && hdr[First(n, h)] == d
    requires var s := n.parts.msgs[h];
      && s != [] && s[0] in n.mem && n.mem[s[0]].len >= BUFSIZE
      && d.dev == h && d.start == s[0] && d.off == BUFSIZE && d.more == (|s| > 1)
      && Even(d.wcount) == Even(n.mem[s[0]].len - BUFSIZE)
      && (|s| > 1 ==> d.avForw == s[1])
    ensures Fit(n, hdr, h)
  {
  }

  lemma ChainSame(n: Net, hdr: map<Addr, Header>, hdr': map<Addr, Header>, q: seq<Addr>)
    requires Chained(n, hdr, q)
    requires forall j :: 0 <= j < |q| && First(n, q[j]) in hdr ==>
      First(n, q[j]) in hdr' && hdr'[First(n, q[j])] == hdr[First(n, q[j])]
    ensures Chained(n, hdr', q)
  {
    hide First;
  }

  lemma ActiveFacts(n: Net, o: Out)
    requires Inv(n) && OutInv(n, o)
    ensures o.active == 0 <==> o.actf == 0
    ensures o.active == 0 <==> o.queue == []
    ensures o.queue == [] ==> o.actl == 0
    ensures o.queue != [] ==> o.actf in o.hdr && o.actl in o.hdr && o.actl != 0
  {
    hide Inv, Fit, FramesOf, AllFrames, First;
    if o.queue != [] {
      InQueue(n, o, 0);
      InQueue(n, o, |o.queue| - 1);
      FirstNotNull(n, o.queue[0]);
      FirstNotNull(n, o.queue[|o.queue| - 1]);
    }
  }

  lemma FirstNotNull(n: Net, h: Addr)
    requires Inv(n) && h in n.parts.msgs
    ensures First(n, h) != 0
  {
    hide Inv;
    FirstChunk(n, h);
    MsgFacts(n, h);
  }

  lemma HeadFacts(n: Net, o: Out)
    requires Inv(n) && OutInv(n, o) && o.queue != [] && o.actf in o.hdr
    ensures o.hdr[o.actf].dev == o.queue[0] && o.queue[0] in n.parts.msgs
    ensures o.hdr[o.actf].more ==> o.hdr[o.actf].avForw in n.mem
    ensures forall j :: 1 <= j < |o.queue| ==> o.queue[j] != o.queue[0]
  {
    hide Inv, Fit, FramesOf, AllFrames, First, Chained;
    GoingFacts(n, o.hdr, o.queue[0], o.pos);
    if o.hdr[o.actf].more {
      ChunkOf(n, o.queue[0], o.pos);
    }
  }

  /** Freeing the message that was sent leaves the next one's first buffer as it was. */
  lemma NextStays(n: Net, o: Out, n': Net, e: set<Addr>, hdr: map<Addr, Header>)
    requires Inv(n) && OutInv(n, o) && |o.queue| > 1 && o.actf in o.hdr && o.hdr[o.actf].forw in hdr
    requires o.hdr[o.actf].forw in o.hdr
    requires hdr[o.hdr[o.actf].forw] == o.hdr[o.hdr[o.actf].forw]
    requires OthersKept(n.mem, n.parts, n'.mem, n'.parts, e) && o.queue[1] !in e
    ensures var d := hdr[o.hdr[o.actf].forw];
      Line(n'.mem, d.start, d.off, d.wcount) == Line(n.mem, d.start, d.off, d.wcount)
  {
    hide Inv, FramesOf, AllFrames, Chained, Going;
    HeadChained(n, o);
    InQueue(n, o, 1);
    var h := o.queue[1];
    assert Fit(n, o.hdr, h);
    OthersMsg(n, n', e, h);
    assert n.parts.msgs[h][0] in n.parts.msgs[h];
  }
}
