/**
 The swap semaphore: pee, vee, qenter and qdelink of ken/proc_util.c, under swap of dmr/bio.c.
 Waiting processes form a ring through qlink whose handle, sem_q, is the last to come.
 */
module SwapSem {

  const NSWBUF := 2

  type Proc = nat // 0 is no process

  ghost function NextOf(q: seq<Proc>, i: nat): Proc
    requires i < |q|
  {
    if i + 1 < |q| then q[i + 1] else q[0]
  }

  /** `semQ` is the handle of the ring of `q`, first come first. */
  ghost predicate Ring(qlink: map<Proc, Proc>, semQ: Proc, q: seq<Proc>) {
    && (forall i, j :: 0 <= i < j < |q| ==> q[i] != q[j])
    && (forall i :: 0 <= i < |q| ==> q[i] != 0 && q[i] in qlink && qlink[q[i]] == NextOf(q, i))
    && semQ == if q == [] then 0 else q[|q| - 1]
  }

  lemma RingEnter(qlink: map<Proc, Proc>, semQ: Proc, q: seq<Proc>, p: Proc)
    requires Ring(qlink, semQ, q) && p != 0 && p !in q
    ensures q != [] ==> semQ in qlink && semQ != 0 && semQ != p
    ensures q == [] ==> semQ == 0 && Ring(qlink[p := p], p, [p])
    ensures q != [] ==> Ring(qlink[p := qlink[semQ]][semQ := p], p, q + [p])
  {
    if q != [] {
      var r, l := q + [p], qlink[p := qlink[semQ]][semQ := p];
      forall i | 0 <= i < |r| ensures r[i] != 0 && r[i] in l && l[r[i]] == NextOf(r, i) {
        if i < |q| {
          assert q[i] in q && qlink[q[i]] == NextOf(q, i);
        }
      }
    }
  }

  lemma RingDelink(qlink: map<Proc, Proc>, semQ: Proc, q: seq<Proc>)
    requires Ring(qlink, semQ, q)
    ensures semQ == 0 <==> q == []
    ensures q != [] ==> semQ in qlink && qlink[semQ] == q[0] && q[0] in qlink && q[0] != 0
    ensures q != [] && q[0] == semQ ==> |q| == 1
    ensures q != [] && q[0] != semQ ==> Ring(qlink[semQ := qlink[q[0]]], semQ, q[1..])
  {
    if q != [] {
      assert qlink[q[|q| - 1]] == NextOf(q, |q| - 1);
      assert qlink[q[0]] == NextOf(q, 0);
      if q[0] != semQ {
        var r, l := q[1..], qlink[semQ := qlink[q[0]]];
        forall i | 0 <= i < |r| ensures r[i] != 0 && r[i] in l && l[r[i]] == NextOf(r, i) {
          assert qlink[q[i + 1]] == NextOf(q, i + 1);
        }
      }
    }
  }

  datatype Header = Header(busy: bool, done: bool)

  /** `queue` waits, first come first; `granted` were let in and have no header yet; `holds` says who has
      which; `asked` is everyone that ever had to wait, and `served` those of them let in, in order. */
  datatype Sem = Sem(count: int, bufs: seq<Header>, queue: seq<Proc>, granted: set<Proc>, holds: map<Proc, nat>,
                     asked: seq<Proc>, served: seq<Proc>)

  function One(b: bool): int {
    if b then 1 else 0
  }

  ghost predicate Counts(s: Sem) {
    && |s.bufs| == NSWBUF && One(s.bufs[0].busy) + One(s.bufs[1].busy) == |s.holds|
    && |s.queue| == (if s.count < 0 then -s.count else 0)
    && s.count == NSWBUF - |s.granted| - |s.holds| - |s.queue|
    && s.asked == s.served + s.queue
  }

  /** The processes in state SWAIT are those in the ring, each of them once. */
  ghost predicate Asleep(waiting: set<Proc>, q: seq<Proc>) {
    (forall p :: p in waiting <==> p in q) && forall i, j :: 0 <= i < j < |q| ==> q[i] != q[j]
  }

  lemma AsleepMore(waiting: set<Proc>, q: seq<Proc>, p: Proc)
    requires Asleep(waiting, q) && p !in q
    ensures Asleep(waiting + {p}, q + [p])
  {
  }

  lemma AsleepLess(waiting: set<Proc>, q: seq<Proc>, p: Proc, rest: seq<Proc>)
    requires Asleep(waiting, q) && q == [p] + rest
    ensures Asleep(waiting - {p}, rest) && p in waiting
  {
    assert q[0] == p && forall i :: 0 <= i < |rest| ==> rest[i] == q[i + 1];
  }

  /** Two who hold headers hold different ones, which are busy; nobody is in two places. */
  ghost predicate Places(s: Sem) {
    && (forall p, r {:trigger s.holds[p], s.holds[r]} ::
          p in s.holds && r in s.holds && s.holds[p] == s.holds[r] ==> p == r)
    && (forall p :: p in s.holds ==> s.holds[p] < |s.bufs| && s.bufs[s.holds[p]].busy)
    && (forall p :: p in s.holds ==> p !in s.granted && p !in s.queue)
    && forall p :: p in s.granted ==> p !in s.queue
  }

  lemma PeeKeeps(s: Sem, p: Proc, s': Sem)
    requires Counts(s) && Places(s) && p !in s.queue && p !in s.granted && p !in s.holds
    requires s' == if s.count > 0 then s.(count := s.count - 1, granted := s.granted + {p})
                   else s.(count := s.count - 1, queue := s.queue + [p], asked := s.asked + [p])
    ensures Counts(s') && Places(s')
  {
    hide Counts, Places;
    PeeCounts(s, p, s');
    PeePlaces(s, p, s');
  }

  lemma PeeCounts(s: Sem, p: Proc, s': Sem)
    requires Counts(s) && p !in s.granted
    requires s' == if s.count > 0 then s.(count := s.count - 1, granted := s.granted + {p})
                   else s.(count := s.count - 1, queue := s.queue + [p], asked := s.asked + [p])
    ensures Counts(s')
  {
  }

  lemma PeePlaces(s: Sem, p: Proc, s': Sem)
    requires Places(s) && p !in s.queue && p !in s.granted && p !in s.holds
    requires s'.holds == s.holds && s'.bufs == s.bufs
    requires (s'.granted == s.granted + {p} && s'.queue == s.queue)
             || (s'.granted == s.granted && s'.queue == s.queue + [p])
    ensures Places(s')
  {
  }

  /** Whoever is let in finds a header free. */
  lemma TakeKeeps(s: Sem, p: Proc, b: nat, s': Sem)
    requires Counts(s) && Places(s) && p in s.granted && b == One(s.bufs[0].busy)
    requires s' == s.(bufs := s.bufs[b := Header(true, false)], granted := s.granted - {p}, holds := s.holds[p := b])
    ensures !s.bufs[b].busy && Counts(s') && Places(s')
  {
    hide Places;
    assert s.granted == (s.granted - {p}) + {p};
    PlacesApart(s, p);
    HoldsMore(s.holds, p, b);
    TakePlaces(s, p, b, s');
  }

  lemma PlacesApart(s: Sem, p: Proc)
    requires Places(s) && p in s.granted
    ensures p !in s.holds
  {
  }

  lemma TakePlaces(s: Sem, p: Proc, b: nat, s': Sem)
    requires Places(s) && p in s.granted && b < |s.bufs| && !s.bufs[b].busy
    requires s' == s.(bufs := s.bufs[b := Header(true, false)], granted := s.granted - {p}, holds := s.holds[p := b])
    ensures Places(s')
  {
    forall r | r in s.holds ensures s.holds[r] != b {
      assert s.bufs[s.holds[r]].busy;
    }
  }

  lemma HoldsMore(m: map<Proc, nat>, p: Proc, b: nat)
    requires p !in m
    ensures |m[p := b]| == |m| + 1
  {
    assert m[p := b].Keys == m.Keys + {p};
    assert |m| == |m.Keys| && |m[p := b]| == |m[p := b].Keys|;
  }

  /** One who holds header `b` gives it up and, if any wait, the first of them is let in. */
  ghost predicate VeeStep(s: Sem, s': Sem, p: Proc, b: nat) {
    && p in s.holds && b == s.holds[p] && b < |s.bufs| && s.bufs[b].done
    && var t := s.(bufs := s.bufs[b := Header(false, true)], holds := s.holds - {p}, count := s.count + 1);
       s' == if s.queue == [] then t
             else t.(queue := s.queue[1..], granted := s.granted + {s.queue[0]}, served := s.served + [s.queue[0]])
  }

  lemma VeeCounts(s: Sem, p: Proc, b: nat, s': Sem)
    requires Counts(s) && Places(s) && VeeStep(s, s', p, b)
    ensures Counts(s')
  {
    hide Places;
    HoldsLess(s.holds, p);
    FreesOne(s, p, b);
    if s.queue != [] {
      FirstFresh(s);
      NextServed(s);
    }
  }

  lemma NextServed(s: Sem)
    requires s.queue != [] && s.queue[0] !in s.granted && s.asked == s.served + s.queue
    ensures |s.granted + {s.queue[0]}| == |s.granted| + 1
    ensures s.asked == (s.served + [s.queue[0]]) + s.queue[1..] && |s.queue[1..]| == |s.queue| - 1
  {
  }

  lemma FreesOne(s: Sem, p: Proc, b: nat)
    requires Counts(s) && Places(s) && p in s.holds && b == s.holds[p] && b < |s.bufs|
    ensures var bufs := s.bufs[b := Header(false, true)];
      One(bufs[0].busy) + One(bufs[1].busy) == One(s.bufs[0].busy) + One(s.bufs[1].busy) - 1
  {
    assert s.bufs[s.holds[p]].busy;
  }

  lemma FirstFresh(s: Sem)
    requires Places(s) && s.queue != []
    ensures s.queue[0] !in s.granted && s.queue == [s.queue[0]] + s.queue[1..]
  {
    assert s.queue[0] in s.queue;
  }

  lemma VeePlaces(s: Sem, p: Proc, b: nat, s': Sem)
    requires Places(s) && VeeStep(s, s', p, b) && forall i, j :: 0 <= i < j < |s.queue| ==> s.queue[i] != s.queue[j]
    ensures Places(s')
  {
    if s.queue != [] {
      assert s.queue[0] in s.queue && s.queue[0] !in s.queue[1..];
      assert forall r :: r in s.queue[1..] ==> r in s.queue;
    }
  }

  lemma RingApart(qlink: map<Proc, Proc>, semQ: Proc, q: seq<Proc>)
    requires Ring(qlink, semQ, q)
    ensures forall i, j :: 0 <= i < j < |q| ==> q[i] != q[j]
  {
  }

  class Swapper {
    var count: int              // sem_count
    var semQ: Proc              // sem_q
    var qlink: map<Proc, Proc>
    var bufs: seq<Header>       // swapbufs
    var waiting: set<Proc>      // those whose p_stat is SWAIT
    ghost var queue: seq<Proc>
    ghost var granted: set<Proc>
    ghost var holds: map<Proc, nat>
    ghost var asked: seq<Proc>
    ghost var served: seq<Proc>

    ghost function Now(): Sem
      reads this
    {
      Sem(count, bufs, queue, granted, holds, asked, served)
    }

    ghost predicate Valid()
      reads this
    {
      Ring(qlink, semQ, queue) && Counts(Now()) && Places(Now()) && Asleep(waiting, queue)
    }

    constructor ()
      ensures Valid() && count == NSWBUF && queue == [] && holds == map[] && granted == {} && waiting == {}
    {
      count, semQ, qlink, waiting := NSWBUF, 0, map[], {};
      bufs := [Header(false, true), Header(false, true)];
      queue, granted, holds, asked, served := [], {}, map[], [], [];
      new;
      assert |granted| == 0 && |holds| == 0 && served + queue == asked;
      RingNone(qlink);
    }

    /** qenter. */
    method QEnter(p: Proc)
      requires Ring(qlink, semQ, queue) && p != 0 && p !in queue
      modifies this`qlink, this`semQ, this`queue
      ensures Ring(qlink, semQ, queue) && queue == old(queue) + [p]
    {
      hide Ring;
      RingEnter(qlink, semQ, queue, p);
      RingDelink(qlink, semQ, queue);
      if semQ != 0 {
        qlink := qlink[p := qlink[semQ]];
        qlink := qlink[semQ := p];
      } else {
        qlink := qlink[p := p];
        assert queue + [p] == [p];
      }
      semQ := p;
      queue := queue + [p];
    }

    /** qdelink: the first in the ring, 0 if there is none. */
    method QDelink() returns (p: Proc)
      requires Ring(qlink, semQ, queue)
      modifies this`qlink, this`semQ, this`queue
      ensures Ring(qlink, semQ, queue)
      ensures if old(queue) == [] then p == 0 && queue == [] else p != 0 && old(queue) == [p] + queue
    {
      hide Ring;
      RingDelink(qlink, semQ, queue);
      if semQ == 0 {
        return 0;
      }
      p := qlink[semQ];
      if p == semQ {
        RingNone(qlink);
        semQ := 0;
      } else {
        qlink := qlink[semQ := qlink[p]];
      }
      queue := queue[1..];
    }

    /** pee: process `p` is let in, or waits. */
    method Pee(p: Proc) returns (enters: bool)
      requires Valid() && p != 0 && p !in queue && p !in granted && p !in holds
      modifies this`count, this`waiting, this`qlink, this`semQ, this`queue, this`granted, this`asked
      ensures Valid() && enters == (old(count) > 0)
      ensures if enters then granted == old(granted) + {p} && queue == old(queue) && asked == old(asked)
              else granted == old(granted) && queue == old(queue) + [p] && asked == old(asked) + [p]
      ensures waiting == if enters then old(waiting) else old(waiting) + {p}
    {
      hide Ring, Counts, Places, Asleep;
      ghost var s := Now();
      count := count - 1;
      enters := count >= 0;
      if !enters {
        waiting := waiting + {p};
        AsleepMore(old(waiting), queue, p);
        QEnter(p);
        asked := asked + [p];
      } else {
        granted := granted + {p};
      }
      PeeKeeps(s, p, Now());
    }

    /** swap, once let in: a header that is free.  The panic is never reached. */
    method TakeHeader(p: Proc) returns (b: nat, panic: bool)
      requires Valid() && p in granted
      modifies this`bufs, this`granted, this`holds
      ensures Valid() && !panic && b < |old(bufs)| && !old(bufs)[b].busy
      ensures holds == old(holds)[p := b] && granted == old(granted) - {p}
      ensures bufs == old(bufs)[b := Header(true, false)]
    {
      hide Ring, Counts, Places, Asleep;
      ghost var s := Now();
      TwoHeaders(s);
      b := if bufs[0].busy then 1 else 0;
      TakeKeeps(s, p, b, s.(bufs := bufs[b := Header(true, false)], granted := granted - {p}, holds := holds[p := b]));
      panic := bufs[b].busy;
      bufs := bufs[b := Header(true, false)];
      granted := granted - {p};
      holds := holds[p := b];
    }

    /** iodone on a header. */
    method Finished(b: nat)
      requires Valid() && b < |bufs|
      modifies this`bufs
      ensures Valid() && bufs == old(bufs)[b := old(bufs)[b].(done := true)]
    {
      hide Ring, Asleep;
      bufs := bufs[b := bufs[b].(done := true)];
    }

    /** The end of swap, and vee: the header is free, and the first who waits is let in. */
    method Vee(p: Proc, b: nat)
      requires Valid() && p in holds && b == holds[p] && b < |bufs| && bufs[b].done
      modifies this
      ensures Valid() && holds == old(holds) - {p} && b < |bufs| && bufs == old(bufs)[b := Header(false, true)]
      ensures old(queue) == [] ==> queue == [] && granted == old(granted) && served == old(served)
      ensures old(queue) != [] ==> queue == old(queue)[1..] && granted == old(granted) + {old(queue)[0]}
      ensures old(queue) != [] ==> served == old(served) + [old(queue)[0]]
      ensures waiting == if old(queue) == [] then old(waiting) else old(waiting) - {old(queue)[0]}
    {
      hide Ring, Counts, Places, Asleep;
      ghost var s := Now();
      RingApart(qlink, semQ, queue);
      TwoHeaders(s);
      bufs := bufs[b := Header(false, bufs[b].done)];
      holds := holds - {p};
      count := count + 1;
      if count <= 0 {
        var first := QDelink();
        AsleepLess(waiting, [first] + queue, first, queue);
        waiting := waiting - {first}; // setrun
        granted := granted + {first};
        served := served + [first];
      }
      assert VeeStep(s, Now(), p, b);
      VeeCounts(s, p, b, Now());
      VeePlaces(s, p, b, Now());
    }
  }

  lemma TwoHeaders(s: Sem)
    requires Counts(s)
    ensures |s.bufs| == NSWBUF && (s.count < 0 <==> s.queue != [])
  {
  }

  lemma HoldsLess(m: map<Proc, nat>, p: Proc)
    requires p in m
    ensures |m - {p}| == |m| - 1
  {
    assert m.Keys == (m - {p}).Keys + {p};
    assert |m| == |m.Keys| && |m - {p}| == |(m - {p}).Keys|;
  }

  lemma RingNone(qlink: map<Proc, Proc>)
    ensures Ring(qlink, 0, [])
  {
  }
}
