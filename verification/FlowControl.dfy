/**
 NCP flow control (ncpkernel/nrdwr.c, with hh, allocate and siguser of ncpkernel/impio.c and the
 link-0 bit of ncpkernel/btest.c), after "NCP Functions", Flow Control, in the Host/Host Protocol for
 the ARPA Network (NIC 8246).  One writer on the sending host, any number of readers on the receiving
 host, and between them data messages and ALLocate commands in flight.  A step is the code between two
 sleeps, or one arrival.
 */
module FlowControl {

  const NOMMSG: int := 10
  const WORD: nat := 65536

  /** A process in netread whose bytes are off r_bytes and not yet off r_qtotal. */
  datatype Reader = Waiting(amt: nat) // asleep until link 0 is free
                  | Ending(amt: nat)  // sendalloc has decided; sndnetbytes may still have to sleep

  /** An ALL command: messages, and bits as the one word the kernel sends. */
  datatype All = All(msgs: int, bits: nat)

  datatype State = State(
    wMsgs: int, fallocHi: nat, fallocLo: nat, // write socket: w_msgs, w_falloc
    committed: nat,                           // bytes sent, RFNM not yet back; 0 when none
    net: seq<nat>, alls: seq<All>,            // in flight, oldest first
    rMsgs: int, rBytes: int, rHiwat: int,     // read socket: r_msgs, r_bytes, r_hiwat
    rQtotal: int, queue: nat,                 // r_qtotal, and the bytes really in r_msgq
    readers: seq<Reader>, link0: bool,
    sent: nat, read: nat)                     // totals over the run

  datatype Event = Send(ucount: nat) | Rfnm | Resend | Deliver | AllArrives
                 | Read(ucount: nat) | Wake(i: nat) | End(i: nat) | Link0Free | Link0Taken

  function Min(a: int, b: int): int { if a < b then a else b }

  function Shift3(n: int): nat
    requires n >= 0
  {
    (n * 8) % WORD
  }

  // nrdwr.c anyalloc
  function AnyAlloc(s: State): nat {
    if s.wMsgs == 0 then 0
    else if s.fallocHi != 0 || s.fallocLo >= 8000 then 1000
    else (s.fallocLo / 8) % 8192
  }

  /** dpadd and dpsub on the two words of w_falloc. */
  function DpAdd(hi: nat, lo: nat, x: nat): (nat, nat) {
    if lo + x < WORD then (hi, lo + x) else ((hi + 1) % WORD, lo + x - WORD)
  }

  function DpSub(hi: nat, lo: nat, x: nat): (nat, nat)
    requires lo < WORD && x < WORD
  {
    if x <= lo then (hi, lo - x) else ((hi + WORD - 1) % WORD, lo + WORD - x)
  }

  /** sendalloc's test: less than half the bytes, or of the messages, left with the sender. */
  predicate NeedsAlloc(s: State) {
    s.rBytes <= s.rHiwat / 2 || s.rMsgs <= NOMMSG / 2
  }

  /** sendalloc once link 0 is free: the difference to the full allocation goes out. */
  function SendAll(s: State): State
    requires s.rBytes <= s.rHiwat
  {
    s.(link0 := true,
       alls := s.alls + [All(NOMMSG - s.rMsgs, Shift3(s.rHiwat - s.rBytes))],
       rMsgs := NOMMSG, rBytes := s.rHiwat)
  }

  ghost predicate Enabled(s: State, e: Event) {
    match e
    case Send(u) => s.committed == 0 && Min(AnyAlloc(s), u) > 0
    case Rfnm => s.committed > 0
    case Resend => s.committed > 0 && s.net != [] && s.net[|s.net| - 1] == s.committed
    case Deliver => s.net != []
    case AllArrives => s.alls != []
    case Read(u) => Min(s.rQtotal, u) > 0
    case Wake(i) => i < |s.readers| && s.readers[i].Waiting? && !s.link0
    case End(i) => i < |s.readers| && s.readers[i].Ending?
    case Link0Free => true
    case Link0Taken => !s.link0
  }

  function Drop<T>(xs: seq<T>, i: nat): seq<T>
    requires i < |xs|
  {
    xs[..i] + xs[i + 1..]
  }

  function Step(s: State, e: Event): State
    requires s.rBytes <= s.rHiwat && s.fallocLo < WORD
    requires Enabled(s, e)
  {
    match e
    case Send(u) =>
      // netwrite: as much as the allocation permits, in one message
      var n := Min(AnyAlloc(s), u);
      s.(net := s.net + [n], committed := n, sent := s.sent + n)
    case Rfnm =>
      // netwrite, awake again without error: the allocation is used up
      var (hi, lo) := DpSub(s.fallocHi, s.fallocLo, Shift3(s.committed));
      s.(wMsgs := s.wMsgs - 1, fallocHi := hi, fallocLo := lo, committed := 0)
    case Resend =>
      // incomplete transmission: the message did not arrive, and the same bytes go again
      s.(net := s.net[..|s.net| - 1] + [s.committed])
    case Deliver =>
      // hh: link the message to the socket's queue
      s.(net := s.net[1..], rMsgs := s.rMsgs - 1, queue := s.queue + s.net[0], rQtotal := s.rQtotal + s.net[0])
    case AllArrives =>
      // allocate
      var (hi, lo) := DpAdd(s.fallocHi, s.fallocLo, s.alls[0].bits);
      s.(alls := s.alls[1..], wMsgs := s.wMsgs + s.alls[0].msgs, fallocHi := hi, fallocLo := lo)
    case Read(u) =>
      // netread: bytesout moves what is really there; sendalloc looks at what the sender has left
      var amt := Min(Min(s.rQtotal, u), s.queue);
      var t := s.(queue := s.queue - amt, read := s.read + amt, rBytes := s.rBytes - amt);
      if !NeedsAlloc(t) then t.(readers := t.readers + [Ending(amt)])
      else if t.link0 then t.(readers := t.readers + [Waiting(amt)])
      else SendAll(t).(readers := t.readers + [Ending(amt)])
    case Wake(i) =>
      SendAll(s).(readers := s.readers[i := Ending(s.readers[i].amt)])
    case End(i) =>
      s.(rQtotal := s.rQtotal - s.readers[i].amt, readers := Drop(s.readers, i))
    case Link0Free => s.(link0 := false)
    case Link0Taken => s.(link0 := true)
  }

  // ------------------------------------------------------------------ what is conserved

  ghost function Sum(xs: seq<nat>): nat {
    if xs == [] then 0 else xs[0] + Sum(xs[1..])
  }

  ghost function AllBytes(xs: seq<All>): int {
    if xs == [] then 0 else xs[0].bits / 8 + AllBytes(xs[1..])
  }

  ghost function AllMsgs(xs: seq<All>): int {
    if xs == [] then 0 else xs[0].msgs + AllMsgs(xs[1..])
  }

  ghost function Held(rs: seq<Reader>): nat {
    if rs == [] then 0 else rs[0].amt + Held(rs[1..])
  }

  /** w_falloc, both words together. */
  ghost function Bits(s: State): nat { s.fallocHi * WORD + s.fallocLo }

  /** Credit the sender has and has not used: bytes, and messages. */
  ghost function FreeBytes(s: State): int { Bits(s) / 8 - s.committed }
  ghost function FreeMsgs(s: State): int { s.wMsgs - (if s.committed > 0 then 1 else 0) }

  /**
   Credit is conserved: what the sender may still send, what is on its way to the receiver, what is
   on its way back as ALLs and what is queued unread are together what the receiver has given out.
   */
  ghost predicate Conserved(s: State) {
    && FreeBytes(s) + Sum(s.net) + AllBytes(s.alls) + s.queue == s.rBytes
    && FreeMsgs(s) + |s.net| + AllMsgs(s.alls) == s.rMsgs
    && s.rQtotal == s.queue + Held(s.readers)
    && s.sent == s.read + s.queue + Sum(s.net)
  }

  ghost predicate InRange(s: State) {
    && 0 < s.rHiwat && s.rHiwat * 8 < WORD && s.rBytes <= s.rHiwat && s.rMsgs <= NOMMSG
    && s.fallocHi <= 1 && s.fallocLo < WORD && Bits(s) % 8 == 0 && s.committed <= 1000
    && FreeBytes(s) >= 0 && FreeMsgs(s) >= 0
    && (forall i :: 0 <= i < |s.net| ==> s.net[i] >= 1)
    && (forall i :: 0 <= i < |s.alls| ==> s.alls[i].msgs >= 0 && s.alls[i].bits % 8 == 0)
  }

  /** The receiver never leaves the sender without credit once it has read everything. */
  ghost predicate NeverDry(s: State) {
    s.queue == 0 && (forall i :: 0 <= i < |s.readers| ==> s.readers[i].Ending?) ==> s.rBytes >= 1 && s.rMsgs >= 1
  }

  ghost predicate Inv(s: State) {
    Conserved(s) && InRange(s) && NeverDry(s)
  }

  /** A connection just set up: an initial allocation on its way, within the receiver's limits. */
  ghost predicate Initial(s: State) {
    && 0 < s.rHiwat && s.rHiwat * 8 < WORD && 1 <= s.rBytes <= s.rHiwat && 1 <= s.rMsgs <= NOMMSG
    && s.wMsgs == 0 && s.fallocHi == 0 && s.fallocLo == 0 && s.committed == 0
    && s.net == [] && s.alls == [All(s.rMsgs, s.rBytes * 8)]
    && s.rQtotal == 0 && s.queue == 0 && s.readers == [] && s.sent == 0 && s.read == 0
  }

  lemma InitialInv(s: State)
    requires Initial(s)
    ensures Inv(s)
  {
    assert s.alls[1..] == [];
  }

  lemma {:induction false} SumAppend(xs: seq<nat>, y: nat)
    ensures Sum(xs + [y]) == Sum(xs) + y
  {
    if xs == [] {
      assert [y][1..] == [];
    } else {
      assert (xs + [y])[1..] == xs[1..] + [y];
      SumAppend(xs[1..], y);
    }
  }

  lemma {:induction false} AllAppend(xs: seq<All>, y: All)
    ensures AllBytes(xs + [y]) == AllBytes(xs) + y.bits / 8
    ensures AllMsgs(xs + [y]) == AllMsgs(xs) + y.msgs
  {
    if xs == [] {
      assert [y][1..] == [];
    } else {
      assert (xs + [y])[1..] == xs[1..] + [y];
      AllAppend(xs[1..], y);
    }
  }

  lemma {:induction false} AllAtLeast(xs: seq<All>)
    requires forall i :: 0 <= i < |xs| ==> xs[i].msgs >= 0
    ensures AllBytes(xs) >= 0 && AllMsgs(xs) >= 0
  {
    if xs != [] {
      AllAtLeast(xs[1..]);
    }
  }

  lemma {:induction false} HeldAppend(rs: seq<Reader>, r: Reader)
    ensures Held(rs + [r]) == Held(rs) + r.amt
  {
    if rs == [] {
      assert [r][1..] == [];
    } else {
      assert (rs + [r])[1..] == rs[1..] + [r];
      HeldAppend(rs[1..], r);
    }
  }

  lemma {:induction false} HeldUpdate(rs: seq<Reader>, i: nat, r: Reader)
    requires i < |rs| && r.amt == rs[i].amt
    ensures Held(rs[i := r]) == Held(rs)
  {
    if i > 0 {
      assert rs[i := r][1..] == rs[1..][i - 1 := r];
      HeldUpdate(rs[1..], i - 1, r);
    } else {
      assert rs[i := r][1..] == rs[1..];
    }
  }

  lemma {:induction false} HeldDrop(rs: seq<Reader>, i: nat)
    requires i < |rs|
    ensures Held(Drop(rs, i)) == Held(rs) - rs[i].amt
  {
    if i > 0 {
      assert Drop(rs, i)[1..] == Drop(rs[1..], i - 1);
      HeldDrop(rs[1..], i - 1);
    } else {
      assert Drop(rs, i) == rs[1..];
    }
  }

  /** anyalloc over both words of credit: all the bytes there are, up to the largest message. */
  lemma AnyAllocExact(s: State)
    requires s.fallocHi <= 1 && s.fallocLo < WORD
    ensures AnyAlloc(s) == if s.wMsgs == 0 then 0 else Min(1000, Bits(s) / 8)
  {
  }

  // ------------------------------------------------------------------ every step keeps the invariant

  lemma SendAllInv(s: State)
    requires Conserved(s) && InRange(s)
    ensures Conserved(SendAll(s)) && InRange(SendAll(s))
  {
    hide Sum, Held;
    var all := All(NOMMSG - s.rMsgs, Shift3(s.rHiwat - s.rBytes));
    AllAtLeast(s.alls);
    BytesBound(s);
    AllAppend(s.alls, all);
    assert all.bits == 8 * (s.rHiwat - s.rBytes);
  }

  lemma BytesBound(s: State)
    requires Conserved(s) && InRange(s)
    ensures 0 <= s.queue <= s.rBytes && 0 <= s.rMsgs && Bits(s) / 8 <= s.rHiwat + s.committed
    ensures FreeBytes(s) + AllBytes(s.alls) <= s.rBytes && AllBytes(s.alls) >= 0
  {
    AllAtLeast(s.alls);
  }

  lemma SendInv(s: State, u: nat)
    requires Inv(s) && Enabled(s, Send(u))
    ensures Inv(Step(s, Send(u)))
  {
    hide AllBytes, AllMsgs, Held;
    AnyAllocExact(s);
    SumAppend(s.net, Min(AnyAlloc(s), u));
  }

  lemma RfnmInv(s: State)
    requires Inv(s) && Enabled(s, Rfnm)
    ensures Inv(Step(s, Rfnm))
    ensures Bits(Step(s, Rfnm)) == Bits(s) - 8 * s.committed
  {
    hide Sum, AllBytes, AllMsgs, Held;
    assert Bits(s) >= 8 * s.committed;
    assert Shift3(s.committed) == 8 * s.committed;
  }

  lemma ResendInv(s: State)
    requires Inv(s) && Enabled(s, Resend)
    ensures Step(s, Resend) == s
  {
    assert s.net[..|s.net| - 1] + [s.committed] == s.net;
  }

  lemma DeliverInv(s: State)
    requires Inv(s) && Enabled(s, Deliver)
    ensures Inv(Step(s, Deliver))
  {
    hide AllBytes, AllMsgs, Held;
  }

  lemma AllArrivesInv(s: State)
    requires Inv(s) && Enabled(s, AllArrives)
    ensures Inv(Step(s, AllArrives))
  {
    hide Sum, Held, DpAdd;
    BytesBound(s);
    AllAtLeast(s.alls[1..]);
    var x := s.alls[0].bits;
    EightMore(Bits(s), x);
    DpAddExact(s.fallocHi, s.fallocLo, x);
    assert Bits(Step(s, AllArrives)) == Bits(s) + x;
  }

  lemma EightMore(b: nat, x: nat)
    requires b % 8 == 0 && x % 8 == 0
    ensures (b + x) % 8 == 0 && (b + x) / 8 == b / 8 + x / 8 && x == 8 * (x / 8) && b == 8 * (b / 8)
  {
  }

  lemma DpAddExact(hi: nat, lo: nat, x: nat)
    requires lo < WORD && hi * WORD + lo + x < 2 * WORD
    ensures var (hi', lo') := DpAdd(hi, lo, x); hi' * WORD + lo' == hi * WORD + lo + x && lo' < WORD && hi' <= 1
  {
  }

  /** netread as far as sendalloc's first line: the bytes are the user's, r_qtotal not yet told. */
  function Taken(s: State, u: nat): State {
    var amt := Min(Min(s.rQtotal, u), s.queue);
    if amt < 0 then s else s.(queue := s.queue - amt, read := s.read + amt, rBytes := s.rBytes - amt)
  }

  lemma TakenInv(s: State, u: nat)
    requires Inv(s) && Enabled(s, Read(u))
    ensures var t := Taken(s, u); var amt := s.queue - t.queue;
      && 0 <= amt && t.queue == s.queue - amt && t.rBytes <= t.rHiwat
      && Conserved(t.(rQtotal := t.rQtotal - amt)) && InRange(t)
  {
    hide Sum, AllBytes, AllMsgs, Held;
    BytesBound(s);
  }

  /** The reader is still to take `amt` off r_qtotal. */
  lemma WithReader(t: State, r: Reader)
    requires Conserved(t.(rQtotal := t.rQtotal - r.amt)) && InRange(t)
    ensures Conserved(t.(readers := t.readers + [r])) && InRange(t.(readers := t.readers + [r]))
  {
    hide Sum, AllBytes, AllMsgs, Held;
    HeldAppend(t.readers, r);
  }

  lemma ReadInv(s: State, u: nat)
    requires Inv(s) && Enabled(s, Read(u))
    ensures Inv(Step(s, Read(u)))
  {
    hide Conserved, InRange;
    var t := Taken(s, u);
    var amt := s.queue - t.queue;
    TakenInv(s, u);
    ReadForm(s, u);
    if !NeedsAlloc(t) {
      WithReader(t, Ending(amt));
      EnoughLeft(t);
    } else if t.link0 {
      WithReader(t, Waiting(amt));
      assert (t.readers + [Waiting(amt)])[|t.readers|].Waiting?;
    } else {
      RangeOfRest(t, t.rQtotal - amt);
      RangeOfRest(SendAll(t), t.rQtotal - amt);
      SendAllInv(t.(rQtotal := t.rQtotal - amt));
      WithReader(SendAll(t), Ending(amt));
      EnoughLeft(SendAll(t));
    }
  }

  lemma RangeOfRest(s: State, q: int)
    ensures InRange(s.(rQtotal := q)) <==> InRange(s)
  {
  }

  lemma ReadForm(s: State, u: nat)
    requires Inv(s) && Enabled(s, Read(u))
    ensures var t := Taken(s, u); var amt := s.queue - t.queue;
      && 0 <= amt && s.rHiwat == t.rHiwat && t.rBytes <= t.rHiwat
      && Step(s, Read(u)) == (if !NeedsAlloc(t) then t.(readers := t.readers + [Ending(amt)])
                              else if t.link0 then t.(readers := t.readers + [Waiting(amt)])
                              else SendAll(t).(readers := t.readers + [Ending(amt)]))
  {
    TakenInv(s, u);
  }

  lemma EnoughLeft(t: State)
    requires !NeedsAlloc(t) || (t.rBytes == t.rHiwat && t.rMsgs == NOMMSG)
    requires InRange(t)
    ensures t.rBytes >= 1 && t.rMsgs >= 1
  {
  }

  lemma WakeInv(s: State, i: nat)
    requires Inv(s) && Enabled(s, Wake(i))
    ensures Inv(Step(s, Wake(i)))
  {
    hide Sum, AllBytes, AllMsgs, Held;
    SendAllInv(s);
    HeldUpdate(s.readers, i, Ending(s.readers[i].amt));
  }

  lemma EndInv(s: State, i: nat)
    requires Inv(s) && Enabled(s, End(i))
    ensures Inv(Step(s, End(i)))
  {
    hide Sum, AllBytes, AllMsgs, Held;
    HeldDrop(s.readers, i);
    var r := Step(s, End(i));
    if s.queue == 0 && forall k :: 0 <= k < |r.readers| ==> r.readers[k].Ending? {
      forall k | 0 <= k < |s.readers| ensures s.readers[k].Ending? {
        if k < i {
          assert r.readers[k] == s.readers[k];
        } else if k > i {
          assert r.readers[k - 1] == s.readers[k];
        }
      }
    }
  }

  /** Every step of either host, and every arrival, keeps the invariant. */
  lemma StepInv(s: State, e: Event)
    requires Inv(s) && Enabled(s, e)
    ensures Inv(Step(s, e))
  {
    hide Conserved, InRange, Step, Enabled;
    match e
    case Send(u) => SendInv(s, u);
    case Rfnm => RfnmInv(s);
    case Resend => ResendInv(s);
    case Deliver => DeliverInv(s);
    case AllArrives => AllArrivesInv(s);
    case Read(u) => ReadInv(s, u);
    case Wake(i) => WakeInv(s, i);
    case End(i) => EndInv(s, i);
    case Link0Free => LinkInv(s, e);
    case Link0Taken => LinkInv(s, e);
  }

  lemma LinkInv(s: State, e: Event)
    requires Inv(s) && (e == Link0Free || e == Link0Taken) && Enabled(s, e)
    ensures Inv(Step(s, e))
  {
    hide Sum, AllBytes, AllMsgs, Held;
  }

  // ------------------------------------------------------------------ over whole runs

  /** A run: states, and the event that leads from each to the next. */
  ghost predicate Run(ss: seq<State>, es: seq<Event>) {
    |ss| == |es| + 1 && Initial(ss[0]) && forall i {:trigger es[i]} :: 0 <= i < |es| ==> Leads(ss[i], es[i], ss[i + 1])
  }

  ghost predicate Leads(s: State, e: Event, s': State) {
    s.rBytes <= s.rHiwat && s.fallocLo < WORD && Enabled(s, e) && s' == Step(s, e)
  }

  lemma {:induction false} RunInv(ss: seq<State>, es: seq<Event>, k: nat)
    requires Run(ss, es) && k <= |es|
    ensures Inv(ss[k])
  {
    hide Inv, Enabled, Step, Initial;
    if k == 0 {
      InitialInv(ss[0]);
    } else {
      RunInv(ss, es, k - 1);
      assert ss[k] == Step(ss[k - 1], es[k - 1]);
      StepInv(ss[k - 1], es[k - 1]);
    }
  }

  /** No run is cut short by the bounds in Run: any event that can happen next makes a longer run. */
  lemma RunExtends(ss: seq<State>, es: seq<Event>, e: Event)
    requires Run(ss, es) && Enabled(ss[|es|], e)
    ensures var s := ss[|es|]; s.rBytes <= s.rHiwat && s.fallocLo < WORD && Run(ss + [Step(s, e)], es + [e])
  {
    hide Leads, Inv, Step, Enabled;
    var s := ss[|es|];
    RunInv(ss, es, |es|);
    InBounds(s);
    LeadsOn(s, e);
    var ts, fs := ss + [Step(s, e)], es + [e];
    forall i {:trigger fs[i]} | 0 <= i < |fs| ensures Leads(ts[i], fs[i], ts[i + 1]) {
      if i < |es| {
        assert fs[i] == es[i] && ts[i] == ss[i] && ts[i + 1] == ss[i + 1];
      }
    }
    assert ts[0] == ss[0];
  }

  lemma InBounds(s: State)
    requires Inv(s)
    ensures s.rBytes <= s.rHiwat && s.fallocHi <= 1 && s.fallocLo < WORD && s.wMsgs >= 0
  {
  }

  lemma LeadsOn(s: State, e: Event)
    requires s.rBytes <= s.rHiwat && s.fallocLo < WORD && Enabled(s, e)
    ensures Leads(s, e, Step(s, e))
  {
  }

  // ------------------------------------------------------------------ how much each event moves

  /** A full allocation goes out, for a receiver left with `bytes` and `s.rMsgs`: link 0 is then taken. */
  ghost predicate FullAgain(s: State, bytes: int, s': State)
    requires bytes <= s.rHiwat
  {
    && s'.rBytes == s.rHiwat && s'.rMsgs == NOMMSG && s'.link0
    && s'.alls == s.alls + [All(NOMMSG - s.rMsgs, 8 * (s.rHiwat - bytes))]
  }

  /** What netread does, in bytes: all that is queued up to the `u` asked for, and the allocation made full
      again if that leaves the sender half of it or less, as soon as link 0 is free. */
  ghost predicate ReadMoves(s: State, u: nat, s': State)
    requires s.rBytes <= s.rHiwat
  {
    var amt := Min(u, s.queue);
    && s'.queue == s.queue - amt && s'.read == s.read + amt && s'.rQtotal == s.rQtotal
    && if 2 * (s.rBytes - amt) > s.rHiwat && 2 * s.rMsgs > NOMMSG then
         && s'.rBytes == s.rBytes - amt && s'.rMsgs == s.rMsgs && s'.alls == s.alls && s'.link0 == s.link0
         && s'.readers == s.readers + [Ending(amt)]
       else if s.link0 then
         && s'.rBytes == s.rBytes - amt && s'.rMsgs == s.rMsgs && s'.alls == s.alls && s'.link0
         && s'.readers == s.readers + [Waiting(amt)]
       else FullAgain(s, s.rBytes - amt, s') && s'.readers == s.readers + [Ending(amt)]
  }

  /** The sender's side of a connection, and the receiver's. */
  ghost predicate SameSender(s: State, s': State) {
    && s'.wMsgs == s.wMsgs && Bits(s') == Bits(s) && s'.committed == s.committed && s'.sent == s.sent
    && s'.net == s.net
  }

  ghost predicate SameReceiver(s: State, s': State) {
    && s'.rMsgs == s.rMsgs && s'.rBytes == s.rBytes && s'.rQtotal == s.rQtotal && s'.queue == s.queue
    && s'.readers == s.readers && s'.link0 == s.link0 && s'.read == s.read
  }

  /** The same events told in whole numbers of bytes and messages, without words, shifts and halves. */
  ghost predicate Moves(s: State, e: Event, s': State)
    requires s.rBytes <= s.rHiwat && Enabled(s, e)
  {
    && s'.rHiwat == s.rHiwat
    && match e
       case Send(u) =>
         var n := Min(u, Min(1000, Bits(s) / 8));
         && n > 0 && s.wMsgs > 0 && s.committed == 0 && s'.net == s.net + [n] && s'.committed == n
         && s'.sent == s.sent + n && s'.wMsgs == s.wMsgs && Bits(s') == Bits(s)
         && s'.alls == s.alls && SameReceiver(s, s')
       case Rfnm =>
         && s.committed > 0 && s'.committed == 0 && s'.wMsgs == s.wMsgs - 1
         && Bits(s') == Bits(s) - 8 * s.committed && s'.net == s.net && s'.sent == s.sent
         && s'.alls == s.alls && SameReceiver(s, s')
       case Resend => s' == s
       case Deliver =>
         && s.net == [s.net[0]] + s'.net && s'.queue == s.queue + s.net[0] && s'.rQtotal == s.rQtotal + s.net[0]
         && s'.rMsgs == s.rMsgs - 1 && s'.rBytes == s.rBytes && s'.readers == s.readers && s'.read == s.read
         && s'.link0 == s.link0 && s'.alls == s.alls && SameSender(s.(net := []), s'.(net := []))
       case AllArrives =>
         && s.alls == [s.alls[0]] + s'.alls && s'.wMsgs == s.wMsgs + s.alls[0].msgs
         && Bits(s') == Bits(s) + s.alls[0].bits && s'.committed == s.committed && s'.sent == s.sent
         && s'.net == s.net && SameReceiver(s, s')
       case Read(u) => ReadMoves(s, u, s') && SameSender(s, s')
       case Wake(i) =>
         && FullAgain(s, s.rBytes, s') && s'.readers == s.readers[i := Ending(s.readers[i].amt)]
         && s'.queue == s.queue && s'.rQtotal == s.rQtotal && s'.read == s.read && SameSender(s, s')
       case End(i) =>
         && s'.rQtotal == s.rQtotal - s.readers[i].amt && s'.readers == s.readers[..i] + s.readers[i + 1..]
         && SameReceiver(s.(rQtotal := 0, readers := []), s'.(rQtotal := 0, readers := []))
         && s'.alls == s.alls && SameSender(s, s')
       case Link0Free =>
         !s'.link0 && SameReceiver(s.(link0 := false), s') && s'.alls == s.alls && SameSender(s, s')
       case Link0Taken =>
         s'.link0 && SameReceiver(s.(link0 := true), s') && s'.alls == s.alls && SameSender(s, s')
  }

  /** Each event moves what it should, and is possible just when there is something to move. */
  lemma StepMoves(s: State, e: Event)
    requires Inv(s) && Enabled(s, e)
    ensures Moves(s, e, Step(s, e))
  {
    hide Inv, ReadMoves, FullAgain;
    InBounds(s);
    match e
    case Send(u) => AnyAllocExact(s);
    case Rfnm => RfnmInv(s);
    case Resend => ResendInv(s);
    case Deliver => assert s.net == [s.net[0]] + s.net[1..];
    case AllArrives =>
      AllArrivesBits(s);
      assert s.alls == [s.alls[0]] + s.alls[1..];
    case Read(u) => ReadStepMoves(s, u);
    case Wake(i) => FullAgainHere(s, s.readers[i := Ending(s.readers[i].amt)]);
    case _ =>
  }

  lemma AllArrivesBits(s: State)
    requires Inv(s) && Enabled(s, AllArrives)
    ensures Bits(Step(s, AllArrives)) == Bits(s) + s.alls[0].bits
  {
    hide Sum, Held, DpAdd;
    BytesBound(s);
    AllAtLeast(s.alls[1..]);
    EightMore(Bits(s), s.alls[0].bits);
    DpAddExact(s.fallocHi, s.fallocLo, s.alls[0].bits);
  }

  lemma FullAgainHere(s: State, rs: seq<Reader>)
    requires Inv(s)
    ensures s.rBytes <= s.rHiwat && FullAgain(s, s.rBytes, SendAll(s).(readers := rs))
  {
    BytesBound(s);
  }

  lemma ReadStepMoves(s: State, u: nat)
    requires Inv(s) && Enabled(s, Read(u))
    ensures ReadMoves(s, u, Step(s, Read(u)))
  {
    hide Sum, AllBytes, AllMsgs, Held;
    BytesBound(s);
  }

  /** When each event can happen. */
  lemma EnabledIff(s: State, u: nat)
    requires Inv(s)
    ensures Enabled(s, Send(u)) <==> u > 0 && s.committed == 0 && s.wMsgs > 0 && Bits(s) >= 8
    ensures s.readers == [] ==> (Enabled(s, Read(u)) <==> u > 0 && s.queue > 0)
    ensures forall i :: 0 <= i < |s.readers| ==> (Enabled(s, Wake(i)) <==> s.readers[i].Waiting? && !s.link0)
    ensures forall i :: 0 <= i < |s.readers| ==> (Enabled(s, End(i)) <==> s.readers[i].Ending?)
    ensures (Enabled(s, Rfnm) <==> s.committed > 0) && (Enabled(s, Deliver) <==> s.net != [])
    ensures (Enabled(s, AllArrives) <==> s.alls != []) && Enabled(s, Link0Free)
  {
    hide Sum, AllBytes, AllMsgs;
    AnyAllocExact(s);
  }

  /** In every run every event moves what it should. */
  lemma RunMoves(ss: seq<State>, es: seq<Event>, k: nat)
    requires Run(ss, es) && k < |es|
    ensures ss[k].rBytes <= ss[k].rHiwat && Enabled(ss[k], es[k])
    ensures Moves(ss[k], es[k], ss[k + 1])
  {
    hide Moves, Inv, Enabled, Step, Initial;
    RunInv(ss, es, k);
    assert Leads(ss[k], es[k], ss[k + 1]);
    StepMoves(ss[k], es[k]);
  }

  /** The sizes of the messages sent in the first `k` events, and of those delivered; and the ALLs. */
  ghost function Sent(ss: seq<State>, es: seq<Event>, k: nat): seq<int>
    requires k <= |es| && |ss| == |es| + 1
  {
    if k == 0 then [] else Sent(ss, es, k - 1) + if es[k - 1].Send? then [ss[k].committed] else []
  }

  ghost function Delivered(ss: seq<State>, es: seq<Event>, k: nat): seq<int>
    requires k <= |es| && |ss| == |es| + 1
  {
    if k == 0 then []
    else Delivered(ss, es, k - 1) + if es[k - 1].Deliver? then [ss[k].queue - ss[k - 1].queue] else []
  }

  lemma StartsEmpty(ss: seq<State>, es: seq<Event>)
    requires Run(ss, es)
    ensures |ss| > 0 && ss[0].net == []
  {
  }

  /** What an event means for the messages in the net. */
  lemma QueueMoves(s: State, e: Event, s': State)
    requires s.rBytes <= s.rHiwat && Enabled(s, e) && Moves(s, e, s')
    ensures e.Send? ==> s'.net == s.net + [s'.committed]
    ensures e.Deliver? ==> s.net == [s'.queue - s.queue] + s'.net
    ensures !e.Send? && !e.Deliver? ==> s'.net == s.net
  {
  }

  /** Over every run the messages delivered, and then those in the net, are those sent, in order and whole. */
  lemma {:induction false} InOrder(ss: seq<State>, es: seq<Event>, k: nat)
    requires |ss| == |es| + 1 && Run(ss, es) && k <= |es|
    ensures Sent(ss, es, k) == Delivered(ss, es, k) + ss[k].net
  {
    hide Run, Moves, Enabled;
    if k == 0 {
      assert ss[0].net == [] by { StartsEmpty(ss, es); }
    } else {
      InOrder(ss, es, k - 1);
      RunMoves(ss, es, k - 1);
      QueueMoves(ss[k - 1], es[k - 1], ss[k]);
    }
  }

  /**
   Safety, in every state of every run: the two credit words never run below zero or over, the receive
   queue never holds more than r_hiwat bytes, and no byte is lost, made or delivered twice.
   */
  lemma FlowSafety(ss: seq<State>, es: seq<Event>, k: nat)
    requires Run(ss, es) && k <= |es|
    ensures var s := ss[k];
      && s.queue <= s.rHiwat && s.queue <= s.rBytes
      && 8 * s.committed <= Bits(s) < 2 * WORD && s.wMsgs >= 0
      && (s.committed > 0 ==> s.wMsgs > 0)
      && s.sent == s.read + s.queue + Sum(s.net)
      && (s.readers == [] ==> s.rQtotal == s.queue)
  {
    RunInv(ss, es, k);
    BytesBound(ss[k]);
  }

  /** No stall: nothing in flight and everything read, a writer that is not waiting may send. */
  lemma NoStall(ss: seq<State>, es: seq<Event>, k: nat)
    requires Run(ss, es) && k <= |es|
    requires var s := ss[k]; s.net == [] && s.alls == [] && s.rQtotal == 0 && s.readers == []
    ensures FreeBytes(ss[k]) >= 1 && FreeMsgs(ss[k]) >= 1
    ensures ss[k].committed == 0 ==> AnyAlloc(ss[k]) >= 1 && forall u: nat :: u > 0 ==> Enabled(ss[k], Send(u))
  {
    RunInv(ss, es, k);
    AnyAllocExact(ss[k]);
  }
}
