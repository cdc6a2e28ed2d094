/**
 Closing an end of a pipe: when a process waiting on the other end can be left asleep with nobody to
 wake it.
 */
module PipeClose {
  import opened PipeEnds

  /** Writers and eofp callers in the loop that waits for an end of file to be read: they will look at
      IEOFP again, but not at i_count. */
  ghost function InLoop(s: Ctl): set<Proc> {
    set p | p in s.at && (s.at[p].where.OnEof? || s.at[p].where == Ready(true) || s.at[p].where == OnLock(true))
  }

  function Bytes(at: map<Proc, Spot>, p: Proc): nat {
    if p in at && at[p].task.Writer? then at[p].task.c else 0
  }

  /** What these processes still have to write. */
  ghost function Total(at: map<Proc, Spot>, ps: set<Proc>): nat {
    if ps == {} then 0 else var p :| p in ps; Bytes(at, p) + Total(at, ps - {p})
  }

  lemma {:induction false} TotalSplit(at: map<Proc, Spot>, ps: set<Proc>, p: Proc)
    requires p in ps
    ensures Total(at, ps) == Bytes(at, p) + Total(at, ps - {p})
  {
    var q :| q in ps && Total(at, ps) == Bytes(at, q) + Total(at, ps - {q});
    if q != p {
      TotalSplit(at, ps - {q}, p);
      TotalSplit(at, ps - {p}, q);
      assert ps - {q} - {p} == ps - {p} - {q};
    }
  }

  lemma {:induction false} TotalSame(at: map<Proc, Spot>, at': map<Proc, Spot>, ps: set<Proc>)
    requires forall p :: p in ps ==> Bytes(at, p) == Bytes(at', p)
    ensures Total(at, ps) == Total(at', ps)
  {
    if ps != {} {
      var p :| p in ps;
      TotalSplit(at, ps, p);
      TotalSplit(at', ps, p);
      TotalSame(at, at', ps - {p});
    }
  }

  /** The loop can be left by everyone in it, whatever the order: no end of file is pending and the one
      eofp caller is alone, or there are only writers and no set of others can fill the pipe on one. */
  ghost predicate LoopSafe(s: Ctl, loop: set<Proc>, room: int) {
    && (s.eofp ==> loop == {})
    && (forall p :: p in loop && p in s.at && s.at[p].task.EofSender? ==> loop == {p})
    && ((forall p :: p in loop && p in s.at ==> s.at[p].task.Writer?) ==>
          forall p :: p in loop ==> Total(s.at, loop - {p}) < room)
  }

  predicate OtherOpen(s: Ctl, reader: bool) {
    if reader then s.w.Open? else s.r.Open?
  }

  /** What a caller of closef could look at: the other end is not open any more; or the lock is free, and,
      if it is the read end that goes, the loop behind an end of file can be left. */
  ghost predicate CloseSafe(s: Ctl, reader: bool) {
    !OtherOpen(s, reader) || (!s.lock && (reader ==> LoopSafe(s, InLoop(s), PIPSIZ - s.size)))
  }

  ghost predicate NeverStrands(s: Ctl) {
    forall steps :: !Stranded(Run(s, steps))
  }

  lemma {:induction false} RunSum(s: Ctl, a: seq<Step>, b: seq<Step>)
    ensures Run(s, a + b) == Run(Run(s, a), b)
    decreases |a|
  {
    if a == [] {
      assert [] + b == b;
    } else {
      assert (a + b)[0] == a[0] && (a + b)[1..] == a[1..] + b;
      RunSum(Apply(s, a[0]), a[1..], b);
    }
  }

  lemma RunOne(s: Ctl, a: Step)
    ensures Run(s, [a]) == Apply(s, a)
  {
    assert [a][1..] == [];
  }

  /** A run that strands, one step further back. */
  lemma RunMore(s: Ctl, a: Step, steps: seq<Step>)
    ensures Run(s, [a] + steps) == Run(Apply(s, a), steps)
  {
    RunSum(s, [a], steps);
    RunOne(s, a);
  }

  // ------------------------------------------------------------ the write end goes with the lock free

  ghost predicate NoWriters(s: Ctl) {
    && s.w.Gone? && Unused(s, false)
    && forall p :: p in s.at ==> !s.at[p].where.OnData?
  }

  /** How process `q` comes to be where it is after a step. */
  ghost predicate Moved(s: Ctl, step: Step, s': Ctl, q: Proc)
    requires q in s'.at
  {
    var x := s'.at[q];
    if q in s.at then
      && SameEnd(x.task, s.at[q].task)
      && (x.where.OnData? ==> s.at[q].where.OnData? || (step == Go(q) && s.at[q].task.Reader? && Count(s) == 2))
    else if step == Call(q, x.task) then
      x.where == Ready(false) && (OnReadEnd(x.task) ==> s.r.Open?) && (OnWriteEnd(x.task) ==> s.w.Open?)
    else if step == Update(q) then
      x == Spot(Updater, Busy)
    else
      x.task.Closer? && step == Close(q, x.task.reader) && !x.where.OnData?
  }

  lemma StepMoves(s: Ctl, step: Step, q: Proc)
    requires q in Apply(s, step).at
    ensures Moved(s, step, Apply(s, step), q)
  {
    hide Enter, ReadEnd, WriteEnd, CloseEnd, Wakeups;
    if Can(s, step) {
      match step
      case Go(p) => GoMoves(s, p, q);
      case EndRead(p) => ReadMoves(s, p, q);
      case EndWrite(p) => WriteMoves(s, p, q);
      case Close(p, reader) => CloseMoves(s, p, reader, q);
      case CloseShared => RouseKeys(s); assert q in Wakeups(s).at.Keys; WakeupsAt(s, q);
      case EndUpdate(p) => ReleaseMoves(s, p, q);
      case _ =>
    }
  }

  /** A process entering leaves the others where they are, but for those it wakes. */
  ghost predicate Undisturbed(x: Spot, x': Spot) {
    x'.task == x.task && (x'.where == x.where || (x.where.OnEof? && x'.where == Ready(true))
                          || (x.where.OnData? && x'.where == Ready(false)))
  }

  lemma ReaderMoves(s: Ctl, p: Proc, n: nat, q: Proc)
    requires p in s.at && s.at[p].task == Reader(n) && q in EnterReader(s, p, n).at
    ensures var x := EnterReader(s, p, n).at[q];
      q in s.at && if q == p then x.task == s.at[p].task && !x.where.Ready? && !x.where.OnRoom? && !x.where.OnEof?
                                  && (x.where.OnData? ==> Count(s) == 2)
                   else Undisturbed(s.at[q], x)
  {
  }

  lemma WriterMoves(s: Ctl, p: Proc, c: nat, again: bool, q: Proc)
    requires p in s.at && s.at[p].task == Writer(c) && q in EnterWriter(s, p, c, again).at
    ensures var x := EnterWriter(s, p, c, again).at[q];
      q in s.at && if q == p then x.task == s.at[p].task && !x.where.Ready? && !x.where.OnData?
                   else x == s.at[q]
  {
  }

  lemma EofMoves(s: Ctl, p: Proc, again: bool, q: Proc)
    requires p in s.at && s.at[p].task == EofSender && q in EnterEof(s, p, again).at
    ensures var x := EnterEof(s, p, again).at[q];
      q in s.at && if q == p then x.task == s.at[p].task && x.where.OnEof? else Undisturbed(s.at[q], x)
  {
    hide TellReaders;
    if q in s.at { TellAt(s.(eofp := true), q); }
    TellKeys(s.(eofp := true));
    assert q in TellReaders(s.(eofp := true)).at.Keys <==> q in TellReaders(s.(eofp := true)).at;
  }

  lemma TellAt(s: Ctl, q: Proc)
    requires q in s.at
    ensures q in TellReaders(s).at && Undisturbed(s.at[q], TellReaders(s).at[q])
  {
  }

  lemma TellKeys(s: Ctl)
    ensures TellReaders(s).at.Keys == s.at.Keys
  {
  }

  lemma CloserMoves(s: Ctl, p: Proc, reader: bool, q: Proc)
    requires p in s.at && q in EnterCloser(s, p, reader).at
    ensures q != p && q in s.at && EnterCloser(s, p, reader).at[q] == s.at[q]
  {
  }

  /** After plock and what follows it, by process. */
  lemma EnterMoves(s: Ctl, p: Proc, q: Proc)
    requires Can(s, Go(p)) && q in Enter(s, p).at
    ensures q in s.at
    ensures q != p ==> Undisturbed(s.at[q], Enter(s, p).at[q])
    ensures q == p ==> Enter(s, p).at[p].task == s.at[p].task
    ensures q == p && Enter(s, p).at[p].where.OnData? ==> s.at[p].task.Reader? && Count(s) == 2
  {
    hide EnterReader, EnterWriter, EnterEof, EnterCloser;
    if !s.lock {
      match s.at[p].task
      case Reader(n) => ReaderMoves(s, p, n, q);
      case Writer(c) => WriterMoves(s, p, c, s.at[p].where.again, q);
      case EofSender => EofMoves(s, p, s.at[p].where.again, q);
      case Closer(reader) => CloserMoves(s, p, reader, q);
      case Updater =>
    }
  }

  lemma GoMoves(s: Ctl, p: Proc, q: Proc)
    requires Can(s, Go(p)) && q in Enter(s, p).at
    ensures Moved(s, Go(p), Enter(s, p), q)
  {
    hide Enter;
    EnterMoves(s, p, q);
  }

  lemma ReleaseMoves(s: Ctl, p: Proc, q: Proc)
    requires q in Leave(Release(s), p).at
    ensures q in s.at && q != p && Leave(Release(s), p).at[q].task == s.at[q].task
    ensures Leave(Release(s), p).at[q].where.OnData? ==> s.at[q].where.OnData?
  {
    hide Release;
    ReleaseFacts(s);
    assert q in Release(s).at.Keys;
    ReleaseAt(s, q);
  }

  lemma ReadMoves(s: Ctl, p: Proc, q: Proc)
    requires Can(s, EndRead(p)) && q in ReadEnd(s, p).at
    ensures Moved(s, EndRead(p), ReadEnd(s, p), q)
  {
    hide ReadEnd;
    ReadEndKeys(s, p);
    assert q in ReadEnd(s, p).at.Keys;
    ReadEndWhere(s, p, q);
  }

  lemma ReadEndKeys(s: Ctl, p: Proc)
    requires Can(s, EndRead(p))
    ensures ReadEnd(s, p).at.Keys == s.at.Keys - {p}
  {
    hide Drain, Release;
    ReleaseFacts(Drain(s, s.at[p].task.n));
    DrainKeys(s, s.at[p].task.n);
  }

  lemma DrainKeys(s: Ctl, n: nat)
    requires s.off <= s.size
    ensures Drain(s, n).at.Keys == s.at.Keys
  {
  }

  lemma WriteMoves(s: Ctl, p: Proc, q: Proc)
    requires Can(s, EndWrite(p)) && q in WriteEnd(s, p).at
    ensures Moved(s, EndWrite(p), WriteEnd(s, p), q)
  {
  }

  /** The last close of an end, spelled out: the lock is free and the end is gone, or its closer sleeps. */
  lemma CloseIs(s: Ctl, p: Proc, reader: bool)
    requires p !in s.at
    ensures var t := Wakeups(s);
      CloseEnd(s, p, reader) ==
        if s.lock then Put(if reader then t.(r := Closing, want := true) else t.(w := Closing, want := true),
                           p, Closer(reader), OnLock(false))
        else if reader then t.(r := Gone) else t.(w := Gone)
  {
    var t := Wakeups(s);
    var u := Begun(t, p, reader);
    assert u.at - {p} == t.at;
    assert u.at[p := Spot(Closer(reader), OnLock(false))] == t.at[p := Spot(Closer(reader), OnLock(false))];
  }

  lemma CloseMoves(s: Ctl, p: Proc, reader: bool, q: Proc)
    requires Can(s, Close(p, reader)) && q in CloseEnd(s, p, reader).at
    ensures Moved(s, Close(p, reader), CloseEnd(s, p, reader), q)
  {
    hide Wakeups, CloseEnd;
    CloseIs(s, p, reader);
    RouseKeys(s);
    if q != p {
      assert q in Wakeups(s).at.Keys;
      WakeupsAt(s, q);
    }
  }

  lemma EnterEnds(s: Ctl, p: Proc)
    requires Can(s, Go(p))
    ensures (Enter(s, p).r == s.r || Enter(s, p).r.Gone?) && (Enter(s, p).w == s.w || Enter(s, p).w.Gone?)
  {
    hide EnterReader, EnterWriter, EnterEof;
    if !s.lock {
      match s.at[p].task
      case Reader(n) => ReaderEnds(s, p, n);
      case Writer(c) => WriterEnds(s, p, c, s.at[p].where.again);
      case EofSender => EofEnds(s, p, s.at[p].where.again);
      case _ =>
    }
  }

  lemma ReaderEnds(s: Ctl, p: Proc, n: nat)
    ensures EnterReader(s, p, n).r == s.r && EnterReader(s, p, n).w == s.w
  {
  }

  lemma WriterEnds(s: Ctl, p: Proc, c: nat, again: bool)
    ensures EnterWriter(s, p, c, again).r == s.r && EnterWriter(s, p, c, again).w == s.w
  {
  }

  lemma EofEnds(s: Ctl, p: Proc, again: bool)
    ensures EnterEof(s, p, again).r == s.r && EnterEof(s, p, again).w == s.w
  {
  }

  lemma EndsOfEnd(s: Ctl, p: Proc)
    ensures Can(s, EndRead(p)) ==> ReadEnd(s, p).r == s.r && ReadEnd(s, p).w == s.w
    ensures Can(s, EndWrite(p)) ==> WriteEnd(s, p).r == s.r && WriteEnd(s, p).w == s.w
  {
  }

  /** An end that is gone stays gone. */
  lemma StepEnds(s: Ctl, step: Step)
    ensures s.r.Gone? ==> Apply(s, step).r.Gone?
    ensures s.w.Gone? ==> Apply(s, step).w.Gone?
  {
    hide CloseEnd, Wakeups, Enter, ReadEnd, WriteEnd, Release;
    WakeupsEnds(s);
    if Can(s, step) {
      match step
      case Go(p) => EnterEnds(s, p);
      case EndRead(p) => EndsOfEnd(s, p);
      case EndWrite(p) => EndsOfEnd(s, p);
      case Close(p, reader) => CloseIs(s, p, reader);
      case EndUpdate(p) => ReleaseFacts(s);
      case _ =>
    }
  }

  lemma WakeupsEnds(s: Ctl)
    ensures Wakeups(s).r == s.r && Wakeups(s).w == s.w && Wakeups(s).eofp == s.eofp && Wakeups(s).lock == s.lock
    ensures Wakeups(s).size == s.size && Wakeups(s).want == s.want && Wakeups(s).off == s.off
  {
  }

  lemma NoWritersKept(s: Ctl, step: Step)
    requires NoWriters(s)
    ensures NoWriters(Apply(s, step))
  {
    hide Apply;
    var s' := Apply(s, step);
    StepEnds(s, step);
    forall q | q in s'.at ensures !OnWriteEnd(s'.at[q].task) && !s'.at[q].where.OnData? {
      StepMoves(s, step, q);
    }
  }

  lemma NoWritersFine(s: Ctl)
    requires Ok(s) && NoWriters(s)
    ensures !Stranded(s)
  {
    forall p | p in s.at ensures !Lost(s, p) {
      assert Justified(s, s.at[p]);
    }
  }

  lemma {:induction false} NoWritersRun(s: Ctl, steps: seq<Step>)
    requires Ok(s) && NoWriters(s)
    ensures !Stranded(Run(s, steps))
    decreases |steps|
  {
    hide Ok, NoWriters, Stranded;
    NoWritersFine(s);
    if steps != [] {
      ApplyOk(s, steps[0]);
      NoWritersKept(s, steps[0]);
      NoWritersRun(Apply(s, steps[0]), steps[1..]);
    }
  }

  lemma WriteEndGoes(s: Ctl, p: Proc)
    requires Ok(s) && Can(s, Close(p, false)) && !s.lock
    ensures NoWriters(CloseEnd(s, p, false))
  {
    hide CloseEnd, Wakeups;
    var t := CloseEnd(s, p, false);
    CloseIs(s, p, false);
    RouseKeys(s);
    forall q | q in t.at ensures !OnWriteEnd(t.at[q].task) && !t.at[q].where.OnData? {
      assert q in Wakeups(s).at.Keys;
      WakeupsAt(s, q);
    }
  }

  // ------------------------------------------------------------ the read end goes with the lock free

  ghost function Again(s: Ctl): set<Proc> {
    set p | p in s.at && (s.at[p].where == Ready(true) || s.at[p].where == OnLock(true))
  }

  ghost function InWritei(s: Ctl): set<Proc> {
    set p | p in s.at && s.at[p].where.Busy? && !s.at[p].task.Updater?
  }

  /** Those still in the loop can all leave it, counting what the one in writei will add. */
  ghost predicate CanLeave(s: Ctl) {
    && (s.eofp ==> Again(s) == {})
    && (forall p :: p in Again(s) && s.at[p].task.EofSender? ==> Again(s) == {p} && InWritei(s) == {})
    && ((forall p :: p in Again(s) ==> s.at[p].task.Writer?) ==>
          forall p :: p in Again(s) ==> Total(s.at, Again(s) + InWritei(s) - {p}) < PIPSIZ - s.size)
  }

  ghost predicate NoneAsleep(s: Ctl) {
    && s.r.Gone? && Unused(s, true)
    && forall p :: p in s.at ==> !s.at[p].where.OnRoom? && !s.at[p].where.OnEof? && !s.at[p].where.OnData?
  }

  /** After the read end has gone safely: nobody sleeps but for the lock, and the loop can be left. */
  ghost predicate NoReaders(s: Ctl) {
    NoneAsleep(s) && CanLeave(s)
  }

  lemma NoReadersFine(s: Ctl)
    requires NoReaders(s)
    ensures !Stranded(s)
  {
  }

  lemma SameLoop(s: Ctl, s': Ctl)
    requires CanLeave(s) && s'.eofp == s.eofp && s'.size == s.size && Again(s') == Again(s)
    requires InWritei(s') == InWritei(s)
    requires forall p :: p in Again(s) + InWritei(s) ==> s'.at[p].task == s.at[p].task
    ensures CanLeave(s')
  {
    forall p | p in Again(s')
      ensures Total(s'.at, Again(s) + InWritei(s) - {p}) == Total(s.at, Again(s) + InWritei(s) - {p})
    {
      TotalSame(s.at, s'.at, Again(s) + InWritei(s) - {p});
    }
  }

  lemma InAgain(s: Ctl, p: Proc)
    ensures p in Again(s) <==> p in s.at && (s.at[p].where == Ready(true) || s.at[p].where == OnLock(true))
    ensures p in InWritei(s) <==> p in s.at && s.at[p].where.Busy? && !s.at[p].task.Updater?
  {
  }

  /** In the loop, with no end of file pending, and room for what all the others have to write. */
  lemma LoopWriter(s: Ctl, p: Proc)
    requires CanLeave(s) && p in Again(s) && s.at[p].task.Writer? && s.size <= PIPSIZ
    requires forall q :: q in Again(s) ==> OnWriteEnd(s.at[q].task)
    ensures !s.eofp && s.size < PIPSIZ && forall q :: q in Again(s) ==> s.at[q].task.Writer?
    ensures forall q :: q in Again(s) ==> Total(s.at, Again(s) + InWritei(s) - {q}) < PIPSIZ - s.size
  {
    forall q | q in Again(s) ensures s.at[q].task.Writer? {
      assert s.at[q].task.EofSender? ==> Again(s) == {q};
    }
  }

  lemma AgainTasks(s: Ctl)
    requires Ok(s)
    ensures forall q :: q in Again(s) ==> OnWriteEnd(s.at[q].task)
    ensures forall q :: q in InWritei(s) ==> s.lock && (OnReadEnd(s.at[q].task) || s.at[q].task.Writer?)
    ensures !s.lock ==> InWritei(s) == {}
  {
    forall q | q in s.at ensures Justified(s, s.at[q]) {
    }
  }

  /** A writer in the loop gets the lock and goes on to writei. */
  lemma WriterGoesOn(s: Ctl, p: Proc)
    requires Ok(s) && NoReaders(s) && p in s.at && s.at[p].where == Ready(true) && s.at[p].task.Writer? && !s.lock
    ensures NoReaders(Enter(s, p))
  {
    hide Ok, Total;
    AgainTasks(s);
    LoopWriter(s, p);
    var s' := Put(s.(lock := true), p, s.at[p].task, Busy);
    assert s' == Enter(s, p);
    OneInWritei(s, p);
    forall q | q in Again(s') ensures Total(s'.at, Again(s') + InWritei(s') - {q}) < PIPSIZ - s'.size {
      TotalSame(s.at, s'.at, Again(s) + InWritei(s) - {q});
    }
  }

  lemma OneInWritei(s: Ctl, p: Proc)
    requires p in s.at && s.at[p].where == Ready(true) && InWritei(s) == {} && !s.at[p].task.Updater?
    ensures var s' := Put(s.(lock := true), p, s.at[p].task, Busy);
      Again(s') == Again(s) - {p} && InWritei(s') == {p} && Again(s') + InWritei(s') == Again(s) + InWritei(s)
  {
    var s' := Put(s.(lock := true), p, s.at[p].task, Busy);
    forall q ensures (q in Again(s') <==> q in Again(s) && q != p) && (q in InWritei(s') <==> q == p) {
      InAgain(s, q);
      InAgain(s', q);
    }
    InAgain(s, p);
  }

  /** An eofp caller in the loop is alone there, and leaves its end of file. */
  lemma EofGoesOn(s: Ctl, p: Proc)
    requires Ok(s) && NoReaders(s) && p in s.at && s.at[p].where == Ready(true) && s.at[p].task.EofSender? && !s.lock
    ensures NoReaders(Enter(s, p))
  {
    hide Ok, Total;
    AgainTasks(s);
    InAgain(s, p);
    var s' := Enter(s, p);
    assert !s.eofp;
    assert forall q :: q in s'.at ==> q in s.at && q != p && s'.at[q] == s.at[q];
    assert Again(s') == {};
  }

  /** Anyone else that gets the lock finds fewer than two ends, or is the closer: it leaves. */
  lemma OthersLeave(s: Ctl, p: Proc)
    requires Ok(s) && NoReaders(s) && p in s.at && s.at[p].where == Ready(false) && !s.lock
    ensures NoReaders(Enter(s, p))
  {
    hide Ok, NoReaders, Enter;
    OthersGo(s, p);
    var s' := Enter(s, p);
    GoneOne(s, s', p);
  }

  lemma OthersGo(s: Ctl, p: Proc)
    requires NoReaders(s) && p in s.at && s.at[p].where == Ready(false) && !s.lock
    ensures var s' := Enter(s, p); s' == s.(r := s'.r, w := s'.w, at := s.at - {p}) && s'.r.Gone?
  {
    hide CanLeave, EnterWriter, EnterEof;
    match s.at[p].task
    case Writer(c) => WriterLeaves(s, p, c);
    case EofSender => EofLeaves(s, p);
    case _ =>
  }

  lemma WriterLeaves(s: Ctl, p: Proc, c: nat)
    requires s.r.Gone?
    ensures EnterWriter(s, p, c, false) == Leave(s, p)
  {
  }

  lemma EofLeaves(s: Ctl, p: Proc)
    requires s.r.Gone?
    ensures EnterEof(s, p, false) == Leave(s, p)
  {
  }

  lemma GoneOne(s: Ctl, s': Ctl, p: Proc)
    requires NoReaders(s) && p in s.at && s.at[p].where == Ready(false)
    requires s' == s.(r := s'.r, w := s'.w, at := s.at - {p}) && s'.r.Gone?
    ensures NoReaders(s')
  {
    hide CanLeave, Total;
    assert Again(s') == Again(s) && InWritei(s') == InWritei(s);
    SameLoop(s, s');
  }

  /** The lock is not free: to sleep for it is to stay where one is. */
  lemma BlockedStays(s: Ctl, p: Proc)
    requires NoReaders(s) && p in s.at && s.at[p].where.Ready? && s.lock
    ensures NoReaders(Enter(s, p))
  {
    hide Total;
    var s' := Enter(s, p);
    assert Again(s') == Again(s) && InWritei(s') == InWritei(s);
    SameLoop(s, s');
  }

  /** The end of writei: what it wrote was allowed for. */
  lemma WroteIn(s: Ctl, p: Proc)
    requires Ok(s) && NoReaders(s) && Can(s, EndWrite(p))
    ensures NoReaders(WriteEnd(s, p))
  {
    hide Ok, Total, WriteEnd;
    AgainTasks(s);
    OnlyBusy(s, p);
    var s' := WriteEnd(s, p);
    WroteAt(s, p);
    var c := s.at[p].task.c;
    forall q | q in Again(s')
      ensures s'.at[q].task.Writer? ==> Total(s'.at, Again(s') + InWritei(s') - {q}) < PIPSIZ - s'.size
    {
      if s.at[q].task.Writer? {
        LoopWriter(s, q);
        var all := Again(s) + InWritei(s) - {q};
        TotalSplit(s.at, all, p);
        assert all - {p} == Again(s') + InWritei(s') - {q};
        TotalSame(s.at, s'.at, all - {p});
      }
    }
  }

  lemma OnlyBusy(s: Ctl, p: Proc)
    requires Ok(s) && p in s.at && s.at[p].where.Busy? && !s.at[p].task.Updater?
    ensures InWritei(s) == {p} && (s.at[p].task.Writer? ==> !s.eofp && s.size < PIPSIZ)
  {
    assert Justified(s, s.at[p]);
  }

  /** Where everyone is after writei: the writer ready at the top of its loop, those asleep for the lock ready. */
  lemma WroteAt(s: Ctl, p: Proc)
    requires Ok(s) && NoReaders(s) && Can(s, EndWrite(p)) && InWritei(s) == {p}
    ensures var s' := WriteEnd(s, p);
      && NoneAsleep(s') && Again(s') == Again(s) && InWritei(s') == {} && s'.eofp == s.eofp
      && s'.size == s.size + Min(s.at[p].task.c, PIPSIZ - s.size)
      && forall q :: q in s.at && q != p ==> q in s'.at && s'.at[q].task == s.at[q].task
  {
    hide Ok, CanLeave, Total, WriteEnd;
    var s' := WriteEnd(s, p);
    WroteFacts(s, p);
    forall q | q in s'.at
      ensures q in s.at && !s'.at[q].where.OnRoom? && !s'.at[q].where.OnEof? && !s'.at[q].where.OnData?
      ensures !s'.at[q].where.Busy? && (q in Again(s) <==> q in Again(s')) && SameEnd(s'.at[q].task, s.at[q].task)
      ensures q != p ==> s'.at[q].task == s.at[q].task
    {
      assert q in s'.at.Keys;
      WantedLock(s, q);
      InAgain(s, q);
      InAgain(s', q);
      OneBusy(s, p, q);
      if q != p { WroteOne(s, p, q); }
    }
    assert forall q :: q in s.at ==> q in s'.at.Keys;
  }

  lemma OneBusy(s: Ctl, p: Proc, q: Proc)
    requires Ok(s) && p in s.at && q in s.at && s.at[p].where.Busy?
    ensures s.at[q].where.Busy? ==> q == p
  {
  }

  lemma WantedLock(s: Ctl, q: Proc)
    requires Ok(s) && q in s.at
    ensures s.at[q].where.OnLock? ==> s.want
  {
    assert Justified(s, s.at[q]);
  }

  lemma WroteFacts(s: Ctl, p: Proc)
    requires Can(s, EndWrite(p))
    ensures var s' := WriteEnd(s, p);
      && s'.at.Keys == s.at.Keys && s'.eofp == s.eofp && s'.r == s.r && s'.w == s.w && !s'.lock && !s'.want
      && s'.size == s.size + Min(s.at[p].task.c, PIPSIZ - s.size) && p in s'.at
      && s'.at[p] == Spot(Writer(s.at[p].task.c - Min(s.at[p].task.c, PIPSIZ - s.size)), Ready(false))
  {
  }

  lemma WroteOne(s: Ctl, p: Proc, q: Proc)
    requires Can(s, EndWrite(p)) && q in s.at && q != p && (s.at[q].where.OnLock? ==> s.want)
    ensures q in WriteEnd(s, p).at && WriteEnd(s, p).at[q].task == s.at[q].task
    ensures WriteEnd(s, p).at[q].where == match s.at[q].where
      case OnLock(a) => Ready(a)
      case OnData => if s.iread then Ready(false) else OnData
      case x => x
  {
  }

  /** No end of file, no process asleep for anything but the lock, nobody in readi: what a step can do. */
  lemma NoReadersKept(s: Ctl, step: Step)
    requires Ok(s) && NoReaders(s)
    ensures NoReaders(Apply(s, step))
  {
    hide Ok, NoReaders, Enter, WriteEnd, CloseEnd, Wakeups, Release;
    if Can(s, step) {
      match step
      case Call(p, task) => CalledStays(s, p, task);
      case Go(p) => GoStays(s, p);
      case EndRead(p) => NobodyReads(s, p);
      case EndWrite(p) => WroteIn(s, p);
      case Close(p, reader) => CloseStays(s, p, reader);
      case CloseShared => SharedStays(s);
      case Update(p) => UpdateStays(s, p);
      case EndUpdate(p) => EndUpdateStays(s, p);
    }
  }

  lemma CalledStays(s: Ctl, p: Proc, task: Task)
    requires NoReaders(s) && Can(s, Call(p, task))
    ensures NoReaders(Put(s, p, task, Ready(false)))
  {
    hide CanLeave, Again, InWritei;
    var s' := Put(s, p, task, Ready(false));
    forall q ensures (q in Again(s') <==> q in Again(s)) && (q in InWritei(s') <==> q in InWritei(s)) {
      InAgain(s, q);
      InAgain(s', q);
    }
    assert Again(s') == Again(s) && InWritei(s') == InWritei(s);
    forall q | q in Again(s) + InWritei(s) ensures q in s.at && q in s'.at && s'.at[q].task == s.at[q].task {
      InAgain(s, q);
    }
    SameLoop(s, s');
  }

  lemma UpdateStays(s: Ctl, p: Proc)
    requires NoReaders(s) && Can(s, Update(p))
    ensures NoReaders(UpdateStart(s, p))
  {
    hide CanLeave, Again, InWritei;
    var s' := UpdateStart(s, p);
    forall q ensures (q in Again(s') <==> q in Again(s)) && (q in InWritei(s') <==> q in InWritei(s)) {
      InAgain(s, q);
      InAgain(s', q);
    }
    assert Again(s') == Again(s) && InWritei(s') == InWritei(s);
    forall q | q in Again(s) + InWritei(s) ensures q in s.at && q in s'.at && s'.at[q].task == s.at[q].task {
      InAgain(s, q);
    }
    SameLoop(s, s');
  }

  lemma EndUpdateStays(s: Ctl, p: Proc)
    requires Ok(s) && NoReaders(s) && Can(s, EndUpdate(p))
    ensures NoReaders(Leave(Release(s), p))
  {
    hide Ok, CanLeave, Again, InWritei, Release;
    var s' := Leave(Release(s), p);
    ReleaseFacts(s);
    ReleaseRest(s);
    forall q
      ensures (q in Again(s') <==> q in Again(s)) && (q in InWritei(s') <==> q in InWritei(s))
      ensures q in s'.at ==> q in s.at && s'.at[q].task == s.at[q].task && !s'.at[q].where.OnRoom?
                             && !s'.at[q].where.OnEof? && !s'.at[q].where.OnData?
      ensures q in Again(s) + InWritei(s) ==> q in s'.at
    {
      InAgain(s, q);
      InAgain(s', q);
      assert q in Release(s).at.Keys <==> q in Release(s).at;
      if q in s.at {
        ReleaseAt(s, q);
        WantedLock(s, q);
      }
    }
    assert Again(s') == Again(s) && InWritei(s') == InWritei(s);
    SameLoop(s, s');
  }

  lemma GoStays(s: Ctl, p: Proc)
    requires Ok(s) && NoReaders(s) && Can(s, Go(p))
    ensures NoReaders(Enter(s, p))
  {
    hide Ok, NoReaders, Enter;
    if s.lock {
      BlockedStays(s, p);
    } else if s.at[p].where == Ready(false) {
      OthersLeave(s, p);
    } else {
      AgainTasks(s);
      InAgain(s, p);
      if s.at[p].task.Writer? { WriterGoesOn(s, p); } else { EofGoesOn(s, p); }
    }
  }

  lemma NobodyReads(s: Ctl, p: Proc)
    requires NoReaders(s)
    ensures !Can(s, EndRead(p))
  {
  }

  lemma SharedStays(s: Ctl)
    requires NoReaders(s)
    ensures NoReaders(Wakeups(s))
  {
    hide Total, Wakeups;
    var s' := Wakeups(s);
    WakeupsEnds(s);
    RouseKeys(s);
    forall q | q in s.at ensures q in s'.at && s'.at[q] == s.at[q] {
      assert q in s'.at.Keys;
      WakeupsAt(s, q);
    }
    assert forall q :: q in s'.at ==> q in s'.at.Keys && q in s.at;
    assert Again(s') == Again(s) && InWritei(s') == InWritei(s);
    SameLoop(s, s');
  }

  /** The write end goes too: nobody is left in the loop. */
  lemma CloseStays(s: Ctl, p: Proc, reader: bool)
    requires Ok(s) && NoReaders(s) && Can(s, Close(p, reader))
    ensures NoReaders(CloseEnd(s, p, reader))
  {
    hide Ok, CanLeave, Wakeups, CloseEnd, Again, InWritei;
    SharedStays(s);
    CloseIs(s, p, reader);
    RouseKeys(s);
    WakeupsEnds(s);
    var t := Wakeups(s);
    forall q | q in t.at ensures q in s.at && t.at[q].task == s.at[q].task {
      assert q in t.at.Keys;
      WakeupsAt(s, q);
    }
    WakeupsOk(s);
    AgainTasks(t);
    forall q ensures q !in Again(t) {
      InAgain(t, q);
    }
    assert p !in t.at.Keys;
    NoneAgain(t, CloseEnd(s, p, reader), p);
  }

  lemma NoneAgain(t: Ctl, s: Ctl, p: Proc)
    requires NoneAsleep(t) && Again(t) == {} && s.r.Gone? && p !in t.at
    requires s.at == t.at || s.at == t.at[p := Spot(Closer(false), OnLock(false))]
    ensures NoReaders(s)
  {
    hide Total;
    forall q ensures q !in Again(s) {
      InAgain(t, q);
      InAgain(s, q);
    }
    assert Again(s) == {};
  }

  lemma {:induction false} NoReadersRun(s: Ctl, steps: seq<Step>)
    requires Ok(s) && NoReaders(s)
    ensures !Stranded(Run(s, steps))
    decreases |steps|
  {
    hide Ok, NoReaders, Stranded;
    NoReadersFine(s);
    if steps != [] {
      ApplyOk(s, steps[0]);
      NoReadersKept(s, steps[0]);
      NoReadersRun(Apply(s, steps[0]), steps[1..]);
    }
  }

  lemma ReadEndGoes(s: Ctl, p: Proc)
    requires Ok(s) && Can(s, Close(p, true)) && CloseSafe(s, true) && s.w.Open?
    ensures NoReaders(CloseEnd(s, p, true))
  {
    hide Ok, Wakeups, CloseEnd, LoopSafe, CanLeave;
    var t := CloseEnd(s, p, true);
    WakeupsEnds(s);
    CloseIs(s, p, true);
    RouseKeys(s);
    NoneBusy(s);
    assert t.at == Wakeups(s).at && t.at.Keys == s.at.Keys;
    forall q | q in s.at
      ensures q in t.at && t.at[q].task == s.at[q].task && !t.at[q].where.OnRoom? && !t.at[q].where.OnEof?
      ensures !t.at[q].where.OnData? && !t.at[q].where.Busy?
      ensures (t.at[q].where == Ready(true) || t.at[q].where == OnLock(true)) <==> q in InLoop(s)
    {
      WakeupsAt(s, q);
    }
    LoopLeft(s, t);
  }

  lemma LoopLeft(s: Ctl, t: Ctl)
    requires LoopSafe(s, InLoop(s), PIPSIZ - s.size) && t.at.Keys == s.at.Keys && t.eofp == s.eofp && t.size == s.size
    requires forall q :: q in s.at ==>
      && q in t.at && t.at[q].task == s.at[q].task && !t.at[q].where.Busy?
      && ((t.at[q].where == Ready(true) || t.at[q].where == OnLock(true)) <==> q in InLoop(s))
    ensures CanLeave(t)
  {
    hide Total;
    assert forall q :: q in t.at <==> q in t.at.Keys;
    assert Again(t) == InLoop(s) && InWritei(t) == {};
    forall q | q in Again(t) ensures Total(t.at, Again(t) + InWritei(t) - {q}) == Total(s.at, InLoop(s) - {q}) {
      assert Again(t) + InWritei(t) - {q} == InLoop(s) - {q};
      TotalSame(s.at, t.at, InLoop(s) - {q});
    }
  }

  // ------------------------------------------------------------ the other end has gone before

  /** Nobody is left but closers and update. */
  ghost predicate Deserted(s: Ctl) {
    !s.r.Open? && !s.w.Open? && forall p :: p in s.at ==> s.at[p].task.Closer? || s.at[p].task.Updater?
  }

  lemma BothGo(s: Ctl, p: Proc, reader: bool)
    requires Ok(s) && Can(s, Close(p, reader)) && !OtherOpen(s, reader)
    ensures Deserted(CloseEnd(s, p, reader))
  {
    hide CloseEnd, Wakeups, Justified;
    var t := CloseEnd(s, p, reader);
    CloseIs(s, p, reader);
    WakeupsEnds(s);
    RouseKeys(s);
    forall q | q in t.at ensures t.at[q].task.Closer? || t.at[q].task.Updater? {
      if q != p {
        assert q in Wakeups(s).at.Keys;
        WakeupsAt(s, q);
      }
    }
  }

  lemma DesertedKept(s: Ctl, step: Step)
    requires Deserted(s)
    ensures Deserted(Apply(s, step))
  {
    hide Apply, Deserted;
    var s' := Apply(s, step);
    OpenKept(s, step);
    forall q | q in s'.at ensures s'.at[q].task.Closer? || s'.at[q].task.Updater? {
      StepMoves(s, step, q);
      DesertedAt(s, step, s', q);
    }
    assert Deserted(s') by { IsDeserted(s'); }
  }

  lemma IsDeserted(s: Ctl)
    requires !s.r.Open? && !s.w.Open? && forall p :: p in s.at ==> s.at[p].task.Closer? || s.at[p].task.Updater?
    ensures Deserted(s)
  {
  }

  lemma DesertedAt(s: Ctl, step: Step, s': Ctl, q: Proc)
    requires Deserted(s) && q in s'.at && Moved(s, step, s', q)
    ensures s'.at[q].task.Closer? || s'.at[q].task.Updater?
  {
  }

  /** An end that is not open does not become so. */
  lemma OpenKept(s: Ctl, step: Step)
    requires Deserted(s)
    ensures !Apply(s, step).r.Open? && !Apply(s, step).w.Open?
  {
    hide CloseEnd, Wakeups, Enter, ReadEnd, WriteEnd, Release;
    WakeupsEnds(s);
    if Can(s, step) {
      match step
      case Go(p) => EnterEnds(s, p);
      case EndRead(p) => EndsOfEnd(s, p);
      case EndWrite(p) => EndsOfEnd(s, p);
      case EndUpdate(p) => ReleaseFacts(s);
      case _ =>
    }
  }

  lemma DesertedFine(s: Ctl)
    requires Ok(s) && Deserted(s)
    ensures !Stranded(s)
  {
    forall p | p in s.at ensures !Lost(s, p) {
      assert Justified(s, s.at[p]);
    }
  }

  lemma {:induction false} DesertedRun(s: Ctl, steps: seq<Step>)
    requires Ok(s) && Deserted(s)
    ensures !Stranded(Run(s, steps))
    decreases |steps|
  {
    hide Ok, Deserted, Stranded;
    DesertedFine(s);
    if steps != [] {
      ApplyOk(s, steps[0]);
      DesertedKept(s, steps[0]);
      DesertedRun(Apply(s, steps[0]), steps[1..]);
    }
  }

  // ------------------------------------------------------------ runs that strand

  /** In the loop behind an end of file that nobody will read. */
  lemma StrandBehindEof(s: Ctl, p: Proc) returns (steps: seq<Step>)
    requires s.eofp && s.r.Gone? && !s.lock && p in s.at && s.at[p].where == Ready(true) && OnWriteEnd(s.at[p].task)
    ensures Stranded(Run(s, steps))
  {
    steps := [Go(p)];
    RunOne(s, Go(p));
    assert Lost(Enter(s, p), p);
  }

  /** Two in the loop, one of them an eofp caller: its end of file holds up the other for good. */
  lemma StrandByEof(s: Ctl, e: Proc, p: Proc) returns (steps: seq<Step>)
    requires !s.eofp && s.r.Gone? && !s.lock && e != p
    requires e in s.at && s.at[e] == Spot(EofSender, Ready(true))
    requires p in s.at && s.at[p].where == Ready(true) && OnWriteEnd(s.at[p].task)
    ensures Stranded(Run(s, steps))
  {
    var t := Enter(s, e);
    assert p in t.at && t.at[p] == s.at[p];
    steps := StrandBehindEof(t, p);
    RunMore(s, Go(e), steps);
    steps := [Go(e)] + steps;
  }

  /** A writer goes through its turn: the others in the loop stay, with that much less room. */
  lemma OneTurn(s: Ctl, x: Proc)
    requires !s.eofp && !s.lock && !s.want && s.size < PIPSIZ && x in s.at && s.at[x].where == Ready(true)
    requires s.at[x].task.Writer?
    ensures Can(s, Go(x)) && Can(Enter(s, x), EndWrite(x))
    ensures var t := WriteEnd(Enter(s, x), x);
      && !t.eofp && !t.lock && !t.want && t.r == s.r && t.w == s.w
      && t.size == s.size + Min(s.at[x].task.c, PIPSIZ - s.size)
      && forall q :: q in s.at && q != x && s.at[q].where == Ready(true) ==> q in t.at && t.at[q] == s.at[q]
  {
  }

  /** The others fill the pipe, and then there is no room for `w`, and never will be. */
  lemma StrandByFilling(s: Ctl, others: set<Proc>, w: Proc) returns (steps: seq<Step>)
    requires !s.eofp && s.r.Gone? && !s.lock && !s.want && s.size <= PIPSIZ && w !in others
    requires forall q :: q in others + {w} ==> q in s.at && s.at[q].where == Ready(true) && s.at[q].task.Writer?
    requires Total(s.at, others) >= PIPSIZ - s.size
    ensures Stranded(Run(s, steps))
    decreases others
  {
    if s.size == PIPSIZ {
      assert w in others + {w};
      steps := [Go(w)];
      RunOne(s, Go(w));
      assert Lost(Enter(s, w), w);
    } else {
      assert others != {};
      var x :| x in others;
      assert x in others + {w};
      OneTurn(s, x);
      var u := Enter(s, x);
      var t := WriteEnd(u, x);
      TotalSplit(s.at, others, x);
      forall q | q in others - {x} + {w} ensures q in t.at && t.at[q] == s.at[q] {
        assert q in others + {w};
      }
      TotalSame(s.at, t.at, others - {x});
      steps := StrandByFilling(t, others - {x}, w);
      RunMore(u, EndWrite(x), steps);
      RunMore(s, Go(x), [EndWrite(x)] + steps);
      steps := [Go(x)] + ([EndWrite(x)] + steps);
    }
  }

  /** The read end goes with the lock free but the loop not safe. */
  lemma LoopStrands(s: Ctl, p: Proc) returns (steps: seq<Step>)
    requires Ok(s) && Can(s, Close(p, true)) && !s.lock && !CloseSafe(s, true)
    ensures Stranded(Run(CloseEnd(s, p, true), steps))
  {
    hide CloseEnd, Wakeups, Ok, Total;
    var t := CloseEnd(s, p, true);
    ReadEndGone(s, p);
    var loop := InLoop(s);
    if s.eofp {
      var x :| x in loop;
      steps := StrandBehindEof(t, x);
    } else if e :| e in loop && s.at[e].task.EofSender? && loop != {e} {
      var x :| x in loop && x != e;
      steps := StrandByEof(t, e, x);
    } else {
      var w :| w in loop && Total(s.at, loop - {w}) >= PIPSIZ - s.size;
      TotalSame(s.at, t.at, loop - {w});
      steps := StrandByFilling(t, loop - {w}, w);
    }
  }

  /** With the lock free everyone in the loop is about to look at IEOFP again, and the read end is gone. */
  lemma ReadEndGone(s: Ctl, p: Proc)
    requires Ok(s) && Can(s, Close(p, true)) && !s.lock
    ensures var t := CloseEnd(s, p, true);
      && t.r.Gone? && !t.lock && !t.want && t.eofp == s.eofp && t.size == s.size <= PIPSIZ
      && forall q :: q in InLoop(s) ==>
           q in t.at && t.at[q] == Spot(s.at[q].task, Ready(true)) && OnWriteEnd(s.at[q].task)
  {
    hide CloseEnd, Wakeups;
    WakeupsEnds(s);
    CloseIs(s, p, true);
    RouseKeys(s);
    NoneBusy(s);
    forall q | q in InLoop(s)
      ensures q in Wakeups(s).at && Wakeups(s).at[q] == Spot(s.at[q].task, Ready(true)) && OnWriteEnd(s.at[q].task)
    {
      assert q in Wakeups(s).at.Keys && Justified(s, s.at[q]);
      WakeupsAt(s, q);
    }
  }

  // ------------------------------------------------------------ the lock is held

  /** Somebody closes the `reader` end and waits for the lock, which is now free; nobody is in a call on
      the other end but perhaps `h`. */
  ghost predicate Poised(s: Ctl, p: Proc, h: Proc) {
    && !s.lock && !s.want && s.size <= PIPSIZ && (s.off < s.size || (s.off == 0 && s.size == 0)) && h != p
    && p in s.at && s.at[p].where == Ready(false) && s.at[p].task.Closer?
    && if s.at[p].task.reader then s.r.Closing? && s.w.Open? else s.w.Closing? && s.r.Open?
  }

  /** The last words: a reader that finds nothing while the closer is still to be counted. */
  lemma StrandReader(s: Ctl, p: Proc, h: Proc) returns (steps: seq<Step>)
    requires Poised(s, p, h) && !s.at[p].task.reader && h !in s.at && s.size == 0 && !s.eofp
    ensures Stranded(Run(s, steps))
  {
    var s1 := Apply(s, Call(h, Reader(1)));
    var s2 := Apply(s1, Go(h));
    assert s2 == Put(s1.(iread := true), h, Reader(1), OnData);
    var s3 := Apply(s2, Go(p));
    assert Lost(s3, h);
    steps := [Go(p)];
    RunOne(s2, Go(p));
    RunMore(s1, Go(h), steps);
    steps := [Go(h)] + steps;
    RunMore(s, Call(h, Reader(1)), steps);
    steps := [Call(h, Reader(1))] + steps;
  }

  lemma StrandPastEof(s: Ctl, p: Proc, h: Proc) returns (steps: seq<Step>)
    requires Poised(s, p, h) && !s.at[p].task.reader && h !in s.at && s.size == 0
    ensures Stranded(Run(s, steps))
  {
    if s.eofp {
      var s1 := Apply(s, Call(h, Reader(1)));
      var s2 := Apply(s1, Go(h));
      assert !s2.eofp && h !in s2.at && p in s2.at && s2.at[p] == s.at[p];
      steps := StrandReader(s2, p, h);
      RunMore(s1, Go(h), steps);
      steps := [Go(h)] + steps;
      RunMore(s, Call(h, Reader(1)), steps);
      steps := [Call(h, Reader(1))] + steps;
    } else {
      steps := StrandReader(s, p, h);
    }
  }

  /** ... having read all there was. */
  lemma StrandByDraining(s: Ctl, p: Proc, h: Proc) returns (steps: seq<Step>)
    requires Poised(s, p, h) && !s.at[p].task.reader && h !in s.at
    ensures Stranded(Run(s, steps))
  {
    if s.size == 0 {
      steps := StrandPastEof(s, p, h);
    } else {
      var s1 := Apply(s, Call(h, Reader(PIPSIZ)));
      var s2 := Apply(s1, Go(h));
      assert s2 == Put(s1.(lock := true), h, Reader(PIPSIZ), Busy);
      var s3 := Apply(s2, EndRead(h));
      Drained(s2, h, p);
      steps := StrandPastEof(s3, p, h);
      RunMore(s2, EndRead(h), steps);
      steps := [EndRead(h)] + steps;
      RunMore(s1, Go(h), steps);
      steps := [Go(h)] + steps;
      RunMore(s, Call(h, Reader(PIPSIZ)), steps);
      steps := [Call(h, Reader(PIPSIZ))] + steps;
    }
  }

  /** The end of a read, for the closer and the state of the pipe. */
  lemma Drained(s: Ctl, h: Proc, p: Proc)
    requires Can(s, EndRead(h)) && p in s.at && p != h && s.size <= PIPSIZ
    requires s.at[p].where == Ready(false) || (s.at[p].where == OnLock(false) && s.want)
    ensures var t := ReadEnd(s, h);
      && !t.lock && !t.want && h !in t.at && p in t.at && t.at[p] == Spot(s.at[p].task, Ready(false))
      && t.r == s.r && t.w == s.w && t.size <= PIPSIZ && (t.off < t.size || (t.off == 0 && t.size == 0))
      && (s.at[h].task.n >= PIPSIZ ==> t.size == 0)
  {
    hide ReadEnd;
    ReadEndFacts(s, h);
    ReadEndWhere(s, h, p);
    assert h !in ReadEnd(s, h).at.Keys;
  }

  /** A writer, ready at the top of its loop with more to write and no room, sleeps before the closer runs. */
  lemma StrandWriter(s: Ctl, p: Proc, h: Proc) returns (steps: seq<Step>)
    requires Poised(s, p, h) && s.at[p].task.reader && !s.eofp && s.size == PIPSIZ
    requires h in s.at && s.at[h].where == Ready(false) && s.at[h].task.Writer? && s.at[h].task.c > 0
    ensures Stranded(Run(s, steps))
  {
    var c := s.at[h].task.c;
    var s1 := Apply(s, Go(h));
    assert s1 == Put(s.(iwrite := true), h, Writer(c), OnRoom);
    var s2 := Apply(s1, Go(p));
    assert Lost(s2, h);
    steps := [Go(p)];
    RunOne(s1, Go(p));
    RunMore(s, Go(h), steps);
    steps := [Go(h)] + steps;
  }

  /** ... having filled the pipe. */
  lemma StrandByWriting(s: Ctl, p: Proc, h: Proc) returns (steps: seq<Step>)
    requires Poised(s, p, h) && s.at[p].task.reader && h !in s.at && !s.eofp
    ensures Stranded(Run(s, steps))
  {
    var call := Call(h, Writer(2 * PIPSIZ));
    var s1 := Apply(s, call);
    if s.size == PIPSIZ {
      steps := StrandWriter(s1, p, h);
    } else {
      var s2 := Apply(s1, Go(h));
      assert s2 == Put(s1.(lock := true), h, Writer(2 * PIPSIZ), Busy);
      var s3 := Apply(s2, EndWrite(h));
      Wrote(s2, h, p);
      steps := StrandWriter(s3, p, h);
      RunMore(s2, EndWrite(h), steps);
      steps := [EndWrite(h)] + steps;
      RunMore(s1, Go(h), steps);
      steps := [Go(h)] + steps;
    }
    RunMore(s, call, steps);
    steps := [call] + steps;
  }

  lemma Wrote(s: Ctl, h: Proc, p: Proc)
    requires Can(s, EndWrite(h)) && p in s.at && p != h && (s.off < s.size || (s.off == 0 && s.size == 0))
    requires s.at[p].where == Ready(false) || (s.at[p].where == OnLock(false) && s.want)
    ensures var t := WriteEnd(s, h); var n := Min(s.at[h].task.c, PIPSIZ - s.size);
      && !t.lock && !t.want && p in t.at && t.at[p] == Spot(s.at[p].task, Ready(false))
      && h in t.at && t.at[h] == Spot(Writer(s.at[h].task.c - n), Ready(false)) && t.size == s.size + n
      && t.eofp == s.eofp
      && t.r == s.r && t.w == s.w && (t.off < t.size || (t.off == 0 && t.size == 0))
  {
  }

  /** A writer that comes before the closer gets the lock sleeps on a full pipe, or behind an end of file. */
  lemma StrandNewWriter(s: Ctl, p: Proc, h: Proc) returns (steps: seq<Step>)
    requires Poised(s, p, h) && s.at[p].task.reader && h !in s.at
    ensures Stranded(Run(s, steps))
  {
    if s.eofp {
      var s1 := Apply(s, Call(h, Writer(1)));
      var s2 := Apply(s1, Go(h));
      assert s2 == Put(s1, h, Writer(1), OnEof);
      var s3 := Apply(s2, Go(p));
      assert Lost(s3, h);
      steps := [Go(p)];
      RunOne(s2, Go(p));
      RunMore(s1, Go(h), steps);
      steps := [Go(h)] + steps;
      RunMore(s, Call(h, Writer(1)), steps);
      steps := [Call(h, Writer(1))] + steps;
    } else {
      steps := StrandByWriting(s, p, h);
    }
  }

  /** The end of an update, for the closer and the state of the pipe. */
  lemma Updated(s: Ctl, h: Proc, p: Proc)
    requires Can(s, EndUpdate(h)) && p in s.at && p != h && s.at[p].where == OnLock(false) && s.want
    ensures var t := Leave(Release(s), h);
      && !t.lock && !t.want && h !in t.at && p in t.at && t.at[p] == Spot(s.at[p].task, Ready(false))
      && t.r == s.r && t.w == s.w && t.size == s.size && t.off == s.off && t.eofp == s.eofp
  {
    hide Release;
    ReleaseFacts(s);
    ReleaseRest(s);
    ReleaseAt(s, p);
  }

  /** An end goes while the lock is held: the process in readi or writei, if it goes on long enough
      before the closer gets the lock, finds two ends still counted, and sleeps. */
  lemma HeldStrands(s: Ctl, p: Proc, reader: bool) returns (steps: seq<Step>)
    requires Ok(s) && Can(s, Close(p, reader)) && s.lock && OtherOpen(s, reader)
    ensures Stranded(Run(CloseEnd(s, p, reader), steps))
  {
    hide CloseEnd, Wakeups, Ok, ReadEnd, WriteEnd, Release;
    var h := Holder(s, reader);
    var t := CloseEnd(s, p, reader);
    ClosingHeld(s, p, reader, h);
    if s.at[h].task.Updater? {
      var u := Apply(t, EndUpdate(h));
      Updated(t, h, p);
      if reader { steps := StrandNewWriter(u, p, h); } else { steps := StrandByDraining(u, p, h); }
      RunMore(t, EndUpdate(h), steps);
      steps := [EndUpdate(h)] + steps;
    } else if reader {
      var u := Apply(t, EndWrite(h));
      Wrote(t, h, p);
      if u.at[h].task.c > 0 {
        steps := StrandWriter(u, p, h);
      } else {
        var v := Apply(u, Go(h));
        assert v == Leave(u, h);
        steps := StrandByWriting(v, p, h);
        RunMore(u, Go(h), steps);
        steps := [Go(h)] + steps;
      }
      RunMore(t, EndWrite(h), steps);
      steps := [EndWrite(h)] + steps;
    } else {
      var u := Apply(t, EndRead(h));
      Drained(t, h, p);
      steps := StrandByDraining(u, p, h);
      RunMore(t, EndRead(h), steps);
      steps := [EndRead(h)] + steps;
    }
  }

  /** Who holds the lock: update, or somebody on the end that stays. */
  lemma Holder(s: Ctl, reader: bool) returns (h: Proc)
    requires Ok(s) && s.lock && Unused(s, reader)
    ensures h in s.at && s.at[h].where.Busy?
    ensures !s.at[h].task.Updater? ==>
      if reader then s.at[h].task.Writer? && s.w.Open? && !s.eofp else s.at[h].task.Reader? && s.r.Open?
  {
    h :| h in s.at && s.at[h].where.Busy?;
    assert Justified(s, s.at[h]);
  }

  lemma ClosingHeld(s: Ctl, p: Proc, reader: bool, h: Proc)
    requires Ok(s) && Can(s, Close(p, reader)) && s.lock && h in s.at && s.at[h].where.Busy?
    ensures var t := CloseEnd(s, p, reader);
      && p in t.at && t.at[p] == Spot(Closer(reader), OnLock(false)) && t.want && h in t.at && t.at[h] == s.at[h]
      && h != p
      && t.size == s.size <= PIPSIZ && t.off == s.off && (t.off < t.size || (t.off == 0 && t.size == 0))
      && t.eofp == s.eofp
      && (if reader then t.r.Closing? && t.w == s.w else t.w.Closing? && t.r == s.r)
  {
    hide CloseEnd, Wakeups;
    WakeupsEnds(s);
    CloseIs(s, p, reader);
    RouseKeys(s);
    assert h in Wakeups(s).at.Keys;
    WakeupsAt(s, h);
  }

  /**
   The last close of an end strands nobody on the other, whatever runs next, if and only if the other is
   no longer open, or the lock is free at closef, and, when it is the read end, those in the loop behind
   an end of file can leave it.
   */
  lemma {:induction false} CloseStrandsNobody(s: Ctl, p: Proc, reader: bool)
    requires Ok(s) && Can(s, Close(p, reader))
    ensures NeverStrands(CloseEnd(s, p, reader)) <==> CloseSafe(s, reader)
  {
    hide Ok, CloseEnd, Stranded, CloseSafe, NoReaders, NoWriters, Deserted;
    var t := CloseEnd(s, p, reader);
    CloseOk(s, p, reader);
    SafeIs(s, reader);
    if !OtherOpen(s, reader) {
      BothGo(s, p, reader);
      forall steps ensures !Stranded(Run(t, steps)) {
        DesertedRun(t, steps);
      }
    } else if s.lock {
      var steps := HeldStrands(s, p, reader);
      assert Stranded(Run(t, steps));
    } else if !reader {
      WriteEndGoes(s, p);
      forall steps ensures !Stranded(Run(t, steps)) {
        NoWritersRun(t, steps);
      }
    } else if CloseSafe(s, true) {
      ReadEndGoes(s, p);
      forall steps ensures !Stranded(Run(t, steps)) {
        NoReadersRun(t, steps);
      }
    } else {
      var steps := LoopStrands(s, p);
      assert Stranded(Run(t, steps));
    }
  }

  lemma SafeIs(s: Ctl, reader: bool)
    ensures !OtherOpen(s, reader) ==> CloseSafe(s, reader)
    ensures OtherOpen(s, reader) && s.lock ==> !CloseSafe(s, reader)
    ensures !s.lock && !reader ==> CloseSafe(s, reader)
  {
  }

  /** Whoever is lost stays asleep until another close of a descriptor of its own end. */
  lemma LostStays(s: Ctl, step: Step, p: Proc)
    requires Ok(s) && Lost(s, p) && !step.CloseShared?
    ensures Lost(Apply(s, step), p)
  {
    hide Enter, ReadEnd, WriteEnd, CloseEnd, Wakeups;
    StepEnds(s, step);
    if step.EndRead? || step.EndWrite? { LostRead(s, step.p, p); }
    if step.Close? { LostClose(s, step.p, step.reader, p); }
    if Can(s, step) {
      match step
      case Go(q) => LostGo(s, q, p);
      case _ =>
    }
  }

  lemma LostGo(s: Ctl, q: Proc, p: Proc)
    requires Ok(s) && Lost(s, p) && Can(s, Go(q))
    ensures p in Enter(s, q).at && Enter(s, q).at[p] == s.at[p]
  {
    hide EnterReader, EnterWriter, EnterEof;
    if !s.lock {
      assert Justified(s, s.at[p]);
      match s.at[q].task
      case Reader(n) => LostReader(s, q, n, p);
      case Writer(c) => LostWriter(s, q, c, s.at[q].where.again, p);
      case EofSender => LostEof(s, q, s.at[q].where.again, p);
      case _ =>
    }
  }

  lemma LostReader(s: Ctl, q: Proc, n: nat, p: Proc)
    requires p in s.at && q != p && !s.at[p].where.OnEof?
    ensures p in EnterReader(s, q, n).at && EnterReader(s, q, n).at[p] == s.at[p]
  {
  }

  lemma LostWriter(s: Ctl, q: Proc, c: nat, again: bool, p: Proc)
    requires p in s.at && q != p
    ensures p in EnterWriter(s, q, c, again).at && EnterWriter(s, q, c, again).at[p] == s.at[p]
  {
  }

  lemma LostEof(s: Ctl, q: Proc, again: bool, p: Proc)
    requires p in s.at && q != p && !s.at[p].where.OnData?
    ensures p in EnterEof(s, q, again).at && EnterEof(s, q, again).at[p] == s.at[p]
  {
  }

  /** Nobody is in readi or writei, nor can the lost one's end be closed for good. */
  lemma LostRead(s: Ctl, q: Proc, p: Proc)
    requires Ok(s) && Lost(s, p)
    ensures !Can(s, EndRead(q)) && !Can(s, EndWrite(q))
  {
    assert Justified(s, s.at[p]) && (q in s.at ==> Justified(s, s.at[q]));
  }

  lemma LostClose(s: Ctl, q: Proc, reader: bool, p: Proc)
    requires Ok(s) && Lost(s, p)
    ensures !Can(s, Close(q, reader))
  {
    assert Justified(s, s.at[p]);
  }

  // ------------------------------------------------------------ the two ways to be lost, in the small

  /** A writer waits on ip+3 for an end of file to be read; nothing else is going on. */
  function BehindEof(): Ctl {
    Ctl(0, 0, true, false, false, false, false, Open, Open, map[1 := Spot(Writer(5), OnEof)])
  }

  /** The reader closes: the writer looks at IEOFP again, and sleeps on ip+3 with the read end gone. */
  lemma WriterLost()
    ensures Ok(BehindEof()) && Can(BehindEof(), Close(2, true))
    ensures Lost(Run(CloseEnd(BehindEof(), 2, true), [Go(1)]), 1)
  {
    hide CloseEnd, Run;
    assert Justified(BehindEof(), BehindEof().at[1]);
    BehindEofClosed();
    RunOne(CloseEnd(BehindEof(), 2, true), Go(1));
  }

  lemma BehindEofClosed()
    ensures CloseEnd(BehindEof(), 2, true)
      == BehindEof().(r := Gone, at := map[1 := Spot(Writer(5), Ready(true))])
  {
    hide Wakeups, CloseEnd;
    var s := BehindEof();
    CloseIs(s, 2, true);
    WakeupsSame(s);
    RouseKeys(s);
    WakeupsAt(s, 1);
    assert Wakeups(s).at == map[1 := Spot(Writer(5), Ready(true))];
  }

  /** One reader takes the last byte while another waits for the lock. */
  function LastByte(): Ctl {
    Ctl(1, 0, false, true, true, false, false, Open, Open,
        map[1 := Spot(Reader(1), OnLock(false)), 2 := Spot(Reader(1), Busy)])
  }

  /** The writer closes, and waits for the lock; the second reader gets it first, finds nothing but two
      ends, and sleeps on ip+2; then the write end goes. */
  lemma ReaderLost()
    ensures Ok(LastByte()) && Can(LastByte(), Close(3, false))
    ensures Lost(Run(CloseEnd(LastByte(), 3, false), [EndRead(2), Go(1), Go(3)]), 1)
  {
    hide CloseEnd, ReadEnd, Run, Ok;
    LastByteOk();
    var t := CloseEnd(LastByte(), 3, false);
    LastByteClosing();
    LastByteRead(t);
    var t1 := ReadEnd(t, 2);
    var t2 := LastByteFound(t1);
    RunMore(t, EndRead(2), [Go(1), Go(3)]);
    RunMore(t1, Go(1), [Go(3)]);
    RunOne(t2, Go(3));
    assert [EndRead(2)] + [Go(1), Go(3)] == [EndRead(2), Go(1), Go(3)] && [Go(1)] + [Go(3)] == [Go(1), Go(3)];
  }

  lemma LastByteOk()
    ensures Ok(LastByte()) && Can(LastByte(), Close(3, false))
  {
    var s := LastByte();
    assert Justified(s, s.at[1]) && Justified(s, s.at[2]) && s.at[2].where.Busy?;
  }

  lemma LastByteFound(s: Ctl) returns (t: Ctl)
    requires s.size == 0 && s.off == 0 && !s.eofp && !s.lock && !s.want && s.r.Open? && s.w.Closing?
    requires 1 in s.at && s.at[1] == Spot(Reader(1), Ready(false)) && 3 in s.at
    requires s.at[3] == Spot(Closer(false), Ready(false))
    ensures t == Apply(s, Go(1)) && Lost(Apply(t, Go(3)), 1)
  {
    t := Apply(s, Go(1));
    assert t == Put(s.(iread := true), 1, Reader(1), OnData);
  }

  lemma LastByteClosing()
    ensures var t := CloseEnd(LastByte(), 3, false);
      t == LastByte().(w := Closing, at := LastByte().at[3 := Spot(Closer(false), OnLock(false))])
  {
    var s := LastByte();
    hide Wakeups, CloseEnd;
    WakeupsEnds(s);
    CloseIs(s, 3, false);
    RouseKeys(s);
    assert 1 in Wakeups(s).at.Keys && 2 in Wakeups(s).at.Keys;
    WakeupsAt(s, 1);
    WakeupsAt(s, 2);
    WakeupsSame(s);
    assert Wakeups(s).at == s.at;
  }

  lemma LastByteRead(t: Ctl)
    requires t == LastByte().(w := Closing, at := LastByte().at[3 := Spot(Closer(false), OnLock(false))])
    ensures Can(t, EndRead(2))
    ensures var u := ReadEnd(t, 2);
      && u.size == 0 && u.off == 0 && !u.eofp && !u.lock && !u.want && u.r.Open? && u.w.Closing?
      && 1 in u.at && u.at[1] == Spot(Reader(1), Ready(false)) && 3 in u.at
      && u.at[3] == Spot(Closer(false), Ready(false))
  {
  }
}
