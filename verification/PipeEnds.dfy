/**
 The two ends of a pipe, and who waits where: the control part of readp, writep, eofp, plock and prele
 (ken/pipe.c) and of closef, closei (ken/fio.c) and iput (ken/iget.c), without the bytes.

 The lock is held across a wait only in readi and writei; everything else runs from one wait to the
 next in one step.
 */
module PipeEnds {

  const PIPSIZ := 1024

  type Proc = nat

  /** A read of up to `n` bytes, a write with `c` bytes to go, eofp, the last close of an end, and update
      (ken/alloc.c) writing the inode out. */
  datatype Task = Reader(n: nat) | Writer(c: nat) | EofSender | Closer(reader: bool) | Updater

  /** Ready: about to call plock, at the top of its routine or, `again`, in the loop that waits for an
      end of file to be read.  OnLock: asleep in that plock.  Busy: in readi, writei or iupdat, with the lock.
      OnRoom, OnData, OnEof: asleep on ip+1, ip+2, ip+3. */
  datatype Where = Ready(again: bool) | OnLock(again: bool) | Busy | OnRoom | OnData | OnEof

  datatype Channel = ForLock | ForRoom | ForData | ForEof

  datatype Spot = Spot(task: Task, where: Where)

  /** Closing: past closef's wakeups, but still counted in i_count. */
  datatype End = Open | Closing | Gone

  datatype Ctl = Ctl(size: nat, off: nat, eofp: bool, lock: bool, want: bool, iread: bool, iwrite: bool,
                     r: End, w: End, at: map<Proc, Spot>)

  /** i_count. */
  function Count(s: Ctl): nat {
    (if s.r.Gone? then 0 else 1) + (if s.w.Gone? then 0 else 1)
  }

  function Min(a: nat, b: nat): nat {
    if a < b then a else b
  }

  function Woken(x: Where, c: Channel): Where {
    match c
    case ForLock => if x.OnLock? then Ready(x.again) else x
    case ForRoom => if x.OnRoom? then Ready(false) else x
    case ForData => if x.OnData? then Ready(false) else x
    case ForEof => if x.OnEof? then Ready(true) else x
  }

  /** wakeup: those asleep on the channel will run again where they went to sleep. */
  function Rouse(at: map<Proc, Spot>, c: Channel): map<Proc, Spot> {
    map p | p in at :: Spot(at[p].task, Woken(at[p].where, c))
  }

  /** prele. */
  function Release(s: Ctl): Ctl {
    s.(lock := false, want := false, at := if s.want then Rouse(s.at, ForLock) else s.at)
  }

  function Leave(s: Ctl, p: Proc): Ctl {
    s.(at := s.at - {p})
  }

  function Put(s: Ctl, p: Proc, task: Task, x: Where): Ctl {
    s.(at := s.at[p := Spot(task, x)])
  }

  /** readp, from the plock at its top to its next wait. */
  function EnterReader(s: Ctl, p: Proc, n: nat): Ctl {
    if s.size > 0 then Put(s.(lock := true), p, Reader(n), Busy)
    else if s.eofp then Leave(s.(eofp := false, at := Rouse(s.at, ForEof)), p)
    else if Count(s) < 2 then Leave(s, p)
    else Put(s.(iread := true), p, Reader(n), OnData)
  }

  /** writep, from a plock: at its top i_count is looked at, in the loop behind an end of file it is not. */
  function EnterWriter(s: Ctl, p: Proc, c: nat, again: bool): Ctl {
    if !again && (c == 0 || Count(s) < 2) then Leave(s, p)
    else if s.eofp then Put(s, p, Writer(c), OnEof)
    else if s.size == PIPSIZ then Put(s.(iwrite := true), p, Writer(c), OnRoom)
    else Put(s.(lock := true), p, Writer(c), Busy)
  }

  /** eofp, likewise. */
  function EnterEof(s: Ctl, p: Proc, again: bool): Ctl {
    if !again && Count(s) < 2 then Leave(s, p)
    else if s.eofp then Put(s, p, EofSender, OnEof)
    else Leave(TellReaders(s.(eofp := true)), p)
  }

  /** closei once it has the lock: iput. */
  function EnterCloser(s: Ctl, p: Proc, reader: bool): Ctl {
    Leave(if reader then s.(r := Gone) else s.(w := Gone), p)
  }

  /** A process that is ready calls plock, and if it gets the lock goes on. */
  function Enter(s: Ctl, p: Proc): Ctl
    requires p in s.at && s.at[p].where.Ready?
  {
    var again := s.at[p].where.again;
    if s.lock then Put(s.(want := true), p, s.at[p].task, OnLock(again))
    else match s.at[p].task
      case Reader(n) => EnterReader(s, p, n)
      case Writer(c) => EnterWriter(s, p, c, again)
      case EofSender => EnterEof(s, p, again)
      case Closer(reader) => EnterCloser(s, p, reader)
      case Updater => Leave(s, p)
  }

  /** All before `off` has been read; an empty pipe is started afresh. */
  function Advanced(s: Ctl, off: nat): Ctl {
    if off == s.size
    then s.(size := 0, off := 0, iwrite := false, at := if s.iwrite then Rouse(s.at, ForRoom) else s.at)
    else s.(off := off)
  }

  /** readi of up to `n` bytes. */
  function Drain(s: Ctl, n: nat): Ctl
    requires s.off <= s.size
  {
    Advanced(s, s.off + Min(n, s.size - s.off))
  }

  /** The rest of readp from readi on. */
  function ReadEnd(s: Ctl, p: Proc): Ctl
    requires p in s.at && s.at[p].task.Reader? && s.off <= s.size
  {
    Leave(Release(Drain(s, s.at[p].task.n)), p)
  }

  /** Readers that wait for data are told. */
  function TellReaders(s: Ctl): Ctl {
    s.(iread := false, at := if s.iread then Rouse(s.at, ForData) else s.at)
  }

  /** The rest of a turn of writep's loop from writei on. */
  function WriteEnd(s: Ctl, p: Proc): Ctl
    requires p in s.at && s.at[p].task.Writer? && s.size <= PIPSIZ
  {
    var n := Min(s.at[p].task.c, PIPSIZ - s.size);
    Put(TellReaders(Release(s.(size := s.size + n))), p, Writer(s.at[p].task.c - n), Ready(false))
  }

  /** closef's part for any close: the flags go off and everyone asleep for the pipe is woken. */
  function Wakeups(s: Ctl): Ctl {
    s.(iread := false, iwrite := false, at := Rouse(Rouse(Rouse(s.at, ForRoom), ForData), ForEof))
  }

  /** The last close of an end: the wakeups, and then plock and iput. */
  function CloseEnd(s: Ctl, p: Proc, reader: bool): Ctl
    requires p !in s.at
  {
    Enter(Begun(Wakeups(s), p, reader), p)
  }

  /** In line for closei's plock. */
  function Begun(t: Ctl, p: Proc, reader: bool): Ctl {
    Put(if reader then t.(r := Closing) else t.(w := Closing), p, Closer(reader), Ready(false))
  }

  /** update takes the lock if it is free.  It also raises i_count until it gives the lock up; but whoever
      looks at i_count does so with the lock, so that is not seen. */
  function UpdateStart(s: Ctl, p: Proc): Ctl {
    Put(s.(lock := true), p, Updater, Busy)
  }

  // ------------------------------------------------------------ runs

  datatype Step = Call(p: Proc, task: Task) | Go(p: Proc) | EndRead(p: Proc) | EndWrite(p: Proc)
                | Close(p: Proc, reader: bool) | CloseShared | Update(p: Proc) | EndUpdate(p: Proc)

  predicate OnReadEnd(t: Task) {
    t.Reader?
  }

  predicate OnWriteEnd(t: Task) {
    t.Writer? || t.EofSender?
  }

  /** An end is closed for good only when no process is in a call on it: the call's own descriptor would
      keep it open. */
  predicate Unused(s: Ctl, reader: bool) {
    forall q :: q in s.at ==> if reader then !OnReadEnd(s.at[q].task) else !OnWriteEnd(s.at[q].task)
  }

  predicate Can(s: Ctl, step: Step) {
    match step
    case Call(p, task) =>
      && p !in s.at && !task.Closer? && !task.Updater?
      && (OnReadEnd(task) ==> s.r.Open?) && (OnWriteEnd(task) ==> s.w.Open?)
    case Go(p) => p in s.at && s.at[p].where.Ready?
    case EndRead(p) => p in s.at && s.at[p].where.Busy? && s.at[p].task.Reader? && s.off <= s.size
    case EndWrite(p) => p in s.at && s.at[p].where.Busy? && s.at[p].task.Writer? && s.size <= PIPSIZ
    case Close(p, reader) => p !in s.at && Unused(s, reader) && (if reader then s.r.Open? else s.w.Open?)
    case CloseShared => true
    case Update(p) => p !in s.at && !s.lock && Count(s) > 0
    case EndUpdate(p) => p in s.at && s.at[p].where.Busy? && s.at[p].task.Updater?
  }

  /** One step; nothing happens when it cannot be taken. */
  function Apply(s: Ctl, step: Step): Ctl {
    if !Can(s, step) then s
    else match step
      case Call(p, task) => Put(s, p, task, Ready(false))
      case Go(p) => Enter(s, p)
      case EndRead(p) => ReadEnd(s, p)
      case EndWrite(p) => WriteEnd(s, p)
      case Close(p, reader) => CloseEnd(s, p, reader)
      case CloseShared => Wakeups(s)
      case Update(p) => UpdateStart(s, p)
      case EndUpdate(p) => Leave(Release(s), p)
  }

  function Run(s: Ctl, steps: seq<Step>): Ctl
    decreases |steps|
  {
    if steps == [] then s else Run(Apply(s, steps[0]), steps[1..])
  }

  // ------------------------------------------------------------ what holds throughout

  /** Whoever sleeps has cause to, and the flag that gets it woken is set. */
  ghost predicate Justified(s: Ctl, x: Spot) {
    match x.where
    case Ready(again) => !x.task.Updater? && (again ==> OnWriteEnd(x.task))
    case OnLock(again) => s.lock && s.want && !x.task.Updater? && (again ==> OnWriteEnd(x.task))
    case Busy =>
      && s.lock && (x.task.Reader? || x.task.Updater? || (x.task.Writer? && !s.eofp && s.size < PIPSIZ))
      && (x.task.Reader? ==> s.size > 0)
    case OnRoom => s.iwrite && s.size == PIPSIZ && x.task.Writer?
    case OnData => s.iread && s.size == 0 && !s.eofp && x.task.Reader?
    case OnEof => s.eofp && OnWriteEnd(x.task)
  }

  ghost predicate BusyOne(s: Ctl) {
    && (forall p, q {:trigger s.at[p], s.at[q]} ::
          p in s.at && q in s.at && s.at[p].where.Busy? && s.at[q].where.Busy? ==> p == q)
    && (s.lock ==> exists p :: p in s.at && s.at[p].where.Busy?)
  }

  /** Each end still in use is used only while it is open, and is closed by one process. */
  ghost predicate Ends(s: Ctl) {
    && (forall p :: p in s.at && OnReadEnd(s.at[p].task) ==> s.r.Open?)
    && (forall p :: p in s.at && OnWriteEnd(s.at[p].task) ==> s.w.Open?)
    && (forall p :: p in s.at && s.at[p].task.Closer? ==> if s.at[p].task.reader then s.r.Closing? else s.w.Closing?)
  }

  /** One process closes each end. */
  ghost predicate OneCloser(s: Ctl) {
    && (forall p, q {:trigger s.at[p], s.at[q]} ::
          p in s.at && q in s.at && s.at[p].task.Closer? && s.at[p].task == s.at[q].task ==> p == q)
  }

  ghost predicate Ok(s: Ctl) {
    && s.size <= PIPSIZ && (s.off < s.size || (s.off == 0 && s.size == 0)) && (s.want ==> s.lock)
    && (forall p :: p in s.at ==> Justified(s, s.at[p])) && BusyOne(s) && Ends(s)
    && OneCloser(s)
  }

  /** A process asleep for something only the other end can do, with the other end gone. */
  ghost predicate Lost(s: Ctl, p: Proc) {
    && p in s.at
    && (((s.at[p].where.OnRoom? || s.at[p].where.OnEof?) && s.r.Gone?) || (s.at[p].where.OnData? && s.w.Gone?))
  }

  ghost predicate Stranded(s: Ctl) {
    exists p :: Lost(s, p)
  }

  /** With the lock free nobody is in readi or writei. */
  lemma NoneBusy(s: Ctl)
    requires Ok(s) && !s.lock
    ensures forall q :: q in s.at ==> !s.at[q].where.Busy? && !s.at[q].where.OnLock?
  {
    forall q | q in s.at ensures !s.at[q].where.Busy? && !s.at[q].where.OnLock? {
      assert Justified(s, s.at[q]);
    }
  }

  /** Who is on which end, when no process has changed its task and none is new. */
  lemma EndsKept(s: Ctl, s': Ctl)
    requires Ends(s) && s'.r == s.r && s'.w == s.w
    requires forall q :: q in s'.at ==> q in s.at && SameEnd(s'.at[q].task, s.at[q].task)
    ensures Ends(s')
  {
  }

  predicate SameEnd(t: Task, u: Task) {
    OnReadEnd(t) == OnReadEnd(u) && OnWriteEnd(t) == OnWriteEnd(u) && (t.Closer? ==> t == u)
  }

  lemma BusyKept(s: Ctl, s': Ctl)
    requires BusyOne(s) && s'.lock == s.lock && s.at.Keys <= s'.at.Keys
    requires forall q :: q in s'.at ==>
      if q in s.at then s'.at[q].where.Busy? == s.at[q].where.Busy? else !s'.at[q].where.Busy?
    ensures BusyOne(s')
  {
    if s.lock {
      var q :| q in s.at && s.at[q].where.Busy?;
      assert q in s'.at && s'.at[q].where.Busy?;
    }
  }

  lemma EnterOk(s: Ctl, p: Proc)
    requires Ok(s) && p in s.at && s.at[p].where.Ready?
    ensures Ok(Enter(s, p))
  {
    hide Ok, EnterReader, EnterWriter, EnterEof, EnterCloser;
    if s.lock {
      BlockedOk(s, p);
    } else {
      assert !s.at[p].task.Updater? by { ReadyTask(s, p); }
      match s.at[p].task
      case Updater =>
      case Reader(n) => EnterReaderOk(s, p, n);
      case Writer(c) => EnterWriterOk(s, p, c, s.at[p].where.again);
      case EofSender => EnterEofOk(s, p, s.at[p].where.again);
      case Closer(reader) => EnterCloserOk(s, p, reader);
    }
  }

  lemma ReadyTask(s: Ctl, p: Proc)
    requires Ok(s) && p in s.at && s.at[p].where.Ready?
    ensures !s.at[p].task.Updater?
  {
    assert Justified(s, s.at[p]);
  }

  lemma BlockedOk(s: Ctl, p: Proc)
    requires Ok(s) && p in s.at && s.at[p].where.Ready? && s.lock
    ensures Ok(Put(s.(want := true), p, s.at[p].task, OnLock(s.at[p].where.again)))
  {
    hide BusyOne, Ends;
    var s' := Put(s.(want := true), p, s.at[p].task, OnLock(s.at[p].where.again));
    forall q | q in s'.at ensures Justified(s', s'.at[q]) {
      assert Justified(s, s.at[q]);
    }
    BusyKept(s, s');
    EndsKept(s, s');
  }

  lemma EnterReaderAt(s: Ctl, p: Proc, n: nat, q: Proc)
    requires p in s.at && s.at[p].task == Reader(n) && s.at[p].where.Ready? && !s.lock && s.size <= PIPSIZ
    requires q in s.at && Justified(s, s.at[q]) && !s.at[q].where.Busy? && q in EnterReader(s, p, n).at
    ensures var s' := EnterReader(s, p, n);
      Justified(s', s'.at[q]) && s'.at[q].task == s.at[q].task && (q != p ==> !s'.at[q].where.Busy?)
  {
  }

  lemma EnterReaderOk(s: Ctl, p: Proc, n: nat)
    requires Ok(s) && p in s.at && s.at[p].task == Reader(n) && s.at[p].where.Ready? && !s.lock
    ensures Ok(EnterReader(s, p, n))
  {
    hide Ends, Justified;
    NoneBusy(s);
    var s' := EnterReader(s, p, n);
    forall q | q in s'.at
      ensures q in s.at && Justified(s', s'.at[q]) && s'.at[q].task == s.at[q].task
      ensures q != p ==> !s'.at[q].where.Busy?
    {
      EnterReaderAt(s, p, n, q);
    }
    if s'.lock { assert p in s'.at && s'.at[p].where.Busy?; }
    EndsKept(s, s');
  }

  lemma EnterWriterAt(s: Ctl, p: Proc, c: nat, again: bool, q: Proc)
    requires p in s.at && s.at[p].task == Writer(c) && s.at[p].where.Ready? && !s.lock && s.size <= PIPSIZ
    requires q in s.at && Justified(s, s.at[q]) && !s.at[q].where.Busy? && q in EnterWriter(s, p, c, again).at
    ensures var s' := EnterWriter(s, p, c, again);
      Justified(s', s'.at[q]) && s'.at[q].task == s.at[q].task && (q != p ==> !s'.at[q].where.Busy?)
  {
  }

  lemma EnterWriterOk(s: Ctl, p: Proc, c: nat, again: bool)
    requires Ok(s) && p in s.at && s.at[p].task == Writer(c) && s.at[p].where.Ready? && !s.lock
    ensures Ok(EnterWriter(s, p, c, again))
  {
    hide Ends, Justified;
    NoneBusy(s);
    var s' := EnterWriter(s, p, c, again);
    forall q | q in s'.at
      ensures q in s.at && Justified(s', s'.at[q]) && s'.at[q].task == s.at[q].task
      ensures q != p ==> !s'.at[q].where.Busy?
    {
      EnterWriterAt(s, p, c, again, q);
    }
    if s'.lock { assert p in s'.at && s'.at[p].where.Busy?; }
    EndsKept(s, s');
  }

  lemma EnterEofAt(s: Ctl, p: Proc, again: bool, q: Proc)
    requires p in s.at && s.at[p].task == EofSender && s.at[p].where.Ready? && !s.lock && s.size <= PIPSIZ
    requires q in s.at && Justified(s, s.at[q]) && !s.at[q].where.Busy? && q in EnterEof(s, p, again).at
    ensures var s' := EnterEof(s, p, again);
      Justified(s', s'.at[q]) && s'.at[q].task == s.at[q].task && (q != p ==> !s'.at[q].where.Busy?)
  {
  }

  lemma EnterEofOk(s: Ctl, p: Proc, again: bool)
    requires Ok(s) && p in s.at && s.at[p].task == EofSender && s.at[p].where.Ready? && !s.lock
    ensures Ok(EnterEof(s, p, again))
  {
    hide Ends, Justified;
    NoneBusy(s);
    var s' := EnterEof(s, p, again);
    forall q | q in s'.at
      ensures q in s.at && Justified(s', s'.at[q]) && s'.at[q].task == s.at[q].task
      ensures q != p ==> !s'.at[q].where.Busy?
    {
      EnterEofAt(s, p, again, q);
    }
    EndsKept(s, s');
  }

  lemma EnterCloserOk(s: Ctl, p: Proc, reader: bool)
    requires Ok(s) && p in s.at && s.at[p].task == Closer(reader) && s.at[p].where.Ready? && !s.lock
    ensures Ok(EnterCloser(s, p, reader))
  {
    hide Ends;
    NoneBusy(s);
    var s' := EnterCloser(s, p, reader);
    forall q | q in s'.at ensures Justified(s', s'.at[q]) {
      assert Justified(s, s.at[q]);
    }
    ClosedEnds(s, p, reader);
  }

  lemma ClosedEnds(s: Ctl, p: Proc, reader: bool)
    requires Ends(s) && p in s.at && s.at[p].task == Closer(reader) && OneCloser(s)
    ensures Ends(EnterCloser(s, p, reader))
  {
  }

  lemma ReadEndFacts(s: Ctl, p: Proc)
    requires Can(s, EndRead(p)) && s.size <= PIPSIZ
    ensures var s' := ReadEnd(s, p);
      && !s'.lock && !s'.want && s'.size <= PIPSIZ && (s'.off < s'.size || (s'.off == 0 && s'.size == 0))
      && s'.r == s.r && s'.w == s.w && s'.at.Keys == s.at.Keys - {p}
      && (s.at[p].task.n >= PIPSIZ ==> s'.size == 0)
  {
    hide Drain, Release;
    DrainFacts(s, s.at[p].task.n);
    ReleaseFacts(Drain(s, s.at[p].task.n));
  }

  lemma DrainFacts(s: Ctl, n: nat)
    requires s.off <= s.size <= PIPSIZ
    ensures var t := Drain(s, n);
      && t.size <= PIPSIZ && (t.off < t.size || (t.off == 0 && t.size == 0)) && (n >= PIPSIZ ==> t.size == 0)
      && t.r == s.r && t.w == s.w && t.want == s.want && t.at.Keys == s.at.Keys
  {
  }

  lemma DrainAt(s: Ctl, n: nat, q: Proc)
    requires s.off <= s.size && q in s.at
    ensures var t := Drain(s, n);
      && q in t.at && t.at[q].task == s.at[q].task && t.want == s.want
      && (t.at[q].where == s.at[q].where || (s.at[q].where.OnRoom? && t.at[q].where == Ready(false)))
  {
  }

  lemma ReleaseFacts(s: Ctl)
    ensures var t := Release(s);
      !t.lock && !t.want && t.size == s.size && t.off == s.off && t.r == s.r && t.w == s.w && t.at.Keys == s.at.Keys
  {
  }

  lemma ReleaseAt(s: Ctl, q: Proc)
    requires q in s.at
    ensures q in Release(s).at && Release(s).at[q].task == s.at[q].task
    ensures Release(s).at[q].where ==
      if s.want && s.at[q].where.OnLock? then Ready(s.at[q].where.again) else s.at[q].where
  {
  }

  /** readp's end leaves each other process where it was, or ready. */
  lemma ReadEndWhere(s: Ctl, p: Proc, q: Proc)
    requires Can(s, EndRead(p)) && q in s.at && q != p
    ensures var t := ReadEnd(s, p);
      && q in t.at && t.at[q].task == s.at[q].task
      && (t.at[q].where == s.at[q].where || (s.at[q].where.OnRoom? && t.at[q].where == Ready(false))
          || (s.at[q].where.OnLock? && t.at[q].where == Ready(s.at[q].where.again)))
    ensures s.want && s.at[q].where.OnLock? ==> ReadEnd(s, p).at[q].where == Ready(s.at[q].where.again)
  {
    hide Drain, Release;
    DrainAt(s, s.at[p].task.n, q);
    ReleaseAt(Drain(s, s.at[p].task.n), q);
  }

  lemma ReadEndOk(s: Ctl, p: Proc)
    requires Ok(s) && Can(s, EndRead(p))
    ensures Ok(ReadEnd(s, p))
  {
    hide Ends, Justified, ReadEnd;
    var s' := ReadEnd(s, p);
    ReadEndFacts(s, p);
    forall q | q in s'.at
      ensures q in s.at && Justified(s', s'.at[q]) && !s'.at[q].where.Busy? && s'.at[q].task == s.at[q].task
    {
      assert q in s'.at.Keys;
      ReadEndAt(s, p, q);
    }
    EndsKept(s, s');
  }

  lemma ReadEndAt(s: Ctl, p: Proc, q: Proc)
    requires Ok(s) && Can(s, EndRead(p)) && q in s.at && q != p
    ensures var s' := ReadEnd(s, p);
      q in s'.at && Justified(s', s'.at[q]) && !s'.at[q].where.Busy? && s'.at[q].task == s.at[q].task
  {
    hide Justified, ReadEnd;
    assert Justified(s, s.at[q]) && Justified(s, s.at[p]) && s.at[p].where.Busy? && !s.at[q].where.Busy?;
    ReadEndOne(s, p, q);
  }

  lemma ReadEndOne(s: Ctl, p: Proc, q: Proc)
    requires p in s.at && s.at[p].task.Reader? && s.at[p].where.Busy? && s.off <= s.size && q in s.at && q != p
    requires Justified(s, s.at[q]) && Justified(s, s.at[p]) && !s.at[q].where.Busy?
    ensures var s' := ReadEnd(s, p);
      q in s'.at && Justified(s', s'.at[q]) && !s'.at[q].where.Busy? && s'.at[q].task == s.at[q].task
  {
  }

  lemma WriteEndFacts(s: Ctl, p: Proc)
    requires Can(s, EndWrite(p)) && (s.off < s.size || (s.off == 0 && s.size == 0))
    ensures var s' := WriteEnd(s, p);
      && !s'.lock && !s'.want && s'.size <= PIPSIZ && (s'.off < s'.size || (s'.off == 0 && s'.size == 0))
      && s'.r == s.r && s'.w == s.w && s'.at.Keys == s.at.Keys && p in s'.at && s'.at[p].task.Writer?
  {
  }

  lemma WriteEndOk(s: Ctl, p: Proc)
    requires Ok(s) && Can(s, EndWrite(p))
    ensures Ok(WriteEnd(s, p))
  {
    hide Ends, Justified, WriteEnd;
    var s' := WriteEnd(s, p);
    WriteEndFacts(s, p);
    forall q | q in s'.at
      ensures q in s.at && Justified(s', s'.at[q]) && !s'.at[q].where.Busy?
      ensures q != p ==> s'.at[q].task == s.at[q].task
    {
      assert q in s'.at.Keys;
      WriteEndAt(s, p, q);
    }
    EndsKept(s, s');
  }

  lemma WriteEndAt(s: Ctl, p: Proc, q: Proc)
    requires Ok(s) && Can(s, EndWrite(p)) && q in s.at
    ensures var s' := WriteEnd(s, p);
      q in s'.at && Justified(s', s'.at[q]) && !s'.at[q].where.Busy? && (q != p ==> s'.at[q].task == s.at[q].task)
  {
    hide Justified, WriteEnd, Ends;
    assert Justified(s, s.at[q]) && Justified(s, s.at[p]) && (q != p ==> !s.at[q].where.Busy?);
    WriteEndOne(s, p, q);
  }

  lemma WriteEndOne(s: Ctl, p: Proc, q: Proc)
    requires p in s.at && s.at[p].task.Writer? && s.at[p].where.Busy? && s.size <= PIPSIZ && q in s.at
    requires Justified(s, s.at[q]) && Justified(s, s.at[p]) && (q != p ==> !s.at[q].where.Busy?)
    ensures var s' := WriteEnd(s, p);
      q in s'.at && Justified(s', s'.at[q]) && !s'.at[q].where.Busy? && (q != p ==> s'.at[q].task == s.at[q].task)
  {
  }

  /** closef's wakeups leave each process where it was, or ready. */
  lemma WakeupsAt(s: Ctl, q: Proc)
    requires q in s.at
    ensures q in Wakeups(s).at && Wakeups(s).at[q].task == s.at[q].task
    ensures Wakeups(s).at[q].where == match s.at[q].where
      case OnRoom => Ready(false)
      case OnData => Ready(false)
      case OnEof => Ready(true)
      case x => x
  {
  }

  lemma WakeupsOk(s: Ctl)
    requires Ok(s)
    ensures Ok(Wakeups(s))
  {
    hide Ends, Rouse, BusyOne;
    var s' := Wakeups(s);
    forall q | q in s'.at ensures q in s.at && Justified(s', s'.at[q]) {
      RouseKeys(s);
      assert Justified(s, s.at[q]);
      WakeupsAt(s, q);
    }
    RouseKeys(s);
    forall q | q in s.at
      ensures q in s'.at && s'.at[q].task == s.at[q].task && s'.at[q].where.Busy? == s.at[q].where.Busy?
    {
      WakeupsAt(s, q);
    }
    BusyKept(s, s');
    EndsKept(s, s');
  }

  lemma RouseKeys(s: Ctl)
    ensures Wakeups(s).at.Keys == s.at.Keys
  {
  }

  lemma OkEnds(s: Ctl)
    requires Ok(s)
    ensures Ends(s) && OneCloser(s)
  {
  }

  lemma UnusedKept(s: Ctl, p: Proc, reader: bool)
    requires Can(s, Close(p, reader))
    ensures p !in Wakeups(s).at && Unused(Wakeups(s), reader)
    ensures if reader then Wakeups(s).r.Open? else Wakeups(s).w.Open?
  {
    hide Wakeups;
    RouseKeys(s);
    WakeupsSame(s);
    forall q | q in Wakeups(s).at ensures q in s.at && Wakeups(s).at[q].task == s.at[q].task {
      assert q in Wakeups(s).at.Keys;
      WakeupsAt(s, q);
    }
    assert p in Wakeups(s).at <==> p in Wakeups(s).at.Keys;
  }

  lemma ClosingEnds(t: Ctl, u: Ctl, p: Proc, reader: bool)
    requires Ends(t) && OneCloser(t) && p !in t.at && Unused(t, reader) && (if reader then t.r.Open? else t.w.Open?)
    requires u == Begun(t, p, reader)
    ensures Ends(u) && OneCloser(u)
  {
    forall q | q in t.at ensures t.at[q].task != Closer(reader) {
    }
  }

  lemma WakeupsSame(s: Ctl)
    ensures Wakeups(s) == s.(iread := false, iwrite := false, at := Wakeups(s).at)
  {
  }

  lemma CloseOk(s: Ctl, p: Proc, reader: bool)
    requires Ok(s) && Can(s, Close(p, reader))
    ensures Ok(CloseEnd(s, p, reader))
  {
    hide Ok, Wakeups, Enter, Begun;
    BegunOk(s, p, reader);
    EnterOk(Begun(Wakeups(s), p, reader), p);
  }

  lemma BegunOk(s: Ctl, p: Proc, reader: bool)
    requires Ok(s) && Can(s, Close(p, reader))
    ensures var u := Begun(Wakeups(s), p, reader);
      Ok(u) && Count(u) == Count(s) && p in u.at && u.at[p] == Spot(Closer(reader), Ready(false))
  {
    hide Ok, Wakeups, Ends, OneCloser;
    var t := Wakeups(s);
    WakeupsOk(s);
    OkEnds(t);
    UnusedKept(s, p, reader);
    ClosingEnds(t, Begun(t, p, reader), p, reader);
    WakeupsSame(s);
    AddedOk(t, Begun(t, p, reader), p);
  }

  /** A process comes to the pipe. */
  lemma AddedOk(s: Ctl, s': Ctl, p: Proc)
    requires Ok(s) && OneCloser(s') && p !in s.at && s' == s.(at := s'.at, r := s'.r, w := s'.w)
    requires p in s'.at && s'.at == s.at[p := s'.at[p]] && s'.at[p].where == Ready(false) && Ends(s')
    requires !s'.at[p].task.Updater?
    ensures Ok(s')
  {
    forall q | q in s'.at ensures Justified(s', s'.at[q]) {
      assert q != p ==> Justified(s, s.at[q]);
    }
    if s.lock {
      var q :| q in s.at && s.at[q].where.Busy?;
      assert q in s'.at && s'.at[q].where.Busy?;
    }
  }

  lemma UpdateOk(s: Ctl, p: Proc)
    requires Ok(s) && Can(s, Update(p))
    ensures Ok(UpdateStart(s, p))
  {
    hide Ends;
    NoneBusy(s);
    var s' := UpdateStart(s, p);
    forall q | q in s'.at ensures Justified(s', s'.at[q]) {
      assert q != p ==> Justified(s, s.at[q]);
    }
    assert p in s'.at && s'.at[p].where.Busy?;
    UpdateEnds(s, p);
  }

  lemma UpdateEnds(s: Ctl, p: Proc)
    requires Ends(s) && OneCloser(s)
    ensures Ends(UpdateStart(s, p)) && OneCloser(UpdateStart(s, p))
  {
  }

  lemma EndUpdateOk(s: Ctl, p: Proc)
    requires Ok(s) && Can(s, EndUpdate(p))
    ensures Ok(Leave(Release(s), p))
  {
    hide Ends, Justified, Release;
    var s' := Leave(Release(s), p);
    ReleaseFacts(s);
    forall q | q in s'.at
      ensures q in s.at && Justified(s', s'.at[q]) && !s'.at[q].where.Busy? && s'.at[q].task == s.at[q].task
    {
      assert q in Release(s).at.Keys && q != p;
      EndUpdateAt(s, p, q);
    }
    EndsKept(s, s');
  }

  lemma EndUpdateAt(s: Ctl, p: Proc, q: Proc)
    requires Ok(s) && Can(s, EndUpdate(p)) && q in s.at && q != p
    ensures var s' := Leave(Release(s), p);
      q in s'.at && Justified(s', s'.at[q]) && !s'.at[q].where.Busy? && s'.at[q].task == s.at[q].task
  {
    hide Ends, OneCloser, Release;
    assert Justified(s, s.at[q]) && Justified(s, s.at[p]) && s.at[p].where.Busy? && !s.at[q].where.Busy?;
    ReleaseAt(s, q);
    ReleaseRest(s);
  }

  lemma ReleaseRest(s: Ctl)
    ensures Release(s).eofp == s.eofp && Release(s).iread == s.iread && Release(s).iwrite == s.iwrite
    ensures Release(s).size == s.size && Release(s).off == s.off
  {
  }

  lemma ApplyOk(s: Ctl, step: Step)
    requires Ok(s)
    ensures Ok(Apply(s, step))
  {
    if Can(s, step) {
      match step
      case Call(p, task) => AddedOk(s, Put(s, p, task, Ready(false)), p);
      case Go(p) => EnterOk(s, p);
      case EndRead(p) => ReadEndOk(s, p);
      case EndWrite(p) => WriteEndOk(s, p);
      case Close(p, reader) => CloseOk(s, p, reader);
      case CloseShared => WakeupsOk(s);
      case Update(p) => UpdateOk(s, p);
      case EndUpdate(p) => EndUpdateOk(s, p);
    }
  }

  /** Whoever is not asleep can take its next step; a shared descriptor may be closed at any time; update gets
      the lock just when it is free and an end is in use; and an end can be closed, or called on, while open. */
  lemma GoesOn(s: Ctl, p: Proc)
    requires Ok(s)
    ensures Can(s, Step.CloseShared)
    ensures p in s.at && s.at[p].where.Ready? ==> Can(s, Step.Go(p))
    ensures p in s.at && s.at[p].where.Busy? ==>
      Can(s, if s.at[p].task.Reader? then EndRead(p) else if s.at[p].task.Writer? then EndWrite(p) else EndUpdate(p))
    ensures p !in s.at ==> (Can(s, Update(p)) <==> !s.lock && (!s.r.Gone? || !s.w.Gone?))
    ensures forall n: nat :: p !in s.at ==> (Can(s, Step.Call(p, Reader(n))) <==> s.r.Open?)
    ensures forall c: nat :: p !in s.at ==> (Can(s, Step.Call(p, Writer(c))) <==> s.w.Open?)
    ensures p !in s.at ==> (Can(s, Step.Call(p, EofSender)) <==> s.w.Open?)
    ensures p !in s.at && s.at == map[] ==> (Can(s, Step.Close(p, true)) <==> s.r.Open?)
    ensures p !in s.at && s.at == map[] ==> (Can(s, Step.Close(p, false)) <==> s.w.Open?)
  {
    if p in s.at {
      assert Justified(s, s.at[p]);
    }
  }

  /** Over every run whoever sleeps has cause to, with its wake flag set. */
  lemma {:induction false} RunOk(s: Ctl, steps: seq<Step>)
    requires Ok(s)
    ensures Ok(Run(s, steps))
    decreases |steps|
  {
    if steps != [] {
      ApplyOk(s, steps[0]);
      RunOk(Apply(s, steps[0]), steps[1..]);
    }
  }
}
