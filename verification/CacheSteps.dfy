/** Every action makes only the moves that the parts of the invariant allow, phase by phase. */
module CacheSteps {
  import opened Types
  import opened CacheProtocol
  import opened CacheInvariants

  /** What a thread has to know about itself to move safely. */
  ghost predicate Knows(c: Config, st: State, t: nat)
    requires t < |st.threads|
  {
    && Shaped(c, st.threads[t], |st.slots|)
    && OwnsThem(st, t)
    && WriterOk(c, st, t)
    && (forall v :: v in Unused(st.threads[t].pc) ==> v !in st.threads[t].pending)
    && (Target(st.threads[t]) < |st.slots| ==> HeldRightly(st, Target(st.threads[t])))
  }

  /** The moves that keep locks, mutexes, counts, handles and times in order. */
  ghost predicate Moves(c: Config, st: State, t: nat, st': State) {
    var s := if t < |st.threads| then Target(st.threads[t]) else 0;
    && Touches(st, st', t, s)
    && LockMove(st, st', t)
    && ContentMove(st, st', t, s)
    && HandleMove(st, st', t, s)
    && CountMove(st, st', t, s)
    && TimeMove(st, st', t, s)
    && MutexMove(st, st', t, s)
    && Shaped(c, st'.threads[t], |st'.slots|)
  }

  lemma RestingTouches(st: State, t: nat, ch: Choice, st': State)
    requires t < |st.threads| && PhaseOf(st.threads[t].pc) == Resting && st' == ApplyIdle(st, t, ch)
    ensures Touches(st, st', t, Target(st.threads[t]))
  {
  }

  lemma RestingMoves(c: Config, st: State, t: nat, ch: Choice, st': State)
    requires t < |st.threads| && InBounds(st, t) && PhaseOf(st.threads[t].pc) == Resting && st' == ApplyIdle(st, t, ch)
    requires !Blocked(c, st, t) && Allowed(c, st, t, ch) && Knows(c, st, t)
    ensures Moves(c, st, t, st')
  {
  }

  lemma ScanningTouches(c: Config, st: State, t: nat, ch: Choice, st': State)
    requires t < |st.threads| && InBounds(st, t) && PhaseOf(st.threads[t].pc) == Scanning && st' == ApplyScan(c, st, t)
    ensures Touches(st, st', t, Target(st.threads[t]))
  {
  }

  lemma ScanningLocks(c: Config, st: State, t: nat, ch: Choice, st': State)
    requires t < |st.threads| && InBounds(st, t) && PhaseOf(st.threads[t].pc) == Scanning && st' == ApplyScan(c, st, t)
    requires Touches(st, st', t, Target(st.threads[t]))
    requires !Blocked(c, st, t)
    ensures LockMove(st, st', t)
  {
  }

  lemma ScanningContent(c: Config, st: State, t: nat, ch: Choice, st': State)
    requires t < |st.threads| && InBounds(st, t) && PhaseOf(st.threads[t].pc) == Scanning && st' == ApplyScan(c, st, t)
    requires Touches(st, st', t, Target(st.threads[t]))
    ensures ContentMove(st, st', t, Target(st.threads[t]))
  {
  }

  lemma ScanningHandles(c: Config, st: State, t: nat, ch: Choice, st': State)
    requires t < |st.threads| && InBounds(st, t) && PhaseOf(st.threads[t].pc) == Scanning && st' == ApplyScan(c, st, t)
    requires Touches(st, st', t, Target(st.threads[t]))
    ensures HandleMove(st, st', t, Target(st.threads[t]))
  {
  }

  lemma ScanningCounts(c: Config, st: State, t: nat, ch: Choice, st': State)
    requires t < |st.threads| && InBounds(st, t) && PhaseOf(st.threads[t].pc) == Scanning && st' == ApplyScan(c, st, t)
    requires Touches(st, st', t, Target(st.threads[t]))
    requires Shaped(c, st.threads[t], |st.slots|)
    ensures CountMove(st, st', t, Target(st.threads[t]))
  {
  }

  lemma ScanningTimes(c: Config, st: State, t: nat, ch: Choice, st': State)
    requires t < |st.threads| && InBounds(st, t) && PhaseOf(st.threads[t].pc) == Scanning && st' == ApplyScan(c, st, t)
    requires Touches(st, st', t, Target(st.threads[t]))
    ensures TimeMove(st, st', t, Target(st.threads[t]))
  {
  }

  lemma ScanningShaped(c: Config, st: State, t: nat, ch: Choice, st': State)
    requires t < |st.threads| && InBounds(st, t) && PhaseOf(st.threads[t].pc) == Scanning && st' == ApplyScan(c, st, t)
    requires Shaped(c, st.threads[t], |st.slots|)
    requires Touches(st, st', t, Target(st.threads[t]))
    ensures Shaped(c, st'.threads[t], |st'.slots|)
  {
  }

  lemma ScanningMutex(c: Config, st: State, t: nat, ch: Choice, st': State)
    requires t < |st.threads| && InBounds(st, t) && PhaseOf(st.threads[t].pc) == Scanning && st' == ApplyScan(c, st, t)
    requires Touches(st, st', t, Target(st.threads[t]))
    requires OwnsThem(st, t)
    ensures MutexMove(st, st', t, Target(st.threads[t]))
  {
  }

  lemma ScanningMoves(c: Config, st: State, t: nat, ch: Choice, st': State)
    requires t < |st.threads| && InBounds(st, t) && PhaseOf(st.threads[t].pc) == Scanning && st' == ApplyScan(c, st, t)
    requires !Blocked(c, st, t) && Allowed(c, st, t, ch) && Knows(c, st, t)
    ensures Moves(c, st, t, st')
  {
    ScanningTouches(c, st, t, ch, st');
    ScanningLocks(c, st, t, ch, st');
    ScanningContent(c, st, t, ch, st');
    ScanningHandles(c, st, t, ch, st');
    ScanningCounts(c, st, t, ch, st');
    ScanningTimes(c, st, t, ch, st');
    ScanningShaped(c, st, t, ch, st');
    ScanningMutex(c, st, t, ch, st');
  }

  lemma HuntingTouches(c: Config, st: State, t: nat, ch: Choice, st': State)
    requires t < |st.threads| && InBounds(st, t) && PhaseOf(st.threads[t].pc) == Hunting && st' == ApplyHunt(st, t)
    ensures Touches(st, st', t, Target(st.threads[t]))
  {
  }

  lemma HuntingLocks(c: Config, st: State, t: nat, ch: Choice, st': State)
    requires t < |st.threads| && InBounds(st, t) && PhaseOf(st.threads[t].pc) == Hunting && st' == ApplyHunt(st, t)
    requires Touches(st, st', t, Target(st.threads[t]))
    requires !Blocked(c, st, t)
    ensures LockMove(st, st', t)
  {
  }

  lemma HuntingContent(c: Config, st: State, t: nat, ch: Choice, st': State)
    requires t < |st.threads| && InBounds(st, t) && PhaseOf(st.threads[t].pc) == Hunting && st' == ApplyHunt(st, t)
    requires Touches(st, st', t, Target(st.threads[t]))
    ensures ContentMove(st, st', t, Target(st.threads[t]))
  {
  }

  lemma HuntingHandles(c: Config, st: State, t: nat, ch: Choice, st': State)
    requires t < |st.threads| && InBounds(st, t) && PhaseOf(st.threads[t].pc) == Hunting && st' == ApplyHunt(st, t)
    requires Touches(st, st', t, Target(st.threads[t]))
    ensures HandleMove(st, st', t, Target(st.threads[t]))
  {
  }

  lemma HuntingCounts(c: Config, st: State, t: nat, ch: Choice, st': State)
    requires t < |st.threads| && InBounds(st, t) && PhaseOf(st.threads[t].pc) == Hunting && st' == ApplyHunt(st, t)
    requires Touches(st, st', t, Target(st.threads[t]))
    requires Shaped(c, st.threads[t], |st.slots|)
    ensures CountMove(st, st', t, Target(st.threads[t]))
  {
  }

  lemma HuntingTimes(c: Config, st: State, t: nat, ch: Choice, st': State)
    requires t < |st.threads| && InBounds(st, t) && PhaseOf(st.threads[t].pc) == Hunting && st' == ApplyHunt(st, t)
    requires Touches(st, st', t, Target(st.threads[t]))
    ensures TimeMove(st, st', t, Target(st.threads[t]))
  {
  }

  lemma HuntingShaped(c: Config, st: State, t: nat, ch: Choice, st': State)
    requires t < |st.threads| && InBounds(st, t) && PhaseOf(st.threads[t].pc) == Hunting && st' == ApplyHunt(st, t)
    requires Shaped(c, st.threads[t], |st.slots|)
    requires Touches(st, st', t, Target(st.threads[t]))
    ensures Shaped(c, st'.threads[t], |st'.slots|)
  {
    hide Distinct, Below, Touches;
  }

  lemma HuntMutex(st: State, t: nat, st': State)
    requires t < |st.threads| && InBounds(st, t) && st.threads[t].pc.Hunt? && st' == ApplyHunt(st, t)
    requires Touches(st, st', t, Target(st.threads[t]))
    requires OwnsThem(st, t)
    ensures MutexMove(st, st', t, Target(st.threads[t]))
  {
  }

  lemma ProbeMutex(st: State, t: nat, st': State)
    requires t < |st.threads| && InBounds(st, t) && st.threads[t].pc.Probe? && st' == ApplyHunt(st, t)
    requires Touches(st, st', t, Target(st.threads[t]))
    requires OwnsThem(st, t)
    ensures MutexMove(st, st', t, Target(st.threads[t]))
  {
  }

  lemma UnprobeMutex(st: State, t: nat, st': State)
    requires t < |st.threads| && InBounds(st, t) && st.threads[t].pc.Unprobe? && (st.threads[t].pc.best != Some(st.threads[t].pc.i)) && st' == ApplyHunt(st, t)
    requires Touches(st, st', t, Target(st.threads[t]))
    requires OwnsThem(st, t)
    ensures MutexMove(st, st', t, Target(st.threads[t]))
  {
  }

  lemma DropMutex(st: State, t: nat, st': State)
    requires t < |st.threads| && InBounds(st, t) && st.threads[t].pc.Drop? && st.threads[t].pc.i != st.threads[t].pc.prev && st' == ApplyHunt(st, t)
    requires Touches(st, st', t, Target(st.threads[t]))
    requires OwnsThem(st, t)
    ensures MutexMove(st, st', t, Target(st.threads[t]))
  {
  }

  lemma HuntingMutex(c: Config, st: State, t: nat, ch: Choice, st': State)
    requires t < |st.threads| && InBounds(st, t) && PhaseOf(st.threads[t].pc) == Hunting && st' == ApplyHunt(st, t)
    requires Touches(st, st', t, Target(st.threads[t]))
    requires OwnsThem(st, t)
    requires Shaped(c, st.threads[t], |st.slots|)
    ensures MutexMove(st, st', t, Target(st.threads[t]))
  {
    match st.threads[t].pc
    case Hunt(_, _, _) => HuntMutex(st, t, st');
    case Probe(_, _, _) => ProbeMutex(st, t, st');
    case Unprobe(_, _, _) => UnprobeMutex(st, t, st');
    case Drop(_, _, _) => DropMutex(st, t, st');
    case _ =>
  }

  lemma HuntingMoves(c: Config, st: State, t: nat, ch: Choice, st': State)
    requires t < |st.threads| && InBounds(st, t) && PhaseOf(st.threads[t].pc) == Hunting && st' == ApplyHunt(st, t)
    requires !Blocked(c, st, t) && Allowed(c, st, t, ch) && Knows(c, st, t)
    ensures Moves(c, st, t, st')
  {
    HuntingTouches(c, st, t, ch, st');
    HuntingLocks(c, st, t, ch, st');
    HuntingContent(c, st, t, ch, st');
    HuntingHandles(c, st, t, ch, st');
    HuntingCounts(c, st, t, ch, st');
    HuntingTimes(c, st, t, ch, st');
    HuntingShaped(c, st, t, ch, st');
    HuntingMutex(c, st, t, ch, st');
  }

  lemma InstallingTouches(c: Config, st: State, t: nat, ch: Choice, st': State)
    requires t < |st.threads| && InBounds(st, t) && PhaseOf(st.threads[t].pc) == Installing && st' == ApplyInstall(c, st, t, ch)
    ensures Touches(st, st', t, Target(st.threads[t]))
  {
  }

  lemma InstallingLocks(c: Config, st: State, t: nat, ch: Choice, st': State)
    requires t < |st.threads| && InBounds(st, t) && PhaseOf(st.threads[t].pc) == Installing && st' == ApplyInstall(c, st, t, ch)
    requires Touches(st, st', t, Target(st.threads[t]))
    ensures LockMove(st, st', t)
  {
  }

  lemma InstallingContent(c: Config, st: State, t: nat, ch: Choice, st': State)
    requires t < |st.threads| && InBounds(st, t) && PhaseOf(st.threads[t].pc) == Installing && st' == ApplyInstall(c, st, t, ch)
    requires Touches(st, st', t, Target(st.threads[t]))
    ensures ContentMove(st, st', t, Target(st.threads[t]))
  {
  }

  lemma OpenHandles(c: Config, st: State, t: nat, ch: Choice, st': State)
    requires t < |st.threads| && InBounds(st, t) && PhaseOf(st.threads[t].pc) == Installing && st' == ApplyInstall(c, st, t, ch)
    requires st.threads[t].pc.Open?
    requires Touches(st, st', t, Target(st.threads[t]))
    requires WriterOk(c, st, t)
    ensures HandleMove(st, st', t, Target(st.threads[t]))
  {
  }

  lemma CloseHandles(c: Config, st: State, t: nat, ch: Choice, st': State)
    requires t < |st.threads| && InBounds(st, t) && PhaseOf(st.threads[t].pc) == Installing && st' == ApplyInstall(c, st, t, ch)
    requires st.threads[t].pc.Close?
    requires Touches(st, st', t, Target(st.threads[t]))
    requires WriterOk(c, st, t)
    ensures HandleMove(st, st', t, Target(st.threads[t]))
  {
  }

  lemma MoveHandles(c: Config, st: State, t: nat, ch: Choice, st': State)
    requires t < |st.threads| && InBounds(st, t) && PhaseOf(st.threads[t].pc) == Installing && st' == ApplyInstall(c, st, t, ch)
    requires st.threads[t].pc.Move?
    requires Touches(st, st', t, Target(st.threads[t]))
    requires WriterOk(c, st, t)
    ensures HandleMove(st, st', t, Target(st.threads[t]))
  {
  }

  lemma RestHandles(c: Config, st: State, t: nat, ch: Choice, st': State)
    requires t < |st.threads| && InBounds(st, t) && PhaseOf(st.threads[t].pc) == Installing && st' == ApplyInstall(c, st, t, ch)
    requires !(st.threads[t].pc.Open? || st.threads[t].pc.Close? || st.threads[t].pc.Move?)
    requires Touches(st, st', t, Target(st.threads[t]))
    requires WriterOk(c, st, t)
    ensures HandleMove(st, st', t, Target(st.threads[t]))
  {
  }

  lemma InstallingHandles(c: Config, st: State, t: nat, ch: Choice, st': State)
    requires t < |st.threads| && InBounds(st, t) && PhaseOf(st.threads[t].pc) == Installing && st' == ApplyInstall(c, st, t, ch)
    requires Touches(st, st', t, Target(st.threads[t]))
    requires WriterOk(c, st, t)
    ensures HandleMove(st, st', t, Target(st.threads[t]))
  {
    hide ApplyInstall, HandleMove, Touches, WriterOk;
    if st.threads[t].pc.Open? {
      OpenHandles(c, st, t, ch, st');
    } else if st.threads[t].pc.Close? {
      CloseHandles(c, st, t, ch, st');
    } else if st.threads[t].pc.Move? {
      MoveHandles(c, st, t, ch, st');
    } else {
      RestHandles(c, st, t, ch, st');
    }
  }

  lemma InstallingCounts(c: Config, st: State, t: nat, ch: Choice, st': State)
    requires t < |st.threads| && InBounds(st, t) && PhaseOf(st.threads[t].pc) == Installing && st' == ApplyInstall(c, st, t, ch)
    requires Touches(st, st', t, Target(st.threads[t]))
    requires Shaped(c, st.threads[t], |st.slots|)
    requires st.threads[t].pc.Pin? ==> st.threads[t].pc.victim !in st.threads[t].pending
    ensures CountMove(st, st', t, Target(st.threads[t]))
  {
  }

  lemma InstallingTimes(c: Config, st: State, t: nat, ch: Choice, st': State)
    requires t < |st.threads| && InBounds(st, t) && PhaseOf(st.threads[t].pc) == Installing && st' == ApplyInstall(c, st, t, ch)
    requires Touches(st, st', t, Target(st.threads[t]))
    ensures TimeMove(st, st', t, Target(st.threads[t]))
  {
  }

  lemma InstallingShaped(c: Config, st: State, t: nat, ch: Choice, st': State)
    requires t < |st.threads| && InBounds(st, t) && PhaseOf(st.threads[t].pc) == Installing && st' == ApplyInstall(c, st, t, ch)
    requires Shaped(c, st.threads[t], |st.slots|)
    requires Touches(st, st', t, Target(st.threads[t]))
    requires st.threads[t].pc.Pin? ==> st.threads[t].pc.victim !in st.threads[t].pending
    ensures Shaped(c, st'.threads[t], |st'.slots|)
  {
  }

  lemma OpenMutex(c: Config, st: State, t: nat, ch: Choice, st': State)
    requires t < |st.threads| && InBounds(st, t) && st.threads[t].pc.Open? && st' == ApplyInstall(c, st, t, ch)
    requires Touches(st, st', t, Target(st.threads[t]))
    requires OwnsThem(st, t)
    ensures MutexMove(st, st', t, Target(st.threads[t]))
  {
  }

  lemma CloseMutex(c: Config, st: State, t: nat, ch: Choice, st': State)
    requires t < |st.threads| && InBounds(st, t) && st.threads[t].pc.Close? && st' == ApplyInstall(c, st, t, ch)
    requires Touches(st, st', t, Target(st.threads[t]))
    requires OwnsThem(st, t)
    ensures MutexMove(st, st', t, Target(st.threads[t]))
  {
  }

  lemma ReleaseMutex(c: Config, st: State, t: nat, ch: Choice, st': State)
    requires t < |st.threads| && InBounds(st, t) && st.threads[t].pc.Release? && st' == ApplyInstall(c, st, t, ch)
    requires Touches(st, st', t, Target(st.threads[t]))
    requires OwnsThem(st, t)
    ensures MutexMove(st, st', t, Target(st.threads[t]))
  {
  }

  lemma RestMutex(c: Config, st: State, t: nat, ch: Choice, st': State)
    requires t < |st.threads| && InBounds(st, t) && (st.threads[t].pc.Retag? || st.threads[t].pc.Move? || st.threads[t].pc.Pin?) && st' == ApplyInstall(c, st, t, ch)
    requires Touches(st, st', t, Target(st.threads[t]))
    requires OwnsThem(st, t)
    ensures MutexMove(st, st', t, Target(st.threads[t]))
  {
  }

  lemma InstallingMutex(c: Config, st: State, t: nat, ch: Choice, st': State)
    requires t < |st.threads| && InBounds(st, t) && PhaseOf(st.threads[t].pc) == Installing && st' == ApplyInstall(c, st, t, ch)
    requires Touches(st, st', t, Target(st.threads[t]))
    requires OwnsThem(st, t)
    ensures MutexMove(st, st', t, Target(st.threads[t]))
  {
    hide ApplyInstall, MutexMove, Touches, OwnsThem;
    match st.threads[t].pc
    case Open(_, _) => OpenMutex(c, st, t, ch, st');
    case Close(_, _, _) => CloseMutex(c, st, t, ch, st');
    case Release(_, _) => ReleaseMutex(c, st, t, ch, st');
    case _ => RestMutex(c, st, t, ch, st');
  }

  lemma InstallingMoves(c: Config, st: State, t: nat, ch: Choice, st': State)
    requires t < |st.threads| && InBounds(st, t) && PhaseOf(st.threads[t].pc) == Installing && st' == ApplyInstall(c, st, t, ch)
    requires !Blocked(c, st, t) && Allowed(c, st, t, ch) && Knows(c, st, t)
    ensures Moves(c, st, t, st')
  {
    InstallingTouches(c, st, t, ch, st');
    InstallingLocks(c, st, t, ch, st');
    InstallingContent(c, st, t, ch, st');
    InstallingHandles(c, st, t, ch, st');
    InstallingCounts(c, st, t, ch, st');
    InstallingTimes(c, st, t, ch, st');
    InstallingShaped(c, st, t, ch, st');
    InstallingMutex(c, st, t, ch, st');
  }

  lemma UsingTouches(c: Config, st: State, t: nat, ch: Choice, st': State)
    requires t < |st.threads| && InBounds(st, t) && PhaseOf(st.threads[t].pc) == Using && st' == ApplyUse(st, t, ch)
    ensures Touches(st, st', t, Target(st.threads[t]))
  {
  }

  lemma UseLocks(c: Config, st: State, t: nat, ch: Choice, st': State)
    requires t < |st.threads| && InBounds(st, t) && PhaseOf(st.threads[t].pc) == Using && st' == ApplyUse(st, t, ch)
    requires st.threads[t].pc.Use?
    requires Touches(st, st', t, Target(st.threads[t]))
    ensures LockMove(st, st', t)
  {
  }

  lemma LookedLocks(c: Config, st: State, t: nat, ch: Choice, st': State)
    requires t < |st.threads| && InBounds(st, t) && PhaseOf(st.threads[t].pc) == Using && st' == ApplyUse(st, t, ch)
    requires st.threads[t].pc.Looked?
    requires Touches(st, st', t, Target(st.threads[t]))
    ensures LockMove(st, st', t)
  {
  }

  lemma InOpLocks(c: Config, st: State, t: nat, ch: Choice, st': State)
    requires t < |st.threads| && InBounds(st, t) && PhaseOf(st.threads[t].pc) == Using && st' == ApplyUse(st, t, ch)
    requires st.threads[t].pc.InOp?
    requires Touches(st, st', t, Target(st.threads[t]))
    ensures LockMove(st, st', t)
  {
  }

  lemma DecLocks(c: Config, st: State, t: nat, ch: Choice, st': State)
    requires t < |st.threads| && InBounds(st, t) && PhaseOf(st.threads[t].pc) == Using && st' == ApplyUse(st, t, ch)
    requires st.threads[t].pc.Dec?
    requires Touches(st, st', t, Target(st.threads[t]))
    ensures LockMove(st, st', t)
  {
  }

  lemma UsingLocks(c: Config, st: State, t: nat, ch: Choice, st': State)
    requires t < |st.threads| && InBounds(st, t) && PhaseOf(st.threads[t].pc) == Using && st' == ApplyUse(st, t, ch)
    requires Touches(st, st', t, Target(st.threads[t]))
    ensures LockMove(st, st', t)
  {
    hide ApplyUse, LockMove, Touches;
    if st.threads[t].pc.Use? {
      UseLocks(c, st, t, ch, st');
    } else if st.threads[t].pc.Looked? {
      LookedLocks(c, st, t, ch, st');
    } else if st.threads[t].pc.InOp? {
      InOpLocks(c, st, t, ch, st');
    } else {
      DecLocks(c, st, t, ch, st');
    }
  }

  lemma UsingContent(c: Config, st: State, t: nat, ch: Choice, st': State)
    requires t < |st.threads| && InBounds(st, t) && PhaseOf(st.threads[t].pc) == Using && st' == ApplyUse(st, t, ch)
    requires Touches(st, st', t, Target(st.threads[t]))
    ensures ContentMove(st, st', t, Target(st.threads[t]))
  {
  }

  lemma UsingHandles(c: Config, st: State, t: nat, ch: Choice, st': State)
    requires t < |st.threads| && InBounds(st, t) && PhaseOf(st.threads[t].pc) == Using && st' == ApplyUse(st, t, ch)
    requires Touches(st, st', t, Target(st.threads[t]))
    ensures HandleMove(st, st', t, Target(st.threads[t]))
  {
  }

  lemma UsingCounts(c: Config, st: State, t: nat, ch: Choice, st': State)
    requires t < |st.threads| && InBounds(st, t) && PhaseOf(st.threads[t].pc) == Using && st' == ApplyUse(st, t, ch)
    requires Touches(st, st', t, Target(st.threads[t]))
    requires Shaped(c, st.threads[t], |st.slots|)
    ensures CountMove(st, st', t, Target(st.threads[t]))
  {
  }

  lemma UsingTimes(c: Config, st: State, t: nat, ch: Choice, st': State)
    requires t < |st.threads| && InBounds(st, t) && PhaseOf(st.threads[t].pc) == Using && st' == ApplyUse(st, t, ch)
    requires Touches(st, st', t, Target(st.threads[t]))
    ensures TimeMove(st, st', t, Target(st.threads[t]))
  {
  }

  lemma UsingShaped(c: Config, st: State, t: nat, ch: Choice, st': State)
    requires t < |st.threads| && InBounds(st, t) && PhaseOf(st.threads[t].pc) == Using && st' == ApplyUse(st, t, ch)
    requires Shaped(c, st.threads[t], |st.slots|)
    requires Touches(st, st', t, Target(st.threads[t]))
    requires Allowed(c, st, t, ch)
    ensures Shaped(c, st'.threads[t], |st'.slots|)
  {
  }

  lemma UseMutex(c: Config, st: State, t: nat, ch: Choice, st': State)
    requires t < |st.threads| && InBounds(st, t) && PhaseOf(st.threads[t].pc) == Using && st' == ApplyUse(st, t, ch)
    requires st.threads[t].pc.Use?
    requires Touches(st, st', t, Target(st.threads[t]))
    requires OwnsThem(st, t)
    ensures MutexMove(st, st', t, Target(st.threads[t]))
  {
  }

  lemma LookedMutex(c: Config, st: State, t: nat, ch: Choice, st': State)
    requires t < |st.threads| && InBounds(st, t) && PhaseOf(st.threads[t].pc) == Using && st' == ApplyUse(st, t, ch)
    requires st.threads[t].pc.Looked?
    requires Touches(st, st', t, Target(st.threads[t]))
    requires OwnsThem(st, t)
    ensures MutexMove(st, st', t, Target(st.threads[t]))
  {
  }

  lemma InOpMutex(c: Config, st: State, t: nat, ch: Choice, st': State)
    requires t < |st.threads| && InBounds(st, t) && PhaseOf(st.threads[t].pc) == Using && st' == ApplyUse(st, t, ch)
    requires st.threads[t].pc.InOp?
    requires Touches(st, st', t, Target(st.threads[t]))
    requires OwnsThem(st, t)
    ensures MutexMove(st, st', t, Target(st.threads[t]))
  {
  }

  lemma DecMutex(c: Config, st: State, t: nat, ch: Choice, st': State)
    requires t < |st.threads| && InBounds(st, t) && PhaseOf(st.threads[t].pc) == Using && st' == ApplyUse(st, t, ch)
    requires st.threads[t].pc.Dec?
    requires Touches(st, st', t, Target(st.threads[t]))
    requires OwnsThem(st, t)
    ensures MutexMove(st, st', t, Target(st.threads[t]))
  {
  }

  lemma UsingMutex(c: Config, st: State, t: nat, ch: Choice, st': State)
    requires t < |st.threads| && InBounds(st, t) && PhaseOf(st.threads[t].pc) == Using && st' == ApplyUse(st, t, ch)
    requires Touches(st, st', t, Target(st.threads[t]))
    requires OwnsThem(st, t)
    ensures MutexMove(st, st', t, Target(st.threads[t]))
  {
    hide ApplyUse, MutexMove, Touches, OwnsThem;
    if st.threads[t].pc.Use? {
      UseMutex(c, st, t, ch, st');
    } else if st.threads[t].pc.Looked? {
      LookedMutex(c, st, t, ch, st');
    } else if st.threads[t].pc.InOp? {
      InOpMutex(c, st, t, ch, st');
    } else {
      DecMutex(c, st, t, ch, st');
    }
  }

  lemma UsingMoves(c: Config, st: State, t: nat, ch: Choice, st': State)
    requires t < |st.threads| && InBounds(st, t) && PhaseOf(st.threads[t].pc) == Using && st' == ApplyUse(st, t, ch)
    requires !Blocked(c, st, t) && Allowed(c, st, t, ch) && Knows(c, st, t)
    ensures Moves(c, st, t, st')
  {
    UsingTouches(c, st, t, ch, st');
    UsingLocks(c, st, t, ch, st');
    UsingContent(c, st, t, ch, st');
    UsingHandles(c, st, t, ch, st');
    UsingCounts(c, st, t, ch, st');
    UsingTimes(c, st, t, ch, st');
    UsingShaped(c, st, t, ch, st');
    UsingMutex(c, st, t, ch, st');
  }

  lemma ClearingTouches(c: Config, st: State, t: nat, ch: Choice, st': State)
    requires t < |st.threads| && InBounds(st, t) && PhaseOf(st.threads[t].pc) == Clearing && st' == ApplyClear(st, t)
    ensures Touches(st, st', t, Target(st.threads[t]))
  {
  }

  lemma ClearingLocks(c: Config, st: State, t: nat, ch: Choice, st': State)
    requires t < |st.threads| && InBounds(st, t) && PhaseOf(st.threads[t].pc) == Clearing && st' == ApplyClear(st, t)
    requires Touches(st, st', t, Target(st.threads[t]))
    requires !Blocked(c, st, t)
    ensures LockMove(st, st', t)
  {
  }

  lemma ClearingContent(c: Config, st: State, t: nat, ch: Choice, st': State)
    requires t < |st.threads| && InBounds(st, t) && PhaseOf(st.threads[t].pc) == Clearing && st' == ApplyClear(st, t)
    requires Touches(st, st', t, Target(st.threads[t]))
    ensures ContentMove(st, st', t, Target(st.threads[t]))
  {
  }

  lemma ClearingHandles(c: Config, st: State, t: nat, ch: Choice, st': State)
    requires t < |st.threads| && InBounds(st, t) && PhaseOf(st.threads[t].pc) == Clearing && st' == ApplyClear(st, t)
    requires Touches(st, st', t, Target(st.threads[t]))
    ensures HandleMove(st, st', t, Target(st.threads[t]))
  {
  }

  lemma ClearingCounts(c: Config, st: State, t: nat, ch: Choice, st': State)
    requires t < |st.threads| && InBounds(st, t) && PhaseOf(st.threads[t].pc) == Clearing && st' == ApplyClear(st, t)
    requires Touches(st, st', t, Target(st.threads[t]))
    requires Shaped(c, st.threads[t], |st.slots|)
    ensures CountMove(st, st', t, Target(st.threads[t]))
  {
  }

  lemma ClearingTimes(c: Config, st: State, t: nat, ch: Choice, st': State)
    requires t < |st.threads| && InBounds(st, t) && PhaseOf(st.threads[t].pc) == Clearing && st' == ApplyClear(st, t)
    requires Touches(st, st', t, Target(st.threads[t]))
    ensures TimeMove(st, st', t, Target(st.threads[t]))
  {
  }

  lemma ClearingShaped(c: Config, st: State, t: nat, ch: Choice, st': State)
    requires t < |st.threads| && InBounds(st, t) && PhaseOf(st.threads[t].pc) == Clearing && st' == ApplyClear(st, t)
    requires Shaped(c, st.threads[t], |st.slots|)
    requires Touches(st, st', t, Target(st.threads[t]))
    ensures Shaped(c, st'.threads[t], |st'.slots|)
  {
    hide Touches;
  }

  lemma AwaitClearMutex(c: Config, st: State, t: nat, ch: Choice, st': State)
    requires t < |st.threads| && InBounds(st, t) && PhaseOf(st.threads[t].pc) == Clearing && st' == ApplyClear(st, t)
    requires st.threads[t].pc.AwaitClear?
    requires Touches(st, st', t, Target(st.threads[t]))
    requires OwnsThem(st, t)
    requires Target(st.threads[t]) < |st.slots| ==> HeldRightly(st, Target(st.threads[t]))
    ensures MutexMove(st, st', t, Target(st.threads[t]))
  {
  }

  lemma ClearSlotMutex(c: Config, st: State, t: nat, ch: Choice, st': State)
    requires t < |st.threads| && InBounds(st, t) && PhaseOf(st.threads[t].pc) == Clearing && st' == ApplyClear(st, t)
    requires st.threads[t].pc.Clear? && st.threads[t].pc.i < |st.slots|
    requires Touches(st, st', t, Target(st.threads[t]))
    requires OwnsThem(st, t)
    requires Target(st.threads[t]) < |st.slots| ==> HeldRightly(st, Target(st.threads[t]))
    ensures MutexMove(st, st', t, Target(st.threads[t]))
  {
  }

  lemma ClearEndMutex(c: Config, st: State, t: nat, ch: Choice, st': State)
    requires t < |st.threads| && InBounds(st, t) && PhaseOf(st.threads[t].pc) == Clearing && st' == ApplyClear(st, t)
    requires st.threads[t].pc.Clear? && st.threads[t].pc.i >= |st.slots|
    requires Touches(st, st', t, Target(st.threads[t]))
    requires OwnsThem(st, t)
    requires Target(st.threads[t]) < |st.slots| ==> HeldRightly(st, Target(st.threads[t]))
    ensures MutexMove(st, st', t, Target(st.threads[t]))
  {
  }

  lemma ClearingMutex(c: Config, st: State, t: nat, ch: Choice, st': State)
    requires t < |st.threads| && InBounds(st, t) && PhaseOf(st.threads[t].pc) == Clearing && st' == ApplyClear(st, t)
    requires Touches(st, st', t, Target(st.threads[t]))
    requires OwnsThem(st, t)
    requires Target(st.threads[t]) < |st.slots| ==> HeldRightly(st, Target(st.threads[t]))
    ensures MutexMove(st, st', t, Target(st.threads[t]))
  {
    hide ApplyClear, MutexMove, Touches, OwnsThem;
    if st.threads[t].pc.AwaitClear? {
      AwaitClearMutex(c, st, t, ch, st');
    } else if st.threads[t].pc.Clear? && st.threads[t].pc.i < |st.slots| {
      ClearSlotMutex(c, st, t, ch, st');
    } else {
      ClearEndMutex(c, st, t, ch, st');
    }
  }

  lemma ClearingMoves(c: Config, st: State, t: nat, ch: Choice, st': State)
    requires t < |st.threads| && InBounds(st, t) && PhaseOf(st.threads[t].pc) == Clearing && st' == ApplyClear(st, t)
    requires !Blocked(c, st, t) && Allowed(c, st, t, ch) && Knows(c, st, t)
    ensures Moves(c, st, t, st')
  {
    ClearingTouches(c, st, t, ch, st');
    ClearingLocks(c, st, t, ch, st');
    ClearingContent(c, st, t, ch, st');
    ClearingHandles(c, st, t, ch, st');
    ClearingCounts(c, st, t, ch, st');
    ClearingTimes(c, st, t, ch, st');
    ClearingShaped(c, st, t, ch, st');
    ClearingMutex(c, st, t, ch, st');
  }

  /** An action changes at most the thread that acts and one slot. */
  lemma EveryActionTouches(c: Config, st: State, t: nat, ch: Choice)
    requires Enabled(c, st, t, ch)
    ensures Touches(st, Apply(c, st, t, ch), t, Target(st.threads[t]))
  {
    hide Touches, ApplyScan, ApplyHunt, ApplyInstall, ApplyUse, ApplyClear;
    var st' := Apply(c, st, t, ch);
    match PhaseOf(st.threads[t].pc)
    case Resting => RestingTouches(st, t, ch, st');
    case Scanning => ScanningTouches(c, st, t, ch, st');
    case Hunting => HuntingTouches(c, st, t, ch, st');
    case Installing => InstallingTouches(c, st, t, ch, st');
    case Using => UsingTouches(c, st, t, ch, st');
    case Clearing => ClearingTouches(c, st, t, ch, st');
  }
}
