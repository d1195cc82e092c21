/** Every action of every thread keeps the invariant. */
module CacheSafety {
  import opened Types
  import opened CacheProtocol
  import opened CacheInvariants
  import opened CacheLocal
  import opened CacheSteps

  lemma KnowsFromInv(c: Config, st: State, t: nat)
    requires Inv(c, st) && t < |st.threads|
    ensures Knows(c, st, t)
  {
    assert Shaped(c, st.threads[t], |st.slots|) && OwnsThem(st, t) && WriterOk(c, st, t) && UnusedNow(st, t);
    forall v | v in Unused(st.threads[t].pc) ensures v !in st.threads[t].pending {
      UnusedHasNoHolders(st, t, v);
    }
  }

  lemma EveryActionMoves(c: Config, st: State, t: nat, ch: Choice)
    requires Enabled(c, st, t, ch) && Knows(c, st, t)
    ensures Moves(c, st, t, Apply(c, st, t, ch))
  {
    var st' := Apply(c, st, t, ch);
    match PhaseOf(st.threads[t].pc)
    case Resting => RestingMoves(c, st, t, ch, st');
    case Scanning => ScanningMoves(c, st, t, ch, st');
    case Hunting => HuntingMoves(c, st, t, ch, st');
    case Installing => InstallingMoves(c, st, t, ch, st');
    case Using => UsingMoves(c, st, t, ch, st');
    case Clearing => ClearingMoves(c, st, t, ch, st');
  }

  /** The parts of the invariant that only say who holds what. */
  ghost predicate Control(c: Config, st: State) {
    Locks(st) && AllShaped(c, st) && Mutexes(st) && Counted(st) && Handles(st) && Balanced(st) && ClosesCounted(st) && Times(st)
  }

  lemma ControlKept(c: Config, st: State, t: nat, st': State)
    requires Control(c, st) && Moves(c, st, t, st')
    ensures Control(c, st')
  {
    var s := Target(st.threads[t]);
    LocksKept(st, st', t, s);
    MutexesKept(st, st', t, s);
    CountedKept(st, st', t, s);
    HandlesKept(st, st', t, s);
    BalancedKept(st, st', t, s);
    ClosesCountedKept(st, st', t, s);
    TimesKept(st, st', t, s);
  }

  lemma SeesFromInv(c: Config, st: State, t: nat)
    requires Inv(c, st) && t < |st.threads|
    ensures Sees(c, st, t)
  {
    var th := st.threads[t];
    assert KeyedIfQuiet(c, st, t) && ScannedBy(c, st, t) && DrawnFresh(st, t);
    KnowsFromInv(c, st, t);
    assert UnusedNow(st, t);
    if Writing(th.pc) || Reading(th.pc) {
      WriterSeesFormed(c, st, t);
    }
    if th.pc.Stamp? && th.pc.i < |st.slots| {
      var j :| 0 <= j < |th.pending| && th.pending[j] == th.pc.i;
      PinnedIsUsable(c, st, t, j);
    }
    if Writing(th.pc) && PhaseOf(th.pc) == Hunting {
      WriterSeesSlots(c, st, t);
    }
    if c.quietClears && th.pc.Clear? {
      QuietUses(c, st, t);
    }
  }

  lemma WriterSeesSlots(c: Config, st: State, t: nat)
    requires Inv(c, st) && t < |st.threads| && Writing(st.threads[t].pc) && PhaseOf(st.threads[t].pc) == Hunting
    ensures SeesSlots(c, st, t)
  {
    WriterSeesFormed(c, st, t);
    if Tidy(c) {
      forall r | 0 <= r < |st.slots| && st.slots[r].ds.None?
        ensures st.slots[r].uses == 0 && (r in st.stuck || r in Owned(st.threads[t]) || st.slots[r].mutex == None)
      {
        EmptyIsFree(c, st, t, r);
      }
    }
  }

  lemma QuietUses(c: Config, st: State, t: nat)
    requires c.quietClears && Locks(st) && Counted(st) && ClearedQuietly(c, st) && t < |st.threads| && st.threads[t].pc.Clear?
    ensures forall r :: 0 <= r < |st.slots| ==> st.slots[r].uses == 0
  {
    assert st.writer == Some(t);
    forall r | 0 <= r < |st.slots| ensures st.slots[r].uses == 0 {
      assert Holders(st.threads, r) == {};
    }
  }

  lemma EveryActionLands(c: Config, st: State, t: nat, ch: Choice)
    requires Enabled(c, st, t, ch) && Sees(c, st, t)
    requires Moves(c, st, t, Apply(c, st, t, ch))
    ensures Lands(c, st, t, Apply(c, st, t, ch))
  {
    var st' := Apply(c, st, t, ch);
    match PhaseOf(st.threads[t].pc)
    case Resting => RestingLands(c, st, t, ch, st');
    case Scanning => ScanningLands(c, st, t, st');
    case Hunting => HuntingLands(c, st, t, st');
    case Installing => InstallingLands(c, st, t, ch, st');
    case Using => UsingLands(c, st, t, ch, st');
    case Clearing => ClearingLands(c, st, t, st');
  }

  /** The parts of the invariant that say what slots and lists contain. */
  ghost predicate Contents(c: Config, st: State) {
    Evictable(st) && Keyed(c, st) && Scanned(c, st) && AllFormed(c, st) && WritersOk(c, st)
  }

  lemma ContentsKept(c: Config, st: State, t: nat, st': State)
    requires Control(c, st) && Contents(c, st) && Moves(c, st, t, st') && Control(c, st') && Lands(c, st, t, st')
    ensures Contents(c, st')
  {
    var s := Target(st.threads[t]);
    EvictableKept(st, st', t, s);
    KeyedKept(c, st, st', t, s);
    ScannedKept(c, st, st', t, s);
    AllFormedKept(c, st, st', t, s);
    WritersOkKept(c, st, st', t, s);
  }

  lemma CountersKept(c: Config, st: State, t: nat, ch: Choice)
    requires Inv(c, st) && Enabled(c, st, t, ch) && Sees(c, st, t)
    requires Moves(c, st, t, Apply(c, st, t, ch)) && Control(c, Apply(c, st, t, ch)) && WithinLock(st, t, Apply(c, st, t, ch))
    ensures Sized(c, Apply(c, st, t, ch)) && StuckCounted(Apply(c, st, t, ch))
  {
    var st' := Apply(c, st, t, ch);
    if !Writing(st.threads[t].pc) && !Writing(st'.threads[t].pc) {
      SizedUndisturbed(c, st, st', t, Target(st.threads[t]));
    } else {
      CountersOfWriter(c, st, t, ch);
    }
  }

  lemma CountersAtWriter(c: Config, st: State, t: nat, ch: Choice)
    requires |st.slots| == c.capacity && Enabled(c, st, t, ch) && Sees(c, st, t) && OwnsThem(st, t)
    requires SizedAt(c, st, Current(st.threads[t].pc)) && StuckCountedAt(st, Current(st.threads[t].pc))
    requires var st' := Apply(c, st, t, ch); Touches(st, st', t, Target(st.threads[t]))
    requires Writing(st.threads[t].pc) || Writing(Apply(c, st, t, ch).threads[t].pc)
    ensures var st' := Apply(c, st, t, ch);
      SizedAt(c, st', Current(st'.threads[t].pc)) && StuckCountedAt(st', Current(st'.threads[t].pc))
  {
    hide SizedAt, StuckCountedAt, ApplyIdle, ApplyScan, ApplyHunt, ApplyInstall, ApplyUse, ApplyClear;
    var st' := Apply(c, st, t, ch);
    match PhaseOf(st.threads[t].pc)
    case Hunting => HuntingSized(c, st, t, st');
    case Installing =>
      InstallerWrites(c, st, t, ch);
      InstallingSized(c, st, t, ch, st');
    case Clearing => ClearingSized(c, st, t, st');
    case _ => OthersDoNotWrite(c, st, t, ch);
  }

  lemma CountersOfWriter(c: Config, st: State, t: nat, ch: Choice)
    requires Locks(st) && Sized(c, st) && StuckCounted(st) && Mutexes(st) && |st.slots| == c.capacity
    requires Enabled(c, st, t, ch) && Sees(c, st, t)
    requires var st' := Apply(c, st, t, ch); Moves(c, st, t, st') && Locks(st')
    requires Writing(st.threads[t].pc) || Writing(Apply(c, st, t, ch).threads[t].pc)
    ensures Sized(c, Apply(c, st, t, ch)) && StuckCounted(Apply(c, st, t, ch))
  {
    hide Apply, SizedAt, StuckCountedAt;
    var st' := Apply(c, st, t, ch);
    WriterStands(st, t);
    WriterStands(st', t);
    assert OwnsThem(st, t);
    CountersAtWriter(c, st, t, ch);
  }

  lemma QuietKept(c: Config, st: State, t: nat, st': State)
    requires Control(c, st) && ClearedQuietly(c, st) && Moves(c, st, t, st') && Locks(st') && WithinLock(st, t, st')
    requires c.quietClears && st'.threads[t].pc.Clear? && !st.threads[t].pc.Clear? ==> Quiescent(st)
    ensures ClearedQuietly(c, st')
  {
    if c.quietClears && WriterPc(st').Clear? {
      var w := st'.writer.value;
      assert Shaped(c, st'.threads[t], |st'.slots|);
      if w == t {
        if st.threads[t].pc.Clear? {
          WriterStands(st, t);
        }
      } else {
        assert Writing(st.threads[w].pc) && Quiescent(st);
        assert !Reading(st.threads[t].pc) && !Writing(st.threads[t].pc);
      }
      assert Quiescent(st);
      assert st'.threads[t].pending == [];
    }
  }

  /** `clear` starts only when nobody holds a reference. */
  lemma ClearStartsQuietly(c: Config, st: State, t: nat, ch: Choice)
    requires Enabled(c, st, t, ch) && !st.threads[t].pc.Clear? && Moves(c, st, t, Apply(c, st, t, ch))
    requires WithinLock(st, t, Apply(c, st, t, ch))
    ensures c.quietClears && Apply(c, st, t, ch).threads[t].pc.Clear? ==> Quiescent(st)
  {
  }

  lemma CleanKept(c: Config, st: State, t: nat, ch: Choice)
    requires Inv(c, st) && Enabled(c, st, t, ch)
    ensures Clean(c, Apply(c, st, t, ch))
  {
    var st' := Apply(c, st, t, ch);
    KnowsFromInv(c, st, t);
    SeesFromInv(c, st, t);
    match PhaseOf(st.threads[t].pc)
    case Hunting => HuntingClean(st, t, st');
    case Installing => InstallingClean(c, st, t, ch, st');
    case Using =>
      assert KeyedIfQuiet(c, st, t);
      if c.quietClears && st.threads[t].pending != [] {
        PinnedIsUsable(c, st, t, 0);
      }
      UsingClean(c, st, t, ch, st');
    case Clearing => ClearingClean(c, st, t, st');
    case _ =>
  }

  /** One action of any thread, whatever the environment decides. */
  lemma InvKept(c: Config, st: State, t: nat, ch: Choice)
    requires Inv(c, st) && Enabled(c, st, t, ch)
    ensures Inv(c, Apply(c, st, t, ch))
  {
    var st' := Apply(c, st, t, ch);
    KnowsFromInv(c, st, t);
    SeesFromInv(c, st, t);
    EveryActionMoves(c, st, t, ch);
    EveryActionLands(c, st, t, ch);
    ControlKept(c, st, t, st');
    ContentsKept(c, st, t, st');
    CountersKept(c, st, t, ch);
    if !st.threads[t].pc.Clear? {
      ClearStartsQuietly(c, st, t, ch);
    }
    QuietKept(c, st, t, st');
    CleanKept(c, st, t, ch);
  }

  lemma InvAtStart(c: Config, st: State)
    requires Init(c, st)
    ensures Inv(c, st)
  {
    assert forall s :: 0 <= s < |st.slots| ==> Holders(st.threads, s) == {};
    assert Live(st.slots) == {} && Shut(st.gdal.open) == {};
    assert forall t :: 0 <= t < |st.threads| ==> st.threads[t] == RESTING;
  }

  /** The invariant holds in every state of every run. */
  lemma {:induction false} InvAlways(c: Config, run: seq<State>, k: nat)
    requires IsRun(c, run) && k < |run|
    ensures Inv(c, run[k])
    decreases k
  {
    if k == 0 {
      InvAtStart(c, run[0]);
    } else {
      InvAlways(c, run, k - 1);
      assert Next(c, run[k - 1], run[k - 1 + 1]);
      var t, ch :| Enabled(c, run[k - 1], t, ch) && run[k] == Apply(c, run[k - 1], t, ch);
      InvKept(c, run[k - 1], t, ch);
    }
  }
}
