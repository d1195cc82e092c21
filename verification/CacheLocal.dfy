/** What the acting thread itself has to establish about slots, lists and the victim scan. */
module CacheLocal {
  import opened Types
  import opened CacheProtocol
  import opened CacheInvariants

  // ----- consequences of the invariant for one thread -----

  /** When a writer is not in the middle of rewriting a slot, every slot is well formed. */
  lemma WriterSeesFormed(c: Config, st: State, t: nat)
    requires AllFormed(c, st) && Locks(st) && t < |st.threads|
    requires Writing(st.threads[t].pc) || Reading(st.threads[t].pc) || st.writer.None?
    ensures forall r :: 0 <= r < |st.slots| && r !in Rewriting(st.threads[t].pc) ==> Formed(c, st.slots[r])
  {
    forall r | 0 <= r < |st.slots| && r !in Rewriting(st.threads[t].pc) ensures Formed(c, st.slots[r]) {
      assert FormedOrRewritten(c, st, r);
    }
  }

  /** A slot being rewritten has no references, so a pinned slot is well formed. */
  lemma PinnedIsFormed(c: Config, st: State, u: nat, r: nat)
    requires AllFormed(c, st) && Evictable(st) && Counted(st) && u < |st.threads|
    requires r < |st.slots| && r in st.threads[u].pending
    ensures Formed(c, st.slots[r])
  {
    assert FormedOrRewritten(c, st, r);
    if !Formed(c, st.slots[r]) {
      var w := st.writer.value;
      assert UnusedNow(st, w);
      assert r in Unused(st.threads[w].pc);
      UnusedHasNoHolders(st, u, r);
    }
  }

  /** Every pinned slot has the key that was asked for, and its dataset is there and open. */
  lemma PinnedIsUsable(c: Config, st: State, u: nat, j: nat)
    requires Inv(c, st) && u < |st.threads| && KeyedBy(c, st, u) && j < |st.threads[u].pending|
    ensures var s := st.threads[u].pending[j];
      && s < |st.slots| && st.slots[s].key == st.threads[u].key
      && (st.slots[s].ds.Some? ==> PairOpen(st.gdal, st.slots[s].ds.value))
      && (Proper(c) ==> st.slots[s].ds.Some?)
  {
    var th := st.threads[u];
    PinnedIsFormed(c, st, u, th.pending[j]);
    assert Shaped(c, th, |st.slots|);
  }

  /** An empty slot is in nobody's list. */
  lemma EmptyUnused(c: Config, st: State, u: nat, r: nat)
    requires Tidy(c) && Keyed(c, st) && AllShaped(c, st) && u < |st.threads|
    requires r < |st.slots| && Formed(c, st.slots[r]) && st.slots[r].ds.None?
    ensures r !in st.threads[u].pending
  {
    assert KeyedIfQuiet(c, st, u) && Shaped(c, st.threads[u], |st.slots|);
  }

  /** An empty slot that no failed insert has locked is unlocked and unused, so a hunting writer takes it. */
  lemma EmptyIsFree(c: Config, st: State, t: nat, r: nat)
    requires Tidy(c) && Locks(st) && Keyed(c, st) && AllShaped(c, st) && Counted(st) && Mutexes(st)
    requires t < |st.threads| && Writing(st.threads[t].pc)
    requires r < |st.slots| && Formed(c, st.slots[r]) && st.slots[r].ds.None?
    ensures st.slots[r].uses == 0
    ensures r !in st.stuck && r !in Owned(st.threads[t]) ==> st.slots[r].mutex == None
  {
    forall u | 0 <= u < |st.threads| ensures r !in st.threads[u].pending {
      EmptyUnused(c, st, u, r);
    }
    assert Holders(st.threads, r) == {};
    assert HeldRightly(st, r);
  }

  // ----- references -----

  /** What the action of a thread leaves in its own list still matches, and nobody else's slot is rewritten. */
  ghost predicate KeysStay(c: Config, st: State, t: nat, st': State)
    requires t < |st.threads| && t < |st'.threads| && |st'.slots| == |st.slots|
  {
    var s := Target(st.threads[t]);
    && KeyedIfQuiet(c, st', t)
    && (s < |st.slots| && st.slots[s].uses != 0 && (c.quietClears || !st.threads[t].pc.Clear?) ==>
          st'.slots[s].tag == st.slots[s].tag && st'.slots[s].key == st.slots[s].key)
  }

  lemma ScanningKeys(c: Config, st: State, t: nat, st': State)
    requires t < |st.threads| && InBounds(st, t) && PhaseOf(st.threads[t].pc) == Scanning && st' == ApplyScan(c, st, t)
    requires KeyedIfQuiet(c, st, t) && Shaped(c, st.threads[t], |st.slots|)
    ensures KeysStay(c, st, t, st')
  {
  }

  lemma HuntingKeys(c: Config, st: State, t: nat, st': State)
    requires t < |st.threads| && InBounds(st, t) && PhaseOf(st.threads[t].pc) == Hunting && st' == ApplyHunt(st, t)
    requires KeyedIfQuiet(c, st, t)
    ensures KeysStay(c, st, t, st')
  {
  }

  lemma InstallingKeys(c: Config, st: State, t: nat, ch: Choice, st': State)
    requires t < |st.threads| && InBounds(st, t) && PhaseOf(st.threads[t].pc) == Installing && st' == ApplyInstall(c, st, t, ch)
    requires KeyedIfQuiet(c, st, t) && UnusedNow(st, t) && WriterOk(c, st, t)
    requires forall v :: v in Unused(st.threads[t].pc) ==> v !in st.threads[t].pending
    ensures KeysStay(c, st, t, st')
  {
    var victim := Target(st.threads[t]);
    assert victim in Unused(st.threads[t].pc);
  }

  lemma UsingKeys(c: Config, st: State, t: nat, ch: Choice, st': State)
    requires t < |st.threads| && InBounds(st, t) && PhaseOf(st.threads[t].pc) == Using && st' == ApplyUse(st, t, ch)
    requires KeyedIfQuiet(c, st, t)
    ensures KeysStay(c, st, t, st')
  {
  }

  lemma ClearingKeys(c: Config, st: State, t: nat, st': State)
    requires t < |st.threads| && InBounds(st, t) && PhaseOf(st.threads[t].pc) == Clearing && st' == ApplyClear(st, t)
    requires Shaped(c, st.threads[t], |st.slots|)
    requires c.quietClears && st.threads[t].pc.Clear? ==> forall r :: 0 <= r < |st.slots| ==> st.slots[r].uses == 0
    ensures KeysStay(c, st, t, st')
  {
  }

  lemma ScanningScanned(c: Config, st: State, t: nat, st': State)
    requires t < |st.threads| && InBounds(st, t) && PhaseOf(st.threads[t].pc) == Scanning && st' == ApplyScan(c, st, t)
    requires ScannedBy(c, st, t)
    ensures ScannedBy(c, st', t)
  {
    var i := if st.threads[t].pc.Scan? then st.threads[t].pc.i else 0;
    assert st.threads[t].pc.Scan? && i < |st.slots| && Matches(c, st.slots[i], st.threads[t].key) ==>
      i in st'.threads[t].pending && forall r :: r in st.threads[t].pending ==> r in st'.threads[t].pending;
  }

  lemma HuntUnused(st: State, t: nat, st': State)
    requires t < |st.threads| && InBounds(st, t) && PhaseOf(st.threads[t].pc) == Hunting && st' == ApplyHunt(st, t)
    requires st.threads[t].pc.Hunt?
    requires UnusedNow(st, t)
    ensures UnusedNow(st', t)
  {
  }

  lemma ProbeUnused(st: State, t: nat, st': State)
    requires t < |st.threads| && InBounds(st, t) && PhaseOf(st.threads[t].pc) == Hunting && st' == ApplyHunt(st, t)
    requires (st.threads[t].pc.Probe? || st.threads[t].pc.Unprobe? || st.threads[t].pc.Drop?)
    requires UnusedNow(st, t)
    ensures UnusedNow(st', t)
  {
  }

  lemma AcquireUnused(st: State, t: nat, st': State)
    requires t < |st.threads| && InBounds(st, t) && PhaseOf(st.threads[t].pc) == Hunting && st' == ApplyHunt(st, t)
    requires !(st.threads[t].pc.Hunt? || st.threads[t].pc.Probe? || st.threads[t].pc.Unprobe? || st.threads[t].pc.Drop?)
    requires UnusedNow(st, t)
    ensures UnusedNow(st', t)
  {
  }

  lemma HuntingUnused(st: State, t: nat, st': State)
    requires t < |st.threads| && InBounds(st, t) && PhaseOf(st.threads[t].pc) == Hunting && st' == ApplyHunt(st, t)
    requires UnusedNow(st, t)
    ensures UnusedNow(st', t)
  {
    hide ApplyHunt, UnusedNow;
    if st.threads[t].pc.Hunt? {
      HuntUnused(st, t, st');
    } else if (st.threads[t].pc.Probe? || st.threads[t].pc.Unprobe? || st.threads[t].pc.Drop?) {
      ProbeUnused(st, t, st');
    } else {
      AcquireUnused(st, t, st');
    }
  }

  lemma InstallingUnused(c: Config, st: State, t: nat, ch: Choice, st': State)
    requires t < |st.threads| && InBounds(st, t) && PhaseOf(st.threads[t].pc) == Installing && st' == ApplyInstall(c, st, t, ch)
    requires UnusedNow(st, t)
    ensures UnusedNow(st', t)
  {
  }

  // ----- contents -----

  /** The acting thread leaves its slot well formed, or goes on rewriting it. */
  ghost predicate FormedAfter(c: Config, st: State, t: nat, st': State)
    requires t < |st.threads| && t < |st'.threads| && |st'.slots| == |st.slots|
  {
    var s := Target(st.threads[t]);
    && Rewriting(st.threads[t].pc) <= {s}
    && (s < |st.slots| && (Writing(st.threads[t].pc) || st'.slots[s].atime != st.slots[s].atime) ==>
          Formed(c, st'.slots[s]) || s in Rewriting(st'.threads[t].pc))
    && (Rewriting(st'.threads[t].pc) != {} ==> Writing(st.threads[t].pc))
  }

  lemma ScanningFormed(c: Config, st: State, t: nat, st': State)
    requires t < |st.threads| && InBounds(st, t) && PhaseOf(st.threads[t].pc) == Scanning && st' == ApplyScan(c, st, t)
    requires DrawnFresh(st, t)
    requires st.threads[t].pc.Stamp? ==>
      Formed(c, st.slots[st.threads[t].pc.i]) && (Proper(c) ==> st.slots[st.threads[t].pc.i].ds.Some?)
    ensures FormedAfter(c, st, t, st')
  {
  }

  lemma HuntingFormed(c: Config, st: State, t: nat, st': State)
    requires t < |st.threads| && InBounds(st, t) && PhaseOf(st.threads[t].pc) == Hunting && st' == ApplyHunt(st, t)
    requires Writing(st.threads[t].pc) ==> forall r :: 0 <= r < |st.slots| ==> Formed(c, st.slots[r])
    ensures FormedAfter(c, st, t, st')
  {
  }

  lemma InstallingFormed(c: Config, st: State, t: nat, ch: Choice, st': State)
    requires t < |st.threads| && InBounds(st, t) && PhaseOf(st.threads[t].pc) == Installing && st' == ApplyInstall(c, st, t, ch)
    requires WriterOk(c, st, t)
    requires Target(st.threads[t]) !in Rewriting(st.threads[t].pc) ==> Formed(c, st.slots[Target(st.threads[t])])
    ensures FormedAfter(c, st, t, st')
  {
  }

  lemma UsingFormed(c: Config, st: State, t: nat, ch: Choice, st': State)
    requires t < |st.threads| && InBounds(st, t) && PhaseOf(st.threads[t].pc) == Using && st' == ApplyUse(st, t, ch)
    ensures FormedAfter(c, st, t, st')
  {
  }

  lemma ClearingFormed(c: Config, st: State, t: nat, st': State)
    requires t < |st.threads| && InBounds(st, t) && PhaseOf(st.threads[t].pc) == Clearing && st' == ApplyClear(st, t)
    ensures FormedAfter(c, st, t, st')
  {
  }

  // ----- the victim scan -----

  /** What a hunting writer knows of the slots it passes. */
  ghost predicate SeesSlots(c: Config, st: State, t: nat)
    requires t < |st.threads|
  {
    && (forall r :: 0 <= r < |st.slots| ==> Formed(c, st.slots[r]))
    && (Tidy(c) ==> forall r :: 0 <= r < |st.slots| && st.slots[r].ds.None? ==>
          st.slots[r].uses == 0 && (r in st.stuck || r in Owned(st.threads[t]) || st.slots[r].mutex == None))
  }

  lemma HuntWriter(c: Config, st: State, t: nat, st': State)
    requires t < |st.threads| && InBounds(st, t) && st.threads[t].pc.Hunt? && st' == ApplyHunt(st, t)
    requires Shaped(c, st.threads[t], |st.slots|) && WriterOk(c, st, t) && SeesSlots(c, st, t)
    ensures WriterOk(c, st', t)
  {
    var i := st.threads[t].pc.i;
    assert i < |st.slots| ==> i !in Owned(st.threads[t]);
  }

  lemma ProbeWriter(c: Config, st: State, t: nat, st': State)
    requires t < |st.threads| && InBounds(st, t) && st' == ApplyHunt(st, t) && st.threads[t].pc.Probe?
    requires Shaped(c, st.threads[t], |st.slots|) && WriterOk(c, st, t) && SeesSlots(c, st, t)
    ensures WriterOk(c, st', t)
  {
  }

  lemma UnprobeWriter(c: Config, st: State, t: nat, st': State)
    requires t < |st.threads| && InBounds(st, t) && st' == ApplyHunt(st, t) && st.threads[t].pc.Unprobe?
    requires Shaped(c, st.threads[t], |st.slots|) && WriterOk(c, st, t) && SeesSlots(c, st, t)
    ensures WriterOk(c, st', t)
  {
  }

  lemma DropWriter(c: Config, st: State, t: nat, st': State)
    requires t < |st.threads| && InBounds(st, t) && st' == ApplyHunt(st, t) && st.threads[t].pc.Drop?
    requires Shaped(c, st.threads[t], |st.slots|) && WriterOk(c, st, t) && SeesSlots(c, st, t)
    ensures WriterOk(c, st', t)
  {
  }

  lemma HuntingWriter(c: Config, st: State, t: nat, st': State)
    requires t < |st.threads| && InBounds(st, t) && PhaseOf(st.threads[t].pc) == Hunting && st' == ApplyHunt(st, t)
    requires Shaped(c, st.threads[t], |st.slots|) && WriterOk(c, st, t)
    requires Writing(st.threads[t].pc) ==> SeesSlots(c, st, t)
    ensures WriterOk(c, st', t)
  {
    var pc := st.threads[t].pc;
    if pc.Hunt? {
      HuntWriter(c, st, t, st');
    } else if pc.Probe? {
      ProbeWriter(c, st, t, st');
    } else if pc.Unprobe? {
      UnprobeWriter(c, st, t, st');
    } else if pc.Drop? {
      DropWriter(c, st, t, st');
    }
  }

  lemma InstallingWriter(c: Config, st: State, t: nat, ch: Choice, st': State)
    requires t < |st.threads| && InBounds(st, t) && PhaseOf(st.threads[t].pc) == Installing && st' == ApplyInstall(c, st, t, ch)
    requires WriterOk(c, st, t)
    ensures WriterOk(c, st', t)
  {
  }

  // ----- all of it together -----

  /** What a thread knows of the slots when it acts. */
  ghost predicate Sees(c: Config, st: State, t: nat)
    requires t < |st.threads|
  {
    var th := st.threads[t];
    && Shaped(c, th, |st.slots|) && KeyedIfQuiet(c, st, t) && ScannedBy(c, st, t) && UnusedNow(st, t) && WriterOk(c, st, t) && DrawnFresh(st, t)
    && (forall v :: v in Unused(th.pc) ==> v !in th.pending)
    && (th.pc.Stamp? && th.pc.i < |st.slots| ==> Formed(c, st.slots[th.pc.i]) && (Proper(c) ==> st.slots[th.pc.i].ds.Some?))
    && (Writing(th.pc) ==> forall r :: 0 <= r < |st.slots| && r !in Rewriting(th.pc) ==> Formed(c, st.slots[r]))
    && (Writing(th.pc) && PhaseOf(th.pc) == Hunting ==> SeesSlots(c, st, t))
    && (c.quietClears && th.pc.Clear? ==> forall r :: 0 <= r < |st.slots| ==> st.slots[r].uses == 0)
  }

  /** A thread without the write lock leaves the counters of the cache alone, and counts go up only under a lock. */
  predicate WithinLock(st: State, t: nat, st': State)
    requires t < |st.threads| && t < |st'.threads| && |st'.slots| == |st.slots|
  {
    var pc, s := st.threads[t].pc, Target(st.threads[t]);
    && (!Writing(pc) ==> st'.stuck == st.stuck && st'.size == st.size)
    && (!Writing(pc) ==> st'.failures == st.failures && st'.inherited == st.inherited)
    && (s < |st.slots| && st'.slots[s].uses > st.slots[s].uses ==> Reading(pc) || Writing(pc))
    && (st'.threads[t].pc.Clear? ==> PhaseOf(pc) == Clearing)
  }

  ghost predicate Lands(c: Config, st: State, t: nat, st': State)
    requires t < |st.threads| && t < |st'.threads| && |st'.slots| == |st.slots|
  {
    && KeysStay(c, st, t, st') && ScannedBy(c, st', t) && UnusedNow(st', t)
    && FormedAfter(c, st, t, st') && WriterOk(c, st', t) && WithinLock(st, t, st')
  }

  lemma RestingLands(c: Config, st: State, t: nat, ch: Choice, st': State)
    requires t < |st.threads| && InBounds(st, t) && PhaseOf(st.threads[t].pc) == Resting && st' == ApplyIdle(st, t, ch)
    requires Sees(c, st, t)
    ensures Lands(c, st, t, st')
  {
  }

  lemma ScanningLands(c: Config, st: State, t: nat, st': State)
    requires t < |st.threads| && InBounds(st, t) && PhaseOf(st.threads[t].pc) == Scanning && st' == ApplyScan(c, st, t)
    requires Sees(c, st, t)
    ensures Lands(c, st, t, st')
  {
    ScanningKeys(c, st, t, st');
    ScanningScanned(c, st, t, st');
    ScanningFormed(c, st, t, st');
    ScanningWithin(c, st, t, st');
  }

  lemma ScanningWithin(c: Config, st: State, t: nat, st': State)
    requires t < |st.threads| && InBounds(st, t) && PhaseOf(st.threads[t].pc) == Scanning && st' == ApplyScan(c, st, t)
    ensures WithinLock(st, t, st') && Unused(st'.threads[t].pc) == {} && WriterOk(c, st', t)
  {
  }

  lemma HuntingLands(c: Config, st: State, t: nat, st': State)
    requires t < |st.threads| && InBounds(st, t) && PhaseOf(st.threads[t].pc) == Hunting && st' == ApplyHunt(st, t)
    requires Sees(c, st, t)
    ensures Lands(c, st, t, st')
  {
    HuntingKeys(c, st, t, st');
    HuntingUnused(st, t, st');
    HuntingFormed(c, st, t, st');
    HuntingWriter(c, st, t, st');
    HuntingWithin(st, t, st');
  }

  lemma HuntWithin(st: State, t: nat, st': State)
    requires t < |st.threads| && InBounds(st, t) && PhaseOf(st.threads[t].pc) == Hunting && st' == ApplyHunt(st, t)
    requires st.threads[t].pc.Hunt?
    ensures WithinLock(st, t, st') && Reach(st'.threads[t].pc) == 0
  {
  }

  lemma ProbeWithin(st: State, t: nat, st': State)
    requires t < |st.threads| && InBounds(st, t) && PhaseOf(st.threads[t].pc) == Hunting && st' == ApplyHunt(st, t)
    requires (st.threads[t].pc.Probe? || st.threads[t].pc.Unprobe? || st.threads[t].pc.Drop?)
    ensures WithinLock(st, t, st') && Reach(st'.threads[t].pc) == 0
  {
  }

  lemma AcquireWithin(st: State, t: nat, st': State)
    requires t < |st.threads| && InBounds(st, t) && PhaseOf(st.threads[t].pc) == Hunting && st' == ApplyHunt(st, t)
    requires !(st.threads[t].pc.Hunt? || st.threads[t].pc.Probe? || st.threads[t].pc.Unprobe? || st.threads[t].pc.Drop?)
    ensures WithinLock(st, t, st') && Reach(st'.threads[t].pc) == 0
  {
  }

  lemma HuntingWithin(st: State, t: nat, st': State)
    requires t < |st.threads| && InBounds(st, t) && PhaseOf(st.threads[t].pc) == Hunting && st' == ApplyHunt(st, t)
    ensures WithinLock(st, t, st') && Reach(st'.threads[t].pc) == 0
  {
    hide ApplyHunt, WithinLock;
    if st.threads[t].pc.Hunt? {
      HuntWithin(st, t, st');
    } else if (st.threads[t].pc.Probe? || st.threads[t].pc.Unprobe? || st.threads[t].pc.Drop?) {
      ProbeWithin(st, t, st');
    } else {
      AcquireWithin(st, t, st');
    }
  }

  lemma InstallingLands(c: Config, st: State, t: nat, ch: Choice, st': State)
    requires t < |st.threads| && InBounds(st, t) && PhaseOf(st.threads[t].pc) == Installing && st' == ApplyInstall(c, st, t, ch)
    requires Sees(c, st, t)
    ensures Lands(c, st, t, st')
  {
    hide ApplyInstall, FormedAfter, KeysStay, KeyedBy;
    InstallingKeys(c, st, t, ch, st');
    InstallingUnused(c, st, t, ch, st');
    InstallingFormed(c, st, t, ch, st');
    InstallingWriter(c, st, t, ch, st');
    InstallingWithin(c, st, t, ch, st');
  }

  lemma InstallingWithin(c: Config, st: State, t: nat, ch: Choice, st': State)
    requires t < |st.threads| && InBounds(st, t) && PhaseOf(st.threads[t].pc) == Installing && st' == ApplyInstall(c, st, t, ch)
    ensures WithinLock(st, t, st') && Reach(st'.threads[t].pc) == 0
  {
  }

  lemma UsingLands(c: Config, st: State, t: nat, ch: Choice, st': State)
    requires t < |st.threads| && InBounds(st, t) && PhaseOf(st.threads[t].pc) == Using && st' == ApplyUse(st, t, ch)
    requires Sees(c, st, t)
    ensures Lands(c, st, t, st')
  {
    UsingKeys(c, st, t, ch, st');
    UsingFormed(c, st, t, ch, st');
    UsingWithin(c, st, t, ch, st');
  }

  lemma UseWithin(c: Config, st: State, t: nat, ch: Choice, st': State)
    requires t < |st.threads| && InBounds(st, t) && PhaseOf(st.threads[t].pc) == Using && st' == ApplyUse(st, t, ch)
    requires st.threads[t].pc.Use?
    ensures t < |st'.threads| && |st'.slots| == |st.slots|
    ensures WithinLock(st, t, st') && PhaseOf(st'.threads[t].pc) in {Using, Resting, Scanning} && !st'.threads[t].pc.Scan?
    ensures Reach(st'.threads[t].pc) == 0 && Unused(st'.threads[t].pc) == {} && WriterOk(c, st', t)
  {
  }

  lemma LookedWithin(c: Config, st: State, t: nat, ch: Choice, st': State)
    requires t < |st.threads| && InBounds(st, t) && PhaseOf(st.threads[t].pc) == Using && st' == ApplyUse(st, t, ch)
    requires st.threads[t].pc.Looked?
    ensures t < |st'.threads| && |st'.slots| == |st.slots|
    ensures WithinLock(st, t, st') && PhaseOf(st'.threads[t].pc) in {Using, Resting, Scanning} && !st'.threads[t].pc.Scan?
    ensures Reach(st'.threads[t].pc) == 0 && Unused(st'.threads[t].pc) == {} && WriterOk(c, st', t)
  {
  }

  lemma InOpWithin(c: Config, st: State, t: nat, ch: Choice, st': State)
    requires t < |st.threads| && InBounds(st, t) && PhaseOf(st.threads[t].pc) == Using && st' == ApplyUse(st, t, ch)
    requires st.threads[t].pc.InOp?
    ensures t < |st'.threads| && |st'.slots| == |st.slots|
    ensures WithinLock(st, t, st') && PhaseOf(st'.threads[t].pc) in {Using, Resting, Scanning} && !st'.threads[t].pc.Scan?
    ensures Reach(st'.threads[t].pc) == 0 && Unused(st'.threads[t].pc) == {} && WriterOk(c, st', t)
  {
  }

  lemma DecWithin(c: Config, st: State, t: nat, ch: Choice, st': State)
    requires t < |st.threads| && InBounds(st, t) && PhaseOf(st.threads[t].pc) == Using && st' == ApplyUse(st, t, ch)
    requires st.threads[t].pc.Dec?
    ensures t < |st'.threads| && |st'.slots| == |st.slots|
    ensures WithinLock(st, t, st') && PhaseOf(st'.threads[t].pc) in {Using, Resting, Scanning} && !st'.threads[t].pc.Scan?
    ensures Reach(st'.threads[t].pc) == 0 && Unused(st'.threads[t].pc) == {} && WriterOk(c, st', t)
  {
  }

  lemma UsingWithin(c: Config, st: State, t: nat, ch: Choice, st': State)
    requires t < |st.threads| && InBounds(st, t) && PhaseOf(st.threads[t].pc) == Using && st' == ApplyUse(st, t, ch)
    ensures t < |st'.threads| && |st'.slots| == |st.slots|
    ensures WithinLock(st, t, st') && PhaseOf(st'.threads[t].pc) in {Using, Resting, Scanning} && !st'.threads[t].pc.Scan?
    ensures Reach(st'.threads[t].pc) == 0 && Unused(st'.threads[t].pc) == {} && WriterOk(c, st', t)
  {
    hide ApplyUse, WithinLock, WriterOk;
    if st.threads[t].pc.Use? {
      UseWithin(c, st, t, ch, st');
    } else if st.threads[t].pc.Looked? {
      LookedWithin(c, st, t, ch, st');
    } else if st.threads[t].pc.InOp? {
      InOpWithin(c, st, t, ch, st');
    } else {
      DecWithin(c, st, t, ch, st');
    }
  }

  lemma ClearingWithin(c: Config, st: State, t: nat, st': State)
    requires t < |st.threads| && InBounds(st, t) && PhaseOf(st.threads[t].pc) == Clearing && st' == ApplyClear(st, t)
    ensures WithinLock(st, t, st') && Reach(st'.threads[t].pc) == 0 && Unused(st'.threads[t].pc) == {}
  {
  }

  lemma ClearingWriter(c: Config, st: State, t: nat, st': State)
    requires t < |st.threads| && InBounds(st, t) && PhaseOf(st.threads[t].pc) == Clearing && st' == ApplyClear(st, t)
    requires WriterOk(c, st, t)
    ensures WriterOk(c, st', t)
  {
  }

  lemma ClearingLands(c: Config, st: State, t: nat, st': State)
    requires t < |st.threads| && InBounds(st, t) && PhaseOf(st.threads[t].pc) == Clearing && st' == ApplyClear(st, t)
    requires Sees(c, st, t)
    ensures Lands(c, st, t, st')
  {
    hide ApplyClear, FormedAfter, KeysStay, KeyedBy;
    ClearingKeys(c, st, t, st');
    ClearingFormed(c, st, t, st');
    ClearingWithin(c, st, t, st');
    ClearingWriter(c, st, t, st');
  }

  // ----- size and stuck slots -----

  /** A thread outside the write lock disturbs neither count. */
  lemma SizedUndisturbed(c: Config, st: State, st': State, t: nat, s: nat)
    requires Sized(c, st) && StuckCounted(st) && Locks(st) && Locks(st')
    requires Touches(st, st', t, s) && ContentMove(st, st', t, s)
    requires !Writing(st.threads[t].pc) && !Writing(st'.threads[t].pc)
    requires st'.size == st.size && st'.stuck == st.stuck && st'.failures == st.failures && st'.inherited == st.inherited
    ensures Sized(c, st') && StuckCounted(st')
  {
    LiveMove(st.slots, st'.slots, s);
    SameWriter(st, st', t, s);
  }

  lemma SameWriter(st: State, st': State, t: nat, s: nat)
    requires Locks(st) && Locks(st') && Touches(st, st', t, s)
    requires !Writing(st.threads[t].pc) && !Writing(st'.threads[t].pc)
    ensures st'.writer == st.writer && WriterPc(st') == WriterPc(st)
  {
    if st.writer.Some? {
      var w := st.writer.value;
      assert Writing(st.threads[w].pc) && w != t;
      assert Writing(st'.threads[w].pc);
    }
    if st'.writer.Some? {
      var w := st'.writer.value;
      assert Writing(st'.threads[w].pc) && w != t;
      assert Writing(st.threads[w].pc);
    }
  }

  function Current(pc: Pc): Pc {
    if Writing(pc) then pc else Idle
  }

  /** The thread that takes, has or gives up the write lock is the only one to consider. */
  lemma WriterStands(st: State, t: nat)
    requires Locks(st) && t < |st.threads|
    requires Writing(st.threads[t].pc) || st.writer.None?
    ensures WriterPc(st) == Current(st.threads[t].pc)
  {
  }

  lemma HuntSized(c: Config, st: State, t: nat, st': State)
    requires t < |st.threads| && InBounds(st, t) && PhaseOf(st.threads[t].pc) == Hunting && st' == ApplyHunt(st, t)
    requires st.threads[t].pc.Hunt?
    requires SizedAt(c, st, Current(st.threads[t].pc)) && StuckCountedAt(st, Current(st.threads[t].pc))
    requires Touches(st, st', t, Target(st.threads[t]))
    ensures SizedAt(c, st', Current(st'.threads[t].pc)) && StuckCountedAt(st', Current(st'.threads[t].pc))
  {
    LiveMove(st.slots, st'.slots, Target(st.threads[t]));
  }

  lemma ProbeSized(c: Config, st: State, t: nat, st': State)
    requires t < |st.threads| && InBounds(st, t) && PhaseOf(st.threads[t].pc) == Hunting && st' == ApplyHunt(st, t)
    requires (st.threads[t].pc.Probe? || st.threads[t].pc.Unprobe? || st.threads[t].pc.Drop?)
    requires SizedAt(c, st, Current(st.threads[t].pc)) && StuckCountedAt(st, Current(st.threads[t].pc))
    requires Touches(st, st', t, Target(st.threads[t]))
    ensures SizedAt(c, st', Current(st'.threads[t].pc)) && StuckCountedAt(st', Current(st'.threads[t].pc))
  {
    LiveMove(st.slots, st'.slots, Target(st.threads[t]));
  }

  lemma AcquireSized(c: Config, st: State, t: nat, st': State)
    requires t < |st.threads| && InBounds(st, t) && PhaseOf(st.threads[t].pc) == Hunting && st' == ApplyHunt(st, t)
    requires !(st.threads[t].pc.Hunt? || st.threads[t].pc.Probe? || st.threads[t].pc.Unprobe? || st.threads[t].pc.Drop?)
    requires SizedAt(c, st, Current(st.threads[t].pc)) && StuckCountedAt(st, Current(st.threads[t].pc))
    requires Touches(st, st', t, Target(st.threads[t]))
    ensures SizedAt(c, st', Current(st'.threads[t].pc)) && StuckCountedAt(st', Current(st'.threads[t].pc))
  {
    LiveMove(st.slots, st'.slots, Target(st.threads[t]));
  }

  lemma HuntingSized(c: Config, st: State, t: nat, st': State)
    requires t < |st.threads| && InBounds(st, t) && PhaseOf(st.threads[t].pc) == Hunting && st' == ApplyHunt(st, t)
    requires SizedAt(c, st, Current(st.threads[t].pc)) && StuckCountedAt(st, Current(st.threads[t].pc))
    requires Touches(st, st', t, Target(st.threads[t]))
    ensures SizedAt(c, st', Current(st'.threads[t].pc)) && StuckCountedAt(st', Current(st'.threads[t].pc))
  {
    hide ApplyHunt, SizedAt, StuckCountedAt, Touches;
    if st.threads[t].pc.Hunt? {
      HuntSized(c, st, t, st');
    } else if (st.threads[t].pc.Probe? || st.threads[t].pc.Unprobe? || st.threads[t].pc.Drop?) {
      ProbeSized(c, st, t, st');
    } else {
      AcquireSized(c, st, t, st');
    }
  }

  lemma OpenSized(c: Config, st: State, t: nat, ch: Choice, st': State)
    requires t < |st.threads| && InBounds(st, t) && st' == ApplyInstall(c, st, t, ch)
    requires st.threads[t].pc.Open? && st.threads[t].pc.victim !in st.stuck
    requires SizedAt(c, st, st.threads[t].pc) && StuckCountedAt(st, st.threads[t].pc)
    ensures SizedAt(c, st', st'.threads[t].pc) && StuckCountedAt(st', st'.threads[t].pc)
  {
  }

  /** An occupied victim means that every slot was occupied, unless one is stuck. */
  lemma CloseSized(c: Config, st: State, t: nat, ch: Choice, st': State)
    requires t < |st.threads| && InBounds(st, t) && st' == ApplyInstall(c, st, t, ch)
    requires st.threads[t].pc.Close? && |st.slots| == c.capacity && OnlyIfFull(c, st, st.threads[t].pc.victim)
    requires SizedAt(c, st, st.threads[t].pc) && StuckCountedAt(st, st.threads[t].pc)
    requires Touches(st, st', t, Target(st.threads[t]))
    ensures SizedAt(c, st', st'.threads[t].pc) && StuckCountedAt(st', st'.threads[t].pc)
  {
    LiveMove(st.slots, st'.slots, Target(st.threads[t]));
    LiveWithin(st.slots);
  }

  lemma MoveSized(c: Config, st: State, t: nat, ch: Choice, st': State)
    requires t < |st.threads| && InBounds(st, t) && st' == ApplyInstall(c, st, t, ch)
    requires st.threads[t].pc.Move? && |st.slots| == c.capacity && st.slots[st.threads[t].pc.victim].ds.None?
    requires SizedAt(c, st, st.threads[t].pc) && StuckCountedAt(st, st.threads[t].pc)
    requires Touches(st, st', t, Target(st.threads[t]))
    ensures SizedAt(c, st', st'.threads[t].pc) && StuckCountedAt(st', st'.threads[t].pc)
  {
    LiveMove(st.slots, st'.slots, Target(st.threads[t]));
    LiveWithin(st'.slots);
  }

  lemma RestSized(c: Config, st: State, t: nat, ch: Choice, st': State)
    requires t < |st.threads| && InBounds(st, t) && st' == ApplyInstall(c, st, t, ch)
    requires st.threads[t].pc.Retag? || st.threads[t].pc.Release? || st.threads[t].pc.Pin?
    requires SizedAt(c, st, st.threads[t].pc) && StuckCountedAt(st, st.threads[t].pc)
    requires Touches(st, st', t, Target(st.threads[t]))
    ensures SizedAt(c, st', st'.threads[t].pc) && StuckCountedAt(st', st'.threads[t].pc)
  {
    LiveMove(st.slots, st'.slots, Target(st.threads[t]));
  }

  lemma InstallingSized(c: Config, st: State, t: nat, ch: Choice, st': State)
    requires t < |st.threads| && InBounds(st, t) && PhaseOf(st.threads[t].pc) == Installing && st' == ApplyInstall(c, st, t, ch)
    requires |st.slots| == c.capacity && SizedAt(c, st, st.threads[t].pc) && StuckCountedAt(st, st.threads[t].pc)
    requires WriterOk(c, st, t)
    requires st.threads[t].pc.Open? ==> st.threads[t].pc.victim !in st.stuck
    requires Touches(st, st', t, Target(st.threads[t]))
    ensures SizedAt(c, st', st'.threads[t].pc) && StuckCountedAt(st', st'.threads[t].pc)
  {
    match st.threads[t].pc
    case Open(_, _) => OpenSized(c, st, t, ch, st');
    case Close(_, _, _) => CloseSized(c, st, t, ch, st');
    case Move(_, _, _) => MoveSized(c, st, t, ch, st');
    case _ => RestSized(c, st, t, ch, st');
  }

  lemma InstallerWrites(c: Config, st: State, t: nat, ch: Choice)
    requires t < |st.threads| && InBounds(st, t) && PhaseOf(st.threads[t].pc) == Installing
    ensures var st' := ApplyInstall(c, st, t, ch); t < |st'.threads| && Writing(st'.threads[t].pc)
  {
  }

  lemma RestingDoesNotWrite(c: Config, st: State, t: nat, ch: Choice)
    requires Enabled(c, st, t, ch) && PhaseOf(st.threads[t].pc) in {Resting, Scanning, Using}
    requires PhaseOf(st.threads[t].pc) == Resting
    ensures var st' := Apply(c, st, t, ch); t < |st'.threads| && !Writing(st'.threads[t].pc)
  {
  }

  lemma ScanningDoesNotWrite(c: Config, st: State, t: nat, ch: Choice)
    requires Enabled(c, st, t, ch) && PhaseOf(st.threads[t].pc) in {Resting, Scanning, Using}
    requires PhaseOf(st.threads[t].pc) == Scanning
    ensures var st' := Apply(c, st, t, ch); t < |st'.threads| && !Writing(st'.threads[t].pc)
  {
  }

  lemma UsingDoesNotWrite(c: Config, st: State, t: nat, ch: Choice)
    requires Enabled(c, st, t, ch) && PhaseOf(st.threads[t].pc) in {Resting, Scanning, Using}
    requires PhaseOf(st.threads[t].pc) == Using
    ensures var st' := Apply(c, st, t, ch); t < |st'.threads| && !Writing(st'.threads[t].pc)
  {
    hide ApplyUse;
    UsingWithin(c, st, t, ch, Apply(c, st, t, ch));
  }

  lemma OthersDoNotWrite(c: Config, st: State, t: nat, ch: Choice)
    requires Enabled(c, st, t, ch) && PhaseOf(st.threads[t].pc) in {Resting, Scanning, Using}
    ensures var st' := Apply(c, st, t, ch); t < |st'.threads| && !Writing(st'.threads[t].pc)
  {
    hide Apply;
    if PhaseOf(st.threads[t].pc) == Resting {
      RestingDoesNotWrite(c, st, t, ch);
    } else if PhaseOf(st.threads[t].pc) == Scanning {
      ScanningDoesNotWrite(c, st, t, ch);
    } else {
      UsingDoesNotWrite(c, st, t, ch);
    }
  }

  lemma ClearSlotSized(c: Config, st: State, t: nat, st': State)
    requires t < |st.threads| && InBounds(st, t) && st.threads[t].pc.Clear? && st' == ApplyClear(st, t)
    requires st.threads[t].pc.i < |st.slots| == c.capacity
    requires SizedAt(c, st, st.threads[t].pc)
    requires Touches(st, st', t, st.threads[t].pc.i)
    ensures SizedAt(c, st', st'.threads[t].pc) && StuckCountedAt(st', st'.threads[t].pc)
  {
  }

  lemma ClearEndSized(c: Config, st: State, t: nat, st': State)
    requires t < |st.threads| && InBounds(st, t) && st.threads[t].pc == Clear(c.capacity) && st' == ApplyClear(st, t)
    requires |st.slots| == c.capacity && SizedAt(c, st, st.threads[t].pc)
    ensures SizedAt(c, st', Idle) && StuckCountedAt(st', Idle)
  {
    LiveWithin(st.slots);
  }

  lemma ClearingSized(c: Config, st: State, t: nat, st': State)
    requires t < |st.threads| && InBounds(st, t) && PhaseOf(st.threads[t].pc) == Clearing && st' == ApplyClear(st, t)
    requires |st.slots| == c.capacity
    requires SizedAt(c, st, Current(st.threads[t].pc)) && StuckCountedAt(st, Current(st.threads[t].pc))
    requires Touches(st, st', t, Target(st.threads[t]))
    requires Shaped(c, st.threads[t], |st.slots|)
    ensures SizedAt(c, st', Current(st'.threads[t].pc)) && StuckCountedAt(st', Current(st'.threads[t].pc))
  {
    if st.threads[t].pc.AwaitClear? {
    } else if st.threads[t].pc.i < |st.slots| {
      ClearSlotSized(c, st, t, st');
    } else {
      ClearEndSized(c, st, t, st');
    }
  }

  // ----- faults -----

  lemma HuntingClean(st: State, t: nat, st': State)
    requires t < |st.threads| && InBounds(st, t) && PhaseOf(st.threads[t].pc) == Hunting && st' == ApplyHunt(st, t)
    requires OwnsThem(st, t)
    ensures st'.faults == st.faults
  {
  }

  lemma InstallingClean(c: Config, st: State, t: nat, ch: Choice, st': State)
    requires t < |st.threads| && InBounds(st, t) && PhaseOf(st.threads[t].pc) == Installing && st' == ApplyInstall(c, st, t, ch)
    requires OwnsThem(st, t) && UnusedNow(st, t) && SlotHandles(st)
    ensures st'.faults == st.faults
  {
    assert Target(st.threads[t]) in Unused(st.threads[t].pc);
  }

  lemma UsingClean(c: Config, st: State, t: nat, ch: Choice, st': State)
    requires t < |st.threads| && InBounds(st, t) && PhaseOf(st.threads[t].pc) == Using && st' == ApplyUse(st, t, ch)
    requires |st.slots| == c.capacity && OwnsThem(st, t) && SlotHandles(st) && (c.quietClears ==> KeyedBy(c, st, t))
    requires Tidy(c) && st.threads[t].pending != [] ==> st.slots[st.threads[t].pending[0]].ds.Some?
    ensures forall fault :: fault in st'.faults ==> fault in st.faults || Expected(c, fault)
  {
  }

  /** The assertion at the head of the move into the next slot. */
  predicate AssertFails(st: State, t: nat)
    requires t < |st.threads| && InBounds(st, t)
  {
    st.threads[t].pc.Clear? && st.threads[t].pc.i < |st.slots| && st.slots[st.threads[t].pc.i].uses != 0
  }

  /** `clear` fails its assertion at exactly the slots that are still referenced when it gets there. */
  lemma ClearingClean(c: Config, st: State, t: nat, st': State)
    requires t < |st.threads| && InBounds(st, t) && PhaseOf(st.threads[t].pc) == Clearing && st' == ApplyClear(st, t)
    requires SlotHandles(st)
    ensures st'.faults == st.faults + if AssertFails(st, t) then {BadAssert} else {}
  {
  }
}
