/**
 What holds of the cache in every reachable state, and why a single action keeps it.

 Each part of the invariant comes with a lemma `...Kept`.  Its requires say which moves an action may
 make as far as that part is concerned; CacheSteps shows that every action makes only such moves.
 */
module CacheInvariants {
  import opened Types
  import opened CacheProtocol

  // ----- what a thread's program counter says it holds -----

  predicate Reading(pc: Pc) {
    pc.Scan? || pc.Tick? || pc.Stamp?
  }

  predicate Writing(pc: Pc) {
    match pc
    case Insert(_) => true
    case Hunt(_, _, _) => true
    case Probe(_, _, _) => true
    case Unprobe(_, _, _) => true
    case Drop(_, _, _) => true
    case Clear(_) => true
    case _ => PhaseOf(pc) == Installing
  }

  function AsSet(o: Option<nat>): set<nat> {
    if o.Some? then {o.value} else {}
  }

  /** The slot chosen so far by an insert that has not released it yet. */
  function Chosen(pc: Pc): set<nat> {
    match pc
    case Hunt(_, _, best) => AsSet(best)
    case Probe(_, _, best) => AsSet(best)
    case Unprobe(_, _, best) => AsSet(best)
    case Drop(_, i, prev) => {i, prev}
    case Open(_, victim) => {victim}
    case Retag(_, victim, _) => {victim}
    case Close(_, victim, _) => {victim}
    case Move(_, victim, _) => {victim}
    case Release(_, victim) => {victim}
    case _ => {}
  }

  /** The slots whose mutex the thread holds. */
  function Owned(th: Thread): set<nat> {
    match th.pc
    case Probe(_, i, _) => {i} + Chosen(th.pc)
    case Unprobe(_, i, _) => {i} + Chosen(th.pc)
    case InOp => if th.pending == [] then {} else {th.pending[0]}
    case _ => Chosen(th.pc)
  }

  /** The slots that a writer has found unused. */
  function Unused(pc: Pc): set<nat> {
    if pc.Pin? then {pc.victim} else Chosen(pc)
  }

  /** Opened handles that are not in a slot yet. */
  function InFlight(pc: Pc): Option<Pair> {
    match pc
    case Retag(_, _, pair) => Some(pair)
    case Close(_, _, pair) => Some(pair)
    case Move(_, _, pair) => Some(pair)
    case _ => None
  }

  /** The only slot that the next action of the thread can change. */
  function Target(th: Thread): nat {
    match th.pc
    case Scan(i) => i
    case Stamp(i, _) => i
    case Hunt(_, i, _) => i
    case Probe(_, i, _) => i
    case Unprobe(_, i, _) => i
    case Drop(_, _, prev) => prev
    case Open(_, victim) => victim
    case Retag(_, victim, _) => victim
    case Close(_, victim, _) => victim
    case Move(_, victim, _) => victim
    case Release(_, victim) => victim
    case Pin(_, victim) => victim
    case Clear(i) => i
    case _ => if th.pending != [] then th.pending[0] else 0
  }

  ghost predicate Touches(st: State, st': State, t: nat, s: nat) {
    && t < |st.threads|
    && |st'.threads| == |st.threads|
    && |st'.slots| == |st.slots|
    && (forall u :: 0 <= u < |st.threads| && u != t ==> st'.threads[u] == st.threads[u])
    && (forall r :: 0 <= r < |st.slots| && r != s ==> st'.slots[r] == st.slots[r])
  }

  // ----- the read-write lock -----

  /** The read-write lock is held by exactly those threads that stand between taking and releasing it. */
  ghost predicate Locks(st: State) {
    && (forall t :: 0 <= t < |st.threads| ==> (t in st.readers <==> Reading(st.threads[t].pc)))
    && (forall t :: 0 <= t < |st.threads| ==> (st.writer == Some(t) <==> Writing(st.threads[t].pc)))
    && (forall t :: t in st.readers ==> t < |st.threads|)
    && (st.writer.Some? ==> st.writer.value < |st.threads| && st.readers == {})
  }

  predicate LockMove(st: State, st': State, t: nat)
    requires t < |st.threads| && t < |st'.threads|
  {
    var pc, pc' := st.threads[t].pc, st'.threads[t].pc;
    if Reading(pc') == Reading(pc) && Writing(pc') == Writing(pc) then st'.readers == st.readers && st'.writer == st.writer
    else if Reading(pc') then st.writer == st'.writer == None && st'.readers == st.readers + {t} && !Writing(pc)
    else if Writing(pc') then st.writer == None && st'.readers == st.readers == {} && st'.writer == Some(t) && !Reading(pc)
    else if Reading(pc) then st'.readers == st.readers - {t} && st'.writer == st.writer && !Writing(pc)
    else st'.readers == st.readers && st'.writer == None
  }

  lemma LocksKept(st: State, st': State, t: nat, s: nat)
    requires Locks(st) && Touches(st, st', t, s) && LockMove(st, st', t)
    ensures Locks(st')
  {
  }

  // ----- loop variables and pending lists -----

  predicate Below(s: seq<nat>, n: int) {
    forall j :: 0 <= j < |s| ==> s[j] < n
  }

  predicate Asked(c: Config, key: Key) {
    c.asksEmpty || key != EMPTY_KEY
  }

  predicate Shaped(c: Config, th: Thread, n: nat) {
    && Distinct(th.pending)
    && Below(th.pending, n)
    && (PhaseOf(th.pc) !in {Resting, Clearing} ==> Asked(c, th.key))
    && (th.done ==> th.pc.Use? || th.pc.Dec?)
    && match th.pc
       case Idle => th == RESTING
       case AwaitRead => th.pending == []
       case Scan(i) => i <= n && Below(th.pending, i)
       case Tick(i) => i < n && Below(th.pending, i + 1) && i in th.pending
       case Stamp(i, _) => i < n && Below(th.pending, i + 1) && i in th.pending
       case Hunt(need, i, best) => need > 0 && i <= n && (best.Some? ==> best.value < i)
       case Probe(need, i, best) => need > 0 && i < n && (best.Some? ==> best.value < i)
       case Unprobe(need, i, best) => need > 0 && i < n && (best.Some? ==> best.value < i)
       case Drop(need, i, prev) => need > 0 && i < n && prev < i
       case Open(need, victim) => need > 0 && victim < n
       case Retag(need, victim, _) => need > 0 && victim < n
       case Close(need, victim, _) => need > 0 && victim < n
       case Move(need, victim, _) => need > 0 && victim < n
       case Release(need, victim) => need > 0 && victim < n
       case Pin(need, victim) => need > 0 && victim < n
       case Looked => th.pending != []
       case InOp => th.pending != []
       case Dec => th.pending != []
       case AwaitClear => th.pending == []
       case Clear(i) => i <= n && th.pending == []
       case _ => true
  }

  ghost predicate AllShaped(c: Config, st: State) {
    forall t :: 0 <= t < |st.threads| ==> Shaped(c, st.threads[t], |st.slots|)
  }

  lemma ShapedInBounds(c: Config, st: State, t: nat)
    requires t < |st.threads| && Shaped(c, st.threads[t], |st.slots|)
    ensures InBounds(st, t)
  {
  }

  // ----- slot mutexes -----

  ghost predicate OwnsThem(st: State, t: nat)
    requires t < |st.threads|
  {
    forall s :: s in Owned(st.threads[t]) ==> s < |st.slots| && st.slots[s].mutex == Some(t) && s !in st.stuck
  }

  predicate HeldRightly(st: State, s: nat)
    requires s < |st.slots|
  {
    var m := st.slots[s].mutex;
    if s in st.stuck then m.Some?
    else m.Some? ==> m.value < |st.threads| && s in Owned(st.threads[m.value])
  }

  /** A slot mutex is held exactly by the thread that says so, or for ever by a failed insert. */
  ghost predicate Mutexes(st: State) {
    && (forall t :: 0 <= t < |st.threads| ==> OwnsThem(st, t))
    && (forall s :: 0 <= s < |st.slots| ==> HeldRightly(st, s))
    && (forall s :: s in st.stuck ==> s < |st.slots|)
  }

  predicate MutexMove(st: State, st': State, t: nat, s: nat)
    requires t < |st.threads| && t < |st'.threads| && |st'.slots| == |st.slots|
  {
    var had, has := Owned(st.threads[t]), Owned(st'.threads[t]);
    if s >= |st.slots| || st'.slots[s].mutex == st.slots[s].mutex then
      || (has == had && st'.stuck == st.stuck)
      || (s < |st.slots| && s in had && has == had - {s} && st'.stuck == st.stuck + {s})
    else if st'.slots[s].mutex.Some? then
      st.slots[s].mutex == None && st'.slots[s].mutex == Some(t) && has == had + {s} && st'.stuck == st.stuck
    else
      || (s in had && has == had - {s} && st'.stuck == st.stuck)
      || (had == has == {} && st.slots[s].mutex == Some(t) && st'.stuck == st.stuck - {s})
  }

  lemma MutexesKept(st: State, st': State, t: nat, s: nat)
    requires Mutexes(st) && Touches(st, st', t, s) && MutexMove(st, st', t, s)
    ensures Mutexes(st')
  {
    assert OwnsThem(st, t);
    forall u | 0 <= u < |st'.threads| ensures OwnsThem(st', u) {
      assert OwnsThem(st, u);
      forall r | r in Owned(st'.threads[u])
        ensures r < |st'.slots| && st'.slots[r].mutex == Some(u) && r !in st'.stuck
      {
        if u != t || r != s {
          assert r in Owned(st.threads[u]);
        } else {
          assert HeldRightly(st, s);
        }
      }
    }
    forall r | 0 <= r < |st'.slots| ensures HeldRightly(st', r) {
      assert HeldRightly(st, r);
    }
  }

  // ----- use counts -----

  /** The threads that have yet to give back a reference to slot `s`. */
  ghost function Holders(threads: seq<Thread>, s: nat): set<nat> {
    set t | 0 <= t < |threads| && s in threads[t].pending
  }

  /** The use count of a slot is the number of references pending in the threads' lists. */
  ghost predicate Counted(st: State) {
    forall s :: 0 <= s < |st.slots| ==> st.slots[s].uses == |Holders(st.threads, s)|
  }

  predicate CountMove(st: State, st': State, t: nat, s: nat)
    requires t < |st.threads| && t < |st'.threads| && |st'.slots| == |st.slots|
  {
    var had, has := st.threads[t].pending, st'.threads[t].pending;
    if s >= |st.slots| || st'.slots[s].uses == st.slots[s].uses then has == had
    else if st'.slots[s].uses > st.slots[s].uses then
      st'.slots[s].uses == st.slots[s].uses + 1 && s !in had && has == had + [s]
    else
      st'.slots[s].uses == st.slots[s].uses - 1 && had != [] && had[0] == s && has == had[1..] && Distinct(had)
  }

  lemma CountedKept(st: State, st': State, t: nat, s: nat)
    requires Counted(st) && Touches(st, st', t, s) && CountMove(st, st', t, s)
    ensures Counted(st')
  {
    forall r | 0 <= r < |st'.slots| ensures st'.slots[r].uses == |Holders(st'.threads, r)| {
      HoldersMove(st.threads, st'.threads, t, r);
      OwnHolding(st, st', t, s, r);
    }
  }

  lemma HoldersMove(threads: seq<Thread>, threads': seq<Thread>, t: nat, r: nat)
    requires t < |threads| == |threads'|
    requires forall u :: 0 <= u < |threads| && u != t ==> threads'[u] == threads[u]
    ensures |Holders(threads', r)| - |Holders(threads, r)|
      == (if r in threads'[t].pending then 1 else 0) - (if r in threads[t].pending then 1 else 0)
  {
    assert Holders(threads', r) - {t} == Holders(threads, r) - {t};
    HoldersBut(threads, t, r);
    HoldersBut(threads', t, r);
  }

  lemma HoldersBut(threads: seq<Thread>, t: nat, r: nat)
    requires t < |threads|
    ensures |Holders(threads, r)| == |Holders(threads, r) - {t}| + if r in threads[t].pending then 1 else 0
  {
    if r in threads[t].pending {
      assert Holders(threads, r) == (Holders(threads, r) - {t}) + {t};
    } else {
      assert Holders(threads, r) == Holders(threads, r) - {t};
    }
  }

  lemma OwnHolding(st: State, st': State, t: nat, s: nat, r: nat)
    requires r < |st.slots| && Touches(st, st', t, s) && CountMove(st, st', t, s)
    ensures var had, has := r in st.threads[t].pending, r in st'.threads[t].pending;
      st'.slots[r].uses - st.slots[r].uses == (if has then 1 else 0) - (if had then 1 else 0)
  {
    var had, has := st.threads[t].pending, st'.threads[t].pending;
    if has == had + [s] {
    } else if has != had {
      assert had == [s] + has;
    }
  }

  lemma UnusedHasNoHolders(st: State, u: nat, s: nat)
    requires Counted(st) && u < |st.threads| && s < |st.slots| && st.slots[s].uses == 0
    ensures s !in st.threads[u].pending
  {
    assert Holders(st.threads, s) == {};
    assert s in st.threads[u].pending ==> u in Holders(st.threads, s);
  }

  ghost predicate UnusedNow(st: State, t: nat)
    requires t < |st.threads|
  {
    forall s :: s in Unused(st.threads[t].pc) ==> s < |st.slots| && st.slots[s].uses == 0
  }

  /** What a writer has found unused stays so, although references are given back without any lock. */
  ghost predicate Evictable(st: State) {
    forall t :: 0 <= t < |st.threads| ==> UnusedNow(st, t)
  }

  lemma EvictableKept(st: State, st': State, t: nat, s: nat)
    requires Evictable(st) && Counted(st) && Locks(st)
    requires Touches(st, st', t, s) && CountMove(st, st', t, s) && UnusedNow(st', t)
    requires s < |st.slots| && st'.slots[s].uses > st.slots[s].uses ==> Reading(st.threads[t].pc) || Writing(st.threads[t].pc)
    ensures Evictable(st')
  {
    forall u | 0 <= u < |st'.threads| ensures UnusedNow(st', u) {
      if u != t {
        assert UnusedNow(st, u);
        if s in Unused(st.threads[u].pc) {
          assert Writing(st.threads[u].pc);
          UnusedHasNoHolders(st, t, s);
        }
      }
    }
  }

  // ----- contents of slots -----

  /** Contents of slots change only under the write lock, access times only under either lock. */
  predicate ContentMove(st: State, st': State, t: nat, s: nat)
    requires t < |st.threads| && |st'.slots| == |st.slots|
  {
    s < |st.slots| && !Writing(st.threads[t].pc) ==>
      && st'.slots[s].tag == st.slots[s].tag && st'.slots[s].key == st.slots[s].key && st'.slots[s].ds == st.slots[s].ds
      && (st'.slots[s].atime == st.slots[s].atime || Reading(st.threads[t].pc))
  }

  /** Every pending reference is to a slot that carries the key that was asked for. */
  ghost predicate KeyedBy(c: Config, st: State, t: nat)
    requires t < |st.threads|
  {
    var th := st.threads[t];
    forall j :: 0 <= j < |th.pending| ==> th.pending[j] < |st.slots| && Matches(c, st.slots[th.pending[j]], th.key)
  }

  /** A reader has just seen the keys; otherwise they stay because only unreferenced slots are rewritten,
      unless `clear` is called carelessly. */
  ghost predicate KeyedIfQuiet(c: Config, st: State, t: nat)
    requires t < |st.threads|
  {
    c.quietClears || Reading(st.threads[t].pc) ==> KeyedBy(c, st, t)
  }

  ghost predicate Keyed(c: Config, st: State) {
    forall t :: 0 <= t < |st.threads| ==> KeyedIfQuiet(c, st, t)
  }

  lemma KeyedKept(c: Config, st: State, st': State, t: nat, s: nat)
    requires Keyed(c, st) && Counted(st) && Locks(st)
    requires Touches(st, st', t, s) && ContentMove(st, st', t, s) && KeyedIfQuiet(c, st', t)
    requires s < |st.slots| && st.slots[s].uses != 0 && c.quietClears ==>
      st'.slots[s].tag == st.slots[s].tag && st'.slots[s].key == st.slots[s].key
    ensures Keyed(c, st')
  {
    forall u | 0 <= u < |st'.threads| ensures KeyedIfQuiet(c, st', u) {
      if u != t && (c.quietClears || Reading(st.threads[u].pc)) {
        assert KeyedIfQuiet(c, st, u);
        if s < |st.slots| && st.slots[s].uses == 0 {
          UnusedHasNoHolders(st, u, s);
        }
        assert Reading(st.threads[u].pc) ==> !Writing(st.threads[t].pc);
      }
    }
  }

  /** How many slots the scan of `get` has dealt with. */
  function Reach(pc: Pc): nat {
    match pc
    case Scan(i) => i
    case Tick(i) => i + 1
    case Stamp(i, _) => i + 1
    case _ => 0
  }

  /** The scan of `get` has pinned every match so far; at its end, every match there is. */
  ghost predicate ScannedBy(c: Config, st: State, t: nat)
    requires t < |st.threads|
  {
    var th := st.threads[t];
    forall r :: 0 <= r < Reach(th.pc) && r < |st.slots| && Matches(c, st.slots[r], th.key) ==> r in th.pending
  }

  ghost predicate Scanned(c: Config, st: State) {
    forall t :: 0 <= t < |st.threads| ==> ScannedBy(c, st, t)
  }

  lemma ScannedKept(c: Config, st: State, st': State, t: nat, s: nat)
    requires Scanned(c, st) && Locks(st)
    requires Touches(st, st', t, s) && ContentMove(st, st', t, s) && ScannedBy(c, st', t)
    ensures Scanned(c, st')
  {
    forall u | 0 <= u < |st'.threads| ensures ScannedBy(c, st', u) {
      if u != t && Reading(st.threads[u].pc) {
        assert ScannedBy(c, st, u);
      }
    }
  }

  /** No request can match a slot that holds no dataset. */
  predicate Proper(c: Config) {
    !c.asksEmpty || Tag(c.hash, EMPTY_KEY) != 0
  }

  /** An empty slot is as `clear` left it; a slot that holds a dataset is tagged with the hash of its key and has been timed. */
  predicate Formed(c: Config, slot: Slot) {
    if slot.ds.None? then slot.tag == 0 && slot.key == EMPTY_KEY && (Proper(c) ==> slot.atime == 0)
    else slot.tag == Tag(c.hash, slot.key) && slot.atime > 0
  }

  /** Empty slots are free for inserts: none is referenced, and none locked except by a failed insert. */
  predicate Tidy(c: Config) {
    Proper(c) && c.quietClears
  }

  /** The slot that an insert is in the middle of rewriting. */
  function Rewriting(pc: Pc): set<nat> {
    match pc
    case Close(_, victim, _) => {victim}
    case Move(_, victim, _) => {victim}
    case _ => {}
  }

  ghost predicate FormedOrRewritten(c: Config, st: State, r: nat)
    requires r < |st.slots|
  {
    || Formed(c, st.slots[r])
    || (st.writer.Some? && st.writer.value < |st.threads| && r in Rewriting(st.threads[st.writer.value].pc))
  }

  ghost predicate AllFormed(c: Config, st: State) {
    forall r :: 0 <= r < |st.slots| ==> FormedOrRewritten(c, st, r)
  }

  lemma AllFormedKept(c: Config, st: State, st': State, t: nat, s: nat)
    requires AllFormed(c, st) && Locks(st) && Locks(st')
    requires Touches(st, st', t, s) && ContentMove(st, st', t, s)
    requires Rewriting(st.threads[t].pc) <= {s}
    requires s < |st.slots| && Writing(st.threads[t].pc) ==> Formed(c, st'.slots[s]) || s in Rewriting(st'.threads[t].pc)
    requires s < |st.slots| && st'.slots[s].atime != st.slots[s].atime ==> Formed(c, st'.slots[s]) || s in Rewriting(st'.threads[t].pc)
    requires Rewriting(st'.threads[t].pc) != {} ==> Writing(st.threads[t].pc)
    ensures AllFormed(c, st')
  {
    forall r | 0 <= r < |st'.slots| ensures FormedOrRewritten(c, st', r) {
      assert FormedOrRewritten(c, st, r);
      if Writing(st.threads[t].pc) {
        assert st.writer == Some(t);
      } else if st.writer.Some? {
        assert Writing(st'.threads[st.writer.value].pc);
      }
    }
  }

  // ----- what an insert relies on while it holds the write lock -----

  /** If an unlocked empty slot has been passed, the best slot so far is as old as an empty one. */
  ghost predicate CoversEmpty(c: Config, st: State, i: nat, best: Option<nat>) {
    Tidy(c) ==>
      forall r :: 0 <= r < i && r < |st.slots| && st.slots[r].ds.None? && r !in st.stuck ==>
        best.Some? && best.value < |st.slots| && st.slots[best.value].atime == 0
  }

  /** A slot that holds a dataset is chosen only when no unlocked empty slot is left. */
  ghost predicate OnlyIfFull(c: Config, st: State, victim: nat)
    requires victim < |st.slots|
  {
    Tidy(c) && st.slots[victim].ds.Some? ==>
      forall r :: 0 <= r < |st.slots| && st.slots[r].ds.None? ==> r in st.stuck
  }

  ghost predicate WriterOk(c: Config, st: State, t: nat)
    requires t < |st.threads|
  {
    var key := st.threads[t].key;
    match st.threads[t].pc
    case Hunt(_, i, best) => CoversEmpty(c, st, i, best)
    case Probe(_, i, best) =>
      && i < |st.slots| && (best.Some? ==> best.value < |st.slots|) && CoversEmpty(c, st, i, best)
      && (best.Some? ==> st.slots[i].atime < st.slots[best.value].atime)
    case Unprobe(_, i, best) =>
      i < |st.slots| && CoversEmpty(c, st, i, best) && (Tidy(c) ==> st.slots[i].ds.Some?)
    case Drop(_, i, prev) =>
      i < |st.slots| && prev < |st.slots| && CoversEmpty(c, st, i, Some(prev)) && st.slots[i].atime < st.slots[prev].atime
    case Open(_, victim) => victim < |st.slots| && OnlyIfFull(c, st, victim)
    case Retag(_, victim, _) => victim < |st.slots| && OnlyIfFull(c, st, victim)
    case Close(_, victim, _) =>
      victim < |st.slots| && OnlyIfFull(c, st, victim) && st.slots[victim].tag == Tag(c.hash, key) && st.slots[victim].atime > 0
    case Move(_, victim, _) =>
      victim < |st.slots| && st.slots[victim].ds.None? && st.slots[victim].tag == Tag(c.hash, key) && st.slots[victim].atime > 0
    case Release(_, victim) =>
      victim < |st.slots| && st.slots[victim].ds.Some? && Matches(c, st.slots[victim], key) && st.slots[victim].atime > 0
    case Pin(_, victim) =>
      victim < |st.slots| && st.slots[victim].ds.Some? && Matches(c, st.slots[victim], key) && st.slots[victim].atime > 0
    case Clear(i) => forall r :: 0 <= r < i && r < |st.slots| ==> Cleared(st.slots[r], t)
    case _ => true
  }

  /** What `clear` leaves of a slot: it may still be locked, but not by the thread that cleared it. */
  predicate Cleared(slot: Slot, t: nat) {
    slot.tag == 0 && slot.key == EMPTY_KEY && slot.ds.None? && slot.atime == 0 && slot.mutex != Some(t)
  }

  ghost predicate WritersOk(c: Config, st: State) {
    forall t :: 0 <= t < |st.threads| ==> WriterOk(c, st, t)
  }

  lemma WritersOkKept(c: Config, st: State, st': State, t: nat, s: nat)
    requires WritersOk(c, st) && Locks(st)
    requires Touches(st, st', t, s) && ContentMove(st, st', t, s) && MutexMove(st, st', t, s) && WriterOk(c, st', t)
    requires !Writing(st.threads[t].pc) ==> st'.stuck == st.stuck
    ensures WritersOk(c, st')
  {
    forall u | 0 <= u < |st'.threads| ensures WriterOk(c, st', u) {
      if u != t && Writing(st.threads[u].pc) {
        WriterUndisturbed(c, st, st', t, s, u);
      }
    }
  }

  lemma WriterUndisturbed(c: Config, st: State, st': State, t: nat, s: nat, u: nat)
    requires u < |st.threads| && u != t && WriterOk(c, st, u)
    requires Touches(st, st', t, s) && st'.stuck == st.stuck
    requires s < |st.slots| ==>
      && st'.slots[s].tag == st.slots[s].tag && st'.slots[s].key == st.slots[s].key
      && st'.slots[s].ds == st.slots[s].ds && st'.slots[s].atime == st.slots[s].atime
      && st'.slots[s].mutex in {st.slots[s].mutex, None, Some(t)}
    ensures WriterOk(c, st', u)
  {
  }

  // ----- GDAL handles -----

  predicate GoodPair(gdal: Gdal, p: Pair) {
    PairOpen(gdal, p) && p.source != p.warped
  }

  predicate Apart(p: Pair, q: Pair) {
    p.source != q.source && p.source != q.warped && p.warped != q.source && p.warped != q.warped
  }

  /** Every dataset in a slot has two open handles, which no other slot has. */
  ghost predicate SlotHandles(st: State) {
    && (forall r :: 0 <= r < |st.slots| && st.slots[r].ds.Some? ==> GoodPair(st.gdal, st.slots[r].ds.value))
    && (forall r, q :: 0 <= r < |st.slots| && 0 <= q < |st.slots| && r != q && st.slots[r].ds.Some? && st.slots[q].ds.Some? ==>
          Apart(st.slots[r].ds.value, st.slots[q].ds.value))
  }

  /** So has a dataset on its way into a slot. */
  ghost predicate FlightHandles(st: State, t: nat)
    requires t < |st.threads|
  {
    var flight := InFlight(st.threads[t].pc);
    flight.Some? ==>
      && GoodPair(st.gdal, flight.value)
      && forall r :: 0 <= r < |st.slots| && st.slots[r].ds.Some? ==> Apart(flight.value, st.slots[r].ds.value)
  }

  ghost predicate Handles(st: State) {
    SlotHandles(st) && forall t :: 0 <= t < |st.threads| ==> FlightHandles(st, t)
  }

  /** The handles move in step: nothing, two opened, one lost, two closed, or two moved into a slot. */
  predicate HandleMove(st: State, st': State, t: nat, s: nat)
    requires t < |st.threads| && t < |st'.threads| && |st'.slots| == |st.slots|
  {
    var pc, pc' := st.threads[t].pc, st'.threads[t].pc;
    var n := |st.gdal.open|;
    if s < |st.slots| && st'.slots[s].ds != st.slots[s].ds then
      && Writing(pc)
      && if st'.slots[s].ds.None? then
           && InFlight(pc') == InFlight(pc)
           && st' == st'.(gdal := CloseDs(st, st.slots[s].ds).gdal)
         else st.slots[s].ds.None? && st'.slots[s].ds == InFlight(pc) && InFlight(pc') == None && st'.gdal == st.gdal
    else if st'.gdal == st.gdal then InFlight(pc') == InFlight(pc)
    else
      && Writing(pc) && InFlight(pc) == None
      && ((InFlight(pc') == Some(Pair(n, n + 1)) && st'.gdal == st.gdal.(open := st.gdal.open + [true, true]))
          || (InFlight(pc') == None
              && st'.gdal == st.gdal.(open := st.gdal.open + [true], failedWarps := st.gdal.failedWarps + 1)))
  }

  lemma HandlesKept(st: State, st': State, t: nat, s: nat)
    requires Handles(st) && Locks(st) && Touches(st, st', t, s) && HandleMove(st, st', t, s)
    ensures Handles(st')
  {
    assert FlightHandles(st, t);
    SlotHandlesKept(st, st', t, s);
    forall u | 0 <= u < |st'.threads| ensures FlightHandles(st', u) {
      assert FlightHandles(st, u);
    }
  }

  lemma SlotHandlesKept(st: State, st': State, t: nat, s: nat)
    requires SlotHandles(st) && t < |st.threads| && FlightHandles(st, t) && Touches(st, st', t, s) && HandleMove(st, st', t, s)
    ensures SlotHandles(st')
  {
  }

  /** The slots that hold a dataset. */
  ghost function Live(slots: seq<Slot>): set<nat> {
    set r | 0 <= r < |slots| && slots[r].ds.Some?
  }

  lemma LiveMove(slots: seq<Slot>, slots': seq<Slot>, s: nat)
    requires |slots'| == |slots|
    requires forall r :: 0 <= r < |slots| && r != s ==> slots'[r] == slots[r]
    ensures s >= |slots| ==> Live(slots') == Live(slots)
    ensures s < |slots| ==>
      |Live(slots')| - |Live(slots)| == (if slots'[s].ds.Some? then 1 else 0) - (if slots[s].ds.Some? then 1 else 0)
  {
    if s >= |slots| {
      assert Live(slots') == Live(slots);
    } else {
      LiveWithout(slots, s);
      LiveWithout(slots', s);
      forall r ensures r in Live(slots') - {s} <==> r in Live(slots) - {s} {
      }
      assert Live(slots') - {s} == Live(slots) - {s};
    }
  }

  lemma LiveWithout(slots: seq<Slot>, s: nat)
    requires s < |slots|
    ensures |Live(slots)| == |Live(slots) - {s}| + (if slots[s].ds.Some? then 1 else 0)
  {
    assert s in Live(slots) <==> slots[s].ds.Some?;
    if s in Live(slots) {
      assert Live(slots) == (Live(slots) - {s}) + {s};
    } else {
      assert Live(slots) == Live(slots) - {s};
    }
  }

  lemma LiveWithin(slots: seq<Slot>)
    ensures |Live(slots)| <= |slots|
    ensures (forall r :: 0 <= r < |slots| ==> slots[r].ds.Some?) ==> |Live(slots)| == |slots|
    ensures (exists r :: 0 <= r < |slots| && slots[r].ds.None?) ==> |Live(slots)| < |slots|
    ensures (forall r :: 0 <= r < |slots| ==> slots[r].ds.None?) ==> |Live(slots)| == 0
  {
    if slots == [] {
    } else {
      var n := |slots| - 1;
      var front := slots[..n];
      LiveWithin(front);
      assert Live(slots) == if slots[n].ds.Some? then Live(front) + {n} else Live(front);
    }
  }

  function WriterPc(st: State): Pc {
    if st.writer.Some? && st.writer.value < |st.threads| then st.threads[st.writer.value].pc else Idle
  }

  /** Every handle that was ever opened was closed, or was lost in a failed warp, or is in a slot or on its way there. */
  ghost predicate Balanced(st: State) {
    |st.gdal.open| == st.gdal.closes + st.gdal.failedWarps + 2 * |Live(st.slots)| + (if InFlight(WriterPc(st)).Some? then 2 else 0)
  }

  lemma BalancedKept(st: State, st': State, t: nat, s: nat)
    requires Balanced(st) && Handles(st) && Locks(st) && Locks(st')
    requires Touches(st, st', t, s) && HandleMove(st, st', t, s)
    requires InFlight(st'.threads[t].pc).Some? ==> Writing(st'.threads[t].pc)
    ensures Balanced(st')
  {
    LiveMove(st.slots, st'.slots, s);
    assert FlightHandles(st, t);
    FlightOfWriter(st, t);
    FlightOfWriter(st', t);
  }

  /** The handles that have been closed. */
  ghost function Shut(flags: seq<bool>): set<nat> {
    set h | 0 <= h < |flags| && !flags[h]
  }

  /** `closes` counts them, so that none is closed twice and none is forgotten. */
  ghost predicate ClosesCounted(st: State) {
    |Shut(st.gdal.open)| == st.gdal.closes
  }

  lemma ShutTwo(flags: seq<bool>, a: nat, b: nat)
    requires a < |flags| && b < |flags| && a != b && flags[a] && flags[b]
    ensures |Shut(flags[a := false][b := false])| == |Shut(flags)| + 2
  {
    assert Shut(flags[a := false][b := false]) == Shut(flags) + {a, b};
  }

  lemma ShutNoMore(flags: seq<bool>)
    ensures Shut(flags + [true]) == Shut(flags + [true, true]) == Shut(flags)
  {
  }

  lemma ClosesCountedKept(st: State, st': State, t: nat, s: nat)
    requires ClosesCounted(st) && Touches(st, st', t, s) && HandleMove(st, st', t, s)
    ensures ClosesCounted(st')
  {
    ShutNoMore(st.gdal.open);
    if st'.gdal != st.gdal && s < |st.slots| && st'.slots[s].ds != st.slots[s].ds {
      ShutTwo(st.gdal.open, st.slots[s].ds.value.source, st.slots[s].ds.value.warped);
    }
  }

  lemma FlightOfWriter(st: State, t: nat)
    requires Locks(st) && t < |st.threads|
    ensures Writing(st.threads[t].pc) ==> WriterPc(st) == st.threads[t].pc
    ensures !Writing(st.threads[t].pc) ==> st.writer != Some(t)
  {
  }

  // ----- access times -----

  /** The access times of distinct slots differ, and so do times drawn but not yet stored. */
  ghost predicate Times(st: State) {
    && (forall r :: 0 <= r < |st.slots| ==> st.slots[r].atime <= st.time)
    && (forall r, q :: 0 <= r < |st.slots| && 0 <= q < |st.slots| && r != q && st.slots[r].atime == st.slots[q].atime ==>
          st.slots[r].atime == 0)
    && (forall t :: 0 <= t < |st.threads| ==> DrawnFresh(st, t))
    && (forall t, u :: 0 <= t < |st.threads| && 0 <= u < |st.threads| && t != u && st.threads[t].pc.Stamp? && st.threads[u].pc.Stamp? ==>
          st.threads[t].pc.drawn != st.threads[u].pc.drawn)
  }

  ghost predicate DrawnFresh(st: State, t: nat)
    requires t < |st.threads|
  {
    st.threads[t].pc.Stamp? ==>
      && 0 < st.threads[t].pc.drawn <= st.time
      && forall r :: 0 <= r < |st.slots| ==> st.slots[r].atime != st.threads[t].pc.drawn
  }

  predicate TimeMove(st: State, st': State, t: nat, s: nat)
    requires t < |st.threads| && t < |st'.threads| && |st'.slots| == |st.slots|
  {
    var pc, pc' := st.threads[t].pc, st'.threads[t].pc;
    if s < |st.slots| && st'.slots[s].atime != st.slots[s].atime then
      && !pc'.Stamp?
      && ((st'.time == st.time && (st'.slots[s].atime == 0 || (pc.Stamp? && st'.slots[s].atime == pc.drawn)))
          || (st'.time == st.time + 1 && st'.slots[s].atime == st'.time))
    else if pc'.Stamp? then st'.time == st.time + 1 && pc'.drawn == st'.time
    else st'.time >= st.time
  }

  lemma TimesKept(st: State, st': State, t: nat, s: nat)
    requires Times(st) && Touches(st, st', t, s) && TimeMove(st, st', t, s)
    ensures Times(st')
  {
    assert DrawnFresh(st, t);
    forall u | 0 <= u < |st'.threads|
      ensures DrawnFresh(st', u)
      ensures u != t && st'.threads[u].pc.Stamp? && st'.threads[t].pc.Stamp? ==>
        st'.threads[u].pc.drawn != st'.threads[t].pc.drawn
    {
      assert DrawnFresh(st, u);
    }
  }

  // ----- the size of the cache, and slots lost to failed inserts -----

  /** `m_size` counts insertions; `size()` is its minimum with the capacity.  `pc` is where the writer stands. */
  ghost predicate SizedAt(c: Config, st: State, pc: Pc) {
    var live := |Live(st.slots)|;
    var exact := Tidy(c) && st.stuck == {};
    match pc
    case Clear(i) => (i > 0 ==> st.size == 0) && forall r :: 0 <= r < i && r < |st.slots| ==> st.slots[r].ds.None?
    case Move(_, _, _) =>
      && live <= st.size
      && (exact ==> live == Min(c.capacity, st.size) || (live == c.capacity - 1 && st.size >= c.capacity))
    case Release(_, _) => live <= st.size + 1 && (exact ==> live == Min(c.capacity, st.size + 1))
    case Pin(_, _) => live <= st.size + 1 && (exact ==> live == Min(c.capacity, st.size + 1))
    case _ => live <= st.size && (exact ==> live == Min(c.capacity, st.size))
  }

  ghost predicate Sized(c: Config, st: State) {
    SizedAt(c, st, WriterPc(st))
  }

  /** Each failed insert locks one more slot for good, until the thread that failed clears the cache. */
  predicate StuckCountedAt(st: State, pc: Pc) {
    pc.Clear? || |st.stuck| == st.failures + st.inherited
  }

  predicate StuckCounted(st: State) {
    StuckCountedAt(st, WriterPc(st))
  }

  /** With careful callers, nobody holds a reference while a thread clears the cache. */
  ghost predicate ClearedQuietly(c: Config, st: State) {
    c.quietClears && WriterPc(st).Clear? ==> Quiescent(st)
  }

  /** What can go wrong: a request that matches an empty slot can make a thread use a null handle, and a
      careless `clear` can fail its assertion and take datasets away from threads that hold references. */
  predicate Expected(c: Config, fault: Fault) {
    match fault
    case BadUse => c.capacity > 0 && !Tidy(c)
    case BadAssert => c.capacity > 0 && !c.quietClears
    case WrongKey => c.capacity > 0 && !c.quietClears
    case _ => false
  }

  ghost predicate Clean(c: Config, st: State) {
    forall fault :: fault in st.faults ==> Expected(c, fault)
  }

  ghost predicate Inv(c: Config, st: State) {
    && |st.slots| == c.capacity
    && Locks(st)
    && AllShaped(c, st)
    && Mutexes(st)
    && Counted(st)
    && Evictable(st)
    && Keyed(c, st)
    && Scanned(c, st)
    && AllFormed(c, st)
    && WritersOk(c, st)
    && Handles(st)
    && Balanced(st)
    && ClosesCounted(st)
    && Times(st)
    && Sized(c, st)
    && StuckCounted(st)
    && ClearedQuietly(c, st)
    && Clean(c, st)
  }
}
