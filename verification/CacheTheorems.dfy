/** What the cache promises, in every state of every run of any number of threads. */
module CacheTheorems {
  import opened Types
  import opened CacheProtocol
  import opened CacheInvariants
  import opened CacheLocal
  import opened CacheSafety
  import L = LruModel
  import R = CacheRefinement
  import W = CacheWitnesses

  /** The use count of a slot is the number of threads that hold a reference to it, one reference each. */
  lemma UseCountIsReferences(c: Config, run: seq<State>, k: nat, s: nat)
    requires IsRun(c, run) && k < |run| && s < |run[k].slots|
    ensures run[k].slots[s].uses == |set t | 0 <= t < |run[k].threads| && s in run[k].threads[t].pending|
    ensures forall t :: 0 <= t < |run[k].threads| ==> Distinct(run[k].threads[t].pending)
  {
    InvAlways(c, run, k);
    var st := run[k];
    assert Holders(st.threads, s) == set t | 0 <= t < |st.threads| && s in st.threads[t].pending;
    forall t | 0 <= t < |st.threads| ensures Distinct(st.threads[t].pending) {
      assert Shaped(c, st.threads[t], |st.slots|);
    }
  }

  /** A referenced slot is never evicted, and unless `clear` is called carelessly it keeps the key that was asked for. */
  lemma ReferencedIsNeverEvicted(c: Config, run: seq<State>, k: nat, t: nat, s: nat)
    requires IsRun(c, run) && k < |run| && t < |run[k].threads| && s in run[k].threads[t].pending
    ensures s < |run[k].slots| && run[k].slots[s].uses > 0
    ensures c.quietClears ==> run[k].slots[s].key == run[k].threads[t].key
    ensures Tidy(c) ==> run[k].slots[s].ds.Some?
    ensures run[k].slots[s].ds.Some? ==> PairOpen(run[k].gdal, run[k].slots[s].ds.value)
    ensures forall u :: 0 <= u < |run[k].threads| ==> s !in Unused(run[k].threads[u].pc)
  {
    InvAlways(c, run, k);
    var st := run[k];
    assert Shaped(c, st.threads[t], |st.slots|) && KeyedIfQuiet(c, st, t);
    var j :| 0 <= j < |st.threads[t].pending| && st.threads[t].pending[j] == s;
    if c.quietClears {
      PinnedIsUsable(c, st, t, j);
    }
    if st.slots[s].uses == 0 {
      UnusedHasNoHolders(st, t, s);
    }
    forall u | 0 <= u < |st.threads| ensures s !in Unused(st.threads[u].pc) {
      assert UnusedNow(st, u);
    }
  }

  /** That references always lead to a dataset depends on exactly two things: that no empty slot can
      match a request, and that `clear` is called only while nobody holds a reference. */
  ghost predicate ReferencesHaveDatasets(c: Config) {
    forall run: seq<State>, k: nat, t: nat, s: nat ::
      IsRun(c, run) && 0 <= k < |run| && 0 <= t < |run[k].threads| && s in run[k].threads[t].pending && s < |run[k].slots| ==>
        run[k].slots[s].ds.Some?
  }

  lemma ReferencesHaveDatasetsIff(c: Config)
    ensures ReferencesHaveDatasets(c) <==> c.capacity == 0 || Tidy(c)
  {
    if c.capacity == 0 || Tidy(c) {
      forall run: seq<State>, k: nat, t: nat, s: nat |
        IsRun(c, run) && 0 <= k < |run| && 0 <= t < |run[k].threads| && s in run[k].threads[t].pending && s < |run[k].slots|
        ensures run[k].slots[s].ds.Some?
      {
        if c.capacity == 0 {
          InvAlways(c, run, k);
        }
        ReferencedIsNeverEvicted(c, run, k, t, s);
      }
    } else if !Proper(c) {
      var run := W.EmptySlotRun(c);
      assert run[|run| - 1].threads[0].pending[0] in run[|run| - 1].threads[0].pending;
    } else {
      var run := W.CarelessClearRun(c);
      assert 0 in run[|run| - 1].threads[0].pending;
    }
  }

  /** No handle is closed twice, no mutex of an operation or an insert is unlocked by a thread that does
      not hold it; and if callers are careful, no handle is used after it was closed, no use-count
      assertion fails, and no thread works on another key's dataset. */
  lemma NoFaults(c: Config, run: seq<State>, k: nat)
    requires IsRun(c, run) && k < |run|
    ensures c.capacity == 0 || Tidy(c) ==> run[k].faults == {}
    ensures c.quietClears ==> run[k].faults <= {BadUse}
    ensures BadClose !in run[k].faults && BadUnlock !in run[k].faults
  {
    InvAlways(c, run, k);
  }

  ghost predicate NeverFaulty(c: Config, faults: set<Fault>) {
    forall run: seq<State>, k: nat :: IsRun(c, run) && 0 <= k < |run| ==> run[k].faults !! faults
  }

  /** A cache with any slots at all runs without faults exactly if its callers are careful in both ways. */
  lemma FaultFreeIff(c: Config)
    ensures NeverFaulty(c, {BadClose, BadUse, BadUnlock, BadAssert, WrongKey}) <==> c.capacity == 0 || Tidy(c)
  {
    var all := {BadClose, BadUse, BadUnlock, BadAssert, WrongKey};
    if c.capacity == 0 || Tidy(c) {
      forall run: seq<State>, k: nat | IsRun(c, run) && 0 <= k < |run| ensures run[k].faults !! all {
        NoFaults(c, run, k);
      }
    } else if !Proper(c) {
      var run := W.EmptySlotRun(c);
      assert BadUse in run[|run| - 1].faults && BadUse in all;
    } else {
      var run := W.CarelessClearRun(c);
      assert BadAssert in run[|run| - 1].faults && BadAssert in all;
    }
  }

  /** The use-count assertions never fail exactly if `clear` is called only while nobody holds a reference. */
  lemma AssertionsHoldIff(c: Config)
    ensures NeverFaulty(c, {BadAssert}) <==> c.capacity == 0 || c.quietClears
  {
    if c.capacity == 0 || c.quietClears {
      forall run: seq<State>, k: nat | IsRun(c, run) && 0 <= k < |run| ensures run[k].faults !! {BadAssert} {
        NoFaults(c, run, k);
      }
    } else {
      var run := W.CarelessClearRun(c);
      assert BadAssert in run[|run| - 1].faults;
    }
  }

  /** A single `clear` that runs undisturbed fails an assertion exactly if somebody holds a reference when it starts. */
  lemma ClearFailsIff(a: R.Actor, run: seq<State>, k: nat, asked: nat, m: L.Cache) returns (q: R.Point)
    requires IsRun(a.c, run) && k < |run| && a.t < |run[k].threads| && run[k].threads[a.t].pc == AwaitClear
    requires !Blocked(a.c, run[k], a.t) && R.Agrees(run[k], m) && BadAssert !in run[k].faults
    ensures R.Leads(a, R.Point(run[k], asked), q)
    ensures R.Stands(a, q, RESTING, R.ClearedUpTo(a, m, |m.entries|))
    ensures BadAssert in q.st.faults <==> !Quiescent(run[k])
  {
    hide R.Leads, R.ClearedUpTo;
    var st, c := run[k], a.c;
    InvAlways(c, run, k);
    assert Shaped(c, st.threads[a.t], |st.slots|);
    q := R.UninterruptedClear(a, R.Point(st, asked), st.threads[a.t], m);
    assert R.ReferencedFrom(m, 0) <==> !Quiescent(st) by {
      ReferencedIff(c, st, m);
    }
  }

  lemma ReferencedIff(c: Config, st: State, m: L.Cache)
    requires Inv(c, st) && R.Agrees(st, m)
    ensures R.ReferencedFrom(m, 0) <==> !Quiescent(st)
  {
    if R.ReferencedFrom(m, 0) {
      var s :| 0 <= s < |m.entries| && m.entries[s].uses != 0;
      assert R.Same(st.slots[s], m.entries[s]) && Holders(st.threads, s) != {};
      var u :| u in Holders(st.threads, s);
      assert st.threads[u].pending != [];
    } else if !Quiescent(st) {
      var u :| 0 <= u < |st.threads| && st.threads[u].pending != [];
      assert Shaped(c, st.threads[u], |st.slots|);
      var s := st.threads[u].pending[0];
      assert R.Same(st.slots[s], m.entries[s]);
      UnusedHasNoHolders(st, u, s);
    }
  }

  /** Between TRYLOCK and UNLOCK on a slot there is one thread at most, which holds its mutex,
      and nobody is closing, replacing or clearing that slot. */
  lemma MutualExclusion(c: Config, run: seq<State>, k: nat, t: nat, u: nat)
    requires IsRun(c, run) && k < |run| && t < |run[k].threads| && u < |run[k].threads| && t != u
    requires run[k].threads[t].pc.InOp?
    ensures run[k].threads[t].pending != []
    ensures var s := run[k].threads[t].pending[0];
      && s < |run[k].slots| && run[k].slots[s].mutex == Some(t)
      && !(run[k].threads[u].pc.InOp? && run[k].threads[u].pending != [] && run[k].threads[u].pending[0] == s)
      && s !in Owned(run[k].threads[u])
      && s !in Unused(run[k].threads[u].pc)
      && (c.quietClears ==> !run[k].threads[u].pc.Clear?)
  {
    InvAlways(c, run, k);
    var st := run[k];
    assert Shaped(c, st.threads[t], |st.slots|) && Shaped(c, st.threads[u], |st.slots|);
    assert OwnsThem(st, t) && OwnsThem(st, u) && UnusedNow(st, u);
    var s := st.threads[t].pending[0];
    assert s in Owned(st.threads[t]);
    if s in Unused(st.threads[u].pc) {
      UnusedHasNoHolders(st, t, s);
    }
    FlightOfWriter(st, u);
  }

  /** After its success a thread does nothing but give back its references. */
  lemma StopsAtSuccess(c: Config, run: seq<State>, k: nat, t: nat)
    requires IsRun(c, run) && k < |run| && t < |run[k].threads| && run[k].threads[t].done
    ensures run[k].threads[t].pc.Use? || (run[k].threads[t].pc.Dec? && run[k].threads[t].pending != [])
    ensures forall ch :: Enabled(c, run[k], t, ch) ==>
      Apply(c, run[k], t, ch).threads[t] == RESTING || Apply(c, run[k], t, ch).threads[t].done
  {
    InvAlways(c, run, k);
    assert Shaped(c, run[k].threads[t], |run[k].slots|);
  }

  /** The band lookup of get_pixels is outside that region: it is not held up by a thread that is inside. */
  lemma LookupIgnoresMutex(c: Config, run: seq<State>, k: nat, t: nat, u: nat)
    requires IsRun(c, run) && k < |run| && t < |run[k].threads| && u < |run[k].threads| && t != u
    requires run[k].threads[u].pc.InOp? && run[k].threads[t].pc.Use? && !run[k].threads[t].done
    requires run[k].threads[t].pending != [] && run[k].threads[u].pending != []
    requires run[k].threads[t].pending[0] == run[k].threads[u].pending[0]
    ensures Enabled(c, run[k], t, Lookup)
    ensures var st' := Apply(c, run[k], t, Lookup);
      st'.threads[t].pc.Looked? && st'.threads[u].pc.InOp? && (Tidy(c) ==> st'.faults == {})
  {
    InvAlways(c, run, k);
    ShapedInBounds(c, run[k], t);
    CleanKept(c, run[k], t, Lookup);
  }

  /** Only lock acquisitions wait, and a thread that holds a lock never waits for another. */
  lemma NoDeadlock(c: Config, run: seq<State>, k: nat, v: nat)
    requires IsRun(c, run) && k < |run| && v < |run[k].threads| && !run[k].threads[v].pc.Idle?
    ensures exists t: nat, ch :: Enabled(c, run[k], t, ch) && !run[k].threads[t].pc.Idle?
  {
    InvAlways(c, run, k);
    var st := run[k];
    var t := Runnable(c, st, v);
    assert Shaped(c, st.threads[t], |st.slots|);
    ShapedInBounds(c, st, t);
    var ch := SomeChoice(c, st, t);
    assert Enabled(c, st, t, ch);
  }

  /** The writer can go on; or else any reader; or else whoever holds a reference; or else the given thread itself. */
  lemma Runnable(c: Config, st: State, v: nat) returns (t: nat)
    requires Locks(st) && AllShaped(c, st) && v < |st.threads| && !st.threads[v].pc.Idle?
    ensures t < |st.threads| && !st.threads[t].pc.Idle? && !Blocked(c, st, t)
  {
    if st.writer.Some? {
      t := st.writer.value;
    } else if st.readers != {} {
      t :| t in st.readers;
    } else if Blocked(c, st, v) {
      t :| 0 <= t < |st.threads| && st.threads[t].pending != [];
      assert Shaped(c, st.threads[t], |st.slots|);
    } else {
      t := v;
    }
  }

  lemma SomeChoice(c: Config, st: State, t: nat) returns (ch: Choice)
    requires t < |st.threads| && !st.threads[t].pc.Idle?
    ensures Allowed(c, st, t, ch)
  {
    match st.threads[t].pc
    case Open(_, _) => ch := OpenFailed;
    case Use => ch := if st.threads[t].pending == [] then Return else Go;
    case InOp => ch := Finish(true);
    case _ => ch := Go;
  }

  /** Every handle that GDAL ever gave out was closed, or is the source of a failed warp, or belongs to
      a slot, or is on its way there; the handles in slots are open and no two slots share one. */
  lemma HandlesConserved(c: Config, run: seq<State>, k: nat)
    requires IsRun(c, run) && k < |run|
    ensures var st := run[k];
      |st.gdal.open| == st.gdal.closes + st.gdal.failedWarps
        + 2 * |set r | 0 <= r < |st.slots| && st.slots[r].ds.Some?|
        + (if InFlight(WriterPc(st)).Some? then 2 else 0)
    ensures var st := run[k];
      && st.gdal.closes == |set h | 0 <= h < |st.gdal.open| && !st.gdal.open[h]|
      && |set h | 0 <= h < |st.gdal.open| && st.gdal.open[h]|
        == st.gdal.failedWarps + 2 * |set r | 0 <= r < |st.slots| && st.slots[r].ds.Some?| + (if InFlight(WriterPc(st)).Some? then 2 else 0)
    ensures SlotHandles(run[k])
  {
    InvAlways(c, run, k);
    OpenOrShut(run[k].gdal.open);
    assert Shut(run[k].gdal.open) == set h | 0 <= h < |run[k].gdal.open| && !run[k].gdal.open[h];
    assert Live(run[k].slots) == set r | 0 <= r < |run[k].slots| && run[k].slots[r].ds.Some?;
  }

  lemma {:induction false} OpenOrShut(flags: seq<bool>)
    ensures |set h | 0 <= h < |flags| && flags[h]| + |Shut(flags)| == |flags|
  {
    if flags != [] {
      var n := |flags| - 1;
      var front := flags[..n];
      OpenOrShut(front);
      var before, now := set h | 0 <= h < n && front[h], set h | 0 <= h < |flags| && flags[h];
      assert now == if flags[n] then before + {n} else before;
      assert Shut(flags) == if flags[n] then Shut(front) else Shut(front) + {n};
    }
  }

  /** Nobody is inside `insert`, `clear` or an operation. */
  ghost predicate Calm(st: State) {
    forall t :: 0 <= t < |st.threads| ==> Owned(st.threads[t]) == {} && !st.threads[t].pc.Clear?
  }

  /** Every path through an operation or an insert gives its mutexes back, except that a failed insert
      never unlocks its victim: one more slot each time, until a `clear`. */
  lemma LockedSlotsAreFailedInserts(c: Config, run: seq<State>, k: nat)
    requires IsRun(c, run) && k < |run| && Calm(run[k])
    ensures var locked := set r | 0 <= r < |run[k].slots| && run[k].slots[r].mutex.Some?;
      |locked| == run[k].failures + run[k].inherited <= c.capacity
  {
    InvAlways(c, run, k);
    var st := run[k];
    var locked := set r | 0 <= r < |st.slots| && st.slots[r].mutex.Some?;
    forall r | 0 <= r < |st.slots| ensures r in st.stuck <==> r in locked {
      assert HeldRightly(st, r);
    }
    assert locked == st.stuck;
    WithinRange(st.stuck, c.capacity);
  }

  lemma {:induction false} WithinRange(s: set<nat>, n: nat)
    requires forall r :: r in s ==> r < n
    ensures |s| <= n
  {
    if n == 0 {
      assert s == {};
    } else {
      WithinRange(s - {n - 1}, n - 1);
      assert |s| <= |s - {n - 1}| + 1 by {
        assert s <= (s - {n - 1}) + {n - 1};
        assert n - 1 in s ==> s == (s - {n - 1}) + {n - 1};
        assert n - 1 !in s ==> s == s - {n - 1};
      }
    }
  }

  /** Once failed inserts have locked every slot, no insert finds a victim any more. */
  lemma ExhaustedCacheYieldsNothing(c: Config, run: seq<State>, k: nat, t: nat)
    requires IsRun(c, run) && k < |run| && t < |run[k].threads| && |run[k].stuck| == c.capacity
    ensures Owned(run[k].threads[t]) == {}
    ensures PhaseOf(run[k].threads[t].pc) == Installing ==> run[k].threads[t].pc.Pin?
  {
    InvAlways(c, run, k);
    var st := run[k];
    FullSet(st.stuck, c.capacity);
    assert OwnsThem(st, t);
    assert forall s :: s in Owned(st.threads[t]) ==> s < c.capacity && s !in st.stuck;
  }

  lemma {:induction false} FullSet(s: set<nat>, n: nat)
    requires |s| == n && forall r :: r in s ==> r < n
    ensures forall r :: 0 <= r < n ==> r in s
  {
    forall r | 0 <= r < n ensures r in s {
      WithinRange(s + {r}, n);
      assert r !in s ==> |s + {r}| == |s| + 1;
    }
  }

  /** Without a `clear`, a slot whose insert failed is lost for good, and one more is lost exactly when an open fails. */
  lemma StuckForGood(c: Config, st: State, t: nat, ch: Choice)
    requires Inv(c, st) && Enabled(c, st, t, ch) && !st.threads[t].pc.Clear?
    ensures var st' := Apply(c, st, t, ch);
      if st.threads[t].pc.Open? && !ch.Opened? then
        st.threads[t].pc.victim !in st.stuck && st'.stuck == st.stuck + {st.threads[t].pc.victim}
      else st'.stuck == st.stuck
  {
    hide Apply;
    if st.threads[t].pc.Open? {
      assert OwnsThem(st, t) && st.threads[t].pc.victim in Owned(st.threads[t]);
      StuckAtOpen(c, st, t, ch);
    } else {
      StuckOnlyAtOpen(c, st, t, ch);
    }
  }

  lemma StuckAtOpen(c: Config, st: State, t: nat, ch: Choice)
    requires Enabled(c, st, t, ch) && st.threads[t].pc.Open?
    ensures Apply(c, st, t, ch).stuck == if ch.Opened? then st.stuck else st.stuck + {st.threads[t].pc.victim}
  {
  }

  lemma StuckOnlyAtOpen(c: Config, st: State, t: nat, ch: Choice)
    requires Enabled(c, st, t, ch) && !st.threads[t].pc.Open? && !st.threads[t].pc.Clear?
    ensures Apply(c, st, t, ch).stuck == st.stuck
  {
  }

  /** Until it is cleared, a lost slot keeps its key, its dataset and its mutex. */
  ghost predicate Frozen(st: State, st': State, s: nat) {
    && s < |st.slots| && s < |st'.slots|
    && st'.slots[s].tag == st.slots[s].tag && st'.slots[s].key == st.slots[s].key
    && st'.slots[s].ds == st.slots[s].ds && st'.slots[s].mutex == st.slots[s].mutex
  }

  lemma StuckIsFrozen(c: Config, st: State, t: nat, ch: Choice, s: nat)
    requires Inv(c, st) && Enabled(c, st, t, ch) && !st.threads[t].pc.Clear? && s in st.stuck
    ensures Frozen(st, Apply(c, st, t, ch), s)
  {
    KnowsFromInv(c, st, t);
    EveryActionMoves(c, st, t, ch);
    assert HeldRightly(st, s) && OwnsThem(st, t);
    if Target(st.threads[t]) == s {
      OwnersOnly(c, st, t, ch);
    }
  }

  /** What a thread does to the contents or the mutex of a locked slot, it does as the owner of the mutex. */
  lemma OwnersOnly(c: Config, st: State, t: nat, ch: Choice)
    requires Enabled(c, st, t, ch) && !st.threads[t].pc.Clear? && Shaped(c, st.threads[t], |st.slots|)
    requires var s := Target(st.threads[t]); s < |st.slots| && st.slots[s].mutex.Some? && s !in Owned(st.threads[t])
    ensures Frozen(st, Apply(c, st, t, ch), Target(st.threads[t]))
  {
  }

  /** So it stays for as long as nobody clears the cache. */
  lemma {:induction false} StuckStaysFrozen(c: Config, run: seq<State>, k: nat, l: nat, s: nat)
    requires IsRun(c, run) && k <= l < |run| && s in run[k].stuck
    requires forall j, t :: k <= j < l && 0 <= t < |run[j].threads| ==> !run[j].threads[t].pc.Clear?
    ensures s in run[l].stuck && Frozen(run[k], run[l], s)
    decreases l
  {
    hide Inv, Init, Apply, Frozen;
    InvAlways(c, run, k);
    if k == l {
      FrozenAtFirst(c, run[k], s);
    } else {
      StuckStaysFrozen(c, run, k, l - 1, s);
      InvAlways(c, run, l - 1);
      assert Next(c, run[l - 1], run[l - 1 + 1]);
      var t, ch :| Enabled(c, run[l - 1], t, ch) && run[l] == Apply(c, run[l - 1], t, ch);
      StuckIsFrozen(c, run[l - 1], t, ch, s);
      StuckForGood(c, run[l - 1], t, ch);
      FrozenTwice(run[k], run[l - 1], run[l], s);
    }
  }

  lemma FrozenAtFirst(c: Config, st: State, s: nat)
    requires Inv(c, st) && s in st.stuck
    ensures Frozen(st, st, s)
  {
  }

  lemma FrozenTwice(st: State, st': State, st'': State, s: nat)
    requires Frozen(st, st', s) && Frozen(st', st'', s)
    ensures Frozen(st, st'', s)
  {
  }

  /** And no operation is ever at work on it: `get` goes on returning the old dataset, and TRYLOCK always fails. */
  lemma NoOperationOnStuck(c: Config, run: seq<State>, k: nat, t: nat)
    requires IsRun(c, run) && k < |run| && t < |run[k].threads| && run[k].threads[t].pending != []
    requires run[k].threads[t].pending[0] in run[k].stuck
    ensures !run[k].threads[t].pc.InOp?
    ensures Enabled(c, run[k], t, Go) && (run[k].threads[t].pc.Use? || run[k].threads[t].pc.Looked?) ==>
      Apply(c, run[k], t, Go).threads[t].pc.Dec?
  {
    InvAlways(c, run, k);
    var st := run[k];
    assert OwnsThem(st, t) && HeldRightly(st, st.threads[t].pending[0]);
  }

  /** When `clear` is done every slot is empty, and unlocked unless another thread's failed insert locked it. */
  lemma ClearEmptiesAll(c: Config, run: seq<State>, k: nat, t: nat)
    requires IsRun(c, run) && k < |run| && t < |run[k].threads|
    requires run[k].threads[t].pc == Clear(c.capacity)
    ensures |run[k].slots| == c.capacity
    ensures forall r :: 0 <= r < c.capacity ==> Cleared(run[k].slots[r], t)
    ensures c.quietClears ==> forall r :: 0 <= r < c.capacity ==> (run[k].slots[r] == EMPTY_SLOT <==> r !in run[k].stuck)
  {
    InvAlways(c, run, k);
    var st := run[k];
    assert WriterOk(c, st, t);
    if c.quietClears {
      QuietUses(c, st, t);
      forall r | 0 <= r < c.capacity ensures st.slots[r] == EMPTY_SLOT <==> r !in st.stuck {
        assert Cleared(st.slots[r], t) && HeldRightly(st, r);
        if st.slots[r].mutex.Some? && r !in st.stuck {
          var u := st.slots[r].mutex.value;
          assert r in Owned(st.threads[u]) && Shaped(c, st.threads[u], |st.slots|);
          assert Writing(st.threads[u].pc);
        }
      }
    }
  }

  /** `size()` is at most one behind the number of datasets except in the middle of `clear`, and behind at
      all only between the move of a new dataset into its slot and the count of it; and outside of
      replacements it is exact when no failed insert has left a slot locked. */
  lemma SizeIsOccupancy(c: Config, run: seq<State>, k: nat)
    requires IsRun(c, run) && k < |run| && forall t :: 0 <= t < |run[k].threads| ==> !run[k].threads[t].pc.Clear?
    ensures Occupied(run[k]) <= Min(c.capacity, run[k].size + 1)
    ensures (forall t :: 0 <= t < |run[k].threads| ==> !Uncounted(run[k].threads[t].pc)) ==>
      && Occupied(run[k]) <= Min(c.capacity, run[k].size)
      && (Tidy(c) && run[k].stuck == {} && (forall t :: 0 <= t < |run[k].threads| ==> !run[k].threads[t].pc.Move?) ==>
            Occupied(run[k]) == Min(c.capacity, run[k].size))
    ensures (exists t :: 0 <= t < |run[k].threads| && Uncounted(run[k].threads[t].pc)) && Tidy(c) && run[k].stuck == {} ==>
      Occupied(run[k]) == Min(c.capacity, run[k].size + 1)
  {
    InvAlways(c, run, k);
    var st := run[k];
    LiveWithin(st.slots);
    assert !WriterPc(st).Clear?;
    if t :| 0 <= t < |st.threads| && Uncounted(st.threads[t].pc) {
      assert WriterPc(st) == st.threads[t].pc;
    }
  }

  predicate Uncounted(pc: Pc) {
    pc.Release? || pc.Pin?
  }

  ghost function Occupied(st: State): nat {
    |Live(st.slots)|
  }

  ghost predicate SizeAlwaysCovers(c: Config) {
    forall run: seq<State>, k: nat :: IsRun(c, run) && 0 <= k < |run| ==> Occupied(run[k]) <= Min(c.capacity, run[k].size)
  }

  /** Since `size()` takes no lock, a caller may see it lag behind, in any cache that has slots. */
  lemma SizeAlwaysCoversIff(c: Config)
    ensures SizeAlwaysCovers(c) <==> c.capacity == 0
  {
    if c.capacity == 0 {
      forall run: seq<State>, k: nat | IsRun(c, run) && 0 <= k < |run| ensures Occupied(run[k]) <= Min(c.capacity, run[k].size) {
        InvAlways(c, run, k);
        LiveWithin(run[k].slots);
      }
    } else {
      var run := W.HalfInsertedRun(c);
      assert 0 in Live(run[|run| - 1].slots);
    }
  }

  /** A dataset is evicted only when no unlocked empty slot is left. */
  lemma EvictsOnlyWhenFull(c: Config, run: seq<State>, k: nat, t: nat)
    requires IsRun(c, run) && k < |run| && t < |run[k].threads| && Tidy(c)
    requires run[k].threads[t].pc.Close? && run[k].threads[t].pc.victim < |run[k].slots|
    requires run[k].slots[run[k].threads[t].pc.victim].ds.Some?
    ensures forall r :: 0 <= r < |run[k].slots| && run[k].slots[r].ds.None? ==> run[k].slots[r].mutex.Some?
  {
    InvAlways(c, run, k);
    var st := run[k];
    assert WriterOk(c, st, t);
    forall r | 0 <= r < |st.slots| && st.slots[r].ds.None? ensures st.slots[r].mutex.Some? {
      assert HeldRightly(st, r);
    }
  }

  /** Access times tell slots apart, although a slow reader may store an older time over a newer one. */
  lemma TimesDistinct(c: Config, run: seq<State>, k: nat, r: nat, q: nat)
    requires IsRun(c, run) && k < |run| && r < |run[k].slots| && q < |run[k].slots| && r != q
    requires run[k].slots[r].atime == run[k].slots[q].atime
    ensures run[k].slots[r].atime == 0
  {
    InvAlways(c, run, k);
  }

  /** When `get` leaves its scan it has pinned exactly the slots that match, in order, each once. */
  lemma ScanPinsAllMatches(c: Config, run: seq<State>, k: nat, t: nat)
    requires IsRun(c, run) && k < |run| && t < |run[k].threads| && run[k].threads[t].pc == Scan(c.capacity)
    ensures forall r :: 0 <= r < c.capacity ==>
      r < |run[k].slots| && (r in run[k].threads[t].pending <==> Matches(c, run[k].slots[r], run[k].threads[t].key))
    ensures Distinct(run[k].threads[t].pending)
  {
    InvAlways(c, run, k);
    var st := run[k];
    assert ScannedBy(c, st, t) && KeyedIfQuiet(c, st, t) && Shaped(c, st.threads[t], |st.slots|);
  }

  /** Every slot with a dataset is tagged with the hash of its key, so that comparing tags first loses nothing. */
  lemma TagsNeverMislead(c: Config, run: seq<State>, k: nat, r: nat, key: Key)
    requires IsRun(c, run) && k < |run| && r < |run[k].slots| && run[k].writer.None? && run[k].slots[r].ds.Some?
    ensures Matches(c, run[k].slots[r], key) <==> run[k].slots[r].key == key
  {
    InvAlways(c, run, k);
    assert FormedOrRewritten(c, run[k], r);
  }

  // ----- a contended lock -----

  /** What a thread does at the end of its scan, with `m` matches pinned: it asks for the write lock at any
      price if it wants more datasets than that, or at least one, and otherwise only if the lock is free. */
  lemma ScanDecides(c: Config, run: seq<State>, k: nat, t: nat)
    requires IsRun(c, run) && k < |run| && t < |run[k].threads| && run[k].threads[t].pc == Scan(c.capacity)
    ensures Enabled(c, run[k], t, Go)
    ensures var th, m := run[k].threads[t], |run[k].threads[t].pending|;
      Apply(c, run[k], t, Go).threads[t] == th.(pc :=
        if th.copies > m then AwaitWrite(th.copies - m)
        else if th.copies < 0 && m == 0 then AwaitWrite(1)
        else if -th.copies > m then TryWrite(-th.copies - m)
        else Use)
  {
    InvAlways(c, run, k);
    ShapedInBounds(c, run[k], t);
  }

  /** However long it takes, a thread that asks at any price goes on with the write lock and all its
      inserts to make; one that does not goes without any if it finds the lock taken. */
  lemma WaitsOrGoesWithout(c: Config, st: State, t: nat, ch: Choice)
    requires Enabled(c, st, t, ch) && (st.threads[t].pc.AwaitWrite? || st.threads[t].pc.TryWrite?)
    ensures var th, taken := st.threads[t], st.writer.Some? || st.readers != {};
      var st' := Apply(c, st, t, ch);
      if th.pc.TryWrite? && taken then st'.threads[t] == th.(pc := Use) && st'.writer == st.writer
      else !taken && st'.threads[t] == th.(pc := Insert(th.pc.need)) && st'.writer == Some(t)
  {
  }

  // ----- the victim among interleaved threads -----

  predicate InHunt(pc: Pc) {
    pc.Hunt? || pc.Probe? || pc.Unprobe? || pc.Drop?
  }

  /** Nobody else has the slot locked, and nobody holds a reference to it. */
  predicate FreeFor(st: State, t: nat, r: nat) {
    && r < |st.slots| && r !in st.stuck
    && st.slots[r].uses == 0 && (st.slots[r].mutex == None || st.slots[r].mutex == Some(t))
  }

  /** The best slot so far is no younger than slot `r`, if the scan has passed that. */
  predicate NoYounger(st: State, pc: Pc, r: nat) {
    match pc
    case Hunt(_, i, best) => r < i ==> BestBefore(st, best, r)
    case Probe(_, i, best) => r < i ==> BestBefore(st, best, r)
    case Unprobe(_, i, best) => r <= i ==> BestBefore(st, best, r)
    case Drop(_, i, _) => r <= i ==> BestBefore(st, Some(i), r)
    case Open(_, victim) => BestBefore(st, Some(victim), r)
    case _ => true
  }

  predicate BestBefore(st: State, best: Option<nat>, r: nat) {
    best.Some? && best.value < |st.slots| && r < |st.slots| && st.slots[best.value].atime <= st.slots[r].atime
  }

  lemma HunterKeepsNoYounger(c: Config, st: State, t: nat, ch: Choice, r: nat)
    requires Inv(c, st) && Enabled(c, st, t, ch) && InHunt(st.threads[t].pc)
    requires FreeFor(st, t, r) && NoYounger(st, st.threads[t].pc, r)
    ensures var st' := Apply(c, st, t, ch); t < |st'.threads| && NoYounger(st', st'.threads[t].pc, r)
  {
    assert WriterOk(c, st, t) && HeldRightly(st, r) && OwnsThem(st, t) && Shaped(c, st.threads[t], |st.slots|);
    HuntKeepsNoYounger(c, st, t, r);
  }

  lemma HuntKeepsNoYounger(c: Config, st: State, t: nat, r: nat)
    requires t < |st.threads| && InBounds(st, t) && InHunt(st.threads[t].pc)
    requires FreeFor(st, t, r) && HeldRightly(st, r) && WriterOk(c, st, t) && Shaped(c, st.threads[t], |st.slots|)
    requires NoYounger(st, st.threads[t].pc, r)
    ensures var st' := ApplyHunt(st, t); t < |st'.threads| && NoYounger(st', st'.threads[t].pc, r)
  {
  }

  lemma OthersKeepNoYounger(c: Config, st: State, t: nat, u: nat, ch: Choice, r: nat)
    requires Inv(c, st) && Enabled(c, st, u, ch) && t < |st.threads| && u != t && InHunt(st.threads[t].pc)
    requires NoYounger(st, st.threads[t].pc, r)
    ensures var st' := Apply(c, st, u, ch); t < |st'.threads| && st'.threads[t] == st.threads[t] && NoYounger(st', st.threads[t].pc, r)
  {
    KnowsFromInv(c, st, u);
    EveryActionMoves(c, st, u, ch);
    OthersLeaveTimes(c, st, t, u, Apply(c, st, u, ch));
  }

  lemma OthersLeaveTimes(c: Config, st: State, t: nat, u: nat, st': State)
    requires Locks(st) && t < |st.threads| && Writing(st.threads[t].pc) && u < |st.threads| && u != t
    requires Touches(st, st', u, Target(st.threads[u])) && ContentMove(st, st', u, Target(st.threads[u]))
    ensures |st'.slots| == |st.slots| && forall r :: 0 <= r < |st.slots| ==> st'.slots[r].atime == st.slots[r].atime
  {
  }

  /** However other threads interfere: the victim is at least as old as any slot that stays free throughout the scan. */
  lemma VictimIsLeastFree(c: Config, run: seq<State>, k: nat, l: nat, t: nat, r: nat)
    requires IsRun(c, run) && k < l < |run| && t < |run[k].threads|
    requires run[k].threads[t].pc.Hunt? && run[k].threads[t].pc.i == 0
    requires forall j :: k <= j < l ==> t < |run[j].threads| && InHunt(run[j].threads[t].pc) && FreeFor(run[j], t, r)
    requires t < |run[l].threads| && run[l].threads[t].pc.Open?
    ensures BestBefore(run[l], Some(run[l].threads[t].pc.victim), r)
  {
    ScanFindsLeast(c, run, k, l, t, r);
  }

  lemma {:induction false} ScanFindsLeast(c: Config, run: seq<State>, k: nat, l: nat, t: nat, r: nat)
    requires IsRun(c, run) && k <= l < |run| && t < |run[k].threads|
    requires run[k].threads[t].pc.Hunt? && run[k].threads[t].pc.i == 0
    requires forall j :: k <= j < l ==> t < |run[j].threads| && InHunt(run[j].threads[t].pc) && FreeFor(run[j], t, r)
    ensures t < |run[l].threads| && NoYounger(run[l], run[l].threads[t].pc, r)
    decreases l
  {
    hide Inv, Init, Apply, NoYounger, FreeFor;
    if k == l {
      NothingPassed(run[k], run[k].threads[t].pc, r);
    } else {
      ScanFindsLeast(c, run, k, l - 1, t, r);
      InvAlways(c, run, l - 1);
      assert Next(c, run[l - 1], run[l - 1 + 1]);
      var u, ch :| Enabled(c, run[l - 1], u, ch) && run[l] == Apply(c, run[l - 1], u, ch);
      if u == t {
        HunterKeepsNoYounger(c, run[l - 1], t, ch, r);
      } else {
        OthersKeepNoYounger(c, run[l - 1], t, u, ch, r);
      }
    }
  }

  lemma NothingPassed(st: State, pc: Pc, r: nat)
    requires pc.Hunt? && pc.i == 0
    ensures NoYounger(st, pc, r)
  {
  }
}
