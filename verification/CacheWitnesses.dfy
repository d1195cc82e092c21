/** Runs in which the promises of the cache are broken: by a `clear` while a reference is held, by a request that matches empty slots. */
module CacheWitnesses {
  import opened Types
  import opened CacheProtocol
  import opened CacheInvariants
  import opened CacheRefinement
  import CacheSteps
  import Clock = LruClock
  import L = LruModel
  import Seq = LruProperties
  import D = LockedDatasets

  // ----- putting runs together -----

  /** What one thread does alone may follow any run. */
  lemma Extend(run: seq<State>, a: Actor, p: Point, q: Point) returns (longer: seq<State>)
    requires IsRun(a.c, run) && run[|run| - 1] == p.st && Leads(a, p, q)
    ensures IsRun(a.c, longer) && longer[|longer| - 1] == q.st
  {
    var trace: seq<Point> :| trace != [] && trace[0] == p && trace[|trace| - 1] == q && IsTrace(a, trace);
    longer := run + seq(|trace| - 1, i requires 0 <= i < |trace| - 1 => trace[i + 1].st);
    forall k | 0 <= k < |longer| - 1 ensures Next(a.c, longer[k], longer[k + 1]) {
      if k >= |run| - 1 {
        var i := k - (|run| - 1);
        assert Follows(a, trace[i], trace[i + 1]);
        assert longer[k] == trace[i].st && longer[k + 1] == trace[i + 1].st;
      } else {
        assert longer[k] == run[k] && longer[k + 1] == run[k + 1];
      }
    }
  }

  lemma OneMore(c: Config, run: seq<State>, t: nat, ch: Choice)
    requires IsRun(c, run) && Enabled(c, run[|run| - 1], t, ch)
    ensures IsRun(c, run + [Apply(c, run[|run| - 1], t, ch)])
  {
    hide Apply, Enabled;
    var longer := run + [Apply(c, run[|run| - 1], t, ch)];
    forall k | 0 <= k < |longer| - 1 ensures Next(c, longer[k], longer[k + 1]) {
      if k < |run| - 1 {
        assert longer[k] == run[k] && longer[k + 1] == run[k + 1];
      }
    }
  }

  ghost predicate OthersSame(st: State, st': State, t: nat) {
    |st'.threads| == |st.threads| && forall u :: 0 <= u < |st.threads| && u != t ==> st'.threads[u] == st.threads[u]
  }

  lemma ActorMovesAlone(a: Actor, p: Point)
    requires Ready(a, p)
    ensures OthersSame(p.st, After(a, p).st, a.t)
  {
    CacheSteps.EveryActionTouches(a.c, p.st, a.t, ChoiceAt(a, p));
  }

  lemma {:induction false} TraceMovesAlone(a: Actor, trace: seq<Point>)
    requires trace != [] && IsTrace(a, trace)
    ensures OthersSame(trace[0].st, trace[|trace| - 1].st, a.t)
    decreases |trace|
  {
    hide Follows;
    if |trace| > 1 {
      assert Follows(a, trace[0], trace[1]);
      FollowsAlone(a, trace[0], trace[1]);
      forall k | 0 <= k < |trace[1..]| - 1 ensures Follows(a, trace[1..][k], trace[1..][k + 1]) {
        assert Follows(a, trace[k + 1], trace[k + 1 + 1]);
      }
      TraceMovesAlone(a, trace[1..]);
    }
  }

  lemma FollowsAlone(a: Actor, p: Point, q: Point)
    requires Follows(a, p, q)
    ensures OthersSame(p.st, q.st, a.t)
  {
    ActorMovesAlone(a, p);
  }

  lemma OthersStay(a: Actor, p: Point, q: Point)
    requires Leads(a, p, q)
    ensures OthersSame(p.st, q.st, a.t)
  {
    hide Follows, OthersSame;
    var trace: seq<Point> :| trace != [] && trace[0] == p && trace[|trace| - 1] == q && IsTrace(a, trace);
    TraceMovesAlone(a, trace);
  }

  // ----- a first request -----

  const SOME_KEY: Key := Key("geo.tif", [])

  function Alone(c: Config): Actor {
    Actor(c, 0, (n: nat) => D.Opens, (s: nat) => true)
  }

  /** What a new cache contains, for the sequential cache. */
  function NewCache(capacity: nat): L.Cache {
    L.Cache(seq(capacity, _ => L.Entry(0, 0, EMPTY_KEY, false, None, 0)), 0, 0)
  }

  /** Two threads, of which the first has just asked for a key. */
  lemma FirstRequest(c: Config, key: Key) returns (run: seq<State>)
    requires key != EMPTY_KEY || c.asksEmpty
    ensures IsRun(c, run)
    ensures var st := run[|run| - 1];
      && Stands(Alone(c), Point(st, 0), Thread(AwaitRead, key, 1, [], false), NewCache(c.capacity))
      && st.threads == [Thread(AwaitRead, key, 1, [], false), RESTING] && st.writer == None && st.readers == {}
      && st.slots == seq(c.capacity, _ => EMPTY_SLOT)
  {
    var s0 := State(seq(c.capacity, _ => EMPTY_SLOT), 0, 0, {}, None, [RESTING, RESTING], Gdal([], 0, 0), {}, {}, 0, 0);
    assert IsRun(c, [s0]);
    OneMore(c, [s0], 0, Request(key, 1));
    run := [s0] + [Apply(c, s0, 0, Request(key, 1))];
  }

  lemma {:induction false} NothingMatches(h: string -> Word, m: L.Cache, key: Key, n: nat)
    requires n <= |m.entries| && forall i :: 0 <= i < n ==> !L.Matches(h, m.entries[i], key)
    ensures L.PinFirst(h, m, key, n) == (m, [])
  {
    if n > 0 {
      NothingMatches(h, m, key, n - 1);
    }
  }

  lemma FirstVictim(capacity: nat)
    requires capacity > 0
    ensures L.Victim(NewCache(capacity)) == Some(0)
  {
    var m := NewCache(capacity);
    Seq.VictimIsLeast(m.entries, capacity);
    assert L.Evictable(m.entries[0]);
  }

  /** The first `get` fills the first slot. */
  lemma FirstGet(c: Config)
    requires c.capacity > 0
    ensures var m := NewCache(c.capacity);
      && L.PinFirst(c.hash, m, SOME_KEY, |m.entries|) == (m, [])
      && L.Get(c.hash, m, 0, SOME_KEY, 1, true, Opening(Alone(c)), 0).1 == [0]
      && L.Get(c.hash, m, 0, SOME_KEY, 1, true, Opening(Alone(c)), 0).0.entries[0].uses == 1
  {
    var m := NewCache(c.capacity);
    NothingMatches(c.hash, m, SOME_KEY, c.capacity);
    FirstVictim(c.capacity);
    var (c1, first) := L.InsertOne(c.hash, m, 0, SOME_KEY, true);
    assert L.InsertMany(c.hash, m, 0, SOME_KEY, 1, Opening(Alone(c)), 0) == (c1, [0] + []);
  }

  /** One thread holds a reference to the first slot; the other is idle. */
  lemma ReferencedRun(c: Config) returns (run: seq<State>)
    requires c.capacity > 0
    ensures IsRun(c, run)
    ensures var st := run[|run| - 1];
      && |st.threads| == 2 && st.threads[0].pending == [0] && st.threads[1] == RESTING
      && st.writer == None && st.readers == {} && |st.slots| == c.capacity && st.slots[0].uses == 1
  {
    run := FirstRequest(c, SOME_KEY);
    var a, p := Alone(c), Point(run[|run| - 1], 0);
    var m := NewCache(c.capacity);
    FirstGet(c);
    var q := UninterruptedGet(a, p, Thread(AwaitRead, SOME_KEY, 1, [], false), m, {});
    run := Extend(run, a, p, q);
    OthersStay(a, p, q);
  }

  // ----- a look at `size()` in the middle of an insert -----

  /** The first insert has moved its dataset in, and has not counted it yet. */
  lemma HalfInsertedRun(c: Config) returns (run: seq<State>)
    requires c.capacity > 0
    ensures IsRun(c, run)
    ensures var st := run[|run| - 1];
      |st.threads| == 2 && st.threads[0].pc == Release(1, 0) && st.size == 0 && |st.slots| == c.capacity && st.slots[0].ds.Some?
  {
    run := FirstRequest(c, SOME_KEY);
    var a, p := Alone(c), Point(run[|run| - 1], 0);
    var m := NewCache(c.capacity);
    var th := Thread(AwaitRead, SOME_KEY, 1, [], false);
    FirstGet(c);
    FirstVictim(c.capacity);
    var q := HalfInserted(a, p, th, m);
    run := Extend(run, a, p, q);
    OthersStay(a, p, q);
  }

  lemma HalfInserted(a: Actor, p: Point, th: Thread, m: L.Cache) returns (q: Point)
    requires Stands(a, p, th, m) && th == Thread(AwaitRead, th.key, 1, [], false) && p.st.writer == None && p.st.readers == {}
    requires L.PinFirst(a.c.hash, m, th.key, |m.entries|) == (m, []) && L.Victim(m) == Some(0) && m.time + 1 < L.SENTINEL
    requires a.script(p.asked).Opens?
    ensures Leads(a, p, q) && a.t < |q.st.threads| && q.st.threads[a.t].pc == Release(1, 0)
    ensures q.st.size == m.size && |q.st.slots| == |m.entries| > 0 && q.st.slots[0].ds.Some?
  {
    hide Leads;
    var p1 := BeginScan(a, p, th, m, {});
    var p2 := ScanRest(a, p1, th, m, 0, {});
    Then(a, p, p1, p2);
    var p3 := EndScan(a, p2, th.(pc := Scan(|m.entries|)), m, {});
    Then(a, p, p2, p3);
    var p4 := Acquire(a, p3, th.(pc := AwaitWrite(1)), m, {});
    Then(a, p, p3, p4);
    q := HalfFilled(a, p4, th.(pc := Insert(1)), m);
    Then(a, p, p4, q);
  }

  lemma HalfFilled(a: Actor, p: Point, th: Thread, m: L.Cache) returns (q: Point)
    requires Stands(a, p, th, m) && th.pc == Insert(1) && UnderWrite(a, p)
    requires L.Victim(m) == Some(0) && m.time + 1 < L.SENTINEL && a.script(p.asked).Opens?
    ensures Leads(a, p, q) && a.t < |q.st.threads| && q.st.threads[a.t].pc == Release(1, 0)
    ensures q.st.size == m.size && |q.st.slots| == |m.entries| > 0 && q.st.slots[0].ds.Some?
  {
    hide Leads, Stands, UnderWrite, L.VictimOf;
    var p1 := BeginHunt(a, p, th, m, 1);
    assert AllPast(m) by { NothingAhead(a, p, th, m); }
    var p2 := HuntRest(a, p1, th, m, 1, 0);
    Then(a, p, p1, p2);
    VictimFree(m, |m.entries|);
    var p3 := EndHunt(a, p2, th.(pc := Hunt(1, |m.entries|, Some(0))), m, 1, Some(0));
    Then(a, p, p2, p3);
    var p4, pair := OpenAndRetag(a, p3, th.(pc := Open(1, 0)), m, 1, 0);
    Then(a, p, p3, p4);
    var m1 := Retagged(a, m, th.key, 0);
    var p5 := CloseOld(a, p4, th.(pc := Close(1, 0, pair)), m1, 1, 0, pair);
    Then(a, p, p4, p5);
    var m2 := m1.(entries := m1.entries[0 := m1.entries[0].(loaded := false)]);
    q := MoveIn(a, p5, th.(pc := Move(1, 0, pair)), m2, 1, 0, pair);
    Then(a, p, p5, q);
    AtRelease(a, q, th.(pc := Release(1, 0)), m2.(entries := m2.entries[0 := m2.entries[0].(loaded := true, key := th.key)]));
  }

  lemma AtRelease(a: Actor, q: Point, th: Thread, m: L.Cache)
    requires Stands(a, q, th, m) && th.pc == Release(1, 0) && |m.entries| > 0 && m.entries[0].loaded
    ensures a.t < |q.st.threads| && q.st.threads[a.t].pc == Release(1, 0)
    ensures q.st.size == m.size && |q.st.slots| == |m.entries| && q.st.slots[0].ds.Some?
  {
    assert Same(q.st.slots[0], m.entries[0]);
  }

  // ----- a careless clear -----

  /** The other thread clears the cache all the same: the assertion fails, and if it were ignored the
      dataset would be taken away from the thread that holds the reference. */
  lemma CarelessClearRun(c: Config) returns (run: seq<State>)
    requires c.capacity > 0 && !c.quietClears
    ensures IsRun(c, run)
    ensures var st := run[|run| - 1];
      && BadAssert in st.faults
      && |st.threads| == 2 && st.threads[0].pending == [0] && |st.slots| == c.capacity && st.slots[0].ds == None
  {
    run := ReferencedRun(c);
    var s0 := run[|run| - 1];
    var s1 := Apply(c, s0, 1, BeginClear);
    OneMore(c, run, 1, BeginClear);
    run := run + [s1];
    var s2 := Apply(c, s1, 1, Go);
    OneMore(c, run, 1, Go);
    run := run + [s2];
    var s3 := Apply(c, s2, 1, Go);
    OneMore(c, run, 1, Go);
    run := run + [s3];
  }

  // ----- a request that matches empty slots -----

  /** The first thread scans a cache all of whose slots are empty and match. */
  ghost predicate BareScan(c: Config, st: State, th: Thread) {
    && st.threads == [th, RESTING] && th == Thread(th.pc, EMPTY_KEY, 1, th.pending, false)
    && st.readers == {0} && st.writer == None && |st.slots| == c.capacity
    && (forall j :: 0 <= j < |th.pending| ==> th.pending[j] < |st.slots|)
    && (forall r :: 0 <= r < |st.slots| ==> Bare(st.slots[r]))
  }

  predicate Bare(slot: Slot) {
    slot.tag == 0 && slot.key == EMPTY_KEY && slot.ds == None && slot.mutex == None
  }

  lemma BarePin(c: Config, p: Point, th: Thread, i: nat) returns (q: Point, th': Thread)
    requires !Proper(c) && BareScan(c, p.st, th) && th.pc == Scan(i) && i < c.capacity
    ensures Leads(Alone(c), p, q) && BareScan(c, q.st, th') && th'.pc == Scan(i + 1) && th'.pending != []
  {
    hide Leads;
    var a := Alone(c);
    var p1 := After(a, p);
    Step(a, p);
    var p2 := After(a, p1);
    Step(a, p1);
    Then(a, p, p1, p2);
    q := After(a, p2);
    Step(a, p2);
    Then(a, p, p2, q);
    th' := q.st.threads[0];
  }

  lemma {:induction false} BareScanRest(c: Config, p: Point, th: Thread, i: nat) returns (q: Point, th': Thread)
    requires !Proper(c) && BareScan(c, p.st, th) && th.pc == Scan(i) && i <= c.capacity && (i > 0 ==> th.pending != [])
    ensures Leads(Alone(c), p, q) && BareScan(c, q.st, th') && th'.pc == Scan(c.capacity) && (c.capacity > 0 ==> th'.pending != [])
    decreases c.capacity - i
  {
    hide Leads, BareScan;
    if i == c.capacity {
      q, th' := p, th;
      Stay(Alone(c), p);
    } else {
      var p1, th1 := BarePin(c, p, th, i);
      q, th' := BareScanRest(c, p1, th1, i + 1);
      Then(Alone(c), p, p1, q);
    }
  }

  /** A thread asks for the empty key, is handed an empty slot, and works on handles that are not there. */
  lemma EmptySlotRun(c: Config) returns (run: seq<State>)
    requires c.capacity > 0 && !Proper(c)
    ensures IsRun(c, run)
    ensures var st := run[|run| - 1];
      && BadUse in st.faults
      && |st.threads| == 2 && st.threads[0].pending != []
      && st.threads[0].pending[0] < |st.slots| && st.slots[st.threads[0].pending[0]].ds == None
  {
    run := FirstRequest(c, EMPTY_KEY);
    var s0 := run[|run| - 1];
    OneMore(c, run, 0, Go);
    run := run + [Apply(c, s0, 0, Go)];
    var p := Point(run[|run| - 1], 0);
    var q, th := BareScanRest(c, p, p.st.threads[0], 0);
    run := Extend(run, Alone(c), p, q);
    UsesNothing(c, q.st, th);
    var s1 := Apply(c, q.st, 0, Go);
    OneMore(c, run, 0, Go);
    run := run + [s1];
    OneMore(c, run, 0, Go);
    run := run + [Apply(c, s1, 0, Go)];
  }

  lemma UsesNothing(c: Config, st: State, th: Thread)
    requires BareScan(c, st, th) && th.pc == Scan(c.capacity) && th.pending != []
    ensures Enabled(c, st, 0, Go) && Enabled(c, Apply(c, st, 0, Go), 0, Go)
    ensures var st' := Apply(c, Apply(c, st, 0, Go), 0, Go);
      && BadUse in st'.faults && |st'.threads| == 2 && st'.threads[0].pending == th.pending
      && |st'.slots| == |st.slots| && st'.slots[th.pending[0]].ds == None
  {
    assert st.threads[0] == th;
  }
}
