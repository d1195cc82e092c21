/** A `get` that no other thread interrupts: the interleaved machine does what the sequential cache does. */
module CacheRefinement {
  import opened Types
  import opened CacheProtocol
  import Inv = CacheInvariants
  import Safety = CacheSafety
  import L = LruModel
  import Order = LruOrder
  import Seq = LruProperties
  import D = LockedDatasets

  /** The thread that runs, and how GDAL will answer: `script` for every open, of which `asked` have
      been asked for so far, and `works` for an operation on the dataset of a slot. */
  datatype Actor = Actor(c: Config, t: nat, script: nat -> D.OpenResult, works: nat -> bool)

  datatype Point = Point(st: State, asked: nat)

  function ChoiceAt(a: Actor, p: Point): Choice
    requires a.t < |p.st.threads|
  {
    var th := p.st.threads[a.t];
    match th.pc
    case Open(_, _) =>
      (match a.script(p.asked)
       case Opens => Opened
       case Fails => OpenFailed
       case WarpFails => WarpFailed)
    case InOp => Finish(th.pending != [] && a.works(th.pending[0]))
    case _ => Go
  }

  predicate Ready(a: Actor, p: Point) {
    a.t < |p.st.threads| && Enabled(a.c, p.st, a.t, ChoiceAt(a, p))
  }

  function After(a: Actor, p: Point): Point
    requires Ready(a, p)
  {
    Point(Apply(a.c, p.st, a.t, ChoiceAt(a, p)), p.asked + if p.st.threads[a.t].pc.Open? then 1 else 0)
  }

  ghost predicate Follows(a: Actor, p: Point, q: Point) {
    Ready(a, p) && q == After(a, p)
  }

  /** Actions of the actor, and of nobody else. */
  ghost predicate IsTrace(a: Actor, trace: seq<Point>) {
    forall k :: 0 <= k < |trace| - 1 ==> Follows(a, trace[k], trace[k + 1])
  }

  ghost predicate Leads(a: Actor, p: Point, q: Point) {
    exists trace: seq<Point> :: trace != [] && trace[0] == p && trace[|trace| - 1] == q && IsTrace(a, trace)
  }

  lemma Stay(a: Actor, p: Point)
    ensures Leads(a, p, p)
  {
    assert IsTrace(a, [p]);
  }

  lemma Step(a: Actor, p: Point)
    requires Ready(a, p)
    ensures Leads(a, p, After(a, p))
  {
    var trace := [p, After(a, p)];
    assert trace[|trace| - 1] == After(a, p) && IsTrace(a, trace);
  }

  lemma Then(a: Actor, p: Point, q: Point, r: Point)
    requires Leads(a, p, q) && Leads(a, q, r)
    ensures Leads(a, p, r)
  {
    var one: seq<Point> :| one != [] && one[0] == p && one[|one| - 1] == q && IsTrace(a, one);
    var two: seq<Point> :| two != [] && two[0] == q && two[|two| - 1] == r && IsTrace(a, two);
    var both := one + two[1..];
    forall k | 0 <= k < |both| - 1 ensures Follows(a, both[k], both[k + 1]) {
      if k < |one| - 1 {
        assert Follows(a, one[k], one[k + 1]);
      } else {
        assert both[k] == two[k - |one| + 1] && both[k + 1] == two[k - |one| + 2];
      }
    }
    assert both[0] == p && both[|both| - 1] == r;
  }

  // ----- the abstraction -----

  predicate Same(slot: Slot, e: L.Entry) {
    && slot.tag == e.tag && slot.key == e.key && slot.ds.Some? == e.loaded
    && slot.atime == e.atime && slot.mutex == e.holder && slot.uses == e.uses
  }

  /** The slots, the clock and the size are those of `m`, and no slot is ahead of the clock. */
  ghost predicate Agrees(st: State, m: L.Cache) {
    && |st.slots| == |m.entries| && st.time == m.time && st.size == m.size
    && forall i :: 0 <= i < |st.slots| ==> Same(st.slots[i], m.entries[i]) && m.entries[i].atime <= m.time
  }

  /** As long as the clock has not run over, every state of every run is the state of a sequential cache,
      and while no writer is at work it is one whose datasets are in order of their last use. */
  lemma EveryStateIsACache(c: Config, run: seq<State>, k: nat) returns (m: L.Cache)
    requires IsRun(c, run) && k < |run| && run[k].time < L.SENTINEL
    ensures Agrees(run[k], m)
    ensures Inv.Proper(c) && run[k].writer == None ==> exists order :: Order.Ordered(c.hash, m, order)
  {
    Safety.InvAlways(c, run, k);
    m := AsCache(run[k]);
    if Inv.Proper(c) && run[k].writer == None {
      ReachableIsWellTimed(c, run, k, m);
      var order := Order.SomeOrder(c.hash, m);
    }
  }

  lemma ReachableIsWellTimed(c: Config, run: seq<State>, k: nat, m: L.Cache)
    requires IsRun(c, run) && k < |run| && Agrees(run[k], m) && Inv.Proper(c) && run[k].writer == None
    ensures Order.WellTimed(c.hash, m)
  {
    Safety.InvAlways(c, run, k);
    var st := run[k];
    forall i | 0 <= i < |m.entries| ensures Order.WellFormed(c.hash, m.entries[i], m.time) {
      assert Inv.FormedOrRewritten(c, st, i) && Same(st.slots[i], m.entries[i]);
    }
    forall i, j | 0 <= i < |m.entries| && 0 <= j < |m.entries| && i != j && m.entries[i].loaded && m.entries[j].loaded
      ensures m.entries[i].atime != m.entries[j].atime
    {
      assert Same(st.slots[i], m.entries[i]) && Same(st.slots[j], m.entries[j]);
      assert Order.WellFormed(c.hash, m.entries[i], m.time);
    }
  }

  lemma AsCache(st: State) returns (m: L.Cache)
    requires Inv.Times(st) && Inv.Counted(st) && st.time < L.SENTINEL
    ensures Agrees(st, m)
  {
    var n := |st.slots|;
    m := L.Cache(seq(n, i requires 0 <= i < n => EntryOf(st.slots[i])), st.time, st.size);
  }

  function EntryOf(slot: Slot): L.Entry
    requires slot.atime < L.SENTINEL && slot.uses >= 0
  {
    L.Entry(slot.tag, slot.atime, slot.key, slot.ds.Some?, slot.mutex, slot.uses)
  }

  ghost predicate Stands(a: Actor, p: Point, th: Thread, m: L.Cache) {
    && a.t < |p.st.threads| && p.st.threads[a.t] == th
    && (forall j :: 0 <= j < |th.pending| ==> th.pending[j] < |p.st.slots|)
    && Agrees(p.st, m)
  }

  ghost predicate UnderRead(a: Actor, p: Point, others: set<nat>) {
    p.st.writer == None && p.st.readers == others + {a.t} && a.t !in others
  }

  ghost predicate UnderWrite(a: Actor, p: Point) {
    p.st.writer == Some(a.t) && p.st.readers == {}
  }

  // ----- the pinning scan -----

  lemma Skip(a: Actor, p: Point, th: Thread, m: L.Cache, i: nat, others: set<nat>) returns (q: Point)
    requires Stands(a, p, th, m) && th.pc == Scan(i) && i < |m.entries| && UnderRead(a, p, others)
    requires !L.Matches(a.c.hash, m.entries[i], th.key)
    ensures Leads(a, p, q) && UnderRead(a, q, others) && q.asked == p.asked
    ensures Stands(a, q, th.(pc := Scan(i + 1)), m)
  {
    q := After(a, p);
    Step(a, p);
  }

  lemma Hit(a: Actor, p: Point, th: Thread, m: L.Cache, i: nat, others: set<nat>) returns (q: Point)
    requires Stands(a, p, th, m) && th.pc == Scan(i) && i < |m.entries| && UnderRead(a, p, others)
    requires L.Matches(a.c.hash, m.entries[i], th.key)
    ensures Leads(a, p, q) && UnderRead(a, q, others) && q.asked == p.asked
    ensures Stands(a, q, th.(pc := Tick(i), pending := th.pending + [i]),
                   m.(entries := m.entries[i := m.entries[i].(uses := m.entries[i].uses + 1)]))
  {
    q := After(a, p);
    Step(a, p);
  }

  lemma DrawTime(a: Actor, p: Point, th: Thread, m: L.Cache, i: nat, others: set<nat>) returns (q: Point)
    requires Stands(a, p, th, m) && th.pc == Tick(i) && i < |m.entries| && UnderRead(a, p, others)
    requires m.time + 1 < L.SENTINEL
    ensures Leads(a, p, q) && UnderRead(a, q, others) && q.asked == p.asked
    ensures Stands(a, q, th.(pc := Stamp(i, m.time + 1)), m.(time := m.time + 1))
  {
    q := After(a, p);
    Step(a, p);
  }

  lemma StoreTime(a: Actor, p: Point, th: Thread, m: L.Cache, i: nat, others: set<nat>) returns (q: Point)
    requires Stands(a, p, th, m) && th.pc == Stamp(i, m.time) && i < |m.entries| && UnderRead(a, p, others)
    ensures Leads(a, p, q) && UnderRead(a, q, others) && q.asked == p.asked
    ensures Stands(a, q, th.(pc := Scan(i + 1)), m.(entries := m.entries[i := m.entries[i].(atime := m.time)]))
  {
    q := After(a, p);
    Step(a, p);
  }

  /** A match is pinned and timed as the sequential cache does it. */
  lemma PinOne(a: Actor, p: Point, th: Thread, m: L.Cache, i: nat, others: set<nat>) returns (q: Point)
    requires Stands(a, p, th, m) && th.pc == Scan(i) && i < |m.entries| && UnderRead(a, p, others)
    requires L.Matches(a.c.hash, m.entries[i], th.key) && m.time + 1 < L.SENTINEL
    ensures Leads(a, p, q) && UnderRead(a, q, others) && q.asked == p.asked
    ensures Stands(a, q, th.(pc := Scan(i + 1), pending := th.pending + [i]), L.Pin(m, i))
  {
    hide Leads, Stands;
    var p1 := Hit(a, p, th, m, i, others);
    var th1 := th.(pc := Tick(i), pending := th.pending + [i]);
    var m1 := m.(entries := m.entries[i := m.entries[i].(uses := m.entries[i].uses + 1)]);
    var p2 := DrawTime(a, p1, th1, m1, i, others);
    Then(a, p, p1, p2);
    var m2 := m1.(time := m.time + 1);
    q := StoreTime(a, p2, th1.(pc := Stamp(i, m.time + 1)), m2, i, others);
    Then(a, p, p2, q);
    assert L.Pin(m, i) == m2.(entries := m2.entries[i := m2.entries[i].(atime := m2.time)]);
  }

  lemma {:induction false} PinFirstGrows(h: string -> Word, m: L.Cache, key: Key, i: nat, n: nat)
    requires i <= n <= |m.entries|
    ensures |L.PinFirst(h, m, key, i).1| <= |L.PinFirst(h, m, key, n).1|
    decreases n
  {
    if i < n {
      PinFirstGrows(h, m, key, i, n - 1);
    }
  }

  /** The rest of the scan, from slot `i` on. */
  lemma {:induction false} ScanRest(a: Actor, p: Point, th: Thread, m: L.Cache, i: nat, others: set<nat>) returns (q: Point)
    requires i <= |m.entries| && m.time + |L.PinFirst(a.c.hash, m, th.key, |m.entries|).1| < L.SENTINEL
    requires var (c, list) := L.PinFirst(a.c.hash, m, th.key, i);
      Stands(a, p, th.(pc := Scan(i), pending := list), c) && c.time == m.time + |list|
    requires UnderRead(a, p, others)
    ensures Leads(a, p, q) && UnderRead(a, q, others) && q.asked == p.asked
    ensures var (c, list) := L.PinFirst(a.c.hash, m, th.key, |m.entries|);
      Stands(a, q, th.(pc := Scan(|m.entries|), pending := list), c) && c.time == m.time + |list|
    decreases |m.entries| - i
  {
    hide Leads, Stands;
    if i == |m.entries| {
      q := p;
      Stay(a, p);
    } else {
      var (c, list) := L.PinFirst(a.c.hash, m, th.key, i);
      var th1 := th.(pc := Scan(i), pending := list);
      PinFirstGrows(a.c.hash, m, th.key, i + 1, |m.entries|);
      var p1;
      if L.Matches(a.c.hash, c.entries[i], th.key) {
        p1 := PinOne(a, p, th1, c, i, others);
      } else {
        p1 := Skip(a, p, th1, c, i, others);
      }
      q := ScanRest(a, p1, th, m, i + 1, others);
      Then(a, p, p1, q);
    }
  }

  // ----- the victim scan -----

  /** The cache with one more slot locked by the actor. */
  function Locked(a: Actor, m: L.Cache, i: nat): L.Cache
    requires i < |m.entries|
  {
    m.(entries := m.entries[i := m.entries[i].(holder := Some(a.t))])
  }

  function Holding(a: Actor, m: L.Cache, best: Option<nat>): L.Cache
    requires best.Some? ==> best.value < |m.entries|
  {
    if best.None? then m else Locked(a, m, best.value)
  }

  lemma PassBy(a: Actor, p: Point, th: Thread, m: L.Cache, need: nat, i: nat, best: Option<nat>) returns (q: Point)
    requires need > 0 && i < |m.entries| && (best.Some? ==> best.value < i)
    requires Stands(a, p, th, Holding(a, m, best)) && th.pc == Hunt(need, i, best) && UnderWrite(a, p)
    requires m.entries[i].holder.Some? || (best.Some? && m.entries[i].atime >= m.entries[best.value].atime)
    ensures Leads(a, p, q) && UnderWrite(a, q) && q.asked == p.asked
    ensures Stands(a, q, th.(pc := Hunt(need, i + 1, best)), Holding(a, m, best))
  {
    hide Leads;
    q := After(a, p);
    Step(a, p);
  }

  lemma LockBetter(a: Actor, p: Point, th: Thread, m: L.Cache, need: nat, i: nat, best: Option<nat>) returns (q: Point)
    requires need > 0 && i < |m.entries| && (best.Some? ==> best.value < i)
    requires Stands(a, p, th, Holding(a, m, best)) && th.pc == Hunt(need, i, best) && UnderWrite(a, p)
    requires m.entries[i].holder.None? && (best.Some? ==> m.entries[i].atime < m.entries[best.value].atime)
    ensures Leads(a, p, q) && UnderWrite(a, q) && q.asked == p.asked
    ensures Stands(a, q, th.(pc := Probe(need, i, best)), Locked(a, Holding(a, m, best), i))
  {
    hide Leads;
    q := After(a, p);
    Step(a, p);
  }

  lemma LeaveUsed(a: Actor, p: Point, th: Thread, m: L.Cache, need: nat, i: nat, best: Option<nat>) returns (q: Point)
    requires need > 0 && i < |m.entries| && (best.Some? ==> best.value < i)
    requires Stands(a, p, th, Locked(a, Holding(a, m, best), i)) && th.pc == Probe(need, i, best) && UnderWrite(a, p)
    requires m.entries[i].holder.None? && m.entries[i].uses != 0
    ensures Leads(a, p, q) && UnderWrite(a, q) && q.asked == p.asked
    ensures Stands(a, q, th.(pc := Hunt(need, i + 1, best)), Holding(a, m, best))
  {
    hide Leads;
    var p1 := After(a, p);
    Step(a, p);
    q := After(a, p1);
    Step(a, p1);
    Then(a, p, p1, q);
  }

  lemma TakeFirst(a: Actor, p: Point, th: Thread, m: L.Cache, need: nat, i: nat) returns (q: Point)
    requires need > 0 && i < |m.entries|
    requires Stands(a, p, th, Locked(a, m, i)) && th.pc == Probe(need, i, None) && UnderWrite(a, p)
    requires m.entries[i].uses == 0
    ensures Leads(a, p, q) && UnderWrite(a, q) && q.asked == p.asked
    ensures Stands(a, q, th.(pc := Hunt(need, i + 1, Some(i))), Locked(a, m, i))
  {
    hide Leads;
    q := After(a, p);
    Step(a, p);
  }

  lemma TakeInstead(a: Actor, p: Point, th: Thread, m: L.Cache, need: nat, i: nat, prev: nat) returns (q: Point)
    requires need > 0 && prev < i < |m.entries|
    requires Stands(a, p, th, Locked(a, Locked(a, m, prev), i)) && th.pc == Probe(need, i, Some(prev)) && UnderWrite(a, p)
    requires m.entries[i].uses == 0 && m.entries[prev].holder.None?
    ensures Leads(a, p, q) && UnderWrite(a, q) && q.asked == p.asked
    ensures Stands(a, q, th.(pc := Hunt(need, i + 1, Some(i))), Locked(a, m, i))
  {
    hide Leads;
    var p1 := After(a, p);
    Step(a, p);
    q := After(a, p1);
    Step(a, p1);
    Then(a, p, p1, q);
  }

  /** One slot more of the victim scan: the slot held is the victim among those seen. */
  lemma HuntOne(a: Actor, p: Point, th: Thread, m: L.Cache, need: nat, i: nat) returns (q: Point)
    requires need > 0 && i < |m.entries| && m.time < L.SENTINEL && AllPast(m)
    requires var best := L.VictimOf(m.entries, i);
      Stands(a, p, th.(pc := Hunt(need, i, best)), Holding(a, m, best)) && UnderWrite(a, p)
    ensures Leads(a, p, q) && UnderWrite(a, q) && q.asked == p.asked
    ensures var best := L.VictimOf(m.entries, i + 1);
      Stands(a, q, th.(pc := Hunt(need, i + 1, best)), Holding(a, m, best))
  {
    hide Leads;
    var best := L.VictimOf(m.entries, i);
    VictimFree(m, i);
    var th0 := th.(pc := Hunt(need, i, best));
    if m.entries[i].holder.Some? || (best.Some? && m.entries[i].atime >= m.entries[best.value].atime) {
      q := PassBy(a, p, th0, m, need, i, best);
    } else {
      var p1 := LockBetter(a, p, th0, m, need, i, best);
      var th1 := th0.(pc := Probe(need, i, best));
      if m.entries[i].uses != 0 {
        q := LeaveUsed(a, p1, th1, m, need, i, best);
      } else if best.None? {
        q := TakeFirst(a, p1, th1, m, need, i);
      } else {
        q := TakeInstead(a, p1, th1, m, need, i, best.value);
      }
      Then(a, p, p1, q);
    }
  }

  ghost predicate AllPast(m: L.Cache) {
    forall i :: 0 <= i < |m.entries| ==> m.entries[i].atime <= m.time
  }

  lemma NothingAhead(a: Actor, p: Point, th: Thread, m: L.Cache)
    requires Stands(a, p, th, m)
    ensures AllPast(m)
  {
  }

  lemma VictimFree(m: L.Cache, n: nat)
    requires n <= |m.entries|
    ensures var best := L.VictimOf(m.entries, n); best.Some? ==> best.value < n && L.Evictable(m.entries[best.value])
  {
    Seq.VictimIsLeast(m.entries, n);
  }

  lemma {:induction false} HuntRest(a: Actor, p: Point, th: Thread, m: L.Cache, need: nat, i: nat) returns (q: Point)
    requires need > 0 && i <= |m.entries| && m.time < L.SENTINEL && AllPast(m)
    requires var best := L.VictimOf(m.entries, i);
      Stands(a, p, th.(pc := Hunt(need, i, best)), Holding(a, m, best)) && UnderWrite(a, p)
    ensures Leads(a, p, q) && UnderWrite(a, q) && q.asked == p.asked
    ensures var best := L.Victim(m);
      Stands(a, q, th.(pc := Hunt(need, |m.entries|, best)), Holding(a, m, best))
    decreases |m.entries| - i
  {
    hide Leads, Stands;
    if i == |m.entries| {
      q := p;
      Stay(a, p);
    } else {
      var p1 := HuntOne(a, p, th, m, need, i);
      q := HuntRest(a, p1, th, m, need, i + 1);
      Then(a, p, p1, q);
    }
  }

  // ----- filling the victim -----

  function Retagged(a: Actor, m: L.Cache, key: Key, v: nat): L.Cache
    requires v < |m.entries| && m.time + 1 < L.SENTINEL
  {
    L.Cache(m.entries[v := m.entries[v].(tag := Tag(a.c.hash, key), atime := m.time + 1, holder := Some(a.t))], m.time + 1, m.size)
  }

  lemma OpenAndRetag(a: Actor, p: Point, th: Thread, m: L.Cache, need: nat, v: nat) returns (q: Point, pair: Pair)
    requires need > 0 && v < |m.entries| && m.time + 1 < L.SENTINEL && a.script(p.asked).Opens?
    requires Stands(a, p, th, Locked(a, m, v)) && th.pc == Open(need, v) && UnderWrite(a, p)
    ensures Leads(a, p, q) && UnderWrite(a, q) && q.asked == p.asked + 1
    ensures Stands(a, q, th.(pc := Close(need, v, pair)), Retagged(a, m, th.key, v))
  {
    hide Leads;
    var p1 := After(a, p);
    Step(a, p);
    pair := p1.st.threads[a.t].pc.pair;
    q := After(a, p1);
    Step(a, p1);
    Then(a, p, p1, q);
  }

  lemma CloseOld(a: Actor, p: Point, th: Thread, m: L.Cache, need: nat, v: nat, pair: Pair) returns (q: Point)
    requires need > 0 && v < |m.entries|
    requires Stands(a, p, th, m) && th.pc == Close(need, v, pair) && UnderWrite(a, p)
    ensures Leads(a, p, q) && UnderWrite(a, q) && q.asked == p.asked
    ensures Stands(a, q, th.(pc := Move(need, v, pair)), m.(entries := m.entries[v := m.entries[v].(loaded := false)]))
  {
    hide Leads;
    q := After(a, p);
    Step(a, p);
  }

  lemma MoveIn(a: Actor, p: Point, th: Thread, m: L.Cache, need: nat, v: nat, pair: Pair) returns (q: Point)
    requires need > 0 && v < |m.entries|
    requires Stands(a, p, th, m) && th.pc == Move(need, v, pair) && UnderWrite(a, p)
    ensures Leads(a, p, q) && UnderWrite(a, q) && q.asked == p.asked
    ensures Stands(a, q, th.(pc := Release(need, v)), m.(entries := m.entries[v := m.entries[v].(loaded := true, key := th.key)]))
  {
    hide Leads;
    q := After(a, p);
    Step(a, p);
  }

  lemma ReleaseAndPin(a: Actor, p: Point, th: Thread, m: L.Cache, need: nat, v: nat) returns (q: Point)
    requires need > 0 && v < |m.entries| && m.entries[v].holder == Some(a.t)
    requires Stands(a, p, th, m) && th.pc == Release(need, v) && UnderWrite(a, p)
    ensures Leads(a, p, q) && UnderWrite(a, q) && q.asked == p.asked
    ensures Stands(a, q, th.(pc := Insert(need - 1), pending := th.pending + [v]),
                   L.Cache(m.entries[v := m.entries[v].(holder := None, uses := m.entries[v].uses + 1)], m.time, m.size + 1))
  {
    hide Leads;
    var p1 := After(a, p);
    Step(a, p);
    q := After(a, p1);
    Step(a, p1);
    Then(a, p, p1, q);
  }

  lemma Fill(a: Actor, p: Point, th: Thread, m: L.Cache, need: nat, v: nat) returns (q: Point)
    requires need > 0 && L.Victim(m) == Some(v) && m.time + 1 < L.SENTINEL && a.script(p.asked).Opens?
    requires Stands(a, p, th, Locked(a, m, v)) && th.pc == Open(need, v) && UnderWrite(a, p)
    ensures Leads(a, p, q) && UnderWrite(a, q) && q.asked == p.asked + 1
    ensures Stands(a, q, th.(pc := Insert(need - 1), pending := th.pending + [v]),
                   L.InsertOne(a.c.hash, m, a.t, th.key, true).0)
  {
    hide Leads, Stands, UnderWrite, L.VictimOf;
    VictimFree(m, |m.entries|);
    var p1, pair := OpenAndRetag(a, p, th, m, need, v);
    var m1 := Retagged(a, m, th.key, v);
    var p2 := CloseOld(a, p1, th.(pc := Close(need, v, pair)), m1, need, v, pair);
    Then(a, p, p1, p2);
    var m2 := m1.(entries := m1.entries[v := m1.entries[v].(loaded := false)]);
    var p3 := MoveIn(a, p2, th.(pc := Move(need, v, pair)), m2, need, v, pair);
    Then(a, p, p2, p3);
    var m3 := m2.(entries := m2.entries[v := m2.entries[v].(loaded := true, key := th.key)]);
    q := ReleaseAndPin(a, p3, th.(pc := Release(need, v)), m3, need, v);
    Then(a, p, p3, q);
    var e := L.Entry(Tag(a.c.hash, th.key), m.time + 1, th.key, true, None, 1);
    assert m3.entries[v].(holder := None, uses := m3.entries[v].uses + 1) == e;
    assert m3.entries[v := e] == m.entries[v := e];
  }

  lemma FailToOpen(a: Actor, p: Point, th: Thread, m: L.Cache, need: nat, v: nat) returns (q: Point)
    requires need > 0 && v < |m.entries| && !a.script(p.asked).Opens?
    requires Stands(a, p, th, Locked(a, m, v)) && th.pc == Open(need, v) && UnderWrite(a, p)
    ensures Leads(a, p, q) && UnderWrite(a, q) && q.asked == p.asked + 1
    ensures Stands(a, q, th.(pc := Insert(need - 1)), Locked(a, m, v))
  {
    hide Leads;
    q := After(a, p);
    Step(a, p);
  }

  // ----- the inserting loop -----

  lemma BeginHunt(a: Actor, p: Point, th: Thread, m: L.Cache, need: nat) returns (q: Point)
    requires need > 0 && Stands(a, p, th, m) && th.pc == Insert(need) && UnderWrite(a, p)
    ensures Leads(a, p, q) && UnderWrite(a, q) && q.asked == p.asked
    ensures Stands(a, q, th.(pc := Hunt(need, 0, None)), m)
  {
    hide Leads;
    q := After(a, p);
    Step(a, p);
  }

  lemma EndHunt(a: Actor, p: Point, th: Thread, m: L.Cache, need: nat, best: Option<nat>) returns (q: Point)
    requires need > 0 && (best.Some? ==> best.value < |m.entries|)
    requires Stands(a, p, th, Holding(a, m, best)) && th.pc == Hunt(need, |m.entries|, best) && UnderWrite(a, p)
    ensures Leads(a, p, q) && UnderWrite(a, q) && q.asked == p.asked
    ensures Stands(a, q, th.(pc := if best.None? then Insert(need - 1) else Open(need, best.value)), Holding(a, m, best))
  {
    hide Leads;
    q := After(a, p);
    Step(a, p);
  }

  lemma InsertStep(a: Actor, p: Point, th: Thread, m: L.Cache, need: nat) returns (q: Point)
    requires need > 0 && Stands(a, p, th, m) && th.pc == Insert(need) && UnderWrite(a, p)
    requires m.time + |L.InsertOne(a.c.hash, m, a.t, th.key, a.script(p.asked).Opens?).1| < L.SENTINEL
    ensures Leads(a, p, q) && UnderWrite(a, q) && q.asked == p.asked + L.Calls(m)
    ensures var (c, first) := L.InsertOne(a.c.hash, m, a.t, th.key, a.script(p.asked).Opens?);
      Stands(a, q, th.(pc := Insert(need - 1), pending := th.pending + first), c) && c.time == m.time + |first|
  {
    hide Leads, Stands;
    var p1 := BeginHunt(a, p, th, m, need);
    assert AllPast(m) by { NothingAhead(a, p, th, m); }
    var p2 := HuntRest(a, p1, th, m, need, 0);
    Then(a, p, p1, p2);
    var best := L.Victim(m);
    VictimFree(m, |m.entries|);
    var p3 := EndHunt(a, p2, th.(pc := Hunt(need, |m.entries|, best)), m, need, best);
    Then(a, p, p2, p3);
    assert th.pending + [] == th.pending;
    if best.None? {
      q := p3;
    } else {
      var th3 := th.(pc := Open(need, best.value));
      if a.script(p.asked).Opens? {
        q := Fill(a, p3, th3, m, need, best.value);
      } else {
        q := FailToOpen(a, p3, th3, m, need, best.value);
      }
      Then(a, p, p3, q);
    }
  }

  function Opening(a: Actor): nat -> bool {
    (n: nat) => a.script(n).Opens?
  }

  lemma EndInsert(a: Actor, p: Point, th: Thread, m: L.Cache) returns (q: Point)
    requires Stands(a, p, th, m) && th.pc == Insert(0) && UnderWrite(a, p)
    ensures Leads(a, p, q) && q.st.writer == None && q.st.readers == {} && q.asked == p.asked
    ensures Stands(a, q, th.(pc := Use), m)
  {
    hide Leads;
    q := After(a, p);
    Step(a, p);
  }

  /** All inserts, and the release of the write lock. */
  lemma {:induction false} InsertRest(a: Actor, p: Point, th: Thread, m: L.Cache, need: nat) returns (q: Point)
    requires Stands(a, p, th, m) && th.pc == Insert(need) && UnderWrite(a, p)
    requires m.time + |L.InsertMany(a.c.hash, m, a.t, th.key, need, Opening(a), p.asked).1| < L.SENTINEL
    ensures Leads(a, p, q) && q.st.writer == None && q.st.readers == {}
    ensures var (c, made) := L.InsertMany(a.c.hash, m, a.t, th.key, need, Opening(a), p.asked);
      Stands(a, q, th.(pc := Use, pending := th.pending + made), c)
    decreases need
  {
    hide Leads, Stands, UnderWrite, L.InsertOne;
    if need == 0 {
      q := EndInsert(a, p, th, m);
      assert th.pending + [] == th.pending;
    } else {
      var p1 := InsertStep(a, p, th, m, need);
      var (c, first) := L.InsertOne(a.c.hash, m, a.t, th.key, a.script(p.asked).Opens?);
      q := InsertRest(a, p1, th.(pc := Insert(need - 1), pending := th.pending + first), c, need - 1);
      Then(a, p, p1, q);
      var made := L.InsertMany(a.c.hash, c, a.t, th.key, need - 1, Opening(a), p1.asked).1;
      assert (th.pending + first) + made == th.pending + (first + made);
    }
  }

  // ----- get -----

  lemma BeginScan(a: Actor, p: Point, th: Thread, m: L.Cache, others: set<nat>) returns (q: Point)
    requires Stands(a, p, th, m) && th.pc == AwaitRead && p.st.writer == None && p.st.readers == others && a.t !in others
    ensures Leads(a, p, q) && UnderRead(a, q, others) && q.asked == p.asked
    ensures Stands(a, q, th.(pc := Scan(0)), m)
  {
    hide Leads;
    q := After(a, p);
    Step(a, p);
  }

  lemma EndScan(a: Actor, p: Point, th: Thread, m: L.Cache, others: set<nat>) returns (q: Point)
    requires Stands(a, p, th, m) && th.pc == Scan(|m.entries|) && UnderRead(a, p, others)
    ensures Leads(a, p, q) && q.st.writer == None && q.st.readers == others && q.asked == p.asked
    ensures Stands(a, q, th.(pc := AfterScan(th.copies, |th.pending|)), m)
  {
    hide Leads;
    q := After(a, p);
    Step(a, p);
    assert others + {a.t} - {a.t} == others;
  }

  /** The blocking and the non-blocking way to the write lock. */
  lemma Acquire(a: Actor, p: Point, th: Thread, m: L.Cache, others: set<nat>) returns (q: Point)
    requires Stands(a, p, th, m) && p.st.writer == None && p.st.readers == others
    requires th.pc.TryWrite? || (th.pc.AwaitWrite? && others == {})
    ensures Leads(a, p, q) && q.asked == p.asked
    ensures if others == {} then UnderWrite(a, q) && Stands(a, q, th.(pc := Insert(th.pc.need)), m)
            else q.st.writer == None && q.st.readers == others && Stands(a, q, th.(pc := Use), m)
  {
    hide Leads;
    q := After(a, p);
    Step(a, p);
  }

  /** From the release of the read lock to the end of `get`. */
  lemma TopUp(a: Actor, p: Point, th: Thread, m: L.Cache, others: set<nat>) returns (q: Point)
    requires Stands(a, p, th, m) && th.pc == AfterScan(th.copies, |th.pending|)
    requires p.st.writer == None && p.st.readers == others && (th.pc.AwaitWrite? ==> others == {})
    requires m.time + |L.InsertMany(a.c.hash, m, a.t, th.key, L.Need(th.copies, |th.pending|, others == {}), Opening(a), p.asked).1| < L.SENTINEL
    ensures Leads(a, p, q) && q.st.writer == None && q.st.readers == others
    ensures var (c, made) := L.InsertMany(a.c.hash, m, a.t, th.key, L.Need(th.copies, |th.pending|, others == {}), Opening(a), p.asked);
      Stands(a, q, th.(pc := Use, pending := th.pending + made), c)
  {
    hide Leads, Stands;
    assert th.pending + [] == th.pending;
    if th.pc.Use? {
      q := p;
      Stay(a, p);
    } else {
      var p1 := Acquire(a, p, th, m, others);
      if others != {} {
        q := p1;
      } else {
        q := InsertRest(a, p1, th.(pc := Insert(th.pc.need)), m, th.pc.need);
        Then(a, p, p1, q);
      }
    }
  }

  /** A `get` that nobody interrupts ends, and leaves the slots, the clock, the size and the list that
      the sequential `get` leaves, whatever references and mutexes other threads hold meanwhile. */
  lemma UninterruptedGet(a: Actor, p: Point, th: Thread, m: L.Cache, others: set<nat>) returns (q: Point)
    requires Stands(a, p, th, m) && th.pc == AwaitRead && th.pending == []
    requires p.st.writer == None && p.st.readers == others && a.t !in others
    requires AfterScan(th.copies, |L.PinFirst(a.c.hash, m, th.key, |m.entries|).1|).AwaitWrite? ==> others == {}
    requires m.time + |L.Get(a.c.hash, m, a.t, th.key, th.copies, others == {}, Opening(a), p.asked).1| < L.SENTINEL
    ensures Leads(a, p, q) && q.st.writer == None && q.st.readers == others
    ensures var (c, list) := L.Get(a.c.hash, m, a.t, th.key, th.copies, others == {}, Opening(a), p.asked);
      Stands(a, q, th.(pc := Use, pending := list), c)
  {
    hide Leads, Stands;
    var p1 := BeginScan(a, p, th, m, others);
    var p2 := ScanRest(a, p1, th, m, 0, others);
    Then(a, p, p1, p2);
    var (c1, found) := L.PinFirst(a.c.hash, m, th.key, |m.entries|);
    var th2 := th.(pc := Scan(|m.entries|), pending := found);
    var p3 := EndScan(a, p2, th2, c1, others);
    Then(a, p, p2, p3);
    q := TopUp(a, p3, th2.(pc := AfterScan(th.copies, |found|)), c1, others);
    Then(a, p, p3, q);
  }

  /** In any state that any threads can reach: a `get` that nobody interrupts moves the datasets it returns
      to the back of the list of datasets in order of their last use, in the order returned. */
  lemma ReachableGetIsLru(a: Actor, run: seq<State>, k: nat, asked: nat, m: L.Cache, order: seq<nat>) returns (q: Point)
    requires IsRun(a.c, run) && k < |run| && a.t < |run[k].threads| && run[k].threads[a.t].pc == AwaitRead
    requires Inv.Proper(a.c) && run[k].writer == None && Agrees(run[k], m) && Order.IsOrder(m, order)
    requires var th := run[k].threads[a.t];
      AfterScan(th.copies, |L.PinFirst(a.c.hash, m, th.key, |m.entries|).1|).AwaitWrite? ==> run[k].readers == {}
    requires var th := run[k].threads[a.t];
      m.time + |L.Get(a.c.hash, m, a.t, th.key, th.copies, run[k].readers == {}, Opening(a), asked).1| < L.SENTINEL
    ensures Leads(a, Point(run[k], asked), q)
    ensures var th := run[k].threads[a.t];
      var (c, list) := L.Get(a.c.hash, m, a.t, th.key, th.copies, run[k].readers == {}, Opening(a), asked);
      Stands(a, q, th.(pc := Use, pending := list), c) && Order.Ordered(a.c.hash, c, Order.MoveToBack(order, list))
  {
    hide Leads, L.Get, L.PinFirst, Order.Ordered, Order.MoveToBack, Order.WellTimed;
    var th := run[k].threads[a.t];
    ReachableRequest(a.c, run, k, a.t);
    ReachableIsWellTimed(a.c, run, k, m);
    q := UninterruptedGet(a, Point(run[k], asked), th, m, run[k].readers);
    assert Order.Ordered(a.c.hash, m, order) by { OrderedIs(a.c.hash, m, order); }
    Order.MatchesAreLoadedIff(a.c.hash, m, th.key);
    Order.GetMovesToBack(a.c.hash, m, a.t, th.key, th.copies, run[k].readers == {}, Opening(a), asked, order);
  }

  lemma OrderedIs(h: string -> Word, m: L.Cache, order: seq<nat>)
    requires Order.WellTimed(h, m) && Order.IsOrder(m, order)
    ensures Order.Ordered(h, m, order)
  {
  }

  lemma ReachableRequest(c: Config, run: seq<State>, k: nat, t: nat)
    requires IsRun(c, run) && k < |run| && t < |run[k].threads| && run[k].threads[t].pc == AwaitRead
    ensures run[k].threads[t].pending == [] && !run[k].threads[t].done && t !in run[k].readers
    ensures Inv.Proper(c) ==> Order.Proper(c.hash, run[k].threads[t].key)
  {
    Safety.InvAlways(c, run, k);
    assert Inv.Shaped(c, run[k].threads[t], |run[k].slots|);
  }

  // ----- TRY -----

  /** How the operation ends on a slot: it finds the slot locked, or works, or fails. */
  function Outcome(a: Actor, m: L.Cache, s: nat): D.Result
    requires s < |m.entries|
  {
    if m.entries[s].holder.Some? then D.Busy else if a.works(s) then D.Done else D.Failed(0)
  }

  /** The caller holds one reference to each slot of the list. */
  ghost predicate Pinned(m: L.Cache, list: seq<nat>) {
    Distinct(list) && forall j :: 0 <= j < |list| ==> list[j] < |m.entries| && m.entries[list[j]].uses > 0
  }

  ghost predicate SomeDone(a: Actor, m: L.Cache, list: seq<nat>)
    requires Pinned(m, list)
  {
    exists j :: 0 <= j < |list| && Outcome(a, m, list[j]).Done?
  }

  function GiveBack(m: L.Cache, s: nat): L.Cache
    requires s < |m.entries| && m.entries[s].uses > 0
  {
    m.(entries := m.entries[s := m.entries[s].(uses := m.entries[s].uses - 1)])
  }

  /** One reference to each slot of the list has been given back. */
  ghost function GivenBack(m: L.Cache, list: seq<nat>): L.Cache
    requires Pinned(m, list)
  {
    m.(entries := seq(|m.entries|, i requires 0 <= i < |m.entries| =>
      if i in list && m.entries[i].uses > 0 then m.entries[i].(uses := m.entries[i].uses - 1) else m.entries[i]))
  }

  /** The operation on the first dataset of the list, unless one has succeeded before. */
  lemma TryFirst(a: Actor, p: Point, th: Thread, m: L.Cache) returns (q: Point)
    requires Stands(a, p, th, m) && th.pc == Use && th.pending != []
    ensures Leads(a, p, q) && q.st.writer == p.st.writer && q.st.readers == p.st.readers && q.asked == p.asked
    ensures Stands(a, q, th.(pc := Dec, done := th.done || Outcome(a, m, th.pending[0]).Done?), m)
  {
    hide Leads;
    q := After(a, p);
    Step(a, p);
    if q.st.threads[a.t].pc.InOp? {
      var p1 := q;
      q := After(a, p1);
      Step(a, p1);
      Then(a, p, p1, q);
    }
  }

  lemma DropFirst(a: Actor, p: Point, th: Thread, m: L.Cache) returns (q: Point)
    requires Stands(a, p, th, m) && th.pc == Dec && th.pending != [] && Pinned(m, th.pending)
    ensures Leads(a, p, q) && q.st.writer == p.st.writer && q.st.readers == p.st.readers && q.asked == p.asked
    ensures Stands(a, q, th.(pc := Use, pending := th.pending[1..]), GiveBack(m, th.pending[0]))
  {
    hide Leads;
    q := After(a, p);
    Step(a, p);
  }

  lemma GiveBackFirst(a: Actor, m: L.Cache, list: seq<nat>)
    requires list != [] && Pinned(m, list)
    ensures var rest := GiveBack(m, list[0]);
      && Pinned(rest, list[1..])
      && GivenBack(rest, list[1..]) == GivenBack(m, list)
      && (SomeDone(a, m, list) <==> Outcome(a, m, list[0]).Done? || SomeDone(a, rest, list[1..]))
  {
    var s := list[0];
    var rest := GiveBack(m, s);
    assert forall i :: i in list <==> i == s || i in list[1..];
    assert s !in list[1..];
    assert GivenBack(rest, list[1..]).entries == GivenBack(m, list).entries;
    assert forall j :: 1 <= j < |list| ==> Outcome(a, rest, list[1..][j - 1]) == Outcome(a, m, list[j]);
    if SomeDone(a, rest, list[1..]) {
      var j :| 0 <= j < |list[1..]| && Outcome(a, rest, list[1..][j]).Done?;
      assert Outcome(a, m, list[j + 1]).Done?;
    }
  }

  lemma GiveBackNone(m: L.Cache)
    ensures Pinned(m, []) && GivenBack(m, []) == m
  {
    assert GivenBack(m, []).entries == m.entries;
  }

  /** A TRY that nobody interrupts gives back one reference to every dataset of its list, changes
      nothing else, and succeeds exactly if the operation would succeed on one that is not locked. */
  lemma {:induction false} UninterruptedTry(a: Actor, p: Point, th: Thread, m: L.Cache) returns (q: Point, done: bool)
    requires Stands(a, p, th, m) && th.pc == Use && Pinned(m, th.pending)
    ensures Leads(a, p, q) && q.st.writer == p.st.writer && q.st.readers == p.st.readers && q.asked == p.asked
    ensures Stands(a, q, th.(pending := [], done := done), GivenBack(m, th.pending))
    ensures done <==> th.done || SomeDone(a, m, th.pending)
    decreases |th.pending|
  {
    hide Leads, Stands, GivenBack, GiveBack;
    if th.pending == [] {
      q, done := p, th.done;
      Stay(a, p);
      GiveBackNone(m);
    } else {
      var s := th.pending[0];
      var p1 := TryFirst(a, p, th, m);
      var th1 := th.(pc := Dec, done := th.done || Outcome(a, m, s).Done?);
      var p2 := DropFirst(a, p1, th1, m);
      Then(a, p, p1, p2);
      GiveBackFirst(a, m, th.pending);
      q, done := UninterruptedTry(a, p2, th1.(pc := Use, pending := th.pending[1..]), GiveBack(m, s));
      Then(a, p, p2, q);
    }
  }

  lemma PinsBalance(m: L.Cache, c: L.Cache, list: seq<nat>)
    requires |c.entries| == |m.entries| && Distinct(list) && forall i :: i in list ==> i < |m.entries|
    requires forall i :: 0 <= i < |m.entries| ==> c.entries[i].uses == m.entries[i].uses + (if i in list then 1 else 0)
    ensures Pinned(c, list) && SameUses(m, GivenBack(c, list))
  {
    forall j | 0 <= j < |list| ensures list[j] < |c.entries| && c.entries[list[j]].uses > 0 {
      assert list[j] in list;
    }
  }

  ghost predicate SameUses(m: L.Cache, c: L.Cache) {
    |c.entries| == |m.entries| && forall i :: 0 <= i < |m.entries| ==> c.entries[i].uses == m.entries[i].uses
  }

  /** A whole round of DOIT that nobody interrupts restores every use count, and succeeds exactly if
      the operation would succeed on one of the datasets that `get` returns. */
  lemma UninterruptedRound(a: Actor, p: Point, th: Thread, m: L.Cache, others: set<nat>) returns (q: Point, done: bool)
    requires Stands(a, p, th, m) && th.pc == AwaitRead && th.pending == [] && !th.done
    requires p.st.writer == None && p.st.readers == others && a.t !in others
    requires AfterScan(th.copies, |L.PinFirst(a.c.hash, m, th.key, |m.entries|).1|).AwaitWrite? ==> others == {}
    requires m.time + |L.Get(a.c.hash, m, a.t, th.key, th.copies, others == {}, Opening(a), p.asked).1| < L.SENTINEL
    ensures Leads(a, p, q) && q.st.writer == None && q.st.readers == others
    ensures var (c, list) := L.Get(a.c.hash, m, a.t, th.key, th.copies, others == {}, Opening(a), p.asked);
      && Pinned(c, list)
      && Stands(a, q, th.(pc := Use, done := done), GivenBack(c, list))
      && (done <==> SomeDone(a, c, list))
      && SameUses(m, GivenBack(c, list))
  {
    hide Leads, Stands, L.Get, L.PinFirst, L.Need, Pinned, GivenBack, SameUses;
    var (c, list) := L.Get(a.c.hash, m, a.t, th.key, th.copies, others == {}, Opening(a), p.asked);
    Seq.GetPinsOnce(a.c.hash, m, a.t, th.key, th.copies, others == {}, Opening(a), p.asked);
    PinsBalance(m, c, list);
    var p1 := UninterruptedGet(a, p, th, m, others);
    q, done := UninterruptedTry(a, p1, th.(pc := Use, pending := list), c);
    Then(a, p, p1, q);
  }

  // ----- clear -----

  /** The first `n` slots have been cleared. */
  ghost function ClearedUpTo(a: Actor, m: L.Cache, n: nat): L.Cache {
    L.Cache(seq(|m.entries|, i requires 0 <= i < |m.entries| => if i < n then L.ClearedEntry(m.entries[i], a.t) else m.entries[i]),
            m.time, if n > 0 then 0 else m.size)
  }

  lemma ClearedOneMore(a: Actor, m: L.Cache, i: nat)
    requires i < |m.entries|
    ensures var c := ClearedUpTo(a, m, i);
      && |c.entries| == |m.entries| && c.entries[i] == m.entries[i]
      && ClearedUpTo(a, m, i + 1) == L.Cache(c.entries[i := L.ClearedEntry(c.entries[i], a.t)], c.time, 0)
  {
    var c := ClearedUpTo(a, m, i);
    assert ClearedUpTo(a, m, i + 1).entries == c.entries[i := L.ClearedEntry(c.entries[i], a.t)];
  }

  lemma ClearOne(a: Actor, p: Point, th: Thread, c: L.Cache, i: nat) returns (q: Point)
    requires i < |c.entries| && Stands(a, p, th, c) && th.pc == Clear(i) && UnderWrite(a, p)
    ensures Leads(a, p, q) && UnderWrite(a, q)
    ensures Stands(a, q, th.(pc := Clear(i + 1)), L.Cache(c.entries[i := L.ClearedEntry(c.entries[i], a.t)], c.time, 0))
    ensures BadAssert in q.st.faults <==> BadAssert in p.st.faults || c.entries[i].uses != 0
  {
    hide Leads;
    q := After(a, p);
    Step(a, p);
  }

  ghost predicate ReferencedFrom(m: L.Cache, i: nat) {
    exists j :: i <= j < |m.entries| && m.entries[j].uses != 0
  }

  lemma {:induction false} ClearRest(a: Actor, p: Point, th: Thread, m: L.Cache, i: nat) returns (q: Point)
    requires i <= |m.entries| && Stands(a, p, th.(pc := Clear(i)), ClearedUpTo(a, m, i)) && UnderWrite(a, p)
    ensures Leads(a, p, q) && UnderWrite(a, q)
    ensures Stands(a, q, th.(pc := Clear(|m.entries|)), ClearedUpTo(a, m, |m.entries|))
    ensures BadAssert in q.st.faults <==> BadAssert in p.st.faults || ReferencedFrom(m, i)
    decreases |m.entries| - i
  {
    hide Leads, Stands, ClearedUpTo;
    if i == |m.entries| {
      q := p;
      Stay(a, p);
    } else {
      ClearedOneMore(a, m, i);
      var p1 := ClearOne(a, p, th.(pc := Clear(i)), ClearedUpTo(a, m, i), i);
      q := ClearRest(a, p1, th, m, i + 1);
      Then(a, p, p1, q);
      assert ReferencedFrom(m, i) <==> m.entries[i].uses != 0 || ReferencedFrom(m, i + 1);
    }
  }

  lemma BeginClear(a: Actor, p: Point, th: Thread, m: L.Cache) returns (q: Point)
    requires Stands(a, p, th, m) && th.pc == AwaitClear && !Blocked(a.c, p.st, a.t)
    ensures Leads(a, p, q) && UnderWrite(a, q) && Stands(a, q, th.(pc := Clear(0)), ClearedUpTo(a, m, 0))
    ensures q.st.faults == p.st.faults
  {
    hide Leads;
    q := After(a, p);
    Step(a, p);
  }

  lemma EndClear(a: Actor, p: Point, th: Thread, m: L.Cache) returns (q: Point)
    requires Stands(a, p, th, m) && th.pc == Clear(|m.entries|) && UnderWrite(a, p)
    ensures Leads(a, p, q) && Stands(a, q, RESTING, m) && q.st.writer == None && q.st.readers == {} && q.st.faults == p.st.faults
  {
    hide Leads;
    q := After(a, p);
    Step(a, p);
  }

  /** A `clear` that nobody interrupts: every slot is emptied, and keeps its mutex only if another thread
      holds it; an assertion fails on the way if and only if some slot is referenced. */
  lemma UninterruptedClear(a: Actor, p: Point, th: Thread, m: L.Cache) returns (q: Point)
    requires Stands(a, p, th, m) && th.pc == AwaitClear && !Blocked(a.c, p.st, a.t)
    ensures Leads(a, p, q) && Stands(a, q, RESTING, ClearedUpTo(a, m, |m.entries|)) && q.st.writer == None && q.st.readers == {}
    ensures BadAssert in q.st.faults <==> BadAssert in p.st.faults || ReferencedFrom(m, 0)
  {
    hide Leads, Stands, ClearedUpTo, ReferencedFrom, Blocked;
    var p1 := BeginClear(a, p, th, m);
    var p2 := ClearRest(a, p1, th, m, 0);
    Then(a, p, p1, p2);
    assert |ClearedUpTo(a, m, |m.entries|).entries| == |m.entries| by { SameLength(a, m, |m.entries|); }
    q := EndClear(a, p2, th.(pc := Clear(|m.entries|)), ClearedUpTo(a, m, |m.entries|));
    Then(a, p, p2, q);
  }

  lemma SameLength(a: Actor, m: L.Cache, n: nat)
    ensures |ClearedUpTo(a, m, n).entries| == |m.entries|
  {
  }
}
