/** The flat arrays implement a list of datasets in order of their last use. */
module LruOrder {
  import opened Types
  import opened LruModel
  import opened LruClock
  import opened LruProperties

  /** Slots with a dataset are tagged with their key's hash and have distinct positive times; the others are as `clear` leaves them. */
  ghost predicate WellTimed(h: string -> Word, c: Cache) {
    && (forall i :: 0 <= i < |c.entries| ==> WellFormed(h, c.entries[i], c.time))
    && (forall i, j :: 0 <= i < |c.entries| && 0 <= j < |c.entries| && i != j && c.entries[i].loaded && c.entries[j].loaded ==>
          c.entries[i].atime != c.entries[j].atime)
  }

  predicate WellFormed(h: string -> Word, e: Entry, time: Word) {
    if e.loaded then e.tag == Tag(h, e.key) && 0 < e.atime <= time
    else e.tag == 0 && e.key == EMPTY_KEY && e.atime == 0
  }

  /** The key cannot match a slot without a dataset. */
  predicate Proper(h: string -> Word, key: Key) {
    key != EMPTY_KEY || Tag(h, EMPTY_KEY) != 0
  }

  ghost predicate MatchesAreLoaded(h: string -> Word, c: Cache, key: Key) {
    forall i :: 0 <= i < |c.entries| && Matches(h, c.entries[i], key) ==> c.entries[i].loaded
  }

  ghost predicate Sorted(entries: seq<Entry>, order: seq<nat>) {
    && (forall j :: 0 <= j < |order| ==> order[j] < |entries|)
    && (forall j, k :: 0 <= j < k < |order| ==> entries[order[j]].atime < entries[order[k]].atime)
  }

  /** `order` lists the slots that hold a dataset, least recently used first. */
  ghost predicate IsOrder(c: Cache, order: seq<nat>) {
    && Sorted(c.entries, order)
    && (forall i :: 0 <= i < |c.entries| ==> (i in order <==> c.entries[i].loaded))
  }

  ghost predicate Ordered(h: string -> Word, c: Cache, order: seq<nat>) {
    WellTimed(h, c) && IsOrder(c, order)
  }

  // ----- the list operations -----

  /** `s` without the elements of `xs`. */
  function Without(s: seq<nat>, xs: seq<nat>): seq<nat> {
    if s == [] then []
    else Without(s[..|s| - 1], xs) + (if s[|s| - 1] in xs then [] else [s[|s| - 1]])
  }

  lemma {:induction false} WithoutElements(s: seq<nat>, xs: seq<nat>, x: nat)
    ensures x in Without(s, xs) <==> x in s && x !in xs
  {
    if s != [] {
      var front, last := s[..|s| - 1], s[|s| - 1];
      WithoutElements(front, xs, x);
      assert s == front + [last];
    }
  }

  lemma {:induction false} WithoutAppend(s: seq<nat>, t: seq<nat>, xs: seq<nat>)
    ensures Without(s + t, xs) == Without(s, xs) + Without(t, xs)
  {
    if t == [] {
      assert s + t == s;
    } else {
      var front := t[..|t| - 1];
      WithoutAppend(s, front, xs);
      assert (s + t)[..|s + t| - 1] == s + front;
    }
  }

  lemma {:induction false} WithoutTwice(s: seq<nat>, xs: seq<nat>, ys: seq<nat>)
    ensures Without(Without(s, xs), ys) == Without(s, xs + ys)
  {
    if s != [] {
      var front, last := s[..|s| - 1], s[|s| - 1];
      WithoutTwice(front, xs, ys);
      WithoutAppend(Without(front, xs), if last in xs then [] else [last], ys);
      assert last in xs + ys <==> last in xs || last in ys;
      assert Without([last], ys) == if last in ys then [] else [last];
    }
  }

  lemma {:induction false} WithoutOthers(s: seq<nat>, xs: seq<nat>)
    requires forall x :: x in s ==> x !in xs
    ensures Without(s, xs) == s
  {
    if s != [] {
      var front, last := s[..|s| - 1], s[|s| - 1];
      assert s == front + [last];
      WithoutOthers(front, xs);
    }
  }

  /** The list after the elements of `xs` have been used, in that order. */
  function MoveToBack(s: seq<nat>, xs: seq<nat>): seq<nat> {
    Without(s, xs) + xs
  }

  lemma MoveNone(s: seq<nat>)
    ensures MoveToBack(s, []) == s
  {
    WithoutOthers(s, []);
  }

  lemma MoveTwice(s: seq<nat>, xs: seq<nat>, ys: seq<nat>)
    requires forall x :: x in xs ==> x !in ys
    ensures MoveToBack(MoveToBack(s, xs), ys) == MoveToBack(s, xs + ys)
  {
    hide Without;
    var w, both := Without(s, xs), Without(s, xs + ys);
    WithoutAppend(w, xs, ys);
    WithoutTwice(s, xs, ys);
    WithoutOthers(xs, ys);
    assert Without(w + xs, ys) == both + xs;
    assert (both + xs) + ys == both + (xs + ys);
  }

  lemma {:induction false} WithoutSorted(entries: seq<Entry>, s: seq<nat>, xs: seq<nat>)
    requires Sorted(entries, s)
    ensures Sorted(entries, Without(s, xs))
  {
    if s != [] {
      var front, last := s[..|s| - 1], s[|s| - 1];
      WithoutSorted(entries, front, xs);
      var kept := Without(front, xs);
      forall j | 0 <= j < |kept| ensures entries[kept[j]].atime < entries[last].atime {
        WithoutElements(front, xs, kept[j]);
        var k :| 0 <= k < |front| && front[k] == kept[j];
        assert s[k] == kept[j];
      }
    }
  }

  // ----- one dataset becomes the most recently used -----

  /** Slot `v` has been given a dataset, or been used, at the time `c'.time`; nothing else has changed. */
  ghost predicate OnlyTouched(h: string -> Word, c: Cache, c': Cache, v: nat) {
    && |c'.entries| == |c.entries| && v < |c.entries|
    && (forall i :: 0 <= i < |c.entries| && i != v ==> c'.entries[i] == c.entries[i])
    && c'.time > c.time && c'.entries[v].loaded && c'.entries[v].atime == c'.time
    && c'.entries[v].tag == Tag(h, c'.entries[v].key)
  }

  lemma TouchedTimes(h: string -> Word, c: Cache, c': Cache, v: nat)
    requires WellTimed(h, c) && OnlyTouched(h, c, c', v)
    ensures WellTimed(h, c')
  {
    forall i | 0 <= i < |c'.entries|
      ensures WellFormed(h, c'.entries[i], c'.time)
      ensures i != v && c'.entries[i].loaded ==> c'.entries[i].atime < c'.time
    {
      assert WellFormed(h, c.entries[i], c.time);
    }
  }

  lemma TouchedList(h: string -> Word, c: Cache, c': Cache, v: nat, order: seq<nat>)
    requires WellTimed(h, c) && IsOrder(c, order) && OnlyTouched(h, c, c', v)
    ensures IsOrder(c', MoveToBack(order, [v]))
  {
    var kept := Without(order, [v]);
    forall i: nat ensures i in kept <==> i in order && i != v {
      WithoutElements(order, [v], i);
    }
    WithoutSorted(c.entries, order, [v]);
    forall j | 0 <= j < |kept|
      ensures kept[j] < |c.entries| && c'.entries[kept[j]] == c.entries[kept[j]] && c.entries[kept[j]].atime < c'.time
    {
      assert kept[j] in kept && WellFormed(h, c.entries[kept[j]], c.time);
    }
    AppendsLatest(c'.entries, kept, v);
  }

  lemma AppendsLatest(entries: seq<Entry>, s: seq<nat>, v: nat)
    requires Sorted(entries, s) && v < |entries|
    requires forall j :: 0 <= j < |s| ==> entries[s[j]].atime < entries[v].atime
    ensures Sorted(entries, s + [v])
  {
  }

  lemma Touched(h: string -> Word, c: Cache, c': Cache, v: nat, order: seq<nat>)
    requires Ordered(h, c, order) && OnlyTouched(h, c, c', v)
    ensures Ordered(h, c', MoveToBack(order, [v]))
  {
    TouchedTimes(h, c, c', v);
    TouchedList(h, c, c', v, order);
  }

  lemma TickIsNext(time: Word)
    requires time + 1 < WORD_SIZE
    ensures Tick(time) == time + 1
  {
  }

  lemma PinStepOrder(h: string -> Word, c: Cache, key: Key, i: nat, order: seq<nat>, list: seq<nat>)
    requires i < |c.entries| && c.entries[i].loaded && c.time + 1 < WORD_SIZE
    requires i !in list && Ordered(h, c, MoveToBack(order, list))
    ensures Ordered(h, Pin(c, i), MoveToBack(order, list + [i])) && Pin(c, i).time == c.time + 1
  {
    hide MoveToBack;
    assert WellFormed(h, c.entries[i], c.time);
    TickIsNext(c.time);
    Touched(h, c, Pin(c, i), i, MoveToBack(order, list));
    MoveTwice(order, list, [i]);
  }

  /** The pinning loop moves the matches to the back of the list, in index order. */
  lemma {:induction false} PinFirstOrder(h: string -> Word, c: Cache, key: Key, n: nat, order: seq<nat>)
    requires n <= |c.entries| && MatchesAreLoaded(h, c, key)
    requires Ordered(h, c, order) && c.time + |PinFirst(h, c, key, n).1| < WORD_SIZE
    ensures var (c', list) := PinFirst(h, c, key, n);
      Ordered(h, c', MoveToBack(order, list)) && c'.time == c.time + |list|
  {
    hide Ordered, MoveToBack;
    if n == 0 {
      MoveNone(order);
    } else {
      PinFirstOrder(h, c, key, n - 1, order);
      var (c1, list) := PinFirst(h, c, key, n - 1);
      PinFirstBelow(h, c, key, n - 1);
      if Matches(h, c1.entries[n - 1], key) {
        PinStepOrder(h, c1, key, n - 1, order, list);
      }
    }
  }

  lemma PinFirstBelow(h: string -> Word, c: Cache, key: Key, n: nat)
    requires n <= |c.entries|
    ensures var (c', list) := PinFirst(h, c, key, n); n !in list && (n < |c.entries| ==> c'.entries[n] == c.entries[n])
  {
    PinFirstPins(h, c, key, n);
  }

  /** A slot that a failed insert leaves locked keeps its place. */
  lemma SameOrder(h: string -> Word, c: Cache, c': Cache, order: seq<nat>)
    requires Ordered(h, c, order) && c'.time == c.time && |c'.entries| == |c.entries|
    requires forall i :: 0 <= i < |c.entries| ==> c'.entries[i] == c.entries[i].(holder := c'.entries[i].holder)
    ensures Ordered(h, c', order)
  {
  }

  lemma InsertOneOrder(h: string -> Word, c: Cache, me: nat, key: Key, opens: bool, order: seq<nat>)
    requires Ordered(h, c, order) && c.time + |InsertOne(h, c, me, key, opens).1| < WORD_SIZE
    ensures var (c', list) := InsertOne(h, c, me, key, opens);
      Ordered(h, c', MoveToBack(order, list)) && c'.time == c.time + |list|
  {
    hide Ordered, MoveToBack;
    var (c', list) := InsertOne(h, c, me, key, opens);
    MoveNone(order);
    if list == [] {
      SameOrder(h, c, c', order);
    } else {
      TickIsNext(c.time);
      assert list == [list[0]];
      Touched(h, c, c', list[0], order);
    }
  }

  /** A slot just filled is pinned, and not chosen again. */
  lemma FirstNotAgain(h: string -> Word, c: Cache, me: nat, key: Key, need: nat, script: nat -> bool, asked: nat)
    ensures var (c1, first) := InsertOne(h, c, me, key, script(asked));
      forall x :: x in first ==> x !in InsertMany(h, c1, me, key, need, script, asked + Calls(c)).1
  {
    var (c1, first) := InsertOne(h, c, me, key, script(asked));
    InsertOneUsesUp(h, c, me, key, script(asked));
    InsertManyPins(h, c1, me, key, need, script, asked + Calls(c));
  }

  lemma {:induction false} InsertManyOrder(
    h: string -> Word, c: Cache, me: nat, key: Key, need: nat, script: nat -> bool, asked: nat, order: seq<nat>)
    requires Ordered(h, c, order) && c.time + |InsertMany(h, c, me, key, need, script, asked).1| < WORD_SIZE
    ensures var (c', list) := InsertMany(h, c, me, key, need, script, asked);
      Ordered(h, c', MoveToBack(order, list)) && c'.time == c.time + |list|
    decreases need
  {
    hide Ordered, MoveToBack, InsertOne;
    if need == 0 {
      MoveNone(order);
    } else {
      var (c1, first) := InsertOne(h, c, me, key, script(asked));
      InsertOneOrder(h, c, me, key, script(asked), order);
      InsertManyOrder(h, c1, me, key, need - 1, script, asked + Calls(c), MoveToBack(order, first));
      InsertsMoveTwice(h, c, me, key, need, script, asked, order);
    }
  }

  lemma InsertsMoveTwice(h: string -> Word, c: Cache, me: nat, key: Key, need: nat, script: nat -> bool, asked: nat, order: seq<nat>)
    requires need > 0
    ensures var (c1, first) := InsertOne(h, c, me, key, script(asked));
      var (c2, rest) := InsertMany(h, c1, me, key, need - 1, script, asked + Calls(c));
      MoveToBack(MoveToBack(order, first), rest) == MoveToBack(order, InsertMany(h, c, me, key, need, script, asked).1)
  {
    FirstNotAgain(h, c, me, key, need - 1, script, asked);
    var (c1, first) := InsertOne(h, c, me, key, script(asked));
    MoveTwice(order, first, InsertMany(h, c1, me, key, need - 1, script, asked + Calls(c)).1);
  }

  /** The recency list keeps up with `get` as long as no empty slot matches and the clock does not run over. */
  lemma GetKeepsUp(
    h: string -> Word, c: Cache, me: nat, key: Key, copies: int, free: bool, script: nat -> bool, asked: nat, order: seq<nat>)
    requires Ordered(h, c, order) && MatchesAreLoaded(h, c, key)
    requires c.time + |Get(h, c, me, key, copies, free, script, asked).1| < WORD_SIZE
    ensures var (c', list) := Get(h, c, me, key, copies, free, script, asked);
      Ordered(h, c', MoveToBack(order, list))
  {
    hide Ordered, MoveToBack, InsertMany;
    var (c1, found) := PinFirst(h, c, key, |c.entries|);
    var need := Need(copies, |found|, free);
    PinFirstOrder(h, c, key, |c.entries|, order);
    InsertManyOrder(h, c1, me, key, need, script, asked, MoveToBack(order, found));
    PinFirstPins(h, c, key, |c.entries|);
    InsertManyPins(h, c1, me, key, need, script, asked);
    var (c2, made) := InsertMany(h, c1, me, key, need, script, asked);
    MoveTwice(order, found, made);
  }

  /** An empty slot in the list, or a dataset that was used when the clock ran over, is out of order. */
  lemma GetFallsBehind(
    h: string -> Word, c: Cache, me: nat, key: Key, copies: int, free: bool, script: nat -> bool, asked: nat, order: seq<nat>)
    requires !MatchesAreLoaded(h, c, key) || c.time + |Get(h, c, me, key, copies, free, script, asked).1| >= WORD_SIZE
    ensures var (c', list) := Get(h, c, me, key, copies, free, script, asked);
      !Ordered(h, c', MoveToBack(order, list))
  {
    hide Get, Matches;
    var (c', list) := Get(h, c, me, key, copies, free, script, asked);
    GetClock(h, c, me, key, copies, free, script, asked);
    GetPinsOnce(h, c, me, key, copies, free, script, asked);
    if !MatchesAreLoaded(h, c, key) {
      var i :| 0 <= i < |c.entries| && Matches(h, c.entries[i], key) && !c.entries[i].loaded;
      assert i in MoveToBack(order, list);
    } else {
      var j := WORD_SIZE - 1 - c.time;
      var i := list[j];
      assert c'.entries[i].atime == 0;
      assert i in list && i in MoveToBack(order, list);
      assert WellTimed(h, c') ==> WellFormed(h, c'.entries[i], c'.time);
    }
  }

  /** `get` on the flat arrays is `get` on the recency list: everything it returns moves to the back, in the
      order returned, if and only if no empty slot matches and the clock, which ticks once for each, does not run over. */
  lemma GetMovesToBack(
    h: string -> Word, c: Cache, me: nat, key: Key, copies: int, free: bool, script: nat -> bool, asked: nat, order: seq<nat>)
    requires Ordered(h, c, order)
    ensures var (c', list) := Get(h, c, me, key, copies, free, script, asked);
      Ordered(h, c', MoveToBack(order, list)) <==> MatchesAreLoaded(h, c, key) && c.time + |list| < WORD_SIZE
  {
    hide Ordered, MatchesAreLoaded, Get;
    if MatchesAreLoaded(h, c, key) && c.time + |Get(h, c, me, key, copies, free, script, asked).1| < WORD_SIZE {
      GetKeepsUp(h, c, me, key, copies, free, script, asked, order);
    } else {
      GetFallsBehind(h, c, me, key, copies, free, script, asked, order);
    }
  }

  /** A caller need only know that the key is not the empty key, or that no slot is empty. */
  lemma MatchesAreLoadedIff(h: string -> Word, c: Cache, key: Key)
    requires WellTimed(h, c)
    ensures MatchesAreLoaded(h, c, key) <==> Proper(h, key) || forall i :: 0 <= i < |c.entries| ==> c.entries[i].loaded
  {
    assert forall i :: 0 <= i < |c.entries| ==> WellFormed(h, c.entries[i], c.time);
  }

  /** Eviction takes the first empty slot that is free, and only when there is none the least recently used free dataset. */
  lemma VictimIsLeastRecentlyUsed(h: string -> Word, c: Cache, order: seq<nat>)
    requires WellTimed(h, c) && IsOrder(c, order)
    ensures match Victim(c)
      case None => forall i :: 0 <= i < |c.entries| ==> !Evictable(c.entries[i])
      case Some(v) =>
        && Evictable(c.entries[v])
        && (!c.entries[v].loaded ==> forall i :: 0 <= i < v ==> !(Evictable(c.entries[i]) && !c.entries[i].loaded))
        && (c.entries[v].loaded ==>
              && (forall i :: 0 <= i < |c.entries| && Evictable(c.entries[i]) ==> c.entries[i].loaded)
              && exists p :: 0 <= p < |order| && order[p] == v && forall q :: 0 <= q < p ==> !Evictable(c.entries[order[q]]))
  {
    hide VictimOf;
    VictimIsLeast(c.entries, |c.entries|);
    assert forall i :: 0 <= i < |c.entries| ==> WellFormed(h, c.entries[i], c.time);
    match Victim(c)
    case None =>
    case Some(v) =>
      if c.entries[v].loaded {
        var p :| 0 <= p < |order| && order[p] == v;
        assert forall q :: 0 <= q < p ==> c.entries[order[q]].atime < c.entries[v].atime;
      }
  }

  /** There is such a list for every well-timed cache. */
  lemma SomeOrder(h: string -> Word, c: Cache) returns (order: seq<nat>)
    requires WellTimed(h, c)
    ensures Ordered(h, c, order)
  {
    order := OrderOfFirst(h, c, |c.entries|);
  }

  lemma {:induction false} OrderOfFirst(h: string -> Word, c: Cache, n: nat) returns (order: seq<nat>)
    requires WellTimed(h, c) && n <= |c.entries|
    ensures Sorted(c.entries, order)
    ensures forall i: nat :: i in order <==> i < n && c.entries[i].loaded
  {
    if n == 0 {
      order := [];
    } else {
      var before := OrderOfFirst(h, c, n - 1);
      order := before;
      if c.entries[n - 1].loaded {
        order := SortIn(c.entries, before, n - 1);
      }
    }
  }

  lemma Within(entries: seq<Entry>, s: seq<nat>)
    requires Sorted(entries, s)
    ensures forall j :: 0 <= j < |s| ==> s[j] < |entries|
  {
  }

  lemma LastIsLatest(entries: seq<Entry>, s: seq<nat>)
    requires Sorted(entries, s)
    ensures s != [] ==> s[|s| - 1] < |entries| && forall i :: i in s && i != s[|s| - 1] ==> i < |entries| && entries[i].atime < entries[s[|s| - 1]].atime
  {
  }

  lemma {:induction false} SortIn(entries: seq<Entry>, s: seq<nat>, v: nat) returns (order: seq<nat>)
    requires Sorted(entries, s) && v < |entries|
    requires forall i :: i in s ==> entries[i].atime != entries[v].atime
    ensures Sorted(entries, order)
    ensures forall i :: i in order <==> i in s || i == v
  {
    hide Sorted;
    Within(entries, s);
    if s == [] || entries[s[|s| - 1]].atime < entries[v].atime {
      order := s + [v];
      LastIsLatest(entries, s);
      AppendsLatest(entries, s, v);
    } else {
      var front, last := s[..|s| - 1], s[|s| - 1];
      assert s == front + [last];
      SortedFront(entries, s);
      LastIsLatest(entries, s);
      var rest := SortIn(entries, front, v);
      order := rest + [last];
      Within(entries, rest);
      forall j | 0 <= j < |rest| ensures entries[rest[j]].atime < entries[last].atime {
        assert rest[j] in rest && (rest[j] == v || rest[j] in front);
      }
      AppendsLatest(entries, rest, last);
    }
  }

  lemma SortedFront(entries: seq<Entry>, s: seq<nat>)
    requires Sorted(entries, s) && s != []
    ensures var n := |s| - 1;
      && Sorted(entries, s[..n])
      && forall i :: i in s[..n] <==> i in s && i != s[n]
  {
    var n := |s| - 1;
    assert s == s[..n] + [s[n]];
    assert s[n] !in s[..n];
  }

  /** The recency list is determined by the times, so it may be called the list. */
  lemma {:induction false} OrderUnique(entries: seq<Entry>, a: seq<nat>, b: seq<nat>)
    requires Sorted(entries, a) && Sorted(entries, b) && forall i :: i in a <==> i in b
    ensures a == b
    decreases |a|
  {
    hide Sorted;
    assert b != [] ==> b[|b| - 1] in b;
    if a != [] {
      assert a[|a| - 1] in b;
      SameLast(entries, a, b);
      SortedFront(entries, a);
      SortedFront(entries, b);
      OrderUnique(entries, a[..|a| - 1], b[..|b| - 1]);
      assert a == a[..|a| - 1] + [a[|a| - 1]];
      assert b == b[..|b| - 1] + [b[|b| - 1]];
    }
  }

  lemma SameLast(entries: seq<Entry>, a: seq<nat>, b: seq<nat>)
    requires Sorted(entries, a) && Sorted(entries, b) && (forall i :: i in a <==> i in b) && a != [] && b != []
    ensures a[|a| - 1] == b[|b| - 1]
  {
    assert a[|a| - 1] in b && b[|b| - 1] in a;
  }

  /** Comparing tags first and then keys finds the same slots as comparing keys. */
  lemma TagFilterAgrees(h: string -> Word, c: Cache, key: Key, i: nat)
    requires WellTimed(h, c) && i < |c.entries|
    ensures Proper(h, key) ==> (Matches(h, c.entries[i], key) <==> c.entries[i].loaded && c.entries[i].key == key)
    ensures !Proper(h, key) ==> (Matches(h, c.entries[i], key) <==> c.entries[i].key == EMPTY_KEY)
  {
  }
}
