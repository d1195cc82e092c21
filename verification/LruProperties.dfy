/** What the calls promise: the victim, the size and content of the returned list, and LRU order. */
module LruProperties {
  import opened Types
  import opened LruModel

  // ----- the victim -----

  /** The lowest of the slots with the least access time among those that can be evicted. */
  predicate IsVictim(entries: seq<Entry>, n: nat, v: Option<nat>)
    requires n <= |entries|
  {
    match v
    case None => forall r :: 0 <= r < n ==> !Evictable(entries[r])
    case Some(b) =>
      && b < n && Evictable(entries[b])
      && forall r :: 0 <= r < n && r != b && Evictable(entries[r]) ==>
           entries[b].atime < entries[r].atime || (entries[b].atime == entries[r].atime && b < r)
  }

  lemma {:induction false} VictimIsLeast(entries: seq<Entry>, n: nat)
    requires n <= |entries|
    ensures IsVictim(entries, n, VictimOf(entries, n))
  {
    if n > 0 {
      VictimIsLeast(entries, n - 1);
    }
  }

  /** The same, field by field: a slot can be evicted if it is unlocked, unused, and its time is not the
      largest of all, which the scan starts from; the victim has the least time, and the lowest index. */
  lemma VictimIsLeastUnused(c: Cache)
    ensures match Victim(c)
      case None =>
        forall r :: 0 <= r < |c.entries| ==>
          c.entries[r].holder != None || c.entries[r].uses != 0 || c.entries[r].atime == 0xFFFF_FFFF_FFFF_FFFF
      case Some(v) =>
        && v < |c.entries|
        && c.entries[v].holder == None && c.entries[v].uses == 0 && c.entries[v].atime != 0xFFFF_FFFF_FFFF_FFFF
        && forall r :: 0 <= r < |c.entries| && r != v && c.entries[r].holder == None && c.entries[r].uses == 0 ==>
             c.entries[v].atime < c.entries[r].atime || (c.entries[v].atime == c.entries[r].atime && v < r)
  {
    hide VictimOf;
    VictimIsLeast(c.entries, |c.entries|);
  }

  // ----- the list returned by get -----

  predicate IncreasingBelow(s: seq<nat>, n: nat) {
    && (forall j, k :: 0 <= j < k < |s| ==> s[j] < s[k])
    && (forall j :: 0 <= j < |s| ==> s[j] < n)
  }

  /** `list` names exactly the matches among the first `n` slots, in index order. */
  ghost predicate AreMatches(h: string -> Word, entries: seq<Entry>, key: Key, n: nat, list: seq<nat>)
    requires n <= |entries|
  {
    IncreasingBelow(list, n) && forall i :: 0 <= i < n ==> (i in list <==> Matches(h, entries[i], key))
  }

  /** The slots of `list` have been pinned once and timed; the others are as they were. */
  ghost predicate PinnedOnce(entries: seq<Entry>, entries': seq<Entry>, list: seq<nat>) {
    |entries'| == |entries| && forall i :: 0 <= i < |entries| ==>
      entries'[i] == if i in list then entries[i].(uses := entries[i].uses + 1, atime := entries'[i].atime) else entries[i]
  }

  lemma PinsOneMore(entries: seq<Entry>, c: Cache, list: seq<nat>, k: nat)
    requires PinnedOnce(entries, c.entries, list) && k < |entries| && k !in list
    ensures PinnedOnce(entries, Pin(c, k).entries, list + [k])
  {
    forall i | 0 <= i < |entries| ensures i in list + [k] <==> i in list || i == k {
    }
  }

  lemma NotYetPinned(entries: seq<Entry>, entries': seq<Entry>, list: seq<nat>, k: nat)
    requires PinnedOnce(entries, entries', list) && k < |entries| && k !in list
    ensures entries'[k] == entries[k]
  {
  }

  lemma OneMatchMore(h: string -> Word, entries: seq<Entry>, key: Key, n: nat, list: seq<nat>)
    requires n < |entries| && AreMatches(h, entries, key, n, list)
    ensures n !in list
    ensures AreMatches(h, entries, key, n + 1, if Matches(h, entries[n], key) then list + [n] else list)
  {
    assert forall i :: i in list + [n] <==> i in list || i == n;
  }

  /** The pinning loop pins every match once and leaves the other slots alone. */
  lemma {:induction false} PinFirstPins(h: string -> Word, c: Cache, key: Key, n: nat)
    requires n <= |c.entries|
    ensures var (c', list) := PinFirst(h, c, key, n);
      AreMatches(h, c.entries, key, n, list) && PinnedOnce(c.entries, c'.entries, list) && c'.size == c.size
  {
    if n > 0 {
      hide Pin, PinnedOnce, AreMatches;
      PinFirstPins(h, c, key, n - 1);
      var (c', list) := PinFirst(h, c, key, n - 1);
      OneMatchMore(h, c.entries, key, n - 1, list);
      NotYetPinned(c.entries, c'.entries, list, n - 1);
      if Matches(h, c'.entries[n - 1], key) {
        PinsOneMore(c.entries, c', list, n - 1);
      }
    }
  }

  ghost function EvictableSlots(entries: seq<Entry>): set<nat> {
    set r | 0 <= r < |entries| && Evictable(entries[r])
  }

  /** An insert uses up one evictable slot, whether the open succeeds or not. */
  lemma InsertOneUsesUp(h: string -> Word, c: Cache, me: nat, key: Key, opens: bool)
    ensures var (c', list) := InsertOne(h, c, me, key, opens);
      match Victim(c)
      case None => EvictableSlots(c.entries) == {} && c' == c && list == []
      case Some(v) =>
        && v in EvictableSlots(c.entries) && EvictableSlots(c'.entries) == EvictableSlots(c.entries) - {v}
        && c.entries[v].uses == 0
        && (forall i :: 0 <= i < |c.entries| && i != v ==> c'.entries[i] == c.entries[i])
        && list == (if opens then [v] else [])
        && (if opens then c'.entries[v].uses == 1 && Matches(h, c'.entries[v], key) else c'.entries[v].uses == 0)
  {
    VictimIsLeast(c.entries, |c.entries|);
  }

  /** The slots of `list` were free for eviction before, now carry the key, and are pinned once; slots
      that were not free for eviction have not changed. */
  ghost predicate Made(h: string -> Word, key: Key, before: seq<Entry>, after: seq<Entry>, list: seq<nat>) {
    && |after| == |before|
    && Distinct(list)
    && (forall i :: i in list ==> i in EvictableSlots(before))
    && (forall i :: 0 <= i < |before| ==> after[i].uses == before[i].uses + (if i in list then 1 else 0))
    && (forall i :: i in list ==> i < |before| && Matches(h, after[i], key))
    && (forall i :: 0 <= i < |before| && i !in EvictableSlots(before) ==> after[i] == before[i])
  }

  lemma InsertOneMakes(h: string -> Word, c: Cache, me: nat, key: Key, opens: bool)
    ensures var (c', list) := InsertOne(h, c, me, key, opens);
      && Made(h, key, c.entries, c'.entries, list)
      && EvictableSlots(c'.entries) <= EvictableSlots(c.entries)
      && forall i :: i in list ==> i !in EvictableSlots(c'.entries)
  {
    InsertOneUsesUp(h, c, me, key, opens);
    hide InsertOne, Evictable;
  }

  lemma MadeTwice(h: string -> Word, key: Key, before: seq<Entry>, mid: seq<Entry>, after: seq<Entry>, first: seq<nat>, rest: seq<nat>)
    requires Made(h, key, before, mid, first) && Made(h, key, mid, after, rest)
    requires EvictableSlots(mid) <= EvictableSlots(before) && forall i :: i in first ==> i !in EvictableSlots(mid)
    ensures Made(h, key, before, after, first + rest)
  {
    hide EvictableSlots, Matches;
    DistinctAppend(first, rest);
    assert forall i :: i in first + rest <==> i in first || i in rest;
  }

  /** What `need` inserts do to use counts, and that they return slots that were free for eviction before. */
  lemma {:induction false} InsertManyPins(h: string -> Word, c: Cache, me: nat, key: Key, need: nat, script: nat -> bool, asked: nat)
    ensures var (c', list) := InsertMany(h, c, me, key, need, script, asked);
      Made(h, key, c.entries, c'.entries, list)
    decreases need
  {
    if need > 0 {
      hide InsertOne, Made;
      var (c1, first) := InsertOne(h, c, me, key, script(asked));
      InsertOneMakes(h, c, me, key, script(asked));
      InsertManyPins(h, c1, me, key, need - 1, script, asked + Calls(c));
      var (c2, rest) := InsertMany(h, c1, me, key, need - 1, script, asked + Calls(c));
      MadeTwice(h, key, c.entries, c1.entries, c2.entries, first, rest);
    }
  }

  /** How many of `n` opens succeed, counting from the one numbered `from`. */
  function Successes(script: nat -> bool, from: nat, n: nat): nat
    decreases n
  {
    if n == 0 then 0 else (if script(from) then 1 else 0) + Successes(script, from + 1, n - 1)
  }

  lemma {:induction false} AllSucceed(script: nat -> bool, from: nat, n: nat)
    requires forall k :: script(k)
    ensures Successes(script, from, n) == n
    decreases n
  {
    if n > 0 {
      AllSucceed(script, from + 1, n - 1);
    }
  }

  /** Inserts go on, whether opens fail or not, until there have been `need` or nothing can be evicted any more. */
  lemma {:induction false} InsertManyYields(h: string -> Word, c: Cache, me: nat, key: Key, need: nat, script: nat -> bool, asked: nat)
    ensures var (c', list) := InsertMany(h, c, me, key, need, script, asked);
      var tries := Min(need, |EvictableSlots(c.entries)|);
      |list| == Successes(script, asked, tries) && |EvictableSlots(c'.entries)| == |EvictableSlots(c.entries)| - tries
    decreases need
  {
    if need > 0 {
      hide InsertOne, EvictableSlots;
      OneUsedUp(h, c, me, key, script(asked));
      InsertManyYields(h, InsertOne(h, c, me, key, script(asked)).0, me, key, need - 1, script, asked + Calls(c));
    }
  }

  lemma OneUsedUp(h: string -> Word, c: Cache, me: nat, key: Key, opens: bool)
    ensures var (c', list) := InsertOne(h, c, me, key, opens);
      && |EvictableSlots(c'.entries)| == |EvictableSlots(c.entries)| - Calls(c)
      && (Calls(c) == 0 ==> |EvictableSlots(c.entries)| == 0)
      && |list| == (if opens then Calls(c) else 0)
  {
    InsertOneUsesUp(h, c, me, key, opens);
  }

  ghost function MatchingSlots(h: string -> Word, entries: seq<Entry>, key: Key): set<nat> {
    set r | 0 <= r < |entries| && Matches(h, entries[r], key)
  }

  /** `get` returns distinct slots that carry the key, has pinned each of them exactly once, and no other. */
  lemma GetPinsOnce(h: string -> Word, c: Cache, me: nat, key: Key, copies: int, free: bool, script: nat -> bool, asked: nat)
    ensures var (c', list) := Get(h, c, me, key, copies, free, script, asked);
      && |c'.entries| == |c.entries|
      && Distinct(list)
      && (forall i :: i in list ==> i < |c.entries| && Matches(h, c'.entries[i], key))
      && (forall i :: 0 <= i < |c.entries| && Matches(h, c.entries[i], key) ==> i in list)
      && (forall i :: 0 <= i < |c.entries| ==> c'.entries[i].uses == c.entries[i].uses + (if i in list then 1 else 0))
  {
    var (c1, found) := PinFirst(h, c, key, |c.entries|);
    PinFirstPins(h, c, key, |c.entries|);
    InsertManyPins(h, c1, me, key, Need(copies, |found|, free), script, asked);
    var (c2, made) := InsertMany(h, c1, me, key, Need(copies, |found|, free), script, asked);
    forall i | i in found ensures i < |c.entries| && i !in EvictableSlots(c1.entries) && Matches(h, c1.entries[i], key) {
    }
    DistinctAppend(found, made);
  }

  lemma DistinctAppend(a: seq<nat>, b: seq<nat>)
    requires Distinct(a) && Distinct(b) && forall x :: x in a ==> x !in b
    ensures Distinct(a + b)
  {
    forall j, k | 0 <= j < k < |a + b| ensures (a + b)[j] != (a + b)[k] {
      assert (a + b)[j] in a || (a + b)[j] in b;
    }
  }

  lemma FoundSlots(h: string -> Word, c: Cache, key: Key)
    ensures var (c1, found) := PinFirst(h, c, key, |c.entries|);
      && |found| == |MatchingSlots(h, c.entries, key)|
      && EvictableSlots(c1.entries) == EvictableSlots(c.entries) - MatchingSlots(h, c.entries, key)
  {
    var (c1, found) := PinFirst(h, c, key, |c.entries|);
    PinFirstPins(h, c, key, |c.entries|);
    assert MatchingSlots(h, c.entries, key) == Elements(found);
    DistinctSize(found);
  }

  /** What `get` comes to when `m` slots match, `e` others can be evicted, and any of the opens may fail:
      it tries as many inserts as it wants and as slots can be evicted, and each that succeeds adds a dataset.
      It waits for the lock if it wants datasets at any price, and otherwise goes without if the lock is not free. */
  lemma GetYields(h: string -> Word, c: Cache, me: nat, key: Key, copies: int, free: bool, script: nat -> bool, asked: nat)
    ensures var (c', list) := Get(h, c, me, key, copies, free, script, asked);
      var m := |MatchingSlots(h, c.entries, key)|;
      var e := |EvictableSlots(c.entries) - MatchingSlots(h, c.entries, key)|;
      var wanted :=
        if copies > m then copies - m
        else if copies < 0 && m == 0 then 1
        else if -copies > m && free then -copies - m
        else 0;
      && |list| == m + Successes(script, asked, Min(wanted, e))
      && |EvictableSlots(c'.entries)| == e - Min(wanted, e)
  {
    hide PinFirst, InsertMany, Successes, EvictableSlots, MatchingSlots;
    var (c1, found) := PinFirst(h, c, key, |c.entries|);
    FoundSlots(h, c, key);
    InsertManyYields(h, c1, me, key, Need(copies, |found|, free), script, asked);
  }

  /** The exact size of the list when every open succeeds, whether the lock is free or not. */
  lemma GetSize(h: string -> Word, c: Cache, me: nat, key: Key, copies: int, free: bool, script: nat -> bool, asked: nat)
    requires forall n :: script(n)
    ensures var m := |MatchingSlots(h, c.entries, key)|;
      var e := |EvictableSlots(c.entries) - MatchingSlots(h, c.entries, key)|;
      |Get(h, c, me, key, copies, free, script, asked).1| ==
        if copies > 0 then Max(m, Min(copies, m + e))
        else if copies < 0 && m == 0 then Min(1, e)
        else if free then Max(m, Min(-copies, m + e))
        else m
  {
    hide Get, EvictableSlots, MatchingSlots;
    GetYields(h, c, me, key, copies, free, script, asked);
    forall n: nat ensures Successes(script, asked, n) == n {
      AllSucceed(script, asked, n);
    }
  }

  ghost function Elements(s: seq<nat>): set<nat> {
    set x | x in s
  }

  lemma {:induction false} DistinctSize(s: seq<nat>)
    requires Distinct(s)
    ensures |Elements(s)| == |s|
  {
    if s == [] {
      assert Elements(s) == {};
    } else {
      var front, last := s[..|s| - 1], s[|s| - 1];
      DistinctSize(front);
      assert s == front + [last] && last !in front;
      assert Elements(s) == Elements(front) + {last};
    }
  }
}
