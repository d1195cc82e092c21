/** The clock of the cache, `m_time`, which runs over at 2^64: when it ticks, and what time each use leaves behind. */
module LruClock {
  import opened Types
  import opened LruModel
  import opened LruProperties

  /** The time after `n` ticks. */
  function Advance(time: Word, n: nat): Word {
    (time + n) % WORD_SIZE
  }

  lemma AdvanceNone(time: Word)
    ensures Advance(time, 0) == time
  {
  }

  lemma TickLast(time: Word, n: nat)
    ensures Tick(Advance(time, n)) == Advance(time, n + 1)
  {
  }

  lemma AdvanceTwice(time: Word, m: nat, n: nat)
    ensures Advance(Advance(time, m), n) == Advance(time, m + n)
  {
  }

  /** The `j`-th dataset of the list was used at the `j`-th tick. */
  ghost predicate UsedInTurn(time: Word, entries: seq<Entry>, list: seq<nat>) {
    forall j :: 0 <= j < |list| ==> list[j] < |entries| && entries[list[j]].atime == Advance(time, j + 1)
  }

  lemma UsedNext(c: Cache, time: Word, list: seq<nat>, i: nat)
    requires UsedInTurn(time, c.entries, list) && c.time == Advance(time, |list|) && i < |c.entries| && i !in list
    ensures UsedInTurn(time, Pin(c, i).entries, list + [i]) && Pin(c, i).time == Advance(time, |list + [i]|)
  {
    TickLast(time, |list|);
    hide Advance;
  }

  lemma {:induction false} PinFirstClock(h: string -> Word, c: Cache, key: Key, n: nat)
    requires n <= |c.entries|
    ensures var (c', list) := PinFirst(h, c, key, n);
      c'.time == Advance(c.time, |list|) && UsedInTurn(c.time, c'.entries, list)
  {
    hide Pin, Advance, UsedInTurn;
    if n == 0 {
      AdvanceNone(c.time);
      UsedNone(c.time, c.entries);
    } else {
      PinFirstClock(h, c, key, n - 1);
      var (c', list) := PinFirst(h, c, key, n - 1);
      PinFirstPins(h, c, key, n - 1);
      if Matches(h, c'.entries[n - 1], key) {
        UsedNext(c', c.time, list, n - 1);
      }
    }
  }

  lemma UsedNone(time: Word, entries: seq<Entry>)
    ensures UsedInTurn(time, entries, [])
  {
  }

  lemma InsertOneClock(h: string -> Word, c: Cache, me: nat, key: Key, opens: bool)
    ensures var (c', list) := InsertOne(h, c, me, key, opens);
      && c'.time == Advance(c.time, |list|) && UsedInTurn(c.time, c'.entries, list)
      && (forall x :: x in list ==> x < |c'.entries| && c'.entries[x].loaded && c'.entries[x].uses > 0)
  {
    hide VictimOf;
  }

  /** Uses one after the other, the first of them left alone by the rest. */
  lemma UsedBoth(time: Word, time1: Word, c1: Cache, c2: Cache, first: seq<nat>, rest: seq<nat>)
    requires UsedInTurn(time, c1.entries, first) && time1 == Advance(time, |first|)
    requires UsedInTurn(time1, c2.entries, rest)
    requires |c2.entries| == |c1.entries| && forall x :: x in first ==> x < |c1.entries| && c2.entries[x] == c1.entries[x]
    ensures UsedInTurn(time, c2.entries, first + rest)
    ensures Advance(time1, |rest|) == Advance(time, |first + rest|)
  {
    hide Advance;
    AdvanceTwice(time, |first|, |rest|);
    var list := first + rest;
    forall j | 0 <= j < |list| ensures list[j] < |c2.entries| && c2.entries[list[j]].atime == Advance(time, j + 1) {
      if j < |first| {
        assert first[j] in first;
      } else {
        AdvanceTwice(time, |first|, j - |first| + 1);
      }
    }
  }

  lemma {:induction false} InsertManyClock(h: string -> Word, c: Cache, me: nat, key: Key, need: nat, script: nat -> bool, asked: nat)
    ensures var (c', list) := InsertMany(h, c, me, key, need, script, asked);
      && c'.time == Advance(c.time, |list|) && UsedInTurn(c.time, c'.entries, list)
      && (forall x :: x in list ==> x < |c'.entries| && c'.entries[x].loaded)
    decreases need
  {
    hide InsertOne, Advance, UsedInTurn;
    if need == 0 {
      AdvanceNone(c.time);
      UsedNone(c.time, c.entries);
    } else {
      var (c1, first) := InsertOne(h, c, me, key, script(asked));
      InsertOneClock(h, c, me, key, script(asked));
      InsertManyClock(h, c1, me, key, need - 1, script, asked + Calls(c));
      InsertManyPins(h, c1, me, key, need - 1, script, asked + Calls(c));
      var (c2, rest) := InsertMany(h, c1, me, key, need - 1, script, asked + Calls(c));
      UsedBoth(c.time, c1.time, c1, c2, first, rest);
    }
  }

  /** `get` ticks once for every dataset it returns, and times the datasets in the order of its list;
      what it has found stays loaded or empty as it was, and what it has made is loaded. */
  lemma GetClock(h: string -> Word, c: Cache, me: nat, key: Key, copies: int, free: bool, script: nat -> bool, asked: nat)
    ensures var (c', list) := Get(h, c, me, key, copies, free, script, asked);
      && |c'.entries| == |c.entries|
      && c'.time == Advance(c.time, |list|) && UsedInTurn(c.time, c'.entries, list)
      && (forall i :: i in list ==> i < |c.entries| && (c'.entries[i].loaded || (Matches(h, c.entries[i], key) && !c.entries[i].loaded)))
      && (forall i :: 0 <= i < |c.entries| && Matches(h, c.entries[i], key) ==> c'.entries[i].loaded == c.entries[i].loaded)
  {
    hide Advance, UsedInTurn, InsertMany;
    var (c1, found) := PinFirst(h, c, key, |c.entries|);
    PinFirstClock(h, c, key, |c.entries|);
    PinFirstPins(h, c, key, |c.entries|);
    var need := Need(copies, |found|, free);
    InsertManyClock(h, c1, me, key, need, script, asked);
    InsertManyPins(h, c1, me, key, need, script, asked);
    var (c2, made) := InsertMany(h, c1, me, key, need, script, asked);
    UsedBoth(c.time, c1.time, c1, c2, found, made);
  }
}
