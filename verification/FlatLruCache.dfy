/** src/flat_lru_cache.hpp over its three parallel vectors, run by one thread at a time. */
module FlatLruCaches {
  import opened Types
  import opened LruModel
  import opened LruProperties
  import opened LockedDatasets

  class FlatLruCache {
    const capacity: nat
    const hash: string -> Word
    const gdal: Gdal
    const tags: array<Word>
    const atimes: array<Word>
    const values: seq<LockedDataset>
    var time: Word
    var size: nat

    /** A new cache: default-constructed slots, none of them locked. */
    constructor (capacity: nat, hash: string -> Word, gdal: Gdal)
      ensures Valid() && this.capacity == capacity && this.hash == hash && this.gdal == gdal
      ensures fresh(tags) && fresh(atimes) && fresh(values)
      ensures Model() == Cache(seq(capacity, _ => Entry(0, 0, EMPTY_KEY, false, None, 0)), 0, 0)
    {
      this.capacity, this.hash, this.gdal := capacity, hash, gdal;
      time, size := 0, 0;
      var vs: seq<LockedDataset> := [];
      for i := 0 to capacity
        invariant |vs| == i && fresh(vs)
        invariant forall j, k :: 0 <= j < k < i ==> vs[j] != vs[k]
        invariant forall j :: 0 <= j < i ==> vs[j].source == vs[j].warped == None && vs[j].key == EMPTY_KEY && vs[j].holder == None && vs[j].uses == 0
      {
        var ld := new LockedDataset();
        vs := vs + [ld];
      }
      values := vs;
      tags := new Word[capacity](_ => 0);
      atimes := new Word[capacity](_ => 0);
      new;
      EntriesAre(seq(capacity, _ => Entry(0, 0, EMPTY_KEY, false, None, 0)));
    }

    ghost predicate Valid()
      reads this
    {
      && |values| == tags.Length == atimes.Length == capacity
      && tags != atimes
      && forall i, j :: 0 <= i < j < |values| ==> values[i] != values[j]
    }

    function EntryAt(i: nat): Entry
      requires Valid() && i < capacity
      reads this, tags, atimes, values
    {
      var ld := values[i];
      Entry(tags[i], atimes[i], ld.key, ld.Loaded(), ld.holder, ld.uses)
    }

    ghost function Entries(n: nat): (s: seq<Entry>)
      requires Valid() && n <= capacity
      reads this, tags, atimes, values
      ensures |s| == n && forall i :: 0 <= i < n ==> s[i] == EntryAt(i)
    {
      if n == 0 then [] else Entries(n - 1) + [EntryAt(n - 1)]
    }

    /** The cache as a value. */
    ghost function Model(): (c: Cache)
      requires Valid()
      reads this, tags, atimes, values
      ensures |c.entries| == capacity
    {
      Cache(Entries(capacity), time, size)
    }

    ghost function Script(): nat -> bool
    {
      (n: nat) => gdal.script(n).Opens?
    }

    method Contains(key: Key) returns (found: bool)
      requires Valid()
      ensures found <==> exists i :: 0 <= i < capacity && Matches(hash, EntryAt(i), key)
    {
      var tag := Tag(hash, key);
      for i := 0 to capacity
        invariant forall j :: 0 <= j < i ==> !Matches(hash, EntryAt(j), key)
      {
        if tags[i] == tag {
          if values[i].key == key {
            assert Matches(hash, EntryAt(i), key);
            return true;
          }
        }
      }
      return false;
    }

    method Count(key: Key) returns (result: nat)
      requires Valid()
      ensures result == |MatchingSlots(hash, Model().entries, key)|
    {
      var tag := Tag(hash, key);
      result := 0;
      ghost var seen: set<nat> := {};
      for i := 0 to capacity
        invariant seen == set j | 0 <= j < i && Matches(hash, EntryAt(j), key)
        invariant result == |seen|
      {
        if tags[i] == tag && values[i].key == key {
          result := result + 1;
          seen := seen + {i};
        }
      }
      assert seen == MatchingSlots(hash, Model().entries, key);
    }

    lemma EntriesAre(entries: seq<Entry>)
      requires Valid() && |entries| == capacity && forall j :: 0 <= j < capacity ==> EntryAt(j) == entries[j]
      ensures Model().entries == entries
    {
    }

    /** One match of the pinning loop of `get`. */
    method PinSlot(i: nat)
      requires Valid() && i < capacity
      modifies this`time, atimes, values`uses
      ensures Model() == Pin(old(Model()), i)
    {
      ghost var before := Model();
      values[i].Inc();
      time := Tick(time);
      atimes[i] := time;
      EntriesAre(before.entries[i := EntryAt(i)]);
    }

    /** The pinning loop of `get`. */
    method PinMatches(key: Key) returns (list: seq<nat>)
      requires Valid()
      modifies this`time, atimes, values`uses
      ensures (Model(), list) == PinFirst(hash, old(Model()), key, capacity)
    {
      hide Pin;
      var tag := Tag(hash, key);
      list := [];
      for i := 0 to capacity
        invariant (Model(), list) == PinFirst(hash, old(Model()), key, i)
      {
        assert Model().entries[i] == EntryAt(i);
        if tags[i] == tag && values[i].key == key {
          list := list + [i];
          PinSlot(i);
        }
      }
    }

    /** `EntryAt(j)` for every slot, if `best` is locked on top of what `entries` says. */
    ghost predicate Holding(me: nat, entries: seq<Entry>, best: int)
      requires Valid() && |entries| == capacity
      reads this, tags, atimes, values
    {
      forall j :: 0 <= j < capacity ==> EntryAt(j) == if j == best then entries[j].(holder := Some(me)) else entries[j]
    }

    /** Lock the better slot, then unlock the one that was best before. */
    method TakeOver(me: nat, i: nat, best: int, ghost entries: seq<Entry>) returns (ok: bool)
      requires Valid() && |entries| == capacity && Holding(me, entries, best) && -1 <= best < i < capacity
      requires best != -1 ==> entries[best].holder == None
      modifies values`holder
      ensures ok == (entries[i].holder == None && entries[i].uses == 0)
      ensures Holding(me, entries, if ok then i else best)
    {
      assert EntryAt(i) == entries[i];
      assert best != -1 ==> EntryAt(best).holder == Some(me);
      ok := values[i].LockForDeletion(me);
      if ok && best != -1 {
        values[best].Unlock(me);
      }
    }

    /** Where the scan stands: its two variables describe the victim among the first `i` slots. */
    static predicate ScannedTo(entries: seq<Entry>, i: nat, best: int, bestAtime: Word) {
      && -1 <= best < i <= |entries|
      && VictimOf(entries, i) == (if best == -1 then None else Some(best))
      && (if best == -1 then bestAtime == SENTINEL else Evictable(entries[best]) && bestAtime == entries[best].atime)
    }

    static lemma ScanOn(entries: seq<Entry>, i: nat, best: int, bestAtime: Word)
      requires i < |entries| && ScannedTo(entries, i, best, bestAtime)
      ensures if entries[i].atime < bestAtime && entries[i].holder == None && entries[i].uses == 0
              then ScannedTo(entries, i + 1, i, entries[i].atime)
              else ScannedTo(entries, i + 1, best, bestAtime)
    {
    }

    /** The victim scan of `insert`. */
    method LockVictim(me: nat) returns (best: int)
      requires Valid()
      modifies values`holder
      ensures -1 <= best < capacity
      ensures Victim(old(Model())) == if best == -1 then None else Some(best)
      ensures Holding(me, old(Model()).entries, best)
    {
      best := -1;
      var bestAtime: Word := SENTINEL;
      ghost var entries := Model().entries;
      for i := 0 to capacity
        invariant -1 <= best < i
        invariant ScannedTo(entries, i, best, bestAtime)
        invariant Holding(me, entries, best)
      {
        assert EntryAt(i).atime == entries[i].atime;
        ScanOn(entries, i, best, bestAtime);
        if atimes[i] < bestAtime {
          var ok := TakeOver(me, i, best, entries);
          if ok {
            best := i;
            bestAtime := atimes[i];
          }
        }
      }
    }

    /** Evict a victim and open a new dataset in its place; -1 if there is no victim or GDAL fails. */
    method Insert(me: nat, tag: Word, key: Key) returns (slot: int)
      requires Valid() && tag == Tag(hash, key)
      modifies this`time, this`size, tags, atimes, values, gdal
      ensures -1 <= slot < capacity
      ensures gdal.asked == old(gdal.asked) + Calls(old(Model()))
      ensures var opens := gdal.script(old(gdal.asked)).Opens?;
        match Victim(old(Model()))
        case None => slot == -1 && Model() == old(Model())
        case Some(v) =>
          if opens then
            && slot == v
            && Model() == Cache(old(Model()).entries[v := Entry(tag, Tick(old(time)), key, true, None, 0)], Tick(old(time)), old(size) + 1)
          else
            && slot == -1
            && Model() == old(Model()).(entries := old(Model()).entries[v := old(Model()).entries[v].(holder := Some(me))])
    {
      ghost var entries := Model().entries;
      VictimIsLeast(entries, capacity);
      slot := LockVictim(me);
      if slot == -1 {
        EntriesAre(entries);
      } else {
        slot := Replace(me, slot, tag, key, entries);
      }
    }

    /** The part of `insert` after the scan, with the victim locked. */
    method Replace(me: nat, best: nat, tag: Word, key: Key, ghost entries: seq<Entry>) returns (slot: int)
      requires Valid() && |entries| == capacity && best < capacity && Holding(me, entries, best) && entries[best].uses == 0
      modifies this`time, this`size, tags, atimes, values, gdal
      ensures gdal.asked == old(gdal.asked) + 1
      ensures if gdal.script(old(gdal.asked)).Opens? then
          && slot == best
          && Model() == Cache(entries[best := Entry(tag, Tick(old(time)), key, true, None, 0)], Tick(old(time)), old(size) + 1)
        else
          slot == -1 && Model() == Cache(entries[best := entries[best].(holder := Some(me))], old(time), old(size))
    {
      assert EntryAt(best).holder == Some(me) && EntryAt(best).uses == 0;
      var ds := new LockedDataset.ForKey(me, gdal, key);
      if ds.Loaded() {
        Install(me, best, tag, ds);
        slot := best;
        EntriesAre(entries[best := Entry(tag, Tick(old(time)), key, true, None, 0)]);
      } else {
        slot := -1;
        EntriesAre(entries[best := entries[best].(holder := Some(me))]);
      }
      ds.Close(gdal);
    }

    method Install(me: nat, best: nat, tag: Word, ds: LockedDataset)
      requires Valid() && best < capacity && ds !in values && ds.Loaded() && ds.uses == 0
      requires values[best].uses == 0 && values[best].holder == Some(me)
      modifies this`time, this`size, tags, atimes, values[best], ds`source, ds`warped, gdal`open
      ensures time == Tick(old(time)) && size == old(size) + 1
      ensures EntryAt(best) == Entry(tag, time, old(ds.key), true, None, 0)
      ensures forall j :: 0 <= j < capacity && j != best ==> EntryAt(j) == old(EntryAt(j))
      ensures ds.source == ds.warped == None
    {
      tags[best] := tag;
      time := Tick(time);
      atimes[best] := time;
      var ok := values[best].MoveFrom(me, gdal, ds);
      size := size + 1;
    }

    /** The body of the two loops that top up the list of `get`: insert, and pin what was inserted. */
    method InsertAndPin(me: nat, tag: Word, key: Key, list: seq<nat>) returns (longer: seq<nat>)
      requires Valid() && tag == Tag(hash, key)
      modifies this`time, this`size, tags, atimes, values, gdal
      ensures gdal.asked == old(gdal.asked) + Calls(old(Model()))
      ensures var (c, first) := InsertOne(hash, old(Model()), me, key, Script()(old(gdal.asked)));
        Model() == c && longer == list + first
    {
      ghost var before := Model();
      var slot := Insert(me, tag, key);
      longer := list;
      if slot != -1 {
        ghost var entries := Model().entries;
        values[slot].Inc();
        longer := list + [slot];
        EntriesAre(entries[slot := entries[slot].(uses := 1)]);
        assert entries[slot := entries[slot].(uses := 1)] == before.entries[slot := Entry(tag, Tick(before.time), key, true, None, 1)];
      }
    }

    /** Either of the two loops that top up the list of `get`. */
    method InsertLoop(me: nat, tag: Word, key: Key, need: nat, list: seq<nat>) returns (longer: seq<nat>)
      requires Valid() && tag == Tag(hash, key)
      modifies this`time, this`size, tags, atimes, values, gdal
      ensures var (c, made) := InsertMany(hash, old(Model()), me, key, need, Script(), old(gdal.asked));
        Model() == c && longer == list + made
      ensures gdal.asked == old(gdal.asked) + Min(need, |EvictableSlots(old(Model()).entries)|)
    {
      hide EvictableSlots;
      longer := list;
      var i: nat := need;
      ghost var goal := InsertMany(hash, Model(), me, key, need, Script(), gdal.asked);
      while i > 0
        invariant ToGo(me, key, i, longer) == (goal.0, list + goal.1)
        invariant gdal.asked + Min(i, |EvictableSlots(Model().entries)|) == old(gdal.asked) + Min(need, |EvictableSlots(old(Model()).entries)|)
      {
        OneUsedUp(hash, Model(), me, key, Script()(gdal.asked));
        ghost var before, c, asked := longer, Model(), gdal.asked;
        longer := InsertAndPin(me, tag, key, longer);
        OneLess(hash, c, me, key, i, Script(), asked, before);
        i := i - 1;
      }
    }

    /** What `i` more inserts will make of the cache and the list. */
    ghost function ToGo(me: nat, key: Key, i: nat, longer: seq<nat>): (Cache, seq<nat>)
      requires Valid()
      reads this, tags, atimes, values, gdal
    {
      var (c, rest) := InsertMany(hash, Model(), me, key, i, Script(), gdal.asked);
      (c, longer + rest)
    }

    static lemma OneLess(h: string -> Word, c: Cache, me: nat, key: Key, i: nat, script: nat -> bool, asked: nat, list: seq<nat>)
      requires i > 0
      ensures var (c1, first) := InsertOne(h, c, me, key, script(asked));
        var later := InsertMany(h, c1, me, key, i - 1, script, asked + Calls(c));
        var now := InsertMany(h, c, me, key, i, script, asked);
        now.0 == later.0 && list + now.1 == (list + first) + later.1
    {
    }

    /** The datasets for a key, by slot: every match, and new ones as far as `copies` asks for them.
        `free` says whether nobody else has the cache lock when it is tried. */
    method Get(me: nat, key: Key, copies: int, free: bool) returns (list: seq<nat>)
      requires Valid()
      modifies this`time, this`size, tags, atimes, values, gdal
      ensures (Model(), list) == LruModel.Get(hash, old(Model()), me, key, copies, free, Script(), old(gdal.asked))
    {
      var tag := Tag(hash, key);
      list := PinMatches(key);
      assert list + [] == list;
      var copies2 := if copies < 0 then 1 else copies;
      if copies2 > 0 && |list| < copies2 {
        list := InsertLoop(me, tag, key, copies2 - |list|, list);
      } else if copies <= 0 && |list| < -copies {
        if free {
          list := InsertLoop(me, tag, key, -copies - |list|, list);
        }
      }
    }

    /** `clear`, which ignores the result of `lock_for_deletion`.  It gets through if and only if nobody
        holds a reference; otherwise the process ends at the first slot that is referenced, `stop`. */
    method Clear(me: nat) returns (done: bool, ghost stop: nat)
      requires Valid()
      modifies this`size, tags, atimes, values, gdal`open
      ensures done <==> forall i :: 0 <= i < capacity ==> old(values[i].uses) == 0
      ensures stop <= capacity && (done <==> stop == capacity)
      ensures forall i :: 0 <= i < stop ==> EntryAt(i) == ClearedEntry(old(EntryAt(i)), me)
      ensures forall i :: 0 <= i < stop ==>
        EntryAt(i) == Entry(0, 0, EMPTY_KEY, false, if old(EntryAt(i)).holder == Some(me) then None else old(EntryAt(i)).holder, 0)
      ensures stop < capacity ==> old(values[stop].uses) != 0 && EntryAt(stop) == old(EntryAt(stop)).(tag := 0, atime := 0)
      ensures forall i :: stop < i < capacity ==> EntryAt(i) == old(EntryAt(i))
      ensures size == if stop > 0 then 0 else old(size)
    {
      stop := 0;
      for i := 0 to capacity
        invariant stop == i
        invariant forall j :: 0 <= j < i ==> EntryAt(j) == ClearedEntry(old(EntryAt(j)), me) && old(values[j].uses) == 0
        invariant forall j :: i <= j < capacity ==> EntryAt(j) == old(EntryAt(j))
        invariant size == if i > 0 then 0 else old(size)
      {
        assert EntryAt(i) == old(EntryAt(i));
        var ok := ClearSlot(me, i);
        if !ok {
          return false, stop;
        }
        stop := stop + 1;
      }
      done := true;
    }

    method ClearSlot(me: nat, i: nat) returns (ok: bool)
      requires Valid() && i < capacity
      modifies this`size, tags, atimes, values[i], gdal`open
      ensures ok == (old(values[i].uses) == 0)
      ensures EntryAt(i) == if ok then ClearedEntry(old(EntryAt(i)), me) else old(EntryAt(i)).(tag := 0, atime := 0)
      ensures forall j :: 0 <= j < capacity && j != i ==> EntryAt(j) == old(EntryAt(j))
      ensures size == if ok then 0 else old(size)
    {
      tags[i] := 0;
      atimes[i] := 0;
      var locked := values[i].LockForDeletion(me);
      var empty := new LockedDataset();
      ok := values[i].MoveFrom(me, gdal, empty);
      if ok {
        size := 0;
      }
    }
  }
}
