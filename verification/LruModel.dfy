/** The cache as a value: what one call of `get`, `insert` or `clear` makes of it when it runs alone. */
module LruModel {
  import opened Types

  /** A slot: its entries in `m_tags` and `m_atimes`, and its `locked_dataset`. */
  datatype Entry = Entry(tag: Word, atime: Word, key: Key, loaded: bool, holder: Option<nat>, uses: nat)

  datatype Cache = Cache(entries: seq<Entry>, time: Word, size: nat)

  /** The initial `best_atime`, minus one converted to an unsigned number: no slot that old is ever evicted. */
  const SENTINEL: Word := WORD_SIZE - 1

  /** ++m_time */
  function Tick(time: Word): Word {
    Plus(time, 1)
  }

  // ----- pinning -----

  predicate Matches(h: string -> Word, e: Entry, key: Key) {
    e.tag == Tag(h, key) && e.key == key
  }

  function Pin(c: Cache, i: nat): Cache
    requires i < |c.entries|
  {
    var e := c.entries[i];
    Cache(c.entries[i := e.(uses := e.uses + 1, atime := Tick(c.time))], Tick(c.time), c.size)
  }

  /** The first `n` steps of the pinning loop, and the list they return. */
  function PinFirst(h: string -> Word, c: Cache, key: Key, n: nat): (r: (Cache, seq<nat>))
    requires n <= |c.entries|
    ensures |r.0.entries| == |c.entries|
  {
    if n == 0 then (c, [])
    else
      var (c', list) := PinFirst(h, c, key, n - 1);
      if Matches(h, c'.entries[n - 1], key) then (Pin(c', n - 1), list + [n - 1]) else (c', list)
  }

  // ----- eviction -----

  /** The slot can be locked for deletion, and its access time is below the sentinel. */
  predicate Evictable(e: Entry) {
    e.holder.None? && e.uses == 0 && e.atime < SENTINEL
  }

  /** The victim among the first `n` slots. */
  function VictimOf(entries: seq<Entry>, n: nat): (v: Option<nat>)
    requires n <= |entries|
    ensures v.Some? ==> v.value < n
  {
    if n == 0 then None
    else
      var v := VictimOf(entries, n - 1);
      if Evictable(entries[n - 1]) && (v.None? || entries[n - 1].atime < entries[v.value].atime) then Some(n - 1) else v
  }

  function Victim(c: Cache): Option<nat> {
    VictimOf(c.entries, |c.entries|)
  }

  /** One call of `insert`, followed by the `inc` of its caller; `opens` says whether GDAL opens the dataset. */
  function InsertOne(h: string -> Word, c: Cache, me: nat, key: Key, opens: bool): (r: (Cache, seq<nat>))
    ensures |r.0.entries| == |c.entries|
  {
    match Victim(c)
    case None => (c, [])
    case Some(v) =>
      if opens then
        (Cache(c.entries[v := Entry(Tag(h, key), Tick(c.time), key, true, None, 1)], Tick(c.time), c.size + 1), [v])
      else
        (c.(entries := c.entries[v := c.entries[v].(holder := Some(me))]), [])
  }

  /** How often GDAL is asked to open something: only when there is a victim. */
  function Calls(c: Cache): nat {
    if Victim(c).Some? then 1 else 0
  }

  /** `need` calls of `insert`; `script(n)` says whether the n-th open ever asked of GDAL succeeds. */
  function InsertMany(h: string -> Word, c: Cache, me: nat, key: Key, need: nat, script: nat -> bool, asked: nat): (r: (Cache, seq<nat>))
    ensures |r.0.entries| == |c.entries|
    decreases need
  {
    if need == 0 then (c, [])
    else
      var (c1, first) := InsertOne(h, c, me, key, script(asked));
      var (c2, rest) := InsertMany(h, c1, me, key, need - 1, script, asked + Calls(c));
      (c2, first + rest)
  }

  // ----- get -----

  /** How many inserts `get` tries when it has found `m` matches; `free`: whether trywrlock would succeed. */
  function Need(copies: int, m: nat, free: bool): nat {
    var hard := if copies < 0 then 1 else copies;
    if hard > 0 && m < hard then hard - m
    else if copies <= 0 && m < -copies && free then -copies - m
    else 0
  }

  function Get(h: string -> Word, c: Cache, me: nat, key: Key, copies: int, free: bool, script: nat -> bool, asked: nat): (Cache, seq<nat>) {
    var (c1, found) := PinFirst(h, c, key, |c.entries|);
    var (c2, made) := InsertMany(h, c1, me, key, Need(copies, |found|, free), script, asked);
    (c2, found + made)
  }

  // ----- clear -----

  /** UNLOCK and `lock_for_deletion` leave a mutex alone that another thread holds. */
  function ClearedEntry(e: Entry, me: nat): Entry {
    Entry(0, 0, EMPTY_KEY, false, if e.holder == Some(me) then None else e.holder, e.uses)
  }
}
