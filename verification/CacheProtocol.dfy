/**
 The dataset cache as any number of threads run it, one atomic action at a time.

 A thread calls `get` (src/flat_lru_cache.hpp), applies its operation to the returned datasets as
 the TRY macro does (src/bindings.cpp), and may go round again as DOIT does.  Between two actions
 of one thread any other thread may act.  GDAL is an oracle: an open either fails, or loses its
 source in a failed warp, or yields two fresh handles.  What must never happen (closing or using a
 handle that is not open, an UNLOCK by a thread that does not hold the mutex, a failing assertion,
 an operation on a dataset of another key) is recorded in `faults` instead of being forbidden.
 */
module CacheProtocol {
  import opened Types

  datatype Pair = Pair(source: nat, warped: nat)

  /** A `locked_dataset` together with its entries in `m_tags` and `m_atimes`. */
  datatype Slot = Slot(tag: Word, key: Key, ds: Option<Pair>, atime: nat, mutex: Option<nat>, uses: int)

  const EMPTY_SLOT: Slot := Slot(0, EMPTY_KEY, None, 0, None, 0)

  /** `asksEmpty`: whether any caller ever asks for the key of an empty slot; `quietClears`: whether
      `clear` is called only while nobody holds a reference. */
  datatype Config = Config(capacity: nat, hash: string -> Word, asksEmpty: bool, quietClears: bool)

  /** Where a thread stands; a comment gives the lines about to be executed. */
  datatype Pc =
    | Idle
    | AwaitRead                                             // rdlock in `get`
    | Scan(i: nat)                                          // head of the pinning loop
    | Tick(i: nat)                                          // ++m_time after a match
    | Stamp(i: nat, drawn: nat)                             // m_atimes[i] = the drawn time
    | AwaitWrite(need: nat)                                 // wrlock in `get`
    | TryWrite(need: nat)                                   // trywrlock in `get`
    | Insert(need: nat)                                     // head of either inserting loop
    | Hunt(need: nat, i: nat, best: Option<nat>)            // head of the victim scan
    | Probe(need: nat, i: nat, best: Option<nat>)           // slot i is locked, its use count not yet read
    | Unprobe(need: nat, i: nat, best: Option<nat>)         // slot i turned out to be in use
    | Drop(need: nat, i: nat, prev: nat)                      // slot i is better than the previous best
    | Open(need: nat, victim: nat)                            // construct the new dataset
    | Retag(need: nat, victim: nat, pair: Pair)              // m_tags and m_atimes of the victim
    | Close(need: nat, victim: nat, pair: Pair)              // move assignment: assertions and close()
    | Move(need: nat, victim: nat, pair: Pair)               // move assignment: handles and key
    | Release(need: nat, victim: nat)                         // move assignment: UNLOCK
    | Pin(need: nat, victim: nat)                             // m_size++, inc() and push_back
    | Use                                                   // head of the TRY loop
    | Looked                                                // get_pixels after its early band lookup
    | InOp                                                  // between TRYLOCK and UNLOCK
    | Dec                                                   // ld->dec()
    | AwaitClear                                            // wrlock in `clear`
    | Clear(i: nat)                                         // head of the loop in `clear`

  /** `pending` holds the references not yet given back, in the order TRY visits them. */
  datatype Thread = Thread(pc: Pc, key: Key, copies: int, pending: seq<nat>, done: bool)

  const RESTING: Thread := Thread(Idle, EMPTY_KEY, 0, [], false)

  datatype Fault = BadClose | BadUse | BadUnlock | BadAssert | WrongKey

  /** GDAL's side: which handles it has given out are still open, and what it was asked for. */
  datatype Gdal = Gdal(open: seq<bool>, closes: nat, failedWarps: nat)

  /** `stuck` names the slots whose mutex a failed `insert` never gave back; the counters behind it are for accounting. */
  datatype State = State(
    slots: seq<Slot>, time: nat, size: nat, readers: set<nat>, writer: Option<nat>,
    threads: seq<Thread>, gdal: Gdal, faults: set<Fault>,
    stuck: set<nat>, failures: nat, inherited: nat)

  /** What the environment decides: requests, results of GDAL, and whether to go round again. */
  datatype Choice =
    | Go
    | Request(key: Key, copies: int)
    | BeginClear
    | Opened
    | OpenFailed
    | WarpFailed
    | Lookup
    | Finish(ok: bool)
    | Again
    | Return

  ghost predicate Init(c: Config, st: State) {
    && st.slots == seq(c.capacity, _ => EMPTY_SLOT)
    && (forall t :: 0 <= t < |st.threads| ==> st.threads[t] == RESTING)
    && st == State(st.slots, 0, 0, {}, None, st.threads, Gdal([], 0, 0), {}, {}, 0, 0)
  }

  // ----- single actions -----

  function Goto(st: State, t: nat, pc: Pc): State
    requires t < |st.threads|
  {
    st.(threads := st.threads[t := st.threads[t].(pc := pc)])
  }

  function Put(st: State, s: nat, x: Slot): State
    requires s < |st.slots|
  {
    st.(slots := st.slots[s := x])
  }

  /** UNLOCK on an error-checking mutex: without effect unless the caller holds it. */
  function Unlock(st: State, t: nat, s: nat): State
    requires s < |st.slots|
  {
    if st.slots[s].mutex == Some(t) then Put(st, s, st.slots[s].(mutex := None))
    else st.(faults := st.faults + {BadUnlock})
  }

  predicate Matches(c: Config, slot: Slot, key: Key) {
    slot.tag == Tag(c.hash, key) && slot.key == key
  }

  predicate PairOpen(gdal: Gdal, p: Pair) {
    p.source < |gdal.open| && p.warped < |gdal.open| && gdal.open[p.source] && gdal.open[p.warped]
  }

  /** The faults of letting a thread that asked for `key` work on a slot. */
  function Misuse(st: State, key: Key, slot: Slot): set<Fault> {
    (if slot.ds.Some? && PairOpen(st.gdal, slot.ds.value) then {} else {BadUse})
    + (if slot.key == key then {} else {WrongKey})
  }

  /** `close()`: both handles, if there are any. */
  function CloseDs(st: State, ds: Option<Pair>): State {
    if ds.None? then st
    else if PairOpen(st.gdal, ds.value) && ds.value.source != ds.value.warped then
      st.(gdal := st.gdal.(open := st.gdal.open[ds.value.source := false][ds.value.warped := false],
                           closes := st.gdal.closes + 2))
    else st.(faults := st.faults + {BadClose})
  }

  /** What `get` does once the read lock is released and `m` matches are pinned. */
  function AfterScan(copies: int, m: nat): Pc {
    var hard := if copies < 0 then 1 else copies;
    if hard > 0 && m < hard then AwaitWrite(hard - m)
    else if copies <= 0 && m < -copies then TryWrite(-copies - m)
    else Use
  }

  predicate InBounds(st: State, t: nat)
    requires t < |st.threads|
  {
    var th := st.threads[t];
    && (forall j :: 0 <= j < |th.pending| ==> th.pending[j] < |st.slots|)
    && match th.pc
       case Stamp(i, _) => i < |st.slots|
       case Hunt(need, _, best) => need > 0 && (best.Some? ==> best.value < |st.slots|)
       case Probe(need, i, best) => need > 0 && i < |st.slots| && (best.Some? ==> best.value < |st.slots|)
       case Unprobe(need, i, best) => need > 0 && i < |st.slots| && (best.Some? ==> best.value < |st.slots|)
       case Drop(need, i, b) => need > 0 && i < |st.slots| && b < |st.slots|
       case Open(need, b) => need > 0 && b < |st.slots|
       case Retag(need, b, _) => need > 0 && b < |st.slots|
       case Close(need, b, _) => need > 0 && b < |st.slots|
       case Move(need, b, _) => need > 0 && b < |st.slots|
       case Release(need, b) => need > 0 && b < |st.slots|
       case Pin(need, b) => need > 0 && b < |st.slots|
       case Looked => th.pending != []
       case InOp => th.pending != []
       case Dec => th.pending != []
       case _ => true
  }

  /** Only the three lock acquisitions can make a thread wait, or its caller's care with `clear`. */
  predicate Blocked(c: Config, st: State, t: nat)
    requires t < |st.threads|
  {
    match st.threads[t].pc
    case AwaitRead => st.writer.Some?
    case AwaitWrite(_) => st.writer.Some? || st.readers != {}
    case AwaitClear => st.writer.Some? || st.readers != {} || (c.quietClears && !Quiescent(st))
    case _ => false
  }

  predicate Quiescent(st: State) {
    forall u :: 0 <= u < |st.threads| ==> st.threads[u].pending == []
  }

  predicate Allowed(c: Config, st: State, t: nat, ch: Choice)
    requires t < |st.threads|
  {
    var th := st.threads[t];
    match th.pc
    case Idle => ch.BeginClear? || (ch.Request? && (c.asksEmpty || ch.key != EMPTY_KEY))
    case Open(_, _) => ch.Opened? || ch.OpenFailed? || ch.WarpFailed?
    case Use =>
      if th.pending == [] then (ch.Again? && !th.done) || ch.Return?
      else ch.Go? || (ch.Lookup? && !th.done)
    case InOp => ch.Finish?
    case _ => ch.Go?
  }

  predicate Enabled(c: Config, st: State, t: nat, ch: Choice) {
    t < |st.threads| && InBounds(st, t) && !Blocked(c, st, t) && Allowed(c, st, t, ch)
  }

  /** The pinning scan, under the read lock. */
  function ApplyScan(c: Config, st: State, t: nat): State
    requires t < |st.threads| && InBounds(st, t)
  {
    var th := st.threads[t];
    match th.pc
    case AwaitRead => Goto(st, t, Scan(0)).(readers := st.readers + {t})
    case Scan(i) =>
      if i < |st.slots| then
        if Matches(c, st.slots[i], th.key) then
          var slot := st.slots[i];
          Put(st, i, slot.(uses := slot.uses + 1)).(
            threads := st.threads[t := th.(pc := Tick(i), pending := th.pending + [i])])
        else Goto(st, t, Scan(i + 1))
      else Goto(st, t, AfterScan(th.copies, |th.pending|)).(readers := st.readers - {t})
    case Tick(i) => Goto(st, t, Stamp(i, st.time + 1)).(time := st.time + 1)
    case Stamp(i, drawn) => Put(Goto(st, t, Scan(i + 1)), i, st.slots[i].(atime := drawn))
    case _ => st
  }

  /** Taking the write lock and hunting for a victim. */
  function ApplyHunt(st: State, t: nat): State
    requires t < |st.threads| && InBounds(st, t)
  {
    match st.threads[t].pc
    case AwaitWrite(need) => Goto(st, t, Insert(need)).(writer := Some(t))
    case TryWrite(need) =>
      if st.writer.None? && st.readers == {} then Goto(st, t, Insert(need)).(writer := Some(t))
      else Goto(st, t, Use)
    case Insert(need) =>
      if need == 0 then Goto(st, t, Use).(writer := None)
      else Goto(st, t, Hunt(need, 0, None))
    case Hunt(need, i, best) =>
      if i < |st.slots| then
        if (best.None? || st.slots[i].atime < st.slots[best.value].atime) && st.slots[i].mutex.None? then
          Put(Goto(st, t, Probe(need, i, best)), i, st.slots[i].(mutex := Some(t)))
        else Goto(st, t, Hunt(need, i + 1, best))
      else if best.None? then Goto(st, t, Insert(need - 1))
      else Goto(st, t, Open(need, best.value))
    case Probe(need, i, best) =>
      if st.slots[i].uses != 0 then Goto(st, t, Unprobe(need, i, best))
      else if best.None? then Goto(st, t, Hunt(need, i + 1, Some(i)))
      else Goto(st, t, Drop(need, i, best.value))
    case Unprobe(need, i, best) => Unlock(Goto(st, t, Hunt(need, i + 1, best)), t, i)
    case Drop(need, i, best) => Unlock(Goto(st, t, Hunt(need, i + 1, Some(i))), t, best)
    case _ => st
  }

  /** Opening the new dataset and moving it into the victim. */
  function ApplyInstall(c: Config, st: State, t: nat, ch: Choice): State
    requires t < |st.threads| && InBounds(st, t)
  {
    var th := st.threads[t];
    match th.pc
    case Open(need, best) =>
      var n := |st.gdal.open|;
      if ch.Opened? then
        Goto(st, t, Retag(need, best, Pair(n, n + 1))).(gdal := st.gdal.(open := st.gdal.open + [true, true]))
      else
        // the victim stays locked
        var failed := Goto(st, t, Insert(need - 1)).(stuck := st.stuck + {best}, failures := st.failures + 1);
        if ch.WarpFailed? then
          failed.(gdal := st.gdal.(open := st.gdal.open + [true], failedWarps := st.gdal.failedWarps + 1))
        else failed
    case Retag(need, best, pair) =>
      Put(Goto(st, t, Close(need, best, pair)), best,
          st.slots[best].(tag := Tag(c.hash, th.key), atime := st.time + 1)).(time := st.time + 1)
    case Close(need, best, pair) =>
      var checked := if st.slots[best].uses == 0 then st else st.(faults := st.faults + {BadAssert});
      Put(Goto(CloseDs(checked, st.slots[best].ds), t, Move(need, best, pair)), best, st.slots[best].(ds := None))
    case Move(need, best, pair) =>
      Put(Goto(st, t, Release(need, best)), best, st.slots[best].(ds := Some(pair), key := th.key))
    case Release(need, best) => Unlock(Goto(st, t, Pin(need, best)), t, best)
    case Pin(need, best) =>
      Put(st, best, st.slots[best].(uses := st.slots[best].uses + 1)).(
        size := st.size + 1,
        threads := st.threads[t := th.(pc := Insert(need - 1), pending := th.pending + [best])])
    case _ => st
  }

  /** The TRY loop over the pinned datasets. */
  function ApplyUse(st: State, t: nat, ch: Choice): State
    requires t < |st.threads| && InBounds(st, t)
  {
    var th := st.threads[t];
    match th.pc
    case Use =>
      if th.pending == [] then
        if ch.Again? then Goto(st, t, AwaitRead)
        else st.(threads := st.threads[t := RESTING])
      else if th.done then Goto(st, t, Dec)
      else if ch.Lookup? then
        Goto(st, t, Looked).(faults := st.faults + Misuse(st, th.key, st.slots[th.pending[0]]))
      else TryLock(st, t)
    case Looked => TryLock(st, t)
    case InOp =>
      var s := th.pending[0];
      Unlock(st.(threads := st.threads[t := th.(pc := Dec, done := ch.Finish? && ch.ok)],
                 faults := st.faults + Misuse(st, th.key, st.slots[s])), t, s)
    case Dec =>
      var s := th.pending[0];
      Put(st, s, st.slots[s].(uses := st.slots[s].uses - 1)).(
        threads := st.threads[t := th.(pc := Use, pending := th.pending[1..])])
    case _ => st
  }

  /** TRYLOCK and the use of the handles that follows it; they are in use until the UNLOCK. */
  function TryLock(st: State, t: nat): State
    requires t < |st.threads| && InBounds(st, t) && st.threads[t].pending != []
  {
    var th := st.threads[t];
    var s := th.pending[0];
    if st.slots[s].mutex.Some? then Goto(st, t, Dec)
    else Put(Goto(st, t, InOp), s, st.slots[s].(mutex := Some(t))).(faults := st.faults + Misuse(st, th.key, st.slots[s]))
  }

  /** `clear`, one slot at a time; the result of `lock_for_deletion` is ignored. */
  function ApplyClear(st: State, t: nat): State
    requires t < |st.threads| && InBounds(st, t)
  {
    match st.threads[t].pc
    case AwaitClear => Goto(st, t, Clear(0)).(writer := Some(t))
    case Clear(i) =>
      if i < |st.slots| then
        var slot := st.slots[i];
        var mine := slot.mutex.None? || slot.mutex == Some(t);
        var checked := if slot.uses == 0 then st else st.(faults := st.faults + {BadAssert});
        var closed := CloseDs(checked, slot.ds);
        Put(Goto(closed, t, Clear(i + 1)), i,
            Slot(0, EMPTY_KEY, None, 0, if mine then None else slot.mutex, slot.uses)).(
          size := 0, stuck := if mine then st.stuck - {i} else st.stuck)
      else st.(threads := st.threads[t := RESTING], writer := None, failures := 0, inherited := |st.stuck|)
    case _ => st
  }

  /** A request, or a call of `clear`. */
  function ApplyIdle(st: State, t: nat, ch: Choice): State
    requires t < |st.threads|
  {
    if ch.Request? then st.(threads := st.threads[t := Thread(AwaitRead, ch.key, ch.copies, [], false)])
    else Goto(st, t, AwaitClear)
  }

  datatype Phase = Resting | Scanning | Hunting | Installing | Using | Clearing

  function PhaseOf(pc: Pc): Phase {
    match pc
    case Idle => Resting
    case AwaitRead => Scanning
    case Scan(_) => Scanning
    case Tick(_) => Scanning
    case Stamp(_, _) => Scanning
    case AwaitWrite(_) => Hunting
    case TryWrite(_) => Hunting
    case Insert(_) => Hunting
    case Hunt(_, _, _) => Hunting
    case Probe(_, _, _) => Hunting
    case Unprobe(_, _, _) => Hunting
    case Drop(_, _, _) => Hunting
    case Open(_, _) => Installing
    case Retag(_, _, _) => Installing
    case Close(_, _, _) => Installing
    case Move(_, _, _) => Installing
    case Release(_, _) => Installing
    case Pin(_, _) => Installing
    case AwaitClear => Clearing
    case Clear(_) => Clearing
    case _ => Using
  }

  function Apply(c: Config, st: State, t: nat, ch: Choice): State
    requires Enabled(c, st, t, ch)
  {
    match PhaseOf(st.threads[t].pc)
    case Resting => ApplyIdle(st, t, ch)
    case Scanning => ApplyScan(c, st, t)
    case Hunting => ApplyHunt(st, t)
    case Installing => ApplyInstall(c, st, t, ch)
    case Using => ApplyUse(st, t, ch)
    case Clearing => ApplyClear(st, t)
  }

  ghost predicate Next(c: Config, st: State, st': State) {
    exists t, ch :: Enabled(c, st, t, ch) && st' == Apply(c, st, t, ch)
  }

  /** A run from an initial state; any number of threads, any interleaving, any behaviour of GDAL. */
  ghost predicate IsRun(c: Config, run: seq<State>) {
    && run != []
    && Init(c, run[0])
    && forall k :: 0 <= k < |run| - 1 ==> Next(c, run[k], run[k + 1])
  }
}
