/** src/locked_dataset.hpp: a pair of GDAL handles with a mutex and a use count, as one thread at a time sees it. */
module LockedDatasets {
  import opened Types

  const ATTEMPT_SUCCESSFUL: int := 0x7fff_ffff
  const DATASET_LOCKED: int := -0x8000_0000
  const CPLE_OBJECT_NULL: int := 10

  /** How one operation on one dataset ends; `errno` is what `get_last_errno` answers, below 100. */
  datatype Result = Busy | Done | Failed(errno: nat)

  /** What the operation returns: the TRYLOCK, SUCCESS and FAILURE macros. */
  function Code(r: Result): int {
    match r
    case Busy => DATASET_LOCKED
    case Done => ATTEMPT_SUCCESSFUL
    case Failed(errno) => if errno == 0 then -CPLE_OBJECT_NULL else 0 - errno
  }

  /** What becomes of one attempt to open and warp a dataset. */
  datatype OpenResult = Opens | Fails | WarpFails

  /** GDAL as an oracle: `script` fixes the outcome of every attempt; handles are numbered as they are issued. */
  class Gdal {
    const script: nat -> OpenResult
    var asked: nat
    var issued: nat
    var open: set<nat>

    constructor (script: nat -> OpenResult)
      ensures this.script == script && asked == 0 && issued == 0 && open == {}
    {
      this.script := script;
      asked, issued, open := 0, 0, {};
    }

    method Issue() returns (handle: nat)
      modifies this`issued, this`open
      ensures handle == old(issued) && issued == old(issued) + 1 && open == old(open) + {handle}
    {
      handle := issued;
      issued := issued + 1;
      open := open + {handle};
    }

    method Close(handle: nat)
      modifies this`open
      ensures open == old(open) - {handle}
    {
      open := open - {handle};
    }
  }

  /** The mutex of a `locked_dataset` is `holder`: the thread that has locked it, if any. */
  class LockedDataset {
    var source: Option<nat>
    var warped: Option<nat>
    var key: Key
    var holder: Option<nat>
    var uses: nat

    /** `valid()` */
    predicate Loaded()
      reads this
    {
      source.Some? && warped.Some?
    }

    constructor ()
      ensures source == warped == None && key == EMPTY_KEY && holder == None && uses == 0
    {
      source, warped, key, holder, uses := None, None, EMPTY_KEY, None, 0;
    }

    /** A dataset for a key: loaded and unlocked if GDAL opens it, otherwise not loaded.  A failed
        warp leaves the source handle open and the mutex free; any other failure keeps the mutex. */
    constructor ForKey(me: nat, gdal: Gdal, key: Key)
      modifies gdal
      ensures this.key == key && uses == 0 && gdal.asked == old(gdal.asked) + 1
      ensures match gdal.script(old(gdal.asked))
        case Opens =>
          && source == Some(old(gdal.issued)) && warped == Some(old(gdal.issued) + 1) && holder == None
          && gdal.issued == old(gdal.issued) + 2 && gdal.open == old(gdal.open) + {old(gdal.issued), old(gdal.issued) + 1}
        case Fails =>
          source == warped == None && holder == Some(me) && gdal.issued == old(gdal.issued) && gdal.open == old(gdal.open)
        case WarpFails =>
          && source == Some(old(gdal.issued)) && warped == None && holder == None
          && gdal.issued == old(gdal.issued) + 1 && gdal.open == old(gdal.open) + {old(gdal.issued)}
    {
      source, warped, this.key, holder, uses := None, None, key, None, 0;
      new;
      Open(me, gdal);
    }

    method Open(me: nat, gdal: Gdal)
      requires source == warped == None && holder == None
      modifies this`source, this`warped, this`holder, gdal
      ensures gdal.asked == old(gdal.asked) + 1
      ensures match gdal.script(old(gdal.asked))
        case Opens =>
          && source == Some(old(gdal.issued)) && warped == Some(old(gdal.issued) + 1) && holder == None
          && gdal.issued == old(gdal.issued) + 2 && gdal.open == old(gdal.open) + {old(gdal.issued), old(gdal.issued) + 1}
        case Fails =>
          source == warped == None && holder == Some(me) && gdal.issued == old(gdal.issued) && gdal.open == old(gdal.open)
        case WarpFails =>
          && source == Some(old(gdal.issued)) && warped == None && holder == None
          && gdal.issued == old(gdal.issued) + 1 && gdal.open == old(gdal.open) + {old(gdal.issued)}
    {
      holder := Some(me);
      var result := gdal.script(gdal.asked);
      gdal.asked := gdal.asked + 1;
      if result.Fails? {
        return;  // the mutex stays locked
      }
      var h := gdal.Issue();
      source := Some(h);
      if result.Opens? {
        h := gdal.Issue();
        warped := Some(h);
      }
      // the check that follows the warp looks at the source again, so it never fires
      holder := None;
    }

    method Inc()
      modifies this`uses
      ensures uses == old(uses) + 1
    {
      uses := uses + 1;
    }

    /** The shape of every operation: TRYLOCK, call GDAL, UNLOCK, and SUCCESS or FAILURE; `errno` is
        what `get_last_errno` answers if the call fails.  On no path does the mutex stay locked. */
    method Attempt(me: nat, errno: Option<nat>) returns (code: int)
      modifies this`holder
      ensures holder == old(holder)
      ensures code == Code(if old(holder).Some? then Busy else if errno == None then Done else Failed(errno.value))
      ensures old(holder).Some? ==> code == -0x8000_0000
      ensures old(holder) == None && errno == None ==> code == 0x7fff_ffff
      ensures old(holder) == None && errno.Some? ==> code == if errno.value == 0 then -10 else 0 - errno.value
    {
      if holder.Some? {
        return DATASET_LOCKED;
      }
      holder := Some(me);
      Unlock(me);
      if errno == None {
        return ATTEMPT_SUCCESSFUL;
      } else if errno.value == 0 {
        return -CPLE_OBJECT_NULL;
      } else {
        return 0 - errno.value;
      }
    }

    /** Only a thread that holds a reference gives one back. */
    method Dec()
      requires uses > 0
      modifies this`uses
      ensures uses == old(uses) - 1
    {
      uses := uses - 1;
    }

    /** UNLOCK: an error-checking mutex ignores a thread that does not hold it. */
    method Unlock(me: nat)
      modifies this`holder
      ensures holder == if old(holder) == Some(me) then None else old(holder)
    {
      if holder == Some(me) {
        holder := None;
      }
    }

    method LockForDeletion(me: nat) returns (ok: bool)
      modifies this`holder
      ensures ok == (old(holder) == None && uses == 0)
      ensures holder == if ok then Some(me) else old(holder)
    {
      if holder.Some? {
        return false;
      }
      holder := Some(me);
      if uses != 0 {
        Unlock(me);
        return false;
      }
      return true;
    }

    /** The destructor, and the first half of a move: a half-open dataset is not closed. */
    method Close(gdal: Gdal)
      modifies this`source, this`warped, gdal`open
      ensures if old(source).Some? && old(warped).Some?
              then source == warped == None && gdal.open == old(gdal.open) - {old(source).value, old(warped).value}
              else source == old(source) && warped == old(warped) && gdal.open == old(gdal.open)
    {
      if source.Some? && warped.Some? {
        gdal.Close(warped.value);
        gdal.Close(source.value);
        source, warped := None, None;
      }
    }

    /** Move assignment: closes what was here, takes what is there, and unlocks.  If an assertion
        about the use counts fails, the process ends there: `ok` is false, and nothing has changed. */
    method MoveFrom(me: nat, gdal: Gdal, rhs: LockedDataset) returns (ok: bool)
      requires rhs != this
      modifies this`source, this`warped, this`key, this`holder, rhs`source, rhs`warped, gdal`open
      ensures ok == (uses == 0 && rhs.uses == 0)
      ensures ok ==>
        && source == old(rhs.source) && warped == old(rhs.warped) && key == old(rhs.key)
        && rhs.source == rhs.warped == None
        && holder == (if old(holder) == Some(me) then None else old(holder))
        && gdal.open == old(gdal.open) - (if old(source).Some? && old(warped).Some? then {old(source).value, old(warped).value} else {})
      ensures !ok ==>
        && source == old(source) && warped == old(warped) && key == old(key) && holder == old(holder)
        && rhs.source == old(rhs.source) && rhs.warped == old(rhs.warped) && gdal.open == old(gdal.open)
    {
      if uses != 0 || rhs.uses != 0 {
        return false;
      }
      Close(gdal);
      source, rhs.source := rhs.source, None;
      warped, rhs.warped := rhs.warped, None;
      key := rhs.key;
      Unlock(me);
      return true;
    }
  }

  /** A failed warp: the destructor of the dataset that is thrown away does not give the source handle back. */
  method WarpFailureLosesSource(me: nat, gdal: Gdal, key: Key)
    requires gdal.script(gdal.asked).WarpFails?
    modifies gdal
    ensures gdal.open == old(gdal.open) + {old(gdal.issued)}
  {
    var ds := new LockedDataset.ForKey(me, gdal, key);
    ds.Close(gdal);
  }
}
