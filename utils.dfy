/** Utils.java, the parts that are state machines or comparisons: the
    reader/writer file-lock table, the per-thread errno, and the ordering
    of threads by id. */
module Utils {
  import opened Stg

  // ---------------------------------------------------------------------
  // File locks: key -> -1 (one writer) or n >= 1 (n readers)

  /** Every tracked key is held by one writer (-1) or by some readers. */
  predicate WellFormed<K>(table: map<K, int>)
  {
    forall k :: k in table ==> table[k] == -1 || table[k] >= 1
  }

  datatype LockResult<K> = LockResult(ok: bool, table: map<K, int>)

  /** `lockFile(key, forWriting)`. */
  function Lock<K>(table: map<K, int>, key: K, forWriting: bool): (r: LockResult<K>)
    ensures key !in table ==> r.ok && r.table == table[key := if forWriting then -1 else 1]
    ensures key in table && (forWriting || table[key] < 0) ==> !r.ok && r.table == table
    ensures key in table && !forWriting && table[key] >= 0 ==>
              r.ok && r.table == table[key := table[key] + 1]
  {
    if key !in table then LockResult(true, table[key := if forWriting then -1 else 1])
    else if forWriting || table[key] < 0 then LockResult(false, table)
    else LockResult(true, table[key := table[key] + 1])
  }

  /** `unlockFile(key)`. */
  function Unlock<K>(table: map<K, int>, key: K): (r: LockResult<K>)
    ensures key !in table <==> !r.ok
    ensures key !in table ==> r.table == table
    ensures r.table - {key} == table - {key}
  {
    if key !in table then LockResult(false, table)
    else
      var n := if table[key] < 0 then table[key] + 1 else table[key] - 1;
      if n == 0 then LockResult(true, table - {key})
      else LockResult(true, table[key := n])
  }

  /** Locking keeps every count at -1 or at least 1. */
  lemma LockPreservesWellFormed<K>(table: map<K, int>, key: K, forWriting: bool)
    requires WellFormed(table)
    ensures WellFormed(Lock(table, key, forWriting).table)
  {
  }

  /** Unlocking moves the count one step toward 0 and forgets the key when
      it gets there, so every count stays -1 or at least 1. */
  lemma UnlockPreservesWellFormed<K>(table: map<K, int>, key: K)
    requires WellFormed(table)
    ensures WellFormed(Unlock(table, key).table)
    ensures key in table && (table[key] == -1 || table[key] == 1) ==> key !in Unlock(table, key).table
    ensures key in table && table[key] > 1 ==> Unlock(table, key).table == table[key := table[key] - 1]
  {
  }

  /** A successful lock followed by an unlock of the same key gives back the
      table it started from. */
  lemma LockThenUnlockRestores<K>(table: map<K, int>, key: K, forWriting: bool)
    requires WellFormed(table)
    requires Lock(table, key, forWriting).ok
    ensures Unlock(Lock(table, key, forWriting).table, key) == LockResult(true, table)
  {
    var locked := Lock(table, key, forWriting).table;
    if key !in table {
      assert locked - {key} == table;
    } else {
      assert locked[key := table[key]] == table;
    }
  }

  /** A writer excludes everybody: once a write lock is taken, no other lock
      on that key is granted until it is released. */
  lemma WriterExcludes<K>(table: map<K, int>, key: K, forWriting: bool)
    requires Lock(table, key, true).ok
    ensures !Lock(Lock(table, key, true).table, key, forWriting).ok
  {
  }

  /** Readers share: while no writer holds the key, a read lock is always
      granted. */
  lemma ReadersShare<K>(table: map<K, int>, key: K)
    requires WellFormed(table)
    requires key !in table || table[key] != -1
    ensures Lock(table, key, false).ok
  {
  }

  /** The static `fileLocks` map with its two synchronized operations. */
  class FileLockTable<K(==)> {
    var fileLocks: map<K, int>

    constructor ()
      ensures fileLocks == map[]
    {
      fileLocks := map[];
    }

    method LockFile(key: K, forWriting: bool) returns (ok: bool)
      modifies this
      ensures LockResult(ok, fileLocks) == Lock(old(fileLocks), key, forWriting)
      ensures WellFormed(old(fileLocks)) ==> WellFormed(fileLocks)
    {
      if WellFormed(fileLocks) {
        LockPreservesWellFormed(fileLocks, key, forWriting);
      }
      if key !in fileLocks {
        var readers := if forWriting then -1 else 1;
        fileLocks := fileLocks[key := readers];
      } else {
        var readers := fileLocks[key];
        if forWriting || readers < 0 {
          return false;
        }
        fileLocks := fileLocks[key := readers + 1];
      }
      return true;
    }

    method UnlockFile(key: K) returns (ok: bool)
      modifies this
      ensures LockResult(ok, fileLocks) == Unlock(old(fileLocks), key)
      ensures WellFormed(old(fileLocks)) ==> WellFormed(fileLocks)
    {
      if WellFormed(fileLocks) {
        UnlockPreservesWellFormed(fileLocks, key);
      }
      if key !in fileLocks {
        return false;
      }
      var readers := fileLocks[key];
      var newReaders := 0;
      if readers < 0 {
        newReaders := readers + 1;
      } else {
        newReaders := readers - 1;
      }
      if newReaders == 0 {
        fileLocks := fileLocks - {key};
      } else {
        fileLocks := fileLocks[key := newReaders];
      }
      return true;
    }
  }

  // ---------------------------------------------------------------------
  // errno

  /** What `get_errno` reads for `thread`: the last value set, 0 if none. */
  function ErrnoOf<T>(values: map<T, int>, thread: T): (r: int)
    ensures thread !in values ==> r == 0
    ensures thread in values ==> r == values[thread]
  {
    if thread in values then values[thread] else 0
  }

  /** `get_errno` sees the last `set_errno` of the same thread, and nothing
      of any other thread. */
  lemma ErrnoIsPerThread<T>(values: map<T, int>, t: T, u: T, code: int)
    ensures ErrnoOf(values[t := code], t) == code
    ensures u != t ==> ErrnoOf(values[t := code], u) == ErrnoOf(values, u)
  {
  }

  /** The thread-local `errno`, as a map from threads to their values. */
  class Errno<T(==)> {
    var values: map<T, int>

    constructor ()
      ensures values == map[]
    {
      values := map[];
    }

    /** `initErrno`: store 0 for the thread unless it has a value. */
    method InitErrno(thread: T)
      modifies this
      ensures thread in values
      ensures values == if thread in old(values) then old(values) else old(values)[thread := 0]
      ensures forall u :: ErrnoOf(values, u) == ErrnoOf(old(values), u)
    {
      if thread !in values {
        values := values[thread := 0];
      }
    }

    /** `get_errno`: initialise, then read. */
    method GetErrno(thread: T) returns (r: int)
      modifies this
      ensures r == ErrnoOf(old(values), thread)
      ensures forall u :: ErrnoOf(values, u) == ErrnoOf(old(values), u)
    {
      InitErrno(thread);
      r := values[thread];
    }

    /** `set_errno`. */
    method SetErrno(thread: T, code: int)
      modifies this
      ensures values == old(values)[thread := code]
      ensures ErrnoOf(values, thread) == code
    {
      values := values[thread := code];
    }
  }

  // ---------------------------------------------------------------------
  // cmp_thread

  /** `cmp_thread`: 0, 1 or -1 as the first thread's id equals, exceeds or
      is below the second's. */
  function CmpThread(t1: Tso, t2: Tso): (r: int)
    ensures r == 0 <==> t1.id == t2.id
    ensures r == 1 <==> t1.id > t2.id
    ensures r == -1 <==> t1.id < t2.id
  {
    var id1 := t1.id;
    var id2 := t2.id;
    if id1 == id2 then 0
    else if id1 > id2 then 1
    else -1
  }

  /** The comparison is antisymmetric and transitive: a total order on ids. */
  lemma CmpThreadOrder(a: Tso, b: Tso, c: Tso)
    ensures CmpThread(a, b) == -CmpThread(b, a)
    ensures CmpThread(a, b) >= 0 && CmpThread(b, c) >= 0 ==> CmpThread(a, c) >= 0
    ensures CmpThread(a, b) == 0 <==> a == b
  {
  }
}
