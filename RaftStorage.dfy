/** `InMemoryLogStorage` of `src/ai/backend/common/distributed/raft/storage.py`:
    the Raft log kept in a Python list that only ever grows. */
module RaftStorage {
  import opened Wrappers

  /** `storage[index]` with the `IndexError` caught: Python's indexing, where
      `-k` counts from the end, and `None` outside `-len <= index < len`. */
  function PyIndex<T>(s: seq<T>, index: int): Option<T> {
    if 0 <= index < |s| then Some(s[index])
    else if -|s| <= index < 0 then Some(s[|s| + index])
    else None
  }

  /** An index reads an entry exactly when it is in `-len <= index < len`. */
  lemma PyIndexDefined<T>(s: seq<T>, index: int)
    ensures PyIndex(s, index).Some? <==> -|s| <= index < |s|
  {
  }

  /** A negative index reads the same entry as its non-negative counterpart. */
  lemma PyIndexNegative<T>(s: seq<T>, k: int)
    requires 1 <= k <= |s|
    ensures PyIndex(s, -k) == PyIndex(s, |s| - k) == Some(s[|s| - k])
  {
  }

  /** Appending keeps what the non-negative indices of the old log read. */
  lemma PyIndexAppend<T>(s: seq<T>, es: seq<T>, i: int)
    requires 0 <= i < |s|
    ensures PyIndex(s + es, i) == PyIndex(s, i)
  {
  }

  /** After appending, the negative indices up to the number appended read
      the new entries. */
  lemma PyIndexAppendTail<T>(s: seq<T>, es: seq<T>, k: int)
    requires 1 <= k <= |es|
    ensures PyIndex(s + es, -k) == Some(es[|es| - k])
  {
    assert (s + es)[|s + es| - k] == es[|es| - k];
  }

  class InMemoryLogStorage<T> {
    var storage: seq<T>

    /** A fresh log is empty. */
    constructor ()
      ensures storage == []
    {
      storage := [];
    }

    /** `self._storage.extend(entries)`. */
    method AppendEntries(entries: seq<T>)
      modifies this
      ensures storage == old(storage) + entries
      ensures |storage| == |old(storage)| + |entries|
      ensures forall i :: 0 <= i < |old(storage)| ==> storage[i] == old(storage)[i]
    {
      storage := storage + entries;
    }

    /** `get(index)`: the entry Python's indexing finds, or `None`. */
    method Get(index: int) returns (r: Option<T>)
      ensures r == PyIndex(storage, index)
      ensures r.Some? <==> -|storage| <= index < |storage|
      ensures 0 <= index < |storage| ==> r == Some(storage[index])
      ensures -|storage| <= index < 0 ==> r == Some(storage[|storage| + index])
    {
      var n := |storage|;
      if index >= n || index < -n {
        return None;
      }
      var i := if index < 0 then n + index else index;
      r := Some(storage[i]);
    }

    /** `len(self._storage)`. */
    method Size() returns (n: nat)
      ensures n == |storage|
    {
      n := |storage|;
    }
  }
}
