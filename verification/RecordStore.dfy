/**
 * The per-thread record files (assist/record_store.py): each operation reads a thread's
 * list, changes it and replaces the file.
 */
module RecordStore {
  import opened Common

  datatype Outcome<T> = Stored(record: T) | Removed | CapExceeded | NotFound

  function Index<T>(recs: seq<T>, idOf: T -> string, id: string, i: nat): (r: nat)
    requires i <= |recs|
    ensures i <= r <= |recs|
    ensures r < |recs| ==> idOf(recs[r]) == id
    ensures forall j :: i <= j < r ==> idOf(recs[j]) != id
    decreases |recs| - i
  {
    if i == |recs| || idOf(recs[i]) == id then i else Index(recs, idOf, id, i + 1)
  }

  /** The records without those of one id, in order. */
  function Without<T>(recs: seq<T>, idOf: T -> string, id: string): (r: seq<T>)
    ensures |r| <= |recs|
    ensures forall x :: x in r ==> idOf(x) != id
    ensures |r| == |recs| <==> forall i :: 0 <= i < |recs| ==> idOf(recs[i]) != id
    ensures |r| == |recs| ==> r == recs
  {
    if recs == [] then []
    else
      var k := |recs| - 1;
      assert recs == recs[..k] + [recs[k]];
      Without(recs[..k], idOf, id) + (if idOf(recs[k]) == id then [] else [recs[k]])
  }

  lemma {:induction false} WithoutKeepsOthers<T>(recs: seq<T>, idOf: T -> string, id: string, x: T)
    requires idOf(x) != id
    ensures multiset(Without(recs, idOf, id))[x] == multiset(recs)[x]
  {
    if recs != [] {
      var k := |recs| - 1;
      assert recs == recs[..k] + [recs[k]];
      WithoutKeepsOthers(recs[..k], idOf, id, x);
    }
  }

  /** And in their order: what is kept of a beginning is the beginning of what is kept. */
  lemma {:induction false} WithoutKeepsOrder<T>(recs: seq<T>, n: nat, idOf: T -> string, id: string)
    requires n <= |recs|
    ensures Without(recs[..n], idOf, id) <= Without(recs, idOf, id)
  {
    if n == |recs| {
      assert recs[..n] == recs;
    } else {
      var front := recs[..|recs| - 1];
      WithoutKeepsOrder(front, n, idOf, id);
      assert front[..n] == recs[..n];
      assert Without(front, idOf, id) <= Without(recs, idOf, id);
    }
  }

  class PerThreadJsonStore<T(==, !new)> {
    const idOf: T -> string
    const threadOf: T -> string
    const cap: nat
    var files: map<string, seq<T>>

    constructor (idOf: T -> string, threadOf: T -> string, cap: nat)
      ensures this.idOf == idOf && this.threadOf == threadOf && this.cap == cap && files == map[]
    {
      this.idOf, this.threadOf, this.cap, files := idOf, threadOf, cap, map[];
    }

    /** A missing file is an empty list. */
    function Read(tid: string): seq<T>
      reads this
    {
      if tid in files then files[tid] else []
    }

    method Add(rec: T) returns (r: Outcome<T>)
      modifies this`files
      ensures var recs := old(Read(threadOf(rec)));
              if cap > 0 && |recs| >= cap then r == CapExceeded && files == old(files)
              else r == Stored(rec) && files == old(files)[threadOf(rec) := recs + [rec]]
    {
      var recs := Read(threadOf(rec));
      if cap > 0 && |recs| >= cap {
        return CapExceeded;
      }
      recs := recs + [rec];
      files := files[threadOf(rec) := recs];
      r := Stored(rec);
    }

    /** Changes the first record with the id, and only that one. */
    method Update(tid: string, rid: string, change: T -> T) returns (r: Outcome<T>)
      modifies this`files
      ensures var recs := old(Read(tid));
              var k := Index(recs, idOf, rid, 0);
              if k == |recs| then r == NotFound && files == old(files)
              else r == Stored(change(recs[k])) && files == old(files)[tid := recs[k := change(recs[k])]]
    {
      var recs := Read(tid);
      for i := 0 to |recs|
        invariant Index(recs, idOf, rid, 0) == Index(recs, idOf, rid, i)
        invariant files == old(files)
      {
        if idOf(recs[i]) == rid {
          recs := recs[i := change(recs[i])];
          files := files[tid := recs];
          return Stored(recs[i]);
        }
      }
      r := NotFound;
    }

    method Remove(tid: string, rid: string) returns (r: Outcome<T>)
      modifies this`files
      ensures var recs := old(Read(tid));
              if forall i :: 0 <= i < |recs| ==> idOf(recs[i]) != rid then r == NotFound && files == old(files)
              else r == Removed && files == old(files)[tid := Without(recs, idOf, rid)]
      ensures forall x :: idOf(x) != rid ==> multiset(Read(tid))[x] == multiset(old(Read(tid)))[x]
    {
      var recs := Read(tid);
      var kept: seq<T> := [];
      for i := 0 to |recs|
        invariant kept == Without(recs[..i], idOf, rid)
      {
        assert recs[..i + 1][..i] == recs[..i];
        if idOf(recs[i]) != rid {
          kept := kept + [recs[i]];
        }
      }
      assert recs[..|recs|] == recs;
      if |kept| == |recs| {
        return NotFound;
      }
      forall x | idOf(x) != rid
        ensures multiset(kept)[x] == multiset(recs)[x]
      {
        WithoutKeepsOthers(recs, idOf, rid, x);
      }
      files := files[tid := kept];
      r := Removed;
    }
  }
}
