/**
 * The keyed JSON store of assist/keyed_store.py: what reading a file back means.
 * A file is the sequence of its entries, each a record or something malformed.
 */
module KeyedStore {

  datatype Entry<T> = Record(rec: T) | Malformed

  /** Record i is the last one with its key. */
  predicate LastOfKey<T(==)>(entries: seq<Entry<T>>, key: T -> string, i: int)
    requires 0 <= i < |entries|
  {
    entries[i].Record? &&
    forall j :: i < j < |entries| && entries[j].Record? ==> key(entries[j].rec) != key(entries[i].rec)
  }

  /** Record n has the key of record i. */
  predicate Displaces<T(==)>(entries: seq<Entry<T>>, key: T -> string, n: int, i: int)
    requires 0 <= i < n < |entries|
  {
    entries[i].Record? && entries[n].Record? && key(entries[n].rec) == key(entries[i].rec)
  }

  lemma OneMoreEntry<T>(entries: seq<Entry<T>>, key: T -> string, n: int, i: int)
    requires 0 <= i < n < |entries|
    ensures LastOfKey(entries[..n + 1], key, i)
            <==> LastOfKey(entries[..n], key, i) && !Displaces(entries, key, n, i)
  {
    var few, more := entries[..n], entries[..n + 1];
    assert forall j :: 0 <= j < n ==> few[j] == more[j];
    assert more[n] == entries[n];
  }

  /** `_load_raw`: records under their own keys, later ones winning; `dirty` when
      something was skipped. */
  method LoadRaw<T(==)>(entries: seq<Entry<T>>, key: T -> string)
    returns (out: map<string, T>, dirty: bool)
    ensures dirty <==> exists i :: 0 <= i < |entries| && entries[i].Malformed?
    ensures forall i :: 0 <= i < |entries| && LastOfKey(entries, key, i) ==>
              key(entries[i].rec) in out && out[key(entries[i].rec)] == entries[i].rec
    ensures forall k :: k in out ==> exists i :: 0 <= i < |entries| && LastOfKey(entries, key, i)
                                                 && key(entries[i].rec) == k && out[k] == entries[i].rec
  {
    out, dirty := map[], false;
    for n := 0 to |entries|
      invariant dirty <==> exists i :: 0 <= i < n && entries[i].Malformed?
      invariant forall i :: 0 <= i < n && LastOfKey(entries[..n], key, i) ==>
                  key(entries[i].rec) in out && out[key(entries[i].rec)] == entries[i].rec
      invariant forall k :: k in out ==> exists i :: 0 <= i < n && LastOfKey(entries[..n], key, i)
                                                     && key(entries[i].rec) == k && out[k] == entries[i].rec
    {
      ghost var was := out;
      assert entries[..n + 1][..n] == entries[..n];
      if entries[n].Malformed? {
        dirty := true;
      } else {
        out := out[key(entries[n].rec) := entries[n].rec];
        assert LastOfKey(entries[..n + 1], key, n);
      }
      forall i | 0 <= i < n
        ensures LastOfKey(entries[..n + 1], key, i)
                <==> LastOfKey(entries[..n], key, i) && !Displaces(entries, key, n, i)
      {
        OneMoreEntry(entries, key, n, i);
      }
      forall k | k in out
        ensures exists i :: 0 <= i < n + 1 && LastOfKey(entries[..n + 1], key, i)
                            && key(entries[i].rec) == k && out[k] == entries[i].rec
      {
        if !(entries[n].Record? && key(entries[n].rec) == k) {
          var i :| 0 <= i < n && LastOfKey(entries[..n], key, i) && key(entries[i].rec) == k
                   && was[k] == entries[i].rec;
          assert LastOfKey(entries[..n + 1], key, i);
        }
      }
    }
    assert entries[..|entries|] == entries;
  }

  /** `_write` lists each record of a map once. */
  ghost predicate Lists<T>(entries: seq<Entry<T>>, recs: map<string, T>) {
    && (forall i :: 0 <= i < |entries| ==> entries[i].Record? && entries[i].rec in recs.Values)
    && (forall k :: k in recs ==> Record(recs[k]) in entries)
    && (forall i, j :: 0 <= i < j < |entries| ==> entries[i] != entries[j])
  }

  /** A listed record stands under its own key. */
  lemma ListedUnderItsKey<T>(entries: seq<Entry<T>>, recs: map<string, T>, key: T -> string, i: nat)
    requires Lists(entries, recs) && (forall k :: k in recs ==> key(recs[k]) == k) && i < |entries|
    ensures key(entries[i].rec) in recs && recs[key(entries[i].rec)] == entries[i].rec
  {
    assert entries[i].rec in recs.Values;
    var k :| k in recs.Keys && recs[k] == entries[i].rec;
  }

  /** Reading back what was written under the records' own keys gives the same map,
      and nothing to clean up. */
  method ReadBack<T(==)>(entries: seq<Entry<T>>, key: T -> string, ghost recs: map<string, T>)
    returns (out: map<string, T>, dirty: bool)
    requires Lists(entries, recs) && forall k :: k in recs ==> key(recs[k]) == k
    ensures out == recs && !dirty
  {
    out, dirty := LoadRaw(entries, key);
    forall i | 0 <= i < |entries| ensures LastOfKey(entries, key, i) {
      forall j | i < j < |entries| ensures key(entries[j].rec) != key(entries[i].rec) {
        ListedUnderItsKey(entries, recs, key, i);
        ListedUnderItsKey(entries, recs, key, j);
      }
    }
    forall k | k in recs ensures k in out && out[k] == recs[k] {
      var i :| 0 <= i < |entries| && entries[i] == Record(recs[k]);
      assert LastOfKey(entries, key, i);
    }
    forall k | k in out ensures k in recs {
      var i :| 0 <= i < |entries| && LastOfKey(entries, key, i) && key(entries[i].rec) == k;
      ListedUnderItsKey(entries, recs, key, i);
    }
  }
}
