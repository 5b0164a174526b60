/**
 * The EgressStore class: two files that every mutation rewrites under the lock,
 * proved against the functions of `EgressStore`. `Files` says which writes work.
 */
module EgressFiles {
  import opened Common
  import S = EgressStore

  /** The records under these keys, in the order of the first `n` listed. */
  function Listed(recs: map<string, S.Request>, order: seq<string>, n: nat, keys: set<string>): seq<S.Request>
    requires n <= |order| && forall k :: k in order ==> k in recs
  {
    if n == 0 then []
    else Listed(recs, order, n - 1, keys) + (if order[n - 1] in keys then [recs[order[n - 1]]] else [])
  }

  lemma {:induction false} ListedNone(recs: map<string, S.Request>, order: seq<string>, n: nat)
    requires n <= |order| && forall k :: k in order ==> k in recs
    ensures Listed(recs, order, n, {}) == []
  {
    if n > 0 { ListedNone(recs, order, n - 1); }
  }

  lemma {:induction false} NothingListed(recs: map<string, S.Request>, order: seq<string>, n: nat, keys: set<string>)
    requires n <= |order| && forall k :: k in order ==> k in recs
    requires Listed(recs, order, n, keys) == []
    ensures forall i :: 0 <= i < n ==> order[i] !in keys
  {
    if n > 0 { NothingListed(recs, order, n - 1, keys); }
  }

  class EgressStore {
    var requests: map<string, S.Request>
    var projection: Option<map<string, S.Entry>>

    ghost function View(): S.Store
      reads this
    {
      S.Store(requests, projection)
    }

    constructor ()
      ensures View() == S.Store(map[], None)
    {
      requests, projection := map[], None;
    }

    /** Prune, persist, regenerate the projection whole; remove it if that fails. */
    method Mutate(recs: map<string, S.Request>, now: S.Time, f: S.Files) returns (ok: bool)
      modifies this
      ensures (View(), ok) == S.Mutate(old(View()), recs, now, f)
    {
      if !f.write { return false; }
      var live := map k | k in recs && S.Keeps(recs[k], now) :: recs[k];
      requests := live;
      if f.project {
        projection := Some(map k | k in live && live[k].state.Approved? :: S.EntryOf(live[k]));
        return true;
      }
      if f.remove {
        projection := None;
      }
      return false;
    }

    method AddPending(rec: S.Request, now: S.Time, f: S.Files) returns (r: S.Added)
      modifies this
      ensures (View(), r) == S.AddPending(old(View()), rec, now, f)
    {
      var pending := set k | k in requests && requests[k].state.Pending?;
      var mine := set k | k in requests && requests[k].state.Pending? && requests[k].tid == rec.tid;
      assert mine == S.PendingOf(requests, rec.tid) && pending == S.PendingIn(requests);
      if |mine| >= S.PER_THREAD_PENDING_CAP { return S.ThreadCap; }
      if |pending| >= S.GLOBAL_PENDING_CAP { return S.GlobalCap; }
      var ok := Mutate(requests[S.KeyOf(rec) := rec], now, f);
      r := if ok then S.Inserted else S.AddFailed;
    }

    method Resolve(key: string, decision: S.Decision, read: S.Time, now: S.Time, f: S.Files) returns (r: S.Resolved)
      modifies this
      ensures (View(), r) == S.Resolve(old(View()), key, decision, read, now, f)
    {
      if key !in requests || !requests[key].state.Pending? { return S.Unresolved; }
      var rec := requests[key];
      match decision {
        case Hour => rec := rec.(state := S.Approved, expires := S.Until(read + S.HOUR));
        case Always => rec := rec.(state := S.Approved, expires := S.RevokedOnly);
        case Decline => rec := rec.(state := S.Declined, expires := S.Odd);
        case Unknown => return S.Unresolved;
      }
      var ok := Mutate(requests[key := rec], now, f);
      r := if ok then S.Updated(rec) else S.ResolveFailed;
    }

    method Revoke(key: string, now: S.Time, f: S.Files) returns (r: S.Revoked)
      modifies this
      ensures (View(), r) == S.Revoke(old(View()), key, now, f)
    {
      if key !in requests || !requests[key].state.Approved? { return S.NothingRevoked; }
      var ok := Mutate(requests - {key}, now, f);
      r := if ok then S.GrantRevoked else S.RevokeFailed;
    }

    /** `order` is the order in which the file lists its records; the batch keeps it. */
    method TakeUndispatched(tid: string, read: S.Time, now: S.Time, f: S.Files, order: seq<string>)
      returns (batch: seq<S.Request>)
      requires forall k :: k in order <==> k in requests
      requires forall i, j :: 0 <= i < j < |order| ==> order[i] != order[j]
      modifies this
      ensures var (after, keys) := S.TakeUndispatched(old(View()), tid, read, now, f);
              View() == after && batch == Listed(old(requests), order, |order|, keys)
    {
      ghost var keys := S.BatchKeys(requests, tid, read);
      batch := [];
      for i := 0 to |order|
        invariant batch == Listed(requests, order, i, keys)
      {
        var r := requests[order[i]];
        if r.tid == tid && !r.dispatched && (r.state.Declined? || S.GrantLive(r, read)) {
          batch := batch + [r];
        }
      }
      ListedNone(requests, order, |order|);
      if batch == [] {
        NothingListed(requests, order, |order|, keys);
        return;
      }
      assert keys != {};
      var marked := map k | k in requests ::
        if requests[k].tid == tid && !requests[k].dispatched
           && (requests[k].state.Declined? || S.GrantLive(requests[k], read))
        then requests[k].(dispatched := true) else requests[k];
      assert marked == S.Marked(requests, keys);
      var ok := Mutate(marked, now, f);
      if !ok { batch := []; }
    }

    method RemoveThread(tid: string, now: S.Time, f: S.Files) returns (ok: bool)
      modifies this
      ensures (View(), ok) == S.RemoveThread(old(View()), tid, now, f)
    {
      var kept := map k | k in requests && requests[k].tid != tid :: requests[k];
      if kept == requests { return true; }
      ok := Mutate(kept, now, f);
    }
  }
}
