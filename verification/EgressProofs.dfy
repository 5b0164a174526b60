/**
 * What holds over every history of the egress store: the proxy agrees with an ideal
 * rule that never prunes, requests stay capped, and resolutions are announced once.
 */
module EgressProofs {
  import opened Common
  import opened EgressStore

  // ------------------------------------------------------------------
  // Keys
  // ------------------------------------------------------------------

  predicate ColonFree(s: string) { ':' !in s }

  lemma LastColonSplits(a1: string, b1: string, a2: string, b2: string)
    requires ColonFree(b1) && ColonFree(b2) && a1 + ":" + b1 == a2 + ":" + b2
    ensures a1 == a2 && b1 == b2
  {
    var s := a1 + ":" + b1;
    assert s[|a1|] == ':' && s[|a2|] == ':';
    assert |a1| == |a2| by {
      assert forall i :: |a1| < i < |s| ==> s[i] == b1[i - |a1| - 1];
      assert forall i :: |a2| < i < |s| ==> s[i] == b2[i - |a2| - 1];
    }
    assert a1 == s[..|a1|] && a2 == s[..|a2|];
    assert b1 == s[|a1| + 1..] && b2 == s[|a2| + 1..];
  }

  /** The string key determines thread, host and port, whatever the thread id is. */
  lemma KeyInjective(t1: string, h1: string, p1: nat, t2: string, h2: string, p2: nat)
    requires ColonFree(h1) && ColonFree(h2)
    requires RequestKey(t1, h1, p1) == RequestKey(t2, h2, p2)
    ensures t1 == t2 && h1 == h2 && p1 == p2
  {
    LastColonSplits(t1 + ":" + h1, Decimal(p1), t2 + ":" + h2, Decimal(p2));
    DecimalInjective(p1, p2);
    LastColonSplits(t1, h1, t2, h2);
  }

  /** A record that `from_dict` accepts, with the host in its canonical form. */
  predicate WellFormed(r: Request) {
    && r.host != "" && ColonFree(r.host) && Lower(r.host) == r.host
    && 0 < r.port < 65536 && r.tid != ""
  }

  // ------------------------------------------------------------------
  // Histories
  // ------------------------------------------------------------------

  datatype Op =
    | Adding(rec: Request)
    | Resolving(key: string, decision: Decision)
    | Revoking(key: string)
    | Taking(tid: string)
    | RemovingThread(tid: string)

  /** One call: `read` is its own clock reading, `now` the one `_mutate` takes. */
  datatype Event = Event(op: Op, read: Time, now: Time, files: Files)

  datatype Target = Target(tid: string, host: string, port: nat)

  function TargetOf(r: Request): Target { Target(r.tid, r.host, r.port) }

  /** What one call means for grants, in terms of thread, host and port only. */
  datatype Change = Granted(target: Target, marker: Marker) | Ended(target: Target) | ThreadEnded(tid: string) | Nothing

  /** The store and, beside it, what it does not keep: the simple rule's grants, which
      nothing ever prunes, and per key the resolutions that succeeded, those that raised
      with their record written, and the announcements. */
  datatype World = World(
    store: Store, now: Time,
    rule: map<Target, Marker>,
    resolved: map<string, nat>,
    raised: map<string, nat>,
    announced: map<string, nat>)

  function Count(m: map<string, nat>, k: string): nat { if k in m then m[k] else 0 }

  function Begin(now: Time): World { World(Store(map[], None), now, map[], map[], map[], map[]) }

  predicate Legal(w: World, e: Event) {
    && w.now <= e.now && e.read <= e.now
    && (e.op.Adding? ==> WellFormed(e.op.rec) && e.op.rec.state.Pending?)
  }

  /** A recorded approval grants; a recorded revoke, a new request for the same target
      or the end of its thread ends the grant. */
  function ChangeOf(s: Store, e: Event): Change {
    if !e.files.write then Nothing
    else
      match e.op
      case Adding(rec) =>
        if AddPending(s, rec, e.now, e.files).1 in {ThreadCap, GlobalCap} then Nothing else Ended(TargetOf(rec))
      case Resolving(key, decision) =>
        if key in s.file && s.file[key].state.Pending? && decision in {Hour, Always}
        then Granted(TargetOf(s.file[key]), if decision.Hour? then Until(e.read + 3_600_000_000) else RevokedOnly)
        else Nothing
      case Revoking(key) =>
        if key in s.file && s.file[key].state.Approved? then Ended(TargetOf(s.file[key])) else Nothing
      case RemovingThread(tid) => ThreadEnded(tid)
      case Taking(_) => Nothing
  }

  function Changed(rule: map<Target, Marker>, c: Change): map<Target, Marker> {
    match c
    case Granted(t, m) => rule[t := m]
    case Ended(t) => rule - {t}
    case ThreadEnded(tid) => map t | t in rule && t.tid != tid :: rule[t]
    case Nothing => rule
  }

  function NextStore(s: Store, e: Event): Store {
    match e.op
    case Adding(rec) => AddPending(s, rec, e.now, e.files).0
    case Resolving(key, decision) => Resolve(s, key, decision, e.read, e.now, e.files).0
    case Revoking(key) => Revoke(s, key, e.now, e.files).0
    case Taking(tid) => TakeUndispatched(s, tid, e.read, e.now, e.files).0
    case RemovingThread(tid) => RemoveThread(s, tid, e.now, e.files).0
  }

  /** The key for which this call is a `resolve` that returns the record. */
  function ResolvedKeys(s: Store, e: Event): set<string> {
    if e.op.Resolving? && Resolve(s, e.op.key, e.op.decision, e.read, e.now, e.files).1.Updated?
    then {e.op.key} else {}
  }

  /** The key for which it is one that raises because of the projection, with the
      decision on record. */
  function RaisedKeys(s: Store, e: Event): set<string> {
    if e.op.Resolving? && Resolve(s, e.op.key, e.op.decision, e.read, e.now, e.files).1.ResolveFailed? && e.files.write
    then {e.op.key} else {}
  }

  function AnnouncedKeys(s: Store, e: Event): set<string> {
    if e.op.Taking? then TakeUndispatched(s, e.op.tid, e.read, e.now, e.files).1 else {}
  }

  function Bump(m: map<string, nat>, keys: set<string>): map<string, nat> {
    map k | k in m.Keys + keys :: Count(m, k) + if k in keys then 1 else 0
  }

  function Next(w: World, e: Event): World {
    World(NextStore(w.store, e), e.now, Changed(w.rule, ChangeOf(w.store, e)),
          Bump(w.resolved, ResolvedKeys(w.store, e)), Bump(w.raised, RaisedKeys(w.store, e)),
          Bump(w.announced, AnnouncedKeys(w.store, e)))
  }

  // ------------------------------------------------------------------
  // Agreement with the rule
  // ------------------------------------------------------------------

  predicate Keyed(recs: map<string, Request>) {
    forall k :: k in recs ==> KeyOf(recs[k]) == k && WellFormed(recs[k])
  }

  /** The approved, unexpired records are exactly the rule's unexpired grants. The
      first half is about one record, the second about one target. */
  predicate RecordGranted(r: Request, rule: map<Target, Marker>) {
    r.state.Approved? ==> TargetOf(r) in rule && rule[TargetOf(r)] == r.expires
  }

  predicate GrantRecorded(file: map<string, Request>, t: Target) {
    exists k :: k in file && file[k].state.Approved? && TargetOf(file[k]) == t
  }

  predicate Agree(file: map<string, Request>, rule: map<Target, Marker>, now: Time) {
    && (forall k :: k in file ==> RecordGranted(file[k], rule))
    && (forall t :: t in rule && MarkerLive(rule[t], now) ==> GrantRecorded(file, t))
  }

  /** Distinct records of the file are about distinct targets. */
  predicate OneRecordPerTarget(file: map<string, Request>) {
    forall k, l :: k in file && l in file && TargetOf(file[k]) == TargetOf(file[l]) ==> k == l
  }

  lemma KeyedOnePerTarget(file: map<string, Request>)
    requires Keyed(file)
    ensures OneRecordPerTarget(file)
  {
    forall k, l | k in file && l in file && TargetOf(file[k]) == TargetOf(file[l]) ensures k == l {
      assert KeyOf(file[k]) == k && KeyOf(file[l]) == l;
    }
  }

  /** Pruning drops only what the rule has let expire. */
  lemma PruneAgrees(file: map<string, Request>, rule: map<Target, Marker>, before: Time, now: Time)
    requires Agree(file, rule, before) && before <= now
    ensures Agree(Pruned(file, now), rule, now)
  {
    forall t | t in rule && MarkerLive(rule[t], now) ensures GrantRecorded(Pruned(file, now), t) {
      assert MarkerLive(rule[t], before);
      var k :| k in file && file[k].state.Approved? && TargetOf(file[k]) == t;
      assert RecordGranted(file[k], rule);
      assert k in Pruned(file, now);
    }
  }

  lemma SetAgrees(file: map<string, Request>, rule: map<Target, Marker>, now: Time, k: string, r: Request)
    requires Agree(file, rule, now) && OneRecordPerTarget(file[k := r]) && OneRecordPerTarget(file)
    requires k in file ==> TargetOf(file[k]) == TargetOf(r)
    ensures Agree(file[k := r],
                  if r.state.Approved? then rule[TargetOf(r) := r.expires] else rule - {TargetOf(r)}, now)
  {
    var file' := file[k := r];
    var rule' := if r.state.Approved? then rule[TargetOf(r) := r.expires] else rule - {TargetOf(r)};
    forall l | l in file' ensures RecordGranted(file'[l], rule') {
      if l != k {
        assert RecordGranted(file[l], rule);
        assert TargetOf(file'[l]) != TargetOf(file'[k]);
      }
    }
    forall t | t in rule' && MarkerLive(rule'[t], now) ensures GrantRecorded(file', t) {
      if t == TargetOf(r) {
        assert file'[k] == r;
      } else {
        var l :| l in file && file[l].state.Approved? && TargetOf(file[l]) == t;
        assert l != k;
        assert file'[l] == file[l];
      }
    }
  }

  lemma DropAgrees(file: map<string, Request>, rule: map<Target, Marker>, now: Time, k: string)
    requires Agree(file, rule, now) && OneRecordPerTarget(file) && k in file
    ensures Agree(file - {k}, rule - {TargetOf(file[k])}, now)
  {
    var file' := file - {k};
    var rule' := rule - {TargetOf(file[k])};
    forall l | l in file' ensures RecordGranted(file'[l], rule') {
      assert RecordGranted(file[l], rule);
    }
    forall t | t in rule' && MarkerLive(rule'[t], now) ensures GrantRecorded(file', t) {
      var l :| l in file && file[l].state.Approved? && TargetOf(file[l]) == t;
      assert l in file';
    }
  }

  lemma MarkAgrees(file: map<string, Request>, rule: map<Target, Marker>, now: Time, keys: set<string>)
    requires Agree(file, rule, now)
    ensures Agree(Marked(file, keys), rule, now)
  {
    forall l | l in Marked(file, keys) ensures RecordGranted(Marked(file, keys)[l], rule) {
      assert RecordGranted(file[l], rule);
    }
    forall t | t in rule && MarkerLive(rule[t], now) ensures GrantRecorded(Marked(file, keys), t) {
      var l :| l in file && file[l].state.Approved? && TargetOf(file[l]) == t;
      assert TargetOf(Marked(file, keys)[l]) == t;
    }
  }

  lemma ThreadAgrees(file: map<string, Request>, rule: map<Target, Marker>, now: Time, tid: string)
    requires Agree(file, rule, now)
    ensures Agree(map k | k in file && file[k].tid != tid :: file[k],
                  map t | t in rule && t.tid != tid :: rule[t], now)
  {
    var kept := map k | k in file && file[k].tid != tid :: file[k];
    var rule' := map t | t in rule && t.tid != tid :: rule[t];
    forall l | l in kept ensures RecordGranted(kept[l], rule') {
      assert RecordGranted(file[l], rule);
    }
    forall t | t in rule' && MarkerLive(rule'[t], now) ensures GrantRecorded(kept, t) {
      var l :| l in file && file[l].state.Approved? && TargetOf(file[l]) == t;
      assert l in kept;
    }
  }

  lemma TimeAgrees(file: map<string, Request>, rule: map<Target, Marker>, before: Time, now: Time)
    requires Agree(file, rule, before) && before <= now
    ensures Agree(file, rule, now)
  {
  }

  lemma DeclineAgrees(file: map<string, Request>, rule: map<Target, Marker>, now: Time, k: string, r: Request)
    requires Agree(file, rule, now) && k in file
    requires !file[k].state.Approved? && !r.state.Approved?
    ensures Agree(file[k := r], rule, now)
  {
    var file' := file[k := r];
    forall l | l in file' ensures RecordGranted(file'[l], rule) {
      if l != k { assert RecordGranted(file[l], rule); }
    }
    forall t | t in rule && MarkerLive(rule[t], now) ensures GrantRecorded(file', t) {
      var l :| l in file && file[l].state.Approved? && TargetOf(file[l]) == t;
      assert file'[l] == file[l];
    }
  }

  /** Records stay under their own keys. */
  lemma NextKeyed(s: Store, e: Event)
    requires Keyed(s.file) && (e.op.Adding? ==> WellFormed(e.op.rec))
    ensures Keyed(NextStore(s, e).file)
  {
    var f := NextStore(s, e).file;
    forall k | k in f ensures KeyOf(f[k]) == k && WellFormed(f[k]) {
      if k in s.file {
        assert KeyOf(s.file[k]) == k && WellFormed(s.file[k]);
      }
      assert (k in s.file && TargetOf(f[k]) == TargetOf(s.file[k]))
             || (e.op.Adding? && f[k] == e.op.rec && k == KeyOf(e.op.rec)) by {
        NextTarget(s, e, k);
      }
    }
  }

  /** Where a record of the next file comes from. */
  lemma NextTarget(s: Store, e: Event, k: string)
    requires k in NextStore(s, e).file
    ensures var f := NextStore(s, e).file;
            || (k in s.file && TargetOf(f[k]) == TargetOf(s.file[k]))
            || (e.op.Adding? && f[k] == e.op.rec && k == KeyOf(e.op.rec))
  {
    var f := NextStore(s, e).file;
    match e.op
    case Adding(rec) =>
      var key := KeyOf(rec);
      assert f == s.file || f == Pruned(s.file[key := rec], e.now);
    case Resolving(key, decision) =>
      assert f == s.file || f == Pruned(s.file[key := Decided(s.file[key], decision, e.read).value], e.now);
    case Revoking(key) =>
    case Taking(tid) =>
    case RemovingThread(tid) =>
  }

  lemma AddAgrees(s: Store, e: Event, rule: map<Target, Marker>, before: Time)
    requires Keyed(s.file) && Agree(s.file, rule, before) && before <= e.now
    requires e.op.Adding? && WellFormed(e.op.rec) && e.op.rec.state.Pending?
    ensures Agree(NextStore(s, e).file, Changed(rule, ChangeOf(s, e)), e.now)
  {
    TimeAgrees(s.file, rule, before, e.now);
    var rec := e.op.rec;
    var key := KeyOf(rec);
    var file' := s.file[key := rec];
    if ChangeOf(s, e) == Ended(TargetOf(rec)) {
      assert Keyed(file');
      KeyedOnePerTarget(s.file);
      KeyedOnePerTarget(file');
      if key in s.file {
        assert KeyOf(s.file[key]) == key;
        KeyInjective(s.file[key].tid, s.file[key].host, s.file[key].port, rec.tid, rec.host, rec.port);
      }
      SetAgrees(s.file, rule, e.now, key, rec);
      PruneAgrees(file', rule - {TargetOf(rec)}, e.now, e.now);
    }
  }

  /** What a recorded decision does to the file, and to the rule in terms of the record. */
  lemma ResolveIs(s: Store, e: Event)
    requires e.op.Resolving? && e.op.key in s.file && s.file[e.op.key].state.Pending?
    requires e.files.write && !e.op.decision.Unknown?
    ensures var r := Decided(s.file[e.op.key], e.op.decision, e.read).value;
            && TargetOf(r) == TargetOf(s.file[e.op.key])
            && NextStore(s, e).file == Pruned(s.file[e.op.key := r], e.now)
            && ChangeOf(s, e) == if r.state.Approved? then Granted(TargetOf(r), r.expires) else Nothing
  {
  }

  lemma DecisionAgrees(file: map<string, Request>, rule: map<Target, Marker>, now: Time, key: string, r: Request)
    requires OneRecordPerTarget(file) && Agree(file, rule, now)
    requires key in file && file[key].state.Pending? && TargetOf(r) == TargetOf(file[key]) && !r.state.Pending?
    ensures Agree(Pruned(file[key := r], now), if r.state.Approved? then rule[TargetOf(r) := r.expires] else rule, now)
  {
    if r.state.Approved? {
      assert OneRecordPerTarget(file[key := r]);
      SetAgrees(file, rule, now, key, r);
      PruneAgrees(file[key := r], rule[TargetOf(r) := r.expires], now, now);
    } else {
      DeclineAgrees(file, rule, now, key, r);
      PruneAgrees(file[key := r], rule, now, now);
    }
  }

  lemma ResolveAgrees(s: Store, e: Event, rule: map<Target, Marker>, before: Time)
    requires OneRecordPerTarget(s.file) && Agree(s.file, rule, before) && before <= e.now && e.op.Resolving?
    ensures Agree(NextStore(s, e).file, Changed(rule, ChangeOf(s, e)), e.now)
  {
    TimeAgrees(s.file, rule, before, e.now);
    var key := e.op.key;
    if key in s.file && s.file[key].state.Pending? && e.files.write && !e.op.decision.Unknown? {
      ResolveIs(s, e);
      DecisionAgrees(s.file, rule, e.now, key, Decided(s.file[key], e.op.decision, e.read).value);
    }
  }

  lemma OtherAgrees(s: Store, e: Event, rule: map<Target, Marker>, before: Time)
    requires OneRecordPerTarget(s.file) && Agree(s.file, rule, before) && before <= e.now
    requires e.op.Revoking? || e.op.Taking? || e.op.RemovingThread?
    ensures Agree(NextStore(s, e).file, Changed(rule, ChangeOf(s, e)), e.now)
  {
    TimeAgrees(s.file, rule, before, e.now);
    match e.op
    case Revoking(key) =>
      if key in s.file && s.file[key].state.Approved? && e.files.write {
        DropAgrees(s.file, rule, e.now, key);
        PruneAgrees(s.file - {key}, rule - {TargetOf(s.file[key])}, e.now, e.now);
      }
    case Taking(tid) =>
      var keys := BatchKeys(s.file, tid, e.read);
      MarkAgrees(s.file, rule, e.now, keys);
      PruneAgrees(Marked(s.file, keys), rule, e.now, e.now);
    case RemovingThread(tid) =>
      var kept := map k | k in s.file && s.file[k].tid != tid :: s.file[k];
      ThreadAgrees(s.file, rule, e.now, tid);
      PruneAgrees(kept, map t | t in rule && t.tid != tid :: rule[t], e.now, e.now);
  }

  // ------------------------------------------------------------------
  // Caps and announcements
  // ------------------------------------------------------------------

  ghost predicate WithinCaps(recs: map<string, Request>) {
    && |PendingIn(recs)| <= GLOBAL_PENDING_CAP
    && forall tid :: |PendingOf(recs, tid)| <= PER_THREAD_PENDING_CAP
  }

  lemma {:induction false} SmallerSet<T>(a: set<T>, b: set<T>)
    requires a <= b
    ensures |a| <= |b|
  {
    if a != b {
      var x :| x in b && x !in a;
      SmallerSet(a, b - {x});
    }
  }

  lemma AddWithinCaps(s: Store, rec: Request, now: Time, f: Files)
    requires WithinCaps(s.file) && rec.state.Pending?
    ensures WithinCaps(AddPending(s, rec, now, f).0.file)
  {
    var t := AddPending(s, rec, now, f).0.file;
    var key := KeyOf(rec);
    if t != s.file {
      SmallerSet(PendingIn(t), PendingIn(s.file) + {key});
      forall tid ensures |PendingOf(t, tid)| <= PER_THREAD_PENDING_CAP {
        if tid == rec.tid {
          SmallerSet(PendingOf(t, tid), PendingOf(s.file, tid) + {key});
        } else {
          SmallerSet(PendingOf(t, tid), PendingOf(s.file, tid));
        }
      }
    }
  }

  /** A file none of whose records became pending stays within the caps. */
  lemma NoNewPending(was: map<string, Request>, recs: map<string, Request>)
    requires WithinCaps(was)
    requires forall k :: k in recs && recs[k].state.Pending? ==>
               k in was && was[k].state.Pending? && recs[k].tid == was[k].tid
    ensures WithinCaps(recs)
  {
    SmallerSet(PendingIn(recs), PendingIn(was));
    forall tid ensures |PendingOf(recs, tid)| <= PER_THREAD_PENDING_CAP {
      SmallerSet(PendingOf(recs, tid), PendingOf(was, tid));
    }
  }

  lemma NextWithinCaps(s: Store, e: Event)
    requires WithinCaps(s.file) && (e.op.Adding? ==> e.op.rec.state.Pending?)
    ensures WithinCaps(NextStore(s, e).file)
  {
    if e.op.Adding? {
      AddWithinCaps(s, e.op.rec, e.now, e.files);
    } else {
      var f := NextStore(s, e).file;
      forall k | k in f && f[k].state.Pending?
        ensures k in s.file && s.file[k].state.Pending? && f[k].tid == s.file[k].tid
      {
      }
      NoNewPending(s.file, f);
    }
  }

  /** A resolution is recorded under this key and not announced yet. */
  predicate Owed(file: map<string, Request>, k: string) {
    k in file && !file[k].state.Pending? && !file[k].dispatched
  }

  predicate PaidFor(w: World, k: string) {
    Count(w.announced, k) + (if Owed(w.store.file, k) then 1 else 0) <= Count(w.resolved, k) + Count(w.raised, k)
  }

  /** Announcements made, plus the one still owed, never exceed the decisions recorded. */
  ghost predicate AnnouncedOnce(w: World) { forall k :: PaidFor(w, k) }

  /** What one call does to the announcement owed for a key. */
  lemma NextOwed(s: Store, e: Event, k: string)
    requires e.op.Adding? ==> e.op.rec.state.Pending?
    ensures k in AnnouncedKeys(s, e) ==> Owed(s.file, k) && !Owed(NextStore(s, e).file, k)
    ensures Owed(NextStore(s, e).file, k) ==> Owed(s.file, k) || k in ResolvedKeys(s, e) + RaisedKeys(s, e)
    ensures k in ResolvedKeys(s, e) + RaisedKeys(s, e) ==> !Owed(s.file, k) && AnnouncedKeys(s, e) == {}
  {
  }

  lemma BumpCounts(m: map<string, nat>, keys: set<string>, k: string)
    ensures Count(Bump(m, keys), k) == Count(m, k) + if k in keys then 1 else 0
  {
  }

  lemma NextCounts(w: World, e: Event, k: string)
    ensures var v := Next(w, e);
            && Count(v.announced, k) == Count(w.announced, k) + (if k in AnnouncedKeys(w.store, e) then 1 else 0)
            && Count(v.resolved, k) == Count(w.resolved, k) + (if k in ResolvedKeys(w.store, e) then 1 else 0)
            && Count(v.raised, k) == Count(w.raised, k) + (if k in RaisedKeys(w.store, e) then 1 else 0)
  {
    BumpCounts(w.announced, AnnouncedKeys(w.store, e), k);
    BumpCounts(w.resolved, ResolvedKeys(w.store, e), k);
    BumpCounts(w.raised, RaisedKeys(w.store, e), k);
  }

  lemma NextAnnounced(w: World, e: Event)
    requires AnnouncedOnce(w) && (e.op.Adding? ==> e.op.rec.state.Pending?)
    ensures AnnouncedOnce(Next(w, e))
  {
    forall k: string
      ensures PaidFor(Next(w, e), k)
    {
      NextOwed(w.store, e, k);
      NextCounts(w, e, k);
      assert PaidFor(w, k);
    }
  }

  // ------------------------------------------------------------------
  // Runs
  // ------------------------------------------------------------------

  ghost predicate Inv(w: World) {
    && Keyed(w.store.file) && Agree(w.store.file, w.rule, w.now)
    && WithinCaps(w.store.file) && AnnouncedOnce(w)
  }

  lemma NextKeepsInv(w: World, e: Event)
    requires Inv(w) && Legal(w, e)
    ensures Inv(Next(w, e))
  {
    NextKeyed(w.store, e);
    KeyedOnePerTarget(w.store.file);
    match e.op {
      case Adding(_) => AddAgrees(w.store, e, w.rule, w.now);
      case Resolving(_, _) => ResolveAgrees(w.store, e, w.rule, w.now);
      case _ => OtherAgrees(w.store, e, w.rule, w.now);
    }
    NextWithinCaps(w.store, e);
    NextAnnounced(w, e);
  }

  ghost predicate LegalRun(w: World, es: seq<Event>)
    decreases |es|
  {
    es == [] || (Legal(w, es[0]) && LegalRun(Next(w, es[0]), es[1..]))
  }

  ghost function AfterRun(w: World, es: seq<Event>): World
    decreases |es|
  {
    if es == [] then w else AfterRun(Next(w, es[0]), es[1..])
  }

  lemma {:induction false} RunKeepsInv(w: World, es: seq<Event>)
    requires Inv(w) && LegalRun(w, es)
    ensures Inv(AfterRun(w, es))
    decreases |es|
  {
    if es != [] {
      NextKeepsInv(w, es[0]);
      RunKeepsInv(Next(w, es[0]), es[1..]);
    }
  }

  /** From an empty store, no thread ever has more than three requests pending, no
      state more than ten, and each key is announced at most as often as a decision on
      it was recorded, by a `resolve` that returned it or by one that raised. */
  lemma CapsAndAnnouncements(start: Time, es: seq<Event>, tid: string, k: string)
    requires LegalRun(Begin(start), es)
    ensures var w := AfterRun(Begin(start), es);
            && |PendingOf(w.store.file, tid)| <= 3
            && |PendingIn(w.store.file)| <= 10
            && Count(w.announced, k) <= Count(w.resolved, k) + Count(w.raised, k)
  {
    BeginInv(start);
    RunKeepsInv(Begin(start), es);
    assert PaidFor(AfterRun(Begin(start), es), k);
  }

  /** No projection write raises under a decision on this key. */
  ghost predicate NeverRaises(w: World, es: seq<Event>, k: string)
    decreases |es|
  {
    es == [] || (k !in RaisedKeys(w.store, es[0]) && NeverRaises(Next(w, es[0]), es[1..], k))
  }

  lemma {:induction false} NothingRaised(w: World, es: seq<Event>, k: string)
    requires NeverRaises(w, es, k)
    ensures Count(AfterRun(w, es).raised, k) == Count(w.raised, k)
    decreases |es|
  {
    if es != [] {
      NextCounts(w, es[0], k);
      NothingRaised(Next(w, es[0]), es[1..], k);
    }
  }

  /** Where none does, a key is announced at most once for each `resolve` that returned
      its record. */
  lemma AnnouncedPerSuccess(start: Time, es: seq<Event>, k: string)
    requires LegalRun(Begin(start), es) && NeverRaises(Begin(start), es, k)
    ensures var w := AfterRun(Begin(start), es);
            Count(w.announced, k) <= Count(w.resolved, k)
  {
    CapsAndAnnouncements(start, es, "", k);
    NothingRaised(Begin(start), es, k);
  }

  /** Where one does, the bound by successful calls fails. Whatever came before: of a
      pending request whose key has every success announced, a decision and a batch taken
      by its thread announce more than was ever returned exactly when the decision raised
      with its record written and has not expired. */
  lemma OverAnnouncedExactlyWhen(w: World, decided: Event, taken: Event, k: string)
    requires Inv(w) && Legal(w, decided) && Legal(Next(w, decided), taken)
    requires k in w.store.file && w.store.file[k].state.Pending? && !w.store.file[k].dispatched
    requires decided.op.Resolving? && decided.op.key == k && !decided.op.decision.Unknown?
    requires taken.op == Taking(w.store.file[k].tid) && taken.files.write && taken.files.project
    requires Count(w.announced, k) == Count(w.resolved, k)
    ensures var v := Next(Next(w, decided), taken);
            var rec := Decided(w.store.file[k], decided.op.decision, decided.read).value;
            Count(v.announced, k) > Count(v.resolved, k) <==>
              && decided.files.write && !decided.files.project
              && (rec.state.Declined? || (GrantLive(rec, decided.now) && GrantLive(rec, taken.read)))
  {
    NextCounts(w, decided, k);
    NextCounts(Next(w, decided), taken, k);
    RecordedDecision(w.store, decided, k);
    TakenNext(Next(w, decided).store, taken, k, w.store.file[k].tid);
  }

  /** What the decision leaves under its key. */
  lemma RecordedDecision(s: Store, e: Event, k: string)
    requires k in s.file && s.file[k].state.Pending?
    requires e.op.Resolving? && e.op.key == k && !e.op.decision.Unknown?
    ensures var t := NextStore(s, e);
            var rec := Decided(s.file[k], e.op.decision, e.read).value;
            && (if e.files.write then k in t.file <==> Keeps(rec, e.now) else t == s)
            && (e.files.write && k in t.file ==> t.file[k] == rec)
            && (k in ResolvedKeys(s, e) <==> e.files.write && e.files.project)
            && AnnouncedKeys(s, e) == {}
  {
  }

  lemma TakenNext(s: Store, e: Event, k: string, tid: string)
    requires e.op == Taking(tid) && e.files.write && e.files.project
    ensures ResolvedKeys(s, e) == {}
    ensures k in AnnouncedKeys(s, e) <==>
              k in s.file && s.file[k].tid == tid && !s.file[k].dispatched
              && (s.file[k].state.Declined? || GrantLive(s.file[k], e.read))
  {
  }

  lemma FirstCall(w: World, e: Event, es: seq<Event>)
    ensures LegalRun(w, [e] + es) <==> Legal(w, e) && LegalRun(Next(w, e), es)
    ensures AfterRun(w, [e] + es) == AfterRun(Next(w, e), es)
  {
    assert ([e] + es)[1..] == es;
  }

  lemma ThreeCalls(w: World, a: Event, b: Event, c: Event)
    requires Legal(w, a) && Legal(Next(w, a), b) && Legal(Next(Next(w, a), b), c)
    ensures LegalRun(w, [a, b, c]) && AfterRun(w, [a, b, c]) == Next(Next(Next(w, a), b), c)
  {
    var w1, w2 := Next(w, a), Next(Next(w, a), b);
    FirstCall(w2, c, []);
    assert [c] + [] == [c];
    FirstCall(w1, b, [c]);
    assert [b] + [c] == [b, c];
    FirstCall(w, a, [b, c]);
    assert [a] + [b, c] == [a, b, c];
  }

  /** The first request of a store is put on file. */
  lemma FirstRequest(rec: Request, e: Event)
    requires WellFormed(rec) && rec.state.Pending? && e == Event(Adding(rec), 0, 0, Files(true, true, true))
    ensures var w := Next(Begin(0), e);
            && Inv(w) && w.now == 0 && w.store.file == map[KeyOf(rec) := rec]
            && Count(w.announced, KeyOf(rec)) == Count(w.resolved, KeyOf(rec)) == 0
  {
    BeginInv(0);
    NextKeepsInv(Begin(0), e);
    NextCounts(Begin(0), e, KeyOf(rec));
    var none := Begin(0).store.file;
    assert PendingOf(none, rec.tid) == {};
    assert PendingIn(none) == {};
    assert none[KeyOf(rec) := rec] == map[KeyOf(rec) := rec];
    assert Pruned(map[KeyOf(rec) := rec], 0) == map[KeyOf(rec) := rec];
  }

  lemma UnreturnedDecision(w: World, decide: Event, take: Event, k: string)
    requires Inv(w) && w.now == 0 && k in w.store.file && w.store.file[k].state.Pending? && !w.store.file[k].dispatched
    requires Count(w.announced, k) == Count(w.resolved, k) == 0
    requires decide == Event(Resolving(k, Always), 0, 0, Files(true, false, true))
    requires take == Event(Taking(w.store.file[k].tid), 0, 0, Files(true, true, true))
    ensures Legal(w, decide) && Legal(Next(w, decide), take)
    ensures var v := Next(Next(w, decide), take);
            Count(v.resolved, k) == 0 < Count(v.announced, k)
  {
    OverAnnouncedExactlyWhen(w, decide, take, k);
    NextCounts(w, decide, k);
    NextCounts(Next(w, decide), take, k);
  }

  /** Such a run from an empty store: a request, an always-decision whose projection write
      fails, and a batch. `resolve` never returned, and the approval is announced. */
  lemma AnnouncedWithoutSuccess(rec: Request) returns (es: seq<Event>)
    requires WellFormed(rec) && rec.state.Pending? && !rec.dispatched
    ensures LegalRun(Begin(0), es)
    ensures var w := AfterRun(Begin(0), es);
            Count(w.resolved, KeyOf(rec)) == 0 < Count(w.announced, KeyOf(rec))
  {
    var k := KeyOf(rec);
    var add := Event(Adding(rec), 0, 0, Files(true, true, true));
    var decide := Event(Resolving(k, Always), 0, 0, Files(true, false, true));
    var take := Event(Taking(rec.tid), 0, 0, Files(true, true, true));
    FirstRequest(rec, add);
    var w := Next(Begin(0), add);
    UnreturnedDecision(w, decide, take, k);
    ThreeCalls(Begin(0), add, decide, take);
    es := [add, decide, take];
  }

  lemma BeginInv(start: Time)
    ensures Inv(Begin(start))
  {
    var w := Begin(start);
    assert PendingIn(w.store.file) == {};
    assert forall tid :: PendingOf(w.store.file, tid) == {};
  }

  // ------------------------------------------------------------------
  // The projection
  // ------------------------------------------------------------------

  /** The projection is absent or exactly the approved records of the request file. */
  predicate InSync(s: Store) {
    s.projection.None? || s.projection.value == Projected(s.file)
  }

  /** After a mutation whose request file was written, the projection is in step in
      every case but one: it could be neither rewritten nor removed, and what was left
      there says something else. */
  lemma InSyncExactlyWhen(s: Store, recs: map<string, Request>, now: Time, f: Files)
    requires f.write
    ensures InSync(Mutate(s, recs, now, f).0) <==>
              f.project || f.remove || s.projection.None? || s.projection.value == Projected(Pruned(recs, now))
  {
  }

  /** The case occurs: an always-grant is revoked while the projection can be neither
      rewritten nor removed; the record is gone and the proxy still lets it through. */
  lemma StaleProjectionHonoursARevokedGrant()
    ensures exists s: Store, key: string, f: Files ::
              && InSync(s) && key in s.file && !f.project && !f.remove
              && var r := Revoke(s, key, 0, f).0;
                 && key !in r.file
                 && ApprovedTarget("h", 443, "ip", Some(map["ip" := "t"]), true, r.projection, true, 0)
  {
    var rec := Request("h", 443, "", "t", None, Approved, RevokedOnly, true);
    var key := RequestKey("t", "h", 443);
    var file := map[key := rec];
    var s := Store(file, Some(Projected(file)));
    var f := Files(true, false, false);
    var r := Revoke(s, key, 0, f).0;
    assert InSync(s);
    assert r.projection == s.projection && key !in r.file;
    var entry := Projected(file)[key];
    assert entry == EntryOf(rec);
    assert Lower("h") == "h";
    assert ApprovedTarget("h", 443, "ip", Some(map["ip" := "t"]), true, r.projection, true, 0);
  }

  predicate FailsClosed(e: Event) { e.files.project || e.files.remove }

  lemma NextInSync(s: Store, e: Event)
    requires InSync(s) && FailsClosed(e)
    ensures InSync(NextStore(s, e))
  {
  }

  lemma {:induction false} RunInSync(w: World, es: seq<Event>)
    requires InSync(w.store) && forall i :: 0 <= i < |es| ==> FailsClosed(es[i])
    ensures InSync(AfterRun(w, es).store)
    decreases |es|
  {
    if es != [] {
      NextInSync(w.store, es[0]);
      RunInSync(Next(w, es[0]), es[1..]);
    }
  }

  // ------------------------------------------------------------------
  // The proxy refines the rule
  // ------------------------------------------------------------------

  /** The simple rule: the client's thread holds a live grant for exactly this target. */
  predicate HoldsGrant(rule: map<Target, Marker>, tid: string, host: string, port: nat, now: Time) {
    var t := Target(tid, host, port);
    t in rule && MarkerLive(rule[t], now)
  }

  /** One direction, for any file and any later time: what the proxy lets through, the
      rule grants to the thread that owns the client's address. */
  lemma ApprovedIsGranted(w: World, host: string, port: nat, ip: string,
                          clients: Option<map<string, string>>, clientsFit: bool, fits: bool, now: Time)
    requires Inv(w) && InSync(w.store) && w.now <= now
    requires ApprovedTarget(host, port, ip, clients, clientsFit, w.store.projection, fits, now)
    ensures clients.Some? && ip in clients.value && HoldsGrant(w.rule, clients.value[ip], host, port, now)
  {
    var tid := clients.value[ip];
    var key := RequestKey(tid, host, port);
    var r := w.store.file[key];
    assert Projected(w.store.file)[key] == EntryOf(r);
    assert RecordGranted(r, w.rule);
    assert WellFormed(r) && r.host == host;
    assert TargetOf(r) == Target(tid, host, port);
  }

  /** The other direction, when the projection is there and within the size limit. */
  lemma GrantedIsApproved(w: World, host: string, port: nat, ip: string,
                          clients: Option<map<string, string>>, now: Time)
    requires Inv(w) && InSync(w.store) && w.store.projection.Some? && w.now <= now
    requires clients.Some? && ip in clients.value && HoldsGrant(w.rule, clients.value[ip], host, port, now)
    ensures ApprovedTarget(host, port, ip, clients, true, w.store.projection, true, now)
  {
    var tid := clients.value[ip];
    var t := Target(tid, host, port);
    assert MarkerLive(w.rule[t], w.now);
    var k :| k in w.store.file && w.store.file[k].state.Approved? && TargetOf(w.store.file[k]) == t;
    var r := w.store.file[k];
    assert KeyOf(r) == k && WellFormed(r);
    assert k == RequestKey(tid, host, port);
    assert RecordGranted(r, w.rule);
    assert Projected(w.store.file)[k] == EntryOf(r);
  }

  /** For every history of the store whose failing writes fail closed, every address
      map and every later time: the proxy approves a target exactly when the thread
      behind the address holds an approved, unrevoked, unexpired grant for it. */
  lemma ProxyRefinesTheRule(start: Time, es: seq<Event>, host: string, port: nat, ip: string,
                            clients: Option<map<string, string>>, clientsFit: bool, fits: bool, now: Time)
    requires LegalRun(Begin(start), es) && forall i :: 0 <= i < |es| ==> FailsClosed(es[i])
    requires AfterRun(Begin(start), es).now <= now
    ensures var w := AfterRun(Begin(start), es);
            var known := clients.Some? && ip in clients.value;
            var approved := ApprovedTarget(host, port, ip, clients, clientsFit, w.store.projection, fits, now);
            && (approved ==> known && HoldsGrant(w.rule, clients.value[ip], host, port, now))
            && (known && clientsFit && fits && w.store.projection.Some? ==>
                  (HoldsGrant(w.rule, clients.value[ip], host, port, now) ==> approved))
  {
    BeginInv(start);
    RunKeepsInv(Begin(start), es);
    RunInSync(Begin(start), es);
    var w := AfterRun(Begin(start), es);
    if ApprovedTarget(host, port, ip, clients, clientsFit, w.store.projection, fits, now) {
      ApprovedIsGranted(w, host, port, ip, clients, clientsFit, fits, now);
    }
    if clients.Some? && ip in clients.value && HoldsGrant(w.rule, clients.value[ip], host, port, now)
       && clientsFit && fits && w.store.projection.Some? {
      GrantedIsApproved(w, host, port, ip, clients, now);
    }
  }

  // ------------------------------------------------------------------
  // Declines wait to be announced
  // ------------------------------------------------------------------

  /** A call that announces, overwrites or deletes what is recorded under `k`. */
  predicate Touches(e: Event, k: string, tid: string) {
    match e.op
    case Adding(rec) => KeyOf(rec) == k
    case Taking(t) => t == tid
    case RemovingThread(t) => t == tid
    case _ => false
  }

  lemma NextKeepsDecline(s: Store, e: Event, k: string)
    requires k in s.file && s.file[k].state.Declined? && !s.file[k].dispatched && !Touches(e, k, s.file[k].tid)
    ensures k in NextStore(s, e).file && NextStore(s, e).file[k] == s.file[k]
  {
    match e.op
    case Adding(rec) =>
      var key := KeyOf(rec);
      assert key != k;
      assert NextStore(s, e).file == s.file || NextStore(s, e).file == Pruned(s.file[key := rec], e.now);
    case _ =>
  }

  /** An unannounced decline survives every prune, however old it grows, until it is
      announced, overwritten by a new request, or its thread is removed. */
  lemma {:induction false} DeclineAwaitsAnnouncement(w: World, es: seq<Event>, k: string)
    requires k in w.store.file && w.store.file[k].state.Declined? && !w.store.file[k].dispatched
    requires forall i :: 0 <= i < |es| ==> !Touches(es[i], k, w.store.file[k].tid)
    ensures k in AfterRun(w, es).store.file && AfterRun(w, es).store.file[k] == w.store.file[k]
    decreases |es|
  {
    if es != [] {
      NextKeepsDecline(w.store, es[0], k);
      DeclineAwaitsAnnouncement(Next(w, es[0]), es[1..], k);
    }
  }

  /** `live_grants` lists exactly the rule's live grants, one record each. */
  lemma LiveGrantsAreTheRules(w: World, now: Time)
    requires Inv(w) && w.now <= now
    ensures forall k :: k in LiveGrants(w.store, now) ==>
              HoldsGrant(w.rule, w.store.file[k].tid, w.store.file[k].host, w.store.file[k].port, now)
    ensures forall t :: t in w.rule && MarkerLive(w.rule[t], now) ==>
              exists k :: k in LiveGrants(w.store, now) && TargetOf(w.store.file[k]) == t
  {
    forall k | k in LiveGrants(w.store, now)
      ensures HoldsGrant(w.rule, w.store.file[k].tid, w.store.file[k].host, w.store.file[k].port, now)
    {
      assert RecordGranted(w.store.file[k], w.rule);
    }
    forall t | t in w.rule && MarkerLive(w.rule[t], now)
      ensures exists k :: k in LiveGrants(w.store, now) && TargetOf(w.store.file[k]) == t
    {
      assert MarkerLive(w.rule[t], w.now);
      var k :| k in w.store.file && w.store.file[k].state.Approved? && TargetOf(w.store.file[k]) == t;
      assert RecordGranted(w.store.file[k], w.rule);
      assert k in LiveGrants(w.store, now);
    }
  }

  // ------------------------------------------------------------------
  // How long a decision lasts
  // ------------------------------------------------------------------

  /** An hour is an hour from the clock reading of the decision, always is for ever. */
  predicate Lasts(decision: Decision, read: Time, now: Time) {
    decision.Always? || (decision.Hour? && now < read + 3_600_000_000)
  }

  /** A call that decides on what is pending under `k` in favour of it. */
  predicate Grants(e: Event, k: string) {
    e.op.Resolving? && e.op.key == k && (e.op.decision.Hour? || e.op.decision.Always?)
  }

  /** A call that takes back a grant: a revoke, a new request, the end of its thread. */
  predicate TakesBack(e: Event, k: string, tid: string) {
    match e.op
    case Adding(rec) => KeyOf(rec) == k
    case Revoking(key) => key == k
    case RemovingThread(t) => t == tid
    case _ => false
  }

  /** The rule's marker for a target, if it has one, is this one. */
  predicate MarkedAs(w: World, t: Target, m: Marker) { t in w.rule ==> w.rule[t] == m }

  function KeyOfTarget(t: Target): string { RequestKey(t.tid, t.host, t.port) }

  lemma NextKeepsMarker(w: World, e: Event, t: Target, m: Marker)
    requires Inv(w) && MarkedAs(w, t, m) && !Grants(e, KeyOfTarget(t))
    ensures MarkedAs(Next(w, e), t, m)
  {
    if e.op.Resolving? && e.op.key in w.store.file {
      assert KeyOf(w.store.file[e.op.key]) == e.op.key;
    }
  }

  lemma {:induction false} RunKeepsMarker(w: World, es: seq<Event>, t: Target, m: Marker)
    requires Inv(w) && LegalRun(w, es) && MarkedAs(w, t, m)
    requires forall i :: 0 <= i < |es| ==> !Grants(es[i], KeyOfTarget(t))
    ensures MarkedAs(AfterRun(w, es), t, m)
    decreases |es|
  {
    if es != [] {
      NextKeepsMarker(w, es[0], t, m);
      NextKeepsInv(w, es[0]);
      RunKeepsMarker(Next(w, es[0]), es[1..], t, m);
    }
  }

  /** A live grant that nobody takes back stays: its request is not pending, so no decision
      can change it either. */
  lemma NextKeepsGrant(w: World, e: Event, t: Target)
    requires Inv(w) && Legal(w, e) && t in w.rule && MarkerLive(w.rule[t], e.now)
    requires !TakesBack(e, KeyOfTarget(t), t.tid) && (e.op.Adding? ==> ColonFree(t.host))
    ensures t in Next(w, e).rule && Next(w, e).rule[t] == w.rule[t]
  {
    assert MarkerLive(w.rule[t], w.now);
    assert GrantRecorded(w.store.file, t);
    var k :| k in w.store.file && w.store.file[k].state.Approved? && TargetOf(w.store.file[k]) == t;
    assert KeyOf(w.store.file[k]) == k == KeyOfTarget(t);
    match e.op
    case Revoking(key) => if key in w.store.file { assert KeyOf(w.store.file[key]) == key; }
    case Resolving(key, _) => if key in w.store.file { assert KeyOf(w.store.file[key]) == key; }
    case _ =>
  }

  ghost predicate LeftAlone(es: seq<Event>, t: Target) {
    forall i :: 0 <= i < |es| ==> !TakesBack(es[i], KeyOfTarget(t), t.tid)
  }

  lemma {:induction false} RunKeepsGrant(w: World, es: seq<Event>, t: Target, now: Time)
    requires Inv(w) && LegalRun(w, es) && t in w.rule && ColonFree(t.host)
    requires AfterRun(w, es).now <= now && MarkerLive(w.rule[t], now) && LeftAlone(es, t)
    ensures t in AfterRun(w, es).rule && AfterRun(w, es).rule[t] == w.rule[t] && w.now <= AfterRun(w, es).now
    decreases |es|
  {
    if es != [] {
      TimePasses(Next(w, es[0]), es[1..]);
      NextKeepsGrant(w, es[0], t);
      NextKeepsInv(w, es[0]);
      RunKeepsGrant(Next(w, es[0]), es[1..], t, now);
    }
  }

  lemma {:induction false} TimePasses(w: World, es: seq<Event>)
    requires LegalRun(w, es)
    ensures w.now <= AfterRun(w, es).now
    decreases |es|
  {
    if es != [] { TimePasses(Next(w, es[0]), es[1..]); }
  }

  /** The proxy, with both files there and within their size, lets this target through. */
  predicate LetsThrough(s: Store, t: Target, ip: string, clients: map<string, string>, now: Time) {
    ApprovedTarget(t.host, t.port, ip, Some(clients), true, s.projection, true, now)
  }

  /** A pending request on file is decided in favour, and the file is written. */
  predicate Decides(w: World, e: Event, k: string, decision: Decision) {
    && e.op == Resolving(k, decision) && (decision.Hour? || decision.Always?) && e.files.write
    && k in w.store.file && w.store.file[k].state.Pending?
  }

  lemma DecisionLastsFrom(w: World, e: Event, es: seq<Event>, k: string, decision: Decision,
                          ip: string, clients: map<string, string>, now: Time)
    requires Inv(w) && InSync(w.store) && Legal(w, e) && FailsClosed(e) && Decides(w, e, k, decision)
    requires LegalRun(Next(w, e), es) && forall i :: 0 <= i < |es| ==> FailsClosed(es[i])
    requires AfterRun(Next(w, e), es).now <= now && ip in clients && clients[ip] == w.store.file[k].tid
    ensures var t := TargetOf(w.store.file[k]);
            var v := AfterRun(Next(w, e), es);
            var through := LetsThrough(v.store, t, ip, clients, now);
            && ((forall i :: 0 <= i < |es| ==> !Grants(es[i], k)) ==> through ==> Lasts(decision, e.read, now))
            && (LeftAlone(es, t) && v.store.projection.Some? && Lasts(decision, e.read, now) ==> through)
  {
    DecidedMarker(w, e, k, decision);
    AfterDecision(Next(w, e), es, TargetOf(w.store.file[k]),
                  if decision.Hour? then Until(e.read + 3_600_000_000) else RevokedOnly, ip, clients, now);
  }

  /** Over every run from an empty store that fails closed: once an hour's grant is decided,
      and no other decision follows, the proxy lets the target through only within that hour;
      and once any grant is decided and not taken back, it lets the target through for as
      long as the decision lasts, whenever the projection is there and within its size. */
  lemma DecisionLasts(start: Time, before: seq<Event>, e: Event, es: seq<Event>, k: string, decision: Decision,
                      ip: string, clients: map<string, string>, now: Time)
    requires LegalRun(Begin(start), before) && forall i :: 0 <= i < |before| ==> FailsClosed(before[i])
    requires var w := AfterRun(Begin(start), before);
             && Legal(w, e) && FailsClosed(e) && Decides(w, e, k, decision) && LegalRun(Next(w, e), es)
             && AfterRun(Next(w, e), es).now <= now && ip in clients && clients[ip] == w.store.file[k].tid
    requires forall i :: 0 <= i < |es| ==> FailsClosed(es[i])
    ensures var w := AfterRun(Begin(start), before);
            var t := TargetOf(w.store.file[k]);
            var v := AfterRun(Next(w, e), es);
            var through := LetsThrough(v.store, t, ip, clients, now);
            && ((forall i :: 0 <= i < |es| ==> !Grants(es[i], k)) ==> through ==> Lasts(decision, e.read, now))
            && (LeftAlone(es, t) && v.store.projection.Some? && Lasts(decision, e.read, now) ==> through)
  {
    BeginInv(start);
    RunKeepsInv(Begin(start), before);
    RunInSync(Begin(start), before);
    DecisionLastsFrom(AfterRun(Begin(start), before), e, es, k, decision, ip, clients, now);
  }

  lemma DecidedMarker(w: World, e: Event, k: string, decision: Decision)
    requires Inv(w) && InSync(w.store) && Legal(w, e) && FailsClosed(e) && Decides(w, e, k, decision)
    ensures Inv(Next(w, e)) && InSync(Next(w, e).store)
    ensures var t := TargetOf(w.store.file[k]);
            && KeyOfTarget(t) == k && ColonFree(t.host)
            && t in Next(w, e).rule
            && Next(w, e).rule[t] == if decision.Hour? then Until(e.read + 3_600_000_000) else RevokedOnly
  {
    assert KeyOf(w.store.file[k]) == k && WellFormed(w.store.file[k]);
    NextKeepsInv(w, e);
    NextInSync(w.store, e);
  }

  lemma AfterDecision(u: World, es: seq<Event>, t: Target, m: Marker, ip: string, clients: map<string, string>,
                      now: Time)
    requires Inv(u) && InSync(u.store) && LegalRun(u, es) && forall i :: 0 <= i < |es| ==> FailsClosed(es[i])
    requires t in u.rule && u.rule[t] == m && ColonFree(t.host)
    requires AfterRun(u, es).now <= now && ip in clients && clients[ip] == t.tid
    ensures var v := AfterRun(u, es);
            var through := LetsThrough(v.store, t, ip, clients, now);
            && ((forall i :: 0 <= i < |es| ==> !Grants(es[i], KeyOfTarget(t))) ==> through ==> MarkerLive(m, now))
            && (LeftAlone(es, t) && v.store.projection.Some? && MarkerLive(m, now) ==> through)
  {
    RunKeepsInv(u, es);
    RunInSync(u, es);
    var v := AfterRun(u, es);
    if (forall i :: 0 <= i < |es| ==> !Grants(es[i], KeyOfTarget(t)))
       && LetsThrough(v.store, t, ip, clients, now) {
      RunKeepsMarker(u, es, t, m);
      ApprovedIsGranted(v, t.host, t.port, ip, Some(clients), true, true, now);
    }
    if LeftAlone(es, t) && v.store.projection.Some? && MarkerLive(m, now) {
      RunKeepsGrant(u, es, t, now);
      GrantedIsApproved(v, t.host, t.port, ip, Some(clients), now);
    }
  }

  // ------------------------------------------------------------------
  // What is accepted, kept and forgotten
  // ------------------------------------------------------------------

  /** A request is put on file exactly below both caps, if the files can be written. */
  lemma AcceptedExactlyWhen(s: Store, rec: Request, now: Time, f: Files)
    requires rec.state.Pending?
    ensures var (t, added) := AddPending(s, rec, now, f);
            var below := |PendingOf(s.file, rec.tid)| < 3 && |PendingIn(s.file)| < 10;
            && (added == Inserted <==> below && f.write && f.project)
            && (added == ThreadCap <==> |PendingOf(s.file, rec.tid)| >= 3)
            && (KeyOf(rec) in t.file && t.file[KeyOf(rec)] == rec <==>
                  (below && f.write) || (KeyOf(rec) in s.file && s.file[KeyOf(rec)] == rec))
  {
  }

  /** Which decisions are taken, what they make of the request and what the caller hears. */
  lemma DecidedExactlyWhen(s: Store, key: string, decision: Decision, read: Time, now: Time, f: Files)
    ensures var (t, resolved) := Resolve(s, key, decision, read, now, f);
            var due := key in s.file && s.file[key].state.Pending? && decision != Unknown;
            && (resolved == Unresolved <==> !due)
            && (resolved.Updated? <==> due && f.write && f.project)
            && (resolved.Updated? ==>
                  var (state, expires) := match decision
                                          case Hour => (Approved, Until(read + 3_600_000_000))
                                          case Always => (Approved, RevokedOnly)
                                          case _ => (Declined, Odd);
                  resolved.rec == s.file[key].(state := state, expires := expires))
            && (!(due && f.write) ==> t == s)
            && (due && f.write && decision == Decline && !s.file[key].dispatched ==>
                  key in t.file && t.file[key] == s.file[key].(state := Declined, expires := Odd))
            && forall k :: k != key && k in s.file && s.file[k].state.Pending? ==>
                 k in t.file && t.file[k] == s.file[k]
  {
  }

  /** Which grants are revoked, and that they are then gone. */
  lemma RevokedExactlyWhen(s: Store, key: string, now: Time, f: Files)
    ensures var (t, revoked) := Revoke(s, key, now, f);
            var due := key in s.file && s.file[key].state.Approved?;
            && (revoked == NothingRevoked <==> !due)
            && (revoked == GrantRevoked <==> due && f.write && f.project)
            && (due && f.write ==> key !in t.file)
            && (!(due && f.write) ==> t == s)
            && forall k :: k in s.file && s.file[k].state.Pending? ==> k in t.file && t.file[k] == s.file[k]
  {
  }

  /** Which decisions a batch announces: the thread's own that were never announced, declines
      and grants that are still live; and that they are marked before anybody hears of them. */
  lemma AnnouncedExactly(s: Store, tid: string, read: Time, now: Time, f: Files, k: string)
    requires k in s.file
    ensures var (t, batch) := TakeUndispatched(s, tid, read, now, f);
            var r := s.file[k];
            var due := && r.tid == tid && !r.dispatched
                       && (r.state.Declined? || (r.state.Approved? && (r.expires == RevokedOnly ||
                                                                       (r.expires.Until? && read < r.expires.t))));
            && (k in batch <==> due && f.write && f.project)
            && (k in t.file ==> t.file[k] == if due && f.write then r.(dispatched := true) else r)
  {
  }

  /** What a mutation drops on the way: approvals that have expired by its clock, and
      announced declines whose stamp is older than seven days or cannot be read. */
  lemma PrunedExactly(s: Store, recs: map<string, Request>, now: Time, f: Files, k: string)
    requires f.write && k in recs
    ensures var r := recs[k];
            k !in Mutate(s, recs, now, f).0.file <==>
              || (r.state.Approved? && r.expires != RevokedOnly && !(r.expires.Until? && now < r.expires.t))
              || (r.state.Declined? && r.dispatched && (r.createdAt.None? || now - r.createdAt.value > 604_800_000_000))
    ensures k in Mutate(s, recs, now, f).0.file ==> Mutate(s, recs, now, f).0.file[k] == recs[k]
  {
  }

  /** A thread whose removal reports success has no record left; others lose only what has
      expired. */
  lemma RemovedThreadIsForgotten(s: Store, tid: string, now: Time, f: Files)
    requires RemoveThread(s, tid, now, f).1
    ensures var t := RemoveThread(s, tid, now, f).0;
            && (forall k :: k in t.file ==> t.file[k].tid != tid)
            && (forall k :: k in s.file && s.file[k].tid != tid && s.file[k].state.Pending? ==>
                  k in t.file && t.file[k] == s.file[k])
  {
    var kept := map k | k in s.file && s.file[k].tid != tid :: s.file[k];
    if kept == s.file {
      forall k | k in s.file ensures s.file[k].tid != tid { assert k in kept; }
    }
  }
}
