/**
 * The egress store of assist/egress/store.py and the decision of the proxy that reads
 * its projection (dockerfiles/egress-proxy.py), as functions of the two files.
 */
module EgressStore {
  import opened Common

  /** Microseconds on the wall clock. */
  type Time = int

  const HOUR: Time := 3_600_000_000
  const DECLINED_RETENTION: Time := 7 * 24 * HOUR
  const PER_THREAD_PENDING_CAP := 3
  const GLOBAL_PENDING_CAP := 10

  /** The `expires_at` marker: the literal, an aware time stamp, or anything else. */
  datatype Marker = RevokedOnly | Until(t: Time) | Odd

  datatype Standing = Pending | Approved | Declined

  datatype Request = Request(
    host: string, port: nat, task: string, tid: string,
    createdAt: Option<Time>,      // None: an unparseable stamp
    state: Standing, expires: Marker, dispatched: bool)

  /** One entry of the projection, the only thing the proxy sees of a grant. */
  datatype Entry = Entry(host: string, port: nat, tid: string, expires: Marker)

  /** The request file and the projection (None: absent). */
  datatype Store = Store(file: map<string, Request>, projection: Option<map<string, Entry>>)

  function RequestKey(tid: string, host: string, port: nat): string {
    tid + ":" + host + ":" + Decimal(port)
  }

  function KeyOf(r: Request): string { RequestKey(r.tid, r.host, r.port) }

  /** `_grant_live` of both readers. */
  predicate MarkerLive(m: Marker, now: Time) {
    match m case RevokedOnly => true case Until(t) => t > now case Odd => false
  }

  predicate GrantLive(r: Request, now: Time) { r.state.Approved? && MarkerLive(r.expires, now) }

  predicate StaleDecline(r: Request, now: Time) {
    r.state.Declined? && r.dispatched &&
    (r.createdAt.Some? ==> now - r.createdAt.value > DECLINED_RETENTION)
  }

  predicate Keeps(r: Request, now: Time) {
    !(r.state.Approved? && !GrantLive(r, now)) && !StaleDecline(r, now)
  }

  function Pruned(recs: map<string, Request>, now: Time): map<string, Request> {
    map k | k in recs && Keeps(recs[k], now) :: recs[k]
  }

  function EntryOf(r: Request): Entry { Entry(r.host, r.port, r.tid, r.expires) }

  function Projected(recs: map<string, Request>): map<string, Entry> {
    map k | k in recs && recs[k].state.Approved? :: EntryOf(recs[k])
  }

  /** Which file operations of one mutation work. */
  datatype Files = Files(write: bool, project: bool, remove: bool)

  /** `_mutate`: prune, persist, regenerate the projection whole; fail closed. The flag
      is false when it raised. */
  function Mutate(s: Store, recs: map<string, Request>, now: Time, f: Files): (Store, bool) {
    if !f.write then (s, false)
    else
      var live := Pruned(recs, now);
      if f.project then (Store(live, Some(Projected(live))), true)
      else (Store(live, if f.remove then None else s.projection), false)
  }

  function PendingOf(recs: map<string, Request>, tid: string): set<string> {
    set k | k in recs && recs[k].state.Pending? && recs[k].tid == tid
  }

  function PendingIn(recs: map<string, Request>): set<string> {
    set k | k in recs && recs[k].state.Pending?
  }

  datatype Added = Inserted | ThreadCap | GlobalCap | AddFailed

  function AddPending(s: Store, rec: Request, now: Time, f: Files): (Store, Added) {
    if |PendingOf(s.file, rec.tid)| >= PER_THREAD_PENDING_CAP then (s, ThreadCap)
    else if |PendingIn(s.file)| >= GLOBAL_PENDING_CAP then (s, GlobalCap)
    else
      var (s', ok) := Mutate(s, s.file[KeyOf(rec) := rec], now, f);
      (s', if ok then Inserted else AddFailed)
  }

  /** "hour", "always", "decline", or any other string. */
  datatype Decision = Hour | Always | Decline | Unknown

  /** What a decision makes of a pending request; None for an unknown decision. */
  function Decided(r: Request, decision: Decision, now: Time): Option<Request> {
    match decision
    case Hour => Some(r.(state := Approved, expires := Until(now + HOUR)))
    case Always => Some(r.(state := Approved, expires := RevokedOnly))
    case Decline => Some(r.(state := Declined, expires := Odd))
    case Unknown => None
  }

  datatype Resolved = Unresolved | Updated(rec: Request) | ResolveFailed

  /** `read` and `now` are the clock readings of `resolve` and of `_mutate`. */
  function Resolve(s: Store, key: string, decision: Decision, read: Time, now: Time, f: Files): (Store, Resolved) {
    if key !in s.file || !s.file[key].state.Pending? then (s, Unresolved)
    else
      match Decided(s.file[key], decision, read)
      case None => (s, Unresolved)
      case Some(rec) =>
        var (s', ok) := Mutate(s, s.file[key := rec], now, f);
        (s', if ok then Updated(rec) else ResolveFailed)
  }

  datatype Revoked = NothingRevoked | GrantRevoked | RevokeFailed

  function Revoke(s: Store, key: string, now: Time, f: Files): (Store, Revoked) {
    if key !in s.file || !s.file[key].state.Approved? then (s, NothingRevoked)
    else
      var (s', ok) := Mutate(s, s.file - {key}, now, f);
      (s', if ok then GrantRevoked else RevokeFailed)
  }

  /** The keys `take_undispatched` announces. */
  function BatchKeys(recs: map<string, Request>, tid: string, read: Time): set<string> {
    set k | k in recs && recs[k].tid == tid && !recs[k].dispatched
            && (recs[k].state.Declined? || GrantLive(recs[k], read))
  }

  function Marked(recs: map<string, Request>, keys: set<string>): map<string, Request> {
    map k | k in recs :: if k in keys then recs[k].(dispatched := true) else recs[k]
  }

  /** The keys of the batch handed out (none when the mutation raised). */
  function TakeUndispatched(s: Store, tid: string, read: Time, now: Time, f: Files): (Store, set<string>) {
    var batch := BatchKeys(s.file, tid, read);
    if batch == {} then (s, {})
    else
      var (s', ok) := Mutate(s, Marked(s.file, batch), now, f);
      (s', if ok then batch else {})
  }

  function RemoveThread(s: Store, tid: string, now: Time, f: Files): (Store, bool) {
    var kept := map k | k in s.file && s.file[k].tid != tid :: s.file[k];
    if kept == s.file then (s, true) else Mutate(s, kept, now, f)
  }

  function LiveGrants(s: Store, now: Time): set<string> {
    set k | k in s.file && GrantLive(s.file[k], now)
  }

  // ------------------------------------------------------------------
  // The proxy
  // ------------------------------------------------------------------

  function LowerChar(c: char): char {
    if 'A' <= c <= 'Z' then (c as int + 32) as char else c
  }

  function Lower(s: string): string {
    seq(|s|, i requires 0 <= i < |s| => LowerChar(s[i]))
  }

  /** `_read_small_json`: absent or oversized files read as empty. */
  function ReadSmall<T>(file: Option<map<string, T>>, fits: bool): map<string, T> {
    if file.Some? && fits then file.value else map[]
  }

  /** `approved_target`: does a live grant of the client's own thread cover the target? */
  predicate ApprovedTarget(host: string, port: nat, ip: string,
                           clients: Option<map<string, string>>, clientsFit: bool,
                           projection: Option<map<string, Entry>>, projectionFits: bool, now: Time)
  {
    var byIp := ReadSmall(clients, clientsFit);
    var grants := ReadSmall(projection, projectionFits);
    && ip in byIp && byIp[ip] != ""
    && var key := RequestKey(byIp[ip], host, port);
       && key in grants
       && Lower(grants[key].host) == host
       && grants[key].port == port
       && grants[key].tid == byIp[ip]
       && MarkerLive(grants[key].expires, now)
  }
}
