/**
 * The thread-affinity queue as a state machine.
 *
 * Every section of assist/thread_queue.py that runs under the queue's Condition
 * is one function from state to state here; module `ThreadQueue` proves the
 * mutable class against these functions, `QueueProofs` proves what every step
 * keeps, and `QueueTurns` adds the turns that use the queue and the clock.
 *
 * A handle is identified by its index in `handles` and a waiter by its ticket:
 * these stand for the object identities the source compares with `is`.
 */
module QueueSpec {
  import opened Common

  /** A re-arming timer: idle, or due to call back at `due`, started at `since`. */
  datatype Timer = Idle | Armed(since: real, due: real)

  datatype Handle = Handle(
    threadId: string,
    quantum: real,           // seconds
    holdTimeout: real,       // seconds
    accumulatedMs: real,     // active hold of earlier slices, milliseconds
    acquiredAt: real,        // start of this slice
    expired: bool,
    pauseRequested: bool,
    timer: Timer,
    inBlock: bool,           // the caller is still inside its `with` block
    ticks: nat               // callbacks that re-armed the timer so far
  )

  datatype Waiter = Waiter(
    ticket: nat,
    threadId: string,
    userPriority: bool,
    deadline: real,
    call: Call,
    notified: bool           // false: asleep in cond.wait with no notify since
  )

  /** The arguments of one `acquire` call. */
  datatype Call = Call(
    threadId: string,
    quantum: real,
    holdTimeout: real,
    accumulatedMs: real,
    userPriority: bool,
    waitTimeout: real
  )

  datatype State = State(
    now: real,
    holder: Option<nat>,
    user: seq<Waiter>,
    background: seq<Waiter>,
    activeHoldMs: map<string, real>,
    handles: seq<Handle>,
    tickets: nat
  )

  function Init(now: real): State {
    State(now, None, [], [], map[], [], 0)
  }

  function CumulativeS(h: Handle, now: real): real {
    h.accumulatedMs / 1000.0 + (now - h.acquiredAt)
  }

  function Min(a: real, b: real): real { if b < a then b else a }

  function Max(a: real, b: real): real { if b > a then b else a }

  /** Seconds until the next tick (`_next_tick_delay`). */
  function NextTickDelay(h: Handle, now: real): real {
    Max(0.0, Min(h.quantum, h.holdTimeout - CumulativeS(h, now)))
  }

  function Rearm(h: Handle, now: real): Handle {
    h.(timer := Armed(now, now + NextTickDelay(h, now)))
  }

  function NextWaiter(s: State): Option<Waiter> {
    if s.user != [] then Some(s.user[0])
    else if s.background != [] then Some(s.background[0])
    else None
  }

  predicate IsNext(s: State, ticket: nat) {
    NextWaiter(s).Some? && NextWaiter(s).value.ticket == ticket
  }

  /** The negation of the wait loop's guard: this waiter may take the slot. */
  predicate MayGo(s: State, ticket: nat) {
    s.holder.None? && IsNext(s, ticket)
  }

  function WakeAll(ws: seq<Waiter>): seq<Waiter> {
    seq(|ws|, i requires 0 <= i < |ws| => ws[i].(notified := true))
  }

  function NotifyAll(s: State): State {
    s.(user := WakeAll(s.user), background := WakeAll(s.background))
  }

  function SleepIn(ws: seq<Waiter>, ticket: nat): seq<Waiter> {
    seq(|ws|, i requires 0 <= i < |ws| =>
      if ws[i].ticket == ticket then ws[i].(notified := false) else ws[i])
  }

  function Sleep(s: State, ticket: nat): State {
    s.(user := SleepIn(s.user, ticket), background := SleepIn(s.background, ticket))
  }

  /** `deque.remove`: drops the first occurrence, if any. */
  function Without(ws: seq<Waiter>, ticket: nat): seq<Waiter> {
    if ws == [] then []
    else if ws[0].ticket == ticket then ws[1..]
    else [ws[0]] + Without(ws[1..], ticket)
  }

  /** A timed-out waiter leaves both queues and wakes everybody else. */
  function Leave(s: State, ticket: nat): State {
    NotifyAll(s.(user := Without(s.user, ticket), background := Without(s.background, ticket)))
  }

  function NewHandle(call: Call, now: real): Handle {
    Rearm(Handle(call.threadId, call.quantum, call.holdTimeout, call.accumulatedMs,
                 now, false, false, Idle, true, 0), now)
  }

  /** The slot is given to a fresh handle, whose first tick is started. */
  function Grant(s: State, call: Call): State {
    s.(holder := Some(|s.handles|), handles := s.handles + [NewHandle(call, s.now)])
  }

  /** `popleft` on the queue the waiter's own flag names. */
  function PopNamedQueue(s: State, w: Waiter): State
    requires if w.userPriority then s.user != [] else s.background != []
  {
    if w.userPriority then s.(user := s.user[1..]) else s.(background := s.background[1..])
  }

  /** Each waiter's flag names the queue it stands in. */
  predicate FlagsNameQueues(s: State) {
    && (forall i :: 0 <= i < |s.user| ==> s.user[i].userPriority)
    && (forall i :: 0 <= i < |s.background| ==> !s.background[i].userPriority)
  }

  predicate Queued(s: State, w: Waiter) { w in s.user || w in s.background }

  /** One evaluation of the wait loop by waiter `w`, which owns the lock. */
  function Recheck(s: State, w: Waiter): State
    requires FlagsNameQueues(s) && Queued(s, w)
  {
    if MayGo(s, w.ticket) then Grant(PopNamedQueue(s, w), w.call)
    else if w.deadline - s.now <= 0.0 then Leave(s, w.ticket)
    else Sleep(s, w.ticket)
  }

  predicate Reentrant(s: State, active: Option<nat>, call: Call) {
    && s.holder.Some?
    && s.holder.value < |s.handles|
    && s.handles[s.holder.value].threadId == call.threadId
    && active == s.holder
  }

  function Arrival(s: State, call: Call): Waiter {
    Waiter(s.tickets, call.threadId, call.userPriority, s.now + call.waitTimeout, call, true)
  }

  function Enqueue(s: State, w: Waiter): State {
    if w.userPriority then s.(user := s.user + [w], tickets := s.tickets + 1)
    else s.(background := s.background + [w], tickets := s.tickets + 1)
  }

  /** The first locked section of `acquire`, up to the first wait. */
  function Enter(s: State, active: Option<nat>, call: Call): State
    requires FlagsNameQueues(s)
  {
    if Reentrant(s, active, call) then s
    else if s.holder.None? && NextWaiter(s).None? then Grant(s, call)
    else
      var w := Arrival(s, call);
      Recheck(Enqueue(s, w), w)
  }

  function ReleaseIfHolder(s: State, h: nat): State {
    if s.holder == Some(h) then NotifyAll(s.(holder := None)) else s
  }

  /** The locked section that ends a `with` block. */
  function Exit(s: State, h: nat): State
    requires h < |s.handles|
  {
    var cur := s.handles[h];
    var s1 := s.(handles := s.handles[h := cur.(timer := Idle, inBlock := false)]);
    var s2 := if s.holder == Some(h)
              then s1.(activeHoldMs :=
                         s.activeHoldMs[cur.threadId := cur.accumulatedMs + (s.now - cur.acquiredAt) * 1000.0])
              else s1;
    ReleaseIfHolder(s2, h)
  }

  /** The timer callback (`_on_tick`). */
  function Tick(s: State, h: nat): State
    requires h < |s.handles|
  {
    var cur := s.handles[h];
    if s.holder != Some(h) then s
    else if CumulativeS(cur, s.now) >= cur.holdTimeout then
      ReleaseIfHolder(s.(handles := s.handles[h := cur.(expired := true, timer := Idle)]), h)
    else
      var pause := s.now - cur.acquiredAt >= cur.quantum && NextWaiter(s).Some?;
      s.(handles := s.handles[h := Rearm(cur.(pauseRequested := cur.pauseRequested || pause,
                                              ticks := cur.ticks + 1), s.now)])
  }

  function OfThread(ws: seq<Waiter>, tid: string): seq<Waiter> {
    if ws == [] then []
    else if ws[0].threadId == tid then [ws[0]] + OfThread(ws[1..], tid)
    else OfThread(ws[1..], tid)
  }

  function NotOfThread(ws: seq<Waiter>, tid: string): seq<Waiter> {
    if ws == [] then []
    else if ws[0].threadId != tid then [ws[0]] + NotOfThread(ws[1..], tid)
    else NotOfThread(ws[1..], tid)
  }

  function Raised(ws: seq<Waiter>): seq<Waiter> {
    seq(|ws|, i requires 0 <= i < |ws| => ws[i].(userPriority := true))
  }

  function Promote(s: State, tid: string): State {
    var promoted := OfThread(s.background, tid);
    if promoted == [] then s
    else NotifyAll(s.(user := s.user + Raised(promoted), background := NotOfThread(s.background, tid)))
  }

  predicate HoldsSlot(s: State, tid: string) {
    && s.holder.Some?
    && s.holder.value < |s.handles|
    && s.handles[s.holder.value].threadId == tid
  }

  function RequestPause(s: State, tid: string): State {
    if HoldsSlot(s, tid) then
      var h := s.holder.value;
      s.(handles := s.handles[h := s.handles[h].(pauseRequested := true)])
    else s
  }

  function PoppedHold(s: State, tid: string): real {
    if tid in s.activeHoldMs then s.activeHoldMs[tid] else 0.0
  }

  function PopHold(s: State, tid: string): State {
    s.(activeHoldMs := s.activeHoldMs - {tid})
  }

  /** What can happen next, in any order: calls, wake-ups, callbacks and time. */
  datatype Event =
    | Entering(active: Option<nat>, call: Call)
    | Waking(ticket: nat)
    | Exiting(handle: nat)
    | Ticking(handle: nat)
    | Promoting(tid: string)
    | Pausing(tid: string)
    | Popping(tid: string)
    | Passing(dt: real)

  predicate Waits(s: State, ticket: nat) {
    || (exists i :: 0 <= i < |s.user| && s.user[i].ticket == ticket)
    || (exists i :: 0 <= i < |s.background| && s.background[i].ticket == ticket)
  }

  /** First waiter with this ticket. */
  function Find(ws: seq<Waiter>, ticket: nat): (r: Option<Waiter>)
    ensures r.Some? ==> r.value in ws && r.value.ticket == ticket
    ensures r.None? <==> forall i :: 0 <= i < |ws| ==> ws[i].ticket != ticket
  {
    if ws == [] then None
    else if ws[0].ticket == ticket then Some(ws[0])
    else Find(ws[1..], ticket)
  }

  function Waiting(s: State, ticket: nat): (w: Waiter)
    requires Waits(s, ticket)
    ensures Queued(s, w) && w.ticket == ticket
  {
    if Find(s.user, ticket).Some? then Find(s.user, ticket).value else Find(s.background, ticket).value
  }

  predicate Enabled(s: State, e: Event) {
    match e
    case Entering(active, call) => true
    case Waking(ticket) => Waits(s, ticket)
    case Exiting(h) => h < |s.handles| && s.handles[h].inBlock
    case Ticking(h) => h < |s.handles|
    case Promoting(_) => true
    case Pausing(_) => true
    case Popping(_) => true
    case Passing(dt) => dt >= 0.0
  }

  function Step(s: State, e: Event): State
    requires FlagsNameQueues(s) && Enabled(s, e)
  {
    match e
    case Entering(active, call) => Enter(s, active, call)
    case Waking(ticket) => Recheck(s, Waiting(s, ticket))
    case Exiting(h) => Exit(s, h)
    case Ticking(h) => Tick(s, h)
    case Promoting(tid) => Promote(s, tid)
    case Pausing(tid) => RequestPause(s, tid)
    case Popping(tid) => PopHold(s, tid)
    case Passing(dt) => s.(now := s.now + dt)
  }
}
