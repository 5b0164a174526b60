/**
 * The cumulative-active cap over whole runs.
 *
 * A turn acquires the slot, may be paused, carries what `pop_hold` returns as the
 * seed of its next `acquire`, and so on. Each turn keeps history variables: the real
 * time it has held the slot and the number of slices it was granted, both since the
 * last time a carry was lost, and what was lost. Timers call back no later than `slack`
 * seconds after they are due.
 */
module QueueTurns {
  import opened Common
  import opened QueueSpec
  import opened QueueProofs

  datatype Stage =
    | Paused(carryMs: real)      // not started, or paused with its carry
    | Standing(ticket: nat)      // waiting in a queue
    | Holding(handle: nat)       // inside its `with` block
    | Draining(handle: nat)      // left the block, `pop_hold` still to come
    | Finished

  /** How often a turn was paused after its handle had been force-released, and the time
      and the slices behind it then. */
  datatype Lost = Lost(times: nat, ms: real, slices: nat)

  const NOTHING_LOST := Lost(0, 0.0, 0)

  datatype Turn = Turn(threadId: string, quantum: real, cap: real,
                       stage: Stage, heldMs: real, slices: nat, lost: Lost) {
    /** All the time the turn has held the slot. */
    function TotalMs(): real { heldMs + lost.ms }

    function TotalSlices(): nat { slices + lost.slices }
  }

  /** `owners[h]` is the turn that handle h was granted to. */
  datatype System = System(q: State, turns: seq<Turn>, owners: seq<nat>)

  datatype Move =
    | Begin(tid: string, quantum: real, cap: real)
    | Acquire(turn: nat, userPriority: bool, waitTimeout: real)
    | Wake(turn: nat)
    | Depart(turn: nat)
    | Drain(turn: nat, paused: bool)
    | Tock(handle: nat)
    | Elevate(tid: string)
    | Ask(tid: string)
    | Pass(dt: real)

  function Empty(now: real): System { System(Init(now), [], []) }

  function CallOf(t: Turn, userPriority: bool, waitTimeout: real): Call
    requires t.stage.Paused?
  {
    Call(t.threadId, t.quantum, t.cap, t.stage.carryMs, userPriority, waitTimeout)
  }

  /** One turn of the thread at a time is between its exit and its `pop_hold`. */
  ghost predicate NobodyDrains(y: System, tid: string) {
    forall u :: 0 <= u < |y.turns| && y.turns[u].threadId == tid ==> !y.turns[u].stage.Draining?
  }

  ghost predicate MayMove(y: System, m: Move, slack: real) {
    match m
    case Begin(tid, quantum, cap) => cap >= 0.0
    case Acquire(t, up, wt) => t < |y.turns| && y.turns[t].stage.Paused?
    case Wake(t) => t < |y.turns| && y.turns[t].stage.Standing? && Waits(y.q, y.turns[t].stage.ticket)
    case Depart(t) =>
      && t < |y.turns| && y.turns[t].stage.Holding?
      && Enabled(y.q, Exiting(y.turns[t].stage.handle))
      && NobodyDrains(y, y.turns[t].threadId)
    case Drain(t, paused) =>
      && t < |y.turns| && y.turns[t].stage.Draining?
      && y.turns[t].stage.handle < |y.q.handles|
      && (paused ==> y.q.handles[y.turns[t].stage.handle].pauseRequested)
    case Tock(h) =>
      && h < |y.q.handles|
      && (y.q.holder == Some(h) ==>
            y.q.handles[h].timer.Armed? && y.q.handles[h].timer.due <= y.q.now)
    case Elevate(_) => true
    case Ask(_) => true
    case Pass(dt) =>
      && dt >= 0.0
      && (y.q.holder.Some? ==>
            && y.q.holder.value < |y.q.handles| && y.q.holder.value < |y.owners|
            && y.owners[y.q.holder.value] < |y.turns|
            && y.q.handles[y.q.holder.value].timer.Armed?
            && y.q.now + dt <= y.q.handles[y.q.holder.value].timer.due + slack)
  }

  /** The queue event behind a move, if there is one. */
  function EventOf(y: System, m: Move): Option<Event>
    requires m.Acquire? ==> m.turn < |y.turns| && y.turns[m.turn].stage.Paused?
    requires m.Wake? ==> m.turn < |y.turns| && y.turns[m.turn].stage.Standing?
    requires m.Depart? ==> m.turn < |y.turns| && y.turns[m.turn].stage.Holding?
    requires m.Drain? ==> m.turn < |y.turns|
  {
    match m
    case Begin(_, _, _) => None
    case Acquire(t, up, wt) => Some(Entering(None, CallOf(y.turns[t], up, wt)))
    case Wake(t) => Some(Waking(y.turns[t].stage.ticket))
    case Depart(t) => Some(Exiting(y.turns[t].stage.handle))
    case Drain(t, _) => Some(Popping(y.turns[t].threadId))
    case Tock(h) => Some(Ticking(h))
    case Elevate(tid) => Some(Promoting(tid))
    case Ask(tid) => Some(Pausing(tid))
    case Pass(dt) => Some(Passing(dt))
  }

  /** What became of a caller that owned the lock: it holds, waits or timed out. */
  function Settled(q: State, r: State, t: Turn, ticket: nat): Turn {
    if |r.handles| > |q.handles| then t.(stage := Holding(|q.handles|), slices := t.slices + 1)
    else if Waits(r, ticket) then t.(stage := Standing(ticket))
    else t.(stage := Finished)
  }

  /** A paused turn with what `pop_hold` returns. From a force-released handle nothing was
      persisted, so the account of the turn starts anew. */
  function Resumable(y: System, t: nat): Turn
    requires t < |y.turns| && y.turns[t].stage.Draining? && y.turns[t].stage.handle < |y.q.handles|
  {
    var u := y.turns[t].(stage := Paused(PoppedHold(y.q, y.turns[t].threadId)));
    if !y.q.handles[y.turns[t].stage.handle].expired then u
    else u.(heldMs := 0.0, slices := 0, lost := Lost(u.lost.times + 1, u.lost.ms + u.heldMs, u.lost.slices + u.slices))
  }

  ghost function Do(y: System, m: Move, slack: real): System
    requires Inv(y.q) && MayMove(y, m, slack)
  {
    var e := EventOf(y, m);
    var q := y.q;
    var r := if e.Some? then Step(q, e.value) else q;
    match m
    case Begin(tid, quantum, cap) =>
      y.(turns := y.turns + [Turn(tid, quantum, cap, Paused(0.0), 0.0, 0, NOTHING_LOST)])
    case Acquire(t, up, wt) =>
      System(r, y.turns[t := Settled(q, r, y.turns[t], q.tickets)],
             if |r.handles| > |q.handles| then y.owners + [t] else y.owners)
    case Wake(t) =>
      System(r, y.turns[t := Settled(q, r, y.turns[t], y.turns[t].stage.ticket)],
             if |r.handles| > |q.handles| then y.owners + [t] else y.owners)
    case Depart(t) =>
      System(r, y.turns[t := y.turns[t].(stage := Draining(y.turns[t].stage.handle))], y.owners)
    case Drain(t, paused) =>
      System(r, y.turns[t := if paused then Resumable(y, t) else y.turns[t].(stage := Finished)], y.owners)
    case Tock(_) => y.(q := r)
    case Elevate(_) => y.(q := r)
    case Ask(_) => y.(q := r)
    case Pass(dt) =>
      if q.holder.None? then y.(q := r)
      else
        var t := y.owners[q.holder.value];
        System(r, y.turns[t := y.turns[t].(heldMs := y.turns[t].heldMs + dt * 1000.0)], y.owners)
  }

  /** n slices' worth of lateness. */
  ghost function Times(slack: real, n: nat): real {
    if n == 0 then 0.0 else Times(slack, n - 1) + slack
  }

  lemma {:induction false} TimesIsProduct(slack: real, n: nat)
    ensures Times(slack, n) == slack * (n as real)
  {
    if n > 0 {
      TimesIsProduct(slack, n - 1);
      var m := (n - 1) as real;
      assert n as real == m + 1.0;
      Distribute(slack, m, 1.0);
      SameProduct(slack, n as real, m + 1.0);
    }
  }

  lemma SameProduct(a: real, b: real, c: real)
    requires b == c
    ensures a * b == a * c
  {
  }

  lemma Distribute(a: real, b: real, c: real)
    ensures a * (b + c) == a * b + a * c
  {
  }

  lemma {:induction false} TimesPositive(slack: real, n: nat)
    requires slack >= 0.0
    ensures Times(slack, n) >= 0.0
  {
    if n > 0 { TimesPositive(slack, n - 1); }
  }

  // ------------------------------------------------------------------
  // The accounting invariant
  // ------------------------------------------------------------------

  ghost predicate ServedAs(ws: seq<Waiter>, ticket: nat, t: Turn) {
    forall i :: 0 <= i < |ws| && ws[i].ticket == ticket ==>
      && ws[i].call.threadId == t.threadId
      && ws[i].call.holdTimeout == t.cap
      && ws[i].call.quantum == t.quantum
      && ws[i].call.accumulatedMs == t.heldMs
  }

  ghost predicate HandleOf(y: System, h: nat, k: nat) {
    && h < |y.q.handles| && h < |y.owners| && y.owners[h] == k
    && k < |y.turns|
    && y.q.handles[h].threadId == y.turns[k].threadId
    && y.q.handles[h].holdTimeout == y.turns[k].cap
    && y.q.handles[h].quantum == y.turns[k].quantum
  }

  /** The holder's books: its slice and seed add up to the time really held, its
      next tick is due no later than the cap, and the clock has not passed that by
      more than the slack. */
  ghost predicate HolderBooks(h: Handle, t: Turn, now: real, slack: real) {
    && t.heldMs == h.accumulatedMs + (now - h.acquiredAt) * 1000.0
    && h.timer.Armed?
    && h.timer.due == h.timer.since + NextTickDelay(h, h.timer.since)
    && h.acquiredAt <= h.timer.since
    && h.timer.due <= h.acquiredAt + Max(0.0, h.holdTimeout - h.accumulatedMs / 1000.0)
    && now <= h.timer.due + slack
    && Times(h.quantum, h.ticks) <= h.timer.since - h.acquiredAt
    && (h.ticks > 0 ==> CumulativeS(h, h.timer.since) < h.holdTimeout)
  }

  ghost predicate TurnBooks(y: System, k: nat, slack: real)
    requires k < |y.turns|
  {
    var t := y.turns[k];
    && t.cap >= 0.0
    && t.heldMs <= 1000.0 * (t.cap + Times(slack, t.slices))
    && match t.stage
       case Paused(c) => c == t.heldMs
       case Standing(ticket) =>
         && Waits(y.q, ticket) && ticket < y.q.tickets
         && ServedAs(y.q.user, ticket, t) && ServedAs(y.q.background, ticket, t)
       case Holding(h) =>
         && HandleOf(y, h, k)
         && y.q.handles[h].inBlock
         && t.slices > 0
         && (!y.q.handles[h].expired ==>
               && y.q.holder == Some(h)
               && HolderBooks(y.q.handles[h], t, y.q.now, slack)
               && y.q.handles[h].accumulatedMs <= 1000.0 * (t.cap + Times(slack, t.slices - 1)))
       case Draining(h) =>
         && HandleOf(y, h, k)
         && !y.q.handles[h].inBlock
         && (!y.q.handles[h].expired ==>
               t.threadId in y.q.activeHoldMs && y.q.activeHoldMs[t.threadId] == t.heldMs)
       case Finished => true
  }

  /** Turn u has left an unexpired slice and has still to pop its hold. */
  ghost predicate KeepsEntry(y: System, u: int, tid: string) {
    && 0 <= u < |y.turns| && y.turns[u].threadId == tid && y.turns[u].stage.Draining?
    && y.turns[u].stage.handle < |y.q.handles| && !y.q.handles[y.turns[u].stage.handle].expired
  }

  ghost predicate Apart2(y: System) {
    && (forall i, j :: 0 <= i < j < |y.turns| && y.turns[i].stage.Standing? && y.turns[j].stage.Standing? ==>
          y.turns[i].stage.ticket != y.turns[j].stage.ticket)
    && (forall i, j :: 0 <= i < j < |y.turns| && y.turns[i].stage.Draining? && y.turns[j].stage.Draining? ==>
          y.turns[i].threadId != y.turns[j].threadId)
  }

  ghost predicate Books(y: System, slack: real) {
    && Inv(y.q)
    && |y.owners| == |y.q.handles|
    && (forall k :: 0 <= k < |y.turns| ==> TurnBooks(y, k, slack))
    && Apart2(y)
    && (y.q.holder.Some? ==>
          && y.owners[y.q.holder.value] < |y.turns|
          && y.turns[y.owners[y.q.holder.value]].stage == Holding(y.q.holder.value))
    && (forall tid :: tid in y.q.activeHoldMs ==> exists u :: KeepsEntry(y, u, tid))
  }

  // ------------------------------------------------------------------
  // What a queue step leaves alone
  // ------------------------------------------------------------------

  lemma FilterServed(ws: seq<Waiter>, tid: string, ticket: nat, t: Turn)
    requires DistinctIn(ws) && ServedAs(ws, ticket, t)
    ensures ServedAs(OfThread(ws, tid), ticket, t) && ServedAs(NotOfThread(ws, tid), ticket, t)
  {
    FilterKeeps(ws, tid);
    var a, b := OfThread(ws, tid), NotOfThread(ws, tid);
    forall i | 0 <= i < |a| && a[i].ticket == ticket
      ensures a[i].call.threadId == t.threadId && a[i].call.holdTimeout == t.cap
              && a[i].call.quantum == t.quantum && a[i].call.accumulatedMs == t.heldMs
    {
      assert a[i] in a;
      assert a[i] in ws;
    }
    forall i | 0 <= i < |b| && b[i].ticket == ticket
      ensures b[i].call.threadId == t.threadId && b[i].call.holdTimeout == t.cap
              && b[i].call.quantum == t.quantum && b[i].call.accumulatedMs == t.heldMs
    {
      assert b[i] in b;
      assert b[i] in ws;
    }
  }

  lemma RecheckServed(s: State, w: Waiter, ticket: nat, t: Turn)
    requires FlagsNameQueues(s) && OnePlaceEach(s) && Queued(s, w)
    requires ServedAs(s.user, ticket, t) && ServedAs(s.background, ticket, t)
    ensures ServedAs(Recheck(s, w).user, ticket, t) && ServedAs(Recheck(s, w).background, ticket, t)
  {
    WithoutKeeps(s.user, w.ticket);
    WithoutKeeps(s.background, w.ticket);
    if MayGo(s, w.ticket) { PopIsRemoval(s, w); }
  }

  /** The arguments of a suspended `acquire` never change. */
  lemma StepServed(q: State, e: Event, ticket: nat, t: Turn)
    requires Inv(q) && Enabled(q, e) && ticket < q.tickets
    requires ServedAs(q.user, ticket, t) && ServedAs(q.background, ticket, t)
    ensures ServedAs(Step(q, e).user, ticket, t) && ServedAs(Step(q, e).background, ticket, t)
  {
    match e
    case Entering(active, call) =>
      if !Reentrant(q, active, call) && !(q.holder.None? && NextWaiter(q).None?) {
        var w := Arrival(q, call);
        EnqueueForRecheck(q, w);
        RecheckServed(Enqueue(q, w), w, ticket, t);
      }
    case Waking(k) => RecheckServed(q, Waiting(q, k), ticket, t);
    case Promoting(tid) => FilterServed(q.background, tid, ticket, t);
    case _ =>
  }

  lemma {:induction false} WithoutOther(ws: seq<Waiter>, gone: nat, i: nat)
    requires i < |ws| && ws[i].ticket != gone
    ensures exists j :: 0 <= j < |Without(ws, gone)| && Without(ws, gone)[j] == ws[i]
  {
    var r := Without(ws, gone);
    if ws[0].ticket == gone {
      assert r[i - 1] == ws[i];
    } else if i == 0 {
      assert r[0] == ws[0];
    } else {
      WithoutOther(ws[1..], gone, i - 1);
      var j :| 0 <= j < |Without(ws[1..], gone)| && Without(ws[1..], gone)[j] == ws[1..][i - 1];
      assert r[j + 1] == ws[i];
    }
  }

  lemma LeaveStillWaits(s: State, gone: nat, ticket: nat)
    requires Waits(s, ticket) && ticket != gone
    ensures Waits(Leave(s, gone), ticket)
  {
    var r := Leave(s, gone);
    if i :| 0 <= i < |s.user| && s.user[i].ticket == ticket {
      WithoutOther(s.user, gone, i);
      var j :| 0 <= j < |Without(s.user, gone)| && Without(s.user, gone)[j] == s.user[i];
      assert r.user[j].ticket == ticket;
    } else {
      var i :| 0 <= i < |s.background| && s.background[i].ticket == ticket;
      WithoutOther(s.background, gone, i);
      var j :| 0 <= j < |Without(s.background, gone)| && Without(s.background, gone)[j] == s.background[i];
      assert r.background[j].ticket == ticket;
    }
  }

  lemma RecheckStillWaits(s: State, w: Waiter, ticket: nat)
    requires FlagsNameQueues(s) && OnePlaceEach(s) && Queued(s, w) && Waits(s, ticket) && ticket != w.ticket
    ensures Waits(Recheck(s, w), ticket)
  {
    var r := Recheck(s, w);
    if MayGo(s, w.ticket) {
      PopIsRemoval(s, w);
      LeaveStillWaits(s, w.ticket, ticket);
      if i :| 0 <= i < |Leave(s, w.ticket).user| && Leave(s, w.ticket).user[i].ticket == ticket {
        assert r.user[i].ticket == ticket;
      } else {
        var i :| 0 <= i < |Leave(s, w.ticket).background| && Leave(s, w.ticket).background[i].ticket == ticket;
        assert r.background[i].ticket == ticket;
      }
    } else if w.deadline - s.now <= 0.0 {
      LeaveStillWaits(s, w.ticket, ticket);
    } else {
      if i :| 0 <= i < |s.user| && s.user[i].ticket == ticket {
        assert r.user[i].ticket == ticket;
      } else {
        var i :| 0 <= i < |s.background| && s.background[i].ticket == ticket;
        assert r.background[i].ticket == ticket;
      }
    }
  }

  lemma EnqueueStillWaits(s: State, w: Waiter, ticket: nat)
    requires Waits(s, ticket)
    ensures Waits(Enqueue(s, w), ticket)
  {
    var r := Enqueue(s, w);
    if i :| 0 <= i < |s.user| && s.user[i].ticket == ticket {
      assert r.user[i].ticket == ticket;
    } else {
      var i :| 0 <= i < |s.background| && s.background[i].ticket == ticket;
      assert r.background[i].ticket == ticket;
    }
  }

  lemma PromoteStillWaits(s: State, tid: string, ticket: nat)
    requires Waits(s, ticket)
    ensures Waits(Promote(s, tid), ticket)
  {
    var r := Promote(s, tid);
    var f, g := OfThread(s.background, tid), NotOfThread(s.background, tid);
    if i :| 0 <= i < |s.user| && s.user[i].ticket == ticket {
      assert r.user[i].ticket == ticket;
    } else {
      var i :| 0 <= i < |s.background| && s.background[i].ticket == ticket;
      FilterMember(s.background, tid, i);
      if f == [] {
        assert r.background[i].ticket == ticket;
      } else if s.background[i].threadId == tid {
        var p :| 0 <= p < |f| && f[p] == s.background[i];
        assert r.user[|s.user| + p].ticket == ticket;
      } else {
        var p :| 0 <= p < |g| && g[p] == s.background[i];
        assert r.background[p].ticket == ticket;
      }
    }
  }

  /** Nobody but the waiter itself takes it out of the queues. */
  lemma StepStillWaits(q: State, e: Event, ticket: nat)
    requires Inv(q) && Enabled(q, e) && Waits(q, ticket) && ticket < q.tickets && e != Waking(ticket)
    ensures Waits(Step(q, e), ticket)
  {
    var r := Step(q, e);
    match e
    case Entering(active, call) =>
      if !Reentrant(q, active, call) {
        if !(q.holder.None? && NextWaiter(q).None?) {
          var w := Arrival(q, call);
          EnqueueForRecheck(q, w);
          EnqueueStillWaits(q, w, ticket);
          RecheckStillWaits(Enqueue(q, w), w, ticket);
        }
      }
    case Waking(k) => RecheckStillWaits(q, Waiting(q, k), ticket);
    case Promoting(tid) => PromoteStillWaits(q, tid, ticket);
    case _ =>
      if i :| 0 <= i < |q.user| && q.user[i].ticket == ticket {
        assert r.user[i].ticket == ticket;
      } else {
        var i :| 0 <= i < |q.background| && q.background[i].ticket == ticket;
        assert r.background[i].ticket == ticket;
      }
  }

  /** Two handles that agree in everything but the pause flag. */
  ghost predicate SameButPause(a: Handle, b: Handle) {
    b == a.(pauseRequested := b.pauseRequested)
  }

  lemma RecheckIsQuiet(q: State, w: Waiter)
    requires FlagsNameQueues(q) && OnePlaceEach(q) && SlotExact(q) && Queued(q, w)
    ensures var r := Recheck(q, w);
            && r.now == q.now && r.tickets == q.tickets && r.activeHoldMs == q.activeHoldMs
            && ((r.handles == q.handles && r.holder == q.holder)
                || (q.holder.None? && r.holder == Some(|q.handles|)
                    && r.handles == q.handles + [NewHandle(w.call, q.now)]))
  {
    if MayGo(q, w.ticket) { PopIsRemoval(q, w); }
  }

  /** Entering, waking, promoting, pausing and popping touch no existing handle but
      for the pause flag, and neither the clock nor an occupied slot. */
  lemma QuietStep(q: State, e: Event)
    requires Inv(q) && Enabled(q, e)
    requires e.Entering? || e.Waking? || e.Promoting? || e.Pausing? || e.Popping?
    ensures var r := Step(q, e);
            && r.now == q.now && |q.handles| <= |r.handles| <= |q.handles| + 1
            && (forall h :: 0 <= h < |q.handles| ==> SameButPause(q.handles[h], r.handles[h]))
            && (|r.handles| == |q.handles| ==> r.holder == q.holder)
            && (|r.handles| > |q.handles| ==> q.holder.None? && r.holder == Some(|q.handles|))
            && q.tickets <= r.tickets
            && (!e.Popping? ==> r.activeHoldMs == q.activeHoldMs)
  {
    if e.Waking? {
      RecheckIsQuiet(q, Waiting(q, e.ticket));
    } else if e.Entering? && !Reentrant(q, e.active, e.call) && !(q.holder.None? && NextWaiter(q).None?) {
      var w := Arrival(q, e.call);
      EnqueueForRecheck(q, w);
      RecheckIsQuiet(Enqueue(q, w), w);
    }
  }

  // ------------------------------------------------------------------
  // Every move keeps the books
  // ------------------------------------------------------------------

  /** A turn that a quiet step is not about keeps its books. */
  lemma QuietTurn(y: System, e: Event, z: System, k: nat, slack: real)
    requires Books(y, slack) && Enabled(y.q, e) && k < |y.turns|
    requires e.Entering? || e.Waking? || e.Promoting? || e.Pausing? ||
             (e.Popping? && NobodyElseDrains(y, k, e.tid))
    requires z.q == Step(y.q, e) && |z.turns| == |y.turns| && z.turns[k] == y.turns[k]
    requires y.owners <= z.owners
    requires y.turns[k].stage.Standing? ==> e != Waking(y.turns[k].stage.ticket)
    ensures TurnBooks(z, k, slack)
  {
    var t := y.turns[k];
    QuietStep(y.q, e);
    assert TurnBooks(y, k, slack);
    match t.stage
    case Standing(ticket) =>
      StepServed(y.q, e, ticket, t);
      StepStillWaits(y.q, e, ticket);
    case Holding(h) =>
      assert z.owners[h] == y.owners[h];
      assert SameButPause(y.q.handles[h], z.q.handles[h]);
    case Draining(h) =>
      assert z.owners[h] == y.owners[h];
      assert SameButPause(y.q.handles[h], z.q.handles[h]);
    case _ =>
  }

  ghost predicate NobodyElseDrains(y: System, k: nat, tid: string) {
    k < |y.turns| && (y.turns[k].stage.Draining? ==> y.turns[k].threadId != tid)
  }

  /** The books of a turn that has just been granted a slice. */
  lemma GrantedTurn(y: System, e: Event, k: nat, call: Call, slack: real)
    requires Books(y, slack) && slack >= 0.0 && Enabled(y.q, e) && k < |y.turns|
    requires y.q.holder.None?
    requires Step(y.q, e).handles == y.q.handles + [NewHandle(call, y.q.now)]
    requires Step(y.q, e).holder == Some(|y.q.handles|) && Step(y.q, e).now == y.q.now
    requires call.threadId == y.turns[k].threadId && call.holdTimeout == y.turns[k].cap
    requires call.quantum == y.turns[k].quantum && call.accumulatedMs == y.turns[k].heldMs
    ensures var t := y.turns[k].(stage := Holding(|y.q.handles|), slices := y.turns[k].slices + 1);
            TurnBooks(System(Step(y.q, e), y.turns[k := t], y.owners + [k]), k, slack)
  {
    var t := y.turns[k].(stage := Holding(|y.q.handles|), slices := y.turns[k].slices + 1);
    var h := NewHandle(call, y.q.now);
    assert TurnBooks(y, k, slack);
    assert h.timer.due == h.timer.since + NextTickDelay(h, h.timer.since);
    assert HolderBooks(h, t, y.q.now, slack);
  }

  lemma EntryStays(y: System, z: System)
    requires |z.turns| >= |y.turns| && |z.q.handles| >= |y.q.handles|
    requires forall u :: 0 <= u < |y.turns| && y.turns[u].stage.Draining? ==> z.turns[u] == y.turns[u]
    requires forall h :: 0 <= h < |y.q.handles| ==> z.q.handles[h].expired == y.q.handles[h].expired
    ensures forall u, tid :: KeepsEntry(y, u, tid) ==> KeepsEntry(z, u, tid)
  {
  }

  /** The turn that calls `acquire`: it holds, waits with its own ticket, or timed out. */
  lemma AcquiredTurn(y: System, m: Move, slack: real)
    requires Books(y, slack) && slack >= 0.0 && MayMove(y, m, slack) && m.Acquire?
    ensures var z := Do(y, m, slack);
            && TurnBooks(z, m.turn, slack) && |z.owners| == |z.q.handles|
            && (z.turns[m.turn].stage.Standing? ==> z.turns[m.turn].stage.ticket == y.q.tickets)
            && !z.turns[m.turn].stage.Draining?
            && (z.q.handles != y.q.handles ==> z.turns[m.turn].stage == Holding(|y.q.handles|))
  {
    var k, q := m.turn, y.q;
    var call := CallOf(y.turns[k], m.userPriority, m.waitTimeout);
    var z := Do(y, m, slack);
    assert TurnBooks(y, k, slack);
    EnterOutcome(q, None, call);
    var w := Arrival(q, call).(notified := false);
    if q.holder.None? && q.user == [] && (call.userPriority || q.background == []) {
      GrantedTurn(y, Entering(None, call), k, call, slack);
    } else if call.waitTimeout > 0.0 {
      if call.userPriority {
        assert z.q.user[|q.user|] == w;
      } else {
        assert z.q.background[|q.background|] == w;
      }
      assert Waits(z.q, q.tickets);
    } else {
      assert !Waits(z.q, q.tickets);
    }
  }

  lemma AcquireKeepsBooks(y: System, m: Move, slack: real)
    requires Books(y, slack) && slack >= 0.0 && MayMove(y, m, slack) && m.Acquire?
    ensures Books(Do(y, m, slack), slack)
  {
    var k, q := m.turn, y.q;
    var e := EventOf(y, m).value;
    var z := Do(y, m, slack);
    StepKeepsInv(q, e);
    QuietStep(q, e);
    AcquiredTurn(y, m, slack);
    forall i | 0 <= i < |y.turns| && i != k
      ensures TurnBooks(z, i, slack)
    {
      QuietTurn(y, e, z, i, slack);
    }
    assert Apart2(z) by {
      forall i | 0 <= i < |y.turns| && y.turns[i].stage.Standing?
        ensures y.turns[i].stage.ticket < q.tickets
      {
        assert TurnBooks(y, i, slack);
      }
    }
    EntryStays(y, z);
  }

  lemma WokenTurn(y: System, m: Move, slack: real)
    requires Books(y, slack) && slack >= 0.0 && MayMove(y, m, slack) && m.Wake?
    ensures TurnBooks(Do(y, m, slack), m.turn, slack)
    ensures Do(y, m, slack).turns[m.turn].stage.Standing? ==> Do(y, m, slack).turns[m.turn] == y.turns[m.turn]
    ensures |Do(y, m, slack).owners| == |Do(y, m, slack).q.handles|
    ensures Do(y, m, slack).q.handles != y.q.handles ==>
              Do(y, m, slack).turns[m.turn].stage == Holding(|y.q.handles|)
  {
    var k, q := m.turn, y.q;
    var ticket := y.turns[k].stage.ticket;
    var w := Waiting(q, ticket);
    assert TurnBooks(y, k, slack);
    if MayGo(q, ticket) {
      HeadIsWaiting(q);
      HeadOutcome(q, ticket);
      GrantedTurn(y, Waking(ticket), k, w.call, slack);
    } else {
      StepServed(q, Waking(ticket), ticket, y.turns[k]);
      StepTickets(q, Waking(ticket));
    }
  }

  lemma WakeKeepsBooks(y: System, m: Move, slack: real)
    requires Books(y, slack) && slack >= 0.0 && MayMove(y, m, slack) && m.Wake?
    ensures Books(Do(y, m, slack), slack)
  {
    var k, q := m.turn, y.q;
    var e := Waking(y.turns[k].stage.ticket);
    var z := Do(y, m, slack);
    StepKeepsInv(q, e);
    QuietStep(q, e);
    WokenTurn(y, m, slack);
    forall i | 0 <= i < |y.turns| && i != k
      ensures TurnBooks(z, i, slack)
    {
      QuietTurn(y, e, z, i, slack);
    }
    EntryStays(y, z);
  }

  lemma QuietMoveKeepsBooks(y: System, m: Move, slack: real)
    requires Books(y, slack) && slack >= 0.0 && MayMove(y, m, slack) && (m.Elevate? || m.Ask?)
    ensures Books(Do(y, m, slack), slack)
  {
    var e := EventOf(y, m).value;
    var z := Do(y, m, slack);
    StepKeepsInv(y.q, e);
    QuietStep(y.q, e);
    forall i | 0 <= i < |y.turns|
      ensures TurnBooks(z, i, slack)
    {
      QuietTurn(y, e, z, i, slack);
    }
    EntryStays(y, z);
  }

  lemma BeginKeepsBooks(y: System, m: Move, slack: real)
    requires Books(y, slack) && slack >= 0.0 && MayMove(y, m, slack) && m.Begin?
    ensures Books(Do(y, m, slack), slack)
  {
    var z := Do(y, m, slack);
    forall i | 0 <= i < |z.turns|
      ensures TurnBooks(z, i, slack)
    {
      if i < |y.turns| { assert TurnBooks(y, i, slack); assert z.turns[i] == y.turns[i]; }
    }
    EntryStays(y, z);
  }

  /** What `pop_hold` returns to a paused turn is what the turn has really held
      exactly when its handle was not force-released (or it had held nothing). */
  lemma CarryIsExact(y: System, k: nat, slack: real)
    requires Books(y, slack) && MayMove(y, Drain(k, true), slack)
    ensures var h := y.turns[k].stage.handle;
            PoppedHold(y.q, y.turns[k].threadId) == y.turns[k].heldMs
            <==> !y.q.handles[h].expired || y.turns[k].heldMs == 0.0
    ensures var h := y.turns[k].stage.handle;
            y.q.handles[h].expired ==> PoppedHold(y.q, y.turns[k].threadId) == 0.0
  {
    assert TurnBooks(y, k, slack);
    var tid := y.turns[k].threadId;
    if tid in y.q.activeHoldMs {
      var u :| KeepsEntry(y, u, tid);
    }
  }

  lemma DrainEntries(y: System, m: Move, slack: real)
    requires Books(y, slack) && MayMove(y, m, slack) && m.Drain?
    ensures forall s :: s in Do(y, m, slack).q.activeHoldMs ==> exists u :: KeepsEntry(Do(y, m, slack), u, s)
  {
    var z := Do(y, m, slack);
    forall s | s in z.q.activeHoldMs
      ensures exists u :: KeepsEntry(z, u, s)
    {
      var u :| KeepsEntry(y, u, s);
      assert u != m.turn;
      assert KeepsEntry(z, u, s);
    }
  }

  lemma DrainedTurn(y: System, m: Move, slack: real)
    requires Books(y, slack) && slack >= 0.0 && MayMove(y, m, slack) && m.Drain?
    ensures TurnBooks(Do(y, m, slack), m.turn, slack)
  {
    assert TurnBooks(y, m.turn, slack);
    if m.paused { CarryIsExact(y, m.turn, slack); }
  }

  lemma DrainKeepsBooks(y: System, m: Move, slack: real)
    requires Books(y, slack) && slack >= 0.0 && MayMove(y, m, slack) && m.Drain?
    ensures Books(Do(y, m, slack), slack)
  {
    var k := m.turn;
    var tid := y.turns[k].threadId;
    var e := Popping(tid);
    var z := Do(y, m, slack);
    StepKeepsInv(y.q, e);
    DrainEntries(y, m, slack);
    DrainedTurn(y, m, slack);
    forall i | 0 <= i < |y.turns| && i != k
      ensures TurnBooks(z, i, slack)
    {
      QuietTurn(y, e, z, i, slack);
    }
    assert Apart2(z);
  }

  lemma DepartEntries(y: System, m: Move, slack: real)
    requires Books(y, slack) && MayMove(y, m, slack) && m.Depart?
    ensures forall s :: s in Do(y, m, slack).q.activeHoldMs ==> exists u :: KeepsEntry(Do(y, m, slack), u, s)
  {
    var k := m.turn;
    var z := Do(y, m, slack);
    assert TurnBooks(y, k, slack);
    forall s | s in z.q.activeHoldMs
      ensures exists u :: KeepsEntry(z, u, s)
    {
      if s == y.turns[k].threadId && !y.q.handles[y.turns[k].stage.handle].expired {
        assert KeepsEntry(z, k, s);
      } else {
        assert s in y.q.activeHoldMs;
        var u :| KeepsEntry(y, u, s);
        assert KeepsEntry(z, u, s);
      }
    }
  }

  lemma DepartKeepsBooks(y: System, m: Move, slack: real)
    requires Books(y, slack) && slack >= 0.0 && MayMove(y, m, slack) && m.Depart?
    ensures Books(Do(y, m, slack), slack)
  {
    var k := m.turn;
    var z := Do(y, m, slack);
    assert TurnBooks(y, k, slack);
    StepKeepsInv(y.q, Exiting(y.turns[k].stage.handle));
    forall i | 0 <= i < |y.turns| && i != k
      ensures TurnBooks(z, i, slack)
    {
      DepartOther(y, k, i, z, slack);
    }
    assert TurnBooks(z, k, slack);
    DepartEntries(y, m, slack);
  }

  lemma DepartOther(y: System, k: nat, i: nat, z: System, slack: real)
    requires Books(y, slack) && MayMove(y, Depart(k), slack) && i < |y.turns| && i != k
    requires z == Do(y, Depart(k), slack)
    ensures TurnBooks(z, i, slack)
  {
    var q := y.q;
    var h := y.turns[k].stage.handle;
    var t := y.turns[i];
    assert TurnBooks(y, i, slack) && TurnBooks(y, k, slack);
    match t.stage
    case Standing(ticket) =>
      StepServed(q, Exiting(h), ticket, t);
      StepStillWaits(q, Exiting(h), ticket);
    case Holding(g) =>
      assert g != h;
      assert q.handles[g].expired || q.handles[h].expired;
    case Draining(g) =>
      assert g != h;
      assert t.threadId != y.turns[k].threadId;
    case _ =>
  }

  lemma TockOther(y: System, h: nat, i: nat, slack: real)
    requires Books(y, slack) && MayMove(y, Tock(h), slack) && y.q.holder == Some(h)
    requires i < |y.turns| && i != y.owners[h]
    ensures TurnBooks(Do(y, Tock(h), slack), i, slack)
  {
    assert TurnBooks(y, i, slack) && TurnBooks(y, y.owners[h], slack);
    StepKeepsInv(y.q, Ticking(h));
    var t := y.turns[i];
    if t.stage.Standing? {
      StepServed(y.q, Ticking(h), t.stage.ticket, t);
      StepStillWaits(y.q, Ticking(h), t.stage.ticket);
    }
  }

  lemma TockEntries(y: System, h: nat, slack: real)
    requires Books(y, slack) && MayMove(y, Tock(h), slack) && y.q.holder == Some(h)
    ensures forall s :: s in Do(y, Tock(h), slack).q.activeHoldMs ==>
              exists u :: KeepsEntry(Do(y, Tock(h), slack), u, s)
  {
    var z := Do(y, Tock(h), slack);
    forall s | s in z.q.activeHoldMs
      ensures exists u :: KeepsEntry(z, u, s)
    {
      var u :| KeepsEntry(y, u, s);
      assert TurnBooks(y, u, slack);
      assert KeepsEntry(z, u, s);
    }
  }

  lemma TockKeepsBooks(y: System, m: Move, slack: real)
    requires Books(y, slack) && slack >= 0.0 && MayMove(y, m, slack) && m.Tock?
    ensures Books(Do(y, m, slack), slack)
  {
    var h := m.handle;
    StepKeepsInv(y.q, Ticking(h));
    if y.q.holder == Some(h) {
      TockHolder(y, h, slack);
      forall i | 0 <= i < |y.turns| && i != y.owners[h]
        ensures TurnBooks(Do(y, m, slack), i, slack)
      {
        TockOther(y, h, i, slack);
      }
      TockEntries(y, h, slack);
    }
  }

  /** A tick of the holder: either the cap is reached and the slot is vacated, or a
      whole quantum has passed since the timer was started. */
  lemma TockHolder(y: System, h: nat, slack: real)
    requires Books(y, slack) && slack >= 0.0 && MayMove(y, Tock(h), slack) && y.q.holder == Some(h)
    ensures var z := Do(y, Tock(h), slack);
            TurnBooks(z, y.owners[h], slack)
  {
    var k := y.owners[h];
    assert TurnBooks(y, k, slack);
    var o, now := y.q.handles[h], y.q.now;
    if CumulativeS(o, now) < o.holdTimeout {
      assert NextTickDelay(o, o.timer.since) >= 0.0;
      assert now >= o.timer.since + o.quantum;
    }
  }

  lemma PassKeepsBooks(y: System, m: Move, slack: real)
    requires Books(y, slack) && slack >= 0.0 && MayMove(y, m, slack) && m.Pass?
    ensures Books(Do(y, m, slack), slack)
  {
    var z := Do(y, m, slack);
    StepKeepsInv(y.q, Passing(m.dt));
    forall i | 0 <= i < |y.turns|
      ensures TurnBooks(z, i, slack)
    {
      assert TurnBooks(y, i, slack);
      PassTurn(y, m.dt, i, slack);
    }
    forall s | s in z.q.activeHoldMs
      ensures exists u :: KeepsEntry(z, u, s)
    {
      var u :| KeepsEntry(y, u, s);
      assert KeepsEntry(z, u, s);
    }
  }

  lemma PassTurn(y: System, dt: real, i: nat, slack: real)
    requires Books(y, slack) && slack >= 0.0 && MayMove(y, Pass(dt), slack) && i < |y.turns|
    ensures TurnBooks(Do(y, Pass(dt), slack), i, slack)
  {
    assert TurnBooks(y, i, slack);
    var z := Do(y, Pass(dt), slack);
    var t := y.turns[i];
    if y.q.holder.Some? && y.owners[y.q.holder.value] == i {
      var o := y.q.handles[y.q.holder.value];
      assert HolderBooks(o, z.turns[i], z.q.now, slack);
      assert t.cap == o.holdTimeout;
      assert z.turns[i].heldMs
          <= o.accumulatedMs + 1000.0 * (Max(0.0, o.holdTimeout - o.accumulatedMs / 1000.0) + slack);
      assert Times(slack, t.slices) == Times(slack, t.slices - 1) + slack;
      TimesPositive(slack, t.slices - 1);
    } else if t.stage.Standing? {
      assert z.turns[i] == t;
    }
  }

  lemma MoveKeepsBooks(y: System, m: Move, slack: real)
    requires Books(y, slack) && slack >= 0.0 && MayMove(y, m, slack)
    ensures Books(Do(y, m, slack), slack)
  {
    match m
    case Begin(_, _, _) => BeginKeepsBooks(y, m, slack);
    case Acquire(_, _, _) => AcquireKeepsBooks(y, m, slack);
    case Wake(_) => WakeKeepsBooks(y, m, slack);
    case Depart(_) => DepartKeepsBooks(y, m, slack);
    case Drain(_, _) => DrainKeepsBooks(y, m, slack);
    case Tock(_) => TockKeepsBooks(y, m, slack);
    case Elevate(_) => QuietMoveKeepsBooks(y, m, slack);
    case Ask(_) => QuietMoveKeepsBooks(y, m, slack);
    case Pass(_) => PassKeepsBooks(y, m, slack);
  }

  // ------------------------------------------------------------------
  // Whole runs
  // ------------------------------------------------------------------

  lemma MoveKeepsInv(y: System, m: Move, slack: real)
    requires Inv(y.q) && MayMove(y, m, slack)
    ensures Inv(Do(y, m, slack).q)
  {
    var e := EventOf(y, m);
    if e.Some? { StepKeepsInv(y.q, e.value); }
  }

  ghost predicate LegalMoves(y: System, ms: seq<Move>, slack: real)
    requires Inv(y.q)
    decreases |ms|
  {
    ms == [] ||
    (MayMove(y, ms[0], slack) &&
     (MoveKeepsInv(y, ms[0], slack); LegalMoves(Do(y, ms[0], slack), ms[1..], slack)))
  }

  ghost function AfterMoves(y: System, ms: seq<Move>, slack: real): System
    requires Inv(y.q) && LegalMoves(y, ms, slack)
    decreases |ms|
  {
    if ms == [] then y
    else (MoveKeepsInv(y, ms[0], slack); AfterMoves(Do(y, ms[0], slack), ms[1..], slack))
  }

  lemma {:induction false} MovesKeepBooks(y: System, ms: seq<Move>, slack: real)
    requires Books(y, slack) && slack >= 0.0 && LegalMoves(y, ms, slack)
    ensures Books(AfterMoves(y, ms, slack), slack)
    decreases |ms|
  {
    if ms != [] {
      MoveKeepsBooks(y, ms[0], slack);
      MovesKeepBooks(Do(y, ms[0], slack), ms[1..], slack);
    }
  }

  // ------------------------------------------------------------------
  // What is lost
  // ------------------------------------------------------------------

  lemma {:induction false} TimesAdds(slack: real, m: nat, n: nat)
    ensures Times(slack, m + n) == Times(slack, m) + Times(slack, n)
  {
    if n > 0 { TimesAdds(slack, m, n - 1); }
  }

  /** Each loss is of at most one cap, and of the lateness of its slices. */
  ghost predicate LossBounded(t: Turn, slack: real) {
    && t.lost.ms <= 1000.0 * (Times(t.cap, t.lost.times) + Times(slack, t.lost.slices))
    && (t.lost.times == 0 ==> t.lost == NOTHING_LOST)
  }

  ghost predicate LossesBounded(y: System, slack: real) {
    forall k :: 0 <= k < |y.turns| ==> LossBounded(y.turns[k], slack)
  }

  /** Only a drain loses anything. */
  lemma OthersLoseNothing(y: System, m: Move, slack: real, k: nat)
    requires Inv(y.q) && MayMove(y, m, slack) && k < |y.turns| && !(m.Drain? && m.turn == k)
    ensures var z := Do(y, m, slack);
            |z.turns| >= |y.turns| && z.turns[k].lost == y.turns[k].lost && z.turns[k].cap == y.turns[k].cap
  {
  }

  lemma DrainLoses(t: Turn, u: Turn, slack: real)
    requires LossBounded(t, slack) && t.heldMs <= 1000.0 * (t.cap + Times(slack, t.slices)) && u.cap == t.cap
    requires u.lost == Lost(t.lost.times + 1, t.lost.ms + t.heldMs, t.lost.slices + t.slices)
    ensures LossBounded(u, slack)
  {
    TimesAdds(slack, t.lost.slices, t.slices);
    assert Times(u.cap, u.lost.times) == Times(t.cap, t.lost.times) + t.cap;
  }

  lemma MoveBoundsLosses(y: System, m: Move, slack: real)
    requires Books(y, slack) && MayMove(y, m, slack) && LossesBounded(y, slack)
    ensures LossesBounded(Do(y, m, slack), slack)
  {
    var z := Do(y, m, slack);
    forall k | 0 <= k < |z.turns|
      ensures LossBounded(z.turns[k], slack)
    {
      if k < |y.turns| {
        assert LossBounded(y.turns[k], slack) && TurnBooks(y, k, slack);
        if m.Drain? && m.turn == k {
          if z.turns[k].lost != y.turns[k].lost { DrainLoses(y.turns[k], z.turns[k], slack); }
        } else {
          OthersLoseNothing(y, m, slack, k);
        }
      }
    }
  }

  lemma {:induction false} MovesBoundLosses(y: System, ms: seq<Move>, slack: real)
    requires Books(y, slack) && slack >= 0.0 && LegalMoves(y, ms, slack) && LossesBounded(y, slack)
    ensures LossesBounded(AfterMoves(y, ms, slack), slack)
    decreases |ms|
  {
    if ms != [] {
      MoveKeepsBooks(y, ms[0], slack);
      MoveBoundsLosses(y, ms[0], slack);
      MovesBoundLosses(Do(y, ms[0], slack), ms[1..], slack);
    }
  }

  /** The cumulative-active cap. Over every run, however often turns are paused and
      resumed from what `pop_hold` returned, no turn ever holds the slot for longer
      than its cap, once more for each time its carry was lost, and the timers' lateness,
      once per slice: with timers that call back on time and no pause of a
      force-released handle, never longer than its cap. */
  lemma CapBoundsEveryTurn(ms: seq<Move>, slack: real, k: nat)
    requires slack >= 0.0 && LegalMoves(Empty(0.0), ms, slack)
    requires k < |AfterMoves(Empty(0.0), ms, slack).turns|
    ensures var t := AfterMoves(Empty(0.0), ms, slack).turns[k];
            t.TotalMs() <= 1000.0 * (t.cap * ((t.lost.times + 1) as real) + slack * (t.TotalSlices() as real))
  {
    MovesKeepBooks(Empty(0.0), ms, slack);
    MovesBoundLosses(Empty(0.0), ms, slack);
    var y := AfterMoves(Empty(0.0), ms, slack);
    var t := y.turns[k];
    assert TurnBooks(y, k, slack) && LossBounded(t, slack);
    TimesAdds(slack, t.lost.slices, t.slices);
    TimesIsProduct(slack, t.TotalSlices());
    TimesIsProduct(t.cap, t.lost.times + 1);
  }

  /** Waiting and paused time add nothing: the seed a turn is resumed with is the time it
      has really held the slot since a carry was last lost. */
  lemma SeedIsTimeHeld(ms: seq<Move>, slack: real, k: nat)
    requires slack >= 0.0 && LegalMoves(Empty(0.0), ms, slack)
    requires k < |AfterMoves(Empty(0.0), ms, slack).turns|
    ensures var y := AfterMoves(Empty(0.0), ms, slack);
            var t := y.turns[k];
            var held := t.TotalMs() - t.lost.ms;
            && (t.lost.times == 0 ==> held == t.TotalMs())
            && (t.stage.Paused? ==> t.stage.carryMs == held)
            && (t.stage.Standing? ==>
                  Waits(y.q, t.stage.ticket) && Waiting(y.q, t.stage.ticket).call.accumulatedMs == held)
            && (t.stage.Holding? && y.q.holder == Some(t.stage.handle) ==>
                  t.stage.handle < |y.q.handles|
                  && CumulativeS(y.q.handles[t.stage.handle], y.q.now) == held / 1000.0)
  {
    MovesKeepBooks(Empty(0.0), ms, slack);
    MovesBoundLosses(Empty(0.0), ms, slack);
    var y := AfterMoves(Empty(0.0), ms, slack);
    assert TurnBooks(y, k, slack) && LossBounded(y.turns[k], slack);
  }

  /** Timer work in one slice: each callback that re-armed the timer of the current
      holder came a whole quantum after the one before it, and before the cap, so
      their number times the quantum is below what the cap had left. */
  lemma TicksPerSlice(ms: seq<Move>, slack: real)
    requires slack >= 0.0
    requires LegalMoves(Empty(0.0), ms, slack)
    ensures var q := AfterMoves(Empty(0.0), ms, slack).q;
            q.holder.Some? ==>
              && q.holder.value < |q.handles|
              && var h := q.handles[q.holder.value];
                 h.ticks > 0 ==> h.quantum * (h.ticks as real) < h.holdTimeout - h.accumulatedMs / 1000.0
  {
    MovesKeepBooks(Empty(0.0), ms, slack);
    var y := AfterMoves(Empty(0.0), ms, slack);
    if y.q.holder.Some? {
      assert TurnBooks(y, y.owners[y.q.holder.value], slack);
      var h := y.q.handles[y.q.holder.value];
      TimesIsProduct(h.quantum, h.ticks);
    }
  }

  /** One more move on a legal run. */
  lemma {:induction false} Extend(y: System, ms: seq<Move>, m: Move, slack: real)
    requires Inv(y.q) && LegalMoves(y, ms, slack)
    requires Inv(AfterMoves(y, ms, slack).q) && MayMove(AfterMoves(y, ms, slack), m, slack)
    ensures LegalMoves(y, ms + [m], slack)
    ensures Inv(AfterMoves(y, ms + [m], slack).q)
    ensures AfterMoves(y, ms + [m], slack) == Do(AfterMoves(y, ms, slack), m, slack)
    decreases |ms|
  {
    if ms == [] {
      MoveKeepsInv(y, m, slack);
      assert [m][1..] == [];
    } else {
      MoveKeepsInv(y, ms[0], slack);
      Extend(Do(y, ms[0], slack), ms[1..], m, slack);
      assert (ms + [m])[1..] == ms[1..] + [m];
    }
  }

  /** The moves lead from an empty queue to this state. */
  ghost predicate Leads(ms: seq<Move>, y: System) {
    Inv(y.q) && Inv(Empty(0.0).q) && LegalMoves(Empty(0.0), ms, 0.0) && AfterMoves(Empty(0.0), ms, 0.0) == y
  }

  lemma LeadsOn(ms: seq<Move>, y: System, m: Move, z: System)
    requires Leads(ms, y) && MayMove(y, m, 0.0) && Do(y, m, 0.0) == z
    ensures Leads(ms + [m], z)
  {
    Extend(Empty(0.0), ms, m, 0.0);
  }

  // The run: turn "A" (quantum 100 s, cap 10 s) is granted the slot at 0, is asked to
  // pause, ten seconds pass, its tick expires it, and only then does its pause leave
  // the block; it is resumed and holds the slot for another ten seconds.

  function FirstHandle(asked: bool, expired: bool, inBlock: bool): Handle {
    Handle("A", 100.0, 10.0, 0.0, 0.0, expired, asked,
           if expired then Idle else Armed(0.0, 10.0), inBlock, 0)
  }

  function Stop(now: real, holder: Option<nat>, handles: seq<Handle>, stage: Stage, heldMs: real, slices: nat,
                lost: Lost): System {
    System(State(now, holder, [], [], map[], handles, 0),
           [Turn("A", 100.0, 10.0, stage, heldMs, slices, lost)],
           seq(|handles|, _ => 0))
  }

  const ASKED := FirstHandle(true, false, true)
  const LATE := FirstHandle(true, true, true)
  const GONE := FirstHandle(true, true, false)
  const TEN_LOST := Lost(1, 10000.0, 1)

  lemma Starts()
    ensures Inv(Empty(0.0).q)
    ensures Do(Empty(0.0), Begin("A", 100.0, 10.0), 0.0) == Stop(0.0, None, [], Paused(0.0), 0.0, 0, NOTHING_LOST)
  {
  }

  function Resume(seed: real): Call { Call("A", 100.0, 10.0, seed, false, 5.0) }

  /** With the slot free and nobody waiting the turn is granted it at once. */
  lemma FreeGrant(now: real, handles: seq<Handle>, seed: real, heldMs: real, slices: nat, lost: Lost,
                  n: nat, more: seq<Handle>)
    requires Inv(Stop(now, None, handles, Paused(seed), heldMs, slices, lost).q)
    requires n == |handles| && more == handles + [NewHandle(Resume(seed), now)]
    ensures var y := Stop(now, None, handles, Paused(seed), heldMs, slices, lost);
            && MayMove(y, Acquire(0, false, 5.0), 0.0)
            && Do(y, Acquire(0, false, 5.0), 0.0) == Stop(now, Some(n), more, Holding(n), heldMs, slices + 1, lost)
  {
    var y := Stop(now, None, handles, Paused(seed), heldMs, slices, lost);
    var z := Do(y, Acquire(0, false, 5.0), 0.0);
    assert z.q == Grant(y.q, Resume(seed));
    assert z.turns == [Turn("A", 100.0, 10.0, Holding(|handles|), heldMs, slices + 1, lost)];
    assert z.owners == seq(|handles| + 1, _ => 0);
  }

  lemma GrantLeadsOn(ms: seq<Move>, now: real, handles: seq<Handle>, seed: real, heldMs: real, slices: nat,
                     lost: Lost, n: nat, more: seq<Handle>)
    requires Leads(ms, Stop(now, None, handles, Paused(seed), heldMs, slices, lost))
    requires n == |handles| && more == handles + [NewHandle(Resume(seed), now)]
    ensures Leads(ms + [Acquire(0, false, 5.0)], Stop(now, Some(n), more, Holding(n), heldMs, slices + 1, lost))
  {
    FreeGrant(now, handles, seed, heldMs, slices, lost, n, more);
    LeadsOn(ms, Stop(now, None, handles, Paused(seed), heldMs, slices, lost), Acquire(0, false, 5.0),
            Stop(now, Some(n), more, Holding(n), heldMs, slices + 1, lost));
  }

  lemma FirstHandleIs()
    ensures NewHandle(Resume(0.0), 0.0) == FirstHandle(false, false, true)
  {
    var h := Handle("A", 100.0, 10.0, 0.0, 0.0, false, false, Idle, true, 0);
    assert CumulativeS(h, 0.0) == 0.0;
    assert NextTickDelay(h, 0.0) == 10.0;
  }

  lemma PauseAsked()
    ensures var y := Stop(0.0, Some(0), [FirstHandle(false, false, true)], Holding(0), 0.0, 1, NOTHING_LOST);
            Inv(y.q) && Do(y, Ask("A"), 0.0) == Stop(0.0, Some(0), [ASKED], Holding(0), 0.0, 1, NOTHING_LOST)
  {
  }

  lemma TenSeconds()
    ensures var y := Stop(0.0, Some(0), [ASKED], Holding(0), 0.0, 1, NOTHING_LOST);
            Inv(y.q) && MayMove(y, Pass(10.0), 0.0)
            && Do(y, Pass(10.0), 0.0) == Stop(10.0, Some(0), [ASKED], Holding(0), 10000.0, 1, NOTHING_LOST)
  {
  }

  lemma CapTick()
    ensures var y := Stop(10.0, Some(0), [ASKED], Holding(0), 10000.0, 1, NOTHING_LOST);
            Inv(y.q) && MayMove(y, Tock(0), 0.0)
            && Do(y, Tock(0), 0.0) == Stop(10.0, None, [LATE], Holding(0), 10000.0, 1, NOTHING_LOST)
  {
  }

  lemma LateExit()
    ensures var y := Stop(10.0, None, [LATE], Holding(0), 10000.0, 1, NOTHING_LOST);
            Inv(y.q) && MayMove(y, Depart(0), 0.0)
            && Do(y, Depart(0), 0.0) == Stop(10.0, None, [GONE], Draining(0), 10000.0, 1, NOTHING_LOST)
  {
  }

  lemma NothingPopped()
    ensures var y := Stop(10.0, None, [GONE], Draining(0), 10000.0, 1, NOTHING_LOST);
            Inv(y.q) && MayMove(y, Drain(0, true), 0.0)
            && Do(y, Drain(0, true), 0.0) == Stop(10.0, None, [GONE], Paused(0.0), 0.0, 0, TEN_LOST)
  {
  }

  lemma SecondHandle(h: Handle)
    requires h == NewHandle(Resume(0.0), 10.0)
    ensures h.timer == Armed(10.0, 20.0)
  {
    var made := Handle("A", 100.0, 10.0, 0.0, 10.0, false, false, Idle, true, 0);
    assert CumulativeS(made, 10.0) == 0.0;
    assert NextTickDelay(made, 10.0) == 10.0;
  }

  lemma TenMoreSeconds(h: Handle)
    requires h.timer == Armed(10.0, 20.0) && Inv(Stop(10.0, Some(1), [GONE, h], Holding(1), 0.0, 1, TEN_LOST).q)
    ensures var y := Stop(10.0, Some(1), [GONE, h], Holding(1), 0.0, 1, TEN_LOST);
            && MayMove(y, Pass(10.0), 0.0)
            && Do(y, Pass(10.0), 0.0) == Stop(20.0, Some(1), [GONE, h], Holding(1), 10000.0, 1, TEN_LOST)
  {
  }

  // The stops of the run, and the moves that lead from one to the next.

  function Waits0(): System { Stop(0.0, None, [], Paused(0.0), 0.0, 0, NOTHING_LOST) }
  function Holds0(h: Handle): System { Stop(0.0, Some(0), [h], Holding(0), 0.0, 1, NOTHING_LOST) }
  function Late0(): System { Stop(10.0, None, [LATE], Holding(0), 10000.0, 1, NOTHING_LOST) }
  function Waits1(): System { Stop(10.0, None, [GONE], Paused(0.0), 0.0, 0, TEN_LOST) }
  function Holds1(h: Handle): System { Stop(10.0, Some(1), [GONE, h], Holding(1), 0.0, 1, TEN_LOST) }

  lemma Begun() returns (ms: seq<Move>)
    ensures Leads(ms, Waits0())
  {
    Starts();
    assert Leads([], Empty(0.0));
    LeadsOn([], Empty(0.0), Begin("A", 100.0, 10.0), Waits0());
    ms := [] + [Begin("A", 100.0, 10.0)];
  }

  lemma ExpiredAfterTheRequest(ms: seq<Move>) returns (ns: seq<Move>)
    requires Leads(ms, Holds0(FirstHandle(false, false, true)))
    ensures Leads(ns, Late0())
  {
    PauseAsked();
    LeadsOn(ms, Holds0(FirstHandle(false, false, true)), Ask("A"), Holds0(ASKED));
    ns := ms + [Ask("A")];
    TenSeconds();
    LeadsOn(ns, Holds0(ASKED), Pass(10.0), Stop(10.0, Some(0), [ASKED], Holding(0), 10000.0, 1, NOTHING_LOST));
    ns := ns + [Pass(10.0)];
    CapTick();
    LeadsOn(ns, Stop(10.0, Some(0), [ASKED], Holding(0), 10000.0, 1, NOTHING_LOST), Tock(0), Late0());
    ns := ns + [Tock(0)];
  }

  lemma NothingPersisted(ms: seq<Move>) returns (ns: seq<Move>)
    requires Leads(ms, Late0())
    ensures Leads(ns, Waits1())
  {
    LateExit();
    LeadsOn(ms, Late0(), Depart(0), Stop(10.0, None, [GONE], Draining(0), 10000.0, 1, NOTHING_LOST));
    ns := ms + [Depart(0)];
    NothingPopped();
    LeadsOn(ns, Stop(10.0, None, [GONE], Draining(0), 10000.0, 1, NOTHING_LOST), Drain(0, true), Waits1());
    ns := ns + [Drain(0, true)];
  }

  lemma HeldForTwentySeconds(ms: seq<Move>, h: Handle) returns (ns: seq<Move>)
    requires h == NewHandle(Resume(0.0), 10.0) && Leads(ms, Holds1(h))
    ensures Leads(ns, Stop(20.0, Some(1), [GONE, h], Holding(1), 10000.0, 1, TEN_LOST))
  {
    SecondHandle(h);
    TenMoreSeconds(h);
    LeadsOn(ms, Holds1(h), Pass(10.0), Stop(20.0, Some(1), [GONE, h], Holding(1), 10000.0, 1, TEN_LOST));
    ns := ms + [Pass(10.0)];
  }

  lemma FirstGranted(ms: seq<Move>, h: Handle)
    requires Leads(ms, Waits0()) && h == NewHandle(Resume(0.0), 0.0)
    ensures Leads(ms + [Acquire(0, false, 5.0)], Holds0(h))
  {
    var none: seq<Handle> := [];
    Alone(none, h);
    GrantLeadsOn(ms, 0.0, none, 0.0, 0.0, 0, NOTHING_LOST, 0, none + [h]);
  }

  lemma Alone(none: seq<Handle>, h: Handle)
    requires none == []
    ensures none + [h] == [h]
  {
  }

  lemma FirstSlice() returns (ms: seq<Move>)
    ensures Leads(ms, Waits1())
  {
    ms := Begun();
    FirstHandleIs();
    FirstGranted(ms, FirstHandle(false, false, true));
    ms := ExpiredAfterTheRequest(ms + [Acquire(0, false, 5.0)]);
    ms := NothingPersisted(ms);
  }

  lemma SecondSlice(ms: seq<Move>, h: Handle) returns (ns: seq<Move>)
    requires Leads(ms, Waits1()) && h == NewHandle(Resume(0.0), 10.0)
    ensures Leads(ns, Stop(20.0, Some(1), [GONE, h], Holding(1), 10000.0, 1, TEN_LOST))
  {
    GrantLeadsOn(ms, 10.0, [GONE], 0.0, 0.0, 0, TEN_LOST, 1, [GONE, h]);
    ns := HeldForTwentySeconds(ms + [Acquire(0, false, 5.0)], h);
  }

  ghost predicate HoldsTooLong(ms: seq<Move>, k: nat) {
    && Inv(Empty(0.0).q) && LegalMoves(Empty(0.0), ms, 0.0)
    && k < |AfterMoves(Empty(0.0), ms, 0.0).turns|
    && AfterMoves(Empty(0.0), ms, 0.0).turns[k].cap == 10.0
    && AfterMoves(Empty(0.0), ms, 0.0).turns[k].TotalMs() == 20000.0
  }

  lemma LeadsTooFar(ms: seq<Move>, y: System)
    requires Leads(ms, y) && |y.turns| == 1 && y.turns[0].cap == 10.0 && y.turns[0].TotalMs() == 20000.0
    ensures HoldsTooLong(ms, 0)
  {
  }

  /** The lost carries matter. A pause that was decided just before the cap
      expires the handle leaves its block as a pause with nothing persisted, so the
      turn is resumed from a seed of zero: here a turn with a 10 second cap holds the
      slot for 20 seconds although every timer calls back on time. */
  lemma PauseDecidedBeforeExpiryDodgesTheCap()
    ensures exists ms, k: nat :: HoldsTooLong(ms, k)
  {
    var ms := FirstSlice();
    var h := NewHandle(Resume(0.0), 10.0);
    ms := SecondSlice(ms, h);
    LeadsTooFar(ms, Stop(20.0, Some(1), [GONE, h], Holding(1), 10000.0, 1, TEN_LOST));
  }
}
