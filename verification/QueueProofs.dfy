/**
 * What every step of the affinity queue keeps, and what holds over whole runs:
 * mutual exclusion with stale holders, no lost wake-up, and the two-tier order.
 */
module QueueProofs {
  import opened Common
  import opened QueueSpec

  // ------------------------------------------------------------------
  // The invariant
  // ------------------------------------------------------------------

  ghost predicate DistinctIn(ws: seq<Waiter>) {
    forall i, j :: 0 <= i < j < |ws| ==> ws[i].ticket != ws[j].ticket
  }

  ghost predicate Apart(us: seq<Waiter>, bs: seq<Waiter>) {
    forall i, j :: 0 <= i < |us| && 0 <= j < |bs| ==> us[i].ticket != bs[j].ticket
  }

  ghost predicate Below(ws: seq<Waiter>, bound: nat) {
    forall i :: 0 <= i < |ws| ==> ws[i].ticket < bound
  }

  /** Every waiter stands in exactly one queue, once. */
  ghost predicate OnePlaceEach(s: State) {
    && DistinctIn(s.user) && DistinctIn(s.background) && Apart(s.user, s.background)
    && Below(s.user, s.tickets) && Below(s.background, s.tickets)
  }

  /** The handles inside their block that are not expired are exactly the holder. */
  ghost predicate SlotExact(s: State) {
    && (s.holder.Some? ==>
          && s.holder.value < |s.handles|
          && s.handles[s.holder.value].inBlock
          && !s.handles[s.holder.value].expired
          && s.handles[s.holder.value].timer.Armed?)
    && (forall h :: 0 <= h < |s.handles| && s.handles[h].inBlock && !s.handles[h].expired ==>
          s.holder == Some(h))
  }

  /** A waiter asleep with no notify pending has nothing to wake up for. */
  ghost predicate NoLostWakeup(s: State) {
    && (forall i :: 0 <= i < |s.user| && !s.user[i].notified ==> !MayGo(s, s.user[i].ticket))
    && (forall i :: 0 <= i < |s.background| && !s.background[i].notified ==>
          !MayGo(s, s.background[i].ticket))
  }

  ghost predicate Inv(s: State) {
    FlagsNameQueues(s) && OnePlaceEach(s) && SlotExact(s) && NoLostWakeup(s)
  }

  // ------------------------------------------------------------------
  // Queue bookkeeping
  // ------------------------------------------------------------------

  lemma {:induction false} WithoutAbsent(ws: seq<Waiter>, ticket: nat)
    requires forall i :: 0 <= i < |ws| ==> ws[i].ticket != ticket
    ensures Without(ws, ticket) == ws
  {
    if ws != [] { WithoutAbsent(ws[1..], ticket); }
  }

  /** Removing a waiter deletes its first position and shifts the rest. */
  lemma {:induction false} WithoutFirst(ws: seq<Waiter>, k: nat)
    requires k < |ws| && forall j :: 0 <= j < k ==> ws[j].ticket != ws[k].ticket
    ensures Without(ws, ws[k].ticket) == ws[..k] + ws[k + 1..]
  {
    if k > 0 {
      WithoutFirst(ws[1..], k - 1);
      assert ws[1..][..k - 1] == ws[1..k];
      assert ws[..k] == [ws[0]] + ws[1..k];
    } else {
      assert ws[..0] == [];
    }
  }

  lemma WithoutAt(ws: seq<Waiter>, k: nat)
    requires k < |ws| && DistinctIn(ws)
    ensures Without(ws, ws[k].ticket) == ws[..k] + ws[k + 1..]
  {
    WithoutFirst(ws, k);
  }

  lemma WithoutKeeps(ws: seq<Waiter>, ticket: nat)
    requires DistinctIn(ws)
    ensures var r := Without(ws, ticket);
            && DistinctIn(r) && |r| <= |ws|
            && (forall i :: 0 <= i < |r| ==> r[i] in ws && r[i].ticket != ticket)
  {
    if k :| 0 <= k < |ws| && ws[k].ticket == ticket {
      WithoutAt(ws, k);
    } else {
      WithoutAbsent(ws, ticket);
    }
  }

  lemma {:induction false} FilterMembers(ws: seq<Waiter>, tid: string)
    ensures forall w :: w in OfThread(ws, tid) <==> w in ws && w.threadId == tid
    ensures forall w :: w in NotOfThread(ws, tid) <==> w in ws && w.threadId != tid
  {
    if ws != [] {
      FilterMembers(ws[1..], tid);
      assert ws == [ws[0]] + ws[1..];
    }
  }

  lemma DistinctTickets(ws: seq<Waiter>, a: Waiter, b: Waiter)
    requires DistinctIn(ws) && a in ws && b in ws && a != b
    ensures a.ticket != b.ticket
  {
    var i :| 0 <= i < |ws| && ws[i] == a;
    var j :| 0 <= j < |ws| && ws[j] == b;
  }

  lemma {:induction false} FilterDistinct(ws: seq<Waiter>, tid: string)
    requires DistinctIn(ws)
    ensures DistinctIn(OfThread(ws, tid)) && DistinctIn(NotOfThread(ws, tid))
  {
    if ws != [] {
      FilterDistinct(ws[1..], tid);
      FilterMembers(ws[1..], tid);
      forall w | w in ws[1..] ensures w.ticket != ws[0].ticket {
        var i :| 0 <= i < |ws[1..]| && ws[1..][i] == w;
        assert w == ws[i + 1];
      }
    }
  }

  lemma FilterKeeps(ws: seq<Waiter>, tid: string)
    requires DistinctIn(ws)
    ensures DistinctIn(OfThread(ws, tid)) && DistinctIn(NotOfThread(ws, tid))
    ensures forall w :: w in OfThread(ws, tid) <==> w in ws && w.threadId == tid
    ensures forall w :: w in NotOfThread(ws, tid) <==> w in ws && w.threadId != tid
    ensures Apart(OfThread(ws, tid), NotOfThread(ws, tid))
  {
    FilterMembers(ws, tid);
    FilterDistinct(ws, tid);
    var us, bs := OfThread(ws, tid), NotOfThread(ws, tid);
    forall i, j | 0 <= i < |us| && 0 <= j < |bs| ensures us[i].ticket != bs[j].ticket {
      assert us[i] in us && bs[j] in bs;
      DistinctTickets(ws, us[i], bs[j]);
    }
  }

  // ------------------------------------------------------------------
  // Every step keeps the invariant
  // ------------------------------------------------------------------

  lemma GrantKeepsSlotExact(s: State, call: Call)
    requires SlotExact(s) && s.holder.None?
    ensures SlotExact(Grant(s, call))
  {
  }

  lemma NotifyAllKeeps(s: State)
    requires FlagsNameQueues(s) && OnePlaceEach(s) && SlotExact(s)
    ensures Inv(NotifyAll(s))
  {
  }

  /** The head pop removes the waking waiter itself, whichever queue it names. */
  lemma PopIsRemoval(s: State, w: Waiter)
    requires FlagsNameQueues(s) && OnePlaceEach(s) && Queued(s, w) && IsNext(s, w.ticket)
    ensures if w.userPriority then s.user != [] else s.background != []
    ensures PopNamedQueue(s, w)
            == s.(user := Without(s.user, w.ticket), background := Without(s.background, w.ticket))
    ensures if w.userPriority then w == s.user[0] else s.user == [] && w == s.background[0]
  {
    if w.userPriority {
      assert w in s.user;
      WithoutAbsent(s.background, w.ticket);
    } else {
      assert w in s.background;
      var k :| 0 <= k < |s.background| && s.background[k] == w;
      assert s.user == [];
    }
  }

  /** Everybody asleep without a notify, other than `ticket`, has a false guard. */
  ghost predicate OthersMaySleep(s: State, ticket: nat) {
    && (forall i :: 0 <= i < |s.user| && !s.user[i].notified && s.user[i].ticket != ticket ==>
          !MayGo(s, s.user[i].ticket))
    && (forall i :: 0 <= i < |s.background| && !s.background[i].notified && s.background[i].ticket != ticket ==>
          !MayGo(s, s.background[i].ticket))
  }

  lemma GrantedRecheckKeepsInv(s: State, w: Waiter)
    requires FlagsNameQueues(s) && OnePlaceEach(s) && SlotExact(s) && Queued(s, w)
    requires MayGo(s, w.ticket)
    ensures Inv(Recheck(s, w))
  {
    PopIsRemoval(s, w);
    GrantKeepsSlotExact(PopNamedQueue(s, w), w.call);
  }

  lemma LeavingKeepsInv(s: State, w: Waiter)
    requires FlagsNameQueues(s) && OnePlaceEach(s) && SlotExact(s)
    ensures Inv(Leave(s, w.ticket))
  {
    WithoutKeeps(s.user, w.ticket);
    WithoutKeeps(s.background, w.ticket);
    var us, bs := Without(s.user, w.ticket), Without(s.background, w.ticket);
    var r := s.(user := us, background := bs);
    assert FlagsNameQueues(r);
    assert OnePlaceEach(r);
    NotifyAllKeeps(r);
  }

  lemma SleepingKeepsInv(s: State, w: Waiter)
    requires FlagsNameQueues(s) && OnePlaceEach(s) && SlotExact(s)
    requires OthersMaySleep(s, w.ticket) && !MayGo(s, w.ticket)
    ensures Inv(Sleep(s, w.ticket))
  {
    var r := Sleep(s, w.ticket);
    assert FlagsNameQueues(r) && OnePlaceEach(r) && SlotExact(r);
    assert s.user == [] <==> r.user == [];
    assert s.background == [] <==> r.background == [];
    forall t: nat ensures MayGo(r, t) <==> MayGo(s, t) {
    }
  }

  lemma RecheckKeepsInv(s: State, w: Waiter)
    requires FlagsNameQueues(s) && OnePlaceEach(s) && SlotExact(s) && Queued(s, w)
    requires OthersMaySleep(s, w.ticket)
    ensures Inv(Recheck(s, w))
  {
    if MayGo(s, w.ticket) {
      GrantedRecheckKeepsInv(s, w);
    } else if w.deadline - s.now <= 0.0 {
      LeavingKeepsInv(s, w);
    } else {
      SleepingKeepsInv(s, w);
    }
  }

  lemma EnqueueForRecheck(s: State, w: Waiter)
    requires Inv(s) && w.ticket == s.tickets && w.notified
    ensures FlagsNameQueues(Enqueue(s, w)) && OnePlaceEach(Enqueue(s, w)) && SlotExact(Enqueue(s, w))
    ensures NoLostWakeup(Enqueue(s, w))
  {
    var r := Enqueue(s, w);
    forall t | t != w.ticket && MayGo(r, t)
      ensures MayGo(s, t)
    {
    }
  }

  lemma EnterGrantsWhen(s: State, active: Option<nat>, call: Call)
    requires Inv(s) && !Reentrant(s, active, call)
    ensures Enter(s, active, call).holder == Some(|s.handles|) <==>
              (s.holder.None? && NextWaiter(s).None?)
              || MayGo(Enqueue(s, Arrival(s, call)), s.tickets)
  {
    var w := Arrival(s, call);
    EnqueueForRecheck(s, w);
    if MayGo(Enqueue(s, w), w.ticket) { PopIsRemoval(Enqueue(s, w), w); }
  }

  lemma EnterKeepsInv(s: State, active: Option<nat>, call: Call)
    requires Inv(s)
    ensures Inv(Enter(s, active, call))
  {
    if !Reentrant(s, active, call) && !(s.holder.None? && NextWaiter(s).None?) {
      var w := Arrival(s, call);
      EnqueueForRecheck(s, w);
      RecheckKeepsInv(Enqueue(s, w), w);
    }
  }

  lemma ExitKeepsInv(s: State, h: nat)
    requires Inv(s) && h < |s.handles|
    ensures Inv(Exit(s, h))
  {
  }

  lemma TickKeepsInv(s: State, h: nat)
    requires Inv(s) && h < |s.handles|
    ensures Inv(Tick(s, h))
  {
  }

  lemma PromoteKeepsInv(s: State, tid: string)
    requires Inv(s)
    ensures Inv(Promote(s, tid))
  {
    var promoted := OfThread(s.background, tid);
    if promoted != [] {
      FilterKeeps(s.background, tid);
      var rest := NotOfThread(s.background, tid);
      assert forall i :: 0 <= i < |promoted| ==> promoted[i] in s.background;
      assert forall i :: 0 <= i < |rest| ==> rest[i] in s.background;
      NotifyAllKeeps(s.(user := s.user + Raised(promoted), background := rest));
    }
  }

  /** Every locked section, callback and passing of time keeps the invariant. */
  lemma StepKeepsInv(s: State, e: Event)
    requires Inv(s) && Enabled(s, e)
    ensures Inv(Step(s, e))
  {
    match e
    case Entering(active, call) => EnterKeepsInv(s, active, call);
    case Waking(ticket) => RecheckKeepsInv(s, Waiting(s, ticket));
    case Exiting(h) => ExitKeepsInv(s, h);
    case Ticking(h) => TickKeepsInv(s, h);
    case Promoting(tid) => PromoteKeepsInv(s, tid);
    case Pausing(tid) =>
    case Popping(tid) =>
    case Passing(dt) =>
  }

  // ------------------------------------------------------------------
  // Runs
  // ------------------------------------------------------------------

  ghost predicate Legal(s: State, es: seq<Event>)
    requires Inv(s)
    decreases |es|
  {
    es == [] ||
    (Enabled(s, es[0]) && (StepKeepsInv(s, es[0]); Legal(Step(s, es[0]), es[1..])))
  }

  ghost function After(s: State, es: seq<Event>): State
    requires Inv(s) && Legal(s, es)
    decreases |es|
  {
    if es == [] then s else (StepKeepsInv(s, es[0]); After(Step(s, es[0]), es[1..]))
  }

  /** From an empty queue, every interleaving keeps the invariant. */
  lemma {:induction false} RunKeepsInv(s: State, es: seq<Event>)
    requires Inv(s) && Legal(s, es)
    ensures Inv(After(s, es))
    decreases |es|
  {
    if es != [] {
      StepKeepsInv(s, es[0]);
      RunKeepsInv(Step(s, es[0]), es[1..]);
    }
  }

  // ------------------------------------------------------------------
  // No lost wake-up, no barging
  // ------------------------------------------------------------------

  /** The waiter that wakes is the one that its ticket names. */
  lemma HeadIsWaiting(s: State)
    requires Inv(s) && NextWaiter(s).Some?
    ensures Waits(s, NextWaiter(s).value.ticket)
    ensures Waiting(s, NextWaiter(s).value.ticket) == NextWaiter(s).value
  {
    var w := NextWaiter(s).value;
    var v := Waiting(s, w.ticket);
    if s.user != [] {
      assert s.user[0].ticket == w.ticket;
    } else {
      assert s.background[0].ticket == w.ticket;
    }
  }

  lemma HeadTakesTheSlot(s: State)
    requires Inv(s) && s.holder.None? && NextWaiter(s).Some?
    ensures var w := NextWaiter(s).value;
            && Queued(s, w)
            && Recheck(s, w) == Grant(PopNamedQueue(s, w), w.call)
            && var r := Recheck(s, w); r.user + r.background == (s.user + s.background)[1..]
  {
    TailOfBoth(s.user, s.background);
  }

  lemma TailOfBoth(us: seq<Waiter>, bs: seq<Waiter>)
    ensures us != [] ==> us[1..] + bs == (us + bs)[1..]
    ensures us == [] && bs != [] ==> us + bs[1..] == (us + bs)[1..]
  {
  }

  /** One more handle, for this call: it carries the call's seed and starts its slice and
      its first tick now. */
  ghost predicate Grants(s: State, r: State, call: Call) {
    && |r.handles| == |s.handles| + 1 && r.handles[..|s.handles|] == s.handles
    && var h := r.handles[|s.handles|];
       && h.threadId == call.threadId && h.quantum == call.quantum && h.holdTimeout == call.holdTimeout
       && h.accumulatedMs == call.accumulatedMs && h.acquiredAt == s.now
       && !h.expired && !h.pauseRequested && h.inBlock
       && h.timer == Armed(s.now, s.now + FirstDelay(call))
  }

  /** A quantum, or what the cap has left if that is less, but not less than nothing. */
  function FirstDelay(call: Call): real {
    var left := call.holdTimeout - call.accumulatedMs / 1000.0;
    var least := if left < call.quantum then left else call.quantum;
    if least < 0.0 then 0.0 else least
  }

  lemma NewHandleGrants(s: State, r: State, call: Call)
    requires r.handles == s.handles + [NewHandle(call, s.now)]
    ensures Grants(s, r, call)
  {
    assert r.handles[..|s.handles|] == s.handles;
  }

  /** Who may go, and what that makes of the queue. */
  lemma HeadOutcome(s: State, t: nat)
    requires Inv(s) && s.holder.None? && NextWaiter(s).Some? && Waits(s, t)
    ensures var w := NextWaiter(s).value;
            var r := Step(s, Waking(t));
            && w.notified
            && (MayGo(s, t) <==> t == w.ticket)
            && (r.holder.Some? <==> t == w.ticket)
            && (t == w.ticket ==>
                  && r.holder == Some(|s.handles|)
                  && r.handles == s.handles + [NewHandle(w.call, s.now)]
                  && r.user + r.background == (s.user + s.background)[1..])
  {
    assert MayGo(s, NextWaiter(s).value.ticket);
    HeadIsWaiting(s);
    HeadTakesTheSlot(s);
  }

  /** A free slot with waiters: exactly the head may go, users before the background; it has
      been notified, and waking it (and nobody else) takes the slot for its own call. */
  lemma FreeSlotGoesToHead(s: State, t: nat)
    requires Inv(s) && s.holder.None? && s.user + s.background != [] && Waits(s, t)
    ensures var w := (s.user + s.background)[0];
            var r := Step(s, Waking(t));
            && w.notified
            && (r.holder.Some? <==> t == w.ticket)
            && (t == w.ticket ==>
                  && r.holder == Some(|s.handles|) && Grants(s, r, w.call)
                  && r.user + r.background == (s.user + s.background)[1..])
  {
    HeadOutcome(s, t);
    var w := NextWaiter(s).value;
    if t == w.ticket { NewHandleGrants(s, Step(s, Waking(t)), w.call); }
  }

  /** What a fresh caller makes of the queue, case by case. */
  lemma EnterOutcome(s: State, active: Option<nat>, call: Call)
    requires Inv(s) && !Reentrant(s, active, call)
    ensures var r := Enter(s, active, call);
            var free := s.holder.None? && s.user == [] && (call.userPriority || s.background == []);
            && (r.holder == Some(|s.handles|) <==> free)
            && (free ==> r.user == s.user && r.background == s.background
                         && r.handles == s.handles + [NewHandle(call, s.now)])
            && (!free ==> r.holder == s.holder && r.handles == s.handles)
            && (!free && call.waitTimeout > 0.0 && call.userPriority ==>
                  r.background == s.background
                  && r.user == s.user + [Arrival(s, call).(notified := false)])
            && (!free && call.waitTimeout > 0.0 && !call.userPriority ==>
                  r.user == s.user
                  && r.background == s.background + [Arrival(s, call).(notified := false)])
            && (!free && call.waitTimeout <= 0.0 ==>
                  r.user == WakeAll(s.user) && r.background == WakeAll(s.background))
  {
    if !(s.holder.None? && NextWaiter(s).None?) {
      var w := Arrival(s, call);
      var q := Enqueue(s, w);
      EnqueueForRecheck(s, w);
      assert s.holder.Some? ==> s.holder.value < |s.handles|;
      if MayGo(q, w.ticket) {
        PopIsRemoval(q, w);
        assert w.userPriority && s.user == [];
        assert q.user[1..] == s.user;
      } else if w.deadline - q.now <= 0.0 {
        AppendThenRemove(s.user, w);
        AppendThenRemove(s.background, w);
        WithoutAbsent(s.user, w.ticket);
        WithoutAbsent(s.background, w.ticket);
      } else {
        SleepAbsent(s.user, w.ticket);
        SleepAbsent(s.background, w.ticket);
        var r := Sleep(q, w.ticket);
        if w.userPriority {
          assert r.user == SleepIn(s.user, w.ticket) + [w.(notified := false)];
        } else {
          assert r.background == SleepIn(s.background, w.ticket) + [w.(notified := false)];
        }
      }
    }
  }

  /** The caller runs inside the block of the handle that holds the slot, for its thread. */
  ghost predicate OnOwnStack(s: State, active: Option<nat>, tid: string)
    requires Inv(s)
  {
    s.holder.Some? && active == s.holder && s.handles[s.holder.value].threadId == tid
  }

  /** A fresh caller gets the slot at once exactly when it is free and nobody of
      its own tier or a higher one is waiting; otherwise it stands last in its tier,
      unless its wait had already run out. */
  lemma NoBarging(s: State, active: Option<nat>, call: Call)
    requires Inv(s) && !OnOwnStack(s, active, call.threadId)
    ensures var r := Step(s, Entering(active, call));
            var free := s.holder.None? && s.user == [] && (call.userPriority || s.background == []);
            && (r.holder == Some(|s.handles|) <==> free)
            && (free ==> r.user == s.user && r.background == s.background && Grants(s, r, call))
            && (!free ==> r.holder == s.holder && r.handles == s.handles)
            && (!free && call.waitTimeout > 0.0 ==>
                  var w := Waiter(s.tickets, call.threadId, call.userPriority, s.now + call.waitTimeout, call, false);
                  && r.user == s.user + (if call.userPriority then [w] else [])
                  && r.background == s.background + (if call.userPriority then [] else [w]))
            && (!free && call.waitTimeout <= 0.0 ==>
                  r.user == WakeAll(s.user) && r.background == WakeAll(s.background))
  {
    assert !Reentrant(s, active, call);
    EnterOutcome(s, active, call);
    var r := Enter(s, active, call);
    if s.holder.None? && s.user == [] && (call.userPriority || s.background == []) { NewHandleGrants(s, r, call); }
  }

  /** Only the holder, from its own stack, comes in again, and that changes nothing. */
  lemma OwnStackReenters(s: State, active: Option<nat>, call: Call)
    requires Inv(s)
    ensures OnOwnStack(s, active, call.threadId) <==> Step(s, Entering(active, call)) == s
  {
    if !OnOwnStack(s, active, call.threadId) {
      NoBarging(s, active, call);
      EnterTakesATicket(s, active, call);
    }
  }

  lemma EnterTakesATicket(s: State, active: Option<nat>, call: Call)
    requires Inv(s) && !Reentrant(s, active, call)
    ensures Enter(s, active, call).tickets > s.tickets || |Enter(s, active, call).handles| > |s.handles|
  {
    if !(s.holder.None? && NextWaiter(s).None?) {
      EnqueueForRecheck(s, Arrival(s, call));
    }
  }

  lemma SleepAbsent(ws: seq<Waiter>, ticket: nat)
    requires forall i :: 0 <= i < |ws| ==> ws[i].ticket != ticket
    ensures SleepIn(ws, ticket) == ws
  {
  }

  lemma {:induction false} AppendThenRemove(ws: seq<Waiter>, w: Waiter)
    requires forall i :: 0 <= i < |ws| ==> ws[i].ticket != w.ticket
    ensures Without(ws + [w], w.ticket) == ws
  {
    if ws == [] {
      assert ws + [w] == [w];
    } else {
      AppendThenRemove(ws[1..], w);
      assert (ws + [w])[1..] == ws[1..] + [w];
    }
  }

  // ------------------------------------------------------------------
  // Stale holders
  // ------------------------------------------------------------------

  ghost predicate Retired(s: State, h: nat) {
    h < |s.handles| && (s.handles[h].expired || !s.handles[h].inBlock)
  }

  lemma StepKeepsRetired(s: State, e: Event, h: nat)
    requires Inv(s) && Enabled(s, e) && Retired(s, h)
    ensures Retired(Step(s, e), h)
  {
    match e
    case Entering(active, call) => EnterOnlyAddsHandles(s, active, call);
    case Waking(ticket) => RecheckOnlyAddsHandles(s, Waiting(s, ticket));
    case _ =>
  }

  lemma {:induction false} RunKeepsRetired(s: State, es: seq<Event>, h: nat)
    requires Inv(s) && Legal(s, es) && Retired(s, h)
    ensures Retired(After(s, es), h)
    decreases |es|
  {
    if es != [] {
      StepKeepsInv(s, es[0]);
      StepKeepsRetired(s, es[0], h);
      RunKeepsRetired(Step(s, es[0]), es[1..], h);
    }
  }

  /** A handle that was force-released (or has left its block) never holds the slot
      again, and its late exit or tick, however long after, moves neither the slot
      nor anybody's accounting nor the queues: the same thread id may hold the slot
      again by then. */
  lemma StaleHandleIsInert(s: State, es: seq<Event>, h: nat, e: Event)
    requires Inv(s) && Legal(s, es) && Retired(s, h)
    requires e == Exiting(h) || e == Ticking(h)
    requires Enabled(After(s, es), e)
    ensures Inv(After(s, es))
    ensures var q := After(s, es);
            var r := Step(q, e);
            && q.holder != Some(h)
            && r.holder == q.holder && r.activeHoldMs == q.activeHoldMs
            && r.user == q.user && r.background == q.background
            && |r.handles| == |q.handles|
            && forall k :: 0 <= k < |q.handles| && k != h ==> r.handles[k] == q.handles[k]
  {
    RunKeepsInv(s, es);
    RunKeepsRetired(s, es, h);
  }

  lemma RecheckOnlyAddsHandles(s: State, w: Waiter)
    requires FlagsNameQueues(s) && Queued(s, w)
    ensures s.handles <= Recheck(s, w).handles
  {
  }

  lemma EnterOnlyAddsHandles(s: State, active: Option<nat>, call: Call)
    requires FlagsNameQueues(s)
    ensures s.handles <= Enter(s, active, call).handles
  {
    if !Reentrant(s, active, call) && !(s.holder.None? && NextWaiter(s).None?) {
      RecheckOnlyAddsHandles(Enqueue(s, Arrival(s, call)), Arrival(s, call));
    }
  }

  /** When a pause is asked for. A flag is up after a step exactly when it was up before,
      or the step asks the holder's thread by name, or is a tick of the holder below its
      cap whose slice has lasted its quantum while somebody waits. An uncontended holder is
      never paused by the timer, and a contended one always is. */
  lemma PauseHasAReason(s: State, e: Event, h: nat)
    requires Inv(s) && Enabled(s, e) && h < |s.handles|
    ensures |Step(s, e).handles| >= |s.handles|
    ensures var o := s.handles[h];
            Step(s, e).handles[h].pauseRequested <==>
              || o.pauseRequested
              || (&& s.holder == Some(h)
                  && (|| e == Pausing(o.threadId)
                      || (&& e == Ticking(h)
                          && o.accumulatedMs / 1000.0 + (s.now - o.acquiredAt) < o.holdTimeout
                          && s.now - o.acquiredAt >= o.quantum
                          && (s.user != [] || s.background != []))))
  {
    match e
    case Entering(active, call) => EnterOnlyAddsHandles(s, active, call);
    case Waking(ticket) => RecheckOnlyAddsHandles(s, Waiting(s, ticket));
    case _ =>
  }

  // ------------------------------------------------------------------
  // What callbacks, exits and wake-ups decide
  // ------------------------------------------------------------------

  function Tickets(ws: seq<Waiter>): (r: seq<nat>)
    ensures |r| == |ws| && forall i :: 0 <= i < |r| ==> r[i] == ws[i].ticket
  {
    seq(|ws|, i requires 0 <= i < |ws| => ws[i].ticket)
  }

  ghost predicate SameQueues(s: State, r: State) {
    Tickets(r.user) == Tickets(s.user) && Tickets(r.background) == Tickets(s.background)
  }

  ghost predicate AllNotified(s: State) {
    && (forall i :: 0 <= i < |s.user| ==> s.user[i].notified)
    && (forall i :: 0 <= i < |s.background| ==> s.background[i].notified)
  }

  /** A tick of the holder. At the cap the handle is expired, the slot free, everybody
      told and no tick started. Below it the holder stays, and its next tick comes after
      a quantum, or when the cap is reached if that is sooner. */
  lemma TickDecides(s: State, h: nat)
    requires Inv(s) && s.holder == Some(h)
    ensures var o := s.handles[h];
            var held := o.accumulatedMs / 1000.0 + (s.now - o.acquiredAt);
            var left := o.holdTimeout - held;
            var r := Step(s, Ticking(h));
            && |r.handles| == |s.handles| && SameQueues(s, r)
            && (held >= o.holdTimeout ==>
                  && r.holder.None? && r.handles[h].expired && r.handles[h].timer == Idle && AllNotified(r))
            && (held < o.holdTimeout ==>
                  && r.holder == Some(h) && !r.handles[h].expired
                  && r.handles[h].timer.Armed? && r.handles[h].timer.since == s.now
                  && (o.quantum <= left && o.quantum >= 0.0 ==> r.handles[h].timer.due == s.now + o.quantum)
                  && (o.quantum > left ==> r.handles[h].timer.due == s.now + left)
                  && (o.quantum < 0.0 ==> r.handles[h].timer.due == s.now))
  {
  }

  /** The end of a block. A holder's time, that of its earlier slices with it, is kept
      under its thread's name, the slot is free and everybody told; a handle that holds
      the slot no longer changes neither. */
  lemma ExitDecides(s: State, h: nat)
    requires Inv(s) && Enabled(s, Exiting(h))
    ensures var o := s.handles[h];
            var r := Step(s, Exiting(h));
            && |r.handles| == |s.handles| && SameQueues(s, r)
            && !r.handles[h].inBlock && r.handles[h].timer == Idle && r.handles[h].expired == o.expired
            && (s.holder == Some(h) ==>
                  && r.holder.None? && AllNotified(r)
                  && o.threadId in r.activeHoldMs
                  && r.activeHoldMs[o.threadId] == o.accumulatedMs + (s.now - o.acquiredAt) * 1000.0)
            && (s.holder != Some(h) ==> r.holder == s.holder && r.activeHoldMs == s.activeHoldMs)
            && (forall tid :: tid != o.threadId ==> (tid in r.activeHoldMs <==> tid in s.activeHoldMs))
            && (forall tid :: tid != o.threadId && tid in s.activeHoldMs ==> r.activeHoldMs[tid] == s.activeHoldMs[tid])
  {
  }

  /** The position of a waiter, and the tickets without it. */
  ghost predicate GoneFrom(was: seq<Waiter>, now: seq<Waiter>, t: nat) {
    exists k :: 0 <= k < |was| && was[k].ticket == t && Tickets(now) == Tickets(was)[..k] + Tickets(was)[k + 1..]
  }

  lemma TicketsCut(ws: seq<Waiter>, k: nat)
    requires k < |ws|
    ensures Tickets(ws[..k] + ws[k + 1..]) == Tickets(ws)[..k] + Tickets(ws)[k + 1..]
  {
  }

  lemma LeavesAt(ws: seq<Waiter>, t: nat)
    requires DistinctIn(ws)
    ensures if Stands(ws, t) then GoneFrom(ws, Without(ws, t), t) else Without(ws, t) == ws
  {
    if k :| 0 <= k < |ws| && ws[k].ticket == t {
      WithoutAt(ws, k);
      TicketsCut(ws, k);
    } else {
      WithoutAbsent(ws, t);
    }
  }

  /** The head of both tiers, the user tier first. */
  ghost predicate Heads(s: State, t: nat) {
    if s.user != [] then s.user[0].ticket == t else s.background != [] && s.background[0].ticket == t
  }

  /** A wake-up that may not take the slot, before its deadline: the waiter keeps its place
      and sleeps, nothing else changes. */
  lemma WakingSleeps(s: State, t: nat)
    requires Inv(s) && Waits(s, t) && (s.holder.Some? || !Heads(s, t)) && s.now < Waiting(s, t).deadline
    ensures var r := Step(s, Waking(t));
            && r.holder == s.holder && r.handles == s.handles && r.activeHoldMs == s.activeHoldMs
            && SameQueues(s, r)
            && (forall i :: 0 <= i < |s.user| ==>
                  r.user[i].notified == (s.user[i].notified && s.user[i].ticket != t))
            && (forall i :: 0 <= i < |s.background| ==>
                  r.background[i].notified == (s.background[i].notified && s.background[i].ticket != t))
  {
    assert !MayGo(s, t);
  }

  lemma WokenTickets(ws: seq<Waiter>)
    ensures Tickets(WakeAll(ws)) == Tickets(ws) && forall i :: 0 <= i < |ws| ==> WakeAll(ws)[i].notified
  {
  }

  ghost predicate Stands(ws: seq<Waiter>, t: nat) { exists k :: 0 <= k < |ws| && ws[k].ticket == t }

  /** One tier after a waiter gave up. */
  lemma TierLeft(ws: seq<Waiter>, t: nat)
    requires DistinctIn(ws)
    ensures var r := WakeAll(Without(ws, t));
            && (forall i :: 0 <= i < |r| ==> r[i].notified && r[i].ticket != t)
            && if Stands(ws, t) then GoneFrom(ws, r, t) else Tickets(r) == Tickets(ws)
  {
    LeavesAt(ws, t);
    WithoutKeeps(ws, t);
    WokenTickets(Without(ws, t));
  }

  /** The same after its deadline: the waiter leaves its queue, all others keep their order
      and are told. */
  lemma WakingGivesUp(s: State, t: nat)
    requires Inv(s) && Waits(s, t) && (s.holder.Some? || !Heads(s, t)) && s.now >= Waiting(s, t).deadline
    ensures var r := Step(s, Waking(t));
            && r.holder == s.holder && r.handles == s.handles && r.activeHoldMs == s.activeHoldMs
            && AllNotified(r) && !Waits(r, t)
            && ((GoneFrom(s.user, r.user, t) && Tickets(r.background) == Tickets(s.background))
                || (Tickets(r.user) == Tickets(s.user) && GoneFrom(s.background, r.background, t)))
  {
    assert !MayGo(s, t);
    TierLeft(s.user, t);
    TierLeft(s.background, t);
    OneTier(s, t);
  }

  /** A waiter stands in one tier only. */
  lemma OneTier(s: State, t: nat)
    requires Inv(s) && Waits(s, t)
    ensures Stands(s.user, t) <==> !Stands(s.background, t)
  {
  }

  /** `request_pause` touches one flag, `pop_hold` one entry, and time only passes. */
  lemma OthersDecide(s: State, e: Event)
    requires Inv(s) && (e.Pausing? || e.Popping? || e.Passing?) && Enabled(s, e)
    ensures var r := Step(s, e);
            && r.user == s.user && r.background == s.background && r.holder == s.holder
            && |r.handles| == |s.handles| && r.tickets == s.tickets
            && r.now == (if e.Passing? then s.now + e.dt else s.now)
            && (forall h :: 0 <= h < |s.handles| ==>
                  r.handles[h] == s.handles[h].(pauseRequested :=
                    s.handles[h].pauseRequested
                    || (e.Pausing? && s.holder == Some(h) && s.handles[h].threadId == e.tid)))
            && (forall tid :: tid in r.activeHoldMs <==> tid in s.activeHoldMs && !(e.Popping? && e.tid == tid))
            && (forall tid :: tid in r.activeHoldMs ==> r.activeHoldMs[tid] == s.activeHoldMs[tid])
  {
  }

  // ------------------------------------------------------------------
  // Two-tier order
  // ------------------------------------------------------------------

  ghost predicate At(ws: seq<Waiter>, k: int, t: nat) { 0 <= k < |ws| && ws[k].ticket == t }

  /** The position of a user-tier waiter, or its absence, after one step. */
  ghost predicate NoWorse(s: State, r: State, i: nat, t: nat) {
    !Waits(r, t) || (exists j :: At(r.user, j, t) && j + (|r.handles| - |s.handles|) <= i)
  }

  lemma RecheckRank(s: State, w: Waiter, i: nat)
    requires FlagsNameQueues(s) && OnePlaceEach(s) && SlotExact(s) && Queued(s, w) && i < |s.user|
    ensures NoWorse(s, Recheck(s, w), i, s.user[i].ticket)
  {
    var t := s.user[i].ticket;
    var r := Recheck(s, w);
    if MayGo(s, w.ticket) {
      PopIsRemoval(s, w);
      assert w == s.user[0];
      if i > 0 {
        assert At(r.user, i - 1, t);
      } else {
        assert !Waits(r, t);
      }
    } else if w.deadline - s.now <= 0.0 {
      LeaveRank(s, w.ticket, i);
    } else {
      assert At(r.user, i, t);
    }
  }

  lemma LeaveRank(s: State, gone: nat, i: nat)
    requires OnePlaceEach(s) && i < |s.user|
    ensures NoWorse(s, Leave(s, gone), i, s.user[i].ticket)
  {
    var t := s.user[i].ticket;
    var r := Leave(s, gone);
    WithoutKeeps(s.background, gone);
    if k :| 0 <= k < |s.user| && s.user[k].ticket == gone {
      WithoutAt(s.user, k);
      if k == i {
        WithoutKeeps(s.user, gone);
        assert !Waits(r, t);
      } else {
        assert At(r.user, if k < i then i - 1 else i, t);
      }
    } else {
      WithoutAbsent(s.user, gone);
      assert At(r.user, i, t);
    }
  }

  lemma StepRank(s: State, e: Event, i: nat)
    requires Inv(s) && Enabled(s, e) && i < |s.user|
    ensures NoWorse(s, Step(s, e), i, s.user[i].ticket)
  {
    var t := s.user[i].ticket;
    var r := Step(s, e);
    match e
    case Entering(active, call) =>
      if !Reentrant(s, active, call) {
        var w := Arrival(s, call);
        var q := Enqueue(s, w);
        EnqueueForRecheck(s, w);
        assert q.user[i] == s.user[i];
        RecheckRank(q, w, i);
      } else {
        assert At(r.user, i, t);
      }
    case Waking(ticket) => RecheckRank(s, Waiting(s, ticket), i);
    case _ => assert At(r.user, i, t);
  }

  lemma EnterKeepsGone(s: State, active: Option<nat>, call: Call, t: nat)
    requires Inv(s) && Enabled(s, Entering(active, call)) && !Waits(s, t) && t < s.tickets
    ensures !Waits(Enter(s, active, call), t) && t < Enter(s, active, call).tickets
  {
    if !Reentrant(s, active, call) && !(s.holder.None? && NextWaiter(s).None?) {
      var w := Arrival(s, call);
      var q := Enqueue(s, w);
      EnqueueForRecheck(s, w);
      assert !Waits(q, t);
      RecheckKeepsGone(q, w, t);
    }
  }

  lemma PromoteKeepsGone(s: State, tid: string, t: nat)
    requires OnePlaceEach(s) && !Waits(s, t)
    ensures !Waits(Promote(s, tid), t)
  {
    FilterKeeps(s.background, tid);
    var promoted, rest := OfThread(s.background, tid), NotOfThread(s.background, tid);
    forall i | 0 <= i < |promoted| ensures promoted[i].ticket != t {
      assert promoted[i] in promoted;
    }
    forall i | 0 <= i < |rest| ensures rest[i].ticket != t {
      assert rest[i] in rest;
    }
  }

  /** Tickets are never reused: a waiter that has left does not come back. */
  lemma StepKeepsGone(s: State, e: Event, t: nat)
    requires Inv(s) && Enabled(s, e) && !Waits(s, t) && t < s.tickets
    ensures !Waits(Step(s, e), t) && t < Step(s, e).tickets
  {
    match e
    case Entering(active, call) => EnterKeepsGone(s, active, call, t);
    case Waking(ticket) => RecheckKeepsGone(s, Waiting(s, ticket), t);
    case Promoting(tid) => PromoteKeepsGone(s, tid, t);
    case _ =>
  }

  lemma RecheckKeepsGone(s: State, w: Waiter, t: nat)
    requires FlagsNameQueues(s) && OnePlaceEach(s) && SlotExact(s) && Queued(s, w) && !Waits(s, t)
    ensures !Waits(Recheck(s, w), t) && Recheck(s, w).tickets == s.tickets
  {
    WithoutKeeps(s.user, w.ticket);
    WithoutKeeps(s.background, w.ticket);
    assert forall x :: x in s.user || x in s.background ==> x.ticket != t;
    if MayGo(s, w.ticket) {
      PopIsRemoval(s, w);
    }
  }

  lemma {:induction false} RunKeepsGone(s: State, es: seq<Event>, t: nat)
    requires Inv(s) && Legal(s, es) && !Waits(s, t) && t < s.tickets
    ensures !Waits(After(s, es), t)
    decreases |es|
  {
    if es != [] {
      StepKeepsInv(s, es[0]);
      StepKeepsGone(s, es[0], t);
      RunKeepsGone(Step(s, es[0]), es[1..], t);
    }
  }

  /** A user-tier waiter at index i: as long as it still waits, it is still in the
      user tier, never further back, and each slot granted meanwhile has moved it up
      by one; so it is granted after at most i other grants. */
  lemma {:induction false} GrantedWithinItsIndex(s: State, es: seq<Event>, i: nat)
    requires Inv(s) && Legal(s, es) && i < |s.user|
    ensures NoWorse(s, After(s, es), i, s.user[i].ticket)
    ensures Waits(After(s, es), s.user[i].ticket) ==> |After(s, es).handles| - |s.handles| <= i
    decreases |es|
  {
    var t := s.user[i].ticket;
    if es == [] {
      assert At(s.user, i, t);
    } else {
      StepKeepsInv(s, es[0]);
      StepRank(s, es[0], i);
      var r := Step(s, es[0]);
      if Waits(r, t) {
        var j :| At(r.user, j, t) && j + (|r.handles| - |s.handles|) <= i;
        GrantedWithinItsIndex(r, es[1..], j);
        var f := After(r, es[1..]);
        if Waits(f, t) {
          var k :| At(f.user, k, t) && k + (|f.handles| - |r.handles|) <= j;
          assert At(f.user, k, t) && k + (|f.handles| - |s.handles|) <= i;
        }
      } else {
        StepTickets(s, es[0]);
        RunKeepsGone(r, es[1..], t);
      }
    }
  }

  lemma StepTickets(s: State, e: Event)
    requires Inv(s) && Enabled(s, e)
    ensures s.tickets <= Step(s, e).tickets
  {
  }

  lemma {:induction false} FilterSnoc(ws: seq<Waiter>, w: Waiter, tid: string)
    ensures OfThread(ws + [w], tid) == OfThread(ws, tid) + OfThread([w], tid)
    ensures NotOfThread(ws + [w], tid) == NotOfThread(ws, tid) + NotOfThread([w], tid)
  {
    if ws == [] {
      assert ws + [w] == [w];
    } else {
      var tail := ws[1..];
      FilterSnoc(tail, w, tid);
      assert ws + [w] == [ws[0]] + (tail + [w]);
      FilterCons(ws[0], tail + [w], tid);
      FilterCons(ws[0], tail, tid);
      assert ws == [ws[0]] + tail;
    }
  }

  lemma FilterCons(w: Waiter, ws: seq<Waiter>, tid: string)
    ensures OfThread([w] + ws, tid) == (if w.threadId == tid then [w] else []) + OfThread(ws, tid)
    ensures NotOfThread([w] + ws, tid) == (if w.threadId != tid then [w] else []) + NotOfThread(ws, tid)
  {
    assert ([w] + ws)[1..] == ws;
  }

  lemma {:induction false} FilterOrder(ws: seq<Waiter>, tid: string, i: nat, j: nat)
    requires i < j < |ws|
    ensures ws[i].threadId == tid && ws[j].threadId == tid ==>
              exists p, q :: 0 <= p < q < |OfThread(ws, tid)|
                             && OfThread(ws, tid)[p] == ws[i] && OfThread(ws, tid)[q] == ws[j]
    ensures ws[i].threadId != tid && ws[j].threadId != tid ==>
              exists p, q :: 0 <= p < q < |NotOfThread(ws, tid)|
                             && NotOfThread(ws, tid)[p] == ws[i] && NotOfThread(ws, tid)[q] == ws[j]
  {
    FilterMember(ws[1..], tid, j - 1);
    var a, b := OfThread(ws, tid), NotOfThread(ws, tid);
    var a', b' := OfThread(ws[1..], tid), NotOfThread(ws[1..], tid);
    if i == 0 {
      if ws[i].threadId == tid && ws[j].threadId == tid {
        var q :| 0 <= q < |a'| && a'[q] == ws[1..][j - 1];
        assert a[0] == ws[i] && a[q + 1] == ws[j];
      } else if ws[i].threadId != tid && ws[j].threadId != tid {
        var q :| 0 <= q < |b'| && b'[q] == ws[1..][j - 1];
        assert b[0] == ws[i] && b[q + 1] == ws[j];
      }
    } else {
      FilterOrder(ws[1..], tid, i - 1, j - 1);
      if ws[i].threadId == tid && ws[j].threadId == tid {
        var p, q :| 0 <= p < q < |a'| && a'[p] == ws[1..][i - 1] && a'[q] == ws[1..][j - 1];
        var d := if ws[0].threadId == tid then 1 else 0;
        assert a[p + d] == ws[i] && a[q + d] == ws[j];
      } else if ws[i].threadId != tid && ws[j].threadId != tid {
        var p, q :| 0 <= p < q < |b'| && b'[p] == ws[1..][i - 1] && b'[q] == ws[1..][j - 1];
        var d := if ws[0].threadId != tid then 1 else 0;
        assert b[p + d] == ws[i] && b[q + d] == ws[j];
      }
    }
  }

  lemma {:induction false} FilterMember(ws: seq<Waiter>, tid: string, i: nat)
    requires i < |ws|
    ensures ws[i].threadId == tid ==> exists p :: 0 <= p < |OfThread(ws, tid)| && OfThread(ws, tid)[p] == ws[i]
    ensures ws[i].threadId != tid ==> exists p :: 0 <= p < |NotOfThread(ws, tid)| && NotOfThread(ws, tid)[p] == ws[i]
  {
    var a, b := OfThread(ws, tid), NotOfThread(ws, tid);
    if i == 0 {
      if ws[0].threadId == tid { assert a[0] == ws[0]; } else { assert b[0] == ws[0]; }
    } else {
      FilterMember(ws[1..], tid, i - 1);
      var a', b' := OfThread(ws[1..], tid), NotOfThread(ws[1..], tid);
      if ws[i].threadId == tid {
        var p :| 0 <= p < |a'| && a'[p] == ws[1..][i - 1];
        assert a[p + if ws[0].threadId == tid then 1 else 0] == ws[i];
      } else {
        var p :| 0 <= p < |b'| && b'[p] == ws[1..][i - 1];
        assert b[p + if ws[0].threadId != tid then 1 else 0] == ws[i];
      }
    }
  }

  lemma {:induction false} FilterSizes(ws: seq<Waiter>, tid: string)
    ensures |OfThread(ws, tid)| + |NotOfThread(ws, tid)| == |ws|
  {
    if ws != [] { FilterSizes(ws[1..], tid); }
  }

  /** Promotion moves each background waiter of the thread behind the user waiters, leaves
      every other one, loses nobody, and wakes everybody if it moved anybody. */
  lemma PromotionMoves(s: State, tid: string, i: nat)
    requires Inv(s) && i < |s.background|
    ensures var r := Step(s, Promoting(tid));
            var w := s.background[i];
            && |r.user| + |r.background| == |s.user| + |s.background|
            && r.activeHoldMs == s.activeHoldMs && r.tickets == s.tickets
            && (w.threadId == tid ==>
                  && AllNotified(r)
                  && exists p :: |s.user| <= p < |r.user| && At(r.user, p, w.ticket) && r.user[p].userPriority)
            && (w.threadId != tid ==> exists p :: At(r.background, p, w.ticket))
  {
    FilterSizes(s.background, tid);
    FilterMember(s.background, tid, i);
    var r := Promote(s, tid);
    var w := s.background[i];
    var f, g := OfThread(s.background, tid), NotOfThread(s.background, tid);
    if w.threadId == tid {
      var p :| 0 <= p < |f| && f[p] == w;
      assert At(r.user, |s.user| + p, w.ticket);
    } else {
      var p :| 0 <= p < |g| && g[p] == w;
      assert At(r.background, p, w.ticket) || r == s;
      assert r == s ==> At(s.background, i, w.ticket);
    }
  }

  /** Promotion is a stable partition: user waiters keep their places in front, two
      promoted waiters keep their order behind them, two left behind keep theirs,
      and the holder is untouched. */
  lemma PromotionIsStable(s: State, tid: string, i: nat, j: nat)
    requires Inv(s) && i < j < |s.background|
    ensures var r := Promote(s, tid);
            var a, b := s.background[i], s.background[j];
            && r.holder == s.holder && r.handles == s.handles
            && (forall k :: 0 <= k < |s.user| ==> k < |r.user| && r.user[k].ticket == s.user[k].ticket)
            && (a.threadId == tid && b.threadId == tid ==>
                  exists p, q :: |s.user| <= p < q && At(r.user, p, a.ticket) && At(r.user, q, b.ticket))
            && (a.threadId != tid && b.threadId != tid ==>
                  exists p, q :: p < q && At(r.background, p, a.ticket) && At(r.background, q, b.ticket))
  {
    var r := Promote(s, tid);
    var a, b := s.background[i], s.background[j];
    FilterOrder(s.background, tid, i, j);
    var f, g := OfThread(s.background, tid), NotOfThread(s.background, tid);
    if a.threadId == tid && b.threadId == tid {
      var p, q :| 0 <= p < q < |f| && f[p] == a && f[q] == b;
      assert At(r.user, |s.user| + p, a.ticket) && At(r.user, |s.user| + q, b.ticket);
    } else if a.threadId != tid && b.threadId != tid {
      if f == [] {
        assert At(r.background, i, a.ticket) && At(r.background, j, b.ticket);
      } else {
        var p, q :| 0 <= p < q < |g| && g[p] == a && g[q] == b;
        assert At(r.background, p, a.ticket) && At(r.background, q, b.ticket);
      }
    }
  }
}
