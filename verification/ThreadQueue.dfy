/**
 * The queue class of assist/thread_queue.py, proved against `QueueSpec`.
 *
 * Each method is one section under the Condition (or the whole of a callback). The
 * clock is a parameter; the wait loop of `acquire` is `Enter` for its first
 * evaluation and `Recheck` for every later one. `ticket`, `id`, `inBlock`, `ticks`
 * and `notified` record for the proof what the source leaves to object identity, to
 * the position of the caller and to the Condition's own list of sleepers.
 */
module ThreadQueue {
  import opened Common
  import Q = QueueSpec
  import P = QueueProofs

  class Handle {
    const threadId: string
    const quantum: real
    const holdTimeout: real
    const accumulatedMs: real
    const acquiredAt: real
    var expired: bool
    var pauseRequested: bool
    var timer: Q.Timer
    ghost const id: nat
    ghost var inBlock: bool
    ghost var ticks: nat

    constructor (call: Q.Call, now: real, ghost id: nat)
      ensures this.id == id
      ensures View() == Q.Handle(call.threadId, call.quantum, call.holdTimeout, call.accumulatedMs,
                                 now, false, false, Q.Idle, true, 0)
    {
      threadId, quantum, holdTimeout := call.threadId, call.quantum, call.holdTimeout;
      accumulatedMs, acquiredAt := call.accumulatedMs, now;
      expired, pauseRequested, timer := false, false, Q.Idle;
      this.id, inBlock, ticks := id, true, 0;
    }

    ghost function View(): Q.Handle
      reads this
    {
      Q.Handle(threadId, quantum, holdTimeout, accumulatedMs, acquiredAt,
               expired, pauseRequested, timer, inBlock, ticks)
    }

    /** Seconds of active hold, earlier slices included. */
    function CumulativeS(now: real): (s: real)
      ensures s == Q.CumulativeS(View(), now)
      reads this
    {
      accumulatedMs / 1000.0 + (now - acquiredAt)
    }

    function NextTickDelay(now: real): (d: real)
      ensures d == Q.NextTickDelay(View(), now) && d >= 0.0
      reads this
    {
      var remaining := holdTimeout - CumulativeS(now);
      var d := if remaining < quantum then remaining else quantum;
      if d > 0.0 then d else 0.0
    }

    /** Start the timer for the next tick. */
    method StartTick(now: real)
      modifies this`timer
      ensures View() == Q.Rearm(old(View()), now)
    {
      timer := Q.Armed(now, now + NextTickDelay(now));
    }
  }

  class Waiter {
    const ticket: nat
    const threadId: string
    var userPriority: bool
    const deadline: real
    const call: Q.Call
    ghost var notified: bool

    constructor (ticket: nat, call: Q.Call, now: real)
      ensures View() == Q.Waiter(ticket, call.threadId, call.userPriority, now + call.waitTimeout, call, true)
    {
      this.ticket, threadId, userPriority := ticket, call.threadId, call.userPriority;
      deadline, this.call, notified := now + call.waitTimeout, call, true;
    }

    ghost function View(): Q.Waiter
      reads this
    {
      Q.Waiter(ticket, threadId, userPriority, deadline, call, notified)
    }
  }

  datatype Outcome = Reentered | Granted | Asleep(waiter: Waiter) | TimedOut

  ghost function Handles(hs: seq<Handle>): seq<Q.Handle>
    reads hs
  {
    seq(|hs|, i requires 0 <= i < |hs| reads hs => hs[i].View())
  }

  ghost function Waiters(ws: seq<Waiter>): seq<Q.Waiter>
    reads ws
  {
    seq(|ws|, i requires 0 <= i < |ws| reads ws => ws[i].View())
  }

  class ThreadAffinityQueue {
    var holder: Handle?
    var userWaiters: seq<Waiter>
    var backgroundWaiters: seq<Waiter>
    var activeHoldMs: map<string, real>
    var tickets: nat
    ghost var handles: seq<Handle>     // every handle ever granted

    /** The abstract state at time `now`. */
    ghost function View(now: real): Q.State
      reads this, holder, handles, userWaiters, backgroundWaiters
    {
      Q.State(now, if holder == null then None else Some(holder.id),
              Waiters(userWaiters), Waiters(backgroundWaiters), activeHoldMs, Handles(handles), tickets)
    }

    /** The queues hold each waiter at most once and handles are known by their ids. */
    ghost predicate Valid()
      reads this, holder, handles, userWaiters, backgroundWaiters
    {
      && (forall i :: 0 <= i < |handles| ==> handles[i].id == i)
      && (holder != null ==> holder in handles)
      && P.Inv(View(0.0))
    }

    constructor ()
      ensures Valid()
      ensures forall now :: View(now) == Q.Init(now)
    {
      holder, userWaiters, backgroundWaiters, activeHoldMs, tickets := null, [], [], map[], 0;
      handles := [];
    }

    function NextWaiter(): (w: Waiter?)
      reads this, userWaiters, backgroundWaiters
      ensures w == null <==> userWaiters == [] && backgroundWaiters == []
      ensures w != null ==> w in userWaiters + backgroundWaiters && w == (userWaiters + backgroundWaiters)[0]
    {
      if userWaiters != [] then userWaiters[0]
      else if backgroundWaiters != [] then backgroundWaiters[0]
      else null
    }

    /** Everybody in either queue. */
    ghost function Everybody(): set<Waiter>
      reads this
    {
      (set w | w in userWaiters) + (set w | w in backgroundWaiters)
    }

    ghost method NotifyAll(all: set<Waiter>)
      requires all == Everybody()
      modifies all
      ensures forall now :: View(now) == Q.NotifyAll(old(View(now)))
    {
      forall w | w in all {
        w.notified := true;
      }
    }

    /** `_release_if_holder`: vacate the slot if `h` is still the holder. */
    method ReleaseIfHolder(h: Handle) returns (released: bool)
      requires holder != null ==> holder in handles
      requires forall i :: 0 <= i < |handles| ==> handles[i].id == i
      requires h in handles
      modifies this`holder, Everybody()
      ensures released <==> old(holder) == h
      ensures forall now :: View(now) == Q.ReleaseIfHolder(old(View(now)), h.id)
      ensures holder != null ==> holder == old(holder)
    {
      released := holder == h;
      if released {
        holder := null;
        NotifyAll(Everybody());
      }
    }

    /** A fresh handle takes the slot and its first tick is started. */
    method GrantSlot(call: Q.Call, now: real)
      requires forall i :: 0 <= i < |handles| ==> handles[i].id == i
      modifies this`holder, this`handles
      ensures View(now) == Q.Grant(old(View(now)), call)
      ensures forall i :: 0 <= i < |handles| ==> handles[i].id == i
      ensures holder != null && holder in handles && fresh(holder)
    {
      var handle := new Handle(call, now, |handles|);
      holder := handle;
      handles := handles + [handle];
      handle.StartTick(now);
    }

    /** `deque.remove`, by identity. */
    static method Remove(ws: seq<Waiter>, w: Waiter) returns (rest: seq<Waiter>)
      requires forall i :: 0 <= i < |ws| ==> (ws[i].ticket == w.ticket ==> ws[i] == w)
      ensures Waiters(rest) == Q.Without(Waiters(ws), w.ticket)
      ensures forall x :: x in rest ==> x in ws
    {
      for i := 0 to |ws|
        invariant forall k :: 0 <= k < i ==> ws[k].ticket != w.ticket
      {
        if ws[i] == w {
          P.WithoutFirst(Waiters(ws), i);
          rest := ws[..i] + ws[i + 1..];
          WaitersWithoutOne(ws, i);
          return;
        }
      }
      P.WithoutAbsent(Waiters(ws), w.ticket);
      rest := ws;
    }

    static lemma WaitersWithoutOne(ws: seq<Waiter>, i: nat)
      requires i < |ws|
      ensures Waiters(ws[..i] + ws[i + 1..]) == Waiters(ws)[..i] + Waiters(ws)[i + 1..]
    {
    }

    /** Nobody else has this waiter's ticket. */
    ghost predicate Identified(w: Waiter)
      reads this, userWaiters, backgroundWaiters
    {
      && (forall i :: 0 <= i < |userWaiters| && userWaiters[i].ticket == w.ticket ==> userWaiters[i] == w)
      && (forall i :: 0 <= i < |backgroundWaiters| && backgroundWaiters[i].ticket == w.ticket ==>
            backgroundWaiters[i] == w)
    }

    lemma WaitersAreIdentified(w: Waiter, now: real)
      requires P.OnePlaceEach(View(now)) && (w in userWaiters || w in backgroundWaiters)
      ensures Identified(w)
    {
      var s := View(now);
      assert forall i :: 0 <= i < |userWaiters| ==> s.user[i].ticket == userWaiters[i].ticket;
      assert forall i :: 0 <= i < |backgroundWaiters| ==> s.background[i].ticket == backgroundWaiters[i].ticket;
    }

    method RemoveFromBoth(w: Waiter)
      requires Identified(w)
      modifies this`userWaiters, this`backgroundWaiters
      ensures Everybody() <= old(Everybody())
      ensures forall now :: View(now) == old(View(now)).(
                user := Q.Without(old(View(now)).user, w.ticket),
                background := Q.Without(old(View(now)).background, w.ticket))
    {
      userWaiters := Remove(userWaiters, w);
      backgroundWaiters := Remove(backgroundWaiters, w);
      assert forall now :: View(now).handles == old(View(now)).handles;
    }

    /** The exception path of `acquire`: leave both queues and notify everybody. */
    method Leave(w: Waiter)
      requires Identified(w)
      modifies this`userWaiters, this`backgroundWaiters, Everybody()
      ensures forall now :: View(now) == Q.Leave(old(View(now)), w.ticket)
    {
      RemoveFromBoth(w);
      NotifyAll(Everybody());
    }

    ghost method FallAsleep(w: Waiter)
      requires Identified(w)
      modifies w`notified
      ensures w in userWaiters + backgroundWaiters ==> forall now :: View(now) == Q.Sleep(old(View(now)), w.ticket)
    {
      w.notified := false;
    }

    lemma InvIgnoresClock(now: real)
      requires P.Inv(View(0.0))
      ensures P.Inv(View(now))
    {
      assert View(now) == View(0.0).(now := now);
    }

    lemma InvAtAnyTime(now: real)
      requires P.Inv(View(now))
      ensures P.Inv(View(0.0))
    {
      assert View(0.0) == View(now).(now := 0.0);
    }

    /** The waiter at the head pops its own queue and takes the free slot. */
    method TakeSlot(w: Waiter, now: real)
      requires forall i :: 0 <= i < |handles| ==> handles[i].id == i
      requires if w.userPriority then userWaiters != [] else backgroundWaiters != []
      modifies this
      ensures View(now) == Q.Grant(Q.PopNamedQueue(old(View(now)), old(w.View())), w.call)
      ensures forall i :: 0 <= i < |handles| ==> handles[i].id == i
      ensures holder != null && holder in handles
    {
      ghost var s, v := View(now), w.View();
      if w.userPriority {
        userWaiters := userWaiters[1..];
        assert View(now).user == s.user[1..];
      } else {
        backgroundWaiters := backgroundWaiters[1..];
        assert View(now).background == s.background[1..];
      }
      assert View(now) == Q.PopNamedQueue(s, v);
      GrantSlot(w.call, now);
    }

    /** What the loop guard reads, in the abstract state. */
    lemma GuardIsMayGo(w: Waiter, now: real)
      requires Identified(w) && (w in userWaiters || w in backgroundWaiters)
      ensures holder == null && NextWaiter() == w <==> Q.MayGo(View(now), w.ticket)
      ensures Q.Queued(View(now), w.View())
    {
      var s := View(now);
      if i :| 0 <= i < |userWaiters| && userWaiters[i] == w {
        assert s.user[i] == w.View();
      } else {
        var i :| 0 <= i < |backgroundWaiters| && backgroundWaiters[i] == w;
        assert s.background[i] == w.View();
      }
    }

    /** What the methods below need between a waiter joining and its first check. */
    ghost predicate ReadyFor(w: Waiter)
      reads this, holder, handles, userWaiters, backgroundWaiters, w
    {
      && (w in userWaiters || w in backgroundWaiters)
      && (forall i :: 0 <= i < |handles| ==> handles[i].id == i)
      && (holder != null ==> holder in handles)
      && Q.FlagsNameQueues(View(0.0)) && P.OnePlaceEach(View(0.0)) && P.SlotExact(View(0.0))
      && P.OthersMaySleep(View(0.0), w.ticket)
    }

    lemma ReadyIgnoresClock(w: Waiter, now: real)
      requires ReadyFor(w)
      ensures Q.FlagsNameQueues(View(now)) && P.OnePlaceEach(View(now)) && P.SlotExact(View(now))
      ensures P.OthersMaySleep(View(now), w.ticket)
    {
      assert View(now) == View(0.0).(now := now);
    }

    /** The guard is true: give up if the wait has run out, else sleep. */
    method WaitOrGiveUp(w: Waiter, now: real) returns (outcome: Outcome)
      requires Identified(w) && (w in userWaiters || w in backgroundWaiters)
      modifies this`userWaiters, this`backgroundWaiters, Everybody()
      ensures View(now) == if w.deadline - now <= 0.0 then Q.Leave(old(View(now)), w.ticket)
                           else Q.Sleep(old(View(now)), w.ticket)
      ensures outcome == if w.deadline - now <= 0.0 then TimedOut else Asleep(w)
      ensures outcome.Asleep? ==> w in userWaiters || w in backgroundWaiters
    {
      var remaining := w.deadline - now;
      if remaining <= 0.0 {
        Leave(w);
        outcome := TimedOut;
      } else {
        FallAsleep(w);
        outcome := Asleep(w);
      }
    }

    /** One evaluation of the wait loop: take the slot, give up, or sleep. */
    method Recheck(w: Waiter, now: real) returns (outcome: Outcome)
      requires ReadyFor(w)
      modifies this, Everybody()
      ensures Valid()
      ensures old(Q.FlagsNameQueues(View(now))) && Q.Queued(old(View(now)), old(w.View()))
      ensures View(now) == Q.Recheck(old(View(now)), old(w.View()))
      ensures outcome == if old(Q.MayGo(View(now), w.ticket)) then Granted
                         else if w.deadline - now <= 0.0 then TimedOut
                         else Asleep(w)
      ensures outcome.Asleep? ==> w in userWaiters || w in backgroundWaiters
    {
      ghost var s, v := View(now), w.View();
      ReadyIgnoresClock(w, now);
      WaitersAreIdentified(w, now);
      GuardIsMayGo(w, now);
      P.RecheckKeepsInv(s, v);
      if holder != null || NextWaiter() != w {
        outcome := WaitOrGiveUp(w, now);
      } else {
        P.PopIsRemoval(s, v);
        TakeSlot(w, now);
        outcome := Granted;
      }
      InvAtAnyTime(now);
    }

    /** The first section of `acquire`. `active` is the context variable: the handle
        on the caller's own stack. */
    method Enter(active: Handle?, call: Q.Call, now: real) returns (outcome: Outcome)
      requires Valid() && (active != null ==> active in handles)
      modifies this, Everybody()
      ensures Valid()
      ensures old(Q.FlagsNameQueues(View(now)))
      ensures View(now) == Q.Enter(old(View(now)), if active == null then None else Some(active.id), call)
      ensures outcome.Reentered? <==>
              old(Q.Reentrant(View(now), if active == null then None else Some(active.id), call))
      ensures !outcome.Reentered? ==>
              (outcome.Granted? <==> View(now).holder == Some(|old(handles)|))
      ensures outcome.Asleep? ==> outcome.waiter in userWaiters || outcome.waiter in backgroundWaiters
    {
      ghost var a := if active == null then None else Some(active.id);
      if holder != null && holder.threadId == call.threadId && active == holder {
        InvIgnoresClock(now);
        return Reentered;
      }
      outcome := EnterAnew(a, call, now);
    }

    /** Not re-entrant: take a free slot nobody waits for, or join and check. */
    method EnterAnew(ghost a: Option<nat>, call: Q.Call, now: real) returns (outcome: Outcome)
      requires Valid() && !Q.Reentrant(View(now), a, call)
      modifies this, Everybody()
      ensures Valid()
      ensures old(Q.FlagsNameQueues(View(now)))
      ensures View(now) == Q.Enter(old(View(now)), a, call)
      ensures !outcome.Reentered? && (outcome.Granted? <==> View(now).holder == Some(|old(handles)|))
      ensures outcome.Asleep? ==> outcome.waiter in userWaiters || outcome.waiter in backgroundWaiters
    {
      InvIgnoresClock(now);
      ghost var s := View(now);
      P.EnterKeepsInv(s, a, call);
      P.EnterGrantsWhen(s, a, call);
      if holder == null && NextWaiter() == null {
        GrantSlot(call, now);
        assert View(0.0) == View(now).(now := 0.0);
        return Granted;
      }
      var waiter := Join(call, now);
      outcome := Recheck(waiter, now);
    }

    static lemma WaitersWithOne(ws: seq<Waiter>, w: Waiter)
      ensures Waiters(ws + [w]) == Waiters(ws) + [w.View()]
    {
    }

    method Stand(call: Q.Call, now: real) returns (waiter: Waiter)
      modifies this`userWaiters, this`backgroundWaiters, this`tickets
      ensures fresh(waiter) && (waiter in userWaiters || waiter in backgroundWaiters)
      ensures waiter.View() == Q.Arrival(old(View(now)), call)
      ensures forall t :: View(t) == Q.Enqueue(old(View(t)), waiter.View())
      ensures Everybody() == old(Everybody()) + {waiter}
    {
      waiter := new Waiter(tickets, call, now);
      tickets := tickets + 1;
      if call.userPriority {
        WaitersWithOne(userWaiters, waiter);
        userWaiters := userWaiters + [waiter];
      } else {
        WaitersWithOne(backgroundWaiters, waiter);
        backgroundWaiters := backgroundWaiters + [waiter];
      }
    }

    /** A new waiter stands last in the queue its priority names. */
    method Join(call: Q.Call, now: real) returns (waiter: Waiter)
      requires Valid()
      modifies this`userWaiters, this`backgroundWaiters, this`tickets
      ensures fresh(waiter) && ReadyFor(waiter)
      ensures waiter.View() == Q.Arrival(old(View(now)), call)
      ensures View(now) == Q.Enqueue(old(View(now)), waiter.View())
      ensures Everybody() == old(Everybody()) + {waiter}
    {
      ghost var s := View(0.0);
      waiter := Stand(call, now);
      P.EnqueueForRecheck(s, waiter.View());
    }

    /** Cancel the tick and, while still the holder, persist the slice's active time. */
    method Persist(h: Handle, now: real)
      requires Valid() && h in handles
      modifies this`activeHoldMs, h`timer, h`inBlock
      ensures h.id < |old(View(now)).handles|
      ensures var s := old(View(now));
              var s1 := s.(handles := s.handles[h.id := s.handles[h.id].(timer := Q.Idle, inBlock := false)]);
              View(now) == if holder == h
                           then s1.(activeHoldMs := s.activeHoldMs[h.threadId :=
                                      h.accumulatedMs + (now - h.acquiredAt) * 1000.0])
                           else s1
    {
      ghost var s := View(now);
      h.timer := Q.Idle;
      h.inBlock := false;
      assert View(now).handles == s.handles[h.id := s.handles[h.id].(timer := Q.Idle, inBlock := false)];
      if holder == h {
        var sliceMs := (now - h.acquiredAt) * 1000.0;
        activeHoldMs := activeHoldMs[h.threadId := h.accumulatedMs + sliceMs];
      }
    }

    method EndBlock(h: Handle, now: real)
      requires Valid() && h in handles
      modifies this, h, Everybody()
      ensures h.id < |old(View(now)).handles| && View(now) == Q.Exit(old(View(now)), h.id)
      ensures holder != null ==> holder in handles
      ensures handles == old(handles)
    {
      Persist(h, now);
      var released := ReleaseIfHolder(h);
    }

    /** The section that ends a `with` block. */
    method Exit(h: Handle, now: real)
      requires Valid() && h in handles
      modifies this, h, Everybody()
      ensures Valid()
      ensures h.id < |old(View(now)).handles| && View(now) == Q.Exit(old(View(now)), h.id)
    {
      InvIgnoresClock(now);
      P.ExitKeepsInv(View(now), h.id);
      EndBlock(h, now);
      assert View(0.0) == View(now).(now := 0.0);
    }

    /** The cap is reached: flag the handle and vacate the slot. */
    method Expire(h: Handle, now: real)
      requires Valid() && h in handles && holder == h
      modifies this`holder, h`expired, h`timer, Everybody()
      ensures h.id < |old(View(now)).handles|
      ensures var s := old(View(now));
              View(now) == Q.ReleaseIfHolder(
                s.(handles := s.handles[h.id := s.handles[h.id].(expired := true, timer := Q.Idle)]), h.id)
      ensures holder == null && forall i :: 0 <= i < |handles| ==> handles[i].id == i
    {
      ghost var s := View(now);
      h.expired := true;
      h.timer := Q.Idle;
      assert View(now).handles == s.handles[h.id := s.handles[h.id].(expired := true, timer := Q.Idle)];
      var released := ReleaseIfHolder(h);
    }

    /** Below the cap: ask for a pause if one is due, and re-arm. */
    method KeepHolding(h: Handle, now: real)
      requires Valid() && h in handles && holder == h && h.CumulativeS(now) < h.holdTimeout
      modifies h
      ensures h.id < |old(View(now)).handles| && View(now) == Q.Tick(old(View(now)), h.id)
    {
      ghost var s, v := View(now), h.View();
      var sliceS := now - h.acquiredAt;
      if sliceS >= h.quantum && NextWaiter() != null {
        h.pauseRequested := true;
      }
      h.ticks := h.ticks + 1;
      h.StartTick(now);
      ghost var pause := now - v.acquiredAt >= v.quantum && Q.NextWaiter(s).Some?;
      assert h.View() == Q.Rearm(v.(pauseRequested := v.pauseRequested || pause, ticks := v.ticks + 1), now);
      assert View(now).handles == s.handles[h.id := h.View()];
    }

    /** The timer callback. */
    method OnTick(h: Handle, now: real)
      requires Valid() && h in handles
      modifies this`holder, h, Everybody()
      ensures Valid()
      ensures h.id < |old(View(now)).handles| && View(now) == Q.Tick(old(View(now)), h.id)
    {
      InvIgnoresClock(now);
      ghost var s := View(now);
      P.TickKeepsInv(s, h.id);
      if holder != h {
        assert holder != null ==> holder.id != h.id;
        return;
      }
      if h.CumulativeS(now) >= h.holdTimeout {
        Expire(h, now);
      } else {
        KeepHolding(h, now);
      }
      assert View(0.0) == View(now).(now := 0.0);
    }

    /** Remove and return the thread's persisted hold. */
    method PopHold(tid: string) returns (ms: real)
      requires Valid()
      modifies this`activeHoldMs
      ensures Valid()
      ensures forall now :: ms == Q.PoppedHold(old(View(now)), tid) && View(now) == Q.PopHold(old(View(now)), tid)
    {
      ms := if tid in activeHoldMs then activeHoldMs[tid] else 0.0;
      activeHoldMs := activeHoldMs - {tid};
      assert View(0.0) == Q.PopHold(old(View(0.0)), tid);
    }

    /** Ask the thread's holder to yield at its next model boundary. */
    method RequestPause(tid: string) returns (asked: bool)
      requires Valid()
      modifies holder
      ensures Valid()
      ensures forall now ::
                asked == Q.HoldsSlot(old(View(now)), tid) && View(now) == Q.RequestPause(old(View(now)), tid)
    {
      ghost var s := View(0.0);
      P.StepKeepsInv(s, Q.Pausing(tid));
      asked := holder != null && holder.threadId == tid;
      if asked {
        holder.pauseRequested := true;
        assert View(0.0).handles == Q.RequestPause(s, tid).handles;
        assert forall now :: View(now) == View(0.0).(now := now);
      }
      assert forall now :: old(View(now)) == s.(now := now);
    }

    /** The two list comprehensions of `promote`. */
    static method Partition(ws: seq<Waiter>, tid: string) returns (mine: seq<Waiter>, rest: seq<Waiter>)
      ensures Waiters(mine) == Q.OfThread(Waiters(ws), tid)
      ensures Waiters(rest) == Q.NotOfThread(Waiters(ws), tid)
      ensures forall x :: x in mine ==> x in ws
      ensures forall x :: x in rest ==> x in ws
    {
      mine, rest := [], [];
      for i := 0 to |ws|
        invariant Waiters(mine) == Q.OfThread(Waiters(ws)[..i], tid)
        invariant Waiters(rest) == Q.NotOfThread(Waiters(ws)[..i], tid)
        invariant forall x :: x in mine ==> x in ws
        invariant forall x :: x in rest ==> x in ws
      {
        P.FilterSnoc(Waiters(ws)[..i], ws[i].View(), tid);
        P.FilterCons(ws[i].View(), [], tid);
        assert [ws[i].View()] + [] == [ws[i].View()];
        assert Waiters(ws)[..i + 1] == Waiters(ws)[..i] + [ws[i].View()];
        if ws[i].threadId == tid {
          assert Waiters(mine + [ws[i]]) == Waiters(mine) + [ws[i].View()];
          mine := mine + [ws[i]];
        } else {
          assert Waiters(rest + [ws[i]]) == Waiters(rest) + [ws[i].View()];
          rest := rest + [ws[i]];
        }
      }
      assert Waiters(ws)[..|ws|] == Waiters(ws);
    }

    /** Give the promoted waiters user priority and append them, one by one. */
    method Raise(promoted: seq<Waiter>)
      requires forall w :: w in promoted ==> w !in userWaiters && w !in backgroundWaiters
      requires forall i, j :: 0 <= i < j < |promoted| ==> promoted[i] != promoted[j]
      modifies this`userWaiters, promoted
      ensures userWaiters == old(userWaiters) + promoted
      ensures Waiters(userWaiters) == old(Waiters(userWaiters)) + Q.Raised(old(Waiters(promoted)))
      ensures Waiters(backgroundWaiters) == old(Waiters(backgroundWaiters))
    {
      for i := 0 to |promoted|
        invariant userWaiters == old(userWaiters) + promoted[..i]
        invariant forall k :: 0 <= k < i ==> promoted[k].View() == old(promoted[k].View()).(userPriority := true)
        invariant forall k :: i <= k < |promoted| ==> promoted[k].View() == old(promoted[k].View())
        invariant forall w :: w in old(userWaiters) || w in backgroundWaiters ==> unchanged(w)
      {
        var waiter := promoted[i];
        waiter.userPriority := true;
        userWaiters := userWaiters + [waiter];
        assert promoted[..i] + [waiter] == promoted[..i + 1];
      }
      assert forall k :: 0 <= k < |old(userWaiters)| ==> old(userWaiters)[k] in old(userWaiters);
      assert forall k :: 0 <= k < |backgroundWaiters| ==> backgroundWaiters[k] in backgroundWaiters;
      assert Waiters(userWaiters)[|old(userWaiters)|..] == Q.Raised(old(Waiters(promoted)));
    }

    /** The promoted leave the background queue for the end of the user queue. */
    method MoveUp(promoted: seq<Waiter>, rest: seq<Waiter>, tid: string)
      requires P.OnePlaceEach(View(0.0))
      requires Waiters(promoted) == Q.OfThread(Waiters(backgroundWaiters), tid)
      requires Waiters(rest) == Q.NotOfThread(Waiters(backgroundWaiters), tid)
      requires forall x :: x in promoted ==> x in backgroundWaiters
      requires forall x :: x in rest ==> x in backgroundWaiters
      modifies this`userWaiters, this`backgroundWaiters, promoted
      ensures Everybody() <= old(Everybody())
      ensures View(0.0) == old(View(0.0)).(
                user := old(View(0.0)).user + Q.Raised(Q.OfThread(old(View(0.0)).background, tid)),
                background := Q.NotOfThread(old(View(0.0)).background, tid))
    {
      PromotedApart(promoted, rest, tid);
      backgroundWaiters := rest;
      Raise(promoted);
    }

    /** Move a thread's background waiters into the user tier. */
    method Promote(tid: string)
      requires Valid()
      modifies this`userWaiters, this`backgroundWaiters, Everybody()
      ensures Valid()
      ensures forall now :: View(now) == Q.Promote(old(View(now)), tid)
    {
      ghost var s := View(0.0);
      assert forall now :: View(now) == s.(now := now);
      P.PromoteKeepsInv(s, tid);
      P.FilterKeeps(s.background, tid);
      var promoted, rest := Partition(backgroundWaiters, tid);
      if promoted != [] {
        MoveUp(promoted, rest, tid);
        NotifyAll(Everybody());
      }
      assert View(0.0) == Q.Promote(s, tid);
      assert forall now :: View(now) == View(0.0).(now := now);
    }

    /** The promoted waiters are distinct, and in neither of the queues left. */
    lemma PromotedApart(promoted: seq<Waiter>, rest: seq<Waiter>, tid: string)
      requires P.OnePlaceEach(View(0.0))
      requires Waiters(promoted) == Q.OfThread(Waiters(backgroundWaiters), tid)
      requires Waiters(rest) == Q.NotOfThread(Waiters(backgroundWaiters), tid)
      requires forall x :: x in promoted ==> x in backgroundWaiters
      ensures forall w :: w in promoted ==> w !in userWaiters && w !in rest
      ensures forall i, j :: 0 <= i < j < |promoted| ==> promoted[i] != promoted[j]
    {
      var s := View(0.0);
      P.FilterKeeps(s.background, tid);
      var a, b := Waiters(promoted), Waiters(rest);
      assert forall i :: 0 <= i < |promoted| ==> a[i] == promoted[i].View();
      assert forall i :: 0 <= i < |rest| ==> b[i] == rest[i].View();
      assert forall i :: 0 <= i < |userWaiters| ==> s.user[i] == userWaiters[i].View();
      assert forall i :: 0 <= i < |backgroundWaiters| ==> s.background[i] == backgroundWaiters[i].View();
    }
  }
}
