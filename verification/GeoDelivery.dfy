/**
 * Completion notices of the region provisioner (assist/geo/provisioner.py): how often
 * they are posted, and that an owed one can still be.
 */
module GeoDelivery {
  import opened Common
  import opened GeoSpec
  import opened GeoProofs

  // ------------------------------------------------------------------
  // How often a notice is posted
  // ------------------------------------------------------------------

  /** Every post is paid for by a recorded proposal or by a process that died between a
      post and its bookkeeping; a proposal on file is one that is not used up yet. */
  ghost predicate Paid(s: State, slug: Slug) {
    && Count(s.posts, slug) <= Count(s.puts, slug) + Count(s.deaths, slug)
    && (slug in s.proposals && !(s.worker.Posted? && s.worker.slug == slug) ==>
          Count(s.posts, slug) < Count(s.puts, slug) + Count(s.deaths, slug))
  }

  ghost predicate AllPaid(s: State) { forall slug :: Paid(s, slug) }

  lemma DeliverIsPaid(s: State, slug: Slug, failed: bool, reached: bool)
    requires AllPaid(s) && !s.worker.Posted?
    ensures AllPaid(Deliver(s, slug, failed, reached))
  {
    forall x ensures Paid(Deliver(s, slug, failed, reached), x) {
      assert Paid(s, x);
    }
  }

  lemma {:induction false} TickIsPaid(s: State, slugs: seq<Slug>, k: nat, answers: Slug -> bool)
    requires k <= |slugs| && AllPaid(s) && !s.worker.Posted?
    ensures AllPaid(DeliverAll(s, slugs, k, answers))
  {
    if k > 0 {
      TickIsPaid(s, slugs, k - 1, answers);
      TickKeepsStates(s, slugs, k - 1, answers);
      var t := DeliverAll(s, slugs, k - 1, answers);
      DeliverIsPaid(t, slugs[k - 1], false, answers(slugs[k - 1]));
      DeliverIsPaid(t, slugs[k - 1], true, answers(slugs[k - 1]));
    }
  }

  lemma PaidStays(s: State, t: State, slug: Slug)
    requires Paid(s, slug) && t.posts == s.posts && t.puts == s.puts && t.deaths == s.deaths
    requires slug in t.proposals ==> slug in s.proposals
    requires s.worker.Posted? ==>
               t.worker == s.worker || (t.worker == Idle && (s.worker.slug == slug ==> slug !in t.proposals))
    ensures Paid(t, slug)
  {
  }

  lemma NextIsPaidFor(s: State, e: Event, slug: Slug)
    requires Paid(s, slug) && Enabled(s, e) && !e.Tick?
    ensures Paid(Next(s, e), slug)
  {
    match e
    case Request(op, about) =>
      SubmitKeepsAccounts(s, op, about);
      PaidStays(s, Submit(s, op, about).0, slug);
    case Start => PaidStays(s, Next(s, e), slug);
    case End(ok) =>
      FinishKeepsAccounts(s, ok);
      PaidStays(s, Next(s, e), slug);
    case Settle => PaidStays(s, Next(s, e), slug);
    case _ =>
  }

  lemma SubmitKeepsAccounts(s: State, op: Op, slug: Slug)
    ensures var t := Submit(s, op, slug).0;
            && t.posts == s.posts && t.puts == s.puts && t.deaths == s.deaths && t.worker == s.worker
            && forall x :: x in t.proposals ==> x in s.proposals
  {
  }

  lemma FinishKeepsAccounts(s: State, ok: bool)
    requires s.worker.Busy?
    ensures var t := Finish(s, s.worker.job, ok);
            && t.posts == s.posts && t.puts == s.puts && t.deaths == s.deaths
            && t.proposals == s.proposals && t.queue == s.queue
  {
  }

  lemma NextIsPaid(s: State, e: Event)
    requires AllPaid(s) && Enabled(s, e)
    ensures AllPaid(Next(s, e))
  {
    if e.Tick? {
      TickIsPaid(s, e.slugs, |e.slugs|, e.answers);
    } else {
      forall slug ensures Paid(Next(s, e), slug) {
        NextIsPaidFor(s, e, slug);
      }
    }
  }

  /** In every run no more notices are posted for a slug than proposals were recorded,
      but for one more each time the process dies between a post and its bookkeeping. */
  lemma {:induction false} PostsArePaid(states: seq<State>, events: seq<Event>, k: nat)
    requires Run(states, events) && Initial(states[0]) && k < |states|
    ensures AllPaid(states[k])
  {
    if k > 0 {
      PostsArePaid(states, events, k - 1);
      assert states[k] == Next(states[k - 1], events[k - 1]);
      NextIsPaid(states[k - 1], events[k - 1]);
    }
  }

  // ------------------------------------------------------------------
  // An owed notice can still be delivered
  // ------------------------------------------------------------------

  /** A ready region that owes its notice has its proposal on file. */
  ghost predicate OwedOnFile(s: State) { forall slug :: DueReady(s, slug) ==> slug in s.proposals }

  predicate Announcing(s: State, slug: Slug, failed: bool) {
    (s.worker.Owing? || s.worker.Posted?) && s.worker.slug == slug && s.worker.failed == failed
  }

  ghost predicate NoAdd(jobs: seq<Job>, slug: Slug) {
    forall i :: 0 <= i < |jobs| && jobs[i].slug == slug ==> jobs[i].op != Add
  }

  /** What a job needs of the proposals: an add its own; a removal that may give back a
      ready region, that region's if it owes its notice. */
  ghost predicate JobCovered(s: State, j: Job) {
    && (j.op == Add ==> j.slug in s.proposals)
    && (j.op == Remove && j.prior == Ready && j.slug in s.registry && !s.registry[j.slug].delivered ==>
          j.slug in s.proposals)
  }

  /** What the announcement under way may take the proposal of. An announced failure may
      have another add of its region queued behind it. */
  ghost predicate AnnouncingCovered(s: State) {
    (s.worker.Owing? || s.worker.Posted?) ==>
      if s.worker.failed
      then (IsIn(s, s.worker.slug, Failed) || IsIn(s, s.worker.slug, Importing))
           && forall i :: 0 <= i < |Jobs(s)| && Jobs(s)[i].slug == s.worker.slug && Jobs(s)[i].op == Remove ==>
                Jobs(s)[i].prior != Ready
      else (IsIn(s, s.worker.slug, Ready) || IsIn(s, s.worker.slug, Importing)) && NoAdd(Jobs(s), s.worker.slug)
  }

  ghost predicate Covered(s: State) {
    && OwedOnFile(s)
    && (forall i :: 0 <= i < |Jobs(s)| ==> JobCovered(s, Jobs(s)[i]))
    && AnnouncingCovered(s)
  }

  /** The bookkeeping behind a failure notice, while another add of the same region is
      unfinished: it drops the proposal that add will need. */
  ghost predicate TakesAway(s: State, e: Event) {
    e.Settle? && s.worker.Posted? && s.worker.failed && !NoAdd(Jobs(s), s.worker.slug)
  }

  /** The jobs of a region that is not importing are transits. */
  lemma NoClaim(s: State, i: nat)
    requires ClaimsExact(s) && i < |Jobs(s)| && Claims(Jobs(s)[i])
    ensures IsIn(s, Jobs(s)[i].slug, Importing)
  {
    assert Claimed(Jobs(s), Jobs(s)[i].slug);
  }

  lemma TransitKeepsCovered(s: State, slug: Slug)
    requires Covered(s)
    ensures Covered(Submit(s, Transit, slug).0)
  {
    var (t, answer) := Submit(s, Transit, slug);
    if answer == Queued {
      assert Jobs(t) == Jobs(s) + [Job(Transit, slug, Ready)];
      forall i | 0 <= i < |Jobs(t)| ensures JobCovered(t, Jobs(t)[i]) {
        if i < |Jobs(s)| { assert Jobs(t)[i] == Jobs(s)[i] && JobCovered(s, Jobs(s)[i]); }
      }
    } else {
      assert Jobs(t) == Jobs(s);
    }
  }

  lemma MootKeepsCovered(s: State, slug: Slug)
    requires ClaimsExact(s) && Covered(s) && IsIn(s, slug, Ready) && s.registry[slug].delivered
    ensures Covered(s.(proposals := Without(s.proposals, slug)))
  {
    var t := s.(proposals := Without(s.proposals, slug));
    assert Jobs(t) == Jobs(s);
    forall i | 0 <= i < |Jobs(t)| ensures JobCovered(t, Jobs(t)[i]) {
      assert JobCovered(s, Jobs(s)[i]);
      if Claims(Jobs(s)[i]) { NoClaim(s, i); }
    }
  }

  /** One more add or remove job, the region importing from here on. */
  lemma JobKeepsCovered(s: State, t: State, j: Job)
    requires ClaimsExact(s) && Covered(s) && !IsIn(s, j.slug, Importing) && Claims(j)
    requires Jobs(t) == Jobs(s) + [j] && t.proposals == s.proposals && t.worker == s.worker
    requires IsIn(t, j.slug, Importing) && JobCovered(t, j)
    requires forall x :: x != j.slug ==> (x in t.registry <==> x in s.registry)
    requires forall x :: x != j.slug && x in s.registry ==> t.registry[x] == s.registry[x]
    requires Announcing(s, j.slug, false) ==> j.op == Remove
    requires Announcing(s, j.slug, true) && j.op == Remove ==> j.prior != Ready
    ensures Covered(t)
  {
    forall i | 0 <= i < |Jobs(t)|
      ensures JobCovered(t, Jobs(t)[i]) && (i < |Jobs(s)| ==> Jobs(t)[i] == Jobs(s)[i])
    {
      if i < |Jobs(s)| {
        assert Jobs(t)[i] == Jobs(s)[i] && JobCovered(s, Jobs(s)[i]);
        if Claims(Jobs(s)[i]) { NoClaim(s, i); }
      }
    }
  }

  lemma SubmitKeepsCovered(s: State, op: Op, slug: Slug)
    requires ClaimsExact(s) && Covered(s)
    ensures Covered(Submit(s, op, slug).0)
  {
    var (t, answer) := Submit(s, op, slug);
    if op == Transit {
      TransitKeepsCovered(s, slug);
    } else if answer == Queued {
      var j := Job(op, slug, if op == Add then Failed else s.registry[slug].state);
      assert Jobs(t) == Jobs(s) + [j];
      JobKeepsCovered(s, t, j);
    } else if op == Add && answer == AlreadyLoaded && s.registry[slug].delivered {
      MootKeepsCovered(s, slug);
    }
  }

  /** The running job is done: what is left was covered before. */
  lemma EndKeepsCovered(s: State, t: State)
    requires OneEach(Jobs(s)) && Covered(s) && s.worker.Busy? && Jobs(t) == Jobs(s)[1..] && t.proposals == s.proposals
    requires forall x :: x != s.worker.job.slug ==> (x in t.registry <==> x in s.registry)
    requires forall x :: x != s.worker.job.slug && x in s.registry ==> t.registry[x] == s.registry[x]
    requires DueReady(t, s.worker.job.slug) ==> s.worker.job.slug in t.proposals
    requires if Claims(s.worker.job)
             then t.worker == Idle || (t.worker.Owing? && t.worker.slug == s.worker.job.slug
                    && IsIn(t, t.worker.slug, if t.worker.failed then Failed else Ready))
             else t.worker == Idle
                  && (forall x :: x in t.registry <==> x in s.registry)
                  && (forall x :: x in t.registry ==> t.registry[x].delivered == s.registry[x].delivered)
    ensures Covered(t)
  {
    assert Jobs(s)[0] == s.worker.job;
    forall i | 0 <= i < |Jobs(t)|
      ensures JobCovered(t, Jobs(t)[i])
      ensures Claims(s.worker.job) && Claims(Jobs(t)[i]) ==> Jobs(t)[i].slug != s.worker.job.slug
    {
      assert Jobs(t)[i] == Jobs(s)[i + 1];
      assert JobCovered(s, Jobs(s)[i + 1]);
    }
    forall slug | DueReady(t, slug) ensures slug in t.proposals {
      if slug != s.worker.job.slug { assert DueReady(s, slug); }
    }
  }

  lemma FinishKeepsCovered(s: State, ok: bool)
    requires ClaimsExact(s) && Validated(s) && Covered(s) && s.worker.Busy?
    ensures Covered(Finish(s, s.worker.job, ok))
  {
    var t := Finish(s, s.worker.job, ok);
    var job := s.worker.job;
    assert Jobs(s)[0] == job;
    assert JobCovered(s, job);
    FinishKeepsClaims(s, ok);
    FinishKeepsAccounts(s, ok);
    if Claims(job) { RunningIsClaimed(s); } else if DueReady(t, job.slug) { assert DueReady(s, job.slug); }
    EndKeepsCovered(s, t);
  }

  /** A proposal may go once its region has no job and does not owe a notice. */
  lemma RemovalKeepsCovered(s: State, t: State, slug: Slug)
    requires Covered(s) && t.queue == s.queue && (t.worker == s.worker || t.worker == Idle) && !s.worker.Busy?
    requires t.proposals == Without(s.proposals, slug)
    requires forall x :: x in t.registry <==> x in s.registry
    requires forall x :: x in t.registry ==> t.registry[x].state == s.registry[x].state
    requires forall x :: x in t.registry && x != slug ==> t.registry[x].delivered == s.registry[x].delivered
    requires !DueReady(t, slug)
    requires forall i :: 0 <= i < |Jobs(s)| && Jobs(s)[i].slug == slug ==> JobCovered(t, Jobs(s)[i])
    ensures Covered(t)
  {
    assert Jobs(t) == Jobs(s);
    forall i | 0 <= i < |Jobs(t)| ensures JobCovered(t, Jobs(t)[i]) {
      assert JobCovered(s, Jobs(s)[i]);
    }
  }

  lemma SettleKeepsCovered(s: State)
    requires Covered(s) && s.worker.Posted? && !TakesAway(s, Settle)
    ensures Covered(Next(s, Settle))
  {
    var t := Next(s, Settle);
    forall i | 0 <= i < |Jobs(s)| && Jobs(s)[i].slug == s.worker.slug ensures JobCovered(t, Jobs(s)[i]) {
      assert JobCovered(s, Jobs(s)[i]);
    }
    RemovalKeepsCovered(s, t, s.worker.slug);
  }

  /** A delivery concerns a region that is not importing, so no job needs its proposal. */
  lemma DeliverIfDueKeepsJobs(s: State, slug: Slug, reached: bool, i: nat)
    requires ClaimsExact(s) && Covered(s) && i < |Jobs(s)|
    ensures JobCovered(DeliverIfDue(s, slug, reached), Jobs(s)[i])
  {
    assert JobCovered(s, Jobs(s)[i]);
    if Claims(Jobs(s)[i]) { NoClaim(s, i); }
  }

  /** It leaves alone the state of every region, and the job and the announcement under way. */
  lemma DeliverIfDueKeepsStates(s: State, slug: Slug, reached: bool)
    ensures var t := DeliverIfDue(s, slug, reached);
            && t.worker == s.worker && t.queue == s.queue && Jobs(t) == Jobs(s)
            && forall x, state :: IsIn(t, x, state) == IsIn(s, x, state)
  {
  }

  lemma DeliverIfDueKeepsOwed(s: State, slug: Slug, reached: bool)
    requires OwedOnFile(s)
    ensures OwedOnFile(DeliverIfDue(s, slug, reached))
  {
    var t := DeliverIfDue(s, slug, reached);
    forall x | DueReady(t, x) ensures x in t.proposals {
      assert DueReady(s, x);
    }
  }

  lemma DeliverIfDueKeepsCovered(s: State, slug: Slug, reached: bool)
    requires ClaimsExact(s) && Covered(s)
    ensures Covered(DeliverIfDue(s, slug, reached))
  {
    var t := DeliverIfDue(s, slug, reached);
    DeliverIfDueKeepsStates(s, slug, reached);
    DeliverIfDueKeepsOwed(s, slug, reached);
    forall i | 0 <= i < |Jobs(t)| ensures JobCovered(t, Jobs(t)[i]) {
      DeliverIfDueKeepsJobs(s, slug, reached, i);
    }
  }

  lemma {:induction false} TickKeepsCovered(s: State, slugs: seq<Slug>, k: nat, answers: Slug -> bool)
    requires k <= |slugs| && ClaimsExact(s) && Covered(s) && !s.worker.Posted?
    ensures Covered(DeliverAll(s, slugs, k, answers))
  {
    if k > 0 {
      TickKeepsCovered(s, slugs, k - 1, answers);
      TickKeepsStates(s, slugs, k - 1, answers);
      var t := DeliverAll(s, slugs, k - 1, answers);
      StandingKeepsClaims(s, t);
      DeliverIfDueKeepsCovered(t, slugs[k - 1], answers(slugs[k - 1]));
    }
  }

  lemma StartKeepsCovered(s: State)
    requires Covered(s) && Enabled(s, Start)
    ensures Covered(Next(s, Start))
  {
    assert Jobs(Next(s, Start)) == Jobs(s);
    forall i | 0 <= i < |Jobs(s)| ensures JobCovered(Next(s, Start), Jobs(s)[i]) {
      assert JobCovered(s, Jobs(s)[i]);
    }
  }

  lemma ProposeKeepsCovered(s: State, slug: Slug, p: Proposal)
    requires Covered(s)
    ensures Covered(Next(s, Propose(slug, p)))
  {
    var t := Next(s, Propose(slug, p));
    assert Jobs(t) == Jobs(s);
    forall i | 0 <= i < |Jobs(t)| ensures JobCovered(t, Jobs(t)[i]) {
      assert JobCovered(s, Jobs(s)[i]);
    }
  }

  lemma PostKeepsCovered(s: State, reached: bool)
    requires Covered(s) && s.worker.Owing?
    ensures Covered(Next(s, Post(reached)))
  {
    var t := Next(s, Post(reached));
    assert Jobs(t) == Jobs(s);
    forall i | 0 <= i < |Jobs(t)| ensures JobCovered(t, Jobs(t)[i]) {
      assert JobCovered(s, Jobs(s)[i]);
    }
  }

  lemma CrashKeepsCovered(s: State)
    requires Covered(s)
    ensures Covered(Restart(s))
  {
    assert Jobs(Restart(s)) == [];
    forall slug | DueReady(Restart(s), slug) ensures slug in Restart(s).proposals {
      assert DueReady(s, slug);
    }
  }

  lemma NextKeepsCovered(s: State, e: Event)
    requires ClaimsExact(s) && Validated(s) && Covered(s) && Enabled(s, e) && !TakesAway(s, e)
    ensures Covered(Next(s, e))
  {
    match e
    case Propose(slug, p) => ProposeKeepsCovered(s, slug, p);
    case Request(op, slug) => SubmitKeepsCovered(s, op, slug);
    case Start => StartKeepsCovered(s);
    case End(ok) => FinishKeepsCovered(s, ok);
    case Post(reached) => PostKeepsCovered(s, reached);
    case Settle => SettleKeepsCovered(s);
    case Tick(slugs, answers) => TickKeepsCovered(s, slugs, |slugs|, answers);
    case Crash => CrashKeepsCovered(s);
  }

  lemma {:induction false} CoveredSoFar(states: seq<State>, events: seq<Event>, k: nat)
    requires Run(states, events) && Initial(states[0]) && k < |states|
    requires forall i :: 0 <= i < k ==> !TakesAway(states[i], events[i])
    ensures Covered(states[k])
  {
    if k == 0 {
      assert Jobs(states[0]) == [];
    } else {
      CoveredSoFar(states, events, k - 1);
      RunKeepsClaims(states, events, k - 1);
      assert states[k] == Next(states[k - 1], events[k - 1]);
      NextKeepsCovered(states[k - 1], events[k - 1]);
    }
  }

  /** Every unfinished add, and every ready region that owes its notice, has its proposal
      on file. */
  ghost predicate NoticesOnFile(s: State) {
    && OwedOnFile(s)
    && forall i :: 0 <= i < |Jobs(s)| && Jobs(s)[i].op == Add ==> Jobs(s)[i].slug in s.proposals
  }

  lemma TakenAway(s: State)
    requires TakesAway(s, Settle)
    ensures !NoticesOnFile(Next(s, Settle))
  {
    var t := Next(s, Settle);
    var i :| 0 <= i < |Jobs(s)| && Jobs(s)[i].slug == s.worker.slug && Jobs(s)[i].op == Add;
    assert Jobs(t)[i] == Jobs(s)[i];
  }

  /** A run keeps all its notices deliverable exactly when it never settles a failure
      notice while another add of that region is unfinished. */
  lemma OwedNoticesAreOnFile(states: seq<State>, events: seq<Event>)
    requires Run(states, events) && Initial(states[0])
    ensures (forall k :: 0 <= k < |states| ==> NoticesOnFile(states[k]))
            <==> (forall k :: 0 <= k < |events| ==> !TakesAway(states[k], events[k]))
  {
    if forall k :: 0 <= k < |events| ==> !TakesAway(states[k], events[k]) {
      forall k | 0 <= k < |states|
        ensures NoticesOnFile(states[k])
      {
        CoveredSoFar(states, events, k);
        forall i | 0 <= i < |Jobs(states[k])| && Jobs(states[k])[i].op == Add
          ensures Jobs(states[k])[i].slug in states[k].proposals
        {
          assert JobCovered(states[k], Jobs(states[k])[i]);
        }
      }
    }
    forall k | 0 <= k < |events| && TakesAway(states[k], events[k])
      ensures exists n :: 0 <= n < |states| && !NoticesOnFile(states[n])
    {
      TakenAway(states[k]);
      assert !NoticesOnFile(states[k + 1]);
    }
  }

  // ------------------------------------------------------------------
  // What a caller can do about it
  // ------------------------------------------------------------------

  /** An add is accepted for a region whose failure is still being announced. */
  predicate AddsTooSoon(s: State, e: Event) {
    e.Request? && e.op == Add && Announcing(s, e.slug, true) && Submit(s, Add, e.slug).1 == Queued
  }

  /** No add waits behind the announcement of its region's failure. */
  ghost predicate NoneWaiting(s: State) {
    (s.worker.Owing? || s.worker.Posted?) && s.worker.failed ==> NoAdd(Jobs(s), s.worker.slug)
  }

  lemma FinishKeepsNoneWaiting(s: State, ok: bool)
    requires ClaimsExact(s) && s.worker.Busy?
    ensures NoneWaiting(Finish(s, s.worker.job, ok))
  {
    var t := Finish(s, s.worker.job, ok);
    if t.worker.Owing? {
      assert Jobs(s)[0] == s.worker.job;
      forall i | 0 <= i < |Jobs(t)| && Jobs(t)[i].slug == t.worker.slug
        ensures Jobs(t)[i].op != Add
      {
        assert Jobs(t)[i] == Jobs(s)[i + 1];
      }
    }
  }

  lemma SubmitKeepsNoneWaiting(s: State, op: Op, slug: Slug)
    requires NoneWaiting(s) && !AddsTooSoon(s, Request(op, slug))
    ensures NoneWaiting(Submit(s, op, slug).0)
  {
    var (t, answer) := Submit(s, op, slug);
    if answer == Queued && (s.worker.Owing? || s.worker.Posted?) && s.worker.failed {
      var j := t.queue[|s.queue|];
      assert j.op == op && j.slug == slug && Jobs(t) == Jobs(s) + [j];
    }
  }

  lemma NextKeepsNoneWaiting(s: State, e: Event)
    requires ClaimsExact(s) && NoneWaiting(s) && Enabled(s, e) && !AddsTooSoon(s, e)
    ensures NoneWaiting(Next(s, e))
  {
    match e
    case Request(op, slug) => SubmitKeepsNoneWaiting(s, op, slug);
    case End(ok) => FinishKeepsNoneWaiting(s, ok);
    case Tick(slugs, answers) => TickKeepsStates(s, slugs, |slugs|, answers);
    case _ =>
  }

  /** If no add is ever accepted for a region whose failure is still being announced,
      nothing is taken away. */
  lemma {:induction false} PatientAddsKeepTheirProposals(states: seq<State>, events: seq<Event>, k: nat)
    requires Run(states, events) && Initial(states[0]) && k < |states|
    requires forall i :: 0 <= i < |events| ==> !AddsTooSoon(states[i], events[i])
    ensures NoneWaiting(states[k])
    ensures k < |events| ==> !TakesAway(states[k], events[k])
  {
    if k > 0 {
      PatientAddsKeepTheirProposals(states, events, k - 1);
      RunKeepsClaims(states, events, k - 1);
      assert states[k] == Next(states[k - 1], events[k - 1]);
      NextKeepsNoneWaiting(states[k - 1], events[k - 1]);
    }
  }

  // ------------------------------------------------------------------
  // The request that strands a notice
  // ------------------------------------------------------------------

  function Fresh(slug: Slug): State {
    State(map[], map[slug := Proposal(true)], [], Idle, {}, {}, map[slug := 1], map[], map[])
  }

  function StrandingEvents(slug: Slug): seq<Event> {
    [Request(Add, slug), Start, End(false), Request(Add, slug), Post(true), Settle, Start, End(true)]
  }

  /** The region's first download fails; before the failure is announced the user asks
      again and is queued; the failure notice then uses up the proposal, and the second
      download succeeds without one. */
  function StrandedAfter(slug: Slug, n: nat): State {
    var importing: map<Slug, Region> := map[slug := Region(Importing, true, false)];
    var failed: map<Slug, Region> := map[slug := Region(Failed, true, false)];
    var file := map[slug := Proposal(true)];
    var one := map[slug := 1];
    var job := Job(Add, slug, Failed);
    match n
    case 0 => Fresh(slug)
    case 1 => State(importing, file, [job], Idle, {}, {}, one, map[], map[])
    case 2 => State(importing, file, [], Busy(job), {}, {}, one, map[], map[])
    case 3 => State(failed, file, [], Owing(slug, true), {}, {}, one, map[], map[])
    case 4 => State(importing, file, [job], Owing(slug, true), {}, {}, one, map[], map[])
    case 5 => State(importing, file, [job], Posted(slug, true), {}, {}, one, one, map[])
    case 6 => State(importing, map[], [job], Idle, {}, {}, one, one, map[])
    case 7 => State(importing, map[], [], Busy(job), {}, {}, one, one, map[])
    case _ =>
      State(map[slug := Region(Ready, false, false)], map[], [], Owing(slug, false), {}, {slug}, one, one, map[])
  }

  lemma StrandingStep(slug: Slug, n: nat)
    requires n < 8
    ensures Enabled(StrandedAfter(slug, n), StrandingEvents(slug)[n])
    ensures Next(StrandedAfter(slug, n), StrandingEvents(slug)[n]) == StrandedAfter(slug, n + 1)
  {
    if n < 4 { EarlyStrandingStep(slug, n); } else { LateStrandingStep(slug, n); }
  }

  lemma EarlyStrandingStep(slug: Slug, n: nat)
    requires n < 4
    ensures Enabled(StrandedAfter(slug, n), StrandingEvents(slug)[n])
    ensures Next(StrandedAfter(slug, n), StrandingEvents(slug)[n]) == StrandedAfter(slug, n + 1)
  {
    var t := Next(StrandedAfter(slug, n), StrandingEvents(slug)[n]);
    assert t.registry == StrandedAfter(slug, n + 1).registry;
    assert t.queue == StrandedAfter(slug, n + 1).queue;
  }

  lemma LateStrandingStep(slug: Slug, n: nat)
    requires 4 <= n < 8
    ensures Enabled(StrandedAfter(slug, n), StrandingEvents(slug)[n])
    ensures Next(StrandedAfter(slug, n), StrandingEvents(slug)[n]) == StrandedAfter(slug, n + 1)
  {
    var t := Next(StrandedAfter(slug, n), StrandingEvents(slug)[n]);
    assert t.registry == StrandedAfter(slug, n + 1).registry;
    assert t.proposals == StrandedAfter(slug, n + 1).proposals;
    assert t.queue == StrandedAfter(slug, n + 1).queue;
    assert t.validated == StrandedAfter(slug, n + 1).validated;
  }

  /** Without the condition it can go wrong: this run ends with a ready region that owes
      its notice and has no proposal on file, so the notice is never posted. */
  lemma AnAddCanStrandANotice(slug: Slug) returns (states: seq<State>, events: seq<Event>)
    ensures Run(states, events) && Initial(states[0])
    ensures DueReady(states[|states| - 1], slug) && slug !in states[|states| - 1].proposals
    ensures exists i :: 0 <= i < |events| && AddsTooSoon(states[i], events[i])
    ensures exists i :: 0 <= i < |events| && TakesAway(states[i], events[i])
  {
    events := StrandingEvents(slug);
    states := seq(9, n requires 0 <= n < 9 => StrandedAfter(slug, n));
    forall i | 0 <= i < |events| ensures Enabled(states[i], events[i]) && states[i + 1] == Next(states[i], events[i]) {
      StrandingStep(slug, i);
    }
    assert AddsTooSoon(states[3], events[3]);
    assert Jobs(states[5])[0] == Job(Add, slug, Failed);
    assert TakesAway(states[5], events[5]);
  }

  // ------------------------------------------------------------------
  // The death that posts a notice twice
  // ------------------------------------------------------------------

  function DyingEvents(slug: Slug): seq<Event> {
    [Request(Add, slug), Start, End(true), Post(true), Crash, Tick([slug], _ => true)]
  }

  function DiedAfter(slug: Slug, n: nat): State {
    var importing: map<Slug, Region> := map[slug := Region(Importing, true, false)];
    var ready: map<Slug, Region> := map[slug := Region(Ready, false, false)];
    var file := map[slug := Proposal(true)];
    var one := map[slug := 1];
    var job := Job(Add, slug, Failed);
    match n
    case 0 => Fresh(slug)
    case 1 => State(importing, file, [job], Idle, {}, {}, one, map[], map[])
    case 2 => State(importing, file, [], Busy(job), {}, {}, one, map[], map[])
    case 3 => State(ready, file, [], Owing(slug, false), {}, {slug}, one, map[], map[])
    case 4 => State(ready, file, [], Posted(slug, false), {}, {slug}, one, one, map[])
    case 5 => State(ready, file, [], Idle, {}, {slug}, one, one, one)
    case _ => State(map[slug := Region(Ready, true, false)], map[], [], Idle, {}, {slug}, one, map[slug := 2], one)
  }

  lemma DyingStep(slug: Slug, n: nat)
    requires n < 6
    ensures Enabled(DiedAfter(slug, n), DyingEvents(slug)[n])
    ensures Next(DiedAfter(slug, n), DyingEvents(slug)[n]) == DiedAfter(slug, n + 1)
  {
    var s, e := DiedAfter(slug, n), DyingEvents(slug)[n];
    if n == 5 {
      assert DeliverAll(s, [slug], 0, e.answers) == s;
      assert DeliverAll(s, [slug], 1, e.answers) == DeliverIfDue(s, slug, true);
    }
    var t := Next(s, e);
    assert t.registry == DiedAfter(slug, n + 1).registry;
    assert t.proposals == DiedAfter(slug, n + 1).proposals;
    assert t.posts == DiedAfter(slug, n + 1).posts;
  }

  /** With a death the bound is met: one proposal, two posts of its notice. */
  lemma ADeathCanPostTwice(slug: Slug) returns (states: seq<State>, events: seq<Event>)
    ensures Run(states, events) && Initial(states[0])
    ensures Count(states[|events|].puts, slug) == 1 && Count(states[|events|].deaths, slug) == 1
    ensures Count(states[|events|].posts, slug) == 2
  {
    events := DyingEvents(slug);
    states := seq(7, n requires 0 <= n < 7 => DiedAfter(slug, n));
    forall i | 0 <= i < |events| ensures Enabled(states[i], events[i]) && states[i + 1] == Next(states[i], events[i]) {
      DyingStep(slug, i);
    }
  }
}
