/**
 * What every run of the region provisioner keeps (assist/geo/provisioner.py).
 */
module GeoProofs {
  import opened Common
  import opened GeoSpec

  // ------------------------------------------------------------------
  // Claims are exact
  // ------------------------------------------------------------------

  /** The unfinished jobs, the running one first. */
  function Jobs(s: State): seq<Job> { (if s.worker.Busy? then [s.worker.job] else []) + s.queue }

  predicate Claims(j: Job) { j.op != Transit }

  /** No two unfinished jobs of a kind for one slug. */
  ghost predicate OneEach(jobs: seq<Job>) {
    forall i, j :: 0 <= i < j < |jobs| && jobs[i].slug == jobs[j].slug ==> Claims(jobs[i]) != Claims(jobs[j])
  }

  ghost predicate Claimed(jobs: seq<Job>, slug: Slug) {
    exists i :: 0 <= i < |jobs| && jobs[i].slug == slug && Claims(jobs[i])
  }

  ghost predicate InTransit(jobs: seq<Job>, slug: Slug) {
    exists i :: 0 <= i < |jobs| && jobs[i].slug == slug && !Claims(jobs[i])
  }

  /** A slug has an unfinished add or remove job exactly when it is importing, and an
      unfinished transit job exactly when it is in the in-memory set; never two. */
  ghost predicate ClaimsExact(s: State) {
    && OneEach(Jobs(s))
    && (forall slug :: Claimed(Jobs(s), slug) <==> IsIn(s, slug, Importing))
    && (forall slug :: InTransit(Jobs(s), slug) <==> slug in s.transitActive)
  }

  lemma Enqueued(jobs: seq<Job>, j: Job)
    requires OneEach(jobs)
    requires if Claims(j) then !Claimed(jobs, j.slug) else !InTransit(jobs, j.slug)
    ensures OneEach(jobs + [j])
    ensures forall slug :: Claimed(jobs + [j], slug) <==> Claimed(jobs, slug) || (slug == j.slug && Claims(j))
    ensures forall slug :: InTransit(jobs + [j], slug) <==> InTransit(jobs, slug) || (slug == j.slug && !Claims(j))
  {
    var more := jobs + [j];
    forall a, b | 0 <= a < b < |more| && more[a].slug == more[b].slug ensures Claims(more[a]) != Claims(more[b]) {
      if b == |jobs| { assert more[a] == jobs[a] && more[b] == j; }
    }
    forall slug ensures Claimed(more, slug) <==> Claimed(jobs, slug) || (slug == j.slug && Claims(j)) {
      ClaimedAppend(jobs, j, slug);
    }
    forall slug ensures InTransit(more, slug) <==> InTransit(jobs, slug) || (slug == j.slug && !Claims(j)) {
      InTransitAppend(jobs, j, slug);
    }
  }

  lemma ClaimedAppend(jobs: seq<Job>, j: Job, slug: Slug)
    ensures Claimed(jobs + [j], slug) <==> Claimed(jobs, slug) || (slug == j.slug && Claims(j))
  {
    var more := jobs + [j];
    if Claimed(jobs, slug) {
      var i :| 0 <= i < |jobs| && jobs[i].slug == slug && Claims(jobs[i]);
      assert more[i] == jobs[i];
    }
    if slug == j.slug && Claims(j) { assert more[|jobs|] == j; }
  }

  lemma InTransitAppend(jobs: seq<Job>, j: Job, slug: Slug)
    ensures InTransit(jobs + [j], slug) <==> InTransit(jobs, slug) || (slug == j.slug && !Claims(j))
  {
    var more := jobs + [j];
    if InTransit(jobs, slug) {
      var i :| 0 <= i < |jobs| && jobs[i].slug == slug && !Claims(jobs[i]);
      assert more[i] == jobs[i];
    }
    if slug == j.slug && !Claims(j) { assert more[|jobs|] == j; }
  }

  /** The first job leaves. */
  lemma Dequeued(jobs: seq<Job>)
    requires OneEach(jobs) && jobs != []
    ensures OneEach(jobs[1..])
    ensures forall slug ::
              Claimed(jobs[1..], slug) <==> Claimed(jobs, slug) && !(slug == jobs[0].slug && Claims(jobs[0]))
    ensures forall slug ::
              InTransit(jobs[1..], slug) <==> InTransit(jobs, slug) && !(slug == jobs[0].slug && !Claims(jobs[0]))
  {
    forall slug
      ensures Claimed(jobs[1..], slug) <==> Claimed(jobs, slug) && !(slug == jobs[0].slug && Claims(jobs[0]))
    {
      ClaimedTail(jobs, slug);
    }
    forall slug
      ensures InTransit(jobs[1..], slug) <==> InTransit(jobs, slug) && !(slug == jobs[0].slug && !Claims(jobs[0]))
    {
      InTransitTail(jobs, slug);
    }
  }

  lemma ClaimedTail(jobs: seq<Job>, slug: Slug)
    requires OneEach(jobs) && jobs != []
    ensures Claimed(jobs[1..], slug) <==> Claimed(jobs, slug) && !(slug == jobs[0].slug && Claims(jobs[0]))
  {
    var rest := jobs[1..];
    if Claimed(rest, slug) {
      var i :| 0 <= i < |rest| && rest[i].slug == slug && Claims(rest[i]);
      assert jobs[i + 1] == rest[i];
    }
    if Claimed(jobs, slug) && !(slug == jobs[0].slug && Claims(jobs[0])) {
      var i :| 0 <= i < |jobs| && jobs[i].slug == slug && Claims(jobs[i]);
      assert rest[i - 1] == jobs[i];
    }
  }

  lemma InTransitTail(jobs: seq<Job>, slug: Slug)
    requires OneEach(jobs) && jobs != []
    ensures InTransit(jobs[1..], slug) <==> InTransit(jobs, slug) && !(slug == jobs[0].slug && !Claims(jobs[0]))
  {
    var rest := jobs[1..];
    if InTransit(rest, slug) {
      var i :| 0 <= i < |rest| && rest[i].slug == slug && !Claims(rest[i]);
      assert jobs[i + 1] == rest[i];
    }
    if InTransit(jobs, slug) && !(slug == jobs[0].slug && !Claims(jobs[0])) {
      var i :| 0 <= i < |jobs| && jobs[i].slug == slug && !Claims(jobs[i]);
      assert rest[i - 1] == jobs[i];
    }
  }

  lemma SubmitKeepsClaims(s: State, op: Op, slug: Slug)
    requires ClaimsExact(s)
    ensures ClaimsExact(Submit(s, op, slug).0)
  {
    var (t, answer) := Submit(s, op, slug);
    if answer == Queued {
      var j := t.queue[|t.queue| - 1];
      assert Jobs(t) == Jobs(s) + [j];
      Enqueued(Jobs(s), j);
    } else {
      assert Jobs(t) == Jobs(s);
    }
  }

  /** The running job ends: its claim goes and no other. */
  lemma JobEnds(s: State, t: State)
    requires ClaimsExact(s) && s.worker.Busy? && !t.worker.Busy? && t.queue == s.queue
    requires forall slug :: IsIn(t, slug, Importing) <==>
               IsIn(s, slug, Importing) && !(slug == s.worker.job.slug && Claims(s.worker.job))
    requires t.transitActive == if Claims(s.worker.job) then s.transitActive else s.transitActive - {s.worker.job.slug}
    ensures ClaimsExact(t) && Jobs(t) == Jobs(s)[1..]
  {
    assert Jobs(s)[0] == s.worker.job;
    assert Jobs(t) == Jobs(s)[1..];
    Dequeued(Jobs(s));
  }

  lemma RunningIsClaimed(s: State)
    requires ClaimsExact(s) && s.worker.Busy? && Claims(s.worker.job)
    ensures IsIn(s, s.worker.job.slug, Importing)
  {
    assert Jobs(s)[0] == s.worker.job;
    assert Claimed(Jobs(s), s.worker.job.slug);
  }

  lemma FinishKeepsClaims(s: State, ok: bool)
    requires ClaimsExact(s) && s.worker.Busy?
    requires s.worker.job.op == Remove ==> s.worker.job.prior != Importing
    ensures ClaimsExact(Finish(s, s.worker.job, ok))
    ensures Jobs(Finish(s, s.worker.job, ok)) == Jobs(s)[1..]
  {
    if Claims(s.worker.job) { RunningIsClaimed(s); }
    JobEnds(s, Finish(s, s.worker.job, ok));
  }

  lemma DeliverKeepsStates(s: State, slug: Slug, failed: bool, reached: bool)
    ensures var t := Deliver(s, slug, failed, reached);
            && t.queue == s.queue && t.worker == s.worker && t.transitActive == s.transitActive
            && t.validated == s.validated
            && forall x, st :: IsIn(t, x, st) <==> IsIn(s, x, st)
  {
  }

  /** No delivery moves a job or the state of a region. */
  ghost predicate SameStanding(s: State, t: State) {
    && t.queue == s.queue && t.worker == s.worker && t.transitActive == s.transitActive && t.validated == s.validated
    && forall x, st :: IsIn(t, x, st) <==> IsIn(s, x, st)
  }

  lemma {:induction false} TickKeepsStates(s: State, slugs: seq<Slug>, k: nat, answers: Slug -> bool)
    requires k <= |slugs|
    ensures SameStanding(s, DeliverAll(s, slugs, k, answers))
  {
    if k > 0 {
      TickKeepsStates(s, slugs, k - 1, answers);
      var t := DeliverAll(s, slugs, k - 1, answers);
      DeliverKeepsStates(t, slugs[k - 1], false, answers(slugs[k - 1]));
      DeliverKeepsStates(t, slugs[k - 1], true, answers(slugs[k - 1]));
    }
  }

  lemma StandingKeepsClaims(s: State, t: State)
    requires ClaimsExact(s) && SameStanding(s, t)
    ensures ClaimsExact(t)
  {
    assert Jobs(t) == Jobs(s);
  }

  /** A ready region was validated, and so was one that a failing removal would make
      ready again; no job restores importing. */
  ghost predicate Validated(s: State) {
    && (forall slug :: IsIn(s, slug, Ready) ==> slug in s.validated)
    && (forall i :: 0 <= i < |Jobs(s)| && Jobs(s)[i].op == Remove ==>
          && Jobs(s)[i].prior != Importing
          && (Jobs(s)[i].prior == Ready ==> Jobs(s)[i].slug in s.validated))
  }

  lemma NextKeepsClaims(s: State, e: Event)
    requires ClaimsExact(s) && Validated(s) && Enabled(s, e)
    ensures ClaimsExact(Next(s, e))
  {
    var t := Next(s, e);
    match e
    case Propose(_, _) => assert Jobs(t) == Jobs(s);
    case Request(op, slug) => SubmitKeepsClaims(s, op, slug);
    case Start => assert Jobs(t) == Jobs(s);
    case End(ok) =>
      assert Jobs(s)[0] == s.worker.job;
      FinishKeepsClaims(s, ok);
    case Post(_) => assert Jobs(t) == Jobs(s);
    case Settle => assert Jobs(t) == Jobs(s);
    case Tick(slugs, answers) =>
      TickKeepsStates(s, slugs, |slugs|, answers);
      StandingKeepsClaims(s, t);
    case Crash => assert Jobs(t) == [];
  }

  // ------------------------------------------------------------------
  // Only validated data is ready
  // ------------------------------------------------------------------

  lemma SubmitKeepsValidated(s: State, op: Op, slug: Slug)
    requires Validated(s)
    ensures Validated(Submit(s, op, slug).0)
  {
    var (t, answer) := Submit(s, op, slug);
    if answer == Queued {
      assert Jobs(t) == Jobs(s) + [t.queue[|t.queue| - 1]];
    } else {
      assert Jobs(t) == Jobs(s);
    }
  }

  lemma JobEndsValidated(s: State, t: State)
    requires OneEach(Jobs(s)) && Jobs(s) != [] && Validated(s) && Jobs(t) == Jobs(s)[1..]
    requires forall slug ::
               slug in s.validated && !(Claims(Jobs(s)[0]) && slug == Jobs(s)[0].slug) ==> slug in t.validated
    requires forall slug :: IsIn(t, slug, Ready) ==> slug in t.validated
    ensures Validated(t)
  {
    forall i | 0 <= i < |Jobs(t)| && Jobs(t)[i].op == Remove
      ensures Jobs(t)[i].prior != Importing && (Jobs(t)[i].prior == Ready ==> Jobs(t)[i].slug in t.validated)
    {
      assert Jobs(t)[i] == Jobs(s)[i + 1];
    }
  }

  /** Who is ready after a job, and validated. */
  lemma FinishReady(s: State, ok: bool, slug: Slug)
    requires Validated(s) && s.worker.Busy? && Jobs(s)[0] == s.worker.job
    ensures var t := Finish(s, s.worker.job, ok);
            IsIn(t, slug, Ready) ==> slug in t.validated
  {
    var job := s.worker.job;
    if job.op == Remove && !ok {
      assert job.prior == Ready ==> job.slug in s.validated;
    }
  }

  lemma FinishKeepsValidated(s: State, ok: bool)
    requires ClaimsExact(s) && Validated(s) && s.worker.Busy?
    ensures Validated(Finish(s, s.worker.job, ok))
  {
    var t := Finish(s, s.worker.job, ok);
    assert Jobs(s)[0] == s.worker.job;
    FinishKeepsClaims(s, ok);
    forall slug ensures IsIn(t, slug, Ready) ==> slug in t.validated {
      FinishReady(s, ok, slug);
    }
    JobEndsValidated(s, t);
  }

  lemma NextKeepsValidated(s: State, e: Event)
    requires ClaimsExact(s) && Validated(s) && Enabled(s, e)
    ensures Validated(Next(s, e))
  {
    var t := Next(s, e);
    match e
    case Propose(_, _) => assert Jobs(t) == Jobs(s);
    case Request(op, slug) => SubmitKeepsValidated(s, op, slug);
    case Start => assert Jobs(t) == Jobs(s);
    case End(ok) => FinishKeepsValidated(s, ok);
    case Post(_) => assert Jobs(t) == Jobs(s);
    case Settle => assert Jobs(t) == Jobs(s);
    case Tick(slugs, answers) =>
      TickKeepsStates(s, slugs, |slugs|, answers);
      assert Jobs(t) == Jobs(s);
    case Crash => assert Jobs(t) == [];
  }

  // ------------------------------------------------------------------
  // Whole runs
  // ------------------------------------------------------------------

  /** From start-up on: claims are exact and only validated regions are ready. */
  lemma {:induction false} RunKeepsClaims(states: seq<State>, events: seq<Event>, k: nat)
    requires Run(states, events) && Initial(states[0]) && k < |states|
    ensures ClaimsExact(states[k]) && Validated(states[k])
  {
    if k == 0 {
      assert Jobs(states[0]) == [];
    } else {
      RunKeepsClaims(states, events, k - 1);
      assert states[k] == Next(states[k - 1], events[k - 1]);
      NextKeepsClaims(states[k - 1], events[k - 1]);
      NextKeepsValidated(states[k - 1], events[k - 1]);
    }
  }
}
