/**
 * What each event of the region provisioner leaves (assist/geo/provisioner.py), said of
 * the stores before and after it, and what a whole job leaves, from its request to its
 * end.
 */
module GeoOutcomes {
  import opened Common
  import opened GeoSpec
  import opened GeoProofs

  ghost predicate SameRegion(s: State, t: State, slug: Slug) {
    (slug in s.registry <==> slug in t.registry) && (slug in s.registry ==> t.registry[slug] == s.registry[slug])
  }

  ghost predicate SameAccounts(s: State, t: State) {
    t.puts == s.puts && t.posts == s.posts && t.deaths == s.deaths
  }

  // ------------------------------------------------------------------
  // Requests
  // ------------------------------------------------------------------

  /** When a request becomes a job. */
  ghost predicate Accepts(s: State, op: Op, slug: Slug) {
    match op
    case Add => slug in s.proposals && !IsIn(s, slug, Importing) && !IsIn(s, slug, Ready)
    case Remove => slug in s.registry && !IsIn(s, slug, Importing)
    case Transit => IsIn(s, slug, Ready) && slug !in s.transitActive
  }

  /** Who is accepted, and that no request touches another region or what has happened. */
  lemma RequestDecides(s: State, op: Op, slug: Slug)
    ensures var t := Next(s, Request(op, slug));
            && (Submit(s, op, slug).1 == Queued <==> Accepts(s, op, slug))
            && (forall x :: x != slug ==> SameRegion(s, t, x))
            && SameAccounts(s, t) && t.worker == s.worker && t.validated == s.validated
  {
  }

  /** An accepted add or removal claims its region, whose data and flags a removal keeps; an
      accepted transit claims only its place in memory. The job is the last in line. */
  lemma AcceptedRequest(s: State, op: Op, slug: Slug)
    requires Accepts(s, op, slug)
    ensures var t := Next(s, Request(op, slug));
            && t.proposals == s.proposals
            && t.queue == s.queue + [Job(op, slug, match op case Add => Failed case Remove => s.registry[slug].state
                                                   case Transit => Ready)]
            && t.transitActive == s.transitActive + (if op == Transit then {slug} else {})
            && match op
               case Add => slug in t.registry && t.registry[slug] == Region(Importing, true, false)
               case Remove => slug in t.registry && t.registry[slug] == s.registry[slug].(state := Importing)
               case Transit => SameRegion(s, t, slug)
  {
  }

  /** A refused request changes nothing, but that one for a region which is loaded and
      announced already drops a moot proposal. */
  lemma RefusedRequest(s: State, op: Op, slug: Slug)
    requires !Accepts(s, op, slug)
    ensures var t := Next(s, Request(op, slug));
            var moot := op == Add && IsIn(s, slug, Ready) && s.registry[slug].delivered;
            && t.queue == s.queue && t.transitActive == s.transitActive && SameRegion(s, t, slug)
            && forall x :: x in t.proposals <==> x in s.proposals && !(moot && x == slug)
  {
  }

  /** Why a request is refused. */
  lemma RefusalSays(s: State, op: Op, slug: Slug)
    ensures var answer := Submit(s, op, slug).1;
            && (answer == JobRunning <==> IsIn(s, slug, Importing))
            && (answer == NoProposal <==> op == Add && !IsIn(s, slug, Importing) && slug !in s.proposals)
            && (answer == AlreadyLoaded <==> op == Add && IsIn(s, slug, Ready) && slug in s.proposals)
            && (answer == NotLoaded <==>
                  (op == Remove && slug !in s.registry)
                  || (op == Transit && !IsIn(s, slug, Ready) && !IsIn(s, slug, Importing)))
            && (answer == TransitRunning <==> op == Transit && IsIn(s, slug, Ready) && slug in s.transitActive)
  {
  }

  // ------------------------------------------------------------------
  // The end of a job
  // ------------------------------------------------------------------

  /** A transit sets its flag exactly when it succeeds, and changes no state. A removal takes
      the region out exactly when it succeeds, and else gives it the state back that its job
      carries. An add leaves the region ready and unannounced exactly when it succeeds, and
      else failed. No other region changes. */
  lemma EndDecides(s: State, ok: bool)
    requires ClaimsExact(s) && s.worker.Busy?
    ensures var t := Next(s, End(ok));
            var job := s.worker.job;
            && (forall x :: x != job.slug ==> SameRegion(s, t, x))
            && t.queue == s.queue && t.proposals == s.proposals && SameAccounts(s, t)
            && t.transitActive == s.transitActive - (if job.op == Transit then {job.slug} else {})
            && match job.op
               case Transit =>
                 && t.worker == Idle && (job.slug in t.registry <==> job.slug in s.registry)
                 && (job.slug in s.registry ==>
                       t.registry[job.slug] == s.registry[job.slug].(transit := s.registry[job.slug].transit || ok))
               case Remove =>
                 && t.worker == Idle && (job.slug in t.registry <==> !ok)
                 && (!ok ==> t.registry[job.slug] == s.registry[job.slug].(state := job.prior))
               case Add =>
                 && t.worker == Owing(job.slug, !ok) && job.slug in t.registry
                 && t.registry[job.slug] ==
                      Region(if ok then Ready else Failed, if ok then false else s.registry[job.slug].delivered,
                             s.registry[job.slug].transit)
  {
    if Claims(s.worker.job) { RunningIsClaimed(s); }
  }

  /** This event ends the add or removal of a region. */
  ghost predicate EndsClaim(s: State, e: Event, slug: Slug) {
    e.End? && s.worker.Busy? && s.worker.job.slug == slug && Claims(s.worker.job)
  }

  /** It marks the success notice of a region as delivered. */
  ghost predicate Announces(s: State, e: Event, slug: Slug) {
    e == Settle && s.worker == Posted(slug, false)
  }

  /** It is the successful end of a transit of the region. */
  ghost predicate GainsTransit(s: State, e: Event, slug: Slug) {
    e == End(true) && s.worker.Busy? && s.worker.job.slug == slug && s.worker.job.op == Transit
  }

  lemma DeliveryPassesBy(s: State, x: Slug, reached: bool, slug: Slug)
    requires IsIn(s, slug, Importing)
    ensures SameRegion(s, DeliverIfDue(s, x, reached), slug)
  {
  }

  lemma {:induction false} TickPassesBy(s: State, slugs: seq<Slug>, k: nat, answers: Slug -> bool, slug: Slug)
    requires k <= |slugs| && IsIn(s, slug, Importing)
    ensures SameRegion(s, DeliverAll(s, slugs, k, answers), slug)
  {
    if k > 0 {
      TickPassesBy(s, slugs, k - 1, answers, slug);
      DeliveryPassesBy(DeliverAll(s, slugs, k - 1, answers), slugs[k - 1], answers(slugs[k - 1]), slug);
    }
  }

  ghost predicate HasJob(s: State, job: Job) { exists i :: 0 <= i < |Jobs(s)| && Jobs(s)[i] == job }

  /** What a region's record is after an event that does not end its claim. */
  ghost predicate Held(s: State, e: Event, t: State, slug: Slug)
    requires slug in s.registry
  {
    slug in t.registry && t.registry[slug] ==
      Region(Importing, s.registry[slug].delivered || Announces(s, e, slug),
             s.registry[slug].transit || GainsTransit(s, e, slug))
  }

  lemma EndPassesBy(s: State, ok: bool, job: Job)
    requires ClaimsExact(s) && s.worker.Busy? && HasJob(s, job) && Claims(job) && IsIn(s, job.slug, Importing)
    requires !EndsClaim(s, End(ok), job.slug)
    ensures HasJob(Next(s, End(ok)), job) && Held(s, End(ok), Next(s, End(ok)), job.slug)
  {
    var t := Next(s, End(ok));
    EndDecides(s, ok);
    var i :| 0 <= i < |Jobs(s)| && Jobs(s)[i] == job;
    assert Jobs(s)[0] == s.worker.job;
    assert i > 0 && Jobs(t)[i - 1] == job;
  }

  lemma RequestPassesBy(s: State, op: Op, slug: Slug, job: Job)
    requires HasJob(s, job) && IsIn(s, job.slug, Importing)
    ensures HasJob(Next(s, Request(op, slug)), job) && SameRegion(s, Next(s, Request(op, slug)), job.slug)
  {
    RequestDecides(s, op, slug);
    if Accepts(s, op, slug) { AcceptedRequest(s, op, slug); } else { RefusedRequest(s, op, slug); }
    var i :| 0 <= i < |Jobs(s)| && Jobs(s)[i] == job;
    assert Jobs(Next(s, Request(op, slug)))[i] == job;
  }

  lemma QuietPassesBy(s: State, e: Event, job: Job)
    requires Enabled(s, e) && HasJob(s, job) && IsIn(s, job.slug, Importing)
    requires e.Propose? || e.Start? || e.Post? || e.Settle?
    ensures HasJob(Next(s, e), job) && Held(s, e, Next(s, e), job.slug)
  {
    var i :| 0 <= i < |Jobs(s)| && Jobs(s)[i] == job;
    assert Jobs(Next(s, e)) == Jobs(s);
  }

  /** While its add or removal is unfinished a region stays importing, whatever happens: its
      data is left alone but for a notice of before and a transit of before. */
  lemma ClaimHolds(s: State, e: Event, job: Job)
    requires ClaimsExact(s) && Enabled(s, e) && HasJob(s, job) && Claims(job) && IsIn(s, job.slug, Importing)
    requires e != Crash && !EndsClaim(s, e, job.slug)
    ensures HasJob(Next(s, e), job) && Held(s, e, Next(s, e), job.slug)
  {
    match e
    case Request(op, slug) => RequestPassesBy(s, op, slug, job);
    case End(ok) => EndPassesBy(s, ok, job);
    case Tick(slugs, answers) =>
      TickPassesBy(s, slugs, |slugs|, answers, job.slug);
      TickKeepsStates(s, slugs, |slugs|, answers);
      assert Jobs(Next(s, e)) == Jobs(s);
    case _ => QuietPassesBy(s, e, job);
  }

  // ------------------------------------------------------------------
  // From request to end
  // ------------------------------------------------------------------

  /** Between its request and event `k` the claim has neither ended nor died. */
  ghost predicate Unfinished(states: seq<State>, events: seq<Event>, i: nat, k: nat, slug: Slug)
    requires |states| == |events| + 1 && k <= |events|
  {
    forall m :: i < m < k ==> events[m] != Crash && !EndsClaim(states[m], events[m], slug)
  }

  ghost predicate AnnouncedMeanwhile(states: seq<State>, events: seq<Event>, i: nat, k: nat, slug: Slug)
    requires |states| == |events| + 1 && k <= |events|
  {
    exists m :: i < m < k && Announces(states[m], events[m], slug)
  }

  ghost predicate TransitMeanwhile(states: seq<State>, events: seq<Event>, i: nat, k: nat, slug: Slug)
    requires |states| == |events| + 1 && k <= |events|
  {
    exists m :: i < m < k && GainsTransit(states[m], events[m], slug)
  }

  /** What a region's record is while its claim is unfinished. */
  ghost predicate Follows(states: seq<State>, events: seq<Event>, i: nat, k: nat, job: Job, was: Region)
    requires |states| == |events| + 1 && k <= |events|
  {
    && HasJob(states[k], job) && job.slug in states[k].registry
    && states[k].registry[job.slug] ==
         Region(Importing, was.delivered || AnnouncedMeanwhile(states, events, i, k, job.slug),
                was.transit || TransitMeanwhile(states, events, i, k, job.slug))
  }

  lemma OneMore(states: seq<State>, events: seq<Event>, i: nat, k: nat, slug: Slug)
    requires |states| == |events| + 1 && i < k < |events|
    ensures AnnouncedMeanwhile(states, events, i, k + 1, slug)
            <==> AnnouncedMeanwhile(states, events, i, k, slug) || Announces(states[k], events[k], slug)
    ensures TransitMeanwhile(states, events, i, k + 1, slug)
            <==> TransitMeanwhile(states, events, i, k, slug) || GainsTransit(states[k], events[k], slug)
  {
  }

  lemma FollowsOn(states: seq<State>, events: seq<Event>, i: nat, k: nat, job: Job, was: Region)
    requires Run(states, events) && Initial(states[0]) && i < k < |events| && Claims(job)
    requires Follows(states, events, i, k, job, was)
    requires events[k] != Crash && !EndsClaim(states[k], events[k], job.slug)
    ensures Follows(states, events, i, k + 1, job, was)
  {
    RunKeepsClaims(states, events, k);
    assert Enabled(states[k], events[k]) && states[k + 1] == Next(states[k], events[k]);
    ClaimHolds(states[k], events[k], job);
    OneMore(states, events, i, k, job.slug);
  }

  lemma {:induction false} ClaimFollows(states: seq<State>, events: seq<Event>, i: nat, k: nat, job: Job, was: Region)
    requires Run(states, events) && Initial(states[0]) && i < k <= |events|
    requires Claims(job) && Unfinished(states, events, i, k, job.slug)
    requires Follows(states, events, i, i + 1, job, was)
    ensures Follows(states, events, i, k, job, was)
    decreases k
  {
    if k > i + 1 {
      ClaimFollows(states, events, i, k - 1, job, was);
      FollowsOn(states, events, i, k - 1, job, was);
    }
  }

  /** The job that ends a claim is the one that was requested. */
  lemma OneClaim(s: State, job: Job)
    requires ClaimsExact(s) && HasJob(s, job) && Claims(job)
    requires s.worker.Busy? && s.worker.job.slug == job.slug && Claims(s.worker.job)
    ensures s.worker.job == job
  {
    var i :| 0 <= i < |Jobs(s)| && Jobs(s)[i] == job;
    assert Jobs(s)[0] == s.worker.job;
  }

  /** A whole removal, in every run. It is requested of a region in any state but importing.
      If its end succeeds the region is gone; if not, it has the very state back that it had
      at the request, with the flags it had, but for a notice or a transit of before that
      was finished meanwhile. */
  lemma RemovalOutcome(states: seq<State>, events: seq<Event>, i: nat, j: nat, slug: Slug, ok: bool)
    requires Run(states, events) && Initial(states[0]) && i < j < |events| && Unfinished(states, events, i, j, slug)
    requires events[i] == Request(Remove, slug) && slug in states[i].registry && !IsIn(states[i], slug, Importing)
    requires events[j] == End(ok) && EndsClaim(states[j], events[j], slug)
    ensures var was := states[i].registry[slug];
            var now := states[j + 1].registry;
            && (slug in now <==> !ok)
            && (!ok ==>
                  now[slug] == Region(was.state, was.delivered || AnnouncedMeanwhile(states, events, i, j, slug),
                                      was.transit || TransitMeanwhile(states, events, i, j, slug)))
  {
    var was := states[i].registry[slug];
    var job := Job(Remove, slug, was.state);
    assert states[i + 1] == Next(states[i], events[i]);
    AcceptedRequest(states[i], Remove, slug);
    Requested(states[i], Remove, slug);
    ClaimFollows(states, events, i, j, job, was);
    RunKeepsClaims(states, events, j);
    OneClaim(states[j], job);
    assert states[j + 1] == Next(states[j], events[j]);
    EndDecides(states[j], ok);
  }

  /** The same of an add: it is ready and unannounced exactly when it succeeded. */
  lemma AddOutcome(states: seq<State>, events: seq<Event>, i: nat, j: nat, slug: Slug, ok: bool)
    requires Run(states, events) && Initial(states[0]) && i < j < |events| && Unfinished(states, events, i, j, slug)
    requires events[i] == Request(Add, slug) && slug in states[i].proposals
    requires !IsIn(states[i], slug, Importing) && !IsIn(states[i], slug, Ready)
    requires events[j] == End(ok) && EndsClaim(states[j], events[j], slug)
    ensures var now := states[j + 1].registry;
            slug in now && now[slug] == Region(if ok then Ready else Failed, !ok,
                                               TransitMeanwhile(states, events, i, j, slug))
  {
    var job := Job(Add, slug, Failed);
    assert states[i + 1] == Next(states[i], events[i]);
    AcceptedRequest(states[i], Add, slug);
    Requested(states[i], Add, slug);
    ClaimFollows(states, events, i, j, job, Region(Importing, true, false));
    RunKeepsClaims(states, events, j);
    OneClaim(states[j], job);
    assert states[j + 1] == Next(states[j], events[j]);
    EndDecides(states[j], ok);
  }

  lemma Requested(s: State, op: Op, slug: Slug)
    requires op != Transit && Accepts(s, op, slug)
    ensures HasJob(Next(s, Request(op, slug)), Job(op, slug, if op == Add then Failed else s.registry[slug].state))
  {
    var t := Next(s, Request(op, slug));
    AcceptedRequest(s, op, slug);
    assert Jobs(t) == Jobs(s) + [t.queue[|s.queue|]];
    assert Jobs(t)[|Jobs(s)|] == t.queue[|s.queue|];
  }

  // ------------------------------------------------------------------
  // Announcements
  // ------------------------------------------------------------------

  /** The worker posts exactly when there is a proposal with a thread and the post succeeds;
      its bookkeeping drops the proposal and marks a success, not a failure, as delivered. */
  lemma WorkerAnnounces(s: State, e: Event)
    requires Enabled(s, e) && (e.Post? || e == Settle)
    ensures var t := Next(s, e);
            var slug := s.worker.slug;
            && (forall x :: x != slug ==> SameRegion(s, t, x) && (x in s.proposals <==> x in t.proposals))
            && t.queue == s.queue && t.transitActive == s.transitActive && t.puts == s.puts && t.deaths == s.deaths
            && (e.Post? ==>
                  var posts := slug in s.proposals && s.proposals[slug].hasThread && e.reached;
                  && t.proposals == s.proposals && SameRegion(s, t, slug)
                  && Count(t.posts, slug) == Count(s.posts, slug) + (if posts then 1 else 0)
                  && t.worker == if posts then Posted(slug, s.worker.failed) else Idle)
            && (e == Settle ==>
                  && t.worker == Idle && slug !in t.proposals && t.posts == s.posts
                  && (slug in t.registry <==> slug in s.registry)
                  && (slug in s.registry ==>
                        t.registry[slug] ==
                          s.registry[slug].(delivered := s.registry[slug].delivered || !s.worker.failed)))
  {
  }

  /** Is there a held notice of this region that can be posted: ready and not announced, or
      failed, with a proposal that names a thread? */
  predicate Deliverable(s: State, slug: Slug) {
    && slug in s.proposals && s.proposals[slug].hasThread && slug in s.registry
    && ((s.registry[slug].state == Ready && !s.registry[slug].delivered) || s.registry[slug].state == Failed)
  }

  /** What a delivery leaves of one region's notice. */
  ghost predicate Delivered(s: State, t: State, x: Slug, given: bool) {
    && (x in t.proposals <==> x in s.proposals && !given)
    && (x in t.proposals ==> t.proposals[x] == s.proposals[x])
    && Count(t.posts, x) == Count(s.posts, x) + (if given then 1 else 0)
    && (x in t.registry <==> x in s.registry)
    && (x in s.registry ==>
          t.registry[x] ==
            s.registry[x].(delivered := s.registry[x].delivered || (given && s.registry[x].state == Ready)))
  }

  lemma OwnDelivery(s: State, slug: Slug, reached: bool)
    ensures Delivered(s, DeliverIfDue(s, slug, reached), slug, reached && Deliverable(s, slug))
  {
  }

  lemma OtherDelivery(s: State, slug: Slug, reached: bool, x: Slug)
    requires x != slug
    ensures Delivered(s, DeliverIfDue(s, slug, reached), x, false)
  {
  }

  /** `deliver_pending` posts the notice of each region it lists that has one to post and is
      reached, once, drops its proposal and marks a success as delivered; all others keep
      their proposals and records. */
  lemma {:induction false} PendingAreDelivered(s: State, slugs: seq<Slug>, k: nat, answers: Slug -> bool, x: Slug)
    requires k <= |slugs|
    ensures Delivered(s, DeliverAll(s, slugs, k, answers), x, x in slugs[..k] && answers(x) && Deliverable(s, x))
  {
    if k > 0 {
      PendingAreDelivered(s, slugs, k - 1, answers, x);
      var t, slug := DeliverAll(s, slugs, k - 1, answers), slugs[k - 1];
      if slug == x { OwnDelivery(t, slug, answers(slug)); } else { OtherDelivery(t, slug, answers(slug), x); }
      assert slugs[..k] == slugs[..k - 1] + [slug];
    }
  }

  /** A death: what was importing has failed, jobs and claims in memory are gone, records,
      proposals and notices stay. */
  lemma CrashDecides(s: State)
    ensures var t := Next(s, Crash);
            && (forall x :: x in t.registry <==> x in s.registry)
            && (forall x :: x in s.registry ==>
                  t.registry[x] == if s.registry[x].state == Importing then s.registry[x].(state := Failed)
                                   else s.registry[x])
            && t.proposals == s.proposals && t.queue == [] && t.worker == Idle && t.transitActive == {}
            && t.puts == s.puts && t.posts == s.posts
  {
  }
}
