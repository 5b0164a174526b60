/**
 * Region provisioning (assist/geo/provisioner.py, registry.py, proposals.py): the two
 * persisted stores, the queue of the one worker, and what each locked section does.
 */
module GeoSpec {
  import opened Common

  type Slug = string

  datatype RegionState = Importing | Ready | Failed

  datatype Region = Region(state: RegionState, delivered: bool, transit: bool)

  /** A recorded proposal; has it a thread to notify? */
  datatype Proposal = Proposal(hasThread: bool)

  datatype Op = Add | Remove | Transit

  datatype Job = Job(op: Op, slug: Slug, prior: RegionState)

  /** The worker: idle, in a job, about to announce an add's end, or between the
      announcement and its bookkeeping. */
  datatype Worker = Idle | Busy(job: Job) | Owing(slug: Slug, failed: bool) | Posted(slug: Slug, failed: bool)

  /** The stores, the memory of the process, and what has happened: the adds that
      succeeded since the last removal, and per slug how many proposals were recorded,
      notices posted and processes killed between a notice and its bookkeeping. */
  datatype State = State(
    registry: map<Slug, Region>, proposals: map<Slug, Proposal>,
    queue: seq<Job>, worker: Worker, transitActive: set<Slug>,
    validated: set<Slug>, puts: map<Slug, nat>, posts: map<Slug, nat>, deaths: map<Slug, nat>)

  function Count(m: map<Slug, nat>, slug: Slug): nat { if slug in m then m[slug] else 0 }

  function Bump(m: map<Slug, nat>, slug: Slug): map<Slug, nat> { m[slug := Count(m, slug) + 1] }

  predicate IsIn(s: State, slug: Slug, state: RegionState) { slug in s.registry && s.registry[slug].state == state }

  /** `with_state` and its like: nothing if the region is not there. */
  function WithState(registry: map<Slug, Region>, slug: Slug, state: RegionState): map<Slug, Region> {
    if slug in registry then registry[slug := registry[slug].(state := state)] else registry
  }

  function WithDelivered(registry: map<Slug, Region>, slug: Slug): map<Slug, Region> {
    if slug in registry then registry[slug := registry[slug].(delivered := true)] else registry
  }

  function Without<V>(m: map<Slug, V>, slug: Slug): map<Slug, V> { m - {slug} }

  // ------------------------------------------------------------------
  // submit
  // ------------------------------------------------------------------

  datatype Answer = Queued | JobRunning | NotLoaded | TransitRunning | NoProposal | AlreadyLoaded

  function Enqueue(s: State, op: Op, slug: Slug, prior: RegionState): State {
    s.(queue := s.queue + [Job(op, slug, prior)])
  }

  function SubmitTransit(s: State, slug: Slug): (State, Answer) {
    if !IsIn(s, slug, Ready) then (s, NotLoaded)
    else if slug in s.transitActive then (s, TransitRunning)
    else (Enqueue(s, Transit, slug, Ready).(transitActive := s.transitActive + {slug}), Queued)
  }

  function SubmitAdd(s: State, slug: Slug): (State, Answer) {
    if slug !in s.proposals then (s, NoProposal)
    else if IsIn(s, slug, Ready) then
      (if s.registry[slug].delivered then s.(proposals := Without(s.proposals, slug)) else s, AlreadyLoaded)
    else
      (Enqueue(s, Add, slug, Failed).(registry := s.registry[slug := Region(Importing, true, false)]), Queued)
  }

  function SubmitRemove(s: State, slug: Slug): (State, Answer) {
    if slug !in s.registry then (s, NotLoaded)
    else (Enqueue(s, Remove, slug, s.registry[slug].state).(registry := WithState(s.registry, slug, Importing)), Queued)
  }

  function Submit(s: State, op: Op, slug: Slug): (State, Answer) {
    if IsIn(s, slug, Importing) then (s, JobRunning)
    else
      match op
      case Transit => SubmitTransit(s, slug)
      case Add => SubmitAdd(s, slug)
      case Remove => SubmitRemove(s, slug)
  }

  // ------------------------------------------------------------------
  // _run and _deliver
  // ------------------------------------------------------------------

  /** What the end of a job writes, before anything is announced. */
  function Finish(s: State, job: Job, ok: bool): State {
    match job.op
    case Transit =>
      var t := s.(worker := Idle, transitActive := s.transitActive - {job.slug});
      if ok && job.slug in s.registry
      then t.(registry := s.registry[job.slug := s.registry[job.slug].(transit := true)]) else t
    case Remove =>
      if ok then s.(worker := Idle, registry := Without(s.registry, job.slug), validated := s.validated - {job.slug})
      else s.(worker := Idle, registry := WithState(s.registry, job.slug, job.prior))
    case Add =>
      if !ok then s.(worker := Owing(job.slug, true), registry := WithState(s.registry, job.slug, Failed))
      else if job.slug !in s.registry then s.(worker := Owing(job.slug, false))
      else s.(worker := Owing(job.slug, false), validated := s.validated + {job.slug},
              registry := s.registry[job.slug := s.registry[job.slug].(state := Ready, delivered := false)])
  }

  /** Is there a notice to post, and does posting it succeed? */
  predicate Posts(s: State, slug: Slug, reached: bool) {
    slug in s.proposals && s.proposals[slug].hasThread && reached
  }

  /** The bookkeeping behind a posted notice. */
  function Clear(s: State, slug: Slug, failed: bool): State {
    s.(registry := if failed then s.registry else WithDelivered(s.registry, slug),
       proposals := Without(s.proposals, slug))
  }

  /** A whole delivery: hold it, or post and clear. */
  function Deliver(s: State, slug: Slug, failed: bool, reached: bool): State {
    if Posts(s, slug, reached) then Clear(s.(posts := Bump(s.posts, slug)), slug, failed) else s
  }

  /** Is a held notice due, and of which kind? */
  predicate DueReady(s: State, slug: Slug) { IsIn(s, slug, Ready) && !s.registry[slug].delivered }

  predicate DueFailed(s: State, slug: Slug) { IsIn(s, slug, Failed) }

  function DeliverIfDue(s: State, slug: Slug, reached: bool): State {
    if DueReady(s, slug) then Deliver(s, slug, false, reached)
    else if DueFailed(s, slug) then Deliver(s, slug, true, reached)
    else s
  }

  /** `deliver_pending`, over the proposals in the order they are read. */
  function DeliverAll(s: State, slugs: seq<Slug>, k: nat, reached: Slug -> bool): State
    requires k <= |slugs|
  {
    if k == 0 then s else DeliverIfDue(DeliverAll(s, slugs, k - 1, reached), slugs[k - 1], reached(slugs[k - 1]))
  }

  // ------------------------------------------------------------------
  // Restart
  // ------------------------------------------------------------------

  /** `reconcile`: what was importing has lost its job. */
  function Reconciled(registry: map<Slug, Region>): map<Slug, Region> {
    map slug | slug in registry ::
      if registry[slug].state == Importing then registry[slug].(state := Failed) else registry[slug]
  }

  /** The process dies and the next one starts up. */
  function Restart(s: State): State {
    s.(registry := Reconciled(s.registry), queue := [], worker := Idle, transitActive := {},
       deaths := if s.worker.Posted? then Bump(s.deaths, s.worker.slug) else s.deaths)
  }

  // ------------------------------------------------------------------
  // Steps
  // ------------------------------------------------------------------

  datatype Event =
    | Propose(slug: Slug, proposal: Proposal)
    | Request(op: Op, slug: Slug)
    | Start
    | End(ok: bool)
    | Post(reached: bool)
    | Settle
    | Tick(slugs: seq<Slug>, answers: Slug -> bool)
    | Crash

  predicate Enabled(s: State, e: Event) {
    match e
    case Start => s.worker == Idle && s.queue != []
    case End(_) => s.worker.Busy?
    case Post(_) => s.worker.Owing?
    case Settle => s.worker.Posted?
    case Tick(_, _) => !s.worker.Posted?
    case _ => true
  }

  function Next(s: State, e: Event): State
    requires Enabled(s, e)
  {
    match e
    case Propose(slug, p) => s.(proposals := s.proposals[slug := p], puts := Bump(s.puts, slug))
    case Request(op, slug) => Submit(s, op, slug).0
    case Start => s.(worker := Busy(s.queue[0]), queue := s.queue[1..])
    case End(ok) => Finish(s, s.worker.job, ok)
    case Post(reached) =>
      if Posts(s, s.worker.slug, reached)
      then s.(worker := Posted(s.worker.slug, s.worker.failed), posts := Bump(s.posts, s.worker.slug))
      else s.(worker := Idle)
    case Settle => Clear(s, s.worker.slug, s.worker.failed).(worker := Idle)
    case Tick(slugs, answers) => DeliverAll(s, slugs, |slugs|, answers)
    case Crash => Restart(s)
  }

  /** Just started up: no jobs, nothing importing, one recorded proposal each. */
  ghost predicate Initial(s: State) {
    && s.queue == [] && s.worker == Idle && s.transitActive == {}
    && (forall slug :: slug in s.registry ==> s.registry[slug].state != Importing)
    && (forall slug :: DueReady(s, slug) ==> slug in s.proposals)
    && (forall slug :: IsIn(s, slug, Ready) ==> slug in s.validated)
    && s.posts == map[] && s.deaths == map[]
    && (forall slug :: slug in s.proposals ==> Count(s.puts, slug) > 0)
  }

  ghost predicate Run(states: seq<State>, events: seq<Event>) {
    && |states| == |events| + 1
    && forall i :: 0 <= i < |events| ==> Enabled(states[i], events[i]) && states[i + 1] == Next(states[i], events[i])
  }
}
