/**
 * The provisioner's classes (assist/geo/registry.py, proposals.py, provisioner.py): each
 * method is one locked section of the code and takes the step that `GeoSpec` says.
 */
module Provisioner {
  import opened Common
  import opened GeoSpec

  class RegionRegistry {
    var regions: map<Slug, Region>

    constructor (regions: map<Slug, Region>)
      ensures this.regions == regions
    {
      this.regions := regions;
    }

    method Put(slug: Slug, region: Region)
      modifies this
      ensures regions == old(regions)[slug := region]
    {
      regions := regions[slug := region];
    }

    /** Changes one record; None, and no write, if it is not there. */
    method Update(slug: Slug, change: Region -> Region) returns (r: Option<Region>)
      modifies this
      ensures if slug in old(regions)
              then r == Some(change(old(regions)[slug])) && regions == old(regions)[slug := change(old(regions)[slug])]
              else r == None && regions == old(regions)
    {
      if slug !in regions {
        return None;
      }
      regions := regions[slug := change(regions[slug])];
      r := Some(regions[slug]);
    }

    method SetState(slug: Slug, state: RegionState)
      modifies this
      ensures regions == WithState(old(regions), slug, state)
    {
      var _ := Update(slug, (r: Region) => r.(state := state));
    }

    method Remove(slug: Slug)
      modifies this
      ensures regions == Without(old(regions), slug)
    {
      if slug in regions {
        regions := regions - {slug};
      } else {
        assert regions - {slug} == regions;
      }
    }

    /** Every record stuck in importing is flipped to failed, and no other is touched. */
    method Reconcile() returns (stuck: set<Slug>)
      modifies this
      ensures regions == Reconciled(old(regions))
      ensures forall slug :: slug in stuck <==> slug in old(regions) && old(regions)[slug].state == Importing
    {
      ghost var before := regions;
      stuck := set slug | slug in regions && regions[slug].state == Importing;
      var rest := stuck;
      while rest != {}
        invariant rest <= stuck && regions.Keys == before.Keys
        invariant forall slug :: slug in before ==>
                    regions[slug]
                    == if slug in stuck && slug !in rest then before[slug].(state := Failed) else before[slug]
        decreases rest
      {
        var slug :| slug in rest;
        regions := regions[slug := regions[slug].(state := Failed)];
        rest := rest - {slug};
      }
    }
  }

  class ProposalStore {
    var proposals: map<Slug, Proposal>

    constructor (proposals: map<Slug, Proposal>)
      ensures this.proposals == proposals
    {
      this.proposals := proposals;
    }

    /** One pending proposal a slug: a new one replaces the old. */
    method Put(slug: Slug, proposal: Proposal)
      modifies this
      ensures proposals == old(proposals)[slug := proposal]
    {
      proposals := proposals[slug := proposal];
    }

    function Get(slug: Slug): Option<Proposal>
      reads this
    {
      if slug in proposals then Some(proposals[slug]) else None
    }

    method Remove(slug: Slug)
      modifies this
      ensures proposals == Without(old(proposals), slug)
    {
      if slug in proposals {
        proposals := proposals - {slug};
      } else {
        assert proposals - {slug} == proposals;
      }
    }
  }

  class Provisioner {
    const registry: RegionRegistry
    const store: ProposalStore
    var queue: seq<Job>
    var worker: Worker
    var transitActive: set<Slug>
    ghost var validated: set<Slug>
    ghost var puts: map<Slug, nat>
    ghost var posts: map<Slug, nat>
    ghost var deaths: map<Slug, nat>

    constructor (registry: RegionRegistry, store: ProposalStore)
      ensures this.registry == registry && this.store == store
      ensures queue == [] && worker == Idle && transitActive == {}
    {
      this.registry, this.store := registry, store;
      queue, worker, transitActive := [], Idle, {};
      validated, puts, posts, deaths := {}, map[], map[], map[];
    }

    ghost function View(): State
      reads this, registry, store
    {
      State(registry.regions, store.proposals, queue, worker, transitActive, validated, puts, posts, deaths)
    }

    method Propose(slug: Slug, proposal: Proposal)
      modifies this, store
      ensures View() == Next(old(View()), GeoSpec.Propose(slug, proposal))
    {
      store.Put(slug, proposal);
      puts := Bump(puts, slug);
    }

    /** `submit`: the check, the claim and the enqueue in one section. */
    method Submit(op: Op, slug: Slug) returns (answer: Answer)
      modifies this, registry, store
      ensures (View(), answer) == GeoSpec.Submit(old(View()), op, slug)
    {
      if slug in registry.regions && registry.regions[slug].state == Importing {
        return JobRunning;
      }
      var current := if slug in registry.regions then Some(registry.regions[slug]) else None;
      match op {
        case Transit =>
          if current.None? || current.value.state != Ready {
            return NotLoaded;
          }
          if slug in transitActive {
            return TransitRunning;
          }
          transitActive := transitActive + {slug};
          queue := queue + [Job(Transit, slug, Ready)];
        case Add =>
          var p := store.Get(slug);
          if p.None? {
            return NoProposal;
          }
          if current.Some? && current.value.state == Ready {
            if current.value.delivered {
              store.Remove(slug);
            }
            return AlreadyLoaded;
          }
          registry.Put(slug, Region(Importing, true, false));
          queue := queue + [Job(Add, slug, Failed)];
        case Remove =>
          if current.None? {
            return NotLoaded;
          }
          registry.SetState(slug, Importing);
          queue := queue + [Job(Remove, slug, current.value.state)];
      }
      answer := Queued;
    }

    /** The worker takes the next job. */
    method TakeJob()
      requires worker == Idle && queue != []
      modifies this
      ensures View() == Next(old(View()), Start)
    {
      worker, queue := Busy(queue[0]), queue[1..];
    }

    /** `_run` behind the job, up to the announcement; a job whose region has gone from
        the registry does not count as validated. */
    method EndJob(ok: bool)
      requires worker.Busy?
      modifies this, registry
      ensures View() == Next(old(View()), End(ok))
    {
      var job := worker.job;
      match job.op
      case Transit =>
        if ok {
          var _ := registry.Update(job.slug, (r: Region) => r.(transit := true));
        }
        transitActive := transitActive - {job.slug};
        worker := Idle;
      case Remove =>
        if ok {
          registry.Remove(job.slug);
          validated := validated - {job.slug};
        } else {
          registry.SetState(job.slug, job.prior);
        }
        worker := Idle;
      case Add =>
        if ok {
          var r := registry.Update(job.slug, (r: Region) => r.(state := Ready, delivered := false));
          if r.Some? {
            validated := validated + {job.slug};
          }
        } else {
          registry.SetState(job.slug, Failed);
        }
        worker := Owing(job.slug, !ok);
    }

    /** `_deliver` by the worker, up to the posted message. */
    method PostNotice(reached: bool)
      requires worker.Owing?
      modifies this
      ensures View() == Next(old(View()), Post(reached))
    {
      var p := store.Get(worker.slug);
      if p.None? || !p.value.hasThread || !reached {
        worker := Idle;
        return;
      }
      posts := Bump(posts, worker.slug);
      worker := Posted(worker.slug, worker.failed);
    }

    /** The bookkeeping behind a posted message. */
    method SettleNotice()
      requires worker.Posted?
      modifies this, registry, store
      ensures View() == Next(old(View()), Settle)
    {
      if !worker.failed {
        var _ := registry.Update(worker.slug, (r: Region) => r.(delivered := true));
      }
      store.Remove(worker.slug);
      worker := Idle;
    }

    /** `_deliver` as a whole. */
    method DeliverNow(slug: Slug, failed: bool, reached: bool)
      requires !worker.Posted?
      modifies this, registry, store
      ensures View() == Deliver(old(View()), slug, failed, reached) && worker == old(worker)
    {
      var p := store.Get(slug);
      if p.None? || !p.value.hasThread || !reached {
        return;
      }
      posts := Bump(posts, slug);
      if !failed {
        var _ := registry.Update(slug, (r: Region) => r.(delivered := true));
      }
      store.Remove(slug);
    }

    /** One proposal of the scan. */
    method DeliverHeld(slug: Slug, reached: bool)
      requires !worker.Posted?
      modifies this, registry, store
      ensures View() == DeliverIfDue(old(View()), slug, reached) && worker == old(worker)
    {
      if slug in registry.regions {
        var region := registry.regions[slug];
        if region.state == Ready && !region.delivered {
          DeliverNow(slug, false, reached);
        } else if region.state == Failed {
          DeliverNow(slug, true, reached);
        }
      }
    }

    /** `deliver_pending`, over the proposals as listed. */
    method DeliverPending(slugs: seq<Slug>, answers: Slug -> bool)
      requires !worker.Posted?
      modifies this, registry, store
      ensures View() == Next(old(View()), Tick(slugs, answers))
    {
      for i := 0 to |slugs|
        invariant View() == DeliverAll(old(View()), slugs, i, answers)
        invariant worker == old(worker)
      {
        DeliverHeld(slugs[i], answers(slugs[i]));
      }
    }

    /** A new process over the same files. */
    method Restarted()
      modifies this, registry
      ensures View() == Next(old(View()), Crash)
    {
      if worker.Posted? {
        deaths := Bump(deaths, worker.slug);
      }
      queue, worker, transitActive := [], Idle, {};
      var _ := registry.Reconcile();
    }
  }
}
