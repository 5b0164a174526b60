/**
 * `push_main`, `merge_and_push`, and whole runs of the protocol among agents that
 * work in the clone and other threads that move the server's main.
 */
module Publish {
  import opened Common
  import opened Git
  import opened DomainManager
  import opened Merge

  /** `moved`: where somebody else puts the server's main between fetch and push. */
  datatype PushPlan = PushPlan(fetch: bool, isAncestor: bool, moved: Option<nat>, push: bool)

  function ServerMoves(r: Repo, moved: Option<nat>): Repo {
    if moved.Some? && moved.value < |r.commits| then r.(remote := moved.value) else r
  }

  /** `push_main`. */
  ghost function PushMainTo(r: Repo, q: PushPlan): (Repo, Result)
    requires Valid(r)
  {
    if !q.fetch then (r, Raised(CommandFailed))
    else
      var r1 := Fetch(r, true);
      if !(q.isAncestor && Ancestor(r1.commits, r1.tracking, Main(r1))) then (r1, Raised(OriginAdvanced))
      else
        var r2 := ServerMoves(r1, q.moved);
        var (r3, ok) := PushMain(r2, q.push);
        (r3, if ok then Done else Raised(CommandFailed))
  }

  /** Does this push go through? It fetches, finds the server's main below local main, and
      still does when the server is reached. */
  ghost predicate PushWorks(r: Repo, q: PushPlan)
    requires Valid(r)
  {
    && q.fetch && q.isAncestor && q.push && Ancestor(r.commits, r.remote, Main(r))
    && (q.moved.Some? && q.moved.value < |r.commits| ==> Ancestor(r.commits, q.moved.value, Main(r)))
  }

  /** A push that succeeds puts local main on the server, on top of whatever the
      server had by then; one that fails leaves the server alone. Nothing local but
      the tracking ref moves. */
  lemma PushNeverOverwrites(r: Repo, q: PushPlan)
    requires Valid(r)
    ensures var (s, result) := PushMainTo(r, q);
            var server := if q.fetch && q.isAncestor && Ancestor(r.commits, r.remote, Main(r))
                          then ServerMoves(r, q.moved).remote else r.remote;
            && Valid(s) && s.commits == r.commits && s.branches == r.branches
            && s.head == r.head && s.rebasing == r.rebasing && s.index == r.index && s.work == r.work
            && (result == Done <==> PushWorks(r, q))
            && (result == Raised(OriginAdvanced) <==>
                  q.fetch && !(q.isAncestor && Ancestor(r.commits, r.remote, Main(r))))
            && (result.Raised? ==> result.error in {OriginAdvanced, CommandFailed})
            && (result.Raised? ==> s.tracking == if q.fetch then r.remote else r.tracking)
            && (result == Done ==> s.remote == s.tracking == Main(r) && Ancestor(s.commits, server, s.remote))
            && (result.Raised? ==> s.remote == server)
  {
  }

  datatype PublishPlan = PublishPlan(unpushedRead: bool, first: PushPlan, readHead: bool, diff: Diff,
                                     merge: MergePlan, second: PushPlan)

  /** `has_unpushed_main`. */
  ghost predicate HasUnpushed(r: Repo, ok: bool)
    requires Valid(r)
  {
    ok && !Ancestor(r.commits, Main(r), r.tracking)
  }

  /** The state in which `merge_and_push` starts to merge: any pending push is done. */
  ghost function AfterFlush(r: Repo, p: PublishPlan): (Repo, Result)
    requires Valid(r)
  {
    if HasUnpushed(r, p.unpushedRead) then PushMainTo(r, p.first) else (r, Done)
  }

  ghost function MergeThenPush(r: Repo, p: PublishPlan): (Repo, Result)
    requires Valid(r)
  {
    MergeKeepsValid(r, p.merge);
    var (r2, merged) := MergeToMain(r, p.merge);
    if merged.Raised? then (r2, merged) else PushMainTo(r2, p.second)
  }

  /** `merge_and_push`. */
  ghost function MergeAndPush(r: Repo, p: PublishPlan): (Repo, Result)
    requires Valid(r)
  {
    PushNeverOverwrites(r, p.first);
    var (r1, flushed) := AfterFlush(r, p);
    if flushed.Raised? then (r1, flushed)
    else if CurrentBranch(r1, p.readHead) == "main" then (r1, Raised(NothingToMerge))
    else if p.diff.DiffFails? then (r1, Raised(CommandFailed))
    else if p.diff.NoDiff? then (r1, if HasUnpushed(r, p.unpushedRead) then Done else Raised(NothingToMerge))
    else MergeThenPush(r1, p)
  }

  /** One click that succeeds with work to merge leaves the server's main at local
      main: the squash commit, whose tree is the rebased thread branch's. */
  lemma PublishedWork(r: Repo, p: PublishPlan)
    requires Valid(r) && p.readHead && p.merge.readHead && p.diff.HasDiff?
    requires r.head.On? && !OnMain(r) && MergeAndPush(r, p).1 == Done
    ensures var s := MergeAndPush(r, p).0;
            var b := r.head.branch;
            && Valid(s) && b in s.branches
            && s.remote == s.tracking == Main(s)
            && Main(s) >= |r.commits|
            && TreeOf(s, Main(s)) == TreeOf(s, s.branches[b])
  {
    PushNeverOverwrites(r, p.first);
    var r1 := if HasUnpushed(r, p.unpushedRead) then PushMainTo(r, p.first).0 else r;
    MergeKeepsValid(r1, p.merge);
    SquashHasTheBranchTree(r1, p.merge);
    PushNeverOverwrites(MergeToMain(r1, p.merge).0, p.second);
  }

  // ------------------------------------------------------------------
  // What one click does
  // ------------------------------------------------------------------

  /** There is work on main that the tracking ref does not have, and it is seen. */
  ghost predicate Pending(r: Repo, p: PublishPlan)
    requires Valid(r)
  {
    p.unpushedRead && !Ancestor(r.commits, Main(r), r.tracking)
  }

  /** The clone with its pending work pushed. */
  function Pushed(r: Repo): Repo
    requires "main" in r.branches
  {
    r.(tracking := Main(r), remote := Main(r))
  }

  /** Does the click get as far as this thread's own work? */
  ghost predicate GetsToWork(r: Repo, p: PublishPlan)
    requires Valid(r)
  {
    (Pending(r, p) ==> PushWorks(r, p.first)) && !(p.readHead && OnMain(r))
  }

  /** The clone that it then works on: with its pending work on the server. */
  ghost function Start(r: Repo, p: PublishPlan): Repo
    requires Valid(r)
  {
    if Pending(r, p) then Pushed(r) else r
  }

  lemma StartKeepsMain(r: Repo, p: PublishPlan)
    requires Valid(r)
    ensures var q := Start(r, p);
            && Valid(q) && q.commits == r.commits && Main(q) == Main(r) && q.head == r.head && q.rebasing == r.rebasing
  {
  }

  /** The flush of pending work, whatever it does, moves nothing local but the tracking ref;
      it goes through exactly when the push works, and then the work is on the server. */
  lemma FlushPushes(r: Repo, p: PublishPlan)
    requires Valid(r)
    ensures var (r1, flushed) := AfterFlush(r, p);
            && Valid(r1) && r1.commits == r.commits && Main(r1) == Main(r)
            && r1.head == r.head && r1.rebasing == r.rebasing
            && (flushed == Done <==> (Pending(r, p) ==> PushWorks(r, p.first)))
            && (flushed == Done ==> r1 == Start(r, p))
  {
    PushNeverOverwrites(r, p.first);
  }

  /** Everything one click can come to, decided by what is known before it. */
  lemma ClickOutcome(r: Repo, p: PublishPlan)
    requires Valid(r)
    ensures Valid(Start(r, p))
    ensures var (s, result) := MergeAndPush(r, p);
            && (GetsToWork(r, p) && p.diff.HasDiff? ==> (s, result) == MergeThenPush(Start(r, p), p))
            && (GetsToWork(r, p) && p.diff.NoDiff? ==>
                  s == Start(r, p) && result == if Pending(r, p) then Done else Raised(NothingToMerge))
            && (!(GetsToWork(r, p) && !p.diff.DiffFails?) ==>
                  result.Raised? && Valid(s) && s.commits == r.commits && Main(s) == Main(r))
  {
    FlushPushes(r, p);
  }

  /** A click that reports success without work of the thread's own to merge had pending
      work and has put it on the server; and it reports success whenever that push works. */
  lemma PendingWorkIsPublished(r: Repo, p: PublishPlan)
    requires Valid(r) && p.diff.NoDiff?
    ensures var (s, result) := MergeAndPush(r, p);
            && (result == Done <==> Pending(r, p) && PushWorks(r, p.first) && !(p.readHead && OnMain(r)))
            && (result == Done ==> s.remote == s.tracking == Main(r) && Main(s) == Main(r) && s.head == r.head)
  {
    ClickOutcome(r, p);
  }

  /** Why a click raises before it gets to this thread's own work. */
  lemma ClickRaises(r: Repo, p: PublishPlan)
    requires Valid(r) && !(GetsToWork(r, p) && !p.diff.DiffFails?)
    ensures var result := MergeAndPush(r, p).1;
            var unpushed := Pending(r, p) && !PushWorks(r, p.first);
            && (result == Raised(OriginAdvanced) <==>
                  unpushed && p.first.fetch && !(p.first.isAncestor && Ancestor(r.commits, r.remote, Main(r))))
            && (result == Raised(NothingToMerge) <==> !unpushed && p.readHead && OnMain(r))
            && result.Raised? && result.error in {OriginAdvanced, NothingToMerge, CommandFailed}
  {
    FlushPushes(r, p);
    PushNeverOverwrites(r, p.first);
  }

  /** When a click with work to merge succeeds, and what it raises if not: the merge goes
      through, and so does the push of what it made. */
  lemma ClickWithWork(r: Repo, p: PublishPlan)
    requires Valid(r) && GetsToWork(r, p) && p.diff.HasDiff?
    ensures Valid(Start(r, p)) && Valid(MergeToMain(Start(r, p), p.merge).0)
    ensures var (merged, outcome) := MergeToMain(Start(r, p), p.merge);
            var result := MergeAndPush(r, p).1;
            && (result == Done <==> outcome == Done && PushWorks(merged, p.second))
            && (outcome.Raised? ==> result == outcome && MergeAndPush(r, p).0 == merged)
            && (outcome == Done ==>
                  result.Raised? ==> result.error in {OriginAdvanced, CommandFailed})
  {
    ClickOutcome(r, p);
    MergeKeepsValid(Start(r, p), p.merge);
    PushNeverOverwrites(MergeToMain(Start(r, p), p.merge).0, p.second);
  }

  lemma MergeThenPushMain(r: Repo, p: PublishPlan)
    requires Valid(r)
    ensures var (s, result) := MergeThenPush(r, p);
            && Valid(s) && r.commits <= s.commits
            && (Ancestor(s.commits, Main(r), Main(s)) <==> !MergeRewinds(r, p.merge))
            && (result == Done ==> s.remote == s.tracking == Main(s))
  {
    MainMovesForwardExactlyWhen(r, p.merge);
    PushNeverOverwrites(MergeToMain(r, p.merge).0, p.second);
  }

  /** `merge_and_push` takes commits off main exactly when it merges and the merge does. */
  ghost predicate PublishRewinds(r: Repo, p: PublishPlan)
    requires Valid(r)
  {
    StartKeepsMain(r, p);
    GetsToWork(r, p) && p.diff.HasDiff? && MergeRewinds(Start(r, p), p.merge)
  }

  lemma PublishMovesMainForwardExactlyWhen(r: Repo, p: PublishPlan)
    requires Valid(r)
    ensures var s := MergeAndPush(r, p).0;
            && Valid(s) && r.commits <= s.commits
            && (Ancestor(s.commits, Main(r), Main(s)) <==> !PublishRewinds(r, p))
  {
    ClickOutcome(r, p);
    MergeThenPushMain(Start(r, p), p);
  }

  /** A click that succeeds and does not rewind main leaves on the server all that was on
      main, pending work included. */
  lemma SuccessPublishesMain(r: Repo, p: PublishPlan)
    requires Valid(r) && !PublishRewinds(r, p) && MergeAndPush(r, p).1 == Done
    ensures var s := MergeAndPush(r, p).0;
            Valid(s) && s.remote == s.tracking == Main(s) && Ancestor(s.commits, Main(r), s.remote)
  {
    ClickOutcome(r, p);
    PublishMovesMainForwardExactlyWhen(r, p);
    MergeThenPushMain(Start(r, p), p);
  }

  // ------------------------------------------------------------------
  // Whole runs
  // ------------------------------------------------------------------

  /** The host's operations, and what others do in between: an agent that may do
      anything in the clone short of moving main, so it may well leave a rebase of main
      half-way, and a server whose main may go anywhere. */
  datatype Op =
    | Syncing(sync: SyncPlan)
    | Fetching(fetch: FetchPlan)
    | Merging(merge: MergePlan)
    | Pushing(push: PushPlan)
    | Publishing(publish: PublishPlan)
    | Working(next: Repo)
    | Serving(at: nat)

  ghost predicate AgentMay(r: Repo, n: Repo)
    requires Valid(r)
  {
    Valid(n) && r.commits <= n.commits && Main(n) == Main(r)
  }

  ghost predicate Allowed(r: Repo, op: Op)
    requires Valid(r)
  {
    op.Working? ==> AgentMay(r, op.next)
  }

  ghost function Perform(r: Repo, op: Op): Repo
    requires Valid(r)
  {
    match op
    case Syncing(p) => (ValidSettles(r, p); Sync(r, p).0)
    case Fetching(p) => FetchOrigin(r, p)
    case Merging(p) => MergeToMain(r, p).0
    case Pushing(q) => PushMainTo(r, q).0
    case Publishing(p) => MergeAndPush(r, p).0
    case Working(n) => n
    case Serving(at) => ServerMoves(r, Some(at))
  }

  /** Does this operation take commits off main? What decides is known before it. */
  ghost predicate Rewinds(r: Repo, op: Op)
    requires Valid(r)
  {
    match op
    case Syncing(p) => SyncRewinds(r, p)
    case Merging(p) => MergeRewinds(r, p)
    case Publishing(p) => PublishRewinds(r, p)
    case _ => false
  }

  /** One operation, whatever command fails in it. */
  lemma OpMovesMainForwardExactlyWhen(r: Repo, op: Op)
    requires Valid(r) && Allowed(r, op)
    ensures var s := Perform(r, op);
            && Valid(s) && r.commits <= s.commits
            && (Ancestor(s.commits, Main(r), Main(s)) <==> !Rewinds(r, op))
  {
    match op
    case Syncing(p) => SyncMovesMainForwardExactlyWhen(r, p);
    case Fetching(p) => FetchMovesMainForward(r, p);
    case Merging(p) => MainMovesForwardExactlyWhen(r, p);
    case Pushing(q) => PushNeverOverwrites(r, q);
    case Publishing(p) => PublishMovesMainForwardExactlyWhen(r, p);
    case Working(n) =>
    case Serving(at) =>
  }

  /** The run takes its `k`-th operation. */
  ghost predicate Takes(states: seq<Repo>, ops: seq<Op>, k: nat)
    requires k < |ops| && |states| == |ops| + 1
  {
    Valid(states[k]) && Allowed(states[k], ops[k]) && states[k + 1] == Perform(states[k], ops[k])
  }

  /** A run, from any well-formed repository. */
  ghost predicate Run(states: seq<Repo>, ops: seq<Op>) {
    && |states| == |ops| + 1
    && forall k :: 0 <= k < |ops| ==> Takes(states, ops, k)
  }

  /** The commits on main. */
  ghost function MainCommits(r: Repo): iset<nat> {
    iset c: nat | Valid(r) && Ancestor(r.commits, c, Main(r))
  }

  lemma StepKeepsMain(r: Repo, op: Op)
    requires Valid(r) && Allowed(r, op) && !Rewinds(r, op)
    ensures Valid(Perform(r, op)) && MainCommits(r) <= MainCommits(Perform(r, op))
  {
    OpMovesMainForwardExactlyWhen(r, op);
    var s := Perform(r, op);
    forall c | c in MainCommits(r)
      ensures c in MainCommits(s)
    {
      OldAncestry(r.commits, s.commits, c, Main(r));
      AncestorTransitive(s.commits, c, Main(r), Main(s));
    }
  }

  /** Does the `k`-th operation of this run take commits off main? */
  ghost predicate RewindsAt(states: seq<Repo>, ops: seq<Op>, k: nat)
    requires k < |ops| && k < |states|
  {
    Valid(states[k]) && Rewinds(states[k], ops[k])
  }

  lemma RunStep(states: seq<Repo>, ops: seq<Op>, k: nat, next: nat)
    requires Run(states, ops) && k < |ops| && next == k + 1 && !RewindsAt(states, ops, k)
    ensures MainCommits(states[k]) <= MainCommits(states[next])
  {
    assert Takes(states, ops, k);
    StepKeepsMain(states[k], ops[k]);
  }

  /** Local main never loses a commit it once had, in any stretch of any run that has no
      rewinding operation. */
  lemma {:induction false} MainNeverLosesACommit(states: seq<Repo>, ops: seq<Op>, i: nat, j: nat)
    requires Run(states, ops) && i <= j <= |ops|
    requires forall k :: i <= k < j ==> !RewindsAt(states, ops, k)
    ensures MainCommits(states[i]) <= MainCommits(states[j])
    decreases j
  {
    if i < j {
      MainNeverLosesACommit(states, ops, i, j - 1);
      assert !RewindsAt(states, ops, j - 1);
      RunStep(states, ops, j - 1, j);
    }
  }

  /** And every rewinding operation of a run takes one off: the tip that main had. */
  lemma RewindingLosesACommit(states: seq<Repo>, ops: seq<Op>, k: nat, next: nat)
    requires Run(states, ops) && k < |ops| && next == k + 1 && RewindsAt(states, ops, k)
    ensures Main(states[k]) in MainCommits(states[k]) && Main(states[k]) !in MainCommits(states[next])
  {
    assert Takes(states, ops, k);
    OpMovesMainForwardExactlyWhen(states[k], ops[k]);
  }

  ghost predicate Checked(op: Op) {
    match op
    case Merging(p) => p.revList
    case Publishing(p) => p.merge.revList
    case _ => true
  }

  /** What a host can do about it: no operation rewinds where no rebase of main is
      stopped half-way and `rev-list` works, whatever else fails. */
  lemma CheckedOpNeverRewinds(r: Repo, op: Op)
    requires Valid(r) && !RebasingMain(r) && Checked(op)
    ensures !Rewinds(r, op)
  {
    match op
    case Publishing(p) => StartKeepsMain(r, p);
    case _ =>
  }

  /** Both conditions matter (for the other one see `UncheckedMergeRewinds`). Here no
      command fails: an agent leaves a rebase of main half-way, the next fetch moves main
      forward, and the sync after it, which reads HEAD, aborts the rebase and takes main
      back. */
  lemma SyncCanRewindMain() returns (states: seq<Repo>, ops: seq<Op>)
    ensures Run(states, ops) && |ops| == 3
    ensures ops[0].Working? && ops[1] == Fetching(FetchPlan(true, true, true, true))
    ensures ops[2].Syncing? && ops[2].sync.abort && ops[2].sync.readHead && ops[2].sync.add
    ensures ops[2].sync.rebranch.checkoutOk && ops[2].sync.rebranch.showRefFails == {}
    ensures RewindsAt(states, ops, 2)
    ensures !(MainCommits(states[2]) <= MainCommits(states[3]))
  {
    var r0, r1, r2 := StuckAndFetched();
    var sync := SyncPlan(true, true, Branching("20260101-000000", {}, true), true, true, true);
    ops := [Working(r1), Fetching(FetchPlan(true, true, true, true)), Syncing(sync)];
    SyncMovesMainForwardExactlyWhen(r2, sync);
    states := [r0, r1, r2, Perform(r2, ops[2])];
    forall i | 0 <= i < 3
      ensures Takes(states, ops, i)
    {
    }
    RewindingLosesACommit(states, ops, 2, 3);
  }

  /** A clone on main, one commit behind the server; the same with a rebase of main
      stopped half-way; and that after a fetch. */
  lemma StuckAndFetched() returns (r0: Repo, r1: Repo, r2: Repo)
    ensures Valid(r0) && AgentMay(r0, r1) && r2 == FetchOrigin(r1, FetchPlan(true, true, true, true))
    ensures Valid(r2) && RebasingMain(r2) && !Ancestor(r2.commits, Main(r2), r2.rebasing.value.original)
  {
    var commits := [Commit([], 0), Commit([0], 1)];
    r0 := Repo(commits, map["main" := 0], On("main"), 0, 1, 0, 0, None);
    r1 := r0.(head := Detached(0), rebasing := Some(Rebasing(Some("main"), 0)));
    assert 0 in commits[1].parents && Ancestor(commits, 0, 0);
    assert Ancestor(commits, 0, 1) && !Ancestor(commits, 1, 0);
    r2 := r1.(tracking := 1, branches := map["main" := 1]);
  }
}
