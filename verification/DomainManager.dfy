/**
 * The branch and merge protocol of assist/domain_manager.py as functions of the
 * repository and of which commands fail. A plan says, command by command, what the
 * environment does: whether the command works, what a rebase replays, what the
 * clock gives as a branch name. `Merge` and `Publish` go on with it, and `Clone` walks
 * the same protocol in place.
 */
module DomainManager {
  import opened Common
  import opened Git

  // ------------------------------------------------------------------
  // Fresh branch names
  // ------------------------------------------------------------------

  /** What the environment contributes to `create_timestamped_branch`. */
  datatype Branching = Branching(stamp: string, showRefFails: set<nat>, checkoutOk: bool) {
    /** `assist/` and the time stamp, with the thread's suffix if it has one. */
    function Base(): string { "assist/" + stamp }
  }

  /** The n-th name tried: the base, then base-1, base-2, and so on. */
  function Candidate(base: string, n: nat): string {
    if n == 0 then base else base + "-" + Decimal(n)
  }

  lemma CandidatesDistinct(base: string, m: nat, n: nat)
    requires Candidate(base, m) == Candidate(base, n)
    ensures m == n
  {
    if m > 0 && n > 0 {
      var p := base + "-";
      assert Decimal(m) == (p + Decimal(m))[|p|..];
      assert Decimal(n) == (p + Decimal(n))[|p|..];
      DecimalInjective(m, n);
    } else {
      assert m > 0 ==> |Candidate(base, m)| > |base|;
      assert n > 0 ==> |Candidate(base, n)| > |base|;
    }
  }

  /** `_branch_exists` on the n-th name: a failing show-ref reads as "no". */
  predicate Taken(branches: map<string, nat>, b: Branching, n: nat) {
    Candidate(b.Base(), n) in branches && n !in b.showRefFails
  }

  ghost function NamesBelow(base: string, n: nat): set<string> {
    set i | 0 <= i < n :: Candidate(base, i)
  }

  lemma OneMoreName(branches: map<string, nat>, b: Branching, n: nat)
    requires NamesBelow(b.Base(), n) <= branches.Keys && Taken(branches, b, n)
    ensures NamesBelow(b.Base(), n + 1) <= branches.Keys
    ensures |branches.Keys - NamesBelow(b.Base(), n + 1)| < |branches.Keys - NamesBelow(b.Base(), n)|
  {
    var c := Candidate(b.Base(), n);
    assert NamesBelow(b.Base(), n + 1) == NamesBelow(b.Base(), n) + {c};
    forall i | 0 <= i < n ensures Candidate(b.Base(), i) != c {
      if Candidate(b.Base(), i) == c { CandidatesDistinct(b.Base(), i, n); }
    }
    var rest := branches.Keys - NamesBelow(b.Base(), n);
    assert c in rest;
    assert branches.Keys - NamesBelow(b.Base(), n + 1) == rest - {c};
  }

  /** The first name, from the n-th on, that does not read as taken. It exists
      because the candidates are distinct and the branches finitely many. */
  function FreshIndex(branches: map<string, nat>, b: Branching, n: nat): (k: nat)
    requires NamesBelow(b.Base(), n) <= branches.Keys
    ensures n <= k && !Taken(branches, b, k)
    ensures forall i :: n <= i < k ==> Taken(branches, b, i)
    decreases |branches.Keys - NamesBelow(b.Base(), n)|
  {
    if Taken(branches, b, n) then (OneMoreName(branches, b, n); FreshIndex(branches, b, n + 1)) else n
  }

  function FreshName(branches: map<string, nat>, b: Branching): (name: string)
    ensures b.showRefFails == {} ==> name !in branches
  {
    Candidate(b.Base(), FreshIndex(branches, b, 0))
  }

  /** The loop of `create_timestamped_branch`. */
  method FindFreshName(branches: map<string, nat>, b: Branching) returns (name: string)
    ensures name == FreshName(branches, b)
    ensures b.showRefFails == {} ==> name !in branches
  {
    name := b.Base();
    var n := 1;
    while name in branches && (n - 1) !in b.showRefFails
      invariant n >= 1 && name == Candidate(b.Base(), n - 1)
      invariant forall i :: 0 <= i < n - 1 ==> Taken(branches, b, i)
      invariant NamesBelow(b.Base(), n - 1) <= branches.Keys
      decreases |branches.Keys - NamesBelow(b.Base(), n - 1)|
    {
      OneMoreName(branches, b, n - 1);
      name := b.Base() + "-" + Decimal(n);
      n := n + 1;
    }
    assert NamesBelow(b.Base(), 0) <= branches.Keys;
    var k := FreshIndex(branches, b, 0);
    assert !Taken(branches, b, n - 1) && !Taken(branches, b, k);
    assert k == n - 1;
  }

  // ------------------------------------------------------------------
  // Thread branches
  // ------------------------------------------------------------------

  datatype Error = NothingToMerge | Unpushed | MergeConflict(branch: string) | CommandFailed | OriginAdvanced

  datatype Result = Done | Raised(error: Error)

  function CreateBranch(r: Repo, b: Branching, start: nat): (Repo, bool) {
    NewBranch(r, FreshName(r.branches, b), start, b.checkoutOk)
  }

  /** The branch HEAD ends up on, or None when branching raised. */
  function EnsureThreadBranch(r: Repo, readHead: bool, b: Branching): (Repo, Option<string>)
    requires "main" in r.branches
    requires r.head.On? ==> r.head.branch in r.branches
  {
    var branch := CurrentBranch(r, readHead);
    if branch == "HEAD" then
      var (s, ok) := CreateBranch(r, b, HeadCommit(r));
      (s, if ok then Some(FreshName(r.branches, b)) else None)
    else if branch != "main" then (r, Some(branch))
    else
      var (s, ok) := CreateBranch(r, b, Main(r));
      (s, if ok then Some(FreshName(r.branches, b)) else None)
  }

  // ------------------------------------------------------------------
  // sync
  // ------------------------------------------------------------------

  datatype SyncPlan = SyncPlan(abort: bool, readHead: bool, rebranch: Branching,
                               add: bool, quiet: bool, commit: bool)

  /** `git_commit`: stage everything, commit if anything is staged. */
  function GitCommit(r: Repo, p: SyncPlan): (Repo, Result)
    requires r.head.On? ==> r.head.branch in r.branches
    requires HeadCommit(r) < |r.commits|
  {
    if !p.add then (r, Raised(CommandFailed))
    else
      var staged := r.(index := r.work);
      if p.quiet && staged.index == TreeOf(staged, HeadCommit(staged)) then (staged, Done)
      else
        var (s, ok) := CommitStaged(staged, p.commit);
        (s, if ok then Done else Raised(CommandFailed))
  }

  /** `_abort_inprogress_rebase`. */
  function AbortInProgress(r: Repo, ok: bool): (Repo, bool)
    requires r.rebasing.Some? ==> r.rebasing.value.original < |r.commits|
  {
    if r.rebasing.None? then (r, true) else RebaseAbort(r, ok)
  }

  function Sync(r: Repo, p: SyncPlan): (Repo, Result)
    requires "main" in r.branches
    requires r.rebasing.Some? ==> r.rebasing.value.original < |r.commits|
    requires Settles(AbortInProgress(r, p.abort).0, p)
  {
    var (r1, clear) := AbortInProgress(r, p.abort);
    if !clear then (r1, Done)
    else
      var (r2, branch) := EnsureThreadBranch(r1, p.readHead, p.rebranch);
      if branch.None? then (r2, Raised(CommandFailed)) else GitCommit(r2, p)
  }

  /** HEAD and main resolve before and after the thread branch is ensured. */
  predicate Settles(r: Repo, p: SyncPlan) {
    && "main" in r.branches && (r.head.On? ==> r.head.branch in r.branches)
    && var s := EnsureThreadBranch(r, p.readHead, p.rebranch).0;
       (s.head.On? ==> s.head.branch in s.branches) && HeadCommit(s) < |s.commits|
  }

  lemma EnsureKeepsValid(r: Repo, readHead: bool, b: Branching)
    requires Valid(r)
    ensures Valid(EnsureThreadBranch(r, readHead, b).0)
    ensures EnsureThreadBranch(r, readHead, b).0.commits == r.commits
  {
    NewBranchKeepsValid(r, FreshName(r.branches, b), HeadCommit(r), b.checkoutOk);
    NewBranchKeepsValid(r, FreshName(r.branches, b), Main(r), b.checkoutOk);
  }

  lemma ValidSettles(r: Repo, p: SyncPlan)
    requires Valid(r)
    ensures Valid(AbortInProgress(r, p.abort).0) && Settles(AbortInProgress(r, p.abort).0, p)
  {
    RebaseAbortKeepsValid(r, p.abort);
    EnsureKeepsValid(AbortInProgress(r, p.abort).0, p.readHead, p.rebranch);
  }

  /** A rebase of main is stopped half-way. */
  predicate RebasingMain(r: Repo) {
    r.rebasing.Some? && r.rebasing.value.branch == Some("main")
  }

  /** The commit on main that `sync` must not make: HEAD is on main, the branch could
      not be read, so no thread branch was made, and there was something to commit. */
  predicate CommitsOnMain(r: Repo, p: SyncPlan)
    requires "main" in r.branches && r.branches["main"] < |r.commits|
  {
    && r.rebasing.None? && OnMain(r) && !p.readHead
    && p.add && p.commit && r.work != TreeOf(r, Main(r))
  }

  lemma FreshIsNotMain(branches: map<string, nat>, b: Branching)
    ensures FreshName(branches, b) != "main"
  {
    assert FreshName(branches, b)[0] == 'a' && "main"[0] == 'm';
  }

  /** Ensuring the thread branch leaves main alone, and HEAD on main only if it was
      there and could not be read. */
  lemma EnsureLeavesMain(r: Repo, readHead: bool, b: Branching)
    requires Valid(r)
    ensures var (s, branch) := EnsureThreadBranch(r, readHead, b);
            && Valid(s) && s.commits == r.commits && Main(s) == Main(r) && HeadCommit(s) == HeadCommit(r)
            && s.index == r.index && s.work == r.work && s.rebasing == r.rebasing
            && (branch.Some? ==> (OnMain(s) <==> OnMain(r) && !readHead))
  {
    EnsureKeepsValid(r, readHead, b);
    FreshIsNotMain(r.branches, b);
  }

  /** `git_commit` moves main only when HEAD is on it and there is something to commit. */
  lemma GitCommitMain(r: Repo, p: SyncPlan)
    requires Valid(r)
    ensures var s := GitCommit(r, p).0;
            && Valid(s) && r.commits <= s.commits
            && if OnMain(r) && p.add && p.commit && r.work != TreeOf(r, Main(r))
               then Main(s) == |r.commits| && s.commits == r.commits + [Commit([Main(r)], r.work)]
               else Main(s) == Main(r)
  {
    CommitKeepsValid(r.(index := r.work), p.commit);
  }

  /** Where `sync` leaves main, whatever fails: where the abort of a rebase of main puts
      it, else where it was, but for the one commit above. */
  lemma SyncLeavesMainAlone(r: Repo, p: SyncPlan)
    requires Valid(r)
    ensures Valid(AbortInProgress(r, p.abort).0) && Settles(AbortInProgress(r, p.abort).0, p)
    ensures var s := Sync(r, p).0;
            && Valid(s) && r.commits <= s.commits
            && (Main(s) == Main(r) <==>
                  if RebasingMain(r) && p.abort then r.rebasing.value.original == Main(r) else !CommitsOnMain(r, p))
            && (RebasingMain(r) && p.abort ==> Main(s) == r.rebasing.value.original)
            && (CommitsOnMain(r, p) ==>
                  Main(s) == |r.commits| && s.commits == r.commits + [Commit([Main(r)], r.work)])
  {
    ValidSettles(r, p);
    var (r1, clear) := AbortInProgress(r, p.abort);
    if clear {
      EnsureLeavesMain(r1, p.readHead, p.rebranch);
      GitCommitMain(EnsureThreadBranch(r1, p.readHead, p.rebranch).0, p);
    }
  }

  /** Such a commit on main: a clone on main with one edit, where reading HEAD is all that
      fails. `sync` reports success. */
  lemma SyncCanCommitOnMain() returns (r: Repo, p: SyncPlan)
    ensures Valid(r) && OnMain(r) && p == SyncPlan(true, false, p.rebranch, true, true, true)
    ensures p.rebranch.checkoutOk && p.rebranch.showRefFails == {}
    ensures Valid(AbortInProgress(r, p.abort).0) && Settles(AbortInProgress(r, p.abort).0, p)
    ensures Sync(r, p).1 == Done && Main(Sync(r, p).0) != Main(r)
  {
    r := Repo([Commit([], 0)], map["main" := 0], On("main"), 0, 0, 0, 1, None);
    p := SyncPlan(true, false, Branching("20260101-000000", {}, true), true, true, true);
    SyncLeavesMainAlone(r, p);
  }

  /** The one way in which `sync` can take commits off main: it aborts a rebase of main
      that started where main no longer is, or at a place that main has left behind. */
  predicate SyncRewinds(r: Repo, p: SyncPlan)
    requires Sound(r.commits) && "main" in r.branches
    requires r.rebasing.Some? ==> r.rebasing.value.original < |r.commits|
  {
    RebasingMain(r) && p.abort && !Ancestor(r.commits, Main(r), r.rebasing.value.original)
  }

  lemma SyncMovesMainForwardExactlyWhen(r: Repo, p: SyncPlan)
    requires Valid(r)
    ensures Valid(AbortInProgress(r, p.abort).0) && Settles(AbortInProgress(r, p.abort).0, p)
    ensures var s := Sync(r, p).0;
            && Valid(s) && r.commits <= s.commits
            && (Ancestor(s.commits, Main(r), Main(s)) <==> !SyncRewinds(r, p))
  {
    SyncLeavesMainAlone(r, p);
    var s := Sync(r, p).0;
    if CommitsOnMain(r, p) {
      ChildAncestry(r.commits, Commit([Main(r)], r.work), Main(r), Main(r));
    } else {
      OldAncestry(r.commits, s.commits, Main(r), Main(s));
    }
  }

  /** A `sync` that succeeds, and had no rebase left to abort, has all edits in a commit
      that is, or is a child of, the commit HEAD was at; and HEAD is on a branch other
      than main exactly when HEAD could be read or was on one already. */
  lemma SyncAnchorsWork(r: Repo, p: SyncPlan)
    requires Valid(r) && (r.rebasing.None? || p.abort)
    ensures Valid(AbortInProgress(r, p.abort).0) && Settles(AbortInProgress(r, p.abort).0, p)
    ensures var r1 := AbortInProgress(r, p.abort).0;
            var (s, result) := Sync(r, p);
            result == Done ==>
              && Valid(s)
              && (s.head.On? && !OnMain(s) <==> p.readHead || (r1.head.On? && !OnMain(r1)))
              && Ancestor(s.commits, HeadCommit(r1), HeadCommit(s))
              && TreeOf(s, HeadCommit(s)) == r1.work
  {
    ValidSettles(r, p);
    var r1 := AbortInProgress(r, p.abort).0;
    EnsureLeavesMain(r1, p.readHead, p.rebranch);
    var (r2, branch) := EnsureThreadBranch(r1, p.readHead, p.rebranch);
    if branch.Some? && p.add {
      CommitAnchors(r2.(index := r2.work), p.commit);
    }
  }

  /** When `sync` reports no error: it leaves a rebase alone that it cannot abort; else the
      thread branch was made if one was needed, and what there was to commit was. */
  lemma SyncSucceedsExactlyWhen(r: Repo, p: SyncPlan)
    requires Valid(r)
    ensures Valid(AbortInProgress(r, p.abort).0) && Settles(AbortInProgress(r, p.abort).0, p)
    ensures var r1 := AbortInProgress(r, p.abort).0;
            var named := p.readHead && r1.head.On? && !OnMain(r1);
            var staged := r1.work != TreeOf(r1, HeadCommit(r1));
            Sync(r, p).1 == Done <==>
              || (r.rebasing.Some? && !p.abort)
              || (&& (|| !p.readHead || named
                      || (p.rebranch.checkoutOk && FreshName(r1.branches, p.rebranch) !in r1.branches))
                  && p.add && (if staged then p.commit else p.quiet))
  {
    ValidSettles(r, p);
    var r1 := AbortInProgress(r, p.abort).0;
    EnsureLeavesMain(r1, p.readHead, p.rebranch);
    FreshIsNotHead(r1.branches, p.rebranch);
  }

  lemma FreshIsNotHead(branches: map<string, nat>, b: Branching)
    ensures FreshName(branches, b) != "HEAD" && FreshName(branches, b) != ""
  {
    assert FreshName(branches, b)[0] == 'a' && "HEAD"[0] == 'H';
  }

  lemma CommitAnchors(r: Repo, ok: bool)
    requires Valid(r)
    ensures var (s, done) := CommitStaged(r, ok);
            && Valid(s) && (s.head.On? <==> r.head.On?) && (OnMain(s) <==> OnMain(r))
            && (done ==> Ancestor(s.commits, HeadCommit(r), HeadCommit(s)) && TreeOf(s, HeadCommit(s)) == r.index)
  {
    CommitKeepsValid(r, ok);
    if CommitStaged(r, ok).1 {
      ParentIsAncestor(r.commits, Commit([HeadCommit(r)], r.index), HeadCommit(r));
    }
  }

  // ------------------------------------------------------------------
  // fetch_origin
  // ------------------------------------------------------------------

  datatype FetchPlan = FetchPlan(fetch: bool, readHead: bool, isAncestor: bool, updateRef: bool)

  /** `fetch_origin` and `_fast_forward_local_main`. */
  ghost function FetchOrigin(r: Repo, p: FetchPlan): Repo
    requires Valid(r)
  {
    if !p.fetch then r
    else
      var r1 := Fetch(r, true);
      if CurrentBranch(r1, p.readHead) == "main" then r1
      else if p.isAncestor && Ancestor(r1.commits, Main(r1), r1.tracking) && p.updateRef
      then r1.(branches := r1.branches["main" := r1.tracking])
      else r1
  }

  /** `fetch_origin` fast-forwards main to the server's exactly when it is behind and not
      read as checked out, and the commands work; main goes nowhere else. */
  lemma FetchMovesMainForward(r: Repo, p: FetchPlan)
    requires Valid(r)
    ensures Valid(FetchOrigin(r, p))
    ensures Ancestor(r.commits, Main(r), Main(FetchOrigin(r, p)))
    ensures var s := FetchOrigin(r, p);
            var forward := && p.fetch && p.isAncestor && p.updateRef && !(p.readHead && OnMain(r))
                           && Ancestor(r.commits, Main(r), r.remote);
            && Main(s) == (if forward then r.remote else Main(r))
            && s.tracking == (if p.fetch then r.remote else r.tracking)
            && s.head == r.head && s.commits == r.commits && s.remote == r.remote
            && s.index == r.index && s.work == r.work && s.rebasing == r.rebasing
            && forall b :: b != "main" ==>
                 (b in s.branches <==> b in r.branches) && (b in r.branches ==> s.branches[b] == r.branches[b])
  {
  }
}
