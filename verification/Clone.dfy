/**
 * The operations of assist/domain_manager.py in place: a clone whose repository each
 * git command changes, with the flag and the recovery of `merge_to_main`, proved
 * against the functions whose consequences `Merge` and `Publish` draw.
 */
module Clone {
  import opened Common
  import opened Git
  import opened DomainManager
  import M = Merge
  import P = Publish

  class Clone {
    var repo: Repo

    constructor (repo: Repo)
      ensures this.repo == repo
    {
      this.repo := repo;
    }

    /** Run one command: keep its repository, report whether it worked. */
    method Run(outcome: (Repo, bool)) returns (ok: bool)
      modifies this
      ensures repo == outcome.0 && ok == outcome.1
    {
      repo := outcome.0;
      ok := outcome.1;
    }

    method CreateTimestampedBranch(b: Branching, start: nat) returns (ok: bool, name: string)
      modifies this
      ensures (repo, ok) == CreateBranch(old(repo), b, start) && name == FreshName(old(repo).branches, b)
    {
      name := FindFreshName(repo.branches, b);
      ok := Run(NewBranch(repo, name, start, b.checkoutOk));
    }

    method EnsureThreadBranch(readHead: bool, b: Branching) returns (branch: Option<string>)
      requires Valid(repo)
      modifies this
      ensures (repo, branch) == DomainManager.EnsureThreadBranch(old(repo), readHead, b)
    {
      var current := CurrentBranch(repo, readHead);
      if current != "HEAD" && current != "main" {
        return Some(current);
      }
      var start := if current == "HEAD" then HeadCommit(repo) else Main(repo);
      var ok, name := CreateTimestampedBranch(b, start);
      branch := if ok then Some(name) else None;
    }

    method Sync(p: SyncPlan) returns (result: Result)
      requires Valid(repo)
      modifies this
      ensures Settles(AbortInProgress(old(repo), p.abort).0, p)
      ensures (repo, result) == DomainManager.Sync(old(repo), p)
    {
      ValidSettles(repo, p);
      var clear := true;
      if repo.rebasing.Some? {
        clear := Run(RebaseAbort(repo, p.abort));
      }
      if !clear { return Done; }
      EnsureKeepsValid(repo, p.readHead, p.rebranch);
      var branch := EnsureThreadBranch(p.readHead, p.rebranch);
      if branch.None? { return Raised(CommandFailed); }
      if !p.add { return Raised(CommandFailed); }
      repo := repo.(index := repo.work);
      if p.quiet && repo.index == TreeOf(repo, HeadCommit(repo)) { return Done; }
      var ok := Run(CommitStaged(repo, p.commit));
      result := if ok then Done else Raised(CommandFailed);
    }

    /** The protected window: `squashed` says whether a real merge landed on main. */
    method Window(p: M.MergePlan, branch: string) returns (squashed: bool, completed: bool)
      requires Valid(repo)
      modifies this
      ensures M.Window(repo, squashed, completed) == M.RunWindow(old(repo), p, branch)
    {
      ghost var r := repo;
      M.WindowShape(r, p, branch);
      M.OntoOriginMainShape(r, p);
      squashed, completed := false, false;
      var ok := Run(Checkout(repo, "main", p.checkoutMain));
      if !ok { return; }
      ok := Run(ResetHard(repo, p.reset));
      if !ok { return; }
      M.SquashCommitShape(repo, p, branch);
      ok := Run(Squash(repo, branch, p.merged, p.squash));
      if !ok { return; }
      ok := Run(CommitStaged(repo, p.commit));
      if !ok { return; }
      squashed := true;
      var name;
      completed, name := CreateTimestampedBranch(p.rebranch, Main(repo));
    }

    /** Checks, fetch and rebase: an error to raise, or the branch to merge. */
    method Prepare(p: M.MergePlan) returns (stop: Option<Error>, branch: string)
      requires Valid(repo)
      modifies this
      ensures M.Prepare(old(repo), p) == if stop.Some? then M.Stops(repo, stop.value) else M.Ready(repo, branch)
    {
      branch := CurrentBranch(repo, p.readHead);
      if branch == "main" { return Some(NothingToMerge), branch; }
      if p.diff.DiffFails? { return Some(CommandFailed), branch; }
      if p.diff.NoDiff? { return Some(NothingToMerge), branch; }
      if !p.fetch { return Some(CommandFailed), branch; }
      repo := Fetch(repo, true);
      if p.revList && !Ancestor(repo.commits, Main(repo), repo.tracking) { return Some(Unpushed), branch; }
      RebaseKeepsValid(repo, p.fate);
      var ok := Run(Rebase(repo, p.fate));
      if ok { return None, branch; }
      var stopped := repo.rebasing.Some?;
      var aborted := Run(RebaseAbort(repo, p.abort));
      stop := Some(if p.filesListed && stopped then MergeConflict(branch) else CommandFailed);
    }

    /** The `except` block: keep the merge and branch anew, or go back. */
    method Recover(p: M.MergePlan, branch: string, squashed: bool)
      requires Valid(repo)
      modifies this
      ensures repo == M.Recover(old(repo), p, branch, squashed)
    {
      if squashed {
        var anew := EnsureThreadBranch(p.rereadHead, p.rebranchAgain);
      } else {
        var back := Run(Checkout(repo, branch, p.restore));
      }
    }

    method MergeToMain(p: M.MergePlan) returns (result: Result)
      requires Valid(repo)
      modifies this
      ensures (repo, result) == M.MergeToMain(old(repo), p)
      ensures Valid(repo)
    {
      M.PrepareKeepsValid(repo, p);
      M.MergeKeepsValid(repo, p);
      var stop, branch := Prepare(p);
      if stop.Some? { return Raised(stop.value); }
      M.WindowShape(repo, p, branch);
      var squashed, completed := Window(p, branch);
      if completed { return Done; }
      Recover(p, branch, squashed);
      result := Raised(CommandFailed);
    }

    method PushMain(q: P.PushPlan) returns (result: Result)
      requires Valid(repo)
      modifies this
      ensures (repo, result) == P.PushMainTo(old(repo), q)
      ensures Valid(repo)
    {
      P.PushNeverOverwrites(repo, q);
      if !q.fetch { return Raised(CommandFailed); }
      repo := Fetch(repo, true);
      if !(q.isAncestor && Ancestor(repo.commits, repo.tracking, Main(repo))) { return Raised(OriginAdvanced); }
      repo := P.ServerMoves(repo, q.moved);
      var ok := Run(Git.PushMain(repo, q.push));
      result := if ok then Done else Raised(CommandFailed);
    }

    method MergeAndPush(p: P.PublishPlan) returns (result: Result)
      requires Valid(repo)
      modifies this
      ensures (repo, result) == P.MergeAndPush(old(repo), p)
    {
      P.PushNeverOverwrites(repo, p.first);
      var pushedPending := false;
      if p.unpushedRead && !Ancestor(repo.commits, Main(repo), repo.tracking) {
        result := PushMain(p.first);
        if result.Raised? { return; }
        pushedPending := true;
      }
      if CurrentBranch(repo, p.readHead) == "main" { return Raised(NothingToMerge); }
      if p.diff.DiffFails? { return Raised(CommandFailed); }
      if p.diff.NoDiff? { return if pushedPending then Done else Raised(NothingToMerge); }
      result := MergeToMain(p.merge);
      if result.Raised? { return; }
      result := PushMain(p.second);
    }
  }
}
