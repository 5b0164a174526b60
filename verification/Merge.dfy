/**
 * `merge_to_main`, `push_main` and `merge_and_push` of assist/domain_manager.py:
 * what they leave behind whatever command fails, and runs of the whole protocol.
 */
module Merge {
  import opened Common
  import opened Git
  import opened DomainManager

  datatype Diff = HasDiff | NoDiff | DiffFails

  /** What the environment contributes to one `merge_to_main`. */
  datatype MergePlan = MergePlan(
    readHead: bool, diff: Diff, fetch: bool, revList: bool,
    fate: RebaseFate, filesListed: bool, abort: bool,
    checkoutMain: bool, reset: bool, merged: Option<Tree>, squash: bool, commit: bool,
    rebranch: Branching,
    restore: bool, rereadHead: bool, rebranchAgain: Branching
  )

  /** The commands of the recovery path work. */
  predicate Recovers(p: MergePlan) {
    p.restore && p.rereadHead && p.rebranchAgain.checkoutOk && p.rebranchAgain.showRefFails == {}
  }

  datatype Prelude = Stops(repo: Repo, error: Error) | Ready(repo: Repo, branch: string)

  /** Everything before the protected window: checks, fetch and rebase. */
  ghost function Prepare(r: Repo, p: MergePlan): Prelude
    requires Valid(r)
  {
    var name := CurrentBranch(r, p.readHead);
    if name == "main" then Stops(r, NothingToMerge)
    else if p.diff.DiffFails? then Stops(r, CommandFailed)
    else if p.diff.NoDiff? then Stops(r, NothingToMerge)
    else if !p.fetch then Stops(r, CommandFailed)
    else
      var r1 := Fetch(r, true);
      if p.revList && !Ancestor(r1.commits, Main(r1), r1.tracking) then Stops(r1, Unpushed)
      else
        var (r2, ok) := Rebase(r1, p.fate);
        RebaseKeepsValid(r1, p.fate);
        if ok then Ready(r2, name)
        else Stops(RebaseAbort(r2, p.abort).0,
                   if p.filesListed && r2.rebasing.Some? then MergeConflict(name) else CommandFailed)
  }

  /** The recovery of the `except` block. */
  function Recover(r: Repo, p: MergePlan, branch: string, squashed: bool): Repo
    requires "main" in r.branches && (r.head.On? ==> r.head.branch in r.branches)
    requires HeadCommit(r) < |r.commits|
    requires forall b :: b in r.branches ==> r.branches[b] < |r.commits|
  {
    if squashed then EnsureThreadBranch(r, p.rereadHead, p.rebranchAgain).0
    else Checkout(r, branch, p.restore).0
  }

  /** Where the protected window ended: how far it got, and whether it completed. */
  datatype Window = Window(repo: Repo, squashed: bool, completed: bool)

  /** `checkout main` and `reset --hard origin/main`. */
  function OntoOriginMain(r: Repo, p: MergePlan): (Repo, bool)
    requires r.tracking < |r.commits|
    requires r.head.On? ==> r.head.branch in r.branches
    requires HeadCommit(r) < |r.commits|
    requires forall b :: b in r.branches ==> r.branches[b] < |r.commits|
  {
    var (a, ok) := Checkout(r, "main", p.checkoutMain);
    if ok then ResetHard(a, p.reset) else (a, false)
  }

  /** `merge --squash branch` and `commit`. */
  ghost function SquashCommit(r: Repo, p: MergePlan, branch: string): (Repo, bool)
    requires Valid(r)
  {
    var (c, ok) := Squash(r, branch, p.merged, p.squash);
    if ok then CommitStaged(c, p.commit) else (c, false)
  }

  ghost function RunWindow(r: Repo, p: MergePlan, branch: string): (w: Window)
    requires Valid(r)
  {
    OntoOriginMainShape(r, p);
    var (b, ok) := OntoOriginMain(r, p);
    if !ok then Window(b, false, false)
    else
      SquashCommitShape(b, p, branch);
      var (d, ok2) := SquashCommit(b, p, branch);
      if !ok2 then Window(d, false, false)
      else
        var (e, ok3) := CreateBranch(d, p.rebranch, Main(d));
        Window(e, true, ok3)
  }

  lemma OntoOriginMainShape(r: Repo, p: MergePlan)
    requires Valid(r)
    ensures var (b, ok) := OntoOriginMain(r, p);
            && Valid(b) && b.commits == r.commits
            && b.tracking == r.tracking && b.remote == r.remote && b.rebasing == r.rebasing
            && (!p.checkoutMain ==> !ok && b == r)
            && (p.checkoutMain ==> OnMain(b) && ok == p.reset)
            && b.branches == (if ok then r.branches["main" := r.tracking] else r.branches)
            && (ok ==> b.index == TreeOf(b, r.tracking))
  {
    CheckoutKeepsValid(r, "main", p.checkoutMain);
    var a := Checkout(r, "main", p.checkoutMain).0;
    ResetKeepsValid(a, p.reset);
  }

  lemma SquashCommitShape(r: Repo, p: MergePlan, branch: string)
    requires Valid(r) && OnMain(r) && r.index == TreeOf(r, Main(r))
    ensures var (d, ok) := SquashCommit(r, p, branch);
            && Valid(d) && OnMain(d)
            && d.tracking == r.tracking && d.remote == r.remote && d.rebasing == r.rebasing
            && (!ok ==> d.commits == r.commits && d.branches == r.branches)
            && (ok ==> d.commits == r.commits + [Commit([Main(r)], d.index)]
                       && d.branches == r.branches["main" := |r.commits|])
            && (ok && branch in r.branches && Ancestor(r.commits, Main(r), r.branches[branch]) ==>
                  d.index == TreeOf(r, r.branches[branch]))
            && (ok ==> branch in r.branches)
  {
    var c := Squash(r, branch, p.merged, p.squash).0;
    CommitKeepsValid(c, p.commit);
  }

  ghost function MergeToMain(r: Repo, p: MergePlan): (Repo, Result)
    requires Valid(r)
  {
    PrepareKeepsValid(r, p);
    match Prepare(r, p)
    case Stops(s, e) => (s, Raised(e))
    case Ready(s, name) =>
      WindowShape(s, p, name);
      var w := RunWindow(s, p, name);
      if w.completed then (w.repo, Done)
      else (Recover(w.repo, p, name, w.squashed), Raised(CommandFailed))
  }

  lemma PrepareKeepsValid(r: Repo, p: MergePlan)
    requires Valid(r)
    ensures Valid(Prepare(r, p).repo) && r.commits <= Prepare(r, p).repo.commits
  {
    var r1 := Fetch(r, true);
    RebaseKeepsValid(r1, p.fate);
    RebaseAbortKeepsValid(Rebase(r1, p.fate).0, p.abort);
  }

  // ------------------------------------------------------------------
  // The window
  // ------------------------------------------------------------------

  /** What the window does to HEAD and the refs: from the checkout to the commit HEAD
      is on main; only main moves, to origin/main and then to one squash commit. */
  lemma WindowShape(r: Repo, p: MergePlan, branch: string)
    requires Valid(r)
    ensures var w := RunWindow(r, p, branch);
            var onto := p.checkoutMain && p.reset;
            && Valid(w.repo)
            && w.repo.tracking == r.tracking && w.repo.remote == r.remote && w.repo.rebasing == r.rebasing
            && (w.squashed ==> onto && branch in r.branches)
            && (w.completed ==> w.squashed)
            && (!p.checkoutMain ==> w.repo == r)
            && (p.checkoutMain && !w.completed ==> OnMain(w.repo))
            && (if w.squashed
                then exists t :: w.repo.commits == r.commits + [Commit([r.tracking], t)]
                else w.repo.commits == r.commits)
            && (if w.squashed then Main(w.repo) == |r.commits|
                else Main(w.repo) == if onto then r.tracking else Main(r))
            && (forall b :: b in r.branches && b != "main" ==>
                  b in w.repo.branches && w.repo.branches[b] == r.branches[b])
            && (!w.completed ==> w.repo.branches.Keys == r.branches.Keys)
            && (w.completed ==>
                  w.repo.head.On? && w.repo.head.branch !in r.branches && HeadCommit(w.repo) == Main(w.repo))
  {
    OntoOriginMainShape(r, p);
    var (b, ok) := OntoOriginMain(r, p);
    if ok {
      SquashCommitShape(b, p, branch);
      var (d, ok2) := SquashCommit(b, p, branch);
      if ok2 {
        assert d.commits == r.commits + [Commit([r.tracking], d.index)];
        NewBranchKeepsValid(d, FreshName(d.branches, p.rebranch), Main(d), p.rebranch.checkoutOk);
      }
    }
  }

  lemma MergeKeepsValid(r: Repo, p: MergePlan)
    requires Valid(r)
    ensures Valid(MergeToMain(r, p).0)
  {
    PrepareKeepsValid(r, p);
    var pre := Prepare(r, p);
    if pre.Ready? {
      var w := RunWindow(pre.repo, p, pre.branch);
      WindowShape(pre.repo, p, pre.branch);
      EnsureKeepsValid(w.repo, p.rereadHead, p.rebranchAgain);
      CheckoutKeepsValid(w.repo, pre.branch, p.restore);
    }
  }

  // ------------------------------------------------------------------
  // Never stranded on main
  // ------------------------------------------------------------------

  /** Do the checks let the merge through to its rebase? */
  ghost predicate ReachesRebase(r: Repo, p: MergePlan)
    requires Valid(r)
  {
    && CurrentBranch(r, p.readHead) != "main" && p.diff.HasDiff? && p.fetch
    && (p.revList ==> Ancestor(r.commits, Main(r), r.remote))
  }

  /** Is HEAD on main after `merge_to_main`, if the recovery commands work? It is when
      it was there and nothing moved it: the checks stop, or the rebase fails and its
      abort does not leave HEAD detached. A stuck rebase of main puts it there when it
      is aborted. Past the rebase it is when the name that was read is no branch
      ("HEAD" when detached, "" when unread) and main is checked out. */
  ghost predicate Strands(r: Repo, p: MergePlan)
    requires Valid(r)
  {
    if !ReachesRebase(r, p) then OnMain(r)
    else if r.rebasing.Some? then (if p.abort then RebasingMain(r) else OnMain(r))
    else if RebaseWorks(Fetch(r, true), p.fate) then !(p.readHead && r.head.On?) && (p.checkoutMain || OnMain(r))
    else OnMain(r) && (p.abort || Dirty(r) || !p.fate.Conflicts?)
  }

  /** A rebase that fails, and the abort after it. */
  lemma FailedRebase(r: Repo, fate: RebaseFate, abort: bool)
    requires Valid(r)
    ensures Rebase(r, fate).1 <==> RebaseWorks(r, fate)
    ensures Valid(Rebase(r, fate).0)
    ensures var s := RebaseAbort(Rebase(r, fate).0, abort).0;
            !RebaseWorks(r, fate) ==>
              && Valid(s) && s.commits == r.commits
              && (OnMain(s) <==> if r.rebasing.Some? then (if abort then RebasingMain(r) else OnMain(r))
                                 else OnMain(r) && (abort || Dirty(r) || !fate.Conflicts?))
              && Main(s) == (if RebasingMain(r) && abort then r.rebasing.value.original else Main(r))
  {
    RebaseKeepsValid(r, fate);
    RebaseAbortKeepsValid(Rebase(r, fate).0, abort);
  }

  /** The prelude is its checks, and then the rebase. */
  lemma PreludeSteps(r: Repo, p: MergePlan)
    requires Valid(r)
    ensures !ReachesRebase(r, p) ==> Prepare(r, p).Stops? && Prepare(r, p).repo in {r, Fetch(r, true)}
    ensures var (s, ok) := Rebase(Fetch(r, true), p.fate);
            ReachesRebase(r, p) ==>
              && Valid(s) && Prepare(r, p).Ready? == ok
              && Prepare(r, p).repo == if ok then s else RebaseAbort(s, p.abort).0
  {
    RebaseKeepsValid(Fetch(r, true), p.fate);
  }

  /** What the prelude leaves when it stops. */
  lemma StoppedPrelude(r: Repo, p: MergePlan)
    requires Valid(r)
    ensures Prepare(r, p).Ready? <==> ReachesRebase(r, p) && RebaseWorks(Fetch(r, true), p.fate)
    ensures var s := Prepare(r, p).repo;
            Prepare(r, p).Stops? ==>
              && Valid(s) && s.commits == r.commits
              && (OnMain(s) <==> Strands(r, p))
              && Main(s) == (if ReachesRebase(r, p) && RebasingMain(r) && p.abort then r.rebasing.value.original
                             else Main(r))
  {
    PreludeSteps(r, p);
    FailedRebase(Fetch(r, true), p.fate, p.abort);
  }

  /** For every plan whose recovery commands work, the predicate above says exactly when
      a merge ends on main. */
  lemma StrandedExactlyWhen(r: Repo, p: MergePlan)
    requires Valid(r) && Recovers(p)
    ensures OnMain(MergeToMain(r, p).0) <==> Strands(r, p)
  {
    PrepareKeepsValid(r, p);
    StoppedPrelude(r, p);
    var pre := Prepare(r, p);
    if pre.Ready? {
      var s, name := pre.repo, pre.branch;
      NameReadFromHead(r, p);
      WindowShape(s, p, name);
      var w := RunWindow(s, p, name);
      if !w.completed && w.squashed {
        NewBranchMoves(w.repo, p.rebranchAgain);
      }
    }
  }

  /** A fresh thread branch can always be made from main if checkout works. */
  lemma NewBranchMoves(r: Repo, b: Branching)
    requires Valid(r) && b.checkoutOk && b.showRefFails == {}
    ensures CreateBranch(r, b, Main(r)).1
  {
    var name := FreshName(r.branches, b);
    assert name[0] == 'a' && "HEAD"[0] == 'H';
  }

  /** The name the window works with: the branch HEAD is on, if it was read. */
  lemma NameReadFromHead(r: Repo, p: MergePlan)
    requires Valid(r) && Prepare(r, p).Ready?
    ensures var pre := Prepare(r, p);
            && Valid(pre.repo)
            && pre.branch != "main"
            && (pre.branch in pre.repo.branches <==> p.readHead && r.head.On?)
            && (pre.branch in pre.repo.branches ==> pre.repo.head == r.head == On(pre.branch))
            && (r.head.On? ==> pre.repo.head == r.head)
            && Ancestor(pre.repo.commits, pre.repo.tracking, HeadCommit(pre.repo))
            && pre.repo.tracking == r.remote && pre.repo.remote == r.remote && r.commits <= pre.repo.commits
            && (!OnMain(r) ==> Main(pre.repo) == Main(r))
            && (p.revList ==> Ancestor(r.commits, Main(r), r.remote))
  {
    PrepareKeepsValid(r, p);
    RebaseEndsOnTop(Fetch(r, true), p.fate);
  }

  /** Where the thread is after the window and its recovery. */
  lemma RecoveryShape(q: Repo, p: MergePlan, b: string)
    requires Valid(q) && Recovers(p) && b in q.branches && b != "main" && q.head == On(b)
    ensures var w := RunWindow(q, p, b);
            Valid(w.repo) &&
            var s := if w.completed then w.repo else Recover(w.repo, p, b, w.squashed);
            && Valid(s) && b in s.branches && s.branches[b] == q.branches[b]
            && (Main(s) >= |q.commits| <==> w.squashed)
            && (if w.squashed then s.head.On? && s.head.branch !in q.branches && HeadCommit(s) == Main(s)
                else s.head == On(b))
  {
    WindowShape(q, p, b);
    var w := RunWindow(q, p, b);
    CheckoutKeepsValid(w.repo, b, p.restore);
    EnsureKeepsValid(w.repo, p.rereadHead, p.rebranchAgain);
    if !w.completed && w.squashed { NewBranchMoves(w.repo, p.rebranchAgain); }
  }

  /** A prelude that stops leaves the thread on its branch, or detached when aborting a
      conflicted rebase fails. */
  lemma PreludeKeepsTheThread(r: Repo, p: MergePlan)
    requires Valid(r) && p.readHead && r.head.On? && !OnMain(r) && r.rebasing.None? && Prepare(r, p).Stops?
    ensures var s, b := Prepare(r, p).repo, r.head.branch;
            && Valid(s) && !OnMain(s) && b in s.branches && s.branches[b] == r.branches[b]
            && (s.head == On(b) || (s.head.Detached? && s.rebasing.Some? && !p.abort))
  {
    PrepareKeepsValid(r, p);
    RebaseKeepsValid(Fetch(r, true), p.fate);
  }

  /** A thread on its own branch is never left on main, whatever else fails, and its commits
      (rebased or not) stay in place: HEAD ends on a fresh branch at main exactly when the
      squash commit is in main; before that the merge raises, with HEAD on the thread branch,
      or detached when aborting a conflicted rebase fails. */
  lemma ThreadIsNeverStranded(r: Repo, p: MergePlan)
    requires Valid(r) && Recovers(p) && p.readHead && r.head.On? && !OnMain(r) && r.rebasing.None?
    ensures var (s, result) := MergeToMain(r, p);
            var b := r.head.branch;
            && Valid(s) && !OnMain(s)
            && b in s.branches
            && s.branches[b] == (if Prepare(r, p).Ready? then Prepare(r, p).repo.branches[b] else r.branches[b])
            && (Prepare(r, p).Ready? ==>
                  if Main(s) >= |Prepare(r, p).repo.commits|
                  then s.head.On? && s.head.branch !in r.branches && HeadCommit(s) == Main(s)
                  else result.Raised? && s.head == On(b))
            && (Prepare(r, p).Stops? ==>
                  result.Raised? && (s.head == On(b) || (s.head.Detached? && s.rebasing.Some? && !p.abort)))
  {
    PrepareKeepsValid(r, p);
    StrandedExactlyWhen(r, p);
    if Prepare(r, p).Ready? {
      NameReadFromHead(r, p);
      RebaseEndsOnTop(Fetch(r, true), p.fate);
      RecoveryShape(Prepare(r, p).repo, p, r.head.branch);
    } else {
      PreludeKeepsTheThread(r, p);
    }
  }

  /** A merge started with HEAD detached ends on main as soon as its checkout of main
      works, even if every later command and the whole recovery work too: "HEAD" then
      names main itself, so nothing is squashed and the recovery goes nowhere. */
  lemma DetachedMergeIsStranded(r: Repo, p: MergePlan)
    requires Valid(r) && Recovers(p) && p.readHead && r.head.Detached?
    requires Prepare(r, p).Ready? && p.checkoutMain
    ensures OnMain(MergeToMain(r, p).0) && MergeToMain(r, p).1 == Raised(CommandFailed)
  {
    NameReadFromHead(r, p);
    PrepareKeepsValid(r, p);
    StrandedExactlyWhen(r, p);
    WindowShape(Prepare(r, p).repo, p, Prepare(r, p).branch);
  }

  /** Such a merge exists: one commit, HEAD detached at it, no failing command. */
  lemma DetachedMergeExample() returns (r: Repo, p: MergePlan)
    ensures Valid(r) && r.head.Detached? && Recovers(p)
    ensures p.readHead && p.diff.HasDiff? && p.fetch && p.revList && p.checkoutMain && p.reset && p.squash && p.commit
    ensures p.rebranch.checkoutOk && p.rebranch.showRefFails == {}
    ensures OnMain(MergeToMain(r, p).0)
  {
    var b := Branching("20260101-000000", {}, true);
    r := Repo([Commit([], 0)], map["main" := 0], Detached(0), 0, 0, 0, 0, None);
    p := MergePlan(true, HasDiff, true, true, Replays([]), true, true, true, true, None, true, true, b, true, true, b);
    assert Ancestor(r.commits, 0, 0);
    DetachedMergeIsStranded(r, p);
  }

  // ------------------------------------------------------------------
  // Main only moves forward
  // ------------------------------------------------------------------

  /** The recovery moves HEAD, not main. */
  lemma RecoverLeavesMain(w: Repo, p: MergePlan, branch: string, squashed: bool)
    requires Valid(w)
    ensures var s := Recover(w, p, branch, squashed);
            Valid(s) && s.commits == w.commits && Main(s) == Main(w) && s.rebasing == w.rebasing
  {
    EnsureKeepsValid(w, p.rereadHead, p.rebranchAgain);
    CheckoutKeepsValid(w, branch, p.restore);
  }

  /** What a merge that reached its window leaves is what the window left. */
  lemma MergeEndsAsItsWindow(r: Repo, p: MergePlan)
    requires Valid(r) && Prepare(r, p).Ready?
    ensures var s := MergeToMain(r, p).0;
            Valid(Prepare(r, p).repo) &&
            var w := RunWindow(Prepare(r, p).repo, p, Prepare(r, p).branch);
            && Valid(w.repo) && Valid(s)
            && s.commits == w.repo.commits && Main(s) == Main(w.repo) && s.rebasing == w.repo.rebasing
  {
    PrepareKeepsValid(r, p);
    var pre := Prepare(r, p);
    WindowShape(pre.repo, p, pre.branch);
    var w := RunWindow(pre.repo, p, pre.branch);
    RecoverLeavesMain(w.repo, p, pre.branch, w.squashed);
  }

  /** The ways in which `merge_to_main` can take commits off main: aborting a rebase of
      main that started where main no longer is; and resetting main, or rebasing it under
      a HEAD that could not be read, when the server's main does not contain it. */
  ghost predicate MergeRewinds(r: Repo, p: MergePlan)
    requires Valid(r)
  {
    ReachesRebase(r, p) &&
    if r.rebasing.Some? then RebasingMain(r) && p.abort && !Ancestor(r.commits, Main(r), r.rebasing.value.original)
    else
      && RebaseWorks(Fetch(r, true), p.fate) && !Ancestor(r.commits, Main(r), r.remote)
      && ((p.checkoutMain && p.reset) || (OnMain(r) && !Ancestor(r.commits, r.remote, Main(r))))
  }

  /** Where the rebase leaves main. */
  lemma RebasedMain(r: Repo, p: MergePlan)
    requires Valid(r) && Prepare(r, p).Ready?
    ensures var q := Prepare(r, p).repo;
            && Valid(q) && r.commits <= q.commits
            && (Ancestor(q.commits, Main(r), Main(q)) <==>
                  !OnMain(r) || Ancestor(r.commits, r.remote, Main(r)) || Ancestor(r.commits, Main(r), r.remote))
            && (Main(q) != Main(r) ==> OnMain(r) && !Ancestor(r.commits, r.remote, Main(r)))
  {
    StoppedPrelude(r, p);
    NameReadFromHead(r, p);
    RebasedBranch(Fetch(r, true), p.fate, Main(r));
    OldAncestry(r.commits, Prepare(r, p).repo.commits, Main(r), Main(r));
  }

  /** The window: main stays, or goes to origin/main and then to one squash commit. */
  lemma WindowMovesMain(q: Repo, p: MergePlan, branch: string, main: nat)
    requires Valid(q) && main < |q.commits|
    ensures var w := RunWindow(q, p, branch);
            && Valid(w.repo) && q.commits <= w.repo.commits
            && (Ancestor(w.repo.commits, main, Main(w.repo)) <==>
                  Ancestor(q.commits, main, if p.checkoutMain && p.reset then q.tracking else Main(q)))
  {
    WindowShape(q, p, branch);
    var w := RunWindow(q, p, branch);
    if w.squashed {
      var t :| w.repo.commits == q.commits + [Commit([q.tracking], t)];
      ChildAncestry(q.commits, Commit([q.tracking], t), main, q.tracking);
    } else {
      assert w.repo.commits == q.commits;
    }
  }

  /** Local main ends at a descendant of where it was exactly when none of these ways is
      taken, whatever command fails. */
  lemma MainMovesForwardExactlyWhen(r: Repo, p: MergePlan)
    requires Valid(r)
    ensures var s := MergeToMain(r, p).0;
            && Valid(s) && r.commits <= s.commits
            && (Ancestor(s.commits, Main(r), Main(s)) <==> !MergeRewinds(r, p))
  {
    PrepareKeepsValid(r, p);
    StoppedPrelude(r, p);
    var pre := Prepare(r, p);
    if pre.Ready? {
      NameReadFromHead(r, p);
      RebasedMain(r, p);
      MergeEndsAsItsWindow(r, p);
      OldAncestry(r.commits, pre.repo.commits, Main(r), r.remote);
      WindowMovesMain(pre.repo, p, pre.branch, Main(r));
    }
  }

  /** With a working `rev-list` only the abort of a rebase of main is left, read HEAD or
      not. */
  lemma CheckedMergeMovesForward(r: Repo, p: MergePlan)
    requires Valid(r) && p.revList
    ensures var s := MergeToMain(r, p).0;
            && Valid(s)
            && (Ancestor(s.commits, Main(r), Main(s)) <==>
                  !(ReachesRebase(r, p) && RebasingMain(r) && p.abort
                    && !Ancestor(r.commits, Main(r), r.rebasing.value.original)))
  {
    MainMovesForwardExactlyWhen(r, p);
  }

  /** And it can rewind main when `rev-list` alone fails: an unpushed merge is reset
      away, with every other command working. */
  lemma UncheckedMergeRewinds() returns (r: Repo, p: MergePlan)
    ensures Valid(r) && r.head == On("assist/t") && Recovers(p) && !p.revList
    ensures p.readHead && p.diff.HasDiff? && p.fetch && p.checkoutMain && p.reset && p.squash && p.commit
    ensures var s := MergeToMain(r, p).0;
            Valid(s) && !Ancestor(s.commits, Main(r), Main(s))
  {
    var b := Branching("20260101-000000", {}, true);
    r := Repo([Commit([], 0), Commit([0], 1), Commit([0], 2)], map["main" := 1, "assist/t" := 2],
              On("assist/t"), 0, 0, 2, 2, None);
    p := MergePlan(true, HasDiff, true, false, Replays([]), true, true, true, true, None, true, true, b, true, true, b);
    assert 0 in r.commits[2].parents && Ancestor(r.commits, 0, 0);
    assert Ancestor(r.commits, 0, 2);
    assert !Ancestor(r.commits, 1, 0);
    assert Prepare(r, p).Ready?;
    MainMovesForwardExactlyWhen(r, p);
  }

  // ------------------------------------------------------------------
  // What a failed merge says
  // ------------------------------------------------------------------

  lemma ChecksRaise(r: Repo, p: MergePlan)
    requires Valid(r) && !ReachesRebase(r, p)
    ensures Prepare(r, p).Stops?
    ensures var e := Prepare(r, p).error;
            var onMain := p.readHead && OnMain(r);
            && (e == NothingToMerge <==> onMain || p.diff.NoDiff?)
            && (e == Unpushed <==>
                  !onMain && p.diff.HasDiff? && p.fetch && p.revList && !Ancestor(r.commits, Main(r), r.remote))
            && e in {NothingToMerge, Unpushed, CommandFailed}
  {
  }

  /** The rebase is stopped on conflicts, this one or one of before. */
  ghost predicate Stuck(r: Repo, p: MergePlan)
    requires Valid(r)
  {
    || r.rebasing.Some?
    || (!Dirty(r) && p.fate.Conflicts? && !Ancestor(r.commits, r.remote, HeadCommit(r)))
  }

  lemma StuckRebase(r: Repo, p: MergePlan)
    requires Valid(r)
    ensures var (s, ok) := Rebase(Fetch(r, true), p.fate);
            && (Stuck(r, p) <==> !ok && s.rebasing.Some?)
            && (Stuck(r, p) ==> !RebaseWorks(Fetch(r, true), p.fate))
  {
    RebaseKeepsValid(Fetch(r, true), p.fate);
  }

  lemma RebaseRaises(r: Repo, p: MergePlan)
    requires Valid(r) && ReachesRebase(r, p) && Prepare(r, p).Stops?
    ensures Prepare(r, p).error ==
              if Stuck(r, p) && p.filesListed
              then MergeConflict(if !p.readHead then "" else if r.head.On? then r.head.branch else "HEAD")
              else CommandFailed
  {
    PreludeSteps(r, p);
    StuckRebase(r, p);
  }

  /** Which error a merge raises: there is nothing to merge, an earlier merge is unpushed, or
      the rebase stopped on conflicts that could be listed, on the branch that was read;
      everything else is a failed command. */
  lemma MergeRaises(r: Repo, p: MergePlan)
    requires Valid(r)
    ensures var result := MergeToMain(r, p).1;
            var onMain := p.readHead && OnMain(r);
            && (result == Raised(NothingToMerge) <==> onMain || p.diff.NoDiff?)
            && (result == Raised(Unpushed) <==>
                  !onMain && p.diff.HasDiff? && p.fetch && p.revList && !Ancestor(r.commits, Main(r), r.remote))
            && (result.Raised? && result.error.MergeConflict? <==>
                  ReachesRebase(r, p) && Stuck(r, p) && p.filesListed)
            && (result.Raised? && result.error.MergeConflict? ==>
                  result.error.branch == if !p.readHead then "" else if r.head.On? then r.head.branch else "HEAD")
            && result != Raised(OriginAdvanced)
  {
    PrepareKeepsValid(r, p);
    if ReachesRebase(r, p) {
      StuckRebase(r, p);
      StoppedPrelude(r, p);
      if Prepare(r, p).Stops? { RebaseRaises(r, p); }
    } else {
      ChecksRaise(r, p);
    }
  }

  // ------------------------------------------------------------------
  // What a successful merge is
  // ------------------------------------------------------------------

  /** A window that completes has put the branch's tree on origin/main, as one commit. */
  lemma CompletedWindow(q: Repo, p: MergePlan, b: string)
    requires Valid(q) && b in q.branches && b != "main"
    requires Ancestor(q.commits, q.tracking, q.branches[b]) && RunWindow(q, p, b).completed
    ensures var s := RunWindow(q, p, b).repo;
            && s.commits == q.commits + [Commit([q.tracking], TreeOf(q, q.branches[b]))]
            && "main" in s.branches && Main(s) == |q.commits|
            && b in s.branches && s.branches[b] == q.branches[b]
            && s.head.On? && s.head.branch !in q.branches && s.head.branch in s.branches && HeadCommit(s) == Main(s)
  {
    OntoOriginMainShape(q, p);
    SquashCommitShape(OntoOriginMain(q, p).0, p, b);
    WindowShape(q, p, b);
  }

  /** The squash commit sits directly on the fetched origin/main and has the tree of
      the rebased thread branch, which descends from origin/main too; the thread goes
      on, on a new branch at the new main. */
  lemma SquashHasTheBranchTree(r: Repo, p: MergePlan)
    requires Valid(r) && p.readHead && r.head.On? && !OnMain(r) && MergeToMain(r, p).1 == Done
    ensures var s := MergeToMain(r, p).0;
            var b := r.head.branch;
            && Valid(s) && b in s.branches
            && s.commits[Main(s)] == Commit([r.remote], TreeOf(s, s.branches[b]))
            && Main(s) >= |r.commits|
            && Ancestor(s.commits, r.remote, s.branches[b])
            && s.head.On? && s.head.branch !in r.branches && HeadCommit(s) == Main(s)
  {
    PrepareKeepsValid(r, p);
    NameReadFromHead(r, p);
    RebaseEndsOnTop(Fetch(r, true), p.fate);
    var q, b := Prepare(r, p).repo, r.head.branch;
    var s := MergeToMain(r, p).0;
    WindowShape(q, p, b);
    CompletedWindow(q, p, b);
    assert s == RunWindow(q, p, b).repo;
    OldAncestry(q.commits, s.commits, r.remote, q.branches[b]);
  }

  /** The tree of the thread branch once it is rebased onto the server's main. */
  ghost function RebasedTree(r: Repo, p: MergePlan): Tree
    requires Valid(r)
  {
    if Ancestor(r.commits, r.remote, HeadCommit(r)) then TreeOf(r, HeadCommit(r))
    else if p.fate.Replays? && p.fate.trees != [] then p.fate.trees[|p.fate.trees| - 1]
    else TreeOf(r, r.remote)
  }

  lemma {:induction false} LastReplayed(base: nat, first: nat, trees: seq<Tree>)
    requires base < first && trees != []
    ensures Replayed(base, first, trees)[|trees| - 1].tree == trees[|trees| - 1]
    decreases |trees|
  {
    if |trees| > 1 { LastReplayed(first, first + 1, trees[1..]); }
  }

  lemma RebaseLeavesTree(r: Repo, fate: RebaseFate)
    requires Valid(r) && RebaseWorks(r, fate)
    ensures var s := Rebase(r, fate).0;
            && Rebase(r, fate).1 && Valid(s)
            && TreeOf(s, HeadCommit(s)) ==
                 (if Ancestor(r.commits, r.tracking, HeadCommit(r)) then TreeOf(r, HeadCommit(r))
                  else if fate.trees != [] then fate.trees[|fate.trees| - 1] else TreeOf(r, r.tracking))
            && TreeOf(s, r.tracking) == TreeOf(r, r.tracking)
  {
    RebaseKeepsValid(r, fate);
    if !Ancestor(r.commits, r.tracking, HeadCommit(r)) && fate.trees != [] {
      LastReplayed(r.tracking, |r.commits|, fate.trees);
    }
  }

  /** When the protected window completes: its commands work, there is something to squash,
      and the fresh branch's name is free. */
  lemma WindowCompletesExactlyWhen(q: Repo, p: MergePlan, b: string)
    requires Valid(q) && b in q.branches && b != "main" && q.head == On(b)
    requires Ancestor(q.commits, q.tracking, q.branches[b])
    ensures RunWindow(q, p, b).completed <==>
              && p.checkoutMain && p.reset && p.squash && p.commit
              && TreeOf(q, q.branches[b]) != TreeOf(q, q.tracking)
              && p.rebranch.checkoutOk && FreshName(q.branches, p.rebranch) !in q.branches
  {
    OntoOriginMainShape(q, p);
    var o := OntoOriginMain(q, p).0;
    if p.checkoutMain && p.reset {
      SquashCommitShape(o, p, b);
      SquashWorksExactlyWhen(o, p, b);
      var d := SquashCommit(o, p, b).0;
      if SquashCommit(o, p, b).1 {
        assert d.branches.Keys == q.branches.Keys;
        SameIndex(q.branches, d.branches, p.rebranch);
      }
      FreshIsNotHead(d.branches, p.rebranch);
    }
  }

  lemma SquashWorksExactlyWhen(o: Repo, p: MergePlan, b: string)
    requires Valid(o) && OnMain(o) && o.index == TreeOf(o, Main(o)) && b in o.branches && b != "main"
    requires Ancestor(o.commits, Main(o), o.branches[b])
    ensures SquashCommit(o, p, b).1 <==>
              p.squash && p.commit && TreeOf(o, o.branches[b]) != TreeOf(o, Main(o))
  {
    if Ancestor(o.commits, o.branches[b], Main(o)) { OldestIsSame(o.commits, Main(o), o.branches[b]); }
  }

  lemma {:induction false} NoOlder(commits: seq<Commit>, a: nat, b: nat)
    requires Sound(commits) && b < |commits| && Ancestor(commits, a, b)
    ensures a <= b
    decreases b
  {
    if a != b {
      var p :| p in commits[b].parents && Ancestor(commits, a, p);
      NoOlder(commits, a, p);
    }
  }

  lemma OldestIsSame(commits: seq<Commit>, a: nat, b: nat)
    requires Sound(commits) && a < |commits| && b < |commits| && Ancestor(commits, a, b) && Ancestor(commits, b, a)
    ensures a == b
  {
    NoOlder(commits, a, b);
    NoOlder(commits, b, a);
  }

  /** The fresh name depends on the names only, not on where they point. */
  lemma {:induction false} SameIndex(a: map<string, nat>, b: map<string, nat>, g: Branching)
    requires a.Keys == b.Keys
    ensures FreshIndex(a, g, 0) == FreshIndex(b, g, 0)
  {
    var i, j := FreshIndex(a, g, 0), FreshIndex(b, g, 0);
    assert forall n: nat :: Taken(a, g, n) == Taken(b, g, n);
    assert !Taken(b, g, i) && !Taken(a, g, j);
  }

  /** When a merge from a thread branch succeeds: the checks and the rebase let it through,
      the rebased branch differs from the server's main, and the window's commands work. */
  lemma MergeSucceedsExactlyWhen(r: Repo, p: MergePlan)
    requires Valid(r) && p.readHead && r.head.On? && !OnMain(r)
    ensures MergeToMain(r, p).1 == Done <==>
              && ReachesRebase(r, p) && RebaseWorks(Fetch(r, true), p.fate)
              && RebasedTree(r, p) != TreeOf(r, r.remote)
              && p.checkoutMain && p.reset && p.squash && p.commit
              && p.rebranch.checkoutOk && FreshName(r.branches, p.rebranch) !in r.branches
  {
    PrepareKeepsValid(r, p);
    StoppedPrelude(r, p);
    if Prepare(r, p).Ready? {
      NameReadFromHead(r, p);
      RebaseLeavesTree(Fetch(r, true), p.fate);
      PreludeSteps(r, p);
      var q := Prepare(r, p).repo;
      RebaseEndsOnTop(Fetch(r, true), p.fate);
      WindowCompletesExactlyWhen(q, p, r.head.branch);
      assert q.branches.Keys == r.branches.Keys;
      SameIndex(q.branches, r.branches, p.rebranch);
    }
  }
}
