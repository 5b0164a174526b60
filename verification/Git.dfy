/**
 * The part of git that assist/domain_manager.py drives: a commit graph, local
 * branches, HEAD, the tracking ref origin/main, the server's main, the index and the
 * working tree. Each command is a function that also says whether it succeeded; a
 * command can fail for a reason of its own (`ok` false), leaving the refs alone.
 */
module Git {
  import opened Common

  /** A snapshot of the files, known by its id. */
  type Tree = int

  /** Parents come earlier in the store. */
  datatype Commit = Commit(parents: seq<nat>, tree: Tree)

  datatype Head = On(branch: string) | Detached(commit: nat)

  datatype Rebasing = Rebasing(branch: Option<string>, original: nat)

  datatype Repo = Repo(
    commits: seq<Commit>,
    branches: map<string, nat>,
    head: Head,
    tracking: nat,               // refs/remotes/origin/main
    remote: nat,                 // main on the server
    index: Tree,
    work: Tree,
    rebasing: Option<Rebasing>   // a rebase stopped half-way
  )

  predicate Sound(commits: seq<Commit>) {
    forall i, p :: 0 <= i < |commits| && p in commits[i].parents ==> p < i
  }

  ghost predicate Valid(r: Repo) {
    && Sound(r.commits)
    && (forall b :: b in r.branches ==> r.branches[b] < |r.commits|)
    && "main" in r.branches && "HEAD" !in r.branches && "" !in r.branches
    && (match r.head case On(b) => b in r.branches case Detached(c) => c < |r.commits|)
    && r.tracking < |r.commits| && r.remote < |r.commits|
    && (r.rebasing.Some? ==>
          && r.rebasing.value.original < |r.commits|
          && (r.rebasing.value.branch.Some? ==> r.rebasing.value.branch.value in r.branches))
  }

  function Main(r: Repo): nat requires "main" in r.branches { r.branches["main"] }

  predicate OnMain(r: Repo) { r.head == On("main") }

  function HeadCommit(r: Repo): nat
    requires r.head.On? ==> r.head.branch in r.branches
  {
    match r.head case On(b) => r.branches[b] case Detached(c) => c
  }

  function TreeOf(r: Repo, c: nat): Tree requires c < |r.commits| { r.commits[c].tree }

  // ------------------------------------------------------------------
  // Ancestry
  // ------------------------------------------------------------------

  /** `a` is reachable from `b` (`merge-base --is-ancestor a b`). */
  predicate Ancestor(commits: seq<Commit>, a: nat, b: nat)
    requires Sound(commits) && b < |commits|
    decreases b
  {
    a == b || exists p :: p in commits[b].parents && Ancestor(commits, a, p)
  }

  lemma {:induction false} AncestorTransitive(commits: seq<Commit>, a: nat, b: nat, c: nat)
    requires Sound(commits) && b < |commits| && c < |commits|
    requires Ancestor(commits, a, b) && Ancestor(commits, b, c)
    ensures Ancestor(commits, a, c)
    decreases c
  {
    if b != c {
      var p :| p in commits[c].parents && Ancestor(commits, b, p);
      AncestorTransitive(commits, a, b, p);
    }
  }

  /** New commits change nothing about the old ones. */
  lemma {:induction false} AncestorExtends(commits: seq<Commit>, more: seq<Commit>, a: nat, b: nat)
    requires Sound(commits) && Sound(commits + more) && b < |commits|
    ensures Ancestor(commits + more, a, b) <==> Ancestor(commits, a, b)
    decreases b
  {
    forall p | p in commits[b].parents
      ensures Ancestor(commits + more, a, p) <==> Ancestor(commits, a, p)
    {
      AncestorExtends(commits, more, a, p);
    }
  }

  lemma OldAncestry(commits: seq<Commit>, later: seq<Commit>, a: nat, b: nat)
    requires Sound(commits) && Sound(later) && commits <= later && b < |commits|
    ensures Ancestor(later, a, b) <==> Ancestor(commits, a, b)
  {
    assert later == commits + later[|commits|..];
    AncestorExtends(commits, later[|commits|..], a, b);
  }

  /** A commit on top of `onto` has the ancestors of `onto`, and itself. */
  lemma ChildAncestry(commits: seq<Commit>, child: Commit, a: nat, onto: nat)
    requires Sound(commits) && Sound(commits + [child]) && a < |commits| && onto < |commits|
    requires child.parents == [onto]
    ensures Ancestor(commits + [child], a, |commits|) <==> Ancestor(commits, a, onto)
  {
    var more := commits + [child];
    AncestorExtends(commits, [child], a, onto);
    assert more[|commits|].parents == [onto];
    if Ancestor(more, a, |commits|) {
      var p :| p in more[|commits|].parents && Ancestor(more, a, p);
      assert p == onto;
    }
    if Ancestor(commits, a, onto) {
      assert onto in more[|commits|].parents;
    }
  }

  // ------------------------------------------------------------------
  // Commands
  // ------------------------------------------------------------------

  /** `rev-parse --abbrev-ref HEAD`: the branch, "HEAD" when detached, "" when it fails. */
  function CurrentBranch(r: Repo, ok: bool): string {
    if !ok then "" else match r.head case On(b) => b case Detached(_) => "HEAD"
  }

  function Fetch(r: Repo, ok: bool): Repo {
    if ok then r.(tracking := r.remote) else r
  }

  predicate Dirty(r: Repo)
    requires r.head.On? ==> r.head.branch in r.branches
    requires HeadCommit(r) < |r.commits|
  {
    r.index != TreeOf(r, HeadCommit(r)) || r.work != r.index
  }

  /** The commits a rebase replays, one on top of the other. */
  function Replayed(base: nat, first: nat, trees: seq<Tree>): (cs: seq<Commit>)
    requires base < first
    ensures |cs| == |trees|
    ensures forall i, p :: 0 <= i < |cs| && p in cs[i].parents ==> p < first + i
    decreases |trees|
  {
    if trees == [] then []
    else [Commit([base], trees[0])] + Replayed(first, first + 1, trees[1..])
  }

  function MoveHead(r: Repo, c: nat): Repo
    requires c < |r.commits|
  {
    var r1 := match r.head
              case On(b) => r.(branches := r.branches[b := c])
              case Detached(_) => r.(head := Detached(c));
    r1.(index := TreeOf(r, c), work := TreeOf(r, c))
  }

  datatype RebaseFate =
    | Replays(trees: seq<Tree>)   // what the replayed commits contain
    | Conflicts(at: nat)          // stops with HEAD detached at some commit
    | Refuses                     // fails without starting

  /** `rebase origin/main`. Refuses while another rebase is in progress; does nothing
      if HEAD is already on top of it. */
  function Rebase(r: Repo, fate: RebaseFate): (Repo, bool)
    requires Valid(r)
  {
    if r.rebasing.Some? || Dirty(r) || fate.Refuses? then (r, false)
    else if Ancestor(r.commits, r.tracking, HeadCommit(r)) then (r, true)
    else
      match fate
      case Conflicts(at) =>
        var stop := if at < |r.commits| then at else r.tracking;
        (r.(head := Detached(stop),
            rebasing := Some(Rebasing(if r.head.On? then Some(r.head.branch) else None, HeadCommit(r)))),
         false)
      case Replays(trees) =>
        var r1 := r.(commits := r.commits + Replayed(r.tracking, |r.commits|, trees));
        (MoveHead(r1, if trees == [] then r.tracking else |r.commits| + |trees| - 1), true)
      case Refuses => (r, false)
  }

  /** `rebase --abort`: back to where the rebase started. */
  function RebaseAbort(r: Repo, ok: bool): (Repo, bool)
    requires r.rebasing.Some? ==> r.rebasing.value.original < |r.commits|
  {
    if !ok || r.rebasing.None? then (r, false)
    else
      var was := r.rebasing.value;
      var t := TreeOf(r, was.original);
      (r.(head := if was.branch.Some? then On(was.branch.value) else Detached(was.original),
          branches := if was.branch.Some? then r.branches[was.branch.value := was.original] else r.branches,
          index := t, work := t, rebasing := None),
       true)
  }

  /** `checkout [-f] name`. "HEAD" names the commit HEAD is at: HEAD stays put. */
  function Checkout(r: Repo, name: string, ok: bool): (Repo, bool)
    requires r.head.On? ==> r.head.branch in r.branches
    requires HeadCommit(r) < |r.commits|
    requires forall b :: b in r.branches ==> r.branches[b] < |r.commits|
  {
    if !ok then (r, false)
    else if name in r.branches then
      var t := TreeOf(r, r.branches[name]);
      (r.(head := On(name), index := t, work := t), true)
    else if name == "HEAD" then
      var t := TreeOf(r, HeadCommit(r));
      (r.(index := t, work := t), true)
    else (r, false)
  }

  /** `reset --hard origin/main`. */
  function ResetHard(r: Repo, ok: bool): (Repo, bool)
    requires r.tracking < |r.commits|
  {
    if ok then (MoveHead(r, r.tracking), true) else (r, false)
  }

  /** `merge --squash name`: stage what merging would give. `merged` is the outcome of
      a true three-way merge, None a conflict. */
  function Squash(r: Repo, name: string, merged: Option<Tree>, ok: bool): (Repo, bool)
    requires Valid(r)
  {
    if !ok then (r, false)
    else if name == "HEAD" then (r, true)
    else if name !in r.branches then (r, false)
    else
      var tip := r.branches[name];
      if Ancestor(r.commits, tip, HeadCommit(r)) then (r, true)
      else if Ancestor(r.commits, HeadCommit(r), tip) then
        (r.(index := TreeOf(r, tip), work := TreeOf(r, tip)), true)
      else if merged.Some? then (r.(index := merged.value, work := merged.value), true)
      else (r, false)
  }

  /** `commit`: fails when nothing is staged. */
  function CommitStaged(r: Repo, ok: bool): (Repo, bool)
    requires r.head.On? ==> r.head.branch in r.branches
    requires HeadCommit(r) < |r.commits|
  {
    if !ok || r.index == TreeOf(r, HeadCommit(r)) then (r, false)
    else
      var c := Commit([HeadCommit(r)], r.index);
      var r1 := r.(commits := r.commits + [c]);
      (match r.head
       case On(b) => r1.(branches := r.branches[b := |r.commits|])
       case Detached(_) => r1.(head := Detached(|r.commits|)),
       true)
  }

  /** `checkout -b name start`: fails on an existing name; carries the edits over. */
  function NewBranch(r: Repo, name: string, start: nat, ok: bool): (Repo, bool) {
    if !ok || name in r.branches || name == "" || name == "HEAD" then (r, false)
    else (r.(branches := r.branches[name := start], head := On(name)), true)
  }

  /** `push origin main` without force: the server takes fast-forwards only. */
  function PushMain(r: Repo, ok: bool): (Repo, bool)
    requires Valid(r)
  {
    if ok && Ancestor(r.commits, r.remote, Main(r))
    then (r.(remote := Main(r), tracking := Main(r)), true)
    else (r, false)
  }

  // ------------------------------------------------------------------
  // Commands keep the repository well-formed and the old commits in place
  // ------------------------------------------------------------------

  lemma RebaseKeepsValid(r: Repo, fate: RebaseFate)
    requires Valid(r)
    ensures Valid(Rebase(r, fate).0) && r.commits <= Rebase(r, fate).0.commits
  {
  }

  lemma RebaseAbortKeepsValid(r: Repo, ok: bool)
    requires Valid(r)
    ensures Valid(RebaseAbort(r, ok).0)
  {
  }

  lemma CheckoutKeepsValid(r: Repo, name: string, ok: bool)
    requires Valid(r)
    ensures Valid(Checkout(r, name, ok).0)
  {
  }

  lemma ResetKeepsValid(r: Repo, ok: bool)
    requires Valid(r)
    ensures Valid(ResetHard(r, ok).0)
  {
  }

  lemma CommitKeepsValid(r: Repo, ok: bool)
    requires Valid(r)
    ensures Valid(CommitStaged(r, ok).0) && r.commits <= CommitStaged(r, ok).0.commits
  {
  }

  lemma NewBranchKeepsValid(r: Repo, name: string, start: nat, ok: bool)
    requires Valid(r) && start < |r.commits|
    ensures Valid(NewBranch(r, name, start, ok).0)
  {
  }

  lemma SoundAppend(commits: seq<Commit>, more: seq<Commit>)
    requires Sound(commits)
    requires forall i, p :: 0 <= i < |more| && p in more[i].parents ==> p < |commits| + i
    ensures Sound(commits + more)
  {
    var all := commits + more;
    forall i, p | 0 <= i < |all| && p in all[i].parents
      ensures p < i
    {
      if i < |commits| { assert all[i] == commits[i]; } else { assert all[i] == more[i - |commits|]; }
    }
  }

  lemma ParentIsAncestor(commits: seq<Commit>, c: Commit, a: nat)
    requires Sound(commits) && Sound(commits + [c]) && a < |commits| && a in c.parents
    ensures Ancestor(commits + [c], a, |commits|)
  {
    assert (commits + [c])[|commits|] == c;
    assert Ancestor(commits + [c], a, a);
  }

  /** A replayed line of commits has the old ancestors of its base, and no others. */
  lemma {:induction false} ReplayedAncestry(commits: seq<Commit>, base: nat, trees: seq<Tree>, a: nat)
    requires Sound(commits) && base < |commits| && a < |commits| && trees != []
    ensures Sound(commits + Replayed(base, |commits|, trees))
    ensures Ancestor(commits + Replayed(base, |commits|, trees), a, |commits| + |trees| - 1)
            <==> Ancestor(commits, a, base)
    decreases |trees|
  {
    var n := |commits|;
    var c := Commit([base], trees[0]);
    var more := commits + [c];
    SoundAppend(commits, [c]);
    SoundAppend(commits, Replayed(base, n, trees));
    ChildAncestry(commits, c, a, base);
    var rest := Replayed(n, n + 1, trees[1..]);
    assert Replayed(base, n, trees) == [c] + rest;
    assert commits + Replayed(base, n, trees) == more + rest;
    if |trees| == 1 {
      assert rest == [];
      assert more + rest == more;
    } else {
      ReplayedAncestry(more, n, trees[1..], a);
    }
  }

  /** A successful rebase leaves HEAD at or on top of origin/main, and touches no
      other branch. */
  lemma RebaseEndsOnTop(r: Repo, fate: RebaseFate)
    requires Valid(r) && Rebase(r, fate).1
    ensures var s := Rebase(r, fate).0;
            && Valid(s) && r.commits <= s.commits && s.tracking == r.tracking && s.remote == r.remote
            && Ancestor(s.commits, s.tracking, HeadCommit(s))
            && s.index == TreeOf(s, HeadCommit(s)) && s.rebasing.None?
            && (r.head.On? ==> s.head == r.head)
            && (forall b :: b in r.branches && r.head != On(b) ==> b in s.branches && s.branches[b] == r.branches[b])
            && (forall b :: b in s.branches ==> b in r.branches)
  {
    RebaseKeepsValid(r, fate);
    if !Ancestor(r.commits, r.tracking, HeadCommit(r)) {
      var trees := fate.trees;
      if trees != [] {
        ReplayedAncestry(r.commits, r.tracking, trees, r.tracking);
      }
    }
  }

  /** Does `rebase origin/main` run through? */
  ghost predicate RebaseWorks(r: Repo, fate: RebaseFate)
    requires Valid(r)
  {
    && r.rebasing.None? && !Dirty(r) && !fate.Refuses?
    && (Ancestor(r.commits, r.tracking, HeadCommit(r)) || fate.Replays?)
  }

  /** Where a successful rebase puts the branch that HEAD is on: its old commit stays
      below it exactly when nothing was replayed or origin/main had it. */
  lemma RebasedBranch(r: Repo, fate: RebaseFate, a: nat)
    requires Valid(r) && RebaseWorks(r, fate) && a < |r.commits|
    ensures var s := Rebase(r, fate).0;
            && Rebase(r, fate).1 && Valid(s)
            && (Ancestor(s.commits, a, HeadCommit(s)) <==>
                  if Ancestor(r.commits, r.tracking, HeadCommit(r)) then Ancestor(r.commits, a, HeadCommit(r))
                  else Ancestor(r.commits, a, r.tracking))
  {
    RebaseKeepsValid(r, fate);
    if !Ancestor(r.commits, r.tracking, HeadCommit(r)) {
      if fate.trees == [] {
        assert Rebase(r, fate).0.commits == r.commits;
      } else {
        ReplayedAncestry(r.commits, r.tracking, fate.trees, a);
      }
    }
  }
}
