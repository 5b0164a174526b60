/**
 * When the operations on a thread's runs succeed, and what they leave then
 * (assist/run_service.py).
 */
module RunOutcomes {
  import opened Common
  import opened RunSpec
  import opened RunProofs

  /** Where a run may go from each status. */
  function NextStatuses(a: Status): set<Status> {
    match a
    case Pending => {Running, Success, Timeout, Cancelled}
    case Running => {Pending, Success, Error, Timeout, Interrupted, Cancelled}
    case Interrupted => {Cancelled}
    case _ => {}
  }

  /** All runs but the `k`-th are as they were. */
  ghost predicate OnlyChanges(before: seq<Run>, after: seq<Run>, k: nat) {
    |after| == |before| && forall i :: 0 <= i < |before| && i != k ==> after[i] == before[i]
  }

  lemma RewriteChangesOne(runs: seq<Run>, k: nat, changed: Run)
    requires Normal(runs) && k < |runs|
    ensures OnlyChanges(runs, StoredAll(runs[k := changed]), k) && StoredAll(runs[k := changed])[k] == Stored(changed)
  {
    var after := StoredAll(runs[k := changed]);
    forall i | 0 <= i < |runs| && i != k ensures after[i] == runs[i] {
      assert Stored(runs[i]) == runs[i];
    }
  }

  /** `cancel_pending` succeeds exactly for a pending run whose write works, cancels that run
      and no other, and else changes nothing and says why. */
  lemma CancelPendingExactlyWhen(runs: seq<Run>, id: string, now: int, writeFails: bool)
    requires Sound(runs)
    ensures var s := CancelIfPending(runs, id, now, writeFails);
            var k := FindId(runs, id, 0);
            && (s.result.Got? <==> k < |runs| && runs[k].status == Pending && !writeFails)
            && (s.result.Got? ==>
                  && s.result.run == runs[k].(status := Cancelled, updated := now)
                  && OnlyChanges(runs, s.runs, k) && s.runs[k] == s.result.run)
            && (!s.result.Got? ==>
                  && s.runs == runs
                  && s.result == Raised(if k == |runs| then NotFound
                                        else if runs[k].status != Pending then NotAllowed else WriteFailed))
  {
    var k := FindId(runs, id, 0);
    if k < |runs| {
      assert Stored(runs[k]) == runs[k];
      RewriteChangesOne(runs, k, runs[k].(status := Cancelled, updated := now));
    }
  }

  /** A run with a patch applied: an absent part keeps what was there, but that a move to
      another status takes the error as given. */
  ghost predicate PatchedTo(r: Run, p: Patch, status: Status, changed: Run) {
    && SameWork(r, changed) && changed.sender == r.sender && changed.origin == r.origin
    && changed.status == status
    && changed.activeMs == (if p.activeMs.Some? then p.activeMs.value else r.activeMs)
    && changed.consumedBy == (if p.consumedBy.Some? then p.consumedBy else r.consumedBy)
    && changed.rider == (if p.rider.Some? then p.rider else r.rider)
    && changed.outcome == (if p.outcome.Some? then p.outcome else r.outcome)
    && changed.error == (if p.error.Some? || status != r.status then p.error else r.error)
  }

  /** The patch says nothing new about a run that stays in its status. */
  predicate SaysNothing(r: Run, p: Patch) {
    && (p.activeMs.Some? ==> p.activeMs.value == r.activeMs)
    && (p.consumedBy.Some? ==> p.consumedBy == r.consumedBy)
    && (p.rider.Some? ==> p.rider == r.rider)
    && (p.outcome.Some? ==> p.outcome == r.outcome)
    && (p.error.Some? ==> p.error == r.error)
  }

  lemma SamePatch(r: Run, p: Patch)
    ensures var changed := Patched(r, p).(error := Or(p.error, r.error));
            PatchedTo(r, p, r.status, changed) && (changed == r <==> SaysNothing(r, p))
  {
  }

  lemma MovedPatch(r: Run, p: Patch, status: Status, now: int)
    requires status != r.status
    ensures PatchedTo(r, p, status, Patched(r, p).(status := status, error := p.error, updated := now))
  {
  }

  /** When a transition goes through. */
  predicate Legal(runs: seq<Run>, k: nat, status: Status, p: Patch) {
    && (p.activeMs.Some? ==> p.activeMs.value >= 0.0)
    && k < |runs| && (status == runs[k].status || status in NextStatuses(runs[k].status))
  }

  /** A transition succeeds exactly when the run is there, its status allows it, the active
      time is not negative and the write, if there is anything to write, works. It then
      leaves the patched run and no other change; else nothing changes, and it says why. */
  lemma TransitionExactlyWhen(runs: seq<Run>, id: string, status: Status, p: Patch, now: int, writeFails: bool)
    requires Sound(runs)
    ensures var s := Transition(runs, id, status, p, now, writeFails);
            var k := FindId(runs, id, 0);
            var quiet := k < |runs| && status == runs[k].status && SaysNothing(runs[k], p);
            && (s.result.Got? <==> Legal(runs, k, status, p) && (quiet || !writeFails))
            && (s.result.Got? && quiet ==> s.runs == runs && s.result.run == runs[k])
            && (s.result.Got? && !quiet ==>
                  && PatchedTo(runs[k], p, status, s.result.run) && s.result.run.updated == now
                  && OnlyChanges(runs, s.runs, k) && s.runs[k] == Stored(s.result.run))
            && (!s.result.Got? ==>
                  && s.runs == runs
                  && s.result == Raised(if p.activeMs.Some? && p.activeMs.value < 0.0 then NegativeActive
                                        else if k == |runs| then NotFound
                                        else if status != runs[k].status && status !in NextStatuses(runs[k].status)
                                        then NotAllowed else WriteFailed))
  {
    var k := FindId(runs, id, 0);
    if Legal(runs, k, status, p) {
      if status == runs[k].status {
        SameStatus(runs, id, status, p, now, writeFails);
      } else {
        MovedStatus(runs, id, status, p, now, writeFails);
      }
    }
  }

  lemma SameStatus(runs: seq<Run>, id: string, status: Status, p: Patch, now: int, writeFails: bool)
    requires Sound(runs)
    requires var k := FindId(runs, id, 0); Legal(runs, k, status, p) && status == runs[k].status
    ensures var s := Transition(runs, id, status, p, now, writeFails);
            var k := FindId(runs, id, 0);
            if SaysNothing(runs[k], p) then s == Step(runs, Got(runs[k]))
            else if writeFails then s == Step(runs, Raised(WriteFailed))
            else
              && s.result.Got? && PatchedTo(runs[k], p, status, s.result.run) && s.result.run.updated == now
              && OnlyChanges(runs, s.runs, k) && s.runs[k] == Stored(s.result.run)
  {
    var k := FindId(runs, id, 0);
    SamePatch(runs[k], p);
    RewriteChangesOne(runs, k, Patched(runs[k], p).(error := Or(p.error, runs[k].error)).(updated := now));
  }

  lemma MovedStatus(runs: seq<Run>, id: string, status: Status, p: Patch, now: int, writeFails: bool)
    requires Sound(runs)
    requires var k := FindId(runs, id, 0); Legal(runs, k, status, p) && status != runs[k].status
    ensures var s := Transition(runs, id, status, p, now, writeFails);
            var k := FindId(runs, id, 0);
            if writeFails then s == Step(runs, Raised(WriteFailed))
            else
              && s.result.Got? && PatchedTo(runs[k], p, status, s.result.run) && s.result.run.updated == now
              && OnlyChanges(runs, s.runs, k) && s.runs[k] == Stored(s.result.run)
  {
    var k := FindId(runs, id, 0);
    MovedPatch(runs[k], p, status, now);
    RewriteChangesOne(runs, k, Patched(runs[k], p).(status := status, error := p.error, updated := now));
  }

  // ------------------------------------------------------------------
  // create
  // ------------------------------------------------------------------

  /** A child needs its parents, a key and a hidden sub-thread; a turn must not name parents. */
  predicate WellFormed(a: Args) {
    && a.assistant != "" && a.activeMs >= 0.0
    && if a.mode == Child then Given(a.parentThread) && Given(a.parentRun) && Given(a.key) && a.subThread && !a.visible
       else !Given(a.parentThread) && !Given(a.parentRun)
  }

  predicate KeyTaken(runs: seq<Run>, a: Args) {
    exists i :: 0 <= i < |runs| && HasKey(runs[i], a)
  }

  predicate HasKey(r: Run, a: Args) { Given(a.key) && r.key == a.key }

  /** The run was asked for with the same work. */
  predicate AsksTheSame(r: Run, a: Args) {
    && r.assistant == a.assistant && r.text == a.text && r.mode == a.mode
    && r.parentThread == a.parentThread && r.parentRun == a.parentRun
  }

  /** Is there room for one more run, and a free id, once pending ones are cancelled that are
      to be? A run that is under way cannot be replaced. */
  predicate HasRoom(runs: seq<Run>, a: Args) {
    && (a.cancelPending ==> forall i :: 0 <= i < |runs| ==> runs[i].status != Running && runs[i].status != Interrupted)
    && (a.maxRuns.Some? ==> |runs| < a.maxRuns.value)
    && (a.maxPending.Some? ==> (if a.cancelPending then 0 else PendingCount(runs)) < a.maxPending.value)
    && forall i :: 0 <= i < |runs| ==> runs[i].id != a.id
  }

  /** A create adds a run exactly when its arguments are well-formed, its key is not taken,
      there is room and the write works. The run is pending, with the arguments' fields; of
      the others only pending ones change, and only for a replacing create, which cancels
      them. In every other case nothing changes; it then returns a run only for a key that is
      taken, and always when that run was asked for with the same work. */
  lemma CreateExactlyWhen(runs: seq<Run>, a: Args, now: int, writeFails: bool)
    requires Sound(runs)
    ensures var s := Create(runs, a, now, writeFails);
            var adds := WellFormed(a) && !KeyTaken(runs, a) && HasRoom(runs, a) && !writeFails;
            && (adds ==>
                  && s.result.Got? && Fresh(s.result.run, a, now)
                  && |s.runs| == |runs| + 1 && s.runs[|runs|] == Stored(s.result.run)
                  && forall i :: 0 <= i < |runs| ==>
                       s.runs[i] == if a.cancelPending && runs[i].status == Pending
                                    then runs[i].(status := Cancelled, updated := now) else runs[i])
            && (!adds ==> s.runs == runs)
            && (!adds && s.result.Got? ==>
                  && WellFormed(a) && s.result.run in runs && HasKey(s.result.run, a) && AsksTheSame(s.result.run, a))
            && (WellFormed(a) && (exists i :: 0 <= i < |runs| && HasKey(runs[i], a) && AsksTheSame(runs[i], a)) ==>
                  s.result.Got?)
  {
    var k := FindKey(runs, a.key, 0);
    assert Refused(a).None? <==> WellFormed(a);
    assert KeyTaken(runs, a) <==> Given(a.key) && k < |runs|;
    if WellFormed(a) && !KeyTaken(runs, a) {
      assert Create(runs, a, now, writeFails) == Accept(runs, a, now, writeFails);
      if a.cancelPending { NonePending(CancelAll(runs, now)); }
      AcceptExactlyWhen(runs, a, now, writeFails);
    }
  }

  /** What can be wrong with a create. */
  predicate Defect(runs: seq<Run>, a: Args, writeFails: bool, f: Failure) {
    match f
    case NeedsAssistant => a.assistant == ""
    case NegativeActive => a.activeMs < 0.0
    case NeedsParents => a.mode == Child && !(Given(a.parentThread) && Given(a.parentRun) && Given(a.key))
    case NeedsSubThread => a.mode == Child && !a.subThread
    case HasParents => a.mode == Turn && (Given(a.parentThread) || Given(a.parentRun))
    case VisibleThread => a.mode == Child && a.visible
    case KeyConflict => exists i :: 0 <= i < |runs| && HasKey(runs[i], a) && !AsksTheSame(runs[i], a)
    case Unreplaceable =>
      !KeyTaken(runs, a) && a.cancelPending
      && exists i :: 0 <= i < |runs| && (runs[i].status == Running || runs[i].status == Interrupted)
    case HistoryFull => !KeyTaken(runs, a) && a.maxRuns.Some? && |runs| >= a.maxRuns.value
    case PendingFull =>
      !KeyTaken(runs, a) && a.maxPending.Some?
      && (if a.cancelPending then 0 else PendingCount(runs)) >= a.maxPending.value
    case Duplicate => !KeyTaken(runs, a) && exists i :: 0 <= i < |runs| && runs[i].id == a.id
    case WriteFailed => !KeyTaken(runs, a) && writeFails
    case _ => false
  }

  /** The order in which they are looked for. */
  function Order(f: Failure): nat {
    match f
    case NeedsAssistant => 0 case NegativeActive => 1 case NeedsParents => 2 case NeedsSubThread => 3
    case HasParents => 4 case VisibleThread => 5 case KeyConflict => 6 case Unreplaceable => 7
    case HistoryFull => 8 case PendingFull => 9 case Duplicate => 10 case WriteFailed => 11
    case _ => 12
  }

  ghost predicate FirstDefect(runs: seq<Run>, a: Args, writeFails: bool, f: Failure) {
    Defect(runs, a, writeFails, f) && forall g :: Order(g) < Order(f) ==> !Defect(runs, a, writeFails, g)
  }

  /** The key is taken by one run at most, the one that is found. */
  lemma OneHolder(runs: seq<Run>, a: Args)
    requires Sound(runs)
    ensures var k := FindKey(runs, a.key, 0);
            && (KeyTaken(runs, a) <==> Given(a.key) && k < |runs|)
            && forall i :: 0 <= i < |runs| && HasKey(runs[i], a) ==> i == k
  {
    forall i | 0 <= i < |runs| && HasKey(runs[i], a) ensures i == FindKey(runs, a.key, 0) { KeyFindsItsRun(runs, i); }
  }

  /** The checks on the list, read off the list before any cancellation. */
  lemma AcceptChecks(runs: seq<Run>, a: Args, now: int, writeFails: bool)
    requires Sound(runs)
    ensures var result := Accept(runs, a, now, writeFails).result;
            if a.cancelPending && Busy(runs) then result == Raised(Unreplaceable)
            else if a.maxRuns.Some? && |runs| >= a.maxRuns.value then result == Raised(HistoryFull)
            else if a.maxPending.Some? && (if a.cancelPending then 0 else PendingCount(runs)) >= a.maxPending.value
            then result == Raised(PendingFull)
            else if exists i :: 0 <= i < |runs| && runs[i].id == a.id then result == Raised(Duplicate)
            else if writeFails then result == Raised(WriteFailed) else result.Got?
  {
    if a.cancelPending { NonePending(CancelAll(runs, now)); }
    SameIds(runs, if a.cancelPending then CancelAll(runs, now) else runs, a.id);
  }

  lemma AcceptRaises(runs: seq<Run>, a: Args, now: int, writeFails: bool, g: Failure)
    requires Sound(runs) && WellFormed(a) && !KeyTaken(runs, a)
    ensures var result := Accept(runs, a, now, writeFails).result;
            && (result.Raised? ==> Defect(runs, a, writeFails, result.failure))
            && (Defect(runs, a, writeFails, g) ==> result.Raised? && Order(result.failure) <= Order(g))
  {
    AcceptChecks(runs, a, now, writeFails);
  }

  lemma RefusedRaises(runs: seq<Run>, a: Args, writeFails: bool, g: Failure)
    requires !WellFormed(a)
    ensures Refused(a).Some? && Defect(runs, a, writeFails, Refused(a).value)
    ensures Defect(runs, a, writeFails, g) ==> Order(Refused(a).value) <= Order(g)
  {
  }

  lemma CreateRaises(runs: seq<Run>, a: Args, now: int, writeFails: bool, g: Failure)
    requires Sound(runs)
    ensures var result := Create(runs, a, now, writeFails).result;
            && (result.Raised? ==> Defect(runs, a, writeFails, result.failure))
            && (Defect(runs, a, writeFails, g) ==> result.Raised? && Order(result.failure) <= Order(g))
  {
    OneHolder(runs, a);
    if !WellFormed(a) {
      RefusedRaises(runs, a, writeFails, g);
    } else if !KeyTaken(runs, a) {
      assert Refused(a).None?;
      AcceptRaises(runs, a, now, writeFails, g);
    } else {
      assert Refused(a).None?;
    }
  }

  /** A create raises exactly the first of its defects. */
  lemma CreateRaisesExactly(runs: seq<Run>, a: Args, now: int, writeFails: bool, f: Failure)
    requires Sound(runs)
    ensures Create(runs, a, now, writeFails).result == Raised(f) <==> FirstDefect(runs, a, writeFails, f)
  {
    var result := Create(runs, a, now, writeFails).result;
    CreateRaises(runs, a, now, writeFails, f);
    forall g | Order(g) < Order(f) && result == Raised(f) ensures !Defect(runs, a, writeFails, g) {
      CreateRaises(runs, a, now, writeFails, g);
    }
    if FirstDefect(runs, a, writeFails, f) { SameOrder(f, result.failure); }
  }

  lemma SameOrder(f: Failure, g: Failure)
    requires Order(f) == Order(g) <= 11
    ensures f == g
  {
  }

  /** The new run. */
  ghost predicate Fresh(r: Run, a: Args, now: int) {
    && r.id == a.id && r.workId == (if a.workId == "" then a.id else a.workId) && r.status == Pending
    && r.assistant == a.assistant && r.text == a.text && r.mode == a.mode && r.key == a.key
    && r.parentThread == a.parentThread && r.parentRun == a.parentRun
    && r.sender == a.sender && r.rider == Read(a.rider) && r.origin == a.origin && r.activeMs == a.activeMs
    && r.consumedBy.None? && r.error.None? && r.outcome.None? && r.updated == now
  }

  lemma NewRunIsFresh(a: Args, now: int)
    ensures Fresh(NewRun(a, now), a, now)
  {
  }

  lemma SameIds(runs: seq<Run>, after: seq<Run>, id: string)
    requires |after| == |runs| && forall i :: 0 <= i < |runs| ==> after[i].id == runs[i].id
    ensures FindId(after, id, 0) < |after| <==> exists i :: 0 <= i < |runs| && runs[i].id == id
  {
  }

  lemma AppendExactlyWhen(before: seq<Run>, runs: seq<Run>, a: Args, now: int, writeFails: bool)
    requires |runs| == |before|
    ensures var s := Append(before, runs, a, now, writeFails);
            var fits := && (a.maxRuns.Some? ==> |runs| < a.maxRuns.value)
                        && (a.maxPending.Some? ==> PendingCount(runs) < a.maxPending.value)
                        && FindId(runs, a.id, 0) == |runs|;
            if fits && !writeFails then s == Step(StoredAll(runs + [NewRun(a, now)]), Got(NewRun(a, now)))
            else s.runs == before && s.result.Raised?
  {
  }

  lemma AppendedRuns(runs: seq<Run>, added: Run)
    requires Normal(runs)
    ensures var after := StoredAll(runs + [added]);
            && |after| == |runs| + 1 && after[|runs|] == Stored(added)
            && forall i :: 0 <= i < |runs| ==> after[i] == runs[i]
  {
    forall i | 0 <= i < |runs| ensures StoredAll(runs + [added])[i] == runs[i] {
      assert Stored(runs[i]) == runs[i];
    }
  }

  lemma AcceptExactlyWhen(runs: seq<Run>, a: Args, now: int, writeFails: bool)
    requires Sound(runs) && (a.cancelPending ==> PendingCount(CancelAll(runs, now)) == 0)
    ensures var s := Accept(runs, a, now, writeFails);
            if HasRoom(runs, a) && !writeFails
            then
              && s.result == Got(NewRun(a, now)) && Fresh(s.result.run, a, now)
              && |s.runs| == |runs| + 1 && s.runs[|runs|] == Stored(s.result.run)
              && forall i :: 0 <= i < |runs| ==>
                   s.runs[i] == if a.cancelPending && runs[i].status == Pending
                                then runs[i].(status := Cancelled, updated := now) else runs[i]
            else s.runs == runs && s.result.Raised?
  {
    var after := if a.cancelPending then CancelAll(runs, now) else runs;
    NewRunIsFresh(a, now);
    SameIds(runs, after, a.id);
    AppendExactlyWhen(runs, after, a, now, writeFails);
    if a.cancelPending { CancelAllSound(runs, now); }
    AppendedRuns(after, NewRun(a, now));
  }

  // ------------------------------------------------------------------
  // import_legacy
  // ------------------------------------------------------------------

  /** What a record that is not there yet becomes. */
  ghost predicate Made(r: Run, l: Legacy, assistant: string, now: int) {
    && r.id == l.id && r.workId == l.id && r.assistant == assistant && r.text == Some(l.text)
    && r.status == Pending && r.mode == Turn && r.parentThread.None? && r.parentRun.None? && r.key.None?
    && r.sender == l.sender && r.rider == Read(l.rider) && r.origin == l.origin
    && r.activeMs == 0.0 && r.consumedBy.None? && r.error.None? && r.outcome.None? && r.updated == now
  }

  ghost predicate SameRecord(r: Run, l: Legacy) {
    r.id == l.id && r.text == Some(l.text) && r.sender == l.sender && r.rider == l.rider && r.origin == l.origin
  }

  /** The `j`-th record's run: one that was there and says the same, or one made from it. */
  ghost predicate Stands(done: Import, l: Legacy, j: nat, assistant: string, now: int)
    requires done.Import? && j < |done.imported|
  {
    && l.ours && done.imported[j] in done.runs
    && (SameRecord(done.imported[j], l) || Made(done.imported[j], l, assistant, now))
  }

  /** The run at `i` was made from one of the first `k` records, and no run before has its id. */
  ghost predicate MadeHere(done: Import, records: seq<Legacy>, k: nat, i: nat, assistant: string, now: int)
    requires done.Import? && i < |done.runs| && k <= |records|
  {
    && (exists j :: 0 <= j < k && Made(done.runs[i], records[j], assistant, now))
    && forall m :: 0 <= m < i ==> done.runs[m].id != done.runs[i].id
  }

  ghost predicate ImportedTo(runs: seq<Run>, records: seq<Legacy>, k: nat, done: Import, assistant: string, now: int)
    requires done.Import? && k <= |records|
  {
    && runs <= done.runs && |done.imported| == k
    && (forall j :: 0 <= j < k ==> Stands(done, records[j], j, assistant, now))
    && (forall i :: |runs| <= i < |done.runs| ==> MadeHere(done, records, k, i, assistant, now))
  }

  lemma ImportStep(runs: seq<Run>, records: seq<Legacy>, k: nat, done: Import, assistant: string, now: int)
    requires done.Import? && k < |records| && ImportedTo(runs, records, k, done, assistant, now)
    requires ImportOne(done, records[k], assistant, now).Import?
    ensures ImportedTo(runs, records, k + 1, ImportOne(done, records[k], assistant, now), assistant, now)
  {
    var next, l, more := ImportOne(done, records[k], assistant, now), records[k], k + 1;
    forall j | 0 <= j < more ensures Stands(next, records[j], j, assistant, now) {
      if j < k { assert Stands(done, records[j], j, assistant, now); }
      if |next.runs| > |done.runs| { assert next.runs[|done.runs|] == next.imported[k]; }
    }
    forall i | |runs| <= i < |next.runs| ensures MadeHere(next, records, more, i, assistant, now) {
      if i < |done.runs| {
        assert MadeHere(done, records, k, i, assistant, now);
      } else {
        assert Made(next.runs[i], records[k], assistant, now);
      }
    }
  }

  /** What an import that goes through returns, record by record, and what it adds. */
  lemma {:induction false} ImportAdds(runs: seq<Run>, records: seq<Legacy>, k: nat, assistant: string, now: int)
    requires k <= |records| && ImportAll(runs, records, k, assistant, now).Import?
    ensures ImportedTo(runs, records, k, ImportAll(runs, records, k, assistant, now), assistant, now)
  {
    if k > 0 {
      ImportAdds(runs, records, k - 1, assistant, now);
      ImportStep(runs, records, k - 1, ImportAll(runs, records, k - 1, assistant, now), assistant, now);
    }
  }

  /** The import gets to the `j`-th record and stops at it: it is not one of ours, or a run
      with its id is there already that says something else. */
  ghost predicate StopsAt(runs: seq<Run>, records: seq<Legacy>, j: nat, assistant: string, now: int, f: Failure)
    requires j < |records|
  {
    var done := ImportAll(runs, records, j, assistant, now);
    && done.Import?
    && if !records[j].ours then f == ForeignRecord
       else
         && f == LegacyConflict && FindId(done.runs, records[j].id, 0) < |done.runs|
         && !SameRecord(done.runs[FindId(done.runs, records[j].id, 0)], records[j])
  }

  lemma ImportStopsHere(runs: seq<Run>, records: seq<Legacy>, k: nat, next: nat, assistant: string, now: int,
                        f: Failure)
    requires k < |records| && next == k + 1
    ensures ImportAll(runs, records, next, assistant, now) == Stopped(f) <==>
              ImportAll(runs, records, k, assistant, now) == Stopped(f)
              || StopsAt(runs, records, k, assistant, now, f)
  {
    var done := ImportAll(runs, records, k, assistant, now);
    assert ImportAll(runs, records, next, assistant, now) == ImportOne(done, records[k], assistant, now);
  }

  lemma {:induction false} ImportStopsExactlyWhen(runs: seq<Run>, records: seq<Legacy>, k: nat, assistant: string,
                                                  now: int, f: Failure)
    requires k <= |records|
    ensures ImportAll(runs, records, k, assistant, now) == Stopped(f)
            <==> exists j :: 0 <= j < k && StopsAt(runs, records, j, assistant, now, f)
  {
    if k > 0 {
      ImportStopsExactlyWhen(runs, records, k - 1, assistant, now, f);
      ImportStopsHere(runs, records, k - 1, k, assistant, now, f);
    }
  }

  /** A whole import: it stops at the first record that is not ours or in conflict, and then
      changes nothing; else, if there is something to write and the write works, every record
      has its run. */
  lemma ImportExactlyWhen(runs: seq<Run>, records: seq<Legacy>, assistant: string, now: int, writeFails: bool,
                          f: Failure)
    requires Sound(runs)
    ensures var s := ImportLegacy(runs, records, assistant, now, writeFails);
            var done := ImportAll(runs, records, |records|, assistant, now);
            var stops := exists j :: 0 <= j < |records| && StopsAt(runs, records, j, assistant, now, f);
            && (stops ==> s == Step(runs, Raised(f)))
            && (s.result == Raised(f) ==> stops || (f == WriteFailed && writeFails && s.runs == runs))
            && (s.result.Imported? ==>
                  && done.Import? && ImportedTo(runs, records, |records|, done, assistant, now)
                  && s.result.runs == done.imported && s.runs == StoredAll(done.runs)
                  && (writeFails ==> s.runs == runs))
  {
    ImportStopsExactlyWhen(runs, records, |records|, assistant, now, f);
    var done := ImportAll(runs, records, |records|, assistant, now);
    if done.Import? {
      ImportAdds(runs, records, |records|, assistant, now);
      if |done.runs| == |runs| {
        assert done.runs == done.runs[..|runs|];
        forall i | 0 <= i < |runs| ensures StoredAll(runs)[i] == runs[i] { assert Stored(runs[i]) == runs[i]; }
        assert StoredAll(runs) == runs;
      }
    }
  }
}
