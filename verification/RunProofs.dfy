/**
 * What every history of a thread's runs keeps (assist/run_service.py).
 */
module RunProofs {
  import opened Common
  import opened RunSpec

  // ------------------------------------------------------------------
  // The invariant
  // ------------------------------------------------------------------

  ghost predicate UniqueIds(runs: seq<Run>) {
    forall i, j :: 0 <= i < j < |runs| ==> runs[i].id != runs[j].id
  }

  ghost predicate UniqueKeys(runs: seq<Run>) {
    forall i, j :: 0 <= i < j < |runs| && Given(runs[i].key) ==> runs[i].key != runs[j].key
  }

  /** As read from the file. */
  ghost predicate Normal(runs: seq<Run>) {
    forall i :: 0 <= i < |runs| ==> Stored(runs[i]) == runs[i]
  }

  ghost predicate Sound(runs: seq<Run>) { UniqueIds(runs) && UniqueKeys(runs) && Normal(runs) }

  /** What never changes about a run. */
  ghost predicate SameWork(a: Run, b: Run) {
    && a.id == b.id && a.workId == b.workId && a.assistant == b.assistant && a.text == b.text && a.mode == b.mode
    && a.parentThread == b.parentThread && a.parentRun == b.parentRun && a.key == b.key
  }

  ghost predicate Edge(a: Status, b: Status) { a == b || Allowed(a, b) }

  /** Runs stay in place, keep their work and move along the transition graph; new ones
      start pending. */
  ghost predicate Evolves(before: seq<Run>, after: seq<Run>) {
    && |before| <= |after|
    && (forall i :: 0 <= i < |before| ==> SameWork(before[i], after[i]) && Edge(before[i].status, after[i].status))
    && (forall i :: |before| <= i < |after| ==> after[i].status == Pending)
  }

  lemma OneChanged(runs: seq<Run>, k: nat, changed: Run)
    requires Sound(runs) && k < |runs|
    requires SameWork(runs[k], changed) && Edge(runs[k].status, changed.status)
    ensures Sound(StoredAll(runs[k := changed])) && Evolves(runs, StoredAll(runs[k := changed]))
  {
    assert Stored(runs[k]) == runs[k];
    var after := StoredAll(runs[k := changed]);
    forall i | 0 <= i < |runs| ensures SameWork(runs[i], after[i]) && Edge(runs[i].status, after[i].status) {
      assert Stored(runs[i]) == runs[i];
    }
    SameWorkIsSound(runs, after);
  }

  lemma SameWorkIsSound(runs: seq<Run>, after: seq<Run>)
    requires UniqueIds(runs) && UniqueKeys(runs) && |after| == |runs|
    requires forall i :: 0 <= i < |runs| ==> SameWork(runs[i], after[i])
    ensures UniqueIds(after) && UniqueKeys(after)
  {
    forall i, j | 0 <= i < j < |after| ensures after[i].id != after[j].id {
      assert SameWork(runs[i], after[i]) && SameWork(runs[j], after[j]);
    }
    forall i, j | 0 <= i < j < |after| && Given(after[i].key) ensures after[i].key != after[j].key {
      assert SameWork(runs[i], after[i]) && SameWork(runs[j], after[j]);
    }
  }

  lemma OneAdded(runs: seq<Run>, added: Run)
    requires UniqueIds(runs) && UniqueKeys(runs)
    requires forall i :: 0 <= i < |runs| ==> runs[i].id != added.id
    requires Given(added.key) ==> forall i :: 0 <= i < |runs| ==> runs[i].key != added.key
    ensures UniqueIds(runs + [added]) && UniqueKeys(runs + [added])
  {
  }

  // ------------------------------------------------------------------
  // Each operation
  // ------------------------------------------------------------------

  /** What a transition may make of a run: the patch, a status it can move to and, of
      the rest, the error and the time. */
  ghost predicate Follows(r: Run, changed: Run) {
    SameWork(r, changed) && Edge(r.status, changed.status)
  }

  lemma PatchFollows(r: Run, p: Patch, status: Status, error: Option<string>, now: int)
    requires Edge(r.status, status)
    ensures Follows(r, Patched(r, p).(status := status, error := error, updated := now))
  {
  }

  /** A transition rewrites one run, or nothing. */
  lemma TransitionRewrites(runs: seq<Run>, id: string, status: Status, p: Patch, now: int, writeFails: bool)
    returns (k: nat, changed: Run)
    ensures var after := Transition(runs, id, status, p, now, writeFails).runs;
            after == runs || (k < |runs| && Follows(runs[k], changed) && after == StoredAll(runs[k := changed]))
  {
    k := FindId(runs, id, 0);
    if k < |runs| {
      if status == runs[k].status {
        var error := Or(p.error, runs[k].error);
        changed := Patched(runs[k], p).(error := error).(updated := now);
      } else {
        changed := Patched(runs[k], p).(status := status, error := p.error, updated := now);
      }
      if Edge(runs[k].status, status) { PatchFollows(runs[k], p, status, changed.error, now); }
    } else {
      changed := Run("", "", "", None, status, Turn, None, None, None, None, None, None, 0.0, None, None, None, now);
    }
  }

  lemma TransitionSound(runs: seq<Run>, id: string, status: Status, p: Patch, now: int, writeFails: bool)
    requires Sound(runs)
    ensures var after := Transition(runs, id, status, p, now, writeFails).runs;
            Sound(after) && Evolves(runs, after)
  {
    var k, changed := TransitionRewrites(runs, id, status, p, now, writeFails);
    if k < |runs| && Follows(runs[k], changed) {
      OneChanged(runs, k, changed);
    }
  }

  lemma CancelIfPendingSound(runs: seq<Run>, id: string, now: int, writeFails: bool)
    requires Sound(runs)
    ensures var after := CancelIfPending(runs, id, now, writeFails).runs;
            Sound(after) && Evolves(runs, after)
  {
    var k := FindId(runs, id, 0);
    if k < |runs| && runs[k].status == Pending {
      OneChanged(runs, k, runs[k].(status := Cancelled, updated := now));
    }
  }

  /** A list with one more run, all as stored. */
  lemma StoredWithOne(before: seq<Run>, runs: seq<Run>, added: Run)
    requires Normal(runs) && UniqueIds(runs) && UniqueKeys(runs) && added.status == Pending
    requires |before| == |runs|
    requires forall i :: 0 <= i < |runs| ==> SameWork(before[i], runs[i]) && Edge(before[i].status, runs[i].status)
    requires forall i :: 0 <= i < |runs| ==> runs[i].id != added.id
    requires Given(added.key) ==> forall i :: 0 <= i < |runs| ==> runs[i].key != added.key
    ensures Sound(StoredAll(runs + [added])) && Evolves(before, StoredAll(runs + [added]))
    ensures StoredAll(runs + [added]) == runs + [Stored(added)]
  {
    var after := StoredAll(runs + [added]);
    forall i | 0 <= i < |runs| ensures after[i] == runs[i] {
      assert Stored(runs[i]) == runs[i];
    }
    assert after == runs + [Stored(added)];
    OneAdded(runs, Stored(added));
  }

  lemma CancelAllSound(runs: seq<Run>, now: int)
    requires Sound(runs)
    ensures Sound(CancelAll(runs, now))
    ensures forall i :: 0 <= i < |runs| ==>
              SameWork(runs[i], CancelAll(runs, now)[i]) && Edge(runs[i].status, CancelAll(runs, now)[i].status)
  {
    var after := CancelAll(runs, now);
    forall i | 0 <= i < |runs| ensures SameWork(runs[i], after[i]) && Stored(after[i]) == after[i] {
      assert Stored(runs[i]) == runs[i];
    }
    SameWorkIsSound(runs, after);
  }

  lemma AppendSound(before: seq<Run>, runs: seq<Run>, a: Args, now: int, writeFails: bool)
    requires Sound(before) && Sound(runs) && |before| == |runs|
    requires forall i :: 0 <= i < |runs| ==> SameWork(before[i], runs[i]) && Edge(before[i].status, runs[i].status)
    requires Given(a.key) ==> forall i :: 0 <= i < |runs| ==> before[i].key != a.key
    ensures var after := Append(before, runs, a, now, writeFails).runs;
            Sound(after) && Evolves(before, after)
  {
    if Unfit(runs, a).None? && !writeFails {
      StoredWithOne(before, runs, NewRun(a, now));
    }
  }

  lemma CreateSound(runs: seq<Run>, a: Args, now: int, writeFails: bool)
    requires Sound(runs)
    ensures var after := Create(runs, a, now, writeFails).runs;
            Sound(after) && Evolves(runs, after)
  {
    if Refused(a).None? && (Given(a.key) ==> FindKey(runs, a.key, 0) == |runs|) {
      if a.cancelPending {
        CancelAllSound(runs, now);
        AppendSound(runs, CancelAll(runs, now), a, now, writeFails);
      } else {
        AppendSound(runs, runs, a, now, writeFails);
      }
    }
  }

  /** The list while importing: not yet written, so the new runs are as given. */
  ghost predicate Importing(before: seq<Run>, runs: seq<Run>) {
    && |before| <= |runs| && runs[..|before|] == before
    && UniqueIds(runs) && UniqueKeys(before)
    && forall i :: |before| <= i < |runs| ==> runs[i].status == Pending && runs[i].key.None?
  }

  lemma {:induction false} ImportAllSound(runs: seq<Run>, records: seq<Legacy>, k: nat, assistant: string, now: int)
    requires Sound(runs) && k <= |records|
    ensures var done := ImportAll(runs, records, k, assistant, now);
            done.Import? ==> Importing(runs, done.runs)
  {
    if k > 0 {
      ImportAllSound(runs, records, k - 1, assistant, now);
    } else {
      assert runs[..|runs|] == runs;
    }
  }

  lemma ImportSound(runs: seq<Run>, records: seq<Legacy>, assistant: string, now: int, writeFails: bool)
    requires Sound(runs)
    ensures var after := ImportLegacy(runs, records, assistant, now, writeFails).runs;
            Sound(after) && Evolves(runs, after)
  {
    ImportAllSound(runs, records, |records|, assistant, now);
    var done := ImportAll(runs, records, |records|, assistant, now);
    if done.Import? && |done.runs| > |runs| {
      ImportedSound(runs, done.runs);
    }
  }

  lemma ImportedSound(before: seq<Run>, runs: seq<Run>)
    requires Sound(before) && Importing(before, runs)
    ensures Sound(StoredAll(runs)) && Evolves(before, StoredAll(runs))
  {
    var after := StoredAll(runs);
    forall i | 0 <= i < |before| ensures after[i] == before[i] {
      assert runs[i] == before[i];
      assert Stored(before[i]) == before[i];
    }
  }

  /** Every operation keeps ids and dispatch keys unique, moves each run along the
      transition graph and adds runs only as pending. */
  lemma OpSound(runs: seq<Run>, op: Op, now: int, writeFails: bool)
    requires Sound(runs)
    ensures Sound(Do(runs, op, now, writeFails).runs) && Evolves(runs, Do(runs, op, now, writeFails).runs)
  {
    match op
    case OpCreate(a) => CreateSound(runs, a, now, writeFails);
    case OpTransition(id, status, patch) => TransitionSound(runs, id, status, patch, now, writeFails);
    case OpCancel(id) => TransitionSound(runs, id, Cancelled, NoPatch(), now, writeFails);
    case OpCancelPending(id) => CancelIfPendingSound(runs, id, now, writeFails);
    case OpImport(records, assistant) => ImportSound(runs, records, assistant, now, writeFails);
  }

  // ------------------------------------------------------------------
  // Whole histories
  // ------------------------------------------------------------------

  datatype Event = Event(op: Op, now: int, writeFails: bool)

  /** The lists between the operations of a history. */
  ghost predicate History(states: seq<seq<Run>>, events: seq<Event>) {
    && |states| == |events| + 1
    && forall k :: 0 <= k < |events| ==>
         states[k + 1] == Do(states[k], events[k].op, events[k].now, events[k].writeFails).runs
  }

  ghost predicate Evolving(states: seq<seq<Run>>) {
    && (forall k :: 0 <= k < |states| ==> Sound(states[k]))
    && (forall k :: 0 <= k < |states| - 1 ==> Evolves(states[k], states[k + 1]))
  }

  /** Every history of a sound list, the empty one among them, is sound throughout. */
  lemma {:induction false} HistoryEvolves(states: seq<seq<Run>>, events: seq<Event>)
    requires History(states, events) && Sound(states[0])
    ensures Evolving(states)
    decreases |events|
  {
    if events != [] {
      var k := |events| - 1;
      HistoryEvolves(states[..k + 1], events[..k]);
      assert Sound(states[..k + 1][k]);
      OpSound(states[k], events[k].op, events[k].now, events[k].writeFails);
      LastEvolves(states, k);
    }
  }

  lemma LastEvolves(states: seq<seq<Run>>, k: nat)
    requires |states| == k + 2 && Evolving(states[..k + 1])
    requires Sound(states[k + 1]) && Evolves(states[k], states[k + 1])
    ensures Evolving(states)
  {
    forall j | 0 <= j < |states| ensures Sound(states[j]) {
      if j <= k { assert states[j] == states[..k + 1][j]; }
    }
    forall j | 0 <= j < |states| - 1 ensures Evolves(states[j], states[j + 1]) {
      if j < k { assert states[j] == states[..k + 1][j] && states[j + 1] == states[..k + 1][j + 1]; }
    }
  }

  /** The statuses that a run can still come to have. */
  predicate Reaches(a: Status, b: Status) {
    match a
    case Pending => true
    case Running => true
    case Interrupted => b == Interrupted || b == Cancelled
    case _ => a == b
  }

  /** Over any stretch of a history a run stays where it is, keeps its work, and a
      terminal status is final but for interrupted, which can only be cancelled. */
  lemma {:induction false} StatusesAreFinal(states: seq<seq<Run>>, m: nat, n: nat, i: nat)
    requires Evolving(states) && m <= n < |states| && i < |states[m]|
    ensures i < |states[n]| && SameWork(states[m][i], states[n][i]) && Reaches(states[m][i].status, states[n][i].status)
    decreases n
  {
    if m < n {
      StatusesAreFinal(states, m, n - 1, i);
      assert Evolves(states[n - 1], states[n]);
      var a, b := states[n - 1][i], states[n][i];
      assert SameWork(a, b) && Edge(a.status, b.status);
    }
  }

  // ------------------------------------------------------------------
  // Dispatch keys
  // ------------------------------------------------------------------

  /** Optional arguments that the record gives back as they were. */
  predicate Plain(a: Args) { a.parentThread != Some("") && a.parentRun != Some("") }

  /** A second request with the same dispatch key and the same work. */
  predicate SameRequest(a: Args, b: Args) {
    && a.key == b.key && a.assistant == b.assistant && a.text == b.text && a.mode == b.mode
    && a.parentThread == b.parentThread && a.parentRun == b.parentRun
  }

  lemma KeyFindsItsRun(runs: seq<Run>, i: nat)
    requires Sound(runs) && i < |runs| && Given(runs[i].key)
    ensures FindKey(runs, runs[i].key, 0) == i
  {
    assert runs[FindKey(runs, runs[i].key, 0)].key == runs[i].key;
  }

  /** A stored run that stands for a request, optional fields read back. */
  ghost predicate StandsFor(r: Run, a: Args) {
    && r.key == a.key && r.assistant == a.assistant && r.text == a.text && r.mode == a.mode
    && r.parentThread == Read(a.parentThread) && r.parentRun == Read(a.parentRun)
  }

  /** The run that a successful create leaves, as a read of the file gives it. */
  lemma CreatedStands(runs: seq<Run>, a: Args, now: int, writeFails: bool) returns (i: nat)
    requires Sound(runs) && Create(runs, a, now, writeFails).result.Got? && Given(a.key)
    ensures var s := Create(runs, a, now, writeFails);
            i < |s.runs| && s.runs[i].id == s.result.run.id && StandsFor(s.runs[i], a)
  {
    var k := FindKey(runs, a.key, 0);
    if k < |runs| {
      i := k;
      assert Stored(runs[k]) == runs[k];
    } else {
      i := |runs|;
    }
  }

  lemma RecreateHere(runs: seq<Run>, i: nat, a: Args, now: int, writeFails: bool)
    requires Sound(runs) && i < |runs| && StandsFor(runs[i], a) && Given(a.key) && Refused(a).None?
    ensures Create(runs, a, now, writeFails)
            == Step(runs, if Plain(a) then Got(runs[i]) else Raised(KeyConflict))
  {
    KeyFindsItsRun(runs, i);
  }

  /** What stands for a request still does after any history. */
  lemma StillStands(states: seq<seq<Run>>, i: nat, a: Args)
    requires Evolving(states) && |states| > 0 && i < |states[0]| && StandsFor(states[0][i], a)
    ensures var last := states[|states| - 1];
            i < |last| && last[i].id == states[0][i].id && StandsFor(last[i], a)
  {
    StatusesAreFinal(states, 0, |states| - 1, i);
  }

  /** Creating again with the same key and the same work, after any other operations,
      gives the same run and adds none, exactly when the optional parent fields are not
      empty strings: those are read back as None and then conflict. */
  lemma RecreateExactlyWhen(runs: seq<Run>, a: Args, first: Event, states: seq<seq<Run>>, events: seq<Event>,
                            again: Args, now: int, writeFails: bool)
    requires Sound(runs) && Given(a.key) && Create(runs, a, first.now, first.writeFails).result.Got?
    requires History(states, events) && states[0] == Create(runs, a, first.now, first.writeFails).runs
    requires SameRequest(a, again) && Refused(again).None?
    ensures var id := Create(runs, a, first.now, first.writeFails).result.run.id;
            var last := states[|events|];
            var second := Create(last, again, now, writeFails);
            && second.runs == last
            && (Plain(again) ==> second.result.Got? && second.result.run.id == id)
            && (!Plain(again) ==> second.result == Raised(KeyConflict))
  {
    CreateSound(runs, a, first.now, first.writeFails);
    var i := CreatedStands(runs, a, first.now, first.writeFails);
    HistoryEvolves(states, events);
    StillStands(states, i, a);
    RecreateHere(states[|events|], i, again, now, writeFails);
  }

  /** Such a request: an empty parent thread passes as no parent, is stored as none, and
      the same request again is a conflict. */
  lemma EmptyParentConflicts() returns (a: Args)
    ensures Create([], a, 0, false).result.Got?
    ensures Create(Create([], a, 0, false).runs, a, 0, false).result == Raised(KeyConflict)
  {
    a := Args("r", "", "a", None, Turn, Some(""), None, Some("k"), None, None, None, 0.0, false, None, None,
              false, false);
    var s := Create([], a, 0, false);
    assert s == Step(StoredAll([] + [NewRun(a, 0)]), Got(NewRun(a, 0)));
    assert s.runs[0] == Stored(NewRun(a, 0));
    var events: seq<Event> := [];
    RecreateExactlyWhen([], a, Event(OpCreate(a), 0, false), [s.runs], events, a, 0, false);
  }

  // ------------------------------------------------------------------
  // Replacement and limits
  // ------------------------------------------------------------------

  lemma {:induction false} NonePending(runs: seq<Run>)
    requires forall i :: 0 <= i < |runs| ==> runs[i].status != Pending
    ensures PendingCount(runs) == 0
  {
    if runs != [] { NonePending(runs[..|runs| - 1]); }
  }

  lemma {:induction false} StoredCount(runs: seq<Run>)
    ensures PendingCount(StoredAll(runs)) == PendingCount(runs)
  {
    if runs != [] {
      StoredCount(runs[..|runs| - 1]);
      assert StoredAll(runs)[..|runs| - 1] == StoredAll(runs[..|runs| - 1]);
    }
  }

  lemma AddedCount(runs: seq<Run>, a: Args, now: int)
    ensures PendingCount(StoredAll(runs + [NewRun(a, now)])) == PendingCount(runs) + 1
  {
    StoredCount(runs + [NewRun(a, now)]);
    assert (runs + [NewRun(a, now)])[..|runs|] == runs;
  }

  lemma AppendCounts(before: seq<Run>, runs: seq<Run>, a: Args, now: int, writeFails: bool)
    requires Sound(before) && |runs| == |before|
    ensures var s := Append(before, runs, a, now, writeFails);
            s.runs == before
            || (&& |s.runs| == |runs| + 1 && PendingCount(s.runs) == PendingCount(runs) + 1
                && s.runs[|runs|].id == a.id && s.runs[|runs|].status == Pending
                && (a.maxRuns.Some? ==> |s.runs| <= a.maxRuns.value)
                && (a.maxPending.Some? ==> PendingCount(s.runs) <= a.maxPending.value))
  {
    AddedCount(runs, a, now);
  }

  /** A replacing create leaves the new run as the only pending one, or changes nothing. */
  lemma ReplaceLeavesOne(runs: seq<Run>, a: Args, now: int, writeFails: bool)
    requires Sound(runs) && a.cancelPending
    ensures var s := Create(runs, a, now, writeFails);
            || s.runs == runs
            || (&& PendingCount(s.runs) == 1 && |s.runs| == |runs| + 1
                && s.runs[|runs|].id == a.id && s.runs[|runs|].status == Pending)
  {
    AcceptReplaces(runs, a, now, writeFails);
  }

  lemma AcceptReplaces(runs: seq<Run>, a: Args, now: int, writeFails: bool)
    requires Sound(runs) && a.cancelPending
    ensures var s := Accept(runs, a, now, writeFails);
            || s.runs == runs
            || (&& PendingCount(s.runs) == 1 && |s.runs| == |runs| + 1
                && s.runs[|runs|].id == a.id && s.runs[|runs|].status == Pending)
  {
    NonePending(CancelAll(runs, now));
    AppendCounts(runs, CancelAll(runs, now), a, now, writeFails);
  }

  /** A create never takes a thread beyond the limits it was given. */
  lemma LimitsHold(runs: seq<Run>, a: Args, now: int, writeFails: bool)
    requires Sound(runs)
    ensures var s := Create(runs, a, now, writeFails);
            s.runs != runs ==>
              && |s.runs| == |runs| + 1
              && (a.maxRuns.Some? ==> |s.runs| <= a.maxRuns.value)
              && (a.maxPending.Some? ==> PendingCount(s.runs) <= a.maxPending.value)
  {
    if a.cancelPending {
      AppendCounts(runs, CancelAll(runs, now), a, now, writeFails);
    } else {
      AppendCounts(runs, runs, a, now, writeFails);
    }
  }

  // ------------------------------------------------------------------
  // Importing again
  // ------------------------------------------------------------------

  /** The record stands in the stored list as it would be imported. */
  ghost predicate Standing(runs: seq<Run>, l: Legacy) {
    var k := FindId(runs, l.id, 0);
    && l.ours && k < |runs|
    && runs[k].text == Some(l.text) && runs[k].sender == Read(l.sender) && runs[k].rider == Read(l.rider)
    && runs[k].origin == Read(l.origin)
  }

  predicate PlainRecord(l: Legacy) { l.sender != Some("") && l.rider != Some("") && l.origin != Some("") }

  /** Importing records that stand already changes nothing, and goes through exactly when
      none has an empty optional field. */
  lemma {:induction false} ImportStanding(runs: seq<Run>, records: seq<Legacy>, k: nat, assistant: string, now: int)
    requires k <= |records| && forall j :: 0 <= j < |records| ==> Standing(runs, records[j])
    ensures var done := ImportAll(runs, records, k, assistant, now);
            if forall j :: 0 <= j < k ==> PlainRecord(records[j])
            then done.Import? && done.runs == runs && |done.imported| == k
            else done == Stopped(LegacyConflict)
  {
    if k > 0 {
      ImportStanding(runs, records, k - 1, assistant, now);
      StandingStep(runs, ImportAll(runs, records, k - 1, assistant, now), records[k - 1], assistant, now);
    }
  }

  lemma StandingStep(runs: seq<Run>, done: Import, l: Legacy, assistant: string, now: int)
    requires Standing(runs, l) && (done.Import? ==> done.runs == runs)
    ensures var next := ImportOne(done, l, assistant, now);
            if done.Stopped? then next == done
            else if PlainRecord(l) then next.Import? && next.runs == runs && |next.imported| == |done.imported| + 1
            else next == Stopped(LegacyConflict)
  {
  }

  /** While importing, each record is there with the very fields it came with; runs from
      the file read back as they are. */
  ghost predicate Matched(runs: seq<Run>, l: Legacy) {
    var k := FindId(runs, l.id, 0);
    l.ours && k < |runs| && (Matches(runs[k], l) || TakenFrom(runs[k], l))
  }

  /** A run made from this record: an empty rider is None already. */
  ghost predicate TakenFrom(r: Run, l: Legacy) {
    r.text == Some(l.text) && r.sender == l.sender && r.rider == Read(l.rider) && r.origin == l.origin
  }

  lemma FirstStays(runs: seq<Run>, more: Run, id: string)
    requires FindId(runs, id, 0) < |runs|
    ensures FindId(runs + [more], id, 0) == FindId(runs, id, 0)
  {
    var k := FindId(runs + [more], id, 0);
    var j := FindId(runs, id, 0);
    assert (runs + [more])[j].id == id;
    assert k < |runs| ==> runs[k].id == (runs + [more])[k].id;
  }

  lemma {:induction false} ImportMatches(runs: seq<Run>, records: seq<Legacy>, k: nat, assistant: string, now: int)
    requires k <= |records| && ImportAll(runs, records, k, assistant, now).Import?
    ensures forall j :: 0 <= j < k ==> Matched(ImportAll(runs, records, k, assistant, now).runs, records[j])
  {
    if k > 0 {
      ImportMatches(runs, records, k - 1, assistant, now);
      var done := ImportAll(runs, records, k - 1, assistant, now);
      var l := records[k - 1];
      if FindId(done.runs, l.id, 0) == |done.runs| {
        var added := LegacyRun(l, assistant, now);
        forall j | 0 <= j < k ensures Matched(done.runs + [added], records[j]) {
          if j < k - 1 {
            assert Matched(done.runs, records[j]);
            FirstStays(done.runs, added, records[j].id);
          } else {
            LastFound(done.runs, added);
          }
        }
      }
    }
  }

  lemma LastFound(runs: seq<Run>, added: Run)
    requires FindId(runs, added.id, 0) == |runs|
    ensures FindId(runs + [added], added.id, 0) == |runs|
  {
    assert (runs + [added])[|runs|].id == added.id;
    forall j | 0 <= j < |runs| ensures (runs + [added])[j].id != added.id {
      assert (runs + [added])[j] == runs[j];
    }
  }

  lemma StoredStanding(runs: seq<Run>, l: Legacy)
    requires Matched(runs, l)
    ensures Standing(StoredAll(runs), l)
  {
    var k := FindId(runs, l.id, 0);
    var i := FindId(StoredAll(runs), l.id, 0);
    assert StoredAll(runs)[k].id == l.id;
    assert i < |runs| ==> runs[i].id == StoredAll(runs)[i].id;
  }

  /** A successful import can be repeated at once without any effect, exactly when no
      record has an empty optional field. */
  lemma ReimportExactlyWhen(runs: seq<Run>, records: seq<Legacy>, assistant: string, now: int, later: int,
                            writeFails: bool)
    requires Sound(runs) && ImportLegacy(runs, records, assistant, now, false).result.Imported?
    ensures var after := ImportLegacy(runs, records, assistant, now, false).runs;
            var again := ImportLegacy(after, records, assistant, later, writeFails);
            && again.runs == after
            && if forall j :: 0 <= j < |records| ==> PlainRecord(records[j]) then again.result.Imported?
               else again.result == Raised(LegacyConflict)
  {
    var after := ImportLegacy(runs, records, assistant, now, false).runs;
    ImportMatches(runs, records, |records|, assistant, now);
    ImportAllSound(runs, records, |records|, assistant, now);
    var done := ImportAll(runs, records, |records|, assistant, now);
    if |done.runs| == |runs| {
      assert done.runs == done.runs[..|runs|];
      assert StoredAll(runs) == runs by {
        forall i | 0 <= i < |runs| ensures StoredAll(runs)[i] == runs[i] { assert Stored(runs[i]) == runs[i]; }
      }
    }
    assert after == StoredAll(done.runs);
    forall j | 0 <= j < |records| ensures Standing(after, records[j]) {
      StoredStanding(done.runs, records[j]);
    }
    ImportStanding(after, records, |records|, assistant, later);
  }

  /** Such a record: its empty sender is stored as none, and the import of the same record
      again is a conflict. */
  lemma EmptySenderConflicts() returns (records: seq<Legacy>)
    ensures ImportLegacy([], records, "a", 0, false).result.Imported?
    ensures ImportLegacy(ImportLegacy([], records, "a", 0, false).runs, records, "a", 0, false).result
            == Raised(LegacyConflict)
  {
    var l := Legacy(true, "r", "text", Some(""), None, None);
    records := [l];
    var none: seq<Run> := [];
    assert ImportAll(none, records, 0, "a", 0) == Import(none, none);
    assert ImportAll(none, records, 1, "a", 0) == ImportOne(Import(none, none), l, "a", 0);
    ReimportExactlyWhen(none, records, "a", 0, 0, false);
    assert !PlainRecord(records[0]);
  }
}
