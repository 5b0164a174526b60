/**
 * Durable runs (assist/run_service.py): what one operation makes of a thread's list of
 * runs. A list is what the next read of the file gives.
 */
module RunSpec {
  import opened Common

  datatype Status = Pending | Running | Success | Error | Timeout | Interrupted | Cancelled

  datatype Mode = Turn | Child

  /** `_TRANSITIONS`. */
  predicate Allowed(from: Status, to: Status) {
    match from
    case Pending => to == Running || to == Success || to == Timeout || to == Cancelled
    case Running => to != Running
    case Interrupted => to == Cancelled
    case _ => false
  }

  /** A run. Riders are compared as a whole; Some("") stands for the empty one. */
  datatype Run = Run(
    id: string, workId: string, assistant: string, text: Option<string>, status: Status, mode: Mode,
    parentThread: Option<string>, parentRun: Option<string>, key: Option<string>,
    sender: Option<string>, rider: Option<string>, origin: Option<string>,
    activeMs: real, consumedBy: Option<string>, error: Option<string>, outcome: Option<string>,
    updated: int)

  /** Python's truth value of an optional string. */
  predicate Given(o: Option<string>) { o.Some? && o.value != "" }

  /** Reading a record turns empty optional fields into None. */
  function Read(o: Option<string>): Option<string> { if Given(o) then o else None }

  function Stored(r: Run): Run {
    r.(parentThread := Read(r.parentThread), parentRun := Read(r.parentRun), key := Read(r.key),
       sender := Read(r.sender), rider := Read(r.rider), origin := Read(r.origin),
       consumedBy := Read(r.consumedBy), error := Read(r.error), outcome := Read(r.outcome))
  }

  function StoredAll(runs: seq<Run>): (r: seq<Run>)
    ensures |r| == |runs| && forall i :: 0 <= i < |r| ==> r[i] == Stored(runs[i])
  {
    seq(|runs|, i requires 0 <= i < |runs| => Stored(runs[i]))
  }

  datatype Failure =
    | NeedsAssistant | NegativeActive | NeedsParents | NeedsSubThread | HasParents
    | VisibleThread | KeyConflict | Unreplaceable | HistoryFull | PendingFull | Duplicate
    | NotFound | NotAllowed | ForeignRecord | LegacyConflict | WriteFailed

  datatype Result = Got(run: Run) | Imported(runs: seq<Run>) | Raised(failure: Failure)

  /** The list afterwards and what the caller gets. */
  datatype Step = Step(runs: seq<Run>, result: Result)

  // ------------------------------------------------------------------
  // Looking through a list
  // ------------------------------------------------------------------

  /** The first index at which a run satisfies a test, or the length. */
  function FindId(runs: seq<Run>, id: string, i: nat): (r: nat)
    requires i <= |runs|
    ensures i <= r <= |runs|
    ensures r < |runs| ==> runs[r].id == id
    ensures forall j :: i <= j < r ==> runs[j].id != id
    decreases |runs| - i
  {
    if i == |runs| || runs[i].id == id then i else FindId(runs, id, i + 1)
  }

  function FindKey(runs: seq<Run>, key: Option<string>, i: nat): (r: nat)
    requires i <= |runs|
    ensures i <= r <= |runs|
    ensures r < |runs| ==> runs[r].key == key
    ensures forall j :: i <= j < r ==> runs[j].key != key
    decreases |runs| - i
  {
    if i == |runs| || runs[i].key == key then i else FindKey(runs, key, i + 1)
  }

  predicate Busy(runs: seq<Run>) {
    exists i :: 0 <= i < |runs| && (runs[i].status == Running || runs[i].status == Interrupted)
  }

  function PendingCount(runs: seq<Run>): nat {
    if runs == [] then 0
    else PendingCount(runs[..|runs| - 1]) + (if runs[|runs| - 1].status == Pending then 1 else 0)
  }

  function CancelOne(r: Run, now: int): Run {
    if r.status == Pending then r.(status := Cancelled, updated := now) else r
  }

  function CancelAll(runs: seq<Run>, now: int): (r: seq<Run>)
    ensures |r| == |runs| && forall i :: 0 <= i < |r| ==> r[i] == CancelOne(runs[i], now)
  {
    seq(|runs|, i requires 0 <= i < |runs| => CancelOne(runs[i], now))
  }

  // ------------------------------------------------------------------
  // create
  // ------------------------------------------------------------------

  /** The arguments; `subThread` and `visible` are what the thread's name and directory
      say. */
  datatype Args = Args(
    id: string, workId: string, assistant: string, text: Option<string>, mode: Mode,
    parentThread: Option<string>, parentRun: Option<string>, key: Option<string>,
    sender: Option<string>, rider: Option<string>, origin: Option<string>, activeMs: real,
    cancelPending: bool, maxRuns: Option<int>, maxPending: Option<int>,
    subThread: bool, visible: bool)

  function Refused(a: Args): Option<Failure> {
    if a.assistant == "" then Some(NeedsAssistant)
    else if a.activeMs < 0.0 then Some(NegativeActive)
    else if a.mode == Child && !(Given(a.parentThread) && Given(a.parentRun) && Given(a.key)) then Some(NeedsParents)
    else if a.mode == Child && !a.subThread then Some(NeedsSubThread)
    else if a.mode == Turn && (Given(a.parentThread) || Given(a.parentRun)) then Some(HasParents)
    else if a.mode == Child && a.visible then Some(VisibleThread)
    else None
  }

  function NewRun(a: Args, now: int): Run {
    Run(a.id, if a.workId == "" then a.id else a.workId, a.assistant, a.text, Pending, a.mode,
        a.parentThread, a.parentRun, a.key, a.sender, Read(a.rider), a.origin, a.activeMs, None, None, None, now)
  }

  /** Same request: what a dispatch key must agree on. */
  predicate Agrees(r: Run, a: Args) {
    && r.assistant == a.assistant && r.text == a.text && r.mode == a.mode
    && r.parentThread == a.parentThread && r.parentRun == a.parentRun
  }

  /** The limits and the id, on the list after any cancellation. */
  function Unfit(runs: seq<Run>, a: Args): Option<Failure> {
    if a.maxRuns.Some? && |runs| >= a.maxRuns.value then Some(HistoryFull)
    else if a.maxPending.Some? && PendingCount(runs) >= a.maxPending.value then Some(PendingFull)
    else if FindId(runs, a.id, 0) < |runs| then Some(Duplicate)
    else None
  }

  /** A write that fails leaves the file as it was. */
  function Written(before: seq<Run>, after: seq<Run>, result: Result, writeFails: bool): Step {
    if writeFails then Step(before, Raised(WriteFailed)) else Step(StoredAll(after), result)
  }

  function Append(before: seq<Run>, runs: seq<Run>, a: Args, now: int, writeFails: bool): Step {
    var unfit := Unfit(runs, a);
    if unfit.Some? then Step(before, Raised(unfit.value))
    else Written(before, runs + [NewRun(a, now)], Got(NewRun(a, now)), writeFails)
  }

  function Accept(runs: seq<Run>, a: Args, now: int, writeFails: bool): Step {
    if !a.cancelPending then Append(runs, runs, a, now, writeFails)
    else if Busy(runs) then Step(runs, Raised(Unreplaceable))
    else Append(runs, CancelAll(runs, now), a, now, writeFails)
  }

  function Create(runs: seq<Run>, a: Args, now: int, writeFails: bool): Step {
    var refused := Refused(a);
    if refused.Some? then Step(runs, Raised(refused.value))
    else
      var k := FindKey(runs, a.key, 0);
      if Given(a.key) && k < |runs| then
        Step(runs, if Agrees(runs[k], a) then Got(runs[k]) else Raised(KeyConflict))
      else Accept(runs, a, now, writeFails)
  }

  // ------------------------------------------------------------------
  // transition, cancel, cancel_pending
  // ------------------------------------------------------------------

  /** The optional fields of a transition. */
  datatype Patch = Patch(
    activeMs: Option<real>, consumedBy: Option<string>, error: Option<string>, rider: Option<string>,
    outcome: Option<string>)

  function Or(o: Option<string>, otherwise: Option<string>): Option<string> { if o.None? then otherwise else o }

  function Patched(r: Run, p: Patch): Run {
    r.(activeMs := if p.activeMs.None? then r.activeMs else p.activeMs.value,
       consumedBy := Or(p.consumedBy, r.consumedBy), rider := Or(p.rider, r.rider), outcome := Or(p.outcome, r.outcome))
  }

  function Transition(runs: seq<Run>, id: string, status: Status, p: Patch, now: int, writeFails: bool): Step {
    var k := FindId(runs, id, 0);
    if p.activeMs.Some? && p.activeMs.value < 0.0 then Step(runs, Raised(NegativeActive))
    else if k == |runs| then Step(runs, Raised(NotFound))
    else if status == runs[k].status then
      var changed := Patched(runs[k], p).(error := Or(p.error, runs[k].error));
      if changed == runs[k] then Step(runs, Got(runs[k]))
      else Written(runs, runs[k := changed.(updated := now)], Got(changed.(updated := now)), writeFails)
    else if !Allowed(runs[k].status, status) then Step(runs, Raised(NotAllowed))
    else
      var changed := Patched(runs[k], p).(status := status, error := p.error, updated := now);
      Written(runs, runs[k := changed], Got(changed), writeFails)
  }

  function NoPatch(): Patch { Patch(None, None, None, None, None) }

  function CancelIfPending(runs: seq<Run>, id: string, now: int, writeFails: bool): Step {
    var k := FindId(runs, id, 0);
    if k == |runs| then Step(runs, Raised(NotFound))
    else if runs[k].status != Pending then Step(runs, Raised(NotAllowed))
    else
      var changed := runs[k].(status := Cancelled, updated := now);
      Written(runs, runs[k := changed], Got(changed), writeFails)
  }

  // ------------------------------------------------------------------
  // import_legacy
  // ------------------------------------------------------------------

  datatype Legacy = Legacy(ours: bool, id: string, text: string, sender: Option<string>, rider: Option<string>,
                           origin: Option<string>)

  function LegacyRun(l: Legacy, assistant: string, now: int): Run {
    Run(l.id, l.id, assistant, Some(l.text), Pending, Turn, None, None, None, l.sender, Read(l.rider), l.origin,
        0.0, None, None, None, now)
  }

  predicate Matches(r: Run, l: Legacy) {
    r.text == Some(l.text) && r.sender == l.sender && r.rider == l.rider && r.origin == l.origin
  }

  /** The import after some records: the list, the runs returned, or the error. */
  datatype Import = Import(runs: seq<Run>, imported: seq<Run>) | Stopped(failure: Failure)

  function ImportOne(done: Import, l: Legacy, assistant: string, now: int): Import {
    if done.Stopped? then done
    else if !l.ours then Stopped(ForeignRecord)
    else
      var k := FindId(done.runs, l.id, 0);
      if k == |done.runs| then
        Import(done.runs + [LegacyRun(l, assistant, now)], done.imported + [LegacyRun(l, assistant, now)])
      else if !Matches(done.runs[k], l) then Stopped(LegacyConflict)
      else Import(done.runs, done.imported + [done.runs[k]])
  }

  function ImportAll(runs: seq<Run>, records: seq<Legacy>, k: nat, assistant: string, now: int): Import
    requires k <= |records|
  {
    if k == 0 then Import(runs, [])
    else ImportOne(ImportAll(runs, records, k - 1, assistant, now), records[k - 1], assistant, now)
  }

  function ImportLegacy(runs: seq<Run>, records: seq<Legacy>, assistant: string, now: int, writeFails: bool): Step {
    match ImportAll(runs, records, |records|, assistant, now)
    case Stopped(failure) => Step(runs, Raised(failure))
    case Import(after, imported) =>
      if |after| == |runs| then Step(runs, Imported(imported)) else Written(runs, after, Imported(imported), writeFails)
  }

  // ------------------------------------------------------------------
  // Any operation
  // ------------------------------------------------------------------

  datatype Op =
    | OpCreate(args: Args)
    | OpTransition(id: string, status: Status, patch: Patch)
    | OpCancel(cancelled: string)
    | OpCancelPending(pending: string)
    | OpImport(records: seq<Legacy>, assistant: string)

  function Do(runs: seq<Run>, op: Op, now: int, writeFails: bool): Step {
    match op
    case OpCreate(a) => Create(runs, a, now, writeFails)
    case OpTransition(id, status, patch) => Transition(runs, id, status, patch, now, writeFails)
    case OpCancel(id) => Transition(runs, id, Cancelled, NoPatch(), now, writeFails)
    case OpCancelPending(id) => CancelIfPending(runs, id, now, writeFails)
    case OpImport(records, assistant) => ImportLegacy(runs, records, assistant, now, writeFails)
  }
}
