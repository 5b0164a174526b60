/**
 * The run service (assist/run_service.py): every operation reads a thread's list under
 * the lock, changes it and replaces the file.
 */
module RunService {
  import opened Common
  import opened RunSpec
  import opened RunProofs

  class RunService {
    var files: map<string, seq<Run>>

    constructor ()
      ensures Valid() && files == map[]
    {
      files := map[];
    }

    function Read(tid: string): seq<Run>
      reads this
    {
      if tid in files then files[tid] else []
    }

    ghost predicate Valid()
      reads this
    {
      forall tid :: tid in files ==> Sound(files[tid])
    }

    /** The state after a step on one thread's file: other files are as they were. */
    twostate predicate Stepped(tid: string, s: Step)
      reads this
    {
      && Read(tid) == s.runs
      && forall other :: other != tid ==> Read(other) == old(Read(other))
    }

    method Write(tid: string, runs: seq<Run>, fails: bool) returns (ok: bool)
      modifies this
      ensures ok == !fails
      ensures files == if fails then old(files) else old(files)[tid := StoredAll(runs)]
    {
      ok := !fails;
      if ok {
        files := files[tid := StoredAll(runs)];
      }
    }

    /** The checks that come before the lock is taken, and the one on the directory. */
    method Validate(a: Args) returns (r: Option<Failure>)
      ensures r == Refused(a)
    {
      if a.assistant == "" {
        return Some(NeedsAssistant);
      }
      if a.activeMs < 0.0 {
        return Some(NegativeActive);
      }
      if a.mode == Child {
        if !Given(a.parentThread) || !Given(a.parentRun) || !Given(a.key) {
          return Some(NeedsParents);
        }
        if !a.subThread {
          return Some(NeedsSubThread);
        }
        if a.visible {
          return Some(VisibleThread);
        }
      } else if Given(a.parentThread) || Given(a.parentRun) {
        return Some(HasParents);
      }
      r := None;
    }

    method CancelEvery(runs: seq<Run>, now: int) returns (r: seq<Run>)
      ensures r == CancelAll(runs, now)
    {
      r := [];
      for i := 0 to |runs|
        invariant r == CancelAll(runs, now)[..i]
      {
        r := r + [if runs[i].status == Pending then runs[i].(status := Cancelled, updated := now) else runs[i]];
      }
    }

    method CountPending(runs: seq<Run>) returns (n: nat)
      ensures n == PendingCount(runs)
    {
      n := 0;
      for i := 0 to |runs|
        invariant n == PendingCount(runs[..i])
      {
        assert runs[..i + 1][..i] == runs[..i];
        if runs[i].status == Pending {
          n := n + 1;
        }
      }
      assert runs[..|runs|] == runs;
    }

    method AnyBusy(runs: seq<Run>) returns (r: bool)
      ensures r == Busy(runs)
    {
      for i := 0 to |runs|
        invariant forall j :: 0 <= j < i ==> runs[j].status != Running && runs[j].status != Interrupted
      {
        if runs[i].status == Running || runs[i].status == Interrupted {
          return true;
        }
      }
      r := false;
    }

    method Find(runs: seq<Run>, id: string) returns (k: nat)
      ensures k == FindId(runs, id, 0)
    {
      for i := 0 to |runs|
        invariant FindId(runs, id, 0) == FindId(runs, id, i)
      {
        if runs[i].id == id {
          return i;
        }
      }
      k := |runs|;
    }

    method CheckLimits(runs: seq<Run>, a: Args) returns (r: Option<Failure>)
      ensures r == Unfit(runs, a)
    {
      if a.maxRuns.Some? && |runs| >= a.maxRuns.value {
        return Some(HistoryFull);
      }
      if a.maxPending.Some? {
        var n := CountPending(runs);
        if n >= a.maxPending.value {
          return Some(PendingFull);
        }
      }
      var k := Find(runs, a.id);
      r := if k < |runs| then Some(Duplicate) else None;
    }

    method Create(tid: string, a: Args, now: int, writeFails: bool) returns (r: Result)
      requires Valid()
      modifies this
      ensures Valid()
      ensures var s := RunSpec.Create(old(Read(tid)), a, now, writeFails);
              r == s.result && Stepped(tid, s)
    {
      CreateSound(Read(tid), a, now, writeFails);
      var refused := Validate(a);
      if refused.Some? {
        return Raised(refused.value);
      }
      var runs := Read(tid);
      if Given(a.key) {
        var k := FindKey(runs, a.key, 0);
        if k < |runs| {
          return if Agrees(runs[k], a) then Got(runs[k]) else Raised(KeyConflict);
        }
      }
      if a.cancelPending {
        var busy := AnyBusy(runs);
        if busy {
          return Raised(Unreplaceable);
        }
        runs := CancelEvery(runs, now);
      }
      var unfit := CheckLimits(runs, a);
      if unfit.Some? {
        return Raised(unfit.value);
      }
      var run := NewRun(a, now);
      var ok := Write(tid, runs + [run], writeFails);
      r := if ok then Got(run) else Raised(WriteFailed);
    }

    method Transition(tid: string, id: string, status: Status, p: Patch, now: int, writeFails: bool) returns (r: Result)
      requires Valid()
      modifies this
      ensures Valid()
      ensures var s := RunSpec.Transition(old(Read(tid)), id, status, p, now, writeFails);
              r == s.result && Stepped(tid, s)
    {
      TransitionSound(Read(tid), id, status, p, now, writeFails);
      if p.activeMs.Some? && p.activeMs.value < 0.0 {
        return Raised(NegativeActive);
      }
      var runs := Read(tid);
      var k := Find(runs, id);
      if k == |runs| {
        return Raised(NotFound);
      }
      var current := runs[k];
      var changed := Patched(current, p);
      if status == current.status {
        changed := changed.(error := Or(p.error, current.error));
        if changed == current {
          return Got(current);
        }
        changed := changed.(updated := now);
      } else {
        if !Allowed(current.status, status) {
          return Raised(NotAllowed);
        }
        changed := changed.(status := status, error := p.error, updated := now);
      }
      var ok := Write(tid, runs[k := changed], writeFails);
      r := if ok then Got(changed) else Raised(WriteFailed);
    }

    method Cancel(tid: string, id: string, now: int, writeFails: bool) returns (r: Result)
      requires Valid()
      modifies this
      ensures Valid()
      ensures var s := RunSpec.Transition(old(Read(tid)), id, Cancelled, NoPatch(), now, writeFails);
              r == s.result && Stepped(tid, s)
    {
      r := Transition(tid, id, Cancelled, NoPatch(), now, writeFails);
    }

    method CancelPending(tid: string, id: string, now: int, writeFails: bool) returns (r: Result)
      requires Valid()
      modifies this
      ensures Valid()
      ensures var s := CancelIfPending(old(Read(tid)), id, now, writeFails);
              r == s.result && Stepped(tid, s)
    {
      CancelIfPendingSound(Read(tid), id, now, writeFails);
      var runs := Read(tid);
      var k := Find(runs, id);
      if k == |runs| {
        return Raised(NotFound);
      }
      if runs[k].status != Pending {
        return Raised(NotAllowed);
      }
      var changed := runs[k].(status := Cancelled, updated := now);
      var ok := Write(tid, runs[k := changed], writeFails);
      r := if ok then Got(changed) else Raised(WriteFailed);
    }

    method ImportLegacy(tid: string, records: seq<Legacy>, assistant: string, now: int, writeFails: bool)
      returns (r: Result)
      requires Valid()
      modifies this
      ensures Valid()
      ensures var s := RunSpec.ImportLegacy(old(Read(tid)), records, assistant, now, writeFails);
              r == s.result && Stepped(tid, s)
    {
      ImportSound(Read(tid), records, assistant, now, writeFails);
      var start := Read(tid);
      var done := Import(start, []);
      var changed := false;
      for i := 0 to |records|
        invariant done == ImportAll(start, records, i, assistant, now) && done.Import?
        invariant files == old(files) && |done.runs| >= |start| && (changed <==> |done.runs| > |start|)
      {
        done := ImportOne(done, records[i], assistant, now);
        if done.Stopped? {
          StoppedStays(start, records, i + 1, assistant, now);
          return Raised(done.failure);
        }
        changed := |done.runs| > |start|;
      }
      if changed {
        var ok := Write(tid, done.runs, writeFails);
        return if ok then Imported(done.imported) else Raised(WriteFailed);
      }
      r := Imported(done.imported);
    }
  }

  lemma {:induction false} StoppedStays(runs: seq<Run>, records: seq<Legacy>, k: nat, assistant: string, now: int)
    requires k <= |records| && ImportAll(runs, records, k, assistant, now).Stopped?
    ensures ImportAll(runs, records, |records|, assistant, now) == ImportAll(runs, records, k, assistant, now)
    decreases |records| - k
  {
    if k < |records| { StoppedStays(runs, records, k + 1, assistant, now); }
  }
}
