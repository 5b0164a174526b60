/**
 * The rollback loop around an agent (assist/checkpoint_rollback.py).
 */
module Rollback {
  import opened Common

  /** How one invocation ends: with a result, with an error that is rolled back, or with
      any other error. */
  datatype Outcome = Return(value: int) | Retryable | Fatal

  /** The agent as the loop sees it: how invocation k ends, and the checkpoints that its
      first failure finds, newest first; true marks a turn's input checkpoint. */
  datatype Agent = Agent(outcome: nat -> Outcome, history: seq<bool>)

  datatype Result = Returned(value: int) | Raised | RuntimeError

  /** Just behind the first input checkpoint from `i` on, or the end. */
  function TurnEnd(history: seq<bool>, i: nat): (r: nat)
    requires i <= |history|
    ensures i <= r <= |history|
    ensures forall j :: i <= j < r - 1 ==> !history[j]
    ensures r < |history| ==> r > i && history[r - 1]
    decreases |history| - i
  {
    if i == |history| then i else if history[i] then i + 1 else TurnEnd(history, i + 1)
  }

  /** The checkpoints of the current turn: up to and with the newest input one. */
  function Turn(history: seq<bool>): seq<bool> { history[..TurnEnd(history, 0)] }

  method Truncate(history: seq<bool>) returns (r: seq<bool>)
    ensures r == Turn(history)
  {
    for i := 0 to |history|
      invariant TurnEnd(history, 0) == TurnEnd(history, i)
    {
      if history[i] {
        return history[..i + 1];
      }
    }
    r := history;
  }

  /** May the loop go on behind failure number `j + 1`? */
  predicate CanGoBack(agent: Agent, depths: int, retries: int, j: nat)
    requires retries > 0
  {
    j / retries < depths && 1 + j / retries < |Turn(agent.history)|
  }

  lemma Quotient(depth: nat, rest: nat, retries: nat)
    requires rest < retries
    ensures (depth * retries + rest) / retries == depth
  {
    Cancel(depth * retries + rest, depth, retries, rest);
  }

  lemma Grows(a: int, b: int, d: nat)
    ensures a <= b ==> a * d <= b * d
  {
  }

  lemma Cancel(n: nat, q: nat, d: nat, r: nat)
    requires d > 0 && r < d && n == q * d + r
    ensures n / d == q
  {
    var p := n / d;
    assert p * d <= n < p * d + d;
    Grows(p + 1, q, d);
    Grows(q + 1, p, d);
  }

  /** Room for one more attempt while the depth is not exhausted. */
  lemma AttemptsLeft(depth: nat, tried: nat, depths: int, retries: nat)
    requires depth < depths && tried <= retries
    ensures depth * retries + tried <= depths * retries
  {
    Grows(depth + 1, depths, retries);
  }

  lemma Signs(depths: int, retries: int)
    ensures retries > 0 && depths >= 0 ==> depths * retries >= 0
    ensures retries > 0 && depths < 0 ==> depths * retries < 0
    ensures retries == 0 ==> depths * retries == 0
    ensures retries < 0 && depths <= 0 ==> depths * retries >= 0
    ensures retries < 0 && depths > 0 ==> depths * retries < 0
  {
    if retries > 0 {
      Grows(0, depths, retries);
      Grows(depths, -1, retries);
    } else {
      assert depths * retries == (-depths) * (-retries);
      Grows(0, -depths, -retries);
      Grows(-depths, -1, -retries);
    }
  }

  /** Where the loop stands before invocation number `n + 1`. */
  ghost predicate Standing(n: nat, depth: nat, tried: nat, depths: int, retries: int) {
    if n == 0 then depth == 0 && tried == 0
    else retries > 0 ==> depth < depths && 1 <= tried <= retries && n == depth * retries + tried
  }

  /** The resumed index of every failure survived. */
  ghost predicate Targets(targets: seq<nat>, agent: Agent, depths: int, retries: int) {
    retries > 0 ==>
      forall j :: 0 <= j < |targets| ==> targets[j] == 1 + j / retries && CanGoBack(agent, depths, retries, j)
  }

  /** One failure: the next depth, and the checkpoint to resume from if there is one. */
  method StepBack(agent: Agent, history: seq<bool>, n: nat, depth: nat, tried: nat, depths: int, retries: int)
    returns (nextDepth: nat, nextTried: nat, target: Option<nat>)
    requires history == Turn(agent.history) && |history| >= 2
    requires Standing(n, depth, tried, depths, retries)
    requires retries <= 0 ==> n == 0
    ensures retries > 0 ==> (target.Some? <==> CanGoBack(agent, depths, retries, n))
    ensures retries > 0 && target.Some? ==> target.value == 1 + n / retries
    ensures retries > 0 && target.Some? ==> n + 1 <= depths * retries
    ensures retries <= 0 ==> (target.Some? <==> depths >= 2 && |history| >= 3)
    ensures target.Some? ==> target.value < |history| && Standing(n + 1, nextDepth, nextTried, depths, retries)
  {
    nextDepth, nextTried := depth, tried + 1;
    if nextTried > retries {
      nextDepth := depth + 1;
      nextTried := 1;
    }
    if retries > 0 {
      assert n == nextDepth * retries + (nextTried - 1) by {
        if tried + 1 > retries { assert (depth + 1) * retries == depth * retries + retries; }
      }
      Quotient(nextDepth, nextTried - 1, retries);
    }
    if nextDepth >= depths {
      return nextDepth, nextTried, None;
    }
    var targetIdx := nextDepth + 1;
    if targetIdx >= |history| {
      return nextDepth, nextTried, None;
    }
    AttemptsLeft(nextDepth, nextTried, depths, if retries > 0 then retries else 1);
    target := Some(targetIdx);
  }

  /** Nothing newer than the target is an input checkpoint: it is the turn's own. */
  ghost predicate WithinTurn(history: seq<bool>, target: nat) {
    target < |history| && forall i :: 0 <= i < target ==> !history[i]
  }

  lemma StaysInTheTurn(history: seq<bool>, target: nat)
    requires target < |Turn(history)|
    ensures WithinTurn(history, target)
  {
  }

  /** `invoke_with_rollback`; `targets` are the checkpoints resumed from, one for each
      failure survived. */
  method InvokeWithRollback(agent: Agent, depths: int, retries: int) returns (r: Result, targets: seq<nat>)
    ensures r == RuntimeError <==>
              || depths * retries < 0
              || (retries == 0 && depths >= 2 && agent.outcome(0) == Retryable && |Turn(agent.history)| >= 3)
    ensures retries > 0 && depths >= 0 ==> |targets| <= depths * retries
    ensures Targets(targets, agent, depths, retries)
    ensures forall j :: 0 <= j < |targets| ==> agent.outcome(j) == Retryable && targets[j] < |Turn(agent.history)|
    ensures forall j :: 0 <= j < |targets| ==> WithinTurn(agent.history, targets[j])
    ensures r.Returned? ==> agent.outcome(|targets|) == Return(r.value)
    ensures r.Raised? ==>
              agent.outcome(|targets|) == Fatal
              || (agent.outcome(|targets|) == Retryable
                  && (retries > 0 ==> !CanGoBack(agent, depths, retries, |targets|)))
  {
    Signs(depths, retries);
    var attempts := 1 + depths * retries;
    var history: Option<seq<bool>> := None;
    var depth: nat, tried: nat, n: nat := 0, 0, 0;
    targets := [];
    while n < attempts
      invariant |targets| == n && (n > 0 ==> n < attempts || retries <= 0)
      invariant n > 0 && retries <= 0 ==>
                  n == 1 && depths >= 2 && agent.outcome(0) == Retryable && |Turn(agent.history)| >= 3
      invariant history.Some? <==> n > 0
      invariant history.Some? ==> history.value == Turn(agent.history) && |history.value| >= 2
      invariant Standing(n, depth, tried, depths, retries) && Targets(targets, agent, depths, retries)
      invariant forall j :: 0 <= j < n ==> agent.outcome(j) == Retryable && targets[j] < |Turn(agent.history)|
      invariant forall j :: 0 <= j < n ==> WithinTurn(agent.history, targets[j])
      decreases attempts - n
    {
      match agent.outcome(n)
      case Return(v) =>
        return Returned(v), targets;
      case Fatal =>
        return Raised, targets;
      case Retryable =>
        if history.None? {
          var turn := Truncate(agent.history);
          history := Some(turn);
          if |turn| < 2 {
            if retries > 0 { Quotient(0, 0, retries); }
            return Raised, targets;
          }
        }
        var target: Option<nat>;
        depth, tried, target := StepBack(agent, history.value, n, depth, tried, depths, retries);
        if target.None? {
          return Raised, targets;
        }
        StaysInTheTurn(agent.history, target.value);
        targets := targets + [target.value];
        n := n + 1;
    }
    r := RuntimeError;
  }

  /** The trailing error does come up where the source calls it unreachable: no retries
      and two depths, for an agent that fails once on a turn of three checkpoints. The
      agent's own error is lost. */
  method NoRetriesHideTheError() returns (r: Result)
    ensures r == RuntimeError
  {
    var agent := Agent(_ => Retryable, [false, false, true]);
    assert TurnEnd(agent.history, 2) == 3;
    assert TurnEnd(agent.history, 1) == TurnEnd(agent.history, 2);
    var targets: seq<nat>;
    r, targets := InvokeWithRollback(agent, 2, 0);
  }
}
