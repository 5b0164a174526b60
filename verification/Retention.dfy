/**
 * The retention sweeper (assist/retention.py): the batched purge of dead threads' rows
 * and the pruning of old threads. Thread names stand for their rank in string order.
 */
module Retention {
  import opened Common

  type Name = nat

  datatype Row = Row(rowid: nat, tid: Name)

  function Mine(rows: set<Row>, tid: Name): (r: set<Row>)
    ensures r <= rows
  {
    set row | row in rows && row.tid == tid
  }

  function Tids(rows: set<Row>): set<Name> { set row | row in rows :: row.tid }

  function OfLive(rows: set<Row>, live: set<Name>): set<Row> { set row | row in rows && row.tid in live }

  /** Both tables, as committed. */
  datatype Tables = Tables(writes: set<Row>, checkpoints: set<Row>)

  /** Every thread with writes can still be found by the enumeration of checkpoints. */
  ghost predicate Discoverable(t: Tables) { Tids(t.writes) <= Tids(t.checkpoints) }

  /** No row appeared, and the rows of live threads are all still there. */
  ghost predicate Swept(before: Tables, after: Tables, live: set<Name>) {
    && after.writes <= before.writes && after.checkpoints <= before.checkpoints
    && OfLive(after.writes, live) == OfLive(before.writes, live)
    && OfLive(after.checkpoints, live) == OfLive(before.checkpoints, live)
  }

  ghost predicate NoDeadRows(t: Tables, live: set<Name>) {
    Tids(t.writes) <= live && Tids(t.checkpoints) <= live
  }

  /** The subquery: any `limit` rows of a thread, or all if there are fewer. */
  method SelectRows(rows: set<Row>, tid: Name, limit: nat) returns (picked: set<Row>)
    ensures picked <= Mine(rows, tid)
    ensures |picked| == if |Mine(rows, tid)| < limit then |Mine(rows, tid)| else limit
  {
    picked := {};
    var rest := Mine(rows, tid);
    while |picked| < limit && rest != {}
      invariant picked !! rest && picked + rest == Mine(rows, tid)
      invariant |picked| + |rest| == |Mine(rows, tid)| && |picked| <= limit
      decreases rest
    {
      var row :| row in rest;
      picked, rest := picked + {row}, rest - {row};
    }
  }

  class Database {
    var writes: set<Row>
    var checkpoints: set<Row>

    constructor (w: set<Row>, c: set<Row>)
      ensures State() == Tables(w, c)
    {
      writes, checkpoints := w, c;
    }

    function State(): Tables
      reads this
    {
      Tables(writes, checkpoints)
    }

    /** The loop over one table: batch after batch, each in its own transaction, until
        one falls short. The process may die, which undoes the transaction under way. */
    method ClearWrites(tid: Name, batch: nat, life: Life) returns (rest: Life)
      requires batch > 0
      modifies this`writes
      ensures ClearedUpTo(old(writes), writes, tid)
      ensures !rest.Dead? ==> Mine(writes, tid) == {}
      ensures life.Unbounded? ==> rest.Unbounded?
    {
      rest := life;
      while true
        invariant ClearedUpTo(old(writes), writes, tid)
        invariant life.Unbounded? ==> rest.Unbounded?
        decreases |Mine(writes, tid)|
      {
        rest := Spend(rest);
        if rest.Dead? {
          return;
        }
        var picked := SelectRows(writes, tid, batch);
        ghost var mine := Mine(writes, tid);
        Shrinks(writes, tid, picked);
        writes := writes - picked;
        if |picked| < batch {
          return;
        }
      }
    }

    method ClearCheckpoints(tid: Name, batch: nat, life: Life) returns (rest: Life)
      requires batch > 0
      modifies this`checkpoints
      ensures ClearedUpTo(old(checkpoints), checkpoints, tid)
      ensures !rest.Dead? ==> Mine(checkpoints, tid) == {}
      ensures life.Unbounded? ==> rest.Unbounded?
    {
      rest := life;
      while true
        invariant ClearedUpTo(old(checkpoints), checkpoints, tid)
        invariant life.Unbounded? ==> rest.Unbounded?
        decreases |Mine(checkpoints, tid)|
      {
        rest := Spend(rest);
        if rest.Dead? {
          return;
        }
        var picked := SelectRows(checkpoints, tid, batch);
        Shrinks(checkpoints, tid, picked);
        checkpoints := checkpoints - picked;
        if |picked| < batch {
          return;
        }
      }
    }

    /** `_delete_thread_in_batches`: writes before checkpoints, so that wherever it dies
        the thread can still be found. */
    method DeleteThreadInBatches(tid: Name, batch: nat, life: Life) returns (rest: Life)
      requires batch > 0
      modifies this
      ensures old(Discoverable(State())) ==> Discoverable(State())
      ensures ClearedUpTo(old(writes), writes, tid) && ClearedUpTo(old(checkpoints), checkpoints, tid)
      ensures !rest.Dead? ==> Mine(writes, tid) == {} && Mine(checkpoints, tid) == {}
      ensures life.Unbounded? ==> rest.Unbounded?
    {
      ghost var start := State();
      rest := ClearWrites(tid, batch, life);
      if Discoverable(start) {
        StillDiscoverable(start, State(), tid);
      }
      if rest.Dead? {
        return;
      }
      ghost var middle := State();
      rest := ClearCheckpoints(tid, batch, rest);
      if Discoverable(start) {
        StillDiscoverable(middle, State(), tid);
      }
    }

    /** `purge_orphaned_checkpoints`. Wherever it is interrupted, nothing of a live thread
        is lost and every row left can be found by the next sweep if that was so before.
        Left alone, it clears exactly the dead threads that have checkpoints. */
    method PurgeOrphanedCheckpoints(live: set<Name>, batch: nat, life: Life) returns (purged: seq<Name>, rest: Life)
      requires batch > 0
      modifies this
      ensures old(Discoverable(State())) ==> Discoverable(State())
      ensures Swept(old(State()), State(), live)
      ensures life.Unbounded? ==> rest.Unbounded?
      ensures !rest.Dead? ==> Cleared(old(State()), State(), live)
      ensures !rest.Dead? ==> forall tid :: tid in purged <==> tid in Tids(old(checkpoints)) - live
      ensures forall i, j :: 0 <= i < j < |purged| ==> purged[i] < purged[j]
    {
      purged, rest := [], life;
      var orphans := Tids(checkpoints) - live;
      ghost var start := State();
      while orphans != {}
        invariant Discoverable(start) ==> Discoverable(State())
        invariant Swept(start, State(), live)
        invariant life.Unbounded? ==> rest.Unbounded?
        invariant orphans <= Tids(start.checkpoints) - live
        invariant PurgedAre(purged, Tids(start.checkpoints) - live - orphans)
        invariant ClearedOf(start, State(), Tids(start.checkpoints) - live - orphans)
        invariant forall i, tid :: 0 <= i < |purged| && tid in orphans ==> purged[i] < tid
        invariant forall i, j :: 0 <= i < j < |purged| ==> purged[i] < purged[j]
        decreases orphans
      {
        var tid := Least(orphans);
        ghost var before := State();
        rest := DeleteThreadInBatches(tid, batch, rest);
        OthersKept(before, State(), tid, live);
        SweptTwice(start, before, State(), live);
        if rest.Dead? {
          return;
        }
        ghost var done := Tids(start.checkpoints) - live - orphans;
        OneMoreCleared(start, before, State(), done, tid);
        purged, orphans := purged + [tid], orphans - {tid};
        assert Tids(start.checkpoints) - live - orphans == done + {tid};
      }
      assert Tids(start.checkpoints) - live - orphans == Tids(start.checkpoints) - live;
    }

    /** What cron does over time: sweep after sweep, with threads writing, ending and
        coming back in between. Wherever each one dies, no row of a thread is lost while
        the thread lives on; and the first sweep that is left alone leaves no row of a
        dead thread, whatever the ones before it left undone. */
    method SweepAgainAndAgain(periods: seq<Period>, batch: nat)
      requires batch > 0
      modifies this
      ensures EachDiscoverable(old(State()), periods) ==> Discoverable(State())
      ensures StillThere(old(State()), State(), periods, 0, |periods|)
      ensures forall k :: 0 <= k < |periods| ==> StillThere(periods[k].added, State(), periods, k, |periods|)
      ensures EachDiscoverable(old(State()), periods) && periods != [] && periods[|periods| - 1].life.Unbounded? ==>
                NoDeadRows(State(), periods[|periods| - 1].live)
    {
      ghost var start := State();
      for n := 0 to |periods|
        invariant EachDiscoverable(start, periods) ==> Discoverable(State())
        invariant StillThere(start, State(), periods, 0, n)
        invariant forall k :: 0 <= k < n ==> StillThere(periods[k].added, State(), periods, k, n)
        invariant EachDiscoverable(start, periods) && n > 0 && periods[n - 1].life.Unbounded? ==>
                    NoDeadRows(State(), periods[n - 1].live)
      {
        ghost var was := State();
        writes, checkpoints := writes + periods[n].added.writes, checkpoints + periods[n].added.checkpoints;
        ghost var before := State();
        assert before == Both(was, periods[n].added);
        if EachDiscoverable(start, periods) {
          BothDiscoverable(was, periods[n].added);
        }
        var _, rest := PurgeOrphanedCheckpoints(periods[n].live, batch, periods[n].life);
        if !rest.Dead? {
          ClearedExactlyWhen(before, State(), periods[n].live);
        }
        StillThereAfterOneMore(start, before, State(), periods, 0, n);
        forall k | 0 <= k < n + 1
          ensures StillThere(periods[k].added, State(), periods, k, n + 1)
        {
          StillThereAfterOneMore(periods[k].added, before, State(), periods, k, n);
        }
      }
    }
  }

  ghost predicate PurgedAre(purged: seq<Name>, names: set<Name>) {
    forall tid :: tid in purged <==> tid in names
  }

  /** Exactly the rows of these threads have gone. */
  ghost predicate ClearedOf(before: Tables, after: Tables, names: set<Name>) {
    && (forall row :: row in after.writes <==> row in before.writes && row.tid !in names)
    && (forall row :: row in after.checkpoints <==> row in before.checkpoints && row.tid !in names)
  }

  /** Exactly the rows of dead threads with checkpoints have gone. */
  ghost predicate Cleared(before: Tables, after: Tables, live: set<Name>) {
    ClearedOf(before, after, Tids(before.checkpoints) - live)
  }

  lemma OneMoreCleared(start: Tables, before: Tables, after: Tables, done: set<Name>, tid: Name)
    requires ClearedOf(start, before, done)
    requires ClearedUpTo(before.writes, after.writes, tid) && ClearedUpTo(before.checkpoints, after.checkpoints, tid)
    requires Mine(after.writes, tid) == {} && Mine(after.checkpoints, tid) == {}
    ensures ClearedOf(start, after, done + {tid})
  {
    forall row ensures row in after.writes <==> row in start.writes && row.tid !in done + {tid} {
      assert row in after.writes && row.tid == tid ==> row in Mine(after.writes, tid);
    }
    forall row ensures row in after.checkpoints <==> row in start.checkpoints && row.tid !in done + {tid} {
      assert row in after.checkpoints && row.tid == tid ==> row in Mine(after.checkpoints, tid);
    }
  }

  /** A sweep that is left alone ends with no row of a dead thread exactly when every
      dead thread with writes also had checkpoints. */
  lemma ClearedExactlyWhen(before: Tables, after: Tables, live: set<Name>)
    requires Cleared(before, after, live)
    ensures NoDeadRows(after, live) <==> Tids(before.writes) - live <= Tids(before.checkpoints)
  {
    if Tids(before.writes) - live <= Tids(before.checkpoints) {
      forall row | row in after.writes ensures row.tid in live {
        assert row.tid in Tids(before.writes);
      }
      forall row | row in after.checkpoints ensures row.tid in live {
        assert row.tid in Tids(before.checkpoints);
      }
    }
    if NoDeadRows(after, live) {
      forall row | row in before.writes && row.tid !in live ensures row.tid in Tids(before.checkpoints) {
        assert row in after.writes ==> row.tid in Tids(after.writes);
      }
    }
  }

  /** How many more transactions the process lives to commit. */
  datatype Life = Unbounded | Left(n: nat) | Dead

  function Spend(life: Life): Life {
    match life
    case Unbounded => Unbounded
    case Left(n) => if n == 0 then Dead else Left(n - 1)
    case Dead => Dead
  }

  /** Rows of one thread only have gone. */
  ghost predicate ClearedUpTo(before: set<Row>, after: set<Row>, tid: Name) {
    after <= before && forall row :: row in before && row.tid != tid ==> row in after
  }

  lemma Shrinks(rows: set<Row>, tid: Name, picked: set<Row>)
    requires picked <= Mine(rows, tid)
    ensures Mine(rows - picked, tid) == Mine(rows, tid) - picked
    ensures |Mine(rows - picked, tid)| == |Mine(rows, tid)| - |picked|
    ensures |picked| == |Mine(rows, tid)| ==> Mine(rows - picked, tid) == {}
  {
    assert Mine(rows - picked, tid) == Mine(rows, tid) - picked;
    assert Mine(rows, tid) == picked + (Mine(rows, tid) - picked);
  }

  /** Losing a thread's rows in one table keeps the others findable; losing them in
      checkpoints is safe once none are in writes. */
  lemma StillDiscoverable(before: Tables, after: Tables, tid: Name)
    requires Discoverable(before)
    requires ClearedUpTo(before.writes, after.writes, tid) && ClearedUpTo(before.checkpoints, after.checkpoints, tid)
    requires after.checkpoints == before.checkpoints || Mine(after.writes, tid) == {}
    ensures Discoverable(after)
  {
    forall row | row in after.writes ensures row.tid in Tids(after.checkpoints) {
      assert row.tid in Tids(before.writes);
      var c :| c in before.checkpoints && c.tid == row.tid;
      if row.tid == tid {
        assert row in Mine(after.writes, tid);
      }
      assert c in after.checkpoints;
    }
  }

  lemma OthersKept(before: Tables, after: Tables, tid: Name, live: set<Name>)
    requires ClearedUpTo(before.writes, after.writes, tid) && ClearedUpTo(before.checkpoints, after.checkpoints, tid)
    requires tid !in live
    ensures Swept(before, after, live)
  {
  }

  method Least(names: set<Name>) returns (least: Name)
    requires names != {}
    ensures least in names && forall n :: n in names ==> least <= n
  {
    least :| least in names;
    var rest := names - {least};
    while rest != {}
      invariant rest <= names && least in names
      invariant forall n :: n in names && n !in rest ==> least <= n
      decreases rest
    {
      var n :| n in rest;
      if n < least {
        least := n;
      }
      rest := rest - {n};
    }
  }

  lemma SweptTwice(a: Tables, b: Tables, c: Tables, live: set<Name>)
    requires Swept(a, b, live) && Swept(b, c, live)
    ensures Swept(a, c, live)
  {
  }

  // ------------------------------------------------------------------
  // Any number of interrupted sweeps
  // ------------------------------------------------------------------

  /** The rows written since the sweep before, the threads alive at this one, and how
      long its process lives. */
  datatype Period = Period(added: Tables, live: set<Name>, life: Life)

  function Both(a: Tables, b: Tables): Tables {
    Tables(a.writes + b.writes, a.checkpoints + b.checkpoints)
  }

  /** Alive at every sweep from the `i`-th to before the `n`-th. */
  ghost predicate LiveFrom(periods: seq<Period>, i: nat, n: nat, tid: Name)
    requires n <= |periods|
  {
    forall k :: i <= k < n ==> tid in periods[k].live
  }

  /** These rows are still there where their thread has been alive since the `i`-th. */
  ghost predicate StillThere(rows: Tables, after: Tables, periods: seq<Period>, i: nat, n: nat)
    requires n <= |periods|
  {
    && (forall row :: row in rows.writes && LiveFrom(periods, i, n, row.tid) ==> row in after.writes)
    && (forall row :: row in rows.checkpoints && LiveFrom(periods, i, n, row.tid) ==> row in after.checkpoints)
  }

  ghost predicate EachDiscoverable(start: Tables, periods: seq<Period>) {
    Discoverable(start) && forall k :: 0 <= k < |periods| ==> Discoverable(periods[k].added)
  }

  lemma BothDiscoverable(a: Tables, b: Tables)
    requires Discoverable(a) && Discoverable(b)
    ensures Discoverable(Both(a, b))
  {
    forall row | row in Both(a, b).writes
      ensures row.tid in Tids(Both(a, b).checkpoints)
    {
      if row in a.writes {
        assert row.tid in Tids(a.writes);
      } else {
        assert row.tid in Tids(b.writes);
      }
    }
  }

  /** One more sweep leaves alone the rows of those alive at it. */
  lemma StillThereAfterOneMore(rows: Tables, before: Tables, after: Tables, periods: seq<Period>, i: nat, n: nat)
    requires i <= n < |periods|
    requires StillThere(rows, before, periods, i, n) && Swept(before, after, periods[n].live)
    ensures StillThere(rows, after, periods, i, n + 1)
  {
    var live := periods[n].live;
    forall row | row in rows.writes && LiveFrom(periods, i, n + 1, row.tid)
      ensures row in after.writes
    {
      assert LiveFrom(periods, i, n, row.tid) && row.tid in live;
      assert row in OfLive(before.writes, live);
    }
    forall row | row in rows.checkpoints && LiveFrom(periods, i, n + 1, row.tid)
      ensures row in after.checkpoints
    {
      assert LiveFrom(periods, i, n, row.tid) && row.tid in live;
      assert row in OfLive(before.checkpoints, live);
    }
  }

  // ------------------------------------------------------------------
  // Pruning
  // ------------------------------------------------------------------

  datatype Candidate = Candidate(name: Name, mtime: int)

  /** More recent, or as recent with the greater name. */
  predicate Above(a: Candidate, b: Candidate) {
    a.mtime > b.mtime || (a.mtime == b.mtime && a.name > b.name)
  }

  predicate Ranked(cs: seq<Candidate>) {
    forall i, j :: 0 <= i < j < |cs| ==> Above(cs[i], cs[j])
  }

  /** The directories that could be stat'ed. */
  function Candidates(dirs: set<Name>, mtimes: map<Name, int>): set<Candidate> {
    set name | name in dirs && name in mtimes :: Candidate(name, mtimes[name])
  }

  lemma HasMember(cs: seq<Candidate>)
    requires cs != []
    ensures exists c :: c in cs
  {
    assert cs[0] in cs;
  }

  lemma {:induction false} OneRanking(a: seq<Candidate>, b: seq<Candidate>)
    requires Ranked(a) && Ranked(b) && forall c :: c in a <==> c in b
    ensures a == b
  {
    if a == [] {
      if b != [] { HasMember(b); }
    } else {
      assert a[0] in b;
      assert b[0] in a;
      assert a[0] == b[0] by {
        var i :| 0 <= i < |b| && b[i] == a[0];
        var j :| 0 <= j < |a| && a[j] == b[0];
        if i > 0 && j > 0 {
          assert Above(b[0], b[i]) && Above(a[0], a[j]);
        }
      }
      forall c ensures c in a[1..] <==> c in b[1..] {
        assert c in a <==> c == a[0] || c in a[1..];
        assert c in b <==> c == b[0] || c in b[1..];
        assert a[0] !in a[1..] && b[0] !in b[1..];
      }
      OneRanking(a[1..], b[1..]);
    }
  }

  function Insert(cs: seq<Candidate>, c: Candidate): seq<Candidate> {
    if cs == [] || Above(c, cs[0]) then [c] + cs else [cs[0]] + Insert(cs[1..], c)
  }

  lemma {:induction false} InsertRanks(cs: seq<Candidate>, c: Candidate)
    requires Ranked(cs) && forall i :: 0 <= i < |cs| ==> cs[i].name != c.name
    ensures Ranked(Insert(cs, c)) && |Insert(cs, c)| == |cs| + 1
    ensures forall x :: x in Insert(cs, c) <==> x in cs || x == c
  {
    if cs != [] && !Above(c, cs[0]) {
      InsertRanks(cs[1..], c);
      var r := Insert(cs[1..], c);
      forall i | 0 <= i < |r| ensures Above(cs[0], r[i]) {
        assert r[i] in r;
      }
      assert cs == [cs[0]] + cs[1..];
    }
  }

  /** The names to delete: the ranking from `keep` on. Whatever order the directories
      are listed in, there is one such ranking. */
  ghost predicate Outdated(doomed: seq<Candidate>, dirs: set<Name>, mtimes: map<Name, int>, keep: nat) {
    exists ranking ::
      && Ranked(ranking) && (forall c :: c in ranking <==> c in Candidates(dirs, mtimes))
      && doomed == if |ranking| <= keep then [] else ranking[keep..]
  }

  method Rank(dirs: set<Name>, mtimes: map<Name, int>) returns (ranking: seq<Candidate>)
    ensures Ranked(ranking) && forall c :: c in ranking <==> c in Candidates(dirs, mtimes)
  {
    ranking := [];
    var rest := dirs;
    while rest != {}
      invariant rest <= dirs && Ranked(ranking)
      invariant forall c :: c in ranking <==> c in Candidates(dirs - rest, mtimes)
      decreases rest
    {
      var name :| name in rest;
      if name in mtimes {
        forall i | 0 <= i < |ranking| ensures ranking[i].name != name {
          assert ranking[i] in ranking;
        }
        InsertRanks(ranking, Candidate(name, mtimes[name]));
        ranking := Insert(ranking, Candidate(name, mtimes[name]));
      }
      rest := rest - {name};
    }
    assert dirs - rest == dirs;
  }

  datatype Pruning = Negative | Pruned(deleted: seq<Name>)

  /** The names of those whose deletion does not fail, in order. */
  function Surviving(doomed: seq<Candidate>, failing: set<Name>): seq<Name> {
    if doomed == [] then []
    else
      var k := |doomed| - 1;
      Surviving(doomed[..k], failing) + (if doomed[k].name in failing then [] else [doomed[k].name])
  }

  /** The first of these names is listed before the second. */
  predicate ListedBefore(doomed: seq<Candidate>, m: Name, n: Name) {
    exists i, j :: 0 <= i < j < |doomed| && doomed[i].name == m && doomed[j].name == n
  }

  /** Exactly the doomed whose deletion does not fail, one after the other. */
  lemma {:induction false} SurvivingMeans(doomed: seq<Candidate>, failing: set<Name>)
    ensures var names := Surviving(doomed, failing);
            && (forall n :: n in names <==> n !in failing && exists i :: 0 <= i < |doomed| && doomed[i].name == n)
            && (forall i, j :: 0 <= i < j < |names| ==> ListedBefore(doomed, names[i], names[j]))
  {
    if doomed != [] {
      var k := |doomed| - 1;
      var front := doomed[..k];
      SurvivingMeans(front, failing);
      var names, before := Surviving(doomed, failing), Surviving(front, failing);
      forall i, j | 0 <= i < j < |names| ensures ListedBefore(doomed, names[i], names[j]) {
        if j < |before| {
          assert ListedBefore(front, before[i], before[j]);
        } else {
          assert before[i] in before;
        }
      }
    }
  }

  /** `prune_to_n_threads`; `failing` are the threads whose deletion raises. */
  method PruneToN(dirs: Option<set<Name>>, mtimes: map<Name, int>, keep: int, failing: set<Name>) returns (r: Pruning)
    ensures r == Negative <==> keep < 0
    ensures keep >= 0 && dirs.None? ==> r == Pruned([])
    ensures keep >= 0 && dirs.Some? ==>
              exists doomed :: Outdated(doomed, dirs.value, mtimes, keep) && r == Pruned(Surviving(doomed, failing))
  {
    if keep < 0 {
      return Negative;
    }
    if dirs.None? {
      return Pruned([]);
    }
    var ranking := Rank(dirs.value, mtimes);
    if |ranking| <= keep {
      assert Outdated([], dirs.value, mtimes, keep);
      return Pruned([]);
    }
    var doomed := ranking[keep..];
    assert Outdated(doomed, dirs.value, mtimes, keep);
    var deleted: seq<Name> := [];
    for i := 0 to |doomed|
      invariant deleted == Surviving(doomed[..i], failing)
    {
      assert doomed[..i + 1][..i] == doomed[..i];
      if doomed[i].name !in failing {
        deleted := deleted + [doomed[i].name];
      }
    }
    assert doomed[..|doomed|] == doomed;
    r := Pruned(deleted);
  }

  /** What is deleted does not depend on the order in which the directories came, and
      every thread that is kept is more recent than every one that is not, or as recent and
      of a greater name. */
  lemma OutdatedIsOne(a: seq<Candidate>, b: seq<Candidate>, dirs: set<Name>, mtimes: map<Name, int>, keep: nat)
    requires Outdated(a, dirs, mtimes, keep) && Outdated(b, dirs, mtimes, keep)
    ensures a == b
    ensures forall c, d :: c in Candidates(dirs, mtimes) && c !in a && d in a ==>
              c.mtime > d.mtime || (c.mtime == d.mtime && c.name > d.name)
    ensures |a| == if |Candidates(dirs, mtimes)| <= keep then 0 else |Candidates(dirs, mtimes)| - keep
  {
    var all := Candidates(dirs, mtimes);
    var ra :| Ranked(ra) && (forall c :: c in ra <==> c in all) && a == if |ra| <= keep then [] else ra[keep..];
    var rb :| Ranked(rb) && (forall c :: c in rb <==> c in all) && b == if |rb| <= keep then [] else rb[keep..];
    OneRanking(ra, rb);
    RankedSize(ra, all);
    forall c, d | c in all && c !in a && d in a
      ensures c.mtime > d.mtime || (c.mtime == d.mtime && c.name > d.name)
    {
      KeptAbove(ra, a, keep, c, d);
    }
  }

  lemma KeptAbove(ranking: seq<Candidate>, doomed: seq<Candidate>, keep: nat, c: Candidate, d: Candidate)
    requires Ranked(ranking) && doomed == if |ranking| <= keep then [] else ranking[keep..]
    requires c in ranking && c !in doomed && d in doomed
    ensures c.mtime > d.mtime || (c.mtime == d.mtime && c.name > d.name)
  {
    forall k | keep <= k < |ranking| ensures ranking[k] in doomed {
      assert ranking[k] == doomed[k - keep];
    }
    var i :| 0 <= i < |ranking| && ranking[i] == c;
    var j :| 0 <= j < |doomed| && doomed[j] == d;
    assert d == ranking[keep + j];
    assert Above(ranking[i], ranking[keep + j]);
  }

  lemma {:induction false} RankedSize(ranking: seq<Candidate>, all: set<Candidate>)
    requires Ranked(ranking) && forall c :: c in ranking <==> c in all
    ensures |ranking| == |all|
  {
    if ranking == [] {
      assert all == {};
    } else {
      var k := |ranking| - 1;
      assert ranking == ranking[..k] + [ranking[k]];
      assert ranking[k] !in ranking[..k];
      RankedSize(ranking[..k], all - {ranking[k]});
    }
  }
}
