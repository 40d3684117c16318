/**
 Runs of checkpoint transactions: what a restarting task may rely on after any
 sequence of begins, prepares, commits, rollbacks and stale cleanups, with the
 storage failing wherever it likes.
 */
module CheckpointSafety {
  import opened Wrappers
  import opened Events
  import opened CheckpointStore
  import opened TransactionalCheckpoint

  /** A prepare that times out after its save has stored the checkpoint but does not mark the transaction. */
  datatype Step =
    | SBegin(id: string, taskId: string, position: Position, now: int)
    | SPrepare(id: string, now: int, saveOk: bool)
    | SPrepareTimedOut(id: string, now: int)
    | SCommit(id: string, loadOk: bool, saveOk: bool)
    | SRollback(id: string, deleteOk: bool)
    | SCleanup(now: int, timeout: int, fails: set<string>)

  function Next(s: State, step: Step): State {
    match step
    case SBegin(id, taskId, position, now) => Begin(s, id, taskId, position, now).0
    case SPrepare(id, now, saveOk) => Prepare(s, id, now, saveOk).0
    case SPrepareTimedOut(id, now) => Prepare(s, id, now, true).0.(txns := s.txns)
    case SCommit(id, loadOk, saveOk) => Commit(s, id, loadOk, saveOk).0
    case SRollback(id, deleteOk) => Rollback(s, id, deleteOk).0
    case SCleanup(now, timeout, fails) => Cleanup(s, now, timeout, fails)
  }

  function Run(s: State, steps: seq<Step>): State {
    if steps == [] then s else Next(Run(s, steps[..|steps| - 1]), steps[|steps| - 1])
  }

  /** The position of the most recently committed transaction of every task. */
  type Commits = map<string, Position>

  function Record(s: State, step: Step, commits: Commits): Commits {
    if step.SCommit? && Commit(s, step.id, step.loadOk, step.saveOk).1.Ok? then
      var n := Find(s.txns, step.id);
      if n < |s.txns| then commits[s.txns[n].taskId := s.txns[n].position] else commits
    else commits
  }

  function RecordAll(s: State, steps: seq<Step>, commits: Commits): Commits {
    if steps == [] then commits
    else
      var n := |steps| - 1;
      Record(Run(s, steps[..n]), steps[n], RecordAll(s, steps[..n], commits))
  }

  /** No two open prepared transactions belong to one task. */
  ghost predicate OnePreparedPerTask(txns: seq<CheckpointTxn>) {
    forall i, j | 0 <= i < j < |txns| :: txns[i].prepared && txns[j].prepared ==> txns[i].taskId != txns[j].taskId
  }

  /** A save that has timed out counts as prepared while it stores. */
  ghost predicate Permits(s: State, step: Step) {
    && OnePreparedPerTask(Next(s, step).txns)
    && (step.SPrepareTimedOut? ==> OnePreparedPerTask(Prepare(s, step.id, step.now, true).0.txns))
  }

  ghost predicate Disciplined(s: State, steps: seq<Step>) {
    OnePreparedPerTask(s.txns) && forall n | 0 <= n < |steps| :: Permits(Run(s, steps[..n]), steps[n])
  }

  /** A committed checkpoint in the store is the task's most recent commit. */
  ghost predicate CommitsAgree(store: Entries, commits: Commits) {
    forall t | LatestCommitted(store, t).Some? :: t in commits && store[t].position == commits[t]
  }

  /**
   The task of an open prepared transaction has that transaction's own uncommitted checkpoint stored;
   the `committed` flag of an open transaction is never set.
   */
  ghost predicate PreparedStored(t: CheckpointTxn, store: Entries) {
    !t.committed && (t.prepared ==>
      && t.taskId in store && store[t.taskId].position == t.position
      && store[t.taskId].metadata == Some(Metadata(t.id, false)))
  }

  ghost predicate Safe(s: State, commits: Commits) {
    && UniqueIds(s.txns) && Filed(s.store) && CommitsAgree(s.store, commits)
    && forall i | 0 <= i < |s.txns| :: PreparedStored(s.txns[i], s.store)
  }

  lemma {:induction false} FreshMembers(txns: seq<CheckpointTxn>, now: int, timeout: int, t: CheckpointTxn)
    ensures t in Fresh(txns, now, timeout) <==> t in txns && !Stale(t, now, timeout)
  {
    if txns != [] {
      var n := |txns| - 1;
      FreshMembers(txns[..n], now, timeout, t);
      assert txns == txns[..n] + [txns[n]];
    }
  }

  lemma CleanupSafe(s: State, now: int, timeout: int, fails: set<string>, commits: Commits)
    requires Safe(s, commits) && OnePreparedPerTask(s.txns)
    ensures Safe(Cleanup(s, now, timeout, fails), commits)
  {
    var after := Cleanup(s, now, timeout, fails);
    var gone := set t | t in s.txns && Stale(t, now, timeout) :: t.id;
    forall t <- s.txns
      ensures t.id in gone <==> Stale(t, now, timeout)
    {
      if t.id in gone {
        var u :| u in s.txns && Stale(u, now, timeout) && u.id == t.id;
        assert u == t;
      }
    }
    KeepIsFresh(s.txns, gone, now, timeout);
    KeepUnique(s.txns, gone);
    forall i | 0 <= i < |after.txns|
      ensures PreparedStored(after.txns[i], after.store)
    {
      FreshMembers(s.txns, now, timeout, after.txns[i]);
      var j :| 0 <= j < |s.txns| && s.txns[j] == after.txns[i];
      assert PreparedStored(s.txns[j], s.store);
    }
  }

  /** Dropping the transaction at `n`, and perhaps its checkpoint, disturbs no other transaction. */
  lemma DropSafe(s: State, n: nat, store: Entries, commits: Commits)
    requires UniqueIds(s.txns) && OnePreparedPerTask(s.txns) && n < |s.txns|
    requires forall i | 0 <= i < |s.txns| :: PreparedStored(s.txns[i], s.store)
    requires Filed(store) && CommitsAgree(store, commits)
    requires store != s.store ==> s.txns[n].prepared
    requires forall k | k != s.txns[n].taskId :: (k in store <==> k in s.store) && (k in store ==> store[k] == s.store[k])
    ensures Safe(State(Without(s.txns, n), store), commits)
  {
  }

  lemma PrepareSafe(s: State, id: string, now: int, saveOk: bool, commits: Commits)
    requires Safe(s, commits) && OnePreparedPerTask(Prepare(s, id, now, saveOk).0.txns)
    ensures Safe(Prepare(s, id, now, saveOk).0, commits)
  {
    var n := Find(s.txns, id);
    var after := Prepare(s, id, now, saveOk).0;
    if after != s {
      assert PreparedStored(s.txns[n], s.store);
      forall i | 0 <= i < |s.txns| && i != n
        ensures PreparedStored(after.txns[i], after.store)
      {
        assert PreparedStored(s.txns[i], s.store) && after.txns[n].prepared && after.txns[i] == s.txns[i];
      }
    }
  }

  lemma PrepareTimedOutSafe(s: State, id: string, now: int, commits: Commits)
    requires Safe(s, commits) && OnePreparedPerTask(Prepare(s, id, now, true).0.txns)
    ensures Safe(Prepare(s, id, now, true).0.(txns := s.txns), commits)
  {
    var n := Find(s.txns, id);
    var after := Prepare(s, id, now, true).0;
    PrepareSafe(s, id, now, true, commits);
    forall i | 0 <= i < |s.txns|
      ensures PreparedStored(s.txns[i], after.store)
    {
      assert PreparedStored(s.txns[i], s.store);
      if i != n {
        assert after.txns[i] == s.txns[i] && PreparedStored(after.txns[i], after.store);
      }
    }
  }

  lemma CommitSafe(s: State, id: string, loadOk: bool, saveOk: bool, commits: Commits)
    requires Safe(s, commits) && OnePreparedPerTask(s.txns)
    ensures var step := SCommit(id, loadOk, saveOk); Safe(Next(s, step), Record(s, step, commits))
  {
    var step := SCommit(id, loadOk, saveOk);
    var n := Find(s.txns, id);
    if n < |s.txns| && Next(s, step) != s {
      assert PreparedStored(s.txns[n], s.store);
      DropSafe(s, n, Next(s, step).store, Record(s, step, commits));
    }
  }

  lemma RollbackSafe(s: State, id: string, deleteOk: bool, commits: Commits)
    requires Safe(s, commits) && OnePreparedPerTask(s.txns)
    ensures Safe(Next(s, SRollback(id, deleteOk)), commits)
  {
    var n := Find(s.txns, id);
    if n < |s.txns| {
      DropSafe(s, n, Next(s, SRollback(id, deleteOk)).store, commits);
    }
  }

  lemma StepSafe(s: State, step: Step, commits: Commits)
    requires Safe(s, commits) && OnePreparedPerTask(s.txns) && Permits(s, step)
    ensures Safe(Next(s, step), Record(s, step, commits))
  {
    match step
    case SBegin(id, taskId, position, now) =>
    case SPrepare(id, now, saveOk) =>
      PrepareSafe(s, id, now, saveOk, commits);
    case SPrepareTimedOut(id, now) =>
      PrepareTimedOutSafe(s, id, now, commits);
    case SCommit(id, loadOk, saveOk) =>
      CommitSafe(s, id, loadOk, saveOk, commits);
    case SRollback(id, deleteOk) =>
      RollbackSafe(s, id, deleteOk, commits);
    case SCleanup(now, timeout, fails) =>
      CleanupSafe(s, now, timeout, fails, commits);
  }

  lemma {:induction false} RunSafe(s: State, steps: seq<Step>, commits: Commits)
    requires Safe(s, commits) && Disciplined(s, steps)
    ensures Safe(Run(s, steps), RecordAll(s, steps, commits)) && OnePreparedPerTask(Run(s, steps).txns)
  {
    if steps != [] {
      var n := |steps| - 1;
      forall k | 0 <= k < n
        ensures steps[..n][..k] == steps[..k] && steps[..n][k] == steps[k]
      {
      }
      RunSafe(s, steps[..n], commits);
      StepSafe(Run(s, steps[..n]), steps[n], RecordAll(s, steps[..n], commits));
    }
  }

  /**
   After every run from an empty table in which no task ever has two prepared transactions (one whose save
   timed out counted at that moment), what a task
   restarts from is nothing or exactly the position of its most recently committed transaction.
   */
  lemma {:induction false} RestartsFromLastCommit(store: Entries, commits: Commits, steps: seq<Step>, taskId: string)
    requires Filed(store) && CommitsAgree(store, commits)
    requires Disciplined(State([], store), steps)
    ensures var last := RecordAll(State([], store), steps, commits);
            match LatestCommitted(Run(State([], store), steps).store, taskId)
            case None => true
            case Some(c) => taskId in last && c.position == last[taskId] && c.taskId == taskId
  {
    RunSafe(State([], store), steps, commits);
  }

  /**
   What a commit needs, step by step: from a store that agrees with the commits so far, it keeps agreeing
   exactly when the stored position is the transaction's own.
   */
  lemma CommitAgreesExactlyWhen(s: State, id: string, commits: Commits)
    requires Filed(s.store) && CommitsAgree(s.store, commits)
    requires var n := Find(s.txns, id);
             n < |s.txns| && s.txns[n].prepared && !s.txns[n].committed && s.txns[n].taskId in s.store
    ensures var step := SCommit(id, true, true);
            var t := s.txns[Find(s.txns, id)];
            CommitsAgree(Next(s, step).store, Record(s, step, commits)) <==> s.store[t.taskId].position == t.position
  {
    var step, t := SCommit(id, true, true), s.txns[Find(s.txns, id)];
    var after, last := Next(s, step).store, Record(s, step, commits);
    assert LatestCommitted(after, t.taskId).Some? && last == commits[t.taskId := t.position];
    forall k | k != t.taskId && LatestCommitted(after, k).Some?
      ensures k in last && LatestCommitted(after, k).value.position == last[k]
    {
      assert LatestCommitted(s.store, k).Some?;
    }
  }

  /** Two prepared transactions of one task break this: the first commit marks the second's position committed. */
  lemma TwoPreparedCommitTheWrongPosition(p: Position, q: Position)
    requires p != q
    ensures var s0 := State([], map[]);
            var steps := [SBegin("a", "task", p, 0), SBegin("b", "task", q, 0), SPrepare("a", 0, true),
                          SPrepare("b", 0, true), SCommit("a", true, true)];
            && "task" in RecordAll(s0, steps, map[]) && RecordAll(s0, steps, map[])["task"] == p
            && LatestCommitted(Run(s0, steps).store, "task").Some?
            && LatestCommitted(Run(s0, steps).store, "task").value.position == q
  {
    var s0 := State([], map[]);
    var steps := [SBegin("a", "task", p, 0), SBegin("b", "task", q, 0), SPrepare("a", 0, true),
                  SPrepare("b", 0, true), SCommit("a", true, true)];
    assert steps[..4][..3] == steps[..3] && steps[..3][..2] == steps[..2] && steps[..2][..1] == steps[..1] && steps[..1][..0] == [];
    var a, b := CheckpointTxn("a", "task", p, false, false, 0), CheckpointTxn("b", "task", q, false, false, 0);
    assert Run(s0, steps[..1]) == State([a], map[]);
    assert Run(s0, steps[..2]) == State([a, b], map[]);
    assert Run(s0, steps[..3]) == State([a.(prepared := true), b], map["task" := Prepared(a, 0)]);
    assert Find([b], "b") == 0;
    assert [a.(prepared := true), b][1..] == [b];
    assert Run(s0, steps[..4]) == State([a.(prepared := true), b.(prepared := true)], map["task" := Prepared(b, 0)]);
    assert Commit(Run(s0, steps[..4]), "a", true, true).1.Ok?;
    assert Run(s0, steps).store["task"].metadata == Some(Metadata("a", true));
  }

  /** So does a save that timed out while another transaction of the task was prepared. */
  lemma TimedOutSaveCommitsTheWrongPosition(p: Position, q: Position)
    requires p != q
    ensures var s0 := State([], map[]);
            var steps := [SBegin("a", "task", p, 0), SBegin("b", "task", q, 0), SPrepare("a", 0, true),
                          SPrepareTimedOut("b", 0), SCommit("a", true, true)];
            && "task" in RecordAll(s0, steps, map[]) && RecordAll(s0, steps, map[])["task"] == p
            && LatestCommitted(Run(s0, steps).store, "task").Some?
            && LatestCommitted(Run(s0, steps).store, "task").value.position == q
  {
    var s0 := State([], map[]);
    var steps := [SBegin("a", "task", p, 0), SBegin("b", "task", q, 0), SPrepare("a", 0, true),
                  SPrepareTimedOut("b", 0), SCommit("a", true, true)];
    assert steps[..4][..3] == steps[..3] && steps[..3][..2] == steps[..2] && steps[..2][..1] == steps[..1] && steps[..1][..0] == [];
    var a, b := CheckpointTxn("a", "task", p, false, false, 0), CheckpointTxn("b", "task", q, false, false, 0);
    assert Run(s0, steps[..1]) == State([a], map[]);
    assert Run(s0, steps[..2]) == State([a, b], map[]);
    assert Run(s0, steps[..3]) == State([a.(prepared := true), b], map["task" := Prepared(a, 0)]);
    assert Find([b], "b") == 0;
    assert [a.(prepared := true), b][1..] == [b];
    assert Run(s0, steps[..4]) == State([a.(prepared := true), b], map["task" := Prepared(b, 0)]);
    assert Commit(Run(s0, steps[..4]), "a", true, true).1.Ok?;
    assert Run(s0, steps).store["task"].metadata == Some(Metadata("a", true));
  }
}
