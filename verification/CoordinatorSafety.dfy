/**
 Runs of the transaction coordinator: how the two-phase commit records and the
 checkpoint transactions stay together, and exactly when a commit changes both
 sides or neither.
 */
module CoordinatorSafety {
  import opened Wrappers
  import opened Events
  import opened CheckpointStore
  import CT = TransactionalCheckpoint
  import opened TwoPhaseCommit
  import CS = CheckpointSafety

  datatype Step =
    | CBegin(id: string, taskId: string, now: int)
    | CPrepare(id: string, position: Position, now: int, outcome: PrepareOutcome)
    | CCommit(id: string, loadOk: bool, saveOk: bool)
    | CRollback(id: string, deleteOk: bool)
    | CCleanup(now: int, later: int, fails: set<string>)
    | CRemove(id: string)

  /** The state of both parties with the clock and the ids begun in the run so far. */
  datatype Config = Config(both: Both, clock: int, begun: set<string>)

  function NextBoth(b: Both, step: Step, timeout: int): Both {
    match step
    case CBegin(id, taskId, now) => b.(records := Begin(b.records, id, taskId, now).0)
    case CPrepare(id, position, now, outcome) => CoordinatedPrepare(b, id, position, now, outcome).0
    case CCommit(id, loadOk, saveOk) => CoordinatedCommit(b, id, loadOk, saveOk).0
    case CRollback(id, deleteOk) => CoordinatedRollback(b, id, deleteOk)
    case CCleanup(now, later, fails) => CoordinatedCleanup(b, now, later, timeout, fails)
    case CRemove(id) => b.(records := RemoveScheduled(b.records, id))
  }

  function ClockAfter(clock: int, step: Step): int {
    match step
    case CBegin(_, _, now) => now
    case CPrepare(_, _, now, _) => now
    case CCleanup(_, later, _) => later
    case _ => clock
  }

  function Next(c: Config, step: Step, timeout: int): Config {
    Config(
      NextBoth(c.both, step, timeout),
      ClockAfter(c.clock, step),
      if step.CBegin? then c.begun + {step.id} else c.begun)
  }

  function Start(clock: int, store: Entries): Config {
    Config(Both(Records(map[], multiset{}), CT.State([], store)), clock, {})
  }

  function Run(c: Config, steps: seq<Step>, timeout: int): Config {
    if steps == [] then c else Next(Run(c, steps[..|steps| - 1], timeout), steps[|steps| - 1], timeout)
  }

  /** The clock never runs backwards, not between the two readings of a cleanup either. */
  ghost predicate Timed(c: Config, steps: seq<Step>, timeout: int) {
    forall n | 0 <= n < |steps| ::
      var before := Run(c, steps[..n], timeout).clock;
      before <= (if steps[n].CCleanup? then steps[n].now else before) <= ClockAfter(before, steps[n])
  }

  // ----- a prepared record always has its prepared checkpoint transaction

  predicate RecordPrepared(b: Both, id: string) {
    id in b.records.transactions && b.records.transactions[id].state == PreparedState
  }

  ghost predicate PreparedSince(txns: seq<CT.CheckpointTxn>, id: string, since: int) {
    exists i :: 0 <= i < |txns| && txns[i].id == id && txns[i].prepared && txns[i].createdAt >= since
  }

  ghost predicate Covered(b: Both, clock: int) {
    && CT.UniqueIds(b.checkpoints.txns)
    && (forall id <- b.records.transactions :: b.records.transactions[id].createdAt <= clock)
    && (forall id <- b.records.transactions :: b.records.transactions[id].state == PreparedState
          ==> PreparedSince(b.checkpoints.txns, id, b.records.transactions[id].createdAt))
  }

  lemma PreparedSinceWithout(txns: seq<CT.CheckpointTxn>, n: nat, id: string, since: int)
    requires n < |txns| && txns[n].id != id && PreparedSince(txns, id, since)
    ensures PreparedSince(CT.Without(txns, n), id, since)
  {
    var i :| 0 <= i < |txns| && txns[i].id == id && txns[i].prepared && txns[i].createdAt >= since;
    assert CT.Without(txns, n)[if i < n then i else i - 1] == txns[i];
  }

  lemma PreparedSinceExtends(txns: seq<CT.CheckpointTxn>, more: seq<CT.CheckpointTxn>, id: string, since: int)
    requires |txns| <= |more| && PreparedSince(txns, id, since)
    requires forall i | 0 <= i < |txns| && txns[i].id == id && txns[i].prepared :: more[i] == txns[i]
    ensures PreparedSince(more, id, since)
  {
  }

  lemma PrepareCovered(b: Both, clock: int, id: string, position: Position, now: int, outcome: PrepareOutcome)
    requires Covered(b, clock) && clock <= now
    ensures Covered(CoordinatedPrepare(b, id, position, now, outcome).0, now)
  {
    var after := CoordinatedPrepare(b, id, position, now, outcome).0;
    var txns, more := b.checkpoints.txns, after.checkpoints.txns;
    if !CT.Open(txns, id) {
      CT.FindAppended(txns, CT.CheckpointTxn(id, TaskOf(id), position, false, false, now));
      forall other <- after.records.transactions | RecordPrepared(after, other)
        ensures PreparedSince(more, other, after.records.transactions[other].createdAt)
      {
        if RecordPrepared(b, other) {
          PreparedSinceExtends(txns, more, other, b.records.transactions[other].createdAt);
        } else {
          assert other == id && more[|txns|].id == id && more[|txns|].prepared;
        }
      }
    }
  }

  lemma CommitCovered(b: Both, clock: int, id: string, loadOk: bool, saveOk: bool)
    requires Covered(b, clock)
    ensures Covered(CoordinatedCommit(b, id, loadOk, saveOk).0, clock)
  {
    var after := CoordinatedCommit(b, id, loadOk, saveOk).0;
    var txns := b.checkpoints.txns;
    var n := CT.Find(txns, id);
    if after.checkpoints.txns != txns {
      assert after.checkpoints.txns == CT.Without(txns, n);
      forall other <- after.records.transactions | RecordPrepared(after, other) && other != id
        ensures PreparedSince(after.checkpoints.txns, other, after.records.transactions[other].createdAt)
      {
        PreparedSinceWithout(txns, n, other, b.records.transactions[other].createdAt);
      }
    }
  }

  /** No cleanup takes the prepared transaction of a prepared record without taking the record. */
  predicate Spares(b: Both, now: int, later: int, timeout: int) {
    forall i | 0 <= i < |b.checkpoints.txns| ::
      var t := b.checkpoints.txns[i];
      t.prepared && RecordPrepared(b, t.id) && CT.Stale(t, later, timeout) ==> Stale(b.records.transactions[t.id], now, timeout)
  }

  lemma CleanupCovered(b: Both, clock: int, now: int, later: int, timeout: int, fails: set<string>)
    requires Covered(b, clock) && clock <= later && Spares(b, now, later, timeout)
    ensures Covered(CoordinatedCleanup(b, now, later, timeout, fails), later)
  {
    var after := CoordinatedCleanup(b, now, later, timeout, fails);
    var txns := b.checkpoints.txns;
    CleanupKeepsUnique(b.checkpoints, later, timeout, fails);
    forall id <- after.records.transactions | RecordPrepared(after, id)
      ensures PreparedSince(after.checkpoints.txns, id, after.records.transactions[id].createdAt)
    {
      var since := b.records.transactions[id].createdAt;
      var i :| 0 <= i < |txns| && txns[i].id == id && txns[i].prepared && txns[i].createdAt >= since;
      CS.FreshMembers(txns, later, timeout, txns[i]);
      var j :| 0 <= j < |after.checkpoints.txns| && after.checkpoints.txns[j] == txns[i];
    }
  }

  lemma StepCovered(b: Both, clock: int, step: Step, timeout: int)
    requires Covered(b, clock) && clock <= ClockAfter(clock, step)
    requires !step.CCommit? && (step.CCleanup? ==> Spares(b, step.now, step.later, timeout))
    ensures Covered(NextBoth(b, step, timeout), ClockAfter(clock, step))
  {
    var after := NextBoth(b, step, timeout);
    var txns := b.checkpoints.txns;
    match step
    case CPrepare(id, position, now, outcome) =>
      PrepareCovered(b, clock, id, position, now, outcome);
    case CRollback(id, deleteOk) =>
      var n := CT.Find(txns, id);
      if n < |txns| {
        forall other <- after.records.transactions | RecordPrepared(after, other)
          ensures PreparedSince(after.checkpoints.txns, other, after.records.transactions[other].createdAt)
        {
          PreparedSinceWithout(txns, n, other, b.records.transactions[other].createdAt);
        }
      }
    case CCleanup(now, later, fails) =>
      CleanupCovered(b, clock, now, later, timeout, fails);
    case _ =>
  }

  lemma CleanupKeepsUnique(s: CT.State, now: int, timeout: int, fails: set<string>)
    requires CT.UniqueIds(s.txns)
    ensures CT.UniqueIds(CT.Cleanup(s, now, timeout, fails).txns)
  {
    var gone := set t | t in s.txns && CT.Stale(t, now, timeout) :: t.id;
    forall t <- s.txns
      ensures t.id in gone <==> CT.Stale(t, now, timeout)
    {
      if t.id in gone {
        var u :| u in s.txns && CT.Stale(u, now, timeout) && u.id == t.id;
      }
    }
    CT.KeepIsFresh(s.txns, gone, now, timeout);
    CT.KeepUnique(s.txns, gone);
  }

  ghost predicate AllSpared(c: Config, steps: seq<Step>, timeout: int) {
    forall n | 0 <= n < |steps| && steps[n].CCleanup? ::
      Spares(Run(c, steps[..n], timeout).both, steps[n].now, steps[n].later, timeout)
  }

  /**
   In every run with a monotone clock, a record in `Prepared` has a prepared checkpoint transaction, as long
   as no cleanup's second reading finds stale what its first did not.
   */
  lemma {:induction false} PreparedRecordsAreCovered(c: Config, steps: seq<Step>, timeout: int)
    requires Covered(c.both, c.clock) && Timed(c, steps, timeout) && AllSpared(c, steps, timeout)
    ensures var after := Run(c, steps, timeout);
            && Covered(after.both, after.clock)
            && forall id | RecordPrepared(after.both, id) :: HasPreparedTxn(after.both, id)
  {
    if steps != [] {
      var n := |steps| - 1;
      forall k | 0 <= k < n
        ensures steps[..n][..k] == steps[..k]
      {
      }
      PreparedRecordsAreCovered(c, steps[..n], timeout);
      var before := Run(c, steps[..n], timeout);
      match steps[n]
      case CCommit(id, loadOk, saveOk) => CommitCovered(before.both, before.clock, id, loadOk, saveOk);
      case _ => StepCovered(before.both, before.clock, steps[n], timeout);
    }
    var after := Run(c, steps, timeout);
    forall id | RecordPrepared(after.both, id)
      ensures HasPreparedTxn(after.both, id)
    {
      assert PreparedSince(after.both.checkpoints.txns, id, after.both.records.transactions[id].createdAt);
    }
  }

  ghost predicate HasPreparedTxn(b: Both, id: string) {
    exists i :: 0 <= i < |b.checkpoints.txns| && b.checkpoints.txns[i].id == id && b.checkpoints.txns[i].prepared
  }

  /** One cleanup keeps every prepared record its transaction exactly when it spares them. */
  lemma CleanupUncoversExactlyWhen(b: Both, clock: int, now: int, later: int, timeout: int, fails: set<string>)
    requires Covered(b, clock) && clock <= later
    ensures var after := CoordinatedCleanup(b, now, later, timeout, fails);
            (forall id | RecordPrepared(after, id) :: HasPreparedTxn(after, id)) <==> Spares(b, now, later, timeout)
  {
    var after := CoordinatedCleanup(b, now, later, timeout, fails);
    var txns, left := b.checkpoints.txns, after.checkpoints.txns;
    if Spares(b, now, later, timeout) {
      CleanupCovered(b, clock, now, later, timeout, fails);
      forall id | RecordPrepared(after, id)
        ensures HasPreparedTxn(after, id)
      {
        assert PreparedSince(left, id, after.records.transactions[id].createdAt);
      }
    } else {
      var i :| 0 <= i < |txns| && txns[i].prepared && RecordPrepared(b, txns[i].id)
               && CT.Stale(txns[i], later, timeout) && !Stale(b.records.transactions[txns[i].id], now, timeout);
      forall j | 0 <= j < |left|
        ensures left[j].id != txns[i].id
      {
        CS.FreshMembers(txns, later, timeout, left[j]);
        var k :| 0 <= k < |txns| && txns[k] == left[j];
      }
      assert RecordPrepared(after, txns[i].id) && !HasPreparedTxn(after, txns[i].id);
    }
  }

  /** With one reading for both sides every cleanup spares: a transaction is never older than its record. */
  lemma OneReadingSpares(b: Both, clock: int, now: int, timeout: int)
    requires Covered(b, clock)
    ensures Spares(b, now, now, timeout)
  {
    var txns := b.checkpoints.txns;
    forall i | 0 <= i < |txns| && txns[i].prepared && RecordPrepared(b, txns[i].id)
      ensures txns[i].createdAt >= b.records.transactions[txns[i].id].createdAt
    {
      assert PreparedSince(txns, txns[i].id, b.records.transactions[txns[i].id].createdAt);
    }
  }

  // ----- commits change both sides or neither

  /** A commit in state `b` goes through on both sides or leaves both as they were. */
  predicate CommitsTogether(b: Both, id: string, loadOk: bool, saveOk: bool) {
    var (after, r) := CoordinatedCommit(b, id, loadOk, saveOk);
    if r.Ok? then
      && after.checkpoints == CT.Commit(b.checkpoints, id, loadOk, saveOk).0 && after.checkpoints != b.checkpoints
      && id in after.records.transactions && after.records.transactions[id].state == CommittedState
    else after == b
  }

  /** The checkpoint side holds a prepared transaction and its checkpoint, and the storage calls succeed. */
  predicate CheckpointCommits(s: CT.State, id: string, loadOk: bool, saveOk: bool) {
    var n := CT.Find(s.txns, id);
    n < |s.txns| && s.txns[n].prepared && s.txns[n].taskId in s.store && loadOk && saveOk
  }

  /** It does so exactly unless the checkpoint side can commit while the record is not prepared. */
  lemma CommitsTogetherExactlyWhen(b: Both, id: string, loadOk: bool, saveOk: bool)
    requires forall t <- b.checkpoints.txns :: t.id == id ==> !t.committed
    ensures CommitsTogether(b, id, loadOk, saveOk)
       <==> (CheckpointCommits(b.checkpoints, id, loadOk, saveOk) ==> RecordPrepared(b, id))
  {
    var n := CT.Find(b.checkpoints.txns, id);
    if n < |b.checkpoints.txns| {
      assert b.checkpoints.txns[n] in b.checkpoints.txns;
    }
  }

  /** A cleanup takes the prepared record of `id` but leaves its prepared transaction. */
  predicate Separates(b: Both, id: string, now: int, later: int, timeout: int) {
    && RecordPrepared(b, id) && Stale(b.records.transactions[id], now, timeout)
    && exists i | 0 <= i < |b.checkpoints.txns| ::
         b.checkpoints.txns[i].id == id && b.checkpoints.txns[i].prepared && !CT.Stale(b.checkpoints.txns[i], later, timeout)
  }

  /** As far as `id` goes: it is fresh when begun, prepared only while its record is started, and no cleanup separates it. */
  predicate Allowed(c: Config, id: string, step: Step, timeout: int) {
    match step
    case CBegin(i, _, _) => i == id ==> i !in c.begun
    case CPrepare(i, _, _, _) => i == id ==> id in c.both.records.transactions && c.both.records.transactions[id].state == Started
    case CCleanup(now, later, _) => !Separates(c.both, id, now, later, timeout)
    case _ => true
  }

  ghost predicate Disciplined(c: Config, id: string, steps: seq<Step>, timeout: int) {
    forall n | 0 <= n < |steps| :: Allowed(Run(c, steps[..n], timeout), id, steps[n], timeout)
  }

  /** Whatever the checkpoint side has prepared for `id`, the records have too. */
  ghost predicate InStep(c: Config, id: string) {
    var records, txns := c.both.records.transactions, c.both.checkpoints.txns;
    && CT.UniqueIds(txns)
    && (id in records ==> id in c.begun)
    && (forall i | 0 <= i < |txns| && txns[i].id == id ::
          id in c.begun && !txns[i].committed && (txns[i].prepared ==> RecordPrepared(c.both, id)))
    && (id in c.both.records.scheduled ==> id in c.begun && (id in records ==> records[id].state == CommittedState))
  }

  lemma WithoutMembers(txns: seq<CT.CheckpointTxn>, n: nat)
    requires n < |txns| && CT.UniqueIds(txns)
    ensures CT.UniqueIds(CT.Without(txns, n))
    ensures forall i | 0 <= i < |txns| - 1 :: CT.Without(txns, n)[i] in txns && CT.Without(txns, n)[i].id != txns[n].id
  {
  }

  lemma PrepareInStep(c: Config, id: string, step: Step, timeout: int)
    requires InStep(c, id) && Allowed(c, id, step, timeout) && step.CPrepare?
    ensures InStep(Next(c, step, timeout), id)
  {
    var txns := c.both.checkpoints.txns;
    if !CT.Open(txns, step.id) {
      var t := CT.CheckpointTxn(step.id, TaskOf(step.id), step.position, false, false, step.now);
      CT.FindAppended(txns, t);
      var after := Next(c, step, timeout).both.checkpoints.txns;
      assert after == txns + [t] || after == txns + [t.(prepared := true)];
    }
  }

  lemma DropInStep(c: Config, id: string, step: Step, timeout: int)
    requires InStep(c, id) && (step.CCommit? || step.CRollback?)
    ensures InStep(Next(c, step, timeout), id)
  {
    var txns := c.both.checkpoints.txns;
    var n := CT.Find(txns, step.id);
    if n < |txns| {
      WithoutMembers(txns, n);
      var after := Next(c, step, timeout);
      if after.both.checkpoints.txns != txns {
        assert after.both.checkpoints.txns == CT.Without(txns, n);
        forall i | 0 <= i < |txns| - 1 && after.both.checkpoints.txns[i].id == id
          ensures var t := after.both.checkpoints.txns[i];
                  id in c.begun && !t.committed && (t.prepared ==> RecordPrepared(after.both, id))
        {
          var j :| 0 <= j < |txns| && txns[j] == after.both.checkpoints.txns[i];
          assert step.id != id;
        }
      }
    }
  }

  lemma CleanupInStep(c: Config, id: string, step: Step, timeout: int)
    requires InStep(c, id) && Allowed(c, id, step, timeout) && step.CCleanup?
    ensures InStep(Next(c, step, timeout), id)
  {
    var after := Next(c, step, timeout);
    var txns := c.both.checkpoints.txns;
    CleanupKeepsUnique(c.both.checkpoints, step.later, timeout, step.fails);
    forall i | 0 <= i < |after.both.checkpoints.txns| && after.both.checkpoints.txns[i].id == id
      ensures var t := after.both.checkpoints.txns[i];
              id in c.begun && !t.committed && (t.prepared ==> RecordPrepared(after.both, id))
    {
      var t := after.both.checkpoints.txns[i];
      CS.FreshMembers(txns, step.later, timeout, t);
      var j :| 0 <= j < |txns| && txns[j] == t;
    }
  }

  lemma RecordsInStep(c: Config, id: string, step: Step, timeout: int)
    requires InStep(c, id) && Allowed(c, id, step, timeout) && (step.CBegin? || step.CRemove?)
    ensures InStep(Next(c, step, timeout), id)
  {
  }

  lemma {:induction false} RunInStep(c: Config, id: string, steps: seq<Step>, timeout: int)
    requires InStep(c, id) && Disciplined(c, id, steps, timeout)
    ensures InStep(Run(c, steps, timeout), id)
  {
    if steps != [] {
      var n := |steps| - 1;
      forall k | 0 <= k < n
        ensures steps[..n][..k] == steps[..k]
      {
      }
      RunInStep(c, id, steps[..n], timeout);
      var before := Run(c, steps[..n], timeout);
      match steps[n]
      case CPrepare(_, _, _, _) => PrepareInStep(before, id, steps[n], timeout);
      case CCommit(_, _, _) => DropInStep(before, id, steps[n], timeout);
      case CRollback(_, _) => DropInStep(before, id, steps[n], timeout);
      case CCleanup(_, _, _) => CleanupInStep(before, id, steps[n], timeout);
      case _ => RecordsInStep(before, id, steps[n], timeout);
    }
  }

  /**
   In every run in which `id` is begun once, prepared only while its record is started and separated by no
   cleanup, a commit of `id` changes both sides or neither, whatever happens to other transactions.
   */
  lemma {:induction false} CommitsAreAtomic(clock: int, store: Entries, steps: seq<Step>, timeout: int, id: string, loadOk: bool, saveOk: bool)
    requires Disciplined(Start(clock, store), id, steps, timeout)
    ensures CommitsTogether(Run(Start(clock, store), steps, timeout).both, id, loadOk, saveOk)
  {
    RunInStep(Start(clock, store), id, steps, timeout);
    var b := Run(Start(clock, store), steps, timeout).both;
    CommitsTogetherExactlyWhen(b, id, loadOk, saveOk);
  }

  /** No other prepared transaction uses the checkpoint of transaction `k`. */
  predicate OwnsCheckpoint(s: CT.State, k: nat)
    requires k < |s.txns|
  {
    s.txns[k].taskId in s.store && forall i | 0 <= i < |s.txns| && i != k && s.txns[i].prepared :: s.txns[i].taskId != s.txns[k].taskId
  }

  lemma CleanupKeepsTxn(s: CT.State, k: nat, later: int, timeout: int, fails: set<string>)
    requires CT.UniqueIds(s.txns) && k < |s.txns| && OwnsCheckpoint(s, k)
    ensures var after := CT.Cleanup(s, later, timeout, fails);
            var n := CT.Find(after.txns, s.txns[k].id);
            if CT.Stale(s.txns[k], later, timeout) then n == |after.txns|
            else n < |after.txns| && after.txns[n] == s.txns[k] && s.txns[k].taskId in after.store
  {
    var after := CT.Cleanup(s, later, timeout, fails);
    var id := s.txns[k].id;
    CleanupKeepsUnique(s, later, timeout, fails);
    forall i | 0 <= i < |after.txns|
      ensures after.txns[i] in s.txns && (after.txns[i].id == id ==> after.txns[i] == s.txns[k]) && !CT.Stale(after.txns[i], later, timeout)
    {
      CS.FreshMembers(s.txns, later, timeout, after.txns[i]);
      var j :| 0 <= j < |s.txns| && s.txns[j] == after.txns[i];
    }
    if !CT.Stale(s.txns[k], later, timeout) {
      CS.FreshMembers(s.txns, later, timeout, s.txns[k]);
      var j :| 0 <= j < |after.txns| && after.txns[j] == s.txns[k];
    }
  }

  /**
   Exactly when a cleanup separates a prepared transaction: the commit that follows changes both sides or
   neither just when the record being stale at the first reading means that the transaction, begun later, is
   stale at the second.
   */
  lemma CleanupSeparatesExactlyWhen(b: Both, id: string, k: nat, now: int, later: int, timeout: int, fails: set<string>)
    requires CT.UniqueIds(b.checkpoints.txns) && RecordPrepared(b, id)
    requires k < |b.checkpoints.txns| && b.checkpoints.txns[k].id == id
    requires b.checkpoints.txns[k].prepared && !b.checkpoints.txns[k].committed && OwnsCheckpoint(b.checkpoints, k)
    ensures CommitsTogether(CoordinatedCleanup(b, now, later, timeout, fails), id, true, true)
       <==> (Stale(b.records.transactions[id], now, timeout) ==> CT.Stale(b.checkpoints.txns[k], later, timeout))
  {
    var after := CoordinatedCleanup(b, now, later, timeout, fails);
    CleanupKeepsTxn(b.checkpoints, k, later, timeout, fails);
    forall t <- after.checkpoints.txns | t.id == id
      ensures t == b.checkpoints.txns[k]
    {
      CS.FreshMembers(b.checkpoints.txns, later, timeout, t);
      var j :| 0 <= j < |b.checkpoints.txns| && b.checkpoints.txns[j] == t;
    }
    CommitsTogetherExactlyWhen(after, id, true, true);
  }

  /** The state after one transaction has been begun at 0 and prepared at `at`. */
  lemma AfterPrepare(p: Position, at: int, timeout: int)
    ensures var steps := [CBegin("t-1", "t", 0), CPrepare("t-1", p, at, Saved)];
            var t := CT.CheckpointTxn("t-1", "t", p, true, false, at);
            Run(Start(0, map[]), steps, timeout) ==
            Config(Both(Records(map["t-1" := Transaction("t", PreparedState, Some(p), 0)], multiset{}),
                        CT.State([t], map["t" := CT.Prepared(t, at)])), at, {"t-1"})
  {
    var steps := [CBegin("t-1", "t", 0), CPrepare("t-1", p, at, Saved)];
    assert steps[..1] == [CBegin("t-1", "t", 0)] && steps[..1][..0] == [];
    assert TaskOf("t-1") == "t" by { TaskOfUndoesBegin("t", "1"); assert "t" + "-" + "1" == "t-1"; }
    assert Run(Start(0, map[]), steps[..1][..0], timeout) == Start(0, map[]);
    var begun := Run(Start(0, map[]), steps[..1], timeout);
    assert begun == Config(Both(Records(map["t-1" := Transaction("t", Started, None, 0)], multiset{}), CT.State([], map[])), 0, {"t-1"});
    var t := CT.CheckpointTxn("t-1", "t", p, false, false, at);
    assert CT.Find([t], "t-1") == 0 && [t][0 := t.(prepared := true)] == [t.(prepared := true)];
  }

  /**
   A cleanup can fall between the two creation times: the record is dropped, its younger checkpoint
   transaction is not, and the commit that follows changes one side only.
   */
  lemma CleanupCanSeparate(p: Position)
    ensures var steps := [CBegin("t-1", "t", 0), CPrepare("t-1", p, 10, Saved), CCleanup(35, 35, {})];
            !CommitsTogether(Run(Start(0, map[]), steps, 30).both, "t-1", true, true)
  {
    var steps := [CBegin("t-1", "t", 0), CPrepare("t-1", p, 10, Saved), CCleanup(35, 35, {})];
    assert steps[..2] == [CBegin("t-1", "t", 0), CPrepare("t-1", p, 10, Saved)];
    AfterPrepare(p, 10, 30);
    CleanupSeparatesExactlyWhen(Run(Start(0, map[]), steps[..2], 30).both, "t-1", 0, 35, 35, 30, {});
  }

  /** And between its own two readings: the transaction is dropped, the prepared record is not. */
  lemma CleanupCanUncover(p: Position)
    ensures var steps := [CBegin("t-1", "t", 0), CPrepare("t-1", p, 0, Saved), CCleanup(30, 31, {})];
            var after := Run(Start(0, map[]), steps, 30).both;
            RecordPrepared(after, "t-1") && !HasPreparedTxn(after, "t-1")
  {
    var steps := [CBegin("t-1", "t", 0), CPrepare("t-1", p, 0, Saved), CCleanup(30, 31, {})];
    assert steps[..2] == [CBegin("t-1", "t", 0), CPrepare("t-1", p, 0, Saved)];
    AfterPrepare(p, 0, 30);
    var before := Run(Start(0, map[]), steps[..2], 30).both;
    var t := before.checkpoints.txns[0];
    assert CT.Fresh([t], 31, 30) == [] by { assert [t][..0] == []; }
  }
}
