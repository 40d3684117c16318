/**
 The two-phase commit records and the coordinator that drives them together with
 the checkpoint transactions (src/delivery/transaction.rs).
 */
module TwoPhaseCommit {
  import opened Wrappers
  import opened Events
  import opened CheckpointStore
  import CT = TransactionalCheckpoint

  datatype TransactionState = Started | PreparedState | CommittedState

  datatype Transaction = Transaction(taskId: string, state: TransactionState, position: Option<Position>, createdAt: int)

  datatype TpcError = AlreadyExists | NotFound | InvalidState | CheckpointSide(error: CT.TxnError)

  /** The records, and the ids whose delayed removal has been scheduled by a commit. */
  datatype Records = Records(transactions: map<string, Transaction>, scheduled: multiset<string>)

  // ----- one step, as a function of the records

  function Begin(r: Records, id: string, taskId: string, now: int): (Records, Result<(), TpcError>) {
    if id in r.transactions then (r, Err(AlreadyExists))
    else (r.(transactions := r.transactions[id := Transaction(taskId, Started, None, now)]), Ok(()))
  }

  function Prepare(r: Records, id: string, position: Position): (Records, Result<bool, TpcError>) {
    if id !in r.transactions then (r, Err(NotFound))
    else if r.transactions[id].state != Started then (r, Err(InvalidState))
    else
      var t := r.transactions[id].(position := Some(position), state := PreparedState);
      (r.(transactions := r.transactions[id := t]), Ok(true))
  }

  function Commit(r: Records, id: string): (Records, Result<(), TpcError>) {
    if id !in r.transactions then (r, Err(NotFound))
    else if r.transactions[id].state != PreparedState then (r, Err(InvalidState))
    else
      (Records(r.transactions[id := r.transactions[id].(state := CommittedState)], r.scheduled + multiset{id}), Ok(()))
  }

  function Abort(r: Records, id: string): Records {
    r.(transactions := r.transactions - {id})
  }

  predicate Stale(t: Transaction, now: int, timeout: int) {
    now - t.createdAt > timeout && t.state != CommittedState
  }

  function Cleanup(r: Records, now: int, timeout: int): Records {
    r.(transactions := r.transactions - set id | id in r.transactions && Stale(r.transactions[id], now, timeout))
  }

  /** The removal a commit schedules for five seconds later. */
  function RemoveScheduled(r: Records, id: string): Records {
    if id in r.scheduled then Records(r.transactions - {id}, r.scheduled - multiset{id}) else r
  }

  class TwoPhaseCommit {
    const timeoutSecs: int
    var transactions: map<string, Transaction>
    var scheduled: multiset<string>

    ghost function Model(): Records
      reads this
    {
      Records(transactions, scheduled)
    }

    constructor (timeoutSecs: int)
      ensures this.timeoutSecs == timeoutSecs && Model() == Records(map[], multiset{})
    {
      this.timeoutSecs := timeoutSecs;
      transactions, scheduled := map[], multiset{};
    }

    method BeginTransaction(id: string, taskId: string, now: int) returns (r: Result<(), TpcError>)
      modifies this
      ensures (Model(), r) == Begin(old(Model()), id, taskId, now)
    {
      if id in transactions {
        return Err(AlreadyExists);
      }
      transactions := transactions[id := Transaction(taskId, Started, None, now)];
      r := Ok(());
    }

    method PrepareTransaction(id: string, position: Position) returns (r: Result<bool, TpcError>)
      modifies this
      ensures (Model(), r) == Prepare(old(Model()), id, position)
    {
      if id !in transactions {
        return Err(NotFound);
      }
      var txn := transactions[id];
      if txn.state != Started {
        return Err(InvalidState);
      }
      transactions := transactions[id := txn.(position := Some(position), state := PreparedState)];
      r := Ok(true);
    }

    method CommitTransaction(id: string) returns (r: Result<(), TpcError>)
      modifies this
      ensures (Model(), r) == Commit(old(Model()), id)
    {
      if id !in transactions {
        return Err(NotFound);
      }
      if transactions[id].state != PreparedState {
        return Err(InvalidState);
      }
      transactions := transactions[id := transactions[id].(state := CommittedState)];
      scheduled := scheduled + multiset{id};
      r := Ok(());
    }

    method AbortTransaction(id: string)
      modifies this
      ensures Model() == Abort(old(Model()), id)
    {
      transactions := transactions - {id};
    }

    method RemoveCommitted(id: string)
      modifies this
      ensures Model() == RemoveScheduled(old(Model()), id)
    {
      if id in scheduled {
        transactions, scheduled := transactions - {id}, scheduled - multiset{id};
      }
    }

    method CleanupStaleTransactions(now: int)
      modifies this
      ensures Model() == Cleanup(old(Model()), now, timeoutSecs)
    {
      var stale := set id | id in transactions && Stale(transactions[id], now, timeoutSecs);
      var left := stale;
      while left != {}
        invariant left <= stale
        invariant transactions == old(transactions) - (stale - left) && scheduled == old(scheduled)
      {
        var id :| id in left;
        transactions := transactions - {id};
        left := left - {id};
      }
    }
  }

  // ----- both parties

  datatype Both = Both(records: Records, checkpoints: CT.State)

  /** How the storing of the prepared checkpoint goes; a timed-out save may or may not have reached the store. */
  datatype PrepareOutcome = Saved | SaveFailed | TimedOut(stored: bool)

  /** The task id the coordinator reads back out of a transaction id: the text before the first dash. */
  function TaskOf(id: string): string {
    if id == "" || id[0] == '-' then "" else [id[0]] + TaskOf(id[1..])
  }

  function PrepareCheckpoint(s: CT.State, id: string, now: int, outcome: PrepareOutcome): (CT.State, bool) {
    if outcome.TimedOut? then
      (if outcome.stored then CT.Prepare(s, id, now, true).0.(txns := s.txns) else s, false)
    else
      var (after, r) := CT.Prepare(s, id, now, outcome == Saved);
      (after, r == Ok(true))
  }

  function CoordinatedPrepare(b: Both, id: string, position: Position, now: int, outcome: PrepareOutcome)
    : (Both, Result<bool, TpcError>)
  {
    var (begun, r) := CT.Begin(b.checkpoints, id, TaskOf(id), position, now);
    if r.Err? then (b, Err(CheckpointSide(r.error)))
    else
      var (stored, ok) := PrepareCheckpoint(begun, id, now, outcome);
      if !ok then (b.(checkpoints := stored), Ok(false))
      else
        var (records, prepared) := Prepare(b.records, id, position);
        (Both(records, stored), prepared)
  }

  function CoordinatedCommit(b: Both, id: string, loadOk: bool, saveOk: bool): (Both, Result<(), TpcError>) {
    var (checkpoints, r) := CT.Commit(b.checkpoints, id, loadOk, saveOk);
    if r.Err? then (b, Err(CheckpointSide(r.error)))
    else
      var (records, committed) := Commit(b.records, id);
      (Both(records, checkpoints), committed)
  }

  function CoordinatedRollback(b: Both, id: string, deleteOk: bool): Both {
    Both(Abort(b.records, id), CT.Rollback(b.checkpoints, id, deleteOk).0)
  }

  /** Each side reads the clock itself: the records at `now`, the checkpoint transactions at `later`. */
  function CoordinatedCleanup(b: Both, now: int, later: int, timeout: int, fails: set<string>): Both {
    Both(Cleanup(b.records, now, timeout), CT.Cleanup(b.checkpoints, later, timeout, fails))
  }

  /** The coordinator; `handler` is the checkpoint side, once it has been set. */
  class TransactionCoordinator {
    const records: TwoPhaseCommit
    var handler: CT.TransactionalCheckpoint?

    constructor (timeoutSecs: int)
      ensures handler == null && fresh(records)
      ensures records.timeoutSecs == timeoutSecs && records.Model() == Records(map[], multiset{})
    {
      records := new TwoPhaseCommit(timeoutSecs);
      handler := null;
    }

    method SetCheckpointHandler(h: CT.TransactionalCheckpoint)
      modifies this
      ensures handler == h
    {
      handler := h;
    }

    ghost function Model(): Both
      requires handler != null
      reads this, records, handler, handler.storage
    {
      Both(records.Model(), handler.Model())
    }

    method BeginTransaction(id: string, taskId: string, now: int) returns (r: Result<(), TpcError>)
      modifies records
      ensures (records.Model(), r) == Begin(old(records.Model()), id, taskId, now)
    {
      r := records.BeginTransaction(id, taskId, now);
    }

    /** Without a handler only the record is prepared. */
    method PrepareTransaction(id: string, position: Position, now: int, outcome: PrepareOutcome) returns (r: Result<bool, TpcError>)
      requires handler != null ==> handler.Valid()
      modifies records, handler, if handler != null then {handler.storage} else {}
      ensures handler == null ==> (records.Model(), r) == Prepare(old(records.Model()), id, position)
      ensures handler != null ==> handler.Valid() && (Model(), r) == CoordinatedPrepare(old(Model()), id, position, now, outcome)
    {
      if handler != null {
        var begun := handler.BeginTransaction(id, TaskOf(id), position, now);
        if begun.Err? {
          return Err(CheckpointSide(begun.error));
        }
        if outcome.TimedOut? {
          if outcome.stored {
            handler.PrepareInterrupted(id, now);
          }
          return Ok(false);
        }
        var prepared := handler.PrepareTransaction(id, now, outcome == Saved);
        if prepared != Ok(true) {
          return Ok(false);
        }
      }
      r := records.PrepareTransaction(id, position);
    }

    method CommitTransaction(id: string, loadOk: bool, saveOk: bool) returns (r: Result<(), TpcError>)
      requires handler != null ==> handler.Valid()
      modifies records, handler, if handler != null then {handler.storage} else {}
      ensures handler == null ==> (records.Model(), r) == Commit(old(records.Model()), id)
      ensures handler != null ==> handler.Valid() && (Model(), r) == CoordinatedCommit(old(Model()), id, loadOk, saveOk)
    {
      if handler != null {
        var committed := handler.CommitTransaction(id, loadOk, saveOk);
        if committed.Err? {
          return Err(CheckpointSide(committed.error));
        }
      }
      r := records.CommitTransaction(id);
    }

    /** A failed checkpoint rollback is only logged; the record is dropped in any case. */
    method RollbackTransaction(id: string, deleteOk: bool)
      requires handler != null ==> handler.Valid()
      modifies records, handler, if handler != null then {handler.storage} else {}
      ensures handler == null ==> records.Model() == Abort(old(records.Model()), id)
      ensures handler != null ==> handler.Valid() && Model() == CoordinatedRollback(old(Model()), id, deleteOk)
    {
      if handler != null {
        var _ := handler.RollbackTransaction(id, deleteOk);
      }
      records.AbortTransaction(id);
    }

    /** One round of the cleanup task, with the two clock readings it takes. */
    method CleanupRound(now: int, later: int, fails: set<string>)
      requires handler != null ==> handler.Valid()
      modifies records, handler, if handler != null then {handler.storage} else {}
      ensures handler == null ==> records.Model() == Cleanup(old(records.Model()), now, records.timeoutSecs)
      ensures handler != null ==>
        handler.Valid() && Model() == CoordinatedCleanup(old(Model()), now, later, records.timeoutSecs, fails)
    {
      records.CleanupStaleTransactions(now);
      if handler != null {
        handler.CleanupStaleTransactions(later, records.timeoutSecs, fails);
      }
    }
  }

  /** The coordinator recovers the task it began the transaction for just when that task's id has no dash. */
  lemma {:induction false} TaskOfUndoesBegin(taskId: string, uuid: string)
    ensures TaskOf(taskId + "-" + uuid) == taskId <==> '-' !in taskId
  {
    var id := taskId + "-" + uuid;
    if taskId == "" || taskId[0] == '-' {
      assert taskId != "" ==> TaskOf(id) == "";
    } else {
      assert id[1..] == taskId[1..] + "-" + uuid;
      TaskOfUndoesBegin(taskId[1..], uuid);
      assert taskId == [taskId[0]] + taskId[1..];
    }
  }

  lemma DashedTaskIsCut()
    ensures TaskOf("a-b" + "-" + "1") != "a-b"
  {
    assert "a-b"[1] == '-';
    TaskOfUndoesBegin("a-b", "1");
  }
}
