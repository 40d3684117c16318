/**
 One batch through the at-least-once path (src/pipeline/orchestrator.rs,
 src/pipeline/at_least_once_helpers.rs, src/delivery/mod.rs): begin a
 transaction, drop duplicates, store the checkpoint uncommitted, send, then
 commit or roll back.
 */
module AtLeastOnceDelivery {
  import opened Wrappers
  import opened Events
  import opened CheckpointStore
  import opened Deduplication
  import CT = TransactionalCheckpoint
  import TP = TwoPhaseCommit
  import CS = CheckpointSafety

  function PositionOf(e: Event): Option<Position> {
    match e
    case Cdc(cdc) => cdc.position
    case Inserted(_, _, position) => position
    case Updated(_, _, _, position) => position
    case Deleted(_, _, position) => position
    case Checkpointed(at) => Some(at)
    case _ => None
  }

  function LsnOf(position: Option<Position>): string {
    if position.Some? && position.value.PostgreSQL? then position.value.lsn else ""
  }

  function IdField(data: map<string, Json>): Option<Json> {
    if "id" in data then Some(data["id"]) else None
  }

  function IdOf(document: Json): Option<Json> {
    if document.JObject? then IdField(document.fields) else None
  }

  /** All events without table share one key. */
  function KeyOf(e: Event): DeduplicationKey {
    match e
    case Cdc(cdc) => DeduplicationKey(LsnOf(cdc.position), None, cdc.table, IdField(cdc.data))
    case Inserted(table, newData, position) => DeduplicationKey(LsnOf(position), None, table, IdOf(newData))
    case Updated(table, _, newData, position) => DeduplicationKey(LsnOf(position), None, table, IdOf(newData))
    case Deleted(table, oldData, position) => DeduplicationKey(LsnOf(position), None, table, IdOf(oldData))
    case _ => DeduplicationKey("", None, "", None)
  }

  function Keys(events: seq<Event>): seq<DeduplicationKey> {
    seq(|events|, i requires 0 <= i < |events| => KeyOf(events[i]))
  }

  /** The events whose key was new when their turn came. */
  function Survivors(w: Window, events: seq<Event>): seq<Event> {
    if events == [] then []
    else
      var n := |events| - 1;
      var before := Survivors(w, events[..n]);
      if KeyOf(events[n]) in OfferAll(w, Keys(events[..n])).counts then before else before + [events[n]]
  }

  /** What the environment does with this batch. */
  datatype Reply = SendFailed | NoReply | Refused | Answered(failedCount: nat)
  datatype Environment = Environment(
    transactionId: string, now: int, saveOk: bool, loadOk: bool, commitSaveOk: bool, deleteOk: bool, reply: Reply)

  datatype BatchError = Record(error: TP.TpcError) | Txn(txnError: CT.TxnError) | PrepareFailed | NotDelivered(reply: Reply)

  /** A batch as the destination receives it, with the task's stored checkpoint at that moment. */
  datatype Delivery = Delivery(events: seq<Event>, stored: Option<Checkpoint>)

  // ----- one batch, as a function of all it touches

  datatype World = World(
    window: Window, checkpoints: CT.State, records: TP.Records, inbox: seq<Delivery>, resume: map<string, Position>)

  /** Deduplication and two-phase commit switched on or off; `linked` once the coordinator knows the checkpoint side. */
  datatype Mode = Mode(enabled: bool, twoPhaseCommit: bool, linked: bool)

  /** The id of this batch's transaction; without two-phase commit it is always empty. */
  function TransactionId(mode: Mode, env: Environment): string {
    if mode.twoPhaseCommit then env.transactionId else ""
  }

  function SurvivorsOf(mode: Mode, w: Window, batch: seq<Event>): seq<Event> {
    if mode.enabled then Survivors(w, batch) else batch
  }

  function Marked(mode: Mode, w: Window, batch: seq<Event>): Window {
    if mode.enabled then OfferAll(w, Keys(batch)) else w
  }

  /** The checkpoint stored for a batch. */
  function Stored(mode: Mode, batch: seq<Event>, taskId: string, env: Environment, committed: bool): Checkpoint
    requires batch != [] && LastPosition(batch).Some?
  {
    Checkpoint(taskId, LastPosition(batch).value, env.now, Some(Metadata(TransactionId(mode, env), committed)))
  }

  function LastPosition(batch: seq<Event>): Option<Position>
    requires batch != []
  {
    PositionOf(batch[|batch| - 1])
  }

  /** This batch's transaction in the checkpoint table, once it is prepared. */
  function PreparedTxn(mode: Mode, batch: seq<Event>, taskId: string, env: Environment): CT.CheckpointTxn
    requires batch != [] && LastPosition(batch).Some?
  {
    CT.CheckpointTxn(TransactionId(mode, env), taskId, LastPosition(batch).value, true, false, env.now)
  }

  function BeginRecord(mode: Mode, records: TP.Records, taskId: string, env: Environment): TP.Records {
    if mode.twoPhaseCommit then TP.Begin(records, env.transactionId, taskId, env.now).0 else records
  }

  /** The coordinated record, if there is one, is free. */
  predicate RecordFree(mode: Mode, records: TP.Records, env: Environment) {
    mode.twoPhaseCommit ==> env.transactionId !in records.transactions
  }

  /** Nothing stands in the way of beginning both transactions. */
  predicate CanBegin(mode: Mode, w: World, env: Environment) {
    RecordFree(mode, w.records, env) && !CT.Open(w.checkpoints.txns, TransactionId(mode, env))
  }

  /** The batch gets as far as the duplicates filter, and as far as sending. */
  predicate Starts(mode: Mode, w: World, batch: seq<Event>, env: Environment)
    requires batch != []
  {
    LastPosition(batch).Some? && CanBegin(mode, w, env)
  }

  predicate Stores(mode: Mode, w: World, batch: seq<Event>, env: Environment)
    requires batch != []
  {
    Starts(mode, w, batch, env) && SurvivorsOf(mode, w.window, batch) != [] && env.saveOk
  }

  predicate FullyDelivered(env: Environment) {
    env.reply == Answered(0)
  }

  predicate CommitStored(env: Environment) {
    env.loadOk && env.commitSaveOk
  }

  /** The checkpoint table and store after a batch that starts, by how far it gets. */
  function CheckpointsAfter(mode: Mode, s: CT.State, survivors: seq<Event>, batch: seq<Event>, taskId: string, env: Environment): CT.State
    requires batch != [] && LastPosition(batch).Some?
  {
    var begun := CT.Begin(s, TransactionId(mode, env), taskId, LastPosition(batch).value, env.now).0;
    if survivors == [] then begun
    else if !env.saveOk then (if mode.twoPhaseCommit && mode.linked then s else begun)
    else if !FullyDelivered(env) then
      s.(store := if env.deleteOk then s.store - {taskId} else s.store[taskId := Stored(mode, batch, taskId, env, false)])
    else if CommitStored(env) then s.(store := s.store[taskId := Stored(mode, batch, taskId, env, true)])
    else CT.State(s.txns + [PreparedTxn(mode, batch, taskId, env)], s.store[taskId := Stored(mode, batch, taskId, env, false)])
  }

  /** The record is taken back by every rollback, and otherwise stays as it was begun. */
  function RecordsAfter(mode: Mode, r: TP.Records, survivors: seq<Event>, taskId: string, env: Environment): TP.Records {
    if survivors != [] && (!env.saveOk || !FullyDelivered(env)) then r else BeginRecord(mode, r, taskId, env)
  }

  function InboxAfter(mode: Mode, inbox: seq<Delivery>, survivors: seq<Event>, batch: seq<Event>, taskId: string, env: Environment): seq<Delivery>
    requires batch != [] && LastPosition(batch).Some?
  {
    if survivors != [] && env.saveOk && env.reply != SendFailed
    then inbox + [Delivery(survivors, Some(Stored(mode, batch, taskId, env, false)))] else inbox
  }

  /** The call succeeds: nothing to do, only duplicates, or everything delivered and, without two-phase commit, committed. */
  predicate Succeeds(mode: Mode, w: World, batch: seq<Event>, env: Environment)
    requires batch != []
  {
    || LastPosition(batch).None?
    || (Starts(mode, w, batch, env) && SurvivorsOf(mode, w.window, batch) == [])
    || (Stores(mode, w, batch, env) && FullyDelivered(env) && CommitStored(env) && !mode.twoPhaseCommit)
  }

  function AfterBatch(mode: Mode, w: World, batch: seq<Event>, taskId: string, env: Environment): World
    requires batch != []
  {
    if LastPosition(batch).None? || !RecordFree(mode, w.records, env) then w
    else if CT.Open(w.checkpoints.txns, TransactionId(mode, env)) then w.(records := BeginRecord(mode, w.records, taskId, env))
    else
      var survivors := SurvivorsOf(mode, w.window, batch);
      World(Marked(mode, w.window, batch),
            CheckpointsAfter(mode, w.checkpoints, survivors, batch, taskId, env),
            RecordsAfter(mode, w.records, survivors, taskId, env),
            InboxAfter(mode, w.inbox, survivors, batch, taskId, env),
            if Succeeds(mode, w, batch, env) && survivors != [] then w.resume[taskId := LastPosition(batch).value] else w.resume)
  }

  class BatchStep {
    const enabled: bool
    const twoPhaseCommit: bool
    const deduplicator: EventDeduplicator
    const coordinator: TP.TransactionCoordinator
    const checkpoints: CT.TransactionalCheckpoint
    var inbox: seq<Delivery>
    var resume: map<string, Position>

    ghost predicate Valid()
      reads this, checkpoints, checkpoints.storage, coordinator
    {
      checkpoints.Valid() && (coordinator.handler == null || coordinator.handler == checkpoints)
    }

    ghost function Now(): World
      reads this, deduplicator, checkpoints, checkpoints.storage, coordinator, coordinator.records
    {
      World(deduplicator.State(), checkpoints.Model(), coordinator.records.Model(), inbox, resume)
    }

    ghost function CurrentMode(): Mode
      reads this, coordinator
    {
      Mode(enabled, twoPhaseCommit, coordinator.handler != null)
    }

    constructor (enabled: bool, twoPhaseCommit: bool, deduplicator: EventDeduplicator,
                 coordinator: TP.TransactionCoordinator, checkpoints: CT.TransactionalCheckpoint)
      requires checkpoints.Valid() && (coordinator.handler == null || coordinator.handler == checkpoints)
      ensures Valid() && inbox == [] && resume == map[]
      ensures this.enabled == enabled && this.twoPhaseCommit == twoPhaseCommit && this.deduplicator == deduplicator
      ensures this.coordinator == coordinator && this.checkpoints == checkpoints
    {
      this.enabled, this.twoPhaseCommit, this.deduplicator := enabled, twoPhaseCommit, deduplicator;
      this.coordinator, this.checkpoints := coordinator, checkpoints;
      inbox, resume := [], map[];
    }

    /** Begins the coordinated transaction, then the checkpoint transaction of the same id. */
    method BeginBoth(taskId: string, position: Position, env: Environment) returns (r: Result<(), BatchError>)
      requires Valid()
      modifies coordinator.records, checkpoints
      ensures Valid()
      ensures r.Ok? <==> old(CanBegin(CurrentMode(), Now(), env))
      ensures checkpoints.Model() ==
        if r.Ok? then CT.Begin(old(checkpoints.Model()), TransactionId(CurrentMode(), env), taskId, position, env.now).0
        else old(checkpoints.Model())
      ensures coordinator.records.Model() == BeginRecord(CurrentMode(), old(coordinator.records.Model()), taskId, env)
    {
      var id := if twoPhaseCommit then env.transactionId else "";
      if twoPhaseCommit {
        var recorded := coordinator.BeginTransaction(id, taskId, env.now);
        if recorded.Err? {
          return Err(Record(recorded.error));
        }
      }
      var begun := checkpoints.BeginTransaction(id, taskId, position, env.now);
      if begun.Err? {
        return Err(Txn(begun.error));
      }
      r := Ok(());
    }

    /** Drops duplicates and marks the rest as seen, before anything has been sent. */
    method Deduplicate(batch: seq<Event>) returns (survivors: seq<Event>)
      modifies deduplicator
      ensures survivors == SurvivorsOf(CurrentMode(), old(deduplicator.State()), batch)
      ensures deduplicator.State() == Marked(CurrentMode(), old(deduplicator.State()), batch)
    {
      survivors := [];
      for i := 0 to |batch|
        invariant survivors == SurvivorsOf(CurrentMode(), old(deduplicator.State()), batch[..i])
        invariant deduplicator.State() == Marked(CurrentMode(), old(deduplicator.State()), batch[..i])
      {
        var key := KeyOf(batch[i]);
        assert batch[..i + 1][..i] == batch[..i];
        assert Keys(batch[..i + 1])[..i] == Keys(batch[..i]);
        if !enabled || !deduplicator.Contains(key) {
          survivors := survivors + [batch[i]];
          if enabled {
            deduplicator.AddKey(key);
          }
        }
      }
      assert batch[..|batch|] == batch;
    }

    /** Rolls both sides back. */
    method RollBack(id: string, env: Environment)
      requires Valid() && CT.Open(checkpoints.transactions, id)
      modifies checkpoints, checkpoints.storage, coordinator.records
      ensures Valid()
      ensures checkpoints.Model() == CT.Rollback(old(checkpoints.Model()), id, env.deleteOk).0
      ensures coordinator.records.Model() ==
        if twoPhaseCommit then TP.Abort(old(coordinator.records.Model()), id) else old(coordinator.records.Model())
    {
      var _ := checkpoints.RollbackTransaction(id, env.deleteOk);
      CT.RolledBackIsGone(old(checkpoints.Model()), id, env.deleteOk);
      if twoPhaseCommit {
        coordinator.RollbackTransaction(id, env.deleteOk);
      }
    }

    /** Commits the checkpoint, then the coordinated transaction, which looks the checkpoint side up again. */
    method Finish(id: string, env: Environment) returns (r: Result<(), BatchError>)
      requires Valid() && id == TransactionId(CurrentMode(), env)
      requires twoPhaseCommit ==> id in coordinator.records.transactions && coordinator.records.transactions[id].state == TP.Started
      requires CT.Commit(checkpoints.Model(), id, env.loadOk, env.commitSaveOk).1.Ok? ==>
                 !CT.Open(CT.Commit(checkpoints.Model(), id, env.loadOk, env.commitSaveOk).0.txns, id)
      modifies coordinator.records, checkpoints, checkpoints.storage
      ensures Valid()
      ensures checkpoints.Model() == CT.Commit(old(checkpoints.Model()), id, env.loadOk, env.commitSaveOk).0
      ensures r.Ok? <==> CT.Commit(old(checkpoints.Model()), id, env.loadOk, env.commitSaveOk).1.Ok? && !twoPhaseCommit
      ensures coordinator.records.Model() == old(coordinator.records.Model())
    {
      var committed := checkpoints.CommitTransaction(id, env.loadOk, env.commitSaveOk);
      if committed.Err? {
        return Err(Txn(committed.error));
      }
      if twoPhaseCommit {
        var both := coordinator.CommitTransaction(id, env.loadOk, env.commitSaveOk);
        assert both.Err?;
        return Err(Record(both.error));
      }
      r := Ok(());
    }

    /** Sends with the checkpoint stored; `before` and `free` are the two sides before the batch. */
    method SendPrepared(survivors: seq<Event>, batch: seq<Event>, taskId: string, env: Environment,
                        ghost before: CT.State, ghost free: TP.Records)
      returns (r: Result<(), BatchError>)
      requires Valid() && batch != [] && LastPosition(batch).Some? && survivors != [] && env.saveOk
      requires RecordFree(CurrentMode(), free, env) && coordinator.records.Model() == BeginRecord(CurrentMode(), free, taskId, env)
      requires !CT.Open(before.txns, TransactionId(CurrentMode(), env))
      requires checkpoints.transactions == before.txns + [PreparedTxn(CurrentMode(), batch, taskId, env)]
      requires checkpoints.storage.entries == before.store[taskId := Stored(CurrentMode(), batch, taskId, env, false)]
      modifies this, coordinator.records, checkpoints, checkpoints.storage
      ensures Valid()
      ensures r.Ok? <==> FullyDelivered(env) && CommitStored(env) && !twoPhaseCommit
      ensures checkpoints.Model() == CheckpointsAfter(CurrentMode(), before, survivors, batch, taskId, env)
      ensures coordinator.records.Model() == RecordsAfter(CurrentMode(), free, survivors, taskId, env)
      ensures inbox == InboxAfter(CurrentMode(), old(inbox), survivors, batch, taskId, env)
      ensures resume == if r.Ok? then old(resume)[taskId := LastPosition(batch).value] else old(resume)
    {
      if env.reply != SendFailed {
        var stored := checkpoints.storage.entries;
        inbox := inbox + [Delivery(survivors, if taskId in stored then Some(stored[taskId]) else None)];
      }
      r := Settle(survivors, batch, taskId, env, before, free);
      if r.Ok? {
        resume := resume[taskId := PositionOf(batch[|batch| - 1]).value];
      }
    }

    /** Rolls back or commits, by the reply. */
    method Settle(ghost survivors: seq<Event>, batch: seq<Event>, taskId: string, env: Environment,
                  ghost before: CT.State, ghost free: TP.Records)
      returns (r: Result<(), BatchError>)
      requires Valid() && batch != [] && LastPosition(batch).Some? && survivors != [] && env.saveOk
      requires RecordFree(CurrentMode(), free, env) && coordinator.records.Model() == BeginRecord(CurrentMode(), free, taskId, env)
      requires !CT.Open(before.txns, TransactionId(CurrentMode(), env))
      requires checkpoints.transactions == before.txns + [PreparedTxn(CurrentMode(), batch, taskId, env)]
      requires checkpoints.storage.entries == before.store[taskId := Stored(CurrentMode(), batch, taskId, env, false)]
      modifies coordinator.records, checkpoints, checkpoints.storage
      ensures Valid()
      ensures r.Ok? <==> FullyDelivered(env) && CommitStored(env) && !twoPhaseCommit
      ensures checkpoints.Model() == CheckpointsAfter(CurrentMode(), before, survivors, batch, taskId, env)
      ensures coordinator.records.Model() == RecordsAfter(CurrentMode(), free, survivors, taskId, env)
    {
      var id := if twoPhaseCommit then env.transactionId else "";
      ghost var t := PreparedTxn(CurrentMode(), batch, taskId, env);
      assert checkpoints.transactions[..|checkpoints.transactions| - 1] == before.txns;
      CT.FinishLast(checkpoints.Model(), t, before.store, env.now, env.deleteOk, env.loadOk, env.commitSaveOk);
      if env.reply != Answered(0) {
        RollBack(id, env);
        assert coordinator.records.transactions == free.transactions;
        return Err(NotDelivered(env.reply));
      }
      r := Finish(id, env);
    }

    /** After a failed prepare only the coordinator is told, and without two-phase commit it has nothing to do. */
    method GiveUp(taskId: string, position: Position, env: Environment, ghost before: CT.State, ghost free: TP.Records)
      requires Valid()
      requires RecordFree(CurrentMode(), free, env) && coordinator.records.Model() == BeginRecord(CurrentMode(), free, taskId, env)
      requires !CT.Open(before.txns, TransactionId(CurrentMode(), env))
      requires checkpoints.Model() == CT.Begin(before, TransactionId(CurrentMode(), env), taskId, position, env.now).0
      modifies coordinator.records, checkpoints, checkpoints.storage
      ensures Valid()
      ensures checkpoints.Model() == if twoPhaseCommit && coordinator.handler != null then before else old(checkpoints.Model())
      ensures coordinator.records.Model() == free
    {
      if twoPhaseCommit {
        var id := env.transactionId;
        CT.BegunIsTakenBack(before, id, taskId, position, env.now, env.deleteOk);
        coordinator.RollbackTransaction(id, env.deleteOk);
        assert coordinator.records.transactions == free.transactions;
      }
    }

    /** Stores the checkpoint of the transaction just begun, then sends. */
    method Deliver(survivors: seq<Event>, batch: seq<Event>, taskId: string, env: Environment, ghost before: CT.State, ghost free: TP.Records)
      returns (r: Result<(), BatchError>)
      requires Valid() && batch != [] && LastPosition(batch).Some? && survivors != []
      requires RecordFree(CurrentMode(), free, env) && coordinator.records.Model() == BeginRecord(CurrentMode(), free, taskId, env)
      requires CT.UniqueIds(before.txns) && !CT.Open(before.txns, TransactionId(CurrentMode(), env))
      requires checkpoints.Model() == CT.Begin(before, TransactionId(CurrentMode(), env), taskId, LastPosition(batch).value, env.now).0
      modifies this, coordinator.records, checkpoints, checkpoints.storage
      ensures Valid()
      ensures r.Ok? <==> env.saveOk && FullyDelivered(env) && CommitStored(env) && !twoPhaseCommit
      ensures checkpoints.Model() == CheckpointsAfter(CurrentMode(), before, survivors, batch, taskId, env)
      ensures coordinator.records.Model() == RecordsAfter(CurrentMode(), free, survivors, taskId, env)
      ensures inbox == InboxAfter(CurrentMode(), old(inbox), survivors, batch, taskId, env)
      ensures resume == if r.Ok? then old(resume)[taskId := LastPosition(batch).value] else old(resume)
    {
      var id := if twoPhaseCommit then env.transactionId else "";
      CT.BeginThenPrepare(before, id, taskId, LastPosition(batch).value, env.now);
      var prepared := checkpoints.PrepareTransaction(id, env.now, env.saveOk);
      if prepared != Ok(true) {
        GiveUp(taskId, LastPosition(batch).value, env, before, free);
        return Err(PrepareFailed);
      }
      r := SendPrepared(survivors, batch, taskId, env, before, free);
    }

    /**
     One batch. The result says whether the caller keeps the batch for another try: it does so exactly
     when the call fails.
     */
    method ProcessBatch(batch: seq<Event>, taskId: string, env: Environment) returns (left: seq<Event>, r: Result<(), BatchError>)
      requires Valid() && batch != []
      modifies this, deduplicator, coordinator.records, checkpoints, checkpoints.storage
      ensures Valid() && Now() == AfterBatch(CurrentMode(), old(Now()), batch, taskId, env)
      ensures r.Ok? <==> Succeeds(CurrentMode(), old(Now()), batch, env)
      ensures left == if r.Ok? then [] else batch
    {
      var last := PositionOf(batch[|batch| - 1]);
      if last.None? {
        return [], Ok(());
      }
      ghost var before, free := checkpoints.Model(), coordinator.records.Model();
      var begun := BeginBoth(taskId, last.value, env);
      if begun.Err? {
        return batch, begun;
      }
      var survivors := Deduplicate(batch);
      if survivors == [] {
        return [], Ok(());
      }
      r := Deliver(survivors, batch, taskId, env, before, free);
      left := if r.Ok? then [] else batch;
    }
  }

  // ----- what every batch keeps

  /**
   When events are sent, the store already carries the batch's last position, uncommitted; on every exit after
   a successful prepare without full delivery neither table holds the id and the task has no stored checkpoint;
   after full delivery it is committed if the commit can be stored, and the call succeeds exactly when it was and
   two-phase commit is off. A call succeeds with nothing sent exactly when the last event has no position, and
   then nothing at all happens, or when the batch starts and holds only duplicates.
   */
  lemma DeliveryProtocol(mode: Mode, w: World, batch: seq<Event>, taskId: string, env: Environment)
    requires batch != []
    ensures var after := AfterBatch(mode, w, batch, taskId, env);
            var id := TransactionId(mode, env);
            && (after.inbox != w.inbox ==>
                  |after.inbox| == |w.inbox| + 1 && LastPosition(batch).Some?
                  && after.inbox[|w.inbox|].stored == Some(Stored(mode, batch, taskId, env, false)))
            && (Stores(mode, w, batch, env) && !FullyDelivered(env) ==>
                  && after.checkpoints.txns == w.checkpoints.txns && !CT.Open(after.checkpoints.txns, id)
                  && (mode.twoPhaseCommit ==> id !in after.records.transactions)
                  && (env.deleteOk ==> taskId !in after.checkpoints.store))
            && (Stores(mode, w, batch, env) && FullyDelivered(env) && CommitStored(env) ==>
                  && after.checkpoints.txns == w.checkpoints.txns
                  && CT.LatestCommitted(after.checkpoints.store, taskId) == Some(Stored(mode, batch, taskId, env, true)))
            && (Stores(mode, w, batch, env) && FullyDelivered(env) ==>
                  (Succeeds(mode, w, batch, env) <==> CommitStored(env) && !mode.twoPhaseCommit))
            && (Succeeds(mode, w, batch, env) && after.inbox == w.inbox <==>
                  LastPosition(batch).None? || (Starts(mode, w, batch, env) && SurvivorsOf(mode, w.window, batch) == []))
            && (LastPosition(batch).None? ==> after == w)
  {
  }

  /** The three ways a batch leaves its checkpoint transaction open: only duplicates, no rollback of a failed save, no commit. */
  predicate LeavesOpen(mode: Mode, w: World, batch: seq<Event>, env: Environment)
    requires batch != []
  {
    Starts(mode, w, batch, env) &&
    if SurvivorsOf(mode, w.window, batch) == [] then true
    else if !env.saveOk then !(mode.twoPhaseCommit && mode.linked)
    else FullyDelivered(env) && !CommitStored(env)
  }

  lemma OpenAfterExactlyWhen(mode: Mode, w: World, batch: seq<Event>, taskId: string, env: Environment)
    requires batch != []
    ensures var id := TransactionId(mode, env);
            CT.Open(AfterBatch(mode, w, batch, taskId, env).checkpoints.txns, id)
            <==> CT.Open(w.checkpoints.txns, id) || LeavesOpen(mode, w, batch, env)
  {
    var id := TransactionId(mode, env);
    var after := AfterBatch(mode, w, batch, taskId, env).checkpoints.txns;
    if LeavesOpen(mode, w, batch, env) {
      assert after[|after| - 1].id == id;
    }
  }

  // ----- runs of batches and cleanups

  datatype Job = Batch(events: seq<Event>, taskId: string, env: Environment) | CleanUp(now: int, later: int, timeout: int, fails: set<string>)

  function Next(mode: Mode, w: World, job: Job): World {
    match job
    case Batch(events, taskId, env) => if events == [] then w else AfterBatch(mode, w, events, taskId, env)
    case CleanUp(now, later, timeout, fails) =>
      var both := TP.CoordinatedCleanup(TP.Both(w.records, w.checkpoints), now, later, timeout, fails);
      w.(records := both.records, checkpoints := both.checkpoints)
  }

  function Run(mode: Mode, w: World, jobs: seq<Job>): World {
    if jobs == [] then w else Next(mode, Run(mode, w, jobs[..|jobs| - 1]), jobs[|jobs| - 1])
  }

  /** Delivery `d` is what batch `job` sends in world `before`: its survivors, in order, with its uncommitted checkpoint stored. */
  predicate SentBy(mode: Mode, before: World, d: Delivery, job: Job) {
    && job.Batch? && job.events != [] && LastPosition(job.events).Some?
    && d == Delivery(SurvivorsOf(mode, before.window, job.events), Some(Stored(mode, job.events, job.taskId, job.env, false)))
  }

  /** Some job of the run sends delivery `d`. */
  predicate SentInRun(mode: Mode, w: World, d: Delivery, jobs: seq<Job>) {
    exists j | 0 <= j < |jobs| :: SentBy(mode, Run(mode, w, jobs[..j]), d, jobs[j])
  }

  /** A job sends nothing, or one delivery. */
  lemma SendsAtMostOne(mode: Mode, w: World, job: Job)
    ensures var after := Next(mode, w, job).inbox;
            after == w.inbox || (|after| == |w.inbox| + 1 && after[..|w.inbox|] == w.inbox && SentBy(mode, w, after[|w.inbox|], job))
  {
  }

  /** What some job of a shorter run sends, that job still sends. */
  lemma SentInLongerRun(mode: Mode, w: World, d: Delivery, jobs: seq<Job>, n: nat)
    requires n <= |jobs| && SentInRun(mode, w, d, jobs[..n])
    ensures SentInRun(mode, w, d, jobs)
  {
    var j :| 0 <= j < n && SentBy(mode, Run(mode, w, jobs[..n][..j]), d, jobs[..n][j]);
    assert jobs[..n][j] == jobs[j] && jobs[..n][..j] == jobs[..j];
  }

  /** In every run each delivery is the survivors of one batch and finds the last position of that batch stored and uncommitted. */
  lemma {:induction false} DeliveriesCarryCheckpoint(mode: Mode, w: World, jobs: seq<Job>)
    ensures var inbox := Run(mode, w, jobs).inbox;
            && |w.inbox| <= |inbox| && inbox[..|w.inbox|] == w.inbox
            && forall d | |w.inbox| <= d < |inbox| :: SentInRun(mode, w, inbox[d], jobs)
  {
    if jobs != [] {
      var n := |jobs| - 1;
      DeliveriesCarryCheckpoint(mode, w, jobs[..n]);
      var before, after := Run(mode, w, jobs[..n]).inbox, Run(mode, w, jobs).inbox;
      SendsAtMostOne(mode, Run(mode, w, jobs[..n]), jobs[n]);
      forall d | |w.inbox| <= d < |after|
        ensures SentInRun(mode, w, after[d], jobs)
      {
        if d < |before| {
          assert after[..|before|][d] == before[d];
          SentInLongerRun(mode, w, after[d], jobs, n);
        }
      }
    }
  }

  /** No cleanup of the run finds transaction `t` stale. */
  predicate NeverSwept(t: CT.CheckpointTxn, jobs: seq<Job>) {
    forall j | 0 <= j < |jobs| && jobs[j].CleanUp? :: !CT.Stale(t, jobs[j].later, jobs[j].timeout)
  }

  /**
   Without two-phase commit all batches share the empty id: while a transaction left behind under it is open,
   no batch of any task is sent, and it stays open until a cleanup finds it stale.
   */
  lemma {:induction false} LeftoverBlocksEveryBatch(mode: Mode, w: World, t: CT.CheckpointTxn, jobs: seq<Job>)
    requires !mode.twoPhaseCommit && t in w.checkpoints.txns && t.id == "" && NeverSwept(t, jobs)
    ensures var after := Run(mode, w, jobs);
            t in after.checkpoints.txns && after.inbox == w.inbox && after.resume == w.resume && after.window == w.window
  {
    if jobs != [] {
      var n := |jobs| - 1;
      assert forall j | 0 <= j < n :: jobs[..n][j] == jobs[j];
      LeftoverBlocksEveryBatch(mode, w, t, jobs[..n]);
      var before := Run(mode, w, jobs[..n]);
      if jobs[n].Batch? {
        var i :| 0 <= i < |before.checkpoints.txns| && before.checkpoints.txns[i] == t;
        assert CT.Open(before.checkpoints.txns, "");
      } else {
        CS.FreshMembers(before.checkpoints.txns, jobs[n].later, jobs[n].timeout, t);
      }
    }
  }

  /** A batch of duplicates is enough: the next one fails, whatever it holds. */
  lemma DuplicatesBlockTheNextBatch(mode: Mode, w: World, batch: seq<Event>, taskId: string, env: Environment,
                                    next: seq<Event>, nextTask: string, nextEnv: Environment)
    requires !mode.twoPhaseCommit && batch != [] && Starts(mode, w, batch, env) && SurvivorsOf(mode, w.window, batch) == []
    requires next != [] && LastPosition(next).Some?
    ensures var after := AfterBatch(mode, w, batch, taskId, env);
            !Succeeds(mode, after, next, nextEnv) && AfterBatch(mode, after, next, nextTask, nextEnv) == after
  {
    OpenAfterExactlyWhen(mode, w, batch, taskId, env);
  }

  // ----- trying a batch again

  /** The keys a job offers to the window. */
  function OfferedBy(mode: Mode, w: World, job: Job): seq<DeduplicationKey> {
    if job.Batch? && job.events != [] && Starts(mode, w, job.events, job.env) then Keys(job.events) else []
  }

  function OfferedIn(mode: Mode, w: World, jobs: seq<Job>): seq<DeduplicationKey> {
    if jobs == [] then []
    else OfferedIn(mode, w, jobs[..|jobs| - 1]) + OfferedBy(mode, Run(mode, w, jobs[..|jobs| - 1]), jobs[|jobs| - 1])
  }

  /** A run does to the window what offering those keys one by one does, and the window stays exact. */
  lemma {:induction false} RunOffers(mode: Mode, w: World, jobs: seq<Job>)
    requires mode.enabled
    ensures Run(mode, w, jobs).window == OfferAll(w.window, OfferedIn(mode, w, jobs))
    ensures WellKept(w.window) ==> WellKept(Run(mode, w, jobs).window) && Run(mode, w, jobs).window.size == w.window.size
  {
    if jobs != [] {
      var before, job := Run(mode, w, jobs[..|jobs| - 1]), jobs[|jobs| - 1];
      RunOffers(mode, w, jobs[..|jobs| - 1]);
      OfferConcat(w.window, OfferedIn(mode, w, jobs[..|jobs| - 1]), OfferedBy(mode, before, job));
      if WellKept(w.window) {
        OfferAllKeepsLast(before.window, OfferedBy(mode, before, job));
      }
    }
  }

  lemma SurvivorsStep(w: Window, events: seq<Event>, front: seq<Event>, e: Event)
    requires events == front + [e]
    ensures Survivors(w, events) == Survivors(w, front) + (if KeyOf(e) in OfferAll(w, Keys(front)).counts then [] else [e])
  {
    assert events[..|front|] == front;
  }

  lemma KnownStep(w: Window, events: seq<Event>, front: seq<Event>, e: Event)
    requires events == front + [e]
    ensures (forall i | 0 <= i < |events| :: KeyOf(events[i]) in w.counts)
       <==> KeyOf(e) in w.counts && forall i | 0 <= i < |front| :: KeyOf(front[i]) in w.counts
  {
    assert events[|front|] == e;
    assert forall i | 0 <= i < |front| :: front[i] == events[i];
  }

  /** No event survives exactly when every key is already in the window. */
  lemma {:induction false} NoSurvivors(w: Window, events: seq<Event>)
    ensures Survivors(w, events) == [] <==> forall i | 0 <= i < |events| :: KeyOf(events[i]) in w.counts
    ensures Survivors(w, events) == [] ==> OfferAll(w, Keys(events)) == w
  {
    if events != [] {
      var front, e := events[..|events| - 1], events[|events| - 1];
      NoSurvivors(w, front);
      SurvivorsStep(w, events, front, e);
      OfferStep(w, Keys(events), Keys(front), KeyOf(e));
      KnownStep(w, events, front, e);
    }
  }

  lemma KeysConcat(a: seq<Event>, b: seq<Event>)
    ensures Keys(a + b) == Keys(a) + Keys(b)
  {
  }

  lemma DifferentKeys(events: seq<Event>, i: nat, j: nat)
    requires Distinct(Keys(events)) && i < j < |events|
    ensures KeyOf(events[i]) != KeyOf(events[j])
  {
    assert Keys(events)[i] != Keys(events)[j];
  }

  lemma {:induction false} SurvivorsFromEvents(w: Window, events: seq<Event>)
    ensures forall e <- Survivors(w, events) :: e in events
  {
    if events != [] {
      SurvivorsFromEvents(w, events[..|events| - 1]);
    }
  }

  lemma {:induction false} SurvivorsAreAccepted(w: Window, events: seq<Event>)
    ensures Keys(Survivors(w, events)) == Accepted(w, Keys(events))
  {
    if events != [] {
      var front, e := events[..|events| - 1], events[|events| - 1];
      SurvivorsAreAccepted(w, front);
      SurvivorsStep(w, events, front, e);
      OfferStep(w, Keys(events), Keys(front), KeyOf(e));
      var known := KeyOf(e) in OfferAll(w, Keys(front)).counts;
      KeysConcat(Survivors(w, front), if known then [] else [e]);
      assert Keys(if known then [] else [e]) == if known then [] else [KeyOf(e)];
    }
  }

  lemma {:induction false} SurvivorsConcat(w: Window, a: seq<Event>, b: seq<Event>)
    ensures Survivors(w, a + b) == Survivors(w, a) + Survivors(OfferAll(w, Keys(a)), b)
  {
    if b == [] {
      assert a + b == a;
    } else {
      var front, e := b[..|b| - 1], b[|b| - 1];
      SurvivorsConcat(w, a, front);
      KeysConcat(a, front);
      OfferConcat(w, Keys(a), Keys(front));
      SplitLast(a, b);
      SurvivorsStep(w, a + b, a + front, e);
      SurvivorsStep(OfferAll(w, Keys(a)), b, front, e);
      var last := if KeyOf(e) in OfferAll(w, Keys(a + front)).counts then [] else [e];
      AppendAfter(Survivors(w, a), Survivors(OfferAll(w, Keys(a)), front), last);
    }
  }

  /** Among different keys an event survives exactly when its key is new at its turn. */
  lemma {:induction false} SurvivesExactlyWhen(w: Window, events: seq<Event>, i: nat)
    requires Distinct(Keys(events)) && i < |events|
    ensures events[i] in Survivors(w, events) <==> NewAt(w, Keys(events), i)
  {
    var n := |events| - 1;
    assert Keys(events)[..n] == Keys(events[..n]);
    SurvivorsFromEvents(w, events[..n]);
    if i < n {
      SurvivesExactlyWhen(w, events[..n], i);
      assert Keys(events[..n])[..i] == Keys(events)[..i];
      DifferentKeys(events, i, n);
    } else {
      forall j | 0 <= j < n
        ensures events[..n][j] != events[n]
      {
        DifferentKeys(events, j, n);
      }
    }
  }

  lemma {:induction false} AllNewSurvive(w: Window, events: seq<Event>)
    requires forall i | 0 <= i < |events| :: NewAt(w, Keys(events), i)
    ensures Survivors(w, events) == events
  {
    if events != [] {
      var n := |events| - 1;
      assert Keys(events)[..n] == Keys(events[..n]);
      forall i | 0 <= i < n
        ensures NewAt(w, Keys(events[..n]), i)
      {
        assert NewAt(w, Keys(events), i) && Keys(events[..n])[..i] == Keys(events)[..i];
      }
      AllNewSurvive(w, events[..n]);
      assert NewAt(w, Keys(events), n);
      SurvivorsStep(w, events, events[..n], events[n]);
    }
  }

  lemma KnownExactlyWhen(w: Window, k: DeduplicationKey)
    requires Tracks(w)
    ensures k in w.counts <==> k in w.queue
  {
    assert k in w.queue <==> k in Elements(w.queue);
  }

  /**
   A batch offered again after a first try and other batches: nothing survives exactly when the window still
   holds all its keys.
   */
  lemma RetrySendsNothingExactlyWhen(w: Window, batch: seq<Event>, between: seq<DeduplicationKey>)
    requires WellKept(w)
    ensures var later := Later(w, Keys(batch), between);
            Survivors(later, batch) == [] <==> forall i | 0 <= i < |batch| :: KeyOf(batch[i]) in later.queue
  {
    var later := Later(w, Keys(batch), between);
    OfferAllKeepsLast(w, Keys(batch));
    OfferAllKeepsLast(OfferAll(w, Keys(batch)), between);
    NoSurvivors(later, batch);
    forall k
      ensures k in later.counts <==> k in later.queue
    {
      KnownExactlyWhen(later, k);
    }
  }

  lemma LastKeepsTail(a: seq<DeduplicationKey>, b: seq<DeduplicationKey>, cap: nat, j: nat)
    requires |b| <= cap && j < |b|
    ensures b[j] in Last(a + b, cap)
  {
    var last := Last(a + b, cap);
    assert last[|last| - |b| + j] == b[j];
  }

  /** No key of the batch is in the window yet. */
  predicate Unseen(w: Window, batch: seq<Event>) {
    forall k <- Keys(batch) :: k !in w.counts
  }

  /** How many events the other keys offered in between let through. */
  function TakenBetween(w: Window, batch: seq<Event>, between: seq<DeduplicationKey>): nat {
    |Accepted(OfferAll(w, Keys(batch)), between)|
  }

  /** A batch of unseen keys that the window can hold with what other batches let through in between is never sent a second time. */
  lemma RetryOfUnseenBatchSendsNothing(w: Window, batch: seq<Event>, between: seq<DeduplicationKey>)
    requires WellKept(w) && Unseen(w, batch) && |Survivors(w, batch)| + TakenBetween(w, batch, between) <= Capacity(w.size)
    ensures Survivors(Later(w, Keys(batch), between), batch) == []
  {
    var first, middle := Accepted(w, Keys(batch)), Accepted(OfferAll(w, Keys(batch)), between);
    SurvivorsAreAccepted(w, batch);
    LaterKeepsLast(w, Keys(batch), between, []);
    RetrySendsNothingExactlyWhen(w, batch, between);
    assert first + (middle + []) == first + middle;
    forall i | 0 <= i < |batch|
      ensures KeyOf(batch[i]) in Later(w, Keys(batch), between).queue
    {
      assert Keys(batch)[i] in Keys(batch);
      OfferedKeysAccountedFor(w, Keys(batch), i);
      var j :| 0 <= j < |first| && first[j] == KeyOf(batch[i]);
      LastKeepsTail(w.queue, first + middle, Capacity(w.size), j);
    }
  }

  /**
   Of different unseen keys the second try lets all events through if they, with what other batches sent in
   between, are more than the window holds, and else none.
   */
  lemma RetryOfUnseenBatch(w: Window, batch: seq<Event>, between: seq<DeduplicationKey>)
    requires WellKept(w) && Unseen(w, batch) && Distinct(Keys(batch)) && Apart(Keys(batch), between)
    ensures Survivors(w, batch) == batch
    ensures Survivors(Later(w, Keys(batch), between), batch) ==
            if |batch| + TakenBetween(w, batch, between) > Capacity(w.size) then batch else []
  {
    var keys, later := Keys(batch), Later(w, Keys(batch), between);
    UnseenAreAccepted(w, keys);
    AllNewSurvive(w, batch);
    if |batch| + TakenBetween(w, batch, between) <= Capacity(w.size) {
      RetryOfUnseenBatchSendsNothing(w, batch, between);
    } else if batch != [] {
      assert keys[0] in keys;
      AllNewAgainExactlyWhen(w, keys, between);
      forall i | 0 <= i < |keys|
        ensures NewAt(later, keys, i)
      {
        assert NewAt(w, keys, i);
      }
      AllNewSurvive(later, batch);
    }
  }

  /** The duplicates at the front of a batch. */
  function LeadingDuplicates(w: Window, batch: seq<Event>): seq<Event> {
    batch[..Leading(w, Keys(batch))]
  }

  /**
   For any batch of different keys, seen before or not: the second try lets every event through that the first
   one did exactly when those events, what other batches let through in between, and the duplicates at its front
   that the second try lets through are together more than the window holds.
   */
  lemma OwedSurviveExactlyWhen(w: Window, batch: seq<Event>, between: seq<DeduplicationKey>)
    requires WellKept(w) && Distinct(Keys(batch)) && Apart(Keys(batch), between) && Survivors(w, batch) != []
    ensures var later := Later(w, Keys(batch), between);
            (forall e <- Survivors(w, batch) :: e in Survivors(later, batch)) <==>
            |Survivors(w, batch)| + TakenBetween(w, batch, between) + |Survivors(later, LeadingDuplicates(w, batch))| > Capacity(w.size)
  {
    var keys, later := Keys(batch), Later(w, Keys(batch), between);
    var front := LeadingDuplicates(w, batch);
    SurvivorsAreAccepted(w, batch);
    SurvivorsAreAccepted(later, front);
    assert Keys(front) == keys[..Leading(w, keys)];
    AllNewAgainExactlyWhen(w, keys, between);
    forall i | 0 <= i < |keys|
      ensures NewAt(w, keys, i) <==> batch[i] in Survivors(w, batch)
      ensures NewAt(later, keys, i) <==> batch[i] in Survivors(later, batch)
    {
      SurvivesExactlyWhen(w, batch, i);
      SurvivesExactlyWhen(later, batch, i);
    }
    SurvivorsFromEvents(w, batch);
  }

  /** A first try that lets events through and marks them as seen, but does not get them all written. */
  predicate Owes(mode: Mode, w: World, batch: seq<Event>, env: Environment)
    requires batch != []
  {
    Starts(mode, w, batch, env) && SurvivorsOf(mode, w.window, batch) != [] && !(env.saveOk && FullyDelivered(env))
  }

  /** The event is handed over between the two states of the inbox. */
  predicate HandedOver(e: Event, before: seq<Delivery>, after: seq<Delivery>) {
    exists d | |before| <= d < |after| :: e in after[d].events
  }

  /** The events a batch hands over. */
  lemma HandedOverExactlyWhen(mode: Mode, w: World, batch: seq<Event>, taskId: string, env: Environment, e: Event)
    requires batch != []
    ensures HandedOver(e, w.inbox, AfterBatch(mode, w, batch, taskId, env).inbox) <==>
            Stores(mode, w, batch, env) && env.reply != SendFailed && e in SurvivorsOf(mode, w.window, batch)
  {
    var after := AfterBatch(mode, w, batch, taskId, env).inbox;
    if Stores(mode, w, batch, env) && env.reply != SendFailed {
      assert after[|w.inbox|].events == SurvivorsOf(mode, w.window, batch);
    } else {
      assert after == w.inbox;
    }
  }

  lemma NotAmongMore(batch: seq<Event>, more: seq<Event>, e: Event)
    requires Distinct(Keys(batch + more)) && e in batch
    ensures e !in more
  {
    var i :| 0 <= i < |batch| && batch[i] == e;
    forall j | 0 <= j < |more|
      ensures more[j] != e
    {
      DifferentKeys(batch + more, i, |batch| + j);
    }
  }

  /** An event of the batch survives a second try exactly when it does with more events behind it. */
  lemma SurvivesWithMore(w: Window, batch: seq<Event>, more: seq<Event>, e: Event)
    requires Distinct(Keys(batch + more)) && e in batch
    ensures e in Survivors(w, batch + more) <==> e in Survivors(w, batch)
  {
    SurvivorsConcat(w, batch, more);
    SurvivorsFromEvents(OfferAll(w, Keys(batch)), more);
    NotAmongMore(batch, more, e);
    assert e !in Survivors(OfferAll(w, Keys(batch)), more);
  }

  /**
   A failed batch is kept, the events that arrived since are appended, and the whole is tried again, perhaps
   after batches of other tasks and cleanups. Every event the first try owed is handed over by the second
   exactly when that gets as far as sending, and the owed events, what other batches let through in between and
   the duplicates at the front that are let through again are together more than the window holds.
   */
  lemma RetrySendsOwedExactlyWhen(mode: Mode, w: World, batch: seq<Event>, more: seq<Event>, between: seq<Job>, taskId: string,
                                  first: Environment, second: Environment)
    requires mode.enabled && batch != [] && WellKept(w.window) && Distinct(Keys(batch + more))
    requires Owes(mode, w, batch, first)
    requires Apart(Keys(batch), OfferedIn(mode, AfterBatch(mode, w, batch, taskId, first), between))
    ensures var once := AfterBatch(mode, w, batch, taskId, first);
            var later := Run(mode, once, between);
            var twice := AfterBatch(mode, later, batch + more, taskId, second);
            var owed := Survivors(w.window, batch);
            var taken := TakenBetween(w.window, batch, OfferedIn(mode, once, between));
            var again := Survivors(later.window, LeadingDuplicates(w.window, batch));
            && !Succeeds(mode, w, batch, first)
            && ((forall e <- owed :: HandedOver(e, later.inbox, twice.inbox)) <==>
                  && Starts(mode, later, batch + more, second) && second.saveOk && second.reply != SendFailed
                  && |owed| + taken + |again| > Capacity(w.window.size))
  {
    var once := AfterBatch(mode, w, batch, taskId, first);
    var later := Run(mode, once, between);
    var twice := AfterBatch(mode, later, batch + more, taskId, second);
    var owed := Survivors(w.window, batch);
    RunOffers(mode, once, between);
    assert owed[0] in owed;
    assert Distinct(Keys(batch)) by {
      assert Keys(batch + more)[..|batch|] == Keys(batch);
    }
    OwedSurviveExactlyWhen(w.window, batch, OfferedIn(mode, once, between));
    SurvivorsFromEvents(w.window, batch);
    forall e <- owed
      ensures HandedOver(e, later.inbox, twice.inbox) <==>
              && Starts(mode, later, batch + more, second) && second.saveOk && second.reply != SendFailed
              && e in Survivors(later.window, batch)
    {
      HandedOverExactlyWhen(mode, later, batch + more, taskId, second, e);
      SurvivesWithMore(later.window, batch, more, e);
    }
  }

  /** What the second try of a batch of unseen keys lets through, of it and of the events appended. */
  lemma SurvivorsOfRetry(w: Window, batch: seq<Event>, more: seq<Event>, between: seq<DeduplicationKey>)
    requires WellKept(w) && Unseen(w, batch)
    requires |Survivors(w, batch)| + TakenBetween(w, batch, between) > Capacity(w.size) ==>
               Distinct(Keys(batch)) && Apart(Keys(batch), between)
    ensures var later := Later(w, Keys(batch), between);
            Survivors(later, batch + more) ==
            if |Survivors(w, batch)| + TakenBetween(w, batch, between) <= Capacity(w.size) then Survivors(later, more)
            else batch + Survivors(OfferAll(later, Keys(batch)), more)
  {
    var later := Later(w, Keys(batch), between);
    SurvivorsConcat(later, batch, more);
    if |Survivors(w, batch)| + TakenBetween(w, batch, between) <= Capacity(w.size) {
      RetryOfUnseenBatchSendsNothing(w, batch, between);
      NoSurvivors(later, batch);
      assert [] + Survivors(later, more) == Survivors(later, more);
    } else {
      RetryOfUnseenBatch(w, batch, between);
    }
  }

  /** What the destination receives of a batch that gets as far as sending, and how that ends when all is written. */
  lemma WhatIsSent(mode: Mode, w: World, batch: seq<Event>, taskId: string, env: Environment)
    requires batch != [] && Starts(mode, w, batch, env) && env.saveOk && env.reply != SendFailed
    ensures var after := AfterBatch(mode, w, batch, taskId, env);
            var sent := SurvivorsOf(mode, w.window, batch);
            && after.inbox == w.inbox + (if sent == [] then [] else [Delivery(sent, Some(Stored(mode, batch, taskId, env, false)))])
            && (sent == [] ==> Succeeds(mode, w, batch, env))
            && (sent != [] && FullyDelivered(env) && CommitStored(env) ==>
                  && (Succeeds(mode, w, batch, env) <==> !mode.twoPhaseCommit)
                  && CT.LatestCommitted(after.checkpoints.store, taskId) == Some(Stored(mode, batch, taskId, env, true)))
  {
    assert w.inbox + [] == w.inbox;
  }

  /**
   A batch of different unseen keys whose first try failed in any way: a second try that gets as far as sending
   hands over all of it again if it and what other batches let through in between are more than the window
   holds, and otherwise none of it, only what is new among the events appended; with these written it commits
   their later position and, without two-phase commit, succeeds and clears the batch.
   */
  lemma RetryWithMoreEvents(mode: Mode, w: World, batch: seq<Event>, more: seq<Event>, between: seq<Job>, taskId: string,
                            first: Environment, second: Environment)
    requires mode.enabled && batch != [] && WellKept(w.window) && Unseen(w.window, batch) && Owes(mode, w, batch, first)
    requires var once := AfterBatch(mode, w, batch, taskId, first);
             && Starts(mode, Run(mode, once, between), batch + more, second) && second.saveOk && second.reply != SendFailed
             && (|Survivors(w.window, batch)| + TakenBetween(w.window, batch, OfferedIn(mode, once, between)) > Capacity(w.window.size) ==>
                   Distinct(Keys(batch)) && Apart(Keys(batch), OfferedIn(mode, once, between)))
    ensures var once := AfterBatch(mode, w, batch, taskId, first);
            var later := Run(mode, once, between);
            var twice := AfterBatch(mode, later, batch + more, taskId, second);
            var taken := TakenBetween(w.window, batch, OfferedIn(mode, once, between));
            var sent := if |Survivors(w.window, batch)| + taken <= Capacity(w.window.size) then Survivors(later.window, more)
                        else batch + Survivors(OfferAll(later.window, Keys(batch)), more);
            && twice.inbox == later.inbox +
                 (if sent == [] then [] else [Delivery(sent, Some(Stored(mode, batch + more, taskId, second, false)))])
            && (sent == [] ==> Succeeds(mode, later, batch + more, second))
            && (sent != [] && FullyDelivered(second) && CommitStored(second) ==>
                  && (Succeeds(mode, later, batch + more, second) <==> !mode.twoPhaseCommit)
                  && CT.LatestCommitted(twice.checkpoints.store, taskId) == Some(Stored(mode, batch + more, taskId, second, true)))
  {
    var once := AfterBatch(mode, w, batch, taskId, first);
    RunOffers(mode, once, between);
    SurvivorsOfRetry(w.window, batch, more, OfferedIn(mode, once, between));
    WhatIsSent(mode, Run(mode, once, between), batch + more, taskId, second);
  }

  /**
   Any failed batch of any keys, tried again with more events: the second try hands something over exactly when
   the window no longer holds all keys and nothing fails; while it holds them, the try succeeds with nothing sent.
   */
  lemma RetryAfterFailure(mode: Mode, w: World, batch: seq<Event>, more: seq<Event>, between: seq<Job>, taskId: string,
                          first: Environment, second: Environment)
    requires mode.enabled && batch != [] && Owes(mode, w, batch, first)
    requires Starts(mode, Run(mode, AfterBatch(mode, w, batch, taskId, first), between), batch + more, second)
    ensures var later := Run(mode, AfterBatch(mode, w, batch, taskId, first), between);
            var twice := AfterBatch(mode, later, batch + more, taskId, second);
            var held := forall i | 0 <= i < |batch + more| :: KeyOf((batch + more)[i]) in later.window.counts;
            && !Succeeds(mode, w, batch, first)
            && (twice.inbox != later.inbox <==> !held && second.saveOk && second.reply != SendFailed)
            && (held ==> Succeeds(mode, later, batch + more, second))
  {
    NoSurvivors(Run(mode, AfterBatch(mode, w, batch, taskId, first), between).window, batch + more);
  }

  /** Nothing under way, nothing stored, nothing received. */
  function Fresh(window: Window): World {
    World(window, CT.State([], map[]), TP.Records(map[], multiset{}), [], map[])
  }

  function Calm(now: int, reply: Reply): Environment {
    Environment("", now, true, true, true, true, reply)
  }

  lemma OneMore(w: Window, front: seq<Event>, e: Event, events: seq<Event>)
    requires events == front + [e]
    ensures Survivors(w, events) == Survivors(w, front) + (if KeyOf(e) in OfferAll(w, Keys(front)).counts then [] else [e])
    ensures OfferAll(w, Keys(events)) == Offer(OfferAll(w, Keys(front)), KeyOf(e))
  {
    SurvivorsStep(w, events, front, e);
    OfferStep(w, Keys(events), Keys(front), KeyOf(e));
  }

  /** A first batch of one event whose hand-over fails: the second try is told everything went well, and nothing was ever sent. */
  lemma OneEventIsLost(e: Event, taskId: string)
    requires PositionOf(e).Some?
    ensures var mode := Mode(true, false, true);
            var once := AfterBatch(mode, Fresh(Empty(1)), [e], taskId, Calm(0, SendFailed));
            Succeeds(mode, once, [e], Calm(1, Answered(0))) && AfterBatch(mode, once, [e], taskId, Calm(1, Answered(0))).inbox == []
  {
    var mode := Mode(true, false, true);
    OneMore(Empty(1), [], e, [e]);
    RetryOfUnseenBatchSendsNothing(Empty(1), [e], []);
    assert LastPosition([e]) == PositionOf(e);
    var once := AfterBatch(mode, Fresh(Empty(1)), [e], taskId, Calm(0, SendFailed));
    assert once.window == OfferAll(Empty(1), Keys([e])) && once.inbox == [] && once.checkpoints.txns == [];
    WhatIsSent(mode, once, [e], taskId, Calm(1, Answered(0)));
  }

  /** A full window of three and a key it does not hold. */
  lemma OfferToThree(w: Window, p: DeduplicationKey, q: DeduplicationKey, r: DeduplicationKey, k: DeduplicationKey)
    requires Tracks(w) && w.size == 3 && w.queue == [p, q, r] && k !in w.queue
    ensures k !in w.counts
    ensures var after := Offer(w, k); Tracks(after) && after.size == 3 && after.queue == [q, r, k]
  {
    KnownExactlyWhen(w, k);
    AddKeepsLast(w, w.queue, k);
    assert Last(w.queue + [k], 3) == [q, r, k];
  }

  /** Three events offered to any window, one by one. */
  lemma ThreeSurvivors(w: Window, a: Event, b: Event, c: Event)
    ensures var wa := Offer(w, KeyOf(a)); var wb := Offer(wa, KeyOf(b));
            && Survivors(w, [a, b, c]) == (if KeyOf(a) in w.counts then [] else [a]) +
                 (if KeyOf(b) in wa.counts then [] else [b]) + (if KeyOf(c) in wb.counts then [] else [c])
            && OfferAll(w, Keys([a, b, c])) == Offer(wb, KeyOf(c))
  {
    OneMore(w, [], a, [a]);
    OneMore(w, [a], b, [a, b]);
    OneMore(w, [a, b], c, [a, b, c]);
  }

  /** Two of the three keys of [a, b, c] are not in [x, b, y]; b goes to make room for them. */
  lemma FirstTryOfThree(w: Window, a: Event, b: Event, c: Event, x: DeduplicationKey, y: DeduplicationKey)
    requires Tracks(w) && w.size == 3 && w.queue == [x, KeyOf(b), y]
    requires KeyOf(a) !in w.queue && KeyOf(c) !in w.queue && KeyOf(a) != KeyOf(c)
    ensures Survivors(w, [a, b, c]) == [a, c]
    ensures var once := OfferAll(w, Keys([a, b, c])); Tracks(once) && once.size == 3 && once.queue == [y, KeyOf(a), KeyOf(c)]
  {
    OfferToThree(w, x, KeyOf(b), y, KeyOf(a));
    var wa := Offer(w, KeyOf(a));
    KnownExactlyWhen(wa, KeyOf(b));
    OfferToThree(wa, KeyOf(b), y, KeyOf(a), KeyOf(c));
    ThreeSurvivors(w, a, b, c);
  }

  lemma SecondTryOfThree(w: Window, a: Event, b: Event, c: Event, y: DeduplicationKey)
    requires Tracks(w) && w.size == 3 && w.queue == [y, KeyOf(a), KeyOf(c)] && KeyOf(b) !in w.queue
    ensures Survivors(w, [a, b, c]) == [b]
  {
    KnownExactlyWhen(w, KeyOf(a));
    OfferToThree(w, y, KeyOf(a), KeyOf(c), KeyOf(b));
    KnownExactlyWhen(Offer(w, KeyOf(b)), KeyOf(c));
    ThreeSurvivors(w, a, b, c);
  }

  /**
   Part of a batch can be lost while the retry sends another part: the window holds [x, b, y], the batch is
   [a, b, c], and its hand-over fails with a and c owed. The second try sends exactly b, the duplicate, succeeds
   and clears the batch; a and c are never sent.
   */
  lemma PartOfABatchIsLost(w: Window, a: Event, b: Event, c: Event, x: DeduplicationKey, y: DeduplicationKey, taskId: string)
    requires Tracks(w) && w.size == 3 && w.queue == [x, KeyOf(b), y] && PositionOf(c).Some?
    requires KeyOf(a) !in w.queue && KeyOf(c) !in w.queue && KeyOf(a) != KeyOf(c)
    ensures var mode := Mode(true, false, true);
            var once := AfterBatch(mode, Fresh(w), [a, b, c], taskId, Calm(0, SendFailed));
            var twice := AfterBatch(mode, once, [a, b, c], taskId, Calm(1, Answered(0)));
            && Owes(mode, Fresh(w), [a, b, c], Calm(0, SendFailed)) && Survivors(w, [a, b, c]) == [a, c] && once.inbox == []
            && Succeeds(mode, once, [a, b, c], Calm(1, Answered(0)))
            && |twice.inbox| == 1 && twice.inbox[0].events == [b]
  {
    var mode, batch := Mode(true, false, true), [a, b, c];
    FirstTryOfThree(w, a, b, c, x, y);
    assert w.queue[1] == KeyOf(b) && w.queue[1] != w.queue[2];
    SecondTryOfThree(OfferAll(w, Keys(batch)), a, b, c, y);
    assert LastPosition(batch) == PositionOf(c);
    var once := AfterBatch(mode, Fresh(w), batch, taskId, Calm(0, SendFailed));
    assert once.window == OfferAll(w, Keys(batch)) && once.inbox == [] && once.checkpoints.txns == [];
    WhatIsSent(mode, once, batch, taskId, Calm(1, Answered(0)));
  }

  /** The same on the running code: none of a failed batch of unseen keys is handed over when it is tried again with more. */
  method FailThenRetry(step: BatchStep, batch: seq<Event>, more: seq<Event>, taskId: string, first: Environment, second: Environment)
    returns (left: seq<Event>, r: Result<(), BatchError>)
    requires step.Valid() && step.enabled && !step.twoPhaseCommit && batch != [] && WellKept(step.Now().window)
    requires |Survivors(step.Now().window, batch)| <= Capacity(step.Now().window.size) && Unseen(step.Now().window, batch)
    requires Owes(step.CurrentMode(), step.Now(), batch, first)
    requires Starts(step.CurrentMode(), AfterBatch(step.CurrentMode(), step.Now(), batch, taskId, first), batch + more, second)
    requires second.saveOk && FullyDelivered(second) && CommitStored(second)
    modifies step, step.deduplicator, step.coordinator.records, step.checkpoints, step.checkpoints.storage
    ensures left == [] && r.Ok?
    ensures var once := AfterBatch(old(step.CurrentMode()), old(step.Now()), batch, taskId, first);
            var sent := Survivors(once.window, more);
            |step.inbox| == |once.inbox| + (if sent == [] then 0 else 1) && step.inbox[..|once.inbox|] == once.inbox
            && (sent != [] ==> step.inbox[|once.inbox|].events == sent)
  {
    RetryWithMoreEvents(step.CurrentMode(), step.Now(), batch, more, [], taskId, first, second);
    left, r := step.ProcessBatch(batch, taskId, first);
    left, r := step.ProcessBatch(left + more, taskId, second);
  }
}
