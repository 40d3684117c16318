/**
 Checkpoint transactions (src/delivery/checkpoint.rs): a checkpoint is stored
 uncommitted before the destination is written, marked committed afterwards, and
 deleted on rollback.
 */
module TransactionalCheckpoint {
  import opened Wrappers
  import opened Events
  import opened CheckpointStore

  datatype CheckpointTxn = CheckpointTxn(
    id: string, taskId: string, position: Position, prepared: bool, committed: bool, createdAt: int)

  datatype TxnError = AlreadyExists | NotFound | NotPrepared | CheckpointMissing | StorageFailed

  datatype State = State(txns: seq<CheckpointTxn>, store: Entries)

  // ----- one step, as a function of the state

  predicate Open(txns: seq<CheckpointTxn>, id: string) {
    exists i | 0 <= i < |txns| :: txns[i].id == id
  }

  /** Position of transaction `id`, or the length when there is none. */
  function Find(txns: seq<CheckpointTxn>, id: string): (n: nat)
    ensures n <= |txns|
    ensures n < |txns| ==> txns[n].id == id
    ensures forall i | 0 <= i < n :: txns[i].id != id
  {
    if txns == [] || txns[0].id == id then 0 else 1 + Find(txns[1..], id)
  }

  function Without(txns: seq<CheckpointTxn>, n: nat): seq<CheckpointTxn>
    requires n < |txns|
  {
    txns[..n] + txns[n + 1..]
  }

  function Begin(s: State, id: string, taskId: string, position: Position, now: int): (State, Result<(), TxnError>) {
    if Open(s.txns, id) then (s, Err(AlreadyExists))
    else (s.(txns := s.txns + [CheckpointTxn(id, taskId, position, false, false, now)]), Ok(()))
  }

  /** The uncommitted checkpoint a prepare stores. */
  function Prepared(t: CheckpointTxn, now: int): Checkpoint {
    Checkpoint(t.taskId, t.position, now, Some(Metadata(t.id, false)))
  }

  function Prepare(s: State, id: string, now: int, saveOk: bool): (State, Result<bool, TxnError>) {
    var n := Find(s.txns, id);
    if n == |s.txns| then (s, Err(NotFound))
    else
      var t := s.txns[n];
      if t.prepared then (s, Ok(true))
      else if !saveOk then (s, Ok(false))
      else (State(s.txns[n := t.(prepared := true)], s.store[t.taskId := Prepared(t, now)]), Ok(true))
  }

  function Commit(s: State, id: string, loadOk: bool, saveOk: bool): (State, Result<(), TxnError>) {
    var n := Find(s.txns, id);
    if n == |s.txns| then (s, Err(NotFound))
    else
      var t := s.txns[n];
      if !t.prepared then (s, Err(NotPrepared))
      else if t.committed then (s, Ok(()))
      else if !loadOk then (s, Err(StorageFailed))
      else if t.taskId !in s.store then (s, Err(CheckpointMissing))
      else if !saveOk then (s, Err(StorageFailed))
      else
        var c := s.store[t.taskId];
        (State(Without(s.txns, n), s.store[c.taskId := c.(metadata := Some(Metadata(id, true)))]), Ok(()))
  }

  function Rollback(s: State, id: string, deleteOk: bool): (State, Result<(), TxnError>) {
    var n := Find(s.txns, id);
    if n == |s.txns| then (s, Err(NotFound))
    else
      var t := s.txns[n];
      (State(Without(s.txns, n), if t.prepared && !t.committed && deleteOk then s.store - {t.taskId} else s.store), Ok(()))
  }

  predicate Stale(t: CheckpointTxn, now: int, timeout: int) {
    now - t.createdAt > timeout
  }

  function Fresh(txns: seq<CheckpointTxn>, now: int, timeout: int): seq<CheckpointTxn> {
    if txns == [] then []
    else
      var n := |txns| - 1;
      var before := Fresh(txns[..n], now, timeout);
      if Stale(txns[n], now, timeout) then before else before + [txns[n]]
  }

  /** Tasks whose checkpoint the cleanup deletes; deletes of tasks in `fails` do not get through. */
  function CleanedTasks(txns: seq<CheckpointTxn>, now: int, timeout: int, fails: set<string>): set<string> {
    set i | 0 <= i < |txns| && Stale(txns[i], now, timeout) && txns[i].prepared && !txns[i].committed
            && txns[i].taskId !in fails :: txns[i].taskId
  }

  function Cleanup(s: State, now: int, timeout: int, fails: set<string>): State {
    State(Fresh(s.txns, now, timeout), s.store - CleanedTasks(s.txns, now, timeout, fails))
  }

  /** What a task restarts from: its stored checkpoint, if committed. */
  function LatestCommitted(store: Entries, taskId: string): Option<Checkpoint> {
    if taskId in store && store[taskId].metadata.Some? && store[taskId].metadata.value.committed
    then Some(store[taskId]) else None
  }

  ghost predicate UniqueIds(txns: seq<CheckpointTxn>) {
    forall i, j | 0 <= i < j < |txns| :: txns[i].id != txns[j].id
  }

  // ----- the class

  class TransactionalCheckpoint {
    const storage: Store
    var transactions: seq<CheckpointTxn>

    ghost function Model(): State
      reads this, storage
    {
      State(transactions, storage.entries)
    }

    ghost predicate Valid()
      reads this, storage
    {
      UniqueIds(transactions) && Filed(storage.entries)
    }

    constructor (storage: Store)
      requires Filed(storage.entries)
      ensures Valid() && this.storage == storage && Model() == State([], storage.entries)
    {
      this.storage := storage;
      transactions := [];
    }

    /** Index of transaction `id`, or the length. */
    method IndexOf(id: string) returns (n: nat)
      ensures n == Find(transactions, id)
    {
      n := 0;
      while n < |transactions| && transactions[n].id != id
        invariant n <= |transactions|
        invariant Find(transactions, id) == n + Find(transactions[n..], id)
      {
        assert transactions[n..][1..] == transactions[n + 1..];
        n := n + 1;
      }
    }

    method BeginTransaction(id: string, taskId: string, position: Position, now: int) returns (r: Result<(), TxnError>)
      requires Valid()
      modifies this
      ensures Valid() && (Model(), r) == Begin(old(Model()), id, taskId, position, now)
    {
      if Open(transactions, id) {
        return Err(AlreadyExists);
      }
      transactions := transactions + [CheckpointTxn(id, taskId, position, false, false, now)];
      r := Ok(());
    }

    method PrepareTransaction(id: string, now: int, saveOk: bool) returns (r: Result<bool, TxnError>)
      requires Valid()
      modifies this, storage
      ensures Valid() && (Model(), r) == Prepare(old(Model()), id, now, saveOk)
    {
      var n := IndexOf(id);
      if n == |transactions| {
        return Err(NotFound);
      }
      var t := transactions[n];
      if t.prepared {
        return Ok(true);
      }
      var saved := storage.Save(Prepared(t, now), saveOk);
      if saved.Err? {
        return Ok(false);
      }
      transactions := transactions[n := t.(prepared := true)];
      r := Ok(true);
    }

    /** A prepare dropped by its caller's timeout after the save: stored, but not marked prepared. */
    method PrepareInterrupted(id: string, now: int)
      requires Valid()
      modifies storage
      ensures Valid() && Model() == Prepare(old(Model()), id, now, true).0.(txns := transactions)
    {
      var n := IndexOf(id);
      if n < |transactions| && !transactions[n].prepared {
        var _ := storage.Save(Prepared(transactions[n], now), true);
      }
    }

    method CommitTransaction(id: string, loadOk: bool, saveOk: bool) returns (r: Result<(), TxnError>)
      requires Valid()
      modifies this, storage
      ensures Valid() && (Model(), r) == Commit(old(Model()), id, loadOk, saveOk)
    {
      var n := IndexOf(id);
      if n == |transactions| {
        return Err(NotFound);
      }
      var t := transactions[n];
      if !t.prepared {
        return Err(NotPrepared);
      }
      if t.committed {
        return Ok(());
      }
      var loaded := storage.Load(t.taskId, loadOk);
      if loaded.Err? {
        return Err(StorageFailed);
      }
      if loaded.value.None? {
        return Err(CheckpointMissing);
      }
      var updated := loaded.value.value.(metadata := Some(Metadata(id, true)));
      var saved := storage.Save(updated, saveOk);
      if saved.Err? {
        return Err(StorageFailed);
      }
      transactions := Without(transactions, n);
      r := Ok(());
    }

    method RollbackTransaction(id: string, deleteOk: bool) returns (r: Result<(), TxnError>)
      requires Valid()
      modifies this, storage
      ensures Valid() && (Model(), r) == Rollback(old(Model()), id, deleteOk)
    {
      var n := IndexOf(id);
      if n == |transactions| {
        return Err(NotFound);
      }
      var t := transactions[n];
      if t.prepared && !t.committed {
        var _ := storage.Delete(t.taskId, deleteOk);
      }
      transactions := Without(transactions, n);
      r := Ok(());
    }

    /** One stale transaction: delete its checkpoint if it is prepared, and drop it. */
    method Sweep(id: string, fails: set<string>)
      requires Valid()
      modifies this, storage
      ensures Valid()
      ensures Model() == var n := Find(old(transactions), id);
                         if n == |old(transactions)| then old(Model())
                         else Rollback(old(Model()), id, old(transactions)[n].taskId !in fails).0
    {
      var n := IndexOf(id);
      if n < |transactions| {
        var t := transactions[n];
        if t.prepared && !t.committed {
          var _ := storage.Delete(t.taskId, t.taskId !in fails);
        }
        transactions := Without(transactions, n);
      }
    }

    method StaleIds(now: int, timeout: int) returns (staleIds: seq<string>)
      requires Valid()
      ensures forall id <- staleIds :: Open(transactions, id)
      ensures forall j | 0 <= j < |transactions| :: transactions[j].id in staleIds <==> Stale(transactions[j], now, timeout)
    {
      staleIds := [];
      for i := 0 to |transactions|
        invariant forall id <- staleIds :: exists j :: 0 <= j < i && transactions[j].id == id
        invariant forall j | 0 <= j < i :: transactions[j].id in staleIds <==> Stale(transactions[j], now, timeout)
      {
        if Stale(transactions[i], now, timeout) {
          staleIds := staleIds + [transactions[i].id];
        }
      }
    }

    /** Sweeps one more id, `gone` having been swept from the transactions `start` and the checkpoints `stored`. */
    method SweepNext(id: string, fails: set<string>, ghost start: seq<CheckpointTxn>, ghost stored: Entries, ghost gone: set<string>)
      requires Valid() && UniqueIds(start) && Open(start, id)
      requires transactions == Keep(start, gone) && storage.entries == stored - CleanedBy(start, gone, fails)
      modifies this, storage
      ensures Valid()
      ensures transactions == Keep(start, gone + {id}) && storage.entries == stored - CleanedBy(start, gone + {id}, fails)
    {
      SweepStep(start, gone, id, Model(), stored, fails);
      Sweep(id, fails);
    }

    /** Sweeps transactions one by one, by id. */
    method SweepAll(staleIds: seq<string>, fails: set<string>)
      requires Valid() && forall id <- staleIds :: Open(transactions, id)
      modifies this, storage
      ensures Valid()
      ensures transactions == Keep(old(transactions), IdSet(staleIds))
      ensures storage.entries == old(storage.entries) - CleanedBy(old(transactions), IdSet(staleIds), fails)
    {
      ghost var start, stored := transactions, storage.entries;
      KeepAll(start);
      assert IdSet(staleIds[..0]) == {};
      for k := 0 to |staleIds|
        invariant Valid()
        invariant transactions == Keep(start, IdSet(staleIds[..k]))
        invariant storage.entries == stored - CleanedBy(start, IdSet(staleIds[..k]), fails)
      {
        SweepNext(staleIds[k], fails, start, stored, IdSet(staleIds[..k]));
        IdSetStep(staleIds, k);
      }
      assert staleIds[..|staleIds|] == staleIds;
    }

    /** Collects the ids of the stale transactions, then sweeps them. */
    method CleanupStaleTransactions(now: int, timeout: int, fails: set<string>)
      requires Valid()
      modifies this, storage
      ensures Valid() && Model() == Cleanup(old(Model()), now, timeout, fails)
    {
      ghost var start := transactions;
      var staleIds := StaleIds(now, timeout);
      SweepAll(staleIds, fails);
      ghost var gone := IdSet(staleIds);
      KeepIsFresh(start, gone, now, timeout);
      assert CleanedBy(start, gone, fails) == CleanedTasks(start, now, timeout, fails);
    }
  }

  // ----- removing by id

  function IdSet(ids: seq<string>): set<string> {
    set id | id in ids
  }

  lemma IdSetStep(ids: seq<string>, k: nat)
    requires k < |ids|
    ensures IdSet(ids[..k + 1]) == IdSet(ids[..k]) + {ids[k]}
  {
  }

  /** The transactions whose id is not in `gone`. */
  function Keep(txns: seq<CheckpointTxn>, gone: set<string>): seq<CheckpointTxn> {
    if txns == [] then []
    else
      var n := |txns| - 1;
      var before := Keep(txns[..n], gone);
      if txns[n].id in gone then before else before + [txns[n]]
  }

  function CleanedBy(txns: seq<CheckpointTxn>, gone: set<string>, fails: set<string>): set<string> {
    set i | 0 <= i < |txns| && txns[i].id in gone && txns[i].prepared && !txns[i].committed
            && txns[i].taskId !in fails :: txns[i].taskId
  }

  lemma {:induction false} KeepMembers(txns: seq<CheckpointTxn>, gone: set<string>, t: CheckpointTxn)
    ensures t in Keep(txns, gone) <==> t in txns && t.id !in gone
  {
    if txns != [] {
      KeepMembers(txns[..|txns| - 1], gone, t);
      assert txns == txns[..|txns| - 1] + [txns[|txns| - 1]];
    }
  }

  lemma {:induction false} KeepUnique(txns: seq<CheckpointTxn>, gone: set<string>)
    requires UniqueIds(txns)
    ensures UniqueIds(Keep(txns, gone))
  {
    if txns != [] {
      var n := |txns| - 1;
      KeepUnique(txns[..n], gone);
      var kept := Keep(txns[..n], gone);
      forall i | 0 <= i < |kept|
        ensures kept[i].id != txns[n].id
      {
        KeepMembers(txns[..n], gone, kept[i]);
      }
    }
  }

  lemma {:induction false} KeepAll(txns: seq<CheckpointTxn>)
    ensures Keep(txns, {}) == txns
  {
    if txns != [] {
      KeepAll(txns[..|txns| - 1]);
    }
  }

  lemma {:induction false} KeepKeep(txns: seq<CheckpointTxn>, gone: set<string>, id: string)
    ensures Keep(Keep(txns, gone), {id}) == Keep(txns, gone + {id})
  {
    if txns != [] {
      var n := |txns| - 1;
      KeepKeep(txns[..n], gone, id);
      var kept := Keep(txns[..n], gone);
      if txns[n].id !in gone {
        assert (kept + [txns[n]])[..|kept|] == kept;
      }
    }
  }

  lemma {:induction false} KeepAbsent(txns: seq<CheckpointTxn>, id: string)
    requires !Open(txns, id)
    ensures Keep(txns, {id}) == txns
  {
    if txns != [] {
      KeepAbsent(txns[..|txns| - 1], id);
    }
  }

  /** With unique ids, taking out the one found is keeping all the others. */
  lemma {:induction false} KeepWithout(txns: seq<CheckpointTxn>, id: string)
    requires UniqueIds(txns) && Find(txns, id) < |txns|
    ensures Without(txns, Find(txns, id)) == Keep(txns, {id})
  {
    var n := |txns| - 1;
    var f := Find(txns, id);
    if f == n {
      KeepAbsent(txns[..n], id);
      assert Without(txns, n) == txns[..n];
    } else {
      FindPrefix(txns, id);
      KeepWithout(txns[..n], id);
      WithoutPrefix(txns, f);
    }
  }

  lemma WithoutPrefix(txns: seq<CheckpointTxn>, f: nat)
    requires f < |txns| - 1
    ensures Without(txns, f) == Without(txns[..|txns| - 1], f) + [txns[|txns| - 1]]
  {
  }

  lemma {:induction false} FindAppended(txns: seq<CheckpointTxn>, t: CheckpointTxn)
    requires !Open(txns, t.id)
    ensures Find(txns + [t], t.id) == |txns|
  {
    var f := Find(txns + [t], t.id);
    assert (txns + [t])[|txns|].id == t.id;
    assert forall i | 0 <= i < |txns| :: (txns + [t])[i] == txns[i];
  }

  /** A transaction just begun, then prepared: what is stored, and what a failed prepare leaves. */
  lemma BeginThenPrepare(s: State, id: string, taskId: string, position: Position, now: int)
    requires UniqueIds(s.txns) && !Open(s.txns, id)
    ensures var begun := Begin(s, id, taskId, position, now).0;
            var t := CheckpointTxn(id, taskId, position, true, false, now);
            && Prepare(begun, id, now, false) == (begun, Ok(false))
            && Prepare(begun, id, now, true) == (State(s.txns + [t], s.store[taskId := Prepared(t, now)]), Ok(true))
  {
    var t := CheckpointTxn(id, taskId, position, false, false, now);
    FindAppended(s.txns, t);
    assert (s.txns + [t])[|s.txns| := t.(prepared := true)] == s.txns + [t.(prepared := true)];
  }

  /** Rolling back a transaction just begun leaves no trace. */
  lemma BegunIsTakenBack(s: State, id: string, taskId: string, position: Position, now: int, deleteOk: bool)
    requires !Open(s.txns, id)
    ensures Rollback(Begin(s, id, taskId, position, now).0, id, deleteOk) == (s, Ok(()))
  {
    var t := CheckpointTxn(id, taskId, position, false, false, now);
    FindAppended(s.txns, t);
    assert Without(s.txns + [t], |s.txns|) == s.txns;
  }

  /** Undoing or committing the last transaction of the table leaves the others as they were. */
  lemma FinishLast(s: State, t: CheckpointTxn, before: Entries, now: int, deleteOk: bool, loadOk: bool, saveOk: bool)
    requires s.txns != [] && s.txns[|s.txns| - 1] == t && t.prepared && !t.committed
    requires !Open(s.txns[..|s.txns| - 1], t.id)
    requires s.store == before[t.taskId := Prepared(t, now)]
    ensures var rest := s.txns[..|s.txns| - 1];
            && Open(s.txns, t.id)
            && Rollback(s, t.id, deleteOk) == (State(rest, if deleteOk then before - {t.taskId} else s.store), Ok(()))
            && Commit(s, t.id, loadOk, saveOk)
                 == if loadOk && saveOk
                    then (State(rest, before[t.taskId := Prepared(t, now).(metadata := Some(Metadata(t.id, true)))]), Ok(()))
                    else (s, Err(StorageFailed))
  {
    var n := |s.txns| - 1;
    var rest := s.txns[..n];
    FindAppended(rest, t);
    assert s.txns == rest + [t];
    assert Without(s.txns, n) == rest;
    var stored := Prepared(t, now);
    assert before[t.taskId := stored] - {t.taskId} == before - {t.taskId};
    var committed := stored.(metadata := Some(Metadata(t.id, true)));
    assert s.store[t.taskId := committed] == before[t.taskId := committed];
  }

  /** A second rollback of the same id finds nothing. */
  lemma RolledBackIsGone(s: State, id: string, deleteOk: bool)
    requires UniqueIds(s.txns) && Open(s.txns, id)
    ensures var after := Rollback(s, id, deleteOk).0;
            UniqueIds(after.txns) && !Open(after.txns, id)
            && forall again :: Rollback(after, id, again) == (after, Err(NotFound))
  {
  }

  lemma FindPrefix(txns: seq<CheckpointTxn>, id: string)
    requires Find(txns, id) < |txns| - 1
    ensures Find(txns[..|txns| - 1], id) == Find(txns, id)
  {
    var f := Find(txns, id);
    var g := Find(txns[..|txns| - 1], id);
    assert txns[..|txns| - 1][f].id == id;
  }

  /** Either `id` is already gone, or it is found where it stands in the whole list. */
  lemma KeepFind(txns: seq<CheckpointTxn>, gone: set<string>, id: string)
    requires UniqueIds(txns) && Open(txns, id)
    ensures var kept := Keep(txns, gone);
            if id in gone then Find(kept, id) == |kept|
            else Find(kept, id) < |kept| && kept[Find(kept, id)] == txns[Find(txns, id)]
  {
    var kept := Keep(txns, gone);
    var f, g := Find(txns, id), Find(kept, id);
    KeepMembers(txns, gone, txns[f]);
    if g < |kept| {
      KeepMembers(txns, gone, kept[g]);
    }
  }

  lemma CleanedByStep(txns: seq<CheckpointTxn>, gone: set<string>, id: string, fails: set<string>)
    requires UniqueIds(txns) && Open(txns, id)
    ensures var t := txns[Find(txns, id)];
            CleanedBy(txns, gone + {id}, fails) == CleanedBy(txns, gone, fails)
              + (if t.prepared && !t.committed && t.taskId !in fails then {t.taskId} else {})
  {
  }

  /** Sweeping an id that is still there. */
  lemma SweepOpen(start: seq<CheckpointTxn>, gone: set<string>, id: string, s: State, stored: Entries, fails: set<string>)
    requires UniqueIds(start) && Open(start, id) && id !in gone
    requires s == State(Keep(start, gone), stored - CleanedBy(start, gone, fails))
    ensures var n := Find(s.txns, id);
            && n < |s.txns| && s.txns[n] == start[Find(start, id)]
            && Rollback(s, id, s.txns[n].taskId !in fails).0
               == State(Keep(start, gone + {id}), stored - CleanedBy(start, gone + {id}, fails))
  {
    var n := Find(s.txns, id);
    var after := Rollback(s, id, start[Find(start, id)].taskId !in fails).0;
    KeepFind(start, gone, id);
    assert after.txns == Keep(start, gone + {id}) by {
      KeepUnique(start, gone);
      KeepKeep(start, gone, id);
      KeepWithout(s.txns, id);
    }
    assert after.store == stored - CleanedBy(start, gone + {id}, fails) by {
      CleanedByStep(start, gone, id, fails);
    }
  }

  /** Sweeping one more id. */
  lemma SweepStep(start: seq<CheckpointTxn>, gone: set<string>, id: string, s: State, stored: Entries, fails: set<string>)
    requires UniqueIds(start) && Open(start, id) && s == State(Keep(start, gone), stored - CleanedBy(start, gone, fails))
    ensures var n := Find(s.txns, id);
            var after := if n == |s.txns| then s else Rollback(s, id, s.txns[n].taskId !in fails).0;
            after == State(Keep(start, gone + {id}), stored - CleanedBy(start, gone + {id}, fails))
  {
    KeepFind(start, gone, id);
    if id in gone {
      assert gone + {id} == gone;
    } else {
      SweepOpen(start, gone, id, s, stored, fails);
    }
  }

  lemma {:induction false} KeepIsFresh(txns: seq<CheckpointTxn>, gone: set<string>, now: int, timeout: int)
    requires forall t <- txns :: t.id in gone <==> Stale(t, now, timeout)
    ensures Keep(txns, gone) == Fresh(txns, now, timeout)
  {
    if txns != [] {
      KeepIsFresh(txns[..|txns| - 1], gone, now, timeout);
    }
  }
}
