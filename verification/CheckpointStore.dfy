/**
 The checkpoint store (src/checkpoint/storage.rs): one checkpoint per task. The
 in-memory store never fails; a remote one may, so every call takes whether the
 environment lets it succeed. A failed call changes nothing.
 */
module CheckpointStore {
  import opened Wrappers
  import opened Events

  datatype Metadata = Metadata(transactionId: string, committed: bool)

  datatype Checkpoint = Checkpoint(taskId: string, position: Position, createdAt: int, metadata: Option<Metadata>)

  datatype StoreError = StoreUnavailable

  type Entries = map<string, Checkpoint>

  /** Checkpoints are filed under their own task. */
  predicate Filed(entries: Entries) {
    forall t <- entries :: entries[t].taskId == t
  }

  /** Checkpoints of `entries`, each task at most once. */
  ghost predicate PartOf(list: seq<Checkpoint>, entries: Entries) {
    && (forall i | 0 <= i < |list| :: list[i].taskId in entries && entries[list[i].taskId] == list[i])
    && (forall i, j | 0 <= i < j < |list| :: list[i].taskId != list[j].taskId)
  }

  /** `list` has every checkpoint of `entries` once, in some order. */
  ghost predicate Lists(list: seq<Checkpoint>, entries: Entries) {
    PartOf(list, entries) && TaskIds(list) == entries.Keys
  }

  function TaskIds(list: seq<Checkpoint>): set<string> {
    set i | 0 <= i < |list| :: list[i].taskId
  }

  class Store {
    var entries: Entries

    constructor ()
      ensures entries == map[]
    {
      entries := map[];
    }

    method Save(checkpoint: Checkpoint, ok: bool) returns (r: Result<(), StoreError>)
      modifies this
      ensures r.Ok? <==> ok
      ensures entries == if ok then old(entries)[checkpoint.taskId := checkpoint] else old(entries)
    {
      if !ok {
        return Err(StoreUnavailable);
      }
      entries := entries[checkpoint.taskId := checkpoint];
      r := Ok(());
    }

    method Load(taskId: string, ok: bool) returns (r: Result<Option<Checkpoint>, StoreError>)
      ensures r.Ok? <==> ok
      ensures ok ==> r.value == if taskId in entries then Some(entries[taskId]) else None
    {
      if !ok {
        return Err(StoreUnavailable);
      }
      r := Ok(if taskId in entries then Some(entries[taskId]) else None);
    }

    method Delete(taskId: string, ok: bool) returns (r: Result<(), StoreError>)
      modifies this
      ensures r.Ok? <==> ok
      ensures entries == if ok then old(entries) - {taskId} else old(entries)
    {
      if !ok {
        return Err(StoreUnavailable);
      }
      entries := entries - {taskId};
      r := Ok(());
    }

    method List(ok: bool) returns (r: Result<seq<Checkpoint>, StoreError>)
      requires Filed(entries)
      ensures r.Ok? <==> ok
      ensures ok ==> Lists(r.value, entries)
    {
      if !ok {
        return Err(StoreUnavailable);
      }
      var list := ValuesOf(entries);
      r := Ok(list);
    }
  }

  /** The values of a map in whatever order the hash map gives them. */
  method ValuesOf(entries: Entries) returns (list: seq<Checkpoint>)
    requires Filed(entries)
    ensures Lists(list, entries)
  {
    list := [];
    var left := entries.Keys;
    while left != {}
      invariant left <= entries.Keys
      invariant PartOf(list, entries) && TaskIds(list) == entries.Keys - left
    {
      var t :| t in left;
      TaskIdsStep(list, entries[t]);
      list := list + [entries[t]];
      left := left - {t};
    }
  }

  lemma TaskIdsStep(list: seq<Checkpoint>, c: Checkpoint)
    ensures TaskIds(list + [c]) == TaskIds(list) + {c.taskId}
  {
    forall t | t in TaskIds(list)
      ensures t in TaskIds(list + [c])
    {
      var i :| 0 <= i < |list| && list[i].taskId == t;
      assert (list + [c])[i] == list[i];
    }
    assert (list + [c])[|list|] == c;
  }
}
