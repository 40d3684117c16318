/**
 The write-behind checkpoint manager (src/checkpoint/manager.rs): saves gather in
 a pending map and are flushed to the store in batches; a flush may fail for any
 of them. Seen from outside it is one map from task to checkpoint.
 */
module CheckpointManager {
  import opened Wrappers
  import Events
  import opened CheckpointStore

  datatype State = State(pending: Entries, store: Entries)

  /** The one map the manager stands for: pending checkpoints laid over stored ones. */
  function View(s: State): Entries {
    s.store + s.pending
  }

  /** Which storage calls fail while a command runs. */
  datatype Outages = Outages(saveFails: set<string>, deleteFails: bool)

  // ----- one command, as a function of both maps

  datatype Command = Save(taskId: string, position: Events.Position, now: int) | Delete(taskId: string) | Flush

  function New(taskId: string, position: Events.Position, now: int): Checkpoint {
    Checkpoint(taskId, position, now, None)
  }

  /** Everything pending is saved; what failed stays pending. */
  function FlushPending(s: State, saveFails: set<string>): State {
    State(Restrict(s.pending, saveFails), s.store + Restrict(s.pending, s.pending.Keys - saveFails))
  }

  function Next(s: State, batchSize: nat, out: Outages, c: Command): State {
    match c
    case Save(taskId, position, now) =>
      var saved := s.(pending := s.pending[taskId := New(taskId, position, now)]);
      if |saved.pending| >= batchSize then FlushPending(saved, out.saveFails) else saved
    case Delete(taskId) =>
      State(s.pending - {taskId}, if out.deleteFails then s.store else s.store - {taskId})
    case Flush => FlushPending(s, out.saveFails)
  }

  // ----- the same commands on one map

  function NextView(view: Entries, c: Command): Entries {
    match c
    case Save(taskId, position, now) => view[taskId := New(taskId, position, now)]
    case Delete(taskId) => view - {taskId}
    case Flush => view
  }

  /** A flush is invisible whichever saves fail, and leaves pending exactly the tasks whose save failed. */
  lemma FlushInvisible(s: State, saveFails: set<string>)
    ensures View(FlushPending(s, saveFails)) == View(s)
    ensures FlushPending(s, saveFails).pending.Keys == s.pending.Keys * saveFails
  {
  }

  lemma SaveRefines(s: State, taskId: string, c: Checkpoint)
    ensures View(s.(pending := s.pending[taskId := c])) == View(s)[taskId := c]
  {
  }

  lemma DeleteRefines(s: State, taskId: string)
    ensures View(State(s.pending - {taskId}, s.store - {taskId})) == View(s) - {taskId}
  {
  }

  lemma StepRefines(s: State, batchSize: nat, out: Outages, c: Command)
    requires c.Delete? ==> !out.deleteFails
    ensures View(Next(s, batchSize, out, c)) == NextView(View(s), c)
  {
    match c
    case Save(taskId, position, now) =>
      SaveRefines(s, taskId, New(taskId, position, now));
      FlushInvisible(s.(pending := s.pending[taskId := New(taskId, position, now)]), out.saveFails);
    case Delete(taskId) =>
      DeleteRefines(s, taskId);
    case Flush =>
      FlushInvisible(s, out.saveFails);
  }

  /** A failed delete is seen exactly when the task has a stored checkpoint: that one comes back into view. */
  lemma FailedDelete(s: State, batchSize: nat, out: Outages, taskId: string)
    requires out.deleteFails
    ensures View(Next(s, batchSize, out, Delete(taskId))) == NextView(View(s), Delete(taskId)) <==> taskId !in s.store
    ensures taskId in s.store ==> View(Next(s, batchSize, out, Delete(taskId))) == View(s)[taskId := s.store[taskId]]
  {
  }

  function Run(s: State, batchSize: nat, steps: seq<(Outages, Command)>): State {
    if steps == [] then s
    else
      var n := |steps| - 1;
      Next(Run(s, batchSize, steps[..n]), batchSize, steps[n].0, steps[n].1)
  }

  function RunView(view: Entries, steps: seq<(Outages, Command)>): Entries {
    if steps == [] then view else NextView(RunView(view, steps[..|steps| - 1]), steps[|steps| - 1].1)
  }

  /** Every run of commands refines the same run on one map, whichever flushes fail along the way. */
  lemma {:induction false} RunRefines(s: State, batchSize: nat, steps: seq<(Outages, Command)>)
    requires forall i | 0 <= i < |steps| :: steps[i].1.Delete? ==> !steps[i].0.deleteFails
    ensures View(Run(s, batchSize, steps)) == RunView(View(s), steps)
  {
    if steps != [] {
      var n := |steps| - 1;
      forall i | 0 <= i < n
        ensures steps[..n][i] == steps[i]
      {
      }
      RunRefines(s, batchSize, steps[..n]);
      StepRefines(Run(s, batchSize, steps[..n]), batchSize, steps[n].0, steps[n].1);
    }
  }

  // ----- the manager

  class CheckpointManager {
    const storage: Store
    const batchSize: nat
    var pending: Entries

    ghost function Model(): State
      reads this, storage
    {
      State(pending, storage.entries)
    }

    ghost predicate Valid()
      reads this, storage
    {
      Filed(pending) && Filed(storage.entries)
    }

    constructor (storage: Store, batchSize: nat)
      requires Filed(storage.entries)
      ensures this.storage == storage && this.batchSize == batchSize
      ensures Valid() && Model() == State(map[], storage.entries)
    {
      this.storage, this.batchSize, this.pending := storage, batchSize, map[];
    }

    method SaveCheckpoint(taskId: string, position: Events.Position, now: int, out: Outages)
      requires Valid()
      modifies this, storage
      ensures Valid() && Model() == Next(old(Model()), batchSize, out, Save(taskId, position, now))
    {
      pending := pending[taskId := New(taskId, position, now)];
      if |pending| >= batchSize {
        FlushAll(out.saveFails);
      }
    }

    /** Pending first, then the store; a failed load answers nothing. */
    method LoadCheckpoint(taskId: string, loadOk: bool) returns (r: Option<Checkpoint>)
      requires Valid()
      ensures loadOk || taskId in pending ==> r == if taskId in View(Model()) then Some(View(Model())[taskId]) else None
      ensures !loadOk && taskId !in pending ==> r == None
    {
      if taskId in pending {
        return Some(pending[taskId]);
      }
      var loaded := storage.Load(taskId, loadOk);
      r := if loaded.Ok? then loaded.value else None;
    }

    method DeleteCheckpoint(taskId: string, out: Outages)
      requires Valid()
      modifies this, storage
      ensures Valid() && Model() == Next(old(Model()), batchSize, out, Delete(taskId))
    {
      pending := pending - {taskId};
      var _ := storage.Delete(taskId, !out.deleteFails);
    }

    /** All pending checkpoints, then the stored ones of the other tasks: the whole view, each task once. */
    method ListCheckpoints(listOk: bool) returns (all: seq<Checkpoint>)
      requires Valid()
      ensures Lists(all, if listOk then View(Model()) else pending)
    {
      all := ValuesOf(pending);
      var stored := storage.List(listOk);
      if stored.Ok? {
        all := Merge(all, stored.value, View(Model()));
      }
    }

    /** Saves a listing of `entries`, collecting the tasks whose save failed. */
    method SaveAll(checkpoints: seq<Checkpoint>, ghost entries: Entries, saveFails: set<string>) returns (failedTasks: set<string>)
      requires Filed(storage.entries) && Lists(checkpoints, entries)
      modifies storage
      ensures Filed(storage.entries)
      ensures failedTasks == entries.Keys * saveFails
      ensures storage.entries == old(storage.entries) + Restrict(entries, entries.Keys - saveFails)
    {
      failedTasks := {};
      ghost var saved: set<string> := {};
      for i := 0 to |checkpoints|
        invariant Filed(storage.entries)
        invariant failedTasks == TaskIds(checkpoints[..i]) * saveFails
        invariant saved == TaskIds(checkpoints[..i]) - saveFails
        invariant storage.entries == old(storage.entries) + Restrict(entries, saved)
      {
        var c := checkpoints[i];
        assert checkpoints[..i + 1] == checkpoints[..i] + [c];
        TaskIdsStep(checkpoints[..i], c);
        RestrictStep(old(storage.entries), entries, saved, c.taskId);
        var done := storage.Save(c, c.taskId !in saveFails);
        if done.Err? {
          failedTasks := failedTasks + {c.taskId};
        } else {
          saved := saved + {c.taskId};
        }
      }
      assert checkpoints[..|checkpoints|] == checkpoints;
    }

    /** Saves every pending checkpoint and keeps pending those whose save failed. */
    method FlushAll(saveFails: set<string>)
      requires Valid()
      modifies this, storage
      ensures Valid() && Model() == FlushPending(old(Model()), saveFails)
    {
      if |pending| == 0 {
        assert pending == map[];
        return;
      }
      var checkpoints := ValuesOf(pending);
      var failedTasks := SaveAll(checkpoints, pending, saveFails);
      pending := Restrict(pending, failedTasks);
    }

    /** One delete per checkpoint to remove, all for the same task. */
    method DeleteEach(taskId: string, count: nat)
      requires Valid()
      modifies this, storage
      ensures Valid()
      ensures View(Model()) == if count == 0 then old(View(Model())) else old(View(Model())) - {taskId}
    {
      for i := 0 to count
        invariant Valid()
        invariant View(Model()) == if i == 0 then old(View(Model())) else old(View(Model())) - {taskId}
      {
        StepRefines(Model(), batchSize, Outages({}, false), Delete(taskId));
        DeleteCheckpoint(taskId, Outages({}, false));
      }
    }

    /** Deletes the checkpoints of tasks that are not active, in whatever order the hash map gives them. */
    method RemoveOrphans(byTask: map<string, seq<Checkpoint>>, activeTaskIds: seq<string>)
      requires Valid() && forall t <- byTask :: |byTask[t]| == 1
      modifies this, storage
      ensures Valid() && View(Model()) == old(View(Model())) - Inactive(byTask.Keys, activeTaskIds)
    {
      var left := byTask.Keys;
      while left != {}
        invariant left <= byTask.Keys && Valid()
        invariant View(Model()) == old(View(Model())) - Inactive(byTask.Keys - left, activeTaskIds)
      {
        var t :| t in left;
        assert byTask.Keys - (left - {t}) == (byTask.Keys - left) + {t};
        InactiveStep(byTask.Keys - left, t, activeTaskIds);
        left := left - {t};
        if t !in activeTaskIds {
          DeleteEach(t, |byTask[t]|);
        }
      }
    }

    /** Deletes what active tasks have beyond the limit. */
    method RemoveBeyondLimit(byTask: map<string, seq<Checkpoint>>, activeTaskIds: seq<string>, maxPerTask: nat)
      requires Valid() && forall t <- byTask :: |byTask[t]| == 1
      modifies this, storage
      ensures Valid()
      ensures View(Model()) == if maxPerTask >= 1 then old(View(Model()))
                               else old(View(Model())) - set t | t in activeTaskIds && t in byTask
    {
      for i := 0 to |activeTaskIds|
        invariant Valid()
        invariant View(Model()) == if maxPerTask >= 1 then old(View(Model()))
                                   else old(View(Model())) - set t | t in activeTaskIds[..i] && t in byTask
      {
        var t := activeTaskIds[i];
        assert activeTaskIds[..i + 1] == activeTaskIds[..i] + [t];
        if t in byTask && |byTask[t]| > maxPerTask {
          DeleteEach(t, |byTask[t]| - maxPerTask);
        }
      }
      assert activeTaskIds[..|activeTaskIds|] == activeTaskIds;
    }

    /**
     The retention cleanup, run with no other command in between and with storage reads and deletes
     succeeding: inactive tasks lose their checkpoint, and active ones too if the limit is zero.
     */
    method CleanupCheckpoints(activeTaskIds: seq<string>, maxPerTask: nat)
      requires Valid()
      modifies this, storage
      ensures Valid()
      ensures View(Model()) ==
        if maxPerTask >= 1 then Restrict(old(View(Model())), set t | t in activeTaskIds) else map[]
    {
      var all := ListCheckpoints(true);
      var byTask := GroupByTask(all);
      assert byTask.Keys == View(Model()).Keys;
      CleanedView(View(Model()), activeTaskIds);
      RemoveOrphans(byTask, activeTaskIds);
      RemoveBeyondLimit(byTask, activeTaskIds, maxPerTask);
    }
  }

  /** Adds a checkpoint to a listing unless its task is there already. */
  method AddUnlessListed(all: seq<Checkpoint>, c: Checkpoint, ghost entries: Entries) returns (more: seq<Checkpoint>)
    requires PartOf(all, entries)
    requires c.taskId in TaskIds(all) || (c.taskId in entries && entries[c.taskId] == c)
    ensures PartOf(more, entries) && TaskIds(more) == TaskIds(all) + {c.taskId}
  {
    more := all;
    if c.taskId !in TaskIds(all) {
      TaskIdsStep(all, c);
      assert forall i | 0 <= i < |all| :: all[i].taskId in TaskIds(all);
      more := all + [c];
    }
  }

  /** All of one listing, then those of another whose task is not there yet. */
  method Merge(first: seq<Checkpoint>, second: seq<Checkpoint>, ghost entries: Entries) returns (all: seq<Checkpoint>)
    requires PartOf(first, entries)
    requires forall i | 0 <= i < |second| ::
               second[i].taskId in TaskIds(first) || (second[i].taskId in entries && entries[second[i].taskId] == second[i])
    ensures PartOf(all, entries) && TaskIds(all) == TaskIds(first) + TaskIds(second)
  {
    all := first;
    for i := 0 to |second|
      invariant PartOf(all, entries) && TaskIds(all) == TaskIds(first) + TaskIds(second[..i])
    {
      assert second[..i + 1] == second[..i] + [second[i]];
      TaskIdsStep(second[..i], second[i]);
      all := AddUnlessListed(all, second[i], entries);
    }
    assert second[..|second|] == second;
  }

  /** What the two removals of the cleanup leave. */
  lemma CleanedView(view: Entries, active: seq<string>)
    ensures view - Inactive(view.Keys, active) == Restrict(view, set t | t in active)
    ensures (view - Inactive(view.Keys, active)) - (set t | t in active && t in view) == map[]
  {
  }

  /** One active task, saved and then cleaned up with a limit: its checkpoint is kept exactly if the limit is not zero. */
  method SaveThenCleanUp(position: Events.Position, now: int, maxPerTask: nat) returns (kept: bool)
    ensures kept <==> maxPerTask >= 1
  {
    var store := new Store();
    var manager := new CheckpointManager(store, 100);
    manager.SaveCheckpoint("task", position, now, Outages({}, false));
    assert "task" in View(manager.Model());
    manager.CleanupCheckpoints(["task"], maxPerTask);
    var loaded := manager.LoadCheckpoint("task", true);
    kept := loaded.Some?;
  }

  function Inactive(tasks: set<string>, active: seq<string>): set<string> {
    set t | t in tasks && t !in active
  }

  lemma InactiveStep(tasks: set<string>, t: string, active: seq<string>)
    ensures Inactive(tasks + {t}, active) == Inactive(tasks, active) + (if t in active then {} else {t})
  {
  }

  lemma RestrictStep(base: Entries, entries: Entries, tasks: set<string>, t: string)
    requires t in entries
    ensures base + Restrict(entries, tasks + {t}) == (base + Restrict(entries, tasks))[t := entries[t]]
  {
  }

  /** Groups a listing by task; a listing has each task once, so every group has one member. */
  method GroupByTask(all: seq<Checkpoint>) returns (byTask: map<string, seq<Checkpoint>>)
    requires forall i, j | 0 <= i < j < |all| :: all[i].taskId != all[j].taskId
    ensures byTask.Keys == TaskIds(all) && forall t <- byTask :: |byTask[t]| == 1
  {
    byTask := map[];
    for i := 0 to |all|
      invariant byTask.Keys == TaskIds(all[..i])
      invariant forall t <- byTask :: |byTask[t]| == 1
    {
      assert all[..i + 1] == all[..i] + [all[i]];
      TaskIdsStep(all[..i], all[i]);
      byTask := byTask[all[i].taskId := [all[i]]];  // never there before
    }
    assert all[..|all|] == all;
  }
}
