/**
 Dead letters (src/dlq/mod.rs, src/dlq/redis_storage.rs): an in-memory map, the
 Redis storage with its three indexes refining it, and reprocessing.
 */
module DeadLetterQueue {
  import opened Wrappers
  import opened Events

  /** Times are in milliseconds; the sorted sets of Redis score by whole seconds. */
  datatype Entry = Entry(
    id: string, taskId: string, event: Json, error: string, retryCount: nat, createdAt: int, lastRetryAt: Option<int>)

  type Entries = map<string, Entry>

  /** Entries are kept under their own id. */
  predicate Keyed(entries: Entries) {
    forall id <- entries :: entries[id].id == id
  }

  function IdsOfTask(entries: Entries, taskId: string): set<string> {
    set id | id in entries && entries[id].taskId == taskId
  }

  // ----- Redis: entry keys, one sorted set per task, one sorted set of all

  datatype Redis = Redis(entries: Entries, tasks: map<string, map<string, int>>, all: map<string, int>)

  function Score(e: Entry): int {
    e.createdAt / 1000
  }

  /** A sorted set that does not exist is empty. */
  function TaskIndex(r: Redis, taskId: string): map<string, int> {
    if taskId in r.tasks then r.tasks[taskId] else map[]
  }

  function Store(r: Redis, e: Entry): Redis {
    Redis(r.entries[e.id := e], r.tasks[e.taskId := TaskIndex(r, e.taskId)[e.id := Score(e)]], r.all[e.id := Score(e)])
  }

  function Remove(r: Redis, id: string): Redis {
    if id !in r.entries then r
    else
      var t := r.entries[id].taskId;
      Redis(r.entries - {id}, r.tasks[t := TaskIndex(r, t) - {id}], r.all - {id})
  }

  function ClearTask(r: Redis, taskId: string): (Redis, nat) {
    var ids := TaskIndex(r, taskId).Keys;
    if |ids| == 0 then (r, 0) else (Redis(r.entries - ids, r.tasks - {taskId}, r.all - ids), |ids|)
  }

  /** The three indexes agree: all ids, and per task exactly the ids of its entries, with their scores. */
  ghost predicate Agree(r: Redis) {
    && Keyed(r.entries)
    && r.all.Keys == r.entries.Keys
    && (forall id <- r.entries :: r.all[id] == Score(r.entries[id]))
    && (forall t :: TaskIndex(r, t).Keys == IdsOfTask(r.entries, t))
    && (forall t, id | id in TaskIndex(r, t) :: id in r.entries && TaskIndex(r, t)[id] == Score(r.entries[id]))
  }

  // ----- the map it refines

  function ClearMap(entries: Entries, taskId: string): (Entries, nat) {
    (entries - IdsOfTask(entries, taskId), |entries| - |entries - IdsOfTask(entries, taskId)|)
  }

  lemma TaskIndexAfterStore(r: Redis, e: Entry, t: string)
    ensures TaskIndex(Store(r, e), t) == if t == e.taskId then TaskIndex(r, t)[e.id := Score(e)] else TaskIndex(r, t)
  {
  }

  lemma StoreAgreesAt(r: Redis, e: Entry, t: string)
    requires Agree(r) && (e.id in r.entries ==> r.entries[e.id].taskId == e.taskId)
    ensures var after := Store(r, e);
            && TaskIndex(after, t).Keys == IdsOfTask(after.entries, t)
            && forall id <- TaskIndex(after, t) :: id in after.entries && TaskIndex(after, t)[id] == Score(after.entries[id])
  {
    TaskIndexAfterStore(r, e, t);
    assert TaskIndex(r, t).Keys == IdsOfTask(r.entries, t);
    assert IdsOfTask(Store(r, e).entries, t) == IdsOfTask(r.entries, t) + (if t == e.taskId then {e.id} else {});
    if t != e.taskId {
      assert e.id !in TaskIndex(r, t);
    }
  }

  /** Storing keeps the indexes in agreement exactly when the id is new or stays with its task. */
  lemma StoreAgreesExactlyWhen(r: Redis, e: Entry)
    requires Agree(r)
    ensures Agree(Store(r, e)) <==> e.id in r.entries ==> r.entries[e.id].taskId == e.taskId
    ensures Store(r, e).entries == r.entries[e.id := e]
  {
    var after := Store(r, e);
    if e.id in r.entries && r.entries[e.id].taskId != e.taskId {
      var t := r.entries[e.id].taskId;
      TaskIndexAfterStore(r, e, t);
      assert e.id in IdsOfTask(r.entries, t);
      assert e.id in TaskIndex(after, t) && e.id !in IdsOfTask(after.entries, t);
    } else {
      forall t
        ensures TaskIndex(after, t).Keys == IdsOfTask(after.entries, t)
        ensures forall id <- TaskIndex(after, t) :: id in after.entries && TaskIndex(after, t)[id] == Score(after.entries[id])
      {
        StoreAgreesAt(r, e, t);
      }
    }
  }

  /** An entry stored under one task and then under another stays in the index of the first. */
  lemma MovedEntryBreaksIndexes(e: Entry)
    requires e.taskId == "a"
    ensures Agree(Store(Redis(map[], map[], map[]), e))
    ensures !Agree(Store(Store(Redis(map[], map[], map[]), e), e.(taskId := "b")))
  {
    StoreAgreesExactlyWhen(Redis(map[], map[], map[]), e);
    StoreAgreesExactlyWhen(Store(Redis(map[], map[], map[]), e), e.(taskId := "b"));
  }

  lemma RemoveAgrees(r: Redis, id: string)
    requires Agree(r)
    ensures Agree(Remove(r, id)) && Remove(r, id).entries == r.entries - {id}
  {
    if id in r.entries {
      var after := Remove(r, id);
      var owner := r.entries[id].taskId;
      forall t
        ensures TaskIndex(after, t).Keys == IdsOfTask(after.entries, t)
        ensures forall other <- TaskIndex(after, t) ::
                  other in after.entries && TaskIndex(after, t)[other] == Score(after.entries[other])
      {
        assert TaskIndex(r, t).Keys == IdsOfTask(r.entries, t);
        assert TaskIndex(after, t) == if t == owner then TaskIndex(r, t) - {id} else TaskIndex(r, t);
        assert IdsOfTask(after.entries, t) == IdsOfTask(r.entries, t) - {id};
      }
    } else {
      assert r.entries - {id} == r.entries;
    }
  }

  lemma ClearedIndex(r: Redis, taskId: string, t: string)
    requires Agree(r)
    ensures var ids := TaskIndex(r, taskId).Keys;
            var after := Redis(r.entries - ids, r.tasks - {taskId}, r.all - ids);
            && TaskIndex(after, t) == (if t == taskId then map[] else TaskIndex(r, t))
            && TaskIndex(after, t).Keys == IdsOfTask(after.entries, t)
            && forall id <- TaskIndex(after, t) :: id in after.entries && TaskIndex(after, t)[id] == Score(after.entries[id])
  {
  }

  lemma ClearedCount(entries: Entries, ids: set<string>)
    requires ids <= entries.Keys
    ensures |entries| - |entries - ids| == |ids|
  {
  }

  lemma ClearTaskAgrees(r: Redis, taskId: string)
    requires Agree(r)
    ensures Agree(ClearTask(r, taskId).0)
    ensures ClearTask(r, taskId).0.entries == ClearMap(r.entries, taskId).0
    ensures ClearTask(r, taskId).1 == ClearMap(r.entries, taskId).1
  {
    var ids := TaskIndex(r, taskId).Keys;
    assert ids == IdsOfTask(r.entries, taskId);
    ClearedCount(r.entries, ids);
    if |ids| == 0 {
      assert r.entries - ids == r.entries;
    } else {
      var after := ClearTask(r, taskId).0;
      forall t
        ensures TaskIndex(after, t).Keys == IdsOfTask(after.entries, t)
        ensures forall id <- TaskIndex(after, t) :: id in after.entries && TaskIndex(after, t)[id] == Score(after.entries[id])
      {
        ClearedIndex(r, taskId, t);
      }
    }
  }

  // ----- runs

  datatype Op = Put(entry: Entry) | Drop(id: string) | Clear(taskId: string)

  function NextRedis(r: Redis, op: Op): Redis {
    match op
    case Put(e) => Store(r, e)
    case Drop(id) => Remove(r, id)
    case Clear(taskId) => ClearTask(r, taskId).0
  }

  function NextMap(entries: Entries, op: Op): Entries {
    match op
    case Put(e) => entries[e.id := e]
    case Drop(id) => entries - {id}
    case Clear(taskId) => ClearMap(entries, taskId).0
  }

  function RunRedis(r: Redis, ops: seq<Op>): Redis {
    if ops == [] then r else NextRedis(RunRedis(r, ops[..|ops| - 1]), ops[|ops| - 1])
  }

  function RunMap(entries: Entries, ops: seq<Op>): Entries {
    if ops == [] then entries else NextMap(RunMap(entries, ops[..|ops| - 1]), ops[|ops| - 1])
  }

  /** No stored id is ever stored again under another task. */
  ghost predicate TasksStable(entries: Entries, ops: seq<Op>) {
    forall n | 0 <= n < |ops| ::
      var before := RunMap(entries, ops[..n]);
      ops[n].Put? && ops[n].entry.id in before ==> before[ops[n].entry.id].taskId == ops[n].entry.taskId
  }

  lemma StepRefines(r: Redis, op: Op)
    requires Agree(r)
    requires op.Put? && op.entry.id in r.entries ==> r.entries[op.entry.id].taskId == op.entry.taskId
    ensures Agree(NextRedis(r, op)) && NextRedis(r, op).entries == NextMap(r.entries, op)
  {
    match op
    case Put(e) => StoreAgreesExactlyWhen(r, e);
    case Drop(id) => RemoveAgrees(r, id);
    case Clear(t) => ClearTaskAgrees(r, t);
  }

  /** In every such run the three indexes agree and the entry keys are the in-memory map. */
  lemma {:induction false} RedisRefinesMap(r: Redis, ops: seq<Op>)
    requires Agree(r) && TasksStable(r.entries, ops)
    ensures Agree(RunRedis(r, ops)) && RunRedis(r, ops).entries == RunMap(r.entries, ops)
  {
    if ops != [] {
      var n := |ops| - 1;
      forall k | 0 <= k < n
        ensures ops[..n][k] == ops[k] && ops[..n][..k] == ops[..k]
      {
      }
      RedisRefinesMap(r, ops[..n]);
      StepRefines(RunRedis(r, ops[..n]), ops[n]);
    }
  }

  /** So a clear reports the same count, and the index of all entries has the size the map has. */
  lemma {:induction false} RedisCountsAgree(r: Redis, ops: seq<Op>, taskId: string)
    requires Agree(r) && TasksStable(r.entries, ops)
    ensures ClearTask(RunRedis(r, ops), taskId).1 == ClearMap(RunMap(r.entries, ops), taskId).1
    ensures |RunRedis(r, ops).all| == |RunMap(r.entries, ops)|
  {
    RedisRefinesMap(r, ops);
    var after := RunRedis(r, ops);
    ClearTaskAgrees(after, taskId);
    assert |after.all| == |after.all.Keys| == |after.entries.Keys|;
  }

  // ----- statistics

  /** The first line of an error text. */
  function FirstLine(error: string): string {
    if error == "" then "Unknown"
    else
      var n := LineEnd(error);
      if 0 < n < |error| && error[n - 1] == '\r' then error[..n - 1] else error[..n]
  }

  function LineEnd(s: string): (n: nat)
    ensures n <= |s|
  {
    if s == "" || s[0] == '\n' then 0 else 1 + LineEnd(s[1..])
  }

  datatype Statistics = Statistics(
    total: nat, byTask: map<string, nat>, byError: map<string, nat>, oldest: Option<int>, newest: Option<int>)

  function WithTask(entries: Entries, ids: set<string>, t: string): set<string> {
    set id | id in ids && id in entries && entries[id].taskId == t
  }

  function WithError(entries: Entries, ids: set<string>, e: string): set<string> {
    set id | id in ids && id in entries && FirstLine(entries[id].error) == e
  }

  /** `counts` has, for every value that some id of `ids` has, how many ids have it. */
  ghost predicate CountsTasks(counts: map<string, nat>, entries: Entries, ids: set<string>) {
    forall t :: (t in counts <==> WithTask(entries, ids, t) != {}) && (t in counts ==> counts[t] == |WithTask(entries, ids, t)|)
  }

  ghost predicate CountsErrors(counts: map<string, nat>, entries: Entries, ids: set<string>) {
    forall e :: (e in counts <==> WithError(entries, ids, e) != {}) && (e in counts ==> counts[e] == |WithError(entries, ids, e)|)
  }

  ghost predicate IsOldest(oldest: Option<int>, entries: Entries, ids: set<string>) {
    match oldest
    case None => ids == {}
    case Some(m) =>
      && (exists id :: id in ids && id in entries && entries[id].createdAt == m)
      && (forall id | id in ids && id in entries :: m <= entries[id].createdAt)
  }

  ghost predicate IsNewest(newest: Option<int>, entries: Entries, ids: set<string>) {
    match newest
    case None => ids == {}
    case Some(m) =>
      && (exists id :: id in ids && id in entries && entries[id].createdAt == m)
      && (forall id | id in ids && id in entries :: entries[id].createdAt <= m)
  }

  ghost predicate IsStatistics(s: Statistics, entries: Entries) {
    && s.total == |entries|
    && CountsTasks(s.byTask, entries, entries.Keys) && CountsErrors(s.byError, entries, entries.Keys)
    && IsOldest(s.oldest, entries, entries.Keys) && IsNewest(s.newest, entries, entries.Keys)
  }

  lemma WithTaskStep(entries: Entries, ids: set<string>, id: string, x: string)
    requires id in entries && id !in ids
    ensures WithTask(entries, ids + {id}, x) == WithTask(entries, ids, x) + (if entries[id].taskId == x then {id} else {})
    ensures |WithTask(entries, ids + {id}, x)| == |WithTask(entries, ids, x)| + (if entries[id].taskId == x then 1 else 0)
  {
  }

  /** One more of `x`. */
  function Bump(counts: map<string, nat>, x: string): map<string, nat> {
    counts[x := (if x in counts then counts[x] else 0) + 1]
  }

  lemma CountsTasksStep(counts: map<string, nat>, entries: Entries, ids: set<string>, id: string)
    requires CountsTasks(counts, entries, ids) && id in entries && id !in ids
    ensures var x := entries[id].taskId;
            CountsTasks(Bump(counts, x), entries, ids + {id})
  {
    var x := entries[id].taskId;
    var after := Bump(counts, x);
    forall y
      ensures y in after <==> WithTask(entries, ids + {id}, y) != {}
      ensures y in after ==> after[y] == |WithTask(entries, ids + {id}, y)|
    {
      WithTaskStep(entries, ids, id, y);
    }
  }

  lemma WithErrorStep(entries: Entries, ids: set<string>, id: string, x: string)
    requires id in entries && id !in ids
    ensures WithError(entries, ids + {id}, x) == WithError(entries, ids, x) + (if FirstLine(entries[id].error) == x then {id} else {})
    ensures |WithError(entries, ids + {id}, x)| == |WithError(entries, ids, x)| + (if FirstLine(entries[id].error) == x then 1 else 0)
  {
  }

  lemma CountsErrorsStep(counts: map<string, nat>, entries: Entries, ids: set<string>, id: string)
    requires CountsErrors(counts, entries, ids) && id in entries && id !in ids
    ensures var x := FirstLine(entries[id].error);
            CountsErrors(Bump(counts, x), entries, ids + {id})
  {
    var x := FirstLine(entries[id].error);
    var after := Bump(counts, x);
    forall y
      ensures y in after <==> WithError(entries, ids + {id}, y) != {}
      ensures y in after ==> after[y] == |WithError(entries, ids + {id}, y)|
    {
      WithErrorStep(entries, ids, id, y);
    }
  }

  function Older(oldest: Option<int>, t: int): Option<int> {
    if oldest.None? || t < oldest.value then Some(t) else oldest
  }

  function Newer(newest: Option<int>, t: int): Option<int> {
    if newest.None? || t > newest.value then Some(t) else newest
  }

  lemma ExtremesStep(oldest: Option<int>, newest: Option<int>, entries: Entries, ids: set<string>, id: string)
    requires IsOldest(oldest, entries, ids) && IsNewest(newest, entries, ids) && ids <= entries.Keys && id in entries
    ensures IsOldest(Older(oldest, entries[id].createdAt), entries, ids + {id})
    ensures IsNewest(Newer(newest, entries[id].createdAt), entries, ids + {id})
  {
  }

  /** Both storages tally the same way, over the ids in whatever order they come. */
  method Tally(entries: Entries, ids: set<string>) returns (s: Statistics)
    requires ids <= entries.Keys
    ensures s.total == |ids|
    ensures CountsTasks(s.byTask, entries, ids) && CountsErrors(s.byError, entries, ids)
    ensures IsOldest(s.oldest, entries, ids) && IsNewest(s.newest, entries, ids)
  {
    var byTask: map<string, nat>, byError: map<string, nat> := map[], map[];
    var oldest: Option<int>, newest: Option<int> := None, None;
    var left := ids;
    while left != {}
      invariant left <= ids
      invariant CountsTasks(byTask, entries, ids - left) && CountsErrors(byError, entries, ids - left)
      invariant IsOldest(oldest, entries, ids - left) && IsNewest(newest, entries, ids - left)
    {
      var id :| id in left;
      var e := entries[id];
      assert ids - (left - {id}) == (ids - left) + {id};
      CountsTasksStep(byTask, entries, ids - left, id);
      CountsErrorsStep(byError, entries, ids - left, id);
      ExtremesStep(oldest, newest, entries, ids - left, id);
      byTask, byError := Bump(byTask, e.taskId), Bump(byError, FirstLine(e.error));
      oldest, newest := Older(oldest, e.createdAt), Newer(newest, e.createdAt);
      left := left - {id};
    }
    assert ids - {} == ids;
    s := Statistics(|ids|, byTask, byError, oldest, newest);
  }

  lemma MinusStep<T>(m: map<string, T>, gone: set<string>, id: string)
    ensures m - gone - {id} == m - (gone + {id})
  {
  }

  // ----- the storages

  class RedisDlqStorage {
    var entries: Entries
    var tasks: map<string, map<string, int>>
    var all: map<string, int>

    ghost function Model(): Redis
      reads this
    {
      Redis(entries, tasks, all)
    }

    constructor ()
      ensures Model() == Redis(map[], map[], map[]) && Agree(Model())
    {
      entries, tasks, all := map[], map[], map[];
    }

    /** One transaction: the entry, the task's sorted set, the sorted set of all. */
    method StoreEntry(e: Entry)
      modifies this
      ensures Model() == Store(old(Model()), e)
    {
      var score := e.createdAt / 1000;
      var index := if e.taskId in tasks then tasks[e.taskId] else map[];
      entries, tasks, all := entries[e.id := e], tasks[e.taskId := index[e.id := score]], all[e.id := score];
    }

    method Get(id: string) returns (r: Option<Entry>)
      ensures r == if id in entries then Some(entries[id]) else None
    {
      r := if id in entries then Some(entries[id]) else None;
    }

    method RemoveEntry(id: string)
      modifies this
      ensures Model() == Remove(old(Model()), id)
    {
      var found := Get(id);
      if found.Some? {
        var t := found.value.taskId;
        var index := if t in tasks then tasks[t] else map[];
        entries, tasks, all := entries - {id}, tasks[t := index - {id}], all - {id};
      }
    }

    /** The entry keys and their members of the index of all, one by one. */
    method DeleteEntries(ids: set<string>)
      modifies this
      ensures entries == old(entries) - ids && all == old(all) - ids && tasks == old(tasks)
    {
      var left := ids;
      while left != {}
        invariant left <= ids && tasks == old(tasks)
        invariant entries == old(entries) - (ids - left) && all == old(all) - (ids - left)
      {
        var id :| id in left;
        MinusStep(old(entries), ids - left, id);
        MinusStep(old(all), ids - left, id);
        assert ids - (left - {id}) == (ids - left) + {id};
        entries, all, left := entries - {id}, all - {id}, left - {id};
      }
      assert ids - {} == ids;
    }

    method ClearTaskEntries(taskId: string) returns (count: nat)
      modifies this
      ensures (Model(), count) == ClearTask(old(Model()), taskId)
    {
      var ids := (if taskId in tasks then tasks[taskId] else map[]).Keys;
      count := |ids|;
      if count > 0 {
        DeleteEntries(ids);
        tasks := tasks - {taskId};
      }
    }

    method GetStatistics() returns (s: Statistics)
      requires Agree(Model())
      ensures IsStatistics(s, entries)
    {
      s := Tally(entries, all.Keys);
      assert |all.Keys| == |entries.Keys|;
    }
  }

  class InMemoryDlqStorage {
    var entries: Entries

    constructor ()
      ensures entries == map[]
    {
      entries := map[];
    }

    /** Also the update: an entry replaces what is stored under its id. */
    method StoreEntry(e: Entry)
      modifies this
      ensures entries == NextMap(old(entries), Put(e))
    {
      entries := entries[e.id := e];
    }

    method RemoveEntry(id: string)
      modifies this
      ensures entries == NextMap(old(entries), Drop(id))
    {
      entries := entries - {id};
    }

    method ClearTaskEntries(taskId: string) returns (count: nat)
      modifies this
      ensures (entries, count) == ClearMap(old(entries), taskId)
    {
      var before := |entries|;
      entries := entries - IdsOfTask(entries, taskId);
      assert old(entries).Keys == entries.Keys + IdsOfTask(old(entries), taskId);
      count := before - |entries|;
    }

    method GetStatistics() returns (s: Statistics)
      ensures IsStatistics(s, entries)
    {
      s := Tally(entries, entries.Keys);
    }

    /** The entries of a task, oldest first, at most `limit` of them. */
    method GetByTask(taskId: string, limit: Option<nat>) returns (list: seq<Entry>)
      requires Keyed(entries)
      ensures OldestFirst(list, entries) && IdsOf(list) <= IdsOfTask(entries, taskId)
      ensures AllOlder(list, entries, IdsOfTask(entries, taskId) - IdsOf(list))
      ensures |list| == if limit.Some? && limit.value < |IdsOfTask(entries, taskId)| then limit.value
                        else |IdsOfTask(entries, taskId)|
    {
      list := [];
      var ids := IdsOfTask(entries, taskId);
      var left := ids;
      while left != {} && (limit.None? || |list| < limit.value)
        invariant left <= ids && |list| + |left| == |ids|
        invariant limit.Some? ==> |list| <= limit.value
        invariant IdsOf(list) == ids - left
        invariant OldestFirst(list, entries) && AllOlder(list, entries, left)
      {
        OldestExists(entries, left);
        var id :| id in left && forall other <- left :: entries[id].createdAt <= entries[other].createdAt;
        OldestFirstStep(list, entries, left, id);
        list := list + [entries[id]];
        left := left - {id};
      }
      assert ids - IdsOf(list) == left;
    }
  }

  /** Stored entries, each once, by creation time. */
  ghost predicate OldestFirst(list: seq<Entry>, entries: Entries) {
    && (forall i | 0 <= i < |list| :: list[i].id in entries && entries[list[i].id] == list[i])
    && (forall i, j | 0 <= i < j < |list| :: list[i].id != list[j].id && list[i].createdAt <= list[j].createdAt)
  }

  /** Everything listed is at least as old as everything left. */
  ghost predicate AllOlder(list: seq<Entry>, entries: Entries, left: set<string>) {
    forall i, id | 0 <= i < |list| && id in left && id in entries :: list[i].createdAt <= entries[id].createdAt
  }

  lemma OldestFirstStep(list: seq<Entry>, entries: Entries, left: set<string>, id: string)
    requires OldestFirst(list, entries) && AllOlder(list, entries, left) && Keyed(entries)
    requires id in left && left <= entries.Keys && left !! IdsOf(list)
    requires forall other <- left :: entries[id].createdAt <= entries[other].createdAt
    ensures OldestFirst(list + [entries[id]], entries) && AllOlder(list + [entries[id]], entries, left - {id})
    ensures IdsOf(list + [entries[id]]) == IdsOf(list) + {id}
  {
    var more := list + [entries[id]];
    IdsOfStep(more, |list|);
    assert more[..|list|] == list && more[..|list| + 1] == more;
    assert forall i | 0 <= i < |list| :: list[i].id in IdsOf(list);
  }

  lemma OldestExists(entries: Entries, ids: set<string>)
    requires ids != {} && ids <= entries.Keys
    ensures exists id :: id in ids && forall other <- ids :: entries[id].createdAt <= entries[other].createdAt
  {
    var x :| x in ids;
    if ids != {x} {
      OldestExists(entries, ids - {x});
      var y :| y in ids - {x} && forall other <- ids - {x} :: entries[y].createdAt <= entries[other].createdAt;
      var oldest := if entries[x].createdAt <= entries[y].createdAt then x else y;
      assert forall other <- ids :: entries[oldest].createdAt <= entries[other].createdAt by {
        forall other <- ids ensures entries[oldest].createdAt <= entries[other].createdAt {
          assert other == x || other in ids - {x};
        }
      }
    }
  }

  // ----- reprocessing

  /** Which calls fail during one reprocessing, by entry id. */
  datatype Outages = Outages(updateFails: set<string>, sendFails: set<string>, removeFails: set<string>)

  datatype DlqError = NotConfigured | StorageFailed | SendFailed

  function Retried(e: Entry, now: int): Entry {
    e.(retryCount := e.retryCount + 1, lastRetryAt := Some(now))
  }

  function IdsOf(list: seq<Entry>): set<string> {
    set i | 0 <= i < |list| :: list[i].id
  }

  function AllRetried(list: seq<Entry>, now: int): seq<Entry> {
    seq(|list|, i requires 0 <= i < |list| => Retried(list[i], now))
  }

  class DeadLetterQueue {
    const storage: InMemoryDlqStorage
    const configured: bool
    var sent: seq<Entry>

    constructor (storage: InMemoryDlqStorage, configured: bool)
      ensures this.storage == storage && this.configured == configured && sent == []
    {
      this.storage, this.configured, this.sent := storage, configured, [];
    }

    /** One entry: update it, send it, remove it; stop at the first failure. */
    method ReprocessOne(e: Entry, now: int, out: Outages) returns (r: Result<(), DlqError>)
      modifies this, storage
      ensures r.Ok? <==> e.id !in out.updateFails && e.id !in out.sendFails && e.id !in out.removeFails
      ensures r.Err? ==> r.error != NotConfigured
      ensures sent == if e.id in out.updateFails || e.id in out.sendFails then old(sent) else old(sent) + [Retried(e, now)]
      ensures storage.entries ==
        if e.id in out.updateFails then old(storage.entries)
        else if r.Ok? then old(storage.entries) - {e.id} else old(storage.entries)[e.id := Retried(e, now)]
    {
      var entry := Retried(e, now);
      if e.id in out.updateFails {
        return Err(StorageFailed);
      }
      storage.StoreEntry(entry);
      if e.id in out.sendFails {
        return Err(SendFailed);
      }
      sent := sent + [entry];
      if e.id in out.removeFails {
        return Err(StorageFailed);
      }
      storage.RemoveEntry(entry.id);
      assert old(storage.entries)[e.id := entry] - {e.id} == old(storage.entries) - {e.id};
      r := Ok(());
    }

    /**
     Reprocesses a task's entries in order. `list` is what was fetched and `done` how many of them went
     through completely. At every exit each fetched entry is still stored or has been sent.
     */
    method ReprocessEntries(taskId: string, limit: Option<nat>, now: int, out: Outages)
      returns (r: Result<nat, DlqError>, list: seq<Entry>, done: nat)
      requires Keyed(storage.entries)
      modifies this, storage
      ensures OldestFirst(list, old(storage.entries)) && IdsOf(list) <= IdsOfTask(old(storage.entries), taskId)
      ensures AllOlder(list, old(storage.entries), IdsOfTask(old(storage.entries), taskId) - IdsOf(list))
      ensures |list| == if limit.Some? && limit.value < |IdsOfTask(old(storage.entries), taskId)| then limit.value
                        else |IdsOfTask(old(storage.entries), taskId)|
      ensures r.Ok? ==> done == |list| == r.value
      ensures done <= |list|
      ensures r == Err(NotConfigured) <==> list != [] && !configured
      ensures r.Err? && r.error != NotConfigured ==>
        done < |list| && list[done].id in out.updateFails + out.sendFails + out.removeFails
      // exactly what is sent and what stays
      ensures sent == old(sent) + SentBy(list, done, now, configured && r.Err?, out)
      ensures storage.entries == LeftBy(old(storage.entries), list, done, now, configured && r.Err?, out)
      // nothing is lost
      ensures forall i | 0 <= i < |list| :: list[i].id in storage.entries || Retried(list[i], now) in sent
    {
      done := 0;
      list := storage.GetByTask(taskId, limit);
      if |list| == 0 {
        return Ok(0), list, 0;
      }
      if !configured {
        return Err(NotConfigured), list, 0;
      }
      while done < |list|
        invariant done <= |list|
        invariant sent == old(sent) + AllRetried(list[..done], now)
        invariant storage.entries == old(storage.entries) - IdsOf(list[..done])
      {
        IdsOfStep(list, done);
        assert AllRetried(list[..done + 1], now) == AllRetried(list[..done], now) + [Retried(list[done], now)];
        assert list[done].id !in IdsOf(list[..done]);
        var one := ReprocessOne(list[done], now, out);
        if one.Err? {
          NothingLost(old(storage.entries), old(sent), list, done, now, true, out);
          return Err(one.error), list, done;
        }
        done := done + 1;
      }
      NothingLost(old(storage.entries), old(sent), list, done, now, false, out);
      r := Ok(|list|);
    }
  }

  /** Entry `done` was tried, and is not among those that fail. */
  predicate Tried(list: seq<Entry>, done: nat, fails: set<string>) {
    done < |list| && list[done].id !in fails
  }

  lemma IdsOfStep(list: seq<Entry>, n: nat)
    requires n < |list|
    ensures IdsOf(list[..n + 1]) == IdsOf(list[..n]) + {list[n].id}
  {
  }

  /** What a call sends: the entries that went through, in order, and the failing one if only its removal failed. */
  function SentBy(list: seq<Entry>, done: nat, now: int, failed: bool, out: Outages): seq<Entry>
    requires done <= |list|
  {
    AllRetried(list[..done], now) + if failed && Tried(list, done, out.updateFails + out.sendFails) then [Retried(list[done], now)] else []
  }

  /** What it leaves: all others as they were, the failing one updated unless that is what failed. */
  function LeftBy(entries: Entries, list: seq<Entry>, done: nat, now: int, failed: bool, out: Outages): Entries
    requires done <= |list|
  {
    var left := entries - IdsOf(list[..done]);
    if failed && Tried(list, done, out.updateFails) then left[list[done].id := Retried(list[done], now)] else left
  }

  lemma NothingLost(entries: Entries, before: seq<Entry>, list: seq<Entry>, done: nat, now: int, failed: bool, out: Outages)
    requires done <= |list| && OldestFirst(list, entries)
    ensures forall i | 0 <= i < |list| ::
              list[i].id in LeftBy(entries, list, done, now, failed, out)
              || Retried(list[i], now) in before + SentBy(list, done, now, failed, out)
  {
    forall i | 0 <= i < |list|
      ensures list[i].id in LeftBy(entries, list, done, now, failed, out)
              || Retried(list[i], now) in before + SentBy(list, done, now, failed, out)
    {
      if i < done {
        assert (before + SentBy(list, done, now, failed, out))[|before| + i] == Retried(list[i], now);
      }
    }
  }
}
