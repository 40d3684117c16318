/**
 Batched application of change events to the search index
 (src/destination/meilisearch/batch_processor.rs, adapter.rs).

 Events are grouped by index; each group is split into upserts and deletes, and
 all upserts are written before all deletes. The theorems say what this
 reordering means: every index ends as if the events had been applied one by
 one, minus every id that the group deletes anywhere.
 */
module MeilisearchAdapter {
  import opened Wrappers
  import opened BatchedWrites
  import opened Events
  import opened Text

  /** All indexes of the service, by name. */
  type Indexes = map<string, Docs>

  datatype SyncError = NoPrimaryKey | MissingPrimaryKey(field: string) | UpsertFailed | DeleteFailed | IndexUnavailable

  /** The adapter's configuration, and `idOf`: how the service finds the id of a document of an index. */
  datatype Config = Config(
    tableToIndex: map<string, string>,
    tablePrimaryKeys: map<string, string>,
    primaryKey: Option<string>,
    idOf: (string, Json) -> Option<string>)

  // ----- what one event asks for

  datatype Request = ToUpsert(document: Json) | ToDelete(id: string) | Skip

  const I64_LIMIT := 0x8000_0000_0000_0000

  /** Delete events name their document by the primary key field, which must be a string or a 64-bit integer. */
  function RequestOf(pk: Option<string>, e: Event): Result<Request, SyncError> {
    match e
    case FullSync(_, document) => Ok(ToUpsert(document))
    case Cdc(cdc) =>
      (match cdc.eventType
       case Create => Ok(ToUpsert(JObject(cdc.data)))
       case Update => Ok(ToUpsert(JObject(cdc.data)))
       case Delete =>
         if pk.None? then Err(NoPrimaryKey)
         else if pk.value !in cdc.data then Err(MissingPrimaryKey(pk.value))
         else (match cdc.data[pk.value]
               case JString(s) => Ok(ToDelete(s))
               case JInt(n) => if -I64_LIMIT <= n < I64_LIMIT then Ok(ToDelete(Decimal(n))) else Ok(Skip)
               case _ => Ok(Skip))
       case _ => Ok(Skip))
    case _ => Ok(Skip)
  }

  function Upserts(pk: Option<string>, events: seq<Event>): seq<Json> {
    if events == [] then []
    else
      var n := |events| - 1;
      var before := Upserts(pk, events[..n]);
      match RequestOf(pk, events[n])
      case Ok(ToUpsert(document)) => before + [document]
      case _ => before
  }

  function Deletes(pk: Option<string>, events: seq<Event>): seq<string> {
    if events == [] then []
    else
      var n := |events| - 1;
      var before := Deletes(pk, events[..n]);
      match RequestOf(pk, events[n])
      case Ok(ToDelete(id)) => before + [id]
      case _ => before
  }

  /** The errors of the events that are not understood, in order. */
  function Misread(pk: Option<string>, events: seq<Event>): seq<SyncError> {
    if events == [] then []
    else
      var n := |events| - 1;
      var before := Misread(pk, events[..n]);
      match RequestOf(pk, events[n])
      case Err(error) => before + [error]
      case Ok(_) => before
  }

  predicate AllUnderstood(pk: Option<string>, events: seq<Event>) {
    forall i | 0 <= i < |events| :: RequestOf(pk, events[i]).Ok?
  }

  class BatchProcessor {
    var documentsToUpsert: seq<Json>
    var documentsToDelete: seq<string>
    const primaryKey: Option<string>

    constructor (primaryKey: Option<string>)
      ensures this.primaryKey == primaryKey
      ensures documentsToUpsert == [] && documentsToDelete == []
    {
      this.primaryKey := primaryKey;
      documentsToUpsert, documentsToDelete := [], [];
    }

    method ProcessEvent(e: Event) returns (r: Result<(), SyncError>)
      modifies this
      ensures match RequestOf(primaryKey, e)
              case Err(error) =>
                r == Err(error) && unchanged(this)
              case Ok(ToUpsert(d)) =>
                r.Ok? && documentsToUpsert == old(documentsToUpsert) + [d] && documentsToDelete == old(documentsToDelete)
              case Ok(ToDelete(id)) =>
                r.Ok? && documentsToUpsert == old(documentsToUpsert) && documentsToDelete == old(documentsToDelete) + [id]
              case Ok(Skip) =>
                r.Ok? && unchanged(this)
    {
      match e {
        case Cdc(cdc) => r := ProcessCdcEvent(cdc);
        case FullSync(_, document) =>
          documentsToUpsert := documentsToUpsert + [document];
          r := Ok(());
        case _ => r := Ok(());
      }
    }

    method ProcessCdcEvent(cdc: CdcEvent) returns (r: Result<(), SyncError>)
      modifies this
      ensures match RequestOf(primaryKey, Cdc(cdc))
              case Err(error) =>
                r == Err(error) && unchanged(this)
              case Ok(ToUpsert(d)) =>
                r.Ok? && documentsToUpsert == old(documentsToUpsert) + [d] && documentsToDelete == old(documentsToDelete)
              case Ok(ToDelete(id)) =>
                r.Ok? && documentsToUpsert == old(documentsToUpsert) && documentsToDelete == old(documentsToDelete) + [id]
              case Ok(Skip) =>
                r.Ok? && unchanged(this)
    {
      match cdc.eventType {
        case Create => documentsToUpsert := documentsToUpsert + [JObject(cdc.data)];
        case Update => documentsToUpsert := documentsToUpsert + [JObject(cdc.data)];
        case Delete =>
          if primaryKey.None? {
            return Err(NoPrimaryKey);
          }
          if primaryKey.value !in cdc.data {
            return Err(MissingPrimaryKey(primaryKey.value));
          }
          match cdc.data[primaryKey.value] {
            case JString(s) => documentsToDelete := documentsToDelete + [s];
            case JInt(n) =>
              if -I64_LIMIT <= n < I64_LIMIT {
                documentsToDelete := documentsToDelete + [Decimal(n)];
              }
            case _ =>
          }
        case _ =>
      }
      r := Ok(());
    }

    method Clear()
      modifies this
      ensures documentsToUpsert == [] && documentsToDelete == []
    {
      documentsToUpsert, documentsToDelete := [], [];
    }

    predicate IsEmpty()
      reads this
    {
      documentsToUpsert == [] && documentsToDelete == []
    }
  }

  // ----- routing

  function CanonicalTableKey(schema: Option<string>, table: string): string {
    var tablePart := Lower(TrimQuotes(Trim(table)));
    if schema.Some? && Trim(schema.value) != "" then Lower(TrimQuotes(Trim(schema.value))) + "." + tablePart else tablePart
  }

  function SanitizeIdentifier(identifier: string): string {
    TrimQuotes(Trim(identifier))
  }

  function SplitTableIdentifier(table: string): (Option<string>, string) {
    var trimmed := Trim(table);
    var dot := IndexOf(trimmed, '.');
    if dot < |trimmed| then (Some(SanitizeIdentifier(trimmed[..dot])), SanitizeIdentifier(trimmed[dot + 1..]))
    else (None, SanitizeIdentifier(trimmed))
  }

  /** Schema-qualified key, then table key, then both again for the fallback name, then the fallback itself. */
  function ResolveIndexName(tableToIndex: map<string, string>, schema: Option<string>, table: string, fallback: string): string {
    var qualified := CanonicalTableKey(schema, table);
    var plain := CanonicalTableKey(None, table);
    var (fallbackSchema, fallbackTable) := SplitTableIdentifier(fallback);
    var fallbackQualified := CanonicalTableKey(fallbackSchema, fallbackTable);
    var fallbackPlain := CanonicalTableKey(None, fallbackTable);
    if schema.Some? && qualified in tableToIndex then tableToIndex[qualified]
    else if plain in tableToIndex then tableToIndex[plain]
    else if fallbackSchema.Some? && fallbackQualified in tableToIndex then tableToIndex[fallbackQualified]
    else if fallbackPlain in tableToIndex then tableToIndex[fallbackPlain]
    else fallback
  }

  /** The index of an event; other kinds of event are skipped. */
  function Route(cfg: Config, e: Event): Option<string> {
    match e
    case Cdc(cdc) => Some(ResolveIndexName(cfg.tableToIndex, Some(cdc.schema), cdc.table, cdc.table))
    case FullSync(table, _) =>
      var (schema, name) := SplitTableIdentifier(table);
      Some(ResolveIndexName(cfg.tableToIndex, schema, name, table))
    case _ => None
  }

  type Router = Event -> Option<string>

  function RouterOf(cfg: Config): Router {
    e => Route(cfg, e)
  }

  /** The events that go to one index, in order. */
  function Routed(route: Router, name: string, events: seq<Event>): seq<Event> {
    if events == [] then []
    else
      var n := |events| - 1;
      var before := Routed(route, name, events[..n]);
      if route(events[n]) == Some(name) then before + [events[n]] else before
  }

  function PrimaryKeyFor(cfg: Config, name: string): Option<string> {
    if name in cfg.tablePrimaryKeys then Some(cfg.tablePrimaryKeys[name]) else cfg.primaryKey
  }

  function LastPosition(events: seq<Event>): Option<Position> {
    if events == [] then None
    else
      var e := events[|events| - 1];
      if e.Cdc? && e.cdc.position.Some? then e.cdc.position else LastPosition(events[..|events| - 1])
  }

  // ----- the search service

  /** Which calls to the service fail in this batch, per index; the service also rejects documents without id. */
  datatype Outages = Outages(unavailable: set<string>, upsertFails: set<string>, deleteFails: set<string>)

  function DocsOf(indexes: Indexes, name: string): Docs {
    if name in indexes then indexes[name] else map[]
  }

  predicate HaveIds(cfg: Config, name: string, documents: seq<Json>) {
    forall i | 0 <= i < |documents| :: cfg.idOf(name, documents[i]).Some?
  }

  function AddAll(cfg: Config, name: string, docs: Docs, documents: seq<Json>): Docs
    requires HaveIds(cfg, name, documents)
  {
    if documents == [] then docs
    else
      var n := |documents| - 1;
      AddAll(cfg, name, docs, documents[..n])[cfg.idOf(name, documents[n]).value := documents[n]]
  }

  predicate UpsertSucceeds(cfg: Config, out: Outages, name: string, documents: seq<Json>) {
    name !in out.upsertFails && HaveIds(cfg, name, documents)
  }

  /** Neither request of the batch fails. */
  predicate WritesSucceed(cfg: Config, out: Outages, name: string, upserts: seq<Json>, deletes: seq<string>) {
    && (upserts == [] || UpsertSucceeds(cfg, out, name, upserts))
    && (deletes == [] || name !in out.deleteFails)
  }

  /** One index after the upsert request, and after the delete request; a failed request changes nothing. */
  function AfterUpserts(cfg: Config, out: Outages, name: string, docs: Docs, upserts: seq<Json>): Docs {
    if UpsertSucceeds(cfg, out, name, upserts) then AddAll(cfg, name, docs, upserts) else docs
  }

  function AfterDeletes(out: Outages, name: string, docs: Docs, deletes: seq<string>): Docs {
    if name in out.deleteFails then docs else docs - set id | id in deletes
  }

  function AfterBatch(cfg: Config, out: Outages, name: string, docs: Docs, upserts: seq<Json>, deletes: seq<string>): Docs {
    AfterDeletes(out, name, AfterUpserts(cfg, out, name, docs, upserts), deletes)
  }

  class SearchService {
    var indexes: Indexes
    const cfg: Config
    const out: Outages

    constructor (cfg: Config, out: Outages, indexes: Indexes)
      ensures this.cfg == cfg && this.out == out && this.indexes == indexes
    {
      this.cfg, this.out, this.indexes := cfg, out, indexes;
    }

    method GetOrCreateIndex(name: string) returns (r: Result<(), SyncError>)
      modifies this
      ensures r.Ok? <==> name !in out.unavailable
      ensures indexes == if r.Ok? then old(indexes)[name := DocsOf(old(indexes), name)] else old(indexes)
    {
      if name in out.unavailable {
        return Err(IndexUnavailable);
      }
      indexes := indexes[name := DocsOf(indexes, name)];
      r := Ok(());
    }

    method AddDocuments(name: string, documents: seq<Json>) returns (ok: bool)
      requires name in indexes
      modifies this
      ensures ok <==> UpsertSucceeds(cfg, out, name, documents)
      ensures indexes == old(indexes)[name := AfterUpserts(cfg, out, name, old(indexes)[name], documents)]
    {
      ok := name !in out.upsertFails && HaveIds(cfg, name, documents);
      if ok {
        var docs := indexes[name];
        for i := 0 to |documents|
          invariant docs == AddAll(cfg, name, old(indexes)[name], documents[..i])
          invariant indexes == old(indexes)
        {
          assert documents[..i + 1][..i] == documents[..i];
          docs := docs[cfg.idOf(name, documents[i]).value := documents[i]];
        }
        assert documents[..|documents|] == documents;
        indexes := indexes[name := docs];
      }
    }

    method DeleteDocuments(name: string, ids: seq<string>) returns (ok: bool)
      requires name in indexes
      modifies this
      ensures ok <==> name !in out.deleteFails
      ensures indexes == old(indexes)[name := AfterDeletes(out, name, old(indexes)[name], ids)]
    {
      ok := name !in out.deleteFails;
      if ok {
        indexes := indexes[name := indexes[name] - set id | id in ids];
      }
    }
  }

  // ----- the adapter

  datatype SyncResult = SyncResult(successCount: nat, failedCount: nat, lastPosition: Option<Position>, errors: seq<SyncError>)

  /** The batch of index `name` holds something to write. */
  predicate HasWork(cfg: Config, name: string, events: seq<Event>) {
    var pk, routed := PrimaryKeyFor(cfg, name), Routed(RouterOf(cfg), name, events);
    Upserts(pk, routed) != [] || Deletes(pk, routed) != []
  }

  /** Nothing about index `name` went wrong: every event was understood and every write it needed succeeded. */
  predicate CleanFor(cfg: Config, out: Outages, name: string, events: seq<Event>) {
    var pk, routed := PrimaryKeyFor(cfg, name), Routed(RouterOf(cfg), name, events);
    AllUnderstood(pk, routed) && WritesSucceed(cfg, out, name, Upserts(pk, routed), Deletes(pk, routed))
  }

  // ----- what a call reports

  const NO_RESULT := SyncResult(0, 0, None, [])

  /** Two partial results of one call, the first one first. */
  function Merge(a: SyncResult, b: SyncResult): SyncResult {
    SyncResult(a.successCount + b.successCount, a.failedCount + b.failedCount, None, a.errors + b.errors)
  }

  /** A request of `n` documents: a failed one counts them all, and its own error. */
  function RequestResult(n: nat, ok: bool, error: SyncError): SyncResult {
    if n == 0 then NO_RESULT else if ok then SyncResult(n, 0, None, []) else SyncResult(0, n + 1, None, [error])
  }

  function BatchResult(cfg: Config, out: Outages, name: string, upserts: seq<Json>, deletes: seq<string>): SyncResult {
    Merge(RequestResult(|upserts|, UpsertSucceeds(cfg, out, name, upserts), UpsertFailed),
          RequestResult(|deletes|, name !in out.deleteFails, DeleteFailed))
  }

  /** What index `name` adds to the result. */
  function IndexResult(cfg: Config, out: Outages, name: string, events: seq<Event>): SyncResult {
    var pk, routed := PrimaryKeyFor(cfg, name), Routed(RouterOf(cfg), name, events);
    var errors := Misread(pk, routed);
    var misread := SyncResult(0, |errors|, None, errors);
    if HasWork(cfg, name, events) then Merge(misread, BatchResult(cfg, out, name, Upserts(pk, routed), Deletes(pk, routed)))
    else misread
  }

  function IndexResults(cfg: Config, out: Outages, events: seq<Event>): string -> SyncResult {
    name => IndexResult(cfg, out, name, events)
  }

  /** The results of several indexes, in the order in which they were processed. */
  function MergeAll(results: string -> SyncResult, order: seq<string>): SyncResult {
    if order == [] then NO_RESULT else Merge(MergeAll(results, order[..|order| - 1]), results(order[|order| - 1]))
  }

  /** The result of the indexes `names`, processed in some order. */
  ghost predicate SumsUp(results: string -> SyncResult, names: set<string>, r: SyncResult) {
    exists order: seq<string> :: multiset(order) == multiset(names) && r == MergeAll(results, order)
  }

  lemma WithoutPosition(results: string -> SyncResult, order: seq<string>)
    ensures MergeAll(results, order).lastPosition.None?
  {
  }

  lemma {:induction false} NothingMisread(pk: Option<string>, events: seq<Event>)
    ensures Misread(pk, events) == [] <==> AllUnderstood(pk, events)
  {
    if events != [] {
      var n := |events| - 1;
      NothingMisread(pk, events[..n]);
      assert forall i | 0 <= i < n :: events[..n][i] == events[i];
    }
  }

  /** An index counts no failure exactly when nothing about it went wrong. */
  lemma CleanExactlyWhen(cfg: Config, out: Outages, name: string, events: seq<Event>)
    ensures IndexResult(cfg, out, name, events).failedCount == 0 <==> CleanFor(cfg, out, name, events)
  {
    NothingMisread(PrimaryKeyFor(cfg, name), Routed(RouterOf(cfg), name, events));
  }

  lemma {:induction false} NoFailureInAny(results: string -> SyncResult, order: seq<string>)
    ensures MergeAll(results, order).failedCount == 0 <==> forall i | 0 <= i < |order| :: results(order[i]).failedCount == 0
  {
    if order != [] {
      var n := |order| - 1;
      NoFailureInAny(results, order[..n]);
      assert forall i | 0 <= i < n :: order[..n][i] == order[i];
    }
  }

  /** So does a call, over all its indexes. */
  lemma NoFailureExactlyWhen(cfg: Config, out: Outages, events: seq<Event>, order: seq<string>)
    ensures MergeAll(IndexResults(cfg, out, events), order).failedCount == 0
       <==> forall i | 0 <= i < |order| :: CleanFor(cfg, out, order[i], events)
  {
    var results := IndexResults(cfg, out, events);
    NoFailureInAny(results, order);
    forall i | 0 <= i < |order|
      ensures results(order[i]).failedCount == 0 <==> CleanFor(cfg, out, order[i], events)
    {
      CleanExactlyWhen(cfg, out, order[i], events);
    }
  }

  /** Same counts, and the same errors in some order. */
  predicate SameTotals(a: SyncResult, b: SyncResult) {
    a.successCount == b.successCount && a.failedCount == b.failedCount && multiset(a.errors) == multiset(b.errors)
  }

  lemma MergeAllAppend(results: string -> SyncResult, order: seq<string>, name: string)
    ensures MergeAll(results, order + [name]) == Merge(MergeAll(results, order), results(name))
  {
    assert (order + [name])[..|order|] == order;
  }

  function TakenOut(order: seq<string>, i: nat): seq<string>
    requires i < |order|
  {
    order[..i] + order[i + 1..]
  }

  lemma TakenOutOfPrefix(order: seq<string>, i: nat)
    requires i < |order|
    ensures var n := |order| - 1;
            TakenOut(order, i) == if i < n then TakenOut(order[..n], i) + [order[n]] else order[..n]
  {
  }

  /** Moving one index to the end changes no total. */
  lemma {:induction false} MoveToEnd(results: string -> SyncResult, order: seq<string>, i: nat)
    requires i < |order|
    ensures SameTotals(MergeAll(results, order), Merge(MergeAll(results, TakenOut(order, i)), results(order[i])))
  {
    var n := |order| - 1;
    TakenOutOfPrefix(order, i);
    if i < n {
      var rest := TakenOut(order[..n], i);
      MoveToEnd(results, order[..n], i);
      MergeAllAppend(results, rest, order[n]);
      SwapsLast(MergeAll(results, order[..n]), MergeAll(results, rest), results(order[i]), results(order[n]));
    }
  }

  lemma SwapsLast(all: SyncResult, rest: SyncResult, x: SyncResult, y: SyncResult)
    requires SameTotals(all, Merge(rest, x))
    ensures SameTotals(Merge(all, y), Merge(Merge(rest, y), x))
  {
  }

  lemma WithoutOne(s: seq<string>, i: nat)
    requires i < |s|
    ensures multiset(TakenOut(s, i)) == multiset(s) - multiset{s[i]}
  {
    assert s == s[..i] + [s[i]] + s[i + 1..];
  }

  lemma SameTotalsMerge(a: SyncResult, b: SyncResult, x: SyncResult)
    requires SameTotals(a, b)
    ensures SameTotals(Merge(a, x), Merge(b, x))
  {
  }

  lemma TotalsStep(results: string -> SyncResult, a: seq<string>, b: seq<string>, i: nat)
    requires a != [] && i < |b| && b[i] == a[|a| - 1]
    requires SameTotals(MergeAll(results, a[..|a| - 1]), MergeAll(results, TakenOut(b, i)))
    ensures SameTotals(MergeAll(results, a), MergeAll(results, b))
  {
    var rest := TakenOut(b, i);
    MoveToEnd(results, b, i);
    SameTotalsMerge(MergeAll(results, a[..|a| - 1]), MergeAll(results, rest), results(b[i]));
  }

  lemma SameMultisetTakesOut(a: seq<string>, b: seq<string>) returns (i: nat)
    requires multiset(a) == multiset(b) && a != []
    ensures i < |b| && b[i] == a[|a| - 1] && multiset(a[..|a| - 1]) == multiset(TakenOut(b, i))
  {
    var n := |a| - 1;
    assert a[n] in multiset(a);
    i :| 0 <= i < |b| && b[i] == a[n];
    WithoutOne(a, n);
    TakenOutOfPrefix(a, n);
    WithoutOne(b, i);
  }

  /** The totals do not depend on the order in which the hash map gives the groups. */
  lemma {:induction false} TotalsIgnoreOrder(results: string -> SyncResult, a: seq<string>, b: seq<string>)
    requires multiset(a) == multiset(b)
    ensures SameTotals(MergeAll(results, a), MergeAll(results, b))
    decreases |a|
  {
    if a == [] {
      assert |multiset(b)| == 0;
    } else {
      var i := SameMultisetTakesOut(a, b);
      TotalsIgnoreOrder(results, a[..|a| - 1], TakenOut(b, i));
      TotalsStep(results, a, b, i);
    }
  }

  /** All indexes after index `name` has been brought up to date with `events`. */
  function ApplyGroup(cfg: Config, out: Outages, indexes: Indexes, name: string, events: seq<Event>): Indexes {
    var pk, routed := PrimaryKeyFor(cfg, name), Routed(RouterOf(cfg), name, events);
    if !HasWork(cfg, name, events) then indexes
    else indexes[name := AfterBatch(cfg, out, name, DocsOf(indexes, name), Upserts(pk, routed), Deletes(pk, routed))]
  }

  /** Two states of the service agree on one index. */
  predicate SameAt(a: Indexes, b: Indexes, name: string) {
    (name in a <==> name in b) && (name in a ==> a[name] == b[name])
  }

  /** The index can be opened, or need not be. */
  predicate Reachable(cfg: Config, out: Outages, name: string, events: seq<Event>) {
    HasWork(cfg, name, events) ==> name !in out.unavailable
  }

  /** All indexes after those of `order` have been brought up to date with `events`, one after the other. */
  function ApplyAll(cfg: Config, out: Outages, indexes: Indexes, events: seq<Event>, order: seq<string>): Indexes {
    if order == [] then indexes
    else ApplyGroup(cfg, out, ApplyAll(cfg, out, indexes, events, order[..|order| - 1]), order[|order| - 1], events)
  }

  lemma ApplyAllAppend(cfg: Config, out: Outages, indexes: Indexes, events: seq<Event>, order: seq<string>, name: string)
    ensures ApplyAll(cfg, out, indexes, events, order + [name])
         == ApplyGroup(cfg, out, ApplyAll(cfg, out, indexes, events, order), name, events)
  {
    assert (order + [name])[..|order|] == order;
  }

  /** An index depends on its own state only, and touches no other. */
  lemma ApplyGroupAt(cfg: Config, out: Outages, a: Indexes, b: Indexes, name: string, other: string, events: seq<Event>)
    requires SameAt(a, b, other)
    ensures other == name ==> SameAt(ApplyGroup(cfg, out, a, name, events), ApplyGroup(cfg, out, b, name, events), other)
    ensures other != name ==> SameAt(ApplyGroup(cfg, out, a, name, events), b, other)
  {
  }

  predicate AllReachable(cfg: Config, out: Outages, events: seq<Event>, order: seq<string>) {
    order == [] || (AllReachable(cfg, out, events, order[..|order| - 1]) && Reachable(cfg, out, order[|order| - 1], events))
  }

  lemma AllReachableAppend(cfg: Config, out: Outages, events: seq<Event>, order: seq<string>, name: string)
    ensures AllReachable(cfg, out, events, order + [name]) <==> AllReachable(cfg, out, events, order) && Reachable(cfg, out, name, events)
  {
    assert (order + [name])[..|order|] == order;
  }

  lemma {:induction false} AllReachableAt(cfg: Config, out: Outages, events: seq<Event>, order: seq<string>, name: string)
    requires AllReachable(cfg, out, events, order) && name in order
    ensures Reachable(cfg, out, name, events)
  {
    var n := |order| - 1;
    assert order == order[..n] + [order[n]];
    if name != order[n] {
      AllReachableAt(cfg, out, events, order[..n], name);
    }
  }

  ghost predicate Distinct(order: seq<string>) {
    forall i, j | 0 <= i < j < |order| :: order[i] != order[j]
  }

  /** So whatever the order, exactly the indexes in it are up to date, and the others as before. */
  lemma {:induction false} ApplyAllAt(cfg: Config, out: Outages, indexes: Indexes, events: seq<Event>, order: seq<string>, name: string)
    requires Distinct(order)
    ensures SameAt(ApplyAll(cfg, out, indexes, events, order),
                   if name in order then ApplyGroup(cfg, out, indexes, name, events) else indexes, name)
  {
    if order != [] {
      var n := |order| - 1;
      var before := ApplyAll(cfg, out, indexes, events, order[..n]);
      ApplyAllAt(cfg, out, indexes, events, order[..n], name);
      assert order == order[..n] + [order[n]];
      if name in order[..n] {
        ApplyGroupAt(cfg, out, before, ApplyGroup(cfg, out, indexes, name, events), order[n], name, events);
      } else {
        ApplyGroupAt(cfg, out, before, indexes, order[n], name, events);
      }
    }
  }

  /** Enumerating a set once each. */
  ghost predicate Enumerates(order: seq<string>, names: set<string>) {
    Distinct(order) && forall name :: name in order <==> name in names
  }

  lemma EnumeratesStep(order: seq<string>, names: set<string>, name: string)
    requires Enumerates(order, names) && name !in names
    ensures Enumerates(order + [name], names + {name})
  {
  }

  lemma {:induction false} EnumerationsAgree(a: seq<string>, names: set<string>)
    requires Enumerates(a, names)
    ensures multiset(a) == multiset(names)
  {
    if a == [] {
      assert names == {};
    } else {
      var n := |a| - 1;
      assert a == a[..n] + [a[n]];
      EnumerationsAgree(a[..n], names - {a[n]});
    }
  }

  function RouteNames(route: Router, events: seq<Event>): set<string> {
    set i | 0 <= i < |events| && route(events[i]).Some? :: route(events[i]).value
  }

  lemma RouteNamesStep(route: Router, events: seq<Event>, e: Event)
    ensures RouteNames(route, events + [e]) == RouteNames(route, events) + (if route(e).Some? then {route(e).value} else {})
  {
    var all := events + [e];
    forall name | name in RouteNames(route, events)
      ensures name in RouteNames(route, all)
    {
      var i :| 0 <= i < |events| && route(events[i]) == Some(name);
      assert all[i] == events[i];
    }
    assert all[|events|] == e;
  }

  /** Every index named by an event has its events, in order. */
  ghost predicate IsGrouping(route: Router, groups: map<string, seq<Event>>, events: seq<Event>) {
    && groups.Keys == RouteNames(route, events)
    && (forall name <- groups :: groups[name] == Routed(route, name, events))
    && (forall name | name !in groups :: Routed(route, name, events) == [])
  }

  function Appended(groups: map<string, seq<Event>>, name: string, e: Event): map<string, seq<Event>> {
    groups[name := (if name in groups then groups[name] else []) + [e]]
  }

  lemma GroupingStep(route: Router, groups: map<string, seq<Event>>, events: seq<Event>, e: Event)
    requires IsGrouping(route, groups, events)
    ensures IsGrouping(route, if route(e).Some? then Appended(groups, route(e).value, e) else groups, events + [e])
  {
    RouteNamesStep(route, events, e);
    assert (events + [e])[..|events|] == events;
  }

  /** The indexes `done` have been brought up to date one after the other in `order`, with this result so far. */
  ghost predicate Progress(cfg: Config, out: Outages, before: Indexes, now: Indexes, events: seq<Event>,
                           done: set<string>, order: seq<string>, result: SyncResult) {
    && Enumerates(order, done) && now == ApplyAll(cfg, out, before, events, order)
    && result == MergeAll(IndexResults(cfg, out, events), order)
    && AllReachable(cfg, out, events, order)
  }

  class Adapter {
    const cfg: Config
    const service: SearchService
    var batchProcessor: BatchProcessor

    constructor (service: SearchService)
      ensures this.cfg == service.cfg && this.service == service && fresh(batchProcessor)
    {
      this.cfg, this.service := service.cfg, service;
      batchProcessor := new BatchProcessor(service.cfg.primaryKey);
    }

    /** The request for all upserts, if there are any. */
    method WriteUpserts(name: string, documents: seq<Json>) returns (r: SyncResult)
      requires service.cfg == cfg && name in service.indexes
      modifies service
      ensures service.indexes == old(service.indexes)[name := AfterUpserts(cfg, service.out, name, old(service.indexes)[name], documents)]
      ensures r == RequestResult(|documents|, UpsertSucceeds(cfg, service.out, name, documents), UpsertFailed)
    {
      if documents == [] {
        return NO_RESULT;
      }
      var ok := service.AddDocuments(name, documents);
      r := if ok then SyncResult(|documents|, 0, None, []) else SyncResult(0, |documents| + 1, None, [UpsertFailed]);
    }

    /** The request for all deletes, if there are any. */
    method WriteDeletes(name: string, ids: seq<string>) returns (r: SyncResult)
      requires service.cfg == cfg && name in service.indexes
      modifies service
      ensures service.indexes == old(service.indexes)[name := AfterDeletes(service.out, name, old(service.indexes)[name], ids)]
      ensures r == RequestResult(|ids|, name !in service.out.deleteFails, DeleteFailed)
    {
      if ids == [] {
        assert service.indexes[name] - (set id | id in ids) == service.indexes[name];
        return NO_RESULT;
      }
      var ok := service.DeleteDocuments(name, ids);
      r := if ok then SyncResult(|ids|, 0, None, []) else SyncResult(0, |ids| + 1, None, [DeleteFailed]);
    }

    /** Both requests, the upserts first. */
    method WriteBoth(name: string, upserts: seq<Json>, deletes: seq<string>) returns (r: SyncResult)
      requires service.cfg == cfg && name in service.indexes
      modifies service
      ensures service.indexes ==
        old(service.indexes)[name := AfterBatch(cfg, service.out, name, old(service.indexes)[name], upserts, deletes)]
      ensures r == BatchResult(cfg, service.out, name, upserts, deletes)
    {
      var upserted := WriteUpserts(name, upserts);
      var deleted := WriteDeletes(name, deletes);
      r := Merge(upserted, deleted);
    }

    /** Writes the batch: one request for all upserts, then one for all deletes. */
    method ApplyBatch(name: string) returns (r: Result<SyncResult, SyncError>)
      requires service.cfg == cfg
      modifies service, batchProcessor
      ensures r.Ok? <==> old(batchProcessor.IsEmpty()) || name !in service.out.unavailable
      ensures service.indexes ==
        if r.Err? || old(batchProcessor.IsEmpty()) then old(service.indexes)
        else old(service.indexes)[name := AfterBatch(cfg, service.out, name, DocsOf(old(service.indexes), name),
                                                     old(batchProcessor.documentsToUpsert), old(batchProcessor.documentsToDelete))]
      ensures r.Ok? ==>
        && batchProcessor.IsEmpty()
        && r.value == if old(batchProcessor.IsEmpty()) then NO_RESULT
                      else BatchResult(cfg, service.out, name, old(batchProcessor.documentsToUpsert), old(batchProcessor.documentsToDelete))
    {
      if batchProcessor.IsEmpty() {
        return Ok(NO_RESULT);
      }
      var upserts, deletes := batchProcessor.documentsToUpsert, batchProcessor.documentsToDelete;
      ghost var before := service.indexes;
      var created :- service.GetOrCreateIndex(name);
      var written := WriteBoth(name, upserts, deletes);
      assert service.indexes == before[name := AfterBatch(cfg, service.out, name, DocsOf(before, name), upserts, deletes)];
      batchProcessor.Clear();
      r := Ok(written);
    }

    /** Splits one group into the batch processor, with the errors of the events that are not understood. */
    method FillBatch(group: seq<Event>, pk: Option<string>) returns (errors: seq<SyncError>)
      modifies this
      ensures fresh(batchProcessor) && batchProcessor.primaryKey == pk
      ensures batchProcessor.documentsToUpsert == Upserts(pk, group)
      ensures batchProcessor.documentsToDelete == Deletes(pk, group)
      ensures errors == Misread(pk, group)
    {
      batchProcessor := new BatchProcessor(pk);
      errors := [];
      for i := 0 to |group|
        invariant fresh(batchProcessor) && batchProcessor.primaryKey == pk
        invariant batchProcessor.documentsToUpsert == Upserts(pk, group[..i])
        invariant batchProcessor.documentsToDelete == Deletes(pk, group[..i])
        invariant errors == Misread(pk, group[..i])
      {
        assert group[..i + 1][..i] == group[..i];
        var r := batchProcessor.ProcessEvent(group[i]);
        if r.Err? {
          errors := errors + [r.error];
        }
      }
      assert group[..|group|] == group;
    }

    /** Groups the events by index, in order, and remembers the last position. */
    method GroupByIndex(events: seq<Event>) returns (groups: map<string, seq<Event>>, lastPosition: Option<Position>)
      ensures IsGrouping(RouterOf(cfg), groups, events)
      ensures lastPosition == LastPosition(events)
    {
      groups, lastPosition := map[], None;
      for i := 0 to |events|
        invariant IsGrouping(RouterOf(cfg), groups, events[..i])
        invariant lastPosition == LastPosition(events[..i])
      {
        var e := events[i];
        assert events[..i + 1][..i] == events[..i];
        GroupingStep(RouterOf(cfg), groups, events[..i], e);
        assert events[..i] + [e] == events[..i + 1];
        var route := Route(cfg, e);
        if route.None? {
          continue;
        }
        if e.Cdc? && e.cdc.position.Some? {
          lastPosition := e.cdc.position;
        }
        var name := route.value;
        groups := Appended(groups, name, e);
      }
      assert events[..|events|] == events;
    }

    /** Brings one index up to date with its group of events. */
    method ProcessGroup(name: string, ghost events: seq<Event>, group: seq<Event>) returns (r: Result<SyncResult, SyncError>)
      requires service.cfg == cfg && group == Routed(RouterOf(cfg), name, events)
      modifies this, service
      ensures r.Ok? <==> Reachable(cfg, service.out, name, events)
      ensures service.indexes == if r.Ok? then ApplyGroup(cfg, service.out, old(service.indexes), name, events)
                                 else old(service.indexes)
      ensures r.Ok? ==> r.value == IndexResult(cfg, service.out, name, events)
    {
      var pk := PrimaryKeyFor(cfg, name);
      var errors := FillBatch(group, pk);
      var misread := SyncResult(0, |errors|, None, errors);
      if batchProcessor.IsEmpty() {
        return Ok(misread);
      }
      var batch :- ApplyBatch(name);
      r := Ok(Merge(misread, batch));
    }

    /** One more group, `done` having gone through in `order` since the indexes were `before`. */
    method ProcessNext(name: string, group: seq<Event>, result: SyncResult, ghost events: seq<Event>, ghost before: Indexes,
                       ghost done: set<string>, ghost order: seq<string>)
      returns (r: Result<SyncResult, SyncError>)
      requires service.cfg == cfg && group == Routed(RouterOf(cfg), name, events)
      requires name !in done && Progress(cfg, service.out, before, service.indexes, events, done, order, result)
      modifies this, service
      ensures r.Ok? <==> Reachable(cfg, service.out, name, events)
      ensures r.Ok? ==> Progress(cfg, service.out, before, service.indexes, events, done + {name}, order + [name], r.value)
      ensures r.Err? ==> service.indexes == old(service.indexes)
    {
      ApplyAllAppend(cfg, service.out, before, events, order, name);
      MergeAllAppend(IndexResults(cfg, service.out, events), order, name);
      AllReachableAppend(cfg, service.out, events, order, name);
      EnumeratesStep(order, done, name);
      var batch :- ProcessGroup(name, events, group);
      r := Ok(Merge(result, batch));
    }

    /** The groups in whatever order the hash map gives them, up to the first that fails. */
    method ProcessGroups(groups: map<string, seq<Event>>, ghost events: seq<Event>)
      returns (failure: Option<SyncError>, result: SyncResult, ghost done: set<string>, ghost order: seq<string>)
      requires service.cfg == cfg
      requires forall name <- groups :: groups[name] == Routed(RouterOf(cfg), name, events)
      modifies this, service
      ensures Progress(cfg, service.out, old(service.indexes), service.indexes, events, done, order, result)
      ensures done <= groups.Keys && (failure.None? ==> done == groups.Keys)
      ensures failure.Some? ==> exists name :: name in groups && !Reachable(cfg, service.out, name, events)
    {
      failure, result, done, order := None, NO_RESULT, {}, [];
      var remaining := groups.Keys;
      while remaining != {}
        invariant remaining + done == groups.Keys && remaining !! done && failure.None?
        invariant Progress(cfg, service.out, old(service.indexes), service.indexes, events, done, order, result)
      {
        var name :| name in remaining;
        var next := ProcessNext(name, groups[name], result, events, old(service.indexes), done, order);
        if next.Err? {
          failure := Some(next.error);
          return;
        }
        result, done, order, remaining := next.value, done + {name}, order + [name], remaining - {name};
      }
    }

    /**
     Applies a batch of events, with one result whatever the group order. An unavailable index with work
     aborts the call: every index is then either up to date or as it was before.
     */
    method ProcessEvents(events: seq<Event>) returns (r: Result<SyncResult, SyncError>)
      requires service.cfg == cfg
      modifies this, service
      ensures r.Ok? <==> forall name <- RouteNames(RouterOf(cfg), events) :: Reachable(cfg, service.out, name, events)
      ensures r.Ok? ==> forall name ::
        SameAt(service.indexes, ApplyGroup(cfg, service.out, old(service.indexes), name, events), name)
      ensures r.Ok? ==> r.value.lastPosition == LastPosition(events)
      ensures r.Ok? ==> SumsUp(IndexResults(cfg, service.out, events), RouteNames(RouterOf(cfg), events), r.value.(lastPosition := None))
      ensures r.Err? ==> forall name ::
        || SameAt(service.indexes, old(service.indexes), name)
        || SameAt(service.indexes, ApplyGroup(cfg, service.out, old(service.indexes), name, events), name)
    {
      var groups, lastPosition := GroupByIndex(events);
      var failure, result, done, order := ProcessGroups(groups, events);
      forall name
        ensures SameAt(service.indexes, if name in order then ApplyGroup(cfg, service.out, old(service.indexes), name, events)
                                        else old(service.indexes), name)
      {
        ApplyAllAt(cfg, service.out, old(service.indexes), events, order, name);
      }
      if failure.Some? {
        return Err(failure.value);
      }
      forall name <- groups
        ensures Reachable(cfg, service.out, name, events)
      {
        AllReachableAt(cfg, service.out, events, order, name);
      }
      r := Ok(result.(lastPosition := lastPosition));
      EnumerationsAgree(order, done);
      WithoutPosition(IndexResults(cfg, service.out, events), order);
    }
  }

  // ----- from events to operations, for one index and for all of them

  /** The operation of one event on the index it is routed to. */
  function OpOf(cfg: Config, name: string, e: Event): Option<Op> {
    match RequestOf(PrimaryKeyFor(cfg, name), e)
    case Ok(ToUpsert(d)) => if cfg.idOf(name, d).Some? then Some(Put(cfg.idOf(name, d).value, d)) else None
    case Ok(ToDelete(id)) => Some(Remove(id))
    case _ => None
  }

  function OpsOf(cfg: Config, name: string, events: seq<Event>): seq<Op> {
    if events == [] then []
    else
      var n := |events| - 1;
      var before := OpsOf(cfg, name, events[..n]);
      var op := OpOf(cfg, name, events[n]);
      if op.Some? then before + [op.value] else before
  }

  /** Every event on its own, in arrival order, across all indexes. */
  function OneByOne(cfg: Config, indexes: Indexes, events: seq<Event>): Indexes {
    if events == [] then indexes
    else
      var n := |events| - 1;
      var before := OneByOne(cfg, indexes, events[..n]);
      var route := RouterOf(cfg)(events[n]);
      if route.None? || OpOf(cfg, route.value, events[n]).None? then before
      else before[route.value := Apply(DocsOf(before, route.value), OpOf(cfg, route.value, events[n]).value)]
  }

  lemma OneMoreEvent(cfg: Config, docs: Docs, name: string, events: seq<Event>, e: Event)
    ensures var op := OpOf(cfg, name, e);
            var before := Sequential(docs, OpsOf(cfg, name, events));
            Sequential(docs, OpsOf(cfg, name, events + [e])) == if op.Some? then Apply(before, op.value) else before
  {
  }

  /** Index by index, the interleaved history is the history of that index's own events. */
  lemma {:induction false} OneByOnePerIndex(cfg: Config, indexes: Indexes, events: seq<Event>, name: string)
    ensures DocsOf(OneByOne(cfg, indexes, events), name)
         == Sequential(DocsOf(indexes, name), OpsOf(cfg, name, Routed(RouterOf(cfg), name, events)))
  {
    if events != [] {
      var n := |events| - 1;
      OneByOnePerIndex(cfg, indexes, events[..n], name);
      var routed := Routed(RouterOf(cfg), name, events[..n]);
      if RouterOf(cfg)(events[n]) == Some(name) {
        OneMoreEvent(cfg, DocsOf(indexes, name), name, routed, events[n]);
      }
    }
  }

  lemma {:induction false} DeletesAreRemoved(cfg: Config, name: string, events: seq<Event>)
    ensures (set id | id in Deletes(PrimaryKeyFor(cfg, name), events)) == Removed(OpsOf(cfg, name, events))
  {
    if events != [] {
      var n := |events| - 1;
      DeletesAreRemoved(cfg, name, events[..n]);
      OpsOfStep(cfg, name, events);
      var ops, all := OpsOf(cfg, name, events[..n]), OpsOf(cfg, name, events);
      if all != ops {
        assert all[..|ops|] == ops;
        RemovedStep(all);
      }
    }
  }

  lemma OpsOfStep(cfg: Config, name: string, events: seq<Event>)
    requires events != []
    ensures var op := OpOf(cfg, name, events[|events| - 1]);
            OpsOf(cfg, name, events) == OpsOf(cfg, name, events[..|events| - 1]) + (if op.Some? then [op.value] else [])
  {
  }

  lemma AddAllSnoc(cfg: Config, name: string, docs: Docs, documents: seq<Json>, d: Json)
    requires HaveIds(cfg, name, documents + [d])
    ensures HaveIds(cfg, name, documents) && cfg.idOf(name, d).Some?
    ensures AddAll(cfg, name, docs, documents + [d]) == AddAll(cfg, name, docs, documents)[cfg.idOf(name, d).value := d]
  {
    var more := documents + [d];
    assert more[|documents|] == d && more[..|documents|] == documents;
    forall i | 0 <= i < |documents|
      ensures cfg.idOf(name, documents[i]).Some?
    {
      assert more[i] == documents[i];
    }
  }

  lemma PutsSnoc(docs: Docs, ops: seq<Op>, op: Op)
    ensures Puts(docs, ops + [op]) == if op.Put? then Apply(Puts(docs, ops), op) else Puts(docs, ops)
  {
  }

  lemma {:induction false} UpsertsArePuts(cfg: Config, name: string, docs: Docs, events: seq<Event>)
    requires HaveIds(cfg, name, Upserts(PrimaryKeyFor(cfg, name), events))
    ensures AddAll(cfg, name, docs, Upserts(PrimaryKeyFor(cfg, name), events)) == Puts(docs, OpsOf(cfg, name, events))
  {
    if events != [] {
      var n := |events| - 1;
      var pk := PrimaryKeyFor(cfg, name);
      var ups, ops := Upserts(pk, events[..n]), OpsOf(cfg, name, events[..n]);
      match RequestOf(pk, events[n])
      case Ok(ToUpsert(d)) =>
        AddAllSnoc(cfg, name, docs, ups, d);
        UpsertsArePuts(cfg, name, docs, events[..n]);
        PutsSnoc(docs, ops, Put(cfg.idOf(name, d).value, d));
      case Ok(ToDelete(id)) =>
        UpsertsArePuts(cfg, name, docs, events[..n]);
        PutsSnoc(docs, ops, Remove(id));
      case _ =>
        UpsertsArePuts(cfg, name, docs, events[..n]);
    }
  }

  /**
   The meaning of one batch, with the writes of the index succeeding: it ends as if all events had been applied
   one by one in arrival order, minus the ids deleted anywhere in its group; so it ends exactly so just when
   the last operation on each such id is its removal.
   */
  lemma {:induction false} BatchMeansOneByOne(cfg: Config, out: Outages, indexes: Indexes, events: seq<Event>, name: string)
    requires var pk, routed := PrimaryKeyFor(cfg, name), Routed(RouterOf(cfg), name, events);
             WritesSucceed(cfg, out, name, Upserts(pk, routed), Deletes(pk, routed))
    ensures var ops := OpsOf(cfg, name, Routed(RouterOf(cfg), name, events));
            var after := DocsOf(ApplyGroup(cfg, out, indexes, name, events), name);
            var oneByOne := DocsOf(OneByOne(cfg, indexes, events), name);
            && after == oneByOne - Removed(ops)
            && (after == oneByOne <==> forall id <- Removed(ops) :: EndsRemoved(ops, id))
  {
    var pk, routed := PrimaryKeyFor(cfg, name), Routed(RouterOf(cfg), name, events);
    var docs := DocsOf(indexes, name);
    var ops := OpsOf(cfg, name, routed);
    UpsertsArePuts(cfg, name, docs, routed);
    DeletesAreRemoved(cfg, name, routed);
    OneByOnePerIndex(cfg, indexes, events, name);
    BatchedIsSequentialMinusRemoved(docs, ops);
    BatchedExactWhen(docs, ops);
    assert AfterBatch(cfg, out, name, docs, Upserts(pk, routed), Deletes(pk, routed)) == Batched(docs, ops) by {
      if Deletes(pk, routed) == [] {
        assert Removed(ops) == {};
        assert Puts(docs, ops) - {} == Puts(docs, ops);
      }
      if Upserts(pk, routed) == [] {
        assert AddAll(cfg, name, docs, Upserts(pk, routed)) == docs;
      }
    }
    if !HasWork(cfg, name, events) {
      assert Batched(docs, ops) == docs;
    }
  }

  // ----- a document deleted and created again in one batch

  function IdField(name: string, document: Json): Option<string> {
    if document.JObject? && "id" in document.fields && document.fields["id"].JString? then Some(document.fields["id"].s) else None
  }

  function Change(eventType: EventType): Event {
    Cdc(CdcEvent(eventType, "t", "s", map["id" := JString("1")], None))
  }

  lemma RoutedPair(route: Router, name: string, a: Event, b: Event)
    requires route(a) == Some(name) && route(b) == Some(name)
    ensures Routed(route, name, [a, b]) == [a, b]
  {
    assert [a, b][..1] == [a] && [a][..0] == [];
    assert Routed(route, name, [a]) == [a];
  }

  lemma UpsertsPair(pk: Option<string>, a: Event, b: Event, document: Json)
    requires RequestOf(pk, a).Ok? && RequestOf(pk, a).value.ToDelete? && RequestOf(pk, b) == Ok(ToUpsert(document))
    ensures Upserts(pk, [a, b]) == [document]
  {
    assert [a, b][..1] == [a] && [a][..0] == [];
    assert Upserts(pk, [a]) == [];
    assert Upserts(pk, [a, b]) == [] + [document];
  }

  lemma OpsOfPair(cfg: Config, name: string, a: Event, b: Event)
    requires OpOf(cfg, name, a).Some? && OpOf(cfg, name, b).Some?
    ensures OpsOf(cfg, name, [a, b]) == [OpOf(cfg, name, a).value, OpOf(cfg, name, b).value]
  {
    assert [a, b][..1] == [a] && [a][..0] == [];
    OpsOfStep(cfg, name, [a]);
    OpsOfStep(cfg, name, [a, b]);
  }

  lemma RemoveThenPut(id: string, document: Json)
    ensures Sequential(map[], [Remove(id), Put(id, document)]) == map[id := document]
    ensures Removed([Remove(id), Put(id, document)]) == {id}
  {
    var ops := [Remove(id), Put(id, document)];
    assert ops[..1] == [Remove(id)] && ops[..1][..0] == [];
    assert Sequential(map[], ops[..1]) == map[];
    assert ops[0] == Remove(id);
  }

  /** One by one it is there afterwards; batched it is gone. */
  lemma DeleteThenCreateIsLost()
    ensures var cfg := Config(map[], map[], Some("id"), IdField);
            var events := [Change(Delete), Change(Create)];
            && DocsOf(OneByOne(cfg, map[], events), "t") == map["1" := JObject(map["id" := JString("1")])]
            && DocsOf(ApplyGroup(cfg, Outages({}, {}, {}), map[], "t", events), "t") == map[]
  {
    var cfg := Config(map[], map[], Some("id"), IdField);
    var a, b := Change(Delete), Change(Create);
    var pk := PrimaryKeyFor(cfg, "t");
    var document := JObject(map["id" := JString("1")]);
    assert RouterOf(cfg)(a) == Some("t") && RouterOf(cfg)(b) == Some("t");
    RoutedPair(RouterOf(cfg), "t", a, b);
    assert RequestOf(pk, a) == Ok(ToDelete("1")) && RequestOf(pk, b) == Ok(ToUpsert(document));
    UpsertsPair(pk, a, b, document);
    OpsOfPair(cfg, "t", a, b);
    RemoveThenPut("1", document);
    OneByOnePerIndex(cfg, map[], [a, b], "t");
    BatchMeansOneByOne(cfg, Outages({}, {}, {}), map[], [a, b], "t");
  }
}
