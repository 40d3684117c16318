/**
 The algebra behind batched writes: a list of puts and removals of documents,
 applied one by one or as all puts followed by all removals.
 */
module BatchedWrites {
  import opened Events

  /** The documents of one index, by id. */
  type Docs = map<string, Json>

  datatype Op = Put(id: string, document: Json) | Remove(id: string)

  function Apply(docs: Docs, op: Op): Docs {
    match op
    case Put(id, document) => docs[id := document]
    case Remove(id) => docs - {id}
  }

  /** The operations one by one, in order. */
  function Sequential(docs: Docs, ops: seq<Op>): Docs {
    if ops == [] then docs else Apply(Sequential(docs, ops[..|ops| - 1]), ops[|ops| - 1])
  }

  /** Only the puts, in order. */
  function Puts(docs: Docs, ops: seq<Op>): Docs {
    if ops == [] then docs
    else
      var before := Puts(docs, ops[..|ops| - 1]);
      if ops[|ops| - 1].Put? then Apply(before, ops[|ops| - 1]) else before
  }

  function Removed(ops: seq<Op>): set<string> {
    set i | 0 <= i < |ops| && ops[i].Remove? :: ops[i].id
  }

  /** All puts in order, then all removals. */
  function Batched(docs: Docs, ops: seq<Op>): Docs {
    Puts(docs, ops) - Removed(ops)
  }

  /** The last operation on `id` is its removal. */
  ghost predicate EndsRemoved(ops: seq<Op>, id: string) {
    exists i :: 0 <= i < |ops| && ops[i] == Remove(id) && forall j | i < j < |ops| :: ops[j].id != id
  }

  lemma RemovedStep(ops: seq<Op>)
    requires ops != []
    ensures var n := |ops| - 1;
            Removed(ops) == Removed(ops[..n]) + (if ops[n].Remove? then {ops[n].id} else {})
  {
  }

  lemma EndsRemovedStep(ops: seq<Op>, id: string)
    requires ops != []
    ensures var n := |ops| - 1;
            EndsRemoved(ops, id) <==> (if ops[n].id == id then ops[n].Remove? else EndsRemoved(ops[..n], id))
  {
  }

  lemma PutOutside(docs: Docs, removed: set<string>, id: string, document: Json)
    ensures docs[id := document] - removed
         == if id in removed then docs - removed else (docs - removed)[id := document]
  {
  }

  /** Batching equals applying one by one, minus every id removed anywhere in the batch. */
  lemma {:induction false} BatchedIsSequentialMinusRemoved(docs: Docs, ops: seq<Op>)
    ensures Batched(docs, ops) == Sequential(docs, ops) - Removed(ops)
  {
    if ops != [] {
      var n := |ops| - 1;
      var puts, all, removed := Puts(docs, ops[..n]), Sequential(docs, ops[..n]), Removed(ops[..n]);
      RemovedStep(ops);
      BatchedIsSequentialMinusRemoved(docs, ops[..n]);
      match ops[n]
      case Put(id, document) =>
        PutOutside(puts, removed, id, document);
        PutOutside(all, removed, id, document);
        assert Removed(ops) == removed;
      case Remove(id) =>
        assert puts - (removed + {id}) == (puts - removed) - {id};
        assert (all - {id}) - (removed + {id}) == (all - removed) - {id};
    }
  }

  lemma {:induction false} RemovedLast(docs: Docs, ops: seq<Op>, id: string)
    requires id in Removed(ops)
    ensures id in Sequential(docs, ops) <==> !EndsRemoved(ops, id)
  {
    var n := |ops| - 1;
    RemovedStep(ops);
    EndsRemovedStep(ops, id);
    if ops[n].id != id {
      RemovedLast(docs, ops[..n], id);
    }
  }

  /** Hence batching is exact just when the last operation on every removed id is its removal. */
  lemma BatchedExactWhen(docs: Docs, ops: seq<Op>)
    ensures Batched(docs, ops) == Sequential(docs, ops) <==> forall id <- Removed(ops) :: EndsRemoved(ops, id)
  {
    BatchedIsSequentialMinusRemoved(docs, ops);
    forall id <- Removed(ops)
      ensures id in Sequential(docs, ops) <==> !EndsRemoved(ops, id)
    {
      RemovedLast(docs, ops, id);
    }
    var s, d := Sequential(docs, ops), Removed(ops);
    if s - d == s {
      forall id <- d ensures id !in s { assert id !in s - d; }
    }
  }
}
