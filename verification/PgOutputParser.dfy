/**
 The parser of src/source/postgres/pgoutput.rs: a cursor over the payload, one
 method per message type, and the cache of announced relations. Every method is
 proved to compute what `PgOutputMessages` says.
 */
module PgOutputParser {
  import opened Wrappers
  import opened PgOutputFormat
  import opened PgOutputMessages

  /** `r` and the bytes left over are what the reader `spec` gives. */
  ghost predicate Reads<T>(r: Result<T, ParseError>, rest: Bytes, spec: Parsed<T>) {
    match spec
    case Fail(e) => r == Err(e)
    case Took(v, s) => r == Ok(v) && rest == s
  }

  /** Having read `done`, the reader `whole` goes on as `remaining`. */
  ghost predicate Continues<T>(whole: Parsed<seq<T>>, done: seq<T>, remaining: Parsed<seq<T>>) {
    match remaining
    case Fail(e) => whole == Fail(e)
    case Took(vs, s) => whole == Took(done + vs, s)
  }

  lemma Starts<T>(whole: Parsed<seq<T>>)
    ensures Continues(whole, [], whole)
  {
    if whole.Took? {
      assert [] + whole.value == whole.value;
    }
  }

  /** One more value has been read. */
  lemma Advances<T>(whole: Parsed<seq<T>>, done: seq<T>, v: T, before: Parsed<seq<T>>, after: Parsed<seq<T>>)
    requires Continues(whole, done, before)
    requires before == match after case Fail(e) => Fail(e) case Took(vs, s) => Took([v] + vs, s)
    ensures Continues(whole, done + [v], after)
  {
    if after.Took? {
      assert done + ([v] + after.value) == done + [v] + after.value;
    }
  }

  lemma Finishes<T>(whole: Parsed<seq<T>>, done: seq<T>, rest: Bytes)
    requires Continues(whole, done, Took([], rest))
    ensures whole == Took(done, rest)
  {
    assert done + [] == done;
  }

  lemma FirstByte(s: Bytes)
    requires s != []
    ensures TakeUnsigned(1, s) == Took(s[0], s[1..])
  {
    assert s[..1] == [s[0]];
    assert FromBigEndian(s[..1]) == 256 * FromBigEndian([]) + s[0];
  }

  /** The tagged tuples of an update, one at a time. */
  lemma TakePartsStep(s: Bytes)
    requires s != []
    ensures TakeParts(s)
         == match TakeTagged({TAG_NEW, TAG_OLD, TAG_KEY}, s)
            case Fail(e) => Fail(e)
            case Took(part, s1) => match TakeParts(s1) case Fail(e) => Fail(e) case Took(ps, s2) => Took([part] + ps, s2)
    ensures TakeTagged({TAG_NEW, TAG_OLD, TAG_KEY}, s).Took? ==> |TakeTagged({TAG_NEW, TAG_OLD, TAG_KEY}, s).rest| < |s|
  {
    if TakeTuple(s[1..]).Took? {
      PutTakeTuple(s[1..]);
    }
  }

  class Cursor {
    const data: Bytes
    var position: nat

    ghost predicate Valid()
      reads this
    {
      position <= |data|
    }

    ghost function Rest(): Bytes
      requires Valid()
      reads this
    {
      data[position..]
    }

    constructor (data: Bytes)
      ensures Valid() && Rest() == data
    {
      this.data := data;
      position := 0;
    }

    method ReadUnsigned(w: nat) returns (r: Result<nat, ParseError>)
      requires Valid()
      modifies this
      ensures Valid() && Reads(r, Rest(), TakeUnsigned(w, old(Rest())))
    {
      if |data| - position < w {
        return Err(UnexpectedEof);
      }
      assert data[position..][..w] == data[position..position + w];
      r := Ok(FromBigEndian(data[position..position + w]));
      position := position + w;
    }

    method ReadSigned(w: nat) returns (r: Result<int, ParseError>)
      requires Valid()
      modifies this
      ensures Valid() && Reads(r, Rest(), TakeSigned(w, old(Rest())))
    {
      var u :- ReadUnsigned(w);
      r := Ok(Signed(w, u));
    }

    method ReadExact(n: nat) returns (r: Result<Bytes, ParseError>)
      requires Valid()
      modifies this
      ensures Valid()
      ensures if |old(Rest())| < n then r == Err(UnexpectedEof)
              else r == Ok(old(Rest())[..n]) && Rest() == old(Rest())[n..]
    {
      if |data| - position < n {
        return Err(UnexpectedEof);
      }
      r := Ok(data[position..][..n]);
      position := position + n;
    }

    method ReadString() returns (r: Result<Bytes, ParseError>)
      requires Valid()
      modifies this
      ensures Valid() && Reads(r, Rest(), TakeName(old(Rest())))
    {
      var bytes: Bytes := [];
      ghost var whole := TakeUntilNul(Rest());
      Starts(whole);
      while true
        invariant Valid()
        invariant Continues(whole, bytes, TakeUntilNul(Rest()))
        decreases |data| - position
      {
        ghost var before := Rest();
        if before != [] { FirstByte(before); }
        var b :- ReadUnsigned(1);
        if b == 0 {
          Finishes(whole, bytes, Rest());
          break;
        }
        Advances(whole, bytes, before[0], TakeUntilNul(before), TakeUntilNul(Rest()));
        bytes := bytes + [b];
      }
      if !ValidUtf8(bytes) {
        return Err(InvalidUtf8);
      }
      r := Ok(bytes);
    }
  }

  class PgOutputParser {
    var relations: RelationCache

    constructor ()
      ensures relations == map[]
    {
      relations := map[];
    }

    method ParseMessage(data: Bytes) returns (r: Result<Option<PgOutputMessage>, ParseError>)
      modifies this
      ensures r == Parse(data)
      ensures relations == Remember(old(relations), Announced(data))
    {
      if data == [] {
        return Ok(None);
      }
      var msgType, payload := data[0], data[1..];
      var m: PgOutputMessage;
      match msgType as char {
        case 'B' => m :- ParseBegin(payload);
        case 'C' => m :- ParseCommit(payload);
        case 'O' => m :- ParseOrigin(payload);
        case 'R' =>
          m :- ParseRelation(payload);
          relations := relations[m.relation.relationId := m.relation];
        case 'Y' => m :- ParseType(payload);
        case 'I' => m :- ParseInsert(payload);
        case 'U' => m :- ParseUpdate(payload);
        case 'D' => m :- ParseDelete(payload);
        case 'T' => m :- ParseTruncate(payload);
        case 'k' => m :- ParseKeepalive(payload);
        case _ => return Ok(None);
      }
      r := Ok(Some(m));
    }

    method ParseBegin(payload: Bytes) returns (r: Result<PgOutputMessage, ParseError>)
      ensures r == Reported('B' as int, payload)
    {
      var cursor := new Cursor(payload);
      var finalLsn :- cursor.ReadUnsigned(8);
      var timestamp :- cursor.ReadSigned(8);
      var xid :- cursor.ReadUnsigned(4);
      r := Ok(Begin(finalLsn, timestamp, xid));
    }

    method ParseCommit(payload: Bytes) returns (r: Result<PgOutputMessage, ParseError>)
      ensures r == Reported('C' as int, payload)
    {
      var cursor := new Cursor(payload);
      var flags :- cursor.ReadUnsigned(1);
      var commitLsn :- cursor.ReadUnsigned(8);
      var endLsn :- cursor.ReadUnsigned(8);
      var timestamp :- cursor.ReadSigned(8);
      r := Ok(Commit(flags, commitLsn, endLsn, timestamp));
    }

    method ParseOrigin(payload: Bytes) returns (r: Result<PgOutputMessage, ParseError>)
      ensures r == Reported('O' as int, payload)
    {
      var cursor := new Cursor(payload);
      var commitLsn :- cursor.ReadUnsigned(8);
      var name :- cursor.ReadString();
      r := Ok(Origin(commitLsn, name));
    }

    method ParseRelation(payload: Bytes) returns (r: Result<PgOutputMessage, ParseError>)
      ensures r == Reported('R' as int, payload)
      ensures r.Ok? ==> r.value.Relation?
    {
      var cursor := new Cursor(payload);
      var relation :- ParseRelationFields(cursor);
      r := Ok(Relation(relation));
    }

    /** The fields of a relation message. */
    method ParseRelationFields(cursor: Cursor) returns (r: Result<RelationMessage, ParseError>)
      requires cursor.Valid()
      modifies cursor
      ensures cursor.Valid() && Reads(r, cursor.Rest(), TakeRelation(old(cursor.Rest())))
    {
      var relationId :- cursor.ReadUnsigned(4);
      var namespace :- cursor.ReadString();
      var relationName :- cursor.ReadString();
      var replicaIdentity :- cursor.ReadUnsigned(1);
      var columnCount :- cursor.ReadUnsigned(2);
      var columns :- ParseColumns(cursor, columnCount);
      r := Ok(RelationMessage(relationId, namespace, relationName, replicaIdentity, columns));
    }

    /** The column loop of `ParseRelation`. */
    method ParseColumns(cursor: Cursor, columnCount: nat) returns (r: Result<seq<Column>, ParseError>)
      requires cursor.Valid()
      modifies cursor
      ensures cursor.Valid() && Reads(r, cursor.Rest(), TakeColumns(columnCount, old(cursor.Rest())))
    {
      var columns: seq<Column> := [];
      ghost var whole := TakeColumns(columnCount, cursor.Rest());
      Starts(whole);
      for i := 0 to columnCount
        invariant cursor.Valid()
        invariant Continues(whole, columns, TakeColumns(columnCount - i, cursor.Rest()))
      {
        ghost var before := TakeColumns(columnCount - i, cursor.Rest());
        var column :- ParseColumn(cursor);
        Advances(whole, columns, column, before, TakeColumns(columnCount - i - 1, cursor.Rest()));
        columns := columns + [column];
      }
      Finishes(whole, columns, cursor.Rest());
      r := Ok(columns);
    }

    /** The body of the column loop: one column. */
    method ParseColumn(cursor: Cursor) returns (r: Result<Column, ParseError>)
      requires cursor.Valid()
      modifies cursor
      ensures cursor.Valid() && Reads(r, cursor.Rest(), TakeColumn(old(cursor.Rest())))
    {
      var flags :- cursor.ReadUnsigned(1);
      var name :- cursor.ReadString();
      var typeId :- cursor.ReadUnsigned(4);
      var typeModifier :- cursor.ReadSigned(4);
      r := Ok(Column(flags, name, typeId, typeModifier));
    }

    method ParseType(payload: Bytes) returns (r: Result<PgOutputMessage, ParseError>)
      ensures r == Reported('Y' as int, payload)
    {
      var cursor := new Cursor(payload);
      var typeId :- cursor.ReadUnsigned(4);
      var namespace :- cursor.ReadString();
      var name :- cursor.ReadString();
      r := Ok(Type(typeId, namespace, name));
    }

    method ParseInsert(payload: Bytes) returns (r: Result<PgOutputMessage, ParseError>)
      ensures r == Reported('I' as int, payload)
    {
      var cursor := new Cursor(payload);
      var relationId :- cursor.ReadUnsigned(4);
      if cursor.Rest() != [] { FirstByte(cursor.Rest()); }
      var tupleType :- cursor.ReadUnsigned(1);
      if tupleType != TAG_NEW {
        return Err(UnexpectedTag);
      }
      var tuple :- ParseTupleData(cursor);
      r := Ok(Insert(relationId, tuple));
    }

    method ParseUpdate(payload: Bytes) returns (r: Result<PgOutputMessage, ParseError>)
      ensures r == Reported('U' as int, payload)
    {
      var cursor := new Cursor(payload);
      var relationId :- cursor.ReadUnsigned(4);

      var tuples :- ParseParts(cursor);
      if tuples.1.None? {
        return Err(MissingNewTuple);
      }
      r := Ok(Update(relationId, tuples.0, tuples.1.value));
    }

    /** The loop of `ParseUpdate`: the last old and the last new tuple. */
    method ParseParts(cursor: Cursor) returns (r: Result<(Option<TupleData>, Option<TupleData>), ParseError>)
      requires cursor.Valid()
      modifies cursor
      ensures match TakeParts(old(cursor.Rest()))
              case Fail(e) => r == Err(e)
              case Took(parts, _) => r == Ok((LastOld(parts), LastNew(parts)))
    {
      var oldTuple: Option<TupleData> := None;
      var newTuple: Option<TupleData> := None;
      ghost var parts: seq<TaggedTuple> := [];
      ghost var whole := TakeParts(cursor.Rest());
      Starts(whole);
      while cursor.position < |cursor.data|
        invariant cursor.Valid()
        invariant oldTuple == LastOld(parts) && newTuple == LastNew(parts)
        invariant Continues(whole, parts, TakeParts(cursor.Rest()))
        decreases |cursor.Rest()|
      {
        ghost var before := cursor.Rest();
        TakePartsStep(before);
        var tagged :- ParsePart(cursor);
        if tagged.0 == TAG_NEW {
          newTuple := Some(tagged.1);
        } else {
          oldTuple := Some(tagged.1);
        }
        ghost var part := TakeTagged({TAG_NEW, TAG_OLD, TAG_KEY}, before).value;
        assert (parts + [part])[..|parts|] == parts;
        Advances(whole, parts, part, TakeParts(before), TakeParts(cursor.Rest()));
        parts := parts + [part];
      }
      Finishes(whole, parts, cursor.Rest());
      r := Ok((oldTuple, newTuple));
    }

    /** The body of that loop: the tag of one tuple, and the tuple. */
    method ParsePart(cursor: Cursor) returns (r: Result<(nat, TupleData), ParseError>)
      requires cursor.Valid()
      modifies cursor
      ensures cursor.Valid()
      ensures match TakeTagged({TAG_NEW, TAG_OLD, TAG_KEY}, old(cursor.Rest()))
              case Fail(e) => r == Err(e)
              case Took(part, s) => r == Ok((part.tag, Tuple(part.tuple))) && cursor.Rest() == s
    {
      if cursor.Rest() != [] { FirstByte(cursor.Rest()); }
      var tupleType :- cursor.ReadUnsigned(1);
      if tupleType != TAG_OLD && tupleType != TAG_KEY && tupleType != TAG_NEW {
        return Err(UnexpectedTag);
      }
      var tuple :- ParseTupleData(cursor);
      r := Ok((tupleType, tuple));
    }

    method ParseDelete(payload: Bytes) returns (r: Result<PgOutputMessage, ParseError>)
      ensures r == Reported('D' as int, payload)
    {
      var cursor := new Cursor(payload);
      var relationId :- cursor.ReadUnsigned(4);
      if cursor.Rest() != [] { FirstByte(cursor.Rest()); }
      var tupleType :- cursor.ReadUnsigned(1);
      if tupleType != TAG_OLD && tupleType != TAG_KEY {
        return Err(UnexpectedTag);
      }
      var deleted :- ParseTupleData(cursor);
      r := Ok(Delete(relationId, deleted));
    }

    method ParseTruncate(payload: Bytes) returns (r: Result<PgOutputMessage, ParseError>)
      ensures r == Reported('T' as int, payload)
    {
      var cursor := new Cursor(payload);
      var relationCount :- cursor.ReadUnsigned(4);
      var options :- cursor.ReadUnsigned(1);

      var relationIds: seq<nat> := [];
      ghost var whole := TakeIds(relationCount, cursor.Rest());
      Starts(whole);
      for i := 0 to relationCount
        invariant cursor.Valid() && |relationIds| == i
        invariant Continues(whole, relationIds, TakeIds(relationCount - i, cursor.Rest()))
      {
        ghost var before := TakeIds(relationCount - i, cursor.Rest());
        var id :- cursor.ReadUnsigned(4);
        Advances(whole, relationIds, id, before, TakeIds(relationCount - i - 1, cursor.Rest()));
        relationIds := relationIds + [id];
      }
      Finishes(whole, relationIds, cursor.Rest());
      r := Ok(Truncate(relationCount, options, relationIds));
    }

    method ParseKeepalive(payload: Bytes) returns (r: Result<PgOutputMessage, ParseError>)
      ensures r == Reported('k' as int, payload)
    {
      var cursor := new Cursor(payload);
      var walEnd :- cursor.ReadUnsigned(8);
      var timestamp :- cursor.ReadSigned(8);
      var reply :- cursor.ReadUnsigned(1);
      r := Ok(Keepalive(walEnd, timestamp, reply != 0));
    }

    method ParseTupleData(cursor: Cursor) returns (r: Result<TupleData, ParseError>)
      requires cursor.Valid()
      modifies cursor
      ensures cursor.Valid()
      ensures match TakeTuple(old(cursor.Rest()))
              case Fail(e) => r == Err(e)
              case Took(t, s) => r == Ok(Tuple(t)) && cursor.Rest() == s
    {
      var columnCount :- cursor.ReadUnsigned(2);
      r := ParseTupleColumns(cursor, columnCount);
    }

    /** The loop of `ParseTupleData`. */
    method ParseTupleColumns(cursor: Cursor, columnCount: nat) returns (r: Result<TupleData, ParseError>)
      requires cursor.Valid()
      modifies cursor
      ensures cursor.Valid()
      ensures match TakeWireColumns(columnCount, old(cursor.Rest()))
              case Fail(e) => r == Err(e)
              case Took(t, s) => r == Ok(Tuple(t)) && cursor.Rest() == s
    {
      var columns: TupleData := [];
      ghost var wire: WireTuple := [];
      ghost var whole := TakeWireColumns(columnCount, cursor.Rest());
      Starts(whole);
      for i := 0 to columnCount
        invariant cursor.Valid()
        invariant columns == Tuple(wire)
        invariant Continues(whole, wire, TakeWireColumns(columnCount - i, cursor.Rest()))
      {
        ghost var before := cursor.Rest();
        var column :- ParseColumnData(cursor);
        ghost var c := TakeWireColumn(before).value;
        Advances(whole, wire, c, TakeWireColumns(columnCount - i, before), TakeWireColumns(columnCount - i - 1, cursor.Rest()));
        columns, wire := columns + [column], wire + [c];
      }
      Finishes(whole, wire, cursor.Rest());
      r := Ok(columns);
    }

    /** The body of the tuple loop: one column. */
    method ParseColumnData(cursor: Cursor) returns (r: Result<Option<Bytes>, ParseError>)
      requires cursor.Valid()
      modifies cursor
      ensures cursor.Valid()
      ensures match TakeWireColumn(old(cursor.Rest()))
              case Fail(e) => r == Err(e)
              case Took(c, s) => r == Ok(ColumnValue(c)) && cursor.Rest() == s
    {
      if cursor.Rest() != [] { FirstByte(cursor.Rest()); }
      var tupleType :- cursor.ReadUnsigned(1);
      if tupleType == TAG_NULL || tupleType == TAG_UNCHANGED {
        return Ok(None);
      } else if tupleType == TAG_TEXT {
        var len :- cursor.ReadUnsigned(4);
        var data :- cursor.ReadExact(len);
        return Ok(Some(data));
      } else {
        return Err(UnexpectedTag);
      }
    }
  }
}
