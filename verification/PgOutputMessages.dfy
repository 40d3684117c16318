/**
 The ten messages the parser knows, as they appear on the wire and as the parser
 reports them, and the theorems relating the two: parsing undoes encoding, the
 parser accepts exactly the encodings, and what it accepts can be encoded again.
 */
module PgOutputMessages {
  import opened Wrappers
  import opened PgOutputFormat

  // ----- what the parser reports

  datatype RelationMessage = RelationMessage(
    relationId: nat, namespace: Bytes, relationName: Bytes, replicaIdentity: nat, columns: seq<Column>)

  /** A tuple as reported: NULL and unchanged TOASTed values are both `None`. */
  type TupleData = seq<Option<Bytes>>

  datatype PgOutputMessage =
    | Begin(finalLsn: nat, timestamp: int, xid: nat)
    | Commit(flags: nat, commitLsn: nat, endLsn: nat, timestamp: int)
    | Origin(commitLsn: nat, name: Bytes)
    | Relation(relation: RelationMessage)
    | Type(typeId: nat, namespace: Bytes, name: Bytes)
    | Insert(relationId: nat, tuple: TupleData)
    | Update(relationId: nat, oldTuple: Option<TupleData>, newTuple: TupleData)
    | Delete(relationId: nat, deleted: TupleData)
    | Truncate(relationCount: nat, options: nat, relationIds: seq<nat>)
    | Keepalive(walEnd: nat, timestamp: int, replyRequested: bool)

  // ----- what is on the wire

  datatype WireMessage =
    | WBegin(finalLsn: nat, timestamp: int, xid: nat)
    | WCommit(flags: nat, commitLsn: nat, endLsn: nat, timestamp: int)
    | WOrigin(commitLsn: nat, name: Bytes)
    | WRelation(relation: RelationMessage)
    | WType(typeId: nat, namespace: Bytes, name: Bytes)
    | WInsert(relationId: nat, tuple: WireTuple)
    | WUpdate(relationId: nat, parts: seq<TaggedTuple>)
    | WDelete(relationId: nat, oldPart: TaggedTuple)
    | WTruncate(options: nat, relationIds: seq<nat>)
    | WKeepalive(walEnd: nat, timestamp: int, reply: nat)

  predicate WellFormedRelation(r: RelationMessage) {
    && FitsUnsigned(4, r.relationId) && IsName(r.namespace) && IsName(r.relationName)
    && FitsUnsigned(1, r.replicaIdentity) && FitsUnsigned(2, |r.columns|)
    && forall c <- r.columns :: WellFormedColumn(c)
  }

  /** Every field fits its width, every count its field, every name is UTF-8 without NUL. */
  predicate WellFormed(w: WireMessage) {
    match w
    case WBegin(lsn, ts, xid) => FitsUnsigned(8, lsn) && FitsSigned(8, ts) && FitsUnsigned(4, xid)
    case WCommit(flags, lsn, end, ts) =>
      FitsUnsigned(1, flags) && FitsUnsigned(8, lsn) && FitsUnsigned(8, end) && FitsSigned(8, ts)
    case WOrigin(lsn, name) => FitsUnsigned(8, lsn) && IsName(name)
    case WRelation(r) => WellFormedRelation(r)
    case WType(id, ns, name) => FitsUnsigned(4, id) && IsName(ns) && IsName(name)
    case WInsert(id, t) => FitsUnsigned(4, id) && WellFormedTuple(t)
    case WUpdate(id, parts) =>
      FitsUnsigned(4, id) && (forall p <- parts :: WellFormedPart(p)) && LastNew(parts).Some?
    case WDelete(id, part) => FitsUnsigned(4, id) && WellFormedPart(part) && part.tag != TAG_NEW
    case WTruncate(options, ids) =>
      FitsUnsigned(4, |ids|) && FitsUnsigned(1, options) && forall id <- ids :: FitsUnsigned(4, id)
    case WKeepalive(end, ts, reply) => FitsUnsigned(8, end) && FitsSigned(8, ts) && FitsUnsigned(1, reply)
  }

  /** The updates section 55.9 allows: at most one old tuple or key, then the new tuple. */
  predicate StandardUpdate(parts: seq<TaggedTuple>) {
    || (|parts| == 1 && parts[0].tag == TAG_NEW)
    || (|parts| == 2 && parts[0].tag != TAG_NEW && parts[1].tag == TAG_NEW)
  }

  predicate Standard(w: WireMessage) {
    WellFormed(w) && (w.WUpdate? ==> StandardUpdate(w.parts))
  }

  // ----- encoding

  function TypeByte(w: WireMessage): Byte {
    match w
    case WBegin(_, _, _) => 'B' as int
    case WCommit(_, _, _, _) => 'C' as int
    case WOrigin(_, _) => 'O' as int
    case WRelation(_) => 'R' as int
    case WType(_, _, _) => 'Y' as int
    case WInsert(_, _) => 'I' as int
    case WUpdate(_, _) => 'U' as int
    case WDelete(_, _) => 'D' as int
    case WTruncate(_, _) => 'T' as int
    case WKeepalive(_, _, _) => 'k' as int
  }

  function PutRelation(r: RelationMessage, tail: Bytes): Bytes
    requires WellFormedRelation(r)
  {
    PutUnsigned(4, r.relationId, PutName(r.namespace, PutName(r.relationName,
      PutUnsigned(1, r.replicaIdentity, PutUnsigned(2, |r.columns|, PutColumns(r.columns, tail))))))
  }

  /** The payload after the type byte; an update runs to the end of its message and takes no tail. */
  function PutPayload(w: WireMessage, tail: Bytes): Bytes
    requires WellFormed(w)
    requires w.WUpdate? ==> tail == []
  {
    match w
    case WBegin(lsn, ts, xid) => PutUnsigned(8, lsn, PutSigned(8, ts, PutUnsigned(4, xid, tail)))
    case WCommit(flags, lsn, end, ts) =>
      PutUnsigned(1, flags, PutUnsigned(8, lsn, PutUnsigned(8, end, PutSigned(8, ts, tail))))
    case WOrigin(lsn, name) => PutUnsigned(8, lsn, PutName(name, tail))
    case WRelation(r) => PutRelation(r, tail)
    case WType(id, ns, name) => PutUnsigned(4, id, PutName(ns, PutName(name, tail)))
    case WInsert(id, t) => PutUnsigned(4, id, [TAG_NEW] + PutTuple(t, tail))
    case WUpdate(id, parts) => PutUnsigned(4, id, PutParts(parts))
    case WDelete(id, part) => PutUnsigned(4, id, [part.tag] + PutTuple(part.tuple, tail))
    case WTruncate(options, ids) => PutUnsigned(4, |ids|, PutUnsigned(1, options, PutIds(ids, tail)))
    case WKeepalive(end, ts, reply) => PutUnsigned(8, end, PutSigned(8, ts, PutUnsigned(1, reply, tail)))
  }

  function Encode(w: WireMessage): Bytes
    requires WellFormed(w)
  {
    [TypeByte(w)] + PutPayload(w, [])
  }

  // ----- decoding

  function TakeRelation(s: Bytes): Parsed<RelationMessage> {
    var (id, s1) :- TakeUnsigned(4, s);
    var (ns, s2) :- TakeName(s1);
    var (name, s3) :- TakeName(s2);
    var (identity, s4) :- TakeUnsigned(1, s3);
    var (count, s5) :- TakeUnsigned(2, s4);
    var (columns, s6) :- TakeColumns(count, s5);
    Took(RelationMessage(id, ns, name, identity, columns), s6)
  }

  /** A tuple behind one of the tags in `allowed`. */
  function TakeTagged(allowed: set<Byte>, s: Bytes): Parsed<TaggedTuple> {
    if s == [] then Fail(UnexpectedEof)
    else if s[0] !in allowed then Fail(UnexpectedTag)
    else
      var (t, rest) :- TakeTuple(s[1..]);
      Took(TaggedTuple(s[0], t), rest)
  }

  function TakeUpdate(s: Bytes): Parsed<WireMessage> {
    var (id, s1) :- TakeUnsigned(4, s);
    var (parts, s2) :- TakeParts(s1);
    if LastNew(parts).None? then Fail(MissingNewTuple) else Took(WUpdate(id, parts), s2)
  }

  /** The payload of a message whose type byte is `b`, for the ten known type bytes. */
  function TakePayload(b: Byte, s: Bytes): Parsed<WireMessage>
    requires Known(b)
  {
    if b == 'B' as int then
      var (lsn, s1) :- TakeUnsigned(8, s);
      var (ts, s2) :- TakeSigned(8, s1);
      var (xid, s3) :- TakeUnsigned(4, s2);
      Took(WBegin(lsn, ts, xid), s3)
    else if b == 'C' as int then
      var (flags, s1) :- TakeUnsigned(1, s);
      var (lsn, s2) :- TakeUnsigned(8, s1);
      var (end, s3) :- TakeUnsigned(8, s2);
      var (ts, s4) :- TakeSigned(8, s3);
      Took(WCommit(flags, lsn, end, ts), s4)
    else if b == 'O' as int then
      var (lsn, s1) :- TakeUnsigned(8, s);
      var (name, s2) :- TakeName(s1);
      Took(WOrigin(lsn, name), s2)
    else if b == 'R' as int then
      var (r, s1) :- TakeRelation(s);
      Took(WRelation(r), s1)
    else if b == 'Y' as int then
      var (id, s1) :- TakeUnsigned(4, s);
      var (ns, s2) :- TakeName(s1);
      var (name, s3) :- TakeName(s2);
      Took(WType(id, ns, name), s3)
    else if b == 'I' as int then
      var (id, s1) :- TakeUnsigned(4, s);
      var (t, s2) :- TakeTagged({TAG_NEW}, s1);
      Took(WInsert(id, t.tuple), s2)
    else if b == 'U' as int then
      TakeUpdate(s)
    else if b == 'D' as int then
      var (id, s1) :- TakeUnsigned(4, s);
      var (t, s2) :- TakeTagged({TAG_OLD, TAG_KEY}, s1);
      Took(WDelete(id, t), s2)
    else if b == 'T' as int then
      var (count, s1) :- TakeUnsigned(4, s);
      var (options, s2) :- TakeUnsigned(1, s1);
      var (ids, s3) :- TakeIds(count, s2);
      Took(WTruncate(options, ids), s3)
    else
      var (end, s1) :- TakeUnsigned(8, s);
      var (ts, s2) :- TakeSigned(8, s1);
      var (reply, s3) :- TakeUnsigned(1, s2);
      Took(WKeepalive(end, ts, reply), s3)
  }

  predicate Known(b: Byte) {
    b as char in {'B', 'C', 'O', 'R', 'Y', 'I', 'U', 'D', 'T', 'k'}
  }

  // ----- from the wire to what is reported

  function ColumnValue(c: WireColumn): Option<Bytes> {
    match c
    case Text(data) => Some(data)
    case _ => None
  }

  function Tuple(t: WireTuple): (r: TupleData)
    ensures |r| == |t|
  {
    seq(|t|, i requires 0 <= i < |t| => ColumnValue(t[i]))
  }

  /** The last new tuple, and the last old tuple or key, of an update. */
  function LastNew(ps: seq<TaggedTuple>): Option<TupleData> {
    if ps == [] then None
    else if ps[|ps| - 1].tag == TAG_NEW then Some(Tuple(ps[|ps| - 1].tuple))
    else LastNew(ps[..|ps| - 1])
  }

  function LastOld(ps: seq<TaggedTuple>): Option<TupleData> {
    if ps == [] then None
    else if ps[|ps| - 1].tag != TAG_NEW then Some(Tuple(ps[|ps| - 1].tuple))
    else LastOld(ps[..|ps| - 1])
  }

  function Meaning(w: WireMessage): PgOutputMessage
    requires WellFormed(w)
  {
    match w
    case WBegin(lsn, ts, xid) => Begin(lsn, ts, xid)
    case WCommit(flags, lsn, end, ts) => Commit(flags, lsn, end, ts)
    case WOrigin(lsn, name) => Origin(lsn, name)
    case WRelation(r) => Relation(r)
    case WType(id, ns, name) => Type(id, ns, name)
    case WInsert(id, t) => Insert(id, Tuple(t))
    case WUpdate(id, parts) => Update(id, LastOld(parts), LastNew(parts).value)
    case WDelete(id, part) => Delete(id, Tuple(part.tuple))
    case WTruncate(options, ids) => Truncate(|ids|, options, ids)
    case WKeepalive(end, ts, reply) => Keepalive(end, ts, reply != 0)
  }

  /** What the payload after a known type byte is reported as; bytes after the message are not looked at. */
  function Reported(b: Byte, payload: Bytes): Result<PgOutputMessage, ParseError>
    requires Known(b)
  {
    match TakePayload(b, payload)
    case Fail(e) => Err(e)
    case Took(w, _) => PayloadIsEncoding(b, payload); Ok(Meaning(w))
  }

  /** The answer of the parser: nothing for an empty message or an unknown type byte. */
  function Parse(data: Bytes): Result<Option<PgOutputMessage>, ParseError> {
    if data == [] || !Known(data[0]) then Ok(None)
    else
      var m :- Reported(data[0], data[1..]);
      Ok(Some(m))
  }

  // ----- the readers undo the encoders, and accept nothing else

  lemma TakePutRelation(r: RelationMessage, tail: Bytes)
    requires WellFormedRelation(r)
    ensures TakeRelation(PutRelation(r, tail)) == Took(r, tail)
  {
    var s5 := PutColumns(r.columns, tail);
    var s4 := PutUnsigned(2, |r.columns|, s5);
    var s3 := PutUnsigned(1, r.replicaIdentity, s4);
    var s2 := PutName(r.relationName, s3);
    TakePutUnsigned(4, r.relationId, PutName(r.namespace, s2));
    TakePutUntilNul(r.namespace, s2);
    TakePutUntilNul(r.relationName, s3);
    TakePutUnsigned(1, r.replicaIdentity, s4);
    TakePutUnsigned(2, |r.columns|, s5);
    TakePutColumns(r.columns, tail);
  }

  lemma PutTakeRelation(s: Bytes)
    requires TakeRelation(s).Took?
    ensures var t := TakeRelation(s); WellFormedRelation(t.value) && PutRelation(t.value, t.rest) == s
  {
    var s1 := TakeUnsigned(4, s).rest;
    var s2 := TakeName(s1).rest;
    var s3 := TakeName(s2).rest;
    var s4 := TakeUnsigned(1, s3).rest;
    var count := TakeUnsigned(2, s4);
    PutTakeUnsigned(4, s);
    PutTakeUntilNul(s1);
    PutTakeUntilNul(s2);
    PutTakeUnsigned(1, s3);
    PutTakeUnsigned(2, s4);
    PutTakeColumns(count.value, count.rest);
  }

  lemma TakePutTagged(allowed: set<Byte>, p: TaggedTuple, tail: Bytes)
    requires p.tag in allowed && WellFormedTuple(p.tuple)
    ensures TakeTagged(allowed, [p.tag] + PutTuple(p.tuple, tail)) == Took(p, tail)
  {
    assert ([p.tag] + PutTuple(p.tuple, tail))[1..] == PutTuple(p.tuple, tail);
    TakePutTuple(p.tuple, tail);
  }

  lemma PutTakeTagged(allowed: set<Byte>, s: Bytes)
    requires TakeTagged(allowed, s).Took?
    ensures var t := TakeTagged(allowed, s);
            t.value.tag in allowed && WellFormedTuple(t.value.tuple) && [t.value.tag] + PutTuple(t.value.tuple, t.rest) == s
  {
    PutTakeTuple(s[1..]);
  }

  /** Taking the payload just put gives the message back. */
  ghost predicate TakesBack(w: WireMessage, tail: Bytes)
    requires WellFormed(w) && (w.WUpdate? ==> tail == [])
  {
    Known(TypeByte(w)) && TakePayload(TypeByte(w), PutPayload(w, tail)) == Took(w, tail)
  }

  lemma TakePutNumbers(w: WireMessage, tail: Bytes)
    requires WellFormed(w) && (w.WBegin? || w.WCommit? || w.WKeepalive?)
    ensures TakesBack(w, tail)
  {
    match w
    case WBegin(lsn, ts, xid) =>
      TakePutUnsigned(8, lsn, PutSigned(8, ts, PutUnsigned(4, xid, tail)));
      TakePutSigned(8, ts, PutUnsigned(4, xid, tail));
      TakePutUnsigned(4, xid, tail);
    case WCommit(flags, lsn, end, ts) =>
      TakePutUnsigned(1, flags, PutUnsigned(8, lsn, PutUnsigned(8, end, PutSigned(8, ts, tail))));
      TakePutUnsigned(8, lsn, PutUnsigned(8, end, PutSigned(8, ts, tail)));
      TakePutUnsigned(8, end, PutSigned(8, ts, tail));
      TakePutSigned(8, ts, tail);
    case WKeepalive(end, ts, reply) =>
      TakePutUnsigned(8, end, PutSigned(8, ts, PutUnsigned(1, reply, tail)));
      TakePutSigned(8, ts, PutUnsigned(1, reply, tail));
      TakePutUnsigned(1, reply, tail);
    case _ => assert false;
  }

  lemma TakePutNames(w: WireMessage, tail: Bytes)
    requires WellFormed(w) && (w.WOrigin? || w.WType? || w.WRelation?)
    ensures TakesBack(w, tail)
  {
    match w
    case WOrigin(lsn, name) =>
      TakePutUnsigned(8, lsn, PutName(name, tail));
      TakePutUntilNul(name, tail);
    case WType(id, ns, name) =>
      TakePutUnsigned(4, id, PutName(ns, PutName(name, tail)));
      TakePutUntilNul(ns, PutName(name, tail));
      TakePutUntilNul(name, tail);
    case WRelation(r) =>
      TakePutRelation(r, tail);
    case _ => assert false;
  }

  lemma TakePutOneTuple(w: WireMessage, tail: Bytes)
    requires WellFormed(w) && (w.WInsert? || w.WDelete?)
    ensures TakesBack(w, tail)
  {
    if w.WInsert? {
      TakePutUnsigned(4, w.relationId, [TAG_NEW] + PutTuple(w.tuple, tail));
      TakePutTagged({TAG_NEW}, TaggedTuple(TAG_NEW, w.tuple), tail);
    } else {
      TakePutUnsigned(4, w.relationId, [w.oldPart.tag] + PutTuple(w.oldPart.tuple, tail));
      TakePutTagged({TAG_OLD, TAG_KEY}, w.oldPart, tail);
    }
  }

  lemma TakePutUpdate(w: WireMessage)
    requires WellFormed(w) && w.WUpdate?
    ensures TakesBack(w, [])
  {
    TakePutUnsigned(4, w.relationId, PutParts(w.parts));
    TakePutParts(w.parts);
  }

  lemma TakePutTruncate(w: WireMessage, tail: Bytes)
    requires WellFormed(w) && w.WTruncate?
    ensures TakesBack(w, tail)
  {
    TakePutUnsigned(4, |w.relationIds|, PutUnsigned(1, w.options, PutIds(w.relationIds, tail)));
    TakePutUnsigned(1, w.options, PutIds(w.relationIds, tail));
    TakePutIds(w.relationIds, tail);
  }

  lemma TakePutPayload(w: WireMessage, tail: Bytes)
    requires WellFormed(w) && (w.WUpdate? ==> tail == [])
    ensures TakesBack(w, tail)
  {
    if w.WUpdate? {
      TakePutUpdate(w);
    } else if w.WTruncate? {
      TakePutTruncate(w, tail);
    } else if w.WInsert? || w.WDelete? {
      TakePutOneTuple(w, tail);
    } else if w.WOrigin? || w.WType? || w.WRelation? {
      TakePutNames(w, tail);
    } else {
      TakePutNumbers(w, tail);
    }
  }

  /** An accepted payload is the encoding of a well-formed message, up to an unread tail. */
  ghost predicate PutsBack(b: Byte, s: Bytes)
    requires Known(b) && TakePayload(b, s).Took?
  {
    var t := TakePayload(b, s);
    && WellFormed(t.value) && TypeByte(t.value) == b && (t.value.WUpdate? ==> t.rest == [])
    && PutPayload(t.value, t.rest) == s
  }

  lemma NumbersAreEncoding(b: Byte, s: Bytes)
    requires b as char in {'B', 'C', 'k'} && TakePayload(b, s).Took?
    ensures PutsBack(b, s)
  {
    if b == 'C' as int {
      var s1 := TakeUnsigned(1, s).rest;
      var s2 := TakeUnsigned(8, s1).rest;
      PutTakeUnsigned(1, s);
      PutTakeUnsigned(8, s1);
      PutTakeUnsigned(8, s2);
      PutTakeSigned(8, TakeUnsigned(8, s2).rest);
    } else {
      var s1 := TakeUnsigned(8, s).rest;
      PutTakeUnsigned(8, s);
      PutTakeSigned(8, s1);
      PutTakeUnsigned(if b == 'B' as int then 4 else 1, TakeSigned(8, s1).rest);
    }
  }

  lemma TuplesAreEncoding(b: Byte, s: Bytes)
    requires b as char in {'I', 'U', 'D'} && TakePayload(b, s).Took?
    ensures PutsBack(b, s)
  {
    PutTakeUnsigned(4, s);
    var s1 := TakeUnsigned(4, s).rest;
    if b == 'I' as int {
      PutTakeTagged({TAG_NEW}, s1);
    } else if b == 'U' as int {
      PutTakeParts(s1);
    } else {
      PutTakeTagged({TAG_OLD, TAG_KEY}, s1);
    }
  }

  lemma PayloadIsEncoding(b: Byte, s: Bytes)
    requires Known(b) && TakePayload(b, s).Took?
    ensures PutsBack(b, s)
  {
    if b == 'O' as int {
      PutTakeUnsigned(8, s);
      PutTakeUntilNul(TakeUnsigned(8, s).rest);
    } else if b == 'R' as int {
      PutTakeRelation(s);
    } else if b == 'Y' as int {
      var s1 := TakeUnsigned(4, s).rest;
      PutTakeUnsigned(4, s);
      PutTakeUntilNul(s1);
      PutTakeUntilNul(TakeName(s1).rest);
    } else if b == 'T' as int {
      var s1 := TakeUnsigned(4, s).rest;
      PutTakeUnsigned(4, s);
      PutTakeUnsigned(1, s1);
      PutTakeIds(TakeUnsigned(4, s).value, TakeUnsigned(1, s1).rest);
    } else if b as char in {'I', 'U', 'D'} {
      TuplesAreEncoding(b, s);
    } else {
      NumbersAreEncoding(b, s);
    }
  }

  // ----- main results

  /** Parsing undoes encoding, for every well-formed message. */
  lemma ParseUndoesEncode(w: WireMessage)
    requires WellFormed(w)
    ensures Parse(Encode(w)) == Ok(Some(Meaning(w)))
  {
    assert Encode(w)[1..] == PutPayload(w, []);
    TakePutPayload(w, []);
  }

  /** For a message section 55.9 allows, an update reports the one old tuple it carries, if any. */
  lemma StandardUpdateMeaning(w: WireMessage)
    requires Standard(w) && w.WUpdate?
    ensures var m := Meaning(w);
            && m.newTuple == Tuple(w.parts[|w.parts| - 1].tuple)
            && m.oldTuple == (if |w.parts| == 2 then Some(Tuple(w.parts[0].tuple)) else None)
  {
    var ps := w.parts;
    if |ps| == 2 {
      assert LastOld(ps) == LastOld(ps[..1]);
      assert ps[..1][0] == ps[0];
    } else {
      assert LastOld(ps) == LastOld(ps[..0]);
    }
  }

  ghost predicate IsEncodingOf(data: Bytes, w: WireMessage, tail: Bytes) {
    WellFormed(w) && (w.WUpdate? ==> tail == []) && data == [TypeByte(w)] + PutPayload(w, tail)
  }

  /** The parser reports a message exactly for the encodings (with an unread tail), and reports its meaning. */
  lemma AcceptsExactlyEncodings(data: Bytes, m: PgOutputMessage)
    ensures Parse(data) == Ok(Some(m)) <==> exists w, tail :: IsEncodingOf(data, w, tail) && Meaning(w) == m
  {
    if Parse(data) == Ok(Some(m)) {
      PayloadIsEncoding(data[0], data[1..]);
      var t := TakePayload(data[0], data[1..]);
      assert IsEncodingOf(data, t.value, t.rest) && Meaning(t.value) == m;
    }
    forall w, tail | IsEncodingOf(data, w, tail) && Meaning(w) == m
      ensures Parse(data) == Ok(Some(m))
    {
      assert data[1..] == PutPayload(w, tail);
      TakePutPayload(w, tail);
    }
  }

  predicate WellFormedTupleData(t: TupleData) {
    FitsUnsigned(2, |t|) && forall i | 0 <= i < |t| :: t[i].Some? ==> FitsUnsigned(4, |t[i].value|)
  }

  /** What a reported message promises: counts match lengths, names have no NUL, values fit their widths. */
  predicate WellFormedMessage(m: PgOutputMessage) {
    match m
    case Begin(lsn, ts, xid) => FitsUnsigned(8, lsn) && FitsSigned(8, ts) && FitsUnsigned(4, xid)
    case Commit(flags, lsn, end, ts) =>
      FitsUnsigned(1, flags) && FitsUnsigned(8, lsn) && FitsUnsigned(8, end) && FitsSigned(8, ts)
    case Origin(lsn, name) => FitsUnsigned(8, lsn) && IsName(name)
    case Relation(r) => WellFormedRelation(r)
    case Type(id, ns, name) => FitsUnsigned(4, id) && IsName(ns) && IsName(name)
    case Insert(id, t) => FitsUnsigned(4, id) && WellFormedTupleData(t)
    case Update(id, oldTuple, newTuple) =>
      FitsUnsigned(4, id) && (oldTuple.Some? ==> WellFormedTupleData(oldTuple.value)) && WellFormedTupleData(newTuple)
    case Delete(id, t) => FitsUnsigned(4, id) && WellFormedTupleData(t)
    case Truncate(count, options, ids) =>
      count == |ids| && FitsUnsigned(4, count) && FitsUnsigned(1, options) && forall id <- ids :: FitsUnsigned(4, id)
    case Keepalive(end, ts, _) => FitsUnsigned(8, end) && FitsSigned(8, ts)
  }

  /** One wire form of a reported message. */
  function WireTupleOf(t: TupleData): (w: WireTuple)
    ensures |w| == |t| && Tuple(w) == t
  {
    seq(|t|, i requires 0 <= i < |t| => if t[i].Some? then Text(t[i].value) else Null)
  }

  function WireOf(m: PgOutputMessage): WireMessage {
    match m
    case Begin(lsn, ts, xid) => WBegin(lsn, ts, xid)
    case Commit(flags, lsn, end, ts) => WCommit(flags, lsn, end, ts)
    case Origin(lsn, name) => WOrigin(lsn, name)
    case Relation(r) => WRelation(r)
    case Type(id, ns, name) => WType(id, ns, name)
    case Insert(id, t) => WInsert(id, WireTupleOf(t))
    case Update(id, oldTuple, newTuple) =>
      var newPart := TaggedTuple(TAG_NEW, WireTupleOf(newTuple));
      WUpdate(id, if oldTuple.None? then [newPart] else [TaggedTuple(TAG_OLD, WireTupleOf(oldTuple.value)), newPart])
    case Delete(id, t) => WDelete(id, TaggedTuple(TAG_OLD, WireTupleOf(t)))
    case Truncate(_, options, ids) => WTruncate(options, ids)
    case Keepalive(end, ts, reply) => WKeepalive(end, ts, if reply then 1 else 0)
  }

  lemma WireOfMeansMessage(m: PgOutputMessage)
    requires WellFormedMessage(m)
    ensures Standard(WireOf(m)) && Meaning(WireOf(m)) == m
  {
    if m.Update? {
      StandardUpdateMeaning(WireOf(m));
    }
  }

  lemma {:induction false} LastPartsWellFormed(ps: seq<TaggedTuple>)
    requires forall p <- ps :: WellFormedPart(p)
    ensures LastNew(ps).Some? ==> WellFormedTupleData(LastNew(ps).value)
    ensures LastOld(ps).Some? ==> WellFormedTupleData(LastOld(ps).value)
  {
    if ps != [] {
      assert WellFormedPart(ps[|ps| - 1]);
      TupleWellFormed(ps[|ps| - 1].tuple);
      LastPartsWellFormed(ps[..|ps| - 1]);
    }
  }

  lemma TupleWellFormed(t: WireTuple)
    ensures WellFormedTuple(t) ==> WellFormedTupleData(Tuple(t))
  {
    forall i | 0 <= i < |t| && WellFormedTuple(t) && Tuple(t)[i].Some?
      ensures FitsUnsigned(4, |Tuple(t)[i].value|)
    {
      assert t[i] in t;
    }
  }

  lemma MeaningIsWellFormed(w: WireMessage)
    requires WellFormed(w)
    ensures WellFormedMessage(Meaning(w))
  {
    if w.WUpdate? {
      LastPartsWellFormed(w.parts);
    } else if w.WInsert? {
      TupleWellFormed(w.tuple);
    } else if w.WDelete? {
      TupleWellFormed(w.oldPart.tuple);
    }
  }

  /** Every reported message is well-formed, so encoding it and parsing again reports it again. */
  lemma ReportedMessagesRoundTrip(data: Bytes, m: PgOutputMessage)
    requires Parse(data) == Ok(Some(m))
    ensures WellFormedMessage(m) && Standard(WireOf(m)) && Parse(Encode(WireOf(m))) == Ok(Some(m))
  {
    PayloadIsEncoding(data[0], data[1..]);
    MeaningIsWellFormed(TakePayload(data[0], data[1..]).value);
    WireOfMeansMessage(m);
    ParseUndoesEncode(WireOf(m));
  }

  // ----- the relation cache over a run of messages

  type RelationCache = map<nat, RelationMessage>

  /** The relation a message announces, if it parses as a relation message. */
  function Announced(data: Bytes): Option<RelationMessage> {
    match Parse(data)
    case Ok(Some(Relation(r))) => Some(r)
    case _ => None
  }

  function Remember(cache: RelationCache, announced: Option<RelationMessage>): RelationCache {
    if announced.None? then cache else cache[announced.value.relationId := announced.value]
  }

  function RememberAll(cache: RelationCache, announced: seq<Option<RelationMessage>>): RelationCache {
    if announced == [] then cache
    else Remember(RememberAll(cache, announced[..|announced| - 1]), announced[|announced| - 1])
  }

  predicate IsAbout(a: Option<RelationMessage>, id: nat) {
    a.Some? && a.value.relationId == id
  }

  /** The last announcement of relation `id` is number `i`. */
  predicate LastAnnouncedAt(announced: seq<Option<RelationMessage>>, id: nat, i: int) {
    && 0 <= i < |announced| && IsAbout(announced[i], id)
    && forall j | i < j < |announced| :: !IsAbout(announced[j], id)
  }

  lemma {:induction false} CacheHoldsLast(cache: RelationCache, announced: seq<Option<RelationMessage>>, id: nat)
    ensures var after := RememberAll(cache, announced);
            && (forall i | LastAnnouncedAt(announced, id, i) :: id in after && Some(after[id]) == announced[i])
            && ((forall i | 0 <= i < |announced| :: !IsAbout(announced[i], id))
                ==> (id in after <==> id in cache) && (id in cache ==> after[id] == cache[id]))
  {
    if announced != [] {
      var n := |announced| - 1;
      var before, after := RememberAll(cache, announced[..n]), RememberAll(cache, announced);
      CacheHoldsLast(cache, announced[..n], id);
      if IsAbout(announced[n], id) {
        assert after[id] == announced[n].value;
      } else {
        assert (id in after <==> id in before) && (id in after ==> after[id] == before[id]);
        forall i | LastAnnouncedAt(announced, id, i)
          ensures id in after && Some(after[id]) == announced[i]
        {
          assert LastAnnouncedAt(announced[..n], id, i);
        }
      }
    }
  }

  /**
   After any stream of byte strings, relation `id` is cached as the last message that parsed as its
   announcement gave it; if no message did, its cache entry is untouched.
   */
  lemma {:induction false} CacheHoldsLastAnnouncement(cache: RelationCache, stream: seq<Bytes>, id: nat)
    ensures var announced := seq(|stream|, i requires 0 <= i < |stream| => Announced(stream[i]));
            var after := RememberAll(cache, announced);
            && (forall i | LastAnnouncedAt(announced, id, i) ::
                  Parse(stream[i]).Ok? && id in after && Parse(stream[i]).value == Some(Relation(after[id])))
            && ((forall i | 0 <= i < |stream| :: !IsAbout(announced[i], id))
                ==> (id in after <==> id in cache) && (id in cache ==> after[id] == cache[id]))
  {
    var announced := seq(|stream|, i requires 0 <= i < |stream| => Announced(stream[i]));
    CacheHoldsLast(cache, announced, id);
  }
}
