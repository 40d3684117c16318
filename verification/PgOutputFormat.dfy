/**
 The byte format of the logical replication stream (PostgreSQL 16, section 55.9
 "Logical Replication Message Formats"; keepalive: section 55.4), written twice:
 as encoders that put a message in front of a tail, and as readers that take a
 message off the front of a byte string. The lemmas show that each undoes the
 other, so the readers accept exactly the encodings.
 */
module PgOutputFormat {

  type Byte = b: int | 0 <= b < 256
  type Bytes = seq<Byte>

  datatype ParseError = UnexpectedEof | InvalidUtf8 | UnexpectedTag | MissingNewTuple

  /** What is left after taking a `T` off the front of a byte string. */
  datatype Parsed<+T> = Fail(error: ParseError) | Took(value: T, rest: Bytes) {
    predicate IsFailure() {
      Fail?
    }

    function PropagateFailure<U>(): Parsed<U>
      requires Fail?
    {
      Fail(error)
    }

    function Extract(): (T, Bytes)
      requires Took?
    {
      (value, rest)
    }
  }

  // ----- unsigned and two's-complement integers, most significant byte first

  function Pow256(w: nat): (p: nat)
    ensures p > 0
  {
    if w == 0 then 1 else 256 * Pow256(w - 1)
  }

  function BigEndian(w: nat, v: nat): (s: Bytes)
    ensures |s| == w
  {
    if w == 0 then [] else BigEndian(w - 1, v / 256) + [v % 256]
  }

  function FromBigEndian(s: Bytes): nat {
    if s == [] then 0 else 256 * FromBigEndian(s[..|s| - 1]) + s[|s| - 1]
  }

  lemma {:induction false} BigEndianRoundTrip(w: nat, v: nat)
    requires v < Pow256(w)
    ensures FromBigEndian(BigEndian(w, v)) == v
  {
    if w > 0 {
      BigEndianRoundTrip(w - 1, v / 256);
      assert BigEndian(w, v)[..w - 1] == BigEndian(w - 1, v / 256);
    }
  }

  lemma {:induction false} FromBigEndianRoundTrip(s: Bytes)
    ensures FromBigEndian(s) < Pow256(|s|)
    ensures BigEndian(|s|, FromBigEndian(s)) == s
  {
    if s != [] {
      FromBigEndianRoundTrip(s[..|s| - 1]);
    }
  }

  /** The signed reading of a `w`-byte word, and the word of a signed value. */
  function Signed(w: nat, u: nat): int {
    if 2 * u < Pow256(w) then u else u - Pow256(w)
  }

  function Unsigned(w: nat, i: int): int {
    if i >= 0 then i else i + Pow256(w)
  }

  predicate FitsUnsigned(w: nat, v: int) {
    0 <= v < Pow256(w)
  }

  predicate FitsSigned(w: nat, i: int) {
    -(Pow256(w) as int) <= 2 * i < Pow256(w)
  }

  function PutUnsigned(w: nat, v: nat, tail: Bytes): Bytes {
    BigEndian(w, v) + tail
  }

  function TakeUnsigned(w: nat, s: Bytes): Parsed<nat> {
    if |s| < w then Fail(UnexpectedEof) else Took(FromBigEndian(s[..w]), s[w..])
  }

  function PutSigned(w: nat, i: int, tail: Bytes): Bytes
    requires FitsSigned(w, i)
  {
    PutUnsigned(w, Unsigned(w, i), tail)
  }

  function TakeSigned(w: nat, s: Bytes): Parsed<int> {
    var (u, rest) :- TakeUnsigned(w, s);
    Took(Signed(w, u), rest)
  }

  lemma TakePutUnsigned(w: nat, v: nat, tail: Bytes)
    requires FitsUnsigned(w, v)
    ensures TakeUnsigned(w, PutUnsigned(w, v, tail)) == Took(v, tail)
  {
    BigEndianRoundTrip(w, v);
    assert PutUnsigned(w, v, tail)[..w] == BigEndian(w, v);
  }

  lemma PutTakeUnsigned(w: nat, s: Bytes)
    requires TakeUnsigned(w, s).Took?
    ensures var t := TakeUnsigned(w, s);
            FitsUnsigned(w, t.value) && PutUnsigned(w, t.value, t.rest) == s
  {
    FromBigEndianRoundTrip(s[..w]);
  }

  lemma Pow256Even(w: nat)
    requires w > 0
    ensures Pow256(w) % 2 == 0
  {
  }

  lemma TakePutSigned(w: nat, i: int, tail: Bytes)
    requires w > 0 && FitsSigned(w, i)
    ensures TakeSigned(w, PutSigned(w, i, tail)) == Took(i, tail)
  {
    Pow256Even(w);
    TakePutUnsigned(w, Unsigned(w, i), tail);
  }

  lemma PutTakeSigned(w: nat, s: Bytes)
    requires TakeSigned(w, s).Took?
    ensures var t := TakeSigned(w, s);
            FitsSigned(w, t.value) && PutSigned(w, t.value, t.rest) == s
  {
    PutTakeUnsigned(w, s);
  }

  // ----- strings: the bytes of valid UTF-8 without NUL, closed by a NUL

  predicate Between(lo: int, b: int, hi: int) {
    lo <= b <= hi
  }

  /** Length of the well-formed UTF-8 sequence at the front of `s`, 0 if there is none (RFC 3629, section 4). */
  function Utf8Length(s: Bytes): (n: nat)
    ensures n <= 4 && n <= |s|
  {
    if |s| >= 1 && s[0] <= 0x7F then 1
    else if |s| >= 2 && Between(0xC2, s[0], 0xDF) && Between(0x80, s[1], 0xBF) then 2
    else if |s| >= 3 && Between(0xE0, s[0], 0xEF)
         && Between(if s[0] == 0xE0 then 0xA0 else 0x80, s[1], if s[0] == 0xED then 0x9F else 0xBF)
         && Between(0x80, s[2], 0xBF) then 3
    else if |s| >= 4 && Between(0xF0, s[0], 0xF4)
         && Between(if s[0] == 0xF0 then 0x90 else 0x80, s[1], if s[0] == 0xF4 then 0x8F else 0xBF)
         && Between(0x80, s[2], 0xBF) && Between(0x80, s[3], 0xBF) then 4
    else 0
  }

  predicate ValidUtf8(s: Bytes) {
    s == [] || (Utf8Length(s) > 0 && ValidUtf8(s[Utf8Length(s)..]))
  }

  predicate IsName(s: Bytes) {
    0 !in s && ValidUtf8(s)
  }

  function PutName(name: Bytes, tail: Bytes): Bytes {
    name + [0] + tail
  }

  /** Everything before the first NUL. */
  function TakeUntilNul(s: Bytes): Parsed<Bytes> {
    if s == [] then Fail(UnexpectedEof)
    else if s[0] == 0 then Took([], s[1..])
    else
      var (bytes, rest) :- TakeUntilNul(s[1..]);
      Took([s[0]] + bytes, rest)
  }

  function TakeName(s: Bytes): Parsed<Bytes> {
    var (bytes, rest) :- TakeUntilNul(s);
    if ValidUtf8(bytes) then Took(bytes, rest) else Fail(InvalidUtf8)
  }

  lemma {:induction false} TakePutUntilNul(name: Bytes, tail: Bytes)
    requires 0 !in name
    ensures TakeUntilNul(PutName(name, tail)) == Took(name, tail)
  {
    var s := PutName(name, tail);
    if name == [] {
      assert s[1..] == tail;
    } else {
      TakePutUntilNul(name[1..], tail);
      assert s[1..] == PutName(name[1..], tail);
      assert [name[0]] + name[1..] == name;
    }
  }

  lemma {:induction false} PutTakeUntilNul(s: Bytes)
    requires TakeUntilNul(s).Took?
    ensures var t := TakeUntilNul(s); 0 !in t.value && PutName(t.value, t.rest) == s
  {
    if s[0] != 0 {
      PutTakeUntilNul(s[1..]);
      assert s == [s[0]] + s[1..];
    }
  }

  // ----- columns of a relation, columns of a tuple

  datatype Column = Column(flags: nat, name: Bytes, typeId: nat, typeModifier: int)

  /** A tuple column on the wire: NULL, an unchanged TOASTed value, or a text value. */
  datatype WireColumn = Null | Unchanged | Text(data: Bytes)

  const TAG_NULL: Byte := 'n' as int
  const TAG_UNCHANGED: Byte := 'u' as int
  const TAG_TEXT: Byte := 't' as int
  const TAG_NEW: Byte := 'N' as int
  const TAG_OLD: Byte := 'O' as int
  const TAG_KEY: Byte := 'K' as int

  predicate WellFormedColumn(c: Column) {
    FitsUnsigned(1, c.flags) && IsName(c.name) && FitsUnsigned(4, c.typeId) && FitsSigned(4, c.typeModifier)
  }

  predicate WellFormedWireColumn(c: WireColumn) {
    c.Text? ==> FitsUnsigned(4, |c.data|)
  }

  function PutColumn(c: Column, tail: Bytes): Bytes
    requires WellFormedColumn(c)
  {
    PutUnsigned(1, c.flags, PutName(c.name, PutUnsigned(4, c.typeId, PutSigned(4, c.typeModifier, tail))))
  }

  function TakeColumn(s: Bytes): Parsed<Column> {
    var (flags, s1) :- TakeUnsigned(1, s);
    var (name, s2) :- TakeName(s1);
    var (typeId, s3) :- TakeUnsigned(4, s2);
    var (typeModifier, s4) :- TakeSigned(4, s3);
    Took(Column(flags, name, typeId, typeModifier), s4)
  }

  function PutWireColumn(c: WireColumn, tail: Bytes): Bytes {
    match c
    case Null => [TAG_NULL] + tail
    case Unchanged => [TAG_UNCHANGED] + tail
    case Text(data) => [TAG_TEXT] + PutUnsigned(4, |data|, data + tail)
  }

  function TakeWireColumn(s: Bytes): Parsed<WireColumn> {
    if s == [] then Fail(UnexpectedEof)
    else if s[0] == TAG_NULL then Took(Null, s[1..])
    else if s[0] == TAG_UNCHANGED then Took(Unchanged, s[1..])
    else if s[0] == TAG_TEXT then
      var (len, s1) :- TakeUnsigned(4, s[1..]);
      if |s1| < len then Fail(UnexpectedEof) else Took(Text(s1[..len]), s1[len..])
    else Fail(UnexpectedTag)
  }

  lemma TakePutColumn(c: Column, tail: Bytes)
    requires WellFormedColumn(c)
    ensures TakeColumn(PutColumn(c, tail)) == Took(c, tail)
  {
    var s3 := PutSigned(4, c.typeModifier, tail);
    var s2 := PutUnsigned(4, c.typeId, s3);
    TakePutUnsigned(1, c.flags, PutName(c.name, s2));
    TakePutUntilNul(c.name, s2);
    TakePutUnsigned(4, c.typeId, s3);
    TakePutSigned(4, c.typeModifier, tail);
  }

  lemma PutTakeColumn(s: Bytes)
    requires TakeColumn(s).Took?
    ensures var t := TakeColumn(s); WellFormedColumn(t.value) && PutColumn(t.value, t.rest) == s
  {
    var s1 := TakeUnsigned(1, s).rest;
    var s2 := TakeName(s1).rest;
    var s3 := TakeUnsigned(4, s2).rest;
    PutTakeUnsigned(1, s);
    PutTakeUntilNul(s1);
    PutTakeUnsigned(4, s2);
    PutTakeSigned(4, s3);
  }

  lemma TakePutWireColumn(c: WireColumn, tail: Bytes)
    requires WellFormedWireColumn(c)
    ensures TakeWireColumn(PutWireColumn(c, tail)) == Took(c, tail)
  {
    var s := PutWireColumn(c, tail);
    if c.Text? {
      assert s[1..] == PutUnsigned(4, |c.data|, c.data + tail);
      TakePutUnsigned(4, |c.data|, c.data + tail);
      assert (c.data + tail)[..|c.data|] == c.data && (c.data + tail)[|c.data|..] == tail;
    } else {
      assert s[1..] == tail;
    }
  }

  lemma PutTakeText(s: Bytes)
    requires TakeUnsigned(4, s).Took? && TakeUnsigned(4, s).value <= |TakeUnsigned(4, s).rest|
    ensures var n := TakeUnsigned(4, s);
            FitsUnsigned(4, n.value) && PutUnsigned(4, n.value, n.rest[..n.value] + n.rest[n.value..]) == s
  {
    PutTakeUnsigned(4, s);
    SplitAt(TakeUnsigned(4, s).rest, TakeUnsigned(4, s).value);
  }

  lemma SplitAt(s: Bytes, n: nat)
    requires n <= |s|
    ensures s[..n] + s[n..] == s
  {
  }

  lemma PutTakeWireColumn(s: Bytes)
    requires TakeWireColumn(s).Took?
    ensures var t := TakeWireColumn(s); WellFormedWireColumn(t.value) && PutWireColumn(t.value, t.rest) == s
  {
    assert s == [s[0]] + s[1..];
    if s[0] == TAG_TEXT {
      PutTakeText(s[1..]);
    }
  }

  // ----- counted lists of columns, wire columns and relation ids

  function PutColumns(cs: seq<Column>, tail: Bytes): Bytes
    requires forall c <- cs :: WellFormedColumn(c)
  {
    if cs == [] then tail else PutColumn(cs[0], PutColumns(cs[1..], tail))
  }

  function TakeColumns(n: nat, s: Bytes): Parsed<seq<Column>> {
    if n == 0 then Took([], s)
    else
      var (c, s1) :- TakeColumn(s);
      var (cs, s2) :- TakeColumns(n - 1, s1);
      Took([c] + cs, s2)
  }

  function PutWireColumns(cs: seq<WireColumn>, tail: Bytes): Bytes {
    if cs == [] then tail else PutWireColumn(cs[0], PutWireColumns(cs[1..], tail))
  }

  function TakeWireColumns(n: nat, s: Bytes): Parsed<seq<WireColumn>> {
    if n == 0 then Took([], s)
    else
      var (c, s1) :- TakeWireColumn(s);
      var (cs, s2) :- TakeWireColumns(n - 1, s1);
      Took([c] + cs, s2)
  }

  function PutIds(ids: seq<nat>, tail: Bytes): Bytes {
    if ids == [] then tail else PutUnsigned(4, ids[0], PutIds(ids[1..], tail))
  }

  function TakeIds(n: nat, s: Bytes): Parsed<seq<nat>> {
    if n == 0 then Took([], s)
    else
      var (id, s1) :- TakeUnsigned(4, s);
      var (ids, s2) :- TakeIds(n - 1, s1);
      Took([id] + ids, s2)
  }

  lemma {:induction false} TakePutColumns(cs: seq<Column>, tail: Bytes)
    requires forall c <- cs :: WellFormedColumn(c)
    ensures TakeColumns(|cs|, PutColumns(cs, tail)) == Took(cs, tail)
  {
    if cs != [] {
      TakePutColumn(cs[0], PutColumns(cs[1..], tail));
      TakePutColumns(cs[1..], tail);
      assert [cs[0]] + cs[1..] == cs;
    }
  }

  lemma {:induction false} PutTakeColumns(n: nat, s: Bytes)
    requires TakeColumns(n, s).Took?
    ensures var t := TakeColumns(n, s);
            |t.value| == n && (forall c <- t.value :: WellFormedColumn(c)) && PutColumns(t.value, t.rest) == s
  {
    if n > 0 {
      PutTakeColumn(s);
      var first := TakeColumn(s);
      PutTakeColumns(n - 1, first.rest);
      assert TakeColumns(n, s).value[1..] == TakeColumns(n - 1, first.rest).value;
    }
  }

  lemma {:induction false} TakePutWireColumns(cs: seq<WireColumn>, tail: Bytes)
    requires forall c <- cs :: WellFormedWireColumn(c)
    ensures TakeWireColumns(|cs|, PutWireColumns(cs, tail)) == Took(cs, tail)
  {
    if cs != [] {
      TakePutWireColumn(cs[0], PutWireColumns(cs[1..], tail));
      TakePutWireColumns(cs[1..], tail);
      assert [cs[0]] + cs[1..] == cs;
    }
  }

  lemma {:induction false} PutTakeWireColumns(n: nat, s: Bytes)
    requires TakeWireColumns(n, s).Took?
    ensures var t := TakeWireColumns(n, s);
            |t.value| == n && (forall c <- t.value :: WellFormedWireColumn(c)) && PutWireColumns(t.value, t.rest) == s
  {
    if n > 0 {
      PutTakeWireColumn(s);
      PutTakeWireColumns(n - 1, TakeWireColumn(s).rest);
    }
  }

  lemma {:induction false} TakePutIds(ids: seq<nat>, tail: Bytes)
    requires forall id <- ids :: FitsUnsigned(4, id)
    ensures TakeIds(|ids|, PutIds(ids, tail)) == Took(ids, tail)
  {
    if ids != [] {
      TakePutUnsigned(4, ids[0], PutIds(ids[1..], tail));
      TakePutIds(ids[1..], tail);
      assert [ids[0]] + ids[1..] == ids;
    }
  }

  lemma {:induction false} PutTakeIds(n: nat, s: Bytes)
    requires TakeIds(n, s).Took?
    ensures var t := TakeIds(n, s);
            |t.value| == n && (forall id <- t.value :: FitsUnsigned(4, id)) && PutIds(t.value, t.rest) == s
  {
    if n > 0 {
      PutTakeUnsigned(4, s);
      PutTakeIds(n - 1, TakeUnsigned(4, s).rest);
    }
  }

  // ----- tuples, and the tagged tuples of an update

  type WireTuple = seq<WireColumn>

  predicate WellFormedTuple(t: WireTuple) {
    FitsUnsigned(2, |t|) && forall c <- t :: WellFormedWireColumn(c)
  }

  function PutTuple(t: WireTuple, tail: Bytes): Bytes {
    PutUnsigned(2, |t|, PutWireColumns(t, tail))
  }

  function TakeTuple(s: Bytes): Parsed<WireTuple> {
    var (n, s1) :- TakeUnsigned(2, s);
    TakeWireColumns(n, s1)
  }

  lemma TakePutTuple(t: WireTuple, tail: Bytes)
    requires WellFormedTuple(t)
    ensures TakeTuple(PutTuple(t, tail)) == Took(t, tail)
  {
    TakePutUnsigned(2, |t|, PutWireColumns(t, tail));
    TakePutWireColumns(t, tail);
  }

  lemma PutTakeTuple(s: Bytes)
    requires TakeTuple(s).Took?
    ensures var t := TakeTuple(s);
            WellFormedTuple(t.value) && PutTuple(t.value, t.rest) == s && |t.rest| < |s|
  {
    PutTakeUnsigned(2, s);
    var n := TakeUnsigned(2, s);
    PutTakeWireColumns(n.value, n.rest);
    TakeWireColumnsShrinks(n.value, n.rest);
  }

  lemma {:induction false} TakeWireColumnsShrinks(n: nat, s: Bytes)
    requires TakeWireColumns(n, s).Took?
    ensures |TakeWireColumns(n, s).rest| <= |s|
  {
    if n > 0 {
      TakeWireColumnsShrinks(n - 1, TakeWireColumn(s).rest);
    }
  }

  datatype TaggedTuple = TaggedTuple(tag: Byte, tuple: WireTuple)

  predicate WellFormedPart(p: TaggedTuple) {
    p.tag in {TAG_NEW, TAG_OLD, TAG_KEY} && WellFormedTuple(p.tuple)
  }

  function PutParts(ps: seq<TaggedTuple>): Bytes {
    if ps == [] then [] else [ps[0].tag] + PutTuple(ps[0].tuple, PutParts(ps[1..]))
  }

  /** Tagged tuples up to the end of the message. */
  function TakeParts(s: Bytes): Parsed<seq<TaggedTuple>>
    decreases |s|
  {
    if s == [] then Took([], [])
    else if s[0] !in {TAG_NEW, TAG_OLD, TAG_KEY} then Fail(UnexpectedTag)
    else
      var (tuple, s1) :- TakeTuple(s[1..]);
      assert |s1| < |s| by { PutTakeTuple(s[1..]); }
      var (ps, s2) :- TakeParts(s1);
      Took([TaggedTuple(s[0], tuple)] + ps, s2)
  }

  lemma {:induction false} TakePutParts(ps: seq<TaggedTuple>)
    requires forall p <- ps :: WellFormedPart(p)
    ensures TakeParts(PutParts(ps)) == Took(ps, [])
  {
    if ps != [] {
      assert WellFormedPart(ps[0]);
      var s := PutParts(ps);
      assert s[1..] == PutTuple(ps[0].tuple, PutParts(ps[1..]));
      TakePutTuple(ps[0].tuple, PutParts(ps[1..]));
      TakePutParts(ps[1..]);
      assert [ps[0]] + ps[1..] == ps;
    }
  }

  lemma {:induction false} PutTakeParts(s: Bytes)
    requires TakeParts(s).Took?
    ensures var t := TakeParts(s);
            (forall p <- t.value :: WellFormedPart(p)) && t.rest == [] && PutParts(t.value) == s
    decreases |s|
  {
    if s != [] {
      PutTakeTuple(s[1..]);
      var t := TakeTuple(s[1..]);
      PutTakeParts(t.rest);
      var ps := TakeParts(t.rest).value;
      assert ([TaggedTuple(s[0], t.value)] + ps)[1..] == ps;
      assert s == [s[0]] + s[1..];
    }
  }
}
