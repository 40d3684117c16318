/**
 The order of source positions (src/checkpoint/manager.rs,
 src/delivery/deduplication.rs) and the position a source resumes from
 (src/pipeline/orchestrator.rs).
 */
module Positions {
  import opened Wrappers
  import opened Events
  import opened Text

  const U64_LIMIT := 0x1_0000_0000_0000_0000

  // ----- log sequence numbers as text

  function DigitValue(c: char): Option<nat> {
    if '0' <= c <= '9' then Some(c as int - '0' as int)
    else if 'a' <= c <= 'f' then Some(c as int - 'a' as int + 10)
    else if 'A' <= c <= 'F' then Some(c as int - 'A' as int + 10)
    else None
  }

  predicate IsHex(s: string) {
    s != "" && forall i | 0 <= i < |s| :: DigitValue(s[i]).Some?
  }

  function HexValue(s: string): nat
    requires forall i | 0 <= i < |s| :: DigitValue(s[i]).Some?
  {
    if s == "" then 0 else 16 * HexValue(s[..|s| - 1]) + DigitValue(s[|s| - 1]).value
  }

  /** `u64::from_str_radix(s, 16).unwrap_or(0)`: a leading plus is allowed, anything unreadable or too large is 0. */
  function ParseHex(s: string): nat {
    var digits := if |s| > 1 && s[0] == '+' then s[1..] else s;
    if IsHex(digits) && HexValue(digits) < U64_LIMIT then HexValue(digits) else 0
  }

  /** The parts of a number around its slash. */
  function Parts(s: string): (parts: seq<string>)
    ensures parts != []
  {
    Split(s, '/')
  }

  datatype Ordering = Less | Equal | Greater

  function CompareNat(a: nat, b: nat): Ordering {
    if a < b then Less else if a == b then Equal else Greater
  }

  /** Rust compares strings byte by byte, which orders them as their characters do. */
  function CompareText(a: string, b: string): Ordering {
    if a == "" && b == "" then Equal
    else if a == "" then Less
    else if b == "" then Greater
    else if a[0] != b[0] then (if a[0] < b[0] then Less else Greater)
    else CompareText(a[1..], b[1..])
  }

  predicate LsnAfter(a: string, b: string) {
    var p, q := Parts(a), Parts(b);
    |p| == 2 && |q| == 2 &&
    (ParseHex(p[0]) > ParseHex(q[0]) || (ParseHex(p[0]) == ParseHex(q[0]) && ParseHex(p[1]) > ParseHex(q[1])))
  }

  function CompareLsn(a: string, b: string): Ordering {
    var p, q := Parts(a), Parts(b);
    if |p| == 2 && |q| == 2 then
      (match CompareNat(ParseHex(p[0]), ParseHex(q[0]))
       case Equal => CompareNat(ParseHex(p[1]), ParseHex(q[1]))
       case other => other)
    else CompareText(a, b)
  }

  predicate IsAfter(p: Position, q: Position) {
    match (p, q)
    case (PostgreSQL(a), PostgreSQL(b)) => LsnAfter(a, b)
    case (MySQL(f, n), MySQL(g, m)) => CompareText(f, g) == Greater || (f == g && n > m)
    case _ => false
  }

  // ----- what a well-formed number stands for

  /** Two parts of one to eight hexadecimal digits. */
  predicate WellFormed(s: string) {
    var p := Parts(s);
    |p| == 2 && IsHex(p[0]) && IsHex(p[1]) && |p[0]| <= 8 && |p[1]| <= 8
  }

  /** The position in the log as one number. */
  function LogPosition(s: string): nat
    requires WellFormed(s)
  {
    ParseHex(Parts(s)[0]) * 0x1_0000_0000 + ParseHex(Parts(s)[1])
  }

  function Pow16(n: nat): nat {
    if n == 0 then 1 else 16 * Pow16(n - 1)
  }

  lemma {:induction false} HexBound(s: string)
    requires forall i | 0 <= i < |s| :: DigitValue(s[i]).Some?
    ensures HexValue(s) < Pow16(|s|)
  {
    if s != "" {
      HexBound(s[..|s| - 1]);
    }
  }

  lemma {:induction false} Pow16Monotone(m: nat, n: nat)
    requires m <= n
    ensures 0 < Pow16(m) <= Pow16(n)
  {
    if m < n {
      Pow16Monotone(m, n - 1);
    } else if m > 0 {
      Pow16Monotone(m - 1, m - 1);
    }
  }

  /** A part of at most eight digits is read exactly and fits 32 bits. */
  lemma PartFits(s: string)
    requires IsHex(s) && |s| <= 8
    ensures ParseHex(s) == HexValue(s) < 0x1_0000_0000
  {
    HexBound(s);
    Pow16Monotone(|s|, 8);
    assert Pow16(8) == 0x1_0000_0000 by {
      assert Pow16(4) == 0x1_0000;
    }
    assert DigitValue('+').None?;
  }

  /** On well-formed numbers both comparisons are the order of the log position. */
  lemma LsnOrderIsLogOrder(a: string, b: string)
    requires WellFormed(a) && WellFormed(b)
    ensures LsnAfter(a, b) <==> LogPosition(a) > LogPosition(b)
    ensures CompareLsn(a, b) == CompareNat(LogPosition(a), LogPosition(b))
  {
    PartFits(Parts(a)[0]);
    PartFits(Parts(a)[1]);
    PartFits(Parts(b)[0]);
    PartFits(Parts(b)[1]);
  }

  /** Hence a strict total order on log positions, agreed on by both. */
  lemma LsnOrderIsStrictTotal(a: string, b: string, c: string)
    requires WellFormed(a) && WellFormed(b) && WellFormed(c)
    ensures !LsnAfter(a, a)
    ensures LsnAfter(a, b) && LsnAfter(b, c) ==> LsnAfter(a, c)
    ensures LsnAfter(a, b) || LsnAfter(b, a) || LogPosition(a) == LogPosition(b)
    ensures LsnAfter(a, b) <==> CompareLsn(a, b) == Greater
    ensures LsnAfter(b, a) <==> CompareLsn(a, b) == Less
  {
  }

  /** The two comparisons part exactly on texts without two parts, which one refuses and the other orders as text. */
  lemma ComparisonsAgreeExactlyWhen(a: string, b: string)
    ensures (LsnAfter(a, b) <==> CompareLsn(a, b) == Greater)
       <==> (|Parts(a)| == 2 && |Parts(b)| == 2) || CompareText(a, b) != Greater
  {
  }

  // ----- the resume position

  /** Positions of one kind that can be compared: two-part numbers, or file and offset, or tokens. */
  predicate Comparable(p: Position, q: Position) {
    match (p, q)
    case (PostgreSQL(a), PostgreSQL(b)) => |Parts(a)| == 2 && |Parts(b)| == 2
    case (MySQL(_, _), MySQL(_, _)) => true
    case (MongoDB(_), MongoDB(_)) => true
    case _ => false
  }

  predicate AllComparable(ps: seq<Position>) {
    forall i, j | 0 <= i < |ps| && 0 <= j < |ps| :: Comparable(ps[i], ps[j])
  }

  lemma {:induction false} CompareTextOrder(a: string, b: string, c: string)
    ensures CompareText(a, a) == Equal
    ensures CompareText(a, b) == Equal <==> a == b
    ensures CompareText(a, b) == Greater <==> CompareText(b, a) == Less
    ensures CompareText(a, b) != Less && CompareText(b, c) != Less ==> CompareText(a, c) != Less
    ensures CompareText(a, b) != Less && CompareText(b, c) == Greater ==> CompareText(a, c) == Greater
    ensures CompareText(a, b) == Greater && CompareText(b, c) != Less ==> CompareText(a, c) == Greater
    decreases |a| + |b| + |c|
  {
    if a != "" && b != "" && c != "" {
      CompareTextOrder(a[1..], b[1..], c[1..]);
      assert a[0] == b[0] && a[1..] == b[1..] ==> a == b by {
        assert a == [a[0]] + a[1..] && b == [b[0]] + b[1..];
      }
    } else if a != "" && b != "" {
      CompareTextOrder(a[1..], b[1..], c);
      assert a[0] == b[0] && a[1..] == b[1..] ==> a == b by {
        assert a == [a[0]] + a[1..] && b == [b[0]] + b[1..];
      }
    } else if a != "" {
      CompareTextOrder(a[1..], b, c);
    }
  }

  /** "Not after" is transitive between comparable positions. */
  lemma NotAfterTransitive(p: Position, q: Position, r: Position)
    requires Comparable(p, q) && Comparable(q, r) && Comparable(p, r)
    requires !IsAfter(p, q) && !IsAfter(q, r)
    ensures !IsAfter(p, r)
  {
    if p.MySQL? {
      CompareTextOrder(p.file, q.file, r.file);
      CompareTextOrder(r.file, q.file, p.file);
      CompareTextOrder(q.file, p.file, r.file);
    }
  }

  lemma NotAfterItself(p: Position)
    ensures !IsAfter(p, p)
  {
    if p.MySQL? {
      CompareTextOrder(p.file, p.file, p.file);
    }
  }

  lemma AfterAsymmetric(p: Position, q: Position)
    requires IsAfter(p, q)
    ensures !IsAfter(q, p)
  {
    if p.MySQL? && q.MySQL? {
      CompareTextOrder(p.file, q.file, p.file);
    }
  }

  function Resume(ps: seq<Position>): Option<Position> {
    if ps == [] then None
    else
      var before := Resume(ps[..|ps| - 1]);
      var p := ps[|ps| - 1];
      if before.None? || !IsAfter(p, before.value) then Some(p) else before
  }

  /** The loop over the loaded checkpoints; tasks without one, or whose load failed, are skipped. */
  method EarliestPosition(loaded: seq<Option<Position>>) returns (earliest: Option<Position>)
    ensures earliest == Resume(Present(loaded))
  {
    earliest := None;
    for i := 0 to |loaded|
      invariant earliest == Resume(Present(loaded[..i]))
    {
      assert loaded[..i + 1][..i] == loaded[..i];
      if loaded[i].Some? {
        assert (Present(loaded[..i]) + [loaded[i].value])[..|Present(loaded[..i])|] == Present(loaded[..i]);
        var p := loaded[i].value;
        if earliest.None? || !IsAfter(p, earliest.value) {
          earliest := Some(p);
        }
      }
    }
    assert loaded[..|loaded|] == loaded;
  }

  function Present(loaded: seq<Option<Position>>): seq<Position> {
    if loaded == [] then []
    else
      var before := Present(loaded[..|loaded| - 1]);
      if loaded[|loaded| - 1].Some? then before + [loaded[|loaded| - 1].value] else before
  }

  /** The resume position is one of the loaded positions and, among comparable ones, is after none of them. */
  lemma {:induction false} ResumeIsEarliest(ps: seq<Position>)
    ensures ps == [] <==> Resume(ps).None?
    ensures ps != [] ==> Resume(ps).value in ps
    ensures AllComparable(ps) ==> forall i | 0 <= i < |ps| :: !IsAfter(Resume(ps).value, ps[i])
  {
    if ps != [] {
      var n := |ps| - 1;
      var before := Resume(ps[..n]);
      ResumeIsEarliest(ps[..n]);
      assert ps == ps[..n] + [ps[n]];
      if AllComparable(ps) {
        assert AllComparable(ps[..n]) by {
          forall i, j | 0 <= i < n && 0 <= j < n ensures Comparable(ps[..n][i], ps[..n][j]) {
            assert Comparable(ps[i], ps[j]);
          }
        }
        forall i | 0 <= i < |ps|
          ensures !IsAfter(Resume(ps).value, ps[i])
        {
          ResumeStep(ps, i);
        }
      }
    }
  }

  lemma ResumeStep(ps: seq<Position>, i: nat)
    requires i < |ps| && AllComparable(ps)
    requires var init := ps[..|ps| - 1];
             init != [] ==> Resume(init).Some? && Resume(init).value in init
                            && forall j | 0 <= j < |init| :: !IsAfter(Resume(init).value, init[j])
    ensures !IsAfter(Resume(ps).value, ps[i])
  {
    var n := |ps| - 1;
    var p, init := ps[n], ps[..n];
    if init == [] {
      NotAfterItself(p);
    } else {
      var before := Resume(init).value;
      var k :| 0 <= k < n && init[k] == before;
      assert Comparable(ps[n], ps[k]) && Comparable(ps[k], ps[i]) && Comparable(ps[n], ps[i]);
      if IsAfter(p, before) {
        AfterAsymmetric(p, before);
        assert i < n ==> !IsAfter(before, init[i]);
      } else if i < n {
        assert !IsAfter(before, init[i]);
        NotAfterTransitive(p, before, ps[i]);
      } else {
        NotAfterItself(p);
      }
    }
  }

  /** The resume position is after none of the loaded ones. */
  ghost predicate ResumesEarliest(ps: seq<Position>) {
    ps != [] ==> forall i | 0 <= i < |ps| :: !IsAfter(Resume(ps).value, ps[i])
  }

  predicate NoneAfter(ps: seq<Position>) {
    forall i, j | 0 <= i < |ps| && 0 <= j < |ps| :: !IsAfter(ps[i], ps[j])
  }

  /** The positions but for one occurrence of `p`. */
  lemma WithoutOne(ps: seq<Position>, p: Position) returns (rest: seq<Position>)
    requires p in ps
    ensures multiset(rest) + multiset{p} == multiset(ps)
    ensures forall q | q != p && q in ps :: q in rest
  {
    var i :| 0 <= i < |ps| && ps[i] == p;
    rest := ps[..i] + ps[i + 1..];
    assert ps == ps[..i] + [p] + ps[i + 1..];
  }

  /** Whatever came before, `x` between `a` and a later `b` makes the loop forget `a`. */
  lemma IncomparableMakesForget(ps: seq<Position>, a: Position, x: Position, b: Position)
    requires IsAfter(b, a) && !Comparable(a, x)
    ensures Resume(ps + [a] + [x] + [b]) == Some(b)
  {
  }

  /**
   In whatever order they are loaded, the resume position is after none of the positions exactly when all
   are comparable or none is after another.
   */
  lemma ResumesEarliestExactlyWhen(ps: seq<Position>)
    ensures (forall qs | multiset(qs) == multiset(ps) :: ResumesEarliest(qs)) <==> AllComparable(ps) || NoneAfter(ps)
  {
    if AllComparable(ps) || NoneAfter(ps) {
      forall qs | multiset(qs) == multiset(ps)
        ensures ResumesEarliest(qs)
      {
        SamePositions(qs, ps);
        ResumeIsEarliest(qs);
      }
    } else {
      var j, i :| 0 <= i < |ps| && 0 <= j < |ps| && IsAfter(ps[i], ps[j]);
      var u, v :| 0 <= u < |ps| && 0 <= v < |ps| && !Comparable(ps[u], ps[v]);
      var x := if Comparable(ps[j], ps[u]) then ps[v] else ps[u];
      var qs := OrderThatForgets(ps, ps[j], x, ps[i]);
      assert !ResumesEarliest(qs);
    }
  }

  lemma SamePositions(qs: seq<Position>, ps: seq<Position>)
    requires multiset(qs) == multiset(ps)
    ensures AllComparable(ps) ==> AllComparable(qs)
    ensures NoneAfter(ps) ==> NoneAfter(qs)
  {
    forall k | 0 <= k < |qs|
      ensures qs[k] in ps
    {
      assert qs[k] in multiset(qs);
    }
  }

  lemma OrderThatForgets(ps: seq<Position>, a: Position, x: Position, b: Position) returns (qs: seq<Position>)
    requires a in ps && x in ps && b in ps && IsAfter(b, a) && !Comparable(a, x)
    ensures multiset(qs) == multiset(ps) && !ResumesEarliest(qs)
  {
    NotAfterItself(a);
    var withoutB := WithoutOne(ps, b);
    var withoutX := WithoutOne(withoutB, x);
    var rest := WithoutOne(withoutX, a);
    qs := rest + [a] + [x] + [b];
    IncomparableMakesForget(rest, a, x, b);
    assert qs[|rest|] == a;
  }

  lemma SplitLetter(s: string, c: char)
    requires c != '/'
    ensures var n := |Parts(s)| - 1; Parts(s + [c]) == Parts(s)[n := Parts(s)[n] + [c]]
  {
  }

  lemma ShortParts(hi: char, lo: char)
    requires hi != '/' && lo != '/'
    ensures Parts([hi]) == [[hi]] && Parts([hi, '/', lo]) == [[hi], [lo]]
  {
    SplitLetter("", hi);
    assert "" + [hi] == [hi] && Parts("") == [""] && [""][0 := "" + [hi]] == [[hi]];
    assert [hi, '/'][..1] == [hi];
    assert Parts([hi, '/']) == [[hi], ""];
    SplitLetter([hi, '/'], lo);
    assert [hi, '/'] + [lo] == [hi, '/', lo];
    assert "" + [lo] == [lo];
    assert [[hi], ""][1 := [lo]] == [[hi], [lo]];
  }

  lemma OneDigit(c: char)
    requires '0' <= c <= '9'
    ensures ParseHex([c]) == c as int - '0' as int
  {
    assert [c][..0] == "";
    assert HexValue([c]) == 16 * HexValue("") + DigitValue(c).value;
  }

  /** One malformed number among them, and the resume position can lie after a loaded one. */
  lemma MalformedNumberBreaksResume()
    ensures var ps := [PostgreSQL("0/5"), PostgreSQL("x"), PostgreSQL("0/7")];
            Resume(ps) == Some(ps[2]) && IsAfter(ps[2], ps[0])
  {
    var a, x, b := PostgreSQL("0/5"), PostgreSQL("x"), PostgreSQL("0/7");
    assert "0/5" == ['0', '/', '5'] && "0/7" == ['0', '/', '7'] && "x" == ['x'];
    ShortParts('0', '5');
    ShortParts('0', '7');
    ShortParts('x', 'x');
    OneDigit('0');
    OneDigit('5');
    OneDigit('7');
    IncomparableMakesForget([], a, x, b);
    assert [] + [a] + [x] + [b] == [a, x, b];
  }
}
