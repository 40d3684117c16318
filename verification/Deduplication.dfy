/**
 The sliding-window deduplicator (src/delivery/deduplication.rs).

 Used as the pipeline uses it (look a key up, add it only if it is new), the
 window is exact: it holds precisely the last W accepted keys. Used without the
 look-up, a key added twice can stay in the key set after leaving the queue, and
 then stays there for ever.
 */
module Deduplication {
  import opened Wrappers
  import opened Events

  /** The primary key is kept as the JSON value whose text the code stores. */
  datatype DeduplicationKey = DeduplicationKey(lsn: string, xid: Option<nat>, table: string, primaryKey: Option<Json>)

  datatype Window = Window(
    size: nat, queue: seq<DeduplicationKey>, counts: map<DeduplicationKey, nat>, totalEvents: nat, duplicateEvents: nat, windowEvictions: nat)

  function Empty(size: nat): Window {
    Window(size, [], map[], 0, 0, 0)
  }

  /** The window after `add`: count a known key, else evict the oldest when full and take the key in. */
  function Add(w: Window, k: DeduplicationKey): Window {
    if k in w.counts then
      w.(totalEvents := w.totalEvents + 1, counts := w.counts[k := w.counts[k] + 1], duplicateEvents := w.duplicateEvents + 1)
    else
      var e := MakeRoom(w);
      e.(totalEvents := e.totalEvents + 1, queue := e.queue + [k], counts := e.counts[k := 1])
  }

  function MakeRoom(w: Window): Window {
    if |w.queue| >= w.size && w.queue != [] then Evict(w) else w
  }

  function Evict(w: Window): Window
    requires w.queue != []
  {
    var oldest := w.queue[0];
    var counts :=
      if oldest !in w.counts then w.counts
      else if w.counts[oldest] == 1 then w.counts - {oldest}
      else w.counts[oldest := if w.counts[oldest] == 0 then 0 else w.counts[oldest] - 1];
    w.(queue := w.queue[1..], counts := counts, windowEvictions := w.windowEvictions + 1)
  }

  class EventDeduplicator {
    const windowSize: nat
    var keyQueue: seq<DeduplicationKey>
    var keySet: map<DeduplicationKey, nat>
    var totalEvents: nat
    var duplicateEvents: nat
    var windowEvictions: nat

    ghost function State(): Window
      reads this
    {
      Window(windowSize, keyQueue, keySet, totalEvents, duplicateEvents, windowEvictions)
    }

    constructor (windowSize: nat)
      ensures State() == Empty(windowSize)
    {
      this.windowSize := windowSize;
      keyQueue, keySet := [], map[];
      totalEvents, duplicateEvents, windowEvictions := 0, 0, 0;
    }

    predicate Contains(k: DeduplicationKey)
      reads this
    {
      k in keySet
    }

    method AddKey(k: DeduplicationKey)
      modifies this
      ensures State() == Add(old(State()), k)
    {
      totalEvents := totalEvents + 1;
      if k in keySet {
        keySet := keySet[k := keySet[k] + 1];
        duplicateEvents := duplicateEvents + 1;
        return;
      }
      if |keyQueue| >= windowSize && keyQueue != [] {
        var oldest := keyQueue[0];
        keyQueue := keyQueue[1..];
        if oldest in keySet {
          if keySet[oldest] == 1 {
            keySet := keySet - {oldest};
          } else {
            keySet := keySet[oldest := if keySet[oldest] == 0 then 0 else keySet[oldest] - 1];
          }
        }
        windowEvictions := windowEvictions + 1;
      }
      keyQueue := keyQueue + [k];
      keySet := keySet[k := 1];
    }

    /** Empties the window; the statistics keep counting. */
    method Clear()
      modifies this
      ensures State() == old(State()).(queue := [], counts := map[])
    {
      keyQueue, keySet := [], map[];
    }
  }

  // ----- the guarded use

  /** Look a key up and add it only if it is new. */
  function Offer(w: Window, k: DeduplicationKey): Window {
    if k in w.counts then w else Add(w, k)
  }

  function OfferAll(w: Window, keys: seq<DeduplicationKey>): Window {
    if keys == [] then w else Offer(OfferAll(w, keys[..|keys| - 1]), keys[|keys| - 1])
  }

  /** The keys that were new when offered, in order. */
  function Accepted(w: Window, keys: seq<DeduplicationKey>): seq<DeduplicationKey> {
    if keys == [] then []
    else
      var n := |keys| - 1;
      var before := Accepted(w, keys[..n]);
      if keys[n] in OfferAll(w, keys[..n]).counts then before else before + [keys[n]]
  }

  function Last<T>(s: seq<T>, n: nat): seq<T> {
    if |s| <= n then s else s[|s| - n..]
  }

  /** A window of size 0 still keeps one key. */
  function Capacity(size: nat): nat {
    if size == 0 then 1 else size
  }

  ghost predicate Distinct<T>(s: seq<T>) {
    forall i, j | 0 <= i < j < |s| :: s[i] != s[j]
  }

  function Elements<T>(s: seq<T>): set<T> {
    set x | x in s
  }

  /** The key set is exactly the queue, every key counted once. */
  ghost predicate Tracks(w: Window) {
    && Distinct(w.queue) && w.counts.Keys == Elements(w.queue)
    && forall k <- w.counts :: w.counts[k] == 1
  }

  /** The window tracks the last accepted keys, and the statistics agree. */
  ghost predicate Exact(w: Window, accepted: seq<DeduplicationKey>) {
    && Tracks(w) && w.queue == Last(accepted, Capacity(w.size))
    && w.totalEvents == |accepted| && w.duplicateEvents == 0 && w.windowEvictions == |accepted| - |w.queue|
  }

  lemma LastStep(accepted: seq<DeduplicationKey>, k: DeduplicationKey, cap: nat)
    requires cap > 0
    ensures var last := Last(accepted, cap);
            Last(accepted + [k], cap) == (if |last| < cap then last else last[1..]) + [k]
  {
  }

  lemma ElementsStep(q: seq<DeduplicationKey>, k: DeduplicationKey)
    ensures Elements(q + [k]) == Elements(q) + {k}
    ensures Distinct(q) && k !in Elements(q) ==> Distinct(q + [k])
  {
  }

  lemma MakeRoomTracks(w: Window)
    requires Tracks(w)
    ensures Tracks(MakeRoom(w)) && MakeRoom(w).counts.Keys <= w.counts.Keys
  {
  }

  lemma ExactStep(w: Window, accepted: seq<DeduplicationKey>, k: DeduplicationKey)
    requires Exact(w, accepted) && k !in w.counts
    ensures Exact(Add(w, k), accepted + [k])
  {
    var e := MakeRoom(w);
    MakeRoomTracks(w);
    ElementsStep(e.queue, k);
    assert Tracks(Add(w, k));
    LastStep(accepted, k, Capacity(w.size));
  }

  lemma {:induction false} RunIsExact(size: nat, keys: seq<DeduplicationKey>)
    ensures var w := OfferAll(Empty(size), keys); w.size == size && Exact(w, Accepted(Empty(size), keys))
  {
    if keys != [] {
      var n := |keys| - 1;
      RunIsExact(size, keys[..n]);
      var w, accepted := OfferAll(Empty(size), keys[..n]), Accepted(Empty(size), keys[..n]);
      if keys[n] !in w.counts {
        ExactStep(w, accepted, keys[n]);
      }
    }
  }

  /** In every guarded run the window is exact; so a key is rejected just when it is among the last W accepted. */
  lemma {:induction false} WindowIsExact(size: nat, keys: seq<DeduplicationKey>)
    ensures var w := OfferAll(Empty(size), keys);
            var accepted := Accepted(Empty(size), keys);
            && w.size == size && Exact(w, accepted)
            && forall k :: Offer(w, k) == w <==> k in Last(accepted, Capacity(size))
  {
    RunIsExact(size, keys);
    var w := OfferAll(Empty(size), keys);
    forall k
      ensures Offer(w, k) == w <==> k in w.queue
    {
      assert k in w.queue <==> k in Elements(w.queue);
      assert k !in w.counts ==> Add(w, k).totalEvents == w.totalEvents + 1;
    }
  }

  lemma {:induction false} AcceptedKeysAreNew(size: nat, keys: seq<DeduplicationKey>, j: nat)
    requires j < |Accepted(Empty(size), keys)|
    ensures var accepted := Accepted(Empty(size), keys);
            accepted[j] !in Last(accepted[..j], Capacity(size))
  {
    var n := |keys| - 1;
    var before := Accepted(Empty(size), keys[..n]);
    if j < |before| {
      AcceptedKeysAreNew(size, keys[..n], j);
      assert Accepted(Empty(size), keys)[..j] == before[..j];
    } else {
      WindowIsExact(size, keys[..n]);
      assert Accepted(Empty(size), keys)[..j] == before;
    }
  }

  lemma {:induction false} DistinctCardinality<T>(s: seq<T>)
    requires Distinct(s)
    ensures |Elements(s)| == |s|
  {
    if s != [] {
      var n := |s| - 1;
      DistinctCardinality(s[..n]);
      assert s == s[..n] + [s[n]];
      assert Elements(s) == Elements(s[..n]) + {s[n]};
    }
  }

  lemma SubsetCardinality<T>(a: set<T>, b: set<T>)
    requires a <= b
    ensures |a| <= |b|
  {
    assert b == a + (b - a);
  }

  /** Keys at most `cap` apart are different. */
  ghost predicate Spread(s: seq<DeduplicationKey>, cap: nat) {
    forall p, q | 0 <= p < q < |s| && q - p <= cap :: s[p] != s[q]
  }

  lemma LastHolds<T>(s: seq<T>, cap: nat, p: nat, q: nat)
    requires p < q <= |s| && q - p <= cap
    ensures s[p] in Last(s[..q], cap)
  {
    var last := Last(s[..q], cap);
    assert last[p - (q - |last|)] == s[p];
  }

  lemma AcceptedSpread(size: nat, keys: seq<DeduplicationKey>)
    ensures Spread(Accepted(Empty(size), keys), Capacity(size))
  {
    var accepted, cap := Accepted(Empty(size), keys), Capacity(size);
    forall p, q | 0 <= p < q < |accepted| && q - p <= cap
      ensures accepted[p] != accepted[q]
    {
      AcceptedKeysAreNew(size, keys, q);
      LastHolds(accepted, cap, p, q);
    }
  }

  lemma SpreadSpacing(s: seq<DeduplicationKey>, cap: nat, i: nat, j: nat)
    requires Spread(s, cap) && i < j < |s| && s[i] == s[j]
    ensures j - i > cap
    ensures |Elements(s[i + 1..j]) - {s[i]}| >= cap
  {
    var between := s[j - cap..j];
    forall p | 0 <= p < cap
      ensures between[p] != s[i] && between[p] in s[i + 1..j]
    {
      assert s[i + 1..j][j - cap + p - (i + 1)] == between[p];
    }
    DistinctCardinality(between);
    SubsetCardinality(Elements(between), Elements(s[i + 1..j]) - {s[i]});
  }

  /** Between two acceptances of one key, at least W different other keys were accepted. */
  lemma AcceptancesAreSpaced(size: nat, keys: seq<DeduplicationKey>, i: nat, j: nat)
    requires var accepted := Accepted(Empty(size), keys); i < j < |accepted| && accepted[i] == accepted[j]
    ensures j - i > Capacity(size)
    ensures var accepted := Accepted(Empty(size), keys);
            |Elements(accepted[i + 1..j]) - {accepted[i]}| >= Capacity(size)
  {
    AcceptedSpread(size, keys);
    SpreadSpacing(Accepted(Empty(size), keys), Capacity(size), i, j);
  }

  lemma AddKeepsLast(w: Window, kept: seq<DeduplicationKey>, k: DeduplicationKey)
    requires Tracks(w) && w.queue == Last(kept, Capacity(w.size)) && k !in w.counts
    ensures Tracks(Add(w, k)) && Add(w, k).queue == Last(kept + [k], Capacity(w.size))
  {
    MakeRoomTracks(w);
    ElementsStep(MakeRoom(w).queue, k);
    LastStep(kept, k, Capacity(w.size));
  }

  lemma OfferKeepsLast(w: Window, start: seq<DeduplicationKey>, accepted: seq<DeduplicationKey>, k: DeduplicationKey)
    requires Tracks(w) && w.queue == Last(start + accepted, Capacity(w.size))
    ensures var after := Offer(w, k);
            && Tracks(after) && after.size == w.size
            && after.queue == Last(start + (if k in w.counts then accepted else accepted + [k]), Capacity(w.size))
  {
    if k !in w.counts {
      AddKeepsLast(w, start + accepted, k);
      assert start + (accepted + [k]) == (start + accepted) + [k];
    }
  }

  /** From any tracking window, a run keeps the last keys of what was there and what it accepted. */
  lemma {:induction false} OfferAllKeepsLast(w: Window, keys: seq<DeduplicationKey>)
    requires Tracks(w) && |w.queue| <= Capacity(w.size)
    ensures var after := OfferAll(w, keys);
            && Tracks(after) && after.size == w.size
            && after.queue == Last(w.queue + Accepted(w, keys), Capacity(w.size))
    ensures |Accepted(w, keys)| <= |keys|
  {
    if keys == [] {
      assert w.queue + [] == w.queue;
    } else {
      var n := |keys| - 1;
      OfferAllKeepsLast(w, keys[..n]);
      OfferKeepsLast(OfferAll(w, keys[..n]), w.queue, Accepted(w, keys[..n]), keys[n]);
    }
  }

  /** Every key offered was known from the start or accepted. */
  lemma {:induction false} OfferedKeysAccountedFor(w: Window, keys: seq<DeduplicationKey>, i: nat)
    requires Tracks(w) && |w.queue| <= Capacity(w.size) && i < |keys|
    ensures keys[i] in w.counts || keys[i] in Accepted(w, keys)
  {
    var n := |keys| - 1;
    if i < n {
      OfferedKeysAccountedFor(w, keys[..n], i);
    } else if keys[n] in OfferAll(w, keys[..n]).counts {
      OfferAllKeepsLast(w, keys[..n]);
      var before := OfferAll(w, keys[..n]);
      assert keys[n] in Elements(before.queue);
      assert keys[n] in w.queue + Accepted(w, keys[..n]);
      assert keys[n] in w.queue ==> keys[n] in Elements(w.queue);
    }
  }

  // ----- offering the same keys a second time

  ghost predicate WellKept(w: Window) {
    Tracks(w) && |w.queue| <= Capacity(w.size)
  }

  /** The key is new when its turn comes. */
  predicate NewAt(w: Window, keys: seq<DeduplicationKey>, i: nat)
    requires i < |keys|
  {
    keys[i] !in OfferAll(w, keys[..i]).counts
  }

  /** How many keys at the front are known already. */
  function Leading(w: Window, keys: seq<DeduplicationKey>): (n: nat)
    ensures n <= |keys| && (forall i | 0 <= i < n :: keys[i] in w.counts) && (n < |keys| ==> keys[n] !in w.counts)
  {
    if keys == [] || keys[0] !in w.counts then 0 else 1 + Leading(w, keys[1..])
  }

  lemma OfferStep(w: Window, keys: seq<DeduplicationKey>, front: seq<DeduplicationKey>, k: DeduplicationKey)
    requires keys == front + [k]
    ensures OfferAll(w, keys) == Offer(OfferAll(w, front), k)
    ensures Accepted(w, keys) == Accepted(w, front) + (if k in OfferAll(w, front).counts then [] else [k])
  {
    assert keys[..|front|] == front;
  }

  lemma SplitLast<T>(a: seq<T>, b: seq<T>)
    requires b != []
    ensures var n := |b| - 1; b == b[..n] + [b[n]] && a + b == (a + b[..n]) + [b[n]]
  {
  }

  lemma AppendAfter<T>(a: seq<T>, b: seq<T>, c: seq<T>)
    ensures (a + b) + c == a + (b + c)
  {
  }

  /** Offering one run after the other. */
  lemma {:induction false} OfferConcat(w: Window, a: seq<DeduplicationKey>, b: seq<DeduplicationKey>)
    ensures OfferAll(w, a + b) == OfferAll(OfferAll(w, a), b)
  {
    if b == [] {
      assert a + b == a;
    } else {
      var front, k := b[..|b| - 1], b[|b| - 1];
      OfferConcat(w, a, front);
      SplitLast(a, b);
      OfferStep(w, a + b, a + front, k);
      OfferStep(OfferAll(w, a), b, front, k);
    }
  }

  lemma {:induction false} AcceptedConcat(w: Window, a: seq<DeduplicationKey>, b: seq<DeduplicationKey>)
    ensures Accepted(w, a + b) == Accepted(w, a) + Accepted(OfferAll(w, a), b)
  {
    if b == [] {
      assert a + b == a;
    } else {
      var front, k := b[..|b| - 1], b[|b| - 1];
      AcceptedConcat(w, a, front);
      OfferConcat(w, a, front);
      SplitLast(a, b);
      OfferStep(w, a + b, a + front, k);
      OfferStep(OfferAll(w, a), b, front, k);
      var last := if k in OfferAll(w, a + front).counts then [] else [k];
      AppendAfter(Accepted(w, a), Accepted(OfferAll(w, a), front), last);
    }
  }

  lemma {:induction false} AcceptedFromKeys(w: Window, keys: seq<DeduplicationKey>)
    ensures forall k <- Accepted(w, keys) :: k in keys
  {
    if keys != [] {
      AcceptedFromKeys(w, keys[..|keys| - 1]);
    }
  }

  lemma AcceptedStep(w: Window, keys: seq<DeduplicationKey>, i: nat)
    requires i < |keys|
    ensures Accepted(w, keys[..i + 1]) == Accepted(w, keys[..i]) + (if NewAt(w, keys, i) then [keys[i]] else [])
  {
    assert keys[..i + 1] == keys[..i] + [keys[i]];
    OfferStep(w, keys[..i + 1], keys[..i], keys[i]);
  }

  /** By its last occurrence. */
  lemma InLastExactlyWhen<T>(s: seq<T>, cap: nat, p: nat)
    requires p < |s| && forall q | p < q < |s| :: s[q] != s[p]
    ensures s[p] in Last(s, cap) <==> p + cap >= |s|
  {
    var last := Last(s, cap);
    if p + cap >= |s| {
      assert last[p - (|s| - |last|)] == s[p];
    }
  }

  /** Known keys at the front change nothing. */
  lemma {:induction false} KnownChangeNothing(w: Window, keys: seq<DeduplicationKey>)
    requires forall k <- keys :: k in w.counts
    ensures OfferAll(w, keys) == w && Accepted(w, keys) == []
  {
    if keys != [] {
      KnownChangeNothing(w, keys[..|keys| - 1]);
    }
  }

  /** Different keys that are all unknown are all accepted. */
  lemma {:induction false} UnseenAreAccepted(w: Window, keys: seq<DeduplicationKey>)
    requires WellKept(w) && Distinct(keys) && forall k <- keys :: k !in w.counts
    ensures Accepted(w, keys) == keys && forall i | 0 <= i < |keys| :: NewAt(w, keys, i)
  {
    if keys != [] {
      var n := |keys| - 1;
      UnseenAreAccepted(w, keys[..n]);
      forall i | 0 <= i < n
        ensures NewAt(w, keys, i)
      {
        assert NewAt(w, keys[..n], i) && keys[..n][..i] == keys[..i];
      }
      UnseenStaysUnseen(w, keys[..n], keys[n]);
      assert keys == keys[..n] + [keys[n]];
    }
  }

  /** A key neither known nor offered stays unknown. */
  lemma UnseenStaysUnseen(w: Window, keys: seq<DeduplicationKey>, k: DeduplicationKey)
    requires WellKept(w) && k !in w.counts && k !in keys
    ensures k !in OfferAll(w, keys).counts
  {
    OfferAllKeepsLast(w, keys);
    AcceptedFromKeys(w, keys);
    var after := OfferAll(w, keys);
    assert k in after.counts ==> k in Elements(after.queue);
    assert k in w.queue ==> k in Elements(w.queue);
  }

  /** The window when `keys` are about to be offered a second time, with other keys offered in between. */
  function Later(w: Window, keys: seq<DeduplicationKey>, between: seq<DeduplicationKey>): Window {
    OfferAll(OfferAll(w, keys), between)
  }

  predicate Apart(keys: seq<DeduplicationKey>, between: seq<DeduplicationKey>) {
    forall k <- keys :: k !in between
  }

  /** How many keys are accepted from key `i` of the first round on up to key `i` of the second. */
  function Lead(w: Window, keys: seq<DeduplicationKey>, between: seq<DeduplicationKey>, i: nat): int
    requires i <= |keys|
  {
    |Accepted(w, keys)| + |Accepted(OfferAll(w, keys), between)| + |Accepted(Later(w, keys, between), keys[..i])| - |Accepted(w, keys[..i])|
  }

  /** All that was accepted, in the order it was accepted. */
  lemma LaterKeepsLast(w: Window, keys: seq<DeduplicationKey>, between: seq<DeduplicationKey>, again: seq<DeduplicationKey>)
    requires WellKept(w)
    ensures var later := Later(w, keys, between);
            var after := OfferAll(later, again);
            && Tracks(after) && after.size == w.size
            && after.queue == Last(w.queue + (Accepted(w, keys) + (Accepted(OfferAll(w, keys), between) + Accepted(later, again))), Capacity(w.size))
  {
    var rest := between + again;
    OfferConcat(w, keys, rest);
    AcceptedConcat(w, keys, rest);
    OfferConcat(OfferAll(w, keys), between, again);
    AcceptedConcat(OfferAll(w, keys), between, again);
    OfferAllKeepsLast(w, keys + rest);
  }

  /** The first round accepts key `i` after those before it, and never again. */
  lemma AcceptedOnce(w: Window, keys: seq<DeduplicationKey>, i: nat)
    requires Distinct(keys) && i < |keys| && NewAt(w, keys, i)
    ensures var accepted, j := Accepted(w, keys), |Accepted(w, keys[..i])|;
            j < |accepted| && accepted[j] == keys[i] && forall q | j < q < |accepted| :: accepted[q] != keys[i]
  {
    var rest := Accepted(OfferAll(w, keys[..i + 1]), keys[i + 1..]);
    assert keys == keys[..i + 1] + keys[i + 1..];
    AcceptedConcat(w, keys[..i + 1], keys[i + 1..]);
    AcceptedStep(w, keys, i);
    AcceptedFromKeys(OfferAll(w, keys[..i + 1]), keys[i + 1..]);
    assert keys[i] !in rest;
  }

  /**
   Different keys offered twice, with other keys in between: a key accepted the first time is accepted again
   exactly when more keys have been accepted since than the window holds.
   */
  lemma NewAgainExactlyWhen(w: Window, keys: seq<DeduplicationKey>, between: seq<DeduplicationKey>, i: nat)
    requires WellKept(w) && Distinct(keys) && i < |keys| && NewAt(w, keys, i) && keys[i] !in between
    ensures NewAt(Later(w, keys, between), keys, i) <==> Lead(w, keys, between, i) > Capacity(w.size)
  {
    var k, j := keys[i], |Accepted(w, keys[..i])|;
    var later := Later(w, keys, between);
    var first, middle, again := Accepted(w, keys), Accepted(OfferAll(w, keys), between), Accepted(later, keys[..i]);
    AcceptedOnce(w, keys, i);
    AcceptedFromKeys(OfferAll(w, keys), between);
    AcceptedFromKeys(later, keys[..i]);
    assert k !in middle && k !in again;
    LaterKeepsLast(w, keys, between, keys[..i]);
    InLastExactlyWhen(w.queue + (first + (middle + again)), Capacity(w.size), |w.queue| + j);
    var before := OfferAll(later, keys[..i]);
    assert k in before.counts <==> k in Elements(before.queue);
  }

  /** While the lead is enough, the second round accepts every key the first accepted. */
  lemma LeadStep(w: Window, keys: seq<DeduplicationKey>, between: seq<DeduplicationKey>, n: nat)
    requires WellKept(w) && Distinct(keys) && n < |keys| && keys[n] !in between
    requires Lead(w, keys, between, n) > Capacity(w.size)
    ensures Lead(w, keys, between, n + 1) >= Lead(w, keys, between, n)
  {
    AcceptedStep(w, keys, n);
    AcceptedStep(Later(w, keys, between), keys, n);
    if NewAt(w, keys, n) {
      NewAgainExactlyWhen(w, keys, between, n);
    }
  }

  lemma {:induction false} LeadIsKept(w: Window, keys: seq<DeduplicationKey>, between: seq<DeduplicationKey>, f: nat, i: nat)
    requires WellKept(w) && Distinct(keys) && f <= i <= |keys| && Apart(keys, between)
    requires Lead(w, keys, between, f) > Capacity(w.size)
    ensures Lead(w, keys, between, i) >= Lead(w, keys, between, f)
    decreases i - f
  {
    if f < i {
      LeadStep(w, keys, between, f);
      LeadIsKept(w, keys, between, f + 1, i);
    }
  }

  lemma LeadingAreKnown(w: Window, keys: seq<DeduplicationKey>, i: nat)
    requires i < |keys| && i <= Leading(w, keys)
    ensures Accepted(w, keys[..i]) == [] && (NewAt(w, keys, i) <==> i == Leading(w, keys))
  {
    KnownChangeNothing(w, keys[..i]);
  }

  /**
   Every key the first round accepted is accepted again exactly when those keys, the keys accepted in between,
   and the known keys at the front that the second round accepts are together more than the window holds.
   */
  lemma AllNewAgainExactlyWhen(w: Window, keys: seq<DeduplicationKey>, between: seq<DeduplicationKey>)
    requires WellKept(w) && Distinct(keys) && Apart(keys, between) && Accepted(w, keys) != []
    ensures var later := Later(w, keys, between);
            (forall i | 0 <= i < |keys| && NewAt(w, keys, i) :: NewAt(later, keys, i)) <==>
            |Accepted(w, keys)| + |Accepted(OfferAll(w, keys), between)| + |Accepted(later, keys[..Leading(w, keys)])| > Capacity(w.size)
  {
    var later, f := Later(w, keys, between), Leading(w, keys);
    if f == |keys| {
      KnownChangeNothing(w, keys);
      assert false;
    }
    LeadingAreKnown(w, keys, f);
    NewAgainExactlyWhen(w, keys, between, f);
    if Lead(w, keys, between, f) > Capacity(w.size) {
      forall i | 0 <= i < |keys| && NewAt(w, keys, i)
        ensures NewAt(later, keys, i)
      {
        if i < f {
          LeadingAreKnown(w, keys, i);
          assert false;
        }
        LeadIsKept(w, keys, between, f, i);
        NewAgainExactlyWhen(w, keys, between, i);
      }
    }
  }

  // ----- adding without looking up

  function AddAll(w: Window, keys: seq<DeduplicationKey>): Window {
    if keys == [] then w else Add(AddAll(w, keys[..|keys| - 1]), keys[|keys| - 1])
  }

  /** In the key set but not in the queue: never to be evicted. */
  predicate Stuck(w: Window, k: DeduplicationKey) {
    k in w.counts && k !in w.queue
  }

  ghost predicate Consistent(w: Window) {
    Distinct(w.queue) && (forall k <- w.queue :: k in w.counts) && (forall k <- w.counts :: w.counts[k] >= 1)
  }

  /** One unguarded `add` keeps the window consistent, and makes stuck exactly an evicted key that was added again. */
  lemma AddSticksRepeated(w: Window, k: DeduplicationKey, x: DeduplicationKey)
    requires Consistent(w)
    ensures Consistent(Add(w, k))
    ensures Stuck(Add(w, k), x) <==>
            || Stuck(w, x)
            || (k !in w.counts && |w.queue| >= w.size && w.queue != [] && x == w.queue[0] && w.counts[x] > 1)
  {
  }

  /** A stuck key stays stuck whatever is added afterwards: it is reported as a duplicate for ever. */
  lemma {:induction false} StuckForever(w: Window, keys: seq<DeduplicationKey>, x: DeduplicationKey)
    requires Consistent(w) && Stuck(w, x)
    ensures Consistent(AddAll(w, keys)) && Stuck(AddAll(w, keys), x)
  {
    if keys != [] {
      var n := |keys| - 1;
      StuckForever(w, keys[..n], x);
      AddSticksRepeated(AddAll(w, keys[..n]), keys[n], x);
    }
  }

  /** Three adds are enough: with a window of 1, a repeated key outlives its queue entry. */
  lemma RepeatedAddSticks(a: DeduplicationKey, b: DeduplicationKey)
    requires a != b
    ensures Stuck(AddAll(Empty(1), [a, a, b]), a)
  {
    assert [a, a, b][..2] == [a, a] && [a, a][..1] == [a] && [a][..0] == [];
    assert AddAll(Empty(1), [a]) == Add(Empty(1), a);
    assert AddAll(Empty(1), [a, a]) == Add(Add(Empty(1), a), a);
    assert AddAll(Empty(1), [a, a, b]) == Add(Add(Add(Empty(1), a), a), b);
  }
}
