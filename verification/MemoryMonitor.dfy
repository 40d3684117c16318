/**
 Memory accounting under concurrency (src/pipeline/memory_monitor.rs). Any
 number of allocations are in flight; each moves through its atomic steps in any
 interleaving. Counters are 64-bit and wrap.
 */
module MemoryMonitor {
  import opened Wrappers

  const WORD := 0x1_0000_0000_0000_0000

  type U64 = n: int | 0 <= n < WORD

  datatype Kind = Queue | Checkpoint

  /**
   Where one allocation stands: `Requested`, added and over the limit (`Rejected`, not yet taken back),
   added and accepted but not yet counted as an event (`Accepted`), held by a live guard (`Live`), dropped
   but still counted (`Uncounting`), or over (`Done`).
   */
  datatype Phase = Requested | Rejected | Accepted | Live | Uncounting | Done
  datatype Allocation = Allocation(kind: Kind, size: U64, phase: Phase)

  datatype State = State(maxQueue: U64, maxCheckpoint: U64, queue: U64, checkpoint: U64, events: U64, allocations: seq<Allocation>)

  // ----- what each allocation contributes

  predicate Counted(a: Allocation, kind: Kind) {
    a.kind == kind && (a.phase == Rejected || a.phase == Accepted || a.phase == Live)
  }

  function Bytes(allocations: seq<Allocation>, kind: Kind): nat {
    if allocations == [] then 0
    else Bytes(allocations[1..], kind) + Weight(allocations[0], kind)
  }

  function Weight(a: Allocation, kind: Kind): nat {
    if Counted(a, kind) then a.size else 0
  }

  /** Bytes held by guards that have been, or are being, handed out. */
  function LiveBytes(allocations: seq<Allocation>, kind: Kind): nat {
    if allocations == [] then 0
    else LiveBytes(allocations[1..], kind) + LiveWeight(allocations[0], kind)
  }

  function LiveWeight(a: Allocation, kind: Kind): nat {
    if a.kind == kind && (a.phase == Live || a.phase == Accepted) then a.size else 0
  }

  predicate CountedEvent(a: Allocation) {
    a.kind == Queue && (a.phase == Live || a.phase == Uncounting)
  }

  function Events(allocations: seq<Allocation>): nat {
    if allocations == [] then 0 else Events(allocations[1..]) + (if CountedEvent(allocations[0]) then 1 else 0)
  }

  // ----- atomic steps

  function Counter(s: State, kind: Kind): U64 {
    if kind == Queue then s.queue else s.checkpoint
  }

  function Limit(s: State, kind: Kind): U64 {
    if kind == Queue then s.maxQueue else s.maxCheckpoint
  }

  function WithCounter(s: State, kind: Kind, v: U64): State {
    if kind == Queue then s.(queue := v) else s.(checkpoint := v)
  }

  function Wrap(n: int): U64 {
    n % WORD
  }

  /** Fetch-add and fetch-sub. */
  function AddWrapping(c: U64, n: U64): U64 {
    if c + n >= WORD then c + n - WORD else c + n
  }

  function SubWrapping(c: U64, n: U64): U64 {
    if c >= n then c - n else c - n + WORD
  }

  datatype Step = Arrive(kind: Kind, size: U64) | Advance(i: nat) | Drop(i: nat)

  /** The new value of the counter after the fetch-add of a request, as the code recomputes it. */
  function NewTotal(s: State, a: Allocation): U64 {
    AddWrapping(Counter(s, a.kind), a.size)
  }

  function SetPhase(s: State, i: nat, phase: Phase): State
    requires i < |s.allocations|
  {
    s.(allocations := s.allocations[i := s.allocations[i].(phase := phase)])
  }

  /**
   One atomic step: a new request arrives; or allocation `i` takes its next step by itself (add, take back,
   count, uncount); or the owner of live guard `i` drops it.
   */
  function Next(s: State, step: Step): State {
    match step
    case Arrive(kind, size) => s.(allocations := s.allocations + [Allocation(kind, size, Requested)])
    case Advance(i) =>
      if i >= |s.allocations| then s
      else
        var a := s.allocations[i];
        (match a.phase
         case Requested =>
           var total := NewTotal(s, a);
           WithCounter(SetPhase(s, i, if total > Limit(s, a.kind) then Rejected else if a.kind == Queue then Accepted else Live),
                       a.kind, total)
         case Rejected => WithCounter(SetPhase(s, i, Done), a.kind, SubWrapping(Counter(s, a.kind), a.size))
         case Accepted => SetPhase(s, i, Live).(events := AddWrapping(s.events, 1))
         case Uncounting => SetPhase(s, i, Done).(events := SubWrapping(s.events, 1))
         case _ => s)
    case Drop(i) =>
      if i >= |s.allocations| || s.allocations[i].phase != Live then s
      else
        var a := s.allocations[i];
        WithCounter(SetPhase(s, i, if a.kind == Queue then Uncounting else Done), a.kind, SubWrapping(Counter(s, a.kind), a.size))
  }

  function Run(s: State, steps: seq<Step>): State {
    if steps == [] then s else Next(Run(s, steps[..|steps| - 1]), steps[|steps| - 1])
  }

  function Fresh(maxQueue: U64, maxCheckpoint: U64): State {
    State(maxQueue, maxCheckpoint, 0, 0, 0, [])
  }

  // ----- sums under the change of one allocation

  lemma {:induction false} SumsAfterUpdate(s: seq<Allocation>, i: nat, a: Allocation, kind: Kind)
    requires i < |s|
    ensures Bytes(s[i := a], kind) == Bytes(s, kind) - Weight(s[i], kind) + Weight(a, kind)
    ensures LiveBytes(s[i := a], kind) == LiveBytes(s, kind) - LiveWeight(s[i], kind) + LiveWeight(a, kind)
    ensures Events(s[i := a]) == Events(s) - (if CountedEvent(s[i]) then 1 else 0) + (if CountedEvent(a) then 1 else 0)
  {
    if i > 0 {
      SumsAfterUpdate(s[1..], i - 1, a, kind);
      assert s[i := a][1..] == s[1..][i - 1 := a];
    } else {
      assert s[i := a][1..] == s[1..];
    }
  }

  lemma {:induction false} SumsAfterAppend(s: seq<Allocation>, a: Allocation, kind: Kind)
    ensures Bytes(s + [a], kind) == Bytes(s, kind) + Weight(a, kind)
    ensures LiveBytes(s + [a], kind) == LiveBytes(s, kind) + LiveWeight(a, kind)
    ensures Events(s + [a]) == Events(s) + (if CountedEvent(a) then 1 else 0)
  {
    if s == [] {
      assert [a][1..] == [];
    } else {
      SumsAfterAppend(s[1..], a, kind);
      assert (s + [a])[1..] == s[1..] + [a];
    }
  }

  lemma {:induction false} LiveAtMostCounted(s: seq<Allocation>, kind: Kind)
    ensures LiveBytes(s, kind) <= Bytes(s, kind)
  {
    if s != [] {
      LiveAtMostCounted(s[1..], kind);
    }
  }

  lemma {:induction false} PartOfSum(s: seq<Allocation>, i: nat, kind: Kind)
    requires i < |s|
    ensures Weight(s[i], kind) <= Bytes(s, kind) && LiveWeight(s[i], kind) <= LiveBytes(s, kind)
    ensures CountedEvent(s[i]) ==> Events(s) >= 1
  {
    if i > 0 {
      PartOfSum(s[1..], i - 1, kind);
    }
  }

  // ----- every interleaving

  /** Only queue allocations pass through the event count. */
  predicate WellPhased(allocations: seq<Allocation>) {
    forall i | 0 <= i < |allocations| :: allocations[i].kind == Checkpoint ==>
      allocations[i].phase != Accepted && allocations[i].phase != Uncounting
  }

  /** The counters are the sums of what is live or not yet taken back, modulo the word size. */
  ghost predicate Accounted(s: State) {
    && WellPhased(s.allocations)
    && s.queue == Wrap(Bytes(s.allocations, Queue))
    && s.checkpoint == Wrap(Bytes(s.allocations, Checkpoint))
    && s.events == Wrap(Events(s.allocations))
  }

  lemma WrapAdd(sum: nat, n: U64)
    ensures AddWrapping(Wrap(sum), n) == Wrap(sum + n)
  {
  }

  lemma WrapSub(sum: nat, n: U64)
    ensures SubWrapping(Wrap(sum), n) == Wrap(sum - n)
  {
  }

  lemma WrapSmall(n: int)
    requires 0 <= n < WORD
    ensures Wrap(n) == n
  {
  }

  lemma StepAccounted(s: State, step: Step)
    requires Accounted(s)
    ensures Accounted(Next(s, step))
  {
    var all := s.allocations;
    match step
    case Arrive(kind, size) =>
      SumsAfterAppend(all, Allocation(kind, size, Requested), Queue);
      SumsAfterAppend(all, Allocation(kind, size, Requested), Checkpoint);
    case Advance(i) =>
      if i < |all| {
        match all[i].phase
        case Requested => AddAccounted(s, i);
        case Rejected => TakeBackAccounted(s, i);
        case Accepted => CountAccounted(s, i);
        case Uncounting => CountAccounted(s, i);
        case _ =>
      }
    case Drop(i) =>
      if i < |all| && all[i].phase == Live {
        DropAccounted(s, i);
      }
  }

  /** One allocation changes its phase: both sums of bytes and the count of events change by its own part. */
  lemma SumsAfterPhase(all: seq<Allocation>, i: nat, b: Allocation)
    requires i < |all| && WellPhased(all) && b.kind == all[i].kind
    requires b.kind == Checkpoint ==> b.phase != Accepted && b.phase != Uncounting
    ensures WellPhased(all[i := b])
    ensures forall kind :: Bytes(all[i := b], kind) == Bytes(all, kind) - Weight(all[i], kind) + Weight(b, kind)
    ensures Events(all[i := b]) == Events(all) - (if CountedEvent(all[i]) then 1 else 0) + (if CountedEvent(b) then 1 else 0)
  {
    forall kind
      ensures Bytes(all[i := b], kind) == Bytes(all, kind) - Weight(all[i], kind) + Weight(b, kind)
    {
      SumsAfterUpdate(all, i, b, kind);
    }
    SumsAfterUpdate(all, i, b, Queue);
  }

  /** Where only the counter of one kind and its sum moved, the others still agree. */
  lemma AccountedWith(s: State, t: State, kind: Kind)
    requires Accounted(s) && WellPhased(t.allocations)
    requires t == WithCounter(s.(allocations := t.allocations), kind, Counter(t, kind))
    requires Counter(t, kind) == Wrap(Bytes(t.allocations, kind)) && Events(t.allocations) == Events(s.allocations)
    requires forall other | other != kind :: Bytes(t.allocations, other) == Bytes(s.allocations, other)
    ensures Accounted(t)
  {
  }

  lemma AddAccounted(s: State, i: nat)
    requires Accounted(s) && i < |s.allocations| && s.allocations[i].phase == Requested
    ensures Accounted(Next(s, Advance(i)))
  {
    var a, t := s.allocations[i], Next(s, Advance(i));
    var b := t.allocations[i];
    assert t.allocations == s.allocations[i := b];
    SumsAfterPhase(s.allocations, i, b);
    WrapAdd(Bytes(s.allocations, a.kind), a.size);
    AccountedWith(s, t, a.kind);
  }

  /** The bytes of an allocation are taken off its counter. */
  lemma SubAccounted(s: State, t: State, i: nat, b: Allocation)
    requires Accounted(s) && i < |s.allocations| && Counted(s.allocations[i], s.allocations[i].kind)
    requires b.kind == s.allocations[i].kind && (b.phase == Done || (b.kind == Queue && b.phase == Uncounting))
    requires CountedEvent(b) <==> CountedEvent(s.allocations[i])
    requires t == WithCounter(s.(allocations := s.allocations[i := b]), b.kind,
                              SubWrapping(Counter(s, b.kind), s.allocations[i].size))
    ensures Accounted(t)
  {
    SumsAfterPhase(s.allocations, i, b);
    WrapSub(Bytes(s.allocations, b.kind), s.allocations[i].size);
    AccountedWith(s, t, b.kind);
  }

  lemma TakeBackAccounted(s: State, i: nat)
    requires Accounted(s) && i < |s.allocations| && s.allocations[i].phase == Rejected
    ensures Accounted(Next(s, Advance(i)))
  {
    SubAccounted(s, Next(s, Advance(i)), i, s.allocations[i].(phase := Done));
  }

  lemma DropAccounted(s: State, i: nat)
    requires Accounted(s) && i < |s.allocations| && s.allocations[i].phase == Live
    ensures Accounted(Next(s, Drop(i)))
  {
    var a := s.allocations[i];
    SubAccounted(s, Next(s, Drop(i)), i, a.(phase := if a.kind == Queue then Uncounting else Done));
  }

  lemma CountAccounted(s: State, i: nat)
    requires Accounted(s) && i < |s.allocations|
    requires s.allocations[i].phase == Accepted || s.allocations[i].phase == Uncounting
    ensures Accounted(Next(s, Advance(i)))
  {
    var a, t := s.allocations[i], Next(s, Advance(i));
    var b := t.allocations[i];
    assert a.kind == Queue && t.allocations == s.allocations[i := b];
    SumsAfterPhase(s.allocations, i, b);
    if a.phase == Accepted {
      WrapAdd(Events(s.allocations), 1);
    } else {
      WrapSub(Events(s.allocations), 1);
    }
  }

  /** Unconditionally, in every interleaving. */
  lemma {:induction false} RunAccounted(maxQueue: U64, maxCheckpoint: U64, steps: seq<Step>)
    ensures var s := Run(Fresh(maxQueue, maxCheckpoint), steps);
            Accounted(s) && s.maxQueue == maxQueue && s.maxCheckpoint == maxCheckpoint
  {
    if steps != [] {
      RunAccounted(maxQueue, maxCheckpoint, steps[..|steps| - 1]);
      StepAccounted(Run(Fresh(maxQueue, maxCheckpoint), steps[..|steps| - 1]), steps[|steps| - 1]);
    }
  }

  /** No request of the run makes the bytes in flight reach the word size. */
  ghost predicate InRange(s: State) {
    Bytes(s.allocations, Queue) < WORD && Bytes(s.allocations, Checkpoint) < WORD && Events(s.allocations) < WORD
  }

  ghost predicate AlwaysInRange(s: State, steps: seq<Step>) {
    forall n | 0 <= n <= |steps| :: InRange(Run(s, steps[..n]))
  }

  ghost predicate WithinLimits(s: State) {
    LiveBytes(s.allocations, Queue) <= s.maxQueue && LiveBytes(s.allocations, Checkpoint) <= s.maxCheckpoint
  }

  lemma AddWithinLimits(s: State, i: nat)
    requires Accounted(s) && WithinLimits(s) && InRange(s) && InRange(Next(s, Advance(i)))
    requires i < |s.allocations| && s.allocations[i].phase == Requested
    ensures WithinLimits(Next(s, Advance(i)))
  {
    var all, a := s.allocations, s.allocations[i];
    var after := Next(s, Advance(i)).allocations;
    SumsAfterUpdate(all, i, after[i], Queue);
    SumsAfterUpdate(all, i, after[i], Checkpoint);
    LiveAtMostCounted(all, a.kind);
    ExactWhenInRange(s);
    assert NewTotal(s, a) == Bytes(all, a.kind) + a.size;
  }

  lemma StepWithinLimits(s: State, step: Step)
    requires Accounted(s) && WithinLimits(s) && InRange(s) && InRange(Next(s, step))
    ensures WithinLimits(Next(s, step))
  {
    var all := s.allocations;
    match step
    case Arrive(kind, size) =>
      SumsAfterAppend(all, Allocation(kind, size, Requested), Queue);
      SumsAfterAppend(all, Allocation(kind, size, Requested), Checkpoint);
    case Advance(i) =>
      if i < |all| && all[i].phase == Requested {
        AddWithinLimits(s, i);
      } else if i < |all| {
        NoneAddedWithinLimits(s, step, i);
      }
    case Drop(i) =>
      if i < |all| {
        NoneAddedWithinLimits(s, step, i);
      }
  }

  lemma NoneAddedWithinLimits(s: State, step: Step, i: nat)
    requires WithinLimits(s) && i < |s.allocations| && (step == Drop(i) || step == Advance(i))
    requires s.allocations[i].phase == Requested ==> step == Drop(i)
    ensures WithinLimits(Next(s, step))
  {
    var after := Next(s, step).allocations;
    SumsAfterUpdate(s.allocations, i, after[i], Queue);
    SumsAfterUpdate(s.allocations, i, after[i], Checkpoint);
    assert after == s.allocations[i := after[i]];
  }

  /**
   In every interleaving whose sums stay below the word size: each counter is exactly the live and not yet
   taken back bytes, guards never exceed a limit, and no counter is decremented below zero.
   */
  lemma {:induction false} AccountingIsExact(maxQueue: U64, maxCheckpoint: U64, steps: seq<Step>)
    requires AlwaysInRange(Fresh(maxQueue, maxCheckpoint), steps)
    ensures var s := Run(Fresh(maxQueue, maxCheckpoint), steps);
            && s.queue == Bytes(s.allocations, Queue) && s.checkpoint == Bytes(s.allocations, Checkpoint)
            && s.events == Events(s.allocations)
            && WithinLimits(s)
            && (forall i | 0 <= i < |s.allocations| :: NeverUnderflows(s, i))
  {
    var start := Fresh(maxQueue, maxCheckpoint);
    var s := Run(start, steps);
    assert steps[..|steps|] == steps;
    RunWithinLimits(maxQueue, maxCheckpoint, steps);
    ExactWhenInRange(s);
    forall i | 0 <= i < |s.allocations|
      ensures NeverUnderflows(s, i)
    {
      PartOfSum(s.allocations, i, s.allocations[i].kind);
    }
  }

  lemma ExactWhenInRange(s: State)
    requires Accounted(s) && InRange(s)
    ensures s.queue == Bytes(s.allocations, Queue) && s.checkpoint == Bytes(s.allocations, Checkpoint)
    ensures s.events == Events(s.allocations)
  {
  }

  lemma {:induction false} RunWithinLimits(maxQueue: U64, maxCheckpoint: U64, steps: seq<Step>)
    requires AlwaysInRange(Fresh(maxQueue, maxCheckpoint), steps)
    ensures var s := Run(Fresh(maxQueue, maxCheckpoint), steps); Accounted(s) && WithinLimits(s) && InRange(s)
  {
    var start := Fresh(maxQueue, maxCheckpoint);
    assert steps[..|steps|] == steps;
    if steps != [] {
      var n := |steps| - 1;
      forall k | 0 <= k <= n
        ensures steps[..n][..k] == steps[..k]
      {
      }
      RunWithinLimits(maxQueue, maxCheckpoint, steps[..n]);
      StepAccounted(Run(start, steps[..n]), steps[n]);
      StepWithinLimits(Run(start, steps[..n]), steps[n]);
    }
  }

  /** Whatever allocation `i` may subtract next is there to be subtracted. */
  predicate NeverUnderflows(s: State, i: nat)
    requires i < |s.allocations|
  {
    var a := s.allocations[i];
    && (a.phase == Rejected || a.phase == Live ==> Counter(s, a.kind) >= a.size)
    && (a.phase == Uncounting ==> s.events >= 1)
  }

  predicate Quiescent(s: State) {
    forall i | 0 <= i < |s.allocations| :: s.allocations[i].phase == Live || s.allocations[i].phase == Done
  }

  function LiveGuards(allocations: seq<Allocation>): nat {
    if allocations == [] then 0
    else LiveGuards(allocations[1..]) + (if allocations[0] == Allocation(Queue, allocations[0].size, Live) then 1 else 0)
  }

  lemma {:induction false} QuiescentSums(s: seq<Allocation>, kind: Kind)
    requires forall i | 0 <= i < |s| :: s[i].phase == Live || s[i].phase == Done
    ensures Events(s) == LiveGuards(s) && Bytes(s, kind) == LiveBytes(s, kind)
  {
    if s != [] {
      QuiescentSums(s[1..], kind);
    }
  }

  /** At rest the event count is the number of live queue guards and the counters are their bytes. */
  lemma {:induction false} AtRest(maxQueue: U64, maxCheckpoint: U64, steps: seq<Step>)
    requires AlwaysInRange(Fresh(maxQueue, maxCheckpoint), steps)
    requires Quiescent(Run(Fresh(maxQueue, maxCheckpoint), steps))
    ensures var s := Run(Fresh(maxQueue, maxCheckpoint), steps);
            && s.events == LiveGuards(s.allocations)
            && s.queue == LiveBytes(s.allocations, Queue) && s.checkpoint == LiveBytes(s.allocations, Checkpoint)
  {
    AccountingIsExact(maxQueue, maxCheckpoint, steps);
    QuiescentSums(Run(Fresh(maxQueue, maxCheckpoint), steps).allocations, Queue);
    QuiescentSums(Run(Fresh(maxQueue, maxCheckpoint), steps).allocations, Checkpoint);
  }

  /** Admission in one step, of either kind: the limit is respected exactly unless the addition wraps. */
  lemma AdmitsOverLimitExactlyWhenWrapping(s: State, i: nat)
    requires Accounted(s) && i < |s.allocations| && s.allocations[i].phase == Requested
    requires Bytes(s.allocations, s.allocations[i].kind) < WORD
    ensures var a := s.allocations[i];
            var after := Next(s, Advance(i));
            after.allocations[i].phase != Rejected && Bytes(after.allocations, a.kind) > Limit(s, a.kind)
            <==> Counter(s, a.kind) + a.size >= WORD && Counter(s, a.kind) + a.size - WORD <= Limit(s, a.kind)
  {
    var a, after := s.allocations[i], Next(s, Advance(i)).allocations;
    assert after == s.allocations[i := after[i]];
    SumsAfterUpdate(s.allocations, i, after[i], a.kind);
    var sum := Bytes(s.allocations, a.kind);
    WrapSmall(sum);
    assert Counter(s, a.kind) == sum;
    if sum + a.size >= WORD {
      assert NewTotal(s, a) == sum + a.size - WORD;
    } else {
      assert NewTotal(s, a) == sum + a.size;
    }
  }

  /** With a limit of 10, one guard of 10 bytes and then one of nearly the word size are both handed out. */
  lemma WrappingIsReached()
    ensures var steps := [Arrive(Queue, 10), Advance(0), Arrive(Queue, WORD - 1), Advance(1)];
            var s := Run(Fresh(10, 10), steps);
            |s.allocations| == 2 && s.allocations[1].phase == Accepted && LiveBytes(s.allocations, Queue) > s.maxQueue && s.queue == 9
  {
    var steps := [Arrive(Queue, 10), Advance(0), Arrive(Queue, WORD - 1), Advance(1)];
    assert steps[..3][..2] == steps[..2] && steps[..2][..1] == steps[..1] && steps[..1][..0] == [];
    var a, b := Allocation(Queue, 10, Accepted), Allocation(Queue, WORD - 1, Requested);
    assert Run(Fresh(10, 10), steps[..1]).allocations == [Allocation(Queue, 10, Requested)];
    assert Run(Fresh(10, 10), steps[..2]).allocations == [a];
    assert Run(Fresh(10, 10), steps[..3]) == State(10, 10, 10, 0, 0, [a, b]);
    var s := Run(Fresh(10, 10), steps);
    assert s.allocations == [a, b.(phase := Accepted)];
    assert s.allocations[1..] == [b.(phase := Accepted)] && s.allocations[1..][1..] == [];
  }

  // ----- the monitor

  datatype MonitorError = ResourceExhausted

  class Monitor {
    const maxQueueMemory: U64
    const maxCheckpointMemory: U64
    var currentQueueMemory: U64
    var currentCheckpointMemory: U64
    var eventCount: U64
    ghost var allocations: seq<Allocation>

    ghost function Model(): State
      reads this
    {
      State(maxQueueMemory, maxCheckpointMemory, currentQueueMemory, currentCheckpointMemory, eventCount, allocations)
    }

    constructor (maxQueueMemory: U64, maxCheckpointMemory: U64)
      ensures Model() == Fresh(maxQueueMemory, maxCheckpointMemory)
    {
      this.maxQueueMemory, this.maxCheckpointMemory := maxQueueMemory, maxCheckpointMemory;
      currentQueueMemory, currentCheckpointMemory, eventCount := 0, 0, 0;
      allocations := [];
    }

    /** The fetch-add of a queue request and the comparison of the recomputed total. */
    method AddQueueMemory(size: U64, ghost i: nat) returns (accepted: bool)
      requires i < |allocations| && allocations[i] == Allocation(Queue, size, Requested)
      modifies this
      ensures Model() == Next(old(Model()), Advance(i))
      ensures accepted <==> allocations[i].phase == Accepted
    {
      currentQueueMemory := AddWrapping(currentQueueMemory, size);
      accepted := currentQueueMemory <= maxQueueMemory;
      allocations := allocations[i := Allocation(Queue, size, if accepted then Accepted else Rejected)];
    }

    method TakeBackQueueMemory(size: U64, ghost i: nat)
      requires i < |allocations| && allocations[i] == Allocation(Queue, size, Rejected)
      modifies this
      ensures Model() == Next(old(Model()), Advance(i))
    {
      currentQueueMemory := SubWrapping(currentQueueMemory, size);
      allocations := allocations[i := Allocation(Queue, size, Done)];
    }

    method CountEvent(ghost i: nat)
      requires i < |allocations| && allocations[i].kind == Queue && allocations[i].phase == Accepted
      modifies this
      ensures Model() == Next(old(Model()), Advance(i))
    {
      eventCount := AddWrapping(eventCount, 1);
      allocations := allocations[i := allocations[i].(phase := Live)];
    }

    /** `track_event_memory`, its steps taken without another thread in between. */
    method TrackEventMemory(size: U64) returns (r: Result<nat, MonitorError>)
      modifies this
      ensures var i := |old(allocations)|;
              var asked := Next(old(Model()), Arrive(Queue, size));
              && Model() == Next(Next(asked, Advance(i)), Advance(i))
              && (r.Ok? <==> allocations[i].phase == Live)
              && (r.Ok? ==> currentQueueMemory <= maxQueueMemory && currentQueueMemory == AddWrapping(old(currentQueueMemory), size)
                            && eventCount == AddWrapping(old(eventCount), 1))
              && (r.Err? ==> currentQueueMemory == old(currentQueueMemory) && eventCount == old(eventCount))
    {
      ghost var i := |allocations|;
      allocations := allocations + [Allocation(Queue, size, Requested)];
      var accepted := AddQueueMemory(size, i);
      if !accepted {
        TakeBackQueueMemory(size, i);
        return Err(ResourceExhausted);
      }
      CountEvent(i);
      r := Ok(size);
    }

    /** `track_checkpoint_memory`, without another thread in between. */
    method TrackCheckpointMemory(size: U64) returns (r: Result<nat, MonitorError>)
      modifies this
      ensures var i := |old(allocations)|;
              var asked := Next(old(Model()), Arrive(Checkpoint, size));
              && Model() == (if r.Ok? then Next(asked, Advance(i)) else Next(Next(asked, Advance(i)), Advance(i)))
              && (r.Ok? <==> allocations[i].phase == Live)
              && (r.Ok? ==> currentCheckpointMemory <= maxCheckpointMemory)
              && (r.Err? ==> currentCheckpointMemory == old(currentCheckpointMemory))
    {
      ghost var i := |allocations|;
      allocations := allocations + [Allocation(Checkpoint, size, Requested)];
      currentCheckpointMemory := AddWrapping(currentCheckpointMemory, size);
      if currentCheckpointMemory > maxCheckpointMemory {
        currentCheckpointMemory := SubWrapping(currentCheckpointMemory, size);
        allocations := allocations[i := Allocation(Checkpoint, size, Done)];
        return Err(ResourceExhausted);
      }
      allocations := allocations[i := Allocation(Checkpoint, size, Live)];
      r := Ok(size);
    }

    /** `release_memory`, run when a guard is dropped. */
    method ReleaseMemory(kind: Kind, size: U64, ghost i: nat)
      requires i < |allocations| && allocations[i] == Allocation(kind, size, Live)
      modifies this
      ensures Model() == if kind == Queue then Next(Next(old(Model()), Drop(i)), Advance(i)) else Next(old(Model()), Drop(i))
    {
      if kind == Queue {
        currentQueueMemory := SubWrapping(currentQueueMemory, size);
        eventCount := SubWrapping(eventCount, 1);
      } else {
        currentCheckpointMemory := SubWrapping(currentCheckpointMemory, size);
      }
      allocations := allocations[i := Allocation(kind, size, Done)];
    }
  }
}
