/**
 Shared work queues (src/pipeline/parallel_processor.rs): workers drain batches
 from their table's queue, process and send them; a coordinator moves events from
 long queues to short ones. Events are tracked by the value that was enqueued.
 */
module ParallelProcessor {
  import opened Wrappers
  import opened Events

  const BATCH := 10
  const IMBALANCE := 100

  function Min(a: int, b: int): int {
    if a < b then a else b
  }

  // ----- conservation under every interleaving

  /** A worker between draining and sending: what is left to process, and what passed (by its original event). */
  datatype Hand = Hand(raw: seq<Event>, passed: seq<Event>)

  datatype State = State(
    queues: seq<seq<Event>>,
    hands: seq<Hand>,
    stolen: seq<Event>,
    sent: seq<Event>,
    filtered: seq<Event>,
    discarded: seq<Event>)

  /**
   One atomic step of anyone: a producer enqueues; worker `w` drains its table's queue, processes its next
   event (`keep` is the verdict of filter, transformer and mapper) or sends its batch over a channel that may
   be closed; the coordinator steals from one queue, by a size it may have read long ago, or hands over.
   */
  datatype Step =
    | Enqueue(q: nat, events: seq<Event>)
    | Drain(w: nat, q: nat)
    | Process(w: nat, keep: bool)
    | Send(w: nat, open: bool)
    | Steal(q: nat, count: nat)
    | HandOver(q: nat)

  /** The last events of the queue, newest first: they are popped one by one. */
  function Popped(queue: seq<Event>, n: nat): (r: seq<Event>)
    requires n <= |queue|
    ensures |r| == n
  {
    if n == 0 then [] else [queue[|queue| - 1]] + Popped(queue[..|queue| - 1], n - 1)
  }

  /** A steal takes at most half of the queue. */
  function StealCount(queue: seq<Event>, count: nat): nat {
    Min(count, |queue| / 2)
  }

  function Next(s: State, step: Step): State {
    match step
    case Enqueue(q, events) =>
      if q < |s.queues| then s.(queues := s.queues[q := s.queues[q] + events]) else s
    case Drain(w, q) =>
      if w < |s.hands| && q < |s.queues| && s.hands[w] == Hand([], []) then
        var n := Min(BATCH, |s.queues[q]|);
        s.(queues := s.queues[q := s.queues[q][n..]], hands := s.hands[w := Hand(s.queues[q][..n], [])])
      else s
    case Process(w, keep) =>
      if w < |s.hands| && s.hands[w].raw != [] then
        var h := s.hands[w];
        if keep then s.(hands := s.hands[w := Hand(h.raw[1..], h.passed + [h.raw[0]])])
        else s.(hands := s.hands[w := Hand(h.raw[1..], h.passed)], filtered := s.filtered + [h.raw[0]])
      else s
    case Send(w, open) =>
      if w < |s.hands| && s.hands[w].raw == [] then
        var emptied := s.(hands := s.hands[w := Hand([], [])]);
        if open then emptied.(sent := s.sent + s.hands[w].passed) else emptied.(discarded := s.discarded + s.hands[w].passed)
      else s
    case Steal(q, count) =>
      if q < |s.queues| && s.stolen == [] then
        var n := StealCount(s.queues[q], count);
        s.(queues := s.queues[q := s.queues[q][..|s.queues[q]| - n]], stolen := Popped(s.queues[q], n))
      else s
    case HandOver(q) =>
      if q < |s.queues| then s.(queues := s.queues[q := s.queues[q] + s.stolen], stolen := []) else s
  }

  function Run(s: State, steps: seq<Step>): State {
    if steps == [] then s else Next(Run(s, steps[..|steps| - 1]), steps[|steps| - 1])
  }

  /** How often `e` is in a list, in all queues, in all hands. */
  function Count(events: seq<Event>, e: Event): nat {
    if events == [] then 0 else (if events[0] == e then 1 else 0) + Count(events[1..], e)
  }

  function InQueues(queues: seq<seq<Event>>, e: Event): nat {
    if queues == [] then 0 else Count(queues[0], e) + InQueues(queues[1..], e)
  }

  function InHand(h: Hand, e: Event): nat {
    Count(h.raw, e) + Count(h.passed, e)
  }

  function InHands(hands: seq<Hand>, e: Event): nat {
    if hands == [] then 0 else InHand(hands[0], e) + InHands(hands[1..], e)
  }

  /** All the places `e` can be: a queue, a worker's hand, the coordinator's hand, sent, filtered out, discarded. */
  function Everywhere(s: State, e: Event): nat {
    InQueues(s.queues, e) + InHands(s.hands, e) + Count(s.stolen, e) + Count(s.sent, e) + Count(s.filtered, e) + Count(s.discarded, e)
  }

  /** How often one step, and a run, enqueues `e`. */
  function Adds(s: State, step: Step, e: Event): nat {
    if step.Enqueue? && step.q < |s.queues| then Count(step.events, e) else 0
  }

  function Enqueued(s: State, steps: seq<Step>, e: Event): nat {
    if steps == [] then 0
    else
      var n := |steps| - 1;
      Enqueued(s, steps[..n], e) + Adds(Run(s, steps[..n]), steps[n], e)
  }

  lemma {:induction false} InQueuesUpdate(queues: seq<seq<Event>>, q: nat, queue: seq<Event>, e: Event)
    requires q < |queues|
    ensures InQueues(queues[q := queue], e) == InQueues(queues, e) - Count(queues[q], e) + Count(queue, e)
  {
    if q == 0 {
      assert queues[q := queue][1..] == queues[1..];
    } else {
      InQueuesUpdate(queues[1..], q - 1, queue, e);
      assert queues[q := queue][1..] == queues[1..][q - 1 := queue];
    }
  }

  lemma {:induction false} InHandsUpdate(hands: seq<Hand>, w: nat, hand: Hand, e: Event)
    requires w < |hands|
    ensures InHands(hands[w := hand], e) == InHands(hands, e) - InHand(hands[w], e) + InHand(hand, e)
  {
    if w == 0 {
      assert hands[w := hand][1..] == hands[1..];
    } else {
      InHandsUpdate(hands[1..], w - 1, hand, e);
      assert hands[w := hand][1..] == hands[1..][w - 1 := hand];
    }
  }

  lemma {:induction false} CountConcat(a: seq<Event>, b: seq<Event>, e: Event)
    ensures Count(a + b, e) == Count(a, e) + Count(b, e)
  {
    if a == [] {
      assert [] + b == b;
    } else {
      CountConcat(a[1..], b, e);
      assert (a + b)[1..] == a[1..] + b;
    }
  }

  lemma CountSnoc(events: seq<Event>, x: Event, e: Event)
    ensures Count(events + [x], e) == Count(events, e) + (if x == e then 1 else 0)
  {
    CountConcat(events, [x], e);
  }

  lemma CountSplit(events: seq<Event>, n: nat, e: Event)
    requires n <= |events|
    ensures Count(events, e) == Count(events[..n], e) + Count(events[n..], e)
  {
    CountConcat(events[..n], events[n..], e);
    assert events == events[..n] + events[n..];
  }

  /** What a steal takes off the end comes out reversed. */
  lemma {:induction false} PoppedIsReversedSuffix(queue: seq<Event>, n: nat)
    requires n <= |queue|
    ensures forall i | 0 <= i < n :: Popped(queue, n)[i] == queue[|queue| - 1 - i]
  {
    if n > 0 {
      PoppedIsReversedSuffix(queue[..|queue| - 1], n - 1);
    }
  }

  lemma {:induction false} PoppedConserves(queue: seq<Event>, n: nat, e: Event)
    requires n <= |queue|
    ensures Count(queue, e) == Count(queue[..|queue| - n], e) + Count(Popped(queue, n), e)
  {
    if n == 0 {
      assert queue[..|queue|] == queue;
    } else {
      var m := |queue| - 1;
      var last := queue[m..];
      PoppedConserves(queue[..m], n - 1, e);
      CountSplit(queue, m, e);
      assert last == [queue[m]];
      CountConcat(last, Popped(queue[..m], n - 1), e);
      assert queue[..m][..m - (n - 1)] == queue[..|queue| - n];
    }
  }

  lemma EnqueueConserves(s: State, q: nat, events: seq<Event>, e: Event)
    ensures Everywhere(Next(s, Enqueue(q, events)), e) == Everywhere(s, e) + Adds(s, Enqueue(q, events), e)
  {
    if q < |s.queues| {
      InQueuesUpdate(s.queues, q, s.queues[q] + events, e);
      CountConcat(s.queues[q], events, e);
    }
  }

  lemma StealConserves(s: State, q: nat, count: nat, e: Event)
    ensures Everywhere(Next(s, Steal(q, count)), e) == Everywhere(s, e)
  {
    if q < |s.queues| && s.stolen == [] {
      var n := StealCount(s.queues[q], count);
      InQueuesUpdate(s.queues, q, s.queues[q][..|s.queues[q]| - n], e);
      PoppedConserves(s.queues[q], n, e);
    }
  }

  lemma HandOverConserves(s: State, q: nat, e: Event)
    ensures Everywhere(Next(s, HandOver(q)), e) == Everywhere(s, e)
  {
    if q < |s.queues| {
      InQueuesUpdate(s.queues, q, s.queues[q] + s.stolen, e);
      CountConcat(s.queues[q], s.stolen, e);
    }
  }

  lemma DrainConserves(s: State, w: nat, q: nat, e: Event)
    ensures Everywhere(Next(s, Drain(w, q)), e) == Everywhere(s, e)
  {
    if w < |s.hands| && q < |s.queues| {
      var queue := s.queues[q];
      var n := Min(BATCH, |queue|);
      InHandsUpdate(s.hands, w, Hand(queue[..n], []), e);
      InQueuesUpdate(s.queues, q, queue[n..], e);
      CountSplit(queue, n, e);
    }
  }

  lemma ProcessConserves(s: State, w: nat, keep: bool, e: Event)
    ensures Everywhere(Next(s, Process(w, keep)), e) == Everywhere(s, e)
  {
    if w < |s.hands| && s.hands[w].raw != [] {
      var h := s.hands[w];
      if keep {
        InHandsUpdate(s.hands, w, Hand(h.raw[1..], h.passed + [h.raw[0]]), e);
        CountSnoc(h.passed, h.raw[0], e);
      } else {
        InHandsUpdate(s.hands, w, Hand(h.raw[1..], h.passed), e);
        CountSnoc(s.filtered, h.raw[0], e);
      }
    }
  }

  lemma SendConserves(s: State, w: nat, open: bool, e: Event)
    ensures Everywhere(Next(s, Send(w, open)), e) == Everywhere(s, e)
  {
    if w < |s.hands| {
      InHandsUpdate(s.hands, w, Hand([], []), e);
      CountConcat(s.sent, s.hands[w].passed, e);
      CountConcat(s.discarded, s.hands[w].passed, e);
    }
  }

  /** In every interleaving, every enqueued event is in exactly one place, as often as it was enqueued. */
  lemma {:induction false} EventsAreConserved(s: State, steps: seq<Step>, e: Event)
    ensures Everywhere(Run(s, steps), e) == Everywhere(s, e) + Enqueued(s, steps, e)
  {
    if steps != [] {
      var n := |steps| - 1;
      EventsAreConserved(s, steps[..n], e);
      var before := Run(s, steps[..n]);
      match steps[n]
      case Drain(w, q) => DrainConserves(before, w, q, e);
      case Process(w, keep) => ProcessConserves(before, w, keep, e);
      case Send(w, open) => SendConserves(before, w, open, e);
      case Enqueue(q, events) => EnqueueConserves(before, q, events, e);
      case Steal(q, count) => StealConserves(before, q, count, e);
      case HandOver(q) => HandOverConserves(before, q, e);
    }
  }

  // ----- balancing

  function Sizes(queues: seq<seq<Event>>): (r: seq<nat>)
    ensures |r| == |queues|
  {
    seq(|queues|, i requires 0 <= i < |queues| => |queues[i]|)
  }

  /** The first shortest queue: the front of the list sorted stably by size. */
  predicate IsSmallest(sizes: seq<nat>, i: nat) {
    && i < |sizes| && (forall j | 0 <= j < |sizes| :: sizes[i] <= sizes[j])
    && (forall j | 0 <= j < i :: sizes[i] < sizes[j])
  }

  /** The last longest queue: the back of that list. */
  predicate IsLargest(sizes: seq<nat>, i: nat) {
    && i < |sizes| && (forall j | 0 <= j < |sizes| :: sizes[j] <= sizes[i])
    && (forall j | i < j < |sizes| :: sizes[j] < sizes[i])
  }

  function Smallest(sizes: seq<nat>): (i: nat)
    requires sizes != []
    ensures IsSmallest(sizes, i)
  {
    if |sizes| == 1 then 0
    else
      var n := |sizes| - 1;
      var i := Smallest(sizes[..n]);
      assert forall j | 0 <= j < n :: sizes[..n][j] == sizes[j];
      if sizes[n] < sizes[i] then n else i
  }

  function Largest(sizes: seq<nat>): (i: nat)
    requires sizes != []
    ensures IsLargest(sizes, i)
  {
    if |sizes| == 1 then 0
    else
      var n := |sizes| - 1;
      var i := Largest(sizes[..n]);
      assert forall j | 0 <= j < n :: sizes[..n][j] == sizes[j];
      if sizes[n] >= sizes[i] then n else i
  }

  predicate Balanced(sizes: seq<nat>) {
    forall i, j | 0 <= i < |sizes| && 0 <= j < |sizes| :: sizes[i] <= sizes[j] + IMBALANCE
  }

  /** How many events one call of `balance_work` moves, and between which queues. */
  datatype Move = Stay | Shift(small: nat, large: nat, count: nat)

  function Plan(sizes: seq<nat>): Move {
    if |sizes| < 2 then Stay
    else
      var small, large := Smallest(sizes), Largest(sizes);
      if sizes[large] > sizes[small] + IMBALANCE then Shift(small, large, (sizes[large] - sizes[small]) / 2) else Stay
  }

  /** A steal of up to `count` events from one queue, handed to another. */
  function Transfer(queues: seq<seq<Event>>, small: nat, large: nat, count: nat): seq<seq<Event>>
    requires small < |queues| && large < |queues|
  {
    var n := StealCount(queues[large], count);
    var rest := queues[large := queues[large][..|queues[large]| - n]];
    rest[small := rest[small] + Popped(queues[large], n)]
  }

  function BalanceOnce(queues: seq<seq<Event>>): seq<seq<Event>> {
    match Plan(Sizes(queues))
    case Stay => queues
    case Shift(small, large, count) => Transfer(queues, small, large, count)
  }

  /** Every size is between the two bounds. */
  predicate Within(sizes: seq<nat>, lo: nat, hi: nat) {
    forall i | 0 <= i < |sizes| :: lo <= sizes[i] <= hi
  }

  function SumOfSquares(sizes: seq<nat>): nat {
    if sizes == [] then 0 else sizes[0] * sizes[0] + SumOfSquares(sizes[1..])
  }

  lemma {:induction false} SquaresUpdate(sizes: seq<nat>, i: nat, v: nat)
    requires i < |sizes|
    ensures SumOfSquares(sizes[i := v]) == SumOfSquares(sizes) - sizes[i] * sizes[i] + v * v
  {
    if i == 0 {
      assert sizes[i := v][1..] == sizes[1..];
    } else {
      SquaresUpdate(sizes[1..], i - 1, v);
      assert sizes[i := v][1..] == sizes[1..][i - 1 := v];
    }
  }

  lemma MovingLowersSquares(l: nat, s: nat, k: nat)
    requires 0 < k && k + s < l
    ensures (l - k) * (l - k) + (s + k) * (s + k) < l * l + s * s
  {
  }

  /** Queues out of balance are planned a shift, and what it does to the sizes. */
  lemma PlanShifts(queues: seq<seq<Event>>)
    ensures Balanced(Sizes(queues)) <==> Plan(Sizes(queues)).Stay?
    ensures var sizes := Sizes(queues);
            match Plan(sizes)
            case Stay => true
            case Shift(small, large, count) =>
              && small != large && IsSmallest(sizes, small) && IsLargest(sizes, large)
              && count >= IMBALANCE / 2 && StealCount(queues[large], count) == count && sizes[small] + count < sizes[large]
              && Sizes(BalanceOnce(queues)) == sizes[large := sizes[large] - count][small := sizes[small] + count]
  {
  }

  /** One call on unbalanced queues strictly lowers the sum of squares. */
  lemma BalanceStepProgress(queues: seq<seq<Event>>)
    requires !Balanced(Sizes(queues))
    ensures SumOfSquares(Sizes(BalanceOnce(queues))) < SumOfSquares(Sizes(queues))
  {
    var sizes := Sizes(queues);
    PlanShifts(queues);
    var Shift(small, large, count) := Plan(sizes);
    ShiftLowersSquares(sizes, small, large, count);
  }

  lemma ShiftLowersSquares(sizes: seq<nat>, small: nat, large: nat, count: nat)
    requires small < |sizes| && large < |sizes| && small != large && 0 < count && sizes[small] + count < sizes[large]
    ensures SumOfSquares(sizes[large := sizes[large] - count][small := sizes[small] + count]) < SumOfSquares(sizes)
  {
    SquaresUpdate(sizes, large, sizes[large] - count);
    SquaresUpdate(sizes[large := sizes[large] - count], small, sizes[small] + count);
    MovingLowersSquares(sizes[large], sizes[small], count);
  }

  /** One call keeps every size between the old extremes. */
  lemma BalanceStepWithin(queues: seq<seq<Event>>, lo: nat, hi: nat)
    requires Within(Sizes(queues), lo, hi)
    ensures Within(Sizes(BalanceOnce(queues)), lo, hi)
  {
    PlanShifts(queues);
  }

  lemma BalanceConserves(queues: seq<seq<Event>>, e: Event)
    ensures InQueues(BalanceOnce(queues), e) == InQueues(queues, e) && |BalanceOnce(queues)| == |queues|
  {
    PlanShifts(queues);
    match Plan(Sizes(queues))
    case Stay =>
    case Shift(small, large, count) =>
      TransferConserves(queues, small, large, count, e);
  }

  lemma TransferConserves(queues: seq<seq<Event>>, small: nat, large: nat, count: nat, e: Event)
    requires small < |queues| && large < |queues|
    ensures InQueues(Transfer(queues, small, large, count), e) == InQueues(queues, e)
  {
    var n := StealCount(queues[large], count);
    var left, stolen := queues[large][..|queues[large]| - n], Popped(queues[large], n);
    var rest := queues[large := left];
    InQueuesUpdate(queues, large, left, e);
    InQueuesUpdate(rest, small, rest[small] + stolen, e);
    PoppedConserves(queues[large], n, e);
    CountConcat(rest[small], stolen, e);
  }

  /** What one more round does. */
  lemma RoundKeeps(queues: seq<seq<Event>>, lo: nat, hi: nat, e: Event)
    requires Within(Sizes(queues), lo, hi)
    ensures var after := BalanceOnce(queues);
            && |after| == |queues| && InQueues(after, e) == InQueues(queues, e) && Within(Sizes(after), lo, hi)
            && (if Balanced(Sizes(queues)) then after == queues else SumOfSquares(Sizes(after)) + 1 <= SumOfSquares(Sizes(queues)))
  {
    BalanceConserves(queues, e);
    BalanceStepWithin(queues, lo, hi);
    PlanShifts(queues);
    if !Balanced(Sizes(queues)) {
      BalanceStepProgress(queues);
    }
  }

  function Rounds(queues: seq<seq<Event>>, n: nat): seq<seq<Event>> {
    if n == 0 then queues else BalanceOnce(Rounds(queues, n - 1))
  }

  /** Rounds never widen the range of sizes, never lose an event, and each unbalanced one costs some squares. */
  lemma {:induction false} RoundsKeep(queues: seq<seq<Event>>, n: nat, lo: nat, hi: nat, e: Event)
    requires Within(Sizes(queues), lo, hi)
    ensures var after := Rounds(queues, n);
            && |after| == |queues| && InQueues(after, e) == InQueues(queues, e) && Within(Sizes(after), lo, hi)
            && (Balanced(Sizes(after)) || SumOfSquares(Sizes(after)) + n <= SumOfSquares(Sizes(queues)))
  {
    if n > 0 {
      RoundsKeep(queues, n - 1, lo, hi, e);
      RoundKeeps(Rounds(queues, n - 1), lo, hi, e);
    }
  }

  /**
   Repeated with no other activity, balancing stops: after as many rounds as the sum of squares, all sizes
   are within 100 of each other and no further round moves anything; the extremes never got worse.
   */
  lemma BalancingSettles(queues: seq<seq<Event>>, n: nat, e: Event)
    requires n > SumOfSquares(Sizes(queues))
    ensures var settled := Rounds(queues, n);
            && Balanced(Sizes(settled)) && BalanceOnce(settled) == settled && InQueues(settled, e) == InQueues(queues, e)
            && (queues != [] ==> Within(Sizes(settled), Sizes(queues)[Smallest(Sizes(queues))], Sizes(queues)[Largest(Sizes(queues))]))
  {
    var sizes := Sizes(queues);
    var lo, hi := if queues == [] then 0 else sizes[Smallest(sizes)], if queues == [] then 0 else sizes[Largest(sizes)];
    RoundsKeep(queues, n, lo, hi, e);
    PlanShifts(Rounds(queues, n));
  }

  // ----- the processors

  class TableProcessor {
    var eventQueue: seq<Event>
    var destination: seq<seq<Event>>

    constructor ()
      ensures eventQueue == [] && destination == []
    {
      eventQueue, destination := [], [];
    }

    method EnqueueEvents(events: seq<Event>)
      modifies this`eventQueue
      ensures eventQueue == old(eventQueue) + events
    {
      eventQueue := eventQueue + events;
    }

    /** Pops up to half of the queue off its end. */
    method StealEvents(count: nat) returns (stolen: seq<Event>)
      modifies this`eventQueue
      ensures var n := StealCount(old(eventQueue), count);
              stolen == Popped(old(eventQueue), n) && eventQueue == old(eventQueue)[..|old(eventQueue)| - n]
    {
      var stealCount := StealCount(eventQueue, count);
      stolen := [];
      for i := 0 to stealCount
        invariant i <= |old(eventQueue)|
        invariant eventQueue == old(eventQueue)[..|old(eventQueue)| - i]
        invariant stolen == Popped(old(eventQueue), i)
      {
        PoppedSnoc(old(eventQueue), i);
        stolen := stolen + [eventQueue[|eventQueue| - 1]];
        eventQueue := eventQueue[..|eventQueue| - 1];
      }
    }

    /**
     One round of a worker: drain up to ten, run each through the pipeline, and send what comes out as one
     batch, unless nothing does; a batch for a closed channel is discarded. `dropped` are the events filtered out.
     */
    method WorkerRound(process: Event -> Option<Event>, open: bool) returns (passed: seq<Event>, dropped: seq<Event>)
      modifies this
      ensures var n := Min(BATCH, |old(eventQueue)|);
              && eventQueue == old(eventQueue)[n..]
              && passed == Outputs(old(eventQueue)[..n], process)
              && dropped == Select(old(eventQueue)[..n], e => process(e).None?)
      ensures destination == if passed != [] && open then old(destination) + [passed] else old(destination)
    {
      var takeCount := Min(BATCH, |eventQueue|);
      var events := eventQueue[..takeCount];
      eventQueue := eventQueue[takeCount..];
      passed, dropped := [], [];
      for i := 0 to |events|
        invariant passed == Outputs(events[..i], process)
        invariant dropped == Select(events[..i], e => process(e).None?)
      {
        assert events[..i + 1][..i] == events[..i];
        var processed := process(events[i]);
        if processed.Some? {
          passed := passed + [processed.value];
        } else {
          dropped := dropped + [events[i]];
        }
      }
      assert events[..|events|] == events;
      if passed != [] && open {
        destination := destination + [passed];
      }
    }
  }

  /** What the pipeline makes of the events it lets through, in order. */
  function Outputs(events: seq<Event>, process: Event -> Option<Event>): seq<Event> {
    if events == [] then []
    else
      var n := |events| - 1;
      var before := Outputs(events[..n], process);
      if process(events[n]).Some? then before + [process(events[n]).value] else before
  }

  /** One output for each event that passes, in the order of the queue. */
  lemma {:induction false} OutputsMatch(events: seq<Event>, process: Event -> Option<Event>)
    ensures var passing := Select(events, e => process(e).Some?);
            |Outputs(events, process)| == |passing|
            && forall i | 0 <= i < |passing| :: process(passing[i]) == Some(Outputs(events, process)[i])
  {
    if events != [] {
      OutputsMatch(events[..|events| - 1], process);
    }
  }

  /** The events that satisfy `p`, in order. */
  function Select(events: seq<Event>, p: Event -> bool): seq<Event> {
    if events == [] then []
    else
      var n := |events| - 1;
      var before := Select(events[..n], p);
      if p(events[n]) then before + [events[n]] else before
  }

  /** Processing splits a drained batch: each event comes out on exactly one side, as often as it went in. */
  lemma {:induction false} SelectSplits(events: seq<Event>, p: Event -> bool, e: Event)
    ensures Count(Select(events, p), e) == if p(e) then Count(events, e) else 0
    ensures Count(Select(events, x => !p(x)), e) == if p(e) then 0 else Count(events, e)
  {
    if events != [] {
      var n := |events| - 1;
      SelectSplits(events[..n], p, e);
      CountSplit(events, n, e);
      assert events[n..] == [events[n]];
      CountConcat(Select(events[..n], p), [events[n]], e);
      CountConcat(Select(events[..n], x => !p(x)), [events[n]], e);
    }
  }

  lemma {:induction false} PoppedSnoc(queue: seq<Event>, n: nat)
    requires n < |queue|
    ensures Popped(queue, n + 1) == Popped(queue, n) + [queue[|queue| - 1 - n]]
  {
    if n > 0 {
      var front := queue[..|queue| - 1];
      PoppedSnoc(front, n - 1);
      assert front[|front| - 1 - (n - 1)] == queue[|queue| - 1 - n];
    }
  }

  /** The registry of all table processors. */
  class WorkStealingCoordinator {
    var processors: seq<TableProcessor>

    constructor ()
      ensures processors == []
    {
      processors := [];
    }

    ghost predicate Valid()
      reads this
    {
      forall i, j | 0 <= i < j < |processors| :: processors[i] != processors[j]
    }

    ghost function Queues(): seq<seq<Event>>
      reads this, processors
    {
      seq(|processors|, i requires 0 <= i < |processors| reads this, processors => processors[i].eventQueue)
    }

    method RegisterProcessor(processor: TableProcessor)
      requires Valid() && processor !in processors
      modifies this
      ensures Valid() && processors == old(processors) + [processor]
    {
      processors := processors + [processor];
    }

    method ReadSizes() returns (sizes: seq<nat>)
      ensures sizes == Sizes(Queues())
    {
      sizes := [];
      for i := 0 to |processors|
        invariant sizes == Sizes(Queues())[..i]
      {
        sizes := sizes + [|processors[i].eventQueue|];
      }
    }

    /** Moves up to `count` events from the end of one queue to the end of another. */
    method MoveEvents(small: nat, large: nat, count: nat)
      requires Valid() && small < |processors| && large < |processors| && small != large
      modifies processors
      ensures Valid() && Queues() == Transfer(old(Queues()), small, large, count)
    {
      ghost var before := Queues();
      var stolen := processors[large].StealEvents(count);
      if stolen != [] {
        processors[small].EnqueueEvents(stolen);
      }
      forall i | 0 <= i < |processors| && i != small && i != large
        ensures processors[i].eventQueue == before[i]
      {
        assert processors[i] != processors[small] && processors[i] != processors[large];
      }
      assert processors[large].eventQueue == Transfer(before, small, large, count)[large];
      assert processors[small].eventQueue == Transfer(before, small, large, count)[small];
    }

    /** Reads all sizes, then steals from the largest for the smallest if they are far enough apart. */
    method BalanceWork()
      requires Valid()
      modifies processors
      ensures Valid() && Queues() == BalanceOnce(old(Queues()))
    {
      if |processors| >= 2 {
        var sizes := ReadSizes();
        var plan := MakePlan(sizes);
        BalanceFollowsPlan(Queues(), plan);
        Execute(plan);
      }
    }

    method Execute(plan: Move)
      requires Valid()
      requires plan.Shift? ==> plan.small < |processors| && plan.large < |processors| && plan.small != plan.large
      modifies processors
      ensures Valid()
      ensures Queues() == if plan.Shift? then Transfer(old(Queues()), plan.small, plan.large, plan.count) else old(Queues())
    {
      if plan.Shift? {
        MoveEvents(plan.small, plan.large, plan.count);
      }
    }
  }

  lemma BalanceFollowsPlan(queues: seq<seq<Event>>, plan: Move)
    requires plan == Plan(Sizes(queues))
    requires plan.Shift? ==> plan.small < |queues| && plan.large < |queues|
    ensures BalanceOnce(queues) == if plan.Shift? then Transfer(queues, plan.small, plan.large, plan.count) else queues
  {
  }

  /** What to move, from the ends of the list of sizes. */
  method MakePlan(sizes: seq<nat>) returns (plan: Move)
    requires |sizes| >= 2
    ensures plan == Plan(sizes)
    ensures plan.Shift? ==> plan.small < |sizes| && plan.large < |sizes| && plan.small != plan.large
  {
    var small, large := FindEnds(sizes);
    plan := if sizes[large] > sizes[small] + IMBALANCE then Shift(small, large, (sizes[large] - sizes[small]) / 2) else Stay;
  }

  /** The ends of the list of sizes under a stable sort. */
  method FindEnds(sizes: seq<nat>) returns (small: nat, large: nat)
    requires sizes != []
    ensures small == Smallest(sizes) && large == Largest(sizes)
  {
    small, large := 0, 0;
    for i := 1 to |sizes|
      invariant IsSmallest(sizes[..i], small) && IsLargest(sizes[..i], large)
    {
      if sizes[i] < sizes[small] { small := i; }
      if sizes[i] >= sizes[large] { large := i; }
    }
    assert sizes[..|sizes|] == sizes;
  }
}
