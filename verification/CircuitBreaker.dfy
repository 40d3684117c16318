/**
 The circuit breaker (src/recovery/circuit_breaker.rs) over traces of requests
 and outcomes with an explicit clock. Counters are 32-bit and wrap.
 */
module CircuitBreaker {
  import opened Wrappers

  datatype CircuitState = Closed | Open | HalfOpen

  const WORD := 0x1_0000_0000

  type U32 = n: int | 0 <= n < WORD

  function Inc(n: U32): U32 {
    if n + 1 == WORD then 0 else n + 1
  }

  datatype Config = Config(failureThreshold: U32, successThreshold: U32, timeout: int, halfOpenMaxRequests: U32)

  datatype Breaker = Breaker(
    state: CircuitState, failures: U32, successes: U32, halfOpenRequests: U32, lastFailure: Option<int>, openedAt: Option<int>)

  function Initial(): Breaker {
    Breaker(Closed, 0, 0, 0, None, None)
  }

  /** `duration_since`, which is zero for an instant that lies ahead. */
  function Since(now: int, then_: int): int {
    if now > then_ then now - then_ else 0
  }

  // ----- one call

  function IsAllowed(cfg: Config, b: Breaker, now: int): (Breaker, bool) {
    match b.state
    case Closed => (b, true)
    case Open =>
      if b.openedAt.Some? && Since(now, b.openedAt.value) >= cfg.timeout
      then (b.(state := HalfOpen, halfOpenRequests := 0), true)
      else (b, false)
    case HalfOpen =>
      if b.halfOpenRequests < cfg.halfOpenMaxRequests
      then (b.(halfOpenRequests := Inc(b.halfOpenRequests)), true)
      else (b, false)
  }

  function RecordSuccess(cfg: Config, b: Breaker): Breaker {
    var counted := b.(successes := Inc(b.successes), failures := 0);
    if b.state == HalfOpen && counted.successes >= cfg.successThreshold then Initial() else counted
  }

  function RecordFailure(cfg: Config, b: Breaker, now: int): Breaker {
    var counted := b.(failures := Inc(b.failures), successes := 0, lastFailure := Some(now));
    match b.state
    case Closed => if counted.failures >= cfg.failureThreshold then counted.(state := Open, openedAt := Some(now)) else counted
    case Open => counted
    case HalfOpen => counted.(state := Open, openedAt := Some(now), halfOpenRequests := 0)
  }

  function SetState(b: Breaker, target: CircuitState, now: int): Breaker {
    match target
    case Closed => Initial()
    case Open => b.(state := Open, openedAt := Some(now))
    case HalfOpen => b.(state := HalfOpen, halfOpenRequests := 0)
  }

  class CircuitBreaker {
    const cfg: Config
    var state: CircuitState
    var consecutiveFailures: U32
    var consecutiveSuccesses: U32
    var halfOpenRequests: U32
    var lastFailureTime: Option<int>
    var circuitOpenedAt: Option<int>

    ghost function Model(): Breaker
      reads this
    {
      Breaker(state, consecutiveFailures, consecutiveSuccesses, halfOpenRequests, lastFailureTime, circuitOpenedAt)
    }

    constructor (cfg: Config)
      ensures this.cfg == cfg && Model() == Initial()
    {
      this.cfg := cfg;
      state := Closed;
      consecutiveFailures, consecutiveSuccesses, halfOpenRequests := 0, 0, 0;
      lastFailureTime, circuitOpenedAt := None, None;
    }

    method Reset()
      modifies this
      ensures Model() == Initial().(state := old(state))
    {
      consecutiveFailures, consecutiveSuccesses, halfOpenRequests := 0, 0, 0;
      lastFailureTime, circuitOpenedAt := None, None;
    }

    method Allow(now: int) returns (allowed: bool)
      modifies this
      ensures (Model(), allowed) == IsAllowed(cfg, old(Model()), now)
    {
      match state {
        case Closed =>
          allowed := true;
        case Open =>
          allowed := circuitOpenedAt.Some? && Since(now, circuitOpenedAt.value) >= cfg.timeout;
          if allowed {
            state, halfOpenRequests := HalfOpen, 0;
          }
        case HalfOpen =>
          allowed := halfOpenRequests < cfg.halfOpenMaxRequests;
          if allowed {
            halfOpenRequests := Inc(halfOpenRequests);
          }
      }
    }

    method Succeeded()
      modifies this
      ensures Model() == RecordSuccess(cfg, old(Model()))
    {
      consecutiveSuccesses, consecutiveFailures := Inc(consecutiveSuccesses), 0;
      if state == HalfOpen && consecutiveSuccesses >= cfg.successThreshold {
        state := Closed;
        Reset();
      }
    }

    method Failed(now: int)
      modifies this
      ensures Model() == RecordFailure(cfg, old(Model()), now)
    {
      consecutiveFailures, consecutiveSuccesses := Inc(consecutiveFailures), 0;
      lastFailureTime := Some(now);
      match state {
        case Closed =>
          if consecutiveFailures >= cfg.failureThreshold {
            state, circuitOpenedAt := Open, Some(now);
          }
        case Open =>
        case HalfOpen =>
          state, circuitOpenedAt, halfOpenRequests := Open, Some(now), 0;
      }
    }

    method ForceState(target: CircuitState, now: int)
      modifies this
      ensures Model() == SetState(old(Model()), target, now)
    {
      state := target;
      match target {
        case Closed => Reset();
        case Open => circuitOpenedAt := Some(now);
        case HalfOpen => halfOpenRequests := 0;
      }
    }
  }

  // ----- traces

  /** Requests ask at a time; outcomes may arrive in any order, also long after their request. */
  datatype Event = Ask(now: int) | Success | Failure(now: int) | Force(target: CircuitState, now: int)

  function Next(cfg: Config, b: Breaker, e: Event): Breaker {
    match e
    case Ask(now) => IsAllowed(cfg, b, now).0
    case Success => RecordSuccess(cfg, b)
    case Failure(now) => RecordFailure(cfg, b, now)
    case Force(target, now) => SetState(b, target, now)
  }

  predicate Admits(cfg: Config, b: Breaker, e: Event) {
    e.Ask? && IsAllowed(cfg, b, e.now).1
  }

  function Run(cfg: Config, b: Breaker, events: seq<Event>): Breaker {
    if events == [] then b else Next(cfg, Run(cfg, b, events[..|events| - 1]), events[|events| - 1])
  }

  /** The counters have just been wiped: forced closed, or closed by enough successes. */
  predicate Resets(cfg: Config, b: Breaker, e: Event) {
    || (e.Force? && e.target == Closed)
    || (e == Success && b.state == HalfOpen && RecordSuccess(cfg, b).state == Closed)
  }

  function NextOutcomes(cfg: Config, b: Breaker, e: Event, outcomes: seq<bool>): seq<bool> {
    if Resets(cfg, b, e) then []
    else if e.Success? then outcomes + [true]
    else if e.Failure? then outcomes + [false]
    else outcomes
  }

  /** The outcomes since the last reset, true for success. */
  function Outcomes(cfg: Config, events: seq<Event>): seq<bool> {
    if events == [] then []
    else
      var n := |events| - 1;
      NextOutcomes(cfg, Run(cfg, Initial(), events[..n]), events[n], Outcomes(cfg, events[..n]))
  }

  /** Length of the longest suffix all equal to `v`. */
  function Suffix(outcomes: seq<bool>, v: bool): nat {
    if outcomes == [] || outcomes[|outcomes| - 1] != v then 0
    else 1 + Suffix(outcomes[..|outcomes| - 1], v)
  }

  lemma {:induction false} SuffixIsLongest(outcomes: seq<bool>, v: bool)
    ensures var n := Suffix(outcomes, v);
            && n <= |outcomes| && (forall i | |outcomes| - n <= i < |outcomes| :: outcomes[i] == v)
            && (n < |outcomes| ==> outcomes[|outcomes| - 1 - n] != v)
  {
    if outcomes != [] {
      SuffixIsLongest(outcomes[..|outcomes| - 1], v);
    }
  }

  /** What a 32-bit counter shows after `n` increments. */
  function Word(n: nat): U32 {
    if n == 0 then 0 else Inc(Word(n - 1))
  }

  lemma NextModulo(m: nat)
    ensures (m + 1) % WORD == (if m % WORD == WORD - 1 then 0 else m % WORD + 1) && (m + 1) % WORD <= m + 1
  {
  }

  lemma {:induction false} WordIsModular(n: nat)
    ensures Word(n) == n % WORD && Word(n) <= n
  {
    if n > 0 {
      WordIsModular(n - 1);
      NextModulo(n - 1);
    }
  }

  predicate Counts(b: Breaker, outcomes: seq<bool>) {
    b.failures == Word(Suffix(outcomes, false)) && b.successes == Word(Suffix(outcomes, true))
  }

  lemma SuffixAfter(outcomes: seq<bool>, v: bool)
    ensures Suffix(outcomes + [v], v) == 1 + Suffix(outcomes, v) && Suffix(outcomes + [v], !v) == 0
  {
    assert (outcomes + [v])[..|outcomes|] == outcomes;
  }

  lemma SuccessCounts(cfg: Config, b: Breaker, outcomes: seq<bool>)
    requires Counts(b, outcomes)
    ensures Counts(RecordSuccess(cfg, b), NextOutcomes(cfg, b, Success, outcomes))
  {
    SuffixAfter(outcomes, true);
    if Resets(cfg, b, Success) {
      assert Suffix([], true) == 0 && Suffix([], false) == 0;
    }
  }

  lemma FailureCounts(cfg: Config, b: Breaker, now: int, outcomes: seq<bool>)
    requires Counts(b, outcomes)
    ensures Counts(RecordFailure(cfg, b, now), NextOutcomes(cfg, b, Failure(now), outcomes))
  {
    SuffixAfter(outcomes, false);
    assert NextOutcomes(cfg, b, Failure(now), outcomes) == outcomes + [false];
  }

  lemma ForceCounts(cfg: Config, b: Breaker, target: CircuitState, now: int, outcomes: seq<bool>)
    requires Counts(b, outcomes)
    ensures Counts(SetState(b, target, now), NextOutcomes(cfg, b, Force(target, now), outcomes))
  {
    if target == Closed {
      assert NextOutcomes(cfg, b, Force(target, now), outcomes) == [];
      assert Suffix([], true) == 0 && Suffix([], false) == 0;
    } else {
      assert NextOutcomes(cfg, b, Force(target, now), outcomes) == outcomes;
    }
  }

  lemma AskCounts(cfg: Config, b: Breaker, now: int, outcomes: seq<bool>)
    requires Counts(b, outcomes)
    ensures Counts(IsAllowed(cfg, b, now).0, NextOutcomes(cfg, b, Ask(now), outcomes))
  {
    assert NextOutcomes(cfg, b, Ask(now), outcomes) == outcomes;
  }

  lemma CountsStep(cfg: Config, b: Breaker, e: Event, outcomes: seq<bool>)
    requires Counts(b, outcomes)
    ensures Counts(Next(cfg, b, e), NextOutcomes(cfg, b, e, outcomes))
  {
    match e
    case Success => SuccessCounts(cfg, b, outcomes);
    case Failure(now) => FailureCounts(cfg, b, now, outcomes);
    case Force(target, now) => ForceCounts(cfg, b, target, now, outcomes);
    case Ask(now) => AskCounts(cfg, b, now, outcomes);
  }

  /** In every trace the counters are the failing and succeeding suffixes since the last reset (as 32-bit words). */
  lemma {:induction false} CountersAreSuffixes(cfg: Config, events: seq<Event>)
    ensures var b := Run(cfg, Initial(), events);
            var outcomes := Outcomes(cfg, events);
            b.failures == Word(Suffix(outcomes, false)) && b.successes == Word(Suffix(outcomes, true))
  {
    if events != [] {
      var n := |events| - 1;
      CountersAreSuffixes(cfg, events[..n]);
      CountsStep(cfg, Run(cfg, Initial(), events[..n]), events[n], Outcomes(cfg, events[..n]));
    }
  }

  predicate BelowThreshold(cfg: Config, b: Breaker, outcomes: seq<bool>) {
    b.state == Closed ==> b.failures < cfg.failureThreshold && b.failures == Suffix(outcomes, false)
  }

  lemma BelowThresholdStep(cfg: Config, b: Breaker, e: Event, outcomes: seq<bool>)
    requires cfg.failureThreshold >= 1 && BelowThreshold(cfg, b, outcomes)
    ensures BelowThreshold(cfg, Next(cfg, b, e), NextOutcomes(cfg, b, e, outcomes))
  {
  }

  /** Closed means fewer failures in a row than the threshold, in every trace. */
  lemma {:induction false} ClosedBelowThreshold(cfg: Config, events: seq<Event>)
    requires cfg.failureThreshold >= 1
    ensures var b := Run(cfg, Initial(), events);
            b.state == Closed ==> b.failures < cfg.failureThreshold && b.failures == Suffix(Outcomes(cfg, events), false)
  {
    if events != [] {
      var n := |events| - 1;
      ClosedBelowThreshold(cfg, events[..n]);
      BelowThresholdStep(cfg, Run(cfg, Initial(), events[..n]), events[n], Outcomes(cfg, events[..n]));
    }
  }

  /** Closing on its own takes `successThreshold` successes in a row, not all of which need be in this half-open episode. */
  lemma ClosingTakesSuccesses(cfg: Config, events: seq<Event>)
    requires events != []
    requires var b := Run(cfg, Initial(), events[..|events| - 1]);
             b.state == HalfOpen && !events[|events| - 1].Force? && Run(cfg, Initial(), events).state == Closed
    ensures events[|events| - 1] == Success
    ensures Suffix(Outcomes(cfg, events[..|events| - 1]), true) + 1 >= cfg.successThreshold
  {
    CountersAreSuffixes(cfg, events[..|events| - 1]);
    WordIsModular(Suffix(Outcomes(cfg, events[..|events| - 1]), true));
  }

  // ----- nothing gets through an open circuit before its timeout

  /** A request before the deadline, or any outcome; nothing is forced. */
  predicate EarlierThan(e: Event, deadline: int) {
    match e
    case Ask(now) => now < deadline
    case Force(_, _) => false
    case _ => true
  }

  predicate OpenSince(b: Breaker, at: int) {
    b.state == Open && b.openedAt == Some(at)
  }

  lemma OpenStep(cfg: Config, b: Breaker, at: int, e: Event)
    requires cfg.timeout > 0 && OpenSince(b, at) && EarlierThan(e, at + cfg.timeout)
    ensures OpenSince(Next(cfg, b, e), at) && !Admits(cfg, b, e)
  {
  }

  /** From the moment the circuit opens until the timeout has passed, it stays open and admits no request. */
  lemma {:induction false} OpenAdmitsNothing(cfg: Config, b: Breaker, at: int, events: seq<Event>)
    requires cfg.timeout > 0 && OpenSince(b, at)
    requires forall i | 0 <= i < |events| :: EarlierThan(events[i], at + cfg.timeout)
    ensures OpenSince(Run(cfg, b, events), at)
    ensures forall i | 0 <= i < |events| :: !Admits(cfg, Run(cfg, b, events[..i]), events[i])
  {
    if events != [] {
      var n := |events| - 1;
      forall i | 0 <= i < n
        ensures events[..n][i] == events[i] && events[..n][..i] == events[..i]
      {
      }
      OpenAdmitsNothing(cfg, b, at, events[..n]);
      OpenStep(cfg, Run(cfg, b, events[..n]), at, events[n]);
    }
  }

  /** A failure opens the circuit exactly when it is half open or the run of failures reaches the threshold. */
  lemma FailureOpensExactlyWhen(cfg: Config, events: seq<Event>, now: int)
    requires cfg.failureThreshold >= 1
    ensures var b := Run(cfg, Initial(), events);
            var after := Next(cfg, b, Failure(now));
            b.state != Open ==>
              (after.state == Open <==> b.state == HalfOpen || Suffix(Outcomes(cfg, events), false) + 1 >= cfg.failureThreshold)
              && (after.state == Open ==> after.openedAt == Some(now))
  {
    ClosedBelowThreshold(cfg, events);
  }

  // ----- how many requests one half-open episode admits

  function Admitted(cfg: Config, b: Breaker, events: seq<Event>): nat {
    if events == [] then 0
    else
      var n := |events| - 1;
      Admitted(cfg, b, events[..n]) + (if Admits(cfg, Run(cfg, b, events[..n]), events[n]) then 1 else 0)
  }

  /** The breaker stays half open throughout, without being forced. */
  ghost predicate Episode(cfg: Config, b: Breaker, events: seq<Event>) {
    && (forall i | 0 <= i <= |events| :: Run(cfg, b, events[..i]).state == HalfOpen)
    && (forall i | 0 <= i < |events| :: !events[i].Force?)
  }

  lemma {:induction false} EpisodeAdmits(cfg: Config, b: Breaker, events: seq<Event>)
    requires b.halfOpenRequests <= cfg.halfOpenMaxRequests && Episode(cfg, b, events)
    ensures Run(cfg, b, events).halfOpenRequests == b.halfOpenRequests + Admitted(cfg, b, events) <= cfg.halfOpenMaxRequests
  {
    if events != [] {
      var n := |events| - 1;
      forall i | 0 <= i <= n
        ensures events[..n][..i] == events[..i]
      {
      }
      assert events[..|events|] == events;
      EpisodeAdmits(cfg, b, events[..n]);
      assert Run(cfg, b, events[..n]).state == HalfOpen && Run(cfg, b, events).state == HalfOpen;
    }
  }

  /**
   One half-open episode, entered from open by an admitted request, admits that request and at most
   `halfOpenMaxRequests` more; the entering request is not counted.
   */
  lemma HalfOpenAdmitsAtMost(cfg: Config, b: Breaker, enter: int, events: seq<Event>)
    requires b.state == Open && Admits(cfg, b, Ask(enter))
    requires Episode(cfg, Next(cfg, b, Ask(enter)), events)
    ensures 1 + Admitted(cfg, Next(cfg, b, Ask(enter)), events) <= cfg.halfOpenMaxRequests + 1
  {
    EpisodeAdmits(cfg, Next(cfg, b, Ask(enter)), events);
  }

  /** The bound is met: that many requests in a row are admitted, and the next one is not. */
  lemma {:induction false} HalfOpenAdmitsThatMany(cfg: Config, b: Breaker, now: int, n: nat)
    requires b.state == HalfOpen && b.halfOpenRequests == 0 && n <= cfg.halfOpenMaxRequests
    ensures var asks := seq(n, _ => Ask(now));
            var after := Run(cfg, b, asks);
            && Admitted(cfg, b, asks) == n && after == b.(halfOpenRequests := n)
            && (Admits(cfg, after, Ask(now)) <==> n < cfg.halfOpenMaxRequests)
  {
    if n > 0 {
      HalfOpenAdmitsThatMany(cfg, b, now, n - 1);
      assert seq(n, _ => Ask(now))[..n - 1] == seq(n - 1, _ => Ask(now));
    }
  }
}
