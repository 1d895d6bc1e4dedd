/** The circuit breaker: fields updated as calls end and as its state is looked at. */
module CircuitBreakers {
  import opened Wrappers

  datatype CircuitState = Closed | Open | HalfOpen

  datatype Breaker = Breaker(state: CircuitState, failures: nat, openedAt: Option<real>)

  /** What happens to a breaker, each at a reading of the monotonic clock. */
  datatype Event =
    | Polled(at: real)
    | Succeeded(at: real)
    | FailedCall(at: real)

  datatype Config = Config(failureThreshold: int, openSeconds: real)

  const FRESH: Breaker := Breaker(Closed, 0, None)

  function Polls(cfg: Config, b: Breaker, now: real): Breaker {
    if b.state == Open && b.openedAt.Some? && now - b.openedAt.value >= cfg.openSeconds
        then b.(state := HalfOpen) else b
  }

  function Step(cfg: Config, b: Breaker, e: Event): Breaker {
    match e
    case Polled(at) => Polls(cfg, b, at)
    case Succeeded(at) => FRESH
    case FailedCall(at) =>
      if b.failures + 1 >= cfg.failureThreshold then Breaker(Open, b.failures + 1, Some(at))
      else b.(failures := b.failures + 1)
  }

  function Run(cfg: Config, events: seq<Event>): Breaker {
    if events == [] then FRESH else Step(cfg, Run(cfg, events[..|events| - 1]), events[|events| - 1])
  }

  /** Clock readings never go back and end by `until`. */
  predicate Chronological(events: seq<Event>, until: real) {
    events == [] || (events[|events| - 1].at <= until && Chronological(events[..|events| - 1], events[|events| - 1].at))
  }

  /** Failures since the last success, however often the state was polled. */
  function FailuresSince(events: seq<Event>): nat {
    if events == [] then 0
    else
      match events[|events| - 1]
      case Polled(_) => FailuresSince(events[..|events| - 1])
      case Succeeded(_) => 0
      case FailedCall(_) => FailuresSince(events[..|events| - 1]) + 1
  }

  /** When the latest failure since the last success was. */
  function LastFailure(events: seq<Event>): Option<real> {
    if events == [] then None
    else
      match events[|events| - 1]
      case Polled(_) => LastFailure(events[..|events| - 1])
      case Succeeded(_) => None
      case FailedCall(at) => Some(at)
  }

  /** A request at `now` is refused, told from the history of successes and failures alone. */
  predicate Refuses(cfg: Config, events: seq<Event>, now: real) {
    FailuresSince(events) >= cfg.failureThreshold
    && LastFailure(events).Some? && now - LastFailure(events).value < cfg.openSeconds
  }

  ghost predicate Agrees(cfg: Config, b: Breaker, events: seq<Event>, until: real) {
    var tripped := FailuresSince(events) >= cfg.failureThreshold && LastFailure(events).Some?;
    && b.failures == FailuresSince(events)
    && (LastFailure(events).Some? ==> LastFailure(events).value <= until)
    && (b.state == Open ==> tripped && b.openedAt == LastFailure(events))
    && (b.state == HalfOpen ==> tripped && until - LastFailure(events).value >= cfg.openSeconds)
    && (b.state == Closed ==> !tripped)
  }

  lemma {:induction false} RunAgrees(cfg: Config, events: seq<Event>, until: real)
    requires Chronological(events, until)
    ensures Agrees(cfg, Run(cfg, events), events, until)
  {
    if events != [] {
      RunAgrees(cfg, events[..|events| - 1], events[|events| - 1].at);
    }
  }

  /**
   * Whenever and however often the state was polled, a request is refused exactly when the
   * failures since the last success reach the threshold and the latest is less than the open time ago.
   */
  lemma RefusalIsDeterminedByHistory(cfg: Config, events: seq<Event>, now: real)
    requires Chronological(events, now)
    ensures Polls(cfg, Run(cfg, events), now).state == Open <==> Refuses(cfg, events, now)
  {
    RunAgrees(cfg, events, now);
  }

  /** So two histories that differ only in when the state was polled refuse the same requests. */
  lemma PollingIsInvisible(cfg: Config, a: seq<Event>, b: seq<Event>, now: real)
    requires Chronological(a, now) && Chronological(b, now) && Outcomes(a) == Outcomes(b)
    ensures (Polls(cfg, Run(cfg, a), now).state == Open) == (Polls(cfg, Run(cfg, b), now).state == Open)
  {
    RefusalIsDeterminedByHistory(cfg, a, now);
    RefusalIsDeterminedByHistory(cfg, b, now);
    OutcomesDecide(a);
    OutcomesDecide(b);
  }

  /** The history without its polls. */
  function Outcomes(events: seq<Event>): seq<Event> {
    if events == [] then []
    else
      var (front, last) := (Outcomes(events[..|events| - 1]), events[|events| - 1]);
      if last.Polled? then front else front + [last]
  }

  lemma {:induction false} OutcomesDecide(events: seq<Event>)
    ensures FailuresSince(events) == FailuresSince(Outcomes(events))
    ensures LastFailure(events) == LastFailure(Outcomes(events))
  {
    if events != [] {
      var front, last := events[..|events| - 1], events[|events| - 1];
      OutcomesDecide(front);
      var r := Outcomes(events);
      if !last.Polled? {
        assert r[..|r| - 1] == Outcomes(front);
      }
    }
  }

  lemma OneMoreEvent(cfg: Config, events: seq<Event>, e: Event)
    ensures Run(cfg, events + [e]) == Step(cfg, Run(cfg, events), e)
    ensures Chronological(events, e.at) ==> Chronological(events + [e], e.at)
  {
    assert (events + [e])[..|events|] == events;
  }

  class CircuitBreaker {
    const cfg: Config
    var state: CircuitState
    var consecutiveFailures: nat
    var openedAt: Option<real>
    ghost var log: seq<Event>

    ghost function State(): Breaker
      reads this
    {
      Breaker(state, consecutiveFailures, openedAt)
    }

    ghost predicate Valid(now: real)
      reads this
    {
      State() == Run(cfg, log) && Chronological(log, now)
    }

    constructor (cfg: Config, ghost now: real)
      ensures Valid(now) && log == [] && this.cfg == cfg
    {
      this.cfg := cfg;
      state, consecutiveFailures, openedAt := Closed, 0, None;
      log := [];
    }

    method MaybeTransitionFromOpen(now: real)
      modifies this`state
      ensures State() == Polls(cfg, old(State()), now)
    {
      if state != Open || openedAt.None? {
        return;
      }
      if now - openedAt.value >= cfg.openSeconds {
        state := HalfOpen;
      }
    }

    method AllowRequest(ghost before: real, now: real) returns (allowed: bool)
      requires Valid(before) && before <= now
      modifies this
      ensures Valid(now) && log == old(log) + [Polled(now)]
      ensures allowed == !Refuses(cfg, old(log), now)
    {
      ChronologicalLater(log, before, now);
      RefusalIsDeterminedByHistory(cfg, log, now);
      OneMoreEvent(cfg, log, Polled(now));
      MaybeTransitionFromOpen(now);
      allowed := state != Open;
      log := log + [Polled(now)];
    }

    method RecordSuccess(ghost before: real, ghost now: real)
      requires Valid(before) && before <= now
      modifies this
      ensures Valid(now) && log == old(log) + [Succeeded(now)]
    {
      ChronologicalLater(log, before, now);
      consecutiveFailures := 0;
      openedAt := None;
      state := Closed;
      OneMoreEvent(cfg, log, Succeeded(now));
      log := log + [Succeeded(now)];
    }

    method RecordFailure(ghost before: real, now: real)
      requires Valid(before) && before <= now
      modifies this
      ensures Valid(now) && log == old(log) + [FailedCall(now)]
    {
      ChronologicalLater(log, before, now);
      consecutiveFailures := consecutiveFailures + 1;
      if consecutiveFailures >= cfg.failureThreshold {
        state := Open;
        openedAt := Some(now);
      }
      OneMoreEvent(cfg, log, FailedCall(now));
      log := log + [FailedCall(now)];
    }
  }

  lemma ChronologicalLater(events: seq<Event>, until: real, later: real)
    requires Chronological(events, until) && until <= later
    ensures Chronological(events, later)
  {
  }
}
