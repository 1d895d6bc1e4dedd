/** One model turn: admission by the breaker, retries of the primary, one fallback, and what is reported. */
module Gateway {
  import opened Wrappers
  import opened Texts
  import Breakers = CircuitBreakers
  import LlmUsage

  // ----- errors -----

  datatype Fault =
    | DailyCap
    | RateLimited
    | Network
    | Cancelled
    | Other(status: Option<int>, responseStatus: Option<int>, text: string)

  const RETRYABLE_STATUS: set<int> := {413, 429, 502, 503, 504}
  const MARKERS: seq<string> := ["rate_limit_exceeded", "rate limit", "request too large", "tokens per minute", "tpm"]

  predicate Contains(text: string, part: string) {
    exists i | 0 <= i <= |text| :: part <= text[i..]
  }

  predicate SplitsAs(text: string, before: string, part: string, after: string) {
    text == before + part + after
  }

  lemma ContainsSplits(text: string, part: string, before: string, after: string)
    requires SplitsAs(text, before, part, after)
    ensures Contains(text, part)
  {
    assert text[|before|..] == part + after;
    assert part <= text[|before|..];
  }

  /** A text contains a part exactly when it is something, the part, and something. */
  lemma ContainsIff(text: string, part: string)
    ensures Contains(text, part) <==> exists before: string, after: string :: SplitsAs(text, before, part, after)
  {
    if Contains(text, part) {
      var i :| 0 <= i <= |text| && part <= text[i..];
      assert text[i..] == part + text[i..][|part|..];
      assert SplitsAs(text, text[..i], part, text[i..][|part|..]);
    }
    if exists before: string, after: string :: SplitsAs(text, before, part, after) {
      var before: string, after: string :| SplitsAs(text, before, part, after);
      ContainsSplits(text, part, before, after);
    }
  }

  predicate HasRetryableStatus(status: Option<int>) {
    status.Some? && status.value in RETRYABLE_STATUS
  }

  /** Our own limits and a cancellation are never retried; the provider's overload and network faults are. */
  predicate IsRetryable(f: Fault) {
    match f
    case DailyCap | RateLimited | Cancelled => false
    case Network => true
    case Other(status, responseStatus, text) =>
      || HasRetryableStatus(status)
      || HasRetryableStatus(responseStatus)
      || exists i | 0 <= i < |MARKERS| :: Contains(Lower(text), MARKERS[i])
  }

  /** A fault that counts against the provider, as opposed to our own limits or the caller giving up. */
  predicate CountsAgainstProvider(f: Fault) {
    f.Network? || f.Other?
  }

  /** How one call of a model ends. A failure may advise a delay in its headers or in its text. */
  datatype Outcome =
    | Answered(promptTokens: int, completionTokens: int, providerCalls: int)
    | Failed(fault: Fault, retryAfter: Option<real>, hinted: real)

  predicate Retried(o: Outcome) {
    o.Failed? && IsRetryable(o.fault)
  }

  predicate RetriedAt(outcomes: nat -> Outcome, i: nat) {
    Retried(outcomes(i))
  }

  /** Seconds slept on the provider's advice after a failure, in addition to the backoff. */
  function AdvisedPause(o: Outcome): (r: real)
    ensures 0.0 <= r <= 60.0 && (r > 0.0 ==> Retried(o))
  {
    if o.Answered? then 0.0
    else
      var delay := match o.retryAfter case Some(d) => d case None => if IsRetryable(o.fault) then o.hinted else 0.0;
      if delay > 0.0 && IsRetryable(o.fault) then (if delay < 60.0 then delay else 60.0) else 0.0
  }

  /**
   * After a failure worth another call the advised seconds are slept, up to a minute: those of the
   * header when there is one, else those hinted at in the text. Advice below zero counts as none.
   */
  lemma PauseFollowsAdvice(o: Outcome)
    requires o.Failed?
    ensures AdvisedPause(o)
         == if !IsRetryable(o.fault) then 0.0
            else
              var advice := if o.retryAfter.Some? then o.retryAfter.value else o.hinted;
              if advice <= 0.0 then 0.0 else if advice >= 60.0 then 60.0 else advice
  {
  }

  /** Seconds slept on advice after the first `calls` calls. */
  function AdvisedPauses(outcomes: nat -> Outcome, calls: nat): real {
    if calls == 0 then 0.0 else AdvisedPauses(outcomes, calls - 1) + AdvisedPause(outcomes(calls - 1))
  }

  /** Only the pauses after the calls made are counted, each once. */
  lemma {:induction false} PausesAddUp(outcomes: nat -> Outcome, calls: nat, more: nat)
    ensures AdvisedPauses(outcomes, 0) == 0.0
    ensures (forall i: nat | calls <= i < calls + more :: AdvisedPause(outcomes(i)) == 0.0) ==>
              AdvisedPauses(outcomes, calls + more) == AdvisedPauses(outcomes, calls)
    ensures AdvisedPauses(outcomes, calls + 1) == AdvisedPauses(outcomes, calls) + AdvisedPause(outcomes(calls))
    decreases more
  {
    if more > 0 { PausesAddUp(outcomes, calls, more - 1); }
  }

  // ----- how many calls are made -----

  datatype Config = Config(maxAttempts: int, fallbackEnabled: bool, primaryModel: string, fallbackModel: string)

  function Limit(cfg: Config): nat {
    if cfg.maxAttempts < 1 then 1 else cfg.maxAttempts
  }

  /** Calls of the primary made in all, when `made` have been made and the next one would end as `outcomes(made)`. */
  function CallsFrom(outcomes: nat -> Outcome, made: nat, limit: nat): (calls: nat)
    requires made < limit
    ensures made < calls <= limit
    decreases limit - made
  {
    if Retried(outcomes(made)) && made + 1 < limit then CallsFrom(outcomes, made + 1, limit) else made + 1
  }

  /** The primary is called up to its first outcome that is not to be retried, or until the attempts are used up. */
  ghost predicate StopsAfter(outcomes: nat -> Outcome, limit: nat, calls: nat) {
    && 1 <= calls <= limit
    && (forall i: nat | i < calls - 1 :: RetriedAt(outcomes, i))
    && (calls == limit || !RetriedAt(outcomes, calls - 1))
  }

  lemma {:induction false} CallsFromStops(outcomes: nat -> Outcome, made: nat, limit: nat)
    requires made < limit && forall i: nat | i < made :: RetriedAt(outcomes, i)
    ensures StopsAfter(outcomes, limit, CallsFrom(outcomes, made, limit))
    decreases limit - made
  {
    if Retried(outcomes(made)) && made + 1 < limit { CallsFromStops(outcomes, made + 1, limit); }
  }

  lemma StopsNoLater(outcomes: nat -> Outcome, limit: nat, a: nat, b: nat)
    requires StopsAfter(outcomes, limit, a) && StopsAfter(outcomes, limit, b)
    ensures a <= b
  {
    var last: nat := b - 1;
    assert b < a ==> RetriedAt(outcomes, last);
  }

  /** That fixes the number of calls. */
  lemma CallsAreDetermined(outcomes: nat -> Outcome, limit: nat, calls: nat)
    requires limit >= 1
    ensures StopsAfter(outcomes, limit, calls) <==> calls == CallsFrom(outcomes, 0, limit)
  {
    CallsFromStops(outcomes, 0, limit);
    if StopsAfter(outcomes, limit, calls) {
      StopsNoLater(outcomes, limit, calls, CallsFrom(outcomes, 0, limit));
      StopsNoLater(outcomes, limit, CallsFrom(outcomes, 0, limit), calls);
    }
  }

  // ----- a whole turn -----

  /** What an admitted turn comes to: its last outcome, and the calls of the primary and of the fallback. */
  datatype Turn = Turn(last: Outcome, primaryCalls: nat, fallbackCalls: nat)

  function Played(cfg: Config, primary: nat -> Outcome, fallback: Outcome): Turn {
    var k := CallsFrom(primary, 0, Limit(cfg));
    if cfg.fallbackEnabled && Retried(primary(k - 1)) then Turn(fallback, k, 1) else Turn(primary(k - 1), k, 0)
  }

  /** The calls of a turn, told from the outcomes alone. */
  lemma CallsOfATurn(cfg: Config, primary: nat -> Outcome, fallback: Outcome)
    ensures var t := Played(cfg, primary, fallback);
            && StopsAfter(primary, Limit(cfg), t.primaryCalls)
            && t.primaryCalls <= Limit(cfg)
            && (t.fallbackCalls == 0 || t.fallbackCalls == 1)
            && (t.fallbackCalls == 1
                <==> cfg.fallbackEnabled && forall i: nat | i < Limit(cfg) :: RetriedAt(primary, i))
            && t.last == if t.fallbackCalls == 1 then fallback else primary(t.primaryCalls - 1)
  {
    CallsFromStops(primary, 0, Limit(cfg));
    var k := CallsFrom(primary, 0, Limit(cfg));
    if Retried(primary(k - 1)) {
      assert k == Limit(cfg) && RetriedAt(primary, k - 1);
    } else {
      assert !RetriedAt(primary, k - 1);
    }
  }

  /** Some marker of overload occurs in the text, whatever the case of its letters. */
  predicate NamesOverload(text: string) {
    || Contains(Lower(text), "rate_limit_exceeded") || Contains(Lower(text), "rate limit")
    || Contains(Lower(text), "request too large") || Contains(Lower(text), "tokens per minute")
    || Contains(Lower(text), "tpm")
  }

  predicate SignalsOverload(status: Option<int>) {
    status in {Some(413), Some(429), Some(502), Some(503), Some(504)}
  }

  /** The failures after which a turn goes on. */
  predicate WorthAnotherCall(f: Fault) {
    || f.Network?
    || (f.Other? && (SignalsOverload(f.status) || SignalsOverload(f.responseStatus) || NamesOverload(f.text)))
  }

  lemma RetryableFaults(f: Fault)
    ensures IsRetryable(f) <==> WorthAnotherCall(f)
  {
    if f.Other? {
      assert MARKERS[0] == "rate_limit_exceeded" && MARKERS[1] == "rate limit" && MARKERS[2] == "request too large"
          && MARKERS[3] == "tokens per minute" && MARKERS[4] == "tpm" && |MARKERS| == 5;
    }
  }

  /**
   * A turn goes on after its first call exactly when that failed at the network, under a status that
   * signals overload or with a text that names it; so never after our own limits or a cancellation.
   */
  lemma FirstOutcomeDecides(cfg: Config, primary: nat -> Outcome, fallback: Outcome)
    ensures var (t, first) := (Played(cfg, primary, fallback), primary(0));
            var goesOn := first.Failed? && WorthAnotherCall(first.fault);
            && (!goesOn ==> t == Turn(first, 1, 0))
            && (goesOn && cfg.maxAttempts >= 2 ==> t.primaryCalls >= 2)
            && (goesOn && cfg.maxAttempts < 2 ==> t.primaryCalls == 1 && t.fallbackCalls == if cfg.fallbackEnabled
                then 1 else 0)
    ensures primary(0).Failed? && primary(0).fault in {DailyCap, RateLimited, Cancelled} ==>
              Played(cfg, primary, fallback) == Turn(primary(0), 1, 0)
  {
    if primary(0).Failed? { RetryableFaults(primary(0).fault); }
  }

  datatype TurnResult = CircuitOpen | Reply(usedFallback: bool) | Raised(fault: Fault)

  function ResultOf(t: Turn): TurnResult {
    match t.last
    case Answered(_, _, _) => Reply(t.fallbackCalls == 1)
    case Failed(fault, _, _) => Raised(fault)
  }

  /** What the breaker hears of a turn. */
  function Report(t: Turn, at: real): seq<Breakers.Event> {
    match t.last
    case Answered(_, _, _) => [Breakers.Succeeded(at)]
    case Failed(fault, _, _) => if CountsAgainstProvider(fault) then [Breakers.FailedCall(at)] else []
  }

  /** The usage record a turn schedules; a failure is charged to the primary. */
  function Usage(cfg: Config, t: Turn, today: int): seq<LlmUsage.Call> {
    match t.last
    case Answered(prompt, completion, calls) =>
      if t.fallbackCalls == 1 then
        [LlmUsage.Call("groq", cfg.fallbackModel, prompt, completion, LlmUsage.Fallback, calls, None, today)]
      else
        [LlmUsage.Call("groq", cfg.primaryModel, prompt, completion, LlmUsage.Success, calls, None, today)]
    case Failed(fault, _, _) =>
      if CountsAgainstProvider(fault) then
        [LlmUsage.Call("groq", cfg.primaryModel, 0, 0, LlmUsage.Error, 1, None, today)]
      else []
  }

  /**
   * Which last outcome is reported how: an answer as a success, a provider's fault as a failure,
   * our own limits and a cancellation not at all; a usage record goes with every report.
   */
  lemma OneReportOrNone(cfg: Config, primary: nat -> Outcome, fallback: Outcome, at: real, today: int)
    ensures var t := Played(cfg, primary, fallback);
            && |Report(t, at)| == |Usage(cfg, t, today)| <= 1
            && (Report(t, at) == [] <==> t.last.Failed? && t.last.fault in {DailyCap, RateLimited, Cancelled})
            && (ResultOf(t).Reply? <==> Report(t, at) == [Breakers.Succeeded(at)])
            && (t.fallbackCalls == 0 && t.last.Failed? && cfg.fallbackEnabled ==> !IsRetryable(t.last.fault))
  {
    CallsFromStops(primary, 0, Limit(cfg));
    var t := Played(cfg, primary, fallback);
    if t.last.Failed? {
      match t.last.fault
      case DailyCap | RateLimited | Network | Cancelled =>
      case Other(_, _, _) =>
    }
  }

  /**
   * What a turn schedules for the usage table: an answer under the model that gave it, a failure of
   * the provider as one request of the primary without tokens.
   */
  lemma UsageFollowsOutcome(cfg: Config, primary: nat -> Outcome, fallback: Outcome, today: int)
    ensures var t := Played(cfg, primary, fallback);
            var tried := t.fallbackCalls == 1;
            var last := if tried then fallback else primary(t.primaryCalls - 1);
            var usage := Usage(cfg, t, today);
            && (last.Answered? ==>
                  && ResultOf(t) == Reply(tried) && |usage| == 1
                  && usage[0].model == (if tried then cfg.fallbackModel else cfg.primaryModel)
                  && usage[0].outcome == (if tried then LlmUsage.Fallback else LlmUsage.Success)
                  && usage[0].promptTokens == last.promptTokens && usage[0].completionTokens == last.completionTokens
                  && usage[0].requestCount == last.providerCalls)
            && (last.Failed? ==> ResultOf(t) == Raised(last.fault))
            && (last.Failed? && (last.fault.Network? || last.fault.Other?) ==>
                  && |usage| == 1 && usage[0].model == cfg.primaryModel && usage[0].outcome == LlmUsage.Error
                  && usage[0].promptTokens == 0 && usage[0].completionTokens == 0 && usage[0].requestCount == 1)
            && forall call | call in usage :: call.provider == "groq" && call.usageDate == None && call.today == today
  {
    CallsFromStops(primary, 0, Limit(cfg));
  }

  // ----- many turns on one breaker -----

  /** Turns begin and end in any interleaving. */
  datatype Moment = Begin(turn: nat, at: real) | End(turn: nat, at: real)

  /** The breaker's history, and which turns run, were refused, or have ended. */
  datatype Traffic = Traffic(log: seq<Breakers.Event>, running: set<nat>, refused: set<nat>, ended: set<nat>)

  const NO_TRAFFIC: Traffic := Traffic([], {}, {}, {})

  /** A turn begins once, polling the breaker; an admitted one ends once, with its report. */
  function Happens(cfg: Breakers.Config, turns: nat -> Turn, w: Traffic, m: Moment): Traffic {
    match m
    case Begin(t, at) =>
      if t in w.running + w.refused + w.ended then w
      else if Breakers.Refuses(cfg, w.log, at) then
        w.(log := w.log + [Breakers.Polled(at)], refused := w.refused + {t})
      else
        w.(log := w.log + [Breakers.Polled(at)], running := w.running + {t})
    case End(t, at) =>
      if t !in w.running then w
      else w.(log := w.log + Report(turns(t), at), running := w.running - {t}, ended := w.ended + {t})
  }

  function After(cfg: Breakers.Config, turns: nat -> Turn, moments: seq<Moment>): Traffic {
    if moments == [] then NO_TRAFFIC
    else Happens(cfg, turns, After(cfg, turns, moments[..|moments| - 1]), moments[|moments| - 1])
  }

  function Successes(log: seq<Breakers.Event>): nat {
    if log == [] then 0 else Successes(log[..|log| - 1]) + if log[|log| - 1].Succeeded? then 1 else 0
  }

  function Failures(log: seq<Breakers.Event>): nat {
    if log == [] then 0 else Failures(log[..|log| - 1]) + if log[|log| - 1].FailedCall? then 1 else 0
  }

  predicate FailedAtProvider(t: Turn) {
    t.last.Failed? && CountsAgainstProvider(t.last.fault)
  }

  function Answering(turns: nat -> Turn, ended: set<nat>): set<nat> {
    set t | t in ended && turns(t).last.Answered?
  }

  function Failing(turns: nat -> Turn, ended: set<nat>): set<nat> {
    set t | t in ended && FailedAtProvider(turns(t))
  }

  lemma CountsOfOneMore(log: seq<Breakers.Event>, e: Breakers.Event)
    ensures Successes(log + [e]) == Successes(log) + if e.Succeeded? then 1 else 0
    ensures Failures(log + [e]) == Failures(log) + if e.FailedCall? then 1 else 0
  {
    assert (log + [e])[..|log|] == log;
  }

  lemma OneMoreEnded(turns: nat -> Turn, ended: set<nat>, t: nat)
    requires t !in ended
    ensures |Answering(turns, ended + {t})| == |Answering(turns, ended)| + if turns(t).last.Answered? then 1 else 0
    ensures |Failing(turns, ended + {t})| == |Failing(turns, ended)| + if FailedAtProvider(turns(t)) then 1 else 0
  {
    var answering, failing := Answering(turns, ended), Failing(turns, ended);
    assert Answering(turns, ended + {t}) == if turns(t).last.Answered? then answering + {t} else answering;
    assert Failing(turns, ended + {t}) == if FailedAtProvider(turns(t)) then failing + {t} else failing;
  }

  /** Turns are counted in one place only, and the breaker has heard of exactly the ended ones. */
  ghost predicate Counted(turns: nat -> Turn, w: Traffic) {
    && w.running !! w.ended && w.refused !! w.ended && w.running !! w.refused
    && Successes(w.log) == |Answering(turns, w.ended)|
    && Failures(w.log) == |Failing(turns, w.ended)|
  }

  lemma EndIsCounted(turns: nat -> Turn, w: Traffic, t: nat, at: real)
    requires t !in w.ended
    ensures var log := w.log + Report(turns(t), at);
            && Successes(log) == Successes(w.log) + (if turns(t).last.Answered? then 1 else 0)
            && Failures(log) == Failures(w.log) + (if FailedAtProvider(turns(t)) then 1 else 0)
  {
    CountsOfOneMore(w.log, Breakers.Succeeded(at));
    CountsOfOneMore(w.log, Breakers.FailedCall(at));
    assert w.log + [] == w.log;
  }

  /**
   * Over any interleaving of turns the breaker records exactly one success for each ended turn
   * that answered, one failure for each that failed at the provider, and nothing for turns that
   * are refused, still running, cancelled or stopped by our own limits.
   */
  lemma {:induction false} EachTurnReportsOnce(cfg: Breakers.Config, turns: nat -> Turn, moments: seq<Moment>)
    ensures Counted(turns, After(cfg, turns, moments))
  {
    if moments != [] {
      EachTurnReportsOnce(cfg, turns, moments[..|moments| - 1]);
      var w := After(cfg, turns, moments[..|moments| - 1]);
      match moments[|moments| - 1]
      case Begin(_, at) =>
        CountsOfOneMore(w.log, Breakers.Polled(at));
      case End(t, at) =>
        if t in w.running {
          EndIsCounted(turns, w, t, at);
          OneMoreEnded(turns, w.ended, t);
        }
    }
  }

  /** A turn that has not begun before is admitted exactly when the history does not refuse it. */
  lemma BeginsAsTheHistorySays(cfg: Breakers.Config, turns: nat -> Turn, moments: seq<Moment>, t: nat, at: real)
    requires forall at2: real :: Begin(t, at2) !in moments
    ensures var (w, r) := (After(cfg, turns, moments), After(cfg, turns, moments + [Begin(t, at)]));
            && r.log == w.log + [Breakers.Polled(at)] && r.ended == w.ended
            && r.running == (if Breakers.Refuses(cfg, w.log, at) then w.running else w.running + {t})
            && r.refused == (if Breakers.Refuses(cfg, w.log, at) then w.refused + {t} else w.refused)
  {
    assert (moments + [Begin(t, at)])[..|moments|] == moments;
    NotBegun(cfg, turns, moments, t);
  }

  lemma {:induction false} NotBegun(cfg: Breakers.Config, turns: nat -> Turn, moments: seq<Moment>, t: nat)
    requires forall at: real :: Begin(t, at) !in moments
    ensures var w := After(cfg, turns, moments); t !in w.running + w.refused + w.ended
  {
    if moments != [] {
      var front, m := moments[..|moments| - 1], moments[|moments| - 1];
      assert m in moments && forall x | x in front :: x in moments;
      NotBegun(cfg, turns, front, t);
      assert m.Begin? ==> Begin(m.turn, m.at) == m;
    }
  }

  // ----- the gateway object -----

  /** Clock readings between two others, never going back. */
  predicate Between(events: seq<Breakers.Event>, now: real, end: real) {
    && now <= end
    && (forall i | 0 <= i < |events| :: now <= events[i].at <= end)
    && (forall i, j | 0 <= i < j < |events| :: events[i].at <= events[j].at)
  }

  /** What other turns do to the shared breaker while this one waits for the provider. */
  method OtherTurns(breaker: Breakers.CircuitBreaker, now: real, end: real, others: seq<Breakers.Event>)
    requires breaker.Valid(now) && Between(others, now, end)
    modifies breaker
    ensures breaker.Valid(end) && breaker.log == old(breaker.log) + others
  {
    ghost var last := now;
    for i := 0 to |others|
      invariant now <= last <= end && (i < |others| ==> last <= others[i].at)
      invariant breaker.Valid(last) && breaker.log == old(breaker.log) + others[..i]
    {
      match others[i] {
        case Polled(at) =>
          var _ := breaker.AllowRequest(last, at);
        case Succeeded(at) =>
          breaker.RecordSuccess(last, at);
        case FailedCall(at) =>
          breaker.RecordFailure(last, at);
      }
      last := others[i].at;
      assert others[..i + 1] == others[..i] + [others[i]];
    }
    assert others[..|others|] == others;
    Breakers.ChronologicalLater(breaker.log, last, end);
  }

  class ResilientModel {
    const cfg: Config
    const breaker: Breakers.CircuitBreaker
    var scheduled: seq<LlmUsage.Call>

    constructor (cfg: Config, breaker: Breakers.CircuitBreaker)
      ensures this.cfg == cfg && this.breaker == breaker && scheduled == []
    {
      this.cfg, this.breaker := cfg, breaker;
      scheduled := [];
    }

    method CallWithRetries(outcomes: nat -> Outcome) returns (last: Outcome, calls: nat, advised: real)
      ensures calls == CallsFrom(outcomes, 0, Limit(cfg)) && last == outcomes(calls - 1)
      ensures advised == AdvisedPauses(outcomes, calls) && 0.0 <= advised <= 60.0 * calls as real
    {
      calls, advised := 0, 0.0;
      var limit := Limit(cfg);
      while true
        invariant advised == AdvisedPauses(outcomes, calls)
        invariant calls < limit && CallsFrom(outcomes, calls, limit) == CallsFrom(outcomes, 0, limit)
        invariant 0.0 <= advised <= 60.0 * calls as real
        decreases limit - calls
      {
        last := outcomes(calls);
        calls := calls + 1;
        advised := advised + AdvisedPause(last);
        if last.Answered? || !IsRetryable(last.fault) || calls >= limit {
          return;
        }
      }
    }

    method CallWithRetriesAndFallback(primary: nat -> Outcome, fallback: Outcome) returns (turn: Turn)
      ensures turn == Played(cfg, primary, fallback)
    {
      var last, calls, _ := CallWithRetries(primary);
      if last.Answered? {
        return Turn(last, calls, 0);
      }
      if !cfg.fallbackEnabled || !IsRetryable(last.fault) {
        return Turn(last, calls, 0);
      }
      turn := Turn(fallback, calls, 1);
    }

    /**
     * One turn, from its admission at `now` to its end; `others` and `otherRecords` are what other
     * turns do meanwhile. A refused turn makes no call and changes nothing; an admitted one plays
     * out as specified and adds its own report and its own usage record to theirs, and no more.
     */
    method GenerateText(primary: nat -> Outcome, fallback: Outcome, ghost before: real, now: real, end: real,
                        today: int, others: seq<Breakers.Event>, otherRecords: seq<LlmUsage.Call>)
      returns (result: TurnResult, turn: Option<Turn>)
      requires breaker.Valid(before) && before <= now && Between(others, now, end)
      modifies breaker, this`scheduled
      ensures turn.None? <==> Breakers.Refuses(breaker.cfg, old(breaker.log), now)
      ensures turn.None? ==>
                && result == CircuitOpen && scheduled == old(scheduled) && breaker.Valid(now)
                && breaker.log == old(breaker.log) + [Breakers.Polled(now)]
      ensures turn.Some? ==>
                && turn.value == Played(cfg, primary, fallback) && result == ResultOf(turn.value)
                && scheduled == old(scheduled) + otherRecords + Usage(cfg, turn.value, today) && breaker.Valid(end)
                && breaker.log == old(breaker.log) + [Breakers.Polled(now)] + others + Report(turn.value, end)
    {
      var admitted := breaker.AllowRequest(before, now);
      if !admitted {
        return CircuitOpen, None;
      }
      var t := CallWithRetriesAndFallback(primary, fallback);
      turn := Some(t);
      OtherTurns(breaker, now, end, others);
      scheduled := scheduled + otherRecords;
      match t.last
      case Answered(prompt, completion, calls) =>
        breaker.RecordSuccess(end, end);
        var usedFallback := t.fallbackCalls == 1;
        var model := if usedFallback then cfg.fallbackModel else cfg.primaryModel;
        var outcome := if usedFallback then LlmUsage.Fallback else LlmUsage.Success;
        scheduled := scheduled + [LlmUsage.Call("groq", model, prompt, completion, outcome, calls, None, today)];
        result := Reply(usedFallback);
      case Failed(fault, _, _) =>
        if fault.Network? || fault.Other? {
          breaker.RecordFailure(end, end);
          scheduled := scheduled + [LlmUsage.Call("groq", cfg.primaryModel, 0, 0, LlmUsage.Error, 1, None, today)];
        }
        result := Raised(fault);
    }
  }
}
