/** The governor: daily caps, a bucket of requests and a bucket of tokens, and a pause between requests. */
module Governors {
  import opened Wrappers
  import opened TokenBuckets
  import LlmUsage

  datatype Config = Config(
    requestsPerMinute: int,
    tokensPerMinute: int,
    dailyRequests: int,
    dailyTokens: int,
    maxWait: real,
    minIntervalMs: int)

  datatype Admission = Admitted | RateLimited | DailyCap

  /** A daily limit that is not positive is off; without usage totals nothing is capped. */
  predicate CapReached(cfg: Config, totals: Option<LlmUsage.Totals>) {
    totals.Some?
    && ((cfg.dailyRequests > 0 && totals.value.requests >= cfg.dailyRequests)
        || (cfg.dailyTokens > 0 && totals.value.prompt + totals.value.completion >= cfg.dailyTokens))
  }

  /** What a request takes from the token bucket in advance. */
  function TokenCost(estimated: int): (r: real)
    ensures r >= 1.0
  {
    if estimated > 0 then Max(1, estimated) as real else 1.0
  }

  function Interval(cfg: Config): real { cfg.minIntervalMs as real / 1000.0 }

  /** An estimate is charged as it is, but at least one token; the pause is given in milliseconds. */
  lemma ChargesAndPauses(cfg: Config, estimated: int)
    ensures TokenCost(estimated) == if estimated >= 1 then estimated as real else 1.0
    ensures Interval(cfg) * 1000.0 == cfg.minIntervalMs as real
  {
  }

  // ----- requests per minute -----

  /** Requests granted at clock readings from `s` to `t`. */
  function RequestsBetween(l: Limits, b: Bucket, events: seq<Event>, s: real, t: real): nat {
    if events == [] then 0
    else
      var front, e := events[..|events| - 1], events[|events| - 1];
      RequestsBetween(l, b, front, s, t) + if Granted(l, Run(l, b, front), e) && s <= e.at <= t then 1 else 0
  }

  lemma {:induction false} RequestsAreGrants(l: Limits, b: Bucket, events: seq<Event>, s: real, t: real)
    requires SingleTakes(events)
    ensures GrantedBetween(l, b, events, s, t) == RequestsBetween(l, b, events, s, t) as real
  {
    if events != [] {
      RequestsAreGrants(l, b, events[..|events| - 1], s, t);
    }
  }

  /** No minute admits more than twice the configured number of requests, whoever shares the bucket. */
  lemma RequestsPerMinuteAreBounded(rate: int, start: real, events: seq<Event>, s: real, until: real)
    requires Chronological(events, start, until) && SingleTakes(events)
    ensures var full := Bucket(Max(1, rate) as real, start);
            RequestsBetween(PerMinute(rate), full, events, s, s + 60.0) <= 2 * Max(1, rate)
  {
    AtMostTwiceTheRate(rate, start, events, s, until);
    RequestsAreGrants(PerMinute(rate), Bucket(Max(1, rate) as real, start), events, s, s + 60.0);
  }

  // ----- the governor object -----

  /** Event number `i` of a bucket's history took this amount. */
  ghost predicate TookAt(l: Limits, initial: Bucket, log: seq<Event>, i: nat, amount: real) {
    AttemptAt(log, i, amount) && GrantedAt(l, initial, log, i)
  }

  lemma TookStays(l: Limits, initial: Bucket, log: seq<Event>, later: seq<Event>, i: nat, amount: real)
    ensures log <= later && TookAt(l, initial, log, i, amount) ==> TookAt(l, initial, later, i, amount)
  {
    if log <= later && i < |log| {
      GrantStays(l, initial, log, later, i);
    }
  }

  /** The last event of a history is an attempt in vain to take this amount. */
  ghost predicate FailedLast(l: Limits, initial: Bucket, log: seq<Event>, amount: real) {
    |log| > 0 && AttemptAt(log, |log| - 1, amount) && !GrantedAt(l, initial, log, |log| - 1)
  }

  /** A time stamp may be set, and later be moved forward. */
  predicate Forward(was: Option<real>, now: Option<real>) {
    was.Some? ==> now.Some? && was.value <= now.value
  }

  class Governor {
    const cfg: Config
    const clock: Clock
    const requests: TokenBucket
    const tokens: TokenBucket
    var lastRequestAt: Option<real>

    ghost predicate Valid()
      reads this, clock, requests, tokens
    {
      && requests != tokens && requests.Valid(clock.now) && tokens.Valid(clock.now)
      && requests.limits == PerMinute(cfg.requestsPerMinute) && tokens.limits == PerMinute(cfg.tokensPerMinute)
      && requests.single && !tokens.single
      && (lastRequestAt.Some? ==> lastRequestAt.value <= clock.now)
    }

    constructor (cfg: Config, clock: Clock)
      ensures Valid() && this.cfg == cfg && this.clock == clock && lastRequestAt == None
      ensures fresh(requests) && fresh(tokens) && requests.log == [] && tokens.log == []
    {
      this.cfg, this.clock := cfg, clock;
      requests := new TokenBucket(PerMinute(cfg.requestsPerMinute), true, clock);
      tokens := new TokenBucket(PerMinute(cfg.tokensPerMinute), false, clock);
      lastRequestAt := None;
    }

    /** In its whole history no minute has granted more than twice the configured number of requests. */
    lemma RequestsAreBounded(s: real)
      requires Valid()
      ensures RequestsBetween(requests.limits, requests.initial, requests.log, s, s + 60.0)
           <= 2 * Max(1, cfg.requestsPerMinute)
    {
      var b := requests.initial;
      assert b == Bucket(Max(1, cfg.requestsPerMinute) as real, b.lastRefill);
      RequestsPerMinuteAreBounded(cfg.requestsPerMinute, b.lastRefill, requests.log, s, clock.now);
    }

    ghost predicate Took(bucket: TokenBucket, i: nat, amount: real)
      reads bucket
    {
      TookAt(bucket.limits, bucket.initial, bucket.log, i, amount)
    }

    /** The last thing that happened to a bucket is an attempt in vain to take this amount. */
    ghost predicate WasShort(bucket: TokenBucket, amount: real)
      reads bucket
    {
      FailedLast(bucket.limits, bucket.initial, bucket.log, amount)
    }

    /** The last request is so recent that the pause would be longer than the longest wait. */
    ghost predicate TooRecent()
      reads this, clock
    {
      && cfg.minIntervalMs > 0 && lastRequestAt.Some?
      && clock.now + cfg.maxWait < lastRequestAt.value + Interval(cfg)
    }

    /**
     * Admits a request, or refuses it because of a daily cap, because a bucket stayed short past
     * the longest wait, or because the pause would be longer than that. An admitted request has
     * taken one request and its tokens since it asked, and comes at least the interval after the
     * last request made before it asked.
     */
    method Acquire(totals: Option<LlmUsage.Totals>, estimated: int)
      returns (admission: Admission, ghost request: nat, ghost cost: nat)
      requires Valid()
      modifies this`lastRequestAt, clock, requests, tokens
      ensures Valid() && old(requests.log) <= requests.log && old(tokens.log) <= tokens.log
      ensures admission == DailyCap <==> CapReached(cfg, totals)
      ensures admission == DailyCap <==>
                && totals.Some?
                && ((cfg.dailyRequests >= 1 && cfg.dailyRequests <= totals.value.requests)
                    || (cfg.dailyTokens >= 1 && cfg.dailyTokens <= totals.value.prompt + totals.value.completion))
      ensures admission == DailyCap ==>
                && requests.log == old(requests.log) && tokens.log == old(tokens.log)
                && lastRequestAt == old(lastRequestAt)
      ensures admission == RateLimited ==>
                || (old(clock.now) + cfg.maxWait <= clock.now && |old(requests.log)| < |requests.log|
                    && WasShort(requests, 1.0))
                || (old(clock.now) + cfg.maxWait <= clock.now && |old(tokens.log)| < |tokens.log|
                    && WasShort(tokens, TokenCost(estimated)))
                || TooRecent()
      ensures admission == Admitted ==>
                && |old(requests.log)| <= request && Took(requests, request, 1.0)
                && |old(tokens.log)| <= cost && Took(tokens, cost, TokenCost(estimated))
      ensures admission == Admitted ==>
                && lastRequestAt == Some(clock.now)
                && (cfg.minIntervalMs > 0 && old(lastRequestAt).Some? ==>
                      old(lastRequestAt).value + Interval(cfg) <= clock.now)
    {
      request, cost := 0, 0;
      if CapReached(cfg, totals) {
        return DailyCap, request, cost;
      }
      var granted;
      granted, request, cost := TakeBoth(TokenCost(estimated));
      if !granted {
        return RateLimited, request, cost;
      }
      ghost var asked, spent := requests.log, tokens.log;
      var waited := Pause();
      TookStays(requests.limits, requests.initial, asked, requests.log, request, 1.0);
      TookStays(tokens.limits, tokens.initial, spent, tokens.log, cost, TokenCost(estimated));
      admission := if waited then Admitted else RateLimited;
    }

    /** One request, then its tokens; a request whose tokens stay short is not given back. */
    method TakeBoth(amount: real) returns (granted: bool, ghost request: nat, ghost cost: nat)
      requires Valid() && amount >= 0.0
      modifies this`lastRequestAt, clock, requests, tokens
      ensures Valid() && old(requests.log) <= requests.log && old(tokens.log) <= tokens.log
      ensures old(clock.now) <= clock.now && Forward(old(lastRequestAt), lastRequestAt)
      ensures granted ==> |old(requests.log)| <= request && Took(requests, request, 1.0)
      ensures granted ==> |old(tokens.log)| <= cost && Took(tokens, cost, amount)
      ensures !granted ==> old(clock.now) + cfg.maxWait <= clock.now
      ensures !granted ==>
                || (|old(requests.log)| < |requests.log| && WasShort(requests, 1.0))
                || (|old(tokens.log)| < |tokens.log| && WasShort(tokens, amount))
    {
      request, cost := 0, 0;
      granted := TakeFrom(requests, 1.0, tokens);
      if granted {
        request := |requests.log| - 1;
        ghost var asked := requests.log;
        granted := TakeFrom(tokens, amount, requests);
        TookStays(requests.limits, requests.initial, asked, requests.log, request, 1.0);
        if granted {
          cost := |tokens.log| - 1;
        }
      }
    }

    /** Waits on one of the two buckets; others may use both and make requests meanwhile. */
    method TakeFrom(bucket: TokenBucket, amount: real, other: TokenBucket) returns (granted: bool)
      requires Valid() && {bucket, other} == {requests, tokens} && bucket != other
      requires amount >= 0.0 && (bucket.single ==> amount == 1.0)
      modifies this`lastRequestAt, clock, requests, tokens
      ensures Valid() && old(requests.log) <= requests.log && old(tokens.log) <= tokens.log
      ensures old(clock.now) <= clock.now && Forward(old(lastRequestAt), lastRequestAt)
      ensures |old(bucket.log)| < |bucket.log|
      ensures if granted then Took(bucket, |bucket.log| - 1, amount) else WasShort(bucket, amount)
      ensures !granted ==> old(clock.now) + cfg.maxWait <= clock.now
    {
      ghost var own;
      granted, own := bucket.Acquire(amount, cfg.maxWait, clock, other);
      OthersRequest();
    }

    /** Other coroutines have made any number of requests by now. */
    method OthersRequest()
      requires lastRequestAt.Some? ==> lastRequestAt.value <= clock.now
      modifies this`lastRequestAt
      ensures Forward(old(lastRequestAt), lastRequestAt) && (lastRequestAt.Some? ==> lastRequestAt.value <= clock.now)
    {
      var at: real := *;
      if at <= clock.now && (lastRequestAt.Some? ==> lastRequestAt.value <= at) {
        lastRequestAt := Some(at);
      }
    }

    /** Keeps the configured distance from the last request seen, unless that would take too long. */
    method Pause() returns (waited: bool)
      requires Valid()
      modifies this`lastRequestAt, clock, requests, tokens
      ensures Valid() && old(requests.log) <= requests.log && old(tokens.log) <= tokens.log
      ensures old(clock.now) <= clock.now
      ensures waited ==> lastRequestAt == Some(clock.now)
      ensures waited && cfg.minIntervalMs > 0 && old(lastRequestAt).Some? ==>
                old(lastRequestAt).value + Interval(cfg) <= clock.now
      ensures !waited ==> TooRecent() && lastRequestAt == old(lastRequestAt)
    {
      if cfg.minIntervalMs > 0 && lastRequestAt.Some? {
        var t := Now();
        var remaining := Interval(cfg) - (t - lastRequestAt.value);
        if remaining > 0.0 {
          if remaining > cfg.maxWait {
            return false;
          }
          requests.Sleep(remaining, clock, tokens);
          OthersRequest();
        }
      }
      var at := Now();
      lastRequestAt := Some(at);
      waited := true;
    }

    /** A reading of the clock. */
    method Now() returns (t: real)
      requires Valid()
      modifies clock
      ensures Valid() && old(clock.now) <= clock.now == t
    {
      t := requests.Now(clock, tokens);
    }
  }
}
