/** The rate limiter's token bucket: what it grants over time, whoever shares it. */
module TokenBuckets {
  import opened Wrappers

  /** A bucket's size, its refill per second. */
  datatype Limits = Limits(capacity: real, refill: real)

  datatype Bucket = Bucket(tokens: real, lastRefill: real)

  /** An attempt to take tokens at a clock reading, or the debit of tokens a call turned out to use. */
  datatype Event =
    | Take(at: real, amount: real)
    | Debit(promptTokens: int, completionTokens: int)

  function Min(a: real, b: real): real { if a <= b then a else b }

  /** Tokens that flow in over some seconds. */
  function Earned(l: Limits, seconds: real): (r: real)
    ensures l.refill >= 0.0 && seconds >= 0.0 ==> r >= 0.0
  {
    Product(l.refill, seconds);
    l.refill * seconds
  }

  lemma Product(x: real, y: real)
    ensures x >= 0.0 && y >= 0.0 ==> x * y >= 0.0
  {
  }

  function Refilled(l: Limits, b: Bucket, now: real): Bucket {
    var elapsed := now - b.lastRefill;
    if elapsed <= 0.0 then b
    else Bucket(Min(l.capacity, b.tokens + Earned(l, elapsed)), now)
  }

  function Taken(l: Limits, b: Bucket, now: real, amount: real): (Bucket, bool) {
    var r := Refilled(l, b, now);
    if r.tokens >= amount then (r.(tokens := r.tokens - amount), true) else (r, false)
  }

  /** One token was taken in advance, so only usage beyond it is debited, and never below zero. */
  function Debited(b: Bucket, promptTokens: int, completionTokens: int): Bucket {
    var actual := Max(0, promptTokens) + Max(0, completionTokens);
    if actual <= 1 then b
    else
      var left := b.tokens - (actual - 1) as real;
      b.(tokens := if left >= 0.0 then left else 0.0)
  }

  function Step(l: Limits, b: Bucket, e: Event): Bucket {
    match e
    case Take(at, amount) => Taken(l, b, at, amount).0
    case Debit(p, c) => Debited(b, p, c)
  }

  function Run(l: Limits, b: Bucket, events: seq<Event>): Bucket {
    if events == [] then b else Step(l, Run(l, b, events[..|events| - 1]), events[|events| - 1])
  }

  /** Clock readings never go back, start after `from` and end by `until`; amounts are not negative. */
  predicate Chronological(events: seq<Event>, from: real, until: real)
    decreases |events|
  {
    if events == [] then from <= until
    else
      var e := events[|events| - 1];
      if e.Debit? then Chronological(events[..|events| - 1], from, until)
      else e.amount >= 0.0 && e.at <= until && Chronological(events[..|events| - 1], from, e.at)
  }

  predicate Granted(l: Limits, b: Bucket, e: Event) {
    e.Take? && Taken(l, b, e.at, e.amount).1
  }

  /** Attempt number `i` of a history is an attempt to take this amount. */
  predicate AttemptAt(log: seq<Event>, i: nat, amount: real) {
    i < |log| && log[i].Take? && log[i].amount == amount
  }

  /** Event number `i` of a history took its tokens. */
  predicate GrantedAt(l: Limits, initial: Bucket, log: seq<Event>, i: nat)
    requires i < |log|
  {
    Granted(l, Run(l, initial, log[..i]), log[i])
  }

  /** What has happened at `i` stays so as the history grows. */
  lemma GrantStays(l: Limits, initial: Bucket, log: seq<Event>, later: seq<Event>, i: nat)
    requires i < |log| && log <= later
    ensures GrantedAt(l, initial, log, i) == GrantedAt(l, initial, later, i)
  {
    assert log[..i] == later[..i];
  }

  /** Attempts in vain for this amount, in this order. */
  predicate InVain(l: Limits, initial: Bucket, log: seq<Event>, own: seq<nat>, amount: real) {
    && (forall x | 0 <= x < |own| :: AttemptAt(log, own[x], amount) && !GrantedAt(l, initial, log, own[x]))
    && (forall x, y | 0 <= x < y < |own| :: own[x] < own[y])
  }

  lemma InVainStays(l: Limits, initial: Bucket, log: seq<Event>, later: seq<Event>, own: seq<nat>, amount: real)
    ensures log <= later && InVain(l, initial, log, own, amount) ==> InVain(l, initial, later, own, amount)
  {
    if log <= later && InVain(l, initial, log, own, amount) {
      forall x | 0 <= x < |own|
        ensures AttemptAt(later, own[x], amount) && !GrantedAt(l, initial, later, own[x])
      {
        assert AttemptAt(log, own[x], amount);
        GrantStays(l, initial, log, later, own[x]);
      }
    }
  }

  /** Every event is an attempt to take exactly one token. */
  predicate SingleTakes(events: seq<Event>) {
    forall i | 0 <= i < |events| :: events[i].Take? && events[i].amount == 1.0
  }

  /** Total granted at clock readings from `s` to `t`. */
  function GrantedBetween(l: Limits, b: Bucket, events: seq<Event>, s: real, t: real): real {
    if events == [] then 0.0
    else
      var front, e := events[..|events| - 1], events[|events| - 1];
      GrantedBetween(l, b, front, s, t)
      + if Granted(l, Run(l, b, front), e) && s <= e.at <= t then e.amount else 0.0
  }

  predicate Sound(l: Limits, b: Bucket) {
    l.refill >= 0.0 && 0.0 <= b.tokens <= l.capacity
  }

  lemma {:induction false} StaysSound(l: Limits, b: Bucket, events: seq<Event>, until: real)
    requires Sound(l, b) && Chronological(events, b.lastRefill, until)
    ensures Sound(l, Run(l, b, events)) && b.lastRefill <= Run(l, b, events).lastRefill <= until
    decreases |events|
  {
    if events != [] {
      var front, e := events[..|events| - 1], events[|events| - 1];
      StaysSound(l, b, front, if e.Take? then e.at else until);
      if e.Take? { TakenFacts(l, Run(l, b, front), e.at, e.amount); }
    }
  }

  lemma EarnedAdds(l: Limits, a: real, b: real, c: real)
    ensures Earned(l, b - a) + Earned(l, c - b) == Earned(l, c - a)
  {
  }

  /** An attempt starts from at most the elapsed time's worth of tokens more than before. */
  lemma TakenFacts(l: Limits, b: Bucket, now: real, amount: real)
    requires Sound(l, b) && b.lastRefill <= now && amount >= 0.0
    ensures var (r, granted) := Taken(l, b, now, amount);
            var left := if granted then r.tokens + amount else r.tokens;
            Sound(l, r) && r.lastRefill == now
            && left <= l.capacity && left <= b.tokens + Earned(l, now - b.lastRefill)
  {
  }

  lemma RefillStep(l: Limits, s: real, last: real, at: real, granted: real, tokens: real, refilled: real)
    requires l.refill >= 0.0 && last <= at && s <= at && refilled <= l.capacity
    requires if last < s then granted == 0.0 else granted + tokens <= l.capacity + Earned(l, last - s)
    requires refilled <= tokens + Earned(l, at - last)
    ensures granted + refilled <= l.capacity + Earned(l, at - s)
  {
    EarnedAdds(l, s, last, at);
  }

  /** What was granted since `s`, plus what is left, is at most a full bucket plus the refill since `s`. */
  predicate Within(l: Limits, b: Bucket, granted: real, s: real) {
    if b.lastRefill < s then granted == 0.0
    else 0.0 <= granted && granted + b.tokens <= l.capacity + Earned(l, b.lastRefill - s)
  }

  lemma OneMoreTake(l: Limits, b: Bucket, at: real, amount: real, s: real, granted: real)
    requires Sound(l, b) && b.lastRefill <= at && amount >= 0.0 && Within(l, b, granted, s)
    ensures var (r, ok) := Taken(l, b, at, amount);
            Within(l, r, granted + if ok && s <= at then amount else 0.0, s)
  {
    TakenFacts(l, b, at, amount);
    var (r, ok) := Taken(l, b, at, amount);
    if s <= at {
      RefillStep(l, s, b.lastRefill, at, granted, b.tokens, if ok then r.tokens + amount else r.tokens);
    }
  }

  lemma NothingGranted(l: Limits, b: Bucket, s: real)
    requires Sound(l, b)
    ensures Within(l, b, 0.0, s)
  {
  }

  lemma OneMoreDebit(l: Limits, b: Bucket, p: int, c: int, s: real, granted: real)
    requires Sound(l, b) && Within(l, b, granted, s)
    ensures Within(l, Debited(b, p, c), granted, s)
  {
  }

  lemma {:induction false} GrantedPlusLeft(l: Limits, b: Bucket, events: seq<Event>, s: real, t: real)
    requires Sound(l, b) && Chronological(events, b.lastRefill, t)
    ensures Within(l, Run(l, b, events), GrantedBetween(l, b, events, s, t), s)
    decreases |events|
  {
    if events == [] {
      NothingGranted(l, b, s);
    } else {
      var front, e := events[..|events| - 1], events[|events| - 1];
      if e.Debit? {
        GrantedPlusLeft(l, b, front, s, t);
        StaysSound(l, b, front, t);
        OneMoreDebit(l, Run(l, b, front), e.promptTokens, e.completionTokens, s, GrantedBetween(l, b, front, s, t));
      } else {
        StaysSound(l, b, front, e.at);
        GrantedPlusLeft(l, b, front, s, e.at);
        LaterLimit(l, b, front, s, e.at, t);
        OneMoreTake(l, Run(l, b, front), e.at, e.amount, s, GrantedBetween(l, b, front, s, t));
      }
    }
  }

  /** Events that end by `t` count the same for any later limit. */
  lemma {:induction false} LaterLimit(l: Limits, b: Bucket, events: seq<Event>, s: real, t: real, u: real)
    requires t <= u && Chronological(events, b.lastRefill, t)
    ensures GrantedBetween(l, b, events, s, t) == GrantedBetween(l, b, events, s, u)
    decreases |events|
  {
    if events != [] {
      var front, e := events[..|events| - 1], events[|events| - 1];
      if e.Take? {
        LaterLimit(l, b, front, s, e.at, t);
        LaterLimit(l, b, front, s, e.at, u);
      } else {
        LaterLimit(l, b, front, s, t, u);
      }
    }
  }

  /**
   * Under any interleaving of acquirers and debits, the amounts granted in a span of time never
   * exceed a full bucket plus what the span refills.
   */
  lemma {:induction false} GrantsAreBounded(l: Limits, b: Bucket, events: seq<Event>, s: real, t: real, until: real)
    requires Sound(l, b) && s <= t && Chronological(events, b.lastRefill, until)
    ensures GrantedBetween(l, b, events, s, t) <= l.capacity + Earned(l, t - s)
    decreases |events|
  {
    if events == [] {
      SpanAllowance(l, s, t);
    } else {
      var front, e := events[..|events| - 1], events[|events| - 1];
      if e.Debit? {
        GrantsAreBounded(l, b, front, s, t, until);
      } else if e.at > t || e.at < s {
        GrantsAreBounded(l, b, front, s, t, e.at);
      } else {
        BoundedAtLastTake(l, b, events, s, t);
      }
    }
  }

  lemma BoundedAtLastTake(l: Limits, b: Bucket, events: seq<Event>, s: real, t: real)
    requires Sound(l, b) && s <= t && Chronological(events, b.lastRefill, t)
    ensures GrantedBetween(l, b, events, s, t) <= l.capacity + Earned(l, t - s)
  {
    GrantedPlusLeft(l, b, events, s, t);
    StaysSound(l, b, events, t);
    SpanBound(l, Run(l, b, events), GrantedBetween(l, b, events, s, t), s, t);
  }

  lemma SpanAllowance(l: Limits, s: real, t: real)
    requires 0.0 <= l.capacity && l.refill >= 0.0 && s <= t
    ensures 0.0 <= l.capacity + Earned(l, t - s)
  {
  }

  lemma SpanBound(l: Limits, b: Bucket, granted: real, s: real, t: real)
    requires Sound(l, b) && s <= t && b.lastRefill <= t && Within(l, b, granted, s)
    ensures granted <= l.capacity + Earned(l, t - s)
  {
    EarnedAdds(l, s, b.lastRefill, t);
  }

  /** The governor's buckets hold a minute's worth and refill it over a minute. */
  function PerMinute(rate: int): Limits {
    Limits(Max(1, rate) as real, Max(1, rate) as real / 60.0)
  }

  /** So no minute ever sees more than twice the configured rate granted. */
  lemma AtMostTwiceTheRate(rate: int, start: real, events: seq<Event>, s: real, until: real)
    requires Chronological(events, start, until)
    ensures var full := Bucket(Max(1, rate) as real, start);
            GrantedBetween(PerMinute(rate), full, events, s, s + 60.0) <= 2.0 * Max(1, rate) as real
  {
    var l := PerMinute(rate);
    GrantsAreBounded(l, Bucket(l.capacity, start), events, s, s + 60.0, until);
    assert s + 60.0 - s == 60.0;
    assert Earned(l, 60.0) == l.refill * 60.0 == Max(1, rate) as real;
  }

  // ----- a bucket does fill up -----

  lemma {:induction false} ChronologicalPrefix(log: seq<Event>, from: real, until: real, k: nat)
    requires Chronological(log, from, until) && k <= |log|
    ensures Chronological(log[..k], from, if k < |log| && log[k].Take? then log[k].at else until)
    decreases |log|
  {
    if k == |log| {
      assert log[..k] == log;
    } else {
      var front, e := log[..|log| - 1], log[|log| - 1];
      assert front[..k] == log[..k] && (k < |front| ==> front[k] == log[k]);
      ChronologicalPrefix(front, from, if e.Take? then e.at else until, k);
      if e.Take? && !(k < |log| && log[k].Take?) { ChronologicalLater(log[..k], from, e.at, until); }
    }
  }

  /** What the bucket is like when event number `k` comes. */
  lemma SoundBefore(l: Limits, b: Bucket, log: seq<Event>, until: real, k: nat)
    requires Sound(l, b) && Chronological(log, b.lastRefill, until) && k < |log| && log[k].Take?
    ensures var r := Run(l, b, log[..k]); Sound(l, r) && r.lastRefill <= log[k].at && log[k].amount >= 0.0
  {
    ChronologicalPrefix(log, b.lastRefill, until, k);
    StaysSound(l, b, log[..k], log[k].at);
    ChronologicalPrefix(log, b.lastRefill, until, k + 1);
    assert log[..k + 1][..k] == log[..k] && log[..k + 1][k] == log[k];
  }

  lemma AfterAttempt(l: Limits, b: Bucket, log: seq<Event>, k: nat)
    requires k < |log|
    ensures Run(l, b, log[..k + 1]) == Step(l, Run(l, b, log[..k]), log[k])
  {
    assert log[..k + 1][..k] == log[..k];
  }

  /** What flows into a bucket from one time to another. */
  function Flow(l: Limits, from: real, to: real): real {
    l.refill * (to - from)
  }

  lemma FlowAddsUp(l: Limits, a: real, b: real, c: real)
    requires l.refill >= 0.0 && b <= c
    ensures Flow(l, a, b) + Flow(l, b, c) == Flow(l, a, c) && Flow(l, b, c) >= 0.0
  {
    Product(l.refill, c - b);
  }

  lemma NoTimeNoFlow(l: Limits, a: real, b: real)
    ensures a == b ==> Flow(l, a, b) == 0.0
  {
  }

  lemma CappedTwice(cap: real, tokens: real, first: real, second: real)
    requires second >= 0.0
    ensures Min(cap, Min(cap, tokens + first) + second) == Min(cap, tokens + (first + second))
  {
  }

  /** The bucket holds `tokens` and what has flowed in since `from`, up to its capacity. */
  predicate FilledSince(l: Limits, b: Bucket, tokens: real, from: real) {
    from <= b.lastRefill && b.tokens == Min(l.capacity, tokens + Flow(l, from, b.lastRefill))
  }

  lemma EarnedFlows(l: Limits, a: real, b: real)
    ensures Earned(l, b - a) == Flow(l, a, b)
  {
  }

  lemma RefilledIsFilled(l: Limits, b: Bucket, now: real)
    requires Sound(l, b) && b.lastRefill <= now
    ensures Refilled(l, b, now) == Bucket(Min(l.capacity, b.tokens + Flow(l, b.lastRefill, now)), now)
  {
    NoTimeNoFlow(l, b.lastRefill, now);
    EarnedFlows(l, b.lastRefill, now);
  }

  lemma FillsOn(l: Limits, b: Bucket, tokens: real, from: real, now: real)
    requires Sound(l, b) && b.lastRefill <= now
    ensures FilledSince(l, b, tokens, from) ==> FilledSince(l, Refilled(l, b, now), tokens, from)
  {
    RefilledIsFilled(l, b, now);
    FlowAddsUp(l, from, b.lastRefill, now);
    CappedTwice(l.capacity, tokens, Flow(l, from, b.lastRefill), Flow(l, b.lastRefill, now));
  }

  predicate VainAt(l: Limits, b: Bucket, log: seq<Event>, x: nat) {
    x < |log| && log[x].Take? && !GrantedAt(l, b, log, x)
  }

  /** Nothing was taken or debited between events `i` and `j`. */
  ghost predicate OnlyInVain(l: Limits, b: Bucket, log: seq<Event>, i: nat, j: nat) {
    forall x: nat | i < x < j :: VainAt(l, b, log, x)
  }

  lemma FreshlyFilled(l: Limits, b: Bucket, at: real, amount: real)
    requires Sound(l, b) && b.lastRefill <= at && amount >= 0.0
    ensures var r := Taken(l, b, at, amount).0; Sound(l, r) && FilledSince(l, r, r.tokens, at)
  {
    TakenFacts(l, b, at, amount);
    NoTimeNoFlow(l, at, Taken(l, b, at, amount).0.lastRefill);
  }

  /** After an attempt, and as long as nothing is taken or debited, the bucket fills at its rate. */
  lemma {:induction false} Fills(l: Limits, b: Bucket, log: seq<Event>, until: real, i: nat, k: nat, tokens: real)
    requires Sound(l, b) && Chronological(log, b.lastRefill, until)
    requires i < k <= |log| && log[i].Take? && OnlyInVain(l, b, log, i, k)
    requires tokens == Run(l, b, log[..i + 1]).tokens
    ensures FilledSince(l, Run(l, b, log[..k]), tokens, log[i].at) && 0.0 <= tokens <= l.capacity
    decreases k
  {
    assert k - 1 == i || VainAt(l, b, log, k - 1);
    SoundBefore(l, b, log, until, k - 1);
    AfterAttempt(l, b, log, k - 1);
    var before, e := Run(l, b, log[..k - 1]), log[k - 1];
    if k == i + 1 {
      FreshlyFilled(l, before, e.at, e.amount);
    } else {
      Fills(l, b, log, until, i, k - 1, tokens);
      FillsOn(l, before, tokens, log[i].at, e.at);
    }
  }

  /** When an attempt is granted, told from what had been left and what has flowed in since. */
  lemma GrantedIff(l: Limits, b: Bucket, tokens: real, from: real, e: Event)
    requires Sound(l, b) && e.Take? && b.lastRefill <= e.at && e.amount <= l.capacity
    ensures FilledSince(l, b, tokens, from) ==> (Granted(l, b, e) <==> Enough(l, tokens, from, e))
  {
    FillsOn(l, b, tokens, from, e.at);
    RefilledIsFilled(l, b, e.at);
  }

  /** What was left at `from`, with the refill since, makes up the amount. */
  predicate Enough(l: Limits, tokens: real, from: real, e: Event)
    requires e.Take?
  {
    tokens + Flow(l, from, e.at) >= e.amount
  }

  /** The refill since `from` alone makes up the amount. */
  predicate FlowsIn(l: Limits, from: real, e: Event)
    requires e.Take?
  {
    Flow(l, from, e.at) >= e.amount
  }

  lemma EnoughFlowsIn(l: Limits, tokens: real, from: real, e: Event)
    requires e.Take? && tokens >= 0.0
    ensures FlowsIn(l, from, e) ==> Enough(l, tokens, from, e)
  {
  }

  /**
   * After an attempt at `i`, while nothing is taken or debited, an attempt for at most the capacity
   * is granted exactly when what was left then and the refill since make up the amount; so certainly
   * when the refill alone does.
   */
  lemma WaitingIsRewarded(l: Limits, b: Bucket, log: seq<Event>, until: real, i: nat, j: nat)
    requires Sound(l, b) && Chronological(log, b.lastRefill, until)
    requires i < j < |log| && log[i].Take? && log[j].Take? && log[j].amount <= l.capacity
    requires OnlyInVain(l, b, log, i, j)
    ensures GrantedAt(l, b, log, j) <==> Enough(l, Run(l, b, log[..i + 1]).tokens, log[i].at, log[j])
    ensures FlowsIn(l, log[i].at, log[j]) ==> GrantedAt(l, b, log, j)
  {
    var tokens := Run(l, b, log[..i + 1]).tokens;
    Fills(l, b, log, until, i, j, tokens);
    SoundBefore(l, b, log, until, j);
    GrantedIff(l, Run(l, b, log[..j]), tokens, log[i].at, log[j]);
    EnoughFlowsIn(l, tokens, log[i].at, log[j]);
  }

  /** A bucket left alone for as long as the amount takes to flow in grants it. */
  lemma IdleBucketGrants(l: Limits, b: Bucket, e: Event)
    requires Sound(l, b) && e.Take? && b.lastRefill <= e.at && e.amount <= l.capacity
    ensures FlowsIn(l, b.lastRefill, e) ==> Granted(l, b, e)
  {
    RefilledIsFilled(l, b, e.at);
    CoversAmount(l.capacity, b.tokens, Flow(l, b.lastRefill, e.at), e.amount);
  }

  lemma CoversAmount(cap: real, tokens: real, flow: real, amount: real)
    requires tokens >= 0.0 && amount <= cap
    ensures flow >= amount ==> Min(cap, tokens + flow) >= amount
  {
  }

  lemma VainInRow(l: Limits, b: Bucket, log: seq<Event>, own: seq<nat>, amount: real, x: nat)
    requires InVain(l, b, log, own, amount) && x < |own|
    ensures VainAt(l, b, log, own[x]) && log[own[x]].amount == amount
  {
  }

  /** An attempt on a bucket left alone long enough is the first and the last. */
  lemma FirstAttempt(l: Limits, b: Bucket, before: seq<Event>, log: seq<Event>, own: seq<nat>, until: real,
                     amount: real)
    requires Sound(l, b) && Chronological(log, b.lastRefill, until) && before <= log && amount <= l.capacity
    requires own != [] && own[0] == |before| && own[|own| - 1] == |log| - 1
    requires InVain(l, b, log, own[..|own| - 1], amount) && AttemptAt(log, |log| - 1, amount)
    ensures AttemptAt(log, |before|, amount)
    ensures FlowsIn(l, Run(l, b, before).lastRefill, log[|before|]) ==>
              |own| == 1 && GrantedAt(l, b, log, |log| - 1)
  {
    var first := |before|;
    if |own| > 1 {
      assert own[..|own| - 1][0] == first;
      VainInRow(l, b, log, own[..|own| - 1], amount, 0);
    }
    SoundBefore(l, b, log, until, first);
    assert log[..first] == before;
    IdleBucketGrants(l, Run(l, b, before), log[first]);
    assert GrantedAt(l, b, log, first) == Granted(l, Run(l, b, before), log[first]);
  }

  /** Increasing numbers without room between them. */
  lemma {:induction false} Consecutive(own: seq<nat>, x: nat)
    requires own != [] && forall i, j | 0 <= i < j < |own| :: own[i] < own[j]
    requires own[|own| - 1] == own[0] + |own| - 1 && x < |own|
    ensures own[x] == own[0] + x
  {
    AtLeast(own, 0, x);
    AtLeast(own, x, |own| - 1);
  }

  lemma {:induction false} AtLeast(own: seq<nat>, i: nat, j: nat)
    requires i <= j < |own| && forall i, j | 0 <= i < j < |own| :: own[i] < own[j]
    ensures own[i] + (j - i) <= own[j]
    decreases j
  {
    if i < j { AtLeast(own, i, j - 1); }
  }

  lemma NothingWanted(l: Limits, b: Bucket, e: Event)
    requires Sound(l, b) && e.Take? && b.lastRefill <= e.at
    ensures FlowsIn(l, e.at, e) ==> Granted(l, b, e)
  {
    NoTimeNoFlow(l, e.at, e.at);
    TakenFacts(l, b, e.at, if e.amount >= 0.0 then e.amount else 0.0);
  }

  lemma VainBetween(l: Limits, b: Bucket, first: nat, log: seq<Event>, own: seq<nat>, amount: real)
    requires own != [] && own[0] == first && own[|own| - 1] == |log| - 1 && |log| == first + |own|
    requires forall i, j | 0 <= i < j < |own| :: own[i] < own[j]
    requires InVain(l, b, log, own[..|own| - 1], amount)
    ensures OnlyInVain(l, b, log, first, |log| - 1)
  {
    forall x: nat | first < x < |log| - 1
      ensures VainAt(l, b, log, x)
    {
      Consecutive(own, x - first);
      VainInRow(l, b, log, own[..|own| - 1], amount, x - first);
    }
  }

  /** Refused with nobody else on the bucket: what flowed in between first and last attempt was too little. */
  lemma OwnAttemptsOnly(l: Limits, b: Bucket, first: nat, log: seq<Event>, own: seq<nat>, until: real, amount: real)
    requires Sound(l, b) && Chronological(log, b.lastRefill, until) && amount <= l.capacity
    requires own != [] && own[0] == first && own[|own| - 1] == |log| - 1 && |log| == first + |own|
    requires forall i, j | 0 <= i < j < |own| :: own[i] < own[j]
    requires InVain(l, b, log, own[..|own| - 1], amount) && AttemptAt(log, |log| - 1, amount)
    requires AttemptAt(log, first, amount)
    ensures FlowsIn(l, log[first].at, log[|log| - 1]) ==> GrantedAt(l, b, log, |log| - 1)
  {
    var last := |log| - 1;
    if first < last {
      VainBetween(l, b, first, log, own, amount);
      WaitingIsRewarded(l, b, log, until, first, last);
    } else {
      SoundBefore(l, b, log, until, last);
      NothingWanted(l, Run(l, b, log[..last]), log[last]);
    }
  }

  /**
   * A wait for at most the capacity is granted at once when the amount has flowed in since the bucket
   * was last touched. When nobody else touches the bucket, it is refused only if what flowed in
   * between its first and its last attempt is too little.
   */
  ghost predicate Rewarded(l: Limits, before: Bucket, first: nat, log: seq<Event>, amount: real, own: seq<nat>,
                           granted: bool) {
    && AttemptAt(log, first, amount) && AttemptAt(log, |log| - 1, amount)
    && (amount <= l.capacity && FlowsIn(l, before.lastRefill, log[first]) ==> granted && |own| == 1)
    && (amount <= l.capacity && |log| == first + |own| && !granted ==> !FlowsIn(l, log[first].at, log[|log| - 1]))
  }

  lemma WaitRewarded(l: Limits, b: Bucket, before: seq<Event>, log: seq<Event>, tried: seq<nat>, own: seq<nat>,
                     until: real, amount: real)
    requires Sound(l, b) && Chronological(log, b.lastRefill, until) && before <= log && |before| < |log|
    requires own == tried + [|log| - 1] && own[0] == |before|
    requires InVain(l, b, log, tried, amount) && AttemptAt(log, |log| - 1, amount)
    requires forall x | 0 <= x < |tried| :: tried[x] < |log| - 1
    ensures Rewarded(l, Run(l, b, before), |before|, log, amount, own, GrantedAt(l, b, log, |log| - 1))
  {
    assert own[..|own| - 1] == tried;
    if |own| > 1 { VainInRow(l, b, log, tried, amount, 0); }
    if amount <= l.capacity {
      FirstAttempt(l, b, before, log, own, until, amount);
      if |log| == |before| + |own| {
        OwnAttemptsOnly(l, b, |before|, log, own, until, amount);
      }
    }
  }

  // ----- the waiting loop -----

  /** The monotonic clock of the process; time passes by an unknown amount between readings. */
  class Clock {
    var now: real

    constructor ()
      ensures now == 0.0
    {
      now := 0.0;
    }

    method Monotonic() returns (t: real)
      modifies this
      ensures old(now) <= now == t
    {
      var passed: real := *;
      now := if passed >= 0.0 then now + passed else now;
      t := now;
    }
  }

  /** A bucket is `single` when its users only ever take one token at a time and never debit it. */
  class TokenBucket {
    const limits: Limits
    const single: bool
    var tokens: real
    var lastRefill: real
    ghost const initial: Bucket
    ghost var log: seq<Event>

    ghost function State(): Bucket
      reads this
    {
      Bucket(tokens, lastRefill)
    }

    /** The fields are what the logged events leave of a full bucket. */
    ghost predicate Valid(now: real)
      reads this
    {
      && State() == Run(limits, initial, log)
      && Sound(limits, initial) && initial.tokens == limits.capacity
      && Chronological(log, initial.lastRefill, now)
      && (single ==> SingleTakes(log))
    }

    constructor (limits: Limits, single: bool, clock: Clock)
      requires limits.capacity >= 0.0 && limits.refill >= 0.0
      ensures Valid(clock.now) && log == [] && tokens == limits.capacity
      ensures this.limits == limits && this.single == single
    {
      this.limits, this.single := limits, single;
      tokens := limits.capacity;
      lastRefill := clock.now;
      initial := Bucket(limits.capacity, clock.now);
      log := [];
    }

    lemma LaterIsValid(now: real, later: real)
      requires Valid(now) && now <= later
      ensures Valid(later)
    {
      ChronologicalLater(log, initial.lastRefill, now, later);
    }

    method Refill(now: real)
      modifies this`tokens, this`lastRefill
      ensures State() == Refilled(limits, old(State()), now)
      ensures now > old(lastRefill) ==>
                && lastRefill == now
                && (tokens == limits.capacity || tokens == old(tokens) + Flow(limits, old(lastRefill), now))
                && tokens <= limits.capacity && tokens <= old(tokens) + Flow(limits, old(lastRefill), now)
    {
      var elapsed := now - lastRefill;
      if elapsed <= 0.0 {
        return;
      }
      EarnedFlows(limits, lastRefill, now);
      tokens := Min(limits.capacity, tokens + Earned(limits, elapsed));
      lastRefill := now;
    }

    /** The part of acquiring that runs without yielding: read the clock, refill, take if possible. */
    method TryTake(amount: real, clock: Clock) returns (granted: bool)
      requires Valid(clock.now) && amount >= 0.0 && (single ==> amount == 1.0)
      modifies this, clock
      ensures old(clock.now) <= clock.now && Valid(clock.now)
      ensures log == old(log) + [Take(clock.now, amount)]
      ensures State() == Step(limits, old(State()), Take(clock.now, amount))
      ensures granted == Granted(limits, old(State()), Take(clock.now, amount))
    {
      var now := clock.Monotonic();
      LaterIsValid(old(clock.now), now);
      Refill(now);
      granted := tokens >= amount;
      if granted {
        tokens := tokens - amount;
      }
      log := log + [Take(now, amount)];
      assert log[..|log| - 1] == old(log);
    }

    method RecordTokenUsage(promptTokens: int, completionTokens: int, ghost now: real)
      requires Valid(now) && !single
      modifies this`tokens, this`log
      ensures Valid(now) && log == old(log) + [Debit(promptTokens, completionTokens)]
      ensures State() == Debited(old(State()), promptTokens, completionTokens)
      ensures var used := (if promptTokens > 0 then promptTokens else 0)
                          + (if completionTokens > 0 then completionTokens else 0);
              tokens == if used <= 1 then old(tokens)
                        else if old(tokens) <= (used - 1) as real then 0.0 else old(tokens) - (used - 1) as real
    {
      var actual := Max(0, promptTokens) + Max(0, completionTokens);
      if actual > 1 {
        var extra := (actual - 1) as real;
        tokens := if tokens - extra >= 0.0 then tokens - extra else 0.0;
      }
      log := log + [Debit(promptTokens, completionTokens)];
      assert log[..|log| - 1] == old(log);
    }

    /** Another coroutine takes from this bucket or debits it. */
    method UseOnce(clock: Clock)
      requires Valid(clock.now)
      modifies this, clock
      ensures old(clock.now) <= clock.now && Valid(clock.now) && old(log) <= log
    {
      var debits: bool := *;
      if debits && !single {
        var p: int, c: int := *, *;
        RecordTokenUsage(p, c, clock.now);
      } else {
        var amount: real := *;
        var _ := TryTake(if single then 1.0 else if amount >= 0.0 then amount else 0.0, clock);
      }
    }

    /** Sleeping lets any number of other coroutines use this bucket and its peer. */
    method Sleep(seconds: real, clock: Clock, peer: TokenBucket)
      requires Valid(clock.now) && peer.Valid(clock.now)
      modifies this, peer, clock
      ensures old(clock.now) <= clock.now && old(clock.now) + seconds <= clock.now
      ensures Valid(clock.now) && old(log) <= log
      ensures peer.Valid(clock.now) && old(peer.log) <= peer.log
    {
      var passed: real := *;
      if passed < 0.0 || passed < seconds {
        passed := if seconds >= 0.0 then seconds else 0.0;
      }
      clock.now := clock.now + passed;
      LaterIsValid(old(clock.now), clock.now);
      peer.LaterIsValid(old(clock.now), clock.now);
      var others: int := *;
      while others > 0
        invariant old(clock.now) + passed <= clock.now
        invariant Valid(clock.now) && old(log) <= log
        invariant peer.Valid(clock.now) && old(peer.log) <= peer.log
        decreases others
      {
        others := others - 1;
        var here: bool := *;
        UseEither(clock, peer, here);
      }
    }

    /** One use of this bucket or of its peer. */
    method UseEither(clock: Clock, peer: TokenBucket, here: bool)
      requires Valid(clock.now) && peer.Valid(clock.now)
      modifies this, peer, clock
      ensures old(clock.now) <= clock.now
      ensures Valid(clock.now) && old(log) <= log
      ensures peer.Valid(clock.now) && old(peer.log) <= peer.log
    {
      ghost var before := clock.now;
      if here {
        UseOnce(clock);
        if peer != this { peer.LaterIsValid(before, clock.now); }
      } else {
        peer.UseOnce(clock);
        if peer != this { LaterIsValid(before, clock.now); }
      }
    }

    /**
     * Waits until the amount can be taken or the deadline passes. Every other user of the bucket
     * and of its peer may run while it sleeps. `own` are this caller's attempts in the history: the
     * first at once, all but the last in vain, the last decides; they are at most
     * ceil(maxWait / 0.05) + 1.
     */
    method Acquire(amount: real, maxWait: real, clock: Clock, peer: TokenBucket)
      returns (granted: bool, ghost own: seq<nat>)
      requires Valid(clock.now) && peer.Valid(clock.now) && amount >= 0.0 && (single ==> amount == 1.0)
      modifies this, peer, clock
      ensures old(clock.now) <= clock.now && Valid(clock.now) && old(log) <= log
      ensures peer.Valid(clock.now) && old(peer.log) <= peer.log
      ensures |own| >= 1 && own[0] == |old(log)| && own[|own| - 1] == |log| - 1
      ensures InVain(limits, initial, log, own[..|own| - 1], amount) && AttemptAt(log, |log| - 1, amount)
      ensures forall x | 0 <= x < |own| - 1 :: own[x] < |log| - 1
      ensures granted == GrantedAt(limits, initial, log, |log| - 1)
      ensures !granted ==> clock.now >= old(clock.now) + maxWait && tokens < amount
      ensures |own| == 1 || 0.05 * (|own| - 2) as real < maxWait
      ensures Rewarded(limits, old(State()), |old(log)|, log, amount, own, granted)
    {
      var start := Now(clock, peer);
      ghost var tried;
      granted, tried := Insist(amount, start, maxWait, clock, peer);
      own := tried + [|log| - 1];
      assert own[..|own| - 1] == tried;
      WaitRewarded(limits, initial, old(log), log, tried, own, clock.now, amount);
    }

    /** The rounds of a wait that began at `start`; `tried` are the attempts before the deciding one. */
    method Insist(amount: real, start: real, maxWait: real, clock: Clock, peer: TokenBucket)
      returns (granted: bool, ghost tried: seq<nat>)
      requires Valid(clock.now) && peer.Valid(clock.now) && amount >= 0.0 && (single ==> amount == 1.0)
      requires start == clock.now
      modifies this, peer, clock
      ensures start <= clock.now && Valid(clock.now) && old(log) <= log
      ensures peer.Valid(clock.now) && old(peer.log) <= peer.log
      ensures |old(log)| < |log|
      ensures InVain(limits, initial, log, tried, amount) && AttemptAt(log, |log| - 1, amount)
      ensures if tried == [] then |log| == |old(log)| + 1 else tried[0] == |old(log)|
      ensures forall x | 0 <= x < |tried| :: tried[x] < |log| - 1
      ensures granted == GrantedAt(limits, initial, log, |log| - 1)
      ensures !granted ==> clock.now >= start + maxWait && tokens < amount
      ensures tried == [] || 0.05 * (|tried| - 1) as real < maxWait
    {
      var deadline := start + maxWait;
      tried := [];
      while true
        invariant Valid(clock.now) && old(log) <= log && start <= clock.now
        invariant peer.Valid(clock.now) && old(peer.log) <= peer.log
        invariant InVain(limits, initial, log, tried, amount)
        invariant if tried == [] then log == old(log) else tried[0] == |old(log)|
        invariant Paced(start, deadline, clock.now, |tried|)
        decreases clock.now < deadline, MostRounds(maxWait) - |tried|
      {
        ghost var at, began := |log|, clock.now;
        var over;
        granted, over := Round(amount, deadline, clock, peer, tried);
        if granted || over {
          return;
        }
        PacedMore(start, maxWait, began, clock.now, |tried|);
        tried := tried + [at];
      }
    }

    /** One round of waiting: an attempt and, in vain and before the deadline, a little sleep. */
    method Round(amount: real, deadline: real, clock: Clock, peer: TokenBucket, ghost tried: seq<nat>)
      returns (granted: bool, over: bool)
      requires Valid(clock.now) && peer.Valid(clock.now) && amount >= 0.0 && (single ==> amount == 1.0)
      requires InVain(limits, initial, log, tried, amount)
      modifies this, peer, clock
      ensures old(clock.now) <= clock.now && Valid(clock.now) && old(log) <= log && |old(log)| < |log|
      ensures peer.Valid(clock.now) && old(peer.log) <= peer.log
      ensures granted || over ==>
                && |log| == |old(log)| + 1 && AttemptAt(log, |log| - 1, amount)
                && InVain(limits, initial, log, tried, amount) && granted == GrantedAt(limits, initial, log, |log| - 1)
      ensures !granted && over ==> clock.now >= deadline && tokens < amount
      ensures !granted && !over ==>
                && InVain(limits, initial, log, tried + [|old(log)|], amount)
                && old(clock.now) < deadline && (clock.now >= deadline || clock.now >= old(clock.now) + 0.05)
    {
      ghost var earlier := log;
      granted := Attempt(amount, clock, peer);
      over := false;
      InVainStays(limits, initial, earlier, log, tried, amount);
      if !granted {
        over := RestUntil(deadline, clock, peer, tried, tried + [|log| - 1], amount);
      }
    }

    /** After an attempt in vain: gives up past the deadline, else sleeps a little. */
    method RestUntil(deadline: real, clock: Clock, peer: TokenBucket, ghost tried: seq<nat>, ghost own: seq<nat>,
                     ghost amount: real)
      returns (over: bool)
      requires Valid(clock.now) && peer.Valid(clock.now)
      requires |log| >= 1 && own == tried + [|log| - 1]
      requires AttemptAt(log, |log| - 1, amount) && !GrantedAt(limits, initial, log, |log| - 1)
      requires InVain(limits, initial, log, tried, amount) && forall x | 0 <= x < |tried| :: tried[x] < |log| - 1
      modifies this, peer, clock
      ensures old(clock.now) <= clock.now && Valid(clock.now) && peer.Valid(clock.now) && old(peer.log) <= peer.log
      ensures over ==> clock.now >= deadline && log == old(log) && State() == old(State())
      ensures over && peer != this ==> peer.log == old(peer.log)
      ensures !over ==> old(clock.now) < deadline && old(log) <= log
      ensures !over ==> InVain(limits, initial, log, own, amount)
      ensures !over ==> clock.now >= deadline || clock.now >= old(clock.now) + 0.05
    {
      ghost var known := log;
      var checked := Now(clock, peer);
      if checked >= deadline {
        return true;
      }
      OneMoreInVain(limits, initial, log, tried, |log| - 1, amount);
      var again := Now(clock, peer);
      Sleep(Min(0.05, deadline - again), clock, peer);
      InVainStays(limits, initial, known, log, own, amount);
      over := false;
    }

    /** One attempt; the peer is not used meanwhile. */
    method Attempt(amount: real, clock: Clock, peer: TokenBucket) returns (granted: bool)
      requires Valid(clock.now) && peer.Valid(clock.now) && amount >= 0.0 && (single ==> amount == 1.0)
      modifies this, clock
      ensures old(clock.now) <= clock.now && Valid(clock.now) && peer.Valid(clock.now)
      ensures log == old(log) + [Take(clock.now, amount)] && (peer != this ==> peer.log == old(peer.log))
      ensures granted == GrantedAt(limits, initial, log, |log| - 1)
      ensures !granted ==> tokens < amount
    {
      ghost var before, earlier := clock.now, log;
      granted := TryTake(amount, clock);
      assert log[..|log| - 1] == earlier;
      if peer != this { peer.LaterIsValid(before, clock.now); }
    }

    /** A reading of the clock. */
    method Now(clock: Clock, peer: TokenBucket) returns (t: real)
      requires Valid(clock.now) && peer.Valid(clock.now)
      modifies clock
      ensures Valid(clock.now) && peer.Valid(clock.now) && old(clock.now) <= clock.now == t
    {
      t := clock.Monotonic();
      LaterIsValid(old(clock.now), t);
      peer.LaterIsValid(old(clock.now), t);
    }
  }

  /** After `n` rounds in vain the deadline is past or each of them has taken its 0.05 seconds. */
  predicate Paced(start: real, deadline: real, now: real, n: int) {
    && (now >= deadline || now >= start + 0.05 * n as real)
    && (n <= 0 || 0.05 * (n - 1) as real < deadline - start)
  }

  function MostRounds(maxWait: real): int {
    if maxWait <= 0.0 then 1 else (maxWait / 0.05).Floor + 2
  }

  lemma PacedMore(start: real, maxWait: real, before: real, now: real, n: nat)
    ensures Paced(start, start + maxWait, before, n) && before < start + maxWait
            && (now >= start + maxWait || now >= before + 0.05)
            ==> Paced(start, start + maxWait, now, n + 1) && n + 1 <= MostRounds(maxWait)
  {
  }

  lemma OneMoreInVain(l: Limits, initial: Bucket, log: seq<Event>, own: seq<nat>, i: nat, amount: real)
    ensures InVain(l, initial, log, own, amount) && AttemptAt(log, i, amount) && !GrantedAt(l, initial, log, i)
            && (forall x | 0 <= x < |own| :: own[x] < i)
            ==> InVain(l, initial, log, own + [i], amount)
  {
  }

  lemma {:induction false} ChronologicalLater(events: seq<Event>, from: real, until: real, later: real)
    requires Chronological(events, from, until) && until <= later
    ensures Chronological(events, from, later)
    decreases |events|
  {
    if events != [] && events[|events| - 1].Debit? {
      ChronologicalLater(events[..|events| - 1], from, until, later);
    }
  }
}
