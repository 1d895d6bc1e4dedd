/** The notification outbox: idempotency keys, the delivery log and its retries. */
module Outbox {
  import opened Texts
  import Ids = TaskIds

  /** A delivery row; its id is its position in the log, counted from 1. */
  datatype Delivery = Delivery(key: string, recipient: string, activityOk: bool, botOk: bool, needsRetry: bool)

  /** `resends` records which rows were sent again; the program itself never reads it. */
  datatype Box = Box(keys: set<string>, rows: seq<Delivery>, resends: seq<nat>)

  const EMPTY: Box := Box({}, [], [])

  // ----- retry keys -----

  function RetryKey(key: string, id: nat): string {
    key + (":retry:" + Dec(id))
  }

  lemma ColonSplit(a: string, b: string, c: string, d: string)
    requires ':' !in b && ':' !in d && a + ":" + b == c + ":" + d
    ensures a == c && b == d
  {
    var l, r := a + ":" + b, c + ":" + d;
    assert l[|a|] == ':' && r[|c|] == ':';
    assert forall k | |a| < k < |l| :: l[k] == b[k - |a| - 1] && b[k - |a| - 1] in b;
    assert forall k | |c| < k < |r| :: r[k] == d[k - |c| - 1] && d[k - |c| - 1] in d;
    assert |a| == |c|;
    assert l[..|a|] == a && r[..|c|] == c;
    assert l[|a| + 1..] == b && r[|c| + 1..] == d;
  }

  /** Different rows never share a retry key. */
  lemma RetryKeyInjective(k: string, i: nat, l: string, j: nat)
    requires RetryKey(k, i) == RetryKey(l, j)
    ensures k == l && i == j
  {
    var a, b := Dec(i), Dec(j);
    assert ':' !in a && ':' !in b;
    assert (k + ":retry") + ":" + a == RetryKey(k, i);
    assert (l + ":retry") + ":" + b == RetryKey(l, j);
    ColonSplit(k + ":retry", a, l + ":retry", b);
    assert (k + ":retry")[..|k|] == k && (l + ":retry")[..|l|] == l;
    Ids.DecValue(i);
    Ids.DecValue(j);
  }

  /** The retry key of row number `i`. */
  function RowRetryKey(rows: seq<Delivery>, i: nat): string
    requires i < |rows|
  {
    RetryKey(rows[i].key, i + 1)
  }

  lemma RowRetryKeysDiffer(rows: seq<Delivery>)
    ensures forall i, j | 0 <= i < j < |rows| :: RowRetryKey(rows, i) != RowRetryKey(rows, j)
  {
    forall i, j | 0 <= i < j < |rows|
      ensures RowRetryKey(rows, i) != RowRetryKey(rows, j)
    {
      if RowRetryKey(rows, i) == RowRetryKey(rows, j) {
        RetryKeyInjective(rows[i].key, i + 1, rows[j].key, j + 1);
      }
    }
  }

  // ----- delivering -----

  /** How one attempt to send over the chosen channels went; it may raise before it is logged. */
  datatype Attempt = Attempt(activityOk: bool, botOk: bool, raises: bool)

  function Delivered(b: Box, key: string, recipient: string, forced: bool, attempt: Attempt): Box {
    if !forced && key in b.keys then b
    else
      var consumed := if forced then b else b.(keys := b.keys + {key});
      if attempt.raises then consumed
      else
        var sent := attempt.activityOk || attempt.botOk;
        consumed.(rows := consumed.rows + [Delivery(key, recipient, attempt.activityOk, attempt.botOk, !sent)])
  }

  /**
   * A delivery uses its key unless it is forced, and logs one row unless its key was used before or
   * the send raised; the row needs a retry when no channel got through.
   */
  lemma DeliveryLogsOneRow(b: Box, key: string, recipient: string, forced: bool, attempt: Attempt)
    ensures var r := Delivered(b, key, recipient, forced, attempt);
            && r.resends == b.resends && r.keys == (if forced then b.keys else b.keys + {key})
            && r.rows == if (!forced && key in b.keys) || attempt.raises then b.rows
                else b.rows + [Delivery(key, recipient, attempt.activityOk, attempt.botOk,
                                        !attempt.activityOk && !attempt.botOk)]
  {
  }

  /** A new key that is sent without raising: the key is used and one row is logged. */
  lemma DeliveredNew(b: Box, key: string, recipient: string, attempt: Attempt)
    requires key !in b.keys && !attempt.raises
    ensures Delivered(b, key, recipient, false, attempt)
         == Box(b.keys + {key}, b.rows + [Delivery(key, recipient, attempt.activityOk, attempt.botOk,
                                                   !attempt.activityOk && !attempt.botOk)], b.resends)
  {
  }

  // ----- retrying -----

  /** Retries row number `i`: at most one resend, guarded by the row's own retry key. */
  function RetriedOne(b: Box, i: nat, ok: bool): Box
    requires i < |b.rows|
  {
    var key := RowRetryKey(b.rows, i);
    if key in b.keys then b.(rows := b.rows[i := b.rows[i].(needsRetry := false)])
    else Box(b.keys + {key}, b.rows[i := b.rows[i].(needsRetry := !ok)], b.resends + [i])
  }

  predicate InRange(b: Box, picked: seq<nat>) {
    forall x | 0 <= x < |picked| :: picked[x] < |b.rows|
  }

  predicate Sent(ok: seq<bool>, i: nat) { i < |ok| && ok[i] }

  function Retried(b: Box, picked: seq<nat>, ok: seq<bool>): (r: Box)
    requires InRange(b, picked)
    ensures |r.rows| == |b.rows|
  {
    if picked == [] then b
    else
      var front := Retried(b, picked[..|picked| - 1], ok);
      RetriedOne(front, picked[|picked| - 1], Sent(ok, |picked| - 1))
  }

  /** How the resends of the picked rows go when row number `i` goes as `sends(i)`. */
  function Outcomes(sends: nat -> bool, picked: seq<nat>): (ok: seq<bool>)
    ensures |ok| == |picked| && forall x | 0 <= x < |picked| :: ok[x] == sends(picked[x])
  {
    seq(|picked|, x requires 0 <= x < |picked| => sends(picked[x]))
  }

  function Pending(b: Box): set<nat> {
    set i: nat | i < |b.rows| && b.rows[i].needsRetry
  }

  /** A run's selection: different pending rows, as many as the limit allows, in whatever order. */
  ghost predicate Selection(b: Box, picked: seq<nat>, limit: nat) {
    && (forall x | 0 <= x < |picked| :: picked[x] in Pending(b))
    && (forall i, j | 0 <= i < j < |picked| :: picked[i] != picked[j])
    && (|picked| == limit || (|picked| < limit && forall i | i in Pending(b) :: i in picked))
  }

  predicate SameRetryKeys(b: Box, r: Box) {
    |b.rows| == |r.rows| && forall j | 0 <= j < |b.rows| :: r.rows[j].key == b.rows[j].key
  }

  /** The row and its retry key are as before. */
  predicate Untouched(b: Box, r: Box, j: nat) {
    && j < |b.rows| == |r.rows| && r.rows[j] == b.rows[j]
    && (RowRetryKey(b.rows, j) in r.keys <==> RowRetryKey(b.rows, j) in b.keys)
  }

  /** Pending just when sent again in vain, which takes a retry key not used before. */
  predicate Marked(b: Box, r: Box, i: nat, sent: bool) {
    && i < |b.rows| == |r.rows|
    && (r.rows[i].needsRetry <==> RowRetryKey(b.rows, i) !in b.keys && !sent)
    && (RowRetryKey(b.rows, i) !in b.keys ==> i in r.resends)
  }

  lemma RetriedOneMarks(b: Box, mid: Box, i: nat, sent: bool)
    requires SameRetryKeys(b, mid) && Untouched(b, mid, i)
    ensures var r := RetriedOne(mid, i, sent); SameRetryKeys(b, r) && Marked(b, r, i, sent)
  {
  }

  lemma RetriedOneSpares(b: Box, mid: Box, i: nat, ok: bool, j: nat, sent: bool)
    requires SameRetryKeys(b, mid) && i < |mid.rows| && j != i
    ensures Untouched(b, mid, j) ==> Untouched(b, RetriedOne(mid, i, ok), j)
    ensures Marked(b, mid, j, sent) ==> Marked(b, RetriedOne(mid, i, ok), j, sent)
  {
    if j < |b.rows| {
      RowRetryKeysDiffer(b.rows);
      assert RowRetryKey(mid.rows, i) == RowRetryKey(b.rows, i) != RowRetryKey(b.rows, j);
      assert RowRetryKey(mid.rows, i) in RetriedOne(mid, i, ok).keys;
    }
  }

  /**
   * After a retry run a picked row is pending just when it was sent again in vain, which takes a
   * retry key not used before; then it is among the resends. Other rows are as they were.
   */
  lemma {:induction false} RetryMarksRows(b: Box, picked: seq<nat>, ok: seq<bool>)
    requires InRange(b, picked) && forall i, j | 0 <= i < j < |picked| :: picked[i] != picked[j]
    ensures SameRetryKeys(b, Retried(b, picked, ok))
    ensures forall j: nat | j < |b.rows| && j !in picked :: Untouched(b, Retried(b, picked, ok), j)
    ensures forall x | 0 <= x < |picked| :: Marked(b, Retried(b, picked, ok), picked[x], Sent(ok, x))
  {
    if picked != [] {
      var front, i := picked[..|picked| - 1], picked[|picked| - 1];
      assert picked == front + [i] && i !in front;
      RetryMarksRows(b, front, ok);
      var mid := Retried(b, front, ok);
      RetriedOneMarks(b, mid, i, Sent(ok, |picked| - 1));
      forall j: nat | j < |b.rows| && j !in picked
        ensures Untouched(b, Retried(b, picked, ok), j)
      {
        RetriedOneSpares(b, mid, i, Sent(ok, |picked| - 1), j, false);
      }
      forall x | 0 <= x < |front|
        ensures Marked(b, Retried(b, picked, ok), picked[x], Sent(ok, x))
      {
        assert Marked(b, mid, front[x], Sent(ok, x));
        RetriedOneSpares(b, mid, i, Sent(ok, |picked| - 1), front[x], Sent(ok, x));
      }
    }
  }

  // ----- runs -----

  /** `Consume` is a daily job taking its key for the day. */
  datatype Command =
    | Consume(key: string)
    | Deliver(key: string, recipient: string, forced: bool, attempt: Attempt)
    | RetryFailed(picked: seq<nat>, ok: seq<bool>)

  function Apply(b: Box, c: Command): Box {
    match c
    case Consume(key) => b.(keys := b.keys + {key})
    case Deliver(key, recipient, forced, attempt) => Delivered(b, key, recipient, forced, attempt)
    case RetryFailed(picked, ok) =>
      if InRange(b, picked) then Retried(b, picked, ok) else b
  }

  function Run(b: Box, commands: seq<Command>): Box {
    if commands == [] then b else Apply(Run(b, commands[..|commands| - 1]), commands[|commands| - 1])
  }

  lemma {:induction false} RunAppend(b: Box, first: seq<Command>, second: seq<Command>)
    ensures Run(b, first + second) == Run(Run(b, first), second)
  {
    if second == [] {
      assert first + second == first;
    } else {
      var front := second[..|second| - 1];
      RunAppend(b, first, front);
      assert (first + second)[..|first + second| - 1] == first + front;
    }
  }

  lemma RunOne(b: Box, c: Command)
    ensures Run(b, [c]) == Apply(b, c)
  {
    assert [c][..0] == [];
  }

  lemma RunMore(b: Box, first: seq<Command>, c: Command)
    ensures Run(b, first + [c]) == Apply(Run(b, first), c)
  {
    assert (first + [c])[..|first|] == first;
  }

  // ----- at most one resend per row -----

  ghost predicate ResentOnce(b: Box) {
    && (forall i | i in b.resends :: i < |b.rows| && RowRetryKey(b.rows, i) in b.keys)
    && (forall i, j | 0 <= i < j < |b.resends| :: b.resends[i] != b.resends[j])
  }

  predicate SameKeys(a: seq<Delivery>, b: seq<Delivery>) {
    |a| <= |b| && forall i | 0 <= i < |a| :: a[i].key == b[i].key
  }

  lemma RetriedOneResends(b: Box, i: nat, ok: bool)
    requires ResentOnce(b) && i < |b.rows|
    ensures ResentOnce(RetriedOne(b, i, ok)) && SameKeys(b.rows, RetriedOne(b, i, ok).rows)
  {
    var r := RetriedOne(b, i, ok);
    assert forall j | 0 <= j < |b.rows| :: RowRetryKey(r.rows, j) == RowRetryKey(b.rows, j);
    assert forall j | j in r.resends :: j in b.resends || j == i;
    if RowRetryKey(b.rows, i) !in b.keys {
      assert i !in b.resends;
    }
  }

  lemma {:induction false} RetriedResends(b: Box, picked: seq<nat>, ok: seq<bool>)
    requires ResentOnce(b) && InRange(b, picked)
    ensures ResentOnce(Retried(b, picked, ok))
  {
    if picked != [] {
      RetriedResends(b, picked[..|picked| - 1], ok);
      RetriedOneResends(Retried(b, picked[..|picked| - 1], ok), picked[|picked| - 1], Sent(ok, |picked| - 1));
    }
  }

  lemma DeliveredResends(b: Box, key: string, recipient: string, forced: bool, attempt: Attempt)
    requires ResentOnce(b)
    ensures ResentOnce(Delivered(b, key, recipient, forced, attempt))
  {
    var r := Delivered(b, key, recipient, forced, attempt);
    assert forall i | i in b.resends :: RowRetryKey(r.rows, i) == RowRetryKey(b.rows, i);
  }

  /** Over any run of deliveries, retries and jobs, each row is sent again at most once. */
  lemma {:induction false} EachRowResentAtMostOnce(commands: seq<Command>)
    ensures ResentOnce(Run(EMPTY, commands))
  {
    if commands != [] {
      EachRowResentAtMostOnce(commands[..|commands| - 1]);
      var b, c := Run(EMPTY, commands[..|commands| - 1]), commands[|commands| - 1];
      match c
      case Consume(key) =>
        assert forall i | i in b.resends :: RowRetryKey(Apply(b, c).rows, i) == RowRetryKey(b.rows, i);
      case Deliver(key, recipient, forced, attempt) => DeliveredResends(b, key, recipient, forced, attempt);
      case RetryFailed(picked, ok) =>
        if InRange(b, picked) { RetriedResends(b, picked, ok); }
    }
  }

  // ----- retries run out -----

  /** A pending row costs 2, or 1 once its retry key is used; other rows cost nothing. */
  function Cost(b: Box, i: nat): nat
    requires i < |b.rows|
  {
    if !b.rows[i].needsRetry then 0 else if RowRetryKey(b.rows, i) in b.keys then 1 else 2
  }

  function Work(b: Box, upTo: nat): nat
    requires upTo <= |b.rows|
  {
    if upTo == 0 then 0 else Work(b, upTo - 1) + Cost(b, upTo - 1)
  }

  lemma {:induction false} WorkChanges(b: Box, r: Box, i: nat, upTo: nat)
    requires |r.rows| == |b.rows| && i < |b.rows| && upTo <= |b.rows|
    requires forall j | 0 <= j < |b.rows| && j != i :: Cost(r, j) == Cost(b, j)
    ensures Work(r, upTo) == Work(b, upTo) + if i < upTo then Cost(r, i) - Cost(b, i) else 0
    decreases upTo
  {
    if upTo > 0 { WorkChanges(b, r, i, upTo - 1); }
  }

  lemma RetriedOneCosts(b: Box, i: nat, ok: bool)
    requires i < |b.rows|
    ensures var r := RetriedOne(b, i, ok);
            && (forall j | 0 <= j < |b.rows| && j != i :: Cost(r, j) == Cost(b, j) && r.rows[j] == b.rows[j])
            && (b.rows[i].needsRetry ==> Cost(r, i) < Cost(b, i))
            && Work(r, |r.rows|) == Work(b, |b.rows|) + Cost(r, i) - Cost(b, i)
  {
    var r := RetriedOne(b, i, ok);
    RowRetryKeysDiffer(b.rows);
    forall j | 0 <= j < |b.rows|
      ensures RowRetryKey(r.rows, j) == RowRetryKey(b.rows, j)
      ensures j != i ==> Cost(r, j) == Cost(b, j)
    {
    }
    WorkChanges(b, r, i, |b.rows|);
  }

  lemma {:induction false} RetriedWorkFalls(b: Box, picked: seq<nat>, ok: seq<bool>)
    requires forall x | 0 <= x < |picked| :: picked[x] < |b.rows| && b.rows[picked[x]].needsRetry
    requires forall i, j | 0 <= i < j < |picked| :: picked[i] != picked[j]
    ensures var r := Retried(b, picked, ok);
            && Work(r, |r.rows|) + |picked| <= Work(b, |b.rows|)
            && forall j | 0 <= j < |b.rows| && j !in picked :: r.rows[j] == b.rows[j]
  {
    if picked != [] {
      var front, i := picked[..|picked| - 1], picked[|picked| - 1];
      RetriedWorkFalls(b, front, ok);
      assert i !in front;
      var mid := Retried(b, front, ok);
      assert mid.rows[i] == b.rows[i];
      RetriedOneCosts(mid, i, Sent(ok, |picked| - 1));
      assert forall j | j in front :: j in picked;
    }
  }

  lemma {:induction false} NoWorkMeansNothingPending(b: Box, upTo: nat)
    requires upTo <= |b.rows|
    ensures Work(b, upTo) == 0 <==> forall i | 0 <= i < upTo :: !b.rows[i].needsRetry
    decreases upTo
  {
    if upTo > 0 { NoWorkMeansNothingPending(b, upTo - 1); }
  }

  /** A retry run with a positive limit lowers the outstanding work unless nothing is pending. */
  lemma RetryRunMakesProgress(b: Box, picked: seq<nat>, limit: nat, ok: seq<bool>)
    requires Selection(b, picked, limit) && limit >= 1
    ensures var r := Retried(b, picked, ok);
            if Pending(b) == {} then Work(b, |b.rows|) == 0
            else Work(r, |r.rows|) < Work(b, |b.rows|)
  {
    RetriedWorkFalls(b, picked, ok);
    NoWorkMeansNothingPending(b, |b.rows|);
    if Pending(b) == {} {
      assert forall i: nat | i < |b.rows| && b.rows[i].needsRetry :: i in Pending(b);
    } else {
      var i :| i in Pending(b);
      assert picked != [];
    }
  }

  datatype RetryRun = RetryRun(picked: seq<nat>, limit: nat, ok: seq<bool>)

  /** Consecutive retry runs, each with its own selection from what is pending then. */
  ghost predicate Schedule(b: Box, runs: seq<RetryRun>)
    decreases |runs|
  {
    runs == []
    || (Selection(b, runs[0].picked, runs[0].limit) && runs[0].limit >= 1
        && Schedule(Retried(b, runs[0].picked, runs[0].ok), runs[1..]))
  }

  ghost function AfterRuns(b: Box, runs: seq<RetryRun>): Box
    requires Schedule(b, runs)
    decreases |runs|
  {
    if runs == [] then b else AfterRuns(Retried(b, runs[0].picked, runs[0].ok), runs[1..])
  }

  /** As many runs as there is outstanding work leave nothing that needs a retry. */
  lemma {:induction false} RetriesRunOut(b: Box, runs: seq<RetryRun>)
    requires Schedule(b, runs) && |runs| >= Work(b, |b.rows|)
    ensures Pending(AfterRuns(b, runs)) == {}
    decreases |runs|
  {
    NoWorkMeansNothingPending(b, |b.rows|);
    if runs != [] {
      RetryRunMakesProgress(b, runs[0].picked, runs[0].limit, runs[0].ok);
      var r := Retried(b, runs[0].picked, runs[0].ok);
      RetriedWorkFalls(b, runs[0].picked, runs[0].ok);
      RetriesRunOut(r, runs[1..]);
    }
  }

  // ----- one delivery per key -----

  ghost predicate OncePerKey(b: Box, forcedKeys: set<string>) {
    && (forall i | 0 <= i < |b.rows| && b.rows[i].key !in forcedKeys :: b.rows[i].key in b.keys)
    && (forall i, j | 0 <= i < j < |b.rows| && b.rows[i].key == b.rows[j].key :: b.rows[i].key in forcedKeys)
  }

  lemma {:induction false} RetriedKeepsKeys(b: Box, picked: seq<nat>, ok: seq<bool>)
    requires InRange(b, picked)
    ensures var r := Retried(b, picked, ok);
            b.keys <= r.keys && forall i | 0 <= i < |b.rows| :: r.rows[i].key == b.rows[i].key
  {
    if picked != [] { RetriedKeepsKeys(b, picked[..|picked| - 1], ok); }
  }

  lemma ApplyOncePerKey(b: Box, c: Command, forcedKeys: set<string>)
    requires OncePerKey(b, forcedKeys) && (c.Deliver? && c.forced ==> c.key in forcedKeys)
    ensures OncePerKey(Apply(b, c), forcedKeys)
  {
    if c.RetryFailed? && InRange(b, c.picked) {
      RetriedKeepsKeys(b, c.picked, c.ok);
    }
  }

  /** A key never used for a forced send has at most one delivery row, over any run. */
  lemma {:induction false} OneDeliveryPerKey(commands: seq<Command>, forcedKeys: set<string>)
    requires forall c | c in commands && c.Deliver? && c.forced :: c.key in forcedKeys
    ensures OncePerKey(Run(EMPTY, commands), forcedKeys)
  {
    if commands != [] {
      OneDeliveryPerKey(commands[..|commands| - 1], forcedKeys);
      ApplyOncePerKey(Run(EMPTY, commands[..|commands| - 1]), commands[|commands| - 1], forcedKeys);
    }
  }

  // ----- failed deliveries are neither lost nor sent needlessly -----

  /** Every retry run takes its rows from those pending at the time. */
  ghost predicate RetriesPending(commands: seq<Command>) {
    commands == []
    || (var front, c := commands[..|commands| - 1], commands[|commands| - 1];
        && RetriesPending(front)
        && (c.RetryFailed? ==> TakesPending(Run(EMPTY, front), c.picked)))
  }

  ghost predicate TakesPending(b: Box, picked: seq<nat>) {
    && (forall x | 0 <= x < |picked| :: picked[x] < |b.rows| && b.rows[picked[x]].needsRetry)
    && (forall x, y | 0 <= x < y < |picked| :: picked[x] != picked[y])
  }

  lemma {:induction false} RetriesPendingExtends(commands: seq<Command>, more: seq<Command>)
    requires RetriesPending(commands) && forall c | c in more :: !c.RetryFailed?
    ensures RetriesPending(commands + more)
  {
    if more == [] {
      assert commands + more == commands;
    } else {
      var front := more[..|more| - 1];
      RetriesPendingExtends(commands, front);
      assert (commands + more)[..|commands + more| - 1] == commands + front;
    }
  }

  predicate Reached(d: Delivery) { d.activityOk || d.botOk }

  /**
   * A row that reached its recipient at first is never pending and never resent; a row that did
   * not stays pending until it is resent or its retry key is used.
   */
  ghost predicate Accounted(b: Box) {
    && (forall i | i in b.resends :: i < |b.rows| && !Reached(b.rows[i]))
    && (forall i: nat | i < |b.rows| ::
          && (Reached(b.rows[i]) ==> !b.rows[i].needsRetry)
          && (!Reached(b.rows[i]) && RowRetryKey(b.rows, i) !in b.keys ==> b.rows[i].needsRetry))
  }

  lemma RetriedOneAccounted(b: Box, i: nat, ok: bool)
    requires i < |b.rows|
    ensures var r := RetriedOne(b, i, ok);
            && |r.rows| == |b.rows|
            && (Accounted(b) && b.rows[i].needsRetry ==> Accounted(r))
            && (forall j | 0 <= j < |b.rows| && j != i :: r.rows[j] == b.rows[j])
  {
    var r := RetriedOne(b, i, ok);
    assert forall j | 0 <= j < |b.rows| :: RowRetryKey(r.rows, j) == RowRetryKey(b.rows, j);
    assert forall j | 0 <= j < |b.rows| :: Reached(r.rows[j]) == Reached(b.rows[j]);
    assert RowRetryKey(b.rows, i) in r.keys && b.keys <= r.keys;
    assert forall j | j in r.resends :: j in b.resends || j == i;
  }

  lemma {:induction false} RetriedAccounted(b: Box, picked: seq<nat>, ok: seq<bool>)
    requires Accounted(b) && TakesPending(b, picked)
    ensures var r := Retried(b, picked, ok);
            Accounted(r) && forall j | 0 <= j < |b.rows| && j !in picked :: r.rows[j] == b.rows[j]
  {
    if picked != [] {
      var front, i := picked[..|picked| - 1], picked[|picked| - 1];
      RetriedAccounted(b, front, ok);
      assert i !in front;
      RetriedOneAccounted(Retried(b, front, ok), i, Sent(ok, |picked| - 1));
      assert forall j | j in front :: j in picked;
    }
  }

  lemma {:induction false} FailedDeliveriesAreAccountedFor(commands: seq<Command>)
    requires RetriesPending(commands)
    ensures Accounted(Run(EMPTY, commands))
  {
    if commands != [] {
      var front, c := commands[..|commands| - 1], commands[|commands| - 1];
      FailedDeliveriesAreAccountedFor(front);
      var b := Run(EMPTY, front);
      match c
      case Consume(key) =>
        assert forall i | 0 <= i < |b.rows| :: RowRetryKey(Apply(b, c).rows, i) == RowRetryKey(b.rows, i);
      case Deliver(key, recipient, forced, attempt) =>
        var r := Delivered(b, key, recipient, forced, attempt);
        assert forall i | 0 <= i < |b.rows| :: RowRetryKey(r.rows, i) == RowRetryKey(b.rows, i);
      case RetryFailed(picked, ok) =>
        RetriedAccounted(b, picked, ok);
    }
  }

  // ----- the service object -----

  datatype DeliveryResult = Duplicate | Logged(anySent: bool) | Raised

  class NotificationService {
    var keys: set<string>
    var deliveries: seq<Delivery>
    ghost var resends: seq<nat>

    ghost function State(): Box
      reads this
    {
      Box(keys, deliveries, resends)
    }

    constructor ()
      ensures State() == EMPTY
    {
      keys, deliveries, resends := {}, [], [];
    }

    method TryConsumeIdempotency(key: string) returns (isNew: bool)
      modifies this`keys
      ensures isNew == (key !in old(keys)) && keys == old(keys) + {key}
    {
      if key in keys {
        return false;
      }
      keys := keys + {key};
      isNew := true;
    }

    /** Sends over the chosen channels unless the key was used; the outcomes are the environment's. */
    method DeliverHybrid(key: string, recipient: string, forced: bool, attempt: Attempt)
      returns (result: DeliveryResult)
      modifies this`keys, this`deliveries
      ensures State() == Delivered(old(State()), key, recipient, forced, attempt)
      ensures result.Duplicate? <==> !forced && key in old(keys)
      ensures result.Raised? <==> attempt.raises && (forced || key !in old(keys))
    {
      if !forced {
        var isNew := TryConsumeIdempotency(key);
        if !isNew {
          assert old(keys) + {key} == old(keys);
          return Duplicate;
        }
      }
      if attempt.raises {
        return Raised;
      }
      var anySent := attempt.activityOk || attempt.botOk;
      deliveries := deliveries + [Delivery(key, recipient, attempt.activityOk, attempt.botOk, !anySent)];
      result := Logged(anySent);
    }

    /**
     * Re-attempts up to `limit` pending rows, in whatever order the query returns them; sending row
     * number `i` again succeeds on some channel exactly when `sends(i)`.
     */
    method RetryFailedDeliveries(limit: nat, sends: nat -> bool) returns (retried: nat, ghost picked: seq<nat>)
      modifies this
      ensures Selection(old(State()), picked, limit)
      ensures State() == Retried(old(State()), picked, Outcomes(sends, picked))
      ensures retried == |resends| - |old(resends)|
    {
      ghost var start := State();
      var rows := SelectPending(limit);
      picked, retried := rows, 0;
      for n := 0 to |rows|
        invariant State() == Retried(start, rows[..n], Outcomes(sends, rows))
        invariant |resends| == |start.resends| + retried && |deliveries| == |start.rows|
      {
        var i := rows[n];
        assert i in Pending(start);
        assert rows[..n + 1][..n] == rows[..n];
        var count := RetryRow(i, sends(i));
        retried := retried + count;
      }
      assert rows[..|rows|] == rows;
    }

    /** One row's turn: 1 when it was sent again, 0 when its retry key was used before. */
    method RetryRow(i: nat, sent: bool) returns (count: nat)
      requires i < |deliveries|
      modifies this
      ensures State() == RetriedOne(old(State()), i, sent)
      ensures count == |resends| - |old(resends)|
    {
      var retryKey := RetryKey(deliveries[i].key, i + 1);
      if retryKey in keys {
        deliveries := deliveries[i := deliveries[i].(needsRetry := false)];
        return 0;
      }
      keys := keys + {retryKey};
      deliveries := deliveries[i := deliveries[i].(needsRetry := !sent)];
      resends := resends + [i];
      count := 1;
    }

    method SelectPending(limit: nat) returns (rows: seq<nat>)
      ensures Selection(State(), rows, limit)
    {
      rows := [];
      var left := set i: nat | i < |deliveries| && deliveries[i].needsRetry;
      while left != {} && |rows| < limit
        invariant |rows| <= limit && left <= Pending(State())
        invariant forall i :: i in Pending(State()) <==> i in left || i in rows
        invariant forall x | 0 <= x < |rows| :: rows[x] in Pending(State()) && rows[x] !in left
        invariant forall x, y | 0 <= x < y < |rows| :: rows[x] != rows[y]
        decreases left
      {
        var i :| i in left;
        rows := rows + [i];
        left := left - {i};
      }
    }
  }
}
