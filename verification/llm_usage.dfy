/** Daily usage rows, one per day, provider and model, added to in place. */
module LlmUsage {
  import opened Wrappers

  datatype CallOutcome = Success | Fallback | Error

  /** One call of `record_usage`; a missing date means the day of the call. */
  datatype Call = Call(
    provider: string,
    model: string,
    promptTokens: int,
    completionTokens: int,
    outcome: CallOutcome,
    requestCount: int,
    usageDate: Option<int>,
    today: int)

  datatype Totals = Totals(requests: int, prompt: int, completion: int, fallbacks: int, errors: int)

  datatype RowKey = RowKey(day: int, provider: string, model: string)

  datatype Row = Row(key: RowKey, totals: Totals)

  const NOTHING: Totals := Totals(0, 0, 0, 0, 0)

  function Plus(a: Totals, b: Totals): Totals {
    Totals(a.requests + b.requests, a.prompt + b.prompt, a.completion + b.completion,
           a.fallbacks + b.fallbacks, a.errors + b.errors)
  }

  function DayOf(c: Call): int {
    match c.usageDate case Some(d) => d case None => c.today
  }

  function KeyOf(c: Call): RowKey {
    RowKey(DayOf(c), c.provider, c.model)
  }

  /** What one call counts for, negative token counts clamped and at least one request. */
  function Counted(c: Call): Totals {
    Totals(Max(1, c.requestCount), Max(0, c.promptTokens), Max(0, c.completionTokens),
           if c.outcome == Fallback then 1 else 0, if c.outcome == Error then 1 else 0)
  }

  // ----- sums over the log of calls -----

  function Share(c: Call, wanted: Call -> bool): Totals {
    if wanted(c) then Counted(c) else NOTHING
  }

  function SumWhere(calls: seq<Call>, wanted: Call -> bool): Totals {
    if calls == [] then NOTHING
    else Plus(SumWhere(calls[..|calls| - 1], wanted), Share(calls[|calls| - 1], wanted))
  }

  function OnDay(day: int): Call -> bool { c => DayOf(c) == day }

  function WithKey(key: RowKey): Call -> bool { c => KeyOf(c) == key }

  lemma PlusSwaps(a: Totals, b: Totals, c: Totals)
    ensures Plus(Plus(a, b), c) == Plus(Plus(a, c), b)
  {
  }

  lemma SumSnoc(calls: seq<Call>, c: Call, wanted: Call -> bool)
    ensures SumWhere(calls + [c], wanted) == Plus(SumWhere(calls, wanted), Share(c, wanted))
  {
    assert (calls + [c])[..|calls|] == calls;
  }

  /** A call in the middle counts the same as one at the end. */
  lemma {:induction false} SumMoves(before: seq<Call>, c: Call, after: seq<Call>, wanted: Call -> bool)
    ensures SumWhere(before + [c] + after, wanted) == Plus(SumWhere(before + after, wanted), Share(c, wanted))
    decreases |after|
  {
    if after == [] {
      assert before + [c] + after == before + [c] && before + after == before;
      SumSnoc(before, c, wanted);
    } else {
      var front, last := after[..|after| - 1], after[|after| - 1];
      assert before + [c] + after == before + [c] + front + [last];
      assert before + after == before + front + [last];
      SumMoves(before, c, front, wanted);
      SumSnoc(before + [c] + front, last, wanted);
      SumSnoc(before + front, last, wanted);
      PlusSwaps(SumWhere(before + front, wanted), Share(c, wanted), Share(last, wanted));
    }
  }

  lemma SplitAt(s: seq<Call>, c: Call) returns (before: seq<Call>, after: seq<Call>)
    requires c in multiset(s)
    ensures s == before + [c] + after && multiset(before + after) == multiset(s) - multiset{c}
  {
    var i :| 0 <= i < |s| && s[i] == c;
    before, after := s[..i], s[i + 1..];
    assert s == before + [c] + after;
  }

  /** The order of the calls does not matter. */
  lemma {:induction false} SumIgnoresOrder(a: seq<Call>, b: seq<Call>, wanted: Call -> bool)
    requires multiset(a) == multiset(b)
    ensures SumWhere(a, wanted) == SumWhere(b, wanted)
    decreases |a|
  {
    if a == [] {
      assert |multiset(b)| == 0;
    } else {
      var last, front := a[|a| - 1], a[..|a| - 1];
      assert a == front + [last];
      assert last in multiset(a);
      var before, after := SplitAt(b, last);
      assert multiset(front) == multiset(a) - multiset{last};
      SumIgnoresOrder(front, before + after, wanted);
      SumMoves(before, last, after, wanted);
    }
  }

  // ----- the table -----

  /** Position of a key's row, or the number of rows when there is none. */
  function Find(rows: seq<Row>, key: RowKey): (i: nat)
    ensures i <= |rows| && (i < |rows| ==> rows[i].key == key)
    ensures forall j | 0 <= j < i :: rows[j].key != key
    decreases |rows|
  {
    if rows == [] || rows[0].key == key then 0 else 1 + Find(rows[1..], key)
  }

  function Recorded(rows: seq<Row>, c: Call): seq<Row> {
    var i := Find(rows, KeyOf(c));
    if i == |rows| then rows + [Row(KeyOf(c), Counted(c))]
    else rows[i := Bumped(rows[i], Counted(c))]
  }

  function Table(calls: seq<Call>): seq<Row> {
    if calls == [] then [] else Recorded(Table(calls[..|calls| - 1]), calls[|calls| - 1])
  }

  function RowTotals(rows: seq<Row>, key: RowKey): Totals {
    var i := Find(rows, key);
    if i < |rows| then rows[i].totals else NOTHING
  }

  function DayTotals(rows: seq<Row>, day: int): Totals {
    if rows == [] then NOTHING
    else
      Plus(DayTotals(rows[..|rows| - 1], day), DayShare(rows[|rows| - 1], day))
  }

  predicate OneRowPerKey(rows: seq<Row>) {
    forall i, j | 0 <= i < j < |rows| :: rows[i].key != rows[j].key
  }

  function DayShare(r: Row, day: int): Totals {
    if r.key.day == day then r.totals else NOTHING
  }

  lemma DayTotalsSnoc(rows: seq<Row>, r: Row, day: int)
    ensures DayTotals(rows + [r], day) == Plus(DayTotals(rows, day), DayShare(r, day))
  {
    assert (rows + [r])[..|rows|] == rows;
  }

  function Bumped(r: Row, more: Totals): Row { r.(totals := Plus(r.totals, more)) }

  /** A row in the middle counts the same as one at the end. */
  lemma {:induction false} DayTotalsMoves(before: seq<Row>, r: Row, after: seq<Row>, day: int)
    ensures DayTotals(before + [r] + after, day) == Plus(DayTotals(before + after, day), DayShare(r, day))
    decreases |after|
  {
    if after == [] {
      assert before + [r] + after == before + [r] && before + after == before;
      DayTotalsSnoc(before, r, day);
    } else {
      var front, last := after[..|after| - 1], after[|after| - 1];
      assert before + [r] + after == before + [r] + front + [last];
      assert before + after == before + front + [last];
      DayTotalsMoves(before, r, front, day);
      DayTotalsSnoc(before + [r] + front, last, day);
      DayTotalsSnoc(before + front, last, day);
      PlusSwaps(DayTotals(before + front, day), DayShare(r, day), DayShare(last, day));
    }
  }

  lemma DayTotalsOfUpdate(rows: seq<Row>, i: nat, more: Totals, day: int)
    requires i < |rows|
    ensures DayTotals(rows[i := Bumped(rows[i], more)], day)
         == Plus(DayTotals(rows, day), if rows[i].key.day == day then more else NOTHING)
  {
    var before, r, after := rows[..i], rows[i], rows[i + 1..];
    assert rows == before + [r] + after;
    assert rows[i := Bumped(r, more)] == before + [Bumped(r, more)] + after;
    DayTotalsMoves(before, r, after, day);
    DayTotalsMoves(before, Bumped(r, more), after, day);
    BumpedShare(r, more, day, DayTotals(before + after, day));
  }

  lemma BumpedShare(r: Row, more: Totals, day: int, rest: Totals)
    ensures Plus(rest, DayShare(Bumped(r, more), day))
         == Plus(Plus(rest, DayShare(r, day)), if r.key.day == day then more else NOTHING)
  {
  }

  lemma RecordedDayTotals(rows: seq<Row>, c: Call, day: int)
    ensures DayTotals(Recorded(rows, c), day) == Plus(DayTotals(rows, day), if DayOf(c) == day
        then Counted(c) else NOTHING)
  {
    var i := Find(rows, KeyOf(c));
    if i == |rows| {
      assert (rows + [Row(KeyOf(c), Counted(c))])[..|rows|] == rows;
    } else {
      DayTotalsOfUpdate(rows, i, Counted(c), day);
    }
  }

  lemma RecordedKeys(rows: seq<Row>, c: Call)
    ensures var after, i := Recorded(rows, c), Find(rows, KeyOf(c));
            && |after| == (if i == |rows| then i + 1 else |rows|) && after[i].key == KeyOf(c)
            && (forall j | 0 <= j < |rows| :: after[j].key == rows[j].key)
    ensures OneRowPerKey(rows) ==> OneRowPerKey(Recorded(rows, c))
  {
    var after := Recorded(rows, c);
    assert forall j | 0 <= j < |rows| :: after[j].key == rows[j].key;
  }

  lemma RecordedRow(rows: seq<Row>, c: Call, key: RowKey)
    ensures RowTotals(Recorded(rows, c), key) == Plus(RowTotals(rows, key), if KeyOf(c) == key
        then Counted(c) else NOTHING)
  {
    RecordedKeys(rows, c);
    var after, k := Recorded(rows, c), Find(rows, key);
    var at := Find(after, key);
    if KeyOf(c) == key || k < |rows| {
      assert at == k;
    } else {
      assert at == |after|;
    }
  }

  /** Every row holds the sums over its own calls, and a day's total the sums over all calls of the day. */
  lemma {:induction false} TableAgreesWithLog(calls: seq<Call>, key: RowKey, day: int)
    ensures OneRowPerKey(Table(calls))
    ensures RowTotals(Table(calls), key) == SumWhere(calls, WithKey(key))
    ensures DayTotals(Table(calls), day) == SumWhere(calls, OnDay(day))
  {
    if calls != [] {
      var front, c := calls[..|calls| - 1], calls[|calls| - 1];
      TableAgreesWithLog(front, key, day);
      RecordedKeys(Table(front), c);
      RecordedRow(Table(front), c, key);
      RecordedDayTotals(Table(front), c, day);
    }
  }

  /** What one call adds to a total: which of its fields counts where. */
  predicate Adds(c: Call, before: Totals, after: Totals) {
    && after.requests == before.requests + (if c.requestCount >= 1 then c.requestCount else 1)
    && after.prompt == before.prompt + (if c.promptTokens >= 0 then c.promptTokens else 0)
    && after.completion == before.completion + (if c.completionTokens >= 0 then c.completionTokens else 0)
    && after.fallbacks == before.fallbacks + (if c.outcome == Fallback then 1 else 0)
    && after.errors == before.errors + (if c.outcome == Error then 1 else 0)
  }

  /** The date given, or else the day of the call. */
  function ItsDay(c: Call): int {
    if c.usageDate.Some? then c.usageDate.value else c.today
  }

  lemma TableOneMore(calls: seq<Call>, c: Call)
    ensures Table(calls + [c]) == Recorded(Table(calls), c)
  {
    assert (calls + [c])[..|calls|] == calls;
  }

  /** The call is added to a total that it belongs to, and no other total changes. */
  predicate AddedIf(hit: bool, c: Call, before: Totals, after: Totals) {
    if hit then Adds(c, before, after) else after == before
  }

  lemma PlusIsAdded(hit: bool, c: Call, before: Totals, after: Totals)
    requires after == Plus(before, if hit then Counted(c) else NOTHING)
    ensures AddedIf(hit, c, before, after)
  {
  }

  /** One more call is added to the row of its day, provider and model, and to no other row. */
  lemma OneMoreCallInRow(calls: seq<Call>, c: Call, key: RowKey, before: Totals, after: Totals)
    requires before == RowTotals(Table(calls), key) && after == RowTotals(Table(calls + [c]), key)
    ensures AddedIf(key == RowKey(ItsDay(c), c.provider, c.model), c, before, after)
  {
    var hit := key == RowKey(ItsDay(c), c.provider, c.model);
    assert after == Plus(before, if hit then Counted(c) else NOTHING) by {
      TableOneMore(calls, c);
      RecordedRow(Table(calls), c, key);
    }
    PlusIsAdded(hit, c, before, after);
  }

  /** And it is added to the total of its day, and to no other. */
  lemma OneMoreCallInDay(calls: seq<Call>, c: Call, day: int, before: Totals, after: Totals)
    requires before == DayTotals(Table(calls), day) && after == DayTotals(Table(calls + [c]), day)
    ensures AddedIf(day == ItsDay(c), c, before, after)
  {
    var hit := day == ItsDay(c);
    assert after == Plus(before, if hit then Counted(c) else NOTHING) by {
      TableOneMore(calls, c);
      RecordedDayTotals(Table(calls), c, day);
    }
    PlusIsAdded(hit, c, before, after);
  }

  /** Calls made in another order leave the same totals in every row and for every day. */
  lemma TotalsIgnoreOrder(a: seq<Call>, b: seq<Call>, key: RowKey, day: int)
    requires multiset(a) == multiset(b)
    ensures RowTotals(Table(a), key) == RowTotals(Table(b), key)
    ensures DayTotals(Table(a), day) == DayTotals(Table(b), day)
  {
    TableAgreesWithLog(a, key, day);
    TableAgreesWithLog(b, key, day);
    SumIgnoresOrder(a, b, WithKey(key));
    SumIgnoresOrder(a, b, OnDay(day));
  }

  /** The same calls, whatever provider and model each is charged to. */
  predicate SameButForModel(a: seq<Call>, b: seq<Call>) {
    |a| == |b| && forall i | 0 <= i < |a| :: b[i] == a[i].(provider := b[i].provider, model := b[i].model)
  }

  lemma {:induction false} SumIgnoresModel(a: seq<Call>, b: seq<Call>, day: int)
    requires SameButForModel(a, b)
    ensures SumWhere(a, OnDay(day)) == SumWhere(b, OnDay(day))
    decreases |a|
  {
    if a != [] {
      SumIgnoresModel(a[..|a| - 1], b[..|b| - 1], day);
      assert b[|b| - 1] == a[|a| - 1].(provider := b[|b| - 1].provider, model := b[|b| - 1].model);
    }
  }

  /** A day's totals do not depend on how the calls are split over providers and models. */
  lemma DayTotalsIgnoreModels(a: seq<Call>, b: seq<Call>, day: int)
    requires SameButForModel(a, b)
    ensures DayTotals(Table(a), day) == DayTotals(Table(b), day)
  {
    TableAgreesWithLog(a, RowKey(0, "", ""), day);
    TableAgreesWithLog(b, RowKey(0, "", ""), day);
    SumIgnoresModel(a, b, day);
  }

  function HowMany(calls: seq<Call>, wanted: Call -> bool): nat {
    if calls == [] then 0
    else HowMany(calls[..|calls| - 1], wanted) + if wanted(calls[|calls| - 1]) then 1 else 0
  }

  lemma {:induction false} SumBounds(calls: seq<Call>, wanted: Call -> bool)
    ensures var t := SumWhere(calls, wanted);
            && 0 <= t.prompt && 0 <= t.completion && 0 <= t.fallbacks && 0 <= t.errors
            && t.fallbacks + t.errors <= HowMany(calls, wanted) <= t.requests
  {
    if calls != [] { SumBounds(calls[..|calls| - 1], wanted); }
  }

  /** In every row and for every day, fallbacks and errors together never exceed the requests. */
  lemma FailuresWithinRequests(calls: seq<Call>, key: RowKey, day: int)
    ensures var r := RowTotals(Table(calls), key);
            r.fallbacks + r.errors <= r.requests && r.prompt >= 0 && r.completion >= 0
    ensures var d := DayTotals(Table(calls), day);
            d.fallbacks + d.errors <= d.requests && d.prompt >= 0 && d.completion >= 0
  {
    TableAgreesWithLog(calls, key, day);
    SumBounds(calls, WithKey(key));
    SumBounds(calls, OnDay(day));
  }

  // ----- the repository object -----

  class LlmUsageRepository {
    var rows: seq<Row>

    constructor ()
      ensures rows == Table([])
    {
      rows := [];
    }

    method RecordUsage(c: Call)
      modifies this`rows
      ensures rows == Recorded(old(rows), c)
    {
      var target := match c.usageDate case Some(d) => d case None => c.today;
      var fallbackInc := if c.outcome == Fallback then 1 else 0;
      var errorInc := if c.outcome == Error then 1 else 0;
      var requestCount := Max(1, c.requestCount);
      var i := Find(rows, RowKey(target, c.provider, c.model));
      if i == |rows| {
        rows := rows + [Row(RowKey(target, c.provider, c.model),
                            Totals(requestCount, Max(0, c.promptTokens), Max(0, c.completionTokens),
                                   fallbackInc, errorInc))];
        return;
      }
      var t := rows[i].totals;
      t := t.(requests := t.requests + requestCount);
      t := t.(prompt := t.prompt + Max(0, c.promptTokens));
      t := t.(completion := t.completion + Max(0, c.completionTokens));
      t := t.(fallbacks := t.fallbacks + fallbackInc);
      t := t.(errors := t.errors + errorInc);
      rows := rows[i := rows[i].(totals := t)];
    }

    method GetDailyTotals(usageDate: Option<int>, today: int) returns (totals: Totals)
      ensures totals == DayTotals(rows, match usageDate case Some(d) => d case None => today)
    {
      var target := match usageDate case Some(d) => d case None => today;
      totals := NOTHING;
      for i := 0 to |rows|
        invariant totals == DayTotals(rows[..i], target)
      {
        assert rows[..i + 1][..i] == rows[..i];
        if rows[i].key.day == target {
          totals := Plus(totals, rows[i].totals);
        }
      }
      assert rows[..|rows|] == rows;
    }
  }
}
