/** Printed task ids, and reading them back out of free text. */
module TaskIds {
  import opened Domain
  import opened Wrappers
  import opened Texts

  // ----- printing -----

  function Code(d: Dept): (r: string)
    ensures '-' !in r
  {
    match d
    case FIN => "FIN"
    case PROC => "PROC"
    case OP => "OP"
    case HR => "HR"
    case IT => "IT"
    case BD => "BD"
    case SAL => "SAL"
    case EXO => "EXO"
    case TBS => "TBS"
    case CBS => "CBS"
    case QUA => "QUA"
    case CEO => "CEO"
  }

  function Zeros(k: nat): (r: string)
    ensures |r| == k && forall i | 0 <= i < k :: r[i] == '0'
  {
    seq(k, _ => '0')
  }

  /** At least four digits, padded with zeros on the left. */
  function Pad4(n: nat): (r: string)
    ensures |r| >= 4 && forall i | 0 <= i < |r| :: IsDigit(r[i])
  {
    var d := Dec(n);
    if |d| >= 4 then d else Zeros(4 - |d|) + d
  }

  function Printed(code: string, year: string, n: string): string {
    "LTM-" + (code + "-" + (year + "-" + n))
  }

  function PublicId(d: Dept, year: nat, n: nat): string {
    Printed(Code(d), Dec(year), Pad4(n))
  }

  /** A task id before printing. Printing is injective, so rows can be keyed by either form. */
  datatype TaskId = TaskId(dept: Dept, year: nat, number: nat) {
    function Print(): string {
      PublicId(dept, year, number)
    }
  }

  // ----- printed ids determine what was printed -----

  function Value(s: string): int {
    if s == [] then 0 else 10 * Value(s[..|s| - 1]) + DigitValue(s[|s| - 1])
  }

  lemma {:induction false} DecValue(n: nat)
    ensures Value(Dec(n)) == n
  {
    var last := "0123456789"[n % 10];
    assert DigitValue(last) == n % 10;
    if n < 10 {
      assert Dec(n)[..0] == [];
    } else {
      DecValue(n / 10);
      assert Dec(n)[..|Dec(n)| - 1] == Dec(n / 10);
    }
  }

  lemma {:induction false} LeadingZeros(k: nat, s: string)
    ensures Value(Zeros(k) + s) == Value(s)
    decreases k + |s|
  {
    var all := Zeros(k) + s;
    if s != [] {
      LeadingZeros(k, s[..|s| - 1]);
      assert all[..|all| - 1] == Zeros(k) + s[..|s| - 1];
    } else if k > 0 {
      LeadingZeros(k - 1, s);
      assert all[..|all| - 1] == Zeros(k - 1) + s;
    }
  }

  lemma Pad4Value(n: nat)
    ensures Value(Pad4(n)) == n
  {
    DecValue(n);
    if |Dec(n)| < 4 {
      LeadingZeros(4 - |Dec(n)|, Dec(n));
    }
  }

  lemma DecHasNoDash(n: nat)
    ensures '-' !in Dec(n)
  {
  }

  lemma CodeInjective(d: Dept, e: Dept)
    requires Code(d) == Code(e)
    ensures d == e
  {
    var c := Code(d);
    assert c[0] == Code(e)[0] && c[1] == Code(e)[1];
  }

  /** Two creations never print the same task id. */
  lemma PublicIdInjective(d: Dept, y: nat, n: nat, e: Dept, z: nat, m: nat)
    requires PublicId(d, y, n) == PublicId(e, z, m)
    ensures d == e && y == z && n == m
  {
    var a, b := Code(d) + "-" + (Dec(y) + "-" + Pad4(n)), Code(e) + "-" + (Dec(z) + "-" + Pad4(m));
    assert a == PublicId(d, y, n)[4..] == PublicId(e, z, m)[4..] == b;
    SplitAtFirst('-', Code(d), Dec(y) + "-" + Pad4(n), Code(e), Dec(z) + "-" + Pad4(m));
    CodeInjective(d, e);
    DecHasNoDash(y);
    DecHasNoDash(z);
    SplitAtFirst('-', Dec(y), Pad4(n), Dec(z), Pad4(m));
    DecValue(y);
    DecValue(z);
    Pad4Value(n);
    Pad4Value(m);
  }

  // ----- reading references out of a message -----

  /** The alternatives of the reference pattern, in order. */
  const CODES: seq<string> :=
    ["FIN", "PROC", "OP", "PROJ", "HR", "IT", "BD", "SAL", "EXO", "TBS", "CBS", "QUA", "CEO"]

  predicate FourDigits(s: string) {
    |s| == 4 && IsDigit(s[0]) && IsDigit(s[1]) && IsDigit(s[2]) && IsDigit(s[3])
  }

  /** One alternative of the pattern: LTM-<code>-dddd-dddd, letters in either case. */
  predicate IsReference(w: string, code: string) {
    var j := 4 + |code|;
    && |w| == j + 10
    && UpperAll(w[..4]) == "LTM-"
    && UpperAll(w[4..j]) == code
    && w[j] == '-' && FourDigits(w[j + 1..j + 5])
    && w[j + 5] == '-' && FourDigits(w[j + 6..])
  }

  predicate MatchesWith(s: string, i: nat, code: string) {
    i + 14 + |code| <= |s| && IsReference(s[i..i + 14 + |code|], code)
  }

  /** The first alternative that fits at `i`, in the order listed. */
  function FirstFit(codes: seq<string>, s: string, i: nat): (r: Option<string>)
    ensures r.Some? ==> r.value in codes && MatchesWith(s, i, r.value)
    ensures r.None? ==> forall c | c in codes :: !MatchesWith(s, i, c)
  {
    if codes == [] then None
    else if MatchesWith(s, i, codes[0]) then Some(codes[0])
    else FirstFit(codes[1..], s, i)
  }

  /** End of the match starting at `i`. */
  function MatchEnd(codes: seq<string>, s: string, i: nat): (r: Option<nat>)
    ensures r.Some? ==> i < r.value <= |s|
  {
    match FirstFit(codes, s, i)
    case None => None
    case Some(c) => Some(i + 14 + |c|)
  }

  /** Leftmost non-overlapping matches, scanning from `i`. */
  function FindFrom(codes: seq<string>, s: string, i: nat): (r: seq<string>)
    ensures forall w | w in r :: |w| <= |s| - i
    decreases |s| - i
  {
    if i >= |s| then []
    else
      match MatchEnd(codes, s, i)
      case None => FindFrom(codes, s, i + 1)
      case Some(e) => [s[i..e]] + FindFrom(codes, s, e)
  }

  // ----- what a scan finds -----

  datatype Span = Span(start: nat, end: nat)

  /** The matches of a scan of `n` characters from `i`, when `ends(p)` is the end of the match at `p`. */
  function Scan(ends: nat -> Option<nat>, n: nat, i: nat): seq<Span>
    decreases n - i
  {
    if i >= n then []
    else
      match ends(i)
      case None => Scan(ends, n, i + 1)
      case Some(e) => if e <= i then [] else [Span(i, e)] + Scan(ends, n, e)
  }

  predicate IsMatch(ends: nat -> Option<nat>, span: Span) {
    ends(span.start) == Some(span.end)
  }

  predicate Covered(spans: seq<Span>, p: nat) {
    exists k | 0 <= k < |spans| :: spans[k].start <= p < spans[k].end
  }

  /** No match starts outside the spans. */
  ghost predicate NoneMissed(ends: nat -> Option<nat>, n: nat, i: nat, spans: seq<Span>) {
    forall p: nat | i <= p < n && ends(p).Some? :: Covered(spans, p)
  }

  predicate InSequence(spans: seq<Span>, i: nat) {
    && (forall k | 0 <= k < |spans| :: i <= spans[k].start <= spans[k].end)
    && (forall k, m | 0 <= k < m < |spans| :: spans[k].end <= spans[m].start)
  }

  lemma CoveredByMore(first: Span, rest: seq<Span>, p: nat)
    ensures Covered(rest, p) || first.start <= p < first.end ==> Covered([first] + rest, p)
  {
    var all := [first] + rest;
    if first.start <= p < first.end {
      assert all[0].start <= p < all[0].end;
    } else if Covered(rest, p) {
      var k :| 0 <= k < |rest| && rest[k].start <= p < rest[k].end;
      assert all[k + 1].start <= p < all[k + 1].end;
    }
  }

  lemma {:induction false} ScanMatches(ends: nat -> Option<nat>, n: nat, i: nat)
    ensures forall span | span in Scan(ends, n, i) :: i <= span.start < span.end && IsMatch(ends, span)
    decreases n - i
  {
    if i < n {
      match ends(i)
      case None => ScanMatches(ends, n, i + 1);
      case Some(e) => if e > i { ScanMatches(ends, n, e); }
    }
  }

  lemma {:induction false} ScanInSequence(ends: nat -> Option<nat>, n: nat, i: nat)
    ensures InSequence(Scan(ends, n, i), i)
    decreases n - i
  {
    if i < n {
      match ends(i)
      case None => ScanInSequence(ends, n, i + 1);
      case Some(e) => if e > i { ScanInSequence(ends, n, e); }
    }
  }

  /** When every match is longer than nothing, no match starts outside the spans found. */
  lemma {:induction false} ScanMissesNone(ends: nat -> Option<nat>, n: nat, i: nat, p: nat)
    requires forall q: nat | ends(q).Some? :: q < ends(q).value
    requires i <= p < n && ends(p).Some?
    ensures Covered(Scan(ends, n, i), p)
    decreases n - i
  {
    match ends(i)
    case None => ScanMissesNone(ends, n, i + 1, p);
    case Some(e) =>
      if e <= p { ScanMissesNone(ends, n, e, p); }
      CoveredByMore(Span(i, e), Scan(ends, n, e), p);
  }

  function EndsIn(codes: seq<string>, s: string): nat -> Option<nat> {
    p => MatchEnd(codes, s, p)
  }

  predicate IsTextOf(s: string, span: Span, text: string) {
    span.start <= span.end <= |s| && text == s[span.start..span.end]
  }

  predicate AreTextsOf(s: string, spans: seq<Span>, texts: seq<string>) {
    |texts| == |spans| && forall k | 0 <= k < |spans| :: IsTextOf(s, spans[k], texts[k])
  }

  lemma OneMoreText(s: string, span: Span, spans: seq<Span>, text: string, texts: seq<string>)
    requires IsTextOf(s, span, text)
    ensures AreTextsOf(s, spans, texts) ==> AreTextsOf(s, [span] + spans, [text] + texts)
  {
  }

  lemma {:induction false} FindFromIsScan(codes: seq<string>, s: string, i: nat)
    ensures AreTextsOf(s, Scan(EndsIn(codes, s), |s|, i), FindFrom(codes, s, i))
    decreases |s| - i
  {
    if i < |s| {
      var end := MatchEnd(codes, s, i);
      if end == None {
        FindFromIsScan(codes, s, i + 1);
      } else {
        FindFromIsScan(codes, s, end.value);
        OneMoreText(s, Span(i, end.value), Scan(EndsIn(codes, s), |s|, end.value), s[i..end.value],
                    FindFrom(codes, s, end.value));
      }
    }
  }

  /**
   * The texts found from `i` on are matches that stand one after the other without overlap, and no
   * match starts outside them: each is the leftmost match after the one before.
   */
  lemma FindFromIsLeftmost(codes: seq<string>, s: string, i: nat) returns (spans: seq<Span>)
    ensures AreTextsOf(s, spans, FindFrom(codes, s, i))
    ensures forall span | span in spans :: i <= span.start < span.end && IsMatch(EndsIn(codes, s), span)
    ensures InSequence(spans, i) && NoneMissed(EndsIn(codes, s), |s|, i, spans)
  {
    spans := Scan(EndsIn(codes, s), |s|, i);
    FindFromIsScan(codes, s, i);
    ScanMatches(EndsIn(codes, s), |s|, i);
    ScanInSequence(EndsIn(codes, s), |s|, i);
    forall p: nat | i <= p < |s| && EndsIn(codes, s)(p).Some? ensures Covered(spans, p) {
      ScanMissesNone(EndsIn(codes, s), |s|, i, p);
    }
  }

  /** A match that no earlier match runs into is found. */
  lemma {:induction false} ScanFinds(ends: nat -> Option<nat>, n: nat, p: nat, i: nat, e: nat)
    requires p <= i < n && ends(i) == Some(e) && i < e
    requires forall q: nat | p <= q < i && ends(q).Some? :: q < ends(q).value <= i
    ensures Span(i, e) in Scan(ends, n, p)
    decreases i - p
  {
    if p < i {
      match ends(p)
      case None => ScanFinds(ends, n, p + 1, i, e);
      case Some(next) => ScanFinds(ends, n, next, i, e);
    }
  }

  /** First occurrences, in order. */
  function Distinct(s: seq<string>): (r: seq<string>)
    ensures forall w :: w in r <==> w in s
    ensures forall i, j | 0 <= i < j < |r| :: r[i] != r[j]
  {
    if s == [] then []
    else
      var front := Distinct(s[..|s| - 1]);
      if s[|s| - 1] in front then front else front + [s[|s| - 1]]
  }

  /** `a` occurs before `b` first does. */
  ghost predicate Precedes(s: seq<string>, a: string, b: string) {
    exists p | 0 <= p < |s| :: s[p] == a && b !in s[..p]
  }

  lemma PrecedesStill(front: seq<string>, last: string, a: string, b: string)
    requires Precedes(front, a, b)
    ensures Precedes(front + [last], a, b)
  {
    var p :| 0 <= p < |front| && front[p] == a && b !in front[..p];
    assert (front + [last])[p] == a && (front + [last])[..p] == front[..p];
  }

  lemma PrecedesNew(front: seq<string>, last: string, a: string)
    requires a in front && last !in front
    ensures Precedes(front + [last], a, last)
  {
    var p :| 0 <= p < |front| && front[p] == a;
    assert (front + [last])[p] == a && (front + [last])[..p] == front[..p];
  }

  /** The distinct texts come in the order of their first occurrences. */
  lemma {:induction false} DistinctKeepsOrder(s: seq<string>, i: nat, j: nat)
    requires i < j < |Distinct(s)|
    ensures Precedes(s, Distinct(s)[i], Distinct(s)[j])
    decreases |s|
  {
    var front, last := s[..|s| - 1], s[|s| - 1];
    assert s == front + [last];
    var d := Distinct(front);
    if j < |d| {
      DistinctKeepsOrder(front, i, j);
      PrecedesStill(front, last, d[i], d[j]);
    } else {
      assert d[i] in d;
      PrecedesNew(front, last, d[i]);
    }
  }

  function UpperEach(s: seq<string>): (r: seq<string>)
    ensures |r| == |s| && forall i | 0 <= i < |s| :: r[i] == UpperAll(s[i])
  {
    seq(|s|, i requires 0 <= i < |s| => UpperAll(s[i]))
  }

  function References(message: string): seq<string> {
    Distinct(UpperEach(FindFrom(CODES, message, 0)))
  }

  method ExtractTaskReferences(message: string) returns (refs: seq<string>)
    ensures refs == References(message)
  {
    var matches := FindFrom(CODES, message, 0);
    var seen: set<string> := {};
    refs := [];
    for i := 0 to |matches|
      invariant refs == Distinct(UpperEach(matches)[..i])
      invariant forall w :: w in seen <==> w in refs
    {
      ghost var upTo := UpperEach(matches)[..i + 1];
      assert upTo[..i] == UpperEach(matches)[..i];
      var taskId := UpperAll(matches[i]);
      if taskId !in seen {
        seen := seen + {taskId};
        refs := refs + [taskId];
      }
    }
    assert UpperEach(matches)[..|matches|] == UpperEach(matches);
  }

  // ----- what is printed is read back -----

  lemma DecLength(n: nat)
    ensures |Dec(n)| <= 4 <==> n <= 9999
    ensures |Dec(n)| == 4 <==> 1000 <= n <= 9999
  {
    if n >= 10 {
      var a := n / 10;
      assert |Dec(n)| == |Dec(a)| + 1;
      if a >= 10 {
        var b := a / 10;
        assert |Dec(a)| == |Dec(b)| + 1;
        if b >= 10 {
          var c := b / 10;
          assert |Dec(b)| == |Dec(c)| + 1;
          assert c < 10 <==> |Dec(c)| == 1;
        }
      }
    }
  }

  predicate FourDigitParts(year: nat, n: nat) {
    1000 <= year <= 9999 && n <= 9999
  }

  /** The pieces of a printed id. */
  lemma Layout(code: string, y: string, n: string)
    ensures var id, c, w := Printed(code, y, n), |code|, |y|;
            && |id| == 6 + c + w + |n|
            && id[..4] == "LTM-" && id[4..4 + c] == code && id[4 + c] == '-'
            && id[5 + c..5 + c + w] == y
            && id[5 + c + w] == '-'
            && id[6 + c + w..] == n
  {
    var tail := y + "-" + n;
    var rest := code + "-" + tail;
    var id := Printed(code, y, n);
    assert id == "LTM-" + rest && id[4..] == rest;
    assert rest[..|code|] == code && rest[|code| + 1..] == tail;
    assert id[4..4 + |code|] == rest[..|code|];
    assert id[5 + |code|..] == tail;
  }

  /** What the scan relies on about the alternatives: no dash, and L only ends a three-letter code. */
  ghost predicate Scannable(code: string) {
    && '-' !in code
    && forall x | 0 <= x < |code| && code[x] == 'L' :: |code| == 3 && x == 2
  }

  lemma CodesAreScannable()
    ensures forall c | c in CODES :: Scannable(c)
  {
    forall c | c in CODES
      ensures Scannable(c)
    {
      var k :| 0 <= k < |CODES| && CODES[k] == c;
    }
  }

  lemma CodeIsListed(d: Dept)
    ensures Code(d) in CODES && UpperAll(Code(d)) == Code(d)
  {
    assert CODES[0] == "FIN" && CODES[1] == "PROC" && CODES[2] == "OP" && CODES[4] == "HR" && CODES[5] == "IT"
        && CODES[6] == "BD" && CODES[7] == "SAL" && CODES[8] == "EXO" && CODES[9] == "TBS" && CODES[10] == "CBS"
        && CODES[11] == "QUA" && CODES[12] == "CEO";
  }

  lemma PrintedIsReference(code: string, y: string, n: string)
    requires UpperAll(code) == code && FourDigits(y) && FourDigits(n)
    ensures IsReference(Printed(code, y, n), code)
  {
    Layout(code, y, n);
    assert UpperAll("LTM-") == "LTM-";
  }

  /** In a match the code is followed by its first dash. */
  lemma DashEnds(m: string, i: nat, a: string)
    requires MatchesWith(m, i, a) && '-' !in a
    ensures m[i + 4 + |a|] == '-' && forall x | i + 4 <= x < i + 4 + |a| :: m[x] != '-'
  {
    var w := m[i..i + 14 + |a|];
    assert m[i + 4 + |a|] == w[4 + |a|];
    forall x | i + 4 <= x < i + 4 + |a|
      ensures m[x] != '-'
    {
      var k := x - i - 4;
      assert w[4..4 + |a|][k] == w[4 + k] == m[x];
      assert UpperAll(w[4..4 + |a|])[k] == a[k] && a[k] in a;
    }
  }

  /** At one place, only one length of code can match, because codes contain no dash. */
  lemma OneCodeLength(m: string, i: nat)
    ensures forall a, b | MatchesWith(m, i, a) && MatchesWith(m, i, b) && '-' !in a && '-' !in b :: |a| == |b|
  {
    forall a, b | MatchesWith(m, i, a) && MatchesWith(m, i, b) && '-' !in a && '-' !in b
      ensures |a| == |b|
    {
      DashEnds(m, i, a);
      DashEnds(m, i, b);
    }
  }

  /** What the pattern matches at a place where a reference stands is that reference. */
  lemma MatchesReference(codes: seq<string>, m: string, i: nat, own: string)
    requires own in codes && forall c | c in codes :: '-' !in c
    ensures MatchesWith(m, i, own) ==> MatchEnd(codes, m, i) == Some(i + 14 + |own|)
  {
    var first := FirstFit(codes, m, i);
    if MatchesWith(m, i, own) {
      assert first.Some?;
      SameLength(m, i, first.value, own);
    }
  }

  lemma SameLength(m: string, i: nat, a: string, b: string)
    requires '-' !in a && '-' !in b
    ensures MatchesWith(m, i, a) && MatchesWith(m, i, b) ==> |a| == |b|
  {
    OneCodeLength(m, i);
  }

  /** At no inner position of a match do the letters LT follow each other, in either case. */
  lemma NoInnerStart(w: string, a: string, o: nat)
    requires Scannable(a) && IsReference(w, a)
    requires 0 < o < |w| && Upper(w[o]) == 'L'
    ensures o + 1 < |w| && Upper(w[o + 1]) != 'T'
  {
    var j := 4 + |a|;
    assert UpperAll(w[..4])[1] == 'T' && UpperAll(w[..4])[2] == 'M' && UpperAll(w[..4])[3] == '-';
    assert forall x | 4 <= x < j :: Upper(w[x]) == UpperAll(w[4..j])[x - 4] == a[x - 4];
    assert w[j + 1..j + 5][0] == w[j + 1] && w[j + 1..j + 5][1] == w[j + 2]
        && w[j + 1..j + 5][2] == w[j + 3] && w[j + 1..j + 5][3] == w[j + 4];
    assert w[j + 6..][0] == w[j + 6] && w[j + 6..][1] == w[j + 7]
        && w[j + 6..][2] == w[j + 8] && w[j + 6..][3] == w[j + 9];
    assert 4 <= o < j;
  }

  /** A reference stands at `i`, as far as its first letters say. */
  predicate Starts(m: string, i: nat) {
    i + 4 <= |m| && UpperAll(m[i..i + 4]) == "LTM-"
  }

  /** A match that starts before a reference never runs into it. */
  lemma NoOverlap(m: string, p: nat, i: nat)
    requires p < i && Starts(m, i)
    ensures forall c | Scannable(c) && MatchesWith(m, p, c) :: p + 14 + |c| <= i
  {
    assert UpperAll(m[i..i + 4])[0] == Upper(m[i]) && UpperAll(m[i..i + 4])[1] == Upper(m[i + 1]);
    forall c | Scannable(c) && MatchesWith(m, p, c)
      ensures p + 14 + |c| <= i
    {
      var w := m[p..p + 14 + |c|];
      assert forall o | 0 <= o < |w| :: w[o] == m[p + o];
      if i < p + |w| {
        NoInnerStart(w, c, i - p);
      }
    }
  }

  /** No match that starts before `i` runs past it. */
  ghost predicate ClearBefore(ends: nat -> Option<nat>, i: nat) {
    forall q: nat | q < i && ends(q).Some? :: q < ends(q).value <= i
  }

  lemma NoneRunsInto(codes: seq<string>, m: string, i: nat)
    requires forall c | c in codes :: Scannable(c)
    requires Starts(m, i)
    ensures ClearBefore(EndsIn(codes, m), i)
  {
    forall q: nat | q < i && MatchEnd(codes, m, q).Some?
      ensures q < MatchEnd(codes, m, q).value <= i
    {
      NoOverlap(m, q, i);
    }
  }

  lemma ClearMatchIsFound(codes: seq<string>, m: string, i: nat, e: nat)
    requires EndsIn(codes, m)(i) == Some(e) && i < |m| && i < e && ClearBefore(EndsIn(codes, m), i)
    ensures e <= |m| && m[i..e] in FindFrom(codes, m, 0)
  {
    ScanFinds(EndsIn(codes, m), |m|, 0, i, e);
    TextIsFound(codes, m, Span(i, e));
  }

  /** A reference is found wherever it stands. */
  lemma FoundFrom(codes: seq<string>, m: string, i: nat, own: string)
    requires own in codes && forall c | c in codes :: Scannable(c)
    requires Starts(m, i)
    ensures MatchesWith(m, i, own) ==> m[i..i + 14 + |own|] in FindFrom(codes, m, 0)
  {
    MatchesReference(codes, m, i, own);
    NoneRunsInto(codes, m, i);
    if MatchEnd(codes, m, i) == Some(i + 14 + |own|) {
      ClearMatchIsFound(codes, m, i, i + 14 + |own|);
    }
  }

  lemma TextIsFound(codes: seq<string>, m: string, span: Span)
    requires span in Scan(EndsIn(codes, m), |m|, 0)
    ensures span.start <= span.end <= |m| && m[span.start..span.end] in FindFrom(codes, m, 0)
  {
    var spans, found := Scan(EndsIn(codes, m), |m|, 0), FindFrom(codes, m, 0);
    FindFromIsScan(codes, m, 0);
    var k :| 0 <= k < |spans| && spans[k] == span;
    assert IsTextOf(m, spans[k], found[k]) && found[k] in found;
  }

  lemma UpperOfDigits(s: string)
    requires forall i | 0 <= i < |s| :: IsDigit(s[i])
    ensures UpperAll(s) == s
  {
  }

  lemma UpperOfConcat(s: string, t: string)
    ensures UpperAll(s + t) == UpperAll(s) + UpperAll(t)
  {
  }

  lemma PrintedIsUpper(code: string, y: string, n: string)
    requires UpperAll(code) == code && UpperAll(y) == y && UpperAll(n) == n
    ensures UpperAll(Printed(code, y, n)) == Printed(code, y, n)
  {
    var tail := y + "-" + n;
    UpperOfConcat(y, "-");
    UpperOfConcat(y + "-", n);
    UpperOfConcat(code, "-");
    UpperOfConcat(code + "-", tail);
    UpperOfConcat("LTM-", code + "-" + tail);
    assert UpperAll("-") == "-" && UpperAll("LTM-") == "LTM-";
  }

  /** The facts about a printed id that reading it back needs. */
  lemma PrintedFacts(d: Dept, y: nat, n: nat)
    ensures var id := PublicId(d, y, n); UpperAll(id) == id && |id| >= 4 && id[..4] == "LTM-"
    ensures FourDigitParts(y, n) ==> IsReference(PublicId(d, y, n), Code(d))
  {
    CodeIsListed(d);
    UpperOfDigits(Dec(y));
    UpperOfDigits(Pad4(n));
    PrintedIsUpper(Code(d), Dec(y), Pad4(n));
    Layout(Code(d), Dec(y), Pad4(n));
    FourDigitsMatch(d, y, n);
  }

  lemma FourDigitsMatch(d: Dept, y: nat, n: nat)
    ensures FourDigitParts(y, n) ==> IsReference(PublicId(d, y, n), Code(d))
  {
    CodeIsListed(d);
    DecLength(y);
    DecLength(n);
    if FourDigitParts(y, n) {
      PrintedIsReference(Code(d), Dec(y), Pad4(n));
    }
  }

  lemma UpperInReferences(message: string, w: string)
    requires w in FindFrom(CODES, message, 0)
    ensures UpperAll(w) in References(message)
  {
    var found := FindFrom(CODES, message, 0);
    var k :| 0 <= k < |found| && found[k] == w;
    assert UpperEach(found)[k] == UpperAll(w);
  }

  /** In a printed text the pattern can only take the whole code as its code. */
  lemma WholeMatchCode(code: string, y: string, n: string, a: string)
    requires '-' !in code && '-' !in a
    ensures MatchesWith(Printed(code, y, n), 0, a) ==> |a| == |code|
  {
    var id, c := Printed(code, y, n), |code|;
    Layout(code, y, n);
    if MatchesWith(id, 0, a) {
      DashEnds(id, 0, a);
      assert forall x | 4 <= x < 4 + c :: id[x] == id[4..4 + c][x - 4] && code[x - 4] in code;
    }
  }

  /** The whole of a printed text matches only when its year and number have four digits. */
  lemma WholeMatchHasFourDigits(code: string, y: string, n: string, a: string)
    requires '-' !in y && |a| == |code|
    ensures IsReference(Printed(code, y, n), a) ==> |y| == 4 && |n| == 4
  {
    var id, c, w := Printed(code, y, n), |code|, |y|;
    Layout(code, y, n);
    if IsReference(id, a) {
      var f := id[c + 5..c + 9];
      assert id[c + 5] == f[0] && id[c + 6] == f[1] && id[c + 7] == f[2] && id[c + 8] == f[3];
      assert forall x | 0 <= x < w :: id[5 + c + x] == id[5 + c..5 + c + w][x] && y[x] in y;
    }
  }

  lemma SingleMatch(codes: seq<string>, id: string, own: string)
    requires own in codes && forall c | c in codes :: Scannable(c)
    ensures IsReference(id, own) ==> FindFrom(codes, id, 0) == [id]
  {
    assert id[0..|id|] == id;
    MatchesReference(codes, id, 0, own);
  }

  lemma WholeMatch(codes: seq<string>, code: string, y: string, n: string)
    requires '-' !in code && '-' !in y && forall c | c in codes :: '-' !in c
    ensures MatchEnd(codes, Printed(code, y, n), 0) == Some(|Printed(code, y, n)|) ==> |y| == 4 && |n| == 4
  {
    var id := Printed(code, y, n);
    var first := FirstFit(codes, id, 0);
    assert id[0..|id|] == id;
    if first.Some? && |id| == 14 + |first.value| {
      WholeMatchCode(code, y, n, first.value);
      WholeMatchHasFourDigits(code, y, n, first.value);
    }
  }

  lemma NotReadBack(id: string)
    requires MatchEnd(CODES, id, 0) != Some(|id|)
    ensures References(id) != [id]
  {
    var found := FindFrom(CODES, id, 0);
    if found != [] {
      ShorterMatches(CODES, id);
      UpperInReferences(id, found[0]);
      assert |UpperAll(found[0])| < |id|;
    }
  }

  lemma ShorterMatches(codes: seq<string>, id: string)
    requires MatchEnd(codes, id, 0) != Some(|id|)
    ensures forall w | w in FindFrom(codes, id, 0) :: |w| < |id|
  {
  }

  lemma DistinctOfOne(w: string)
    requires UpperAll(w) == w
    ensures Distinct(UpperEach([w])) == [w]
  {
    assert UpperEach([w]) == [w] && [w][..0] == [];
  }

  /** Reading a printed id back returns exactly that id iff year and number have four digits. */
  lemma ReferencesOfPrintedId(d: Dept, y: nat, n: nat)
    ensures References(PublicId(d, y, n)) == [PublicId(d, y, n)] <==> FourDigitParts(y, n)
  {
    if FourDigitParts(y, n) {
      PrintedFacts(d, y, n);
      CodeIsListed(d);
      CodesAreScannable();
      SingleMatch(CODES, PublicId(d, y, n), Code(d));
      DistinctOfOne(PublicId(d, y, n));
    } else {
      CodesAreScannable();
      DecHasNoDash(y);
      WholeMatch(CODES, Code(d), Dec(y), Pad4(n));
      DecLength(y);
      DecLength(n);
      NotReadBack(PublicId(d, y, n));
    }
  }

  // ----- exactly which references a message holds -----

  /** The same text, its letters in either case. */
  predicate InAnyCase(w: string, text: string) {
    |w| == |text| && forall k | 0 <= k < |w| ::
      w[k] == text[k] || ('A' <= text[k] <= 'Z' && w[k] as int == text[k] as int + ('a' as int - 'A' as int))
  }

  predicate Digits(s: string) {
    forall k | 0 <= k < |s| :: '0' <= s[k] <= '9'
  }

  /** LTM, one of the thirteen codes, four digits of a year and four of a number. */
  predicate IsFullId(r: string, code: string, y: string, n: string) {
    && code in {"FIN", "PROC", "OP", "PROJ", "HR", "IT", "BD", "SAL", "EXO", "TBS", "CBS", "QUA", "CEO"}
    && |y| == 4 && Digits(y) && |n| == 4 && Digits(n)
    && r == "LTM-" + code + "-" + y + "-" + n
  }

  ghost predicate FullId(r: string) {
    exists code: string, y: string, n: string :: IsFullId(r, code, y, n)
  }

  predicate OccursAt(m: string, r: string, i: nat) {
    i + |r| <= |m| && InAnyCase(m[i..i + |r|], r)
  }

  lemma UpperIffAnyCase(w: string, text: string)
    requires forall k | 0 <= k < |text| :: !('a' <= text[k] <= 'z')
    ensures UpperAll(w) == text <==> InAnyCase(w, text)
  {
    if UpperAll(w) == text {
      assert forall k | 0 <= k < |w| :: text[k] == Upper(w[k]);
    }
  }

  lemma CodesAreThirteen(code: string)
    ensures code in CODES
       <==> code in {"FIN", "PROC", "OP", "PROJ", "HR", "IT", "BD", "SAL", "EXO", "TBS", "CBS", "QUA", "CEO"}
    ensures code in CODES ==> forall k | 0 <= k < |code| :: 'A' <= code[k] <= 'Z'
  {
    assert CODES[0] == "FIN" && CODES[1] == "PROC" && CODES[2] == "OP" && CODES[3] == "PROJ" && CODES[4] == "HR"
        && CODES[5] == "IT" && CODES[6] == "BD" && CODES[7] == "SAL" && CODES[8] == "EXO" && CODES[9] == "TBS"
        && CODES[10] == "CBS" && CODES[11] == "QUA" && CODES[12] == "CEO" && |CODES| == 13;
  }

  lemma FullIdIsPrinted(r: string, code: string, y: string, n: string)
    requires IsFullId(r, code, y, n)
    ensures r == Printed(code, y, n) && code in CODES && FourDigits(y) && FourDigits(n)
    ensures forall k | 0 <= k < |r| :: !('a' <= r[k] <= 'z')
  {
    CodesAreThirteen(code);
    assert r == Printed(code, y, n);
  }

  lemma UpperSlice(w: string, a: nat, b: nat)
    requires a <= b <= |w|
    ensures UpperAll(w[a..b]) == UpperAll(w)[a..b]
  {
  }

  lemma DigitStays(c: char)
    ensures IsDigit(Upper(c)) ==> Upper(c) == c
  {
  }

  lemma DigitsStay(s: string)
    requires forall k | 0 <= k < |s| :: IsDigit(UpperAll(s)[k])
    ensures UpperAll(s) == s
  {
    forall k | 0 <= k < |s| ensures UpperAll(s)[k] == s[k] {
      DigitStays(s[k]);
    }
  }

  /** The pieces of a text that reads as an id once its letters are capitals. */
  lemma AnyCasePieces(w: string, code: string, y: string, n: string)
    requires UpperAll(w) == Printed(code, y, n) && |y| == 4 && |n| == 4
    ensures var c := |code|;
            && |w| == 14 + c && UpperAll(w[..4]) == "LTM-" && UpperAll(w[4..4 + c]) == code
            && Upper(w[4 + c]) == '-' && UpperAll(w[5 + c..9 + c]) == y
            && Upper(w[9 + c]) == '-' && UpperAll(w[10 + c..]) == n
  {
    var c := |code|;
    Layout(code, y, n);
    UpperSlice(w, 0, 4);
    UpperSlice(w, 4, 4 + c);
    UpperSlice(w, 5 + c, 9 + c);
    UpperSlice(w, 10 + c, |w|);
    assert w[0..4] == w[..4] && w[10 + c..|w|] == w[10 + c..];
  }

  /** A text that reads as an id once its letters are capitals is a match. */
  lemma AnyCaseIsReference(w: string, code: string, y: string, n: string)
    requires UpperAll(w) == Printed(code, y, n) && FourDigits(y) && FourDigits(n)
    ensures |w| == 14 + |code| && IsReference(w, code) && Starts(w, 0)
  {
    AnyCasePieces(w, code, y, n);
    DigitsStay(w[5 + |code|..9 + |code|]);
    DigitsStay(w[10 + |code|..]);
    assert w[0..4] == w[..4];
  }

  lemma MatchAt(m: string, i: nat, w: string, code: string)
    requires i + |w| <= |m| && m[i..i + |w|] == w && |w| == 14 + |code| && IsReference(w, code)
    ensures MatchesWith(m, i, code)
  {
  }

  lemma MatchIsFound(codes: seq<string>, m: string, i: nat, w: string, code: string)
    requires code in codes && forall c | c in codes :: Scannable(c)
    requires MatchesWith(m, i, code) && m[i..i + 14 + |code|] == w && Starts(m, i)
    ensures w in FindFrom(codes, m, 0)
  {
    FoundFrom(codes, m, i, code);
  }

  lemma StartsInside(m: string, i: nat, w: string)
    requires i + |w| <= |m| && m[i..i + |w|] == w && Starts(w, 0)
    ensures Starts(m, i)
  {
    assert m[i..i + 4] == w[0..4];
  }

  lemma FullIdIsFound(m: string, r: string, code: string, y: string, n: string, i: nat)
    requires IsFullId(r, code, y, n) && OccursAt(m, r, i)
    ensures r in References(m)
  {
    var w := m[i..i + |r|];
    FullIdIsPrinted(r, code, y, n);
    UpperIffAnyCase(w, r);
    CodesAreScannable();
    AnyCaseIsReference(w, code, y, n);
    MatchAt(m, i, w, code);
    StartsInside(m, i, w);
    MatchIsFound(CODES, m, i, w, code);
    UpperInReferences(m, w);
  }

  lemma Assembled(r: string, code: string, y: string, n: string)
    requires |r| == |code| + 14 && r[..4] == "LTM-" && r[4..4 + |code|] == code && r[4 + |code|] == '-'
    requires r[5 + |code|..9 + |code|] == y && r[9 + |code|] == '-' && r[10 + |code|..] == n
    ensures r == Printed(code, y, n)
  {
    assert r[4 + |code|..] == "-" + (y + "-" + n) by {
      assert r[4 + |code|..] == [r[4 + |code|]] + r[5 + |code|..9 + |code|] + [r[9 + |code|]] + r[10 + |code|..];
    }
    assert r == r[..4] + (r[4..4 + |code|] + r[4 + |code|..]);
    assert code + "-" + (y + "-" + n) == code + ("-" + (y + "-" + n));
  }

  /** The digits of a match are digits as they stand. */
  lemma ReferenceReads(w: string, code: string)
    requires IsReference(w, code)
    ensures var (y, n) := (w[5 + |code|..9 + |code|], w[10 + |code|..]);
            UpperAll(w) == Printed(code, y, n) && FourDigits(y) && FourDigits(n)
  {
    var r, c := UpperAll(w), |code|;
    var y, n := w[5 + c..9 + c], w[10 + c..];
    UpperSlice(w, 0, 4);
    assert w[0..4] == w[..4] && r[0..4] == r[..4];
    UpperSlice(w, 4, 4 + c);
    UpperSlice(w, 5 + c, 9 + c);
    UpperSlice(w, 10 + c, |w|);
    assert w[10 + c..|w|] == n && r[10 + c..|w|] == r[10 + c..];
    UpperOfDigits(y);
    UpperOfDigits(n);
    Assembled(r, code, y, n);
  }

  lemma PrintedIsFullId(code: string, y: string, n: string)
    requires code in CODES && FourDigits(y) && FourDigits(n)
    ensures FullId(Printed(code, y, n))
    ensures var r := Printed(code, y, n); forall k | 0 <= k < |r| :: !('a' <= r[k] <= 'z')
  {
    CodesAreThirteen(code);
    assert IsFullId(Printed(code, y, n), code, y, n);
    FullIdIsPrinted(Printed(code, y, n), code, y, n);
  }

  /** The text of a match at `i`. */
  predicate MatchedText(codes: seq<string>, m: string, i: nat, w: string) {
    i + |w| <= |m| && MatchEnd(codes, m, i) == Some(i + |w|) && m[i..i + |w|] == w
  }

  lemma SpanIsMatched(codes: seq<string>, m: string, span: Span, w: string)
    requires IsMatch(EndsIn(codes, m), span) && IsTextOf(m, span, w)
    ensures MatchedText(codes, m, span.start, w)
  {
  }

  lemma FoundSomewhere(codes: seq<string>, m: string, w: string) returns (i: nat)
    requires w in FindFrom(codes, m, 0)
    ensures MatchedText(codes, m, i, w)
  {
    var spans := Scan(EndsIn(codes, m), |m|, 0);
    FindFromIsScan(codes, m, 0);
    var span := TextHasSpan(m, spans, FindFrom(codes, m, 0), w);
    ScanMatches(EndsIn(codes, m), |m|, 0);
    SpanIsMatched(codes, m, span, w);
    i := span.start;
  }

  lemma TextHasSpan(m: string, spans: seq<Span>, texts: seq<string>, w: string) returns (span: Span)
    requires AreTextsOf(m, spans, texts) && w in texts
    ensures span in spans && IsTextOf(m, span, w)
  {
    var k :| 0 <= k < |texts| && texts[k] == w;
    span := spans[k];
  }

  /** What is found is a match where it stands. */
  lemma FoundIsMatch(codes: seq<string>, m: string, i: nat, w: string) returns (code: string)
    requires MatchedText(codes, m, i, w)
    ensures code in codes && IsReference(w, code)
  {
    code := FirstFit(codes, m, i).value;
    assert i + |w| == i + 14 + |code| && MatchesWith(m, i, code);
  }

  lemma MatchReads(codes: seq<string>, m: string, w: string) returns (i: nat, code: string, y: string, n: string)
    requires w in FindFrom(codes, m, 0)
    ensures MatchedText(codes, m, i, w) && code in codes
    ensures UpperAll(w) == Printed(code, y, n) && FourDigits(y) && FourDigits(n)
  {
    i := FoundSomewhere(codes, m, w);
    code := FoundIsMatch(codes, m, i, w);
    ReferenceReads(w, code);
    y, n := w[5 + |code|..9 + |code|], w[10 + |code|..];
  }

  lemma FoundText(m: string, r: string) returns (w: string)
    requires r in References(m)
    ensures w in FindFrom(CODES, m, 0) && UpperAll(w) == r
  {
    var found := FindFrom(CODES, m, 0);
    var k :| 0 <= k < |found| && UpperEach(found)[k] == r;
    w := found[k];
  }

  lemma PrintedOccurs(m: string, w: string, i: nat, code: string, y: string, n: string)
    requires i + |w| <= |m| && m[i..i + |w|] == w && UpperAll(w) == Printed(code, y, n)
    requires code in CODES && FourDigits(y) && FourDigits(n)
    ensures OccursAt(m, Printed(code, y, n), i)
  {
    PrintedIsFullId(code, y, n);
    UpperIffAnyCase(w, Printed(code, y, n));
  }

  lemma ReferenceOccurs(m: string, r: string) returns (i: nat)
    requires r in References(m)
    ensures OccursAt(m, r, i) && FullId(r)
  {
    var w := FoundText(m, r);
    var code, y, n;
    i, code, y, n := MatchReads(CODES, m, w);
    PrintedIsFullId(code, y, n);
    PrintedOccurs(m, w, i, code, y, n);
  }

  /**
   * The references of a message are exactly the ids that occur in it, with letters in either case
   * and whatever surrounds them.
   */
  lemma ReferencesIff(m: string, r: string)
    ensures r in References(m) <==> FullId(r) && exists i: nat :: OccursAt(m, r, i)
  {
    if r in References(m) {
      var i := ReferenceOccurs(m, r);
    }
    if FullId(r) && exists i: nat :: OccursAt(m, r, i) {
      var i: nat :| OccursAt(m, r, i);
      var code: string, y: string, n: string :| IsFullId(r, code, y, n);
      FullIdIsFound(m, r, code, y, n, i);
    }
  }

  lemma FourDigitIdIsFull(d: Dept, y: nat, n: nat)
    requires FourDigitParts(y, n)
    ensures FullId(PublicId(d, y, n))
  {
    CodeIsListed(d);
    DecLength(y);
    DecLength(n);
    PrintedIsFullId(Code(d), Dec(y), Pad4(n));
  }

  /** A printed id is found wherever it stands in a message, written in either case, whatever surrounds it. */
  lemma PrintedIdIsFound(before: string, written: string, d: Dept, y: nat, n: nat, after: string)
    requires FourDigitParts(y, n) && InAnyCase(written, PublicId(d, y, n))
    ensures PublicId(d, y, n) in References(before + written + after)
  {
    var m := before + written + after;
    FourDigitIdIsFull(d, y, n);
    assert m[|before|..|before| + |written|] == written;
    assert OccursAt(m, PublicId(d, y, n), |before|);
    ReferencesIff(m, PublicId(d, y, n));
  }
}
