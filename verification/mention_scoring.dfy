/** Scoring directory candidates for a name and picking one, or none. */
module MentionScoring {
  import opened Wrappers
  import opened Texts

  datatype Candidate = Candidate(id: string, displayName: string, mail: string, upn: string, department: string)

  /** The name asked for, the requester, and the directory lookups the score uses. */
  datatype Query = Query(
    text: string,
    requesterId: string,
    requesterDept: string,
    primaryDomain: string,
    deptCodeOf: string -> string,
    managerOf: string -> Option<string>)

  const AUTO_PICK_MARGIN := 2
  const WEIGHT_EXACT := 4
  const WEIGHT_PRIMARY_DOMAIN := 3
  const WEIGHT_ONMICROSOFT_PENALTY := 2
  const WEIGHT_DEPARTMENT := 3
  const WEIGHT_DIRECT_REPORT := 5

  // ----- text -----

  function Normal(s: string): string { Lower(Strip(s)) }

  function DropAts(s: string): string {
    if s != [] && s[0] == '@' then DropAts(s[1..]) else s
  }

  predicate EndsWith(s: string, suffix: string) {
    |suffix| <= |s| && s[|s| - |suffix|..] == suffix
  }

  // ----- scoring -----

  function IdentityValues(c: Candidate): set<string> {
    set v | v in {c.displayName, c.mail, c.upn} && Strip(v) != "" :: Normal(v)
  }

  predicate IsExact(q: Query, c: Candidate) {
    Normal(q.text) in IdentityValues(c)
  }

  /** The same name, up to the case of letters and the space around it. */
  predicate SameName(asked: string, name: string) {
    Strip(name) != "" && SameButForCase(Strip(asked), Strip(name))
  }

  /** A candidate is exact when its display name, mail or user principal name is the name asked for. */
  lemma ExactIffSameName(q: Query, c: Candidate)
    ensures IsExact(q, c) <==> SameName(q.text, c.displayName) || SameName(q.text, c.mail) || SameName(q.text, c.upn)
  {
    LowerForgetsCase(Strip(q.text), Strip(c.displayName));
    LowerForgetsCase(Strip(q.text), Strip(c.mail));
    LowerForgetsCase(Strip(q.text), Strip(c.upn));
    if SameName(q.text, c.displayName) {
      assert Normal(c.displayName) in IdentityValues(c);
    } else if SameName(q.text, c.mail) {
      assert Normal(c.mail) in IdentityValues(c);
    } else if SameName(q.text, c.upn) {
      assert Normal(c.upn) in IdentityValues(c);
    }
  }

  predicate HasPrimaryDomain(q: Query, c: Candidate) {
    var suffix := "@" + DropAts(Normal(q.primaryDomain));
    (c.mail != "" && EndsWith(Normal(c.mail), suffix)) || (c.upn != "" && EndsWith(Normal(c.upn), suffix))
  }

  predicate IsOnMicrosoftOnly(q: Query, c: Candidate) {
    !HasPrimaryDomain(q, c)
    && (EndsWith(Normal(c.mail), ".onmicrosoft.com") || EndsWith(Normal(c.upn), ".onmicrosoft.com"))
  }

  predicate SameDepartment(q: Query, c: Candidate) {
    q.requesterDept != "" && q.deptCodeOf(c.department) == q.requesterDept
  }

  predicate IsDirectReport(q: Query, c: Candidate) {
    q.requesterId != "" && q.managerOf(c.id) == Some(q.requesterId)
  }

  /** The sum of the weights of the signals a candidate shows. */
  function Score(q: Query, c: Candidate): int {
    (if IsExact(q, c) then WEIGHT_EXACT else 0)
    + (if HasPrimaryDomain(q, c) then WEIGHT_PRIMARY_DOMAIN else 0)
    - (if IsOnMicrosoftOnly(q, c) then WEIGHT_ONMICROSOFT_PENALTY else 0)
    + (if SameDepartment(q, c) then WEIGHT_DEPARTMENT else 0)
    + (if IsDirectReport(q, c) then WEIGHT_DIRECT_REPORT else 0)
  }

  /** An address ends in the text, up to case and the space around it. */
  predicate AddressEnds(address: string, text: string) {
    var a := Strip(address);
    |text| <= |a| && SameButForCase(a[|a| - |text|..], text)
  }

  lemma NormalEnds(address: string, text: string)
    ensures EndsWith(Normal(address), Lower(text)) <==> AddressEnds(address, text)
  {
    var a := Strip(address);
    if |text| <= |a| {
      assert Lower(a)[|a| - |text|..] == Lower(a[|a| - |text|..]);
      LowerForgetsCase(a[|a| - |text|..], text);
    }
  }

  /** All the leading signs are dropped, and nothing else. */
  lemma {:induction false} DropAtsDrops(s: string) returns (k: nat)
    ensures k <= |s| && DropAts(s) == s[k..] && (forall i | 0 <= i < k :: s[i] == '@') && (k < |s| ==> s[k] != '@')
  {
    if s != [] && s[0] == '@' {
      k := DropAtsDrops(s[1..]);
      k := k + 1;
    } else {
      k := 0;
    }
  }

  lemma {:induction false} DropAtsLower(s: string)
    ensures DropAts(Lower(s)) == Lower(DropAts(s))
  {
    if s != [] && s[0] == '@' {
      DropAtsLower(s[1..]);
      assert Lower(s)[1..] == Lower(s[1..]);
    }
  }

  lemma AtDomain(domain: string)
    ensures "@" + DropAts(Normal(domain)) == Lower("@" + DropAts(Strip(domain)))
  {
    DropAtsLower(Strip(domain));
    assert Lower("@" + DropAts(Strip(domain))) == Lower("@") + Lower(DropAts(Strip(domain)));
    assert Lower("@") == "@";
  }

  /** The two signals read from a candidate's addresses. */
  lemma AddressSignals(q: Query, c: Candidate)
    ensures var at := "@" + DropAts(Strip(q.primaryDomain));
            && (HasPrimaryDomain(q, c) <==> AddressEnds(c.mail, at) || AddressEnds(c.upn, at))
            && (IsOnMicrosoftOnly(q, c)
                <==> && !AddressEnds(c.mail, at) && !AddressEnds(c.upn, at)
                     && (AddressEnds(c.mail, ".onmicrosoft.com") || AddressEnds(c.upn, ".onmicrosoft.com")))
  {
    var at := "@" + DropAts(Strip(q.primaryDomain));
    AtDomain(q.primaryDomain);
    NormalEnds(c.mail, at);
    NormalEnds(c.upn, at);
    assert Lower(".onmicrosoft.com") == ".onmicrosoft.com";
    NormalEnds(c.mail, ".onmicrosoft.com");
    NormalEnds(c.upn, ".onmicrosoft.com");
  }

  method ScoreCandidate(q: Query, c: Candidate) returns (score: int)
    ensures score == Score(q, c)
    ensures score > 0 <==> IsExact(q, c) || HasPrimaryDomain(q, c) || SameDepartment(q, c) || IsDirectReport(q, c)
    ensures -2 <= score <= 15
    ensures score == (if IsExact(q, c) then 4 else 0) + (if HasPrimaryDomain(q, c) then 3 else 0)
                     - (if IsOnMicrosoftOnly(q, c) then 2 else 0)
                     + (if q.requesterDept != "" && q.deptCodeOf(c.department) == q.requesterDept then 3 else 0)
                     + (if q.requesterId != "" && q.managerOf(c.id) == Some(q.requesterId) then 5 else 0)
  {
    if IsExact(q, c) {
      score := WEIGHT_EXACT;
    } else {
      score := 0;
    }
    if HasPrimaryDomain(q, c) {
      score := score + WEIGHT_PRIMARY_DOMAIN;
    }
    if IsOnMicrosoftOnly(q, c) {
      score := score - WEIGHT_ONMICROSOFT_PENALTY;
    }
    if SameDepartment(q, c) {
      score := score + WEIGHT_DEPARTMENT;
    }
    if IsDirectReport(q, c) {
      score := score + WEIGHT_DIRECT_REPORT;
    }
  }

  // ----- ranking -----

  /** Dictionary order by character. */
  predicate LexLess(a: string, b: string) {
    b != [] && (a == [] || a[0] < b[0] || (a[0] == b[0] && LexLess(a[1..], b[1..])))
  }

  /** Higher scores first, then names in dictionary order. */
  predicate Before(q: Query, a: Candidate, b: Candidate) {
    Score(q, a) > Score(q, b)
    || (Score(q, a) == Score(q, b) && LexLess(Lower(a.displayName), Lower(b.displayName)))
  }

  /** Places a candidate after everything that does not come after it. */
  function Insert(q: Query, s: seq<Candidate>, c: Candidate): (r: seq<Candidate>)
    ensures |r| == |s| + 1
  {
    if s == [] || !Before(q, c, s[|s| - 1]) then s + [c]
    else Insert(q, s[..|s| - 1], c) + [s[|s| - 1]]
  }

  /** The stable sort of the candidates. */
  function Ranked(q: Query, s: seq<Candidate>): (r: seq<Candidate>)
    ensures |r| == |s|
  {
    if s == [] then [] else Insert(q, Ranked(q, s[..|s| - 1]), s[|s| - 1])
  }

  predicate InOrder(q: Query, s: seq<Candidate>) {
    forall i, j | 0 <= i < j < |s| :: !Before(q, s[j], s[i])
  }

  lemma {:induction false} LexTransitive(a: string, b: string, c: string)
    requires !LexLess(b, a) && !LexLess(c, b)
    ensures !LexLess(c, a)
    decreases |a|
  {
    if a != [] && b != [] && c != [] && a[0] == b[0] == c[0] {
      LexTransitive(a[1..], b[1..], c[1..]);
    }
  }

  lemma {:induction false} LexAsymmetric(a: string, b: string)
    ensures !(LexLess(a, b) && LexLess(b, a))
    decreases |a|
  {
    if a != [] && b != [] && a[0] == b[0] {
      LexAsymmetric(a[1..], b[1..]);
    }
  }

  lemma BeforeTransitive(q: Query, a: Candidate, b: Candidate, c: Candidate)
    requires !Before(q, b, a) && !Before(q, c, b)
    ensures !Before(q, c, a)
  {
    if Score(q, a) == Score(q, b) == Score(q, c) {
      LexTransitive(Lower(a.displayName), Lower(b.displayName), Lower(c.displayName));
    }
  }

  lemma BeforeAsymmetric(q: Query, a: Candidate, b: Candidate)
    ensures !(Before(q, a, b) && Before(q, b, a))
  {
    LexAsymmetric(Lower(a.displayName), Lower(b.displayName));
  }

  lemma {:induction false} InsertSorts(q: Query, s: seq<Candidate>, c: Candidate)
    requires InOrder(q, s)
    ensures InOrder(q, Insert(q, s, c))
    ensures multiset(Insert(q, s, c)) == multiset(s) + multiset{c}
  {
    if s != [] {
      var front, last := s[..|s| - 1], s[|s| - 1];
      assert s == front + [last];
      if Before(q, c, last) {
        InsertSorts(q, front, c);
        InsertedBeforeLast(q, front, last, c);
      } else {
        forall i | 0 <= i < |s|
          ensures !Before(q, c, s[i])
        {
          if i < |s| - 1 { BeforeTransitive(q, s[i], last, c); }
        }
      }
    }
  }

  lemma InsertedBeforeLast(q: Query, front: seq<Candidate>, last: Candidate, c: Candidate)
    requires InOrder(q, front + [last]) && Before(q, c, last) && InOrder(q, Insert(q, front, c))
    requires multiset(Insert(q, front, c)) == multiset(front) + multiset{c}
    ensures InOrder(q, Insert(q, front, c) + [last])
  {
    var r := Insert(q, front, c);
    forall i | 0 <= i < |r|
      ensures !Before(q, last, r[i])
    {
      assert r[i] in multiset(r);
      if r[i] == c {
        BeforeAsymmetric(q, c, last);
      } else {
        assert r[i] in multiset(front);
        var k :| 0 <= k < |front| && front[k] == r[i];
        assert (front + [last])[k] == r[i] && (front + [last])[|front|] == last;
      }
    }
  }

  /** The ranking is a permutation of the candidates in order of score, then name. */
  lemma {:induction false} RankedSorts(q: Query, s: seq<Candidate>)
    ensures InOrder(q, Ranked(q, s)) && multiset(Ranked(q, s)) == multiset(s)
  {
    if s != [] {
      var front, last := s[..|s| - 1], s[|s| - 1];
      assert s == front + [last];
      RankedSorts(q, front);
      InsertSorts(q, Ranked(q, front), last);
      assert Ranked(q, s) == Insert(q, Ranked(q, front), last);
    }
  }

  // ----- picking -----

  function Exact(q: Query, s: seq<Candidate>): seq<Candidate> {
    if s == [] then []
    else Exact(q, s[..|s| - 1]) + if IsExact(q, s[|s| - 1]) then [s[|s| - 1]] else []
  }

  datatype Pick = Pick(resolved: Option<Candidate>, ranked: seq<Candidate>)

  function RankAndPick(q: Query, candidates: seq<Candidate>): Pick {
    if candidates == [] then Pick(None, [])
    else if |candidates| == 1 then Pick(Some(candidates[0]), candidates)
    else
      var exact := Exact(q, candidates);
      if |exact| == 1 then Pick(Some(exact[0]), candidates)
      else
        var ranked := Ranked(q, candidates);
        var (top, second) := (Score(q, ranked[0]), Score(q, ranked[1]));
        var margin := top - second;
        if top <= 0 && second <= 0 then Pick(None, ranked)
        else if margin >= AUTO_PICK_MARGIN then Pick(Some(ranked[0]), ranked)
        else if second == 0 && top >= WEIGHT_EXACT then Pick(Some(ranked[0]), ranked)
        else if second > 0 && margin >= AUTO_PICK_MARGIN && 4 * margin >= second then Pick(Some(ranked[0]), ranked)
        else Pick(None, ranked)
  }

  predicate DistinctIds(s: seq<Candidate>) {
    forall i, j | 0 <= i < j < |s| :: s[i].id != s[j].id
  }

  predicate OnlyExact(q: Query, s: seq<Candidate>, c: Candidate) {
    c in s && IsExact(q, c) && forall d | d in s && IsExact(q, d) :: d == c
  }

  /** A positive score at least the margin above everyone else's. */
  predicate Dominates(q: Query, s: seq<Candidate>, c: Candidate) {
    c in s && Score(q, c) > 0 && forall d | d in s && d != c :: Score(q, d) + 2 <= Score(q, c)
  }

  lemma {:induction false} ExactMembers(q: Query, s: seq<Candidate>)
    ensures forall c :: c in Exact(q, s) <==> c in s && IsExact(q, c)
  {
    if s != [] {
      var front, last := s[..|s| - 1], s[|s| - 1];
      ExactMembers(q, front);
      assert s == front + [last];
    }
  }

  lemma DistinctSnoc(front: seq<Candidate>, last: Candidate)
    requires DistinctIds(front) && forall c | c in front :: c.id != last.id
    ensures DistinctIds(front + [last])
  {
  }

  lemma {:induction false} ExactStayDistinct(q: Query, s: seq<Candidate>)
    requires DistinctIds(s)
    ensures DistinctIds(Exact(q, s))
  {
    if s != [] {
      var front, last := s[..|s| - 1], s[|s| - 1];
      ExactStayDistinct(q, front);
      ExactMembers(q, front);
      forall c | c in front ensures c.id != last.id {
        var k :| 0 <= k < |front| && front[k] == c;
        assert s[k] == c && s[|s| - 1] == last;
      }
      DistinctSnoc(Exact(q, front), last);
    }
  }

  /** Exactly one exact match stands alone in the list of exact matches. */
  lemma OneExactMatch(q: Query, s: seq<Candidate>)
    requires DistinctIds(s)
    ensures |Exact(q, s)| == 1 ==> OnlyExact(q, s, Exact(q, s)[0])
    ensures forall c | OnlyExact(q, s, c) :: |Exact(q, s)| == 1 && Exact(q, s)[0] == c
  {
    ExactMembers(q, s);
    ExactStayDistinct(q, s);
    var exact := Exact(q, s);
    assert forall i | 0 <= i < |exact| :: exact[i] in exact && (i > 0 ==> exact[0].id != exact[i].id);
    forall c | OnlyExact(q, s, c)
      ensures |exact| == 1 && exact[0] == c
    {
      assert c in exact;
      assert exact[0] == c && exact[|exact| - 1] == c;
    }
  }

  /** The first two of a ranking decide whether someone dominates. */
  lemma TopTwoDecide(q: Query, ranked: seq<Candidate>)
    requires |ranked| >= 2 && DistinctIds(ranked) && InOrder(q, ranked)
    ensures Score(q, ranked[0]) >= Score(q, ranked[1])
    ensures var win := Score(q, ranked[0]) > 0 && Score(q, ranked[0]) - Score(q, ranked[1]) >= AUTO_PICK_MARGIN;
            && (win ==> Dominates(q, ranked, ranked[0]))
            && (forall c | Dominates(q, ranked, c) :: win && c == ranked[0])
  {
    var (a, b) := (ranked[0], ranked[1]);
    assert !Before(q, b, a);
    forall i | 1 <= i < |ranked|
      ensures Score(q, ranked[i]) <= Score(q, b)
    {
      assert i > 1 ==> !Before(q, ranked[i], b);
    }
    forall c | Dominates(q, ranked, c)
      ensures c == a && Score(q, a) > 0 && Score(q, a) - Score(q, b) >= AUTO_PICK_MARGIN
    {
      assert a in ranked && b in ranked && a.id != b.id;
    }
  }

  lemma SamePermuted(q: Query, s: seq<Candidate>, r: seq<Candidate>)
    requires multiset(s) == multiset(r)
    ensures forall c :: c in s <==> c in r
    ensures forall c :: Dominates(q, s, c) <==> Dominates(q, r, c)
    ensures forall c :: OnlyExact(q, s, c) <==> OnlyExact(q, r, c)
  {
    assert forall c :: c in s <==> c in multiset(s);
    assert forall c :: c in r <==> c in multiset(r);
  }

  lemma DistinctPermuted(s: seq<Candidate>, r: seq<Candidate>)
    requires multiset(s) == multiset(r) && DistinctIds(s)
    ensures DistinctIds(r)
  {
    forall i, j | 0 <= i < j < |r|
      ensures r[i].id != r[j].id
    {
      assert r == r[..i] + [r[i]] + r[i + 1..j] + [r[j]] + r[j + 1..];
      if r[i] == r[j] {
        assert multiset(r)[r[i]] >= 2;
        OccursOnce(s, r[i]);
      } else {
        assert r[i] in multiset(s) && r[j] in multiset(s);
        var a :| 0 <= a < |s| && s[a] == r[i];
        var b :| 0 <= b < |s| && s[b] == r[j];
        assert a != b;
      }
    }
  }

  lemma {:induction false} OccursOnce(s: seq<Candidate>, c: Candidate)
    requires DistinctIds(s)
    ensures multiset(s)[c] <= 1
  {
    if s != [] {
      var front, last := s[..|s| - 1], s[|s| - 1];
      assert s == front + [last];
      OccursOnce(front, c);
      if last == c {
        assert c !in front;
      }
    }
  }

  /** For two or more distinct candidates: the only exact match, else the one that dominates. */
  predicate Chosen(q: Query, s: seq<Candidate>, c: Candidate) {
    OnlyExact(q, s, c) || (Dominates(q, s, c) && forall d | d in s :: !OnlyExact(q, s, d))
  }

  /** The closed form: two of the four score tests decide nothing that the margin has not decided. */
  lemma PickIsChosen(q: Query, s: seq<Candidate>, c: Candidate)
    requires |s| >= 2 && DistinctIds(s)
    ensures RankAndPick(q, s).resolved == Some(c) <==> Chosen(q, s, c)
  {
    var ranked := Ranked(q, s);
    RankedSorts(q, s);
    DistinctPermuted(s, ranked);
    SamePermuted(q, s, ranked);
    OneExactMatch(q, s);
    TopTwoDecide(q, ranked);
  }

  /** The pick does not depend on the order in which the directory returned the candidates. */
  lemma PickIgnoresOrder(q: Query, s: seq<Candidate>, r: seq<Candidate>)
    requires multiset(s) == multiset(r) && DistinctIds(s)
    ensures RankAndPick(q, s).resolved == RankAndPick(q, r).resolved
  {
    assert |s| == |multiset(s)| == |multiset(r)| == |r|;
    SamePermuted(q, s, r);
    DistinctPermuted(s, r);
    if |s| == 1 {
      assert s[0] in r;
    } else if |s| >= 2 {
      var (a, b) := (RankAndPick(q, s).resolved, RankAndPick(q, r).resolved);
      if a.Some? {
        PickIsChosen(q, s, a.value);
        PickIsChosen(q, r, a.value);
      }
      if b.Some? {
        PickIsChosen(q, s, b.value);
        PickIsChosen(q, r, b.value);
      }
    }
  }

  /** Nobody is picked from nobody, and a single candidate is picked whatever its score. */
  lemma SmallPicks(q: Query, c: Candidate)
    ensures RankAndPick(q, []).resolved == None && RankAndPick(q, [c]).resolved == Some(c)
  {
  }

  /** The candidates offered are all of them: as they came when one was exact, else in order of score and name. */
  lemma PickOffersAll(q: Query, s: seq<Candidate>)
    ensures var ranked := RankAndPick(q, s).ranked;
            && multiset(ranked) == multiset(s)
            && (|s| <= 1 || |Exact(q, s)| == 1 ==> ranked == s)
            && (|s| >= 2 && |Exact(q, s)| != 1 ==> InOrder(q, ranked))
  {
    RankedSorts(q, s);
  }

  /** The pick without the two score tests that come after the margin test. */
  function PickByMargin(q: Query, candidates: seq<Candidate>): Pick {
    if candidates == [] then Pick(None, [])
    else if |candidates| == 1 then Pick(Some(candidates[0]), candidates)
    else
      var exact := Exact(q, candidates);
      if |exact| == 1 then Pick(Some(exact[0]), candidates)
      else
        var ranked := Ranked(q, candidates);
        var (top, second) := (Score(q, ranked[0]), Score(q, ranked[1]));
        if !(top <= 0 && second <= 0) && top - second >= AUTO_PICK_MARGIN then Pick(Some(ranked[0]), ranked)
        else Pick(None, ranked)
  }

  /** For all candidates whatever, the tests after the margin test change nothing. */
  lemma LaterTestsAreIdle(q: Query, candidates: seq<Candidate>)
    ensures RankAndPick(q, candidates) == PickByMargin(q, candidates)
  {
    RankedSorts(q, candidates);
    if |candidates| >= 2 {
      var ranked := Ranked(q, candidates);
      assert !Before(q, ranked[1], ranked[0]);
      IdleTests(Score(q, ranked[0]), Score(q, ranked[1]));
    }
  }

  lemma IdleTests(top: int, second: int)
    ensures second <= top && !(top <= 0 && second <= 0) && top - second < AUTO_PICK_MARGIN ==>
              !(second == 0 && top >= WEIGHT_EXACT)
  {
  }

  // ----- where distinct ids come from -----

  function Ids(s: seq<Candidate>): set<string> {
    set c | c in s :: c.id
  }

  /** First occurrences by id, skipping entries without one. */
  function Unique(raw: seq<Candidate>): seq<Candidate> {
    if raw == [] then []
    else
      var (front, last) := (Unique(raw[..|raw| - 1]), raw[|raw| - 1]);
      if last.id == "" || last.id in Ids(front) then front else front + [last]
  }

  method UniqueCandidates(raw: seq<Candidate>) returns (mentions: seq<Candidate>)
    ensures mentions == Unique(raw)
  {
    mentions := [];
    var seenIds: set<string> := {};
    for i := 0 to |raw|
      invariant mentions == Unique(raw[..i]) && seenIds == Ids(mentions)
    {
      assert raw[..i + 1][..i] == raw[..i];
      var id := raw[i].id;
      if id != "" && id !in seenIds {
        IdsSnoc(mentions, raw[i]);
        seenIds := seenIds + {id};
        mentions := mentions + [raw[i]];
      }
    }
    assert raw[..|raw|] == raw;
  }

  lemma IdsSnoc(s: seq<Candidate>, c: Candidate)
    ensures Ids(s + [c]) == Ids(s) + {c.id}
  {
    assert c in s + [c];
    assert forall d | d in s :: d in s + [c];
  }

  /** Deduplication loses no id but the missing one. */
  lemma {:induction false} UniqueKeepsIds(raw: seq<Candidate>)
    ensures Ids(Unique(raw)) == Ids(raw) - {""}
  {
    if raw != [] {
      var (front, last) := (raw[..|raw| - 1], raw[|raw| - 1]);
      UniqueKeepsIds(front);
      assert raw == front + [last];
      IdsSnoc(front, last);
      IdsSnoc(Unique(front), last);
    }
  }

  /** Deduplication yields distinct ids, so a pick from its result ignores order. */
  lemma {:induction false} UniqueIsDistinct(raw: seq<Candidate>)
    ensures DistinctIds(Unique(raw))
  {
    if raw != [] {
      var front := Unique(raw[..|raw| - 1]);
      UniqueIsDistinct(raw[..|raw| - 1]);
      assert forall i | 0 <= i < |front| :: front[i] in front && front[i].id in Ids(front);
    }
  }
}
