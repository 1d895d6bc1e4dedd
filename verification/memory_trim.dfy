/** Trimming a conversation: whole turns from the oldest end, long tool results cut short. */
module MemoryTrim {
  import opened Texts
  import Ids = TaskIds

  /** Message content: plain text, or structured parts of which only the printed length matters here. */
  datatype Content = Plain(text: string) | Parts(printed: nat)

  datatype Message =
    | User(content: Content)
    | Model(content: Content)
    | Tool(content: Content, functionId: string)

  type Turn = seq<Message>

  // ----- turns -----

  /** What the splitting loop has closed, and the turn it is still filling. */
  function Split(messages: seq<Message>): (r: (seq<Turn>, Turn))
    ensures messages != [] ==> r.1 != []
  {
    if messages == [] then ([], [])
    else
      var (closed, current) := Split(messages[..|messages| - 1]);
      var m := messages[|messages| - 1];
      if m.User? && current != [] then (closed + [current], [m]) else (closed, current + [m])
  }

  function Turns(messages: seq<Message>): seq<Turn> {
    var (closed, current) := Split(messages);
    if current == [] then closed else closed + [current]
  }

  function Flatten(turns: seq<Turn>): seq<Message> {
    if turns == [] then [] else Flatten(turns[..|turns| - 1]) + turns[|turns| - 1]
  }

  /** A turn: not empty, and no user message after its first message. */
  predicate IsTurn(t: Turn) {
    t != [] && forall i | 0 < i < |t| :: !t[i].User?
  }

  /** Turns as splitting produces them: each but the first opens with a user message. */
  predicate WellFormed(turns: seq<Turn>) {
    && (forall i | 0 <= i < |turns| :: IsTurn(turns[i]))
    && (forall i | 0 < i < |turns| :: turns[i][0].User?)
  }

  method SplitIntoTurns(messages: seq<Message>) returns (turns: seq<Turn>)
    ensures turns == Turns(messages)
  {
    turns := [];
    var current: Turn := [];
    for i := 0 to |messages|
      invariant (turns, current) == Split(messages[..i])
    {
      assert messages[..i + 1][..i] == messages[..i];
      if messages[i].User? && current != [] {
        turns := turns + [current];
        current := [messages[i]];
      } else {
        current := current + [messages[i]];
      }
    }
    assert messages[..|messages|] == messages;
    if current != [] {
      turns := turns + [current];
    }
  }

  lemma FlattenSnoc(turns: seq<Turn>, t: Turn)
    ensures Flatten(turns + [t]) == Flatten(turns) + t
  {
    assert (turns + [t])[..|turns|] == turns;
  }

  lemma {:induction false} FlattenSplit(messages: seq<Message>)
    ensures var (closed, current) := Split(messages); Flatten(closed) + current == messages
  {
    if messages != [] {
      var front, m := messages[..|messages| - 1], messages[|messages| - 1];
      FlattenSplit(front);
      var (closed, current) := Split(front);
      FlattenSnoc(closed, current);
      assert messages == front + [m];
    }
  }

  /** Splitting loses nothing: flattening the turns gives the messages back. */
  lemma FlattenOfTurns(messages: seq<Message>)
    ensures Flatten(Turns(messages)) == messages
  {
    var (closed, current) := Split(messages);
    FlattenSplit(messages);
    FlattenSnoc(closed, current);
  }

  lemma {:induction false} SplitWellFormed(messages: seq<Message>)
    ensures var (closed, current) := Split(messages);
            if current == [] then closed == [] else WellFormed(closed + [current])
  {
    if messages != [] {
      var front, m := messages[..|messages| - 1], messages[|messages| - 1];
      SplitWellFormed(front);
      var (closed, current) := Split(front);
      if current != [] {
        var before := closed + [current];
        assert before[|closed|] == current;
        var (closed', current') := Split(messages);
        var after := closed' + [current'];
        forall i | 0 <= i < |after|
          ensures IsTurn(after[i]) && (i > 0 ==> after[i][0].User?)
        {
          assert i < |before| ==> IsTurn(before[i]) && (i > 0 ==> before[i][0].User?);
        }
      }
    }
  }

  lemma TurnsWellFormed(messages: seq<Message>)
    ensures WellFormed(Turns(messages))
  {
    SplitWellFormed(messages);
  }

  lemma SplitStep(front: seq<Message>, m: Message)
    ensures var (closed, current) := Split(front);
            Split(front + [m]) == if m.User? && current != []
                then (closed + [current], [m]) else (closed, current + [m])
  {
    assert (front + [m])[..|front|] == front;
  }

  /** Adding the messages of one more turn closes the turn before it. */
  lemma {:induction false} SplitTurn(messages: seq<Message>, t: Turn, k: nat)
    requires IsTurn(t) && 1 <= k <= |t| && (messages != [] ==> t[0].User?)
    ensures var (closed, current) := Split(messages);
            Split(messages + t[..k]) == (if current == [] then closed else closed + [current], t[..k])
  {
    assert t[..k] == t[..k - 1] + [t[k - 1]];
    assert messages + t[..k] == (messages + t[..k - 1]) + [t[k - 1]];
    SplitStep(messages + t[..k - 1], t[k - 1]);
    if k == 1 {
      assert messages + t[..0] == messages;
      assert Split(messages).1 + [t[0]] == if Split(messages).1 == [] then [t[0]] else Split(messages).1 + [t[0]];
    } else {
      SplitTurn(messages, t, k - 1);
    }
  }

  /** Flattening then splitting gives well-formed turns back. */
  lemma {:induction false} TurnsOfFlatten(turns: seq<Turn>)
    requires WellFormed(turns)
    ensures Turns(Flatten(turns)) == turns
  {
    if turns != [] {
      var front, t := turns[..|turns| - 1], turns[|turns| - 1];
      TurnsOfFlatten(front);
      assert front == [] ==> Flatten(front) == [];
      if front != [] && Flatten(front) == [] {
        FlattenNonEmpty(front);
      }
      SplitTurn(Flatten(front), t, |t|);
      assert t[..|t|] == t;
      assert front + [t] == turns;
    }
  }

  lemma FlattenNonEmpty(turns: seq<Turn>)
    requires turns != [] && IsTurn(turns[|turns| - 1])
    ensures Flatten(turns) != []
  {
  }

  // ----- tool results -----

  function Truncated(m: Message, maxChars: int): Message {
    if maxChars <= 0 || !m.Tool? then m
    else
      match m.content
      case Parts(_) => m
      case Plain(text) =>
        if |text| <= maxChars then m
        else Tool(Plain(text[..maxChars] + "\n...[truncated " + Dec(|text| - maxChars) + " chars]"), m.functionId)
  }

  predicate IsCutNote(note: string, digits: string, gone: int) {
    Ids.Value(digits) == gone && note == "\n...[truncated " + digits + " chars]"
  }

  /** The note tells how many characters are gone. */
  ghost predicate TellsGone(note: string, gone: int) {
    exists digits: string :: IsCutNote(note, digits, gone)
  }

  predicate TooLong(m: Message, maxChars: int) {
    maxChars > 0 && m.Tool? && m.content.Plain? && |m.content.text| > maxChars
  }

  lemma NoteTells(gone: nat) returns (note: string)
    ensures note == "\n...[truncated " + Dec(gone) + " chars]" && TellsGone(note, gone)
  {
    note := "\n...[truncated " + Dec(gone) + " chars]";
    Ids.DecValue(gone);
    assert IsCutNote(note, Dec(gone), gone);
  }

  /**
   * A plain tool result longer than the limit keeps its first characters, followed by a note of how
   * many are gone; every other message stays as it is.
   */
  lemma CutKeepsBeginning(m: Message, maxChars: int)
    ensures !TooLong(m, maxChars) ==> Truncated(m, maxChars) == m
    ensures TooLong(m, maxChars) ==>
              var (r, text) := (Truncated(m, maxChars), m.content.text);
              && r.Tool? && r.functionId == m.functionId && r.content.Plain? && |r.content.text| > maxChars
              && r.content.text[..maxChars] == text[..maxChars]
              && TellsGone(r.content.text[maxChars..], |text| - maxChars)
  {
    if TooLong(m, maxChars) {
      var text := m.content.text;
      var note := NoteTells(|text| - maxChars);
      CutText(text[..maxChars], note, Truncated(m, maxChars).content.text, |text| - maxChars);
    }
  }

  lemma CutText(kept: string, note: string, all: string, gone: nat)
    requires note == "\n...[truncated " + Dec(gone) + " chars]"
    ensures all == kept + "\n...[truncated " + Dec(gone) + " chars]" ==>
              |all| > |kept| && all[..|kept|] == kept && all[|kept|..] == note
  {
    assert kept + "\n...[truncated " + Dec(gone) + " chars]" == kept + note;
  }

  function TruncatedAll(messages: seq<Message>, maxChars: int): (r: seq<Message>)
    ensures |r| == |messages| && forall i | 0 <= i < |r| :: r[i] == Truncated(messages[i], maxChars)
  {
    seq(|messages|, i requires 0 <= i < |messages| => Truncated(messages[i], maxChars))
  }

  function TruncatedTurns(turns: seq<Turn>, maxChars: int): (r: seq<Turn>)
    ensures |r| == |turns| && forall i | 0 <= i < |r| :: r[i] == TruncatedAll(turns[i], maxChars)
  {
    seq(|turns|, i requires 0 <= i < |turns| => TruncatedAll(turns[i], maxChars))
  }

  lemma TruncatedWellFormed(turns: seq<Turn>, maxChars: int)
    requires WellFormed(turns)
    ensures WellFormed(TruncatedTurns(turns, maxChars))
  {
    var r := TruncatedTurns(turns, maxChars);
    forall i | 0 <= i < |r|
      ensures IsTurn(r[i]) && (i > 0 ==> r[i][0].User?)
    {
      assert IsTurn(turns[i]);
    }
  }

  lemma {:induction false} TruncatedFlatten(turns: seq<Turn>, maxChars: int)
    ensures TruncatedAll(Flatten(turns), maxChars) == Flatten(TruncatedTurns(turns, maxChars))
  {
    if turns != [] {
      var front, t := turns[..|turns| - 1], turns[|turns| - 1];
      TruncatedFlatten(front, maxChars);
      assert TruncatedTurns(turns, maxChars)[..|turns| - 1] == TruncatedTurns(front, maxChars);
      assert TruncatedAll(Flatten(front) + t, maxChars)
          == TruncatedAll(Flatten(front), maxChars) + TruncatedAll(t, maxChars);
    }
  }

  // ----- trimming -----

  function Length(c: Content): nat {
    match c
    case Plain(text) => |text|
    case Parts(n) => n
  }

  function Chars(messages: seq<Message>): nat {
    if messages == [] then 0 else Chars(messages[..|messages| - 1]) + Length(messages[|messages| - 1].content)
  }

  lemma {:induction false} CharsConcat(a: seq<Message>, b: seq<Message>)
    ensures Chars(a + b) == Chars(a) + Chars(b)
  {
    if b == [] {
      assert a + b == a;
    } else {
      CharsConcat(a, b[..|b| - 1]);
      assert (a + b)[..|a + b| - 1] == a + b[..|b| - 1];
    }
  }

  method ContentChars(turns: seq<Turn>) returns (n: nat)
    ensures n == Chars(Flatten(turns))
  {
    n := 0;
    for i := 0 to |turns|
      invariant n == Chars(Flatten(turns[..i]))
    {
      for j := 0 to |turns[i]|
        invariant n == Chars(Flatten(turns[..i])) + Chars(turns[i][..j])
      {
        assert turns[i][..j + 1][..j] == turns[i][..j];
        n := n + Length(turns[i][j].content);
      }
      FlattenSnoc(turns[..i], turns[i]);
      assert turns[..i + 1] == turns[..i] + [turns[i]] && turns[i][..|turns[i]|] == turns[i];
      CharsConcat(Flatten(turns[..i]), turns[i]);
    }
    assert turns[..|turns|] == turns;
  }

  /** The last `k` turns, tool results cut. */
  function Kept(messages: seq<Message>, k: nat, toolChars: int): seq<Message>
    requires k <= |Turns(messages)|
  {
    KeptOf(Turns(messages), k, toolChars)
  }

  function KeptOf(turns: seq<Turn>, k: nat, toolChars: int): seq<Message>
    requires k <= |turns|
  {
    TruncatedAll(Flatten(turns[|turns| - k..]), toolChars)
  }

  /** The most recent `k` turns respect both limits; a limit that is not positive is off. */
  predicate Fits(messages: seq<Message>, k: nat, maxTurns: int, toolChars: int, maxChars: int)
    requires k <= |Turns(messages)|
  {
    FitsOf(Turns(messages), k, maxTurns, toolChars, maxChars)
  }

  predicate FitsOf(turns: seq<Turn>, k: nat, maxTurns: int, toolChars: int, maxChars: int)
    requires k <= |turns|
  {
    && (maxTurns > 0 ==> k <= maxTurns)
    && (maxChars > 0 ==> Chars(KeptOf(turns, k, toolChars)) <= maxChars)
  }

  /** The largest number of turns up to `k` that fits, but at least one. */
  function Best(messages: seq<Message>, k: nat, maxTurns: int, toolChars: int, maxChars: int): (r: nat)
    requires k <= |Turns(messages)|
    ensures r <= k && (k >= 1 ==> r >= 1)
    ensures r > 1 ==> Fits(messages, r, maxTurns, toolChars, maxChars)
    ensures forall j | r < j <= k :: !Fits(messages, j, maxTurns, toolChars, maxChars)
  {
    BestOf(Turns(messages), k, maxTurns, toolChars, maxChars)
  }

  function BestOf(turns: seq<Turn>, k: nat, maxTurns: int, toolChars: int, maxChars: int): (r: nat)
    requires k <= |turns|
    ensures r <= k && (k >= 1 ==> r >= 1)
    ensures r > 1 ==> FitsOf(turns, r, maxTurns, toolChars, maxChars)
    ensures forall j | r < j <= k :: !FitsOf(turns, j, maxTurns, toolChars, maxChars)
  {
    if k <= 1 || FitsOf(turns, k, maxTurns, toolChars, maxChars) then k
    else BestOf(turns, k - 1, maxTurns, toolChars, maxChars)
  }

  function Trimmed(messages: seq<Message>, maxTurns: int, toolChars: int, maxChars: int): seq<Message> {
    if maxTurns <= 0 && maxChars <= 0 then messages
    else Kept(messages, Best(messages, |Turns(messages)|, maxTurns, toolChars, maxChars), toolChars)
  }

  lemma SuffixWellFormed(turns: seq<Turn>, i: nat)
    requires WellFormed(turns) && i <= |turns|
    ensures WellFormed(turns[i..])
  {
  }

  lemma TurnsOfTruncated(turns: seq<Turn>, toolChars: int)
    requires WellFormed(turns)
    ensures Turns(TruncatedAll(Flatten(turns), toolChars)) == TruncatedTurns(turns, toolChars)
    ensures TruncatedAll(Flatten(turns), toolChars) == Flatten(TruncatedTurns(turns, toolChars))
  {
    TruncatedFlatten(turns, toolChars);
    TruncatedWellFormed(turns, toolChars);
    TurnsOfFlatten(TruncatedTurns(turns, toolChars));
  }

  function LastTurns(messages: seq<Message>, k: nat, toolChars: int): (r: seq<Turn>)
    requires k <= |Turns(messages)|
    ensures |r| == k
  {
    LastOf(Turns(messages), k, toolChars)
  }

  function LastOf(turns: seq<Turn>, k: nat, toolChars: int): (r: seq<Turn>)
    requires k <= |turns|
    ensures |r| == k
  {
    TruncatedTurns(turns[|turns| - k..], toolChars)
  }

  /** The turns of what is kept are the kept turns, tool results cut. */
  lemma TurnsOfKept(messages: seq<Message>, k: nat, toolChars: int)
    requires k <= |Turns(messages)|
    ensures Turns(Kept(messages, k, toolChars)) == LastTurns(messages, k, toolChars)
    ensures Kept(messages, k, toolChars) == Flatten(LastTurns(messages, k, toolChars))
  {
    var turns := Turns(messages);
    TurnsWellFormed(messages);
    SuffixWellFormed(turns, |turns| - k);
    TurnsOfTruncated(turns[|turns| - k..], toolChars);
  }

  method TrimMessages(messages: seq<Message>, maxTurns: int, toolChars: int, maxChars: int)
    returns (trimmed: seq<Message>)
    ensures trimmed == Trimmed(messages, maxTurns, toolChars, maxChars)
  {
    if maxTurns <= 0 && maxChars <= 0 {
      return messages;
    }
    var turns := SplitIntoTurns(messages);
    var keptTurns := if maxTurns > 0 && |turns| > maxTurns then turns[|turns| - maxTurns..] else turns;
    trimmed := TruncateTurns(keptTurns, toolChars);
    ghost var k := |keptTurns|;
    assert keptTurns == turns[|turns| - k..];
    assert trimmed == Kept(messages, k, toolChars);
    TurnLimit(messages, |turns|, k, maxTurns, toolChars, maxChars);
    if maxChars > 0 {
      var boundedTurns := SplitIntoTurns(trimmed);
      boundedTurns := DropOldTurns(boundedTurns, maxChars);
      trimmed := FlattenTurns(boundedTurns);
      TurnsOfKept(messages, k, toolChars);
      BoundedIsBest(messages, k, maxTurns, toolChars, maxChars);
      TurnsOfKept(messages, Best(messages, k, maxTurns, toolChars, maxChars), toolChars);
    }
  }

  /** The turn limit alone skips straight to the last `k` turns. */
  lemma {:induction false} TurnLimit(messages: seq<Message>, n: nat, k: nat, maxTurns: int, toolChars: int,
                                     maxChars: int)
    requires k <= n <= |Turns(messages)|
    requires k == n || 1 <= k == maxTurns
    ensures Best(messages, n, maxTurns, toolChars, maxChars) == Best(messages, k, maxTurns, toolChars, maxChars)
    ensures maxChars <= 0 && (maxTurns > 0 ==> k <= maxTurns) ==> Best(messages, k, maxTurns, toolChars, maxChars) == k
  {
    if k < n {
      TurnLimit(messages, n - 1, k, maxTurns, toolChars, maxChars);
    }
  }

  lemma TruncatedSnoc(messages: seq<Message>, m: Message, toolChars: int)
    ensures TruncatedAll(messages + [m], toolChars) == TruncatedAll(messages, toolChars) + [Truncated(m, toolChars)]
  {
  }

  lemma TruncatedConcat(a: seq<Message>, b: seq<Message>, toolChars: int)
    ensures TruncatedAll(a + b, toolChars) == TruncatedAll(a, toolChars) + TruncatedAll(b, toolChars)
  {
  }

  method TruncateTurns(turns: seq<Turn>, toolChars: int) returns (trimmed: seq<Message>)
    ensures trimmed == TruncatedAll(Flatten(turns), toolChars)
  {
    trimmed := [];
    for i := 0 to |turns|
      invariant trimmed == TruncatedAll(Flatten(turns[..i]), toolChars)
    {
      ghost var before := trimmed;
      for j := 0 to |turns[i]|
        invariant trimmed == before + TruncatedAll(turns[i][..j], toolChars)
      {
        assert turns[i][..j + 1] == turns[i][..j] + [turns[i][j]];
        TruncatedSnoc(turns[i][..j], turns[i][j], toolChars);
        trimmed := trimmed + [Truncated(turns[i][j], toolChars)];
      }
      assert turns[i][..|turns[i]|] == turns[i];
      assert turns[..i + 1] == turns[..i] + [turns[i]];
      FlattenSnoc(turns[..i], turns[i]);
      TruncatedConcat(Flatten(turns[..i]), turns[i], toolChars);
    }
    assert turns[..|turns|] == turns;
  }

  method FlattenTurns(turns: seq<Turn>) returns (messages: seq<Message>)
    ensures messages == Flatten(turns)
  {
    messages := [];
    for i := 0 to |turns|
      invariant messages == Flatten(turns[..i])
    {
      FlattenSnoc(turns[..i], turns[i]);
      assert turns[..i + 1] == turns[..i] + [turns[i]];
      messages := messages + turns[i];
    }
    assert turns[..|turns|] == turns;
  }

  /** Oldest turns dropped until the rest fits or one is left. */
  function Bounded(turns: seq<Turn>, maxChars: int): seq<Turn> {
    if |turns| <= 1 || Chars(Flatten(turns)) <= maxChars then turns else Bounded(turns[1..], maxChars)
  }

  method DropOldTurns(turns: seq<Turn>, maxChars: int) returns (bounded: seq<Turn>)
    ensures bounded == Bounded(turns, maxChars)
  {
    bounded := turns;
    while true
      invariant Bounded(turns, maxChars) == Bounded(bounded, maxChars)
      decreases |bounded|
    {
      var chars := ContentChars(bounded);
      if |bounded| <= 1 || chars <= maxChars {
        return;
      }
      bounded := bounded[1..];
    }
  }

  lemma DropFirst(turns: seq<Turn>, k: nat, toolChars: int)
    requires 1 <= k <= |turns|
    ensures LastOf(turns, k, toolChars)[1..] == LastOf(turns, k - 1, toolChars)
  {
    assert turns[|turns| - k..][1..] == turns[|turns| - (k - 1)..];
  }

  lemma CharsOfLast(turns: seq<Turn>, k: nat, toolChars: int)
    requires k <= |turns|
    ensures Flatten(LastOf(turns, k, toolChars)) == KeptOf(turns, k, toolChars)
  {
    TruncatedFlatten(turns[|turns| - k..], toolChars);
  }

  /** One turn fewer, in both ways of counting down. */
  lemma OneTurnFewer(turns: seq<Turn>, k: nat, maxTurns: int, toolChars: int, maxChars: int)
    requires 1 < k <= |turns| && maxChars > 0 && Chars(KeptOf(turns, k, toolChars)) > maxChars
    ensures Bounded(LastOf(turns, k, toolChars), maxChars) == Bounded(LastOf(turns, k - 1, toolChars), maxChars)
    ensures BestOf(turns, k, maxTurns, toolChars, maxChars) == BestOf(turns, k - 1, maxTurns, toolChars, maxChars)
  {
    CharsOfLast(turns, k, toolChars);
    DropFirst(turns, k, toolChars);
  }

  lemma {:induction false} BoundedIsBestOf(turns: seq<Turn>, k: nat, maxTurns: int, toolChars: int, maxChars: int)
    requires k <= |turns| && (maxTurns > 0 ==> k <= maxTurns) && maxChars > 0
    ensures Bounded(LastOf(turns, k, toolChars), maxChars)
         == LastOf(turns, BestOf(turns, k, maxTurns, toolChars, maxChars), toolChars)
    decreases k
  {
    if k > 1 && Chars(KeptOf(turns, k, toolChars)) > maxChars {
      OneTurnFewer(turns, k, maxTurns, toolChars, maxChars);
      BoundedIsBestOf(turns, k - 1, maxTurns, toolChars, maxChars);
    } else {
      CharsOfLast(turns, k, toolChars);
      assert BestOf(turns, k, maxTurns, toolChars, maxChars) == k;
    }
  }

  /** Dropping by characters arrives at the best number of turns. */
  lemma BoundedIsBest(messages: seq<Message>, k: nat, maxTurns: int, toolChars: int, maxChars: int)
    requires k <= |Turns(messages)| && (maxTurns > 0 ==> k <= maxTurns) && maxChars > 0
    ensures Bounded(LastTurns(messages, k, toolChars), maxChars)
            == LastTurns(messages, Best(messages, k, maxTurns, toolChars, maxChars), toolChars)
  {
    BoundedIsBestOf(Turns(messages), k, maxTurns, toolChars, maxChars);
  }

  // ----- what trimming means -----

  /**
   * With a limit on, the result is the longest run of most recent whole turns that respects both
   * limits, or the last turn alone when none does, each message cut pointwise.
   */
  lemma TrimmedIsLongestSuffix(messages: seq<Message>, maxTurns: int, toolChars: int, maxChars: int) returns (k: nat)
    requires maxTurns > 0 || maxChars > 0
    ensures k <= |Turns(messages)| && (messages != [] ==> k >= 1)
    ensures Trimmed(messages, maxTurns, toolChars, maxChars) == Kept(messages, k, toolChars)
    ensures k > 1 ==> Fits(messages, k, maxTurns, toolChars, maxChars)
    ensures forall j | k < j <= |Turns(messages)| :: !Fits(messages, j, maxTurns, toolChars, maxChars)
  {
    k := Best(messages, |Turns(messages)|, maxTurns, toolChars, maxChars);
    FlattenOfTurns(messages);
  }

  lemma {:induction false} FlattenConcat(a: seq<Turn>, b: seq<Turn>)
    ensures Flatten(a + b) == Flatten(a) + Flatten(b)
    decreases |b|
  {
    if b == [] {
      assert a + b == a;
    } else {
      var front, last := b[..|b| - 1], b[|b| - 1];
      assert b == front + [last] && a + b == a + front + [last];
      FlattenConcat(a, front);
      FlattenSnoc(front, last);
      FlattenSnoc(a + front, last);
    }
  }

  lemma KeptIsSuffix(messages: seq<Message>, k: nat, toolChars: int)
    requires k <= |Turns(messages)|
    ensures exists cut ::
              0 <= cut <= |messages| && Kept(messages, k, toolChars) == TruncatedAll(messages[cut..], toolChars)
    ensures k >= 1 ==> Kept(messages, k, toolChars) != []
  {
    var turns := Turns(messages);
    var dropped, kept := turns[..|turns| - k], turns[|turns| - k..];
    assert dropped + kept == turns;
    FlattenOfTurns(messages);
    FlattenConcat(dropped, kept);
    assert messages[|Flatten(dropped)|..] == Flatten(kept);
    TurnsWellFormed(messages);
    if k >= 1 { FlattenNonEmpty(kept); }
  }

  /** What trimming leaves is an end of the conversation, cut pointwise; nothing but an empty one leaves nothing. */
  lemma TrimmedIsSuffix(messages: seq<Message>, maxTurns: int, toolChars: int, maxChars: int)
    requires maxTurns > 0 || maxChars > 0
    ensures var r := Trimmed(messages, maxTurns, toolChars, maxChars);
            && (exists cut :: 0 <= cut <= |messages| && r == TruncatedAll(messages[cut..], toolChars))
            && (messages != [] ==> r != [])
  {
    var k := TrimmedIsLongestSuffix(messages, maxTurns, toolChars, maxChars);
    KeptIsSuffix(messages, k, toolChars);
  }

  lemma NoTruncation(messages: seq<Message>, toolChars: int)
    requires toolChars <= 0
    ensures TruncatedAll(messages, toolChars) == messages
  {
  }

  lemma KeepAll(messages: seq<Message>, toolChars: int)
    requires toolChars <= 0
    ensures Kept(messages, |Turns(messages)|, toolChars) == messages
  {
    FlattenOfTurns(messages);
    assert Turns(messages)[0..] == Turns(messages);
    NoTruncation(messages, toolChars);
  }

  /** With tool results left alone, trimming twice is trimming once. */
  lemma TrimIsIdempotent(messages: seq<Message>, maxTurns: int, toolChars: int, maxChars: int)
    requires toolChars <= 0
    ensures var once := Trimmed(messages, maxTurns, toolChars, maxChars);
            Trimmed(once, maxTurns, toolChars, maxChars) == once
  {
    if maxTurns > 0 || maxChars > 0 {
      var k := TrimmedIsLongestSuffix(messages, maxTurns, toolChars, maxChars);
      var once := Kept(messages, k, toolChars);
      TurnsOfKept(messages, k, toolChars);
      KeepAll(once, toolChars);
      FitStays(once, k, maxTurns, toolChars, maxChars);
    }
  }

  lemma FitStays(once: seq<Message>, k: nat, maxTurns: int, toolChars: int, maxChars: int)
    requires k == |Turns(once)| && Kept(once, k, toolChars) == once
    requires k > 1 ==> (maxTurns > 0 ==> k <= maxTurns) && (maxChars > 0 ==> Chars(once) <= maxChars)
    ensures Trimmed(once, maxTurns, toolChars, maxChars) == once
  {
  }

  // ----- the memory object -----

  class ListMemory {
    var messages: seq<Message>

    /** Trims in place and returns how many messages went. */
    method Trim(maxTurns: int, toolChars: int, maxChars: int) returns (removed: int)
      modifies this
      ensures messages == Trimmed(old(messages), maxTurns, toolChars, maxChars)
      ensures removed == |old(messages)| - |messages| && removed >= 0
    {
      if maxTurns > 0 || maxChars > 0 {
        TrimmedIsSuffix(messages, maxTurns, toolChars, maxChars);
      }
      if messages == [] {
        return 0;
      }
      var trimmed := TrimMessages(messages, maxTurns, toolChars, maxChars);
      removed := |messages| - |trimmed|;
      if removed <= 0 && trimmed == messages {
        return 0;
      }
      messages := trimmed;
    }
  }
}
