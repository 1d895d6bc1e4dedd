/** Response receipts: one card action is answered once, and repeated deliveries get the stored answer. */
module Coordinator {
  import Outbox

  /** In microseconds. */
  const CLAIM_TIMEOUT: int := 5 * 60_000_000

  const IN_PROGRESS := "IN_PROGRESS"
  const BEING_PROCESSED := "This action is already being processed."

  /** A receipt row; a payload without a text or code is one with an empty text or code. */
  datatype Receipt = Receipt(code: string, text: string, processedAt: int)

  datatype Stored = Stored(code: string, text: string)

  type Receipts = map<string, Receipt>

  function Answer(r: Receipt): Stored {
    Stored(if r.code == "" then IN_PROGRESS else r.code, if r.text == "" then BEING_PROCESSED else r.text)
  }

  // ----- which action a key stands for -----

  /** The text that is hashed into the key; hashing is taken to be injective. */
  function ActionKey(token: string, activity: string, actor: string, verb: string, reference: string): string {
    "card:" + StableToken(token, activity, reference) + ":" + actor + ":" + verb + ":" + reference
  }

  function StableToken(token: string, activity: string, reference: string): string {
    if token != "" then token else if reference != "" then "legacy:" + reference else "legacy:" + activity
  }

  /** The parts of an action that its key is made of. */
  datatype CardAction = CardAction(token: string, activity: string, actor: string, verb: string, reference: string) {
    function Key(): string { ActionKey(token, activity, actor, verb, reference) }

    function Stable(): string { StableToken(token, activity, reference) }

    /** Verbs are fixed words and references are draft or task ids; actor and token are unrestricted. */
    predicate PlainVerb() { ':' !in verb && ':' !in reference }
  }

  /** Two deliveries share a key exactly when verb, reference and the joined token and actor agree. */
  lemma ActionKeyIdentifies(a: CardAction, b: CardAction)
    requires a.PlainVerb() && b.PlainVerb()
    ensures a.Key() == b.Key()
       <==> a.Stable() + ":" + a.actor == b.Stable() + ":" + b.actor && a.verb == b.verb && a.reference == b.reference
  {
    var s, t := "card:" + a.Stable() + ":" + a.actor, "card:" + b.Stable() + ":" + b.actor;
    if a.Key() == b.Key() {
      Outbox.ColonSplit(s + ":" + a.verb, a.reference, t + ":" + b.verb, b.reference);
      Outbox.ColonSplit(s, a.verb, t, b.verb);
      assert s[5..] == a.Stable() + ":" + a.actor && t[5..] == b.Stable() + ":" + b.actor;
    } else if a.Stable() + ":" + a.actor == b.Stable() + ":" + b.actor {
      assert s == "card:" + (a.Stable() + ":" + a.actor) && t == "card:" + (b.Stable() + ":" + b.actor);
    }
  }

  /**
   * Among deliveries that share a key, token and actor agree exactly when the tokens are equally
   * long. Tokens minted for cards always are.
   */
  lemma EqualKeysEqualActions(a: CardAction, b: CardAction)
    requires a.PlainVerb() && b.PlainVerb() && a.Key() == b.Key()
    ensures a.Stable() == b.Stable() && a.actor == b.actor <==> |a.Stable()| == |b.Stable()|
    ensures a.verb == b.verb && a.reference == b.reference
  {
    ActionKeyIdentifies(a, b);
    var s, t := a.Stable() + ":" + a.actor, b.Stable() + ":" + b.actor;
    if |a.Stable()| == |b.Stable()| {
      assert s[..|a.Stable()|] == a.Stable() && t[..|b.Stable()|] == b.Stable();
      assert s[|a.Stable()| + 1..] == a.actor && t[|b.Stable()| + 1..] == b.actor;
    }
  }

  /** With tokens of different lengths, actions of different users can share a key. */
  lemma UnequalTokensCanCollide()
    ensures var a, b := CardAction("t:a", "", "b", "task.close", "r"), CardAction("t", "", "a:b", "task.close", "r");
            a.PlainVerb() && b.PlainVerb() && a.actor != b.actor && a.Key() == b.Key()
  {
    var a, b := CardAction("t:a", "", "b", "task.close", "r"), CardAction("t", "", "a:b", "task.close", "r");
    assert a.Stable() + ":" + a.actor == "t:a:b" == b.Stable() + ":" + b.actor;
    ActionKeyIdentifies(a, b);
  }

  lemma StableInKey(a: CardAction)
    ensures |a.Key()| == 8 + |a.Stable()| + |a.actor| + |a.verb| + |a.reference|
    ensures a.Key()[5..5 + |a.Stable()|] == a.Stable()
  {
  }

  /** A redelivery under another activity id keeps its key just when the card carries a token or a reference. */
  lemma RedeliveryKeepsKey(a: CardAction, b: CardAction)
    requires b == a.(activity := b.activity) && a.activity != b.activity
    ensures a.Key() == b.Key() <==> a.token != "" || a.reference != ""
  {
    StableInKey(a);
    StableInKey(b);
    assert ("legacy:" + a.activity)[7..] == a.activity && ("legacy:" + b.activity)[7..] == b.activity;
    assert a.Stable() == b.Stable() <==> a.token != "" || a.reference != "";
  }

  // ----- transactions -----

  /**
   * `Claim` reads the clock and, a moment later, stamps the row it writes. `Insert` is the commit of
   * a claim that found no row when it looked.
   */
  datatype Command =
    | Claim(key: string, readAt: int, wroteAt: int)
    | Insert(key: string, wroteAt: int)
    | Complete(key: string, code: string, text: string, at: int)

  datatype Reply = Granted | Refused(stored: Stored) | Silent

  predicate Stale(r: Receipt, now: int) {
    r.code == IN_PROGRESS && r.processedAt < now - CLAIM_TIMEOUT
  }

  function Apply(enabled: bool, s: Receipts, c: Command): (Receipts, Reply) {
    if !enabled then (s, if c.Complete? then Silent else Granted)
    else
      match c
      case Claim(key, readAt, wroteAt) =>
        if key !in s || Stale(s[key], readAt) then (s[key := Receipt(IN_PROGRESS, "", wroteAt)], Granted)
        else (s, Refused(Answer(s[key])))
      case Insert(key, wroteAt) =>
        if key in s then (s, Refused(Stored(IN_PROGRESS, BEING_PROCESSED)))
        else (s[key := Receipt(IN_PROGRESS, "", wroteAt)], Granted)
      case Complete(key, code, text, at) =>
        (if key in s then s[key := Receipt(code, text, at)] else s, Silent)
  }

  function Run(enabled: bool, s: Receipts, commands: seq<Command>): Receipts {
    if commands == [] then s
    else Apply(enabled, Run(enabled, s, commands[..|commands| - 1]), commands[|commands| - 1]).0
  }

  function ReplyAt(enabled: bool, s: Receipts, commands: seq<Command>, i: nat): Reply
    requires i < |commands|
  {
    Apply(enabled, Run(enabled, s, commands[..i]), commands[i]).1
  }

  /** The clock never runs backwards within one claim. */
  predicate ClockOk(commands: seq<Command>) {
    forall c | c in commands && c.Claim? :: c.readAt <= c.wroteAt
  }

  /** With receipts switched off, every claim is granted and nothing is stored. */
  lemma {:induction false} NoReceiptsWhenDisabled(s: Receipts, commands: seq<Command>)
    ensures Run(false, s, commands) == s
    ensures forall i: nat | i < |commands| && !commands[i].Complete? :: ReplyAt(false, s, commands, i) == Granted
  {
    if commands != [] {
      NoReceiptsWhenDisabled(s, commands[..|commands| - 1]);
    }
  }

  // ----- claims are exclusive for five minutes -----

  /** No completion of `key` from `i` on: the row is then in progress, stamped at or after `since`. */
  lemma {:induction false} HeldSince(s: Receipts, commands: seq<Command>, key: string, i: nat, j: nat, since: int)
    requires ClockOk(commands) && i < j <= |commands|
    requires commands[i].key == key && ReplyAt(true, s, commands, i) == Granted && commands[i].wroteAt == since
    requires forall x | i < x < j && commands[x].Complete? :: commands[x].key != key
    ensures var r := Run(true, s, commands[..j]); key in r && r[key].code == IN_PROGRESS && since <= r[key].processedAt
    decreases j
  {
    assert commands[..j][..j - 1] == commands[..j - 1];
    var c := commands[j - 1];
    assert c in commands;
    if j - 1 > i {
      HeldSince(s, commands, key, i, j - 1, since);
    }
  }

  /**
   * Two granted claims of one action, with no completion between them, are more than five minutes
   * apart: from the stamp of the first to the reading of the second.
   */
  lemma GrantsAreFarApart(s: Receipts, commands: seq<Command>, i: nat, j: nat)
    requires ClockOk(commands) && i < j < |commands|
    requires commands[i].key == commands[j].key && !commands[i].Complete? && !commands[j].Complete?
    requires forall x | i < x < j && commands[x].Complete? :: commands[x].key != commands[i].key
    requires ReplyAt(true, s, commands, i) == Granted && ReplyAt(true, s, commands, j) == Granted
    ensures commands[j].Claim? && commands[i].wroteAt + CLAIM_TIMEOUT < commands[j].readAt
  {
    HeldSince(s, commands, commands[i].key, i, j, commands[i].wroteAt);
  }

  // ----- completed actions stay completed -----

  /** What the completions of `key` among `commands` leave of a row. */
  function LastCompletion(r: Receipt, commands: seq<Command>, key: string): Receipt {
    if commands == [] then r
    else
      var c := commands[|commands| - 1];
      if c.Complete? && c.key == key then Receipt(c.code, c.text, c.at)
      else LastCompletion(r, commands[..|commands| - 1], key)
  }

  lemma {:induction false} SettledRow(s: Receipts, commands: seq<Command>, key: string)
    requires key in s && s[key].code != IN_PROGRESS
    requires forall c | c in commands && c.Complete? && c.key == key :: c.code != IN_PROGRESS
    ensures var r := Run(true, s, commands);
            key in r && r[key] == LastCompletion(s[key], commands, key) && r[key].code != IN_PROGRESS
  {
    if commands != [] {
      SettledRow(s, commands[..|commands| - 1], key);
      assert commands[|commands| - 1] in commands;
    }
  }

  /**
   * After a completion under a code other than in-progress, every claim is refused with the latest
   * completed response.
   */
  lemma CompletedIsFinal(s: Receipts, commands: seq<Command>, key: string, i: nat)
    requires key in s && s[key].code != IN_PROGRESS
    requires forall c | c in commands && c.Complete? && c.key == key :: c.code != IN_PROGRESS
    requires i < |commands| && commands[i].key == key && commands[i].Claim?
    ensures ReplyAt(true, s, commands, i) == Refused(Answer(LastCompletion(s[key], commands[..i], key)))
  {
    SettledRow(s, commands[..i], key);
  }

  /** A completion settles a row exactly when there is one; a code of in-progress leaves it open to a later claim. */
  lemma CompletionSettles(s: Receipts, key: string, code: string, text: string, at: int, readAt: int, wroteAt: int)
    requires at + CLAIM_TIMEOUT < readAt
    ensures var r := Apply(true, s, Complete(key, code, text, at)).0;
            Apply(true, r, Claim(key, readAt, wroteAt)).1 == Granted <==> key !in s || code == IN_PROGRESS
  {
  }

  // ----- what a refused claim is told -----

  /** A claim, granted or not, leaves a row of its key, and rows are never removed. */
  lemma {:induction false} RowExists(s: Receipts, commands: seq<Command>, key: string, g: nat, j: nat)
    requires g < j <= |commands| && commands[g].key == key && !commands[g].Complete?
    ensures key in Run(true, s, commands[..j])
    decreases j
  {
    assert commands[..j][..j - 1] == commands[..j - 1];
    if g < j - 1 { RowExists(s, commands, key, g, j - 1); }
  }

  lemma RowKept(s: Receipts, c: Command, key: string)
    requires key in s
    ensures var (r, reply) := Apply(true, s, c);
            && key in r
            && (c.key != key || (!c.Complete? && (s[key].code != IN_PROGRESS || reply != Granted)) ==> r[key] == s[key])
  {
  }

  lemma RunOneMore(s: Receipts, commands: seq<Command>, j: nat)
    requires 0 < j <= |commands|
    ensures Run(true, s, commands[..j]) == Apply(true, Run(true, s, commands[..j - 1]), commands[j - 1]).0
  {
    assert commands[..j][..j - 1] == commands[..j - 1];
  }

  /** A settled row stays as completed while only claims come. */
  lemma {:induction false} CompletedRow(s: Receipts, commands: seq<Command>, m: nat, j: nat)
    requires m < j <= |commands| && commands[m].Complete? && commands[m].code != IN_PROGRESS
    requires commands[m].key in Run(true, s, commands[..m])
    requires forall x | m < x < j && commands[x].Complete? :: commands[x].key != commands[m].key
    ensures var (r, c) := (Run(true, s, commands[..j]), commands[m]);
            c.key in r && r[c.key] == Receipt(c.code, c.text, c.at)
    decreases j
  {
    RunOneMore(s, commands, j);
    if m < j - 1 {
      CompletedRow(s, commands, m, j - 1);
      RowKept(Run(true, s, commands[..j - 1]), commands[j - 1], commands[m].key);
    }
  }

  /**
   * A claim that follows a claim and then a completion of its action is refused with the code and the
   * text of the last completion; an empty code or an empty text is answered as still in progress.
   */
  lemma ClaimGetsLastResponse(s: Receipts, commands: seq<Command>, g: nat, m: nat, i: nat)
    requires g < m < i < |commands|
    requires commands[g].key == commands[m].key == commands[i].key
    requires !commands[g].Complete? && commands[m].Complete? && commands[i].Claim?
    requires commands[m].code != "IN_PROGRESS"
    requires forall x | m < x < i && commands[x].Complete? :: commands[x].key != commands[m].key
    ensures ReplyAt(true, s, commands, i).Refused?
    ensures var (stored, c) := (ReplyAt(true, s, commands, i).stored, commands[m]);
            && (c.code != "" ==> stored.code == c.code) && (c.text != "" ==> stored.text == c.text)
            && (c.code == "" ==> stored.code == "IN_PROGRESS")
            && (c.text == "" ==> stored.text == "This action is already being processed.")
  {
    RowExists(s, commands, commands[m].key, g, m);
    CompletedRow(s, commands, m, i);
  }

  /** The row a granted claim leaves, while every later claim is refused and nothing is completed. */
  lemma {:induction false} WaitingRow(s: Receipts, commands: seq<Command>, g: nat, j: nat)
    requires g < j <= |commands| && !commands[g].Complete? && ReplyAt(true, s, commands, g) == Granted
    requires forall x | g < x < j && commands[x].key == commands[g].key ::
               !commands[x].Complete? && ReplyAt(true, s, commands, x) != Granted
    ensures var (r, key) := (Run(true, s, commands[..j]), commands[g].key);
            key in r && r[key] == Receipt("IN_PROGRESS", "", commands[g].wroteAt)
    decreases j
  {
    RunOneMore(s, commands, j);
    if g < j - 1 {
      WaitingRow(s, commands, g, j - 1);
      assert commands[j - 1].key == commands[g].key ==> ReplyAt(true, s, commands, j - 1) != Granted;
      RowKept(Run(true, s, commands[..j - 1]), commands[j - 1], commands[g].key);
    }
  }

  /**
   * While an action is neither completed nor reclaimed, a claim is granted exactly when the one in
   * progress is more than five minutes old; otherwise it is told that the action is being processed.
   */
  lemma ClaimWhileInProgress(s: Receipts, commands: seq<Command>, g: nat, i: nat)
    requires g < i < |commands| && commands[i].Claim? && commands[i].key == commands[g].key
    requires !commands[g].Complete? && ReplyAt(true, s, commands, g) == Granted
    requires forall x | g < x < i && commands[x].key == commands[g].key ::
               !commands[x].Complete? && ReplyAt(true, s, commands, x) != Granted
    ensures ReplyAt(true, s, commands, i)
         == if commands[g].wroteAt + 5 * 60_000_000 < commands[i].readAt then Granted
            else Refused(Stored("IN_PROGRESS", "This action is already being processed."))
  {
    WaitingRow(s, commands, g, i);
  }

  // ----- the coordinator object -----

  class ResponseCoordinator {
    const enabled: bool
    var receipts: Receipts

    constructor (enabled: bool)
      ensures this.enabled == enabled && receipts == map[]
    {
      this.enabled := enabled;
      receipts := map[];
    }

    method TryClaim(key: string, readAt: int, wroteAt: int) returns (reply: Reply)
      modifies this`receipts
      ensures (receipts, reply) == Apply(enabled, old(receipts), Claim(key, readAt, wroteAt))
      ensures !enabled ==> reply == Granted && receipts == old(receipts)
      ensures enabled && key !in old(receipts) ==>
                reply == Granted && receipts == old(receipts)[key := Receipt("IN_PROGRESS", "", wroteAt)]
      ensures reply.Refused? && old(receipts)[key].code != "" ==> reply.stored.code == old(receipts)[key].code
      ensures reply.Refused? && old(receipts)[key].text != "" ==> reply.stored.text == old(receipts)[key].text
    {
      if !enabled {
        return Granted;
      }
      if key in receipts {
        var existing := receipts[key];
        if existing.code == IN_PROGRESS && existing.processedAt < readAt - CLAIM_TIMEOUT {
          receipts := receipts[key := existing.(processedAt := wroteAt)];
          receipts := receipts[key := Receipt(IN_PROGRESS, "", receipts[key].processedAt)];
          assert receipts == old(receipts)[key := Receipt(IN_PROGRESS, "", wroteAt)];
          return Granted;
        }
        var code := if existing.code != "" then existing.code else IN_PROGRESS;
        var text := if existing.text != "" then existing.text else BEING_PROCESSED;
        return Refused(Stored(code, text));
      }
      reply := CommitInsert(key, wroteAt);
    }

    /** The insert of a claim; it fails on the primary key when another claim got there first. */
    method CommitInsert(key: string, wroteAt: int) returns (reply: Reply)
      requires enabled
      modifies this`receipts
      ensures (receipts, reply) == Apply(enabled, old(receipts), Insert(key, wroteAt))
      ensures reply == Granted <==> key !in old(receipts)
      ensures key in old(receipts) ==>
                reply == Refused(Stored("IN_PROGRESS", "This action is already being processed."))
    {
      if key in receipts {
        return Refused(Stored(IN_PROGRESS, BEING_PROCESSED));
      }
      receipts := receipts[key := Receipt(IN_PROGRESS, "", wroteAt)];
      reply := Granted;
    }

    method Finish(key: string, code: string, text: string, at: int)
      modifies this`receipts
      ensures receipts == Apply(enabled, old(receipts), Complete(key, code, text, at)).0
      ensures !enabled || key !in old(receipts) ==> receipts == old(receipts)
    {
      if !enabled {
        return;
      }
      if key in receipts {
        receipts := receipts[key := Receipt(code, text, receipts[key].processedAt)];
        receipts := receipts[key := receipts[key].(processedAt := at)];
      }
    }
  }
}
