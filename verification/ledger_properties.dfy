/** Consequences for whole runs: audit trails, numbering, drafts and interaction revisions. */
module LedgerProperties {
  import opened Domain
  import opened Wrappers
  import opened Tasks
  import opened TaskIds
  import opened Ledger
  import opened LedgerInvariant

  // ----- audit trails -----

  lemma ReachableTask(cfg: Settings, commands: seq<Command>, id: TaskId)
    requires id in Run(cfg, EMPTY, commands).tasks
    ensures TaskOk(cfg, Run(cfg, EMPTY, commands).tasks[id])
  {
    EmptyInv(cfg);
    RunKeepsInv(cfg, EMPTY, commands);
  }

  /**
   * In every reachable store, each task's trail replays along the transition table to exactly
   * its status, although some operations write the status without consulting the table.
   */
  lemma AuditTrailGivesStatus(cfg: Settings, commands: seq<Command>, id: TaskId)
    requires id in Run(cfg, EMPTY, commands).tasks
    ensures var t := Run(cfg, EMPTY, commands).tasks[id];
            Replay(t.audit) == Some(t.status) && History(t.audit) == Some(t.status)
  {
    ReachableTask(cfg, commands, id);
    HistoryReplays(Run(cfg, EMPTY, commands).tasks[id].audit);
  }

  /** A reachable trail holds exactly one acknowledgement once the task has left ASSIGNED, none before. */
  lemma AcknowledgedOnce(cfg: Settings, commands: seq<Command>, id: TaskId)
    requires id in Run(cfg, EMPTY, commands).tasks
    ensures var t := Run(cfg, EMPTY, commands).tasks[id];
            && Count(t.audit, EvAcknowledged) == (if t.status == Assigned then 0 else 1)
            && Count(t.audit, EvVerified) == (if t.status == Verified then 1 else 0)
  {
    ReachableTask(cfg, commands, id);
    HistoryCounts(Run(cfg, EMPTY, commands).tasks[id].audit);
  }

  /** In any beginning of a reachable trail reopenings never outnumber closures, nor resumptions reopenings. */
  lemma AuditTrailCounts(cfg: Settings, commands: seq<Command>, id: TaskId, k: nat)
    requires var s := Run(cfg, EMPTY, commands); id in s.tasks && 1 <= k <= |s.tasks[id].audit|
    ensures var audit := Run(cfg, EMPTY, commands).tasks[id].audit;
            var p := audit[..k];
            && Count(p, EvAcknowledged) <= 1 && Count(p, EvVerified) <= 1
            && Count(p, EvReopened) <= Count(p, EvClosureRequested)
            && Count(p, EvResumed) <= Count(p, EvReopened)
            && (audit[k - 1].event == EvVerified ==> forall j | k <= j < |audit| :: audit[j].event == EvNotified)
  {
    AuditTrailGivesStatus(cfg, commands, id);
    HistoryShape(Run(cfg, EMPTY, commands).tasks[id].audit, k);
  }

  /** Every entry of a reachable trail is by the user entitled to it. */
  lemma AuditTrailAuthors(cfg: Settings, commands: seq<Command>, id: TaskId, k: nat)
    requires var s := Run(cfg, EMPTY, commands); id in s.tasks && k < |s.tasks[id].audit|
    ensures var t := Run(cfg, EMPTY, commands).tasks[id];
            match t.audit[k].event
            case EvCreated => t.audit[k].actor == t.createdBy
            case EvAssigned => t.audit[k].actor == t.createdBy
            case EvNotified => t.audit[k].actor == SYSTEM
            case EvVerified => t.audit[k].actor == Verifier(cfg, t)
            case EvReopened => t.audit[k].actor == Verifier(cfg, t)
            case _ => t.audit[k].actor == t.assignee
    ensures var t := Run(cfg, EMPTY, commands).tasks[id];
            t.audit[k].event == EvVerified || t.audit[k].event == EvReopened ==>
              if cfg.verifierMode == CreatedBy || t.assignee !in cfg.managers || cfg.managers[t.assignee] == "" then
                t.audit[k].actor == t.createdBy
              else
                t.audit[k].actor == cfg.managers[t.assignee]
  {
    ReachableTask(cfg, commands, id);
    var t := Run(cfg, EMPTY, commands).tasks[id];
    EntryAuthor(RolesOf(cfg, t), t.audit, k);
  }

  // ----- numbering -----

  /** In every reachable store the numbers of a series are 1 up to its counter, without gaps. */
  lemma NumbersHaveNoGaps(cfg: Settings, commands: seq<Command>, d: Dept, y: nat, n: nat)
    ensures var s := Run(cfg, EMPTY, commands);
            TaskId(d, y, n) in s.tasks <==> 1 <= n <= LastSequence(s.counters, Series(d, y))
  {
    EmptyInv(cfg);
    RunKeepsInv(cfg, EMPTY, commands);
  }

  /** Different tasks print differently, so keying rows by the printed id loses none. */
  lemma PrintedIdsAreUnique(a: TaskId, b: TaskId)
    requires a.Print() == b.Print()
    ensures a == b
  {
    PublicIdInjective(a.dept, a.year, a.number, b.dept, b.year, b.number);
  }

  // ----- drafts -----

  /** A draft has become a given task. */
  predicate Became(s: Store, d: string, id: TaskId) {
    d in s.drafts && s.drafts[d].state == Consumed && s.drafts[d].taskId == Some(id)
  }

  /** In every reachable store, a draft is consumed exactly when it names an existing task. */
  lemma ConsumedIffTask(cfg: Settings, commands: seq<Command>, d: string)
    requires d in Run(cfg, EMPTY, commands).drafts
    ensures var s := Run(cfg, EMPTY, commands);
            s.drafts[d].state == Consumed <==> s.drafts[d].taskId.Some? && s.drafts[d].taskId.value in s.tasks
  {
    EmptyInv(cfg);
    RunKeepsInv(cfg, EMPTY, commands);
    assert DraftMatched(Run(cfg, EMPTY, commands), d);
  }

  /** Every task was made from one draft, which carries its proposal and names no other task. */
  lemma OneTaskPerDraft(cfg: Settings, commands: seq<Command>, a: TaskId, b: TaskId)
    requires var s := Run(cfg, EMPTY, commands); a in s.tasks && b in s.tasks
    ensures var s := Run(cfg, EMPTY, commands);
            && a in s.origins && b in s.origins
            && Became(s, s.origins[a], a) && MadeFrom(s.tasks[a], s.drafts[s.origins[a]])
            && (s.origins[a] == s.origins[b] ==> a == b)
  {
    EmptyInv(cfg);
    RunKeepsInv(cfg, EMPTY, commands);
    var s := Run(cfg, EMPTY, commands);
    assert a in s.tasks.Keys && b in s.tasks.Keys;
    assert TaskMatched(s, a) && TaskMatched(s, b);
  }

  predicate Claims(c: Command, d: string) {
    c.Claim? && c.draftId == d
  }

  /**
   * How one transaction may change a draft: the requester stays, a row no longer active stays as
   * it is, and only a claim consumes.
   */
  predicate Evolves(a: Draft, b: Draft, claimed: bool) {
    && b.requester == a.requester
    && (a.state != Active ==> b == a)
    && (a.state != Consumed && b.state == Consumed ==> claimed)
  }

  lemma ClaimEvolves(s: Store, c: Command, d: string)
    requires c.Claim? && d in s.drafts
    ensures var r := ApplyClaim(s, c.draftId, c.actor, c.now, c.year, c.crashes).0;
            d in r.drafts && Evolves(s.drafts[d], r.drafts[d], Claims(c, d))
  {
  }

  lemma LookEvolves(s: Store, c: Command, d: string)
    requires (c.Peek? || c.Discard?) && d in s.drafts
    ensures var r := ApplyDraft(s, c).0; d in r.drafts && Evolves(s.drafts[d], r.drafts[d], false)
  {
  }

  lemma DraftCommandEvolves(s: Store, c: Command, d: string)
    requires (c.Stash? || c.Peek? || c.CompletedId? || c.Claim? || c.Discard?) && d in s.drafts
    ensures var r := ApplyDraft(s, c).0; d in r.drafts && Evolves(s.drafts[d], r.drafts[d], Claims(c, d))
  {
    match c
    case Stash(_, _, _, _) =>
    case CompletedId(_, _) =>
    case Claim(_, _, _, _, _) => ClaimEvolves(s, c, d);
    case Peek(_, _, _) => LookEvolves(s, c, d);
    case Discard(_, _, _) => LookEvolves(s, c, d);
  }

  lemma TaskCommandFrame(cfg: Settings, s: Store, c: Command)
    requires c.OnTask? || c.RefreshOverdue?
    ensures var r := ApplyTask(cfg, s, c).0; r.drafts == s.drafts && r.chats == s.chats
  {
  }

  lemma ChatCommandFrame(cfg: Settings, s: Store, c: Command)
    requires c.BeginEvent? || c.SetPending? || c.GetPending? || c.ClearPending?
    ensures ApplyChat(cfg, s, c).0.drafts == s.drafts
  {
    match c
    case BeginEvent(_, _) =>
    case SetPending(_, _, _, _) =>
    case GetPending(_, _) =>
    case ClearPending(_) =>
  }

  lemma OtherCommandsKeepDrafts(cfg: Settings, s: Store, c: Command)
    requires !c.Stash? && !c.Peek? && !c.CompletedId? && !c.Claim? && !c.Discard?
    ensures Apply(cfg, s, c).0.drafts == s.drafts
  {
    if c.OnTask? || c.RefreshOverdue? {
      TaskCommandFrame(cfg, s, c);
    } else {
      ChatCommandFrame(cfg, s, c);
    }
  }

  lemma ApplyEvolves(cfg: Settings, s: Store, c: Command, d: string)
    requires d in s.drafts
    ensures d in Apply(cfg, s, c).0.drafts
    ensures Evolves(s.drafts[d], Apply(cfg, s, c).0.drafts[d], Claims(c, d))
  {
    if c.Stash? || c.Peek? || c.CompletedId? || c.Claim? || c.Discard? {
      DraftCommandEvolves(s, c, d);
    } else {
      OtherCommandsKeepDrafts(cfg, s, c);
    }
  }

  /** What a draft has become, it stays; a draft no longer active never becomes active. */
  lemma {:induction false} RunKeepsEnded(cfg: Settings, s: Store, commands: seq<Command>, d: string)
    requires d in s.drafts && s.drafts[d].state != Active
    ensures d in Run(cfg, s, commands).drafts && Run(cfg, s, commands).drafts[d] == s.drafts[d]
  {
    if commands != [] {
      RunKeepsEnded(cfg, s, commands[..|commands| - 1], d);
      ApplyEvolves(cfg, Run(cfg, s, commands[..|commands| - 1]), commands[|commands| - 1], d);
    }
  }

  predicate Answers(c: Command, d: string) {
    (c.Claim? || c.CompletedId?) && c.draftId == d
  }

  lemma CreatedReplyMeans(cfg: Settings, s: Store, c: Command, d: string)
    requires Answers(c, d)
    ensures match Apply(cfg, s, c).1
            case TaskCreated(id) => Became(Apply(cfg, s, c).0, d, id)
            case _ => true
  {
  }

  lemma RunSplit(cfg: Settings, s: Store, commands: seq<Command>, i: nat, j: nat)
    requires i < j <= |commands|
    ensures Run(cfg, s, commands[..i + 1]) == Apply(cfg, Run(cfg, s, commands[..i]), commands[i]).0
    ensures Run(cfg, s, commands[..j]) == Run(cfg, Run(cfg, s, commands[..i + 1]), commands[i + 1..j])
  {
    assert commands[..i + 1][..i] == commands[..i];
    assert commands[..j] == commands[..i + 1] + commands[i + 1..j];
    RunAppend(cfg, s, commands[..i + 1], commands[i + 1..j]);
  }

  lemma CreatedReplyHolds(cfg: Settings, s: Store, commands: seq<Command>, d: string, i: nat, j: nat)
    requires i < j <= |commands| && Answers(commands[i], d) && ReplyAt(cfg, s, commands, i).TaskCreated?
    ensures Became(Run(cfg, s, commands[..j]), d, ReplyAt(cfg, s, commands, i).taskId)
  {
    RunSplit(cfg, s, commands, i, j);
    CreatedReplyMeans(cfg, Run(cfg, s, commands[..i]), commands[i], d);
    RunKeepsEnded(cfg, Run(cfg, s, commands[..i + 1]), commands[i + 1..j], d);
  }

  /** Once a task was announced for a draft, the draft remains that task. */
  lemma CreatedReplyLasts(cfg: Settings, s: Store, commands: seq<Command>, d: string, i: nat)
    requires i < |commands| && Answers(commands[i], d) && ReplyAt(cfg, s, commands, i).TaskCreated?
    ensures forall j | i < j <= |commands| :: Became(Run(cfg, s, commands[..j]), d, ReplyAt(cfg, s, commands, i).taskId)
  {
    forall j | i < j <= |commands|
      ensures Became(Run(cfg, s, commands[..j]), d, ReplyAt(cfg, s, commands, i).taskId)
    {
      CreatedReplyHolds(cfg, s, commands, d, i, j);
    }
  }

  /** What a draft that has become a task answers. */
  lemma AnswerOfConsumed(cfg: Settings, s: Store, c: Command, d: string, id: TaskId)
    requires Answers(c, d) && Became(s, d, id) && Apply(cfg, s, c).1.TaskCreated?
    ensures c.CompletedId? && Apply(cfg, s, c).1 == TaskCreated(id)
  {
  }

  /** All replies that announce a task for one draft announce the same task, however runs interleave. */
  lemma CreatedRepliesAgree(cfg: Settings, s: Store, commands: seq<Command>, d: string, i: nat, j: nat)
    requires i < j < |commands| && Answers(commands[i], d) && Answers(commands[j], d)
    requires ReplyAt(cfg, s, commands, i).TaskCreated? && ReplyAt(cfg, s, commands, j).TaskCreated?
    ensures ReplyAt(cfg, s, commands, i) == ReplyAt(cfg, s, commands, j)
    ensures commands[j].CompletedId?
  {
    CreatedReplyHolds(cfg, s, commands, d, i, j);
    AnswerOfConsumed(cfg, Run(cfg, s, commands[..j]), commands[j], d, ReplyAt(cfg, s, commands, i).taskId);
  }

  // ----- interaction revisions -----

  function RevisionOf(s: Store, k: ChatKey): int {
    ChatOf(s, k).revision
  }

  predicate Begins(c: Command, k: ChatKey) {
    c.BeginEvent? && c.chat == k
  }

  function Begun(commands: seq<Command>, k: ChatKey): nat {
    if commands == [] then 0
    else Begun(commands[..|commands| - 1], k) + if Begins(commands[|commands| - 1], k) then 1 else 0
  }

  lemma WriteKeepsRevision(cfg: Settings, s: Store, c: Command, k: ChatKey)
    requires c.SetPending?
    ensures RevisionOf(ApplyChat(cfg, s, c).0, k) == RevisionOf(s, k)
  {
  }

  lemma ReadKeepsRevision(cfg: Settings, s: Store, c: Command, k: ChatKey)
    requires c.GetPending? || c.ClearPending?
    ensures RevisionOf(ApplyChat(cfg, s, c).0, k) == RevisionOf(s, k)
  {
  }

  lemma ChatCommandRevision(cfg: Settings, s: Store, c: Command, k: ChatKey)
    requires cfg.coordinatorEnabled && (c.BeginEvent? || c.SetPending? || c.GetPending? || c.ClearPending?)
    ensures RevisionOf(ApplyChat(cfg, s, c).0, k) == RevisionOf(s, k) + if Begins(c, k) then 1 else 0
  {
    match c
    case BeginEvent(_, _) =>
    case SetPending(_, _, _, _) => WriteKeepsRevision(cfg, s, c, k);
    case GetPending(_, _) => ReadKeepsRevision(cfg, s, c, k);
    case ClearPending(_) => ReadKeepsRevision(cfg, s, c, k);
  }

  lemma DraftCommandKeepsChats(s: Store, c: Command)
    requires c.Stash? || c.Peek? || c.CompletedId? || c.Claim? || c.Discard?
    ensures ApplyDraft(s, c).0.chats == s.chats
  {
    match c
    case Stash(_, _, _, _) =>
    case Peek(_, _, _) =>
    case CompletedId(_, _) =>
    case Claim(_, _, _, _, _) =>
    case Discard(_, _, _) =>
  }

  lemma OtherCommandsKeepChats(cfg: Settings, s: Store, c: Command)
    requires !c.BeginEvent? && !c.SetPending? && !c.GetPending? && !c.ClearPending?
    ensures Apply(cfg, s, c).0.chats == s.chats
  {
    if c.OnTask? || c.RefreshOverdue? {
      TaskCommandFrame(cfg, s, c);
    } else {
      DraftCommandKeepsChats(s, c);
    }
  }

  lemma ApplyRevision(cfg: Settings, s: Store, c: Command, k: ChatKey)
    requires cfg.coordinatorEnabled
    ensures RevisionOf(Apply(cfg, s, c).0, k) == RevisionOf(s, k) + if Begins(c, k) then 1 else 0
  {
    if c.BeginEvent? || c.SetPending? || c.GetPending? || c.ClearPending? {
      ChatCommandRevision(cfg, s, c, k);
    } else {
      OtherCommandsKeepChats(cfg, s, c);
    }
  }

  /** A row's revision counts exactly the events begun in its conversation. */
  lemma {:induction false} RunRevision(cfg: Settings, s: Store, commands: seq<Command>, k: ChatKey)
    requires cfg.coordinatorEnabled
    ensures RevisionOf(Run(cfg, s, commands), k) == RevisionOf(s, k) + Begun(commands, k)
  {
    if commands != [] {
      RunRevision(cfg, s, commands[..|commands| - 1], k);
      ApplyRevision(cfg, Run(cfg, s, commands[..|commands| - 1]), commands[|commands| - 1], k);
    }
  }

  lemma {:induction false} BegunNone(commands: seq<Command>, k: ChatKey)
    ensures Begun(commands, k) == 0 <==> forall c | c in commands :: !Begins(c, k)
  {
    if commands != [] {
      var last := |commands| - 1;
      BegunNone(commands[..last], k);
      assert commands == commands[..last] + [commands[last]];
    }
  }

  lemma {:induction false} BegunAppend(a: seq<Command>, b: seq<Command>, k: ChatKey)
    ensures Begun(a + b, k) == Begun(a, k) + Begun(b, k)
    decreases |b|
  {
    if b == [] {
      assert a + b == a;
    } else {
      BegunAppend(a, b[..|b| - 1], k);
      assert (a + b)[..|a + b| - 1] == a + b[..|b| - 1];
    }
  }

  /** Revision at a later point of a run, counted from an event that returned its revision. */
  lemma RevisionAfterEvent(cfg: Settings, s: Store, commands: seq<Command>, k: ChatKey, i: nat, j: nat)
    requires cfg.coordinatorEnabled && i < j <= |commands| && Begins(commands[i], k)
    ensures var r := ReplyAt(cfg, s, commands, i);
            r.Revision? && r.current.Some?
            && RevisionOf(Run(cfg, s, commands[..j]), k) == r.current.value + Begun(commands[i + 1..j], k)
  {
    RunSplit(cfg, s, commands, i, j);
    RunRevision(cfg, Run(cfg, s, commands[..i + 1]), commands[i + 1..j], k);
  }

  /** Revisions handed out in one conversation strictly increase. */
  lemma EventRevisionsIncrease(cfg: Settings, s: Store, commands: seq<Command>, k: ChatKey, i: nat, j: nat)
    requires cfg.coordinatorEnabled && i < j < |commands| && Begins(commands[i], k) && Begins(commands[j], k)
    ensures var (a, b) := (ReplyAt(cfg, s, commands, i), ReplyAt(cfg, s, commands, j));
            a.Revision? && b.Revision? && a.current.Some? && b.current.Some? && a.current.value < b.current.value
  {
    RevisionAfterEvent(cfg, s, commands, k, i, j);
  }

  /**
   * A write expecting the revision an event returned succeeds iff no newer event has begun since;
   * when refused it leaves the conversation's row as it was.
   */
  lemma GuardedWriteSucceedsIffCurrent(cfg: Settings, s: Store, commands: seq<Command>, k: ChatKey, form: Form,
                                       now: int, i: nat, j: nat)
    requires cfg.coordinatorEnabled && i < j < |commands| && Begins(commands[i], k)
    requires commands[j] == SetPending(k, form, ReplyAt(cfg, s, commands, i).current, now)
    requires ReplyAt(cfg, s, commands, i).Revision?
    ensures var (at, r) := (Run(cfg, s, commands[..j]), ReplyAt(cfg, s, commands, j));
            var row := ChatOf(Apply(cfg, at, commands[j]).0, k);
            if forall c | c in commands[i + 1..j] :: !Begins(c, k) then
              r == ReplyAt(cfg, s, commands, i) && row.form == form && row.expiresAt == Some(now + PENDING_TTL)
            else
              r == Revision(None) && row == ChatOf(at, k)
  {
    RevisionAfterEvent(cfg, s, commands, k, i, j);
    BegunNone(commands[i + 1..j], k);
  }

  /** Once a newer event has begun, a read never again reports the older revision. */
  lemma SupersededIsNeverCurrent(cfg: Settings, s: Store, commands: seq<Command>, k: ChatKey, now: int, i: nat,
                                 m: nat, j: nat)
    requires cfg.coordinatorEnabled && i < m < j < |commands| && Begins(commands[i], k) && Begins(commands[m], k)
    requires commands[j] == GetPending(k, now)
    ensures var (a, b) := (ReplyAt(cfg, s, commands, i), ReplyAt(cfg, s, commands, j));
            a.Revision? && b.PendingIs? && (b.pending.Some? ==> Some(b.pending.value.revision as int) != a.current)
  {
    RevisionAfterEvent(cfg, s, commands, k, i, j);
    BegunNone(commands[i + 1..j], k);
    assert commands[i + 1..j][m - i - 1] == commands[m];
  }

  // ----- what a read answers -----

  /** Neither overwrites nor clears this conversation's row, nor reads it after its expiry. */
  predicate LeavesForm(c: Command, k: ChatKey, expiresAt: Option<int>) {
    && (c.SetPending? || c.ClearPending? ==> c.chat != k)
    && (c.GetPending? && c.chat == k && expiresAt.Some? ==> c.now <= expiresAt.value)
  }

  lemma ChatCommandLeavesForm(cfg: Settings, s: Store, c: Command, k: ChatKey)
    requires c.BeginEvent? || c.SetPending? || c.GetPending? || c.ClearPending?
    requires LeavesForm(c, k, ChatOf(s, k).expiresAt)
    ensures var row := ChatOf(ApplyChat(cfg, s, c).0, k);
            row.form == ChatOf(s, k).form && row.expiresAt == ChatOf(s, k).expiresAt
  {
    match c
    case BeginEvent(_, _) =>
    case SetPending(_, _, _, _) =>
    case GetPending(_, _) =>
    case ClearPending(_) =>
  }

  lemma {:induction false} RunLeavesForm(cfg: Settings, s: Store, commands: seq<Command>, k: ChatKey)
    requires forall c | c in commands :: LeavesForm(c, k, ChatOf(s, k).expiresAt)
    ensures var row := ChatOf(Run(cfg, s, commands), k);
            row.form == ChatOf(s, k).form && row.expiresAt == ChatOf(s, k).expiresAt
  {
    if commands != [] {
      var front, c := commands[..|commands| - 1], commands[|commands| - 1];
      assert c in commands && forall x | x in front :: x in commands;
      RunLeavesForm(cfg, s, front, k);
      var mid := Run(cfg, s, front);
      if c.BeginEvent? || c.SetPending? || c.GetPending? || c.ClearPending? {
        ChatCommandLeavesForm(cfg, mid, c, k);
      } else {
        OtherCommandsKeepChats(cfg, mid, c);
      }
    }
  }

  /** A read answers nothing exactly when there is no row or its time is up; else it answers the row. */
  lemma ReadAnswersLiveRow(cfg: Settings, s: Store, commands: seq<Command>, k: ChatKey, now: int)
    requires cfg.coordinatorEnabled
    ensures var at := Run(cfg, s, commands);
            var (r, gone) := (Apply(cfg, at, GetPending(k, now)).1,
                              k !in at.chats || (at.chats[k].expiresAt.Some? && at.chats[k].expiresAt.value < now));
            && (r == PendingIs(None) <==> gone)
            && (!gone ==> r == PendingIs(Some(at.chats[k])))
            && ChatOf(at, k).revision == RevisionOf(s, k) + Begun(commands, k)
  {
    RunRevision(cfg, s, commands, k);
  }

  /** In microseconds. */
  function HalfAnHourAfter(at: int): int { at + 30 * 60_000_000 }

  /**
   * For half an hour after a write that was not refused, a read answers the form written, unless a
   * transaction since has overwritten or cleared it; after that it answers nothing.
   */
  lemma ReadAfterWrite(cfg: Settings, s: Store, commands: seq<Command>, k: ChatKey, i: nat, now: int)
    requires cfg.coordinatorEnabled && i < |commands| && commands[i].SetPending? && commands[i].chat == k
    requires ReplyAt(cfg, s, commands, i) != Revision(None)
    requires forall c | c in commands[i + 1..] :: LeavesForm(c, k, Some(HalfAnHourAfter(commands[i].now)))
    ensures var r := Apply(cfg, Run(cfg, s, commands), GetPending(k, now)).1;
            if now <= HalfAnHourAfter(commands[i].now) then
              && r.PendingIs? && r.pending.Some? && r.pending.value.form == commands[i].form
              && r.pending.value.expiresAt == Some(HalfAnHourAfter(commands[i].now))
              && r.pending.value.revision == RevisionOf(s, k) + Begun(commands, k)
            else r == PendingIs(None)
  {
    var written := Run(cfg, s, commands[..i + 1]);
    assert commands[..|commands|] == commands && commands[i + 1..|commands|] == commands[i + 1..];
    RunSplit(cfg, s, commands, i, |commands|);
    WriteLands(cfg, Run(cfg, s, commands[..i]), commands[i]);
    assert commands[..i + 1][..i] == commands[..i];
    RunLeavesForm(cfg, written, commands[i + 1..], k);
    RowStays(cfg, written, commands[i + 1..], k);
    ReadAnswersLiveRow(cfg, s, commands, k, now);
  }

  lemma WriteLands(cfg: Settings, s: Store, c: Command)
    requires cfg.coordinatorEnabled && c.SetPending? && Apply(cfg, s, c).1 != Revision(None)
    ensures var r := Apply(cfg, s, c).0;
            && c.chat in r.chats && r.chats[c.chat].form == c.form
            && r.chats[c.chat].expiresAt == Some(HalfAnHourAfter(c.now))
  {
  }

  predicate Creates(c: Command, k: ChatKey) {
    (c.BeginEvent? || c.SetPending?) && c.chat == k
  }

  lemma ChatCommandCreates(cfg: Settings, s: Store, c: Command, k: ChatKey)
    requires cfg.coordinatorEnabled && (c.BeginEvent? || c.SetPending? || c.GetPending? || c.ClearPending?)
    ensures k in ApplyChat(cfg, s, c).0.chats <==> k in s.chats || Creates(c, k)
  {
    match c
    case BeginEvent(_, _) =>
    case SetPending(_, _, _, _) =>
    case GetPending(_, _) =>
    case ClearPending(_) =>
  }

  /** A conversation has a row exactly when an event began or a write was tried in it, even in vain. */
  lemma {:induction false} RowExistsIff(cfg: Settings, commands: seq<Command>, k: ChatKey)
    requires cfg.coordinatorEnabled
    ensures k in Run(cfg, EMPTY, commands).chats <==> exists c :: c in commands && Creates(c, k)
  {
    if commands != [] {
      var front, c := commands[..|commands| - 1], commands[|commands| - 1];
      assert commands == front + [c];
      RowExistsIff(cfg, front, k);
      if c.BeginEvent? || c.SetPending? || c.GetPending? || c.ClearPending? {
        ChatCommandCreates(cfg, Run(cfg, EMPTY, front), c, k);
      } else {
        OtherCommandsKeepChats(cfg, Run(cfg, EMPTY, front), c);
      }
    }
  }

  lemma ChatCommandKeepsRow(cfg: Settings, s: Store, c: Command, k: ChatKey)
    requires c.BeginEvent? || c.SetPending? || c.GetPending? || c.ClearPending?
    ensures k in s.chats ==> k in ApplyChat(cfg, s, c).0.chats
  {
    match c
    case BeginEvent(_, _) =>
    case SetPending(_, _, _, _) =>
    case GetPending(_, _) =>
    case ClearPending(_) =>
  }

  lemma {:induction false} RowStays(cfg: Settings, s: Store, commands: seq<Command>, k: ChatKey)
    requires k in s.chats
    ensures k in Run(cfg, s, commands).chats
  {
    if commands != [] {
      var mid, c := Run(cfg, s, commands[..|commands| - 1]), commands[|commands| - 1];
      RowStays(cfg, s, commands[..|commands| - 1], k);
      if c.BeginEvent? || c.SetPending? || c.GetPending? || c.ClearPending? {
        ChatCommandKeepsRow(cfg, mid, c, k);
      } else {
        OtherCommandsKeepChats(cfg, mid, c);
      }
    }
  }

  predicate WritesForm(c: Command, k: ChatKey) {
    c.SetPending? && c.chat == k
  }

  predicate Blank(s: Store, k: ChatKey) {
    ChatOf(s, k).form == BLANK && ChatOf(s, k).expiresAt == None
  }

  lemma ChatCommandKeepsBlank(cfg: Settings, s: Store, c: Command, k: ChatKey)
    requires c.BeginEvent? || c.SetPending? || c.GetPending? || c.ClearPending?
    requires Blank(s, k) && !WritesForm(c, k)
    ensures Blank(ApplyChat(cfg, s, c).0, k)
  {
    match c
    case BeginEvent(_, _) =>
    case SetPending(_, _, _, _) =>
    case GetPending(_, _) =>
    case ClearPending(_) =>
  }

  lemma {:induction false} StaysBlank(cfg: Settings, s: Store, commands: seq<Command>, k: ChatKey)
    requires Blank(s, k) && forall c | c in commands :: !WritesForm(c, k)
    ensures Blank(Run(cfg, s, commands), k)
  {
    if commands != [] {
      var front, c := commands[..|commands| - 1], commands[|commands| - 1];
      assert c in commands && forall x | x in front :: x in commands;
      StaysBlank(cfg, s, front, k);
      if c.BeginEvent? || c.SetPending? || c.GetPending? || c.ClearPending? {
        ChatCommandKeepsBlank(cfg, Run(cfg, s, front), c, k);
      } else {
        OtherCommandsKeepChats(cfg, Run(cfg, s, front), c);
      }
    }
  }

  /** After a clear, or a read after the expiry, reads show an empty form until the next write. */
  lemma ReadAfterClear(cfg: Settings, s: Store, commands: seq<Command>, k: ChatKey, i: nat, now: int)
    requires cfg.coordinatorEnabled && i < |commands|
    requires || commands[i] == ClearPending(k)
             || (commands[i].GetPending? && commands[i].chat == k && ReplyAt(cfg, s, commands, i) == PendingIs(None))
    requires forall c | c in commands[i + 1..] :: !WritesForm(c, k)
    ensures var at := Run(cfg, s, commands);
            Apply(cfg, at, GetPending(k, now)).1
            == PendingIs(if k in at.chats then Some(at.chats[k].(form := Form(None, map[], [], ""), expiresAt := None))
                         else None)
  {
    var cleared := Run(cfg, s, commands[..i + 1]);
    assert commands[..|commands|] == commands && commands[i + 1..|commands|] == commands[i + 1..];
    RunSplit(cfg, s, commands, i, |commands|);
    assert commands[..i + 1][..i] == commands[..i];
    ClearBlanks(cfg, Run(cfg, s, commands[..i]), commands[i]);
    StaysBlank(cfg, cleared, commands[i + 1..], k);
    ReadAnswersLiveRow(cfg, s, commands, k, now);
  }

  lemma ClearBlanks(cfg: Settings, s: Store, c: Command)
    requires cfg.coordinatorEnabled
    requires c.ClearPending? || (c.GetPending? && Apply(cfg, s, c).1 == PendingIs(None))
    ensures Blank(Apply(cfg, s, c).0, c.chat)
  {
  }

  // ----- what is not there, and what is switched off -----

  /** With the coordinator off no conversation is ever stored, and reads and writes answer nothing. */
  lemma {:induction false} NoChatsWhenDisabled(cfg: Settings, commands: seq<Command>, k: ChatKey, form: Form,
                                               expected: Option<int>, activity: string, now: int)
    requires !cfg.coordinatorEnabled
    ensures Run(cfg, EMPTY, commands).chats == map[]
    ensures var s := Run(cfg, EMPTY, commands);
            && ApplyChat(cfg, s, BeginEvent(k, activity)).1 == Revision(Some(0))
            && ApplyChat(cfg, s, SetPending(k, form, expected, now)).1 == Revision(None)
            && ApplyChat(cfg, s, GetPending(k, now)).1 == PendingIs(None)
  {
    if commands != [] {
      var front, c := commands[..|commands| - 1], commands[|commands| - 1];
      NoChatsWhenDisabled(cfg, front, k, form, expected, activity, now);
      if !c.BeginEvent? && !c.SetPending? && !c.GetPending? && !c.ClearPending? {
        OtherCommandsKeepChats(cfg, Run(cfg, EMPTY, front), c);
      }
    }
  }

  /** An operation on a task that does not exist changes nothing; only a notification is not told so. */
  lemma MissingTask(cfg: Settings, s: Store, id: TaskId, action: Action, now: int)
    requires id !in s.tasks
    ensures Apply(cfg, s, OnTask(id, action, now)) == (s, Acted(if action.RecordNotified? then Done else NotFound))
  {
  }

  /** An operation on a task touches that row only, as the operation does by itself. */
  lemma OneTaskOnly(cfg: Settings, s: Store, id: TaskId, action: Action, now: int)
    requires id in s.tasks
    ensures var (r, reply) := Apply(cfg, s, OnTask(id, action, now));
            && r.tasks == s.tasks[id := Act(cfg, s.tasks[id], action, now).0]
            && reply == Acted(Act(cfg, s.tasks[id], action, now).1)
            && r.drafts == s.drafts && r.chats == s.chats && r.counters == s.counters
  {
  }
}
